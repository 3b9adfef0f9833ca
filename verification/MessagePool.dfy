/** The message pool of a coop_rudp endpoint: which message slot is where.
    Every list of slot indices the source keeps (the free list, the three rings of each flow, the
    references of each in-flight packet, the messages of each packet of the send batch) is a box;
    `place` is history that says of each slot which kind of box it is in. */
module MessagePool {
  import opened MachineWords
  import opened Receiver

  datatype Kind = Unrel | Rel | Retry

  /** A slot is free, being filled by `rudp_send` for a ring, in a ring, picked from a ring, in packet b
      of the send batch (having come from the given ring), or in an in-flight packet. */
  datatype Place = Free | Fresh(kind: Kind) | Queued(kind: Kind) | Transit(kind: Kind)
    | Packed(b: nat, kind: Kind) | Flight

  /** `rudp_msg`. `owner` is the connection index, `carrier` the number of the packet in flight that
      carries the message (0 for none). `carriedBy` is history: every packet that carried it. */
  datatype Msg = Msg(used: bool, inRetry: bool, queuedKind: Option<Kind>, priority: nat,
                     lostAcks: seq<uint32>, inflightRefs: nat, rel: Reliability, owner: nat, flow: nat,
                     channel: nat, channelSeq: uint16, fragIndex: nat, fragCount: nat, msgId: uint32,
                     replaceKey: uint32, carrier: uint32, deadline: uint64, payload: Bytes,
                     carriedBy: set<uint32>)

  const NoMsg := Msg(false, false, None, 0, [], 0, Unreliable, 0, 0, 0, 0, 0, 0, 0, 0, 0, 0, [], {})

  datatype Key = FreeList | Ring(conn: nat, flow: nat, kind: Kind) | InFlight(conn: nat, slot: nat) | InBatch(b: nat)

  /** A list that is not in the map is empty. */
  type Boxes = map<Key, seq<nat>>

  function At(boxes: Boxes, k: Key): seq<nat> {
    if k in boxes then boxes[k] else []
  }

  const MAX_LOST_ACK_SEQS: nat := 4
  const MAX_REFS: nat := 16

  /** The box a slot belongs to; none while the running operation holds it. */
  function Home(slots: nat, m: Msg, p: Place): Option<Key>
    requires 0 < slots
  {
    match p
    case Free => Some(FreeList)
    case Queued(k) => Some(Ring(m.owner, m.flow, k))
    case Fresh(_) => None
    case Transit(_) => None
    case Packed(b, _) => Some(InBatch(b))
    case Flight => Some(InFlight(m.owner, m.carrier % slots))
  }

  ghost predicate NoDup(s: seq<nat>) {
    forall i, k :: 0 <= i < k < |s| ==> s[i] != s[k]
  }

  /** Every slot is in its home box, once, and in no other. */
  ghost predicate BoxesOk(slots: nat, msgs: seq<Msg>, place: seq<Place>, boxes: Boxes)
    requires 0 < slots && |place| == |msgs|
  {
    && (forall k: Key :: NoDup(At(boxes, k)))
    && (forall k: Key, v :: v in At(boxes, k) ==> v < |msgs| && Home(slots, msgs[v], place[v]) == Some(k))
    && (forall v :: 0 <= v < |msgs| && Home(slots, msgs[v], place[v]).Some? ==>
          v in At(boxes, Home(slots, msgs[v], place[v]).value))
  }

  /** The fields of a slot agree with its place. */
  ghost predicate MsgOk(conns: nat, flows: nat, m: Msg, p: Place) {
    && (m.used <==> p != Free)
    && (m.used ==>
          && m.owner < conns && m.flow < flows
          && |m.lostAcks| <= MAX_LOST_ACK_SEQS
          && (forall i :: 0 <= i < |m.lostAcks| ==> m.lostAcks[i] in m.carriedBy)
          && (p.Flight? ==> IsReliable(m.rel) && m.queuedKind == None && m.inflightRefs == 1
                            && m.carrier != 0 && m.carrier in m.carriedBy)
          && (!p.Flight? ==> m.queuedKind == Some(p.kind) && m.inflightRefs == 0 && m.carrier == 0
                             && (p.kind.Unrel? <==> !IsReliable(m.rel))
                             && (m.lostAcks != [] ==> p.kind.Retry?))
          && (m.inRetry <==> p == Queued(Retry)))
    && (!m.used ==> m == NoMsg)
  }

  // ----- list operations -------------------------------------------------------------------------

  /** `ring_push_priority`: before the first element of lower priority. */
  function InsertByPriority(msgs: seq<Msg>, s: seq<nat>, v: nat): (r: seq<nat>)
    requires v < |msgs| && forall i :: 0 <= i < |s| ==> s[i] < |msgs|
    ensures forall w :: w in r <==> w == v || w in s
    ensures |r| == |s| + 1
  {
    if s == [] then [v]
    else if msgs[v].priority > msgs[s[0]].priority then [v] + s
    else [s[0]] + InsertByPriority(msgs, s[1..], v)
  }

  /** `ring_remove_value`: without the first occurrence. */
  function Removed(s: seq<nat>, v: nat): (r: seq<nat>)
    ensures forall w :: w in r ==> w in s
    ensures forall w :: w in s && w != v ==> w in r
    ensures v !in s ==> r == s
    ensures v in s ==> |r| == |s| - 1
  {
    if s == [] then [] else if s[0] == v then s[1..] else [s[0]] + Removed(s[1..], v)
  }

  lemma {:induction false} RemovedNoDup(s: seq<nat>, v: nat)
    requires NoDup(s)
    ensures NoDup(Removed(s, v)) && v !in Removed(s, v)
  {
    if s != [] {
      if s[0] == v {
        assert forall k :: 0 < k < |s| ==> s[k] != v;
      } else {
        RemovedNoDup(s[1..], v);
        assert s[0] !in s[1..];
        var r := Removed(s[1..], v);
        forall i, k | 0 <= i < k < |[s[0]] + r|
          ensures ([s[0]] + r)[i] != ([s[0]] + r)[k]
        {
          if i == 0 { assert r[k - 1] in s[1..]; }
        }
      }
    }
  }

  lemma {:induction false} InsertNoDup(msgs: seq<Msg>, s: seq<nat>, v: nat)
    requires v < |msgs| && (forall i :: 0 <= i < |s| ==> s[i] < |msgs|) && NoDup(s) && v !in s
    ensures NoDup(InsertByPriority(msgs, s, v))
  {
    if s != [] && msgs[v].priority <= msgs[s[0]].priority {
      assert forall k :: 0 < k < |s| ==> s[k] != s[0];
      InsertNoDup(msgs, s[1..], v);
      var r := InsertByPriority(msgs, s[1..], v);
      assert s[0] !in r;
    }
  }

  lemma FrontNoDup(s: seq<nat>, v: nat)
    requires NoDup(s) && v !in s
    ensures NoDup([v] + s) && NoDup(s + [v])
  {
  }

  // ----- one slot moves --------------------------------------------------------------------------

  /** The box of slot v, if it had one, loses it; the box it goes to, if any, gains it. */
  ghost predicate BoxMove(boxes: Boxes, boxes': Boxes, v: nat, from: Option<Key>, to: Option<Key>) {
    && (forall k: Key :: NoDup(At(boxes', k)))
    && (forall k: Key, w :: w in At(boxes', k) <==>
          if w == v then to == Some(k) else w in At(boxes, k))
  }

  lemma MoveOk(slots: nat, msgs: seq<Msg>, place: seq<Place>, boxes: Boxes, v: nat, m: Msg, p: Place, boxes': Boxes)
    requires 0 < slots && |place| == |msgs| && v < |msgs|
    requires BoxesOk(slots, msgs, place, boxes)
    requires BoxMove(boxes, boxes', v, Home(slots, msgs[v], place[v]), Home(slots, m, p))
    ensures BoxesOk(slots, msgs[v := m], place[v := p], boxes')
  {
    var msgs', place' := msgs[v := m], place[v := p];
    forall k: Key, w | w in At(boxes', k)
      ensures w < |msgs'| && Home(slots, msgs'[w], place'[w]) == Some(k)
    {
      if w != v {
        assert w in At(boxes, k);
        assert w < |msgs| && Home(slots, msgs[w], place[w]) == Some(k);
      }
    }
    forall w | 0 <= w < |msgs'| && Home(slots, msgs'[w], place'[w]).Some?
      ensures w in At(boxes', Home(slots, msgs'[w], place'[w]).value)
    {
      if w != v {
        assert w in At(boxes, Home(slots, msgs[w], place[w]).value);
      }
    }
  }

  /** Taking v out of box k. */
  function TakeOut(boxes: Boxes, k: Key, v: nat): Boxes {
    boxes[k := Removed(At(boxes, k), v)]
  }

  lemma TakeOutOk(slots: nat, msgs: seq<Msg>, place: seq<Place>, boxes: Boxes, v: nat)
    requires 0 < slots && |place| == |msgs| && v < |msgs|
    requires BoxesOk(slots, msgs, place, boxes) && Home(slots, msgs[v], place[v]).Some?
    ensures var k := Home(slots, msgs[v], place[v]).value;
      BoxMove(boxes, TakeOut(boxes, k, v), v, Some(k), None)
  {
    var k := Home(slots, msgs[v], place[v]).value;
    var boxes' := TakeOut(boxes, k, v);
    RemovedNoDup(At(boxes, k), v);
    forall j: Key
      ensures NoDup(At(boxes', j))
      ensures forall w :: w in At(boxes', j) <==> w != v && w in At(boxes, j)
    {
      if j != k { assert At(boxes', j) == At(boxes, j); }
    }
  }

  /** Putting v, which is in no box, at a place of box k that keeps the rest in order. */
  lemma PutInOk(boxes: Boxes, v: nat, k: Key, list: seq<nat>)
    requires forall j: Key :: NoDup(At(boxes, j)) && v !in At(boxes, j)
    requires NoDup(list) && forall w :: w in list <==> w == v || w in At(boxes, k)
    ensures BoxMove(boxes, boxes[k := list], v, None, Some(k))
  {
    var boxes' := boxes[k := list];
    forall j: Key
      ensures NoDup(At(boxes', j))
      ensures forall w :: w in At(boxes', j) <==> if w == v then j == k else w in At(boxes, j)
    {
      if j != k { assert At(boxes', j) == At(boxes, j); }
    }
  }

  lemma MoveCompose(a: Boxes, b: Boxes, d: Boxes, v: nat, from: Option<Key>, to: Option<Key>)
    requires BoxMove(a, b, v, from, None) && BoxMove(b, d, v, None, to)
    ensures BoxMove(a, d, v, from, to)
  {
  }
}
