/** The sending side in the form of the source, where the fields of a message slot decide what is accounted: the
    bodies of the loops over the references of a packet, those loops, and the loop over the tracked numbers. Every
    method leaves the state that the functions of the sender modules describe. */
module SenderEndpoint {
  import opened MachineWords
  import opened SerialNumbers
  import opened Receiver
  import opened MessagePool
  import opened PoolTallies
  import opened Sender
  import opened SenderOps
  import opened SenderAcks
  import AckTracker
  import SenderSteps

  /** The slots of a pool. */
  ghost function Slots(n: nat): (s: set<nat>)
    ensures |s| == n && forall x: nat :: x in s <==> x < n
  {
    if n == 0 then {} else Slots(n - 1) + {n - 1}
  }

  /** A list without duplicates of slots other than v is shorter than the pool. */
  lemma FreeListFits(list: seq<nat>, n: nat, v: nat)
    requires NoDup(list) && v < n && v !in list && forall x :: x in list ==> x < n
    ensures |list| < n
  {
    var r := set x | x in list;
    ListSize(list, r);
    var others := Slots(n) - {v};
    assert |others| == n - 1 && r <= others;
    assert others == r + (others - r);
    assert |others| == |r| + |others - r|;
  }

  class Endpoint {
    const cfg: TxConfig
    const msgs: array<Msg>
    ghost var place: seq<Place>
    var boxes: Boxes
    var sent: seq<seq<SentInfo>>
    const conns: array<ConnTx>
    var batch: seq<OutInfo>

    ghost function View(): Tx
      reads this, msgs, conns
    {
      Tx(msgs[..], place, boxes, sent, conns[..], batch)
    }

    /** `free_msg`. A second guard of the source, that the free list is not full already, never holds. */
    method FreeMsg(v: nat)
      requires v < msgs.Length == |place| && msgs[v].used && msgs[v].owner < conns.Length
      requires NoDup(At(boxes, FreeList)) && v !in At(boxes, FreeList) && msgs.Length <= cfg.maxMessages
      requires forall x :: x in At(boxes, FreeList) ==> x < msgs.Length
      modifies this`place, this`boxes, msgs, conns
      ensures View() == Moved(old(View()), v, NoMsg, Free, old(boxes)[FreeList := At(old(boxes), FreeList) + [v]],
        old(conns[..])[old(msgs[v]).owner := LateSettled(old(conns[..])[old(msgs[v]).owner], old(msgs[v]))])
    {
      FreeListFits(At(boxes, FreeList), msgs.Length, v);
      if !msgs[v].used || |At(boxes, FreeList)| >= cfg.maxMessages { return; }
      var owner := msgs[v].owner;
      if msgs[v].lostAcks != [] { conns[owner] := LateRemoved(conns[owner]); }
      msgs[v] := NoMsg;
      place := place[v := Free];
      boxes := boxes[FreeList := At(boxes, FreeList) + [v]];
    }

    /** A reference is given up: it no longer counts as in flight. The source drops the references of a record
        together at the end; here each leaves the list at once. */
    method GiveUpRef(c: nat, v: nat, number: uint32)
      requires v < msgs.Length && c < conns.Length && 0 < cfg.slots && msgs[v].inflightRefs == 1
      requires msgs[v].carrier == number
      modifies this`boxes, msgs, conns
      ensures boxes == TakeOut(old(boxes), InFlight(c, number % cfg.slots), v)
      ensures msgs[..] == old(msgs[..])[v := old(msgs[v]).(inflightRefs := 0, carrier := 0)]
      ensures conns[..] == old(conns[..])[c := FlightRemoved(old(conns[c]), |old(msgs[v]).payload|)]
    {
      var k := InFlight(c, number % cfg.slots);
      boxes := boxes[k := Removed(At(boxes, k), v)];
      if msgs[v].inflightRefs > 0 {
        conns[c] := FlightRemoved(conns[c], |msgs[v].payload|);
        msgs[v] := msgs[v].(inflightRefs := msgs[v].inflightRefs - 1);
      }
      if msgs[v].carrier == number { msgs[v] := msgs[v].(carrier := 0); }
    }

    /** A reference of an acknowledged packet, in the loop of `release_sent_packet`. */
    method AckRef(c: nat, v: nat, number: uint32)
      requires Core(cfg, View()) && v < msgs.Length && place[v].Flight? && msgs[v].owner == c
      requires msgs[v].carrier == number
      modifies this`place, this`boxes, msgs, conns
      ensures View() == Freed(cfg, old(View()), v)
    {
      ghost var tx := View();
      FlightSlot(cfg, tx, v);
      FreeListOk(cfg, tx, v);
      GiveUpRef(c, v, number);
      FreeMsg(v);
      FreedFlight(cfg, tx, v, View());
    }

    /** `queue_retransmit` */
    method QueueRetransmit(c: nat, v: nat) returns (ok: bool)
      requires v < msgs.Length == |place| && c < conns.Length && msgs[v].used && !msgs[v].inRetry
      requires RingValid(View(), boxes, Ring(c, msgs[v].flow, Retry))
      modifies this`place, this`boxes, msgs, conns
      ensures ok == (|At(old(boxes), Ring(c, old(msgs[v]).flow, Retry))| + 1 < cfg.ringCap)
      ensures !ok ==> View() == old(View())
      ensures ok ==>
        var m, k := old(msgs[v]), Ring(c, old(msgs[v]).flow, Retry);
        View() == Moved(old(View()), v, m.(inRetry := true, queuedKind := Some(Retry)), Queued(Retry),
                        old(boxes)[k := InsertByPriority(old(msgs[..]), At(old(boxes), k), v)],
                        old(conns[..])[c := RetryAdded(old(conns[c]), |m.payload|)])
    {
      var k := Ring(c, msgs[v].flow, Retry);
      if |At(boxes, k)| + 1 >= cfg.ringCap { return false; }
      boxes := boxes[k := InsertByPriority(msgs[..], At(boxes, k), v)];
      msgs[v] := msgs[v].(inRetry := true, queuedKind := Some(Retry));
      conns[c] := RetryAdded(conns[c], |msgs[v].payload|);
      place := place[v := Queued(Retry)];
      return true;
    }

    /** A reference of a lost packet, in the loop of `mark_packet_lost`: it is remembered which packet was lost, and
        the message goes to the retry ring; without room there it is dropped. */
    method LoseRef(c: nat, v: nat, number: uint32)
      requires Core(cfg, View()) && v < msgs.Length && place[v].Flight? && msgs[v].owner == c
      requires msgs[v].carrier == number
      modifies this`place, this`boxes, msgs, conns
      ensures View() == Lost(cfg, old(View()), v)
    {
      ghost var tx := View();
      FlightSlot(cfg, tx, v);
      if msgs[v].lostAcks == [] { conns[c] := LateAdded(conns[c]); }
      msgs[v] := msgs[v].(lostAcks := NoteLost(msgs[v].lostAcks, number));
      GiveUpRef(c, v, number);
      RetryOrDrop(c, v, tx);
    }

    /** The message of a given up reference is queued for retransmission, or dropped. */
    method RetryOrDrop(c: nat, v: nat, ghost tx: Tx)
      requires Core(cfg, tx) && v < |tx.msgs| && tx.place[v].Flight? && tx.msgs[v].owner == c
      requires |tx.msgs[v].lostAcks| <= MAX_LOST_ACK_SEQS && View() == GivenUpRef(cfg, tx, v)
      modifies this`place, this`boxes, msgs, conns
      ensures View() == Lost(cfg, tx, v)
    {
      FlightSlot(cfg, tx, v);
      FreeListOk(cfg, tx, v);
      ghost var k := Ring(c, tx.msgs[v].flow, Retry);
      OutBoxesValid(cfg, tx, v, k);
      InsertSame(tx.msgs, msgs[..], At(boxes, k), v);
      var queued := QueueRetransmit(c, v);
      if queued {
        LostIsQueued(cfg, tx, v, View());
      } else {
        FreeMsg(v);
        LostIsDropped(cfg, tx, v, View());
      }
    }

    /** `mark_packet_lost` */
    method MarkPacketLost(c: nat, i: nat, ghost n: nat, ghost ack: uint32, ghost bits: Word64)
      requires Loose(cfg, View(), n) && c < cfg.maxConns && i < cfg.slots && NothingOut(View(), c)
      modifies this`place, this`boxes, this`sent, msgs, conns
      ensures View() == MarkedLost(cfg, n, old(View()), c, i, ack, bits)
    {
      RecordRefs(cfg, n, View(), c, i);
      LoseRefs(c, sent[c][i].number, At(boxes, InFlight(c, i)), n, ack, bits);
      sent := sent[c := sent[c][i := sent[c][i].(used := false)]];
    }

    /** The loop over the references. */
    method LoseRefs(c: nat, number: uint32, refs: seq<nat>, ghost n: nat, ghost ack: uint32, ghost bits: Word64)
      requires References(cfg, n, View(), c, refs, number)
      modifies this`place, this`boxes, msgs, conns
      ensures View() == LostRefs(cfg, n, old(View()), c, refs, ack, bits)
    {
      ghost var all := LostRefs(cfg, n, View(), c, refs, ack, bits);
      var rest := refs;
      while rest != []
        invariant References(cfg, n, View(), c, rest, number) && LostRefs(cfg, n, View(), c, rest, ack, bits) == all
        decreases |rest|
      {
        LoseNext(c, rest, number, n, ack, bits, all);
        rest := rest[1..];
      }
    }

    method LoseNext(c: nat, refs: seq<nat>, number: uint32, ghost n: nat, ghost ack: uint32, ghost bits: Word64,
                    ghost all: Tx)
      requires References(cfg, n, View(), c, refs, number) && refs != []
      requires LostRefs(cfg, n, View(), c, refs, ack, bits) == all
      modifies this`place, this`boxes, msgs, conns
      ensures References(cfg, n, View(), c, refs[1..], number)
      ensures LostRefs(cfg, n, View(), c, refs[1..], ack, bits) == all
    {
      ghost var tx := View();
      ghost var tx1 := RefLost(cfg, n, tx, refs[0], ack, bits);
      LoseRef(c, refs[0], number);
      ReferencesTail(cfg, n, tx, tx1, c, refs, number);
    }

    /** `release_sent_packet` for an acknowledged packet. */
    method ReleaseSentPacket(c: nat, i: nat, ghost n: nat, ghost ack: uint32, ghost bits: Word64)
      requires Loose(cfg, View(), n) && c < cfg.maxConns && i < cfg.slots && NothingOut(View(), c)
      requires sent[c][i].used && AckTracker.Covers(ack, bits, sent[c][i].number)
      modifies this`place, this`boxes, this`sent, msgs, conns
      ensures View() == Released(cfg, n, old(View()), c, i, ack, bits)
    {
      RecordRefs(cfg, n, View(), c, i);
      RefsCovered(cfg, n, View(), c, i, ack, bits);
      AckRefs(c, sent[c][i].number, At(boxes, InFlight(c, i)), n, ack, bits);
      sent := sent[c := sent[c][i := sent[c][i].(used := false)]];
    }

    method AckRefs(c: nat, number: uint32, refs: seq<nat>, ghost n: nat, ghost ack: uint32, ghost bits: Word64)
      requires References(cfg, n, View(), c, refs, number) && AllCovered(View(), refs, ack, bits)
      modifies this`place, this`boxes, msgs, conns
      ensures View() == FreedRefs(cfg, n, old(View()), c, refs, ack, bits)
    {
      ghost var all := FreedRefs(cfg, n, View(), c, refs, ack, bits);
      var rest := refs;
      while rest != []
        invariant References(cfg, n, View(), c, rest, number) && AllCovered(View(), rest, ack, bits)
        invariant FreedRefs(cfg, n, View(), c, rest, ack, bits) == all
        decreases |rest|
      {
        AckNext(c, rest, number, n, ack, bits, all);
        rest := rest[1..];
      }
    }

    method AckNext(c: nat, refs: seq<nat>, number: uint32, ghost n: nat, ghost ack: uint32, ghost bits: Word64,
                   ghost all: Tx)
      requires References(cfg, n, View(), c, refs, number) && refs != [] && AllCovered(View(), refs, ack, bits)
      requires FreedRefs(cfg, n, View(), c, refs, ack, bits) == all
      modifies this`place, this`boxes, msgs, conns
      ensures References(cfg, n, View(), c, refs[1..], number) && AllCovered(View(), refs[1..], ack, bits)
      ensures FreedRefs(cfg, n, View(), c, refs[1..], ack, bits) == all
    {
      ghost var tx := View();
      ghost var tx1 := RefFreed(cfg, n, tx, refs[0], ack, bits);
      AckRef(c, refs[0], number);
      ReferencesTail(cfg, n, tx, tx1, c, refs, number);
      CoveredTail(tx, tx1, refs, ack, bits);
    }

    /** The loop over the queue of tracked numbers, of `release_acked_packets` and of `service_retransmits`: a number
        stays in the queue if its record is neither gone nor acknowledged nor given up. */
    method GoThroughTracked(c: nat, cause: Cause)
      requires Loose(cfg, View(), 0) && c < cfg.maxConns && NothingOut(View(), c)
      modifies this`place, this`boxes, this`sent, msgs, conns
      ensures View() == SenderSteps.TrackedDone(cfg, old(View()), c, cause)
    {
      var kept := TrackedNumbers(c, cause, conns[c].tracked, 0);
      conns[c] := conns[c].(tracked := kept);
    }

    method TrackedNumbers(c: nat, cause: Cause, todo: seq<int>, ghost n: nat) returns (kept: seq<int>)
      requires Loose(cfg, View(), n) && c < cfg.maxConns && NothingOut(View(), c)
      modifies this`place, this`boxes, this`sent, msgs, conns
      ensures (View(), kept) == TrackedLoop(cfg, n, old(View()), c, cause, todo)
    {
      ghost var all := LoopFrom(cfg, n, View(), c, cause, [], todo);
      LoopBegins(cfg, n, View(), c, cause, todo);
      var rest := todo;
      kept := [];
      while rest != []
        invariant Loose(cfg, View(), n) && NothingOut(View(), c)
        invariant all == LoopFrom(cfg, n, View(), c, cause, kept, rest)
        decreases |rest|
      {
        var stays := TrackedNumber(c, cause, kept, rest, n, all);
        if stays { kept := kept + [rest[0]]; }
        rest := rest[1..];
      }
      LoopEnds(cfg, n, View(), c, cause, kept);
    }

    method TrackedNumber(c: nat, cause: Cause, kept: seq<int>, rest: seq<int>, ghost n: nat, ghost all: (Tx, seq<int>))
      returns (stays: bool)
      requires Loose(cfg, View(), n) && c < cfg.maxConns && NothingOut(View(), c)
      requires rest != [] && all == LoopFrom(cfg, n, View(), c, cause, kept, rest)
      modifies this`place, this`boxes, this`sent, msgs, conns
      ensures Loose(cfg, View(), n) && NothingOut(View(), c)
      ensures all == LoopFrom(cfg, n, View(), c, cause, if stays then kept + [rest[0]] else kept, rest[1..])
    {
      ghost var tx := View();
      ghost var one := OneTracked(cfg, n, tx, c, cause, rest[0]);
      stays := false;
      var i := Wrap32(rest[0]) % cfg.slots;
      if sent[c][i].used && sent[c][i].number == Wrap32(rest[0]) {
        if SenderAcks.Delivered(cause, sent[c][i]) {
          ReleaseSentPacket(c, i, n, AckOf(cause), BitsOf(cause));
        } else if GivenUp(cause, sent[c][i]) {
          MarkPacketLost(c, i, n, AckOf(cause), BitsOf(cause));
        } else {
          stays := true;
        }
      }
      assert one == if stays then None else Some(View());
      LoopStep(cfg, n, tx, c, cause, kept, rest, one);
    }
  }

  /** What the rest of the loop makes, the numbers kept so far included. */
  ghost function LoopFrom(cfg: TxConfig, n: nat, tx: Tx, c: nat, cause: Cause, kept: seq<int>, rest: seq<int>)
    : (Tx, seq<int>)
    requires Loose(cfg, tx, n) && c < cfg.maxConns && NothingOut(tx, c)
  {
    After(kept, TrackedLoop(cfg, n, tx, c, cause, rest))
  }

  ghost function After(kept: seq<int>, r: (Tx, seq<int>)): (Tx, seq<int>) { (r.0, kept + r.1) }

  lemma AfterNone(r: (Tx, seq<int>))
    ensures After([], r) == r
  {
    assert [] + r.1 == r.1;
  }

  lemma {:induction false} LoopBegins(cfg: TxConfig, n: nat, tx: Tx, c: nat, cause: Cause, todo: seq<int>)
    requires Loose(cfg, tx, n) && c < cfg.maxConns && NothingOut(tx, c)
    ensures LoopFrom(cfg, n, tx, c, cause, [], todo) == TrackedLoop(cfg, n, tx, c, cause, todo)
  {
    AfterNone(TrackedLoop(cfg, n, tx, c, cause, todo));
  }

  lemma LoopEnds(cfg: TxConfig, n: nat, tx: Tx, c: nat, cause: Cause, kept: seq<int>)
    requires Loose(cfg, tx, n) && c < cfg.maxConns && NothingOut(tx, c)
    ensures LoopFrom(cfg, n, tx, c, cause, kept, []) == (tx, kept)
  {
    assert kept + [] == kept;
  }

  lemma LoopStep(cfg: TxConfig, n: nat, tx: Tx, c: nat, cause: Cause, kept: seq<int>, rest: seq<int>, one: Option<Tx>)
    requires Loose(cfg, tx, n) && c < cfg.maxConns && NothingOut(tx, c) && rest != []
    requires one == OneTracked(cfg, n, tx, c, cause, rest[0])
    ensures one.Some? ==> Loose(cfg, one.value, n) && NothingOut(one.value, c)
    ensures LoopFrom(cfg, n, tx, c, cause, kept, rest) ==
      if one.Some? then LoopFrom(cfg, n, one.value, c, cause, kept, rest[1..])
      else LoopFrom(cfg, n, tx, c, cause, kept + [rest[0]], rest[1..])
  {
    if one == None {
      var r := TrackedLoop(cfg, n, tx, c, cause, rest[1..]);
      assert kept + [rest[0]] + r.1 == kept + ([rest[0]] + r.1);
    }
  }

  /** The references of a packet that are still to be dealt with: in flight for the connection, with its number. */
  ghost predicate References(cfg: TxConfig, n: nat, tx: Tx, c: nat, refs: seq<nat>, number: uint32) {
    && Loose(cfg, tx, n) && c < cfg.maxConns && NothingOut(tx, c) && AllInFlight(tx, c, refs)
    && forall k :: 0 <= k < |refs| ==> tx.msgs[refs[k]].carrier == number
  }

  lemma ReferencesTail(cfg: TxConfig, n: nat, tx: Tx, tx1: Tx, c: nat, refs: seq<nat>, number: uint32)
    requires References(cfg, n, tx, c, refs, number) && refs != [] && Loose(cfg, tx1, n)
    requires Only(tx, tx1, refs[0]) && !Outgoing(tx1.place[refs[0]])
    ensures References(cfg, n, tx1, c, refs[1..], number)
  {
    AllInFlightTail(tx, tx1, c, refs);
    NothingOutKept(tx, tx1, c, refs[0]);
    forall k | 0 <= k < |refs[1..]|
      ensures tx1.msgs[refs[1..][k]].carrier == number
    {
      assert refs[1..][k] == refs[k + 1] && refs[k + 1] != refs[0];
    }
  }

  ghost predicate AllCovered(tx: Tx, refs: seq<nat>, ack: uint32, bits: Word64) {
    forall k :: 0 <= k < |refs| ==> refs[k] < |tx.msgs| && Covered(tx.msgs[refs[k]], ack, bits)
  }

  lemma CoveredTail(tx: Tx, tx1: Tx, refs: seq<nat>, ack: uint32, bits: Word64)
    requires AllCovered(tx, refs, ack, bits) && refs != [] && NoDup(refs) && Only(tx, tx1, refs[0])
    ensures AllCovered(tx1, refs[1..], ack, bits)
  {
    forall k | 0 <= k < |refs[1..]|
      ensures refs[1..][k] < |tx1.msgs| && Covered(tx1.msgs[refs[1..][k]], ack, bits)
    {
      assert refs[1..][k] == refs[k + 1] && refs[k + 1] != refs[0];
    }
  }

  /** The list of a record are its references. */
  lemma RecordRefs(cfg: TxConfig, n: nat, tx: Tx, c: nat, i: nat)
    requires Loose(cfg, tx, n) && c < cfg.maxConns && i < cfg.slots && NothingOut(tx, c)
    ensures References(cfg, n, tx, c, At(tx.boxes, InFlight(c, i)), tx.sent[c][i].number)
  {
    var refs := At(tx.boxes, InFlight(c, i));
    RefsInFlight(cfg, tx, c, i);
    forall k | 0 <= k < |refs|
      ensures tx.msgs[refs[k]].carrier == tx.sent[c][i].number
    {
      RefsCarry(cfg, tx, c, i, refs[k]);
    }
  }

  /** The references of a record carry its number. */
  lemma RefsCarry(cfg: TxConfig, tx: Tx, c: nat, i: nat, v: nat)
    requires Core(cfg, tx) && FlightOk(cfg, tx) && c < cfg.maxConns && i < cfg.slots
    requires v in At(tx.boxes, InFlight(c, i))
    ensures v < |tx.msgs| && tx.msgs[v].carrier == tx.sent[c][i].number
  {
    InBoxMeans(cfg, tx, InFlight(c, i), v);
  }

  /** The state in which the reference of a lost packet has been given up. */
  ghost function GivenUpRef(cfg: TxConfig, tx: Tx, v: nat): Tx
    requires Core(cfg, tx) && v < |tx.msgs| && tx.place[v].Flight? && |tx.msgs[v].lostAcks| <= MAX_LOST_ACK_SEQS
  {
    FlightSlot(cfg, tx, v);
    var m := tx.msgs[v];
    tx.(msgs := tx.msgs[v := m.(lostAcks := NoteLost(m.lostAcks, m.carrier), inflightRefs := 0, carrier := 0)],
        boxes := OutBoxes(cfg, tx, v),
        conns := tx.conns[m.owner := FlightRemoved(LateCounted(tx.conns[m.owner], m), |m.payload|)])
  }

  function LateCounted(cn: ConnTx, m: Msg): ConnTx { if m.lostAcks == [] then LateAdded(cn) else cn }

  lemma {:induction false} LostIsQueued(cfg: TxConfig, tx: Tx, v: nat, tx': Tx)
    requires Core(cfg, tx) && v < |tx.msgs| && tx.place[v].Flight? && |tx.msgs[v].lostAcks| <= MAX_LOST_ACK_SEQS
    requires var m, b := tx.msgs[v], OutBoxes(cfg, tx, v);
      && m.owner < |tx.conns| && RingValid(tx, b, Ring(m.owner, m.flow, Retry))
      && var k := Ring(m.owner, m.flow, Retry);
         && |At(b, k)| + 1 < cfg.ringCap
         && tx' == Moved(tx, v, LostMsg(m), Queued(Retry), b[k := InsertByPriority(tx.msgs, At(b, k), v)],
              tx.conns[m.owner :=
                RetryAdded(FlightRemoved(LateCounted(tx.conns[m.owner], m), |m.payload|), |m.payload|)])
    ensures tx' == Lost(cfg, tx, v)
  {
  }

  lemma LostIsDropped(cfg: TxConfig, tx: Tx, v: nat, tx': Tx)
    requires Core(cfg, tx) && v < |tx.msgs| && tx.place[v].Flight? && |tx.msgs[v].lostAcks| <= MAX_LOST_ACK_SEQS
    requires var m, b := tx.msgs[v], OutBoxes(cfg, tx, v);
      && m.owner < |tx.conns| && cfg.ringCap <= |At(b, Ring(m.owner, m.flow, Retry))| + 1
      && tx' == Moved(tx, v, NoMsg, Free, b[FreeList := At(b, FreeList) + [v]],
           tx.conns[m.owner := LateRemoved(FlightRemoved(LateCounted(tx.conns[m.owner], m), |m.payload|))])
    ensures tx' == Lost(cfg, tx, v)
  {
    DroppedAccounts(cfg, tx, v);
  }

  /** What a slot in flight is known to be. */
  lemma FlightSlot(cfg: TxConfig, tx: Tx, v: nat)
    requires Core(cfg, tx) && v < |tx.msgs| && tx.place[v].Flight?
    ensures var m := tx.msgs[v];
      && m.used && !m.inRetry && m.owner < |tx.conns| && m.flow < |tx.conns[m.owner].flows| && m.inflightRefs == 1
      && |m.lostAcks| <= MAX_LOST_ACK_SEQS && m.queuedKind == None
      && OutBoxes(cfg, tx, v) == TakeOut(tx.boxes, InFlight(m.owner, m.carrier % cfg.slots), v)
  {
    assert MsgOk(cfg.maxConns, cfg.maxFlows, tx.msgs[v], tx.place[v]);
  }

  /** The free list without the slot, which is not free. */
  lemma FreeListOk(cfg: TxConfig, tx: Tx, v: nat)
    requires Core(cfg, tx) && v < |tx.msgs| && tx.place[v] != Free
    ensures NoDup(At(OutBoxes(cfg, tx, v), FreeList)) && v !in At(OutBoxes(cfg, tx, v), FreeList)
    ensures forall x :: x in At(OutBoxes(cfg, tx, v), FreeList) ==> x < |tx.msgs|
  {
    OutBoxesOk(cfg, tx, v);
    forall x | x in At(OutBoxes(cfg, tx, v), FreeList)
      ensures x < |tx.msgs|
    {
      InBoxMeans(cfg, tx, FreeList, x);
    }
  }

  /** Only the priorities matter where a slot is inserted. */
  lemma {:induction false} InsertSame(msgs: seq<Msg>, msgs': seq<Msg>, s: seq<nat>, v: nat)
    requires |msgs'| == |msgs| && v < |msgs| && forall i :: 0 <= i < |s| ==> s[i] < |msgs|
    requires forall x :: 0 <= x < |msgs| ==> msgs'[x].priority == msgs[x].priority
    ensures InsertByPriority(msgs', s, v) == InsertByPriority(msgs, s, v)
  {
    if s != [] && msgs[v].priority <= msgs[s[0]].priority { InsertSame(msgs, msgs', s[1..], v); }
  }

  /** `LostRef` for a slot in flight. */
  ghost function Lost(cfg: TxConfig, tx: Tx, v: nat): Tx
    requires Core(cfg, tx) && v < |tx.msgs| && tx.place[v].Flight?
  {
    LostRefCore(cfg, tx, v);
    LostRef(cfg, tx, v)
  }

  /** Counting a message as late and freeing it leaves the late count as it was. */
  lemma DroppedAccounts(cfg: TxConfig, tx: Tx, v: nat)
    requires Core(cfg, tx) && v < |tx.msgs| && tx.place[v].Flight?
    ensures var m := tx.msgs[v];
      && m.owner < |tx.conns| && m.flow < |tx.conns[m.owner].flows|
      && var cn := tx.conns[m.owner];
         LateRemoved(FlightRemoved(LateCounted(cn, m), |m.payload|)) ==
         FreedAccounts(cn, m, Flight)
  {
    FlightSlot(cfg, tx, v);
    CounterRoom(cfg, tx, LateMsgs(tx.msgs[v].owner), v, tx.msgs[v].(lostAcks := [1]), tx.place[v]);
  }

  /** Giving up the reference and freeing the slot is what `Freed` says. */
  lemma FreedFlight(cfg: TxConfig, tx: Tx, v: nat, tx': Tx)
    requires Core(cfg, tx) && v < |tx.msgs| && tx.place[v].Flight?
    requires var m, b := tx.msgs[v], OutBoxes(cfg, tx, v);
      && m.owner < |tx.conns| && m.flow < |tx.conns[m.owner].flows|
      && tx' == Moved(tx, v, NoMsg, Free, b[FreeList := At(b, FreeList) + [v]],
                      tx.conns[m.owner := LateSettled(FlightRemoved(tx.conns[m.owner], |m.payload|), m)])
    ensures tx' == Freed(cfg, tx, v)
  {
  }

  /** The late count when a slot is freed. */
  function LateSettled(cn: ConnTx, m: Msg): ConnTx { if m.lostAcks != [] then LateRemoved(cn) else cn }
}
