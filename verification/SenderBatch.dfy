/** `flush_send_batch`: what was sent is recorded, what was not goes back to the rings it came from. */
module SenderBatch {
  import opened MachineWords
  import opened SerialNumbers
  import opened Receiver
  import opened MessagePool
  import opened Sender
  import opened SenderOps
  import opened SenderAcks
  import opened SenderFlush

  // ----- opening the record ----------------------------------------------------------------------

  /** `track_reliable_seq` in a state whose record for x is already open. */
  function TrackedWith(cfg: TxConfig, tx: Tx, c: nat, tracked: seq<int>, x: int): seq<int>
    requires 0 < cfg.slots && c < |tx.sent| && |tx.sent[c]| == cfg.slots
  {
    var t := if |tracked| >= cfg.slots then Pruned(cfg, tx, c, tracked) else tracked;
    (if |t| >= cfg.slots then t[1..] else t) + [x]
  }

  function RecordSet(cfg: TxConfig, tx: Tx, b: nat, now: uint64): Tx
    requires 0 < cfg.slots && b < |tx.batch| && tx.batch[b].conn < |tx.sent|
    requires |tx.sent[tx.batch[b].conn]| == cfg.slots
  {
    var o := tx.batch[b];
    tx.(sent := tx.sent[o.conn := tx.sent[o.conn][o.number % cfg.slots :=
      SentInfo(true, o.number, o.unwrapped, now)]])
  }

  /** Some message of the packet is reliable. */
  predicate HasReliable(tx: Tx, list: seq<nat>) {
    exists i :: 0 <= i < |list| && list[i] < |tx.msgs| && IsReliable(tx.msgs[list[i]].rel)
  }

  lemma SlotUnused(cfg: TxConfig, tx: Tx, b: nat)
    requires Loose(cfg, tx, b) && b < |tx.batch| && HasReliable(tx, At(tx.boxes, InBatch(b)))
    ensures var o := tx.batch[b];
      && o.conn < cfg.maxConns && o.number != 0 && o.number == Wrap32(o.unwrapped)
      && !tx.sent[o.conn][o.number % cfg.slots].used
    ensures forall w :: (0 <= w < |tx.msgs| && tx.place[w].Packed? && b < tx.place[w].b < |tx.batch|
                         && tx.msgs[w].owner == tx.batch[b].conn && IsReliable(tx.msgs[w].rel)) ==>
      tx.batch[tx.place[w].b].number % cfg.slots != tx.batch[b].number % cfg.slots
  {
    var list := At(tx.boxes, InBatch(b));
    var i :| 0 <= i < |list| && list[i] < |tx.msgs| && IsReliable(tx.msgs[list[i]].rel);
    InBoxMeans(cfg, tx, InBatch(b), list[i]);
    assert PackedSlotOk(cfg, tx, b, list[i]);
  }

  /** The slot of the record was not in use: no live record is ever overwritten. */
  lemma RecordSetLoose(cfg: TxConfig, tx: Tx, b: nat, now: uint64)
    requires Loose(cfg, tx, b) && b < |tx.batch| && HasReliable(tx, At(tx.boxes, InBatch(b)))
    ensures tx.batch[b].conn < cfg.maxConns
    ensures !tx.sent[tx.batch[b].conn][tx.batch[b].number % cfg.slots].used
    ensures Loose(cfg, RecordSet(cfg, tx, b, now), b + 1)
    ensures RecordOpen(cfg, RecordSet(cfg, tx, b, now), tx.batch[b].conn, tx.batch[b].number)
  {
    SlotUnused(cfg, tx, b);
    var tx' := RecordSet(cfg, tx, b, now);
    forall v | 0 <= v < |tx'.msgs| && tx'.place[v].Packed?
      ensures PackedSlotOk(cfg, tx', b + 1, v)
    {
      assert PackedSlotOk(cfg, tx, b, v);
    }
  }

  /** The record of packet b is set and its number tracked. */
  ghost function RecordOpened(cfg: TxConfig, tx: Tx, b: nat, now: uint64): (tx': Tx)
    requires Loose(cfg, tx, b) && b < |tx.batch| && HasReliable(tx, At(tx.boxes, InBatch(b)))
    ensures Loose(cfg, tx', b + 1)
    ensures tx.batch[b].conn < cfg.maxConns && RecordOpen(cfg, tx', tx.batch[b].conn, tx.batch[b].number)
    ensures tx' == tx.(sent := RecordSet(cfg, tx, b, now).sent, conns := tx'.conns)
    ensures var c, cn := tx.batch[b].conn, tx.conns[tx.batch[b].conn];
      tx'.conns == tx.conns[c := cn.(tracked := TrackedWith(cfg, RecordSet(cfg, tx, b, now), c, cn.tracked,
                                                            tx.batch[b].unwrapped))]
  {
    RecordSetLoose(cfg, tx, b, now);
    var c, tx1 := tx.batch[b].conn, RecordSet(cfg, tx, b, now);
    var cn := tx.conns[c].(tracked := TrackedWith(cfg, tx1, c, tx.conns[c].tracked, tx.batch[b].unwrapped));
    ConnEdited(cfg, b + 1, tx1, c, cn);
    tx1.(conns := tx1.conns[c := cn])
  }

  // ----- the messages of one sent packet ---------------------------------------------------------

  ghost predicate AllPacked(tx: Tx, b: nat, list: seq<nat>)
    requires |tx.place| == |tx.msgs|
  {
    && NoDup(list)
    && forall i :: 0 <= i < |list| ==> list[i] < |tx.msgs| && tx.place[list[i]].Packed? && tx.place[list[i]].b == b
  }

  lemma BatchBoxPacked(cfg: TxConfig, tx: Tx, b: nat)
    requires Core(cfg, tx)
    ensures AllPacked(tx, b, At(tx.boxes, InBatch(b)))
  {
    var list := At(tx.boxes, InBatch(b));
    forall i | 0 <= i < |list|
      ensures list[i] < |tx.msgs| && tx.place[list[i]].Packed? && tx.place[list[i]].b == b
    {
      InBoxMeans(cfg, tx, InBatch(b), list[i]);
    }
  }

  lemma AllPackedTail(tx: Tx, tx1: Tx, b: nat, list: seq<nat>)
    requires |tx.place| == |tx.msgs| && AllPacked(tx, b, list) && list != [] && Only(tx, tx1, list[0])
    ensures AllPacked(tx1, b, list[1..]) && list[0] !in list[1..]
  {
    forall i | 0 <= i < |list[1..]|
      ensures list[1..][i] != list[0]
    {
      assert list[1..][i] == list[i + 1];
    }
  }

  /** Rings, and packets of the batch other than b, are as they were. */
  ghost predicate OtherListsKept(tx: Tx, tx': Tx, b: nat) {
    && (forall c: nat, f: nat, kind: Kind :: At(tx'.boxes, Ring(c, f, kind)) == At(tx.boxes, Ring(c, f, kind)))
    && (forall d: nat :: d != b ==> At(tx'.boxes, InBatch(d)) == At(tx.boxes, InBatch(d)))
  }

  lemma RecordedLists(cfg: TxConfig, tx: Tx, v: nat, number: uint32)
    requires Core(cfg, tx) && OwnerKnown(tx, v) && tx.place[v].Packed?
    requires v in At(tx.boxes, InBatch(tx.place[v].b))
    ensures var tx' := Recorded(cfg, tx, v, number); OtherListsKept(tx, tx', tx.place[v].b)
    ensures var k := InFlight(tx.msgs[v].owner, number % cfg.slots);
      |At(Recorded(cfg, tx, v, number).boxes, k)| == |At(tx.boxes, k)| + 1
  {
  }

  lemma FreedLists(cfg: TxConfig, tx: Tx, v: nat)
    requires Core(cfg, tx) && OwnerKnown(tx, v) && tx.place[v].Packed?
    ensures OtherListsKept(tx, Freed(cfg, tx, v), tx.place[v].b)
  {
  }

  /** Room in the record of connection c for as many messages. */
  ghost predicate RecordRoom(cfg: TxConfig, tx: Tx, c: nat, number: uint32, n: nat)
    requires ValidTx(cfg) && TxShape(cfg, tx)
  {
    RecordOpen(cfg, tx, c, number) && |At(tx.boxes, InFlight(c, number % cfg.slots))| + n <= MAX_REFS
  }

  /** One reference of the record. */
  ghost function RefRecorded(cfg: TxConfig, n: nat, tx: Tx, v: nat, number: uint32, room: nat): (tx': Tx)
    requires Loose(cfg, tx, n) && v < |tx.msgs| && tx.place[v].Packed? && IsReliable(tx.msgs[v].rel)
    requires 0 < room && RecordRoom(cfg, tx, tx.msgs[v].owner, number, room)
    ensures Loose(cfg, tx', n) && Only(tx, tx', v) && OtherListsKept(tx, tx', tx.place[v].b)
    ensures RecordRoom(cfg, tx', tx.msgs[v].owner, number, room - 1)
    ensures tx'.place[v].Flight? && tx'.msgs[v] == RecordedMsg(tx.msgs[v], number)
  {
    RecordedLoose(cfg, n, tx, v, number);
    RecordedLists(cfg, tx, v, number);
    Recorded(cfg, tx, v, number)
  }

  lemma OnlyInSkip(tx: Tx, tx': Tx, list: seq<nat>)
    requires list != [] && OnlyIn(tx, tx', list[1..])
    ensures OnlyIn(tx, tx', list)
  {
    assert forall w :: w in list[1..] ==> w in list;
  }

  lemma OtherListsTransitive(a: Tx, b: Tx, d: Tx, p: nat)
    requires OtherListsKept(a, b, p) && OtherListsKept(b, d, p)
    ensures OtherListsKept(a, d, p)
  {
  }

  /** The reliable messages of the list are references of the record; the others are as they were. */
  ghost predicate RefsDone(tx: Tx, tx': Tx, number: uint32, list: seq<nat>)
    requires |tx.msgs| == |tx.place| == |tx'.msgs| == |tx'.place|
  {
    forall v :: v in list && v < |tx.msgs| ==>
      if IsReliable(tx.msgs[v].rel)
      then tx'.place[v].Flight? && tx'.msgs[v] == RecordedMsg(tx.msgs[v], number)
      else tx'.place[v] == tx.place[v] && tx'.msgs[v] == tx.msgs[v]
  }

  /** A message of the packet in that loop. */
  ghost function NextRecorded(cfg: TxConfig, n: nat, tx: Tx, v: nat, b: nat, number: uint32, room: nat): (tx': Tx)
    requires Loose(cfg, tx, n) && v < |tx.msgs| && tx.place[v].Packed? && tx.place[v].b == b
    requires 0 < room && RecordRoom(cfg, tx, tx.msgs[v].owner, number, room)
    ensures Loose(cfg, tx', n) && Only(tx, tx', v) && OtherListsKept(tx, tx', b)
    ensures RecordRoom(cfg, tx', tx.msgs[v].owner, number, room - 1)
    ensures RefsDone(tx, tx', number, [v])
  {
    if IsReliable(tx.msgs[v].rel) then RefRecorded(cfg, n, tx, v, number, room) else tx
  }

  lemma RefsNext(tx: Tx, tx1: Tx, c: nat, b: nat, list: seq<nat>)
    requires |tx.place| == |tx.msgs| && list != [] && AllPacked(tx, b, list) && Only(tx, tx1, list[0])
    requires forall i :: 0 <= i < |list| ==> tx.msgs[list[i]].owner == c
    ensures AllPacked(tx1, b, list[1..])
    ensures forall i :: 0 <= i < |list[1..]| ==> tx1.msgs[list[1..][i]].owner == c
  {
    AllPackedTail(tx, tx1, b, list);
    forall i | 0 <= i < |list[1..]|
      ensures tx1.msgs[list[1..][i]].owner == c
    {
      assert list[1..][i] == list[i + 1] && list[i + 1] != list[0];
    }
  }

  lemma RefsThen(tx: Tx, tx1: Tx, tx2: Tx, b: nat, number: uint32, list: seq<nat>)
    requires list != [] && |tx.place| == |tx.msgs| && AllPacked(tx, b, list)
    requires Only(tx, tx1, list[0]) && OtherListsKept(tx, tx1, b) && RefsDone(tx, tx1, number, [list[0]])
    requires OnlyIn(tx1, tx2, list[1..]) && OtherListsKept(tx1, tx2, b) && RefsDone(tx1, tx2, number, list[1..])
    ensures OnlyIn(tx, tx2, list) && OtherListsKept(tx, tx2, b) && RefsDone(tx, tx2, number, list)
  {
    AllPackedTail(tx, tx1, b, list);
    OnlyThenIn(tx, tx1, tx2, list);
    OtherListsTransitive(tx, tx1, tx2, b);
    assert list[0] in [list[0]];
    forall v | v in list && v != list[0]
      ensures v in list[1..]
    {
      var i :| 0 <= i < |list| && list[i] == v;
      assert list[1..][i - 1] == v;
    }
  }

  /** The loop of `record_sent_packet`: the reliable messages of the packet become its references. */
  ghost function RefsRecorded(cfg: TxConfig, n: nat, tx: Tx, c: nat, b: nat, number: uint32, list: seq<nat>): (tx': Tx)
    requires Loose(cfg, tx, n) && AllPacked(tx, b, list)
    requires forall i :: 0 <= i < |list| ==> tx.msgs[list[i]].owner == c
    requires RecordRoom(cfg, tx, c, number, |list|)
    ensures Loose(cfg, tx', n) && OnlyIn(tx, tx', list) && OtherListsKept(tx, tx', b)
    ensures RefsDone(tx, tx', number, list)
    decreases |list|
  {
    if list == [] then tx
    else
      var tx1 := NextRecorded(cfg, n, tx, list[0], b, number, |list|);
      RefsNext(tx, tx1, c, b, list);
      var tx2 := RefsRecorded(cfg, n, tx1, c, b, number, list[1..]);
      RefsThen(tx, tx1, tx2, b, number, list);
      tx2
  }

  ghost function OneFreed(cfg: TxConfig, n: nat, tx: Tx, v: nat): (tx': Tx)
    requires Loose(cfg, tx, n) && v < |tx.msgs| && tx.place[v].Packed?
    ensures Loose(cfg, tx', n) && Only(tx, tx', v) && OtherListsKept(tx, tx', tx.place[v].b)
    ensures tx'.place[v].Free? && tx'.msgs[v] == NoMsg
  {
    FreedLoose(cfg, n, tx, v);
    FreedLists(cfg, tx, v);
    Freed(cfg, tx, v)
  }

  /** The unreliable messages of a sent packet are freed. */
  ghost function RestFreed(cfg: TxConfig, n: nat, tx: Tx, b: nat, list: seq<nat>): (tx': Tx)
    requires Loose(cfg, tx, n) && AllPacked(tx, b, list)
    requires forall i :: 0 <= i < |list| ==> !IsReliable(tx.msgs[list[i]].rel)
    ensures Loose(cfg, tx', n) && OnlyIn(tx, tx', list) && OtherListsKept(tx, tx', b)
    ensures forall v :: v in list ==> tx'.place[v].Free? && tx'.msgs[v] == NoMsg
    decreases |list|
  {
    if list == [] then tx
    else
      var tx1 := OneFreed(cfg, n, tx, list[0]);
      AllPackedTail(tx, tx1, b, list);
      var tx2 := RestFreed(cfg, n, tx1, b, list[1..]);
      OnlyThenIn(tx, tx1, tx2, list);
      OtherListsTransitive(tx, tx1, tx2, b);
      tx2
  }

  function Unreliables(tx: Tx, list: seq<nat>): (r: seq<nat>)
    requires forall i :: 0 <= i < |list| ==> list[i] < |tx.msgs|
    ensures forall v :: v in r <==> v in list && !IsReliable(tx.msgs[v].rel)
  {
    if list == [] then []
    else (if IsReliable(tx.msgs[list[0]].rel) then [] else [list[0]]) + Unreliables(tx, list[1..])
  }

  lemma {:induction false} UnreliablesNoDup(tx: Tx, list: seq<nat>)
    requires (forall i :: 0 <= i < |list| ==> list[i] < |tx.msgs|) && NoDup(list)
    ensures NoDup(Unreliables(tx, list))
  {
    if list != [] {
      assert forall k :: 0 < k < |list| ==> list[k] != list[0];
      UnreliablesNoDup(tx, list[1..]);
    }
  }

  /** The unreliable messages left in packet b after its reliable ones were recorded. */
  lemma {:induction false} RestPacked(tx: Tx, tx1: Tx, b: nat, list: seq<nat>)
    requires |tx.place| == |tx.msgs| && |tx1.place| == |tx1.msgs| == |tx.msgs| && AllPacked(tx, b, list)
    requires forall v :: v in list && !IsReliable(tx.msgs[v].rel) ==>
      tx1.place[v] == tx.place[v] && tx1.msgs[v] == tx.msgs[v]
    ensures AllPacked(tx1, b, Unreliables(tx, list))
    ensures forall i :: 0 <= i < |Unreliables(tx, list)| ==> !IsReliable(tx1.msgs[Unreliables(tx, list)[i]].rel)
  {
    UnreliablesNoDup(tx, list);
    var rest := Unreliables(tx, list);
    forall i | 0 <= i < |rest|
      ensures rest[i] < |tx1.msgs| && tx1.place[rest[i]].Packed? && tx1.place[rest[i]].b == b
      ensures !IsReliable(tx1.msgs[rest[i]].rel)
    {
      assert rest[i] in rest;
    }
  }

  /** What a sent packet does to slot v: its reliable messages are in flight, the others are free. */
  ghost predicate SlotSent(tx: Tx, tx': Tx, b: nat, v: nat)
    requires v < |tx.msgs| == |tx.place| == |tx'.msgs| == |tx'.place| && b < |tx.batch|
  {
    if tx.place[v].Packed? && tx.place[v].b == b then
      if IsReliable(tx.msgs[v].rel) then
        tx'.place[v].Flight? && tx'.msgs[v] == RecordedMsg(tx.msgs[v], tx.batch[b].number)
      else tx'.place[v].Free? && tx'.msgs[v] == NoMsg
    else tx'.place[v] == tx.place[v] && tx'.msgs[v] == tx.msgs[v]
  }

  /** The messages of packet b after it was sent. */
  ghost predicate MessagesSent(tx: Tx, tx': Tx, b: nat) {
    && b < |tx.batch| && tx'.batch == tx.batch
    && |tx.msgs| == |tx.place| == |tx'.msgs| == |tx'.place| && |tx'.conns| == |tx.conns|
    && (forall v :: 0 <= v < |tx.msgs| ==> SlotSent(tx, tx', b, v))
    && OtherListsKept(tx, tx', b)
  }

  lemma NoFlightInUnused(cfg: TxConfig, n: nat, tx: Tx, c: nat, i: nat)
    requires Loose(cfg, tx, n) && c < cfg.maxConns && i < cfg.slots && !tx.sent[c][i].used
    ensures At(tx.boxes, InFlight(c, i)) == []
  {
    var list := At(tx.boxes, InFlight(c, i));
    if list != [] {
      InBoxMeans(cfg, tx, InFlight(c, i), list[0]);
    }
  }

  lemma AllReliableOwned(cfg: TxConfig, n: nat, tx: Tx, b: nat)
    requires Loose(cfg, tx, n) && b < |tx.batch|
    ensures var list := At(tx.boxes, InBatch(b));
      forall i :: 0 <= i < |list| ==> list[i] < |tx.msgs| && tx.msgs[list[i]].owner == tx.batch[b].conn
  {
    var list := At(tx.boxes, InBatch(b));
    forall i | 0 <= i < |list|
      ensures list[i] < |tx.msgs| && tx.msgs[list[i]].owner == tx.batch[b].conn
    {
      InBoxMeans(cfg, tx, InBatch(b), list[i]);
      assert PackedSlotOk(cfg, tx, n, list[i]);
    }
  }

  /** The reliable messages of packet b have gone; nothing else changed. */
  ghost predicate ReliablesGone(tx: Tx, tx2: Tx, b: nat) {
    && b < |tx.batch| && tx2.batch == tx.batch
    && |tx.msgs| == |tx.place| == |tx2.msgs| == |tx2.place| && |tx2.conns| == |tx.conns|
    && OtherListsKept(tx, tx2, b)
    && forall v :: 0 <= v < |tx.msgs| ==>
         if tx.place[v].Packed? && tx.place[v].b == b && IsReliable(tx.msgs[v].rel)
         then tx2.place[v].Flight? && tx2.msgs[v] == RecordedMsg(tx.msgs[v], tx.batch[b].number)
         else tx2.place[v] == tx.place[v] && tx2.msgs[v] == tx.msgs[v]
  }

  lemma PackedInBox(cfg: TxConfig, tx: Tx, b: nat)
    requires Core(cfg, tx)
    ensures forall v :: 0 <= v < |tx.msgs| ==>
      (v in At(tx.boxes, InBatch(b)) <==> tx.place[v].Packed? && tx.place[v].b == b)
  {
    forall v | 0 <= v < |tx.msgs|
      ensures v in At(tx.boxes, InBatch(b)) <==> tx.place[v].Packed? && tx.place[v].b == b
    {
      var h := Home(cfg.slots, tx.msgs[v], tx.place[v]);
      assert h.Some? ==> v in At(tx.boxes, h.value);
      if v in At(tx.boxes, InBatch(b)) {
        InBoxMeans(cfg, tx, InBatch(b), v);
      }
    }
  }

  /** The rest of a sent packet: its unreliable messages are freed. */
  ghost function PacketRest(cfg: TxConfig, tx: Tx, tx2: Tx, b: nat): (tx': Tx)
    requires Core(cfg, tx) && Loose(cfg, tx2, b + 1) && ReliablesGone(tx, tx2, b)
    ensures Loose(cfg, tx', b + 1) && MessagesSent(tx, tx', b)
    ensures tx'.sent == tx2.sent
    ensures forall c :: 0 <= c < |tx.conns| ==> SameNumbering(tx2.conns[c], tx'.conns[c])
  {
    RestReady(cfg, tx, tx2, b);
    var rest := Unreliables(tx, At(tx.boxes, InBatch(b)));
    var tx' := RestFreed(cfg, b + 1, tx2, b, rest);
    RestEffect(tx, tx2, tx', b, rest);
    tx'
  }

  lemma {:induction false} RestReady(cfg: TxConfig, tx: Tx, tx2: Tx, b: nat)
    requires Core(cfg, tx) && ReliablesGone(tx, tx2, b)
    ensures var list := At(tx.boxes, InBatch(b));
      && (forall i :: 0 <= i < |list| ==> list[i] < |tx.msgs|)
      && AllPacked(tx2, b, Unreliables(tx, list))
      && (forall i :: 0 <= i < |Unreliables(tx, list)| ==> !IsReliable(tx2.msgs[Unreliables(tx, list)[i]].rel))
      && (forall v: nat :: v in Unreliables(tx, list) <==>
            v < |tx.msgs| && tx.place[v].Packed? && tx.place[v].b == b && !IsReliable(tx.msgs[v].rel))
  {
    BatchBoxPacked(cfg, tx, b);
    PackedInBox(cfg, tx, b);
    RestPacked(tx, tx2, b, At(tx.boxes, InBatch(b)));
  }

  lemma RestEffect(tx: Tx, tx2: Tx, tx3: Tx, b: nat, rest: seq<nat>)
    requires ReliablesGone(tx, tx2, b) && OnlyIn(tx2, tx3, rest) && OtherListsKept(tx2, tx3, b)
    requires forall v: nat :: v in rest <==>
      v < |tx.msgs| && tx.place[v].Packed? && tx.place[v].b == b && !IsReliable(tx.msgs[v].rel)
    requires forall v :: v in rest ==> tx3.place[v].Free? && tx3.msgs[v] == NoMsg
    ensures MessagesSent(tx, tx3, b)
  {
  }

  /** The records and the numbering of the connections are the same. */
  ghost predicate NumberedAs(tx: Tx, tx': Tx) {
    && tx'.sent == tx.sent && |tx'.conns| == |tx.conns|
    && forall c :: 0 <= c < |tx.conns| ==> SameNumbering(tx.conns[c], tx'.conns[c])
  }

  lemma NumberedThen(tx1: Tx, tx2: Tx, tx3: Tx)
    requires NumberedAs(tx1, tx2) && NumberedAs(tx2, tx3)
    ensures NumberedAs(tx1, tx3)
  {
  }

  /** The part of `record_sent_packet` that fills the record. */
  ghost function ReliablesRecorded(cfg: TxConfig, tx: Tx, b: nat, now: uint64): (tx': Tx)
    requires Loose(cfg, tx, b) && b < |tx.batch| && HasReliable(tx, At(tx.boxes, InBatch(b)))
    ensures Loose(cfg, tx', b + 1) && ReliablesGone(tx, tx', b)
    ensures NumberedAs(RecordOpened(cfg, tx, b, now), tx')
  {
    var tx1 := RecordOpened(cfg, tx, b, now);
    OpeningReady(cfg, tx, tx1, b);
    PackedInBox(cfg, tx, b);
    RefsRecorded(cfg, b + 1, tx1, tx.batch[b].conn, b, tx.batch[b].number, At(tx.boxes, InBatch(b)))
  }

  lemma OpeningReady(cfg: TxConfig, tx: Tx, tx1: Tx, b: nat)
    requires Loose(cfg, tx, b) && b < |tx.batch| && HasReliable(tx, At(tx.boxes, InBatch(b)))
    requires Core(cfg, tx1) && RecordOpen(cfg, tx1, tx.batch[b].conn, tx.batch[b].number)
    requires tx1 == tx.(sent := tx1.sent, conns := tx1.conns)
    ensures var list := At(tx.boxes, InBatch(b));
      && AllPacked(tx1, b, list) && RecordRoom(cfg, tx1, tx.batch[b].conn, tx.batch[b].number, |list|)
      && forall i :: 0 <= i < |list| ==> tx1.msgs[list[i]].owner == tx.batch[b].conn
  {
    NoFlightAtOpening(cfg, tx, b);
    AllReliableOwned(cfg, b, tx, b);
    BatchBoxPacked(cfg, tx, b);
  }

  /** A packet with reliable messages. */
  ghost function PacketRecorded(cfg: TxConfig, tx: Tx, b: nat, now: uint64): (tx': Tx)
    requires Loose(cfg, tx, b) && b < |tx.batch| && HasReliable(tx, At(tx.boxes, InBatch(b)))
    ensures Loose(cfg, tx', b + 1) && MessagesSent(tx, tx', b)
    ensures NumberedAs(RecordOpened(cfg, tx, b, now), tx')
  {
    var tx2 := ReliablesRecorded(cfg, tx, b, now);
    var tx3 := PacketRest(cfg, tx, tx2, b);
    NumberedThen(RecordOpened(cfg, tx, b, now), tx2, tx3);
    tx3
  }

  lemma NoFlightAtOpening(cfg: TxConfig, tx: Tx, b: nat)
    requires Loose(cfg, tx, b) && b < |tx.batch| && HasReliable(tx, At(tx.boxes, InBatch(b)))
    ensures At(tx.boxes, InFlight(tx.batch[b].conn, tx.batch[b].number % cfg.slots)) == []
  {
    SlotUnused(cfg, tx, b);
    NoFlightInUnused(cfg, b, tx, tx.batch[b].conn, tx.batch[b].number % cfg.slots);
  }

  lemma NothingReliable(cfg: TxConfig, tx: Tx, b: nat)
    requires Loose(cfg, tx, b) && b < |tx.batch| && !HasReliable(tx, At(tx.boxes, InBatch(b)))
    ensures Loose(cfg, tx, b + 1) && ReliablesGone(tx, tx, b)
  {
    LooseMore(cfg, b, tx);
    PackedInBox(cfg, tx, b);
  }

  lemma LooseMore(cfg: TxConfig, n: nat, tx: Tx)
    requires Loose(cfg, tx, n)
    ensures Loose(cfg, tx, n + 1)
  {
    forall v | 0 <= v < |tx.msgs| && tx.place[v].Packed?
      ensures PackedSlotOk(cfg, tx, n + 1, v)
    {
      assert PackedSlotOk(cfg, tx, n, v);
    }
  }

  /** A packet of unreliable messages only, or an acknowledgement. */
  ghost function PacketGone(cfg: TxConfig, tx: Tx, b: nat): (tx': Tx)
    requires Loose(cfg, tx, b) && b < |tx.batch| && !HasReliable(tx, At(tx.boxes, InBatch(b)))
    ensures Loose(cfg, tx', b + 1) && MessagesSent(tx, tx', b)
    ensures NumberedAs(tx, tx')
  {
    NothingReliable(cfg, tx, b);
    PacketRest(cfg, tx, tx, b)
  }

  /** One round of the first loop of `flush_send_batch`. */
  ghost function PacketSent(cfg: TxConfig, tx: Tx, b: nat, now: uint64): (tx': Tx)
    requires Loose(cfg, tx, b) && b < |tx.batch|
    ensures Loose(cfg, tx', b + 1) && MessagesSent(tx, tx', b)
  {
    if HasReliable(tx, At(tx.boxes, InBatch(b))) then PacketRecorded(cfg, tx, b, now)
    else PacketGone(cfg, tx, b)
  }

  /** Slot v after the packets below k were sent. */
  ghost predicate SlotSentBelow(tx: Tx, tx': Tx, k: nat, v: nat)
    requires v < |tx.msgs| == |tx.place| == |tx'.msgs| == |tx'.place|
  {
    if tx.place[v].Packed? && tx.place[v].b < k && tx.place[v].b < |tx.batch| then
      if IsReliable(tx.msgs[v].rel) then
        tx'.place[v].Flight? && tx'.msgs[v] == RecordedMsg(tx.msgs[v], tx.batch[tx.place[v].b].number)
      else tx'.place[v].Free? && tx'.msgs[v] == NoMsg
    else tx'.place[v] == tx.place[v] && tx'.msgs[v] == tx.msgs[v]
  }

  /** The first k packets of the batch were sent. */
  ghost predicate FirstSent(tx: Tx, tx': Tx, k: nat) {
    && tx'.batch == tx.batch
    && |tx.msgs| == |tx.place| == |tx'.msgs| == |tx'.place| && |tx'.conns| == |tx.conns|
    && (forall v :: 0 <= v < |tx.msgs| ==> SlotSentBelow(tx, tx', k, v))
    && (forall c: nat, f: nat, kind: Kind :: At(tx'.boxes, Ring(c, f, kind)) == At(tx.boxes, Ring(c, f, kind)))
    && (forall d: nat :: k <= d ==> At(tx'.boxes, InBatch(d)) == At(tx.boxes, InBatch(d)))
  }

  lemma NoneSent(tx: Tx)
    requires |tx.msgs| == |tx.place|
    ensures FirstSent(tx, tx, 0)
  {
  }

  lemma LooseBound(cfg: TxConfig, tx: Tx, n: nat, m: nat)
    requires Loose(cfg, tx, n) && n == m
    ensures Loose(cfg, tx, m)
  {
  }

  lemma OneMoreSent(tx: Tx, tx1: Tx, tx2: Tx, k: nat, more: nat)
    requires FirstSent(tx, tx1, k) && MessagesSent(tx1, tx2, k) && more == k + 1
    ensures FirstSent(tx, tx2, more)
  {
    forall v | 0 <= v < |tx.msgs|
      ensures SlotSentBelow(tx, tx2, more, v)
    {
      assert SlotSentBelow(tx, tx1, k, v) && SlotSent(tx1, tx2, k, v);
    }
  }

  lemma PacketMore(cfg: TxConfig, tx: Tx, tx1: Tx, b: nat, k: nat, now: uint64)
    requires k == b + 1 <= |tx.batch| && Loose(cfg, tx1, b) && FirstSent(tx, tx1, b)
    ensures Loose(cfg, PacketSent(cfg, tx1, b, now), k) && FirstSent(tx, PacketSent(cfg, tx1, b, now), k)
  {
    var tx2 := PacketSent(cfg, tx1, b, now);
    OneMoreSent(tx, tx1, tx2, b, k);
    LooseBound(cfg, tx2, b + 1, k);
  }

  ghost function OnePacketMore(cfg: TxConfig, tx: Tx, tx1: Tx, k: nat, now: uint64): (tx2: Tx)
    requires 0 < k <= |tx.batch| && Loose(cfg, tx1, k - 1) && FirstSent(tx, tx1, k - 1)
    ensures Loose(cfg, tx2, k) && FirstSent(tx, tx2, k)
  {
    PacketMore(cfg, tx, tx1, k - 1, k, now);
    PacketSent(cfg, tx1, k - 1, now)
  }

  /** The first loop of `flush_send_batch`, over the packets the socket took. */
  ghost function FirstPacketsSent(cfg: TxConfig, tx: Tx, k: nat, now: uint64): (tx': Tx)
    requires Loose(cfg, tx, 0) && k <= |tx.batch|
    ensures Loose(cfg, tx', k) && FirstSent(tx, tx', k)
    decreases k
  {
    if k == 0 then
      NoneSent(tx);
      tx
    else
      OnePacketMore(cfg, tx, FirstPacketsSent(cfg, tx, k - 1, now), k, now)
  }

  lemma {:induction false} SentUnfold(cfg: TxConfig, tx: Tx, b: nat, k: nat, now: uint64)
    requires Loose(cfg, tx, 0) && k == b + 1 <= |tx.batch|
    ensures FirstPacketsSent(cfg, tx, k, now) == PacketSent(cfg, FirstPacketsSent(cfg, tx, b, now), b, now)
  {
  }

  // ----- what was not sent -----------------------------------------------------------------------

  /** The ring an outgoing message came from. */
  function RingOf(tx: Tx, v: nat): Key
    requires v < |tx.msgs| == |tx.place| && Outgoing(tx.place[v])
  {
    Ring(tx.msgs[v].owner, tx.msgs[v].flow, tx.place[v].kind)
  }

  predicate AllOutgoing(tx: Tx, list: seq<nat>) {
    |tx.msgs| == |tx.place| && forall i :: 0 <= i < |list| ==> list[i] < |tx.msgs| && Outgoing(tx.place[list[i]])
  }

  /** The messages of the list that came from ring k, in order. */
  function FromRing(tx: Tx, list: seq<nat>, k: Key): seq<nat>
    requires AllOutgoing(tx, list)
  {
    if list == [] then []
    else
      var last := list[|list| - 1];
      FromRing(tx, list[..|list| - 1], k) + (if RingOf(tx, last) == k then [last] else [])
  }

  lemma {:induction false} FromRingSame(tx: Tx, tx1: Tx, list: seq<nat>, k: Key)
    requires AllOutgoing(tx, list) && |tx1.msgs| == |tx1.place| == |tx.msgs|
    requires forall i :: 0 <= i < |list| ==>
      tx1.msgs[list[i]] == tx.msgs[list[i]] && tx1.place[list[i]] == tx.place[list[i]]
    ensures AllOutgoing(tx1, list) && FromRing(tx1, list, k) == FromRing(tx, list, k)
  {
    if list != [] {
      FromRingSame(tx, tx1, list[..|list| - 1], k);
    }
  }

  ghost predicate SlotPutBack(tx: Tx, tx': Tx, v: nat)
    requires v < |tx.msgs| == |tx.place| == |tx'.msgs| == |tx'.place| && Outgoing(tx.place[v])
  {
    tx'.place[v] == Queued(tx.place[v].kind) && tx'.msgs[v] == RequeuedMsg(tx.msgs[v], tx.place[v].kind)
  }

  ghost predicate OtherPacketsKept(tx: Tx, tx': Tx, b: nat) {
    forall d: nat :: d != b ==> At(tx'.boxes, InBatch(d)) == At(tx.boxes, InBatch(d))
  }

  /** Slot v is in front of its ring; the other rings are as they were. */
  ghost predicate FrontOfRing(tx: Tx, tx': Tx, v: nat)
    requires v < |tx.msgs| == |tx.place| && Outgoing(tx.place[v])
  {
    forall c: nat, f: nat, kind: Kind ::
      At(tx'.boxes, Ring(c, f, kind)) ==
      (if RingOf(tx, v) == Ring(c, f, kind) then [v] else []) + At(tx.boxes, Ring(c, f, kind))
  }

  ghost function OnePutBack(cfg: TxConfig, n: nat, tx: Tx, v: nat): (tx': Tx)
    requires Loose(cfg, tx, n) && v < |tx.msgs| && tx.place[v].Packed?
    ensures Loose(cfg, tx', n) && Only(tx, tx', v) && SlotPutBack(tx, tx', v)
    ensures OtherPacketsKept(tx, tx', tx.place[v].b)
    ensures FrontOfRing(tx, tx', v)
  {
    RequeuedLoose(cfg, n, tx, v);
    Requeued(cfg, tx, v)
  }

  lemma AllPackedFront(tx: Tx, tx1: Tx, b: nat, list: seq<nat>)
    requires |tx.place| == |tx.msgs| && AllPacked(tx, b, list) && list != [] && Only(tx, tx1, list[|list| - 1])
    ensures AllPacked(tx1, b, list[..|list| - 1]) && list[|list| - 1] !in list[..|list| - 1]
  {
  }

  lemma OnlyThenFront(tx: Tx, tx1: Tx, tx2: Tx, list: seq<nat>)
    requires list != [] && Only(tx, tx1, list[|list| - 1]) && OnlyIn(tx1, tx2, list[..|list| - 1])
    ensures OnlyIn(tx, tx2, list)
  {
    assert forall w :: w in list[..|list| - 1] ==> w in list;
  }

  /** The rings after the messages of the list came back to their fronts. */
  ghost predicate RingsRestored(tx: Tx, tx': Tx, list: seq<nat>)
    requires AllOutgoing(tx, list)
  {
    forall c: nat, f: nat, kind: Kind ::
      At(tx'.boxes, Ring(c, f, kind)) == FromRing(tx, list, Ring(c, f, kind)) + At(tx.boxes, Ring(c, f, kind))
  }

  lemma RestoredStep(tx: Tx, tx1: Tx, tx2: Tx, list: seq<nat>)
    requires AllOutgoing(tx, list) && list != [] && Only(tx, tx1, list[|list| - 1])
    requires list[|list| - 1] !in list[..|list| - 1]
    requires FrontOfRing(tx, tx1, list[|list| - 1])
    requires AllOutgoing(tx1, list[..|list| - 1]) && RingsRestored(tx1, tx2, list[..|list| - 1])
    ensures RingsRestored(tx, tx2, list)
  {
    var front, v := list[..|list| - 1], list[|list| - 1];
    forall c: nat, f: nat, kind: Kind
      ensures At(tx2.boxes, Ring(c, f, kind)) == FromRing(tx, list, Ring(c, f, kind)) + At(tx.boxes, Ring(c, f, kind))
    {
      var k := Ring(c, f, kind);
      FromRingSame(tx, tx1, front, k);
      FromRingLast(tx, list, front, v, k);
      Regroup(FromRing(tx, front, k), if RingOf(tx, v) == k then [v] else [], At(tx.boxes, k));
    }
  }

  lemma {:induction false} FromRingLast(tx: Tx, list: seq<nat>, front: seq<nat>, v: nat, k: Key)
    requires AllOutgoing(tx, list) && list != [] && front == list[..|list| - 1] && v == list[|list| - 1]
    ensures AllOutgoing(tx, front)
    ensures FromRing(tx, list, k) == FromRing(tx, front, k) + (if RingOf(tx, v) == k then [v] else [])
  {
  }

  lemma NothingBack(tx: Tx, list: seq<nat>)
    requires AllOutgoing(tx, list) && list == []
    ensures RingsRestored(tx, tx, list)
  {
    forall c: nat, f: nat, kind: Kind
      ensures At(tx.boxes, Ring(c, f, kind)) == FromRing(tx, list, Ring(c, f, kind)) + At(tx.boxes, Ring(c, f, kind))
    {
      assert FromRing(tx, list, Ring(c, f, kind)) == [];
    }
  }

  ghost predicate AllBack(tx: Tx, tx': Tx, list: seq<nat>) {
    AllOutgoing(tx, list) && |tx'.msgs| == |tx'.place| == |tx.msgs|
    && forall i :: 0 <= i < |list| ==> SlotPutBack(tx, tx', list[i])
  }

  lemma BackStep(tx: Tx, tx1: Tx, tx2: Tx, list: seq<nat>)
    requires AllOutgoing(tx, list) && list != [] && Only(tx, tx1, list[|list| - 1])
    requires list[|list| - 1] !in list[..|list| - 1]
    requires SlotPutBack(tx, tx1, list[|list| - 1]) && AllBack(tx1, tx2, list[..|list| - 1])
    requires OnlyIn(tx1, tx2, list[..|list| - 1])
    ensures AllBack(tx, tx2, list)
  {
    forall i | 0 <= i < |list|
      ensures SlotPutBack(tx, tx2, list[i])
    {
      if i < |list| - 1 { assert list[..|list| - 1][i] == list[i]; }
    }
  }

  /** `requeue_unsent_packet`: last message first, each to the front of its ring. */
  ghost function ListPutBack(cfg: TxConfig, n: nat, tx: Tx, b: nat, list: seq<nat>): (tx': Tx)
    requires Loose(cfg, tx, n) && AllPacked(tx, b, list)
    ensures Loose(cfg, tx', n) && OnlyIn(tx, tx', list) && OtherPacketsKept(tx, tx', b)
    ensures AllBack(tx, tx', list)
    ensures RingsRestored(tx, tx', list)
    decreases |list|
  {
    if list == [] then
      NothingBack(tx, list);
      tx
    else
      var v := list[|list| - 1];
      var tx1 := OnePutBack(cfg, n, tx, v);
      AllPackedFront(tx, tx1, b, list);
      var tx2 := ListPutBack(cfg, n, tx1, b, list[..|list| - 1]);
      OnlyThenFront(tx, tx1, tx2, list);
      BackStep(tx, tx1, tx2, list);
      RestoredStep(tx, tx1, tx2, list);
      tx2
  }

  /** Packets n to e of the batch went back to the rings. */
  ghost predicate PutBackBetween(tx: Tx, tx': Tx, n: nat, e: nat) {
    && tx'.batch == tx.batch && tx'.sent == tx.sent
    && |tx.msgs| == |tx.place| == |tx'.msgs| == |tx'.place| && |tx'.conns| == |tx.conns|
    && (forall c :: 0 <= c < |tx.conns| ==> SameNumbering(tx.conns[c], tx'.conns[c]))
    && (forall v :: 0 <= v < |tx.msgs| ==>
          if tx.place[v].Packed? && n <= tx.place[v].b < e then SlotPutBack(tx, tx', v)
          else tx'.place[v] == tx.place[v] && tx'.msgs[v] == tx.msgs[v])
  }

  lemma BetweenStep(cfg: TxConfig, tx: Tx, tx1: Tx, tx2: Tx, n: nat, d: nat, e: nat)
    requires n < e == d + 1 && Core(cfg, tx)
    requires OnlyIn(tx, tx1, At(tx.boxes, InBatch(d)))
    requires AllBack(tx, tx1, At(tx.boxes, InBatch(d)))
    requires PutBackBetween(tx1, tx2, n, d)
    ensures PutBackBetween(tx, tx2, n, e)
  {
    PackedInBox(cfg, tx, d);
    forall v | 0 <= v < |tx.msgs|
      ensures if tx.place[v].Packed? && n <= tx.place[v].b < e then SlotPutBack(tx, tx2, v)
              else tx2.place[v] == tx.place[v] && tx2.msgs[v] == tx.msgs[v]
    {
    }
  }

  /** The messages of packets n to e that came from ring k, in the order they were packed. */
  ghost function UnsentOf(cfg: TxConfig, tx: Tx, n: nat, e: nat, k: Key): seq<nat>
    requires Core(cfg, tx)
    decreases e
  {
    if e <= n then []
    else
      var d: nat := e - 1;
      BatchBoxPacked(cfg, tx, d);
      UnsentOf(cfg, tx, n, d, k) + FromRing(tx, At(tx.boxes, InBatch(d)), k)
  }

  lemma {:induction false} UnsentUnfold(cfg: TxConfig, tx: Tx, n: nat, d: nat, e: nat, k: Key)
    requires Core(cfg, tx) && n < e == d + 1
    ensures AllOutgoing(tx, At(tx.boxes, InBatch(d)))
    ensures UnsentOf(cfg, tx, n, e, k) == UnsentOf(cfg, tx, n, d, k) + FromRing(tx, At(tx.boxes, InBatch(d)), k)
  {
    BatchBoxPacked(cfg, tx, d);
  }

  ghost predicate AllSame(tx: Tx, tx1: Tx, list: seq<nat>) {
    && |tx.msgs| == |tx.place| == |tx1.msgs| == |tx1.place|
    && forall i :: 0 <= i < |list| ==>
         list[i] < |tx.msgs| && tx1.msgs[list[i]] == tx.msgs[list[i]] && tx1.place[list[i]] == tx.place[list[i]]
  }

  lemma {:induction false} UnsentSame(cfg: TxConfig, tx: Tx, tx1: Tx, n: nat, e: nat, k: Key)
    requires Core(cfg, tx) && Core(cfg, tx1) && |tx1.msgs| == |tx.msgs|
    requires forall d: nat :: n <= d < e ==> At(tx1.boxes, InBatch(d)) == At(tx.boxes, InBatch(d))
    requires forall d: nat :: n <= d < e ==> AllSame(tx, tx1, At(tx.boxes, InBatch(d)))
    ensures UnsentOf(cfg, tx1, n, e, k) == UnsentOf(cfg, tx, n, e, k)
    decreases e
  {
    if n < e {
      var d: nat := e - 1;
      UnsentSame(cfg, tx, tx1, n, d, k);
      UnsentUnfold(cfg, tx, n, d, e, k);
      UnsentUnfold(cfg, tx1, n, d, e, k);
      assert AllSame(tx, tx1, At(tx.boxes, InBatch(d)));
      FromRingSame(tx, tx1, At(tx.boxes, InBatch(d)), k);
    }
  }

  /** Every ring has its unsent messages in front again, in their old order. */
  ghost predicate OrderRestored(cfg: TxConfig, tx: Tx, tx': Tx, n: nat, e: nat)
    requires Core(cfg, tx)
  {
    forall c: nat, f: nat, kind: Kind ::
      At(tx'.boxes, Ring(c, f, kind)) == UnsentOf(cfg, tx, n, e, Ring(c, f, kind)) + At(tx.boxes, Ring(c, f, kind))
  }

  lemma OrderStep(cfg: TxConfig, tx: Tx, tx1: Tx, tx2: Tx, n: nat, d: nat, e: nat)
    requires n < e == d + 1 && Core(cfg, tx) && Core(cfg, tx1)
    requires AllPacked(tx, d, At(tx.boxes, InBatch(d)))
    requires RingsRestored(tx, tx1, At(tx.boxes, InBatch(d)))
    requires OnlyIn(tx, tx1, At(tx.boxes, InBatch(d))) && OtherPacketsKept(tx, tx1, d)
    requires OrderRestored(cfg, tx1, tx2, n, d)
    ensures OrderRestored(cfg, tx, tx2, n, e)
  {
    PacketsBelowSame(cfg, tx, tx1, d);
    forall c: nat, f: nat, kind: Kind
      ensures At(tx2.boxes, Ring(c, f, kind)) ==
              UnsentOf(cfg, tx, n, e, Ring(c, f, kind)) + At(tx.boxes, Ring(c, f, kind))
    {
      var k := Ring(c, f, kind);
      UnsentSame(cfg, tx, tx1, n, d, k);
      UnsentUnfold(cfg, tx, n, d, e, k);
      Regroup(UnsentOf(cfg, tx, n, d, k), FromRing(tx, At(tx.boxes, InBatch(d)), k), At(tx.boxes, k));
    }
  }

  lemma Regroup(a: seq<nat>, b: seq<nat>, d: seq<nat>)
    ensures a + (b + d) == (a + b) + d
  {
  }

  lemma PacketsBelowSame(cfg: TxConfig, tx: Tx, tx1: Tx, e: nat)
    requires Core(cfg, tx) && OnlyIn(tx, tx1, At(tx.boxes, InBatch(e)))
    ensures forall d: nat :: d < e ==> AllSame(tx, tx1, At(tx.boxes, InBatch(d)))
  {
    forall d: nat | d < e
      ensures AllSame(tx, tx1, At(tx.boxes, InBatch(d)))
    {
      PackedInBox(cfg, tx, e);
      BatchBoxPacked(cfg, tx, d);
    }
  }

  /** The second loop of `flush_send_batch`: the packets not sent, the last one first. */
  ghost function PutBackLoop(cfg: TxConfig, n: nat, tx: Tx, e: nat): (tx': Tx)
    requires Loose(cfg, tx, n) && e <= |tx.batch|
    ensures Loose(cfg, tx', n)
    decreases e, 0
  {
    if e <= n then tx else PutBackRound(cfg, n, tx, e - 1)
  }

  /** One round, and those after it. */
  ghost function PutBackRound(cfg: TxConfig, n: nat, tx: Tx, d: nat): (tx': Tx)
    requires Loose(cfg, tx, n) && d < |tx.batch|
    ensures Loose(cfg, tx', n)
    decreases d, 1
  {
    BatchBoxPacked(cfg, tx, d);
    PutBackLoop(cfg, n, ListPutBack(cfg, n, tx, d, At(tx.boxes, InBatch(d))), d)
  }

  lemma {:induction false} PutBackIs(cfg: TxConfig, n: nat, tx: Tx, d: nat, e: nat, tx2: Tx)
    requires Loose(cfg, tx, n) && n < e == d + 1 <= |tx.batch| && tx2 == PutBackLoop(cfg, n, tx, e)
    ensures tx2 == PutBackRound(cfg, n, tx, d)
  {
  }

  lemma {:induction false} RoundIs(cfg: TxConfig, n: nat, tx: Tx, d: nat)
    requires Loose(cfg, tx, n) && d < |tx.batch| && AllPacked(tx, d, At(tx.boxes, InBatch(d)))
    ensures PutBackRound(cfg, n, tx, d) ==
            PutBackLoop(cfg, n, ListPutBack(cfg, n, tx, d, At(tx.boxes, InBatch(d))), d)
  {
  }

  lemma {:induction false} PutBackUnfold(cfg: TxConfig, n: nat, tx: Tx, tx1: Tx, d: nat, e: nat, tx2: Tx)
    requires Loose(cfg, tx, n) && n < e == d + 1 <= |tx.batch| && tx2 == PutBackLoop(cfg, n, tx, e)
    requires AllPacked(tx, d, At(tx.boxes, InBatch(d)))
    requires Loose(cfg, tx1, n) && d <= |tx1.batch| && tx1 == ListPutBack(cfg, n, tx, d, At(tx.boxes, InBatch(d)))
    ensures tx2 == PutBackLoop(cfg, n, tx1, d)
  {
    PutBackIs(cfg, n, tx, d, e, tx2);
    RoundIs(cfg, n, tx, d);
  }

  lemma {:induction false} PutBackOk(cfg: TxConfig, n: nat, tx: Tx, e: nat, tx2: Tx)
    requires Loose(cfg, tx, n) && e <= |tx.batch| && tx2 == PutBackLoop(cfg, n, tx, e)
    ensures PutBackBetween(tx, tx2, n, e) && OrderRestored(cfg, tx, tx2, n, e)
    decreases e
  {
    if e > n {
      var d: nat := e - 1;
      BatchBoxPacked(cfg, tx, d);
      var tx1 := ListPutBack(cfg, n, tx, d, At(tx.boxes, InBatch(d)));
      PutBackUnfold(cfg, n, tx, tx1, d, e, tx2);
      PutBackOk(cfg, n, tx1, d, tx2);
      BetweenStep(cfg, tx, tx1, tx2, n, d, e);
      OrderStep(cfg, tx, tx1, tx2, n, d, e);
    }
  }

  /** The state after that loop. */
  ghost function PacketsPutBack(cfg: TxConfig, n: nat, tx: Tx, e: nat): (tx': Tx)
    requires Loose(cfg, tx, n) && e <= |tx.batch|
    ensures Loose(cfg, tx', n) && PutBackBetween(tx, tx', n, e) && OrderRestored(cfg, tx, tx', n, e)
  {
    PutBackOk(cfg, n, tx, e, PutBackLoop(cfg, n, tx, e));
    PutBackLoop(cfg, n, tx, e)
  }

  // ----- the whole of flush_send_batch -----------------------------------------------------------

  lemma BatchCleared(cfg: TxConfig, n: nat, tx: Tx)
    requires Loose(cfg, tx, n) && forall v :: 0 <= v < |tx.msgs| ==> !tx.place[v].Packed?
    ensures Loose(cfg, tx.(batch := []), 0)
  {
  }

  lemma NonePacked(cfg: TxConfig, tx: Tx, tx1: Tx, tx2: Tx, k: nat)
    requires Loose(cfg, tx, 0) && k <= |tx.batch| && FirstSent(tx, tx1, k) && PutBackBetween(tx1, tx2, k, |tx.batch|)
    ensures forall v :: 0 <= v < |tx2.msgs| ==> !tx2.place[v].Packed?
  {
    forall v | 0 <= v < |tx2.msgs|
      ensures !tx2.place[v].Packed?
    {
      assert SlotSentBelow(tx, tx1, k, v);
      if tx.place[v].Packed? { assert PackedSlotOk(cfg, tx, 0, v); }
    }
  }

  /** `flush_send_batch` when the socket takes the first k packets. */
  ghost function BatchFlushed(cfg: TxConfig, tx: Tx, k: nat, now: uint64): (tx': Tx)
    requires Loose(cfg, tx, 0) && k <= |tx.batch|
    ensures Loose(cfg, tx', 0) && tx'.batch == []
    ensures forall v :: 0 <= v < |tx'.msgs| ==> !tx'.place[v].Packed?
    ensures OrderRestored(cfg, tx, tx', k, |tx.batch|)
  {
    var tx1 := FirstPacketsSent(cfg, tx, k, now);
    var tx2 := PacketsPutBack(cfg, k, tx1, |tx.batch|);
    NonePacked(cfg, tx, tx1, tx2, k);
    BatchCleared(cfg, k, tx2);
    FlushOrder(cfg, tx, tx1, tx2, k);
    tx2.(batch := [])
  }

  lemma FlushOrder(cfg: TxConfig, tx: Tx, tx1: Tx, tx2: Tx, k: nat)
    requires Core(cfg, tx) && Core(cfg, tx1) && FirstSent(tx, tx1, k)
    requires OrderRestored(cfg, tx1, tx2, k, |tx.batch|)
    ensures OrderRestored(cfg, tx, tx2, k, |tx.batch|)
  {
    forall d: nat | k <= d < |tx.batch|
      ensures AllSame(tx, tx1, At(tx.boxes, InBatch(d)))
    {
      LaterPacketSame(cfg, tx, tx1, k, d);
    }
    forall c: nat, f: nat, kind: Kind
      ensures UnsentOf(cfg, tx1, k, |tx.batch|, Ring(c, f, kind)) == UnsentOf(cfg, tx, k, |tx.batch|, Ring(c, f, kind))
    {
      UnsentSame(cfg, tx, tx1, k, |tx.batch|, Ring(c, f, kind));
    }
  }

  lemma LaterPacketSame(cfg: TxConfig, tx: Tx, tx1: Tx, k: nat, d: nat)
    requires Core(cfg, tx) && FirstSent(tx, tx1, k) && k <= d
    ensures AllSame(tx, tx1, At(tx.boxes, InBatch(d)))
  {
    var list := At(tx.boxes, InBatch(d));
    BatchBoxPacked(cfg, tx, d);
    forall i | 0 <= i < |list|
      ensures tx1.msgs[list[i]] == tx.msgs[list[i]] && tx1.place[list[i]] == tx.place[list[i]]
    {
      assert SlotSentBelow(tx, tx1, k, list[i]);
    }
  }
}
