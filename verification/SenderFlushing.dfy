/** `flush_send_batch` in the form of the source, on the endpoint object: the packets the socket took are recorded,
    the others go back to their rings, last message first. */
module SenderFlushing {
  import opened MachineWords
  import opened SerialNumbers
  import opened Receiver
  import opened MessagePool
  import opened PoolTallies
  import opened Sender
  import opened SenderOps
  import opened SenderFlush
  import opened SenderBatch
  import E = SenderEndpoint

  // ----- one message -----------------------------------------------------------------------------

  /** What a packed slot is known to be. */
  lemma PackedSlot(cfg: TxConfig, tx: Tx, v: nat)
    requires Core(cfg, tx) && v < |tx.msgs| && tx.place[v].Packed?
    ensures OwnerKnown(tx, v)
    ensures var m, p := tx.msgs[v], tx.place[v];
      && m.used && !m.inRetry && m.inflightRefs == 0
      && m.queuedKind == Some(p.kind) && (p.kind.Unrel? <==> !IsReliable(m.rel))
      && (!IsReliable(m.rel) ==> m.lostAcks == [])
      && OutBoxes(cfg, tx, v) == TakeOut(tx.boxes, InBatch(p.b), v)
  {
    assert MsgOk(cfg.maxConns, cfg.maxFlows, tx.msgs[v], tx.place[v]);
  }

  /** A reliable message of a sent packet becomes a reference of its record: the field `queued_kind` says if its
      bytes were counted as unsent. */
  method RecordRef(e: E.Endpoint, v: nat, b: nat, number: uint32)
    requires Core(e.cfg, e.View()) && v < e.msgs.Length && e.place[v].Packed? && e.place[v].b == b
    requires IsReliable(e.msgs[v].rel) && number != 0 && OwnerKnown(e.View(), v)
    modifies e`place, e`boxes, e.msgs, e.conns
    ensures e.View() == Recorded(e.cfg, old(e.View()), v, number)
  {
    ghost var tx := e.View();
    PackedSlot(e.cfg, tx, v);
    var m := e.msgs[v];
    var c, k := m.owner, InFlight(m.owner, number % e.cfg.slots);
    e.boxes := e.boxes[InBatch(b) := Removed(At(e.boxes, InBatch(b)), v)];
    e.boxes := e.boxes[k := At(e.boxes, k) + [v]];
    e.msgs[v] := m.(inflightRefs := m.inflightRefs + 1, carrier := number, queuedKind := None,
                    carriedBy := m.carriedBy + {number});
    e.conns[c] := FlightAdded(e.conns[c], |m.payload|);
    if m.queuedKind == Some(Unrel) || m.queuedKind == Some(Rel) {
      e.conns[c] := UnsentRemoved(e.conns[c], m.flow, |m.payload|);
    }
    e.place := e.place[v := Flight];
  }

  /** An unreliable message of a sent packet. */
  method FreeSent(e: E.Endpoint, v: nat, b: nat)
    requires Core(e.cfg, e.View()) && v < e.msgs.Length && e.place[v].Packed? && e.place[v].b == b
    requires !IsReliable(e.msgs[v].rel) && OwnerKnown(e.View(), v)
    modifies e`place, e`boxes, e.msgs, e.conns
    ensures e.View() == Freed(e.cfg, old(e.View()), v)
  {
    ghost var tx := e.View();
    PackedSlot(e.cfg, tx, v);
    E.FreeListOk(e.cfg, tx, v);
    var m := e.msgs[v];
    e.boxes := e.boxes[InBatch(b) := Removed(At(e.boxes, InBatch(b)), v)];
    e.conns[m.owner] := UnsentRemoved(e.conns[m.owner], m.flow, |m.payload|);
    e.FreeMsg(v);
  }

  /** There is room in the ring a message came from: it was in it, or its place was kept. */
  lemma RoomInRing(cfg: TxConfig, tx: Tx, n: nat, v: nat)
    requires Loose(cfg, tx, n) && v < |tx.msgs| && tx.place[v].Packed?
    ensures OwnerKnown(tx, v) && |At(tx.boxes, RingOf(tx, v))| + 1 < cfg.ringCap
  {
    PackedSlot(cfg, tx, v);
    var m, p := tx.msgs[v], tx.place[v];
    RingAndOne(cfg, tx, v, Ring(m.owner, m.flow, p.kind));
  }

  lemma RingAndOne(cfg: TxConfig, tx: Tx, v: nat, k: Key)
    requires Core(cfg, tx) && RingsFit(cfg, tx) && v < |tx.msgs| && tx.place[v].Packed?
    requires k == Ring(tx.msgs[v].owner, tx.msgs[v].flow, tx.place[v].kind)
    ensures |At(tx.boxes, k)| + 1 < cfg.ringCap
  {
    var r := Residents(cfg.slots, tx.msgs, tx.place, k);
    ListSize(At(tx.boxes, k), r);
    LoadAndOne(cfg.slots, tx.msgs, tx.place, v, k, r);
  }

  /** A ring and a message on its way out of it load it with one more than its length. */
  lemma {:induction false} LoadAndOne(slots: nat, msgs: seq<Msg>, place: seq<Place>, v: nat, k: Key, r: set<nat>)
    requires 0 < slots && |place| == |msgs| && v < |msgs| && place[v].Packed?
    requires k == Ring(msgs[v].owner, msgs[v].flow, place[v].kind) && r == Residents(slots, msgs, place, k)
    ensures |r| + 1 <= Total(RingLoad(k.conn, k.flow, k.kind), msgs, place)
  {
    assert v !in r;
    assert |r + {v}| == |r| + 1;
    ResidentsCount(slots, msgs, place, RingLoad(k.conn, k.flow, k.kind), r + {v});
  }

  /** `requeue_unsent_msg`. The source drops the message if the ring is full, which it is not. */
  method RequeueMsg(e: E.Endpoint, v: nat, b: nat, source: Kind, ghost n: nat)
    requires Loose(e.cfg, e.View(), n) && v < e.msgs.Length && e.place[v] == Packed(b, source)
    requires OwnerKnown(e.View(), v)
    modifies e`place, e`boxes, e.msgs, e.conns
    ensures e.View() == Requeued(e.cfg, old(e.View()), v)
  {
    ghost var tx := e.View();
    PackedSlot(e.cfg, tx, v);
    RoomInRing(e.cfg, tx, n, v);
    var m := e.msgs[v];
    var k := Ring(m.owner, m.flow, source);
    assert |At(e.boxes, k)| + 1 < e.cfg.ringCap;
    e.boxes := e.boxes[InBatch(b) := Removed(At(e.boxes, InBatch(b)), v)];
    e.boxes := e.boxes[k := [v] + At(e.boxes, k)];
    e.msgs[v] := m.(queuedKind := Some(source));
    if source == Retry {
      e.msgs[v] := e.msgs[v].(inRetry := true);
      e.conns[m.owner] := RetryAdded(e.conns[m.owner], |m.payload|);
    }
    e.place := e.place[v := Queued(source)];
  }

  // ----- the messages of a packet ----------------------------------------------------------------

  /** What the loop over the references of a record still has to do. */
  ghost predicate ToRecord(cfg: TxConfig, n: nat, tx: Tx, c: nat, b: nat, number: uint32, list: seq<nat>) {
    && Loose(cfg, tx, n) && AllPacked(tx, b, list) && RecordRoom(cfg, tx, c, number, |list|) && number != 0
    && forall i :: 0 <= i < |list| ==> tx.msgs[list[i]].owner == c
  }

  /** The loop of `record_sent_packet`. */
  method RecordRefs(e: E.Endpoint, c: nat, b: nat, number: uint32, list: seq<nat>, ghost n: nat)
    requires ToRecord(e.cfg, n, e.View(), c, b, number, list)
    modifies e`place, e`boxes, e.msgs, e.conns
    ensures e.View() == RefsRecorded(e.cfg, n, old(e.View()), c, b, number, list)
  {
    ghost var all := RefsRecorded(e.cfg, n, e.View(), c, b, number, list);
    var rest := list;
    while rest != []
      invariant ToRecord(e.cfg, n, e.View(), c, b, number, rest)
      invariant RefsRecorded(e.cfg, n, e.View(), c, b, number, rest) == all
      decreases |rest|
    {
      RecordNext(e, c, b, number, rest, n, all);
      rest := rest[1..];
    }
  }

  method RecordNext(e: E.Endpoint, c: nat, b: nat, number: uint32, list: seq<nat>, ghost n: nat, ghost all: Tx)
    requires ToRecord(e.cfg, n, e.View(), c, b, number, list) && list != []
    requires RefsRecorded(e.cfg, n, e.View(), c, b, number, list) == all
    modifies e`place, e`boxes, e.msgs, e.conns
    ensures ToRecord(e.cfg, n, e.View(), c, b, number, list[1..])
    ensures RefsRecorded(e.cfg, n, e.View(), c, b, number, list[1..]) == all
  {
    ghost var tx := e.View();
    var v := list[0];
    PackedSlot(e.cfg, tx, v);
    if IsReliable(e.msgs[v].rel) {
      ghost var tx1 := RefRecorded(e.cfg, n, tx, v, number, |list|);
      RecordRef(e, v, b, number);
      RecordedTail(e.cfg, n, tx, tx1, c, b, number, list);
    } else {
      RecordedTail(e.cfg, n, tx, tx, c, b, number, list);
    }
  }

  lemma RecordedTail(cfg: TxConfig, n: nat, tx: Tx, tx1: Tx, c: nat, b: nat, number: uint32, list: seq<nat>)
    requires ToRecord(cfg, n, tx, c, b, number, list) && list != []
    requires Loose(cfg, tx1, n) && Only(tx, tx1, list[0]) && RecordRoom(cfg, tx1, c, number, |list| - 1)
    ensures ToRecord(cfg, n, tx1, c, b, number, list[1..])
  {
    AllPackedTail(tx, tx1, b, list);
    forall i | 0 <= i < |list[1..]|
      ensures tx1.msgs[list[1..][i]].owner == c
    {
      assert list[1..][i] == list[i + 1] && list[i + 1] != list[0];
    }
  }

  /** What the loop over the rest of a sent packet still has to do. */
  ghost predicate ToFree(cfg: TxConfig, n: nat, tx: Tx, b: nat, list: seq<nat>) {
    && Loose(cfg, tx, n) && AllPacked(tx, b, list)
    && forall i :: 0 <= i < |list| ==> !IsReliable(tx.msgs[list[i]].rel)
  }

  /** The loop over the unreliable messages of a sent packet. */
  method FreeRest(e: E.Endpoint, b: nat, list: seq<nat>, ghost n: nat)
    requires ToFree(e.cfg, n, e.View(), b, list)
    modifies e`place, e`boxes, e.msgs, e.conns
    ensures e.View() == RestFreed(e.cfg, n, old(e.View()), b, list)
  {
    ghost var all := RestFreed(e.cfg, n, e.View(), b, list);
    var rest := list;
    while rest != []
      invariant ToFree(e.cfg, n, e.View(), b, rest) && RestFreed(e.cfg, n, e.View(), b, rest) == all
      decreases |rest|
    {
      FreeNext(e, b, rest, n, all);
      rest := rest[1..];
    }
  }

  method FreeNext(e: E.Endpoint, b: nat, list: seq<nat>, ghost n: nat, ghost all: Tx)
    requires ToFree(e.cfg, n, e.View(), b, list) && list != [] && RestFreed(e.cfg, n, e.View(), b, list) == all
    modifies e`place, e`boxes, e.msgs, e.conns
    ensures ToFree(e.cfg, n, e.View(), b, list[1..]) && RestFreed(e.cfg, n, e.View(), b, list[1..]) == all
  {
    ghost var tx := e.View();
    PackedSlot(e.cfg, tx, list[0]);
    ghost var tx1 := OneFreed(e.cfg, n, tx, list[0]);
    FreeSent(e, list[0], b);
    FreedTail(e.cfg, n, tx, tx1, b, list);
  }

  lemma FreedTail(cfg: TxConfig, n: nat, tx: Tx, tx1: Tx, b: nat, list: seq<nat>)
    requires ToFree(cfg, n, tx, b, list) && list != [] && Loose(cfg, tx1, n) && Only(tx, tx1, list[0])
    ensures ToFree(cfg, n, tx1, b, list[1..])
  {
    AllPackedTail(tx, tx1, b, list);
    forall i | 0 <= i < |list[1..]|
      ensures !IsReliable(tx1.msgs[list[1..][i]].rel)
    {
      assert list[1..][i] == list[i + 1] && list[i + 1] != list[0];
    }
  }

  /** The loop of `requeue_unsent_packet`: from the last message to the first. */
  method RequeuePacket(e: E.Endpoint, b: nat, list: seq<nat>, ghost n: nat)
    requires Loose(e.cfg, e.View(), n) && AllPacked(e.View(), b, list)
    modifies e`place, e`boxes, e.msgs, e.conns
    ensures e.View() == ListPutBack(e.cfg, n, old(e.View()), b, list)
  {
    ghost var all := ListPutBack(e.cfg, n, e.View(), b, list);
    var front := list;
    while front != []
      invariant Loose(e.cfg, e.View(), n) && AllPacked(e.View(), b, front)
      invariant ListPutBack(e.cfg, n, e.View(), b, front) == all
      decreases |front|
    {
      RequeueLast(e, b, front, n, all);
      front := front[..|front| - 1];
    }
  }

  method RequeueLast(e: E.Endpoint, b: nat, list: seq<nat>, ghost n: nat, ghost all: Tx)
    requires Loose(e.cfg, e.View(), n) && AllPacked(e.View(), b, list) && list != []
    requires ListPutBack(e.cfg, n, e.View(), b, list) == all
    modifies e`place, e`boxes, e.msgs, e.conns
    ensures Loose(e.cfg, e.View(), n) && AllPacked(e.View(), b, list[..|list| - 1])
    ensures ListPutBack(e.cfg, n, e.View(), b, list[..|list| - 1]) == all
  {
    ghost var tx := e.View();
    var v := list[|list| - 1];
    PackedSlot(e.cfg, tx, v);
    ghost var tx1 := OnePutBack(e.cfg, n, tx, v);
    RequeueMsg(e, v, b, e.msgs[v].queuedKind.value, n);
    AllPackedFront(tx, tx1, b, list);
  }

  // ----- a packet --------------------------------------------------------------------------------

  /** If the packet has a reliable message; the source counts its references while it builds it. */
  method AnyReliable(e: E.Endpoint, b: nat) returns (any: bool)
    requires Core(e.cfg, e.View())
    ensures any == HasReliable(e.View(), At(e.boxes, InBatch(b)))
  {
    var list := At(e.boxes, InBatch(b));
    BatchBoxPacked(e.cfg, e.View(), b);
    for i := 0 to |list|
      invariant forall k :: 0 <= k < i ==> !IsReliable(e.msgs[list[k]].rel)
    {
      if IsReliable(e.msgs[list[i]].rel) { return true; }
    }
    return false;
  }

  /** `prune_sent_seq_queue` */
  method Prune(e: E.Endpoint, c: nat, tracked: seq<int>) returns (live: seq<int>)
    requires 0 < e.cfg.slots && c < |e.sent| && |e.sent[c]| == e.cfg.slots
    ensures live == Pruned(e.cfg, e.View(), c, tracked)
  {
    live := [];
    var rest := tracked;
    while rest != []
      invariant live + Pruned(e.cfg, e.View(), c, rest) == Pruned(e.cfg, e.View(), c, tracked)
      decreases |rest|
    {
      var i := Wrap32(rest[0]) % e.cfg.slots;
      if e.sent[c][i].used && e.sent[c][i].number == Wrap32(rest[0]) { live := live + [rest[0]]; }
      rest := rest[1..];
    }
  }

  /** `track_reliable_seq`: a full queue is pruned first, and if that does not help its head is dropped. */
  method Track(e: E.Endpoint, c: nat, x: int)
    requires 0 < e.cfg.slots && c < |e.sent| && |e.sent[c]| == e.cfg.slots && c < e.conns.Length
    modifies e.conns
    ensures e.conns[..] == old(e.conns[..])[c := old(e.conns[c]).(tracked :=
      TrackedWith(e.cfg, old(e.View()), c, old(e.conns[c]).tracked, x))]
  {
    var t := e.conns[c].tracked;
    if |t| >= e.cfg.slots { t := Prune(e, c, t); }
    if |t| >= e.cfg.slots { t := t[1..]; }
    e.conns[c] := e.conns[c].(tracked := t + [x]);
  }

  /** The record of a packet is filled in and its number tracked. */
  method OpenRecord(e: E.Endpoint, b: nat, now: uint64)
    requires Loose(e.cfg, e.View(), b) && b < |e.batch| && HasReliable(e.View(), At(e.boxes, InBatch(b)))
    modifies e`sent, e.conns
    ensures e.View() == RecordOpened(e.cfg, old(e.View()), b, now)
  {
    ghost var tx := e.View();
    RecordSetLoose(e.cfg, tx, b, now);
    var o := e.batch[b];
    e.sent := e.sent[o.conn := e.sent[o.conn][o.number % e.cfg.slots := SentInfo(true, o.number, o.unwrapped, now)]];
    TrackedSame(e.cfg, RecordSet(e.cfg, tx, b, now), e.View(), o.conn, e.conns[o.conn].tracked, o.unwrapped);
    Track(e, o.conn, o.unwrapped);
  }

  /** The queue depends on the records only. */
  lemma {:induction false} PrunedSame(cfg: TxConfig, tx: Tx, tx1: Tx, c: nat, tracked: seq<int>)
    requires 0 < cfg.slots && c < |tx.sent| && |tx.sent[c]| == cfg.slots && tx1.sent == tx.sent
    ensures Pruned(cfg, tx1, c, tracked) == Pruned(cfg, tx, c, tracked)
  {
    if tracked != [] { PrunedSame(cfg, tx, tx1, c, tracked[1..]); }
  }

  lemma TrackedSame(cfg: TxConfig, tx: Tx, tx1: Tx, c: nat, tracked: seq<int>, x: int)
    requires 0 < cfg.slots && c < |tx.sent| && |tx.sent[c]| == cfg.slots && tx1.sent == tx.sent
    ensures TrackedWith(cfg, tx1, c, tracked, x) == TrackedWith(cfg, tx, c, tracked, x)
  {
    PrunedSame(cfg, tx, tx1, c, tracked);
  }

  /** `record_sent_packet` of a packet with references. */
  method RecordSentPacket(e: E.Endpoint, b: nat, now: uint64)
    requires Loose(e.cfg, e.View(), b) && b < |e.batch| && HasReliable(e.View(), At(e.boxes, InBatch(b)))
    modifies e`place, e`boxes, e`sent, e.msgs, e.conns
    ensures e.View() == ReliablesRecorded(e.cfg, old(e.View()), b, now)
  {
    ghost var tx := e.View();
    SlotUnused(e.cfg, tx, b);
    var list := At(e.boxes, InBatch(b));
    OpenRecord(e, b, now);
    OpeningReady(e.cfg, tx, e.View(), b);
    RecordRefs(e, e.batch[b].conn, b, e.batch[b].number, list, b + 1);
  }

  /** The unreliable messages of a packet. */
  method UnreliableOf(e: E.Endpoint, list: seq<nat>) returns (rest: seq<nat>)
    requires forall i :: 0 <= i < |list| ==> list[i] < e.msgs.Length
    ensures rest == Unreliables(e.View(), list)
  {
    rest := [];
    var i: nat := |list|;
    while i > 0
      invariant i <= |list| && rest == Unreliables(e.View(), list[i..])
    {
      i := i - 1;
      assert list[i..][1..] == list[i + 1..];
      if !IsReliable(e.msgs[list[i]].rel) { rest := [list[i]] + rest; }
    }
    assert list[0..] == list;
  }

  /** One round of the first loop of `flush_send_batch`. */
  method SendPacket(e: E.Endpoint, b: nat, now: uint64)
    requires Loose(e.cfg, e.View(), b) && b < |e.batch|
    modifies e`place, e`boxes, e`sent, e.msgs, e.conns
    ensures e.View() == PacketSent(e.cfg, old(e.View()), b, now)
  {
    ghost var tx := e.View();
    BatchBoxPacked(e.cfg, tx, b);
    var any := AnyReliable(e, b);
    var rest := UnreliableOf(e, At(e.boxes, InBatch(b)));
    if any { RecordSentPacket(e, b, now); } else { NothingReliable(e.cfg, tx, b); }
    RestReady(e.cfg, tx, e.View(), b);
    FreeRest(e, b, rest, b + 1);
  }

  /** `flush_send_batch` when the socket takes the first `taken` packets. */
  method FlushSendBatch(e: E.Endpoint, taken: nat, now: uint64)
    requires Loose(e.cfg, e.View(), 0) && taken <= |e.batch|
    modifies e`place, e`boxes, e`sent, e`batch, e.msgs, e.conns
    ensures e.View() == BatchFlushed(e.cfg, old(e.View()), taken, now)
  {
    SendFirst(e, taken, now);
    RequeueRest(e, taken);
    e.batch := [];
  }

  // ----- the loops over the batch ----------------------------------------------------------------

  /** The states a loop goes through, each related to the next. */
  ghost predicate Chained<S(!new)>(stages: seq<S>, rel: (S, S, nat) -> bool) {
    stages != [] && forall i: nat :: i + 1 < |stages| ==> rel(stages[i], stages[i + 1], i)
  }

  lemma ChainedMore<S(!new)>(stages: seq<S>, next: S, rel: (S, S, nat) -> bool)
    requires Chained(stages, rel) && rel(stages[|stages| - 1], next, |stages| - 1)
    ensures Chained(stages + [next], rel)
  {
  }

  /** A state before and after round i of the first loop. */
  ghost predicate Round(cfg: TxConfig, a: Tx, b: Tx, i: nat, now: uint64) {
    Loose(cfg, a, i) && i < |a.batch| && b == PacketSent(cfg, a, i, now)
  }

  ghost function Rounds(cfg: TxConfig, now: uint64): (Tx, Tx, nat) -> bool {
    (a: Tx, b: Tx, i: nat) => Round(cfg, a, b, i, now)
  }

  lemma {:induction false} OneRound(cfg: TxConfig, tx: Tx, b: nat, k: nat, now: uint64)
    requires Loose(cfg, tx, 0) && k == b + 1 <= |tx.batch|
    ensures Round(cfg, FirstPacketsSent(cfg, tx, b, now), FirstPacketsSent(cfg, tx, k, now), b, now)
  {
    SentUnfold(cfg, tx, b, k, now);
  }

  /** The states the first loop goes through. */
  lemma {:induction false} Stages(cfg: TxConfig, tx: Tx, taken: nat, now: uint64) returns (stages: seq<Tx>)
    requires Loose(cfg, tx, 0) && taken <= |tx.batch|
    ensures Chained(stages, Rounds(cfg, now)) && |stages| == taken + 1 && stages[0] == tx
    ensures stages[taken] == FirstPacketsSent(cfg, tx, taken, now)
  {
    if taken == 0 {
      stages := [tx];
    } else {
      var before := Stages(cfg, tx, taken - 1, now);
      var next := FirstPacketsSent(cfg, tx, taken, now);
      OneRound(cfg, tx, taken - 1, taken, now);
      ChainedMore(before, next, Rounds(cfg, now));
      stages := before + [next];
    }
  }

  method SendFirst(e: E.Endpoint, taken: nat, now: uint64)
    requires Loose(e.cfg, e.View(), 0) && taken <= |e.batch|
    modifies e`place, e`boxes, e`sent, e.msgs, e.conns
    ensures e.View() == FirstPacketsSent(e.cfg, old(e.View()), taken, now)
  {
    ghost var stages := Stages(e.cfg, e.View(), taken, now);
    SendPackets(e, taken, now, stages);
  }

  method SendPackets(e: E.Endpoint, taken: nat, now: uint64, ghost stages: seq<Tx>)
    requires Chained(stages, Rounds(e.cfg, now)) && |stages| == taken + 1 && stages[0] == e.View()
    modifies e`place, e`boxes, e`sent, e.msgs, e.conns
    ensures e.View() == stages[taken]
  {
    for i := 0 to taken
      invariant e.View() == stages[i]
    {
      SendNext(e, i, now, stages[i + 1]);
    }
  }

  method SendNext(e: E.Endpoint, i: nat, now: uint64, ghost after: Tx)
    requires Round(e.cfg, e.View(), after, i, now)
    modifies e`place, e`boxes, e`sent, e.msgs, e.conns
    ensures e.View() == after
  {
    SendPacket(e, i, now);
  }

  /** A state before and after packet b went back to the rings. */
  ghost predicate Back(cfg: TxConfig, n: nat, a: Tx, after: Tx, b: nat) {
    && Loose(cfg, a, n) && AllPacked(a, b, At(a.boxes, InBatch(b)))
    && after == ListPutBack(cfg, n, a, b, At(a.boxes, InBatch(b)))
  }

  /** The second loop runs backwards: its states by the number of packets still to be requeued. */
  ghost function Backs(cfg: TxConfig, n: nat): (Tx, Tx, nat) -> bool {
    (after: Tx, a: Tx, j: nat) => Back(cfg, n, a, after, n + j)
  }

  /** What is left to be requeued comes to `all`. */
  ghost predicate ToRequeue(cfg: TxConfig, n: nat, tx: Tx, i: nat, all: Tx) {
    Loose(cfg, tx, n) && i <= |tx.batch| && PutBackLoop(cfg, n, tx, i) == all
  }

  lemma OneBack(cfg: TxConfig, n: nat, tx: Tx, b: nat, i: nat, all: Tx) returns (after: Tx)
    requires ToRequeue(cfg, n, tx, i, all) && n < i == b + 1
    ensures Back(cfg, n, tx, after, b) && ToRequeue(cfg, n, after, b, all)
  {
    BatchBoxPacked(cfg, tx, b);
    after := ListPutBack(cfg, n, tx, b, At(tx.boxes, InBatch(b)));
    assert |after.batch| == |tx.batch|;
    PutBackUnfold(cfg, n, tx, after, b, i, PutBackLoop(cfg, n, tx, i));
  }

  lemma BackTerm(cfg: TxConfig, n: nat, tx: Tx, after: Tx, b: nat, j: nat)
    requires Back(cfg, n, tx, after, b) && b == n + j
    ensures Backs(cfg, n)(after, tx, j)
  {
  }

  /** The states the second loop goes through. */
  lemma {:induction false} BackStages(cfg: TxConfig, n: nat, tx: Tx, i: nat, all: Tx) returns (stages: seq<Tx>)
    requires ToRequeue(cfg, n, tx, i, all) && n <= i
    ensures Chained(stages, Backs(cfg, n)) && |stages| == i - n + 1 && stages[i - n] == tx && stages[0] == all
    decreases i
  {
    if i == n {
      stages := [tx];
    } else {
      var b: nat := i - 1;
      var after := OneBack(cfg, n, tx, b, i, all);
      var below := BackStages(cfg, n, after, b, all);
      BackTerm(cfg, n, tx, after, b, |below| - 1);
      ChainedMore(below, tx, Backs(cfg, n));
      stages := below + [tx];
    }
  }

  method RequeueRest(e: E.Endpoint, taken: nat)
    requires Loose(e.cfg, e.View(), taken) && taken <= |e.batch|
    modifies e`place, e`boxes, e.msgs, e.conns
    ensures e.View() == PacketsPutBack(e.cfg, taken, old(e.View()), |e.batch|)
  {
    ghost var stages := BackStages(e.cfg, taken, e.View(), |e.batch|, PutBackLoop(e.cfg, taken, e.View(), |e.batch|));
    RequeuePackets(e, taken, |e.batch|, stages);
  }

  method RequeuePackets(e: E.Endpoint, taken: nat, count: nat, ghost stages: seq<Tx>)
    requires taken <= count && Chained(stages, Backs(e.cfg, taken)) && |stages| == count - taken + 1
    requires e.View() == stages[count - taken]
    modifies e`place, e`boxes, e.msgs, e.conns
    ensures e.View() == stages[0]
  {
    for i := count downto taken
      invariant e.View() == stages[i - taken]
    {
      RequeueNext(e, taken, i, stages[i - taken]);
    }
  }

  method RequeueNext(e: E.Endpoint, taken: nat, b: nat, ghost after: Tx)
    requires Back(e.cfg, taken, e.View(), after, b)
    modifies e`place, e`boxes, e.msgs, e.conns
    ensures e.View() == after
  {
    RequeuePacket(e, b, At(e.boxes, InBatch(b)), taken);
  }
}
