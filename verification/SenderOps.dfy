/** The operations of the sender as sequences of slot moves, and the rest of the invariant: in-flight
    records, send batch, and the room left in the rings. */
module SenderOps {
  import opened MachineWords
  import opened SerialNumbers
  import opened Receiver
  import opened MessagePool
  import opened PoolTallies
  import opened Sender

  // ----- the invariant ---------------------------------------------------------------------------

  /** A message in flight is a reference of the used record whose number is its carrier. */
  ghost predicate FlightOk(cfg: TxConfig, tx: Tx)
    requires ValidTx(cfg) && TxShape(cfg, tx)
  {
    forall v :: 0 <= v < |tx.msgs| && tx.place[v].Flight? && tx.msgs[v].owner < cfg.maxConns ==>
      var si := tx.sent[tx.msgs[v].owner][tx.msgs[v].carrier % cfg.slots];
      si.used && si.number == tx.msgs[v].carrier
  }

  ghost predicate SentInfoOk(cfg: TxConfig, tx: Tx)
    requires ValidTx(cfg) && TxShape(cfg, tx)
  {
    forall c, i :: 0 <= c < cfg.maxConns && 0 <= i < cfg.slots && tx.sent[c][i].used ==>
      var si := tx.sent[c][i];
      si.number != 0 && si.number == Wrap32(si.unwrapped) && si.number % cfg.slots == i
  }

  /** A message in batch packet b belongs to the packet's connection; a reliable one is in a packet
      with a number, whose slot in the sent-packet table is free unless the packet has been recorded
      already (b below n). */
  ghost predicate PackedSlotOk(cfg: TxConfig, tx: Tx, n: nat, v: nat)
    requires ValidTx(cfg) && TxShape(cfg, tx) && v < |tx.msgs| && tx.place[v].Packed?
  {
    && tx.place[v].b < |tx.batch|
    && var o := tx.batch[tx.place[v].b];
    && o.conn == tx.msgs[v].owner && o.conn < cfg.maxConns && !o.ackOnly
    && (IsReliable(tx.msgs[v].rel) ==>
          && o.number != 0 && o.number == Wrap32(o.unwrapped)
          && (n <= tx.place[v].b ==> !tx.sent[o.conn][o.number % cfg.slots].used))
  }

  ghost predicate PackedOk(cfg: TxConfig, tx: Tx, n: nat)
    requires ValidTx(cfg) && TxShape(cfg, tx)
  {
    forall v :: 0 <= v < |tx.msgs| && tx.place[v].Packed? ==> PackedSlotOk(cfg, tx, n, v)
  }

  /** Reliable messages in different batch packets of one connection are headed for different slots. */
  ghost predicate PendingApart(cfg: TxConfig, tx: Tx, n: nat)
    requires ValidTx(cfg) && TxShape(cfg, tx) && PackedOk(cfg, tx, n)
  {
    forall v, w :: (0 <= v < |tx.msgs| && 0 <= w < |tx.msgs| && tx.place[v].Packed? && tx.place[w].Packed?
                    && n <= tx.place[v].b && n <= tx.place[w].b && tx.place[v].b != tx.place[w].b
                    && tx.msgs[v].owner == tx.msgs[w].owner
                    && IsReliable(tx.msgs[v].rel) && IsReliable(tx.msgs[w].rel)) ==>
        tx.batch[tx.place[v].b].number % cfg.slots != tx.batch[tx.place[w].b].number % cfg.slots
  }

  /** At most 16 messages per packet. */
  ghost predicate RefsBounded(tx: Tx) {
    && (forall c: nat, i: nat :: |At(tx.boxes, InFlight(c, i))| <= MAX_REFS)
    && (forall b: nat :: |At(tx.boxes, InBatch(b))| <= MAX_REFS)
  }

  /** What is in a ring and what could come back to it fit into the ring. */
  ghost predicate RingsFit(cfg: TxConfig, tx: Tx)
    requires |tx.place| == |tx.msgs|
  {
    forall c: nat, f: nat, kind: Kind :: Total(RingLoad(c, f, kind), tx.msgs, tx.place) < cfg.ringCap
  }

  /** The invariant inside operations; the batch packets below n are being recorded as sent. */
  ghost predicate Loose(cfg: TxConfig, tx: Tx, n: nat) {
    && Core(cfg, tx)
    && FlightOk(cfg, tx) && SentInfoOk(cfg, tx)
    && PackedOk(cfg, tx, n) && PendingApart(cfg, tx, n)
    && RefsBounded(tx) && RingsFit(cfg, tx)
  }

  /** The invariant between operations: no slot is in a running operation's hands. */
  ghost predicate Settled(cfg: TxConfig, tx: Tx) {
    && Loose(cfg, tx, 0)
    && forall v :: 0 <= v < |tx.msgs| ==> !tx.place[v].Fresh? && !tx.place[v].Transit?
  }

  // ----- a slot leaves the packets ---------------------------------------------------------------

  /** Only slot v and the accounts of its connection differ. */
  ghost predicate Only(tx: Tx, tx': Tx, v: nat) {
    && |tx'.msgs| == |tx.msgs| == |tx.place| == |tx'.place| && |tx'.conns| == |tx.conns|
    && (forall w :: 0 <= w < |tx.msgs| && w != v ==> tx'.msgs[w] == tx.msgs[w] && tx'.place[w] == tx.place[w])
    && tx'.sent == tx.sent && tx'.batch == tx.batch
    && (forall c :: 0 <= c < |tx.conns| ==> SameNumbering(tx.conns[c], tx'.conns[c]))
  }

  ghost predicate SameNumbering(cn: ConnTx, cn': ConnTx) {
    && |cn'.flows| == |cn.flows|
    && cn' == cn.(sendQueueBytes := cn'.sendQueueBytes, retransmitBytes := cn'.retransmitBytes,
                  inflightBytes := cn'.inflightBytes, lateAckCount := cn'.lateAckCount, flows := cn'.flows)
  }

  /** Boxes of packets only shrink. */
  ghost predicate PacketsShrink(tx: Tx, tx': Tx) {
    && (forall c: nat, i: nat :: |At(tx'.boxes, InFlight(c, i))| <= |At(tx.boxes, InFlight(c, i))|)
    && (forall b: nat :: |At(tx'.boxes, InBatch(b))| <= |At(tx.boxes, InBatch(b))|)
  }

  /** A move of one slot to a place outside the packets keeps the packet part of the invariant. */
  lemma LeavesPackets(cfg: TxConfig, n: nat, tx: Tx, tx': Tx, v: nat)
    requires Loose(cfg, tx, n) && Core(cfg, tx') && Only(tx, tx', v) && v < |tx.msgs|
    requires !tx'.place[v].Flight? && !tx'.place[v].Packed?
    requires PacketsShrink(tx, tx') && RingsFit(cfg, tx')
    ensures Loose(cfg, tx', n)
  {
    forall w | 0 <= w < |tx'.msgs| && tx'.place[w].Packed?
      ensures PackedSlotOk(cfg, tx', n, w)
    {
      assert w != v && PackedSlotOk(cfg, tx, n, w);
    }
  }

  /** How the ring loads change. */
  lemma {:induction false} LoadsMove(cfg: TxConfig, n: nat, tx: Tx, tx': Tx, v: nat)
    requires Loose(cfg, tx, n) && v < |tx.msgs|
    requires |tx'.msgs| == |tx.msgs| == |tx.place| == |tx'.place|
    requires tx'.msgs == tx.msgs[v := tx'.msgs[v]] && tx'.place == tx.place[v := tx'.place[v]]
    requires forall c: nat, f: nat, kind: Kind ::
      Weight(RingLoad(c, f, kind), tx'.msgs[v], tx'.place[v]) <= Weight(RingLoad(c, f, kind), tx.msgs[v], tx.place[v])
      || Total(RingLoad(c, f, kind), tx.msgs, tx.place) + 1 < cfg.ringCap
    ensures RingsFit(cfg, tx')
  {
    forall c: nat, f: nat, kind: Kind
      ensures Total(RingLoad(c, f, kind), tx'.msgs, tx'.place) < cfg.ringCap
    {
      TotalUpdate(RingLoad(c, f, kind), tx.msgs, tx.place, v, tx'.msgs[v], tx'.place[v]);
    }
  }

  lemma OutBoxesShrink(cfg: TxConfig, tx: Tx, v: nat, k: Key)
    requires Core(cfg, tx) && v < |tx.msgs|
    ensures |At(OutBoxes(cfg, tx, v), k)| <= |At(tx.boxes, k)|
  {
  }

  lemma FreedEffect(cfg: TxConfig, tx: Tx, v: nat)
    requires Core(cfg, tx) && OwnerKnown(tx, v)
    ensures var tx' := Freed(cfg, tx, v); Only(tx, tx', v) && PacketsShrink(tx, tx')
  {
    forall k: Key
      ensures k != FreeList ==> |At(Freed(cfg, tx, v).boxes, k)| <= |At(tx.boxes, k)|
    {
      OutBoxesShrink(cfg, tx, v, k);
    }
  }

  lemma FreedLoose(cfg: TxConfig, n: nat, tx: Tx, v: nat)
    requires Loose(cfg, tx, n) && v < |tx.msgs| && tx.place[v] != Free
    ensures OwnerKnown(tx, v) && Loose(cfg, Freed(cfg, tx, v), n) && Only(tx, Freed(cfg, tx, v), v)
  {
    FreedCore(cfg, tx, v);
    FreedEffect(cfg, tx, v);
    LoadsMove(cfg, n, tx, Freed(cfg, tx, v), v);
    LeavesPackets(cfg, n, tx, Freed(cfg, tx, v), v);
  }

  lemma AllocatedLoose(cfg: TxConfig, n: nat, tx: Tx, m: Msg)
    requires Loose(cfg, tx, n) && FreshMsg(cfg, m) && At(tx.boxes, FreeList) != []
    ensures At(tx.boxes, FreeList)[|At(tx.boxes, FreeList)| - 1] < |tx.msgs|
    ensures Loose(cfg, Allocated(tx, m), n)
    ensures Only(tx, Allocated(tx, m), At(tx.boxes, FreeList)[|At(tx.boxes, FreeList)| - 1])
  {
    AllocatedCore(cfg, tx, m);
    var v := TopOfFree(cfg, tx);
    var tx' := Allocated(tx, m);
    LoadsMove(cfg, n, tx, tx', v);
    LeavesPackets(cfg, n, tx, tx', v);
  }

  lemma {:induction false} QueuedUpLoose(cfg: TxConfig, n: nat, tx: Tx, v: nat)
    requires Loose(cfg, tx, n) && v < |tx.msgs| && tx.place[v].Fresh?
    requires tx.place[v].kind == (if IsReliable(tx.msgs[v].rel) then Rel else Unrel)
    requires Total(RingLoad(tx.msgs[v].owner, tx.msgs[v].flow, tx.place[v].kind), tx.msgs, tx.place) + 1 < cfg.ringCap
    ensures OwnerKnown(tx, v)
    ensures RingValid(tx, tx.boxes, Ring(tx.msgs[v].owner, tx.msgs[v].flow, tx.place[v].kind))
    ensures Loose(cfg, QueuedUp(cfg, tx, v), n) && Only(tx, QueuedUp(cfg, tx, v), v)
  {
    QueuedUpCore(cfg, tx, v);
    var tx' := QueuedUp(cfg, tx, v);
    LoadsMove(cfg, n, tx, tx', v);
    LeavesPackets(cfg, n, tx, tx', v);
  }

  lemma PickedEffect(cfg: TxConfig, tx: Tx, c: nat, f: nat, kind: Kind)
    requires Core(cfg, tx) && At(tx.boxes, Ring(c, f, kind)) != []
    requires At(tx.boxes, Ring(c, f, kind))[0] < |tx.msgs| && c < |tx.conns|
    ensures var tx' := Picked(tx, c, f, kind);
      Only(tx, tx', At(tx.boxes, Ring(c, f, kind))[0]) && PacketsShrink(tx, tx')
  {
  }

  lemma PickedLoose(cfg: TxConfig, n: nat, tx: Tx, c: nat, f: nat, kind: Kind)
    requires Loose(cfg, tx, n) && At(tx.boxes, Ring(c, f, kind)) != []
    ensures At(tx.boxes, Ring(c, f, kind))[0] < |tx.msgs| && c < |tx.conns|
    ensures Loose(cfg, Picked(tx, c, f, kind), n)
    ensures Only(tx, Picked(tx, c, f, kind), At(tx.boxes, Ring(c, f, kind))[0])
  {
    PickedCore(cfg, tx, c, f, kind);
    PickedEffect(cfg, tx, c, f, kind);
    var v := At(tx.boxes, Ring(c, f, kind))[0];
    InBoxMeans(cfg, tx, Ring(c, f, kind), v);
    LoadsMove(cfg, n, tx, Picked(tx, c, f, kind), v);
    LeavesPackets(cfg, n, tx, Picked(tx, c, f, kind), v);
  }

  lemma RequeuedEffect(cfg: TxConfig, tx: Tx, v: nat)
    requires Core(cfg, tx) && OwnerKnown(tx, v) && Outgoing(tx.place[v])
    ensures var tx' := Requeued(cfg, tx, v); Only(tx, tx', v) && PacketsShrink(tx, tx')
  {
    forall k: Key
      ensures !k.Ring? ==> |At(Requeued(cfg, tx, v).boxes, k)| <= |At(tx.boxes, k)|
    {
      OutBoxesShrink(cfg, tx, v, k);
    }
  }

  lemma RequeuedLoose(cfg: TxConfig, n: nat, tx: Tx, v: nat)
    requires Loose(cfg, tx, n) && v < |tx.msgs| && Outgoing(tx.place[v])
    ensures OwnerKnown(tx, v) && Loose(cfg, Requeued(cfg, tx, v), n) && Only(tx, Requeued(cfg, tx, v), v)
  {
    RequeuedCore(cfg, tx, v);
    RequeuedEffect(cfg, tx, v);
    LoadsMove(cfg, n, tx, Requeued(cfg, tx, v), v);
    LeavesPackets(cfg, n, tx, Requeued(cfg, tx, v), v);
  }

  // ----- ring length -----------------------------------------------------------------------------

  /** Slots whose home is box k. */
  ghost function Residents(slots: nat, msgs: seq<Msg>, place: seq<Place>, k: Key): set<nat>
    requires 0 < slots && |place| == |msgs|
  {
    set v: nat | v < |msgs| && Home(slots, msgs[v], place[v]) == Some(k)
  }

  lemma {:induction false} ListSize(s: seq<nat>, r: set<nat>)
    requires NoDup(s) && (forall v :: v in s <==> v in r)
    ensures |s| == |r|
  {
    if s == [] {
      assert r == {};
    } else {
      var t, last := s[..|s| - 1], s[|s| - 1];
      assert s == t + [last];
      ListSize(t, r - {last});
    }
  }

  lemma {:induction false} ResidentsCount(slots: nat, msgs: seq<Msg>, place: seq<Place>, t: Tally, r: set<nat>)
    requires 0 < slots && |place| == |msgs|
    requires forall v :: v in r ==> v < |msgs| && Weight(t, msgs[v], place[v]) == 1
    ensures |r| <= Total(t, msgs, place)
    decreases |r|
  {
    if r != {} {
      var v :| v in r;
      TotalUpdate(t, msgs, place, v, NoMsg, Free);
      ResidentsCount(slots, msgs[v := NoMsg], place[v := Free], t, r - {v});
      assert Weight(t, NoMsg, Free) == 0;
    }
  }

  /** The length of a ring is at most its load. */
  lemma {:induction false} RingLength(cfg: TxConfig, tx: Tx, c: nat, f: nat, kind: Kind)
    requires Core(cfg, tx)
    ensures |At(tx.boxes, Ring(c, f, kind))| <= Total(RingLoad(c, f, kind), tx.msgs, tx.place)
  {
    var k := Ring(c, f, kind);
    var r := Residents(cfg.slots, tx.msgs, tx.place, k);
    ListSize(At(tx.boxes, k), r);
    ResidentsCount(cfg.slots, tx.msgs, tx.place, RingLoad(c, f, kind), r);
  }

  /** No message of connection c is on its way out. */
  ghost predicate NothingOut(tx: Tx, c: nat)
    requires |tx.place| == |tx.msgs|
  {
    forall v :: 0 <= v < |tx.msgs| && tx.msgs[v].owner == c ==> !Outgoing(tx.place[v])
  }

  lemma {:induction false} TotalAtMost(slots: nat, msgs: seq<Msg>, place: seq<Place>, t: Tally, r: set<nat>)
    requires 0 < slots && |place| == |msgs|
    requires forall v :: 0 <= v < |msgs| ==> Weight(t, msgs[v], place[v]) <= (if v in r then 1 else 0)
    ensures Total(t, msgs, place) <= |r|
    decreases |r|
  {
    if r == {} {
      TotalZero(t, msgs, place);
    } else {
      var v :| v in r;
      if v < |msgs| {
        TotalUpdate(t, msgs, place, v, NoMsg, Free);
        TotalAtMost(slots, msgs[v := NoMsg], place[v := Free], t, r - {v});
      } else {
        TotalAtMost(slots, msgs, place, t, r - {v});
      }
    }
  }

  /** With nothing on its way out, the load of a ring is its length. */
  lemma {:induction false} RingLengthExact(cfg: TxConfig, tx: Tx, c: nat, f: nat, kind: Kind)
    requires Core(cfg, tx) && NothingOut(tx, c)
    ensures |At(tx.boxes, Ring(c, f, kind))| == Total(RingLoad(c, f, kind), tx.msgs, tx.place)
  {
    var k := Ring(c, f, kind);
    var r := Residents(cfg.slots, tx.msgs, tx.place, k);
    RingLength(cfg, tx, c, f, kind);
    ListSize(At(tx.boxes, k), r);
    TotalAtMost(cfg.slots, tx.msgs, tx.place, RingLoad(c, f, kind), r);
  }

  // ----- a slot enters a packet ------------------------------------------------------------------

  /** Packet b can take message v: there is room, and a reliable message finds a number whose slot is
      free and claimed by no other packet of the connection. */
  ghost predicate CanPack(cfg: TxConfig, tx: Tx, v: nat, b: nat)
    requires ValidTx(cfg) && TxShape(cfg, tx)
  {
    && v < |tx.msgs| && tx.place[v].Transit?
    && b < |tx.batch| && |At(tx.boxes, InBatch(b))| < MAX_REFS
    && var o := tx.batch[b];
    && o.conn == tx.msgs[v].owner && o.conn < cfg.maxConns && !o.ackOnly
    && (IsReliable(tx.msgs[v].rel) ==>
          && o.number != 0 && o.number == Wrap32(o.unwrapped)
          && !tx.sent[o.conn][o.number % cfg.slots].used
          && forall w :: 0 <= w < |tx.msgs| && tx.place[w].Packed? && tx.place[w].b != b
                         && tx.place[w].b < |tx.batch| && tx.msgs[w].owner == o.conn && IsReliable(tx.msgs[w].rel) ==>
               tx.batch[tx.place[w].b].number % cfg.slots != o.number % cfg.slots)
  }

  /** A move of one slot into batch packet b or into the in-flight record of packet n - 1. */
  lemma EntersPacket(cfg: TxConfig, n: nat, tx: Tx, tx': Tx, v: nat)
    requires Loose(cfg, tx, n) && Core(cfg, tx') && Only(tx, tx', v) && v < |tx.msgs|
    requires RefsBounded(tx') && RingsFit(cfg, tx')
    requires tx'.place[v].Flight? ==>
      var m := tx'.msgs[v];
      m.owner < cfg.maxConns ==> RecordOpen(cfg, tx, m.owner, m.carrier)
    requires tx'.place[v].Packed? ==>
      && tx'.msgs[v] == tx.msgs[v] && n == 0 && CanPack(cfg, tx, v, tx'.place[v].b)
    ensures Loose(cfg, tx', n)
  {
    forall w | 0 <= w < |tx'.msgs| && tx'.place[w].Packed?
      ensures PackedSlotOk(cfg, tx', n, w)
    {
      if w != v { assert PackedSlotOk(cfg, tx, n, w); }
    }
  }

  lemma PackedLoose(cfg: TxConfig, tx: Tx, v: nat, b: nat)
    requires Loose(cfg, tx, 0) && CanPack(cfg, tx, v, b)
    ensures Loose(cfg, PackedInto(tx, v, b), 0) && Only(tx, PackedInto(tx, v, b), v)
  {
    PackedCore(cfg, tx, v, b);
    LoadsMove(cfg, 0, tx, PackedInto(tx, v, b), v);
    EntersPacket(cfg, 0, tx, PackedInto(tx, v, b), v);
  }

  /** The record of a sent packet is ready to take references: its slot holds the packet's number. */
  ghost predicate RecordOpen(cfg: TxConfig, tx: Tx, c: nat, number: uint32)
    requires ValidTx(cfg) && TxShape(cfg, tx)
  {
    && c < cfg.maxConns && number != 0
    && tx.sent[c][number % cfg.slots].used && tx.sent[c][number % cfg.slots].number == number
  }

  lemma RecordedEffect(cfg: TxConfig, tx: Tx, v: nat, number: uint32)
    requires Core(cfg, tx) && OwnerKnown(tx, v) && tx.place[v].Packed? && RefsBounded(tx)
    requires |At(tx.boxes, InFlight(tx.msgs[v].owner, number % cfg.slots))| < MAX_REFS
    ensures var tx' := Recorded(cfg, tx, v, number); Only(tx, tx', v) && RefsBounded(tx')
  {
    var tx' := Recorded(cfg, tx, v, number);
    forall k: Key
      ensures |At(tx'.boxes, k)| <=
              |At(tx.boxes, k)| + (if k == InFlight(tx.msgs[v].owner, number % cfg.slots) then 1 else 0)
    {
      OutBoxesShrink(cfg, tx, v, k);
    }
  }

  lemma RecordedLoose(cfg: TxConfig, n: nat, tx: Tx, v: nat, number: uint32)
    requires Loose(cfg, tx, n) && v < |tx.msgs| && tx.place[v].Packed? && IsReliable(tx.msgs[v].rel)
    requires RecordOpen(cfg, tx, tx.msgs[v].owner, number)
    requires |At(tx.boxes, InFlight(tx.msgs[v].owner, number % cfg.slots))| < MAX_REFS
    ensures OwnerKnown(tx, v) && Loose(cfg, Recorded(cfg, tx, v, number), n)
    ensures Only(tx, Recorded(cfg, tx, v, number), v)
  {
    RecordedCore(cfg, tx, v, number);
    RecordedEffect(cfg, tx, v, number);
    LoadsMove(cfg, n, tx, Recorded(cfg, tx, v, number), v);
    EntersPacket(cfg, n, tx, Recorded(cfg, tx, v, number), v);
  }

  lemma LostRefEffect(cfg: TxConfig, tx: Tx, v: nat)
    requires Core(cfg, tx) && OwnerKnown(tx, v) && |tx.msgs[v].lostAcks| <= MAX_LOST_ACK_SEQS
    requires RingValid(tx, OutBoxes(cfg, tx, v), Ring(tx.msgs[v].owner, tx.msgs[v].flow, Retry))
    ensures var tx' := LostRef(cfg, tx, v); Only(tx, tx', v) && PacketsShrink(tx, tx')
  {
    FreedEffect(cfg, tx, v);
    forall k: Key
      ensures !k.Ring? && k != FreeList ==> |At(LostRef(cfg, tx, v).boxes, k)| <= |At(tx.boxes, k)|
    {
      OutBoxesShrink(cfg, tx, v, k);
    }
  }

  lemma LostRefLoads(cfg: TxConfig, n: nat, tx: Tx, v: nat)
    requires Loose(cfg, tx, n) && OwnerKnown(tx, v) && |tx.msgs[v].lostAcks| <= MAX_LOST_ACK_SEQS
    requires tx.place[v].Flight? && NothingOut(tx, tx.msgs[v].owner)
    requires RingValid(tx, OutBoxes(cfg, tx, v), Ring(tx.msgs[v].owner, tx.msgs[v].flow, Retry))
    ensures RingsFit(cfg, LostRef(cfg, tx, v))
  {
    var m := tx.msgs[v];
    var k := Ring(m.owner, m.flow, Retry);
    assert At(OutBoxes(cfg, tx, v), k) == At(tx.boxes, k);
    RingLengthExact(cfg, tx, m.owner, m.flow, Retry);
    LoadsMove(cfg, n, tx, LostRef(cfg, tx, v), v);
  }

  lemma LostRefLoose(cfg: TxConfig, n: nat, tx: Tx, v: nat)
    requires Loose(cfg, tx, n) && v < |tx.msgs| && tx.place[v].Flight? && NothingOut(tx, tx.msgs[v].owner)
    ensures OwnerKnown(tx, v) && |tx.msgs[v].lostAcks| <= MAX_LOST_ACK_SEQS
    ensures RingValid(tx, OutBoxes(cfg, tx, v), Ring(tx.msgs[v].owner, tx.msgs[v].flow, Retry))
    ensures Loose(cfg, LostRef(cfg, tx, v), n) && Only(tx, LostRef(cfg, tx, v), v)
  {
    LostRefCore(cfg, tx, v);
    LostRefLoads(cfg, n, tx, v);
    LostRefEffect(cfg, tx, v);
    LeavesPackets(cfg, n, tx, LostRef(cfg, tx, v), v);
  }

  /** The byte and message counts of the connection are the same. */
  predicate SameAccounts(cn: ConnTx, cn': ConnTx) {
    && cn'.flows == cn.flows && |cn'.orderedSeq| == |cn.orderedSeq|
    && cn'.sendQueueBytes == cn.sendQueueBytes && cn'.retransmitBytes == cn.retransmitBytes
    && cn'.inflightBytes == cn.inflightBytes && cn'.lateAckCount == cn.lateAckCount
  }

  /** Changing anything else of a connection, such as its numbering, disturbs nothing. */
  lemma ConnEdited(cfg: TxConfig, n: nat, tx: Tx, c: nat, cn: ConnTx)
    requires Loose(cfg, tx, n) && c < cfg.maxConns && SameAccounts(tx.conns[c], cn)
    ensures Loose(cfg, tx.(conns := tx.conns[c := cn]), n)
  {
    var tx' := tx.(conns := tx.conns[c := cn]);
    forall t: Tally | Kept(tx'.conns, t)
      ensures Counter(tx'.conns, t) == Total(t, tx'.msgs, tx'.place)
    {
      assert Kept(tx.conns, t);
    }
    forall v | 0 <= v < |tx'.msgs| && tx'.place[v].Packed?
      ensures PackedSlotOk(cfg, tx', n, v)
    {
      assert PackedSlotOk(cfg, tx, n, v);
    }
  }
}
