/** Building the send batch and handing it to the socket: numbering and packing, recording what was
    sent, putting back what was not. */
module SenderFlush {
  import opened MachineWords
  import opened SerialNumbers
  import opened Receiver
  import opened MessagePool
  import opened PoolTallies
  import opened Sender
  import opened SenderOps
  import opened SenderAcks
  import opened SackWindow

  // ----- packet numbers --------------------------------------------------------------------------

  predicate BatchHasReliable(tx: Tx, b: nat)
    requires |tx.place| == |tx.msgs|
  {
    exists v :: 0 <= v < |tx.msgs| && tx.place[v].Packed? && tx.place[v].b == b && IsReliable(tx.msgs[v].rel)
  }

  /** `sent_slot_available`. */
  ghost predicate SlotAvailable(cfg: TxConfig, tx: Tx, c: nat, number: uint32)
    requires 0 < cfg.slots && c < |tx.sent| && |tx.sent[c]| == cfg.slots && |tx.place| == |tx.msgs|
  {
    && !tx.sent[c][number % cfg.slots].used
    && forall b :: 0 <= b < |tx.batch| && tx.batch[b].conn == c && BatchHasReliable(tx, b) ==>
         tx.batch[b].number % cfg.slots != number % cfg.slots
  }

  /** `prune_sent_seq_queue`. */
  function Pruned(cfg: TxConfig, tx: Tx, c: nat, tracked: seq<int>): (r: seq<int>)
    requires 0 < cfg.slots && c < |tx.sent| && |tx.sent[c]| == cfg.slots
    ensures forall x :: x in r <==> x in tracked && Live(cfg, tx, c, x)
    ensures |r| <= |tracked|
  {
    if tracked == [] then []
    else (if Live(cfg, tx, c, tracked[0]) then [tracked[0]] else []) + Pruned(cfg, tx, c, tracked[1..])
  }

  /** `reliable_window_allows`, for a connection whose queue has been pruned. */
  predicate WindowAllows(cn: ConnTx, candidate: uint32) {
    if cn.tracked != [] then Sub32(candidate, Wrap32(cn.tracked[0])) < ACK_WINDOW
    else if cn.batchFirst != 0 then Sub32(candidate, Wrap32(cn.batchFirst)) < ACK_WINDOW
    else true
  }

  /** `next_nonzero_packet_seq`: issuing the next number. */
  function Issued(cn: ConnTx): ConnTx {
    var u := NextUnwrapped(cn.newest);
    cn.(newest := u, next := Wrap32(u + 1))
  }

  /** The loop of `next_packet_seq`: numbers whose slot is taken are skipped, up to `tries` of them. */
  ghost function IssuedFree(cfg: TxConfig, tx: Tx, c: nat, cn: ConnTx, tries: nat): (r: (ConnTx, bool))
    requires 0 < cfg.slots && c < |tx.sent| && |tx.sent[c]| == cfg.slots && |tx.place| == |tx.msgs|
    ensures r.0 == cn.(newest := r.0.newest, next := r.0.next)
    ensures r.1 ==> SlotAvailable(cfg, tx, c, Wrap32(r.0.newest)) && Wrap32(r.0.newest) != 0
    decreases tries
  {
    if tries == 0 then (cn, false)
    else
      var cn1 := Issued(cn);
      NextNumber(cn.newest);
      if SlotAvailable(cfg, tx, c, Wrap32(cn1.newest)) then (cn1, true)
      else IssuedFree(cfg, tx, c, cn1, tries - 1)
  }

  /** `next_packet_seq`: the connection afterwards, whether there is a number, and the number (0 for a
      packet that takes none). */
  ghost function Numbered(cfg: TxConfig, tx: Tx, c: nat, reliable: bool): (r: (ConnTx, bool, int))
    requires 0 < cfg.slots && c < |tx.sent| == |tx.conns| && |tx.sent[c]| == cfg.slots && |tx.place| == |tx.msgs|
    ensures r.1 && reliable ==>
      SlotAvailable(cfg, tx, c, Wrap32(r.2)) && Wrap32(r.2) != 0 && r.2 == r.0.newest
    ensures r.0 == tx.conns[c].(newest := r.0.newest, next := r.0.next, tracked := r.0.tracked,
                                batchFirst := r.0.batchFirst)
  {
    var cn := tx.conns[c];
    if !reliable then
      if cfg.skipUnreliableAcks then (cn, true, 0)
      else (Issued(cn), true, NextUnwrapped(cn.newest))
    else
      var cn1 := cn.(tracked := Pruned(cfg, tx, c, cn.tracked));
      if !WindowAllows(cn1, Wrap32(NextUnwrapped(cn.newest))) then (cn1, false, 0)
      else
        var (cn2, ok) := IssuedFree(cfg, tx, c, cn1, cfg.slots);
        if !ok then (cn2, false, 0)
        else (if cn2.batchFirst == 0 then cn2.(batchFirst := cn2.newest) else cn2, true, cn2.newest)
  }

  // ----- packing ---------------------------------------------------------------------------------

  /** `append_msg_to_batch_packet` accepts message v in batch packet b. */
  ghost predicate Fits(cfg: TxConfig, tx: Tx, v: nat, b: nat)
    requires ValidTx(cfg) && TxShape(cfg, tx) && v < |tx.msgs| && b < |tx.batch|
  {
    && tx.batch[b].conn < cfg.maxConns
    && tx.batch[b].bytes + FRAME_HEADER_BYTES + |tx.msgs[v].payload| <= Mtu(cfg)
    && |At(tx.boxes, InBatch(b))| < MAX_REFS
    && (IsReliable(tx.msgs[v].rel) ==>
          BatchHasReliable(tx, b)
          || (tx.batch[b].number != 0 && SlotAvailable(cfg, tx, tx.batch[b].conn, tx.batch[b].number)))
  }

  /** Bytes of a batch packet after one more message. */
  function WithBytes(tx: Tx, v: nat, b: nat): Tx
    requires v < |tx.msgs| && b < |tx.batch|
  {
    tx.(batch := tx.batch[b := tx.batch[b].(
      bytes := tx.batch[b].bytes + FRAME_HEADER_BYTES + |tx.msgs[v].payload|)])
  }

  /** Growing the byte count of a packet, or appending an empty packet, disturbs nothing. */
  lemma BatchEdited(cfg: TxConfig, tx: Tx, batch: seq<OutInfo>)
    requires Loose(cfg, tx, 0) && |tx.batch| <= |batch|
    requires forall b :: 0 <= b < |tx.batch| ==> batch[b] == tx.batch[b].(bytes := batch[b].bytes)
    ensures Loose(cfg, tx.(batch := batch), 0)
  {
    var tx' := tx.(batch := batch);
    forall v | 0 <= v < |tx'.msgs| && tx'.place[v].Packed?
      ensures PackedSlotOk(cfg, tx', 0, v)
    {
      assert PackedSlotOk(cfg, tx, 0, v);
    }
  }

  /** The last batch packet belongs to the connection and takes the message. */
  lemma CanPackLast(cfg: TxConfig, tx: Tx, v: nat)
    requires Loose(cfg, tx, 0) && v < |tx.msgs| && tx.place[v].Transit? && tx.batch != []
    requires var o := tx.batch[|tx.batch| - 1];
      o.conn == tx.msgs[v].owner && !o.ackOnly && (o.number != 0 ==> o.number == Wrap32(o.unwrapped))
    requires Fits(cfg, tx, v, |tx.batch| - 1)
    ensures CanPack(cfg, tx, v, |tx.batch| - 1)
  {
    var b := |tx.batch| - 1;
    var o := tx.batch[b];
    if IsReliable(tx.msgs[v].rel) {
      if BatchHasReliable(tx, b) {
        var u :| 0 <= u < |tx.msgs| && tx.place[u].Packed? && tx.place[u].b == b && IsReliable(tx.msgs[u].rel);
        assert PackedSlotOk(cfg, tx, 0, u);
      } else {
        forall w | 0 <= w < |tx.msgs| && tx.place[w].Packed? && tx.place[w].b != b
                   && tx.place[w].b < |tx.batch| && tx.msgs[w].owner == o.conn && IsReliable(tx.msgs[w].rel)
          ensures tx.batch[tx.place[w].b].number % cfg.slots != o.number % cfg.slots
        {
          assert PackedSlotOk(cfg, tx, 0, w);
          assert BatchHasReliable(tx, tx.place[w].b);
        }
      }
    }
  }

  ghost predicate BatchNumbersOk(cfg: TxConfig, tx: Tx) {
    forall b :: 0 <= b < |tx.batch| ==>
      && tx.batch[b].conn < cfg.maxConns
      && (tx.batch[b].number != 0 ==> tx.batch[b].number == Wrap32(tx.batch[b].unwrapped))
  }

  /** The invariant while a batch is being built. */
  ghost predicate Building(cfg: TxConfig, tx: Tx) {
    Loose(cfg, tx, 0) && BatchNumbersOk(cfg, tx)
  }

  lemma InBatchMeans(cfg: TxConfig, tx: Tx, b: nat, v: nat)
    requires Loose(cfg, tx, 0) && v in At(tx.boxes, InBatch(b))
    ensures b < |tx.batch|
  {
    InBoxMeans(cfg, tx, InBatch(b), v);
    assert PackedSlotOk(cfg, tx, 0, v);
  }

  /** A new batch packet has no messages yet. */
  lemma NewPacketEmpty(cfg: TxConfig, tx: Tx)
    requires Loose(cfg, tx, 0)
    ensures At(tx.boxes, InBatch(|tx.batch|)) == []
  {
    var list := At(tx.boxes, InBatch(|tx.batch|));
    if list != [] {
      InBatchMeans(cfg, tx, |tx.batch|, list[0]);
    }
  }

  /** Appending to the last packet. */
  ghost function PackedLast(cfg: TxConfig, tx: Tx, v: nat): (tx': Tx)
    requires Building(cfg, tx) && v < |tx.msgs| && tx.place[v].Transit? && tx.batch != []
    requires tx.batch[|tx.batch| - 1].conn == tx.msgs[v].owner && !tx.batch[|tx.batch| - 1].ackOnly
    requires Fits(cfg, tx, v, |tx.batch| - 1)
    ensures Building(cfg, tx')
    ensures tx' == WithBytes(PackedInto(tx, v, |tx.batch| - 1), v, |tx.batch| - 1)
  {
    var b := |tx.batch| - 1;
    CanPackLast(cfg, tx, v);
    PackedLoose(cfg, tx, v, b);
    var tx1 := PackedInto(tx, v, b);
    BatchEdited(cfg, tx1, WithBytes(tx1, v, b).batch);
    WithBytes(tx1, v, b)
  }

  lemma SlotStillAvailable(cfg: TxConfig, tx: Tx, tx1: Tx, c: nat, number: uint32)
    requires Loose(cfg, tx, 0) && c < cfg.maxConns && SlotAvailable(cfg, tx, c, number)
    requires tx1.msgs == tx.msgs && tx1.place == tx.place && tx1.sent == tx.sent
    requires |tx1.batch| == |tx.batch| + 1 && tx1.batch[..|tx.batch|] == tx.batch
    ensures SlotAvailable(cfg, tx1, c, number)
  {
    forall b | 0 <= b < |tx1.batch| && tx1.batch[b].conn == c && BatchHasReliable(tx1, b)
      ensures tx1.batch[b].number % cfg.slots != number % cfg.slots
    {
      var u :| 0 <= u < |tx.msgs| && tx.place[u].Packed? && tx.place[u].b == b && IsReliable(tx.msgs[u].rel);
      assert PackedSlotOk(cfg, tx, 0, u);
      assert BatchHasReliable(tx, b) && tx1.batch[b] == tx.batch[b];
    }
  }

  /** The state with another, empty packet at the end of the batch. */
  ghost predicate HasNewPacket(cfg: TxConfig, tx: Tx, tx1: Tx, c: nat, reliable: bool) {
    && Building(cfg, tx1) && c < cfg.maxConns
    && tx1 == tx.(conns := tx1.conns, batch := tx1.batch)
    && |tx1.batch| == |tx.batch| + 1 && tx1.batch[..|tx.batch|] == tx.batch
    && var o := tx1.batch[|tx.batch|];
    && o.conn == c && !o.ackOnly && o.bytes == HEADER_BYTES
    && (reliable ==> o.number != 0 && SlotAvailable(cfg, tx1, c, o.number))
  }

  /** Numbering and opening a new packet; the numbering of the connection is updated even if it fails. */
  ghost function PacketOpened(cfg: TxConfig, tx: Tx, c: nat, reliable: bool): (r: (Tx, bool))
    requires Building(cfg, tx) && c < cfg.maxConns
    ensures r.1 ==> HasNewPacket(cfg, tx, r.0, c, reliable)
    ensures !r.1 ==> Building(cfg, r.0) && r.0 == tx.(conns := r.0.conns)
  {
    var (cn, ok, u) := Numbered(cfg, tx, c, reliable);
    var tx0 := Renumbered(cfg, tx, c, cn);
    if !ok then (tx0, false)
    else
      NewPacketOk(cfg, tx, tx0, c, reliable, u);
      (WithPacket(tx0, c, u), true)
  }

  ghost function Renumbered(cfg: TxConfig, tx: Tx, c: nat, cn: ConnTx): (tx': Tx)
    requires Building(cfg, tx) && c < cfg.maxConns
    requires cn == tx.conns[c].(newest := cn.newest, next := cn.next, tracked := cn.tracked,
                                batchFirst := cn.batchFirst)
    ensures Building(cfg, tx')
  {
    ConnEdited(cfg, 0, tx, c, cn);
    tx.(conns := tx.conns[c := cn])
  }

  /** An empty packet for connection c at the end of the batch; number 0 for none. */
  function WithPacket(tx: Tx, c: nat, u: int): Tx {
    tx.(batch := tx.batch + [OutInfo(c, if u == 0 then 0 else Wrap32(u), u, false, HEADER_BYTES)])
  }

  lemma NewPacketOk(cfg: TxConfig, tx: Tx, tx0: Tx, c: nat, reliable: bool, u: int)
    requires Building(cfg, tx) && Building(cfg, tx0) && c < cfg.maxConns && tx0 == tx.(conns := tx0.conns)
    requires reliable ==> Wrap32(u) != 0 && SlotAvailable(cfg, tx, c, Wrap32(u))
    ensures HasNewPacket(cfg, tx, WithPacket(tx0, c, u), c, reliable)
  {
    var tx1 := WithPacket(tx0, c, u);
    BatchEdited(cfg, tx0, tx1.batch);
    if reliable {
      SlotStillAvailable(cfg, tx, tx1, c, Wrap32(u));
    }
  }

  /** The message always fits into the new packet. */
  lemma NewPacketTakes(cfg: TxConfig, tx: Tx, tx1: Tx, v: nat)
    requires Building(cfg, tx) && v < |tx.msgs| && tx.place[v].Transit?
    requires HasNewPacket(cfg, tx, tx1, tx.msgs[v].owner, IsReliable(tx.msgs[v].rel))
    ensures Fits(cfg, tx1, v, |tx.batch|)
  {
    NewPacketEmpty(cfg, tx);
    assert |tx.msgs[v].payload| <= cfg.framePayload;
  }

  ghost function AppendedToNew(cfg: TxConfig, tx: Tx, v: nat): (r: (Tx, bool))
    requires Building(cfg, tx) && v < |tx.msgs| && tx.place[v].Transit? && tx.msgs[v].owner < cfg.maxConns
    ensures AppendOutcome(cfg, tx, v, r)
  {
    var (tx1, ok) := PacketOpened(cfg, tx, tx.msgs[v].owner, IsReliable(tx.msgs[v].rel));
    if !ok then (tx1, false)
    else
      NewPacketTakes(cfg, tx, tx1, v);
      (PackedLast(cfg, tx1, v), true)
  }

  /** Either message v is packed, or nothing but the numbering changed. */
  ghost predicate AppendOutcome(cfg: TxConfig, tx: Tx, v: nat, r: (Tx, bool)) {
    && Building(cfg, r.0)
    && v < |tx.msgs| == |r.0.msgs| == |r.0.place|
    && (r.1 <==> r.0.place[v].Packed?)
    && (!r.1 ==> r.0 == tx.(conns := r.0.conns))
  }

  /** `append_packet_for_msg`: into the last packet, or into a new one if the batch has room and, for a
      reliable message, the window allows a number. */
  ghost function Appended(cfg: TxConfig, tx: Tx, v: nat): (r: (Tx, bool))
    requires Building(cfg, tx) && v < |tx.msgs| && tx.place[v].Transit?
    ensures AppendOutcome(cfg, tx, v, r)
  {
    assert MsgOk(cfg.maxConns, cfg.maxFlows, tx.msgs[v], tx.place[v]);
    var last := |tx.batch| - 1;
    if last >= 0 && tx.batch[last].conn == tx.msgs[v].owner && !tx.batch[last].ackOnly
       && Fits(cfg, tx, v, last) then
      (PackedLast(cfg, tx, v), true)
    else if |tx.batch| >= cfg.batchSize then (tx, false)
    else AppendedToNew(cfg, tx, v)
  }

  /** One round of the flush loop: the head of a ring is picked and packed, or put back. */
  ghost function PickedAndPacked(cfg: TxConfig, tx: Tx, c: nat, f: nat, kind: Kind): (r: (Tx, bool))
    requires Building(cfg, tx) && At(tx.boxes, Ring(c, f, kind)) != []
    ensures Building(cfg, r.0)
  {
    PickedLoose(cfg, 0, tx, c, f, kind);
    var v := At(tx.boxes, Ring(c, f, kind))[0];
    var (tx1, ok) := Appended(cfg, Picked(tx, c, f, kind), v);
    if ok then (tx1, true)
    else
      RequeuedLoose(cfg, 0, tx1, v);
      (Requeued(cfg, tx1, v), false)
  }

  /** `append_ack_only`. */
  ghost function AckOnlyAppended(cfg: TxConfig, tx: Tx, c: nat): (tx': Tx)
    requires Building(cfg, tx) && c < cfg.maxConns
    ensures Building(cfg, tx')
  {
    var tx1 := tx.(batch := tx.batch + [OutInfo(c, 0, 0, true, HEADER_BYTES)]);
    BatchEdited(cfg, tx, tx1.batch);
    tx1
  }
}
