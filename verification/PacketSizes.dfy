/** How large the packets are: while a batch is being built, the size noted for each of its packets is that of the
    packet on the wire, and none is larger than the MTU. */
module PacketSizes {
  import opened MachineWords
  import opened MessagePool
  import opened Receiver
  import opened Sender
  import opened SenderOps
  import opened SenderAcks
  import opened SenderFlush
  import opened SenderBatch
  import opened SenderSteps
  import opened SenderRuns
  import opened SenderTheorems
  import Wire

  // ----- sums over slots -------------------------------------------------------------------------

  function FrameBytes(m: Msg): nat { FRAME_HEADER_BYTES + |m.payload| }

  /** The bytes of the frames of those of the first n slots that are in the set. */
  function SetBytes(msgs: seq<Msg>, slots: set<nat>, n: nat): nat
    requires n <= |msgs|
  {
    if n == 0 then 0
    else SetBytes(msgs, slots, n - 1) + (if n - 1 in slots then FrameBytes(msgs[n - 1]) else 0)
  }

  lemma {:induction false} SameBytes(msgs: seq<Msg>, msgs': seq<Msg>, slots: set<nat>, n: nat)
    requires n <= |msgs| == |msgs'|
    requires forall v :: v in slots && v < |msgs| ==> |msgs'[v].payload| == |msgs[v].payload|
    ensures SetBytes(msgs', slots, n) == SetBytes(msgs, slots, n)
  {
    if n > 0 { SameBytes(msgs, msgs', slots, n - 1); }
  }

  lemma {:induction false} OneMoreBytes(msgs: seq<Msg>, slots: set<nat>, v: nat, n: nat)
    requires n <= |msgs| && v !in slots
    ensures SetBytes(msgs, slots + {v}, n) == SetBytes(msgs, slots, n) + (if v < n then FrameBytes(msgs[v]) else 0)
  {
    if n > 0 { OneMoreBytes(msgs, slots, v, n - 1); }
  }

  lemma {:induction false} NoBytes(msgs: seq<Msg>, n: nat)
    requires n <= |msgs|
    ensures SetBytes(msgs, {}, n) == 0
  {
    if n > 0 { NoBytes(msgs, n - 1); }
  }

  /** The same sum over a list. */
  function ListBytes(msgs: seq<Msg>, list: seq<nat>): nat
    requires forall k :: 0 <= k < |list| ==> list[k] < |msgs|
  {
    if list == [] then 0 else FrameBytes(msgs[list[0]]) + ListBytes(msgs, list[1..])
  }

  ghost function Members(list: seq<nat>): set<nat> { set v | v in list }

  lemma {:induction false} ListIsSet(msgs: seq<Msg>, list: seq<nat>)
    requires NoDup(list) && forall k :: 0 <= k < |list| ==> list[k] < |msgs|
    ensures ListBytes(msgs, list) == SetBytes(msgs, Members(list), |msgs|)
  {
    if list == [] {
      assert Members(list) == {};
      NoBytes(msgs, |msgs|);
    } else {
      assert forall k :: 0 < k < |list| ==> list[k] != list[0];
      ListIsSet(msgs, list[1..]);
      assert list[0] !in list[1..] && list == [list[0]] + list[1..];
      assert Members(list) == Members(list[1..]) + {list[0]};
      OneMoreBytes(msgs, Members(list[1..]), list[0], |msgs|);
    }
  }

  // ----- packets of the batch --------------------------------------------------------------------

  ghost function SlotsIn(place: seq<Place>, b: nat): set<nat> {
    set v: nat | v < |place| && place[v].Packed? && place[v].b == b
  }

  ghost predicate SizeOk(cfg: TxConfig, tx: Tx, b: nat)
    requires b < |tx.batch|
  {
    && tx.batch[b].bytes == HEADER_BYTES + SetBytes(tx.msgs, SlotsIn(tx.place, b), |tx.msgs|)
    && tx.batch[b].bytes <= Mtu(cfg)
  }

  ghost predicate SizesOk(cfg: TxConfig, tx: Tx) { forall b :: 0 <= b < |tx.batch| ==> SizeOk(cfg, tx, b) }

  /** The slots of a packet that was not touched. */
  ghost predicate PacketKept(tx: Tx, tx': Tx, b: nat) {
    && |tx.msgs| == |tx.place| == |tx'.msgs| == |tx'.place| && b < |tx.batch| && b < |tx'.batch|
    && tx'.batch[b].bytes == tx.batch[b].bytes
    && SlotsIn(tx'.place, b) == SlotsIn(tx.place, b)
    && forall v :: v in SlotsIn(tx.place, b) ==> |tx'.msgs[v].payload| == |tx.msgs[v].payload|
  }

  lemma KeptSize(cfg: TxConfig, tx: Tx, tx': Tx, b: nat)
    requires PacketKept(tx, tx', b) && SizeOk(cfg, tx, b)
    ensures SizeOk(cfg, tx', b)
  {
    SameBytes(tx.msgs, tx'.msgs, SlotsIn(tx.place, b), |tx.msgs|);
  }

  /** A message packed into packet b. */
  lemma PackedSize(cfg: TxConfig, tx: Tx, v: nat, b: nat, tx': Tx)
    requires Building(cfg, tx) && v < |tx.msgs| && tx.place[v].Transit? && b < |tx.batch| && Fits(cfg, tx, v, b)
    requires tx' == WithBytes(PackedInto(tx, v, b), v, b) && SizesOk(cfg, tx)
    ensures SizesOk(cfg, tx')
  {
    forall a: nat | a < |tx'.batch|
      ensures SizeOk(cfg, tx', a)
    {
      assert SizeOk(cfg, tx, a);
      if a == b {
        assert SlotsIn(tx'.place, b) == SlotsIn(tx.place, b) + {v};
        OneMoreBytes(tx.msgs, SlotsIn(tx.place, b), v, |tx.msgs|);
        SameBytes(tx.msgs, tx'.msgs, SlotsIn(tx'.place, b), |tx.msgs|);
      } else {
        assert SlotsIn(tx'.place, a) == SlotsIn(tx.place, a);
        KeptSize(cfg, tx, tx', a);
      }
    }
  }

  lemma NoneBeyond(cfg: TxConfig, tx: Tx, b: nat)
    requires Building(cfg, tx) && |tx.batch| <= b
    ensures SlotsIn(tx.place, b) == {}
  {
    forall v | 0 <= v < |tx.place| && tx.place[v].Packed?
      ensures tx.place[v].b < |tx.batch|
    {
      assert PackedSlotOk(cfg, tx, 0, v);
    }
  }

  /** Another packet, still empty. */
  lemma OpenedSize(cfg: TxConfig, tx: Tx, tx': Tx)
    requires Building(cfg, tx) && SizesOk(cfg, tx) && tx'.msgs == tx.msgs && tx'.place == tx.place
    requires |tx'.batch| == |tx.batch| + 1 && tx'.batch[..|tx.batch|] == tx.batch
    requires tx'.batch[|tx.batch|].bytes == HEADER_BYTES
    ensures SizesOk(cfg, tx')
  {
    forall a: nat | a < |tx'.batch|
      ensures SizeOk(cfg, tx', a)
    {
      if a < |tx.batch| {
        assert tx'.batch[a] == tx.batch[a] && SizeOk(cfg, tx, a);
      } else {
        NoneBeyond(cfg, tx, a);
        NoBytes(tx.msgs, |tx.msgs|);
      }
    }
  }

  lemma AppendedSize(cfg: TxConfig, tx: Tx, v: nat)
    requires Building(cfg, tx) && SizesOk(cfg, tx) && v < |tx.msgs| && tx.place[v].Transit?
    ensures SizesOk(cfg, Appended(cfg, tx, v).0)
  {
    assert MsgOk(cfg.maxConns, cfg.maxFlows, tx.msgs[v], tx.place[v]);
    var last := |tx.batch| - 1;
    if last >= 0 && tx.batch[last].conn == tx.msgs[v].owner && !tx.batch[last].ackOnly && Fits(cfg, tx, v, last) {
      PackedSize(cfg, tx, v, last, PackedLast(cfg, tx, v));
      assert Appended(cfg, tx, v).0 == PackedLast(cfg, tx, v);
    } else if |tx.batch| < cfg.batchSize {
      NewPacketSize(cfg, tx, v);
      assert Appended(cfg, tx, v) == AppendedToNew(cfg, tx, v);
    }
  }

  lemma NewPacketSize(cfg: TxConfig, tx: Tx, v: nat)
    requires Building(cfg, tx) && SizesOk(cfg, tx) && v < |tx.msgs| && tx.place[v].Transit?
    requires tx.msgs[v].owner < cfg.maxConns
    ensures SizesOk(cfg, AppendedToNew(cfg, tx, v).0)
  {
    var (tx1, ok) := PacketOpened(cfg, tx, tx.msgs[v].owner, IsReliable(tx.msgs[v].rel));
    if ok {
      OpenedSize(cfg, tx, tx1);
      NewPacketTakes(cfg, tx, tx1, v);
      PackedSize(cfg, tx1, v, |tx.batch|, PackedLast(cfg, tx1, v));
      assert AppendedToNew(cfg, tx, v).0 == PackedLast(cfg, tx1, v);
    } else {
      NumbersDiffer(cfg, tx, tx1);
      assert AppendedToNew(cfg, tx, v).0 == tx1;
    }
  }

  lemma NumbersDiffer(cfg: TxConfig, tx: Tx, tx': Tx)
    requires SizesOk(cfg, tx) && tx'.msgs == tx.msgs && tx'.place == tx.place && tx'.batch == tx.batch
    ensures SizesOk(cfg, tx')
  {
    forall a: nat | a < |tx'.batch|
      ensures SizeOk(cfg, tx', a)
    {
      assert SizeOk(cfg, tx, a);
    }
  }

  /** A slot that is in no packet before and after is changed. */
  lemma OutsideSize(cfg: TxConfig, tx: Tx, tx': Tx, v: nat)
    requires SizesOk(cfg, tx) && Only(tx, tx', v) && v < |tx.msgs| && !tx.place[v].Packed? && !tx'.place[v].Packed?
    ensures SizesOk(cfg, tx')
  {
    forall a: nat | a < |tx'.batch|
      ensures SizeOk(cfg, tx', a)
    {
      assert SizeOk(cfg, tx, a) && SlotsIn(tx'.place, a) == SlotsIn(tx.place, a);
      KeptSize(cfg, tx, tx', a);
    }
  }

  lemma PickSize(cfg: TxConfig, tx: Tx, c: nat, f: nat, kind: Kind)
    requires Building(cfg, tx) && SizesOk(cfg, tx) && At(tx.boxes, Ring(c, f, kind)) != []
    ensures SizesOk(cfg, PickedAndPacked(cfg, tx, c, f, kind).0)
  {
    var v := At(tx.boxes, Ring(c, f, kind))[0];
    InBoxMeans(cfg, tx, Ring(c, f, kind), v);
    PickedLoose(cfg, 0, tx, c, f, kind);
    var tx1 := Picked(tx, c, f, kind);
    OutsideSize(cfg, tx, tx1, v);
    AppendedSize(cfg, tx1, v);
    var (tx2, ok) := Appended(cfg, tx1, v);
    if !ok { RequeuedSize(cfg, tx1, tx2, v); }
  }

  lemma RequeuedSize(cfg: TxConfig, tx1: Tx, tx2: Tx, v: nat)
    requires Building(cfg, tx1) && v < |tx1.msgs| && tx1.place[v].Transit? && Appended(cfg, tx1, v) == (tx2, false)
    requires SizesOk(cfg, tx2)
    ensures SizesOk(cfg, Requeued(cfg, tx2, v))
  {
    AppendedSlots(cfg, tx1, v);
    RequeuedLoose(cfg, 0, tx2, v);
    OutsideSize(cfg, tx2, Requeued(cfg, tx2, v), v);
  }

  /** Whatever leaves the slots of other connections alone, when c has nothing in the batch. */
  lemma OthersSize(cfg: TxConfig, tx: Tx, tx': Tx, c: nat)
    requires Building(cfg, tx) && Building(cfg, tx') && SizesOk(cfg, tx) && NothingOut(tx, c) && NothingOut(tx', c)
    requires |tx'.msgs| == |tx.msgs| && tx'.batch == tx.batch
    requires forall v :: 0 <= v < |tx.msgs| && tx.msgs[v].owner != c ==>
      tx'.msgs[v] == tx.msgs[v] && tx'.place[v] == tx.place[v]
    requires forall v :: 0 <= v < |tx.msgs| && tx'.place[v] != Free ==> tx'.msgs[v].owner == tx.msgs[v].owner
    ensures SizesOk(cfg, tx')
  {
    forall a: nat | a < |tx'.batch|
      ensures SizeOk(cfg, tx', a)
    {
      assert SizeOk(cfg, tx, a) && SlotsIn(tx'.place, a) == SlotsIn(tx.place, a);
      KeptSize(cfg, tx, tx', a);
    }
  }

  lemma TimerSize(cfg: TxConfig, tx: Tx, c: nat, now: uint64, rto: nat)
    requires Building(cfg, tx) && SizesOk(cfg, tx) && c < cfg.maxConns && NothingOut(tx, c)
    ensures SizesOk(cfg, TurnTimedOut(cfg, tx, c, now, rto))
  {
    var tx' := TurnTimedOut(cfg, tx, c, now, rto);
    forall v | 0 <= v < |tx.msgs|
      ensures tx.msgs[v].owner != c ==> tx'.msgs[v] == tx.msgs[v] && tx'.place[v] == tx.place[v]
      ensures tx'.place[v] != Free ==> tx'.msgs[v].owner == tx.msgs[v].owner
      ensures tx'.msgs[v].owner == c ==> !Outgoing(tx'.place[v])
    {
      assert SlotResolved(cfg, tx, tx', c, 0, ZeroWord(), v);
    }
    OthersSize(cfg, tx, tx', c);
  }

  lemma AbortSize(cfg: TxConfig, tx: Tx, c: nat)
    requires Building(cfg, tx) && SizesOk(cfg, tx) && c < cfg.maxConns && NothingOut(tx, c)
    requires Building(cfg, Aborted(cfg, tx, c))
    ensures SizesOk(cfg, Aborted(cfg, tx, c))
  {
    OthersSize(cfg, tx, Aborted(cfg, tx, c), c);
  }

  lemma DropSize(cfg: TxConfig, tx: Tx, c: nat, f: nat, kind: Kind)
    requires Building(cfg, tx) && SizesOk(cfg, tx) && At(tx.boxes, Ring(c, f, kind)) != []
    ensures SizesOk(cfg, HeadDropped(cfg, tx, c, f, kind))
  {
    var v := At(tx.boxes, Ring(c, f, kind))[0];
    InBoxMeans(cfg, tx, Ring(c, f, kind), v);
    OutsideSize(cfg, tx, HeadDropped(cfg, tx, c, f, kind), v);
  }

  // ----- every run -------------------------------------------------------------------------------

  lemma RetransmitsSizes(cfg: TxConfig, st: State, c: nat, now: uint64, rto: nat)
    requires Base(cfg, st) && Enabled(cfg, st, TurnRetransmits(c, now, rto)) && SizesOk(cfg, st.tx)
    ensures SizesOk(cfg, Next(cfg, st, TurnRetransmits(c, now, rto)).tx)
  {
    NothingOutYet(cfg, st, c);
    TimerSize(cfg, st.tx, c, now, rto);
  }

  lemma AbortsSizes(cfg: TxConfig, st: State, c: nat)
    requires Base(cfg, st) && Enabled(cfg, st, TurnAborts(c)) && SizesOk(cfg, st.tx)
    requires Building(cfg, Aborted(cfg, st.tx, c))
    ensures SizesOk(cfg, Next(cfg, st, TurnAborts(c)).tx)
  {
    NothingOutYet(cfg, st, c);
    AbortSize(cfg, st.tx, c);
  }

  lemma PicksSizes(cfg: TxConfig, st: State, f: nat, kind: Kind)
    requires Base(cfg, st) && Enabled(cfg, st, Pick(f, kind)) && SizesOk(cfg, st.tx)
    ensures SizesOk(cfg, Next(cfg, st, Pick(f, kind)).tx)
  {
    var tx' := PickedAndPacked(cfg, st.tx, st.mode.conn, f, kind).0;
    PickSize(cfg, st.tx, st.mode.conn, f, kind);
    NumbersDiffer(cfg, tx', Next(cfg, st, Pick(f, kind)).tx);
  }

  lemma FillingSizes(cfg: TxConfig, st: State, step: Step)
    requires Base(cfg, st) && Enabled(cfg, st, step) && SizesOk(cfg, st.tx) && (step.DropHead? || step.AckOnly?)
    ensures SizesOk(cfg, Next(cfg, st, step).tx)
  {
    if step.DropHead? {
      DropSize(cfg, st.tx, st.mode.conn, step.flow, step.kind);
    } else {
      OpenedSize(cfg, st.tx, Next(cfg, st, step).tx);
    }
  }

  /** After every other step the batch is empty, or as it was. */
  lemma OthersSizes(cfg: TxConfig, st: State, step: Step)
    requires Base(cfg, st) && Enabled(cfg, st, step) && SizesOk(cfg, st.tx)
    requires !step.TurnRetransmits? && !step.TurnAborts? && !step.Pick? && !step.DropHead? && !step.AckOnly?
    requires Base(cfg, Next(cfg, st, step))
    ensures SizesOk(cfg, Next(cfg, st, step).tx)
  {
    if step.Turn? {
      NumbersDiffer(cfg, st.tx, Next(cfg, st, step).tx);
    } else {
      assert Next(cfg, st, step).tx.batch == [];
    }
  }

  lemma StepSizes(cfg: TxConfig, st: State, step: Step, st': State)
    requires Base(cfg, st) && Enabled(cfg, st, step) && st' == Next(cfg, st, step) && Base(cfg, st')
    requires SizesOk(cfg, st.tx)
    ensures SizesOk(cfg, st'.tx)
  {
    if step.TurnRetransmits? {
      RetransmitsSizes(cfg, st, step.conn, step.now, step.rto);
    } else if step.TurnAborts? {
      AbortsSizes(cfg, st, step.conn);
    } else if step.Pick? {
      PicksSizes(cfg, st, step.flow, step.kind);
    } else if step.DropHead? || step.AckOnly? {
      FillingSizes(cfg, st, step);
    } else {
      OthersSizes(cfg, st, step);
    }
  }

  lemma {:induction false} RunSizes(cfg: TxConfig, st: State, steps: seq<Step>, st': State)
    requires Safe(cfg, st) && SizesOk(cfg, st.tx) && RunFrom(cfg, st, steps) == Some(st')
    ensures SizesOk(cfg, st'.tx)
    decreases |steps|
  {
    if steps != [] {
      StepSafe(cfg, st, steps[0]);
      StepSizes(cfg, st, steps[0], Next(cfg, st, steps[0]));
      RunSizes(cfg, Next(cfg, st, steps[0]), steps[1..], st');
    }
  }

  /** The frames carry the payloads of the listed messages, one each, in their order. */
  ghost predicate Carry(frames: seq<Frame>, msgs: seq<Msg>, list: seq<nat>) {
    && |frames| == |list|
    && forall k :: 0 <= k < |list| ==> list[k] < |msgs| && |frames[k].payload| == |msgs[list[k]].payload|
  }

  /** The bytes of the encoded frames. */
  lemma {:induction false} EncodedBytes(frames: seq<Frame>, msgs: seq<Msg>, list: seq<nat>)
    requires Carry(frames, msgs, list)
    ensures |Wire.EncodeFrames(frames)| == ListBytes(msgs, list)
  {
    if list != [] { EncodedBytes(frames[1..], msgs, list[1..]); }
  }

  /** The list of a packet holds exactly the slots that are placed there. */
  lemma BoxIsPacket(cfg: TxConfig, tx: Tx, b: nat)
    requires Core(cfg, tx)
    ensures Members(At(tx.boxes, InBatch(b))) == SlotsIn(tx.place, b)
  {
    forall v: nat
      ensures v in At(tx.boxes, InBatch(b)) <==> v in SlotsIn(tx.place, b)
    {
      if v in At(tx.boxes, InBatch(b)) { InBoxMeans(cfg, tx, InBatch(b), v); }
      if v in SlotsIn(tx.place, b) { assert Home(cfg.slots, tx.msgs[v], tx.place[v]) == Some(InBatch(b)); }
    }
  }

  /** The size of a packet is that of its list. */
  lemma {:induction false} SizeOfList(cfg: TxConfig, tx: Tx, b: nat)
    requires Core(cfg, tx) && b < |tx.batch| && SizeOk(cfg, tx, b)
    ensures forall k :: 0 <= k < |At(tx.boxes, InBatch(b))| ==> At(tx.boxes, InBatch(b))[k] < |tx.msgs|
    ensures tx.batch[b].bytes == HEADER_BYTES + ListBytes(tx.msgs, At(tx.boxes, InBatch(b))) <= Mtu(cfg)
  {
    BatchBoxPacked(cfg, tx, b);
    BoxIsPacket(cfg, tx, b);
    ListIsSet(tx.msgs, At(tx.boxes, InBatch(b)));
  }

  lemma {:induction false} ReachableSizes(cfg: TxConfig, st: State)
    requires Reachable(cfg, st)
    ensures Core(cfg, st.tx) && SizesOk(cfg, st.tx)
  {
    InitialSafe(cfg);
    var steps :| RunFrom(cfg, Initial(cfg), steps) == Some(st);
    RunSizes(cfg, Initial(cfg), steps, st);
  }

  /** In every state of every run, every packet of the batch is as long as is noted for it, with all its messages, and
      fits the MTU: so does whatever a flush hands to the socket. */
  lemma {:induction false} PacketsFit(cfg: TxConfig, st: State, b: nat, packet: Wire.Packet)
    requires Reachable(cfg, st) && b < |st.tx.batch|
    requires Carry(packet.frames, st.tx.msgs, At(st.tx.boxes, InBatch(b)))
    ensures |Wire.EncodePacket(packet)| == st.tx.batch[b].bytes <= Mtu(cfg)
  {
    ReachableSizes(cfg, st);
    assert SizeOk(cfg, st.tx, b);
    SizeOfList(cfg, st.tx, b);
    EncodedBytes(packet.frames, st.tx.msgs, At(st.tx.boxes, InBatch(b)));
  }
}
