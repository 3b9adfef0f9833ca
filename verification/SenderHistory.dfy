/** What one connection's messages, ids and packet numbers go through in the steps of the sender: a message in the
    pool is never altered, and packet numbers only grow. */
module SenderHistory {
  import opened MachineWords
  import opened Receiver
  import opened MessagePool
  import opened PoolTallies
  import opened Sender
  import opened SenderOps
  import opened SenderAcks
  import opened SenderFlush
  import opened SenderBatch
  import opened SenderSend
  import opened SenderSteps
  import opened SenderRuns
  import opened SackWindow

  /** The messages of connection c that are in the pool were there before, with the same content. */
  ghost predicate Faithful(tx: Tx, tx': Tx, c: nat) {
    && |tx'.msgs| == |tx.msgs| == |tx.place| == |tx'.place| && c < |tx.conns| == |tx'.conns|
    && (forall v :: 0 <= v < |tx.msgs| && tx'.place[v] != Free && tx'.msgs[v].owner == c ==>
          tx.place[v] != Free && SameContent(tx.msgs[v], tx'.msgs[v]))
    && tx'.conns[c].active == tx.conns[c].active && tx'.conns[c].nextMsgId == tx.conns[c].nextMsgId
    && tx'.conns[c].orderedSeq == tx.conns[c].orderedSeq
  }

  /** And the packets that carried them are the same. */
  ghost predicate SameCarriers(tx: Tx, tx': Tx, c: nat)
    requires |tx'.msgs| == |tx.msgs| == |tx'.place|
  {
    forall v :: 0 <= v < |tx.msgs| && tx'.place[v] != Free && tx'.msgs[v].owner == c ==>
      tx'.msgs[v].carriedBy == tx.msgs[v].carriedBy
  }

  /** The batch is as it was, or has one more packet; if that takes a number of connection c, it is a new one. */
  ghost predicate NumbersGrow(tx: Tx, tx': Tx, c: nat)
    requires c < |tx.conns| == |tx'.conns|
  {
    && tx.conns[c].newest <= tx'.conns[c].newest
    && |tx.batch| <= |tx'.batch| <= |tx.batch| + 1
    && (forall b :: 0 <= b < |tx.batch| ==> tx'.batch[b].(bytes := 0) == tx.batch[b].(bytes := 0))
    && (|tx'.batch| > |tx.batch| ==>
          var o := tx'.batch[|tx.batch|];
          o.conn == c && o.number != 0 ==> tx.conns[c].newest < o.unwrapped <= tx'.conns[c].newest)
  }

  /** Everything together. */
  ghost predicate Continues(tx: Tx, tx': Tx, c: nat) {
    Faithful(tx, tx', c) && SameCarriers(tx, tx', c) && NumbersGrow(tx, tx', c)
  }

  /** The steps that are not the connection's own beginning or end, a submission on it, or a flush. */
  predicate Ordinary(step: Step, c: nat) {
    match step
    case Submit(d, _, _, _) => d != c
    case Abort(d) => d != c
    case TurnAborts(d) => d != c
    case Connect(d) => d != c
    case Flush(_, _) => false
    case Ack(_, _, _) => true
    case Turn(_) => true
    case TurnRetransmits(_, _, _) => true
    case DropHead(_, _, _) => true
    case Pick(_, _) => true
    case AckOnly => true
    case End => true
  }

  lemma ResolvedContinues(cfg: TxConfig, tx: Tx, tx': Tx, d: nat, ack: uint32, bits: Word64, c: nat)
    requires Resolved(cfg, tx, tx', d, ack, bits) && ActiveSame(tx, tx') && c < |tx.conns| && tx'.batch == tx.batch
    ensures Continues(tx, tx', c)
  {
    forall v | 0 <= v < |tx.msgs| && tx'.place[v] != Free
      ensures tx.place[v] != Free && SameContent(tx.msgs[v], tx'.msgs[v])
      ensures tx'.msgs[v].carriedBy == tx.msgs[v].carriedBy
    {
      assert SlotResolved(cfg, tx, tx', d, ack, bits, v);
    }
  }

  lemma SubmitContinues(cfg: TxConfig, tx: Tx, d: nat, data: Bytes, o: SendOpts, now: uint64, tx': Tx, c: nat)
    requires Idle(cfg, tx) && d < cfg.maxConns && c != d && c < cfg.maxConns
    requires tx' == Send(cfg, tx, d, data, o, now).0
    ensures Continues(tx, tx', c)
  {
    IdleRings(cfg, tx, d, o.flow, Unrel);
    if Refusal(cfg, tx, d, |data|, o) == None {
      var vs := EnqueuedState(cfg, tx, d, data, o, now).1;
      OthersSubmit(cfg, tx, tx', d, data, o, now, vs, c);
    }
  }

  lemma OthersSubmit(cfg: TxConfig, tx: Tx, tx': Tx, d: nat, data: Bytes, o: SendOpts, now: uint64, vs: seq<nat>,
                     c: nat)
    requires SubmitEffect(cfg, tx, tx', d, data, o, now, vs) && c != d && c < cfg.maxConns
    ensures Continues(tx, tx', c)
  {
    var ms := FragMsgs(cfg, tx.conns[d], d, data, o, now);
    assert forall i :: 0 <= i < |vs| ==> tx'.msgs[vs[i]] == ms[i] && ms[i].owner == d;
    forall v | 0 <= v < |tx'.msgs| && tx'.place[v] != Free && tx'.msgs[v].owner == c
      ensures tx'.msgs[v] == tx.msgs[v] && tx'.place[v] == tx.place[v]
    {
    }
  }

  // ----- picking ---------------------------------------------------------------------------------

  lemma {:induction false} IssuedGrows(cfg: TxConfig, tx: Tx, c: nat, cn: ConnTx, tries: nat)
    requires 0 < cfg.slots && c < |tx.sent| && |tx.sent[c]| == cfg.slots && |tx.place| == |tx.msgs|
    ensures var r := IssuedFree(cfg, tx, c, cn, tries);
      cn.newest <= r.0.newest && (r.1 ==> cn.newest < r.0.newest)
    decreases tries
  {
    if tries > 0 {
      var left: nat := tries - 1;
      NextNumber(cn.newest);
      IssuedGrows(cfg, tx, c, Issued(cn), left);
    }
  }

  lemma {:induction false} NumberedGrows(cfg: TxConfig, tx: Tx, c: nat, reliable: bool)
    requires 0 < cfg.slots && c < |tx.sent| == |tx.conns| && |tx.sent[c]| == cfg.slots && |tx.place| == |tx.msgs|
    ensures var r := SenderFlush.Numbered(cfg, tx, c, reliable);
      && tx.conns[c].newest <= r.0.newest
      && (r.1 && r.2 != 0 ==> tx.conns[c].newest < r.2 <= r.0.newest)
  {
    var cn1 := tx.conns[c].(tracked := Pruned(cfg, tx, c, tx.conns[c].tracked));
    NextNumber(tx.conns[c].newest);
    IssuedGrows(cfg, tx, c, cn1, cfg.slots);
  }

  /** As `NumbersGrow`, and the new packet is one of connection d. */
  ghost predicate GrowsFor(tx: Tx, tx': Tx, d: nat)
    requires d < |tx.conns| == |tx'.conns|
  {
    NumbersGrow(tx, tx', d) && (|tx'.batch| > |tx.batch| ==> tx'.batch[|tx.batch|].conn == d)
  }

  lemma OpenedGrows(cfg: TxConfig, tx: Tx, c: nat, reliable: bool)
    requires Building(cfg, tx) && c < cfg.maxConns
    ensures GrowsFor(tx, PacketOpened(cfg, tx, c, reliable).0, c)
  {
    NumberedGrows(cfg, tx, c, reliable);
  }

  /** Packing leaves everything as it is, adds to the last packet, or opens a new one. */
  ghost predicate LastOrNew(cfg: TxConfig, tx: Tx, v: nat, tx': Tx)
    requires Building(cfg, tx) && v < |tx.msgs| && tx.place[v].Transit? && tx.msgs[v].owner < cfg.maxConns
  {
    || tx' == tx
    || (tx.batch != [] && tx' == WithBytes(PackedInto(tx, v, |tx.batch| - 1), v, |tx.batch| - 1))
    || tx' == AppendedToNew(cfg, tx, v).0
  }

  lemma AppendedCases(cfg: TxConfig, tx: Tx, v: nat)
    requires Building(cfg, tx) && v < |tx.msgs| && tx.place[v].Transit? && tx.msgs[v].owner < cfg.maxConns
    ensures LastOrNew(cfg, tx, v, Appended(cfg, tx, v).0)
  {
  }

  lemma AppendedGrows(cfg: TxConfig, tx: Tx, v: nat, tx': Tx)
    requires Building(cfg, tx) && v < |tx.msgs| && tx.place[v].Transit? && tx.msgs[v].owner < cfg.maxConns
    requires LastOrNew(cfg, tx, v, tx')
    ensures GrowsFor(tx, tx', tx.msgs[v].owner)
  {
    if tx' != tx {
      if tx' == AppendedToNew(cfg, tx, v).0 {
        NewPacketGrows(cfg, tx, v, tx');
      } else {
        LastGrows(tx, tx', v, |tx.batch| - 1);
      }
    }
  }

  lemma LastGrows(tx: Tx, tx': Tx, v: nat, last: nat)
    requires last < |tx.batch| && v < |tx.msgs| == |tx.place| && tx.place[v].Transit? && tx.msgs[v].owner < |tx.conns|
    requires tx' == WithBytes(PackedInto(tx, v, last), v, last)
    ensures GrowsFor(tx, tx', tx.msgs[v].owner)
  {
  }

  lemma NewPacketGrows(cfg: TxConfig, tx: Tx, v: nat, tx': Tx)
    requires Building(cfg, tx) && v < |tx.msgs| && tx.place[v].Transit? && tx.msgs[v].owner < cfg.maxConns
    requires tx' == AppendedToNew(cfg, tx, v).0
    ensures GrowsFor(tx, tx', tx.msgs[v].owner)
  {
    OpenedGrows(cfg, tx, tx.msgs[v].owner, IsReliable(tx.msgs[v].rel));
    var (tx1, ok) := PacketOpened(cfg, tx, tx.msgs[v].owner, IsReliable(tx.msgs[v].rel));
    if ok { NewPacketTakes(cfg, tx, tx1, v); }
  }

  lemma PickGrows(cfg: TxConfig, tx: Tx, d: nat, f: nat, kind: Kind)
    requires Building(cfg, tx) && At(tx.boxes, Ring(d, f, kind)) != [] && d < cfg.maxConns
    ensures GrowsFor(tx, PickedAndPacked(cfg, tx, d, f, kind).0, d)
  {
    var v := At(tx.boxes, Ring(d, f, kind))[0];
    InBoxMeans(cfg, tx, Ring(d, f, kind), v);
    PickedLoose(cfg, 0, tx, d, f, kind);
    var tx1 := Picked(tx, d, f, kind);
    var (tx2, ok) := Appended(cfg, tx1, v);
    AppendedCases(cfg, tx1, v);
    AppendedGrows(cfg, tx1, v, tx2);
    if !ok { RequeuedLoose(cfg, 0, tx2, v); }
  }

  lemma PickContinues(cfg: TxConfig, tx: Tx, d: nat, f: nat, kind: Kind, c: nat)
    requires Building(cfg, tx) && At(tx.boxes, Ring(d, f, kind)) != [] && d < cfg.maxConns && c < cfg.maxConns
    requires BatchUpTo(tx, d)
    ensures Continues(tx, PickedAndPacked(cfg, tx, d, f, kind).0, c)
  {
    PickedSlots(cfg, tx, d, f, kind);
    PickGrows(cfg, tx, d, f, kind);
    PickedNumbering(cfg, tx, d, f, kind);
    var (tx', took) := PickedAndPacked(cfg, tx, d, f, kind);
    OutcomeContinues(tx, tx', d, f, kind, At(tx.boxes, Ring(d, f, kind))[0], took, c);
    if c != d { OthersGrow(tx, tx', d, c); }
  }

  lemma OutcomeContinues(tx: Tx, tx': Tx, d: nat, f: nat, kind: Kind, v: nat, took: bool, c: nat)
    requires PickOutcome(tx, tx', d, f, kind, v, took) && c < |tx.conns|
    ensures Faithful(tx, tx', c) && SameCarriers(tx, tx', c)
  {
  }

  /** A new packet of connection d takes no number of another. */
  lemma OthersGrow(tx: Tx, tx': Tx, d: nat, c: nat)
    requires c < |tx.conns| == |tx'.conns| && d < |tx.conns| && c != d && GrowsFor(tx, tx', d)
    requires SameNumbering(tx.conns[c], tx'.conns[c])
    ensures NumbersGrow(tx, tx', c)
  {
  }

  // ----- every ordinary step ---------------------------------------------------------------------

  lemma AbortContinues(cfg: TxConfig, tx: Tx, d: nat, c: nat)
    requires Loose(cfg, tx, 0) && d < cfg.maxConns && c < cfg.maxConns && c != d
    ensures Continues(tx, Aborted(cfg, tx, d), c)
  {
  }

  lemma StepContinues(cfg: TxConfig, st: State, step: Step, st': State, c: nat)
    requires Base(cfg, st) && Enabled(cfg, st, step) && Ordinary(step, c) && c < cfg.maxConns
    requires st' == Next(cfg, st, step)
    ensures Continues(st.tx, st'.tx, c)
  {
    if step.Submit? {
      SubmittingContinues(cfg, st, step, st', c);
    } else if step.Ack? || step.TurnRetransmits? {
      ResolvingContinues(cfg, st, step, st', c);
    } else if step.Abort? || step.TurnAborts? || step.DropHead? {
      DroppingContinues(cfg, st, step, st', c);
    } else if step.Pick? {
      PickingContinues(cfg, st, step, st', c);
    } else {
      TurnContinues(cfg, st, step, st', c);
    }
  }

  lemma SubmittingContinues(cfg: TxConfig, st: State, step: Step, st': State, c: nat)
    requires Base(cfg, st) && Enabled(cfg, st, step) && Ordinary(step, c) && c < cfg.maxConns && step.Submit?
    requires st' == Next(cfg, st, step)
    ensures Continues(st.tx, st'.tx, c)
  {
    var Submit(d, data, o, now) := step;
    IdleBetween(cfg, st);
    SubmitContinues(cfg, st.tx, d, data, o, now, st'.tx, c);
  }

  lemma ResolvingContinues(cfg: TxConfig, st: State, step: Step, st': State, c: nat)
    requires Base(cfg, st) && Enabled(cfg, st, step) && c < cfg.maxConns && (step.Ack? || step.TurnRetransmits?)
    requires st' == Next(cfg, st, step)
    ensures Continues(st.tx, st'.tx, c)
  {
    match step
    case Ack(d, ack, bits) =>
      NothingOutYet(cfg, st, d);
      ResolvedContinues(cfg, st.tx, AckReceived(cfg, st.tx, d, ack, bits), d, ack, bits, c);
    case TurnRetransmits(d, now, rto) =>
      NothingOutYet(cfg, st, d);
      ResolvedContinues(cfg, st.tx, TurnTimedOut(cfg, st.tx, d, now, rto), d, 0, ZeroWord(), c);
  }

  lemma DroppingContinues(cfg: TxConfig, st: State, step: Step, st': State, c: nat)
    requires Base(cfg, st) && Enabled(cfg, st, step) && Ordinary(step, c) && c < cfg.maxConns
    requires step.Abort? || step.TurnAborts? || step.DropHead?
    requires st' == Next(cfg, st, step)
    ensures Continues(st.tx, st'.tx, c)
  {
    match step
    case Abort(d) => AbortContinues(cfg, st.tx, d, c);
    case TurnAborts(d) => AbortContinues(cfg, st.tx, d, c);
    case DropHead(f, kind, now) => DropContinues(cfg, st.tx, st.mode.conn, f, kind, c);
  }

  lemma PickingContinues(cfg: TxConfig, st: State, step: Step, st': State, c: nat)
    requires Base(cfg, st) && Enabled(cfg, st, step) && c < cfg.maxConns && step.Pick?
    requires st' == Next(cfg, st, step)
    ensures Continues(st.tx, st'.tx, c)
  {
    var Pick(f, kind) := step;
    PickContinues(cfg, st.tx, st.mode.conn, f, kind, c);
    BlockedContinues(st.tx, PickedAndPacked(cfg, st.tx, st.mode.conn, f, kind).0, st.mode.conn, c);
  }

  lemma BlockedContinues(tx: Tx, tx': Tx, d: nat, c: nat)
    requires Continues(tx, tx', c) && d < |tx'.conns|
    ensures Continues(tx, Blocked(tx', d), c)
  {
  }

  lemma TurnContinues(cfg: TxConfig, st: State, step: Step, st': State, c: nat)
    requires Base(cfg, st) && Enabled(cfg, st, step) && Ordinary(step, c) && c < cfg.maxConns
    requires step.Connect? || step.Turn? || step.AckOnly? || step.End?
    requires st' == Next(cfg, st, step)
    ensures Continues(st.tx, st'.tx, c)
  {
  }

  lemma DropContinues(cfg: TxConfig, tx: Tx, d: nat, f: nat, kind: Kind, c: nat)
    requires Building(cfg, tx) && At(tx.boxes, Ring(d, f, kind)) != [] && c < cfg.maxConns
    ensures Continues(tx, HeadDropped(cfg, tx, d, f, kind), c)
  {
  }

  // ----- flushing --------------------------------------------------------------------------------

  /** Where the packets that carried a message of the connection come from: those before, and the packet it is sent
      in. */
  ghost predicate CarriedBySent(tx: Tx, tx': Tx, k: nat, v: nat)
    requires v < |tx.msgs| == |tx.place| == |tx'.msgs|
  {
    tx'.msgs[v].carriedBy == tx.msgs[v].carriedBy
    || (tx.place[v].Packed? && tx.place[v].b < k && tx.place[v].b < |tx.batch| && IsReliable(tx.msgs[v].rel)
        && tx'.msgs[v].carriedBy == tx.msgs[v].carriedBy + {tx.batch[tx.place[v].b].number})
  }

  lemma FlushFaithful(cfg: TxConfig, tx: Tx, k: nat, now: uint64, c: nat)
    requires Loose(cfg, tx, 0) && k <= |tx.batch| && c < cfg.maxConns
    ensures Faithful(tx, BatchFlushed(cfg, tx, k, now), c)
    ensures BatchFlushed(cfg, tx, k, now).conns[c].newest == tx.conns[c].newest
  {
    var tx1 := FirstPacketsSent(cfg, tx, k, now);
    var tx2 := PacketsPutBack(cfg, k, tx1, |tx.batch|);
    FlushedOwners(cfg, tx, k, now);
    ActiveSameSending(cfg, tx, k, now, tx1);
  }

  lemma FlushCarriers(cfg: TxConfig, tx: Tx, k: nat, now: uint64, v: nat)
    requires Loose(cfg, tx, 0) && k <= |tx.batch| && v < |tx.msgs| && BatchFlushed(cfg, tx, k, now).place[v] != Free
    ensures CarriedBySent(tx, BatchFlushed(cfg, tx, k, now), k, v)
  {
    var tx1 := FirstPacketsSent(cfg, tx, k, now);
    var tx2 := PacketsPutBack(cfg, k, tx1, |tx.batch|);
    assert SlotSentBelow(tx, tx1, k, v);
  }
}
