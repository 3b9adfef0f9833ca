/** Where the time of a record comes from: in every run it is the time of the flush that sent the packet. */
module PacketTimes {
  import opened MachineWords
  import opened MessagePool
  import opened Receiver
  import opened Sender
  import opened SenderOps
  import opened SenderAcks
  import opened SenderFlush
  import opened SenderBatch
  import opened SenderSend
  import opened SenderSteps
  import opened SenderRuns
  import opened SenderTheorems

  // ----- a flush ---------------------------------------------------------------------------------

  function RecordOf(o: OutInfo, now: uint64): SentInfo { SentInfo(true, o.number, o.unwrapped, now) }

  lemma PacketRecordIs(cfg: TxConfig, tx: Tx, b: nat, now: uint64)
    requires Loose(cfg, tx, b) && b < |tx.batch|
    ensures var tx' := PacketSent(cfg, tx, b, now);
      if HasReliable(tx, At(tx.boxes, InBatch(b))) then
        && tx.batch[b].conn < cfg.maxConns
        && tx'.sent == tx.sent[tx.batch[b].conn := tx.sent[tx.batch[b].conn][tx.batch[b].number % cfg.slots :=
                                                   RecordOf(tx.batch[b], now)]]
      else tx'.sent == tx.sent
  {
    if HasReliable(tx, At(tx.boxes, InBatch(b))) {
      RecordSetLoose(cfg, tx, b, now);
      assert PacketSent(cfg, tx, b, now) == PacketRecorded(cfg, tx, b, now);
    } else {
      assert PacketSent(cfg, tx, b, now) == PacketGone(cfg, tx, b);
    }
  }

  /** Where a record in use after a flush comes from. */
  ghost predicate FromFlush(tx: Tx, k: nat, now: uint64, c: nat, si: SentInfo) {
    exists b: nat :: b < k && b < |tx.batch| && tx.batch[b].conn == c && si == RecordOf(tx.batch[b], now)
  }

  /** Record i of connection c after one more packet. */
  ghost predicate OneStep(tx1: Tx, tx2: Tx, b: nat, now: uint64, c: nat, i: nat) {
    && c < |tx1.sent| && i < |tx1.sent[c]| && c < |tx2.sent| && i < |tx2.sent[c]| && b < |tx1.batch|
    && (tx2.sent[c][i] == tx1.sent[c][i]
        || (tx1.batch[b].conn == c && tx2.sent[c][i] == RecordOf(tx1.batch[b], now)))
  }

  lemma PacketStep(cfg: TxConfig, tx: Tx, b: nat, now: uint64, c: nat, i: nat, tx': Tx)
    requires Loose(cfg, tx, b) && b < |tx.batch| && c < cfg.maxConns && i < cfg.slots
    requires tx' == PacketSent(cfg, tx, b, now)
    ensures OneStep(tx, tx', b, now, c, i)
  {
    PacketRecordIs(cfg, tx, b, now);
  }

  ghost predicate KeptOrFrom(tx: Tx, tx': Tx, k: nat, now: uint64, c: nat, i: nat) {
    && c < |tx.sent| && i < |tx.sent[c]| && c < |tx'.sent| && i < |tx'.sent[c]|
    && (tx'.sent[c][i] == tx.sent[c][i] || FromFlush(tx, k, now, c, tx'.sent[c][i]))
  }

  lemma FromMore(tx: Tx, tx1: Tx, tx2: Tx, b: nat, k: nat, now: uint64, c: nat, i: nat)
    requires k == b + 1 && tx1.batch == tx.batch && KeptOrFrom(tx, tx1, b, now, c, i) && OneStep(tx1, tx2, b, now, c, i)
    ensures KeptOrFrom(tx, tx2, k, now, c, i)
  {
  }

  lemma {:induction false} SendingRecords(cfg: TxConfig, tx: Tx, k: nat, now: uint64, c: nat, i: nat, tx': Tx)
    requires Loose(cfg, tx, 0) && k <= |tx.batch| && c < cfg.maxConns && i < cfg.slots
    requires tx' == FirstPacketsSent(cfg, tx, k, now)
    ensures KeptOrFrom(tx, tx', k, now, c, i)
    decreases k
  {
    if k > 0 {
      var b: nat := k - 1;
      var tx1 := FirstPacketsSent(cfg, tx, b, now);
      SendingRecords(cfg, tx, b, now, c, i, tx1);
      SentUnfold(cfg, tx, b, k, now);
      PacketStep(cfg, tx1, b, now, c, i, tx');
      FromMore(tx, tx1, tx', b, k, now, c, i);
    }
  }

  /** A packet the socket took has a record with the time of the flush, if any of its messages is reliable. */
  lemma {:induction false} SendingRecorded(cfg: TxConfig, tx: Tx, k: nat, now: uint64, b: nat, tx': Tx)
    requires Loose(cfg, tx, 0) && b < k <= |tx.batch| && tx' == FirstPacketsSent(cfg, tx, k, now)
    requires HasReliable(tx, At(tx.boxes, InBatch(b)))
    ensures RecordStands(cfg, tx, tx', b, now)
    decreases k
  {
    var l: nat := k - 1;
    var tx1 := FirstPacketsSent(cfg, tx, l, now);
    SentUnfold(cfg, tx, l, k, now);
    if b == l {
      NewRecordStands(cfg, tx, tx1, b, now, tx');
    } else {
      SendingRecorded(cfg, tx, l, now, b, tx1);
      RecordStillStands(cfg, tx, tx1, l, now, b, tx');
    }
  }

  /** Packet b has its record. */
  ghost predicate RecordStands(cfg: TxConfig, tx: Tx, tx': Tx, b: nat, now: uint64) {
    && TxShape(cfg, tx') && 0 < cfg.slots && b < |tx.batch| && tx.batch[b].conn < cfg.maxConns
    && tx'.sent[tx.batch[b].conn][tx.batch[b].number % cfg.slots] == RecordOf(tx.batch[b], now)
  }

  lemma NewRecordStands(cfg: TxConfig, tx: Tx, tx1: Tx, b: nat, now: uint64, tx2: Tx)
    requires Core(cfg, tx) && Loose(cfg, tx1, b) && FirstSent(tx, tx1, b) && b < |tx.batch|
    requires tx2 == PacketSent(cfg, tx1, b, now) && HasReliable(tx, At(tx.boxes, InBatch(b)))
    ensures RecordStands(cfg, tx, tx2, b, now)
  {
    BatchBoxPacked(cfg, tx, b);
    StillHasReliable(tx, tx1, b);
    PacketRecordIs(cfg, tx1, b, now);
  }

  lemma RecordStillStands(cfg: TxConfig, tx: Tx, tx1: Tx, l: nat, now: uint64, b: nat, tx2: Tx)
    requires Loose(cfg, tx1, l) && l < |tx1.batch| && tx2 == PacketSent(cfg, tx1, l, now)
    requires RecordStands(cfg, tx, tx1, b, now)
    ensures RecordStands(cfg, tx, tx2, b, now)
  {
    PacketKeepsRecord(cfg, tx1, l, now, tx.batch[b].conn, tx.batch[b].number % cfg.slots);
  }

  lemma StillHasReliable(tx: Tx, tx1: Tx, b: nat)
    requires FirstSent(tx, tx1, b) && HasReliable(tx, At(tx.boxes, InBatch(b)))
    requires forall v :: v in At(tx.boxes, InBatch(b)) ==> v < |tx.msgs| && tx.place[v].Packed? && tx.place[v].b == b
    ensures HasReliable(tx1, At(tx1.boxes, InBatch(b)))
  {
    var list := At(tx.boxes, InBatch(b));
    var i :| 0 <= i < |list| && list[i] < |tx.msgs| && IsReliable(tx.msgs[list[i]].rel);
    assert SlotSentBelow(tx, tx1, b, list[i]);
  }

  /** After a flush, a record in use is the one there was, or that of a packet the socket took, with the time of the
      flush; and each packet the socket took with a reliable message has one. */
  lemma FlushRecords(cfg: TxConfig, tx: Tx, k: nat, now: uint64, tx': Tx)
    requires Loose(cfg, tx, 0) && k <= |tx.batch| && tx' == BatchFlushed(cfg, tx, k, now)
    ensures forall c, i :: 0 <= c < cfg.maxConns && 0 <= i < cfg.slots ==> KeptOrFrom(tx, tx', k, now, c, i)
    ensures forall b: nat :: b < k && HasReliable(tx, At(tx.boxes, InBatch(b))) ==> RecordStands(cfg, tx, tx', b, now)
  {
    var tx1 := FirstPacketsSent(cfg, tx, k, now);
    var tx2 := PacketsPutBack(cfg, k, tx1, |tx.batch|);
    assert tx'.sent == tx2.sent == tx1.sent;
    forall c, i | 0 <= c < cfg.maxConns && 0 <= i < cfg.slots
      ensures KeptOrFrom(tx, tx', k, now, c, i)
    {
      SendingRecords(cfg, tx, k, now, c, i, tx1);
    }
    forall b: nat | b < k && HasReliable(tx, At(tx.boxes, InBatch(b)))
      ensures RecordStands(cfg, tx, tx', b, now)
    {
      SendingRecorded(cfg, tx, k, now, b, tx1);
    }
  }

  // ----- the other steps -------------------------------------------------------------------------

  /** No record is made: each is as it was, or ended. */
  ghost predicate RecordsOnlyEnd(cfg: TxConfig, tx: Tx, tx': Tx)
    requires TxShape(cfg, tx) && TxShape(cfg, tx')
  {
    forall c, i :: 0 <= c < cfg.maxConns && 0 <= i < cfg.slots ==>
      tx'.sent[c][i] == tx.sent[c][i] || !tx'.sent[c][i].used
  }

  lemma DoneEnds(cfg: TxConfig, tx: Tx, c: nat, cause: Cause)
    requires Loose(cfg, tx, 0) && c < cfg.maxConns && NothingOut(tx, c)
    ensures RecordsOnlyEnd(cfg, tx, TrackedDone(cfg, tx, c, cause))
  {
    var r := TrackedLoop(cfg, 0, tx, c, cause, tx.conns[c].tracked);
    assert PacketsKept(cfg, tx, r.0, c);
  }

  lemma AckEnds(cfg: TxConfig, tx: Tx, c: nat, ack: uint32, bits: Word64)
    requires Loose(cfg, tx, 0) && c < cfg.maxConns && NothingOut(tx, c)
    ensures RecordsOnlyEnd(cfg, tx, AckReceived(cfg, tx, c, ack, bits))
  {
    if ack != 0 {
      var tx1 := TrackedDone(cfg, tx, c, Acked(ack, bits));
      DoneEnds(cfg, tx, c, Acked(ack, bits));
      assert PacketsKept(cfg, tx1, LateAcks(cfg, tx1, c, ack, bits), c);
    }
  }

  lemma TimerEnds(cfg: TxConfig, tx: Tx, c: nat, now: uint64, rto: nat)
    requires Building(cfg, tx) && c < cfg.maxConns && NothingOut(tx, c)
    ensures RecordsOnlyEnd(cfg, tx, TurnTimedOut(cfg, tx, c, now, rto))
  {
    DoneEnds(cfg, tx, c, Elapsed(now, rto));
  }

  lemma SubmitEnds(cfg: TxConfig, tx: Tx, c: nat, data: Bytes, o: SendOpts, now: uint64)
    requires Idle(cfg, tx) && c < cfg.maxConns
    ensures Send(cfg, tx, c, data, o, now).0.sent == tx.sent
  {
    var r := Send(cfg, tx, c, data, o, now);
    if r.1 == Accepted {
      var vs :| SubmitEffect(cfg, tx, r.0, c, data, o, now, vs);
    }
  }

  lemma PickEnds(cfg: TxConfig, tx: Tx, c: nat, f: nat, kind: Kind)
    requires Building(cfg, tx) && At(tx.boxes, Ring(c, f, kind)) != []
    ensures PickedAndPacked(cfg, tx, c, f, kind).0.sent == tx.sent
  {
    PickedSlots(cfg, tx, c, f, kind);
  }

  lemma AbortEnds(cfg: TxConfig, tx: Tx, c: nat)
    requires Loose(cfg, tx, 0) && c < cfg.maxConns
    ensures RecordsOnlyEnd(cfg, tx, Aborted(cfg, tx, c))
  {
    var tx' := Aborted(cfg, tx, c);
    forall d, i | 0 <= d < cfg.maxConns && 0 <= i < cfg.slots
      ensures tx'.sent[d][i] == tx.sent[d][i] || !tx'.sent[d][i].used
    {
      if d != c { assert tx'.sent[d] == tx.sent[d]; }
    }
  }

  lemma DropEnds(cfg: TxConfig, tx: Tx, c: nat, f: nat, kind: Kind)
    requires Building(cfg, tx) && At(tx.boxes, Ring(c, f, kind)) != []
    ensures HeadDropped(cfg, tx, c, f, kind).sent == tx.sent
  {
    assert Only(tx, HeadDropped(cfg, tx, c, f, kind), At(tx.boxes, Ring(c, f, kind))[0]);
  }

  /** The record was made by this flush. */
  ghost predicate SentIn(st: State, step: Step, c: nat, si: SentInfo) {
    && step.Flush? && si.sentNs == step.now
    && exists b: nat :: b < step.taken && b < |st.tx.batch| && st.tx.batch[b].conn == c
                        && si.number == st.tx.batch[b].number && si.unwrapped == st.tx.batch[b].unwrapped
  }

  lemma FlushSentIn(cfg: TxConfig, st: State, step: Step, tx': Tx, c: nat, i: nat)
    requires Loose(cfg, st.tx, 0) && step.Flush? && step.taken <= |st.tx.batch|
    requires tx' == BatchFlushed(cfg, st.tx, step.taken, step.now)
    requires TxShape(cfg, tx') && c < cfg.maxConns && i < cfg.slots
    ensures tx'.sent[c][i] == st.tx.sent[c][i] || SentIn(st, step, c, tx'.sent[c][i])
  {
    FlushRecords(cfg, st.tx, step.taken, step.now, tx');
    assert KeptOrFrom(st.tx, tx', step.taken, step.now, c, i);
  }

  /** No other step makes a record: neither a call of the application, */
  lemma CallRecords(cfg: TxConfig, st: State, step: Step, st': State)
    requires Base(cfg, st) && Enabled(cfg, st, step) && st' == Next(cfg, st, step) && TxShape(cfg, st'.tx)
    requires step.Submit? || step.Ack? || step.Abort? || step.Connect?
    ensures RecordsOnlyEnd(cfg, st.tx, st'.tx)
  {
    if step.Submit? {
      IdleBetween(cfg, st);
      SubmitEnds(cfg, st.tx, step.conn, step.data, step.opts, step.now);
    } else if step.Ack? {
      NothingOutYet(cfg, st, step.conn);
      AckEnds(cfg, st.tx, step.conn, step.ack, step.bits);
    } else if step.Abort? {
      AbortEnds(cfg, st.tx, step.conn);
    }
  }

  /** nor the beginning of a connection's turn, */
  lemma TurnRecords(cfg: TxConfig, st: State, step: Step, st': State)
    requires Base(cfg, st) && Enabled(cfg, st, step) && st' == Next(cfg, st, step) && TxShape(cfg, st'.tx)
    requires step.Turn? || step.TurnRetransmits? || step.TurnAborts?
    ensures RecordsOnlyEnd(cfg, st.tx, st'.tx)
  {
    if step.TurnRetransmits? {
      NothingOutYet(cfg, st, step.conn);
      TimerEnds(cfg, st.tx, step.conn, step.now, step.rto);
    } else if step.TurnAborts? {
      AbortEnds(cfg, st.tx, step.conn);
    }
  }

  /** nor what fills the batch. */
  lemma FillingRecords(cfg: TxConfig, st: State, step: Step, st': State)
    requires Base(cfg, st) && Enabled(cfg, st, step) && st' == Next(cfg, st, step) && TxShape(cfg, st'.tx)
    requires step.DropHead? || step.Pick? || step.AckOnly? || step.End?
    ensures RecordsOnlyEnd(cfg, st.tx, st'.tx)
  {
    if step.DropHead? {
      DropEnds(cfg, st.tx, st.mode.conn, step.flow, step.kind);
    } else if step.Pick? {
      PickEnds(cfg, st.tx, st.mode.conn, step.flow, step.kind);
    }
  }

  lemma StepRecords(cfg: TxConfig, st: State, step: Step, st': State, c: nat, i: nat)
    requires Base(cfg, st) && Enabled(cfg, st, step) && st' == Next(cfg, st, step)
    requires TxShape(cfg, st'.tx) && c < cfg.maxConns && i < cfg.slots && st'.tx.sent[c][i].used
    ensures st'.tx.sent[c][i] == st.tx.sent[c][i] || SentIn(st, step, c, st'.tx.sent[c][i])
  {
    if step.Flush? {
      FlushSentIn(cfg, st, step, st'.tx, c, i);
    } else if step.Submit? || step.Ack? || step.Abort? || step.Connect? {
      CallRecords(cfg, st, step, st');
    } else if step.Turn? || step.TurnRetransmits? || step.TurnAborts? {
      TurnRecords(cfg, st, step, st');
    } else {
      FillingRecords(cfg, st, step, st');
    }
  }

  // ----- runs ------------------------------------------------------------------------------------

  /** At some step of the run the record was made, by a flush at its time. */
  ghost predicate MadeInRun(cfg: TxConfig, st: State, steps: seq<Step>, c: nat, si: SentInfo)
    requires Safe(cfg, st)
  {
    exists k: nat :: k < |steps| && MadeAt(cfg, st, steps, c, si, k)
  }

  ghost predicate MadeAt(cfg: TxConfig, st: State, steps: seq<Step>, c: nat, si: SentInfo, k: nat)
    requires Safe(cfg, st) && k < |steps|
  {
    RunFrom(cfg, st, steps[..k]).Some? && SentIn(RunFrom(cfg, st, steps[..k]).value, steps[k], c, si)
  }

  lemma {:induction false} RecordOrigin(cfg: TxConfig, st: State, steps: seq<Step>, st': State, c: nat, i: nat)
    requires Safe(cfg, st) && RunFrom(cfg, st, steps) == Some(st')
    requires c < cfg.maxConns && i < cfg.slots && st'.tx.sent[c][i].used
    ensures st'.tx.sent[c][i] == st.tx.sent[c][i] || MadeInRun(cfg, st, steps, c, st'.tx.sent[c][i])
    decreases |steps|
  {
    if steps != [] {
      StepSafe(cfg, st, steps[0]);
      var st1, si := Next(cfg, st, steps[0]), st'.tx.sent[c][i];
      RecordOrigin(cfg, st1, steps[1..], st', c, i);
      if si == st1.tx.sent[c][i] {
        StepRecords(cfg, st, steps[0], st1, c, i);
        if si != st.tx.sent[c][i] { FirstMade(cfg, st, steps, c, si); }
      } else {
        LaterMade(cfg, st, steps, st1, c, si);
      }
    }
  }

  lemma FirstMade(cfg: TxConfig, st: State, steps: seq<Step>, c: nat, si: SentInfo)
    requires Safe(cfg, st) && steps != [] && SentIn(st, steps[0], c, si)
    ensures MadeInRun(cfg, st, steps, c, si)
  {
    assert RunFrom(cfg, st, steps[..0]) == Some(st);
    assert MadeAt(cfg, st, steps, c, si, 0);
  }

  lemma RunTail(cfg: TxConfig, st: State, steps: seq<Step>, st1: State, k: nat)
    requires Safe(cfg, st) && steps != [] && Enabled(cfg, st, steps[0]) && Safe(cfg, st1)
    requires st1 == Next(cfg, st, steps[0]) && k < |steps|
    ensures RunFrom(cfg, st, steps[..k + 1]) == RunFrom(cfg, st1, steps[1..][..k])
  {
    assert steps[..k + 1][1..] == steps[1..][..k] && steps[..k + 1][0] == steps[0];
  }

  lemma LaterMade(cfg: TxConfig, st: State, steps: seq<Step>, st1: State, c: nat, si: SentInfo)
    requires Safe(cfg, st) && steps != [] && Enabled(cfg, st, steps[0]) && Safe(cfg, st1)
    requires st1 == Next(cfg, st, steps[0]) && MadeInRun(cfg, st1, steps[1..], c, si)
    ensures MadeInRun(cfg, st, steps, c, si)
  {
    var k: nat :| k < |steps[1..]| && MadeAt(cfg, st1, steps[1..], c, si, k);
    RunTail(cfg, st, steps, st1, k);
    assert steps[k + 1] == steps[1..][k];
    assert MadeAt(cfg, st, steps, c, si, k + 1);
  }

  /** In every run of a new endpoint, the time of a record in use is that of the flush that sent its packet. */
  lemma {:induction false} RecordTimes(cfg: TxConfig, steps: seq<Step>, st: State, c: nat, i: nat)
    requires ValidTx(cfg) && Safe(cfg, Initial(cfg)) && RunFrom(cfg, Initial(cfg), steps) == Some(st)
    requires c < cfg.maxConns && i < cfg.slots && st.tx.sent[c][i].used
    ensures MadeInRun(cfg, Initial(cfg), steps, c, st.tx.sent[c][i])
  {
    RecordOrigin(cfg, Initial(cfg), steps, st, c, i);
  }
}
