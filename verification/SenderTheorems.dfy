/** What holds of the sending side in every state of every run. */
module SenderTheorems {
  import opened MachineWords
  import opened Receiver
  import opened MessagePool
  import opened PoolTallies
  import opened Sender
  import opened SenderOps
  import opened SenderAcks
  import opened SenderFlush
  import opened SenderBatch
  import opened SenderSend
  import opened SenderSteps
  import opened SenderWindow
  import opened SenderRuns
  import opened SenderRunsGated
  import SackWindow
  import AckTracker

  // ----- every step keeps the invariant ----------------------------------------------------------

  lemma NonePendingYet(cfg: TxConfig, st: State, c: nat)
    requires Base(cfg, st) && TurnComes(st, c)
    ensures NonePending(st.tx, c)
  {
    forall b: nat
      ensures !Pending(st.tx, c, 0, b)
    {
    }
  }

  lemma PickStep(cfg: TxConfig, st: State, f: nat, kind: Kind)
    requires Safe(cfg, st) && Enabled(cfg, st, Pick(f, kind))
    ensures Safe(cfg, Next(cfg, st, Pick(f, kind)))
  {
    var c := st.mode.conn;
    PickTx(cfg, st.tx, c, f, kind);
    if Gated(cfg) { PickWindows(cfg, st.tx, c, f, kind); }
    var (tx', ok) := PickedAndPacked(cfg, st.tx, c, f, kind);
    AfterPickSafe(cfg, tx', st, kind, ok);
  }

  lemma AfterPickSafe(cfg: TxConfig, tx: Tx, st: State, kind: Kind, ok: bool)
    requires st.mode.Filling? && st.mode.conn < cfg.maxConns
    requires Building(cfg, tx) && NoneInHand(tx) && InactiveClean(cfg, tx) && BatchUpTo(tx, st.mode.conn)
    requires Gated(cfg) ==> AllWindows(cfg, tx) && FlushWin(cfg, tx, st.mode.conn)
    ensures Safe(cfg, AfterPick(cfg, tx, st, kind, ok))
  {
    var c := st.mode.conn;
    ConnEdited(cfg, 0, tx, c, tx.conns[c].(blocked := true));
    CleanKept(cfg, tx, Blocked(tx, c));
    if Gated(cfg) { BlockedWindows(cfg, tx, c); }
  }

  lemma SubmitStep(cfg: TxConfig, st: State, c: nat, data: Bytes, o: SendOpts, now: uint64)
    requires Safe(cfg, st) && Enabled(cfg, st, Submit(c, data, o, now))
    ensures Safe(cfg, Next(cfg, st, Submit(c, data, o, now)))
  {
    SubmitBase(cfg, st, c, data, o, now);
    IdleBetween(cfg, st);
    if Gated(cfg) { SubmitWindows(cfg, st.tx, c, data, o, now); }
  }

  lemma AckStep(cfg: TxConfig, st: State, c: nat, ack: uint32, bits: Word64)
    requires Safe(cfg, st) && Enabled(cfg, st, Ack(c, ack, bits))
    ensures Safe(cfg, Next(cfg, st, Ack(c, ack, bits)))
  {
    AckBase(cfg, st, c, ack, bits);
    NothingOutYet(cfg, st, c);
    if Gated(cfg) { AckWindows(cfg, st.tx, c, ack, bits); }
  }

  lemma AbortStep(cfg: TxConfig, st: State, c: nat, step: Step)
    requires Safe(cfg, st) && Enabled(cfg, st, step) && (step == Abort(c) || step == TurnAborts(c))
    ensures Safe(cfg, Next(cfg, st, step))
  {
    AbortedBase(cfg, st.tx, c);
    NothingOutYet(cfg, st, c);
    NonePendingYet(cfg, st, c);
    if Gated(cfg) { AbortWindows(cfg, st.tx, c); }
  }

  lemma ConnectStep(cfg: TxConfig, st: State, c: nat)
    requires Safe(cfg, st) && Enabled(cfg, st, Connect(c))
    ensures Safe(cfg, Next(cfg, st, Connect(c)))
  {
    ConnectBase(cfg, st, c);
    if Gated(cfg) { ConnectWindows(cfg, st.tx, c); }
  }

  lemma TurnStep(cfg: TxConfig, st: State, c: nat)
    requires Safe(cfg, st) && Enabled(cfg, st, Turn(c))
    ensures Safe(cfg, Next(cfg, st, Turn(c)))
  {
    TurnBase(cfg, st, c);
    NonePendingYet(cfg, st, c);
    if Gated(cfg) { TurnWindows(cfg, st.tx, c); }
  }

  lemma RetransmitsStep(cfg: TxConfig, st: State, c: nat, now: uint64, rto: nat)
    requires Safe(cfg, st) && Enabled(cfg, st, TurnRetransmits(c, now, rto))
    ensures Safe(cfg, Next(cfg, st, TurnRetransmits(c, now, rto)))
  {
    RetransmitsBase(cfg, st, c, now, rto);
    NothingOutYet(cfg, st, c);
    NonePendingYet(cfg, st, c);
    if Gated(cfg) { RetransmitWindows(cfg, st.tx, c, now, rto); }
  }

  lemma DropHeadStep(cfg: TxConfig, st: State, f: nat, kind: Kind, now: uint64)
    requires Safe(cfg, st) && Enabled(cfg, st, DropHead(f, kind, now))
    ensures Safe(cfg, Next(cfg, st, DropHead(f, kind, now)))
  {
    DropHeadBase(cfg, st, f, kind, now);
    if Gated(cfg) { DropHeadWindows(cfg, st.tx, st.mode.conn, f, kind); }
  }

  lemma AckOnlyStep(cfg: TxConfig, st: State)
    requires Safe(cfg, st) && Enabled(cfg, st, AckOnly)
    ensures Safe(cfg, Next(cfg, st, AckOnly))
  {
    CleanKept(cfg, st.tx, AckOnlyAppended(cfg, st.tx, st.mode.conn));
    if Gated(cfg) { AckOnlyWindows(cfg, st.tx, st.mode.conn, st.mode.conn); }
  }

  lemma FlushStep(cfg: TxConfig, st: State, k: nat, now: uint64)
    requires Safe(cfg, st) && Enabled(cfg, st, Flush(k, now))
    ensures Safe(cfg, Next(cfg, st, Flush(k, now)))
  {
    FlushBase(cfg, st, k, now);
    if Gated(cfg) { FlushWindows(cfg, st.tx, k, now, st.mode.conn); }
  }

  lemma EndStep(cfg: TxConfig, st: State)
    requires Safe(cfg, st) && Enabled(cfg, st, End)
    ensures Safe(cfg, Next(cfg, st, End))
  {
  }

  lemma StepSafe(cfg: TxConfig, st: State, step: Step)
    requires Safe(cfg, st) && Enabled(cfg, st, step)
    ensures Safe(cfg, Next(cfg, st, step))
  {
    match step
    case Submit(c, data, o, now) => SubmitStep(cfg, st, c, data, o, now);
    case Ack(c, ack, bits) => AckStep(cfg, st, c, ack, bits);
    case Abort(c) => AbortStep(cfg, st, c, step);
    case Connect(c) => ConnectStep(cfg, st, c);
    case Turn(c) => TurnStep(cfg, st, c);
    case TurnRetransmits(c, now, rto) => RetransmitsStep(cfg, st, c, now, rto);
    case TurnAborts(c) => AbortStep(cfg, st, c, step);
    case DropHead(f, kind, now) => DropHeadStep(cfg, st, f, kind, now);
    case Pick(f, kind) => PickStep(cfg, st, f, kind);
    case AckOnly => AckOnlyStep(cfg, st);
    case Flush(k, now) => FlushStep(cfg, st, k, now);
    case End => EndStep(cfg, st);
  }

  // ----- runs ------------------------------------------------------------------------------------

  /** A new endpoint: no connections, every slot on the free list. */
  ghost function Initial(cfg: TxConfig): State {
    var conn := FreshConn(cfg).(active := false);
    State(Tx(seq(cfg.maxMessages, _ => NoMsg), seq(cfg.maxMessages, _ => Free),
             map[FreeList := seq(cfg.maxMessages, i requires 0 <= i < cfg.maxMessages => i)],
             seq(cfg.maxConns, _ => seq(cfg.slots, _ => NoRecord)), seq(cfg.maxConns, _ => conn), []), Between)
  }

  lemma {:induction false} InitialCounters(cfg: TxConfig)
    requires ValidTx(cfg)
    ensures var tx := Initial(cfg).tx; CountersOk(tx.conns, tx.msgs, tx.place)
    ensures var tx := Initial(cfg).tx; forall t: Tally :: Total(t, tx.msgs, tx.place) == 0
  {
    var tx := Initial(cfg).tx;
    forall t: Tally
      ensures Total(t, tx.msgs, tx.place) == 0
    {
      forall v | 0 <= v < |tx.msgs|
        ensures Weight(t, tx.msgs[v], tx.place[v]) == 0
      {
      }
      TotalZero(t, tx.msgs, tx.place);
    }
  }

  lemma InitialCore(cfg: TxConfig)
    requires ValidTx(cfg)
    ensures Core(cfg, Initial(cfg).tx)
  {
    InitialCounters(cfg);
    var tx := Initial(cfg).tx;
    forall v: nat | v < |tx.msgs|
      ensures v in At(tx.boxes, FreeList)
    {
      assert At(tx.boxes, FreeList)[v] == v;
    }
  }

  lemma InitialLoose(cfg: TxConfig)
    requires ValidTx(cfg)
    ensures Loose(cfg, Initial(cfg).tx, 0)
  {
    InitialCore(cfg);
    InitialCounters(cfg);
  }

  lemma InitialBase(cfg: TxConfig)
    requires ValidTx(cfg)
    ensures Base(cfg, Initial(cfg))
  {
    InitialLoose(cfg);
  }

  lemma InitialWindows(cfg: TxConfig)
    requires ValidTx(cfg)
    ensures TxShape(cfg, Initial(cfg).tx)
    ensures forall d :: 0 <= d < cfg.maxConns ==> Win(cfg, Initial(cfg).tx, d, 0)
  {
  }

  lemma InitialSafe(cfg: TxConfig)
    requires ValidTx(cfg)
    ensures Safe(cfg, Initial(cfg))
  {
    InitialBase(cfg);
    InitialWindows(cfg);
    InitialCapacity(cfg);
  }

  lemma InitialCapacity(cfg: TxConfig)
    requires ValidTx(cfg)
    ensures |Initial(cfg).tx.place| == |Initial(cfg).tx.msgs| && CapOk(cfg, Initial(cfg).tx)
    ensures PendingReliable(Initial(cfg).tx)
  {
    InitialCounters(cfg);
  }

  /** The state after the given steps, if each of them could be taken. */
  ghost function RunFrom(cfg: TxConfig, st: State, steps: seq<Step>): (r: Option<State>)
    requires Safe(cfg, st)
    ensures r.Some? ==> Safe(cfg, r.value)
    decreases |steps|
  {
    if steps == [] then Some(st)
    else if Enabled(cfg, st, steps[0]) then
      StepSafe(cfg, st, steps[0]);
      RunFrom(cfg, Next(cfg, st, steps[0]), steps[1..])
    else None
  }

  /** The state a run of a new endpoint ends in. */
  ghost predicate Reachable(cfg: TxConfig, st: State) {
    ValidTx(cfg) && (InitialSafe(cfg); exists steps :: RunFrom(cfg, Initial(cfg), steps) == Some(st))
  }

  lemma ReachableSafe(cfg: TxConfig, st: State)
    requires Reachable(cfg, st)
    ensures Safe(cfg, st)
  {
    InitialSafe(cfg);
  }

  // ----- one place per slot ----------------------------------------------------------------------

  /** Slot v is at position i of list k: the free list, a ring, a record in flight, or a batch packet. */
  ghost predicate InPlace(tx: Tx, v: nat, k: Key, i: nat) { i < |At(tx.boxes, k)| && At(tx.boxes, k)[i] == v }

  /** In every reachable state every message slot is at exactly one position of exactly one list. */
  lemma EverySlotInOnePlace(cfg: TxConfig, st: State, v: nat)
    requires Reachable(cfg, st) && v < cfg.maxMessages
    ensures exists k: Key, i: nat :: InPlace(st.tx, v, k, i)
    ensures forall k: Key, i: nat, j: Key, n: nat :: InPlace(st.tx, v, k, i) && InPlace(st.tx, v, j, n) ==>
      k == j && i == n
  {
    ReachableSafe(cfg, st);
    var h := Home(cfg.slots, st.tx.msgs[v], st.tx.place[v]);
    var list := At(st.tx.boxes, h.value);
    assert v in list;
    var n :| 0 <= n < |list| && list[n] == v;
    assert InPlace(st.tx, v, h.value, n);
    forall k: Key, i: nat | InPlace(st.tx, v, k, i)
      ensures k == h.value && i == n
    {
      InBoxMeans(cfg, st.tx, k, v);
    }
  }

  /** A reference of an in-flight packet is a reliable message whose carrier is the packet's number. */
  lemma ReferencesMatch(cfg: TxConfig, st: State, c: nat, i: nat, r: nat)
    requires Reachable(cfg, st) && c < cfg.maxConns && i < cfg.slots && r < |At(st.tx.boxes, InFlight(c, i))|
    ensures st.tx.sent[c][i].used && |At(st.tx.boxes, InFlight(c, i))| <= MAX_REFS
    ensures var v := At(st.tx.boxes, InFlight(c, i))[r];
      && v < |st.tx.msgs| && st.tx.msgs[v].owner == c && IsReliable(st.tx.msgs[v].rel)
      && st.tx.msgs[v].inflightRefs == 1 && st.tx.msgs[v].carrier == st.tx.sent[c][i].number
  {
    ReachableSafe(cfg, st);
    var v := At(st.tx.boxes, InFlight(c, i))[r];
    InBoxMeans(cfg, st.tx, InFlight(c, i), v);
  }

  // ----- counters --------------------------------------------------------------------------------

  /** In every reachable state the byte counters are the sums of the lengths they stand for, and the late
      count is zero exactly if no message has a lost packet. */
  lemma {:induction false} CountersAreSums(cfg: TxConfig, st: State, c: nat)
    requires Reachable(cfg, st) && c < cfg.maxConns
    ensures var tx := st.tx;
      && tx.conns[c].sendQueueBytes == Total(UnsentBytes(c), tx.msgs, tx.place)
      && tx.conns[c].retransmitBytes == Total(RetryBytes(c), tx.msgs, tx.place)
      && tx.conns[c].inflightBytes == Total(FlightBytes(c), tx.msgs, tx.place)
      && tx.conns[c].lateAckCount == Total(LateMsgs(c), tx.msgs, tx.place)
      && (forall f :: 0 <= f < cfg.maxFlows ==>
            tx.conns[c].flows[f].queuedBytes == Total(FlowUnsentBytes(c, f), tx.msgs, tx.place))
      && (tx.conns[c].lateAckCount == 0 <==> NoLate(tx, c))
  {
    ReachableSafe(cfg, st);
    var tx := st.tx;
    NoneLate(cfg, 0, tx, c);
    assert Kept(tx.conns, UnsentBytes(c)) && Kept(tx.conns, RetryBytes(c)) && Kept(tx.conns, FlightBytes(c));
    forall f | 0 <= f < cfg.maxFlows
      ensures tx.conns[c].flows[f].queuedBytes == Total(FlowUnsentBytes(c, f), tx.msgs, tx.place)
    {
      assert Kept(tx.conns, FlowUnsentBytes(c, f));
    }
  }

  // ----- the window ------------------------------------------------------------------------------

  /** In the gated configuration all live records and the newest number are in one window of 64. */
  lemma LiveWithin64(cfg: TxConfig, st: State, c: nat, i: nat)
    requires Reachable(cfg, st) && Gated(cfg) && c < cfg.maxConns && i < cfg.slots && st.tx.sent[c][i].used
    ensures st.tx.conns[c].newest - SackWindow.ACK_WINDOW < st.tx.sent[c][i].unwrapped <= st.tx.conns[c].newest
    ensures st.tx.sent[c][i].unwrapped in st.tx.conns[c].tracked
  {
    ReachableSafe(cfg, st);
    assert Win(cfg, st.tx, c, 0);
    assert st.tx.sent[c][i].unwrapped in st.tx.conns[c].tracked;
  }

  /** So a packet that has arrived is named by every acknowledgement the receiver can make of the numbers
      issued so far, for as long as the sender keeps its record. */
  lemma ArrivedIsNamed(cfg: TxConfig, st: State, c: nat, i: nat, a: AckTracker.Ack, seen: set<int>, top: int)
    requires Reachable(cfg, st) && Gated(cfg) && c < cfg.maxConns && i < cfg.slots && st.tx.sent[c][i].used
    requires AckTracker.Represents(a, seen, top) && st.tx.sent[c][i].unwrapped in seen && top <= st.tx.conns[c].newest
    ensures AckTracker.Covers(a.maxSeq, a.bits, st.tx.sent[c][i].number)
  {
    LiveWithin64(cfg, st, c, i);
    ReachableSafe(cfg, st);
    SackWindow.ArrivedStaysCovered(a, seen, top, st.tx.conns[c].newest, st.tx.sent[c][i].unwrapped);
  }

  // ----- nothing outstanding is thrown away ------------------------------------------------------

  /** In the gated configuration a flow has at most 1024 messages outstanding, fewer than a ring holds. */
  lemma OutstandingBounded(cfg: TxConfig, st: State, c: nat, f: nat)
    requires Reachable(cfg, st) && Gated(cfg) && c < cfg.maxConns
    ensures OutstandingCount(st.tx, c, f) <= 1024 < cfg.ringCap
    ensures |At(st.tx.boxes, Ring(c, f, Retry))| <= 1024
  {
    ReachableSafe(cfg, st);
    assert Windowed(cfg, st);
    RetryIsOutstanding(cfg, st.tx, c, f);
  }

  lemma RetryIsOutstanding(cfg: TxConfig, tx: Tx, c: nat, f: nat)
    requires Core(cfg, tx)
    ensures |At(tx.boxes, Ring(c, f, Retry))| <= OutstandingCount(tx, c, f)
  {
    var r := Residents(cfg.slots, tx.msgs, tx.place, Ring(c, f, Retry));
    ListSize(At(tx.boxes, Ring(c, f, Retry)), r);
    ResidentsCount(cfg.slots, tx.msgs, tx.place, Outstanding(c, f), r);
  }

  /** With room in the retry rings an operation frees a message only if an acknowledgement names it. */
  lemma RoomMeansCovered(cfg: TxConfig, tx: Tx, tx': Tx, c: nat, ack: uint32, bits: Word64, v: nat)
    requires Resolved(cfg, tx, tx', c, ack, bits) && v < |tx.msgs|
    requires OutstandingCount(tx, c, tx.msgs[v].flow) < cfg.ringCap
    ensures || (tx'.msgs[v] == tx.msgs[v] && tx'.place[v] == tx.place[v])
            || (tx.place[v].Flight? && tx'.place[v] == Queued(Retry) && tx'.msgs[v].payload == tx.msgs[v].payload)
            || (tx.place[v] != Free && tx'.place[v] == Free && Covered(tx.msgs[v], ack, bits))
  {
    assert SlotResolved(cfg, tx, tx', c, ack, bits, v);
  }

  /** A lost packet costs no message: after the retransmission timer every message that was in flight is in
      flight still or waits in the retry ring. */
  lemma LossesAreRetried(cfg: TxConfig, st: State, c: nat, now: uint64, rto: nat, v: nat)
    requires Reachable(cfg, st) && Gated(cfg) && Base(cfg, st) && Enabled(cfg, st, TurnRetransmits(c, now, rto))
    requires v < cfg.maxMessages
    ensures var tx' := Next(cfg, st, TurnRetransmits(c, now, rto)).tx;
      || (tx'.msgs[v] == st.tx.msgs[v] && tx'.place[v] == st.tx.place[v])
      || (st.tx.place[v].Flight? && tx'.place[v] == Queued(Retry) && tx'.msgs[v].payload == st.tx.msgs[v].payload)
  {
    NothingOutYet(cfg, st, c);
    var tx' := TurnTimedOut(cfg, st.tx, c, now, rto);
    OutstandingBounded(cfg, st, c, st.tx.msgs[v].flow);
    RoomMeansCovered(cfg, st.tx, tx', c, 0, ZeroWord(), v);
  }

  /** An acknowledgement frees a message only if it names a packet that carried the message. */
  lemma AcksFreeTheNamed(cfg: TxConfig, st: State, c: nat, ack: uint32, bits: Word64, v: nat)
    requires Reachable(cfg, st) && Gated(cfg) && Base(cfg, st) && Enabled(cfg, st, Ack(c, ack, bits))
    requires v < cfg.maxMessages
    requires st.tx.place[v] != Free && Next(cfg, st, Ack(c, ack, bits)).tx.place[v] == Free
    ensures exists x :: x in st.tx.msgs[v].carriedBy && AckTracker.Covers(ack, bits, x)
  {
    NothingOutYet(cfg, st, c);
    var tx' := AckReceived(cfg, st.tx, c, ack, bits);
    OutstandingBounded(cfg, st, c, st.tx.msgs[v].flow);
    RoomMeansCovered(cfg, st.tx, tx', c, ack, bits, v);
  }

  // ----- records ---------------------------------------------------------------------------------

  /** Sending never overwrites a record in use, in any configuration. */
  lemma RecordsSurviveFlush(cfg: TxConfig, st: State, k: nat, now: uint64, c: nat, i: nat)
    requires Base(cfg, st) && Enabled(cfg, st, Flush(k, now)) && c < cfg.maxConns && i < cfg.slots
    requires st.tx.sent[c][i].used
    ensures Next(cfg, st, Flush(k, now)).tx.sent[c][i] == st.tx.sent[c][i]
  {
    SendingKeepsRecords(cfg, st.tx, k, now, c, i, FirstPacketsSent(cfg, st.tx, k, now));
  }

  lemma {:induction false} SendingKeepsRecords(cfg: TxConfig, tx: Tx, k: nat, now: uint64, c: nat, i: nat, tx': Tx)
    requires Loose(cfg, tx, 0) && k <= |tx.batch| && c < cfg.maxConns && i < cfg.slots && tx.sent[c][i].used
    requires tx' == FirstPacketsSent(cfg, tx, k, now)
    ensures tx'.sent[c][i] == tx.sent[c][i]
    decreases k
  {
    if k > 0 {
      var b: nat := k - 1;
      var tx1 := FirstPacketsSent(cfg, tx, b, now);
      SendingKeepsRecords(cfg, tx, b, now, c, i, tx1);
      SentUnfold(cfg, tx, b, k, now);
      PacketKeepsRecord(cfg, tx1, b, now, c, i);
    }
  }

  lemma PacketKeepsRecord(cfg: TxConfig, tx: Tx, b: nat, now: uint64, c: nat, i: nat)
    requires Loose(cfg, tx, b) && b < |tx.batch| && c < cfg.maxConns && i < cfg.slots && tx.sent[c][i].used
    ensures PacketSent(cfg, tx, b, now).sent[c][i] == tx.sent[c][i]
  {
    if HasReliable(tx, At(tx.boxes, InBatch(b))) {
      OpenedKeepsRecord(cfg, tx, b, now, c, i);
      assert PacketSent(cfg, tx, b, now) == PacketRecorded(cfg, tx, b, now);
    } else {
      assert PacketSent(cfg, tx, b, now) == PacketGone(cfg, tx, b);
    }
  }

  lemma OpenedKeepsRecord(cfg: TxConfig, tx: Tx, b: nat, now: uint64, c: nat, i: nat)
    requires Loose(cfg, tx, b) && b < |tx.batch| && c < cfg.maxConns && i < cfg.slots && tx.sent[c][i].used
    requires HasReliable(tx, At(tx.boxes, InBatch(b)))
    ensures RecordOpened(cfg, tx, b, now).sent[c][i] == tx.sent[c][i]
  {
    RecordSetLoose(cfg, tx, b, now);
  }
}
