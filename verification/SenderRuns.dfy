/** The sending side of an endpoint as a state machine: every call in every order, every choice the flush
    loop makes, every number of packets the socket takes; and what holds in every state of every run. */
module SenderRuns {
  import opened MachineWords
  import opened Receiver
  import opened MessagePool
  import opened Sender
  import opened SenderOps
  import opened SenderAcks
  import opened SenderFlush
  import opened SenderBatch
  import opened SenderSend
  import opened SenderSteps
  import opened SenderWindow
  import opened SenderCapacity

  /** Between calls, or inside a flush at the turn of a connection; `open` until the flush loop breaks off. */
  datatype Mode = Between | Filling(conn: nat, open: bool)

  datatype State = State(tx: Tx, mode: Mode)

  datatype Step =
    | Submit(conn: nat, data: Bytes, opts: SendOpts, now: uint64)
    | Ack(conn: nat, ack: uint32, bits: Word64)
    | Abort(conn: nat)
    | Connect(conn: nat)
    | Turn(conn: nat)
    | TurnRetransmits(conn: nat, now: uint64, rto: nat)
    | TurnAborts(conn: nat)
    | DropHead(flow: nat, kind: Kind, now: uint64)
    | Pick(flow: nat, kind: Kind)
    | AckOnly
    | Flush(taken: nat, now: uint64)
    | End

  // ----- the invariant ---------------------------------------------------------------------------

  ghost predicate NoneInHand(tx: Tx) {
    forall v :: 0 <= v < |tx.place| ==> !tx.place[v].Fresh? && !tx.place[v].Transit?
  }

  ghost predicate InactiveClean(cfg: TxConfig, tx: Tx)
    requires TxShape(cfg, tx)
  {
    forall c :: 0 <= c < cfg.maxConns && !tx.conns[c].active ==> OwnsNothing(tx, c) && tx.conns[c].tracked == []
  }

  ghost predicate BatchUpTo(tx: Tx, c: nat) {
    forall b :: 0 <= b < |tx.batch| ==> tx.batch[b].conn <= c
  }

  /** In every configuration: every slot is in exactly one place and agrees with it, every counter is the
      sum it stands for (Core); records, batch and rings fit together (Loose). */
  ghost predicate Base(cfg: TxConfig, st: State) {
    && Building(cfg, st.tx) && NoneInHand(st.tx) && InactiveClean(cfg, st.tx)
    && (st.mode.Between? ==> st.tx.batch == [])
    && (st.mode.Filling? ==> st.mode.conn < cfg.maxConns && BatchUpTo(st.tx, st.mode.conn))
  }

  ghost predicate CapOk(cfg: TxConfig, tx: Tx)
    requires |tx.place| == |tx.msgs|
  {
    forall c: nat, f: nat :: c < cfg.maxConns ==> OutstandingCount(tx, c, f) <= MAX_OUTSTANDING
  }

  /** With the gated configuration: one window of 64 per connection, 1024 outstanding messages per flow. */
  ghost predicate Windowed(cfg: TxConfig, st: State)
    requires Base(cfg, st)
  {
    && (forall d :: 0 <= d < cfg.maxConns ==> Win(cfg, st.tx, d, 0))
    && PendingReliable(st.tx) && CapOk(cfg, st.tx)
    && (st.mode.Filling? && st.mode.open ==> FlushWin(cfg, st.tx, st.mode.conn))
  }

  ghost predicate Safe(cfg: TxConfig, st: State) {
    Base(cfg, st) && (Gated(cfg) ==> Windowed(cfg, st))
  }

  // ----- the steps -------------------------------------------------------------------------------

  /** What `pick_from_flow` may take from: nothing reliable while the connection is blocked, and nothing
      else while messages wait for retransmission. */
  predicate CanPick(tx: Tx, c: nat, f: nat, kind: Kind) {
    && c < |tx.conns| && At(tx.boxes, Ring(c, f, kind)) != []
    && (!kind.Unrel? ==> !tx.conns[c].blocked)
    && (!kind.Retry? && !tx.conns[c].blocked ==> At(tx.boxes, Ring(c, f, Retry)) == [])
  }

  /** The connection's turn comes after those of the connections before it. */
  predicate TurnComes(st: State, c: nat) {
    if st.mode.Between? then true else st.mode.conn < c
  }

  predicate IsActive(cfg: TxConfig, tx: Tx, c: nat) { c < cfg.maxConns && c < |tx.conns| && tx.conns[c].active }

  ghost predicate Enabled(cfg: TxConfig, st: State, step: Step) {
    match step
    case Submit(c, _, _, _) => st.mode.Between? && c < cfg.maxConns
    case Ack(c, _, _) => st.mode.Between? && IsActive(cfg, st.tx, c)
    case Abort(c) => st.mode.Between? && IsActive(cfg, st.tx, c)
    case Connect(c) => st.mode.Between? && c < cfg.maxConns && c < |st.tx.conns| && !st.tx.conns[c].active
    case Turn(c) => TurnComes(st, c) && IsActive(cfg, st.tx, c)
    case TurnRetransmits(c, _, _) => TurnComes(st, c) && IsActive(cfg, st.tx, c)
    case TurnAborts(c) => TurnComes(st, c) && IsActive(cfg, st.tx, c)
    case DropHead(f, kind, now) =>
      && st.mode.Filling? && st.mode.open && CanPick(st.tx, st.mode.conn, f, kind)
      && At(st.tx.boxes, Ring(st.mode.conn, f, kind))[0] < |st.tx.msgs|
      && HeadExpired(st.tx.msgs[At(st.tx.boxes, Ring(st.mode.conn, f, kind))[0]], now)
    case Pick(f, kind) => st.mode.Filling? && st.mode.open && CanPick(st.tx, st.mode.conn, f, kind)
    case AckOnly => st.mode.Filling? && |st.tx.batch| < cfg.batchSize
    case Flush(taken, _) => st.mode.Filling? && taken <= |st.tx.batch|
    case End => st.mode.Filling? && st.tx.batch == []
  }

  lemma IdleBetween(cfg: TxConfig, st: State)
    requires Base(cfg, st) && st.mode.Between?
    ensures Idle(cfg, st.tx)
  {
    forall v | 0 <= v < |st.tx.msgs|
      ensures st.tx.place[v].Free? || st.tx.place[v].Queued? || st.tx.place[v].Flight?
    {
    }
  }

  /** A connection whose turn has not come has nothing in the batch. */
  lemma NothingOutYet(cfg: TxConfig, st: State, c: nat)
    requires Base(cfg, st) && TurnComes(st, c)
    ensures NothingOut(st.tx, c)
  {
    forall v | 0 <= v < |st.tx.msgs| && st.tx.msgs[v].owner == c
      ensures !Outgoing(st.tx.place[v])
    {
    }
  }

  /** A picked message that does not fit: the connection goes on without reliable messages if it was the
      window that was full, and is done otherwise. */
  ghost function AfterPick(cfg: TxConfig, tx: Tx, st: State, kind: Kind, ok: bool): State
    requires st.mode.Filling? && st.mode.conn < |tx.conns|
  {
    if ok then State(tx, st.mode)
    else if !kind.Unrel? && |tx.batch| < cfg.batchSize && !tx.conns[st.mode.conn].blocked then
      State(Blocked(tx, st.mode.conn), st.mode)
    else State(tx, Filling(st.mode.conn, false))
  }

  ghost function Next(cfg: TxConfig, st: State, step: Step): State
    requires Base(cfg, st) && Enabled(cfg, st, step)
  {
    match step
    case Submit(c, data, opts, now) =>
      IdleBetween(cfg, st);
      State(Send(cfg, st.tx, c, data, opts, now).0, Between)
    case Ack(c, ack, bits) =>
      NothingOutYet(cfg, st, c);
      State(AckReceived(cfg, st.tx, c, ack, bits), Between)
    case Abort(c) => State(Aborted(cfg, st.tx, c), Between)
    case Connect(c) => State(Connected(cfg, st.tx, c), Between)
    case Turn(c) => State(TurnBegun(st.tx, c), Filling(c, true))
    case TurnRetransmits(c, now, rto) =>
      NothingOutYet(cfg, st, c);
      State(TurnTimedOut(cfg, st.tx, c, now, rto), Filling(c, true))
    case TurnAborts(c) => State(Aborted(cfg, st.tx, c), Filling(c, false))
    case DropHead(f, kind, now) => State(HeadDropped(cfg, st.tx, st.mode.conn, f, kind), st.mode)
    case Pick(f, kind) =>
      var (tx', ok) := PickedAndPacked(cfg, st.tx, st.mode.conn, f, kind);
      AfterPick(cfg, tx', st, kind, ok)
    case AckOnly => State(AckOnlyAppended(cfg, st.tx, st.mode.conn), st.mode)
    case Flush(taken, now) =>
      State(BatchFlushed(cfg, st.tx, taken, now), Filling(st.mode.conn, st.mode.open && taken == |st.tx.batch|))
    case End => State(st.tx, Between)
  }

  // ----- the base invariant, step by step --------------------------------------------------------

  /** Nothing enters an operation's hands if no slot becomes fresh or in transit. */
  lemma ResolvedInHand(cfg: TxConfig, tx: Tx, tx': Tx, c: nat, ack: uint32, bits: Word64)
    requires Resolved(cfg, tx, tx', c, ack, bits) && NoneInHand(tx)
    ensures NoneInHand(tx')
  {
    forall v | 0 <= v < |tx'.place|
      ensures !tx'.place[v].Fresh? && !tx'.place[v].Transit?
    {
      assert SlotResolved(cfg, tx, tx', c, ack, bits, v);
    }
  }

  /** Connections stay clean if no slot changes hands and no inactive one is renumbered. */
  lemma CleanKept(cfg: TxConfig, tx: Tx, tx': Tx)
    requires TxShape(cfg, tx) && TxShape(cfg, tx') && InactiveClean(cfg, tx) && OwnersKept(tx, tx') && IdsSame(tx, tx')
    requires forall d :: 0 <= d < cfg.maxConns && !tx.conns[d].active ==> tx'.conns[d].tracked == tx.conns[d].tracked
    ensures InactiveClean(cfg, tx')
  {
    forall d | 0 <= d < cfg.maxConns && !tx'.conns[d].active
      ensures OwnsNothing(tx', d)
    {
      OwnsNothingKept(tx, tx', d);
    }
  }

  lemma CleanOthers(cfg: TxConfig, tx: Tx, tx': Tx, c: nat)
    requires TxShape(cfg, tx) && TxShape(cfg, tx') && InactiveClean(cfg, tx) && OwnersKept(tx, tx')
    requires ActiveSame(tx, tx')
    requires IsActive(cfg, tx, c) && OthersKept(cfg, tx, tx', c)
    ensures InactiveClean(cfg, tx')
  {
    CleanKept(cfg, tx, tx');
  }

  lemma AckBase(cfg: TxConfig, st: State, c: nat, ack: uint32, bits: Word64)
    requires Base(cfg, st) && Enabled(cfg, st, Ack(c, ack, bits))
    ensures Base(cfg, Next(cfg, st, Ack(c, ack, bits)))
  {
    NothingOutYet(cfg, st, c);
    var tx' := AckReceived(cfg, st.tx, c, ack, bits);
    ResolvedInHand(cfg, st.tx, tx', c, ack, bits);
    ResolvedOwners(cfg, st.tx, tx', c, ack, bits);
    CleanOthers(cfg, st.tx, tx', c);
  }

  lemma TurnBase(cfg: TxConfig, st: State, c: nat)
    requires Base(cfg, st) && Enabled(cfg, st, Turn(c))
    ensures Base(cfg, Next(cfg, st, Turn(c)))
  {
    ConnEdited(cfg, 0, st.tx, c, st.tx.conns[c].(batchFirst := 0, blocked := false));
    CleanOthers(cfg, st.tx, TurnBegun(st.tx, c), c);
  }

  lemma RetransmitsBase(cfg: TxConfig, st: State, c: nat, now: uint64, rto: nat)
    requires Base(cfg, st) && Enabled(cfg, st, TurnRetransmits(c, now, rto))
    ensures Base(cfg, Next(cfg, st, TurnRetransmits(c, now, rto)))
  {
    NothingOutYet(cfg, st, c);
    var tx' := TurnTimedOut(cfg, st.tx, c, now, rto);
    ResolvedInHand(cfg, st.tx, tx', c, 0, ZeroWord());
    ResolvedOwners(cfg, st.tx, tx', c, 0, ZeroWord());
    CleanOthers(cfg, st.tx, tx', c);
  }

  lemma AbortedBase(cfg: TxConfig, tx: Tx, c: nat)
    requires Building(cfg, tx) && NoneInHand(tx) && InactiveClean(cfg, tx) && c < cfg.maxConns
    ensures var tx' := Aborted(cfg, tx, c); Building(cfg, tx') && NoneInHand(tx') && InactiveClean(cfg, tx')
  {
    var tx' := Aborted(cfg, tx, c);
    forall d | 0 <= d < cfg.maxConns && !tx'.conns[d].active
      ensures OwnsNothing(tx', d) && tx'.conns[d].tracked == []
    {
      if d != c { OwnsNothingKept(tx, tx', d); }
    }
    AbortedInHand(cfg, tx, c);
  }

  lemma AbortedInHand(cfg: TxConfig, tx: Tx, c: nat)
    requires Loose(cfg, tx, 0) && NoneInHand(tx) && c < cfg.maxConns
    ensures NoneInHand(Aborted(cfg, tx, c))
  {
    var tx1 := AllOfConnFreed(cfg, tx, c);
    assert OnlyIn(tx, tx1, UsedOf(tx, c, 0)) && OwnsNothing(tx1, c);
    forall v | 0 <= v < |tx1.place|
      ensures !tx1.place[v].Fresh? && !tx1.place[v].Transit?
    {
      if v in UsedOf(tx, c, 0) { assert tx1.place[v].Free?; }
    }
  }

  lemma ConnectBase(cfg: TxConfig, st: State, c: nat)
    requires Base(cfg, st) && Enabled(cfg, st, Connect(c))
    ensures Base(cfg, Next(cfg, st, Connect(c)))
  {
  }

  lemma SubmitBase(cfg: TxConfig, st: State, c: nat, data: Bytes, o: SendOpts, now: uint64)
    requires Base(cfg, st) && Enabled(cfg, st, Submit(c, data, o, now))
    ensures Base(cfg, Next(cfg, st, Submit(c, data, o, now)))
  {
    IdleBetween(cfg, st);
    SubmitIdle(cfg, st.tx, c, data, o, now);
  }

  lemma SubmitIdle(cfg: TxConfig, tx: Tx, c: nat, data: Bytes, o: SendOpts, now: uint64)
    requires Idle(cfg, tx) && InactiveClean(cfg, tx) && c < cfg.maxConns
    ensures var tx' := Send(cfg, tx, c, data, o, now).0;
      Building(cfg, tx') && NoneInHand(tx') && InactiveClean(cfg, tx') && tx'.batch == []
  {
    IdleRings(cfg, tx, c, o.flow, Unrel);
    if Refusal(cfg, tx, c, |data|, o) == None {
      var (tx', vs) := EnqueuedState(cfg, tx, c, data, o, now);
      SubmitClean(cfg, tx, tx', c, data, o, now, vs);
      IdleInHand(cfg, tx');
    } else {
      IdleInHand(cfg, tx);
    }
  }

  lemma IdleInHand(cfg: TxConfig, tx: Tx)
    requires Idle(cfg, tx)
    ensures Building(cfg, tx) && NoneInHand(tx)
  {
  }

  lemma SubmitClean(cfg: TxConfig, tx: Tx, tx': Tx, c: nat, data: Bytes, o: SendOpts, now: uint64, vs: seq<nat>)
    requires TxShape(cfg, tx) && TxShape(cfg, tx') && InactiveClean(cfg, tx) && IsActive(cfg, tx, c)
    requires SubmitEffect(cfg, tx, tx', c, data, o, now, vs)
    ensures InactiveClean(cfg, tx')
  {
    var ms := FragMsgs(cfg, tx.conns[c], c, data, o, now);
    forall d | 0 <= d < cfg.maxConns && !tx'.conns[d].active
      ensures OwnsNothing(tx', d) && tx'.conns[d].tracked == []
    {
      assert d != c;
      forall v | 0 <= v < |tx'.msgs| && tx'.place[v] != Free
        ensures tx'.msgs[v].owner != d
      {
        if v in vs {
          var i :| 0 <= i < |vs| && vs[i] == v;
          assert tx'.msgs[vs[i]] == ms[i] && ms[i].owner == c;
        }
      }
    }
  }

  lemma DropHeadBase(cfg: TxConfig, st: State, f: nat, kind: Kind, now: uint64)
    requires Base(cfg, st) && Enabled(cfg, st, DropHead(f, kind, now))
    ensures Base(cfg, Next(cfg, st, DropHead(f, kind, now)))
  {
    DropHeadTx(cfg, st.tx, st.mode.conn, f, kind);
  }

  lemma DropHeadTx(cfg: TxConfig, tx: Tx, c: nat, f: nat, kind: Kind)
    requires Building(cfg, tx) && NoneInHand(tx) && InactiveClean(cfg, tx) && At(tx.boxes, Ring(c, f, kind)) != []
    ensures var tx' := HeadDropped(cfg, tx, c, f, kind);
      Building(cfg, tx') && NoneInHand(tx') && InactiveClean(cfg, tx') && tx'.batch == tx.batch
  {
    CleanKept(cfg, tx, HeadDropped(cfg, tx, c, f, kind));
  }

  lemma FlushBase(cfg: TxConfig, st: State, k: nat, now: uint64)
    requires Base(cfg, st) && Enabled(cfg, st, Flush(k, now))
    ensures Base(cfg, Next(cfg, st, Flush(k, now)))
  {
    FlushedOwners(cfg, st.tx, k, now);
    FlushedConns(cfg, st.tx, k, now);
    FlushedInHand(cfg, st.tx, k, now);
    CleanKept(cfg, st.tx, BatchFlushed(cfg, st.tx, k, now));
  }

  lemma FlushedConns(cfg: TxConfig, tx: Tx, k: nat, now: uint64)
    requires Loose(cfg, tx, 0) && k <= |tx.batch| && InactiveClean(cfg, tx)
    ensures ActiveSame(tx, BatchFlushed(cfg, tx, k, now))
    ensures forall d :: 0 <= d < cfg.maxConns && !tx.conns[d].active ==>
      BatchFlushed(cfg, tx, k, now).conns[d].tracked == tx.conns[d].tracked
  {
    var tx1 := FirstPacketsSent(cfg, tx, k, now);
    var tx2 := PacketsPutBack(cfg, k, tx1, |tx.batch|);
    ActiveSameSending(cfg, tx, k, now, tx1);
    forall d | 0 <= d < cfg.maxConns && !tx.conns[d].active
      ensures tx2.conns[d].tracked == tx.conns[d].tracked
    {
      UntouchedBySending(cfg, tx, k, now, d, tx1);
    }
  }

  lemma FlushedInHand(cfg: TxConfig, tx: Tx, k: nat, now: uint64)
    requires Loose(cfg, tx, 0) && k <= |tx.batch| && NoneInHand(tx)
    ensures NoneInHand(BatchFlushed(cfg, tx, k, now))
  {
    var tx1 := FirstPacketsSent(cfg, tx, k, now);
    var tx2 := PacketsPutBack(cfg, k, tx1, |tx.batch|);
    forall v | 0 <= v < |tx2.place|
      ensures !tx2.place[v].Fresh? && !tx2.place[v].Transit?
    {
      assert SlotSentBelow(tx, tx1, k, v);
    }
  }

  lemma PickTx(cfg: TxConfig, tx: Tx, c: nat, f: nat, kind: Kind)
    requires Building(cfg, tx) && NoneInHand(tx) && InactiveClean(cfg, tx) && At(tx.boxes, Ring(c, f, kind)) != []
    requires c < cfg.maxConns && BatchUpTo(tx, c)
    ensures var tx' := PickedAndPacked(cfg, tx, c, f, kind).0;
      Building(cfg, tx') && NoneInHand(tx') && InactiveClean(cfg, tx') && BatchUpTo(tx', c)
  {
    var (tx', ok) := PickedAndPacked(cfg, tx, c, f, kind);
    PickedSlots(cfg, tx, c, f, kind);
    PickedNumbering(cfg, tx, c, f, kind);
    PickClean(cfg, tx, tx', c, f, kind, At(tx.boxes, Ring(c, f, kind))[0], ok);
  }

  lemma PickClean(cfg: TxConfig, tx: Tx, tx': Tx, c: nat, f: nat, kind: Kind, v: nat, ok: bool)
    requires TxShape(cfg, tx) && TxShape(cfg, tx') && InactiveClean(cfg, tx) && NoneInHand(tx) && c < cfg.maxConns
    requires PickOutcome(tx, tx', c, f, kind, v, ok)
    requires forall d :: 0 <= d < cfg.maxConns && d != c ==> SameNumbering(tx.conns[d], tx'.conns[d])
    ensures InactiveClean(cfg, tx') && NoneInHand(tx')
  {
    assert tx.conns[c].active;
    CleanKept(cfg, tx, tx');
  }

  /** Packing a message of connection c numbers only that connection, in packets of that connection. */
  lemma PickedNumbering(cfg: TxConfig, tx: Tx, c: nat, f: nat, kind: Kind)
    requires Building(cfg, tx) && At(tx.boxes, Ring(c, f, kind)) != [] && c < cfg.maxConns && BatchUpTo(tx, c)
    ensures var tx' := PickedAndPacked(cfg, tx, c, f, kind).0;
      BatchUpTo(tx', c) && forall d :: 0 <= d < cfg.maxConns && d != c ==> SameNumbering(tx.conns[d], tx'.conns[d])
  {
    var v := At(tx.boxes, Ring(c, f, kind))[0];
    InBoxMeans(cfg, tx, Ring(c, f, kind), v);
    PickedLoose(cfg, 0, tx, c, f, kind);
    var tx1 := Picked(tx, c, f, kind);
    AppendedNumbering(cfg, tx1, v);
    var (tx2, ok) := Appended(cfg, tx1, v);
    if !ok { RequeuedLoose(cfg, 0, tx2, v); }
  }

  /** Only connection c was numbered, and packets of the batch belong to connections up to c. */
  ghost predicate NumbersOnly(tx: Tx, tx': Tx, c: nat) {
    && |tx'.conns| == |tx.conns| && BatchUpTo(tx', c)
    && forall d :: 0 <= d < |tx.conns| && d != c ==> tx'.conns[d] == tx.conns[d]
  }

  lemma LastNumbering(tx: Tx, v: nat, last: nat, c: nat)
    requires last < |tx.batch| && v < |tx.msgs| == |tx.place| && tx.place[v].Transit? && BatchUpTo(tx, c)
    ensures NumbersOnly(tx, WithBytes(PackedInto(tx, v, last), v, last), c)
  {
  }

  lemma {:induction false} OpenedNumbering(cfg: TxConfig, tx: Tx, c: nat, reliable: bool)
    requires Building(cfg, tx) && c < cfg.maxConns && BatchUpTo(tx, c)
    ensures NumbersOnly(tx, PacketOpened(cfg, tx, c, reliable).0, c)
  {
  }

  lemma NewNumbering(cfg: TxConfig, tx: Tx, v: nat)
    requires Building(cfg, tx) && v < |tx.msgs| && tx.place[v].Transit? && tx.msgs[v].owner < cfg.maxConns
    requires BatchUpTo(tx, tx.msgs[v].owner)
    ensures NumbersOnly(tx, AppendedToNew(cfg, tx, v).0, tx.msgs[v].owner)
  {
    var c := tx.msgs[v].owner;
    OpenedNumbering(cfg, tx, c, IsReliable(tx.msgs[v].rel));
    var (tx1, ok) := PacketOpened(cfg, tx, c, IsReliable(tx.msgs[v].rel));
    if ok {
      NewPacketTakes(cfg, tx, tx1, v);
      LastNumbering(tx1, v, |tx1.batch| - 1, c);
    }
  }

  lemma AppendedNumbering(cfg: TxConfig, tx: Tx, v: nat)
    requires Building(cfg, tx) && v < |tx.msgs| && tx.place[v].Transit? && BatchUpTo(tx, tx.msgs[v].owner)
    ensures NumbersOnly(tx, Appended(cfg, tx, v).0, tx.msgs[v].owner)
  {
    assert MsgOk(cfg.maxConns, cfg.maxFlows, tx.msgs[v], tx.place[v]);
    var last := |tx.batch| - 1;
    if last >= 0 && tx.batch[last].conn == tx.msgs[v].owner && !tx.batch[last].ackOnly && Fits(cfg, tx, v, last) {
      LastNumbering(tx, v, last, tx.msgs[v].owner);
    } else if |tx.batch| < cfg.batchSize {
      NewNumbering(cfg, tx, v);
    }
  }
}
