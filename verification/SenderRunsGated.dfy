/** The steps of the sender in the gated configuration: each keeps the window of every connection and the
    bound on outstanding messages. */
module SenderRunsGated {
  import opened MachineWords
  import opened Receiver
  import opened MessagePool
  import opened PoolTallies
  import opened Sender
  import opened SenderOps
  import opened SenderAcks
  import opened SenderFlush
  import opened SenderBatch
  import opened SenderSend
  import opened SenderSteps
  import opened SenderWindow
  import opened SenderCapacity
  import opened SenderRuns

  /** The part of Windowed that does not look at the mode. */
  ghost predicate AllWindows(cfg: TxConfig, tx: Tx)
    requires TxShape(cfg, tx)
  {
    && (forall d :: 0 <= d < cfg.maxConns ==> Win(cfg, tx, d, 0))
    && PendingReliable(tx) && CapOk(cfg, tx)
  }

  lemma CapKept(cfg: TxConfig, tx: Tx, tx': Tx)
    requires |tx.place| == |tx.msgs| && CapOk(cfg, tx) && NoneNewlyOutstanding(tx, tx')
    ensures CapOk(cfg, tx')
  {
    forall c: nat, f: nat | c < cfg.maxConns
      ensures OutstandingCount(tx', c, f) <= MAX_OUTSTANDING
    {
      OutstandingFalls(tx, tx', c, f);
    }
  }

  // ----- acknowledgements and retransmissions ----------------------------------------------------

  lemma {:induction false} SelectsItself(s: seq<int>)
    ensures Selection(s, s)
  {
    if s != [] { SelectsItself(s[1..]); }
  }

  /** Going through the queue keeps the window of the connection. */
  lemma LoopWin(cfg: TxConfig, tx: Tx, c: nat, cause: Cause)
    requires Loose(cfg, tx, 0) && c < cfg.maxConns && NothingOut(tx, c) && Win(cfg, tx, c, 0)
    ensures Win(cfg, TrackedDone(cfg, tx, c, cause), c, 0)
  {
    var r := TrackedLoop(cfg, 0, tx, c, cause, tx.conns[c].tracked);
    TrackedKeepsLive(cfg, 0, tx, c, cause, tx.conns[c].tracked);
    WinAfterAcks(cfg, 0, tx, r.0, c, r.1);
  }

  lemma LateWin(cfg: TxConfig, tx: Tx, c: nat, ack: uint32, bits: Word64)
    requires Loose(cfg, tx, 0) && c < cfg.maxConns && NothingOut(tx, c) && Win(cfg, tx, c, 0)
    ensures Win(cfg, LateAcks(cfg, tx, c, ack, bits), c, 0)
  {
    var tx' := LateAcks(cfg, tx, c, ack, bits);
    SelectsItself(tx.conns[c].tracked);
    WinAfterAcks(cfg, 0, tx, tx', c, tx.conns[c].tracked);
    WinSame(cfg, tx'.(conns := tx'.conns[c := tx'.conns[c].(tracked := tx.conns[c].tracked)]), tx', c, 0);
  }

  lemma OtherWindows(cfg: TxConfig, tx: Tx, tx': Tx, c: nat)
    requires TxShape(cfg, tx) && TxShape(cfg, tx') && OthersKept(cfg, tx, tx', c) && tx'.batch == tx.batch
    requires forall d :: 0 <= d < cfg.maxConns ==> Win(cfg, tx, d, 0)
    ensures forall d :: 0 <= d < cfg.maxConns && d != c ==> Win(cfg, tx', d, 0)
  {
    forall d | 0 <= d < cfg.maxConns && d != c
      ensures Win(cfg, tx', d, 0)
    {
      WinSame(cfg, tx, tx', d, 0);
    }
  }

  /** What an acknowledgement or a loss does to the messages of connection c leaves the batch alone. */
  lemma PendingAfter(cfg: TxConfig, tx: Tx, tx': Tx, c: nat, ack: uint32, bits: Word64)
    requires Resolved(cfg, tx, tx', c, ack, bits) && NothingOut(tx, c) && tx'.batch == tx.batch && PendingReliable(tx)
    ensures PendingReliable(tx')
  {
    forall b: nat | b < |tx'.batch| && tx'.batch[b].number != 0
      ensures BatchHasReliable(tx', b)
    {
      var v :| 0 <= v < |tx.msgs| && tx.place[v].Packed? && tx.place[v].b == b && IsReliable(tx.msgs[v].rel);
      assert SlotResolved(cfg, tx, tx', c, ack, bits, v);
    }
  }

  lemma AckWindows(cfg: TxConfig, tx: Tx, c: nat, ack: uint32, bits: Word64)
    requires Loose(cfg, tx, 0) && c < cfg.maxConns && NothingOut(tx, c) && AllWindows(cfg, tx)
    ensures AllWindows(cfg, AckReceived(cfg, tx, c, ack, bits))
  {
    var tx' := AckReceived(cfg, tx, c, ack, bits);
    if ack == 0 { return; }
    LoopWin(cfg, tx, c, Acked(ack, bits));
    LateWin(cfg, TrackedDone(cfg, tx, c, Acked(ack, bits)), c, ack, bits);
    OtherWindows(cfg, tx, tx', c);
    PendingAfter(cfg, tx, tx', c, ack, bits);
    ResolvedOwners(cfg, tx, tx', c, ack, bits);
    CapKept(cfg, tx, tx');
  }

  /** No packet of the connection is in the batch when its turn begins. */
  ghost predicate NonePending(tx: Tx, c: nat) { forall b: nat :: !Pending(tx, c, 0, b) }

  lemma TurnWindows(cfg: TxConfig, tx: Tx, c: nat)
    requires Building(cfg, tx) && c < cfg.maxConns && AllWindows(cfg, tx) && NonePending(tx, c)
    ensures AllWindows(cfg, TurnBegun(tx, c)) && FlushWin(cfg, TurnBegun(tx, c), c)
  {
    var tx' := TurnBegun(tx, c);
    OtherWindows(cfg, tx, tx', c);
    WinSame(cfg, tx, tx', c, 0);
    CapKept(cfg, tx, tx');
    assert forall b: nat :: Pending(tx', c, 0, b) ==> Pending(tx, c, 0, b);
    assert PendingReliable(tx') by {
      forall b: nat | b < |tx'.batch| && tx'.batch[b].number != 0
        ensures BatchHasReliable(tx', b)
      {
        assert BatchHasReliable(tx, b);
      }
    }
  }

  lemma RetransmitWindows(cfg: TxConfig, tx: Tx, c: nat, now: uint64, rto: nat)
    requires Building(cfg, tx) && c < cfg.maxConns && NothingOut(tx, c) && AllWindows(cfg, tx) && NonePending(tx, c)
    ensures AllWindows(cfg, TurnTimedOut(cfg, tx, c, now, rto)) && FlushWin(cfg, TurnTimedOut(cfg, tx, c, now, rto), c)
  {
    var tx1 := TrackedDone(cfg, tx, c, Elapsed(now, rto));
    LoopWin(cfg, tx, c, Elapsed(now, rto));
    OtherWindows(cfg, tx, tx1, c);
    PendingAfter(cfg, tx, tx1, c, 0, ZeroWord());
    ResolvedOwners(cfg, tx, tx1, c, 0, ZeroWord());
    CapKept(cfg, tx, tx1);
    assert forall b: nat :: Pending(tx1, c, 0, b) ==> Pending(tx, c, 0, b);
    TurnWindows(cfg, tx1, c);
  }

  // ----- the other steps -------------------------------------------------------------------------

  lemma AbortWindows(cfg: TxConfig, tx: Tx, c: nat)
    requires Building(cfg, tx) && c < cfg.maxConns && AllWindows(cfg, tx) && NonePending(tx, c) && NothingOut(tx, c)
    ensures AllWindows(cfg, Aborted(cfg, tx, c))
  {
    var tx' := Aborted(cfg, tx, c);
    OtherWindows(cfg, tx, tx', c);
    assert forall b: nat :: Pending(tx', c, 0, b) ==> Pending(tx, c, 0, b);
    AbortPending(cfg, tx, c);
    CapKept(cfg, tx, tx');
  }

  lemma AbortPending(cfg: TxConfig, tx: Tx, c: nat)
    requires Loose(cfg, tx, 0) && c < cfg.maxConns && NothingOut(tx, c) && PendingReliable(tx)
    ensures PendingReliable(Aborted(cfg, tx, c))
  {
    var tx1, tx' := AllOfConnFreed(cfg, tx, c), Aborted(cfg, tx, c);
    assert OnlyIn(tx, tx1, UsedOf(tx, c, 0));
    forall b: nat | b < |tx'.batch| && tx'.batch[b].number != 0
      ensures BatchHasReliable(tx', b)
    {
      var v :| 0 <= v < |tx.msgs| && tx.place[v].Packed? && tx.place[v].b == b && IsReliable(tx.msgs[v].rel);
      assert v !in UsedOf(tx, c, 0);
      assert tx'.place[v] == tx.place[v] && tx'.msgs[v] == tx.msgs[v];
    }
  }

  lemma ConnectWindows(cfg: TxConfig, tx: Tx, c: nat)
    requires Loose(cfg, tx, 0) && c < cfg.maxConns && OwnsNothing(tx, c) && tx.batch == [] && AllWindows(cfg, tx)
    requires tx.conns[c].tracked == []
    ensures AllWindows(cfg, Connected(cfg, tx, c))
  {
    var tx' := Connected(cfg, tx, c);
    OtherWindows(cfg, tx, tx', c);
    assert Win(cfg, tx, c, 0);
    FreshWin(cfg, tx, c);
    CapKept(cfg, tx, tx');
  }

  lemma FreshWin(cfg: TxConfig, tx: Tx, c: nat)
    requires Loose(cfg, tx, 0) && c < cfg.maxConns && OwnsNothing(tx, c) && tx.batch == []
    requires RecordsTracked(cfg, tx, c) && tx.conns[c].tracked == []
    ensures Win(cfg, Connected(cfg, tx, c), c, 0)
  {
    var tx' := Connected(cfg, tx, c);
    forall i | 0 <= i < cfg.slots
      ensures !tx'.sent[c][i].used
    {
      assert tx'.sent[c][i] == tx.sent[c][i];
    }
    assert forall b: nat :: !Pending(tx', c, 0, b);
  }

  lemma SlotsCap(tx: Tx, tx': Tx, replaced: seq<nat>, vs: seq<nat>, ms: seq<Msg>, kind: Kind, d: nat, f: nat)
    requires SlotsEnqueued(tx, tx', replaced, vs, ms, kind) && kind != Retry
    ensures OutstandingCount(tx', d, f) <= OutstandingCount(tx, d, f)
  {
    forall v | 0 <= v < |tx.msgs|
      ensures Weight(Outstanding(d, f), tx'.msgs[v], tx'.place[v]) <= Weight(Outstanding(d, f), tx.msgs[v], tx.place[v])
    {
      if v in vs {
        var i :| 0 <= i < |vs| && vs[i] == v;
      }
    }
    TotalMonotone(Outstanding(d, f), tx.msgs, tx.place, tx'.msgs, tx'.place);
  }

  lemma SubmitCap(cfg: TxConfig, tx: Tx, tx': Tx, replaced: seq<nat>, vs: seq<nat>, ms: seq<Msg>, kind: Kind)
    requires |tx.place| == |tx.msgs| && CapOk(cfg, tx) && SlotsEnqueued(tx, tx', replaced, vs, ms, kind)
    requires kind != Retry
    ensures CapOk(cfg, tx')
  {
    forall d: nat, f: nat | d < cfg.maxConns
      ensures OutstandingCount(tx', d, f) <= MAX_OUTSTANDING
    {
      SlotsCap(tx, tx', replaced, vs, ms, kind, d, f);
    }
  }

  lemma SubmitWin(cfg: TxConfig, tx: Tx, tx': Tx, c: nat, o: SendOpts, d: nat)
    requires TxShape(cfg, tx) && TxShape(cfg, tx') && d < cfg.maxConns && c < cfg.maxConns
    requires o.channel < cfg.maxChannels
    requires tx'.sent == tx.sent && tx'.batch == tx.batch && Win(cfg, tx, d, 0)
    requires SameNumbering(if d == c then SenderSend.Numbered(tx.conns[c], o) else tx.conns[d], tx'.conns[d])
    ensures Win(cfg, tx', d, 0)
  {
    WinSame(cfg, tx, tx', d, 0);
  }

  lemma SubmitWindows(cfg: TxConfig, tx: Tx, c: nat, data: Bytes, o: SendOpts, now: uint64)
    requires Idle(cfg, tx) && c < cfg.maxConns && AllWindows(cfg, tx)
    ensures AllWindows(cfg, Send(cfg, tx, c, data, o, now).0)
  {
    IdleRings(cfg, tx, c, o.flow, Unrel);
    if Refusal(cfg, tx, c, |data|, o) == None {
      var (tx', vs) := EnqueuedState(cfg, tx, c, data, o, now);
      SubmitAllWindows(cfg, tx, tx', c, data, o, now, vs);
    }
  }

  lemma SubmitAllWindows(cfg: TxConfig, tx: Tx, tx': Tx, c: nat, data: Bytes, o: SendOpts, now: uint64, vs: seq<nat>)
    requires TxShape(cfg, tx) && TxShape(cfg, tx') && AllWindows(cfg, tx) && tx'.batch == []
    requires SubmitEffect(cfg, tx, tx', c, data, o, now, vs)
    ensures AllWindows(cfg, tx')
  {
    SubmitCap(cfg, tx, tx', Replaced(tx, UnrelRing(tx, c, o), o), vs, FragMsgs(cfg, tx.conns[c], c, data, o, now),
              RingKind(o.rel));
    forall d | 0 <= d < cfg.maxConns
      ensures Win(cfg, tx', d, 0)
    {
      SubmitWin(cfg, tx, tx', c, o, d);
    }
  }

  lemma DropHeadWindows(cfg: TxConfig, tx: Tx, c: nat, f: nat, kind: Kind)
    requires Building(cfg, tx) && At(tx.boxes, Ring(c, f, kind)) != [] && c < cfg.maxConns
    requires AllWindows(cfg, tx) && FlushWin(cfg, tx, c)
    ensures AllWindows(cfg, HeadDropped(cfg, tx, c, f, kind)) && FlushWin(cfg, HeadDropped(cfg, tx, c, f, kind), c)
  {
    var v, tx' := At(tx.boxes, Ring(c, f, kind))[0], HeadDropped(cfg, tx, c, f, kind);
    InBoxMeans(cfg, tx, Ring(c, f, kind), v);
    MoveKeepsGated(cfg, tx, tx', c, v);
    CapKept(cfg, tx, tx');
  }

  lemma AckOnlyWindows(cfg: TxConfig, tx: Tx, c: nat, d: nat)
    requires Building(cfg, tx) && c < cfg.maxConns && AllWindows(cfg, tx) && d < cfg.maxConns
    ensures AllWindows(cfg, AckOnlyAppended(cfg, tx, c))
    ensures FlushWin(cfg, tx, d) ==> FlushWin(cfg, AckOnlyAppended(cfg, tx, c), d)
  {
    var tx' := AckOnlyAppended(cfg, tx, c);
    forall e | 0 <= e < cfg.maxConns
      ensures Win(cfg, tx', e, 0) && (FlushWin(cfg, tx, e) ==> FlushWin(cfg, tx', e))
    {
      AckOnlyWin(cfg, tx, c, e);
    }
    forall b: nat | b < |tx'.batch| && tx'.batch[b].number != 0
      ensures BatchHasReliable(tx', b)
    {
      assert BatchHasReliable(tx, b);
    }
    CapKept(cfg, tx, tx');
  }

  lemma AckOnlyWin(cfg: TxConfig, tx: Tx, c: nat, e: nat)
    requires Building(cfg, tx) && c < cfg.maxConns && e < cfg.maxConns && Win(cfg, tx, e, 0)
    ensures Win(cfg, AckOnlyAppended(cfg, tx, c), e, 0)
    ensures FlushWin(cfg, tx, e) ==> FlushWin(cfg, AckOnlyAppended(cfg, tx, c), e)
  {
    var tx' := AckOnlyAppended(cfg, tx, c);
    forall b: nat
      ensures Pending(tx', e, 0, b) <==> Pending(tx, e, 0, b)
      ensures Pending(tx, e, 0, b) ==> tx'.batch[b] == tx.batch[b]
    {
    }
    assert tx'.conns == tx.conns && tx'.sent == tx.sent;
    if FlushWin(cfg, tx, e) && tx.conns[e].batchFirst != 0 && !Recorded_(cfg, tx, e, tx.conns[e].batchFirst) {
      var b: nat :| Pending(tx, e, 0, b) && tx.batch[b].unwrapped == tx.conns[e].batchFirst;
      assert Pending(tx', e, 0, b) && tx'.batch[b].unwrapped == tx'.conns[e].batchFirst;
    }
  }

  lemma FlushWindows(cfg: TxConfig, tx: Tx, k: nat, now: uint64, c: nat)
    requires Loose(cfg, tx, 0) && Gated(cfg) && k <= |tx.batch| && c < cfg.maxConns && AllWindows(cfg, tx)
    ensures AllWindows(cfg, BatchFlushed(cfg, tx, k, now))
    ensures k == |tx.batch| && FlushWin(cfg, tx, c) ==> FlushWin(cfg, BatchFlushed(cfg, tx, k, now), c)
  {
    BatchFlushedGated(cfg, tx, k, now, c);
    FlushedOwners(cfg, tx, k, now);
    CapKept(cfg, tx, BatchFlushed(cfg, tx, k, now));
  }

  // ----- picking ---------------------------------------------------------------------------------

  /** A picked message that stays outstanding, or is not. */
  lemma PickSameCap(cfg: TxConfig, tx: Tx, tx': Tx, c: nat, f: nat, kind: Kind, v: nat, ok: bool)
    requires CapOkHere(cfg, tx) && PickOutcome(tx, tx', c, f, kind, v, ok) && (!ok || kind != Rel)
    ensures CapOkHere(cfg, tx')
  {
    CapKept(cfg, tx, tx');
  }

  ghost predicate CapOkHere(cfg: TxConfig, tx: Tx) {
    |tx.place| == |tx.msgs| && CapOk(cfg, tx)
  }

  /** A new reliable message joins the outstanding ones only when its flow has none waiting for
      retransmission; then all of them are in packets of the window. */
  lemma PickNewCap(cfg: TxConfig, tx: Tx, tx': Tx, c: nat, f: nat, v: nat)
    requires CapOkHere(cfg, tx) && PickOutcome(tx, tx', c, f, Rel, v, true)
    requires Loose(cfg, tx', 0) && c < cfg.maxConns && Win(cfg, tx', c, 0) && NoneInHand(tx')
    requires forall w :: 0 <= w < |tx.msgs| && tx.msgs[w].owner == c && tx.msgs[w].flow == f ==>
      tx.place[w] != Queued(Retry)
    ensures CapOkHere(cfg, tx')
  {
    forall d: nat, g: nat | d < cfg.maxConns
      ensures OutstandingCount(tx', d, g) <= MAX_OUTSTANDING
    {
      if d == c && g == f {
        FlowBound(cfg, tx', c, f);
      } else {
        OtherFlow(tx, tx', c, f, v, d, g);
      }
    }
  }

  lemma OtherFlow(tx: Tx, tx': Tx, c: nat, f: nat, v: nat, d: nat, g: nat)
    requires PickOutcome(tx, tx', c, f, Rel, v, true) && (d != c || g != f)
    ensures OutstandingCount(tx', d, g) <= OutstandingCount(tx, d, g)
  {
    TotalMonotone(Outstanding(d, g), tx.msgs, tx.place, tx'.msgs, tx'.place);
  }

  lemma RetryEmpty(cfg: TxConfig, tx: Tx, c: nat, f: nat)
    requires Core(cfg, tx) && At(tx.boxes, Ring(c, f, Retry)) == []
    ensures forall w :: 0 <= w < |tx.msgs| && tx.msgs[w].owner == c && tx.msgs[w].flow == f ==>
      tx.place[w] != Queued(Retry)
  {
    forall w | 0 <= w < |tx.msgs| && tx.msgs[w].owner == c && tx.msgs[w].flow == f
      ensures tx.place[w] != Queued(Retry)
    {
      var h := Home(cfg.slots, tx.msgs[w], tx.place[w]);
      assert h.Some? ==> w in At(tx.boxes, h.value);
    }
  }

  lemma PickCap(cfg: TxConfig, tx: Tx, c: nat, f: nat, kind: Kind)
    requires Building(cfg, tx) && NoneInHand(tx) && CanPick(tx, c, f, kind) && c < cfg.maxConns && CapOk(cfg, tx)
    requires var tx' := PickedAndPacked(cfg, tx, c, f, kind).0; Win(cfg, tx', c, 0) && NoneInHand(tx')
    ensures CapOk(cfg, PickedAndPacked(cfg, tx, c, f, kind).0)
  {
    var (tx', ok) := PickedAndPacked(cfg, tx, c, f, kind);
    PickedSlots(cfg, tx, c, f, kind);
    var v := At(tx.boxes, Ring(c, f, kind))[0];
    if ok && kind == Rel {
      RetryEmpty(cfg, tx, c, f);
      PickNewCap(cfg, tx, tx', c, f, v);
    } else {
      PickSameCap(cfg, tx, tx', c, f, kind, v, ok);
    }
  }

  lemma PickWindows(cfg: TxConfig, tx: Tx, c: nat, f: nat, kind: Kind)
    requires Building(cfg, tx) && NoneInHand(tx) && Gated(cfg) && CanPick(tx, c, f, kind) && c < cfg.maxConns
    requires AllWindows(cfg, tx) && FlushWin(cfg, tx, c) && NoneInHand(PickedAndPacked(cfg, tx, c, f, kind).0)
    ensures var tx' := PickedAndPacked(cfg, tx, c, f, kind).0; AllWindows(cfg, tx') && FlushWin(cfg, tx', c)
  {
    PickedAndPackedGated(cfg, tx, c, f, kind);
    PickCap(cfg, tx, c, f, kind);
  }

  lemma BlockedWindows(cfg: TxConfig, tx: Tx, c: nat)
    requires Building(cfg, tx) && c < cfg.maxConns && AllWindows(cfg, tx) && FlushWin(cfg, tx, c)
    ensures AllWindows(cfg, Blocked(tx, c)) && FlushWin(cfg, Blocked(tx, c), c)
  {
    var tx' := Blocked(tx, c);
    forall d | 0 <= d < cfg.maxConns
      ensures SameNumbers(tx, tx', d) && tx'.conns[d].batchFirst == tx.conns[d].batchFirst
    {
    }
    FlushGatedSame(cfg, tx, tx', c);
    BlockedPending(tx, c);
    CapKept(cfg, tx, tx');
  }

  lemma BlockedPending(tx: Tx, c: nat)
    requires |tx.place| == |tx.msgs| && c < |tx.conns| && PendingReliable(tx)
    ensures PendingReliable(Blocked(tx, c))
  {
    forall b: nat | b < |tx.batch| && tx.batch[b].number != 0
      ensures BatchHasReliable(Blocked(tx, c), b)
    {
      assert BatchHasReliable(tx, b);
    }
  }
}
