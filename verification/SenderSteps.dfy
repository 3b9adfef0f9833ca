/** The calls of an endpoint as steps on the sender's state: acknowledgements, the parts of a flush,
    aborting and creating connections; and what each of them does to the owners of the messages. */
module SenderSteps {
  import opened MachineWords
  import opened Receiver
  import opened MessagePool
  import opened PoolTallies
  import opened Sender
  import opened SenderOps
  import opened SenderAcks
  import opened SenderFlush
  import opened SenderBatch
  import opened SenderSend

  // ----- who owns what ---------------------------------------------------------------------------

  /** The fields that are written when a message is accepted, and that a packet carries. */
  predicate SameContent(m: Msg, m': Msg) {
    && m'.owner == m.owner && m'.flow == m.flow && m'.rel == m.rel && m'.channel == m.channel
    && m'.channelSeq == m.channelSeq && m'.msgId == m.msgId && m'.fragIndex == m.fragIndex
    && m'.fragCount == m.fragCount && m'.payload == m.payload
  }

  /** No slot changes hands: a slot in use was in use for the same message. */
  ghost predicate OwnersKept(tx: Tx, tx': Tx) {
    && |tx'.msgs| == |tx.msgs| == |tx.place| == |tx'.place|
    && forall v :: 0 <= v < |tx.msgs| && tx'.place[v] != Free ==>
         tx.place[v] != Free && SameContent(tx.msgs[v], tx'.msgs[v])
  }

  /** Moreover no message becomes outstanding. */
  ghost predicate NoneNewlyOutstanding(tx: Tx, tx': Tx) {
    && OwnersKept(tx, tx')
    && forall v :: 0 <= v < |tx.msgs| && IsOutstanding(tx'.place[v]) ==> IsOutstanding(tx.place[v])
  }

  /** No connection comes or goes, and none gives out a message id or a number of an ordered channel. */
  ghost predicate IdsSame(tx: Tx, tx': Tx) {
    && |tx'.conns| == |tx.conns|
    && forall d :: 0 <= d < |tx.conns| ==>
         && tx'.conns[d].active == tx.conns[d].active && tx'.conns[d].nextMsgId == tx.conns[d].nextMsgId
         && tx'.conns[d].orderedSeq == tx.conns[d].orderedSeq
  }

  /** Nor does any give out a packet number. */
  ghost predicate ActiveSame(tx: Tx, tx': Tx) {
    IdsSame(tx, tx') && forall d :: 0 <= d < |tx.conns| ==> tx'.conns[d].newest == tx.conns[d].newest
  }

  lemma {:induction false} TotalMonotone(t: Tally, msgs: seq<Msg>, place: seq<Place>, msgs': seq<Msg>,
                                         place': seq<Place>)
    requires |msgs| == |place| == |msgs'| == |place'|
    requires forall v :: 0 <= v < |msgs| ==> Weight(t, msgs'[v], place'[v]) <= Weight(t, msgs[v], place[v])
    ensures Total(t, msgs', place') <= Total(t, msgs, place)
  {
    if msgs != [] {
      assert Weight(t, msgs'[0], place'[0]) <= Weight(t, msgs[0], place[0]);
      forall v | 0 <= v < |msgs[1..]|
        ensures Weight(t, msgs'[1..][v], place'[1..][v]) <= Weight(t, msgs[1..][v], place[1..][v])
      {
        assert Weight(t, msgs'[v + 1], place'[v + 1]) <= Weight(t, msgs[v + 1], place[v + 1]);
      }
      TotalMonotone(t, msgs[1..], place[1..], msgs'[1..], place'[1..]);
    }
  }

  lemma OutstandingFalls(tx: Tx, tx': Tx, c: nat, f: nat)
    requires NoneNewlyOutstanding(tx, tx')
    ensures OutstandingCount(tx', c, f) <= OutstandingCount(tx, c, f)
  {
    TotalMonotone(Outstanding(c, f), tx.msgs, tx.place, tx'.msgs, tx'.place);
  }

  lemma ResolvedOwners(cfg: TxConfig, tx: Tx, tx': Tx, c: nat, ack: uint32, bits: Word64)
    requires Resolved(cfg, tx, tx', c, ack, bits)
    ensures NoneNewlyOutstanding(tx, tx')
  {
    forall v | 0 <= v < |tx.msgs|
      ensures tx'.place[v] != Free ==> tx.place[v] != Free && SameContent(tx.msgs[v], tx'.msgs[v])
      ensures IsOutstanding(tx'.place[v]) ==> IsOutstanding(tx.place[v])
    {
      assert SlotResolved(cfg, tx, tx', c, ack, bits, v);
    }
  }

  lemma ResolvedSame(cfg: TxConfig, tx: Tx, tx1: Tx, tx2: Tx, c: nat, ack: uint32, bits: Word64)
    requires Resolved(cfg, tx, tx1, c, ack, bits) && tx2.msgs == tx1.msgs && tx2.place == tx1.place
    ensures Resolved(cfg, tx, tx2, c, ack, bits)
  {
    NothingResolved(cfg, tx1, tx2, c, ack, bits);
    ResolvedTransitive(cfg, tx, tx1, tx2, c, ack, bits);
  }

  /** Only connection c is renumbered, and only its records change. */
  ghost predicate OthersKept(cfg: TxConfig, tx: Tx, tx': Tx, c: nat)
    requires TxShape(cfg, tx) && TxShape(cfg, tx')
  {
    forall d :: 0 <= d < cfg.maxConns && d != c ==>
      tx'.sent[d] == tx.sent[d] && SameNumbering(tx.conns[d], tx'.conns[d])
  }

  // ----- acknowledgements ------------------------------------------------------------------------

  function WithTracked(tx: Tx, c: nat, tracked: seq<int>): Tx
    requires c < |tx.conns|
  {
    tx.(conns := tx.conns[c := tx.conns[c].(tracked := tracked)])
  }

  /** The queue of tracked numbers after it was gone through. */
  ghost function TrackedDone(cfg: TxConfig, tx: Tx, c: nat, cause: Cause): (tx': Tx)
    requires Loose(cfg, tx, 0) && c < cfg.maxConns && NothingOut(tx, c)
    ensures Loose(cfg, tx', 0) && NothingOut(tx', c) && Resolved(cfg, tx, tx', c, AckOf(cause), BitsOf(cause))
    ensures tx'.batch == tx.batch && ActiveSame(tx, tx') && OthersKept(cfg, tx, tx', c)
  {
    var r := TrackedLoop(cfg, 0, tx, c, cause, tx.conns[c].tracked);
    ConnEdited(cfg, 0, r.0, c, r.0.conns[c].(tracked := r.1));
    ResolvedSame(cfg, tx, r.0, WithTracked(r.0, c, r.1), c, AckOf(cause), BitsOf(cause));
    WithTracked(r.0, c, r.1)
  }

  lemma ThenLate(cfg: TxConfig, tx: Tx, tx1: Tx, tx2: Tx, c: nat, ack: uint32, bits: Word64)
    requires TxShape(cfg, tx) && TxShape(cfg, tx1) && TxShape(cfg, tx2)
    requires Resolved(cfg, tx, tx1, c, ack, bits) && tx1.batch == tx.batch && ActiveSame(tx, tx1)
    requires OthersKept(cfg, tx, tx1, c)
    requires AckEffect(cfg, tx1, tx2, c, ack, bits)
    ensures Resolved(cfg, tx, tx2, c, ack, bits) && tx2.batch == tx.batch && ActiveSame(tx, tx2)
    ensures OthersKept(cfg, tx, tx2, c)
  {
    ResolvedTransitive(cfg, tx, tx1, tx2, c, ack, bits);
  }

  /** `release_acked_packets`; 0 acknowledges nothing. */
  ghost function AckReceived(cfg: TxConfig, tx: Tx, c: nat, ack: uint32, bits: Word64): (tx': Tx)
    requires Loose(cfg, tx, 0) && c < cfg.maxConns && NothingOut(tx, c)
    ensures Loose(cfg, tx', 0) && Resolved(cfg, tx, tx', c, ack, bits)
    ensures tx'.batch == tx.batch && ActiveSame(tx, tx') && OthersKept(cfg, tx, tx', c)
  {
    if ack == 0 then
      NothingResolved(cfg, tx, tx, c, ack, bits);
      tx
    else
      var tx1 := TrackedDone(cfg, tx, c, Acked(ack, bits));
      var tx2 := LateAcks(cfg, tx1, c, ack, bits);
      ThenLate(cfg, tx, tx1, tx2, c, ack, bits);
      tx2
  }

  lemma NoneDue(tx: Tx, tx': Tx, c: nat, ack: uint32, bits: Word64)
    requires LateGoneFrom(tx, tx', c, ack, bits, 0)
    ensures forall v :: 0 <= v < |tx'.msgs| ==> !LateDue(tx'.msgs[v], c, ack, bits)
  {
  }

  /** The flow of an endpoint is free of everything in flight that an acknowledgement names, and of every
      message with a lost packet that it names. */
  lemma AckReleases(cfg: TxConfig, tx: Tx, c: nat, ack: uint32, bits: Word64)
    requires Loose(cfg, tx, 0) && c < cfg.maxConns && NothingOut(tx, c)
    ensures forall v :: 0 <= v < |tx.msgs| ==> !LateDue(AckReceived(cfg, tx, c, ack, bits).msgs[v], c, ack, bits)
  {
    if ack != 0 {
      var tx1 := TrackedDone(cfg, tx, c, Acked(ack, bits));
      NoneDue(tx1, LateAcks(cfg, tx1, c, ack, bits), c, ack, bits);
    }
  }

  // ----- parts of a flush ------------------------------------------------------------------------

  /** A connection's turn in the flush begins. */
  function TurnBegun(tx: Tx, c: nat): Tx
    requires c < |tx.conns|
  {
    tx.(conns := tx.conns[c := tx.conns[c].(batchFirst := 0, blocked := false)])
  }

  /** `service_retransmits`, when it is due, and the reset that follows it. */
  ghost function TurnTimedOut(cfg: TxConfig, tx: Tx, c: nat, now: uint64, rto: nat): (tx': Tx)
    requires Building(cfg, tx) && c < cfg.maxConns && NothingOut(tx, c)
    ensures Building(cfg, tx') && Resolved(cfg, tx, tx', c, 0, ZeroWord())
    ensures tx'.batch == tx.batch && ActiveSame(tx, tx') && OthersKept(cfg, tx, tx', c)
  {
    var tx1 := TrackedDone(cfg, tx, c, Elapsed(now, rto));
    ConnEdited(cfg, 0, tx1, c, tx1.conns[c].(batchFirst := 0, blocked := false));
    ResolvedSame(cfg, tx, tx1, TurnBegun(tx1, c), c, 0, ZeroWord());
    TurnBegun(tx1, c)
  }

  /** `pick_from_queue` drops a head whose deadline has passed, but never an ordered reliable message. */
  predicate HeadExpired(m: Msg, now: uint64) {
    m.deadline != 0 && now >= m.deadline && !m.rel.ReliableOrdered?
  }

  ghost function HeadDropped(cfg: TxConfig, tx: Tx, c: nat, f: nat, kind: Kind): (tx': Tx)
    requires Building(cfg, tx) && At(tx.boxes, Ring(c, f, kind)) != []
    ensures Building(cfg, tx') && NoneNewlyOutstanding(tx, tx')
    ensures Only(tx, tx', At(tx.boxes, Ring(c, f, kind))[0])
    ensures At(tx.boxes, Ring(c, f, kind))[0] < |tx.msgs| && tx'.place[At(tx.boxes, Ring(c, f, kind))[0]] == Free
  {
    var v := At(tx.boxes, Ring(c, f, kind))[0];
    InBoxMeans(cfg, tx, Ring(c, f, kind), v);
    FreedLoose(cfg, 0, tx, v);
    Freed(cfg, tx, v)
  }

  /** The picked message is in the batch or back in its ring; nothing else moved. */
  ghost predicate PickOutcome(tx: Tx, tx': Tx, c: nat, f: nat, kind: Kind, v: nat, ok: bool) {
    && |tx'.msgs| == |tx.msgs| == |tx.place| == |tx'.place| && v < |tx.msgs| && IdsSame(tx, tx') && tx'.sent == tx.sent
    && tx.place[v] == Queued(kind) && tx.msgs[v].owner == c && tx.msgs[v].flow == f
    && (forall w :: 0 <= w < |tx.msgs| && w != v ==> tx'.msgs[w] == tx.msgs[w] && tx'.place[w] == tx.place[w])
    && SameContent(tx.msgs[v], tx'.msgs[v]) && tx'.msgs[v].carriedBy == tx.msgs[v].carriedBy
    && (if ok then tx'.place[v].Packed? && tx'.place[v].kind == kind else tx'.place[v] == Queued(kind))
  }

  /** Message v is in a packet, or where it was; nothing else moved. */
  ghost predicate OnlyPacked(tx: Tx, tx': Tx, v: nat, ok: bool) {
    && IdsSame(tx, tx') && tx'.sent == tx.sent
    && v < |tx.msgs| == |tx'.msgs| == |tx.place| == |tx'.place|
    && (forall w :: 0 <= w < |tx.msgs| && w != v ==> tx'.msgs[w] == tx.msgs[w] && tx'.place[w] == tx.place[w])
    && tx'.msgs[v] == tx.msgs[v]
    && (if ok then tx'.place[v].Packed? && tx.place[v].Transit? && tx'.place[v].kind == tx.place[v].kind
        else tx'.place[v] == tx.place[v])
  }

  lemma AppendedSlots(cfg: TxConfig, tx: Tx, v: nat)
    requires Building(cfg, tx) && v < |tx.msgs| && tx.place[v].Transit?
    ensures OnlyPacked(tx, Appended(cfg, tx, v).0, v, Appended(cfg, tx, v).1)
  {
    assert MsgOk(cfg.maxConns, cfg.maxFlows, tx.msgs[v], tx.place[v]);
    var last := |tx.batch| - 1;
    if last >= 0 && tx.batch[last].conn == tx.msgs[v].owner && !tx.batch[last].ackOnly && Fits(cfg, tx, v, last) {
      assert Appended(cfg, tx, v) == (PackedLast(cfg, tx, v), true);
    } else if |tx.batch| < cfg.batchSize {
      NewPacketSlots(cfg, tx, v);
      assert Appended(cfg, tx, v) == AppendedToNew(cfg, tx, v);
    }
  }

  lemma NewPacketSlots(cfg: TxConfig, tx: Tx, v: nat)
    requires Building(cfg, tx) && v < |tx.msgs| && tx.place[v].Transit? && tx.msgs[v].owner < cfg.maxConns
    ensures OnlyPacked(tx, AppendedToNew(cfg, tx, v).0, v, AppendedToNew(cfg, tx, v).1)
  {
    var (tx1, ok) := PacketOpened(cfg, tx, tx.msgs[v].owner, IsReliable(tx.msgs[v].rel));
    if ok { NewPacketTakes(cfg, tx, tx1, v); }
  }

  lemma PickedSlots(cfg: TxConfig, tx: Tx, c: nat, f: nat, kind: Kind)
    requires Building(cfg, tx) && At(tx.boxes, Ring(c, f, kind)) != []
    ensures var r := PickedAndPacked(cfg, tx, c, f, kind);
      PickOutcome(tx, r.0, c, f, kind, At(tx.boxes, Ring(c, f, kind))[0], r.1)
  {
    var v := At(tx.boxes, Ring(c, f, kind))[0];
    InBoxMeans(cfg, tx, Ring(c, f, kind), v);
    PickedLoose(cfg, 0, tx, c, f, kind);
    var tx1 := Picked(tx, c, f, kind);
    AppendedSlots(cfg, tx1, v);
    var (tx2, ok) := Appended(cfg, tx1, v);
    if !ok {
      RequeuedLoose(cfg, 0, tx2, v);
      PickUndone(cfg, tx, tx1, tx2, Requeued(cfg, tx2, v), c, f, kind, v);
    }
  }

  lemma PickUndone(cfg: TxConfig, tx: Tx, tx1: Tx, tx2: Tx, tx3: Tx, c: nat, f: nat, kind: Kind, v: nat)
    requires |tx.msgs| == |tx.place| && v < |tx.msgs| && tx.place[v] == Queued(kind) && tx.msgs[v].owner == c
    requires tx.msgs[v].flow == f
    requires Only(tx, tx1, v) && tx1.msgs[v] == PickedMsg(tx.msgs[v])
    requires tx2 == tx1.(conns := tx2.conns) && IdsSame(tx1, tx2)
    requires Only(tx2, tx3, v) && tx3.place[v] == Queued(kind) && tx3.msgs[v] == RequeuedMsg(tx2.msgs[v], kind)
    ensures PickOutcome(tx, tx3, c, f, kind, v, false)
  {
  }

  /** `reliable_blocked` is set when a reliable message found no number although the batch had room. */
  function Blocked(tx: Tx, c: nat): Tx
    requires c < |tx.conns|
  {
    tx.(conns := tx.conns[c := tx.conns[c].(blocked := true)])
  }

  lemma SentOwners(cfg: TxConfig, tx: Tx, tx1: Tx, k: nat)
    requires |tx.msgs| == |tx.place| && SlotsFit(cfg, tx.msgs, tx.place) && FirstSent(tx, tx1, k)
    ensures NoneNewlyOutstanding(tx, tx1)
  {
    forall v | 0 <= v < |tx.msgs|
      ensures tx1.place[v] != Free ==> tx.place[v] != Free && SameContent(tx.msgs[v], tx1.msgs[v])
      ensures IsOutstanding(tx1.place[v]) ==> IsOutstanding(tx.place[v])
    {
      assert MsgOk(cfg.maxConns, cfg.maxFlows, tx.msgs[v], tx.place[v]);
      assert SlotSentBelow(tx, tx1, k, v);
    }
  }

  lemma PutBackOwners(tx1: Tx, tx2: Tx, k: nat, e: nat)
    requires PutBackBetween(tx1, tx2, k, e)
    ensures NoneNewlyOutstanding(tx1, tx2)
  {
  }

  lemma FlushedOwners(cfg: TxConfig, tx: Tx, k: nat, now: uint64)
    requires Loose(cfg, tx, 0) && k <= |tx.batch|
    ensures NoneNewlyOutstanding(tx, BatchFlushed(cfg, tx, k, now))
  {
    var tx1 := FirstPacketsSent(cfg, tx, k, now);
    var tx2 := PacketsPutBack(cfg, k, tx1, |tx.batch|);
    SentOwners(cfg, tx, tx1, k);
    PutBackOwners(tx1, tx2, k, |tx.batch|);
  }

  /** Connection d owns no message. */
  ghost predicate OwnsNothing(tx: Tx, d: nat)
    requires |tx.place| == |tx.msgs|
  {
    forall v :: 0 <= v < |tx.msgs| && tx.place[v] != Free ==> tx.msgs[v].owner != d
  }

  lemma OwnsNothingKept(tx: Tx, tx': Tx, d: nat)
    requires OwnersKept(tx, tx') && OwnsNothing(tx, d)
    ensures OwnsNothing(tx', d)
  {
  }

  lemma NoRecordFor(cfg: TxConfig, tx: Tx, b: nat, now: uint64, d: nat)
    requires Loose(cfg, tx, b) && b < |tx.batch| && d < cfg.maxConns && OwnsNothing(tx, d)
    ensures SameNumbering(tx.conns[d], PacketSent(cfg, tx, b, now).conns[d])
    ensures OwnsNothing(PacketSent(cfg, tx, b, now), d)
  {
    NoReliableFor(cfg, tx, b, d);
    SentOwnsNothing(tx, PacketSent(cfg, tx, b, now), b, d);
  }

  lemma NoReliableFor(cfg: TxConfig, tx: Tx, b: nat, d: nat)
    requires Loose(cfg, tx, b) && b < |tx.batch| && OwnsNothing(tx, d)
    ensures HasReliable(tx, At(tx.boxes, InBatch(b))) ==> tx.batch[b].conn != d
  {
    if HasReliable(tx, At(tx.boxes, InBatch(b))) {
      var list := At(tx.boxes, InBatch(b));
      AllReliableOwned(cfg, b, tx, b);
      BatchBoxPacked(cfg, tx, b);
      assert list[0] < |tx.msgs| && tx.place[list[0]].Packed? && tx.msgs[list[0]].owner == tx.batch[b].conn;
    }
  }

  lemma SentOwnsNothing(tx: Tx, tx': Tx, b: nat, d: nat)
    requires MessagesSent(tx, tx', b) && OwnsNothing(tx, d)
    ensures OwnsNothing(tx', d)
  {
    forall v | 0 <= v < |tx.msgs| && tx'.place[v] != Free
      ensures tx'.msgs[v].owner != d
    {
      assert SlotSent(tx, tx', b, v);
    }
  }

  /** Sending does not touch the numbering of a connection that owns nothing. */
  lemma {:induction false} UntouchedBySending(cfg: TxConfig, tx: Tx, k: nat, now: uint64, d: nat, tx': Tx)
    requires Loose(cfg, tx, 0) && k <= |tx.batch| && d < cfg.maxConns && OwnsNothing(tx, d)
    requires tx' == FirstPacketsSent(cfg, tx, k, now)
    ensures SameNumbering(tx.conns[d], tx'.conns[d]) && OwnsNothing(tx', d)
    decreases k
  {
    if k > 0 {
      var b: nat := k - 1;
      var tx1 := FirstPacketsSent(cfg, tx, b, now);
      UntouchedBySending(cfg, tx, b, now, d, tx1);
      NoRecordFor(cfg, tx1, b, now, d);
      SentUnfold(cfg, tx, b, k, now);
    }
  }

  lemma ActiveSameTransitive(tx: Tx, tx1: Tx, tx2: Tx)
    requires ActiveSame(tx, tx1) && ActiveSame(tx1, tx2)
    ensures ActiveSame(tx, tx2)
  {
  }

  lemma {:induction false} ActiveSameSending(cfg: TxConfig, tx: Tx, k: nat, now: uint64, tx': Tx)
    requires Loose(cfg, tx, 0) && k <= |tx.batch| && tx' == FirstPacketsSent(cfg, tx, k, now)
    ensures ActiveSame(tx, tx')
    decreases k
  {
    if k > 0 {
      var b: nat := k - 1;
      var tx1 := FirstPacketsSent(cfg, tx, b, now);
      ActiveSameSending(cfg, tx, b, now, tx1);
      SentUnfold(cfg, tx, b, k, now);
      PacketSentActive(cfg, tx1, b, now);
      ActiveSameTransitive(tx, tx1, tx');
    }
  }

  lemma PacketSentActive(cfg: TxConfig, tx: Tx, b: nat, now: uint64)
    requires Loose(cfg, tx, b) && b < |tx.batch|
    ensures ActiveSame(tx, PacketSent(cfg, tx, b, now))
  {
    if HasReliable(tx, At(tx.boxes, InBatch(b))) {
      var tx1 := RecordOpened(cfg, tx, b, now);
      OpenedActive(cfg, tx, b, now, tx1);
      NumberedActive(tx1, PacketRecorded(cfg, tx, b, now));
      ActiveSameTransitive(tx, tx1, PacketRecorded(cfg, tx, b, now));
    } else {
      NumberedActive(tx, PacketGone(cfg, tx, b));
    }
  }

  lemma NumberedActive(tx: Tx, tx': Tx)
    requires NumberedAs(tx, tx')
    ensures ActiveSame(tx, tx')
  {
  }

  lemma OpenedActive(cfg: TxConfig, tx: Tx, b: nat, now: uint64, tx1: Tx)
    requires Loose(cfg, tx, b) && b < |tx.batch| && HasReliable(tx, At(tx.boxes, InBatch(b)))
    requires tx1 == RecordOpened(cfg, tx, b, now)
    ensures ActiveSame(tx, tx1)
  {
  }

  // ----- aborting and creating connections -------------------------------------------------------

  /** The slots of connection c from v on that are in use, in pool order. */
  function UsedOf(tx: Tx, c: nat, v: nat): (r: seq<nat>)
    requires |tx.place| == |tx.msgs|
    ensures forall w :: w in r <==> v <= w < |tx.msgs| && tx.place[w] != Free && tx.msgs[w].owner == c
    decreases |tx.msgs| - v
  {
    if v >= |tx.msgs| then []
    else (if tx.place[v] != Free && tx.msgs[v].owner == c then [v] else []) + UsedOf(tx, c, v + 1)
  }

  lemma {:induction false} UsedOfNoDup(tx: Tx, c: nat, v: nat)
    requires |tx.place| == |tx.msgs|
    ensures NoDup(UsedOf(tx, c, v))
    decreases |tx.msgs| - v
  {
    if v < |tx.msgs| { UsedOfNoDup(tx, c, v + 1); }
  }

  lemma {:induction false} UsedOfAll(tx: Tx, c: nat)
    requires |tx.place| == |tx.msgs|
    ensures AllUsed(tx, UsedOf(tx, c, 0))
  {
    UsedOfNoDup(tx, c, 0);
    var list := UsedOf(tx, c, 0);
    forall i | 0 <= i < |list|
      ensures list[i] < |tx.msgs| && tx.place[list[i]] != Free
    {
      assert list[i] in list;
    }
  }

  /** The counters of a connection that owns nothing are zero. */
  ghost predicate CountersZero(cn: ConnTx) {
    && cn.sendQueueBytes == 0 && cn.retransmitBytes == 0 && cn.inflightBytes == 0 && cn.lateAckCount == 0
    && forall f :: 0 <= f < |cn.flows| ==> cn.flows[f].queuedBytes == 0
  }

  lemma {:induction false} NothingCountedAt(cfg: TxConfig, tx: Tx, t: Tally)
    requires Core(cfg, tx) && OwnsNothing(tx, t.conn) && Kept(tx.conns, t)
    ensures Counter(tx.conns, t) == 0 == Total(t, tx.msgs, tx.place)
  {
    forall v | 0 <= v < |tx.msgs|
      ensures Weight(t, tx.msgs[v], tx.place[v]) == 0
    {
      assert MsgOk(cfg.maxConns, cfg.maxFlows, tx.msgs[v], tx.place[v]);
    }
    TotalZero(t, tx.msgs, tx.place);
  }

  lemma NothingCounted(cfg: TxConfig, tx: Tx, c: nat)
    requires Core(cfg, tx) && c < cfg.maxConns && OwnsNothing(tx, c)
    ensures CountersZero(tx.conns[c])
  {
    NothingCountedAt(cfg, tx, UnsentBytes(c));
    NothingCountedAt(cfg, tx, RetryBytes(c));
    NothingCountedAt(cfg, tx, FlightBytes(c));
    NothingCountedAt(cfg, tx, LateMsgs(c));
    forall f | 0 <= f < |tx.conns[c].flows|
      ensures tx.conns[c].flows[f].queuedBytes == 0
    {
      NothingCountedAt(cfg, tx, FlowUnsentBytes(c, f));
    }
  }

  const NoRecord := SentInfo(false, 0, 0, 0)

  function AbortedConn(cn: ConnTx): ConnTx {
    cn.(active := false, tracked := [],
        sendQueueBytes := 0, retransmitBytes := 0, inflightBytes := 0, lateAckCount := 0)
  }

  function Disconnected(cfg: TxConfig, tx: Tx, c: nat): Tx
    requires c < |tx.conns| && c < |tx.sent|
  {
    tx.(sent := tx.sent[c := seq(cfg.slots, _ => NoRecord)], conns := tx.conns[c := AbortedConn(tx.conns[c])])
  }

  /** A connection that owns nothing can be given new accounts, all zero, and an empty record table. */
  lemma ConnReplaced(cfg: TxConfig, tx: Tx, c: nat, cn: ConnTx, sent: seq<SentInfo>)
    requires Loose(cfg, tx, 0) && c < cfg.maxConns && OwnsNothing(tx, c)
    requires CountersZero(cn) && |cn.flows| == cfg.maxFlows && |cn.orderedSeq| == cfg.maxChannels
    requires |sent| == cfg.slots && forall i :: 0 <= i < cfg.slots ==> !sent[i].used || sent[i] == tx.sent[c][i]
    ensures Loose(cfg, tx.(sent := tx.sent[c := sent], conns := tx.conns[c := cn]), 0)
  {
    var tx' := tx.(sent := tx.sent[c := sent], conns := tx.conns[c := cn]);
    forall t: Tally | Kept(tx'.conns, t)
      ensures Counter(tx'.conns, t) == Total(t, tx'.msgs, tx'.place)
    {
      assert Kept(tx.conns, t);
      if t.conn == c { NothingCountedAt(cfg, tx, t); }
    }
    forall v | 0 <= v < |tx'.msgs| && tx'.place[v].Packed?
      ensures PackedSlotOk(cfg, tx', 0, v)
    {
      assert PackedSlotOk(cfg, tx, 0, v);
    }
  }

  lemma NothingLeft(tx: Tx, tx1: Tx, c: nat, list: seq<nat>)
    requires OnlyIn(tx, tx1, list) && forall v :: v in list ==> v < |tx1.place| && tx1.place[v].Free?
    requires forall v :: 0 <= v < |tx.msgs| && tx.place[v] != Free && tx.msgs[v].owner == c ==> v in list
    ensures OwnsNothing(tx1, c) && NoneNewlyOutstanding(tx, tx1)
  {
  }

  /** What is still in use is as it was, and that is everything of the other connections. */
  ghost predicate RestUntouched(tx: Tx, tx': Tx, c: nat) {
    && |tx'.msgs| == |tx.msgs| == |tx.place| == |tx'.place|
    && (forall v :: 0 <= v < |tx.msgs| && tx'.place[v] != Free ==> tx'.msgs[v] == tx.msgs[v])
    && (forall v :: 0 <= v < |tx.msgs| && tx.msgs[v].owner != c ==>
          tx'.msgs[v] == tx.msgs[v] && tx'.place[v] == tx.place[v])
  }

  /** The loop of `abort_conn_internal`: every message of the connection is freed, wherever it is. */
  ghost function AllOfConnFreed(cfg: TxConfig, tx: Tx, c: nat): (tx': Tx)
    requires Loose(cfg, tx, 0)
    ensures Loose(cfg, tx', 0) && OwnsNothing(tx', c) && NoneNewlyOutstanding(tx, tx')
    ensures OnlyIn(tx, tx', UsedOf(tx, c, 0)) && RestUntouched(tx, tx', c)
  {
    UsedOfAll(tx, c);
    var tx1 := AllFreed(cfg, 0, tx, UsedOf(tx, c, 0));
    NothingLeft(tx, tx1, c, UsedOf(tx, c, 0));
    tx1
  }

  ghost function ConnDropped(cfg: TxConfig, tx: Tx, c: nat): (tx': Tx)
    requires Loose(cfg, tx, 0) && c < cfg.maxConns && OwnsNothing(tx, c)
    ensures Loose(cfg, tx', 0) && tx' == Disconnected(cfg, tx, c)
  {
    NothingCounted(cfg, tx, c);
    ConnReplaced(cfg, tx, c, AbortedConn(tx.conns[c]), seq(cfg.slots, _ => NoRecord));
    Disconnected(cfg, tx, c)
  }

  /** `abort_conn_internal`, for the sending side. The zeros the source stores into the counters are what
      they count by then. */
  ghost function Aborted(cfg: TxConfig, tx: Tx, c: nat): (tx': Tx)
    requires Loose(cfg, tx, 0) && c < cfg.maxConns
    ensures Loose(cfg, tx', 0) && OwnsNothing(tx', c) && !tx'.conns[c].active && tx'.conns[c].tracked == []
    ensures NoneNewlyOutstanding(tx, tx') && RestUntouched(tx, tx', c) && tx'.batch == tx.batch
    ensures forall d :: 0 <= d < cfg.maxConns && d != c ==>
      SameNumbering(tx.conns[d], tx'.conns[d]) && tx'.sent[d] == tx.sent[d]
    ensures forall i :: 0 <= i < cfg.slots ==> !tx'.sent[c][i].used
  {
    ConnDropped(cfg, AllOfConnFreed(cfg, tx, c), c)
  }

  /** `create_conn_at`, for the sending side: limits are those of `init_flow`. */
  function FreshConn(cfg: TxConfig): ConnTx {
    ConnTx(true, 1, 0, [], 0, false, 0, 0, 0, 0, 1, seq(cfg.maxChannels, _ => 0), map[],
           seq(cfg.maxFlows, _ => FlowTx(0, UINT32_MAX, UINT32_MAX, 0)))
  }

  ghost function Connected(cfg: TxConfig, tx: Tx, c: nat): (tx': Tx)
    requires Loose(cfg, tx, 0) && c < cfg.maxConns && OwnsNothing(tx, c)
    ensures Loose(cfg, tx', 0) && tx' == tx.(conns := tx.conns[c := FreshConn(cfg)])
  {
    ConnReplaced(cfg, tx, c, FreshConn(cfg), tx.sent[c]);
    assert tx.sent[c := tx.sent[c]] == tx.sent;
    tx.(conns := tx.conns[c := FreshConn(cfg)])
  }
}
