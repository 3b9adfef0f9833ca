/** What becomes of one message at the receiver, kind by kind: when it is put into the queue, when it is kept, refused
    or ignored, and what changes with it. Numbers are compared as unbounded ones. */
module DeliveryOutcomes {
  import opened MachineWords
  import opened SerialNumbers
  import opened Receiver
  import DedupWindow

  /** There is room for the message in the queue. */
  predicate Room(cfg: Config, rx: Rx, f: Frame) {
    |rx.queue| < cfg.maxRecvEvents && |f.payload| <= cfg.maxPayload
  }

  function EventOf(c: nat, f: Frame): Event { Event(c, f.flow, f.channel, f.rel, f.payload) }

  /** The queue, and the history of connection c, have the message as their last event. */
  predicate Appended(rx: Rx, rx': Rx, c: nat, f: Frame) {
    && c < |rx.conns| == |rx'.conns|
    && rx'.queue == rx.queue + [EventOf(c, f)]
    && rx'.conns[c].log == rx.conns[c].log + [LogEntry(EventOf(c, f), f.msgId)]
  }

  predicate InRange(cfg: Config, f: Frame) { f.flow < cfg.maxFlows && f.channel < cfg.maxChannels }

  // ----- unreliable ------------------------------------------------------------------------------

  /** Outside the configured flows and channels nothing is delivered. */
  lemma OutOfRange(cfg: Config, rx: Rx, c: nat, f: Frame)
    requires Shape(cfg, rx) && c < |rx.conns| && !InRange(cfg, f)
    ensures Delivered(cfg, rx, c, f) == (rx, false)
  {
  }

  lemma UnreliableOutcome(cfg: Config, rx: Rx, c: nat, f: Frame)
    requires Shape(cfg, rx) && c < |rx.conns| && InRange(cfg, f) && f.rel == Unreliable
    ensures var (rx', ok) := Delivered(cfg, rx, c, f);
      && ok == Room(cfg, rx, f)
      && (if ok then Appended(rx, rx', c, f) && rx' == rx.(queue := rx'.queue,
                       conns := rx.conns[c := rx.conns[c].(log := rx'.conns[c].log)])
          else rx' == rx)
  {
  }

  // ----- reliable --------------------------------------------------------------------------------

  /** A reliable message not seen before is enqueued if there is room, and then is seen. */
  lemma UnorderedOutcome(cfg: Config, rx: Rx, c: nat, f: Frame)
    requires Shape(cfg, rx) && c < |rx.conns| && InRange(cfg, f) && f.rel == ReliableUnordered
    ensures var (rx', ok) := Delivered(cfg, rx, c, f);
      if DedupWindow.Seen(rx.conns[c].dedup, f.msgId) then rx' == rx && ok
      else if Room(cfg, rx, f) then
        && ok && Appended(rx, rx', c, f) && rx'.holds == rx.holds
        && rx'.conns[c].dedup == DedupWindow.Marked(rx.conns[c].dedup, f.msgId)
        && rx'.conns[c].expected == rx.conns[c].expected && rx'.conns[c].latest == rx.conns[c].latest
      else rx' == rx && !ok
  {
  }

  /** Some hold has this number of the connection's channel. */
  predicate HoldWith(rx: Rx, c: nat, f: Frame) {
    exists i :: 0 <= i < |rx.holds| && HoldMatches(rx.holds[i], c, f.channel, f.channelSeq)
  }

  /** The first hold with its number is the message itself. */
  predicate HoldOf(rx: Rx, c: nat, f: Frame) {
    exists i :: 0 <= i < |rx.holds| && HoldMatches(rx.holds[i], c, f.channel, f.channelSeq)
                && rx.holds[i].value.msgId == f.msgId
                && forall k :: 0 <= k < i ==> !HoldMatches(rx.holds[k], c, f.channel, f.channelSeq)
  }

  predicate HoldFree(rx: Rx) { exists i :: 0 <= i < |rx.holds| && rx.holds[i] == None }

  /** Exactly one hold more, the one of the message. */
  predicate NowHeld(rx: Rx, rx': Rx, c: nat, f: Frame) {
    exists i :: 0 <= i < |rx.holds| && rx.holds[i] == None && rx'.holds == rx.holds[i :=
      Some(Hold(c, f.msgId, f.flow, f.channel, f.channelSeq, f.rel, f.payload))]
  }

  /** An ordered message with number n on a channel that expects number e: one that was passed is ignored; the expected
      one is enqueued if there is room, and the channel goes on; one ahead is held if its number is not and there is a
      free hold, and counts as handled if it is held already. */
  lemma OrderedOutcome(cfg: Config, rx: Rx, c: nat, f: Frame, n: int, e: int)
    requires Shape(cfg, rx) && c < |rx.conns| && InRange(cfg, f) && f.rel == ReliableOrdered
    requires f.channelSeq == Wrap16(n) && rx.conns[c].expected[f.channel] == Wrap16(e) && -HALF_16 <= n - e < HALF_16
    requires !DedupWindow.Seen(rx.conns[c].dedup, f.msgId)
    ensures var (rx', ok) := Delivered(cfg, rx, c, f);
      if n < e then rx' == rx && ok
      else if n == e then
        if Room(cfg, rx, f) then
          && ok && rx.queue + [EventOf(c, f)] <= rx'.queue
          && exists rx1 :: Appended(rx, rx1, c, f) && NextExpected(rx, rx1, c, f, e)
                           && Shape(cfg, rx1) && rx' == Drained(cfg, rx1, c, f.channel)
        else rx' == rx && !ok
      else if |f.payload| <= cfg.maxPayload && !HoldWith(rx, c, f) && HoldFree(rx) then
        && ok && rx'.queue == rx.queue && NowHeld(rx, rx', c, f)
        && rx'.conns[c].dedup == DedupWindow.Marked(rx.conns[c].dedup, f.msgId)
        && rx'.conns[c].expected == rx.conns[c].expected && rx'.conns[c].log == rx.conns[c].log
      else if |f.payload| <= cfg.maxPayload && HoldOf(rx, c, f) then
        && ok && rx' == rx.(conns := rx.conns[c := rx.conns[c].(dedup := rx'.conns[c].dedup)])
        && rx'.conns[c].dedup == DedupWindow.Marked(rx.conns[c].dedup, f.msgId)
      else rx' == rx && !ok
  {
    After16Exact(n, e);
    if n == e && Room(cfg, rx, f) {
      ExpectedOutcome(cfg, rx, c, f, e);
    } else if n > e {
      AheadOutcome(cfg, rx, c, f);
    }
  }

  /** The channel expects the next number, and the id is seen. */
  ghost predicate NextExpected(rx: Rx, rx1: Rx, c: nat, f: Frame, e: int) {
    && c < |rx.conns| == |rx1.conns| && f.channel < |rx.conns[c].expected| && DedupWindow.Sized(rx.conns[c].dedup)
    && rx1.conns[c].expected == rx.conns[c].expected[f.channel := Wrap16(e + 1)] && rx1.holds == rx.holds
    && rx1.conns[c].dedup == DedupWindow.Marked(rx.conns[c].dedup, f.msgId)
  }

  lemma ExpectedOutcome(cfg: Config, rx: Rx, c: nat, f: Frame, e: int)
    requires Shape(cfg, rx) && c < |rx.conns| && InRange(cfg, f) && f.rel == ReliableOrdered && Room(cfg, rx, f)
    requires f.channelSeq == rx.conns[c].expected[f.channel] == Wrap16(e)
    ensures var (rx', ok) := DeliveredOrdered(cfg, rx, c, f);
      && ok && rx.queue + [EventOf(c, f)] <= rx'.queue
      && exists rx1 :: Appended(rx, rx1, c, f) && NextExpected(rx, rx1, c, f, e)
                       && Shape(cfg, rx1) && rx' == Drained(cfg, rx1, c, f.channel)
  {
    var (rx0, ok) := Enqueued(cfg, rx, FrameEvent(c, f), f.msgId);
    var rx1 := Advanced(cfg, MarkedSeen(rx0, c, f.msgId), c, f.channel);
    Inc16Wraps(e);
    assert Appended(rx, rx1, c, f) && NextExpected(rx, rx1, c, f, e);
    DrainedAppends(cfg, rx1, c, f.channel);
  }

  lemma {:induction false} DrainedAppends(cfg: Config, rx: Rx, c: nat, channel: nat)
    requires Shape(cfg, rx) && c < |rx.conns| && channel < cfg.maxChannels
    ensures rx.queue <= Drained(cfg, rx, c, channel).queue
    decreases HoldCount(rx.holds)
  {
    var i := FirstHold(rx.holds, c, channel, rx.conns[c].expected[channel]);
    if i < |rx.holds| && |rx.queue| < cfg.maxRecvEvents {
      HoldCountUpdate(rx.holds, i, None);
      DrainedAppends(cfg, Drained1(cfg, rx, c, channel, i), c, channel);
    }
  }

  lemma AheadOutcome(cfg: Config, rx: Rx, c: nat, f: Frame)
    requires Shape(cfg, rx) && c < |rx.conns|
    ensures var (rx', ok) := Held(cfg, rx, c, f);
      if |f.payload| <= cfg.maxPayload && !HoldWith(rx, c, f) && HoldFree(rx) then
        ok && NowHeld(rx, rx', c, f) && rx' == rx.(holds := rx'.holds)
      else rx' == rx && (ok <==> |f.payload| <= cfg.maxPayload && HoldOf(rx, c, f))
  {
    var same, free := FirstHold(rx.holds, c, f.channel, f.channelSeq), FirstFree(rx.holds);
    if HoldWith(rx, c, f) { assert same < |rx.holds|; }
    if HoldFree(rx) { assert free < |rx.holds|; }
  }

  // ----- sequenced -------------------------------------------------------------------------------

  /** The latest number let through on a flow and channel, None if there was none. */
  predicate LatestIs(rx: Rx, c: nat, flow: nat, channel: nat, top: Option<int>) {
    && c < |rx.conns|
    && ((flow, channel) in rx.conns[c].latest <==> top.Some?)
    && (top.Some? ==> rx.conns[c].latest[(flow, channel)] == Wrap16(top.value))
  }

  /** A sequenced message with number n: one that is not after the latest is ignored; any other becomes the latest,
      and is enqueued if there is room. */
  lemma SequencedOutcome(cfg: Config, rx: Rx, c: nat, f: Frame, n: int, top: Option<int>)
    requires Shape(cfg, rx) && c < |rx.conns| && InRange(cfg, f) && f.rel == UnreliableSequenced
    requires LatestIs(rx, c, f.flow, f.channel, top) && f.channelSeq == Wrap16(n)
    requires top.Some? ==> -HALF_16 <= n - top.value < HALF_16
    ensures var (rx', ok) := Delivered(cfg, rx, c, f);
      && ok
      && (if top.Some? && n <= top.value then rx' == rx
          else
            && LatestIs(rx', c, f.flow, f.channel, Some(n))
            && (if Room(cfg, rx, f) then Appended(rx, rx', c, f)
                else rx'.queue == rx.queue && rx'.conns[c].log == rx.conns[c].log)
            && rx' == rx.(queue := rx'.queue, conns := rx.conns[c := rx.conns[c].(log := rx'.conns[c].log,
                            latest := rx.conns[c].latest[(f.flow, f.channel) := f.channelSeq])]))
  {
    if top.Some? { After16Exact(n, top.value); }
  }

  // ----- expiry ----------------------------------------------------------------------------------

  /** A slot opened at a time expires exactly when the time to live has passed, the sum cut at the largest time there
      is; expiry changes nothing else. */
  lemma ExpiryOutcome(cfg: Config, rx: Rx, c: nat, f: Frame, since: uint64, k: nat, rx1: Rx, now: uint64)
    requires Shape(cfg, rx) && OpenReasm(cfg, rx, c, f, since) == (rx1, k) && k < |rx.reasm| && !rx.reasm[k].used
    requires 0 < cfg.reasmTtl
    ensures var due := if since + cfg.reasmTtl > UINT64_MAX then UINT64_MAX else since + cfg.reasmTtl;
      && rx1.reasm[k].used && rx1.reasm[k].deadline == due
      && |Expired(rx1, now).reasm| == |rx.reasm| && (Expired(rx1, now).reasm[k].used <==> now < due)
      && Expired(rx1, now) == rx1.(reasm := Expired(rx1, now).reasm)
      && forall i :: 0 <= i < |rx.reasm| ==> Expired(rx1, now).reasm[i].(used := true) == rx1.reasm[i].(used := true)
  {
  }
}
