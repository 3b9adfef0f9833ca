/** UNRELIABLE_SEQUENCED messages over whole runs of a receiver: on each flow and channel the numbers that reach the
    application rise, whatever else arrives, is received, expires, or belongs to other connections. */
module SequencedDelivery {
  import opened MachineWords
  import opened SerialNumbers
  import opened Receiver
  import opened DeliveryOutcomes
  import DedupWindow
  import WakeUp

  // ----- a frame, whole or in fragments ----------------------------------------------------------

  /** The message a frame belongs to, as far as its header says. */
  predicate SameHeader(a: Frame, b: Frame) {
    && a.rel == b.rel && a.flow == b.flow && a.channel == b.channel && a.channelSeq == b.channelSeq
    && a.msgId == b.msgId
  }

  predicate OnlyReasm(rx: Rx, rx': Rx) { rx' == rx.(reasm := rx'.reasm) }

  /** Processing a frame delivers a message with its header, or touches the reassembly only. */
  ghost predicate ProcessedAs(cfg: Config, rx: Rx, d: nat, f: Frame, rx': Rx) {
    || OnlyReasm(rx, rx')
    || exists rx1: Rx, whole: Frame ::
         && Shape(cfg, rx1) && OnlyReasm(rx, rx1) && SameHeader(whole, f) && d < |rx1.conns|
         && OnlyReasm(Delivered(cfg, rx1, d, whole).0, rx')
  }

  lemma CompletedAs(cfg: Config, rx: Rx, rx1: Rx, d: nat, f: Frame, k: nat)
    requires Shape(cfg, rx1) && OnlyReasm(rx, rx1) && d < |rx1.conns| && k < |rx1.reasm|
    requires var s := rx1.reasm[k];
      s.rel == f.rel && s.flow == f.flow && s.channel == f.channel && s.channelSeq == f.channelSeq && s.msgId == f.msgId
    ensures ProcessedAs(cfg, rx, d, f, Completed(cfg, rx1, d, k).0)
  {
    var s := rx1.reasm[k];
    var whole := Frame(s.rel, s.flow, s.msgId, 0, s.fragCount, s.channel, s.channelSeq, s.data[..s.totalLen]);
    assert SameHeader(whole, f);
  }

  lemma AddedAs(cfg: Config, rx: Rx, rx1: Rx, d: nat, f: Frame, k: nat)
    requires Shape(cfg, rx1) && OnlyReasm(rx, rx1) && d < |rx1.conns| && k < |rx1.reasm|
    requires f.fragIndex < MAX_FRAGS && f.fragIndex * cfg.framePayload + |f.payload| <= cfg.maxPayload
    requires rx1.reasm[k].msgId == f.msgId
    ensures ProcessedAs(cfg, rx, d, f, FragmentAdded(cfg, rx1, d, f, k).0)
  {
    var s := rx1.reasm[k];
    if (s.fragCount == f.fragCount && s.flow == f.flow && s.channel == f.channel && s.channelSeq == f.channelSeq
        && s.rel == f.rel) {
      if s.received[f.fragIndex] {
        if s.receivedCount == s.fragCount { CompletedAs(cfg, rx, rx1, d, f, k); }
      } else {
        var rx2 := rx1.(reasm := rx1.reasm[k := Stored(cfg, s, f)]);
        if rx2.reasm[k].receivedCount == s.fragCount { CompletedAs(cfg, rx, rx2, d, f, k); }
      }
    }
  }

  lemma ProcessedIs(cfg: Config, rx: Rx, d: nat, f: Frame, now: uint64)
    requires Shape(cfg, rx) && d < |rx.conns|
    ensures ProcessedAs(cfg, rx, d, f, Processed(cfg, rx, d, f, now).0)
  {
    if f.fragCount == 0 || f.fragIndex >= f.fragCount || f.fragCount > MAX_FRAGS { return; }
    if f.fragCount == 1 {
      assert SameHeader(f, f) && OnlyReasm(rx, rx);
      return;
    }
    if f.fragIndex * cfg.framePayload + |f.payload| > cfg.maxPayload { return; }
    if IsReliable(f.rel) && DedupWindow.Seen(rx.conns[d].dedup, f.msgId) { return; }
    var (rx1, k) := OpenReasm(cfg, rx, d, f, now);
    if k < |rx1.reasm| { AddedAs(cfg, rx, rx1, d, f, k); }
  }

  // ----- one flow and channel --------------------------------------------------------------------

  predicate On(f: Frame, flow: nat, channel: nat) {
    f.rel == UnreliableSequenced && f.flow == flow && f.channel == channel
  }

  /** How many sequenced events of the flow and channel are in the history. */
  function Logged(log: seq<LogEntry>, flow: nat, channel: nat): nat {
    if log == [] then 0
    else
      var ev := log[|log| - 1].ev;
      Logged(log[..|log| - 1], flow, channel) +
      (if ev.rel == UnreliableSequenced && ev.flow == flow && ev.channel == channel then 1 else 0)
  }

  lemma {:induction false} LoggedMore(log: seq<LogEntry>, e: LogEntry, flow: nat, channel: nat)
    ensures Logged(log + [e], flow, channel) == Logged(log, flow, channel) +
      (if e.ev.rel == UnreliableSequenced && e.ev.flow == flow && e.ev.channel == channel then 1 else 0)
  {
    assert (log + [e])[..|log|] == log;
  }

  /** Only ordered messages are held. */
  predicate HoldsOrdered(rx: Rx) {
    forall i :: 0 <= i < |rx.holds| && rx.holds[i].Some? ==> rx.holds[i].value.rel == ReliableOrdered
  }

  /** Nothing that concerns the flow and channel changed on any connection. */
  ghost predicate Quiet(rx: Rx, rx': Rx, flow: nat, channel: nat) {
    && HoldsOrdered(rx') && |rx'.conns| == |rx.conns|
    && forall d :: 0 <= d < |rx.conns| ==> ConnQuiet(rx.conns[d], rx'.conns[d], flow, channel)
  }

  predicate ConnQuiet(cn: ConnRx, cn': ConnRx, flow: nat, channel: nat) {
    && Logged(cn'.log, flow, channel) == Logged(cn.log, flow, channel)
    && ((flow, channel) in cn'.latest <==> (flow, channel) in cn.latest)
    && ((flow, channel) in cn.latest ==> cn'.latest[(flow, channel)] == cn.latest[(flow, channel)])
  }

  lemma QuietTransitive(a: Rx, b: Rx, d: Rx, flow: nat, channel: nat)
    requires Quiet(a, b, flow, channel) && Quiet(b, d, flow, channel)
    ensures Quiet(a, d, flow, channel)
  {
    forall e | 0 <= e < |a.conns|
      ensures ConnQuiet(a.conns[e], d.conns[e], flow, channel)
    {
      assert ConnQuiet(a.conns[e], b.conns[e], flow, channel) && ConnQuiet(b.conns[e], d.conns[e], flow, channel);
    }
  }

  lemma {:induction false} EnqueuedQuiet(cfg: Config, rx: Rx, ev: Event, id: uint32, flow: nat, channel: nat)
    requires HoldsOrdered(rx) && ev.conn < |rx.conns|
    requires ev.rel == UnreliableSequenced ==> ev.flow != flow || ev.channel != channel
    ensures Quiet(rx, Enqueued(cfg, rx, ev, id).0, flow, channel)
  {
    LoggedMore(rx.conns[ev.conn].log, LogEntry(ev, id), flow, channel);
  }

  lemma Drained1Quiet(cfg: Config, rx: Rx, d: nat, ch: nat, i: nat, flow: nat, channel: nat)
    requires Shape(cfg, rx) && d < |rx.conns| && ch < cfg.maxChannels && HoldsOrdered(rx)
    requires i < |rx.holds| && rx.holds[i].Some? && |rx.queue| < cfg.maxRecvEvents
    ensures Quiet(rx, Drained1(cfg, rx, d, ch, i), flow, channel)
  {
    var h := rx.holds[i].value;
    var rx1 := Enqueued(cfg, rx, Event(d, h.flow, h.channel, h.rel, h.payload), h.msgId).0;
    EnqueuedQuiet(cfg, rx, Event(d, h.flow, h.channel, h.rel, h.payload), h.msgId, flow, channel);
    var rx2 := Drained1(cfg, rx, d, ch, i);
    forall e | 0 <= e < |rx.conns|
      ensures ConnQuiet(rx.conns[e], rx2.conns[e], flow, channel)
    {
      assert ConnQuiet(rx.conns[e], rx1.conns[e], flow, channel);
    }
  }

  lemma {:induction false} DrainedQuiet(cfg: Config, rx: Rx, d: nat, ch: nat, flow: nat, channel: nat)
    requires Shape(cfg, rx) && d < |rx.conns| && ch < cfg.maxChannels && HoldsOrdered(rx)
    ensures Quiet(rx, Drained(cfg, rx, d, ch), flow, channel)
    decreases HoldCount(rx.holds)
  {
    var i := FirstHold(rx.holds, d, ch, rx.conns[d].expected[ch]);
    if i < |rx.holds| && |rx.queue| < cfg.maxRecvEvents {
      HoldCountUpdate(rx.holds, i, None);
      var rx1 := Drained1(cfg, rx, d, ch, i);
      Drained1Quiet(cfg, rx, d, ch, i, flow, channel);
      DrainedQuiet(cfg, rx1, d, ch, flow, channel);
      QuietTransitive(rx, rx1, Drained(cfg, rx1, d, ch), flow, channel);
    }
  }

  lemma {:induction false} DrainedFromQuiet(cfg: Config, rx: Rx, d: nat, k: nat, flow: nat, channel: nat)
    requires Shape(cfg, rx) && d < |rx.conns| && k <= cfg.maxChannels && HoldsOrdered(rx)
    ensures Quiet(rx, DrainedFrom(cfg, rx, d, k), flow, channel)
    decreases cfg.maxChannels - k
  {
    if k < cfg.maxChannels && |rx.queue| < cfg.maxRecvEvents {
      var rx1 := Drained(cfg, rx, d, k);
      DrainedQuiet(cfg, rx, d, k, flow, channel);
      DrainedFromQuiet(cfg, rx1, d, k + 1, flow, channel);
      QuietTransitive(rx, rx1, DrainedFrom(cfg, rx1, d, k + 1), flow, channel);
    }
  }

  lemma OrderedQuiet(cfg: Config, rx: Rx, d: nat, f: Frame, flow: nat, channel: nat)
    requires Shape(cfg, rx) && d < |rx.conns| && HoldsOrdered(rx) && f.channel < cfg.maxChannels
    requires f.rel == ReliableOrdered
    ensures Quiet(rx, DeliveredOrdered(cfg, rx, d, f).0, flow, channel)
  {
    var expected := rx.conns[d].expected[f.channel];
    if f.channelSeq == expected {
      var (rx1, ok) := Enqueued(cfg, rx, FrameEvent(d, f), f.msgId);
      EnqueuedQuiet(cfg, rx, FrameEvent(d, f), f.msgId, flow, channel);
      if ok {
        var rx2 := Advanced(cfg, MarkedSeen(rx1, d, f.msgId), d, f.channel);
        NumberingQuiet(rx, rx1, rx2, flow, channel);
        DrainedQuiet(cfg, rx2, d, f.channel, flow, channel);
        QuietTransitive(rx, rx2, Drained(cfg, rx2, d, f.channel), flow, channel);
      }
    }
  }

  /** Marking ids and advancing ordered numbers do not concern the flow and channel. */
  lemma NumberingQuiet(rx: Rx, rx1: Rx, rx2: Rx, flow: nat, channel: nat)
    requires Quiet(rx, rx1, flow, channel) && rx2.holds == rx1.holds && |rx2.conns| == |rx1.conns|
    requires forall d :: 0 <= d < |rx1.conns| ==>
      rx2.conns[d].log == rx1.conns[d].log && rx2.conns[d].latest == rx1.conns[d].latest
    ensures Quiet(rx, rx2, flow, channel)
  {
    forall d | 0 <= d < |rx.conns|
      ensures ConnQuiet(rx.conns[d], rx2.conns[d], flow, channel)
    {
      assert ConnQuiet(rx.conns[d], rx1.conns[d], flow, channel);
    }
  }

  lemma UnorderedQuiet(cfg: Config, rx: Rx, d: nat, f: Frame, flow: nat, channel: nat)
    requires Shape(cfg, rx) && d < |rx.conns| && HoldsOrdered(rx) && f.rel == ReliableUnordered
    ensures Quiet(rx, DeliveredUnordered(cfg, rx, d, f).0, flow, channel)
  {
    var (rx1, ok) := Enqueued(cfg, rx, FrameEvent(d, f), f.msgId);
    EnqueuedQuiet(cfg, rx, FrameEvent(d, f), f.msgId, flow, channel);
    if ok { NumberingQuiet(rx, rx1, MarkedSeen(rx1, d, f.msgId), flow, channel); }
  }

  lemma {:induction false} SequencedQuiet(cfg: Config, rx: Rx, d: nat, f: Frame, flow: nat, channel: nat)
    requires Shape(cfg, rx) && d < |rx.conns| && HoldsOrdered(rx) && f.rel == UnreliableSequenced
    requires f.flow != flow || f.channel != channel
    ensures Quiet(rx, DeliveredSequenced(cfg, rx, d, f).0, flow, channel)
  {
    var rx1 := rx.(conns := rx.conns[d := rx.conns[d].(latest :=
      rx.conns[d].latest[(f.flow, f.channel) := f.channelSeq])]);
    assert Quiet(rx, rx1, flow, channel);
    EnqueuedQuiet(cfg, rx1, FrameEvent(d, f), f.msgId, flow, channel);
    QuietTransitive(rx, rx1, Enqueued(cfg, rx1, FrameEvent(d, f), f.msgId).0, flow, channel);
  }

  /** Delivering any message that is not a sequenced one of the flow and channel. */
  lemma DeliveredQuiet(cfg: Config, rx: Rx, d: nat, f: Frame, flow: nat, channel: nat)
    requires Shape(cfg, rx) && d < |rx.conns| && HoldsOrdered(rx) && !On(f, flow, channel)
    ensures Quiet(rx, Delivered(cfg, rx, d, f).0, flow, channel)
  {
    if f.flow >= cfg.maxFlows || f.channel >= cfg.maxChannels { return; }
    match f.rel
    case Unreliable => EnqueuedQuiet(cfg, rx, FrameEvent(d, f), f.msgId, flow, channel);
    case UnreliableSequenced => SequencedQuiet(cfg, rx, d, f, flow, channel);
    case ReliableUnordered => UnorderedQuiet(cfg, rx, d, f, flow, channel);
    case ReliableOrdered => OrderedQuiet(cfg, rx, d, f, flow, channel);
  }

  // ----- runs ------------------------------------------------------------------------------------

  /** The receiver; the number let through last on the flow and channel of connection c; and the numbers of all
      sequenced messages of theirs that were put into the queue. */
  datatype Hist = Hist(rx: Rx, top: Option<int>, passed: seq<int>)

  /** A frame of connection d arrives, with the number that its 16 bits stand for; the application receives; reassembly
      expires; connection d ends. */
  datatype Op = Arrive(d: nat, f: Frame, n: int, now: uint64) | Receive | Expire(now: uint64) | Abort(d: nat)

  /** The 16 bits stand for a number less than 2^15 away from the one let through last. */
  predicate Near(top: Option<int>, f: Frame, n: int) {
    f.channelSeq == Wrap16(n) && (top.Some? ==> -HALF_16 <= n - top.value < HALF_16)
  }

  ghost predicate Step(cfg: Config, c: nat, flow: nat, channel: nat, h: Hist, op: Op, h': Hist) {
    && Shape(cfg, h.rx) && c < |h.rx.conns| == |h'.rx.conns|
    && match op
       case Arrive(d, f, n, now) =>
         && d < |h.rx.conns| && h'.rx == Processed(cfg, h.rx, d, f, now).0
         && (if d == c && On(f, flow, channel) then
               && Near(h.top, f, n)
               && h'.top == (if h'.rx.conns[c].latest == h.rx.conns[c].latest then h.top else Some(n))
               && h'.passed == (if h'.rx.conns[c].log == h.rx.conns[c].log then h.passed else h.passed + [n])
             else h'.top == h.top && h'.passed == h.passed)
       case Receive =>
         && h.rx.queue != [] && h.rx.queue[0].conn < |h.rx.conns|
         && h' == h.(rx := Received(cfg, h.rx))
       case Expire(now) => h' == h.(rx := Expired(h.rx, now))
       case Abort(d) => d != c && h' == h.(rx := WakeUp.Aborted(h.rx, d))
  }

  predicate Rising(s: seq<int>) { forall i, k :: 0 <= i < k < |s| ==> s[i] < s[k] }

  /** The numbers put into the queue rise, up to the one let through last; and they are all the sequenced events there
      were on the flow and channel. */
  ghost predicate Inv(cfg: Config, c: nat, flow: nat, channel: nat, h: Hist) {
    && Shape(cfg, h.rx) && HoldsOrdered(h.rx) && LatestIs(h.rx, c, flow, channel, h.top)
    && Rising(h.passed) && (h.passed != [] ==> h.top.Some? && h.passed[|h.passed| - 1] <= h.top.value)
    && Logged(h.rx.conns[c].log, flow, channel) == |h.passed|
  }

  /** A step that does not concern the flow and channel. */
  lemma QuietKeeps(cfg: Config, c: nat, flow: nat, channel: nat, h: Hist, rx': Rx)
    requires Inv(cfg, c, flow, channel, h) && Shape(cfg, rx') && Quiet(h.rx, rx', flow, channel)
    ensures Inv(cfg, c, flow, channel, h.(rx := rx'))
  {
    assert ConnQuiet(h.rx.conns[c], rx'.conns[c], flow, channel);
  }

  lemma OtherFrameKeeps(cfg: Config, c: nat, flow: nat, channel: nat, h: Hist, d: nat, f: Frame, now: uint64)
    requires Inv(cfg, c, flow, channel, h) && d < |h.rx.conns| && !On(f, flow, channel)
    ensures Inv(cfg, c, flow, channel, h.(rx := Processed(cfg, h.rx, d, f, now).0))
  {
    var rx' := Processed(cfg, h.rx, d, f, now).0;
    ProcessedIs(cfg, h.rx, d, f, now);
    if OnlyReasm(h.rx, rx') {
      QuietKeeps(cfg, c, flow, channel, h, rx');
    } else {
      var rx1: Rx, whole: Frame :| Shape(cfg, rx1) && OnlyReasm(h.rx, rx1) && SameHeader(whole, f) && d < |rx1.conns|
                                   && OnlyReasm(Delivered(cfg, rx1, d, whole).0, rx');
      DeliveredQuiet(cfg, rx1, d, whole, flow, channel);
      var rx2 := Delivered(cfg, rx1, d, whole).0;
      forall e | 0 <= e < |h.rx.conns|
        ensures ConnQuiet(h.rx.conns[e], rx'.conns[e], flow, channel)
      {
        assert ConnQuiet(rx1.conns[e], rx2.conns[e], flow, channel);
      }
      QuietKeeps(cfg, c, flow, channel, h, rx');
    }
  }

  lemma OtherConnKeeps(cfg: Config, c: nat, flow: nat, channel: nat, h: Hist, d: nat, f: Frame, now: uint64)
    requires Inv(cfg, c, flow, channel, h) && d < |h.rx.conns| && d != c && On(f, flow, channel)
    ensures Inv(cfg, c, flow, channel, h.(rx := Processed(cfg, h.rx, d, f, now).0))
  {
    ProcessedIs(cfg, h.rx, d, f, now);
  }

  /** A sequenced message of the flow and channel, complete. */
  lemma WholeKeeps(cfg: Config, c: nat, flow: nat, channel: nat, h: Hist, rx1: Rx, whole: Frame, n: int, rx': Rx,
                   h': Hist)
    requires Inv(cfg, c, flow, channel, h) && On(whole, flow, channel) && Near(h.top, whole, n)
    requires Shape(cfg, rx1) && OnlyReasm(h.rx, rx1) && OnlyReasm(Delivered(cfg, rx1, c, whole).0, rx')
    requires Shape(cfg, rx')
    requires h' == Hist(rx', if rx'.conns[c].latest == h.rx.conns[c].latest then h.top else Some(n),
                        if rx'.conns[c].log == h.rx.conns[c].log then h.passed else h.passed + [n])
    ensures Inv(cfg, c, flow, channel, h')
  {
    if InRange(cfg, whole) {
      SequencedOutcome(cfg, rx1, c, whole, n, h.top);
      if h.top.Some? { After16Exact(n, h.top.value); }
      LoggedMore(rx1.conns[c].log, LogEntry(EventOf(c, whole), whole.msgId), flow, channel);
    }
  }

  lemma OwnFrameKeeps(cfg: Config, c: nat, flow: nat, channel: nat, h: Hist, f: Frame, n: int, now: uint64, h': Hist)
    requires Inv(cfg, c, flow, channel, h) && On(f, flow, channel)
    requires Step(cfg, c, flow, channel, h, Arrive(c, f, n, now), h')
    ensures Inv(cfg, c, flow, channel, h')
  {
    ProcessedIs(cfg, h.rx, c, f, now);
    if !OnlyReasm(h.rx, h'.rx) {
      var rx1: Rx, whole: Frame :| Shape(cfg, rx1) && OnlyReasm(h.rx, rx1) && SameHeader(whole, f) && c < |rx1.conns|
                                   && OnlyReasm(Delivered(cfg, rx1, c, whole).0, h'.rx);
      WholeKeeps(cfg, c, flow, channel, h, rx1, whole, n, h'.rx, h');
    }
  }

  lemma StepKeeps(cfg: Config, c: nat, flow: nat, channel: nat, h: Hist, op: Op, h': Hist)
    requires Inv(cfg, c, flow, channel, h) && Step(cfg, c, flow, channel, h, op, h')
    ensures Inv(cfg, c, flow, channel, h')
  {
    match op
    case Arrive(d, f, n, now) =>
      if !On(f, flow, channel) {
        OtherFrameKeeps(cfg, c, flow, channel, h, d, f, now);
      } else if d != c {
        OtherConnKeeps(cfg, c, flow, channel, h, d, f, now);
      } else {
        OwnFrameKeeps(cfg, c, flow, channel, h, f, n, now, h');
      }
    case Receive =>
      var rx1 := h.rx.(queue := h.rx.queue[1..]);
      DrainedFromQuiet(cfg, rx1, h.rx.queue[0].conn, 0, flow, channel);
      QuietKeeps(cfg, c, flow, channel, h.(rx := rx1), h'.rx);
    case Expire(now) => QuietKeeps(cfg, c, flow, channel, h, h'.rx);
    case Abort(d) => QuietKeeps(cfg, c, flow, channel, h, h'.rx);
  }

  /** Connection c is new: nothing was let through on the flow and channel. */
  ghost predicate Begins(cfg: Config, c: nat, flow: nat, channel: nat, h: Hist) {
    && Shape(cfg, h.rx) && HoldsOrdered(h.rx) && LatestIs(h.rx, c, flow, channel, None)
    && h.rx.conns[c].log == [] && h.top == None && h.passed == []
  }

  ghost predicate Run(cfg: Config, c: nat, flow: nat, channel: nat, hs: seq<Hist>, ops: seq<Op>) {
    && |hs| == |ops| + 1 && Begins(cfg, c, flow, channel, hs[0])
    && forall i :: 0 <= i < |ops| ==> Step(cfg, c, flow, channel, hs[i], ops[i], hs[i + 1])
  }

  /** In every state of every run the numbers of the sequenced messages of a flow and channel that were put into the
      queue rise: none is put there twice, and none after a later one. */
  lemma {:induction false} NumbersRise(cfg: Config, c: nat, flow: nat, channel: nat, hs: seq<Hist>, ops: seq<Op>,
                                       i: nat)
    requires Run(cfg, c, flow, channel, hs, ops) && i < |hs|
    ensures Inv(cfg, c, flow, channel, hs[i])
  {
    if i > 0 {
      var b: nat := i - 1;
      NumbersRise(cfg, c, flow, channel, hs, ops, b);
      assert Step(cfg, c, flow, channel, hs[b], ops[b], hs[b + 1]);
      StepKeeps(cfg, c, flow, channel, hs[b], ops[b], hs[i]);
    }
  }

  /** In a run, an unfragmented sequenced message that is later than all that came before is put into the queue if there
      is room there, and one that is not changes nothing. */
  lemma NewestPasses(cfg: Config, c: nat, flow: nat, channel: nat, hs: seq<Hist>, ops: seq<Op>, i: nat)
    requires Run(cfg, c, flow, channel, hs, ops) && i < |ops| && ops[i].Arrive? && ops[i].d == c
    requires var f := ops[i].f;
      && On(f, flow, channel) && InRange(cfg, f) && f.fragCount == 1 && f.fragIndex == 0
      && |f.payload| <= cfg.framePayload && |f.payload| <= cfg.maxPayload
    ensures var h, h', f, n := hs[i], hs[i + 1], ops[i].f, ops[i].n;
      if h.top.Some? && n <= h.top.value then h' == h
      else
        && h'.top == Some(n) && (h.passed != [] ==> h.passed[|h.passed| - 1] < n)
        && (if Room(cfg, h.rx, f) then h'.rx.queue == h.rx.queue + [EventOf(c, f)] && h'.passed == h.passed + [n]
            else h'.rx.queue == h.rx.queue && h'.passed == h.passed)
  {
    NumbersRise(cfg, c, flow, channel, hs, ops, i);
    assert Step(cfg, c, flow, channel, hs[i], ops[i], hs[i + 1]);
    SequencedOutcome(cfg, hs[i].rx, c, ops[i].f, ops[i].n, hs[i].top);
    if hs[i].top.Some? { After16Exact(ops[i].n, hs[i].top.value); }
  }
}
