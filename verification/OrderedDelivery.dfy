/** What the receiver knows about one connection, related to the messages the peer's `rudp_send`
    accepted on it: the order invariant of the receive log, the hold table and the duplicate window,
    and its preservation by the delivery of one complete message. */
module OrderedDelivery {
  import opened MachineWords
  import opened SerialNumbers
  import opened Receiver
  import opened SentMessages
  import DedupWindow

  ghost function LogIds(log: seq<LogEntry>): set<uint32> {
    set i | 0 <= i < |log| && IsReliable(log[i].ev.rel) :: log[i].msgId
  }

  ghost function HoldIds(holds: seq<Option<Hold>>, c: nat): set<uint32> {
    set i | 0 <= i < |holds| && holds[i].Some? && holds[i].value.conn == c :: holds[i].value.msgId
  }

  /** Message indices of the ordered events of a channel, in the order they were enqueued. */
  function OrderedIds(log: seq<LogEntry>, channel: nat): seq<int> {
    if log == [] then []
    else
      var n := |log| - 1;
      var e := log[n];
      OrderedIds(log[..n], channel)
      + (if e.ev.rel.ReliableOrdered? && e.ev.channel == channel then [e.msgId - 1] else [])
  }

  lemma {:induction false} OrderedIdsAppend(log: seq<LogEntry>, e: LogEntry, channel: nat)
    ensures OrderedIds(log + [e], channel) ==
            OrderedIds(log, channel)
            + (if e.ev.rel.ReliableOrdered? && e.ev.channel == channel then [e.msgId - 1] else [])
  {
    assert (log + [e])[..|log|] == log;
  }

  lemma LogIdsAppend(log: seq<LogEntry>, e: LogEntry)
    ensures LogIds(log + [e]) == LogIds(log) + (if IsReliable(e.ev.rel) then {e.msgId} else {})
  {
    var log' := log + [e];
    forall id | id in LogIds(log) + (if IsReliable(e.ev.rel) then {e.msgId} else {})
      ensures id in LogIds(log')
    {
      if id in LogIds(log) {
        var i :| 0 <= i < |log| && IsReliable(log[i].ev.rel) && log[i].msgId == id;
        assert log'[i] == log[i];
      } else {
        assert log'[|log|] == e;
      }
    }
  }

  lemma {:induction false} OrderedIdInLog(log: seq<LogEntry>, channel: nat, k: nat)
    requires k < |OrderedIds(log, channel)|
    ensures exists i ::
      0 <= i < |log| && log[i].ev.rel.ReliableOrdered? && log[i].msgId == OrderedIds(log, channel)[k] + 1
    decreases |log|
  {
    var n := |log| - 1;
    if k < |OrderedIds(log[..n], channel)| {
      OrderedIdInLog(log[..n], channel, k);
      var i :|
        0 <= i < n && log[..n][i].ev.rel.ReliableOrdered? && log[..n][i].msgId == OrderedIds(log[..n], channel)[k] + 1;
      assert log[i] == log[..n][i];
    } else {
      assert log[n].ev.rel.ReliableOrdered?;
    }
  }

  // ----- the invariant ---------------------------------------------------------------------------

  /** A reliable event carries exactly what was accepted under its message id. */
  ghost predicate EntryOk(accepted: seq<Message>, c: nat, e: LogEntry) {
    IsReliable(e.ev.rel) ==>
      && 1 <= e.msgId <= |accepted|
      && var m := accepted[e.msgId - 1]; e.ev == Event(c, m.flow, m.channel, m.rel, m.payload)
  }

  /** A hold carries what was accepted, and its position is at most 2^15 ahead of what is next. */
  ghost predicate HoldOk(accepted: seq<Message>, c: nat, log: seq<LogEntry>, h: Hold) {
    && 1 <= h.msgId <= |accepted|
    && var m := accepted[h.msgId - 1];
    && m.rel.ReliableOrdered?
    && h == Hold(c, h.msgId, m.flow, m.channel, Wrap16(Position(accepted, h.msgId - 1)), m.rel, m.payload)
    && 0 <= Position(accepted, h.msgId - 1) - |OrderedIds(log, m.channel)| < HALF_16
  }

  ghost predicate HoldsOk(accepted: seq<Message>, c: nat, log: seq<LogEntry>, holds: seq<Option<Hold>>) {
    forall i :: 0 <= i < |holds| && holds[i].Some? && holds[i].value.conn == c ==>
      HoldOk(accepted, c, log, holds[i].value)
  }

  /** The ordered events of a channel are a prefix of what was accepted on it, and the expected
      number is the wrapped length of that prefix. */
  ghost predicate PrefixOk(accepted: seq<Message>, cn: ConnRx, channel: nat)
    requires channel < |cn.expected|
  {
    && OrderedIds(cn.log, channel) <= OrderedOn(accepted, channel)
    && cn.expected[channel] == Wrap16(|OrderedIds(cn.log, channel)|)
  }

  /** No reliable message was enqueued twice. */
  ghost predicate LogOnce(log: seq<LogEntry>) {
    forall i, k :: 0 <= i < k < |log| && IsReliable(log[i].ev.rel) && IsReliable(log[k].ev.rel) ==>
      log[i].msgId != log[k].msgId
  }

  ghost predicate HoldsOnce(holds: seq<Option<Hold>>, c: nat) {
    forall i, k :: 0 <= i < k < |holds| && holds[i].Some? && holds[k].Some?
                   && holds[i].value.conn == c && holds[k].value.conn == c ==>
      holds[i].value.msgId != holds[k].value.msgId
  }

  ghost predicate OrderOk(accepted: seq<Message>, c: nat, cn: ConnRx, holds: seq<Option<Hold>>) {
    && (forall i :: 0 <= i < |cn.log| ==> EntryOk(accepted, c, cn.log[i]))
    && HoldsOk(accepted, c, cn.log, holds)
    && (forall channel :: 0 <= channel < |cn.expected| ==> PrefixOk(accepted, cn, channel))
    && LogOnce(cn.log)
    && HoldsOnce(holds, c)
    && LogIds(cn.log) !! HoldIds(holds, c)
  }

  ghost function Marks(rx: Rx, c: nat): set<uint32>
    requires c < |rx.conns|
  {
    LogIds(rx.conns[c].log) + HoldIds(rx.holds, c)
  }

  ghost predicate DeliveryOk(cfg: Config, accepted: seq<Message>, rx: Rx, c: nat) {
    && ValidConfig(cfg) && Shape(cfg, rx) && c < |rx.conns|
    && AllAdmissible(cfg, accepted)
    && OrderOk(accepted, c, rx.conns[c], rx.holds)
    && DedupWindow.Represents(rx.conns[c].dedup, Marks(rx, c))
  }

  /** What is assumed of message j when a frame of it arrives: its id is in the exact range of the
      duplicate window, and its channel number less than 2^15 away from the expected one. */
  ghost predicate Timely(accepted: seq<Message>, cn: ConnRx, j: nat)
    requires j < |accepted| < UINT32_MAX
  {
    var m := accepted[j];
    && (IsReliable(m.rel) ==> DedupWindow.InExactRange(cn.dedup.maxId, j + 1))
    && (m.rel.ReliableOrdered? ==>
          -HALF_16 <= Position(accepted, j) - |OrderedIds(cn.log, m.channel)| < HALF_16)
  }

  // ----- single facts ----------------------------------------------------------------------------

  /** Two ordered messages of one channel with the same position are the same message. */
  lemma SamePosition(accepted: seq<Message>, j: nat, k: nat)
    requires j < |accepted| && k < |accepted|
    requires accepted[j].rel.ReliableOrdered? && accepted[k].rel.ReliableOrdered?
    requires accepted[j].channel == accepted[k].channel && Position(accepted, j) == Position(accepted, k)
    ensures j == k
  {
    PositionFinds(accepted, j);
    PositionFinds(accepted, k);
  }

  /** A message whose position is below the prefix length has been enqueued. */
  lemma {:induction false} BelowPrefix(accepted: seq<Message>, c: nat, cn: ConnRx, holds: seq<Option<Hold>>, j: nat)
    requires OrderOk(accepted, c, cn, holds)
    requires j < |accepted| < UINT32_MAX && accepted[j].rel.ReliableOrdered? && accepted[j].channel < |cn.expected|
    requires Position(accepted, j) < |OrderedIds(cn.log, accepted[j].channel)|
    ensures j + 1 in LogIds(cn.log)
  {
    var channel := accepted[j].channel;
    assert PrefixOk(accepted, cn, channel);
    PositionFinds(accepted, j);
    var k := Position(accepted, j);
    OrderedIdInLog(cn.log, channel, k);
    assert OrderedIds(cn.log, channel)[k] == OrderedOn(accepted, channel)[k] == j;
  }

  // ----- one event enters the log ----------------------------------------------------------------

  function EntryFor(c: nat, accepted: seq<Message>, j: nat): LogEntry
    requires j < |accepted| < UINT32_MAX
  {
    var m := accepted[j];
    LogEntry(Event(c, m.flow, m.channel, m.rel, m.payload), j + 1)
  }

  /** Any holds that disappear are holds of message j of connection c. */
  ghost predicate HoldsLess(holds: seq<Option<Hold>>, holds': seq<Option<Hold>>, c: nat, id: uint32) {
    && |holds'| == |holds|
    && (forall i :: 0 <= i < |holds| ==>
          holds'[i] == holds[i]
          || (holds[i].Some? && holds[i].value.conn == c && holds[i].value.msgId == id && holds'[i].None?))
    && id !in HoldIds(holds', c)
  }

  lemma HoldsLessIds(holds: seq<Option<Hold>>, holds': seq<Option<Hold>>, c: nat, id: uint32)
    requires HoldsLess(holds, holds', c, id)
    ensures HoldIds(holds', c) == HoldIds(holds, c) - {id}
    ensures HoldsOnce(holds, c) ==> HoldsOnce(holds', c)
  {
    forall x | x in HoldIds(holds, c) - {id}
      ensures x in HoldIds(holds', c)
    {
      var i :| 0 <= i < |holds| && holds[i].Some? && holds[i].value.conn == c && holds[i].value.msgId == x;
      assert holds'[i] == holds[i];
    }
  }

  lemma LogOnceAppend(log: seq<LogEntry>, e: LogEntry)
    requires LogOnce(log) && (IsReliable(e.ev.rel) ==> e.msgId !in LogIds(log))
    ensures LogOnce(log + [e])
  {
  }

  lemma {:induction false} OrderedEntersPrefix(accepted: seq<Message>, cn: ConnRx, j: nat, e: LogEntry, cn': ConnRx,
                                               channel: nat)
    requires channel < |cn.expected| && PrefixOk(accepted, cn, channel)
    requires j < |accepted| && accepted[j].rel.ReliableOrdered? && accepted[j].channel < |cn.expected|
    requires Position(accepted, j) == |OrderedIds(cn.log, accepted[j].channel)|
    requires e.ev.rel.ReliableOrdered? && e.ev.channel == accepted[j].channel && e.msgId == j + 1
    requires cn'.log == cn.log + [e]
    requires var ch := accepted[j].channel; cn'.expected == cn.expected[ch := Inc16(cn.expected[ch])]
    ensures PrefixOk(accepted, cn', channel)
  {
    OrderedIdsAppend(cn.log, e, channel);
    if channel == accepted[j].channel {
      PositionFinds(accepted, j);
      Inc16Wraps(|OrderedIds(cn.log, channel)|);
    }
  }

  lemma {:induction false} OrderedEntersHold(accepted: seq<Message>, c: nat, log: seq<LogEntry>, j: nat, e: LogEntry,
                                             h: Hold)
    requires HoldOk(accepted, c, log, h)
    requires j < |accepted| < UINT32_MAX && accepted[j].rel.ReliableOrdered?
    requires Position(accepted, j) == |OrderedIds(log, accepted[j].channel)|
    requires e.ev.rel.ReliableOrdered? && e.ev.channel == accepted[j].channel
    requires h.msgId != j + 1
    ensures HoldOk(accepted, c, log + [e], h)
  {
    OrderedIdsAppend(log, e, h.channel);
    if h.channel == accepted[j].channel && Position(accepted, h.msgId - 1) == Position(accepted, j) {
      SamePosition(accepted, h.msgId - 1, j);
    }
  }

  /** The next message in order is enqueued, directly or out of the hold table. */
  lemma {:induction false} OrderedEnters(accepted: seq<Message>, c: nat, cn: ConnRx, holds: seq<Option<Hold>>, j: nat,
                      cn': ConnRx, holds': seq<Option<Hold>>)
    requires OrderOk(accepted, c, cn, holds)
    requires j < |accepted| < UINT32_MAX && accepted[j].rel.ReliableOrdered? && accepted[j].channel < |cn.expected|
    requires Position(accepted, j) == |OrderedIds(cn.log, accepted[j].channel)|
    requires cn'.log == cn.log + [EntryFor(c, accepted, j)]
    requires var ch := accepted[j].channel; cn'.expected == cn.expected[ch := Inc16(cn.expected[ch])]
    requires HoldsLess(holds, holds', c, j + 1) && j + 1 !in LogIds(cn.log)
    ensures OrderOk(accepted, c, cn', holds')
    ensures LogIds(cn'.log) + HoldIds(holds', c) == LogIds(cn.log) + HoldIds(holds, c) + {j + 1}
  {
    var e := EntryFor(c, accepted, j);
    LogIdsAppend(cn.log, e);
    HoldsLessIds(holds, holds', c, j + 1);
    LogOnceAppend(cn.log, e);
    forall channel: nat | channel < |cn'.expected|
      ensures PrefixOk(accepted, cn', channel)
    {
      OrderedEntersPrefix(accepted, cn, j, e, cn', channel);
    }
    OrderedEntersHolds(accepted, c, cn.log, holds, j, e, holds');
  }

  lemma {:induction false} OrderedEntersHolds(accepted: seq<Message>, c: nat, log: seq<LogEntry>,
                                              holds: seq<Option<Hold>>, j: nat, e: LogEntry, holds': seq<Option<Hold>>)
    requires j < |accepted| < UINT32_MAX && accepted[j].rel.ReliableOrdered?
    requires HoldsOk(accepted, c, log, holds) && HoldsLess(holds, holds', c, j + 1)
    requires Position(accepted, j) == |OrderedIds(log, accepted[j].channel)|
    requires e.ev.rel.ReliableOrdered? && e.ev.channel == accepted[j].channel
    ensures HoldsOk(accepted, c, log + [e], holds')
  {
    HoldsLessIds(holds, holds', c, j + 1);
    forall i | 0 <= i < |holds'| && holds'[i].Some? && holds'[i].value.conn == c
      ensures HoldOk(accepted, c, log + [e], holds'[i].value)
    {
      assert holds'[i] == holds[i];
      assert holds'[i].value.msgId in HoldIds(holds', c);
      OrderedEntersHold(accepted, c, log, j, e, holds'[i].value);
    }
  }

  /** Any other event is enqueued: an unordered reliable one not seen before, or an unreliable one. */
  lemma OtherEnters(accepted: seq<Message>, c: nat, cn: ConnRx, holds: seq<Option<Hold>>, e: LogEntry, cn': ConnRx)
    requires OrderOk(accepted, c, cn, holds)
    requires EntryOk(accepted, c, e) && !e.ev.rel.ReliableOrdered?
    requires IsReliable(e.ev.rel) ==> e.msgId !in LogIds(cn.log) + HoldIds(holds, c)
    requires cn'.log == cn.log + [e] && cn'.expected == cn.expected
    ensures OrderOk(accepted, c, cn', holds)
    ensures LogIds(cn'.log) == LogIds(cn.log) + (if IsReliable(e.ev.rel) then {e.msgId} else {})
  {
    LogIdsAppend(cn.log, e);
    LogOnceAppend(cn.log, e);
    forall channel: nat
      ensures OrderedIds(cn'.log, channel) == OrderedIds(cn.log, channel)
    {
      OrderedIdsAppend(cn.log, e, channel);
    }
    forall channel: nat | channel < |cn'.expected|
      ensures PrefixOk(accepted, cn', channel)
    {
      assert PrefixOk(accepted, cn, channel);
    }
    forall i | 0 <= i < |holds| && holds[i].Some? && holds[i].value.conn == c
      ensures HoldOk(accepted, c, cn'.log, holds[i].value)
    {
      assert HoldOk(accepted, c, cn.log, holds[i].value);
    }
  }

  // ----- draining --------------------------------------------------------------------------------

  /** A hold of c that matches the expected number is the next message of the channel. */
  lemma {:induction false} MatchingHoldIsNext(accepted: seq<Message>, c: nat, cn: ConnRx, h: Hold)
    requires HoldOk(accepted, c, cn.log, h) && h.channel < |cn.expected| && PrefixOk(accepted, cn, h.channel)
    requires h.channelSeq == cn.expected[h.channel]
    ensures Position(accepted, h.msgId - 1) == |OrderedIds(cn.log, h.channel)|
  {
    Wrap16Injective(Position(accepted, h.msgId - 1), |OrderedIds(cn.log, h.channel)|);
  }

  lemma HoldLeaves(holds: seq<Option<Hold>>, c: nat, i: nat)
    requires HoldsOnce(holds, c) && i < |holds| && holds[i].Some? && holds[i].value.conn == c
    ensures HoldsLess(holds, holds[i := None], c, holds[i].value.msgId)
    ensures holds[i].value.msgId in HoldIds(holds, c)
  {
    var id := holds[i].value.msgId;
    var holds' := holds[i := None];
    assert forall k :: 0 <= k < |holds'| && k != i ==> holds'[k] == holds[k];
  }

  /** Draining a hold enqueues the next message of the channel. */
  lemma {:induction false} Drained1Is(cfg: Config, accepted: seq<Message>, rx: Rx, c: nat, channel: nat, i: nat)
    requires Shape(cfg, rx) && c < |rx.conns| && channel < cfg.maxChannels && |rx.queue| < cfg.maxRecvEvents
    requires i < |rx.holds| && HoldMatches(rx.holds[i], c, channel, rx.conns[c].expected[channel])
    requires HoldOk(accepted, c, rx.conns[c].log, rx.holds[i].value) && PrefixOk(accepted, rx.conns[c], channel)
    requires |accepted| < UINT32_MAX
    ensures var rx', cn, j := Drained1(cfg, rx, c, channel, i), rx.conns[c], rx.holds[i].value.msgId - 1;
      && Position(accepted, j) == |OrderedIds(cn.log, channel)| && rx'.holds == rx.holds[i := None]
      && rx'.conns[c] == cn.(log := cn.log + [EntryFor(c, accepted, j)],
                             expected := cn.expected[channel := Inc16(cn.expected[channel])])
  {
    MatchingHoldIsNext(accepted, c, rx.conns[c], rx.holds[i].value);
  }

  lemma Drained1Ok(cfg: Config, accepted: seq<Message>, rx: Rx, c: nat, channel: nat, i: nat)
    requires DeliveryOk(cfg, accepted, rx, c) && channel < cfg.maxChannels && |rx.queue| < cfg.maxRecvEvents
    requires i < |rx.holds| && HoldMatches(rx.holds[i], c, channel, rx.conns[c].expected[channel])
    ensures var rx' := Drained1(cfg, rx, c, channel, i);
      DeliveryOk(cfg, accepted, rx', c) && Marks(rx', c) == Marks(rx, c)
  {
    var rx' := Drained1(cfg, rx, c, channel, i);
    var j := rx.holds[i].value.msgId - 1;
    HoldLeaves(rx.holds, c, i);
    assert HoldOk(accepted, c, rx.conns[c].log, rx.holds[i].value);
    Drained1Is(cfg, accepted, rx, c, channel, i);
    OrderedEnters(accepted, c, rx.conns[c], rx.holds, j, rx'.conns[c], rx'.holds);
  }

  lemma {:induction false} DrainedOk(cfg: Config, accepted: seq<Message>, rx: Rx, c: nat, channel: nat)
    requires DeliveryOk(cfg, accepted, rx, c) && channel < cfg.maxChannels
    ensures var rx' := Drained(cfg, rx, c, channel);
      DeliveryOk(cfg, accepted, rx', c) && Marks(rx', c) == Marks(rx, c)
    decreases HoldCount(rx.holds)
  {
    var i := FirstHold(rx.holds, c, channel, rx.conns[c].expected[channel]);
    if i < |rx.holds| && |rx.queue| < cfg.maxRecvEvents {
      HoldCountUpdate(rx.holds, i, None);
      Drained1Ok(cfg, accepted, rx, c, channel, i);
      DrainedStep(cfg, rx, c, channel, i);
      DrainedOk(cfg, accepted, Drained1(cfg, rx, c, channel, i), c, channel);
    }
  }

  lemma {:induction false} DrainedStep(cfg: Config, rx: Rx, c: nat, channel: nat, i: nat)
    requires Shape(cfg, rx) && c < |rx.conns| && channel < cfg.maxChannels && |rx.queue| < cfg.maxRecvEvents
    requires i == FirstHold(rx.holds, c, channel, rx.conns[c].expected[channel]) < |rx.holds|
    ensures Drained(cfg, rx, c, channel) == Drained(cfg, Drained1(cfg, rx, c, channel, i), c, channel)
  {
  }

  lemma {:induction false} DrainedFromStep(cfg: Config, rx: Rx, c: nat, k: nat)
    requires Shape(cfg, rx) && c < |rx.conns| && k < cfg.maxChannels && |rx.queue| < cfg.maxRecvEvents
    ensures DrainedFrom(cfg, rx, c, k) == DrainedFrom(cfg, Drained(cfg, rx, c, k), c, k + 1)
  {
  }

  /** What every draining of a channel keeps, draining all of them keeps. */
  lemma {:induction false} DrainedFromKeeps(cfg: Config, rx: Rx, c: nat, k: nat, inv: Rx -> bool)
    requires k <= cfg.maxChannels && inv(rx)
    requires forall r: Rx :: inv(r) ==> Shape(cfg, r) && c < |r.conns|
    requires forall r: Rx, channel: nat :: inv(r) && channel < cfg.maxChannels ==> inv(Drained(cfg, r, c, channel))
    ensures inv(DrainedFrom(cfg, rx, c, k))
    decreases cfg.maxChannels - k
  {
    if k < cfg.maxChannels && |rx.queue| < cfg.maxRecvEvents {
      var rx1, next: nat := Drained(cfg, rx, c, k), k + 1;
      assert inv(rx1);
      DrainedFromKeeps(cfg, rx1, c, next, inv);
      assert inv(DrainedFrom(cfg, rx1, c, next));
      DrainedFromStep(cfg, rx, c, k);
    } else {
      assert DrainedFrom(cfg, rx, c, k) == rx;
    }
  }

  lemma {:induction false} DrainedFromOk(cfg: Config, accepted: seq<Message>, rx: Rx, c: nat, k: nat)
    requires DeliveryOk(cfg, accepted, rx, c) && k <= cfg.maxChannels
    ensures var rx' := DrainedFrom(cfg, rx, c, k);
      DeliveryOk(cfg, accepted, rx', c) && Marks(rx', c) == Marks(rx, c)
  {
    var marks := Marks(rx, c);
    var inv := (r: Rx) => DeliveryOk(cfg, accepted, r, c) && Marks(r, c) == marks;
    forall r: Rx, channel: nat | inv(r) && channel < cfg.maxChannels
      ensures inv(Drained(cfg, r, c, channel))
    {
      DrainedOk(cfg, accepted, r, c, channel);
    }
    DrainedFromKeeps(cfg, rx, c, k, inv);
    assert inv(DrainedFrom(cfg, rx, c, k));
  }

  // ----- delivery of a complete message ----------------------------------------------------------

  /** A timely message that the window does not report as seen has not been marked, and marking it
      keeps the window exact. */
  lemma UnseenIsNew(cfg: Config, accepted: seq<Message>, rx: Rx, c: nat, j: nat)
    requires DeliveryOk(cfg, accepted, rx, c) && j < |accepted| && IsReliable(accepted[j].rel)
    requires Timely(accepted, rx.conns[c], j) && !DedupWindow.Seen(rx.conns[c].dedup, j + 1)
    ensures j + 1 !in Marks(rx, c)
    ensures DedupWindow.Represents(DedupWindow.Marked(rx.conns[c].dedup, j + 1), Marks(rx, c) + {j + 1})
  {
    DedupWindow.LookupExact(rx.conns[c].dedup, Marks(rx, c), j + 1);
    DedupWindow.MarkRefines(rx.conns[c].dedup, Marks(rx, c), j + 1);
  }

  /** The effect of delivering an unseen reliable message: handled exactly if it becomes marked. */
  ghost predicate NewlyHandled(cfg: Config, accepted: seq<Message>, rx: Rx, c: nat, j: nat, r: (Rx, bool))
    requires c < |rx.conns| && j < |accepted| < UINT32_MAX
  {
    && DeliveryOk(cfg, accepted, r.0, c)
    && Marks(r.0, c) == Marks(rx, c) + (if r.1 then {j + 1} else {})
  }

  lemma InOrderOk(cfg: Config, accepted: seq<Message>, rx: Rx, c: nat, j: nat)
    requires DeliveryOk(cfg, accepted, rx, c) && j < |accepted| && accepted[j].rel.ReliableOrdered?
    requires Timely(accepted, rx.conns[c], j) && !DedupWindow.Seen(rx.conns[c].dedup, j + 1)
    requires rx.conns[c].expected[accepted[j].channel] == Wrap16(Position(accepted, j))
    ensures NewlyHandled(cfg, accepted, rx, c, j, DeliveredOrdered(cfg, rx, c, WholeOf(cfg, accepted, j)))
  {
    var f := WholeOf(cfg, accepted, j);
    var ch := f.channel;
    assert PrefixOk(accepted, rx.conns[c], ch);
    After16Exact(Position(accepted, j), |OrderedIds(rx.conns[c].log, ch)|);
    UnseenIsNew(cfg, accepted, rx, c, j);
    var (rx1, ok) := Enqueued(cfg, rx, FrameEvent(c, f), f.msgId);
    if ok {
      var rx2 := Advanced(cfg, MarkedSeen(rx1, c, f.msgId), c, ch);
      OrderedEnters(accepted, c, rx.conns[c], rx.holds, j, rx2.conns[c], rx2.holds);
      DrainedOk(cfg, accepted, rx2, c, ch);
    }
  }

  lemma HoldEnters(accepted: seq<Message>, c: nat, cn: ConnRx, holds: seq<Option<Hold>>, i: nat, h: Hold)
    requires OrderOk(accepted, c, cn, holds)
    requires i < |holds| && holds[i].None?
    requires HoldOk(accepted, c, cn.log, h)
    requires h.msgId !in LogIds(cn.log) + HoldIds(holds, c)
    ensures OrderOk(accepted, c, cn, holds[i := Some(h)])
    ensures HoldIds(holds[i := Some(h)], c) == HoldIds(holds, c) + {h.msgId}
  {
    var holds' := holds[i := Some(h)];
    forall x | x in HoldIds(holds, c) + {h.msgId}
      ensures x in HoldIds(holds', c)
    {
      if x != h.msgId {
        var k :| 0 <= k < |holds| && holds[k].Some? && holds[k].value.conn == c && holds[k].value.msgId == x;
        assert holds'[k] == holds[k];
      } else {
        assert holds'[i] == Some(h);
      }
    }
    forall k | 0 <= k < |holds'| && holds'[k].Some? && holds'[k].value.conn == c
      ensures HoldOk(accepted, c, cn.log, holds'[k].value)
      ensures k != i ==> holds'[k].value.msgId in HoldIds(holds, c)
    {
    }
  }

  function HoldFor(c: nat, accepted: seq<Message>, j: nat): Hold
    requires j < |accepted| < UINT32_MAX
  {
    var m := accepted[j];
    Hold(c, j + 1, m.flow, m.channel, ChannelSeqOf(accepted, j), m.rel, m.payload)
  }

  lemma {:induction false} HoldForOk(accepted: seq<Message>, c: nat, log: seq<LogEntry>, j: nat)
    requires j < |accepted| < UINT32_MAX && accepted[j].rel.ReliableOrdered?
    requires 0 <= Position(accepted, j) - |OrderedIds(log, accepted[j].channel)| < HALF_16
    ensures HoldOk(accepted, c, log, HoldFor(c, accepted, j))
  {
  }

  /** The state after a successful `hold_ordered` of message j. */
  ghost predicate NowHeld(accepted: seq<Message>, rx: Rx, rx1: Rx, c: nat, j: nat)
    requires c < |rx.conns| && j < |accepted| < UINT32_MAX
  {
    && rx1 == rx.(holds := rx1.holds)
    && OrderOk(accepted, c, rx.conns[c], rx1.holds)
    && HoldIds(rx1.holds, c) == HoldIds(rx.holds, c) + {j + 1}
  }

  /** Ahead of the expected number, an unseen message is put into the hold table if there is room. */
  lemma {:induction false} AheadHeld(cfg: Config, accepted: seq<Message>, rx: Rx, c: nat, j: nat)
    requires c < |rx.conns| && OrderOk(accepted, c, rx.conns[c], rx.holds)
    requires j < |accepted| < UINT32_MAX && accepted[j].rel.ReliableOrdered?
    requires 0 < cfg.framePayload && |accepted[j].payload| <= cfg.maxPayload
    requires 0 <= Position(accepted, j) - |OrderedIds(rx.conns[c].log, accepted[j].channel)| < HALF_16
    requires j + 1 !in LogIds(rx.conns[c].log) + HoldIds(rx.holds, c)
    ensures var (rx1, ok) := Held(cfg, rx, c, WholeOf(cfg, accepted, j));
      if ok then NowHeld(accepted, rx, rx1, c, j) else rx1 == rx
  {
    var f := WholeOf(cfg, accepted, j);
    var h := HoldFor(c, accepted, j);
    var same := FirstHold(rx.holds, c, f.channel, f.channelSeq);
    if same < |rx.holds| {
      SameHold(accepted, c, rx.conns[c], rx.holds, same, j);
    } else {
      var i := FirstFree(rx.holds);
      if i < |rx.holds| {
        HoldForOk(accepted, c, rx.conns[c].log, j);
        HoldEnters(accepted, c, rx.conns[c], rx.holds, i, h);
        assert Held(cfg, rx, c, f) == (rx.(holds := rx.holds[i := Some(h)]), true);
      }
    }
  }

  /** Once a message's event or hold is in place, marking its id completes the invariant. */
  lemma MarkedSeenOk(cfg: Config, accepted: seq<Message>, rx: Rx, c: nat, id: uint32)
    requires ValidConfig(cfg) && Shape(cfg, rx) && c < |rx.conns| && AllAdmissible(cfg, accepted)
    requires OrderOk(accepted, c, rx.conns[c], rx.holds)
    requires DedupWindow.Represents(DedupWindow.Marked(rx.conns[c].dedup, id), Marks(rx, c))
    ensures DeliveryOk(cfg, accepted, MarkedSeen(rx, c, id), c)
    ensures Marks(MarkedSeen(rx, c, id), c) == Marks(rx, c)
  {
    var rx' := MarkedSeen(rx, c, id);
    OrderOkSame(accepted, c, rx.conns[c], rx'.conns[c], rx.holds);
  }

  lemma {:induction false} AheadOk(cfg: Config, accepted: seq<Message>, rx: Rx, c: nat, j: nat)
    requires DeliveryOk(cfg, accepted, rx, c) && j < |accepted| && accepted[j].rel.ReliableOrdered?
    requires Timely(accepted, rx.conns[c], j) && !DedupWindow.Seen(rx.conns[c].dedup, j + 1)
    requires Position(accepted, j) > |OrderedIds(rx.conns[c].log, accepted[j].channel)|
    ensures var (rx1, ok) := Held(cfg, rx, c, WholeOf(cfg, accepted, j));
      if ok then NewlyHandled(cfg, accepted, rx, c, j, (MarkedSeen(rx1, c, j + 1), true)) else rx1 == rx
  {
    UnseenIsNew(cfg, accepted, rx, c, j);
    AheadHeld(cfg, accepted, rx, c, j);
    var (rx1, ok) := Held(cfg, rx, c, WholeOf(cfg, accepted, j));
    if ok {
      HeldOk(cfg, accepted, rx, rx1, c, j);
    }
  }

  lemma HeldOk(cfg: Config, accepted: seq<Message>, rx: Rx, rx1: Rx, c: nat, j: nat)
    requires DeliveryOk(cfg, accepted, rx, c) && j < |accepted| < UINT32_MAX && Shape(cfg, rx1)
    requires NowHeld(accepted, rx, rx1, c, j)
    requires DedupWindow.Represents(DedupWindow.Marked(rx.conns[c].dedup, j + 1), Marks(rx, c) + {j + 1})
    ensures NewlyHandled(cfg, accepted, rx, c, j, (MarkedSeen(rx1, c, j + 1), true))
  {
    assert Marks(rx1, c) == Marks(rx, c) + {j + 1};
    MarkedSeenOk(cfg, accepted, rx1, c, j + 1);
  }

  /** Out of order: behind the expected number it was enqueued before, ahead of it it is held. */
  lemma OutOfOrderOk(cfg: Config, accepted: seq<Message>, rx: Rx, c: nat, j: nat)
    requires DeliveryOk(cfg, accepted, rx, c) && j < |accepted| && accepted[j].rel.ReliableOrdered?
    requires Timely(accepted, rx.conns[c], j) && !DedupWindow.Seen(rx.conns[c].dedup, j + 1)
    requires rx.conns[c].expected[accepted[j].channel] != Wrap16(Position(accepted, j))
    ensures NewlyHandled(cfg, accepted, rx, c, j, DeliveredOrdered(cfg, rx, c, WholeOf(cfg, accepted, j)))
  {
    var ch := accepted[j].channel;
    var n := |OrderedIds(rx.conns[c].log, ch)|;
    assert PrefixOk(accepted, rx.conns[c], ch);
    After16Exact(Position(accepted, j), n);
    if Position(accepted, j) < n {
      BelowPrefix(accepted, c, rx.conns[c], rx.holds, j);
    } else {
      AheadOk(cfg, accepted, rx, c, j);
    }
  }

  /** A hold with the number of message j is a hold of message j. */
  lemma {:induction false} SameHold(accepted: seq<Message>, c: nat, cn: ConnRx, holds: seq<Option<Hold>>, i: nat,
                                    j: nat)
    requires OrderOk(accepted, c, cn, holds)
    requires j < |accepted| < UINT32_MAX && accepted[j].rel.ReliableOrdered?
    requires i < |holds| && HoldMatches(holds[i], c, accepted[j].channel, Wrap16(Position(accepted, j)))
    requires 0 <= Position(accepted, j) - |OrderedIds(cn.log, accepted[j].channel)| < HALF_16
    ensures j + 1 in HoldIds(holds, c)
  {
    var h := holds[i].value;
    assert HoldOk(accepted, c, cn.log, h);
    Wrap16Injective(Position(accepted, j), Position(accepted, h.msgId - 1));
    SamePosition(accepted, j, h.msgId - 1);
  }

  /** What delivering a complete message leads to. If a reliable message counts as handled, it is
      now enqueued or held, or its id was 65536 or more behind. */
  ghost predicate Handled(cfg: Config, accepted: seq<Message>, rx: Rx, c: nat, j: nat, r: (Rx, bool))
    requires c < |rx.conns| && j < |accepted| < UINT32_MAX
  {
    && DeliveryOk(cfg, accepted, r.0, c)
    && Marks(rx, c) <= Marks(r.0, c)
    && (r.1 && IsReliable(accepted[j].rel) ==>
          j + 1 in Marks(r.0, c) || rx.conns[c].dedup.maxId - (j + 1) >= DedupWindow.WINDOW)
  }

  lemma UnseenHandled(cfg: Config, accepted: seq<Message>, rx: Rx, c: nat, j: nat)
    requires DeliveryOk(cfg, accepted, rx, c) && j < |accepted| && IsReliable(accepted[j].rel)
    requires Timely(accepted, rx.conns[c], j) && !DedupWindow.Seen(rx.conns[c].dedup, j + 1)
    ensures Handled(cfg, accepted, rx, c, j, Delivered(cfg, rx, c, WholeOf(cfg, accepted, j)))
  {
    var f := WholeOf(cfg, accepted, j);
    if f.rel.ReliableUnordered? {
      UnorderedOk(cfg, accepted, rx, c, j);
      assert Delivered(cfg, rx, c, f) == DeliveredUnordered(cfg, rx, c, f);
    } else {
      if rx.conns[c].expected[f.channel] == f.channelSeq {
        InOrderOk(cfg, accepted, rx, c, j);
      } else {
        OutOfOrderOk(cfg, accepted, rx, c, j);
      }
      assert Delivered(cfg, rx, c, f) == DeliveredOrdered(cfg, rx, c, f);
    }
  }

  /** Delivering a complete timely message keeps the invariant. */
  lemma DeliveredOk(cfg: Config, accepted: seq<Message>, rx: Rx, c: nat, j: nat)
    requires DeliveryOk(cfg, accepted, rx, c) && j < |accepted| && Timely(accepted, rx.conns[c], j)
    ensures Handled(cfg, accepted, rx, c, j, Delivered(cfg, rx, c, WholeOf(cfg, accepted, j)))
  {
    var f := WholeOf(cfg, accepted, j);
    if !IsReliable(f.rel) {
      UnreliableOk(cfg, accepted, rx, c, f);
    } else if DedupWindow.Seen(rx.conns[c].dedup, f.msgId) {
      DedupWindow.LookupExact(rx.conns[c].dedup, Marks(rx, c), j + 1);
      assert Delivered(cfg, rx, c, f) == (rx, true);
    } else {
      UnseenHandled(cfg, accepted, rx, c, j);
    }
  }

  lemma UnorderedOk(cfg: Config, accepted: seq<Message>, rx: Rx, c: nat, j: nat)
    requires DeliveryOk(cfg, accepted, rx, c) && j < |accepted| && accepted[j].rel.ReliableUnordered?
    requires Timely(accepted, rx.conns[c], j) && !DedupWindow.Seen(rx.conns[c].dedup, j + 1)
    ensures NewlyHandled(cfg, accepted, rx, c, j, DeliveredUnordered(cfg, rx, c, WholeOf(cfg, accepted, j)))
  {
    var f := WholeOf(cfg, accepted, j);
    UnseenIsNew(cfg, accepted, rx, c, j);
    var (rx1, ok) := Enqueued(cfg, rx, FrameEvent(c, f), f.msgId);
    if ok {
      OtherEnters(accepted, c, rx.conns[c], rx.holds, LogEntry(FrameEvent(c, f), f.msgId), rx1.conns[c]);
      assert Marks(rx1, c) == Marks(rx, c) + {j + 1};
      MarkedSeenOk(cfg, accepted, rx1, c, j + 1);
      assert DeliveredUnordered(cfg, rx, c, f) == (MarkedSeen(rx1, c, j + 1), true);
    } else {
      assert DeliveredUnordered(cfg, rx, c, f) == (rx, false);
    }
  }

  lemma UnreliableEnters(cfg: Config, accepted: seq<Message>, rx: Rx, c: nat, f: Frame)
    requires DeliveryOk(cfg, accepted, rx, c) && !IsReliable(f.rel)
    ensures var rx' := Enqueued(cfg, rx, FrameEvent(c, f), f.msgId).0;
      DeliveryOk(cfg, accepted, rx', c) && Marks(rx', c) == Marks(rx, c)
  {
    var (rx', ok) := Enqueued(cfg, rx, FrameEvent(c, f), f.msgId);
    if ok {
      OtherEnters(accepted, c, rx.conns[c], rx.holds, LogEntry(FrameEvent(c, f), f.msgId), rx'.conns[c]);
    }
  }

  lemma SequencedOk(cfg: Config, accepted: seq<Message>, rx: Rx, c: nat, f: Frame)
    requires DeliveryOk(cfg, accepted, rx, c) && f.rel.UnreliableSequenced?
    ensures var rx' := DeliveredSequenced(cfg, rx, c, f).0;
      DeliveryOk(cfg, accepted, rx', c) && Marks(rx', c) == Marks(rx, c)
  {
    var cn := rx.conns[c];
    var cn1 := cn.(latest := cn.latest[(f.flow, f.channel) := f.channelSeq]);
    var rx1 := rx.(conns := rx.conns[c := cn1]);
    OrderOkSame(accepted, c, cn, cn1, rx.holds);
    assert Marks(rx1, c) == Marks(rx, c);
    UnreliableEnters(cfg, accepted, rx1, c, f);
  }

  lemma UnreliableOk(cfg: Config, accepted: seq<Message>, rx: Rx, c: nat, f: Frame)
    requires DeliveryOk(cfg, accepted, rx, c) && !IsReliable(f.rel)
    ensures var rx' := Delivered(cfg, rx, c, f).0;
      DeliveryOk(cfg, accepted, rx', c) && Marks(rx', c) == Marks(rx, c)
  {
    if f.rel.Unreliable? {
      UnreliableEnters(cfg, accepted, rx, c, f);
    } else {
      SequencedOk(cfg, accepted, rx, c, f);
    }
  }

  lemma OrderOkSame(accepted: seq<Message>, c: nat, cn: ConnRx, cn': ConnRx, holds: seq<Option<Hold>>)
    requires OrderOk(accepted, c, cn, holds) && cn'.log == cn.log && cn'.expected == cn.expected
    ensures OrderOk(accepted, c, cn', holds)
  {
    forall channel: nat | channel < |cn'.expected|
      ensures PrefixOk(accepted, cn', channel)
    {
      assert PrefixOk(accepted, cn, channel);
    }
  }
}
