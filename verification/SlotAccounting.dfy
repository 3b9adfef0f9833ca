/** The loops of the benchmark client and server around their plans: every slot that is scheduled before the end of
    the window is accounted once, as sent, refused or unsent, and those in the window are measured. */
module SlotAccounting {
  import opened MachineWords
  import opened SlotMerge
  import P = Plan

  /** `bk_schedule` */
  datatype Schedule = Schedule(start: uint64, stop: uint64, drain: uint64)

  // ----- what has been drained -------------------------------------------------------------------

  /** Everything up to `drained` was emitted and nothing later. A slot is flagged as measured if it is in the window
      and was emitted after the window was adopted, that is, if it is later than what had been drained then. */
  ghost predicate Drained(streams: seq<Stream>, start: nat, emitted: seq<Slot>, window: Schedule, final: bool,
                          drained: int, adopted: int) {
    && NothingDue(streams, start, emitted, drained) && adopted <= drained < UINT64_MAX
    && (forall e :: e in emitted ==> e.sched <= drained)
    && (forall e :: e in emitted ==> (e.flags.measure <==> window.start <= e.sched < window.stop && adopted < e.sched))
    && (!final ==> adopted == -1 && forall e :: e in emitted ==> e.sched < window.start)
  }

  lemma {:induction false} CountGrows(emitted: seq<Slot>, slots: seq<Slot>, i: nat)
    ensures Count(emitted, i) <= Count(emitted + slots, i)
    decreases |slots|
  {
    if slots == [] {
      assert emitted + slots == emitted;
    } else {
      assert (emitted + slots)[..|emitted + slots| - 1] == emitted + slots[..|slots| - 1];
      CountGrows(emitted, slots[..|slots| - 1], i);
    }
  }

  lemma NextTimeGrows(streams: seq<Stream>, start: nat, emitted: seq<Slot>, slots: seq<Slot>, i: nat)
    requires Intervals(streams) && i < |streams|
    ensures NextTime(streams, start, emitted, i) <= NextTime(streams, start, emitted + slots, i)
  {
    assert streams[i] in streams;
    CountGrows(emitted, slots, i);
    var a, b := Count(emitted, i), Count(emitted + slots, i);
    if a < b { TimeGrows(start, streams[i].interval, a, b); }
  }

  /** What is emitted later is later than what was due. */
  lemma {:induction false} NewAreLater(streams: seq<Stream>, start: nat, emitted: seq<Slot>, slots: seq<Slot>,
                                       drained: int, e: Slot)
    requires IsMerge(streams, start, emitted + slots) && Intervals(streams) && e in slots
    requires NothingDue(streams, start, emitted, drained)
    ensures drained < e.sched
  {
    var a :| 0 <= a < |slots| && slots[a] == e;
    var all, n := emitted + slots, |emitted| + a;
    MergePrefix(streams, start, all, n + 1);
    assert all[..n + 1][..n] == all[..n] == emitted + slots[..a] && all[n] == e;
    NextTimeGrows(streams, start, emitted, slots[..a], e.stream);
  }

  ghost predicate AllUpTo(slots: seq<Slot>, drained: int) { forall e :: e in slots ==> e.sched <= drained }

  /** No slot that is scheduled at the end of the window or later, unless it was drained before that was adopted. */
  ghost predicate InTime(slots: seq<Slot>, stop: nat, adopted: int) {
    forall e :: e in slots ==> e.sched < stop || e.sched <= adopted
  }

  ghost predicate AllAfter(slots: seq<Slot>, drained: int) { forall e :: e in slots ==> drained < e.sched }

  lemma {:induction false} LaterThan(streams: seq<Stream>, start: nat, emitted: seq<Slot>, slots: seq<Slot>,
                                     drained: int)
    requires IsMerge(streams, start, emitted + slots) && Intervals(streams)
    requires NothingDue(streams, start, emitted, drained)
    ensures AllAfter(slots, drained)
  {
    forall e | e in slots
      ensures drained < e.sched
    {
      NewAreLater(streams, start, emitted, slots, drained, e);
    }
  }

  lemma {:induction false} DrainMore(streams: seq<Stream>, start: nat, emitted: seq<Slot>, slots: seq<Slot>,
                                     window: Schedule, final: bool, drained: int, adopted: int, cutoff: int)
    requires Drained(streams, start, emitted, window, final, drained, adopted)
    requires IsMerge(streams, start, emitted + slots) && Intervals(streams)
    requires NothingDue(streams, start, emitted + slots, cutoff) && cutoff < UINT64_MAX
    requires (!final ==> cutoff < window.start)
    requires forall e :: e in slots ==> e.sched <= cutoff && e.flags.measure == (window.start <= e.sched < window.stop)
    ensures var drained1 := if drained < cutoff then cutoff else drained;
      Drained(streams, start, emitted + slots, window, final, drained1, adopted)
  {
    forall e | e in slots
      ensures drained < e.sched
    {
      NewAreLater(streams, start, emitted, slots, drained, e);
    }
    forall i: nat | i < |streams|
      ensures NextTime(streams, start, emitted, i) <= NextTime(streams, start, emitted + slots, i)
    {
      NextTimeGrows(streams, start, emitted, slots, i);
    }
  }

  // ----- accounting ------------------------------------------------------------------------------

  /** Each slot of each stream before `stop` occurs exactly once, and the slots are in the order of their times. */
  ghost predicate EachOnce(streams: seq<Stream>, start: nat, slots: seq<Slot>, stop: nat) {
    && (forall i: nat, k: nat :: i < |streams| && Time(start, streams[i].interval, k) < stop ==>
          exists e :: e in slots && IsSlot(e, start, streams[i], i, k))
    && (forall e :: e in slots ==>
          e.stream < |streams| && 0 < e.seq_ && IsSlot(e, start, streams[e.stream], e.stream, e.seq_ - 1))
    && (forall a, b :: 0 <= a < b < |slots| ==>
          Before(slots[a].sched, slots[a].stream, slots[b].sched, slots[b].stream))
  }

  lemma {:induction false} DrainedOnce(streams: seq<Stream>, start: nat, emitted: seq<Slot>, stop: nat, drained: int)
    requires IsMerge(streams, start, emitted) && Intervals(streams) && stop - 1 <= drained < UINT64_MAX
    requires NothingDue(streams, start, emitted, drained) && forall e :: e in emitted ==> e.sched <= drained
    ensures EachOnce(streams, start, emitted, stop)
  {
    MergeOrdered(streams, start, emitted);
    forall i: nat, k: nat | i < |streams| && Time(start, streams[i].interval, k) < stop
      ensures exists e :: e in emitted && IsSlot(e, start, streams[i], i, k)
    {
      DueExactly(streams, start, emitted, drained, i, k);
    }
    forall e | e in emitted
      ensures e.stream < |streams| && 0 < e.seq_ && IsSlot(e, start, streams[e.stream], e.stream, e.seq_ - 1)
    {
      SlotIsOfStream(streams, start, emitted, e);
    }
  }

  lemma {:induction false} SlotIsOfStream(streams: seq<Stream>, start: nat, emitted: seq<Slot>, e: Slot)
    requires IsMerge(streams, start, emitted) && e in emitted
    ensures e.stream < |streams| && 0 < e.seq_ && IsSlot(e, start, streams[e.stream], e.stream, e.seq_ - 1)
  {
    var a :| 0 <= a < |emitted| && emitted[a] == e;
    MergePrefix(streams, start, emitted, a + 1);
    assert emitted[..a + 1][..a] == emitted[..a];
  }

  /** Measured slots of a stream. */
  function Measured(slots: seq<Slot>, i: nat): nat {
    if slots == [] then 0
    else
      var e := slots[|slots| - 1];
      Measured(slots[..|slots| - 1], i) + (if e.stream == i && e.flags.measure then 1 else 0)
  }

  lemma {:induction false} MeasuredAreWithin(slots: seq<Slot>, i: nat, lo: int, hi: int)
    requires forall e :: e in slots ==> (e.flags.measure <==> lo <= e.sched < hi)
    ensures Measured(slots, i) == EmittedWithin(slots, i, lo, hi)
  {
    if slots != [] {
      assert slots[|slots| - 1] in slots;
      MeasuredAreWithin(slots[..|slots| - 1], i, lo, hi);
    }
  }

  function Max(a: int, b: int): int { if a < b then b else a }

  /** The number of measured slots of a stream is in the range the orchestrator expects, if the window was adopted
      before its start and the plan was not started after it. In general there are never too many, and what is
      measured is the part of the window that had not been drained when it was adopted. */
  lemma {:induction false} MeasuredInRange(streams: seq<Stream>, start: nat, emitted: seq<Slot>, window: Schedule,
                                           drained: int, adopted: int, i: nat)
    requires IsMerge(streams, start, emitted) && Intervals(streams) && i < |streams|
    requires Drained(streams, start, emitted, window, true, drained, adopted)
    requires window.start < window.stop && window.stop - 1 <= drained
    ensures var interval, duration := streams[i].interval, window.stop - window.start;
      && 0 < interval
      && Measured(emitted, i) == EmittedWithin(emitted, i, Max(window.start, adopted + 1), window.stop)
      && (adopted < window.start ==>
            && Measured(emitted, i) <= PerStreamMax(duration, interval)
            && (PerStreamMin(duration, interval) <= Measured(emitted, i) <==>
                duration < interval || start < window.start + interval + duration % interval))
  {
    assert streams[i] in streams;
    var lo := Max(window.start, adopted + 1);
    MeasuredAreWithin(emitted, i, lo, window.stop);
    EmittedAreWithin(streams, start, emitted, i, lo, window.stop);
    assert NextTime(streams, start, emitted, i) >= window.stop;
    if adopted < window.start {
      WindowCount(start, streams[i].interval, window.start, window.stop, Count(emitted, i));
    }
  }

  /** For a window adopted in time and a plan started no later than it, the number of measured slots of every stream
      is in the expected range. */
  ghost predicate InRange(streams: seq<Stream>, start: nat, slots: seq<Slot>, window: Schedule, adopted: int)
    requires Intervals(streams)
  {
    window.start < window.stop && adopted < window.start && start <= window.start ==>
      forall i: nat :: i < |streams| ==>
        var interval, duration := IntervalOf(streams, i), window.stop - window.start;
        PerStreamMin(duration, interval) <= Measured(slots, i) <= PerStreamMax(duration, interval)
  }

  function IntervalOf(streams: seq<Stream>, i: nat): (n: nat)
    requires Intervals(streams) && i < |streams|
    ensures 0 < n
  {
    assert streams[i] in streams;
    streams[i].interval
  }

  lemma {:induction false} AllInRange(streams: seq<Stream>, start: nat, emitted: seq<Slot>, window: Schedule,
                                      drained: int, adopted: int)
    requires IsMerge(streams, start, emitted) && Intervals(streams)
    requires Drained(streams, start, emitted, window, true, drained, adopted) && window.stop - 1 <= drained
    ensures InRange(streams, start, emitted, window, adopted)
  {
    if window.start < window.stop {
      forall i: nat | i < |streams|
        ensures adopted < window.start && start <= window.start ==>
          PerStreamMin(window.stop - window.start, IntervalOf(streams, i)) <= Measured(emitted, i) <=
          PerStreamMax(window.stop - window.start, IntervalOf(streams, i))
      {
        MeasuredInRange(streams, start, emitted, window, drained, adopted, i);
      }
    }
  }

  // ----- what a driver does with its window ------------------------------------------------------

  datatype Span = Span(start: int, stop: int)

  function SpanOf(s: Schedule): Span { Span(s.start, s.stop) }

  function SpanOrNone(arrived: Option<Schedule>): Option<Span> {
    if arrived.Some? then Some(SpanOf(arrived.value)) else None
  }

  /** The window and whether it is final; up to when the plan has been drained, and up to when it had been when a
      window replaced the provisional one. */
  datatype Course = Course(window: Span, final: bool, drained: int, adopted: int)

  /** Before the window opens, a window that has arrived replaces the provisional one; afterwards none does. */
  function Settled(d: Course, now: int, arrived: Option<Span>): Course {
    if d.final then d
    else if now >= d.window.start then d.(final := true)
    else if arrived.Some? then Course(arrived.value, true, d.drained, d.drained)
    else d
  }

  /** What is due is emitted, as far as it is scheduled before the end of the window. */
  function DrainedAt(d: Course, now: int): Course {
    d.(drained := Max(d.drained, if now < d.window.stop then now else d.window.stop - 1))
  }

  /** A turn of a loop: the clock, whether the plan is drained in it, and a window that has arrived. */
  datatype Beat = Beat(now: int, drains: bool, arrived: Option<Span>)

  function Turned(d: Course, b: Beat): Course {
    var e := Settled(d, b.now, b.arrived);
    if b.drains then DrainedAt(e, b.now) else e
  }

  /** The course of a loop that began with a provisional window. */
  function CourseAfter(provisional: Span, beats: seq<Beat>): Course {
    if beats == [] then Course(provisional, false, -1, -1)
    else Turned(CourseAfter(provisional, beats[..|beats| - 1]), beats[|beats| - 1])
  }

  lemma {:induction false} CourseMore(provisional: Span, beats: seq<Beat>, b: Beat)
    ensures CourseAfter(provisional, beats + [b]) == Turned(CourseAfter(provisional, beats), b)
  {
    assert (beats + [b])[..|beats|] == beats;
  }

  // ----- the driver of a plan --------------------------------------------------------------------

  /** What client and server do with a plan: adopt a window until it is final, and drain what is due. */
  class Driver {
    const plan: P.Plan
    var window: Schedule
    var final: bool
    ghost var drained: int
    ghost var adopted: int

    ghost predicate Valid()
      reads this, plan, plan.nextSched, plan.nextSeq
    {
      && plan.Valid() && plan.measureStart == window.start && plan.measureStop == window.stop && 0 < window.stop
      && Drained(plan.streams, plan.start, plan.emitted, window, final, drained, adopted)
      && (drained < window.stop || drained == adopted)
    }

    ghost function Current(): Course
      reads this
    {
      Course(SpanOf(window), final, drained, adopted)
    }

    constructor (streams: seq<Stream>, start: uint64, window: Schedule, final: bool)
      requires Intervals(streams) && 0 < window.stop
      ensures Valid() && fresh(plan) && fresh(plan.nextSched) && fresh(plan.nextSeq)
      ensures plan.emitted == [] && plan.streams == streams && plan.start == start
      ensures this.window == window && this.final == final && drained == adopted == -1
    {
      plan := new P.Plan(streams, start, window.start, window.stop);
      this.window, this.final := window, final;
      drained, adopted := -1, -1;
    }

    /** Before the window opens, a window that has arrived replaces the provisional one; afterwards none does. */
    method Settle(now: uint64, arrived: Option<Schedule>)
      requires Valid() && (arrived.Some? ==> 0 < arrived.value.stop)
      modifies this, plan`measureStart, plan`measureStop
      ensures Valid() && drained == old(drained)
      ensures old(final) || now >= old(window).start ==> final && window == old(window) && adopted == old(adopted)
      ensures !old(final) && now < old(window).start && arrived.Some? ==>
        final && window == arrived.value && adopted == drained
      ensures !old(final) && now < old(window).start && arrived == None ==>
        !final && window == old(window) && adopted == old(adopted)
      ensures Current() == Settled(old(Current()), now, SpanOrNone(arrived))
    {
      if final { return; }
      if now >= window.start {
        final := true;
        return;
      }
      if arrived.Some? {
        window, final, adopted := arrived.value, true, drained;
        plan.SetWindow(window.start, window.stop);
      }
    }

    /** The slots due at `now` that are scheduled before the end of the window. */
    method Due(now: uint64) returns (slots: seq<Slot>)
      requires Valid() && (!final ==> now < window.start)
      modifies this`drained, plan`emitted, plan.nextSched, plan.nextSeq
      ensures Valid() && plan.emitted == old(plan.emitted) + slots
      ensures forall e :: e in slots ==> e.sched <= now && e.sched < window.stop
      ensures NothingDue(plan.streams, plan.start, plan.emitted, if now < window.stop then now else window.stop - 1)
      ensures Current() == DrainedAt(old(Current()), now)
    {
      var cutoff := if now < window.stop then now else window.stop - 1;
      ghost var before := plan.emitted;
      slots := plan.Drain(cutoff);
      DrainMore(plan.streams, plan.start, before, slots, window, final, drained, adopted, cutoff);
      drained := Max(drained, cutoff);
    }

    /** After the loop no window is awaited any more, and what is left of this one is drained. */
    method Rest() returns (slots: seq<Slot>)
      requires Valid()
      modifies this`drained, this`final, plan`emitted, plan.nextSched, plan.nextSeq
      ensures Valid() && final && window == old(window) && adopted == old(adopted)
      ensures plan.emitted == old(plan.emitted) + slots && window.stop - 1 <= drained
      ensures AllUpTo(old(plan.emitted), old(drained)) && AllAfter(slots, old(drained))
      ensures EachOnce(plan.streams, plan.start, plan.emitted, window.stop)
      ensures InRange(plan.streams, plan.start, plan.emitted, window, adopted)
      ensures InTime(plan.emitted, window.stop, adopted)
    {
      final := true;
      ghost var before, was := plan.emitted, drained;
      slots := Due(window.stop - 1);
      LaterThan(plan.streams, plan.start, before, slots, was);
      DrainedOnce(plan.streams, plan.start, plan.emitted, window.stop, drained);
      AllInRange(plan.streams, plan.start, plan.emitted, window, drained, adopted);
    }
  }

  // ----- the client ------------------------------------------------------------------------------

  datatype Outcome = Sent | Refused | Unsent

  datatype Entry = Entry(slot: Slot, outcome: Outcome)

  function SlotsOf(log: seq<Entry>): seq<Slot> { seq(|log|, i requires 0 <= i < |log| => log[i].slot) }

  /** One turn of a loop: the clock, whether the connection is up, and a window that has arrived. */
  datatype Tick = Tick(now: uint64, connected: bool, arrived: Option<Schedule>)

  function BeatOf(t: Tick): Beat { Beat(t.now, t.connected, SpanOrNone(t.arrived)) }

  function Beats(ticks: seq<Tick>): seq<Beat> { seq(|ticks|, k requires 0 <= k < |ticks| => BeatOf(ticks[k])) }

  lemma BeatsMore(provisional: Span, ticks: seq<Tick>, i: nat, k: nat)
    requires k == i + 1 <= |ticks|
    ensures CourseAfter(provisional, Beats(ticks[..k])) ==
            Turned(CourseAfter(provisional, Beats(ticks[..i])), BeatOf(ticks[i]))
  {
    assert Beats(ticks[..k]) == Beats(ticks[..i]) + [BeatOf(ticks[i])];
    CourseMore(provisional, Beats(ticks[..i]), BeatOf(ticks[i]));
  }

  /** How a slot ends that is submitted, when the transport answers this. */
  function AnswerOf(taken: bool): (o: Outcome)
    ensures o == Sent <==> taken
    ensures o == Refused <==> !taken
  {
    if taken then Sent else Refused
  }

  /** Everything was submitted, and sent exactly if the transport took it; the answers are counted from `from` on. */
  ghost predicate SentAsTaken(log: seq<Entry>, from: nat, taken: nat -> bool) {
    forall k :: 0 <= k < |log| ==> log[k].outcome == if taken(from + k) then Sent else Refused
  }

  lemma SentAsTakenSum(a: seq<Entry>, b: seq<Entry>, taken: nat -> bool)
    requires SentAsTaken(a, 0, taken) && SentAsTaken(b, |a|, taken)
    ensures SentAsTaken(a + b, 0, taken)
  {
    assert forall k :: |a| <= k < |a + b| ==> (a + b)[k] == b[k - |a|];
  }

  /** Due slots are submitted; the transport may refuse. The answer to the k-th submission is `taken(k)`. */
  method Submit(slots: seq<Slot>, from: nat, taken: nat -> bool) returns (log: seq<Entry>)
    ensures SlotsOf(log) == slots && SentAsTaken(log, from, taken)
  {
    log := [];
    for i := 0 to |slots|
      invariant SlotsOf(log) == slots[..i] && SentAsTaken(log, from, taken)
    {
      log := log + [Entry(slots[i], AnswerOf(taken(from + i)))];
    }
  }

  /** What is left is accounted without having been sent: `client_mark_unsent`. */
  method MarkUnsent(slots: seq<Slot>) returns (log: seq<Entry>)
    ensures SlotsOf(log) == slots && forall e :: e in log ==> e.outcome == Unsent
  {
    log := [];
    for i := 0 to |slots|
      invariant SlotsOf(log) == slots[..i] && forall e :: e in log ==> e.outcome == Unsent
    {
      log := log + [Entry(slots[i], Unsent)];
    }
  }

  /** Slots up to the time the loop has drained were submitted, and sent exactly if the transport took them; the later
      ones were not sent. */
  ghost predicate Accounted(log: seq<Entry>, drained: int, taken: nat -> bool) {
    forall k :: 0 <= k < |log| ==>
      && (log[k].outcome == Unsent <==> drained < log[k].slot.sched)
      && (log[k].outcome == Sent <==> log[k].slot.sched <= drained && taken(k))
  }

  /** The slots of the loop and those after it. */
  lemma AccountedAll(log: seq<Entry>, unsent: seq<Entry>, drained: int, taken: nat -> bool)
    requires AllUpTo(SlotsOf(log), drained) && AllAfter(SlotsOf(unsent), drained)
    requires SentAsTaken(log, 0, taken)
    requires forall e :: e in unsent ==> e.outcome == Unsent
    ensures Accounted(log + unsent, drained, taken)
  {
    forall k | 0 <= k < |log + unsent|
      ensures (log + unsent)[k].outcome == Unsent <==> drained < (log + unsent)[k].slot.sched
      ensures (log + unsent)[k].outcome == Sent <==> (log + unsent)[k].slot.sched <= drained && taken(k)
    {
      if k < |log| {
        assert SlotsOf(log)[k] == log[k].slot;
      } else {
        assert unsent[k - |log|] in unsent && SlotsOf(unsent)[k - |log|] == unsent[k - |log|].slot;
      }
    }
  }

  /** How often a stream's slots ended like this. */
  function Ended(log: seq<Entry>, i: nat, o: Outcome): nat {
    if log == [] then 0
    else
      var e := log[|log| - 1];
      Ended(log[..|log| - 1], i, o) + (if e.slot.stream == i && e.outcome == o then 1 else 0)
  }

  /** So the numbers are determined: unsent are the slots after the last drain, sent and refused those before. */
  lemma {:induction false} NumbersDetermined(log: seq<Entry>, drained: int, taken: nat -> bool, i: nat, stop: int)
    requires Accounted(log, drained, taken) && forall e :: e in log ==> e.slot.sched < stop
    ensures Ended(log, i, Unsent) == EmittedWithin(SlotsOf(log), i, drained + 1, stop)
    ensures Ended(log, i, Sent) + Ended(log, i, Refused) == EmittedWithin(SlotsOf(log), i, 0, drained + 1)
    ensures (forall k :: taken(k)) ==> Ended(log, i, Refused) == 0
    ensures (forall k :: !taken(k)) ==> Ended(log, i, Sent) == 0
  {
    if log != [] {
      var front, e := log[..|log| - 1], log[|log| - 1];
      assert e in log;
      assert SlotsOf(log)[..|log| - 1] == SlotsOf(front);
      NumbersDetermined(front, drained, taken, i, stop);
    }
  }

  /** The loop of `run_client` for one of its connections, whatever the transport answers. At the end every slot
      before the end of the window has been accounted once. */
  method RunClient(streams: seq<Stream>, start: uint64, provisional: Schedule, ticks: seq<Tick>, taken: nat -> bool)
    returns (log: seq<Entry>, driver: Driver, ghost turns: nat)
    requires Intervals(streams) && 0 < provisional.stop
    requires forall t :: t in ticks && t.arrived.Some? ==> 0 < t.arrived.value.stop
    ensures fresh(driver) && driver.Valid() && driver.plan.streams == streams && driver.plan.start == start
    ensures SlotsOf(log) == driver.plan.emitted
    ensures EachOnce(streams, start, SlotsOf(log), driver.window.stop)
    ensures InRange(streams, start, SlotsOf(log), driver.window, driver.adopted)
    ensures InTime(SlotsOf(log), driver.window.stop, driver.adopted)
    ensures turns <= |ticks| && (turns < |ticks| ==> ticks[turns].now >= driver.window.drain)
    ensures var d := CourseAfter(SpanOf(provisional), Beats(ticks[..turns]));
      && d.window == SpanOf(driver.window) && d.adopted == driver.adopted
      && Accounted(log, d.drained, taken)
  {
    driver := new Driver(streams, start, provisional, false);
    log := [];
    var i: nat := 0;
    while i < |ticks| && ticks[i].now < driver.window.drain
      invariant i <= |ticks| && driver.Valid() && SlotsOf(log) == driver.plan.emitted
      invariant driver.Current() == CourseAfter(SpanOf(provisional), Beats(ticks[..i]))
      invariant SentAsTaken(log, 0, taken)
    {
      var more := ClientTurn(driver, ticks[i], |log|, taken);
      SentAsTakenSum(log, more, taken);
      BeatsMore(SpanOf(provisional), ticks, i, i + 1);
      SlotsOfSum(log, more);
      log := log + more;
      i := i + 1;
    }
    turns := i;
    log := FinishClient(driver, log, taken);
  }

  /** After the loop: what is left is accounted. */
  method FinishClient(driver: Driver, log: seq<Entry>, ghost taken: nat -> bool) returns (log': seq<Entry>)
    requires driver.Valid() && SlotsOf(log) == driver.plan.emitted && SentAsTaken(log, 0, taken)
    modifies driver, driver.plan, driver.plan.nextSched, driver.plan.nextSeq
    ensures driver.Valid() && SlotsOf(log') == driver.plan.emitted
    ensures driver.window == old(driver.window) && driver.adopted == old(driver.adopted)
    ensures EachOnce(driver.plan.streams, driver.plan.start, SlotsOf(log'), driver.window.stop)
    ensures InRange(driver.plan.streams, driver.plan.start, SlotsOf(log'), driver.window, driver.adopted)
    ensures InTime(SlotsOf(log'), driver.window.stop, driver.adopted)
    ensures Accounted(log', old(driver.drained), taken)
  {
    ghost var drained := driver.drained;
    var rest := driver.Rest();
    var unsent := MarkUnsent(rest);
    SlotsOfSum(log, unsent);
    AccountedAll(log, unsent, drained, taken);
    log' := log + unsent;
  }

  method ClientTurn(driver: Driver, tick: Tick, from: nat, taken: nat -> bool) returns (more: seq<Entry>)
    requires driver.Valid() && (tick.arrived.Some? ==> 0 < tick.arrived.value.stop)
    modifies driver, driver.plan, driver.plan.nextSched, driver.plan.nextSeq
    ensures driver.Valid() && driver.plan.emitted == old(driver.plan.emitted) + SlotsOf(more)
    ensures driver.Current() == Turned(old(driver.Current()), BeatOf(tick))
    ensures SentAsTaken(more, from, taken)
  {
    driver.Settle(tick.now, tick.arrived);
    if !tick.connected { return []; }
    var slots := driver.Due(tick.now);
    more := Submit(slots, from, taken);
  }

  lemma SlotsOfSum(a: seq<Entry>, b: seq<Entry>)
    ensures SlotsOf(a + b) == SlotsOf(a) + SlotsOf(b)
  {
  }

  // ----- the server ------------------------------------------------------------------------------

  datatype TargetEntry = TargetEntry(target: nat, entry: Entry)

  /** What was accounted for one of the clients. */
  function ForTarget(log: seq<TargetEntry>, target: nat): seq<Slot> {
    if log == [] then []
    else ForTarget(log[..|log| - 1], target) +
         (if log[|log| - 1].target == target then [log[|log| - 1].entry.slot] else [])
  }

  /** Every client has been accounted the same slots. */
  ghost predicate AllTargets(log: seq<TargetEntry>, targets: nat, slots: seq<Slot>) {
    forall t: nat :: t < targets ==> ForTarget(log, t) == slots
  }

  lemma {:induction false} ForTargetLast(log: seq<TargetEntry>, e: TargetEntry, t: nat)
    ensures ForTarget(log + [e], t) == ForTarget(log, t) + (if e.target == t then [e.entry.slot] else [])
  {
    assert (log + [e])[..|log|] == log;
  }

  /** The transport as the server sees it: whether the client of the k-th entry is connected when its turn comes, and
      whether what is sent is taken. */
  datatype Transport = Transport(connected: nat -> bool, accepts: nat -> bool)

  /** From this entry on everything was submitted, and sent exactly if the client was connected and the transport took
      it; or nothing was. */
  ghost predicate Answered(log: seq<TargetEntry>, from: nat, submit: bool, tr: Transport) {
    forall k :: from <= k < |log| ==>
      && (log[k].entry.outcome == Sent <==> submit && tr.connected(k) && tr.accepts(k))
      && (log[k].entry.outcome == Unsent <==> !submit)
  }

  /** `server_send_slot`: an entry for each client; it is sent if the slot is submitted, the client connected and the
      transport accepts. */
  method ServerSendSlot(log: seq<TargetEntry>, slot: Slot, submit: bool, targets: nat, tr: Transport,
                        ghost sofar: seq<Slot>)
    returns (log': seq<TargetEntry>)
    requires AllTargets(log, targets, sofar)
    ensures AllTargets(log', targets, sofar + [slot])
    ensures |log'| == |log| + targets && log'[..|log|] == log
    ensures forall k :: |log| <= k < |log'| ==> log'[k].target == k - |log| && log'[k].entry.slot == slot
    ensures Answered(log', |log|, submit, tr)
  {
    log' := log;
    for target := 0 to targets
      invariant |log'| == |log| + target && log'[..|log|] == log
      invariant forall t: nat :: t < targets ==> ForTarget(log', t) == if t < target then sofar + [slot] else sofar
      invariant forall k :: |log| <= k < |log'| ==> log'[k].target == k - |log| && log'[k].entry.slot == slot
      invariant Answered(log', |log|, submit, tr)
    {
      var ok := submit && tr.connected(|log'|) && tr.accepts(|log'|);
      var e := TargetEntry(target, Entry(slot, if submit then AnswerOf(ok) else Unsent));
      forall t: nat | t < targets
        ensures ForTarget(log' + [e], t) == ForTarget(log', t) + (if t == target then [slot] else [])
      {
        ForTargetLast(log', e, t);
      }
      log' := log' + [e];
    }
  }

  method ServerSend(log: seq<TargetEntry>, slots: seq<Slot>, submit: bool, targets: nat, tr: Transport,
                    ghost sofar: seq<Slot>)
    returns (log': seq<TargetEntry>)
    requires AllTargets(log, targets, sofar)
    ensures AllTargets(log', targets, sofar + slots)
    ensures |log| <= |log'| && log'[..|log|] == log && Answered(log', |log|, submit, tr)
    ensures forall k :: |log| <= k < |log'| ==> log'[k].entry.slot in slots
  {
    log' := log;
    assert sofar + slots[..0] == sofar;
    for i := 0 to |slots|
      invariant AllTargets(log', targets, sofar + slots[..i])
      invariant |log| <= |log'| && log'[..|log|] == log && Answered(log', |log|, submit, tr)
      invariant forall k :: |log| <= k < |log'| ==> log'[k].entry.slot in slots
    {
      ghost var before := log';
      log' := ServerSendSlot(log', slots[i], submit, targets, tr, sofar + slots[..i]);
      assert sofar + slots[..i] + [slots[i]] == sofar + slots[..i + 1];
      assert forall k :: 0 <= k < |before| ==> log'[k] == before[k];
    }
    assert slots[..|slots|] == slots;
  }

  /** Slots up to the time the loop has drained were submitted, and sent exactly if the client was connected and the
      transport took them; the later ones were not sent. */
  ghost predicate AccountedToAll(log: seq<TargetEntry>, drained: int, tr: Transport) {
    forall k :: 0 <= k < |log| ==>
      && (log[k].entry.outcome == Unsent <==> drained < log[k].entry.slot.sched)
      && (log[k].entry.outcome == Sent <==> log[k].entry.slot.sched <= drained && tr.connected(k) && tr.accepts(k))
  }

  /** The entries of the loop and those after it. */
  lemma AccountedToAllOf(log: seq<TargetEntry>, log': seq<TargetEntry>, sofar: seq<Slot>, rest: seq<Slot>, drained: int,
                         tr: Transport)
    requires AllUpTo(sofar, drained) && AllAfter(rest, drained)
    requires |log| <= |log'| && log'[..|log|] == log
    requires Answered(log, 0, true, tr) && forall k :: 0 <= k < |log| ==> log[k].entry.slot in sofar
    requires Answered(log', |log|, false, tr) && forall k :: |log| <= k < |log'| ==> log'[k].entry.slot in rest
    ensures AccountedToAll(log', drained, tr)
  {
    forall k | 0 <= k < |log'|
      ensures log'[k].entry.outcome == Unsent <==> drained < log'[k].entry.slot.sched
      ensures log'[k].entry.outcome == Sent <==>
        log'[k].entry.slot.sched <= drained && tr.connected(k) && tr.accepts(k)
    {
      if k < |log| {
        assert log'[k] == log[k] && log[k].entry.slot in sofar;
      } else {
        assert log'[k].entry.slot in rest;
      }
    }
  }

  /** How often a stream's slots ended like this for one of the clients. */
  function EndedFor(log: seq<TargetEntry>, target: nat, i: nat, o: Outcome): nat {
    if log == [] then 0
    else
      var e := log[|log| - 1];
      EndedFor(log[..|log| - 1], target, i, o) +
      (if e.target == target && e.entry.slot.stream == i && e.entry.outcome == o then 1 else 0)
  }

  /** So for every client the numbers are determined. */
  lemma {:induction false} NumbersForDetermined(log: seq<TargetEntry>, drained: int, tr: Transport, target: nat, i: nat,
                                                stop: int)
    requires AccountedToAll(log, drained, tr)
    requires forall k :: 0 <= k < |log| ==> log[k].entry.slot.sched < stop
    ensures EndedFor(log, target, i, Unsent) == EmittedWithin(ForTarget(log, target), i, drained + 1, stop)
    ensures EndedFor(log, target, i, Sent) + EndedFor(log, target, i, Refused) ==
            EmittedWithin(ForTarget(log, target), i, 0, drained + 1)
    ensures (forall k :: tr.connected(k) && tr.accepts(k)) ==> EndedFor(log, target, i, Refused) == 0
  {
    if log != [] {
      var front, e := log[..|log| - 1], log[|log| - 1];
      NumbersForDetermined(front, drained, tr, target, i, stop);
      assert e.entry.outcome == Unsent <==> drained < e.entry.slot.sched;
      assert e.entry.outcome == Sent <==>
        e.entry.slot.sched <= drained && tr.connected(|log| - 1) && tr.accepts(|log| - 1);
      if e.target == target {
        var slots := ForTarget(front, target);
        assert (slots + [e.entry.slot])[..|slots|] == slots;
      } else {
        assert ForTarget(log, target) == ForTarget(front, target);
      }
    }
  }

  /** One turn of the server: whether all clients have registered by then, and a window that has arrived. */
  datatype ServerTick = ServerTick(now: uint64, registered: bool, arrived: Option<Schedule>)

  /** The plan exists from the turn with index `from` on. */
  function ServerBeats(ticks: seq<ServerTick>, from: nat): seq<Beat> {
    seq(|ticks|, k requires 0 <= k < |ticks| => Beat(ticks[k].now, from <= k, SpanOrNone(ticks[k].arrived)))
  }

  lemma ServerBeatsMore(provisional: Span, ticks: seq<ServerTick>, from: nat, i: nat, k: nat)
    requires k == i + 1 <= |ticks|
    ensures CourseAfter(provisional, ServerBeats(ticks[..k], from)) ==
            Turned(CourseAfter(provisional, ServerBeats(ticks[..i], from)),
                   Beat(ticks[i].now, from <= i, SpanOrNone(ticks[i].arrived)))
  {
    var b := Beat(ticks[i].now, from <= i, SpanOrNone(ticks[i].arrived));
    assert ServerBeats(ticks[..k], from) == ServerBeats(ticks[..i], from) + [b];
    CourseMore(provisional, ServerBeats(ticks[..i], from), b);
  }

  /** Without a plan nothing is drained. */
  lemma {:induction false} NoPlanYet(provisional: Span, ticks: seq<ServerTick>, from: nat, d: Course, i: nat)
    requires i <= |ticks| && i <= from && d == CourseAfter(provisional, ServerBeats(ticks[..i], |ticks|))
    ensures d == CourseAfter(provisional, ServerBeats(ticks[..i], from))
  {
    assert ServerBeats(ticks[..i], |ticks|) == ServerBeats(ticks[..i], from);
  }

  /** The turns before the plan exists. The plan is started when all clients have registered; if the window opens
      before that the run fails. */
  method AwaitClients(streams: seq<Stream>, provisional: Schedule, ticks: seq<ServerTick>)
    returns (made: Option<Driver>, next: nat)
    requires Intervals(streams) && 0 < provisional.stop
    requires forall t :: t in ticks && t.arrived.Some? ==> 0 < t.arrived.value.stop
    ensures next <= |ticks|
    ensures made.Some? ==> next < |ticks| && ticks[next].registered
    ensures made.Some? ==>
      fresh(made.value) && fresh(made.value.plan) && fresh(made.value.plan.nextSched) && fresh(made.value.plan.nextSeq)
    ensures made.Some? ==> made.value.Valid() && made.value.plan.emitted == [] && made.value.plan.streams == streams
    ensures made.Some? ==> made.value.plan.start == ticks[next].now
    ensures made.Some? ==>
      made.value.Current() == CourseAfter(SpanOf(provisional), ServerBeats(ticks[..next], next))
  {
    var window, final := provisional, false;
    next := 0;
    while next < |ticks| && ticks[next].now < window.drain
      invariant next <= |ticks| && 0 < window.stop
      invariant Course(SpanOf(window), final, -1, -1) ==
                CourseAfter(SpanOf(provisional), ServerBeats(ticks[..next], |ticks|))
    {
      var tick := ticks[next];
      if tick.registered {
        var driver := new Driver(streams, tick.now, window, final);
        NoPlanYet(SpanOf(provisional), ticks, next, driver.Current(), next);
        return Some(driver), next;
      }
      if tick.now >= window.start { return None, next; }
      if !final && tick.arrived.Some? { window, final := tick.arrived.value, true; }
      ServerBeatsMore(SpanOf(provisional), ticks, |ticks|, next, next + 1);
      next := next + 1;
    }
    return None, next;
  }

  method ServerTurn(driver: Driver, tick: ServerTick, log: seq<TargetEntry>, targets: nat, tr: Transport)
    returns (log': seq<TargetEntry>)
    requires driver.Valid() && (tick.arrived.Some? ==> 0 < tick.arrived.value.stop)
    requires AllTargets(log, targets, driver.plan.emitted) && Answered(log, 0, true, tr)
    requires forall k :: 0 <= k < |log| ==> log[k].entry.slot in driver.plan.emitted
    modifies driver, driver.plan, driver.plan.nextSched, driver.plan.nextSeq
    ensures driver.Valid() && AllTargets(log', targets, driver.plan.emitted) && Answered(log', 0, true, tr)
    ensures forall k :: 0 <= k < |log'| ==> log'[k].entry.slot in driver.plan.emitted
    ensures driver.Current() == Turned(old(driver.Current()), Beat(tick.now, true, SpanOrNone(tick.arrived)))
  {
    ghost var sofar := driver.plan.emitted;
    driver.Settle(tick.now, tick.arrived);
    var slots := driver.Due(tick.now);
    log' := ServerSend(log, slots, true, targets, tr, sofar);
    assert forall k :: 0 <= k < |log| ==> log'[k] == log[k];
  }

  /** After the loop: what is left is accounted. */
  method FinishServer(driver: Driver, log: seq<TargetEntry>, targets: nat, tr: Transport)
    returns (log': seq<TargetEntry>)
    requires driver.Valid() && AllTargets(log, targets, driver.plan.emitted) && Answered(log, 0, true, tr)
    requires forall k :: 0 <= k < |log| ==> log[k].entry.slot in driver.plan.emitted
    modifies driver, driver.plan, driver.plan.nextSched, driver.plan.nextSeq
    ensures driver.Valid() && AllTargets(log', targets, driver.plan.emitted)
    ensures driver.window == old(driver.window) && driver.adopted == old(driver.adopted)
    ensures EachOnce(driver.plan.streams, driver.plan.start, driver.plan.emitted, driver.window.stop)
    ensures InRange(driver.plan.streams, driver.plan.start, driver.plan.emitted, driver.window, driver.adopted)
    ensures InTime(driver.plan.emitted, driver.window.stop, driver.adopted)
    ensures AccountedToAll(log', old(driver.drained), tr)
  {
    ghost var sofar, drained := driver.plan.emitted, driver.drained;
    var rest := driver.Rest();
    log' := ServerSend(log, rest, false, targets, tr, sofar);
    AccountedToAllOf(log, log', sofar, rest, drained, tr);
  }

  /** The loop of `run_server`: once it has a plan, every slot before the end of the window is accounted once for each
      client. */
  method RunServer(streams: seq<Stream>, provisional: Schedule, ticks: seq<ServerTick>, targets: nat,
                   tr: Transport)
    returns (log: seq<TargetEntry>, made: Option<Driver>, ghost from: nat, ghost turns: nat)
    requires Intervals(streams) && 0 < provisional.stop
    requires forall t :: t in ticks && t.arrived.Some? ==> 0 < t.arrived.value.stop
    ensures made == None ==> log == []
    ensures made.Some? ==> made.value.Valid() && made.value.plan.streams == streams
    ensures made.Some? ==> AllTargets(log, targets, made.value.plan.emitted)
    ensures made.Some? ==> EachOnce(streams, made.value.plan.start, made.value.plan.emitted, made.value.window.stop)
    ensures made.Some? ==>
      InRange(streams, made.value.plan.start, made.value.plan.emitted, made.value.window, made.value.adopted)
    ensures made.Some? ==> InTime(made.value.plan.emitted, made.value.window.stop, made.value.adopted)
    ensures made.Some? ==> from <= turns <= |ticks| && from < |ticks| && ticks[from].registered
    ensures made.Some? ==>
      var d := CourseAfter(SpanOf(provisional), ServerBeats(ticks[..turns], from));
      && d.window == SpanOf(made.value.window) && d.adopted == made.value.adopted
      && AccountedToAll(log, d.drained, tr)
  {
    log := [];
    var i: nat;
    made, i := AwaitClients(streams, provisional, ticks);
    from, turns := i, i;
    if made == None { return; }
    var driver := made.value;
    while i < |ticks| && ticks[i].now < driver.window.drain
      invariant from <= i <= |ticks| && driver.Valid() && AllTargets(log, targets, driver.plan.emitted)
      invariant driver.Current() == CourseAfter(SpanOf(provisional), ServerBeats(ticks[..i], from))
      invariant Answered(log, 0, true, tr)
      invariant forall k :: 0 <= k < |log| ==> log[k].entry.slot in driver.plan.emitted
    {
      ServerBeatsMore(SpanOf(provisional), ticks, from, i, i + 1);
      log := ServerTurn(driver, ticks[i], log, targets, tr);
      i := i + 1;
    }
    turns := i;
    log := FinishServer(driver, log, targets, tr);
  }
}
