/** The protocol and the loops together: what a process did with its plan before the window of the result reached it,
    and so how many slots it measured. In a completed valid run that is the number the orchestrator expects; at most
    the slot of the window's first nanosecond can be missing. */
module MeasuredRuns {
  import opened MachineWords
  import opened ControlServer
  import opened ControlRuns
  import opened SlotMerge
  import opened SlotAccounting

  // ----- the course of a process -----------------------------------------------------------------

  function SpanOfWindow(w: Window): Span { Span(w.start, w.stop) }

  /** The turn of its loop that a process takes in a step, if it takes one. */
  function BeatOfStep(s: State, i: nat, step: Step, drains: bool): seq<Beat>
    requires |s.procs| == |s.down|
  {
    if step.Turn? && step.i == i && i < |s.procs| && s.procs[i].phase == Running then
      var queue := s.down[i];
      var arrived := if queue != [] && queue[0].NewWindow? then Some(SpanOfWindow(queue[0].window)) else None;
      [Beat(step.now, drains, arrived)]
    else []
  }

  /** The turns of the loop of process i; `drains` says in which of them the plan is drained. */
  ghost function BeatsOf(cfg: Config, roles: seq<Role>, steps: seq<Step>, i: nat, drains: nat -> bool): seq<Beat> {
    if steps == [] then []
    else
      var n: nat := |steps| - 1;
      BeatsOf(cfg, roles, steps[..n], i, drains) + BeatOfStep(After(cfg, roles, steps[..n]), i, steps[n], drains(n))
  }

  /** The schedule process i took. */
  ghost function Took(cfg: Config, roles: seq<Role>, steps: seq<Step>, i: nat): Span {
    if steps == [] then Span(0, 0)
    else
      var n: nat := |steps| - 1;
      var s := After(cfg, roles, steps[..n]);
      if (steps[n].Take? && steps[n].i == i && i < |s.procs| && s.procs[i].phase == Waiting
          && s.down[i] != [] && s.down[i][0].Schedule?) then SpanOfWindow(s.down[i][0].schedule)
      else Took(cfg, roles, steps[..n], i)
  }

  ghost function CourseOf(cfg: Config, roles: seq<Role>, steps: seq<Step>, i: nat, drains: nat -> bool): Course {
    CourseAfter(Took(cfg, roles, steps, i), BeatsOf(cfg, roles, steps, i, drains))
  }

  /** The clock of process i does not run backwards. */
  ghost predicate Rising(steps: seq<Step>, i: nat) {
    && (forall a :: 0 <= a < |steps| && IsTurn(steps[a], i) ==> 0 <= steps[a].now <= steps[a].heard)
    && (forall a, b :: 0 <= a < b < |steps| && IsTurn(steps[a], i) && IsTurn(steps[b], i) ==>
          steps[a].now <= steps[b].now)
  }

  predicate IsTurn(step: Step, i: nat) { step.Turn? && step.i == i }

  /** Nothing was drained beyond the last turn. */
  ghost predicate Behind(steps: seq<Step>, i: nat, drained: int) {
    drained == -1 || exists a :: 0 <= a < |steps| && IsTurn(steps[a], i) && drained <= steps[a].now
  }

  /** Some turn took a window over at the time `at`; what had been drained then was drained in an earlier turn. */
  ghost predicate TookOver(steps: seq<Step>, i: nat, drained: int, at: int) {
    exists b: nat :: b < |steps| && TakesOver(steps, i, drained, at, b)
  }

  ghost predicate TakesOver(steps: seq<Step>, i: nat, drained: int, at: int, b: nat)
    requires b < |steps|
  {
    IsTurn(steps[b], i) && steps[b].heard == at && Behind(steps[..b], i, drained)
  }

  lemma TookOverMore(steps: seq<Step>, i: nat, drained: int, at: int, n: nat)
    requires n + 1 == |steps| && TookOver(steps[..n], i, drained, at)
    ensures TookOver(steps, i, drained, at)
  {
    var b: nat :| b < n && TakesOver(steps[..n], i, drained, at, b);
    assert steps[..n][..b] == steps[..b];
    assert TakesOver(steps, i, drained, at, b);
  }

  /** What had been drained when a window was taken over was due by then; if it was due exactly then, both turns were
      at that nanosecond. */
  lemma TookOverLater(steps: seq<Step>, i: nat, drained: int, at: int)
    requires Rising(steps, i) && TookOver(steps, i, drained, at)
    ensures drained <= at && -1 < at
    ensures drained == at ==> TwoTurnsAt(steps, i, at)
  {
    var b: nat :| b < |steps| && TakesOver(steps, i, drained, at, b);
    if drained != -1 {
      var a: nat :| a < b && IsTurn(steps[..b][a], i) && drained <= steps[..b][a].now;
      assert IsTurn(steps[a], i) && steps[a].now <= steps[b].now <= at;
    }
  }

  /** Two turns of process i were at the same nanosecond, the second one with its message. */
  ghost predicate TwoTurnsAt(steps: seq<Step>, i: nat, at: int) {
    exists a: nat, b: nat ::
      && a < b < |steps| && IsTurn(steps[a], i) && IsTurn(steps[b], i)
      && steps[a].now == steps[b].now == steps[b].heard == at
  }

  lemma BehindMore(steps: seq<Step>, i: nat, drained: int, n: nat)
    requires n + 1 == |steps| && Behind(steps[..n], i, drained)
    ensures Behind(steps, i, drained)
  {
    if drained != -1 {
      var a :| 0 <= a < n && IsTurn(steps[..n][a], i) && drained <= steps[..n][a].now;
      assert IsTurn(steps[a], i);
    }
  }

  /** The process and its course agree. */
  ghost predicate Follows(steps: seq<Step>, i: nat, p: Process, d: Course, beats: seq<Beat>) {
    && Behind(steps, i, d.drained)
    && match p.phase
       case Running => RunsAlong(steps, i, p, d)
       case Ended => RunsAlong(steps, i, p, d)
       case Broken => true
       case _ => beats == [] && p.adopted == None && !p.final
  }

  ghost predicate RunsAlong(steps: seq<Step>, i: nat, p: Process, d: Course) {
    && d.window == SpanOfWindow(p.window) && d.final == p.final
    && (if p.adopted.Some? then p.final && TookOver(steps, i, d.adopted, p.adopted.value) else d.adopted == -1)
  }

  lemma AlongMore(steps: seq<Step>, i: nat, p: Process, d: Course, n: nat)
    requires n + 1 == |steps| && RunsAlong(steps[..n], i, p, d)
    ensures RunsAlong(steps, i, p, d)
  {
    if p.adopted.Some? { TookOverMore(steps, i, d.adopted, p.adopted.value, n); }
  }

  lemma TurnFollows(steps: seq<Step>, i: nat, n: nat, p: Process, queue: seq<Message>, d: Course, drains: bool,
                    d': Course)
    requires n + 1 == |steps| && IsTurn(steps[n], i)
    requires Behind(steps[..n], i, d.drained) && RunsAlong(steps[..n], i, p, d) && p.phase == Running
    requires var arrived := if queue != [] && queue[0].NewWindow? then Some(SpanOfWindow(queue[0].window)) else None;
      d' == Turned(d, Beat(steps[n].now, drains, arrived))
    ensures Behind(steps, i, d'.drained)
    ensures var p' := SteadyTick(p, queue, steps[n].now, steps[n].heard, steps[n].report).process;
      (p'.phase == Running && RunsAlong(steps, i, p', d')) || p'.phase == Broken
  {
    BehindMore(steps, i, d.drained, n);
    AlongMore(steps, i, p, d, n);
    var p' := SteadyTick(p, queue, steps[n].now, steps[n].heard, steps[n].report).process;
    if p'.adopted != p.adopted {
      assert TakesOver(steps, i, d.drained, steps[n].heard, n);
    }
  }

  /** In every run, at every moment. */
  lemma {:induction false} ProcessFollows(cfg: Config, roles: seq<Role>, steps: seq<Step>, i: nat, drains: nat -> bool)
    requires i < |After(cfg, roles, steps).procs|
    ensures Follows(steps, i, After(cfg, roles, steps).procs[i], CourseOf(cfg, roles, steps, i, drains),
                    BeatsOf(cfg, roles, steps, i, drains))
  {
    if steps != [] {
      var n: nat := |steps| - 1;
      var s := After(cfg, roles, steps[..n]);
      assert i < |s.procs|;
      ProcessFollows(cfg, roles, steps[..n], i, drains);
      StepFollows(cfg, roles, steps, i, drains, n, s, CourseOf(cfg, roles, steps[..n], i, drains));
    }
  }

  lemma {:induction false} StepFollows(cfg: Config, roles: seq<Role>, steps: seq<Step>, i: nat, drains: nat -> bool,
                                       n: nat, s: State, d: Course)
    requires n + 1 == |steps| && s == After(cfg, roles, steps[..n]) && i < |s.procs|
    requires d == CourseOf(cfg, roles, steps[..n], i, drains)
    requires Follows(steps[..n], i, s.procs[i], d, BeatsOf(cfg, roles, steps[..n], i, drains))
    ensures i < |After(cfg, roles, steps).procs|
    ensures Follows(steps, i, After(cfg, roles, steps).procs[i], CourseOf(cfg, roles, steps, i, drains),
                    BeatsOf(cfg, roles, steps, i, drains))
  {
    BehindMore(steps, i, d.drained, n);
    if s.procs[i].phase == Running || s.procs[i].phase == Ended { AlongMore(steps, i, s.procs[i], d, n); }
    var beats := BeatsOf(cfg, roles, steps[..n], i, drains);
    var more := BeatOfStep(s, i, steps[n], drains(n));
    if more == [] {
      assert beats + more == beats;
      QuietFollows(cfg, s, i, steps[n]);
    } else {
      CourseMore(Took(cfg, roles, steps[..n], i), beats, more[0]);
      TurnFollows(steps, i, n, s.procs[i], s.down[i], d, drains(n), Turned(d, more[0]));
    }
  }

  /** Without a turn of its loop a process changes only before it and at its end. */
  lemma QuietFollows(cfg: Config, s: State, i: nat, step: Step)
    requires Shaped(s) && i < |s.procs| && BeatOfStep(s, i, step, true) == []
    ensures |Do(cfg, s, step).procs| == |s.procs|
    ensures var p, p' := s.procs[i], Do(cfg, s, step).procs[i];
      || p' == p || p' == p.(phase := Broken)
      || (p.phase == Starting && p' == p.(phase := Greeted)) || (p.phase == Greeted && p' == p.(phase := Waiting))
      || (p.phase == Running && p' == p.(phase := Ended, ended := p'.ended))
      || (p.phase == Waiting && step.Take? && step.i == i && s.down[i] != [] && s.down[i][0].Schedule?
          && p' == p.(phase := Running, window := s.down[i][0].schedule, took := p'.took))
  {
  }

  // ----- what is measured ------------------------------------------------------------------------

  lemma {:induction false} EmittedSplits(slots: seq<Slot>, i: nat, lo: int, mid: int, hi: int)
    requires lo <= mid <= hi
    ensures EmittedWithin(slots, i, lo, hi) == EmittedWithin(slots, i, lo, mid) + EmittedWithin(slots, i, mid, hi)
  {
    if slots != [] { EmittedSplits(slots[..|slots| - 1], i, lo, mid, hi); }
  }

  /** The slots that are not measured because they were emitted before the window was taken over: if the plan had been
      drained up to the very start of the window, the one of that nanosecond. */
  function Missed(emitted: seq<Slot>, i: nat, window: Schedule, adopted: int): nat {
    if adopted == window.start then EmittedWithin(emitted, i, window.start, window.start + 1) else 0
  }

  lemma {:induction false} MeasuredButMissed(streams: seq<Stream>, start: nat, emitted: seq<Slot>, window: Schedule,
                                             drained: int, adopted: int, i: nat)
    requires IsMerge(streams, start, emitted) && Intervals(streams) && i < |streams|
    requires Drained(streams, start, emitted, window, true, drained, adopted)
    requires window.start < window.stop && window.stop - 1 <= drained && adopted <= window.start
    ensures Missed(emitted, i, window, adopted) <= 1
    ensures Measured(emitted, i) + Missed(emitted, i, window, adopted) ==
            EmittedWithin(emitted, i, window.start, window.stop)
  {
    MeasuredInRange(streams, start, emitted, window, drained, adopted, i);
    if adopted == window.start {
      EmittedSplits(emitted, i, window.start, window.start + 1, window.stop);
      EmittedAreWithin(streams, start, emitted, i, window.start, window.start + 1);
      assert NextTime(streams, start, emitted, i) >= window.stop;
      OneInOne(start, streams[i].interval, window.start, Count(emitted, i));
    }
  }

  /** A stream has one slot in a nanosecond at most. */
  lemma OneInOne(start: nat, interval: nat, at: int, n: nat)
    requires 0 < interval && Time(start, interval, n) >= at + 1
    ensures Within(start, interval, at, at + 1, n) <= 1
  {
    var c := Within(start, interval, at, at + 1, n);
    WindowBounds(start, interval, at, at + 1, n);
    if c > 1 { TwiceIsMore(c - 1, interval); }
  }

  lemma TwiceIsMore(k: nat, interval: nat)
    requires 0 < k && 0 < interval
    ensures k * interval >= 1
  {
  }

  /** What is left of the window for the slots of a process in a valid run. */
  lemma CourseInValidRun(cfg: Config, roles: seq<Role>, steps: seq<Step>, i: nat, drains: nat -> bool, d: Course)
    requires After(cfg, roles, steps).run.stage == Completed && !After(cfg, roles, steps).run.invalid
    requires i in After(cfg, roles, steps).run.participants && Rising(steps, i)
    requires d == CourseOf(cfg, roles, steps, i, drains)
    ensures var w := After(cfg, roles, steps).run.schedule;
      && d.window == SpanOfWindow(w) && w.stop == w.start + cfg.duration
      && (d.adopted <= w.start || d.adopted == -1)
      && (d.adopted == w.start != -1 ==> TwoTurnsAt(steps, i, w.start))
  {
    Agreement(cfg, roles, steps);
    ProcessFollows(cfg, roles, steps, i, drains);
    var p := After(cfg, roles, steps).procs[i];
    assert RunsAlong(steps, i, p, d);
    if p.adopted.Some? { TookOverLater(steps, i, d.adopted, p.adopted.value); }
  }

  /** In a completed valid run, the slots a process measured and the one it may have missed are as many as the
      orchestrator expects, for every stream whose plan was not started too late. A slot is missed only if the process
      drained its plan at the very nanosecond the window starts at, and took the window over at that nanosecond. */
  lemma MeasuredInValidRun(cfg: Config, roles: seq<Role>, steps: seq<Step>, i: nat, drains: nat -> bool, d: Course,
                           streams: seq<Stream>, start: nat, emitted: seq<Slot>, window: Schedule, drained: int, k: nat)
    requires After(cfg, roles, steps).run.stage == Completed && !After(cfg, roles, steps).run.invalid
    requires i in After(cfg, roles, steps).run.participants && Rising(steps, i)
    requires d == CourseOf(cfg, roles, steps, i, drains) && d.window == SpanOf(window) && 0 < cfg.duration
    requires IsMerge(streams, start, emitted) && Intervals(streams) && k < |streams|
    requires Drained(streams, start, emitted, window, true, drained, d.adopted) && window.stop - 1 <= drained
    ensures SpanOf(window) == SpanOfWindow(After(cfg, roles, steps).run.schedule)
    ensures Missed(emitted, k, window, d.adopted) <= 1
    ensures Missed(emitted, k, window, d.adopted) == 1 ==> TwoTurnsAt(steps, i, window.start)
    ensures var n, interval := Measured(emitted, k) + Missed(emitted, k, window, d.adopted), IntervalOf(streams, k);
      && n <= PerStreamMax(cfg.duration, interval)
      && (PerStreamMin(cfg.duration, interval) <= n <==>
          cfg.duration < interval || start < window.start + interval + cfg.duration % interval)
  {
    CourseInValidRun(cfg, roles, steps, i, drains, d);
    CountInWindow(streams, start, emitted, window, drained, d.adopted, k);
  }

  lemma {:induction false} CountInWindow(streams: seq<Stream>, start: nat, emitted: seq<Slot>, window: Schedule,
                                         drained: int, adopted: int, k: nat)
    requires IsMerge(streams, start, emitted) && Intervals(streams) && k < |streams|
    requires Drained(streams, start, emitted, window, true, drained, adopted)
    requires window.start < window.stop && window.stop - 1 <= drained && adopted <= window.start
    ensures Missed(emitted, k, window, adopted) <= 1
    ensures var n, interval := Measured(emitted, k) + Missed(emitted, k, window, adopted), IntervalOf(streams, k);
      && n <= PerStreamMax(window.stop - window.start, interval)
      && (PerStreamMin(window.stop - window.start, interval) <= n <==>
          window.stop - window.start < interval
          || start < window.start + interval + (window.stop - window.start) % interval)
  {
    MeasuredButMissed(streams, start, emitted, window, drained, adopted, k);
    EmittedAreWithin(streams, start, emitted, k, window.start, window.stop);
    assert NextTime(streams, start, emitted, k) >= window.stop;
    WindowCount(start, IntervalOf(streams, k), window.start, window.stop, Count(emitted, k));
  }
}
