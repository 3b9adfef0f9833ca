/** The control protocol over all interleavings: a server, any number of processes, a channel each way for each of
    them, and a timer that may expire at any moment. In a completed run all processes measured the same window. */
module ControlRuns {
  import opened MachineWords
  import opened ControlServer

  // ----- processes -------------------------------------------------------------------------------

  datatype Phase = Starting | Greeted | Waiting | Running | Ended | Broken

  /** The control side of a benchmark process: its schedule, whether it still waits for a window, when it took its
      schedule, when it took over a window that replaced the provisional one, and when it ended. */
  datatype Process = Process(role: Role, phase: Phase, window: Window, final: bool, took: Option<int>,
                             adopted: Option<int>, ended: Option<int>)

  /** A step of a process: its new state, what it took from its channel, and what it sent. */
  datatype Move = Move(process: Process, taken: nat, sent: seq<Event>)

  function BrokenMove(p: Process): Move { Move(p.(phase := Broken), 0, []) }

  /** `wait_schedule`: the first message must be a schedule; it is acknowledged with the time left to its start. */
  function TakeSchedule(p: Process, queue: seq<Message>, now: int): Move {
    if queue == [] then Move(p, 0, [])
    else if queue[0].Schedule? then
      Move(p.(phase := Running, window := queue[0].schedule, took := Some(now)), 1,
           [SchedAck(queue[0].schedule.start - now)])
    else BrokenMove(p)
  }

  /** `bk_control_poll_window`; the clock is read when a message is there. */
  function PollWindow(p: Process, queue: seq<Message>, heard: int): Move {
    if queue == [] then Move(p, 0, [])
    else if queue[0].NewWindow? then
      Move(p.(window := queue[0].window, final := true, adopted := Some(heard)), 1,
           [WindowAck(queue[0].window.start - heard)])
    else BrokenMove(p)
  }

  /** `bk_steady_tick`, and the server's variant of it, which reports no rates: once the window has opened or was
      replaced nothing more is awaited. */
  function SteadyTick(p: Process, queue: seq<Message>, now: int, heard: int, report: bool): Move {
    if p.final then Move(p, 0, [])
    else if now >= p.window.start then Move(p.(final := true), 0, [])
    else
      var m := PollWindow(p, queue, heard);
      if report && p.role == ClientRole then m.(sent := [Rate] + m.sent) else m
  }

  /** The loop ends when the drain time has passed. */
  function EndLoop(p: Process, now: int): Move {
    if now >= p.window.drain then Move(p.(phase := Ended, ended := Some(now)), 0, [Done]) else Move(p, 0, [])
  }

  // ----- the system ------------------------------------------------------------------------------

  datatype State = State(run: Run, procs: seq<Process>, down: seq<seq<Message>>, up: seq<seq<Event>>)

  datatype Step =
    | Greet(i: nat, procIndex: int)
    | SayReady(i: nat)
    | Take(i: nat, now: int)
    | Turn(i: nat, now: int, heard: int, report: bool)
    | End(i: nat, now: int)
    | Break(i: nat)
    | Deliver(i: nat, clock: Stage -> int, steady: bool)
    | TimerFires
    | ServerFails

  ghost predicate Shaped(s: State) { |s.procs| == |s.down| == |s.up| }

  function Initial(roles: seq<Role>): State {
    State(NewRun,
          seq(|roles|, i requires 0 <= i < |roles| =>
            Process(roles[i], Starting, NoWindow, false, None, None, None)),
          seq(|roles|, _ => []), seq(|roles|, _ => []))
  }

  /** What a process does in its phase. */
  function MoveOf(p: Process, queue: seq<Message>, step: Step): Move {
    match (step, p.phase)
    case (Greet(_, procIndex), Starting) => Move(p.(phase := Greeted), 0, [Hello(p.role, procIndex)])
    case (SayReady(_), Greeted) => Move(p.(phase := Waiting), 0, [Ready])
    case (Take(_, now), Waiting) => TakeSchedule(p, queue, now)
    case (Turn(_, now, heard, report), Running) => SteadyTick(p, queue, now, heard, report)
    case (End(_, now), Running) => EndLoop(p, now)
    case (Break(_), _) => if p.phase == Ended then Move(p, 0, []) else BrokenMove(p)
    case _ => Move(p, 0, [])
  }

  function ProcessStep(s: State, i: nat, step: Step): State
    requires i < |s.procs| == |s.down| == |s.up|
  {
    var m := MoveOf(s.procs[i], s.down[i], step);
    if m.taken > |s.down[i]| then s
    else
      State(s.run, s.procs[i := m.process], s.down[i := s.down[i][m.taken..]], s.up[i := s.up[i] + m.sent])
  }

  /** Messages go to every participant. */
  function Broadcast(down: seq<seq<Message>>, to: map<nat, Participant>, sent: seq<Message>): seq<seq<Message>> {
    seq(|down|, i requires 0 <= i < |down| => if i in to then down[i] + sent else down[i])
  }

  function ServerStep(cfg: Config, s: State, i: nat, clock: Stage -> int, steady: bool): State
    requires i < |s.procs| == |s.down| == |s.up| && s.up[i] != []
  {
    var (run, sent) := Handle(cfg, s.run, i, s.up[i][0], clock, steady);
    State(run, s.procs, Broadcast(s.down, run.participants, sent), s.up[i := s.up[i][1..]])
  }

  /** A step that is not possible changes nothing. */
  function Do(cfg: Config, s: State, step: Step): State
    requires |s.procs| == |s.down| == |s.up|
  {
    match step
    case Deliver(i, clock, steady) =>
      if i < |s.procs| && s.up[i] != [] then ServerStep(cfg, s, i, clock, steady) else s
    case TimerFires => if s.run.stage == Completed then s else s.(run := Expire(s.run))
    case ServerFails => if s.run.stage == Completed then s else s.(run := s.run.(stage := Failed))
    case _ => if step.i < |s.procs| then ProcessStep(s, step.i, step) else s
  }

  ghost function After(cfg: Config, roles: seq<Role>, steps: seq<Step>): (s: State)
    ensures Shaped(s)
  {
    if steps == [] then Initial(roles) else Do(cfg, After(cfg, roles, steps[..|steps| - 1]), steps[|steps| - 1])
  }

  // ----- the invariant ---------------------------------------------------------------------------

  function Provisional(cfg: Config, run: Run): Window { WindowAt(run.issued + cfg.warmup, cfg) }

  /** Everything the server has sent to a participant. */
  function SentSoFar(cfg: Config, run: Run): seq<Message> {
    (if run.scheduleSent then [Schedule(Provisional(cfg, run))] else []) +
    (if run.windowSent then [NewWindow(run.schedule)] else [])
  }

  function SentTo(cfg: Config, run: Run, i: nat): seq<Message> {
    if i in run.participants then SentSoFar(cfg, run) else []
  }

  /** A process and what is still on the way to it. */
  ghost predicate ProcOk(cfg: Config, run: Run, i: nat, p: Process, down: seq<Message>) {
    && (p.adopted.Some? ==> run.windowSent && p.final)
    && match p.phase
       case Running => RunningOk(cfg, run, i, p, down)
       case Ended => RunningOk(cfg, run, i, p, down) && p.ended.Some? && p.window.drain <= p.ended.value
       case Broken => true
       case _ => p.took == None && p.adopted == None && !p.final && down == SentTo(cfg, run, i)
  }

  ghost predicate RunningOk(cfg: Config, run: Run, i: nat, p: Process, down: seq<Message>) {
    && i in run.participants && run.scheduleSent
    && (if p.adopted.Some? then p.window == run.schedule && down == []
        else p.window == Provisional(cfg, run) && down == SentSoFar(cfg, run)[1..])
  }

  /** A process and what the server has heard from it or will hear. */
  ghost predicate UpOk(cfg: Config, run: Run, i: nat, p: Process, up: seq<Event>) {
    && (forall e :: e in up && e.SchedAck? ==>
          p.took.Some? && run.scheduleSent && e.margin == Provisional(cfg, run).start - p.took.value)
    && (i in run.participants && run.participants[i].ack ==>
          p.took.Some? && run.scheduleSent && (!run.invalid ==> p.took.value <= Provisional(cfg, run).start))
    && (i in run.participants && run.participants[i].done ==> run.participants[i].ack)
    && (forall e :: e in up && e.WindowAck? ==>
          p.adopted.Some? && e.windowMargin == run.schedule.start - p.adopted.value)
    && (i in run.windowAcked ==> p.adopted.Some? && (!run.invalid ==> p.adopted.value <= run.schedule.start))
    && (Done in up ==> p.phase == Ended)
    && (i in run.participants && run.participants[i].done ==> p.phase == Ended)
  }

  ghost predicate RunOk(cfg: Config, run: Run) {
    && |run.participants| <= cfg.expected && run.windowAcked <= run.participants.Keys
    && (run.scheduleSent <==> run.stage != HelloStage && run.stage != ReadyStage)
    && (run.scheduleSent ==> |run.participants| == cfg.expected)
    && (run.windowSent ==> cfg.steady && run.stage in {WindowAckStage, DoneStage, Completed})
    && (run.windowSent ==>
          run.schedule == WindowAt(run.schedule.start, cfg) && run.schedule.start < Provisional(cfg, run).start &&
          (cfg.minWarmup > 0 ==> run.issued + cfg.minWarmup + cfg.guard <= run.schedule.start))
    && (run.scheduleSent && !run.windowSent ==> run.schedule == Provisional(cfg, run) && run.stage != WindowAckStage)
    && (run.windowSent && run.stage != WindowAckStage ==> run.windowAcked == run.participants.Keys)
    && (run.stage in {WindowStage, WindowAckStage} ==> cfg.steady)
    && run.published ==
       (if run.stage in {WindowAckStage, DoneStage, Completed} || (run.stage == AckStage && !cfg.steady)
                         then [run.schedule] else [])
    && (run.stage == Completed ==> DoneOnes(run) == run.participants.Keys)
    && run.steadyReached == run.windowSent
  }

  ghost predicate Inv(cfg: Config, run: Run, procs: seq<Process>, down: seq<seq<Message>>, up: seq<seq<Event>>) {
    && |procs| == |down| == |up| && RunOk(cfg, run)
    && (forall i :: i in run.participants ==> i < |procs|)
    && (forall i :: 0 <= i < |procs| ==> ProcOk(cfg, run, i, procs[i], down[i]))
    && (forall i :: 0 <= i < |procs| ==> UpOk(cfg, run, i, procs[i], up[i]))
  }

  ghost predicate Good(cfg: Config, s: State) {
    && |s.run.published| <= 1
    && (s.run.stage != Failed ==> Inv(cfg, s.run, s.procs, s.down, s.up))
  }

  // ----- processes keep it -----------------------------------------------------------------------

  lemma TakeKeeps(cfg: Config, run: Run, i: nat, p: Process, down: seq<Message>, up: seq<Event>, now: int)
    requires ProcOk(cfg, run, i, p, down) && UpOk(cfg, run, i, p, up) && p.phase == Waiting
    ensures var m := TakeSchedule(p, down, now);
      m.taken <= |down| && ProcOk(cfg, run, i, m.process, down[m.taken..]) && UpOk(cfg, run, i, m.process, up + m.sent)
  {
  }

  lemma TickKeeps(cfg: Config, run: Run, i: nat, p: Process, down: seq<Message>, up: seq<Event>, now: int, heard: int,
                  report: bool)
    requires ProcOk(cfg, run, i, p, down) && UpOk(cfg, run, i, p, up) && p.phase == Running
    ensures var m := SteadyTick(p, down, now, heard, report);
      m.taken <= |down| && ProcOk(cfg, run, i, m.process, down[m.taken..]) && UpOk(cfg, run, i, m.process, up + m.sent)
  {
  }

  lemma EndKeeps(cfg: Config, run: Run, i: nat, p: Process, down: seq<Message>, up: seq<Event>, now: int)
    requires ProcOk(cfg, run, i, p, down) && UpOk(cfg, run, i, p, up) && p.phase == Running
    ensures var m := EndLoop(p, now);
      m.taken == 0 && ProcOk(cfg, run, i, m.process, down) && UpOk(cfg, run, i, m.process, up + m.sent)
  {
  }

  lemma MoveKeeps(cfg: Config, run: Run, i: nat, p: Process, down: seq<Message>, up: seq<Event>, step: Step)
    requires ProcOk(cfg, run, i, p, down) && UpOk(cfg, run, i, p, up)
    ensures var m := MoveOf(p, down, step);
      m.taken <= |down| && ProcOk(cfg, run, i, m.process, down[m.taken..]) && UpOk(cfg, run, i, m.process, up + m.sent)
  {
    assert down[0..] == down && up + [] == up;
    match (step, p.phase) {
      case (Take(_, now), Waiting) => TakeKeeps(cfg, run, i, p, down, up, now);
      case (Turn(_, now, heard, report), Running) => TickKeeps(cfg, run, i, p, down, up, now, heard, report);
      case (End(_, now), Running) => EndKeeps(cfg, run, i, p, down, up, now);
      case _ =>
    }
  }

  lemma ProcessKeeps(cfg: Config, s: State, i: nat, step: Step)
    requires Inv(cfg, s.run, s.procs, s.down, s.up) && i < |s.procs|
    ensures var s' := ProcessStep(s, i, step); Inv(cfg, s'.run, s'.procs, s'.down, s'.up)
  {
    MoveKeeps(cfg, s.run, i, s.procs[i], s.down[i], s.up[i], step);
  }

  // ----- an event keeps it -----------------------------------------------------------------------

  lemma SubsetSize<T>(a: set<T>, b: set<T>)
    requires a <= b
    ensures |a| <= |b| && (|a| >= |b| ==> a == b)
  {
    assert b == a + (b - a);
  }

  lemma MapSize<K, V>(m: map<K, V>, k: K, v: V)
    ensures m[k := v].Keys == m.Keys + {k}
    ensures |m| == |m.Keys|
    ensures |m[k := v]| == |m| + (if k in m then 0 else 1)
  {
    assert m[k := v].Keys == m.Keys + {k};
    assert k in m ==> m.Keys + {k} == m.Keys;
  }

  lemma ApplyRunOk(cfg: Config, s: Run, conn: nat, ev: Event)
    requires RunOk(cfg, s) && s.stage != Completed && Apply(cfg, s, conn, ev).Some?
    ensures RunOk(cfg, Apply(cfg, s, conn, ev).value)
  {
    if conn in s.participants {
      KnownRunOk(cfg, s, conn, ev);
    } else {
      MapSize(s.participants, conn, Participant(ev.role, false, false, false));
    }
  }

  lemma KnownRunOk(cfg: Config, s: Run, conn: nat, ev: Event)
    requires RunOk(cfg, s) && s.stage != Completed && conn in s.participants && Apply(cfg, s, conn, ev).Some?
    ensures RunOk(cfg, Apply(cfg, s, conn, ev).value)
  {
    var p := s.participants[conn];
    match ev
    case Ready => MapSize(s.participants, conn, p.(ready := true));
    case SchedAck(_) => MapSize(s.participants, conn, p.(ack := true));
    case Done => MapSize(s.participants, conn, p.(done := true));
    case Rate =>
    case WindowAck(_) =>
  }

  lemma ApplyProcOk(cfg: Config, s: Run, conn: nat, ev: Event, i: nat, p: Process, down: seq<Message>)
    requires RunOk(cfg, s) && Apply(cfg, s, conn, ev).Some? && ProcOk(cfg, s, i, p, down)
    ensures ProcOk(cfg, Apply(cfg, s, conn, ev).value, i, p, down)
  {
  }

  lemma ApplyUpOk(cfg: Config, s: Run, conn: nat, ev: Event, i: nat, p: Process, up: seq<Event>)
    requires RunOk(cfg, s) && Apply(cfg, s, conn, ev).Some? && UpOk(cfg, s, i, p, up)
    requires conn == i ==> up != [] && up[0] == ev
    ensures UpOk(cfg, Apply(cfg, s, conn, ev).value, i, p, if conn == i then up[1..] else up)
  {
    if conn == i { assert ev in up; }
  }

  lemma ApplyKeeps(cfg: Config, s: State, conn: nat)
    requires Inv(cfg, s.run, s.procs, s.down, s.up) && s.run.stage != Completed
    requires conn < |s.up| && s.up[conn] != [] && Apply(cfg, s.run, conn, s.up[conn][0]).Some?
    ensures Inv(cfg, Apply(cfg, s.run, conn, s.up[conn][0]).value, s.procs, s.down, s.up[conn := s.up[conn][1..]])
  {
    var ev := s.up[conn][0];
    ApplyRunOk(cfg, s.run, conn, ev);
    forall i | 0 <= i < |s.procs|
      ensures ProcOk(cfg, Apply(cfg, s.run, conn, ev).value, i, s.procs[i], s.down[i])
      ensures UpOk(cfg, Apply(cfg, s.run, conn, ev).value, i, s.procs[i], s.up[conn := s.up[conn][1..]][i])
    {
      ApplyProcOk(cfg, s.run, conn, ev, i, s.procs[i], s.down[i]);
      ApplyUpOk(cfg, s.run, conn, ev, i, s.procs[i], s.up[i]);
    }
  }

  // ----- advancing keeps it ----------------------------------------------------------------------

  lemma AdvanceRunOk(cfg: Config, s: Run, now: int, steady: bool)
    requires RunOk(cfg, s)
    ensures RunOk(cfg, Advance(cfg, s, now, steady).0)
  {
    AllOfThem(cfg, s);
  }

  /** A count that has reached the number of participants is a count of all of them. */
  lemma AllOfThem(cfg: Config, s: Run)
    requires |s.participants| <= cfg.expected && s.windowAcked <= s.participants.Keys
    ensures |ReadyOnes(s)| >= cfg.expected ==> |s.participants| == cfg.expected
    ensures |s.windowAcked| >= cfg.expected ==> s.windowAcked == s.participants.Keys
    ensures |DoneOnes(s)| >= cfg.expected ==> DoneOnes(s) == s.participants.Keys
  {
    assert |s.participants| == |s.participants.Keys|;
    SubsetSize(ReadyOnes(s), s.participants.Keys);
    SubsetSize(DoneOnes(s), s.participants.Keys);
    SubsetSize(s.windowAcked, s.participants.Keys);
  }

  lemma AdvanceProcOk(cfg: Config, s: Run, now: int, steady: bool, i: nat, p: Process, down: seq<Message>)
    requires RunOk(cfg, s) && ProcOk(cfg, s, i, p, down)
    ensures var (s', m) := Advance(cfg, s, now, steady);
      ProcOk(cfg, s', i, p, if i in s.participants then Also(down, m) else down)
  {
  }

  lemma AdvanceUpOk(cfg: Config, s: Run, now: int, steady: bool, i: nat, p: Process, down: seq<Message>, up: seq<Event>)
    requires RunOk(cfg, s) && ProcOk(cfg, s, i, p, down) && UpOk(cfg, s, i, p, up)
    ensures UpOk(cfg, Advance(cfg, s, now, steady).0, i, p, up)
  {
  }

  lemma AdvanceKeeps(cfg: Config, s: Run, procs: seq<Process>, down: seq<seq<Message>>, up: seq<seq<Event>>, now: int,
                     steady: bool)
    requires Inv(cfg, s, procs, down, up)
    ensures var (s', m) := Advance(cfg, s, now, steady);
      Inv(cfg, s', procs, Broadcast(down, s.participants, Also([], m)), up) && s'.participants == s.participants
  {
    var (s', m) := Advance(cfg, s, now, steady);
    AdvanceRunOk(cfg, s, now, steady);
    forall i | 0 <= i < |procs|
      ensures ProcOk(cfg, s', i, procs[i], Broadcast(down, s.participants, Also([], m))[i])
      ensures UpOk(cfg, s', i, procs[i], up[i])
    {
      AdvanceProcOk(cfg, s, now, steady, i, procs[i], down[i]);
      AdvanceUpOk(cfg, s, now, steady, i, procs[i], down[i], up[i]);
      BroadcastAt(down, s.participants, m, i);
    }
  }

  lemma BroadcastAt(down: seq<seq<Message>>, to: map<nat, Participant>, m: Option<Message>, i: nat)
    requires i < |down|
    ensures Broadcast(down, to, Also([], m))[i] == if i in to then Also(down[i], m) else down[i]
  {
    assert down[i] + [] == down[i];
  }

  lemma BroadcastTwice(down: seq<seq<Message>>, to: map<nat, Participant>, sent: seq<Message>, m: Option<Message>)
    ensures Broadcast(Broadcast(down, to, sent), to, Also([], m)) == Broadcast(down, to, Also(sent, m))
  {
    forall i | 0 <= i < |down|
      ensures Broadcast(Broadcast(down, to, sent), to, Also([], m))[i] == Broadcast(down, to, Also(sent, m))[i]
    {
      assert m.Some? ==> down[i] + sent + [m.value] == down[i] + (sent + [m.value]);
      assert down[i] + sent + [] == down[i] + sent;
    }
  }

  lemma BroadcastNothing(down: seq<seq<Message>>, to: map<nat, Participant>)
    ensures Broadcast(down, to, []) == down
  {
    forall i | 0 <= i < |down|
      ensures Broadcast(down, to, [])[i] == down[i]
    {
      assert down[i] + [] == down[i];
    }
  }

  lemma {:induction false} AdvanceAllKeeps(cfg: Config, s: Run, procs: seq<Process>, down: seq<seq<Message>>,
                                           up: seq<seq<Event>>, clock: Stage -> int, steady: bool, sent: seq<Message>)
    requires Inv(cfg, s, procs, Broadcast(down, s.participants, sent), up)
    ensures var (s', sent') := AdvanceAll(cfg, s, clock, steady, sent);
      Inv(cfg, s', procs, Broadcast(down, s'.participants, sent'), up)
    decreases Rank(s.stage)
  {
    var (next, m) := Advance(cfg, s, clock(s.stage), steady);
    StagesAdvance(cfg, s, clock(s.stage), steady);
    if next.stage != s.stage {
      AdvanceKeeps(cfg, s, procs, Broadcast(down, s.participants, sent), up, clock(s.stage), steady);
      BroadcastTwice(down, s.participants, sent, m);
      AdvanceAllKeeps(cfg, next, procs, down, up, clock, steady, Also(sent, m));
    }
  }

  // ----- all steps -------------------------------------------------------------------------------

  lemma {:induction false} AtMostOnce(cfg: Config, s: Run, clock: Stage -> int, steady: bool, sent: seq<Message>)
    requires RunOk(cfg, s)
    ensures |AdvanceAll(cfg, s, clock, steady, sent).0.published| <= 1
    decreases Rank(s.stage)
  {
    StagesAdvance(cfg, s, clock(s.stage), steady);
    AdvanceRunOk(cfg, s, clock(s.stage), steady);
    var (next, m) := Advance(cfg, s, clock(s.stage), steady);
    if next.stage != s.stage { AtMostOnce(cfg, next, clock, steady, Also(sent, m)); }
  }

  lemma DeliverKeeps(cfg: Config, s: State, i: nat, clock: Stage -> int, steady: bool)
    requires Shaped(s) && Good(cfg, s) && i < |s.procs| && s.up[i] != []
    ensures Good(cfg, ServerStep(cfg, s, i, clock, steady))
  {
    var ev := s.up[i][0];
    var applied := Apply(cfg, s.run, i, ev);
    if s.run.stage == Completed {
      BroadcastNothing(s.down, s.run.participants);
      DropHeard(cfg, s, i);
    } else if s.run.stage != Failed && applied.Some? {
      ApplyKeeps(cfg, s, i);
      BroadcastNothing(s.down, applied.value.participants);
      AdvanceAllKeeps(cfg, applied.value, s.procs, s.down, s.up[i := s.up[i][1..]], clock, steady, []);
      AtMostOnce(cfg, applied.value, clock, steady, []);
    }
  }

  /** After completion nothing is handled any more. */
  lemma DropHeard(cfg: Config, s: State, i: nat)
    requires Inv(cfg, s.run, s.procs, s.down, s.up) && i < |s.procs| && s.up[i] != []
    ensures Inv(cfg, s.run, s.procs, s.down, s.up[i := s.up[i][1..]])
  {
    assert forall e :: e in s.up[i][1..] ==> e in s.up[i];
  }

  lemma ExpireKeeps(cfg: Config, s: State)
    requires Shaped(s) && Good(cfg, s)
    ensures Good(cfg, s.(run := Expire(s.run)))
  {
    if s.run.stage == WindowStage {
      forall i | 0 <= i < |s.procs|
        ensures ProcOk(cfg, Expire(s.run), i, s.procs[i], s.down[i]) && UpOk(cfg, Expire(s.run), i, s.procs[i], s.up[i])
      {
      }
    }
  }

  lemma StepKeeps(cfg: Config, s: State, step: Step)
    requires Shaped(s) && Good(cfg, s)
    ensures Good(cfg, Do(cfg, s, step))
  {
    match step
    case Deliver(i, clock, steady) =>
      if i < |s.procs| && s.up[i] != [] { DeliverKeeps(cfg, s, i, clock, steady); }
    case TimerFires => ExpireKeeps(cfg, s);
    case ServerFails =>
    case _ =>
      if step.i < |s.procs| && s.run.stage != Failed { ProcessKeeps(cfg, s, step.i, step); }
  }

  lemma {:induction false} AlwaysGood(cfg: Config, roles: seq<Role>, steps: seq<Step>)
    ensures Good(cfg, After(cfg, roles, steps))
  {
    if steps != [] {
      AlwaysGood(cfg, roles, steps[..|steps| - 1]);
      StepKeeps(cfg, After(cfg, roles, steps[..|steps| - 1]), steps[|steps| - 1]);
    }
  }

  // ----- agreement -------------------------------------------------------------------------------

  /** In every completed run every participant has ended with the window of the result, which was published, once,
      and not before the time to drain was over. A window that replaced the provisional one starts before it and is as
      long, but after the least warm-up; it was taken over by all participants, or by none if there was none. In a
      valid run all took their schedule, and took the window over, before it started. */
  lemma {:induction false} Agreement(cfg: Config, roles: seq<Role>, steps: seq<Step>)
    requires After(cfg, roles, steps).run.stage == Completed
    ensures var s := After(cfg, roles, steps);
      && s.run.published == [s.run.schedule] && |s.run.participants| == cfg.expected
      && (forall i :: i in s.run.participants ==>
            i < |s.procs| && s.procs[i].phase == Ended && s.procs[i].window == s.run.schedule)
      && s.run.schedule.stop == s.run.schedule.start + cfg.duration
      && s.run.schedule.drain == s.run.schedule.start + cfg.duration + cfg.drain
      && (forall i :: i in s.run.participants ==>
            s.procs[i].ended.Some? && s.run.schedule.drain <= s.procs[i].ended.value)
      && (!s.run.invalid ==> forall i :: i in s.run.participants ==>
            s.procs[i].took.Some? && s.procs[i].took.value <= s.run.issued + cfg.warmup)
      && (if s.run.steadyReached then
            && cfg.steady && s.run.schedule.start < s.run.issued + cfg.warmup
            && (cfg.minWarmup > 0 ==> s.run.issued + cfg.minWarmup + cfg.guard <= s.run.schedule.start)
            && (forall i :: i in s.run.participants ==> s.procs[i].adopted.Some?)
            && (!s.run.invalid ==>
                  forall i :: i in s.run.participants ==> s.procs[i].adopted.value <= s.run.schedule.start)
          else
            && s.run.schedule.start == s.run.issued + cfg.warmup
            && (forall i :: i in s.run.participants ==> s.procs[i].adopted == None))
  {
    var s := After(cfg, roles, steps);
    AlwaysGood(cfg, roles, steps);
    forall i | i in s.run.participants
      ensures i < |s.procs| && s.procs[i].phase == Ended && s.procs[i].window == s.run.schedule
      ensures s.procs[i].ended.Some? && s.run.schedule.drain <= s.procs[i].ended.value
      ensures !s.run.invalid ==> s.procs[i].took.Some? && s.procs[i].took.value <= s.run.issued + cfg.warmup
      ensures s.run.steadyReached ==>
        s.procs[i].adopted.Some? && (!s.run.invalid ==> s.procs[i].adopted.value <= s.run.schedule.start)
      ensures !s.run.steadyReached ==> s.procs[i].adopted == None
    {
      assert i in DoneOnes(s.run) && UpOk(cfg, s.run, i, s.procs[i], s.up[i]) &&
             ProcOk(cfg, s.run, i, s.procs[i], s.down[i]);
    }
  }

  /** At no moment of any run has more than one window been published. */
  lemma {:induction false} PublishedAtMostOnce(cfg: Config, roles: seq<Role>, steps: seq<Step>)
    ensures |After(cfg, roles, steps).run.published| <= 1
  {
    AlwaysGood(cfg, roles, steps);
  }
}
