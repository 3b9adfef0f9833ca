/** The server of the control protocol: what it does with an event, when it advances to the next stage, and what
    happens when its timer expires. The state of a run is a value; the class updates it in place. */
module ControlServer {
  import opened MachineWords

  /** `ScheduleMessage` and `WindowMessage`, in nanoseconds. */
  datatype Window = Window(start: int, stop: int, drain: int)

  /** `Config`; the guard is the default if none is set. Whether the rates are steady is an input of the steps. */
  datatype Config =
    Config(expected: nat, warmup: nat, duration: nat, drain: nat, guard: nat, steady: bool, minWarmup: nat)

  datatype Stage = HelloStage | ReadyStage | AckStage | WindowStage | WindowAckStage | DoneStage | Completed | Failed

  datatype Role = ServerRole | ClientRole

  datatype Event =
    | Hello(role: Role, procIndex: int)
    | Ready
    | SchedAck(margin: int)
    | Rate
    | WindowAck(windowMargin: int)
    | Done

  datatype Message = Schedule(schedule: Window) | NewWindow(window: Window)

  /** `Participant` */
  datatype Participant = Participant(role: Role, ready: bool, ack: bool, done: bool)

  /** `runState`, the stage, and every window that was published. */
  datatype Run = Run(stage: Stage, participants: map<nat, Participant>, procIndex: map<(Role, int), nat>,
                     schedule: Window, issued: int, scheduleSent: bool, windowSent: bool, steadyReached: bool,
                     windowAcked: set<nat>, invalid: bool, published: seq<Window>)

  const NoWindow := Window(0, 0, 0)
  const NewRun := Run(HelloStage, map[], map[], NoWindow, 0, false, false, false, {}, false, [])

  // ----- events ----------------------------------------------------------------------------------

  /** `apply`; None is an error, which ends the run. */
  function Apply(cfg: Config, s: Run, conn: nat, ev: Event): Option<Run> {
    match ev
    case Hello(role, procIndex) =>
      if conn in s.participants || |s.participants| >= cfg.expected then None
      else if procIndex >= 0 && (role, procIndex) in s.procIndex then None
      else Some(s.(participants := s.participants[conn := Participant(role, false, false, false)],
                   procIndex := if procIndex >= 0 then s.procIndex[(role, procIndex) := conn] else s.procIndex))
    case Ready =>
      if conn !in s.participants || s.participants[conn].ready then None
      else Some(s.(participants := s.participants[conn := s.participants[conn].(ready := true)]))
    case SchedAck(margin) =>
      if conn !in s.participants || !s.participants[conn].ready || !s.scheduleSent || s.participants[conn].ack then None
      else Some(s.(participants := s.participants[conn := s.participants[conn].(ack := true)],
                   invalid := s.invalid || margin < 0))
    case Rate =>
      if conn !in s.participants || s.participants[conn].role != ClientRole then None else Some(s)
    case WindowAck(margin) =>
      if conn !in s.participants || conn in s.windowAcked then None
      else Some(s.(windowAcked := s.windowAcked + {conn}, invalid := s.invalid || margin < 0))
    case Done =>
      if conn !in s.participants || !s.participants[conn].ack || s.participants[conn].done then None
      else Some(s.(participants := s.participants[conn := s.participants[conn].(done := true)]))
  }

  function ReadyOnes(s: Run): set<nat> { set i | i in s.participants && s.participants[i].ready }

  function AckedOnes(s: Run): set<nat> { set i | i in s.participants && s.participants[i].ack }

  function DoneOnes(s: Run): set<nat> { set i | i in s.participants && s.participants[i].done }

  // ----- stages ----------------------------------------------------------------------------------

  /** `publishMeasurementWindow`: the record of all calls; the source sends the first only. */
  function Publish(s: Run): Run { s.(published := s.published + [s.schedule]) }

  function WindowAt(start: int, cfg: Config): Window {
    Window(start, start + cfg.duration, start + cfg.duration + cfg.drain)
  }

  /** `advanceStageIfReady` at the time `now`, and the message it sends to every participant. */
  function Advance(cfg: Config, s: Run, now: int, steady: bool): (Run, Option<Message>) {
    match s.stage
    case HelloStage =>
      if |s.participants| < cfg.expected then (s, None) else (s.(stage := ReadyStage), None)
    case ReadyStage =>
      if |ReadyOnes(s)| < cfg.expected then (s, None)
      else
        var s' :=
          s.(stage := AckStage, issued := now, schedule := WindowAt(now + cfg.warmup, cfg), scheduleSent := true);
        (if cfg.steady then s' else Publish(s'), Some(Schedule(s'.schedule)))
    case AckStage =>
      if |AckedOnes(s)| < cfg.expected then (s, None)
      else (s.(stage := if cfg.steady then WindowStage else DoneStage), None)
    case WindowStage =>
      if !steady || (cfg.minWarmup > 0 && now < s.issued + cfg.minWarmup) then (s, None)
      else if now + cfg.guard >= s.schedule.start then
        (Publish(s.(stage := DoneStage, steadyReached := false)), None)
      else
        var w := WindowAt(now + cfg.guard, cfg);
        (Publish(s.(stage := WindowAckStage, schedule := w, windowSent := true, steadyReached := true)),
         Some(NewWindow(w)))
    case WindowAckStage =>
      if |s.windowAcked| < cfg.expected then (s, None) else (s.(stage := DoneStage), None)
    case DoneStage =>
      if |DoneOnes(s)| < cfg.expected then (s, None) else (s.(stage := Completed), None)
    case Completed => (s, None)
    case Failed => (s, None)
  }

  /** The window stage is left exactly if the rates are steady and the least warm-up, if there is one, is over. Then the
      measurement starts a guard from now if that is earlier than the provisional start, and all are told; otherwise
      the provisional window is the one. */
  lemma WindowOutcome(cfg: Config, s: Run, now: int, steady: bool)
    requires s.stage == WindowStage
    ensures var (s', m) := Advance(cfg, s, now, steady);
      if !steady || (cfg.minWarmup != 0 && now - s.issued < cfg.minWarmup) then s' == s && m == None
      else if now + cfg.guard < s.schedule.start then
        && s'.stage == WindowAckStage && s'.schedule.start == now + cfg.guard
        && s'.schedule.stop - s'.schedule.start == cfg.duration && s'.schedule.drain - s'.schedule.stop == cfg.drain
        && m == Some(NewWindow(s'.schedule)) && s'.published == s.published + [s'.schedule] && s'.steadyReached
      else
        && s'.stage == DoneStage && s'.schedule == s.schedule && m == None
        && s'.published == s.published + [s.schedule] && !s'.steadyReached
  {
  }

  function Rank(stage: Stage): nat {
    match stage
    case HelloStage => 6
    case ReadyStage => 5
    case AckStage => 4
    case WindowStage => 3
    case WindowAckStage => 2
    case DoneStage => 1
    case Completed => 0
    case Failed => 0
  }

  lemma StagesAdvance(cfg: Config, s: Run, now: int, steady: bool)
    ensures Advance(cfg, s, now, steady).0.stage != s.stage ==>
            Rank(Advance(cfg, s, now, steady).0.stage) < Rank(s.stage)
    ensures Advance(cfg, s, now, steady).0.stage == s.stage ==> Advance(cfg, s, now, steady) == (s, None)
  {
  }

  /** When the timer expires, the warmup has ended without a steady state, or the run has failed. */
  function Expire(s: Run): Run {
    if s.stage == WindowStage then Publish(s.(stage := DoneStage, steadyReached := false)) else s.(stage := Failed)
  }

  /** The messages after those that were sent already. */
  function Also(sent: seq<Message>, m: Option<Message>): seq<Message> { if m.Some? then sent + [m.value] else sent }

  /** The stages advance as long as they can; each is looked at with a clock reading of its own. */
  function AdvanceAll(cfg: Config, s: Run, clock: Stage -> int, steady: bool, sent: seq<Message>): (Run, seq<Message>)
    decreases Rank(s.stage)
  {
    var (next, m) := Advance(cfg, s, clock(s.stage), steady);
    StagesAdvance(cfg, s, clock(s.stage), steady);
    if next.stage == s.stage then (s, sent) else AdvanceAll(cfg, next, clock, steady, Also(sent, m))
  }

  /** One event in `Run`. */
  function Handle(cfg: Config, s: Run, conn: nat, ev: Event, clock: Stage -> int, steady: bool): (Run, seq<Message>) {
    if s.stage == Completed || s.stage == Failed then (s, [])
    else
      var applied := Apply(cfg, s, conn, ev);
      if applied == None then (s.(stage := Failed), []) else AdvanceAll(cfg, applied.value, clock, steady, [])
  }

  // ----- the server object -----------------------------------------------------------------------

  class Server {
    const cfg: Config
    var stage: Stage
    var participants: map<nat, Participant>
    var procIndex: map<(Role, int), nat>
    var schedule: Window
    var issued: int
    var scheduleSent: bool
    var windowSent: bool
    var steadyReached: bool
    var windowAcked: set<nat>
    var invalid: bool
    var published: seq<Window>

    function View(): Run
      reads this
    {
      Run(stage, participants, procIndex, schedule, issued, scheduleSent, windowSent, steadyReached, windowAcked,
          invalid, published)
    }

    constructor (cfg: Config)
      ensures View() == NewRun && this.cfg == cfg
    {
      this.cfg := cfg;
      stage, participants, procIndex, schedule, issued := HelloStage, map[], map[], NoWindow, 0;
      scheduleSent, windowSent, steadyReached, windowAcked, invalid, published := false, false, false, {}, false, [];
    }

    /** `apply` */
    method ApplyEvent(conn: nat, ev: Event) returns (ok: bool)
      modifies this`participants, this`procIndex, this`windowAcked, this`invalid
      ensures ok == Apply(cfg, old(View()), conn, ev).Some?
      ensures View() == if ok then Apply(cfg, old(View()), conn, ev).value else old(View())
    {
      match ev {
        case Hello(role, index) =>
          if conn in participants || |participants| >= cfg.expected { return false; }
          if index >= 0 {
            if (role, index) in procIndex { return false; }
            procIndex := procIndex[(role, index) := conn];
          }
          participants := participants[conn := Participant(role, false, false, false)];
        case Ready =>
          if conn !in participants || participants[conn].ready { return false; }
          participants := participants[conn := participants[conn].(ready := true)];
        case SchedAck(margin) =>
          if conn !in participants || !participants[conn].ready || !scheduleSent || participants[conn].ack {
            return false;
          }
          participants := participants[conn := participants[conn].(ack := true)];
          if margin < 0 { invalid := true; }
        case Rate =>
          if conn !in participants || participants[conn].role != ClientRole { return false; }
        case WindowAck(margin) =>
          if conn !in participants || conn in windowAcked { return false; }
          windowAcked := windowAcked + {conn};
          if margin < 0 { invalid := true; }
        case Done =>
          if conn !in participants || !participants[conn].ack || participants[conn].done { return false; }
          participants := participants[conn := participants[conn].(done := true)];
      }
      return true;
    }

    /** `advanceStageIfReady` */
    method AdvanceStage(now: int, steady: bool) returns (message: Option<Message>)
      modifies this`stage, this`schedule, this`issued, this`scheduleSent, this`windowSent, this`steadyReached,
        this`published
      ensures (View(), message) == Advance(cfg, old(View()), now, steady)
    {
      message := None;
      match stage {
        case HelloStage =>
          if |participants| >= cfg.expected { stage := ReadyStage; }
        case ReadyStage =>
          if |ReadyOnes(View())| < cfg.expected { return; }
          issued := now;
          schedule := WindowAt(now + cfg.warmup, cfg);
          message := Some(Schedule(schedule));
          scheduleSent := true;
          if !cfg.steady { published := published + [schedule]; }
          stage := AckStage;
        case AckStage =>
          if |AckedOnes(View())| < cfg.expected { return; }
          stage := if cfg.steady then WindowStage else DoneStage;
        case WindowStage =>
          message := OpenWindow(now, steady);
        case WindowAckStage =>
          if |windowAcked| >= cfg.expected { stage := DoneStage; }
        case DoneStage =>
          if |DoneOnes(View())| >= cfg.expected { stage := Completed; }
        case Completed =>
        case Failed =>
      }
    }

    /** The window stage: a window is sent if the rates are steady and it would be earlier than the provisional one. */
    method OpenWindow(now: int, steady: bool) returns (message: Option<Message>)
      requires stage == WindowStage
      modifies this`stage, this`schedule, this`windowSent, this`steadyReached, this`published
      ensures (View(), message) == Advance(cfg, old(View()), now, steady)
    {
      if !steady || (cfg.minWarmup > 0 && now < issued + cfg.minWarmup) { return None; }
      var start := now + cfg.guard;
      if start >= schedule.start {
        steadyReached := false;
        published := published + [schedule];
        stage := DoneStage;
        return None;
      }
      schedule := WindowAt(start, cfg);
      windowSent, steadyReached := true, true;
      published := published + [schedule];
      stage := WindowAckStage;
      return Some(NewWindow(schedule));
    }

    /** An event in the loop of `Run`. */
    method HandleEvent(conn: nat, ev: Event, clock: Stage -> int, steady: bool) returns (sent: seq<Message>)
      requires stage != Completed && stage != Failed
      modifies this
      ensures (View(), sent) == Handle(cfg, old(View()), conn, ev, clock, steady)
    {
      sent := [];
      var ok := ApplyEvent(conn, ev);
      if !ok {
        stage := Failed;
        return;
      }
      ghost var applied := View();
      var advancing := true;
      while advancing
        invariant advancing ==>
          AdvanceAll(cfg, View(), clock, steady, sent) == AdvanceAll(cfg, applied, clock, steady, [])
        invariant !advancing ==> (View(), sent) == AdvanceAll(cfg, applied, clock, steady, [])
        decreases advancing, Rank(stage)
      {
        var before := stage;
        StagesAdvance(cfg, View(), clock(stage), steady);
        var message := AdvanceStage(clock(stage), steady);
        advancing := stage != before;
        if advancing { sent := Also(sent, message); }
      }
    }

    /** The timer case in the loop of `Run`. */
    method TimerExpired()
      modifies this`stage, this`steadyReached, this`published
      ensures View() == Expire(old(View()))
    {
      if stage == WindowStage {
        steadyReached := false;
        published := published + [schedule];
        stage := DoneStage;
      } else {
        stage := Failed;
      }
    }
  }
}
