/** What the sending application and the receiving application can rely on, over all runs of the two endpoints and the
    network between them. */
module EndToEndTheorems {
  import opened Receiver
  import opened MessagePool
  import opened Sender
  import opened SenderAcks
  import opened SenderSteps
  import opened SenderWindow
  import opened EndToEnd
  import SenderCapacity
  import SenderRuns
  import SenderTheorems
  import Session
  import SessionTheorems

  // ----- runs ------------------------------------------------------------------------------------

  lemma StepGood(u: Setup, s: State, step: Step, s': State)
    requires Good(u, s) && Moves(u, s, step, s')
    ensures Good(u, s')
  {
    match step
    case Submit(data, o, now) => SubmitsGood(u, s, data, o, now, s');
    case Flush(taken, now) => FlushesGood(u, s, taken, now, s');
    case Arrive(p, now) => ArrivesGood(u, s, p, now, s');
    case Ack(a) => AcksGood(u, s, a, s');
    case Sender(own) => OwnStepGood(u, s, own, s');
    case World(other) => WorldStepGood(u, s, other, s');
  }

  /** The connection has just been made at the sender, whatever else is going on there; the receiver is new, and nothing
      is on the way. */
  ghost predicate Beginning(u: Setup, s: State) {
    && ValidSetup(u) && SenderRuns.Safe(u.tx, s.sender) && s.sender.mode.Between?
    && s.sender.tx.conns[u.c] == FreshConn(u.tx) && OwnsNothing(s.sender.tx, u.c)
    && s.rest == Session.Init(u.q) && s.air == {}
  }

  lemma BeginningGood(u: Setup, s: State)
    requires Beginning(u, s)
    ensures Good(u, s)
  {
    assert SessionTheorems.Run(u.q, [s.rest], []);
    assert [s.rest][|[s.rest]| - 1] == s.rest;
  }

  /** A new sending endpoint, connected. */
  lemma NewEndpointBegins(u: Setup)
    requires ValidSetup(u)
    ensures SenderRuns.Base(u.tx, SenderTheorems.Initial(u.tx))
    ensures SenderRuns.Enabled(u.tx, SenderTheorems.Initial(u.tx), SenderRuns.Connect(u.c))
    ensures var s := SenderRuns.Next(u.tx, SenderTheorems.Initial(u.tx), SenderRuns.Connect(u.c));
      Beginning(u, State(s, Session.Init(u.q), {}))
  {
    SenderTheorems.InitialSafe(u.tx);
    SenderTheorems.StepSafe(u.tx, SenderTheorems.Initial(u.tx), SenderRuns.Connect(u.c));
  }

  /** A step of the system. That the state is good is no restriction: the first one is, and every step keeps it so
      (`RunGood`, `RunExtends`). */
  ghost predicate Allowed(u: Setup, s: State, step: Step, s': State) { Good(u, s) && Moves(u, s, step, s') }

  ghost predicate Run(u: Setup, states: seq<State>, steps: seq<Step>) {
    && |states| == |steps| + 1 && Beginning(u, states[0])
    && forall i :: 0 <= i < |steps| ==> Allowed(u, states[i], steps[i], states[i + 1])
  }

  lemma RunGood(u: Setup, states: seq<State>, steps: seq<Step>, i: nat)
    requires Run(u, states, steps) && i < |states|
    ensures Good(u, states[i])
  {
    if i == 0 {
      BeginningGood(u, states[0]);
    } else {
      var b: nat := i - 1;
      assert Allowed(u, states[b], steps[b], states[b + 1]);
      StepGood(u, states[b], steps[b], states[i]);
    }
  }

  /** Whatever step the two endpoints can make continues a run. */
  lemma RunExtends(u: Setup, states: seq<State>, steps: seq<Step>, step: Step, s': State)
    requires Run(u, states, steps)
    requires (RunGood(u, states, steps, |states| - 1); Moves(u, states[|states| - 1], step, s'))
    ensures Run(u, states + [s'], steps + [step])
  {
    RunGood(u, states, steps, |steps|);
    var states', steps' := states + [s'], steps + [step];
    forall i | 0 <= i < |steps'|
      ensures Allowed(u, states'[i], steps'[i], states'[i + 1])
    {
      if i < |steps| { assert Allowed(u, states[i], steps[i], states[i + 1]); }
    }
  }

  // ----- what the applications see ---------------------------------------------------------------

  /** Seen from the receiver, every run of the system is a run of the session. */
  lemma RunsAreSessions(u: Setup, states: seq<State>, steps: seq<Step>, i: nat)
    requires Run(u, states, steps) && i < |states|
    ensures SessionReachable(u.q, states[i].rest)
  {
    RunGood(u, states, steps, i);
  }

  /** Everything that is or was on the network, and everything in the pool, is a fragment of a message `rudp_send`
      accepted on the connection: under its id, with its number and its bytes. */
  lemma NothingIsAltered(u: Setup, states: seq<State>, steps: seq<Step>, i: nat)
    requires Run(u, states, steps) && i < |states|
    ensures var s := states[i];
      && (forall p :: p in s.air ==> FramesTrue(u.q.cfg, s.rest.accepted, p.frames))
      && |s.sender.tx.msgs| == |s.sender.tx.place|
      && forall v :: 0 <= v < |s.sender.tx.msgs| && s.sender.tx.place[v] != Free && s.sender.tx.msgs[v].owner == u.c ==>
           FrameTrue(u.q.cfg, s.rest.accepted, FrameIn(s.sender.tx.msgs[v]))
  {
    RunGood(u, states, steps, i);
  }

  /** The RELIABLE_ORDERED payloads enqueued for a channel at the receiver are a prefix of those `rudp_send` accepted on
      it at the sender. */
  lemma OrderedIsPrefix(u: Setup, states: seq<State>, steps: seq<Step>, i: nat, channel: nat)
    requires Run(u, states, steps) && i < |states| && channel < u.q.cfg.maxChannels
    ensures var rest := states[i].rest;
      && u.q.conn < |rest.rx.conns|
      && SessionTheorems.EnqueuedPayloads(rest.rx.conns[u.q.conn].log, channel) <=
         SessionTheorems.AcceptedPayloads(rest.accepted, channel)
  {
    RunGood(u, states, steps, i);
    SessionPrefix(u.q, states[i].rest, channel);
  }

  lemma SessionPrefix(q: Session.Params, rest: Session.State, channel: nat)
    requires SessionReachable(q, rest) && channel < q.cfg.maxChannels
    ensures q.conn < |rest.rx.conns|
    ensures SessionTheorems.EnqueuedPayloads(rest.rx.conns[q.conn].log, channel) <=
            SessionTheorems.AcceptedPayloads(rest.accepted, channel)
  {
    var states, steps :| SessionTheorems.Run(q, states, steps) && states[|states| - 1] == rest;
    SessionTheorems.OrderedDeliveryIsPrefix(q, states, steps, |states| - 1, channel);
  }

  /** The receiver enqueued message j or holds it, or took its id for one more than 65535 behind. */
  ghost predicate Delivered(q: Session.Params, rest: Session.State, j: nat) {
    && j < |rest.accepted| && q.conn < |rest.rx.conns|
    && (SessionTheorems.WasEnqueued(rest, q.conn, j) || SessionTheorems.IsHeld(rest, q.conn, j) || j + 1 in rest.tooOld)
  }

  /** A slot that holds a reliable message of the connection of one fragment. */
  predicate HoldsSingle(tx: Tx, c: nat, v: nat) {
    && v < |tx.msgs| && v < |tx.place| && tx.place[v] != Free && tx.msgs[v].owner == c
    && IsReliable(tx.msgs[v].rel) && tx.msgs[v].fragCount == 1
  }

  /** In the gated configuration the sender frees a reliable message of one fragment on an acknowledgement only after
      the receiver has it. */
  lemma AcksAreSound(u: Setup, states: seq<State>, steps: seq<Step>, i: nat, v: nat)
    requires Run(u, states, steps) && i < |steps| && steps[i].Ack? && Gated(u.tx)
    requires HoldsSingle(states[i].sender.tx, u.c, v)
    requires v < |states[i + 1].sender.tx.place| && states[i + 1].sender.tx.place[v] == Free
    ensures Delivered(u.q, states[i + 1].rest, RefOf(FrameIn(states[i].sender.tx.msgs[v])).0)
  {
    assert Allowed(u, states[i], steps[i], states[i + 1]);
    RunGood(u, states, steps, i + 1);
    AckStepFrees(u, states[i], steps[i].a, states[i + 1], v);
    FreedWasDelivered(u.q, states[i + 1].rest, RefOf(FrameIn(states[i].sender.tx.msgs[v])).0);
  }

  lemma AckStepFrees(u: Setup, s: State, a: Session.AckInfo, s': State, v: nat)
    requires Good(u, s) && Acks(u, s, a, s') && Gated(u.tx) && HoldsSingle(s.sender.tx, u.c, v)
    requires v < |s'.sender.tx.place| && s'.sender.tx.place[v] == Free
    ensures RefOf(FrameIn(s.sender.tx.msgs[v])).0 in s'.rest.freed
  {
    SenderRuns.NothingOutYet(u.tx, s.sender, u.c);
    FreedIsAcked(u, s, a, s'.sender.tx, v);
  }

  lemma FreedIsAcked(u: Setup, s: State, a: Session.AckInfo, tx': Tx, v: nat)
    requires Good(u, s) && Gated(u.tx) && HoldsSingle(s.sender.tx, u.c, v)
    requires Resolved(u.tx, s.sender.tx, tx', u.c, a.ack.maxSeq, a.ack.bits) && tx'.place[v] == Free
    ensures AckedSlot(s.sender.tx, tx', u.c, a.ack, v)
  {
    var tx := s.sender.tx;
    assert SenderRuns.CapOk(u.tx, tx);
    assert OutstandingCount(tx, u.c, tx.msgs[v].flow) <= SenderCapacity.MAX_OUTSTANDING < u.tx.ringCap;
    SenderTheorems.RoomMeansCovered(u.tx, tx, tx', u.c, a.ack.maxSeq, a.ack.bits, v);
  }

  lemma FreedWasDelivered(q: Session.Params, rest: Session.State, j: nat)
    requires SessionReachable(q, rest) && j in rest.freed
    ensures Delivered(q, rest, j)
  {
    var states, steps :| SessionTheorems.Run(q, states, steps) && states[|states| - 1] == rest;
    SessionTheorems.AcknowledgementsAreSound(q, states, steps, |states| - 1, j);
  }
}
