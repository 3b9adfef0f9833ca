/** What holds in every state of every run of the session: order and integrity of delivery, delivery
    at most once, and soundness of acknowledgements. */
module SessionTheorems {
  import opened MachineWords
  import opened Receiver
  import opened SentMessages
  import opened OrderedDelivery
  import opened Session
  import WakeUp

  /** A run: any finite sequence of steps from the initial state. */
  ghost predicate Run(q: Params, states: seq<State>, steps: seq<Step>) {
    && ValidParams(q)
    && |states| == |steps| + 1
    && states[0] == Init(q)
    && forall i :: 0 <= i < |steps| ==> Next(q, states[i], steps[i], states[i + 1])
  }

  lemma {:induction false} RunInvariant(q: Params, states: seq<State>, steps: seq<Step>, i: nat)
    requires Run(q, states, steps) && i < |states|
    ensures Inv(q, states[i])
  {
    if i == 0 {
      InitOk(q);
    } else {
      RunInvariant(q, states, steps, i - 1);
      assert Next(q, states[i - 1], steps[i - 1], states[i]);
      StepOk(q, states[i - 1], steps[i - 1], states[i]);
    }
  }

  // ----- ordered delivery ------------------------------------------------------------------------

  /** Payloads of the ordered events enqueued for a channel, in order. */
  function EnqueuedPayloads(log: seq<LogEntry>, channel: nat): seq<Bytes> {
    if log == [] then []
    else
      var n := |log| - 1;
      EnqueuedPayloads(log[..n], channel)
      + (if log[n].ev.rel.ReliableOrdered? && log[n].ev.channel == channel then [log[n].ev.payload] else [])
  }

  /** Payloads of the ordered messages accepted on a channel, in order. */
  function AcceptedPayloads(accepted: seq<Message>, channel: nat): seq<Bytes> {
    if accepted == [] then []
    else
      var n := |accepted| - 1;
      AcceptedPayloads(accepted[..n], channel)
      + (if OrderedOnChannel(accepted[n], channel) then [accepted[n].payload] else [])
  }

  lemma {:induction false} AcceptedPayloadsAre(accepted: seq<Message>, channel: nat)
    ensures |AcceptedPayloads(accepted, channel)| == |OrderedOn(accepted, channel)|
    ensures forall k :: 0 <= k < |OrderedOn(accepted, channel)| ==>
      AcceptedPayloads(accepted, channel)[k] == accepted[OrderedOn(accepted, channel)[k]].payload
  {
    if accepted != [] {
      AcceptedPayloadsAre(accepted[..|accepted| - 1], channel);
    }
  }

  lemma {:induction false} EnqueuedPayloadsAre(accepted: seq<Message>, c: nat, log: seq<LogEntry>, channel: nat)
    requires forall i :: 0 <= i < |log| ==> EntryOk(accepted, c, log[i])
    ensures |EnqueuedPayloads(log, channel)| == |OrderedIds(log, channel)|
    ensures forall k :: 0 <= k < |OrderedIds(log, channel)| ==>
      var j := OrderedIds(log, channel)[k];
      0 <= j < |accepted| && EnqueuedPayloads(log, channel)[k] == accepted[j].payload
    decreases |log|
  {
    if log != [] {
      var e, front := log[|log| - 1], log[..|log| - 1];
      assert EntryOk(accepted, c, e) && forall i :: 0 <= i < |front| ==> front[i] == log[i];
      EnqueuedPayloadsAre(accepted, c, front, channel);
      var own := e.ev.rel.ReliableOrdered? && e.ev.channel == channel;
      assert OrderedIds(log, channel) == OrderedIds(front, channel) + if own then [e.msgId - 1] else [];
      assert EnqueuedPayloads(log, channel) == EnqueuedPayloads(front, channel) + if own then [e.ev.payload] else [];
    }
  }

  /** At every moment of every run the RELIABLE_ORDERED payloads enqueued for a channel are a prefix of
      the payloads `rudp_send` accepted on it. */
  lemma {:induction false} OrderedDeliveryIsPrefix(q: Params, states: seq<State>, steps: seq<Step>, i: nat,
                                                   channel: nat)
    requires Run(q, states, steps) && i < |states| && channel < q.cfg.maxChannels
    ensures q.conn < |states[i].rx.conns|
    ensures EnqueuedPayloads(states[i].rx.conns[q.conn].log, channel) <= AcceptedPayloads(states[i].accepted, channel)
  {
    RunInvariant(q, states, steps, i);
    var s := states[i];
    var cn := s.rx.conns[q.conn];
    assert PrefixOk(s.accepted, cn, channel);
    AcceptedPayloadsAre(s.accepted, channel);
    EnqueuedPayloadsAre(s.accepted, q.conn, cn.log, channel);
    var ids := OrderedIds(cn.log, channel);
    forall k | 0 <= k < |ids|
      ensures EnqueuedPayloads(cn.log, channel)[k] == AcceptedPayloads(s.accepted, channel)[k]
    {
      assert ids[k] == OrderedOn(s.accepted, channel)[k];
    }
  }

  /** Every reliable event of every run carries the flow, channel, kind and bytes of the accepted
      message with its id, whole even if it travelled in fragments, and no message has two events. */
  lemma ReliableExactlyOnce(q: Params, states: seq<State>, steps: seq<Step>, i: nat)
    requires Run(q, states, steps) && i < |states|
    ensures q.conn < |states[i].rx.conns|
    ensures var log, accepted := states[i].rx.conns[q.conn].log, states[i].accepted;
      forall a :: 0 <= a < |log| && IsReliable(log[a].ev.rel) ==>
        && 1 <= log[a].msgId <= |accepted|
        && var m := accepted[log[a].msgId - 1];
        && log[a].ev == Event(q.conn, m.flow, m.channel, m.rel, m.payload)
        && forall b :: a < b < |log| && IsReliable(log[b].ev.rel) ==> log[a].msgId != log[b].msgId
  {
    RunInvariant(q, states, steps, i);
    var log := states[i].rx.conns[q.conn].log;
    forall a | 0 <= a < |log| && IsReliable(log[a].ev.rel)
      ensures EntryOk(states[i].accepted, q.conn, log[a])
    {
    }
  }

  // ----- acknowledgements ------------------------------------------------------------------------

  /** Message j was put into the receive queue with its bytes. */
  ghost predicate WasEnqueued(s: State, c: nat, j: nat)
    requires c < |s.rx.conns| && j < |s.accepted|
  {
    exists a :: 0 <= a < |s.rx.conns[c].log|
      && s.rx.conns[c].log[a].msgId == j + 1
      && s.rx.conns[c].log[a].ev ==
         Event(c, s.accepted[j].flow, s.accepted[j].channel, s.accepted[j].rel, s.accepted[j].payload)
  }

  /** Message j waits in the hold table with its bytes. */
  ghost predicate IsHeld(s: State, c: nat, j: nat)
    requires j < |s.accepted|
  {
    exists i :: 0 <= i < |s.rx.holds| && HoldMatchesMessage(s, s.rx.holds[i], c, j)
  }

  ghost predicate HoldMatchesMessage(s: State, h: Option<Hold>, c: nat, j: nat)
    requires j < |s.accepted|
  {
    h.Some? && h.value.conn == c && h.value.msgId == j + 1 && h.value.payload == s.accepted[j].payload
  }

  lemma MarkedMeans(q: Params, s: State, j: nat)
    requires Inv(q, s) && j < |s.accepted| && j + 1 in Marks(s.rx, q.conn)
    ensures WasEnqueued(s, q.conn, j) || IsHeld(s, q.conn, j)
  {
    var c := q.conn;
    var log := s.rx.conns[c].log;
    if j + 1 in LogIds(log) {
      var a :| 0 <= a < |log| && IsReliable(log[a].ev.rel) && log[a].msgId == j + 1;
      assert EntryOk(s.accepted, c, log[a]);
    } else {
      var i :| 0 <= i < |s.rx.holds| && s.rx.holds[i].Some? && s.rx.holds[i].value.conn == c
               && s.rx.holds[i].value.msgId == j + 1;
      assert HoldOk(s.accepted, c, log, s.rx.holds[i].value);
      assert HoldMatchesMessage(s, s.rx.holds[i], c, j);
    }
  }

  /** When the sender has freed an unfragmented reliable message through an acknowledgement, early or
      late, the receiver has enqueued it or holds it. The only other possibility is that the message
      arrived with an id 65536 or more behind the largest, which the duplicate window takes for
      delivered. */
  lemma AcknowledgementsAreSound(q: Params, states: seq<State>, steps: seq<Step>, i: nat, j: nat)
    requires Run(q, states, steps) && i < |states| && j in states[i].freed
    ensures j < |states[i].accepted| && q.conn < |states[i].rx.conns|
    ensures WasEnqueued(states[i], q.conn, j) || IsHeld(states[i], q.conn, j) || j + 1 in states[i].tooOld
  {
    RunInvariant(q, states, steps, i);
    var s := states[i];
    assert FrameDone(q.cfg, s, q.conn, j);
    FreedAreSingle(q, states, steps, i, j);
    if j + 1 !in s.tooOld {
      MarkedMeans(q, s, j);
    }
  }

  lemma {:induction false} FreedAreSingle(q: Params, states: seq<State>, steps: seq<Step>, i: nat, j: nat)
    requires Run(q, states, steps) && i < |states| && j in states[i].freed
    ensures Single(q.cfg, states[i].accepted, j)
  {
    if i > 0 {
      assert Next(q, states[i - 1], steps[i - 1], states[i]);
      if j in states[i - 1].freed {
        FreedAreSingle(q, states, steps, i - 1, j);
      }
    }
  }

  /** In every state of every run, with any mix of connections, a held message that is next in order
      has an event of its own connection in front of it, and receiving to the end drains it. */
  lemma {:induction false} RunsNeverLoseWakeUps(q: Params, states: seq<State>, steps: seq<Step>, i: nat)
    requires Run(q, states, steps) && i < |states|
    ensures Shape(q.cfg, states[i].rx) && WakeUp.NoLostWakeUp(states[i].rx)
    ensures var rx' := WakeUp.ReceivedAll(q.cfg, states[i].rx);
      rx'.queue == [] && forall c: nat, channel: nat :: !WakeUp.Drainable(rx', c, channel)
  {
    RunInvariant(q, states, steps, i);
    WakeUp.ReceivingDrainsEverything(q.cfg, states[i].rx);
  }
}
