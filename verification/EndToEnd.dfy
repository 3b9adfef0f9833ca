/** Sender and receiver together: the pool, the rings, the batch and the records of a sending endpoint on one side, the
    receiving endpoint of `Session` on the other, and between them what the sender really put into its packets. Other
    connections are active on both sides. Every run of this system, seen from the receiver, is a run of `Session`. */
module EndToEnd {
  import opened MachineWords
  import opened SerialNumbers
  import opened Receiver
  import opened SentMessages
  import opened MessagePool
  import opened PoolTallies
  import opened Sender
  import opened SenderOps
  import opened SenderAcks
  import opened SenderFlush
  import opened SenderBatch
  import opened SenderSend
  import opened SenderSteps
  import opened SenderWindow
  import opened SenderHistory
  import AckTracker
  import SenderRuns
  import SenderTheorems
  import Session
  import SessionTheorems

  /** Connection c of the sender is connection q.conn of the receiver; both ends share one configuration. */
  datatype Setup = Setup(tx: TxConfig, c: nat, q: Session.Params)

  predicate ValidSetup(u: Setup) {
    && ValidTx(u.tx) && Session.ValidParams(u.q) && u.c < u.tx.maxConns
    && u.q.cfg.framePayload == u.tx.framePayload && u.q.cfg.maxPayload == u.tx.maxPayload
    && u.q.cfg.maxFlows == u.tx.maxFlows && u.q.cfg.maxChannels == u.tx.maxChannels
    && u.q.skipUnreliableAcks == u.tx.skipUnreliableAcks
  }

  // ----- packets ---------------------------------------------------------------------------------

  /** A packet as it is sent: its number, 0 if it takes none, and its frames. */
  datatype Sent = Sent(number: nat, frames: seq<Frame>)

  /** The frame `write_data_frame_header` writes for a message of the pool. */
  function FrameIn(m: Msg): Frame {
    Frame(m.rel, m.flow, m.msgId, m.fragIndex, m.fragCount, m.channel, m.channelSeq, m.payload)
  }

  /** Which fragment a frame says it is. */
  function RefOf(f: Frame): (nat, nat) { (if f.msgId == 0 then 0 else f.msgId - 1, f.fragIndex) }

  function Refs(frames: seq<Frame>): (r: seq<(nat, nat)>)
    ensures |r| == |frames| && forall k :: 0 <= k < |frames| ==> r[k] == RefOf(frames[k])
  {
    seq(|frames|, k requires 0 <= k < |frames| => RefOf(frames[k]))
  }

  function PacketOf(p: Sent): Session.Packet { Session.Packet(p.number, Refs(p.frames)) }

  /** The frame is a fragment of the accepted message it names. */
  ghost predicate FrameTrue(cfg: Config, accepted: seq<Message>, f: Frame) {
    && 0 < cfg.framePayload && 1 <= f.msgId <= |accepted| < UINT32_MAX
    && f.fragIndex < FragCount(cfg, |accepted[f.msgId - 1].payload|)
    && f == FrameOf(cfg, accepted, f.msgId - 1, f.fragIndex)
  }

  ghost predicate FramesTrue(cfg: Config, accepted: seq<Message>, frames: seq<Frame>) {
    forall k :: 0 <= k < |frames| ==> FrameTrue(cfg, accepted, frames[k])
  }

  function FramesOf(msgs: seq<Msg>, list: seq<nat>): (r: seq<Frame>)
    requires forall k :: 0 <= k < |list| ==> list[k] < |msgs|
    ensures |r| == |list| && forall k :: 0 <= k < |list| ==> r[k] == FrameIn(msgs[list[k]])
  {
    seq(|list|, k requires 0 <= k < |list| => FrameIn(msgs[list[k]]))
  }

  predicate BatchListsValid(tx: Tx) {
    forall b :: 0 <= b < |tx.batch| ==>
      forall k :: 0 <= k < |At(tx.boxes, InBatch(b))| ==> At(tx.boxes, InBatch(b))[k] < |tx.msgs|
  }

  lemma BatchLists(cfg: TxConfig, tx: Tx)
    requires Core(cfg, tx)
    ensures BatchListsValid(tx)
  {
    forall b, k | 0 <= b < |tx.batch| && 0 <= k < |At(tx.boxes, InBatch(b))|
      ensures At(tx.boxes, InBatch(b))[k] < |tx.msgs|
    {
      InBoxMeans(cfg, tx, InBatch(b), At(tx.boxes, InBatch(b))[k]);
    }
  }

  /** What packet b of the batch carries. */
  function SentOf(tx: Tx, b: nat): Sent
    requires b < |tx.batch| && BatchListsValid(tx)
  {
    var o := tx.batch[b];
    Sent(if o.number == 0 || o.unwrapped < 0 then 0 else o.unwrapped, FramesOf(tx.msgs, At(tx.boxes, InBatch(b))))
  }

  /** The packets of connection c among the first k of the batch. */
  function SentBelow(tx: Tx, c: nat, k: nat): set<Sent>
    requires k <= |tx.batch| && BatchListsValid(tx)
  {
    set b: nat | b < k && tx.batch[b].conn == c :: SentOf(tx, b)
  }

  function Packets(air: set<Sent>): set<Session.Packet> { set p | p in air :: PacketOf(p) }

  // ----- the receiver, on frames as they arrive --------------------------------------------------

  /** The frame loop of `process_packet`. */
  function Handled(cfg: Config, rx: Rx, c: nat, frames: seq<Frame>, now: uint64): (r: (Rx, bool))
    requires Shape(cfg, rx) && c < |rx.conns|
    ensures Shape(cfg, r.0) && AcksKept(rx, r.0)
    decreases |frames|
  {
    if frames == [] then (rx, true)
    else
      var (rx1, ok1) := Processed(cfg, rx, c, frames[0], now);
      var (rx2, ok2) := Handled(cfg, rx1, c, frames[1..], now);
      (rx2, ok1 && ok2)
  }

  predicate AnyReliable(frames: seq<Frame>) { exists k :: 0 <= k < |frames| && IsReliable(frames[k].rel) }

  /** The receiver after `process_packet`. */
  function AfterPacket(q: Session.Params, rx: Rx, p: Sent, now: uint64): Rx
    requires Shape(q.cfg, rx) && q.conn < |rx.conns|
  {
    var (rx1, ok) := Handled(q.cfg, rx, q.conn, p.frames, now);
    if Recorded(q, rx, p, now) then Session.WithAck(rx1, q.conn, p.number) else rx1
  }

  /** The packet's number is acknowledged. */
  predicate Recorded(q: Session.Params, rx: Rx, p: Sent, now: uint64)
    requires Shape(q.cfg, rx) && q.conn < |rx.conns|
  {
    && p.number != 0 && Handled(q.cfg, rx, q.conn, p.frames, now).1
    && (!q.skipUnreliableAcks || AnyReliable(p.frames))
  }

  lemma {:induction false} FramesHandled(cfg: Config, accepted: seq<Message>, rx: Rx, c: nat, frames: seq<Frame>,
                                         now: uint64)
    requires Shape(cfg, rx) && c < |rx.conns| && 0 < cfg.framePayload && |accepted| < UINT32_MAX
    requires FramesTrue(cfg, accepted, frames)
    ensures Session.ValidFrames(cfg, accepted, Refs(frames))
    ensures Handled(cfg, rx, c, frames, now) == Session.ArriveFrames(cfg, accepted, rx, c, Refs(frames), now)
    decreases |frames|
  {
    assert forall k :: 0 <= k < |frames| ==> FrameTrue(cfg, accepted, frames[k]);
    if frames != [] {
      assert FrameTrue(cfg, accepted, frames[0]);
      assert Refs(frames)[1..] == Refs(frames[1..]);
      FramesHandled(cfg, accepted, Processed(cfg, rx, c, frames[0], now).0, c, frames[1..], now);
    }
  }

  lemma SameReliable(cfg: Config, accepted: seq<Message>, frames: seq<Frame>)
    requires FramesTrue(cfg, accepted, frames)
    ensures AnyReliable(frames) <==> Session.HasReliable(accepted, Refs(frames))
  {
    assert forall k :: 0 <= k < |frames| ==> FrameTrue(cfg, accepted, frames[k]);
    if AnyReliable(frames) {
      var k :| 0 <= k < |frames| && IsReliable(frames[k].rel);
      assert FrameTrue(cfg, accepted, frames[k]) && Refs(frames)[k] == RefOf(frames[k]);
    }
    if Session.HasReliable(accepted, Refs(frames)) {
      var k :| 0 <= k < |frames| && Refs(frames)[k].0 < |accepted| && IsReliable(accepted[Refs(frames)[k].0].rel);
      assert FrameTrue(cfg, accepted, frames[k]);
    }
  }

  // ----- the system ------------------------------------------------------------------------------

  /** The sending endpoint; the receiving side with the history of the connection, as in `Session`; and everything the
      connection's packets ever carried, any of which may arrive at any time, any number of times, or never. */
  datatype State = State(sender: SenderRuns.State, rest: Session.State, air: set<Sent>)

  /** `Sender` is a step of the sending endpoint that has nothing to do with this connection's own beginning, its
      submissions, its acknowledgements or the socket; `World` a step of the receiving endpoint other than an
      arrival. */
  datatype Step =
    | Submit(data: Bytes, opts: SendOpts, now: uint64)
    | Flush(taken: nat, now: uint64)
    | Arrive(p: Sent, now: uint64)
    | Ack(a: Session.AckInfo)
    | Sender(own: SenderRuns.Step)
    | World(step: Session.Step)

  /** What an accepted submission adds to the history. */
  function MessageOf(cn: ConnTx, data: Bytes, o: SendOpts): Message
    requires o.channel < |cn.orderedSeq|
  {
    Message(o.rel, o.flow, o.channel, if o.rel.ReliableOrdered? then 0 else ChannelNumber(cn, o), data)
  }

  /** Reliable messages of the connection, of one fragment, that an acknowledgement frees because it names a packet that
      carried them: their indices in the history. */
  ghost function AckedNow(tx: Tx, tx': Tx, c: nat, a: AckTracker.Ack): set<nat>
    requires |tx.msgs| == |tx.place| == |tx'.place|
  {
    set v: nat | v < |tx.msgs| && AckedSlot(tx, tx', c, a, v) :: RefOf(FrameIn(tx.msgs[v])).0
  }

  ghost predicate AckedSlot(tx: Tx, tx': Tx, c: nat, a: AckTracker.Ack, v: nat)
    requires v < |tx.msgs| == |tx.place| == |tx'.place|
  {
    && tx.place[v] != Free && tx'.place[v] == Free && tx.msgs[v].owner == c
    && IsReliable(tx.msgs[v].rel) && tx.msgs[v].fragCount == 1 && Covered(tx.msgs[v], a.maxSeq, a.bits)
  }

  /** Packet numbers do not alias: the packets that carried a message still in the pool are less than 2^31 away from
      what the acknowledgement is about. */
  ghost predicate NoAlias(s: State, c: nat, a: Session.AckInfo)
    requires |s.sender.tx.msgs| == |s.sender.tx.place|
  {
    forall v: nat, p :: (v < |s.sender.tx.msgs| && s.sender.tx.place[v] != Free && s.sender.tx.msgs[v].owner == c
                         && p in s.rest.wire && RefOf(FrameIn(s.sender.tx.msgs[v])) in p.frames) ==>
      -HALF_32 <= p.number - a.top < HALF_32
  }

  // ----- the invariant ---------------------------------------------------------------------------

  /** A run of the session ends in this state. */
  ghost predicate SessionReachable(q: Session.Params, r: Session.State) {
    exists states: seq<Session.State>, steps: seq<Session.Step> ::
      SessionTheorems.Run(q, states, steps) && states[|states| - 1] == r
  }

  /** Every message of the connection in the pool is a fragment of an accepted one, and the next id and the next numbers
      of the ordered channels are the ones that come next. */
  ghost predicate PoolTrue(u: Setup, accepted: seq<Message>, tx: Tx) {
    && u.c < |tx.conns| && tx.conns[u.c].active && |tx.conns[u.c].orderedSeq| == u.q.cfg.maxChannels
    && |accepted| < UINT32_MAX && tx.conns[u.c].nextMsgId == |accepted| + 1 && |tx.msgs| == |tx.place|
    && (forall ch: nat :: ch < u.q.cfg.maxChannels ==>
          tx.conns[u.c].orderedSeq[ch] == Wrap16(|OrderedOn(accepted, ch)|))
    && (forall v :: 0 <= v < |tx.msgs| && tx.place[v] != Free && tx.msgs[v].owner == u.c ==>
          FrameTrue(u.q.cfg, accepted, FrameIn(tx.msgs[v])))
  }

  /** Each packet that is said to have carried a message did. */
  ghost predicate CarriersTrue(wire: set<Session.Packet>, m: Msg) {
    forall x :: x in m.carriedBy ==> CarrierTrue(wire, m, x)
  }

  ghost predicate CarrierTrue(wire: set<Session.Packet>, m: Msg, x: uint32) {
    exists p :: p in wire && Wrap32(p.number) == x && RefOf(FrameIn(m)) in p.frames
  }

  ghost predicate AllCarriersTrue(wire: set<Session.Packet>, tx: Tx, c: nat)
    requires |tx.msgs| == |tx.place|
  {
    forall v :: 0 <= v < |tx.msgs| && tx.place[v] != Free && tx.msgs[v].owner == c ==> CarriersTrue(wire, tx.msgs[v])
  }

  ghost predicate AirTrue(u: Setup, accepted: seq<Message>, wire: set<Session.Packet>, air: set<Sent>) {
    forall p :: p in air ==> PacketOf(p) in wire && FramesTrue(u.q.cfg, accepted, p.frames)
  }

  /** The numbers of the batch are above those on the wire, and grow with the order of the batch. */
  ghost predicate NumbersTrue(tx: Tx, c: nat, wire: set<Session.Packet>)
    requires c < |tx.conns|
  {
    && 0 <= tx.conns[c].newest
    && (forall p :: p in wire ==> p.number <= tx.conns[c].newest)
    && (forall b: nat :: Pending(tx, c, 0, b) ==> 0 < tx.batch[b].unwrapped <= tx.conns[c].newest)
    && (forall b: nat, p :: Pending(tx, c, 0, b) && p in wire ==> p.number < tx.batch[b].unwrapped)
    && (forall a: nat, b: nat :: a < b && Pending(tx, c, 0, a) && Pending(tx, c, 0, b) ==>
          tx.batch[a].unwrapped < tx.batch[b].unwrapped)
  }

  ghost predicate Good(u: Setup, s: State) {
    && ValidSetup(u) && SenderRuns.Safe(u.tx, s.sender)
    && SessionReachable(u.q, s.rest)
    && PoolTrue(u, s.rest.accepted, s.sender.tx)
    && AllCarriersTrue(s.rest.wire, s.sender.tx, u.c)
    && AirTrue(u, s.rest.accepted, s.rest.wire, s.air)
    && NumbersTrue(s.sender.tx, u.c, s.rest.wire)
  }

  lemma ReachableInv(q: Session.Params, r: Session.State)
    requires SessionReachable(q, r)
    ensures Session.Inv(q, r)
  {
    var states, steps :| SessionTheorems.Run(q, states, steps) && states[|states| - 1] == r;
    SessionTheorems.RunInvariant(q, states, steps, |states| - 1);
  }

  /** A further step of the session. */
  lemma OneMore(q: Session.Params, r: Session.State, step: Session.Step, r': Session.State)
    requires SessionReachable(q, r) && Session.Next(q, r, step, r')
    ensures SessionReachable(q, r')
  {
    var states, steps :| SessionTheorems.Run(q, states, steps) && states[|states| - 1] == r;
    var states', steps' := states + [r'], steps + [step];
    forall i | 0 <= i < |steps'|
      ensures Session.Next(q, states'[i], steps'[i], states'[i + 1])
    {
      if i < |steps| { assert Session.Next(q, states[i], steps[i], states[i + 1]); }
    }
    assert SessionTheorems.Run(q, states', steps');
  }

  // ----- the steps -------------------------------------------------------------------------------

  /** A submission is accepted. */
  ghost predicate Accepts(u: Setup, s: State, data: Bytes, o: SendOpts, now: uint64)
    requires Good(u, s) && s.sender.mode.Between?
  {
    SenderRuns.IdleBetween(u.tx, s.sender);
    Send(u.tx, s.sender.tx, u.c, data, o, now).1 == Accepted
  }

  /** The state of the session after the packets of connection c among the first k of the batch were sent. */
  ghost function Emitted(rest: Session.State, tx: Tx, c: nat, k: nat): Session.State
    requires k <= |tx.batch| && BatchListsValid(tx)
  {
    rest.(wire := rest.wire + Packets(SentBelow(tx, c, k)))
  }

  /** The state of the session after a packet arrived. */
  ghost function ArrivedAt(u: Setup, rest: Session.State, p: Sent, now: uint64): Session.State
    requires Session.ValidParams(u.q) && Shape(u.q.cfg, rest.rx) && |rest.accepted| < UINT32_MAX
    requires Session.ValidFrames(u.q.cfg, rest.accepted, Refs(p.frames))
  {
    var r := Recorded(u.q, rest.rx, p, now);
    rest.(rx := AfterPacket(u.q, rest.rx, p, now),
          tooOld := rest.tooOld + Session.ArriveTooOld(u.q.cfg, rest.accepted, rest.rx, u.q.conn, Refs(p.frames), now),
          seen := if r then rest.seen + {p.number} else rest.seen,
          top := if r then AckTracker.NewTop(rest.seen, rest.top, p.number) else rest.top)
  }

  ghost predicate Submits(u: Setup, s: State, data: Bytes, o: SendOpts, now: uint64, s': State)
    requires Good(u, s)
  {
    && s.sender.mode.Between? && |s.rest.accepted| + 1 < UINT32_MAX
    && s' == s.(sender := SenderRuns.Next(u.tx, s.sender, SenderRuns.Submit(u.c, data, o, now)),
                rest := if Accepts(u, s, data, o, now) && o.channel < u.tx.maxChannels
                        then s.rest.(accepted := s.rest.accepted + [MessageOf(s.sender.tx.conns[u.c], data, o)])
                        else s.rest)
  }

  /** The socket takes the first packets of the batch. */
  ghost predicate Flushes(u: Setup, s: State, taken: nat, now: uint64, s': State)
    requires Good(u, s)
  {
    && SenderRuns.Enabled(u.tx, s.sender, SenderRuns.Flush(taken, now)) && BatchListsValid(s.sender.tx)
    && s' == State(SenderRuns.Next(u.tx, s.sender, SenderRuns.Flush(taken, now)),
                   Emitted(s.rest, s.sender.tx, u.c, taken), s.air + SentBelow(s.sender.tx, u.c, taken))
  }

  ghost predicate Arrives(u: Setup, s: State, p: Sent, now: uint64, s': State)
    requires Good(u, s)
  {
    && p in s.air && Shape(u.q.cfg, s.rest.rx) && Session.ValidFrames(u.q.cfg, s.rest.accepted, Refs(p.frames))
    && Session.ArriveTimely(u.q.cfg, s.rest.accepted, s.rest.rx, u.q.conn, Refs(p.frames), now)
    && (s.rest.seen != {} ==> -HALF_32 <= p.number - s.rest.top < HALF_32)
    && s' == s.(rest := ArrivedAt(u, s.rest, p, now))
  }

  /** An acknowledgement of the receiver arrives at the sender. */
  ghost predicate Acks(u: Setup, s: State, a: Session.AckInfo, s': State)
    requires Good(u, s)
  {
    && s.sender.mode.Between? && a in s.rest.acks && NoAlias(s, u.c, a)
    && s'.sender == SenderRuns.Next(u.tx, s.sender, SenderRuns.Ack(u.c, a.ack.maxSeq, a.ack.bits))
    && |s'.sender.tx.place| == |s.sender.tx.msgs|
    && s' == s.(sender := s'.sender,
                rest := s.rest.(freed := s.rest.freed + AckedNow(s.sender.tx, s'.sender.tx, u.c, a.ack)))
  }

  ghost predicate OwnStep(u: Setup, s: State, own: SenderRuns.Step, s': State)
    requires Good(u, s)
  {
    && Ordinary(own, u.c) && (own.Ack? ==> own.conn != u.c) && SenderRuns.Enabled(u.tx, s.sender, own)
    && s' == s.(sender := SenderRuns.Next(u.tx, s.sender, own))
  }

  ghost predicate WorldStep(u: Setup, s: State, other: Session.Step, s': State)
    requires Good(u, s)
  {
    && (other.Acknowledge? || other.OtherFrame? || other.OtherAbort? || other.Receive? || other.Expire?)
    && Session.Next(u.q, s.rest, other, s'.rest) && s' == s.(rest := s'.rest)
  }

  /** What a step does. The assumptions on the network are those of `Session`: frames arrive while their channel number
      and message id can be told apart, packet numbers and acknowledgements while they do not alias; and the connection
      accepts fewer than 2^32 - 2 messages and is not aborted. */
  ghost predicate Moves(u: Setup, s: State, step: Step, s': State)
    requires Good(u, s)
  {
    match step
    case Submit(data, o, now) => Submits(u, s, data, o, now, s')
    case Flush(taken, now) => Flushes(u, s, taken, now, s')
    case Arrive(p, now) => Arrives(u, s, p, now, s')
    case Ack(a) => Acks(u, s, a, s')
    case Sender(own) => OwnStep(u, s, own, s')
    case World(other) => WorldStep(u, s, other, s')
  }

  // ----- steps of the sending endpoint -----------------------------------------------------------

  lemma NumbersContinue(tx: Tx, tx': Tx, c: nat, wire: set<Session.Packet>)
    requires c < |tx.conns| == |tx'.conns| && NumbersGrow(tx, tx', c) && NumbersTrue(tx, c, wire)
    ensures NumbersTrue(tx', c, wire)
  {
    assert forall b: nat :: b < |tx.batch| ==>
      (Pending(tx', c, 0, b) <==> Pending(tx, c, 0, b)) && tx'.batch[b].unwrapped == tx.batch[b].unwrapped
    by {
      assert forall b: nat :: b < |tx.batch| ==> tx'.batch[b].(bytes := 0) == tx.batch[b].(bytes := 0);
    }
  }

  lemma PoolContinues(u: Setup, accepted: seq<Message>, tx: Tx, tx': Tx)
    requires PoolTrue(u, accepted, tx) && Faithful(tx, tx', u.c)
    ensures PoolTrue(u, accepted, tx')
  {
    forall v | 0 <= v < |tx'.msgs| && tx'.place[v] != Free && tx'.msgs[v].owner == u.c
      ensures FrameIn(tx'.msgs[v]) == FrameIn(tx.msgs[v]) && tx.msgs[v].owner == u.c && tx.place[v] != Free
    {
    }
  }

  lemma CarriersContinue(wire: set<Session.Packet>, tx: Tx, tx': Tx, c: nat)
    requires |tx.msgs| == |tx.place| && AllCarriersTrue(wire, tx, c) && Faithful(tx, tx', c) && SameCarriers(tx, tx', c)
    ensures AllCarriersTrue(wire, tx', c)
  {
    forall v | 0 <= v < |tx'.msgs| && tx'.place[v] != Free && tx'.msgs[v].owner == c
      ensures CarriersTrue(wire, tx'.msgs[v])
    {
      assert FrameIn(tx'.msgs[v]) == FrameIn(tx.msgs[v]) && CarriersTrue(wire, tx.msgs[v]);
    }
  }

  lemma OwnStepGood(u: Setup, s: State, own: SenderRuns.Step, s': State)
    requires Good(u, s) && OwnStep(u, s, own, s')
    ensures Good(u, s')
  {
    SenderTheorems.StepSafe(u.tx, s.sender, own);
    StepContinues(u.tx, s.sender, own, s'.sender, u.c);
    SenderGoesOn(u, s, s');
  }

  lemma SenderGoesOn(u: Setup, s: State, s': State)
    requires Good(u, s) && SenderRuns.Safe(u.tx, s'.sender) && Continues(s.sender.tx, s'.sender.tx, u.c)
    requires SessionReachable(u.q, s'.rest) && s'.air == s.air
    requires s'.rest.accepted == s.rest.accepted && s'.rest.wire == s.rest.wire
    ensures Good(u, s')
  {
    PoolContinues(u, s.rest.accepted, s.sender.tx, s'.sender.tx);
    CarriersContinue(s.rest.wire, s.sender.tx, s'.sender.tx, u.c);
    NumbersContinue(s.sender.tx, s'.sender.tx, u.c, s.rest.wire);
  }

  // ----- steps of the receiving endpoint ---------------------------------------------------------

  lemma WorldStepGood(u: Setup, s: State, other: Session.Step, s': State)
    requires Good(u, s) && WorldStep(u, s, other, s')
    ensures Good(u, s')
  {
    OneMore(u.q, s.rest, other, s'.rest);
  }

  /** A packet that arrives is processed as the fragments it names. */
  lemma ArrivalIs(u: Setup, s: State, p: Sent, now: uint64, s': State)
    requires Good(u, s) && Arrives(u, s, p, now, s')
    ensures s'.rest == Session.Arrived(u.q, s.rest, PacketOf(p), now)
  {
    FramesHandled(u.q.cfg, s.rest.accepted, s.rest.rx, u.q.conn, p.frames, now);
    SameReliable(u.q.cfg, s.rest.accepted, p.frames);
  }

  lemma ArrivesGood(u: Setup, s: State, p: Sent, now: uint64, s': State)
    requires Good(u, s) && Arrives(u, s, p, now, s')
    ensures Good(u, s')
  {
    ArrivalIs(u, s, p, now, s');
    OneMore(u.q, s.rest, Session.Arrive(PacketOf(p), now), s'.rest);
  }

  // ----- acknowledgements ------------------------------------------------------------------------

  /** A packet for which the session lets message j be freed. */
  ghost predicate FreeableBy(rest: Session.State, j: nat, a: Session.AckInfo, p: Session.Packet) {
    && p in rest.wire && (j, 0) in p.frames && -HALF_32 <= p.number - a.top < HALF_32
    && AckTracker.Covers(a.ack.maxSeq, a.ack.bits, Wrap32(p.number))
  }

  ghost predicate Freeable(cfg: Config, rest: Session.State, j: nat, a: Session.AckInfo) {
    && 0 < cfg.framePayload && a in rest.acks
    && j < |rest.accepted| && IsReliable(rest.accepted[j].rel) && FragCount(cfg, |rest.accepted[j].payload|) == 1
    && exists p :: FreeableBy(rest, j, a, p)
  }

  ghost predicate PacketsNear(wire: set<Session.Packet>, ref: (nat, nat), a: Session.AckInfo) {
    forall p :: p in wire && ref in p.frames ==> -HALF_32 <= p.number - a.top < HALF_32
  }

  /** A message of one fragment that an acknowledgement covers may be freed. */
  lemma CoveredIsFreeable(cfg: Config, rest: Session.State, a: Session.AckInfo, m: Msg)
    requires FrameTrue(cfg, rest.accepted, FrameIn(m)) && CarriersTrue(rest.wire, m) && a in rest.acks
    requires IsReliable(m.rel) && m.fragCount == 1 && Covered(m, a.ack.maxSeq, a.ack.bits)
    requires PacketsNear(rest.wire, RefOf(FrameIn(m)), a)
    ensures Freeable(cfg, rest, RefOf(FrameIn(m)).0, a)
  {
    var x :| x in m.carriedBy && AckTracker.Covers(a.ack.maxSeq, a.ack.bits, x);
    assert CarrierTrue(rest.wire, m, x);
    var p :| p in rest.wire && Wrap32(p.number) == x && RefOf(FrameIn(m)) in p.frames;
    assert FreeableBy(rest, m.msgId - 1, a, p);
  }

  lemma AckedIsFreeable(u: Setup, s: State, a: Session.AckInfo, tx': Tx, v: nat)
    requires Good(u, s) && a in s.rest.acks && NoAlias(s, u.c, a)
    requires v < |s.sender.tx.msgs| == |tx'.place| && AckedSlot(s.sender.tx, tx', u.c, a.ack, v)
    ensures Freeable(u.q.cfg, s.rest, RefOf(FrameIn(s.sender.tx.msgs[v])).0, a)
  {
    CoveredIsFreeable(u.q.cfg, s.rest, a, s.sender.tx.msgs[v]);
  }

  lemma FreeOne(q: Session.Params, rest: Session.State, a: Session.AckInfo, j: nat)
    requires SessionReachable(q, rest) && Freeable(q.cfg, rest, j, a)
    ensures SessionReachable(q, rest.(freed := rest.freed + {j}))
  {
    var p :| FreeableBy(rest, j, a, p);
    ReachableInv(q, rest);
    OneMore(q, rest, Session.FreeAcked(j, p.number, a), rest.(freed := rest.freed + {j}));
  }

  lemma StillFreeable(cfg: Config, rest: Session.State, freed: set<nat>, a: Session.AckInfo, j: nat)
    requires Freeable(cfg, rest, j, a)
    ensures Freeable(cfg, rest.(freed := freed), j, a)
  {
    var p :| FreeableBy(rest, j, a, p);
    assert FreeableBy(rest.(freed := freed), j, a, p);
  }

  lemma {:induction false} FreeAll(q: Session.Params, rest: Session.State, a: Session.AckInfo, list: set<nat>)
    requires SessionReachable(q, rest) && forall j :: j in list ==> Freeable(q.cfg, rest, j, a)
    ensures SessionReachable(q, rest.(freed := rest.freed + list))
    decreases |list|
  {
    if list == {} {
      assert rest.freed + list == rest.freed;
    } else {
      var j :| j in list;
      var others, freed := list - {j}, rest.freed + {j};
      FreeOne(q, rest, a, j);
      forall i | i in others
        ensures Freeable(q.cfg, rest.(freed := freed), i, a)
      {
        StillFreeable(q.cfg, rest, freed, a, i);
      }
      FreeAll(q, rest.(freed := freed), a, others);
      assert freed + others == rest.freed + list;
    }
  }

  lemma AcksGood(u: Setup, s: State, a: Session.AckInfo, s': State)
    requires Good(u, s) && Acks(u, s, a, s')
    ensures Good(u, s')
  {
    var step := SenderRuns.Ack(u.c, a.ack.maxSeq, a.ack.bits);
    SenderTheorems.StepSafe(u.tx, s.sender, step);
    StepContinues(u.tx, s.sender, step, s'.sender, u.c);
    AckFrees(u, s, a, s');
    SenderGoesOn(u, s, s');
  }

  lemma AckFrees(u: Setup, s: State, a: Session.AckInfo, s': State)
    requires Good(u, s) && Acks(u, s, a, s')
    ensures SessionReachable(u.q, s'.rest)
  {
    var list := AckedNow(s.sender.tx, s'.sender.tx, u.c, a.ack);
    forall j | j in list
      ensures Freeable(u.q.cfg, s.rest, j, a)
    {
      var v: nat :| v < |s.sender.tx.msgs| && AckedSlot(s.sender.tx, s'.sender.tx, u.c, a.ack, v)
                    && j == RefOf(FrameIn(s.sender.tx.msgs[v])).0;
      AckedIsFreeable(u, s, a, s'.sender.tx, v);
    }
    FreeAll(u.q, s.rest, a, list);
  }

  // ----- submissions -----------------------------------------------------------------------------

  /** What was true of a frame stays true when more is accepted. */
  lemma StaysTrue(cfg: Config, accepted: seq<Message>, m: Message, f: Frame)
    requires FrameTrue(cfg, accepted, f) && |accepted| + 1 < UINT32_MAX
    ensures FrameTrue(cfg, accepted + [m], f)
  {
    PositionStable(accepted, m, f.msgId - 1);
  }

  lemma {:induction false} OneMoreOrdered(accepted: seq<Message>, m: Message, ch: nat)
    ensures |OrderedOn(accepted + [m], ch)| == |OrderedOn(accepted, ch)| + (if OrderedOnChannel(m, ch) then 1 else 0)
  {
    var all := accepted + [m];
    assert all[..|all| - 1] == accepted;
  }

  /** The fragments of a submission are those of the message it adds to the history. */
  lemma FragmentTrue(u: Setup, accepted: seq<Message>, cn: ConnTx, data: Bytes, o: SendOpts, now: uint64, i: nat)
    requires ValidSetup(u) && o.flow < |cn.flows| && o.channel < |cn.orderedSeq| && |accepted| + 1 < UINT32_MAX
    requires cn.nextMsgId == |accepted| + 1 && cn.orderedSeq[o.channel] == Wrap16(|OrderedOn(accepted, o.channel)|)
    requires i < FragCount(Shared(u.tx), |data|)
    ensures FrameTrue(u.q.cfg, accepted + [MessageOf(cn, data, o)], FrameIn(FragMsg(u.tx, cn, u.c, data, o, now, i)))
  {
    var all := accepted + [MessageOf(cn, data, o)];
    assert all[..|accepted|] == accepted;
  }

  /** The ids and ordered numbers after a submission are the next ones of the longer history. */
  lemma NextIds(u: Setup, accepted: seq<Message>, cn: ConnTx, data: Bytes, o: SendOpts, ch: nat)
    requires |accepted| + 1 < UINT32_MAX && o.channel < |cn.orderedSeq| && ch < |cn.orderedSeq|
    requires cn.nextMsgId == |accepted| + 1 && cn.orderedSeq[ch] == Wrap16(|OrderedOn(accepted, ch)|)
    ensures var cn', all := SenderSend.Numbered(cn, o), accepted + [MessageOf(cn, data, o)];
      && cn'.nextMsgId == |all| + 1 && |cn'.orderedSeq| == |cn.orderedSeq|
      && cn'.orderedSeq[ch] == Wrap16(|OrderedOn(all, ch)|)
  {
    OneMoreOrdered(accepted, MessageOf(cn, data, o), ch);
    NextNumber(cn, o, ch, |OrderedOn(accepted, ch)|);
  }

  lemma NextNumber(cn: ConnTx, o: SendOpts, ch: nat, n: nat)
    requires o.channel < |cn.orderedSeq| && ch < |cn.orderedSeq| && cn.orderedSeq[ch] == Wrap16(n)
    ensures var seq_ := SenderSend.Numbered(cn, o).orderedSeq;
      |seq_| == |cn.orderedSeq| && seq_[ch] == Wrap16(if o.rel.ReliableOrdered? && ch == o.channel then n + 1 else n)
  {
    Inc16Wraps(n);
  }

  /** Every fragment of the submission is true, and so is everything else in the pool. */
  lemma PoolAfterSubmit(u: Setup, accepted: seq<Message>, tx: Tx, tx': Tx, data: Bytes, o: SendOpts, now: uint64,
                        vs: seq<nat>)
    requires ValidSetup(u) && PoolTrue(u, accepted, tx) && |accepted| + 1 < UINT32_MAX
    requires SubmitEffect(u.tx, tx, tx', u.c, data, o, now, vs)
    ensures PoolTrue(u, accepted + [MessageOf(tx.conns[u.c], data, o)], tx')
  {
    var cn := tx.conns[u.c];
    var all := accepted + [MessageOf(cn, data, o)];
    assert SameNumbering(SenderSend.Numbered(cn, o), tx'.conns[u.c]);
    NextIds(u, accepted, cn, data, o, o.channel);
    forall ch: nat | ch < u.q.cfg.maxChannels
      ensures tx'.conns[u.c].orderedSeq[ch] == Wrap16(|OrderedOn(all, ch)|)
    {
      NextIds(u, accepted, cn, data, o, ch);
    }
    forall v | 0 <= v < |tx'.msgs| && tx'.place[v] != Free && tx'.msgs[v].owner == u.c
      ensures FrameTrue(u.q.cfg, all, FrameIn(tx'.msgs[v]))
    {
      SlotAfterSubmit(u, accepted, tx, tx', data, o, now, vs, v);
    }
  }

  lemma SlotAfterSubmit(u: Setup, accepted: seq<Message>, tx: Tx, tx': Tx, data: Bytes, o: SendOpts, now: uint64,
                        vs: seq<nat>, v: nat)
    requires ValidSetup(u) && PoolTrue(u, accepted, tx) && |accepted| + 1 < UINT32_MAX
    requires SubmitEffect(u.tx, tx, tx', u.c, data, o, now, vs)
    requires v < |tx'.msgs| && tx'.place[v] != Free && tx'.msgs[v].owner == u.c
    ensures FrameTrue(u.q.cfg, accepted + [MessageOf(tx.conns[u.c], data, o)], FrameIn(tx'.msgs[v]))
  {
    var cn := tx.conns[u.c];
    if v in vs {
      var i :| 0 <= i < |vs| && vs[i] == v;
      assert tx'.msgs[vs[i]] == FragMsgs(u.tx, cn, u.c, data, o, now)[i];
      FragmentTrue(u, accepted, cn, data, o, now, i);
    } else {
      assert tx'.msgs[v] == tx.msgs[v] && tx.place[v] != Free;
      StaysTrue(u.q.cfg, accepted, MessageOf(cn, data, o), FrameIn(tx.msgs[v]));
    }
  }

  lemma CarriersAfterSubmit(u: Setup, wire: set<Session.Packet>, tx: Tx, tx': Tx, data: Bytes, o: SendOpts, now: uint64,
                            vs: seq<nat>)
    requires |tx.msgs| == |tx.place| && AllCarriersTrue(wire, tx, u.c)
    requires SubmitEffect(u.tx, tx, tx', u.c, data, o, now, vs)
    ensures AllCarriersTrue(wire, tx', u.c)
  {
    forall v | 0 <= v < |tx'.msgs| && tx'.place[v] != Free && tx'.msgs[v].owner == u.c
      ensures CarriersTrue(wire, tx'.msgs[v])
    {
      if v in vs {
        var i :| 0 <= i < |vs| && vs[i] == v;
        assert tx'.msgs[vs[i]] == FragMsgs(u.tx, tx.conns[u.c], u.c, data, o, now)[i];
      } else {
        assert tx'.msgs[v] == tx.msgs[v] && tx'.place[v] == tx.place[v];
      }
    }
  }

  lemma AirStaysTrue(u: Setup, accepted: seq<Message>, m: Message, wire: set<Session.Packet>, air: set<Sent>)
    requires AirTrue(u, accepted, wire, air) && |accepted| + 1 < UINT32_MAX
    ensures AirTrue(u, accepted + [m], wire, air)
  {
    forall p | p in air
      ensures FramesTrue(u.q.cfg, accepted + [m], p.frames)
    {
      forall k | 0 <= k < |p.frames|
        ensures FrameTrue(u.q.cfg, accepted + [m], p.frames[k])
      {
        StaysTrue(u.q.cfg, accepted, m, p.frames[k]);
      }
    }
  }

  /** An accepted submission satisfies what the receiver expects of a message. */
  lemma AdmittedIsAdmissible(u: Setup, tx: Tx, data: Bytes, o: SendOpts)
    requires ValidSetup(u) && Core(u.tx, tx) && o.channel < u.tx.maxChannels
    requires o.flow < u.tx.maxFlows ==> ListValid(tx, UnrelRing(tx, u.c, o))
    requires Refusal(u.tx, tx, u.c, |data|, o) == None
    ensures Admissible(u.q.cfg, MessageOf(tx.conns[u.c], data, o))
  {
  }

  lemma SubmitAccepted(u: Setup, s: State, tx': Tx, data: Bytes, o: SendOpts, now: uint64, vs: seq<nat>, s': State)
    requires Good(u, s) && |s.rest.accepted| + 1 < UINT32_MAX && o.channel < u.tx.maxChannels
    requires SubmitEffect(u.tx, s.sender.tx, tx', u.c, data, o, now, vs)
    requires Admissible(u.q.cfg, MessageOf(s.sender.tx.conns[u.c], data, o))
    requires s'.sender.tx == tx' && SenderRuns.Safe(u.tx, s'.sender) && s'.air == s.air
    requires s'.rest == s.rest.(accepted := s.rest.accepted + [MessageOf(s.sender.tx.conns[u.c], data, o)])
    ensures Good(u, s')
  {
    var m := MessageOf(s.sender.tx.conns[u.c], data, o);
    SessionAccepts(u.q, s.rest, m);
    PoolAfterSubmit(u, s.rest.accepted, s.sender.tx, tx', data, o, now, vs);
    CarriersAfterSubmit(u, s.rest.wire, s.sender.tx, tx', data, o, now, vs);
    AirStaysTrue(u, s.rest.accepted, m, s.rest.wire, s.air);
    NumbersAfterSubmit(u, s.rest.wire, s.sender.tx, tx', data, o, now, vs);
  }

  lemma SessionAccepts(q: Session.Params, rest: Session.State, m: Message)
    requires SessionReachable(q, rest) && Admissible(q.cfg, m) && |rest.accepted| + 1 < UINT32_MAX
    ensures SessionReachable(q, rest.(accepted := rest.accepted + [m]))
  {
    ReachableInv(q, rest);
    OneMore(q, rest, Session.Accept(m), rest.(accepted := rest.accepted + [m]));
  }

  lemma NumbersAfterSubmit(u: Setup, wire: set<Session.Packet>, tx: Tx, tx': Tx, data: Bytes, o: SendOpts, now: uint64,
                           vs: seq<nat>)
    requires u.c < |tx.conns| && NumbersTrue(tx, u.c, wire) && SubmitEffect(u.tx, tx, tx', u.c, data, o, now, vs)
    ensures u.c < |tx'.conns| && NumbersTrue(tx', u.c, wire)
  {
    assert SameNumbering(SenderSend.Numbered(tx.conns[u.c], o), tx'.conns[u.c]);
  }

  lemma SubmitsGood(u: Setup, s: State, data: Bytes, o: SendOpts, now: uint64, s': State)
    requires Good(u, s) && Submits(u, s, data, o, now, s')
    ensures Good(u, s')
  {
    SenderTheorems.StepSafe(u.tx, s.sender, SenderRuns.Submit(u.c, data, o, now));
    SenderRuns.IdleBetween(u.tx, s.sender);
    var tx := s.sender.tx;
    var r := Send(u.tx, tx, u.c, data, o, now);
    if r.1 == Accepted {
      var vs :| SubmitEffect(u.tx, tx, r.0, u.c, data, o, now, vs);
      AdmittedIsAdmissible(u, tx, data, o);
      SubmitAccepted(u, s, r.0, data, o, now, vs, s');
    }
  }

  // ----- flushes ---------------------------------------------------------------------------------

  lemma InItsPacket(u: Setup, s: State, b: nat, k: nat)
    requires Good(u, s) && b < |s.sender.tx.batch| && k < |At(s.sender.tx.boxes, InBatch(b))|
    ensures var v := At(s.sender.tx.boxes, InBatch(b))[k];
      && v < |s.sender.tx.msgs| && s.sender.tx.place[v].Packed? && s.sender.tx.place[v].b == b
      && PackedSlotOk(u.tx, s.sender.tx, 0, v)
  {
    InBoxMeans(u.tx, s.sender.tx, InBatch(b), At(s.sender.tx.boxes, InBatch(b))[k]);
  }

  /** The frames of a packet of the connection are true, and a packet with a reliable one has a number. */
  lemma SentIsTrue(u: Setup, s: State, b: nat)
    requires Good(u, s) && b < |s.sender.tx.batch| && s.sender.tx.batch[b].conn == u.c && BatchListsValid(s.sender.tx)
    ensures FramesTrue(u.q.cfg, s.rest.accepted, SentOf(s.sender.tx, b).frames)
    ensures AnyReliable(SentOf(s.sender.tx, b).frames) ==> s.sender.tx.batch[b].number != 0
  {
    var list := At(s.sender.tx.boxes, InBatch(b));
    forall k | 0 <= k < |list|
      ensures FrameTrue(u.q.cfg, s.rest.accepted, FrameIn(s.sender.tx.msgs[list[k]]))
      ensures IsReliable(s.sender.tx.msgs[list[k]].rel) ==> s.sender.tx.batch[b].number != 0
    {
      InItsPacket(u, s, b, k);
    }
  }

  /** The number of a packet of the connection is the number it is sent with. */
  lemma SentNumber(u: Setup, s: State, b: nat)
    requires Good(u, s) && b < |s.sender.tx.batch| && s.sender.tx.batch[b].conn == u.c && BatchListsValid(s.sender.tx)
    ensures var o, n := s.sender.tx.batch[b], SentOf(s.sender.tx, b).number;
      if o.number == 0 then n == 0 else n == o.unwrapped > 0 && Wrap32(n) == o.number
  {
    assert s.sender.tx.batch[b].number != 0 ==> Pending(s.sender.tx, u.c, 0, b);
  }

  lemma SentMore(tx: Tx, c: nat, b: nat, k: nat)
    requires k == b + 1 <= |tx.batch| && BatchListsValid(tx)
    ensures tx.batch[b].conn == c ==>
      Packets(SentBelow(tx, c, k)) == Packets(SentBelow(tx, c, b)) + {PacketOf(SentOf(tx, b))}
    ensures tx.batch[b].conn != c ==> SentBelow(tx, c, k) == SentBelow(tx, c, b)
  {
    forall p | p in SentBelow(tx, c, k)
      ensures p in SentBelow(tx, c, b) || (tx.batch[b].conn == c && p == SentOf(tx, b))
    {
      var d: nat :| d < k && tx.batch[d].conn == c && p == SentOf(tx, d);
      if d < b { assert SentOf(tx, d) in SentBelow(tx, c, b); }
    }
    forall p | p in SentBelow(tx, c, b)
      ensures p in SentBelow(tx, c, k)
    {
      var d: nat :| d < b && tx.batch[d].conn == c && p == SentOf(tx, d);
    }
    if tx.batch[b].conn == c {
      assert SentOf(tx, b) in SentBelow(tx, c, k);
      assert SentBelow(tx, c, k) == SentBelow(tx, c, b) + {SentOf(tx, b)};
    }
  }

  /** A packet's number is above everything that was sent before it. */
  lemma AboveAll(u: Setup, s: State, b: nat, w: Session.Packet)
    requires Good(u, s) && b < |s.sender.tx.batch| && s.sender.tx.batch[b].conn == u.c && BatchListsValid(s.sender.tx)
    requires s.sender.tx.batch[b].number != 0
    requires w in s.rest.wire + Packets(SentBelow(s.sender.tx, u.c, b))
    ensures w.number < SentOf(s.sender.tx, b).number
  {
    var tx := s.sender.tx;
    SentNumber(u, s, b);
    assert Pending(tx, u.c, 0, b);
    if w !in s.rest.wire {
      var p :| p in SentBelow(tx, u.c, b) && w == PacketOf(p);
      var a: nat :| a < b && tx.batch[a].conn == u.c && p == SentOf(tx, a);
      SentNumber(u, s, a);
      if tx.batch[a].number != 0 { assert Pending(tx, u.c, 0, a); }
    }
  }

  lemma EmitOne(u: Setup, s: State, b: nat, before: Session.State)
    requires Good(u, s) && b < |s.sender.tx.batch| && s.sender.tx.batch[b].conn == u.c && BatchListsValid(s.sender.tx)
    requires SessionReachable(u.q, before) && before == Emitted(s.rest, s.sender.tx, u.c, b)
    ensures SessionReachable(u.q, before.(wire := before.wire + {PacketOf(SentOf(s.sender.tx, b))}))
  {
    var p := SentOf(s.sender.tx, b);
    ReachableInv(u.q, before);
    SentIsTrue(u, s, b);
    SentNumber(u, s, b);
    FramesHandled(u.q.cfg, s.rest.accepted, before.rx, u.q.conn, p.frames, 0);
    SameReliable(u.q.cfg, s.rest.accepted, p.frames);
    forall w | w in before.wire && s.sender.tx.batch[b].number != 0
      ensures w.number < p.number
    {
      AboveAll(u, s, b, w);
    }
    OneMore(u.q, before, Session.Emit(PacketOf(p)), before.(wire := before.wire + {PacketOf(p)}));
  }

  /** The packets the socket takes go out one after the other. */
  lemma {:induction false} EmitAll(u: Setup, s: State, k: nat)
    requires Good(u, s) && k <= |s.sender.tx.batch| && BatchListsValid(s.sender.tx)
    ensures SessionReachable(u.q, Emitted(s.rest, s.sender.tx, u.c, k))
  {
    var tx := s.sender.tx;
    if k == 0 {
      assert Packets(SentBelow(tx, u.c, 0)) == {};
      assert s.rest.wire + {} == s.rest.wire;
    } else {
      var b: nat := k - 1;
      EmitAll(u, s, b);
      SentMore(tx, u.c, b, k);
      if tx.batch[b].conn == u.c {
        EmitOne(u, s, b, Emitted(s.rest, tx, u.c, b));
        assert s.rest.wire + Packets(SentBelow(tx, u.c, b)) + {PacketOf(SentOf(tx, b))} ==
               s.rest.wire + Packets(SentBelow(tx, u.c, k));
      }
    }
  }

  /** A message that was in a packet of the batch is named by what was sent. */
  lemma CarrierSent(u: Setup, s: State, v: nat, k: nat)
    requires Good(u, s) && BatchListsValid(s.sender.tx) && k <= |s.sender.tx.batch| && v < |s.sender.tx.msgs|
    requires var p := s.sender.tx.place[v]; p.Packed? && p.b < k && s.sender.tx.msgs[v].owner == u.c
    requires IsReliable(s.sender.tx.msgs[v].rel)
    ensures var b := s.sender.tx.place[v].b;
      b < k && CarrierTrue(Packets(SentBelow(s.sender.tx, u.c, k)), s.sender.tx.msgs[v], s.sender.tx.batch[b].number)
  {
    var tx := s.sender.tx;
    var b := tx.place[v].b;
    assert PackedSlotOk(u.tx, tx, 0, v);
    SentNumber(u, s, b);
    assert Home(u.tx.slots, tx.msgs[v], tx.place[v]) == Some(InBatch(b));
    InSent(tx, v, b);
    var p := SentOf(tx, b);
    assert p in SentBelow(tx, u.c, k);
    assert PacketOf(p) in Packets(SentBelow(tx, u.c, k));
  }

  lemma InSent(tx: Tx, v: nat, b: nat)
    requires b < |tx.batch| && BatchListsValid(tx) && v < |tx.msgs| && v in At(tx.boxes, InBatch(b))
    ensures RefOf(FrameIn(tx.msgs[v])) in PacketOf(SentOf(tx, b)).frames
  {
    var list := At(tx.boxes, InBatch(b));
    var i :| 0 <= i < |list| && list[i] == v;
    assert SentOf(tx, b).frames[i] == FrameIn(tx.msgs[v]);
    assert PacketOf(SentOf(tx, b)).frames[i] == RefOf(FrameIn(tx.msgs[v]));
  }

  lemma CarriersAfterFlush(u: Setup, s: State, k: nat, now: uint64, tx': Tx)
    requires Good(u, s) && BatchListsValid(s.sender.tx) && k <= |s.sender.tx.batch|
    requires tx' == BatchFlushed(u.tx, s.sender.tx, k, now)
    ensures |tx'.msgs| == |tx'.place|
    ensures AllCarriersTrue(s.rest.wire + Packets(SentBelow(s.sender.tx, u.c, k)), tx', u.c)
  {
    var tx := s.sender.tx;
    FlushFaithful(u.tx, tx, k, now, u.c);
    forall v, x | 0 <= v < |tx'.msgs| && tx'.place[v] != Free && tx'.msgs[v].owner == u.c && x in tx'.msgs[v].carriedBy
      ensures CarrierTrue(s.rest.wire + Packets(SentBelow(tx, u.c, k)), tx'.msgs[v], x)
    {
      FlushCarriers(u.tx, tx, k, now, v);
      CarrierAfterFlush(u, s, k, tx', v, x);
    }
  }

  lemma CarrierAfterFlush(u: Setup, s: State, k: nat, tx': Tx, v: nat, x: uint32)
    requires Good(u, s) && BatchListsValid(s.sender.tx) && k <= |s.sender.tx.batch|
    requires v < |s.sender.tx.msgs| == |tx'.msgs| && s.sender.tx.place[v] != Free && s.sender.tx.msgs[v].owner == u.c
    requires SameContent(s.sender.tx.msgs[v], tx'.msgs[v]) && x in tx'.msgs[v].carriedBy
    requires CarriedBySent(s.sender.tx, tx', k, v)
    ensures CarrierTrue(s.rest.wire + Packets(SentBelow(s.sender.tx, u.c, k)), tx'.msgs[v], x)
  {
    var m := s.sender.tx.msgs[v];
    assert FrameIn(tx'.msgs[v]) == FrameIn(m);
    if x in m.carriedBy {
      assert CarriersTrue(s.rest.wire, m);
      assert CarrierTrue(s.rest.wire, m, x);
    } else {
      CarrierSent(u, s, v, k);
    }
  }

  lemma AirAfterFlush(u: Setup, s: State, k: nat)
    requires Good(u, s) && BatchListsValid(s.sender.tx) && k <= |s.sender.tx.batch|
    ensures AirTrue(u, s.rest.accepted, s.rest.wire + Packets(SentBelow(s.sender.tx, u.c, k)),
                    s.air + SentBelow(s.sender.tx, u.c, k))
  {
    forall p | p in SentBelow(s.sender.tx, u.c, k)
      ensures PacketOf(p) in Packets(SentBelow(s.sender.tx, u.c, k)) && FramesTrue(u.q.cfg, s.rest.accepted, p.frames)
    {
      var b: nat :| b < k && s.sender.tx.batch[b].conn == u.c && p == SentOf(s.sender.tx, b);
      SentIsTrue(u, s, b);
    }
  }

  lemma NumbersAfterFlush(u: Setup, s: State, k: nat, tx': Tx)
    requires Good(u, s) && BatchListsValid(s.sender.tx) && k <= |s.sender.tx.batch|
    requires |tx'.conns| == |s.sender.tx.conns| && tx'.batch == []
    requires tx'.conns[u.c].newest == s.sender.tx.conns[u.c].newest
    ensures NumbersTrue(tx', u.c, s.rest.wire + Packets(SentBelow(s.sender.tx, u.c, k)))
  {
    forall w | w in Packets(SentBelow(s.sender.tx, u.c, k))
      ensures w.number <= tx'.conns[u.c].newest
    {
      var p :| p in SentBelow(s.sender.tx, u.c, k) && w == PacketOf(p);
      var b: nat :| b < k && s.sender.tx.batch[b].conn == u.c && p == SentOf(s.sender.tx, b);
      SentNumber(u, s, b);
      if s.sender.tx.batch[b].number != 0 { assert Pending(s.sender.tx, u.c, 0, b); }
    }
  }

  lemma FlushesGood(u: Setup, s: State, taken: nat, now: uint64, s': State)
    requires Good(u, s) && Flushes(u, s, taken, now, s')
    ensures Good(u, s')
  {
    SenderTheorems.StepSafe(u.tx, s.sender, SenderRuns.Flush(taken, now));
    var tx, tx' := s.sender.tx, s'.sender.tx;
    assert tx' == BatchFlushed(u.tx, tx, taken, now);
    FlushFaithful(u.tx, tx, taken, now, u.c);
    PoolContinues(u, s.rest.accepted, tx, tx');
    EmitAll(u, s, taken);
    CarriersAfterFlush(u, s, taken, now, tx');
    AirAfterFlush(u, s, taken);
    NumbersAfterFlush(u, s, taken, tx');
  }
}
