/** One direction of one connection, end to end: the sending application and its coop_rudp sender, a
    network that may drop, duplicate and reorder packets, and the receiving endpoint, on which other
    connections are active at the same time.

    Message ids, packet numbers and channel positions are unbounded here; the receiver sees them
    wrapped to the width of their fields. The sender may put any frames of accepted messages into
    any new packet, which covers every schedule of its queues, losses and retransmissions. */
module Session {
  import opened MachineWords
  import opened SerialNumbers
  import opened Receiver
  import opened SentMessages
  import opened OrderedDelivery
  import opened Reassembly
  import opened ConnIsolation
  import AckTracker
  import DedupWindow
  import WakeUp

  /** A packet on the wire: its number (0 for packets that carry none) and the fragments in it, each
      a pair of message index and fragment index. */
  datatype Packet = Packet(number: nat, frames: seq<(nat, nat)>)

  /** An acknowledgement in the network, with the packets it was computed from. */
  datatype AckInfo = AckInfo(ack: AckTracker.Ack, seen: set<int>, top: int)

  /** `wire` and `acks` hold everything ever sent: any element may arrive any number of times, at any
      time, or never. `seen` are the numbers of the packets the receiver acknowledged, `tooOld` the
      ids it took for delivered only because they were 65536 or more behind, and `freed` the messages
      the sender released through an acknowledgement. */
  datatype State = State(accepted: seq<Message>, wire: set<Packet>, acks: set<AckInfo>, rx: Rx,
                         seen: set<int>, top: int, tooOld: set<uint32>, freed: set<nat>)

  datatype Params = Params(cfg: Config, conn: nat, skipUnreliableAcks: bool)

  predicate ValidParams(p: Params) {
    ValidConfig(p.cfg) && p.conn < p.cfg.maxConns
  }

  datatype Step =
    | Accept(m: Message)
    | Emit(p: Packet)
    | Arrive(p: Packet, now: uint64)
    | Acknowledge
    | FreeAcked(j: nat, number: nat, a: AckInfo)
    | OtherFrame(d: nat, f: Frame, now: uint64)
    | OtherAbort(d: nat)
    | Receive
    | Expire(now: uint64)

  function NewConn(cfg: Config): ConnRx {
    ConnRx(seq(cfg.maxChannels, _ => 0), map[], DedupWindow.Empty(), AckTracker.NoAck, [])
  }

  // ----- a packet arrives ------------------------------------------------------------------------

  predicate ValidFrame(cfg: Config, accepted: seq<Message>, fr: (nat, nat))
    requires 0 < cfg.framePayload
  {
    fr.0 < |accepted| && fr.1 < FragCount(cfg, |accepted[fr.0].payload|)
  }

  predicate ValidFrames(cfg: Config, accepted: seq<Message>, frames: seq<(nat, nat)>)
    requires 0 < cfg.framePayload
  {
    forall k :: 0 <= k < |frames| ==> ValidFrame(cfg, accepted, frames[k])
  }

  function OneFrame(cfg: Config, accepted: seq<Message>, rx: Rx, c: nat, fr: (nat, nat),
                    now: uint64): (r: (Rx, bool))
    requires 0 < cfg.framePayload && |accepted| < UINT32_MAX && ValidFrame(cfg, accepted, fr)
    requires Shape(cfg, rx) && c < |rx.conns|
    ensures Shape(cfg, r.0) && AcksKept(rx, r.0)
  {
    Processed(cfg, rx, c, FrameOf(cfg, accepted, fr.0, fr.1), now)
  }

  /** The frame loop of `process_packet`, and whether every frame counted as handled. */
  function ArriveFrames(cfg: Config, accepted: seq<Message>, rx: Rx, c: nat, frames: seq<(nat, nat)>,
                        now: uint64): (r: (Rx, bool))
    requires 0 < cfg.framePayload && |accepted| < UINT32_MAX && ValidFrames(cfg, accepted, frames)
    requires Shape(cfg, rx) && c < |rx.conns|
    ensures Shape(cfg, r.0) && AcksKept(rx, r.0)
    decreases |frames|
  {
    if frames == [] then (rx, true)
    else
      var (rx1, ok1) := OneFrame(cfg, accepted, rx, c, frames[0], now);
      var (rx2, ok2) := ArriveFrames(cfg, accepted, rx1, c, frames[1..], now);
      (rx2, ok1 && ok2)
  }

  /** Each frame is timely in the state in which it is processed. */
  ghost predicate ArriveTimely(cfg: Config, accepted: seq<Message>, rx: Rx, c: nat,
                               frames: seq<(nat, nat)>, now: uint64)
    requires 0 < cfg.framePayload && |accepted| < UINT32_MAX && ValidFrames(cfg, accepted, frames)
    requires Shape(cfg, rx) && c < |rx.conns|
    decreases |frames|
  {
    frames != [] ==>
      && Timely(accepted, rx.conns[c], frames[0].0)
      && ArriveTimely(cfg, accepted, OneFrame(cfg, accepted, rx, c, frames[0], now).0, c, frames[1..], now)
  }

  function TooOldId(rx: Rx, c: nat, id: uint32): set<uint32>
    requires c < |rx.conns|
  {
    if rx.conns[c].dedup.maxId - id >= DedupWindow.WINDOW then {id} else {}
  }

  /** Ids of this packet that were 65536 or more behind when their frame was processed. */
  ghost function ArriveTooOld(cfg: Config, accepted: seq<Message>, rx: Rx, c: nat,
                              frames: seq<(nat, nat)>, now: uint64): set<uint32>
    requires 0 < cfg.framePayload && |accepted| < UINT32_MAX && ValidFrames(cfg, accepted, frames)
    requires Shape(cfg, rx) && c < |rx.conns|
    decreases |frames|
  {
    if frames == [] then {}
    else
      TooOldId(rx, c, frames[0].0 + 1)
      + ArriveTooOld(cfg, accepted, OneFrame(cfg, accepted, rx, c, frames[0], now).0, c, frames[1..], now)
  }

  predicate HasReliable(accepted: seq<Message>, frames: seq<(nat, nat)>) {
    exists k :: 0 <= k < |frames| && frames[k].0 < |accepted| && IsReliable(accepted[frames[k].0].rel)
  }

  function WithAck(rx: Rx, c: nat, number: nat): Rx
    requires c < |rx.conns|
  {
    rx.(conns := rx.conns[c := rx.conns[c].(ack := AckTracker.Inserted(rx.conns[c].ack, Wrap32(number)).0)])
  }

  /** The state after the frame loop, before the packet number is recorded. */
  ghost function AfterLoop(q: Params, s: State, p: Packet, now: uint64): State
    requires ValidParams(q) && |s.accepted| < UINT32_MAX && ValidFrames(q.cfg, s.accepted, p.frames)
    requires Shape(q.cfg, s.rx)
  {
    s.(rx := ArriveFrames(q.cfg, s.accepted, s.rx, q.conn, p.frames, now).0,
       tooOld := s.tooOld + ArriveTooOld(q.cfg, s.accepted, s.rx, q.conn, p.frames, now))
  }

  /** The state after `process_packet`: the packet is acknowledged only if every frame was handled. */
  ghost function Arrived(q: Params, s: State, p: Packet, now: uint64): State
    requires ValidParams(q) && |s.accepted| < UINT32_MAX && ValidFrames(q.cfg, s.accepted, p.frames)
    requires Shape(q.cfg, s.rx)
  {
    var s1 := AfterLoop(q, s, p, now);
    if p.number != 0 && ArriveFrames(q.cfg, s.accepted, s.rx, q.conn, p.frames, now).1
       && (!q.skipUnreliableAcks || HasReliable(s.accepted, p.frames)) then
      s1.(rx := WithAck(s1.rx, q.conn, p.number),
          seen := s.seen + {p.number},
          top := AckTracker.NewTop(s.seen, s.top, p.number))
    else s1
  }

  // ----- steps -----------------------------------------------------------------------------------

  ghost predicate Next(q: Params, s: State, step: Step, s': State)
  {
    && ValidParams(q) && Shape(q.cfg, s.rx) && |s.accepted| < UINT32_MAX
    && match step
    case Accept(m) =>
      && Admissible(q.cfg, m) && |s.accepted| + 1 < UINT32_MAX
      && s' == s.(accepted := s.accepted + [m])
    case Emit(p) =>
      && ValidFrames(q.cfg, s.accepted, p.frames)
      && (if p.number == 0 then !HasReliable(s.accepted, p.frames)
          else Wrap32(p.number) != 0 && forall w :: w in s.wire ==> w.number < p.number)
      && s' == s.(wire := s.wire + {p})
    case Arrive(p, now) =>
      && p in s.wire && ValidFrames(q.cfg, s.accepted, p.frames)
      && ArriveTimely(q.cfg, s.accepted, s.rx, q.conn, p.frames, now)
      && (s.seen != {} ==> -HALF_32 <= p.number - s.top < HALF_32)
      && s' == Arrived(q, s, p, now)
    case Acknowledge =>
      s' == s.(acks := s.acks + {AckInfo(s.rx.conns[q.conn].ack, s.seen, s.top)})
    case FreeAcked(j, number, a) =>
      && a in s.acks && -HALF_32 <= number - a.top < HALF_32
      && j < |s.accepted| && IsReliable(s.accepted[j].rel) && FragCount(q.cfg, |s.accepted[j].payload|) == 1
      && (exists p :: p in s.wire && p.number == number && (j, 0) in p.frames)
      && AckTracker.Covers(a.ack.maxSeq, a.ack.bits, Wrap32(number))
      && s' == s.(freed := s.freed + {j})
    case OtherFrame(d, f, now) =>
      && d < q.cfg.maxConns && d != q.conn
      && s' == s.(rx := Processed(q.cfg, s.rx, d, f, now).0)
    case OtherAbort(d) =>
      && d < q.cfg.maxConns && d != q.conn
      && var rx1 := WakeUp.Aborted(s.rx, d);
         s' == s.(rx := rx1.(conns := rx1.conns[d := NewConn(q.cfg)]))
    case Receive =>
      && s.rx.queue != [] && s.rx.queue[0].conn < |s.rx.conns|
      && s' == s.(rx := Received(q.cfg, s.rx))
    case Expire(now) =>
      s' == s.(rx := Expired(s.rx, now))
  }

  function InitRx(cfg: Config): Rx {
    Rx(seq(cfg.maxConns, _ => NewConn(cfg)), [], seq(cfg.maxHolds, _ => None),
       seq(cfg.maxReasm, _ => Reasm(false, 0, 0, 0, 0, 0, 0, 0, 0, 0, Unreliable, seq(MAX_FRAGS, _ => false),
                                    seq(cfg.maxPayload, _ => 0))))
  }

  function Init(q: Params): State {
    State([], {}, {}, InitRx(q.cfg), {}, 0, {}, {})
  }

  // ----- the invariant ---------------------------------------------------------------------------

  /** Everything reliable and unfragmented in a packet has been delivered or is held, unless its id
      was too old to tell. */
  ghost predicate PacketDone(cfg: Config, s: State, c: nat, p: Packet)
    requires c < |s.rx.conns| && 0 < cfg.framePayload
  {
    forall k :: 0 <= k < |p.frames| ==> FrameDone(cfg, s, c, p.frames[k].0)
  }

  ghost predicate FrameDone(cfg: Config, s: State, c: nat, j: nat)
    requires c < |s.rx.conns| && 0 < cfg.framePayload
  {
    j < |s.accepted| && IsReliable(s.accepted[j].rel) && FragCount(cfg, |s.accepted[j].payload|) == 1 ==>
      j + 1 in Marks(s.rx, c) || j + 1 in s.tooOld
  }

  ghost predicate WireOk(cfg: Config, s: State)
    requires 0 < cfg.framePayload
  {
    && (forall p :: p in s.wire ==> ValidFrames(cfg, s.accepted, p.frames))
    && (forall p :: p in s.wire && p.number != 0 ==> Wrap32(p.number) != 0)
    && (forall p, w :: p in s.wire && w in s.wire && p.number == w.number && p.number != 0 ==> p == w)
  }

  ghost predicate AcksOk(s: State, c: nat)
    requires c < |s.rx.conns|
  {
    && AckTracker.Represents(s.rx.conns[c].ack, s.seen, s.top)
    && (forall a :: a in s.acks ==> AckTracker.Represents(a.ack, a.seen, a.top) && a.seen <= s.seen)
  }

  ghost predicate SeenSent(s: State) {
    forall n :: n in s.seen ==> n != 0 && exists p :: p in s.wire && p.number == n
  }

  ghost predicate Inv(q: Params, s: State) {
    && ValidParams(q)
    && RxOk(q.cfg, s.accepted, s.rx, q.conn)
    && WakeUp.NoLostWakeUp(s.rx)
    && WireOk(q.cfg, s)
    && AcksOk(s, q.conn)
    && (forall p :: p in s.wire && p.number != 0 && p.number in s.seen ==> PacketDone(q.cfg, s, q.conn, p))
    && SeenSent(s)
    && (forall j :: j in s.freed ==> j < |s.accepted| && FrameDone(q.cfg, s, q.conn, j))
  }

  // ----- preservation ----------------------------------------------------------------------------

  lemma InitOk(q: Params)
    requires ValidParams(q)
    ensures Inv(q, Init(q))
  {
    var rx := InitRx(q.cfg);
    var c := q.conn;
    assert rx.conns[c] == NewConn(q.cfg);
    assert LogIds(rx.conns[c].log) == {};
    assert HoldIds(rx.holds, c) == {};
    DedupWindow.EmptyRepresents();
    assert Shape(q.cfg, rx);
    forall channel: nat | channel < q.cfg.maxChannels
      ensures PrefixOk([], rx.conns[c], channel)
    {
      assert OrderedIds(rx.conns[c].log, channel) == [];
      assert OrderedOn([], channel) == [];
    }
    assert DeliveryOk(q.cfg, [], rx, c);
  }

  /** Growing marks and growing history keep what has been established about packets and messages. */
  lemma DoneGrows(q: Params, s: State, s': State)
    requires Inv(q, s) && |s'.rx.conns| == |s.rx.conns|
    requires s'.accepted == s.accepted
    requires Marks(s.rx, q.conn) <= Marks(s'.rx, q.conn) && s.tooOld <= s'.tooOld
    ensures forall j :: FrameDone(q.cfg, s, q.conn, j) ==> FrameDone(q.cfg, s', q.conn, j)
    ensures forall p :: PacketDone(q.cfg, s, q.conn, p) ==> PacketDone(q.cfg, s', q.conn, p)
  {
    forall p | PacketDone(q.cfg, s, q.conn, p)
      ensures PacketDone(q.cfg, s', q.conn, p)
    {
      forall k | 0 <= k < |p.frames|
        ensures FrameDone(q.cfg, s', q.conn, p.frames[k].0)
      {
        assert FrameDone(q.cfg, s, q.conn, p.frames[k].0);
      }
    }
  }

  /** Steps at the receiving endpoint that do not process a packet of this connection. */
  lemma LocalStepOk(q: Params, s: State, s': State)
    requires Inv(q, s)
    requires s' == s.(rx := s'.rx)
    requires RxOk(q.cfg, s'.accepted, s'.rx, q.conn) && WakeUp.NoLostWakeUp(s'.rx)
    requires Marks(s'.rx, q.conn) == Marks(s.rx, q.conn) && s'.rx.conns[q.conn].ack == s.rx.conns[q.conn].ack
    ensures Inv(q, s')
  {
    DoneGrows(q, s, s');
  }

  lemma OneFrameOk(q: Params, accepted: seq<Message>, rx: Rx, fr: (nat, nat), now: uint64)
    requires ValidParams(q) && RxOk(q.cfg, accepted, rx, q.conn) && WakeUp.NoLostWakeUp(rx)
    requires ValidFrame(q.cfg, accepted, fr) && Timely(accepted, rx.conns[q.conn], fr.0)
    ensures var r := OneFrame(q.cfg, accepted, rx, q.conn, fr, now);
      FrameHandled(q.cfg, accepted, rx, q.conn, fr.0, r) && WakeUp.NoLostWakeUp(r.0)
  {
    ProcessedOk(q.cfg, accepted, rx, q.conn, fr.0, fr.1, now);
    WakeUp.ProcessedKeeps(q.cfg, rx, q.conn, FrameOf(q.cfg, accepted, fr.0, fr.1), now);
  }

  /** Message j is a reliable message that fits into one frame. */
  predicate Single(cfg: Config, accepted: seq<Message>, j: nat)
    requires 0 < cfg.framePayload
  {
    j < |accepted| && IsReliable(accepted[j].rel) && FragCount(cfg, |accepted[j].payload|) == 1
  }

  ghost predicate SinglesIn(cfg: Config, accepted: seq<Message>, frames: seq<(nat, nat)>, ids: set<uint32>)
    requires 0 < cfg.framePayload && |accepted| < UINT32_MAX
  {
    forall k :: 0 <= k < |frames| && Single(cfg, accepted, frames[k].0) ==> frames[k].0 + 1 in ids
  }

  lemma SinglesCons(cfg: Config, accepted: seq<Message>, frames: seq<(nat, nat)>, a: set<uint32>, b: set<uint32>)
    requires 0 < cfg.framePayload && |accepted| < UINT32_MAX && frames != []
    requires Single(cfg, accepted, frames[0].0) ==> frames[0].0 + 1 in b
    requires SinglesIn(cfg, accepted, frames[1..], a) && a <= b
    ensures SinglesIn(cfg, accepted, frames, b)
  {
    forall k | 0 <= k < |frames| && Single(cfg, accepted, frames[k].0)
      ensures frames[k].0 + 1 in b
    {
      if k > 0 { assert frames[k] == frames[1..][k - 1]; }
    }
  }

  /** After the frame loop the invariant holds, and if every frame was handled, every unfragmented
      reliable message of the packet is marked or too old. */
  ghost predicate LoopDone(q: Params, accepted: seq<Message>, rx: Rx, frames: seq<(nat, nat)>,
                           old_: set<uint32>, r: (Rx, bool))
    requires ValidParams(q) && |accepted| < UINT32_MAX && q.conn < |rx.conns|
  {
    && RxOk(q.cfg, accepted, r.0, q.conn) && WakeUp.NoLostWakeUp(r.0)
    && Marks(rx, q.conn) <= Marks(r.0, q.conn)
    && (r.1 ==> SinglesIn(q.cfg, accepted, frames, Marks(r.0, q.conn) + old_))
  }

  lemma LoopStep(q: Params, accepted: seq<Message>, rx: Rx, frames: seq<(nat, nat)>, r1: (Rx, bool),
                 old1: set<uint32>, r: (Rx, bool))
    requires ValidParams(q) && |accepted| < UINT32_MAX && q.conn < |rx.conns| && q.conn < |r1.0.conns|
    requires frames != [] && ValidFrame(q.cfg, accepted, frames[0])
    requires FrameHandled(q.cfg, accepted, rx, q.conn, frames[0].0, r1)
    requires LoopDone(q, accepted, r1.0, frames[1..], old1, r)
    ensures LoopDone(q, accepted, rx, frames, TooOldId(rx, q.conn, frames[0].0 + 1) + old1, (r.0, r1.1 && r.1))
  {
    if r1.1 && r.1 {
      SinglesCons(q.cfg, accepted, frames, Marks(r.0, q.conn) + old1,
                  Marks(r.0, q.conn) + (TooOldId(rx, q.conn, frames[0].0 + 1) + old1));
    }
  }

  lemma {:induction false} ArriveFramesOk(q: Params, accepted: seq<Message>, rx: Rx, frames: seq<(nat, nat)>,
                                          now: uint64)
    requires ValidParams(q) && RxOk(q.cfg, accepted, rx, q.conn) && WakeUp.NoLostWakeUp(rx)
    requires ValidFrames(q.cfg, accepted, frames)
    requires ArriveTimely(q.cfg, accepted, rx, q.conn, frames, now)
    ensures LoopDone(q, accepted, rx, frames, ArriveTooOld(q.cfg, accepted, rx, q.conn, frames, now),
                     ArriveFrames(q.cfg, accepted, rx, q.conn, frames, now))
    decreases |frames|
  {
    if frames != [] {
      var c, rest := q.conn, frames[1..];
      OneFrameOk(q, accepted, rx, frames[0], now);
      var r1 := OneFrame(q.cfg, accepted, rx, c, frames[0], now);
      ArriveFramesOk(q, accepted, r1.0, rest, now);
      LoopStep(q, accepted, rx, frames, r1, ArriveTooOld(q.cfg, accepted, r1.0, c, rest, now),
               ArriveFrames(q.cfg, accepted, r1.0, c, rest, now));
    }
  }

  lemma WithAckOk(q: Params, accepted: seq<Message>, rx: Rx, number: nat)
    requires ValidParams(q) && RxOk(q.cfg, accepted, rx, q.conn) && WakeUp.NoLostWakeUp(rx)
    ensures var rx' := WithAck(rx, q.conn, number);
      && RxOk(q.cfg, accepted, rx', q.conn) && WakeUp.NoLostWakeUp(rx')
      && Marks(rx', q.conn) == Marks(rx, q.conn)
  {
    var rx' := WithAck(rx, q.conn, number);
    OrderOkSame(accepted, q.conn, rx.conns[q.conn], rx'.conns[q.conn], rx.holds);
    assert Shape(q.cfg, rx');
    WakeUp.QuietKeeps(rx, rx');
  }

  lemma LoopMeansDone(q: Params, s: State, p: Packet, ids: set<uint32>)
    requires ValidParams(q) && |s.accepted| < UINT32_MAX && q.conn < |s.rx.conns|
    requires SinglesIn(q.cfg, s.accepted, p.frames, ids) && ids <= Marks(s.rx, q.conn) + s.tooOld
    ensures PacketDone(q.cfg, s, q.conn, p)
  {
    forall k | 0 <= k < |p.frames|
      ensures FrameDone(q.cfg, s, q.conn, p.frames[k].0)
    {
      assert Single(q.cfg, s.accepted, p.frames[k].0) ==> p.frames[k].0 + 1 in ids;
    }
  }

  lemma {:induction false} FrameLoopOk(q: Params, s: State, p: Packet, now: uint64)
    requires Inv(q, s) && p in s.wire && ArriveTimely(q.cfg, s.accepted, s.rx, q.conn, p.frames, now)
    ensures Inv(q, AfterLoop(q, s, p, now))
    ensures ArriveFrames(q.cfg, s.accepted, s.rx, q.conn, p.frames, now).1 ==>
              PacketDone(q.cfg, AfterLoop(q, s, p, now), q.conn, p)
  {
    var s1 := AfterLoop(q, s, p, now);
    var old_ := ArriveTooOld(q.cfg, s.accepted, s.rx, q.conn, p.frames, now);
    ArriveFramesOk(q, s.accepted, s.rx, p.frames, now);
    DoneGrows(q, s, s1);
    if ArriveFrames(q.cfg, s.accepted, s.rx, q.conn, p.frames, now).1 {
      LoopMeansDone(q, s1, p, Marks(s1.rx, q.conn) + old_);
    }
  }

  /** Recording the number of a packet all of whose frames were handled. */
  lemma RecordOk(q: Params, s: State, p: Packet)
    requires Inv(q, s) && p in s.wire && p.number != 0 && PacketDone(q.cfg, s, q.conn, p)
    requires s.seen != {} ==> -HALF_32 <= p.number - s.top < HALF_32
    ensures Inv(q, s.(rx := WithAck(s.rx, q.conn, p.number), seen := s.seen + {p.number},
                      top := AckTracker.NewTop(s.seen, s.top, p.number)))
  {
    var s' := s.(rx := WithAck(s.rx, q.conn, p.number), seen := s.seen + {p.number},
                 top := AckTracker.NewTop(s.seen, s.top, p.number));
    WithAckOk(q, s.accepted, s.rx, p.number);
    AckTracker.InsertRefines(s.rx.conns[q.conn].ack, s.seen, s.top, p.number);
    DoneGrows(q, s, s');
    forall w | w in s'.wire && w.number != 0 && w.number in s'.seen
      ensures PacketDone(q.cfg, s', q.conn, w)
    {
      if w.number == p.number { assert w == p; }
    }
  }

  lemma {:induction false} ArriveOk(q: Params, s: State, p: Packet, now: uint64)
    requires Inv(q, s) && p in s.wire && ArriveTimely(q.cfg, s.accepted, s.rx, q.conn, p.frames, now)
    requires s.seen != {} ==> -HALF_32 <= p.number - s.top < HALF_32
    ensures Inv(q, Arrived(q, s, p, now))
  {
    FrameLoopOk(q, s, p, now);
    if p.number != 0 && ArriveFrames(q.cfg, s.accepted, s.rx, q.conn, p.frames, now).1
       && (!q.skipUnreliableAcks || HasReliable(s.accepted, p.frames)) {
      RecordOk(q, AfterLoop(q, s, p, now), p);
    }
  }

  /** What a freed message was acknowledged for is what the receiver did with its packet. */
  lemma FreeOk(q: Params, s: State, j: nat, number: nat, a: AckInfo)
    requires Inv(q, s) && a in s.acks && -HALF_32 <= number - a.top < HALF_32
    requires exists p :: p in s.wire && p.number == number && (j, 0) in p.frames
    requires AckTracker.Covers(a.ack.maxSeq, a.ack.bits, Wrap32(number))
    ensures FrameDone(q.cfg, s, q.conn, j)
  {
    var p :| p in s.wire && p.number == number && (j, 0) in p.frames;
    assert Wrap32(number) != 0;
    AckTracker.CoversExact(a.ack, a.seen, a.top, number);
    assert number in s.seen && PacketDone(q.cfg, s, q.conn, p);
    var k :| 0 <= k < |p.frames| && p.frames[k] == (j, 0);
    assert FrameDone(q.cfg, s, q.conn, p.frames[k].0);
  }

  // ----- acceptance of a new message -------------------------------------------------------------

  lemma {:induction false} AcceptPrefix(accepted: seq<Message>, m: Message, channel: nat)
    ensures OrderedOn(accepted, channel) <= OrderedOn(accepted + [m], channel)
  {
    assert (accepted + [m])[..|accepted|] == accepted;
    OrderedOnPrefix(accepted + [m], |accepted|, channel);
  }

  lemma AcceptOrderOk(accepted: seq<Message>, m: Message, c: nat, cn: ConnRx, holds: seq<Option<Hold>>)
    requires OrderOk(accepted, c, cn, holds)
    ensures OrderOk(accepted + [m], c, cn, holds)
  {
    var accepted' := accepted + [m];
    forall channel: nat | channel < |cn.expected|
      ensures PrefixOk(accepted', cn, channel)
    {
      assert PrefixOk(accepted, cn, channel);
      AcceptPrefix(accepted, m, channel);
    }
    forall i | 0 <= i < |cn.log|
      ensures EntryOk(accepted', c, cn.log[i])
    {
      assert EntryOk(accepted, c, cn.log[i]);
    }
    forall i | 0 <= i < |holds| && holds[i].Some? && holds[i].value.conn == c
      ensures HoldOk(accepted', c, cn.log, holds[i].value)
    {
      assert HoldOk(accepted, c, cn.log, holds[i].value);
      PositionStable(accepted, m, holds[i].value.msgId - 1);
    }
  }

  lemma AcceptSlotOk(cfg: Config, accepted: seq<Message>, m: Message, r: Reasm)
    requires ValidConfig(cfg) && AllAdmissible(cfg, accepted) && AllAdmissible(cfg, accepted + [m])
    requires |r.data| == cfg.maxPayload && |r.received| == MAX_FRAGS
    requires SlotOk(cfg, accepted, r)
    ensures SlotOk(cfg, accepted + [m], r)
  {
    PositionStable(accepted, m, r.msgId - 1);
  }

  lemma AcceptRxOk(cfg: Config, accepted: seq<Message>, m: Message, rx: Rx, c: nat)
    requires RxOk(cfg, accepted, rx, c) && Admissible(cfg, m) && |accepted| + 1 < UINT32_MAX
    ensures RxOk(cfg, accepted + [m], rx, c)
  {
    AcceptOrderOk(accepted, m, c, rx.conns[c], rx.holds);
    forall i | 0 <= i < |rx.reasm| && rx.reasm[i].used && rx.reasm[i].conn == c
      ensures SlotOk(cfg, accepted + [m], rx.reasm[i])
    {
      AcceptSlotOk(cfg, accepted, m, rx.reasm[i]);
    }
  }

  lemma AcceptFrameDone(q: Params, s: State, m: Message, j: nat)
    requires ValidParams(q) && q.conn < |s.rx.conns| && j < |s.accepted|
    requires FrameDone(q.cfg, s, q.conn, j)
    ensures FrameDone(q.cfg, s.(accepted := s.accepted + [m]), q.conn, j)
  {
  }

  lemma AcceptPacketDone(q: Params, s: State, m: Message, p: Packet)
    requires ValidParams(q) && q.conn < |s.rx.conns|
    requires ValidFrames(q.cfg, s.accepted, p.frames) && PacketDone(q.cfg, s, q.conn, p)
    ensures PacketDone(q.cfg, s.(accepted := s.accepted + [m]), q.conn, p)
  {
    forall k | 0 <= k < |p.frames|
      ensures FrameDone(q.cfg, s.(accepted := s.accepted + [m]), q.conn, p.frames[k].0)
    {
      assert ValidFrame(q.cfg, s.accepted, p.frames[k]);
      AcceptFrameDone(q, s, m, p.frames[k].0);
    }
  }

  lemma AcceptWireOk(cfg: Config, s: State, m: Message)
    requires 0 < cfg.framePayload && WireOk(cfg, s)
    ensures WireOk(cfg, s.(accepted := s.accepted + [m]))
  {
    forall p | p in s.wire
      ensures ValidFrames(cfg, s.accepted + [m], p.frames)
    {
      assert forall k :: 0 <= k < |p.frames| ==> ValidFrame(cfg, s.accepted, p.frames[k]);
    }
  }

  lemma AcceptOk(q: Params, s: State, m: Message)
    requires Inv(q, s) && Admissible(q.cfg, m) && |s.accepted| + 1 < UINT32_MAX
    ensures Inv(q, s.(accepted := s.accepted + [m]))
  {
    var s' := s.(accepted := s.accepted + [m]);
    AcceptRxOk(q.cfg, s.accepted, m, s.rx, q.conn);
    AcceptWireOk(q.cfg, s, m);
    forall p | p in s.wire && p.number != 0 && p.number in s.seen
      ensures PacketDone(q.cfg, s', q.conn, p)
    {
      AcceptPacketDone(q, s, m, p);
    }
    forall j | j in s.freed
      ensures j < |s'.accepted| && FrameDone(q.cfg, s', q.conn, j)
    {
      AcceptFrameDone(q, s, m, j);
    }
  }

  // ----- every step keeps the invariant ----------------------------------------------------------

  lemma EmitOk(q: Params, s: State, p: Packet)
    requires Inv(q, s) && ValidFrames(q.cfg, s.accepted, p.frames)
    requires p.number != 0 ==> Wrap32(p.number) != 0 && forall w :: w in s.wire ==> w.number < p.number
    ensures Inv(q, s.(wire := s.wire + {p}))
  {
    var s' := s.(wire := s.wire + {p});
    assert p.number != 0 ==> p.number !in s.seen;
    forall n | n in s'.seen
      ensures exists w :: w in s'.wire && w.number == n
    {
      var w :| w in s.wire && w.number == n;
      assert w in s'.wire;
    }
  }

  lemma OtherFrameOk(q: Params, s: State, d: nat, f: Frame, now: uint64)
    requires Inv(q, s) && d < q.cfg.maxConns && d != q.conn
    ensures Inv(q, s.(rx := Processed(q.cfg, s.rx, d, f, now).0))
  {
    var rx' := Processed(q.cfg, s.rx, d, f, now).0;
    ProcessedUntouched(q.cfg, s.rx, d, f, now, q.conn);
    UntouchedOk(q.cfg, s.accepted, s.rx, rx', q.conn);
    WakeUp.ProcessedKeeps(q.cfg, s.rx, d, f, now);
    LocalStepOk(q, s, s.(rx := rx'));
  }

  lemma OtherAbortOk(q: Params, s: State, d: nat)
    requires Inv(q, s) && d < q.cfg.maxConns && d != q.conn
    ensures var rx1 := WakeUp.Aborted(s.rx, d);
      Inv(q, s.(rx := rx1.(conns := rx1.conns[d := NewConn(q.cfg)])))
  {
    var rx1 := WakeUp.Aborted(s.rx, d);
    var rx2 := rx1.(conns := rx1.conns[d := NewConn(q.cfg)]);
    assert Shape(q.cfg, rx2);
    AbortedUntouched(s.rx, d, q.conn);
    UntouchedOk(q.cfg, s.accepted, s.rx, rx2, q.conn);
    WakeUp.AbortedKeeps(s.rx, d);
    WakeUp.ReplacedKeeps(rx1, d, NewConn(q.cfg));
    LocalStepOk(q, s, s.(rx := rx2));
  }

  lemma ReceiveOk(q: Params, s: State)
    requires Inv(q, s) && s.rx.queue != []
    ensures Inv(q, s.(rx := Received(q.cfg, s.rx)))
  {
    WakeUp.ReceivedKeeps(q.cfg, s.rx);
    ReceivedOk(q.cfg, s.accepted, s.rx, q.conn);
    LocalStepOk(q, s, s.(rx := Received(q.cfg, s.rx)));
  }

  lemma ExpireOk(q: Params, s: State, now: uint64)
    requires Inv(q, s)
    ensures Inv(q, s.(rx := Expired(s.rx, now)))
  {
    ExpiredOk(q.cfg, s.accepted, s.rx, now, q.conn);
    WakeUp.QuietKeeps(s.rx, Expired(s.rx, now));
    LocalStepOk(q, s, s.(rx := Expired(s.rx, now)));
  }

  lemma AcknowledgeOk(q: Params, s: State)
    requires Inv(q, s)
    ensures Inv(q, s.(acks := s.acks + {AckInfo(s.rx.conns[q.conn].ack, s.seen, s.top)}))
  {
  }

  lemma FreeAckedOk(q: Params, s: State, j: nat, number: nat, a: AckInfo)
    requires Inv(q, s) && Next(q, s, FreeAcked(j, number, a), s.(freed := s.freed + {j}))
    ensures Inv(q, s.(freed := s.freed + {j}))
  {
    FreeOk(q, s, j, number, a);
    DoneGrows(q, s, s.(freed := s.freed + {j}));
  }

  lemma EndpointStepOk(q: Params, s: State, step: Step, s': State)
    requires Inv(q, s) && Next(q, s, step, s')
    requires step.OtherFrame? || step.OtherAbort? || step.Receive? || step.Expire?
    ensures Inv(q, s')
  {
    match step
    case OtherFrame(d, f, now) => OtherFrameOk(q, s, d, f, now);
    case OtherAbort(d) => OtherAbortOk(q, s, d);
    case Receive => ReceiveOk(q, s);
    case Expire(now) => ExpireOk(q, s, now);
  }

  /** Every step of the system keeps the invariant. */
  lemma StepOk(q: Params, s: State, step: Step, s': State)
    requires Inv(q, s) && Next(q, s, step, s')
    ensures Inv(q, s')
  {
    match step
    case Accept(m) => AcceptOk(q, s, m);
    case Emit(p) => EmitOk(q, s, p);
    case Arrive(p, now) => ArriveOk(q, s, p, now);
    case Acknowledge => AcknowledgeOk(q, s);
    case FreeAcked(j, number, a) => FreeAckedOk(q, s, j, number, a);
    case _ => EndpointStepOk(q, s, step, s');
  }
}
