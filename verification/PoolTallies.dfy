/** The byte and message counters a connection keeps, as sums over the message pool. */
module PoolTallies {
  import opened MachineWords
  import opened MessagePool

  /** What the source counts: `send_queue_bytes`, a flow's `queued_bytes`, `retransmit_queue_bytes`,
      `inflight_bytes`, `late_ack_msg_count`; and two it does not count: the reliable messages of a
      flow that are in flight, in the batch, or waiting for retransmission, and the messages that are
      in a ring or were picked from it and could come back. */
  datatype Tally =
    | UnsentBytes(conn: nat)
    | FlowUnsentBytes(conn: nat, flow: nat)
    | RetryBytes(conn: nat)
    | FlightBytes(conn: nat)
    | LateMsgs(conn: nat)
    | Outstanding(conn: nat, flow: nat)
    | RingLoad(conn: nat, flow: nat, kind: Kind)

  predicate Unsent(p: Place) {
    (p.Queued? || p.Transit? || p.Packed?) && !p.kind.Retry?
  }

  predicate IsOutstanding(p: Place) {
    p.Flight? || ((p.Queued? || p.Transit?) && p.kind.Retry?) || (p.Packed? && !p.kind.Unrel?)
  }

  predicate LoadsRing(p: Place) { p.Queued? || p.Transit? || p.Packed? }

  /** The share of one slot in a tally. */
  function Weight(t: Tally, m: Msg, p: Place): nat {
    match t
    case UnsentBytes(c) => if m.owner == c && Unsent(p) then |m.payload| else 0
    case FlowUnsentBytes(c, f) => if m.owner == c && m.flow == f && Unsent(p) then |m.payload| else 0
    case RetryBytes(c) => if m.owner == c && p == Queued(Retry) then |m.payload| else 0
    case FlightBytes(c) => if m.owner == c && p.Flight? then |m.payload| else 0
    case LateMsgs(c) => if m.used && m.owner == c && m.lostAcks != [] then 1 else 0
    case Outstanding(c, f) => if m.owner == c && m.flow == f && IsOutstanding(p) then 1 else 0
    case RingLoad(c, f, k) => if m.owner == c && m.flow == f && LoadsRing(p) && p.kind == k then 1 else 0
  }

  function Total(t: Tally, msgs: seq<Msg>, place: seq<Place>): nat
    requires |place| == |msgs|
  {
    if msgs == [] then 0
    else Weight(t, msgs[0], place[0]) + Total(t, msgs[1..], place[1..])
  }

  lemma {:induction false} TotalUpdate(t: Tally, msgs: seq<Msg>, place: seq<Place>, v: nat, m: Msg, p: Place)
    requires |place| == |msgs| && v < |msgs|
    ensures Total(t, msgs[v := m], place[v := p]) ==
            Total(t, msgs, place) - Weight(t, msgs[v], place[v]) + Weight(t, m, p)
    ensures Weight(t, msgs[v], place[v]) <= Total(t, msgs, place)
  {
    if v == 0 {
      assert msgs[0 := m][1..] == msgs[1..] && place[0 := p][1..] == place[1..];
    } else {
      assert msgs[v := m][1..] == msgs[1..][v - 1 := m] && place[v := p][1..] == place[1..][v - 1 := p];
      TotalUpdate(t, msgs[1..], place[1..], v - 1, m, p);
    }
  }

  /** With payloads of at most `max` bytes a tally is at most max (or 1) per slot. */
  lemma {:induction false} TotalBound(t: Tally, msgs: seq<Msg>, place: seq<Place>, max: nat)
    requires |place| == |msgs| && 1 <= max
    requires forall v :: 0 <= v < |msgs| ==> |msgs[v].payload| <= max
    ensures Total(t, msgs, place) <= |msgs| * max
  {
    if msgs != [] {
      TotalBound(t, msgs[1..], place[1..], max);
      assert |msgs| * max == (|msgs| - 1) * max + max;
    }
  }

  lemma {:induction false} TotalZero(t: Tally, msgs: seq<Msg>, place: seq<Place>)
    requires |place| == |msgs|
    ensures Total(t, msgs, place) == 0 <==> forall v :: 0 <= v < |msgs| ==> Weight(t, msgs[v], place[v]) == 0
  {
    if msgs != [] {
      TotalZero(t, msgs[1..], place[1..]);
      if forall v :: 0 <= v < |msgs| ==> Weight(t, msgs[v], place[v]) == 0 {
        forall v | 0 <= v < |msgs[1..]|
          ensures Weight(t, msgs[1..][v], place[1..][v]) == 0
        {
          assert Weight(t, msgs[v + 1], place[v + 1]) == 0;
        }
      } else {
        var v :| 0 <= v < |msgs| && Weight(t, msgs[v], place[v]) != 0;
        if v > 0 { assert Weight(t, msgs[1..][v - 1], place[1..][v - 1]) != 0; }
      }
    }
  }

  // ----- the counters of a connection ------------------------------------------------------------

  datatype FlowTx = FlowTx(queuedBytes: uint32, maxBps: uint32, maxQueueBytes: uint32, maxDelayMs: uint32)

  /** Sending side of `rudp_conn`. `newest` is history: the unbounded number of the last numbered
      packet, of which `next` is the wrapped successor. `tracked` holds unbounded numbers; the source
      stores them wrapped. `batchFirst` is 0 or the first number issued in this flush. */
  datatype ConnTx = ConnTx(active: bool, next: uint32, newest: int, tracked: seq<int>, batchFirst: int,
                           blocked: bool, sendQueueBytes: uint32, retransmitBytes: uint32,
                           inflightBytes: uint32, lateAckCount: uint32, nextMsgId: uint32,
                           orderedSeq: seq<uint16>, sequencedSeq: map<(nat, nat), uint16>, flows: seq<FlowTx>)

  /** `add_u32_saturating` */
  function AddSat(a: uint32, b: nat): uint32 {
    if a + b > UINT32_MAX then UINT32_MAX else a + b
  }

  /** The guarded subtraction of the `account_*` functions. */
  function SubGuarded(a: uint32, b: nat): uint32 {
    if a >= b then a - b else a
  }

  function UnsentAdded(cn: ConnTx, f: nat, len: nat): ConnTx
    requires f < |cn.flows|
  {
    cn.(sendQueueBytes := AddSat(cn.sendQueueBytes, len),
        flows := cn.flows[f := cn.flows[f].(queuedBytes := AddSat(cn.flows[f].queuedBytes, len))])
  }

  /** `account_unsent_queue_removed` */
  function UnsentRemoved(cn: ConnTx, f: nat, len: nat): ConnTx
    requires f < |cn.flows|
  {
    cn.(sendQueueBytes := SubGuarded(cn.sendQueueBytes, len),
        flows := cn.flows[f := cn.flows[f].(queuedBytes := SubGuarded(cn.flows[f].queuedBytes, len))])
  }

  function RetryAdded(cn: ConnTx, len: nat): ConnTx { cn.(retransmitBytes := AddSat(cn.retransmitBytes, len)) }

  /** `account_retry_queue_removed` */
  function RetryRemoved(cn: ConnTx, len: nat): ConnTx { cn.(retransmitBytes := SubGuarded(cn.retransmitBytes, len)) }

  function FlightAdded(cn: ConnTx, len: nat): ConnTx { cn.(inflightBytes := AddSat(cn.inflightBytes, len)) }

  function FlightRemoved(cn: ConnTx, len: nat): ConnTx { cn.(inflightBytes := SubGuarded(cn.inflightBytes, len)) }

  function LateAdded(cn: ConnTx): ConnTx { cn.(lateAckCount := AddSat(cn.lateAckCount, 1)) }

  function LateRemoved(cn: ConnTx): ConnTx { cn.(lateAckCount := SubGuarded(cn.lateAckCount, 1)) }

  /** The counter of a tally, for those the source keeps. */
  function Counter(conns: seq<ConnTx>, t: Tally): int
    requires t.conn < |conns|
  {
    var cn := conns[t.conn];
    match t
    case UnsentBytes(_) => cn.sendQueueBytes
    case FlowUnsentBytes(_, f) => if f < |cn.flows| then cn.flows[f].queuedBytes else 0
    case RetryBytes(_) => cn.retransmitBytes
    case FlightBytes(_) => cn.inflightBytes
    case LateMsgs(_) => cn.lateAckCount
    case Outstanding(_, _) => 0
    case RingLoad(_, _, _) => 0
  }

  predicate Kept(conns: seq<ConnTx>, t: Tally) {
    !t.Outstanding? && !t.RingLoad? && t.conn < |conns| && (t.FlowUnsentBytes? ==> t.flow < |conns[t.conn].flows|)
  }

  /** Every counter equals the sum it stands for. */
  ghost predicate CountersOk(conns: seq<ConnTx>, msgs: seq<Msg>, place: seq<Place>)
    requires |place| == |msgs|
  {
    forall t: Tally :: Kept(conns, t) ==> Counter(conns, t) == Total(t, msgs, place)
  }

  /** The counters move by exactly the change of the slot's share. */
  ghost predicate CountersMove(conns: seq<ConnTx>, conns': seq<ConnTx>, m: Msg, p: Place, m': Msg, p': Place) {
    && |conns'| == |conns|
    && (forall c :: 0 <= c < |conns| ==> |conns'[c].flows| == |conns[c].flows|)
    && forall t: Tally :: Kept(conns, t) ==>
         Counter(conns', t) == Counter(conns, t) - Weight(t, m, p) + Weight(t, m', p')
  }

  lemma CountersMoveOk(conns: seq<ConnTx>, conns': seq<ConnTx>, msgs: seq<Msg>, place: seq<Place>, v: nat, m: Msg,
                       p: Place)
    requires |place| == |msgs| && v < |msgs|
    requires CountersOk(conns, msgs, place) && CountersMove(conns, conns', msgs[v], place[v], m, p)
    ensures CountersOk(conns', msgs[v := m], place[v := p])
  {
    forall t: Tally | Kept(conns', t)
      ensures Counter(conns', t) == Total(t, msgs[v := m], place[v := p])
    {
      assert Kept(conns, t);
      TotalUpdate(t, msgs, place, v, m, p);
    }
  }
}
