/** Sending side of a coop_rudp endpoint: the shared message pool, the rings of every flow of every
    connection, the in-flight records and the send batch. This module has the state, the moves of a
    single message slot, and the core of the invariant: every slot in exactly one place, its fields
    agreeing with that place, and every counter equal to the sum it stands for. */
module Sender {
  import opened MachineWords
  import opened Receiver
  import opened MessagePool
  import opened PoolTallies

  datatype TxConfig = TxConfig(maxConns: nat, maxFlows: nat, maxChannels: nat, maxMessages: nat,
                               slots: nat, framePayload: nat, maxPayload: nat, ringCap: nat,
                               batchSize: nat, skipUnreliableAcks: bool)

  const HEADER_BYTES: nat := 32
  const FRAME_HEADER_BYTES: nat := 20

  function Mtu(cfg: TxConfig): nat { cfg.framePayload + HEADER_BYTES + FRAME_HEADER_BYTES }

  /** What `rudp_endpoint_create` establishes, and that the pool holds less than 2^32 bytes, so that the
      saturating 32-bit counters never saturate. */
  predicate ValidTx(cfg: TxConfig) {
    && 0 < cfg.slots && 0 < cfg.framePayload && 0 < cfg.batchSize
    && 0 < cfg.maxPayload < TWO_16 && cfg.maxPayload <= cfg.framePayload * MAX_FRAGS
    && cfg.maxMessages * cfg.framePayload <= UINT32_MAX
    && 1024 < cfg.ringCap
  }

  /** `rudp_sent_packet`; its references are the box InFlight. `unwrapped` is history. */
  datatype SentInfo = SentInfo(used: bool, number: uint32, unwrapped: int, sentNs: uint64)

  /** A packet of the send batch; its messages are the box InBatch. */
  datatype OutInfo = OutInfo(conn: nat, number: uint32, unwrapped: int, ackOnly: bool, bytes: nat)

  datatype Tx = Tx(msgs: seq<Msg>, place: seq<Place>, boxes: Boxes, sent: seq<seq<SentInfo>>,
                   conns: seq<ConnTx>, batch: seq<OutInfo>)

  ghost predicate TxShape(cfg: TxConfig, tx: Tx) {
    && |tx.msgs| == |tx.place| == cfg.maxMessages
    && |tx.conns| == |tx.sent| == cfg.maxConns
    && (forall c :: 0 <= c < |tx.sent| ==> |tx.sent[c]| == cfg.slots)
    && (forall c :: 0 <= c < |tx.conns| ==>
          |tx.conns[c].flows| == cfg.maxFlows && |tx.conns[c].orderedSeq| == cfg.maxChannels)
  }

  ghost predicate SlotsFit(cfg: TxConfig, msgs: seq<Msg>, place: seq<Place>)
    requires |place| == |msgs|
  {
    forall v :: 0 <= v < |msgs| ==>
      MsgOk(cfg.maxConns, cfg.maxFlows, msgs[v], place[v]) && |msgs[v].payload| <= cfg.framePayload
  }

  ghost predicate Core(cfg: TxConfig, tx: Tx) {
    && ValidTx(cfg) && TxShape(cfg, tx)
    && BoxesOk(cfg.slots, tx.msgs, tx.place, tx.boxes)
    && SlotsFit(cfg, tx.msgs, tx.place)
    && CountersOk(tx.conns, tx.msgs, tx.place)
  }

  /** Slot v becomes m at place p. */
  function Moved(tx: Tx, v: nat, m: Msg, p: Place, boxes: Boxes, conns: seq<ConnTx>): Tx
    requires v < |tx.msgs| == |tx.place|
  {
    tx.(msgs := tx.msgs[v := m], place := tx.place[v := p], boxes := boxes, conns := conns)
  }

  lemma MovedCore(cfg: TxConfig, tx: Tx, v: nat, m: Msg, p: Place, boxes: Boxes, conns: seq<ConnTx>)
    requires Core(cfg, tx) && v < |tx.msgs|
    requires BoxMove(tx.boxes, boxes, v, Home(cfg.slots, tx.msgs[v], tx.place[v]), Home(cfg.slots, m, p))
    requires MsgOk(cfg.maxConns, cfg.maxFlows, m, p) && |m.payload| <= cfg.framePayload
    requires CountersMove(tx.conns, conns, tx.msgs[v], tx.place[v], m, p)
    requires forall c :: 0 <= c < |conns| ==> |conns[c].orderedSeq| == cfg.maxChannels
    ensures Core(cfg, Moved(tx, v, m, p, boxes, conns))
  {
    MoveOk(cfg.slots, tx.msgs, tx.place, tx.boxes, v, m, p, boxes);
    CountersMoveOk(tx.conns, conns, tx.msgs, tx.place, v, m, p);
  }

  /** A counter has at least the slot's share in it, and room for the slot's new share. */
  lemma CounterRoom(cfg: TxConfig, tx: Tx, t: Tally, v: nat, m: Msg, p: Place)
    requires Core(cfg, tx) && v < |tx.msgs| && Kept(tx.conns, t) && |m.payload| <= cfg.framePayload
    ensures Weight(t, tx.msgs[v], tx.place[v]) <= Counter(tx.conns, t)
    ensures Counter(tx.conns, t) - Weight(t, tx.msgs[v], tx.place[v]) + Weight(t, m, p) <= UINT32_MAX
  {
    TotalUpdate(t, tx.msgs, tx.place, v, m, p);
    TotalBound(t, tx.msgs[v := m], tx.place[v := p], cfg.framePayload);
  }

  /** Replacing the accounts of one connection moves all counters right if it moves its own right. */
  ghost predicate AccountsMove(cn: ConnTx, cn': ConnTx, c: nat, m: Msg, p: Place, m': Msg, p': Place) {
    && |cn'.flows| == |cn.flows| && |cn'.orderedSeq| == |cn.orderedSeq|
    && cn'.sendQueueBytes == cn.sendQueueBytes - Weight(UnsentBytes(c), m, p) + Weight(UnsentBytes(c), m', p')
    && (forall f :: 0 <= f < |cn.flows| ==>
          cn'.flows[f].queuedBytes ==
          cn.flows[f].queuedBytes - Weight(FlowUnsentBytes(c, f), m, p) + Weight(FlowUnsentBytes(c, f), m', p'))
    && cn'.retransmitBytes == cn.retransmitBytes - Weight(RetryBytes(c), m, p) + Weight(RetryBytes(c), m', p')
    && cn'.inflightBytes == cn.inflightBytes - Weight(FlightBytes(c), m, p) + Weight(FlightBytes(c), m', p')
    && cn'.lateAckCount == cn.lateAckCount - Weight(LateMsgs(c), m, p) + Weight(LateMsgs(c), m', p')
  }

  lemma AccountsMoveOk(cfg: TxConfig, tx: Tx, c: nat, v: nat, m: Msg, p: Place, cn: ConnTx)
    requires Core(cfg, tx) && v < |tx.msgs| && c < |tx.conns|
    requires tx.place[v].Free? || tx.msgs[v].owner == c
    requires p.Free? || m.owner == c
    requires !m.used || p != Free
    requires AccountsMove(tx.conns[c], cn, c, tx.msgs[v], tx.place[v], m, p)
    ensures CountersMove(tx.conns, tx.conns[c := cn], tx.msgs[v], tx.place[v], m, p)
  {
    forall t: Tally | Kept(tx.conns, t)
      ensures Counter(tx.conns[c := cn], t) ==
              Counter(tx.conns, t) - Weight(t, tx.msgs[v], tx.place[v]) + Weight(t, m, p)
    {
    }
  }

  // ----- moves -----------------------------------------------------------------------------------

  /** The boxes with slot v taken out of the one it is in. */
  function OutBoxes(cfg: TxConfig, tx: Tx, v: nat): Boxes
    requires 0 < cfg.slots && v < |tx.msgs| == |tx.place|
  {
    var h := Home(cfg.slots, tx.msgs[v], tx.place[v]);
    if h.Some? then TakeOut(tx.boxes, h.value, v) else tx.boxes
  }

  lemma OutBoxesOk(cfg: TxConfig, tx: Tx, v: nat)
    requires Core(cfg, tx) && v < |tx.msgs|
    ensures BoxMove(tx.boxes, OutBoxes(cfg, tx, v), v, Home(cfg.slots, tx.msgs[v], tx.place[v]), None)
    ensures forall k: Key :: v !in At(OutBoxes(cfg, tx, v), k)
  {
    if Home(cfg.slots, tx.msgs[v], tx.place[v]).Some? {
      TakeOutOk(cfg.slots, tx.msgs, tx.place, tx.boxes, v);
    }
  }

  /** The boxes after slot v went from where it was to list position `list` of box k. */
  lemma IntoBoxOk(cfg: TxConfig, tx: Tx, v: nat, k: Key, list: seq<nat>)
    requires Core(cfg, tx) && v < |tx.msgs|
    requires NoDup(list) && forall w :: w in list <==> w == v || w in At(OutBoxes(cfg, tx, v), k)
    ensures BoxMove(tx.boxes, OutBoxes(cfg, tx, v)[k := list], v,
                    Home(cfg.slots, tx.msgs[v], tx.place[v]), Some(k))
  {
    OutBoxesOk(cfg, tx, v);
    var b := OutBoxes(cfg, tx, v);
    PutInOk(b, v, k, list);
    MoveCompose(tx.boxes, b, b[k := list], v, Home(cfg.slots, tx.msgs[v], tx.place[v]), Some(k));
  }

  // -- free_msg, together with the accounting its caller does for the place the slot was in --------

  function FreedAccounts(cn: ConnTx, m: Msg, p: Place): ConnTx
    requires m.flow < |cn.flows|
  {
    var len := |m.payload|;
    var cn1 :=
      if Unsent(p) then UnsentRemoved(cn, m.flow, len)
      else if p == Queued(Retry) then RetryRemoved(cn, len)
      else if p.Flight? then FlightRemoved(cn, len)
      else cn;
    if m.lostAcks != [] then LateRemoved(cn1) else cn1
  }

  function Freed(cfg: TxConfig, tx: Tx, v: nat): Tx
    requires 0 < cfg.slots && v < |tx.msgs| == |tx.place| && tx.msgs[v].owner < |tx.conns|
    requires tx.msgs[v].flow < |tx.conns[tx.msgs[v].owner].flows|
  {
    var c := tx.msgs[v].owner;
    var b := OutBoxes(cfg, tx, v);
    Moved(tx, v, NoMsg, Free, b[FreeList := At(b, FreeList) + [v]],
          tx.conns[c := FreedAccounts(tx.conns[c], tx.msgs[v], tx.place[v])])
  }

  lemma FreedCore(cfg: TxConfig, tx: Tx, v: nat)
    requires Core(cfg, tx) && v < |tx.msgs| && tx.place[v] != Free
    ensures tx.msgs[v].owner < |tx.conns| && tx.msgs[v].flow < |tx.conns[tx.msgs[v].owner].flows|
    ensures Core(cfg, Freed(cfg, tx, v))
  {
    var m, p := tx.msgs[v], tx.place[v];
    assert MsgOk(cfg.maxConns, cfg.maxFlows, m, p);
    var c := m.owner;
    OutBoxesOk(cfg, tx, v);
    var b := OutBoxes(cfg, tx, v);
    FrontNoDup(At(b, FreeList), v);
    IntoBoxOk(cfg, tx, v, FreeList, At(b, FreeList) + [v]);
    FreedAccountsMove(cfg, tx, v);
    AccountsMoveOk(cfg, tx, c, v, NoMsg, Free, FreedAccounts(tx.conns[c], m, p));
    MovedCore(cfg, tx, v, NoMsg, Free, b[FreeList := At(b, FreeList) + [v]],
              tx.conns[c := FreedAccounts(tx.conns[c], m, p)]);
  }

  lemma FreedAccountsMove(cfg: TxConfig, tx: Tx, v: nat)
    requires Core(cfg, tx) && v < |tx.msgs| && tx.place[v] != Free
    ensures var m, p := tx.msgs[v], tx.place[v];
      m.owner < |tx.conns| && m.flow < |tx.conns[m.owner].flows|
      && AccountsMove(tx.conns[m.owner], FreedAccounts(tx.conns[m.owner], m, p), m.owner, m, p, NoMsg, Free)
  {
    var m, p := tx.msgs[v], tx.place[v];
    assert MsgOk(cfg.maxConns, cfg.maxFlows, m, p);
    var c := m.owner;
    CounterRoom(cfg, tx, UnsentBytes(c), v, NoMsg, Free);
    CounterRoom(cfg, tx, FlowUnsentBytes(c, m.flow), v, NoMsg, Free);
    CounterRoom(cfg, tx, RetryBytes(c), v, NoMsg, Free);
    CounterRoom(cfg, tx, FlightBytes(c), v, NoMsg, Free);
    CounterRoom(cfg, tx, LateMsgs(c), v, NoMsg, Free);
  }

  // -- alloc_msg and the filling in of the fields by rudp_send -------------------------------------

  /** The message being built: fields for the ring it will go to, nothing else yet. */
  ghost predicate FreshMsg(cfg: TxConfig, m: Msg) {
    && m.used && !m.inRetry && m.owner < cfg.maxConns && m.flow < cfg.maxFlows
    && m.queuedKind == Some(if IsReliable(m.rel) then Rel else Unrel)
    && m.lostAcks == [] && m.inflightRefs == 0 && m.carrier == 0 && m.carriedBy == {}
    && |m.payload| <= cfg.framePayload
  }

  /** The top of the free stack becomes message m. */
  function Allocated(tx: Tx, m: Msg): Tx
    requires |tx.msgs| == |tx.place| && m.queuedKind.Some?
    requires At(tx.boxes, FreeList) != [] && At(tx.boxes, FreeList)[|At(tx.boxes, FreeList)| - 1] < |tx.msgs|
  {
    var free := At(tx.boxes, FreeList);
    var v := free[|free| - 1];
    Moved(tx, v, m, Fresh(m.queuedKind.value), tx.boxes[FreeList := free[..|free| - 1]], tx.conns)
  }

  lemma {:induction false} RemovedLast(s: seq<nat>)
    requires NoDup(s) && s != []
    ensures Removed(s, s[|s| - 1]) == s[..|s| - 1]
  {
    if |s| > 1 {
      assert s[0] != s[|s| - 1];
      RemovedLast(s[1..]);
      assert s[..|s| - 1] == [s[0]] + s[1..][..|s| - 2];
    }
  }

  lemma InBoxMeans(cfg: TxConfig, tx: Tx, k: Key, v: nat)
    requires Core(cfg, tx) && v in At(tx.boxes, k)
    ensures v < |tx.msgs| && Home(cfg.slots, tx.msgs[v], tx.place[v]) == Some(k)
    ensures MsgOk(cfg.maxConns, cfg.maxFlows, tx.msgs[v], tx.place[v]) && |tx.msgs[v].payload| <= cfg.framePayload
  {
  }

  lemma TopOfFree(cfg: TxConfig, tx: Tx) returns (v: nat)
    requires Core(cfg, tx) && At(tx.boxes, FreeList) != []
    ensures v == At(tx.boxes, FreeList)[|At(tx.boxes, FreeList)| - 1] && v < |tx.msgs|
    ensures tx.place[v] == Free && tx.msgs[v] == NoMsg
    ensures BoxMove(tx.boxes, tx.boxes[FreeList := At(tx.boxes, FreeList)[..|At(tx.boxes, FreeList)| - 1]],
                    v, Some(FreeList), None)
  {
    var free := At(tx.boxes, FreeList);
    v := free[|free| - 1];
    InBoxMeans(cfg, tx, FreeList, v);
    RemovedLast(free);
    TakeOutOk(cfg.slots, tx.msgs, tx.place, tx.boxes, v);
  }

  lemma AllocatedCore(cfg: TxConfig, tx: Tx, m: Msg)
    requires Core(cfg, tx) && FreshMsg(cfg, m) && At(tx.boxes, FreeList) != []
    ensures At(tx.boxes, FreeList)[|At(tx.boxes, FreeList)| - 1] < |tx.msgs|
    ensures Core(cfg, Allocated(tx, m))
  {
    var v := TopOfFree(cfg, tx);
    var p := Fresh(m.queuedKind.value);
    assert CountersMove(tx.conns, tx.conns, tx.msgs[v], tx.place[v], m, p);
    MovedCore(cfg, tx, v, m, p, tx.boxes[FreeList := At(tx.boxes, FreeList)[..|At(tx.boxes, FreeList)| - 1]], tx.conns);
  }

  // -- ring_push_priority -------------------------------------------------------------------------

  predicate OwnerKnown(tx: Tx, v: nat) {
    && v < |tx.msgs| == |tx.place|
    && tx.msgs[v].owner < |tx.conns| && tx.msgs[v].flow < |tx.conns[tx.msgs[v].owner].flows|
  }

  predicate RingValid(tx: Tx, boxes: Boxes, k: Key) {
    forall i :: 0 <= i < |At(boxes, k)| ==> At(boxes, k)[i] < |tx.msgs|
  }

  lemma OutBoxesValid(cfg: TxConfig, tx: Tx, v: nat, k: Key)
    requires Core(cfg, tx) && v < |tx.msgs|
    ensures RingValid(tx, OutBoxes(cfg, tx, v), k)
  {
    OutBoxesOk(cfg, tx, v);
    forall i | 0 <= i < |At(OutBoxes(cfg, tx, v), k)|
      ensures At(OutBoxes(cfg, tx, v), k)[i] < |tx.msgs|
    {
      InBoxMeans(cfg, tx, k, At(OutBoxes(cfg, tx, v), k)[i]);
    }
  }

  /** A message built by rudp_send enters its ring by priority; its bytes are counted as unsent. */
  function QueuedUp(cfg: TxConfig, tx: Tx, v: nat): Tx
    requires 0 < cfg.slots && OwnerKnown(tx, v) && tx.place[v].Fresh?
    requires RingValid(tx, tx.boxes, Ring(tx.msgs[v].owner, tx.msgs[v].flow, tx.place[v].kind))
  {
    var m, kind := tx.msgs[v], tx.place[v].kind;
    var k := Ring(m.owner, m.flow, kind);
    Moved(tx, v, m, Queued(kind), tx.boxes[k := InsertByPriority(tx.msgs, At(tx.boxes, k), v)],
          tx.conns[m.owner := UnsentAdded(tx.conns[m.owner], m.flow, |m.payload|)])
  }

  lemma QueuedUpCore(cfg: TxConfig, tx: Tx, v: nat)
    requires Core(cfg, tx) && v < |tx.msgs| && tx.place[v].Fresh?
    requires tx.place[v].kind == (if IsReliable(tx.msgs[v].rel) then Rel else Unrel)
    ensures OwnerKnown(tx, v)
    ensures RingValid(tx, tx.boxes, Ring(tx.msgs[v].owner, tx.msgs[v].flow, tx.place[v].kind))
    ensures Core(cfg, QueuedUp(cfg, tx, v))
  {
    var m, kind := tx.msgs[v], tx.place[v].kind;
    assert MsgOk(cfg.maxConns, cfg.maxFlows, m, tx.place[v]);
    var c, p := m.owner, Queued(kind);
    var k := Ring(c, m.flow, kind);
    OutBoxesValid(cfg, tx, v, k);
    OutBoxesOk(cfg, tx, v);
    var list := InsertByPriority(tx.msgs, At(tx.boxes, k), v);
    InsertNoDup(tx.msgs, At(tx.boxes, k), v);
    IntoBoxOk(cfg, tx, v, k, list);
    var cn := UnsentAdded(tx.conns[c], m.flow, |m.payload|);
    CounterRoom(cfg, tx, UnsentBytes(c), v, m, p);
    CounterRoom(cfg, tx, FlowUnsentBytes(c, m.flow), v, m, p);
    AccountsMoveOk(cfg, tx, c, v, m, p, cn);
    MovedCore(cfg, tx, v, m, p, tx.boxes[k := list], tx.conns[c := cn]);
  }

  // -- the pop of pick_from_queue -----------------------------------------------------------------

  function PickedMsg(m: Msg): Msg { m.(inRetry := false) }

  function PickedAccounts(cn: ConnTx, m: Msg, kind: Kind): ConnTx {
    if kind.Retry? then RetryRemoved(cn, |m.payload|) else cn
  }

  /** The head of a ring is taken out to be sent. */
  function Picked(tx: Tx, c: nat, f: nat, kind: Kind): Tx
    requires |tx.msgs| == |tx.place| && c < |tx.conns|
    requires At(tx.boxes, Ring(c, f, kind)) != [] && At(tx.boxes, Ring(c, f, kind))[0] < |tx.msgs|
  {
    var ring := At(tx.boxes, Ring(c, f, kind));
    var v := ring[0];
    Moved(tx, v, PickedMsg(tx.msgs[v]), Transit(kind), tx.boxes[Ring(c, f, kind) := ring[1..]],
          tx.conns[c := PickedAccounts(tx.conns[c], tx.msgs[v], kind)])
  }

  lemma PickedCore(cfg: TxConfig, tx: Tx, c: nat, f: nat, kind: Kind)
    requires Core(cfg, tx) && At(tx.boxes, Ring(c, f, kind)) != []
    ensures At(tx.boxes, Ring(c, f, kind))[0] < |tx.msgs| && c < |tx.conns|
    ensures Core(cfg, Picked(tx, c, f, kind))
  {
    var k := Ring(c, f, kind);
    var ring := At(tx.boxes, k);
    var v := ring[0];
    InBoxMeans(cfg, tx, k, v);
    assert Removed(ring, v) == ring[1..];
    TakeOutOk(cfg.slots, tx.msgs, tx.place, tx.boxes, v);
    var m, p := PickedMsg(tx.msgs[v]), Transit(kind);
    var cn := PickedAccounts(tx.conns[c], tx.msgs[v], kind);
    CounterRoom(cfg, tx, RetryBytes(c), v, m, p);
    AccountsMoveOk(cfg, tx, c, v, m, p, cn);
    MovedCore(cfg, tx, v, m, p, tx.boxes[k := ring[1..]], tx.conns[c := cn]);
  }

  // -- append_msg_to_batch_packet -----------------------------------------------------------------

  /** A picked message becomes the last one of batch packet b. */
  function PackedInto(tx: Tx, v: nat, b: nat): Tx
    requires v < |tx.msgs| == |tx.place| && tx.place[v].Transit?
  {
    Moved(tx, v, tx.msgs[v], Packed(b, tx.place[v].kind),
          tx.boxes[InBatch(b) := At(tx.boxes, InBatch(b)) + [v]], tx.conns)
  }

  lemma PackedCore(cfg: TxConfig, tx: Tx, v: nat, b: nat)
    requires Core(cfg, tx) && v < |tx.msgs| && tx.place[v].Transit?
    ensures Core(cfg, PackedInto(tx, v, b))
  {
    var m, p := tx.msgs[v], Packed(b, tx.place[v].kind);
    assert MsgOk(cfg.maxConns, cfg.maxFlows, m, tx.place[v]);
    OutBoxesOk(cfg, tx, v);
    FrontNoDup(At(tx.boxes, InBatch(b)), v);
    IntoBoxOk(cfg, tx, v, InBatch(b), At(tx.boxes, InBatch(b)) + [v]);
    assert CountersMove(tx.conns, tx.conns, m, tx.place[v], m, p);
    MovedCore(cfg, tx, v, m, p, tx.boxes[InBatch(b) := At(tx.boxes, InBatch(b)) + [v]], tx.conns);
  }

  // -- requeue_unsent_msg -------------------------------------------------------------------------

  function RequeuedMsg(m: Msg, kind: Kind): Msg { m.(queuedKind := Some(kind), inRetry := kind.Retry?) }

  function RequeuedAccounts(cn: ConnTx, m: Msg, kind: Kind): ConnTx {
    if kind.Retry? then RetryAdded(cn, |m.payload|) else cn
  }

  predicate Outgoing(p: Place) { p.Transit? || p.Packed? }

  /** A picked or packed message goes back to the front of the ring it came from. */
  function Requeued(cfg: TxConfig, tx: Tx, v: nat): Tx
    requires 0 < cfg.slots && OwnerKnown(tx, v) && Outgoing(tx.place[v])
  {
    var m, kind := tx.msgs[v], tx.place[v].kind;
    var k := Ring(m.owner, m.flow, kind);
    var b := OutBoxes(cfg, tx, v);
    Moved(tx, v, RequeuedMsg(m, kind), Queued(kind), b[k := [v] + At(b, k)],
          tx.conns[m.owner := RequeuedAccounts(tx.conns[m.owner], m, kind)])
  }

  lemma RequeuedCore(cfg: TxConfig, tx: Tx, v: nat)
    requires Core(cfg, tx) && v < |tx.msgs| && Outgoing(tx.place[v])
    ensures OwnerKnown(tx, v) && Core(cfg, Requeued(cfg, tx, v))
  {
    var m, kind := tx.msgs[v], tx.place[v].kind;
    assert MsgOk(cfg.maxConns, cfg.maxFlows, m, tx.place[v]);
    var c, m', p := m.owner, RequeuedMsg(m, kind), Queued(kind);
    var k := Ring(c, m.flow, kind);
    OutBoxesOk(cfg, tx, v);
    var b := OutBoxes(cfg, tx, v);
    FrontNoDup(At(b, k), v);
    IntoBoxOk(cfg, tx, v, k, [v] + At(b, k));
    var cn := RequeuedAccounts(tx.conns[c], m, kind);
    CounterRoom(cfg, tx, RetryBytes(c), v, m', p);
    AccountsMoveOk(cfg, tx, c, v, m', p, cn);
    MovedCore(cfg, tx, v, m', p, b[k := [v] + At(b, k)], tx.conns[c := cn]);
  }

  // -- record_sent_packet, one reference ----------------------------------------------------------

  function RecordedMsg(m: Msg, number: uint32): Msg {
    m.(inflightRefs := 1, carrier := number, queuedKind := None, carriedBy := m.carriedBy + {number})
  }

  function RecordedAccounts(cn: ConnTx, m: Msg, kind: Kind): ConnTx
    requires m.flow < |cn.flows|
  {
    var cn1 := FlightAdded(cn, |m.payload|);
    if kind.Retry? then cn1 else UnsentRemoved(cn1, m.flow, |m.payload|)
  }

  /** A reliable message of a sent packet becomes a reference of the in-flight record. */
  function Recorded(cfg: TxConfig, tx: Tx, v: nat, number: uint32): Tx
    requires 0 < cfg.slots && OwnerKnown(tx, v) && tx.place[v].Packed?
  {
    var m, kind := tx.msgs[v], tx.place[v].kind;
    var k := InFlight(m.owner, number % cfg.slots);
    var b := OutBoxes(cfg, tx, v);
    Moved(tx, v, RecordedMsg(m, number), Flight, b[k := At(b, k) + [v]],
          tx.conns[m.owner := RecordedAccounts(tx.conns[m.owner], m, kind)])
  }

  lemma RecordedCore(cfg: TxConfig, tx: Tx, v: nat, number: uint32)
    requires Core(cfg, tx) && v < |tx.msgs| && tx.place[v].Packed? && IsReliable(tx.msgs[v].rel) && number != 0
    ensures OwnerKnown(tx, v) && Core(cfg, Recorded(cfg, tx, v, number))
  {
    var m, kind := tx.msgs[v], tx.place[v].kind;
    assert MsgOk(cfg.maxConns, cfg.maxFlows, m, tx.place[v]);
    var c, m' := m.owner, RecordedMsg(m, number);
    var k := InFlight(c, number % cfg.slots);
    OutBoxesOk(cfg, tx, v);
    var b := OutBoxes(cfg, tx, v);
    FrontNoDup(At(b, k), v);
    IntoBoxOk(cfg, tx, v, k, At(b, k) + [v]);
    var cn := RecordedAccounts(tx.conns[c], m, kind);
    RecordedAccountsMove(cfg, tx, v, number);
    AccountsMoveOk(cfg, tx, c, v, m', Flight, cn);
    MovedCore(cfg, tx, v, m', Flight, b[k := At(b, k) + [v]], tx.conns[c := cn]);
  }

  lemma RecordedAccountsMove(cfg: TxConfig, tx: Tx, v: nat, number: uint32)
    requires Core(cfg, tx) && v < |tx.msgs| && tx.place[v].Packed? && IsReliable(tx.msgs[v].rel)
    ensures OwnerKnown(tx, v)
    ensures var m, p := tx.msgs[v], tx.place[v];
      AccountsMove(tx.conns[m.owner], RecordedAccounts(tx.conns[m.owner], m, p.kind), m.owner, m, p,
                   RecordedMsg(m, number), Flight)
  {
    var m, p, m' := tx.msgs[v], tx.place[v], RecordedMsg(tx.msgs[v], number);
    assert MsgOk(cfg.maxConns, cfg.maxFlows, m, p);
    CounterRoom(cfg, tx, UnsentBytes(m.owner), v, m', Flight);
    CounterRoom(cfg, tx, FlowUnsentBytes(m.owner, m.flow), v, m', Flight);
    CounterRoom(cfg, tx, FlightBytes(m.owner), v, m', Flight);
  }

  // -- mark_packet_lost, one reference ------------------------------------------------------------

  /** `note_msg_lost_seq`: remembers the last four numbers. */
  function NoteLost(lost: seq<uint32>, number: uint32): (r: seq<uint32>)
    requires |lost| <= MAX_LOST_ACK_SEQS
    ensures |r| <= MAX_LOST_ACK_SEQS && r != []
    ensures number in r && forall x :: x in r ==> x == number || x in lost
  {
    if number in lost then lost
    else if |lost| < MAX_LOST_ACK_SEQS then lost + [number]
    else lost[1..] + [number]
  }

  function LostMsg(m: Msg): Msg
    requires |m.lostAcks| <= MAX_LOST_ACK_SEQS
  {
    m.(lostAcks := NoteLost(m.lostAcks, m.carrier), inflightRefs := 0, carrier := 0,
       inRetry := true, queuedKind := Some(Retry))
  }

  function LostAccounts(cn: ConnTx, m: Msg): ConnTx {
    var cn1 := if m.lostAcks == [] then LateAdded(cn) else cn;
    RetryAdded(FlightRemoved(cn1, |m.payload|), |m.payload|)
  }

  /** A message of a lost packet goes to the retry ring by priority; without room it is dropped. */
  function LostRef(cfg: TxConfig, tx: Tx, v: nat): Tx
    requires 0 < cfg.slots && OwnerKnown(tx, v) && |tx.msgs[v].lostAcks| <= MAX_LOST_ACK_SEQS
    requires RingValid(tx, OutBoxes(cfg, tx, v), Ring(tx.msgs[v].owner, tx.msgs[v].flow, Retry))
  {
    var m := tx.msgs[v];
    var k := Ring(m.owner, m.flow, Retry);
    var b := OutBoxes(cfg, tx, v);
    if |At(b, k)| + 1 >= cfg.ringCap then Freed(cfg, tx, v)
    else
      Moved(tx, v, LostMsg(m), Queued(Retry), b[k := InsertByPriority(tx.msgs, At(b, k), v)],
            tx.conns[m.owner := LostAccounts(tx.conns[m.owner], m)])
  }

  lemma LostRefCore(cfg: TxConfig, tx: Tx, v: nat)
    requires Core(cfg, tx) && v < |tx.msgs| && tx.place[v].Flight?
    ensures OwnerKnown(tx, v) && |tx.msgs[v].lostAcks| <= MAX_LOST_ACK_SEQS
    ensures RingValid(tx, OutBoxes(cfg, tx, v), Ring(tx.msgs[v].owner, tx.msgs[v].flow, Retry))
    ensures Core(cfg, LostRef(cfg, tx, v))
  {
    var m := tx.msgs[v];
    assert MsgOk(cfg.maxConns, cfg.maxFlows, m, tx.place[v]);
    var c := m.owner;
    var k := Ring(c, m.flow, Retry);
    OutBoxesValid(cfg, tx, v, k);
    var b := OutBoxes(cfg, tx, v);
    if |At(b, k)| + 1 >= cfg.ringCap {
      FreedCore(cfg, tx, v);
    } else {
      var list := InsertByPriority(tx.msgs, At(b, k), v);
      OutBoxesOk(cfg, tx, v);
      InsertNoDup(tx.msgs, At(b, k), v);
      LostQueuedCore(cfg, tx, v, k, list);
    }
  }

  lemma LostQueuedCore(cfg: TxConfig, tx: Tx, v: nat, k: Key, list: seq<nat>)
    requires Core(cfg, tx) && v < |tx.msgs| && tx.place[v].Flight? && OwnerKnown(tx, v)
    requires |tx.msgs[v].lostAcks| <= MAX_LOST_ACK_SEQS && k == Ring(tx.msgs[v].owner, tx.msgs[v].flow, Retry)
    requires NoDup(list) && forall w :: w in list <==> w == v || w in At(OutBoxes(cfg, tx, v), k)
    ensures var m := tx.msgs[v];
      Core(cfg, Moved(tx, v, LostMsg(m), Queued(Retry), OutBoxes(cfg, tx, v)[k := list],
                      tx.conns[m.owner := LostAccounts(tx.conns[m.owner], m)]))
  {
    var m := tx.msgs[v];
    var m', conns := LostMsg(m), tx.conns[m.owner := LostAccounts(tx.conns[m.owner], m)];
    var boxes := OutBoxes(cfg, tx, v)[k := list];
    assert MsgOk(cfg.maxConns, cfg.maxFlows, m', Queued(Retry)) && Home(cfg.slots, m', Queued(Retry)) == Some(k) by {
      assert MsgOk(cfg.maxConns, cfg.maxFlows, m, tx.place[v]);
    }
    assert CountersMove(tx.conns, conns, m, tx.place[v], m', Queued(Retry)) by {
      LostAccountsMove(cfg, tx, v);
      AccountsMoveOk(cfg, tx, m.owner, v, m', Queued(Retry), LostAccounts(tx.conns[m.owner], m));
    }
    IntoBoxOk(cfg, tx, v, k, list);
    MovedCore(cfg, tx, v, m', Queued(Retry), boxes, conns);
  }

  lemma LostAccountsMove(cfg: TxConfig, tx: Tx, v: nat)
    requires Core(cfg, tx) && v < |tx.msgs| && tx.place[v].Flight?
    ensures OwnerKnown(tx, v) && |tx.msgs[v].lostAcks| <= MAX_LOST_ACK_SEQS
    ensures var m := tx.msgs[v];
      AccountsMove(tx.conns[m.owner], LostAccounts(tx.conns[m.owner], m), m.owner, m, Flight, LostMsg(m), Queued(Retry))
  {
    var m := tx.msgs[v];
    assert MsgOk(cfg.maxConns, cfg.maxFlows, m, tx.place[v]);
    CounterRoom(cfg, tx, RetryBytes(m.owner), v, LostMsg(m), Queued(Retry));
    CounterRoom(cfg, tx, FlightBytes(m.owner), v, LostMsg(m), Queued(Retry));
    CounterRoom(cfg, tx, LateMsgs(m.owner), v, LostMsg(m), Queued(Retry));
  }
}
