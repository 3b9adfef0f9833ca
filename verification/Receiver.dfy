/** Receiving side of a coop_rudp endpoint: duplicate suppression, ordered delivery with a hold
    table shared by all connections, reassembly, and the receive queue shared by all connections.
    The functions give the state after each operation; `log` is history: every event that was ever
    put into the receive queue for a connection, with the id of the message it carries. */
module Receiver {
  import opened MachineWords
  import opened SerialNumbers
  import AckTracker
  import DedupWindow

  const MAX_FRAGS: nat := 256

  type Bytes = seq<uint8>

  datatype Reliability = Unreliable | UnreliableSequenced | ReliableUnordered | ReliableOrdered

  predicate IsReliable(rel: Reliability) {
    rel.ReliableUnordered? || rel.ReliableOrdered?
  }

  datatype Frame = Frame(rel: Reliability, flow: nat, msgId: uint32, fragIndex: nat, fragCount: nat,
                         channel: nat, channelSeq: uint16, payload: Bytes)

  datatype Event = Event(conn: nat, flow: nat, channel: nat, rel: Reliability, payload: Bytes)

  datatype LogEntry = LogEntry(ev: Event, msgId: uint32)

  datatype Hold = Hold(conn: nat, msgId: uint32, flow: nat, channel: nat, channelSeq: uint16,
                       rel: Reliability, payload: Bytes)

  datatype Reasm = Reasm(used: bool, conn: nat, msgId: uint32, deadline: uint64, flow: nat,
                         channel: nat, channelSeq: uint16, fragCount: nat, receivedCount: nat,
                         totalLen: nat, rel: Reliability, received: seq<bool>, data: Bytes)

  datatype Config = Config(maxConns: nat, maxFlows: nat, maxChannels: nat, maxRecvEvents: nat,
                           maxHolds: nat, maxReasm: nat, framePayload: nat, maxPayload: nat,
                           reasmTtl: nat)

  /** What `rudp_endpoint_create` accepts, after defaults. */
  predicate ValidConfig(cfg: Config) {
    && 0 < cfg.framePayload
    && 0 < cfg.maxPayload < TWO_16
    && cfg.maxPayload <= cfg.framePayload * MAX_FRAGS
    && 0 < cfg.maxRecvEvents
  }

  datatype ConnRx = ConnRx(expected: seq<uint16>, latest: map<(nat, nat), uint16>,
                           dedup: DedupWindow.Dedup, ack: AckTracker.Ack, log: seq<LogEntry>)

  datatype Rx = Rx(conns: seq<ConnRx>, queue: seq<Event>, holds: seq<Option<Hold>>, reasm: seq<Reasm>)

  /** Array sizes of an endpoint. */
  ghost predicate Shape(cfg: Config, rx: Rx) {
    && |rx.conns| == cfg.maxConns
    && |rx.holds| == cfg.maxHolds
    && |rx.reasm| == cfg.maxReasm
    && |rx.queue| <= cfg.maxRecvEvents
    && (forall c :: 0 <= c < |rx.conns| ==>
          |rx.conns[c].expected| == cfg.maxChannels && DedupWindow.Sized(rx.conns[c].dedup))
    && (forall i :: 0 <= i < |rx.reasm| ==>
          && |rx.reasm[i].data| == cfg.maxPayload
          && |rx.reasm[i].received| == MAX_FRAGS
          && rx.reasm[i].totalLen <= cfg.maxPayload)
    && (forall i :: 0 <= i < |rx.holds| && rx.holds[i].Some? ==>
          |rx.holds[i].value.payload| <= cfg.maxPayload)
  }

  /** Nothing here touches the acknowledgement state of a connection. */
  ghost predicate AcksKept(rx: Rx, rx': Rx) {
    && |rx'.conns| == |rx.conns|
    && forall d :: 0 <= d < |rx.conns| ==> rx'.conns[d].ack == rx.conns[d].ack
  }

  // ----- receive queue and hold table ------------------------------------------------------------

  /** `enqueue_recv`. */
  function Enqueued(cfg: Config, rx: Rx, ev: Event, id: uint32): (r: (Rx, bool))
    requires ev.conn < |rx.conns|
    ensures Shape(cfg, rx) ==> Shape(cfg, r.0)
    ensures AcksKept(rx, r.0)
    ensures r.0.reasm == rx.reasm
    ensures r.1 <==> |rx.queue| < cfg.maxRecvEvents && |ev.payload| <= cfg.maxPayload
  {
    if |rx.queue| >= cfg.maxRecvEvents || |ev.payload| > cfg.maxPayload then (rx, false)
    else
      var cn := rx.conns[ev.conn];
      (rx.(queue := rx.queue + [ev],
           conns := rx.conns[ev.conn := cn.(log := cn.log + [LogEntry(ev, id)])]), true)
  }

  predicate HoldMatches(h: Option<Hold>, c: nat, channel: nat, channelSeq: uint16) {
    h.Some? && h.value.conn == c && h.value.channel == channel && h.value.channelSeq == channelSeq
  }

  /** Index of the first hold of this connection, channel and channel sequence number; |holds| if none. */
  function FirstHold(holds: seq<Option<Hold>>, c: nat, channel: nat, channelSeq: uint16): (i: nat)
    ensures i <= |holds|
    ensures i < |holds| ==> HoldMatches(holds[i], c, channel, channelSeq)
    ensures forall k :: 0 <= k < i ==> !HoldMatches(holds[k], c, channel, channelSeq)
  {
    if holds == [] then 0
    else if HoldMatches(holds[0], c, channel, channelSeq) then 0
    else 1 + FirstHold(holds[1..], c, channel, channelSeq)
  }

  function FirstFree(holds: seq<Option<Hold>>): (i: nat)
    ensures i <= |holds|
    ensures i < |holds| ==> holds[i].None?
    ensures forall k :: 0 <= k < i ==> holds[k].Some?
  {
    if holds == [] then 0 else if holds[0].None? then 0 else 1 + FirstFree(holds[1..])
  }

  function HoldCount(holds: seq<Option<Hold>>): nat {
    if holds == [] then 0 else (if holds[0].Some? then 1 else 0) + HoldCount(holds[1..])
  }

  lemma {:induction false} HoldCountUpdate(holds: seq<Option<Hold>>, i: nat, h: Option<Hold>)
    requires i < |holds|
    ensures HoldCount(holds[i := h]) ==
            HoldCount(holds) - (if holds[i].Some? then 1 else 0) + (if h.Some? then 1 else 0)
  {
    if i == 0 {
      assert holds[0 := h][1..] == holds[1..];
    } else {
      assert holds[i := h][1..] == holds[1..][i - 1 := h];
      HoldCountUpdate(holds[1..], i - 1, h);
    }
  }

  /** `hold_ordered`. */
  function Held(cfg: Config, rx: Rx, c: nat, f: Frame): (r: (Rx, bool))
    ensures Shape(cfg, rx) ==> Shape(cfg, r.0)
    ensures AcksKept(rx, r.0)
    ensures r.0.reasm == rx.reasm
  {
    if |f.payload| > cfg.maxPayload then (rx, false)
    else
      var same := FirstHold(rx.holds, c, f.channel, f.channelSeq);
      if same < |rx.holds| then (rx, rx.holds[same].value.msgId == f.msgId)
      else
        var free := FirstFree(rx.holds);
        if free == |rx.holds| then (rx, false)
        else
          (rx.(holds := rx.holds[free := Some(Hold(c, f.msgId, f.flow, f.channel, f.channelSeq,
                                                   f.rel, f.payload))]), true)
  }

  /** `++ch->expected_ordered` */
  function Advanced(cfg: Config, rx: Rx, c: nat, channel: nat): (rx': Rx)
    requires Shape(cfg, rx) && c < |rx.conns| && channel < cfg.maxChannels
    ensures Shape(cfg, rx')
    ensures AcksKept(rx, rx')
    ensures rx'.reasm == rx.reasm
  {
    var e := rx.conns[c].expected;
    rx.(conns := rx.conns[c := rx.conns[c].(expected := e[channel := Inc16(e[channel])])])
  }

  /** One step of the loop of `drain_ordered`: the hold at index i leaves the table. */
  function Drained1(cfg: Config, rx: Rx, c: nat, channel: nat, i: nat): (rx': Rx)
    requires Shape(cfg, rx) && c < |rx.conns| && channel < cfg.maxChannels
    requires i < |rx.holds| && rx.holds[i].Some? && |rx.queue| < cfg.maxRecvEvents
    ensures Shape(cfg, rx')
    ensures AcksKept(rx, rx')
    ensures rx'.reasm == rx.reasm
  {
    var h := rx.holds[i].value;
    var rx1 := Enqueued(cfg, rx, Event(c, h.flow, h.channel, h.rel, h.payload), h.msgId).0;
    Advanced(cfg, rx1.(holds := rx.holds[i := None]), c, channel)
  }

  /** `drain_ordered`: as long as there is room, the hold with the expected number moves to the queue. */
  function Drained(cfg: Config, rx: Rx, c: nat, channel: nat): (rx': Rx)
    requires Shape(cfg, rx) && c < |rx.conns| && channel < cfg.maxChannels
    ensures Shape(cfg, rx')
    ensures AcksKept(rx, rx')
    ensures rx'.reasm == rx.reasm
    decreases HoldCount(rx.holds)
  {
    var i := FirstHold(rx.holds, c, channel, rx.conns[c].expected[channel]);
    if i == |rx.holds| || |rx.queue| >= cfg.maxRecvEvents then rx
    else
      HoldCountUpdate(rx.holds, i, None);
      Drained(cfg, Drained1(cfg, rx, c, channel, i), c, channel)
  }

  /** `drain_all_ordered`, from channel k on. */
  function DrainedFrom(cfg: Config, rx: Rx, c: nat, k: nat): (rx': Rx)
    requires Shape(cfg, rx) && c < |rx.conns| && k <= cfg.maxChannels
    ensures Shape(cfg, rx')
    ensures AcksKept(rx, rx')
    ensures rx'.reasm == rx.reasm
    decreases cfg.maxChannels - k
  {
    if k == cfg.maxChannels || |rx.queue| >= cfg.maxRecvEvents then rx
    else DrainedFrom(cfg, Drained(cfg, rx, c, k), c, k + 1)
  }

  /** `rudp_recv` on a non-empty queue: the head leaves, then its connection is drained. */
  function Received(cfg: Config, rx: Rx): (rx': Rx)
    requires Shape(cfg, rx) && rx.queue != [] && rx.queue[0].conn < |rx.conns|
    ensures Shape(cfg, rx')
    ensures AcksKept(rx, rx')
    ensures rx'.reasm == rx.reasm
  {
    DrainedFrom(cfg, rx.(queue := rx.queue[1..]), rx.queue[0].conn, 0)
  }

  // ----- delivery of one complete message --------------------------------------------------------

  function MarkedSeen(rx: Rx, c: nat, id: uint32): Rx
    requires c < |rx.conns| && DedupWindow.Sized(rx.conns[c].dedup)
  {
    rx.(conns := rx.conns[c := rx.conns[c].(dedup := DedupWindow.Marked(rx.conns[c].dedup, id))])
  }

  /** The RELIABLE_ORDERED branch of `deliver_frame`, for a message not seen before. */
  function DeliveredOrdered(cfg: Config, rx: Rx, c: nat, f: Frame): (r: (Rx, bool))
    requires Shape(cfg, rx) && c < |rx.conns| && f.channel < cfg.maxChannels
    ensures Shape(cfg, r.0)
    ensures AcksKept(rx, r.0)
    ensures r.0.reasm == rx.reasm
  {
    var expected := rx.conns[c].expected[f.channel];
    if f.channelSeq != expected then
      if !Seq16After(f.channelSeq, expected) then (rx, true)
      else
        var (rx1, ok) := Held(cfg, rx, c, f);
        if ok then (MarkedSeen(rx1, c, f.msgId), true) else (rx1, false)
    else
      var (rx1, ok) := Enqueued(cfg, rx, FrameEvent(c, f), f.msgId);
      if !ok then (rx1, false)
      else
        var rx2 := Advanced(cfg, MarkedSeen(rx1, c, f.msgId), c, f.channel);
        (Drained(cfg, rx2, c, f.channel), true)
  }

  /** The UNRELIABLE_SEQUENCED branch: only a number after the latest one is let through. */
  function DeliveredSequenced(cfg: Config, rx: Rx, c: nat, f: Frame): (r: (Rx, bool))
    requires Shape(cfg, rx) && c < |rx.conns|
    ensures Shape(cfg, r.0)
    ensures AcksKept(rx, r.0)
    ensures r.0.reasm == rx.reasm
  {
    var key := (f.flow, f.channel);
    var latest := rx.conns[c].latest;
    if key in latest && !Seq16After(f.channelSeq, latest[key]) then (rx, true)
    else
      var rx1 := rx.(conns := rx.conns[c := rx.conns[c].(latest := latest[key := f.channelSeq])]);
      (Enqueued(cfg, rx1, FrameEvent(c, f), f.msgId).0, true)
  }

  function DeliveredUnordered(cfg: Config, rx: Rx, c: nat, f: Frame): (r: (Rx, bool))
    requires Shape(cfg, rx) && c < |rx.conns|
    ensures Shape(cfg, r.0)
    ensures AcksKept(rx, r.0)
    ensures r.0.reasm == rx.reasm
  {
    var (rx1, ok) := Enqueued(cfg, rx, FrameEvent(c, f), f.msgId);
    if ok then (MarkedSeen(rx1, c, f.msgId), true) else (rx1, false)
  }

  function FrameEvent(c: nat, f: Frame): Event {
    Event(c, f.flow, f.channel, f.rel, f.payload)
  }

  /** `deliver_frame`: the state afterwards, and whether the message counts as handled. */
  function Delivered(cfg: Config, rx: Rx, c: nat, f: Frame): (r: (Rx, bool))
    requires Shape(cfg, rx) && c < |rx.conns|
    ensures Shape(cfg, r.0)
    ensures AcksKept(rx, r.0)
    ensures r.0.reasm == rx.reasm
  {
    if f.flow >= cfg.maxFlows || f.channel >= cfg.maxChannels then (rx, false)
    else if f.rel.Unreliable? then Enqueued(cfg, rx, FrameEvent(c, f), f.msgId)
    else if IsReliable(f.rel) && DedupWindow.Seen(rx.conns[c].dedup, f.msgId) then (rx, true)
    else if f.rel.UnreliableSequenced? then DeliveredSequenced(cfg, rx, c, f)
    else if f.rel.ReliableOrdered? then DeliveredOrdered(cfg, rx, c, f)
    else DeliveredUnordered(cfg, rx, c, f)
  }

  // ----- reassembly ------------------------------------------------------------------------------

  /** Index of the slot in use for this message; |reasm| if none. */
  function FindReasm(reasm: seq<Reasm>, c: nat, id: uint32): (i: nat)
    ensures i <= |reasm|
    ensures i < |reasm| ==> reasm[i].used && reasm[i].conn == c && reasm[i].msgId == id
    ensures forall k :: 0 <= k < i ==> !(reasm[k].used && reasm[k].conn == c && reasm[k].msgId == id)
  {
    if reasm == [] then 0
    else if reasm[0].used && reasm[0].conn == c && reasm[0].msgId == id then 0
    else 1 + FindReasm(reasm[1..], c, id)
  }

  function FreeReasm(reasm: seq<Reasm>): (i: nat)
    ensures i <= |reasm|
    ensures i < |reasm| ==> !reasm[i].used
  {
    if reasm == [] then 0 else if !reasm[0].used then 0 else 1 + FreeReasm(reasm[1..])
  }

  function AddSaturating(a: uint64, b: nat): uint64 {
    if UINT64_MAX - a < b then UINT64_MAX else a + b
  }

  /** `find_or_alloc_reasm`; the slot index is |reasm| when the table is full. A new slot keeps the
      old contents of its data region, as the source does. */
  function OpenReasm(cfg: Config, rx: Rx, c: nat, f: Frame, now: uint64): (r: (Rx, nat))
    requires Shape(cfg, rx)
    ensures AcksKept(rx, r.0)
    ensures Shape(cfg, r.0) && r.1 <= |r.0.reasm|
  {
    var i := FindReasm(rx.reasm, c, f.msgId);
    if i < |rx.reasm| then (rx, i)
    else
      var k := FreeReasm(rx.reasm);
      if k == |rx.reasm| then (rx, k)
      else
        var r := Reasm(true, c, f.msgId, AddSaturating(now, cfg.reasmTtl), f.flow, f.channel,
                       f.channelSeq, f.fragCount, 0, 0, f.rel, seq(MAX_FRAGS, _ => false),
                       rx.reasm[k].data);
        (rx.(reasm := rx.reasm[k := r]), k)
  }

  /** The slot after the bytes of one fragment are copied in. */
  function Stored(cfg: Config, r: Reasm, f: Frame): (r': Reasm)
    requires |r.data| == cfg.maxPayload && |r.received| == MAX_FRAGS && f.fragIndex < MAX_FRAGS
    requires f.fragIndex * cfg.framePayload + |f.payload| <= cfg.maxPayload
    ensures r.totalLen <= cfg.maxPayload ==> r'.totalLen <= cfg.maxPayload
    ensures |r'.data| == cfg.maxPayload && |r'.received| == MAX_FRAGS
  {
    var offset := f.fragIndex * cfg.framePayload;
    var end := offset + |f.payload|;
    r.(data := r.data[..offset] + f.payload + r.data[end..],
       received := r.received[f.fragIndex := true],
       receivedCount := r.receivedCount + 1,
       totalLen := if end > r.totalLen then end else r.totalLen)
  }

  /** The tail of `process_data_frame`: hand the complete message over, free the slot if that worked. */
  function Completed(cfg: Config, rx: Rx, c: nat, k: nat): (r: (Rx, bool))
    requires Shape(cfg, rx) && c < |rx.conns| && k < |rx.reasm|
    ensures AcksKept(rx, r.0)
    ensures Shape(cfg, r.0)
  {
    var s := rx.reasm[k];
    var whole := Frame(s.rel, s.flow, s.msgId, 0, s.fragCount, s.channel, s.channelSeq,
                       s.data[..s.totalLen]);
    var (rx1, ok) := Delivered(cfg, rx, c, whole);
    var done := ok || !IsReliable(s.rel);
    (if done then rx1.(reasm := rx1.reasm[k := s.(used := false)]) else rx1, done)
  }

  /** The part of `process_data_frame` that works on the slot k found for the message. */
  function FragmentAdded(cfg: Config, rx: Rx, c: nat, f: Frame, k: nat): (r: (Rx, bool))
    requires Shape(cfg, rx) && c < |rx.conns| && k < |rx.reasm|
    requires f.fragIndex < MAX_FRAGS && f.fragIndex * cfg.framePayload + |f.payload| <= cfg.maxPayload
    ensures AcksKept(rx, r.0)
    ensures Shape(cfg, r.0)
  {
    var s := rx.reasm[k];
    if s.fragCount != f.fragCount || s.flow != f.flow || s.channel != f.channel
       || s.channelSeq != f.channelSeq || s.rel != f.rel then (rx, false)
    else if s.received[f.fragIndex] then
      if s.receivedCount == s.fragCount then Completed(cfg, rx, c, k) else (rx, true)
    else
      var rx1 := rx.(reasm := rx.reasm[k := Stored(cfg, s, f)]);
      if rx1.reasm[k].receivedCount == s.fragCount then Completed(cfg, rx1, c, k) else (rx1, true)
  }

  /** `process_data_frame`. */
  function Processed(cfg: Config, rx: Rx, c: nat, f: Frame, now: uint64): (r: (Rx, bool))
    requires Shape(cfg, rx) && c < |rx.conns|
    ensures AcksKept(rx, r.0)
    ensures Shape(cfg, r.0)
  {
    if f.fragCount == 0 || f.fragIndex >= f.fragCount || f.fragCount > MAX_FRAGS then (rx, false)
    else if f.fragCount == 1 then
      if |f.payload| > cfg.framePayload || |f.payload| > cfg.maxPayload then (rx, false)
      else
        var (rx1, ok) := Delivered(cfg, rx, c, f);
        (rx1, ok || !IsReliable(f.rel))
    else if f.fragIndex * cfg.framePayload + |f.payload| > cfg.maxPayload then (rx, false)
    else if IsReliable(f.rel) && DedupWindow.Seen(rx.conns[c].dedup, f.msgId) then (rx, true)
    else
      var (rx1, k) := OpenReasm(cfg, rx, c, f, now);
      if k == |rx1.reasm| then (rx1, !IsReliable(f.rel)) else FragmentAdded(cfg, rx1, c, f, k)
  }

  /** `expire_reassembly`. */
  function Expired(rx: Rx, now: uint64): (rx': Rx)
    ensures |rx'.reasm| == |rx.reasm|
  {
    rx.(reasm := seq(|rx.reasm|, i requires 0 <= i < |rx.reasm| =>
      var r := rx.reasm[i];
      if r.used && r.deadline != 0 && now >= r.deadline then r.(used := false) else r))
  }
}
