/** The receiving side in the form of the source: tables in arrays that are updated in place, a counter of the holds
    that lets a scan of the hold table be skipped, and loops over the tables. Every method leaves the state that the
    functions of module Receiver describe, so what is proved of them holds of it. */
module ReceiverEndpoint {
  import opened MachineWords
  import opened SerialNumbers
  import opened Receiver
  import DedupWindow

  // ----- what the loops find ---------------------------------------------------------------------

  lemma {:induction false} FirstHoldIs(holds: seq<Option<Hold>>, c: nat, channel: nat, channelSeq: uint16, i: nat)
    requires i <= |holds| && forall k :: 0 <= k < i ==> !HoldMatches(holds[k], c, channel, channelSeq)
    requires i < |holds| ==> HoldMatches(holds[i], c, channel, channelSeq)
    ensures i == FirstHold(holds, c, channel, channelSeq)
  {
  }

  lemma {:induction false} FirstFreeIs(holds: seq<Option<Hold>>, i: nat)
    requires i <= |holds| && (forall k :: 0 <= k < i ==> holds[k].Some?) && (i < |holds| ==> holds[i].None?)
    ensures i == FirstFree(holds)
  {
  }

  /** Without a hold there is nothing to find. */
  lemma {:induction false} NoHolds(holds: seq<Option<Hold>>)
    requires HoldCount(holds) == 0
    ensures forall k :: 0 <= k < |holds| ==> holds[k] == None
  {
    if holds != [] {
      NoHolds(holds[1..]);
      assert forall k :: 0 < k < |holds| ==> holds[k] == holds[1..][k - 1];
    }
  }

  /** Skipping a scan of a table without holds changes nothing. */
  lemma {:induction false} DrainedNothing(cfg: Config, rx: Rx, c: nat, channel: nat)
    requires Shape(cfg, rx) && c < |rx.conns| && channel < cfg.maxChannels && HoldCount(rx.holds) == 0
    ensures Drained(cfg, rx, c, channel) == rx
  {
    NoHolds(rx.holds);
  }

  lemma {:induction false} DrainedFromNothing(cfg: Config, rx: Rx, c: nat, k: nat)
    requires Shape(cfg, rx) && c < |rx.conns| && k <= cfg.maxChannels && HoldCount(rx.holds) == 0
    ensures DrainedFrom(cfg, rx, c, k) == rx
    decreases cfg.maxChannels - k
  {
    if k < cfg.maxChannels && |rx.queue| < cfg.maxRecvEvents {
      DrainedNothing(cfg, rx, c, k);
      DrainedFromNothing(cfg, rx, c, k + 1);
    }
  }

  lemma {:induction false} DrainedFromEnds(cfg: Config, rx: Rx, c: nat, k: nat)
    requires Shape(cfg, rx) && c < |rx.conns| && k <= cfg.maxChannels
    requires k == cfg.maxChannels || |rx.queue| >= cfg.maxRecvEvents
    ensures DrainedFrom(cfg, rx, c, k) == rx
  {
  }

  predicate ReasmMatches(r: Reasm, c: nat, id: uint32) { r.used && r.conn == c && r.msgId == id }

  /** The index of the first free slot, as far as the table has been scanned. */
  lemma {:induction false} FreeReasmIs(reasm: seq<Reasm>, i: nat)
    requires i <= |reasm| && (forall k :: 0 <= k < i ==> reasm[k].used) && (i < |reasm| ==> !reasm[i].used)
    ensures i == FreeReasm(reasm)
  {
    if i > 0 {
      assert forall k :: 0 <= k < i - 1 ==> reasm[1..][k] == reasm[k + 1];
      FreeReasmIs(reasm[1..], i - 1);
    }
  }

  lemma {:induction false} FindReasmIs(reasm: seq<Reasm>, c: nat, id: uint32, i: nat)
    requires i <= |reasm| && forall k :: 0 <= k < i ==> !ReasmMatches(reasm[k], c, id)
    requires i < |reasm| ==> ReasmMatches(reasm[i], c, id)
    ensures i == FindReasm(reasm, c, id)
  {
  }

  // ----- the endpoint ----------------------------------------------------------------------------

  class Endpoint {
    const cfg: Config
    const conns: array<ConnRx>
    var queue: seq<Event>
    const holds: array<Option<Hold>>
    var holdCount: nat
    const reasm: array<Reasm>

    function View(): Rx
      reads this, conns, holds, reasm
    {
      Rx(conns[..], queue, holds[..], reasm[..])
    }

    /** The tables have their sizes, and the counter is the number of holds. */
    ghost predicate Valid()
      reads this, conns, holds, reasm
    {
      Shape(cfg, View()) && holdCount == HoldCount(holds[..])
    }

    /** `enqueue_recv` */
    method EnqueueRecv(ev: Event, id: uint32) returns (ok: bool)
      requires Valid() && ev.conn < conns.Length
      modifies this`queue, conns
      ensures Valid() && (View(), ok) == Enqueued(cfg, old(View()), ev, id)
    {
      if |queue| >= cfg.maxRecvEvents || |ev.payload| > cfg.maxPayload { return false; }
      queue := queue + [ev];
      conns[ev.conn] := conns[ev.conn].(log := conns[ev.conn].log + [LogEntry(ev, id)]);
      return true;
    }

    /** The loop over the hold table that looks for a number. */
    method FindHold(c: nat, channel: nat, channelSeq: uint16) returns (i: nat)
      requires Valid()
      ensures i == FirstHold(holds[..], c, channel, channelSeq)
    {
      i := 0;
      while i < holds.Length && !HoldMatches(holds[i], c, channel, channelSeq)
        invariant i <= holds.Length && forall k :: 0 <= k < i ==> !HoldMatches(holds[k], c, channel, channelSeq)
      {
        i := i + 1;
      }
      FirstHoldIs(holds[..], c, channel, channelSeq, i);
    }

    /** The loop that looks for a free place. */
    method FindFree() returns (i: nat)
      requires Valid()
      ensures i == FirstFree(holds[..])
    {
      i := 0;
      while i < holds.Length && holds[i].Some?
        invariant i <= holds.Length && forall k :: 0 <= k < i ==> holds[k].Some?
      {
        i := i + 1;
      }
      FirstFreeIs(holds[..], i);
    }

    /** `hold_ordered`: the first scan is skipped if nothing is held. */
    method HoldOrdered(c: nat, f: Frame) returns (ok: bool)
      requires Valid()
      modifies this`holdCount, holds
      ensures Valid() && (View(), ok) == Held(cfg, old(View()), c, f)
    {
      if |f.payload| > cfg.maxPayload { return false; }
      if holdCount > 0 {
        var same := FindHold(c, f.channel, f.channelSeq);
        if same < holds.Length { return holds[same].value.msgId == f.msgId; }
      } else {
        NoHolds(holds[..]);
      }
      ok := StoreHold(c, f);
    }

    method StoreHold(c: nat, f: Frame) returns (ok: bool)
      requires Valid() && |f.payload| <= cfg.maxPayload
      requires FirstHold(holds[..], c, f.channel, f.channelSeq) == holds.Length
      modifies this`holdCount, holds
      ensures Valid() && (View(), ok) == Held(cfg, old(View()), c, f)
    {
      var free := FindFree();
      if free == holds.Length { return false; }
      ghost var before := holds[..];
      var h := Hold(c, f.msgId, f.flow, f.channel, f.channelSeq, f.rel, f.payload);
      HoldCountUpdate(before, free, Some(h));
      holds[free] := Some(h);
      holdCount := holdCount + 1;
      assert holds[..] == before[free := Some(h)];
      return true;
    }

    /** A hold moves to the queue, and its channel goes on to the next number. */
    method DrainOne(c: nat, channel: nat, i: nat)
      requires Valid() && c < conns.Length && channel < cfg.maxChannels && i < holds.Length && holds[i].Some?
      requires |queue| < cfg.maxRecvEvents
      modifies this`queue, this`holdCount, conns, holds
      ensures Valid() && View() == Drained1(cfg, old(View()), c, channel, i)
      ensures HoldCount(holds[..]) < old(HoldCount(holds[..]))
    {
      var h := holds[i].value;
      ghost var before := holds[..];
      HoldCountUpdate(before, i, None);
      var ok := EnqueueRecv(Event(c, h.flow, h.channel, h.rel, h.payload), h.msgId);
      holds[i] := None;
      holdCount := holdCount - 1;
      assert holds[..] == before[i := None];
      AdvanceExpected(c, channel);
    }

    /** `++ch->expected_ordered` */
    method AdvanceExpected(c: nat, channel: nat)
      requires Valid() && c < conns.Length && channel < cfg.maxChannels
      modifies conns
      ensures Valid() && View() == Advanced(cfg, old(View()), c, channel)
    {
      var e := conns[c].expected;
      conns[c] := conns[c].(expected := e[channel := Inc16(e[channel])]);
    }

    /** `drain_ordered`: it returns at once if nothing is held, and stops when the queue is full. */
    method DrainOrdered(c: nat, channel: nat)
      requires Valid() && c < conns.Length && channel < cfg.maxChannels
      modifies this`queue, this`holdCount, conns, holds
      ensures Valid() && View() == Drained(cfg, old(View()), c, channel)
    {
      if holdCount == 0 {
        DrainedNothing(cfg, View(), c, channel);
        return;
      }
      ghost var before := View();
      var progressed := true;
      while progressed
        invariant Valid()
        invariant if progressed then Drained(cfg, View(), c, channel) == Drained(cfg, before, c, channel)
                  else View() == Drained(cfg, before, c, channel)
        decreases progressed, HoldCount(holds[..])
      {
        progressed := DrainStep(c, channel, before);
      }
    }

    method DrainStep(c: nat, channel: nat, ghost before: Rx) returns (progressed: bool)
      requires Valid() && c < conns.Length && channel < cfg.maxChannels && Shape(cfg, before) && c < |before.conns|
      requires Drained(cfg, View(), c, channel) == Drained(cfg, before, c, channel)
      modifies this`queue, this`holdCount, conns, holds
      ensures Valid()
      ensures progressed ==> Drained(cfg, View(), c, channel) == Drained(cfg, before, c, channel)
      ensures progressed ==> HoldCount(holds[..]) < old(HoldCount(holds[..]))
      ensures !progressed ==> View() == Drained(cfg, before, c, channel)
    {
      var i := FindHold(c, channel, conns[c].expected[channel]);
      if i == holds.Length || |queue| >= cfg.maxRecvEvents { return false; }
      DrainOne(c, channel, i);
      return true;
    }

    /** `drain_all_ordered`: no channel is looked at if nothing is held, and none after the queue is full. */
    method DrainAllOrdered(c: nat)
      requires Valid() && c < conns.Length
      modifies this`queue, this`holdCount, conns, holds
      ensures Valid() && View() == DrainedFrom(cfg, old(View()), c, 0)
    {
      if holdCount == 0 {
        DrainedFromNothing(cfg, View(), c, 0);
      } else {
        DrainChannels(c, DrainedFrom(cfg, View(), c, 0));
      }
    }

    method DrainChannels(c: nat, ghost all: Rx)
      requires Valid() && c < conns.Length && all == DrainedFrom(cfg, View(), c, 0)
      modifies this`queue, this`holdCount, conns, holds
      ensures Valid() && View() == all
    {
      var k := 0;
      while k < cfg.maxChannels && |queue| < cfg.maxRecvEvents
        invariant k <= cfg.maxChannels && Draining(c, k, all)
      {
        DrainChannel(c, k, all);
        k := k + 1;
      }
      DrainedFromEnds(cfg, View(), c, k);
    }

    /** Draining the channels from k on comes to `all`. */
    ghost predicate Draining(c: nat, k: nat, all: Rx)
      reads this, conns, holds, reasm
    {
      Valid() && c < conns.Length && k <= cfg.maxChannels && DrainedFrom(cfg, View(), c, k) == all
    }

    method DrainChannel(c: nat, k: nat, ghost all: Rx)
      requires Draining(c, k, all) && k < cfg.maxChannels && |queue| < cfg.maxRecvEvents
      modifies this`queue, this`holdCount, conns, holds
      ensures Draining(c, k + 1, all)
    {
      DrainOrdered(c, k);
    }

    /** `rudp_recv` with a buffer of this capacity: a message that does not fit stays, otherwise the head leaves the
        queue and its connection is drained. */
    method Recv(cap: nat) returns (out: Option<Event>, tooSmall: bool)
      requires Valid() && (queue != [] ==> queue[0].conn < conns.Length)
      modifies this`queue, this`holdCount, conns, holds
      ensures Valid()
      ensures out.Some? <==> old(queue) != [] && |old(queue)[0].payload| <= cap
      ensures tooSmall <==> old(queue) != [] && |old(queue)[0].payload| > cap
      ensures out.Some? ==> out.value == old(queue)[0] && View() == Received(cfg, old(View()))
      ensures out == None ==> View() == old(View())
    {
      if queue == [] { return None, false; }
      var e := queue[0];
      if |e.payload| > cap { return None, true; }
      queue := queue[1..];
      DrainAllOrdered(e.conn);
      return Some(e), false;
    }

    method MarkSeen(c: nat, id: uint32)
      requires Valid() && c < conns.Length
      modifies conns
      ensures Valid() && View() == MarkedSeen(old(View()), c, id)
    {
      conns[c] := conns[c].(dedup := DedupWindow.Marked(conns[c].dedup, id));
    }

    /** The RELIABLE_ORDERED branch of `deliver_frame`. */
    method DeliverOrdered(c: nat, f: Frame) returns (ok: bool)
      requires Valid() && c < conns.Length && f.channel < cfg.maxChannels
      modifies this`queue, this`holdCount, conns, holds
      ensures Valid() && (View(), ok) == DeliveredOrdered(cfg, old(View()), c, f)
    {
      var expected := conns[c].expected[f.channel];
      if f.channelSeq != expected {
        if !Seq16After(f.channelSeq, expected) { return true; }
        ok := HoldOrdered(c, f);
        if ok { MarkSeen(c, f.msgId); }
        return;
      }
      ok := EnqueueRecv(FrameEvent(c, f), f.msgId);
      if !ok { return; }
      MarkSeen(c, f.msgId);
      AdvanceExpected(c, f.channel);
      DrainOrdered(c, f.channel);
    }

    /** The UNRELIABLE_SEQUENCED branch. */
    method DeliverSequenced(c: nat, f: Frame) returns (ok: bool)
      requires Valid() && c < conns.Length
      modifies this`queue, conns
      ensures Valid() && (View(), ok) == DeliveredSequenced(cfg, old(View()), c, f)
    {
      var key := (f.flow, f.channel);
      if key in conns[c].latest && !Seq16After(f.channelSeq, conns[c].latest[key]) { return true; }
      conns[c] := conns[c].(latest := conns[c].latest[key := f.channelSeq]);
      var queued := EnqueueRecv(FrameEvent(c, f), f.msgId);
      return true;
    }

    /** `deliver_frame` */
    method DeliverFrame(c: nat, f: Frame) returns (ok: bool)
      requires Valid() && c < conns.Length
      modifies this`queue, this`holdCount, conns, holds
      ensures Valid() && (View(), ok) == Delivered(cfg, old(View()), c, f)
    {
      if f.flow >= cfg.maxFlows || f.channel >= cfg.maxChannels { return false; }
      if f.rel.Unreliable? {
        ok := EnqueueRecv(FrameEvent(c, f), f.msgId);
        return;
      }
      if IsReliable(f.rel) && DedupWindow.Seen(conns[c].dedup, f.msgId) { return true; }
      if f.rel.UnreliableSequenced? {
        ok := DeliverSequenced(c, f);
      } else if f.rel.ReliableOrdered? {
        ok := DeliverOrdered(c, f);
      } else {
        ok := EnqueueRecv(FrameEvent(c, f), f.msgId);
        if ok { MarkSeen(c, f.msgId); }
      }
    }

    /** The loop of `find_or_alloc_reasm`: the slot of the message, or else the first free one. */
    method ScanReasm(c: nat, id: uint32) returns (found: nat, free: nat)
      requires Valid()
      ensures found == FindReasm(reasm[..], c, id)
      ensures found == reasm.Length ==> free == FreeReasm(reasm[..])
    {
      found, free := 0, reasm.Length;
      while found < reasm.Length && !ReasmMatches(reasm[found], c, id)
        invariant found <= reasm.Length && forall k :: 0 <= k < found ==> !ReasmMatches(reasm[k], c, id)
        invariant free == reasm.Length ==> forall k :: 0 <= k < found ==> reasm[k].used
        invariant free < reasm.Length ==> !reasm[free].used && forall k :: 0 <= k < free ==> reasm[k].used
        invariant free <= reasm.Length
      {
        if !reasm[found].used && free == reasm.Length { free := found; }
        found := found + 1;
      }
      FindReasmIs(reasm[..], c, id, found);
      if found == reasm.Length { FreeReasmIs(reasm[..], free); }
    }

    /** `find_or_alloc_reasm` */
    method FindOrAllocReasm(c: nat, f: Frame, now: uint64) returns (k: nat)
      requires Valid()
      modifies reasm
      ensures Valid() && (View(), k) == OpenReasm(cfg, old(View()), c, f, now)
    {
      var found, free := ScanReasm(c, f.msgId);
      if found < reasm.Length { return found; }
      if free == reasm.Length { return free; }
      reasm[free] := Reasm(true, c, f.msgId, AddSaturating(now, cfg.reasmTtl), f.flow, f.channel, f.channelSeq,
                           f.fragCount, 0, 0, f.rel, seq(MAX_FRAGS, _ => false), reasm[free].data);
      return free;
    }

    /** The complete message of a slot is handed over; the slot is free again if that worked. */
    method HandOver(c: nat, k: nat) returns (done: bool)
      requires Valid() && c < conns.Length && k < reasm.Length
      modifies this`queue, this`holdCount, conns, holds, reasm
      ensures Valid() && (View(), done) == Completed(cfg, old(View()), c, k)
    {
      var s := reasm[k];
      var f := Frame(s.rel, s.flow, s.msgId, 0, s.fragCount, s.channel, s.channelSeq, s.data[..s.totalLen]);
      var ok := DeliverFrame(c, f);
      done := ok || !IsReliable(s.rel);
      if done { reasm[k] := s.(used := false); }
    }

    method AddFragment(c: nat, f: Frame, k: nat) returns (ok: bool)
      requires Valid() && c < conns.Length && k < reasm.Length
      requires f.fragIndex < MAX_FRAGS && f.fragIndex * cfg.framePayload + |f.payload| <= cfg.maxPayload
      modifies this`queue, this`holdCount, conns, holds, reasm
      ensures Valid() && (View(), ok) == FragmentAdded(cfg, old(View()), c, f, k)
    {
      var s := reasm[k];
      if s.fragCount != f.fragCount || s.flow != f.flow || s.channel != f.channel || s.channelSeq != f.channelSeq
         || s.rel != f.rel {
        return false;
      }
      if s.received[f.fragIndex] {
        if s.receivedCount != s.fragCount { return true; }
      } else {
        reasm[k] := Stored(cfg, s, f);
        if reasm[k].receivedCount != s.fragCount { return true; }
      }
      ok := HandOver(c, k);
    }

    /** `process_data_frame` */
    method ProcessDataFrame(c: nat, f: Frame, now: uint64) returns (ok: bool)
      requires Valid() && c < conns.Length
      modifies this`queue, this`holdCount, conns, holds, reasm
      ensures Valid() && (View(), ok) == Processed(cfg, old(View()), c, f, now)
    {
      if f.fragCount == 0 || f.fragIndex >= f.fragCount || f.fragCount > MAX_FRAGS { return false; }
      if f.fragCount == 1 {
        if |f.payload| > cfg.framePayload || |f.payload| > cfg.maxPayload { return false; }
        var delivered := DeliverFrame(c, f);
        return delivered || !IsReliable(f.rel);
      }
      if f.fragIndex * cfg.framePayload + |f.payload| > cfg.maxPayload { return false; }
      if IsReliable(f.rel) && DedupWindow.Seen(conns[c].dedup, f.msgId) { return true; }
      var k := FindOrAllocReasm(c, f, now);
      if k == reasm.Length { return !IsReliable(f.rel); }
      ok := AddFragment(c, f, k);
    }

    /** `expire_reassembly` */
    method ExpireReassembly(now: uint64)
      requires Valid()
      modifies reasm
      ensures Valid() && View() == Expired(old(View()), now)
    {
      ghost var before := View();
      for i := 0 to reasm.Length
        invariant forall k :: 0 <= k < i ==> reasm[k] == Expired(before, now).reasm[k]
        invariant forall k :: i <= k < reasm.Length ==> reasm[k] == before.reasm[k]
      {
        var r := reasm[i];
        if r.used && r.deadline != 0 && now >= r.deadline { reasm[i] := r.(used := false); }
      }
      assert reasm[..] == Expired(before, now).reasm;
    }
  }
}
