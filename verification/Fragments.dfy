/** Split, pack, read and reassemble: the frames of accepted messages pass the checks of the receiver, and the
    fragments of a reliable message, in any order and with any duplicates, deliver it once. */
module Fragments {
  import opened MachineWords
  import opened Receiver
  import opened SentMessages
  import opened Reassembly
  import opened Wire
  import DedupWindow

  // ----- the frames of accepted messages are acceptable ------------------------------------------

  /** Both ends share the configuration; identifiers are 16 bits wide. */
  predicate WireConfig(cfg: Config) {
    ValidConfig(cfg) && cfg.framePayload < TWO_16 && cfg.maxFlows <= TWO_16 && cfg.maxChannels <= TWO_16
  }

  lemma FragCountsAtMost(cfg: Config, len: nat)
    requires ValidConfig(cfg) && 0 < len <= cfg.maxPayload
    ensures FragCount(cfg, len) <= MaxFrags(cfg)
  {
    var n, m := FragCount(cfg, len), MaxFrags(cfg);
    CeilingDivision(len, cfg.framePayload, n);
    CeilingDivision(cfg.maxPayload, cfg.framePayload, m);
    if m < n { MulMonotone(m, n - 1, cfg.framePayload); }
  }

  /** Every fragment of an accepted message passes the receiver's checks. */
  lemma FragmentAccepted(cfg: Config, accepted: seq<Message>, j: nat, i: nat, allowReliable: bool)
    requires WireConfig(cfg) && j < |accepted| < UINT32_MAX && Admissible(cfg, accepted[j])
    requires i < FragCount(cfg, |accepted[j].payload|) && (IsReliable(accepted[j].rel) ==> allowReliable)
    ensures var f := FrameOf(cfg, accepted, j, i); Fits(f) && FrameAccepted(cfg, f, allowReliable)
  {
    var len := |accepted[j].payload|;
    FragCountBound(cfg, len);
    FragBounds(cfg, len, i);
    if len > 0 { FragCountsAtMost(cfg, len); }
  }

  /** The frames are fragments of accepted messages: message index and fragment index of each. */
  ghost predicate FramesOf(cfg: Config, accepted: seq<Message>, refs: seq<(nat, nat)>, frames: seq<Frame>)
    requires 0 < cfg.framePayload && |accepted| < UINT32_MAX
  {
    && |frames| == |refs|
    && forall k :: 0 <= k < |refs| ==>
         && refs[k].0 < |accepted| && refs[k].1 < FragCount(cfg, |accepted[refs[k].0].payload|)
         && frames[k] == FrameOf(cfg, accepted, refs[k].0, refs[k].1)
  }

  /** A packet of such frames, reliable ones only with a packet number, is read as it was built if it is not longer
      than the receiver allows. */
  lemma SplitPackRead(cfg: Config, mtu: uint16, accepted: seq<Message>, refs: seq<(nat, nat)>, p: Packet)
    requires WireConfig(cfg) && AllAdmissible(cfg, accepted) && FramesOf(cfg, accepted, refs, p.frames)
    requires !p.ackOnly && p.frames != [] && |EncodePacket(p)| <= mtu
    requires forall k :: 0 <= k < |p.frames| && IsReliable(p.frames[k].rel) ==> p.seq_ != 0
    ensures DecodePacket(cfg, mtu, EncodePacket(p)) == Some(p)
  {
    forall k | 0 <= k < |p.frames|
      ensures Fits(p.frames[k]) && FrameAccepted(cfg, p.frames[k], p.seq_ != 0)
    {
      assert Admissible(cfg, accepted[refs[k].0]) && p.frames[k].rel == accepted[refs[k].0].rel;
      FragmentAccepted(cfg, accepted, refs[k].0, refs[k].1, p.seq_ != 0);
    }
    PacketRoundTrip(cfg, mtu, EncodePacket(p), p);
  }

  // ----- delivery does not look at the reassembly slots ------------------------------------------

  lemma {:induction false} DrainedAnyReasm(cfg: Config, rx: Rx, c: nat, channel: nat, reasm: seq<Reasm>)
    requires Shape(cfg, rx) && Shape(cfg, rx.(reasm := reasm)) && c < |rx.conns| && channel < cfg.maxChannels
    ensures Drained(cfg, rx.(reasm := reasm), c, channel) == Drained(cfg, rx, c, channel).(reasm := reasm)
    decreases HoldCount(rx.holds)
  {
    var i := FirstHold(rx.holds, c, channel, rx.conns[c].expected[channel]);
    if i < |rx.holds| && |rx.queue| < cfg.maxRecvEvents {
      HoldCountUpdate(rx.holds, i, None);
      assert Drained1(cfg, rx.(reasm := reasm), c, channel, i) == Drained1(cfg, rx, c, channel, i).(reasm := reasm);
      DrainedAnyReasm(cfg, Drained1(cfg, rx, c, channel, i), c, channel, reasm);
    }
  }

  lemma OrderedAnyReasm(cfg: Config, rx: Rx, c: nat, f: Frame, reasm: seq<Reasm>)
    requires Shape(cfg, rx) && Shape(cfg, rx.(reasm := reasm)) && c < |rx.conns| && f.channel < cfg.maxChannels
    ensures var (rx1, ok) := DeliveredOrdered(cfg, rx, c, f);
      DeliveredOrdered(cfg, rx.(reasm := reasm), c, f) == (rx1.(reasm := reasm), ok)
  {
    var (rx1, ok) := Enqueued(cfg, rx, FrameEvent(c, f), f.msgId);
    if f.channelSeq == rx.conns[c].expected[f.channel] && ok {
      DrainedAnyReasm(cfg, Advanced(cfg, MarkedSeen(rx1, c, f.msgId), c, f.channel), c, f.channel, reasm);
    }
  }

  lemma OthersAnyReasm(cfg: Config, rx: Rx, c: nat, f: Frame, reasm: seq<Reasm>)
    requires Shape(cfg, rx) && Shape(cfg, rx.(reasm := reasm)) && c < |rx.conns|
    ensures var (rx1, ok) := DeliveredSequenced(cfg, rx, c, f);
      DeliveredSequenced(cfg, rx.(reasm := reasm), c, f) == (rx1.(reasm := reasm), ok)
    ensures var (rx1, ok) := DeliveredUnordered(cfg, rx, c, f);
      DeliveredUnordered(cfg, rx.(reasm := reasm), c, f) == (rx1.(reasm := reasm), ok)
  {
  }

  lemma DeliveredAnyReasm(cfg: Config, rx: Rx, c: nat, f: Frame, reasm: seq<Reasm>)
    requires Shape(cfg, rx) && Shape(cfg, rx.(reasm := reasm)) && c < |rx.conns| && IsReliable(f.rel)
    ensures var (rx1, ok) := Delivered(cfg, rx, c, f);
      Delivered(cfg, rx.(reasm := reasm), c, f) == (rx1.(reasm := reasm), ok)
  {
    if f.flow < cfg.maxFlows && f.channel < cfg.maxChannels && !DedupWindow.Seen(rx.conns[c].dedup, f.msgId) {
      if f.rel == ReliableOrdered {
        OrderedAnyReasm(cfg, rx, c, f, reasm);
      } else {
        OthersAnyReasm(cfg, rx, c, f, reasm);
      }
    }
  }

  // ----- fragments in any order ------------------------------------------------------------------

  /** The state after some fragments of a message have been processed, each at its time. */
  function Arrived(cfg: Config, accepted: seq<Message>, rx: Rx, c: nat, j: nat, arrivals: seq<(nat, uint64)>): (rx': Rx)
    requires Shape(cfg, rx) && c < |rx.conns| && 0 < cfg.framePayload && j < |accepted| < UINT32_MAX
    requires forall a :: a in arrivals ==> a.0 < FragCount(cfg, |accepted[j].payload|)
    ensures Shape(cfg, rx') && AcksKept(rx, rx')
  {
    if arrivals == [] then rx
    else
      var n := |arrivals| - 1;
      Processed(cfg, Arrived(cfg, accepted, rx, c, j, arrivals[..n]), c,
                FrameOf(cfg, accepted, j, arrivals[n].0), arrivals[n].1).0
  }

  /** A reliable message of several fragments of which nothing has arrived, with a free slot, and that would be
      handled and remembered if it arrived whole. */
  ghost predicate Awaited(cfg: Config, accepted: seq<Message>, rx: Rx, c: nat, j: nat) {
    && ValidConfig(cfg) && AllAdmissible(cfg, accepted) && Shape(cfg, rx) && c < |rx.conns| && j < |accepted|
    && IsReliable(accepted[j].rel) && 1 < FragCount(cfg, |accepted[j].payload|)
    && !DedupWindow.Seen(rx.conns[c].dedup, j + 1)
    && FindReasm(rx.reasm, c, j + 1) == |rx.reasm| && FreeReasm(rx.reasm) < |rx.reasm|
    && Delivered(cfg, rx, c, WholeOf(cfg, accepted, j)).1
    && DedupWindow.Seen(Delivered(cfg, rx, c, WholeOf(cfg, accepted, j)).0.conns[c].dedup, j + 1)
  }

  /** The fragments `got` have arrived, but not all: they are in slot k, and nothing else has changed. */
  ghost predicate Collecting(cfg: Config, accepted: seq<Message>, before: Rx, rx: Rx, c: nat, j: nat, k: nat,
                             got: set<nat>)
    requires Awaited(cfg, accepted, before, c, j) && Shape(cfg, rx)
  {
    && k < |before.reasm| && rx == before.(reasm := before.reasm[k := rx.reasm[k]])
    && var s := rx.reasm[k];
       && s.used && s.conn == c && s.msgId == j + 1 && SlotOk(cfg, accepted, s)
       && (forall i :: 0 <= i < s.fragCount ==> (s.received[i] <==> i in got))
       && !All(s.fragCount, got)
  }

  /** All have arrived: the message was delivered as if it had arrived whole, and the slot is free again. */
  ghost predicate Complete(cfg: Config, accepted: seq<Message>, before: Rx, rx: Rx, c: nat, j: nat, k: nat)
    requires Awaited(cfg, accepted, before, c, j)
  {
    && k < |rx.reasm| == |before.reasm| && rx.reasm == before.reasm[k := rx.reasm[k]] && !rx.reasm[k].used
    && rx.(reasm := before.reasm) == Delivered(cfg, before, c, WholeOf(cfg, accepted, j)).0
  }

  /** All fragments are there. */
  ghost predicate All(n: nat, got: set<nat>) { forall i: nat :: i < n ==> i in got }

  ghost function Indices(arrivals: seq<(nat, uint64)>): set<nat> { set a | a in arrivals :: a.0 }

  /** Setting all of the first n bits gives a count of n. */
  lemma {:induction false} OnesCountAll(s: seq<bool>, n: nat)
    requires n <= |s| && (forall i :: 0 <= i < n ==> s[i]) && (forall i :: n <= i < |s| ==> !s[i])
    ensures OnesCount(s) == n
  {
    if n == 0 { OnesCountFalse(s); } else { OnesCountAll(s[1..], n - 1); }
  }

  /** The slot for the first fragment. */
  lemma {:induction false} FirstFragment(cfg: Config, accepted: seq<Message>, rx: Rx, c: nat, j: nat, i: nat,
                                         now: uint64)
    requires Awaited(cfg, accepted, rx, c, j) && i < FragCount(cfg, |accepted[j].payload|)
    ensures Collecting(cfg, accepted, rx, Processed(cfg, rx, c, FrameOf(cfg, accepted, j, i), now).0, c, j,
                       FreeReasm(rx.reasm), {i})
  {
    var f, k := FrameOf(cfg, accepted, j, i), FreeReasm(rx.reasm);
    var len := |accepted[j].payload|;
    assert Admissible(cfg, accepted[j]);
    FragCountBound(cfg, len);
    FragBounds(cfg, len, i);
    var (rx1, k1) := OpenReasm(cfg, rx, c, f, now);
    var s := rx1.reasm[k];
    OnesCountFalse(s.received);
    assert k1 == k && SlotOk(cfg, accepted, s);
    StoredOk(cfg, accepted, s, i);
    var s' := Stored(cfg, s, f);
    assert s'.receivedCount == 1;
    assert Processed(cfg, rx, c, f, now).0 == rx.(reasm := rx.reasm[k := s']);
    NotAll(i, s.fragCount, {i});
  }

  lemma NotAll(i: nat, n: nat, got: set<nat>)
    requires i < n && 1 < n && got == {i}
    ensures !All(n, got)
  {
    var other: nat := if i == 0 then 1 else 0;
    assert other < n && other !in got;
  }

  /** The slot of the message is found again. */
  lemma {:induction false} SlotFound(cfg: Config, accepted: seq<Message>, before: Rx, rx: Rx, c: nat, j: nat, k: nat,
                                     got: set<nat>)
    requires Awaited(cfg, accepted, before, c, j) && Shape(cfg, rx)
    requires Collecting(cfg, accepted, before, rx, c, j, k, got)
    ensures FindReasm(rx.reasm, c, j + 1) == k
  {
    assert forall i :: 0 <= i < |rx.reasm| && i != k ==> rx.reasm[i] == before.reasm[i];
  }

  /** A further fragment, new or not. */
  lemma NextFragment(cfg: Config, accepted: seq<Message>, before: Rx, rx: Rx, c: nat, j: nat, k: nat, got: set<nat>,
                     i: nat, now: uint64)
    requires Awaited(cfg, accepted, before, c, j) && Shape(cfg, rx)
    requires Collecting(cfg, accepted, before, rx, c, j, k, got)
    requires i < FragCount(cfg, |accepted[j].payload|)
    ensures var rx' := Processed(cfg, rx, c, FrameOf(cfg, accepted, j, i), now).0;
      if All(FragCount(cfg, |accepted[j].payload|), got + {i})
      then Complete(cfg, accepted, before, rx', c, j, k)
      else Collecting(cfg, accepted, before, rx', c, j, k, got + {i})
  {
    var f, s := FrameOf(cfg, accepted, j, i), rx.reasm[k];
    var len := |accepted[j].payload|;
    assert Admissible(cfg, accepted[j]);
    FragCountBound(cfg, len);
    FragBounds(cfg, len, i);
    SlotFound(cfg, accepted, before, rx, c, j, k, got);
    CountTells(s, got);
    assert Processed(cfg, rx, c, f, now) == FragmentAdded(cfg, rx, c, f, k);
    if i in got {
      assert got + {i} == got;
      assert FragmentAdded(cfg, rx, c, f, k).0 == rx;
    } else {
      AddedFragment(cfg, accepted, before, rx, c, j, k, got, i);
    }
  }

  lemma AddedFragment(cfg: Config, accepted: seq<Message>, before: Rx, rx: Rx, c: nat, j: nat, k: nat, got: set<nat>,
                      i: nat)
    requires Awaited(cfg, accepted, before, c, j) && Shape(cfg, rx)
    requires Collecting(cfg, accepted, before, rx, c, j, k, got)
    requires i < FragCount(cfg, |accepted[j].payload|) <= MAX_FRAGS && i !in got
    requires var f := FrameOf(cfg, accepted, j, i); i * cfg.framePayload + |f.payload| <= cfg.maxPayload
    ensures var rx' := FragmentAdded(cfg, rx, c, FrameOf(cfg, accepted, j, i), k).0;
      if All(FragCount(cfg, |accepted[j].payload|), got + {i})
      then Complete(cfg, accepted, before, rx', c, j, k)
      else Shape(cfg, rx') && Collecting(cfg, accepted, before, rx', c, j, k, got + {i})
  {
    var s := rx.reasm[k];
    var f := FrameOf(cfg, accepted, j, i);
    var s' := Stored(cfg, s, f);
    StoredOk(cfg, accepted, s, i);
    var rx1 := rx.(reasm := rx.reasm[k := s']);
    SlotReplaced(cfg, before, rx, k, s');
    CountTells(s', got + {i});
    NewFragment(cfg, rx, c, f, k);
    if s'.receivedCount == s.fragCount { WholeDelivered(cfg, accepted, before, rx1, c, j, k); }
  }

  lemma SlotReplaced(cfg: Config, before: Rx, rx: Rx, k: nat, s: Reasm)
    requires Shape(cfg, rx) && k < |before.reasm| == |rx.reasm|
    requires rx == before.(reasm := before.reasm[k := rx.reasm[k]])
    requires |s.data| == cfg.maxPayload && |s.received| == MAX_FRAGS && s.totalLen <= cfg.maxPayload
    ensures var rx1 := rx.(reasm := rx.reasm[k := s]); Shape(cfg, rx1) && rx1 == before.(reasm := before.reasm[k := s])
  {
  }

  /** What the source does with a fragment of the message that is not there yet. */
  lemma NewFragment(cfg: Config, rx: Rx, c: nat, f: Frame, k: nat)
    requires Shape(cfg, rx) && c < |rx.conns| && k < |rx.reasm|
    requires f.fragIndex < MAX_FRAGS && f.fragIndex * cfg.framePayload + |f.payload| <= cfg.maxPayload
    requires var s := rx.reasm[k];
      && s.fragCount == f.fragCount && s.flow == f.flow && s.channel == f.channel && s.channelSeq == f.channelSeq
      && s.rel == f.rel && !s.received[f.fragIndex]
    ensures var s' := Stored(cfg, rx.reasm[k], f);
      var rx1 := rx.(reasm := rx.reasm[k := s']);
      FragmentAdded(cfg, rx, c, f, k) ==
      if s'.receivedCount == s'.fragCount then Completed(cfg, rx1, c, k) else (rx1, true)
  {
  }

  /** The counter has reached the number of fragments exactly when all are there. */
  lemma {:induction false} CountTells(s: Reasm, got: set<nat>)
    requires s.fragCount <= |s.received| && s.receivedCount == OnesCount(s.received)
    requires forall i :: s.fragCount <= i < |s.received| ==> !s.received[i]
    requires forall i :: 0 <= i < s.fragCount ==> (s.received[i] <==> i in got)
    ensures s.receivedCount == s.fragCount <==> All(s.fragCount, got)
  {
    OnesCountFull(s.received, s.fragCount);
    if All(s.fragCount, got) { OnesCountAll(s.received, s.fragCount); }
  }

  /** A full slot is delivered as the whole message. */
  lemma WholeDelivered(cfg: Config, accepted: seq<Message>, before: Rx, rx: Rx, c: nat, j: nat, k: nat)
    requires Awaited(cfg, accepted, before, c, j) && Shape(cfg, rx) && k < |before.reasm| == |rx.reasm|
    requires rx == before.(reasm := before.reasm[k := rx.reasm[k]])
    requires SlotOk(cfg, accepted, rx.reasm[k]) && rx.reasm[k].msgId == j + 1
    requires rx.reasm[k].receivedCount == rx.reasm[k].fragCount
    ensures Complete(cfg, accepted, before, Completed(cfg, rx, c, k).0, c, j, k)
  {
    var s := rx.reasm[k];
    CompleteContent(cfg, accepted, s);
    var whole := WholeOf(cfg, accepted, j);
    assert whole == Frame(s.rel, s.flow, s.msgId, 0, s.fragCount, s.channel, s.channelSeq, s.data[..s.totalLen]);
    DeliveredAnyReasm(cfg, before, c, whole, rx.reasm);
    var rx1 := Delivered(cfg, rx, c, whole).0;
    assert Completed(cfg, rx, c, k).0 == rx1.(reasm := rx1.reasm[k := s.(used := false)]);
  }

  /** Fragments that arrive after the message was delivered change nothing. */
  lemma LateFragment(cfg: Config, accepted: seq<Message>, before: Rx, rx: Rx, c: nat, j: nat, k: nat, i: nat,
                     now: uint64)
    requires Awaited(cfg, accepted, before, c, j) && Shape(cfg, rx) && Complete(cfg, accepted, before, rx, c, j, k)
    requires i < FragCount(cfg, |accepted[j].payload|)
    ensures Processed(cfg, rx, c, FrameOf(cfg, accepted, j, i), now) == (rx, true)
  {
    assert Admissible(cfg, accepted[j]);
    FragCountBound(cfg, |accepted[j].payload|);
    FragBounds(cfg, |accepted[j].payload|, i);
    assert rx.conns == rx.(reasm := before.reasm).conns;
  }

  /** The fragments of a reliable message in any order, with any duplicates, at any times: as long as one is missing
      they only fill a slot; with the last one the message is delivered as if it had arrived whole, exactly once; later
      ones change nothing. */
  lemma {:induction false} AnyOrder(cfg: Config, accepted: seq<Message>, rx: Rx, c: nat, j: nat,
                                    arrivals: seq<(nat, uint64)>)
    requires Awaited(cfg, accepted, rx, c, j)
    requires forall a :: a in arrivals ==> a.0 < FragCount(cfg, |accepted[j].payload|)
    ensures var after := Arrived(cfg, accepted, rx, c, j, arrivals);
      if arrivals == [] then after == rx
      else if All(FragCount(cfg, |accepted[j].payload|), Indices(arrivals))
      then Complete(cfg, accepted, rx, after, c, j, FreeReasm(rx.reasm))
      else Collecting(cfg, accepted, rx, after, c, j, FreeReasm(rx.reasm), Indices(arrivals))
    decreases |arrivals|
  {
    if arrivals != [] {
      var n, k := |arrivals| - 1, FreeReasm(rx.reasm);
      var front, i, now := arrivals[..n], arrivals[n].0, arrivals[n].1;
      var sofar := Arrived(cfg, accepted, rx, c, j, front);
      AnyOrder(cfg, accepted, rx, c, j, front);
      IndicesLast(arrivals);
      if front == [] {
        FirstFragment(cfg, accepted, rx, c, j, i, now);
        assert Indices(arrivals) == {i};
        NotAll(i, FragCount(cfg, |accepted[j].payload|), Indices(arrivals));
      } else if All(FragCount(cfg, |accepted[j].payload|), Indices(front)) {
        LateFragment(cfg, accepted, rx, sofar, c, j, k, i, now);
      } else {
        NextFragment(cfg, accepted, rx, sofar, c, j, k, Indices(front), i, now);
      }
    }
  }

  lemma IndicesLast(arrivals: seq<(nat, uint64)>)
    requires arrivals != []
    ensures Indices(arrivals) == Indices(arrivals[..|arrivals| - 1]) + {arrivals[|arrivals| - 1].0}
  {
    var n := |arrivals| - 1;
    assert arrivals == arrivals[..n] + [arrivals[n]];
    forall i
      ensures i in Indices(arrivals) <==> i in Indices(arrivals[..n]) + {arrivals[n].0}
    {
      if i in Indices(arrivals) {
        var a :| a in arrivals && a.0 == i;
        assert a in arrivals[..n] || a == arrivals[n];
      }
    }
  }

  /** For an unordered message with room in the queue: the bytes that were sent are in the queue, once. */
  lemma {:induction false} AnyOrderUnordered(cfg: Config, accepted: seq<Message>, rx: Rx, c: nat, j: nat,
                                             arrivals: seq<(nat, uint64)>)
    requires Awaited(cfg, accepted, rx, c, j) && accepted[j].rel == ReliableUnordered
    requires forall a :: a in arrivals ==> a.0 < FragCount(cfg, |accepted[j].payload|)
    requires All(FragCount(cfg, |accepted[j].payload|), Indices(arrivals))
    ensures Arrived(cfg, accepted, rx, c, j, arrivals).queue ==
            rx.queue + [Event(c, accepted[j].flow, accepted[j].channel, ReliableUnordered, accepted[j].payload)]
  {
    assert 0 in Indices(arrivals);
    AnyOrder(cfg, accepted, rx, c, j, arrivals);
    var after := Arrived(cfg, accepted, rx, c, j, arrivals);
    assert Admissible(cfg, accepted[j]);
    assert after.queue == after.(reasm := rx.reasm).queue;
  }
}
