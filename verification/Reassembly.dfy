/** Reassembly puts the fragments of a message together again, in any order and with duplicates. */
module Reassembly {
  import opened MachineWords
  import opened Receiver
  import opened SentMessages
  import opened OrderedDelivery
  import DedupWindow

  /** Byte b of a message of this length belongs to fragment i. */
  predicate InFrag(cfg: Config, len: nat, i: nat, b: nat) {
    i * cfg.framePayload <= b < FragEnd(cfg, len, i)
  }

  lemma FragDisjoint(cfg: Config, len: nat, i: nat, k: nat, b: nat)
    requires InFrag(cfg, len, i, b) && InFrag(cfg, len, k, b)
    ensures i == k
  {
    var fp := cfg.framePayload;
    assert (i + 1) * fp == i * fp + fp && (k + 1) * fp == k * fp + fp;
    if i < k {
      MulStrict(i, k, fp);
    } else if k < i {
      MulStrict(k, i, fp);
    }
  }

  lemma FragCovers(cfg: Config, len: nat, b: nat) returns (i: nat)
    requires 0 < cfg.framePayload && b < len
    ensures i < FragCount(cfg, len) && InFrag(cfg, len, i, b)
  {
    var fp := cfg.framePayload;
    i := b / fp;
    assert b == i * fp + b % fp;
    assert (i + 1) * fp == i * fp + fp;
    var n := FragCount(cfg, len);
    CeilingDivision(len, fp, n);
    if n <= i {
      MulMonotone(n, i, fp);
    }
  }

  /** Everything received so far is in place. */
  ghost predicate ContentOk(cfg: Config, payload: Bytes, received: seq<bool>, data: Bytes)
    requires |payload| <= |data| && 0 < cfg.framePayload && FragCount(cfg, |payload|) <= |received|
  {
    forall i: nat, b: nat :: i < FragCount(cfg, |payload|) && received[i] && InFrag(cfg, |payload|, i, b) ==>
      b < |payload| && data[b] == payload[b]
  }

  /** A reassembly slot describes one accepted fragmented message and part of its bytes. */
  ghost predicate SlotOk(cfg: Config, accepted: seq<Message>, r: Reasm)
    requires ValidConfig(cfg) && AllAdmissible(cfg, accepted)
    requires |r.data| == cfg.maxPayload && |r.received| == MAX_FRAGS
  {
    && 1 <= r.msgId <= |accepted|
    && var j := r.msgId - 1;
    && var m := accepted[j];
    && var n := FragCount(cfg, |m.payload|);
    && 1 < n <= MAX_FRAGS
    && r.flow == m.flow && r.channel == m.channel && r.rel == m.rel
    && r.channelSeq == ChannelSeqOf(accepted, j) && r.fragCount == n
    && r.receivedCount == OnesCount(r.received)
    && (forall i :: n <= i < MAX_FRAGS ==> !r.received[i])
    && r.totalLen <= |m.payload|
    && (r.received[n - 1] ==> r.totalLen == |m.payload|)
    && ContentOk(cfg, m.payload, r.received, r.data)
  }

  lemma StoredContent(cfg: Config, payload: Bytes, r: Reasm, f: Frame, k: nat)
    requires ValidConfig(cfg) && |r.data| == cfg.maxPayload && |r.received| == MAX_FRAGS
    requires |payload| <= cfg.maxPayload && k < FragCount(cfg, |payload|) <= MAX_FRAGS
    requires f.fragIndex == k && f.payload == FragPayload(cfg, payload, k)
    requires k * cfg.framePayload + |f.payload| <= cfg.maxPayload
    requires ContentOk(cfg, payload, r.received, r.data)
    ensures var r' := Stored(cfg, r, f); ContentOk(cfg, payload, r'.received, r'.data)
  {
    var len := |payload|;
    FragBounds(cfg, len, k);
    var start, end := k * cfg.framePayload, FragEnd(cfg, len, k);
    var r' := Stored(cfg, r, f);
    assert r'.data == r.data[..start] + payload[start..end] + r.data[end..];
    forall i: nat, b: nat | i < FragCount(cfg, len) && r'.received[i] && InFrag(cfg, len, i, b)
      ensures b < len && r'.data[b] == payload[b]
    {
      FragBounds(cfg, len, i);
      if i != k {
        if InFrag(cfg, len, k, b) { FragDisjoint(cfg, len, i, k, b); }
        assert r.received[i];
      }
    }
  }

  /** Copying in a fragment that is not there yet keeps the slot right. */
  lemma StoredOk(cfg: Config, accepted: seq<Message>, r: Reasm, k: nat)
    requires ValidConfig(cfg) && AllAdmissible(cfg, accepted)
    requires |r.data| == cfg.maxPayload && |r.received| == MAX_FRAGS
    requires SlotOk(cfg, accepted, r) && k < r.fragCount && !r.received[k]
    ensures var f := FrameOf(cfg, accepted, r.msgId - 1, k);
      && k * cfg.framePayload + |f.payload| <= cfg.maxPayload
      && SlotOk(cfg, accepted, Stored(cfg, r, f))
  {
    var j := r.msgId - 1;
    var payload := accepted[j].payload;
    assert Admissible(cfg, accepted[j]);
    var f := FrameOf(cfg, accepted, j, k);
    FragBounds(cfg, |payload|, k);
    OnesCountSet(r.received, k);
    StoredContent(cfg, payload, r, f, k);
  }

  /** When the counts agree, the buffer holds the message. */
  lemma CompleteContent(cfg: Config, accepted: seq<Message>, r: Reasm)
    requires ValidConfig(cfg) && AllAdmissible(cfg, accepted)
    requires |r.data| == cfg.maxPayload && |r.received| == MAX_FRAGS
    requires SlotOk(cfg, accepted, r) && r.receivedCount == r.fragCount
    ensures r.totalLen <= |r.data| && r.data[..r.totalLen] == accepted[r.msgId - 1].payload
  {
    var payload := accepted[r.msgId - 1].payload;
    assert Admissible(cfg, accepted[r.msgId - 1]);
    OnesCountFull(r.received, r.fragCount);
    forall b | 0 <= b < |payload|
      ensures r.data[b] == payload[b]
    {
      var i := FragCovers(cfg, |payload|, b);
    }
  }

  // ----- one arriving fragment -------------------------------------------------------------------

  ghost predicate SlotsOk(cfg: Config, accepted: seq<Message>, rx: Rx, c: nat)
    requires ValidConfig(cfg) && AllAdmissible(cfg, accepted) && Shape(cfg, rx)
  {
    forall i :: 0 <= i < |rx.reasm| && rx.reasm[i].used && rx.reasm[i].conn == c ==>
      SlotOk(cfg, accepted, rx.reasm[i])
  }

  /** The invariant of one connection on the receiving side. */
  ghost predicate RxOk(cfg: Config, accepted: seq<Message>, rx: Rx, c: nat) {
    DeliveryOk(cfg, accepted, rx, c) && SlotsOk(cfg, accepted, rx, c)
  }

  lemma SlotsChanged(cfg: Config, accepted: seq<Message>, rx: Rx, c: nat, k: nat, r: Reasm)
    requires RxOk(cfg, accepted, rx, c) && k < |rx.reasm|
    requires |r.data| == cfg.maxPayload && |r.received| == MAX_FRAGS && r.totalLen <= cfg.maxPayload
    requires r.used && r.conn == c ==> SlotOk(cfg, accepted, r)
    ensures RxOk(cfg, accepted, rx.(reasm := rx.reasm[k := r]), c)
  {
    var rx' := rx.(reasm := rx.reasm[k := r]);
    assert Shape(cfg, rx');
    assert Marks(rx', c) == Marks(rx, c);
  }

  /** Opening a slot for message j finds the slot of message j or makes one. */
  lemma OpenOk(cfg: Config, accepted: seq<Message>, rx: Rx, c: nat, j: nat, i: nat, now: uint64)
    requires RxOk(cfg, accepted, rx, c) && j < |accepted|
    requires i < FragCount(cfg, |accepted[j].payload|) && 1 < FragCount(cfg, |accepted[j].payload|)
    ensures var (rx1, k) := OpenReasm(cfg, rx, c, FrameOf(cfg, accepted, j, i), now);
      && RxOk(cfg, accepted, rx1, c)
      && rx1 == rx.(reasm := rx1.reasm)
      && (k < |rx1.reasm| ==> rx1.reasm[k].used && rx1.reasm[k].conn == c && rx1.reasm[k].msgId == j + 1)
  {
    var f := FrameOf(cfg, accepted, j, i);
    assert Admissible(cfg, accepted[j]);
    FragCountBound(cfg, |accepted[j].payload|);
    if FindReasm(rx.reasm, c, f.msgId) == |rx.reasm| {
      var k := FreeReasm(rx.reasm);
      if k < |rx.reasm| {
        var r := OpenReasm(cfg, rx, c, f, now).0.reasm[k];
        OnesCountFalse(r.received);
        SlotsChanged(cfg, accepted, rx, c, k, r);
      }
    }
  }

  /** Delivering a complete message keeps the invariant of the connection, the slots included. */
  lemma WholeDeliveredOk(cfg: Config, accepted: seq<Message>, rx: Rx, c: nat, j: nat)
    requires RxOk(cfg, accepted, rx, c) && j < |accepted| && Timely(accepted, rx.conns[c], j)
    ensures var r := Delivered(cfg, rx, c, WholeOf(cfg, accepted, j));
      RxOk(cfg, accepted, r.0, c) && Handled(cfg, accepted, rx, c, j, r)
  {
    DeliveredOk(cfg, accepted, rx, c, j);
  }

  lemma CompletedOk(cfg: Config, accepted: seq<Message>, rx: Rx, c: nat, k: nat)
    requires RxOk(cfg, accepted, rx, c) && k < |rx.reasm| && rx.reasm[k].used && rx.reasm[k].conn == c
    requires rx.reasm[k].receivedCount == rx.reasm[k].fragCount
    requires Timely(accepted, rx.conns[c], rx.reasm[k].msgId - 1)
    ensures var rx' := Completed(cfg, rx, c, k).0;
      RxOk(cfg, accepted, rx', c) && Marks(rx, c) <= Marks(rx', c)
  {
    var s := rx.reasm[k];
    var j := s.msgId - 1;
    CompleteContent(cfg, accepted, s);
    var whole := WholeOf(cfg, accepted, j);
    assert whole == Frame(s.rel, s.flow, s.msgId, 0, s.fragCount, s.channel, s.channelSeq, s.data[..s.totalLen]);
    WholeDeliveredOk(cfg, accepted, rx, c, j);
    var (rx1, ok) := Delivered(cfg, rx, c, whole);
    if ok || !IsReliable(s.rel) {
      SlotsChanged(cfg, accepted, rx1, c, k, s.(used := false));
    }
  }

  /** The outcome of one frame: the invariant holds, nothing delivered is forgotten, and an
      unfragmented reliable message that counts as handled is enqueued, held, or 65536 ids behind. */
  ghost predicate FrameHandled(cfg: Config, accepted: seq<Message>, rx: Rx, c: nat, j: nat, r: (Rx, bool))
    requires c < |rx.conns| && j < |accepted| < UINT32_MAX && 0 < cfg.framePayload
  {
    && RxOk(cfg, accepted, r.0, c)
    && Marks(rx, c) <= Marks(r.0, c)
    && (r.1 && IsReliable(accepted[j].rel) && FragCount(cfg, |accepted[j].payload|) == 1 ==>
          j + 1 in Marks(r.0, c) || rx.conns[c].dedup.maxId - (j + 1) >= DedupWindow.WINDOW)
  }

  lemma FragmentAddedOk(cfg: Config, accepted: seq<Message>, rx: Rx, c: nat, j: nat, i: nat, k: nat)
    requires RxOk(cfg, accepted, rx, c) && j < |accepted| && Timely(accepted, rx.conns[c], j)
    requires i < FragCount(cfg, |accepted[j].payload|) <= MAX_FRAGS
    requires i * cfg.framePayload + |FrameOf(cfg, accepted, j, i).payload| <= cfg.maxPayload
    requires k < |rx.reasm| && rx.reasm[k].used && rx.reasm[k].conn == c && rx.reasm[k].msgId == j + 1
    ensures var rx' := FragmentAdded(cfg, rx, c, FrameOf(cfg, accepted, j, i), k).0;
      RxOk(cfg, accepted, rx', c) && Marks(rx, c) <= Marks(rx', c)
  {
    var r := rx.reasm[k];
    if r.received[i] {
      if r.receivedCount == r.fragCount {
        CompletedOk(cfg, accepted, rx, c, k);
      }
    } else {
      var r' := Stored(cfg, r, FrameOf(cfg, accepted, j, i));
      StoredOk(cfg, accepted, r, i);
      SlotsChanged(cfg, accepted, rx, c, k, r');
      if r'.receivedCount == r.fragCount {
        CompletedOk(cfg, accepted, rx.(reasm := rx.reasm[k := r']), c, k);
      }
    }
  }

  lemma FragmentOk(cfg: Config, accepted: seq<Message>, rx: Rx, c: nat, j: nat, i: nat, now: uint64)
    requires RxOk(cfg, accepted, rx, c) && j < |accepted| && Timely(accepted, rx.conns[c], j)
    requires i < FragCount(cfg, |accepted[j].payload|) && 1 < FragCount(cfg, |accepted[j].payload|)
    ensures FrameHandled(cfg, accepted, rx, c, j, Processed(cfg, rx, c, FrameOf(cfg, accepted, j, i), now))
  {
    var f := FrameOf(cfg, accepted, j, i);
    assert Admissible(cfg, accepted[j]);
    FragCountBound(cfg, |accepted[j].payload|);
    FragBounds(cfg, |accepted[j].payload|, i);
    OpenOk(cfg, accepted, rx, c, j, i, now);
    var (rx1, k) := OpenReasm(cfg, rx, c, f, now);
    if k < |rx1.reasm| {
      FragmentAddedOk(cfg, accepted, rx1, c, j, i, k);
    }
  }

  lemma WholeProcessed(cfg: Config, rx: Rx, c: nat, f: Frame, now: uint64)
    requires Shape(cfg, rx) && c < |rx.conns|
    requires f.fragCount == 1 && f.fragIndex == 0
    requires |f.payload| <= cfg.framePayload && |f.payload| <= cfg.maxPayload
    ensures var (rx1, ok) := Delivered(cfg, rx, c, f);
      Processed(cfg, rx, c, f, now) == (rx1, ok || !IsReliable(f.rel))
  {
  }

  lemma SingleOk(cfg: Config, accepted: seq<Message>, rx: Rx, c: nat, j: nat, i: nat, now: uint64)
    requires RxOk(cfg, accepted, rx, c) && j < |accepted| && Timely(accepted, rx.conns[c], j)
    requires i < FragCount(cfg, |accepted[j].payload|) == 1
    ensures FrameHandled(cfg, accepted, rx, c, j, Processed(cfg, rx, c, FrameOf(cfg, accepted, j, i), now))
  {
    var f := FrameOf(cfg, accepted, j, i);
    SingleFragment(cfg, accepted, j);
    WholeDeliveredOk(cfg, accepted, rx, c, j);
    assert |f.payload| <= cfg.framePayload && |f.payload| <= cfg.maxPayload by {
      assert Admissible(cfg, accepted[j]);
      FragBounds(cfg, |f.payload|, 0);
    }
    WholeProcessed(cfg, rx, c, f, now);
  }

  /** Processing a timely frame of an accepted message keeps the invariant. */
  lemma ProcessedOk(cfg: Config, accepted: seq<Message>, rx: Rx, c: nat, j: nat, i: nat, now: uint64)
    requires RxOk(cfg, accepted, rx, c) && j < |accepted| && Timely(accepted, rx.conns[c], j)
    requires i < FragCount(cfg, |accepted[j].payload|)
    ensures FrameHandled(cfg, accepted, rx, c, j, Processed(cfg, rx, c, FrameOf(cfg, accepted, j, i), now))
  {
    if FragCount(cfg, |accepted[j].payload|) == 1 {
      SingleOk(cfg, accepted, rx, c, j, i, now);
    } else {
      FragmentOk(cfg, accepted, rx, c, j, i, now);
    }
  }
}
