/** What becomes of one data frame at the receiver: which frames are refused, when a fragment is kept, and when the
    message it belongs to is handed over; slot by slot and byte by byte. */
module FragmentOutcomes {
  import opened MachineWords
  import opened Receiver
  import DedupWindow

  // ----- frames ----------------------------------------------------------------------------------

  /** A frame the receiver looks at: an index below the count, no more fragments than there may be, and no byte beyond
      the largest payload. */
  predicate WithinMessage(cfg: Config, f: Frame) {
    && f.fragIndex < f.fragCount <= MAX_FRAGS
    && (if f.fragCount == 1 then |f.payload| <= cfg.framePayload && |f.payload| <= cfg.maxPayload
        else f.fragIndex * cfg.framePayload + |f.payload| <= cfg.maxPayload)
  }

  /** Every other frame changes nothing and leaves its packet unacknowledged. */
  lemma OutsideRefused(cfg: Config, rx: Rx, c: nat, f: Frame, now: uint64)
    requires Shape(cfg, rx) && c < |rx.conns| && !WithinMessage(cfg, f)
    ensures Processed(cfg, rx, c, f, now) == (rx, false)
  {
  }

  /** A whole message is delivered; an unreliable one counts as handled even if it was not. */
  lemma WholeOutcome(cfg: Config, rx: Rx, c: nat, f: Frame, now: uint64)
    requires Shape(cfg, rx) && c < |rx.conns| && WithinMessage(cfg, f) && f.fragCount == 1
    ensures var (rx', ok) := Processed(cfg, rx, c, f, now);
      rx' == Delivered(cfg, rx, c, f).0 && (ok <==> Delivered(cfg, rx, c, f).1 || !IsReliable(f.rel))
  {
  }

  /** A fragment of a message that was delivered already is acknowledged and changes nothing. */
  lemma SeenIgnored(cfg: Config, rx: Rx, c: nat, f: Frame, now: uint64)
    requires Shape(cfg, rx) && c < |rx.conns| && WithinMessage(cfg, f) && f.fragCount > 1
    requires IsReliable(f.rel) && DedupWindow.Seen(rx.conns[c].dedup, f.msgId)
    ensures Processed(cfg, rx, c, f, now) == (rx, true)
  {
  }

  /** A fragment, of more than one, that is neither refused nor ignored at once. */
  ghost predicate Awaited(cfg: Config, rx: Rx, c: nat, f: Frame)
    requires Shape(cfg, rx)
  {
    && c < |rx.conns| && WithinMessage(cfg, f) && f.fragCount > 1
    && !(IsReliable(f.rel) && DedupWindow.Seen(rx.conns[c].dedup, f.msgId))
  }

  // ----- the slot of a message -------------------------------------------------------------------

  predicate IsFor(s: Reasm, c: nat, f: Frame) { s.used && s.conn == c && s.msgId == f.msgId }

  /** The slot is the first one of the fragment's message. */
  predicate SlotIs(rx: Rx, c: nat, f: Frame, i: nat) {
    i < |rx.reasm| && IsFor(rx.reasm[i], c, f) && forall k :: 0 <= k < i ==> !IsFor(rx.reasm[k], c, f)
  }

  /** The fragment is of the same message as those the slot has. */
  predicate Agrees(s: Reasm, f: Frame) {
    s.rel == f.rel && s.flow == f.flow && s.channel == f.channel && s.channelSeq == f.channelSeq &&
    s.fragCount == f.fragCount
  }

  /** The slot has the fragment besides those it had: its bytes are in their place and all others as they were. */
  ghost predicate HasNow(cfg: Config, s: Reasm, s': Reasm, f: Frame) {
    && s'.(data := s.data, received := s.received, receivedCount := s.receivedCount, totalLen := s.totalLen) == s
    && s'.receivedCount == s.receivedCount + 1
    && |s'.received| == |s.received| && |s'.data| == |s.data|
    && (forall i :: 0 <= i < |s.received| ==> (s'.received[i] <==> s.received[i] || i == f.fragIndex))
    && (var from := f.fragIndex * cfg.framePayload;
        && (forall p :: 0 <= p < |s.data| ==>
              s'.data[p] == if from <= p < from + |f.payload| then f.payload[p - from] else s.data[p])
        && s'.totalLen == if from + |f.payload| < s.totalLen then s.totalLen else from + |f.payload|)
  }

  lemma StoredHas(cfg: Config, s: Reasm, f: Frame)
    requires |s.data| == cfg.maxPayload && |s.received| == MAX_FRAGS && f.fragIndex < MAX_FRAGS
    requires f.fragIndex * cfg.framePayload + |f.payload| <= cfg.maxPayload
    ensures HasNow(cfg, s, Stored(cfg, s, f), f)
  {
    var s', from := Stored(cfg, s, f), f.fragIndex * cfg.framePayload;
    forall p | 0 <= p < |s.data|
      ensures s'.data[p] == if from <= p < from + |f.payload| then f.payload[p - from] else s.data[p]
    {
    }
  }

  /** The message the slot holds is delivered; the slot is free afterwards unless a reliable one found no room. */
  ghost predicate HandedOver(cfg: Config, rx1: Rx, rx': Rx, c: nat, f: Frame, i: nat, s: Reasm, ok: bool) {
    && Shape(cfg, rx1) && c < |rx1.conns| && i < |rx1.reasm| && s.totalLen <= |s.data|
    && var whole := Frame(f.rel, f.flow, f.msgId, 0, f.fragCount, f.channel, f.channelSeq, s.data[..s.totalLen]);
    && var (rx2, taken) := Delivered(cfg, rx1, c, whole);
    && ok == (taken || !IsReliable(f.rel))
    && i < |rx2.reasm| && rx' == if ok then rx2.(reasm := rx2.reasm[i := s.(used := false)]) else rx2
  }

  /** A fragment whose message has a slot: one that contradicts the slot is refused, a repeated one is acknowledged, a
      new one is kept, and the message is handed over when it is complete. */
  lemma SlotOutcome(cfg: Config, rx: Rx, c: nat, f: Frame, now: uint64, i: nat)
    requires Shape(cfg, rx) && Awaited(cfg, rx, c, f) && SlotIs(rx, c, f, i)
    ensures var (rx', ok) := Processed(cfg, rx, c, f, now);
      var s := rx.reasm[i];
      if !Agrees(s, f) then rx' == rx && !ok
      else exists s' :: (if s.received[f.fragIndex] then s' == s else HasNow(cfg, s, s', f))
                        && if s'.receivedCount != f.fragCount then rx' == rx.(reasm := rx.reasm[i := s']) && ok
                           else HandedOver(cfg, rx.(reasm := rx.reasm[i := s']), rx', c, f, i, s', ok)
  {
    var s := rx.reasm[i];
    FirstIs(rx, c, f, i);
    assert OpenReasm(cfg, rx, c, f, now) == (rx, i);
    if Agrees(s, f) {
      assert rx.(reasm := rx.reasm[i := s]) == rx;
      if s.received[f.fragIndex] {
        assert s.receivedCount == f.fragCount ==> HandedOver(cfg, rx, Processed(cfg, rx, c, f, now).0, c, f, i, s,
                                                             Processed(cfg, rx, c, f, now).1);
      } else {
        StoredHas(cfg, s, f);
      }
    }
  }

  lemma FirstIs(rx: Rx, c: nat, f: Frame, i: nat)
    requires SlotIs(rx, c, f, i)
    ensures FindReasm(rx.reasm, c, f.msgId) == i
  {
    var k := FindReasm(rx.reasm, c, f.msgId);
    if k < i { assert IsFor(rx.reasm[k], c, f); }
  }

  // ----- a message without a slot ----------------------------------------------------------------

  predicate NoSlot(rx: Rx, c: nat, f: Frame) { forall k :: 0 <= k < |rx.reasm| ==> !IsFor(rx.reasm[k], c, f) }

  predicate AllTaken(rx: Rx) { forall k :: 0 <= k < |rx.reasm| ==> rx.reasm[k].used }

  /** A slot for the message that has nothing yet; what its data were does not matter. */
  predicate Fresh(cfg: Config, s: Reasm, c: nat, f: Frame, now: uint64) {
    && IsFor(s, c, f) && Agrees(s, f) && s.receivedCount == 0 && s.totalLen == 0
    && (forall i :: 0 <= i < |s.received| ==> !s.received[i])
    && s.deadline == if now + cfg.reasmTtl < UINT64_MAX then now + cfg.reasmTtl else UINT64_MAX
  }

  lemma {:induction false} FreeFound(reasm: seq<Reasm>)
    ensures FreeReasm(reasm) == |reasm| <==> forall k :: 0 <= k < |reasm| ==> reasm[k].used
  {
    if reasm != [] {
      FreeFound(reasm[1..]);
      assert forall k :: 0 < k < |reasm| ==> reasm[k] == reasm[1..][k - 1];
      assert forall k :: 0 <= k < |reasm[1..]| ==> reasm[1..][k] == reasm[k + 1];
    }
  }

  /** Without a free slot a fragment is dropped, and counts as handled if it is unreliable. */
  lemma NoSlotLeft(cfg: Config, rx: Rx, c: nat, f: Frame, now: uint64)
    requires Shape(cfg, rx) && Awaited(cfg, rx, c, f) && NoSlot(rx, c, f) && AllTaken(rx)
    ensures Processed(cfg, rx, c, f, now) == (rx, !IsReliable(f.rel))
  {
    var k := FindReasm(rx.reasm, c, f.msgId);
    if k < |rx.reasm| { assert IsFor(rx.reasm[k], c, f); }
    FreeFound(rx.reasm);
  }

  /** With a free slot the first fragment of a message gets a fresh one, and goes on as above. */
  lemma NewSlotOutcome(cfg: Config, rx: Rx, c: nat, f: Frame, now: uint64)
    requires Shape(cfg, rx) && Awaited(cfg, rx, c, f) && NoSlot(rx, c, f) && !AllTaken(rx)
    ensures exists k: nat, s ::
      && k < |rx.reasm| && !rx.reasm[k].used && Fresh(cfg, s, c, f, now)
      && Shape(cfg, rx.(reasm := rx.reasm[k := s]))
      && Processed(cfg, rx, c, f, now) == Processed(cfg, rx.(reasm := rx.reasm[k := s]), c, f, now)
  {
    FreeFound(rx.reasm);
    var i := FindReasm(rx.reasm, c, f.msgId);
    if i < |rx.reasm| { assert IsFor(rx.reasm[i], c, f); }
    var (rx1, k) := OpenReasm(cfg, rx, c, f, now);
    var s := rx1.reasm[k];
    assert rx1 == rx.(reasm := rx.reasm[k := s]) && Fresh(cfg, s, c, f, now);
    forall j | 0 <= j < k
      ensures !IsFor(rx1.reasm[j], c, f)
    {
      assert rx1.reasm[j] == rx.reasm[j];
    }
    FirstIs(rx1, c, f, k);
    assert Processed(cfg, rx1, c, f, now) == FragmentAdded(cfg, rx1, c, f, k);
    assert Processed(cfg, rx, c, f, now) == FragmentAdded(cfg, rx1, c, f, k);
  }
}
