/** Connections of one endpoint share the receive queue, the hold table and the reassembly table.
    What happens to one connection leaves the invariant of every other connection alone. */
module ConnIsolation {
  import opened MachineWords
  import opened Receiver
  import opened SentMessages
  import opened OrderedDelivery
  import opened Reassembly
  import WakeUp

  predicate SlotOf(r: Reasm, c: nat) { r.used && r.conn == c }

  predicate HoldOf(h: Option<Hold>, c: nat) { h.Some? && h.value.conn == c }

  /** Nothing that belongs to connection c differs. */
  ghost predicate Untouched(rx: Rx, rx': Rx, c: nat) {
    && c < |rx.conns| == |rx'.conns| && rx'.conns[c] == rx.conns[c]
    && |rx'.holds| == |rx.holds| && |rx'.reasm| == |rx.reasm|
    && (forall i :: 0 <= i < |rx.holds| ==>
          rx'.holds[i] == rx.holds[i] || (!HoldOf(rx.holds[i], c) && !HoldOf(rx'.holds[i], c)))
    && (forall i :: 0 <= i < |rx.reasm| ==>
          rx'.reasm[i] == rx.reasm[i] || (!SlotOf(rx.reasm[i], c) && !SlotOf(rx'.reasm[i], c)))
  }

  lemma UntouchedHolds(holds: seq<Option<Hold>>, holds': seq<Option<Hold>>, c: nat)
    requires |holds'| == |holds|
    requires forall i :: 0 <= i < |holds| ==>
      holds'[i] == holds[i] || (!HoldOf(holds[i], c) && !HoldOf(holds'[i], c))
    ensures HoldIds(holds', c) == HoldIds(holds, c)
    ensures HoldsOnce(holds, c) ==> HoldsOnce(holds', c)
  {
    forall id | id in HoldIds(holds, c)
      ensures id in HoldIds(holds', c)
    {
      var i :| 0 <= i < |holds| && HoldOf(holds[i], c) && holds[i].value.msgId == id;
      assert HoldOf(holds'[i], c);
    }
    forall id | id in HoldIds(holds', c)
      ensures id in HoldIds(holds, c)
    {
      var i :| 0 <= i < |holds'| && HoldOf(holds'[i], c) && holds'[i].value.msgId == id;
      assert HoldOf(holds[i], c);
    }
    if HoldsOnce(holds, c) {
      forall i, k | 0 <= i < k < |holds'| && HoldOf(holds'[i], c) && HoldOf(holds'[k], c)
        ensures holds'[i].value.msgId != holds'[k].value.msgId
      {
        assert HoldOf(holds[i], c) && HoldOf(holds[k], c);
      }
    }
  }

  /** The invariant of a connection survives anything that leaves the connection alone. */
  lemma UntouchedOk(cfg: Config, accepted: seq<Message>, rx: Rx, rx': Rx, c: nat)
    requires RxOk(cfg, accepted, rx, c) && Untouched(rx, rx', c) && Shape(cfg, rx')
    ensures RxOk(cfg, accepted, rx', c) && Marks(rx', c) == Marks(rx, c)
  {
    UntouchedHolds(rx.holds, rx'.holds, c);
    forall i | 0 <= i < |rx'.holds| && rx'.holds[i].Some? && rx'.holds[i].value.conn == c
      ensures HoldOk(accepted, c, rx'.conns[c].log, rx'.holds[i].value)
    {
      assert HoldOf(rx'.holds[i], c);
      assert rx'.holds[i] == rx.holds[i];
    }
    forall i | 0 <= i < |rx'.reasm| && rx'.reasm[i].used && rx'.reasm[i].conn == c
      ensures SlotOk(cfg, accepted, rx'.reasm[i])
    {
      assert SlotOf(rx'.reasm[i], c);
      assert rx'.reasm[i] == rx.reasm[i];
    }
    OrderOkSame(accepted, c, rx.conns[c], rx'.conns[c], rx.holds);
  }

  lemma UntouchedTransitive(a: Rx, b: Rx, d: Rx, c: nat)
    requires Untouched(a, b, c) && Untouched(b, d, c)
    ensures Untouched(a, d, c)
  {
    forall i | 0 <= i < |a.holds|
      ensures d.holds[i] == a.holds[i] || (!HoldOf(a.holds[i], c) && !HoldOf(d.holds[i], c))
    {
    }
    forall i | 0 <= i < |a.reasm|
      ensures d.reasm[i] == a.reasm[i] || (!SlotOf(a.reasm[i], c) && !SlotOf(d.reasm[i], c))
    {
    }
  }

  lemma DrainUntouched(rx: Rx, rx': Rx, d: nat, c: nat)
    requires WakeUp.DrainOnly(rx, rx', d) && c != d && c < |rx.conns| && rx'.reasm == rx.reasm
    ensures Untouched(rx, rx', c)
  {
  }

  lemma OrderedUntouched(cfg: Config, rx: Rx, d: nat, f: Frame, c: nat)
    requires Shape(cfg, rx) && d < |rx.conns| && f.channel < cfg.maxChannels && c != d && c < |rx.conns|
    ensures Untouched(rx, DeliveredOrdered(cfg, rx, d, f).0, c)
  {
    if f.channelSeq == rx.conns[d].expected[f.channel] {
      var (rx1, ok) := Enqueued(cfg, rx, FrameEvent(d, f), f.msgId);
      if ok {
        var rx2 := Advanced(cfg, MarkedSeen(rx1, d, f.msgId), d, f.channel);
        var rx3 := Drained(cfg, rx2, d, f.channel);
        EnteringUntouched(cfg, rx, d, f, c);
        WakeUp.DrainedEffect(cfg, rx2, d, f.channel);
        DrainUntouched(rx2, rx3, d, c);
        UntouchedTransitive(rx, rx2, rx3, c);
      }
    }
  }

  lemma EnteringUntouched(cfg: Config, rx: Rx, d: nat, f: Frame, c: nat)
    requires Shape(cfg, rx) && d < |rx.conns| && f.channel < cfg.maxChannels && c != d && c < |rx.conns|
    ensures var rx1 := Enqueued(cfg, rx, FrameEvent(d, f), f.msgId).0;
      Untouched(rx, Advanced(cfg, MarkedSeen(rx1, d, f.msgId), d, f.channel), c)
  {
  }

  lemma DeliveredUntouched(cfg: Config, rx: Rx, d: nat, f: Frame, c: nat)
    requires Shape(cfg, rx) && d < |rx.conns| && c != d && c < |rx.conns|
    ensures Untouched(rx, Delivered(cfg, rx, d, f).0, c)
  {
    if f.rel.ReliableOrdered? && f.channel < cfg.maxChannels {
      OrderedUntouched(cfg, rx, d, f, c);
    }
  }

  lemma CompletedUntouched(cfg: Config, rx: Rx, d: nat, k: nat, c: nat)
    requires Shape(cfg, rx) && d < |rx.conns| && c != d && c < |rx.conns|
    requires k < |rx.reasm| && rx.reasm[k].conn == d
    ensures Untouched(rx, Completed(cfg, rx, d, k).0, c)
  {
    var s := rx.reasm[k];
    var whole := Frame(s.rel, s.flow, s.msgId, 0, s.fragCount, s.channel, s.channelSeq, s.data[..s.totalLen]);
    DeliveredUntouched(cfg, rx, d, whole, c);
  }

  lemma FragmentUntouched(cfg: Config, rx: Rx, d: nat, f: Frame, k: nat, c: nat)
    requires Shape(cfg, rx) && d < |rx.conns| && c != d && c < |rx.conns|
    requires k < |rx.reasm| && rx.reasm[k].conn == d
    requires f.fragIndex < MAX_FRAGS && f.fragIndex * cfg.framePayload + |f.payload| <= cfg.maxPayload
    ensures Untouched(rx, FragmentAdded(cfg, rx, d, f, k).0, c)
  {
    var s := rx.reasm[k];
    if s.received[f.fragIndex] {
      CompletedUntouched(cfg, rx, d, k, c);
    } else {
      CompletedUntouched(cfg, rx.(reasm := rx.reasm[k := Stored(cfg, s, f)]), d, k, c);
    }
  }

  /** A frame of connection d, whatever it contains, leaves every other connection alone. */
  lemma ProcessedUntouched(cfg: Config, rx: Rx, d: nat, f: Frame, now: uint64, c: nat)
    requires Shape(cfg, rx) && d < |rx.conns| && c != d && c < |rx.conns|
    ensures Untouched(rx, Processed(cfg, rx, d, f, now).0, c)
  {
    if f.fragCount == 0 || f.fragIndex >= f.fragCount || f.fragCount > MAX_FRAGS {
    } else if f.fragCount == 1 {
      DeliveredUntouched(cfg, rx, d, f, c);
    } else if f.fragIndex * cfg.framePayload + |f.payload| <= cfg.maxPayload {
      var (rx1, k) := OpenReasm(cfg, rx, d, f, now);
      if k < |rx1.reasm| {
        FragmentUntouched(cfg, rx1, d, f, k, c);
        UntouchedTransitive(rx, rx1, FragmentAdded(cfg, rx1, d, f, k).0, c);
      }
    }
  }

  /** Receiving drains only the connection of the event received. */
  lemma ReceivedOk(cfg: Config, accepted: seq<Message>, rx: Rx, c: nat)
    requires RxOk(cfg, accepted, rx, c) && rx.queue != [] && rx.queue[0].conn < |rx.conns|
    requires WakeUp.NoLostWakeUp(rx)
    ensures RxOk(cfg, accepted, Received(cfg, rx), c) && Marks(Received(cfg, rx), c) == Marks(rx, c)
  {
    var d := rx.queue[0].conn;
    var rx0 := rx.(queue := rx.queue[1..]);
    UntouchedOk(cfg, accepted, rx, rx0, c);
    if d == c {
      DrainedFromOk(cfg, accepted, rx0, c, 0);
    } else {
      WakeUp.DrainedFromEffect(cfg, rx0, d, 0);
      DrainUntouched(rx0, Received(cfg, rx), d, c);
      UntouchedOk(cfg, accepted, rx0, Received(cfg, rx), c);
    }
  }

  /** Expiry only frees reassembly slots. */
  lemma ExpiredOk(cfg: Config, accepted: seq<Message>, rx: Rx, now: uint64, c: nat)
    requires RxOk(cfg, accepted, rx, c)
    ensures RxOk(cfg, accepted, Expired(rx, now), c) && Marks(Expired(rx, now), c) == Marks(rx, c)
  {
    var rx' := Expired(rx, now);
    assert Shape(cfg, rx');
  }

  lemma AbortedUntouched(rx: Rx, d: nat, c: nat)
    requires c != d && c < |rx.conns|
    ensures Untouched(rx, WakeUp.Aborted(rx, d), c)
  {
  }
}
