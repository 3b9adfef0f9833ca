/** No lost wake-up: a held message that has become next in order waits only while an event of its
    own connection is in the receive queue, because only receiving such an event drains it. */
module WakeUp {
  import opened MachineWords
  import opened Receiver

  /** Some hold of this channel carries the expected number. */
  ghost predicate Drainable(rx: Rx, c: nat, channel: nat) {
    && c < |rx.conns| && channel < |rx.conns[c].expected|
    && exists i :: 0 <= i < |rx.holds| && HoldMatches(rx.holds[i], c, channel, rx.conns[c].expected[channel])
  }

  ghost predicate HasEvent(rx: Rx, c: nat) {
    exists i :: 0 <= i < |rx.queue| && rx.queue[i].conn == c
  }

  ghost predicate NoLostWakeUp(rx: Rx) {
    && (forall c: nat, channel: nat :: Drainable(rx, c, channel) ==> HasEvent(rx, c))
    && (forall i :: 0 <= i < |rx.queue| ==> rx.queue[i].conn < |rx.conns|)
  }

  /** Receive side of `abort_conn_internal`: the connection's events, holds and reassemblies go. */
  function WithoutConn(queue: seq<Event>, c: nat): (q: seq<Event>)
    ensures forall e :: e in q <==> e in queue && e.conn != c
    ensures |q| <= |queue|
  {
    if queue == [] then []
    else (if queue[0].conn == c then [] else [queue[0]]) + WithoutConn(queue[1..], c)
  }

  function Aborted(rx: Rx, c: nat): Rx {
    rx.(queue := WithoutConn(rx.queue, c),
        holds := seq(|rx.holds|, i requires 0 <= i < |rx.holds| =>
          if rx.holds[i].Some? && rx.holds[i].value.conn == c then None else rx.holds[i]),
        reasm := seq(|rx.reasm|, i requires 0 <= i < |rx.reasm| =>
          if rx.reasm[i].conn == c then rx.reasm[i].(used := false) else rx.reasm[i]))
  }

  /** What draining connection c changes: the queue grows by events of c, holds of c disappear, and
      only the expected numbers of c move. */
  ghost predicate DrainOnly(rx: Rx, rx': Rx, c: nat) {
    && |rx'.holds| == |rx.holds| && |rx'.conns| == |rx.conns|
    && rx.queue <= rx'.queue
    && (forall i :: |rx.queue| <= i < |rx'.queue| ==> rx'.queue[i].conn == c)
    && (forall i :: 0 <= i < |rx.holds| ==>
          rx'.holds[i] == rx.holds[i] || (rx.holds[i].Some? && rx.holds[i].value.conn == c && rx'.holds[i].None?))
    && (forall d :: 0 <= d < |rx.conns| && d != c ==> rx'.conns[d] == rx.conns[d])
    && |rx'.queue| + HoldCount(rx'.holds) == |rx.queue| + HoldCount(rx.holds)
    && (|rx'.queue| == |rx.queue| ==> rx' == rx)
  }

  lemma DrainOnlyTransitive(a: Rx, b: Rx, d: Rx, c: nat)
    requires DrainOnly(a, b, c) && DrainOnly(b, d, c)
    ensures DrainOnly(a, d, c)
  {
  }

  lemma {:induction false} Drained1Effect(cfg: Config, rx: Rx, c: nat, channel: nat, i: nat)
    requires Shape(cfg, rx) && c < |rx.conns| && channel < cfg.maxChannels && |rx.queue| < cfg.maxRecvEvents
    requires i < |rx.holds| && rx.holds[i].Some? && rx.holds[i].value.conn == c
    ensures DrainOnly(rx, Drained1(cfg, rx, c, channel, i), c)
    ensures HoldCount(Drained1(cfg, rx, c, channel, i).holds) == HoldCount(rx.holds) - 1
  {
    HoldCountUpdate(rx.holds, i, None);
  }

  lemma {:induction false} DrainedEffect(cfg: Config, rx: Rx, c: nat, channel: nat)
    requires Shape(cfg, rx) && c < |rx.conns| && channel < cfg.maxChannels
    ensures var rx' := Drained(cfg, rx, c, channel);
      && DrainOnly(rx, rx', c)
      && (Drainable(rx', c, channel) ==> |rx'.queue| == cfg.maxRecvEvents)
    decreases HoldCount(rx.holds)
  {
    var rx' := Drained(cfg, rx, c, channel);
    var i := FirstHold(rx.holds, c, channel, rx.conns[c].expected[channel]);
    if i < |rx.holds| && |rx.queue| < cfg.maxRecvEvents {
      var rx1 := Drained1(cfg, rx, c, channel, i);
      Drained1Effect(cfg, rx, c, channel, i);
      DrainedEffect(cfg, rx1, c, channel);
      assert rx' == Drained(cfg, rx1, c, channel);
      DrainOnlyTransitive(rx, rx1, rx', c);
    }
  }

  /** A drain of c cannot make another connection's wake-up disappear, and cannot create a need for
      one that it does not also serve. */
  lemma DrainOnlyKeeps(rx: Rx, rx': Rx, c: nat, d: nat, channel: nat)
    requires DrainOnly(rx, rx', c)
    ensures HasEvent(rx, d) ==> HasEvent(rx', d)
    ensures d != c && Drainable(rx', d, channel) ==> Drainable(rx, d, channel)
    ensures |rx'.queue| > |rx.queue| ==> HasEvent(rx', c)
  {
    if HasEvent(rx, d) {
      var i :| 0 <= i < |rx.queue| && rx.queue[i].conn == d;
      assert rx'.queue[i].conn == d;
    }
    if |rx'.queue| > |rx.queue| {
      assert rx'.queue[|rx.queue|].conn == c;
    }
    if d != c && Drainable(rx', d, channel) {
      var i :| 0 <= i < |rx'.holds| && HoldMatches(rx'.holds[i], d, channel, rx'.conns[d].expected[channel]);
      assert HoldMatches(rx.holds[i], d, channel, rx.conns[d].expected[channel]);
    }
  }

  /** Connection c has an event, or there is room and no channel below k is drainable. */
  ghost predicate Settled(cfg: Config, rx: Rx, c: nat, k: nat) {
    || HasEvent(rx, c)
    || (|rx.queue| < cfg.maxRecvEvents && forall channel: nat :: channel < k ==> !Drainable(rx, c, channel))
  }

  lemma {:induction false} SettledStep(cfg: Config, rx: Rx, c: nat, k: nat)
    requires Shape(cfg, rx) && c < |rx.conns| && k < cfg.maxChannels && |rx.queue| < cfg.maxRecvEvents
    requires Settled(cfg, rx, c, k)
    ensures var rx' := Drained(cfg, rx, c, k);
      DrainOnly(rx, rx', c) && Settled(cfg, rx', c, k + 1)
  {
    var rx' := Drained(cfg, rx, c, k);
    DrainedEffect(cfg, rx, c, k);
    DrainOnlyKeeps(rx, rx', c, c, k);
  }

  lemma SettledDone(cfg: Config, rx: Rx, c: nat, k: nat)
    requires Shape(cfg, rx) && c < |rx.conns| && k <= cfg.maxChannels
    requires Settled(cfg, rx, c, k)
    requires k == cfg.maxChannels || |rx.queue| >= cfg.maxRecvEvents
    ensures HasEvent(rx, c) || forall channel: nat :: !Drainable(rx, c, channel)
  {
  }

  /** From channel k on: afterwards connection c has an event, or no channel of it is drainable. */
  lemma {:induction false} DrainedFromEffect(cfg: Config, rx: Rx, c: nat, k: nat)
    requires Shape(cfg, rx) && c < |rx.conns| && k <= cfg.maxChannels
    requires Settled(cfg, rx, c, k)
    ensures var rx' := DrainedFrom(cfg, rx, c, k);
      && DrainOnly(rx, rx', c)
      && (HasEvent(rx', c) || forall channel: nat :: !Drainable(rx', c, channel))
    decreases cfg.maxChannels - k
  {
    var rx' := DrainedFrom(cfg, rx, c, k);
    if k == cfg.maxChannels || |rx.queue| >= cfg.maxRecvEvents {
      SettledDone(cfg, rx, c, k);
      assert rx' == rx;
    } else {
      var rx1 := Drained(cfg, rx, c, k);
      SettledStep(cfg, rx, c, k);
      DrainedFromEffect(cfg, rx1, c, k + 1);
      assert rx' == DrainedFrom(cfg, rx1, c, k + 1);
      DrainOnlyTransitive(rx, rx1, rx', c);
    }
  }

  /** Receiving keeps the wake-up property and strictly consumes one pending or held event. */
  lemma {:induction false} ReceivedKeeps(cfg: Config, rx: Rx)
    requires Shape(cfg, rx) && NoLostWakeUp(rx) && rx.queue != []
    ensures var rx' := Received(cfg, rx);
      && NoLostWakeUp(rx')
      && |rx'.queue| + HoldCount(rx'.holds) == |rx.queue| + HoldCount(rx.holds) - 1
  {
    var c := rx.queue[0].conn;
    var rx0 := rx.(queue := rx.queue[1..]);
    var rx' := Received(cfg, rx);
    DrainedFromEffect(cfg, rx0, c, 0);
    forall d: nat, channel: nat | Drainable(rx', d, channel)
      ensures HasEvent(rx', d)
    {
      if d != c { OthersServed(rx, rx', c, d, channel); }
    }
    forall i | 0 <= i < |rx'.queue|
      ensures rx'.queue[i].conn < |rx'.conns|
    {
      if i < |rx0.queue| { assert rx'.queue[i] == rx.queue[i + 1]; }
    }
  }

  /** Receiving an event of connection c leaves the events of the others. */
  lemma OthersServed(rx: Rx, rx': Rx, c: nat, d: nat, channel: nat)
    requires NoLostWakeUp(rx) && rx.queue != [] && rx.queue[0].conn == c && d != c
    requires DrainOnly(rx.(queue := rx.queue[1..]), rx', c) && Drainable(rx', d, channel)
    ensures HasEvent(rx', d)
  {
    var rx0 := rx.(queue := rx.queue[1..]);
    DrainOnlyKeeps(rx0, rx', c, d, channel);
    assert Drainable(rx, d, channel);
    var i :| 0 <= i < |rx.queue| && rx.queue[i].conn == d;
    assert rx0.queue[i - 1].conn == d;
  }

  /** The application receives until the queue is empty. */
  function ReceivedAll(cfg: Config, rx: Rx): (rx': Rx)
    requires Shape(cfg, rx) && NoLostWakeUp(rx)
    decreases |rx.queue| + HoldCount(rx.holds)
  {
    if rx.queue == [] then rx
    else
      ReceivedKeeps(cfg, rx);
      ReceivedAll(cfg, Received(cfg, rx))
  }

  /** Receiving until the queue is empty leaves no hold behind that is next in order, on any
      connection and channel, however full the queue was. */
  lemma {:induction false} ReceivingDrainsEverything(cfg: Config, rx: Rx)
    requires Shape(cfg, rx) && NoLostWakeUp(rx)
    ensures var rx' := ReceivedAll(cfg, rx);
      rx'.queue == [] && forall c: nat, channel: nat :: !Drainable(rx', c, channel)
    decreases |rx.queue| + HoldCount(rx.holds)
  {
    if rx.queue != [] {
      ReceivedKeeps(cfg, rx);
      ReceivingDrainsEverything(cfg, Received(cfg, rx));
    } else {
      assert forall c: nat :: !HasEvent(rx, c);
    }
  }

  // ----- delivery keeps the property -------------------------------------------------------------

  /** A step that only appends events, keeps every hold and every expected number of connection d. */
  lemma QuietFor(rx: Rx, rx': Rx, d: nat, channel: nat)
    requires d < |rx.conns| == |rx'.conns| && |rx.holds| == |rx'.holds|
    requires rx.queue <= rx'.queue
    requires rx'.conns[d].expected == rx.conns[d].expected
    requires forall i :: 0 <= i < |rx.holds| ==>
      rx'.holds[i] == rx.holds[i]
      || (rx'.holds[i].Some? ==>
            var h := rx'.holds[i].value;
            h.conn == d && h.channel < |rx.conns[d].expected| ==> h.channelSeq != rx.conns[d].expected[h.channel])
    ensures HasEvent(rx, d) ==> HasEvent(rx', d)
    ensures Drainable(rx', d, channel) ==> Drainable(rx, d, channel)
  {
    if HasEvent(rx, d) {
      var i :| 0 <= i < |rx.queue| && rx.queue[i].conn == d;
      assert rx'.queue[i].conn == d;
    }
    if Drainable(rx', d, channel) {
      var i :| 0 <= i < |rx'.holds| && HoldMatches(rx'.holds[i], d, channel, rx'.conns[d].expected[channel]);
      assert HoldMatches(rx.holds[i], d, channel, rx.conns[d].expected[channel]);
    }
  }

  lemma QuietKeeps(rx: Rx, rx': Rx)
    requires NoLostWakeUp(rx)
    requires |rx.conns| == |rx'.conns| && |rx.holds| == |rx'.holds|
    requires rx.queue <= rx'.queue
    requires forall i :: 0 <= i < |rx'.queue| ==> rx'.queue[i].conn < |rx.conns|
    requires forall d :: 0 <= d < |rx.conns| ==> rx'.conns[d].expected == rx.conns[d].expected
    requires forall i :: 0 <= i < |rx.holds| ==>
      rx'.holds[i] == rx.holds[i]
      || (rx'.holds[i].Some? ==>
            var h := rx'.holds[i].value;
            h.conn < |rx.conns| && h.channel < |rx.conns[h.conn].expected|
            && h.channelSeq != rx.conns[h.conn].expected[h.channel])
    ensures NoLostWakeUp(rx')
  {
    forall d: nat, channel: nat | Drainable(rx', d, channel)
      ensures HasEvent(rx', d)
    {
      QuietFor(rx, rx', d, channel);
    }
  }

  /** An event of c was added and its held messages drained. */
  lemma InOrderServed(rx: Rx, rx': Rx, rx2: Rx, c: nat)
    requires NoLostWakeUp(rx) && c < |rx.conns| == |rx'.conns| && rx'.holds == rx.holds
    requires |rx'.queue| == |rx.queue| + 1 && rx.queue <= rx'.queue && rx'.queue[|rx.queue|].conn == c
    requires forall d :: 0 <= d < |rx.conns| && d != c ==> rx'.conns[d] == rx.conns[d]
    requires DrainOnly(rx', rx2, c)
    ensures NoLostWakeUp(rx2)
  {
    assert HasEvent(rx', c);
    forall d: nat, ch: nat | Drainable(rx2, d, ch)
      ensures HasEvent(rx2, d)
    {
      DrainOnlyKeeps(rx', rx2, c, d, ch);
      if d != c { QuietFor(rx, rx', d, ch); }
    }
  }

  /** Delivering the expected message of c: c gets an event, so whatever becomes drainable is served. */
  lemma {:induction false} InOrderKeeps(cfg: Config, rx: Rx, rx': Rx, c: nat, channel: nat)
    requires Shape(cfg, rx') && NoLostWakeUp(rx)
    requires c < |rx.conns| == |rx'.conns| && channel < cfg.maxChannels
    requires rx'.holds == rx.holds
    requires |rx'.queue| == |rx.queue| + 1 && rx.queue <= rx'.queue && rx'.queue[|rx.queue|].conn == c
    requires forall d :: 0 <= d < |rx.conns| && d != c ==> rx'.conns[d] == rx.conns[d]
    ensures NoLostWakeUp(Drained(cfg, rx', c, channel))
  {
    var rx2 := Drained(cfg, rx', c, channel);
    DrainedEffect(cfg, rx', c, channel);
    InOrderServed(rx, rx', rx2, c);
  }

  lemma OrderedKeeps(cfg: Config, rx: Rx, c: nat, f: Frame)
    requires Shape(cfg, rx) && c < |rx.conns| && f.channel < cfg.maxChannels && NoLostWakeUp(rx)
    ensures NoLostWakeUp(DeliveredOrdered(cfg, rx, c, f).0)
  {
    var rx' := DeliveredOrdered(cfg, rx, c, f).0;
    if f.channelSeq == rx.conns[c].expected[f.channel] {
      var (rx1, ok) := Enqueued(cfg, rx, FrameEvent(c, f), f.msgId);
      if ok {
        InOrderKeeps(cfg, rx, Advanced(cfg, MarkedSeen(rx1, c, f.msgId), c, f.channel), c, f.channel);
      }
    } else {
      QuietKeeps(rx, rx');
    }
  }

  lemma DeliveredKeeps(cfg: Config, rx: Rx, c: nat, f: Frame)
    requires Shape(cfg, rx) && c < |rx.conns| && NoLostWakeUp(rx)
    ensures NoLostWakeUp(Delivered(cfg, rx, c, f).0)
  {
    if f.rel.ReliableOrdered? {
      if f.channel < cfg.maxChannels {
        OrderedKeeps(cfg, rx, c, f);
      }
    } else {
      QuietKeeps(rx, Delivered(cfg, rx, c, f).0);
    }
  }

  lemma FragmentKeeps(cfg: Config, rx: Rx, c: nat, f: Frame, k: nat)
    requires Shape(cfg, rx) && c < |rx.conns| && k < |rx.reasm| && NoLostWakeUp(rx)
    requires f.fragIndex < MAX_FRAGS && f.fragIndex * cfg.framePayload + |f.payload| <= cfg.maxPayload
    ensures NoLostWakeUp(FragmentAdded(cfg, rx, c, f, k).0)
  {
    var s := rx.reasm[k];
    if s.received[f.fragIndex] {
      CompletedKeeps(cfg, rx, c, k);
    } else {
      var rx1 := rx.(reasm := rx.reasm[k := Stored(cfg, s, f)]);
      QuietKeeps(rx, rx1);
      CompletedKeeps(cfg, rx1, c, k);
    }
  }

  /** Every arriving frame, of any connection and with any content, keeps the property. */
  lemma ProcessedKeeps(cfg: Config, rx: Rx, c: nat, f: Frame, now: uint64)
    requires Shape(cfg, rx) && c < |rx.conns| && NoLostWakeUp(rx)
    ensures NoLostWakeUp(Processed(cfg, rx, c, f, now).0)
  {
    if f.fragCount == 0 || f.fragIndex >= f.fragCount || f.fragCount > MAX_FRAGS {
    } else if f.fragCount == 1 {
      DeliveredKeeps(cfg, rx, c, f);
    } else if f.fragIndex * cfg.framePayload + |f.payload| <= cfg.maxPayload {
      var (rx1, k) := OpenReasm(cfg, rx, c, f, now);
      QuietKeeps(rx, rx1);
      if k < |rx1.reasm| {
        FragmentKeeps(cfg, rx1, c, f, k);
      }
    }
  }

  lemma CompletedKeeps(cfg: Config, rx: Rx, c: nat, k: nat)
    requires Shape(cfg, rx) && c < |rx.conns| && k < |rx.reasm| && NoLostWakeUp(rx)
    ensures NoLostWakeUp(Completed(cfg, rx, c, k).0)
  {
    var s := rx.reasm[k];
    var whole := Frame(s.rel, s.flow, s.msgId, 0, s.fragCount, s.channel, s.channelSeq,
                       s.data[..s.totalLen]);
    DeliveredKeeps(cfg, rx, c, whole);
    QuietKeeps(Delivered(cfg, rx, c, whole).0, Completed(cfg, rx, c, k).0);
  }

  /** Aborting a connection removes its events only together with its holds. */
  lemma AbortedKeeps(rx: Rx, c: nat)
    requires NoLostWakeUp(rx)
    ensures NoLostWakeUp(Aborted(rx, c))
    ensures forall channel: nat :: !Drainable(Aborted(rx, c), c, channel)
  {
    var rx' := Aborted(rx, c);
    forall d: nat, channel: nat | Drainable(rx', d, channel)
      ensures d != c && HasEvent(rx', d)
    {
      var i :| 0 <= i < |rx'.holds| && HoldMatches(rx'.holds[i], d, channel, rx'.conns[d].expected[channel]);
      assert HoldMatches(rx.holds[i], d, channel, rx.conns[d].expected[channel]);
      assert Drainable(rx, d, channel);
      var j :| 0 <= j < |rx.queue| && rx.queue[j].conn == d;
      assert rx.queue[j] in rx'.queue;
    }
    forall i | 0 <= i < |rx'.queue|
      ensures rx'.queue[i].conn < |rx'.conns|
    {
      assert rx'.queue[i] in rx.queue;
    }
  }

  /** The slot of a connection without holds can be given to a new connection. */
  lemma ReplacedKeeps(rx: Rx, c: nat, cn: ConnRx)
    requires NoLostWakeUp(rx) && c < |rx.conns|
    requires forall i :: 0 <= i < |rx.holds| && rx.holds[i].Some? ==> rx.holds[i].value.conn != c
    ensures NoLostWakeUp(rx.(conns := rx.conns[c := cn]))
  {
    var rx' := rx.(conns := rx.conns[c := cn]);
    forall d: nat, channel: nat | Drainable(rx', d, channel)
      ensures HasEvent(rx', d)
    {
      assert d != c;
      assert Drainable(rx, d, channel);
      var i :| 0 <= i < |rx.queue| && rx.queue[i].conn == d;
      assert rx'.queue[i].conn == d;
    }
  }
}
