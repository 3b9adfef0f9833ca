/** When `rudp_send` accepts a message, in the slots of the pool: exactly if with the obsolete messages gone and the new
    one in, no limit is exceeded. */
module Admission {
  import opened MachineWords
  import opened Receiver
  import opened SentMessages
  import opened MessagePool
  import opened PoolTallies
  import opened Sender
  import opened SenderOps
  import opened SenderSend
  import opened Replacement

  // ----- slots and their bytes -------------------------------------------------------------------

  /** The slots a submission frees before it takes any. */
  ghost function Gone(tx: Tx, c: nat, o: SendOpts): set<nat>
    requires |tx.place| == |tx.msgs|
  {
    set v: nat | v < |tx.msgs| && tx.place[v].Queued? && Obsolete(tx.msgs[v], c, o)
  }

  ghost function FreeSlots(tx: Tx): set<nat> { set v: nat | v < |tx.place| && tx.place[v] == Free }

  /** The messages in one ring. */
  ghost function RingSlots(tx: Tx, c: nat, f: nat, kind: Kind): set<nat>
    requires |tx.place| == |tx.msgs|
  {
    set v: nat | v < |tx.msgs| && tx.place[v] == Queued(kind) && tx.msgs[v].owner == c && tx.msgs[v].flow == f
  }

  /** The payload bytes of the slots of a set from index k on. */
  function BytesFrom(msgs: seq<Msg>, slots: set<nat>, k: nat): nat
    requires k <= |msgs|
    decreases |msgs| - k
  {
    if k == |msgs| then 0 else (if k in slots then |msgs[k].payload| else 0) + BytesFrom(msgs, slots, k + 1)
  }

  lemma {:induction false} NoBytesFrom(msgs: seq<Msg>, k: nat)
    requires k <= |msgs|
    ensures BytesFrom(msgs, {}, k) == 0
    decreases |msgs| - k
  {
    if k < |msgs| { NoBytesFrom(msgs, k + 1); }
  }

  lemma {:induction false} OneMoreFrom(msgs: seq<Msg>, slots: set<nat>, v: nat, k: nat)
    requires k <= |msgs| && v !in slots && v < |msgs|
    ensures BytesFrom(msgs, slots + {v}, k) == BytesFrom(msgs, slots, k) + (if k <= v then |msgs[v].payload| else 0)
    decreases |msgs| - k
  {
    if k < |msgs| { OneMoreFrom(msgs, slots, v, k + 1); }
  }

  /** A tally counts at least the bytes of the slots that are in it with all of theirs. */
  lemma {:induction false} CountedAtLeast(t: Tally, msgs: seq<Msg>, place: seq<Place>, slots: set<nat>, k: nat)
    requires k <= |msgs| == |place|
    requires forall v :: v in slots && v < |msgs| ==> Weight(t, msgs[v], place[v]) == |msgs[v].payload|
    ensures BytesFrom(msgs, slots, k) <= Total(t, msgs[k..], place[k..])
    decreases |msgs| - k
  {
    if k < |msgs| {
      assert msgs[k..][1..] == msgs[k + 1..] && place[k..][1..] == place[k + 1..];
      CountedAtLeast(t, msgs, place, slots, k + 1);
    }
  }

  ghost function Members(list: seq<nat>): set<nat> { set v | v in list }

  lemma {:induction false} ListSize(list: seq<nat>)
    requires NoDup(list)
    ensures |Members(list)| == |list|
  {
    if list != [] {
      assert forall i :: 0 < i < |list| ==> list[i] != list[0];
      ListSize(list[1..]);
      assert list == [list[0]] + list[1..];
      assert Members(list) == Members(list[1..]) + {list[0]};
    }
  }

  /** The sum the source makes of a list does not saturate if the bytes fit. */
  lemma {:induction false} ListBytes(tx: Tx, list: seq<nat>)
    requires ListValid(tx, list) && NoDup(list) && BytesFrom(tx.msgs, Members(list), 0) <= UINT32_MAX
    ensures BytesOf(tx, list) == BytesFrom(tx.msgs, Members(list), 0)
    decreases |list|
  {
    if list == [] {
      assert Members(list) == {};
      NoBytesFrom(tx.msgs, 0);
    } else {
      var front, v := list[..|list| - 1], list[|list| - 1];
      assert list == front + [v];
      assert Members(list) == Members(front) + {v};
      OneMoreFrom(tx.msgs, Members(front), v, 0);
      ListBytes(tx, front);
    }
  }

  // ----- what the checks look at -----------------------------------------------------------------

  lemma {:induction false} GoneAreReplaced(cfg: TxConfig, tx: Tx, c: nat, o: SendOpts)
    requires Idle(cfg, tx) && ListValid(tx, UnrelRing(tx, c, o)) && NoDup(UnrelRing(tx, c, o))
    ensures Members(Replaced(tx, UnrelRing(tx, c, o), o)) == Gone(tx, c, o)
    ensures |Replaced(tx, UnrelRing(tx, c, o), o)| == |Gone(tx, c, o)|
  {
    var list := Replaced(tx, UnrelRing(tx, c, o), o);
    forall v: nat
      ensures v in Members(list) <==> v in Gone(tx, c, o)
    {
      if v < |tx.msgs| { ReplacedMeans(cfg, tx, c, o, v); }
    }
    assert Members(list) == Gone(tx, c, o);
    ReplacedNoDup(tx, UnrelRing(tx, c, o), o);
    ListSize(list);
  }

  /** Their bytes are part of what the flow counts. */
  lemma {:induction false} GoneBytes(cfg: TxConfig, tx: Tx, c: nat, o: SendOpts)
    requires Idle(cfg, tx) && c < cfg.maxConns && o.flow < cfg.maxFlows
    requires ListValid(tx, UnrelRing(tx, c, o)) && NoDup(UnrelRing(tx, c, o))
    ensures BytesFrom(tx.msgs, Gone(tx, c, o), 0) <= tx.conns[c].flows[o.flow].queuedBytes
    ensures BytesOf(tx, Replaced(tx, UnrelRing(tx, c, o), o)) == BytesFrom(tx.msgs, Gone(tx, c, o), 0)
  {
    var t := FlowUnsentBytes(c, o.flow);
    GoneAreReplaced(cfg, tx, c, o);
    forall v | v in Gone(tx, c, o)
      ensures Weight(t, tx.msgs[v], tx.place[v]) == |tx.msgs[v].payload|
    {
      assert MsgOk(cfg.maxConns, cfg.maxFlows, tx.msgs[v], tx.place[v]);
    }
    CountedAtLeast(t, tx.msgs, tx.place, Gone(tx, c, o), 0);
    assert tx.msgs[0..] == tx.msgs && tx.place[0..] == tx.place;
    assert Kept(tx.conns, t) && Counter(tx.conns, t) == Total(t, tx.msgs, tx.place);
    ReplacedNoDup(tx, UnrelRing(tx, c, o), o);
    ListBytes(tx, Replaced(tx, UnrelRing(tx, c, o), o));
  }

  lemma {:induction false} BoxSizes(cfg: TxConfig, tx: Tx, c: nat, f: nat, kind: Kind)
    requires Core(cfg, tx)
    ensures |At(tx.boxes, FreeList)| == |FreeSlots(tx)|
    ensures |At(tx.boxes, Ring(c, f, kind))| == |RingSlots(tx, c, f, kind)|
  {
    BoxIs(cfg, tx, FreeList, FreeSlots(tx));
    BoxIs(cfg, tx, Ring(c, f, kind), RingSlots(tx, c, f, kind));
  }

  lemma {:induction false} BoxIs(cfg: TxConfig, tx: Tx, k: Key, slots: set<nat>)
    requires Core(cfg, tx)
    requires forall v: nat :: v in slots <==> v < |tx.msgs| && Home(cfg.slots, tx.msgs[v], tx.place[v]) == Some(k)
    ensures |At(tx.boxes, k)| == |slots|
  {
    forall v: nat
      ensures v in Members(At(tx.boxes, k)) <==> v in slots
    {
      if v in At(tx.boxes, k) { InBoxMeans(cfg, tx, k, v); }
    }
    assert Members(At(tx.boxes, k)) == slots;
    ListSize(At(tx.boxes, k));
  }

  // ----- the theorem -----------------------------------------------------------------------------

  /** With the obsolete messages gone and the new one in: the flow's bytes, the pool and the ring. */
  ghost predicate RoomFor(cfg: TxConfig, tx: Tx, c: nat, len: nat, o: SendOpts)
    requires TxShape(cfg, tx) && c < cfg.maxConns && o.flow < cfg.maxFlows && 0 < cfg.framePayload
  {
    var fl, frags := tx.conns[c].flows[o.flow], FragCount(Shared(cfg), len);
    var gone := |Gone(tx, c, o)|;
    && (fl.maxQueueBytes == UINT32_MAX
        || fl.queuedBytes - BytesFrom(tx.msgs, Gone(tx, c, o), 0) + len <= fl.maxQueueBytes)
    && frags <= |FreeSlots(tx)| + gone
    && |RingSlots(tx, c, o.flow, if IsReliable(o.rel) then Rel else Unrel)| - gone + frags < cfg.ringCap
  }

  lemma {:induction false} GoneInRing(cfg: TxConfig, tx: Tx, c: nat, o: SendOpts)
    requires Idle(cfg, tx)
    ensures |Gone(tx, c, o)| <= |RingSlots(tx, c, o.flow, RingKind(o.rel))|
    ensures |FreeSlots(tx)| + |Gone(tx, c, o)| <= cfg.maxMessages
  {
    forall v | v in Gone(tx, c, o)
      ensures v in RingSlots(tx, c, o.flow, RingKind(o.rel))
    {
      assert MsgOk(cfg.maxConns, cfg.maxFlows, tx.msgs[v], tx.place[v]);
    }
    SubsetSize(Gone(tx, c, o), RingSlots(tx, c, o.flow, RingKind(o.rel)));
    assert FreeSlots(tx) !! Gone(tx, c, o);
    assert |FreeSlots(tx) + Gone(tx, c, o)| == |FreeSlots(tx)| + |Gone(tx, c, o)|;
    SubsetSize(FreeSlots(tx) + Gone(tx, c, o), FirstOnes(|tx.msgs|));
  }

  lemma SubsetSize<T>(a: set<T>, b: set<T>)
    requires a <= b
    ensures |a| <= |b|
  {
    assert b == a + (b - a);
  }

  ghost function FirstOnes(n: nat): (s: set<nat>)
    ensures |s| == n && forall v :: v in s <==> 0 <= v < n
  {
    if n == 0 then {} else FirstOnes(n - 1) + {n - 1}
  }

  /** A message is accepted exactly if the connection is up, flow, channel and length are valid, the flow is not
      stopped, and there is room for it; otherwise nothing changes. */
  lemma {:induction false} AcceptedIff(cfg: TxConfig, tx: Tx, c: nat, data: Bytes, o: SendOpts, now: uint64)
    requires Idle(cfg, tx) && c < cfg.maxConns
    ensures var r := Send(cfg, tx, c, data, o, now);
      && (r.1 == Accepted <==>
            && tx.conns[c].active && o.flow < cfg.maxFlows && o.channel < cfg.maxChannels && |data| <= cfg.maxPayload
            && tx.conns[c].flows[o.flow].maxBps != 0 && RoomFor(cfg, tx, c, |data|, o))
      && (r.1 != Accepted ==> r.0 == tx)
  {
    if o.flow < cfg.maxFlows && |data| <= cfg.maxPayload {
      IdleRings(cfg, tx, c, o.flow, Unrel);
      ChecksMean(cfg, tx, c, |data|, o);
    }
  }

  lemma {:induction false} ChecksMean(cfg: TxConfig, tx: Tx, c: nat, len: nat, o: SendOpts)
    requires Idle(cfg, tx) && c < cfg.maxConns && o.flow < cfg.maxFlows && len <= cfg.maxPayload
    requires ListValid(tx, UnrelRing(tx, c, o)) && NoDup(UnrelRing(tx, c, o))
    ensures Refusal(cfg, tx, c, len, o) == None <==>
      && tx.conns[c].active && o.channel < cfg.maxChannels && tx.conns[c].flows[o.flow].maxBps != 0
      && RoomFor(cfg, tx, c, len, o)
  {
    GoneAreReplaced(cfg, tx, c, o);
    GoneBytes(cfg, tx, c, o);
    GoneInRing(cfg, tx, c, o);
    BoxSizes(cfg, tx, c, o.flow, RingKind(o.rel));
    RingsShort(cfg, tx, c, o.flow, RingKind(o.rel));
    FewFragments(cfg, len);
    RefusalIs(cfg, tx, c, len, o, |Gone(tx, c, o)|, BytesFrom(tx.msgs, Gone(tx, c, o), 0),
              |RingSlots(tx, c, o.flow, RingKind(o.rel))|, |FreeSlots(tx)|);
  }

  lemma RingsShort(cfg: TxConfig, tx: Tx, c: nat, f: nat, kind: Kind)
    requires Idle(cfg, tx)
    ensures |At(tx.boxes, Ring(c, f, kind))| < cfg.ringCap
  {
    IdleRings(cfg, tx, c, f, kind);
  }

  /** The checks for these numbers of replaced messages and bytes, of messages in the ring, and of free slots. */
  lemma {:induction false} RefusalIs(cfg: TxConfig, tx: Tx, c: nat, len: nat, o: SendOpts, gone: nat, bytes: nat,
                                     ring: nat, free: nat)
    requires ValidTx(cfg) && c < |tx.conns| && |tx.conns[c].flows| == cfg.maxFlows
    requires o.flow < cfg.maxFlows && len <= cfg.maxPayload && ListValid(tx, UnrelRing(tx, c, o))
    requires gone == |Replaced(tx, UnrelRing(tx, c, o), o)|
    requires bytes == BytesOf(tx, Replaced(tx, UnrelRing(tx, c, o), o))
    requires ring == |At(tx.boxes, Ring(c, o.flow, RingKind(o.rel)))| && free == |At(tx.boxes, FreeList)|
    requires gone <= ring < cfg.ringCap && free + gone <= cfg.maxMessages
    requires bytes <= tx.conns[c].flows[o.flow].queuedBytes && FragCount(Shared(cfg), len) <= MAX_FRAGS
    ensures Refusal(cfg, tx, c, len, o) == None <==>
      && tx.conns[c].active && o.channel < cfg.maxChannels && tx.conns[c].flows[o.flow].maxBps != 0
      && (tx.conns[c].flows[o.flow].maxQueueBytes == UINT32_MAX
          || tx.conns[c].flows[o.flow].queuedBytes - bytes + len <= tx.conns[c].flows[o.flow].maxQueueBytes)
      && FragCount(Shared(cfg), len) <= free + gone
      && ring - gone + FragCount(Shared(cfg), len) < cfg.ringCap
  {
  }

  lemma FewFragments(cfg: TxConfig, len: nat)
    requires ValidTx(cfg) && len <= cfg.maxPayload
    ensures FragCount(Shared(cfg), len) <= MAX_FRAGS
  {
    FragCountBound(Shared(cfg), len);
  }
}
