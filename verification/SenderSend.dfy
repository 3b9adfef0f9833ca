/** `rudp_send`: admission, replacement of unsent unreliable messages, fragmentation into the pool and
    insertion into the ring by priority. */
module SenderSend {
  import opened MachineWords
  import opened SerialNumbers
  import opened Receiver
  import opened SentMessages
  import opened MessagePool
  import opened PoolTallies
  import opened Sender
  import opened SenderOps
  import opened SenderAcks

  // ----- freeing a list of messages --------------------------------------------------------------

  /** The elements of s that are not in the list, in order. */
  function Without(s: seq<nat>, list: seq<nat>): (r: seq<nat>)
    ensures forall v :: v in r <==> v in s && v !in list
  {
    if s == [] then []
    else (if s[0] in list then [] else [s[0]]) + Without(s[1..], list)
  }

  lemma {:induction false} WithoutNothing(s: seq<nat>)
    ensures Without(s, []) == s
  {
    if s != [] { WithoutNothing(s[1..]); }
  }

  lemma {:induction false} WithoutSame(s: seq<nat>, list: seq<nat>, list2: seq<nat>)
    requires forall v :: v in s ==> (v in list <==> v in list2)
    ensures Without(s, list) == Without(s, list2)
  {
    if s != [] { WithoutSame(s[1..], list, list2); }
  }

  lemma {:induction false} WithoutRemoved(s: seq<nat>, v: nat, rest: seq<nat>)
    requires NoDup(s)
    ensures Without(Removed(s, v), rest) == Without(s, [v] + rest)
  {
    if s != [] {
      assert forall k :: 0 < k < |s| ==> s[k] != s[0];
      if s[0] == v {
        WithoutSame(s[1..], rest, [v] + rest);
      } else {
        WithoutRemoved(s[1..], v, rest);
      }
    }
  }

  lemma {:induction false} WithoutCount(s: seq<nat>, list: seq<nat>)
    requires NoDup(s) && NoDup(list) && forall v :: v in list ==> v in s
    ensures |Without(s, list)| + |list| == |s|
    decreases |list|
  {
    if list == [] {
      WithoutNothing(s);
    } else {
      var v := list[0];
      assert list == [v] + list[1..];
      WithoutRemoved(s, v, list[1..]);
      RemovedNoDup(s, v);
      forall w | w in list[1..]
        ensures w in Removed(s, v)
      {
        assert w in list;
      }
      WithoutCount(Removed(s, v), list[1..]);
    }
  }

  /** The listed slots are distinct and none of them is free. */
  ghost predicate AllUsed(tx: Tx, list: seq<nat>) {
    && |tx.place| == |tx.msgs| && NoDup(list)
    && forall i :: 0 <= i < |list| ==> list[i] < |tx.msgs| && tx.place[list[i]] != Free
  }

  /** The listed slots left their boxes and were stacked on the free list. */
  ghost predicate BoxesAfterFree(tx: Tx, tx': Tx, list: seq<nat>) {
    && At(tx'.boxes, FreeList) == At(tx.boxes, FreeList) + list
    && forall k: Key :: k != FreeList ==> At(tx'.boxes, k) == Without(At(tx.boxes, k), list)
  }

  lemma NothingFreed(tx: Tx)
    ensures BoxesAfterFree(tx, tx, [])
  {
    forall k: Key
      ensures At(tx.boxes, k) == Without(At(tx.boxes, k), [])
    {
      WithoutNothing(At(tx.boxes, k));
    }
  }

  lemma {:induction false} FreedBoxes(cfg: TxConfig, tx: Tx, v: nat)
    requires Core(cfg, tx) && OwnerKnown(tx, v) && tx.place[v] != Free
    ensures At(Freed(cfg, tx, v).boxes, FreeList) == At(tx.boxes, FreeList) + [v]
    ensures forall k: Key :: k != FreeList ==> At(Freed(cfg, tx, v).boxes, k) == Removed(At(tx.boxes, k), v)
  {
    assert MsgOk(cfg.maxConns, cfg.maxFlows, tx.msgs[v], tx.place[v]);
    forall k: Key | k != FreeList
      ensures At(Freed(cfg, tx, v).boxes, k) == Removed(At(tx.boxes, k), v)
    {
      if v in At(tx.boxes, k) { InBoxMeans(cfg, tx, k, v); }
    }
  }

  lemma FreeMore(cfg: TxConfig, tx: Tx, tx1: Tx, tx2: Tx, list: seq<nat>)
    requires Core(cfg, tx) && list != [] && OwnerKnown(tx, list[0]) && tx.place[list[0]] != Free
    requires tx1 == Freed(cfg, tx, list[0]) && BoxesAfterFree(tx1, tx2, list[1..])
    ensures BoxesAfterFree(tx, tx2, list)
  {
    var v, rest := list[0], list[1..];
    FreedBoxes(cfg, tx, v);
    assert list == [v] + rest;
    assert forall k: Key :: NoDup(At(tx.boxes, k));
    FreeRestToo(tx, tx1, tx2, v, rest);
  }

  lemma {:induction false} FreeRestToo(tx: Tx, tx1: Tx, tx2: Tx, v: nat, rest: seq<nat>)
    requires forall k: Key :: NoDup(At(tx.boxes, k))
    requires At(tx1.boxes, FreeList) == At(tx.boxes, FreeList) + [v] && BoxesAfterFree(tx1, tx2, rest)
    requires forall k: Key :: k != FreeList ==> At(tx1.boxes, k) == Removed(At(tx.boxes, k), v)
    ensures BoxesAfterFree(tx, tx2, [v] + rest)
  {
    forall k: Key | k != FreeList
      ensures At(tx2.boxes, k) == Without(At(tx.boxes, k), [v] + rest)
    {
      WithoutRemoved(At(tx.boxes, k), v, rest);
    }
    assert At(tx.boxes, FreeList) + [v] + rest == At(tx.boxes, FreeList) + ([v] + rest);
  }

  lemma AllUsedTail(tx: Tx, tx1: Tx, list: seq<nat>)
    requires AllUsed(tx, list) && list != [] && Only(tx, tx1, list[0])
    ensures AllUsed(tx1, list[1..]) && list[0] !in list[1..]
  {
    forall i | 0 <= i < |list[1..]|
      ensures list[1..][i] != list[0]
    {
      assert list[1..][i] == list[i + 1];
    }
  }

  ghost function AllFreed(cfg: TxConfig, n: nat, tx: Tx, list: seq<nat>): (tx': Tx)
    requires Loose(cfg, tx, n) && AllUsed(tx, list)
    ensures Loose(cfg, tx', n) && OnlyIn(tx, tx', list) && BoxesAfterFree(tx, tx', list)
    ensures forall v :: v in list ==> tx'.place[v].Free? && tx'.msgs[v] == NoMsg
    decreases |list|
  {
    if list == [] then
      NothingFreed(tx);
      tx
    else
      FreedLoose(cfg, n, tx, list[0]);
      var tx1 := Freed(cfg, tx, list[0]);
      AllUsedTail(tx, tx1, list);
      var tx2 := AllFreed(cfg, n, tx1, list[1..]);
      OnlyThenIn(tx, tx1, tx2, list);
      FreeMore(cfg, tx, tx1, tx2, list);
      tx2
  }

  // ----- admission -------------------------------------------------------------------------------

  datatype SendOpts = SendOpts(rel: Reliability, flow: nat, channel: nat, priority: nat, replaceKey: uint32,
                               deadlineMs: uint32)

  datatype SendResult = Accepted | QueueFull | RateLimited | Unusable

  /** The configuration the receiving end shares. */
  function Shared(cfg: TxConfig): Config {
    Config(cfg.maxConns, cfg.maxFlows, cfg.maxChannels, 1, 0, 0, cfg.framePayload, cfg.maxPayload, 0)
  }

  function RingKind(rel: Reliability): Kind { if IsReliable(rel) then Rel else Unrel }

  /** `opts_replace_unreliable` */
  predicate ReplacesUnsent(o: SendOpts) {
    !IsReliable(o.rel) && (o.replaceKey != 0 || o.rel.UnreliableSequenced?)
  }

  /** `msg_matches_replacement` */
  predicate Matches(m: Msg, o: SendOpts) {
    m.used && m.flow == o.flow && m.channel == o.channel && m.rel == o.rel && m.replaceKey == o.replaceKey
  }

  predicate ListValid(tx: Tx, list: seq<nat>) { forall i :: 0 <= i < |list| ==> list[i] < |tx.msgs| }

  /** The queued messages the new one replaces, in ring order. */
  function Replaced(tx: Tx, list: seq<nat>, o: SendOpts): (r: seq<nat>)
    requires ListValid(tx, list)
    ensures forall v :: v in r <==> v in list && ReplacesUnsent(o) && Matches(tx.msgs[v], o)
    ensures ListValid(tx, r)
  {
    if list == [] then []
    else (if ReplacesUnsent(o) && Matches(tx.msgs[list[0]], o) then [list[0]] else []) + Replaced(tx, list[1..], o)
  }

  lemma {:induction false} ReplacedNoDup(tx: Tx, list: seq<nat>, o: SendOpts)
    requires ListValid(tx, list) && NoDup(list)
    ensures NoDup(Replaced(tx, list, o))
  {
    if list != [] {
      assert forall k :: 0 < k < |list| ==> list[k] != list[0];
      ReplacedNoDup(tx, list[1..], o);
    }
  }

  /** The byte sum of `measure_replaced_unreliable`. */
  function BytesOf(tx: Tx, list: seq<nat>): uint32
    requires ListValid(tx, list)
  {
    if list == [] then 0
    else AddSat(BytesOf(tx, list[..|list| - 1]), |tx.msgs[list[|list| - 1]].payload|)
  }

  function UnrelRing(tx: Tx, c: nat, o: SendOpts): seq<nat> { At(tx.boxes, Ring(c, o.flow, Unrel)) }

  /** The limit of `max_queue_bytes`, UINT32_MAX for none. */
  predicate WithinQueueBytes(fl: FlowTx, replacedBytes: uint32, len: nat) {
    fl.maxQueueBytes == UINT32_MAX
    || (var after := if fl.queuedBytes > replacedBytes then fl.queuedBytes - replacedBytes else 0;
        after <= fl.maxQueueBytes && len <= fl.maxQueueBytes - after)
  }

  /** The checks of `rudp_send` before it changes anything, in their order. */
  function Refusal(cfg: TxConfig, tx: Tx, c: nat, len: nat, o: SendOpts): Option<SendResult>
    requires ValidTx(cfg) && c < |tx.conns| && |tx.conns[c].flows| == cfg.maxFlows
    requires o.flow < cfg.maxFlows ==> ListValid(tx, UnrelRing(tx, c, o))
  {
    if !tx.conns[c].active then Some(Unusable)
    else if o.flow >= cfg.maxFlows || o.channel >= cfg.maxChannels || len > cfg.maxPayload then Some(QueueFull)
    else
      var fl := tx.conns[c].flows[o.flow];
      var frags := FragCount(Shared(cfg), len);
      var replaced := Replaced(tx, UnrelRing(tx, c, o), o);
      var ring := At(tx.boxes, Ring(c, o.flow, RingKind(o.rel)));
      if fl.maxBps == 0 then Some(RateLimited)
      else if frags > MAX_FRAGS then Some(QueueFull)
      else if (fl.maxQueueBytes != UINT32_MAX && len > fl.maxQueueBytes)
              || frags > cfg.maxMessages || frags > cfg.ringCap - 1 then Some(QueueFull)
      else if !WithinQueueBytes(fl, BytesOf(tx, replaced), len) then Some(QueueFull)
      else if |At(tx.boxes, FreeList)| + |replaced| < frags then Some(QueueFull)
      else if (if cfg.ringCap > |ring| then cfg.ringCap - |ring| - 1 else 0) + |replaced| < frags then Some(QueueFull)
      else None
  }

  // ----- between flushes -------------------------------------------------------------------------

  /** The invariant outside a flush: nothing is in the batch or in an operation's hands. */
  ghost predicate Idle(cfg: TxConfig, tx: Tx) {
    && Loose(cfg, tx, 0) && tx.batch == []
    && forall v :: 0 <= v < |tx.msgs| ==> tx.place[v].Free? || tx.place[v].Queued? || tx.place[v].Flight?
  }

  lemma {:induction false} IdleRings(cfg: TxConfig, tx: Tx, c: nat, f: nat, kind: Kind)
    requires Idle(cfg, tx)
    ensures ListValid(tx, At(tx.boxes, Ring(c, f, kind))) && NoDup(At(tx.boxes, Ring(c, f, kind)))
    ensures Total(RingLoad(c, f, kind), tx.msgs, tx.place) == |At(tx.boxes, Ring(c, f, kind))|
    ensures NothingOut(tx, c)
  {
    var list := At(tx.boxes, Ring(c, f, kind));
    forall i | 0 <= i < |list|
      ensures list[i] < |tx.msgs|
    {
      InBoxMeans(cfg, tx, Ring(c, f, kind), list[i]);
    }
    RingLengthExact(cfg, tx, c, f, kind);
  }

  lemma IdleAfterFree(cfg: TxConfig, tx: Tx, tx': Tx, list: seq<nat>)
    requires Idle(cfg, tx) && Loose(cfg, tx', 0) && OnlyIn(tx, tx', list)
    requires forall v :: v in list && v < |tx.msgs| ==> tx'.place[v].Free?
    ensures Idle(cfg, tx')
  {
  }

  /** `drop_replaced_unreliable` */
  ghost function ReplacedDropped(cfg: TxConfig, tx: Tx, c: nat, o: SendOpts): (tx': Tx)
    requires Idle(cfg, tx)
    ensures ListValid(tx, UnrelRing(tx, c, o))
    ensures Idle(cfg, tx') && OnlyIn(tx, tx', Replaced(tx, UnrelRing(tx, c, o), o))
    ensures BoxesAfterFree(tx, tx', Replaced(tx, UnrelRing(tx, c, o), o))
    ensures forall v :: v in Replaced(tx, UnrelRing(tx, c, o), o) ==> v < |tx'.place| && tx'.place[v].Free?
  {
    IdleRings(cfg, tx, c, o.flow, Unrel);
    var list := Replaced(tx, UnrelRing(tx, c, o), o);
    ReplacedUsed(cfg, tx, c, o);
    var tx' := AllFreed(cfg, 0, tx, list);
    IdleAfterFree(cfg, tx, tx', list);
    tx'
  }

  lemma {:induction false} ReplacedUsed(cfg: TxConfig, tx: Tx, c: nat, o: SendOpts)
    requires Idle(cfg, tx) && ListValid(tx, UnrelRing(tx, c, o)) && NoDup(UnrelRing(tx, c, o))
    ensures AllUsed(tx, Replaced(tx, UnrelRing(tx, c, o), o))
  {
    var ring := UnrelRing(tx, c, o);
    var list := Replaced(tx, ring, o);
    ReplacedNoDup(tx, ring, o);
    forall i | 0 <= i < |list|
      ensures list[i] < |tx.msgs| && tx.place[list[i]] != Free
    {
      assert list[i] in list;
      InBoxMeans(cfg, tx, Ring(c, o.flow, Unrel), list[i]);
    }
  }

  /** After the admission checks and the replacement there are enough free slots and there is enough
      room in the ring: neither the allocation nor the push of any fragment can fail. */
  lemma NoLateFailure(cfg: TxConfig, tx: Tx, c: nat, len: nat, o: SendOpts)
    requires Idle(cfg, tx) && c < cfg.maxConns
    ensures ListValid(tx, UnrelRing(tx, c, o))
    ensures Refusal(cfg, tx, c, len, o) == None ==>
      var tx1 := ReplacedDropped(cfg, tx, c, o);
      var frags := FragCount(Shared(cfg), len);
      && frags <= |At(tx1.boxes, FreeList)|
      && |At(tx1.boxes, Ring(c, o.flow, RingKind(o.rel)))| + frags < cfg.ringCap
  {
    IdleRings(cfg, tx, c, o.flow, Unrel);
    if Refusal(cfg, tx, c, len, o) == None {
      var tx1 := ReplacedDropped(cfg, tx, c, o);
      DropMakesRoom(cfg, tx, tx1, c, o);
      AdmittedFits(cfg, tx, c, len, o);
    }
  }

  /** What the last two admission checks say about an idle endpoint. */
  lemma {:induction false} AdmittedFits(cfg: TxConfig, tx: Tx, c: nat, len: nat, o: SendOpts)
    requires Idle(cfg, tx) && c < cfg.maxConns && ListValid(tx, UnrelRing(tx, c, o))
    requires Refusal(cfg, tx, c, len, o) == None
    ensures var frags, n := FragCount(Shared(cfg), len), |Replaced(tx, UnrelRing(tx, c, o), o)|;
      && frags <= |At(tx.boxes, FreeList)| + n
      && |At(tx.boxes, Ring(c, o.flow, RingKind(o.rel)))| + frags < cfg.ringCap + n
  {
    IdleRings(cfg, tx, c, o.flow, RingKind(o.rel));
    assert |At(tx.boxes, Ring(c, o.flow, RingKind(o.rel)))| < cfg.ringCap;
  }

  lemma {:induction false} ReliableReplacesNothing(tx: Tx, list: seq<nat>, o: SendOpts)
    requires ListValid(tx, list) && IsReliable(o.rel)
    ensures Replaced(tx, list, o) == []
  {
    if list != [] { ReliableReplacesNothing(tx, list[1..], o); }
  }

  /** The ring of the new message loses exactly the replaced ones. */
  lemma {:induction false} DropMakesRoom(cfg: TxConfig, tx: Tx, tx1: Tx, c: nat, o: SendOpts)
    requires Core(cfg, tx) && ListValid(tx, UnrelRing(tx, c, o))
    requires BoxesAfterFree(tx, tx1, Replaced(tx, UnrelRing(tx, c, o), o))
    ensures var k, n := Ring(c, o.flow, RingKind(o.rel)), |Replaced(tx, UnrelRing(tx, c, o), o)|;
      |At(tx1.boxes, k)| + n == |At(tx.boxes, k)| && |At(tx1.boxes, FreeList)| == |At(tx.boxes, FreeList)| + n
  {
    var list := Replaced(tx, UnrelRing(tx, c, o), o);
    if IsReliable(o.rel) {
      ReliableReplacesNothing(tx, UnrelRing(tx, c, o), o);
      WithoutNothing(At(tx.boxes, Ring(c, o.flow, Rel)));
    } else {
      assert NoDup(UnrelRing(tx, c, o));
      ReplacedNoDup(tx, UnrelRing(tx, c, o), o);
      WithoutCount(UnrelRing(tx, c, o), list);
    }
  }

  // ----- the fragments are taken from the pool ---------------------------------------------------

  function SaturatingAdd(a: uint64, b: nat): uint64 { if a + b > UINT64_MAX then UINT64_MAX else a + b }

  const NS_PER_MS: nat := 1_000_000

  /** The earlier of the message's own deadline and the flow's; 0 for none. */
  function DeadlineOf(now: uint64, o: SendOpts, fl: FlowTx): uint64 {
    var own: uint64 := if o.deadlineMs != 0 then SaturatingAdd(now, o.deadlineMs * NS_PER_MS) else 0;
    if fl.maxDelayMs == 0 then own
    else
      var flow := SaturatingAdd(now, fl.maxDelayMs * NS_PER_MS);
      if own == 0 || flow < own then flow else own
  }

  function ChannelNumber(cn: ConnTx, o: SendOpts): uint16
    requires o.channel < |cn.orderedSeq|
  {
    if o.rel.ReliableOrdered? then cn.orderedSeq[o.channel]
    else if o.rel.UnreliableSequenced? then
      (if (o.flow, o.channel) in cn.sequencedSeq then cn.sequencedSeq[(o.flow, o.channel)] else 0)
    else 0
  }

  /** The i-th fragment as it lies in the pool. */
  function FragMsg(cfg: TxConfig, cn: ConnTx, c: nat, data: Bytes, o: SendOpts, now: uint64, i: nat): (m: Msg)
    requires ValidTx(cfg) && o.flow < |cn.flows| && o.channel < |cn.orderedSeq|
    requires i < FragCount(Shared(cfg), |data|)
    ensures c < cfg.maxConns && o.flow < cfg.maxFlows ==> FreshMsg(cfg, m)
    ensures m.priority == o.priority && m.queuedKind == Some(RingKind(o.rel))
  {
    Msg(true, false, Some(RingKind(o.rel)), o.priority, [], 0, o.rel, c, o.flow, o.channel,
        ChannelNumber(cn, o), i, FragCount(Shared(cfg), |data|), cn.nextMsgId, o.replaceKey, 0,
        DeadlineOf(now, o, cn.flows[o.flow]), FragPayload(Shared(cfg), data, i), {})
  }

  /** Slots vs hold the messages ms, on their way to a ring; they were free before. */
  ghost predicate Taken(tx: Tx, tx': Tx, vs: seq<nat>, ms: seq<Msg>) {
    && |vs| == |ms| && NoDup(vs)
    && |tx'.msgs| == |tx.msgs| == |tx.place| == |tx'.place|
    && (forall i :: 0 <= i < |vs| ==> vs[i] < |tx.msgs| && tx.place[vs[i]].Free?)
    && (forall i :: 0 <= i < |vs| ==>
          tx'.msgs[vs[i]] == ms[i] && tx'.place[vs[i]].Fresh? && ms[i].queuedKind == Some(tx'.place[vs[i]].kind))
    && OnlyIn(tx, tx', vs) && tx'.conns == tx.conns
    && (forall k: Key :: k != FreeList ==> At(tx'.boxes, k) == At(tx.boxes, k))
    && |At(tx'.boxes, FreeList)| + |vs| == |At(tx.boxes, FreeList)|
  }

  lemma AllocatedTakes(cfg: TxConfig, tx: Tx, m: Msg) returns (v: nat)
    requires Core(cfg, tx) && FreshMsg(cfg, m) && At(tx.boxes, FreeList) != []
    ensures At(tx.boxes, FreeList)[|At(tx.boxes, FreeList)| - 1] == v && v < |tx.msgs|
    ensures Taken(tx, Allocated(tx, m), [v], [m])
  {
    v := TopOfFree(cfg, tx);
  }

  lemma TakenMore(tx: Tx, tx1: Tx, tx2: Tx, v: nat, m: Msg, vs: seq<nat>, ms: seq<Msg>)
    requires Taken(tx, tx1, [v], [m]) && Taken(tx1, tx2, vs, ms)
    ensures Taken(tx, tx2, [v] + vs, [m] + ms)
  {
    assert [v][0] == v;
    assert forall i :: 0 <= i < |vs| ==> vs[i] != v;
  }

  function TopFree(tx: Tx): nat
    requires At(tx.boxes, FreeList) != []
  {
    At(tx.boxes, FreeList)[|At(tx.boxes, FreeList)| - 1]
  }

  ghost function OneTaken(cfg: TxConfig, tx: Tx, m: Msg): (tx': Tx)
    requires Loose(cfg, tx, 0) && FreshMsg(cfg, m) && At(tx.boxes, FreeList) != []
    ensures Loose(cfg, tx', 0) && Taken(tx, tx', [TopFree(tx)], [m])
  {
    AllocatedLoose(cfg, 0, tx, m);
    TakenFirst(cfg, tx, m);
    Allocated(tx, m)
  }

  lemma TakenFirst(cfg: TxConfig, tx: Tx, m: Msg)
    requires Core(cfg, tx) && FreshMsg(cfg, m) && At(tx.boxes, FreeList) != []
    ensures TopFree(tx) < |tx.msgs|
    ensures Taken(tx, Allocated(tx, m), [TopFree(tx)], [m])
  {
    var v := AllocatedTakes(cfg, tx, m);
  }

  lemma TakenThen(tx: Tx, tx1: Tx, tx2: Tx, v: nat, vs: seq<nat>, ms: seq<Msg>)
    requires ms != [] && Taken(tx, tx1, [v], [ms[0]]) && Taken(tx1, tx2, vs, ms[1..])
    ensures Taken(tx, tx2, [v] + vs, ms)
  {
    TakenMore(tx, tx1, tx2, v, ms[0], vs, ms[1..]);
    assert [ms[0]] + ms[1..] == ms;
  }

  /** The allocation loop. */
  ghost function AllTaken(cfg: TxConfig, tx: Tx, ms: seq<Msg>): (r: (Tx, seq<nat>))
    requires Loose(cfg, tx, 0) && |ms| <= |At(tx.boxes, FreeList)|
    requires forall i :: 0 <= i < |ms| ==> FreshMsg(cfg, ms[i])
    ensures Loose(cfg, r.0, 0) && Taken(tx, r.0, r.1, ms)
    decreases |ms|
  {
    if ms == [] then (tx, [])
    else
      var tx1 := OneTaken(cfg, tx, ms[0]);
      var r := AllTaken(cfg, tx1, ms[1..]);
      TakenThen(tx, tx1, r.0, TopFree(tx), r.1, ms);
      (r.0, [TopFree(tx)] + r.1)
  }

  // ----- the fragments are pushed ----------------------------------------------------------------

  /** The push loop on a ring. */
  function AllInserted(msgs: seq<Msg>, s: seq<nat>, vs: seq<nat>): (r: seq<nat>)
    requires (forall i :: 0 <= i < |s| ==> s[i] < |msgs|) && (forall i :: 0 <= i < |vs| ==> vs[i] < |msgs|)
    ensures |r| == |s| + |vs|
    ensures forall w :: w in r <==> w in s || w in vs
    decreases |vs|
  {
    if vs == [] then s
    else
      var s1 := InsertByPriority(msgs, s, vs[0]);
      assert forall i :: 0 <= i < |s1| ==> s1[i] in s1;
      AllInserted(msgs, s1, vs[1..])
  }

  ghost predicate AllFresh(tx: Tx, c: nat, f: nat, kind: Kind, vs: seq<nat>) {
    && |tx.place| == |tx.msgs| && NoDup(vs)
    && forall i :: 0 <= i < |vs| ==>
         && vs[i] < |tx.msgs| && tx.place[vs[i]] == Fresh(kind)
         && tx.msgs[vs[i]].owner == c && tx.msgs[vs[i]].flow == f && RingKind(tx.msgs[vs[i]].rel) == kind
  }

  lemma AllFreshTail(tx: Tx, tx1: Tx, c: nat, f: nat, kind: Kind, vs: seq<nat>)
    requires AllFresh(tx, c, f, kind, vs) && vs != [] && Only(tx, tx1, vs[0])
    ensures AllFresh(tx1, c, f, kind, vs[1..]) && vs[0] !in vs[1..]
  {
    forall i | 0 <= i < |vs[1..]|
      ensures vs[1..][i] != vs[0]
    {
      assert vs[1..][i] == vs[i + 1];
    }
  }

  /** The listed slots went from the sender's hands to their ring, the messages unchanged. */
  ghost predicate Pushed(tx: Tx, tx': Tx, c: nat, f: nat, kind: Kind, vs: seq<nat>) {
    && tx'.msgs == tx.msgs && OnlyIn(tx, tx', vs)
    && (forall i :: 0 <= i < |vs| ==> vs[i] < |tx'.place| && tx'.place[vs[i]] == Queued(kind))
    && ListValid(tx, At(tx.boxes, Ring(c, f, kind))) && ListValid(tx, vs)
    && At(tx'.boxes, Ring(c, f, kind)) == AllInserted(tx.msgs, At(tx.boxes, Ring(c, f, kind)), vs)
    && forall k: Key :: k != Ring(c, f, kind) ==> At(tx'.boxes, k) == At(tx.boxes, k)
  }

  ghost function OnePushed(cfg: TxConfig, tx: Tx, c: nat, f: nat, kind: Kind, v: nat): (tx': Tx)
    requires Loose(cfg, tx, 0) && AllFresh(tx, c, f, kind, [v])
    requires Total(RingLoad(c, f, kind), tx.msgs, tx.place) + 1 < cfg.ringCap
    ensures Loose(cfg, tx', 0) && Only(tx, tx', v) && Pushed(tx, tx', c, f, kind, [v])
    ensures Total(RingLoad(c, f, kind), tx'.msgs, tx'.place) == Total(RingLoad(c, f, kind), tx.msgs, tx.place) + 1
  {
    assert [v][0] == v;
    QueuedUpLoose(cfg, 0, tx, v);
    QueuedEffect(cfg, tx, c, f, kind, v);
    QueuedLoad(cfg, tx, c, f, kind, v);
    QueuedUp(cfg, tx, v)
  }

  lemma {:induction false} InsertOne(msgs: seq<Msg>, s: seq<nat>, v: nat)
    requires v < |msgs| && forall i :: 0 <= i < |s| ==> s[i] < |msgs|
    ensures AllInserted(msgs, s, [v]) == InsertByPriority(msgs, s, v)
  {
    assert [v][1..] == [];
  }

  lemma QueuedEffect(cfg: TxConfig, tx: Tx, c: nat, f: nat, kind: Kind, v: nat)
    requires 0 < cfg.slots && OwnerKnown(tx, v) && tx.place[v] == Fresh(kind)
    requires tx.msgs[v].owner == c && tx.msgs[v].flow == f
    requires RingValid(tx, tx.boxes, Ring(c, f, kind)) && Only(tx, QueuedUp(cfg, tx, v), v)
    ensures Pushed(tx, QueuedUp(cfg, tx, v), c, f, kind, [v])
  {
    InsertOne(tx.msgs, At(tx.boxes, Ring(c, f, kind)), v);
  }

  lemma {:induction false} QueuedLoad(cfg: TxConfig, tx: Tx, c: nat, f: nat, kind: Kind, v: nat)
    requires 0 < cfg.slots && OwnerKnown(tx, v) && tx.place[v] == Fresh(kind)
    requires tx.msgs[v].owner == c && tx.msgs[v].flow == f
    requires RingValid(tx, tx.boxes, Ring(c, f, kind))
    ensures var tx' := QueuedUp(cfg, tx, v);
      |tx'.msgs| == |tx'.place|
      && Total(RingLoad(c, f, kind), tx'.msgs, tx'.place) == Total(RingLoad(c, f, kind), tx.msgs, tx.place) + 1
  {
    TotalUpdate(RingLoad(c, f, kind), tx.msgs, tx.place, v, tx.msgs[v], Queued(kind));
  }

  lemma PushedMore(tx: Tx, tx1: Tx, tx2: Tx, c: nat, f: nat, kind: Kind, vs: seq<nat>)
    requires vs != [] && NoDup(vs) && Pushed(tx, tx1, c, f, kind, [vs[0]]) && Only(tx, tx1, vs[0])
    requires Pushed(tx1, tx2, c, f, kind, vs[1..]) && vs[0] !in vs[1..]
    ensures Pushed(tx, tx2, c, f, kind, vs)
  {
    assert vs == [vs[0]] + vs[1..];
    OnlyThenIn(tx, tx1, tx2, vs);
    InsertOne(tx.msgs, At(tx.boxes, Ring(c, f, kind)), vs[0]);
  }

  ghost function AllPushed(cfg: TxConfig, tx: Tx, c: nat, f: nat, kind: Kind, vs: seq<nat>): (tx': Tx)
    requires Loose(cfg, tx, 0) && AllFresh(tx, c, f, kind, vs)
    requires Total(RingLoad(c, f, kind), tx.msgs, tx.place) + |vs| < cfg.ringCap
    ensures Loose(cfg, tx', 0) && Pushed(tx, tx', c, f, kind, vs)
    decreases |vs|
  {
    if vs == [] then
      NothingPushed(cfg, tx, c, f, kind);
      tx
    else
      assert AllFresh(tx, c, f, kind, [vs[0]]);
      var tx1 := OnePushed(cfg, tx, c, f, kind, vs[0]);
      AllFreshTail(tx, tx1, c, f, kind, vs);
      var tx2 := AllPushed(cfg, tx1, c, f, kind, vs[1..]);
      PushedMore(tx, tx1, tx2, c, f, kind, vs);
      tx2
  }

  lemma NothingPushed(cfg: TxConfig, tx: Tx, c: nat, f: nat, kind: Kind)
    requires Core(cfg, tx)
    ensures Pushed(tx, tx, c, f, kind, [])
  {
    var list := At(tx.boxes, Ring(c, f, kind));
    forall i | 0 <= i < |list|
      ensures list[i] < |tx.msgs|
    {
      InBoxMeans(cfg, tx, Ring(c, f, kind), list[i]);
    }
  }

  // ----- the whole call --------------------------------------------------------------------------

  function FragMsgs(cfg: TxConfig, cn: ConnTx, c: nat, data: Bytes, o: SendOpts, now: uint64): (ms: seq<Msg>)
    requires ValidTx(cfg) && o.flow < |cn.flows| && o.channel < |cn.orderedSeq|
    ensures |ms| == FragCount(Shared(cfg), |data|)
    ensures forall i :: 0 <= i < |ms| ==> ms[i] == FragMsg(cfg, cn, c, data, o, now, i)
  {
    seq(FragCount(Shared(cfg), |data|), i requires 0 <= i < FragCount(Shared(cfg), |data|) =>
      FragMsg(cfg, cn, c, data, o, now, i))
  }

  /** The message id and the channel number are used up. */
  function Numbered(cn: ConnTx, o: SendOpts): ConnTx
    requires o.channel < |cn.orderedSeq|
  {
    var next := Inc16(ChannelNumber(cn, o));
    var cn1 := cn.(nextMsgId := Wrap32(cn.nextMsgId + 1));
    if o.rel.ReliableOrdered? then cn1.(orderedSeq := cn.orderedSeq[o.channel := next])
    else if o.rel.UnreliableSequenced? then cn1.(sequencedSeq := cn.sequencedSeq[(o.flow, o.channel) := next])
    else cn1
  }

  /** The messages ms are in the slots vs, which were free or held a replaced message. */
  ghost predicate SlotsEnqueued(tx: Tx, tx': Tx, replaced: seq<nat>, vs: seq<nat>, ms: seq<Msg>, kind: Kind) {
    && |tx'.msgs| == |tx.msgs| == |tx.place| == |tx'.place| && ListValid(tx, vs) && NoDup(vs) && |vs| == |ms|
    && (forall i :: 0 <= i < |vs| ==>
          && (tx.place[vs[i]].Free? || vs[i] in replaced)
          && tx'.msgs[vs[i]] == ms[i] && tx'.place[vs[i]] == Queued(kind))
    && (forall v :: 0 <= v < |tx.msgs| && v in replaced && v !in vs ==> tx'.place[v].Free?)
    && (forall v :: 0 <= v < |tx.msgs| && v !in vs && v !in replaced ==>
          tx'.msgs[v] == tx.msgs[v] && tx'.place[v] == tx.place[v])
  }

  /** Ring k lost the replaced messages and got the new ones by priority; no other list changed. */
  ghost predicate RingEnqueued(tx: Tx, tx': Tx, k: Key, replaced: seq<nat>, vs: seq<nat>) {
    && (forall j: Key :: j != k && j != FreeList ==> At(tx'.boxes, j) == At(tx.boxes, j))
    && ListValid(tx', Without(At(tx.boxes, k), replaced)) && ListValid(tx', vs)
    && At(tx'.boxes, k) == AllInserted(tx'.msgs, Without(At(tx.boxes, k), replaced), vs)
  }

  /** What an accepted message did: the replaced messages are gone, the fragments are in the slots vs
      and were inserted, in order, into the ring; nothing else but the numbering changed. */
  ghost predicate SubmitEffect(cfg: TxConfig, tx: Tx, tx': Tx, c: nat, data: Bytes, o: SendOpts, now: uint64,
                           vs: seq<nat>) {
    && ValidTx(cfg) && TxShape(cfg, tx) && |tx'.conns| == |tx.conns|
    && c < cfg.maxConns && o.flow < cfg.maxFlows && o.channel < cfg.maxChannels
    && ListValid(tx, UnrelRing(tx, c, o))
    && var replaced := Replaced(tx, UnrelRing(tx, c, o), o);
    && SlotsEnqueued(tx, tx', replaced, vs, FragMsgs(cfg, tx.conns[c], c, data, o, now), RingKind(o.rel))
    && RingEnqueued(tx, tx', Ring(c, o.flow, RingKind(o.rel)), replaced, vs)
    && tx'.sent == tx.sent && tx'.batch == tx.batch
    && (forall d :: 0 <= d < cfg.maxConns ==>
          SameNumbering(if d == c then Numbered(tx.conns[c], o) else tx.conns[d], tx'.conns[d]))
  }

  lemma {:induction false} PushReady(cfg: TxConfig, tx1: Tx, tx2: Tx, c: nat, o: SendOpts, vs: seq<nat>, ms: seq<Msg>)
    requires Idle(cfg, tx1) && Loose(cfg, tx2, 0) && Taken(tx1, tx2, vs, ms)
    requires forall i :: 0 <= i < |ms| ==>
      ms[i].owner == c && ms[i].flow == o.flow && ms[i].rel == o.rel && ms[i].queuedKind == Some(RingKind(o.rel))
    requires |At(tx1.boxes, Ring(c, o.flow, RingKind(o.rel)))| + |ms| < cfg.ringCap
    ensures AllFresh(tx2, c, o.flow, RingKind(o.rel), vs)
    ensures Total(RingLoad(c, o.flow, RingKind(o.rel)), tx2.msgs, tx2.place) + |vs| < cfg.ringCap
  {
    assert NothingOut(tx2, c) by {
      forall v | 0 <= v < |tx2.msgs| && tx2.msgs[v].owner == c
        ensures !Outgoing(tx2.place[v])
      {
        if v in vs {
          var i :| 0 <= i < |vs| && vs[i] == v;
        }
      }
    }
    RingLengthExact(cfg, tx2, c, o.flow, RingKind(o.rel));
  }

  /** The fragments of an admitted message are in the pool, and there is room for them in the ring. */
  ghost function FragsTaken(cfg: TxConfig, tx: Tx, c: nat, data: Bytes, o: SendOpts, now: uint64): (r: (Tx, seq<nat>))
    requires Idle(cfg, tx) && c < cfg.maxConns && ListValid(tx, UnrelRing(tx, c, o))
    requires Refusal(cfg, tx, c, |data|, o) == None
    ensures Loose(cfg, r.0, 0)
    ensures Taken(ReplacedDropped(cfg, tx, c, o), r.0, r.1, FragMsgs(cfg, tx.conns[c], c, data, o, now))
    ensures AllFresh(r.0, c, o.flow, RingKind(o.rel), r.1)
    ensures Total(RingLoad(c, o.flow, RingKind(o.rel)), r.0.msgs, r.0.place) + |r.1| < cfg.ringCap
  {
    NoLateFailure(cfg, tx, c, |data|, o);
    var tx1 := ReplacedDropped(cfg, tx, c, o);
    var ms := FragMsgs(cfg, tx.conns[c], c, data, o, now);
    var (tx2, vs) := AllTaken(cfg, tx1, ms);
    PushReady(cfg, tx1, tx2, c, o, vs, ms);
    (tx2, vs)
  }

  ghost predicate FragsInRing(cfg: TxConfig, tx: Tx, tx3: Tx, c: nat, data: Bytes, o: SendOpts, now: uint64,
                              vs: seq<nat>)
    requires ValidTx(cfg) && c < |tx.conns| && o.flow < |tx.conns[c].flows| && o.channel < |tx.conns[c].orderedSeq|
    requires ListValid(tx, UnrelRing(tx, c, o))
  {
    && SlotsEnqueued(tx, tx3, Replaced(tx, UnrelRing(tx, c, o), o), vs,
                     FragMsgs(cfg, tx.conns[c], c, data, o, now), RingKind(o.rel))
    && RingEnqueued(tx, tx3, Ring(c, o.flow, RingKind(o.rel)), Replaced(tx, UnrelRing(tx, c, o), o), vs)
    && |tx3.conns| == |tx.conns| && tx3.sent == tx.sent && tx3.batch == tx.batch
    && forall d :: 0 <= d < |tx.conns| ==> SameNumbering(tx.conns[d], tx3.conns[d])
  }

  lemma {:induction false} FragsEffect(cfg: TxConfig, tx: Tx, tx1: Tx, tx2: Tx, tx3: Tx, c: nat, data: Bytes,
                                       o: SendOpts, now: uint64, vs: seq<nat>)
    requires Core(cfg, tx) && c < cfg.maxConns && o.flow < cfg.maxFlows && o.channel < cfg.maxChannels
    requires ListValid(tx, UnrelRing(tx, c, o))
    requires OnlyIn(tx, tx1, Replaced(tx, UnrelRing(tx, c, o), o))
    requires BoxesAfterFree(tx, tx1, Replaced(tx, UnrelRing(tx, c, o), o))
    requires forall v :: v in Replaced(tx, UnrelRing(tx, c, o), o) ==> v < |tx1.place| && tx1.place[v].Free?
    requires Taken(tx1, tx2, vs, FragMsgs(cfg, tx.conns[c], c, data, o, now))
    requires Pushed(tx2, tx3, c, o.flow, RingKind(o.rel), vs)
    ensures FragsInRing(cfg, tx, tx3, c, data, o, now, vs)
  {
    var ms := FragMsgs(cfg, tx.conns[c], c, data, o, now);
    ReplacedOnlyThere(cfg, tx, c, o);
    SlotsIntro(tx, tx1, tx2, tx3, c, o.flow, RingKind(o.rel), Replaced(tx, UnrelRing(tx, c, o), o), vs, ms);
    RingIntro(tx, tx1, tx2, tx3, c, o, vs, ms);
    ConnsChain(tx, tx1, tx2, tx3);
  }

  ghost function FragsQueued(cfg: TxConfig, tx: Tx, c: nat, data: Bytes, o: SendOpts, now: uint64): (r: (Tx, seq<nat>))
    requires Idle(cfg, tx) && c < cfg.maxConns && ListValid(tx, UnrelRing(tx, c, o))
    requires Refusal(cfg, tx, c, |data|, o) == None
    ensures Idle(cfg, r.0) && FragsInRing(cfg, tx, r.0, c, data, o, now, r.1)
  {
    var (tx2, vs) := FragsTaken(cfg, tx, c, data, o, now);
    var tx3 := AllPushed(cfg, tx2, c, o.flow, RingKind(o.rel), vs);
    FragsEffect(cfg, tx, ReplacedDropped(cfg, tx, c, o), tx2, tx3, c, data, o, now, vs);
    IdleAfterFrags(cfg, tx, tx3, c, data, o, now, vs);
    (tx3, vs)
  }

  lemma IdleAfterFrags(cfg: TxConfig, tx: Tx, tx3: Tx, c: nat, data: Bytes, o: SendOpts, now: uint64, vs: seq<nat>)
    requires Idle(cfg, tx) && Loose(cfg, tx3, 0) && c < cfg.maxConns && o.flow < cfg.maxFlows
    requires o.channel < cfg.maxChannels
    requires ListValid(tx, UnrelRing(tx, c, o)) && FragsInRing(cfg, tx, tx3, c, data, o, now, vs)
    ensures Idle(cfg, tx3)
  {
    IdleAfterPush(cfg, tx, tx3, Replaced(tx, UnrelRing(tx, c, o), o), vs,
                  FragMsgs(cfg, tx.conns[c], c, data, o, now), RingKind(o.rel));
  }

  lemma IdleAfterPush(cfg: TxConfig, tx: Tx, tx3: Tx, replaced: seq<nat>, vs: seq<nat>, ms: seq<Msg>, kind: Kind)
    requires Idle(cfg, tx) && Loose(cfg, tx3, 0) && SlotsEnqueued(tx, tx3, replaced, vs, ms, kind)
    requires tx3.batch == tx.batch
    ensures Idle(cfg, tx3)
  {
    forall v | 0 <= v < |tx3.msgs|
      ensures tx3.place[v].Free? || tx3.place[v].Queued? || tx3.place[v].Flight?
    {
      if v in vs {
        var i :| 0 <= i < |vs| && vs[i] == v;
      }
    }
  }

  lemma ConnsChain(tx: Tx, tx1: Tx, tx2: Tx, tx3: Tx)
    requires |tx.conns| == |tx1.conns| == |tx2.conns| == |tx3.conns| && tx1.conns == tx2.conns
    requires forall d :: 0 <= d < |tx.conns| ==> SameNumbering(tx.conns[d], tx1.conns[d])
    requires forall d :: 0 <= d < |tx2.conns| ==> SameNumbering(tx2.conns[d], tx3.conns[d])
    ensures forall d :: 0 <= d < |tx.conns| ==> SameNumbering(tx.conns[d], tx3.conns[d])
  {
  }

  function WithNumbers(tx: Tx, c: nat, o: SendOpts): Tx
    requires c < |tx.conns| && o.channel < |tx.conns[c].orderedSeq|
  {
    tx.(conns := tx.conns[c := Numbered(tx.conns[c], o)])
  }

  lemma NumberedSame(cn: ConnTx, cn': ConnTx, o: SendOpts)
    requires o.channel < |cn.orderedSeq| && SameNumbering(cn, cn')
    ensures o.channel < |cn'.orderedSeq| && SameNumbering(Numbered(cn, o), Numbered(cn', o))
  {
  }

  lemma ConnsAfterSend(tx: Tx, tx3: Tx, c: nat, o: SendOpts)
    requires c < |tx.conns| == |tx3.conns| && o.channel < |tx.conns[c].orderedSeq|
    requires forall d :: 0 <= d < |tx.conns| ==> SameNumbering(tx.conns[d], tx3.conns[d])
    ensures o.channel < |tx3.conns[c].orderedSeq|
    ensures forall d :: 0 <= d < |tx.conns| ==>
      SameNumbering(if d == c then Numbered(tx.conns[c], o) else tx.conns[d], WithNumbers(tx3, c, o).conns[d])
  {
    NumberedSame(tx.conns[c], tx3.conns[c], o);
  }

  lemma SlotsIntro(tx: Tx, tx1: Tx, tx2: Tx, tx3: Tx, c: nat, f: nat, kind: Kind, replaced: seq<nat>, vs: seq<nat>,
                   ms: seq<Msg>)
    requires OnlyIn(tx, tx1, replaced) && (forall v :: v in replaced ==> v < |tx1.place| && tx1.place[v].Free?)
    requires Taken(tx1, tx2, vs, ms) && Pushed(tx2, tx3, c, f, kind, vs)
    ensures SlotsEnqueued(tx, tx3, replaced, vs, ms, kind)
  {
    forall i | 0 <= i < |vs|
      ensures tx.place[vs[i]].Free? || vs[i] in replaced
    {
      assert tx1.place[vs[i]].Free?;
    }
  }

  /** The listed slots are in box k only. */
  ghost predicate NowhereElse(tx: Tx, list: seq<nat>, k: Key) {
    forall j: Key, v :: v in list && v in At(tx.boxes, j) ==> j == k
  }

  lemma {:induction false} ReplacedOnlyThere(cfg: TxConfig, tx: Tx, c: nat, o: SendOpts)
    requires Core(cfg, tx) && ListValid(tx, UnrelRing(tx, c, o))
    ensures NowhereElse(tx, Replaced(tx, UnrelRing(tx, c, o), o), Ring(c, o.flow, Unrel))
  {
    var list := Replaced(tx, UnrelRing(tx, c, o), o);
    forall j: Key, v | v in list && v in At(tx.boxes, j)
      ensures j == Ring(c, o.flow, Unrel)
    {
      InBoxMeans(cfg, tx, Ring(c, o.flow, Unrel), v);
      InBoxMeans(cfg, tx, j, v);
    }
  }

  lemma OtherBoxKept(tx: Tx, tx1: Tx, list: seq<nat>, k: Key, j: Key)
    requires NowhereElse(tx, list, k) && BoxesAfterFree(tx, tx1, list) && j != FreeList && (j != k || list == [])
    ensures At(tx1.boxes, j) == At(tx.boxes, j)
  {
    var box := At(tx.boxes, j);
    forall v | v in box
      ensures v !in list
    {
      assert v in list && v in At(tx.boxes, j) ==> j == k;
    }
    WithoutSame(box, list, []);
    WithoutNothing(box);
  }

  lemma {:induction false} RingIntro(tx: Tx, tx1: Tx, tx2: Tx, tx3: Tx, c: nat, o: SendOpts, vs: seq<nat>, ms: seq<Msg>)
    requires ListValid(tx, UnrelRing(tx, c, o))
    requires BoxesAfterFree(tx, tx1, Replaced(tx, UnrelRing(tx, c, o), o))
    requires NowhereElse(tx, Replaced(tx, UnrelRing(tx, c, o), o), Ring(c, o.flow, Unrel))
    requires Taken(tx1, tx2, vs, ms) && Pushed(tx2, tx3, c, o.flow, RingKind(o.rel), vs)
    ensures RingEnqueued(tx, tx3, Ring(c, o.flow, RingKind(o.rel)), Replaced(tx, UnrelRing(tx, c, o), o), vs)
  {
    var k, replaced := Ring(c, o.flow, RingKind(o.rel)), Replaced(tx, UnrelRing(tx, c, o), o);
    if IsReliable(o.rel) {
      ReliableReplacesNothing(tx, UnrelRing(tx, c, o), o);
    }
    forall j: Key | j != k && j != FreeList
      ensures At(tx3.boxes, j) == At(tx.boxes, j)
    {
      OtherBoxKept(tx, tx1, replaced, Ring(c, o.flow, Unrel), j);
    }
  }

  ghost function NumbersUsed(cfg: TxConfig, tx: Tx, c: nat, o: SendOpts): (tx': Tx)
    requires Idle(cfg, tx) && c < cfg.maxConns && o.channel < cfg.maxChannels
    ensures Idle(cfg, tx') && tx' == WithNumbers(tx, c, o)
  {
    ConnEdited(cfg, 0, tx, c, Numbered(tx.conns[c], o));
    WithNumbers(tx, c, o)
  }

  lemma EnqueuedWhole(cfg: TxConfig, tx: Tx, tx3: Tx, c: nat, data: Bytes, o: SendOpts, now: uint64, vs: seq<nat>)
    requires ValidTx(cfg) && TxShape(cfg, tx)
    requires c < cfg.maxConns && o.flow < cfg.maxFlows && o.channel < cfg.maxChannels
    requires ListValid(tx, UnrelRing(tx, c, o)) && FragsInRing(cfg, tx, tx3, c, data, o, now, vs)
    ensures o.channel < |tx3.conns[c].orderedSeq| && SubmitEffect(cfg, tx, WithNumbers(tx3, c, o), c, data, o, now, vs)
  {
    ConnsAfterSend(tx, tx3, c, o);
  }

  ghost function EnqueuedState(cfg: TxConfig, tx: Tx, c: nat, data: Bytes, o: SendOpts,
                               now: uint64): (r: (Tx, seq<nat>))
    requires Idle(cfg, tx) && c < cfg.maxConns && ListValid(tx, UnrelRing(tx, c, o))
    requires Refusal(cfg, tx, c, |data|, o) == None
    ensures Idle(cfg, r.0) && SubmitEffect(cfg, tx, r.0, c, data, o, now, r.1)
  {
    var (tx3, vs) := FragsQueued(cfg, tx, c, data, o, now);
    EnqueuedWhole(cfg, tx, tx3, c, data, o, now, vs);
    (NumbersUsed(cfg, tx3, c, o), vs)
  }

  /** `rudp_send` is all or nothing: a refusal leaves everything as it was, and the checks it comes
      from are the only reason not to enqueue every fragment. */
  ghost function Send(cfg: TxConfig, tx: Tx, c: nat, data: Bytes, o: SendOpts, now: uint64): (r: (Tx, SendResult))
    requires Idle(cfg, tx) && c < cfg.maxConns
    ensures Idle(cfg, r.0)
    ensures ListValid(tx, UnrelRing(tx, c, o))
    ensures r.1 == Accepted <==> Refusal(cfg, tx, c, |data|, o) == None
    ensures r.1 == Accepted ==> exists vs :: SubmitEffect(cfg, tx, r.0, c, data, o, now, vs)
    ensures r.1 != Accepted ==> r.0 == tx
  {
    IdleRings(cfg, tx, c, o.flow, Unrel);
    match Refusal(cfg, tx, c, |data|, o)
    case Some(reason) => (tx, reason)
    case None => (EnqueuedState(cfg, tx, c, data, o, now).0, Accepted)
  }

  // ----- priority order --------------------------------------------------------------------------

  /** Every element has at most the priority of those before it. */
  ghost predicate ByPriority(msgs: seq<Msg>, s: seq<nat>) {
    && (forall i :: 0 <= i < |s| ==> s[i] < |msgs|)
    && forall i, j :: 0 <= i < j < |s| ==> msgs[s[i]].priority >= msgs[s[j]].priority
  }

  /** In a ring sorted by priority a message is put behind all messages of its priority or a higher
      one and before all others: the ring stays sorted, and equal priorities stay in order of arrival. */
  lemma {:induction false} InsertStable(msgs: seq<Msg>, s: seq<nat>, v: nat, n: nat)
    requires v < |msgs| && ByPriority(msgs, s) && n <= |s|
    requires forall i :: 0 <= i < |s| ==> (i < n <==> msgs[s[i]].priority >= msgs[v].priority)
    ensures InsertByPriority(msgs, s, v) == s[..n] + [v] + s[n..]
    ensures ByPriority(msgs, InsertByPriority(msgs, s, v))
  {
    InsertSplits(msgs, s, v, n);
  }

  lemma {:induction false} InsertSplits(msgs: seq<Msg>, s: seq<nat>, v: nat, n: nat)
    requires v < |msgs| && (forall i :: 0 <= i < |s| ==> s[i] < |msgs|) && n <= |s|
    requires forall i :: 0 <= i < |s| ==> (i < n <==> msgs[s[i]].priority >= msgs[v].priority)
    ensures InsertByPriority(msgs, s, v) == s[..n] + [v] + s[n..]
  {
    if s != [] {
      assert 0 < n <==> msgs[s[0]].priority >= msgs[v].priority;
      if 0 < n {
        var t, m: nat := s[1..], n - 1;
        assert forall i :: 0 <= i < |t| ==> t[i] == s[i + 1];
        InsertSplits(msgs, t, v, m);
        assert InsertByPriority(msgs, s, v) == [s[0]] + InsertByPriority(msgs, t, v);
        assert s[..n] == [s[0]] + t[..m] && s[n..] == t[m..];
      } else {
        assert s[..n] == [] && s[n..] == s;
      }
    }
  }

  /** The fragments of a message, all of one priority, end up next to each other and in order. */
  lemma {:induction false} FragmentsTogether(msgs: seq<Msg>, s: seq<nat>, vs: seq<nat>, p: nat, n: nat)
    requires ByPriority(msgs, s) && n <= |s|
    requires forall i :: 0 <= i < |vs| ==> vs[i] < |msgs| && msgs[vs[i]].priority == p
    requires forall i :: 0 <= i < |s| ==> (i < n <==> msgs[s[i]].priority >= p)
    ensures AllInserted(msgs, s, vs) == s[..n] + vs + s[n..]
    ensures ByPriority(msgs, AllInserted(msgs, s, vs))
    decreases |vs|
  {
    if vs != [] {
      InsertStable(msgs, s, vs[0], n);
      var s1 := s[..n] + [vs[0]] + s[n..];
      FragmentsTogether(msgs, s1, vs[1..], p, n + 1);
      assert s1[..n + 1] == s[..n] + [vs[0]] && s1[n + 1..] == s[n..];
      assert vs == [vs[0]] + vs[1..];
    }
  }

  /** Such a place exists in every sorted ring. */
  lemma {:induction false} SplitAt(msgs: seq<Msg>, s: seq<nat>, p: nat) returns (n: nat)
    requires ByPriority(msgs, s)
    ensures n <= |s| && forall i :: 0 <= i < |s| ==> (i < n <==> msgs[s[i]].priority >= p)
  {
    if s == [] || msgs[s[0]].priority < p {
      n := 0;
    } else {
      var k := SplitAt(msgs, s[1..], p);
      n := k + 1;
      forall i | 0 <= i < |s|
        ensures i < n <==> msgs[s[i]].priority >= p
      {
        if i > 0 { assert s[1..][i - 1] == s[i]; }
      }
    }
  }
}
