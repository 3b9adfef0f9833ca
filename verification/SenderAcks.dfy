/** Acknowledgements and losses: releasing covered packets, marking lost ones, and rescuing messages
    whose lost packet is acknowledged late. */
module SenderAcks {
  import opened MachineWords
  import opened SerialNumbers
  import opened Receiver
  import opened MessagePool
  import opened PoolTallies
  import opened Sender
  import opened SenderOps
  import AckTracker

  /** Only slots of `list` and the accounts differ. */
  ghost predicate OnlyIn(tx: Tx, tx': Tx, list: seq<nat>) {
    && |tx'.msgs| == |tx.msgs| == |tx.place| == |tx'.place| && |tx'.conns| == |tx.conns|
    && (forall w :: 0 <= w < |tx.msgs| && w !in list ==> tx'.msgs[w] == tx.msgs[w] && tx'.place[w] == tx.place[w])
    && tx'.sent == tx.sent && tx'.batch == tx.batch
    && (forall c :: 0 <= c < |tx.conns| ==> SameNumbering(tx.conns[c], tx'.conns[c]))
  }

  lemma OnlyThenIn(tx: Tx, tx1: Tx, tx2: Tx, list: seq<nat>)
    requires list != [] && Only(tx, tx1, list[0]) && OnlyIn(tx1, tx2, list[1..])
    ensures OnlyIn(tx, tx2, list)
  {
    assert forall w :: w in list[1..] ==> w in list;
  }

  /** All slots of the list are distinct, exist, and are in flight for connection c. */
  ghost predicate AllInFlight(tx: Tx, c: nat, list: seq<nat>)
    requires |tx.place| == |tx.msgs|
  {
    && NoDup(list)
    && forall i :: 0 <= i < |list| ==> list[i] < |tx.msgs| && tx.place[list[i]].Flight? && tx.msgs[list[i]].owner == c
  }

  lemma AllInFlightTail(tx: Tx, tx1: Tx, c: nat, list: seq<nat>)
    requires |tx.place| == |tx.msgs| && AllInFlight(tx, c, list) && list != [] && Only(tx, tx1, list[0])
    ensures AllInFlight(tx1, c, list[1..])
  {
    forall i | 0 <= i < |list[1..]|
      ensures list[1..][i] != list[0]
    {
      assert list[1..][i] == list[i + 1];
    }
  }

  lemma NothingOutKept(tx: Tx, tx1: Tx, c: nat, v: nat)
    requires |tx.place| == |tx.msgs| && NothingOut(tx, c) && Only(tx, tx1, v) && v < |tx.msgs|
    requires !Outgoing(tx1.place[v])
    ensures NothingOut(tx1, c)
  {
  }

  // ----- what an acknowledgement or a loss may do to a message ------------------------------------

  /** A packet that carried the message is acknowledged. */
  predicate Covered(m: Msg, ack: uint32, bits: Word64) {
    exists x :: x in m.carriedBy && AckTracker.Covers(ack, bits, x)
  }

  function OutstandingCount(tx: Tx, c: nat, f: nat): nat
    requires |tx.place| == |tx.msgs|
  {
    Total(Outstanding(c, f), tx.msgs, tx.place)
  }

  /** Slot v of connection c is unchanged; or was in flight and waits for retransmission; or is free, and
      then a packet that carried it is acknowledged or the flow has more messages outstanding than
      its retry ring holds. */
  ghost predicate SlotResolved(cfg: TxConfig, tx: Tx, tx': Tx, c: nat, ack: uint32, bits: Word64, v: nat)
    requires v < |tx.msgs| == |tx.place| == |tx'.msgs| == |tx'.place|
  {
    || (tx'.msgs[v] == tx.msgs[v] && tx'.place[v] == tx.place[v])
    || (tx.place[v].Flight? && tx.msgs[v].owner == c && |tx.msgs[v].lostAcks| <= MAX_LOST_ACK_SEQS
        && tx'.place[v] == Queued(Retry) && tx'.msgs[v] == LostMsg(tx.msgs[v]))
    || (tx.place[v] != Free && tx.msgs[v].owner == c && tx'.place[v].Free? && tx'.msgs[v] == NoMsg
        && (Covered(tx.msgs[v], ack, bits) || cfg.ringCap <= OutstandingCount(tx, c, tx.msgs[v].flow)))
  }

  ghost predicate Resolved(cfg: TxConfig, tx: Tx, tx': Tx, c: nat, ack: uint32, bits: Word64) {
    && |tx'.msgs| == |tx.msgs| == |tx.place| == |tx'.place|
    && (forall v :: 0 <= v < |tx.msgs| ==> SlotResolved(cfg, tx, tx', c, ack, bits, v))
    && (forall d: nat, f: nat :: OutstandingCount(tx', d, f) <= OutstandingCount(tx, d, f))
  }

  lemma ResolvedTransitive(cfg: TxConfig, a: Tx, b: Tx, d: Tx, c: nat, ack: uint32, bits: Word64)
    requires Resolved(cfg, a, b, c, ack, bits) && Resolved(cfg, b, d, c, ack, bits)
    ensures Resolved(cfg, a, d, c, ack, bits)
  {
    forall v | 0 <= v < |a.msgs|
      ensures SlotResolved(cfg, a, d, c, ack, bits, v)
    {
      assert SlotResolved(cfg, a, b, c, ack, bits, v) && SlotResolved(cfg, b, d, c, ack, bits, v);
    }
  }

  lemma OneResolved(cfg: TxConfig, tx: Tx, tx': Tx, c: nat, ack: uint32, bits: Word64, v: nat)
    requires |tx.place| == |tx.msgs| && v < |tx.msgs| && tx.place[v] != Free && tx.msgs[v].owner == c
    requires |tx'.place| == |tx'.msgs| == |tx.msgs|
    requires tx'.msgs == tx.msgs[v := tx'.msgs[v]] && tx'.place == tx.place[v := tx'.place[v]]
    requires SlotResolved(cfg, tx, tx', c, ack, bits, v)
    ensures Resolved(cfg, tx, tx', c, ack, bits)
  {
    forall d: nat, f: nat
      ensures OutstandingCount(tx', d, f) <= OutstandingCount(tx, d, f)
    {
      TotalUpdate(Outstanding(d, f), tx.msgs, tx.place, v, tx'.msgs[v], tx'.place[v]);
    }
  }

  lemma NothingResolved(cfg: TxConfig, tx: Tx, tx': Tx, c: nat, ack: uint32, bits: Word64)
    requires |tx.place| == |tx.msgs| && tx'.msgs == tx.msgs && tx'.place == tx.place
    ensures Resolved(cfg, tx, tx', c, ack, bits)
  {
  }

  /** A full retry ring and a message in flight make at least as many outstanding messages as the ring has places. */
  lemma FullRingOutstanding(cfg: TxConfig, tx: Tx, v: nat)
    requires Core(cfg, tx) && v < |tx.msgs| && tx.place[v].Flight?
    ensures |At(tx.boxes, Ring(tx.msgs[v].owner, tx.msgs[v].flow, Retry))| + 1 <=
            OutstandingCount(tx, tx.msgs[v].owner, tx.msgs[v].flow)
  {
    var k := Ring(tx.msgs[v].owner, tx.msgs[v].flow, Retry);
    var r := Residents(cfg.slots, tx.msgs, tx.place, k);
    ListSize(At(tx.boxes, k), r);
    OutstandingResidents(cfg.slots, tx.msgs, tx.place, v, r);
  }

  lemma {:induction false} OutstandingResidents(slots: nat, msgs: seq<Msg>, place: seq<Place>, v: nat, r: set<nat>)
    requires 0 < slots && |place| == |msgs| && v < |msgs| && place[v].Flight?
    requires r == Residents(slots, msgs, place, Ring(msgs[v].owner, msgs[v].flow, Retry))
    ensures |r| + 1 <= Total(Outstanding(msgs[v].owner, msgs[v].flow), msgs, place)
  {
    assert v !in r;
    assert |r + {v}| == |r| + 1;
    ResidentsCount(slots, msgs, place, Outstanding(msgs[v].owner, msgs[v].flow), r + {v});
  }

  // ----- the references of one packet ------------------------------------------------------------

  /** `mark_packet_lost`, one reference. */
  ghost function RefLost(cfg: TxConfig, n: nat, tx: Tx, v: nat, ack: uint32, bits: Word64): (tx': Tx)
    requires Loose(cfg, tx, n) && v < |tx.msgs| && tx.place[v].Flight? && NothingOut(tx, tx.msgs[v].owner)
    ensures Loose(cfg, tx', n) && Only(tx, tx', v) && !tx'.place[v].Flight? && !Outgoing(tx'.place[v])
    ensures Resolved(cfg, tx, tx', tx.msgs[v].owner, ack, bits)
  {
    LostRefLoose(cfg, n, tx, v);
    LostRefResolved(cfg, tx, v, ack, bits);
    LostRef(cfg, tx, v)
  }

  lemma LostRefResolved(cfg: TxConfig, tx: Tx, v: nat, ack: uint32, bits: Word64)
    requires Core(cfg, tx) && v < |tx.msgs| && tx.place[v].Flight?
    requires OwnerKnown(tx, v) && |tx.msgs[v].lostAcks| <= MAX_LOST_ACK_SEQS
    requires RingValid(tx, OutBoxes(cfg, tx, v), Ring(tx.msgs[v].owner, tx.msgs[v].flow, Retry))
    ensures Resolved(cfg, tx, LostRef(cfg, tx, v), tx.msgs[v].owner, ack, bits)
  {
    var m := tx.msgs[v];
    assert At(OutBoxes(cfg, tx, v), Ring(m.owner, m.flow, Retry)) == At(tx.boxes, Ring(m.owner, m.flow, Retry));
    FullRingOutstanding(cfg, tx, v);
    OneResolved(cfg, tx, LostRef(cfg, tx, v), m.owner, ack, bits, v);
  }

  /** The loop of `mark_packet_lost` over the references. */
  ghost function LostRefs(cfg: TxConfig, n: nat, tx: Tx, c: nat, list: seq<nat>, ack: uint32, bits: Word64): (tx': Tx)
    requires Loose(cfg, tx, n) && AllInFlight(tx, c, list) && NothingOut(tx, c)
    ensures Loose(cfg, tx', n) && OnlyIn(tx, tx', list) && NothingOut(tx', c)
    ensures forall v :: v in list ==> !tx'.place[v].Flight?
    ensures Resolved(cfg, tx, tx', c, ack, bits)
    decreases |list|
  {
    if list == [] then
      NothingResolved(cfg, tx, tx, c, ack, bits);
      tx
    else
      var v := list[0];
      var tx1 := RefLost(cfg, n, tx, v, ack, bits);
      AllInFlightTail(tx, tx1, c, list);
      NothingOutKept(tx, tx1, c, v);
      var tx2 := LostRefs(cfg, n, tx1, c, list[1..], ack, bits);
      OnlyThenIn(tx, tx1, tx2, list);
      ResolvedTransitive(cfg, tx, tx1, tx2, c, ack, bits);
      tx2
  }

  /** `release_sent_packet`, one reference of an acknowledged packet; `complete_late_acked_msg`, for a
      message one of whose lost packets is acknowledged. */
  ghost function RefFreed(cfg: TxConfig, n: nat, tx: Tx, v: nat, ack: uint32, bits: Word64): (tx': Tx)
    requires Loose(cfg, tx, n) && v < |tx.msgs| && tx.place[v] != Free && Covered(tx.msgs[v], ack, bits)
    ensures Loose(cfg, tx', n) && Only(tx, tx', v) && tx'.place[v].Free? && tx'.msgs[v] == NoMsg
    ensures Resolved(cfg, tx, tx', tx.msgs[v].owner, ack, bits)
  {
    FreedLoose(cfg, n, tx, v);
    OneResolved(cfg, tx, Freed(cfg, tx, v), tx.msgs[v].owner, ack, bits, v);
    Freed(cfg, tx, v)
  }

  /** The loop of `release_sent_packet` over the references of an acknowledged packet. */
  ghost function FreedRefs(cfg: TxConfig, n: nat, tx: Tx, c: nat, list: seq<nat>, ack: uint32, bits: Word64): (tx': Tx)
    requires Loose(cfg, tx, n) && AllInFlight(tx, c, list) && NothingOut(tx, c)
    requires forall i :: 0 <= i < |list| ==> Covered(tx.msgs[list[i]], ack, bits)
    ensures Loose(cfg, tx', n) && OnlyIn(tx, tx', list) && NothingOut(tx', c)
    ensures forall v :: v in list ==> tx'.place[v].Free?
    ensures Resolved(cfg, tx, tx', c, ack, bits)
    decreases |list|
  {
    if list == [] then
      NothingResolved(cfg, tx, tx, c, ack, bits);
      tx
    else
      var v := list[0];
      var tx1 := RefFreed(cfg, n, tx, v, ack, bits);
      AllInFlightTail(tx, tx1, c, list);
      NothingOutKept(tx, tx1, c, v);
      var tx2 := FreedRefs(cfg, n, tx1, c, list[1..], ack, bits);
      OnlyThenIn(tx, tx1, tx2, list);
      ResolvedTransitive(cfg, tx, tx1, tx2, c, ack, bits);
      tx2
  }

  lemma RefsInFlight(cfg: TxConfig, tx: Tx, c: nat, i: nat)
    requires Core(cfg, tx)
    ensures AllInFlight(tx, c, At(tx.boxes, InFlight(c, i)))
  {
    var list := At(tx.boxes, InFlight(c, i));
    forall k | 0 <= k < |list|
      ensures list[k] < |tx.msgs| && tx.place[list[k]].Flight? && tx.msgs[list[k]].owner == c
    {
      InBoxMeans(cfg, tx, InFlight(c, i), list[k]);
    }
  }

  /** `sp->used = 0` */
  function Unused(tx: Tx, c: nat, i: nat): Tx
    requires c < |tx.sent| && i < |tx.sent[c]|
  {
    tx.(sent := tx.sent[c := tx.sent[c][i := tx.sent[c][i].(used := false)]])
  }

  /** A record without references can be given up. */
  lemma UnusedLoose(cfg: TxConfig, n: nat, tx: Tx, c: nat, i: nat)
    requires Loose(cfg, tx, n) && c < cfg.maxConns && i < cfg.slots
    requires forall v :: 0 <= v < |tx.msgs| && tx.place[v].Flight? && tx.msgs[v].owner == c ==>
      tx.msgs[v].carrier % cfg.slots != i
    ensures Loose(cfg, Unused(tx, c, i), n)
  {
    var tx' := Unused(tx, c, i);
    forall v | 0 <= v < |tx'.msgs| && tx'.place[v].Packed?
      ensures PackedSlotOk(cfg, tx', n, v)
    {
      assert PackedSlotOk(cfg, tx, n, v);
    }
  }

  lemma FlightHome(cfg: TxConfig, tx: Tx, c: nat, i: nat)
    requires Core(cfg, tx)
    ensures forall v :: (0 <= v < |tx.msgs| && tx.place[v].Flight? && tx.msgs[v].owner == c
                         && tx.msgs[v].carrier % cfg.slots == i) ==> v in At(tx.boxes, InFlight(c, i))
  {
    forall v | 0 <= v < |tx.msgs| && tx.place[v].Flight? && tx.msgs[v].owner == c
               && tx.msgs[v].carrier % cfg.slots == i
      ensures v in At(tx.boxes, InFlight(c, i))
    {
      assert Home(cfg.slots, tx.msgs[v], tx.place[v]) == Some(InFlight(c, i));
    }
  }

  /** After all references of a record have left, it can be given up. */
  lemma RecordDone(cfg: TxConfig, n: nat, tx: Tx, tx1: Tx, c: nat, i: nat)
    requires Loose(cfg, tx, n) && Loose(cfg, tx1, n) && c < cfg.maxConns && i < cfg.slots
    requires OnlyIn(tx, tx1, At(tx.boxes, InFlight(c, i)))
    requires forall v :: v in At(tx.boxes, InFlight(c, i)) ==> v < |tx1.msgs| && !tx1.place[v].Flight?
    ensures Loose(cfg, Unused(tx1, c, i), n)
  {
    FlightHome(cfg, tx, c, i);
    UnusedLoose(cfg, n, tx1, c, i);
  }

  /** What an operation on connection c leaves alone: the other records, the batch, the numbering. */
  ghost predicate PacketsKept(cfg: TxConfig, tx: Tx, tx': Tx, c: nat)
    requires TxShape(cfg, tx) && TxShape(cfg, tx')
  {
    && tx'.batch == tx.batch
    && (forall d, i :: 0 <= d < cfg.maxConns && 0 <= i < cfg.slots ==>
          tx'.sent[d][i] == tx.sent[d][i] || (d == c && tx'.sent[d][i] == tx.sent[d][i].(used := false)))
    && (forall d :: 0 <= d < cfg.maxConns ==> SameNumbering(tx.conns[d], tx'.conns[d]))
  }

  /** `mark_packet_lost`. */
  ghost function MarkedLost(cfg: TxConfig, n: nat, tx: Tx, c: nat, i: nat, ack: uint32, bits: Word64): (tx': Tx)
    requires Loose(cfg, tx, n) && c < cfg.maxConns && i < cfg.slots && NothingOut(tx, c)
    ensures Loose(cfg, tx', n) && NothingOut(tx', c)
    ensures !tx'.sent[c][i].used && PacketsKept(cfg, tx, tx', c)
    ensures Resolved(cfg, tx, tx', c, ack, bits)
  {
    RefsInFlight(cfg, tx, c, i);
    var tx1 := LostRefs(cfg, n, tx, c, At(tx.boxes, InFlight(c, i)), ack, bits);
    RecordDone(cfg, n, tx, tx1, c, i);
    UnusedResolved(cfg, tx, tx1, c, i, ack, bits);
    Unused(tx1, c, i)
  }

  lemma UnusedResolved(cfg: TxConfig, tx: Tx, tx1: Tx, c: nat, i: nat, ack: uint32, bits: Word64)
    requires Resolved(cfg, tx, tx1, c, ack, bits) && c < |tx1.sent| && i < |tx1.sent[c]|
    ensures Resolved(cfg, tx, Unused(tx1, c, i), c, ack, bits)
  {
    NothingResolved(cfg, tx1, Unused(tx1, c, i), c, ack, bits);
    ResolvedTransitive(cfg, tx, tx1, Unused(tx1, c, i), c, ack, bits);
  }

  /** `release_sent_packet` of an acknowledged packet. */
  ghost function Released(cfg: TxConfig, n: nat, tx: Tx, c: nat, i: nat, ack: uint32, bits: Word64): (tx': Tx)
    requires Loose(cfg, tx, n) && c < cfg.maxConns && i < cfg.slots && NothingOut(tx, c)
    requires tx.sent[c][i].used && AckTracker.Covers(ack, bits, tx.sent[c][i].number)
    ensures Loose(cfg, tx', n) && NothingOut(tx', c)
    ensures !tx'.sent[c][i].used && PacketsKept(cfg, tx, tx', c)
    ensures Resolved(cfg, tx, tx', c, ack, bits)
  {
    RefsInFlight(cfg, tx, c, i);
    RefsCovered(cfg, n, tx, c, i, ack, bits);
    var tx1 := FreedRefs(cfg, n, tx, c, At(tx.boxes, InFlight(c, i)), ack, bits);
    RecordDone(cfg, n, tx, tx1, c, i);
    UnusedResolved(cfg, tx, tx1, c, i, ack, bits);
    Unused(tx1, c, i)
  }

  lemma RefsCovered(cfg: TxConfig, n: nat, tx: Tx, c: nat, i: nat, ack: uint32, bits: Word64)
    requires Loose(cfg, tx, n) && c < cfg.maxConns && i < cfg.slots
    requires tx.sent[c][i].used && AckTracker.Covers(ack, bits, tx.sent[c][i].number)
    ensures var list := At(tx.boxes, InFlight(c, i));
      forall r :: 0 <= r < |list| ==> list[r] < |tx.msgs| && Covered(tx.msgs[list[r]], ack, bits)
  {
    var list := At(tx.boxes, InFlight(c, i));
    forall r | 0 <= r < |list|
      ensures list[r] < |tx.msgs| && Covered(tx.msgs[list[r]], ack, bits)
    {
      InBoxMeans(cfg, tx, InFlight(c, i), list[r]);
      assert tx.msgs[list[r]].carrier in tx.msgs[list[r]].carriedBy;
    }
  }

  // ----- the loop over the tracked numbers -------------------------------------------------------

  /** `sent_packet_for_seq` finds the record. */
  predicate Live(cfg: TxConfig, tx: Tx, c: nat, x: int)
    requires 0 < cfg.slots && c < |tx.sent| && |tx.sent[c]| == cfg.slots
  {
    tx.sent[c][Wrap32(x) % cfg.slots].used && tx.sent[c][Wrap32(x) % cfg.slots].number == Wrap32(x)
  }

  /** What an operation on the records of connection c does. */
  ghost predicate AckEffect(cfg: TxConfig, tx: Tx, tx': Tx, c: nat, ack: uint32, bits: Word64)
    requires TxShape(cfg, tx) && TxShape(cfg, tx')
  {
    PacketsKept(cfg, tx, tx', c) && Resolved(cfg, tx, tx', c, ack, bits)
  }

  lemma AckEffectTransitive(cfg: TxConfig, a: Tx, b: Tx, d: Tx, c: nat, ack: uint32, bits: Word64)
    requires TxShape(cfg, a) && TxShape(cfg, b) && TxShape(cfg, d)
    requires AckEffect(cfg, a, b, c, ack, bits) && AckEffect(cfg, b, d, c, ack, bits)
    ensures AckEffect(cfg, a, d, c, ack, bits)
  {
    ResolvedTransitive(cfg, a, b, d, c, ack, bits);
  }

  /** Why the queue of tracked numbers is gone through. */
  datatype Cause = Acked(ack: uint32, bits: Word64) | Elapsed(now: uint64, rto: nat)

  function AckOf(cause: Cause): uint32 { if cause.Acked? then cause.ack else 0 }

  function BitsOf(cause: Cause): Word64 { if cause.Acked? then cause.bits else ZeroWord() }

  /** The record is released as delivered. */
  predicate Delivered(cause: Cause, si: SentInfo) {
    cause.Acked? && AckTracker.Covers(cause.ack, cause.bits, si.number)
  }

  /** The record is given up as lost: the acknowledgement is three or more past it, or its time is up. */
  predicate GivenUp(cause: Cause, si: SentInfo) {
    match cause
    case Acked(ack, _) => AckTracker.GapLost(ack, si.number)
    case Elapsed(now, rto) => now >= (if si.sentNs + rto > UINT64_MAX then UINT64_MAX else si.sentNs + rto)
  }

  /** What is done with one tracked number; None if it stays. */
  ghost function OneTracked(cfg: TxConfig, n: nat, tx: Tx, c: nat, cause: Cause, x: int): (r: Option<Tx>)
    requires Loose(cfg, tx, n) && c < cfg.maxConns && NothingOut(tx, c)
    ensures r.Some? ==>
      && Loose(cfg, r.value, n) && NothingOut(r.value, c) && AckEffect(cfg, tx, r.value, c, AckOf(cause), BitsOf(cause))
      && !Live(cfg, r.value, c, x)
  {
    var i := Wrap32(x) % cfg.slots;
    if !Live(cfg, tx, c, x) then
      NothingResolved(cfg, tx, tx, c, AckOf(cause), BitsOf(cause));
      Some(tx)
    else if Delivered(cause, tx.sent[c][i]) then Some(Released(cfg, n, tx, c, i, AckOf(cause), BitsOf(cause)))
    else if GivenUp(cause, tx.sent[c][i]) then Some(MarkedLost(cfg, n, tx, c, i, AckOf(cause), BitsOf(cause)))
    else None
  }

  /** The loop of `release_acked_packets`, and that of `service_retransmits`, over the tracked numbers:
      what it keeps in the queue, and the state it leaves. */
  ghost function TrackedLoop(cfg: TxConfig, n: nat, tx: Tx, c: nat, cause: Cause, todo: seq<int>): (r: (Tx, seq<int>))
    requires Loose(cfg, tx, n) && c < cfg.maxConns && NothingOut(tx, c)
    ensures Loose(cfg, r.0, n) && NothingOut(r.0, c) && AckEffect(cfg, tx, r.0, c, AckOf(cause), BitsOf(cause))
    decreases |todo|
  {
    if todo == [] then
      NothingResolved(cfg, tx, tx, c, AckOf(cause), BitsOf(cause));
      (tx, [])
    else
      match OneTracked(cfg, n, tx, c, cause, todo[0])
      case Some(tx1) =>
        var r := TrackedLoop(cfg, n, tx1, c, cause, todo[1..]);
        AckEffectTransitive(cfg, tx, tx1, r.0, c, AckOf(cause), BitsOf(cause));
        r
      case None =>
        var r := TrackedLoop(cfg, n, tx, c, cause, todo[1..]);
        (r.0, [todo[0]] + r.1)
  }

  /** An order-preserving selection of todo. */
  predicate Selection(sub: seq<int>, todo: seq<int>) {
    if todo == [] then sub == []
    else (sub != [] && sub[0] == todo[0] && Selection(sub[1..], todo[1..])) || Selection(sub, todo[1..])
  }

  /** A number leaves the queue only when its record is no longer live. */
  lemma {:induction false} TrackedKeepsLive(cfg: TxConfig, n: nat, tx: Tx, c: nat, cause: Cause, todo: seq<int>)
    requires Loose(cfg, tx, n) && c < cfg.maxConns && NothingOut(tx, c)
    ensures var r := TrackedLoop(cfg, n, tx, c, cause, todo);
      Selection(r.1, todo) && forall x :: x in todo && Live(cfg, r.0, c, x) ==> x in r.1
    decreases |todo|
  {
    if todo != [] {
      match OneTracked(cfg, n, tx, c, cause, todo[0])
      case Some(tx1) =>
        TrackedKeepsLive(cfg, n, tx1, c, cause, todo[1..]);
        var r := TrackedLoop(cfg, n, tx1, c, cause, todo[1..]);
        assert !Live(cfg, r.0, c, todo[0]);
      case None =>
        TrackedKeepsLive(cfg, n, tx, c, cause, todo[1..]);
        var r := TrackedLoop(cfg, n, tx, c, cause, todo[1..]);
        assert ([todo[0]] + r.1)[1..] == r.1;
    }
  }

  // ----- late acknowledgements -------------------------------------------------------------------

  /** `msg_lost_seq_is_acked` for a live message of connection c. */
  predicate LateDue(m: Msg, c: nat, ack: uint32, bits: Word64) {
    m.used && m.owner == c && exists i :: 0 <= i < |m.lostAcks| && AckTracker.Covers(ack, bits, m.lostAcks[i])
  }

  /** `complete_late_acked_msg`: the message is freed from wherever it is; a record that loses its last
      reference is given up. */
  ghost function LateFreed(cfg: TxConfig, n: nat, tx: Tx, v: nat, ack: uint32, bits: Word64): (tx': Tx)
    requires Loose(cfg, tx, n) && v < |tx.msgs| && tx.place[v] != Free && NothingOut(tx, tx.msgs[v].owner)
    requires Covered(tx.msgs[v], ack, bits)
    ensures tx.msgs[v].owner < cfg.maxConns
    ensures Loose(cfg, tx', n) && NothingOut(tx', tx.msgs[v].owner)
    ensures AckEffect(cfg, tx, tx', tx.msgs[v].owner, ack, bits)
    ensures tx'.place[v].Free?
    ensures forall w :: 0 <= w < |tx.msgs| && w != v ==> tx'.msgs[w] == tx.msgs[w] && tx'.place[w] == tx.place[w]
  {
    var c := tx.msgs[v].owner;
    assert MsgOk(cfg.maxConns, cfg.maxFlows, tx.msgs[v], tx.place[v]);
    var tx1 := RefFreed(cfg, n, tx, v, ack, bits);
    NothingOutKept(tx, tx1, c, v);
    if tx.place[v].Flight? && At(tx1.boxes, InFlight(c, tx.msgs[v].carrier % cfg.slots)) == [] then
      EmptyRecord(cfg, n, tx1, c, tx.msgs[v].carrier % cfg.slots);
      UnusedResolved(cfg, tx, tx1, c, tx.msgs[v].carrier % cfg.slots, ack, bits);
      Unused(tx1, c, tx.msgs[v].carrier % cfg.slots)
    else tx1
  }

  lemma EmptyRecord(cfg: TxConfig, n: nat, tx: Tx, c: nat, i: nat)
    requires Loose(cfg, tx, n) && c < cfg.maxConns && i < cfg.slots && At(tx.boxes, InFlight(c, i)) == []
    ensures Loose(cfg, Unused(tx, c, i), n)
  {
    FlightHome(cfg, tx, c, i);
    UnusedLoose(cfg, n, tx, c, i);
  }

  lemma DueIsCovered(cfg: TxConfig, tx: Tx, v: nat, ack: uint32, bits: Word64)
    requires Core(cfg, tx) && v < |tx.msgs| && LateDue(tx.msgs[v], tx.msgs[v].owner, ack, bits)
    ensures tx.place[v] != Free && Covered(tx.msgs[v], ack, bits)
  {
    assert MsgOk(cfg.maxConns, cfg.maxFlows, tx.msgs[v], tx.place[v]);
    var i :| 0 <= i < |tx.msgs[v].lostAcks| && AckTracker.Covers(ack, bits, tx.msgs[v].lostAcks[i]);
    assert tx.msgs[v].lostAcks[i] in tx.msgs[v].carriedBy;
  }

  /** Message v is gone if it is due; nothing else changed. */
  ghost predicate OnlyDue(tx: Tx, tx': Tx, c: nat, ack: uint32, bits: Word64, v: nat) {
    && |tx'.msgs| == |tx.msgs| == |tx.place| == |tx'.place|
    && forall w: nat :: w < |tx.msgs| ==>
         if w == v && LateDue(tx.msgs[w], c, ack, bits) then tx'.place[w].Free? && tx'.msgs[w] == NoMsg
         else tx'.msgs[w] == tx.msgs[w] && tx'.place[w] == tx.place[w]
  }

  /** One message of a pass. */
  ghost function LateOne(cfg: TxConfig, n: nat, tx: Tx, c: nat, ack: uint32, bits: Word64, v: nat): (tx': Tx)
    requires Loose(cfg, tx, n) && c < cfg.maxConns && NothingOut(tx, c)
    ensures Loose(cfg, tx', n) && NothingOut(tx', c) && AckEffect(cfg, tx, tx', c, ack, bits)
    ensures OnlyDue(tx, tx', c, ack, bits, v)
  {
    if v < |tx.msgs| && LateDue(tx.msgs[v], c, ack, bits) then
      DueIsCovered(cfg, tx, v, ack, bits);
      LateFreed(cfg, n, tx, v, ack, bits)
    else
      NothingResolved(cfg, tx, tx, c, ack, bits);
      tx
  }

  /** Exactly the due messages among those with index in `seen` are gone. */
  ghost predicate LateGone(tx: Tx, tx': Tx, c: nat, ack: uint32, bits: Word64, seen: set<nat>) {
    && |tx'.msgs| == |tx.msgs| == |tx.place| == |tx'.place|
    && forall v: nat :: v < |tx.msgs| ==>
         if v in seen && LateDue(tx.msgs[v], c, ack, bits) then tx'.place[v].Free? && tx'.msgs[v] == NoMsg
         else tx'.msgs[v] == tx.msgs[v] && tx'.place[v] == tx.place[v]
  }

  /** One pass over a list of slots that frees every message due. The passes of
      `release_late_acked_messages` are this over each retry ring and over the whole pool. */
  ghost function LatePass(cfg: TxConfig, n: nat, tx: Tx, c: nat, ack: uint32, bits: Word64,
                          list: seq<nat>): (tx': Tx)
    requires Loose(cfg, tx, n) && c < cfg.maxConns && NothingOut(tx, c)
    ensures Loose(cfg, tx', n) && NothingOut(tx', c) && AckEffect(cfg, tx, tx', c, ack, bits)
    ensures LateGone(tx, tx', c, ack, bits, set v | v in list)
    decreases |list|
  {
    if list == [] then
      NothingResolved(cfg, tx, tx, c, ack, bits);
      tx
    else
      var tx1 := LateOne(cfg, n, tx, c, ack, bits, list[0]);
      var tx2 := LatePass(cfg, n, tx1, c, ack, bits, list[1..]);
      AckEffectTransitive(cfg, tx, tx1, tx2, c, ack, bits);
      PassMore(tx, tx1, tx2, c, ack, bits, list);
      tx2
  }

  lemma PassMore(tx: Tx, tx1: Tx, tx2: Tx, c: nat, ack: uint32, bits: Word64, list: seq<nat>)
    requires list != [] && OnlyDue(tx, tx1, c, ack, bits, list[0])
    requires LateGone(tx1, tx2, c, ack, bits, set v | v in list[1..])
    ensures LateGone(tx, tx2, c, ack, bits, set v | v in list)
  {
    assert list == [list[0]] + list[1..];
  }

  /** The number of messages of connection c that lost a packet. */
  lemma {:induction false} NoneLate(cfg: TxConfig, n: nat, tx: Tx, c: nat)
    requires Loose(cfg, tx, n) && c < cfg.maxConns
    ensures tx.conns[c].lateAckCount == Total(LateMsgs(c), tx.msgs, tx.place)
    ensures tx.conns[c].lateAckCount == 0 <==> NoLate(tx, c)
  {
    assert Kept(tx.conns, LateMsgs(c));
    TotalZero(LateMsgs(c), tx.msgs, tx.place);
    if NoLate(tx, c) {
      forall v | 0 <= v < |tx.msgs|
        ensures Weight(LateMsgs(c), tx.msgs[v], tx.place[v]) == 0
      {
      }
    } else {
      var v :| 0 <= v < |tx.msgs| && tx.msgs[v].used && tx.msgs[v].owner == c && tx.msgs[v].lostAcks != [];
      assert Weight(LateMsgs(c), tx.msgs[v], tx.place[v]) == 1;
    }
  }

  /** The first scan of `release_late_acked_messages`: the retry rings of flows f and up. */
  ghost function LateRings(cfg: TxConfig, tx: Tx, c: nat, ack: uint32, bits: Word64, f: nat): (r: (Tx, set<nat>))
    requires Loose(cfg, tx, 0) && c < cfg.maxConns && NothingOut(tx, c)
    ensures Loose(cfg, r.0, 0) && NothingOut(r.0, c) && AckEffect(cfg, tx, r.0, c, ack, bits)
    ensures LateGone(tx, r.0, c, ack, bits, r.1)
    decreases cfg.maxFlows - f
  {
    if f >= cfg.maxFlows then
      NothingResolved(cfg, tx, tx, c, ack, bits);
      (tx, {})
    else
      var list := At(tx.boxes, Ring(c, f, Retry));
      var tx1 := LatePass(cfg, 0, tx, c, ack, bits, list);
      var r := LateRings(cfg, tx1, c, ack, bits, f + 1);
      AckEffectTransitive(cfg, tx, tx1, r.0, c, ack, bits);
      LateGoneMore(tx, tx1, r.0, c, ack, bits, list, r.1);
      (r.0, r.1 + set v | v in list)
  }

  lemma LateGoneMore(tx: Tx, tx1: Tx, tx2: Tx, c: nat, ack: uint32, bits: Word64, list: seq<nat>, seen: set<nat>)
    requires LateGone(tx, tx1, c, ack, bits, set v | v in list) && LateGone(tx1, tx2, c, ack, bits, seen)
    ensures LateGone(tx, tx2, c, ack, bits, seen + set v | v in list)
  {
  }

  /** Exactly the due messages from slot v on are gone. */
  ghost predicate LateGoneFrom(tx: Tx, tx': Tx, c: nat, ack: uint32, bits: Word64, v: nat) {
    && |tx'.msgs| == |tx.msgs| == |tx.place| == |tx'.place|
    && forall w: nat :: w < |tx.msgs| ==>
         if v <= w && LateDue(tx.msgs[w], c, ack, bits) then tx'.place[w].Free? && tx'.msgs[w] == NoMsg
         else tx'.msgs[w] == tx.msgs[w] && tx'.place[w] == tx.place[w]
  }

  /** Connection c has no message that lost a packet. */
  ghost predicate NoLate(tx: Tx, c: nat) {
    forall v :: 0 <= v < |tx.msgs| ==> !(tx.msgs[v].used && tx.msgs[v].owner == c && tx.msgs[v].lostAcks != [])
  }

  /** The second scan: the pool from slot v on, broken off when no message with a lost packet is left. */
  ghost function LateScan(cfg: TxConfig, tx: Tx, c: nat, ack: uint32, bits: Word64, v: nat): (tx': Tx)
    requires Loose(cfg, tx, 0) && c < cfg.maxConns && NothingOut(tx, c)
    ensures Loose(cfg, tx', 0) && NothingOut(tx', c) && AckEffect(cfg, tx, tx', c, ack, bits)
    ensures LateGoneFrom(tx, tx', c, ack, bits, v)
    decreases |tx.msgs| - v
  {
    if v >= |tx.msgs| then
      NothingResolved(cfg, tx, tx, c, ack, bits);
      tx
    else
      var tx1 := LateOne(cfg, 0, tx, c, ack, bits, v);
      if LateDue(tx.msgs[v], c, ack, bits) && tx1.conns[c].lateAckCount == 0 then
        NoneLate(cfg, 0, tx1, c);
        ScanDone(tx, tx1, c, ack, bits, v);
        tx1
      else
        var tx2 := LateScan(cfg, tx1, c, ack, bits, v + 1);
        AckEffectTransitive(cfg, tx, tx1, tx2, c, ack, bits);
        ScanMore(tx, tx1, tx2, c, ack, bits, v, v + 1);
        tx2
  }

  lemma ScanDone(tx: Tx, tx1: Tx, c: nat, ack: uint32, bits: Word64, v: nat)
    requires OnlyDue(tx, tx1, c, ack, bits, v) && NoLate(tx1, c)
    ensures LateGoneFrom(tx, tx1, c, ack, bits, v)
  {
  }

  lemma ScanMore(tx: Tx, tx1: Tx, tx2: Tx, c: nat, ack: uint32, bits: Word64, v: nat, next: nat)
    requires OnlyDue(tx, tx1, c, ack, bits, v) && LateGoneFrom(tx1, tx2, c, ack, bits, next) && next == v + 1
    ensures LateGoneFrom(tx, tx2, c, ack, bits, v)
  {
  }

  lemma NothingDue(tx: Tx, tx1: Tx, c: nat, ack: uint32, bits: Word64, seen: set<nat>)
    requires LateGone(tx, tx1, c, ack, bits, seen) && NoLate(tx1, c)
    ensures LateGoneFrom(tx, tx1, c, ack, bits, 0)
  {
  }

  lemma RingsThenScan(tx: Tx, tx1: Tx, tx2: Tx, c: nat, ack: uint32, bits: Word64, seen: set<nat>)
    requires LateGone(tx, tx1, c, ack, bits, seen) && LateGoneFrom(tx1, tx2, c, ack, bits, 0)
    ensures LateGoneFrom(tx, tx2, c, ack, bits, 0)
  {
  }

  /** Both scans of a connection with late messages. */
  ghost function LateScans(cfg: TxConfig, tx: Tx, c: nat, ack: uint32, bits: Word64): (tx': Tx)
    requires Loose(cfg, tx, 0) && c < cfg.maxConns && NothingOut(tx, c)
    ensures Loose(cfg, tx', 0) && NothingOut(tx', c) && AckEffect(cfg, tx, tx', c, ack, bits)
    ensures LateGoneFrom(tx, tx', c, ack, bits, 0)
  {
    var (tx1, seen) := LateRings(cfg, tx, c, ack, bits, 0);
    NoneLate(cfg, 0, tx1, c);
    if tx1.conns[c].lateAckCount == 0 then
      NothingDue(tx, tx1, c, ack, bits, seen);
      tx1
    else
      var tx2 := LateScan(cfg, tx1, c, ack, bits, 0);
      AckEffectTransitive(cfg, tx, tx1, tx2, c, ack, bits);
      RingsThenScan(tx, tx1, tx2, c, ack, bits, seen);
      tx2
  }

  /** `release_late_acked_messages` with its shortcuts: exactly the messages one of whose lost packets is
      acknowledged are freed, as a scan of the whole pool without shortcuts would free them. */
  ghost function LateAcks(cfg: TxConfig, tx: Tx, c: nat, ack: uint32, bits: Word64): (tx': Tx)
    requires Loose(cfg, tx, 0) && c < cfg.maxConns && NothingOut(tx, c)
    ensures Loose(cfg, tx', 0) && NothingOut(tx', c) && AckEffect(cfg, tx, tx', c, ack, bits)
    ensures LateGoneFrom(tx, tx', c, ack, bits, 0)
  {
    NoneLate(cfg, 0, tx, c);
    if tx.conns[c].lateAckCount == 0 then
      NothingResolved(cfg, tx, tx, c, ack, bits);
      NothingDue(tx, tx, c, ack, bits, {});
      tx
    else LateScans(cfg, tx, c, ack, bits)
  }
}
