/** Which packets an acknowledgement or the retransmission timer gives up, and what becomes of their messages, in terms
    of the acknowledgement's number and of the time the packet was sent. */
module PacketFates {
  import opened MachineWords
  import opened SerialNumbers
  import opened MessagePool
  import opened Sender
  import opened SenderOps
  import opened SenderAcks
  import opened SenderFlush
  import opened SenderSteps
  import AckTracker

  // ----- one record ------------------------------------------------------------------------------

  /** Messages outside the record are untouched; those in it are free. */
  ghost predicate RefsGone(tx: Tx, tx': Tx, c: nat, i: nat) {
    && |tx'.msgs| == |tx.msgs| == |tx.place| == |tx'.place|
    && forall v :: 0 <= v < |tx.msgs| ==>
         if v in At(tx.boxes, InFlight(c, i)) then tx'.place[v] == Free
         else tx'.msgs[v] == tx.msgs[v] && tx'.place[v] == tx.place[v]
  }

  /** Messages outside the record are untouched; those in it wait for retransmission, or are free. */
  ghost predicate RefsLost(tx: Tx, tx': Tx, c: nat, i: nat) {
    && |tx'.msgs| == |tx.msgs| == |tx.place| == |tx'.place|
    && forall v :: 0 <= v < |tx.msgs| ==>
         if v in At(tx.boxes, InFlight(c, i)) then tx'.place[v] == Free || tx'.place[v] == Queued(Retry)
         else tx'.msgs[v] == tx.msgs[v] && tx'.place[v] == tx.place[v]
  }

  lemma ReleasedRefs(cfg: TxConfig, n: nat, tx: Tx, c: nat, i: nat, ack: uint32, bits: Word64)
    requires Loose(cfg, tx, n) && c < cfg.maxConns && i < cfg.slots && NothingOut(tx, c)
    requires tx.sent[c][i].used && AckTracker.Covers(ack, bits, tx.sent[c][i].number)
    ensures RefsGone(tx, Released(cfg, n, tx, c, i, ack, bits), c, i)
  {
    RefsInFlight(cfg, tx, c, i);
    RefsCovered(cfg, n, tx, c, i, ack, bits);
    var tx1 := FreedRefs(cfg, n, tx, c, At(tx.boxes, InFlight(c, i)), ack, bits);
  }

  lemma MarkedLostRefs(cfg: TxConfig, n: nat, tx: Tx, c: nat, i: nat, ack: uint32, bits: Word64)
    requires Loose(cfg, tx, n) && c < cfg.maxConns && i < cfg.slots && NothingOut(tx, c)
    ensures RefsLost(tx, MarkedLost(cfg, n, tx, c, i, ack, bits), c, i)
  {
    RefsInFlight(cfg, tx, c, i);
    var tx1 := LostRefs(cfg, n, tx, c, At(tx.boxes, InFlight(c, i)), ack, bits);
    forall v | 0 <= v < |tx.msgs| && v in At(tx.boxes, InFlight(c, i))
      ensures tx1.place[v] == Free || tx1.place[v] == Queued(Retry)
    {
      assert SlotResolved(cfg, tx, tx1, c, ack, bits, v);
    }
  }

  // ----- going through the tracked numbers -------------------------------------------------------

  /** The record outlives the cause. For an acknowledgement of number `top`: it does not name the packet and is less
      than three past it. For the timer: the time the packet was sent and the timeout together are still to come. */
  predicate Outlives(cause: Cause, top: int, si: SentInfo) {
    match cause
    case Acked(ack, bits) => !AckTracker.Covers(ack, bits, si.number) && top - si.unwrapped < 3
    case Elapsed(now, rto) => now < UINT64_MAX && now < si.sentNs + rto
  }

  /** What the cause is about: an acknowledgement's number with its 32 bits, close to the records' numbers. */
  ghost predicate About(cfg: TxConfig, tx: Tx, c: nat, cause: Cause, top: int)
    requires TxShape(cfg, tx) && c < cfg.maxConns
  {
    cause.Acked? ==>
      && cause.ack == Wrap32(top)
      && forall i :: 0 <= i < cfg.slots && tx.sent[c][i].used ==> -HALF_32 <= top - tx.sent[c][i].unwrapped < HALF_32
  }

  lemma GapMeans(top: int, u: int)
    requires -HALF_32 <= top - u < HALF_32
    ensures AckTracker.GapLost(Wrap32(top), Wrap32(u)) <==> top - u >= 3
  {
    After32Exact(top, u);
  }

  lemma CauseMeans(cfg: TxConfig, n: nat, tx: Tx, c: nat, cause: Cause, top: int, i: nat)
    requires Loose(cfg, tx, n) && c < cfg.maxConns && i < cfg.slots && tx.sent[c][i].used
    requires About(cfg, tx, c, cause, top)
    ensures Outlives(cause, top, tx.sent[c][i]) <==>
            !SenderAcks.Delivered(cause, tx.sent[c][i]) && !GivenUp(cause, tx.sent[c][i])
  {
    if cause.Acked? { GapMeans(top, tx.sent[c][i].unwrapped); }
  }

  /** The message is in flight in record i of the connection. */
  predicate InRecord(cfg: TxConfig, tx: Tx, c: nat, i: nat, v: nat)
    requires v < |tx.msgs| == |tx.place| && 0 < cfg.slots
  {
    tx.place[v].Flight? && tx.msgs[v].owner == c && tx.msgs[v].carrier % cfg.slots == i
  }

  predicate Named(todo: seq<int>, number: uint32) { exists k :: 0 <= k < |todo| && Wrap32(todo[k]) == number }

  /** A record in use stays as it is exactly if it outlives the cause or is not gone through. */
  ghost predicate RecordFate(cfg: TxConfig, tx: Tx, tx': Tx, c: nat, cause: Cause, top: int, todo: seq<int>, i: nat)
    requires TxShape(cfg, tx) && TxShape(cfg, tx') && c < cfg.maxConns && i < cfg.slots
  {
    var si := tx.sent[c][i];
    if !si.used then !tx'.sent[c][i].used
    else if Outlives(cause, top, si) || !Named(todo, si.number) then tx'.sent[c][i] == si
    else !tx'.sent[c][i].used
  }

  /** A message in flight stays as it is if its record does; if the acknowledgement names the packet it is free; and
      otherwise it waits for retransmission, or was dropped. Every other message stays as it is. */
  ghost predicate SlotFate(cfg: TxConfig, tx: Tx, tx': Tx, c: nat, cause: Cause, top: int, todo: seq<int>, v: nat)
    requires TxShape(cfg, tx) && c < cfg.maxConns && 0 < cfg.slots
    requires v < |tx.msgs| == |tx'.msgs| == |tx'.place|
  {
    if tx.place[v].Flight? && tx.msgs[v].owner == c then
      var si := tx.sent[c][tx.msgs[v].carrier % cfg.slots];
      if Outlives(cause, top, si) || !Named(todo, si.number) then Same(tx, tx', v)
      else if cause.Acked? && AckTracker.Covers(cause.ack, cause.bits, si.number) then tx'.place[v] == Free
      else tx'.place[v] == Free || tx'.place[v] == Queued(Retry)
    else Same(tx, tx', v)
  }

  predicate Same(tx: Tx, tx': Tx, v: nat)
    requires v < |tx.msgs| && v < |tx.place| && v < |tx'.msgs| && v < |tx'.place|
  {
    tx'.msgs[v] == tx.msgs[v] && tx'.place[v] == tx.place[v]
  }

  ghost predicate Fates(cfg: TxConfig, tx: Tx, tx': Tx, c: nat, cause: Cause, top: int, todo: seq<int>) {
    && TxShape(cfg, tx) && TxShape(cfg, tx') && c < cfg.maxConns && 0 < cfg.slots
    && (forall i :: 0 <= i < cfg.slots ==> RecordFate(cfg, tx, tx', c, cause, top, todo, i))
    && (forall v :: 0 <= v < |tx.msgs| ==> SlotFate(cfg, tx, tx', c, cause, top, todo, v))
  }

  /** Only record j ended, and only its messages moved. */
  ghost predicate EndsRecord(cfg: TxConfig, tx: Tx, tx': Tx, c: nat, j: nat, delivered: bool) {
    && TxShape(cfg, tx) && TxShape(cfg, tx') && c < cfg.maxConns && j < cfg.slots
    && tx'.sent == tx.sent[c := tx.sent[c][j := tx.sent[c][j].(used := false)]]
    && forall v :: 0 <= v < |tx.msgs| ==>
         if InRecord(cfg, tx, c, j, v) then tx'.place[v] == Free || (!delivered && tx'.place[v] == Queued(Retry))
         else Same(tx, tx', v)
  }

  lemma ReleasedEnds(cfg: TxConfig, n: nat, tx: Tx, c: nat, i: nat, ack: uint32, bits: Word64)
    requires Loose(cfg, tx, n) && c < cfg.maxConns && i < cfg.slots && NothingOut(tx, c)
    requires tx.sent[c][i].used && AckTracker.Covers(ack, bits, tx.sent[c][i].number)
    ensures EndsRecord(cfg, tx, Released(cfg, n, tx, c, i, ack, bits), c, i, true)
  {
    ReleasedRefs(cfg, n, tx, c, i, ack, bits);
    RefsInFlight(cfg, tx, c, i);
    RefsCovered(cfg, n, tx, c, i, ack, bits);
    var tx1 := FreedRefs(cfg, n, tx, c, At(tx.boxes, InFlight(c, i)), ack, bits);
    assert tx1.sent == tx.sent;
    RecordMembers(cfg, tx, c, i);
  }

  lemma MarkedLostEnds(cfg: TxConfig, n: nat, tx: Tx, c: nat, i: nat, ack: uint32, bits: Word64)
    requires Loose(cfg, tx, n) && c < cfg.maxConns && i < cfg.slots && NothingOut(tx, c)
    ensures EndsRecord(cfg, tx, MarkedLost(cfg, n, tx, c, i, ack, bits), c, i, false)
  {
    MarkedLostRefs(cfg, n, tx, c, i, ack, bits);
    RefsInFlight(cfg, tx, c, i);
    var tx1 := LostRefs(cfg, n, tx, c, At(tx.boxes, InFlight(c, i)), ack, bits);
    assert tx1.sent == tx.sent;
    RecordMembers(cfg, tx, c, i);
  }

  lemma RecordMembers(cfg: TxConfig, tx: Tx, c: nat, i: nat)
    requires Core(cfg, tx)
    ensures forall v :: 0 <= v < |tx.msgs| ==> (v in At(tx.boxes, InFlight(c, i)) <==> InRecord(cfg, tx, c, i, v))
  {
    FlightHome(cfg, tx, c, i);
    forall v | 0 <= v < |tx.msgs| && v in At(tx.boxes, InFlight(c, i))
      ensures InRecord(cfg, tx, c, i, v)
    {
      InBoxMeans(cfg, tx, InFlight(c, i), v);
    }
  }

  /** The end of one record is what the cause does when only its number is gone through. */
  lemma EndIsFate(cfg: TxConfig, n: nat, tx: Tx, tx': Tx, c: nat, cause: Cause, top: int, x: int, j: nat)
    requires Loose(cfg, tx, n) && c < cfg.maxConns && j == Wrap32(x) % cfg.slots && Live(cfg, tx, c, x)
    requires var delivered := SenderAcks.Delivered(cause, tx.sent[c][j]);
      EndsRecord(cfg, tx, tx', c, j, delivered) && !Outlives(cause, top, tx.sent[c][j])
    ensures Fates(cfg, tx, tx', c, cause, top, [x])
  {
    assert Named([x], tx.sent[c][j].number) by { assert Wrap32([x][0]) == tx.sent[c][j].number; }
    forall i | 0 <= i < cfg.slots
      ensures RecordFate(cfg, tx, tx', c, cause, top, [x], i)
    {
      if i != j && tx.sent[c][i].used { NotNamed(cfg, tx, c, x, i); }
    }
    forall v | 0 <= v < |tx.msgs|
      ensures SlotFate(cfg, tx, tx', c, cause, top, [x], v)
    {
      if tx.place[v].Flight? && tx.msgs[v].owner == c && tx.msgs[v].carrier % cfg.slots != j {
        NotNamed(cfg, tx, c, x, tx.msgs[v].carrier % cfg.slots);
      }
    }
  }

  lemma NotNamed(cfg: TxConfig, tx: Tx, c: nat, x: int, i: nat)
    requires ValidTx(cfg) && TxShape(cfg, tx) && SentInfoOk(cfg, tx) && c < cfg.maxConns && i < cfg.slots
    requires Wrap32(x) % cfg.slots != i && tx.sent[c][i].used
    ensures !Named([x], tx.sent[c][i].number)
  {
  }

  /** A record that outlives the cause, or is not in use, is left alone. */
  lemma StayIsFate(cfg: TxConfig, n: nat, tx: Tx, c: nat, cause: Cause, top: int, x: int)
    requires Loose(cfg, tx, n) && c < cfg.maxConns
    requires Live(cfg, tx, c, x) ==> Outlives(cause, top, tx.sent[c][Wrap32(x) % cfg.slots])
    ensures Fates(cfg, tx, tx, c, cause, top, [x])
  {
    forall i | 0 <= i < cfg.slots && tx.sent[c][i].used
      ensures Outlives(cause, top, tx.sent[c][i]) || !Named([x], tx.sent[c][i].number)
    {
      if Wrap32(x) % cfg.slots != i { NotNamed(cfg, tx, c, x, i); }
    }
  }

  lemma OneFate(cfg: TxConfig, n: nat, tx: Tx, c: nat, cause: Cause, top: int, x: int, tx': Tx)
    requires Loose(cfg, tx, n) && c < cfg.maxConns && NothingOut(tx, c) && About(cfg, tx, c, cause, top)
    requires OneTracked(cfg, n, tx, c, cause, x) == None ==> tx' == tx
    requires OneTracked(cfg, n, tx, c, cause, x).Some? ==> OneTracked(cfg, n, tx, c, cause, x) == Some(tx')
    ensures Fates(cfg, tx, tx', c, cause, top, [x])
  {
    var j := Wrap32(x) % cfg.slots;
    if !Live(cfg, tx, c, x) {
      StayIsFate(cfg, n, tx, c, cause, top, x);
    } else {
      CauseMeans(cfg, n, tx, c, cause, top, j);
      if SenderAcks.Delivered(cause, tx.sent[c][j]) {
        ReleasedEnds(cfg, n, tx, c, j, AckOf(cause), BitsOf(cause));
        EndIsFate(cfg, n, tx, tx', c, cause, top, x, j);
      } else if GivenUp(cause, tx.sent[c][j]) {
        MarkedLostEnds(cfg, n, tx, c, j, AckOf(cause), BitsOf(cause));
        EndIsFate(cfg, n, tx, tx', c, cause, top, x, j);
      } else {
        StayIsFate(cfg, n, tx, c, cause, top, x);
      }
    }
  }

  /** One number after the other. */
  lemma FatesThen(cfg: TxConfig, n: nat, a: Tx, b: Tx, d: Tx, c: nat, cause: Cause, top: int, todo: seq<int>)
    requires todo != [] && Loose(cfg, a, n) && Loose(cfg, b, n) && Fates(cfg, a, b, c, cause, top, [todo[0]])
    requires Fates(cfg, b, d, c, cause, top, todo[1..])
    ensures Fates(cfg, a, d, c, cause, top, todo)
  {
    forall number
      ensures Named(todo, number) <==> Named([todo[0]], number) || Named(todo[1..], number)
    {
      NamedThen(todo, number);
    }
    forall i | 0 <= i < cfg.slots
      ensures RecordFate(cfg, a, d, c, cause, top, todo, i)
    {
      assert RecordFate(cfg, a, b, c, cause, top, [todo[0]], i) && RecordFate(cfg, b, d, c, cause, top, todo[1..], i);
    }
    forall v | 0 <= v < |a.msgs|
      ensures SlotFate(cfg, a, d, c, cause, top, todo, v)
    {
      SlotFateThen(cfg, n, a, b, d, c, cause, top, todo, v);
    }
  }

  lemma NamedThen(todo: seq<int>, number: uint32)
    requires todo != []
    ensures Named(todo, number) <==> Named([todo[0]], number) || Named(todo[1..], number)
  {
    if Named([todo[0]], number) { assert Wrap32(todo[0]) == number; }
    if Named(todo[1..], number) {
      var k :| 0 <= k < |todo[1..]| && Wrap32(todo[1..][k]) == number;
      assert todo[k + 1] == todo[1..][k];
    }
    if Named(todo, number) {
      var k :| 0 <= k < |todo| && Wrap32(todo[k]) == number;
      if k > 0 { assert todo[1..][k - 1] == todo[k]; } else { assert [todo[0]][0] == todo[k]; }
    }
  }

  lemma SlotFateThen(cfg: TxConfig, n: nat, a: Tx, b: Tx, d: Tx, c: nat, cause: Cause, top: int, todo: seq<int>, v: nat)
    requires todo != [] && Loose(cfg, a, n) && Loose(cfg, b, n) && Fates(cfg, a, b, c, cause, top, [todo[0]])
    requires Fates(cfg, b, d, c, cause, top, todo[1..]) && v < |a.msgs|
    requires forall number :: Named(todo, number) <==> Named([todo[0]], number) || Named(todo[1..], number)
    ensures SlotFate(cfg, a, d, c, cause, top, todo, v)
  {
    assert SlotFate(cfg, a, b, c, cause, top, [todo[0]], v) && SlotFate(cfg, b, d, c, cause, top, todo[1..], v);
    if a.place[v].Flight? && a.msgs[v].owner == c {
      var i := a.msgs[v].carrier % cfg.slots;
      assert RecordFate(cfg, a, b, c, cause, top, [todo[0]], i);
    }
  }

  lemma AboutStays(cfg: TxConfig, a: Tx, b: Tx, c: nat, cause: Cause, top: int, todo: seq<int>)
    requires Fates(cfg, a, b, c, cause, top, todo) && About(cfg, a, c, cause, top)
    ensures About(cfg, b, c, cause, top)
  {
    forall i | 0 <= i < cfg.slots && b.sent[c][i].used
      ensures b.sent[c][i] == a.sent[c][i]
    {
      assert RecordFate(cfg, a, b, c, cause, top, todo, i);
    }
  }

  lemma {:induction false} LoopFates(cfg: TxConfig, n: nat, tx: Tx, c: nat, cause: Cause, top: int, todo: seq<int>)
    requires Loose(cfg, tx, n) && c < cfg.maxConns && NothingOut(tx, c) && About(cfg, tx, c, cause, top)
    ensures Fates(cfg, tx, TrackedLoop(cfg, n, tx, c, cause, todo).0, c, cause, top, todo)
    decreases |todo|
  {
    if todo != [] {
      var one := OneTracked(cfg, n, tx, c, cause, todo[0]);
      var tx1 := if one.Some? then one.value else tx;
      OneFate(cfg, n, tx, c, cause, top, todo[0], tx1);
      AboutStays(cfg, tx, tx1, c, cause, top, [todo[0]]);
      LoopFates(cfg, n, tx1, c, cause, top, todo[1..]);
      FatesThen(cfg, n, tx, tx1, TrackedLoop(cfg, n, tx1, c, cause, todo[1..]).0, c, cause, top, todo);
    }
  }

  /** What is kept in the queue is live. */
  lemma {:induction false} KeptLive(cfg: TxConfig, n: nat, tx: Tx, c: nat, cause: Cause, top: int, todo: seq<int>,
                                    x: int)
    requires Loose(cfg, tx, n) && c < cfg.maxConns && NothingOut(tx, c) && About(cfg, tx, c, cause, top)
    requires x in TrackedLoop(cfg, n, tx, c, cause, todo).1
    ensures x in todo && Live(cfg, TrackedLoop(cfg, n, tx, c, cause, todo).0, c, x)
    decreases |todo|
  {
    var one := OneTracked(cfg, n, tx, c, cause, todo[0]);
    var tx1 := if one.Some? then one.value else tx;
    OneFate(cfg, n, tx, c, cause, top, todo[0], tx1);
    AboutStays(cfg, tx, tx1, c, cause, top, [todo[0]]);
    var r := TrackedLoop(cfg, n, tx1, c, cause, todo[1..]);
    if x in r.1 {
      KeptLive(cfg, n, tx1, c, cause, top, todo[1..], x);
    } else {
      var i := Wrap32(x) % cfg.slots;
      CauseMeans(cfg, n, tx, c, cause, top, i);
      LoopFates(cfg, n, tx1, c, cause, top, todo[1..]);
      assert RecordFate(cfg, tx1, r.0, c, cause, top, todo[1..], i);
    }
  }

  // ----- the theorems ----------------------------------------------------------------------------

  lemma FatesSame(cfg: TxConfig, a: Tx, b: Tx, b': Tx, c: nat, cause: Cause, top: int, todo: seq<int>)
    requires Fates(cfg, a, b, c, cause, top, todo) && TxShape(cfg, b')
    requires b'.sent == b.sent && b'.msgs == b.msgs && b'.place == b.place
    ensures Fates(cfg, a, b', c, cause, top, todo)
  {
    forall i | 0 <= i < cfg.slots
      ensures RecordFate(cfg, a, b', c, cause, top, todo, i)
    {
      assert RecordFate(cfg, a, b, c, cause, top, todo, i);
    }
    forall v | 0 <= v < |a.msgs|
      ensures SlotFate(cfg, a, b', c, cause, top, todo, v)
    {
      assert SlotFate(cfg, a, b, c, cause, top, todo, v);
    }
  }

  lemma DoneFates(cfg: TxConfig, tx: Tx, c: nat, cause: Cause, top: int, tx': Tx)
    requires Loose(cfg, tx, 0) && c < cfg.maxConns && NothingOut(tx, c) && About(cfg, tx, c, cause, top)
    requires tx' == TrackedDone(cfg, tx, c, cause)
    ensures Fates(cfg, tx, tx', c, cause, top, tx.conns[c].tracked)
  {
    var r := TrackedLoop(cfg, 0, tx, c, cause, tx.conns[c].tracked);
    LoopFates(cfg, 0, tx, c, cause, top, tx.conns[c].tracked);
    FatesSame(cfg, tx, r.0, tx', c, cause, top, tx.conns[c].tracked);
  }

  lemma InNamed(todo: seq<int>, x: int)
    requires x in todo
    ensures Named(todo, Wrap32(x))
  {
    var k :| 0 <= k < |todo| && todo[k] == x;
    assert Wrap32(todo[k]) == Wrap32(x);
  }

  /** A tracked number is live afterwards exactly if it was, and its record outlives the cause; and exactly the live
      ones stay tracked. */
  lemma {:induction false} TrackedFates(cfg: TxConfig, tx: Tx, c: nat, cause: Cause, top: int, x: int, tx': Tx)
    requires Loose(cfg, tx, 0) && c < cfg.maxConns && NothingOut(tx, c) && About(cfg, tx, c, cause, top)
    requires tx' == TrackedDone(cfg, tx, c, cause)
    ensures x in tx'.conns[c].tracked <==> x in tx.conns[c].tracked && Live(cfg, tx', c, x)
    ensures x in tx.conns[c].tracked ==>
      (Live(cfg, tx', c, x) <==>
       Live(cfg, tx, c, x) && Outlives(cause, top, tx.sent[c][Wrap32(x) % cfg.slots]))
  {
    var todo, i := tx.conns[c].tracked, Wrap32(x) % cfg.slots;
    DoneFates(cfg, tx, c, cause, top, tx');
    assert RecordFate(cfg, tx, tx', c, cause, top, todo, i);
    if x in todo {
      InNamed(todo, x);
      TrackedKeepsLive(cfg, 0, tx, c, cause, todo);
    }
    if x in tx'.conns[c].tracked { KeptLive(cfg, 0, tx, c, cause, top, todo, x); }
  }

  /** The retransmission timer gives up a tracked packet exactly if the timeout has passed since it was sent, the sum
      cut at the largest time there is. Its messages then wait for retransmission or were dropped, and those of every
      other packet stay in flight. */
  lemma TimerFates(cfg: TxConfig, tx: Tx, c: nat, now: uint64, rto: nat, x: int, tx': Tx)
    requires Building(cfg, tx) && c < cfg.maxConns && NothingOut(tx, c) && tx' == TurnTimedOut(cfg, tx, c, now, rto)
    requires x in tx.conns[c].tracked && Live(cfg, tx, c, x)
    ensures var sent := tx.sent[c][Wrap32(x) % cfg.slots].sentNs;
      var due := if sent + rto > UINT64_MAX then UINT64_MAX else sent + rto;
      && (Live(cfg, tx', c, x) <==> now < due) && (x in tx'.conns[c].tracked <==> now < due)
      && forall v :: (0 <= v < |tx.msgs| && tx.place[v].Flight? && tx.msgs[v].owner == c
                      && tx.msgs[v].carrier == Wrap32(x)) ==>
           if now < due then Same(tx, tx', v) else tx'.place[v] == Free || tx'.place[v] == Queued(Retry)
  {
    var tx1 := TrackedDone(cfg, tx, c, Elapsed(now, rto));
    TrackedFates(cfg, tx, c, Elapsed(now, rto), 0, x, tx1);
    DoneFates(cfg, tx, c, Elapsed(now, rto), 0, tx1);
    InNamed(tx.conns[c].tracked, x);
    forall v | 0 <= v < |tx.msgs| && tx.place[v].Flight? && tx.msgs[v].owner == c && tx.msgs[v].carrier == Wrap32(x)
      ensures SlotFate(cfg, tx, tx1, c, Elapsed(now, rto), 0, tx.conns[c].tracked, v)
    {
    }
  }

  /** What an acknowledgement of number `top` does to a tracked packet: it is done with exactly if it is named or three
      or more behind. If named its messages are free, and if not they wait for retransmission or were dropped. */
  lemma AckFates(cfg: TxConfig, tx: Tx, c: nat, top: int, bits: Word64, x: int, tx1: Tx)
    requires Loose(cfg, tx, 0) && c < cfg.maxConns && NothingOut(tx, c)
    requires tx1 == TrackedDone(cfg, tx, c, Acked(Wrap32(top), bits))
    requires About(cfg, tx, c, Acked(Wrap32(top), bits), top)
    requires x in tx.conns[c].tracked && Live(cfg, tx, c, x)
    ensures var u := tx.sent[c][Wrap32(x) % cfg.slots].unwrapped;
      var named := AckTracker.Covers(Wrap32(top), bits, Wrap32(x));
      && (Live(cfg, tx1, c, x) <==> !named && top - u < 3)
      && (x in tx1.conns[c].tracked <==> !named && top - u < 3)
      && forall v :: (0 <= v < |tx.msgs| && tx.place[v].Flight? && tx.msgs[v].owner == c
                      && tx.msgs[v].carrier == Wrap32(x)) ==>
           if named then tx1.place[v] == Free
           else if top - u < 3 then Same(tx, tx1, v)
           else tx1.place[v] == Free || tx1.place[v] == Queued(Retry)
  {
    var cause := Acked(Wrap32(top), bits);
    TrackedFates(cfg, tx, c, cause, top, x, tx1);
    DoneFates(cfg, tx, c, cause, top, tx1);
    InNamed(tx.conns[c].tracked, x);
    forall v | 0 <= v < |tx.msgs| && tx.place[v].Flight? && tx.msgs[v].owner == c && tx.msgs[v].carrier == Wrap32(x)
      ensures SlotFate(cfg, tx, tx1, c, cause, top, tx.conns[c].tracked, v)
    {
    }
  }

  /** The rest of the acknowledgement: messages that lost a packet it names are free, wherever they are, and no others
      move. An acknowledgement of 0 does nothing. */
  lemma LateFates(cfg: TxConfig, tx: Tx, c: nat, ack: uint32, bits: Word64, tx1: Tx, tx': Tx, v: nat)
    requires Loose(cfg, tx, 0) && c < cfg.maxConns && NothingOut(tx, c) && v < |tx.msgs|
    requires tx1 == TrackedDone(cfg, tx, c, Acked(ack, bits)) && tx' == AckReceived(cfg, tx, c, ack, bits)
    ensures ack == 0 ==> tx' == tx
    ensures ack != 0 ==>
      if (tx1.place[v] != Free && tx1.msgs[v].owner == c
          && exists k :: 0 <= k < |tx1.msgs[v].lostAcks| && AckTracker.Covers(ack, bits, tx1.msgs[v].lostAcks[k]))
      then tx'.place[v] == Free else Same(tx1, tx', v)
  {
    if ack != 0 {
      assert LateGoneFrom(tx1, LateAcks(cfg, tx1, c, ack, bits), c, ack, bits, 0);
      assert MsgOk(cfg.maxConns, cfg.maxFlows, tx1.msgs[v], tx1.place[v]);
    }
  }

  // ----- lost packets are remembered -------------------------------------------------------------

  /** The last elements of a list, four at most. */
  function LastFour(s: seq<uint32>): seq<uint32> { if |s| <= 4 then s else s[|s| - 4..] }

  /** A message that waits for retransmission after its packet was given up is the same message, and remembers the
      packet: the four it lost last, each once. */
  lemma LossRemembered(cfg: TxConfig, tx: Tx, tx': Tx, c: nat, ack: uint32, bits: Word64, v: nat)
    requires Core(cfg, tx) && Resolved(cfg, tx, tx', c, ack, bits) && v < |tx.msgs|
    requires tx.place[v].Flight? && tx'.place[v] == Queued(Retry)
    ensures var m, m' := tx.msgs[v], tx'.msgs[v];
      && SameContent(m, m') && m'.priority == m.priority && m'.deadline == m.deadline && m'.carriedBy == m.carriedBy
      && m'.lostAcks == (if m.carrier in m.lostAcks then m.lostAcks else LastFour(m.lostAcks + [m.carrier]))
  {
    assert SlotResolved(cfg, tx, tx', c, ack, bits, v);
    var lost := tx.msgs[v].lostAcks;
    if |lost| == 4 { assert (lost + [tx.msgs[v].carrier])[1..] == lost[1..] + [tx.msgs[v].carrier]; }
  }
}
