/** The configuration `skip_unreliable_acks = 1` with a large enough sent-packet table: all tracked
    packet numbers and the newest one fit in a window of 64, and a flow never has more than 64 times 16
    reliable messages outstanding. */
module SenderWindow {
  import opened MachineWords
  import opened SerialNumbers
  import opened Receiver
  import opened MessagePool
  import opened PoolTallies
  import opened Sender
  import opened SenderOps
  import opened SenderAcks
  import opened SenderFlush
  import opened SenderBatch
  import SackWindow

  /** Reliable packets only take numbers through the gate, and no window of numbers collides in the table. */
  predicate Gated(cfg: TxConfig) {
    cfg.skipUnreliableAcks && SackWindow.ACK_WINDOW <= cfg.slots && SackWindow.WrapSafe(cfg.slots)
  }

  predicate Increasing(s: seq<int>) { forall i, j :: 0 <= i < j < |s| ==> s[i] < s[j] }

  predicate InWindow(newest: int, x: int) {
    newest - SackWindow.ACK_WINDOW < x <= newest && Wrap32(x) != 0
  }

  /** Batch packet b, from packet n on, has a number of connection c. */
  predicate Pending(tx: Tx, c: nat, n: nat, b: nat) {
    n <= b < |tx.batch| && tx.batch[b].conn == c && tx.batch[b].number != 0
  }

  ghost predicate TrackedOk(cn: ConnTx) {
    Increasing(cn.tracked) && forall x :: x in cn.tracked ==> InWindow(cn.newest, x)
  }

  ghost predicate RecordsTracked(cfg: TxConfig, tx: Tx, c: nat)
    requires TxShape(cfg, tx) && c < cfg.maxConns
  {
    forall i :: 0 <= i < cfg.slots && tx.sent[c][i].used ==> tx.sent[c][i].unwrapped in tx.conns[c].tracked
  }

  ghost predicate PendingOk(tx: Tx, c: nat, n: nat)
    requires c < |tx.conns|
  {
    && (forall b: nat :: Pending(tx, c, n, b) ==>
          && InWindow(tx.conns[c].newest, tx.batch[b].unwrapped) && tx.batch[b].number == Wrap32(tx.batch[b].unwrapped)
          && forall x :: x in tx.conns[c].tracked ==> x < tx.batch[b].unwrapped)
    && (forall a: nat, b: nat :: a < b && Pending(tx, c, n, a) && Pending(tx, c, n, b) ==>
          tx.batch[a].unwrapped < tx.batch[b].unwrapped)
  }

  /** The live records of connection c are tracked, everything tracked or pending is in one window of 64
      with the newest number, and numbers grow with the order of sending. */
  ghost predicate Win(cfg: TxConfig, tx: Tx, c: nat, n: nat)
    requires TxShape(cfg, tx) && c < cfg.maxConns
  {
    TrackedOk(tx.conns[c]) && RecordsTracked(cfg, tx, c) && PendingOk(tx, c, n)
  }

  /** Win depends on the numbering, the records, and the numbers of the batch packets only. */
  ghost predicate SameNumbers(tx: Tx, tx': Tx, c: nat) {
    && c < |tx.conns| == |tx'.conns| && c < |tx.sent| == |tx'.sent|
    && tx'.sent[c] == tx.sent[c]
    && tx'.conns[c].newest == tx.conns[c].newest && tx'.conns[c].tracked == tx.conns[c].tracked
    && |tx'.batch| == |tx.batch|
    && forall b :: 0 <= b < |tx.batch| ==> tx'.batch[b] == tx.batch[b].(bytes := tx'.batch[b].bytes)
  }

  lemma WinSame(cfg: TxConfig, tx: Tx, tx': Tx, c: nat, n: nat)
    requires TxShape(cfg, tx) && TxShape(cfg, tx') && c < cfg.maxConns
    requires Win(cfg, tx, c, n) && SameNumbers(tx, tx', c)
    ensures Win(cfg, tx', c, n)
  {
    forall b: nat | Pending(tx', c, n, b)
      ensures Pending(tx, c, n, b)
    {
    }
  }

  lemma WinLater(cfg: TxConfig, tx: Tx, c: nat, n: nat, m: nat)
    requires TxShape(cfg, tx) && c < cfg.maxConns && Win(cfg, tx, c, n) && n <= m
    ensures Win(cfg, tx, c, m)
  {
    forall b: nat | Pending(tx, c, m, b)
      ensures Pending(tx, c, n, b)
    {
    }
  }

  // ----- acknowledgements and losses -------------------------------------------------------------

  lemma {:induction false} SelectionOk(sub: seq<int>, todo: seq<int>)
    requires Selection(sub, todo)
    ensures forall x :: x in sub ==> x in todo
    ensures Increasing(todo) ==> Increasing(sub)
    decreases |todo|
  {
    if todo != [] {
      assert Increasing(todo) ==> Increasing(todo[1..]);
      if sub != [] && sub[0] == todo[0] && Selection(sub[1..], todo[1..]) {
        SelectionOk(sub[1..], todo[1..]);
        forall x | x in sub
          ensures x in todo
        {
          assert sub == [sub[0]] + sub[1..];
        }
        if Increasing(todo) {
          forall i, j | 0 <= i < j < |sub|
            ensures sub[i] < sub[j]
          {
            assert sub[j] == sub[1..][j - 1] && sub[1..][j - 1] in todo[1..];
            if i > 0 { assert sub[i] == sub[1..][i - 1]; }
          }
        }
      } else {
        SelectionOk(sub, todo[1..]);
      }
    }
  }

  /** Records may go, and numbers whose records went may leave the queue. */
  lemma {:induction false} WinAfterAcks(cfg: TxConfig, n: nat, tx: Tx, tx': Tx, c: nat, kept: seq<int>)
    requires Loose(cfg, tx', n) && TxShape(cfg, tx) && c < cfg.maxConns && Win(cfg, tx, c, n)
    requires PacketsKept(cfg, tx, tx', c)
    requires Selection(kept, tx.conns[c].tracked)
    requires forall x :: x in tx.conns[c].tracked && Live(cfg, tx', c, x) ==> x in kept
    ensures Win(cfg, tx'.(conns := tx'.conns[c := tx'.conns[c].(tracked := kept)]), c, n)
  {
    var tx2 := tx'.(conns := tx'.conns[c := tx'.conns[c].(tracked := kept)]);
    SelectionOk(kept, tx.conns[c].tracked);
    forall i | 0 <= i < cfg.slots && tx2.sent[c][i].used
      ensures tx2.sent[c][i].unwrapped in kept
    {
      assert tx'.sent[c][i] == tx.sent[c][i];
      assert Live(cfg, tx', c, tx'.sent[c][i].unwrapped);
    }
    forall b: nat | Pending(tx2, c, n, b)
      ensures Pending(tx, c, n, b)
    {
    }
  }

  // ----- numbers ---------------------------------------------------------------------------------

  /** A record with number x is live and tracked. */
  predicate Recorded_(cfg: TxConfig, tx: Tx, c: nat, x: int)
    requires 0 < cfg.slots && c < |tx.sent| == |tx.conns| && |tx.sent[c]| == cfg.slots
  {
    x in tx.conns[c].tracked && Live(cfg, tx, c, x)
  }

  /** The numbers issued in this flush start at `batchFirst`, which is on its way or has been recorded. */
  ghost predicate FlushWin(cfg: TxConfig, tx: Tx, c: nat)
    requires TxShape(cfg, tx) && 0 < cfg.slots && c < cfg.maxConns
  {
    var cn := tx.conns[c];
    if cn.batchFirst == 0 then forall b: nat :: !Pending(tx, c, 0, b)
    else
      && cn.batchFirst <= cn.newest < cn.batchFirst + SackWindow.ACK_WINDOW
      && (forall b: nat :: Pending(tx, c, 0, b) ==> cn.batchFirst <= tx.batch[b].unwrapped)
      && (Recorded_(cfg, tx, c, cn.batchFirst)
          || exists b: nat :: Pending(tx, c, 0, b) && tx.batch[b].unwrapped == cn.batchFirst)
  }

  /** Everything a new number u must stay within 64 of. */
  ghost predicate AllWithin(tx: Tx, c: nat, cn: ConnTx, u: int) {
    && (forall x :: x in cn.tracked ==> u - SackWindow.ACK_WINDOW < x < u)
    && (forall b: nat :: Pending(tx, c, 0, b) ==> u - SackWindow.ACK_WINDOW < tx.batch[b].unwrapped < u)
    && (cn.batchFirst != 0 ==> u - SackWindow.ACK_WINDOW < cn.batchFirst < u)
  }

  /** `prune_sent_seq_queue` keeps the order. */
  lemma {:induction false} PrunedSelection(cfg: TxConfig, tx: Tx, c: nat, tracked: seq<int>)
    requires 0 < cfg.slots && c < |tx.sent| && |tx.sent[c]| == cfg.slots
    ensures Selection(Pruned(cfg, tx, c, tracked), tracked)
  {
    if tracked != [] {
      PrunedSelection(cfg, tx, c, tracked[1..]);
      if Live(cfg, tx, c, tracked[0]) {
        assert Pruned(cfg, tx, c, tracked)[1..] == Pruned(cfg, tx, c, tracked[1..]);
      } else {
        assert Pruned(cfg, tx, c, tracked) == Pruned(cfg, tx, c, tracked[1..]);
      }
    }
  }

  lemma OldestFirst(s: seq<int>, x: int)
    requires Increasing(s) && x in s
    ensures s[0] <= x
  {
    var i :| 0 <= i < |s| && s[i] == x;
    if i > 0 { assert s[0] < s[i]; }
  }

  /** The 32-bit gate is exact: it lets a number through only if the whole window stays within 64. */
  lemma {:induction false} GateMeans(cfg: TxConfig, tx: Tx, c: nat, cn: ConnTx)
    requires TxShape(cfg, tx) && 0 < cfg.slots && c < cfg.maxConns && Win(cfg, tx, c, 0) && FlushWin(cfg, tx, c)
    requires cn == tx.conns[c].(tracked := Pruned(cfg, tx, c, tx.conns[c].tracked))
    requires WindowAllows(cn, Wrap32(SackWindow.NextUnwrapped(cn.newest)))
    ensures AllWithin(tx, c, cn, SackWindow.NextUnwrapped(cn.newest))
  {
    var u := SackWindow.NextUnwrapped(cn.newest);
    SackWindow.NextNumber(cn.newest);
    PrunedSelection(cfg, tx, c, tx.conns[c].tracked);
    SelectionOk(cn.tracked, tx.conns[c].tracked);
    if cn.tracked != [] {
      assert cn.tracked[0] in cn.tracked;
      SackWindow.GateExact(u, cn.tracked[0]);
      forall x | x in cn.tracked
        ensures u - SackWindow.ACK_WINDOW < x < u
      {
        OldestFirst(cn.tracked, x);
      }
      if cn.batchFirst != 0 && Recorded_(cfg, tx, c, cn.batchFirst) {
        OldestFirst(cn.tracked, cn.batchFirst);
      }
    } else if cn.batchFirst != 0 {
      SackWindow.GateExact(u, cn.batchFirst);
    }
  }

  /** No live record and no packet of the batch stands in the way of the number. */
  lemma {:induction false} FirstTryFree(cfg: TxConfig, tx: Tx, c: nat, u: int)
    requires Loose(cfg, tx, 0) && Gated(cfg) && c < cfg.maxConns && Wrap32(u) != 0
    requires Win(cfg, tx, c, 0)
    requires AllWithin(tx, c, tx.conns[c].(tracked := Pruned(cfg, tx, c, tx.conns[c].tracked)), u)
    ensures SlotAvailable(cfg, tx, c, Wrap32(u))
  {
    var i := Wrap32(u) % cfg.slots;
    if tx.sent[c][i].used {
      var x := tx.sent[c][i].unwrapped;
      assert Live(cfg, tx, c, x);
      assert x in Pruned(cfg, tx, c, tx.conns[c].tracked);
      SackWindow.DistinctSlots(cfg.slots, u, x);
    }
    forall b | 0 <= b < |tx.batch| && tx.batch[b].conn == c && BatchHasReliable(tx, b)
      ensures tx.batch[b].number % cfg.slots != Wrap32(u) % cfg.slots
    {
      var v :| 0 <= v < |tx.msgs| && tx.place[v].Packed? && tx.place[v].b == b && IsReliable(tx.msgs[v].rel);
      assert PackedSlotOk(cfg, tx, 0, v);
      assert Pending(tx, c, 0, b);
      SackWindow.DistinctSlots(cfg.slots, u, tx.batch[b].unwrapped);
    }
  }

  /** The connection after number u was issued. */
  function WithNumber(cn: ConnTx, tracked: seq<int>, u: int): ConnTx {
    cn.(tracked := tracked, newest := u, next := Wrap32(u + 1),
        batchFirst := if cn.batchFirst == 0 then u else cn.batchFirst)
  }

  /** Under the gate the numbers issued are consecutive, and each of them keeps the window. */
  lemma {:induction false} NumberedGated(cfg: TxConfig, tx: Tx, c: nat)
    requires Loose(cfg, tx, 0) && Gated(cfg) && c < cfg.maxConns && Win(cfg, tx, c, 0) && FlushWin(cfg, tx, c)
    ensures var r := Numbered(cfg, tx, c, true);
      var cn1 := tx.conns[c].(tracked := Pruned(cfg, tx, c, tx.conns[c].tracked));
      var u := SackWindow.NextUnwrapped(tx.conns[c].newest);
      if r.1 then
        && r.2 == u && AllWithin(tx, c, cn1, u)
        && r.0 == WithNumber(cn1, cn1.tracked, u)
      else r.0 == cn1
  {
    var cn1 := tx.conns[c].(tracked := Pruned(cfg, tx, c, tx.conns[c].tracked));
    var u := SackWindow.NextUnwrapped(tx.conns[c].newest);
    SackWindow.NextNumber(tx.conns[c].newest);
    if WindowAllows(cn1, Wrap32(u)) {
      GateMeans(cfg, tx, c, cn1);
      FirstTryFree(cfg, tx, c, u);
      assert IssuedFree(cfg, tx, c, cn1, cfg.slots) == (Issued(cn1), true);
    }
  }

  // ----- a new packet ----------------------------------------------------------------------------

  lemma {:induction false} RecordsStayTracked(cfg: TxConfig, tx: Tx, tx1: Tx, c: nat)
    requires Loose(cfg, tx, 0) && TxShape(cfg, tx1) && c < cfg.maxConns && tx1.sent == tx.sent
    requires RecordsTracked(cfg, tx, c) && tx1.conns[c].tracked == Pruned(cfg, tx, c, tx.conns[c].tracked)
    ensures RecordsTracked(cfg, tx1, c)
  {
    forall i | 0 <= i < cfg.slots && tx1.sent[c][i].used
      ensures tx1.sent[c][i].unwrapped in tx1.conns[c].tracked
    {
      assert Live(cfg, tx, c, tx.sent[c][i].unwrapped);
    }
  }

  /** A new packet with number u. */
  lemma {:induction false} WinWithPacket(cfg: TxConfig, tx: Tx, tx1: Tx, c: nat, u: int)
    requires Loose(cfg, tx, 0) && TxShape(cfg, tx1) && c < cfg.maxConns
    requires Win(cfg, tx, c, 0) && FlushWin(cfg, tx, c)
    requires var tracked := Pruned(cfg, tx, c, tx.conns[c].tracked);
      && AllWithin(tx, c, tx.conns[c].(tracked := tracked), u)
      && tx1.conns[c] == WithNumber(tx.conns[c], tracked, u)
    requires Wrap32(u) != 0 && tx.conns[c].newest < u && tx1.sent == tx.sent
    requires tx1.batch == tx.batch + [OutInfo(c, Wrap32(u), u, false, HEADER_BYTES)]
    ensures Win(cfg, tx1, c, 0) && FlushWin(cfg, tx1, c)
  {
    PrunedSelection(cfg, tx, c, tx.conns[c].tracked);
    SelectionOk(tx1.conns[c].tracked, tx.conns[c].tracked);
    PendingWithPacket(tx, tx1, c, u);
    RecordsStayTracked(cfg, tx, tx1, c);
    FirstStays(cfg, tx, tx1, c, u);
  }

  lemma PendingWithPacket(tx: Tx, tx1: Tx, c: nat, u: int)
    requires c < |tx.conns| == |tx1.conns| && PendingOk(tx, c, 0) && Wrap32(u) != 0
    requires AllWithin(tx, c, tx1.conns[c].(batchFirst := tx.conns[c].batchFirst), u) && tx1.conns[c].newest == u
    requires forall x :: x in tx1.conns[c].tracked ==> x in tx.conns[c].tracked
    requires tx1.batch == tx.batch + [OutInfo(c, Wrap32(u), u, false, HEADER_BYTES)]
    ensures PendingOk(tx1, c, 0)
    ensures forall b: nat :: Pending(tx1, c, 0, b) ==>
      b == |tx.batch| || (Pending(tx, c, 0, b) && tx1.batch[b] == tx.batch[b])
  {
    forall b: nat | Pending(tx1, c, 0, b)
      ensures b == |tx.batch| || (Pending(tx, c, 0, b) && tx1.batch[b] == tx.batch[b])
    {
    }
  }

  lemma {:induction false} FirstStays(cfg: TxConfig, tx: Tx, tx1: Tx, c: nat, u: int)
    requires TxShape(cfg, tx) && TxShape(cfg, tx1) && 0 < cfg.slots && c < cfg.maxConns && FlushWin(cfg, tx, c)
    requires tx1.conns[c].tracked == Pruned(cfg, tx, c, tx.conns[c].tracked) && tx1.sent == tx.sent
    requires tx1.conns[c].batchFirst == (if tx.conns[c].batchFirst == 0 then u else tx.conns[c].batchFirst)
    requires tx1.batch == tx.batch + [OutInfo(c, Wrap32(u), u, false, HEADER_BYTES)] && Wrap32(u) != 0
    ensures Recorded_(cfg, tx1, c, tx1.conns[c].batchFirst)
            || exists b: nat :: Pending(tx1, c, 0, b) && tx1.batch[b].unwrapped == tx1.conns[c].batchFirst
  {
    if tx.conns[c].batchFirst == 0 {
      assert Pending(tx1, c, 0, |tx.batch|);
    } else if !Recorded_(cfg, tx, c, tx.conns[c].batchFirst) {
      var b: nat :| Pending(tx, c, 0, b) && tx.batch[b].unwrapped == tx.conns[c].batchFirst;
      assert Pending(tx1, c, 0, b);
    }
  }

  /** A new packet without a number, or none at all; the queue may have been pruned. */
  lemma {:induction false} WinWithoutNumber(cfg: TxConfig, tx: Tx, tx1: Tx, c: nat, pruned: bool)
    requires Loose(cfg, tx, 0) && TxShape(cfg, tx1) && c < cfg.maxConns
    requires Win(cfg, tx, c, 0) && FlushWin(cfg, tx, c)
    requires tx1.conns[c] ==
      (if pruned then tx.conns[c].(tracked := Pruned(cfg, tx, c, tx.conns[c].tracked)) else tx.conns[c])
    requires tx1.sent == tx.sent
    requires tx1.batch == tx.batch || exists o: OutInfo :: o.number == 0 && tx1.batch == tx.batch + [o]
    ensures Win(cfg, tx1, c, 0) && FlushWin(cfg, tx1, c)
  {
    PrunedSelection(cfg, tx, c, tx.conns[c].tracked);
    SelectionOk(Pruned(cfg, tx, c, tx.conns[c].tracked), tx.conns[c].tracked);
    forall b: nat | Pending(tx1, c, 0, b)
      ensures Pending(tx, c, 0, b)
    {
    }
    if pruned { RecordsStayTracked(cfg, tx, tx1, c); }
    if tx.conns[c].batchFirst != 0 && !Recorded_(cfg, tx, c, tx.conns[c].batchFirst) {
      var b: nat :| Pending(tx, c, 0, b) && tx.batch[b].unwrapped == tx.conns[c].batchFirst;
      assert Pending(tx1, c, 0, b);
    }
  }

  /** Another connection's packet changes nothing for connection d. */
  lemma WinOther(cfg: TxConfig, tx: Tx, tx1: Tx, c: nat, d: nat)
    requires TxShape(cfg, tx) && TxShape(cfg, tx1) && d < cfg.maxConns && d != c && Win(cfg, tx, d, 0)
    requires tx1.conns[d] == tx.conns[d] && tx1.sent[d] == tx.sent[d]
    requires tx1.batch == tx.batch || exists o: OutInfo :: o.conn == c && tx1.batch == tx.batch + [o]
    ensures Win(cfg, tx1, d, 0)
  {
    forall b: nat | Pending(tx1, d, 0, b)
      ensures Pending(tx, d, 0, b)
    {
    }
  }

  /** The window part of the invariant while a batch is built for connection c. */
  ghost predicate FlushGated(cfg: TxConfig, tx: Tx, c: nat)
    requires TxShape(cfg, tx) && 0 < cfg.slots
  {
    && c < cfg.maxConns && FlushWin(cfg, tx, c)
    && forall d :: 0 <= d < cfg.maxConns ==> Win(cfg, tx, d, 0)
  }

  lemma PacketOpenedGated(cfg: TxConfig, tx: Tx, c: nat, reliable: bool)
    requires Building(cfg, tx) && Gated(cfg) && c < cfg.maxConns && FlushGated(cfg, tx, c)
    ensures FlushGated(cfg, PacketOpened(cfg, tx, c, reliable).0, c)
  {
    var tx1 := PacketOpened(cfg, tx, c, reliable).0;
    if reliable {
      NumberedGated(cfg, tx, c);
      var r := Numbered(cfg, tx, c, true);
      if r.1 {
        SackWindow.NextNumber(tx.conns[c].newest);
        WinWithPacket(cfg, tx, tx1, c, r.2);
      } else {
        WinWithoutNumber(cfg, tx, tx1, c, true);
      }
    } else {
      WinWithoutNumber(cfg, tx, tx1, c, false);
    }
    forall d | 0 <= d < cfg.maxConns && d != c
      ensures Win(cfg, tx1, d, 0)
    {
      WinOther(cfg, tx, tx1, c, d);
    }
  }

  // ----- picking and packing ---------------------------------------------------------------------

  /** Every numbered packet of the batch has a reliable message. */
  ghost predicate PendingReliable(tx: Tx)
    requires |tx.place| == |tx.msgs|
  {
    forall b: nat :: b < |tx.batch| && tx.batch[b].number != 0 ==> BatchHasReliable(tx, b)
  }

  /** The batch as it is for the window: sent[c], the numbering and the numbers of the packets. */
  lemma FlushGatedSame(cfg: TxConfig, tx: Tx, tx': Tx, c: nat)
    requires TxShape(cfg, tx) && TxShape(cfg, tx') && 0 < cfg.slots && FlushGated(cfg, tx, c)
    requires forall d :: 0 <= d < cfg.maxConns ==>
      SameNumbers(tx, tx', d) && tx'.conns[d].batchFirst == tx.conns[d].batchFirst
    ensures FlushGated(cfg, tx', c)
  {
    forall d | 0 <= d < cfg.maxConns
      ensures Win(cfg, tx', d, 0)
    {
      WinSame(cfg, tx, tx', d, 0);
    }
    forall b: nat
      ensures Pending(tx', c, 0, b) <==> Pending(tx, c, 0, b)
    {
    }
  }

  lemma OnlySameNumbers(tx: Tx, tx': Tx, v: nat, d: nat)
    requires Only(tx, tx', v) && d < |tx.conns| && d < |tx.sent|
    ensures SameNumbers(tx, tx', d) && tx'.conns[d].batchFirst == tx.conns[d].batchFirst
  {
  }

  /** Moving a slot that is not in the batch out of a ring, into the batch or back. */
  lemma MoveKeepsGated(cfg: TxConfig, tx: Tx, tx': Tx, c: nat, v: nat)
    requires TxShape(cfg, tx) && TxShape(cfg, tx') && 0 < cfg.slots && FlushGated(cfg, tx, c) && PendingReliable(tx)
    requires Only(tx, tx', v) && v < |tx.msgs| && !tx.place[v].Packed?
    ensures FlushGated(cfg, tx', c) && PendingReliable(tx')
  {
    forall d | 0 <= d < cfg.maxConns
      ensures SameNumbers(tx, tx', d) && tx'.conns[d].batchFirst == tx.conns[d].batchFirst
    {
      OnlySameNumbers(tx, tx', v, d);
    }
    FlushGatedSame(cfg, tx, tx', c);
    forall b: nat | b < |tx'.batch| && tx'.batch[b].number != 0
      ensures BatchHasReliable(tx', b)
    {
      var w :| 0 <= w < |tx.msgs| && tx.place[w].Packed? && tx.place[w].b == b && IsReliable(tx.msgs[w].rel);
      assert tx'.place[w] == tx.place[w] && tx'.msgs[w] == tx.msgs[w];
    }
  }

  lemma BytesKeepGated(cfg: TxConfig, tx: Tx, tx': Tx, c: nat)
    requires TxShape(cfg, tx) && 0 < cfg.slots && FlushGated(cfg, tx, c) && PendingReliable(tx)
    requires tx' == tx.(batch := tx'.batch) && |tx'.batch| == |tx.batch|
    requires forall b :: 0 <= b < |tx.batch| ==> tx'.batch[b] == tx.batch[b].(bytes := tx'.batch[b].bytes)
    ensures FlushGated(cfg, tx', c) && PendingReliable(tx')
  {
    FlushGatedSame(cfg, tx, tx', c);
    forall b: nat | b < |tx'.batch| && tx'.batch[b].number != 0
      ensures BatchHasReliable(tx', b)
    {
      assert tx.batch[b].number != 0 && BatchHasReliable(tx, b);
    }
  }

  /** Into the last packet, which may be a new one that the message makes reliable. */
  lemma PackedLastGated(cfg: TxConfig, tx: Tx, v: nat, c: nat)
    requires Building(cfg, tx) && v < |tx.msgs| && tx.place[v].Transit? && tx.batch != []
    requires tx.batch[|tx.batch| - 1].conn == tx.msgs[v].owner && !tx.batch[|tx.batch| - 1].ackOnly
    requires Fits(cfg, tx, v, |tx.batch| - 1) && FlushGated(cfg, tx, c)
    requires forall b: nat :: b < |tx.batch| && tx.batch[b].number != 0 ==>
      BatchHasReliable(tx, b) || (b == |tx.batch| - 1 && IsReliable(tx.msgs[v].rel))
    ensures FlushGated(cfg, PackedLast(cfg, tx, v), c) && PendingReliable(PackedLast(cfg, tx, v))
  {
    var last := |tx.batch| - 1;
    CanPackLast(cfg, tx, v);
    PackedLoose(cfg, tx, v, last);
    var tx1 := PackedInto(tx, v, last);
    forall d | 0 <= d < cfg.maxConns
      ensures SameNumbers(tx, tx1, d) && tx1.conns[d].batchFirst == tx.conns[d].batchFirst
    {
      OnlySameNumbers(tx, tx1, v, d);
    }
    FlushGatedSame(cfg, tx, tx1, c);
    PackedReliable(tx, tx1, v, last);
    BytesKeepGated(cfg, tx1, WithBytes(tx1, v, last), c);
  }

  lemma PackedReliable(tx: Tx, tx1: Tx, v: nat, last: nat)
    requires Only(tx, tx1, v) && v < |tx.msgs| && tx.place[v].Transit?
    requires tx1.place[v].Packed? && tx1.place[v].b == last && tx1.msgs[v] == tx.msgs[v]
    requires forall b: nat :: b < |tx.batch| && tx.batch[b].number != 0 ==>
      BatchHasReliable(tx, b) || (b == last && IsReliable(tx.msgs[v].rel))
    ensures PendingReliable(tx1)
  {
    forall b: nat | b < |tx1.batch| && tx1.batch[b].number != 0
      ensures BatchHasReliable(tx1, b)
    {
      if BatchHasReliable(tx, b) {
        var w :| 0 <= w < |tx.msgs| && tx.place[w].Packed? && tx.place[w].b == b && IsReliable(tx.msgs[w].rel);
        assert tx1.place[w] == tx.place[w] && tx1.msgs[w] == tx.msgs[w];
      } else {
        assert tx1.place[v].Packed? && tx1.place[v].b == b;
      }
    }
  }

  /** Whatever happens to message v when it is appended, the window holds. */
  lemma AppendedGated(cfg: TxConfig, tx: Tx, v: nat)
    requires Building(cfg, tx) && v < |tx.msgs| && tx.place[v].Transit? && Gated(cfg)
    requires FlushGated(cfg, tx, tx.msgs[v].owner) && PendingReliable(tx)
    ensures FlushGated(cfg, Appended(cfg, tx, v).0, tx.msgs[v].owner) && PendingReliable(Appended(cfg, tx, v).0)
  {
    var c, last := tx.msgs[v].owner, |tx.batch| - 1;
    if last >= 0 && tx.batch[last].conn == c && !tx.batch[last].ackOnly && Fits(cfg, tx, v, last) {
      PackedLastGated(cfg, tx, v, c);
    } else if |tx.batch| < cfg.batchSize {
      AppendedToNewGated(cfg, tx, v);
    }
  }

  lemma NewPacketNumber(cfg: TxConfig, tx: Tx, c: nat)
    requires Building(cfg, tx) && Gated(cfg) && c < cfg.maxConns
    ensures var r := PacketOpened(cfg, tx, c, false);
      r.1 && r.0.batch == tx.batch + [OutInfo(c, 0, 0, false, HEADER_BYTES)]
  {
  }

  lemma AppendedToNewGated(cfg: TxConfig, tx: Tx, v: nat)
    requires Building(cfg, tx) && v < |tx.msgs| && tx.place[v].Transit? && tx.msgs[v].owner < cfg.maxConns && Gated(cfg)
    requires FlushGated(cfg, tx, tx.msgs[v].owner) && PendingReliable(tx)
    ensures FlushGated(cfg, AppendedToNew(cfg, tx, v).0, tx.msgs[v].owner)
    ensures PendingReliable(AppendedToNew(cfg, tx, v).0)
  {
    var c, reliable := tx.msgs[v].owner, IsReliable(tx.msgs[v].rel);
    PacketOpenedGated(cfg, tx, c, reliable);
    var (tx1, ok) := PacketOpened(cfg, tx, c, reliable);
    if !reliable { NewPacketNumber(cfg, tx, c); }
    forall b: nat | b < |tx.batch| && tx1.batch[b].number != 0
      ensures BatchHasReliable(tx1, b)
    {
      if ok { assert tx1.batch[..|tx.batch|][b] == tx.batch[b]; }
      assert BatchHasReliable(tx, b);
    }
    if ok {
      NewPacketTakes(cfg, tx, tx1, v);
      PackedLastGated(cfg, tx1, v, c);
    }
  }

  /** One round of the flush loop keeps the window. */
  lemma PickedAndPackedGated(cfg: TxConfig, tx: Tx, c: nat, f: nat, kind: Kind)
    requires Building(cfg, tx) && Gated(cfg) && At(tx.boxes, Ring(c, f, kind)) != []
    requires FlushGated(cfg, tx, c) && PendingReliable(tx)
    ensures FlushGated(cfg, PickedAndPacked(cfg, tx, c, f, kind).0, c)
    ensures PendingReliable(PickedAndPacked(cfg, tx, c, f, kind).0)
  {
    var v := At(tx.boxes, Ring(c, f, kind))[0];
    InBoxMeans(cfg, tx, Ring(c, f, kind), v);
    PickedLoose(cfg, 0, tx, c, f, kind);
    var tx1 := Picked(tx, c, f, kind);
    MoveKeepsGated(cfg, tx, tx1, c, v);
    AppendedGated(cfg, tx1, v);
    var (tx2, ok) := Appended(cfg, tx1, v);
    if !ok {
      RequeuedLoose(cfg, 0, tx2, v);
      MoveKeepsGated(cfg, tx2, Requeued(cfg, tx2, v), c, v);
    }
  }

  // ----- sending ---------------------------------------------------------------------------------

  lemma {:induction false} IncreasingRoom(s: seq<int>, lo: int, hi: int)
    requires Increasing(s) && lo < hi && forall x :: x in s ==> lo < x < hi
    ensures |s| < hi - lo
  {
    if s != [] {
      var front, last := s[..|s| - 1], s[|s| - 1];
      assert last in s;
      forall x | x in front
        ensures lo < x < last
      {
        assert x in s;
      }
      IncreasingRoom(front, lo, last);
    }
  }

  /** The queue never overflows: its oldest number is never thrown away. */
  lemma TrackedAppends(cfg: TxConfig, tx: Tx, b: nat, now: uint64)
    requires Loose(cfg, tx, b) && Gated(cfg) && b < |tx.batch| && HasReliable(tx, At(tx.boxes, InBatch(b)))
    requires tx.batch[b].conn < cfg.maxConns && Win(cfg, tx, tx.batch[b].conn, b)
    ensures var c := tx.batch[b].conn;
      && Pending(tx, c, b, b)
      && TrackedWith(cfg, RecordSet(cfg, tx, b, now), c, tx.conns[c].tracked, tx.batch[b].unwrapped)
         == tx.conns[c].tracked + [tx.batch[b].unwrapped]
  {
    var c := tx.batch[b].conn;
    SlotUnused(cfg, tx, b);
    assert Pending(tx, c, b, b);
    IncreasingRoom(tx.conns[c].tracked, tx.conns[c].newest - SackWindow.ACK_WINDOW, tx.batch[b].unwrapped);
  }

  lemma OpenedGated(cfg: TxConfig, tx: Tx, b: nat, now: uint64)
    requires Loose(cfg, tx, b) && Gated(cfg) && b < |tx.batch| && HasReliable(tx, At(tx.boxes, InBatch(b)))
    requires tx.batch[b].conn < cfg.maxConns && Win(cfg, tx, tx.batch[b].conn, b)
    ensures Win(cfg, RecordOpened(cfg, tx, b, now), tx.batch[b].conn, b + 1)
    ensures Recorded_(cfg, RecordOpened(cfg, tx, b, now), tx.batch[b].conn, tx.batch[b].unwrapped)
    ensures forall x :: Recorded_(cfg, tx, tx.batch[b].conn, x) ==>
      Recorded_(cfg, RecordOpened(cfg, tx, b, now), tx.batch[b].conn, x)
  {
    TrackedAppends(cfg, tx, b, now);
    SlotUnused(cfg, tx, b);
    RecordWindow(cfg, tx, RecordOpened(cfg, tx, b, now), tx.batch[b].conn, b);
  }

  /** The number of packet b joins the queue, its record the table. */
  lemma RecordWindow(cfg: TxConfig, tx: Tx, tx1: Tx, c: nat, b: nat)
    requires TxShape(cfg, tx) && TxShape(cfg, tx1) && 0 < cfg.slots && c < cfg.maxConns
    requires Pending(tx, c, b, b) && Win(cfg, tx, c, b) && tx1.batch == tx.batch
    requires tx1.conns[c] == tx.conns[c].(tracked := tx.conns[c].tracked + [tx.batch[b].unwrapped])
    requires var i, o := tx.batch[b].number % cfg.slots, tx.batch[b];
      && !tx.sent[c][i].used
      && tx1.sent[c] == tx.sent[c][i := tx1.sent[c][i]] && tx1.sent[c][i].used
      && tx1.sent[c][i].number == o.number && tx1.sent[c][i].unwrapped == o.unwrapped
    ensures Win(cfg, tx1, c, b + 1) && Recorded_(cfg, tx1, c, tx.batch[b].unwrapped)
    ensures forall x :: Recorded_(cfg, tx, c, x) ==> Recorded_(cfg, tx1, c, x)
  {
    RecordPending(tx, tx1, c, b, b + 1);
    AppendIncreasing(tx.conns[c].tracked, tx.batch[b].unwrapped);
    RecordTracked(cfg, tx, tx1, c, tx.batch[b].number % cfg.slots, tx.batch[b].unwrapped);
  }

  lemma AppendIncreasing(s: seq<int>, x: int)
    requires Increasing(s) && forall y :: y in s ==> y < x
    ensures Increasing(s + [x]) && forall y :: y in s + [x] <==> y in s || y == x
  {
    var t := s + [x];
    forall i, j | 0 <= i < j < |t|
      ensures t[i] < t[j]
    {
      assert t[i] == s[i] && s[i] in s;
    }
  }

  lemma RecordTracked(cfg: TxConfig, tx: Tx, tx1: Tx, c: nat, i: nat, x: int)
    requires TxShape(cfg, tx) && TxShape(cfg, tx1) && 0 < cfg.slots && c < cfg.maxConns && i < cfg.slots
    requires RecordsTracked(cfg, tx, c)
    requires forall y :: y in tx1.conns[c].tracked <==> y in tx.conns[c].tracked || y == x
    requires !tx.sent[c][i].used && tx1.sent[c] == tx.sent[c][i := tx1.sent[c][i]]
    requires tx1.sent[c][i].used && tx1.sent[c][i].number == Wrap32(x) && tx1.sent[c][i].unwrapped == x
    requires Wrap32(x) % cfg.slots == i
    ensures RecordsTracked(cfg, tx1, c) && Recorded_(cfg, tx1, c, x)
    ensures forall y :: Recorded_(cfg, tx, c, y) ==> Recorded_(cfg, tx1, c, y)
  {
  }

  lemma RecordPending(tx: Tx, tx1: Tx, c: nat, b: nat, after: nat)
    requires c < |tx.conns| == |tx1.conns| && after == b + 1
    requires Pending(tx, c, b, b) && PendingOk(tx, c, b) && tx1.batch == tx.batch
    requires tx1.conns[c] == tx.conns[c].(tracked := tx.conns[c].tracked + [tx.batch[b].unwrapped])
    ensures PendingOk(tx1, c, after)
  {
    forall d: nat | Pending(tx1, c, after, d)
      ensures Pending(tx, c, b, d) && tx.batch[b].unwrapped < tx.batch[d].unwrapped
    {
      assert Pending(tx, c, b, d) && b < d;
    }
  }

  /** What sending does to the window of connection d. */
  ghost predicate WinSent(cfg: TxConfig, tx: Tx, tx': Tx, d: nat, n: nat)
    requires TxShape(cfg, tx) && TxShape(cfg, tx') && 0 < cfg.slots && d < cfg.maxConns
  {
    && Win(cfg, tx', d, n)
    && tx'.conns[d].batchFirst == tx.conns[d].batchFirst && tx'.conns[d].newest == tx.conns[d].newest
    && forall x :: Recorded_(cfg, tx, d, x) ==> Recorded_(cfg, tx', d, x)
  }

  lemma WinSentSame(cfg: TxConfig, tx: Tx, tx1: Tx, tx': Tx, d: nat, n: nat)
    requires TxShape(cfg, tx) && TxShape(cfg, tx1) && TxShape(cfg, tx') && 0 < cfg.slots && d < cfg.maxConns
    requires WinSent(cfg, tx, tx1, d, n)
    requires tx'.batch == tx1.batch && tx'.sent == tx1.sent && SameNumbering(tx1.conns[d], tx'.conns[d])
    ensures WinSent(cfg, tx, tx', d, n)
  {
    WinSame(cfg, tx1, tx', d, n);
  }

  lemma OpenedWin(cfg: TxConfig, tx: Tx, b: nat, now: uint64, d: nat)
    requires Loose(cfg, tx, b) && Gated(cfg) && b < |tx.batch| && HasReliable(tx, At(tx.boxes, InBatch(b)))
    requires d < cfg.maxConns && Win(cfg, tx, d, b)
    ensures WinSent(cfg, tx, RecordOpened(cfg, tx, b, now), d, b + 1)
  {
    SlotUnused(cfg, tx, b);
    if tx.batch[b].conn == d {
      OpenedGated(cfg, tx, b, now);
    } else {
      WinLater(cfg, tx, d, b, b + 1);
      WinSame(cfg, tx, RecordOpened(cfg, tx, b, now), d, b + 1);
    }
  }

  lemma PacketSentGated(cfg: TxConfig, tx: Tx, b: nat, now: uint64, d: nat)
    requires Loose(cfg, tx, b) && Gated(cfg) && b < |tx.batch| && d < cfg.maxConns && Win(cfg, tx, d, b)
    ensures WinSent(cfg, tx, PacketSent(cfg, tx, b, now), d, b + 1)
    ensures tx.batch[b].conn == d && HasReliable(tx, At(tx.boxes, InBatch(b))) ==>
      Recorded_(cfg, PacketSent(cfg, tx, b, now), d, tx.batch[b].unwrapped)
  {
    var tx' := PacketSent(cfg, tx, b, now);
    if HasReliable(tx, At(tx.boxes, InBatch(b))) {
      OpenedWin(cfg, tx, b, now, d);
      WinSentSame(cfg, tx, RecordOpened(cfg, tx, b, now), tx', d, b + 1);
      if tx.batch[b].conn == d { OpenedGated(cfg, tx, b, now); }
    } else {
      WinLater(cfg, tx, d, b, b + 1);
      WinSentSame(cfg, tx, tx, tx', d, b + 1);
    }
  }

  lemma WinSentTransitive(cfg: TxConfig, tx: Tx, tx1: Tx, tx2: Tx, d: nat, n: nat, m: nat)
    requires TxShape(cfg, tx) && TxShape(cfg, tx1) && TxShape(cfg, tx2) && 0 < cfg.slots && d < cfg.maxConns
    requires WinSent(cfg, tx, tx1, d, n) && WinSent(cfg, tx1, tx2, d, m)
    ensures WinSent(cfg, tx, tx2, d, m)
  {
  }

  /** The first k packets were sent: the window of connection d holds, its numbers are recorded. */
  ghost predicate SentGated(cfg: TxConfig, tx: Tx, tx1: Tx, d: nat, k: nat)
    requires TxShape(cfg, tx) && TxShape(cfg, tx1) && 0 < cfg.slots && d < cfg.maxConns
  {
    && WinSent(cfg, tx, tx1, d, k)
    && forall a: nat :: a < k && Pending(tx, d, 0, a) ==> Recorded_(cfg, tx1, d, tx.batch[a].unwrapped)
  }

  lemma SendStepGated(cfg: TxConfig, tx: Tx, tx1: Tx, b: nat, now: uint64, d: nat, k: nat, tx2: Tx)
    requires Core(cfg, tx) && Loose(cfg, tx1, b) && Gated(cfg) && b < |tx.batch| && k == b + 1 && d < cfg.maxConns
    requires FirstSent(tx, tx1, b) && PendingReliable(tx) && SentGated(cfg, tx, tx1, d, b)
    requires tx2 == PacketSent(cfg, tx1, b, now)
    ensures SentGated(cfg, tx, tx2, d, k)
  {
    PacketSentGated(cfg, tx1, b, now, d);
    WinSentTransitive(cfg, tx, tx1, tx2, d, b, k);
    if Pending(tx, d, 0, b) {
      StillReliable(cfg, tx, tx1, b);
    }
  }

  lemma {:induction false} FirstPacketsSentGated(cfg: TxConfig, tx: Tx, k: nat, now: uint64, d: nat, tx': Tx)
    requires Loose(cfg, tx, 0) && Gated(cfg) && k <= |tx.batch| && d < cfg.maxConns && Win(cfg, tx, d, 0)
    requires PendingReliable(tx) && tx' == FirstPacketsSent(cfg, tx, k, now)
    ensures SentGated(cfg, tx, tx', d, k)
    decreases k
  {
    if k == 0 {
      assert tx' == tx;
    } else {
      var b: nat := k - 1;
      var tx1 := FirstPacketsSent(cfg, tx, b, now);
      FirstPacketsSentGated(cfg, tx, b, now, d, tx1);
      SentUnfold(cfg, tx, b, k, now);
      SendStepGated(cfg, tx, tx1, b, now, d, k, tx');
    }
  }

  /** A packet not yet reached by the loop has its reliable message still. */
  lemma StillReliable(cfg: TxConfig, tx: Tx, tx1: Tx, b: nat)
    requires Core(cfg, tx) && Core(cfg, tx1) && FirstSent(tx, tx1, b) && b < |tx.batch| && BatchHasReliable(tx, b)
    ensures HasReliable(tx1, At(tx1.boxes, InBatch(b)))
  {
    var v :| 0 <= v < |tx.msgs| && tx.place[v].Packed? && tx.place[v].b == b && IsReliable(tx.msgs[v].rel);
    assert SlotSentBelow(tx, tx1, b, v);
    PackedInBox(cfg, tx1, b);
    var list := At(tx1.boxes, InBatch(b));
    assert v in list;
    var i :| 0 <= i < |list| && list[i] == v;
  }

  lemma ClearedWin(cfg: TxConfig, tx2: Tx, d: nat, k: nat)
    requires TxShape(cfg, tx2) && d < cfg.maxConns && Win(cfg, tx2, d, k)
    ensures Win(cfg, tx2.(batch := []), d, 0)
  {
  }

  /** `flush_send_batch` keeps every window; if the socket took everything the connection can go on. */
  lemma BatchFlushedGated(cfg: TxConfig, tx: Tx, k: nat, now: uint64, c: nat)
    requires Loose(cfg, tx, 0) && Gated(cfg) && k <= |tx.batch| && PendingReliable(tx) && c < cfg.maxConns
    requires forall d :: 0 <= d < cfg.maxConns ==> Win(cfg, tx, d, 0)
    ensures forall d :: 0 <= d < cfg.maxConns ==> Win(cfg, BatchFlushed(cfg, tx, k, now), d, 0)
    ensures k == |tx.batch| && FlushWin(cfg, tx, c) ==> FlushWin(cfg, BatchFlushed(cfg, tx, k, now), c)
  {
    var tx1 := FirstPacketsSent(cfg, tx, k, now);
    var tx2 := PacketsPutBack(cfg, k, tx1, |tx.batch|);
    forall d | 0 <= d < cfg.maxConns
      ensures Win(cfg, tx2.(batch := []), d, 0) && WinSent(cfg, tx, tx2, d, k)
    {
      FirstPacketsSentGated(cfg, tx, k, now, d, tx1);
      WinSentSame(cfg, tx, tx1, tx2, d, k);
      ClearedWin(cfg, tx2, d, k);
    }
    if k == |tx.batch| && FlushWin(cfg, tx, c) {
      FirstPacketsSentGated(cfg, tx, k, now, c, tx1);
      FirstRecorded(cfg, tx, tx2.(batch := []), c);
    }
  }

  lemma FirstRecorded(cfg: TxConfig, tx: Tx, tx': Tx, c: nat)
    requires TxShape(cfg, tx) && TxShape(cfg, tx') && 0 < cfg.slots && c < cfg.maxConns && FlushWin(cfg, tx, c)
    requires tx'.batch == [] && tx'.conns[c].batchFirst == tx.conns[c].batchFirst
    requires tx'.conns[c].newest == tx.conns[c].newest
    requires forall x :: Recorded_(cfg, tx, c, x) ==> Recorded_(cfg, tx', c, x)
    requires forall b: nat :: b < |tx.batch| && Pending(tx, c, 0, b) ==> Recorded_(cfg, tx', c, tx.batch[b].unwrapped)
    ensures FlushWin(cfg, tx', c)
  {
  }
}
