/** The reliable messages of a flow that are in flight, in the batch or waiting for retransmission are
    at most 64 times 16, so the retry ring always has room and no lost message is thrown away. */
module SenderCapacity {
  import opened MachineWords
  import opened SerialNumbers
  import opened Receiver
  import opened MessagePool
  import opened PoolTallies
  import opened Sender
  import opened SenderOps
  import opened SenderAcks
  import opened SenderWindow
  import SackWindow

  const MAX_OUTSTANDING: nat := SackWindow.ACK_WINDOW * MAX_REFS

  /** Message v is in a packet of connection c that is in flight or in the batch. */
  ghost predicate Carried(tx: Tx, c: nat, v: nat)
    requires v < |tx.msgs| == |tx.place|
  {
    tx.msgs[v].owner == c && (tx.place[v].Flight? || (tx.place[v].Packed? && IsReliable(tx.msgs[v].rel)))
  }

  /** The unbounded number of that packet. */
  ghost function NumberOf(cfg: TxConfig, tx: Tx, v: nat): int
    requires Loose(cfg, tx, 0) && v < |tx.msgs|
  {
    assert MsgOk(cfg.maxConns, cfg.maxFlows, tx.msgs[v], tx.place[v]);
    if tx.place[v].Flight? then tx.sent[tx.msgs[v].owner][tx.msgs[v].carrier % cfg.slots].unwrapped
    else if tx.place[v].Packed? then
      assert PackedSlotOk(cfg, tx, 0, v);
      tx.batch[tx.place[v].b].unwrapped
    else 0
  }

  /** The box the messages of a packet are in. */
  ghost predicate InPacketBox(cfg: TxConfig, tx: Tx, c: nat, u: int, v: nat)
    requires Loose(cfg, tx, 0) && c < cfg.maxConns && v < |tx.msgs|
  {
    if tx.place[v].Flight? then u in tx.conns[c].tracked && v in At(tx.boxes, InFlight(c, Wrap32(u) % cfg.slots))
    else
      && tx.place[v].Packed? && v in At(tx.boxes, InBatch(tx.place[v].b))
      && Pending(tx, c, 0, tx.place[v].b) && tx.batch[tx.place[v].b].unwrapped == u
  }

  lemma CarriedBox(cfg: TxConfig, tx: Tx, c: nat, v: nat)
    requires Loose(cfg, tx, 0) && c < cfg.maxConns && Win(cfg, tx, c, 0) && v < |tx.msgs| && Carried(tx, c, v)
    ensures InWindow(tx.conns[c].newest, NumberOf(cfg, tx, v))
    ensures InPacketBox(cfg, tx, c, NumberOf(cfg, tx, v), v)
  {
    var h := Home(cfg.slots, tx.msgs[v], tx.place[v]);
    assert h.Some? ==> v in At(tx.boxes, h.value);
    if tx.place[v].Packed? {
      assert PackedSlotOk(cfg, tx, 0, v);
      assert Pending(tx, c, 0, tx.place[v].b);
    } else {
      var i := tx.msgs[v].carrier % cfg.slots;
      assert tx.sent[c][i].used && tx.sent[c][i].number == tx.msgs[v].carrier;
      assert tx.sent[c][i].unwrapped in tx.conns[c].tracked;
    }
  }

  lemma {:induction false} SubsetOfList(r: set<nat>, s: seq<nat>)
    requires forall v :: v in r ==> v in s
    ensures |r| <= |s|
  {
    if s == [] {
      assert r == {};
    } else {
      var r1 := r - {s[0]};
      forall v | v in r1
        ensures v in s[1..]
      {
        assert v in s;
      }
      SubsetOfList(r1, s[1..]);
      assert r <= r1 + {s[0]};
      if s[0] in r { assert |r| == |r1| + 1; } else { assert r == r1; }
    }
  }

  ghost function PacketMessages(cfg: TxConfig, tx: Tx, c: nat, u: int): set<nat>
    requires Loose(cfg, tx, 0)
  {
    set v: nat | v < |tx.msgs| && Carried(tx, c, v) && NumberOf(cfg, tx, v) == u
  }

  /** A packet carries at most 16 messages, and no two packets of the window have the same number. */
  lemma PacketSmall(cfg: TxConfig, tx: Tx, c: nat, u: int)
    requires Loose(cfg, tx, 0) && c < cfg.maxConns && Win(cfg, tx, c, 0)
    ensures |PacketMessages(cfg, tx, c, u)| <= MAX_REFS
  {
    var r := PacketMessages(cfg, tx, c, u);
    if r != {} {
      var v :| v in r;
      CarriedBox(cfg, tx, c, v);
      var k := if tx.place[v].Flight? then InFlight(c, Wrap32(u) % cfg.slots) else InBatch(tx.place[v].b);
      forall w | w in r
        ensures w in At(tx.boxes, k)
      {
        CarriedBox(cfg, tx, c, w);
        SamePacket(cfg, tx, c, u, v, w);
      }
      SubsetOfList(r, At(tx.boxes, k));
    }
  }

  lemma SamePacket(cfg: TxConfig, tx: Tx, c: nat, u: int, v: nat, w: nat)
    requires Loose(cfg, tx, 0) && c < cfg.maxConns && Win(cfg, tx, c, 0) && v < |tx.msgs| && w < |tx.msgs|
    requires InPacketBox(cfg, tx, c, u, v) && InPacketBox(cfg, tx, c, u, w)
    ensures tx.place[v].Flight? <==> tx.place[w].Flight?
    ensures tx.place[v].Packed? ==> tx.place[v].b == tx.place[w].b
  {
    if tx.place[v].Packed? && tx.place[w].Packed? {
      var a, b := tx.place[v].b, tx.place[w].b;
      assert Pending(tx, c, 0, a) && Pending(tx, c, 0, b);
    }
  }

  ghost function CarriedUpTo(cfg: TxConfig, tx: Tx, c: nat, lo: int, k: nat): set<nat>
    requires Loose(cfg, tx, 0)
  {
    set v: nat | v < |tx.msgs| && Carried(tx, c, v) && lo < NumberOf(cfg, tx, v) <= lo + k
  }

  lemma {:induction false} UpToSmall(cfg: TxConfig, tx: Tx, c: nat, lo: int, k: nat)
    requires Loose(cfg, tx, 0) && c < cfg.maxConns && Win(cfg, tx, c, 0)
    ensures |CarriedUpTo(cfg, tx, c, lo, k)| <= k * MAX_REFS
  {
    if k == 0 {
      assert CarriedUpTo(cfg, tx, c, lo, 0) == {};
    } else {
      var b: nat := k - 1;
      UpToSmall(cfg, tx, c, lo, b);
      PacketSmall(cfg, tx, c, lo + k);
      UpToSplits(cfg, tx, c, lo, b, k);
    }
  }

  lemma UpToSplits(cfg: TxConfig, tx: Tx, c: nat, lo: int, b: nat, k: nat)
    requires Loose(cfg, tx, 0) && k == b + 1
    ensures |CarriedUpTo(cfg, tx, c, lo, k)| <= |CarriedUpTo(cfg, tx, c, lo, b)| + |PacketMessages(cfg, tx, c, lo + k)|
  {
    var r, r1, r2 := CarriedUpTo(cfg, tx, c, lo, k), CarriedUpTo(cfg, tx, c, lo, b), PacketMessages(cfg, tx, c, lo + k);
    forall v | v in r
      ensures v in r1 + r2
    {
    }
    SubsetSize(r, r1 + r2);
    UnionSize(r1, r2);
  }

  lemma UnionSize(a: set<nat>, b: set<nat>)
    ensures |a + b| <= |a| + |b|
  {
    assert a + b == a + (b - a);
    assert b - a <= b;
    SubsetSize(b - a, b);
  }

  lemma {:induction false} SubsetSize(a: set<nat>, b: set<nat>)
    requires a <= b
    ensures |a| <= |b|
  {
    assert b == a + (b - a);
  }

  /** With nothing of the flow waiting for retransmission, its outstanding messages are all in packets. */
  lemma FlowBound(cfg: TxConfig, tx: Tx, c: nat, f: nat)
    requires Loose(cfg, tx, 0) && c < cfg.maxConns && Win(cfg, tx, c, 0)
    requires forall v :: 0 <= v < |tx.msgs| && tx.msgs[v].owner == c && tx.msgs[v].flow == f ==>
      tx.place[v] != Queued(Retry) && tx.place[v] != Transit(Retry)
    ensures OutstandingCount(tx, c, f) <= MAX_OUTSTANDING
  {
    var lo := tx.conns[c].newest - SackWindow.ACK_WINDOW;
    var r := CarriedUpTo(cfg, tx, c, lo, SackWindow.ACK_WINDOW);
    UpToSmall(cfg, tx, c, lo, SackWindow.ACK_WINDOW);
    forall v | 0 <= v < |tx.msgs|
      ensures Weight(Outstanding(c, f), tx.msgs[v], tx.place[v]) <= (if v in r then 1 else 0)
    {
      assert MsgOk(cfg.maxConns, cfg.maxFlows, tx.msgs[v], tx.place[v]);
      if Carried(tx, c, v) { CarriedBox(cfg, tx, c, v); }
    }
    TotalAtMost(cfg.slots, tx.msgs, tx.place, Outstanding(c, f), r);
  }
}
