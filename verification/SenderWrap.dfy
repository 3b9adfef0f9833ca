/** What the gate on packet numbers is worth at the wrap-around, for every size of the sent-packet table: it keeps the
    live packets within 64 numbers exactly if no two numbers of a window share a slot. */
module SenderWrap {
  import opened MachineWords
  import opened SerialNumbers
  import opened Arithmetic
  import opened PoolTallies
  import opened Sender
  import opened SenderOps
  import opened SenderAcks
  import opened SenderFlush
  import opened SenderSteps
  import opened SenderWindow
  import opened SackWindow
  import SenderTheorems

  /** A number that is issued now is less than 64 past every live packet. */
  ghost predicate IssuesWithin64(cfg: TxConfig, tx: Tx, c: nat)
    requires 0 < cfg.slots && TxShape(cfg, tx) && c < cfg.maxConns
  {
    var r := Numbered(cfg, tx, c, true);
    r.1 ==> forall i :: 0 <= i < cfg.slots && tx.sent[c][i].used ==> r.2 - tx.sent[c][i].unwrapped < 64
  }

  /** The states in which a number may be asked for, with the window kept so far. */
  ghost predicate MayIssue(cfg: TxConfig, tx: Tx, c: nat) {
    Loose(cfg, tx, 0) && c < cfg.maxConns && Win(cfg, tx, c, 0) && FlushWin(cfg, tx, c)
  }

  lemma {:induction false} GatedIssues(cfg: TxConfig, tx: Tx, c: nat)
    requires Gated(cfg) && MayIssue(cfg, tx, c)
    ensures IssuesWithin64(cfg, tx, c)
  {
    NumberedGated(cfg, tx, c);
    forall i | 0 <= i < cfg.slots && tx.sent[c][i].used
      ensures Live(cfg, tx, c, tx.sent[c][i].unwrapped) && tx.sent[c][i].unwrapped in tx.conns[c].tracked
    {
    }
  }

  // ----- the state at the wrap-around ------------------------------------------------------------

  const LIVE: nat := 62

  /** Slot i, which is in the window of the slots with the 62 numbers below 2^32, holds 2^32 - k. */
  function DistanceOf(slots: nat, i: nat): (k: nat)
    requires i < slots
  {
    var r := TWO_32 % slots;
    if i < r then r - i else r - i + slots
  }

  function RecordAt(slots: nat, i: nat): SentInfo
    requires i < slots
  {
    var k := DistanceOf(slots, i);
    if k <= LIVE then SentInfo(true, Wrap32(TWO_32 - k), TWO_32 - k, 0) else NoRecord
  }

  function Tracked62(): (s: seq<int>)
    ensures |s| == LIVE && forall k :: 0 <= k < LIVE ==> s[k] == TWO_32 - LIVE + k
  {
    seq(LIVE, k requires 0 <= k < LIVE => TWO_32 - LIVE + k)
  }

  /** A connection whose packets 2^32 - 62 to 2^32 - 1 are live, and nothing else. */
  ghost function AtWrap(cfg: TxConfig): Tx
    requires 0 < cfg.maxConns
  {
    var tx := SenderTheorems.Initial(cfg).tx;
    var cn := tx.conns[0].(newest := TWO_32 - 1, next := 0, tracked := Tracked62());
    tx.(conns := tx.conns[0 := cn],
        sent := tx.sent[0 := seq(cfg.slots, i requires 0 <= i < cfg.slots => RecordAt(cfg.slots, i))])
  }

  predicate Unsafe(slots: nat) { ACK_WINDOW <= slots && !WrapSafe(slots) }

  /** Where the live numbers are. */
  lemma SlotHolds(slots: nat, i: nat)
    requires Unsafe(slots) && i < slots && DistanceOf(slots, i) <= LIVE
    ensures var k := DistanceOf(slots, i); 1 <= k && (TWO_32 - k) % slots == i
  {
    var q, r, k := TWO_32 / slots, TWO_32 % slots, DistanceOf(slots, i);
    assert TWO_32 == q * slots + r;
    if slots > TWO_32 { UniqueResidue(TWO_32, 0, TWO_32, slots); }
    if i < r {
      UniqueResidue(TWO_32 - k, q, i, slots);
    } else {
      assert (q - 1) * slots == q * slots - slots;
      UniqueResidue(TWO_32 - k, q - 1, i, slots);
    }
  }

  lemma NumberHeld(slots: nat, k: nat)
    requires Unsafe(slots) && 1 <= k <= LIVE
    ensures var i := (TWO_32 - k) % slots; i < slots && DistanceOf(slots, i) == k
  {
    var i := (TWO_32 - k) % slots;
    var q, r := TWO_32 / slots, TWO_32 % slots;
    assert TWO_32 == q * slots + r;
    if slots > TWO_32 { UniqueResidue(TWO_32, 0, TWO_32, slots); }
    if k <= r {
      UniqueResidue(TWO_32 - k, q, r - k, slots);
    } else {
      assert (q - 1) * slots == q * slots - slots;
      UniqueResidue(TWO_32 - k, q - 1, r - k + slots, slots);
    }
  }

  lemma AtWrapLoose(cfg: TxConfig)
    requires ValidTx(cfg) && 0 < cfg.maxConns && Unsafe(cfg.slots)
    ensures Loose(cfg, AtWrap(cfg), 0)
  {
    SenderTheorems.InitialLoose(cfg);
    var tx, tx' := SenderTheorems.Initial(cfg).tx, AtWrap(cfg);
    ConnEdited(cfg, 0, tx, 0, tx'.conns[0]);
    forall c, i | 0 <= c < cfg.maxConns && 0 <= i < cfg.slots && tx'.sent[c][i].used
      ensures var si := tx'.sent[c][i];
        si.number != 0 && si.number == Wrap32(si.unwrapped) && si.number % cfg.slots == i
    {
      SlotHolds(cfg.slots, i);
    }
  }

  lemma AtWrapMayIssue(cfg: TxConfig)
    requires ValidTx(cfg) && 0 < cfg.maxConns && Unsafe(cfg.slots)
    ensures MayIssue(cfg, AtWrap(cfg), 0)
  {
    AtWrapLoose(cfg);
    var tx := AtWrap(cfg);
    forall i | 0 <= i < cfg.slots && tx.sent[0][i].used
      ensures tx.sent[0][i].unwrapped in tx.conns[0].tracked
    {
      SlotHolds(cfg.slots, i);
      assert tx.conns[0].tracked[LIVE - DistanceOf(cfg.slots, i)] == tx.sent[0][i].unwrapped;
    }
  }

  lemma {:induction false} PrunedNone(cfg: TxConfig, tx: Tx, c: nat, tracked: seq<int>)
    requires 0 < cfg.slots && c < |tx.sent| && |tx.sent[c]| == cfg.slots
    requires forall x :: x in tracked ==> Live(cfg, tx, c, x)
    ensures Pruned(cfg, tx, c, tracked) == tracked
  {
    if tracked != [] { PrunedNone(cfg, tx, c, tracked[1..]); }
  }

  lemma AllLive(cfg: TxConfig)
    requires ValidTx(cfg) && 0 < cfg.maxConns && Unsafe(cfg.slots)
    ensures var tx := AtWrap(cfg); Pruned(cfg, tx, 0, tx.conns[0].tracked) == tx.conns[0].tracked
  {
    var tx := AtWrap(cfg);
    forall x | x in tx.conns[0].tracked
      ensures Live(cfg, tx, 0, x)
    {
      NumberHeld(cfg.slots, TWO_32 - x);
    }
    PrunedNone(cfg, tx, 0, tx.conns[0].tracked);
  }

  lemma TakenBelow(cfg: TxConfig, j: nat)
    requires ValidTx(cfg) && 0 < cfg.maxConns && Unsafe(cfg.slots) && 1 <= j <= TWO_32 % cfg.slots
    ensures Wrap32(TWO_32 + j) == j
    ensures SlotAvailable(cfg, AtWrap(cfg), 0, j) <==> j == TWO_32 % cfg.slots
  {
    UniqueResidue(j, 0, j, cfg.slots);
    assert AtWrap(cfg).sent[0][j] == RecordAt(cfg.slots, j);
  }

  /** The numbers after the wrap-around up to that of the remainder are taken; they are skipped. */
  lemma {:induction false} Skipped(cfg: TxConfig, cn: ConnTx, j: nat, tries: nat)
    requires ValidTx(cfg) && 0 < cfg.maxConns && Unsafe(cfg.slots)
    requires 1 <= j <= TWO_32 % cfg.slots < j + tries && NextUnwrapped(cn.newest) == TWO_32 + j
    ensures var r := IssuedFree(cfg, AtWrap(cfg), 0, cn, tries); r.1 && r.0.newest == TWO_32 + TWO_32 % cfg.slots
    decreases tries
  {
    TakenBelow(cfg, j);
    if j < TWO_32 % cfg.slots {
      var next, left: nat := j + 1, tries - 1;
      assert NextUnwrapped(Issued(cn).newest) == TWO_32 + next;
      Skipped(cfg, Issued(cn), next, left);
    }
  }

  lemma OldestLive(cfg: TxConfig)
    requires ValidTx(cfg) && 0 < cfg.maxConns && Unsafe(cfg.slots)
    ensures var i := (TWO_32 - LIVE) % cfg.slots;
      i < cfg.slots && AtWrap(cfg).sent[0][i] == SentInfo(true, Wrap32(TWO_32 - LIVE), TWO_32 - LIVE, 0)
  {
    NumberHeld(cfg.slots, LIVE);
  }

  lemma GateOpen(cn: ConnTx)
    requires cn.tracked == Tracked62()
    ensures WindowAllows(cn, Wrap32(TWO_32 + 1))
  {
    GateExact(TWO_32 + 1, TWO_32 - LIVE);
  }

  /** The gate lets number 1 pass, which is 63 past the oldest live one, and the remainder is issued. */
  lemma IssuedAtWrap(cfg: TxConfig)
    requires ValidTx(cfg) && cfg.skipUnreliableAcks && 0 < cfg.maxConns && Unsafe(cfg.slots)
    ensures var r := Numbered(cfg, AtWrap(cfg), 0, true); r.1 && r.2 == TWO_32 + TWO_32 % cfg.slots
  {
    AllLive(cfg);
    var cn := AtWrap(cfg).conns[0];
    assert NextUnwrapped(cn.newest) == TWO_32 + 1;
    GateOpen(cn);
    Skipped(cfg, cn, 1, cfg.slots);
    NumberedIs(cfg, AtWrap(cfg), 0);
  }

  /** `next_packet_seq` of a reliable packet when the gate is open and nothing has to be pruned. */
  lemma NumberedIs(cfg: TxConfig, tx: Tx, c: nat)
    requires 0 < cfg.slots && TxShape(cfg, tx) && c < cfg.maxConns
    requires Pruned(cfg, tx, c, tx.conns[c].tracked) == tx.conns[c].tracked
    requires WindowAllows(tx.conns[c], Wrap32(NextUnwrapped(tx.conns[c].newest)))
    requires IssuedFree(cfg, tx, c, tx.conns[c], cfg.slots).1
    ensures var r := Numbered(cfg, tx, c, true);
      r.1 && r.2 == IssuedFree(cfg, tx, c, tx.conns[c], cfg.slots).0.newest
  {
    var cn := tx.conns[c];
    assert cn.(tracked := cn.tracked) == cn;
  }

  lemma FailsAtWrap(cfg: TxConfig)
    requires ValidTx(cfg) && cfg.skipUnreliableAcks && 0 < cfg.maxConns && Unsafe(cfg.slots)
    ensures MayIssue(cfg, AtWrap(cfg), 0) && !IssuesWithin64(cfg, AtWrap(cfg), 0)
  {
    AtWrapMayIssue(cfg);
    OldestLive(cfg);
    IssuedAtWrap(cfg);
    assert TWO_32 % cfg.slots >= 2;
  }

  /** For a table of 64 slots or more, the window of 64 is kept from every state exactly if the size is such that two
      numbers of a window never share a slot. */
  lemma WindowIff(cfg: TxConfig)
    requires ValidTx(cfg) && cfg.skipUnreliableAcks && 0 < cfg.maxConns && ACK_WINDOW <= cfg.slots
    ensures (forall tx: Tx, c: nat :: MayIssue(cfg, tx, c) ==> IssuesWithin64(cfg, tx, c)) <==> WrapSafe(cfg.slots)
  {
    if WrapSafe(cfg.slots) {
      forall tx: Tx, c: nat | MayIssue(cfg, tx, c)
        ensures IssuesWithin64(cfg, tx, c)
      {
        GatedIssues(cfg, tx, c);
      }
    } else {
      FailsAtWrap(cfg);
    }
  }
}
