/** The two token buckets of a connection: the byte budget of a flow and the pacing of the connection. The methods
    compute in 64 bits as the source does; what they leave is the exact bucket, which never overspends. */
module TokenBuckets {
  import opened MachineWords
  import opened Arithmetic

  const NS_PER_SEC: nat := 1_000_000_000
  const BIT_NS: nat := 8 * NS_PER_SEC
  const DATA_FRAME_HEADER: nat := 20
  const PACKET_HEADER: nat := 32

  function Min(a: nat, b: nat): nat { if a < b then a else b }

  /** The tokens and the time of the last refill. */
  datatype Bucket = Bucket(tokens: nat, last: nat)

  /** What a rate comes to over a time, rounded down. */
  function Earned(rate: nat, elapsed: nat, unit: nat): nat
    requires 0 < unit
  {
    rate * elapsed / unit
  }

  lemma EarnedBounds(rate: nat, elapsed: nat, unit: nat)
    requires 0 < unit
    ensures Earned(rate, elapsed, unit) * unit <= rate * elapsed < (Earned(rate, elapsed, unit) + 1) * unit
  {
    var e := Earned(rate, elapsed, unit);
    assert rate * elapsed == e * unit + rate * elapsed % unit;
    assert (e + 1) * unit == e * unit + unit;
  }

  lemma NonNegative(a: nat, b: nat)
    ensures 0 <= a * b
  {
  }

  // ----- the budget of a flow --------------------------------------------------------------------

  /** `flow_token_cap` */
  function FlowCap(maxBps: uint32, framePayload: uint16): (cap: uint64)
    ensures maxBps != 0 && maxBps != UINT32_MAX ==> framePayload <= cap && 1500 <= cap <= TWO_32 / 8
  {
    if maxBps == UINT32_MAX then UINT32_MAX
    else if maxBps == 0 then 0
    else
      var least: uint64 := if framePayload > 1500 then framePayload else 1500;
      if maxBps / 8 < least then least else maxBps / 8
  }

  /** A refill of a limited flow: up to the cap, at the rate of the limit. The first refill fills the bucket; it is
      recognised by a last refill at time 0. */
  function FlowRefilled(b: Bucket, maxBps: nat, cap: nat, now: nat): Bucket {
    if b.last == 0 then Bucket(cap, now)
    else if now <= b.last then b
    else Bucket(Min(cap, b.tokens + Earned(maxBps, now - b.last, BIT_NS)), now)
  }

  /** `flow_token_cap` and the fields of `rudp_flow_state` that make the bucket. */
  class FlowBucket {
    const framePayload: uint16
    var maxBps: uint32
    var tokens: uint64
    var last: uint64

    predicate Limited()
      reads this
    {
      maxBps != UINT32_MAX
    }

    predicate Valid()
      reads this
    {
      tokens <= FlowCap(maxBps, framePayload)
    }

    function View(): Bucket
      reads this
    {
      Bucket(tokens, last)
    }

    /** `init_flow` */
    constructor (framePayload: uint16)
      ensures Valid() && !Limited() && this.framePayload == framePayload && last == 0
    {
      this.framePayload := framePayload;
      maxBps, tokens, last := UINT32_MAX, UINT32_MAX, 0;
    }

    /** The bucket's part of `rudp_set_flow_limits`. */
    method SetLimit(maxBps: uint32)
      requires Valid()
      modifies this`maxBps, this`tokens
      ensures Valid() && this.maxBps == maxBps
      ensures tokens == if Limited() then Min(old(tokens), FlowCap(maxBps, framePayload)) else UINT32_MAX
    {
      this.maxBps := maxBps;
      if maxBps == UINT32_MAX {
        tokens := UINT32_MAX;
      } else {
        var cap := FlowCap(maxBps, framePayload);
        if tokens > cap { tokens := cap; }
      }
    }

    /** `refill_flow`. The time to the cap is found by a division first, so that no product overflows. */
    method Refill(now: uint64)
      requires Valid()
      modifies this`tokens, this`last
      ensures Valid()
      ensures Limited() ==> View() == FlowRefilled(old(View()), maxBps, FlowCap(maxBps, framePayload), now)
      ensures !Limited() ==> tokens == UINT32_MAX && last == now
    {
      if maxBps == UINT32_MAX {
        tokens, last := UINT32_MAX, now;
        return;
      }
      if last == 0 {
        last := now;
        tokens := FlowCap(maxBps, framePayload);
        return;
      }
      if now <= last { return; }
      var cap := FlowCap(maxBps, framePayload);
      if tokens < cap && maxBps > 0 {
        tokens := FlowFill(tokens, cap, maxBps, now - last);
      } else {
        NothingToFill(tokens, cap, maxBps, now - last);
      }
      last := now;
    }

    /** The budget's part of taking a message from a queue: it is taken if the tokens cover its bytes. */
    method Take(len: uint16) returns (ok: bool)
      requires Valid()
      modifies this`tokens
      ensures Valid()
      ensures !Limited() ==> ok && tokens == old(tokens)
      ensures Limited() ==> ok == (len <= old(tokens)) && tokens == if ok then old(tokens) - len else old(tokens)
    {
      if maxBps != UINT32_MAX && tokens < len { return false; }
      if maxBps != UINT32_MAX { tokens := tokens - len; }
      return true;
    }
  }

  /** A product in 64 bits. */
  function Product(a: uint64, b: uint64): uint64 { a * b % TWO_64 }

  /** The tokens that are needed as a time at one bit per second, at most the maximum. */
  function Scaled(need: uint64): uint64 {
    if need > UINT64_MAX / BIT_NS then UINT64_MAX else Product(need, BIT_NS)
  }

  /** The branch of `refill_flow` that adds tokens. The need is small enough that the maximum is not used. */
  method FlowFill(tokens: uint64, cap: uint64, maxBps: uint32, elapsed: uint64) returns (filled: uint64)
    requires tokens < cap <= TWO_32 / 8 && 0 < maxBps
    ensures filled == Min(cap, tokens + Earned(maxBps, elapsed, BIT_NS))
  {
    var need: uint64 := cap - tokens;
    var needNs := Scaled(need);
    assert needNs == need * BIT_NS;
    var fullAfter: uint64 := FullAfter(needNs, maxBps);
    FullAfterIs(needNs, maxBps, elapsed);
    NonNegative(maxBps, elapsed);
    FillIs(tokens, cap, maxBps * elapsed);
    if elapsed >= fullAfter {
      filled := cap;
    } else {
      filled := tokens + Product(maxBps, elapsed) / BIT_NS;
    }
  }

  /** With less than what is needed the product is small; with more the bucket is full. */
  lemma FillIs(tokens: uint64, cap: uint64, earned: nat)
    requires tokens < cap <= TWO_32 / 8
    ensures (cap - tokens) * BIT_NS <= earned ==> Min(cap, tokens + earned / BIT_NS) == cap
    ensures earned < (cap - tokens) * BIT_NS ==>
      earned % TWO_64 == earned && Min(cap, tokens + earned / BIT_NS) == tokens + earned / BIT_NS
  {
  }

  /** Quotient, rounded up. */
  function FullAfter(needNs: uint64, maxBps: uint32): (n: uint64)
    requires 0 < maxBps && needNs <= TWO_64 / 2
  {
    QuotientAtMost(needNs, maxBps);
    needNs / maxBps + (if needNs % maxBps != 0 then 1 else 0)
  }

  lemma QuotientAtMost(a: nat, d: nat)
    requires 0 < d
    ensures 0 <= a / d <= a
  {
    var q := a / d;
    assert a == q * d + a % d;
    Monotone(1, d, q);
    assert q * d == d * q;
  }

  lemma FullAfterIs(needNs: uint64, maxBps: uint32, elapsed: uint64)
    requires 0 < maxBps && needNs <= TWO_64 / 2
    ensures elapsed >= FullAfter(needNs, maxBps) <==> needNs <= maxBps * elapsed
  {
    var q, r := needNs / maxBps, needNs % maxBps;
    assert needNs == q * maxBps + r;
    assert (q + 1) * maxBps == q * maxBps + maxBps;
    assert maxBps * elapsed == elapsed * maxBps;
    if elapsed > q { Monotone(q + 1, elapsed, maxBps); } else { Monotone(elapsed, q, maxBps); }
    if elapsed < q { Monotone(elapsed + 1, q, maxBps); assert (elapsed + 1) * maxBps == elapsed * maxBps + maxBps; }
  }

  lemma NothingToFill(tokens: uint64, cap: uint64, maxBps: uint32, elapsed: uint64)
    requires tokens <= cap && (tokens == cap || maxBps == 0) && (maxBps == 0 ==> cap == 0)
    ensures Min(cap, tokens + Earned(maxBps, elapsed, BIT_NS)) == tokens
  {
    EarnedBounds(maxBps, elapsed, BIT_NS);
    NonNegative(maxBps, elapsed);
  }

  // ----- a flow does not overspend ---------------------------------------------------------------

  datatype Action = Refill(now: nat) | Take(len: nat)

  /** The bucket of a limited flow after some actions, and the bytes they released. */
  function RunFlow(b: Bucket, maxBps: nat, cap: nat, actions: seq<Action>): (Bucket, nat) {
    if actions == [] then (b, 0)
    else
      var (c, released) := RunFlow(b, maxBps, cap, actions[..|actions| - 1]);
      match actions[|actions| - 1]
      case Refill(now) => (FlowRefilled(c, maxBps, cap, now), released)
      case Take(len) => if len <= c.tokens then (c.(tokens := c.tokens - len), released + len) else (c, released)
  }

  /** Tokens and released bytes together are no more than the tokens at the beginning and what the rate comes to.
      The bucket must have been refilled before at a time other than 0. */
  lemma {:induction false} FlowConserves(b: Bucket, maxBps: nat, cap: nat, actions: seq<Action>)
    requires b.tokens <= cap && b.last != 0
    ensures var (c, released) := RunFlow(b, maxBps, cap, actions);
      && c.tokens <= cap && b.last <= c.last
      && (c.tokens + released) * BIT_NS <= b.tokens * BIT_NS + maxBps * (c.last - b.last)
  {
    if actions == [] {
      assert maxBps * 0 == 0;
    } else {
      FlowConserves(b, maxBps, cap, actions[..|actions| - 1]);
      var (c, released) := RunFlow(b, maxBps, cap, actions[..|actions| - 1]);
      match actions[|actions| - 1] {
        case Refill(now) =>
          if now > c.last {
            EarnedBounds(maxBps, now - c.last, BIT_NS);
            SumOfTimes(maxBps, now - c.last, c.last - b.last, now - b.last);
          }
        case Take(len) =>
      }
    }
  }

  lemma SumOfTimes(rate: nat, a: nat, b: nat, sum: nat)
    requires sum == a + b
    ensures rate * sum == rate * a + rate * b
  {
  }

  /** A flow releases no more than its cap and its rate times the time between the first and the last refill, in
      bytes: a nanosecond at one bit per second is the 8 * 10^9th part of a byte. */
  predicate Bounded(b: Bucket, maxBps: nat, cap: nat, actions: seq<Action>) {
    var (c, released) := RunFlow(b, maxBps, cap, actions);
    c.tokens <= cap && released * BIT_NS <= cap * BIT_NS + maxBps * (c.last - b.last)
  }

  lemma {:induction false} FlowNeverOverspends(b: Bucket, maxBps: nat, cap: nat, actions: seq<Action>)
    requires b.tokens <= cap && b.last != 0
    ensures Bounded(b, maxBps, cap, actions)
  {
    FlowConserves(b, maxBps, cap, actions);
  }

  lemma {:induction false} NothingToSpend(b: Bucket, maxBps: nat, actions: seq<Action>)
    requires b.tokens == 0
    ensures var (c, released) := RunFlow(b, maxBps, 0, actions); c.tokens == 0 && released == 0
  {
    if actions != [] { NothingToSpend(b, maxBps, actions[..|actions| - 1]); }
  }

  /** A refill at time 0 is taken for none: the next one fills the bucket again. */
  lemma {:induction false} SpendTwiceAtZero(b: Bucket, maxBps: nat, cap: nat)
    requires b.last == 0
    ensures RunFlow(b, maxBps, cap, [Refill(0), Take(cap), Refill(0), Take(cap)]) == (Bucket(0, 0), 2 * cap)
  {
    var s := [Refill(0), Take(cap), Refill(0), Take(cap)];
    assert s[..3] == [Refill(0), Take(cap), Refill(0)];
    assert s[..3][..2] == [Refill(0), Take(cap)] && s[..3][..2][..1] == [Refill(0)] && s[..3][..2][..1][..0] == [];
    assert RunFlow(b, maxBps, cap, [Refill(0)]) == (Bucket(cap, 0), 0);
    assert RunFlow(b, maxBps, cap, s[..3][..2]) == (Bucket(0, 0), cap);
    assert RunFlow(b, maxBps, cap, s[..3]) == (Bucket(cap, 0), cap);
  }

  /** A bucket keeps the bound over all runs exactly if its last refill was at a time other than 0, or it can hold
      nothing. */
  lemma {:induction false} BoundedIff(b: Bucket, maxBps: nat, cap: nat)
    requires b.tokens <= cap
    ensures (forall actions :: Bounded(b, maxBps, cap, actions)) <==> b.last != 0 || cap == 0
  {
    if b.last != 0 || cap == 0 {
      forall actions
        ensures Bounded(b, maxBps, cap, actions)
      {
        if b.last != 0 {
          FlowNeverOverspends(b, maxBps, cap, actions);
        } else {
          NothingToSpend(b, maxBps, actions);
          NonNegative(maxBps, RunFlow(b, maxBps, cap, actions).0.last);
        }
      }
    } else {
      SpendTwiceAtZero(b, maxBps, cap);
      assert maxBps * (0 - b.last) == 0;
      assert !Bounded(b, maxBps, cap, [Refill(0), Take(cap), Refill(0), Take(cap)]);
    }
  }

  /** So a flow whose bucket starts as `init_flow` leaves it keeps the bound from its first refill on, if the time of
      that refill is not 0. */
  lemma {:induction false} AfterFirstRefill(b: Bucket, maxBps: nat, cap: nat, first: nat, actions: seq<Action>)
    requires b.last == 0 && first != 0
    ensures FlowRefilled(b, maxBps, cap, first) == Bucket(cap, first)
    ensures Bounded(Bucket(cap, first), maxBps, cap, actions)
  {
    FlowNeverOverspends(Bucket(cap, first), maxBps, cap, actions);
  }

  /** The fraction of a byte that a refill rounds down is lost: refills that follow each other so closely that the
      rate comes to less than a byte add nothing, however many there are, and only those do. */
  lemma RefillAddsNothing(b: Bucket, maxBps: nat, cap: nat, now: nat)
    requires b.last != 0 && b.last < now && b.tokens < cap
    ensures FlowRefilled(b, maxBps, cap, now).tokens == b.tokens <==> maxBps * (now - b.last) < BIT_NS
  {
    EarnedBounds(maxBps, now - b.last, BIT_NS);
    NonNegative(maxBps, now - b.last);
    var e := Earned(maxBps, now - b.last, BIT_NS);
    if e >= 1 { Monotone(1, e, BIT_NS); }
  }

  /** A refill time follows the one before it so closely. */
  predicate Close(last: nat, times: seq<nat>, maxBps: nat, k: nat)
    requires k < |times|
  {
    var before := if k == 0 then last else times[k - 1];
    before < times[k] && maxBps * (times[k] - before) < BIT_NS
  }

  lemma {:induction false} CloseRefillsStarve(b: Bucket, maxBps: nat, cap: nat, times: seq<nat>)
    requires b.last != 0 && b.tokens < cap
    requires forall k: nat :: k < |times| ==> Close(b.last, times, maxBps, k)
    ensures RunFlow(b, maxBps, cap, RefillsAt(times)).0 ==
      Bucket(b.tokens, if times == [] then b.last else times[|times| - 1])
    ensures times != [] ==> times[|times| - 1] > 0
  {
    if times != [] {
      var n: nat := |times| - 1;
      assert forall k: nat :: k < n ==> (Close(b.last, times, maxBps, k) ==> Close(b.last, times[..n], maxBps, k));
      CloseRefillsStarve(b, maxBps, cap, times[..n]);
      assert RefillsAt(times)[..n] == RefillsAt(times[..n]);
      assert Close(b.last, times, maxBps, n);
      RefillAddsNothing(Bucket(b.tokens, if n == 0 then b.last else times[n - 1]), maxBps, cap, times[n]);
    }
  }

  function RefillsAt(times: seq<nat>): seq<Action> { seq(|times|, k requires 0 <= k < |times| => Refill(times[k])) }

  // ----- pacing ----------------------------------------------------------------------------------

  function CutAtZero(a: nat, b: nat): nat { if a > b then a - b else 0 }

  function BurstCap(rate: nat, mtu: nat): nat { if rate / 100 > 16 * mtu then rate / 100 else 16 * mtu }

  /** A refill of a limited connection: tokens above the burst are cut first, time beyond a second is not counted,
      and neither is time that runs backwards or follows a refill at time 0. */
  function PaceRefilled(b: Bucket, rate: nat, burst: nat, now: nat): Bucket {
    var tokens := Min(b.tokens, burst);
    if b.last == 0 || now <= b.last then Bucket(tokens, now)
    else Bucket(Min(burst, tokens + Earned(rate, Min(now - b.last, NS_PER_SEC), NS_PER_SEC)), now)
  }

  /** The pacing fields of a connection. */
  class Pacer {
    const mtu: uint16
    var pacingBps: uint32
    var tokens: uint64
    var last: uint64

    predicate Limited()
      reads this
    {
      pacingBps != UINT32_MAX
    }

    function View(): Bucket
      reads this
    {
      Bucket(tokens, last)
    }

    function Burst(): nat
      reads this
    {
      BurstCap(pacingBps / 8, mtu)
    }

    constructor (mtu: uint16, pacingBps: uint32)
      requires PACKET_HEADER + DATA_FRAME_HEADER < mtu
      ensures this.mtu == mtu && this.pacingBps == pacingBps && View() == Bucket(0, 0)
    {
      this.mtu, this.pacingBps, tokens, last := mtu, pacingBps, 0, 0;
    }

    /** `refill_pace_tokens` */
    method Refill(now: uint64)
      modifies this`tokens, this`last
      ensures Limited() ==> View() == PaceRefilled(old(View()), pacingBps / 8, Burst(), now)
      ensures !Limited() ==> View() == Bucket(UINT64_MAX, now)
    {
      if pacingBps == UINT32_MAX {
        tokens, last := UINT64_MAX, now;
        return;
      }
      var rate: uint64 := pacingBps / 8;
      var burst: uint64 := 16 * mtu;
      if rate / 100 > burst { burst := rate / 100; }
      if tokens > burst { tokens := burst; }
      if last == 0 || now <= last {
        last := now;
        return;
      }
      var elapsed: uint64 := now - last;
      if elapsed > NS_PER_SEC { elapsed := NS_PER_SEC; }
      PaceProduct(rate, elapsed);
      tokens := tokens + Product(rate, elapsed) / NS_PER_SEC;
      if tokens > burst { tokens := burst; }
      last := now;
    }

    /** `pace_allows_send` */
    predicate AllowsSend()
      reads this
    {
      !Limited() || tokens >= mtu
    }

    /** `pace_consume` for a message, after `pace_allows_send`: a frame is smaller than a packet, so the tokens
        cover it and the cut at zero is not reached. */
    method Consume(len: uint16)
      requires AllowsSend() && PACKET_HEADER + DATA_FRAME_HEADER + len <= mtu
      modifies this`tokens
      ensures tokens == if Limited() then old(tokens) - (len + DATA_FRAME_HEADER) else old(tokens)
    {
      if pacingBps == UINT32_MAX { return; }
      var bytes: uint64 := len + DATA_FRAME_HEADER;
      tokens := CutAtZero(tokens, bytes);
    }
  }

  lemma PaceProduct(rate: uint64, elapsed: uint64)
    requires rate <= TWO_32 / 8 && elapsed <= NS_PER_SEC
    ensures 0 <= rate * elapsed <= TWO_32 / 8 * NS_PER_SEC
    ensures Product(rate, elapsed) == rate * elapsed
  {
    Monotone(rate, TWO_32 / 8, elapsed);
    Monotone(elapsed, NS_PER_SEC, TWO_32 / 8);
    assert TWO_32 / 8 * elapsed == elapsed * (TWO_32 / 8);
    NonNegative(rate, elapsed);
  }

  datatype PaceAction = PaceRefill(now: nat) | Send(len: nat)

  /** The bucket of a paced connection after some actions, and the bytes they released. */
  function RunPace(b: Bucket, rate: nat, mtu: nat, actions: seq<PaceAction>): (Bucket, nat) {
    if actions == [] then (b, 0)
    else
      var (c, released) := RunPace(b, rate, mtu, actions[..|actions| - 1]);
      match actions[|actions| - 1]
      case PaceRefill(now) => (PaceRefilled(c, rate, BurstCap(rate, mtu), now), released)
      case Send(len) =>
        var bytes := len + DATA_FRAME_HEADER;
        if mtu <= c.tokens then (c.(tokens := CutAtZero(c.tokens, bytes)), released + bytes)
        else (c, released)
  }

  /** The clock does not run backwards, and no message is longer than a packet holds. */
  predicate Orderly(b: Bucket, mtu: nat, actions: seq<PaceAction>) {
    forall k :: 0 <= k < |actions| ==>
      match actions[k]
      case PaceRefill(now) => b.last <= now && forall j :: 0 <= j < k && actions[j].PaceRefill? ==>
        actions[j].now <= now
      case Send(len) => PACKET_HEADER + DATA_FRAME_HEADER + len <= mtu
  }

  /** Pacing releases no more than what was there and what the rate comes to; for the pacing no condition on time 0 is
      needed, since it does not fill the bucket the first time. */
  lemma {:induction false} PaceConserves(b: Bucket, rate: nat, mtu: nat, actions: seq<PaceAction>)
    requires Orderly(b, mtu, actions)
    ensures var (c, released) := RunPace(b, rate, mtu, actions);
      && b.last <= c.last && (c.last == b.last || exists k :: 0 <= k < |actions| && actions[k] == PaceRefill(c.last))
      && (c.tokens + released) * NS_PER_SEC <= b.tokens * NS_PER_SEC + rate * (c.last - b.last)
  {
    if actions == [] {
      assert rate * 0 == 0;
    } else {
      var n := |actions| - 1;
      assert forall k :: 0 <= k < n ==> actions[..n][k] == actions[k];
      PaceConserves(b, rate, mtu, actions[..n]);
      var (c, released) := RunPace(b, rate, mtu, actions[..n]);
      match actions[n] {
        case PaceRefill(now) =>
          assert c.last <= now;
          PaceEarns(c, rate, BurstCap(rate, mtu), now);
          SumOfTimes(rate, now - c.last, c.last - b.last, now - b.last);
        case Send(len) =>
      }
    }
  }

  lemma PaceEarns(c: Bucket, rate: nat, burst: nat, now: nat)
    requires c.last <= now
    ensures PaceRefilled(c, rate, burst, now).tokens * NS_PER_SEC <= c.tokens * NS_PER_SEC + rate * (now - c.last)
  {
    NonNegative(rate, now - c.last);
    var e := Min(now - c.last, NS_PER_SEC);
    EarnedBounds(rate, e, NS_PER_SEC);
    Monotone(e, now - c.last, rate);
    assert rate * e == e * rate && rate * (now - c.last) == (now - c.last) * rate;
  }

  /** The same bound as for a flow, from a bucket that was refilled. */
  lemma {:induction false} PaceNeverOverspends(b: Bucket, rate: nat, mtu: nat, actions: seq<PaceAction>)
    requires Orderly(b, mtu, actions) && b.tokens <= BurstCap(rate, mtu)
    ensures var (c, released) := RunPace(b, rate, mtu, actions);
      && c.tokens <= BurstCap(rate, mtu)
      && released * NS_PER_SEC <= BurstCap(rate, mtu) * NS_PER_SEC + rate * (c.last - b.last)
  {
    PaceConserves(b, rate, mtu, actions);
    PaceWithinBurst(b, rate, mtu, actions);
  }

  lemma {:induction false} PaceWithinBurst(b: Bucket, rate: nat, mtu: nat, actions: seq<PaceAction>)
    requires b.tokens <= BurstCap(rate, mtu)
    ensures RunPace(b, rate, mtu, actions).0.tokens <= BurstCap(rate, mtu)
  {
    if actions != [] { PaceWithinBurst(b, rate, mtu, actions[..|actions| - 1]); }
  }
}
