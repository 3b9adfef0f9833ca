/** The log-linear latency histogram: 28 doublings of 1000 ns, each in 16 parts. Index and upper bound of a
    bin, percentiles, and the merging of histograms on the Go side. Bin counters are unbounded here. */
module Histogram {
  import opened MachineWords
  import opened Arithmetic

  const MIN_NS: nat := 1000
  const MAX_NS: nat := 100_000_000_000
  const SUBBINS: nat := 16
  const MAJOR_BINS: nat := 28
  const BINS: nat := 448

  // ----- bins ------------------------------------------------------------------------------------

  /** Lower end of a doubling. */
  function Low(major: nat): (l: nat)
    ensures l >= MIN_NS
  {
    if major == 0 then MIN_NS else 2 * Low(major - 1)
  }

  lemma {:induction false} LowGrows(a: nat, b: nat)
    requires a < b
    ensures 2 * Low(a) <= Low(b)
    decreases b
  {
    if a + 1 < b { LowGrows(a, b - 1); }
  }

  lemma {:induction false} LowEnds()
    ensures Low(26) < MAX_NS < Low(27)
  {
    LowNine(0);
    LowNine(9);
    LowEight(18);
  }

  lemma {:induction false} LowEight(k: nat)
    ensures Low(k + 8) == 256 * Low(k)
  {
    assert Low(k + 2) == 4 * Low(k) && Low(k + 4) == 4 * Low(k + 2);
    assert Low(k + 6) == 4 * Low(k + 4) && Low(k + 8) == 4 * Low(k + 6);
  }

  lemma {:induction false} LowNine(k: nat)
    ensures Low(k + 9) == 512 * Low(k)
  {
    LowEight(k);
  }

  /** The doubling a value falls into. */
  function Major(v: nat): (k: nat)
    requires MIN_NS <= v
    ensures Low(k) <= v < 2 * Low(k)
  {
    if v < 2 * MIN_NS then 0 else Major(v / 2) + 1
  }

  lemma {:induction false} MajorUnique(v: nat, k: nat)
    requires MIN_NS <= v && Low(k) <= v < 2 * Low(k)
    ensures k == Major(v)
  {
    if k < Major(v) { LowGrows(k, Major(v)); }
    if Major(v) < k { LowGrows(Major(v), k); }
  }

  lemma {:induction false} MajorBelow27(v: nat)
    requires MIN_NS <= v < MAX_NS
    ensures Major(v) <= 26
  {
    LowEnds();
    if Major(v) > 26 {
      if Major(v) > 27 { LowGrows(27, Major(v)); }
    }
  }

  /** The sixteenth of the doubling a value falls into. */
  function Sub(v: nat, low: nat): (s: nat)
    requires 0 < low <= v < 2 * low
    ensures s < SUBBINS && low * s <= SUBBINS * (v - low) < low * (s + 1)
  {
    var x := SUBBINS * (v - low);
    var q := x / low;
    SixteenthBounds(x, low);
    q
  }

  lemma SixteenthBounds(x: nat, low: nat)
    requires 0 < low && x < SUBBINS * low
    ensures 0 <= x / low < SUBBINS && low * (x / low) <= x < low * (x / low + 1)
  {
    var q := x / low;
    assert x == q * low + x % low && q * low == low * q;
    assert low * (q + 1) == low * q + low;
    if q >= SUBBINS { Monotone(SUBBINS, q, low); }
  }

  /** The bin of a value. */
  function IndexOf(v: nat): (i: nat)
    ensures i < BINS
    ensures i == BINS - 1 <==> MAX_NS <= v
  {
    if v <= MIN_NS then 0
    else if v >= MAX_NS then BINS - 1
    else
      MajorBelow27(v);
      Major(v) * SUBBINS + Sub(v, Low(Major(v)))
  }

  /** `hist_index` */
  method HistIndex(v: uint64) returns (i: nat)
    ensures i == IndexOf(v)
  {
    if v <= MIN_NS { return 0; }
    if v >= MAX_NS { return BINS - 1; }
    MajorBelow27(v);
    LowEnds();
    var low: uint64 := MIN_NS;
    var major := 0;
    while major + 1 < MAJOR_BINS && v >= low * 2
      invariant major < MAJOR_BINS && low == Low(major) <= v
    {
      low := low * 2;
      major := major + 1;
    }
    MajorUnique(v, major);
    var sub := SubIndex(v, low);
    return major * SUBBINS + sub;
  }

  /** The sixteenth, in 64-bit arithmetic. It is below 16, so the cap the source puts on it changes nothing. */
  method SubIndex(v: uint64, low: uint64) returns (sub: nat)
    requires 0 < low <= v < 2 * low && v < MAX_NS
    ensures sub == Sub(v, low)
  {
    var offset: uint64 := v - low;
    var scaled: uint64 := SUBBINS * offset;
    sub := scaled / low;
    assert sub == Sub(v, low);
  }

  lemma MonotoneLeft(a: nat, b: nat, d: nat)
    requires a <= b
    ensures d * a <= d * b
  {
    Monotone(a, b, d);
    assert d * a == a * d && d * b == b * d;
  }

  /** Larger values fall into later bins. */
  lemma IndexMonotone(v: nat, w: nat)
    requires v <= w
    ensures IndexOf(v) <= IndexOf(w)
  {
    if MIN_NS < v && w < MAX_NS {
      var a, b := Major(v), Major(w);
      if a > b { LowGrows(b, a); }
      if a == b {
        var low := Low(a);
        if Sub(v, low) > Sub(w, low) { MonotoneLeft(Sub(w, low) + 1, Sub(v, low), low); }
      }
    }
  }

  // ----- upper ends ------------------------------------------------------------------------------

  /** The rounded-up end of a sixteenth. */
  function SubEnd(low: nat, sub: nat): nat { low + (low * (sub + 1) + SUBBINS - 1) / SUBBINS }

  /** What a percentile in bin i is reported as. */
  function Upper(i: nat): nat {
    if i == 0 then MIN_NS
    else if i >= BINS - 1 then MAX_NS
    else
      var u := SubEnd(Low(i / SUBBINS), i % SUBBINS);
      if u > MAX_NS then MAX_NS else u
  }

  /** `hist_bin_upper_ns`; 1000 shifted left by the number of the doubling is its lower end. */
  method HistBinUpper(i: nat) returns (u: uint64)
    ensures u == Upper(i)
  {
    if i == 0 { return MIN_NS; }
    if i >= BINS - 1 { return MAX_NS; }
    var major, sub := i / SUBBINS, i % SUBBINS;
    LowWithin(major);
    NineBits(Low(major), sub);
    var low: uint64 := Low(major);
    var product: uint64 := low * (sub + 1);
    var upper: uint64 := low + (product + SUBBINS - 1) / SUBBINS;
    if upper > MAX_NS { upper := MAX_NS; }
    return upper;
  }

  datatype Layout = Layout(minNs: uint64, maxNs: uint64, subbins: uint32)

  /** The layout the version 2 files must have. */
  const V2 := Layout(1000, 100_000_000_000, 16)

  /** `histogramBinUpperNS`, which finds the lower end by doubling in 64 bits; for the layout of version 2
      it agrees with the program that filled the bins. */
  method BinUpperNS(layout: Layout, index: int, bins: nat) returns (u: uint64)
    requires layout.subbins != 0
    ensures layout == V2 && bins == BINS && 0 <= index ==> u == Upper(index)
  {
    if index <= 0 { return layout.minNs; }
    if index >= bins - 1 { return layout.maxNs; }
    u := MiddleUpper(layout, Quotient(index, layout.subbins), Remainder(index, layout.subbins));
  }

  function Quotient(a: nat, b: nat): nat
    requires 0 < b
  {
    a / b
  }

  function Remainder(a: nat, b: nat): nat
    requires 0 < b
  {
    a % b
  }

  /** The upper end of a bin that is neither the first nor the last. */
  method MiddleUpper(layout: Layout, major: nat, sub: nat) returns (upper: uint64)
    requires layout.subbins != 0
    ensures layout == V2 && major <= 27 && sub < SUBBINS ==>
      upper == if SubEnd(Low(major), sub) > MAX_NS then MAX_NS else SubEnd(Low(major), sub)
  {
    var low := DoubledLow(layout, major);
    if layout == V2 && major <= 27 && sub < SUBBINS {
      LowWithin(major);
      NineBits(low, sub);
      NothingWraps(low, sub);
    }
    upper := WrappedSubEnd(low, sub, layout.subbins);
    if upper > layout.maxNs { upper := layout.maxNs; }
  }

  /** The loop that finds the lower end of a doubling. */
  method DoubledLow(layout: Layout, major: nat) returns (low: uint64)
    ensures layout == V2 && major <= 27 ==> low == Low(major)
  {
    low := layout.minNs;
    for i := 0 to major
      invariant layout == V2 && major <= 27 ==> low == Low(i)
    {
      if layout == V2 && major <= 27 { LowWithin(i); }
      if low > UINT64_MAX / 2 {
        low := UINT64_MAX;
        break;
      }
      low := low * 2;
    }
  }

  /** The end of a part of a doubling in 64-bit arithmetic. */
  function WrappedSubEnd(low: uint64, sub: nat, subbins: uint32): uint64
    requires 0 < subbins
  {
    (low + Wrapped(Wrapped(low * (sub + 1)) + subbins - 1) / subbins) % TWO_64
  }

  function Wrapped(x: int): uint64 { x % TWO_64 }

  lemma NothingWraps(low: uint64, sub: nat)
    requires 0 <= low * (sub + 1) <= 16 * low <= TWO_64 / 4
    ensures WrappedSubEnd(low, sub, SUBBINS) == SubEnd(low, sub)
  {
    var p := low * (sub + 1);
    assert Wrapped(p) == p && Wrapped(p + 15) == p + 15;
  }

  lemma {:induction false} LowWithin(k: nat)
    requires k <= 27
    ensures Low(k) <= 1000 * 134_217_728
  {
    LowNine(0);
    LowNine(9);
    LowNine(18);
    if k < 27 { LowGrows(k, 27); }
  }

  lemma NineBits(low: nat, sub: nat)
    requires low <= 1000 * 134_217_728 && sub < SUBBINS
    ensures 0 <= low * (sub + 1) <= 16 * low
  {
    Monotone(sub + 1, 16, low);
    Monotone(0, sub + 1, low);
    assert low * (sub + 1) == (sub + 1) * low;
  }

  /** The upper end of a value's bin is above the value by at most a sixteenth of it, rounded up, exactly
      for values from 941 to 999 and from 1063 to below the maximum. Values from 1000 to 1062 are in
      bin 0, which reports 1000. */
  lemma UpperIsTight(v: nat)
    ensures v < Upper(IndexOf(v)) && 16 * (Upper(IndexOf(v)) - v) <= v + 15
            <==> 941 <= v < 1000 || 1063 <= v < MAX_NS
  {
    if MIN_NS < v < MAX_NS {
      var k := Major(v);
      MajorBelow27(v);
      var low := Low(k);
      var s := Sub(v, low);
      var i := IndexOf(v);
      UniqueResidue(i, k, s, SUBBINS);
      SubEndBounds(v, low, s);
      if i == 0 {
        assert k == 0 && s == 0;
      } else if k == 0 {
        assert low == 1000 && s >= 1;
      } else {
        LowGrows(0, k);
      }
    }
  }

  lemma SubEndBounds(v: nat, low: nat, s: nat)
    requires 0 < low <= v < 2 * low && s == Sub(v, low)
    ensures v < SubEnd(low, s) && 16 * (SubEnd(low, s) - v) <= low + 15
  {
    var n := low * (s + 1);
    assert n == low * s + low;
  }

  // ----- samples, bins and percentiles -----------------------------------------------------------

  type BinSeq = b: seq<nat> | |b| == BINS witness seq(BINS, _ => 0)

  /** How many samples are in each bin. */
  function BinsOf(samples: seq<nat>): BinSeq {
    if samples == [] then seq(BINS, _ => 0)
    else
      var b := BinsOf(samples[..|samples| - 1]);
      var i := IndexOf(samples[|samples| - 1]);
      b[i := b[i] + 1]
  }

  /** Samples whose bin is below i. */
  function CountInBinsBelow(samples: seq<nat>, i: nat): nat {
    if samples == [] then 0
    else CountInBinsBelow(samples[..|samples| - 1], i) + (if IndexOf(samples[|samples| - 1]) < i then 1 else 0)
  }

  function CountBelow(samples: seq<nat>, x: nat): nat {
    if samples == [] then 0
    else CountBelow(samples[..|samples| - 1], x) + (if samples[|samples| - 1] < x then 1 else 0)
  }

  /** x is the sample of this rank in the sorted order of the samples, counting from 1. */
  predicate HasRank(samples: seq<nat>, rank: nat, x: nat) {
    CountBelow(samples, x) < rank <= CountBelow(samples, x + 1)
  }

  /** Sum of the first i bins. */
  function Cumulative(bins: seq<nat>, i: nat): nat
    requires i <= |bins|
  {
    if i == 0 then 0 else Cumulative(bins, i - 1) + bins[i - 1]
  }

  lemma {:induction false} CumulativeUpdate(bins: seq<nat>, k: nat, i: nat)
    requires k < |bins| && i <= |bins|
    ensures Cumulative(bins[k := bins[k] + 1], i) == Cumulative(bins, i) + (if k < i then 1 else 0)
  {
    if i > 0 { CumulativeUpdate(bins, k, i - 1); }
  }

  lemma {:induction false} CumulativeZero(i: nat)
    requires i <= BINS
    ensures Cumulative(seq(BINS, _ => 0), i) == 0
  {
    if i > 0 { CumulativeZero(i - 1); }
  }

  lemma {:induction false} CumulativeCounts(samples: seq<nat>, i: nat)
    requires i <= BINS
    ensures Cumulative(BinsOf(samples), i) == CountInBinsBelow(samples, i)
  {
    if samples == [] {
      CumulativeZero(i);
    } else {
      var front := samples[..|samples| - 1];
      CumulativeCounts(front, i);
      CumulativeUpdate(BinsOf(front), IndexOf(samples[|samples| - 1]), i);
    }
  }

  /** The samples in bins below that of x are below x; those up to x are in bins up to that of x. */
  lemma {:induction false} BinsSeparate(samples: seq<nat>, x: nat)
    ensures CountInBinsBelow(samples, IndexOf(x)) <= CountBelow(samples, x)
    ensures CountBelow(samples, x + 1) <= CountInBinsBelow(samples, IndexOf(x) + 1)
  {
    if samples != [] {
      var s := samples[|samples| - 1];
      BinsSeparate(samples[..|samples| - 1], x);
      if s <= x { IndexMonotone(s, x); } else { IndexMonotone(x, s); }
    }
  }

  /** The bin the scan for a rank stops in; BINS if the rank is beyond all samples. */
  function BinOfRank(bins: BinSeq, rank: nat, i: nat): (r: nat)
    requires i <= BINS && (i > 0 ==> Cumulative(bins, i) < rank)
    ensures i <= r <= BINS
    ensures r < BINS ==> Cumulative(bins, r + 1) >= rank
    ensures r > 0 ==> Cumulative(bins, r) < rank
    ensures r == BINS ==> i == BINS || Cumulative(bins, BINS) < rank
    decreases BINS - i
  {
    if i == BINS then BINS
    else if Cumulative(bins, i + 1) >= rank then i
    else BinOfRank(bins, rank, i + 1)
  }

  lemma {:induction false} CumulativeMonotone(bins: seq<nat>, a: nat, b: nat)
    requires a <= b <= |bins|
    ensures Cumulative(bins, a) <= Cumulative(bins, b)
    decreases b
  {
    if a < b { CumulativeMonotone(bins, a, b - 1); }
  }

  /** The scan finds the bin of the sample with that rank. */
  lemma {:induction false} RankIsFound(samples: seq<nat>, rank: nat, x: nat)
    requires HasRank(samples, rank, x)
    ensures BinOfRank(BinsOf(samples), rank, 0) == IndexOf(x)
  {
    var bins, i := BinsOf(samples), IndexOf(x);
    var r := BinOfRank(bins, rank, 0);
    BinsSeparate(samples, x);
    CumulativeCounts(samples, i);
    CumulativeCounts(samples, i + 1);
    if r < i { CumulativeMonotone(bins, r + 1, i); }
    if i < r { CumulativeMonotone(bins, i + 1, r); }
  }

  /** A percentile is reported a sixteenth above the true order statistic at most, in the range where a
      value's bin is tight. */
  lemma {:induction false} PercentileIsTight(samples: seq<nat>, rank: nat, x: nat)
    requires HasRank(samples, rank, x) && 1063 <= x < MAX_NS
    ensures var u := Upper(BinOfRank(BinsOf(samples), rank, 0));
      x < u && 16 * (u - x) <= x + 15
  {
    RankIsFound(samples, rank, x);
    UpperIsTight(x);
  }

  class Hist {
    const bins: array<nat>
    var count: nat
    ghost var samples: seq<nat>

    ghost predicate Valid()
      reads this, bins
    {
      bins.Length == BINS && bins[..] == BinsOf(samples) && count == |samples|
    }

    constructor ()
      ensures Valid() && fresh(bins) && samples == []
    {
      bins := new nat[BINS](_ => 0);
      count, samples := 0, [];
      new;
      assert bins[..] == BinsOf([]);
    }

    /** `hist_add` */
    method Add(v: uint64)
      requires Valid()
      modifies this, bins
      ensures Valid() && samples == old(samples) + [v]
    {
      var i := HistIndex(v);
      ghost var before := bins[..];
      bins[i] := bins[i] + 1;
      count := count + 1;
      assert (samples + [v])[..|samples|] == samples;
      samples := samples + [v];
      assert bins[..] == before[i := before[i] + 1];
    }

    /** `hist_percentile`, for the rank the percentage comes to; a rank of 0 counts as 1. */
    method Percentile(rank0: nat) returns (u: uint64)
      requires Valid()
      ensures samples == [] ==> u == 0
      ensures samples != [] ==> forall x :: HasRank(samples, if rank0 == 0 then 1 else rank0, x) ==>
        u == Upper(IndexOf(x))
    {
      if count == 0 { return 0; }
      var rank := if rank0 == 0 then 1 else rank0;
      var cumulative := 0;
      for i := 0 to BINS
        invariant cumulative == Cumulative(bins[..], i)
        invariant cumulative < rank
      {
        cumulative := cumulative + bins[i];
        if cumulative >= rank {
          Stops(bins[..], rank, i);
          forall x | HasRank(samples, rank, x)
            ensures IndexOf(x) == i
          {
            RankIsFound(samples, rank, x);
          }
          u := HistBinUpper(i);
          return;
        }
      }
      forall x | HasRank(samples, rank, x)
        ensures false
      {
        BinsSeparate(samples, x);
        CumulativeCounts(samples, IndexOf(x) + 1);
        CumulativeMonotone(bins[..], IndexOf(x) + 1, BINS);
      }
      return MAX_NS;
    }

    /** `addHistogram`: bin by bin. */
    method Merge(src: Hist)
      requires Valid() && src.Valid() && src != this && src.bins != bins
      modifies this, bins
      ensures Valid() && samples == old(samples) + src.samples
    {
      AddBins(bins, src.bins);
      count := count + src.count;
      SumIsUnion(bins[..], samples, src.samples);
      samples := samples + src.samples;
    }
  }

  method AddBins(dst: array<nat>, src: array<nat>)
    requires dst.Length == src.Length && dst != src
    modifies dst
    ensures forall k :: 0 <= k < dst.Length ==> dst[k] == old(dst[k]) + src[k]
  {
    for i := 0 to dst.Length
      invariant forall k :: 0 <= k < i ==> dst[k] == old(dst[k]) + src[k]
      invariant forall k :: i <= k < dst.Length ==> dst[k] == old(dst[k])
    {
      dst[i] := dst[i] + src[i];
    }
  }

  lemma {:induction false} Stops(bins: BinSeq, rank: nat, i: nat)
    requires i < BINS && 0 < rank && Cumulative(bins, i) < rank <= Cumulative(bins, i + 1)
    ensures BinOfRank(bins, rank, 0) == i
  {
    var r := BinOfRank(bins, rank, 0);
    if r < i { CumulativeMonotone(bins, r + 1, i); }
    if i < r { CumulativeMonotone(bins, i + 1, r); }
  }

  /** The bins of all samples together are the sums of the bins. */
  lemma {:induction false} BinsOfUnion(a: seq<nat>, b: seq<nat>)
    ensures forall k :: 0 <= k < BINS ==> BinsOf(a + b)[k] == BinsOf(a)[k] + BinsOf(b)[k]
    decreases |b|
  {
    if b == [] {
      assert a + b == a;
    } else {
      var front := b[..|b| - 1];
      BinsOfUnion(a, front);
      assert (a + b)[..|a + b| - 1] == a + front;
    }
  }

  lemma {:induction false} SumIsUnion(sum: seq<nat>, a: seq<nat>, b: seq<nat>)
    requires |sum| == BINS && forall k :: 0 <= k < BINS ==> sum[k] == BinsOf(a)[k] + BinsOf(b)[k]
    ensures sum == BinsOf(a + b)
  {
    BinsOfUnion(a, b);
  }

  /** So a percentile of the merged histogram is that of the union of the samples. */
  lemma {:induction false} MergedPercentile(a: seq<nat>, b: seq<nat>, merged: BinSeq, rank: nat)
    requires forall k :: 0 <= k < BINS ==> merged[k] == BinsOf(a)[k] + BinsOf(b)[k]
    ensures BinOfRank(merged, rank, 0) == BinOfRank(BinsOf(a + b), rank, 0)
  {
    SumIsUnion(merged, a, b);
  }
}
