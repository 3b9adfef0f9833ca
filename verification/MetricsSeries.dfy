/** The sums a metrics object keeps twice: per class, and per traffic series (id, direction, class). Every
    operation credits the same amounts to a class and to one of its series. */
module MetricsSeries {
  import opened Histogram

  const LOSS_TOLERANT: nat := 0
  const MUST_DELIVER: nat := 1
  const N_CLASSES: nat := 2
  const N_DIRECTIONS: nat := 3

  /** `bk_class_counts` */
  datatype Counts = Counts(slots: nat, slotsBroadcast: nat, submitted: nat, delivered: nat, duplicates: nat,
                           deadlineHit: nat, expected: nat, observed: nat)

  /** `bk_hist` as a value. */
  datatype HistV = HistV(count: nat, bins: BinSeq)

  /** `bk_class_metrics` */
  datatype ClassM = ClassM(counts: Counts, sched: HistV, send: HistV, gap: HistV)

  datatype SeriesKey = SeriesKey(traffic: nat, direction: nat, cls: nat)

  /** `bk_traffic_metrics` */
  datatype Series = Series(key: SeriesKey, deadline: nat, m: ClassM, staleness: HistV)

  /** The accounting part of `bk_metrics`. */
  datatype Accounts = Accounts(classes: seq<ClassM>, staleness: HistV, traffic: seq<Series>)

  // ----- amounts ---------------------------------------------------------------------------------

  const NoCounts := Counts(0, 0, 0, 0, 0, 0, 0, 0)
  function NoHist(): HistV { HistV(0, seq(BINS, _ => 0)) }

  function NoClass(): ClassM { ClassM(NoCounts, NoHist(), NoHist(), NoHist()) }

  function PlusCounts(a: Counts, b: Counts): Counts {
    Counts(a.slots + b.slots, a.slotsBroadcast + b.slotsBroadcast, a.submitted + b.submitted,
           a.delivered + b.delivered, a.duplicates + b.duplicates, a.deadlineHit + b.deadlineHit,
           a.expected + b.expected, a.observed + b.observed)
  }

  function PlusHist(a: HistV, b: HistV): HistV {
    HistV(a.count + b.count, seq(BINS, k requires 0 <= k < BINS => a.bins[k] + b.bins[k]))
  }

  function Plus(a: ClassM, b: ClassM): ClassM {
    ClassM(PlusCounts(a.counts, b.counts), PlusHist(a.sched, b.sched), PlusHist(a.send, b.send), PlusHist(a.gap, b.gap))
  }

  /** One sample. */
  function Sample(v: nat): HistV {
    HistV(1, seq(BINS, k => if k == IndexOf(v) then 1 else 0))
  }

  lemma PlusHistLaws(a: HistV, b: HistV, d: HistV)
    ensures PlusHist(PlusHist(a, b), d) == PlusHist(PlusHist(a, d), b)
    ensures PlusHist(a, NoHist()) == a && PlusHist(NoHist(), a) == a
    ensures PlusHist(a, b) == PlusHist(b, a)
  {
  }

  lemma PlusLaws(a: ClassM, b: ClassM, d: ClassM)
    ensures Plus(Plus(a, b), d) == Plus(Plus(a, d), b)
    ensures Plus(a, NoClass()) == a && Plus(NoClass(), a) == a
  {
    PlusHistLaws(a.sched, b.sched, d.sched);
    PlusHistLaws(a.send, b.send, d.send);
    PlusHistLaws(a.gap, b.gap, d.gap);
  }

  /** `count` is the sum of the bins. */
  predicate HistOk(h: HistV) { h.count == Cumulative(h.bins, BINS) }

  predicate AmountOk(m: ClassM) { HistOk(m.sched) && HistOk(m.send) && HistOk(m.gap) }

  lemma {:induction false} CumulativePlus(a: BinSeq, b: BinSeq, sum: BinSeq, i: nat)
    requires i <= BINS && forall k :: 0 <= k < BINS ==> sum[k] == a[k] + b[k]
    ensures Cumulative(sum, i) == Cumulative(a, i) + Cumulative(b, i)
  {
    if i > 0 { CumulativePlus(a, b, sum, i - 1); }
  }

  lemma PlusHistOk(a: HistV, b: HistV)
    requires HistOk(a) && HistOk(b)
    ensures HistOk(PlusHist(a, b))
  {
    CumulativePlus(a.bins, b.bins, PlusHist(a, b).bins, BINS);
  }

  lemma PlusOk(a: ClassM, b: ClassM)
    requires AmountOk(a) && AmountOk(b)
    ensures AmountOk(Plus(a, b))
  {
    PlusHistOk(a.sched, b.sched);
    PlusHistOk(a.send, b.send);
    PlusHistOk(a.gap, b.gap);
  }

  lemma NoHistOk()
    ensures HistOk(NoHist()) && AmountOk(NoClass())
  {
    CumulativeZero(BINS);
  }

  lemma SampleOk(v: nat)
    ensures HistOk(Sample(v))
  {
    CumulativeZero(BINS);
    CumulativeUpdate(seq(BINS, _ => 0), IndexOf(v), BINS);
    assert Sample(v).bins == seq(BINS, _ => 0)[IndexOf(v) := 1];
  }

  // ----- sums over the series --------------------------------------------------------------------

  function ClassSum(traffic: seq<Series>, cls: nat): ClassM {
    if traffic == [] then NoClass()
    else if traffic[|traffic| - 1].key.cls == cls then
      Plus(ClassSum(traffic[..|traffic| - 1], cls), traffic[|traffic| - 1].m)
    else ClassSum(traffic[..|traffic| - 1], cls)
  }

  function StalenessSum(traffic: seq<Series>): HistV {
    if traffic == [] then NoHist()
    else if traffic[|traffic| - 1].key.cls == LOSS_TOLERANT then
      PlusHist(StalenessSum(traffic[..|traffic| - 1]), traffic[|traffic| - 1].staleness)
    else StalenessSum(traffic[..|traffic| - 1])
  }

  function SeriesCredited(traffic: seq<Series>, i: nat, delta: ClassM): seq<Series>
    requires i < |traffic|
  {
    traffic[i := traffic[i].(m := Plus(traffic[i].m, delta))]
  }

  function SeriesSampled(traffic: seq<Series>, i: nat, delta: HistV): seq<Series>
    requires i < |traffic|
  {
    traffic[i := traffic[i].(staleness := PlusHist(traffic[i].staleness, delta))]
  }

  /** Crediting one series credits the sum of its class. */
  lemma {:induction false} ClassSumCredit(traffic: seq<Series>, i: nat, delta: ClassM, cls: nat)
    requires i < |traffic|
    ensures ClassSum(SeriesCredited(traffic, i, delta), cls) ==
            (if traffic[i].key.cls == cls then Plus(ClassSum(traffic, cls), delta) else ClassSum(traffic, cls))
    decreases |traffic|
  {
    var n: nat := |traffic| - 1;
    var traffic' := SeriesCredited(traffic, i, delta);
    if i == n {
      assert traffic'[..n] == traffic[..n];
      if traffic[n].key.cls == cls { PlusAssoc(ClassSum(traffic[..n], cls), traffic[n].m, delta); }
    } else {
      assert traffic'[..n] == SeriesCredited(traffic[..n], i, delta);
      ClassSumCredit(traffic[..n], i, delta, cls);
      PlusLaws(ClassSum(traffic[..n], cls), delta, traffic[n].m);
    }
  }

  lemma PlusAssoc(a: ClassM, b: ClassM, d: ClassM)
    ensures Plus(a, Plus(b, d)) == Plus(Plus(a, b), d)
  {
    PlusHistAssoc(a.sched, b.sched, d.sched);
    PlusHistAssoc(a.send, b.send, d.send);
    PlusHistAssoc(a.gap, b.gap, d.gap);
  }

  lemma PlusHistAssoc(a: HistV, b: HistV, d: HistV)
    ensures PlusHist(a, PlusHist(b, d)) == PlusHist(PlusHist(a, b), d)
  {
  }

  lemma {:induction false} StalenessCredit(traffic: seq<Series>, i: nat, delta: HistV)
    requires i < |traffic| && traffic[i].key.cls == LOSS_TOLERANT
    ensures StalenessSum(SeriesSampled(traffic, i, delta)) ==
            PlusHist(StalenessSum(traffic), delta)
    decreases |traffic|
  {
    var n: nat := |traffic| - 1;
    var traffic' := SeriesSampled(traffic, i, delta);
    if i == n {
      assert traffic'[..n] == traffic[..n];
      PlusHistAssoc(StalenessSum(traffic[..n]), traffic[n].staleness, delta);
    } else {
      assert traffic'[..n] == SeriesSampled(traffic[..n], i, delta);
      StalenessCredit(traffic[..n], i, delta);
      if traffic[n].key.cls == LOSS_TOLERANT {
        PlusHistLaws(StalenessSum(traffic[..n]), delta, traffic[n].staleness);
      }
    }
  }

  lemma {:induction false} ClassSumStale(traffic: seq<Series>, i: nat, stale: HistV, cls: nat)
    requires i < |traffic|
    ensures ClassSum(traffic[i := traffic[i].(staleness := stale)], cls) == ClassSum(traffic, cls)
    decreases |traffic|
  {
    var n: nat := |traffic| - 1;
    var traffic' := traffic[i := traffic[i].(staleness := stale)];
    if i == n {
      assert traffic'[..n] == traffic[..n];
    } else {
      assert traffic'[..n] == traffic[..n][i := traffic[..n][i].(staleness := stale)];
      ClassSumStale(traffic[..n], i, stale, cls);
    }
  }

  lemma {:induction false} StaleSumCredit(traffic: seq<Series>, i: nat, m: ClassM)
    requires i < |traffic|
    ensures StalenessSum(traffic[i := traffic[i].(m := m)]) == StalenessSum(traffic)
    decreases |traffic|
  {
    var n: nat := |traffic| - 1;
    var traffic' := traffic[i := traffic[i].(m := m)];
    if i == n {
      assert traffic'[..n] == traffic[..n];
    } else {
      assert traffic'[..n] == traffic[..n][i := traffic[..n][i].(m := m)];
      StaleSumCredit(traffic[..n], i, m);
    }
  }

  /** A new series adds nothing. */
  lemma {:induction false} SumsOfNew(traffic: seq<Series>, s: Series, cls: nat)
    requires s.m == NoClass() && s.staleness == NoHist()
    ensures ClassSum(traffic + [s], cls) == ClassSum(traffic, cls)
    ensures StalenessSum(traffic + [s]) == StalenessSum(traffic)
  {
    assert (traffic + [s])[..|traffic|] == traffic;
    PlusLaws(ClassSum(traffic, cls), NoClass(), NoClass());
    PlusHistLaws(StalenessSum(traffic), NoHist(), NoHist());
  }

  // ----- the invariant ---------------------------------------------------------------------------

  ghost predicate SeriesOk(s: Series) {
    s.key.cls < N_CLASSES && s.key.direction < N_DIRECTIONS && AmountOk(s.m) && HistOk(s.staleness)
  }

  ghost predicate KeysOk(traffic: seq<Series>) {
    && (forall i :: 0 <= i < |traffic| ==> SeriesOk(traffic[i]))
    && (forall i, j :: 0 <= i < j < |traffic| ==> traffic[i].key != traffic[j].key)
  }

  /** Every class is the sum of its series, in each of its counts and in each bin of its histograms. */
  ghost predicate SumsOk(a: Accounts) {
    && |a.classes| == N_CLASSES && KeysOk(a.traffic)
    && (forall c :: 0 <= c < N_CLASSES ==> a.classes[c] == ClassSum(a.traffic, c))
    && a.staleness == StalenessSum(a.traffic)
  }

  // ----- operations ------------------------------------------------------------------------------

  /** The index of a series, or the number of series. */
  function Find(traffic: seq<Series>, key: SeriesKey): (i: nat)
    ensures i <= |traffic|
    ensures i < |traffic| ==> traffic[i].key == key
  {
    if traffic == [] then 0
    else if traffic[0].key == key then 0
    else Find(traffic[1..], key) + 1
  }

  lemma {:induction false} Absent(traffic: seq<Series>, key: SeriesKey)
    ensures Find(traffic, key) == |traffic| <==> forall k :: 0 <= k < |traffic| ==> traffic[k].key != key
  {
    if traffic != [] {
      Absent(traffic[1..], key);
      assert forall k :: 0 < k < |traffic| ==> traffic[k] == traffic[1..][k - 1];
      assert forall k :: 0 <= k < |traffic[1..]| ==> traffic[1..][k] == traffic[k + 1];
    }
  }

  lemma {:induction false} SameFind(traffic: seq<Series>, traffic': seq<Series>, key: SeriesKey)
    requires |traffic'| == |traffic| && forall i :: 0 <= i < |traffic| ==> traffic'[i].key == traffic[i].key
    ensures Find(traffic', key) == Find(traffic, key)
  {
    if traffic != [] { SameFind(traffic[1..], traffic'[1..], key); }
  }

  lemma {:induction false} FindNew(traffic: seq<Series>, s: Series)
    requires Find(traffic, s.key) == |traffic|
    ensures Find(traffic + [s], s.key) == |traffic|
  {
    Absent(traffic, s.key);
    Absent(traffic + [s], s.key);
    assert (traffic + [s])[|traffic|] == s;
    assert forall k :: 0 <= k < |traffic| ==> (traffic + [s])[k] == traffic[k];
  }

  /** `traffic_get` with `create`, the allocation succeeding. */
  function WithSeries(a: Accounts, key: SeriesKey, deadline: nat): (b: Accounts)
    ensures Find(b.traffic, key) < |b.traffic|
  {
    if Find(a.traffic, key) < |a.traffic| then a
    else
      var s := Series(key, deadline, NoClass(), NoHist());
      FindNew(a.traffic, s);
      a.(traffic := a.traffic + [s])
  }

  /** The same amounts for the class and for the series. */
  function Credited(a: Accounts, key: SeriesKey, delta: ClassM): (b: Accounts)
    requires |a.classes| == N_CLASSES && key.cls < N_CLASSES && Find(a.traffic, key) < |a.traffic|
    ensures Find(b.traffic, key) < |b.traffic|
  {
    SameFind(a.traffic, SeriesCredited(a.traffic, Find(a.traffic, key), delta), key);
    Accounts(a.classes[key.cls := Plus(a.classes[key.cls], delta)], a.staleness,
             SeriesCredited(a.traffic, Find(a.traffic, key), delta))
  }

  function StaleSampled(a: Accounts, key: SeriesKey, delta: HistV): Accounts
    requires Find(a.traffic, key) < |a.traffic|
  {
    Accounts(a.classes, PlusHist(a.staleness, delta), SeriesSampled(a.traffic, Find(a.traffic, key), delta))
  }

  /** Amounts for the class alone: what `bk_metrics_on_slot` does when there is no series. */
  function CreditedClass(a: Accounts, cls: nat, delta: ClassM): Accounts
    requires |a.classes| == N_CLASSES && cls < N_CLASSES
  {
    a.(classes := a.classes[cls := Plus(a.classes[cls], delta)])
  }

  lemma {:induction false} WithSeriesOk(a: Accounts, key: SeriesKey, deadline: nat)
    requires SumsOk(a) && key.cls < N_CLASSES && key.direction < N_DIRECTIONS
    ensures var b := WithSeries(a, key, deadline);
      SumsOk(b) && b.classes == a.classes && b.staleness == a.staleness && Find(b.traffic, key) < |b.traffic|
  {
    if Find(a.traffic, key) == |a.traffic| {
      var s := Series(key, deadline, NoClass(), NoHist());
      NoHistOk();
      SumsOfNew(a.traffic, s, 0);
      SumsOfNew(a.traffic, s, 1);
      Absent(a.traffic, key);
      FindNew(a.traffic, s);
    }
  }

  lemma KeysKept(traffic: seq<Series>, traffic': seq<Series>)
    requires KeysOk(traffic) && |traffic'| == |traffic|
    requires forall i :: 0 <= i < |traffic| ==> traffic'[i].key == traffic[i].key && SeriesOk(traffic'[i])
    ensures KeysOk(traffic')
  {
  }

  lemma {:induction false} CreditedOk(a: Accounts, key: SeriesKey, delta: ClassM)
    requires SumsOk(a) && key.cls < N_CLASSES && Find(a.traffic, key) < |a.traffic| && AmountOk(delta)
    ensures SumsOk(Credited(a, key, delta))
  {
    var i := Find(a.traffic, key);
    PlusOk(a.traffic[i].m, delta);
    KeysKept(a.traffic, SeriesCredited(a.traffic, i, delta));
    forall c | 0 <= c < N_CLASSES
      ensures Credited(a, key, delta).classes[c] == ClassSum(Credited(a, key, delta).traffic, c)
    {
      ClassSumCredit(a.traffic, i, delta, c);
    }
    StaleSumCredit(a.traffic, i, Plus(a.traffic[i].m, delta));
  }

  lemma {:induction false} StaleSampledOk(a: Accounts, key: SeriesKey, delta: HistV)
    requires SumsOk(a) && key.cls == LOSS_TOLERANT && Find(a.traffic, key) < |a.traffic| && HistOk(delta)
    ensures SumsOk(StaleSampled(a, key, delta))
  {
    var i := Find(a.traffic, key);
    PlusHistOk(a.traffic[i].staleness, delta);
    KeysKept(a.traffic, SeriesSampled(a.traffic, i, delta));
    StalenessCredit(a.traffic, i, delta);
    forall c | 0 <= c < N_CLASSES
      ensures ClassSum(SeriesSampled(a.traffic, i, delta), c) == ClassSum(a.traffic, c)
    {
      ClassSumStale(a.traffic, i, PlusHist(a.traffic[i].staleness, delta), c);
    }
  }

  /** Crediting a class without a series breaks the sums, unless nothing is credited. */
  lemma CreditedClassBreaks(a: Accounts, cls: nat, delta: ClassM)
    requires SumsOk(a) && cls < N_CLASSES
    ensures SumsOk(CreditedClass(a, cls, delta)) <==> delta == NoClass()
  {
    AddsNothing(a.classes[cls], delta);
    if delta == NoClass() {
      UnchangedClass(a, cls);
    } else {
      ClassOff(a, CreditedClass(a, cls, delta), cls);
    }
  }

  lemma UnchangedClass(a: Accounts, cls: nat)
    requires |a.classes| == N_CLASSES && cls < N_CLASSES
    ensures a.(classes := a.classes[cls := a.classes[cls]]) == a
  {
  }

  lemma ClassOff(a: Accounts, b: Accounts, cls: nat)
    requires SumsOk(a) && cls < N_CLASSES && |b.classes| == N_CLASSES && b.traffic == a.traffic
    requires b.classes[cls] != a.classes[cls]
    ensures !SumsOk(b)
  {
    assert a.classes[cls] == ClassSum(a.traffic, cls);
  }

  lemma AddsNothing(m: ClassM, delta: ClassM)
    ensures Plus(m, delta) == m <==> delta == NoClass()
  {
    PlusLaws(m, NoClass(), NoClass());
    if Plus(m, delta) == m {
      NothingAdded(m.sched, delta.sched);
      NothingAdded(m.send, delta.send);
      NothingAdded(m.gap, delta.gap);
    }
  }

  lemma NothingAdded(a: HistV, b: HistV)
    requires PlusHist(a, b) == a
    ensures b == NoHist()
  {
    forall k | 0 <= k < BINS
      ensures b.bins[k] == 0
    {
      assert PlusHist(a, b).bins[k] == a.bins[k] + b.bins[k];
    }
  }
}
