/** What a sampling tick adds to the staleness histograms: for each sampling time one sample of every flow that is
    sampled, of the time since its record was scheduled, in the sum and in the series of the flow. */
module MetricsSampling {
  import opened MachineWords
  import opened Histogram
  import opened MetricsSeries
  import opened MetricsFlows
  import opened MetricsAmounts
  import opened MetricsOutcomes

  /** A flow is sampled if it is loss tolerant and expected or observed. */
  predicate Sampled(latest: map<FlowKey, Latest>, f: FlowKey) {
    f in latest && f.key.cls == LOSS_TOLERANT && (latest[f].expected || latest[f].has)
  }

  /** The flows a sample counts. */
  ghost function SampledFlows(latest: map<FlowKey, Latest>): set<FlowKey> {
    set f | f in latest && Sampled(latest, f)
  }

  ghost function SampledAmong(order: seq<FlowKey>, latest: map<FlowKey, Latest>): set<FlowKey> {
    set f | f in order && Sampled(latest, f)
  }

  /** The flows of the table in the order of its slots. */
  ghost predicate Enumerates(order: seq<FlowKey>, latest: map<FlowKey, Latest>) {
    (forall f :: f in order <==> f in latest) && forall i, j :: 0 <= i < j < |order| ==> order[i] != order[j]
  }

  lemma SampledStep(order: seq<FlowKey>, latest: map<FlowKey, Latest>, i: nat)
    requires i < |order| && Enumerates(order, latest)
    ensures order[i] in latest
    ensures |SampledAmong(order[..i + 1], latest)| ==
      |SampledAmong(order[..i], latest)| + Flag(Sampled(latest, order[i]))
  {
    var f := order[i];
    assert f in order && f !in order[..i] && order[..i + 1] == order[..i] + [f];
    SetDiffersAt(SampledAmong(order[..i], latest), SampledAmong(order[..i + 1], latest), f);
  }

  /** n for each sampling time from `first` on, a period apart, that is not after `time`. */
  function Due(first: nat, time: nat, period: nat, n: nat): nat
    requires 0 < period
    decreases time + 1 - first
  {
    if first > time then 0 else n + Due(first + period, time, period, n)
  }

  /** The first sampling time after `time`. */
  function NextDue(first: nat, time: nat, period: nat): (next: nat)
    requires 0 < period
    ensures first <= time ==> time < next <= time + period
    decreases time + 1 - first
  {
    if first > time then first else NextDue(first + period, time, period)
  }

  function Capped(next: nat): uint64 { if next < UINT64_MAX then next else UINT64_MAX }

  /** It is the least number of periods after the first that is later. */
  lemma {:induction false} NextDueIsPeriods(first: nat, time: nat, period: nat, n: nat)
    requires 0 < period && first + n * period <= time < first + (n + 1) * period
    ensures NextDue(first, time, period) == first + (n + 1) * period
    decreases n
  {
    if n > 0 {
      assert n * period == (n - 1) * period + period;
      NextDueIsPeriods(first + period, time, period, n - 1);
    }
  }

  // ----- ages ------------------------------------------------------------------------------------

  /** The staleness histogram of a series, or with None the sum of all. */
  function StalenessAt(a: Accounts, series: Option<SeriesKey>): HistV {
    match series
    case None => a.staleness
    case Some(key) => if SeriesOf(a, key).Some? then SeriesOf(a, key).value.staleness else NoHist()
  }

  /** The sampled flows of a series, or of all, whose age is in this bin. */
  ghost function AgedAmong(order: seq<FlowKey>, latest: map<FlowKey, Latest>, series: Option<SeriesKey>, bin: nat,
                           at: nat): set<FlowKey> {
    set f | f in order && Sampled(latest, f) && Aged(latest[f], f, series, bin, at)
  }

  ghost function AgedFlows(latest: map<FlowKey, Latest>, series: Option<SeriesKey>, bin: nat, at: nat): set<FlowKey> {
    set f | f in latest && Sampled(latest, f) && Aged(latest[f], f, series, bin, at)
  }

  predicate Aged(l: Latest, f: FlowKey, series: Option<SeriesKey>, bin: nat, at: nat) {
    (series == None || series == Some(f.key)) && bin == IndexOf(Elapsed(l.sched, at))
  }

  /** The flows of that age at every sampling time from `first` on that is not after `time`. */
  ghost function AgedDue(latest: map<FlowKey, Latest>, series: Option<SeriesKey>, bin: nat, first: nat, time: nat,
                         period: nat): nat
    requires 0 < period
    decreases time + 1 - first
  {
    if first > time then 0
    else |AgedFlows(latest, series, bin, first)| + AgedDue(latest, series, bin, first + period, time, period)
  }

  /** Nothing that is not staleness changed. */
  ghost predicate MeasuredKept(a: Accounts, b: Accounts) {
    b.classes == a.classes && forall key :: MeasuredOf(b, key) == MeasuredOf(a, key)
  }

  /** Every bin of the sum and of every series has one more for each sampled flow of that age. */
  ghost predicate AgedOnce(a: Accounts, b: Accounts, order: seq<FlowKey>, latest: map<FlowKey, Latest>, at: nat) {
    MeasuredKept(a, b) && forall series, bin :: 0 <= bin < BINS ==>
      StalenessAt(b, series).bins[bin] == StalenessAt(a, series).bins[bin] + |AgedAmong(order, latest, series, bin, at)|
  }

  /** The same for all sampling times. */
  ghost predicate AgedUntil(a: Accounts, b: Accounts, latest: map<FlowKey, Latest>, first: nat, time: nat, period: nat)
    requires 0 < period
  {
    MeasuredKept(a, b) && forall series, bin :: 0 <= bin < BINS ==>
      StalenessAt(b, series).bins[bin] ==
      StalenessAt(a, series).bins[bin] + AgedDue(latest, series, bin, first, time, period)
  }

  // ----- one sample ------------------------------------------------------------------------------

  /** Exactly the bin of the age gains one, in the sum and in the series of the flow. */
  ghost predicate SampleAdded(a: Accounts, b: Accounts, f: FlowKey, l: Latest, at: nat) {
    MeasuredKept(a, b) && forall series, bin :: 0 <= bin < BINS ==>
      StalenessAt(b, series).bins[bin] == StalenessAt(a, series).bins[bin] + Flag(Aged(l, f, series, bin, at))
  }

  lemma {:induction false} StaleIsAdded(a: Accounts, f: FlowKey, l: Latest, at: uint64, deadline: nat)
    requires |a.classes| == N_CLASSES
    requires Find(WithSeries(a, f.key, deadline).traffic, f.key) < |WithSeries(a, f.key, deadline).traffic|
    ensures SampleAdded(a, StaleSampled(WithSeries(a, f.key, deadline), f.key, Sample(SaturatingSub(at, l.sched))),
                        f, l, at)
  {
    var b := WithSeries(a, f.key, deadline);
    SeriesAdded(a, f.key, deadline);
    StaleIncreased(b, f, l, at);
  }

  lemma {:induction false} StaleIncreased(a: Accounts, f: FlowKey, l: Latest, at: uint64)
    requires Find(a.traffic, f.key) < |a.traffic|
    ensures SampleAdded(a, StaleSampled(a, f.key, Sample(SaturatingSub(at, l.sched))), f, l, at)
  {
    var delta := Sample(Elapsed(l.sched, at));
    var b := StaleSampled(a, f.key, delta);
    forall other: SeriesKey
      ensures Find(b.traffic, other) == Find(a.traffic, other)
    {
      SameFind(a.traffic, b.traffic, other);
    }
    SampleIsOneMore(a.staleness, Elapsed(l.sched, at));
    SampleIsOneMore(a.traffic[Find(a.traffic, f.key)].staleness, Elapsed(l.sched, at));
  }

  // ----- one sampling time -----------------------------------------------------------------------

  /** One sample of every flow that is to be sampled, in the order of the table's slots. */
  function SampledOnce(a: Accounts, order: seq<FlowKey>, latest: map<FlowKey, Latest>, at: uint64,
                       deadlines: seq<Deadline>, other: nat): (b: Accounts)
    ensures b.classes == a.classes
  {
    if order == [] then a
    else
      var f := order[|order| - 1];
      var b := SampledOnce(a, order[..|order| - 1], latest, at, deadlines, other);
      if Sampled(latest, f) then
        var made := WithSeries(b, f.key, DeadlineOf(deadlines, f.key.traffic, f.key.direction, other));
        StaleSampled(made, f.key, Sample(SaturatingSub(at, latest[f].sched)))
      else b
  }

  lemma AgedStep(order: seq<FlowKey>, latest: map<FlowKey, Latest>, i: nat, series: Option<SeriesKey>, bin: nat,
                 at: nat)
    requires i < |order| && Enumerates(order, latest)
    ensures order[i] in latest
    ensures |AgedAmong(order[..i + 1], latest, series, bin, at)| ==
      |AgedAmong(order[..i], latest, series, bin, at)| +
      Flag(Sampled(latest, order[i]) && Aged(latest[order[i]], order[i], series, bin, at))
  {
    var f := order[i];
    assert f in order && f !in order[..i] && order[..i + 1] == order[..i] + [f];
    SetDiffersAt(AgedAmong(order[..i], latest, series, bin, at), AgedAmong(order[..i + 1], latest, series, bin, at), f);
  }

  /** One more flow of the table is gone through. */
  lemma AgedOneMore(a: Accounts, b: Accounts, c: Accounts, order: seq<FlowKey>, latest: map<FlowKey, Latest>, i: nat,
                    at: nat)
    requires i < |order| && Enumerates(order, latest) && order[i] in latest
    requires AgedOnce(a, b, order[..i], latest, at)
    requires if Sampled(latest, order[i]) then SampleAdded(b, c, order[i], latest[order[i]], at) else c == b
    ensures AgedOnce(a, c, order[..i + 1], latest, at)
  {
    forall series, bin: nat | bin < BINS
      ensures StalenessAt(c, series).bins[bin] ==
        StalenessAt(a, series).bins[bin] + |AgedAmong(order[..i + 1], latest, series, bin, at)|
    {
      AgedStep(order, latest, i, series, bin, at);
    }
  }

  lemma AgedNone(a: Accounts, latest: map<FlowKey, Latest>, at: nat)
    ensures AgedOnce(a, a, [], latest, at)
  {
    forall series, bin: nat
      ensures AgedAmong([], latest, series, bin, at) == {}
    {
    }
  }

  lemma {:induction false} SampledOnceStep(a: Accounts, order: seq<FlowKey>, i: nat, latest: map<FlowKey, Latest>,
                                           at: uint64, deadlines: seq<Deadline>, other: nat)
    requires i < |order| && order[i] in latest && |a.classes| == N_CLASSES
    ensures var b := SampledOnce(a, order[..i], latest, at, deadlines, other);
      var c := SampledOnce(a, order[..i + 1], latest, at, deadlines, other);
      && (if Sampled(latest, order[i]) then SampleAdded(b, c, order[i], latest[order[i]], at) else c == b)
      && c.staleness.count == b.staleness.count + Flag(Sampled(latest, order[i]))
  {
    var f := order[i];
    assert order[..i + 1][..i] == order[..i];
    if Sampled(latest, f) {
      StaleIsAdded(SampledOnce(a, order[..i], latest, at, deadlines, other), f, latest[f], at,
                   DeadlineOf(deadlines, f.key.traffic, f.key.direction, other));
    }
  }

  /** The first n flows of the table. */
  lemma {:induction false} SampledOnceAges(a: Accounts, order: seq<FlowKey>, n: nat, latest: map<FlowKey, Latest>,
                                           at: uint64, deadlines: seq<Deadline>, other: nat)
    requires Enumerates(order, latest) && n <= |order| && |a.classes| == N_CLASSES
    ensures AgedOnce(a, SampledOnce(a, order[..n], latest, at, deadlines, other), order[..n], latest, at)
    ensures SampledOnce(a, order[..n], latest, at, deadlines, other).staleness.count ==
      a.staleness.count + |SampledAmong(order[..n], latest)|
    decreases n
  {
    if n == 0 {
      AgedNone(a, latest, at);
    } else {
      var i: nat := n - 1;
      SampledOnceAges(a, order, i, latest, at, deadlines, other);
      SampledStep(order, latest, i);
      SampledOnceStep(a, order, i, latest, at, deadlines, other);
      AgedOneMore(a, SampledOnce(a, order[..i], latest, at, deadlines, other),
                  SampledOnce(a, order[..n], latest, at, deadlines, other), order, latest, i, at);
    }
  }

  // ----- a tick ----------------------------------------------------------------------------------

  /** A sample at every sampling time; a sum that would overflow ends it. */
  function SampledUntil(a: Accounts, order: seq<FlowKey>, latest: map<FlowKey, Latest>, next: uint64, time: uint64,
                        period: uint64, deadlines: seq<Deadline>, other: nat): Accounts
    requires 0 < period
    decreases UINT64_MAX - next
  {
    if next > time then a
    else
      var b := SampledOnce(a, order, latest, next, deadlines, other);
      if UINT64_MAX - next < period then b
      else SampledUntil(b, order, latest, next + period, time, period, deadlines, other)
  }

  /** A tick takes exactly the samples that are due, at the times they are due. */
  lemma {:induction false} SampledUntilAges(a: Accounts, order: seq<FlowKey>, latest: map<FlowKey, Latest>,
                                            next: uint64,
                                            time: uint64, period: uint64, deadlines: seq<Deadline>, other: nat)
    requires 0 < period && Enumerates(order, latest) && |a.classes| == N_CLASSES
    ensures var b := SampledUntil(a, order, latest, next, time, period, deadlines, other);
      && AgedUntil(a, b, latest, next, time, period)
      && b.staleness.count == a.staleness.count + Due(next, time, period, |SampledFlows(latest)|)
    decreases UINT64_MAX - next
  {
    if next <= time {
      var b := SampledOnce(a, order, latest, next, deadlines, other);
      assert order[..|order|] == order && SampledAmong(order, latest) == SampledFlows(latest);
      SampledOnceAges(a, order, |order|, latest, next, deadlines, other);
      var c := b;
      if next + period <= UINT64_MAX {
        SampledUntilAges(b, order, latest, next + period, time, period, deadlines, other);
        c := SampledUntil(b, order, latest, next + period, time, period, deadlines, other);
      } else {
        NothingDue(b, latest, next + period, time, period);
      }
      AgedOneTime(a, b, c, order, latest, next, time, period);
    }
  }

  lemma {:induction false} NothingDue(a: Accounts, latest: map<FlowKey, Latest>, next: nat, time: nat, period: nat)
    requires 0 < period && time < next
    ensures AgedUntil(a, a, latest, next, time, period)
  {
  }

  /** The samples of one time and those of the later ones. */
  lemma {:induction false} AgedOneTime(a: Accounts, b: Accounts, c: Accounts, order: seq<FlowKey>,
                                       latest: map<FlowKey, Latest>, at: nat, time: nat, period: nat)
    requires 0 < period && at <= time && Enumerates(order, latest)
    requires AgedOnce(a, b, order, latest, at) && AgedUntil(b, c, latest, at + period, time, period)
    ensures AgedUntil(a, c, latest, at, time, period)
  {
    forall series, bin: nat | bin < BINS
      ensures StalenessAt(c, series).bins[bin] ==
        StalenessAt(a, series).bins[bin] + AgedDue(latest, series, bin, at, time, period)
    {
      assert AgedAmong(order, latest, series, bin, at) == AgedFlows(latest, series, bin, at);
    }
  }
}
