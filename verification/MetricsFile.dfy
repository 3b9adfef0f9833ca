/** The metrics file of version 2: what the metrics object writes, the checks the orchestrator makes of every
    file, and the merging of files. A file the object writes is accepted exactly if its sums agree. */
module MetricsFile {
  import opened Histogram
  import opened MetricsSeries
  import opened MetricsFlows
  import Metrics
  import opened MetricsInvariants

  /** `ClassCounts` of the orchestrator: the counts and the flows nothing came from. */
  datatype FileCounts = FileCounts(c: Counts, never: nat)

  /** `Histogram`: a file may hold any number of bins. */
  datatype FileHist = FileHist(layout: Layout, count: nat, bins: seq<nat>)

  datatype FileClass = FileClass(counts: FileCounts, sched: FileHist, send: FileHist, gap: FileHist)

  /** `trafficMetric`; a direction or class of no known name has a number beyond the known ones. */
  datatype FileTraffic = FileTraffic(key: SeriesKey, deadline: nat, m: FileClass, staleness: FileHist)

  /** `metricsFile`; classes that are missing are not represented. */
  datatype File = File(layout: Layout, classes: seq<FileClass>, staleness: FileHist, traffic: seq<FileTraffic>,
                       raw: Metrics.Raw)

  // ----- writing ---------------------------------------------------------------------------------

  /** `finalized_counts` */
  function Finalized(c: Counts): FileCounts {
    FileCounts(c, if c.expected >= c.observed then c.expected - c.observed else 0)
  }

  function WriteHist(h: HistV): FileHist { FileHist(V2, h.count, h.bins) }

  function WriteClass(m: ClassM): FileClass {
    FileClass(Finalized(m.counts), WriteHist(m.sched), WriteHist(m.send), WriteHist(m.gap))
  }

  function WriteSeries(s: Series): FileTraffic {
    FileTraffic(s.key, s.deadline, WriteClass(s.m), WriteHist(s.staleness))
  }

  function WriteTraffic(traffic: seq<Series>): seq<FileTraffic> {
    seq(|traffic|, i requires 0 <= i < |traffic| => WriteSeries(traffic[i]))
  }

  function Write(a: Accounts, raw: Metrics.Raw): File
    requires |a.classes| == N_CLASSES
  {
    File(V2, [WriteClass(a.classes[0]), WriteClass(a.classes[1])], WriteHist(a.staleness), WriteTraffic(a.traffic), raw)
  }

  // ----- checks of counts and histograms ---------------------------------------------------------

  /** `validateClassCounts` */
  predicate CountsAccepted(f: FileCounts) {
    CountsSane(f.c) && f.never == f.c.expected - f.c.observed
  }

  predicate HistAccepted(h: FileHist, layout: Layout) {
    h.layout == layout && |h.bins| == BINS && h.count == Cumulative(h.bins, BINS)
  }

  /** `validateV2Histogram` */
  method ValidateV2Histogram(h: FileHist, layout: Layout) returns (ok: bool)
    ensures ok == HistAccepted(h, layout)
  {
    if h.layout != layout || |h.bins| != BINS { return false; }
    var count := 0;
    for i := 0 to BINS
      invariant count == Cumulative(h.bins, i)
    {
      count := count + h.bins[i];
    }
    return h.count == count;
  }

  function PartsCount(parts: seq<FileHist>): nat {
    if parts == [] then 0 else PartsCount(parts[..|parts| - 1]) + parts[|parts| - 1].count
  }

  predicate Binned(parts: seq<FileHist>) { forall p :: p in parts ==> |p.bins| == BINS }

  function PartsBin(parts: seq<FileHist>, k: nat): nat
    requires Binned(parts) && k < BINS
  {
    if parts == [] then 0 else PartsBin(parts[..|parts| - 1], k) + parts[|parts| - 1].bins[k]
  }

  /** The histogram is the sum of the parts. */
  ghost predicate IsSum(h: FileHist, parts: seq<FileHist>) {
    && |h.bins| == BINS && Binned(parts)
    && h.count == PartsCount(parts)
    && forall k :: 0 <= k < BINS ==> h.bins[k] == PartsBin(parts, k)
  }

  /** `validateHistogramSum` */
  method ValidateHistogramSum(aggregate: FileHist, parts: seq<FileHist>) returns (ok: bool)
    ensures ok == IsSum(aggregate, parts)
  {
    if |aggregate.bins| != BINS { return false; }
    var expected := new nat[BINS](_ => 0);
    var expectedCount := 0;
    for j := 0 to |parts|
      invariant Binned(parts[..j]) && expectedCount == PartsCount(parts[..j])
      invariant forall k :: 0 <= k < BINS ==> expected[k] == PartsBin(parts[..j], k)
    {
      assert parts[..j + 1][..j] == parts[..j];
      if |parts[j].bins| != BINS {
        assert parts[j] in parts;
        return false;
      }
      expectedCount := expectedCount + parts[j].count;
      AddPart(expected, parts[j]);
    }
    assert parts[..|parts|] == parts;
    if aggregate.count != expectedCount { return false; }
    for k := 0 to BINS
      invariant forall i :: 0 <= i < k ==> aggregate.bins[i] == expected[i]
    {
      if aggregate.bins[k] != expected[k] { return false; }
    }
    return true;
  }

  method AddPart(expected: array<nat>, part: FileHist)
    requires expected.Length == BINS == |part.bins|
    modifies expected
    ensures forall k :: 0 <= k < BINS ==> expected[k] == old(expected[k]) + part.bins[k]
  {
    for i := 0 to BINS
      invariant forall k :: 0 <= k < i ==> expected[k] == old(expected[k]) + part.bins[k]
      invariant forall k :: i <= k < BINS ==> expected[k] == old(expected[k])
    {
      expected[i] := expected[i] + part.bins[i];
    }
  }

  // ----- checks across the file ------------------------------------------------------------------

  datatype Which = Sched | Send | Gap | Stale

  function HistIn(t: FileTraffic, which: Which): FileHist {
    match which
    case Sched => t.m.sched
    case Send => t.m.send
    case Gap => t.m.gap
    case Stale => t.staleness
  }

  /** The histograms of one kind of the series of a class. */
  function PartsOf(traffic: seq<FileTraffic>, cls: nat, which: Which): seq<FileHist> {
    if traffic == [] then []
    else PartsOf(traffic[..|traffic| - 1], cls, which) +
         (if traffic[|traffic| - 1].key.cls == cls then [HistIn(traffic[|traffic| - 1], which)] else [])
  }

  /** `addClassCounts` */
  function PlusFile(a: FileCounts, b: FileCounts): FileCounts { FileCounts(PlusCounts(a.c, b.c), a.never + b.never) }

  const NoFileCounts := FileCounts(NoCounts, 0)

  function CountsOf(traffic: seq<FileTraffic>, cls: nat): FileCounts {
    if traffic == [] then NoFileCounts
    else if traffic[|traffic| - 1].key.cls == cls then
      PlusFile(CountsOf(traffic[..|traffic| - 1], cls), traffic[|traffic| - 1].m.counts)
    else CountsOf(traffic[..|traffic| - 1], cls)
  }

  ghost predicate ClassConsistent(m: FileClass, traffic: seq<FileTraffic>, cls: nat) {
    && m.counts == CountsOf(traffic, cls)
    && IsSum(m.sched, PartsOf(traffic, cls, Sched))
    && IsSum(m.send, PartsOf(traffic, cls, Send))
    && IsSum(m.gap, PartsOf(traffic, cls, Gap))
  }

  predicate ViolationsAccepted(raw: Metrics.Raw, delivered: nat) {
    raw.violations <= raw.recvMeasured && raw.violations <= delivered
  }

  ghost predicate Consistent(f: File) {
    && |f.classes| == N_CLASSES
    && ClassConsistent(f.classes[LOSS_TOLERANT], f.traffic, LOSS_TOLERANT)
    && ClassConsistent(f.classes[MUST_DELIVER], f.traffic, MUST_DELIVER)
    && IsSum(f.staleness, PartsOf(f.traffic, LOSS_TOLERANT, Stale))
    && ViolationsAccepted(f.raw,
         CountsOf(f.traffic, LOSS_TOLERANT).c.delivered + CountsOf(f.traffic, MUST_DELIVER).c.delivered)
  }

  /** What the first loop of the check collects of one class. */
  datatype Collected = Collected(counts: FileCounts, sched: seq<FileHist>, send: seq<FileHist>, gap: seq<FileHist>,
                                 stale: seq<FileHist>)

  function CollectedOf(traffic: seq<FileTraffic>, cls: nat): Collected {
    Collected(CountsOf(traffic, cls),
              PartsOf(traffic, cls, Sched), PartsOf(traffic, cls, Send), PartsOf(traffic, cls, Gap),
              PartsOf(traffic, cls, Stale))
  }

  method Collect(traffic: seq<FileTraffic>) returns (loss: Collected, must: Collected)
    ensures loss == CollectedOf(traffic, LOSS_TOLERANT) && must == CollectedOf(traffic, MUST_DELIVER)
  {
    loss := Collected(NoFileCounts, [], [], [], []);
    must := loss;
    for i := 0 to |traffic|
      invariant loss == CollectedOf(traffic[..i], LOSS_TOLERANT) && must == CollectedOf(traffic[..i], MUST_DELIVER)
    {
      assert traffic[..i + 1][..i] == traffic[..i];
      var t := traffic[i];
      if t.key.cls == LOSS_TOLERANT {
        loss := With(loss, t);
      } else if t.key.cls == MUST_DELIVER {
        must := With(must, t);
      }
    }
    assert traffic[..|traffic|] == traffic;
  }

  function With(c: Collected, t: FileTraffic): Collected {
    Collected(PlusFile(c.counts, t.m.counts), c.sched + [t.m.sched], c.send + [t.m.send], c.gap + [t.m.gap],
              c.stale + [t.staleness])
  }

  /** The checks of one class. */
  method ValidateClass(m: FileClass, c: Collected) returns (ok: bool)
    ensures ok == (m.counts == c.counts && IsSum(m.sched, c.sched) && IsSum(m.send, c.send) && IsSum(m.gap, c.gap))
  {
    if m.counts != c.counts { return false; }
    ok := ValidateHistogramSum(m.sched, c.sched);
    if !ok { return; }
    ok := ValidateHistogramSum(m.send, c.send);
    if !ok { return; }
    ok := ValidateHistogramSum(m.gap, c.gap);
  }

  /** `validateV2AggregateConsistency` */
  method ValidateConsistency(f: File) returns (ok: bool)
    requires |f.classes| == N_CLASSES
    ensures ok == Consistent(f)
  {
    var loss, must := Collect(f.traffic);
    ok := ValidateClass(f.classes[LOSS_TOLERANT], loss);
    if !ok { return; }
    ok := ValidateClass(f.classes[MUST_DELIVER], must);
    if !ok { return; }
    ok := ValidateHistogramSum(f.staleness, loss.stale);
    if !ok { return; }
    var violations := f.raw.violations;
    if violations > f.raw.recvMeasured { return false; }
    var l, m := loss.counts.c.delivered, must.counts.c.delivered;
    return !(violations > l && violations - l > m);
  }

  // ----- the whole check -------------------------------------------------------------------------

  predicate ClassAccepted(m: FileClass) {
    CountsAccepted(m.counts) && HistAccepted(m.sched, V2) && HistAccepted(m.send, V2) && HistAccepted(m.gap, V2)
  }

  predicate TrafficAccepted(t: FileTraffic) {
    t.key.direction < N_DIRECTIONS && t.key.cls < N_CLASSES && ClassAccepted(t.m) && HistAccepted(t.staleness, V2)
  }

  predicate UniqueKeys(traffic: seq<FileTraffic>) {
    forall i, j :: 0 <= i < j < |traffic| ==> traffic[i].key != traffic[j].key
  }

  /** A file of version 2 passes every check. */
  ghost predicate Accepted(f: File, allowEmpty: bool) {
    && f.layout == V2 && |f.classes| == N_CLASSES && ClassAccepted(f.classes[0]) && ClassAccepted(f.classes[1])
    && (f.traffic == [] ==> allowEmpty) && HistAccepted(f.staleness, V2)
    && (forall t :: t in f.traffic ==> TrafficAccepted(t)) && UniqueKeys(f.traffic)
    && Consistent(f)
  }

  method ValidateClassMetric(m: FileClass) returns (ok: bool)
    ensures ok == ClassAccepted(m)
  {
    if !CountsAccepted(m.counts) { return false; }
    ok := ValidateV2Histogram(m.sched, V2);
    if !ok { return; }
    ok := ValidateV2Histogram(m.send, V2);
    if !ok { return; }
    ok := ValidateV2Histogram(m.gap, V2);
  }

  /** The loop over the series, with the set of the keys seen so far. */
  method ValidateTraffic(traffic: seq<FileTraffic>) returns (ok: bool)
    ensures ok <==> (forall t :: t in traffic ==> TrafficAccepted(t)) && UniqueKeys(traffic)
  {
    var seenKeys: set<SeriesKey> := {};
    for i := 0 to |traffic|
      invariant forall k :: 0 <= k < i ==> TrafficAccepted(traffic[k])
      invariant forall key :: key in seenKeys <==> exists k :: 0 <= k < i && traffic[k].key == key
      invariant UniqueKeys(traffic[..i])
    {
      var t := traffic[i];
      assert t in traffic;
      if t.key.direction >= N_DIRECTIONS || t.key.cls >= N_CLASSES || t.key in seenKeys { return false; }
      seenKeys := seenKeys + {t.key};
      ok := ValidateClassMetric(t.m);
      if !ok { return; }
      ok := ValidateV2Histogram(t.staleness, V2);
      if !ok { return; }
    }
    assert traffic[..|traffic|] == traffic;
    return true;
  }

  /** `validateMetricsFile` for version 2. */
  method ValidateMetricsFile(f: File, allowEmpty: bool) returns (ok: bool)
    ensures ok == Accepted(f, allowEmpty)
  {
    if |f.classes| != N_CLASSES || f.layout != V2 || (f.traffic == [] && !allowEmpty) { return false; }
    ok := ValidateClassMetric(f.classes[0]);
    if !ok { return; }
    ok := ValidateClassMetric(f.classes[1]);
    if !ok { return; }
    ok := ValidateV2Histogram(f.staleness, V2);
    if !ok { return; }
    ok := ValidateTraffic(f.traffic);
    if !ok { return; }
    ok := ValidateConsistency(f);
  }

  // ----- a written file is accepted exactly if its sums agree ------------------------------------

  function HistOfClass(m: ClassM, which: Which): HistV
    requires which != Stale
  {
    if which == Sched then m.sched else if which == Send then m.send else m.gap
  }

  /** The parts add up to the histogram. */
  ghost predicate AddUp(parts: seq<FileHist>, sum: HistV) {
    && Binned(parts) && PartsCount(parts) == sum.count
    && forall k :: 0 <= k < BINS ==> PartsBin(parts, k) == sum.bins[k]
  }

  /** The parts of a class add up to its sum. */
  lemma {:induction false} PartsAreSum(traffic: seq<Series>, cls: nat, which: Which)
    requires which != Stale
    ensures AddUp(PartsOf(WriteTraffic(traffic), cls, which), HistOfClass(ClassSum(traffic, cls), which))
  {
    if traffic != [] {
      var n: nat := |traffic| - 1;
      PartsAreSum(traffic[..n], cls, which);
      assert WriteTraffic(traffic)[..n] == WriteTraffic(traffic[..n]);
      NextPart(PartsOf(WriteTraffic(traffic[..n]), cls, which), ClassSum(traffic[..n], cls), traffic[n], which);
    }
  }

  lemma NextPart(parts: seq<FileHist>, sum: ClassM, s: Series, which: Which)
    requires which != Stale && AddUp(parts, HistOfClass(sum, which))
    ensures AddUp(parts + [HistIn(WriteSeries(s), which)], HistOfClass(Plus(sum, s.m), which))
    ensures parts + [] == parts
  {
    LastPart(parts, HistIn(WriteSeries(s), which));
  }

  lemma {:induction false} LastPart(parts: seq<FileHist>, h: FileHist)
    requires Binned(parts) && |h.bins| == BINS
    ensures Binned(parts + [h]) && PartsCount(parts + [h]) == PartsCount(parts) + h.count
    ensures forall k :: 0 <= k < BINS ==> PartsBin(parts + [h], k) == PartsBin(parts, k) + h.bins[k]
    ensures parts + [] == parts
  {
    assert (parts + [h])[..|parts|] == parts;
  }

  lemma {:induction false} StalePartsAreSum(traffic: seq<Series>)
    ensures AddUp(PartsOf(WriteTraffic(traffic), LOSS_TOLERANT, Stale), StalenessSum(traffic))
  {
    if traffic != [] {
      var n: nat := |traffic| - 1;
      StalePartsAreSum(traffic[..n]);
      assert WriteTraffic(traffic)[..n] == WriteTraffic(traffic[..n]);
      LastPart(PartsOf(WriteTraffic(traffic[..n]), LOSS_TOLERANT, Stale), WriteHist(traffic[n].staleness));
    }
  }

  ghost predicate SeriesSane(traffic: seq<Series>) {
    forall i :: 0 <= i < |traffic| ==> CountsSane(traffic[i].m.counts)
  }

  /** The counts of the series add up, the flows nothing came from included. */
  lemma {:induction false} CountsAreSum(traffic: seq<Series>, cls: nat)
    requires SeriesSane(traffic)
    ensures CountsSane(ClassSum(traffic, cls).counts)
    ensures CountsOf(WriteTraffic(traffic), cls) == Finalized(ClassSum(traffic, cls).counts)
  {
    if traffic != [] {
      var n: nat := |traffic| - 1;
      CountsAreSum(traffic[..n], cls);
      assert WriteTraffic(traffic)[..n] == WriteTraffic(traffic[..n]);
    }
  }

  /** A written histogram is a sum of parts exactly if it is the histogram they add up to. */
  lemma WrittenSum(h: HistV, parts: seq<FileHist>, sum: HistV)
    requires AddUp(parts, sum)
    ensures IsSum(WriteHist(h), parts) <==> h == sum
  {
  }

  lemma {:induction false} ClassWritten(m: ClassM, traffic: seq<Series>, cls: nat)
    requires SeriesSane(traffic)
    ensures ClassConsistent(WriteClass(m), WriteTraffic(traffic), cls) <==> m == ClassSum(traffic, cls)
  {
    var sum := ClassSum(traffic, cls);
    CountsAreSum(traffic, cls);
    PartsAreSum(traffic, cls, Sched);
    PartsAreSum(traffic, cls, Send);
    PartsAreSum(traffic, cls, Gap);
    WrittenSum(m.sched, PartsOf(WriteTraffic(traffic), cls, Sched), sum.sched);
    WrittenSum(m.send, PartsOf(WriteTraffic(traffic), cls, Send), sum.send);
    WrittenSum(m.gap, PartsOf(WriteTraffic(traffic), cls, Gap), sum.gap);
  }

  lemma {:induction false} StaleWritten(h: HistV, traffic: seq<Series>)
    ensures IsSum(WriteHist(h), PartsOf(WriteTraffic(traffic), LOSS_TOLERANT, Stale)) <==> h == StalenessSum(traffic)
  {
    StalePartsAreSum(traffic);
    WrittenSum(h, PartsOf(WriteTraffic(traffic), LOSS_TOLERANT, Stale), StalenessSum(traffic));
  }

  /** The checks of single entries hold for what is written of series that are in order. */
  lemma SeriesWritten(s: Series)
    requires SeriesOk(s)
    ensures TrafficAccepted(WriteSeries(s)) <==> CountsSane(s.m.counts)
  {
  }

  lemma {:induction false} ClassSumOk(traffic: seq<Series>, cls: nat)
    requires forall i :: 0 <= i < |traffic| ==> SeriesOk(traffic[i])
    ensures AmountOk(ClassSum(traffic, cls)) && HistOk(StalenessSum(traffic))
  {
    NoHistOk();
    if traffic != [] {
      var n: nat := |traffic| - 1;
      ClassSumOk(traffic[..n], cls);
      PlusOk(ClassSum(traffic[..n], cls), traffic[n].m);
      PlusHistOk(StalenessSum(traffic[..n]), traffic[n].staleness);
    }
  }

  /** What the metrics object writes is accepted exactly if every class is the sum of its series. */
  lemma WrittenAccepted(a: Accounts, raw: Metrics.Raw, allowEmpty: bool)
    requires |a.classes| == N_CLASSES && KeysOk(a.traffic) && SeriesSane(a.traffic)
    requires ViolationsAccepted(raw, DeliveredInAll(a)) && (a.traffic == [] ==> allowEmpty)
    ensures Accepted(Write(a, raw), allowEmpty) <==> SumsOk(a)
  {
    SumsWritten(a, raw);
    if SumsOk(a) {
      ClassSumOk(a.traffic, LOSS_TOLERANT);
      ClassSumOk(a.traffic, MUST_DELIVER);
      CountsAreSum(a.traffic, LOSS_TOLERANT);
      CountsAreSum(a.traffic, MUST_DELIVER);
      EntriesWritten(a);
    }
  }

  lemma SumsWritten(a: Accounts, raw: Metrics.Raw)
    requires |a.classes| == N_CLASSES && KeysOk(a.traffic) && SeriesSane(a.traffic)
    requires ViolationsAccepted(raw, DeliveredInAll(a))
    ensures Consistent(Write(a, raw)) <==> SumsOk(a)
  {
    ClassWritten(a.classes[0], a.traffic, LOSS_TOLERANT);
    ClassWritten(a.classes[1], a.traffic, MUST_DELIVER);
    StaleWritten(a.staleness, a.traffic);
    CountsAreSum(a.traffic, LOSS_TOLERANT);
    CountsAreSum(a.traffic, MUST_DELIVER);
  }

  lemma EntriesWritten(a: Accounts)
    requires KeysOk(a.traffic) && SeriesSane(a.traffic)
    ensures forall t :: t in WriteTraffic(a.traffic) ==> TrafficAccepted(t)
    ensures UniqueKeys(WriteTraffic(a.traffic))
  {
    forall i | 0 <= i < |a.traffic|
      ensures TrafficAccepted(WriteTraffic(a.traffic)[i])
    {
      SeriesWritten(a.traffic[i]);
    }
  }

  lemma TiedSeriesSane(a: Accounts, seen: set<SeenKey>, latest: map<FlowKey, Latest>)
    requires KeysOk(a.traffic) && Tied(a, seen, latest)
    ensures SeriesSane(a.traffic)
  {
    forall i | 0 <= i < |a.traffic|
      ensures CountsSane(a.traffic[i].m.counts)
    {
      TiedSane(a, seen, latest, a.traffic[i].key);
      Absent(a.traffic, a.traffic[i].key);
      var j := Find(a.traffic, a.traffic[i].key);
      assert a.traffic[j].key == a.traffic[i].key;
    }
  }

  /** In every state of the metrics object whose sums agree, the file it would write is accepted. With the
      contract of `OnSlot`, the only operation after which they need not agree is a slot of direction 3. */
  lemma {:induction false} ObjectAccepted(m: Metrics.Metrics, allowEmpty: bool)
    requires m.Valid() && (m.accounts.traffic == [] ==> allowEmpty)
    ensures Accepted(Write(m.accounts, m.raw), allowEmpty) <==> SumsOk(m.accounts)
  {
    TiedSeriesSane(m.accounts, m.seen, m.latest);
    WrittenAccepted(m.accounts, m.raw, allowEmpty);
  }
}
