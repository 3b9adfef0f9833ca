/** What the metrics gain by an event, told in the fields of the class, of the series and of the flow's record,
    and that crediting the amounts of module MetricsAmounts gains just that. */
module MetricsOutcomes {
  import opened MachineWords
  import opened Histogram
  import opened MetricsSeries
  import opened MetricsFlows
  import opened MetricsAmounts

  // ----- gains of one class or series --------------------------------------------------------------

  function Elapsed(start: nat, end: nat): nat { if start <= end then end - start else 0 }

  /** One more sample, in the bin of its value. */
  ghost predicate OneMore(x: HistV, y: HistV, v: nat) {
    && y.count == x.count + 1
    && forall k :: 0 <= k < BINS ==> y.bins[k] == x.bins[k] + (if k == IndexOf(v) then 1 else 0)
  }

  datatype Event =
    | Slot(broadcast: bool, submitted: bool)
    | Duplicate
    | Delivery(h: Header, recv: nat, deadline: nat, record: Option<Latest>)
    | Expectation(flow: Latest)

  predicate SameSamples(x: ClassM, y: ClassM) { y.sched == x.sched && y.send == x.send && y.gap == x.gap }

  ghost predicate GainsSlot(x: ClassM, y: ClassM, broadcast: bool, submitted: bool) {
    && SameSamples(x, y)
    && y.counts == x.counts.(slots := x.counts.slots + 1,
                             slotsBroadcast := x.counts.slotsBroadcast + (if broadcast then 1 else 0),
                             submitted := x.counts.submitted + (if submitted then 1 else 0))
  }

  ghost predicate GainsDuplicate(x: ClassM, y: ClassM) {
    SameSamples(x, y) && y.counts == x.counts.(duplicates := x.counts.duplicates + 1)
  }

  ghost predicate GainsExpectation(x: ClassM, y: ClassM, record: Latest) {
    && SameSamples(x, y)
    && y.counts == x.counts.(expected := if record.expected then x.counts.expected else x.counts.expected + 1)
  }

  /** A delivery advances its flow if nothing was observed yet or it was scheduled later than the last one. */
  predicate Advances(record: Latest, h: Header) { !record.has || record.sched < h.sched }

  /** The counts of a first delivery; a must-deliver one makes its deadline if it is received by then. */
  ghost predicate DeliveryCounts(x: Counts, y: Counts, h: Header, recv: nat, deadline: nat, record: Option<Latest>) {
    y == x.(delivered := x.delivered + 1,
            deadlineHit := if h.mustDeliver && recv <= h.sched + deadline then x.deadlineHit + 1 else x.deadlineHit,
            expected := if record.Some? && !record.value.expected then x.expected + 1 else x.expected,
            observed := if record.Some? && !record.value.has then x.observed + 1 else x.observed)
  }

  /** A first delivery: its latencies from the schedule and from the sending, and the time since the flow was last
      advanced if it had been observed and is advanced again. */
  ghost predicate GainsDelivery(x: ClassM, y: ClassM, h: Header, recv: nat, deadline: nat, record: Option<Latest>) {
    && DeliveryCounts(x.counts, y.counts, h, recv, deadline, record)
    && OneMore(x.sched, y.sched, Elapsed(h.sched, recv))
    && OneMore(x.send, y.send, Elapsed(h.send, recv))
    && if record.Some? && record.value.has && record.value.sched < h.sched
       then OneMore(x.gap, y.gap, Elapsed(record.value.recv, recv)) else y.gap == x.gap
  }

  ghost predicate Gains(x: ClassM, y: ClassM, e: Event) {
    match e
    case Slot(broadcast, submitted) => GainsSlot(x, y, broadcast, submitted)
    case Duplicate => GainsDuplicate(x, y)
    case Delivery(h, recv, deadline, record) => GainsDelivery(x, y, h, recv, deadline, record)
    case Expectation(flow) => GainsExpectation(x, y, flow)
  }

  // ----- gains of the accounts ---------------------------------------------------------------------

  function SeriesOf(a: Accounts, key: SeriesKey): Option<Series> {
    if Find(a.traffic, key) < |a.traffic| then Some(a.traffic[Find(a.traffic, key)]) else None
  }

  /** What was measured for a series; nothing for one that does not exist yet. */
  function MeasuredOf(a: Accounts, key: SeriesKey): ClassM {
    match SeriesOf(a, key)
    case Some(s) => s.m
    case None => NoClass()
  }

  ghost predicate OthersKept(a: Accounts, b: Accounts, key: SeriesKey) {
    && b.staleness == a.staleness
    && |a.classes| == |b.classes| == N_CLASSES
    && (forall c :: 0 <= c < N_CLASSES && c != key.cls ==> b.classes[c] == a.classes[c])
    && (forall other :: other != key ==> SeriesOf(b, other) == SeriesOf(a, other))
  }

  /** The class and the series of the key both gained the event; nothing else changed. */
  ghost predicate Happened(a: Accounts, b: Accounts, key: SeriesKey, e: Event) {
    && OthersKept(a, b, key) && key.cls < N_CLASSES
    && Gains(a.classes[key.cls], b.classes[key.cls], e)
    && SeriesOf(b, key).Some? && Gains(MeasuredOf(a, key), MeasuredOf(b, key), e)
  }

  /** The class alone gained the event; the series are as they were. */
  ghost predicate ClassHappened(a: Accounts, b: Accounts, cls: nat, e: Event) {
    && b.staleness == a.staleness && b.traffic == a.traffic
    && |a.classes| == |b.classes| == N_CLASSES && cls < N_CLASSES
    && (forall c :: 0 <= c < N_CLASSES && c != cls ==> b.classes[c] == a.classes[c])
    && Gains(a.classes[cls], b.classes[cls], e)
  }

  // ----- the record of a flow ----------------------------------------------------------------------

  ghost predicate OtherFlowsKept(latest: map<FlowKey, Latest>, latest': map<FlowKey, Latest>, f: FlowKey) {
    forall g :: g != f ==> (g in latest' <==> g in latest) && (g in latest ==> latest'[g] == latest[g])
  }

  /** The record of a delivery's flow: the delivery if that advances the flow, else what it was. */
  ghost predicate RecordDelivered(latest: map<FlowKey, Latest>, latest': map<FlowKey, Latest>, flow: Option<FlowKey>,
                                  h: Header, recv: uint64) {
    match flow
    case None => latest' == latest
    case Some(f) =>
      && OtherFlowsKept(latest, latest', f) && f in latest'
      && if Advances(RecordOf(latest, f), h) then latest'[f] == Latest(true, true, h.sched, recv)
         else f in latest && latest'[f] == latest[f]
  }

  /** A measured reception: a first one is a delivery of its series and of its flow, any other adds to the duplicates
      and to nothing else. */
  ghost predicate Received(a: Accounts, b: Accounts, latest: map<FlowKey, Latest>, latest': map<FlowKey, Latest>,
                           flow: Option<FlowKey>, h: Header, recv: uint64, deadline: nat, isNew: bool) {
    if isNew then
      && Happened(a, b, KeyOf(h), Delivery(h, recv, deadline, RecordAt(latest, flow)))
      && RecordDelivered(latest, latest', flow, h, recv)
    else
      Happened(a, b, KeyOf(h), Duplicate) && latest' == latest
  }

  function RecordAt(latest: map<FlowKey, Latest>, flow: Option<FlowKey>): Option<Latest> {
    match flow
    case None => None
    case Some(f) => Some(RecordOf(latest, f))
  }

  /** The record of an expected flow: until something is observed it holds the earliest first schedule given. */
  ghost predicate RecordExpected(latest: map<FlowKey, Latest>, latest': map<FlowKey, Latest>, f: FlowKey,
                                 first: uint64) {
    && OtherFlowsKept(latest, latest', f) && f in latest' && latest'[f].expected
    && latest'[f].has == RecordOf(latest, f).has && latest'[f].recv == RecordOf(latest, f).recv
    && (f in latest && latest[f].has ==> latest'[f].sched == latest[f].sched)
    && (f in latest && !latest[f].has && latest[f].expected ==>
          latest'[f].sched == if first < latest[f].sched then first else latest[f].sched)
    && (f in latest && !latest[f].has && !latest[f].expected ==> latest'[f].sched == first)
    && (f !in latest ==> latest'[f].sched == first)
  }

  // ----- the amounts are those gains ---------------------------------------------------------------

  lemma SampleIsOneMore(x: HistV, v: nat)
    ensures OneMore(x, PlusHist(x, Sample(v)), v)
  {
    forall k | 0 <= k < BINS
      ensures PlusHist(x, Sample(v)).bins[k] == x.bins[k] + (if k == IndexOf(v) then 1 else 0)
    {
    }
  }

  lemma SlotGains(x: ClassM, h: Header, submitted: bool)
    ensures Gains(x, Plus(x, SlotAmount(h, submitted)), Slot(h.broadcast, submitted))
  {
    PlusHistLaws(x.sched, x.sched, x.sched);
    PlusHistLaws(x.send, x.send, x.send);
    PlusHistLaws(x.gap, x.gap, x.gap);
  }

  lemma DuplicateGains(x: ClassM)
    ensures Gains(x, Plus(x, OfCounts(DuplicateCounts)), Duplicate)
  {
    PlusHistLaws(x.sched, x.sched, x.sched);
    PlusHistLaws(x.send, x.send, x.send);
    PlusHistLaws(x.gap, x.gap, x.gap);
  }

  lemma ExpectationGains(x: ClassM, l: Latest)
    ensures Gains(x, Plus(x, ExpectationAmount(l)), Expectation(l))
  {
    PlusHistLaws(x.sched, x.sched, x.sched);
    PlusHistLaws(x.send, x.send, x.send);
    PlusHistLaws(x.gap, x.gap, x.gap);
  }

  /** A delivery whose flow has no record. */
  lemma DeliveryGains(x: ClassM, h: Header, recv: uint64, deadline: nat)
    ensures Gains(x, Plus(x, DeliveryAmount(h, recv, deadline)), Delivery(h, recv, deadline, None))
  {
    SampleIsOneMore(x.sched, Elapsed(h.sched, recv));
    SampleIsOneMore(x.send, Elapsed(h.send, recv));
    PlusHistLaws(x.gap, x.gap, x.gap);
  }

  /** What it adds when its flow has one. */
  lemma FlowGains(x: ClassM, y: ClassM, h: Header, recv: uint64, deadline: nat, l: Latest)
    requires Gains(x, y, Delivery(h, recv, deadline, None))
    ensures Gains(x, Plus(y, FlowAmount(l, h, recv)), Delivery(h, recv, deadline, Some(l)))
  {
    PlusHistLaws(y.sched, y.sched, y.sched);
    PlusHistLaws(y.send, y.send, y.send);
    PlusHistLaws(y.gap, y.gap, y.gap);
    SampleIsOneMore(y.gap, Elapsed(l.recv, recv));
  }

  lemma ExpectedRecord(latest: map<FlowKey, Latest>, latest': map<FlowKey, Latest>, f: FlowKey, first: uint64)
    requires latest' == latest[f := FlowExpected(RecordOf(latest, f), first)]
    ensures RecordExpected(latest, latest', f, first)
  {
  }

  // ----- crediting ---------------------------------------------------------------------------------

  lemma {:induction false} SeriesAdded(a: Accounts, key: SeriesKey, deadline: nat)
    requires |a.classes| == N_CLASSES
    ensures var b := WithSeries(a, key, deadline);
      && OthersKept(a, b, key) && b.classes == a.classes && MeasuredOf(b, key) == MeasuredOf(a, key)
      && SeriesOf(b, key) == (if SeriesOf(a, key).Some? then SeriesOf(a, key)
                              else Some(Series(key, deadline, NoClass(), NoHist())))
  {
    if Find(a.traffic, key) == |a.traffic| {
      var s := Series(key, deadline, NoClass(), NoHist());
      forall other: SeriesKey
        ensures Find(a.traffic + [s], other) == (if Find(a.traffic, other) < |a.traffic| then Find(a.traffic, other)
                else if other == key then |a.traffic| else |a.traffic| + 1)
      {
        FindAppended(a.traffic, s, other);
      }
    }
  }

  lemma {:induction false} SeriesIncreased(a: Accounts, key: SeriesKey, delta: ClassM)
    requires |a.classes| == N_CLASSES && key.cls < N_CLASSES && Find(a.traffic, key) < |a.traffic|
    ensures var b := Credited(a, key, delta);
      && OthersKept(a, b, key) && b.classes[key.cls] == Plus(a.classes[key.cls], delta)
      && SeriesOf(b, key).Some? && MeasuredOf(b, key) == Plus(MeasuredOf(a, key), delta)
  {
    var traffic := SeriesCredited(a.traffic, Find(a.traffic, key), delta);
    forall other: SeriesKey
      ensures Find(traffic, other) == Find(a.traffic, other)
    {
      SameFind(a.traffic, traffic, other);
    }
  }

  /** Crediting both with an amount that gains an event makes the event happen. */
  lemma {:induction false} CreditHappens(a: Accounts, key: SeriesKey, deadline: nat, delta: ClassM, e: Event)
    requires |a.classes| == N_CLASSES && key.cls < N_CLASSES
    requires Gains(a.classes[key.cls], Plus(a.classes[key.cls], delta), e)
    requires Gains(MeasuredOf(a, key), Plus(MeasuredOf(a, key), delta), e)
    ensures Happened(a, Credited(WithSeries(a, key, deadline), key, delta), key, e)
  {
    SeriesAdded(a, key, deadline);
    SeriesIncreased(WithSeries(a, key, deadline), key, delta);
  }

  /** A delivery that happened without its flow, and then the flow. */
  lemma {:induction false} FlowHappens(a: Accounts, b: Accounts, key: SeriesKey, h: Header, recv: uint64, deadline: nat,
                                       l: Latest)
    requires Happened(a, b, key, Delivery(h, recv, deadline, None))
    ensures Happened(a, Credited(b, key, FlowAmount(l, h, recv)), key, Delivery(h, recv, deadline, Some(l)))
  {
    FlowGains(a.classes[key.cls], b.classes[key.cls], h, recv, deadline, l);
    FlowGains(MeasuredOf(a, key), MeasuredOf(b, key), h, recv, deadline, l);
    SeriesIncreased(b, key, FlowAmount(l, h, recv));
  }

  lemma {:induction false} SlotHappens(a: Accounts, h: Header, submitted: bool, deadline: nat)
    requires |a.classes| == N_CLASSES
    ensures Happened(a, Credited(WithSeries(a, KeyOf(h), deadline), KeyOf(h), SlotAmount(h, submitted)), KeyOf(h),
                     Slot(h.broadcast, submitted))
  {
    SlotGains(a.classes[ClassOf(h)], h, submitted);
    SlotGains(MeasuredOf(a, KeyOf(h)), h, submitted);
    CreditHappens(a, KeyOf(h), deadline, SlotAmount(h, submitted), Slot(h.broadcast, submitted));
  }

  lemma {:induction false} ExpectationHappens(a: Accounts, key: SeriesKey, deadline: nat, l: Latest)
    requires |a.classes| == N_CLASSES && key.cls < N_CLASSES
    ensures Happened(a, Credited(WithSeries(a, key, deadline), key, ExpectationAmount(l)), key, Expectation(l))
  {
    ExpectationGains(a.classes[key.cls], l);
    ExpectationGains(MeasuredOf(a, key), l);
    CreditHappens(a, key, deadline, ExpectationAmount(l), Expectation(l));
  }

  lemma {:induction false} DuplicateHappens(a: Accounts, key: SeriesKey, deadline: nat)
    requires |a.classes| == N_CLASSES && key.cls < N_CLASSES
    ensures Happened(a, Credited(WithSeries(a, key, deadline), key, OfCounts(DuplicateCounts)), key, Duplicate)
  {
    DuplicateGains(a.classes[key.cls]);
    DuplicateGains(MeasuredOf(a, key));
    CreditHappens(a, key, deadline, OfCounts(DuplicateCounts), Duplicate);
  }

  lemma {:induction false} DeliveryHappens(a: Accounts, h: Header, recv: uint64, deadline: nat)
    requires |a.classes| == N_CLASSES
    ensures Happened(a, Credited(WithSeries(a, KeyOf(h), deadline), KeyOf(h), DeliveryAmount(h, recv, deadline)),
                     KeyOf(h), Delivery(h, recv, deadline, None))
  {
    DeliveryGains(a.classes[ClassOf(h)], h, recv, deadline);
    DeliveryGains(MeasuredOf(a, KeyOf(h)), h, recv, deadline);
    CreditHappens(a, KeyOf(h), deadline, DeliveryAmount(h, recv, deadline), Delivery(h, recv, deadline, None));
  }

  // ----- deadlines ---------------------------------------------------------------------------------

  /** Every series has the deadline that is configured for it now. */
  ghost predicate DeadlinesOk(traffic: seq<Series>, deadlines: seq<Deadline>, other: nat) {
    forall i :: 0 <= i < |traffic| ==>
      traffic[i].deadline == DeadlineOf(deadlines, traffic[i].key.traffic, traffic[i].key.direction, other)
  }

  /** A series is created with the configured deadline, and no amount changes it. */
  lemma {:induction false} DeadlineKept(a: Accounts, key: SeriesKey, delta: ClassM, deadlines: seq<Deadline>,
                                        other: nat)
    requires DeadlinesOk(a.traffic, deadlines, other) && |a.classes| == N_CLASSES && key.cls < N_CLASSES
    ensures var b := WithSeries(a, key, DeadlineOf(deadlines, key.traffic, key.direction, other));
      && DeadlinesOk(b.traffic, deadlines, other)
      && (Find(b.traffic, key) < |b.traffic| ==> DeadlinesOk(Credited(b, key, delta).traffic, deadlines, other))
  {
  }

  lemma {:induction false} ReplacedDeadline(deadlines: seq<Deadline>, i: nat, ns: nat, traffic: nat, direction: nat,
                                            other: nat)
    requires i < |deadlines|
    requires forall j :: 0 <= j < i ==>
      deadlines[j].traffic != deadlines[i].traffic || deadlines[j].direction != deadlines[i].direction
    ensures DeadlineOf(deadlines[i := deadlines[i].(ns := ns)], traffic, direction, other) ==
      if deadlines[i].traffic == traffic && deadlines[i].direction == direction then ns
      else DeadlineOf(deadlines, traffic, direction, other)
  {
    var deadlines' := deadlines[i := deadlines[i].(ns := ns)];
    if i == 0 {
      assert deadlines'[1..] == deadlines[1..];
    } else {
      assert deadlines'[1..] == deadlines[1..][i - 1 := deadlines[1..][i - 1].(ns := ns)];
      ReplacedDeadline(deadlines[1..], i - 1, ns, traffic, direction, other);
    }
  }

  lemma {:induction false} AddedDeadline(deadlines: seq<Deadline>, d: Deadline, traffic: nat, direction: nat,
                                         other: nat)
    requires forall j :: 0 <= j < |deadlines| ==>
      deadlines[j].traffic != d.traffic || deadlines[j].direction != d.direction
    ensures DeadlineOf(deadlines + [d], traffic, direction, other) ==
      if d.traffic == traffic && d.direction == direction then d.ns
      else DeadlineOf(deadlines, traffic, direction, other)
  {
    if deadlines == [] {
      assert (deadlines + [d])[1..] == [];
    } else {
      assert (deadlines + [d])[1..] == deadlines[1..] + [d];
      AddedDeadline(deadlines[1..], d, traffic, direction, other);
    }
  }

  // ----- a reception -------------------------------------------------------------------------------

  /** The series of a measured reception is made and the reception is credited. */
  function Counted(a: Accounts, h: Header, recv: uint64, deadline: nat, isNew: bool): (b: Accounts)
    requires |a.classes| == N_CLASSES
    ensures |b.classes| == N_CLASSES && Find(b.traffic, KeyOf(h)) < |b.traffic|
  {
    var made := WithSeries(a, KeyOf(h), deadline);
    Credited(made, KeyOf(h), ReceptionAmount(h, recv, made.traffic[Find(made.traffic, KeyOf(h))].deadline, isNew))
  }

  /** Then the flow is credited if the reception is a delivery and has one. */
  function Booked(a: Accounts, h: Header, recv: uint64, deadline: nat, isNew: bool,
                  record: Option<Latest>): (b: Accounts)
    requires |a.classes| == N_CLASSES
    ensures |b.classes| == N_CLASSES
  {
    var counted := Counted(a, h, recv, deadline, isNew);
    if isNew && record.Some? then Credited(counted, KeyOf(h), FlowAmount(record.value, h, recv)) else counted
  }

  function FlowsAfter(latest: map<FlowKey, Latest>, flow: Option<FlowKey>, h: Header, recv: uint64, isNew: bool):
    map<FlowKey, Latest>
  {
    if isNew && flow.Some? then latest[flow.value := FlowAfter(RecordOf(latest, flow.value), h, recv)] else latest
  }

  lemma {:induction false} SeriesDeadline(a: Accounts, key: SeriesKey, deadlines: seq<Deadline>, other: nat)
    requires DeadlinesOk(a.traffic, deadlines, other)
    ensures var b := WithSeries(a, key, DeadlineOf(deadlines, key.traffic, key.direction, other));
      b.traffic[Find(b.traffic, key)].deadline == DeadlineOf(deadlines, key.traffic, key.direction, other)
  {
    var b := WithSeries(a, key, DeadlineOf(deadlines, key.traffic, key.direction, other));
    assert b.traffic[Find(b.traffic, key)].key == key;
    assert DeadlinesOk(b.traffic, deadlines, other);
  }

  lemma {:induction false} CountedHappens(a: Accounts, h: Header, recv: uint64, deadlines: seq<Deadline>, other: nat,
                                          isNew: bool)
    requires |a.classes| == N_CLASSES && DeadlinesOk(a.traffic, deadlines, other)
    ensures var ns := DeadlineOf(deadlines, h.traffic, h.direction, other);
      Happened(a, Counted(a, h, recv, ns, isNew), KeyOf(h), if isNew then Delivery(h, recv, ns, None) else Duplicate)
  {
    var ns := DeadlineOf(deadlines, h.traffic, h.direction, other);
    SeriesDeadline(a, KeyOf(h), deadlines, other);
    if isNew { DeliveryHappens(a, h, recv, ns); } else { DuplicateHappens(a, KeyOf(h), ns); }
  }

  /** Booked like that a reception has the effect it should have. */
  lemma {:induction false} BookedIsReceived(a: Accounts, latest: map<FlowKey, Latest>, flow: Option<FlowKey>, h: Header,
                                            recv: uint64, deadlines: seq<Deadline>, other: nat, isNew: bool)
    requires |a.classes| == N_CLASSES && DeadlinesOk(a.traffic, deadlines, other)
    ensures var ns := DeadlineOf(deadlines, h.traffic, h.direction, other);
      Received(a, Booked(a, h, recv, ns, isNew, RecordAt(latest, flow)), latest,
               FlowsAfter(latest, flow, h, recv, isNew), flow, h, recv, ns, isNew)
  {
    var ns := DeadlineOf(deadlines, h.traffic, h.direction, other);
    CountedHappens(a, h, recv, deadlines, other, isNew);
    if isNew && flow.Some? {
      FlowReceived(a, Counted(a, h, recv, ns, isNew), latest, flow.value, h, recv, ns);
    }
  }

  lemma {:induction false} FlowReceived(a: Accounts, b: Accounts, latest: map<FlowKey, Latest>, f: FlowKey, h: Header,
                                        recv: uint64, deadline: nat)
    requires Happened(a, b, KeyOf(h), Delivery(h, recv, deadline, None))
    ensures Received(a, Credited(b, KeyOf(h), FlowAmount(RecordOf(latest, f), h, recv)), latest,
                     latest[f := FlowAfter(RecordOf(latest, f), h, recv)], Some(f), h, recv, deadline, true)
  {
    FlowHappens(a, b, KeyOf(h), h, recv, deadline, RecordOf(latest, f));
  }

  // ----- setting a deadline ------------------------------------------------------------------------

  /** The series of one traffic and direction get a deadline; at most the first n of them have been looked at. */
  function Redated(traffic: seq<Series>, n: nat, id: nat, direction: nat, ns: nat): seq<Series> {
    seq(|traffic|, i requires 0 <= i < |traffic| =>
      if i < n && traffic[i].key.traffic == id && traffic[i].key.direction == direction
      then traffic[i].(deadline := ns) else traffic[i])
  }

  /** One deadline is configured anew and the others are as they were. */
  ghost predicate Reconfigured(deadlines: seq<Deadline>, deadlines': seq<Deadline>, other: nat, id: nat, direction: nat,
                               ns: nat) {
    forall key: SeriesKey {:trigger DeadlineOf(deadlines', key.traffic, key.direction, other)} ::
      DeadlineOf(deadlines', key.traffic, key.direction, other) ==
      (if key.traffic == id && key.direction == direction then ns
       else DeadlineOf(deadlines, key.traffic, key.direction, other))
  }

  lemma {:induction false} RedatedDeadlines(traffic: seq<Series>, deadlines: seq<Deadline>, deadlines': seq<Deadline>,
                                            other: nat, id: nat, direction: nat, ns: nat)
    requires DeadlinesOk(traffic, deadlines, other) && Reconfigured(deadlines, deadlines', other, id, direction, ns)
    ensures DeadlinesOk(Redated(traffic, |traffic|, id, direction, ns), deadlines', other)
  {
    var traffic' := Redated(traffic, |traffic|, id, direction, ns);
    forall i | 0 <= i < |traffic'|
      ensures traffic'[i].deadline == DeadlineOf(deadlines', traffic'[i].key.traffic, traffic'[i].key.direction, other)
    {
      assert traffic'[i].key == traffic[i].key;
    }
  }

  /** Deadlines matter to no sum and to no count. */
  lemma {:induction false} RedatedKeeps(a: Accounts, n: nat, id: nat, direction: nat, ns: nat, seen: set<SeenKey>,
                                        latest: map<FlowKey, Latest>)
    requires SumsOk(a) && Tied(a, seen, latest)
    ensures SumsOk(a.(traffic := Redated(a.traffic, n, id, direction, ns)))
    ensures Tied(a.(traffic := Redated(a.traffic, n, id, direction, ns)), seen, latest)
  {
    var b := a.(traffic := Redated(a.traffic, n, id, direction, ns));
    forall c | 0 <= c < N_CLASSES
      ensures ClassSum(b.traffic, c) == ClassSum(a.traffic, c)
    {
      SumsOfSame(a.traffic, b.traffic, c);
    }
    SumsOfSame(a.traffic, b.traffic, 0);
    forall key: SeriesKey
      ensures CountsFor(b, key) == CountsFor(a, key)
    {
      SameFind(a.traffic, b.traffic, key);
    }
  }

  /** Sums do not depend on deadlines. */
  lemma {:induction false} SumsOfSame(s: seq<Series>, t: seq<Series>, cls: nat)
    requires |s| == |t|
    requires forall i :: 0 <= i < |s| ==> t[i].key == s[i].key && t[i].m == s[i].m && t[i].staleness == s[i].staleness
    ensures ClassSum(t, cls) == ClassSum(s, cls) && StalenessSum(t) == StalenessSum(s)
  {
    if s != [] { SumsOfSame(s[..|s| - 1], t[..|t| - 1], cls); }
  }
}
