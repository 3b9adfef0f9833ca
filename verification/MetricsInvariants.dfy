/** What every operation of the metrics keeps: each class is the sum of its series, each series counts the deliveries
    seen and the flows of the table, and has the deadline that is configured for it. */
module MetricsInvariants {
  import opened MachineWords
  import opened MetricsSeries
  import opened MetricsFlows
  import opened MetricsAmounts
  import opened MetricsOutcomes
  import opened MetricsSampling

  /** The sums agree, every series is tied to the tables, and deadlines are those configured. */
  ghost predicate Sound(a: Accounts, seen: set<SeenKey>, latest: map<FlowKey, Latest>, deadlines: seq<Deadline>,
                        other: nat) {
    SumsOk(a) && Tied(a, seen, latest) && DeadlinesOk(a.traffic, deadlines, other)
  }

  function DeliveredInAll(a: Accounts): nat
    requires |a.classes| == N_CLASSES
  {
    a.classes[LOSS_TOLERANT].counts.delivered + a.classes[MUST_DELIVER].counts.delivered
  }

  lemma NothingTied(a: Accounts)
    requires a == Accounts([NoClass(), NoClass()], NoHist(), [])
    ensures SumsOk(a) && Tied(a, {}, map[])
  {
    forall key: SeriesKey
      ensures SeenOf({}, key) == {} && ExpectedOf(map[], key) == {} && ObservedOf(map[], key) == {}
    {
    }
  }

  lemma TiedClassOnly(a: Accounts, cls: nat, delta: ClassM, seen: set<SeenKey>, latest: map<FlowKey, Latest>)
    requires Tied(a, seen, latest) && |a.classes| == N_CLASSES && cls < N_CLASSES
    ensures Tied(CreditedClass(a, cls, delta), seen, latest)
  {
    forall key: SeriesKey
      ensures CountsFor(CreditedClass(a, cls, delta), key) == CountsFor(a, key)
    {
    }
  }

  /** Making a series. */
  lemma {:induction false} SeriesSound(a: Accounts, key: SeriesKey, seen: set<SeenKey>, latest: map<FlowKey, Latest>,
                                       deadlines: seq<Deadline>, other: nat)
    requires Sound(a, seen, latest, deadlines, other) && key.cls < N_CLASSES && key.direction < N_DIRECTIONS
    ensures Sound(WithSeries(a, key, DeadlineOf(deadlines, key.traffic, key.direction, other)), seen, latest, deadlines,
                  other)
  {
    var ns := DeadlineOf(deadlines, key.traffic, key.direction, other);
    WithSeriesOk(a, key, ns);
    TiedNewSeries(a, seen, latest, key, ns);
    DeadlineKept(a, key, NoClass(), deadlines, other);
  }

  /** Crediting a slot or a duplicate changes neither table. */
  lemma {:induction false} CreditSound(a: Accounts, key: SeriesKey, delta: ClassM, seen: set<SeenKey>,
                                       latest: map<FlowKey, Latest>, deadlines: seq<Deadline>, other: nat)
    requires Sound(a, seen, latest, deadlines, other) && key.cls < N_CLASSES && key.direction < N_DIRECTIONS
    requires AmountOk(delta) && delta.counts.deadlineHit == 0
    requires delta.counts.slotsBroadcast <= delta.counts.slots && delta.counts.submitted <= delta.counts.slots
    requires delta.counts.delivered == delta.counts.expected == delta.counts.observed == 0
    ensures var b := WithSeries(a, key, DeadlineOf(deadlines, key.traffic, key.direction, other));
      Sound(Credited(b, key, delta), seen, latest, deadlines, other)
  {
    var b := WithSeries(a, key, DeadlineOf(deadlines, key.traffic, key.direction, other));
    SeriesSound(a, key, seen, latest, deadlines, other);
    CreditedOk(b, key, delta);
    TiedCredited(b, seen, latest, key, delta, seen, latest);
    DeadlineKept(a, key, delta, deadlines, other);
  }

  /** A delivery adds its key to those seen. */
  lemma {:induction false} DeliverySound(a: Accounts, k: SeenKey, h: Header, recv: uint64, seen: set<SeenKey>,
                                         latest: map<FlowKey, Latest>, deadlines: seq<Deadline>, other: nat)
    requires Sound(a, seen, latest, deadlines, other) && k.key == KeyOf(h) && h.direction < N_DIRECTIONS
    requires k !in seen
    ensures var ns := DeadlineOf(deadlines, h.traffic, h.direction, other);
      Sound(Counted(a, h, recv, ns, true), seen + {k}, latest, deadlines, other)
  {
    var ns := DeadlineOf(deadlines, h.traffic, h.direction, other);
    var b := WithSeries(a, k.key, ns);
    var delta := DeliveryAmount(h, recv, ns);
    SeriesSound(a, k.key, seen, latest, deadlines, other);
    SeriesDeadline(a, k.key, deadlines, other);
    CreditedOk(b, k.key, delta);
    TiedDelivery(b, seen, latest, k, delta);
    DeadlineKept(a, k.key, delta, deadlines, other);
  }

  /** What is learned of a flow changes its record; one that is not there yet is made first. */
  lemma {:induction false} FlowSound(a: Accounts, f: FlowKey, r: Latest, delta: ClassM, seen: set<SeenKey>,
                                     latest: map<FlowKey, Latest>, deadlines: seq<Deadline>, other: nat)
    requires Sound(a, seen, latest, deadlines, other) && f.key.cls < N_CLASSES
    requires Find(a.traffic, f.key) < |a.traffic| && (r.has ==> r.expected) && AmountOk(delta)
    requires delta.counts.slotsBroadcast == delta.counts.submitted == delta.counts.delivered ==
      delta.counts.deadlineHit == 0
    requires Flag(r.expected) == Flag(RecordOf(latest, f).expected) + delta.counts.expected
    requires Flag(r.has) == Flag(RecordOf(latest, f).has) + delta.counts.observed
    ensures Sound(Credited(a, f.key, delta), seen, latest[f := r], deadlines, other)
  {
    var latest' := latest[f := RecordOf(latest, f)];
    if f in latest {
      assert latest' == latest;
    } else {
      TiedNewFlow(a, seen, latest, f);
    }
    CreditedOk(a, f.key, delta);
    TiedFlow(a, seen, latest', f, r, delta);
    UpdateTwice(latest, f, RecordOf(latest, f), r);
    DeadlinesCredited(a, f.key, delta, deadlines, other);
  }

  lemma {:induction false} DeadlinesCredited(a: Accounts, key: SeriesKey, delta: ClassM, deadlines: seq<Deadline>,
                                             other: nat)
    requires DeadlinesOk(a.traffic, deadlines, other) && |a.classes| == N_CLASSES && key.cls < N_CLASSES
    requires Find(a.traffic, key) < |a.traffic|
    ensures DeadlinesOk(Credited(a, key, delta).traffic, deadlines, other)
  {
  }

  lemma {:induction false} ExpectationSound(a: Accounts, f: FlowKey, first: uint64, seen: set<SeenKey>,
                                            latest: map<FlowKey, Latest>, deadlines: seq<Deadline>, other: nat)
    requires Sound(a, seen, latest, deadlines, other) && f.key.cls < N_CLASSES && f.key.direction < N_DIRECTIONS
    ensures var b := WithSeries(a, f.key, DeadlineOf(deadlines, f.key.traffic, f.key.direction, other));
      Sound(Credited(b, f.key, ExpectationAmount(RecordOf(latest, f))), seen,
            latest[f := FlowExpected(RecordOf(latest, f), first)], deadlines, other)
  {
    var b := WithSeries(a, f.key, DeadlineOf(deadlines, f.key.traffic, f.key.direction, other));
    SeriesSound(a, f.key, seen, latest, deadlines, other);
    assert HasImpliesExpected(latest);
    FlowSound(b, f, FlowExpected(RecordOf(latest, f), first), ExpectationAmount(RecordOf(latest, f)), seen, latest,
              deadlines, other);
  }

  lemma {:induction false} DeliveredFlowSound(a: Accounts, f: FlowKey, h: Header, recv: uint64, seen: set<SeenKey>,
                                              latest: map<FlowKey, Latest>, deadlines: seq<Deadline>, other: nat)
    requires Sound(a, seen, latest, deadlines, other) && f.key == KeyOf(h) && Find(a.traffic, f.key) < |a.traffic|
    ensures Sound(Credited(a, f.key, FlowAmount(RecordOf(latest, f), h, recv)), seen,
                  latest[f := FlowAfter(RecordOf(latest, f), h, recv)], deadlines, other)
  {
    assert HasImpliesExpected(latest);
    var l := RecordOf(latest, f);
    FlowSound(a, f, FlowAfter(l, h, recv), FlowAmount(l, h, recv), seen, latest, deadlines, other);
  }

  lemma {:induction false} CountedSound(a: Accounts, k: SeenKey, h: Header, recv: uint64, seen: set<SeenKey>,
                                        latest: map<FlowKey, Latest>, deadlines: seq<Deadline>, other: nat, isNew: bool)
    requires Sound(a, seen, latest, deadlines, other) && k.key == KeyOf(h) && h.direction < N_DIRECTIONS
    requires isNew == (k !in seen)
    ensures Sound(Counted(a, h, recv, DeadlineOf(deadlines, h.traffic, h.direction, other), isNew), seen + {k}, latest,
                  deadlines, other)
  {
    if isNew {
      DeliverySound(a, k, h, recv, seen, latest, deadlines, other);
    } else {
      assert seen + {k} == seen;
      CreditSound(a, k.key, OfCounts(DuplicateCounts), seen, latest, deadlines, other);
    }
  }

  /** A measured reception, in all its parts. */
  lemma {:induction false} BookedSound(a: Accounts, k: SeenKey, flow: Option<FlowKey>, h: Header, recv: uint64,
                                       seen: set<SeenKey>, latest: map<FlowKey, Latest>, deadlines: seq<Deadline>,
                                       other: nat, isNew: bool)
    requires Sound(a, seen, latest, deadlines, other) && k.key == KeyOf(h) && h.direction < N_DIRECTIONS
    requires isNew == (k !in seen) && (flow.Some? ==> flow.value.key == k.key)
    ensures var ns := DeadlineOf(deadlines, h.traffic, h.direction, other);
      Sound(Booked(a, h, recv, ns, isNew, RecordAt(latest, flow)), seen + {k}, FlowsAfter(latest, flow, h, recv, isNew),
            deadlines, other)
  {
    var ns := DeadlineOf(deadlines, h.traffic, h.direction, other);
    CountedSound(a, k, h, recv, seen, latest, deadlines, other, isNew);
    if isNew && flow.Some? {
      DeliveredFlowSound(Counted(a, h, recv, ns, true), flow.value, h, recv, seen + {k}, latest, deadlines, other);
    }
  }

  lemma {:induction false} BookedDelivered(a: Accounts, h: Header, recv: uint64, deadline: nat, isNew: bool,
                                           record: Option<Latest>)
    requires |a.classes| == N_CLASSES
    ensures DeliveredInAll(Booked(a, h, recv, deadline, isNew, record)) == DeliveredInAll(a) + Flag(isNew)
  {
  }

  /** All of it, for the state afterwards. */
  lemma {:induction false} BookedOutcome(a: Accounts, b: Accounts, k: SeenKey, flow: Option<FlowKey>, h: Header,
                                         recv: uint64, seen: set<SeenKey>, latest: map<FlowKey, Latest>,
                                         latest': map<FlowKey, Latest>, deadlines: seq<Deadline>, other: nat,
                                         isNew: bool)
    requires Sound(a, seen, latest, deadlines, other) && k.key == KeyOf(h) && h.direction < N_DIRECTIONS
    requires isNew == (k !in seen) && (flow.Some? ==> flow.value.key == k.key) && FlowsOk(latest)
    requires b ==
      Booked(a, h, recv, DeadlineOf(deadlines, h.traffic, h.direction, other), isNew, RecordAt(latest, flow))
    requires latest' == FlowsAfter(latest, flow, h, recv, isNew)
    ensures Sound(b, seen + {k}, latest', deadlines, other) && FlowsOk(latest')
    ensures Received(a, b, latest, latest', flow, h, recv, DeadlineOf(deadlines, h.traffic, h.direction, other), isNew)
    ensures DeliveredInAll(b) == DeliveredInAll(a) + Flag(isNew)
  {
    BookedSound(a, k, flow, h, recv, seen, latest, deadlines, other, isNew);
    BookedIsReceived(a, latest, flow, h, recv, deadlines, other, isNew);
    BookedDelivered(a, h, recv, DeadlineOf(deadlines, h.traffic, h.direction, other), isNew, RecordAt(latest, flow));
  }

  // ----- sampling --------------------------------------------------------------------------------

  lemma {:induction false} SampledSound(a: Accounts, f: FlowKey, age: nat, seen: set<SeenKey>,
                                        latest: map<FlowKey, Latest>, deadlines: seq<Deadline>, other: nat)
    requires Sound(a, seen, latest, deadlines, other) && f.key.cls == LOSS_TOLERANT && f.key.direction < N_DIRECTIONS
    ensures var b := WithSeries(a, f.key, DeadlineOf(deadlines, f.key.traffic, f.key.direction, other));
      Sound(StaleSampled(b, f.key, Sample(age)), seen, latest, deadlines, other)
  {
    var b := WithSeries(a, f.key, DeadlineOf(deadlines, f.key.traffic, f.key.direction, other));
    SeriesSound(a, f.key, seen, latest, deadlines, other);
    SampleOk(age);
    StaleSampledOk(b, f.key, Sample(age));
    TiedSampled(b, seen, latest, f.key, Sample(age));
  }

  /** One sampling time. */
  lemma {:induction false} SampledOnceSound(a: Accounts, order: seq<FlowKey>, seen: set<SeenKey>,
                                            latest: map<FlowKey, Latest>, at: uint64, deadlines: seq<Deadline>,
                                            other: nat)
    requires Sound(a, seen, latest, deadlines, other) && FlowsOk(latest)
    ensures Sound(SampledOnce(a, order, latest, at, deadlines, other), seen, latest, deadlines, other)
  {
    if order != [] {
      var front, f := order[..|order| - 1], order[|order| - 1];
      SampledOnceSound(a, front, seen, latest, at, deadlines, other);
      if Sampled(latest, f) {
        SampledSound(SampledOnce(a, front, latest, at, deadlines, other), f, SaturatingSub(at, latest[f].sched), seen,
                     latest, deadlines, other);
      }
    }
  }

  /** All of a tick. */
  lemma {:induction false} SampledUntilSound(a: Accounts, order: seq<FlowKey>, seen: set<SeenKey>,
                                             latest: map<FlowKey, Latest>, next: uint64, time: uint64, period: uint64,
                                             deadlines: seq<Deadline>, other: nat)
    requires Sound(a, seen, latest, deadlines, other) && FlowsOk(latest) && 0 < period
    ensures Sound(SampledUntil(a, order, latest, next, time, period, deadlines, other), seen, latest, deadlines, other)
    decreases UINT64_MAX - next
  {
    if next <= time {
      var b := SampledOnce(a, order, latest, next, deadlines, other);
      SampledOnceSound(a, order, seen, latest, next, deadlines, other);
      if next + period <= UINT64_MAX {
        SampledUntilSound(b, order, seen, latest, next + period, time, period, deadlines, other);
      }
    }
  }
}
