/** The two tables behind the metrics as sets and maps: which deliveries were seen, and what is known of each
    flow; and how many of them belong to a traffic series. */
module MetricsFlows {
  import opened MachineWords
  import opened MetricsSeries

  /** `bk_seen_key`: a delivery is a duplicate if all of this is the same. */
  datatype SeenKey = SeenKey(local: uint32, origin: uint32, key: SeriesKey, seq_: uint64)

  datatype FlowKey = FlowKey(local: uint32, origin: uint32, key: SeriesKey)

  /** `bk_latest` */
  datatype Latest = Latest(expected: bool, has: bool, sched: uint64, recv: uint64)

  const NewLatest := Latest(false, false, 0, 0)

  /** The record of a flow, a new one if there is none. */
  function RecordOf(latest: map<FlowKey, Latest>, f: FlowKey): Latest { if f in latest then latest[f] else NewLatest }

  /** Getting a record and then changing it. */
  lemma UpdateTwice(latest: map<FlowKey, Latest>, f: FlowKey, l: Latest, r: Latest)
    ensures latest[f := l][f := r] == latest[f := r]
  {
  }

  // ----- deliveries ------------------------------------------------------------------------------

  ghost function SeenOf(seen: set<SeenKey>, key: SeriesKey): set<SeenKey> {
    set k | k in seen && k.key == key
  }

  lemma SeenMore(seen: set<SeenKey>, k: SeenKey, key: SeriesKey)
    requires k !in seen
    ensures |SeenOf(seen + {k}, key)| == |SeenOf(seen, key)| + (if k.key == key then 1 else 0)
  {
    if k.key == key {
      assert SeenOf(seen + {k}, key) == SeenOf(seen, key) + {k};
    } else {
      assert SeenOf(seen + {k}, key) == SeenOf(seen, key);
    }
  }

  // ----- flows -----------------------------------------------------------------------------------

  ghost function ExpectedOf(latest: map<FlowKey, Latest>, key: SeriesKey): set<FlowKey> {
    set f | f in latest && f.key == key && latest[f].expected
  }

  ghost function ObservedOf(latest: map<FlowKey, Latest>, key: SeriesKey): set<FlowKey> {
    set f | f in latest && f.key == key && latest[f].has
  }

  function Flag(b: bool): nat { if b then 1 else 0 }

  /** Changing one record, or adding it. */
  lemma FlowsUpdate(latest: map<FlowKey, Latest>, f: FlowKey, r: Latest, key: SeriesKey)
    ensures var old_ := RecordOf(latest, f);
      && |ExpectedOf(latest[f := r], key)| + (if f.key == key then Flag(old_.expected) else 0) ==
         |ExpectedOf(latest, key)| + (if f.key == key then Flag(r.expected) else 0)
      && |ObservedOf(latest[f := r], key)| + (if f.key == key then Flag(old_.has) else 0) ==
         |ObservedOf(latest, key)| + (if f.key == key then Flag(r.has) else 0)
  {
    var m := latest[f := r];
    SetDiffersAt(ExpectedOf(latest, key), ExpectedOf(m, key), f);
    SetDiffersAt(ObservedOf(latest, key), ObservedOf(m, key), f);
  }

  /** Two sets that agree except on one element. */
  lemma SetDiffersAt<T>(a: set<T>, b: set<T>, x: T)
    requires forall y :: y != x ==> (y in a <==> y in b)
    ensures |b| + (if x in a then 1 else 0) == |a| + (if x in b then 1 else 0)
  {
    assert a - {x} == b - {x};
    WithoutOne(a, x);
    WithoutOne(b, x);
  }

  lemma WithoutOne<T>(a: set<T>, x: T)
    ensures |a - {x}| + (if x in a then 1 else 0) == |a|
  {
    if x in a { assert a == (a - {x}) + {x}; } else { assert a == a - {x}; }
  }

  ghost predicate FlowsOk(latest: map<FlowKey, Latest>) {
    forall f :: f in latest ==> f.key.cls < N_CLASSES && f.key.direction < N_DIRECTIONS
  }

  ghost predicate HasImpliesExpected(latest: map<FlowKey, Latest>) {
    forall f :: f in latest && latest[f].has ==> latest[f].expected
  }

  lemma ObservedAtMostExpected(latest: map<FlowKey, Latest>, key: SeriesKey)
    requires HasImpliesExpected(latest)
    ensures |ObservedOf(latest, key)| <= |ExpectedOf(latest, key)|
  {
    var a, b := ObservedOf(latest, key), ExpectedOf(latest, key);
    assert b == a + (b - a);
  }

  // ----- counts of a series ----------------------------------------------------------------------

  /** The counts of a series; zeros for one that does not exist yet. */
  function CountsFor(a: Accounts, key: SeriesKey): Counts {
    if Find(a.traffic, key) < |a.traffic| then a.traffic[Find(a.traffic, key)].m.counts else NoCounts
  }

  /** Crediting a series changes the counts of that one. */
  lemma {:induction false} CountsForCredited(a: Accounts, key: SeriesKey, delta: ClassM, other: SeriesKey)
    requires KeysOk(a.traffic) && |a.classes| == N_CLASSES && key.cls < N_CLASSES && Find(a.traffic, key) < |a.traffic|
    ensures CountsFor(Credited(a, key, delta), other) ==
            (if other == key then PlusCounts(CountsFor(a, key), delta.counts) else CountsFor(a, other))
  {
    SameFind(a.traffic, SeriesCredited(a.traffic, Find(a.traffic, key), delta), other);
  }

  lemma {:induction false} CountsForSampled(a: Accounts, key: SeriesKey, delta: HistV, other: SeriesKey)
    requires Find(a.traffic, key) < |a.traffic|
    ensures CountsFor(StaleSampled(a, key, delta), other) == CountsFor(a, other)
  {
    SameFind(a.traffic, SeriesSampled(a.traffic, Find(a.traffic, key), delta), other);
  }

  lemma CountsForNew(a: Accounts, key: SeriesKey, deadline: nat, other: SeriesKey)
    ensures CountsFor(WithSeries(a, key, deadline), other) == CountsFor(a, other)
  {
    if Find(a.traffic, key) == |a.traffic| {
      FindAppended(a.traffic, Series(key, deadline, NoClass(), NoHist()), other);
    }
  }

  lemma {:induction false} FindAppended(traffic: seq<Series>, s: Series, key: SeriesKey)
    ensures Find(traffic + [s], key) ==
            (if Find(traffic, key) < |traffic| then Find(traffic, key)
             else if s.key == key then |traffic| else |traffic| + 1)
  {
    if traffic == [] {
      assert traffic + [s] == [s];
    } else {
      assert (traffic + [s])[1..] == traffic[1..] + [s];
      FindAppended(traffic[1..], s, key);
    }
  }

  // ----- the invariant ---------------------------------------------------------------------------

  predicate CountsSane(c: Counts) {
    c.slotsBroadcast <= c.slots && c.submitted <= c.slots && c.deadlineHit <= c.delivered && c.observed <= c.expected
  }

  ghost predicate SeriesTied(c: Counts, seen: set<SeenKey>, latest: map<FlowKey, Latest>, key: SeriesKey) {
    && c.delivered == |SeenOf(seen, key)|
    && c.expected == |ExpectedOf(latest, key)| && c.observed == |ObservedOf(latest, key)|
    && c.slotsBroadcast <= c.slots && c.submitted <= c.slots && c.deadlineHit <= c.delivered
  }

  /** Of each series: deliveries are the distinct keys seen, flows the records of the table. */
  ghost predicate Tied(a: Accounts, seen: set<SeenKey>, latest: map<FlowKey, Latest>) {
    && HasImpliesExpected(latest)
    && forall key: SeriesKey {:trigger CountsFor(a, key)} :: SeriesTied(CountsFor(a, key), seen, latest, key)
  }

  lemma TiedSane(a: Accounts, seen: set<SeenKey>, latest: map<FlowKey, Latest>, key: SeriesKey)
    requires Tied(a, seen, latest)
    ensures CountsSane(CountsFor(a, key))
  {
    ObservedAtMostExpected(latest, key);
  }

  lemma TiedNewSeries(a: Accounts, seen: set<SeenKey>, latest: map<FlowKey, Latest>, key: SeriesKey, deadline: nat)
    requires Tied(a, seen, latest)
    ensures Tied(WithSeries(a, key, deadline), seen, latest)
  {
    forall other: SeriesKey
      ensures CountsFor(WithSeries(a, key, deadline), other) == CountsFor(a, other)
    {
      CountsForNew(a, key, deadline, other);
    }
  }

  lemma {:induction false} TiedSampled(a: Accounts, seen: set<SeenKey>, latest: map<FlowKey, Latest>, key: SeriesKey,
                                       delta: HistV)
    requires Tied(a, seen, latest) && Find(a.traffic, key) < |a.traffic|
    ensures Tied(StaleSampled(a, key, delta), seen, latest)
  {
    forall other: SeriesKey
      ensures CountsFor(StaleSampled(a, key, delta), other) == CountsFor(a, other)
    {
      CountsForSampled(a, key, delta, other);
    }
  }

  /** A credit and the change of the tables it stands for. */
  lemma {:induction false} TiedCredited(a: Accounts, seen: set<SeenKey>, latest: map<FlowKey, Latest>, key: SeriesKey,
                                        delta: ClassM, seen': set<SeenKey>, latest': map<FlowKey, Latest>)
    requires Tied(a, seen, latest) && KeysOk(a.traffic) && |a.classes| == N_CLASSES && key.cls < N_CLASSES
    requires Find(a.traffic, key) < |a.traffic| && HasImpliesExpected(latest')
    requires delta.counts.slotsBroadcast <= delta.counts.slots && delta.counts.submitted <= delta.counts.slots
    requires delta.counts.deadlineHit <= delta.counts.delivered
    requires forall other: SeriesKey ::
      && |SeenOf(seen', other)| == |SeenOf(seen, other)| + (if other == key then delta.counts.delivered else 0)
      && |ExpectedOf(latest', other)| ==
         |ExpectedOf(latest, other)| + (if other == key then delta.counts.expected else 0)
      && |ObservedOf(latest', other)| ==
         |ObservedOf(latest, other)| + (if other == key then delta.counts.observed else 0)
    ensures Tied(Credited(a, key, delta), seen', latest')
  {
    forall other: SeriesKey
      ensures CountsFor(Credited(a, key, delta), other) ==
              (if other == key then PlusCounts(CountsFor(a, key), delta.counts) else CountsFor(a, other))
    {
      CountsForCredited(a, key, delta, other);
    }
  }

  /** A new record says nothing yet. */
  lemma TiedNewFlow(a: Accounts, seen: set<SeenKey>, latest: map<FlowKey, Latest>, f: FlowKey)
    requires Tied(a, seen, latest) && f !in latest
    ensures Tied(a, seen, latest[f := NewLatest])
  {
    forall key: SeriesKey
      ensures |ExpectedOf(latest[f := NewLatest], key)| == |ExpectedOf(latest, key)|
      ensures |ObservedOf(latest[f := NewLatest], key)| == |ObservedOf(latest, key)|
    {
      FlowsUpdate(latest, f, NewLatest, key);
    }
  }

  /** A first delivery and its credit. */
  lemma {:induction false} TiedDelivery(a: Accounts, seen: set<SeenKey>, latest: map<FlowKey, Latest>, k: SeenKey,
                                        delta: ClassM)
    requires Tied(a, seen, latest) && KeysOk(a.traffic) && |a.classes| == N_CLASSES && k.key.cls < N_CLASSES
    requires Find(a.traffic, k.key) < |a.traffic| && k !in seen
    requires delta.counts.delivered == 1 && delta.counts.deadlineHit <= 1
    requires delta.counts.slotsBroadcast == delta.counts.submitted == 0
    requires delta.counts.expected == delta.counts.observed == 0
    ensures Tied(Credited(a, k.key, delta), seen + {k}, latest)
  {
    forall other: SeriesKey
      ensures |SeenOf(seen + {k}, other)| == |SeenOf(seen, other)| + (if other == k.key then 1 else 0)
    {
      SeenMore(seen, k, other);
    }
    TiedCredited(a, seen, latest, k.key, delta, seen + {k}, latest);
  }

  /** What is learned of a flow and its credit. */
  lemma {:induction false} TiedFlow(a: Accounts, seen: set<SeenKey>, latest: map<FlowKey, Latest>, f: FlowKey,
                                    r: Latest, delta: ClassM)
    requires Tied(a, seen, latest) && KeysOk(a.traffic) && |a.classes| == N_CLASSES && f.key.cls < N_CLASSES
    requires Find(a.traffic, f.key) < |a.traffic| && f in latest && (r.has ==> r.expected)
    requires delta.counts.slotsBroadcast == delta.counts.submitted == delta.counts.delivered ==
      delta.counts.deadlineHit == 0
    requires Flag(r.expected) == Flag(latest[f].expected) + delta.counts.expected
    requires Flag(r.has) == Flag(latest[f].has) + delta.counts.observed
    ensures Tied(Credited(a, f.key, delta), seen, latest[f := r])
  {
    forall other: SeriesKey
      ensures |ExpectedOf(latest[f := r], other)| ==
        |ExpectedOf(latest, other)| + (if other == f.key then delta.counts.expected else 0)
      ensures |ObservedOf(latest[f := r], other)| ==
        |ObservedOf(latest, other)| + (if other == f.key then delta.counts.observed else 0)
    {
      FlowsUpdate(latest, f, r, other);
    }
    TiedCredited(a, seen, latest, f.key, delta, seen, latest[f := r]);
  }
}
