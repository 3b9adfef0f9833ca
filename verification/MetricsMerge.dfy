/** Merging the accounts of several processes: classes and staleness are added, series are added to the series of
    the same key. Sums that agree in every file agree in the merged metrics. */
module MetricsMerge {
  import opened Histogram
  import opened MetricsSeries
  import opened MetricsFlows

  /** The amounts of a series; nothing for one that does not exist. */
  function AmountFor(traffic: seq<Series>, key: SeriesKey): ClassM {
    if Find(traffic, key) < |traffic| then traffic[Find(traffic, key)].m else NoClass()
  }

  /** The series of the same key has another deadline. */
  predicate Clash(traffic: seq<Series>, s: Series) {
    Find(traffic, s.key) < |traffic| && traffic[Find(traffic, s.key)].deadline != s.deadline
  }

  /** A series added to those merged so far. */
  function AddSeries(traffic: seq<Series>, s: Series): seq<Series> {
    var i := Find(traffic, s.key);
    if i < |traffic| then SeriesSampled(SeriesCredited(traffic, i, s.m), i, s.staleness) else traffic + [s]
  }

  // ----- one series ------------------------------------------------------------------------------

  function IfClass(s: Series, cls: nat): ClassM { if s.key.cls == cls then s.m else NoClass() }

  function IfLoss(s: Series): HistV { if s.key.cls == LOSS_TOLERANT then s.staleness else NoHist() }

  lemma PlusNothing(a: ClassM)
    ensures Plus(a, NoClass()) == a
  {
    PlusLaws(a, NoClass(), NoClass());
  }

  lemma PlusNoHist(a: HistV)
    ensures PlusHist(a, NoHist()) == a
  {
  }

  lemma {:induction false} ClassSumLast(traffic: seq<Series>, s: Series, cls: nat)
    ensures ClassSum(traffic + [s], cls) == Plus(ClassSum(traffic, cls), IfClass(s, cls))
  {
    assert (traffic + [s])[..|traffic|] == traffic;
    PlusNothing(ClassSum(traffic, cls));
  }

  lemma {:induction false} StalenessLast(traffic: seq<Series>, s: Series)
    ensures StalenessSum(traffic + [s]) == PlusHist(StalenessSum(traffic), IfLoss(s))
  {
    assert (traffic + [s])[..|traffic|] == traffic;
    PlusNoHist(StalenessSum(traffic));
  }

  lemma {:induction false} ClassSumAdded(traffic: seq<Series>, s: Series, cls: nat)
    ensures ClassSum(AddSeries(traffic, s), cls) == Plus(ClassSum(traffic, cls), IfClass(s, cls))
  {
    var i := Find(traffic, s.key);
    if i < |traffic| {
      var t := SeriesCredited(traffic, i, s.m);
      ClassSumCredit(traffic, i, s.m, cls);
      ClassSumStale(t, i, PlusHist(t[i].staleness, s.staleness), cls);
      PlusNothing(ClassSum(traffic, cls));
    } else {
      ClassSumLast(traffic, s, cls);
    }
  }

  lemma {:induction false} StalenessAdded(traffic: seq<Series>, s: Series)
    ensures StalenessSum(AddSeries(traffic, s)) == PlusHist(StalenessSum(traffic), IfLoss(s))
  {
    if Find(traffic, s.key) < |traffic| {
      StalenessMore(traffic, s, Find(traffic, s.key));
    } else {
      StalenessLast(traffic, s);
    }
  }

  lemma {:induction false} StalenessMore(traffic: seq<Series>, s: Series, i: nat)
    requires i < |traffic| && traffic[i].key == s.key
    ensures StalenessSum(SeriesSampled(SeriesCredited(traffic, i, s.m), i, s.staleness)) ==
            PlusHist(StalenessSum(traffic), IfLoss(s))
  {
    var t := SeriesCredited(traffic, i, s.m);
    StaleSumCredit(traffic, i, t[i].m);
    if s.key.cls == LOSS_TOLERANT {
      StalenessCredit(t, i, s.staleness);
    } else {
      OtherStaleness(t, i, s.staleness);
      PlusNoHist(StalenessSum(traffic));
    }
  }

  lemma {:induction false} OtherStaleness(traffic: seq<Series>, i: nat, delta: HistV)
    requires i < |traffic| && traffic[i].key.cls != LOSS_TOLERANT
    ensures StalenessSum(SeriesSampled(traffic, i, delta)) == StalenessSum(traffic)
    decreases |traffic|
  {
    var n: nat := |traffic| - 1;
    if i == n {
      assert SeriesSampled(traffic, i, delta)[..n] == traffic[..n];
    } else {
      assert SeriesSampled(traffic, i, delta)[..n] == SeriesSampled(traffic[..n], i, delta);
      OtherStaleness(traffic[..n], i, delta);
    }
  }

  lemma KeysAdded(traffic: seq<Series>, s: Series)
    requires KeysOk(traffic) && SeriesOk(s)
    ensures KeysOk(AddSeries(traffic, s))
  {
    var i := Find(traffic, s.key);
    if i < |traffic| {
      PlusOk(traffic[i].m, s.m);
      PlusHistOk(traffic[i].staleness, s.staleness);
      KeysKept(traffic, AddSeries(traffic, s));
    } else {
      Absent(traffic, s.key);
    }
  }

  lemma AmountAdded(traffic: seq<Series>, s: Series, key: SeriesKey)
    ensures AmountFor(AddSeries(traffic, s), key) ==
            if key == s.key then Plus(AmountFor(traffic, key), s.m) else AmountFor(traffic, key)
  {
    var i := Find(traffic, s.key);
    PlusLaws(s.m, NoClass(), NoClass());
    if i < |traffic| {
      SameFind(traffic, AddSeries(traffic, s), key);
    } else {
      FindAppended(traffic, s, key);
    }
  }

  /** Of series with different keys, the last one is the one of its key. */
  lemma LastAmount(traffic: seq<Series>, s: Series, key: SeriesKey)
    requires KeysOk(traffic + [s])
    ensures AmountFor(traffic + [s], key) == if key == s.key then s.m else AmountFor(traffic, key)
    ensures AmountFor(traffic, s.key) == NoClass()
  {
    FindAppended(traffic, s, key);
    Absent(traffic, s.key);
    assert (traffic + [s])[|traffic|] == s;
    assert forall k :: 0 <= k < |traffic| ==> (traffic + [s])[k] == traffic[k];
  }

  // ----- a file ----------------------------------------------------------------------------------

  /** The series of a file, so far merged into `before`, came to `now`. */
  ghost predicate MergedTraffic(before: seq<Series>, file: seq<Series>, now: seq<Series>) {
    && KeysOk(now)
    && StalenessSum(now) == PlusHist(StalenessSum(before), StalenessSum(file))
    && (forall cls: nat :: ClassSum(now, cls) == Plus(ClassSum(before, cls), ClassSum(file, cls)))
    && (forall key: SeriesKey :: AmountFor(now, key) == Plus(AmountFor(before, key), AmountFor(file, key)))
  }

  lemma NothingMerged(before: seq<Series>)
    requires KeysOk(before)
    ensures MergedTraffic(before, [], before)
  {
    PlusNoHist(StalenessSum(before));
    forall cls: nat
      ensures ClassSum(before, cls) == Plus(ClassSum(before, cls), ClassSum([], cls))
    {
      NoClassMerged(before, cls);
    }
    forall key: SeriesKey
      ensures AmountFor(before, key) == Plus(AmountFor(before, key), AmountFor([], key))
    {
      NoAmountMerged(before, key);
    }
  }

  lemma {:induction false} NoClassMerged(before: seq<Series>, cls: nat)
    ensures ClassSum(before, cls) == Plus(ClassSum(before, cls), ClassSum([], cls))
  {
    PlusNothing(ClassSum(before, cls));
  }

  lemma NoAmountMerged(before: seq<Series>, key: SeriesKey)
    ensures AmountFor(before, key) == Plus(AmountFor(before, key), AmountFor([], key))
  {
    PlusNothing(AmountFor(before, key));
  }

  lemma OneMoreMerged(before: seq<Series>, file: seq<Series>, now: seq<Series>, s: Series)
    requires MergedTraffic(before, file, now) && KeysOk(file + [s])
    ensures MergedTraffic(before, file + [s], AddSeries(now, s))
  {
    assert (file + [s])[..|file|] == file && (file + [s])[|file|] == s;
    KeysAdded(now, s);
    MoreStale(before, file, now, s);
    forall cls: nat
      ensures ClassSum(AddSeries(now, s), cls) == Plus(ClassSum(before, cls), ClassSum(file + [s], cls))
    {
      MoreClass(before, file, now, s, cls);
    }
    forall key: SeriesKey
      ensures AmountFor(AddSeries(now, s), key) == Plus(AmountFor(before, key), AmountFor(file + [s], key))
    {
      MoreAmount(before, file, now, s, key);
    }
  }

  lemma {:induction false} MoreStale(before: seq<Series>, file: seq<Series>, now: seq<Series>, s: Series)
    requires StalenessSum(now) == PlusHist(StalenessSum(before), StalenessSum(file))
    ensures StalenessSum(AddSeries(now, s)) == PlusHist(StalenessSum(before), StalenessSum(file + [s]))
  {
    StalenessAdded(now, s);
    StalenessLast(file, s);
    PlusHistAssoc(StalenessSum(before), StalenessSum(file), IfLoss(s));
  }

  lemma {:induction false} MoreClass(before: seq<Series>, file: seq<Series>, now: seq<Series>, s: Series, cls: nat)
    requires ClassSum(now, cls) == Plus(ClassSum(before, cls), ClassSum(file, cls))
    ensures ClassSum(AddSeries(now, s), cls) == Plus(ClassSum(before, cls), ClassSum(file + [s], cls))
  {
    ClassSumAdded(now, s, cls);
    ClassSumLast(file, s, cls);
    PlusAssoc(ClassSum(before, cls), ClassSum(file, cls), IfClass(s, cls));
  }

  lemma MoreAmount(before: seq<Series>, file: seq<Series>, now: seq<Series>, s: Series, key: SeriesKey)
    requires AmountFor(now, key) == Plus(AmountFor(before, key), AmountFor(file, key)) && KeysOk(file + [s])
    ensures AmountFor(AddSeries(now, s), key) == Plus(AmountFor(before, key), AmountFor(file + [s], key))
  {
    AmountAdded(now, s, key);
    LastAmount(file, s, key);
    PlusNothing(AmountFor(before, key));
  }

  /** A clash with the series merged so far is one with those there were before the file. */
  lemma {:induction false} ClashesBefore(before: seq<Series>, file: seq<Series>, s: Series)
    requires KeysOk(file + [s])
    ensures Clash(AddAll(before, file), s) <==> Clash(before, s)
  {
    if file != [] {
      var n: nat := |file| - 1;
      assert KeysOk(file[..n] + [s]) by {
        assert forall k :: 0 <= k < n ==> (file[..n] + [s])[k] == (file + [s])[k];
        assert (file + [s])[|file|] == s;
      }
      ClashesBefore(before, file[..n], s);
      var t := file[n];
      assert t.key != s.key by { assert (file + [s])[n] == t && (file + [s])[|file|] == s; }
      var sofar := AddAll(before, file[..n]);
      if Find(sofar, t.key) < |sofar| {
        SameFind(sofar, AddSeries(sofar, t), s.key);
      } else {
        FindAppended(sofar, t, s.key);
      }
    }
  }

  function AddAll(before: seq<Series>, file: seq<Series>): seq<Series> {
    if file == [] then before else AddSeries(AddAll(before, file[..|file| - 1]), file[|file| - 1])
  }

  /** `MergedMetrics` */
  class Merged {
    var accounts: Accounts

    constructor ()
      ensures SumsOk(accounts) && accounts == Accounts([NoClass(), NoClass()], NoHist(), [])
    {
      accounts := Accounts([NoClass(), NoClass()], NoHist(), []);
    }

    /** `add`: it fails exactly if a series is there already with another deadline. Otherwise every series has the
        amounts of before and of the file, and the sums still agree. */
    method Add(file: Accounts) returns (ok: bool)
      requires SumsOk(accounts) && SumsOk(file)
      modifies this
      ensures !ok <==> exists i :: 0 <= i < |file.traffic| && Clash(old(accounts).traffic, file.traffic[i])
      ensures ok ==> SumsOk(accounts) && MergedTraffic(old(accounts).traffic, file.traffic, accounts.traffic)
      ensures ok ==> forall c :: 0 <= c < N_CLASSES ==>
        accounts.classes[c] == Plus(old(accounts).classes[c], file.classes[c])
      ensures ok ==> accounts.staleness == PlusHist(old(accounts).staleness, file.staleness)
    {
      var before := accounts.traffic;
      accounts := Accounts([Plus(accounts.classes[0], file.classes[0]), Plus(accounts.classes[1], file.classes[1])],
                           PlusHist(accounts.staleness, file.staleness), before);
      ok := AddTraffic(file.traffic);
    }

    /** The loop over the series of the file. */
    method AddTraffic(file: seq<Series>) returns (ok: bool)
      requires KeysOk(accounts.traffic) && KeysOk(file)
      modifies this
      ensures !ok <==> exists i :: 0 <= i < |file| && Clash(old(accounts).traffic, file[i])
      ensures ok ==> MergedTraffic(old(accounts).traffic, file, accounts.traffic)
      ensures accounts.classes == old(accounts.classes) && accounts.staleness == old(accounts.staleness)
    {
      ghost var before := accounts.traffic;
      NothingMerged(before);
      for i := 0 to |file|
        invariant MergedTraffic(before, file[..i], accounts.traffic) && accounts.traffic == AddAll(before, file[..i])
        invariant forall j :: 0 <= j < i ==> !Clash(before, file[j])
        invariant accounts.classes == old(accounts.classes) && accounts.staleness == old(accounts.staleness)
      {
        NextSeries(before, file, i, accounts.traffic);
        if Clash(accounts.traffic, file[i]) { return false; }
        accounts := accounts.(traffic := AddSeries(accounts.traffic, file[i]));
      }
      assert file[..|file|] == file;
      return true;
    }
  }

  lemma {:induction false} NextSeries(before: seq<Series>, file: seq<Series>, i: nat, now: seq<Series>)
    requires i < |file| && KeysOk(file) && MergedTraffic(before, file[..i], now) && now == AddAll(before, file[..i])
    ensures Clash(now, file[i]) <==> Clash(before, file[i])
    ensures MergedTraffic(before, file[..i + 1], AddSeries(now, file[i]))
    ensures AddSeries(now, file[i]) == AddAll(before, file[..i + 1])
  {
    assert file[..i] + [file[i]] == file[..i + 1] && file[..i + 1][..i] == file[..i];
    PrefixKeys(file, i + 1);
    ClashesBefore(before, file[..i], file[i]);
    OneMoreMerged(before, file[..i], now, file[i]);
  }

  lemma PrefixKeys(file: seq<Series>, n: nat)
    requires KeysOk(file) && n <= |file|
    ensures KeysOk(file[..n])
  {
  }
}
