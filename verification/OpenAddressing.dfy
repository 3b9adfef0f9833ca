/** Hash tables with open addressing and linear probing, over any keys, values and hash function: what makes
    a table searchable, and what insertion and backward-shift deletion do to it. The source masks hashes
    with a power of two minus one, which is a remainder; nothing here needs the power of two. */
module OpenAddressing {
  import opened MachineWords
  import opened CircularIndex

  datatype Entry<+K, +V> = Entry(key: K, value: V)

  type Table<+K, +V> = seq<Option<Entry<K, V>>>

  function Home<K>(hash: K -> nat, cap: nat, key: K): (h: nat)
    requires 0 < cap
    ensures h < cap
  {
    hash(key) % cap
  }

  // ----- the invariant ---------------------------------------------------------------------------

  /** No key twice. */
  ghost predicate Distinct<K, V>(t: Table<K, V>) {
    forall i, j :: 0 <= i < |t| && 0 <= j < |t| && t[i].Some? && t[j].Some? && t[i].value.key == t[j].value.key ==>
      i == j
  }

  /** Every slot from the home of the entry in slot i up to i is in use, or is the hole. */
  ghost predicate PathFull<K, V>(hash: K -> nat, t: Table<K, V>, hole: int, i: nat)
    requires i < |t| && t[i].Some?
  {
    var h := Home(hash, |t|, t[i].value.key);
    forall d :: 0 <= d < Dist(|t|, h, i) ==> t[Slot(|t|, h, d)].Some? || Slot(|t|, h, d) == hole
  }

  ghost predicate GapFree<K, V>(hash: K -> nat, t: Table<K, V>, hole: int) {
    forall i: nat :: i < |t| && t[i].Some? ==> PathFull(hash, t, hole, i)
  }

  ghost predicate TableOk<K, V>(hash: K -> nat, t: Table<K, V>) {
    0 < |t| && Distinct(t) && GapFree(hash, t, -1)
  }

  /** The table holds exactly the pairs of the map. */
  ghost predicate Represents<K, V>(t: Table<K, V>, m: map<K, V>) {
    && (forall i :: 0 <= i < |t| && t[i].Some? ==> t[i].value.key in m && m[t[i].value.key] == t[i].value.value)
    && (forall key :: key in m ==> Some(Entry(key, m[key])) in t)
  }

  // ----- probing ---------------------------------------------------------------------------------

  /** The first n probes met only other keys. */
  ghost predicate Probed<K, V>(hash: K -> nat, t: Table<K, V>, key: K, n: nat)
    requires 0 < |t| && n <= |t|
  {
    forall d :: 0 <= d < n ==>
      var e := t[Slot(|t|, Home(hash, |t|, key), d)]; e.Some? && e.value.key != key
  }

  /** An unused slot ends the search: the key is nowhere. */
  lemma MissAtUnused<K, V>(hash: K -> nat, t: Table<K, V>, key: K, n: nat, i: nat)
    requires TableOk(hash, t) && n < |t| && Probed(hash, t, key, n)
    requires t[Slot(|t|, Home(hash, |t|, key), n)].None? && i < |t| && t[i].Some?
    ensures t[i].value.key != key
  {
    var h := Home(hash, |t|, t[i].value.key);
    assert PathFull(hash, t, -1, i);
    assert i == Slot(|t|, h, Dist(|t|, h, i));
  }

  lemma MissAfterAll<K, V>(hash: K -> nat, t: Table<K, V>, key: K, i: nat)
    requires 0 < |t| && Probed(hash, t, key, |t|) && i < |t|
    ensures t[i].Some? && t[i].value.key != key
  {
    var h := Home(hash, |t|, key);
    assert i == Slot(|t|, h, Dist(|t|, h, i));
  }

  /** An entry may be put into the slot where the search for its key ended. */
  lemma InsertKeepsOk<K, V>(hash: K -> nat, t: Table<K, V>, e: Entry<K, V>, n: nat)
    requires TableOk(hash, t) && n < |t| && Probed(hash, t, e.key, n)
    requires var x := t[Slot(|t|, Home(hash, |t|, e.key), n)]; x.None? || x.value.key == e.key
    ensures TableOk(hash, t[Slot(|t|, Home(hash, |t|, e.key), n) := Some(e)])
  {
    var h := Home(hash, |t|, e.key);
    var p := Slot(|t|, h, n);
    var t' := t[p := Some(e)];
    forall i: nat | i < |t'| && t'[i].Some?
      ensures PathFull(hash, t', -1, i)
    {
      if i != p { assert PathFull(hash, t, -1, i); }
    }
    forall i: nat | i < |t| && i != p && t[i].Some?
      ensures t[i].value.key != e.key
    {
      if t[p].None? { MissAtUnused(hash, t, e.key, n, i); }
    }
  }

  lemma InsertRepresents<K, V>(t: Table<K, V>, m: map<K, V>, e: Entry<K, V>, p: nat)
    requires Represents(t, m) && Distinct(t) && p < |t|
    requires forall i :: 0 <= i < |t| && i != p && t[i].Some? ==> t[i].value.key != e.key
    requires t[p].None? || t[p].value.key == e.key
    ensures Represents(t[p := Some(e)], m[e.key := e.value])
  {
    var t', m' := t[p := Some(e)], m[e.key := e.value];
    forall key | key in m'
      ensures Some(Entry(key, m'[key])) in t'
    {
      if key == e.key {
        assert t'[p] == Some(Entry(key, m'[key]));
      } else {
        var i :| 0 <= i < |t| && t[i] == Some(Entry(key, m[key]));
        assert t'[i] == t[i];
      }
    }
  }

  // ----- removal ---------------------------------------------------------------------------------

  /** The hole is not on the way from its home to the entry in slot j. */
  ghost predicate Clear<K, V>(hash: K -> nat, t: Table<K, V>, hole: nat, j: nat)
    requires hole < |t| && j < |t| && t[j].Some?
  {
    var h := Home(hash, |t|, t[j].value.key);
    Dist(|t|, h, j) <= Dist(|t|, h, hole)
  }

  /** The loop of the backward shift has reached slot i: the only gap is the hole, and no entry between
      the hole and i needs it filled. */
  ghost predicate Shifting<K, V>(hash: K -> nat, t: Table<K, V>, hole: nat, i: nat) {
    && hole < |t| && i < |t| && t[hole].None? && Distinct(t)
    && GapFree(hash, t, hole)
    && forall e :: 1 <= e <= Dist(|t|, hole, i) && t[Slot(|t|, hole, e)].Some? ==>
         Clear(hash, t, hole, Slot(|t|, hole, e))
  }

  lemma EmptiedShifting<K, V>(hash: K -> nat, t: Table<K, V>, hole: nat)
    requires TableOk(hash, t) && hole < |t| && t[hole].Some?
    ensures Shifting(hash, t[hole := None], hole, hole)
  {
    var t' := t[hole := None];
    forall i: nat | i < |t'| && t'[i].Some?
      ensures PathFull(hash, t', hole, i)
    {
      assert PathFull(hash, t, -1, i);
    }
  }

  /** The next slot is unused: there is no gap left. */
  lemma ShiftDone<K, V>(hash: K -> nat, t: Table<K, V>, hole: nat, i: nat)
    requires Shifting(hash, t, hole, i) && t[Slot(|t|, i, 1)].None?
    ensures TableOk(hash, t)
  {
    forall j: nat | j < |t| && t[j].Some?
      ensures PathFull(hash, t, -1, j)
    {
      HoleOffPath(hash, t, hole, i, j);
      assert PathFull(hash, t, hole, j);
    }
  }

  lemma HoleOffPath<K, V>(hash: K -> nat, t: Table<K, V>, hole: nat, i: nat, j: nat)
    requires Shifting(hash, t, hole, i) && t[Slot(|t|, i, 1)].None? && j < |t| && t[j].Some?
    ensures Clear(hash, t, hole, j)
  {
    var cap, h := |t|, Home(hash, |t|, t[j].value.key);
    assert j == Slot(cap, hole, Dist(cap, hole, j));
    assert PathFull(hash, t, hole, j);
    if Dist(cap, hole, j) > Dist(cap, hole, i) && Dist(cap, h, hole) < Dist(cap, h, j) {
      NextOnPath(cap, h, hole, i, j);
    }
  }

  /** With the hole on the way from h to j, and j beyond i, the slot after i is on that way after the hole. */
  lemma NextOnPath(cap: nat, h: nat, hole: nat, i: nat, j: nat)
    requires h < cap && hole < cap && i < cap && j < cap
    requires Dist(cap, hole, j) > Dist(cap, hole, i) && Dist(cap, h, hole) < Dist(cap, h, j)
    ensures var n := Slot(cap, i, 1);
      n != hole && Slot(cap, h, Dist(cap, h, n)) == n && Dist(cap, h, n) <= Dist(cap, h, j)
      && (n != j ==> Dist(cap, h, n) < Dist(cap, h, j))
  {
  }

  /** The next entry can stay. */
  lemma ShiftPasses<K, V>(hash: K -> nat, t: Table<K, V>, hole: nat, i: nat)
    requires Shifting(hash, t, hole, i) && t[Slot(|t|, i, 1)].Some?
    requires Clear(hash, t, hole, Slot(|t|, i, 1))
    ensures Shifting(hash, t, hole, Slot(|t|, i, 1))
    ensures Dist(|t|, hole, Slot(|t|, i, 1)) == Dist(|t|, hole, i) + 1
  {
    assert Slot(|t|, hole, Dist(|t|, hole, i)) == i;
    assert Slot(|t|, hole, Dist(|t|, hole, i) + 1) == Slot(|t|, i, 1);
  }

  /** The next entry fills the hole and leaves one where it was. */
  lemma ShiftMoves<K, V>(hash: K -> nat, t: Table<K, V>, hole: nat, n: nat)
    requires hole < |t| && n < |t| && t[hole].None? && t[n].Some? && Distinct(t) && GapFree(hash, t, hole)
    requires !Clear(hash, t, hole, n)
    ensures Shifting(hash, t[hole := t[n]][n := None], n, n)
  {
    var t', h := t[hole := t[n]][n := None], Home(hash, |t|, t[n].value.key);
    forall j: nat | j < |t'| && t'[j].Some?
      ensures PathFull(hash, t', n, j)
    {
      if j == hole {
        assert PathFull(hash, t, hole, n);
        assert Slot(|t|, h, Dist(|t|, h, hole)) == hole;
      } else {
        assert PathFull(hash, t, hole, j);
      }
    }
  }

  lemma MoveRepresents<K, V>(t: Table<K, V>, m: map<K, V>, hole: nat, n: nat)
    requires Represents(t, m) && hole < |t| && n < |t| && t[hole].None? && t[n].Some?
    ensures Represents(t[hole := t[n]][n := None], m)
  {
    var t' := t[hole := t[n]][n := None];
    forall key | key in m
      ensures Some(Entry(key, m[key])) in t'
    {
      var i :| 0 <= i < |t| && t[i] == Some(Entry(key, m[key]));
      assert t'[if i == n then hole else i] == t[i];
    }
  }

  lemma EmptyRepresents<K, V>(t: Table<K, V>, m: map<K, V>, p: nat)
    requires Represents(t, m) && Distinct(t) && p < |t| && t[p].Some?
    ensures Represents(t[p := None], m - {t[p].value.key})
  {
    var t', m' := t[p := None], m - {t[p].value.key};
    forall key | key in m'
      ensures Some(Entry(key, m'[key])) in t'
    {
      var i :| 0 <= i < |t| && t[i] == Some(Entry(key, m[key]));
      assert t'[i] == t[i];
    }
  }

  // ----- termination of the shift ----------------------------------------------------------------

  /** How far the entries are from their homes, all together. */
  ghost function Displacement<K, V>(hash: K -> nat, cap: nat, t: Table<K, V>, from: nat): nat
    requires 0 < cap && from + |t| == cap
    decreases |t|
  {
    if t == [] then 0
    else
      (if t[0].Some? then Dist(cap, Home(hash, cap, t[0].value.key), from) else 0)
      + Displacement(hash, cap, t[1..], from + 1)
  }

  ghost function Share<K, V>(hash: K -> nat, cap: nat, x: Option<Entry<K, V>>, p: nat): nat
    requires p < cap
  {
    if x.Some? then Dist(cap, Home(hash, cap, x.value.key), p) else 0
  }

  lemma {:induction false} DisplacementUpdate<K, V>(hash: K -> nat, cap: nat, t: Table<K, V>, from: nat, p: nat,
                                                    x: Option<Entry<K, V>>)
    requires 0 < cap && from + |t| == cap && p < |t|
    ensures Displacement(hash, cap, t[p := x], from) ==
            Displacement(hash, cap, t, from) - Share(hash, cap, t[p], from + p) + Share(hash, cap, x, from + p)
    decreases |t|
  {
    if p == 0 {
      assert t[0 := x][1..] == t[1..];
    } else {
      assert t[p := x][1..] == t[1..][p - 1 := x];
      DisplacementUpdate(hash, cap, t[1..], from + 1, p - 1, x);
    }
  }

  /** Every move brings an entry nearer to its home. */
  lemma {:induction false} MoveDescends<K, V>(hash: K -> nat, t: Table<K, V>, hole: nat, n: nat)
    requires hole < |t| && n < |t| && t[hole].None? && t[n].Some? && !Clear(hash, t, hole, n)
    ensures Displacement(hash, |t|, t[hole := t[n]][n := None], 0) < Displacement(hash, |t|, t, 0)
  {
    DisplacementUpdate(hash, |t|, t, 0, hole, t[n]);
    DisplacementUpdate(hash, |t|, t[hole := t[n]], 0, n, None);
  }

  /** Different slots are at different distances. */
  lemma SameDist(cap: nat, h: nat, a: nat, b: nat)
    requires h < cap && a < cap && b < cap && Dist(cap, h, a) <= Dist(cap, h, b)
    ensures a == b || Dist(cap, h, a) < Dist(cap, h, b)
  {
  }
}
