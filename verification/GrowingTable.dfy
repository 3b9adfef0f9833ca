/** The hash tables of the metrics, `seen` and `latest`: linear probing without deletion, doubled before they
    are seven tenths full. The loops of the source that walk over used slots have no bound of their own;
    they end because a slot is always unused. */
module GrowingTable {
  import opened MachineWords
  import opened CircularIndex
  import opened OpenAddressing

  function Used<K, V>(t: Table<K, V>): nat {
    if t == [] then 0 else (if t[0].Some? then 1 else 0) + Used(t[1..])
  }

  lemma {:induction false} UsedAtMost<K, V>(t: Table<K, V>)
    ensures Used(t) <= |t|
    ensures (forall i :: 0 <= i < |t| ==> t[i].None?) ==> Used(t) == 0
  {
    if t != [] {
      assert (forall i :: 0 <= i < |t| ==> t[i].None?) ==> forall i :: 0 <= i < |t[1..]| ==> t[1..][i].None?;
      UsedAtMost(t[1..]);
    }
  }

  lemma {:induction false} UsedUpdate<K, V>(t: Table<K, V>, p: nat, x: Option<Entry<K, V>>)
    requires p < |t|
    ensures Used(t[p := x]) == Used(t) - (if t[p].Some? then 1 else 0) + (if x.Some? then 1 else 0)
  {
    if p == 0 {
      assert t[0 := x][1..] == t[1..];
    } else {
      assert t[p := x][1..] == t[1..][p - 1 := x];
      UsedUpdate(t[1..], p - 1, x);
    }
  }

  lemma {:induction false} UnusedSlot<K, V>(t: Table<K, V>) returns (p: nat)
    requires Used(t) < |t|
    ensures p < |t| && t[p].None?
  {
    if t[0].None? { p := 0; } else {
      p := UnusedSlot(t[1..]);
      p := p + 1;
    }
  }

  lemma {:induction false} UsedPrefix<K, V>(t: Table<K, V>, i: nat)
    requires i <= |t|
    ensures Used(t[..i]) + Used(t[i..]) == Used(t)
  {
    if i > 0 {
      assert t[..i] == [t[0]] + t[1..][..i - 1];
      UsedPrefix(t[1..], i - 1);
    }
  }

  /** Two maps a table represents are the same. */
  lemma RepresentsOne<K, V>(t: Table<K, V>, m: map<K, V>, n: map<K, V>)
    requires Represents(t, m) && Represents(t, n)
    ensures m == n
  {
    forall k | k in m
      ensures k in n && n[k] == m[k]
    {
      assert Some(Entry(k, m[k])) in t;
    }
    forall k | k in n
      ensures k in m
    {
      assert Some(Entry(k, n[k])) in t;
    }
  }

  lemma PrefixLacks<K, V>(t: Table<K, V>, m: map<K, V>, i: nat)
    requires i < |t| && Distinct(t) && Represents(t[..i], m) && t[i].Some?
    ensures t[i].value.key !in m
  {
    var key := t[i].value.key;
    assert key in m ==> Some(Entry(key, m[key])) in t[..i];
    forall k | 0 <= k < i && t[k].Some?
      ensures t[k].value.key != key
    {
    }
  }

  /** One more slot of a table represents one more pair, if it is used. */
  lemma RepresentsMore<K, V>(t: Table<K, V>, m: map<K, V>, i: nat)
    requires i < |t| && Distinct(t) && Represents(t[..i], m)
    ensures t[i].None? ==> Represents(t[..i + 1], m)
    ensures t[i].Some? ==> t[i].value.key !in m && Represents(t[..i + 1], m[t[i].value.key := t[i].value.value])
  {
    var m' := if t[i].Some? then m[t[i].value.key := t[i].value.value] else m;
    assert t[..i + 1] == t[..i] + [t[i]];
    if t[i].Some? { PrefixLacks(t, m, i); }
    forall key | key in m'
      ensures Some(Entry(key, m'[key])) in t[..i + 1]
    {
      if t[i].Some? && key == t[i].value.key {
        assert t[..i + 1][i] == Some(Entry(key, m'[key]));
      } else {
        var k :| 0 <= k < i && t[..i][k] == Some(Entry(key, m[key]));
        assert t[..i + 1][k] == t[..i][k];
      }
    }
  }

  /** A new key in the unused slot its search ended at. */
  lemma {:induction false} NewKeyOk<K, V>(hash: K -> nat, t: Table<K, V>, m: map<K, V>, e: Entry<K, V>, n: nat)
    requires TableOk(hash, t) && Represents(t, m) && e.key !in m && n < |t|
    requires Probed(hash, t, e.key, n) && t[Slot(|t|, Home(hash, |t|, e.key), n)].None?
    ensures var t' := t[Slot(|t|, Home(hash, |t|, e.key), n) := Some(e)];
      TableOk(hash, t') && Represents(t', m[e.key := e.value]) && Used(t') == Used(t) + 1
  {
    var p := Slot(|t|, Home(hash, |t|, e.key), n);
    InsertKeepsOk(hash, t, e, n);
    InsertRepresents(t, m, e, p);
    UsedUpdate(t, p, Some(e));
  }

  /** A search from the home of a key that has found only other keys ends in an unused slot, or at the key. */
  lemma SearchContinues<K, V>(hash: K -> nat, t: Table<K, V>, key: K, n: nat, free: nat)
    requires 0 < |t| && free < |t| && t[free].None? && n <= Dist(|t|, Home(hash, |t|, key), free)
    requires var e := t[Slot(|t|, Home(hash, |t|, key), n)]; e.Some?
    ensures n < Dist(|t|, Home(hash, |t|, key), free)
    ensures Slot(|t|, Slot(|t|, Home(hash, |t|, key), n), 1) == Slot(|t|, Home(hash, |t|, key), n + 1)
  {
  }

  /** The loop of all searches. The result is the slot of the key, or the unused slot where it would go. */
  method Locate<K(==), V>(hash: K -> nat, slots: array<Option<Entry<K, V>>>, key: K) returns (pos: nat, ghost n: nat)
    requires TableOk(hash, slots[..]) && Used(slots[..]) < slots.Length
    ensures n < slots.Length && Probed(hash, slots[..], key, n)
    ensures pos == Slot(slots.Length, Home(hash, slots.Length, key), n)
    ensures slots[pos].None? || slots[pos].value.key == key
    ensures slots[pos].None? ==> forall i :: 0 <= i < slots.Length && slots[i].Some? ==> slots[i].value.key != key
  {
    var cap := slots.Length;
    ghost var t := slots[..];
    ghost var free := UnusedSlot(t);
    pos, n := hash(key) % cap, 0;
    while slots[pos].Some?
      invariant n <= Dist(cap, Home(hash, cap, key), free) && pos == Slot(cap, Home(hash, cap, key), n)
      invariant Probed(hash, t, key, n)
      decreases Dist(cap, Home(hash, cap, key), free) - n
    {
      if slots[pos].value.key == key { return; }
      SearchContinues(hash, t, key, n, free);
      MaskedSlot(cap, pos, 1);
      pos := (pos + 1) % cap;
      n := n + 1;
    }
    forall i | 0 <= i < cap && t[i].Some?
      ensures t[i].value.key != key
    {
      MissAtUnused(hash, t, key, n, i);
    }
  }

  class Growing<K(==), V> {
    const hash: K -> nat
    var slots: array<Option<Entry<K, V>>>
    var len: nat
    ghost var model: map<K, V>

    ghost predicate Valid()
      reads this, slots
    {
      && TableOk(hash, slots[..]) && Represents(slots[..], model)
      && len == Used(slots[..]) == |model| && 10 * len < 7 * slots.Length && 2 <= slots.Length
    }

    constructor (hash: K -> nat)
      ensures Valid() && fresh(slots) && model == map[] && this.hash == hash
    {
      this.hash := hash;
      slots := new Option<Entry<K, V>>[1024](_ => None);
      len, model := 0, map[];
      new;
      UsedAtMost(slots[..]);
    }

    /** `seen_rehash` and `latest_rehash`, with the allocation succeeding. */
    method Rehash(newCap: nat)
      requires Valid() && slots.Length <= newCap
      modifies this`slots, this`len
      ensures Valid() && slots.Length == newCap && fresh(slots) && model == old(model) && len == old(len)
    {
      var before := slots;
      ghost var t := before[..];
      var next := new Option<Entry<K, V>>[newCap](_ => None);
      UsedAtMost(next[..]);
      ghost var done: map<K, V> := map[];
      var n := 0;
      for i := 0 to before.Length
        invariant before[..] == t && next != before && next.Length == newCap
        invariant TableOk(hash, next[..]) && Represents(next[..], done) && Represents(t[..i], done)
        invariant n == Used(next[..]) == Used(t[..i])
      {
        RepresentsMore(t, done, i);
        UsedPrefix(t[..i + 1], i);
        UsedPrefix(t, i + 1);
        assert t[..i + 1][..i] == t[..i] && t[..i + 1][i..] == [t[i]];
        if before[i].Some? {
          var e := before[i].value;
          var pos, probes := Locate(hash, next, e.key);
          NoneAt(next[..], done, e.key, pos);
          NewKeyOk(hash, next[..], done, e, probes);
          ghost var grown := next[..][pos := Some(e)];
          next[pos] := Some(e);
          assert next[..] == grown;
          done := done[e.key := e.value];
          n := n + 1;
        }
      }
      assert t[..before.Length] == t;
      RepresentsOne(t, done, model);
      slots, len := next, n;
    }

    /** Growth before an insertion. */
    method MakeRoom()
      requires Valid()
      modifies this`slots, this`len
      ensures Valid() && model == old(model) && len == old(len) && 10 * (len + 1) < 7 * slots.Length
      ensures slots == old(slots) || fresh(slots)
    {
      if (len + 1) * 10 >= slots.Length * 7 { Rehash(slots.Length * 2); }
    }

    /** `seen_insert_new`; `latest_get` with `create` is the same with a new record as the value. */
    method Add(key: K, v: V) returns (isNew: bool)
      requires Valid()
      modifies this, slots
      ensures Valid() && isNew == (key !in old(model))
      ensures model == if isNew then old(model)[key := v] else old(model)
      ensures slots == old(slots) || fresh(slots)
    {
      MakeRoom();
      var pos, n := Locate(hash, slots, key);
      if slots[pos].Some? { return false; }
      ghost var t := slots[..];
      Absent(t, model, key);
      NewKeyOk(hash, t, model, Entry(key, v), n);
      slots[pos] := Some(Entry(key, v));
      assert slots[..] == t[pos := Some(Entry(key, v))];
      len := len + 1;
      model := model[key := v];
      return true;
    }

    /** `latest_get` without `create`. */
    method Get(key: K) returns (v: Option<V>)
      requires Valid()
      ensures v == if key in model then Some(model[key]) else None
    {
      var pos, n := Locate(hash, slots, key);
      if slots[pos].None? {
        Absent(slots[..], model, key);
        return None;
      }
      return Some(slots[pos].value.value);
    }

    /** Changing a record in place. */
    method Put(key: K, v: V)
      requires Valid() && key in model
      modifies this, slots
      ensures Valid() && model == old(model)[key := v] && slots == old(slots)
    {
      var pos, n := Locate(hash, slots, key);
      ghost var t := slots[..];
      if slots[pos].None? { Absent(t, model, key); }
      InsertKeepsOk(hash, t, Entry(key, v), n);
      InsertRepresents(t, model, Entry(key, v), pos);
      UsedUpdate(t, pos, Some(Entry(key, v)));
      slots[pos] := Some(Entry(key, v));
      assert slots[..] == t[pos := Some(Entry(key, v))];
      model := model[key := v];
    }

    /** `bk_metrics_reset` clears the table in place. */
    method Clear()
      requires Valid()
      modifies this, slots
      ensures Valid() && model == map[] && slots == old(slots)
    {
      for i := 0 to slots.Length
        invariant slots == old(slots) && forall k :: 0 <= k < i ==> slots[k].None?
        modifies slots
      {
        slots[i] := None;
      }
      len, model := 0, map[];
      UsedAtMost(slots[..]);
    }
  }

  lemma Absent<K, V>(t: Table<K, V>, m: map<K, V>, key: K)
    requires Represents(t, m) && forall i :: 0 <= i < |t| && t[i].Some? ==> t[i].value.key != key
    ensures key !in m
  {
    if key in m { HeldSomewhere(t, m, key); }
  }

  lemma HeldSomewhere<K, V>(t: Table<K, V>, m: map<K, V>, key: K)
    requires Represents(t, m) && key in m
    ensures exists i :: 0 <= i < |t| && t[i].Some? && t[i].value.key == key
  {
    assert Some(Entry(key, m[key])) in t;
  }

  lemma NoneAt<K, V>(t: Table<K, V>, m: map<K, V>, key: K, pos: nat)
    requires Represents(t, m) && key !in m && pos < |t| && (t[pos].None? || t[pos].value.key == key)
    ensures t[pos].None?
  {
  }
}
