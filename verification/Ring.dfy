/** `rudp_ring`: a queue of message indices in a circular array, which holds one index fewer than it has
    places. Its operations are those on sequences that the model of the sender uses. */
module Ring {
  import opened MachineWords
  import opened CircularIndex
  import opened MessagePool

  /** The message has at least this priority. */
  predicate AtLeast(msgs: seq<Msg>, v: nat, p: nat) { v < |msgs| && msgs[v].priority >= p }

  /** The first message of lower priority decides where a message goes. */
  lemma {:induction false} InsertAtFirstLower(msgs: seq<Msg>, s: seq<nat>, v: nat, n: nat)
    requires v < |msgs| && (forall i :: 0 <= i < |s| ==> s[i] < |msgs|) && n <= |s|
    requires forall i :: 0 <= i < n ==> AtLeast(msgs, s[i], msgs[v].priority)
    requires n < |s| ==> !AtLeast(msgs, s[n], msgs[v].priority)
    ensures InsertByPriority(msgs, s, v) == s[..n] + [v] + s[n..]
  {
    if n > 0 {
      InsertAtFirstLower(msgs, s[1..], v, n - 1);
      assert s[..n] == [s[0]] + s[1..][..n - 1];
    }
  }

  lemma {:induction false} RemovedAt(s: seq<nat>, v: nat, n: nat)
    requires n < |s| && s[n] == v && forall k :: 0 <= k < n ==> s[k] != v
    ensures Removed(s, v) == s[..n] + s[n + 1..]
  {
    if n > 0 {
      RemovedAt(s[1..], v, n - 1);
    }
  }

  /** The ring in the middle of a turn: what is still to come, what passed before `place`, and the rest. */
  function Turning(s: seq<nat>, i: nat, place: nat, rest: seq<nat>): (r: seq<nat>)
    requires place <= i <= |s|
    ensures |r| == |s| - i + place + |rest|
  {
    s[i..] + s[..place] + rest
  }

  /** The next element passes. */
  lemma TurnNext(s: seq<nat>, i: nat, place: nat, rest: seq<nat>)
    requires place <= i < |s|
    ensures Turning(s, i, place, rest)[0] == s[i]
    ensures Turning(s, i, place, rest)[1..] + [s[i]] == Turning(s, i + 1, place, rest + [s[i]])
    ensures place == i && rest == [] ==> Turning(s, i, place, rest)[1..] + [s[i]] == Turning(s, i + 1, i + 1, [])
  {
    assert s[i..] == [s[i]] + s[i + 1..];
  }

  /** The next element passes behind a new one. */
  lemma TurnInserts(s: seq<nat>, i: nat, v: nat)
    requires i < |s|
    ensures Turning(s, i, i, [])[1..] + [v] + [s[i]] == Turning(s, i + 1, i, [v] + s[i..i + 1])
  {
    assert s[i..] == [s[i]] + s[i + 1..];
    assert s[i..i + 1] == [s[i]];
  }

  /** The next element is dropped. */
  lemma TurnDrops(s: seq<nat>, i: nat)
    requires i < |s|
    ensures Turning(s, i, i, [])[0] == s[i]
    ensures Turning(s, i, i, [])[1..] == Turning(s, i + 1, i, s[i + 1..i + 1])
  {
    assert s[i..] == [s[i]] + s[i + 1..];
  }

  lemma SliceGrows(s: seq<nat>, a: nat, i: nat)
    requires a <= i < |s|
    ensures s[a..i] + [s[i]] == s[a..i + 1]
  {
  }

  /** A turn that dropped the first v, or found none. */
  lemma {:induction false} TurnRemoved(s: seq<nat>, v: nat, place: nat, removed: bool)
    requires place <= |s| && forall k :: 0 <= k < place ==> s[k] != v
    requires if removed then place < |s| && s[place] == v else place == |s|
    ensures Turning(s, |s|, place, if removed then s[place + 1..] else []) == Removed(s, v)
    ensures removed == (v in s)
  {
    FullTurn(s, place, if removed then s[place + 1..] else []);
    if removed {
      RemovedAt(s, v, place);
    } else {
      assert s[..place] == s && v !in s;
    }
  }

  /** After a full turn. */
  lemma FullTurn(s: seq<nat>, place: nat, rest: seq<nat>)
    requires place <= |s|
    ensures Turning(s, |s|, place, rest) == s[..place] + rest
  {
    assert s[|s|..] == [];
  }

  lemma InsertedTurn(s: seq<nat>, place: nat, v: nat)
    requires place <= |s|
    ensures Turning(s, |s|, place, [v] + s[place..|s|]) == s[..place] + [v] + s[place..]
  {
    FullTurn(s, place, [v] + s[place..]);
  }

  class Ring {
    const items: array<nat>
    var head: nat
    var tail: nat
    var count: nat

    ghost predicate Valid()
      reads this
    {
      && head < items.Length && count < items.Length && tail == Slot(items.Length, head, count)
    }

    /** The queued indices, first to be popped first. */
    ghost function Contents(): (s: seq<nat>)
      requires Valid()
      reads this, items
      ensures |s| == count
    {
      seq(count, i requires 0 <= i < count reads this, items requires Valid() => items[Slot(items.Length, head, i)])
    }

    /** `ring_bind` */
    constructor (cap: nat)
      requires 0 < cap
      ensures Valid() && fresh(items) && items.Length == cap && Contents() == []
    {
      items := new nat[cap](_ => 0);
      head, tail, count := 0, 0, 0;
    }

    /** `ring_push`: one place always stays empty. */
    method Push(v: nat) returns (ok: bool)
      requires Valid()
      modifies this`tail, this`count, items
      ensures Valid() && head == old(head)
      ensures ok <==> old(count) + 1 < items.Length
      ensures Contents() == if ok then old(Contents()) + [v] else old(Contents())
    {
      if count + 1 >= items.Length { return false; }
      items[tail] := v;
      MaskedSlot(items.Length, tail, 1);
      tail := (tail + 1) % items.Length;
      count := count + 1;
      return true;
    }

    /** `ring_push_front` */
    method PushFront(v: nat) returns (ok: bool)
      requires Valid()
      modifies this`head, this`count, items
      ensures Valid() && ok == (old(count) + 1 < items.Length)
      ensures Contents() == if ok then [v] + old(Contents()) else old(Contents())
    {
      if count + 1 >= items.Length { return false; }
      ghost var before := Contents();
      MaskedSlot(items.Length, head, items.Length - 1);
      head := (head + items.Length - 1) % items.Length;
      items[head] := v;
      count := count + 1;
      assert Contents()[1..] == before;
      return true;
    }

    /** `ring_peek` */
    method Peek() returns (v: Option<nat>)
      requires Valid()
      ensures v == if Contents() == [] then None else Some(Contents()[0])
    {
      if count == 0 { return None; }
      return Some(items[head]);
    }

    /** `ring_pop` */
    method Pop() returns (v: Option<nat>)
      requires Valid()
      modifies this`head, this`count
      ensures Valid()
      ensures old(Contents()) == [] ==> v == None && Contents() == []
      ensures old(Contents()) != [] ==> v == Some(old(Contents())[0]) && Contents() == old(Contents())[1..]
    {
      if count == 0 { return None; }
      v := Some(items[head]);
      MaskedSlot(items.Length, head, 1);
      head := (head + 1) % items.Length;
      count := count - 1;
    }

    /** The front goes to the back, behind v if that is to go in now. */
    method PassFront(v: nat, push: bool)
      requires Valid() && 0 < count && (push ==> count + 1 < items.Length)
      modifies this, items
      ensures Valid() && count == old(count) + (if push then 1 else 0)
      ensures Contents() == old(Contents())[1..] + (if push then [v] else []) + [old(Contents())[0]]
    {
      var first := Pop();
      if push { var _ := Push(v); }
      var _ := Push(first.value);
    }

    /** In the turn of `PushPriority`: i of the indices s have passed, and v is in if one below its priority has. */
    ghost predicate Inserting(msgs: seq<Msg>, v: nat, s: seq<nat>, i: nat, place: nat, inserted: bool)
      reads this, items
    {
      && Valid() && v < |msgs| && (forall k :: 0 <= k < |s| ==> s[k] < |msgs|)
      && place <= i <= |s| && count == |s| + (if inserted then 1 else 0)
      && (if inserted then place < i && !AtLeast(msgs, s[place], msgs[v].priority) else place == i)
      && (forall k :: 0 <= k < place ==> AtLeast(msgs, s[k], msgs[v].priority))
      && Contents() == Turning(s, i, place, if inserted then [v] + s[place..i] else [])
    }

    /** The body of the loop of `ring_push_priority`. */
    method InsertStep(msgs: seq<Msg>, v: nat, inserted: bool, ghost s: seq<nat>, ghost i: nat, ghost place: nat)
      returns (done: bool, ghost at: nat)
      requires i < |s| && Inserting(msgs, v, s, i, place, inserted) && |s| + 1 < items.Length
      modifies this, items
      ensures Inserting(msgs, v, s, i + 1, at, done)
    {
      TurnNext(s, i, place, if inserted then [v] + s[place..i] else []);
      TurnInserts(s, i, v);
      var front := Peek();
      assert front == Some(s[i]);
      done := inserted || msgs[v].priority > msgs[front.value].priority;
      PassFront(v, done && !inserted);
      if inserted {
        assert [v] + s[place..i] + [s[i]] == [v] + s[place..i + 1];
      }
      at := if done then place else i + 1;
    }

    /** The loop of `ring_push_priority`. */
    method InsertTurn(msgs: seq<Msg>, v: nat, n: nat, ghost s: seq<nat>) returns (inserted: bool, ghost place: nat)
      requires n == |s| && |s| + 1 < items.Length && Inserting(msgs, v, s, 0, 0, false)
      modifies this, items
      ensures Inserting(msgs, v, s, |s|, place, inserted)
    {
      inserted, place := false, 0;
      var i: nat := 0;
      while i < n
        invariant i <= n && Inserting(msgs, v, s, i, place, inserted)
      {
        inserted, place := InsertStep(msgs, v, inserted, s, i, place);
        i := i + 1;
      }
    }

    /** `ring_push_priority`, by one turn of the ring. */
    method PushPriority(msgs: seq<Msg>, v: nat) returns (ok: bool)
      requires Valid() && v < |msgs| && forall i :: 0 <= i < |Contents()| ==> Contents()[i] < |msgs|
      modifies this, items
      ensures Valid() && ok == (old(count) + 1 < items.Length)
      ensures Contents() == if ok then InsertByPriority(msgs, old(Contents()), v) else old(Contents())
    {
      if count + 1 >= items.Length { return false; }
      ghost var s := Contents();
      if msgs[v].priority == 0 {
        InsertAtFirstLower(msgs, s, v, count);
        ok := Push(v);
        assert s[..|s|] + [v] + s[|s|..] == s + [v];
        return;
      }
      assert Turning(s, 0, 0, []) == s;
      var inserted; ghost var place;
      inserted, place := InsertTurn(msgs, v, count, s);
      InsertAtFirstLower(msgs, s, v, place);
      if inserted {
        InsertedTurn(s, place, v);
      } else {
        FullTurn(s, place, []);
        assert s[..place] == s && s[place..] == [];
        var _ := Push(v);
      }
      return true;
    }

    /** In the turn of `RemoveValue`: i of the indices s have passed, the first v among them was dropped. */
    ghost predicate Removing(v: nat, s: seq<nat>, i: nat, place: nat, removed: bool)
      reads this, items
    {
      && Valid() && place <= i <= |s| && count + (if removed then 1 else 0) == |s| < items.Length
      && (if removed then place < i && s[place] == v else place == i)
      && (forall k :: 0 <= k < place ==> s[k] != v)
      && Contents() == Turning(s, i, place, if removed then s[place + 1..i] else [])
    }

    /** The body of the loop of `ring_remove_value`. */
    method RemoveStep(v: nat, removed: bool, ghost s: seq<nat>, ghost i: nat, ghost place: nat)
      returns (done: bool, ghost at: nat)
      requires i < |s| && Removing(v, s, i, place, removed)
      modifies this, items
      ensures Removing(v, s, i + 1, at, done)
    {
      TurnNext(s, i, place, if removed then s[place + 1..i] else []);
      TurnDrops(s, i);
      var first := Pop();
      assert first == Some(s[i]);
      if !removed && first.value == v {
        return true, place;
      }
      var _ := Push(first.value);
      if removed { SliceGrows(s, place + 1, i); }
      return removed, if removed then place else i + 1;
    }

    /** `ring_remove_value`, by one turn of the ring. */
    method RemoveValue(v: nat) returns (removed: bool)
      requires Valid()
      modifies this, items
      ensures Valid() && removed == (v in old(Contents()))
      ensures Contents() == Removed(old(Contents()), v)
    {
      ghost var s := Contents();
      var n := count;
      removed := false;
      ghost var place := 0;
      var i := 0;
      while i < n
        invariant i <= n && Removing(v, s, i, place, removed)
      {
        removed, place := RemoveStep(v, removed, s, i, place);
        i := i + 1;
      }
      assert removed ==> s[place + 1..n] == s[place + 1..];
      TurnRemoved(s, v, place, removed);
    }
  }
}
