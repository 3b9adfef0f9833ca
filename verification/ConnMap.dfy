/** The connection table of an endpoint, `conn_map`: a hash table with backward-shift deletion. */
module ConnMap {
  import opened MachineWords
  import opened CircularIndex
  import opened OpenAddressing

  class ConnTable {
    const table: array<Option<Entry<uint64, uint32>>>
    const hash: uint64 -> nat
    ghost var model: map<uint64, uint32>

    ghost predicate Valid()
      reads this, table
    {
      TableOk(hash, table[..]) && Represents(table[..], model)
    }

    constructor (capacity: nat, hash: uint64 -> nat)
      requires 0 < capacity
      ensures Valid() && fresh(table) && table.Length == capacity && model == map[] && this.hash == hash
    {
      this.hash := hash;
      table := new Option<Entry<uint64, uint32>>[capacity](_ => None);
      model := map[];
    }

    /** `conn_map_lookup`; id 0 is no connection. */
    method Lookup(id: uint64) returns (found: bool, index: uint32)
      requires Valid()
      ensures found <==> id != 0 && id in model
      ensures found ==> index == model[id]
    {
      found, index := false, 0;
      if id == 0 { return; }
      var cap := table.Length;
      var pos := hash(id) % cap;
      ghost var t := table[..];
      var probe := 0;
      while probe < cap
        invariant 0 <= probe <= cap && Probed(hash, t, id, probe)
      {
        MaskedSlot(cap, pos, probe);
        var e := table[(pos + probe) % cap];
        assert e == t[Slot(cap, pos, probe)];
        if e.None? {
          forall i: nat | i < |t| && t[i].Some?
            ensures t[i].value.key != id
          {
            MissAtUnused(hash, t, id, probe, i);
          }
          return;
        }
        if e.value.key == id { return true, e.value.value; }
        probe := probe + 1;
      }
      forall i: nat | i < |t|
        ensures t[i].Some? && t[i].value.key != id
      {
        MissAfterAll(hash, t, id, i);
      }
    }

    /** `conn_map_insert` fails only for id 0, or if the table is full and the key is new. */
    method Insert(id: uint64, index: uint32) returns (ok: bool)
      requires Valid()
      modifies this, table
      ensures Valid()
      ensures ok ==> model == old(model)[id := index]
      ensures !ok ==> model == old(model) && table[..] == old(table[..])
      ensures ok <==> id != 0 && (id in old(model) || exists i :: 0 <= i < table.Length && old(table[i]).None?)
    {
      if id == 0 { return false; }
      var cap := table.Length;
      var pos := hash(id) % cap;
      ghost var t := table[..];
      var probe := 0;
      while probe < cap
        invariant 0 <= probe <= cap && Probed(hash, t, id, probe)
        invariant table[..] == t && model == old(model)
      {
        MaskedSlot(cap, pos, probe);
        var p := (pos + probe) % cap;
        var e := table[p];
        assert e == t[Slot(cap, pos, probe)];
        if e.None? || e.value.key == id {
          InsertKeepsOk(hash, t, Entry(id, index), probe);
          forall i: nat | i < |t| && i != p && t[i].Some?
            ensures t[i].value.key != id
          {
            if e.None? { MissAtUnused(hash, t, id, probe, i); }
          }
          InsertRepresents(t, model, Entry(id, index), p);
          table[p] := Some(Entry(id, index));
          model := model[id := index];
          assert table[..] == t[p := Some(Entry(id, index))];
          return true;
        }
        probe := probe + 1;
      }
      forall i: nat | i < |t|
        ensures t[i].Some? && t[i].value.key != id
      {
        MissAfterAll(hash, t, id, i);
      }
      return false;
    }

    /** The search of `conn_map_remove`. */
    method Find(id: uint64) returns (p: int)
      requires Valid()
      ensures p < table.Length
      ensures 0 <= p ==> table[p].Some? && table[p].value.key == id
      ensures p < 0 ==> id !in model
    {
      var cap := table.Length;
      var pos := hash(id) % cap;
      ghost var t := table[..];
      var probe := 0;
      while probe < cap
        invariant 0 <= probe <= cap && Probed(hash, t, id, probe)
      {
        MaskedSlot(cap, pos, probe);
        var i := (pos + probe) % cap;
        var e := table[i];
        assert e == t[Slot(cap, pos, probe)];
        if e.None? {
          forall j: nat | j < |t| && t[j].Some?
            ensures t[j].value.key != id
          {
            MissAtUnused(hash, t, id, probe, j);
          }
          return -1;
        }
        if e.value.key == id { return i; }
        probe := probe + 1;
      }
      forall i: nat | i < |t|
        ensures t[i].Some? && t[i].value.key != id
      {
        MissAfterAll(hash, t, id, i);
      }
      return -1;
    }

    /** `conn_map_remove`: backward-shift deletion. The `for (;;)` ends, in a full table too. */
    method Remove(id: uint64)
      requires Valid()
      modifies this, table
      ensures Valid() && model == (if id == 0 then old(model) else old(model) - {id})
    {
      if id == 0 { return; }
      var hole := Find(id);
      if hole < 0 {
        assert model - {id} == model;
        return;
      }
      var cap := table.Length;
      ghost var before := table[..];
      EmptiedShifting(hash, before, hole);
      EmptyRepresents(before, model, hole);
      table[hole] := None;
      model := model - {id};
      assert table[..] == before[hole := None];
      var i := hole;
      while true
        invariant 0 <= hole < cap && 0 <= i < cap
        invariant Shifting(hash, table[..], hole, i) && Represents(table[..], model)
        invariant model == old(model) - {id}
        decreases Displacement(hash, cap, table[..], 0), cap - Dist(cap, hole, i)
      {
        ghost var t := table[..];
        MaskedSlot(cap, i, 1);
        var n := (i + 1) % cap;
        if table[n].None? {
          ShiftDone(hash, t, hole, i);
          return;
        }
        var home := hash(table[n].value.key) % cap;
        MaskedDist(cap, home, hole);
        MaskedDist(cap, home, n);
        if (hole - home) % cap <= (n - home) % cap {
          SameDist(cap, home, hole, n);
          ShiftMoves(hash, t, hole, n);
          MoveRepresents(t, model, hole, n);
          MoveDescends(hash, t, hole, n);
          table[hole] := table[n];
          table[n] := None;
          assert table[..] == t[hole := t[n]][n := None];
          hole := n;
        } else {
          ShiftPasses(hash, t, hole, i);
        }
        i := n;
      }
    }
  }
}
