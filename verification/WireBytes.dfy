/** Little-endian integers, and records of them at fixed offsets, in byte sequences. */
module WireBytes {
  import opened MachineWords

  type Bytes = seq<uint8>

  // ----- one integer -----------------------------------------------------------------------------

  /** How many values w bytes hold. */
  function Bound(w: nat): (n: nat)
    ensures n > 0
  {
    if w == 0 then 1 else 256 * Bound(w - 1)
  }

  /** `store_u16`, `store_u32` and `store_u64`: the low byte first. */
  function Le(v: nat, w: nat): (b: Bytes)
    ensures |b| == w
  {
    if w == 0 then [] else [v % 256] + Le(v / 256, w - 1)
  }

  /** `load_u16`, `load_u32` and `load_u64` */
  function Value(b: Bytes): nat {
    if b == [] then 0 else b[0] + 256 * Value(b[1..])
  }

  lemma {:induction false} ValueOfLe(v: nat, w: nat)
    requires v < Bound(w)
    ensures Value(Le(v, w)) == v
  {
    if w > 0 {
      ValueOfLe(v / 256, w - 1);
      assert Le(v, w)[1..] == Le(v / 256, w - 1);
    }
  }

  lemma {:induction false} LeOfValue(b: Bytes)
    ensures Value(b) < Bound(|b|) && Le(Value(b), |b|) == b
  {
    if b != [] {
      LeOfValue(b[1..]);
      var v := Value(b);
      assert v % 256 == b[0] && v / 256 == Value(b[1..]);
      assert b == [b[0]] + b[1..];
    }
  }

  lemma {:induction false} Bounds()
    ensures Bound(1) == 256 && Bound(2) == TWO_16 && Bound(4) == TWO_32 && Bound(8) == TWO_64
  {
    assert Bound(3) == 256 * Bound(2);
    assert Bound(5) == 256 * Bound(4) && Bound(6) == 256 * Bound(5) && Bound(7) == 256 * Bound(6);
  }

  // ----- a record --------------------------------------------------------------------------------

  /** The bytes of fields with these widths. */
  function Size(widths: seq<nat>): nat {
    if widths == [] then 0 else widths[0] + Size(widths[1..])
  }

  predicate Fit(values: seq<nat>, widths: seq<nat>) {
    |values| == |widths| && forall k :: 0 <= k < |values| ==> values[k] < Bound(widths[k])
  }

  function Pack(values: seq<nat>, widths: seq<nat>): (b: Bytes)
    requires |values| == |widths|
    ensures |b| == Size(widths)
  {
    if values == [] then [] else Le(values[0], widths[0]) + Pack(values[1..], widths[1..])
  }

  function Unpack(b: Bytes, widths: seq<nat>): (values: seq<nat>)
    requires Size(widths) <= |b|
    ensures |values| == |widths|
    decreases |widths|
  {
    if widths == [] then [] else [Value(b[..widths[0]])] + Unpack(b[widths[0]..], widths[1..])
  }

  lemma {:induction false} UnpackFirst(first: Bytes, tail: Bytes, widths: seq<nat>)
    requires widths != [] && |first| == widths[0] && Size(widths[1..]) <= |tail|
    ensures Unpack(first + tail, widths) == [Value(first)] + Unpack(tail, widths[1..])
  {
    assert (first + tail)[..|first|] == first && (first + tail)[|first|..] == tail;
  }

  /** Fields that were written are read as they were. */
  lemma {:induction false} UnpackPacked(values: seq<nat>, widths: seq<nat>, rest: Bytes)
    requires Fit(values, widths)
    ensures Unpack(Pack(values, widths) + rest, widths) == values
    decreases |values|
  {
    if values != [] {
      FitTail(values, widths);
      ValueOfLe(values[0], widths[0]);
      var first, others := Le(values[0], widths[0]), Pack(values[1..], widths[1..]);
      UnpackPacked(values[1..], widths[1..], rest);
      assert Pack(values, widths) + rest == first + (others + rest);
      UnpackFirst(first, others + rest, widths);
      assert [values[0]] + values[1..] == values;
    }
  }

  lemma {:induction false} FitTail(values: seq<nat>, widths: seq<nat>)
    requires Fit(values, widths) && values != []
    ensures values[0] < Bound(widths[0]) && Fit(values[1..], widths[1..])
  {
  }

  /** Fields that were read are written as they were. */
  lemma {:induction false} PackUnpacked(b: Bytes, widths: seq<nat>)
    requires Size(widths) <= |b|
    ensures Fit(Unpack(b, widths), widths) && Pack(Unpack(b, widths), widths) == b[..Size(widths)]
    decreases |widths|
  {
    if widths != [] {
      var w, tail := widths[0], b[widths[0]..];
      LeOfValue(b[..w]);
      PackUnpacked(tail, widths[1..]);
      var values := Unpack(b, widths);
      assert values[1..] == Unpack(tail, widths[1..]);
      assert forall k :: 0 < k < |values| ==> values[k] == values[1..][k - 1] && widths[k] == widths[1..][k - 1];
      assert b[..Size(widths)] == b[..w] + tail[..Size(widths[1..])];
    }
  }

  /** A record with one more field at its end. */
  lemma {:induction false} PackAppend(values: seq<nat>, widths: seq<nat>, v: nat, w: nat)
    requires |values| == |widths|
    ensures Pack(values + [v], widths + [w]) == Pack(values, widths) + Le(v, w)
    decreases |values|
  {
    var vs, ws := values + [v], widths + [w];
    if values == [] {
      assert vs == [v] && ws == [w] && vs[1..] == [] && ws[1..] == [];
      assert Pack(vs, ws) == Le(v, w) + Pack([], []);
    } else {
      assert vs[1..] == values[1..] + [v] && ws[1..] == widths[1..] + [w];
      PackAppend(values[1..], widths[1..], v, w);
    }
  }

  lemma {:induction false} SizeAppend(widths: seq<nat>, w: nat)
    ensures Size(widths + [w]) == Size(widths) + w
  {
    if widths == [] {
      assert (widths + [w])[1..] == [];
    } else {
      assert (widths + [w])[1..] == widths[1..] + [w];
      SizeAppend(widths[1..], w);
    }
  }
}
