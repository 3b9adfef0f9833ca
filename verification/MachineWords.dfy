/** Machine integers of the C and Go sources.
    Unsigned integers are ranges of `int`, so every truncation is written out at the place where
    the source truncates. A 64-bit word that the source uses as a bitmap is the sequence of its
    bits, least significant first; the operators below are the bitwise C operators on it. */
module MachineWords {
  const TWO_16: int := 0x1_0000
  const TWO_32: int := 0x1_0000_0000
  const TWO_64: int := 0x1_0000_0000_0000_0000
  const UINT32_MAX: int := TWO_32 - 1
  const UINT64_MAX: int := TWO_64 - 1

  type uint8 = x: int | 0 <= x < 256
  type uint16 = x: int | 0 <= x < TWO_16
  type uint32 = x: int | 0 <= x < TWO_32
  type uint64 = x: int | 0 <= x < TWO_64

  type Word64 = s: seq<bool> | |s| == 64 witness seq(64, _ => false)

  datatype Option<+T> = None | Some(value: T)

  function ZeroWord(): (w: Word64)
    ensures forall i :: 0 <= i < 64 ==> !w[i]
  {
    seq(64, _ => false)
  }

  /** `1ull << k`; C leaves shifts by 64 or more undefined, hence the bound. */
  function OneBit(k: nat): (w: Word64)
    requires k < 64
    ensures forall i :: 0 <= i < 64 ==> (w[i] <==> i == k)
  {
    seq(64, i => i == k)
  }

  /** `a | b` */
  function Or(a: Word64, b: Word64): (w: Word64)
    ensures forall i :: 0 <= i < 64 ==> (w[i] <==> a[i] || b[i])
  {
    seq(64, i requires 0 <= i < 64 => a[i] || b[i])
  }

  /** `a & b` */
  function And(a: Word64, b: Word64): (w: Word64)
    ensures forall i :: 0 <= i < 64 ==> (w[i] <==> a[i] && b[i])
  {
    seq(64, i requires 0 <= i < 64 => a[i] && b[i])
  }

  /** `a << k` */
  function ShiftLeft(a: Word64, k: nat): (w: Word64)
    requires k < 64
    ensures forall i :: 0 <= i < 64 ==> (w[i] <==> i >= k && a[i - k])
  {
    seq(64, i requires 0 <= i < 64 => i >= k && a[i - k])
  }

  /** `a >> k` */
  function ShiftRight(a: Word64, k: nat): (w: Word64)
    requires k < 64
    ensures forall i :: 0 <= i < 64 ==> (w[i] <==> i + k < 64 && a[i + k])
  {
    seq(64, i requires 0 <= i < 64 => i + k < 64 && a[i + k])
  }

  /** `a != 0` */
  predicate NonZero(a: Word64) {
    exists i :: 0 <= i < 64 && a[i]
  }

  /** Number of set bits, `bits.OnesCount64`. */
  function OnesCount(s: seq<bool>): (n: nat)
    ensures n <= |s|
  {
    if s == [] then 0 else (if s[0] then 1 else 0) + OnesCount(s[1..])
  }

  lemma {:induction false} OnesCountConcat(a: seq<bool>, b: seq<bool>)
    ensures OnesCount(a + b) == OnesCount(a) + OnesCount(b)
  {
    if a == [] {
      assert a + b == b;
    } else {
      assert (a + b)[1..] == a[1..] + b;
      OnesCountConcat(a[1..], b);
    }
  }

  /** Setting one clear bit raises the count by one. */
  lemma {:induction false} OnesCountSet(s: seq<bool>, k: nat)
    requires k < |s| && !s[k]
    ensures OnesCount(s[k := true]) == OnesCount(s) + 1
  {
    if k == 0 {
      assert s[0 := true][1..] == s[1..];
    } else {
      assert s[k := true][1..] == s[1..][k - 1 := true];
      OnesCountSet(s[1..], k - 1);
    }
  }

  /** As many set bits below a bound as positions: all of them are set. */
  lemma {:induction false} OnesCountFull(s: seq<bool>, n: nat)
    requires n <= |s|
    requires forall i :: n <= i < |s| ==> !s[i]
    ensures OnesCount(s) <= n
    ensures OnesCount(s) == n ==> forall i :: 0 <= i < n ==> s[i]
  {
    if s != [] {
      var t := s[1..];
      if n == 0 {
        assert forall i :: 0 <= i < |t| ==> t[i] == s[i + 1];
        OnesCountFull(t, 0);
      } else {
        assert forall i :: 0 <= i < |t| ==> t[i] == s[i + 1];
        OnesCountFull(t, n - 1);
        if OnesCount(s) == n {
          forall i | 0 <= i < n
            ensures s[i]
          {
            if i > 0 { assert t[i - 1]; }
          }
        }
      }
    }
  }

  lemma {:induction false} OnesCountFalse(s: seq<bool>)
    requires forall i :: 0 <= i < |s| ==> !s[i]
    ensures OnesCount(s) == 0
  {
    if s != [] {
      OnesCountFalse(s[1..]);
    }
  }
}
