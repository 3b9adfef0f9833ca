/** Serial number arithmetic of section 3.2 of RFC 1982, as `seq16_after` and `seq32_after` use it.
    A wrapped number stands for an unbounded one; the comparison is right for unbounded numbers
    that are less than half the number space apart. */
module SerialNumbers {
  import opened MachineWords

  const HALF_16: int := 0x8000
  const HALF_32: int := 0x8000_0000

  function Wrap16(n: int): uint16 { n % TWO_16 }

  function Wrap32(n: int): uint32 { n % TWO_32 }

  /** Subtraction in the unsigned type of the operands. */
  function Sub16(a: uint16, b: uint16): uint16 { (a - b) % TWO_16 }

  function Sub32(a: uint32, b: uint32): uint32 { (a - b) % TWO_32 }

  predicate Seq16After(a: uint16, b: uint16) {
    a != b && Sub16(a, b) < HALF_16
  }

  predicate Seq32After(a: uint32, b: uint32) {
    a != b && Sub32(a, b) < HALF_32
  }

  lemma Sub32Exact(x: int, y: int)
    ensures Sub32(Wrap32(x), Wrap32(y)) == (x - y) % TWO_32
    ensures 0 <= x - y < TWO_32 ==> Sub32(Wrap32(x), Wrap32(y)) == x - y
    ensures -TWO_32 <= x - y < 0 ==> Sub32(Wrap32(x), Wrap32(y)) == x - y + TWO_32
  {
    var qx, qy := x / TWO_32, y / TWO_32;
    assert x == qx * TWO_32 + Wrap32(x);
    assert y == qy * TWO_32 + Wrap32(y);
  }

  /** Wrapped comparison decides the order of unbounded numbers less than 2^31 apart. */
  lemma After32Exact(x: int, y: int)
    requires -HALF_32 <= x - y < HALF_32
    ensures Seq32After(Wrap32(x), Wrap32(y)) <==> x > y
    ensures Wrap32(x) == Wrap32(y) <==> x == y
  {
    Sub32Exact(x, y);
  }

  /** The same for numbers that have not wrapped. */
  lemma After32Plain(a: uint32, b: uint32)
    requires -HALF_32 <= a - b < HALF_32
    ensures Seq32After(a, b) <==> a > b
    ensures a >= b ==> Sub32(a, b) == a - b
  {
  }

  lemma Sub16Exact(x: int, y: int)
    ensures Sub16(Wrap16(x), Wrap16(y)) == (x - y) % TWO_16
    ensures 0 <= x - y < TWO_16 ==> Sub16(Wrap16(x), Wrap16(y)) == x - y
    ensures -TWO_16 <= x - y < 0 ==> Sub16(Wrap16(x), Wrap16(y)) == x - y + TWO_16
  {
    var qx, qy := x / TWO_16, y / TWO_16;
    assert x == qx * TWO_16 + Wrap16(x);
    assert y == qy * TWO_16 + Wrap16(y);
  }

  /** The same for 16 bits: exact for unbounded numbers less than 2^15 apart. */
  lemma After16Exact(x: int, y: int)
    requires -HALF_16 <= x - y < HALF_16
    ensures Seq16After(Wrap16(x), Wrap16(y)) <==> x > y
    ensures Wrap16(x) == Wrap16(y) <==> x == y
  {
    Sub16Exact(x, y);
  }

  lemma Wrap16Injective(x: int, y: int)
    requires -TWO_16 < x - y < TWO_16
    ensures Wrap16(x) == Wrap16(y) <==> x == y
  {
  }

  /** `++n` on a uint16_t. */
  function Inc16(n: uint16): uint16 { if n == TWO_16 - 1 then 0 else n + 1 }

  lemma Inc16Wraps(n: int)
    ensures Inc16(Wrap16(n)) == Wrap16(n + 1)
  {
  }
}
