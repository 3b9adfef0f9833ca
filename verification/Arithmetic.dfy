/** Multiplication, division and remainder. */
module Arithmetic {
  lemma SameResidue(a: nat, b: nat, d: nat)
    requires 0 < d && b < a && a % d == b % d
    ensures d <= a - b && (a - b) % d == 0
  {
    var qa, qb := a / d, b / d;
    assert a == qa * d + a % d && b == qb * d + b % d;
    assert a - b == (qa - qb) * d by { Distribute(qa, qb, d); }
    if qa <= qb {
      NonPositive(qa - qb, d);
    } else {
      AtLeast(qa - qb, d);
      MultipleHasNoResidue(qa - qb, d);
    }
  }

  lemma Distribute(a: int, b: int, d: int)
    ensures a * d - b * d == (a - b) * d
  {
  }

  lemma NonPositive(a: int, d: nat)
    requires a <= 0
    ensures a * d <= 0
  {
  }

  lemma AtLeast(k: nat, d: nat)
    requires 1 <= k
    ensures d <= k * d
  {
    assert k * d == (k - 1) * d + d;
  }

  lemma {:induction false} MultipleHasNoResidue(k: nat, d: nat)
    requires 0 < d
    ensures (k * d) % d == 0
  {
    if k > 0 {
      MultipleHasNoResidue(k - 1, d);
      assert k * d == (k - 1) * d + d;
      AddModulus((k - 1) * d, d);
    }
  }

  lemma AddModulus(a: nat, d: nat)
    requires 0 < d
    ensures (a + d) % d == a % d
  {
    var q := a / d;
    assert a == q * d + a % d;
    UniqueResidue(a + d, q + 1, a % d, d);
  }

  /** Quotient and remainder are unique. */
  lemma UniqueResidue(a: int, q: int, r: nat, d: nat)
    requires r < d && a == q * d + r
    ensures a % d == r && a / d == q
  {
    var q', r' := a / d, a % d;
    assert a == q' * d + r';
    assert (q - q') * d == r' - r by { Distribute(q, q', d); }
    if q > q' {
      AtLeast(q - q', d);
    } else if q < q' {
      AtLeast(q' - q, d);
      Distribute(q', q, d);
    }
  }

  /** a minus a multiple of d leaves the residue of a. */
  lemma ResidueOfDifference(a: nat, m: nat, d: nat)
    requires 0 < d && m <= a && (a - m) % d == 0 && m < d
    ensures a % d == m
  {
    var q := (a - m) / d;
    assert a - m == q * d + (a - m) % d;
    UniqueResidue(a, q, m, d);
  }

  lemma Monotone(a: int, b: int, d: nat)
    requires a <= b
    ensures a * d <= b * d
  {
    if a < b { assert b * d == a * d + (b - a) * d; }
  }

  /** A step inside one turn of the modulus. */
  lemma ResidueStep(a: nat, k: nat, d: nat)
    requires 0 < d && a % d + k < d
    ensures (a + k) % d == a % d + k && (a + k) / d == a / d
  {
    assert a == a / d * d + a % d;
    UniqueResidue(a + k, a / d, a % d + k, d);
  }

  /** The remainder of a sum depends on the remainders only. */
  lemma ResidueOfSum(a: nat, k: nat, d: nat)
    requires 0 < d
    ensures (a % d + k) % d == (a + k) % d
  {
    var q, r := a / d, a % d;
    assert a == q * d + r;
    var q2, r2 := (r + k) / d, (r + k) % d;
    assert r + k == q2 * d + r2;
    assert (q + q2) * d == q * d + q2 * d;
    UniqueResidue(a + k, q + q2, r2, d);
  }
}
