/** Powers of two, and which of them divide which. */
module PowersOfTwo {
  import opened MachineWords
  import opened Arithmetic

  predicate PowerOfTwo(n: nat) {
    n == 1 || (0 < n && n % 2 == 0 && PowerOfTwo(n / 2))
  }

  lemma Regrouped(a: nat, b: nat, d: nat)
    ensures a * (b * d) == a * b * d && 0 <= a * b
  {
  }

  lemma {:induction false} PowersMultiply(a: nat, b: nat)
    requires PowerOfTwo(a) && PowerOfTwo(b)
    ensures 0 <= a * b && PowerOfTwo(a * b)
  {
    if a != 1 {
      var h: nat := a / 2;
      PowersMultiply(h, b);
      var p := h * b;
      assert a * b == 2 * p by {
        assert a == 2 * h;
        Regrouped(2, h, b);
      }
      assert (2 * p) / 2 == p && (2 * p) % 2 == 0;
    }
  }

  lemma {:induction false} WordSizeIsPower()
    ensures PowerOfTwo(TWO_32) && PowerOfTwo(TWO_64)
  {
    assert PowerOfTwo(2) && PowerOfTwo(4);
    PowersMultiply(4, 4);
    PowersMultiply(16, 16);
    PowersMultiply(256, 256);
    PowersMultiply(TWO_16, TWO_16);
    PowersMultiply(TWO_32, TWO_32);
  }

  /** Of two powers of two the smaller divides the larger. */
  lemma {:induction false} PowerDivides(a: nat, b: nat)
    requires PowerOfTwo(a) && PowerOfTwo(b) && a <= b
    ensures b % a == 0
    ensures a < b ==> 2 * a <= b
  {
    if a != 1 {
      if b != 1 {
        PowerDivides(a / 2, b / 2);
        var q := b / 2 / (a / 2);
        assert b / 2 == q * (a / 2) + b / 2 % (a / 2);
        assert b == q * a;
        UniqueResidue(b, q, 0, a);
      }
    }
  }
}
