/** Positions in a buffer that is used as a ring: rings of message indices, open-addressing tables. */
module CircularIndex {
  import opened Arithmetic

  /** Probes from slot a to slot b. */
  function Dist(cap: nat, a: nat, b: nat): (d: nat)
    requires a < cap && b < cap
    ensures d < cap
  {
    if a <= b then b - a else b - a + cap
  }

  /** The slot d probes after slot a. */
  function Slot(cap: nat, a: nat, d: nat): (s: nat)
    requires a < cap && d <= cap
    ensures s < cap
  {
    if a + d < cap then a + d else a + d - cap
  }

  /** The masked subtraction and addition of the source. */
  lemma MaskedDist(cap: nat, a: nat, b: nat)
    requires a < cap && b < cap
    ensures (b - a) % cap == Dist(cap, a, b)
  {
    OneTurn(b - a, cap);
  }

  lemma MaskedSlot(cap: nat, a: nat, d: nat)
    requires a < cap && d <= cap
    ensures (a + d) % cap == Slot(cap, a, d)
  {
    OneTurn(a + d - cap, cap);
  }

  lemma OneTurn(x: int, cap: nat)
    requires 0 <= x + cap && x < cap
    ensures x % cap == (if x < 0 then x + cap else x)
    ensures (x + cap) % cap == (if x < 0 then x + cap else x)
  {
    if x < 0 {
      UniqueResidue(x, -1, x + cap, cap);
      UniqueResidue(x + cap, 0, x + cap, cap);
    } else {
      UniqueResidue(x, 0, x, cap);
      UniqueResidue(x + cap, 1, x, cap);
    }
  }
}
