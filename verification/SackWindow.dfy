/** Packet numbers of the sender: how they are issued, and why the 64 numbers of a SACK bitmap and the
    slots of the sent-packet table are enough for them. */
module SackWindow {
  import opened MachineWords
  import opened SerialNumbers
  import opened Arithmetic
  import opened PowersOfTwo
  import AckTracker

  /** The reliable packets in flight are kept within this many numbers. */
  const ACK_WINDOW: nat := 64

  /** Number 0 means "no number", so every 2^32nd unbounded number is skipped. */
  function NextUnwrapped(newest: int): int {
    if Wrap32(newest + 1) == 0 then newest + 2 else newest + 1
  }

  lemma NextNumber(newest: int)
    ensures Wrap32(NextUnwrapped(newest)) != 0
    ensures newest < NextUnwrapped(newest) <= newest + 2
    ensures Wrap32(NextUnwrapped(newest)) == if Wrap32(newest + 1) != 0 then Wrap32(newest + 1) else 1
  {
  }

  /** The condition on `sent_packet_count` under which no two numbers of one window share a slot. */
  predicate WrapSafe(slots: nat)
    requires 0 < slots
  {
    TWO_32 % slots < 2 || TWO_32 % slots >= ACK_WINDOW
  }

  /** Two different numbers of one window fall into different slots. */
  lemma DistinctSlots(slots: nat, x: int, y: int)
    requires ACK_WINDOW <= slots && WrapSafe(slots)
    requires 0 < x - y < ACK_WINDOW
    requires Wrap32(x) != 0 && Wrap32(y) != 0
    ensures Wrap32(x) % slots != Wrap32(y) % slots
  {
    var a, b := Wrap32(x), Wrap32(y);
    Sub32Exact(x, y);
    if a % slots == b % slots {
      if a > b {
        assert a - b == x - y;
        SameResidue(a, b, slots);
      } else if b > a {
        assert b - a == TWO_32 - (x - y);
        SameResidue(b, a, slots);
        ResidueOfDifference(TWO_32, x - y, slots);
      }
    }
  }

  /** For any other table size there are two numbers of one window that share a slot: they lie on
      both sides of the wrap-around. */
  lemma CollisionAtWrap(slots: nat) returns (x: int, y: int)
    requires ACK_WINDOW <= slots && !WrapSafe(slots)
    ensures 0 < x - y < ACK_WINDOW && Wrap32(x) != 0 && Wrap32(y) != 0
    ensures Wrap32(x) % slots == Wrap32(y) % slots
  {
    var r := TWO_32 % slots;
    y := TWO_32 - 1;
    x := TWO_32 - 1 + r;
    assert Wrap32(x) == r - 1 && Wrap32(y) == TWO_32 - 1;
    var q := TWO_32 / slots;
    assert TWO_32 == q * slots + r;
    UniqueResidue(TWO_32 - 1, q, r - 1, slots);
    UniqueResidue(r - 1, 0, r - 1, slots);
  }

  /** The table size keeps the numbers of every window apart exactly when it satisfies the condition; 65 does not. */
  lemma SlotsApartIff(slots: nat)
    requires ACK_WINDOW <= slots
    ensures (forall x: int, y: int :: 0 < x - y < ACK_WINDOW && Wrap32(x) != 0 && Wrap32(y) != 0 ==>
               Wrap32(x) % slots != Wrap32(y) % slots)
            <==> WrapSafe(slots)
    ensures !WrapSafe(65)
  {
    if WrapSafe(slots) {
      forall x: int, y: int | 0 < x - y < ACK_WINDOW && Wrap32(x) != 0 && Wrap32(y) != 0
        ensures Wrap32(x) % slots != Wrap32(y) % slots
      {
        DistinctSlots(slots, x, y);
      }
    } else {
      var x, y := CollisionAtWrap(slots);
    }
  }

  /** Every power of two from 64 on satisfies it. */
  lemma {:induction false} PowersAreSafe(slots: nat)
    requires PowerOfTwo(slots) && ACK_WINDOW <= slots
    ensures WrapSafe(slots)
  {
    if slots <= TWO_32 {
      WordSizeIsPower();
      PowerDivides(slots, TWO_32);
    } else {
      UniqueResidue(TWO_32, 0, TWO_32, slots);
    }
  }

  /** The gate `candidate - oldest < 64` in 32 bits is the gate on unbounded numbers. */
  lemma GateExact(candidate: int, oldest: int)
    requires 0 <= candidate - oldest < TWO_32
    ensures Sub32(Wrap32(candidate), Wrap32(oldest)) == candidate - oldest
  {
    Sub32Exact(candidate, oldest);
  }

  /** A packet that arrived and is within the window of the newest number is named by every
      acknowledgement the receiver computes from then on: it cannot fall out of the bitmap. */
  lemma ArrivedStaysCovered(a: AckTracker.Ack, seen: set<int>, top: int, newest: int, x: int)
    requires AckTracker.Represents(a, seen, top) && x in seen
    requires top <= newest && newest - x < ACK_WINDOW
    ensures AckTracker.Covers(a.maxSeq, a.bits, Wrap32(x))
  {
    AckTracker.CoversExact(a, seen, top, x);
  }
}
