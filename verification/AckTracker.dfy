/** Selective acknowledgement state: the highest packet sequence number received and a bitmap of
    the 64 numbers below it. */
module AckTracker {
  import opened MachineWords
  import opened SerialNumbers

  const ACK_WINDOW: nat := 64
  const LOSS_PACKET_THRESHOLD: nat := 3

  datatype Ack = Ack(maxSeq: uint32, bits: Word64)

  const NoAck := Ack(0, ZeroWord())

  /** The state after `ack_insert`, and whether the number was new to it. */
  function Inserted(a: Ack, seq_: uint32): (Ack, bool) {
    if seq_ == 0 then (a, false)
    else if a.maxSeq == 0 then (Ack(seq_, ZeroWord()), true)
    else if Seq32After(seq_, a.maxSeq) then
      var shift := Sub32(seq_, a.maxSeq);
      var bits :=
        if shift > 64 then ZeroWord()
        else if shift == 64 then OneBit(63)
        else Or(ShiftLeft(a.bits, shift), OneBit(shift - 1));
      (Ack(seq_, bits), true)
    else
      var delta := Sub32(a.maxSeq, seq_);
      if delta == 0 || delta > 64 then (a, false)
      else if NonZero(And(a.bits, OneBit(delta - 1))) then (a, false)
      else (a.(bits := Or(a.bits, OneBit(delta - 1))), true)
  }

  /** `ack_covers_seq`: does an acknowledgement name this packet? */
  predicate Covers(ack: uint32, bits: Word64, seq_: uint32) {
    if seq_ == 0 || ack == 0 then false
    else if seq_ == ack then true
    else if Seq32After(seq_, ack) then false
    else
      var delta := Sub32(ack, seq_);
      0 < delta <= 64 && NonZero(And(bits, OneBit(delta - 1)))
  }

  /** The sender gives up on an uncovered packet once the acknowledgement is this far past it. */
  predicate GapLost(ack: uint32, seq_: uint32) {
    Seq32After(ack, seq_) && Sub32(ack, seq_) >= LOSS_PACKET_THRESHOLD
  }

  class Tracker {
    var maxSeq: uint32
    var bits: Word64

    function View(): Ack
      reads this
    {
      Ack(maxSeq, bits)
    }

    constructor ()
      ensures View() == NoAck
    {
      maxSeq, bits := 0, ZeroWord();
    }

    method Insert(seq_: uint32) returns (fresh_: bool)
      modifies this
      ensures (View(), fresh_) == Inserted(old(View()), seq_)
    {
      if seq_ == 0 { return false; }
      if maxSeq == 0 {
        maxSeq, bits := seq_, ZeroWord();
        return true;
      }
      if Seq32After(seq_, maxSeq) {
        var shift := Sub32(seq_, maxSeq);
        if shift > 64 {
          bits := ZeroWord();
        } else if shift == 64 {
          bits := OneBit(63);
        } else {
          bits := Or(ShiftLeft(bits, shift), OneBit(shift - 1));
        }
        maxSeq := seq_;
        return true;
      }
      var delta := Sub32(maxSeq, seq_);
      if delta == 0 || delta > 64 { return false; }
      var mask := OneBit(delta - 1);
      if NonZero(And(bits, mask)) { return false; }
      bits := Or(bits, mask);
      return true;
    }
  }

  /** The tracker state stands for the set `seen` of unbounded packet numbers with maximum `top`. */
  ghost predicate Represents(a: Ack, seen: set<int>, top: int) {
    if seen == {} then a == NoAck
    else
      && top in seen
      && a.maxSeq == Wrap32(top)
      && (forall x :: x in seen ==> x <= top && Wrap32(x) != 0)
      && (forall k :: 0 <= k < 64 ==> (a.bits[k] <==> top - 1 - k in seen))
  }

  function NewTop(seen: set<int>, top: int, x: int): int {
    if seen == {} || x > top then x else top
  }

  lemma MaskTest(w: Word64, k: nat)
    requires k < 64
    ensures NonZero(And(w, OneBit(k))) <==> w[k]
  {
    var m := And(w, OneBit(k));
    if w[k] { assert m[k]; }
  }

  lemma InsertNewer(a: Ack, seen: set<int>, top: int, x: int)
    requires Represents(a, seen, top) && seen != {}
    requires Wrap32(x) != 0
    requires 0 < x - top < HALF_32
    ensures var (b, isNew) := Inserted(a, Wrap32(x)); Represents(b, seen + {x}, x) && isNew
  {
    var b := Inserted(a, Wrap32(x)).0;
    After32Exact(x, top);
    Sub32Exact(x, top);
    var shift := x - top;
    forall k | 0 <= k < 64
      ensures b.bits[k] <==> x - 1 - k in seen + {x}
    {
      if shift <= k {
        assert a.bits[k - shift] <==> top - 1 - (k - shift) in seen;
        assert top - 1 - (k - shift) == x - 1 - k;
      }
    }
  }

  lemma InsertOlder(a: Ack, seen: set<int>, top: int, x: int)
    requires Represents(a, seen, top) && seen != {}
    requires Wrap32(x) != 0
    requires 0 <= top - x <= HALF_32
    ensures var (b, isNew) := Inserted(a, Wrap32(x));
      Represents(b, seen + {x}, top) && (isNew <==> x !in seen && top - x <= 64)
  {
    var b := Inserted(a, Wrap32(x)).0;
    After32Exact(x, top);
    Sub32Exact(top, x);
    var delta := top - x;
    if 0 < delta <= 64 {
      MaskTest(a.bits, delta - 1);
      assert a.bits[delta - 1] <==> top - 1 - (delta - 1) in seen;
    }
    forall k | 0 <= k < 64
      ensures b.bits[k] <==> top - 1 - k in seen + {x}
    {
      assert a.bits[k] <==> top - 1 - k in seen;
    }
  }

  /** Inserting a packet number adds it to the represented set, whatever the order of arrival, as
      long as it is less than 2^31 away from the maximum. It is reported as new exactly when it is
      not in the set and not more than 64 below the maximum. */
  lemma InsertRefines(a: Ack, seen: set<int>, top: int, x: int)
    requires Represents(a, seen, top)
    requires Wrap32(x) != 0
    requires seen == {} || -HALF_32 <= x - top < HALF_32
    ensures var (b, isNew) := Inserted(a, Wrap32(x));
      && Represents(b, seen + {x}, NewTop(seen, top, x))
      && (isNew <==> seen == {} || x > top || (x !in seen && top - x <= 64))
  {
    if seen == {} {
      assert seen + {x} == {x};
    } else if x > top {
      InsertNewer(a, seen, top, x);
    } else {
      InsertOlder(a, seen, top, x);
    }
  }

  /** An acknowledgement names exactly the received packets that are at most 64 below its maximum. */
  lemma CoversExact(a: Ack, seen: set<int>, top: int, x: int)
    requires Represents(a, seen, top)
    requires Wrap32(x) != 0
    requires seen == {} || -HALF_32 <= x - top < HALF_32
    ensures Covers(a.maxSeq, a.bits, Wrap32(x)) <==> x in seen && top - x <= 64
  {
    if seen != {} {
      After32Exact(x, top);
      Sub32Exact(top, x);
      if 0 < top - x <= 64 {
        MaskTest(a.bits, top - x - 1);
        assert a.bits[top - x - 1] <==> top - 1 - (top - x - 1) in seen;
      }
    }
  }
}
