/** Deterministic packet loss: a trace with one bit per packet, replayed by a program that looks at one
    packet at a time, and the count of losses in a range of packets, which looks at whole words. The
    length of the trace in bits is a power of two, so the `&` with the length minus one is a remainder. */
module LossTrace {
  import opened MachineWords
  import opened Arithmetic
  import opened PowersOfTwo

  type Trace = seq<Word64>

  function Bits(words: Trace): nat { 64 * |words| }

  /** Does the trace drop packet n? */
  predicate Drops(words: Trace, n: nat)
    requires words != []
  {
    words[n % Bits(words) / 64][n % Bits(words) % 64]
  }

  /** Packets dropped among the n packets from `from` on. */
  function DropCount(words: Trace, from: nat, n: nat): nat
    requires words != []
  {
    if n == 0 then 0 else DropCount(words, from, n - 1) + (if Drops(words, from + n - 1) then 1 else 0)
  }

  // ----- counting by parts -----------------------------------------------------------------------

  lemma {:induction false} CountSplits(words: Trace, from: nat, a: nat, b: nat)
    requires words != []
    ensures DropCount(words, from, a + b) == DropCount(words, from, a) + DropCount(words, from + a, b)
    decreases b
  {
    if b > 0 { CountSplits(words, from, a, b - 1); }
  }

  lemma {:induction false} CountAtMost(words: Trace, from: nat, n: nat)
    requires words != []
    ensures DropCount(words, from, n) <= n
  {
    if n > 0 { CountAtMost(words, from, n - 1); }
  }

  /** The trace repeats. */
  lemma {:induction false} CountRepeats(words: Trace, a: nat, b: nat, n: nat)
    requires words != [] && a % Bits(words) == b % Bits(words)
    ensures DropCount(words, a, n) == DropCount(words, b, n)
  {
    if n > 0 {
      CountRepeats(words, a, b, n - 1);
      ResidueOfSum(a, n - 1, Bits(words));
      ResidueOfSum(b, n - 1, Bits(words));
    }
  }

  /** A whole turn has the same losses wherever it starts. */
  lemma {:induction false} TurnAnywhere(words: Trace, from: nat)
    requires words != []
    ensures DropCount(words, from, Bits(words)) == DropCount(words, 0, Bits(words))
  {
    if from > 0 {
      var n, before := Bits(words), from - 1;
      TurnAnywhere(words, before);
      CountSplits(words, before, 1, n);
      CountSplits(words, before, n, 1);
      AddModulus(before, n);
      CountRepeats(words, before + n, before, 1);
      assert 1 + n == n + 1;
    }
  }

  /** k turns. */
  lemma {:induction false} Turns(words: Trace, from: nat, k: nat)
    requires words != []
    ensures 0 <= k * Bits(words) && DropCount(words, from, k * Bits(words)) == k * DropCount(words, 0, Bits(words))
    decreases k
  {
    if k > 0 {
      var n := Bits(words);
      Turns(words, from, k - 1);
      assert k * n == (k - 1) * n + n;
      CountSplits(words, from, (k - 1) * n, n);
      TurnAnywhere(words, from + (k - 1) * n);
      assert k * DropCount(words, 0, n) == (k - 1) * DropCount(words, 0, n) + DropCount(words, 0, n);
    }
  }

  // ----- counting by words -----------------------------------------------------------------------

  /** The k-th packet of a stretch that stays inside one word. */
  lemma PlaceInWord(words: Trace, from: nat, k: nat)
    requires words != [] && from % Bits(words) % 64 + k < 64
    ensures from % Bits(words) / 64 < |words|
    ensures Drops(words, from + k) == words[from % Bits(words) / 64][from % Bits(words) % 64 + k]
  {
    var bits, i := Bits(words), from % Bits(words);
    var w, off := i / 64, i % 64;
    assert i == 64 * w + off;
    assert w < |words|;
    ResidueStep(from, k, bits);
    UniqueResidue(i + k, w, off + k, 64);
  }

  /** A stretch of packets inside one word of the trace. */
  lemma {:induction false} StretchOfWord(words: Trace, from: nat, n: nat)
    requires words != [] && from % Bits(words) % 64 + n <= 64
    ensures from % Bits(words) / 64 < |words|
    ensures DropCount(words, from, n) ==
            OnesCount(words[from % Bits(words) / 64][from % Bits(words) % 64..from % Bits(words) % 64 + n])
    decreases n
  {
    PlaceInWord(words, from, 0);
    if n > 0 {
      var k: nat := n - 1;
      StretchOfWord(words, from, k);
      PlaceInWord(words, from, k);
      OneMoreBit(words[from % Bits(words) / 64], from % Bits(words) % 64, k, n);
    }
  }

  lemma {:induction false} OneMoreBit(w: Word64, off: nat, k: nat, n: nat)
    requires n == k + 1 && off + n <= 64
    ensures OnesCount(w[off..off + n]) == OnesCount(w[off..off + k]) + (if w[off + k] then 1 else 0)
  {
    assert w[off..off + n] == w[off..off + k] + [w[off + k]];
    OnesCountConcat(w[off..off + k], [w[off + k]]);
  }

  /** The low n bits. */
  function LowOnes(n: nat): (w: Word64)
    requires n <= 64
    ensures forall i :: 0 <= i < 64 ==> (w[i] <==> i < n)
  {
    seq(64, i => i < n)
  }

  /** The shifted and masked word has the bits of the stretch. */
  lemma {:induction false} MaskedWord(w: Word64, off: nat, n: nat)
    requires off + n <= 64 && off < 64
    ensures OnesCount(And(ShiftRight(w, off), LowOnes(n))) == OnesCount(w[off..off + n])
  {
    var m := And(ShiftRight(w, off), LowOnes(n));
    assert m[..n] == w[off..off + n];
    OnesCountFalse(m[n..]);
    OnesCountConcat(m[..n], m[n..]);
    assert m[..n] + m[n..] == m;
  }

  /** The words together are one turn. */
  lemma {:induction false} WordsOfTurn(words: Trace, k: nat)
    requires words != [] && k <= |words|
    ensures DropCount(words, 0, 64 * k) == TotalOnes(words[..k])
    decreases k
  {
    if k > 0 {
      var before: nat := k - 1;
      WordsOfTurn(words, before);
      CountSplits(words, 0, 64 * before, 64);
      UniqueResidue(64 * before, 0, 64 * before, Bits(words));
      UniqueResidue(64 * before, before, 0, 64);
      StretchOfWord(words, 64 * before, 64);
      assert words[before][0..64] == words[before];
      assert words[..k] == words[..before] + [words[before]];
      assert 64 * before + 64 == 64 * k;
    }
  }

  function TotalOnes(words: Trace): nat {
    if words == [] then 0 else TotalOnes(words[..|words| - 1]) + OnesCount(words[|words| - 1])
  }

  lemma {:induction false} TotalOnesAtMost(words: Trace)
    ensures TotalOnes(words) <= Bits(words)
  {
    if words != [] { TotalOnesAtMost(words[..|words| - 1]); }
  }

  // ----- the two programs ------------------------------------------------------------------------

  datatype Result = Count(drops: nat) | BadTrace | BadRange

  /** One chunk: it lies in one word, which is shifted and masked. */
  lemma {:induction false} ChunkCount(words: Trace, from: nat, done: nat, idx: nat, chunk: nat)
    requires words != [] && (from + done) % Bits(words) == idx && idx % 64 + chunk <= 64
    ensures idx / 64 < |words|
    ensures var ones := OnesCount(And(ShiftRight(words[idx / 64], idx % 64), LowOnes(chunk)));
      DropCount(words, from, done + chunk) == DropCount(words, from, done) + ones <= done + chunk
  {
    CountSplits(words, from, done, chunk);
    StretchOfWord(words, from + done, chunk);
    MaskedWord(words[idx / 64], idx % 64, chunk);
    CountAtMost(words, from, done + chunk);
  }

  /** The index of the next chunk, and that computing it does not overflow. */
  lemma {:induction false} ChunkIndex(from: nat, counted: nat, k: nat, bits: nat)
    requires PowerOfTwo(bits) && bits < TWO_64 && counted < bits
    ensures 0 <= k * bits && from % bits + counted < TWO_64
    ensures (from % bits + counted) % bits == (from + (k * bits + counted)) % bits
  {
    HalfOf(bits);
    Monotone(0, k, bits);
    ResidueOfSum(from, counted, bits);
    TurnsVanish(from + counted, k, bits);
  }

  /** `CountDropsInRange`: whole turns by the total, the rest word by word. No intermediate value of the
      64-bit arithmetic overflows, and no chunk crosses a word. */
  method CountDropsInRange(words: Trace, from: uint64, to: uint64) returns (r: Result)
    requires Bits(words) < TWO_64
    ensures words == [] || !PowerOfTwo(Bits(words)) ==> r == BadTrace
    ensures words != [] && PowerOfTwo(Bits(words)) && to < from ==> r == BadRange
    ensures words != [] && PowerOfTwo(Bits(words)) && from <= to ==> r == Count(DropCount(words, from, to - from))
  {
    var bits: uint64 := Bits(words);
    if bits == 0 || !PowerOfTwo(bits) { return BadTrace; }
    if to < from { return BadRange; }
    var span: uint64 := to - from;
    var total := TotalOfWords(words);
    var k, rest := span / bits, span % bits;
    QuotientFacts(span, bits);
    Turns(words, from, k);
    TotalOnesAtMost(words);
    WholeTurnsFit(span, k, bits, total);
    var drops: uint64 := k * total;
    drops := RestOfRange(words, from, k, rest, drops);
    return Count(drops);
  }

  lemma QuotientFacts(n: nat, d: nat)
    requires 0 < d
    ensures n == n / d * d + n % d && 0 <= n / d * d
  {
  }

  /** The chunk loop: the packets left over after k turns. */
  method RestOfRange(words: Trace, from: uint64, k: nat, rest: uint64, dropsOfTurns: uint64) returns (drops: uint64)
    requires words != [] && PowerOfTwo(Bits(words)) && Bits(words) < TWO_64 && rest < Bits(words)
    requires 0 <= k * Bits(words) && k * Bits(words) + rest < TWO_64
    requires dropsOfTurns == DropCount(words, from, k * Bits(words))
    ensures drops == DropCount(words, from, k * Bits(words) + rest)
  {
    var bits: uint64 := Bits(words);
    var start: uint64 := from % bits;
    ghost var turns := k * bits;
    drops := dropsOfTurns;
    var counted: uint64 := 0;
    while counted < rest
      invariant counted <= rest
      invariant drops == DropCount(words, from, turns + counted)
    {
      ChunkIndex(from, counted, k, bits);
      var sum: uint64 := start + counted;
      var idx: uint64 := sum % bits;
      var offset := idx % 64;
      var chunk: uint64 := 64 - offset;
      if chunk > rest - counted { chunk := rest - counted; }
      ChunkCount(words, from, turns + counted, idx, chunk);
      drops := drops + OnesCount(And(ShiftRight(words[idx / 64], offset), LowOnes(chunk)));
      counted := counted + chunk;
    }
  }

  /** The loop that counts all set bits; they are the losses of one turn. */
  method TotalOfWords(words: Trace) returns (total: uint64)
    requires words != [] && Bits(words) < TWO_64
    ensures total == DropCount(words, 0, Bits(words)) == TotalOnes(words)
  {
    total := 0;
    for i := 0 to |words|
      invariant total == TotalOnes(words[..i]) <= 64 * i
    {
      assert words[..i + 1] == words[..i] + [words[i]];
      total := total + OnesCount(words[i]);
    }
    assert words[..|words|] == words;
    WordsOfTurn(words, |words|);
  }

  lemma WholeTurnsFit(span: nat, k: nat, bits: nat, total: nat)
    requires total <= bits && k * bits <= span
    ensures 0 <= k * total <= span
  {
    Monotone(total, bits, k);
    Monotone(0, total, k);
    assert k * total == total * k && k * bits == bits * k;
  }

  lemma TurnsVanish(a: nat, k: nat, d: nat)
    requires 0 < d
    ensures (a + k * d) % d == a % d
  {
    assert a == a / d * d + a % d;
    assert (a / d + k) * d == a / d * d + k * d;
    UniqueResidue(a + k * d, a / d + k, a % d, d);
  }

  /** A power of two below 2^64 is at most 2^63, so two remainders have a 64-bit sum. */
  lemma {:induction false} HalfOf(bits: nat)
    requires PowerOfTwo(bits) && bits < TWO_64
    ensures 2 * bits <= TWO_64
  {
    WordSizeIsPower();
    PowerDivides(bits, TWO_64);
  }

  /** The program attached to a device: a counter shared by all packets, one bit tested per packet. */
  class LossProgram {
    const words: Trace
    var counter: uint64
    ghost var packets: nat

    ghost predicate Valid()
      reads this
    {
      words != [] && PowerOfTwo(Bits(words)) && |words| < TWO_32 && counter == packets % TWO_64
    }

    constructor (words: Trace)
      requires words != [] && PowerOfTwo(Bits(words)) && |words| < TWO_32
      ensures Valid() && packets == 0 && this.words == words
    {
      this.words := words;
      counter, packets := 0, 0;
    }

    /** `losstrace_egress`: packet number `packets` of the replay. The counter may wrap around, and the word
        index is truncated to 32 bits, without changing the outcome. */
    method Egress() returns (shot: bool)
      requires Valid()
      modifies this
      ensures Valid() && packets == old(packets) + 1
      ensures shot == Drops(words, old(packets))
    {
      var bits := Bits(words);
      var idx := counter % bits;
      WrapKeepsPlace(packets, bits);
      ResidueOfSum(packets, 1, TWO_64);
      counter := (counter + 1) % TWO_64;
      packets := packets + 1;
      var word := idx / 64 % TWO_32;
      UniqueResidue(idx / 64, 0, idx / 64, TWO_32);
      shot := words[word][idx % 64];
    }

    /** `ResetCounter` */
    method Reset()
      requires Valid()
      modifies this
      ensures Valid() && packets == 0
    {
      counter, packets := 0, 0;
    }

    /** The program drops as many of the next n packets as the count for their range says. */
    method Replay(n: nat) returns (drops: nat)
      requires Valid()
      modifies this
      ensures Valid() && packets == old(packets) + n
      ensures drops == DropCount(words, old(packets), n)
    {
      drops := 0;
      for i := 0 to n
        invariant Valid() && packets == old(packets) + i
        invariant drops == DropCount(words, old(packets), i)
      {
        var shot := Egress();
        if shot { drops := drops + 1; }
      }
    }
  }

  lemma {:induction false} WrapKeepsPlace(n: nat, bits: nat)
    requires 0 < bits < TWO_64 && PowerOfTwo(bits)
    ensures n % TWO_64 % bits == n % bits
  {
    WordSizeIsPower();
    PowerDivides(bits, TWO_64);
    QuotientFacts(TWO_64, bits);
    QuotientFacts(n, TWO_64);
    WrapPlace(n, n / TWO_64, TWO_64 / bits, n % TWO_64, bits, TWO_64);
  }

  lemma WrapPlace(n: nat, q: nat, k: nat, m: nat, bits: nat, size: nat)
    requires 0 < bits && size == k * bits && n == q * size + m
    ensures m % bits == n % bits
  {
    Regrouped(q, k, bits);
    TurnsVanish(m, q * k, bits);
  }
}
