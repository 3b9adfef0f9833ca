/** Duplicate suppression for reliable messages: a ring of 1024 words, each tagged with the block
    (message id / 64) it currently describes. */
module DedupWindow {
  import opened MachineWords
  import opened SerialNumbers

  const WORDS: nat := 1024
  const WINDOW: nat := WORDS * 64

  /** Values of the two arrays and of the largest id seen (0 before the first). */
  datatype Dedup = Dedup(bits: seq<Word64>, tags: seq<nat>, maxId: uint32)

  ghost predicate Sized(d: Dedup) {
    |d.bits| == WORDS && |d.tags| == WORDS
  }

  function Block(id: uint32): nat { id / 64 }

  function WordOf(block: nat): nat { block % WORDS }

  function Empty(): (d: Dedup)
    ensures Sized(d)
  {
    Dedup(seq(WORDS, _ => ZeroWord()), seq(WORDS, _ => 0), 0)
  }

  /** `reliable_seen_lookup`. */
  predicate Seen(d: Dedup, id: uint32)
    requires Sized(d)
  {
    if id == 0 then false
    else if d.maxId != 0 && Seq32After(d.maxId, id) && Sub32(d.maxId, id) >= WINDOW then true
    else
      var w := WordOf(Block(id));
      d.tags[w] == Block(id) && NonZero(And(d.bits[w], OneBit(id % 64)))
  }

  /** `reliable_mark_seen`. */
  function Marked(d: Dedup, id: uint32): (d': Dedup)
    requires Sized(d)
    ensures Sized(d')
  {
    if id == 0 then d
    else
      var w := WordOf(Block(id));
      var word := if d.tags[w] == Block(id) then d.bits[w] else ZeroWord();
      Dedup(d.bits[w := Or(word, OneBit(id % 64))],
            d.tags[w := Block(id)],
            if d.maxId == 0 || Seq32After(id, d.maxId) then id else d.maxId)
  }

  class Window {
    var bits: array<Word64>
    var tags: array<nat>
    var maxId: uint32

    ghost predicate Valid()
      reads this
    {
      bits.Length == WORDS && tags.Length == WORDS
    }

    ghost function View(): (d: Dedup)
      requires Valid()
      reads this, bits, tags
      ensures Sized(d)
    {
      Dedup(bits[..], tags[..], maxId)
    }

    constructor ()
      ensures Valid() && fresh(bits) && fresh(tags)
      ensures View() == Empty()
    {
      bits := new Word64[WORDS](_ => ZeroWord());
      tags := new nat[WORDS](_ => 0);
      maxId := 0;
    }

    method Lookup(id: uint32) returns (seen: bool)
      requires Valid()
      ensures seen == Seen(View(), id)
    {
      if id == 0 { return false; }
      if maxId != 0 && Seq32After(maxId, id) && Sub32(maxId, id) >= WINDOW { return true; }
      var w := WordOf(Block(id));
      if tags[w] != Block(id) { return false; }
      seen := NonZero(And(bits[w], OneBit(id % 64)));
    }

    method Mark(id: uint32)
      requires Valid()
      modifies this`maxId, bits, tags
      ensures Valid() && View() == Marked(old(View()), id)
    {
      if id == 0 { return; }
      var w := WordOf(Block(id));
      if tags[w] != Block(id) {
        tags[w] := Block(id);
        bits[w] := ZeroWord();
      }
      bits[w] := Or(bits[w], OneBit(id % 64));
      if maxId == 0 || Seq32After(id, maxId) {
        maxId := id;
      }
    }
  }

  /** The id of a message that arrives lies where the window is exact: fewer than 1024 blocks behind
      the block of the maximum, or (and then it counts as delivered) at least 65536 ids behind it. */
  predicate InExactRange(maxId: uint32, id: uint32) {
    && id != 0
    && -HALF_32 < maxId - id < HALF_32
    && (Block(maxId) - Block(id) < WORDS || maxId - id >= WINDOW)
  }

  ghost predicate HasMark(d: Dedup, id: uint32)
    requires Sized(d)
  {
    var w := WordOf(Block(id));
    d.tags[w] == Block(id) && d.bits[w][id % 64]
  }

  /** The window state stands for the set `marks` of delivered ids: its maximum is the largest one,
      and each of the last 1024 blocks either has its word, with exactly its marks, or has none. */
  ghost predicate Represents(d: Dedup, marks: set<uint32>) {
    && Sized(d)
    && 0 !in marks
    && (if marks == {} then d.maxId == 0 else d.maxId in marks)
    && (forall id :: id in marks ==> id <= d.maxId)
    && (forall w :: 0 <= w < WORDS ==> d.tags[w] <= Block(d.maxId))
    && (forall id: uint32 :: id != 0 && 0 <= Block(d.maxId) - Block(id) < WORDS ==>
          (id in marks <==> HasMark(d, id)))
  }

  lemma EmptyRepresents()
    ensures Represents(Empty(), {})
  {
  }

  lemma BitTest(w: Word64, k: nat)
    requires k < 64
    ensures NonZero(And(w, OneBit(k))) <==> w[k]
  {
    var m := And(w, OneBit(k));
    if w[k] { assert m[k]; }
  }

  /** Exactness: an id fewer than 1024 blocks behind the maximum's block is reported seen exactly
      when it was marked; an id 65536 or more behind is always reported seen. */
  lemma LookupExact(d: Dedup, marks: set<uint32>, id: uint32)
    requires Represents(d, marks)
    requires InExactRange(d.maxId, id)
    ensures d.maxId - id < WINDOW ==> (Seen(d, id) <==> id in marks)
    ensures d.maxId - id >= WINDOW ==> Seen(d, id)
    ensures id in marks ==> Seen(d, id)
  {
    After32Plain(d.maxId, id);
    var w := WordOf(Block(id));
    BitTest(d.bits[w], id % 64);
    if Block(id) > Block(d.maxId) {
      assert d.tags[w] != Block(id);
    }
  }

  /** Two ids with the same word and the same offset in it lie in the same block or at least 1024
      blocks apart. */
  lemma SameWord(a: nat, b: nat)
    requires WordOf(a) == WordOf(b) && a - b < WORDS && b - a < WORDS
    ensures a == b
  {
  }

  lemma MarkAt(d: Dedup, id: uint32, x: uint32)
    requires Sized(d) && id != 0
    requires Block(x) - Block(id) < WORDS && Block(id) - Block(x) < WORDS
    ensures HasMark(Marked(d, id), x) <==> x == id || HasMark(d, x)
  {
    if WordOf(Block(x)) == WordOf(Block(id)) {
      SameWord(Block(x), Block(id));
    }
  }

  lemma BlockMonotone(a: uint32, b: uint32)
    requires a <= b
    ensures Block(a) <= Block(b)
  {
  }

  lemma MarkMeaning(d: Dedup, marks: set<uint32>, id: uint32, x: uint32)
    requires Represents(d, marks)
    requires id != 0 && x != 0 && Block(d.maxId) - Block(id) < WORDS
    requires 0 <= Block(if id > d.maxId then id else d.maxId) - Block(x) < WORDS
    ensures x in marks + {id} <==> HasMark(Marked(d, id), x)
  {
    if id > d.maxId {
      BlockMonotone(d.maxId, id);
    } else {
      BlockMonotone(id, d.maxId);
    }
    MarkAt(d, id, x);
    if Block(x) > Block(d.maxId) {
      assert d.tags[WordOf(Block(x))] != Block(x);
      if x in marks { BlockMonotone(x, d.maxId); }
    }
  }

  lemma MarkedMax(d: Dedup, id: uint32) returns (m: uint32)
    requires Sized(d) && id != 0 && -HALF_32 < d.maxId - id < HALF_32
    ensures m == (if id > d.maxId then id else d.maxId) == Marked(d, id).maxId
  {
    After32Plain(id, d.maxId);
    m := if id > d.maxId then id else d.maxId;
  }

  /** Marking an id that the window did not report as seen adds exactly that id. */
  lemma MarkRefines(d: Dedup, marks: set<uint32>, id: uint32)
    requires Represents(d, marks)
    requires InExactRange(d.maxId, id) && d.maxId - id < WINDOW
    ensures Represents(Marked(d, id), marks + {id})
  {
    var d' := Marked(d, id);
    var m := MarkedMax(d, id);
    BlockMonotone(d.maxId, m);
    BlockMonotone(id, m);
    forall x: uint32 | x != 0 && 0 <= Block(m) - Block(x) < WORDS
      ensures x in marks + {id} <==> HasMark(d', x)
    {
      MarkMeaning(d, marks, id, x);
    }
    assert forall w :: 0 <= w < WORDS ==> d'.tags[w] <= Block(m);
  }

  /** Without the range condition the window is not exact: id 63 is marked, id 65536 lies in the
      block 1024 later and takes over its word, and then id 63, only 65473 behind, is forgotten. */
  lemma ForgetsAcross1024Blocks()
    ensures var d := Marked(Marked(Empty(), 63), 65536);
      d.maxId - 63 < WINDOW && !Seen(d, 63)
  {
    var d1 := Marked(Empty(), 63);
    var d := Marked(d1, 65536);
    assert d1.maxId == 63;
    assert Seq32After(65536, 63);
    assert d.tags[0] == 1024;
  }
}
