/** The physical frame allocator: one bit per 4 KiB frame, first fit. */
module Frames {
  import opened Options

  const FRAME_SIZE: nat := 4096
  const MAX_FRAMES: nat := 1048576
  const WORD_BITS: nat := 64

  type Word = bv64

  function Mask(b: nat): Word
    requires b < WORD_BITS
  {
    (1 as bv64) << b
  }

  function And(w: Word, m: Word): Word { w & m }
  function Or(w: Word, m: Word): Word { w | m }
  function AndNot(w: Word, m: Word): Word { w & !m }

  predicate Bit(w: Word, b: nat)
    requires b < WORD_BITS
  {
    And(w, Mask(b)) != 0
  }

  lemma MasksDisjoint(b: nat, c: nat)
    requires b < WORD_BITS && c < WORD_BITS && b != c
    ensures And(Mask(b), Mask(c)) == 0
  {
  }

  lemma MaskNonzero(b: nat)
    requires b < WORD_BITS
    ensures Mask(b) != 0
  {
  }

  lemma OrOther(w: Word, p: Word, q: Word)
    requires And(p, q) == 0
    ensures And(Or(w, p), q) == And(w, q)
  {
  }

  lemma AndNotOther(w: Word, p: Word, q: Word)
    requires And(p, q) == 0
    ensures And(AndNot(w, p), q) == And(w, q)
  {
  }

  lemma SameMask(w: Word, p: Word)
    ensures And(Or(w, p), p) == p && And(AndNot(w, p), p) == 0
  {
  }

  lemma SetBit(w: Word, b: nat, c: nat)
    requires b < WORD_BITS && c < WORD_BITS
    ensures Bit(Or(w, Mask(b)), c) <==> Bit(w, c) || b == c
    ensures Bit(AndNot(w, Mask(b)), c) <==> Bit(w, c) && b != c
  {
    hide Mask, And, Or, AndNot;
    if b == c {
      MaskNonzero(b);
      SameMask(w, Mask(b));
    } else {
      MasksDisjoint(b, c);
      OrOther(w, Mask(b), Mask(c));
      AndNotOther(w, Mask(b), Mask(c));
    }
  }

  /** Bit i of a bitmap given as a sequence of words. */
  predicate BitAt(words: seq<Word>, i: nat)
    requires i < |words| * WORD_BITS
  {
    Bit(words[i / WORD_BITS], i % WORD_BITS)
  }

  /** The set bits among the first n. */
  ghost function SetBits(words: seq<Word>, n: nat): set<nat>
    requires n <= |words| * WORD_BITS
  {
    set i: nat | i < n && BitAt(words, i)
  }

  lemma SetBitsIs(words: seq<Word>, n: nat)
    requires n <= |words| * WORD_BITS
    ensures forall i: nat :: i in SetBits(words, n) <==> i < n && BitAt(words, i)
  {
  }

  function Marked(words: seq<Word>, i: nat): seq<Word>
    requires i < |words| * WORD_BITS
  {
    words[i / WORD_BITS := Or(words[i / WORD_BITS], Mask(i % WORD_BITS))]
  }

  function Unmarked(words: seq<Word>, i: nat): seq<Word>
    requires i < |words| * WORD_BITS
  {
    words[i / WORD_BITS := AndNot(words[i / WORD_BITS], Mask(i % WORD_BITS))]
  }

  /** Writing one bit of one word adds or removes one element of the set. */
  lemma MarkOne(words: seq<Word>, i: nat, n: nat)
    requires i < n <= |words| * WORD_BITS
    ensures SetBits(Marked(words, i), n) == SetBits(words, n) + {i}
    ensures SetBits(Unmarked(words, i), n) == SetBits(words, n) - {i}
  {
    hide Mask, Bit, Or, AndNot;
    forall j: nat | j < n
      ensures BitAt(Marked(words, i), j) <==> BitAt(words, j) || j == i
      ensures BitAt(Unmarked(words, i), j) <==> BitAt(words, j) && j != i
    {
      if i / WORD_BITS == j / WORD_BITS {
        SetBit(words[i / WORD_BITS], i % WORD_BITS, j % WORD_BITS);
      }
    }
  }

  lemma ZeroWords(words: seq<Word>, n: nat)
    requires n <= |words| * WORD_BITS && forall k :: 0 <= k < |words| ==> words[k] == 0
    ensures SetBits(words, n) == {}
  {
  }

  /** The frame indices below n. */
  ghost function Below(n: nat): (s: set<nat>)
    ensures |s| == n && forall i: nat :: i in s <==> i < n
  {
    if n == 0 then {} else Below(n - 1) + {n - 1}
  }

  /** A set of indices below n has at most n elements, and n only when full. */
  lemma CountBelow(s: set<nat>, n: nat)
    requires forall i :: i in s ==> i < n
    ensures |s| <= n
    ensures |s| == n <==> forall i: nat :: i < n ==> i in s
  {
    assert Below(n) == s + (Below(n) - s);
    if |s| == n { assert Below(n) - s == {}; assert s == Below(n); }
    if forall i: nat :: i < n ==> i in s { assert s == Below(n); }
  }

  // ---- the allocator as a set ----

  datatype Op = Took(i: nat) | Gave(i: nat)

  /** One legal operation on the set of allocated frames. */
  ghost predicate OpStep(s: set<nat>, op: Op, s': set<nat>) {
    match op
    case Took(i) => i !in s && (forall j: nat :: j < i ==> j in s) && s' == s + {i}
    case Gave(i) => i in s && s' == s - {i}
  }

  ghost predicate History(sets: seq<set<nat>>, ops: seq<Op>) {
    |sets| == |ops| + 1 && forall k :: 0 <= k < |ops| ==> OpStep(sets[k], ops[k], sets[k + 1])
  }

  /** A frame handed out at a and not given back before b is still allocated. */
  lemma {:induction false} StaysTaken(sets: seq<set<nat>>, ops: seq<Op>, a: nat, b: nat, i: nat)
    requires History(sets, ops) && a < b <= |ops| && ops[a] == Took(i)
    requires forall c :: a < c < b ==> ops[c] != Gave(i)
    ensures i in sets[b]
    decreases b
  {
    assert OpStep(sets[b - 1], ops[b - 1], sets[b]);
    if b > a + 1 { StaysTaken(sets, ops, a, b - 1, i); }
  }

  /** No frame is handed out twice without being given back in between. */
  lemma NoDoubleHandout(sets: seq<set<nat>>, ops: seq<Op>, a: nat, b: nat, i: nat)
    requires History(sets, ops) && a < b < |ops| && ops[a] == Took(i) == ops[b]
    ensures exists c :: a < c < b && ops[c] == Gave(i)
  {
    assert OpStep(sets[b], ops[b], sets[b + 1]);
    if forall c :: a < c < b ==> ops[c] != Gave(i) {
      StaysTaken(sets, ops, a, b, i);
    }
  }

  // ---- the object ----

  /** Address a is a frame of the range from base whose index is in s. */
  ghost predicate Holds(base: nat, count: nat, s: set<nat>, a: nat) {
    a % FRAME_SIZE == 0 && base <= a / FRAME_SIZE < base + count && a / FRAME_SIZE - base in s
  }

  lemma TookHolds(base: nat, count: nat, s: set<nat>, b: nat)
    requires b % FRAME_SIZE == 0 && base <= b / FRAME_SIZE < base + count
    ensures var s' := s + {b / FRAME_SIZE - base};
            forall a: nat :: Holds(base, count, s', a) <==> Holds(base, count, s, a) || a == b
  {
  }

  lemma FrameIndex(base: nat, i: nat)
    ensures (base + i) * FRAME_SIZE % FRAME_SIZE == 0 && (base + i) * FRAME_SIZE / FRAME_SIZE == base + i
  {
  }

  class BitmapAllocator {
    const bitmap: array<Word>
    var base: nat
    var count: nat
    var free: nat

    ghost predicate Shaped()
      reads this
    {
      bitmap.Length == MAX_FRAMES / WORD_BITS && count <= MAX_FRAMES
    }

    /** The allocated frames, by index from the base. */
    ghost function Allocated(): set<nat>
      requires Shaped()
      reads this, bitmap
    {
      SetBits(bitmap[..], count)
    }

    ghost predicate Valid()
      reads this, bitmap
    {
      Shaped() && free + |Allocated()| == count
    }

    constructor ()
      ensures Valid() && fresh(bitmap) && count == 0 && free == 0
      ensures forall k :: 0 <= k < bitmap.Length ==> bitmap[k] == 0
    {
      bitmap := new Word[MAX_FRAMES / WORD_BITS](_ => 0);
      base, count, free := 0, 0, 0;
    }

    /** Manage [start, end). False when one of its asserts fails. The bitmap is
        not cleared, so the counts are right exactly when it holds no bit. */
    method Init(start: nat, end: nat) returns (ok: bool)
      requires Shaped()
      modifies this
      ensures ok <==>
        start % FRAME_SIZE == 0 && end % FRAME_SIZE == 0 && start < end && (end - start) / FRAME_SIZE <= MAX_FRAMES
      ensures ok ==> Shaped() && base == start / FRAME_SIZE && count == (end - start) / FRAME_SIZE && free == count
      ensures ok ==> (Valid() <==> Allocated() == {})
      ensures !ok ==> base == old(base) && count == old(count) && free == old(free)
    {
      if start % FRAME_SIZE != 0 || end % FRAME_SIZE != 0 || start >= end {
        return false;
      }
      var n := (end - start) / FRAME_SIZE;
      if n > MAX_FRAMES {
        return false;
      }
      base, count, free := start / FRAME_SIZE, n, n;
      return true;
    }

    /** A fresh bitmap holds no bit, whatever the range. */
    lemma FreshIsEmpty()
      requires Shaped() && forall k :: 0 <= k < bitmap.Length ==> bitmap[k] == 0
      ensures Allocated() == {}
    {
      ZeroWords(bitmap[..], count);
    }

    /** The lowest free frame, or None exactly when every frame is taken. */
    method Alloc() returns (r: Option<nat>)
      requires Valid()
      modifies this`free, bitmap
      ensures Valid()
      ensures r.None? <==> old(free) == 0
      ensures r.None? ==> Allocated() == old(Allocated()) && free == 0
      ensures r.Some? ==>
        && r.value % FRAME_SIZE == 0 && base <= r.value / FRAME_SIZE < base + count
        && var i := r.value / FRAME_SIZE - base;
           OpStep(old(Allocated()), Took(i), Allocated()) && free == old(free) - 1
    {
      hide Mask, And, Or, AndNot, SetBits;
      ghost var words := bitmap[..];
      var i := FirstFree();
      SetBitsIs(words, count);
      CountBelow(Allocated(), count);
      if i == count {
        return None;
      }
      bitmap[i / WORD_BITS] := Or(bitmap[i / WORD_BITS], Mask(i % WORD_BITS));
      MarkOne(words, i, count);
      assert bitmap[..] == Marked(words, i);
      free := free - 1;
      FrameIndex(base, i);
      return Some((base + i) * FRAME_SIZE);
    }

    /** The scan of alloc: the first clear bit, or count. */
    method FirstFree() returns (i: nat)
      requires Shaped()
      ensures i <= count && forall j: nat :: j < i ==> BitAt(bitmap[..], j)
      ensures i < count ==> !BitAt(bitmap[..], i)
    {
      hide Mask, And;
      ghost var words := bitmap[..];
      for k := 0 to count
        invariant forall j: nat :: j < k ==> BitAt(words, j)
      {
        if And(bitmap[k / WORD_BITS], Mask(k % WORD_BITS)) == 0 {
          assert !BitAt(words, k);
          return k;
        }
        assert BitAt(words, k);
      }
      return count;
    }

    /** Give a frame back. False when one of its asserts fails: an unaligned
        address, an unmanaged frame or a double free. */
    method Free(addr: nat) returns (ok: bool)
      requires Valid()
      modifies this`free, bitmap
      ensures Valid()
      ensures ok <==> addr % FRAME_SIZE == 0 && base <= addr / FRAME_SIZE < base + count
                      && addr / FRAME_SIZE - base in old(Allocated())
      ensures ok ==> OpStep(old(Allocated()), Gave(addr / FRAME_SIZE - base), Allocated()) && free == old(free) + 1
      ensures !ok ==> Allocated() == old(Allocated()) && free == old(free)
    {
      hide Mask, And, Or, AndNot;
      if addr % FRAME_SIZE != 0 || addr / FRAME_SIZE < base || base + count <= addr / FRAME_SIZE {
        return false;
      }
      var i := addr / FRAME_SIZE - base;
      if And(bitmap[i / WORD_BITS], Mask(i % WORD_BITS)) == 0 {
        assert !BitAt(bitmap[..], i);
        return false;
      }
      ghost var words := bitmap[..];
      assert BitAt(words, i);
      bitmap[i / WORD_BITS] := AndNot(bitmap[i / WORD_BITS], Mask(i % WORD_BITS));
      MarkOne(words, i, count);
      assert bitmap[..] == Unmarked(words, i);
      free := free + 1;
      return true;
    }
  }
}
