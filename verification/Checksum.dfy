/** The one's-complement checksum of section 1 of RFC 1071. */
module Checksum {
  import opened Bytes

  const U16: nat := 0x1_0000
  const MAX_BYTES: nat := 131074  // 65537 words of 0xffff sum to 2^32 - 1

  function Be16(v: nat): (r: Bytes)
    ensures |r| == 2
  {
    [Byte8(v / 256), Byte8(v)]
  }

  function Word(hi: Byte, lo: Byte): (v: nat)
    ensures v < U16
  {
    hi as nat * 256 + lo as nat
  }

  function ReadBe16(b: Bytes, off: nat): (v: nat)
    requires off + 2 <= |b|
    ensures v < U16
  {
    Word(b[off], b[off + 1])
  }

  lemma Be16RoundTrip(v: nat)
    requires v < U16
    ensures ReadBe16(Be16(v), 0) == v
  {
  }

  /** The sum of the 16-bit words; an odd last byte is a high half. */
  function WordSum(b: Bytes): nat {
    if |b| == 0 then 0
    else if |b| == 1 then b[0] as nat * 256
    else Word(b[0], b[1]) + WordSum(b[2..])
  }

  lemma {:induction false} WordSumBound(b: Bytes)
    ensures WordSum(b) <= (U16 - 1) * ((|b| + 1) / 2)
  {
    if |b| > 1 {
      WordSumBound(b[2..]);
    }
  }

  /** The carries folded back in until 16 bits are left. */
  function Fold(sum: nat): (r: nat)
    ensures r < U16
  {
    if sum < U16 then sum else Fold(sum % U16 + sum / U16)
  }

  /** Folding keeps the sum modulo 65535, and only zero folds to zero. */
  lemma {:induction false} FoldIs(sum: nat)
    ensures Fold(sum) % (U16 - 1) == sum % (U16 - 1)
    ensures Fold(sum) == 0 <==> sum == 0
    decreases sum
  {
    if sum >= U16 {
      var next := sum % U16 + sum / U16;
      FoldIs(next);
      assert sum == next + (U16 - 1) * (sum / U16);
      SameModulo(next, sum / U16);
    }
  }

  lemma SameModulo(a: nat, k: nat)
    ensures (a + (U16 - 1) * k) % (U16 - 1) == a % (U16 - 1)
  {
    var m := U16 - 1;
    var q, r := a / m, a % m;
    assert a + m * k == m * (q + k) + r;
  }

  function ChecksumOf(b: Bytes): (c: nat)
    ensures c < U16
  {
    U16 - 1 - Fold(WordSum(b))
  }

  /** The first loop of checksum, in 32-bit arithmetic. */
  method SumWords(b: Bytes) returns (sum: nat)
    requires |b| <= MAX_BYTES
    ensures sum == WordSum(b)
  {
    NoWrap(b);
    hide Word;
    sum := 0;
    var i: nat := 0;
    while i + 1 < |b|
      invariant i <= |b| && sum + WordSum(b[i..]) == WordSum(b)
    {
      assert b[i..][2..] == b[i + 2..];
      assert WordSum(b[i..]) == Word(b[i], b[i + 1]) + WordSum(b[i + 2..]);
      sum := (sum + Word(b[i], b[i + 1])) % U32;
      i := i + 2;
    }
    if i < |b| {
      sum := (sum + b[i] as nat * 256) % U32;
    }
  }

  lemma NoWrap(b: Bytes)
    requires |b| <= MAX_BYTES
    ensures WordSum(b) < U32
  {
    WordSumBound(b);
  }

  /** checksum: sum the words, fold the carries, complement. */
  method ComputeChecksum(b: Bytes) returns (c: nat)
    requires |b| <= MAX_BYTES
    ensures c == ChecksumOf(b)
  {
    var sum: nat := SumWords(b);
    while sum / U16 != 0
      invariant Fold(sum) == Fold(WordSum(b))
      decreases sum
    {
      sum := sum % U16 + sum / U16;
    }
    return U16 - 1 - sum;
  }

  /** Filling a zeroed, even field adds the value to the sum. */
  lemma {:induction false} FillAdds(b: Bytes, off: nat, v: nat)
    requires off % 2 == 0 && off + 2 <= |b| && v < U16 && b[off] == NUL && b[off + 1] == NUL
    ensures WordSum(Put(b, off, Be16(v))) == WordSum(b) + v
    decreases off
  {
    var b' := Put(b, off, Be16(v));
    if off == 0 {
      assert b'[2..] == b[2..] && b'[0] == Be16(v)[0] && b'[1] == Be16(v)[1];
      Be16RoundTrip(v);
    } else {
      assert b'[0] == b[0] && b'[1] == b[1];
      assert b'[2..] == Put(b[2..], off - 2, Be16(v));
      FillAdds(b[2..], off - 2, v);
    }
  }

  /** A sum completed by its own checksum folds to all ones. */
  lemma Completes(sum: nat)
    ensures Fold(sum + (U16 - 1 - Fold(sum))) == U16 - 1
  {
    hide Fold;
    var m := U16 - 1;
    var total := sum + (m - Fold(sum));
    FoldIs(sum);
    FoldIs(total);
    var q, r := sum / m, sum % m;
    assert sum == m * q + r;
    var p := Fold(sum) / m;
    assert Fold(sum) == m * p + r;
    assert total == m * (q + 1 - p);
    Multiple(q + 1 - p);
  }

  lemma Multiple(k: int)
    ensures (U16 - 1) * k % (U16 - 1) == 0
  {
  }

  /** The checksum in its zeroed field makes the whole verify to zero. */
  lemma ChecksumVerifies(b: Bytes, off: nat)
    requires off % 2 == 0 && off + 2 <= |b| && b[off] == NUL && b[off + 1] == NUL
    ensures ChecksumOf(Put(b, off, Be16(ChecksumOf(b)))) == 0
  {
    FillAdds(b, off, ChecksumOf(b));
    Completes(WordSum(b));
  }

  // ---- what the sum is, byte by byte ----

  /** Every byte at its weight: 256 at an even place, 1 at an odd one. */
  function WeightedSum(b: Bytes): nat {
    if |b| == 0 then 0
    else WeightedSum(b[..|b| - 1]) + b[|b| - 1] as nat * if (|b| - 1) % 2 == 0 then 256 else 1
  }

  lemma {:induction false} WordSumMore(b: Bytes, c: Byte)
    ensures WordSum(b + [c]) == WordSum(b) + c as nat * if |b| % 2 == 0 then 256 else 1
    decreases |b|
  {
    if |b| >= 2 {
      assert (b + [c])[2..] == b[2..] + [c];
      WordSumMore(b[2..], c);
    } else if |b| == 1 {
      assert (b + [c])[2..] == [];
    }
  }

  lemma {:induction false} WordSumIs(b: Bytes)
    ensures WordSum(b) == WeightedSum(b)
    decreases |b|
  {
    if |b| > 0 {
      var n := |b| - 1;
      WordSumIs(b[..n]);
      WordSumMore(b[..n], b[n]);
      assert b[..n] + [b[n]] == b;
    }
  }

  lemma {:induction false} ZeroSum(b: Bytes)
    ensures WeightedSum(b) == 0 <==> forall i :: 0 <= i < |b| ==> b[i] == NUL
    decreases |b|
  {
    if |b| > 0 {
      var n := |b| - 1;
      ZeroSum(b[..n]);
      assert forall i :: 0 <= i < n ==> b[..n][i] == b[i];
      if WeightedSum(b) == 0 {
        assert b[n] == NUL;
      }
    }
  }

  /** The checksum of any bytes: its complement is their weighted sum modulo 65535,
      and is 0 only for zero bytes; so it is determined. A zero byte behind an odd
      number of them does not change it. */
  lemma ChecksumIs(b: Bytes)
    ensures (0xFFFF - ChecksumOf(b)) % 0xFFFF == WeightedSum(b) % 0xFFFF
    ensures ChecksumOf(b) == 0xFFFF <==> forall i :: 0 <= i < |b| ==> b[i] == NUL
    ensures |b| % 2 == 1 ==> ChecksumOf(b + [NUL]) == ChecksumOf(b)
  {
    hide Fold;
    WordSumIs(b);
    FoldIs(WordSum(b));
    ZeroSum(b);
    WordSumMore(b, NUL);
  }
}
