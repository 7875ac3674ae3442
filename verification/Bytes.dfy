/** Byte strings: slices, overwriting in place, little-endian words. */
module Bytes {
  type Byte = c: char | c as int < 256 witness '\0'
  type Bytes = seq<Byte>

  const U32: nat := 0x1_0000_0000
  const NUL: Byte := '\0'

  function Min(a: nat, b: nat): nat {
    if a < b then a else b
  }

  function Byte8(v: nat): Byte {
    (v % 256) as char
  }

  function Slice(d: Bytes, off: nat, len: nat): (r: Bytes)
    requires off + len <= |d|
    ensures |r| == len
  {
    d[off..off + len]
  }

  /** d with b written over it from off on. */
  function Put(d: Bytes, off: nat, b: Bytes): (r: Bytes)
    requires off + |b| <= |d|
    ensures |r| == |d|
  {
    d[..off] + b + d[off + |b|..]
  }

  function Zeros(n: nat): (r: Bytes)
    ensures |r| == n
  {
    seq(n, _ => NUL)
  }

  lemma PutSame(d: Bytes, off: nat, b: Bytes)
    requires off + |b| <= |d|
    ensures Slice(Put(d, off, b), off, |b|) == b
  {
  }

  lemma PutOther(d: Bytes, off: nat, b: Bytes, o: nat, n: nat)
    requires off + |b| <= |d| && o + n <= |d| && (o + n <= off || off + |b| <= o)
    ensures Slice(Put(d, off, b), o, n) == Slice(d, o, n)
  {
  }

  /** A slice of what was written, and a slice of a slice. */
  lemma PutInside(d: Bytes, off: nat, b: Bytes, o: nat, n: nat)
    requires off + |b| <= |d| && o + n <= |b|
    ensures Slice(Put(d, off, b), off + o, n) == Slice(b, o, n)
  {
  }

  lemma SliceSlice(d: Bytes, off: nat, len: nat, o: nat, n: nat)
    requires off + len <= |d| && o + n <= len
    ensures Slice(Slice(d, off, len), o, n) == Slice(d, off + o, n)
  {
    var a, b := Slice(Slice(d, off, len), o, n), Slice(d, off + o, n);
    forall i | 0 <= i < n ensures a[i] == b[i] {
      assert a[i] == Slice(d, off, len)[o + i] == d[off + (o + i)];
    }
  }

  /** A slice of which part was overwritten. */
  lemma PutSlice(d: Bytes, off: nat, len: nat, o: nat, b: Bytes)
    requires off + len <= |d| && o + |b| <= len
    ensures Slice(Put(d, off + o, b), off, len) == Put(Slice(d, off, len), o, b)
  {
    var x, y := Slice(Put(d, off + o, b), off, len), Put(Slice(d, off, len), o, b);
    forall i | 0 <= i < len ensures x[i] == y[i] {
      assert x[i] == Put(d, off + o, b)[off + i];
    }
  }

  /** Overwriting part of a slice in place. */
  lemma PutWithin(d: Bytes, off: nat, len: nat, o: nat, b: Bytes)
    requires off + len <= |d| && o + |b| <= len
    ensures Put(d, off, Put(Slice(d, off, len), o, b)) == Put(d, off + o, b)
  {
  }

  function Le32(v: nat): (r: Bytes)
    requires v < U32
    ensures |r| == 4
  {
    [Byte8(v), Byte8(v / 256), Byte8(v / 256 / 256), Byte8(v / 256 / 256 / 256)]
  }

  function Read32(b: Bytes, off: nat): (v: nat)
    requires off + 4 <= |b|
    ensures v < U32
  {
    b[off] as nat + 256 * (b[off + 1] as nat + 256 * (b[off + 2] as nat + 256 * (b[off + 3] as nat)))
  }

  /** A word reads back from wherever it was written. */
  lemma Le32RoundTrip(b: Bytes, off: nat, v: nat)
    requires v < U32 && off + 4 <= |b| && Slice(b, off, 4) == Le32(v)
    ensures Read32(b, off) == v
  {
    var s := Slice(b, off, 4);
    assert s[0] == b[off] && s[1] == b[off + 1] && s[2] == b[off + 2] && s[3] == b[off + 3];
  }

  /** Two writes side by side are one. */
  lemma PutPut(d: Bytes, off: nat, a: Bytes, b: Bytes)
    requires off + |a| + |b| <= |d|
    ensures Put(Put(d, off, a), off + |a|, b) == Put(d, off, a + b)
  {
  }

  /** A write inside the first part stays there. */
  lemma PutPrefix(a: Bytes, rest: Bytes, off: nat, b: Bytes)
    requires off + |b| <= |a|
    ensures Put(a + rest, off, b) == Put(a, off, b) + rest
  {
    assert (a + rest)[..off] == a[..off];
    assert (a + rest)[off + |b|..] == a[off + |b|..] + rest;
  }

  lemma SubSlice(s: Bytes, a: nat, b: nat, i: nat, j: nat)
    requires a <= b <= |s| && i <= j <= b - a
    ensures s[a..b][i..j] == s[a + i..a + j]
  {
    var x, y := s[a..b][i..j], s[a + i..a + j];
    forall k | 0 <= k < j - i ensures x[k] == y[k] {
      assert x[k] == s[a..b][i + k] == s[a + (i + k)];
    }
  }

  /** Overwriting part of what was written. */
  lemma PutAgain(d: Bytes, off: nat, b: Bytes, o: nat, c: Bytes)
    requires off + |b| <= |d| && o + |c| <= |b|
    ensures Put(Put(d, off, b), off + o, c) == Put(d, off, Put(b, o, c))
  {
  }

  /** Overwrite part of an array. */
  method CopyInto(a: array<Byte>, off: nat, b: Bytes)
    requires off + |b| <= a.Length
    modifies a
    ensures a[..] == Put(old(a[..]), off, b)
  {
    forall j | 0 <= j < |b| {
      a[off + j] := b[j];
    }
  }
}
