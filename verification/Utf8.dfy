/** Text as UTF-8 bytes: which byte strings are valid, where a valid one may be
    cut, and the characters that count as blanks. */
module Utf8 {
  import opened Bytes

  predicate Between(c: Byte, lo: nat, hi: nat) {
    lo <= c as nat <= hi
  }

  /** A byte inside a character. */
  predicate Continues(c: Byte) {
    Between(c, 0x80, 0xBF)
  }

  /** The length of the character b starts with; 0 when it starts with none. */
  function CharLen(b: Bytes): (n: nat)
    ensures n <= 4 && n <= |b|
  {
    if |b| == 0 then 0
    else
      var c := b[0] as nat;
      if c < 0x80 then 1
      else if |b| < 2 || !SecondOk(c, b[1]) then 0
      else if c < 0xE0 then 2
      else if |b| < 3 || !Continues(b[2]) then 0
      else if c < 0xF0 then 3
      else if |b| < 4 || !Continues(b[3]) then 0
      else 4
  }

  /** A lead byte and the second bytes it allows: no overlong form, no surrogate,
      nothing past U+10FFFF. */
  predicate SecondOk(c: nat, d: Byte) {
    if c < 0xC2 || c > 0xF4 then false
    else if c == 0xE0 then Between(d, 0xA0, 0xBF)
    else if c == 0xED then Between(d, 0x80, 0x9F)
    else if c == 0xF0 then Between(d, 0x90, 0xBF)
    else if c == 0xF4 then Between(d, 0x80, 0x8F)
    else Continues(d)
  }

  predicate Valid(b: Bytes)
    decreases |b|
  {
    |b| == 0 || (CharLen(b) > 0 && Valid(b[CharLen(b)..]))
  }

  predicate Ascii(b: Bytes) {
    forall i :: 0 <= i < |b| ==> b[i] as nat < 0x80
  }

  lemma {:induction false} AsciiValid(b: Bytes)
    requires Ascii(b)
    ensures Valid(b)
    decreases |b|
  {
    if |b| > 0 {
      AsciiValid(b[1..]);
    }
  }

  lemma CharLenPrefix(a: Bytes, b: Bytes)
    requires CharLen(a) > 0
    ensures CharLen(a + b) == CharLen(a) && (a + b)[CharLen(a)..] == a[CharLen(a)..] + b
  {
  }

  /** Behind valid text, the whole is valid exactly when the rest is. */
  lemma {:induction false} ValidJoin(a: Bytes, b: Bytes)
    requires Valid(a)
    ensures Valid(a + b) <==> Valid(b)
    decreases |a|
  {
    hide CharLen;
    if |a| == 0 {
      assert a + b == b;
    } else {
      CharLenPrefix(a, b);
      ValidJoin(a[CharLen(a)..], b);
    }
  }

  // ---- characters as code points ----

  /** A Unicode scalar value. */
  predicate Scalar(p: nat) {
    p < 0x11_0000 && !(0xD800 <= p <= 0xDFFF)
  }

  function Tail6(v: nat): Byte {
    (0x80 + v % 64) as char
  }

  /** Its bytes, as section 3 of RFC 3629 has them. */
  function Encode(p: nat): (r: Bytes)
    requires Scalar(p)
    ensures 1 <= |r| <= 4
  {
    if p < 0x80 then [p as char]
    else if p < 0x800 then [(0xC0 + p / 64) as char, Tail6(p)]
    else if p < 0x1_0000 then [(0xE0 + p / 64 / 64) as char, Tail6(p / 64), Tail6(p)]
    else [(0xF0 + p / 64 / 64 / 64) as char, Tail6(p / 64 / 64), Tail6(p / 64), Tail6(p)]
  }

  /** The bytes of every scalar value are one character. */
  lemma EncodedIsChar(p: nat, rest: Bytes)
    requires Scalar(p)
    ensures CharLen(Encode(p) + rest) == |Encode(p)|
  {
    var b := Encode(p) + rest;
    if p >= 0x80 {
      assert b[1] == Encode(p)[1];
    }
    if p >= 0x800 {
      assert b[2] == Encode(p)[2];
    }
    if p >= 0x1_0000 {
      assert b[3] == Encode(p)[3];
    }
  }

  function Low6(c: Byte): nat
    requires Continues(c)
  {
    c as nat - 0x80
  }

  /** The scalar value of the character b starts with. */
  function PointOf(b: Bytes): nat
    requires CharLen(b) > 0
  {
    var c := b[0] as nat;
    match CharLen(b)
    case 1 => c
    case 2 => (c - 0xC0) * 64 + Low6(b[1])
    case 3 => ((c - 0xE0) * 64 + Low6(b[1])) * 64 + Low6(b[2])
    case _ => (((c - 0xF0) * 64 + Low6(b[1])) * 64 + Low6(b[2])) * 64 + Low6(b[3])
  }

  lemma Split6(a: nat, c: nat)
    requires c < 64
    ensures (a * 64 + c) / 64 == a && (a * 64 + c) % 64 == c
  {
  }

  /** Every character is the bytes of a scalar value. */
  lemma CharIsEncoded(b: Bytes)
    requires CharLen(b) > 0
    ensures Scalar(PointOf(b)) && b[..CharLen(b)] == Encode(PointOf(b))
  {
    if CharLen(b) == 2 {
      TwoBytes(b);
    } else if CharLen(b) == 3 {
      ThreeBytes(b);
    } else if CharLen(b) == 4 {
      FourBytes(b);
    }
  }

  lemma TwoBytes(b: Bytes)
    requires CharLen(b) == 2
    ensures Scalar(PointOf(b)) && b[..2] == Encode(PointOf(b))
  {
    Split6(b[0] as nat - 0xC0, Low6(b[1]));
    assert b[..2] == [b[0], b[1]];
  }

  lemma ThreeBytes(b: Bytes)
    requires CharLen(b) == 3
    ensures Scalar(PointOf(b)) && b[..3] == Encode(PointOf(b))
  {
    var h := (b[0] as nat - 0xE0) * 64 + Low6(b[1]);
    Split6(b[0] as nat - 0xE0, Low6(b[1]));
    Split6(h, Low6(b[2]));
    assert b[..3] == [b[0], b[1], b[2]];
  }

  lemma FourBytes(b: Bytes)
    requires CharLen(b) == 4
    ensures Scalar(PointOf(b)) && b[..4] == Encode(PointOf(b))
  {
    var g := (b[0] as nat - 0xF0) * 64 + Low6(b[1]);
    var h := g * 64 + Low6(b[2]);
    Split6(b[0] as nat - 0xF0, Low6(b[1]));
    Split6(g, Low6(b[2]));
    Split6(h, Low6(b[3]));
    assert b[..4] == [b[0], b[1], b[2], b[3]];
  }

  // ---- cutting ----

  /** A character boundary: an end, or a byte that does not continue one. */
  predicate Boundary(b: Bytes, n: nat) {
    n == 0 || n == |b| || (n < |b| && !Continues(b[n]))
  }

  lemma InsideChar(b: Bytes, n: nat)
    requires 0 < n < CharLen(b)
    ensures CharLen(b[..n]) == 0 && Continues(b[n])
  {
  }

  lemma StartsChar(b: Bytes)
    requires CharLen(b) > 0
    ensures !Continues(b[0])
  {
  }

  /** Valid text cut at n is valid exactly when n is a character boundary. */
  lemma {:induction false} CutValid(b: Bytes, n: nat)
    requires Valid(b) && n <= |b|
    ensures Valid(b[..n]) <==> Boundary(b, n)
    decreases |b|
  {
    hide CharLen, Continues;
    var k := CharLen(b);
    if n == 0 {
      assert b[..n] == [];
    } else if n < k {
      InsideChar(b, n);
    } else {
      var rest := b[k..];
      CutValid(rest, n - k);
      assert b[..n] == b[..k] + rest[..n - k];
      OneChar(b);
      ValidJoin(b[..k], rest[..n - k]);
      if k == n && n < |b| {
        StartsChar(rest);
      }
    }
  }

  lemma OneChar(b: Bytes)
    requires CharLen(b) > 0
    ensures Valid(b[..CharLen(b)])
  {
    var c := b[..CharLen(b)];
    assert CharLen(c) == CharLen(b);
    assert c[CharLen(c)..] == [];
  }

  // ---- blanks ----

  predicate AsciiBlank(c: Byte) {
    c == ' ' || Between(c, 9, 13)
  }

  /** U+0085 and U+00A0. */
  predicate Blank2(a: Byte, b: Byte) {
    a as nat == 0xC2 && (b as nat == 0x85 || b as nat == 0xA0)
  }

  /** U+1680, U+2000 to U+200A, U+2028, U+2029, U+202F, U+205F and U+3000. */
  predicate Blank3(a: Byte, b: Byte, c: Byte) {
    || (a as nat == 0xE1 && b as nat == 0x9A && c as nat == 0x80)
    || (a as nat == 0xE2 && b as nat == 0x80 && (Between(c, 0x80, 0x8A) || Between(c, 0xA8, 0xA9) || c as nat == 0xAF))
    || (a as nat == 0xE2 && b as nat == 0x81 && c as nat == 0x9F)
    || (a as nat == 0xE3 && b as nat == 0x80 && c as nat == 0x80)
  }

  /** The length of the blank s starts with, 0 when it starts with none. */
  function BlankHead(s: Bytes): (n: nat)
    ensures n <= |s|
  {
    if |s| > 0 && AsciiBlank(s[0]) then 1
    else if |s| > 1 && Blank2(s[0], s[1]) then 2
    else if |s| > 2 && Blank3(s[0], s[1], s[2]) then 3
    else 0
  }

  /** The length of the blank s ends with, 0 when it ends with none. */
  function BlankEnd(s: Bytes): (n: nat)
    ensures n <= |s|
  {
    var k := |s|;
    if k > 0 && AsciiBlank(s[k - 1]) then 1
    else if k > 1 && Blank2(s[k - 2], s[k - 1]) then 2
    else if k > 2 && Blank3(s[k - 3], s[k - 2], s[k - 1]) then 3
    else 0
  }

  /** A blank of valid text is one of its characters. */
  lemma BlankIsChar(s: Bytes)
    requires BlankHead(s) > 0
    ensures CharLen(s) == BlankHead(s)
  {
  }

  /** A visible ASCII character at an end is no blank, nor part of one. */
  predicate Visible(c: Byte) {
    c as nat < 0x80 && !AsciiBlank(c)
  }

  lemma VisibleEnds(s: Bytes)
    requires |s| > 0
    ensures Visible(s[0]) ==> BlankHead(s) == 0
    ensures Visible(s[|s| - 1]) ==> BlankEnd(s) == 0
  {
  }

  /** The characters Unicode calls white space. */
  predicate WhiteSpace(p: nat) {
    || 9 <= p <= 13 || p in {0x20, 0x85, 0xA0, 0x1680, 0x2028, 0x2029, 0x202F, 0x205F, 0x3000}
    || 0x2000 <= p <= 0x200A
  }

  /** They are the blanks, and nothing else is. */
  lemma BlankExact(p: nat)
    requires Scalar(p)
    ensures BlankHead(Encode(p)) == if WhiteSpace(p) then |Encode(p)| else 0
  {
    if 0x800 <= p < 0x1_0000 {
      var h := p / 64;
      assert p == h * 64 + p % 64 && h == h / 64 * 64 + h % 64;
    } else if p >= 0x80 {
      assert p == p / 64 * 64 + p % 64;
    }
  }

  /** Nothing but blanks. */
  predicate AllBlank(b: Bytes)
    decreases |b|
  {
    |b| == 0 || (BlankHead(b) > 0 && AllBlank(b[BlankHead(b)..]))
  }

  lemma BlankFirst(b: Bytes, rest: Bytes)
    requires BlankHead(b) > 0
    ensures BlankHead(b + rest) == BlankHead(b) && (b + rest)[BlankHead(b)..] == b[BlankHead(b)..] + rest
  {
  }

  lemma {:induction false} BlankJoin(a: Bytes, b: Bytes)
    requires AllBlank(a) && AllBlank(b)
    ensures AllBlank(a + b)
    decreases |a|
  {
    hide BlankHead;
    if |a| == 0 {
      assert a + b == b;
    } else {
      BlankFirst(a, b);
      BlankJoin(a[BlankHead(a)..], b);
    }
  }

  /** Blanks do not complete a character before them, nor need one. */
  lemma BlankBehind(s: Bytes, b: Bytes)
    requires AllBlank(b) && |s| > 0 && BlankHead(s) == 0
    ensures BlankHead(s + b) == 0
  {
    if |b| > 0 {
      assert BlankHead(b) > 0;
    }
  }

  lemma OneBlank(b: Bytes)
    requires |b| > 0 && BlankHead(b) == |b|
    ensures BlankEnd(b) == |b|
  {
  }

  lemma BlankLast(a: Bytes, b: Bytes)
    requires BlankEnd(b) > 0
    ensures BlankEnd(a + b) == BlankEnd(b) && (a + b)[..|a + b| - BlankEnd(b)] == a + b[..|b| - BlankEnd(b)]
  {
  }

  /** What is blank from the front is blank from the end. */
  lemma {:induction false} BlankBack(b: Bytes)
    requires AllBlank(b) && |b| > 0
    ensures BlankEnd(b) > 0 && AllBlank(b[..|b| - BlankEnd(b)])
    decreases |b|
  {
    hide BlankHead, BlankEnd;
    var h := BlankHead(b);
    var first, rest := b[..h], b[h..];
    assert b == first + rest;
    HeadOnly(b);
    if |rest| == 0 {
      assert first == b;
      OneBlank(b);
      assert b[..|b| - BlankEnd(b)] == [];
    } else {
      BlankBack(rest);
      BlankLast(first, rest);
      BlankJoin(first, rest[..|rest| - BlankEnd(rest)]);
    }
  }

  lemma HeadOnly(b: Bytes)
    requires BlankHead(b) > 0
    ensures BlankHead(b[..BlankHead(b)]) == BlankHead(b) && AllBlank(b[..BlankHead(b)])
  {
    var f := b[..BlankHead(b)];
    assert BlankHead(f) == |f|;
    assert f[BlankHead(f)..] == [];
  }
}
