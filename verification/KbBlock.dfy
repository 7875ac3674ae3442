/** The two fixed-width fields of any block of text: where they are found, and
    what overwriting them does. */
module KbBlock {
  import opened Options
  import opened Bytes
  import opened Utf8
  import opened Kb
  import opened KbFields

  const SEEN_MAX: nat := 99999

  /** What the two fields say. */
  datatype Mem = Mem(seen: nat, escalated: bool)

  /** A count as the field holds it. */
  function Cap(n: nat): nat {
    Capped(n, SEEN_MAX)
  }

  /** Equal but for digits that stand for digits. */
  predicate SameButDigits(a: Bytes, b: Bytes) {
    |a| == |b| && forall i :: 0 <= i < |a| ==> a[i] == b[i] || (Digit(a[i]) && Digit(b[i]))
  }

  predicate NoDigits(key: Bytes) {
    forall i :: 0 <= i < |key| ==> !Digit(key[i])
  }

  lemma MatchSame(a: Bytes, b: Bytes, key: Bytes, p: nat)
    requires SameButDigits(a, b) && NoDigits(key) && MatchAt(a, p, key)
    ensures MatchAt(b, p, key)
  {
    forall i | 0 <= i < |key| ensures b[p..p + |key|][i] == key[i] {
      MatchHas(a, p, key, i);
    }
    assert b[p..p + |key|] == key;
  }

  lemma Symmetric(a: Bytes, b: Bytes)
    requires SameButDigits(a, b)
    ensures SameButDigits(b, a)
  {
  }

  /** A key without digits is found in the same place. */
  lemma FirstSame(a: Bytes, b: Bytes, key: Bytes)
    requires SameButDigits(a, b) && NoDigits(key)
    ensures FirstMatch(a, key, 0) == FirstMatch(b, key, 0)
  {
    hide MatchAt, SameButDigits;
    Symmetric(a, b);
    var x, y := FirstMatch(a, key, 0), FirstMatch(b, key, 0);
    if x.Some? {
      MatchSame(a, b, key, x.value);
    }
    if y.Some? {
      MatchSame(b, a, key, y.value);
    }
  }

  lemma CharSame(a: Bytes, b: Bytes)
    requires SameButDigits(a, b)
    ensures CharLen(a) == CharLen(b)
  {
  }

  /** Digits in the place of digits keep text valid, and invalid text invalid. */
  lemma {:induction false} ValidSame(a: Bytes, b: Bytes)
    requires SameButDigits(a, b)
    ensures Valid(a) <==> Valid(b)
    decreases |a|
  {
    hide CharLen;
    CharSame(a, b);
    var n := CharLen(a);
    if n > 0 {
      ValidSame(a[n..], b[n..]);
    }
  }

  /** and the ends of its characters. */
  lemma BoundarySame(a: Bytes, b: Bytes, n: nat)
    requires SameButDigits(a, b)
    ensures Boundary(a, n) <==> Boundary(b, n)
  {
  }

  /** The first occurrence of key is followed by width digits. */
  predicate HasField(b: Bytes, key: Bytes, width: nat) {
    && FirstMatch(b, key, 0).Some?
    && var s := FirstMatch(b, key, 0).value + |key|;
       s + width <= |b| && forall i :: s <= i < s + width ==> Digit(b[i])
  }

  /** Where the digits of the field start. */
  function FieldAt(b: Bytes, key: Bytes): nat
    requires FirstMatch(b, key, 0).Some?
  {
    FirstMatch(b, key, 0).value + |key|
  }

  /** A field is overwritten exactly where there is one, by the capped value. */
  lemma SetFieldIff(b: Bytes, key: Bytes, value: nat, width: nat)
    ensures SetField(b, key, value, width).Some? <==> HasField(b, key, width)
    ensures HasField(b, key, width) ==>
      SetField(b, key, value, width) == Some(Put(b, FieldAt(b, key), Digits(Capped(value, MaxField(width)), width)))
  {
    hide FirstMatch, Digits, Put, MaxField;
  }

  lemma PutDigits(b: Bytes, s: nat, d: Bytes)
    requires s + |d| <= |b| && (forall i :: s <= i < s + |d| ==> Digit(b[i])) && forall i :: 0 <= i < |d| ==>
      Digit(d[i])
    ensures SameButDigits(b, Put(b, s, d))
  {
  }

  lemma FieldSame(a: Bytes, b: Bytes, key: Bytes, width: nat)
    requires SameButDigits(a, b) && NoDigits(key) && HasField(a, key, width)
    ensures HasField(b, key, width) && FieldAt(b, key) == FieldAt(a, key)
  {
    hide FirstMatch;
    FirstSame(a, b, key);
  }

  /** Both fields are there. */
  predicate Fielded(b: Bytes) {
    HasField(b, SEEN_KEY, SEEN_WIDTH) && HasField(b, FLAG_KEY, 1)
  }

  lemma KeysPlain()
    ensures NoDigits(SEEN_KEY) && NoDigits(FLAG_KEY) && |SEEN_KEY| == 6 && |FLAG_KEY| == 11
  {
  }

  lemma FieldedSame(a: Bytes, b: Bytes)
    requires SameButDigits(a, b) && Fielded(a)
    ensures Fielded(b) && FieldAt(b, SEEN_KEY) == FieldAt(a, SEEN_KEY) && FieldAt(b, FLAG_KEY) == FieldAt(a, FLAG_KEY)
  {
    hide HasField, FirstMatch, SameButDigits;
    KeysPlain();
    FieldSame(a, b, SEEN_KEY, SEEN_WIDTH);
    FieldSame(a, b, FLAG_KEY, 1);
  }

  /** The two fields do not overlap. */
  lemma Apart(b: Bytes)
    requires Fielded(b)
    ensures FieldAt(b, SEEN_KEY) + SEEN_WIDTH <= FieldAt(b, FLAG_KEY)
      || FieldAt(b, FLAG_KEY) + 1 <= FieldAt(b, SEEN_KEY)
  {
    hide FirstMatch, MatchAt;
    var p, q := FirstMatch(b, SEEN_KEY, 0).value, FirstMatch(b, FLAG_KEY, 0).value;
    MatchHas(b, q, FLAG_KEY, 10);
    MatchHas(b, q, FLAG_KEY, 8);
    MatchHas(b, p, SEEN_KEY, 3);
    assert !Digit(' ');
  }

  /** The text with its two fields set to n and f. */
  function WithFields(b: Bytes, n: nat, f: bool): (r: Bytes)
    requires Fielded(b)
    ensures |r| == |b|
  {
    Put(Put(b, FieldAt(b, SEEN_KEY), Digits(n, SEEN_WIDTH)), FieldAt(b, FLAG_KEY), FlagText(f))
  }

  function SeenOf(b: Bytes): nat
    requires Fielded(b)
  {
    Value(b[FieldAt(b, SEEN_KEY)..FieldAt(b, SEEN_KEY) + SEEN_WIDTH])
  }

  predicate FlagOf(b: Bytes)
    requires Fielded(b)
  {
    b[FieldAt(b, FLAG_KEY)] == '1'
  }

  /** Setting the fields keeps their places, gives them those values, and changes
      no other byte. */
  lemma WithFieldsIs(b: Bytes, n: nat, f: bool)
    requires Fielded(b) && n <= SEEN_MAX
    ensures SameButDigits(b, WithFields(b, n, f)) && Fielded(WithFields(b, n, f))
    ensures SeenOf(WithFields(b, n, f)) == n && FlagOf(WithFields(b, n, f)) == f
    ensures FieldAt(WithFields(b, n, f), SEEN_KEY) == FieldAt(b, SEEN_KEY)
    ensures FieldAt(WithFields(b, n, f), FLAG_KEY) == FieldAt(b, FLAG_KEY)
    ensures var p, q := FieldAt(b, SEEN_KEY), FieldAt(b, FLAG_KEY);
            forall i :: 0 <= i < |b| && !(p <= i < p + SEEN_WIDTH) && i != q ==> WithFields(b, n, f)[i] == b[i]
  {
    hide FirstMatch, Digits, FlagText;
    var p, q := FieldAt(b, SEEN_KEY), FieldAt(b, FLAG_KEY);
    Apart(b);
    FlagDigits(f);
    var r := WithFields(b, n, f);
    PutDigits(b, p, Digits(n, SEEN_WIDTH));
    var b1 := Put(b, p, Digits(n, SEEN_WIDTH));
    PutDigits(b1, q, FlagText(f));
    assert SameButDigits(b, r);
    FieldedSame(b, r);
    assert r[p..p + SEEN_WIDTH] == Digits(n, SEEN_WIDTH);
    assert r[q] == FlagText(f)[0];
    SeenDigits(n);
    FlagIs(f);
  }

  lemma SeenDigits(n: nat)
    requires n <= SEEN_MAX
    ensures Value(Digits(n, SEEN_WIDTH)) == n
  {
    Widths();
    assert Pow10(5) == 100000;
    DigitsValue(n, SEEN_WIDTH);
  }

  lemma FlagIs(f: bool)
    ensures |FlagText(f)| == 1 && (FlagText(f)[0] == '1' <==> f)
  {
  }

  // ---- what the writer does to a block ----

  /** set_seen_in_block and set_escalated_in_block, both tried; None when either
      is refused. */
  function SetBoth(b: Bytes, seen: nat, escalated: bool): Option<Bytes> {
    var r1 := SetField(b, SEEN_KEY, seen, SEEN_WIDTH);
    var r2 := SetField(if r1.Some? then r1.value else b, FLAG_KEY, if escalated then 1 else 0, 1);
    if r1.Some? then r2 else None
  }

  /** Both are accepted exactly when both fields are there, and then set them. */
  lemma SetBothIs(b: Bytes, seen: nat, escalated: bool)
    ensures SetBoth(b, seen, escalated).Some? <==> Fielded(b)
    ensures Fielded(b) ==> SetBoth(b, seen, escalated) == Some(WithFields(b, Cap(seen), escalated))
  {
    hide FirstMatch, SetField, Digits, FlagText, Put, HasField, MaxField, SameButDigits;
    Widths();
    KeysPlain();
    FlagDigits(escalated);
    SetFieldIff(b, SEEN_KEY, seen, SEEN_WIDTH);
    if HasField(b, SEEN_KEY, SEEN_WIDTH) {
      var b1 := SetField(b, SEEN_KEY, seen, SEEN_WIDTH).value;
      SetKeeps(b, SEEN_KEY, seen, SEEN_WIDTH);
      Symmetric(b, b1);
      SetFieldIff(b1, FLAG_KEY, if escalated then 1 else 0, 1);
      if HasField(b, FLAG_KEY, 1) {
        FieldSame(b, b1, FLAG_KEY, 1);
      }
      if HasField(b1, FLAG_KEY, 1) {
        FieldSame(b1, b, FLAG_KEY, 1);
      }
    }
  }

  lemma SetKeeps(b: Bytes, key: Bytes, value: nat, width: nat)
    requires HasField(b, key, width)
    ensures SetField(b, key, value, width).Some? && SameButDigits(b, SetField(b, key, value, width).value)
  {
    hide FirstMatch, Digits, Put, MaxField;
    SetFieldIff(b, key, value, width);
    PutDigits(b, FieldAt(b, key), Digits(Capped(value, MaxField(width)), width));
  }

  // ---- a field found early is found in every longer text ----

  /** Texts that agree up to the end of the field have the same field. */
  lemma FieldAgree(a: Bytes, b: Bytes, key: Bytes, width: nat)
    requires HasField(a, key, width) && a <= b && |key| > 0
    ensures HasField(b, key, width) && FieldAt(b, key) == FieldAt(a, key)
  {
    var p := FirstMatch(a, key, 0).value;
    assert b[p..p + |key|] == a[p..p + |key|];
    assert MatchAt(b, p, key);
    forall q | 0 <= q < p ensures !MatchAt(b, q, key) {
      assert b[q..q + |key|] == a[q..q + |key|];
      assert !MatchAt(a, q, key);
    }
  }

  lemma FieldedAgree(a: Bytes, b: Bytes)
    requires Fielded(a) && a <= b
    ensures Fielded(b) && FieldAt(b, SEEN_KEY) == FieldAt(a, SEEN_KEY) && FieldAt(b, FLAG_KEY) == FieldAt(a, FLAG_KEY)
  {
    hide HasField, FirstMatch;
    KeysPlain();
    FieldAgree(a, b, SEEN_KEY, SEEN_WIDTH);
    FieldAgree(a, b, FLAG_KEY, 1);
  }

  /** The fields of a prefix that has them are set in the prefix. */
  lemma WithFieldsPrefix(a: Bytes, rest: Bytes, n: nat, f: bool)
    requires Fielded(a)
    ensures Fielded(a + rest) && WithFields(a + rest, n, f) == WithFields(a, n, f) + rest
  {
    hide FirstMatch, Digits, FlagText, Put;
    FieldedAgree(a, a + rest);
    FlagIs(f);
    var p, q := FieldAt(a, SEEN_KEY), FieldAt(a, FLAG_KEY);
    PutPrefix(a, rest, p, Digits(n, SEEN_WIDTH));
    PutPrefix(Put(a, p, Digits(n, SEEN_WIDTH)), rest, q, FlagText(f));
  }
}
