/** Writing entries: the printer into a buffer, and the fixed-width fields
    overwritten in place. */
module KbFields {
  import opened Options
  import opened Bytes
  import opened Utf8
  import opened Kb

  // ---- serialize ----

  function Flatten(pieces: seq<Bytes>): Bytes {
    if |pieces| == 0 then [] else Flatten(pieces[..|pieces| - 1]) + pieces[|pieces| - 1]
  }

  function Pieces(id: Bytes, title: Bytes, playbook: Bytes, token: Bytes): seq<Bytes> {
    ["---\n"] + (["id: ", id, "\n"] + (["title: \"", title, "\"\n"] + (["match-cause: ", token, "\n"]
    + (["seen: 00000\n"] + (["escalated: 0\n"] + (["playbook:\n"] + (["  - \"", playbook, "\"\n"] + ["---\n"])))))))
  }

  function FlattenRight(pieces: seq<Bytes>): Bytes {
    if |pieces| == 0 then [] else pieces[0] + FlattenRight(pieces[1..])
  }

  lemma {:induction false} FlattenBoth(pieces: seq<Bytes>)
    ensures Flatten(pieces) == FlattenRight(pieces)
  {
    if |pieces| == 1 {
      assert Flatten(pieces) == [] + pieces[0] && FlattenRight(pieces) == pieces[0] + [];
    } else if |pieces| > 1 {
      var n := |pieces| - 1;
      var mid := pieces[1..n];
      FlattenBoth(pieces[..n]);
      FlattenBoth(pieces[1..]);
      FlattenBoth(mid);
      assert pieces[..n][1..] == mid && pieces[1..][..n - 1] == mid;
      assert FlattenRight(pieces[..n]) == pieces[0] + FlattenRight(mid);
      assert Flatten(pieces[1..]) == Flatten(mid) + pieces[n];
    }
  }

  lemma {:induction false} FlattenMonotone(pieces: seq<Bytes>, i: nat)
    requires i <= |pieces|
    ensures |Flatten(pieces[..i])| <= |Flatten(pieces)|
    decreases |pieces|
  {
    var n := |pieces|;
    if i < n {
      assert pieces[..n - 1][..i] == pieces[..i];
      FlattenMonotone(pieces[..n - 1], i);
    } else {
      assert pieces[..i] == pieces;
    }
  }

  /** serialize: the pieces one after another, None exactly when they do not fit;
      bytes behind the document are left alone. */
  method Serialize(id: Bytes, title: Bytes, playbook: Bytes, token: Bytes, out: array<Byte>) returns (r: Option<nat>)
    modifies out
    ensures var doc := Flatten(Pieces(id, title, playbook, token));
            && (r == if |doc| <= out.Length then Some(|doc|) else None)
            && (r.Some? ==> out[..] == Put(old(out[..]), 0, doc))
  {
    var pieces := Pieces(id, title, playbook, token);
    var n := 0;
    for i := 0 to |pieces|
      invariant n == |Flatten(pieces[..i])| <= out.Length
      invariant out[..n] == Flatten(pieces[..i])
      invariant forall j :: n <= j < out.Length ==> out[j] == old(out[j])
    {
      hide Pieces;
      assert pieces[..i + 1][..i] == pieces[..i];
      var b := pieces[i];
      if n + |b| > out.Length {
        FlattenMonotone(pieces, i + 1);
        return None;
      }
      forall j | 0 <= j < |b| {
        out[n + j] := b[j];
      }
      n := n + |b|;
    }
    assert pieces[..|pieces|] == pieces;
    return Some(n);
  }

  lemma One(s: Bytes, rest: seq<Bytes>)
    ensures FlattenRight([s + [NEWLINE]] + rest) == Line(s, FlattenRight(rest))
  {
    assert ([s + [NEWLINE]] + rest)[1..] == rest;
  }

  lemma Three(a: Bytes, b: Bytes, c: Bytes, line: Bytes, rest: seq<Bytes>)
    requires a + b + c == line + [NEWLINE]
    ensures FlattenRight([a, b, c] + rest) == Line(line, FlattenRight(rest))
  {
    var p, q, o := [a, b, c] + rest, [b, c] + rest, [c] + rest;
    assert p[1..] == q && q[1..] == o && o[1..] == rest;
    assert FlattenRight(q) == b + FlattenRight(o);
    assert FlattenRight(p) == a + (b + (c + FlattenRight(rest)));
    assert a + (b + (c + FlattenRight(rest))) == (a + b + c) + FlattenRight(rest);
  }

  /** What serialize prints is the document with both fields zero. */
  lemma PrintsDoc(id: Bytes, title: Bytes, playbook: Bytes, token: Bytes)
    ensures Flatten(Pieces(id, title, playbook, token)) == Doc(id, title, playbook, token, "00000", "0", [])
  {
    hide Line, FlattenRight, Flatten;
    var p8: seq<Bytes> := ["---\n"];
    var p7 := ["  - \"", playbook, "\"\n"] + p8;
    var p6 := ["playbook:\n"] + p7;
    var p5 := ["escalated: 0\n"] + p6;
    var p4 := ["seen: 00000\n"] + p5;
    var p3 := ["match-cause: ", token, "\n"] + p4;
    var p2 := ["title: \"", title, "\"\n"] + p3;
    var p1 := ["id: ", id, "\n"] + p2;
    FlattenBoth(["---\n"] + p1);
    LineEnds();
    One("---", p1);
    Three("id: ", id, "\n", "id: " + id, p2);
    Three("title: \"", title, "\"\n", "title: " + InQuotes(title), p3);
    Three("match-cause: ", token, "\n", "match-cause: " + token, p4);
    One("seen: 00000", p5);
    One("escalated: 0", p6);
    One("playbook:", p7);
    Three("  - \"", playbook, "\"\n", "  - " + InQuotes(playbook), p8);
    LastLine(p8);
    assert "seen: " + "00000" == "seen: 00000" && "escalated: " + "0" == "escalated: 0";
  }

  lemma LineEnds()
    ensures "---" + [NEWLINE] == "---\n" && "seen: 00000" + [NEWLINE] == "seen: 00000\n"
    ensures "escalated: 0" + [NEWLINE] == "escalated: 0\n" && "playbook:" + [NEWLINE] == "playbook:\n"
  {
  }

  lemma LastLine(p: seq<Bytes>)
    requires p == ["---\n"]
    ensures FlattenRight(p) == Line("---", [])
  {
    assert p[1..] == [];
    assert "---" + [NEWLINE] + [] == "---\n";
    assert FlattenRight(p) == p[0] + [];
  }

  // ---- fixed-width fields in place ----

  predicate MatchAt(b: Bytes, p: nat, key: Bytes) {
    p + |key| <= |b| && b[p..p + |key|] == key
  }

  /** The first position from i on where key occurs. */
  function FirstMatch(b: Bytes, key: Bytes, i: nat): (r: Option<nat>)
    ensures r.Some? ==> i <= r.value && MatchAt(b, r.value, key) && forall q :: i <= q < r.value ==> !MatchAt(b, q, key)
    ensures r.None? ==> forall q :: i <= q ==> !MatchAt(b, q, key)
    decreases |b| - i
  {
    if i + |key| > |b| then None
    else if MatchAt(b, i, key) then Some(i)
    else if i >= |b| then None
    else FirstMatch(b, key, i + 1)
  }

  /** The largest value the width can hold, in saturating 32-bit arithmetic. */
  function MaxField(width: nat): nat {
    if Pow10(width) < U32 then Pow10(width) - 1 else U32 - 2
  }

  function Capped(value: nat, max: nat): nat {
    if value < max then value else max
  }

  /** The block with the field overwritten; None when the key is absent or is not
      followed by exactly digits. */
  function SetField(block: Bytes, key: Bytes, value: nat, width: nat): Option<Bytes> {
    match FirstMatch(block, key, 0)
    case None => None
    case Some(p) =>
      var start := p + |key|;
      if start + width > |block| || exists i :: start <= i < start + width && !Digit(block[i]) then None
      else Some(Put(block, start, Digits(Capped(value, MaxField(width)), width)))
  }

  /** set_uint_field: digits written from the right, in place; on refusal nothing
      changes. */
  method SetUintField(block: array<Byte>, key: Bytes, value: nat, width: nat) returns (ok: bool)
    modifies block
    ensures ok == SetField(old(block[..]), key, value, width).Some?
    ensures block[..] == if ok then SetField(old(block[..]), key, value, width).value else old(block[..])
  {
    var p := FirstMatch(block[..], key, 0);
    if p.None? {
      return false;
    }
    var start := p.value + |key|;
    if start + width > block.Length || exists i :: start <= i < start + width && !Digit(block[i]) {
      return false;
    }
    WriteDigits(block, start, Capped(value, MaxField(width)), width);
    return true;
  }

  method WriteDigits(block: array<Byte>, start: nat, value: nat, width: nat)
    requires start + width <= block.Length
    modifies block
    ensures block[..] == Put(old(block[..]), start, Digits(value, width))
  {
    var n := value;
    ghost var full := Digits(n, width);
    var i := width;
    while i > 0
      invariant 0 <= i <= width
      invariant full[..i] == Digits(n, i)
      invariant forall j :: i <= j < width ==> block[start + j] == full[j]
      invariant forall j :: 0 <= j < block.Length && !(start + i <= j < start + width) ==> block[j] == old(block[j])
    {
      i := i - 1;
      DigitsSplit(n, i + 1);
      assert full[..i + 1][i] == full[i] && full[..i + 1][..i] == full[..i];
      block[start + i] := (48 + n % 10) as char;
      n := n / 10;
    }
    WrittenIs(old(block[..]), block[..], start, full);
  }

  lemma WrittenIs(was: Bytes, now: Bytes, start: nat, b: Bytes)
    requires |was| == |now| && start + |b| <= |was|
    requires forall j :: 0 <= j < |b| ==> now[start + j] == b[j]
    requires forall j :: 0 <= j < |was| && !(start <= j < start + |b|) ==> now[j] == was[j]
    ensures now == Put(was, start, b)
  {
    forall j | 0 <= j < |was| ensures now[j] == Put(was, start, b)[j] {
      if start <= j < start + |b| {
        assert now[start + (j - start)] == b[j - start];
      }
    }
  }

  lemma DigitsSplit(n: nat, w: nat)
    requires w > 0
    ensures Digits(n, w)[..w - 1] == Digits(n / 10, w - 1) && Digits(n, w)[w - 1] == (48 + n % 10) as char
  {
  }

  // ---- finding the field of a document ----

  predicate Lacks(s: Bytes, key: Bytes) {
    forall p :: 0 <= p < |s| ==> !MatchAt(s, p, key)
  }

  /** No occurrence of key starts in prefix: one of its first three bytes is
      wrong already. */
  predicate NoStart(prefix: Bytes, key: Bytes) {
    |key| >= 3 && forall p :: 0 <= p < |prefix| ==> prefix[p] != key[0] || WrongNext(prefix, p, key)
  }

  predicate WrongNext(prefix: Bytes, p: nat, key: Bytes)
    requires |key| >= 3
  {
    (p + 1 < |prefix| && prefix[p + 1] != key[1]) || (p + 2 < |prefix| && prefix[p + 2] != key[2])
  }

  lemma MatchHas(b: Bytes, p: nat, key: Bytes, i: nat)
    requires MatchAt(b, p, key) && i < |key|
    ensures b[p + i] == key[i]
  {
    assert b[p..p + |key|][i] == b[p + i];
  }

  lemma LacksPrefixed(prefix: Bytes, s: Bytes, key: Bytes)
    requires NoStart(prefix, key) && Lacks(s, key)
    ensures Lacks(prefix + s, key)
  {
    var t := prefix + s;
    forall p | 0 <= p < |t| ensures !MatchAt(t, p, key) {
      if MatchAt(t, p, key) {
        MatchHas(t, p, key, 0);
        MatchHas(t, p, key, 1);
        MatchHas(t, p, key, 2);
        if p >= |prefix| {
          assert t[p..p + |key|] == s[p - |prefix|..p - |prefix| + |key|];
          assert MatchAt(s, p - |prefix|, key);
        }
      }
    }
  }

  lemma LacksSuffixed(s: Bytes, c: Byte, key: Bytes)
    requires Lacks(s, key) && c !in key && |key| > 0
    ensures Lacks(s + [c], key)
  {
    var t := s + [c];
    forall p | 0 <= p < |t| ensures !MatchAt(t, p, key) {
      if MatchAt(t, p, key) {
        if p + |key| == |t| {
          MatchHas(t, p, key, |key| - 1);
        } else {
          assert t[p..p + |key|] == s[p..p + |key|];
          assert MatchAt(s, p, key);
        }
      }
    }
  }

  /** Past a line that lacks the key, the search goes on in the rest. */
  lemma MatchSkip(s: Bytes, rest: Bytes, key: Bytes, q: nat)
    requires Lacks(s, key) && NEWLINE !in key && |key| > 0
    ensures MatchAt(Line(s, rest), q, key) <==> q > |s| && MatchAt(rest, q - |s| - 1, key)
  {
    var t := Line(s, rest);
    if q > |s| {
      if q + |key| <= |t| {
        assert t[q..q + |key|] == rest[q - |s| - 1..q - |s| - 1 + |key|];
      }
    } else if MatchAt(t, q, key) {
      if q + |key| > |s| {
        MatchHas(t, q, key, |s| - q);
      } else {
        assert t[q..q + |key|] == s[q..q + |key|];
        assert MatchAt(s, q, key);
      }
    }
  }

  lemma FirstSkip(s: Bytes, rest: Bytes, key: Bytes)
    requires Lacks(s, key) && NEWLINE !in key && |key| > 0
    ensures FirstMatch(Line(s, rest), key, 0) ==
      match FirstMatch(rest, key, 0) case None => None case Some(p) => Some(|s| + 1 + p)
  {
    hide MatchAt, Line;
    var a, b := FirstMatch(Line(s, rest), key, 0), FirstMatch(rest, key, 0);
    if a.Some? {
      MatchSkip(s, rest, key, a.value);
    }
    if b.Some? {
      MatchSkip(s, rest, key, |s| + 1 + b.value);
    }
  }

  /** Setting a field of the rest of a document. */
  lemma SetSkip(s: Bytes, rest: Bytes, key: Bytes, value: nat, width: nat)
    requires Lacks(s, key) && NEWLINE !in key && |key| > 0
    ensures SetField(Line(s, rest), key, value, width) ==
      match SetField(rest, key, value, width) case None => None case Some(r) => Some(Line(s, r))
  {
    hide FirstMatch, Digits, Put, MaxField;
    FirstSkip(s, rest, key);
    var t := Line(s, rest);
    if FirstMatch(rest, key, 0).Some? {
      var st := FirstMatch(rest, key, 0).value + |key|;
      var off := |s| + 1;
      if st + width <= |rest| {
        assert forall i :: st <= i < st + width ==> rest[i] == t[off + i];
        assert forall i :: off + st <= i < off + st + width ==> t[i] == rest[i - off];
        PutSkip(s, rest, st, Digits(Capped(value, MaxField(width)), width));
      }
    }
  }

  lemma PutSkip(s: Bytes, rest: Bytes, o: nat, b: Bytes)
    requires o + |b| <= |rest|
    ensures Put(Line(s, rest), |s| + 1 + o, b) == Line(s, Put(rest, o, b))
  {
  }

  /** Setting the field of the line that starts with the key. */
  lemma SetHit(key: Bytes, was: Bytes, rest: Bytes, value: nat, width: nat)
    requires |was| == width && forall i :: 0 <= i < width ==> Digit(was[i])
    ensures SetField(Line(key + was, rest), key, value, width)
         == Some(Line(key + Digits(Capped(value, MaxField(width)), width), rest))
  {
    hide Digits, MaxField;
    var t := Line(key + was, rest);
    var d := Digits(Capped(value, MaxField(width)), width);
    assert t[0..|key|] == key;
    assert MatchAt(t, 0, key);
    assert FirstMatch(t, key, 0) == Some(0);
    assert forall i :: |key| <= i < |key| + width ==> t[i] == was[i - |key|];
    assert Put(t, |key|, d) == Line(key + d, rest);
  }

  const SEEN_KEY: Bytes := "seen: "
  const FLAG_KEY: Bytes := "escalated: "

  /** None of the strings printed before the fields contains a field's key. */
  predicate KeyFree(id: Bytes, title: Bytes, token: Bytes) {
    && Lacks(id, SEEN_KEY) && Lacks(title, SEEN_KEY) && Lacks(token, SEEN_KEY)
    && Lacks(id, FLAG_KEY) && Lacks(title, FLAG_KEY) && Lacks(token, FLAG_KEY)
  }

  /** The lines before the fields lack a key that none of the values contains. */
  lemma LinesLack(id: Bytes, title: Bytes, token: Bytes, key: Bytes)
    requires key == SEEN_KEY || key == FLAG_KEY
    requires Lacks(id, key) && Lacks(title, key) && Lacks(token, key)
    ensures Lacks("---", key) && Lacks("id: " + id, key) && Lacks("title: " + InQuotes(title), key)
    ensures Lacks("match-cause: " + token, key)
  {
    hide Lacks;
    ShortLacks("---", key);
    LacksPrefixed("id: ", id, key);
    LacksPrefixed([QUOTE], title, key);
    LacksSuffixed([QUOTE] + title, QUOTE, key);
    LacksPrefixed("title: ", InQuotes(title), key);
    LacksPrefixed("match-cause: ", token, key);
  }

  lemma ShortLacks(s: Bytes, key: Bytes)
    requires |s| < |key|
    ensures Lacks(s, key)
  {
  }

  lemma SeenLineLacks(seen: Bytes)
    requires |seen| == SEEN_WIDTH
    ensures Lacks("seen: " + seen, FLAG_KEY)
  {
    ShortLacks(seen, FLAG_KEY);
    LacksPrefixed("seen: ", seen, FLAG_KEY);
  }

  /** The three skipped lines in front of the fields. */
  lemma SetPastValues(id: Bytes, title: Bytes, token: Bytes, rest: Bytes, key: Bytes, value: nat, width: nat)
    requires key == SEEN_KEY || key == FLAG_KEY
    requires Lacks(id, key) && Lacks(title, key) && Lacks(token, key) && SetField(rest, key, value, width).Some?
    ensures SetField(Line("---", Line("id: " + id, Line("title: " + InQuotes(title),
                     Line("match-cause: " + token, rest)))), key, value, width)
         == Some(Line("---", Line("id: " + id, Line("title: " + InQuotes(title),
                 Line("match-cause: " + token, SetField(rest, key, value, width).value)))))
  {
    hide Lacks, SetField, Line, InQuotes;
    LinesLack(id, title, token, key);
    var r3 := Line("match-cause: " + token, rest);
    var r2 := Line("title: " + InQuotes(title), r3);
    var r1 := Line("id: " + id, r2);
    SetSkip("match-cause: " + token, rest, key, value, width);
    SetSkip("title: " + InQuotes(title), r3, key, value, width);
    SetSkip("id: " + id, r2, key, value, width);
    SetSkip("---", r1, key, value, width);
  }

  lemma Widths()
    ensures MaxField(SEEN_WIDTH) == 99999 && MaxField(1) == 9
  {
    assert Pow10(1) == 10 && Pow10(5) == 10 * Pow10(4) && Pow10(4) == 10 * Pow10(3) && Pow10(3) == 10 * Pow10(2)
      && Pow10(2) == 100;
  }

  /** Setting the counter of a document changes its five digits and nothing else. */
  lemma SetSeenInDoc(id: Bytes, title: Bytes, playbook: Bytes, token: Bytes, n: nat, flag: Bytes, rest: Bytes,
                     value: nat)
    requires Lacks(id, SEEN_KEY) && Lacks(title, SEEN_KEY) && Lacks(token, SEEN_KEY)
    ensures SetField(Doc(id, title, playbook, token, Digits(n, SEEN_WIDTH), flag, rest), SEEN_KEY, value, SEEN_WIDTH)
         == Some(Doc(id, title, playbook, token, Digits(Capped(value, 99999), SEEN_WIDTH), flag, rest))
  {
    hide Lacks, SetField, Line, InQuotes, Digits, MaxField;
    Widths();
    var r5 := Line("escalated: " + flag, Line("playbook:", Line("  - " + InQuotes(playbook), Line("---", rest))));
    SetHit(SEEN_KEY, Digits(n, SEEN_WIDTH), r5, value, SEEN_WIDTH);
    SetPastValues(id, title, token, Line("seen: " + Digits(n, SEEN_WIDTH), r5), SEEN_KEY, value, SEEN_WIDTH);
  }

  lemma FlagDigits(escalated: bool)
    ensures Digits(Capped(if escalated then 1 else 0, 9), 1) == FlagText(escalated)
    ensures |FlagText(escalated)| == 1 && Digit(FlagText(escalated)[0])
  {
    assert Digits(0, 1) == Digits(0, 0) + [48 as char];
    assert Digits(1, 1) == Digits(0, 0) + [49 as char];
  }

  /** Setting the flag of a document changes its one digit and nothing else. */
  lemma SetEscalatedInDoc(id: Bytes, title: Bytes, playbook: Bytes, token: Bytes, n: nat, was: bool, rest: Bytes,
                          escalated: bool)
    requires Lacks(id, FLAG_KEY) && Lacks(title, FLAG_KEY) && Lacks(token, FLAG_KEY)
    ensures SetField(Doc(id, title, playbook, token, Digits(n, SEEN_WIDTH), FlagText(was), rest),
                     FLAG_KEY, if escalated then 1 else 0, 1)
         == Some(Doc(id, title, playbook, token, Digits(n, SEEN_WIDTH), FlagText(escalated), rest))
  {
    hide Lacks, SetField, Line, InQuotes, Digits, MaxField, FlagText;
    Widths();
    FlagDigits(was);
    FlagDigits(escalated);
    var v := if escalated then 1 else 0;
    var r6 := Line("playbook:", Line("  - " + InQuotes(playbook), Line("---", rest)));
    SetHit(FLAG_KEY, FlagText(was), r6, v, 1);
    SeenLineLacks(Digits(n, SEEN_WIDTH));
    SetSkip("seen: " + Digits(n, SEEN_WIDTH), Line("escalated: " + FlagText(was), r6), FLAG_KEY, v, 1);
    SetPastValues(id, title, token, Line("seen: " + Digits(n, SEEN_WIDTH), Line("escalated: " + FlagText(was), r6)),
                  FLAG_KEY, v, 1);
  }

  // ---- when the field is the one that is found ----

  lemma HasAround(prefix: Bytes, s: Bytes, suffix: Bytes, key: Bytes)
    requires !Lacks(s, key)
    ensures !Lacks(prefix + s + suffix, key)
  {
    var p :| 0 <= p < |s| && MatchAt(s, p, key);
    var t := prefix + s + suffix;
    assert t[|prefix| + p..|prefix| + p + |key|] == s[p..p + |key|];
    assert MatchAt(t, |prefix| + p, key);
  }

  /** A line that contains the key takes the update, or refuses it; the rest of
      the document is out of reach. */
  lemma SetEarly(s: Bytes, rest: Bytes, key: Bytes, value: nat, width: nat)
    requires !Lacks(s, key) && NEWLINE !in key && |key| > 0
    ensures var r := SetField(Line(s, rest), key, value, width);
            r.Some? ==> exists s' :: |s'| == |s| && r == Some(Line(s', rest))
  {
    hide Digits, MaxField;
    var t := Line(s, rest);
    var p0 :| 0 <= p0 < |s| && MatchAt(s, p0, key);
    assert t[p0..p0 + |key|] == s[p0..p0 + |key|];
    assert MatchAt(t, p0, key);
    var r := SetField(t, key, value, width);
    if r.Some? {
      var p := FirstMatch(t, key, 0).value;
      var start := p + |key|;
      assert t[|s|] == NEWLINE && !Digit(NEWLINE);
      assert start + width <= |s|;
      var d := Digits(Capped(value, MaxField(width)), width);
      assert Put(t, start, d) == Line(Put(s, start, d), rest);
    }
  }

  lemma LineInjective(s: Bytes, a: Bytes, s': Bytes, b: Bytes)
    requires |s| == |s'| && Line(s, a) == Line(s', b)
    ensures a == b
  {
    assert a == Line(s, a)[|s| + 1..] && b == Line(s', b)[|s| + 1..];
  }

  /** If line s contains the key, no update reaches the text behind it. */
  lemma NotReached(s: Bytes, rest: Bytes, rest': Bytes, key: Bytes, value: nat, width: nat)
    requires !Lacks(s, key) && NEWLINE !in key && |key| > 0 && rest' != rest
    ensures SetField(Line(s, rest), key, value, width) != Some(Line(s, rest'))
  {
    hide SetField, Lacks, Line;
    SetEarly(s, rest, key, value, width);
    if SetField(Line(s, rest), key, value, width) == Some(Line(s, rest')) {
      var s' :| |s'| == |s| && Line(s, rest') == Line(s', rest);
      LineInjective(s, rest', s', rest);
    }
  }

  /** Neither does it reach the text behind a further line in front. */
  lemma NotReachedBehind(s: Bytes, rest: Bytes, rest': Bytes, key: Bytes, value: nat, width: nat)
    requires NEWLINE !in key && |key| > 0 && rest' != rest && SetField(rest, key, value, width) != Some(rest')
    ensures SetField(Line(s, rest), key, value, width) != Some(Line(s, rest'))
  {
    hide SetField, Line;
    if Lacks(s, key) {
      SetSkip(s, rest, key, value, width);
      if SetField(rest, key, value, width).Some? && Line(s, SetField(rest, key, value, width).value) == Line(s, rest') {
        LineInjective(s, SetField(rest, key, value, width).value, s, rest');
      }
    } else {
      NotReached(s, rest, rest', key, value, width);
    }
  }

  /** The counter line for m and what follows it. */
  function FromSeen(m: nat, after: Bytes): Bytes {
    Line("seen: " + Digits(m, SEEN_WIDTH), after)
  }

  lemma FromSeenDiffer(m: nat, n: nat, after: Bytes)
    requires m < 100000 && n < 100000 && m != n
    ensures FromSeen(m, after) != FromSeen(n, after)
  {
    assert Pow10(5) == 100000;
    DigitsValue(m, 5);
    DigitsValue(n, 5);
    var a, b := FromSeen(m, after), FromSeen(n, after);
    assert a[6..11] == Digits(m, 5) && b[6..11] == Digits(n, 5);
  }

  lemma LinesDiffer(s: Bytes, a: Bytes, b: Bytes)
    requires a != b
    ensures Line(s, a) != Line(s, b)
  {
    if Line(s, a) == Line(s, b) {
      LineInjective(s, a, s, b);
    }
  }

  /** The update of the counter does what it says, for every value, exactly when
      no string printed before the counter contains its key. */
  lemma SeenFieldExact(id: Bytes, title: Bytes, playbook: Bytes, token: Bytes, n: nat, flag: Bytes, rest: Bytes)
    requires n < 100000
    ensures (forall v: nat :: SetsSeen(id, title, playbook, token, n, flag, rest, v))
        <==> Lacks(id, SEEN_KEY) && Lacks(title, SEEN_KEY) && Lacks(token, SEEN_KEY)
  {
    hide SetField, Lacks, Line, Digits, InQuotes, FromSeen;
    if Lacks(id, SEEN_KEY) && Lacks(title, SEEN_KEY) && Lacks(token, SEEN_KEY) {
      forall v: nat ensures SetsSeen(id, title, playbook, token, n, flag, rest, v) {
        SetSeenInDoc(id, title, playbook, token, n, flag, rest, v);
      }
    } else {
      var v := if n == 0 then 1 else 0;
      var after := Line("escalated: " + flag, Line("playbook:", Line("  - " + InQuotes(playbook), Line("---", rest))));
      SeenOutOfReach(id, title, token, n, v, after);
      assert !SetsSeen(id, title, playbook, token, n, flag, rest, v) by {
        UnfoldDoc(id, title, playbook, token, n, v, flag, rest);
      }
    }
  }

  /** Setting the counter to v gives the document with v, capped. */
  predicate SetsSeen(id: Bytes, title: Bytes, playbook: Bytes, token: Bytes, n: nat, flag: Bytes, rest: Bytes, v: nat) {
    SetField(Doc(id, title, playbook, token, Digits(n, SEEN_WIDTH), flag, rest), SEEN_KEY, v, SEEN_WIDTH)
    == Some(Doc(id, title, playbook, token, Digits(Capped(v, 99999), SEEN_WIDTH), flag, rest))
  }

  function Front(id: Bytes, title: Bytes, token: Bytes, tail: Bytes): Bytes {
    Line("---", Line("id: " + id, Line("title: " + InQuotes(title), Line("match-cause: " + token, tail))))
  }

  lemma UnfoldDoc(id: Bytes, title: Bytes, playbook: Bytes, token: Bytes, n: nat, v: nat, flag: Bytes, rest: Bytes)
    requires v < 99999
    ensures var after := Line("escalated: " + flag,
                         Line("playbook:", Line("  - " + InQuotes(playbook), Line("---", rest))));
            && Doc(id, title, playbook, token, Digits(n, SEEN_WIDTH), flag, rest)
               == Front(id, title, token, FromSeen(n, after))
            && Doc(id, title, playbook, token, Digits(Capped(v, 99999), SEEN_WIDTH), flag, rest)
               == Front(id, title, token, FromSeen(v, after))
  {
    hide Line, Digits, InQuotes;
  }

  lemma SeenOutOfReach(id: Bytes, title: Bytes, token: Bytes, n: nat, v: nat, after: Bytes)
    requires n < 100000 && v < 100000 && n != v
    requires !(Lacks(id, SEEN_KEY) && Lacks(title, SEEN_KEY) && Lacks(token, SEEN_KEY))
    ensures SetField(Front(id, title, token, FromSeen(n, after)), SEEN_KEY, v, SEEN_WIDTH)
         != Some(Front(id, title, token, FromSeen(v, after)))
  {
    hide SetField, Lacks, Line, Digits, FromSeen, Front;
    FromSeenDiffer(n, v, after);
    OutOfReach(id, title, token, FromSeen(n, after), FromSeen(v, after), SEEN_KEY, v, SEEN_WIDTH);
  }

  /** A key in the strings printed first keeps every update of that key from the
      text behind them. */
  lemma OutOfReach(id: Bytes, title: Bytes, token: Bytes, a4: Bytes, b4: Bytes, key: Bytes, v: nat, w: nat)
    requires a4 != b4 && NEWLINE !in key && |key| > 0 && !(Lacks(id, key) && Lacks(title, key) && Lacks(token, key))
    ensures SetField(Front(id, title, token, a4), key, v, w) != Some(Front(id, title, token, b4))
  {
    hide SetField, Lacks, Line;
    var l3: Bytes, l2: Bytes, l1: Bytes := "match-cause: " + token, "title: " + InQuotes(title), "id: " + id;
    var a3, b3 := Line(l3, a4), Line(l3, b4);
    var a2, b2 := Line(l2, a3), Line(l2, b3);
    var a1, b1 := Line(l1, a2), Line(l1, b2);
    LinesDiffer(l3, a4, b4);
    LinesDiffer(l2, a3, b3);
    LinesDiffer(l1, a2, b2);
    if !Lacks(token, key) {
      HasAround("match-cause: ", token, [], key);
      assert "match-cause: " + token + [] == l3;
      NotReached(l3, a4, b4, key, v, w);
      NotReachedBehind(l2, a3, b3, key, v, w);
      NotReachedBehind(l1, a2, b2, key, v, w);
    } else if !Lacks(title, key) {
      HasAround("title: " + [QUOTE], title, [QUOTE], key);
      assert "title: " + [QUOTE] + title + [QUOTE] == l2;
      NotReached(l2, a3, b3, key, v, w);
      NotReachedBehind(l1, a2, b2, key, v, w);
    } else {
      HasAround("id: ", id, [], key);
      assert "id: " + id + [] == l1;
      NotReached(l1, a2, b2, key, v, w);
    }
    NotReachedBehind("---", a1, b1, key, v, w);
  }

  /** Setting the flag gives the document with that flag. */
  predicate SetsFlag(id: Bytes, title: Bytes, playbook: Bytes, token: Bytes, n: nat, was: bool, rest: Bytes,
                     flag: bool) {
    SetField(Doc(id, title, playbook, token, Digits(n, SEEN_WIDTH), FlagText(was), rest),
             FLAG_KEY, if flag then 1 else 0, 1)
    == Some(Doc(id, title, playbook, token, Digits(n, SEEN_WIDTH), FlagText(flag), rest))
  }

  function FromFlag(n: nat, flag: bool, after: Bytes): Bytes {
    FromSeen(n, Line("escalated: " + FlagText(flag), after))
  }

  lemma FromFlagDiffer(n: nat, after: Bytes)
    ensures FromFlag(n, true, after) != FromFlag(n, false, after)
  {
    hide FromSeen;
    var a, b := Line("escalated: " + FlagText(true), after), Line("escalated: " + FlagText(false), after);
    assert a[11] == '1' && b[11] == '0';
    if FromSeen(n, a) == FromSeen(n, b) {
      SeenInjective(n, a, b);
    }
  }

  lemma SeenInjective(n: nat, a: Bytes, b: Bytes)
    requires FromSeen(n, a) == FromSeen(n, b)
    ensures a == b
  {
    hide Digits;
    var s: Bytes := "seen: " + Digits(n, SEEN_WIDTH);
    LineInjective(s, a, s, b);
  }

  lemma UnfoldFlag(id: Bytes, title: Bytes, playbook: Bytes, token: Bytes, n: nat, flag: bool, rest: Bytes)
    ensures Doc(id, title, playbook, token, Digits(n, SEEN_WIDTH), FlagText(flag), rest)
         == Front(id, title, token, FromFlag(n, flag,
           Line("playbook:", Line("  - " + InQuotes(playbook), Line("---", rest)))))
  {
    hide Line, Digits, InQuotes, FlagText;
  }

  /** The update of the flag does what it says, for both values, exactly when no
      string printed before it contains its key. */
  lemma FlagFieldExact(id: Bytes, title: Bytes, playbook: Bytes, token: Bytes, n: nat, was: bool, rest: Bytes)
    ensures (forall flag: bool :: SetsFlag(id, title, playbook, token, n, was, rest, flag))
        <==> Lacks(id, FLAG_KEY) && Lacks(title, FLAG_KEY) && Lacks(token, FLAG_KEY)
  {
    hide SetField, Lacks, Line, Digits, InQuotes, FromFlag, FlagText, Doc, Front;
    if Lacks(id, FLAG_KEY) && Lacks(title, FLAG_KEY) && Lacks(token, FLAG_KEY) {
      forall flag: bool ensures SetsFlag(id, title, playbook, token, n, was, rest, flag) {
        SetEscalatedInDoc(id, title, playbook, token, n, was, rest, flag);
      }
    } else {
      var after := Line("playbook:", Line("  - " + InQuotes(playbook), Line("---", rest)));
      FromFlagDiffer(n, after);
      UnfoldFlag(id, title, playbook, token, n, was, rest);
      UnfoldFlag(id, title, playbook, token, n, !was, rest);
      OutOfReach(id, title, token, FromFlag(n, was, after), FromFlag(n, !was, after), FLAG_KEY, if !was then 1 else 0,
                 1);
      assert !SetsFlag(id, title, playbook, token, n, was, rest, !was);
    }
  }

  // ---- any sequence of updates ----

  datatype Update = Seen(count: nat) | Escalated(flag: bool)

  function Updated(block: Bytes, u: Update): Option<Bytes> {
    match u
    case Seen(count) => SetField(block, SEEN_KEY, count, SEEN_WIDTH)
    case Escalated(flag) => SetField(block, FLAG_KEY, if flag then 1 else 0, 1)
  }

  /** The block after the first n updates, None once one is refused. */
  function UpdatedAll(block: Bytes, us: seq<Update>, n: nat): Option<Bytes>
    requires n <= |us|
  {
    if n == 0 then Some(block)
    else match UpdatedAll(block, us, n - 1) case None => None case Some(b) => Updated(b, us[n - 1])
  }

  /** The last count written by the first n updates. */
  function LastSeen(us: seq<Update>, n: nat): (r: nat)
    requires n <= |us|
    ensures r <= 99999
  {
    if n == 0 then 0
    else match us[n - 1] case Seen(count) => Capped(count, 99999) case Escalated(_) => LastSeen(us, n - 1)
  }

  predicate LastFlag(us: seq<Update>, n: nat)
    requires n <= |us|
  {
    if n == 0 then false
    else match us[n - 1] case Seen(_) => LastFlag(us, n - 1) case Escalated(flag) => flag
  }

  /** Updates of a printed document are never refused and leave the same document
      with the last count and flag. */
  lemma {:induction false} UpdatesKeepDoc(id: Bytes, title: Bytes, playbook: Bytes, token: Bytes, rest: Bytes,
                                          us: seq<Update>, n: nat)
    requires KeyFree(id, title, token) && n <= |us|
    ensures UpdatedAll(Flatten(Pieces(id, title, playbook, token)) + rest, us, n)
         == Some(Doc(id, title, playbook, token, Digits(LastSeen(us, n), SEEN_WIDTH), FlagText(LastFlag(us, n)), rest))
  {
    hide Doc, SetField, Digits, Lacks, FlagText, Flatten, Pieces;
    if n == 0 {
      StartDoc(id, title, playbook, token, rest);
    } else {
      UpdatesKeepDoc(id, title, playbook, token, rest, us, n - 1);
      var seen, flag := LastSeen(us, n - 1), LastFlag(us, n - 1);
      match us[n - 1] {
        case Seen(count) => SetSeenInDoc(id, title, playbook, token, seen, FlagText(flag), rest, count);
        case Escalated(b) => SetEscalatedInDoc(id, title, playbook, token, seen, flag, rest, b);
      }
    }
  }

  lemma StartDoc(id: Bytes, title: Bytes, playbook: Bytes, token: Bytes, rest: Bytes)
    ensures Flatten(Pieces(id, title, playbook, token)) + rest
         == Doc(id, title, playbook, token, Digits(0, SEEN_WIDTH), FlagText(false), rest)
  {
    hide Flatten, Pieces, Digits;
    PrintsDoc(id, title, playbook, token);
    ZeroDigits();
    DocRest(id, title, playbook, token, "00000", "0", rest);
  }

  lemma ZeroDigits()
    ensures Digits(0, SEEN_WIDTH) == "00000"
  {
    DigitsSplit(0, 5); DigitsSplit(0, 4); DigitsSplit(0, 3); DigitsSplit(0, 2); DigitsSplit(0, 1);
  }

  lemma LineRest(s: Bytes, a: Bytes, rest: Bytes)
    ensures Line(s, a) + rest == Line(s, a + rest)
  {
  }

  lemma DocRest(id: Bytes, title: Bytes, playbook: Bytes, token: Bytes, seen: Bytes, flag: Bytes, rest: Bytes)
    ensures Doc(id, title, playbook, token, seen, flag, []) + rest == Doc(id, title, playbook, token, seen, flag, rest)
  {
    hide Line, InQuotes;
    var p8 := Line("---", []);
    var p7 := Line("  - " + InQuotes(playbook), p8);
    var p6 := Line("playbook:", p7);
    var p5 := Line("escalated: " + flag, p6);
    var p4 := Line("seen: " + seen, p5);
    var p3 := Line("match-cause: " + token, p4);
    var p2 := Line("title: " + InQuotes(title), p3);
    var p1 := Line("id: " + id, p2);
    LineRest("---", p1, rest);
    LineRest("id: " + id, p2, rest);
    LineRest("title: " + InQuotes(title), p3, rest);
    LineRest("match-cause: " + token, p4, rest);
    LineRest("seen: " + seen, p5, rest);
    LineRest("escalated: " + flag, p6, rest);
    LineRest("playbook:", p7, rest);
    LineRest("  - " + InQuotes(playbook), p8, rest);
    LineRest("---", [], rest);
    assert [] + rest == rest;
  }

  /** Round trip: a serialized entry, after any updates in place, parses to the
      strings it was made from with the last count, capped, and the last flag, if
      and only if what follows it is valid text. */
  lemma RoundTrip(id: Bytes, title: Bytes, playbook: Bytes, token: Bytes, rest: Bytes, us: seq<Update>)
    requires Sane(id, title, playbook, token) && KeyFree(id, title, token)
    ensures var block := UpdatedAll(Flatten(Pieces(id, title, playbook, token)) + rest, us, |us|);
            && block.Some?
            && (ParseDoc(block.value) == if Valid(rest)
                then Some(Record(id, title, playbook, Some(token), LastSeen(us, |us|), LastFlag(us, |us|))) else None)
  {
    hide Doc, ParseDoc, Digits, KeyFree, FlagText, Flatten, Pieces, Sane;
    UpdatesKeepDoc(id, title, playbook, token, rest, us, |us|);
    DocParses(id, title, playbook, token, LastSeen(us, |us|), LastFlag(us, |us|), rest);
  }
}
