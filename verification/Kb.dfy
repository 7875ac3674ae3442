/** Knowledge-base entries as text: the parser, the printer and the fixed-width
    fields that are overwritten in place. */
module Kb {
  import opened Options
  import opened Bytes
  import opened Utf8

  const NEWLINE: Byte := '\n'
  const QUOTE: Byte := '"'

  // ---- trimming ----

  /** Blanks are characters: some of them are two or three bytes long. */
  function TrimStart(s: Bytes): Bytes {
    if BlankHead(s) > 0 then TrimStart(s[BlankHead(s)..]) else s
  }

  function TrimEnd(s: Bytes): Bytes {
    if BlankEnd(s) > 0 then TrimEnd(s[..|s| - BlankEnd(s)]) else s
  }

  function Trim(s: Bytes): Bytes {
    TrimEnd(TrimStart(s))
  }

  function StripPrefix(s: Bytes, p: Bytes): Option<Bytes> {
    if p <= s then Some(s[|p|..]) else None
  }

  function Unquote(s: Bytes): Bytes {
    var a := if |s| > 0 && s[0] == QUOTE then s[1..] else s;
    if |a| > 0 && a[|a| - 1] == QUOTE then a[..|a| - 1] else a
  }

  /** Trim, strip one quote at each end, trim. */
  function Clean(v: Bytes): Bytes {
    Trim(Unquote(Trim(v)))
  }

  lemma {:induction false} TrimFront(b: Bytes, s: Bytes)
    requires AllBlank(b)
    ensures TrimStart(b + s) == TrimStart(s)
    decreases |b|
  {
    hide BlankHead;
    if |b| == 0 {
      assert b + s == s;
    } else {
      BlankFirst(b, s);
      TrimFront(b[BlankHead(b)..], s);
    }
  }

  lemma {:induction false} TrimBack(s: Bytes, b: Bytes)
    requires AllBlank(b)
    ensures TrimEnd(s + b) == TrimEnd(s)
    decreases |b|
  {
    hide BlankEnd;
    if |b| == 0 {
      assert s + b == s;
    } else {
      BlankBack(b);
      BlankLast(s, b);
      TrimBack(s, b[..|b| - BlankEnd(b)]);
    }
  }

  /** Blanks around a value, of any kind, are trimmed, and nothing else. */
  lemma TrimIs(a: Bytes, s: Bytes, b: Bytes)
    requires AllBlank(a) && Neat(s) && AllBlank(b)
    ensures Trim(a + s + b) == s
  {
    hide BlankHead, BlankEnd, AllBlank;
    assert a + s + b == a + (s + b);
    TrimFront(a, s + b);
    TrimBack(s, b);
    if |s| > 0 {
      BlankBehind(s, b);
    } else {
      OnlyBlanks(b);
      assert s + b == b;
    }
  }

  lemma OnlyBlanks(b: Bytes)
    requires AllBlank(b)
    ensures TrimStart(b) == []
  {
    TrimFront(b, []);
    assert b + [] == b;
  }

  /** Trimmed text is neat. */
  lemma TrimmedNeat(s: Bytes)
    ensures Neat(Trim(s))
  {
    StartTrimmed(s);
    EndTrimmed(TrimStart(s));
  }

  lemma {:induction false} StartTrimmed(s: Bytes)
    ensures BlankHead(TrimStart(s)) == 0
    decreases |s|
  {
    if BlankHead(s) > 0 {
      StartTrimmed(s[BlankHead(s)..]);
    }
  }

  lemma {:induction false} EndTrimmed(s: Bytes)
    requires BlankHead(s) == 0
    ensures Neat(TrimEnd(s))
    decreases |s|
  {
    if BlankEnd(s) > 0 {
      EndTrimmed(s[..|s| - BlankEnd(s)]);
    }
  }

  /** Trimming keeps text valid: it removes whole characters. */
  lemma {:induction false} TrimStartValid(s: Bytes)
    requires Valid(s)
    ensures Valid(TrimStart(s))
    decreases |s|
  {
    if BlankHead(s) > 0 {
      BlankIsChar(s);
      TrimStartValid(s[BlankHead(s)..]);
    }
  }

  lemma {:induction false} TrimEndValid(s: Bytes)
    requires Valid(s)
    ensures Valid(TrimEnd(s))
    decreases |s|
  {
    var n := BlankEnd(s);
    if n > 0 {
      CutValid(s, |s| - n);
      TrimEndValid(s[..|s| - n]);
    }
  }

  lemma TrimValid(s: Bytes)
    requires Valid(s)
    ensures Valid(Trim(s))
  {
    TrimStartValid(s);
    TrimEndValid(TrimStart(s));
  }

  /** No blank at either end. */
  predicate Neat(s: Bytes) {
    BlankHead(s) == 0 && BlankEnd(s) == 0
  }

  lemma TrimNeat(s: Bytes)
    requires Neat(s)
    ensures Trim(s) == s && Trim([' '] + s) == s
  {
    TrimBlank(s);
  }

  /** Text with a visible character at each end is neat. */
  lemma VisibleNeat(s: Bytes)
    requires |s| > 0 && Visible(s[0]) && Visible(s[|s| - 1])
    ensures Neat(s)
  {
    VisibleEnds(s);
  }

  /** A bare value: neat, on one line, no quote at either end. */
  predicate BareValue(s: Bytes) {
    Neat(s) && NEWLINE !in s && (|s| > 0 ==> s[0] != QUOTE && s[|s| - 1] != QUOTE)
  }

  /** A quoted value: neat and on one line; the quotes around it protect the rest. */
  predicate QuotedValue(s: Bytes) {
    Neat(s) && NEWLINE !in s
  }

  function InQuotes(s: Bytes): Bytes {
    [QUOTE] + s + [QUOTE]
  }

  lemma CleanBare(s: Bytes)
    requires BareValue(s)
    ensures Clean([' '] + s) == s
  {
    TrimNeat(s);
  }

  lemma CleanQuoted(s: Bytes)
    requires QuotedValue(s)
    ensures Clean(InQuotes(s)) == s && Clean([' '] + InQuotes(s)) == s
  {
    hide Clean, InQuotes;
    AllBlankSpace();
    CleanIs([], [], s, [], []);
    CleanIs([' '], [], s, [], []);
    assert [] + s + [] == s;
    assert [] + InQuotes(s) + [] == InQuotes(s) && [' '] + InQuotes(s) + [] == [' '] + InQuotes(s);
  }

  lemma AllBlankSpace()
    ensures AllBlank([]) && AllBlank([' '])
  {
  }

  /** A value in quotes is read without them and without any blanks inside and
      outside; quotes of its own are kept. */
  lemma CleanIs(a: Bytes, b: Bytes, s: Bytes, c: Bytes, d: Bytes)
    requires AllBlank(a) && AllBlank(b) && Neat(s) && AllBlank(c) && AllBlank(d)
    ensures Clean(a + InQuotes(b + s + c) + d) == s
  {
    hide Trim, AllBlank, Neat, Unquote;
    var q := InQuotes(b + s + c);
    VisibleNeat(q);
    TrimIs(a, q, d);
    UnquoteQuoted(b + s + c);
    TrimIs(b, s, c);
  }

  lemma UnquoteQuoted(s: Bytes)
    ensures Unquote(InQuotes(s)) == s
  {
    assert InQuotes(s)[1..] == s + [QUOTE];
    assert (s + [QUOTE])[..|s|] == s;
  }

  // ---- numbers ----

  predicate Digit(c: Byte) {
    48 <= c as int <= 57
  }

  function DigitValue(c: Byte): nat
    requires Digit(c)
  {
    c as int - 48
  }

  function Value(s: Bytes): nat
    requires forall i :: 0 <= i < |s| ==> Digit(s[i])
  {
    if |s| == 0 then 0 else 10 * Value(s[..|s| - 1]) + DigitValue(s[|s| - 1])
  }

  /** A u32 in decimal: an optional plus, at least one digit, no overflow. */
  function ParseU32(s: Bytes): Option<nat> {
    var d := if |s| > 1 && s[0] == '+' then s[1..] else s;
    if |d| == 0 || exists i :: 0 <= i < |d| && !Digit(d[i]) then None
    else if Value(d) >= U32 then None
    else Some(Value(d))
  }

  function Pow10(w: nat): (r: nat)
    ensures r > 0
  {
    if w == 0 then 1 else 10 * Pow10(w - 1)
  }

  /** n in decimal, zero-padded to w digits. */
  function Digits(n: nat, w: nat): (r: Bytes)
    ensures |r| == w && forall i :: 0 <= i < w ==> Digit(r[i])
  {
    if w == 0 then [] else Digits(n / 10, w - 1) + [(48 + n % 10) as char]
  }

  lemma {:induction false} DigitsValue(n: nat, w: nat)
    requires n < Pow10(w)
    ensures Value(Digits(n, w)) == n
  {
    if w > 0 {
      DigitsValue(n / 10, w - 1);
      assert Digits(n, w)[..w - 1] == Digits(n / 10, w - 1);
    }
  }

  lemma ParseDigits(n: nat, w: nat)
    requires w > 0 && n < Pow10(w) && n < U32
    ensures ParseU32(Digits(n, w)) == Some(n)
  {
    DigitsValue(n, w);
    assert Digit(Digits(n, w)[0]);
  }

  // ---- the parser ----

  datatype Record = Record(id: Bytes, title: Bytes, playbook: Bytes, matchCause: Option<Bytes>, seen: nat,
                           escalated: bool)

  /** The parser's locals. */
  datatype Scan = Scan(id: Option<Bytes>, title: Option<Bytes>, playbook: Option<Bytes>, matchCause: Option<Bytes>,
                       seen: nat, escalated: bool, inPlaybook: bool)

  const NOTHING: Scan := Scan(None, None, None, None, 0, false, false)

  /** The index of the first c in s, or |s|. */
  function Find(s: Bytes, c: Byte): (k: nat)
    ensures k <= |s| && c !in s[..k] && (k < |s| ==> s[k] == c)
  {
    if |s| == 0 || s[0] == c then 0 else 1 + Find(s[1..], c)
  }

  /** The first line, without its end, and what follows it. */
  function FirstLine(text: Bytes): Bytes {
    var k := Find(text, NEWLINE);
    if k < |text| && k > 0 && text[k - 1] == '\r' then text[..k - 1] else text[..k]
  }

  function AfterLine(text: Bytes): (r: Bytes)
    ensures |text| > 0 ==> |r| < |text|
  {
    var k := Find(text, NEWLINE);
    if k < |text| then text[k + 1..] else []
  }

  predicate IsFence(line: Bytes) {
    Trim(line) == "---"
  }

  function KeyValue(sc: Scan, key: Bytes, value: Bytes): Scan {
    if key == "id" then sc.(id := Some(Clean(value)))
    else if key == "title" then sc.(title := Some(Clean(value)))
    else if key == "match-cause" then sc.(matchCause := Some(Clean(value)))
    else if key == "seen" then sc.(seen := match ParseU32(Clean(value)) case Some(n) => n case None => 0)
    else if key == "escalated" then sc.(escalated := Clean(value) == "1")
    else if key == "playbook" then sc.(inPlaybook := true)
    else sc
  }

  /** One line of the frontmatter. */
  function StepLine(sc: Scan, line: Bytes): Scan {
    var item := StripPrefix(TrimStart(line), "- ");
    if sc.inPlaybook && sc.playbook.None? && item.Some? then sc.(playbook := Some(Clean(item.value)))
    else
      var k := Find(line, ':');
      if k < |line| then KeyValue(sc, Trim(line[..k]), line[k + 1..]) else sc
  }

  /** The lines up to the closing fence. */
  function ScanText(text: Bytes, sc: Scan): Scan
    decreases |text|
  {
    if |text| == 0 || IsFence(FirstLine(text)) then sc
    else ScanText(AfterLine(text), StepLine(sc, FirstLine(text)))
  }

  function Finish(sc: Scan): Option<Record> {
    if sc.id.Some? && sc.title.Some? && sc.playbook.Some?
    then Some(Record(sc.id.value, sc.title.value, sc.playbook.value, sc.matchCause, sc.seen, sc.escalated)) else None
  }

  /** The parse of text that is valid UTF-8. */
  function ParseText(text: Bytes): Option<Record> {
    if |text| == 0 || !IsFence(FirstLine(text)) then None else Finish(ScanText(AfterLine(text), NOTHING))
  }

  function ParseDoc(text: Bytes): Option<Record> {
    if Valid(text) then ParseText(text) else None
  }

  /** parse, as the line loop it is. */
  method Parse(text: Bytes) returns (r: Option<Record>)
    ensures r == ParseDoc(text)
  {
    if !Valid(text) || |text| == 0 || !IsFence(FirstLine(text)) {
      return None;
    }
    var sc, rest := NOTHING, AfterLine(text);
    while |rest| > 0
      invariant ScanText(rest, sc) == ScanText(AfterLine(text), NOTHING)
      decreases |rest|
    {
      var line := FirstLine(rest);
      if IsFence(line) {
        break;
      }
      sc, rest := StepLine(sc, line), AfterLine(rest);
    }
    return Finish(sc);
  }

  // ---- what the parser insists on ----

  /** The first playbook step stays: no later line replaces it. */
  lemma {:induction false} PlaybookStays(text: Bytes, sc: Scan)
    requires sc.playbook.Some?
    ensures ScanText(text, sc).playbook == sc.playbook
    decreases |text|
  {
    hide IsFence, FirstLine, AfterLine, StepLine;
    if |text| > 0 && !IsFence(FirstLine(text)) {
      StepStays(sc, FirstLine(text));
      PlaybookStays(AfterLine(text), StepLine(sc, FirstLine(text)));
    }
  }

  lemma StepStays(sc: Scan, line: Bytes)
    ensures sc.playbook.Some? ==> StepLine(sc, line).playbook == sc.playbook
  {
    hide Clean, ParseU32, Trim, TrimStart, StripPrefix, Find;
  }

  /** A text that does not open with a fence is no entry. */
  lemma OpensWithFence(line: Bytes, rest: Bytes)
    requires NEWLINE !in line && (|line| > 0 ==> line[|line| - 1] != '\r') && Trim(line) != "---"
    ensures ParseDoc(line + [NEWLINE] + rest) == None && ParseDoc(line) == None
  {
    FindAt(line, NEWLINE, rest);
    var t := line + [NEWLINE] + rest;
    assert t[..|line|] == line;
    if |line| > 0 {
      assert t[|line| - 1] == line[|line| - 1];
    }
    assert Find(line, NEWLINE) == |line| && line[..|line|] == line;
  }

  /** A number may have a plus in front, and must fit 32 bits. */
  lemma NumberIs(d: Bytes)
    requires |d| > 0 && forall i :: 0 <= i < |d| ==> Digit(d[i])
    ensures ParseU32(d) == if Value(d) < 0x1_0000_0000 then Some(Value(d)) else None
    ensures ParseU32(['+'] + d) == ParseU32(d)
  {
    assert (['+'] + d)[1..] == d;
    assert Digit(d[0]);
  }

  // ---- what is parsed from valid text is valid ----

  /** Valid text may be split in front of an ASCII character. */
  lemma SplitValid(s: Bytes, k: nat)
    requires Valid(s) && k < |s| && s[k] as nat < 0x80
    ensures Valid(s[..k]) && Valid(s[k..]) && Valid(s[k + 1..])
  {
    hide Valid;
    CutValid(s, k);
    assert s == s[..k] + s[k..];
    ValidJoin(s[..k], s[k..]);
    AsciiValid([s[k]]);
    assert s[k..] == [s[k]] + s[k + 1..];
    ValidJoin([s[k]], s[k + 1..]);
  }

  lemma LinesValid(text: Bytes)
    requires Valid(text)
    ensures Valid(FirstLine(text)) && Valid(AfterLine(text))
  {
    hide Valid;
    AsciiValid([]);
    var k := Find(text, NEWLINE);
    if k < |text| {
      SplitValid(text, k);
      if k > 0 && text[k - 1] == '\r' {
        SplitValid(text, k - 1);
      }
    } else {
      assert text[..k] == text;
    }
  }

  lemma CleanValid(v: Bytes)
    requires Valid(v)
    ensures Valid(Clean(v))
  {
    hide Valid, Trim;
    TrimValid(v);
    var s := Trim(v);
    if |s| > 0 && s[0] == QUOTE {
      SplitValid(s, 0);
    }
    var a := if |s| > 0 && s[0] == QUOTE then s[1..] else s;
    if |a| > 0 && a[|a| - 1] == QUOTE {
      SplitValid(a, |a| - 1);
    }
    TrimValid(Unquote(s));
  }

  predicate ValidSome(v: Option<Bytes>) {
    v.Some? ==> Valid(v.value)
  }

  predicate ScanValid(sc: Scan) {
    ValidSome(sc.id) && ValidSome(sc.title) && ValidSome(sc.playbook) && ValidSome(sc.matchCause)
  }

  lemma CleanSome(value: Bytes)
    requires Valid(value)
    ensures ValidSome(Some(Clean(value)))
  {
    CleanValid(value);
  }

  lemma KeyValid(sc: Scan, key: Bytes, value: Bytes)
    requires ScanValid(sc) && Valid(value)
    ensures ScanValid(KeyValue(sc, key, value))
  {
    hide Valid, Clean, ParseU32, ValidSome;
    CleanSome(value);
  }

  lemma ItemValid(line: Bytes)
    requires Valid(line)
    ensures ValidSome(StripPrefix(TrimStart(line), "- "))
  {
    hide Valid, TrimStart;
    TrimStartValid(line);
    var t := TrimStart(line);
    if "- " <= t {
      assert t[0] == '-' && t[1] == ' ';
      SplitValid(t, 1);
    }
  }

  lemma StepValid(sc: Scan, line: Bytes)
    requires ScanValid(sc) && Valid(line)
    ensures ScanValid(StepLine(sc, line))
  {
    hide Valid, Clean, KeyValue, StripPrefix, TrimStart, Trim;
    ItemValid(line);
    var item := StripPrefix(TrimStart(line), "- ");
    if item.Some? {
      CleanValid(item.value);
    }
    var k := Find(line, ':');
    if k < |line| {
      SplitValid(line, k);
      KeyValid(sc, Trim(line[..k]), line[k + 1..]);
    }
  }

  lemma {:induction false} ScanTextValid(text: Bytes, sc: Scan)
    requires ScanValid(sc) && Valid(text)
    ensures ScanValid(ScanText(text, sc))
    decreases |text|
  {
    hide Valid, StepLine, FirstLine, AfterLine, IsFence, ScanValid;
    if |text| > 0 && !IsFence(FirstLine(text)) {
      LinesValid(text);
      StepValid(sc, FirstLine(text));
      ScanTextValid(AfterLine(text), StepLine(sc, FirstLine(text)));
    }
  }

  /** The strings of a record are valid text. */
  lemma ParsedValid(text: Bytes)
    requires ParseDoc(text).Some?
    ensures var rec := ParseDoc(text).value;
            Valid(rec.id) && Valid(rec.title) && Valid(rec.playbook) && ValidSome(rec.matchCause)
  {
    hide Valid, FirstLine, AfterLine, IsFence, ScanText;
    LinesValid(text);
    ScanTextValid(AfterLine(text), NOTHING);
  }

  // ---- the printer ----

  const SEEN_WIDTH: nat := 5

  function Line(s: Bytes, rest: Bytes): Bytes {
    s + [NEWLINE] + rest
  }

  /** The document with the given fixed-width fields, followed by rest. */
  function Doc(id: Bytes, title: Bytes, playbook: Bytes, token: Bytes, seen: Bytes, flag: Bytes, rest: Bytes): Bytes {
    Line("---", Line("id: " + id, Line("title: " + InQuotes(title), Line("match-cause: " + token,
    Line("seen: " + seen, Line("escalated: " + flag,
    Line("playbook:", Line("  - " + InQuotes(playbook), Line("---", rest)))))))))
  }

  predicate Sane(id: Bytes, title: Bytes, playbook: Bytes, token: Bytes) {
    && BareValue(id) && QuotedValue(title) && QuotedValue(playbook) && BareValue(token)
    && Valid(id) && Valid(title) && Valid(playbook) && Valid(token)
  }

  // ---- printing then parsing ----

  lemma FindAt(s: Bytes, c: Byte, rest: Bytes)
    requires c !in s
    ensures Find(s + [c] + rest, c) == |s|
  {
    var t := s + [c] + rest;
    assert t[|s|] == c;
    assert forall i :: 0 <= i < |s| ==> t[i] == s[i];
  }

  /** Text splits at the end of its first line. */
  lemma PeelLine(s: Bytes, rest: Bytes)
    requires NEWLINE !in s && (|s| > 0 ==> s[|s| - 1] != '\r')
    ensures |Line(s, rest)| > 0 && FirstLine(Line(s, rest)) == s && AfterLine(Line(s, rest)) == rest
  {
    FindAt(s, NEWLINE, rest);
    var t := Line(s, rest);
    assert t[..|s|] == s && t[|s| + 1..] == rest;
    if |s| > 0 {
      assert t[|s| - 1] == s[|s| - 1];
    }
  }

  /** A line that starts with a visible character other than a dash is no fence
      and no list item. */
  lemma PlainLine(s: Bytes)
    requires |s| > 0 && Visible(s[0]) && s[0] != '-'
    ensures !IsFence(s) && StripPrefix(TrimStart(s), "- ").None?
  {
    VisibleEnds(s);
    TrimEndHead(s);
  }

  lemma {:induction false} TrimEndHead(s: Bytes)
    requires |s| > 0 && Visible(s[0])
    ensures |TrimEnd(s)| > 0 && TrimEnd(s)[0] == s[0]
    decreases |s|
  {
    var n := BlankEnd(s);
    if n > 0 {
      assert n < |s|;
      TrimEndHead(s[..|s| - n]);
    }
  }

  /** A scalar line sets its field. */
  lemma ScalarLine(sc: Scan, key: Bytes, value: Bytes)
    requires |key| > 0 && Neat(key) && ':' !in key && key[0] != '-' && Visible(key[0])
    ensures !IsFence(key + [':'] + value)
    ensures StepLine(sc, key + [':'] + value) == KeyValue(sc, key, value)
  {
    hide KeyValue, IsFence;
    var line := key + [':'] + value;
    PlainLine(line);
    FindAt(key, ':', value);
    assert line[..|key|] == key && line[|key| + 1..] == value;
    TrimNeat(key);
  }

  /** The first list item under the playbook key is the playbook. */
  lemma ItemLine(sc: Scan, s: Bytes)
    requires QuotedValue(s) && sc.inPlaybook && sc.playbook.None?
    ensures !IsFence("  - " + InQuotes(s))
    ensures StepLine(sc, "  - " + InQuotes(s)) == sc.(playbook := Some(s))
  {
    hide IsFence, Clean, InQuotes;
    var item := InQuotes(s);
    var line: Bytes := "  - " + item;
    var t: Bytes := "- " + item;
    assert line == [' '] + ([' '] + t);
    TrimBlank([' '] + t);
    TrimBlank(t);
    assert t[2..] == item;
    VisibleEnds(t);
    CleanQuoted(s);
    ItemNoFence(line, s);
  }

  lemma TrimBlank(s: Bytes)
    ensures TrimStart([' '] + s) == TrimStart(s)
  {
    assert ([' '] + s)[1..] == s;
  }

  lemma ItemNoFence(line: Bytes, s: Bytes)
    requires TrimStart(line) == "- " + InQuotes(s)
    ensures !IsFence(line)
  {
    VisibleNeat("- " + InQuotes(s));
    TrimNeat("- " + InQuotes(s));
    assert ("- " + InQuotes(s))[1] == ' ';
  }

  lemma FenceLine()
    ensures IsFence("---")
  {
    TrimNeat("---");
  }

  /** Blanks around a fence do not matter, nor do those around a key and in front of
      a list item. */
  lemma FenceIs(a: Bytes, b: Bytes)
    requires AllBlank(a) && AllBlank(b)
    ensures IsFence(a + "---" + b)
  {
    hide Trim, AllBlank;
    VisibleNeat("---");
    TrimIs(a, "---", b);
  }

  lemma KeyIs(sc: Scan, a: Bytes, key: Bytes, b: Bytes, value: Bytes)
    requires AllBlank(a) && AllBlank(b) && ':' !in a + key + b
    requires |key| > 0 && Neat(key) && Visible(key[0]) && key[0] != '-'
    ensures StepLine(sc, (a + key + b) + [':'] + value) == KeyValue(sc, key, value)
  {
    hide KeyValue, Trim, AllBlank, TrimStart, StripPrefix, Clean;
    TrimIs(a, key, b);
    NoItem(a, key, b + [':'] + value);
    Regrouped(a, key, b, value);
    ColonAt(a + key + b, value);
  }

  lemma Regrouped(a: Bytes, key: Bytes, b: Bytes, value: Bytes)
    ensures (a + key + b) + [':'] + value == a + (key + (b + [':'] + value))
  {
  }

  lemma ColonAt(front: Bytes, value: Bytes)
    requires ':' !in front
    ensures var line := front + [':'] + value;
            var k := Find(line, ':');
            k == |front| && line[..k] == front && line[k + 1..] == value
  {
    FindAt(front, ':', value);
  }

  lemma NoItem(a: Bytes, key: Bytes, rest: Bytes)
    requires AllBlank(a) && |key| > 0 && Visible(key[0]) && key[0] != '-'
    ensures StripPrefix(TrimStart(a + (key + rest)), "- ").None?
  {
    TrimFront(a, key + rest);
    VisibleEnds(key + rest);
  }

  lemma ItemIs(sc: Scan, a: Bytes, value: Bytes)
    requires AllBlank(a) && sc.inPlaybook
    ensures StepLine(sc, a + ("- " + value)).playbook
         == if sc.playbook.None? then Some(Clean(value)) else sc.playbook
  {
    hide Clean, AllBlank, KeyValue;
    var t: Bytes := "- " + value;
    TrimFront(a, t);
    VisibleEnds(t);
    assert t[2..] == value;
    StepStays(sc, a + t);
  }

  lemma ScanLine(s: Bytes, rest: Bytes, sc: Scan)
    requires NEWLINE !in s && (|s| > 0 ==> s[|s| - 1] != '\r') && !IsFence(s)
    ensures ScanText(Line(s, rest), sc) == ScanText(rest, StepLine(sc, s))
  {
    hide IsFence, StepLine, Line, FirstLine, AfterLine;
    PeelLine(s, rest);
  }

  /** A line of the form "key: value". */
  lemma ScanScalar(key: Bytes, value: Bytes, rest: Bytes, sc: Scan)
    requires |key| > 0 && Neat(key) && ':' !in key && key[0] != '-' && Visible(key[0]) && NEWLINE !in key
    requires NEWLINE !in value
    requires |value| > 0 ==> value[|value| - 1] != '\r'
    ensures ScanText(Line(key + [':', ' '] + value, rest), sc) == ScanText(rest, KeyValue(sc, key, [' '] + value))
  {
    hide ScanText, Line, KeyValue, IsFence, StepLine;
    var line := key + [':', ' '] + value;
    assert line == key + [':'] + ([' '] + value);
    ScalarLine(sc, key, [' '] + value);
    ScanLine(line, rest, sc);
  }

  lemma Ends(s: Bytes)
    requires Neat(s)
    ensures |s| > 0 ==> s[|s| - 1] != '\r'
  {
  }

  lemma ScanId(id: Bytes, rest: Bytes, sc: Scan)
    requires BareValue(id)
    ensures ScanText(Line("id: " + id, rest), sc) == ScanText(rest, sc.(id := Some(id)))
  {
    hide ScanText, Line, Clean;
    Ends(id);
    CleanBare(id);
    assert "id: " + id == "id" + [':', ' '] + id;
    ScanScalar("id", id, rest, sc);
  }

  lemma ScanTitle(title: Bytes, rest: Bytes, sc: Scan)
    requires QuotedValue(title)
    ensures ScanText(Line("title: " + InQuotes(title), rest), sc) == ScanText(rest, sc.(title := Some(title)))
  {
    hide ScanText, Line, Clean;
    CleanQuoted(title);
    assert "title: " + InQuotes(title) == "title" + [':', ' '] + InQuotes(title);
    ScanScalar("title", InQuotes(title), rest, sc);
  }

  lemma ScanCause(token: Bytes, rest: Bytes, sc: Scan)
    requires BareValue(token)
    ensures ScanText(Line("match-cause: " + token, rest), sc) == ScanText(rest, sc.(matchCause := Some(token)))
  {
    hide ScanText, Line, Clean;
    Ends(token);
    CleanBare(token);
    assert "match-cause: " + token == "match-cause" + [':', ' '] + token;
    ScanScalar("match-cause", token, rest, sc);
  }

  lemma ScanSeen(seen: Bytes, n: nat, rest: Bytes, sc: Scan)
    requires BareValue(seen) && ParseU32(seen) == Some(n)
    ensures ScanText(Line("seen: " + seen, rest), sc) == ScanText(rest, sc.(seen := n))
  {
    hide ScanText, Line, Clean, ParseU32;
    Ends(seen);
    CleanBare(seen);
    assert "seen: " + seen == "seen" + [':', ' '] + seen;
    ScanScalar("seen", seen, rest, sc);
  }

  lemma ScanFlag(flag: Bytes, rest: Bytes, sc: Scan)
    requires BareValue(flag)
    ensures ScanText(Line("escalated: " + flag, rest), sc) == ScanText(rest, sc.(escalated := flag == "1"))
  {
    hide ScanText, Line, Clean;
    Ends(flag);
    CleanBare(flag);
    assert "escalated: " + flag == "escalated" + [':', ' '] + flag;
    ScanScalar("escalated", flag, rest, sc);
  }

  /** The playbook key, its first item and the closing fence. */
  lemma ScanPlaybook(playbook: Bytes, rest: Bytes, sc: Scan)
    requires QuotedValue(playbook) && sc.playbook.None?
    ensures ScanText(Line("playbook:", Line("  - " + InQuotes(playbook), Line("---", rest))), sc)
         == sc.(inPlaybook := true, playbook := Some(playbook))
  {
    hide ScanText, Line, Clean, InQuotes, StepLine, IsFence;
    var fence := Line("---", rest);
    var item: Bytes := "  - " + InQuotes(playbook);
    var sc1 := sc.(inPlaybook := true);
    assert "playbook:" == "playbook" + [':'] + [];
    ScalarLine(sc, "playbook", []);
    ScanLine("playbook:", Line(item, fence), sc);
    ItemLine(sc1, playbook);
    ItemEnds(playbook);
    ScanLine(item, fence, sc1);
    ScanFence(rest, sc1.(playbook := Some(playbook)));
  }

  lemma ScanFence(rest: Bytes, sc: Scan)
    ensures ScanText(Line("---", rest), sc) == sc
  {
    hide Line, StepLine, IsFence;
    FenceLine();
    PeelLine("---", rest);
  }

  lemma ItemEnds(s: Bytes)
    requires QuotedValue(s)
    ensures var item: Bytes := "  - " + InQuotes(s); NEWLINE !in item && item[|item| - 1] != '\r'
  {
  }

  function FlagText(escalated: bool): Bytes {
    if escalated then "1" else "0"
  }

  lemma FieldsBare(n: nat, escalated: bool)
    requires n < 100000
    ensures BareValue(Digits(n, SEEN_WIDTH)) && ParseU32(Digits(n, SEEN_WIDTH)) == Some(n)
    ensures BareValue(FlagText(escalated)) && (FlagText(escalated) == "1" <==> escalated)
  {
    assert Pow10(5) == 100000;
    ParseDigits(n, SEEN_WIDTH);
    var d := Digits(n, SEEN_WIDTH);
    assert Digit(d[0]) && Digit(d[4]);
    VisibleNeat(d);
    VisibleNeat(FlagText(escalated));
    assert NEWLINE !in d;
  }

  /** A printed document parses back to what was printed, whatever valid text
      follows it; with anything else behind it is refused. */
  lemma DocParses(id: Bytes, title: Bytes, playbook: Bytes, token: Bytes, n: nat, escalated: bool, rest: Bytes)
    requires Sane(id, title, playbook, token) && n < 100000
    ensures ParseDoc(Doc(id, title, playbook, token, Digits(n, SEEN_WIDTH), FlagText(escalated), rest))
         == if Valid(rest) then Some(Record(id, title, playbook, Some(token), n, escalated)) else None
  {
    hide ParseText, Doc, Valid;
    DocText(id, title, playbook, token, n, escalated, rest);
    DocValid(id, title, playbook, token, Digits(n, SEEN_WIDTH), FlagText(escalated), rest) by {
      FieldsAscii(n, escalated);
    }
  }

  lemma ValidLine(prefix: Bytes, value: Bytes, rest: Bytes)
    requires Ascii(prefix) && Valid(value)
    ensures Valid(prefix + value) && (Valid(Line(prefix + value, rest)) <==> Valid(rest))
  {
    AsciiValid(prefix);
    ValidJoin(prefix, value);
    AsciiValid([NEWLINE]);
    ValidJoin(prefix + value, [NEWLINE]);
    ValidJoin(prefix + value + [NEWLINE], rest);
  }

  lemma ValidQuoted(s: Bytes)
    requires Valid(s)
    ensures Valid(InQuotes(s))
  {
    AsciiValid([QUOTE]);
    ValidJoin([QUOTE], s);
    ValidJoin([QUOTE] + s, [QUOTE]);
  }

  lemma FieldsAscii(n: nat, escalated: bool)
    ensures Valid(Digits(n, SEEN_WIDTH)) && Valid(FlagText(escalated))
  {
    var d := Digits(n, SEEN_WIDTH);
    forall i | 0 <= i < |d| ensures d[i] as nat < 0x80 { assert Digit(d[i]); }
    AsciiValid(d);
    AsciiValid(FlagText(escalated));
  }

  /** A document of valid strings is valid exactly when what follows it is. */
  lemma DocValid(id: Bytes, title: Bytes, playbook: Bytes, token: Bytes, seen: Bytes, flag: Bytes, rest: Bytes)
    requires Valid(id) && Valid(title) && Valid(playbook) && Valid(token) && Valid(seen) && Valid(flag)
    ensures Valid(Doc(id, title, playbook, token, seen, flag, rest)) <==> Valid(rest)
  {
    hide Line, InQuotes, Valid;
    ValidQuoted(title);
    var p5 := Line("escalated: " + flag, Line("playbook:", Line("  - " + InQuotes(playbook), Line("---", rest))));
    var p4 := Line("seen: " + seen, p5);
    var p3 := Line("match-cause: " + token, p4);
    var p2 := Line("title: " + InQuotes(title), p3);
    ValidText("---", Line("id: " + id, p2));
    ValidLine("id: ", id, p2);
    ValidLine("title: ", InQuotes(title), p3);
    ValidLine("match-cause: ", token, p4);
    ValidLine("seen: ", seen, p5);
    EndValid(playbook, flag, rest);
  }

  lemma EndValid(playbook: Bytes, flag: Bytes, rest: Bytes)
    requires Valid(playbook) && Valid(flag)
    ensures Valid(Line("escalated: " + flag, Line("playbook:", Line("  - " + InQuotes(playbook), Line("---", rest)))))
       <==> Valid(rest)
  {
    hide Line, InQuotes, Valid;
    ValidQuoted(playbook);
    var p8 := Line("---", rest);
    var p7 := Line("  - " + InQuotes(playbook), p8);
    ValidLine("escalated: ", flag, Line("playbook:", p7));
    ValidText("playbook:", p7);
    ValidLine("  - ", InQuotes(playbook), p8);
    ValidText("---", rest);
  }

  lemma ValidText(line: Bytes, rest: Bytes)
    requires Ascii(line)
    ensures Valid(Line(line, rest)) <==> Valid(rest)
  {
    ValidLine(line, [], rest);
    assert line + [] == line;
  }

  lemma DocText(id: Bytes, title: Bytes, playbook: Bytes, token: Bytes, n: nat, escalated: bool, rest: Bytes)
    requires Sane(id, title, playbook, token) && n < 100000
    ensures ParseText(Doc(id, title, playbook, token, Digits(n, SEEN_WIDTH), FlagText(escalated), rest))
         == Some(Record(id, title, playbook, Some(token), n, escalated))
  {
    hide ScanText, Line, Digits, IsFence, ParseU32, FlagText, InQuotes, BareValue, QuotedValue;
    var seen, flag := Digits(n, SEEN_WIDTH), FlagText(escalated);
    FieldsBare(n, escalated);
    var r6 := Line("playbook:", Line("  - " + InQuotes(playbook), Line("---", rest)));
    var r5 := Line("escalated: " + flag, r6);
    var r4 := Line("seen: " + seen, r5);
    var r3 := Line("match-cause: " + token, r4);
    var r2 := Line("title: " + InQuotes(title), r3);
    var r1 := Line("id: " + id, r2);
    PeelLine("---", r1);
    FenceLine();
    var s1 := NOTHING.(id := Some(id));
    var s2 := s1.(title := Some(title));
    var s3 := s2.(matchCause := Some(token));
    var s4 := s3.(seen := n);
    var s5 := s4.(escalated := escalated);
    ScanId(id, r2, NOTHING);
    ScanTitle(title, r3, s1);
    ScanCause(token, r4, s2);
    ScanSeen(seen, n, r5, s3);
    ScanFlag(flag, r6, s4);
    ScanPlaybook(playbook, rest, s5);
  }
}
