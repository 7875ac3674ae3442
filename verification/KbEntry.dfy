/** Entries in any layout: frontmatter lines of any kind, the two field lines
    somewhere among them, and any text behind. */
module KbEntry {
  import opened Options
  import opened Bytes
  import opened Utf8
  import opened Kb
  import opened KbFields
  import opened KbBlock

  /** A line of text, or one of the field lines with blanks behind its digits. */
  datatype Row = Text(line: Bytes) | SeenRow(tail: Bytes) | FlagRow(tail: Bytes)

  function RowText(row: Row, m: Mem): Bytes {
    match row
    case Text(line) => line
    case SeenRow(tail) => SEEN_KEY + Digits(m.seen, SEEN_WIDTH) + tail
    case FlagRow(tail) => FLAG_KEY + FlagText(m.escalated) + tail
  }

  function Render(rows: seq<Row>, m: Mem, rest: Bytes): Bytes {
    if |rows| == 0 then rest else Line(RowText(rows[0], m), Render(rows[1..], m, rest))
  }

  /** A line without the carriage return at its end. */
  function Chomp(s: Bytes): Bytes {
    if |s| > 0 && s[|s| - 1] == '\r' then s[..|s| - 1] else s
  }

  /** The parser takes this line as an assignment to the key. */
  predicate Assigns(line: Bytes, key: Bytes) {
    Find(line, ':') < |line| && Trim(line[..Find(line, ':')]) == key
  }

  predicate Blanks(s: Bytes) {
    forall i :: 0 <= i < |s| ==> AsciiBlank(s[i]) && s[i] != NEWLINE
  }

  /** The rows hold each field line once. Before its field line no line contains
      the key, after it no line assigns to it, and no line is a fence. */
  predicate Laid(rows: seq<Row>, seenDone: bool, flagDone: bool) {
    if |rows| == 0 then seenDone && flagDone
    else
      match rows[0]
      case Text(line) =>
        && NEWLINE !in line && !IsFence(Chomp(line))
        && (if seenDone then !Assigns(Chomp(line), "seen") else Lacks(line, SEEN_KEY))
        && (if flagDone then !Assigns(Chomp(line), "escalated") else Lacks(line, FLAG_KEY))
        && Laid(rows[1..], seenDone, flagDone)
      case SeenRow(tail) => !seenDone && Blanks(tail) && Laid(rows[1..], true, flagDone)
      case FlagRow(tail) => !flagDone && Blanks(tail) && Laid(rows[1..], seenDone, true)
  }

  /** No line up to the closing fence assigns to either key. */
  predicate QuietText(text: Bytes)
    decreases |text|
  {
    || |text| == 0 || IsFence(FirstLine(text))
    || (!Assigns(FirstLine(text), "seen") && !Assigns(FirstLine(text), "escalated") && QuietText(AfterLine(text)))
  }

  // ---- the parser ----

  function With(sc: Scan, m: Mem): Scan {
    sc.(seen := m.seen, escalated := m.escalated)
  }

  /** A line that does not assign to a key leaves its value, and no line reads
      either value. */
  lemma StepWith(sc: Scan, line: Bytes, m: Mem)
    ensures With(StepLine(With(sc, m), line), m) == With(StepLine(sc, line), m)
    ensures !Assigns(line, "seen") ==> StepLine(sc, line).seen == sc.seen
    ensures !Assigns(line, "escalated") ==> StepLine(sc, line).escalated == sc.escalated
  {
    hide Clean, ParseU32, Trim, TrimStart, StripPrefix, Find;
  }

  lemma {:induction false} QuietScan(text: Bytes, sc: Scan, m: Mem)
    requires QuietText(text)
    ensures ScanText(text, With(sc, m)) == With(ScanText(text, sc), m)
    decreases |text|
  {
    hide StepLine, Assigns, IsFence, FirstLine, AfterLine;
    if |text| > 0 && !IsFence(FirstLine(text)) {
      var line := FirstLine(text);
      StepWith(sc, line, m);
      StepWith(With(sc, m), line, m);
      QuietScan(AfterLine(text), StepLine(sc, line), m);
    }
  }

  /** Text splits at the end of its first line, a carriage return dropped. */
  lemma PeelRow(s: Bytes, rest: Bytes)
    requires NEWLINE !in s
    ensures |Line(s, rest)| > 0 && FirstLine(Line(s, rest)) == Chomp(s) && AfterLine(Line(s, rest)) == rest
  {
    FindAt(s, NEWLINE, rest);
    var t := Line(s, rest);
    assert t[..|s|] == s && t[|s| + 1..] == rest;
    if |s| > 0 {
      assert t[|s| - 1] == s[|s| - 1];
      assert t[..|s| - 1] == s[..|s| - 1];
    }
  }

  lemma ScanRow(s: Bytes, rest: Bytes, sc: Scan)
    requires NEWLINE !in s
    ensures ScanText(Line(s, rest), sc) == if IsFence(Chomp(s)) then sc else ScanText(rest, StepLine(sc, Chomp(s)))
  {
    hide IsFence, StepLine, Line, FirstLine, AfterLine, Chomp;
    PeelRow(s, rest);
  }

  lemma {:induction false} TrimTail(s: Bytes, tail: Bytes)
    requires BlankEnd(s) == 0 && Blanks(tail)
    ensures TrimEnd(s + tail) == s
    decreases |tail|
  {
    if |tail| == 0 {
      assert s + tail == s;
    } else {
      var n := |tail| - 1;
      assert (s + tail)[..|s| + n] == s + tail[..n];
      TrimTail(s, tail[..n]);
    }
  }

  /** A bare value with blanks behind it reads as the value. */
  lemma CleanTail(v: Bytes, tail: Bytes)
    requires |v| > 0 && BareValue(v) && Visible(v[0]) && Blanks(tail)
    ensures Clean([' '] + v + tail) == v
  {
    hide TrimEnd;
    assert [' '] + v + tail == [' '] + (v + tail);
    TrimBlank(v + tail);
    VisibleEnds(v + tail);
    TrimTail(v, tail);
    TrimNeat(v);
  }

  lemma ChompTail(s: Bytes, tail: Bytes)
    requires |s| > 0 && s[|s| - 1] != '\r' && Blanks(tail)
    ensures Chomp(s + tail) == s + Chomp(tail) && Blanks(Chomp(tail))
  {
    if |tail| > 0 && tail[|tail| - 1] == '\r' {
      assert (s + tail)[..|s + tail| - 1] == s + tail[..|tail| - 1];
    }
  }

  /** A field line, as the parser reads it. */
  lemma FieldLine(key: Bytes, v: Bytes, tail: Bytes, rest: Bytes, sc: Scan)
    requires |key| > 0 && Neat(key) && ':' !in key && key[0] != '-' && Visible(key[0]) && NEWLINE !in key
    requires |v| > 0 && BareValue(v) && Visible(v[0]) && Blanks(tail)
    ensures Clean([' '] + v + Chomp(tail)) == v
    ensures ScanText(Line(key + [':', ' '] + v + tail, rest), sc)
         == ScanText(rest, KeyValue(sc, key, [' '] + v + Chomp(tail)))
  {
    hide ScanText, Line, KeyValue, IsFence, StepLine, Clean;
    var s := key + [':', ' '] + v;
    ChompTail(s, tail);
    CleanTail(v, Chomp(tail));
    assert s + Chomp(tail) == key + [':'] + ([' '] + v + Chomp(tail));
    ScalarLine(sc, key, [' '] + v + Chomp(tail));
    ScanRow(s + tail, rest, sc);
  }

  lemma ScanSeenRow(m: Mem, tail: Bytes, rest: Bytes, sc: Scan)
    requires m.seen <= SEEN_MAX && Blanks(tail)
    ensures ScanText(Line(RowText(SeenRow(tail), m), rest), sc) == ScanText(rest, sc.(seen := m.seen))
  {
    hide ScanText, Line, Clean, ParseU32, BareValue, Digits;
    FieldsBare(m.seen, m.escalated);
    assert SEEN_KEY == "seen" + [':', ' '];
    FieldLine("seen", Digits(m.seen, SEEN_WIDTH), tail, rest, sc);
  }

  lemma ScanFlagRow(m: Mem, tail: Bytes, rest: Bytes, sc: Scan)
    requires Blanks(tail)
    ensures ScanText(Line(RowText(FlagRow(tail), m), rest), sc) == ScanText(rest, sc.(escalated := m.escalated))
  {
    hide ScanText, Line, Clean, BareValue, FlagText;
    FieldsBare(0, m.escalated);
    FlagDigits(m.escalated);
    assert FLAG_KEY == "escalated" + [':', ' '];
    FieldLine("escalated", FlagText(m.escalated), tail, rest, sc);
  }

  /** Scanning laid-out rows with memory m: all else as with memory z, and m. */
  lemma {:induction false} ScanRows(rows: seq<Row>, seenDone: bool, flagDone: bool, rest: Bytes, sc: Scan, z: Mem,
                                    sz: Scan, m: Mem)
    requires Laid(rows, seenDone, flagDone) && QuietText(rest) && m.seen <= SEEN_MAX && z.seen <= SEEN_MAX
    requires With(sc, m) == With(sz, m) && (seenDone ==> sc.seen == m.seen)
    requires (flagDone ==> sc.escalated == m.escalated)
    ensures ScanText(Render(rows, m, rest), sc) == With(ScanText(Render(rows, z, rest), sz), m)
    decreases |rows|
  {
    hide ScanText, Line, StepLine, Assigns, IsFence, Chomp, RowText, Lacks, QuietText, Blanks;
    if |rows| == 0 {
      assert sc == With(sz, m);
      QuietScan(rest, sz, m);
    } else {
      var more, morez := Render(rows[1..], m, rest), Render(rows[1..], z, rest);
      match rows[0]
      case Text(line) =>
        var l := Chomp(line);
        ScanRow(line, more, sc);
        ScanRow(line, morez, sz);
        StepWith(sc, l, m);
        StepWith(sz, l, m);
        assert RowText(rows[0], m) == line == RowText(rows[0], z) by { TextRow(line, m); TextRow(line, z); }
        ScanRows(rows[1..], seenDone, flagDone, rest, StepLine(sc, l), z, StepLine(sz, l), m);
      case SeenRow(tail) =>
        ScanSeenRow(m, tail, more, sc);
        ScanSeenRow(z, tail, morez, sz);
        ScanRows(rows[1..], true, flagDone, rest, sc.(seen := m.seen), z, sz.(seen := z.seen), m);
      case FlagRow(tail) =>
        ScanFlagRow(m, tail, more, sc);
        ScanFlagRow(z, tail, morez, sz);
        ScanRows(rows[1..], seenDone, true, rest, sc.(escalated := m.escalated), z, sz.(escalated := z.escalated), m);
    }
  }

  lemma TextRow(line: Bytes, m: Mem)
    ensures RowText(Text(line), m) == line
  {
  }

  /** Rows with other memory differ in digits only. */
  lemma {:induction false} RowsSame(rows: seq<Row>, rest: Bytes, m: Mem, z: Mem)
    ensures SameButDigits(Render(rows, m, rest), Render(rows, z, rest))
    decreases |rows|
  {
    hide RowText;
    if |rows| > 0 {
      RowsSame(rows[1..], rest, m, z);
      RowSame(rows[0], m, z);
    }
  }

  lemma RowSame(row: Row, m: Mem, z: Mem)
    ensures SameButDigits(RowText(row, m), RowText(row, z))
  {
    hide Digits, FlagText;
    FlagDigits(m.escalated);
    FlagDigits(z.escalated);
  }

  lemma SameBehind(open: Bytes, a: Bytes, b: Bytes)
    requires SameButDigits(a, b)
    ensures SameButDigits(Line(open, a), Line(open, b))
  {
  }

  /** The text between the fences, valid or not. */
  lemma LaidReads(open: Bytes, rows: seq<Row>, rest: Bytes, m: Mem, z: Mem)
    requires NEWLINE !in open && IsFence(Chomp(open)) && Laid(rows, false, false) && QuietText(rest)
    requires m.seen <= SEEN_MAX && z.seen <= SEEN_MAX
    ensures var p, q := ParseText(Line(open, Render(rows, m, rest))), ParseText(Line(open, Render(rows, z, rest)));
            && (p.Some? <==> q.Some?)
            && (p.Some? ==> p.value == q.value.(seen := m.seen, escalated := m.escalated))
  {
    hide ScanText, Line, IsFence, Chomp, Laid, QuietText, FirstLine, AfterLine;
    PeelRow(open, Render(rows, m, rest));
    PeelRow(open, Render(rows, z, rest));
    ScanRows(rows, false, false, rest, NOTHING, z, NOTHING, m);
  }

  /** Any text of an opening fence, laid-out rows and a quiet rest parses to the
      count and the flag of its field lines; nothing else of the record depends on
      them, nor does whether the text is valid. */
  lemma LaidParses(open: Bytes, rows: seq<Row>, rest: Bytes, m: Mem, z: Mem)
    requires NEWLINE !in open && IsFence(Chomp(open)) && Laid(rows, false, false) && QuietText(rest)
    requires m.seen <= SEEN_MAX && z.seen <= SEEN_MAX
    ensures var p, q := ParseDoc(Line(open, Render(rows, m, rest))), ParseDoc(Line(open, Render(rows, z, rest)));
            && (p.Some? <==> q.Some?)
            && (p.Some? ==> p.value == q.value.(seen := m.seen, escalated := m.escalated))
  {
    hide Line, IsFence, Chomp, Laid, QuietText, ParseText, Render, Valid, SameButDigits;
    LaidReads(open, rows, rest, m, z);
    RowsSame(rows, rest, m, z);
    SameBehind(open, Render(rows, m, rest), Render(rows, z, rest));
    ValidSame(Line(open, Render(rows, m, rest)), Line(open, Render(rows, z, rest)));
  }

  /** Reading laid-out rows leads to the rest in some state. */
  lemma {:induction false} ScanTo(rows: seq<Row>, seenDone: bool, flagDone: bool, rest: Bytes, sc: Scan,
                                  m: Mem) returns (sc': Scan)
    requires Laid(rows, seenDone, flagDone) && m.seen <= SEEN_MAX
    ensures ScanText(Render(rows, m, rest), sc) == ScanText(rest, sc')
    decreases |rows|
  {
    hide ScanText, Line, StepLine, Assigns, IsFence, Chomp, RowText, Lacks, Blanks;
    if |rows| == 0 {
      return sc;
    }
    var more := Render(rows[1..], m, rest);
    match rows[0] {
      case Text(line) =>
        TextRow(line, m);
        ScanRow(line, more, sc);
        sc' := ScanTo(rows[1..], seenDone, flagDone, rest, StepLine(sc, Chomp(line)), m);
      case SeenRow(tail) =>
        ScanSeenRow(m, tail, more, sc);
        sc' := ScanTo(rows[1..], true, flagDone, rest, sc.(seen := m.seen), m);
      case FlagRow(tail) =>
        ScanFlagRow(m, tail, more, sc);
        sc' := ScanTo(rows[1..], seenDone, true, rest, sc.(escalated := m.escalated), m);
    }
  }

  /** A quiet rest is needed: with a later counter line the parser gives that
      line's count, whatever the writer has put in the first. */
  lemma LaterLineWins(open: Bytes, rows: seq<Row>, later: Mem, rest: Bytes, m: Mem)
    requires NEWLINE !in open && IsFence(Chomp(open)) && Laid(rows, false, false) && QuietText(rest)
    requires m.seen <= SEEN_MAX && later.seen <= SEEN_MAX
    ensures var p := ParseDoc(Line(open, Render(rows, m, Line(RowText(SeenRow([]), later), rest)))); p.Some? ==>
      p.value.seen == later.seen
  {
    hide ScanText, Line, IsFence, Chomp, Laid, QuietText, FirstLine, AfterLine, RowText;
    var tail := Line(RowText(SeenRow([]), later), rest);
    PeelRow(open, Render(rows, m, tail));
    var sc := ScanTo(rows, false, false, tail, NOTHING, m);
    ScanSeenRow(later, [], rest, sc);
    var sc' := sc.(seen := later.seen);
    QuietScan(rest, sc', Mem(later.seen, sc'.escalated));
    assert With(sc', Mem(later.seen, sc'.escalated)) == sc';
  }

  // ---- the writer ----

  lemma LacksStart(s: Bytes, key: Bytes)
    requires |key| > 0 && key[0] !in s
    ensures Lacks(s, key)
  {
    forall p | 0 <= p < |s| ensures !MatchAt(s, p, key) {
      assert p + |key| <= |s| ==> s[p..p + |key|][0] == s[p];
    }
  }

  /** Digits and blanks do not contain a key. */
  lemma ValueLacks(d: Bytes, tail: Bytes, key: Bytes)
    requires (forall i :: 0 <= i < |d| ==> Digit(d[i])) && Blanks(tail) && |key| > 0 && !Digit(key[0])
    requires !AsciiBlank(key[0])
    ensures Lacks(d + tail, key)
  {
    forall i | 0 <= i < |d + tail| ensures (d + tail)[i] != key[0] {
      if i < |d| {
        assert Digit((d + tail)[i]);
      } else {
        assert AsciiBlank((d + tail)[i]);
      }
    }
    LacksStart(d + tail, key);
  }

  /** Each field line lacks the other field's key. */
  lemma SeenRowLacks(m: Mem, tail: Bytes)
    requires Blanks(tail)
    ensures Lacks(RowText(SeenRow(tail), m), FLAG_KEY)
  {
    hide Lacks, Digits;
    var d := Digits(m.seen, SEEN_WIDTH);
    ValueLacks(d, tail, FLAG_KEY);
    LacksPrefixed(SEEN_KEY, d + tail, FLAG_KEY);
    assert SEEN_KEY + d + tail == SEEN_KEY + (d + tail);
  }

  lemma FlagRowLacks(m: Mem, tail: Bytes)
    requires Blanks(tail)
    ensures Lacks(RowText(FlagRow(tail), m), SEEN_KEY)
  {
    hide Lacks, FlagText;
    var d := FlagText(m.escalated);
    FlagDigits(m.escalated);
    ValueLacks(d, tail, SEEN_KEY);
    LacksPrefixed(FLAG_KEY, d + tail, SEEN_KEY);
    assert FLAG_KEY + d + tail == FLAG_KEY + (d + tail);
  }

  /** Setting the field that the text starts with. */
  lemma SetFirst(key: Bytes, was: Bytes, after: Bytes, value: nat, width: nat)
    requires |was| == width && forall i :: 0 <= i < width ==> Digit(was[i])
    ensures SetField(key + was + after, key, value, width)
         == Some(key + Digits(Capped(value, MaxField(width)), width) + after)
  {
    hide Digits, MaxField;
    var t := key + was + after;
    var d := Digits(Capped(value, MaxField(width)), width);
    assert t[0..|key|] == key;
    assert MatchAt(t, 0, key);
    assert FirstMatch(t, key, 0) == Some(0);
    assert forall i :: |key| <= i < |key| + width ==> t[i] == was[i - |key|];
    assert Put(t, |key|, d) == key + d + after;
  }

  lemma LineTail(a: Bytes, tail: Bytes, rest: Bytes)
    ensures Line(a + tail, rest) == a + (tail + [NEWLINE] + rest)
  {
  }

  /** The counter of laid-out rows is set in its own line. */
  lemma {:induction false} SetSeenRows(rows: seq<Row>, flagDone: bool, rest: Bytes, m: Mem, value: nat)
    requires Laid(rows, false, flagDone)
    ensures SetField(Render(rows, m, rest), SEEN_KEY, value, SEEN_WIDTH)
         == Some(Render(rows, m.(seen := Cap(value)), rest))
    decreases |rows|
  {
    hide SetField, Line, RowText, Lacks, Blanks, Assigns, IsFence, Chomp, Digits, MaxField;
    var m' := m.(seen := Cap(value));
    var more, more' := Render(rows[1..], m, rest), Render(rows[1..], m', rest);
    match rows[0]
    case Text(line) =>
      TextRow(line, m);
      TextRow(line, m');
      SetSeenRows(rows[1..], flagDone, rest, m, value);
      SetSkip(line, more, SEEN_KEY, value, SEEN_WIDTH);
    case FlagRow(tail) =>
      FlagRowLacks(m, tail);
      FlagRowSame(m, m', tail);
      SetSeenRows(rows[1..], true, rest, m, value);
      SetSkip(RowText(rows[0], m), more, SEEN_KEY, value, SEEN_WIDTH);
    case SeenRow(tail) =>
      SeenSame(rows[1..], flagDone, rest, m, m');
      SetSeenRow(m, tail, more, value);
  }

  lemma FlagRowSame(m: Mem, m': Mem, tail: Bytes)
    requires m.escalated == m'.escalated
    ensures RowText(FlagRow(tail), m) == RowText(FlagRow(tail), m')
  {
  }

  lemma SetSeenRow(m: Mem, tail: Bytes, rest: Bytes, value: nat)
    ensures SetField(Line(RowText(SeenRow(tail), m), rest), SEEN_KEY, value, SEEN_WIDTH)
         == Some(Line(RowText(SeenRow(tail), m.(seen := Cap(value))), rest))
  {
    hide SetField, Line, Digits, MaxField;
    Widths();
    var d, d' := Digits(m.seen, SEEN_WIDTH), Digits(Cap(value), SEEN_WIDTH);
    LineTail(SEEN_KEY + d, tail, rest);
    LineTail(SEEN_KEY + d', tail, rest);
    SetFirst(SEEN_KEY, d, tail + [NEWLINE] + rest, value, SEEN_WIDTH);
  }

  /** Behind the counter's line the rows do not depend on the count. */
  lemma {:induction false} SeenSame(rows: seq<Row>, flagDone: bool, rest: Bytes, m: Mem, m': Mem)
    requires Laid(rows, true, flagDone) && m.escalated == m'.escalated
    ensures Render(rows, m, rest) == Render(rows, m', rest)
    decreases |rows|
  {
    hide Line, Lacks, Blanks, Assigns, IsFence, Chomp;
    if |rows| > 0 {
      match rows[0]
      case Text(_) => SeenSame(rows[1..], flagDone, rest, m, m');
      case FlagRow(_) => SeenSame(rows[1..], true, rest, m, m');
      case SeenRow(_) =>
    }
  }

  /** The flag of laid-out rows is set in its own line. */
  lemma {:induction false} SetFlagRows(rows: seq<Row>, seenDone: bool, rest: Bytes, m: Mem, flag: bool)
    requires Laid(rows, seenDone, false)
    ensures SetField(Render(rows, m, rest), FLAG_KEY, if flag then 1 else 0, 1)
         == Some(Render(rows, m.(escalated := flag), rest))
    decreases |rows|
  {
    hide SetField, Line, RowText, Lacks, Blanks, Assigns, IsFence, Chomp, Digits, MaxField;
    var m' := m.(escalated := flag);
    var v := if flag then 1 else 0;
    var more, more' := Render(rows[1..], m, rest), Render(rows[1..], m', rest);
    match rows[0]
    case Text(line) =>
      TextRow(line, m);
      TextRow(line, m');
      SetFlagRows(rows[1..], seenDone, rest, m, flag);
      SetSkip(line, more, FLAG_KEY, v, 1);
    case SeenRow(tail) =>
      SeenRowLacks(m, tail);
      SeenRowSame(m, m', tail);
      SetFlagRows(rows[1..], true, rest, m, flag);
      SetSkip(RowText(rows[0], m), more, FLAG_KEY, v, 1);
    case FlagRow(tail) =>
      FlagSame(rows[1..], seenDone, rest, m, m');
      SetFlagRow(m, tail, more, flag);
  }

  lemma SeenRowSame(m: Mem, m': Mem, tail: Bytes)
    requires m.seen == m'.seen
    ensures RowText(SeenRow(tail), m) == RowText(SeenRow(tail), m')
  {
  }

  lemma SetFlagRow(m: Mem, tail: Bytes, rest: Bytes, flag: bool)
    ensures SetField(Line(RowText(FlagRow(tail), m), rest), FLAG_KEY, if flag then 1 else 0, 1)
         == Some(Line(RowText(FlagRow(tail), m.(escalated := flag)), rest))
  {
    hide SetField, Line, Digits, MaxField, FlagText;
    Widths();
    FlagDigits(m.escalated);
    FlagDigits(flag);
    LineTail(FLAG_KEY + FlagText(m.escalated), tail, rest);
    LineTail(FLAG_KEY + FlagText(flag), tail, rest);
    SetFirst(FLAG_KEY, FlagText(m.escalated), tail + [NEWLINE] + rest, if flag then 1 else 0, 1);
  }

  lemma {:induction false} FlagSame(rows: seq<Row>, seenDone: bool, rest: Bytes, m: Mem, m': Mem)
    requires Laid(rows, seenDone, true) && m.seen == m'.seen
    ensures Render(rows, m, rest) == Render(rows, m', rest)
    decreases |rows|
  {
    hide Line, Lacks, Blanks, Assigns, IsFence, Chomp;
    if |rows| > 0 {
      match rows[0]
      case Text(_) => FlagSame(rows[1..], seenDone, rest, m, m');
      case SeenRow(_) => FlagSame(rows[1..], true, rest, m, m');
      case FlagRow(_) =>
    }
  }

  // ---- entries ----

  datatype Entry = Entry(name: Bytes, open: Bytes, rows: seq<Row>, rest: Bytes)

  const FRESH: Mem := Mem(0, false)

  /** The text of an entry whose fields say m. */
  function EntryText(e: Entry, m: Mem): Bytes {
    Line(e.open, Render(e.rows, m, e.rest))
  }

  /** It opens with a fence and its rows are laid out. */
  predicate LaidOut(e: Entry) {
    NEWLINE !in e.open && IsFence(Chomp(e.open)) && Lacks(e.open, SEEN_KEY) && Lacks(e.open, FLAG_KEY)
      && Laid(e.rows, false, false)
  }

  /** The writer's update turns the text for m into the text for the new memory. */
  lemma EntryUpdates(e: Entry, m: Mem, seen: nat, escalated: bool)
    requires LaidOut(e)
    ensures SetBoth(EntryText(e, m), seen, escalated) == Some(EntryText(e, Mem(Cap(seen), escalated)))
    ensures Fielded(EntryText(e, m))
    ensures WithFields(EntryText(e, m), Cap(seen), escalated) == EntryText(e, Mem(Cap(seen), escalated))
  {
    hide SetField, Line, Lacks, Laid, IsFence, Chomp, Fielded, WithFields;
    var v := if escalated then 1 else 0;
    SetSeenRows(e.rows, false, e.rest, m, seen);
    SetSkip(e.open, Render(e.rows, m, e.rest), SEEN_KEY, seen, SEEN_WIDTH);
    var m1 := m.(seen := Cap(seen));
    SetFlagRows(e.rows, false, e.rest, m1, escalated);
    SetSkip(e.open, Render(e.rows, m1, e.rest), FLAG_KEY, v, 1);
    SetBothIs(EntryText(e, m), seen, escalated);
  }
}
