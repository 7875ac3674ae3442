/** The entries the system really has: what serialize prints, with or without text
    behind it, and the entry that ships with the knowledge base. */
module KbInstances {
  import opened Options
  import opened Bytes
  import opened Utf8
  import opened Volume
  import opened Append
  import opened Kb
  import opened KbFields
  import opened KbBlock
  import opened KbEntry
  import opened Loader
  import opened KbVolume

  // ---- frontmatter of keys and values ----

  /** A line "key: value". */
  datatype Pair = Pair(key: Bytes, value: Bytes)

  function LineOf(p: Pair): Bytes {
    p.key + [':', ' '] + p.value
  }

  /** Lines of keys and values, and behind them the two fields. */
  function RowsOf(pairs: seq<Pair>): seq<Row> {
    if |pairs| == 0 then [SeenRow([]), FlagRow([])] else [Text(LineOf(pairs[0]))] + RowsOf(pairs[1..])
  }

  function Keyed(name: Bytes, pairs: seq<Pair>, rest: Bytes): Entry {
    Entry(name, "---", RowsOf(pairs), rest)
  }

  predicate KeyOk(key: Bytes) {
    |key| > 0 && Neat(key) && Visible(key[0]) && key[0] != '-' && ':' !in key && NEWLINE !in key
  }

  predicate PairOk(p: Pair) {
    && KeyOk(p.key) && NEWLINE !in p.value && (|p.value| > 0 ==> p.value[|p.value| - 1] != '\r')
    && Lacks(LineOf(p), SEEN_KEY) && Lacks(LineOf(p), FLAG_KEY)
  }

  predicate PairsOk(pairs: seq<Pair>) {
    forall i :: 0 <= i < |pairs| ==> PairOk(pairs[i])
  }

  /** What the parser has found behind the pairs. */
  function Assigned(sc: Scan, pairs: seq<Pair>): Scan
    decreases |pairs|
  {
    if |pairs| == 0 then sc else Assigned(KeyValue(sc, pairs[0].key, [' '] + pairs[0].value), pairs[1..])
  }

  lemma FenceOpens()
    ensures NEWLINE !in "---" && IsFence(Chomp("---")) && Lacks("---", SEEN_KEY) && Lacks("---", FLAG_KEY)
  {
    FenceLine();
    ShortLacks("---", SEEN_KEY);
    ShortLacks("---", FLAG_KEY);
  }

  lemma PairLine(p: Pair)
    requires PairOk(p)
    ensures NEWLINE !in LineOf(p) && Chomp(LineOf(p)) == LineOf(p) && !IsFence(LineOf(p))
  {
    hide IsFence, Lacks;
    PlainLine(LineOf(p));
  }

  lemma FieldRowsLaid()
    ensures Laid([SeenRow([]), FlagRow([])], false, false)
  {
    var rows := [SeenRow([]), FlagRow([])];
    assert rows[1..] == [FlagRow([])] && rows[1..][1..] == [];
    assert Laid(rows[1..][1..], true, true);
    assert Laid(rows[1..], true, false);
  }

  lemma {:induction false} PairsLaid(pairs: seq<Pair>)
    requires PairsOk(pairs)
    ensures Laid(RowsOf(pairs), false, false)
    decreases |pairs|
  {
    hide Lacks, IsFence, Chomp, LineOf, KeyOk;
    if |pairs| == 0 {
      FieldRowsLaid();
    } else {
      PairLine(pairs[0]);
      PairsLaid(pairs[1..]);
      assert RowsOf(pairs)[1..] == RowsOf(pairs[1..]);
    }
  }

  lemma FieldRowsScan(rest: Bytes, sc: Scan, m: Mem)
    requires m.seen <= SEEN_MAX
    ensures ScanText(Render([SeenRow([]), FlagRow([])], m, rest), sc) == ScanText(rest, With(sc, m))
  {
    hide ScanText, Line, RowText;
    var rows := [SeenRow([]), FlagRow([])];
    assert rows[1..] == [FlagRow([])] && rows[1..][1..] == [];
    assert Render(rows[1..], m, rest) == Line(RowText(FlagRow([]), m), rest);
    ScanSeenRow(m, [], Render(rows[1..], m, rest), sc);
    ScanFlagRow(m, [], rest, sc.(seen := m.seen));
  }

  /** The parser reads the pairs in turn, then the fields. */
  lemma {:induction false} PairsScan(pairs: seq<Pair>, rest: Bytes, sc: Scan, m: Mem)
    requires PairsOk(pairs) && m.seen <= SEEN_MAX
    ensures ScanText(Render(RowsOf(pairs), m, rest), sc) == ScanText(rest, With(Assigned(sc, pairs), m))
    decreases |pairs|
  {
    hide ScanText, Line, KeyValue, With, Lacks;
    if |pairs| == 0 {
      FieldRowsScan(rest, sc, m);
    } else {
      var p, more := pairs[0], Render(RowsOf(pairs[1..]), m, rest);
      assert RowsOf(pairs)[1..] == RowsOf(pairs[1..]);
      ScanScalar(p.key, p.value, more, sc);
      PairsScan(pairs[1..], rest, KeyValue(sc, p.key, [' '] + p.value), m);
    }
  }

  /** Rows of keys and values that end in the first block are laid out and have both
      fields there, whatever follows. */
  lemma KeyedTracked(name: Bytes, pairs: seq<Pair>, rest: Bytes)
    requires PairsOk(pairs) && |Frontmatter(Keyed(name, pairs, rest), FRESH)| <= BLOCK_SIZE
    ensures LaidOut(Keyed(name, pairs, rest)) && Fielded(FirstBlock(EntryText(Keyed(name, pairs, rest), FRESH)))
  {
    hide Laid, Lacks, IsFence, Chomp, Fielded, Frontmatter, EntryText, FirstBlock;
    FenceOpens();
    PairsLaid(pairs);
    FrontInBlock(Keyed(name, pairs, rest));
  }

  /** Reading the head of such an entry is reading on behind its fields. */
  lemma KeyedReads(name: Bytes, pairs: seq<Pair>, rest: Bytes)
    requires PairsOk(pairs) && |Frontmatter(Keyed(name, pairs, rest), FRESH)| <= HEAD_LEN
    ensures ParseText(HeadOf(EntryText(Keyed(name, pairs, rest), FRESH)))
         == Finish(ScanText(HeadRest(Keyed(name, pairs, rest)), With(Assigned(NOTHING, pairs), FRESH)))
  {
    hide ScanText, Render, Line, IsFence, FirstLine, AfterLine, HeadOf, HeadRest, Finish, With;
    var e := Keyed(name, pairs, rest);
    HeadText(e, FRESH);
    PeelLine("---", Render(e.rows, FRESH, HeadRest(e)));
    FenceLine();
    PairsScan(pairs, HeadRest(e), NOTHING, FRESH);
  }

  // ---- printed entries ----

  function PrintedPairs(id: Bytes, title: Bytes, token: Bytes): seq<Pair> {
    [Pair("id", id), Pair("title", InQuotes(title)), Pair("match-cause", token)]
  }

  function PrintedRest(playbook: Bytes, body: Bytes): Bytes {
    Line("playbook:", Line("  - " + InQuotes(playbook), Line("---", body)))
  }

  /** The entry that serialize prints, stored under a name with a body behind it. */
  function WithBody(name: Bytes, id: Bytes, title: Bytes, playbook: Bytes, token: Bytes, body: Bytes): Entry {
    Keyed(name, PrintedPairs(id, title, token), PrintedRest(playbook, body))
  }

  function Printed(name: Bytes, id: Bytes, title: Bytes, playbook: Bytes, token: Bytes): Entry {
    WithBody(name, id, title, playbook, token, [])
  }

  lemma RowsOfPrinted(id: Bytes, title: Bytes, token: Bytes)
    ensures RowsOf(PrintedPairs(id, title, token))
         == [Text("id: " + id), Text("title: " + InQuotes(title)), Text("match-cause: " + token), SeenRow([]),
           FlagRow([])]
  {
    hide InQuotes;
    var pairs := PrintedPairs(id, title, token);
    assert pairs[1..][1..] == [pairs[2]] && pairs[1..][1..][1..] == [];
    assert LineOf(pairs[0]) == "id: " + id && LineOf(pairs[1]) == "title: " + InQuotes(title);
    assert LineOf(pairs[2]) == "match-cause: " + token;
    assert RowsOf(pairs[1..][1..][1..]) == [SeenRow([]), FlagRow([])];
    assert RowsOf(pairs[1..][1..]) == [Text(LineOf(pairs[2]))] + [SeenRow([]), FlagRow([])];
    assert RowsOf(pairs[1..]) == [Text(LineOf(pairs[1]))] + RowsOf(pairs[1..][1..]);
  }

  lemma BodyText(name: Bytes, id: Bytes, title: Bytes, playbook: Bytes, token: Bytes, body: Bytes, m: Mem)
    ensures EntryText(WithBody(name, id, title, playbook, token, body), m)
         == Doc(id, title, playbook, token, Digits(m.seen, SEEN_WIDTH), FlagText(m.escalated), body)
  {
    hide Line, InQuotes, Digits, FlagText, RowsOf;
    var rest := PrintedRest(playbook, body);
    RowsOfPrinted(id, title, token);
    var r4, r3 := [FlagRow([])], [SeenRow([]), FlagRow([])];
    var r2 := [Text("match-cause: " + token), SeenRow([]), FlagRow([])];
    var r1 := [Text("title: " + InQuotes(title)), Text("match-cause: " + token), SeenRow([]), FlagRow([])];
    assert RowsOf(PrintedPairs(id, title, token))[1..] == r1 && r1[1..] == r2 && r2[1..] == r3 && r3[1..] == r4
      && r4[1..] == [];
    assert SEEN_KEY + Digits(m.seen, SEEN_WIDTH) + [] == "seen: " + Digits(m.seen, SEEN_WIDTH);
    assert FLAG_KEY + FlagText(m.escalated) + [] == "escalated: " + FlagText(m.escalated);
    assert Render(r4, m, rest) == Line("escalated: " + FlagText(m.escalated), rest);
    assert Render(r3, m, rest) == Line("seen: " + Digits(m.seen, SEEN_WIDTH), Render(r4, m, rest));
    assert Render(r2, m, rest) == Line("match-cause: " + token, Render(r3, m, rest));
    assert Render(r1, m, rest) == Line("title: " + InQuotes(title), Render(r2, m, rest));
  }

  lemma QuotedLine(s: Bytes)
    requires QuotedValue(s)
    ensures NEWLINE !in InQuotes(s) && InQuotes(s)[|InQuotes(s)| - 1] != '\r'
  {
  }

  lemma PrintedKeys()
    ensures KeyOk("id") && KeyOk("title") && KeyOk("match-cause")
  {
    VisibleNeat("id");
    VisibleNeat("title");
    VisibleNeat("match-cause");
  }

  lemma PrintedPairsOk(id: Bytes, title: Bytes, playbook: Bytes, token: Bytes)
    requires Sane(id, title, playbook, token) && KeyFree(id, title, token)
    ensures PairsOk(PrintedPairs(id, title, token))
  {
    hide Lacks, InQuotes, KeyOk, Valid;
    PrintedKeys();
    Ends(id);
    Ends(token);
    QuotedLine(title);
    LinesLack(id, title, token, SEEN_KEY);
    LinesLack(id, title, token, FLAG_KEY);
    assert LineOf(Pair("id", id)) == "id: " + id && LineOf(Pair("match-cause", token)) == "match-cause: " + token;
    assert LineOf(Pair("title", InQuotes(title))) == "title: " + InQuotes(title);
  }

  /** The playbook and the closing fence assign to neither field. */
  lemma PrintedQuiet(playbook: Bytes, body: Bytes)
    requires QuotedValue(playbook)
    ensures QuietText(PrintedRest(playbook, body))
  {
    hide Line, InQuotes, IsFence, Assigns, Trim;
    var item: Bytes := "  - " + InQuotes(playbook);
    var t2 := Line("---", body);
    var t1 := Line(item, t2);
    FenceLine();
    PeelLine("---", body);
    ItemEnds(playbook);
    PeelLine(item, t2);
    PeelLine("playbook:", t1);
    PlaybookQuiet();
    assert PLAYBOOK + [':'] == "playbook:";
    ItemQuiet(playbook);
    assert QuietText(t2);
    assert QuietText(t1);
  }

  /** A line assigns to the key in front of its first colon. */
  lemma KeyAssigns(key: Bytes, value: Bytes, other: Bytes)
    requires |key| > 0 && Neat(key) && ':' !in key
    ensures Assigns(key + [':'] + value, other) <==> key == other
  {
    FindAt(key, ':', value);
    assert (key + [':'] + value)[..|key|] == key;
    TrimNeat(key);
  }

  const PLAYBOOK: Bytes := "playbook"

  lemma PlaybookQuiet()
    ensures !Assigns(PLAYBOOK + [':'], "seen") && !Assigns(PLAYBOOK + [':'], "escalated")
  {
    hide Assigns;
    VisibleNeat(PLAYBOOK);
    KeyAssigns(PLAYBOOK, [], "seen");
    KeyAssigns(PLAYBOOK, [], "escalated");
    assert PLAYBOOK + [':'] + [] == PLAYBOOK + [':'];
  }

  lemma ItemQuiet(playbook: Bytes)
    requires QuotedValue(playbook)
    ensures var item: Bytes := "  - " + InQuotes(playbook); !Assigns(item, "seen") && !Assigns(item, "escalated")
  {
    var item: Bytes := "  - " + InQuotes(playbook);
    var k := Find(item, ':');
    if k < |item| {
      assert k >= 4 by { assert item[0] == ' ' && item[1] == ' ' && item[2] == '-' && item[3] == ' '; }
      var key := item[..k];
      var t := key[2..];
      assert key == [' '] + ([' '] + t);
      TrimBlank([' '] + t);
      TrimBlank(t);
      assert t[0] == '-';
      VisibleEnds(t);
      TrimEndHead(t);
    }
  }

  /** The head of a printed entry with a body: the same entry with less body. */
  lemma BodyHead(name: Bytes, id: Bytes, title: Bytes, playbook: Bytes, token: Bytes, body: Bytes)
    requires |Doc(id, title, playbook, token, "00000", "0", [])| <= HEAD_LEN
    ensures var e, n := WithBody(name, id, title, playbook, token, body),
            |Doc(id, title, playbook, token, "00000", "0", [])|;
            var short := body[..Min(|body|, HEAD_LEN - n)];
            && |Frontmatter(e, FRESH)| <= n && HeadRest(e) == PrintedRest(playbook, short)
            && EntryText(e, FRESH) == Doc(id, title, playbook, token, "00000", "0", []) + body
            && HeadOf(EntryText(e, FRESH)) == Doc(id, title, playbook, token, "00000", "0", short)
  {
    hide Doc, EntryText, RowsOf, PrintedRest;
    var e, doc := WithBody(name, id, title, playbook, token, body), Doc(id, title, playbook, token, "00000", "0", []);
    var short := body[..Min(|body|, HEAD_LEN - |doc|)];
    ZeroDigits();
    BodyText(name, id, title, playbook, token, body, FRESH);
    BodyText(name, id, title, playbook, token, [], FRESH);
    BodyText(name, id, title, playbook, token, short, FRESH);
    DocRest(id, title, playbook, token, "00000", "0", body);
    DocRest(id, title, playbook, token, "00000", "0", short);
    CutBehind(doc, body, HEAD_LEN);
    EntryJoins(e, FRESH, PrintedRest(playbook, body));
    EntryJoins(e, FRESH, PrintedRest(playbook, []));
    EntryJoins(e, FRESH, PrintedRest(playbook, short));
    HeadText(e, FRESH);
    RestTwice(Frontmatter(e, FRESH), PrintedRest(playbook, short), HeadRest(e)) by {
      EntryJoins(e, FRESH, HeadRest(e)); }
  }

  lemma RestTwice(a: Bytes, b: Bytes, c: Bytes)
    requires a + b == a + c
    ensures b == c
  {
    assert (a + b)[|a|..] == b && (a + c)[|a|..] == c;
  }

  lemma SanePlaybook(id: Bytes, title: Bytes, playbook: Bytes, token: Bytes)
    requires Sane(id, title, playbook, token)
    ensures QuotedValue(playbook)
  {
  }

  /** What serialize prints reads as an entry whatever stands behind it, and its
      head as what was printed. */
  lemma BodyTrackable(name: Bytes, id: Bytes, title: Bytes, playbook: Bytes, token: Bytes, body: Bytes)
    requires Sane(id, title, playbook, token) && KeyFree(id, title, token)
    requires |Doc(id, title, playbook, token, "00000", "0", [])| <= BLOCK_SIZE
    ensures var e := WithBody(name, id, title, playbook, token, body);
            Trackable(e) && ParseText(HeadOf(EntryText(e, FRESH)))
              == Some(Record(id, title, playbook, Some(token), 0, false))
  {
    hide Doc, LaidOut, Fielded, QuietText, Sane, KeyFree, RowsOf, EntryText, ParseText, PairsOk, HeadOf, HeadRest,
      Frontmatter, PrintedRest,
      FirstBlock;
    var n := |Doc(id, title, playbook, token, "00000", "0", [])|;
    var short := body[..Min(|body|, HEAD_LEN - n)];
    BodyHead(name, id, title, playbook, token, body);
    PrintedPairsOk(id, title, playbook, token);
    KeyedTracked(name, PrintedPairs(id, title, token), PrintedRest(playbook, body));
    PrintedQuiet(playbook, short) by { SanePlaybook(id, title, playbook, token); }
    ZeroDigits();
    DocText(id, title, playbook, token, 0, false, short);
  }

  /** The image builder packs a file that parses to a record with a token. */
  predicate Packed(contents: Bytes) {
    Tokened(ParseDoc(contents))
  }

  /** With a valid body the entry is packed; it is loaded exactly when the end of
      its head is the end of a character. */
  lemma BodyLoaded(name: Bytes, id: Bytes, title: Bytes, playbook: Bytes, token: Bytes, body: Bytes)
    requires Sane(id, title, playbook, token) && KeyFree(id, title, token) && Valid(body)
    requires |Doc(id, title, playbook, token, "00000", "0", [])| <= BLOCK_SIZE
    ensures var e := WithBody(name, id, title, playbook, token, body);
            var text := EntryText(e, FRESH);
            && Valid(text) && Packed(text)
            && (Recorded(e) <==> Boundary(text, Min(|text|, HEAD_LEN)))
            && (Boundary(text, Min(|text|, HEAD_LEN)) <==> !NeverLoads(text))
  {
    hide Doc, Sane, KeyFree, EntryText, ParseText, Trackable, Recorded, NeverLoads, Boundary, Valid, WithBody;
    var e := WithBody(name, id, title, playbook, token, body);
    BodyTrackable(name, id, title, playbook, token, body);
    ZeroDigits();
    BodyText(name, id, title, playbook, token, body, FRESH);
    DocParses(id, title, playbook, token, 0, false, body);
    LoadedExact(e, FRESH);
  }

  /** What serialize prints is an entry the system tracks. */
  lemma PrintedRecorded(name: Bytes, id: Bytes, title: Bytes, playbook: Bytes, token: Bytes)
    requires Sane(id, title, playbook, token) && KeyFree(id, title, token)
    requires |Doc(id, title, playbook, token, "00000", "0", [])| <= BLOCK_SIZE
    ensures Recorded(Printed(name, id, title, playbook, token))
    ensures RecordOf(Printed(name, id, title, playbook, token))
         == Some(Record(id, title, playbook, Some(token), 0, false))
  {
    hide Doc, Sane, KeyFree, EntryText, ParseText, Trackable, Valid, WithBody, HeadOf;
    var e := Printed(name, id, title, playbook, token);
    BodyTrackable(name, id, title, playbook, token, []);
    AsciiValid([]);
    BodyLoaded(name, id, title, playbook, token, []);
    BodyHead(name, id, title, playbook, token, []);
    var text := EntryText(e, FRESH);
    assert Boundary(text, Min(|text|, HEAD_LEN));
  }

  // ---- an entry that is packed and never loaded ----

  /** U+2014. */
  const DASH: Bytes := [0xE2 as char, 0x80 as char, 0x94 as char]

  function Filler(n: nat): Bytes {
    seq(n, _ => 'x')
  }

  /** A body whose dash lies over the end of the head of a file that starts with n
      bytes of frontmatter. */
  function StraddlingBody(n: nat, more: Bytes): Bytes
    requires n + 2 <= HEAD_LEN
  {
    Filler(HEAD_LEN - 2 - n) + DASH + more
  }

  lemma StraddlingValid(n: nat, more: Bytes)
    requires n + 2 <= HEAD_LEN && Valid(more)
    ensures Valid(StraddlingBody(n, more))
  {
    hide Valid;
    var f := Filler(HEAD_LEN - 2 - n);
    AsciiValid(f);
    assert Valid(DASH) by { OneChar(DASH); assert DASH[..3] == DASH; }
    ValidJoin(f, DASH);
    ValidJoin(f + DASH, more);
  }

  /** Every printed entry, given a valid body with a dash over the end of its head,
      is packed into the image and never loaded, although the whole file parses. */
  lemma StraddlingLost(name: Bytes, id: Bytes, title: Bytes, playbook: Bytes, token: Bytes, more: Bytes)
    requires Sane(id, title, playbook, token) && KeyFree(id, title, token) && Valid(more)
    requires |Doc(id, title, playbook, token, "00000", "0", [])| <= BLOCK_SIZE
    ensures var body := StraddlingBody(|Doc(id, title, playbook, token, "00000", "0", [])|, more);
            var text := EntryText(WithBody(name, id, title, playbook, token, body), FRESH);
            Valid(text) && Packed(text) && NeverLoads(text)
  {
    hide Doc, Sane, KeyFree, EntryText, Recorded, NeverLoads, Packed, Valid, WithBody, StraddlingBody;
    var doc := Doc(id, title, playbook, token, "00000", "0", []);
    var body := StraddlingBody(|doc|, more);
    StraddlingValid(|doc|, more);
    BodyLoaded(name, id, title, playbook, token, body);
    BodyHead(name, id, title, playbook, token, body);
    InsideDash(doc, more);
  }

  lemma InsideDash(doc: Bytes, more: Bytes)
    requires |doc| + 2 <= HEAD_LEN
    ensures var text := doc + StraddlingBody(|doc|, more); |text| > HEAD_LEN && !Boundary(text, HEAD_LEN)
  {
    var text := doc + StraddlingBody(|doc|, more);
    assert text[HEAD_LEN] == StraddlingBody(|doc|, more)[HEAD_LEN - |doc|] == DASH[2];
  }

  /** One such file. */
  lemma OneStraddles()
    ensures exists text :: Valid(text) && Packed(text) && NeverLoads(text)
  {
    hide Doc, Sane, KeyFree, EntryText, NeverLoads, Packed, Valid, WithBody, StraddlingBody;
    SaneExample();
    AsciiValid([]);
    StraddlingLost("K", "K", "t", "p", "c", []);
  }

  lemma SaneExample()
    ensures Sane("K", "t", "p", "c") && KeyFree("K", "t", "c")
    ensures |Doc("K", "t", "p", "c", "00000", "0", [])| <= BLOCK_SIZE
  {
    VisibleNeat("K"); VisibleNeat("t"); VisibleNeat("p"); VisibleNeat("c");
    AsciiValid("K"); AsciiValid("t"); AsciiValid("p"); AsciiValid("c");
    ShortLacks("K", SEEN_KEY); ShortLacks("t", SEEN_KEY); ShortLacks("c", SEEN_KEY);
    ShortLacks("K", FLAG_KEY); ShortLacks("t", FLAG_KEY); ShortLacks("c", FLAG_KEY);
  }

  // ---- appending ----

  lemma {:induction false} RankPrefix(slots: seq<Slot>, last: Slot, n: nat)
    requires n <= |slots|
    ensures Rank(slots + [last], n) == Rank(slots, n)
  {
    if n > 0 {
      RankPrefix(slots, last, n - 1);
    }
  }

  /** Appending an entry to a volume of entries makes it one longer. */
  lemma AppendsEntry(d: Bytes, slots: seq<Slot>, mems: seq<Mem>, e: Entry)
    requires VolumeOf(d, slots, mems) && Recorded(e) && SaneName(e.name) && Fresh(FilesOf(slots, mems), e.name)
    requires Room(d, FilesOf(slots, mems), File(e.name, EntryText(e, FRESH)))
    ensures VolumeOf(AppendUpTo(d, e.name, EntryText(e, FRESH), 3), slots + [Tracked(e)], mems + [FRESH])
  {
    hide IsVolume, Recorded, NeverLoads, EntryText, AppendUpTo;
    var f, more := File(e.name, EntryText(e, FRESH)), slots + [Tracked(e)];
    AppendSafe(d, FilesOf(slots, mems), f, 3);
    RankPrefix(slots, Tracked(e), |slots|);
    forall j | 0 <= j < |slots| ensures FileAt(more, mems + [FRESH], j) == FileAt(slots, mems, j) {
      RankPrefix(slots, Tracked(e), j);
      if slots[j].Tracked? {
        RankBelow(slots, j, |slots|);
      }
    }
    assert FilesOf(more, mems + [FRESH]) == FilesOf(slots, mems) + [f];
  }

  // ---- entries with a longer frontmatter ----

  predicate Names(pairs: seq<Pair>, key: Bytes) {
    exists i :: 0 <= i < |pairs| && pairs[i].key == key
  }

  /** The parser has found exactly the keys that are there. */
  lemma {:induction false} AssignedFound(sc: Scan, pairs: seq<Pair>)
    ensures var r := Assigned(sc, pairs);
            && r.playbook == sc.playbook
            && (r.id.Some? <==> sc.id.Some? || Names(pairs, "id"))
            && (r.title.Some? <==> sc.title.Some? || Names(pairs, "title"))
            && (r.matchCause.Some? <==> sc.matchCause.Some? || Names(pairs, "match-cause"))
            && (r.inPlaybook <==> sc.inPlaybook || Names(pairs, "playbook"))
    decreases |pairs|
  {
    hide Clean, ParseU32, KeyValue, Names;
    if |pairs| == 0 {
      NamesNone("id"); NamesNone("title"); NamesNone("match-cause"); NamesNone("playbook");
    } else {
      KeyFound(sc, pairs[0].key, [' '] + pairs[0].value);
      AssignedFound(KeyValue(sc, pairs[0].key, [' '] + pairs[0].value), pairs[1..]);
      NamesFirst(pairs, "id"); NamesFirst(pairs, "title"); NamesFirst(pairs, "match-cause"); NamesFirst(pairs,
                 "playbook");
    }
  }

  /** The last line with a key decides. */
  lemma {:induction false} LastDecides(sc: Scan, pairs: seq<Pair>, p: Pair)
    ensures Assigned(sc, pairs + [p]) == KeyValue(Assigned(sc, pairs), p.key, [' '] + p.value)
    decreases |pairs|
  {
    hide KeyValue;
    if |pairs| == 0 {
      assert (pairs + [p])[1..] == [] && (pairs + [p])[0] == p;
    } else {
      assert (pairs + [p])[1..] == pairs[1..] + [p];
      LastDecides(KeyValue(sc, pairs[0].key, [' '] + pairs[0].value), pairs[1..], p);
    }
  }

  lemma KeyFound(sc: Scan, key: Bytes, value: Bytes)
    ensures var r := KeyValue(sc, key, value);
            && r.playbook == sc.playbook
            && (r.id.Some? <==> sc.id.Some? || key == "id") && (r.title.Some? <==> sc.title.Some? || key == "title")
            && (r.matchCause.Some? <==> sc.matchCause.Some? || key == "match-cause")
            && (r.inPlaybook <==> sc.inPlaybook || key == "playbook")
  {
    hide Clean, ParseU32;
  }

  lemma NamesNone(key: Bytes)
    ensures !Names([], key)
  {
  }

  lemma NamesFirst(pairs: seq<Pair>, key: Bytes)
    requires |pairs| > 0
    ensures Names(pairs, key) <==> pairs[0].key == key || Names(pairs[1..], key)
  {
    if Names(pairs, key) && pairs[0].key != key {
      var i :| 0 <= i < |pairs| && pairs[i].key == key;
      assert pairs[1..][i - 1].key == key;
    }
  }

  /** Reading on never loses what was found. */
  lemma {:induction false} ScanKeeps(text: Bytes, sc: Scan)
    requires sc.id.Some? && sc.title.Some? && sc.matchCause.Some?
    ensures var r := ScanText(text, sc); r.id.Some? && r.title.Some? && r.matchCause.Some?
    decreases |text|
  {
    hide IsFence, FirstLine, AfterLine, StepLine;
    if |text| > 0 && !IsFence(FirstLine(text)) {
      StepKeeps(sc, FirstLine(text));
      ScanKeeps(AfterLine(text), StepLine(sc, FirstLine(text)));
    }
  }

  lemma StepKeeps(sc: Scan, line: Bytes)
    ensures var r := StepLine(sc, line);
            && (sc.id.Some? ==> r.id.Some?) && (sc.title.Some? ==> r.title.Some?)
            && (sc.matchCause.Some? ==> r.matchCause.Some?)
  {
    hide Clean, ParseU32, Trim, TrimStart, StripPrefix, Find;
  }

  /** A text behind the fields in which a playbook is found. */
  ghost predicate FindsPlaybook(text: Bytes) {
    forall sc: Scan :: !sc.inPlaybook && sc.playbook.None? ==> ScanText(text, sc).playbook.Some?
  }

  /** An entry whose pairs name an id, a title and a token reads as one as soon as
      the rest of its head names a playbook and assigns to neither field. */
  lemma KeyedTrackable(name: Bytes, pairs: seq<Pair>, rest: Bytes)
    requires PairsOk(pairs) && |Frontmatter(Keyed(name, pairs, rest), FRESH)| <= BLOCK_SIZE
    requires Names(pairs, "id") && Names(pairs, "title") && Names(pairs, "match-cause") && !Names(pairs, "playbook")
    requires QuietText(HeadRest(Keyed(name, pairs, rest))) && FindsPlaybook(HeadRest(Keyed(name, pairs, rest)))
    ensures Trackable(Keyed(name, pairs, rest))
  {
    hide LaidOut, Fielded, QuietText, ScanText, FindsPlaybook, HeadOf, HeadRest, EntryText, FirstBlock, Frontmatter,
      PairsOk, Names,
      ParseText, RowsOf;
    var hr, sc := HeadRest(Keyed(name, pairs, rest)), With(Assigned(NOTHING, pairs), FRESH);
    KeyedTracked(name, pairs, rest);
    KeyedReads(name, pairs, rest);
    AssignedFound(NOTHING, pairs);
    ScanKeeps(hr, sc);
    Finds(hr, sc);
  }

  lemma Finds(text: Bytes, sc: Scan)
    requires FindsPlaybook(text) && !sc.inPlaybook && sc.playbook.None?
    ensures ScanText(text, sc).playbook.Some?
  {
  }

  // ---- the entry that ships ----

  predicate KeyFreeText(s: Bytes) {
    NEWLINE !in s && Lacks(s, SEEN_KEY) && Lacks(s, FLAG_KEY)
  }

  /** No field's key starts in these bytes. */
  predicate StartsNone(s: Bytes) {
    NEWLINE !in s && NoStart(s, SEEN_KEY) && NoStart(s, FLAG_KEY)
  }

  lemma FreeMore(a: Bytes, b: Bytes)
    requires StartsNone(a) && KeyFreeText(b)
    ensures KeyFreeText(a + b)
  {
    hide Lacks, NoStart;
    LacksPrefixed(a, b, SEEN_KEY);
    LacksPrefixed(a, b, FLAG_KEY);
  }

  lemma ShortFree(s: Bytes)
    requires |s| < 6 && NEWLINE !in s
    ensures KeyFreeText(s)
  {
    ShortLacks(s, SEEN_KEY);
    ShortLacks(s, FLAG_KEY);
  }

  lemma PairIsOk(key: Bytes, value: Bytes)
    requires KeyOk(key) && StartsNone(key + [':', ' ']) && KeyFreeText(value) && |value| > 0
    requires value[|value| - 1] != '\r'
    ensures PairOk(Pair(key, value))
  {
    hide Lacks, NoStart, KeyOk;
    FreeMore(key + [':', ' '], value);
  }

  lemma ShortPair(key: Bytes, a: Bytes, b: Bytes)
    requires |key| > 0 && Visible(key[0]) && Visible(key[|key| - 1]) && key[0] != '-' && ':' !in key && NEWLINE !in key
    requires StartsNone(key + [':', ' ']) && StartsNone(a) && 0 < |b| < 6 && NEWLINE !in b && b[|b| - 1] != '\r'
    ensures PairOk(Pair(key, a + b))
  {
    hide StartsNone;
    VisibleNeat(key);
    ShortFree(b);
    FreeMore(a, b);
    PairIsOk(key, a + b);
  }

  function Kb0005Title(): Bytes { "\"User-"
    + ("space " + ("component " + ("terminated " + ("by a fatal " + "fault\"")))) }

  function Kb0005Pairs(): seq<Pair> {
    [Pair("id", "KB-" + "0005"), Pair("title", Kb0005Title()), Pair("status", "diagno" + "sed"),
      Pair("severity", "medi" + "um"),
     Pair("component", "user-spac" + "e"), Pair("match-cause", "page-f" + "ault")]
  }

  lemma TitleEnd()
    ensures KeyFreeText("terminated " + ("by a fatal " + "fault\""))
  {
    hide KeyFreeText;
    var a: Bytes := "fault\"";
    ShortFree([]);
    FreeMore(a, []);
    assert a + [] == a;
    FreeMore("by a fatal ", a);
    FreeMore("terminated ", "by a fatal " + a);
  }

  lemma TitleFree()
    ensures KeyFreeText(Kb0005Title())
  {
    hide KeyFreeText;
    TitleEnd();
    var a: Bytes := "terminated " + ("by a fatal " + "fault\"");
    FreeMore("component ", a);
    FreeMore("space ", "component " + a);
    FreeMore("\"User-", "space " + ("component " + a));
  }

  lemma TitleOk()
    ensures PairOk(Pair("title", Kb0005Title()))
  {
    hide KeyFreeText, PairOk;
    VisibleNeat("title");
    TitleFree();
    PairIsOk("title", Kb0005Title());
  }

  lemma IdOk()
    ensures PairOk(Pair("id", "KB-" + "0005"))
  {
    hide PairOk;
    ShortPair("id", "KB-", "0005");
  }

  lemma StatusOk()
    ensures PairOk(Pair("status", "diagno" + "sed"))
  {
    hide PairOk;
    ShortPair("status", "diagno", "sed");
  }

  lemma SeverityOk()
    ensures PairOk(Pair("severity", "medi" + "um"))
  {
    hide PairOk;
    ShortPair("severity", "medi", "um");
  }

  lemma ComponentOk()
    ensures PairOk(Pair("component", "user-spac" + "e"))
  {
    hide PairOk;
    ShortPair("component", "user-spac", "e");
  }

  lemma CauseOk()
    ensures PairOk(Pair("match-cause", "page-f" + "ault"))
  {
    hide PairOk;
    ShortPair("match-cause", "page-f", "ault");
  }

  lemma Kb0005Ok()
    ensures PairsOk(Kb0005Pairs())
  {
    hide PairOk, Kb0005Title;
    IdOk(); TitleOk(); StatusOk(); SeverityOk(); ComponentOk(); CauseOk();
  }

  function Size(pairs: seq<Pair>): nat {
    if |pairs| == 0 then 25 else |pairs[0].key| + |pairs[0].value| + 3 + Size(pairs[1..])
  }

  lemma {:induction false} SizeIs(pairs: seq<Pair>)
    ensures |Render(RowsOf(pairs), FRESH, [])| == Size(pairs)
    decreases |pairs|
  {
    if |pairs| == 0 {
      var rows := [SeenRow([]), FlagRow([])];
      assert rows[1..] == [FlagRow([])] && rows[1..][1..] == [];
      FlagIs(false);
      assert |Render(rows[1..][1..], FRESH, [])| == 0;
      assert |Render(rows[1..], FRESH, [])| == 13;
    } else {
      SizeIs(pairs[1..]);
      assert RowsOf(pairs)[1..] == RowsOf(pairs[1..]);
    }
  }

  /** KB-0005: its frontmatter up to the fields, and any text behind. */
  function Kb0005(rest: Bytes): Entry {
    Keyed("KB-0005", Kb0005Pairs(), rest)
  }

  lemma {:induction false} SizeBound(pairs: seq<Pair>)
    requires forall i :: 0 <= i < |pairs| ==> |pairs[i].key| + |pairs[i].value| <= 60
    ensures Size(pairs) <= 25 + 63 * |pairs|
    decreases |pairs|
  {
    if |pairs| > 0 {
      SizeBound(pairs[1..]);
    }
  }

  lemma Kb0005Front(rest: Bytes)
    ensures |Frontmatter(Kb0005(rest), FRESH)| <= BLOCK_SIZE
  {
    hide Render, RowsOf;
    SizeIs(Kb0005Pairs());
    SizeBound(Kb0005Pairs());
  }

  lemma Kb0005Names()
    ensures Names(Kb0005Pairs(), "id") && Names(Kb0005Pairs(), "title") && Names(Kb0005Pairs(), "match-cause")
    ensures !Names(Kb0005Pairs(), "playbook")
  {
    hide Kb0005Title;
    var p := Kb0005Pairs();
    assert p[0].key == "id" && p[1].key == "title" && p[5].key == "match-cause";
  }

  /** The shipped entry has both fields in its first block, whatever its length. It
      reads as an entry as soon as the rest of its head names a playbook and assigns
      to neither field; as valid text it is then loaded exactly when its head ends
      with a character. */
  lemma Kb0005Tracked(rest: Bytes)
    ensures LaidOut(Kb0005(rest)) && Fielded(FirstBlock(EntryText(Kb0005(rest), FRESH)))
    ensures var e := Kb0005(rest);
            var text := EntryText(e, FRESH);
            QuietText(HeadRest(e)) && FindsPlaybook(HeadRest(e)) ==>
              Trackable(e) && (Valid(text) ==> (Recorded(e) <==> Boundary(text, Min(|text|, HEAD_LEN))))
  {
    hide LaidOut, Fielded, QuietText, FindsPlaybook, HeadRest, EntryText, FirstBlock, Frontmatter, PairsOk, Names,
      Trackable, Recorded,
      Valid, Boundary, Kb0005Pairs;
    Kb0005Ok();
    Kb0005Front(rest);
    Kb0005Names();
    KeyedTracked("KB-0005", Kb0005Pairs(), rest);
    if QuietText(HeadRest(Kb0005(rest))) && FindsPlaybook(HeadRest(Kb0005(rest))) {
      KeyedTrackable("KB-0005", Kb0005Pairs(), rest);
      if Valid(EntryText(Kb0005(rest), FRESH)) {
        LoadedExact(Kb0005(rest), FRESH);
      }
    }
  }
}
