/** Volumes of entries: what a boot loads from one, and what persisting an entry
    does to it. */
module KbVolume {
  import opened Options
  import opened Bytes
  import opened Utf8
  import opened Volume
  import opened Append
  import opened BlockCache
  import opened Kb
  import opened KbFields
  import opened KbBlock
  import opened KbEntry
  import opened KbWriter
  import opened Loader
  import Heal

  const HEAD_LEN: nat := KB_HEAD_BLOCKS * BLOCK_SIZE

  /** The part of a file in its first block. */
  function FirstBlock(c: Bytes): Bytes {
    c[..Min(|c|, BLOCK_SIZE)]
  }

  /** The entry up to its last row. */
  function Frontmatter(e: Entry, m: Mem): Bytes {
    EntryText(e.(rest := []), m)
  }

  /** What the loader reads behind the rows. */
  function HeadRest(e: Entry): Bytes {
    if |Frontmatter(e, FRESH)| <= HEAD_LEN then e.rest[..Min(|e.rest|, HEAD_LEN - |Frontmatter(e, FRESH)|)] else []
  }

  function RecordOf(e: Entry): Option<Record> {
    ParseDoc(HeadOf(EntryText(e, FRESH)))
  }

  predicate Tokened(r: Option<Record>) {
    r.Some? && r.value.matchCause.Some?
  }

  /** An entry of any length and layout that reads as one: both fields in the first
      block, both field lines in the head and the last to assign there, and between
      the fences a record with a token. */
  predicate Trackable(e: Entry) {
    && LaidOut(e) && Fielded(FirstBlock(EntryText(e, FRESH)))
    && |Frontmatter(e, FRESH)| <= HEAD_LEN && QuietText(HeadRest(e))
    && Tokened(ParseText(HeadOf(EntryText(e, FRESH))))
  }

  /** An entry the system tracks: the head is valid text too. */
  predicate Recorded(e: Entry) {
    Trackable(e) && Valid(HeadOf(EntryText(e, FRESH)))
  }

  // ---- the text of an entry ----

  lemma {:induction false} RenderJoins(rows: seq<Row>, m: Mem, rest: Bytes)
    ensures Render(rows, m, []) + rest == Render(rows, m, rest)
    decreases |rows|
  {
    hide Line, RowText;
    if |rows| == 0 {
      assert [] + rest == rest;
    } else {
      RenderJoins(rows[1..], m, rest);
      LineRest(RowText(rows[0], m), Render(rows[1..], m, []), rest);
    }
  }

  lemma {:induction false} RenderLength(rows: seq<Row>, m: Mem, m': Mem, rest: Bytes)
    ensures |Render(rows, m, rest)| == |Render(rows, m', rest)|
    decreases |rows|
  {
    hide Digits, FlagText;
    if |rows| > 0 {
      RenderLength(rows[1..], m, m', rest);
      FlagIs(m.escalated);
      FlagIs(m'.escalated);
    }
  }

  lemma EntryJoins(e: Entry, m: Mem, rest: Bytes)
    ensures EntryText(e.(rest := rest), m) == Frontmatter(e, m) + rest
  {
    hide Render;
    RenderJoins(e.rows, m, rest);
    LineRest(e.open, Render(e.rows, m, []), rest);
  }

  lemma EntryLength(e: Entry, m: Mem, m': Mem)
    ensures |EntryText(e, m)| == |EntryText(e, m')| > 0 && |Frontmatter(e, m)| == |Frontmatter(e, m')|
  {
    hide Render;
    RenderLength(e.rows, m, m', e.rest);
    RenderLength(e.rows, m, m', []);
  }

  /** The head of an entry's file is the entry with less behind it. */
  lemma HeadText(e: Entry, m: Mem)
    requires |Frontmatter(e, FRESH)| <= HEAD_LEN
    ensures HeadOf(EntryText(e, m)) == EntryText(e.(rest := HeadRest(e)), m)
  {
    hide EntryText;
    EntryLength(e, m, FRESH);
    EntryJoins(e, m, e.rest);
    EntryJoins(e, m, HeadRest(e));
    assert e.(rest := e.rest) == e;
    CutBehind(Frontmatter(e, m), e.rest, HEAD_LEN);
  }

  lemma CutBehind(a: Bytes, b: Bytes, n: nat)
    requires |a| <= n
    ensures (a + b)[..Min(|a + b|, n)] == a + b[..Min(|b|, n - |a|)]
  {
  }

  /** The loader's parse of an entry whose fields say m: its record with m. */
  lemma RecordParses(e: Entry, m: Mem)
    requires Recorded(e) && m.seen <= SEEN_MAX
    ensures Tokened(RecordOf(e))
    ensures ParseDoc(HeadOf(EntryText(e, m))) == Some(RecordOf(e).value.(seen := m.seen, escalated := m.escalated))
  {
    hide ParseText, Laid, Fielded, QuietText, Lacks, IsFence, HeadOf, Valid;
    HeadText(e, m);
    HeadText(e, FRESH);
    LaidParses(e.open, e.rows, HeadRest(e), m, FRESH);
  }

  lemma TextSame(e: Entry, m: Mem, z: Mem)
    ensures SameButDigits(EntryText(e, m), EntryText(e, z))
  {
    hide SameButDigits;
    RowsSame(e.rows, e.rest, m, z);
    SameBehind(e.open, Render(e.rows, m, e.rest), Render(e.rows, z, e.rest));
  }

  /** No record with a token is parsed from the file's head. */
  predicate NeverLoads(contents: Bytes) {
    !Tokened(ParseDoc(HeadOf(contents)))
  }

  /** Otherwise an entry that reads as one is never loaded, whatever its fields
      say. */
  lemma LostEntry(e: Entry, m: Mem)
    requires Trackable(e) && !Recorded(e)
    ensures NeverLoads(EntryText(e, m))
  {
    hide ParseText, Trackable, EntryText, Valid, SameButDigits;
    var a, b := EntryText(e, m), EntryText(e, FRESH);
    TextSame(e, m, FRESH);
    EntryLength(e, m, FRESH);
    PrefixSame(a, b, Min(|a|, KB_HEAD_BLOCKS * BLOCK_SIZE));
    ValidSame(HeadOf(a), HeadOf(b));
  }

  /** An entry that reads as one, in a valid file, is loaded exactly when the file
      ends in the head or byte 1024 is the end of a character. */
  lemma LoadedExact(e: Entry, m: Mem)
    requires Trackable(e) && m.seen <= SEEN_MAX && Valid(EntryText(e, m))
    ensures var text := EntryText(e, m);
            && (Recorded(e) <==> Boundary(text, Min(|text|, HEAD_LEN)))
            && (Boundary(text, Min(|text|, HEAD_LEN)) <==> !NeverLoads(text))
  {
    hide ParseDoc, Trackable, EntryText, Valid, SameButDigits, Boundary, RecordOf;
    var a, b := EntryText(e, m), EntryText(e, FRESH);
    var n := Min(|a|, HEAD_LEN);
    TextSame(e, m, FRESH);
    EntryLength(e, m, FRESH);
    ValidSame(a, b);
    CutValid(b, n);
    BoundarySame(a, b, n);
    if Recorded(e) {
      RecordParses(e, m);
    } else {
      LostEntry(e, m);
    }
  }

  lemma PrefixSame(a: Bytes, b: Bytes, n: nat)
    requires SameButDigits(a, b) && n <= |a|
    ensures SameButDigits(a[..n], b[..n])
  {
  }

  /** Both fields are in the first block whatever they say. */
  lemma FirstBlockFielded(e: Entry, m: Mem)
    requires Recorded(e) && m.seen <= SEEN_MAX
    ensures Fielded(FirstBlock(EntryText(e, m)))
  {
    hide Fielded, SameButDigits, LaidOut, QuietText, RecordOf, WithFields, EntryText;
    EntryUpdates(e, FRESH, m.seen, m.escalated);
    WithFieldsIs(EntryText(e, FRESH), m.seen, m.escalated);
    var a, b := EntryText(e, FRESH), EntryText(e, m);
    PrefixSame(a, b, Min(|a|, BLOCK_SIZE));
    FieldedSame(FirstBlock(a), FirstBlock(b));
  }

  /** Rows that end in the first block have their fields there. */
  lemma FrontInBlock(e: Entry)
    requires LaidOut(e) && |Frontmatter(e, FRESH)| <= BLOCK_SIZE
    ensures Fielded(FirstBlock(EntryText(e, FRESH)))
  {
    hide Fielded, LaidOut, EntryText, WithFields, SetBoth;
    var f := Frontmatter(e, FRESH);
    assert LaidOut(e.(rest := [])) by { RestFree(e); }
    EntryUpdates(e.(rest := []), FRESH, 0, false);
    EntryJoins(e, FRESH, e.rest);
    assert e.(rest := e.rest) == e;
    CutBehind(f, e.rest, BLOCK_SIZE);
    FieldedAgree(f, FirstBlock(EntryText(e, FRESH)));
  }

  lemma RestFree(e: Entry)
    requires LaidOut(e)
    ensures LaidOut(e.(rest := []))
  {
  }

  // ---- persisting in a volume ----

  /** Writing bytes that are already there changes nothing. */
  lemma PutSameTail(d: Bytes, off: nat, a: Bytes, rest: Bytes)
    requires off + |a| + |rest| <= |d| && Slice(d, off + |a|, |rest|) == rest
    ensures Put(d, off, a + rest) == Put(d, off, a)
  {
    var x, y := Put(d, off, a + rest), Put(d, off, a);
    forall j | 0 <= j < |d| ensures x[j] == y[j] {
      if off + |a| <= j < off + |a| + |rest| {
        assert rest[j - off - |a|] == d[j];
      }
    }
  }

  /** The block of a file starts with the file's first block. */
  lemma BlockOfFile(d: Bytes, files: seq<File>, i: nat)
    requires IsVolume(d, files) && i < |files| && |files[i].contents| > 0
    ensures var start, fb := StartOf(files, i), FirstBlock(files[i].contents);
            && (start + 1) * BLOCK_SIZE <= |d| && |fb| <= BLOCK_SIZE
            && Block(d, start) == Some(fb + Slice(d, start * BLOCK_SIZE + |fb|, BLOCK_SIZE - |fb|))
  {
    hide HeadOk, EntryOk, StartOf;
    var start, c := StartOf(files, i), files[i].contents;
    var fb, off := FirstBlock(c), start * BLOCK_SIZE;
    ExtentReads(d, files, i);
    assert Ceil(|c|) >= 1;
    assert DataOk(d, files[i], start);
    SliceSlice(d, off, |c|, 0, |fb|);
    assert Slice(d, off, BLOCK_SIZE) == Slice(d, off, |fb|) + Slice(d, off + |fb|, BLOCK_SIZE - |fb|);
  }

  /** Persisting a file whose first block has both fields sets them in the file
      and leaves the volume otherwise as it was. */
  lemma PersistFile(d: Bytes, files: seq<File>, i: nat, seen: nat, escalated: bool)
    requires IsVolume(d, files) && i < |files| && Fielded(FirstBlock(files[i].contents))
    ensures Fielded(files[i].contents)
    ensures IsVolume(Persisted(d, StartOf(files, i), seen, escalated),
                     files[i := files[i].(contents := WithFields(files[i].contents, Cap(seen), escalated))])
  {
    hide IsVolume, StartOf, Put, Slice, Fielded, WithFields, SetBoth;
    var start, c := StartOf(files, i), files[i].contents;
    var fb, off, n := FirstBlock(c), start * BLOCK_SIZE, Cap(seen);
    NonEmpty(fb);
    BlockOfFile(d, files, i);
    var rest, more := Slice(d, off + |fb|, BLOCK_SIZE - |fb|), c[|fb|..];
    assert c == fb + more;
    WithFieldsPrefix(fb, rest, n, escalated);
    WithFieldsPrefix(fb, more, n, escalated);
    SetBothIs(fb + rest, seen, escalated);
    var w := WithFields(fb, n, escalated);
    assert OneBlock(w + rest) == w + rest;
    PutSameTail(d, off, w, rest);
    InPlace(d, files, i, 0, w);
    PutFront(c, w, more);
  }

  lemma NonEmpty(fb: Bytes)
    requires Fielded(fb)
    ensures |fb| > 0
  {
  }

  lemma PutFront(c: Bytes, w: Bytes, more: Bytes)
    requires |c| == |w| + |more| && c[|w|..] == more
    ensures Put(c, 0, w) == w + more
  {
  }

  // ---- volumes of entries ----

  /** A file of a volume: an entry the system tracks, or a file it never loads. */
  datatype Slot = Tracked(entry: Entry) | Unread(file: File)

  /** How many of the first n are tracked. */
  function Rank(slots: seq<Slot>, n: nat): (r: nat)
    requires n <= |slots|
    ensures r <= n
  {
    if n == 0 then 0 else Rank(slots, n - 1) + if slots[n - 1].Tracked? then 1 else 0
  }

  /** Where tracked entry k is among the first n files. */
  function SlotAt(slots: seq<Slot>, n: nat, k: nat): (j: nat)
    requires n <= |slots| && k < Rank(slots, n)
    ensures j < n && slots[j].Tracked? && Rank(slots, j) == k
  {
    if k == Rank(slots, n - 1) then n - 1 else SlotAt(slots, n - 1, k)
  }

  function TrackedIn(slots: seq<Slot>): nat {
    Rank(slots, |slots|)
  }

  function SlotOf(slots: seq<Slot>, k: nat): (j: nat)
    requires k < TrackedIn(slots)
    ensures j < |slots| && slots[j].Tracked? && Rank(slots, j) == k
  {
    SlotAt(slots, |slots|, k)
  }

  function EntryOf(slots: seq<Slot>, k: nat): Entry
    requires k < TrackedIn(slots)
  {
    slots[SlotOf(slots, k)].entry
  }

  /** A tracked entry's number is below that of every later one. */
  lemma {:induction false} RankBelow(slots: seq<Slot>, j: nat, n: nat)
    requires j < n <= |slots| && slots[j].Tracked?
    ensures Rank(slots, j) < Rank(slots, n)
  {
    if j < n - 1 {
      RankBelow(slots, j, n - 1);
    }
  }

  function FileAt(slots: seq<Slot>, mems: seq<Mem>, j: nat): File
    requires |mems| == TrackedIn(slots) && j < |slots|
  {
    match slots[j]
    case Unread(f) => f
    case Tracked(e) => RankBelow(slots, j, |slots|); File(e.name, EntryText(e, mems[Rank(slots, j)]))
  }

  function FilesOf(slots: seq<Slot>, mems: seq<Mem>): (files: seq<File>)
    requires |mems| == TrackedIn(slots)
    ensures |files| == |slots|
  {
    seq(|slots|, j requires 0 <= j < |slots| => FileAt(slots, mems, j))
  }

  predicate SlotOk(slot: Slot) {
    match slot case Tracked(e) => Recorded(e) case Unread(f) => NeverLoads(f.contents)
  }

  /** The disk is a volume of exactly these files; the fields of its tracked
      entries say mems. */
  ghost predicate VolumeOf(d: Bytes, slots: seq<Slot>, mems: seq<Mem>) {
    && |mems| == TrackedIn(slots) && IsVolume(d, FilesOf(slots, mems))
    && (forall j :: 0 <= j < |slots| ==> SlotOk(slots[j])) && (forall k :: 0 <= k < |mems| ==> mems[k].seen <= SEEN_MAX)
  }

  /** The first block of tracked entry k. */
  function BlockOf(slots: seq<Slot>, mems: seq<Mem>, k: nat): (b: nat)
    requires |mems| == TrackedIn(slots) && k < |mems|
    ensures b >= DATA_START_BLOCK
  {
    StartOf(FilesOf(slots, mems), SlotOf(slots, k))
  }

  /** Where a file starts does not depend on what the fields say. */
  lemma {:induction false} StartsKept(slots: seq<Slot>, mems: seq<Mem>, mems': seq<Mem>, i: nat)
    requires TrackedIn(slots) == |mems| == |mems'| && i <= |slots|
    ensures StartOf(FilesOf(slots, mems), i) == StartOf(FilesOf(slots, mems'), i)
  {
    hide EntryText, Rank;
    if i > 0 {
      StartsKept(slots, mems, mems', i - 1);
      LengthKept(slots, mems, mems', i - 1);
    }
  }

  lemma LengthKept(slots: seq<Slot>, mems: seq<Mem>, mems': seq<Mem>, j: nat)
    requires TrackedIn(slots) == |mems| == |mems'| && j < |slots|
    ensures |FileAt(slots, mems, j).contents| == |FileAt(slots, mems', j).contents|
  {
    hide EntryText, Rank;
    if slots[j].Tracked? {
      RankBelow(slots, j, |slots|);
      EntryLength(slots[j].entry, mems[Rank(slots, j)], mems'[Rank(slots, j)]);
    }
  }

  /** Another count in entry k changes its file only. */
  lemma FilesChange(slots: seq<Slot>, mems: seq<Mem>, k: nat, m: Mem)
    requires |mems| == TrackedIn(slots) && k < |mems|
    ensures var j, e := SlotOf(slots, k), EntryOf(slots, k);
            && FilesOf(slots, mems)[j] == File(e.name, EntryText(e, mems[k]))
            && FilesOf(slots, mems[k := m]) == FilesOf(slots, mems)[j := File(e.name, EntryText(e, m))]
  {
    hide EntryText, Rank, SlotAt;
    var j := SlotOf(slots, k);
    forall i | 0 <= i < |slots| && i != j && slots[i].Tracked? ensures Rank(slots, i) < |mems| && Rank(slots, i) != k {
      RankBelow(slots, i, |slots|);
      if i < j {
        RankBelow(slots, i, j);
      } else {
        RankBelow(slots, j, i);
      }
    }
  }

  /** Persisting entry k of a volume of entries gives the volume whose entry k
      says the capped count and the flag. */
  lemma PersistKeepsVolume(d: Bytes, slots: seq<Slot>, mems: seq<Mem>, k: nat, seen: nat, escalated: bool)
    requires VolumeOf(d, slots, mems) && k < |mems|
    ensures VolumeOf(Persisted(d, BlockOf(slots, mems, k), seen, escalated), slots,
      mems[k := Mem(Cap(seen), escalated)])
  {
    hide IsVolume, StartOf, Fielded, WithFields, EntryText, Recorded, Persisted, FirstBlock, FilesOf, Rank, SlotAt,
      NeverLoads;
    var files, j, e, m' := FilesOf(slots, mems), SlotOf(slots, k), EntryOf(slots, k), Mem(Cap(seen), escalated);
    FilesChange(slots, mems, k, m');
    assert SlotOk(slots[j]);
    FirstBlockFielded(e, mems[k]);
    PersistFile(d, files, j, seen, escalated);
    assert LaidOut(e) by { RecordedLaid(e); }
    EntryUpdates(e, mems[k], seen, escalated);
  }

  lemma RecordedLaid(e: Entry)
    requires Recorded(e)
    ensures LaidOut(e) && Tokened(RecordOf(e))
  {
    hide LaidOut, Fielded, ParseText, Valid, QuietText;
  }

  /** The issue an entry loads to. */
  function IssueOf(e: Entry, m: Mem, start: nat): Heal.Issue
    requires Tokened(RecordOf(e))
  {
    var rec := RecordOf(e).value;
    Heal.NewIssue(rec.id, rec.title, rec.playbook, rec.matchCause.value, m.seen, m.escalated, start)
  }

  predicate LoadsTo(issue: Heal.Issue, e: Entry, m: Mem, start: nat) {
    Tokened(RecordOf(e)) && issue == IssueOf(e, m, start)
  }

  lemma LoadsOne(table: seq<Heal.Issue>, e: Entry, m: Mem, start: nat)
    requires Recorded(e) && m.seen <= SEEN_MAX && |table| < Heal.MAX_ISSUES
    ensures var t := LoadHead(table, HeadOf(EntryText(e, m)), start);
            |t| == |table| + 1 && t[..|table|] == table && LoadsTo(t[|table|], e, m, start)
  {
    hide ParseDoc, EntryText, HeadOf, Recorded;
    RecordParses(e, m);
  }

  lemma LoadsNothing(table: seq<Heal.Issue>, contents: Bytes, start: nat)
    requires NeverLoads(contents)
    ensures LoadHead(table, HeadOf(contents), start) == table
  {
    hide ParseDoc, HeadOf;
  }

  /** Tracked entry j of the first n files is where it should be in the table. */
  ghost predicate InTable(t: seq<Heal.Issue>, slots: seq<Slot>, mems: seq<Mem>, j: nat)
    requires |mems| == TrackedIn(slots) && j < |slots|
  {
    slots[j].Tracked? ==>
      && Rank(slots, j) < |t| && Rank(slots, j) < |mems|
      && LoadsTo(t[Rank(slots, j)], slots[j].entry, mems[Rank(slots, j)], StartOf(FilesOf(slots, mems), j))
  }

  /** A boot loads one issue for each tracked entry, with the count and the flag its
      fields say, and its first block; and nothing else. */
  lemma {:induction false} LoadsEntries(d: Bytes, slots: seq<Slot>, mems: seq<Mem>, n: nat)
    requires VolumeOf(d, slots, mems) && n <= |slots|
    ensures |LoadedFrom([], FilesOf(slots, mems), n)| == Rank(slots, n)
    ensures forall j :: 0 <= j < n ==> InTable(LoadedFrom([], FilesOf(slots, mems), n), slots, mems, j)
  {
    hide IsVolume, EntryText, Recorded, NeverLoads, StartOf, LoadsTo, HeadOf, LoadHead;
    AtMostEight(d, slots, mems);
    if n > 0 {
      LoadsEntries(d, slots, mems, n - 1);
      LoadsNext(LoadedFrom([], FilesOf(slots, mems), n - 1), slots, mems, n - 1);
    }
  }

  lemma LoadsNext(t: seq<Heal.Issue>, slots: seq<Slot>, mems: seq<Mem>, n: nat)
    requires |mems| == TrackedIn(slots) && n < |slots| && SlotOk(slots[n]) && |t| == Rank(slots, n) < Heal.MAX_ISSUES
    requires forall k :: 0 <= k < |mems| ==> mems[k].seen <= SEEN_MAX
    requires forall j :: 0 <= j < n ==> InTable(t, slots, mems, j)
    ensures var t' := LoadHead(t, HeadOf(FilesOf(slots, mems)[n].contents), StartOf(FilesOf(slots, mems), n));
            && |t'| == Rank(slots, n + 1)
            && forall j :: 0 <= j < n + 1 ==> InTable(t', slots, mems, j)
  {
    hide EntryText, Recorded, NeverLoads, StartOf, LoadsTo, HeadOf, LoadHead;
    var start := StartOf(FilesOf(slots, mems), n);
    match slots[n]
    case Unread(f) => LoadsNothing(t, f.contents, start);
    case Tracked(e) =>
      RankBelow(slots, n, |slots|);
      var m := mems[Rank(slots, n)];
      LoadsOne(t, e, m, start);
      var t' := LoadHead(t, HeadOf(EntryText(e, m)), start);
      forall j | 0 <= j < n ensures InTable(t', slots, mems, j) {
        if slots[j].Tracked? {
          assert InTable(t, slots, mems, j);
          assert t'[..|t|][Rank(slots, j)] == t[Rank(slots, j)];
        }
      }
  }

  lemma AtMostEight(d: Bytes, slots: seq<Slot>, mems: seq<Mem>)
    requires VolumeOf(d, slots, mems)
    ensures |slots| <= Heal.MAX_ISSUES
  {
  }

  /** The whole table a boot loads. */
  lemma BootTable(d: Bytes, slots: seq<Slot>, mems: seq<Mem>)
    requires VolumeOf(d, slots, mems)
    ensures Loadable(d) && |LoadDisk([], d)| == |mems|
    ensures forall k :: 0 <= k < |mems| ==>
      LoadsTo(LoadDisk([], d)[k], EntryOf(slots, k), mems[k], BlockOf(slots, mems, k))
  {
    hide LoadedFrom, LoadDisk, Loadable, IsVolume, SlotOk, LoadsTo, FilesOf, StartOf, Rank, SlotAt;
    VolumeLoadable(d, FilesOf(slots, mems), []);
    LoadsEntries(d, slots, mems, |slots|);
    forall k | 0 <= k < |mems|
      ensures LoadsTo(LoadDisk([], d)[k], EntryOf(slots, k), mems[k], BlockOf(slots, mems, k))
    {
      assert InTable(LoadDisk([], d), slots, mems, SlotOf(slots, k));
    }
  }
}
