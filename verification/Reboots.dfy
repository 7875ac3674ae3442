/** Memory across boots, on the bytes of the disk: each boot loads the volume the
    last one left, counts its crashes, and persists them in place. */
module Reboots {
  import opened Options
  import opened Bytes
  import opened Volume
  import opened Kb
  import opened KbBlock
  import opened KbEntry
  import opened Memory
  import opened KbWriter
  import opened Loader
  import opened KbVolume
  import Heal

  /** A boot that has just loaded its table from the disk. */
  function BootRam(d: Bytes): Ram {
    Ram(LoadDisk([], d), None)
  }

  /** The id of tracked entry k, as the table holds it. */
  function TableId(slots: seq<Slot>, k: nat): Bytes
    requires k < TrackedIn(slots)
  {
    match RecordOf(EntryOf(slots, k)) case Some(rec) => Heal.Cut(rec.id, Heal.ID_CAP) case None => []
  }

  /** No two tracked entries share an id. */
  predicate DistinctEntries(slots: seq<Slot>) {
    forall i, j :: 0 <= i < j < TrackedIn(slots) ==> TableId(slots, i) != TableId(slots, j)
  }

  lemma LoadedIssue(issue: Heal.Issue, slots: seq<Slot>, k: nat, m: Mem, start: nat)
    requires k < TrackedIn(slots) && LoadsTo(issue, EntryOf(slots, k), m, start)
    ensures issue.id == TableId(slots, k)
    ensures !issue.dirty && issue.startBlock == start && m == Mem(issue.seen, issue.escalated)
  {
    hide RecordOf;
  }

  /** What a boot loads from a volume of entries agrees with its fields. */
  lemma BootLoaded(d: Bytes, slots: seq<Slot>, mems: seq<Mem>)
    requires VolumeOf(d, slots, mems) && DistinctEntries(slots)
    ensures Loaded(BootRam(d), mems)
    ensures forall k :: 0 <= k < |mems| ==> BootRam(d).table[k].startBlock == BlockOf(slots, mems, k)
  {
    hide LoadDisk, LoadsTo, RecordOf, BlockOf, SlotOk, Loadable, TableId, EntryOf, TrackedIn, IsVolume, FilesOf;
    BootTable(d, slots, mems);
    var t := LoadDisk([], d);
    forall k | 0 <= k < |t|
      ensures t[k].id == TableId(slots, k)
      ensures !t[k].dirty && t[k].startBlock == BlockOf(slots, mems, k) && mems[k] == Mem(t[k].seen, t[k].escalated)
    {
      LoadedIssue(t[k], slots, k, mems[k], BlockOf(slots, mems, k));
    }
  }

  /** What the writer has taken names the entry's own block. */
  lemma {:induction false} TakenBlock(r: Ram, es: seq<Event>, n: nat)
    requires r.taken.None? && n <= |es|
    ensures var t := After(r, es, n).taken;
            t.Some? ==> t.value.index < |r.table| && t.value.startBlock == r.table[t.value.index].startBlock
  {
    if n > 0 {
      TakenBlock(r, es, n - 1);
      EntriesKept(r, es, n - 1);
      TakesFrom(After(r, es, n - 1), es[n - 1]);
    }
  }

  lemma TakesFrom(r: Ram, e: Event)
    ensures var t := Do(r, e).taken;
            t.Some? && t != r.taken ==>
              t.value.index < |r.table| && t.value.startBlock == r.table[t.value.index].startBlock
  {
  }

  /** At every moment of a boot, crashes and writes interleaved in any way, the
      disk is a volume of the same files, with the fields the writes have set. */
  lemma {:induction false} DiskTracks(d: Bytes, slots: seq<Slot>, mems: seq<Mem>, es: seq<Event>, n: nat)
    requires VolumeOf(d, slots, mems) && DistinctEntries(slots) && n <= |es|
    ensures VolumeOf(DiskAfter(BootRam(d), d, es, n), slots, MemsAfter(BootRam(d), mems, es, n))
  {
    hide VolumeOf, Persisted, Do, FilesOf, StartOf, LoadDisk, DistinctEntries;
    if n > 0 {
      DiskTracks(d, slots, mems, es, n - 1);
      var r := BootRam(d);
      var t := After(r, es, n - 1).taken;
      if es[n - 1].Write? && t.Some? {
        BootLoaded(d, slots, mems);
        TakenBlock(r, es, n - 1);
        SizesOf(d, slots, mems);
        var mems' := MemsAfter(r, mems, es, n - 1);
        StartsKept(slots, mems, mems', SlotOf(slots, t.value.index));
        PersistKeepsVolume(DiskAfter(r, d, es, n - 1), slots, mems', t.value.index, t.value.seen, t.value.escalated);
      }
    }
  }

  lemma SizesOf(d: Bytes, slots: seq<Slot>, mems: seq<Mem>)
    requires VolumeOf(d, slots, mems)
    ensures |mems| == TrackedIn(slots)
  {
  }

  // ---- many boots ----

  /** The disk after the first b boots. */
  function DiskAt(d: Bytes, boots: seq<seq<Event>>, b: nat): Bytes
    requires b <= |boots|
  {
    if b == 0 then d
    else var before := DiskAt(d, boots, b - 1); DiskAfter(BootRam(before), before, boots[b - 1], |boots[b - 1]|)
  }

  function EndOf(d: Bytes, boots: seq<seq<Event>>, b: nat): Ram
    requires b < |boots|
  {
    After(BootRam(DiskAt(d, boots, b)), boots[b], |boots[b]|)
  }

  /** Every boot ends with its writer drained. */
  predicate AllDrained(d: Bytes, boots: seq<seq<Event>>) {
    forall b :: 0 <= b < |boots| ==> Drained(EndOf(d, boots, b))
  }

  /** Crashes of the first b boots diagnosed to entry k. */
  function Total(d: Bytes, boots: seq<seq<Event>>, k: nat, b: nat): nat
    requires b <= |boots|
  {
    if b == 0 then 0
    else Total(d, boots, k, b - 1) + Count(LoadDisk([], DiskAt(d, boots, b - 1)), boots[b - 1], k, |boots[b - 1]|)
  }

  /** Reports of its escalation in the first b boots. */
  function TotalReports(d: Bytes, boots: seq<seq<Event>>, k: nat, b: nat): nat
    requires b <= |boots|
  {
    if b == 0 then 0
    else TotalReports(d, boots, k, b - 1) + Reports(BootRam(DiskAt(d, boots, b - 1)), boots[b - 1], k, |boots[b - 1]|)
  }

  /** The fields after b boots: each grown by the entry's total. */
  function GrownAll(mems: seq<Mem>, d: Bytes, boots: seq<seq<Event>>, b: nat): (r: seq<Mem>)
    requires b <= |boots|
    ensures |r| == |mems|
  {
    seq(|mems|, k requires 0 <= k < |mems| => Grown(mems[k], Total(d, boots, k, b)))
  }

  lemma GrownTwice(m: Mem, a: nat, c: nat)
    requires m.seen <= SEEN_MAX
    ensures Grown(Grown(m, a), c) == Grown(m, a + c)
    ensures (if Escalated(m, a) && !m.escalated then 1 else 0)
      + (if Escalated(Grown(m, a), c) && !Grown(m, a).escalated then 1 else 0)
         == if Escalated(m, a + c) && !m.escalated then 1 else 0
  {
  }

  lemma GrownZero(m: Mem)
    requires m.seen <= SEEN_MAX
    ensures Grown(m, 0) == m
  {
  }

  lemma BootGrows(r: Ram, mems: seq<Mem>, es: seq<Event>)
    requires Loaded(r, mems) && Drained(After(r, es, |es|))
    ensures forall k :: 0 <= k < |mems| ==>
      MemsAfter(r, mems, es, |es|)[k] == Grown(mems[k], Count(r.table, es, k, |es|))
  {
    hide After, MemsAfter, Count, Drained, Grown;
    forall k | 0 <= k < |mems| ensures MemsAfter(r, mems, es, |es|)[k] == Grown(mems[k], Count(r.table, es, k, |es|)) {
      DrainedBoot(r, mems, es, k);
    }
  }

  lemma SeenFits(d: Bytes, slots: seq<Slot>, mems: seq<Mem>, k: nat)
    requires VolumeOf(d, slots, mems) && k < |mems|
    ensures mems[k].seen <= SEEN_MAX
  {
  }

  /** Over any boots with a drained writer the disk is a volume of the same entries
      whose fields say the total number of diagnoses, capped, and whether one has
      brought the count to the threshold. */
  lemma {:induction false} AcrossBoots(d: Bytes, slots: seq<Slot>, mems: seq<Mem>, boots: seq<seq<Event>>, b: nat)
    requires VolumeOf(d, slots, mems) && DistinctEntries(slots) && AllDrained(d, boots) && b <= |boots|
    ensures VolumeOf(DiskAt(d, boots, b), slots, GrownAll(mems, d, boots, b))
  {
    hide VolumeOf, DistinctEntries, Grown, DiskAfter, After, MemsAfter, LoadDisk, Drained, Count;
    if b == 0 {
      forall k | 0 <= k < |mems| ensures Grown(mems[k], 0) == mems[k] {
        SeenFits(d, slots, mems, k);
        GrownZero(mems[k]);
      }
      assert GrownAll(mems, d, boots, 0) == mems;
    } else {
      AcrossBoots(d, slots, mems, boots, b - 1);
      var before, mems' := DiskAt(d, boots, b - 1), GrownAll(mems, d, boots, b - 1);
      var r, es := BootRam(before), boots[b - 1];
      BootLoaded(before, slots, mems');
      DiskTracks(before, slots, mems', es, |es|);
      assert Drained(EndOf(d, boots, b - 1));
      BootGrows(r, mems', es);
      var after, want := MemsAfter(r, mems', es, |es|), GrownAll(mems, d, boots, b);
      forall k | 0 <= k < |mems| ensures after[k] == want[k] {
        SeenFits(d, slots, mems, k);
        GrownTwice(mems[k], Total(d, boots, k, b - 1), Count(r.table, es, k, |es|));
      }
      assert after == want;
    }
  }

  /** and the escalation of an entry was reported exactly once if it was reached,
      and never otherwise. */
  lemma {:induction false} ReportedOnce(d: Bytes, slots: seq<Slot>, mems: seq<Mem>, boots: seq<seq<Event>>, k: nat,
                                        b: nat)
    requires VolumeOf(d, slots, mems) && DistinctEntries(slots) && AllDrained(d, boots) && b <= |boots| && k < |mems|
    ensures TotalReports(d, boots, k, b)
         == if Escalated(mems[k], Total(d, boots, k, b)) && !mems[k].escalated then 1 else 0
  {
    hide VolumeOf, DistinctEntries, Grown, DiskAfter, After, MemsAfter, LoadDisk, AllDrained, Count, Reports, Escalated,
      Loaded;
    SeenFits(d, slots, mems, k);
    if b == 0 {
      GrownZero(mems[k]);
      NoneYet(mems[k]);
    } else {
      ReportedOnce(d, slots, mems, boots, k, b - 1);
      AcrossBoots(d, slots, mems, boots, b - 1);
      var before, mems' := DiskAt(d, boots, b - 1), GrownAll(mems, d, boots, b - 1);
      var r, es := BootRam(before), boots[b - 1];
      BootLoaded(before, slots, mems');
      LoadedSizes(r, mems');
      OneBoot(r, mems', es, k, |es|);
      GrownTwice(mems[k], Total(d, boots, k, b - 1), Count(r.table, es, k, |es|));
      GrownFlag(mems[k], Total(d, boots, k, b - 1));
    }
  }

  lemma NoneYet(m: Mem)
    ensures !(Escalated(m, 0) && !m.escalated)
  {
  }

  lemma GrownFlag(m: Mem, c: nat)
    ensures Grown(m, c).escalated == Escalated(m, c)
  {
  }

  lemma LoadedSizes(r: Ram, mems: seq<Mem>)
    requires Loaded(r, mems)
    ensures |r.table| == |mems|
  {
  }

  /** So after any drained boots a read of an entry's file by name gives a text that
      parses to the entry's record with the capped total and the flag. */
  lemma ReadsTotals(d: Bytes, slots: seq<Slot>, mems: seq<Mem>, boots: seq<seq<Event>>, k: nat, b: nat)
    requires VolumeOf(d, slots, mems) && DistinctEntries(slots) && AllDrained(d, boots) && b <= |boots| && k < |mems|
    ensures k < TrackedIn(slots) && RecordOf(EntryOf(slots, k)).Some?
    ensures var e, c := EntryOf(slots, k), Total(d, boots, k, b);
            var text := ReadFile(DiskAt(d, boots, b), e.name);
            && text.Some?
            && ParseDoc(HeadOf(text.value))
               == Some(RecordOf(e).value.(seen := Cap(mems[k].seen + c), escalated := Escalated(mems[k], c)))
  {
    hide IsVolume, Recorded, EntryText, RecordOf, ParseDoc, ReadFile, DistinctEntries, AllDrained, Total, DiskAt,
      HeadOf, LaidOut,
      FilesOf, Rank, SlotAt, NeverLoads;
    AcrossBoots(d, slots, mems, boots, b);
    var mems', d' := GrownAll(mems, d, boots, b), DiskAt(d, boots, b);
    var e := EntryOf(slots, k);
    FilesChange(slots, mems', k, mems'[k]);
    var files := FilesOf(slots, mems');
    assert files[SlotOf(slots, k)].name == e.name;
    ReadFileIs(d', files, e.name);
    assert SlotOk(slots[SlotOf(slots, k)]);
    RecordParses(e, mems'[k]);
  }

  /** and a file that is never loaded reads as it did at the start. */
  lemma UnreadKept(d: Bytes, slots: seq<Slot>, mems: seq<Mem>, boots: seq<seq<Event>>, j: nat, b: nat)
    requires VolumeOf(d, slots, mems) && DistinctEntries(slots) && AllDrained(d, boots) && b <= |boots|
    requires j < |slots| && slots[j].Unread?
    ensures ReadFile(DiskAt(d, boots, b), slots[j].file.name) == Some(slots[j].file.contents)
  {
    hide IsVolume, EntryText, ReadFile, DistinctEntries, AllDrained, Total, DiskAt, SlotOk, Rank;
    AcrossBoots(d, slots, mems, boots, b);
    var files := FilesOf(slots, GrownAll(mems, d, boots, b));
    assert files[j] == slots[j].file;
    ReadFileIs(DiskAt(d, boots, b), files, files[j].name);
  }
}
