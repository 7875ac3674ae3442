/** The writer that persists counters in place: block by block, and the whole
    loop, as a run of the boot. */
module KbWriter {
  import opened Options
  import opened Bytes
  import opened Volume
  import opened Append
  import opened BlockCache
  import opened KbFields
  import opened KbBlock
  import opened Memory
  import Heal
  import Kb

  /** The disk after one entry was persisted: the fields of its block are set, if
      the block is there and has both. */
  function Persisted(d: Bytes, startBlock: nat, seen: nat, escalated: bool): (r: Bytes)
    ensures |r| == |d|
  {
    match Block(d, startBlock)
    case None => d
    case Some(b) =>
      match SetBoth(b, seen, escalated)
      case None => d
      case Some(b') => WriteBlock(d, startBlock, b')
  }

  /** Exactly the digits of the two fields change, to the capped count and the
      flag; a block without both fields is left alone. */
  lemma PersistedIs(d: Bytes, startBlock: nat, seen: nat, escalated: bool, n: nat)
    ensures Block(Persisted(d, startBlock, seen, escalated), n) ==
      if n == startBlock && Block(d, n).Some? && Fielded(Block(d, n).value)
      then Some(WithFields(Block(d, n).value, Cap(seen), escalated)) else Block(d, n)
  {
    hide Block, WriteBlock, SetBoth, Fielded, WithFields;
    if Block(d, startBlock).Some? {
      var b := Block(d, startBlock).value;
      SetBothIs(b, seen, escalated);
      if Fielded(b) {
        BlockWritten(d, startBlock, WithFields(b, Cap(seen), escalated), n);
      }
    }
  }

  lemma BlockWritten(d: Bytes, n: nat, b: Bytes, m: nat)
    requires |b| == BLOCK_SIZE && Block(d, n).Some?
    ensures Block(WriteBlock(d, n, b), m) == if m == n then Some(b) else Block(d, m)
  {
    hide Put, Slice;
    assert OneBlock(b) == b;
    PutSame(d, n * BLOCK_SIZE, b);
    if m != n && (m + 1) * BLOCK_SIZE <= |d| {
      PutOther(d, n * BLOCK_SIZE, b, m * BLOCK_SIZE, BLOCK_SIZE);
    }
  }

  lemma BlockInside(d: Bytes, n: nat)
    ensures Block(d, n).Some? <==> (n + 1) * BLOCK_SIZE <= |d|
  {
  }

  // ---- the disk along a boot ----

  /** The disk after the first n events of a boot. */
  function DiskAfter(r: Ram, d: Bytes, es: seq<Event>, n: nat): (d': Bytes)
    requires n <= |es|
    ensures |d'| == |d|
  {
    if n == 0 then d
    else
      var before, t := DiskAfter(r, d, es, n - 1), After(r, es, n - 1).taken;
      if es[n - 1].Write? && t.Some? then Persisted(before, t.value.startBlock, t.value.seen, t.value.escalated)
        else before
  }

  /** The disk when every dirty entry from i on that has a block was persisted in
      turn. */
  function PersistFrom(table: seq<Heal.Issue>, d: Bytes, i: nat): (d': Bytes)
    ensures |d'| == |d|
    decreases |table| - i
  {
    match Heal.FirstTaken(table, i)
    case None => d
    case Some(k) => PersistFrom(table, Persisted(d, table[k].startBlock, table[k].seen, table[k].escalated), k + 1)
  }

  /** The events of the loop from entry i on. */
  function Rounds(table: seq<Heal.Issue>, i: nat): (es: seq<Event>)
    decreases |table| - i
  {
    match Heal.FirstTaken(table, i)
    case None => [Take]
    case Some(k) => [Take, Write] + Rounds(table, k + 1)
  }

  /** A swept table offers what is left. */
  lemma {:induction false} SweptTaken(table: seq<Heal.Issue>, n: nat, i: nat)
    requires n <= |table| && i <= |table|
    ensures Heal.FirstTaken(Heal.Swept(table, n), i) == Heal.FirstTaken(table, if i < n then n else i)
    decreases |table| - i
  {
    if i < |table| {
      SweptTaken(table, n, i + 1);
    }
  }

  lemma SweptTwice(table: seq<Heal.Issue>, n: nat, m: nat)
    requires n <= m <= |table|
    ensures Heal.Swept(Heal.Swept(table, n), m) == Heal.Swept(table, m)
  {
  }

  /** Runs compose. */
  lemma {:induction false} AfterMore(r: Ram, d: Bytes, es: seq<Event>, more: seq<Event>, n: nat)
    requires n <= |more|
    ensures After(r, es + more, |es| + n) == After(After(r, es, |es|), more, n)
    ensures DiskAfter(r, d, es + more, |es| + n) == DiskAfter(After(r, es, |es|), DiskAfter(r, d, es, |es|), more, n)
  {
    hide Do, Persisted;
    if n == 0 {
      SamePrefix(r, d, es, more, |es|);
    } else {
      AfterMore(r, d, es, more, n - 1);
      assert (es + more)[|es| + n - 1] == more[n - 1];
    }
  }

  lemma {:induction false} SamePrefix(r: Ram, d: Bytes, es: seq<Event>, more: seq<Event>, n: nat)
    requires n <= |es|
    ensures After(r, es + more, n) == After(r, es, n) && DiskAfter(r, d, es + more, n) == DiskAfter(r, d, es, n)
  {
    hide Do, Persisted;
    if n > 0 {
      SamePrefix(r, d, es, more, n - 1);
      assert (es + more)[n - 1] == es[n - 1];
    }
  }

  /** One round: the first dirty entry is taken and written. */
  lemma OneRound(table: seq<Heal.Issue>, d: Bytes, i: nat, k: nat)
    requires i <= |table| && Heal.FirstTaken(table, i) == Some(k)
    ensures var r := Ram(Heal.Swept(table, i), None);
            && After(r, [Take, Write], 2) == Ram(Heal.Swept(table, k + 1), None)
            && DiskAfter(r, d, [Take, Write], 2) == Persisted(d, table[k].startBlock, table[k].seen, table[k].escalated)
  {
    hide Persisted, Heal.FirstTaken;
    var r, es := Ram(Heal.Swept(table, i), None), [Take, Write];
    SweptTaken(table, i, 0);
    assert Heal.FirstTaken(r.table, 0) == Some(k) by { if i == 0 { SweptTaken(table, 0, 0); } }
    SweptTwice(table, i, k + 1);
    var t := Taken(k, table[k].startBlock, table[k].seen, table[k].escalated);
    assert After(r, es, 1) == Do(After(r, es, 0), Take) == Ram(Heal.Swept(table, k + 1), Some(t));
    assert After(r, es, 2) == Do(After(r, es, 1), Write);
    assert DiskAfter(r, d, es, 1) == d;
  }

  /** The loop is a run of the boot that ends drained. */
  lemma {:induction false} LoopIsRun(table: seq<Heal.Issue>, d: Bytes, i: nat)
    requires i <= |table|
    ensures var r, es := Ram(Heal.Swept(table, i), None), Rounds(table, i);
            && After(r, es, |es|) == Ram(Heal.Swept(table, |table|), None) && Drained(After(r, es, |es|))
            && DiskAfter(r, d, es, |es|) == PersistFrom(table, d, i)
    decreases |table| - i
  {
    hide Persisted, Do, Heal.FirstTaken;
    var r, es := Ram(Heal.Swept(table, i), None), Rounds(table, i);
    match Heal.FirstTaken(table, i)
    case None =>
      LastRound(table, i);
      assert After(r, es, 1) == Do(After(r, es, 0), Take);
      assert DiskAfter(r, d, es, 1) == d;
    case Some(k) =>
      OneRound(table, d, i, k);
      var d' := Persisted(d, table[k].startBlock, table[k].seen, table[k].escalated);
      LoopIsRun(table, d', k + 1);
      AfterMore(r, d, [Take, Write], Rounds(table, k + 1), |Rounds(table, k + 1)|);
  }

  lemma LastRound(table: seq<Heal.Issue>, i: nat)
    requires i <= |table| && Heal.FirstTaken(table, i) == None
    ensures Do(Ram(Heal.Swept(table, i), None), Take) == Ram(Heal.Swept(table, |table|), None)
  {
    SweptTaken(table, i, 0);
    SweptTwice(table, i, |table|);
  }

  // ---- the writer itself ----

  class Writer {
    const heal: Heal.KnowledgeTable
    const fs: FileSystem

    constructor (heal: Heal.KnowledgeTable, fs: FileSystem)
      ensures this.heal == heal && this.fs == fs
    {
      this.heal, this.fs := heal, fs;
    }

    /** Write both fields of one block: read it, overwrite them, write it back.
        Without a device error the entry is persisted; with one, perhaps. */
    method PersistOne(startBlock: nat, seen: nat, escalated: bool)
      requires fs.Valid() && startBlock < BLK_WRITE_FLAG
      modifies fs
      ensures fs.Valid() && old(fs.faults) <= fs.faults
      ensures fs.disk == old(fs.disk) || fs.disk == Persisted(old(fs.disk), startBlock, seen, escalated)
      ensures fs.faults == old(fs.faults) ==> fs.disk == Persisted(old(fs.disk), startBlock, seen, escalated)
    {
      hide SetField, WriteBlock, Block;
      var b := fs.ReadBlock(startBlock);
      BlockInside(fs.disk, startBlock);
      if b.None? {
        return;
      }
      var block := new Byte[BLOCK_SIZE](i requires 0 <= i < BLOCK_SIZE => b.value[i]);
      assert block[..] == b.value;
      var ok1 := SetUintField(block, SEEN_KEY, seen, Kb.SEEN_WIDTH);
      var ok2 := SetUintField(block, FLAG_KEY, if escalated then 1 else 0, 1);
      if ok1 && ok2 {
        var _ := fs.WriteBlockTo(startBlock, block[..]);
      }
    }

    /** The persist loop: it ends with no dirty entry and, without device errors,
        with the disk the run of takes and writes leaves. */
    method PersistDirty()
      requires fs.Valid() && forall i :: 0 <= i < |heal.table| ==> heal.table[i].startBlock < BLK_WRITE_FLAG
      modifies heal, fs
      ensures fs.Valid() && old(fs.faults) <= fs.faults
      ensures heal.table == Heal.Swept(old(heal.table), |old(heal.table)|)
      ensures fs.faults == old(fs.faults) ==> fs.disk == PersistFrom(old(heal.table), old(fs.disk), 0)
    {
      hide Persisted, Heal.FirstTaken;
      ghost var table0 := heal.table;
      ghost var low := 0;
      while true
        invariant fs.Valid() && old(fs.faults) <= fs.faults && 0 <= low <= |table0|
        invariant heal.table == Heal.Swept(table0, low)
        invariant fs.faults == old(fs.faults) ==>
          PersistFrom(table0, fs.disk, low) == PersistFrom(table0, old(fs.disk), 0)
        decreases |table0| - low
      {
        SweptTaken(table0, low, 0);
        assert low == 0 ==> Heal.Swept(table0, low) == table0;
        var k := heal.DirtyEntry();
        SweptTwice(table0, low, if k.Some? then k.value + 1 else |table0|);
        if k.None? {
          return;
        }
        low := k.value + 1;
        var issue := heal.table[k.value];
        PersistOne(issue.startBlock, issue.seen, issue.escalated);
      }
    }
  }
}
