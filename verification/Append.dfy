/** Appending a file: data, then directory, then superblock. However many of the
    three writes reach the disk, the volume is the old one or the new one. */
module Append {
  import opened Options
  import opened Bytes
  import opened Volume

  datatype Plan = Plan(startBlock: nat, newSuperblock: Superblock, dirBlock: Bytes)

  /** Plan an append of byteLen bytes: the extent goes to the end of the volume
      and one entry to the directory, which must not be full. */
  function AppendPlan(sb: Superblock, dir: Bytes, name: Bytes, byteLen: nat): (r: Option<Plan>)
    requires Words(sb) && byteLen < U32
    ensures r.Some? <==> sb.dirEntries < DIRENTS_PER_BLOCK
    ensures r.Some? ==> |r.value.dirBlock| == BLOCK_SIZE && Words(r.value.newSuperblock)
  {
    if sb.dirEntries >= DIRENTS_PER_BLOCK then None
    else
      var copied := if |dir| >= BLOCK_SIZE then dir[..BLOCK_SIZE] else dir + Zeros(BLOCK_SIZE - |dir|);
      var entry := EntryBytes(DirEntry(Padded(name), sb.totalBlocks, byteLen));
      Some(Plan(sb.totalBlocks,
                sb.(dirEntries := sb.dirEntries + 1, totalBlocks := (sb.totalBlocks + BlockCount(byteLen)) % U32),
                Put(copied, sb.dirEntries * DIRENT_SIZE, entry)))
  }

  /** One block's worth: cut or padded with zeros. */
  function OneBlock(bytes: Bytes): (r: Bytes)
    ensures |r| == BLOCK_SIZE
  {
    if |bytes| >= BLOCK_SIZE then bytes[..BLOCK_SIZE] else bytes + Zeros(BLOCK_SIZE - |bytes|)
  }

  /** Write block n, if the device has it. */
  function WriteBlock(d: Bytes, n: nat, bytes: Bytes): (r: Bytes)
    ensures |r| == |d|
  {
    if (n + 1) * BLOCK_SIZE <= |d| then Put(d, n * BLOCK_SIZE, OneBlock(bytes)) else d
  }

  /** What an append would do to the disk d: None when it is refused before its
      first write. */
  function PlanOn(d: Bytes, name: Bytes, contents: Bytes): (r: Option<Plan>)
    ensures r.Some? ==> |r.value.dirBlock| == BLOCK_SIZE && Words(r.value.newSuperblock)
  {
    if |contents| > BLOCK_SIZE || Block(d, 0).None? then None
    else
      match DecodeSuperblock(Block(d, 0).value)
      case None => None
      case Some(sb) =>
        if Block(d, sb.dirBlock).None? then None
        else AppendPlan(sb, Block(d, sb.dirBlock).value, name, |contents|)
  }

  /** The disk after the first k of an append's three writes. A write outside the
      device fails, and the append stops there. */
  function AppendUpTo(d: Bytes, name: Bytes, contents: Bytes, k: nat): (r: Bytes)
    ensures |r| == |d|
  {
    match PlanOn(d, name, contents)
    case None => d
    case Some(plan) =>
      if k == 0 || (plan.startBlock + 1) * BLOCK_SIZE > |d| then d
      else
        var d1 := WriteBlock(d, plan.startBlock, contents);
        var sb := plan.newSuperblock;
        if k == 1 || (sb.dirBlock + 1) * BLOCK_SIZE > |d| then d1
        else
          var d2 := WriteBlock(d1, sb.dirBlock, plan.dirBlock);
          if k == 2 then d2
          else WriteBlock(d2, 0, SuperblockBytes(sb))
  }

  // ---- the three writes on a volume ----

  /** Writing past the end of the last extent disturbs no file. */
  lemma PastTheEnd(d: Bytes, files: seq<File>, b: Bytes)
    requires IsVolume(d, files) && TotalBlocks(files) * BLOCK_SIZE + |b| <= |d|
    ensures IsVolume(Put(d, TotalBlocks(files) * BLOCK_SIZE, b), files)
  {
    hide Put, Slice, DecodeEntry, DecodeSuperblock, Padded;
    var off := TotalBlocks(files) * BLOCK_SIZE;
    PutOther(d, off, b, 0, BLOCK_SIZE);
    forall i | 0 <= i < |files|
      ensures EntryOk(Put(d, off, b), i, files[i], StartOf(files, i))
      ensures DataOk(Put(d, off, b), files[i], StartOf(files, i))
    {
      assert EntryOk(d, i, files[i], StartOf(files, i));
      PutOther(d, off, b, EntryOff(i), DIRENT_SIZE);
      DataEnds(files, i, |files|);
      PutOther(d, off, b, StartOf(files, i) * BLOCK_SIZE, |files[i].contents|);
    }
  }

  /** The bytes of a file end before every later extent. */
  lemma DataEnds(files: seq<File>, i: nat, j: nat)
    requires i < j <= |files|
    ensures StartOf(files, i) * BLOCK_SIZE + |files[i].contents| <= StartOf(files, j) * BLOCK_SIZE
  {
    hide StartOf;
    ExtentsOrdered(files, i, j);
  }

  /** Writing the next directory slot disturbs no file. */
  lemma NextSlot(d: Bytes, files: seq<File>, b: Bytes)
    requires IsVolume(d, files) && |files| < DIRENTS_PER_BLOCK && |b| <= DIRENT_SIZE
    ensures EntryOff(|files|) + |b| <= |d| && IsVolume(Put(d, EntryOff(|files|), b), files)
  {
    hide Put, Slice, DecodeEntry, DecodeSuperblock, Padded;
    var off := EntryOff(|files|);
    assert TotalBlocks(files) >= 2;
    PutOther(d, off, b, 0, BLOCK_SIZE);
    forall i | 0 <= i < |files|
      ensures EntryOk(Put(d, off, b), i, files[i], StartOf(files, i))
      ensures DataOk(Put(d, off, b), files[i], StartOf(files, i))
    {
      assert EntryOk(d, i, files[i], StartOf(files, i));
      PutOther(d, off, b, EntryOff(i), DIRENT_SIZE);
      PutOther(d, off, b, StartOf(files, i) * BLOCK_SIZE, |files[i].contents|);
    }
  }

  /** Writing the superblock block disturbs no entry and no data. */
  lemma HeadWrite(d: Bytes, files: seq<File>, b: Bytes)
    requires FilesOk(d, files) && |b| == BLOCK_SIZE <= |d|
    ensures FilesOk(Put(d, 0, b), files)
  {
    hide Put, Slice, DecodeEntry, Padded;
    forall i | 0 <= i < |files|
      ensures EntryOk(Put(d, 0, b), i, files[i], StartOf(files, i)) && DataOk(Put(d, 0, b), files[i], StartOf(files, i))
    {
      assert EntryOk(d, i, files[i], StartOf(files, i));
      PutOther(d, 0, b, EntryOff(i), DIRENT_SIZE);
      PutOther(d, 0, b, StartOf(files, i) * BLOCK_SIZE, |files[i].contents|);
    }
  }

  lemma HeadReads(d: Bytes, count: nat, total: nat)
    requires |d| >= BLOCK_SIZE && count < U32 && total < U32
    ensures HeadOk(WriteBlock(d, 0, SuperblockBytes(Head(count, total))), count, total)
  {
    hide Put, DecodeSuperblock, SuperblockBytes;
    var sb := Head(count, total);
    var b := OneBlock(SuperblockBytes(sb));
    PutSame(d, 0, b);
    assert Slice(b, 0, SUPERBLOCK_LEN) == SuperblockBytes(sb);
    SuperblockRoundTrip(b, sb);
  }

  lemma TotalMore(files: seq<File>, f: File)
    ensures TotalBlocks(files + [f]) == TotalBlocks(files) + Ceil(|f.contents|)
  {
    StartKept(files, f, |files|);
  }

  /** All parts of a file in place make the volume one longer. */
  lemma OneFileMore(d: Bytes, files: seq<File>, f: File)
    requires FilesOk(d, files) && EntryOk(d, |files|, f, TotalBlocks(files)) && DataOk(d, f, TotalBlocks(files))
    ensures FilesOk(d, files + [f])
  {
    hide EntryOk, DataOk, StartOf;
    var files' := files + [f];
    forall i | 0 <= i < |files'|
      ensures EntryOk(d, i, files'[i], StartOf(files', i)) && DataOk(d, files'[i], StartOf(files', i))
    {
      StartKept(files, f, i);
    }
  }

  /** What is planned on a volume. */
  lemma PlanIs(d: Bytes, files: seq<File>, name: Bytes, contents: Bytes)
    requires IsVolume(d, files)
    ensures PlanOn(d, name, contents).Some? <==> |contents| <= BLOCK_SIZE && |files| < DIRENTS_PER_BLOCK
    ensures |d| >= 2 * BLOCK_SIZE && TotalBlocks(files) < U32
    ensures PlanOn(d, name, contents).Some? ==>
      var plan := PlanOn(d, name, contents).value;
      && plan.startBlock == TotalBlocks(files)
      && plan.dirBlock == Put(Slice(d, BLOCK_SIZE, BLOCK_SIZE), |files| * DIRENT_SIZE,
         EntryBytes(DirEntry(Padded(name), TotalBlocks(files), |contents|)))
      && plan.newSuperblock == Head(|files| + 1, (TotalBlocks(files) + Ceil(|contents|)) % U32)
  {
    hide Put, DecodeSuperblock, EntryBytes, Padded, FilesOk, SaneFiles;
    assert TotalBlocks(files) >= 2;
    assert Block(d, 0) == Some(Slice(d, 0, BLOCK_SIZE))
      && Block(d, DIR_BLOCK) == Some(Slice(d, BLOCK_SIZE, BLOCK_SIZE));
    var dir := Slice(d, BLOCK_SIZE, BLOCK_SIZE);
    assert dir[..BLOCK_SIZE] == dir;
    if |contents| <= BLOCK_SIZE {
      BlockCountExact(|contents|);
    }
  }

  /** The data write: the volume is as before, the bytes are in place and the rest of
      their block is zero. */
  lemma DataWrite(d: Bytes, files: seq<File>, contents: Bytes)
    requires IsVolume(d, files) && |contents| <= BLOCK_SIZE && (TotalBlocks(files) + 1) * BLOCK_SIZE <= |d|
    ensures IsVolume(WriteBlock(d, TotalBlocks(files), contents), files)
    ensures Slice(WriteBlock(d, TotalBlocks(files), contents), TotalBlocks(files) * BLOCK_SIZE, |contents|) == contents
    ensures Slice(WriteBlock(d, TotalBlocks(files), contents), BLOCK_SIZE, BLOCK_SIZE)
         == Slice(d, BLOCK_SIZE, BLOCK_SIZE)
    ensures var off, n := TotalBlocks(files) * BLOCK_SIZE, |contents|;
            Slice(WriteBlock(d, TotalBlocks(files), contents), off + n, BLOCK_SIZE - n) == Zeros(BLOCK_SIZE - n)
  {
    hide Put, IsVolume;
    var b, off := OneBlock(contents), TotalBlocks(files) * BLOCK_SIZE;
    PastTheEnd(d, files, b);
    PutInside(d, off, b, 0, |contents|);
    assert Slice(b, 0, |contents|) == contents;
    PutInside(d, off, b, |contents|, BLOCK_SIZE - |contents|);
    assert Slice(b, |contents|, BLOCK_SIZE - |contents|) == Zeros(BLOCK_SIZE - |contents|);
    PutOther(d, off, b, BLOCK_SIZE, BLOCK_SIZE);
  }

  /** The directory write: the volume is as before and the entry is in place. */
  lemma DirWrite(d: Bytes, files: seq<File>, f: File)
    requires IsVolume(d, files) && |files| < DIRENTS_PER_BLOCK && SaneFile(f) && |d| >= 2 * BLOCK_SIZE
    requires TotalBlocks(files) < U32 && DataOk(d, f, TotalBlocks(files))
    ensures var dir := Put(Slice(d, BLOCK_SIZE, BLOCK_SIZE), |files| * DIRENT_SIZE,
            EntryBytes(DirEntry(Padded(f.name), TotalBlocks(files), |f.contents|)));
            var d' := WriteBlock(d, DIR_BLOCK, dir);
            IsVolume(d', files) && EntryOk(d', |files|, f, TotalBlocks(files)) && DataOk(d', f, TotalBlocks(files))
  {
    hide Put, Slice, IsVolume, EntryBytes, DecodeEntry, Padded;
    var e := DirEntry(Padded(f.name), TotalBlocks(files), |f.contents|);
    var b, n := EntryBytes(e), |files|;
    var dir := Put(Slice(d, BLOCK_SIZE, BLOCK_SIZE), n * DIRENT_SIZE, b);
    var off := EntryOff(n);
    assert OneBlock(dir) == dir;
    PutWithin(d, BLOCK_SIZE, BLOCK_SIZE, n * DIRENT_SIZE, b);
    NextSlot(d, files, b);
    var d' := Put(d, off, b);
    SliceSlice(d', off, DIRENT_SIZE, 0, |b|);
    PutSame(d, off, b);
    EntryRoundTrip(Slice(d', off, DIRENT_SIZE), e);
    PutOther(d, off, b, TotalBlocks(files) * BLOCK_SIZE, |f.contents|);
  }

  /** The superblock write: the commit. */
  lemma Commit(d: Bytes, files: seq<File>, f: File)
    requires IsVolume(d, files) && SaneFile(f) && Fresh(files, f.name) && |files| < DIRENTS_PER_BLOCK
    requires |f.contents| <= BLOCK_SIZE
    requires (TotalBlocks(files) + 1) * BLOCK_SIZE <= |d|
    requires EntryOk(d, |files|, f, TotalBlocks(files)) && DataOk(d, f, TotalBlocks(files))
    ensures TotalBlocks(files) + Ceil(|f.contents|) < U32
    ensures IsVolume(WriteBlock(d, 0, SuperblockBytes(Head(|files| + 1, TotalBlocks(files) + Ceil(|f.contents|)))),
      files + [f])
  {
    hide Put, EntryOk, DataOk, HeadOk, FilesOk, SuperblockBytes, StartOf;
    TotalMore(files, f);
    OneFileMore(d, files, f);
    var total := TotalBlocks(files) + Ceil(|f.contents|);
    assert Ceil(|f.contents|) <= 1;
    HeadReads(d, |files| + 1, total);
    HeadWrite(d, files + [f], OneBlock(SuperblockBytes(Head(|files| + 1, total))));
  }

  /** Crash consistency of one append: stopped after k of its writes it leaves the
      old volume, and after all three the volume with the new file, or the old
      one when the directory or the device was full. */
  lemma AppendSafe(d: Bytes, files: seq<File>, f: File, k: nat)
    requires IsVolume(d, files) && SaneFile(f) && Fresh(files, f.name)
    ensures var d' := AppendUpTo(d, f.name, f.contents, k);
            if k >= 3 && Room(d, files, f) then IsVolume(d', files + [f]) else IsVolume(d', files)
  {
    hide WriteBlock, PlanOn, IsVolume, EntryBytes, SuperblockBytes, Padded, Put, Slice, StartOf;
    PlanIs(d, files, f.name, f.contents);
    if PlanOn(d, f.name, f.contents).Some? && k > 0 && (TotalBlocks(files) + 1) * BLOCK_SIZE <= |d| {
      var plan := PlanOn(d, f.name, f.contents).value;
      DataWrite(d, files, f.contents);
      var d1 := WriteBlock(d, TotalBlocks(files), f.contents);
      if k > 1 {
        DirWrite(d1, files, f);
        var d2 := WriteBlock(d1, DIR_BLOCK, plan.dirBlock);
        if k > 2 {
          Commit(d2, files, f);
        }
      }
    }
  }

  /** There is a directory slot and a block for the file. */
  predicate Room(d: Bytes, files: seq<File>, f: File) {
    |f.contents| <= BLOCK_SIZE && |files| < DIRENTS_PER_BLOCK && (TotalBlocks(files) + 1) * BLOCK_SIZE <= |d|
  }

  // ---- updates in place ----

  lemma {:induction false} StartSame(files: seq<File>, k: nat, f: File, i: nat)
    requires k < |files| && |f.contents| == |files[k].contents| && i <= |files|
    ensures StartOf(files[k := f], i) == StartOf(files, i)
  {
    if i > 0 {
      StartSame(files, k, f, i - 1);
    }
  }

  /** Overwriting bytes inside file k changes that file and no other. */
  lemma InPlace(d: Bytes, files: seq<File>, k: nat, o: nat, b: Bytes)
    requires IsVolume(d, files) && k < |files| && o + |b| <= |files[k].contents|
    ensures var f := files[k].(contents := Put(files[k].contents, o, b));
            && StartOf(files, k) * BLOCK_SIZE + o + |b| <= |d|
            && IsVolume(Put(d, StartOf(files, k) * BLOCK_SIZE + o, b), files[k := f])
  {
    hide Put, Slice, DecodeEntry, DecodeSuperblock, Padded, StartOf;
    var f := files[k].(contents := Put(files[k].contents, o, b));
    var files' := files[k := f];
    var off := StartOf(files, k) * BLOCK_SIZE + o;
    var d' := Put(d, off, b);
    assert EntryOk(d, k, files[k], StartOf(files, k)) && DataOk(d, files[k], StartOf(files, k));
    StartSame(files, k, f, |files|);
    PutOther(d, off, b, 0, BLOCK_SIZE);
    forall i | 0 <= i < |files'|
      ensures EntryOk(d', i, files'[i], StartOf(files', i)) && DataOk(d', files'[i], StartOf(files', i))
    {
      StartSame(files, k, f, i);
      assert EntryOk(d, i, files[i], StartOf(files, i)) && DataOk(d, files[i], StartOf(files, i));
      PutOther(d, off, b, EntryOff(i), DIRENT_SIZE);
      if i < k {
        DataEnds(files, i, k);
        PutOther(d, off, b, StartOf(files, i) * BLOCK_SIZE, |files[i].contents|);
      } else if i > k {
        DataEnds(files, k, i);
        PutOther(d, off, b, StartOf(files, i) * BLOCK_SIZE, |files[i].contents|);
      } else {
        PutSlice(d, StartOf(files, k) * BLOCK_SIZE, |files[k].contents|, o, b);
      }
    }
  }

  // ---- any number of appends ----

  /** An append of a file that was stopped after some of its writes. */
  datatype Attempt = Attempt(file: File, writes: nat)

  function DiskAfter(d: Bytes, attempts: seq<Attempt>, n: nat): Bytes
    requires n <= |attempts|
  {
    if n == 0 then d
    else
      var a := attempts[n - 1];
      AppendUpTo(DiskAfter(d, attempts, n - 1), a.file.name, a.file.contents, a.writes)
  }

  /** The files after n attempts: one more for each that made its last write. */
  function FilesAfter(d: Bytes, files: seq<File>, attempts: seq<Attempt>, n: nat): seq<File>
    requires n <= |attempts|
  {
    if n == 0 then files
    else
      var before := FilesAfter(d, files, attempts, n - 1);
      var a := attempts[n - 1];
      if a.writes >= 3 && Room(d, before, a.file) then before + [a.file] else before
  }

  /** Each attempt names a file the format can hold and the volume lacks. */
  predicate FreshAttempts(d: Bytes, files: seq<File>, attempts: seq<Attempt>) {
    forall i :: 0 <= i < |attempts| ==>
      SaneFile(attempts[i].file) && Fresh(FilesAfter(d, files, attempts, i), attempts[i].file.name)
  }

  /** From any volume, after any appends each stopped anywhere, the disk holds
      exactly the original files and the committed ones. */
  lemma {:induction false} CrashConsistent(d: Bytes, files: seq<File>, attempts: seq<Attempt>, n: nat)
    requires IsVolume(d, files) && FreshAttempts(d, files, attempts) && n <= |attempts|
    ensures IsVolume(DiskAfter(d, attempts, n), FilesAfter(d, files, attempts, n))
    ensures |DiskAfter(d, attempts, n)| == |d|
  {
    hide IsVolume, AppendUpTo, SaneFile, Fresh, Room;
    if n > 0 {
      CrashConsistent(d, files, attempts, n - 1);
      var a := attempts[n - 1];
      assert SaneFile(a.file) && Fresh(FilesAfter(d, files, attempts, n - 1), a.file.name);
      SameRoom(d, DiskAfter(d, attempts, n - 1), FilesAfter(d, files, attempts, n - 1), a.file);
      AppendSafe(DiskAfter(d, attempts, n - 1), FilesAfter(d, files, attempts, n - 1), a.file, a.writes);
    }
  }

  /** Whether there is room does not depend on what is on the disk. */
  lemma SameRoom(d: Bytes, d': Bytes, files: seq<File>, f: File)
    requires |d| == |d'|
    ensures Room(d, files, f) == Room(d', files, f)
  {
  }

  /** So a read by name gives each such file its own contents, and nothing for
      any other name. */
  lemma ReadsAfterCrashes(d: Bytes, files: seq<File>, attempts: seq<Attempt>, name: Bytes)
    requires IsVolume(d, files) && FreshAttempts(d, files, attempts)
    ensures var n := |attempts|;
            var files' := FilesAfter(d, files, attempts, n);
            && (Fresh(files', name) ==> ReadFile(DiskAfter(d, attempts, n), name) == None)
            && (forall k :: 0 <= k < |files'| && files'[k].name == name ==>
               ReadFile(DiskAfter(d, attempts, n), name) == Some(files'[k].contents))
  {
    hide IsVolume, ReadFile;
    CrashConsistent(d, files, attempts, |attempts|);
    ReadFileIs(DiskAfter(d, attempts, |attempts|), FilesAfter(d, files, attempts, |attempts|), name);
  }
}
