/** The boot-time loader: from the directory of a disk to the knowledge table. */
module Loader {
  import opened Options
  import opened Bytes
  import opened Utf8
  import opened Volume
  import opened BlockCache
  import opened Kb
  import Heal

  /** The leading part of a file that the loader reads. */
  function HeadOf(contents: Bytes): Bytes {
    contents[..Min(|contents|, KB_HEAD_BLOCKS * BLOCK_SIZE)]
  }

  /** The table with one more head loaded: it must parse, declare a token and find
      room. */
  function LoadHead(table: seq<Heal.Issue>, head: Bytes, start: nat): seq<Heal.Issue> {
    match ParseDoc(head)
    case None => table
    case Some(rec) =>
      if rec.matchCause.Some? && |table| < Heal.MAX_ISSUES
      then table + [Heal.NewIssue(rec.id, rec.title, rec.playbook, rec.matchCause.value, rec.seen, rec.escalated,
        start)]
      else table
  }

  function EntryIn(dir: Bytes, i: nat): DirEntry
    requires |dir| == BLOCK_SIZE && i < DIRENTS_PER_BLOCK
  {
    DecodeEntry(Slice(dir, i * DIRENT_SIZE, DIRENT_SIZE))
  }

  /** The table after the first n entries of a directory block. */
  function LoadDir(table: seq<Heal.Issue>, d: Bytes, dir: Bytes, n: nat): seq<Heal.Issue>
    requires |dir| == BLOCK_SIZE && n <= DIRENTS_PER_BLOCK
  {
    if n == 0 then table
    else
      var e, before := EntryIn(dir, n - 1), LoadDir(table, d, dir, n - 1);
      match ExtentHead(d, e.startBlock, e.byteLen)
      case None => before
      case Some(head) => LoadHead(before, head, e.startBlock)
  }

  /** The superblock and the directory block of a disk, if it has them. */
  function Directory(d: Bytes): (r: Option<(Bytes, nat)>)
    ensures r.Some? ==> |r.value.0| == BLOCK_SIZE && r.value.1 <= DIRENTS_PER_BLOCK
  {
    match Block(d, 0)
    case None => None
    case Some(b) =>
      match DecodeSuperblock(b)
      case None => None
      case Some(sb) =>
        match Block(d, sb.dirBlock)
        case None => None
        case Some(dir) => Some((dir, Min(sb.dirEntries, DIRENTS_PER_BLOCK)))
  }

  /** What a boot loads from a disk; a bad superblock or directory loads nothing. */
  function LoadDisk(table: seq<Heal.Issue>, d: Bytes): seq<Heal.Issue> {
    match Directory(d) case None => table case Some(dir) => LoadDir(table, d, dir.0, dir.1)
  }

  /** The block numbers the loader meets are below the write flag. */
  predicate Loadable(d: Bytes) {
    && (Block(d, 0).Some? && DecodeSuperblock(Block(d, 0).value).Some? ==>
       DecodeSuperblock(Block(d, 0).value).value.dirBlock < BLK_WRITE_FLAG)
    && (Directory(d).Some? ==>
          forall i :: 0 <= i < Directory(d).value.1 ==> InReach(EntryIn(Directory(d).value.0, i)))
  }

  predicate InReach(e: DirEntry) {
    e.byteLen < U32 && e.startBlock + Min(BlockCount(e.byteLen), KB_HEAD_BLOCKS) <= BLK_WRITE_FLAG
  }

  /** kb_loader_task: without device errors the table is what the disk loads; the
      disk is only read. */
  method Load(fs: FileSystem, heal: Heal.KnowledgeTable)
    requires fs.Valid() && fs.fileBuf.Length == FS_FILEBUF_LEN && Loadable(fs.disk)
    modifies fs, fs.fileBuf, heal
    ensures fs.Valid() && fs.disk == old(fs.disk) && old(fs.faults) <= fs.faults
    ensures fs.faults == old(fs.faults) ==> heal.table == LoadDisk(old(heal.table), fs.disk)
  {
    hide DecodeSuperblock, EntryIn, ParseDoc, Block, ExtentHead, BlockCount;
    var b0 := fs.ReadBlock(0);
    if b0.None? {
      return;
    }
    var sb := DecodeSuperblock(b0.value);
    if sb.None? {
      return;
    }
    var dir := fs.ReadBlock(sb.value.dirBlock);
    if dir.None? {
      return;
    }
    ghost var d := fs.disk;
    var n := Min(sb.value.dirEntries, DIRENTS_PER_BLOCK);
    for i := 0 to n
      invariant fs.Valid() && fs.disk == d && old(fs.faults) <= fs.faults
      invariant fs.faults == old(fs.faults) ==> heal.table == LoadDir(old(heal.table), d, dir.value, i)
    {
      var ent := EntryIn(dir.value, i);
      assert InReach(ent);
      var bytes := fs.ReadExtentHead(ent.startBlock, ent.byteLen);
      if bytes.None? {
        continue;
      }
      var rec := Parse(bytes.value);
      if rec.Some? && rec.value.matchCause.Some? {
        var _ := heal.Install(rec.value.id, rec.value.title, rec.value.playbook, rec.value.matchCause, rec.value.seen,
          rec.value.escalated, ent.startBlock);
      }
    }
  }

  /** The strings of every issue are valid text. */
  predicate ValidIssues(table: seq<Heal.Issue>) {
    forall k :: 0 <= k < |table| ==>
      Valid(table[k].id) && Valid(table[k].title) && Valid(table[k].playbook) && Valid(table[k].matchCause)
  }

  lemma HeadKeepsValid(table: seq<Heal.Issue>, head: Bytes, start: nat)
    requires ValidIssues(table)
    ensures ValidIssues(LoadHead(table, head, start))
  {
    hide ParseDoc, Valid, Heal.Cut;
    var rec := ParseDoc(head);
    if rec.Some? && rec.value.matchCause.Some? {
      ParsedValid(head);
      Heal.CutLongest(rec.value.id, Heal.ID_CAP);
      Heal.CutLongest(rec.value.title, Heal.TITLE_CAP);
      Heal.CutLongest(rec.value.playbook, Heal.PLAYBOOK_CAP);
      Heal.CutLongest(rec.value.matchCause.value, Heal.TOKEN_CAP);
    }
  }

  lemma {:induction false} DirKeepsValid(table: seq<Heal.Issue>, d: Bytes, dir: Bytes, n: nat)
    requires ValidIssues(table) && |dir| == BLOCK_SIZE && n <= DIRENTS_PER_BLOCK
    ensures ValidIssues(LoadDir(table, d, dir, n))
  {
    hide ValidIssues, EntryIn, ExtentHead, LoadHead;
    if n > 0 {
      DirKeepsValid(table, d, dir, n - 1);
      var e := EntryIn(dir, n - 1);
      match ExtentHead(d, e.startBlock, e.byteLen)
      case None =>
      case Some(head) => HeadKeepsValid(LoadDir(table, d, dir, n - 1), head, e.startBlock);
    }
  }

  /** Whatever is on the disk, what a boot loads from it is valid text. */
  lemma LoadedValid(d: Bytes)
    ensures ValidIssues(LoadDisk([], d))
  {
    hide LoadDir;
    match Directory(d)
    case None =>
    case Some(dir) => DirKeepsValid([], d, dir.0, dir.1);
  }

  // ---- on a volume ----

  /** The table after the first n files of a volume. */
  function LoadedFrom(table: seq<Heal.Issue>, files: seq<File>, n: nat): seq<Heal.Issue>
    requires n <= |files|
  {
    if n == 0 then table else LoadHead(LoadedFrom(table, files, n - 1), HeadOf(files[n - 1].contents),
      StartOf(files, n - 1))
  }

  /** What the volume's superblock and directory say to the loader. */
  lemma VolumeReads(d: Bytes, files: seq<File>)
    requires IsVolume(d, files)
    ensures Directory(d) == Some((Slice(d, BLOCK_SIZE, BLOCK_SIZE), |files|))
    ensures |d| >= 2 * BLOCK_SIZE
    ensures DecodeSuperblock(Slice(d, 0, BLOCK_SIZE)) == Some(Head(|files|, TotalBlocks(files)))
    ensures forall i :: 0 <= i < |files| ==> DirOk(Directory(d).value.0, files, i)
  {
    hide DecodeSuperblock, Slice, DirOk, EntryOk, DataOk, StartOf;
    assert TotalBlocks(files) >= 2;
    DirIs(d, files);
    assert Block(d, 0) == Some(Slice(d, 0, BLOCK_SIZE))
      && Block(d, DIR_BLOCK) == Some(Slice(d, BLOCK_SIZE, BLOCK_SIZE));
  }

  /** An extent of the volume is in the device, and its head is the file's. */
  lemma ExtentReads(d: Bytes, files: seq<File>, i: nat)
    requires IsVolume(d, files) && i < |files|
    ensures |files[i].contents| <= U32 - BLOCK_SIZE && BlockCount(|files[i].contents|) == Ceil(|files[i].contents|)
    ensures StartOf(files, i) + Ceil(|files[i].contents|) <= MAX_BLOCKS
    ensures (StartOf(files, i) + Ceil(|files[i].contents|)) * BLOCK_SIZE <= |d|
    ensures ExtentHead(d, StartOf(files, i), |files[i].contents|) == Some(HeadOf(files[i].contents))
  {
    hide DecodeSuperblock, EntryOk, HeadOk, StartOf;
    var start, c := StartOf(files, i), files[i].contents;
    ExtentsOrdered(files, i, |files|);
    assert SaneFile(files[i]);
    BlockCountExact(|c|);
    assert DataOk(d, files[i], start);
    CeilCovers(|c|);
    var len := Min(|c|, KB_HEAD_BLOCKS * BLOCK_SIZE);
    SliceSlice(d, start * BLOCK_SIZE, |c|, 0, len);
  }

  /** Loading a volume loads its files in turn, each with its own first block. */
  lemma {:induction false} VolumeLoads(d: Bytes, files: seq<File>, table: seq<Heal.Issue>, n: nat)
    requires IsVolume(d, files) && n <= |files|
    ensures Directory(d) == Some((Slice(d, BLOCK_SIZE, BLOCK_SIZE), |files|))
    ensures LoadDir(table, d, Slice(d, BLOCK_SIZE, BLOCK_SIZE), n) == LoadedFrom(table, files, n)
    ensures n > 0 ==> InReach(EntryIn(Slice(d, BLOCK_SIZE, BLOCK_SIZE), n - 1))
  {
    hide IsVolume, ParseDoc, StartOf, ExtentHead, BlockCount, Slice, DecodeEntry, Directory;
    VolumeReads(d, files);
    if n > 0 {
      VolumeLoads(d, files, table, n - 1);
      ExtentReads(d, files, n - 1);
      assert DirOk(Slice(d, BLOCK_SIZE, BLOCK_SIZE), files, n - 1);
    }
  }

  /** A volume can be loaded, and gives exactly its files. */
  lemma VolumeLoadable(d: Bytes, files: seq<File>, table: seq<Heal.Issue>)
    requires IsVolume(d, files)
    ensures Loadable(d) && LoadDisk(table, d) == LoadedFrom(table, files, |files|)
  {
    hide IsVolume, LoadDir, LoadedFrom, Directory, InReach, EntryIn, DecodeSuperblock;
    VolumeReads(d, files);
    VolumeLoads(d, files, table, |files|);
    forall i | 0 <= i < |files| ensures InReach(EntryIn(Slice(d, BLOCK_SIZE, BLOCK_SIZE), i)) {
      VolumeLoads(d, files, table, i + 1);
    }
  }
}
