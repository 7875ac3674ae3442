/** The image builder: superblock, directory and extents written in place into a
    zeroed buffer. */
module Mkfs {
  import opened Bytes
  import opened Volume
  import opened Append

  predicate Entries(d: Bytes, files: seq<File>, n: nat)
    requires n <= |files|
  {
    forall i :: 0 <= i < n ==> EntryOk(d, i, files[i], StartOf(files, i))
  }

  predicate Data(d: Bytes, files: seq<File>, n: nat)
    requires n <= |files|
  {
    forall i :: 0 <= i < n ==> DataOk(d, files[i], StartOf(files, i))
  }

  /** Writing entry n keeps the superblock and the entries before it. */
  lemma EntryStep(d: Bytes, files: seq<File>, n: nat, e: DirEntry)
    requires n < |files| <= DIRENTS_PER_BLOCK && |d| >= 2 * BLOCK_SIZE && HeadOk(d, |files|, TotalBlocks(files))
    requires Entries(d, files, n)
    requires e == DirEntry(Padded(files[n].name), StartOf(files, n), |files[n].contents|) && e.startBlock < U32
    requires e.byteLen < U32
    ensures HeadOk(Put(d, EntryOff(n), EntryBytes(e)), |files|, TotalBlocks(files))
    ensures Entries(Put(d, EntryOff(n), EntryBytes(e)), files, n + 1)
  {
    hide Put, Slice, DecodeEntry, DecodeSuperblock, EntryBytes, Padded, StartOf;
    var b, off := EntryBytes(e), EntryOff(n);
    var d' := Put(d, off, b);
    PutOther(d, off, b, 0, BLOCK_SIZE);
    PutSame(d, off, b);
    SliceSlice(d', off, DIRENT_SIZE, 0, |b|);
    EntryRoundTrip(Slice(d', off, DIRENT_SIZE), e);
    forall i | 0 <= i < n ensures EntryOk(d', i, files[i], StartOf(files, i)) {
      assert EntryOk(d, i, files[i], StartOf(files, i));
      PutOther(d, off, b, EntryOff(i), DIRENT_SIZE);
    }
  }

  /** Writing the bytes of file n keeps everything before them. */
  lemma DataStep(d: Bytes, files: seq<File>, n: nat)
    requires n < |files| <= DIRENTS_PER_BLOCK && TotalBlocks(files) * BLOCK_SIZE <= |d|
    requires HeadOk(d, |files|, TotalBlocks(files)) && Entries(d, files, |files|) && Data(d, files, n)
    ensures var off := StartOf(files, n) * BLOCK_SIZE;
            var b := files[n].contents;
            && off + |b| <= |d| && HeadOk(Put(d, off, b), |files|, TotalBlocks(files))
            && Entries(Put(d, off, b), files, |files|) && Data(Put(d, off, b), files, n + 1)
  {
    hide Put, Slice, DecodeEntry, DecodeSuperblock, Padded, StartOf;
    var b, off := files[n].contents, StartOf(files, n) * BLOCK_SIZE;
    DataEnds(files, n, |files|);
    PutOther(d, off, b, 0, BLOCK_SIZE);
    PutSame(d, off, b);
    forall i | 0 <= i < |files| ensures EntryOk(Put(d, off, b), i, files[i], StartOf(files, i)) {
      assert EntryOk(d, i, files[i], StartOf(files, i));
      PutOther(d, off, b, EntryOff(i), DIRENT_SIZE);
    }
    forall i | 0 <= i < n ensures DataOk(Put(d, off, b), files[i], StartOf(files, i)) {
      assert DataOk(d, files[i], StartOf(files, i));
      DataEnds(files, i, n);
      PutOther(d, off, b, StartOf(files, i) * BLOCK_SIZE, |files[i].contents|);
    }
  }

  lemma {:induction false} StartBelowTotal(files: seq<File>, i: nat)
    requires i <= |files|
    ensures StartOf(files, i) <= TotalBlocks(files)
    decreases |files| - i
  {
    if i < |files| {
      StartBelowTotal(files, i + 1);
    }
  }

  /** build_image: refused exactly when the files need a second directory block;
      otherwise the image is a volume of exactly these files, with spare blocks
      behind them. */
  method BuildImage(files: seq<File>) returns (ok: bool, img: array<Byte>)
    requires TotalBlocks(files) + SPARE_BLOCKS <= MAX_BLOCKS
    requires forall i :: 0 <= i < |files| ==> |files[i].contents| <= U32 - BLOCK_SIZE
    ensures ok <==> |files| <= DIRENTS_PER_BLOCK
    ensures ok ==> img.Length == (TotalBlocks(files) + SPARE_BLOCKS) * BLOCK_SIZE && fresh(img)
    ensures ok && SaneFiles(files) ==> IsVolume(img[..], files)
  {
    hide Put, Slice, HeadOk, EntryOk, DataOk, StartOf;
    if |files| > DIRENTS_PER_BLOCK {
      img := new Byte[0];
      return false, img;
    }
    var entries, total := PlanEntries(files);
    img := new Byte[(total + SPARE_BLOCKS) * BLOCK_SIZE](_ => NUL);
    WriteHead(img, |files|, total);
    WriteEntries(img, files, entries);
    WriteData(img, files, entries);
    return true, img;
  }

  /** The entry of file i. */
  function EntryFor(files: seq<File>, i: nat): DirEntry
    requires i < |files|
  {
    DirEntry(Padded(files[i].name), StartOf(files, i), |files[i].contents|)
  }

  /** The running counters give each file the block after the one before it. */
  method PlanEntries(files: seq<File>) returns (entries: seq<DirEntry>, total: nat)
    requires forall i :: 0 <= i < |files| ==> |files[i].contents| <= U32 - BLOCK_SIZE
    ensures |entries| == |files| && total == TotalBlocks(files)
    ensures forall j :: 0 <= j < |files| ==> entries[j] == EntryFor(files, j)
  {
    hide Padded;
    entries := [];
    var next, dataBlocks := DATA_START_BLOCK, 0;
    for i := 0 to |files|
      invariant |entries| == i && next == StartOf(files, i) == DATA_START_BLOCK + dataBlocks
      invariant forall j :: 0 <= j < i ==> entries[j] == EntryFor(files, j)
    {
      BlockCountExact(|files[i].contents|);
      var nb := BlockCount(|files[i].contents|);
      entries := entries + [DirEntry(Padded(files[i].name), next, |files[i].contents|)];
      next, dataBlocks := next + nb, dataBlocks + nb;
    }
    total := DATA_START_BLOCK + dataBlocks;
  }

  method WriteEntries(img: array<Byte>, files: seq<File>, entries: seq<DirEntry>)
    requires |entries| == |files| <= DIRENTS_PER_BLOCK && forall j :: 0 <= j < |files| ==>
      entries[j] == EntryFor(files, j)
    requires img.Length >= 2 * BLOCK_SIZE && HeadOk(img[..], |files|, TotalBlocks(files)) && TotalBlocks(files) < U32
    requires forall i :: 0 <= i < |files| ==> |files[i].contents| <= U32 - BLOCK_SIZE
    modifies img
    ensures HeadOk(img[..], |files|, TotalBlocks(files)) && Entries(img[..], files, |files|)
  {
    hide Put, Slice, HeadOk, EntryOk, EntryBytes, Padded, StartOf;
    for i := 0 to |files|
      invariant HeadOk(img[..], |files|, TotalBlocks(files)) && Entries(img[..], files, i)
    {
      StartBelowTotal(files, i);
      EntryStep(img[..], files, i, entries[i]);
      CopyInto(img, EntryOff(i), EntryBytes(entries[i]));
    }
  }

  method WriteData(img: array<Byte>, files: seq<File>, entries: seq<DirEntry>)
    requires |entries| == |files| <= DIRENTS_PER_BLOCK && forall j :: 0 <= j < |files| ==>
      entries[j] == EntryFor(files, j)
    requires img.Length >= TotalBlocks(files) * BLOCK_SIZE && HeadOk(img[..], |files|, TotalBlocks(files))
    requires Entries(img[..], files, |files|)
    modifies img
    ensures HeadOk(img[..], |files|, TotalBlocks(files)) && FilesOk(img[..], files)
  {
    hide Put, Slice, HeadOk, EntryOk, DataOk, Padded, StartOf;
    for i := 0 to |files|
      invariant HeadOk(img[..], |files|, TotalBlocks(files)) && Entries(img[..], files, |files|)
      invariant Data(img[..], files, i)
    {
      DataStep(img[..], files, i);
      CopyInto(img, entries[i].startBlock * BLOCK_SIZE, files[i].contents);
    }
  }

  /** The superblock goes into the first 24 bytes of a zeroed image. */
  method WriteHead(img: array<Byte>, count: nat, total: nat)
    requires img.Length >= BLOCK_SIZE && count < U32 && total < U32
    modifies img
    ensures HeadOk(img[..], count, total)
  {
    var sb := Head(count, total);
    CopyInto(img, 0, SuperblockBytes(sb));
    HeadInPlace(img[..], sb);
  }

  lemma HeadInPlace(d: Bytes, sb: Superblock)
    requires |d| >= BLOCK_SIZE && Words(sb) && sb == Head(sb.dirEntries, sb.totalBlocks)
    requires d[..SUPERBLOCK_LEN] == SuperblockBytes(sb)
    ensures HeadOk(d, sb.dirEntries, sb.totalBlocks)
  {
    hide SuperblockBytes, DecodeSuperblock;
    SliceSlice(d, 0, BLOCK_SIZE, 0, SUPERBLOCK_LEN);
    SuperblockRoundTrip(Slice(d, 0, BLOCK_SIZE), sb);
  }
}
