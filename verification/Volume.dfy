/** The on-disk volume: a superblock, one directory block of fixed-size entries,
    contiguous extents; and appending to it so that a crash never shows. */
module Volume {
  import opened Options
  import opened Bytes

  const BLOCK_SIZE: nat := 512
  const FS_MAGIC: nat := 0x5346_4236
  const FS_VERSION: nat := 1
  const DIR_BLOCK: nat := 1
  const DATA_START_BLOCK: nat := 2
  const NAME_LEN: nat := 48
  const DIRENT_SIZE: nat := 64
  const DIRENTS_PER_BLOCK: nat := 8
  const SPARE_BLOCKS: nat := 8
  const SUPERBLOCK_LEN: nat := 24

  // ---- the superblock ----

  datatype Superblock = Superblock(magic: nat, version: nat, blockSize: nat, dirBlock: nat, dirEntries: nat,
                                   totalBlocks: nat)

  predicate Words(sb: Superblock) {
    && sb.magic < U32 && sb.version < U32 && sb.blockSize < U32
    && sb.dirBlock < U32 && sb.dirEntries < U32 && sb.totalBlocks < U32
  }

  /** The 24 bytes of a superblock. */
  function SuperblockBytes(sb: Superblock): (r: Bytes)
    requires Words(sb)
    ensures |r| == SUPERBLOCK_LEN
  {
    Le32(sb.magic) + Le32(sb.version) + Le32(sb.blockSize) + Le32(sb.dirBlock) + Le32(sb.dirEntries)
      + Le32(sb.totalBlocks)
  }

  function DecodeSuperblock(block: Bytes): Option<Superblock> {
    if |block| < SUPERBLOCK_LEN then None
    else
      var sb := Superblock(Read32(block, 0), Read32(block, 4), Read32(block, 8), Read32(block, 12), Read32(block, 16),
        Read32(block, 20));
      if sb.magic != FS_MAGIC || sb.version != FS_VERSION then None else Some(sb)
  }

  /** Encoding then decoding gives the superblock back exactly when its magic and
      version are this format's. */
  lemma SuperblockRoundTrip(block: Bytes, sb: Superblock)
    requires Words(sb) && |block| >= SUPERBLOCK_LEN && Slice(block, 0, SUPERBLOCK_LEN) == SuperblockBytes(sb)
    ensures DecodeSuperblock(block) == if sb.magic == FS_MAGIC && sb.version == FS_VERSION then Some(sb) else None
  {
    hide Le32;
    var bytes := SuperblockBytes(sb);
    assert Slice(block, 0, 4) == Slice(bytes, 0, 4) == Le32(sb.magic);
    assert Slice(block, 4, 4) == Slice(bytes, 4, 4) == Le32(sb.version);
    assert Slice(block, 8, 4) == Slice(bytes, 8, 4) == Le32(sb.blockSize);
    assert Slice(block, 12, 4) == Slice(bytes, 12, 4) == Le32(sb.dirBlock);
    assert Slice(block, 16, 4) == Slice(bytes, 16, 4) == Le32(sb.dirEntries);
    assert Slice(block, 20, 4) == Slice(bytes, 20, 4) == Le32(sb.totalBlocks);
    Le32RoundTrip(block, 0, sb.magic);
    Le32RoundTrip(block, 4, sb.version);
    Le32RoundTrip(block, 8, sb.blockSize);
    Le32RoundTrip(block, 12, sb.dirBlock);
    Le32RoundTrip(block, 16, sb.dirEntries);
    Le32RoundTrip(block, 20, sb.totalBlocks);
  }

  /** The words of the first 24 bytes, least significant byte first: the magic
      number "6BFS", the version, and so on. */
  lemma SuperblockLayout(sb: Superblock)
    requires Words(sb)
    ensures var b := SuperblockBytes(sb);
            && sb.magic == Weighted(b, 0) && sb.version == Weighted(b, 4) && sb.blockSize == Weighted(b, 8)
            && sb.dirBlock == Weighted(b, 12) && sb.dirEntries == Weighted(b, 16) && sb.totalBlocks == Weighted(b, 20)
            && (sb.magic == FS_MAGIC ==> b[..4] == "6BFS")
  {
    hide Le32, Weighted;
    var b := SuperblockBytes(sb);
    assert b[0..4] == Le32(sb.magic) && b[4..8] == Le32(sb.version) && b[8..12] == Le32(sb.blockSize);
    assert b[12..16] == Le32(sb.dirBlock) && b[16..20] == Le32(sb.dirEntries) && b[20..24] == Le32(sb.totalBlocks);
    WordAt(b, 0, sb.magic); WordAt(b, 4, sb.version); WordAt(b, 8, sb.blockSize);
    WordAt(b, 12, sb.dirBlock); WordAt(b, 16, sb.dirEntries); WordAt(b, 20, sb.totalBlocks);
    assert b[..4] == b[0..4];
    MagicBytes();
  }

  /** Four bytes at their weights. */
  function Weighted(b: Bytes, off: nat): nat
    requires off + 4 <= |b|
  {
    b[off] as nat + 0x100 * b[off + 1] as nat + 0x1_0000 * b[off + 2] as nat + 0x100_0000 * b[off + 3] as nat
  }

  lemma WordAt(b: Bytes, off: nat, v: nat)
    requires v < U32 && off + 4 <= |b| && b[off..off + 4] == Le32(v)
    ensures Weighted(b, off) == v
  {
    var s := b[off..off + 4];
    assert s[0] == b[off] && s[1] == b[off + 1] && s[2] == b[off + 2] && s[3] == b[off + 3];
    Le32RoundTrip(b, off, v);
  }

  lemma MagicBytes()
    ensures Le32(FS_MAGIC) == "6BFS"
  {
  }

  // ---- directory entries ----

  datatype DirEntry = DirEntry(name: Bytes, startBlock: nat, byteLen: nat)

  /** A name cut to 48 bytes and padded with NUL. */
  function Padded(name: Bytes): (r: Bytes)
    ensures |r| == NAME_LEN
  {
    if |name| >= NAME_LEN then name[..NAME_LEN] else name + Zeros(NAME_LEN - |name|)
  }

  /** The 56 bytes an entry writes; the last 8 of its slot are left alone. */
  function EntryBytes(e: DirEntry): (r: Bytes)
    requires |e.name| == NAME_LEN && e.startBlock < U32 && e.byteLen < U32
    ensures |r| == NAME_LEN + 8
  {
    e.name + Le32(e.startBlock) + Le32(e.byteLen)
  }

  function DecodeEntry(e: Bytes): DirEntry
    requires |e| >= NAME_LEN + 8
  {
    DirEntry(e[..NAME_LEN], Read32(e, NAME_LEN), Read32(e, NAME_LEN + 4))
  }

  lemma EntryRoundTrip(b: Bytes, e: DirEntry)
    requires |e.name| == NAME_LEN && e.startBlock < U32 && e.byteLen < U32
    requires |b| >= NAME_LEN + 8 && Slice(b, 0, NAME_LEN + 8) == EntryBytes(e)
    ensures DecodeEntry(b) == e
  {
    hide Le32;
    var bytes := EntryBytes(e);
    assert b[..NAME_LEN] == Slice(bytes, 0, NAME_LEN) == e.name;
    assert Slice(b, NAME_LEN, 4) == Slice(bytes, NAME_LEN, 4) == Le32(e.startBlock);
    assert Slice(b, NAME_LEN + 4, 4) == Slice(bytes, NAME_LEN + 4, 4) == Le32(e.byteLen);
    Le32RoundTrip(b, NAME_LEN, e.startBlock);
    Le32RoundTrip(b, NAME_LEN + 4, e.byteLen);
  }

  /** The name in the first 48 bytes, then the first block and the length. */
  lemma EntryLayout(e: DirEntry)
    requires |e.name| == NAME_LEN && e.startBlock < U32 && e.byteLen < U32
    ensures var b := EntryBytes(e);
            b[..48] == e.name && Weighted(b, 48) == e.startBlock && Weighted(b, 52) == e.byteLen
  {
    hide Le32, Weighted;
    var b := EntryBytes(e);
    assert b[48..52] == Le32(e.startBlock) && b[52..56] == Le32(e.byteLen);
    WordAt(b, 48, e.startBlock);
    WordAt(b, 52, e.byteLen);
  }

  /** Bytes up to the first NUL. */
  function UntilNul(b: Bytes): (r: Bytes)
    ensures |r| <= |b| && r == b[..|r|] && NUL !in r
    ensures |r| < |b| ==> b[|r|] == NUL
  {
    if |b| == 0 || b[0] == NUL then [] else [b[0]] + UntilNul(b[1..])
  }

  predicate NameIs(e: DirEntry, want: Bytes) {
    |want| <= NAME_LEN && UntilNul(e.name) == want
  }

  /** Names the format can hold: at most 48 bytes, none of them NUL. */
  predicate SaneName(name: Bytes) {
    |name| <= NAME_LEN && NUL !in name
  }

  /** An entry made for one sane name answers to that name only. */
  lemma NameMatches(name: Bytes, want: Bytes, start: nat, len: nat)
    requires SaneName(name)
    ensures NameIs(DirEntry(Padded(name), start, len), want) <==> want == name
  {
    var p := Padded(name);
    var u := UntilNul(p);
    assert p[..|name|] == name;
    assert forall i :: 0 <= i < |name| ==> name[i] == p[i] != NUL;
    assert |u| >= |name|;
    assert |name| < NAME_LEN ==> p[|name|] == NUL;
  }

  /** An entry answers to the very name it was made for exactly when the format can
      hold that name: a longer one is cut, and one with a NUL ends there. */
  lemma NameExact(name: Bytes, start: nat, len: nat)
    ensures NameIs(DirEntry(Padded(name), start, len), name) <==> SaneName(name)
  {
    if SaneName(name) {
      NameMatches(name, name, start, len);
    }
  }

  /** A name longer than 48 bytes is cut, so a lookup of it misses. */
  lemma LongNameMissed(name: Bytes, start: nat, len: nat)
    requires |name| > NAME_LEN
    ensures !NameIs(DirEntry(Padded(name), start, len), name)
  {
  }

  // ---- extents ----

  function Ceil(n: nat): nat {
    (n + BLOCK_SIZE - 1) / BLOCK_SIZE
  }

  /** block_count in 32-bit arithmetic. Where the sum overflows, a build with
      overflow checks stops; this is the value of one without. */
  function BlockCount(byteLen: nat): nat {
    (byteLen + BLOCK_SIZE - 1) % U32 / BLOCK_SIZE
  }

  predicate CountOverflows(byteLen: nat) {
    byteLen + BLOCK_SIZE - 1 >= U32
  }

  /** It overflows for the last 511 lengths, and rounds up exactly for the others;
      without overflow checks it is 0 past that. */
  lemma BlockCountExact(byteLen: nat)
    requires byteLen < U32
    ensures CountOverflows(byteLen) <==> byteLen > U32 - BLOCK_SIZE
    ensures BlockCount(byteLen) == Ceil(byteLen) <==> !CountOverflows(byteLen)
    ensures CountOverflows(byteLen) ==> BlockCount(byteLen) == 0
  {
  }

  // ---- the volume ----

  datatype File = File(name: Bytes, contents: Bytes)

  const MAX_BLOCKS: nat := 0x8000_0000  // block numbers below the write flag

  /** The first block of file i: extents follow one another. */
  function StartOf(files: seq<File>, i: nat): (n: nat)
    requires i <= |files|
    ensures n >= DATA_START_BLOCK
  {
    if i == 0 then DATA_START_BLOCK else StartOf(files, i - 1) + Ceil(|files[i - 1].contents|)
  }

  function TotalBlocks(files: seq<File>): nat {
    StartOf(files, |files|)
  }

  /** Extents do not overlap. */
  lemma {:induction false} ExtentsOrdered(files: seq<File>, i: nat, j: nat)
    requires i < j <= |files|
    ensures StartOf(files, i) + Ceil(|files[i].contents|) <= StartOf(files, j)
    decreases j
  {
    if i < j - 1 {
      ExtentsOrdered(files, i, j - 1);
    }
  }

  lemma {:induction false} StartKept(files: seq<File>, f: File, i: nat)
    requires i <= |files|
    ensures StartOf(files + [f], i) == StartOf(files, i)
  {
    if i > 0 {
      StartKept(files, f, i - 1);
    }
  }

  predicate SaneFile(f: File) {
    SaneName(f.name) && |f.contents| <= U32 - BLOCK_SIZE
  }

  predicate Fresh(files: seq<File>, name: Bytes) {
    forall i :: 0 <= i < |files| ==> files[i].name != name
  }

  predicate SaneFiles(files: seq<File>) {
    && |files| <= DIRENTS_PER_BLOCK
    && (forall i :: 0 <= i < |files| ==> SaneFile(files[i]))
    && (forall i, j :: 0 <= i < j < |files| ==> files[i].name != files[j].name)
  }

  function Head(count: nat, total: nat): Superblock {
    Superblock(FS_MAGIC, FS_VERSION, BLOCK_SIZE, DIR_BLOCK, count, total)
  }

  predicate HeadOk(d: Bytes, count: nat, total: nat) {
    |d| >= BLOCK_SIZE && DecodeSuperblock(Slice(d, 0, BLOCK_SIZE)) == Some(Head(count, total))
  }

  function EntryOff(i: nat): nat {
    DIR_BLOCK * BLOCK_SIZE + i * DIRENT_SIZE
  }

  predicate EntryOk(d: Bytes, i: nat, f: File, start: nat) {
    && EntryOff(i) + DIRENT_SIZE <= |d|
    && DecodeEntry(Slice(d, EntryOff(i), DIRENT_SIZE)) == DirEntry(Padded(f.name), start, |f.contents|)
  }

  predicate DataOk(d: Bytes, f: File, start: nat) {
    start * BLOCK_SIZE + |f.contents| <= |d| && Slice(d, start * BLOCK_SIZE, |f.contents|) == f.contents
  }

  predicate FilesOk(d: Bytes, files: seq<File>) {
    forall i :: 0 <= i < |files| ==>
      EntryOk(d, i, files[i], StartOf(files, i)) && DataOk(d, files[i], StartOf(files, i))
  }

  /** The disk d holds exactly these files. */
  predicate IsVolume(d: Bytes, files: seq<File>) {
    && |d| % BLOCK_SIZE == 0 && |d| <= MAX_BLOCKS * BLOCK_SIZE && TotalBlocks(files) * BLOCK_SIZE <= |d|
    && SaneFiles(files) && HeadOk(d, |files|, TotalBlocks(files)) && FilesOk(d, files)
  }

  // ---- reading it ----

  function Block(d: Bytes, n: nat): (r: Option<Bytes>)
    ensures r.Some? ==> |r.value| == BLOCK_SIZE
  {
    if (n + 1) * BLOCK_SIZE <= |d| then Some(Slice(d, n * BLOCK_SIZE, BLOCK_SIZE)) else None
  }

  /** The first of the entries from i up to n that answers to name. */
  function LookupFrom(dir: Bytes, n: nat, i: nat, name: Bytes): Option<DirEntry>
    requires n <= DIRENTS_PER_BLOCK
    decreases n - i
  {
    if i >= n || (i + 1) * DIRENT_SIZE > |dir| then None
    else
      var e := DecodeEntry(Slice(dir, i * DIRENT_SIZE, DIRENT_SIZE));
      if NameIs(e, name) then Some(e) else LookupFrom(dir, n, i + 1, name)
  }

  /** lookup, as the loop it is. */
  method Lookup(dir: Bytes, count: nat, name: Bytes) returns (r: Option<DirEntry>)
    ensures r == LookupFrom(dir, Min(count, DIRENTS_PER_BLOCK), 0, name)
  {
    var n := Min(count, DIRENTS_PER_BLOCK);
    for i := 0 to n
      invariant LookupFrom(dir, n, 0, name) == LookupFrom(dir, n, i, name)
    {
      var off := i * DIRENT_SIZE;
      if off + DIRENT_SIZE > |dir| {
        return None;
      }
      var e := DecodeEntry(Slice(dir, off, DIRENT_SIZE));
      if NameIs(e, name) {
        return Some(e);
      }
    }
    return None;
  }

  /** A whole read by name: superblock, directory, extent. */
  function ReadFile(d: Bytes, name: Bytes): Option<Bytes> {
    match Block(d, 0)
    case None => None
    case Some(b0) =>
      match DecodeSuperblock(b0)
      case None => None
      case Some(sb) =>
        match Block(d, sb.dirBlock)
        case None => None
        case Some(dir) =>
          match LookupFrom(dir, Min(sb.dirEntries, DIRENTS_PER_BLOCK), 0, name)
          case None => None
          case Some(e) =>
            if e.startBlock * BLOCK_SIZE + e.byteLen <= |d| then Some(Slice(d, e.startBlock * BLOCK_SIZE, e.byteLen))
              else None
  }

  /** Entry i of a directory block is that of file i. */
  predicate DirOk(dir: Bytes, files: seq<File>, i: nat)
    requires i < |files|
  {
    && (i + 1) * DIRENT_SIZE <= |dir|
    && DecodeEntry(Slice(dir, i * DIRENT_SIZE, DIRENT_SIZE))
       == DirEntry(Padded(files[i].name), StartOf(files, i), |files[i].contents|)
  }

  /** In a directory of distinct sane names each name finds its own entry. */
  lemma {:induction false} LookupIs(dir: Bytes, files: seq<File>, i: nat, name: Bytes)
    requires SaneFiles(files) && i <= |files| && forall k :: 0 <= k < |files| ==> DirOk(dir, files, k)
    ensures (forall k :: i <= k < |files| ==> files[k].name != name) ==> LookupFrom(dir, |files|, i, name) == None
    ensures forall k :: i <= k < |files| && files[k].name == name ==>
      LookupFrom(dir, |files|, i, name) == Some(DirEntry(Padded(name), StartOf(files, k), |files[k].contents|))
    decreases |files| - i
  {
    hide NameIs, DecodeEntry, Slice, Padded, StartOf;
    if i < |files| {
      assert DirOk(dir, files, i);
      NameMatches(files[i].name, name, StartOf(files, i), |files[i].contents|);
      LookupIs(dir, files, i + 1, name);
    }
  }

  lemma DirIs(d: Bytes, files: seq<File>)
    requires FilesOk(d, files) && |files| <= DIRENTS_PER_BLOCK && |d| >= 2 * BLOCK_SIZE
    ensures forall i :: 0 <= i < |files| ==> DirOk(Slice(d, BLOCK_SIZE, BLOCK_SIZE), files, i)
  {
    hide DecodeEntry, Slice, Padded, StartOf;
    forall i | 0 <= i < |files| ensures DirOk(Slice(d, BLOCK_SIZE, BLOCK_SIZE), files, i) {
      SliceSlice(d, BLOCK_SIZE, BLOCK_SIZE, i * DIRENT_SIZE, DIRENT_SIZE);
      assert EntryOk(d, i, files[i], StartOf(files, i));
    }
  }

  /** Reading back gives exactly the files of the volume. */
  lemma ReadFileIs(d: Bytes, files: seq<File>, name: Bytes)
    requires IsVolume(d, files)
    ensures Fresh(files, name) ==> ReadFile(d, name) == None
    ensures forall k :: 0 <= k < |files| && files[k].name == name ==> ReadFile(d, name) == Some(files[k].contents)
  {
    hide LookupFrom, DecodeSuperblock, Slice, DirOk, EntryOk, Padded;
    DirIs(d, files);
    LookupIs(Slice(d, BLOCK_SIZE, BLOCK_SIZE), files, 0, name);
    assert TotalBlocks(files) >= 2;
    assert Block(d, 0) == Some(Slice(d, 0, BLOCK_SIZE))
      && Block(d, DIR_BLOCK) == Some(Slice(d, BLOCK_SIZE, BLOCK_SIZE));
    forall k | 0 <= k < |files| && files[k].name == name
      ensures ReadFile(d, name) == Some(files[k].contents)
    {
      assert DataOk(d, files[k], StartOf(files, k));
    }
  }
}
