/** The kernel's side of the block device: the request badge, the one-block read
    cache over the shared DMA page, and appending through them. */
module BlockCache {
  import opened Options
  import opened Bytes
  import opened Volume
  import opened Append

  const BLK_WRITE_FLAG: nat := 0x8000_0000
  const KB_HEAD_BLOCKS: nat := 2
  const FS_FILEBUF_LEN: nat := 4096

  // ---- the badge ----

  predicate HasWriteFlag(badge: nat) {
    badge / BLK_WRITE_FLAG % 2 == 1
  }

  function ReadBadge(n: nat): nat {
    n
  }

  /** n with the write flag set. */
  function WriteBadge(n: nat): nat {
    if HasWriteFlag(n) then n else n + BLK_WRITE_FLAG
  }

  /** The block a badge names: the flag cleared. */
  function BadgeBlock(badge: nat): nat {
    if HasWriteFlag(badge) then badge - BLK_WRITE_FLAG else badge
  }

  /** The server reads a request as it was meant exactly when the block number is
      below the flag; a read of a larger one is taken as a write. */
  lemma BadgeExact(n: nat)
    requires n < U32
    ensures HasWriteFlag(WriteBadge(n)) && (BadgeBlock(WriteBadge(n)) == n <==> n < BLK_WRITE_FLAG)
    ensures !HasWriteFlag(ReadBadge(n)) <==> n < BLK_WRITE_FLAG
  {
  }

  // ---- the device ----

  /** What becomes of a request: served, or failed, with the data page spoiled and
      a write perhaps done all the same. */
  datatype Fate = Works | Broken(done: bool, page: Bytes)

  datatype Response = Outcome(disk: Bytes, page: Bytes, ok: bool)

  /** The block server: one request on the disk and the data page. */
  function Serve(disk: Bytes, page: Bytes, badge: nat, fate: Fate): (r: Response)
    requires |page| == BLOCK_SIZE
    ensures |r.disk| == |disk| && |r.page| == BLOCK_SIZE
  {
    var n := BadgeBlock(badge);
    var there := (n + 1) * BLOCK_SIZE <= |disk|;
    match fate
    case Works =>
      if !there then Outcome(disk, page, false)
      else if HasWriteFlag(badge) then Outcome(WriteBlock(disk, n, page), page, true)
      else Outcome(disk, Slice(disk, n * BLOCK_SIZE, BLOCK_SIZE), true)
    case Broken(done, spoiled) =>
      if HasWriteFlag(badge) then Outcome(if done then WriteBlock(disk, n, page) else disk, page, false)
      else Outcome(disk, OneBlock(spoiled), false)
  }

  /** The superblock names only blocks below the write flag. */
  predicate Addressable(d: Bytes) {
    Block(d, 0).Some? && DecodeSuperblock(Block(d, 0).value).Some? ==>
      var sb := DecodeSuperblock(Block(d, 0).value).value;
      sb.dirBlock < BLK_WRITE_FLAG && sb.totalBlocks < BLK_WRITE_FLAG
  }

  lemma DecodedWords(b: Bytes)
    ensures DecodeSuperblock(b).Some? ==> Words(DecodeSuperblock(b).value)
  {
  }

  /** head is the first min(byteLen, 1024) bytes of the extent at startBlock. */
  predicate IsHead(d: Bytes, startBlock: nat, byteLen: nat, head: Bytes) {
    && |head| == Min(byteLen, KB_HEAD_BLOCKS * BLOCK_SIZE)
    && forall j :: 0 <= j < |head| ==> startBlock * BLOCK_SIZE + j < |d| && head[j] == d[startBlock * BLOCK_SIZE + j]
  }

  /** What fs_read_extent_head makes of the disk: up to two blocks, None when one
      of them is outside the device. */
  function ExtentHead(d: Bytes, startBlock: nat, byteLen: nat): Option<Bytes> {
    var n := Min(BlockCount(byteLen), KB_HEAD_BLOCKS);
    if n == 0 then Some([])
    else if (startBlock + n) * BLOCK_SIZE > |d| then None
    else Some(Slice(d, startBlock * BLOCK_SIZE, Min(byteLen, n * BLOCK_SIZE)))
  }

  lemma HeadFits(byteLen: nat)
    requires byteLen < U32
    ensures var n := Min(BlockCount(byteLen), KB_HEAD_BLOCKS);
            Min(Min(byteLen, n * BLOCK_SIZE), FS_FILEBUF_LEN) == Min(byteLen, n * BLOCK_SIZE)
  {
  }

  /** That is the first min(byteLen, 1024) bytes of an extent in the device,
      exactly while block_count does not overflow; past that it is nothing. */
  lemma ExtentHeadIs(d: Bytes, startBlock: nat, byteLen: nat)
    requires byteLen < U32 && (startBlock + Ceil(byteLen)) * BLOCK_SIZE <= |d|
    ensures byteLen <= U32 - BLOCK_SIZE ==>
      ExtentHead(d, startBlock, byteLen).Some?
        && IsHead(d, startBlock, byteLen, ExtentHead(d, startBlock, byteLen).value)
    ensures byteLen > U32 - BLOCK_SIZE ==> ExtentHead(d, startBlock, byteLen) == Some([])
  {
    BlockCountExact(byteLen);
    CeilCovers(byteLen);
  }

  lemma CeilCovers(n: nat)
    ensures Min(n, Min(Ceil(n), KB_HEAD_BLOCKS) * BLOCK_SIZE) == Min(n, KB_HEAD_BLOCKS * BLOCK_SIZE)
  {
  }

  lemma BlockIs(d: Bytes, n: nat)
    ensures Block(d, n).Some? ==> (n + 1) * BLOCK_SIZE <= |d| && forall j :: 0 <= j < BLOCK_SIZE ==>
      Block(d, n).value[j] == d[n * BLOCK_SIZE + j]
  {
  }

  /** A read of a block numbered past the flag overwrites another block with
      whatever the data page held. */
  lemma ReadTakenAsWrite(disk: Bytes, page: Bytes, n: nat)
    requires |page| == BLOCK_SIZE && BLK_WRITE_FLAG <= n < U32
    ensures Serve(disk, page, ReadBadge(n), Works).disk == WriteBlock(disk, n - BLK_WRITE_FLAG, page)
  {
    BadgeExact(n);
  }

  class FileSystem {
    const device: nat -> Fate  // what becomes of the i-th request
    var disk: Bytes
    var requests: nat
    var page: Bytes            // the DMA data page
    const fileBuf: array<Byte> // FS_FILEBUF
    var cachedBlock: int       // the block it holds, or -1
    ghost var faults: nat      // requests the device failed

    /** The page agrees with the disk whenever the cache says so. */
    ghost predicate Valid()
      reads this
    {
      && |page| == BLOCK_SIZE && |disk| <= MAX_BLOCKS * BLOCK_SIZE && cachedBlock >= -1
      && (cachedBlock >= 0 ==>
            (cachedBlock + 1) * BLOCK_SIZE <= |disk| && page == Slice(disk, cachedBlock * BLOCK_SIZE, BLOCK_SIZE))
    }

    constructor (disk: Bytes, device: nat -> Fate)
      requires |disk| <= MAX_BLOCKS * BLOCK_SIZE
      ensures Valid() && this.disk == disk && this.device == device && faults == 0 && fileBuf.Length == FS_FILEBUF_LEN
      ensures fresh(fileBuf)
    {
      this.disk, this.device, requests := disk, device, 0;
      page := Zeros(BLOCK_SIZE);
      fileBuf := new Byte[FS_FILEBUF_LEN];
      cachedBlock := -1;
      faults := 0;
    }

    /** One round trip to the block server; the device may fail it. */
    method CallServer(badge: nat) returns (ok: bool)
      requires |page| == BLOCK_SIZE
      modifies this`disk, this`page, this`requests, this`faults
      ensures |page| == BLOCK_SIZE && old(faults) <= faults
      ensures Outcome(disk, page, ok) == Serve(old(disk), old(page), badge, device(old(requests)))
      ensures faults == old(faults) <==> device(old(requests)) == Works
    {
      var r := Serve(disk, page, badge, device(requests));
      if device(requests) != Works {
        faults := faults + 1;
      }
      requests := requests + 1;
      disk, page, ok := r.disk, r.page, r.ok;
    }

    /** A successful read gives the block as it is on the disk; without faults a
        read fails only outside the device. */
    method ReadBlock(n: nat) returns (r: Option<Bytes>)
      requires Valid() && n < BLK_WRITE_FLAG
      modifies this
      ensures Valid() && disk == old(disk) && old(faults) <= faults
      ensures r.Some? ==> r == Block(disk, n)
      ensures r.None? && faults == old(faults) ==> Block(disk, n).None?
    {
      if cachedBlock != n {
        BadgeExact(n);
        var ok := CallServer(ReadBadge(n));
        if !ok {
          cachedBlock := -1;
          return None;
        }
        cachedBlock := n;
      }
      return Some(page);
    }

    /** A write replaces one block or, failing, may leave the old one. */
    method WriteBlockTo(n: nat, bytes: Bytes) returns (ok: bool)
      requires Valid() && n < BLK_WRITE_FLAG
      modifies this
      ensures Valid() && old(faults) <= faults
      ensures disk == WriteBlock(old(disk), n, bytes) || (disk == old(disk) && !ok)
      ensures (n + 1) * BLOCK_SIZE > |disk| ==> disk == old(disk) && !ok
      ensures faults == old(faults) ==> (ok <==> (n + 1) * BLOCK_SIZE <= |disk|)
    {
      page := OneBlock(bytes);
      cachedBlock := -1;
      BadgeExact(n);
      ok := CallServer(WriteBadge(n));
      assert OneBlock(OneBlock(bytes)) == OneBlock(bytes);
    }

    /** fs_append_file: some number of the append's writes reach the disk, all
        three when it reports success; without faults it succeeds exactly when
        the plan is accepted and the device has the blocks. */
    method AppendFile(name: Bytes, contents: Bytes) returns (r: Option<nat>)
      requires Valid() && Addressable(disk)
      modifies this
      ensures Valid() && old(faults) <= faults
      ensures exists k: nat :: k <= 3 && disk == AppendUpTo(old(disk), name, contents, k) && (r.Some? ==> k == 3)
      ensures r.Some? ==>
        PlanOn(old(disk), name, contents).Some? && r.value == PlanOn(old(disk), name, contents).value.startBlock
      ensures faults == old(faults) ==>
        var plan := PlanOn(old(disk), name, contents);
        r.Some? <==> plan.Some? && (plan.value.startBlock + 1) * BLOCK_SIZE <= |disk|
    {
      hide DecodeSuperblock, WriteBlock, SuperblockBytes, Slice, Put, EntryBytes, Padded;
      ghost var d := disk;
      assert d == AppendUpTo(d, name, contents, 0);
      if |contents| > BLOCK_SIZE {
        return None;
      }
      var sbBlock := ReadBlock(0);
      if sbBlock.None? {
        return None;
      }
      var sb := DecodeSuperblock(sbBlock.value);
      if sb.None? {
        return None;
      }
      var dir := ReadBlock(sb.value.dirBlock);
      if dir.None? {
        return None;
      }
      DecodedWords(sbBlock.value);
      var plan := AppendPlan(sb.value, dir.value, name, |contents|);
      if plan.None? {
        return None;
      }
      r := Write3(d, name, contents, plan.value);
    }

    /** The three writes, in the order that makes the last one the commit. */
    method Write3(ghost d: Bytes, name: Bytes, contents: Bytes, plan: Plan) returns (r: Option<nat>)
      requires Valid() && d == disk && PlanOn(d, name, contents) == Some(plan) && plan.startBlock < BLK_WRITE_FLAG
      requires plan.newSuperblock.dirBlock < BLK_WRITE_FLAG && (plan.newSuperblock.dirBlock + 1) * BLOCK_SIZE <= |d|
      modifies this
      ensures Valid() && old(faults) <= faults
      ensures exists k: nat :: k <= 3 && disk == AppendUpTo(d, name, contents, k) && (r.Some? ==> k == 3)
      ensures r.Some? ==> r.value == plan.startBlock
      ensures faults == old(faults) ==> (r.Some? <==> (plan.startBlock + 1) * BLOCK_SIZE <= |disk|)
    {
      hide PlanOn, WriteBlock, SuperblockBytes, Slice, Put;
      assert d == AppendUpTo(d, name, contents, 0);
      var ok := WriteBlockTo(plan.startBlock, contents);
      ghost var d1 := WriteBlock(d, plan.startBlock, contents);
      assert ok ==> d1 == AppendUpTo(d, name, contents, 1);
      assert disk == AppendUpTo(d, name, contents, 0) || disk == AppendUpTo(d, name, contents, 1);
      if !ok {
        return None;
      }
      ok := WriteBlockTo(plan.newSuperblock.dirBlock, plan.dirBlock);
      ghost var d2 := WriteBlock(d1, plan.newSuperblock.dirBlock, plan.dirBlock);
      assert d2 == AppendUpTo(d, name, contents, 2);
      if !ok {
        return None;
      }
      ok := WriteBlockTo(0, SuperblockBytes(plan.newSuperblock));
      assert WriteBlock(d2, 0, SuperblockBytes(plan.newSuperblock)) == AppendUpTo(d, name, contents, 3);
      return if ok then Some(plan.startBlock) else None;
    }

    /** fs_read_extent_head: the head of the extent, by way of the file buffer. */
    method ReadExtentHead(startBlock: nat, byteLen: nat) returns (r: Option<Bytes>)
      requires Valid() && fileBuf.Length == FS_FILEBUF_LEN && byteLen < U32
      requires startBlock + Min(BlockCount(byteLen), KB_HEAD_BLOCKS) <= BLK_WRITE_FLAG
      modifies this, fileBuf
      ensures Valid() && disk == old(disk) && old(faults) <= faults
      ensures r.Some? ==> r == ExtentHead(disk, startBlock, byteLen)
      ensures r.None? && faults == old(faults) ==> ExtentHead(disk, startBlock, byteLen).None?
    {
      var nblocks := Min(BlockCount(byteLen), KB_HEAD_BLOCKS);
      var len := Min(Min(byteLen, nblocks * BLOCK_SIZE), FS_FILEBUF_LEN);
      for i := 0 to nblocks
        invariant Valid() && disk == old(disk) && old(faults) <= faults
        invariant (startBlock + i) * BLOCK_SIZE <= |disk| || i == 0
        invariant forall j :: 0 <= j < i * BLOCK_SIZE && j < len ==>
          startBlock * BLOCK_SIZE + j < |disk| && fileBuf[j] == disk[startBlock * BLOCK_SIZE + j]
      {
        var blk := ReadBlock(startBlock + i);
        if blk.None? {
          return None;
        }
        var off := i * BLOCK_SIZE;
        var take := Min(BLOCK_SIZE, len - off);
        BlockIs(disk, startBlock + i);
        forall j | 0 <= j < take {
          fileBuf[off + j] := blk.value[j];
        }
      }
      HeadFits(byteLen);
      assert nblocks > 0 ==> fileBuf[..len] == Slice(disk, startBlock * BLOCK_SIZE, len);
      return Some(fileBuf[..len]);
    }
  }
}
