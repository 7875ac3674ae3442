/** Whole address spaces: the master kernel table, one private tree for every
    user component, and what the hardware lets each of them reach. */
module Spaces {
  import opened Options
  import opened Paging
  import Frames
  import M = Mmu

  const RXG: nat := PTE_R + PTE_X + PTE_G
  const RG: nat := PTE_R + PTE_G
  const RWG: nat := PTE_R + PTE_W + PTE_G
  const RXU: nat := PTE_R + PTE_X + PTE_U
  const RWU: nat := PTE_R + PTE_W + PTE_U
  const RU: nat := PTE_R + PTE_U

  /** A half-open range of addresses mapped to itself with flags. */
  datatype Region = Region(start: nat, end: nat, flags: nat)

  datatype Range = Range(start: nat, end: nat)

  /** The linker symbols. */
  datatype Layout = Layout(text: Range, rodata: Range, data: Range, stack: Range, userText: Range, kernelEnd: nat)

  /** The page of v is one of the pages of the range. */
  predicate Within(r: Range, v: nat) {
    r.start <= M.PageOf(v) < r.end
  }

  predicate In(r: Region, v: nat) {
    r.start <= M.PageOf(v) < r.end
  }

  function Shown(r: Range, flags: nat): Region {
    Region(r.start, r.end, flags)
  }

  /** What map_kernel_sections maps; a device base of 0 means none. */
  function KernelRegions(l: Layout, uart: nat, plic: nat): seq<Region> {
    [Shown(l.text, RXG), Shown(l.rodata, RG), Shown(l.data, RWG), Shown(l.stack, RWG)]
    + (if uart != 0 then [Region(uart, uart + PAGE_SIZE, RWG)] else [])
    + (if plic != 0 then [Region(plic, plic + 0x3000, RWG), Region(plic + 0x20_1000, plic + 0x20_2000, RWG)] else [])
  }

  function UserRegions(l: Layout, stack: Range, device: Range): seq<Region> {
    [Shown(l.userText, RXU), Shown(stack, RWU), Shown(device, RU)]
  }

  function VirtioRegions(l: Layout, stack: Range, mmio: Range, dma: Range): seq<Region> {
    [Shown(l.userText, RXU), Shown(stack, RWU), Shown(mmio, RWU), Shown(dma, RWU)]
  }

  function MasterRegions(l: Layout, ramEnd: nat): seq<Region> {
    [Region(l.kernelEnd, ramEnd, RWG)]
  }

  /** What a space is for: the kernel's own, a component's, or a virtio driver's. */
  datatype Kind = Master(ramEnd: nat) | User(stack: Range, device: Range) | Virtio(stack: Range, mmio: Range,
                                                                                   dma: Range)

  function KindRegions(l: Layout, kind: Kind): seq<Region> {
    match kind
    case Master(ramEnd) => MasterRegions(l, ramEnd)
    case User(stack, device) => UserRegions(l, stack, device)
    case Virtio(stack, mmio, dma) => VirtioRegions(l, stack, mmio, dma)
  }

  // ---- region lists ----

  /** The leaf entry that mapping the regions in turn leaves at v. */
  function RegionEntry(rs: seq<Region>, v: nat): nat {
    if |rs| == 0 then 0
    else if In(rs[|rs| - 1], v) then M.LeafPte(M.PageOf(v), rs[|rs| - 1].flags)
    else RegionEntry(rs[..|rs| - 1], v)
  }

  predicate Overlap(a: Region, b: Region, v: nat) {
    v < VA_LIMIT && In(a, v) && In(b, v)
  }

  /** Non-empty regions start on a page, and no page is in two of them. */
  ghost predicate Sound(rs: seq<Region>) {
    && (forall k :: 0 <= k < |rs| ==> rs[k].start >= rs[k].end || rs[k].start % PAGE_SIZE == 0)
    && (forall j, k, v: nat :: 0 <= j < k < |rs| ==> !Overlap(rs[j], rs[k], v))
  }

  predicate Flagged(rs: seq<Region>) {
    forall k :: 0 <= k < |rs| ==> rs[k].flags < FLAG_SPACE && M.LegalLeaf(rs[k].flags)
  }

  /** The space at root maps exactly these regions. */
  ghost predicate Describes(tables: Tables, level: map<nat, nat>, root: nat, rs: seq<Region>) {
    && Flagged(rs)
    && forall v: nat :: v < VA_LIMIT ==> Entry(tables, level, root, v) == RegionEntry(rs, v)
  }

  /** An address in no region has no entry; one in a region of a sound list has
      the entry of that region. */
  lemma {:induction false} RegionEntryIs(rs: seq<Region>, v: nat)
    requires Flagged(rs)
    ensures (forall k :: 0 <= k < |rs| ==> !In(rs[k], v)) ==> RegionEntry(rs, v) == 0
    ensures (exists k :: 0 <= k < |rs| && In(rs[k], v)) ==> PteIsValid(RegionEntry(rs, v))
    ensures Sound(rs) && v < VA_LIMIT ==>
      forall k :: 0 <= k < |rs| && In(rs[k], v) ==> RegionEntry(rs, v) == M.LeafPte(M.PageOf(v), rs[k].flags)
  {
    hide M.LeafPte, PteIsValid, M.LegalLeaf, In, M.PageOf;
    if |rs| > 0 {
      var n := |rs| - 1;
      var rs' := rs[..n];
      RegionEntryIs(rs', v);
      M.LeafPteValid(M.PageOf(v), rs[n].flags);
      if Sound(rs) && v < VA_LIMIT && In(rs[n], v) {
        forall k | 0 <= k < n ensures !In(rs[k], v) { assert !Overlap(rs[k], rs[n], v); }
      }
      if forall k :: 0 <= k < |rs| ==> !In(rs[k], v) {
        forall k | 0 <= k < n ensures !In(rs'[k], v) { assert rs'[k] == rs[k]; }
      }
      if k :| 0 <= k < |rs| && In(rs[k], v) {
        if k < n { assert In(rs'[k], v); }
      }
      if Sound(rs) && !In(rs[n], v) && v < VA_LIMIT {
        SoundPrefix(rs, n);
        forall k | 0 <= k < |rs| && In(rs[k], v) ensures RegionEntry(rs, v) == M.LeafPte(M.PageOf(v), rs[k].flags) {
          assert rs'[k] == rs[k];
        }
      }
    }
  }

  lemma SoundPrefix(rs: seq<Region>, n: nat)
    requires Sound(rs) && n <= |rs|
    ensures Sound(rs[..n])
  {
  }

  /** Adding a region keeps a list sound exactly when it starts on a page, or is
      empty, and none of its pages is mapped. */
  lemma SoundMore(tables: Tables, level: map<nat, nat>, root: nat, rs: seq<Region>, r: Region)
    requires Describes(tables, level, root, rs) && Sound(rs)
    ensures Sound(rs + [r]) <==>
      (r.start >= r.end || r.start % PAGE_SIZE == 0) && M.Unused(tables, level, root, r.start, r.end)
  {
    hide Entry, PteIsValid, M.LegalLeaf, M.PageOf, RegionEntry;
    var rs' := rs + [r];
    var n := |rs|;
    ZeroLeaf();
    if Sound(rs') {
      assert rs'[n] == r;
      forall v: nat | v < VA_LIMIT && In(r, v) ensures !PteIsValid(Entry(tables, level, root, v)) {
        RegionEntryIs(rs, v);
        forall k | 0 <= k < n ensures !In(rs[k], v) { assert !Overlap(rs'[k], rs'[n], v); }
      }
    }
    if (r.start >= r.end || r.start % PAGE_SIZE == 0) && M.Unused(tables, level, root, r.start, r.end) {
      forall j, k, v: nat | 0 <= j < k < |rs'| ensures !Overlap(rs'[j], rs'[k], v) {
        if k < n {
          assert !Overlap(rs[j], rs[k], v);
        } else if Overlap(rs[j], r, v) {
          RegionEntryIs(rs, v);
        }
      }
    }
  }

  /** Mapping a range appends a region to the space at root and leaves the other
      spaces alone. */
  lemma DescribesMore(tables: Tables, level: map<nat, nat>, tables': Tables, level': map<nat, nat>, root: nat,
                      r: Region,
                      x: nat, rs: seq<Region>)
    requires M.Mapped(tables, level, tables', level', root, r.start, r.end, r.flags)
    requires r.flags < FLAG_SPACE && M.LegalLeaf(r.flags)
    requires x in level && level[x] == 2 && Describes(tables, level, x, rs)
    ensures Describes(tables', level', x, if x == root then rs + [r] else rs)
  {
    hide Entry, M.LeafPte, M.LegalLeaf, M.PageOf;
    assert (rs + [r])[..|rs|] == rs;
  }

  // ---- what the hardware lets a component do ----

  predicate Reaches(t: Option<Translation>, f: nat)
    requires f > 0
  {
    t.Some? && HasFlag(t.value.flags, f)
  }

  /** The permissions and the global bit agree. */
  predicate SameRights(x: nat, y: nat) {
    M.SamePermissions(x, y) && HasFlag(x, PTE_G) == HasFlag(y, PTE_G)
  }

  /** The hardware walk of a described space: each page of a region translates to
      itself with that region's permissions, every other page faults. */
  lemma SpaceWalk(tables: Tables, level: map<nat, nat>, root: nat, rs: seq<Region>, v: nat)
    requires Forest(tables, level) && root in tables && level[root] == 2 && v < VA_LIMIT
    requires Describes(tables, level, root, rs) && Sound(rs)
    ensures (forall k :: 0 <= k < |rs| ==> !In(rs[k], v)) ==> Walk(tables, root, v) == None
    ensures forall k :: 0 <= k < |rs| && In(rs[k], v) ==>
      Walk(tables, root, v).Some? && Walk(tables, root, v).value.pa == M.PageOf(v)
      && SameRights(Walk(tables, root, v).value.flags, rs[k].flags)
  {
    hide Walk, Entry, M.LeafPte, M.LegalLeaf, M.PageOf, In, Leaf, PteIsValid, SameRights;
    WalkIsEntry(tables, level, root, v);
    RegionEntryIs(rs, v);
    ZeroLeaf();
    forall k | 0 <= k < |rs| && In(rs[k], v)
      ensures Walk(tables, root, v).Some? && Walk(tables, root, v).value.pa == M.PageOf(v)
      ensures SameRights(Walk(tables, root, v).value.flags, rs[k].flags)
    {
      PageLimit(v);
      LeafShows(M.PageOf(v), rs[k].flags);
    }
  }

  lemma PageLimit(v: nat)
    requires v < VA_LIMIT
    ensures M.PageOf(v) % PAGE_SIZE == 0 && M.PageOf(v) < PA_LIMIT
  {
  }

  lemma LeafShows(pa: nat, flags: nat)
    requires pa % PAGE_SIZE == 0 && pa < PA_LIMIT && flags < FLAG_SPACE && M.LegalLeaf(flags)
    ensures Leaf(M.LeafPte(pa, flags)).Some? && Leaf(M.LeafPte(pa, flags)).value.pa == pa
    ensures SameRights(Leaf(M.LeafPte(pa, flags)).value.flags, flags)
  {
    hide Leaf, M.LeafPte, M.LegalLeaf, HasFlag, M.LeafFlags, WithFlag;
    M.LeafWalk(pa, flags);
    M.LeafBits(flags);
  }

  /** Some region of the list shows the page of v with flag f. */
  predicate Shows(rs: seq<Region>, v: nat, f: nat)
    requires f > 0
  {
    exists k :: 0 <= k < |rs| && In(rs[k], v) && HasFlag(rs[k].flags, f)
  }

  predicate IsRight(f: nat) {
    f == PTE_R || f == PTE_W || f == PTE_X || f == PTE_U || f == PTE_G
  }

  /** A page has a right exactly when a region that has it holds the page. */
  lemma RightSpace(tables: Tables, level: map<nat, nat>, root: nat, rs: seq<Region>, v: nat, f: nat)
    requires Forest(tables, level) && root in tables && level[root] == 2 && v < VA_LIMIT
    requires Describes(tables, level, root, rs) && Sound(rs) && IsRight(f)
    ensures Reaches(Walk(tables, root, v), f) <==> Shows(rs, v, f)
    ensures Reaches(Walk(tables, root, v), f) ==> Walk(tables, root, v).value.pa == M.PageOf(v)
  {
    hide Walk, Forest, Describes, Sound, HasFlag, In;
    SpaceWalk(tables, level, root, rs, v);
    if k :| 0 <= k < |rs| && In(rs[k], v) {
      assert SameRights(Walk(tables, root, v).value.flags, rs[k].flags);
    }
  }

  // ---- all spaces together ----

  /** Every space listed is a root that maps exactly its regions, which do not
      overlap. */
  ghost predicate Described(tables: Tables, level: map<nat, nat>, spaces: map<nat, seq<Region>>) {
    forall x :: x in spaces ==>
      x in tables && x in level && level[x] == 2 && Describes(tables, level, x, spaces[x]) && Sound(spaces[x])
  }

  lemma DescribedMore(tables: Tables, level: map<nat, nat>, tables': Tables, level': map<nat, nat>,
                      spaces: map<nat, seq<Region>>, root: nat, r: Region)
    requires Described(tables, level, spaces) && root in spaces && r.flags < FLAG_SPACE && M.LegalLeaf(r.flags)
    requires Extends(level, level') && tables.Keys <= tables'.Keys
    requires M.Mapped(tables, level, tables', level', root, r.start, r.end, r.flags)
    requires M.Unused(tables, level, root, r.start, r.end) && (r.start >= r.end || r.start % PAGE_SIZE == 0)
    ensures Described(tables', level', spaces[root := spaces[root] + [r]])
  {
    hide Describes, Sound, M.Mapped, M.Unused;
    SoundMore(tables, level, root, spaces[root], r);
    forall x | x in spaces ensures Describes(tables', level', x, if x == root then spaces[x] + [r] else spaces[x]) {
      DescribesMore(tables, level, tables', level', root, r, x, spaces[x]);
    }
  }

  lemma DescribedNew(tables: Tables, level: map<nat, nat>, tables': Tables, level': map<nat, nat>,
                     spaces: map<nat, seq<Region>>, root: nat)
    requires Described(tables, level, spaces) && root !in tables
    requires root in tables' && root in level' && level'[root] == 2 && EmptySpace(tables', level', root)
    requires Extends(level, level') && tables.Keys <= tables'.Keys && SameEntries(tables, level, tables', level')
    ensures root !in spaces && Described(tables', level', spaces[root := []])
  {
    hide Entry;
  }

  lemma DescribedSame(tables: Tables, level: map<nat, nat>, tables': Tables, level': map<nat, nat>, spaces: map<nat,
                      seq<Region>>)
    requires Described(tables, level, spaces)
    requires Extends(level, level') && tables.Keys <= tables'.Keys && SameEntries(tables, level, tables', level')
    ensures Described(tables', level', spaces)
  {
    hide Entry;
  }

  datatype Built = Ok(satp: nat) | Failed(why: M.Mapping)

  /** The root a satp value points at. */
  function RootOf(satp: nat): nat {
    satp % PPN_SPACE * PAGE_SIZE
  }

  /** The outcome of mapping rs in a new space: success means they are sound, and
      a remap or an unaligned page means they are not. */
  ghost predicate Judged(why: M.Mapping, rs: seq<Region>) {
    && (why == M.Done ==> Sound(rs))
    && (why == M.Remap || why == M.Unaligned ==> !Sound(rs))
  }

  lemma JudgedPrefix(why: M.Mapping, n: nat, plan: seq<Region>)
    requires n <= |plan| && Judged(why, plan[..n]) && why != M.Done
    ensures Judged(why, plan)
  {
    if Sound(plan) {
      SoundPrefix(plan, n);
    }
  }

  lemma RootDescribed(tables: Tables, level: map<nat, nat>, spaces: map<nat, seq<Region>>, root: nat)
    requires Described(tables, level, spaces) && root in spaces
    ensures root in tables && root in level && level[root] == 2 && Describes(tables, level, root, spaces[root])
    ensures Sound(spaces[root])
  {
  }

  predicate Fits(rs: seq<Region>) {
    forall k :: 0 <= k < |rs| ==> rs[k].end <= VA_LIMIT
  }

  lemma JudgedOut(plan: seq<Region>)
    ensures Judged(M.OutOfFrames, plan)
  {
  }

  /** The space at root holds the first n regions of the plan; the others are
      as in spaces0. */
  ghost predicate Progress(spaces0: map<nat, seq<Region>>, spaces: map<nat, seq<Region>>, root: nat, plan: seq<Region>,
                           n: nat) {
    n <= |plan| && spaces == spaces0[root := plan[..n]]
  }

  lemma ProgressMore(spaces0: map<nat, seq<Region>>, spaces: map<nat, seq<Region>>, root: nat, plan: seq<Region>,
                     n: nat)
    requires Progress(spaces0, spaces, root, plan, n) && n < |plan|
    ensures root in spaces && spaces[root] == plan[..n] && plan[..n + 1] == plan[..n] + [plan[n]]
    ensures Progress(spaces0, spaces[root := plan[..n + 1]], root, plan, n + 1)
  {
  }

  lemma ProgressDone(spaces0: map<nat, seq<Region>>, spaces: map<nat, seq<Region>>, root: nat, plan: seq<Region>)
    ensures Progress(spaces0, spaces0[root := []], root, plan, 0)
    ensures Progress(spaces0, spaces, root, plan, |plan|) ==> spaces == spaces0[root := plan]
  {
    assert plan[..|plan|] == plan;
  }

  /** The plan starts with the kernel's regions. */
  predicate StartsWithKernel(l: Layout, uart: nat, plic: nat, plan: seq<Region>) {
    KernelRegions(l, uart, plic) <= plan
  }

  lemma ImagePlan(l: Layout, uart: nat, plic: nat, plan: seq<Region>)
    requires StartsWithKernel(l, uart, plic, plan)
    ensures |plan| >= 4
    ensures plan[0] == Shown(l.text, RXG) && plan[1] == Shown(l.rodata, RG) && plan[2] == Shown(l.data, RWG)
    ensures plan[3] == Shown(l.stack, RWG)
  {
  }

  lemma DevicePlan(l: Layout, uart: nat, plic: nat, plan: seq<Region>)
    requires StartsWithKernel(l, uart, plic, plan)
    ensures |plan| >= |KernelRegions(l, uart, plic)| == 4 + (if uart != 0 then 1 else 0) + (if plic != 0 then 2 else 0)
    ensures uart != 0 ==> plan[4] == Shown(Range(uart, uart + PAGE_SIZE), RWG)
    ensures plic != 0 ==>
      var n := if uart != 0 then 5 else 4;
      && plan[n] == Shown(Range(plic, plic + 0x3000), RWG)
      && plan[n + 1] == Shown(Range(plic + 0x20_1000, plic + 0x20_2000), RWG)
  {
  }

  /** The flags in use are legal permissions. */
  lemma PlainFlags()
    ensures M.LegalLeaf(RXG) && M.LegalLeaf(RG) && M.LegalLeaf(RWG) && M.LegalLeaf(RXU) && M.LegalLeaf(RWU)
    ensures M.LegalLeaf(RU)
  {
  }

  lemma FitsLast(rs: seq<Region>, r: Region)
    requires Fits(rs + [r])
    ensures r.end <= VA_LIMIT
  {
    assert (rs + [r])[|rs|] == r;
  }

  /** The frames from base are the allocator's. */
  predicate Managed(base: nat, count: nat, a: nat) {
    base * PAGE_SIZE <= a < (base + count) * PAGE_SIZE
  }

  /** The region is outside the allocator's memory, as linker sections and device
      registers are, or one loose frame. */
  ghost predicate Private(base: nat, count: nat, loose: set<nat>, r: Region) {
    || (forall v: nat :: In(r, v) ==> !Managed(base, count, M.PageOf(v)))
    || (r.start in loose && r.end == r.start + PAGE_SIZE && r.start % PAGE_SIZE == 0)
  }

  ghost predicate AllPrivate(base: nat, count: nat, loose: set<nat>, rs: seq<Region>) {
    forall k :: 0 <= k < |rs| && HasFlag(rs[k].flags, PTE_U) ==> Private(base, count, loose, rs[k])
  }

  /** The kernel's regions are not open to user mode, so only the others need be
      private; and what is private stays so when more frames are handed out. */
  lemma PrivateSpace(l: Layout, uart: nat, plic: nat, base: nat, count: nat, loose: set<nat>, loose': set<nat>,
                     rs: seq<Region>)
    requires AllPrivate(base, count, loose, rs) && loose <= loose'
    ensures AllPrivate(base, count, loose', rs) && AllPrivate(base, count, loose', KernelRegions(l, uart, plic) + rs)
  {
    hide In, Managed;
    KernelClosed(l, uart, plic);
    var k := KernelRegions(l, uart, plic);
    hide HasFlag, KernelRegions, Private;
    forall i | 0 <= i < |rs| && HasFlag(rs[i].flags, PTE_U) ensures Private(base, count, loose', rs[i]) {
      PrivateMore(base, count, loose, loose', rs[i]);
    }
    forall i | 0 <= i < |k + rs| && HasFlag((k + rs)[i].flags, PTE_U)
      ensures Private(base, count, loose', (k + rs)[i])
    {
      assert i >= |k|;
      assert (k + rs)[i] == rs[i - |k|];
    }
  }

  lemma MasterPrivate(l: Layout, base: nat, count: nat, ramEnd: nat)
    ensures AllPrivate(base, count, {}, MasterRegions(l, ramEnd))
  {
  }

  lemma PrivateMore(base: nat, count: nat, loose: set<nat>, loose': set<nat>, r: Region)
    requires Private(base, count, loose, r) && loose <= loose'
    ensures Private(base, count, loose', r)
  {
    hide In, Managed;
  }

  lemma KernelClosed(l: Layout, uart: nat, plic: nat)
    ensures forall i :: 0 <= i < |KernelRegions(l, uart, plic)| ==>
      !HasFlag(KernelRegions(l, uart, plic)[i].flags, PTE_U)
  {
  }

  lemma HeldIsManaged(base: nat, count: nat, s: set<nat>, a: nat)
    requires Frames.Holds(base, count, s, a)
    ensures Managed(base, count, a)
  {
    assert a == a / PAGE_SIZE * PAGE_SIZE;
  }

  class AddressSpaces {
    const layout: Layout
    const mmu: M.Mmu
    var kernelSatp: nat
    var uartBase: nat
    var plicBase: nat
    ghost var spaces: map<nat, seq<Region>>
    ghost var kinds: map<nat, Kind>

    ghost predicate Valid()
      reads this, mmu, mmu.frames, mmu.frames.bitmap
    {
      mmu.Valid() && Described(mmu.tables, mmu.level, spaces)
    }

    /** Frames handed out that are not page tables, such as DMA pages. */
    ghost function Loose(): set<nat>
      reads mmu
    {
      mmu.owned - mmu.tables.Keys
    }

    /** Every space is the kernel and the regions of its kind. */
    ghost predicate Complete()
      reads this
    {
      && kinds.Keys == spaces.Keys
      && forall x :: x in spaces ==>
           spaces[x] == KernelRegions(layout, uartBase, plicBase) + KindRegions(layout, kinds[x])
    }

    /** Every region open to user mode is outside the allocator's memory, or one
        loose frame. */
    ghost predicate Fenced()
      reads this, mmu, mmu.frames
    {
      forall x :: x in spaces ==> AllPrivate(mmu.frames.base, mmu.frames.count, Loose(), spaces[x])
    }

    /** Page tables lie in the allocator's memory and are no loose frame. */
    lemma TablesFenced()
      requires Valid()
      ensures forall t :: t in mmu.tables ==> Managed(mmu.frames.base, mmu.frames.count, t) && t !in Loose()
    {
      hide Frames.Holds, Frames.SetBits, Forest, Described, Managed;
      forall t | t in mmu.tables ensures Managed(mmu.frames.base, mmu.frames.count, t) {
        HeldIsManaged(mmu.frames.base, mmu.frames.count, mmu.frames.Allocated(), t);
      }
    }

    constructor (layout: Layout, frames: Frames.BitmapAllocator)
      requires frames.Valid() && (frames.base + frames.count) * PAGE_SIZE <= PA_LIMIT
      ensures this.layout == layout && mmu.frames == frames && fresh(mmu) && Valid()
      ensures mmu.tables == map[] && mmu.owned == {} && spaces == map[] && kinds == map[]
    {
      this.layout := layout;
      mmu := new M.Mmu(frames);
      kernelSatp, uartBase, plicBase, spaces, kinds := 0, 0, 0, map[], map[];
    }

    /** Add region n of a plan to the space at root. A failure passes its
        judgement to the whole plan. */
    method MapRange(root: nat, range: Range, flags: nat, ghost others: map<nat, seq<Region>>, ghost plan: seq<Region>,
                    ghost n: nat)
      returns (r: M.Mapping)
      requires Valid() && Progress(others, spaces, root, plan, n) && Fits(plan)
      requires n < |plan| && plan[n] == Shown(range, flags) && flags < FLAG_SPACE && M.LegalLeaf(flags)
      modifies this`spaces, mmu, mmu.frames`free, mmu.frames.bitmap
      ensures r == M.Done ==> Valid() && Progress(others, spaces, root, plan, n + 1)
      ensures r != M.Done ==> Judged(r, plan)
      ensures old(Loose()) <= Loose()
    {
      hide Described, Forest, Progress, M.Mapped, M.Unused, Extends, M.LegalLeaf, Sound, Describes, Frames.SetBits,
        Frames.Holds;
      ProgressMore(others, spaces, root, plan, n);
      ghost var tables, level, region := mmu.tables, mmu.level, Shown(range, flags);
      RootDescribed(tables, level, spaces, root);
      SoundMore(tables, level, root, spaces[root], region);
      r := mmu.MapRange(root, range.start, range.end, flags);
      if r == M.Done {
        DescribedMore(tables, level, mmu.tables, mmu.level, spaces, root, region);
        spaces := spaces[root := plan[..n + 1]];
      } else {
        JudgedPrefix(r, n + 1, plan);
      }
    }

    /** map_kernel_sections: the image, the console page and the interrupt
        controller, in every space. */
    method MapKernelSections(root: nat, ghost others: map<nat, seq<Region>>,
                             ghost plan: seq<Region>) returns (r: M.Mapping)
      requires Valid() && Progress(others, spaces, root, plan, 0) && Fits(plan)
      requires StartsWithKernel(layout, uartBase, plicBase, plan)
      modifies this`spaces, mmu, mmu.frames`free, mmu.frames.bitmap
      ensures r == M.Done ==>
        Valid() && Progress(others, spaces, root, plan, |KernelRegions(layout, uartBase, plicBase)|)
      ensures r != M.Done ==> Judged(r, plan)
      ensures old(Loose()) <= Loose()
    {
      hide Described, Forest, Judged, Progress, M.LegalLeaf, KernelRegions, StartsWithKernel, Shown, Fits,
        Frames.SetBits, Frames.Holds;
      ImagePlan(layout, uartBase, plicBase, plan);
      PlainFlags();
      r := MapRange(root, layout.text, RXG, others, plan, 0);
      if r == M.Done {
        r := MapRange(root, layout.rodata, RG, others, plan, 1);
      }
      if r == M.Done {
        r := MapRange(root, layout.data, RWG, others, plan, 2);
      }
      if r == M.Done {
        r := MapRange(root, layout.stack, RWG, others, plan, 3);
      }
      if r == M.Done {
        r := MapDevices(root, others, plan);
      }
    }

    /** The console page and the interrupt controller's pages, where known. */
    method MapDevices(root: nat, ghost others: map<nat, seq<Region>>, ghost plan: seq<Region>) returns (r: M.Mapping)
      requires Valid() && Progress(others, spaces, root, plan, 4) && Fits(plan)
      requires StartsWithKernel(layout, uartBase, plicBase, plan)
      modifies this`spaces, mmu, mmu.frames`free, mmu.frames.bitmap
      ensures r == M.Done ==>
        Valid() && Progress(others, spaces, root, plan, |KernelRegions(layout, uartBase, plicBase)|)
      ensures r != M.Done ==> Judged(r, plan)
      ensures old(Loose()) <= Loose()
    {
      hide Described, Forest, Judged, Progress, M.LegalLeaf, KernelRegions, StartsWithKernel, Shown, Fits,
        Frames.SetBits, Frames.Holds;
      DevicePlan(layout, uartBase, plicBase, plan);
      PlainFlags();
      if uartBase != 0 {
        :- MapRange(root, Range(uartBase, uartBase + PAGE_SIZE), RWG, others, plan, 4);
      }
      if plicBase != 0 {
        ghost var n := if uartBase != 0 then 5 else 4;
        :- MapRange(root, Range(plicBase, plicBase + 0x3000), RWG, others, plan, n);
        :- MapRange(root, Range(plicBase + 0x20_1000, plicBase + 0x20_2000), RWG, others, plan, n + 1);
      }
      return M.Done;
    }

    /** A new space with private regions leaves every space fenced. */
    lemma FencedMore(was: bool, spaces0: map<nat, seq<Region>>, loose0: set<nat>, root: nat, rs: seq<Region>)
      requires spaces == spaces0[root := KernelRegions(layout, uartBase, plicBase) + rs] && loose0 <= Loose()
      requires was ==> forall x :: x in spaces0 ==> AllPrivate(mmu.frames.base, mmu.frames.count, loose0, spaces0[x])
      ensures was && AllPrivate(mmu.frames.base, mmu.frames.count, loose0, rs) ==> Fenced()
    {
      hide AllPrivate, KernelRegions;
      if was && AllPrivate(mmu.frames.base, mmu.frames.count, loose0, rs) {
        PrivateSpace(layout, uartBase, plicBase, mmu.frames.base, mmu.frames.count, loose0, Loose(), rs);
        forall x | x in spaces0 ensures AllPrivate(mmu.frames.base, mmu.frames.count, Loose(), spaces0[x]) {
          PrivateSpace(layout, uartBase, plicBase, mmu.frames.base, mmu.frames.count, loose0, Loose(), spaces0[x]);
        }
      }
    }

    /** A fresh root with nothing mapped. */
    method NewSpace() returns (r: Option<nat>)
      requires Valid()
      modifies this`spaces, mmu, mmu.frames`free, mmu.frames.bitmap
      ensures Valid() && (r.None? <==> old(mmu.frames.free) == 0)
      ensures r.None? ==> spaces == old(spaces)
      ensures r.Some? ==>
        r.value !in old(spaces) && spaces == old(spaces)[r.value := []] && RootOf(MakeSatp(r.value)) == r.value
      ensures old(Loose()) <= Loose()
    {
      hide Described, Forest, Extends, SameEntries, EmptySpace, Frames.SetBits, Frames.Holds, MakeSatp;
      ghost var tables, level := mmu.tables, mmu.level;
      r := mmu.NewSpace();
      if r.Some? {
        DescribedNew(tables, level, mmu.tables, mmu.level, spaces, r.value);
        SatpRoundTrip(r.value);
        spaces := spaces[r.value := []];
      } else {
        DescribedSame(tables, level, mmu.tables, mmu.level, spaces);
      }
    }

    /** A frame for a device to DMA into: allocated, and never a page table. */
    method AllocFrame() returns (r: Option<nat>)
      requires Valid()
      modifies mmu`owned, mmu.frames`free, mmu.frames.bitmap
      ensures Valid() && (r.None? <==> old(mmu.frames.free) == 0)
      ensures old(Loose()) <= Loose() && (r.Some? ==> r.value !in old(Loose()) && r.value in Loose())
      ensures old(Fenced()) ==> Fenced()
    {
      hide Described, Forest, AllPrivate, KernelRegions, Frames.SetBits, Frames.Holds;
      ghost var loose0 := Loose();
      r := mmu.AllocZeroed();
      forall x | x in spaces && AllPrivate(mmu.frames.base, mmu.frames.count, loose0, spaces[x])
        ensures AllPrivate(mmu.frames.base, mmu.frames.count, Loose(), spaces[x])
      {
        PrivateSpace(layout, 0, 0, mmu.frames.base, mmu.frames.count, loose0, Loose(), spaces[x]);
      }
    }

    /** A private space for one component: the kernel, the shared user text, its
        own stack and one read-only device. */
    method BuildUserSpace(stack: Range, device: Range) returns (r: Built)
      requires Valid() && Fits(KernelRegions(layout, uartBase, plicBase) + UserRegions(layout, stack, device))
      modifies this`spaces, this`kinds, mmu, mmu.frames`free, mmu.frames.bitmap
      ensures r.Ok? ==> Valid() && RootOf(r.satp) !in old(spaces) && r.satp == MakeSatp(RootOf(r.satp))
      ensures r.Ok? ==>
        spaces == old(spaces)[RootOf(r.satp) := KernelRegions(layout, uartBase, plicBase)
          + UserRegions(layout, stack, device)]
      ensures r.Failed? ==>
        Judged(r.why, KernelRegions(layout, uartBase, plicBase) + UserRegions(layout, stack, device))
      ensures old(Loose()) <= Loose()
      ensures r.Ok? ==> kinds == old(kinds)[RootOf(r.satp) := User(stack, device)] && (old(Complete()) ==> Complete())
      ensures
        var rs := UserRegions(layout, stack, device);
        r.Ok? && old(Fenced()) && AllPrivate(mmu.frames.base, mmu.frames.count, old(Loose()), rs) ==> Fenced()
    {
      hide Described, Forest, Judged, AllPrivate, KernelRegions, Fits, MakeSatp, RootOf, Frames.SetBits, Frames.Holds;
      ghost var spaces0, loose0, was := spaces, Loose(), Fenced();
      r := FillUserSpace(stack, device);
      if r.Ok? {
        kinds := kinds[RootOf(r.satp) := User(stack, device)];
        FencedMore(was, spaces0, loose0, RootOf(r.satp), UserRegions(layout, stack, device));
      }
    }

    /** The root and its ranges, one after another. */
    method FillUserSpace(stack: Range, device: Range) returns (r: Built)
      requires Valid() && Fits(KernelRegions(layout, uartBase, plicBase) + UserRegions(layout, stack, device))
      modifies this`spaces, mmu, mmu.frames`free, mmu.frames.bitmap
      ensures r.Ok? ==> Valid() && RootOf(r.satp) !in old(spaces) && r.satp == MakeSatp(RootOf(r.satp))
      ensures r.Ok? ==>
        spaces == old(spaces)[RootOf(r.satp) := KernelRegions(layout, uartBase, plicBase)
          + UserRegions(layout, stack, device)]
      ensures r.Failed? ==>
        Judged(r.why, KernelRegions(layout, uartBase, plicBase) + UserRegions(layout, stack, device))
      ensures old(Loose()) <= Loose()
    {
      hide Described, Forest, Judged, Progress, M.LegalLeaf, KernelRegions, Fits, MakeSatp, RootOf, Frames.SetBits,
        Frames.Holds;
      PlainFlags();
      ghost var others, k := spaces, |KernelRegions(layout, uartBase, plicBase)|;
      ghost var plan := KernelRegions(layout, uartBase, plicBase) + UserRegions(layout, stack, device);
      var root := NewSpace();
      if root.None? {
        JudgedOut(plan);
        return Failed(M.OutOfFrames);
      }
      ProgressDone(others, spaces, root.value, plan);
      var why := MapKernelSections(root.value, others, plan);
      if why == M.Done {
        why := MapRange(root.value, layout.userText, RXU, others, plan, k);
      }
      if why == M.Done {
        why := MapRange(root.value, stack, RWU, others, plan, k + 1);
      }
      if why == M.Done {
        why := MapRange(root.value, device, RU, others, plan, k + 2);
      }
      if why != M.Done {
        return Failed(why);
      }
      ProgressDone(others, spaces, root.value, plan);
      return Ok(MakeSatp(root.value));
    }

    /** A private space for a virtio component: its registers and its DMA page
        are writable, and mapped here only. */
    method BuildVirtioSpace(stack: Range, mmio: Range, dma: Range) returns (r: Built)
      requires Valid() && Fits(KernelRegions(layout, uartBase, plicBase) + VirtioRegions(layout, stack, mmio, dma))
      modifies this`spaces, this`kinds, mmu, mmu.frames`free, mmu.frames.bitmap
      ensures r.Ok? ==> Valid() && RootOf(r.satp) !in old(spaces) && r.satp == MakeSatp(RootOf(r.satp))
      ensures r.Ok? ==>
        spaces == old(spaces)[RootOf(r.satp) := KernelRegions(layout, uartBase, plicBase)
          + VirtioRegions(layout, stack, mmio, dma)]
      ensures r.Failed? ==>
        Judged(r.why, KernelRegions(layout, uartBase, plicBase) + VirtioRegions(layout, stack, mmio, dma))
      ensures old(Loose()) <= Loose()
      ensures r.Ok? ==>
        kinds == old(kinds)[RootOf(r.satp) := Virtio(stack, mmio, dma)] && (old(Complete()) ==> Complete())
      ensures
        var rs := VirtioRegions(layout, stack, mmio, dma);
        r.Ok? && old(Fenced()) && AllPrivate(mmu.frames.base, mmu.frames.count, old(Loose()), rs) ==> Fenced()
    {
      hide Described, Forest, Judged, AllPrivate, KernelRegions, Fits, MakeSatp, RootOf, Frames.SetBits, Frames.Holds;
      ghost var spaces0, loose0, was := spaces, Loose(), Fenced();
      r := FillVirtioSpace(stack, mmio, dma);
      if r.Ok? {
        kinds := kinds[RootOf(r.satp) := Virtio(stack, mmio, dma)];
        FencedMore(was, spaces0, loose0, RootOf(r.satp), VirtioRegions(layout, stack, mmio, dma));
      }
    }

    /** The root and its ranges, one after another. */
    method FillVirtioSpace(stack: Range, mmio: Range, dma: Range) returns (r: Built)
      requires Valid() && Fits(KernelRegions(layout, uartBase, plicBase) + VirtioRegions(layout, stack, mmio, dma))
      modifies this`spaces, mmu, mmu.frames`free, mmu.frames.bitmap
      ensures r.Ok? ==> Valid() && RootOf(r.satp) !in old(spaces) && r.satp == MakeSatp(RootOf(r.satp))
      ensures r.Ok? ==>
        spaces == old(spaces)[RootOf(r.satp) := KernelRegions(layout, uartBase, plicBase)
          + VirtioRegions(layout, stack, mmio, dma)]
      ensures r.Failed? ==>
        Judged(r.why, KernelRegions(layout, uartBase, plicBase) + VirtioRegions(layout, stack, mmio, dma))
      ensures old(Loose()) <= Loose()
    {
      hide Described, Forest, Judged, Progress, M.LegalLeaf, KernelRegions, Fits, MakeSatp, RootOf, Frames.SetBits,
        Frames.Holds;
      PlainFlags();
      ghost var others, k := spaces, |KernelRegions(layout, uartBase, plicBase)|;
      ghost var plan := KernelRegions(layout, uartBase, plicBase) + VirtioRegions(layout, stack, mmio, dma);
      var root := NewSpace();
      if root.None? {
        JudgedOut(plan);
        return Failed(M.OutOfFrames);
      }
      ProgressDone(others, spaces, root.value, plan);
      var why := MapKernelSections(root.value, others, plan);
      if why == M.Done {
        why := MapRange(root.value, layout.userText, RXU, others, plan, k);
      }
      if why == M.Done {
        why := MapRange(root.value, stack, RWU, others, plan, k + 1);
      }
      if why == M.Done {
        why := MapRange(root.value, mmio, RWU, others, plan, k + 2);
      }
      if why == M.Done {
        why := MapRange(root.value, dma, RWU, others, plan, k + 3);
      }
      if why != M.Done {
        return Failed(why);
      }
      ProgressDone(others, spaces, root.value, plan);
      return Ok(MakeSatp(root.value));
    }

    /** Arm the allocator over the free memory and build the master table: the
        kernel and all free memory, nothing of it open to user mode. */
    method Init(ramEnd: nat, uart: nat, plic: nat) returns (r: Built)
      requires Valid() && mmu.tables == map[] && mmu.owned == {} && spaces == map[] && kinds == map[]
      requires forall k :: 0 <= k < mmu.frames.bitmap.Length ==> mmu.frames.bitmap[k] == 0
      requires Fits(KernelRegions(layout, uart, plic) + MasterRegions(layout, ramEnd))
      modifies this, mmu, mmu.frames, mmu.frames.bitmap
      ensures r.Ok? ==>
        Valid() && kernelSatp == r.satp == MakeSatp(RootOf(r.satp)) && uartBase == uart && plicBase == plic
      ensures r.Ok? ==>
        spaces == map[RootOf(r.satp) := KernelRegions(layout, uart, plic) + MasterRegions(layout, ramEnd)]
      ensures r.Ok? ==>
        mmu.frames.base * PAGE_SIZE == layout.kernelEnd && (mmu.frames.base + mmu.frames.count) * PAGE_SIZE == ramEnd
      ensures r.Failed? && r.why != M.BadRange ==>
        Judged(r.why, KernelRegions(layout, uart, plic) + MasterRegions(layout, ramEnd))
      ensures r.Ok? ==> kinds == map[RootOf(r.satp) := Master(ramEnd)] && Complete() && Fenced()
    {
      hide Described, Forest, Judged, Progress, M.LegalLeaf, KernelRegions, Fits, MakeSatp, RootOf, Frames.SetBits,
        Frames.Holds;
      PlainFlags();
      FitsLast(KernelRegions(layout, uart, plic), Region(layout.kernelEnd, ramEnd, RWG));
      uartBase, plicBase := uart, plic;
      ghost var others, k := spaces, |KernelRegions(layout, uart, plic)|;
      ghost var plan := KernelRegions(layout, uart, plic) + MasterRegions(layout, ramEnd);
      var armed := mmu.frames.Init(layout.kernelEnd, ramEnd);
      if !armed {
        return Failed(M.BadRange);
      }
      mmu.frames.FreshIsEmpty();
      var root := NewSpace();
      if root.None? {
        JudgedOut(plan);
        return Failed(M.OutOfFrames);
      }
      ProgressDone(others, spaces, root.value, plan);
      var why := MapKernelSections(root.value, others, plan);
      if why == M.Done {
        why := MapRange(root.value, Range(layout.kernelEnd, ramEnd), RWG, others, plan, k);
      }
      if why != M.Done {
        return Failed(why);
      }
      ProgressDone(others, spaces, root.value, plan);
      kinds := map[root.value := Master(ramEnd)];
      MasterPrivate(layout, mmu.frames.base, mmu.frames.count, ramEnd);
      FencedMore(true, map[], {}, root.value, MasterRegions(layout, ramEnd));
      kernelSatp := MakeSatp(root.value);
      return Ok(kernelSatp);
    }
  }
}
