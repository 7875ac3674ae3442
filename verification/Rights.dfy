/** What every space lets be read, written and run, and by whom: each page exactly
    what its range is for, and no way to a page table. */
module Rights {
  import opened Paging
  import opened Spaces
  import M = Mmu
  import Frames

  /** Address space x of a described set: a tree whose regions are rs. */
  ghost predicate SpaceOf(tables: Tables, level: map<nat, nat>, x: nat, rs: seq<Region>) {
    Forest(tables, level) && x in tables && level[x] == 2 && Describes(tables, level, x, rs) && Sound(rs)
  }

  // ---- what each range is for ----

  /** The pages of the UART and of the PLIC, if there are any. */
  predicate OfDevices(uart: nat, plic: nat, v: nat) {
    || (uart != 0 && Within(Range(uart, uart + 0x1000), v))
    || (plic != 0 && (Within(Range(plic, plic + 0x3000), v) || Within(Range(plic + 0x20_1000, plic + 0x20_2000), v)))
  }

  /** What the kernel may write, run and read. */
  predicate KernelWrites(l: Layout, uart: nat, plic: nat, v: nat) {
    Within(l.data, v) || Within(l.stack, v) || OfDevices(uart, plic, v)
  }

  predicate KernelReads(l: Layout, uart: nat, plic: nat, v: nat) {
    Within(l.text, v) || Within(l.rodata, v) || KernelWrites(l, uart, plic, v)
  }

  /** What a space of this kind adds: pages that are written, and pages that are run. */
  predicate AlsoWrites(l: Layout, kind: Kind, v: nat) {
    match kind
    case Master(ramEnd) => Within(Range(l.kernelEnd, ramEnd), v)
    case User(stack, _) => Within(stack, v)
    case Virtio(stack, mmio, dma) => Within(stack, v) || Within(mmio, v) || Within(dma, v)
  }

  predicate AlsoRuns(l: Layout, kind: Kind, v: nat) {
    !kind.Master? && Within(l.userText, v)
  }

  /** The pages a space of this kind opens to its component. */
  predicate OpenTo(l: Layout, kind: Kind, v: nat) {
    match kind
    case Master(_) => false
    case User(stack, device) => Within(l.userText, v) || Within(stack, v) || Within(device, v)
    case Virtio(stack, mmio, dma) => Within(l.userText, v) || Within(stack, v) || Within(mmio, v) || Within(dma, v)
  }

  // ---- the regions ----

  /** The rights in flags, one by one. */
  predicate Gives(flags: nat, w: bool, x: bool, u: bool) {
    && HasFlag(flags, PTE_R) && HasFlag(flags, PTE_W) == w && HasFlag(flags, PTE_X) == x
    && HasFlag(flags, PTE_U) == u && HasFlag(flags, PTE_G) == !u
  }

  lemma Flags()
    ensures Gives(RXG, false, true, false) && Gives(RG, false, false, false) && Gives(RWG, true, false, false)
    ensures Gives(RXU, false, true, true) && Gives(RWU, true, false, true) && Gives(RU, false, false, true)
  {
  }

  lemma Joined(a: seq<Region>, b: seq<Region>, v: nat, f: nat)
    requires f > 0
    ensures Shows(a + b, v, f) <==> Shows(a, v, f) || Shows(b, v, f)
  {
    hide In, HasFlag;
    var c := a + b;
    if Shows(a, v, f) {
      var k :| 0 <= k < |a| && In(a[k], v) && HasFlag(a[k].flags, f);
      assert c[k] == a[k];
    }
    if Shows(b, v, f) {
      var k :| 0 <= k < |b| && In(b[k], v) && HasFlag(b[k].flags, f);
      assert c[|a| + k] == b[k];
    }
  }

  lemma Lone(r: Region, v: nat, f: nat)
    requires f > 0
    ensures Shows([r], v, f) <==> In(r, v) && HasFlag(r.flags, f)
  {
    hide In, HasFlag;
    if In(r, v) && HasFlag(r.flags, f) { assert In([r][0], v); }
  }

  lemma Pair(a: Region, b: Region, v: nat, f: nat)
    requires f > 0
    ensures Shows([a, b], v, f) <==> Shows([a], v, f) || Shows([b], v, f)
  {
    hide Shows;
    assert [a] + [b] == [a, b];
    Joined([a], [b], v, f);
  }

  /** The regions every space shares, flag by flag. */
  lemma KernelShows(l: Layout, uart: nat, plic: nat, v: nat, f: nat)
    requires f > 0
    ensures Shows(KernelRegions(l, uart, plic), v, f) <==>
      || (Within(l.text, v) && HasFlag(RXG, f)) || (Within(l.rodata, v) && HasFlag(RG, f))
      || (KernelWrites(l, uart, plic, v) && HasFlag(RWG, f))
  {
    hide Shows, HasFlag, M.PageOf;
    var t, o, d, k := Shown(l.text, RXG), Shown(l.rodata, RG), Shown(l.data, RWG), Shown(l.stack, RWG);
    var u := if uart != 0 then [Region(uart, uart + PAGE_SIZE, RWG)] else [];
    var p1, p2 := Region(plic, plic + 0x3000, RWG), Region(plic + 0x20_1000, plic + 0x20_2000, RWG);
    var p := if plic != 0 then [p1, p2] else [];
    assert [t, o, d, k] == [t, o] + [d, k];
    Pair(t, o, v, f); Pair(d, k, v, f); Pair(p1, p2, v, f);
    Lone(t, v, f); Lone(o, v, f); Lone(d, v, f); Lone(k, v, f); Lone(p1, v, f); Lone(p2, v, f);
    Lone(Region(uart, uart + PAGE_SIZE, RWG), v, f);
    Joined([t, o], [d, k], v, f);
    Joined([t, o, d, k], u, v, f);
    Joined([t, o, d, k] + u, p, v, f);
    ShowsNone(v, f);
  }

  lemma ShowsNone(v: nat, f: nat)
    requires f > 0
    ensures !Shows([], v, f)
  {
  }

  /** The regions of a kind, flag by flag. */
  lemma KindShows(l: Layout, kind: Kind, v: nat, f: nat)
    requires f > 0
    ensures Shows(KindRegions(l, kind), v, f) <==>
      match kind
      case Master(ramEnd) => Within(Range(l.kernelEnd, ramEnd), v) && HasFlag(RWG, f)
      case User(stack, device) =>
        || (Within(l.userText, v) && HasFlag(RXU, f)) || (Within(stack, v) && HasFlag(RWU, f))
        || (Within(device, v) && HasFlag(RU, f))
      case Virtio(stack, mmio, dma) =>
        || (Within(l.userText, v) && HasFlag(RXU, f))
        || ((Within(stack, v) || Within(mmio, v) || Within(dma, v)) && HasFlag(RWU, f))
  {
    hide Shows, HasFlag, M.PageOf;
    var t := Shown(l.userText, RXU);
    Lone(t, v, f);
    match kind
    case Master(ramEnd) => Lone(Region(l.kernelEnd, ramEnd, RWG), v, f);
    case User(stack, device) =>
      var a, b := Shown(stack, RWU), Shown(device, RU);
      assert [t] + [a, b] == [t, a, b];
      Joined([t], [a, b], v, f);
      Pair(a, b, v, f); Lone(a, v, f); Lone(b, v, f);
    case Virtio(stack, mmio, dma) =>
      var a, b, c := Shown(stack, RWU), Shown(mmio, RWU), Shown(dma, RWU);
      assert [t, a] + [b, c] == [t, a, b, c];
      Joined([t, a], [b, c], v, f);
      Pair(t, a, v, f); Pair(b, c, v, f); Lone(a, v, f); Lone(b, v, f); Lone(c, v, f);
  }

  /** Every right a page has in a space of this kind. */
  ghost predicate RightsAt(tables: Tables, x: nat, l: Layout, uart: nat, plic: nat, kind: Kind, v: nat) {
    var t := Walk(tables, x, v);
    && (Reaches(t, PTE_W) <==> KernelWrites(l, uart, plic, v) || AlsoWrites(l, kind, v))
    && (Reaches(t, PTE_X) <==> Within(l.text, v) || AlsoRuns(l, kind, v))
    && (Reaches(t, PTE_R) <==> KernelReads(l, uart, plic, v) || AlsoWrites(l, kind, v) || OpenTo(l, kind, v))
    && (Reaches(t, PTE_U) <==> OpenTo(l, kind, v))
    && (Reaches(t, PTE_G) <==> Reaches(t, PTE_R) && !OpenTo(l, kind, v))
    && !(Reaches(t, PTE_W) && Reaches(t, PTE_X))
    && (t.Some? <==> Reaches(t, PTE_R)) && (t.Some? ==> t.value.pa == M.PageOf(v))
  }

  /** A page is in one region only: it is global or open to user mode, and never
      both written and run. */
  lemma OneRegion(tables: Tables, level: map<nat, nat>, x: nat, rs: seq<Region>, v: nat)
    requires SpaceOf(tables, level, x, rs) && v < VA_LIMIT
    requires forall k :: 0 <= k < |rs| ==> Ours(rs[k].flags)
    ensures var t := Walk(tables, x, v);
            && (Reaches(t, PTE_G) <==> Reaches(t, PTE_R) && !Reaches(t, PTE_U))
            && !(Reaches(t, PTE_W) && Reaches(t, PTE_X)) && (t.Some? <==> Reaches(t, PTE_R))
            && (t.Some? ==> t.value.pa == M.PageOf(v))
  {
    hide Walk, Forest, Describes, Sound, HasFlag, In;
    SpaceWalk(tables, level, x, rs, v);
    if k :| 0 <= k < |rs| && In(rs[k], v) {
      assert SameRights(Walk(tables, x, v).value.flags, rs[k].flags) && Ours(rs[k].flags);
    }
  }

  /** Flags the kernel maps with: readable, global or for user mode, and not both
      writable and executable. */
  predicate Ours(flags: nat) {
    && HasFlag(flags, PTE_R) && (HasFlag(flags, PTE_G) <==> !HasFlag(flags, PTE_U))
    && !(HasFlag(flags, PTE_W) && HasFlag(flags, PTE_X))
  }

  lemma AllOurs(l: Layout, uart: nat, plic: nat, kind: Kind)
    ensures var rs := KernelRegions(l, uart, plic) + KindRegions(l, kind);
            forall k :: 0 <= k < |rs| ==> Ours(rs[k].flags)
  {
    hide Ours;
    OursAll();
  }

  lemma OursAll()
    ensures Ours(RXG) && Ours(RG) && Ours(RWG) && Ours(RXU) && Ours(RWU) && Ours(RU)
  {
    Flags();
  }

  /** A space of the kernel's regions and those of its kind. */
  lemma KindRights(tables: Tables, level: map<nat, nat>, x: nat, l: Layout, uart: nat, plic: nat, kind: Kind, v: nat)
    requires SpaceOf(tables, level, x, KernelRegions(l, uart, plic) + KindRegions(l, kind)) && v < VA_LIMIT
    ensures RightsAt(tables, x, l, uart, plic, kind, v)
  {
    hide Forest, Describes, Sound, Walk, Reaches, Within, KernelRegions, KindRegions, Shows, HasFlag, Ours, OfDevices;
    var k, u := KernelRegions(l, uart, plic), KindRegions(l, kind);
    Flags();
    AllOurs(l, uart, plic, kind);
    OneRegion(tables, level, x, k + u, v);
    RightIs(tables, level, x, l, uart, plic, kind, v, PTE_W);
    RightIs(tables, level, x, l, uart, plic, kind, v, PTE_X);
    RightIs(tables, level, x, l, uart, plic, kind, v, PTE_R);
    RightIs(tables, level, x, l, uart, plic, kind, v, PTE_U);
  }

  lemma RightIs(tables: Tables, level: map<nat, nat>, x: nat, l: Layout, uart: nat, plic: nat, kind: Kind, v: nat,
                f: nat)
    requires SpaceOf(tables, level, x, KernelRegions(l, uart, plic) + KindRegions(l, kind)) && v < VA_LIMIT
    requires IsRight(f)
    ensures Reaches(Walk(tables, x, v), f) <==>
      || (Within(l.text, v) && HasFlag(RXG, f)) || (Within(l.rodata, v) && HasFlag(RG, f))
      || (KernelWrites(l, uart, plic, v) && HasFlag(RWG, f))
      || match kind
         case Master(ramEnd) => Within(Range(l.kernelEnd, ramEnd), v) && HasFlag(RWG, f)
         case User(stack, device) =>
           || (Within(l.userText, v) && HasFlag(RXU, f)) || (Within(stack, v) && HasFlag(RWU, f))
           || (Within(device, v) && HasFlag(RU, f))
         case Virtio(stack, mmio, dma) =>
           || (Within(l.userText, v) && HasFlag(RXU, f))
           || ((Within(stack, v) || Within(mmio, v) || Within(dma, v)) && HasFlag(RWU, f))
  {
    hide Forest, Describes, Sound, Walk, Reaches, Within, KernelRegions, KindRegions, Shows, HasFlag, KernelWrites;
    var k, u := KernelRegions(l, uart, plic), KindRegions(l, kind);
    RightSpace(tables, level, x, k + u, v, f);
    Joined(k, u, v, f);
    KernelShows(l, uart, plic, v, f);
    KindShows(l, kind, v, f);
  }

  /** The kernel looks the same from every space. */
  lemma SameKernelEverywhere(tables: Tables, level: map<nat, nat>, x: nat, xs: seq<Region>, y: nat, ys: seq<Region>,
                             kernel: seq<Region>, k: nat, v: nat)
    requires SpaceOf(tables, level, x, kernel + xs) && SpaceOf(tables, level, y, kernel + ys)
    requires k < |kernel| && In(kernel[k], v) && v < VA_LIMIT
    ensures Walk(tables, x, v).Some? && Walk(tables, x, v) == Walk(tables, y, v)
  {
    hide Forest, Sound, In, Walk, Entry, M.LeafPte, M.LegalLeaf, Leaf;
    assert (kernel + xs)[k] == kernel[k] == (kernel + ys)[k];
    RegionEntryIs(kernel + xs, v);
    RegionEntryIs(kernel + ys, v);
    WalkIsEntry(tables, level, x, v);
    WalkIsEntry(tables, level, y, v);
    SpaceWalk(tables, level, x, kernel + xs, v);
  }

  // ---- page tables stay out of reach ----

  /** No page any space opens to user mode is a page table of any space. */
  lemma NoTableInReach(tables: Tables, level: map<nat, nat>, spaces: map<nat, seq<Region>>, base: nat, count: nat,
                       loose: set<nat>)
    requires Forest(tables, level) && Described(tables, level, spaces)
    requires forall t :: t in tables ==> Managed(base, count, t) && t !in loose
    requires forall x :: x in spaces ==> AllPrivate(base, count, loose, spaces[x])
    ensures forall x, v: nat :: x in spaces && v < VA_LIMIT && Reaches(Walk(tables, x, v), PTE_U) ==>
      Walk(tables, x, v).value.pa !in tables
  {
    hide Forest, Describes, Sound, Walk, HasFlag, Managed, M.PageOf;
    forall x, v: nat | x in spaces && v < VA_LIMIT && Reaches(Walk(tables, x, v), PTE_U)
      ensures Walk(tables, x, v).value.pa !in tables
    {
      RightSpace(tables, level, x, spaces[x], v, PTE_U);
      var k :| 0 <= k < |spaces[x]| && In(spaces[x][k], v) && HasFlag(spaces[x][k].flags, PTE_U);
      OnePage(spaces[x][k], v);
      assert Private(base, count, loose, spaces[x][k]);
    }
  }

  lemma OnePage(r: Region, v: nat)
    requires In(r, v)
    ensures r.end == r.start + PAGE_SIZE && r.start % PAGE_SIZE == 0 ==> M.PageOf(v) == r.start
  {
  }

  /** Every address space the kernel has built: a page has exactly the rights its
      range is for. It is writable when it is kernel data, a kernel stack, a device of
      the kernel, or what the space's kind may write; executable when it is kernel or,
      in a component's space, user text; readable when it is any of them or read-only
      data; open to user mode when it is user text or the component's own; global when
      it is not. None is both writable and executable, and none open to user mode is a
      page table. */
  lemma EverySpace(a: AddressSpaces)
    requires a.Valid() && a.Complete() && a.Fenced()
    ensures forall x :: x in a.spaces ==> x in a.kinds
    ensures forall x, v: nat :: x in a.spaces && v < VA_LIMIT ==>
      RightsAt(a.mmu.tables, x, a.layout, a.uartBase, a.plicBase, a.kinds[x], v)
    ensures forall x, v: nat :: x in a.spaces && v < VA_LIMIT && Reaches(Walk(a.mmu.tables, x, v), PTE_U) ==>
      Walk(a.mmu.tables, x, v).value.pa !in a.mmu.tables
  {
    hide Forest, Describes, Sound, Walk, Reaches, RightsAt, KernelRegions, KindRegions, AllPrivate, Managed,
      Frames.Holds, Frames.SetBits;
    var tables, level := a.mmu.tables, a.mmu.level;
    a.TablesFenced();
    NoTableInReach(tables, level, a.spaces, a.mmu.frames.base, a.mmu.frames.count, a.Loose());
    forall x, v: nat | x in a.spaces && v < VA_LIMIT
      ensures RightsAt(tables, x, a.layout, a.uartBase, a.plicBase, a.kinds[x], v)
    {
      RootDescribed(tables, level, a.spaces, x);
      KindRights(tables, level, x, a.layout, a.uartBase, a.plicBase, a.kinds[x], v);
    }
  }
}
