/** The page-table builder: tables live in frames of the allocator and are
    written in place, entry by entry. */
module Mmu {
  import opened Options
  import opened Paging
  import opened Gaps
  import Frames

  /** A leaf entry as map_page writes it: A always, D when writable. */
  function LeafFlags(flags: nat): nat {
    var a := WithFlag(flags, PTE_A);
    if HasFlag(flags, PTE_W) then WithFlag(a, PTE_D) else a
  }

  function LeafPte(pa: nat, flags: nat): nat {
    PteFor(pa, LeafFlags(flags))
  }

  /** Permissions the hardware accepts in a leaf: readable, or executable and
      not writable. */
  predicate LegalLeaf(flags: nat) {
    HasFlag(flags, PTE_R) || (HasFlag(flags, PTE_X) && !HasFlag(flags, PTE_W))
  }

  /** The permission bits R, W, X and U agree. */
  predicate SamePermissions(x: nat, y: nat) {
    && HasFlag(x, PTE_R) == HasFlag(y, PTE_R) && HasFlag(x, PTE_W) == HasFlag(y, PTE_W)
    && HasFlag(x, PTE_X) == HasFlag(y, PTE_X) && HasFlag(x, PTE_U) == HasFlag(y, PTE_U)
  }

  lemma EvenAdd(f: nat, k: nat)
    ensures SamePermissions(k * 32 + f, f)
  {
    Halves(k * 16, f); Quarters(k * 8, f); Eighths(k * 4, f); Sixteenths(k * 2, f);
    ModEven(k * 8, f / 2); ModEven(k * 4, f / 4); ModEven(k * 2, f / 8); ModEven(k, f / 16);
  }

  lemma Halves(a: nat, f: nat)
    ensures (2 * a + f) / 2 == a + f / 2
  {
  }

  lemma Quarters(a: nat, f: nat)
    ensures (4 * a + f) / 4 == a + f / 4
  {
  }

  lemma Eighths(a: nat, f: nat)
    ensures (8 * a + f) / 8 == a + f / 8
  {
  }

  lemma Sixteenths(a: nat, f: nat)
    ensures (16 * a + f) / 16 == a + f / 16
  {
  }

  lemma ModEven(a: nat, x: nat)
    ensures (2 * a + x) % 2 == x % 2
  {
  }

  /** An entry has the permissions of the flags it was made from. */
  lemma EntryPermissions(pa: nat, f: nat)
    ensures SamePermissions(PteFor(pa, f), f)
  {
    ValidPermissions(f);
    EvenAdd(WithFlag(f, PTE_V), pa / PAGE_SIZE * 32);
  }

  /** Setting A and D leaves the permissions alone. */
  lemma LeafFlagsPermissions(flags: nat)
    requires flags < FLAG_SPACE
    ensures LeafFlags(flags) < FLAG_SPACE && SamePermissions(LeafFlags(flags), flags)
  {
    hide HasFlag;
    var a := WithFlag(flags, PTE_A);
    HighFlagsFit(flags);
    HighFlagsFit(a);
    EvenAdd(flags, 2);
    EvenAdd(a, 4);
  }

  lemma HighFlagsFit(f: nat)
    requires f < FLAG_SPACE
    ensures WithFlag(f, PTE_A) < FLAG_SPACE && WithFlag(f, PTE_D) < FLAG_SPACE
  {
    if !HasFlag(f, PTE_A) { assert f / 64 <= 14; }
    if !HasFlag(f, PTE_D) { assert f / 128 <= 6; }
  }

  /** The walk of a mapped page: its frame with the given flags, V and A, and D
      when writable; and a fault when the permissions are not legal. */
  lemma LeafWalk(pa: nat, flags: nat)
    requires pa % PAGE_SIZE == 0 && pa < PA_LIMIT && flags < FLAG_SPACE
    ensures Leaf(LeafPte(pa, flags)) ==
      if LegalLeaf(flags) then Some(Translation(pa, WithFlag(LeafFlags(flags), PTE_V))) else None
  {
    hide HasFlag, WithFlag, PteFor;
    LeafFlagsPermissions(flags);
    EntryPermissions(pa, LeafFlags(flags));
    PteRoundTrip(pa, LeafFlags(flags));
  }

  /** Setting V leaves the permissions alone. */
  lemma ValidPermissions(f: nat)
    ensures SamePermissions(WithFlag(f, PTE_V), f)
  {
    if !HasFlag(f, PTE_V) {
      var h := f / 2;
      assert f == 2 * h && WithFlag(f, PTE_V) == 2 * h + 1;
      OddPermissions(h);
    }
  }

  lemma OddPermissions(h: nat)
    ensures SamePermissions(2 * h + 1, 2 * h)
  {
    assert (2 * h + 1) / 2 == h == 2 * h / 2;
    assert (2 * h + 1) / 4 == h / 2 == 2 * h / 4;
    assert (2 * h + 1) / 8 == h / 4 == 2 * h / 8;
    assert (2 * h + 1) / 16 == h / 8 == 2 * h / 16;
  }

  /** The remaining bits V, G, A and D agree, but for those named. */
  predicate Marked(y: nat, x: nat, v: bool, a: bool, d: bool) {
    && HasFlag(y, PTE_G) == HasFlag(x, PTE_G) && HasFlag(y, PTE_V) == (v || HasFlag(x, PTE_V))
    && HasFlag(y, PTE_A) == (a || HasFlag(x, PTE_A)) && HasFlag(y, PTE_D) == (d || HasFlag(x, PTE_D))
  }

  lemma By32(a: nat, r: nat)
    ensures (32 * a + r) / 32 == a + r / 32
  {
  }

  lemma By64(a: nat, r: nat)
    ensures (64 * a + r) / 64 == a + r / 64
  {
  }

  lemma By128(a: nat, r: nat)
    ensures (128 * a + r) / 128 == a + r / 128
  {
  }

  lemma MarkA(x: nat)
    ensures Marked(WithFlag(x, PTE_A), x, false, true, false)
  {
    if !HasFlag(x, PTE_A) {
      var q, r := x / 128, x % 128;
      assert x == 64 * (2 * q) + r;
      By64(2 * q, r);
      ModEven(q, r / 64);
      assert r < 64;
      MarkedA(q, r);
    }
  }

  lemma MarkedA(q: nat, r: nat)
    requires r < 64
    ensures Marked(128 * q + r + 64, 128 * q + r, false, true, false)
  {
    var x, y := 128 * q + r, 128 * q + r + 64;
    assert x / 64 == 2 * q && y / 64 == 2 * q + 1 by { By64(2 * q, r); By64(2 * q + 1, r); }
    assert x / 128 == q == y / 128 by { By128(q, r); By128(q, r + 64); }
    assert x / 32 == 4 * q + r / 32 && y / 32 == 4 * q + 2 + r / 32 by { By32(4 * q, r); By32(4 * q + 2, r); }
    ModEven(2 * q, r / 32);
    ModEven(2 * q + 1, r / 32);
    ModEven(q, 0);
    ModEven(q, 1);
    ModEven(64 * q, r);
    ModEven(64 * q + 32, r);
  }

  lemma MarkD(x: nat)
    ensures Marked(WithFlag(x, PTE_D), x, false, false, true)
  {
    if !HasFlag(x, PTE_D) {
      var q, r := x / 256, x % 256;
      assert x == 128 * (2 * q) + r;
      By128(2 * q, r);
      ModEven(q, r / 128);
      assert r < 128;
      MarkedD(q, r);
    }
  }

  lemma MarkedD(q: nat, r: nat)
    requires r < 128
    ensures Marked(256 * q + r + 128, 256 * q + r, false, false, true)
  {
    var x, y := 256 * q + r, 256 * q + r + 128;
    assert x / 128 == 2 * q && y / 128 == 2 * q + 1 by { By128(2 * q, r); By128(2 * q + 1, r); }
    assert x / 64 == 4 * q + r / 64 && y / 64 == 4 * q + 2 + r / 64 by { By64(4 * q, r); By64(4 * q + 2, r); }
    assert x / 32 == 8 * q + r / 32 && y / 32 == 8 * q + 4 + r / 32 by { By32(8 * q, r); By32(8 * q + 4, r); }
    ModEven(2 * q, r / 64);
    ModEven(2 * q + 1, r / 64);
    ModEven(4 * q, r / 32);
    ModEven(4 * q + 2, r / 32);
    ModEven(q, 0);
    ModEven(q, 1);
    ModEven(128 * q, r);
    ModEven(128 * q + 64, r);
  }

  lemma MarkV(x: nat)
    ensures Marked(WithFlag(x, PTE_V), x, true, false, false)
  {
    if !HasFlag(x, PTE_V) {
      var h := x / 2;
      assert x == 2 * h;
      assert (2 * h + 1) / 32 == h / 16 == 2 * h / 32;
      assert (2 * h + 1) / 64 == h / 32 == 2 * h / 64;
      assert (2 * h + 1) / 128 == h / 64 == 2 * h / 128;
    }
  }

  /** Bit by bit, what map_page adds to the flags it is given: V and A always, D
      exactly to a writable page, and nothing else. */
  lemma LeafBits(flags: nat)
    requires flags < FLAG_SPACE
    ensures SamePermissions(WithFlag(LeafFlags(flags), PTE_V), flags)
    ensures Marked(WithFlag(LeafFlags(flags), PTE_V), flags, true, true, HasFlag(flags, PTE_W))
  {
    hide HasFlag, WithFlag;
    LeafFlagsPermissions(flags);
    ValidPermissions(LeafFlags(flags));
    MarkA(flags);
    MarkD(WithFlag(flags, PTE_A));
    MarkV(LeafFlags(flags));
  }

  lemma HeldAddress(base: nat, count: nat, s: set<nat>, a: nat)
    requires (base + count) * PAGE_SIZE <= PA_LIMIT && a % PAGE_SIZE == 0 && base <= a / PAGE_SIZE < base + count
    requires a / PAGE_SIZE - base !in s
    ensures a < PA_LIMIT && !Frames.Holds(base, count, s, a)
  {
  }

  /** Entries of the old spaces compose over two extensions. */
  lemma EntriesCompose(tables0: Tables, level0: map<nat, nat>, tables1: Tables, level1: map<nat, nat>, tables2: Tables,
                       level2: map<nat, nat>)
    requires Extends(level0, level1) && SameEntries(tables0, level0, tables1, level1)
    requires SameEntries(tables1, level1, tables2, level2)
    ensures SameEntries(tables0, level0, tables2, level2)
  {
    hide Entry;
  }

  lemma SameItself(tables: Tables, level: map<nat, nat>)
    ensures forall t: nat, i: nat :: OneEntry(tables, tables, t, i)
    ensures SameEntries(tables, level, tables, level) && Extends(level, level)
  {
  }

  /** Down from a table that did not change. */
  lemma SameDown(tables: Tables, level: map<nat, nat>, tables': Tables, level': map<nat, nat>, t: nat, va: nat)
    requires t in tables && t in tables' && tables'[t] == tables[t] && t in level && t in level'
    requires level'[t] == level[t] <= 2
    ensures Down(tables', level', t, va) == Down(tables, level, t, va)
  {
  }

  lemma LeafPteValid(pa: nat, flags: nat)
    requires flags < FLAG_SPACE
    ensures PteIsValid(LeafPte(pa, flags))
  {
    hide HasFlag, WithFlag;
    LeafFlagsPermissions(flags);
    PteRoundTrip(pa, LeafFlags(flags));
  }

  /** The last write of map_page, on top of tables made on the way. */
  lemma MapLeaf(tables0: Tables, level0: map<nat, nat>, tables: Tables, level: map<nat, nat>, root: nat, va: nat,
                t0: nat, pte: nat)
    requires Forest(tables, level) && Extends(level0, level) && SameEntries(tables0, level0, tables, level)
    requires root in level0 && level0[root] == 2 && va < VA_LIMIT
    requires t0 in tables && level[t0] == 0 && Bottom(tables, level, root, va) == Some(t0)
    ensures |tables[t0]| == ENTRIES && tables[t0][Vpn(va, 0)] == Entry(tables0, level0, root, va)
    ensures Forest(SetEntry(tables, t0, Vpn(va, 0), pte), level)
    ensures OneMore(tables0, level0, SetEntry(tables, t0, Vpn(va, 0), pte), level, root, va, pte)
  {
    LeafWrite(tables, level, t0, Vpn(va, 0), pte);
    LeafEntries(tables, level, root, va, t0, pte);
    BottomIsTable(tables, level, root, va);
    hide Bottom;
    assert tables[t0][Vpn(va, 0)] == Entry(tables, level, root, va);
    hide Entry;
  }

  /** A valid entry above the last level leads to the table one level down. */
  lemma Followed(tables: Tables, level: map<nat, nat>, table: nat, va: nat, lv: nat)
    requires Forest(tables, level) && table in tables && level[table] == lv && 1 <= lv
    ensures |tables[table]| == ENTRIES && lv <= 2
    ensures Down(tables, level, table, va).Some? <==> PteIsValid(tables[table][Vpn(va, lv)])
    ensures Down(tables, level, table, va).Some? ==>
      var d := Down(tables, level, table, va).value;
        d == PteToPa(tables[table][Vpn(va, lv)]) && d in tables && d in level && level[d] == lv - 1
  {
    hide PteToPa, Vpn, HasFlag;
    assert Points(tables, level, table, Vpn(va, lv)) <==> PteIsValid(tables[table][Vpn(va, lv)]);
  }

  /** The tables after a fresh frame f is linked below table for va. */
  function LinkedTables(tables: Tables, table: nat, va: nat, lv: nat, f: nat): Tables
    requires table in tables && |tables[table]| == ENTRIES && lv <= 2 && f != table
  {
    SetEntry(tables[f := ZeroTable()], table, Vpn(va, lv), PteFor(f, 0))
  }

  lemma Linked(tables: Tables, level: map<nat, nat>, table: nat, va: nat, lv: nat, f: nat)
    requires Forest(tables, level) && table in tables && level[table] == lv && 1 <= lv
    requires Down(tables, level, table, va).None? && f !in tables && f % PAGE_SIZE == 0 && f < PA_LIMIT
    ensures |tables[table]| == ENTRIES && lv <= 2
    ensures Forest(LinkedTables(tables, table, va, lv, f), level[f := lv - 1])
    ensures SameEntries(tables, level, LinkedTables(tables, table, va, lv, f), level[f := lv - 1])
    ensures Extends(level, level[f := lv - 1])
    ensures Down(LinkedTables(tables, table, va, lv, f), level[f := lv - 1], table, va) == Some(f)
    ensures LinkedTables(tables, table, va, lv, f).Keys == tables.Keys + {f}
    ensures LinkedTables(tables, table, va, lv, f)[f] == ZeroTable()
    ensures OneEntry(tables, LinkedTables(tables, table, va, lv, f), table, Vpn(va, lv))
  {
    hide PteToPa, PteFor, Vpn, HasFlag, Entry;
    Followed(tables, level, table, va, lv);
    var idx := Vpn(va, lv);
    LinkKeeps(tables, level, table, idx, f);
    LinkEntries(tables, level, table, idx, f);
    PteRoundTrip(f, 0);
    assert Points(LinkedTables(tables, table, va, lv, f), level[f := lv - 1], table, idx);
  }

  /** How mapping ends: done, or the assert or expect that stops the kernel. */
  datatype Mapping = Done | Unaligned | OutOfFrames | Remap | BadRange {
    predicate IsFailure() { this != Done }
    function PropagateFailure(): Mapping { this }
  }

  /** A path that lacks tables has no entry in use. */
  lemma MissingIsFree(tables: Tables, level: map<nat, nat>, root: nat, va: nat)
    ensures Missing(tables, level, root, va) > 0 ==> !PteIsValid(Entry(tables, level, root, va))
  {
    ZeroLeaf();
  }

  /** A root leads down to a middle table, and that to a bottom one. */
  lemma TwoSteps(tables: Tables, level: map<nat, nat>, root: nat, va: nat)
    requires root in level && level[root] == 2
    ensures Down(tables, level, root, va).None? ==>
      Missing(tables, level, root, va) == 2 && Bottom(tables, level, root, va).None?
    ensures Down(tables, level, root, va).Some? ==>
      var t1 := Down(tables, level, root, va).value;
      t1 in level && level[t1] == 1 ==>
        && Bottom(tables, level, root, va) == Down(tables, level, t1, va)
        && Missing(tables, level, root, va) == if Down(tables, level, t1, va).Some? then 0 else 1
  {
  }

  lemma ForestKeys(tables: Tables, level: map<nat, nat>)
    requires Forest(tables, level)
    ensures level.Keys == tables.Keys
  {
  }

  /** The base of the page that holds v. */
  function PageOf(v: nat): nat {
    v / PAGE_SIZE * PAGE_SIZE
  }

  /** The entries of every space of level are as before, save that in the space
      at root the pages from lo up to hi are mapped to themselves with flags. */
  ghost predicate Mapped(tables: Tables, level: map<nat, nat>, tables': Tables, level': map<nat, nat>, root: nat,
                         lo: nat, hi: nat, flags: nat) {
    forall r: nat, v: nat :: r in level && level[r] == 2 && v < VA_LIMIT ==>
      Entry(tables', level', r, v) == if r == root && lo <= PageOf(v) < hi then LeafPte(PageOf(v), flags)
        else Entry(tables, level, r, v)
  }

  /** No page from lo up to hi is mapped in the space at root. */
  ghost predicate Unused(tables: Tables, level: map<nat, nat>, root: nat, lo: nat, hi: nat) {
    forall v: nat :: v < VA_LIMIT && lo <= PageOf(v) < hi ==> !PteIsValid(Entry(tables, level, root, v))
  }

  lemma NothingMapped(tables: Tables, level: map<nat, nat>, root: nat, lo: nat, flags: nat)
    ensures Mapped(tables, level, tables, level, root, lo, lo, flags) && Unused(tables, level, root, lo, lo)
  {
  }

  /** Pages of the same number share their base; the pages below a page base and
      that page itself are the pages below the next base. */
  lemma NextPage(v: nat, a: nat)
    requires a % PAGE_SIZE == 0
    ensures v / PAGE_SIZE == a / PAGE_SIZE <==> PageOf(v) == a
    ensures PageOf(v) < a + PAGE_SIZE <==> PageOf(v) < a || PageOf(v) == a
  {
  }

  /** One page more at the top of a mapped range. */
  lemma MappedMore(tables0: Tables, level0: map<nat, nat>, tables1: Tables, level1: map<nat, nat>, tables2: Tables,
                   level2: map<nat, nat>,
                   root: nat, lo: nat, a: nat, flags: nat)
    requires Extends(level0, level1) && root in level0 && level0[root] == 2 && lo <= a < VA_LIMIT && a % PAGE_SIZE == 0
    requires Mapped(tables0, level0, tables1, level1, root, lo, a, flags) && Unused(tables0, level0, root, lo, a)
    requires OneMore(tables1, level1, tables2, level2, root, a, LeafPte(a, flags))
    requires !PteIsValid(Entry(tables1, level1, root, a))
    ensures Mapped(tables0, level0, tables2, level2, root, lo, a + PAGE_SIZE, flags)
    ensures Unused(tables0, level0, root, lo, a + PAGE_SIZE)
  {
    hide Entry, LeafPte, PteIsValid, PageOf;
    forall r: nat, v: nat | r in level0 && level0[r] == 2 && v < VA_LIMIT
      ensures Entry(tables2, level2, r, v) ==
        if r == root && lo <= PageOf(v) < a + PAGE_SIZE then LeafPte(PageOf(v), flags) else Entry(tables0, level0, r, v)
    {
      NextPage(v, a);
    }
    forall v: nat | v < VA_LIMIT && lo <= PageOf(v) < a + PAGE_SIZE
      ensures !PteIsValid(Entry(tables0, level0, root, v))
    {
      NextPage(v, a);
      NextPage(a, a);
      if PageOf(v) == a {
        SamePageEntry(tables0, level0, root, v, a);
        assert Entry(tables1, level1, root, a) == Entry(tables0, level0, root, a);
      }
    }
  }

  /** An entry belongs to the whole page. */
  lemma SamePageEntry(tables: Tables, level: map<nat, nat>, root: nat, v: nat, a: nat)
    requires v < VA_LIMIT && a < VA_LIMIT && v / PAGE_SIZE == a / PAGE_SIZE
    ensures Entry(tables, level, root, v) == Entry(tables, level, root, a)
  {
    SamePage(v, a);
  }

  /** The range ends at the first page base at or above hi. */
  lemma RangeEnd(tables0: Tables, level0: map<nat, nat>, tables: Tables, level: map<nat, nat>, root: nat, lo: nat,
                 a: nat, hi: nat, flags: nat)
    requires Mapped(tables0, level0, tables, level, root, lo, a, flags) && Unused(tables0, level0, root, lo, a)
    requires a >= hi && (a == lo || (a % PAGE_SIZE == 0 && a < hi + PAGE_SIZE))
    ensures Mapped(tables0, level0, tables, level, root, lo, hi, flags) && Unused(tables0, level0, root, lo, hi)
  {
    hide Entry, LeafPte, PteIsValid;
    assert forall v: nat :: lo <= PageOf(v) < hi <==> lo <= PageOf(v) < a;
  }

  /** The first page not yet mapped was in use from the start. */
  lemma FoundInUse(tables0: Tables, level0: map<nat, nat>, tables: Tables, level: map<nat, nat>, root: nat, lo: nat,
                   a: nat, hi: nat, flags: nat)
    requires Mapped(tables0, level0, tables, level, root, lo, a, flags) && root in level0 && level0[root] == 2
    requires lo <= a < hi <= VA_LIMIT && a % PAGE_SIZE == 0 && PteIsValid(Entry(tables, level, root, a))
    ensures !Unused(tables0, level0, root, lo, hi)
  {
    hide Entry, LeafPte, PteIsValid;
    assert PageOf(a) == a;
  }

  /** The free frames do not cover the tables missing on the paths of the range, or
      of the part of it before its first page in use. */
  ghost predicate RunsOut(tables: Tables, level: map<nat, nat>, root: nat, lo: nat, hi: nat, free: nat) {
    exists h: nat :: h <= hi && Unused(tables, level, root, lo, h) && free < Needed(tables, level, root, lo, h)
  }

  /** For an unused range that is to say: the free frames do not cover it. */
  lemma RunsOutUnused(tables: Tables, level: map<nat, nat>, root: nat, lo: nat, hi: nat, free: nat)
    requires Unused(tables, level, root, lo, hi)
    ensures RunsOut(tables, level, root, lo, hi, free) <==> free < Needed(tables, level, root, lo, hi)
  {
    hide Unused, Needed;
    if RunsOut(tables, level, root, lo, hi, free) {
      var h: nat :| h <= hi && Unused(tables, level, root, lo, h) && free < Needed(tables, level, root, lo, h);
      NeededMore(tables, level, root, lo, h, hi);
    }
  }

  /** With the pages from lo up to a mapped, any range from lo on takes what has
      been spent and what its rest takes now. */
  ghost predicate Spent(tables0: Tables, level0: map<nat, nat>, tables: Tables, level: map<nat, nat>, root: nat,
                        lo: nat, a: nat, n: nat) {
    forall h: nat :: a <= h <= VA_LIMIT ==>
      Needed(tables0, level0, root, lo, h) == n + Needed(tables, level, root, a, h)
  }

  lemma SpentMore(tables0: Tables, level0: map<nat, nat>, tables1: Tables, level1: map<nat, nat>, tables2: Tables,
                  level2: map<nat, nat>,
                  root: nat, lo: nat, a: nat, n: nat)
    requires Spent(tables0, level0, tables1, level1, root, lo, a, n) && a % PAGE_SIZE == 0
    requires PathMade(tables1, level1, tables2, level2, root, a)
    ensures Spent(tables0, level0, tables2, level2, root, lo, a + PAGE_SIZE, n + Missing(tables1, level1, root, a))
  {
    hide Needed, PathMade, Missing;
    forall h: nat | a + PAGE_SIZE <= h <= VA_LIMIT
      ensures Needed(tables0, level0, root, lo, h)
           == n + Missing(tables1, level1, root, a) + Needed(tables2, level2, root, a + PAGE_SIZE, h)
    {
      NeededStep(tables1, level1, tables2, level2, root, a, h);
    }
  }

  /** At the first page in use the frames have sufficed, and behind it no range is
      unused. */
  lemma NotBefore(tables0: Tables, level0: map<nat, nat>, tables: Tables, level: map<nat, nat>, root: nat, lo: nat,
                  a: nat, hi: nat,
                  flags: nat, free0: nat, free: nat)
    requires Mapped(tables0, level0, tables, level, root, lo, a, flags) && root in level0 && level0[root] == 2
    requires lo <= a < hi <= VA_LIMIT && a % PAGE_SIZE == 0 && PteIsValid(Entry(tables, level, root, a))
    requires free <= free0 && Spent(tables0, level0, tables, level, root, lo, a, free0 - free)
    ensures !RunsOut(tables0, level0, root, lo, hi, free0)
  {
    hide Needed, Unused, Mapped, Entry, PteIsValid;
    NeededNone(tables, level, root, a);
    forall h: nat | h <= hi && Unused(tables0, level0, root, lo, h)
      ensures Needed(tables0, level0, root, lo, h) <= free0
    {
      if h > a {
        FoundInUse(tables0, level0, tables, level, root, lo, a, h, flags);
      } else {
        NeededMore(tables0, level0, root, lo, h, a);
      }
    }
  }

  /** Out of frames at a page: it is unused, and the range up to it takes more than
      there were. */
  lemma FoundOut(tables0: Tables, level0: map<nat, nat>, tables: Tables, level: map<nat, nat>, root: nat, lo: nat,
                 a: nat, hi: nat,
                 flags: nat, free0: nat, free: nat)
    requires Mapped(tables0, level0, tables, level, root, lo, a, flags) && Unused(tables0, level0, root, lo, a)
    requires root in level0 && level0[root] == 2 && lo <= a < hi <= VA_LIMIT && a % PAGE_SIZE == 0
    requires free < Missing(tables, level, root, a) && free <= free0
    requires Spent(tables0, level0, tables, level, root, lo, a, free0 - free)
    ensures RunsOut(tables0, level0, root, lo, hi, free0)
  {
    hide Needed, Missing, Entry, PteIsValid, PageOf;
    MissingIsFree(tables, level, root, a);
    NeededOne(tables, level, root, a);
    forall v: nat | v < VA_LIMIT && lo <= PageOf(v) < a + 1 ensures !PteIsValid(Entry(tables0, level0, root, v)) {
      NextPage(v, a);
      NextPage(a, a);
      if PageOf(v) == a {
        SamePageEntry(tables0, level0, root, v, a);
        assert Entry(tables, level, root, a) == Entry(tables0, level0, root, a);
      }
    }
    assert Unused(tables0, level0, root, lo, a + 1);
  }

  /** At the end the frames have covered the range. */
  lemma Covered(tables0: Tables, level0: map<nat, nat>, tables: Tables, level: map<nat, nat>, root: nat, lo: nat,
                a: nat, hi: nat,
                free0: nat, free: nat)
    requires a >= hi && (a == lo || (a % PAGE_SIZE == 0 && a < hi + PAGE_SIZE)) && hi <= VA_LIMIT
    requires free <= free0 && Spent(tables0, level0, tables, level, root, lo, a, free0 - free)
    requires Unused(tables0, level0, root, lo, hi)
    ensures Needed(tables0, level0, root, lo, hi) <= free0 && !RunsOut(tables0, level0, root, lo, hi, free0)
  {
    hide Unused;
    RunsOutUnused(tables0, level0, root, lo, hi, free0);
    NeededNone(tables, level, root, a);
    NeededNone(tables0, level0, root, lo);
    if a == lo {
      NeededMore(tables0, level0, root, lo, hi, lo);
    } else {
      NeededMore(tables0, level0, root, lo, hi, a);
    }
  }

  /** What a done map_page means to the hardware: the page translates to pa with
      the flags bit by bit, or faults if the permissions are not legal, and no
      other page of any space translates differently. */
  lemma MapPageWalks(tables: Tables, level: map<nat, nat>, tables': Tables, level': map<nat, nat>, root: nat, va: nat,
                     pa: nat, flags: nat)
    requires Forest(tables, level) && Forest(tables', level') && Extends(level, level')
    requires root in level && level[root] == 2 && va < VA_LIMIT && pa % PAGE_SIZE == 0 && pa < PA_LIMIT
    requires flags < FLAG_SPACE
    requires OneMore(tables, level, tables', level', root, va, LeafPte(pa, flags))
    ensures Walk(tables', root, va)
         == if LegalLeaf(flags) then Some(Translation(pa, WithFlag(LeafFlags(flags), PTE_V))) else None
    ensures forall r: nat, v: nat ::
      (r in level && level[r] == 2 && v < VA_LIMIT && (r != root || v / PAGE_SIZE != va / PAGE_SIZE)) ==>
      Walk(tables', r, v) == Walk(tables, r, v)
  {
    hide Walk, Entry, LeafPte, Leaf, LegalLeaf, WithFlag;
    ForestKeys(tables, level);
    ForestKeys(tables', level');
    LeafWalk(pa, flags);
    WalkIsEntry(tables', level', root, va);
    forall r: nat, v: nat | r in level && level[r] == 2 && v < VA_LIMIT
      && (r != root || v / PAGE_SIZE != va / PAGE_SIZE)
      ensures Walk(tables', r, v) == Walk(tables, r, v)
    {
      WalkIsEntry(tables, level, r, v);
      WalkIsEntry(tables', level', r, v);
    }
  }

  lemma ExtendsCompose(level0: map<nat, nat>, level1: map<nat, nat>, level2: map<nat, nat>)
    requires Extends(level0, level1) && Extends(level1, level2)
    ensures Extends(level0, level2)
  {
  }

  /** The address the 39-bit indices see. */
  function Wrapped(va: nat): (w: nat)
    ensures w < VA_LIMIT
  {
    va % VA_LIMIT
  }

  lemma WrappedSmall(va: nat)
    requires va < VA_LIMIT
    ensures Wrapped(va) == va
  {
  }

  lemma Split0(q: nat, w: nat)
    ensures (0x80_0000_0000 * q + w) / 0x1000 == 512 * (0x4_0000 * q) + w / 0x1000
  {
  }

  lemma Split1(q: nat, w: nat)
    ensures (0x80_0000_0000 * q + w) / 0x20_0000 == 512 * (0x200 * q) + w / 0x20_0000
  {
  }

  lemma Split2(q: nat, w: nat)
    ensures (0x80_0000_0000 * q + w) / 0x4000_0000 == 512 * q + w / 0x4000_0000
  {
  }

  lemma Mod512(a: nat, x: nat)
    ensures (512 * a + x) % 512 == x % 512
  {
  }

  lemma SplitAddress(va: nat)
    ensures va == 0x80_0000_0000 * (va / VA_LIMIT) + Wrapped(va)
  {
  }

  /** An address and what it wraps to have the same indices. */
  lemma VpnAlias(va: nat, lv: nat)
    requires lv <= 2
    ensures Vpn(va, lv) == Vpn(Wrapped(va), lv)
  {
    hide Wrapped;
    var q, w := va / VA_LIMIT, Wrapped(va);
    SplitAddress(va);
    if lv == 0 {
      Split0(q, w);
      Mod512(0x4_0000 * q, w / 0x1000);
    } else if lv == 1 {
      Split1(q, w);
      Mod512(0x200 * q, w / 0x20_0000);
    } else {
      Split2(q, w);
      Mod512(q, w / 0x4000_0000);
    }
  }

  lemma Aliased(tables: Tables, level: map<nat, nat>, root: nat, va: nat)
    ensures Bottom(tables, level, root, va) == Bottom(tables, level, root, Wrapped(va))
    ensures Entry(tables, level, root, va) == Entry(tables, level, root, Wrapped(va))
    ensures Vpn(va, 0) == Vpn(Wrapped(va), 0)
  {
    VpnAlias(va, 2);
    VpnAlias(va, 1);
    VpnAlias(va, 0);
    hide Vpn, HasFlag;
  }

  class Mmu {
    const frames: Frames.BitmapAllocator
    var tables: Tables
    ghost var level: map<nat, nat>
    ghost var owned: set<nat>  // the frames handed out so far, tables among them

    constructor (frames: Frames.BitmapAllocator)
      requires frames.Valid() && (frames.base + frames.count) * PAGE_SIZE <= PA_LIMIT
      ensures this.frames == frames && Valid() && tables == map[] && owned == {}
    {
      this.frames := frames;
      tables, level, owned := map[], map[], {};
    }

    /** Every frame handed out is allocated, in the managed range. */
    ghost predicate Backed()
      reads this`owned, frames, frames.bitmap
    {
      && frames.Valid() && (frames.base + frames.count) * PAGE_SIZE <= PA_LIMIT
      && forall a :: a in owned ==> Frames.Holds(frames.base, frames.count, frames.Allocated(), a)
    }

    ghost predicate Valid()
      reads this, frames, frames.bitmap
    {
      Backed() && Forest(tables, level) && tables.Keys <= owned
    }

    ghost predicate IsRoot(r: nat)
      reads this
    {
      r in tables && r in level && level[r] == 2
    }

    /** alloc_zeroed: a frame not handed out before, or None when none is free. */
    method AllocZeroed() returns (r: Option<nat>)
      requires Backed()
      modifies this`owned, frames`free, frames.bitmap
      ensures Backed() && (r.None? <==> old(frames.free) == 0)
      ensures r.None? ==> owned == old(owned) && frames.free == old(frames.free)
      ensures r.Some? ==>
        owned == old(owned) + {r.value} && r.value !in old(owned) && frames.free == old(frames.free) - 1
      ensures r.Some? ==> r.value % PAGE_SIZE == 0 && r.value < PA_LIMIT
    {
      hide Frames.Holds, Frames.SetBits;
      ghost var s := frames.Allocated();
      r := frames.Alloc();
      if r.Some? {
        Frames.TookHolds(frames.base, frames.count, s, r.value);
        HeldAddress(frames.base, frames.count, s, r.value);
        owned := owned + {r.value};
      }
    }

    /** A zeroed frame as the root of a new, empty space. */
    method NewSpace() returns (r: Option<nat>)
      requires Valid()
      modifies this, frames`free, frames.bitmap
      ensures Valid() && (r.None? <==> old(frames.free) == 0)
      ensures old(owned) <= owned && tables.Keys == old(tables.Keys) + (owned - old(owned))
      ensures Extends(old(level), level) && SameEntries(old(tables), old(level), tables, level)
      ensures r.Some? ==>
        r.value !in old(tables) && IsRoot(r.value) && EmptySpace(tables, level, r.value) && r.value < PA_LIMIT
          && r.value % PAGE_SIZE == 0
    {
      hide Forest, SameEntries, EmptySpace, Frames.SetBits, Frames.Holds, Entry;
      SameItself(tables, level);
      ForestKeys(tables, level);
      r := AllocZeroed();
      if r.Some? {
        NewRoot(tables, level, r.value);
        tables, level := tables[r.value := ZeroTable()], level[r.value := 2];
      }
    }

    /** One level down from table along va, making the table if it is missing.
        None when the allocator is empty. */
    method Descend(table: nat, va: nat, lv: nat) returns (r: Option<nat>)
      requires Valid() && table in tables && level[table] == lv && 1 <= lv
      modifies this, frames`free, frames.bitmap
      ensures Valid() && Extends(old(level), level) && SameEntries(old(tables), old(level), tables, level)
      ensures old(owned) <= owned && tables.Keys == old(tables.Keys) + (owned - old(owned))
      ensures OneEntry(old(tables), tables, table, Vpn(va, lv))
      ensures r.None? <==> old(Down(tables, level, table, va)).None? && old(frames.free) == 0
      ensures frames.free == old(frames.free) - if old(Down(tables, level, table, va)).None? && r.Some? then 1 else 0
      ensures r.Some? ==>
        r.value in tables && r.value in level && level[r.value] == lv - 1 && Down(tables, level, table, va) == r
      ensures old(Down(tables, level, table, va)).Some? ==>
        tables == old(tables) && level == old(level) && r == old(Down(tables, level, table, va))
      ensures old(Down(tables, level, table, va)).None? && r.Some? ==>
        r.value !in old(tables) && tables[r.value] == ZeroTable()
    {
      hide Forest, SameEntries, Extends, OneEntry, Down, PteToPa, PteFor, Vpn, HasFlag, Frames.SetBits, Frames.Holds;
      Followed(tables, level, table, va, lv);
      var pte := tables[table][Vpn(va, lv)];
      if PteIsValid(pte) {
        SameItself(tables, level);
        return Some(PteToPa(pte));
      }
      ghost var tables0, level0 := tables, level;
      r := AllocZeroed();
      if r.Some? {
        Linked(tables, level, table, va, lv, r.value);
        tables := LinkedTables(tables, table, va, lv, r.value);
        level := level[r.value := lv - 1];
      } else {
        SameItself(tables, level);
      }
    }

    /** The last-level table for va, made with what leads to it where missing.
        This is the loop of map_page over levels 2 and 1. */
    method LeafTable(root: nat, va: nat) returns (r: Option<nat>)
      requires Valid() && IsRoot(root)
      modifies this, frames`free, frames.bitmap
      ensures Valid() && Extends(old(level), level) && SameEntries(old(tables), old(level), tables, level)
      ensures old(owned) <= owned && tables.Keys == old(tables.Keys) + (owned - old(owned))
      ensures r.None? <==> old(frames.free) < old(Missing(tables, level, root, va))
      ensures r.Some? ==> frames.free == old(frames.free - Missing(tables, level, root, va))
      ensures r.Some? ==> PathMade(old(tables), old(level), tables, level, root, va)
      ensures r.Some? ==>
        r.value in tables && r.value in level && level[r.value] == 0 && Bottom(tables, level, root, va) == r
      ensures r.Some? ==> if old(Bottom(tables, level, root, va)).Some?
                          then tables == old(tables) && r == old(Bottom(tables, level, root, va))
                          else tables[r.value] == ZeroTable()
    {
      hide Forest, SameEntries, Down, Bottom, Missing, PathMade, PteToPa, PteFor, Vpn, HasFlag, Frames.SetBits,
        Frames.Holds;
      ghost var tables0, level0 := tables, level;
      TwoSteps(tables0, level0, root, va);
      var t1 := Descend(root, va, 2);
      if t1.None? {
        return None;
      }
      ghost var tables1, level1 := tables, level;
      TwoSteps(tables1, level1, root, va);
      if tables1[t1.value] == ZeroTable() {
        ZeroDown(tables1, level1, t1.value, va);
      }
      r := Descend(t1.value, va, 1);
      EntriesCompose(tables0, level0, tables1, level1, tables, level);
      SameDown(tables1, level1, tables, level, root, va);
      TwoSteps(tables, level, root, va);
      if r.Some? {
        DescendedMakes(tables0, level0, tables1, level1, tables, level, root, t1.value, va);
      }
    }

    /** Map the page at va to pa in the space at root; an address from 2^39 up is
        taken modulo 2^39. Done, or the assert that
        stopped it: it remaps exactly when the entry is already in use, and runs
        out exactly with fewer free frames than tables missing on the path. */
    method MapPage(root: nat, va: nat, pa: nat, flags: nat) returns (r: Mapping)
      requires Valid() && IsRoot(root) && pa < PA_LIMIT && flags < FLAG_SPACE
      modifies this, frames`free, frames.bitmap
      ensures Valid() && Extends(old(level), level)
      ensures old(owned) <= owned && tables.Keys == old(tables.Keys) + (owned - old(owned))
      ensures r != BadRange
      ensures r == Unaligned <==> va % PAGE_SIZE != 0 || pa % PAGE_SIZE != 0
      ensures r == OutOfFrames <==> r != Unaligned && old(frames.free) < old(Missing(tables, level, root, va))
      ensures r == Remap <==> r != Unaligned && old(PteIsValid(Entry(tables, level, root, va)))
      ensures r == Done ==> OneMore(old(tables), old(level), tables, level, root, Wrapped(va), LeafPte(pa, flags))
      ensures r == Done ==> frames.free == old(frames.free - Missing(tables, level, root, va))
      ensures r == Done ==> PathMade(old(tables), old(level), tables, level, root, va)
      ensures r != Done ==> SameEntries(old(tables), old(level), tables, level)
    {
      hide Forest, SameEntries, Entry, Leaf, PteToPa, PteFor, Vpn, HasFlag, Frames.SetBits, Frames.Holds, Bottom,
        OneMore, Wrapped, PathMade, Missing;
      if va % PAGE_SIZE != 0 || pa % PAGE_SIZE != 0 {
        SameItself(tables, level);
        return Unaligned;
      }
      ghost var tables0, level0 := tables, level;
      MissingIsFree(tables, level, root, va);
      var t0 := LeafTable(root, va);
      if t0.None? {
        return OutOfFrames;
      }
      var table, idx := t0.value, Vpn(va, 0);
      Aliased(tables0, level0, root, va);
      Aliased(tables, level, root, va);
      MapLeaf(tables0, level0, tables, level, root, Wrapped(va), table, LeafPte(pa, flags));
      if PteIsValid(tables[table][idx]) {
        return Remap;
      }
      LeafKeepsPath(tables0, level0, tables, level, SetEntry(tables, table, idx, LeafPte(pa, flags)), root, va, table);
      tables := SetEntry(tables, table, idx, LeafPte(pa, flags));
      return Done;
    }

    /** Identity-map the pages from start up to end: done exactly when none of them
        was mapped before and the free frames cover the tables missing on their
        paths; it runs out exactly when they do not before the first page in use. */
    method MapRange(root: nat, start: nat, end: nat, flags: nat) returns (r: Mapping)
      requires Valid() && IsRoot(root) && end <= VA_LIMIT && flags < FLAG_SPACE
      modifies this, frames`free, frames.bitmap
      ensures Valid() && Extends(old(level), level)
      ensures old(owned) <= owned && tables.Keys == old(tables.Keys) + (owned - old(owned))
      ensures r != BadRange
      ensures r == Unaligned <==> start < end && start % PAGE_SIZE != 0
      ensures r == OutOfFrames <==> r != Unaligned && old(RunsOut(tables, level, root, start, end, frames.free))
      ensures r == Remap <==>
        r != Unaligned && !old(RunsOut(tables, level, root, start, end, frames.free))
          && !old(Unused(tables, level, root, start, end))
      ensures r == Done ==> Mapped(old(tables), old(level), tables, level, root, start, end, flags)
      ensures r == Done ==> old(Unused(tables, level, root, start, end))
      ensures r == Done ==> old(Needed(tables, level, root, start, end)) <= old(frames.free)
    {
      hide Forest, SameEntries, Entry, LeafPte, PteIsValid, OneMore, Mapped, Unused, Extends, Missing, Wrapped,
        Frames.SetBits, Frames.Holds,
        PathMade, Needed, RunsOut;
      ghost var tables0, level0, free0 := tables, level, frames.free;
      NothingMapped(tables, level, root, start, flags);
      SameItself(tables, level);
      var addr := start;
      r := Done;
      while addr < end
        invariant Valid() && IsRoot(root) && Extends(level0, level)
        invariant old(owned) <= owned && tables.Keys == old(tables.Keys) + (owned - old(owned))
        invariant r == Done && start <= addr
        invariant (addr == start || (addr % PAGE_SIZE == start % PAGE_SIZE == 0 && addr < end + PAGE_SIZE))
        invariant Mapped(tables0, level0, tables, level, root, start, addr, flags)
        invariant Unused(tables0, level0, root, start, addr)
        invariant frames.free <= free0
        invariant Spent(tables0, level0, tables, level, root, start, addr, free0 - frames.free)
      {
        ghost var tables1, level1, free1 := tables, level, frames.free;
        WrappedSmall(addr);
        r := MapPage(root, addr, addr, flags);
        ExtendsCompose(level0, level1, level);
        if r != Done {
          if r == Remap {
            FoundInUse(tables0, level0, tables1, level1, root, start, addr, end, flags);
            NotBefore(tables0, level0, tables1, level1, root, start, addr, end, flags, free0, free1);
          } else if r == OutOfFrames {
            FoundOut(tables0, level0, tables1, level1, root, start, addr, end, flags, free0, free1);
          }
          return;
        }
        MappedMore(tables0, level0, tables1, level1, tables, level, root, start, addr, flags);
        SpentMore(tables0, level0, tables1, level1, tables, level, root, start, addr, free0 - free1);
        addr := addr + PAGE_SIZE;
      }
      RangeEnd(tables0, level0, tables, level, root, start, addr, end, flags);
      Covered(tables0, level0, tables, level, root, start, addr, end, free0, frames.free);
    }
  }
}
