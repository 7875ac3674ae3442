/** Sv39 page tables: the bits of an entry, the hardware's three-level walk, and
    the tree shape that makes mapping one page change nothing else. */
module Paging {
  import opened Options

  const PAGE_SIZE: nat := 4096
  const ENTRIES: nat := 512
  const PTE_V: nat := 1
  const PTE_R: nat := 2
  const PTE_W: nat := 4
  const PTE_X: nat := 8
  const PTE_U: nat := 16
  const PTE_G: nat := 32
  const PTE_A: nat := 64
  const PTE_D: nat := 128
  const FLAG_SPACE: nat := 1024          // the flag bits 9:0
  const PPN_SPACE: nat := 0x1000_0000_0000  // 2^44
  const VA_LIMIT: nat := 0x80_0000_0000     // 2^39
  const PA_LIMIT: nat := 0x100_0000_0000_0000  // 2^56
  const SATP_SV39: nat := 0x8000_0000_0000_0000  // mode 8 in bits 63:60

  // ---- bits ----

  predicate HasFlag(x: nat, f: nat)
    requires f > 0
  {
    x / f % 2 == 1
  }

  function WithFlag(x: nat, f: nat): nat
    requires f > 0
  {
    if HasFlag(x, f) then x else x + f
  }

  /** Sv39 mode and the page number of the root. */
  function MakeSatp(root: nat): nat {
    SATP_SV39 + root / PAGE_SIZE
  }

  /** The hardware reads mode 8 and the same root back. */
  lemma SatpRoundTrip(root: nat)
    requires root % PAGE_SIZE == 0 && root < PA_LIMIT
    ensures MakeSatp(root) / 0x1000_0000_0000_0000 == 8
    ensures MakeSatp(root) % PPN_SPACE * PAGE_SIZE == root
  {
  }

  /** Bytes one entry of a table at this level spans. */
  function Span(level: nat): nat
    requires level <= 2
  {
    if level == 0 then PAGE_SIZE else if level == 1 then PAGE_SIZE * ENTRIES else PAGE_SIZE * ENTRIES * ENTRIES
  }

  function Vpn(va: nat, level: nat): (i: nat)
    requires level <= 2
    ensures i < ENTRIES
  {
    va / Span(level) % ENTRIES
  }

  function PteFor(pa: nat, flags: nat): nat {
    pa / PAGE_SIZE * FLAG_SPACE + WithFlag(flags, PTE_V)
  }

  function PteToPa(pte: nat): nat {
    pte / FLAG_SPACE % PPN_SPACE * PAGE_SIZE
  }

  predicate PteIsValid(pte: nat) {
    HasFlag(pte, PTE_V)
  }

  /** An entry gives back its address and flags exactly when the address is a
      page frame of the 56-bit physical space. */
  lemma PteRoundTrip(pa: nat, flags: nat)
    requires flags < FLAG_SPACE
    ensures PteFor(pa, flags) % 0x400 == WithFlag(flags, PTE_V) && PteFor(pa, flags) / 0x400 == pa / 0x1000
    ensures PteIsValid(PteFor(pa, flags))
    ensures PteToPa(PteFor(pa, flags)) == pa <==> pa % PAGE_SIZE == 0 && pa < PA_LIMIT
  {
    var f := WithFlag(flags, PTE_V);
    assert f < FLAG_SPACE && f % 2 == 1;
    SplitEntry(pa / PAGE_SIZE, f);
    SameParity(pa / PAGE_SIZE, f);
    FrameNumber(pa);
  }

  lemma SplitEntry(q: nat, f: nat)
    requires f < FLAG_SPACE
    ensures (q * FLAG_SPACE + f) / FLAG_SPACE == q && (q * FLAG_SPACE + f) % FLAG_SPACE == f
  {
  }

  lemma SameParity(q: nat, f: nat)
    ensures (q * FLAG_SPACE + f) % 2 == f % 2
  {
    var h, r := f / 2, f % 2;
    assert q * FLAG_SPACE + f == 2 * (512 * q + h) + r;
  }

  /** The 44-bit page number stands for its address exactly within 56 bits. */
  lemma FrameNumber(pa: nat)
    ensures pa / PAGE_SIZE % PPN_SPACE * PAGE_SIZE == pa <==> pa % PAGE_SIZE == 0 && pa < PA_LIMIT
  {
    var q := pa / PAGE_SIZE;
    assert q < PPN_SPACE <==> pa < PA_LIMIT;
  }

  /** Two addresses below 2^39 share all three indices exactly when they lie on
      the same page. */
  lemma SamePage(va: nat, vb: nat)
    requires va < VA_LIMIT && vb < VA_LIMIT
    ensures va / PAGE_SIZE == vb / PAGE_SIZE <==>
      Vpn(va, 2) == Vpn(vb, 2) && Vpn(va, 1) == Vpn(vb, 1) && Vpn(va, 0) == Vpn(vb, 0)
  {
    PageOfIndices(va);
    PageOfIndices(vb);
  }

  lemma PageOfIndices(va: nat)
    requires va < VA_LIMIT
    ensures va / PAGE_SIZE == Vpn(va, 2) * ENTRIES * ENTRIES + Vpn(va, 1) * ENTRIES + Vpn(va, 0)
  {
    var p := va / PAGE_SIZE;
    assert va / Span(1) == p / ENTRIES;
    assert va / Span(2) == p / ENTRIES / ENTRIES;
  }

  // ---- the walk ----

  type Tables = map<nat, seq<nat>>

  datatype Translation = Translation(pa: nat, flags: nat)

  /** What an entry says at the last level: readable or executable, and not
      writable without being readable. */
  function Leaf(pte: nat): Option<Translation> {
    if !HasFlag(pte, PTE_V) || (!HasFlag(pte, PTE_R) && HasFlag(pte, PTE_W)) then None
    else if HasFlag(pte, PTE_R) || HasFlag(pte, PTE_X) then Some(Translation(PteToPa(pte), pte % FLAG_SPACE))
    else None
  }

  /** The walk of section 4.3.2 of the RISC-V Privileged Architecture: a leaf
      above the last level is a superpage, refused when misaligned. */
  function WalkFrom(tables: Tables, table: nat, va: nat, level: nat): Option<Translation>
    requires level <= 2
    decreases level
  {
    if table !in tables || |tables[table]| != ENTRIES then None
    else
      var pte := tables[table][Vpn(va, level)];
      if level == 0 then Leaf(pte)
      else if !HasFlag(pte, PTE_V) || (!HasFlag(pte, PTE_R) && HasFlag(pte, PTE_W)) then None
      else if HasFlag(pte, PTE_R) || HasFlag(pte, PTE_X) then
        (if PteToPa(pte) % Span(level) != 0 then None
         else Some(Translation(PteToPa(pte) + va % Span(level) / PAGE_SIZE * PAGE_SIZE, pte % FLAG_SPACE)))
      else WalkFrom(tables, PteToPa(pte), va, level - 1)
  }

  function Walk(tables: Tables, root: nat, va: nat): Option<Translation> {
    WalkFrom(tables, root, va, 2)
  }

  // ---- the forest ----

  /** Entry i of table t points down: t is above the last level and the entry is
      valid. */
  predicate Points(tables: Tables, level: map<nat, nat>, t: nat, i: nat) {
    && t in tables && t in level && level[t] >= 1 && i < |tables[t]| && PteIsValid(tables[t][i])
  }

  /** Page tables of any number of address spaces, none shared: every table has
      a level, an entry above the last level is a bare pointer to a table one
      level down, and no two entries point at the same table. */
  ghost predicate Forest(tables: Tables, level: map<nat, nat>) {
    && level.Keys == tables.Keys
    && (forall t :: t in tables ==> |tables[t]| == ENTRIES && level[t] <= 2 && t % PAGE_SIZE == 0 && t < PA_LIMIT)
    && (forall t: nat, i: nat :: Points(tables, level, t, i) ==>
          && tables[t][i] % FLAG_SPACE == PTE_V
          && PteToPa(tables[t][i]) in tables
          && level[PteToPa(tables[t][i])] == level[t] - 1)
    && (forall t: nat, i: nat, t': nat, i': nat ::
          (Points(tables, level, t, i) && Points(tables, level, t', i')
            && PteToPa(tables[t][i]) == PteToPa(tables[t'][i']))
          ==> t == t' && i == i')
  }

  /** Tables may come, and keep their level. */
  ghost predicate Extends(level: map<nat, nat>, level': map<nat, nat>) {
    forall t :: t in level ==> t in level' && level'[t] == level[t]
  }

  /** The table one step down from t for va, if there is one. */
  function Down(tables: Tables, level: map<nat, nat>, t: nat, va: nat): Option<nat>
    requires t in level && level[t] <= 2
  {
    if Points(tables, level, t, Vpn(va, level[t])) then Some(PteToPa(tables[t][Vpn(va, level[t])])) else None
  }

  /** The last-level table on the path of va from root. */
  function Bottom(tables: Tables, level: map<nat, nat>, root: nat, va: nat): Option<nat> {
    if root in level && level[root] == 2 then
      match Down(tables, level, root, va)
      case None => None
      case Some(t1) => if t1 in level && level[t1] == 1 then Down(tables, level, t1, va) else None
    else None
  }

  lemma PointerFlags(pte: nat)
    requires pte % FLAG_SPACE == PTE_V
    ensures HasFlag(pte, PTE_V) && !HasFlag(pte, PTE_R) && !HasFlag(pte, PTE_W) && !HasFlag(pte, PTE_X)
  {
    var q := pte / FLAG_SPACE;
    assert pte == FLAG_SPACE * q + 1;
    assert pte / PTE_R == 512 * q;
    assert pte / PTE_W == 256 * q;
    assert pte / PTE_X == 128 * q;
  }

  /** The leaf entry for va in the space at root; 0 where there is no table. */
  function Entry(tables: Tables, level: map<nat, nat>, root: nat, va: nat): nat {
    match Bottom(tables, level, root, va)
    case None => 0
    case Some(t0) => if t0 in tables && |tables[t0]| == ENTRIES then tables[t0][Vpn(va, 0)] else 0
  }

  lemma ZeroLeaf()
    ensures Leaf(0) == None && !PteIsValid(0)
  {
  }

  lemma BottomIsTable(tables: Tables, level: map<nat, nat>, root: nat, va: nat)
    requires Forest(tables, level) && Bottom(tables, level, root, va).Some?
    ensures var t0 := Bottom(tables, level, root, va).value;
            t0 in tables && t0 in level && level[t0] == 0 && |tables[t0]| == ENTRIES
  {
    hide HasFlag, PteToPa, Vpn;
    assert Points(tables, level, root, Vpn(va, 2));
    var t1 := Down(tables, level, root, va).value;
    assert Points(tables, level, t1, Vpn(va, 1));
  }

  /** In a forest the hardware walk reads exactly the leaf entry. */
  lemma WalkIsEntry(tables: Tables, level: map<nat, nat>, root: nat, va: nat)
    requires Forest(tables, level) && root in tables && level[root] == 2
    ensures Walk(tables, root, va) == Leaf(Entry(tables, level, root, va))
  {
    ZeroLeaf();
    hide HasFlag, PteToPa;
    var i2 := Vpn(va, 2);
    if Points(tables, level, root, i2) {
      PointerFlags(tables[root][i2]);
      var t1 := PteToPa(tables[root][i2]);
      var i1 := Vpn(va, 1);
      if Points(tables, level, t1, i1) {
        PointerFlags(tables[t1][i1]);
      }
    }
  }

  /** A bottom table is on one path only. */
  lemma BottomUnique(tables: Tables, level: map<nat, nat>, r: nat, va: nat, r': nat, va': nat)
    requires Forest(tables, level)
    requires Bottom(tables, level, r, va).Some? && Bottom(tables, level, r, va) == Bottom(tables, level, r', va')
    ensures r == r' && Vpn(va, 2) == Vpn(va', 2) && Vpn(va, 1) == Vpn(va', 1)
  {
    hide HasFlag, PteToPa, Vpn;
    var t1, t1' := Down(tables, level, r, va).value, Down(tables, level, r', va').value;
    assert Points(tables, level, t1, Vpn(va, 1)) && Points(tables, level, t1', Vpn(va', 1));
    assert t1 == t1';
    assert Points(tables, level, r, Vpn(va, 2)) && Points(tables, level, r', Vpn(va', 2));
  }

  // ---- writing entries ----

  function SetRow(row: seq<nat>, i: nat, pte: nat): seq<nat>
    requires i < |row|
  {
    row[i := pte]
  }

  /** Write entry i of table t. */
  function SetEntry(tables: Tables, t: nat, i: nat, pte: nat): Tables
    requires t in tables && i < |tables[t]|
  {
    tables[t := SetRow(tables[t], i, pte)]
  }

  /** A zeroed frame, read as a table. */
  function ZeroTable(): (row: seq<nat>)
    ensures |row| == ENTRIES && forall i :: 0 <= i < ENTRIES ==> row[i] == 0
  {
    seq(ENTRIES, _ => 0)
  }

  /** A leaf write keeps the forest and changes one walk: that of the page whose
      path ends in this entry. */
  lemma LeafWrite(tables: Tables, level: map<nat, nat>, t0: nat, i: nat, pte: nat)
    requires Forest(tables, level) && t0 in tables && level[t0] == 0 && i < ENTRIES
    ensures Forest(SetEntry(tables, t0, i, pte), level)
    ensures forall r: nat, va: nat :: Bottom(SetEntry(tables, t0, i, pte), level, r, va) == Bottom(tables, level, r, va)
  {
    hide HasFlag, PteToPa, Vpn;
    var tables' := SetEntry(tables, t0, i, pte);
    assert forall t: nat, j: nat :: Points(tables', level, t, j) <==> Points(tables, level, t, j);
    assert forall t: nat, j: nat :: Points(tables', level, t, j) ==> tables'[t][j] == tables[t][j];
  }

  /** Linking a fresh zeroed table below an invalid entry keeps the forest. */
  lemma LinkKeeps(tables: Tables, level: map<nat, nat>, t: nat, i: nat, f: nat)
    requires Forest(tables, level) && t in tables && level[t] >= 1 && i < ENTRIES && !PteIsValid(tables[t][i])
    requires f !in tables && f % PAGE_SIZE == 0 && f < PA_LIMIT
    ensures Forest(SetEntry(tables[f := ZeroTable()], t, i, PteFor(f, 0)), level[f := level[t] - 1])
  {
    var tables' := SetEntry(tables[f := ZeroTable()], t, i, PteFor(f, 0));
    var level' := level[f := level[t] - 1];
    PteRoundTrip(f, 0);
    hide PteFor, PteToPa;
    assert forall j: nat :: !Points(tables', level', f, j);
    assert forall x: nat, j: nat :: Points(tables', level', x, j) <==>
      (x == t && j == i) || Points(tables, level, x, j);
    assert forall x: nat, j: nat :: Points(tables, level, x, j) ==> tables'[x][j] == tables[x][j];
    assert Points(tables', level', t, i) && PteToPa(tables'[t][i]) == f;
  }

  /** Every space of the first keeps its entries in the second. */
  ghost predicate SameEntries(tables: Tables, level: map<nat, nat>, tables': Tables, level': map<nat, nat>) {
    forall r: nat, va: nat :: r in level && level[r] == 2 ==>
      Entry(tables', level', r, va) == Entry(tables, level, r, va)
  }

  /** Linking changes no leaf entry: the new table holds none. */
  lemma LinkEntries(tables: Tables, level: map<nat, nat>, t: nat, i: nat, f: nat)
    requires Forest(tables, level) && t in tables && level[t] >= 1 && i < ENTRIES && !PteIsValid(tables[t][i])
    requires f !in tables && f % PAGE_SIZE == 0 && f < PA_LIMIT
    ensures SameEntries(tables, level, SetEntry(tables[f := ZeroTable()], t, i, PteFor(f, 0)), level[f := level[t] - 1])
  {
    var tables' := SetEntry(tables[f := ZeroTable()], t, i, PteFor(f, 0));
    var level' := level[f := level[t] - 1];
    forall r: nat, va: nat | r in level && level[r] == 2
      ensures Entry(tables', level', r, va) == Entry(tables, level, r, va)
    {
      LinkBottom(tables, level, t, i, f, r, va);
      if Bottom(tables, level, r, va).Some? {
        BottomIsTable(tables, level, r, va);
      }
    }
  }

  lemma LinkBottom(tables: Tables, level: map<nat, nat>, t: nat, i: nat, f: nat, r: nat, va: nat)
    requires Forest(tables, level) && t in tables && level[t] >= 1 && i < ENTRIES && !PteIsValid(tables[t][i])
    requires f !in tables && f % PAGE_SIZE == 0 && f < PA_LIMIT && r in level && level[r] == 2
    ensures var b' := Bottom(SetEntry(tables[f := ZeroTable()], t, i, PteFor(f, 0)), level[f := level[t] - 1], r, va);
            b' == Bottom(tables, level, r, va) || (b' == Some(f) && Bottom(tables, level, r, va) == None)
    ensures Bottom(tables, level, r, va).Some? ==> Bottom(tables, level, r, va).value != f
  {
    var tables' := SetEntry(tables[f := ZeroTable()], t, i, PteFor(f, 0));
    var level' := level[f := level[t] - 1];
    PteRoundTrip(f, 0);
    hide PteFor, PteToPa, Vpn;
    assert forall j: nat :: !Points(tables', level', f, j);
    assert Points(tables', level', t, i) && PteToPa(tables'[t][i]) == f;
    var i2, i1 := Vpn(va, 2), Vpn(va, 1);
    assert Points(tables', level', r, i2) <==> (r == t && i2 == i) || Points(tables, level, r, i2);
    if Points(tables, level, r, i2) {
      var t1 := PteToPa(tables[r][i2]);
      assert Points(tables', level', t1, i1) <==> (t1 == t && i1 == i) || Points(tables, level, t1, i1);
    }
  }

  /** The entries of every space of level are as before, save that the page of
      va in the space at root has entry pte. */
  ghost predicate OneMore(tables: Tables, level: map<nat, nat>, tables': Tables, level': map<nat, nat>, root: nat,
                          va: nat, pte: nat) {
    forall r: nat, v: nat :: r in level && level[r] == 2 && v < VA_LIMIT ==>
      Entry(tables', level', r, v) == if r == root && v / PAGE_SIZE == va / PAGE_SIZE then pte
        else Entry(tables, level, r, v)
  }

  /** A leaf write changes the entry of one page of one address space. */
  lemma LeafEntries(tables: Tables, level: map<nat, nat>, root: nat, va: nat, t0: nat, pte: nat)
    requires Forest(tables, level) && va < VA_LIMIT && Bottom(tables, level, root, va) == Some(t0)
    requires t0 in tables && level[t0] == 0
    ensures OneMore(tables, level, SetEntry(tables, t0, Vpn(va, 0), pte), level, root, va, pte)
  {
    var tables' := SetEntry(tables, t0, Vpn(va, 0), pte);
    LeafWrite(tables, level, t0, Vpn(va, 0), pte);
    forall r: nat, v: nat | r in level && level[r] == 2 && v < VA_LIMIT
      ensures Entry(tables', level, r, v)
           == if r == root && v / PAGE_SIZE == va / PAGE_SIZE then pte else Entry(tables, level, r, v)
    {
      hide Bottom, Vpn, HasFlag;
      SamePage(va, v);
      if Bottom(tables, level, r, v) == Some(t0) {
        BottomUnique(tables, level, root, va, r, v);
      } else if Bottom(tables, level, r, v).Some? {
        BottomIsTable(tables, level, r, v);
      }
    }
  }

  ghost predicate EmptySpace(tables: Tables, level: map<nat, nat>, root: nat) {
    forall va: nat :: Entry(tables, level, root, va) == 0
  }

  /** A new root: an empty address space, and no change to the others. */
  lemma NewRoot(tables: Tables, level: map<nat, nat>, f: nat)
    requires Forest(tables, level) && f !in tables && f % PAGE_SIZE == 0 && f < PA_LIMIT
    ensures Forest(tables[f := ZeroTable()], level[f := 2])
    ensures SameEntries(tables, level, tables[f := ZeroTable()], level[f := 2])
    ensures EmptySpace(tables[f := ZeroTable()], level[f := 2], f)
  {
    var tables' := tables[f := ZeroTable()];
    var level' := level[f := 2];
    ZeroLeaf();
    hide PteToPa, Vpn, HasFlag;
    assert forall t: nat, i: nat :: Points(tables', level', t, i) <==> Points(tables, level, t, i);
    assert forall t: nat, i: nat :: Points(tables, level, t, i) ==> tables'[t][i] == tables[t][i];
    forall r: nat, va: nat | r in level && level[r] == 2
      ensures Entry(tables', level', r, va) == Entry(tables, level, r, va)
    {
      assert Bottom(tables', level', r, va) == Bottom(tables, level, r, va);
      if Bottom(tables, level, r, va).Some? {
        BottomIsTable(tables, level, r, va);
      }
    }
  }
}
