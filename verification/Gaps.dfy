/** The tables that are missing on the paths of a range of addresses, and how one
    mapped page makes them fewer. */
module Gaps {
  import opened Options
  import opened Paging

  predicate Rooted(level: map<nat, nat>, root: nat) {
    root in level && level[root] == 2
  }

  /** The path of va has its middle table. */
  predicate HasMiddle(tables: Tables, level: map<nat, nat>, root: nat, va: nat) {
    Rooted(level, root) && Down(tables, level, root, va).Some?
  }

  predicate HasBottom(tables: Tables, level: map<nat, nat>, root: nat, va: nat) {
    Bottom(tables, level, root, va).Some?
  }

  /** How many tables the path of va from root still lacks. */
  function Missing(tables: Tables, level: map<nat, nat>, root: nat, va: nat): nat {
    if HasBottom(tables, level, root, va) then 0 else if HasMiddle(tables, level, root, va) then 1 else 2
  }

  /** Two addresses take the same entry of the root, and of the middle table. */
  predicate SameMiddle(v: nat, w: nat) {
    Vpn(v, 2) == Vpn(w, 2)
  }

  function BottomAt(v: nat): (nat, nat) {
    (Vpn(v, 2), Vpn(v, 1))
  }

  predicate SameBottom(v: nat, w: nat) {
    BottomAt(v) == BottomAt(w)
  }

  /** The middle tables, and the bottom tables, that the addresses from lo up to hi
      lack, named by the indices that lead to them. */
  function MiddleGaps(tables: Tables, level: map<nat, nat>, root: nat, lo: nat, hi: nat): set<nat> {
    set v: nat | lo <= v < hi && !HasMiddle(tables, level, root, v) :: Vpn(v, 2)
  }

  function BottomGaps(tables: Tables, level: map<nat, nat>, root: nat, lo: nat, hi: nat): set<(nat, nat)> {
    set v: nat | lo <= v < hi && !HasBottom(tables, level, root, v) :: BottomAt(v)
  }

  /** How many tables mapping the addresses from lo up to hi takes. */
  function Needed(tables: Tables, level: map<nat, nat>, root: nat, lo: nat, hi: nat): nat {
    |MiddleGaps(tables, level, root, lo, hi)| + |BottomGaps(tables, level, root, lo, hi)|
  }

  /** The path of a is made whole and no other table is made. */
  ghost predicate PathMade(tables: Tables, level: map<nat, nat>, tables': Tables, level': map<nat, nat>, root: nat,
                           a: nat) {
    forall v: nat ::
      && (HasMiddle(tables', level', root, v) <==> HasMiddle(tables, level, root, v) || SameMiddle(v, a))
      && (HasBottom(tables', level', root, v) <==> HasBottom(tables, level, root, v) || SameBottom(v, a))
  }

  lemma SubsetSize<T>(a: set<T>, b: set<T>)
    requires a <= b
    ensures |a| <= |b|
  {
    assert b == a + (b - a);
  }

  /** A longer range takes no fewer tables. */
  lemma NeededMore(tables: Tables, level: map<nat, nat>, root: nat, lo: nat, hi: nat, hi': nat)
    requires hi <= hi'
    ensures Needed(tables, level, root, lo, hi) <= Needed(tables, level, root, lo, hi')
  {
    hide HasMiddle, HasBottom, Vpn, BottomAt;
    SubsetSize(MiddleGaps(tables, level, root, lo, hi), MiddleGaps(tables, level, root, lo, hi'));
    SubsetSize(BottomGaps(tables, level, root, lo, hi), BottomGaps(tables, level, root, lo, hi'));
  }

  lemma NeededNone(tables: Tables, level: map<nat, nat>, root: nat, lo: nat)
    ensures Needed(tables, level, root, lo, lo) == 0
  {
    hide HasMiddle, HasBottom, Vpn, BottomAt;
    assert MiddleGaps(tables, level, root, lo, lo) == {};
    assert BottomGaps(tables, level, root, lo, lo) == {};
  }

  lemma SameReach(tables: Tables, level: map<nat, nat>, root: nat, v: nat, w: nat)
    ensures SameMiddle(v, w) ==> HasMiddle(tables, level, root, v) == HasMiddle(tables, level, root, w)
    ensures SameBottom(v, w) ==> HasBottom(tables, level, root, v) == HasBottom(tables, level, root, w)
  {
    hide Vpn, PteToPa;
  }

  /** A missing middle table lacks its bottom tables too. */
  lemma MiddleFirst(tables: Tables, level: map<nat, nat>, root: nat, v: nat)
    ensures HasBottom(tables, level, root, v) ==> HasMiddle(tables, level, root, v)
  {
  }

  /** The addresses of a page share its path. */
  lemma InPage(v: nat, a: nat)
    requires a % PAGE_SIZE == 0 && a <= v < a + PAGE_SIZE && v < VA_LIMIT
    ensures SameMiddle(v, a) && SameBottom(v, a)
  {
    assert v / PAGE_SIZE == a / PAGE_SIZE;
    SamePage(v, a);
  }

  lemma MiddleStep(tables: Tables, level: map<nat, nat>, tables': Tables, level': map<nat, nat>, root: nat, a: nat,
                   hi: nat)
    requires PathMade(tables, level, tables', level', root, a)
    requires a % PAGE_SIZE == 0 && a < hi <= VA_LIMIT
    ensures |MiddleGaps(tables, level, root, a, hi)| == |MiddleGaps(tables', level', root, a + PAGE_SIZE, hi)|
         + if HasMiddle(tables, level, root, a) then 0 else 1
  {
    hide HasMiddle, HasBottom, Vpn, BottomAt;
    var g, g' := MiddleGaps(tables, level, root, a, hi), MiddleGaps(tables', level', root, a + PAGE_SIZE, hi);
    forall k | k in g && k != Vpn(a, 2) ensures k in g' {
      var v: nat :| a <= v < hi && !HasMiddle(tables, level, root, v) && Vpn(v, 2) == k;
      if v < a + PAGE_SIZE {
        InPage(v, a);
      }
      assert !HasMiddle(tables', level', root, v);
    }
    forall k | k in g' ensures k in g && k != Vpn(a, 2) {
      var v: nat :| a + PAGE_SIZE <= v < hi && !HasMiddle(tables', level', root, v) && Vpn(v, 2) == k;
      assert !SameMiddle(v, a);
    }
    if HasMiddle(tables, level, root, a) {
      if Vpn(a, 2) in g {
        var v: nat :| a <= v < hi && !HasMiddle(tables, level, root, v) && Vpn(v, 2) == Vpn(a, 2);
        SameReach(tables, level, root, v, a);
      }
      assert g == g';
    } else {
      assert g == g' + {Vpn(a, 2)};
    }
  }

  lemma BottomStep(tables: Tables, level: map<nat, nat>, tables': Tables, level': map<nat, nat>, root: nat, a: nat,
                   hi: nat)
    requires PathMade(tables, level, tables', level', root, a)
    requires a % PAGE_SIZE == 0 && a < hi <= VA_LIMIT
    ensures |BottomGaps(tables, level, root, a, hi)| == |BottomGaps(tables', level', root, a + PAGE_SIZE, hi)|
         + if HasBottom(tables, level, root, a) then 0 else 1
  {
    hide HasMiddle, HasBottom, Vpn, BottomAt;
    var g, g' := BottomGaps(tables, level, root, a, hi), BottomGaps(tables', level', root, a + PAGE_SIZE, hi);
    var own := BottomAt(a);
    forall k | k in g && k != own ensures k in g' {
      var v: nat :| a <= v < hi && !HasBottom(tables, level, root, v) && BottomAt(v) == k;
      if v < a + PAGE_SIZE {
        InPage(v, a);
      }
      assert !HasBottom(tables', level', root, v);
    }
    forall k | k in g' ensures k in g && k != own {
      var v: nat :| a + PAGE_SIZE <= v < hi && !HasBottom(tables', level', root, v) && BottomAt(v) == k;
      assert !SameBottom(v, a);
    }
    if HasBottom(tables, level, root, a) {
      if own in g {
        var v: nat :| a <= v < hi && !HasBottom(tables, level, root, v) && BottomAt(v) == own;
        SameReach(tables, level, root, v, a);
      }
      assert g == g';
    } else {
      assert g == g' + {own};
    }
  }

  /** Mapping the first page of a range takes the tables its path lacks, and leaves
      the rest of the range that many fewer. */
  lemma NeededStep(tables: Tables, level: map<nat, nat>, tables': Tables, level': map<nat, nat>, root: nat, a: nat,
                   hi: nat)
    requires PathMade(tables, level, tables', level', root, a)
    requires a % PAGE_SIZE == 0 && a < hi <= VA_LIMIT
    ensures Needed(tables, level, root, a, hi)
         == Missing(tables, level, root, a) + Needed(tables', level', root, a + PAGE_SIZE, hi)
  {
    hide HasMiddle, HasBottom, MiddleGaps, BottomGaps, PathMade;
    MiddleFirst(tables, level, root, a);
    MiddleStep(tables, level, tables', level', root, a, hi);
    BottomStep(tables, level, tables', level', root, a, hi);
  }

  /** One page needs what its path lacks. */
  lemma NeededOne(tables: Tables, level: map<nat, nat>, root: nat, a: nat)
    ensures Needed(tables, level, root, a, a + 1) == Missing(tables, level, root, a)
  {
    hide HasMiddle, HasBottom, Vpn, BottomAt;
    MiddleFirst(tables, level, root, a);
    assert MiddleGaps(tables, level, root, a, a + 1) == if HasMiddle(tables, level, root, a) then {} else {Vpn(a, 2)};
    assert BottomGaps(tables, level, root, a, a + 1) == if HasBottom(tables, level, root, a) then {} else {BottomAt(a)};
  }

  // ---- making a path ----

  /** All tables stay, and of their entries only one of t may change. */
  ghost predicate OneEntry(tables: Tables, tables': Tables, t: nat, i: nat) {
    && (forall x: nat :: x in tables ==> x in tables' && |tables'[x]| == |tables[x]|)
    && (forall x: nat :: x in tables && x != t ==> tables'[x] == tables[x])
    && (t in tables ==> forall j: nat :: j < |tables[t]| && j != i ==> tables'[t][j] == tables[t][j])
  }

  /** One step down from a table of which one entry changed. */
  lemma DownKept(tables: Tables, level: map<nat, nat>, tables': Tables, level': map<nat, nat>, x: nat, t: nat, a: nat,
                 v: nat)
    requires t in level && 1 <= level[t] <= 2 && OneEntry(tables, tables', t, Vpn(a, level[t]))
    requires Extends(level, level')
    requires x in tables && x in level && level[x] <= 2 && (x != t || Vpn(v, level[t]) != Vpn(a, level[t]))
    ensures Down(tables', level', x, v) == Down(tables, level, x, v)
  {
    hide Vpn, PteToPa, HasFlag;
  }

  /** Two entries of a table do not lead to the same table. */
  lemma DownApart(tables: Tables, level: map<nat, nat>, t: nat, a: nat, v: nat)
    requires Forest(tables, level) && t in level && level[t] <= 2 && Vpn(v, level[t]) != Vpn(a, level[t])
    requires Down(tables, level, t, a).Some? && Down(tables, level, t, v).Some?
    ensures Down(tables, level, t, a) != Down(tables, level, t, v)
  {
    hide Vpn, PteToPa, HasFlag;
  }

  lemma DownLevel(tables: Tables, level: map<nat, nat>, t: nat, a: nat)
    requires Forest(tables, level) && t in level && level[t] <= 2 && Down(tables, level, t, a).Some?
    ensures var d := Down(tables, level, t, a).value; d in tables && d in level && level[d] == level[t] - 1
  {
    hide Vpn, PteToPa, HasFlag;
  }

  /** What an empty table leads to: nothing. */
  lemma ZeroDown(tables: Tables, level: map<nat, nat>, t: nat, va: nat)
    requires t in tables && tables[t] == ZeroTable() && t in level && level[t] <= 2
    ensures Down(tables, level, t, va).None?
  {
    ZeroLeaf();
  }

  /** Descending twice along a, making each table that is missing. */
  ghost predicate Descended(tables0: Tables, level0: map<nat, nat>, tables1: Tables, level1: map<nat, nat>,
                            tables2: Tables, level2: map<nat, nat>, root: nat, t1: nat, a: nat)
  {
    && Forest(tables0, level0) && Forest(tables1, level1) && Forest(tables2, level2)
    && Rooted(level0, root) && root in tables0 && Extends(level0, level1) && Extends(level1, level2)
    && OneEntry(tables0, tables1, root, Vpn(a, 2)) && Down(tables1, level1, root, a) == Some(t1)
    && (if Down(tables0, level0, root, a).Some? then tables1 == tables0 && level1 == level0
       else tables1[t1] == ZeroTable())
    && t1 in tables1 && t1 in level1 && level1[t1] == 1
    && OneEntry(tables1, tables2, t1, Vpn(a, 1)) && Down(tables2, level2, t1, a).Some?
  }

  /** Off the entry of the root nothing is made. */
  lemma ElsewhereKept(tables0: Tables, level0: map<nat, nat>, tables1: Tables, level1: map<nat, nat>,
                      tables2: Tables, level2: map<nat, nat>, root: nat, t1: nat, a: nat, v: nat)
    requires Descended(tables0, level0, tables1, level1, tables2, level2, root, t1, a) && !SameMiddle(v, a)
    ensures HasMiddle(tables2, level2, root, v) == HasMiddle(tables0, level0, root, v)
    ensures HasBottom(tables2, level2, root, v) == HasBottom(tables0, level0, root, v)
  {
    hide Forest, OneEntry, Down, Vpn, Extends;
    Kept(tables0, level0, tables1, level1, root, root, Vpn(a, 2));
    Kept(tables1, level1, tables2, level2, root, t1, Vpn(a, 1));
    DownKept(tables0, level0, tables1, level1, root, root, a, v);
    DownKept(tables1, level1, tables2, level2, root, t1, a, v);
    if Down(tables0, level0, root, v).Some? {
      var m := Down(tables0, level0, root, v).value;
      DownLevel(tables0, level0, root, v);
      DownApart(tables1, level1, root, a, v);
      Kept(tables0, level0, tables1, level1, m, root, Vpn(a, 2));
      Kept(tables1, level1, tables2, level2, m, t1, Vpn(a, 1));
      DownKept(tables0, level0, tables1, level1, m, root, a, v);
      DownKept(tables1, level1, tables2, level2, m, t1, a, v);
    }
  }

  lemma Kept(tables: Tables, level: map<nat, nat>, tables': Tables, level': map<nat, nat>, x: nat, t: nat, i: nat)
    requires OneEntry(tables, tables', t, i) && Extends(level, level') && x in tables && x in level
    ensures x in tables' && x in level' && level'[x] == level[x]
  {
  }

  /** Behind the entry of the root, only the bottom table of a is made. */
  lemma MadeBelow(tables0: Tables, level0: map<nat, nat>, tables1: Tables, level1: map<nat, nat>,
                  tables2: Tables, level2: map<nat, nat>, root: nat, t1: nat, a: nat, v: nat)
    requires Descended(tables0, level0, tables1, level1, tables2, level2, root, t1, a) && SameMiddle(v, a)
    ensures HasMiddle(tables2, level2, root, v)
    ensures HasBottom(tables2, level2, root, v) <==> HasBottom(tables0, level0, root, v) || SameBottom(v, a)
  {
    hide Forest, OneEntry, Down, Vpn, Extends;
    Kept(tables0, level0, tables1, level1, root, root, Vpn(a, 2));
    Kept(tables1, level1, tables2, level2, root, t1, Vpn(a, 1));
    Kept(tables1, level1, tables2, level2, t1, t1, Vpn(a, 1));
    SameStep(tables0, level0, root, v, a);
    SameStep(tables1, level1, root, v, a);
    DownKept(tables1, level1, tables2, level2, root, t1, a, v);
    if Vpn(v, 1) == Vpn(a, 1) {
      SameStep(tables2, level2, t1, v, a);
    } else {
      DownKept(tables1, level1, tables2, level2, t1, t1, a, v);
      if Down(tables0, level0, root, a).None? {
        ZeroDown(tables1, level1, t1, v);
      }
    }
  }

  lemma SameStep(tables: Tables, level: map<nat, nat>, t: nat, v: nat, a: nat)
    requires t in level && level[t] <= 2 && Vpn(v, level[t]) == Vpn(a, level[t])
    ensures Down(tables, level, t, v) == Down(tables, level, t, a)
  {
  }

  lemma DescendedMakes(tables0: Tables, level0: map<nat, nat>, tables1: Tables, level1: map<nat, nat>,
                       tables2: Tables, level2: map<nat, nat>, root: nat, t1: nat, a: nat)
    requires Descended(tables0, level0, tables1, level1, tables2, level2, root, t1, a)
    ensures PathMade(tables0, level0, tables2, level2, root, a)
  {
    hide Descended, HasMiddle, HasBottom, Vpn, BottomAt;
    forall v: nat
      ensures HasMiddle(tables2, level2, root, v) <==> HasMiddle(tables0, level0, root, v) || SameMiddle(v, a)
      ensures HasBottom(tables2, level2, root, v) <==> HasBottom(tables0, level0, root, v) || SameBottom(v, a)
    {
      if SameMiddle(v, a) {
        MadeBelow(tables0, level0, tables1, level1, tables2, level2, root, t1, a, v);
      } else {
        ElsewhereKept(tables0, level0, tables1, level1, tables2, level2, root, t1, a, v);
        assert !SameBottom(v, a) by { BottomMiddle(v, a); }
      }
    }
  }

  lemma BottomMiddle(v: nat, a: nat)
    ensures SameBottom(v, a) ==> SameMiddle(v, a)
  {
  }

  /** A write to a bottom table changes no path. */
  lemma LeafKeepsPath(tables: Tables, level: map<nat, nat>, tables1: Tables, level1: map<nat, nat>, tables2: Tables,
                      root: nat, a: nat, t0: nat)
    requires PathMade(tables, level, tables1, level1, root, a) && Forest(tables1, level1)
    requires t0 in level1 && level1[t0] == 0
    requires (forall x: nat :: x in tables1 && x != t0 ==> x in tables2 && tables2[x] == tables1[x])
    ensures PathMade(tables, level, tables2, level1, root, a)
  {
    hide PathMade;
    forall v: nat
      ensures HasMiddle(tables2, level1, root, v) == HasMiddle(tables1, level1, root, v)
      ensures HasBottom(tables2, level1, root, v) == HasBottom(tables1, level1, root, v)
    {
      LeafKeepsReach(tables1, level1, tables2, root, v, t0);
    }
    PathSame(tables, level, tables1, level1, tables2, root, a);
  }

  lemma LeafKeepsReach(tables1: Tables, level1: map<nat, nat>, tables2: Tables, root: nat, v: nat, t0: nat)
    requires Forest(tables1, level1)
    requires t0 in level1 && level1[t0] == 0
    requires (forall x: nat :: x in tables1 && x != t0 ==> x in tables2 && tables2[x] == tables1[x])
    ensures HasMiddle(tables2, level1, root, v) == HasMiddle(tables1, level1, root, v)
    ensures HasBottom(tables2, level1, root, v) == HasBottom(tables1, level1, root, v)
  {
    hide Vpn, PteToPa, HasFlag;
  }

  lemma PathSame(tables: Tables, level: map<nat, nat>, tables1: Tables, level1: map<nat, nat>, tables2: Tables,
                 root: nat, a: nat)
    requires PathMade(tables, level, tables1, level1, root, a)
    requires forall v: nat :: HasMiddle(tables2, level1, root, v) == HasMiddle(tables1, level1, root, v)
    requires forall v: nat :: HasBottom(tables2, level1, root, v) == HasBottom(tables1, level1, root, v)
    ensures PathMade(tables, level, tables2, level1, root, a)
  {
    hide HasMiddle, HasBottom, SameMiddle, SameBottom;
  }
}
