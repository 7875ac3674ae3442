/** The organism's memory within one boot: crashes diagnosed and counted in the
    table, entries taken by the writer and written. */
module Memory {
  import opened Options
  import opened Bytes
  import opened Heal
  import opened KbBlock

  /** What persisting the entry writes. */
  function InMemory(issue: Issue): Mem {
    Mem(Cap(issue.seen), issue.escalated)
  }

  /** An entry the writer has taken and not yet written. */
  datatype Taken = Taken(index: nat, startBlock: nat, seen: nat, escalated: bool)

  datatype Ram = Ram(table: seq<Issue>, taken: Option<Taken>)

  /** A component crashes; the writer asks for a dirty entry; the block it has
      rewritten reaches the disk. */
  datatype Event = Crash(cause: Cause) | Take | Write

  /** The table when the crash of a component has been diagnosed and noted. */
  function Crashed(table: seq<Issue>, cause: Cause): (r: seq<Issue>)
    ensures |r| == |table|
  {
    match Diagnose(table, cause)
    case None => table
    case Some(k) => Noted(table, table[k].id)
  }

  function Do(r: Ram, e: Event): Ram {
    match e
    case Crash(cause) => r.(table := Crashed(r.table, cause))
    case Take =>
      if r.taken.Some? then r
      else
        var swept := Swept(r.table, SweptTo(r.table));
        (match FirstTaken(r.table, 0)
         case None => r.(table := swept)
         case Some(k) => Ram(swept, Some(Taken(k, swept[k].startBlock, swept[k].seen, swept[k].escalated))))
    case Write => r.(taken := None)
  }

  function After(r: Ram, es: seq<Event>, n: nat): Ram
    requires n <= |es|
  {
    if n == 0 then r else Do(After(r, es, n - 1), es[n - 1])
  }

  /** What the fields on disk say after the first n events. */
  function MemsAfter(r: Ram, mems: seq<Mem>, es: seq<Event>, n: nat): (m: seq<Mem>)
    requires n <= |es|
    ensures |m| == |mems|
  {
    if n == 0 then mems
    else
      var before, t := MemsAfter(r, mems, es, n - 1), After(r, es, n - 1).taken;
      if es[n - 1].Write? && t.Some? && t.value.index < |before|
      then before[t.value.index := Mem(Cap(t.value.seen), t.value.escalated)] else before
  }

  /** Crashes among the first n events diagnosed to entry k of the table. */
  function Count(table: seq<Issue>, es: seq<Event>, k: nat, n: nat): nat
    requires n <= |es|
  {
    if n == 0 then 0
    else Count(table, es, k, n - 1) + if es[n - 1].Crash? && Diagnose(table, es[n - 1].cause) == Some(k) then 1 else 0
  }

  /** How often the escalation of entry k was reported in the first n events. */
  function Reports(r: Ram, es: seq<Event>, k: nat, n: nat): nat
    requires n <= |es|
  {
    if n == 0 then 0
    else
      var t := After(r, es, n - 1).table;
      Reports(r, es, k, n - 1)
      + if es[n - 1].Crash? && Diagnose(t, es[n - 1].cause) == Some(k) && IndexOf(t, t[k].id, 0) == Some(k)
        && Escalates(t[k]) then 1 else 0
  }

  predicate Drained(r: Ram) {
    r.taken.None? && forall i :: 0 <= i < |r.table| ==> !r.table[i].dirty
  }

  /** A table that has just been loaded: clean, ids distinct, every entry with a
      block, saying what the disk says. */
  predicate Loaded(r: Ram, mems: seq<Mem>) {
    && |mems| == |r.table| && r.taken.None? && DistinctIds(r.table)
    && forall i :: 0 <= i < |r.table| ==>
         && !r.table[i].dirty && r.table[i].startBlock != 0
         && mems[i] == Mem(r.table[i].seen, r.table[i].escalated) && mems[i].seen <= SEEN_MAX
  }

  /** The parts of an entry that no event changes. */
  predicate SameEntry(a: Issue, b: Issue) {
    a.id == b.id && a.matchCause == b.matchCause && a.startBlock == b.startBlock
  }

  predicate SameEntries(a: seq<Issue>, b: seq<Issue>) {
    |a| == |b| && forall i :: 0 <= i < |a| ==> SameEntry(a[i], b[i])
  }

  lemma DoSame(r: Ram, e: Event)
    ensures SameEntries(r.table, Do(r, e).table)
  {
  }

  lemma {:induction false} SameDiagnosis(a: seq<Issue>, b: seq<Issue>, token: Bytes, i: nat)
    requires SameEntries(a, b)
    ensures MatchFrom(a, token, i) == MatchFrom(b, token, i)
    decreases |a| - i
  {
    if i < |a| {
      SameDiagnosis(a, b, token, i + 1);
    }
  }

  /** Events change no id, token or block, so a cause is diagnosed to the same
      entry all through a boot. */
  lemma {:induction false} EntriesKept(r: Ram, es: seq<Event>, n: nat)
    requires n <= |es|
    ensures SameEntries(r.table, After(r, es, n).table)
    ensures forall cause: Cause :: Diagnose(After(r, es, n).table, cause) == Diagnose(r.table, cause)
    ensures DistinctIds(r.table) ==> DistinctIds(After(r, es, n).table)
  {
    hide Do, MatchFrom;
    if n > 0 {
      EntriesKept(r, es, n - 1);
      DoSame(After(r, es, n - 1), es[n - 1]);
    }
    forall cause: Cause ensures Diagnose(After(r, es, n).table, cause) == Diagnose(r.table, cause) {
      if CauseToken(cause).Some? {
        SameDiagnosis(r.table, After(r, es, n).table, CauseToken(cause).value, 0);
      }
    }
  }

  // ---- nothing is lost ----

  /** A clean entry is on the disk, or on its way. */
  predicate Agrees(r: Ram, mems: seq<Mem>, i: nat)
    requires i < |r.table| == |mems|
  {
    !r.table[i].dirty ==>
      (if r.taken.Some? && r.taken.value.index == i then Mem(Cap(r.taken.value.seen), r.taken.value.escalated)
        else mems[i])
      == InMemory(r.table[i])
  }

  predicate AllAgree(r: Ram, mems: seq<Mem>) {
    && |r.table| == |mems| && (r.taken.Some? ==> r.taken.value.index < |r.table|)
    && (forall i :: 0 <= i < |r.table| ==> r.table[i].startBlock != 0)
    && forall i :: 0 <= i < |r.table| ==> Agrees(r, mems, i)
  }

  lemma CrashAgrees(r: Ram, mems: seq<Mem>, cause: Cause)
    requires AllAgree(r, mems)
    ensures AllAgree(Do(r, Crash(cause)), mems)
  {
    hide InMemory, IndexOf, Diagnose;
    var r' := Do(r, Crash(cause));
    forall i | 0 <= i < |r.table| ensures Agrees(r', mems, i) {
      assert Agrees(r, mems, i);
    }
  }

  lemma TakeAgrees(r: Ram, mems: seq<Mem>)
    requires AllAgree(r, mems)
    ensures AllAgree(Do(r, Take), mems)
  {
    hide FirstTaken;
    var r' := Do(r, Take);
    forall i | 0 <= i < |r.table| ensures Agrees(r', mems, i) {
      assert Agrees(r, mems, i);
    }
  }

  lemma WriteAgrees(r: Ram, mems: seq<Mem>)
    requires AllAgree(r, mems)
    ensures AllAgree(Do(r, Write), if r.taken.Some?
      then mems[r.taken.value.index := Mem(Cap(r.taken.value.seen), r.taken.value.escalated)] else mems)
  {
    var mems' := if r.taken.Some?
      then mems[r.taken.value.index := Mem(Cap(r.taken.value.seen), r.taken.value.escalated)] else mems;
    forall i | 0 <= i < |r.table| ensures Agrees(Do(r, Write), mems', i) {
      assert Agrees(r, mems, i);
    }
  }

  /** No interleaving of crashes with the writer loses an update. */
  lemma {:induction false} NothingLost(r: Ram, mems: seq<Mem>, es: seq<Event>, n: nat)
    requires Loaded(r, mems) && n <= |es|
    ensures AllAgree(After(r, es, n), MemsAfter(r, mems, es, n))
  {
    hide Do;
    if n > 0 {
      NothingLost(r, mems, es, n - 1);
      var r', mems' := After(r, es, n - 1), MemsAfter(r, mems, es, n - 1);
      match es[n - 1]
      case Crash(cause) => CrashAgrees(r', mems', cause);
      case Take => TakeAgrees(r', mems');
      case Write => WriteAgrees(r', mems');
    }
  }

  // ---- counting ----

  /** The flag after c more diagnoses. */
  predicate Escalated(m: Mem, c: nat) {
    m.escalated || (c > 0 && m.seen + c >= ESCALATE_AT)
  }

  /** A crash counts the entry it is diagnosed to and touches no other. */
  lemma CrashCounts(table: seq<Issue>, cause: Cause, k: nat)
    requires DistinctIds(table) && k < |table|
    ensures Crashed(table, cause)[k] == if Diagnose(table, cause) == Some(k) then Counted(table[k]) else table[k]
    ensures Diagnose(table, cause) == Some(k) ==> IndexOf(table, table[k].id, 0) == Some(k)
  {
    hide Counted, IndexOf, Diagnose;
    if Diagnose(table, cause).Some? {
      IndexIs(table, Diagnose(table, cause).value);
    }
  }

  lemma QuietKeeps(r: Ram, e: Event, k: nat)
    requires !e.Crash? && k < |r.table|
    ensures k < |Do(r, e).table| && Do(r, e).table[k].seen == r.table[k].seen
    ensures Do(r, e).table[k].escalated == r.table[k].escalated
  {
  }

  /** Within one boot: the count grows by the diagnoses, the flag is set exactly
      when a diagnosis brings the count to the threshold, and that is reported
      once. */
  lemma {:induction false} OneBoot(r: Ram, mems: seq<Mem>, es: seq<Event>, k: nat, n: nat)
    requires Loaded(r, mems) && k < |r.table| && n <= |es|
    ensures |After(r, es, n).table| == |r.table|
    ensures var issue := After(r, es, n).table[k];
            var c := Count(r.table, es, k, n);
            && (issue.seen == if mems[k].seen + c < U32 then mems[k].seen + c else U32 - 1)
            && issue.escalated == Escalated(mems[k], c)
            && Reports(r, es, k, n) == if Escalated(mems[k], c) && !mems[k].escalated then 1 else 0
  {
    hide Do, Diagnose, IndexOf;
    EntriesKept(r, es, n);
    if n > 0 {
      OneBoot(r, mems, es, k, n - 1);
      EntriesKept(r, es, n - 1);
      var r' := After(r, es, n - 1);
      if es[n - 1].Crash? {
        CrashCounts(r'.table, es[n - 1].cause, k);
        CrashIs(r', es[n - 1].cause);
      } else {
        QuietKeeps(r', es[n - 1], k);
      }
    }
  }

  lemma CrashIs(r: Ram, cause: Cause)
    ensures Do(r, Crash(cause)).table == Crashed(r.table, cause)
  {
  }

  /** What the disk says of an entry when a boot is drained. */
  function Grown(m: Mem, c: nat): Mem {
    Mem(Cap(m.seen + c), Escalated(m, c))
  }

  lemma DrainedBoot(r: Ram, mems: seq<Mem>, es: seq<Event>, k: nat)
    requires Loaded(r, mems) && k < |r.table| && Drained(After(r, es, |es|))
    ensures MemsAfter(r, mems, es, |es|)[k] == Grown(mems[k], Count(r.table, es, k, |es|))
  {
    NothingLost(r, mems, es, |es|);
    OneBoot(r, mems, es, k, |es|);
    assert Agrees(After(r, es, |es|), MemsAfter(r, mems, es, |es|), k);
  }

  /** A crash diagnosed to the entry is quarantined exactly when it is, counting
      itself, at least the sixth, or the disk says the entry is chronic. */
  lemma QuarantineExact(r: Ram, mems: seq<Mem>, es: seq<Event>, k: nat, n: nat)
    requires Loaded(r, mems) && k < |r.table| && n <= |es|
    ensures |After(r, es, n).table| == |r.table|
    ensures Counted(After(r, es, n).table[k]).escalated <==>
      mems[k].escalated || mems[k].seen + Count(r.table, es, k, n) + 1 >= ESCALATE_AT
  {
    OneBoot(r, mems, es, k, n);
  }
}
