/** The runtime knowledge table: matching a crash to an entry, counting its
    diagnoses, escalating it once, and what is left to persist. */
module Heal {
  import opened Options
  import opened Bytes
  import opened Utf8

  const ID_CAP: nat := 16
  const TITLE_CAP: nat := 96
  const PLAYBOOK_CAP: nat := 256
  const TOKEN_CAP: nat := 24
  const MAX_ISSUES: nat := 8
  const ESCALATE_AT: nat := 6

  datatype Cause = LoadPageFault | StorePageFault | InstructionPageFault | IllegalInstruction | OtherCause

  datatype Issue = Issue(id: Bytes, title: Bytes, playbook: Bytes, matchCause: Bytes,
                         seen: nat, escalated: bool, startBlock: nat, dirty: bool)

  /** The last character boundary of s up to k. */
  function BoundaryBefore(s: Bytes, k: nat): (r: nat)
    ensures r <= k && Boundary(s, r) && forall i :: r < i <= k ==> !Boundary(s, i)
  {
    if Boundary(s, k) then k else BoundaryBefore(s, k - 1)
  }

  /** A string in a fixed-size buffer: never cut inside a character. */
  function Cut(s: Bytes, cap: nat): (r: Bytes)
    ensures |r| <= cap && r <= s
  {
    s[..BoundaryBefore(s, Min(|s|, cap))]
  }

  /** Buf::from_str, as the loop it is. */
  method FromStr(s: Bytes, cap: nat) returns (r: Bytes)
    ensures r == Cut(s, cap)
  {
    var k := Min(|s|, cap);
    while k > 0 && !Boundary(s, k)
      invariant 0 <= k <= |s| && BoundaryBefore(s, k) == BoundaryBefore(s, Min(|s|, cap))
    {
      k := k - 1;
    }
    return s[..k];
  }

  /** Of valid text the buffer holds the longest prefix that is valid and fits. */
  lemma CutLongest(s: Bytes, cap: nat)
    requires Valid(s)
    ensures Valid(Cut(s, cap))
    ensures forall n :: 0 <= n <= |s| && n <= cap && Valid(s[..n]) ==> n <= |Cut(s, cap)|
  {
    hide Boundary, Valid;
    forall n | 0 <= n <= |s| ensures Valid(s[..n]) <==> Boundary(s, n) {
      CutValid(s, n);
    }
  }

  function NewIssue(id: Bytes, title: Bytes, playbook: Bytes, token: Bytes, seen: nat, escalated: bool,
                    startBlock: nat): Issue {
    Issue(Cut(id, ID_CAP), Cut(title, TITLE_CAP), Cut(playbook, PLAYBOOK_CAP), Cut(token, TOKEN_CAP), seen, escalated,
      startBlock, false)
  }

  function CauseToken(cause: Cause): Option<Bytes> {
    match cause
    case LoadPageFault | StorePageFault | InstructionPageFault => Some("page-fault")
    case IllegalInstruction => Some("illegal-instruction")
    case OtherCause => None
  }

  /** The causes of each token: every page fault has the one, an illegal instruction
      the other, and nothing else has any. */
  lemma TokenIs(cause: Cause, token: Bytes)
    ensures CauseToken(cause) == Some(token) <==>
      || (cause in {LoadPageFault, StorePageFault, InstructionPageFault} && token == "page-fault")
      || (cause == IllegalInstruction && token == "illegal-instruction")
  {
  }

  /** The first entry from i on whose token is that of the cause. */
  function MatchFrom(table: seq<Issue>, token: Bytes, i: nat): (r: Option<nat>)
    ensures r.Some? ==> i <= r.value < |table| && table[r.value].matchCause == token
    ensures forall k :: i <= k < (if r.Some? then r.value else |table|) ==> table[k].matchCause != token
    decreases |table| - i
  {
    if i >= |table| then None
    else if table[i].matchCause == token then Some(i)
    else MatchFrom(table, token, i + 1)
  }

  /** The entry a crash is diagnosed to. */
  function Diagnose(table: seq<Issue>, cause: Cause): (r: Option<nat>)
    ensures r.Some? ==> r.value < |table| && CauseToken(cause) == Some(table[r.value].matchCause)
    ensures forall k :: 0 <= k < (if r.Some? then r.value else |table|) ==>
      CauseToken(cause) != Some(table[k].matchCause)
  {
    match CauseToken(cause)
    case None => None
    case Some(token) => MatchFrom(table, token, 0)
  }

  /** The index of the first entry with this id. */
  function IndexOf(table: seq<Issue>, id: Bytes, i: nat): (r: Option<nat>)
    ensures r.Some? ==> i <= r.value < |table| && table[r.value].id == id
    ensures forall k :: i <= k < (if r.Some? then r.value else |table|) ==> table[k].id != id
    decreases |table| - i
  {
    if i >= |table| then None
    else if table[i].id == id then Some(i)
    else IndexOf(table, id, i + 1)
  }

  function SaturatingInc(n: nat): nat {
    if n + 1 < U32 then n + 1 else U32 - 1
  }

  /** The entry after one more diagnosis. */
  function Counted(issue: Issue): Issue {
    var seen := SaturatingInc(issue.seen);
    issue.(seen := seen, dirty := true, escalated := issue.escalated || seen >= ESCALATE_AT)
  }

  /** This diagnosis is the one that escalates the entry. */
  predicate Escalates(issue: Issue) {
    !issue.escalated && SaturatingInc(issue.seen) >= ESCALATE_AT
  }

  /** No two entries share an id. */
  predicate DistinctIds(table: seq<Issue>) {
    forall i, j :: 0 <= i < j < |table| ==> table[i].id != table[j].id
  }

  lemma IndexIs(table: seq<Issue>, k: nat)
    requires DistinctIds(table) && k < |table|
    ensures IndexOf(table, table[k].id, 0) == Some(k)
  {
    var r := IndexOf(table, table[k].id, 0);
    assert r.Some?;
    assert r.value <= k;
  }

  /** The table after a diagnosis of the entry with this id: the first such entry
      is counted. */
  function Noted(table: seq<Issue>, id: Bytes): (r: seq<Issue>)
    ensures |r| == |table|
  {
    match IndexOf(table, id, 0)
    case None => table
    case Some(k) => table[k := Counted(table[k])]
  }

  /** The first dirty entry from i on that has a block. */
  function FirstTaken(table: seq<Issue>, i: nat): (r: Option<nat>)
    ensures r.Some? ==> i <= r.value < |table| && table[r.value].dirty && table[r.value].startBlock != 0
    ensures forall k :: i <= k < (if r.Some? then r.value else |table|) ==> !table[k].dirty || table[k].startBlock == 0
    decreases |table| - i
  {
    if i >= |table| then None
    else if table[i].dirty && table[i].startBlock != 0 then Some(i)
    else FirstTaken(table, i + 1)
  }

  /** The table with the first n entries cleaned. */
  function Swept(table: seq<Issue>, n: nat): (r: seq<Issue>)
    requires n <= |table|
    ensures |r| == |table|
  {
    seq(|table|, i requires 0 <= i < |table| => if i < n then table[i].(dirty := false) else table[i])
  }

  /** How far taking an entry sweeps. */
  function SweptTo(table: seq<Issue>): (n: nat)
    ensures n <= |table|
  {
    match FirstTaken(table, 0) case Some(k) => k + 1 case None => |table|
  }

  class KnowledgeTable {
    var table: seq<Issue>
    var lastDiagnosis: Option<Issue>

    constructor ()
      ensures table == [] && lastDiagnosis == None
    {
      table, lastDiagnosis := [], None;
    }

    /** Room for eight; a full table refuses and changes nothing. */
    method Install(id: Bytes, title: Bytes, playbook: Bytes, token: Option<Bytes>, seen: nat, escalated: bool,
                   startBlock: nat) returns (ok: bool)
      modifies this`table
      ensures ok <==> |old(table)| < MAX_ISSUES
      ensures table == if ok
        then old(table) + [NewIssue(id, title, playbook,
                              if token.Some? then token.value else [], seen, escalated, startBlock)]
        else old(table)
    {
      if |table| >= MAX_ISSUES {
        return false;
      }
      var i := FromStr(id, ID_CAP);
      var t := FromStr(title, TITLE_CAP);
      var p := FromStr(playbook, PLAYBOOK_CAP);
      var c := FromStr(if token.Some? then token.value else [], TOKEN_CAP);
      table := table + [Issue(i, t, p, c, seen, escalated, startBlock, false)];
      return true;
    }

    /** Count a diagnosis of the entry with the issue's id; report the count if
        and only if this one escalates it. */
    method NoteDiagnosis(issue: Issue) returns (r: Option<nat>)
      modifies this
      ensures lastDiagnosis == Some(issue) && table == Noted(old(table), issue.id)
      ensures var k := IndexOf(old(table), issue.id, 0);
              r == if k.Some? && Escalates(old(table)[k.value]) then Some(table[k.value].seen) else None
    {
      lastDiagnosis := Some(issue);
      for i := 0 to |table|
        invariant table == old(table) && lastDiagnosis == Some(issue)
        invariant IndexOf(table, issue.id, 0) == IndexOf(table, issue.id, i)
      {
        var slot := table[i];
        if slot.id == issue.id {
          slot := slot.(seen := SaturatingInc(slot.seen), dirty := true);
          if slot.seen >= ESCALATE_AT && !slot.escalated {
            table := table[i := slot.(escalated := true)];
            return Some(slot.seen);
          }
          table := table[i := slot];
          return None;
        }
      }
      return None;
    }

    /** The first dirty entry that has a block, its flag cleared; dirty entries
        without a block are only cleaned. None when none is left. */
    method DirtyEntry() returns (r: Option<nat>)
      modifies this`table
      ensures r == FirstTaken(old(table), 0) && table == Swept(old(table), SweptTo(old(table)))
    {
      for i := 0 to |table|
        invariant table == Swept(old(table), i)
        invariant FirstTaken(old(table), 0) == FirstTaken(old(table), i)
      {
        if table[i].dirty {
          table := table[i := table[i].(dirty := false)];
          if table[i].startBlock != 0 {
            return Some(i);
          }
        }
      }
      return None;
    }
  }
}
