/** Call/reply matching. A reply token is a Reply capability in a table or in
    flight, or a caller back-pointer that the pending recv will turn into one.
    The invariant: every token names a task in AwaitingReply, and no two tokens
    name the same task. */
module Matching {
  import opened Options
  import opened KernelTypes
  import opened Steps

  /** The task that place k of t entitles its holder to answer. */
  function Token(t: Task, k: nat): Option<nat> {
    if k < CAP_SLOTS then ReplyCaller(t.caps, k)
    else if k == CAP_SLOTS then t.caller
    else if k == CAP_SLOTS + 1 then
      (match t.pendingGrant
       case Some(Reply(c)) => Some(c)
       case _ => None)
    else None
  }

  ghost predicate Names(s: State, i: nat, k: nat, c: nat) {
    Live(s, i) && Token(s.tasks[i].value, k) == Some(c)
  }

  ghost predicate Named(s: State, c: nat) {
    exists i: nat, k: nat :: Names(s, i, k, c)
  }

  ghost predicate Matched(s: State) {
    && (forall i: nat, k: nat, c: nat :: Names(s, i, k, c) ==> InState(s, c, AwaitingReply))
    && (forall i: nat, k: nat, j: nat, l: nat, c: nat ::
          Names(s, i, k, c) && Names(s, j, l, c) ==> i == j && k == l)
  }

  // ---- how one task's update moves tokens ----

  /** Rewriting one task keeps the matching if it gains no token and does not
      leave AwaitingReply while some token names it. */
  lemma PutKeeps(s: State, i: nat, t: Task)
    requires Matched(s) && Live(s, i)
    requires forall k: nat :: Token(t, k).None? || Token(t, k) == Token(s.tasks[i].value, k)
    requires t.state == AwaitingReply || s.tasks[i].value.state != AwaitingReply || !Named(s, i)
    ensures Matched(Put(s, i, t))
    ensures forall c: nat :: Named(Put(s, i, t), c) ==> Named(s, c)
  {
    var s' := Put(s, i, t);
    assert forall j: nat, k: nat, c: nat :: Names(s', j, k, c) ==> Names(s, j, k, c);
    assert forall c: nat :: Named(s', c) ==> Named(s, c);
  }

  /** Minting one token for a task that nobody names yet. */
  lemma MintKeeps(s: State, i: nat, t: Task, k: nat, c: nat)
    requires Matched(s) && Live(s, i) && !Named(s, c)
    requires Token(t, k) == Some(c)
    requires forall l: nat :: l == k || Token(t, l).None? || Token(t, l) == Token(s.tasks[i].value, l)
    requires InState(s, c, AwaitingReply) && c != i
    requires t.state == AwaitingReply || s.tasks[i].value.state != AwaitingReply
    ensures Matched(Put(s, i, t))
  {
    var s' := Put(s, i, t);
    assert forall j: nat, l: nat, d: nat :: Names(s', j, l, d) ==> (j == i && l == k && d == c) || Names(s, j, l, d);
  }

  /** Running a continuation moves a pending token into the table, or drops it. */
  lemma ResumedTokens(t: Task)
    requires |t.caps| == CAP_SLOTS
    requires forall c: nat, k: nat, l: nat :: Token(t, k) == Some(c) == Token(t, l) ==> k == l
    ensures forall c: nat, k: nat, l: nat :: Token(Resumed(t), k) == Some(c) == Token(Resumed(t), l) ==> k == l
    ensures forall c: nat, k: nat :: Token(Resumed(t), k) == Some(c) ==> exists l: nat :: Token(t, l) == Some(c)
  {
    var r := Resumed(t);
    if t.cont.FinishRecv? {
      var slot := t.cont.replySlot;
      forall k: nat, c: nat | Token(r, k) == Some(c)
        ensures Token(t, k)
             == Some(c) || (k == slot && (Token(t, CAP_SLOTS) == Some(c) || Token(t, CAP_SLOTS + 1) == Some(c)))
      {
      }
    } else {
      assert forall k: nat :: Token(r, k) == Token(t, k);
    }
  }

  lemma DispatchKeeps(s: State, next: nat)
    requires FullTables(s) && Matched(s) && Live(s, next) && s.tasks[next].value.state != AwaitingReply
    ensures Matched(Dispatch(s, next))
  {
    var s' := Dispatch(s, next);
    var t := s.tasks[next].value;
    assert forall k: nat, c: nat :: Token(t, k) == Some(c) ==> Names(s, next, k, c);
    ResumedTokens(t);
    forall i: nat, k: nat, c: nat | Names(s', i, k, c)
      ensures InState(s', c, AwaitingReply)
      ensures i != next ==> Names(s, i, k, c)
      ensures i == next ==> exists l: nat :: Names(s, next, l, c)
    {
      if i == next {
        var l: nat :| Token(t, l) == Some(c);
        assert Names(s, next, l, c);
      } else {
        assert Names(s, i, k, c);
      }
    }
    forall i: nat, k: nat, j: nat, l: nat, c: nat | Names(s', i, k, c) && Names(s', j, l, c)
      ensures i == j && k == l
    {
    }
  }

  ghost predicate FullTables(s: State) {
    && |s.tasks| == MAX_TASKS
    && forall i :: 0 <= i < |s.tasks| && s.tasks[i].Some? ==> |s.tasks[i].value.caps| == CAP_SLOTS
  }

  /** Switching away keeps the matching once the state written for the current
      task does. */
  lemma SwitchKeeps(s: State, st: TaskState, k: Continuation, prefer: Option<nat>, sent: Option<Parcel>)
    requires WellFormed(s)
    requires (prefer.Some? ==> Live(s, prefer.value) && s.tasks[prefer.value].value.state != AwaitingReply)
    requires Matched(Put(s, s.current, TaskAt(s, s.current).(state := st, cont := k)))
    requires SwitchAway(s, st, k, prefer, sent).Next?
    ensures Matched(SwitchAway(s, st, k, prefer, sent).state)
  {
    var s1 := Put(s, s.current, TaskAt(s, s.current).(state := st, cont := k));
    DispatchKeeps(s1, if prefer.Some? then prefer.value else PickNext(s1));
  }

  // ---- the steps ----

  /** The two ways a step can spoil the matching: copying a Reply capability,
      or restarting a task some token names. */
  ghost predicate Tampers(s: State, e: Event) {
    && Live(s, s.current)
    && var caps := TaskAt(s, s.current).caps;
       match e
       case DoGrant(c, x, _) => CapLookup(caps, c).Some? && ReplyCaller(caps, x).Some?
       case DoRestart(c) =>
         && RestartTarget(caps, c).Some?
         && var target := RestartTarget(caps, c).value;
            Live(s, target) && TaskAt(s, target).restarts < MAX_RESTARTS && Named(s, target)
       case _ => false
  }

  lemma CurrentUnnamed(s: State)
    requires WellFormed(s) && Matched(s)
    ensures !Named(s, s.current)
  {
  }

  lemma ExitKeeps(s: State)
    requires WellFormed(s) && Matched(s) && ExitStep(s).Next?
    ensures Matched(ExitStep(s).state)
  {
    SameTokensKeeps(s, s.current, TaskAt(s, s.current).(state := Exited));
    SwitchKeeps(s, Exited, TaskAt(s, s.current).cont, None, None);
  }

  lemma SameTokensKeeps(s: State, i: nat, t: Task)
    requires Matched(s) && Live(s, i)
    requires t.caps == s.tasks[i].value.caps && t.caller == s.tasks[i].value.caller
    requires t.pendingGrant == s.tasks[i].value.pendingGrant
    requires s.tasks[i].value.state != AwaitingReply
    ensures Matched(Put(s, i, t))
    ensures forall c: nat :: Named(Put(s, i, t), c) ==> Named(s, c)
  {
    assert forall k: nat :: Token(t, k) == Token(s.tasks[i].value, k);
    PutKeeps(s, i, t);
  }

  lemma YieldKeeps(s: State)
    requires WellFormed(s) && Matched(s) && YieldStep(s).Next?
    ensures Matched(YieldStep(s).state)
  {
    if PickNext(s) != s.current {
      SameTokensKeeps(s, s.current, TaskAt(s, s.current).(state := Ready, cont := ToUser));
      SwitchKeeps(s, Ready, ToUser, Some(PickNext(s)), None);
    }
  }

  lemma ParkKeeps(s: State, st: TaskState, k: Continuation, sent: Option<Parcel>)
    requires WellFormed(s) && Matched(s) && Park(s, st, k, sent).Next?
    ensures Matched(Park(s, st, k, sent).state)
  {
    SameTokensKeeps(s, s.current, TaskAt(s, s.current).(state := st, cont := k));
    SwitchKeeps(s, st, k, None, sent);
  }

  lemma CrashKeeps(s: State, q: bool)
    requires WellFormed(s) && Matched(s) && CrashStep(s, q).Next?
    ensures Matched(CrashStep(s, q).state)
  {
    match HealerFor(s, q)
    case None => ExitKeeps(s);
    case Some(h) =>
      var msg := Message(TaskAt(s, s.current).crashBadge, 0, 0, 0);
      var s1 := Put(s, h, TaskAt(s, h).(message := msg, state := Ready));
      var k := TaskAt(s, s.current).cont;
      SameTokensKeeps(s, h, TaskAt(s1, h));
      SameTokensKeeps(s1, s.current, TaskAt(s1, s.current).(state := Exited, cont := k));
      SwitchKeeps(s1, Exited, k, Some(h), Some(Parcel(OnEndpoint(CRASH_EP), msg)));
  }

  /** Changing registers alone. */
  lemma SetA0Keeps(s: State, v: nat)
    requires WellFormed(s) && Matched(s)
    ensures Matched(SetA0(s, v))
  {
    SameTokensKeeps(s, s.current, TaskAt(SetA0(s, v), s.current));
  }

  lemma SendKeeps(s: State, idx: nat, msg: Message)
    requires WellFormed(s) && Matched(s) && SendStep(s, idx, msg).Next?
    ensures Matched(SendStep(s, idx, msg).state)
  {
    match CapLookup(TaskAt(s, s.current).caps, idx)
    case None => SetA0Keeps(s, USIZE_MAX);
    case Some(ep) =>
      match FindBlocked(s, ep, Recv) {
        case Some(ri) =>
          var s1 := Put(s, ri, TaskAt(s, ri).(message := msg, state := Ready));
          SameTokensKeeps(s, ri, TaskAt(s1, ri));
          SetA0Keeps(s1, 0);
        case None =>
          var s1 := Put(s, s.current, TaskAt(s, s.current).(message := msg));
          SameTokensKeeps(s, s.current, TaskAt(s1, s.current));
          ParkKeeps(s1, Blocked(ep, Send), ReturnZero, Some(Parcel(OnEndpoint(ep), msg)));
      }
  }

  /** A capability from flight goes into a table; if it is a token, no other
      place holds it any more. */
  lemma InstallKeeps(s: State, i: nat, slot: nat, cap: Capability)
    requires FullTables(s) && Matched(s) && Live(s, i) && s.tasks[i].value.state != AwaitingReply
    requires cap.Reply? ==> InState(s, cap.caller, AwaitingReply) && !Named(s, cap.caller)
    ensures var s' := Put(s, i, TaskAt(s, i).(caps := Install(TaskAt(s, i).caps, slot, cap)));
            Matched(s') && forall c: nat :: Named(s', c) ==> Named(s, c) || cap == Reply(c)
  {
    var t := TaskAt(s, i);
    var t1 := t.(caps := Install(t.caps, slot, cap));
    assert forall j: nat, k: nat, c: nat :: Names(Put(s, i, t1), j, k, c) ==> Names(s, j, k, c) || cap == Reply(c);
    assert forall j: nat, k: nat, c: nat :: Names(s, j, k, c) ==> Named(s, c);
    if cap.Reply? && slot < CAP_SLOTS {
      MintKeeps(s, i, t1, slot, cap.caller);
    } else {
      assert forall k: nat :: Token(t1, k).None? || Token(t1, k) == Token(t, k);
      PutKeeps(s, i, t1);
    }
  }

  /** The sender gives up its message and the capability it carries. */
  lemma TakenKeeps(s: State, si: nat, st: TaskState)
    requires WellFormed(s) && Matched(s) && Live(s, si) && s.tasks[si].value.state != AwaitingReply
    ensures var t := TaskAt(s, si);
            var s1 := Put(s, si, t.(pendingGrant := None, state := st));
            && Matched(s1) && !Named(s1, si)
            && (t.pendingGrant.Some? && t.pendingGrant.value.Reply? ==>
                  && t.pendingGrant.value.caller != si
                  && InState(s1, t.pendingGrant.value.caller, AwaitingReply)
                  && !Named(s1, t.pendingGrant.value.caller))
  {
    var t := TaskAt(s, si);
    var t1 := t.(pendingGrant := None, state := st);
    var s1 := Put(s, si, t1);
    assert forall k: nat :: Token(t1, k).None? || Token(t1, k) == Token(t, k);
    assert forall i: nat, k: nat, c: nat :: Names(s1, i, k, c) ==>
      Names(s, i, k, c) && !(i == si && k == CAP_SLOTS + 1);
    assert !Named(s, si);
    PutKeeps(s, si, t1);
    if t.pendingGrant.Some? && t.pendingGrant.value.Reply? {
      assert Names(s, si, CAP_SLOTS + 1, t.pendingGrant.value.caller);
    }
  }

  lemma TakeFromKeeps(s: State, si: nat, ep: nat, slot: nat)
    requires WellFormed(s) && Matched(s) && Live(s, si)
    requires s.tasks[si].value.state in {Blocked(ep, Send), Blocked(ep, Call)}
    ensures Matched(TakeFrom(s, si, ep, slot).state)
  {
    hide Matched, Named;
    var t := TaskAt(s, si);
    var isCall := t.state == Blocked(ep, Call);
    var st := if isCall then AwaitingReply else Ready;
    TakenKeeps(s, si, st);
    var s1 := Put(s, si, t.(pendingGrant := None, state := st));
    var c := TaskAt(s1, s.current);
    var s2, c1 := s1, c.caps;
    if isCall {
      InstallKeeps(s1, s.current, slot, Reply(si));
      c1 := Install(c.caps, slot, Reply(si));
      s2 := Put(s1, s.current, c.(caps := c1));
    }
    var s3, c2 := s2, c1;
    if t.pendingGrant.Some? {
      InstallKeeps(s2, s.current, slot, t.pendingGrant.value);
      c2 := Install(c1, slot, t.pendingGrant.value);
      s3 := Put(s2, s.current, c.(caps := c2));
    }
    var c3 := c.(caps := c2, regs := t.message);
    assert TaskAt(s3, s.current) == c.(caps := c2);
    SameTokensKeeps(s3, s.current, c3);
    assert TakeFrom(s, si, ep, slot).state == Put(s3, s.current, c3);
  }

  lemma RecvKeeps(s: State, idx: nat, slot: nat)
    requires WellFormed(s) && Matched(s) && RecvStep(s, idx, slot).Next?
    ensures Matched(RecvStep(s, idx, slot).state)
  {
    match CapLookup(TaskAt(s, s.current).caps, idx)
    case None => SetA0Keeps(s, USIZE_MAX);
    case Some(ep) =>
      match Waiting(s, ep) {
        case Some(si) => TakeFromKeeps(s, si, ep, slot);
        case None => ParkKeeps(s, Blocked(ep, Recv), FinishRecv(ep, slot), None);
      }
  }

  lemma CallKeeps(s: State, idx: nat, msg: Message)
    requires WellFormed(s) && Matched(s) && CallStep(s, idx, msg).Next?
    ensures Matched(CallStep(s, idx, msg).state)
  {
    match CapLookup(TaskAt(s, s.current).caps, idx)
    case None => SetA0Keeps(s, USIZE_MAX);
    case Some(ep) =>
      var sent := Some(Parcel(OnEndpoint(ep), msg));
      match FindBlocked(s, ep, Recv) {
        case Some(ri) =>
          // read in the order "caller parks, then its token is minted"
          var me := TaskAt(s, s.current).(state := AwaitingReply, cont := ReturnMessage);
          var s1 := Put(s, s.current, me);
          CurrentUnnamed(s);
          SameTokensKeeps(s, s.current, me);
          var r := TaskAt(s, ri).(message := msg, caller := Some(s.current), state := Ready);
          MintKeeps(s1, ri, r, CAP_SLOTS, s.current);
          var s2 := Put(s, ri, r);
          assert Put(s1, ri, r) == Put(s2, s.current, me);
          SwitchKeeps(s2, AwaitingReply, ReturnMessage, None, sent);
        case None =>
          var s1 := Put(s, s.current, TaskAt(s, s.current).(message := msg));
          SameTokensKeeps(s, s.current, TaskAt(s1, s.current));
          ParkKeeps(s1, Blocked(ep, Call), ReturnMessage, sent);
      }
  }

  /** Spending a token: the caller it named is named by nothing afterwards. */
  lemma SpendToken(s: State, slot: nat, c: nat)
    requires WellFormed(s) && Matched(s) && ReplyCaller(TaskAt(s, s.current).caps, slot) == Some(c)
    ensures var t := TaskAt(s, s.current);
            var s1 := Put(s, s.current, t.(caps := t.caps[slot := None]));
            Matched(s1) && !Named(s1, c) && InState(s1, c, AwaitingReply)
  {
    var t := TaskAt(s, s.current);
    var t1 := t.(caps := t.caps[slot := None]);
    assert forall k: nat :: Token(t1, k).None? || Token(t1, k) == Token(t, k);
    assert Names(s, s.current, slot, c);
    PutKeeps(s, s.current, t1);
    var s1 := Put(s, s.current, t1);
    assert forall i: nat, k: nat :: Names(s1, i, k, c) ==> Names(s, i, k, c) && !(i == s.current && k == slot);
  }

  lemma ReplyKeeps(s: State, slot: nat, msg: Message)
    requires WellFormed(s) && Matched(s) && ReplyStep(s, slot, msg).Next?
    ensures Matched(ReplyStep(s, slot, msg).state)
  {
    match ReplyCaller(TaskAt(s, s.current).caps, slot)
    case None => SetA0Keeps(s, USIZE_MAX);
    case Some(c) =>
      SpendToken(s, slot, c);
      var t := TaskAt(s, s.current);
      var s1 := Put(s, s.current, t.(caps := t.caps[slot := None]));
      var c1 := TaskAt(s1, c).(message := msg, state := Ready);
      assert forall k: nat :: Token(c1, k) == Token(TaskAt(s1, c), k);
      PutKeeps(s1, c, c1);
      SetA0Keeps(Put(s1, c, c1), 0);
  }

  lemma GrantKeeps(s: State, idx: nat, src: nat, badge: nat)
    requires WellFormed(s) && Matched(s) && GrantStep(s, idx, src, badge).Next?
    requires !Tampers(s, DoGrant(idx, src, badge))
    ensures Matched(GrantStep(s, idx, src, badge).state)
  {
    var t := TaskAt(s, s.current);
    if CapLookup(t.caps, idx).None? || CapAt(t.caps, src).None? {
      SetA0Keeps(s, USIZE_MAX);
    } else {
      var ep, cap := CapLookup(t.caps, idx).value, CapAt(t.caps, src).value;
      var msg := Message(badge, 0, 0, 0);
      match FindBlocked(s, ep, Recv) {
        case Some(ri) =>
          var r := TaskAt(s, ri).(message := msg, pendingGrant := Some(cap), state := Ready);
          assert forall k: nat :: Token(r, k).None? || Token(r, k) == Token(TaskAt(s, ri), k);
          PutKeeps(s, ri, r);
          SetA0Keeps(Put(s, ri, r), 0);
        case None =>
          var r := t.(message := msg, pendingGrant := Some(cap));
          assert forall k: nat :: Token(r, k).None? || Token(r, k) == Token(t, k);
          PutKeeps(s, s.current, r);
          ParkKeeps(Put(s, s.current, r), Blocked(ep, Send), ReturnZero, Some(Parcel(OnEndpoint(ep), msg)));
      }
    }
  }

  lemma GrantTampers(s: State, idx: nat, src: nat, badge: nat)
    requires WellFormed(s) && Matched(s) && GrantStep(s, idx, src, badge).Next?
    requires Tampers(s, DoGrant(idx, src, badge))
    ensures !Matched(GrantStep(s, idx, src, badge).state)
  {
    var s' := GrantStep(s, idx, src, badge).state;
    var c := ReplyCaller(TaskAt(s, s.current).caps, src).value;
    var ep := CapLookup(TaskAt(s, s.current).caps, idx).value;
    assert Names(s', s.current, src, c);
    match FindBlocked(s, ep, Recv)
    case Some(ri) => assert Names(s', ri, CAP_SLOTS + 1, c);
    case None => assert Names(s', s.current, CAP_SLOTS + 1, c);
  }

  lemma RevokeKeeps(s: State, idx: nat)
    requires WellFormed(s) && Matched(s)
    ensures Matched(RevokeStep(s, idx).state)
  {
    match CapLookup(TaskAt(s, s.current).caps, idx)
    case None => SetA0Keeps(s, USIZE_MAX);
    case Some(ep) =>
      var s1 := RevokedTasks(s, ep, s.current);
      assert forall i: nat, k: nat, c: nat :: Names(s1, i, k, c) ==> Names(s, i, k, c);
      assert forall c: nat :: InState(s, c, AwaitingReply) ==> InState(s1, c, AwaitingReply);
      SetA0Keeps(s1, HeldCount(s, ep, s.current, |s.tasks|));
  }

  lemma RestartIff(s: State, idx: nat)
    requires WellFormed(s) && Matched(s) && RestartStep(s, idx).Next?
    ensures Matched(RestartStep(s, idx).state) <==> !Tampers(s, DoRestart(idx))
  {
    var caps := TaskAt(s, s.current).caps;
    if RestartTarget(caps, idx).None? || !CanRestart(TaskAt(s, RestartTarget(caps, idx).value).restarts, MAX_RESTARTS) {
      SetA0Keeps(s, USIZE_MAX);
    } else {
      var target := RestartTarget(caps, idx).value;
      var t := TaskAt(s, target);
      var t1 := t.(cont := Launch(t.restarts + 1), restarts := t.restarts + 1, state := Ready);
      assert forall k: nat :: Token(t1, k) == Token(t, k);
      var s1 := Put(s, target, t1);
      if Named(s, target) {
        var i: nat, k: nat :| Names(s, i, k, target);
        assert Names(RestartStep(s, idx).state, i, k, target);
      } else {
        PutKeeps(s, target, t1);
        SetA0Keeps(s1, 0);
      }
    }
  }

  lemma WakeIrqKeeps(s: State, irq: nat)
    requires WellFormed(s) && Matched(s)
    ensures Matched(WakeIrqStep(s, irq).state)
  {
    match FindFrom(s.tasks, WaitingIrq(irq), 0)
    case None =>
    case Some(i) => SameTokensKeeps(s, i, TaskAt(s, i).(state := Ready));
  }

  /** Exactly when one step keeps the matching: always, but for a grant of a
      Reply capability and a restart of a task some token names. */
  lemma MatchedStep(s: State, e: Event)
    requires WellFormed(s) && Matched(s) && Step(s, e).Next?
    ensures Matched(Step(s, e).state) <==> !Tampers(s, e)
  {
    match e
    case Yield => YieldKeeps(s);
    case Exit => ExitKeeps(s);
    case Crash(q) => CrashKeeps(s, q);
    case DoSend(c, m) => SendKeeps(s, c, m);
    case DoRecv(c, r) => RecvKeeps(s, c, r);
    case DoCall(c, m) => CallKeeps(s, c, m);
    case DoReply(r, m) => ReplyKeeps(s, r, m);
    case DoGrant(c, x, b) =>
      if Tampers(s, e) { GrantTampers(s, c, x, b); } else { GrantKeeps(s, c, x, b); }
    case DoRevoke(c) => RevokeKeeps(s, c);
    case DoRestart(c) => RestartIff(s, c);
    case WaitIrq(c) =>
      if InterruptIrq(TaskAt(s, s.current).caps, c).Some? {
        ParkKeeps(s, WaitingIrq(InterruptIrq(TaskAt(s, s.current).caps, c).value), ReturnZero, None);
      } else {
        SetA0Keeps(s, USIZE_MAX);
      }
    case WakeIrq(i) => WakeIrqKeeps(s, i);
  }

  // ---- along runs ----

  /** Along any run whose steps before the n-th do not tamper, the matching
      holds up to there, and the n-th step keeps it exactly when it does not
      tamper either. */
  lemma {:induction false} MatchedRun(tr: seq<State>, es: seq<Event>, n: nat)
    requires IsRun(tr, es) && n < |es| && Matched(tr[0])
    requires forall i {:trigger es[i]} :: 0 <= i < n ==> !Tampers(tr[i], es[i])
    ensures Matched(tr[n])
    ensures Matched(tr[n + 1]) <==> !Tampers(tr[n], es[n])
    decreases n
  {
    hide Step, Tampers;
    if n > 0 { MatchedRun(tr, es, n - 1); }
    RunTakes(tr, es, n);
    MatchedStep(tr[n], es[n]);
  }

  /** Restarting an Exited task never tampers: tokens name waiting tasks only. */
  lemma ExitedRestartIsSafe(s: State, idx: nat, target: nat)
    requires WellFormed(s) && Matched(s) && RestartTarget(TaskAt(s, s.current).caps, idx) == Some(target)
    requires InState(s, target, Exited)
    ensures !Tampers(s, DoRestart(idx))
  {
  }

  /** A held Reply(c) wakes exactly its caller, once: c becomes Ready with the
      reply in its inbox, nothing names c any more, and no other task but the
      server changes. */
  lemma ReplyWakesItsCaller(s: State, slot: nat, msg: Message, c: nat)
    requires WellFormed(s) && Matched(s) && ReplyCaller(TaskAt(s, s.current).caps, slot) == Some(c)
    ensures ReplyStep(s, slot, msg).Next?
    ensures var s' := ReplyStep(s, slot, msg).state;
            && c != s.current && Live(s, c)
            && s'.tasks[c] == Some(TaskAt(s, c).(message := msg, state := Ready))
            && !Named(s', c)
            && s'.tasks[s.current] == Some(TaskAt(s, s.current).(
                 caps := TaskAt(s, s.current).caps[slot := None], regs := TaskAt(s, s.current).regs.(badge := 0)))
            && forall i :: 0 <= i < |s.tasks| && i != c && i != s.current ==> s'.tasks[i] == s.tasks[i]
  {
    assert Names(s, s.current, slot, c);
    SpendToken(s, slot, c);
    var t := TaskAt(s, s.current);
    var s1 := Put(s, s.current, t.(caps := t.caps[slot := None]));
    var s' := ReplyStep(s, slot, msg).state;
    assert forall i: nat, k: nat :: Names(s', i, k, c) ==> Names(s1, i, k, c);
  }
}
