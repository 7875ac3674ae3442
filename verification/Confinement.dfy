/** Capability confinement: where authority can come from, which steps change a
    table, and what revocation guarantees. */
module Confinement {
  import opened Options
  import opened KernelTypes
  import opened Steps

  ghost predicate InTable(s: State, i: nat, cap: Capability) {
    Live(s, i) && Some(cap) in s.tasks[i].value.caps
  }

  ghost predicate InFlight(s: State, i: nat, cap: Capability) {
    Live(s, i) && s.tasks[i].value.pendingGrant == Some(cap)
  }

  ghost predicate Has(s: State, i: nat, cap: Capability) {
    InTable(s, i, cap) || InFlight(s, i, cap)
  }

  /** The current task asks to delegate cap, which it holds. */
  ghost predicate Delegates(s: State, e: Event, cap: Capability) {
    Live(s, s.current) && e.DoGrant? && CapAt(TaskAt(s, s.current).caps, e.srcSlot) == Some(cap)
  }

  // ---- the flow of one capability through one step ----

  lemma InstallIn(caps: CapTable, slot: nat, c: Capability, cap: Capability)
    requires Some(cap) in Install(caps, slot, c)
    ensures Some(cap) in caps || cap == c
  {
  }

  lemma ResumedHas(t: Task, cap: Capability)
    requires !cap.Reply?
    ensures Some(cap) in Resumed(t).caps ==> Some(cap) in t.caps || t.pendingGrant == Some(cap)
    ensures Resumed(t).pendingGrant == Some(cap) ==> t.pendingGrant == Some(cap)
  {
    if t.cont.FinishRecv? && Some(cap) in Resumed(t).caps {
      var slot := t.cont.replySlot;
      var c1 := if t.caller.Some? then Install(t.caps, slot, Reply(t.caller.value)) else t.caps;
      if t.pendingGrant.Some? { InstallIn(c1, slot, t.pendingGrant.value, cap); }
      if Some(cap) in c1 && t.caller.Some? { InstallIn(t.caps, slot, Reply(t.caller.value), cap); }
    }
  }

  lemma SwitchFlow(s: State, st: TaskState, k: Continuation, prefer: Option<nat>, sent: Option<Parcel>, i: nat,
                   cap: Capability)
    requires WellFormed(s) && (prefer.Some? ==> Live(s, prefer.value))
    requires SwitchAway(s, st, k, prefer, sent).Next? && !cap.Reply?
    ensures Has(SwitchAway(s, st, k, prefer, sent).state, i, cap) ==> Has(s, i, cap)
    ensures InFlight(SwitchAway(s, st, k, prefer, sent).state, i, cap) ==> InFlight(s, i, cap)
  {
    var s1 := Put(s, s.current, TaskAt(s, s.current).(state := st, cont := k));
    var next := if prefer.Some? then prefer.value else PickNext(s1);
    ResumedHas(TaskAt(s1, next), cap);
  }

  lemma TakeFlow(s: State, si: nat, ep: nat, slot: nat, i: nat, cap: Capability)
    requires WellFormed(s) && Live(s, si) && si != s.current && !cap.Reply?
    ensures Has(TakeFrom(s, si, ep, slot).state, i, cap) ==> Has(s, i, cap) || InFlight(s, si, cap)
    ensures InFlight(TakeFrom(s, si, ep, slot).state, i, cap) ==> InFlight(s, i, cap)
  {
    var t := TaskAt(s, si);
    var c := TaskAt(s, s.current);
    var c1 := if t.state == Blocked(ep, Call) then Install(c.caps, slot, Reply(si)) else c.caps;
    if i == s.current && InTable(TakeFrom(s, si, ep, slot).state, i, cap) {
      if t.pendingGrant.Some? { InstallIn(c1, slot, t.pendingGrant.value, cap); }
      if Some(cap) in c1 && t.state == Blocked(ep, Call) { InstallIn(c.caps, slot, Reply(si), cap); }
    }
  }

  lemma CrashFlow(s: State, q: bool, i: nat, cap: Capability)
    requires WellFormed(s) && CrashStep(s, q).Next? && !cap.Reply?
    ensures Has(CrashStep(s, q).state, i, cap) ==> Has(s, i, cap)
    ensures InFlight(CrashStep(s, q).state, i, cap) ==> InFlight(s, i, cap)
  {
    hide SwitchAway;
    var k := TaskAt(s, s.current).cont;
    match HealerFor(s, q)
    case None => SwitchFlow(s, Exited, k, None, None, i, cap);
    case Some(h) =>
      var msg := Message(TaskAt(s, s.current).crashBadge, 0, 0, 0);
      var s1 := Put(s, h, TaskAt(s, h).(message := msg, state := Ready));
      SwitchFlow(s1, Exited, k, Some(h), Some(Parcel(OnEndpoint(CRASH_EP), msg)), i, cap);
  }

  lemma RecvFlow(s: State, idx: nat, slot: nat, i: nat, cap: Capability)
    requires WellFormed(s) && RecvStep(s, idx, slot).Next? && !cap.Reply?
    ensures Has(RecvStep(s, idx, slot).state, i, cap) ==> Has(s, i, cap) || exists j: nat :: InFlight(s, j, cap)
    ensures InFlight(RecvStep(s, idx, slot).state, i, cap) ==> InFlight(s, i, cap)
  {
    hide SwitchAway;
    match CapLookup(TaskAt(s, s.current).caps, idx)
    case None =>
    case Some(ep) =>
      match Waiting(s, ep) {
        case Some(si) => TakeFlow(s, si, ep, slot, i, cap);
        case None => SwitchFlow(s, Blocked(ep, Recv), FinishRecv(ep, slot), None, None, i, cap);
      }
  }

  lemma ReplyFlow(s: State, slot: nat, m: Message, i: nat, cap: Capability)
    requires WellFormed(s) && ReplyStep(s, slot, m).Next?
    ensures Has(ReplyStep(s, slot, m).state, i, cap) ==> Has(s, i, cap)
    ensures InFlight(ReplyStep(s, slot, m).state, i, cap) ==> InFlight(s, i, cap)
  {
    hide Has, InFlight;
    match ReplyCaller(TaskAt(s, s.current).caps, slot)
    case None => SetA0Flow(s, USIZE_MAX, i, cap);
    case Some(c) =>
      var t := TaskAt(s, s.current);
      var s1 := Put(s, s.current, t.(caps := t.caps[slot := None]));
      PutFlow(s, s.current, t.(caps := t.caps[slot := None]), i, cap);
      if InState(s, c, AwaitingReply) {
        var t2 := TaskAt(s1, c).(message := m, state := Ready);
        PutFlow(s1, c, t2, i, cap);
        SetA0Flow(Put(s1, c, t2), 0, i, cap);
      } else {
        SetA0Flow(s1, USIZE_MAX, i, cap);
      }
  }

  /** Storing a task with no new capability brings none. */
  lemma PutFlow(s: State, j: nat, t: Task, i: nat, cap: Capability)
    requires Live(s, j) && (Some(cap) in t.caps ==> Some(cap) in TaskAt(s, j).caps)
    requires t.pendingGrant == TaskAt(s, j).pendingGrant
    ensures Has(Put(s, j, t), i, cap) ==> Has(s, i, cap)
    ensures InFlight(Put(s, j, t), i, cap) ==> InFlight(s, i, cap)
  {
  }

  lemma SetA0Flow(s: State, v: nat, i: nat, cap: Capability)
    requires Live(s, s.current)
    ensures Has(SetA0(s, v), i, cap) ==> Has(s, i, cap)
    ensures InFlight(SetA0(s, v), i, cap) ==> InFlight(s, i, cap)
  {
  }

  lemma RevokeFlow(s: State, idx: nat, i: nat, cap: Capability)
    requires WellFormed(s)
    ensures Has(RevokeStep(s, idx).state, i, cap) ==> Has(s, i, cap)
    ensures InFlight(RevokeStep(s, idx).state, i, cap) ==> InFlight(s, i, cap)
  {
  }

  lemma RestartFlow(s: State, idx: nat, i: nat, cap: Capability)
    requires WellFormed(s) && RestartStep(s, idx).Next?
    ensures Has(RestartStep(s, idx).state, i, cap) ==> Has(s, i, cap)
    ensures InFlight(RestartStep(s, idx).state, i, cap) ==> InFlight(s, i, cap)
  {
    hide Has, InFlight;
    match RestartTarget(TaskAt(s, s.current).caps, idx)
    case None => SetA0Flow(s, USIZE_MAX, i, cap);
    case Some(target) =>
      var t := TaskAt(s, target);
      if CanRestart(t.restarts, MAX_RESTARTS) {
        var t' := t.(cont := Launch(t.restarts + 1), restarts := t.restarts + 1, state := Ready);
        PutFlow(s, target, t', i, cap);
        SetA0Flow(Put(s, target, t'), 0, i, cap);
      } else {
        SetA0Flow(s, USIZE_MAX, i, cap);
      }
  }

  lemma SendFlow(s: State, idx: nat, m: Message, i: nat, cap: Capability)
    requires WellFormed(s) && SendStep(s, idx, m).Next? && !cap.Reply?
    ensures Has(SendStep(s, idx, m).state, i, cap) ==> Has(s, i, cap)
    ensures InFlight(SendStep(s, idx, m).state, i, cap) ==> InFlight(s, i, cap)
  {
    hide SwitchAway;
    match CapLookup(TaskAt(s, s.current).caps, idx)
    case None =>
    case Some(ep) =>
      if FindBlocked(s, ep, Recv).None? {
        var s1 := Put(s, s.current, TaskAt(s, s.current).(message := m));
        SwitchFlow(s1, Blocked(ep, Send), ReturnZero, None, Some(Parcel(OnEndpoint(ep), m)), i, cap);
      }
  }

  lemma CallFlow(s: State, idx: nat, m: Message, i: nat, cap: Capability)
    requires WellFormed(s) && CallStep(s, idx, m).Next? && !cap.Reply?
    ensures Has(CallStep(s, idx, m).state, i, cap) ==> Has(s, i, cap)
    ensures InFlight(CallStep(s, idx, m).state, i, cap) ==> InFlight(s, i, cap)
  {
    hide SwitchAway;
    match CapLookup(TaskAt(s, s.current).caps, idx)
    case None =>
    case Some(ep) =>
      var sent := Some(Parcel(OnEndpoint(ep), m));
      match FindBlocked(s, ep, Recv) {
        case Some(ri) =>
          var s1 := Put(s, ri, TaskAt(s, ri).(message := m, caller := Some(s.current), state := Ready));
          SwitchFlow(s1, AwaitingReply, ReturnMessage, None, sent, i, cap);
        case None =>
          var s1 := Put(s, s.current, TaskAt(s, s.current).(message := m));
          SwitchFlow(s1, Blocked(ep, Call), ReturnMessage, None, sent, i, cap);
      }
  }

  lemma GrantFlow(s: State, idx: nat, src: nat, badge: nat, i: nat, cap: Capability)
    requires WellFormed(s) && GrantStep(s, idx, src, badge).Next? && !cap.Reply?
    ensures Has(GrantStep(s, idx, src, badge).state, i, cap) ==>
      Has(s, i, cap) || CapAt(TaskAt(s, s.current).caps, src) == Some(cap)
    ensures InFlight(GrantStep(s, idx, src, badge).state, i, cap) ==>
      InFlight(s, i, cap) || CapAt(TaskAt(s, s.current).caps, src) == Some(cap)
  {
    hide SwitchAway;
    var t := TaskAt(s, s.current);
    if CapLookup(t.caps, idx).Some? && CapAt(t.caps, src).Some? {
      var ep := CapLookup(t.caps, idx).value;
      var msg := Message(badge, 0, 0, 0);
      if FindBlocked(s, ep, Recv).None? {
        var s1 := Put(s, s.current, t.(message := msg, pendingGrant := CapAt(t.caps, src)));
        SwitchFlow(s1, Blocked(ep, Send), ReturnZero, None, Some(Parcel(OnEndpoint(ep), msg)), i, cap);
      }
    }
  }

  /** A capability that is not a Reply reaches a task only by a delegation
      under way: the recv that takes it from flight, or the grant of a holder. */
  lemma CapFlow(s: State, e: Event, i: nat, cap: Capability)
    requires WellFormed(s) && Step(s, e).Next? && !cap.Reply?
    ensures Has(Step(s, e).state, i, cap) ==>
      Has(s, i, cap) || (exists j: nat :: InFlight(s, j, cap)) || Delegates(s, e, cap)
    ensures InFlight(Step(s, e).state, i, cap) ==> InFlight(s, i, cap) || Delegates(s, e, cap)
  {
    hide SwitchAway, CrashStep, SendStep, CallStep, GrantStep, RecvStep, ReplyStep, RestartStep, RevokeStep;
    var me := TaskAt(s, s.current);
    match e
    case Yield =>
      if PickNext(s) != s.current { SwitchFlow(s, Ready, ToUser, Some(PickNext(s)), None, i, cap); }
    case Exit => SwitchFlow(s, Exited, me.cont, None, None, i, cap);
    case Crash(q) => CrashFlow(s, q, i, cap);
    case DoSend(x, m) => SendFlow(s, x, m, i, cap);
    case DoRecv(x, r) => RecvFlow(s, x, r, i, cap);
    case DoCall(x, m) => CallFlow(s, x, m, i, cap);
    case DoGrant(x, y, b) => GrantFlow(s, x, y, b, i, cap);
    case WaitIrq(x) =>
      if InterruptIrq(me.caps, x).Some? {
        SwitchFlow(s, WaitingIrq(InterruptIrq(me.caps, x).value), ReturnZero, None, None, i, cap);
      }
    case DoReply(r, m) => ReplyFlow(s, r, m, i, cap);
    case DoRevoke(x) => RevokeFlow(s, x, i, cap);
    case DoRestart(x) => RestartFlow(s, x, i, cap);
    case WakeIrq(_) =>
  }

  // ---- no authority from nowhere ----

  lemma StepAuthority(s: State, e: Event, s': State, i: nat, cap: Capability) returns (j: nat)
    requires Takes(s, e, s') && !cap.Reply? && Has(s', i, cap)
    ensures Has(s, j, cap)
  {
    CapFlow(s, e, i, cap);
    if Delegates(s, e, cap) {
      j := s.current;
    } else if Has(s, i, cap) {
      j := i;
    } else {
      j :| InFlight(s, j, cap);
    }
  }

  /** Along any run, a capability other than a Reply that some task holds, or
      that is in flight, was held or in flight at the start. */
  lemma {:induction false} NoNewAuthority(tr: seq<State>, es: seq<Event>, n: nat, i: nat, cap: Capability)
    requires IsRun(tr, es) && n <= |es| && !cap.Reply? && Has(tr[n], i, cap)
    ensures exists j: nat :: Has(tr[0], j, cap)
    decreases n
  {
    hide Takes;
    if n > 0 {
      RunTakes(tr, es, n - 1);
      var j := StepAuthority(tr[n - 1], es[n - 1], tr[n], i, cap);
      NoNewAuthority(tr, es, n - 1, j, cap);
    }
  }

  // ---- who changes a table ----

  /** The rule for the table of task i over a step from s to s'. */
  ghost predicate TableRule(s: State, e: Event, s': State, i: nat)
    requires Live(s, i)
  {
    && Live(s', i)
    && (TaskAt(s', i).caps != TaskAt(s, i).caps ==>
          || (i == s.current && (e.DoRecv? || e.DoReply?))
          || (i != s.current && i == s'.current && TaskAt(s, i).cont.FinishRecv?)
          || (i != s.current && e.DoRevoke?))
  }

  /** A switch changes no table but that of a task dispatched out of a recv. */
  lemma SwitchTable(s: State, st: TaskState, k: Continuation, prefer: Option<nat>, sent: Option<Parcel>, e: Event,
                    i: nat)
    requires WellFormed(s) && (prefer.Some? ==> Live(s, prefer.value)) && Live(s, i)
    requires SwitchAway(s, st, k, prefer, sent).Next?
    ensures TableRule(s, e, SwitchAway(s, st, k, prefer, sent).state, i)
  {
  }

  lemma RecvTable(s: State, idx: nat, slot: nat, i: nat)
    requires WellFormed(s) && RecvStep(s, idx, slot).Next? && Live(s, i)
    ensures TableRule(s, DoRecv(idx, slot), RecvStep(s, idx, slot).state, i)
  {
    hide SwitchAway;
    match CapLookup(TaskAt(s, s.current).caps, idx)
    case None =>
    case Some(ep) =>
      if Waiting(s, ep).None? {
        SwitchTable(s, Blocked(ep, Recv), FinishRecv(ep, slot), None, None, DoRecv(idx, slot), i);
      }
  }

  lemma SendTable(s: State, idx: nat, m: Message, i: nat)
    requires WellFormed(s) && SendStep(s, idx, m).Next? && Live(s, i)
    ensures TableRule(s, DoSend(idx, m), SendStep(s, idx, m).state, i)
  {
    hide SwitchAway;
    var t := TaskAt(s, s.current);
    var ep := CapLookup(t.caps, idx);
    if ep.Some? && FindBlocked(s, ep.value, Recv).None? {
      SwitchTable(Put(s, s.current, t.(message := m)), Blocked(ep.value, Send), ReturnZero, None,
                  Some(Parcel(OnEndpoint(ep.value), m)), DoSend(idx, m), i);
    }
  }

  lemma CallTable(s: State, idx: nat, m: Message, i: nat)
    requires WellFormed(s) && CallStep(s, idx, m).Next? && Live(s, i)
    ensures TableRule(s, DoCall(idx, m), CallStep(s, idx, m).state, i)
  {
    hide SwitchAway;
    var t := TaskAt(s, s.current);
    match CapLookup(t.caps, idx)
    case None =>
    case Some(ep) =>
      var sent := Some(Parcel(OnEndpoint(ep), m));
      match FindBlocked(s, ep, Recv) {
        case None =>
          SwitchTable(Put(s, s.current, t.(message := m)), Blocked(ep, Call), ReturnMessage, None, sent, DoCall(idx, m),
                      i);
        case Some(ri) =>
          var s1 := Put(s, ri, TaskAt(s, ri).(message := m, caller := Some(s.current), state := Ready));
          SwitchTable(s1, AwaitingReply, ReturnMessage, None, sent, DoCall(idx, m), i);
      }
  }

  lemma GrantTable(s: State, idx: nat, src: nat, badge: nat, i: nat)
    requires WellFormed(s) && GrantStep(s, idx, src, badge).Next? && Live(s, i)
    ensures TableRule(s, DoGrant(idx, src, badge), GrantStep(s, idx, src, badge).state, i)
  {
    hide SwitchAway;
    var t := TaskAt(s, s.current);
    var ep, cap := CapLookup(t.caps, idx), CapAt(t.caps, src);
    if ep.Some? && cap.Some? && FindBlocked(s, ep.value, Recv).None? {
      var msg := Message(badge, 0, 0, 0);
      SwitchTable(Put(s, s.current, t.(message := msg, pendingGrant := cap)), Blocked(ep.value, Send), ReturnZero, None,
                  Some(Parcel(OnEndpoint(ep.value), msg)), DoGrant(idx, src, badge), i);
    }
  }

  lemma CrashTable(s: State, q: bool, i: nat)
    requires WellFormed(s) && CrashStep(s, q).Next? && Live(s, i)
    ensures TableRule(s, Crash(q), CrashStep(s, q).state, i)
  {
    hide SwitchAway;
    var k := TaskAt(s, s.current).cont;
    match HealerFor(s, q)
    case None => SwitchTable(s, Exited, k, None, None, Crash(q), i);
    case Some(h) =>
      var msg := Message(TaskAt(s, s.current).crashBadge, 0, 0, 0);
      var s1 := Put(s, h, TaskAt(s, h).(message := msg, state := Ready));
      SwitchTable(s1, Exited, k, Some(h), Some(Parcel(OnEndpoint(CRASH_EP), msg)), Crash(q), i);
  }

  /** The capability table of task i changes only when i itself receives or
      replies, when the step dispatches i out of a blocked recv, or when the
      current task revokes an endpoint from the others. */
  lemma TableChanges(s: State, e: Event, i: nat)
    requires WellFormed(s) && Step(s, e).Next? && Live(s, i)
    ensures TableRule(s, e, Step(s, e).state, i)
  {
    hide SwitchAway, CrashStep, SendStep, CallStep, GrantStep, RecvStep;
    var me := TaskAt(s, s.current);
    match e
    case Yield =>
      if PickNext(s) != s.current { SwitchTable(s, Ready, ToUser, Some(PickNext(s)), None, e, i); }
    case Exit => SwitchTable(s, Exited, me.cont, None, None, e, i);
    case Crash(q) => CrashTable(s, q, i);
    case DoSend(x, m) => SendTable(s, x, m, i);
    case DoCall(x, m) => CallTable(s, x, m, i);
    case DoGrant(x, y, b) => GrantTable(s, x, y, b, i);
    case DoRecv(x, r) => RecvTable(s, x, r, i);
    case WaitIrq(x) =>
      if InterruptIrq(me.caps, x).Some? {
        SwitchTable(s, WaitingIrq(InterruptIrq(me.caps, x).value), ReturnZero, None, None, e, i);
      }
    case _ =>
  }

  // ---- revocation ----

  /** Only task r has Endpoint(ep), and it is not in flight anywhere. */
  ghost predicate Only(s: State, ep: nat, r: nat) {
    && (forall i: nat :: InTable(s, i, Endpoint(ep)) ==> i == r)
    && (forall i: nat :: !InFlight(s, i, Endpoint(ep)))
  }

  /** An accepted revoke leaves the caller the only holder exactly when no copy
      of the capability is in flight at that moment. */
  lemma RevokeExact(s: State, idx: nat, ep: nat)
    requires WellFormed(s) && CapLookup(TaskAt(s, s.current).caps, idx) == Some(ep)
    ensures Only(RevokeStep(s, idx).state, ep, s.current) <==> forall j: nat :: !InFlight(s, j, Endpoint(ep))
    ensures forall i: nat, cap: Capability :: cap != Endpoint(ep) ==>
      (Has(RevokeStep(s, idx).state, i, cap) <==> Has(s, i, cap))
  {
    var s' := RevokeStep(s, idx).state;
    assert forall i: nat, cap: Capability :: InFlight(s', i, cap) <==> InFlight(s, i, cap);
    forall i: nat, cap: Capability | cap != Endpoint(ep)
      ensures InTable(s', i, cap) <==> InTable(s, i, cap)
    {
      if InTable(s, i, cap) && i != s.current {
        var k :| 0 <= k < |s.tasks[i].value.caps| && s.tasks[i].value.caps[k] == Some(cap);
        assert s'.tasks[i].value.caps[k] == Some(cap);
      }
    }
  }

  /** The revoker hands the endpoint out again. */
  ghost predicate HandsOut(s: State, e: Event, ep: nat, r: nat) {
    s.current == r && Delegates(s, e, Endpoint(ep))
  }

  lemma OnlyStep(s: State, e: Event, s': State, ep: nat, r: nat)
    requires Takes(s, e, s') && Only(s, ep, r) && !HandsOut(s, e, ep, r)
    ensures Only(s', ep, r)
  {
    var cap := Endpoint(ep);
    if Delegates(s, e, cap) {
      assert InTable(s, s.current, cap);
    }
    forall i: nat
      ensures InTable(s', i, cap) ==> i == r
      ensures !InFlight(s', i, cap)
    {
      CapFlow(s, e, i, cap);
    }
  }

  /** Once revoked with nothing in flight, the endpoint stays with the revoker
      along every run in which the revoker does not grant it. */
  lemma {:induction false} RevokedForGood(tr: seq<State>, es: seq<Event>, n: nat, ep: nat, r: nat)
    requires IsRun(tr, es) && n <= |es| && Only(tr[0], ep, r)
    requires forall i {:trigger es[i]} :: 0 <= i < n ==> !HandsOut(tr[i], es[i], ep, r)
    ensures Only(tr[n], ep, r)
    decreases n
  {
    hide Takes;
    if n > 0 {
      RevokedForGood(tr, es, n - 1, ep, r);
      RunTakes(tr, es, n - 1);
      OnlyStep(tr[n - 1], es[n - 1], tr[n], ep, r);
    }
  }
}
