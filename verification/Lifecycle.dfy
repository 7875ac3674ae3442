/** The state changes a step can make to a task, and what follows from them:
    rendezvous, and how a caller stops waiting. */
module Lifecycle {
  import opened Options
  import opened KernelTypes
  import opened Steps

  /** The new state of the task that leaves the hart. */
  ghost predicate OwnChange(s: State, e: Event, new_: TaskState) {
    || (new_ == Ready && e.Yield?)
    || (new_ == Exited && (e.Exit? || e.Crash?))
    || (new_ == AwaitingReply && e.DoCall?)
    || (new_.WaitingIrq? && e.WaitIrq?)
    || (new_.Blocked? && new_.role == Recv && e.DoRecv? && Waiting(s, new_.endpoint).None?)
    || (new_.Blocked? && new_.role == Send && (e.DoSend? || e.DoGrant?) && FindBlocked(s, new_.endpoint, Recv).None?)
    || (new_.Blocked? && new_.role == Call && e.DoCall? && FindBlocked(s, new_.endpoint, Recv).None?)
  }

  /** The new state of another task i. */
  ghost predicate OtherChange(s: State, e: Event, i: nat, old_: TaskState, new_: TaskState, dispatched: bool)
    requires WellFormed(s)
  {
    var caps := TaskAt(s, s.current).caps;
    || new_ == old_
    || (old_ == Ready && new_ == Running && dispatched)
    || (old_ == Blocked(CRASH_EP, Recv) && new_ == Running && dispatched && e.Crash?)
    || (old_.Blocked? && old_.role == Recv && (e.DoSend? || e.DoCall? || e.DoGrant?)
        && (new_ == Ready || (new_ == Running && dispatched)))
    || (old_.Blocked? && old_.role == Send && e.DoRecv? && new_ == Ready)
    || (old_.Blocked? && old_.role == Call && e.DoRecv? && new_ == AwaitingReply)
    || (old_ == AwaitingReply && new_ == Ready && e.DoReply? && ReplyCaller(caps, e.replySlot) == Some(i))
    || (old_.WaitingIrq? && new_ == Ready && e == WakeIrq(old_.irq))
    || (new_ == Ready && Relaunches(s, e, i))
  }

  /** The step relaunches task i. */
  ghost predicate Relaunches(s: State, e: Event, i: nat) {
    && Live(s, s.current) && Live(s, i) && e.DoRestart?
    && RestartTarget(TaskAt(s, s.current).caps, e.capIdx) == Some(i)
    && TaskAt(s, i).restarts < MAX_RESTARTS
  }

  ghost predicate Change(s: State, e: Event, s': State, i: nat)
    requires WellFormed(s) && Live(s, i)
  {
    && Live(s', i)
    && (if Relaunches(s, e, i)
        then var g := TaskAt(s, i).restarts + 1;
             TaskAt(s', i).restarts == g && TaskAt(s', i).cont == Launch(g) && TaskAt(s', i).state == Ready
        else TaskAt(s', i).restarts == TaskAt(s, i).restarts)
    && if i == s.current && s'.current == s.current then
         !e.Exit? && !e.Crash? && TaskAt(s', i).state == if Relaunches(s, e, i) then Ready else TaskAt(s, i).state
       else if i == s.current then
         OwnChange(s, e, TaskAt(s', i).state)
       else
         OtherChange(s, e, i, TaskAt(s, i).state, TaskAt(s', i).state, i == s'.current)
         && (i == s'.current ==> TaskAt(s', i).state == Running)
  }

  /** Slots neither fill nor empty. */
  ghost predicate SameSlots(s: State, s': State) {
    |s'.tasks| == |s.tasks| && forall i: nat :: Live(s', i) == Live(s, i)
  }

  /** A switch: current in st, the successor Running, the rest as before. */
  lemma SwitchStates(s: State, st: TaskState, k: Continuation, prefer: Option<nat>, sent: Option<Parcel>, i: nat)
    requires WellFormed(s) && (prefer.Some? ==> Live(s, prefer.value))
    requires SwitchAway(s, st, k, prefer, sent).Next? && Live(s, i)
    ensures var s' := SwitchAway(s, st, k, prefer, sent).state;
            && SameSlots(s, s') && s'.current != s.current
            && s'.tasks[i].value.state == (if i == s.current then st else if i == s'.current then Running
               else s.tasks[i].value.state)
            && (prefer.None? ==> InState(s, s'.current, Ready))
            && (prefer.Some? ==> s'.current == prefer.value)
            && s'.tasks[i].value.restarts == s.tasks[i].value.restarts
  {
  }

  lemma CrashChange(s: State, q: bool, i: nat)
    requires WellFormed(s) && CrashStep(s, q).Next? && Live(s, i)
    ensures Change(s, Crash(q), CrashStep(s, q).state, i) && SameSlots(s, CrashStep(s, q).state)
  {
    hide SwitchAway;
    var k := TaskAt(s, s.current).cont;
    match HealerFor(s, q)
    case None => SwitchStates(s, Exited, k, None, None, i);
    case Some(h) =>
      var msg := Message(TaskAt(s, s.current).crashBadge, 0, 0, 0);
      var s1 := Put(s, h, TaskAt(s, h).(message := msg, state := Ready));
      SwitchStates(s1, Exited, k, Some(h), Some(Parcel(OnEndpoint(CRASH_EP), msg)), i);
  }

  lemma SendChange(s: State, idx: nat, m: Message, i: nat)
    requires WellFormed(s) && SendStep(s, idx, m).Next? && Live(s, i)
    ensures Change(s, DoSend(idx, m), SendStep(s, idx, m).state, i) && SameSlots(s, SendStep(s, idx, m).state)
  {
    hide SwitchAway;
    var t := TaskAt(s, s.current);
    var ep := CapLookup(t.caps, idx);
    if ep.Some? && FindBlocked(s, ep.value, Recv).None? {
      SwitchStates(Put(s, s.current, t.(message := m)), Blocked(ep.value, Send), ReturnZero, None,
                   Some(Parcel(OnEndpoint(ep.value), m)), i);
    }
  }

  lemma RecvChange(s: State, idx: nat, slot: nat, i: nat)
    requires WellFormed(s) && RecvStep(s, idx, slot).Next? && Live(s, i)
    ensures Change(s, DoRecv(idx, slot), RecvStep(s, idx, slot).state, i) && SameSlots(s, RecvStep(s, idx, slot).state)
  {
    hide SwitchAway;
    var ep := CapLookup(TaskAt(s, s.current).caps, idx);
    if ep.Some? && Waiting(s, ep.value).None? {
      SwitchStates(s, Blocked(ep.value, Recv), FinishRecv(ep.value, slot), None, None, i);
    }
  }

  lemma CallChange(s: State, idx: nat, m: Message, i: nat)
    requires WellFormed(s) && CallStep(s, idx, m).Next? && Live(s, i)
    ensures Change(s, DoCall(idx, m), CallStep(s, idx, m).state, i) && SameSlots(s, CallStep(s, idx, m).state)
  {
    hide SwitchAway;
    var t := TaskAt(s, s.current);
    match CapLookup(t.caps, idx)
    case None =>
    case Some(ep) =>
      var sent := Some(Parcel(OnEndpoint(ep), m));
      match FindBlocked(s, ep, Recv) {
        case None => SwitchStates(Put(s, s.current, t.(message := m)), Blocked(ep, Call), ReturnMessage, None, sent, i);
        case Some(ri) =>
          var s1 := Put(s, ri, TaskAt(s, ri).(message := m, caller := Some(s.current), state := Ready));
          SwitchStates(s1, AwaitingReply, ReturnMessage, None, sent, i);
      }
  }

  lemma GrantChange(s: State, idx: nat, src: nat, badge: nat, i: nat)
    requires WellFormed(s) && GrantStep(s, idx, src, badge).Next? && Live(s, i)
    ensures Change(s, DoGrant(idx, src, badge), GrantStep(s, idx, src, badge).state, i)
    ensures SameSlots(s, GrantStep(s, idx, src, badge).state)
  {
    hide SwitchAway;
    var t := TaskAt(s, s.current);
    var ep, cap := CapLookup(t.caps, idx), CapAt(t.caps, src);
    if ep.Some? && cap.Some? && FindBlocked(s, ep.value, Recv).None? {
      var msg := Message(badge, 0, 0, 0);
      SwitchStates(Put(s, s.current, t.(message := msg, pendingGrant := cap)), Blocked(ep.value, Send), ReturnZero,
        None, Some(Parcel(OnEndpoint(ep.value), msg)), i);
    }
  }

  lemma ReplyChange(s: State, slot: nat, m: Message, i: nat)
    requires WellFormed(s) && ReplyStep(s, slot, m).Next? && Live(s, i)
    ensures Change(s, DoReply(slot, m), ReplyStep(s, slot, m).state, i) && SameSlots(s, ReplyStep(s, slot, m).state)
  {
  }

  lemma RestartChange(s: State, idx: nat, i: nat)
    requires WellFormed(s) && RestartStep(s, idx).Next? && Live(s, i)
    ensures Change(s, DoRestart(idx), RestartStep(s, idx).state, i) && SameSlots(s, RestartStep(s, idx).state)
  {
  }

  /** Every state change a step makes is one of the listed ones. */
  lemma Changes(s: State, e: Event, s': State, i: nat)
    requires Takes(s, e, s') && Live(s, i)
    ensures Change(s, e, s', i) && SameSlots(s, s')
  {
    hide SwitchAway, CrashStep, SendStep, CallStep, GrantStep, RecvStep, ReplyStep, RestartStep;
    var me := TaskAt(s, s.current);
    match e
    case Yield =>
      if PickNext(s) != s.current { SwitchStates(s, Ready, ToUser, Some(PickNext(s)), None, i); }
    case Exit => SwitchStates(s, Exited, me.cont, None, None, i);
    case Crash(q) => CrashChange(s, q, i);
    case DoSend(x, m) => SendChange(s, x, m, i);
    case DoRecv(x, r) => RecvChange(s, x, r, i);
    case DoCall(x, m) => CallChange(s, x, m, i);
    case DoReply(r, m) => ReplyChange(s, r, m, i);
    case DoGrant(x, y, b) => GrantChange(s, x, y, b, i);
    case DoRestart(x) => RestartChange(s, x, i);
    case WaitIrq(x) =>
      if InterruptIrq(me.caps, x).Some? {
        SwitchStates(s, WaitingIrq(InterruptIrq(me.caps, x).value), ReturnZero, None, None, i);
      }
    case _ =>
  }

  // ---- rendezvous ----

  /** No endpoint has a waiting receiver and a waiting sender or caller. */
  ghost predicate Rendezvous(s: State) {
    forall i: nat, j: nat, ep: nat, role: Role ::
      InState(s, i, Blocked(ep, Recv)) && InState(s, j, Blocked(ep, role)) ==> role == Recv
  }

  lemma RendezvousStep(s: State, e: Event, s': State)
    requires Takes(s, e, s') && Rendezvous(s)
    ensures Rendezvous(s')
  {
    hide Takes;
    forall i: nat, j: nat, ep: nat, role: Role | InState(s', i, Blocked(ep, Recv)) && InState(s', j, Blocked(ep, role))
      ensures role == Recv
    {
      BlockedBefore(s, e, s', i, ep, Recv);
      BlockedBefore(s, e, s', j, ep, role);
    }
  }

  /** A task blocked after a step was blocked before, or is the one that has
      just found no partner. */
  lemma BlockedBefore(s: State, e: Event, s': State, i: nat, ep: nat, role: Role)
    requires Takes(s, e, s') && InState(s', i, Blocked(ep, role))
    ensures InState(s, i, Blocked(ep, role)) || i == s.current
    ensures i == s.current ==>
      && (role == Recv ==> forall j: nat, r: Role :: InState(s, j, Blocked(ep, r)) ==> r == Recv)
      && (role != Recv ==> forall j: nat :: !InState(s, j, Blocked(ep, Recv)))
  {
    hide Step;
    if !Live(s, i) { Changes(s, e, s', s.current); }
    Changes(s, e, s', i);
  }

  /** From a state with no missed rendezvous, no run reaches one. */
  lemma {:induction false} RendezvousRun(tr: seq<State>, es: seq<Event>, n: nat)
    requires IsRun(tr, es) && n <= |es| && Rendezvous(tr[0])
    ensures Rendezvous(tr[n])
    decreases n
  {
    hide Takes;
    if n > 0 {
      RendezvousRun(tr, es, n - 1);
      RunTakes(tr, es, n - 1);
      RendezvousStep(tr[n - 1], es[n - 1], tr[n]);
    }
  }

  /** A caller leaves AwaitingReply only by a reply spent on it, or because the
      self-healer relaunched it. */
  lemma CallerLeaves(s: State, e: Event, s': State, c: nat)
    requires Takes(s, e, s') && InState(s, c, AwaitingReply) && !InState(s', c, AwaitingReply)
    ensures InState(s', c, Ready)
    ensures || (e.DoReply? && ReplyCaller(TaskAt(s, s.current).caps, e.replySlot) == Some(c))
            || Relaunches(s, e, c)
  {
    hide Step;
    Changes(s, e, s', c);
  }
}
