/** What a step does to each task, seen from outside: the one it dispatches, the
    one that leaves the hart, the one that stays on it, and the rest. */
module Switching {
  import opened Options
  import opened KernelTypes
  import opened Steps
  import opened Lifecycle

  /** Task i is the first in state st. */
  ghost predicate First(s: State, st: TaskState, i: nat) {
    InState(s, i, st) && forall j: nat :: j < i ==> !InState(s, j, st)
  }

  ghost predicate NoneIn(s: State, st: TaskState) {
    forall j: nat :: !InState(s, j, st)
  }

  /** The sender a recv on ep takes from: the first that waits in a send or a grant,
      and without one the first that waits in a call. */
  ghost predicate TakenFrom(s: State, ep: nat, si: nat) {
    First(s, Blocked(ep, Send), si) || (NoneIn(s, Blocked(ep, Send)) && First(s, Blocked(ep, Call), si))
  }

  /** The scans find the first. */
  lemma FindIs(s: State, st: TaskState)
    ensures var r := FindFrom(s.tasks, st, 0);
            && (r.Some? ==> First(s, st, r.value)) && (r.None? <==> NoneIn(s, st))
            && forall i: nat :: First(s, st, i) ==> r == Some(i)
  {
    var r := FindFrom(s.tasks, st, 0);
    if r.Some? {
      assert InState(s, r.value, st);
    }
    forall i: nat | First(s, st, i) ensures r == Some(i) {
      assert s.tasks[i].Some?;
    }
  }

  /** Task i is the one that the current task's event reaches: the first receiver
      waiting on the endpoint its slot holds, or the sender a recv takes from. */
  ghost predicate Partner(s: State, e: Event, i: nat)
    requires Live(s, s.current)
  {
    && Live(s, i) && TaskAt(s, i).state.Blocked?
    && var caps, ep := TaskAt(s, s.current).caps, TaskAt(s, i).state.endpoint;
       match e
       case DoSend(c, _) => Holds(caps, c, Endpoint(ep)) && First(s, Blocked(ep, Recv), i)
       case DoCall(c, _) => Holds(caps, c, Endpoint(ep)) && First(s, Blocked(ep, Recv), i)
       case DoGrant(c, x, _) =>
         Holds(caps, c, Endpoint(ep)) && x < |caps| && caps[x].Some? && First(s, Blocked(ep, Recv), i)
       case DoRecv(c, _) => Holds(caps, c, Endpoint(ep)) && TakenFrom(s, ep, i)
       case _ => false
  }

  /** The partner waits on the other side. */
  lemma PartnerWaits(s: State, e: Event, i: nat)
    requires Live(s, s.current) && Partner(s, e, i)
    ensures TaskAt(s, i).state.Blocked? && (TaskAt(s, i).state.role == Recv <==> !e.DoRecv?)
  {
  }

  /** The event wakes task n: its partner, or a healer that waits for crashes. */
  ghost predicate Wakes(s: State, e: Event, n: nat)
    requires Live(s, s.current)
  {
    Partner(s, e, n) || (e.Crash? && InState(s, n, Blocked(CRASH_EP, Recv)))
  }

  /** Task n as the step finds it for dispatch: as it was parked, with the call or
      the crash report that wakes it in its inbox. */
  function Reached(s: State, e: Event, n: nat): Task
    requires Live(s, s.current) && Live(s, n)
  {
    var t := TaskAt(s, n);
    if !t.state.Blocked? then t
    else match e
      case DoCall(_, m) => t.(message := m, caller := Some(s.current), state := Ready)
      case Crash(_) => t.(message := Message(TaskAt(s, s.current).crashBadge, 0, 0, 0), state := Ready)
      case _ => t
  }

  ghost predicate Dispatches(s: State, e: Event, r: Outcome)
    requires Live(s, s.current) && r.Next?
  {
    var s' := r.state;
    s'.current != s.current ==>
      && Live(s, s'.current) && s'.current < |s'.tasks| && (InState(s, s'.current, Ready) || Wakes(s, e, s'.current))
      && s'.tasks[s'.current] == Some(Resumed(Reached(s, e, s'.current)))
      && r.got == Delivered(s'.current, Reached(s, e, s'.current))
  }

  lemma SwitchDispatches(s: State, s1: State, e: Event, st: TaskState, k: Continuation, prefer: Option<nat>,
                         sent: Option<Parcel>)
    requires WellFormed(s) && WellFormed(s1) && s1.current == s.current && |s1.tasks| == |s.tasks|
    requires prefer.Some? ==> InState(s1, prefer.value, Ready)
    requires forall n: nat :: InState(s1, n, Ready) && n != s.current ==>
      Live(s, n) && TaskAt(s1, n) == Reached(s, e, n) && (InState(s, n, Ready) || Wakes(s, e, n))
    requires SwitchAway(s1, st, k, prefer, sent).Next?
    ensures Dispatches(s, e, SwitchAway(s1, st, k, prefer, sent))
  {
    hide Resumed, Delivered;
    var s2 := Put(s1, s1.current, TaskAt(s1, s1.current).(state := st, cont := k));
    var next := if prefer.Some? then prefer.value else PickNext(s2);
    assert InState(s1, next, Ready);
  }

  lemma CrashDispatches(s: State, q: bool)
    requires WellFormed(s) && CrashStep(s, q).Next?
    ensures Dispatches(s, Crash(q), CrashStep(s, q))
  {
    hide SwitchAway, Resumed, Delivered;
    var me := TaskAt(s, s.current);
    match HealerFor(s, q)
    case None => SwitchDispatches(s, s, Crash(q), Exited, me.cont, None, None);
    case Some(h) =>
      var msg := Message(me.crashBadge, 0, 0, 0);
      var s1 := Put(s, h, TaskAt(s, h).(message := msg, state := Ready));
      SwitchDispatches(s, s1, Crash(q), Exited, me.cont, Some(h), Some(Parcel(OnEndpoint(CRASH_EP), msg)));
  }

  lemma SendDispatches(s: State, idx: nat, m: Message)
    requires WellFormed(s) && SendStep(s, idx, m).Next?
    ensures Dispatches(s, DoSend(idx, m), SendStep(s, idx, m))
  {
    hide SwitchAway, Resumed, Delivered;
    var me := TaskAt(s, s.current);
    var ep := CapLookup(me.caps, idx);
    if ep.Some? && FindBlocked(s, ep.value, Recv).None? {
      SwitchDispatches(s, Put(s, s.current, me.(message := m)), DoSend(idx, m), Blocked(ep.value, Send), ReturnZero,
                       None, Some(Parcel(OnEndpoint(ep.value), m)));
    }
  }

  lemma RecvDispatches(s: State, idx: nat, slot: nat)
    requires WellFormed(s) && RecvStep(s, idx, slot).Next?
    ensures Dispatches(s, DoRecv(idx, slot), RecvStep(s, idx, slot))
  {
    hide SwitchAway, Resumed, Delivered;
    var ep := CapLookup(TaskAt(s, s.current).caps, idx);
    if ep.Some? && Waiting(s, ep.value).None? {
      SwitchDispatches(s, s, DoRecv(idx, slot), Blocked(ep.value, Recv), FinishRecv(ep.value, slot), None, None);
    }
  }

  lemma CallDispatches(s: State, idx: nat, m: Message)
    requires WellFormed(s) && CallStep(s, idx, m).Next?
    ensures Dispatches(s, DoCall(idx, m), CallStep(s, idx, m))
  {
    hide SwitchAway, Resumed, Delivered;
    var me := TaskAt(s, s.current);
    match CapLookup(me.caps, idx)
    case None =>
    case Some(ep) =>
      var sent := Some(Parcel(OnEndpoint(ep), m));
      match FindBlocked(s, ep, Recv) {
        case None =>
          SwitchDispatches(s, Put(s, s.current, me.(message := m)), DoCall(idx, m), Blocked(ep, Call), ReturnMessage,
                           None, sent);
        case Some(ri) =>
          var s1 := Put(s, ri, TaskAt(s, ri).(message := m, caller := Some(s.current), state := Ready));
          FindIs(s, Blocked(ep, Recv));
          assert Partner(s, DoCall(idx, m), ri);
          SwitchDispatches(s, s1, DoCall(idx, m), AwaitingReply, ReturnMessage, None, sent);
      }
  }

  lemma GrantDispatches(s: State, idx: nat, src: nat, badge: nat)
    requires WellFormed(s) && GrantStep(s, idx, src, badge).Next?
    ensures Dispatches(s, DoGrant(idx, src, badge), GrantStep(s, idx, src, badge))
  {
    hide SwitchAway, Resumed, Delivered;
    var me := TaskAt(s, s.current);
    var ep, cap := CapLookup(me.caps, idx), CapAt(me.caps, src);
    if ep.Some? && cap.Some? && FindBlocked(s, ep.value, Recv).None? {
      var msg := Message(badge, 0, 0, 0);
      SwitchDispatches(s, Put(s, s.current, me.(message := msg, pendingGrant := cap)), DoGrant(idx, src, badge),
                       Blocked(ep.value, Send), ReturnZero, None, Some(Parcel(OnEndpoint(ep.value), msg)));
    }
  }

  /** The task a step switches to runs from where it was parked. */
  lemma DispatchedIs(s: State, e: Event)
    requires WellFormed(s) && Step(s, e).Next?
    ensures Dispatches(s, e, Step(s, e))
  {
    hide SwitchAway, Resumed, Delivered, CrashStep, SendStep, CallStep, GrantStep, RecvStep, PickNext;
    var me := TaskAt(s, s.current);
    match e
    case Yield =>
      if PickNext(s) != s.current { SwitchDispatches(s, s, e, Ready, ToUser, Some(PickNext(s)), None); }
    case Exit => SwitchDispatches(s, s, e, Exited, me.cont, None, None);
    case Crash(q) => CrashDispatches(s, q);
    case DoSend(x, m) => SendDispatches(s, x, m);
    case DoRecv(x, r) => RecvDispatches(s, x, r);
    case DoCall(x, m) => CallDispatches(s, x, m);
    case DoGrant(x, y, b) => GrantDispatches(s, x, y, b);
    case WaitIrq(x) =>
      if InterruptIrq(me.caps, x).Some? {
        SwitchDispatches(s, s, e, WaitingIrq(InterruptIrq(me.caps, x).value), ReturnZero, None, None);
      }
    case _ =>
  }

  // ---- the other tasks ----

  /** What the event makes of its partner. */
  ghost predicate Reaches(s: State, e: Event, t: Task, t': Task)
    requires Live(s, s.current)
  {
    match e
    case DoSend(_, m) => t' == t.(message := m, state := Ready)
    case DoCall(_, m) => t' == t.(message := m, caller := Some(s.current), state := Ready)
    case DoGrant(_, x, b) =>
      x < |TaskAt(s, s.current).caps| &&
      t' == t.(message := Message(b, 0, 0, 0), pendingGrant := TaskAt(s, s.current).caps[x], state := Ready)
    case DoRecv(_, _) =>
      t.state.Blocked? && t' == t.(pendingGrant := None, state := if t.state.role == Call then AwaitingReply else Ready)
    case _ => false
  }

  /** The event revokes endpoint ep. */
  ghost predicate Revokes(s: State, e: Event, ep: nat)
    requires Live(s, s.current)
  {
    e.DoRevoke? && Holds(TaskAt(s, s.current).caps, e.epIdx, Endpoint(ep))
  }

  ghost predicate RevokesAny(s: State, e: Event)
    requires Live(s, s.current)
  {
    exists ep: nat :: Revokes(s, e, ep)
  }

  /** What a step makes of a task that neither leaves the hart nor comes to it. */
  ghost predicate Bystander(s: State, e: Event, i: nat, t': Task)
    requires Live(s, s.current) && Live(s, i)
  {
    var t := TaskAt(s, i);
    if Partner(s, e, i) then Reaches(s, e, t, t')
    else if e.DoReply? && Holds(TaskAt(s, s.current).caps, e.replySlot, Reply(i)) && t.state == AwaitingReply
      then t' == t.(message := e.msg, state := Ready)
    else if Relaunches(s, e, i)
      then t' == t.(cont := Launch(t.restarts + 1), restarts := t.restarts + 1, state := Ready)
    else if e.WakeIrq? && First(s, WaitingIrq(e.irq), i) then t' == t.(state := Ready)
    else if RevokesAny(s, e) then
      && t' == t.(caps := t'.caps) && |t'.caps| == |t.caps|
      && forall ep: nat, k :: Revokes(s, e, ep) && 0 <= k < |t.caps| ==>
           t'.caps[k] == if t.caps[k] == Some(Endpoint(ep)) then None else t.caps[k]
    else t' == t
  }

  ghost predicate Stands(s: State, e: Event, s': State, i: nat)
    requires Live(s, s.current)
  {
    Live(s, i) && i != s.current && i != s'.current ==> Live(s', i) && Bystander(s, e, i, TaskAt(s', i))
  }

  /** A switch touches only the two tasks it switches between. */
  lemma SwitchStands(s1: State, st: TaskState, k: Continuation, prefer: Option<nat>, sent: Option<Parcel>, i: nat)
    requires WellFormed(s1) && (prefer.Some? ==> Live(s1, prefer.value)) && SwitchAway(s1, st, k, prefer, sent).Next?
    ensures var s' := SwitchAway(s1, st, k, prefer, sent).state;
            Live(s1, i) && i != s1.current && i != s'.current ==> Live(s', i) && TaskAt(s', i) == TaskAt(s1, i)
  {
  }

  lemma SendStands(s: State, idx: nat, m: Message, i: nat)
    requires WellFormed(s) && SendStep(s, idx, m).Next?
    ensures Stands(s, DoSend(idx, m), SendStep(s, idx, m).state, i)
  {
    hide SwitchAway, FindFrom, First;
    var me := TaskAt(s, s.current);
    var ep := CapLookup(me.caps, idx);
    if ep.Some? {
      FindIs(s, Blocked(ep.value, Recv));
      if FindBlocked(s, ep.value, Recv).None? {
        SwitchStands(Put(s, s.current, me.(message := m)), Blocked(ep.value, Send), ReturnZero, None,
                     Some(Parcel(OnEndpoint(ep.value), m)), i);
      }
    }
  }

  lemma CallStands(s: State, idx: nat, m: Message, i: nat)
    requires WellFormed(s) && CallStep(s, idx, m).Next?
    ensures Stands(s, DoCall(idx, m), CallStep(s, idx, m).state, i)
  {
    hide SwitchAway, FindFrom, First;
    var me := TaskAt(s, s.current);
    match CapLookup(me.caps, idx)
    case None =>
    case Some(ep) =>
      var sent := Some(Parcel(OnEndpoint(ep), m));
      FindIs(s, Blocked(ep, Recv));
      match FindBlocked(s, ep, Recv) {
        case None =>
          SwitchStands(Put(s, s.current, me.(message := m)), Blocked(ep, Call), ReturnMessage, None, sent, i);
        case Some(ri) =>
          var s1 := Put(s, ri, TaskAt(s, ri).(message := m, caller := Some(s.current), state := Ready));
          SwitchStands(s1, AwaitingReply, ReturnMessage, None, sent, i);
      }
  }

  lemma GrantStands(s: State, idx: nat, src: nat, badge: nat, i: nat)
    requires WellFormed(s) && GrantStep(s, idx, src, badge).Next?
    ensures Stands(s, DoGrant(idx, src, badge), GrantStep(s, idx, src, badge).state, i)
  {
    hide SwitchAway, FindFrom, First;
    var me := TaskAt(s, s.current);
    var ep, cap := CapLookup(me.caps, idx), CapAt(me.caps, src);
    if ep.Some? && cap.Some? {
      FindIs(s, Blocked(ep.value, Recv));
      if FindBlocked(s, ep.value, Recv).None? {
        var msg := Message(badge, 0, 0, 0);
        SwitchStands(Put(s, s.current, me.(message := msg, pendingGrant := cap)), Blocked(ep.value, Send), ReturnZero,
                     None, Some(Parcel(OnEndpoint(ep.value), msg)), i);
      }
    }
  }

  lemma RecvStands(s: State, idx: nat, slot: nat, i: nat)
    requires WellFormed(s) && RecvStep(s, idx, slot).Next?
    ensures Stands(s, DoRecv(idx, slot), RecvStep(s, idx, slot).state, i)
  {
    hide SwitchAway, FindFrom, First;
    var ep := CapLookup(TaskAt(s, s.current).caps, idx);
    if ep.Some? {
      FindIs(s, Blocked(ep.value, Send));
      FindIs(s, Blocked(ep.value, Call));
      if Waiting(s, ep.value).None? {
        SwitchStands(s, Blocked(ep.value, Recv), FinishRecv(ep.value, slot), None, None, i);
      }
    }
  }

  lemma CrashStands(s: State, q: bool, i: nat)
    requires WellFormed(s) && CrashStep(s, q).Next?
    ensures Stands(s, Crash(q), CrashStep(s, q).state, i)
  {
    hide SwitchAway, FindFrom;
    var me := TaskAt(s, s.current);
    match HealerFor(s, q)
    case None => SwitchStands(s, Exited, me.cont, None, None, i);
    case Some(h) =>
      var msg := Message(me.crashBadge, 0, 0, 0);
      var s1 := Put(s, h, TaskAt(s, h).(message := msg, state := Ready));
      SwitchStands(s1, Exited, me.cont, Some(h), Some(Parcel(OnEndpoint(CRASH_EP), msg)), i);
      SwitchStates(s1, Exited, me.cont, Some(h), Some(Parcel(OnEndpoint(CRASH_EP), msg)), h);
  }

  lemma YieldStands(s: State, i: nat)
    requires WellFormed(s) && YieldStep(s).Next?
    ensures Stands(s, Yield, YieldStep(s).state, i)
  {
    hide SwitchAway, PickNext;
    if PickNext(s) != s.current { SwitchStands(s, Ready, ToUser, Some(PickNext(s)), None, i); }
  }

  lemma ExitStands(s: State, i: nat)
    requires WellFormed(s) && ExitStep(s).Next?
    ensures Stands(s, Exit, ExitStep(s).state, i)
  {
    hide SwitchAway;
    SwitchStands(s, Exited, TaskAt(s, s.current).cont, None, None, i);
  }

  lemma WaitStands(s: State, idx: nat, i: nat)
    requires WellFormed(s) && WaitIrqStep(s, idx).Next?
    ensures Stands(s, WaitIrq(idx), WaitIrqStep(s, idx).state, i)
  {
    hide SwitchAway;
    var irq := InterruptIrq(TaskAt(s, s.current).caps, idx);
    if irq.Some? { SwitchStands(s, WaitingIrq(irq.value), ReturnZero, None, None, i); }
  }

  lemma ReplyStands(s: State, slot: nat, m: Message, i: nat)
    requires WellFormed(s) && ReplyStep(s, slot, m).Next?
    ensures Stands(s, DoReply(slot, m), ReplyStep(s, slot, m).state, i)
  {
  }

  lemma RestartStands(s: State, idx: nat, i: nat)
    requires WellFormed(s) && RestartStep(s, idx).Next?
    ensures Stands(s, DoRestart(idx), RestartStep(s, idx).state, i)
  {
  }

  lemma RevokeStands(s: State, idx: nat, i: nat)
    requires WellFormed(s)
    ensures Stands(s, DoRevoke(idx), RevokeStep(s, idx).state, i)
  {
    match CapLookup(TaskAt(s, s.current).caps, idx)
    case None => assert !RevokesAny(s, DoRevoke(idx));
    case Some(ep) => assert Revokes(s, DoRevoke(idx), ep);
  }

  lemma WakeStands(s: State, irq: nat, i: nat)
    requires WellFormed(s)
    ensures Stands(s, WakeIrq(irq), WakeIrqStep(s, irq).state, i)
  {
    hide FindFrom, First;
    FindIs(s, WaitingIrq(irq));
  }

  /** What a step does to every task but the two it switches between. */
  lemma OtherIs(s: State, e: Event, s': State, i: nat)
    requires Takes(s, e, s')
    ensures Stands(s, e, s', i)
  {
    hide SwitchAway, CrashStep, SendStep, CallStep, GrantStep, RecvStep, ReplyStep, RestartStep, RevokeStep,
      WakeIrqStep, WaitIrqStep, YieldStep, ExitStep, Stands;
    match e
    case Yield => YieldStands(s, i);
    case Exit => ExitStands(s, i);
    case Crash(q) => CrashStands(s, q, i);
    case DoSend(x, m) => SendStands(s, x, m, i);
    case DoRecv(x, r) => RecvStands(s, x, r, i);
    case DoCall(x, m) => CallStands(s, x, m, i);
    case DoGrant(x, y, b) => GrantStands(s, x, y, b, i);
    case DoRevoke(x) => RevokeStands(s, x, i);
    case WakeIrq(q) => WakeStands(s, q, i);
    case WaitIrq(x) => WaitStands(s, x, i);
    case DoReply(r, m) => ReplyStands(s, r, m, i);
    case DoRestart(x) => RestartStands(s, x, i);
  }

  // ---- the task that leaves the hart ----

  predicate HoldsEndpoint(caps: CapTable, c: nat) {
    c < |caps| && caps[c].Some? && caps[c].value.Endpoint?
  }

  predicate HoldsInterrupt(caps: CapTable, c: nat) {
    c < |caps| && caps[c].Some? && caps[c].value.Interrupt?
  }

  /** How the current task is parked when the step switches away from it. */
  ghost predicate Parked(s: State, e: Event, t: Task, t': Task)
    requires Live(s, s.current)
  {
    match e
    case Yield => t' == t.(state := Ready, cont := ToUser)
    case Exit => t' == t.(state := Exited)
    case Crash(_) => t' == t.(state := Exited)
    case DoSend(c, m) =>
      && HoldsEndpoint(t.caps, c) && NoneIn(s, Blocked(t.caps[c].value.id, Recv))
      && t' == t.(message := m, state := Blocked(t.caps[c].value.id, Send), cont := ReturnZero)
    case DoGrant(c, x, b) =>
      && HoldsEndpoint(t.caps, c) && NoneIn(s, Blocked(t.caps[c].value.id, Recv)) && x < |t.caps| && t.caps[x].Some?
      && t' == t.(message := Message(b, 0, 0, 0), pendingGrant := t.caps[x],
                  state := Blocked(t.caps[c].value.id, Send), cont := ReturnZero)
    case DoCall(c, m) =>
      && HoldsEndpoint(t.caps, c)
      && if NoneIn(s, Blocked(t.caps[c].value.id, Recv))
         then t' == t.(message := m, state := Blocked(t.caps[c].value.id, Call), cont := ReturnMessage)
         else t' == t.(state := AwaitingReply, cont := ReturnMessage)
    case DoRecv(c, slot) =>
      && HoldsEndpoint(t.caps, c)
      && NoneIn(s, Blocked(t.caps[c].value.id, Send)) && NoneIn(s, Blocked(t.caps[c].value.id, Call))
      && t' == t.(state := Blocked(t.caps[c].value.id, Recv), cont := FinishRecv(t.caps[c].value.id, slot))
    case WaitIrq(c) =>
      && HoldsInterrupt(t.caps, c)
      && t' == t.(state := WaitingIrq(t.caps[c].value.irq), cont := ReturnZero)
    case _ => false
  }

  ghost predicate Leaves(s: State, e: Event, s': State)
    requires Live(s, s.current)
  {
    s'.current != s.current ==> Live(s', s.current) && Parked(s, e, TaskAt(s, s.current), TaskAt(s', s.current))
  }

  lemma SwitchLeaves(s1: State, st: TaskState, k: Continuation, prefer: Option<nat>, sent: Option<Parcel>)
    requires WellFormed(s1) && (prefer.Some? ==> Live(s1, prefer.value)) && SwitchAway(s1, st, k, prefer, sent).Next?
    ensures var s' := SwitchAway(s1, st, k, prefer, sent).state;
            && s'.current != s1.current && Live(s', s1.current)
            && TaskAt(s', s1.current) == TaskAt(s1, s1.current).(state := st, cont := k)
  {
  }

  lemma SendLeaves(s: State, idx: nat, m: Message)
    requires WellFormed(s) && SendStep(s, idx, m).Next?
    ensures Leaves(s, DoSend(idx, m), SendStep(s, idx, m).state)
  {
    hide SwitchAway, FindFrom, First;
    var me := TaskAt(s, s.current);
    var ep := CapLookup(me.caps, idx);
    if ep.Some? {
      FindIs(s, Blocked(ep.value, Recv));
      if FindBlocked(s, ep.value, Recv).None? {
        SwitchLeaves(Put(s, s.current, me.(message := m)), Blocked(ep.value, Send), ReturnZero, None,
                     Some(Parcel(OnEndpoint(ep.value), m)));
      }
    }
  }

  lemma CallLeaves(s: State, idx: nat, m: Message)
    requires WellFormed(s) && CallStep(s, idx, m).Next?
    ensures Leaves(s, DoCall(idx, m), CallStep(s, idx, m).state)
  {
    hide SwitchAway, FindFrom, First;
    var me := TaskAt(s, s.current);
    match CapLookup(me.caps, idx)
    case None =>
    case Some(ep) =>
      var sent := Some(Parcel(OnEndpoint(ep), m));
      FindIs(s, Blocked(ep, Recv));
      match FindBlocked(s, ep, Recv) {
        case None => SwitchLeaves(Put(s, s.current, me.(message := m)), Blocked(ep, Call), ReturnMessage, None, sent);
        case Some(ri) =>
          var s1 := Put(s, ri, TaskAt(s, ri).(message := m, caller := Some(s.current), state := Ready));
          SwitchLeaves(s1, AwaitingReply, ReturnMessage, None, sent);
      }
  }

  lemma GrantLeaves(s: State, idx: nat, src: nat, badge: nat)
    requires WellFormed(s) && GrantStep(s, idx, src, badge).Next?
    ensures Leaves(s, DoGrant(idx, src, badge), GrantStep(s, idx, src, badge).state)
  {
    hide SwitchAway, FindFrom, First;
    var me := TaskAt(s, s.current);
    var ep, cap := CapLookup(me.caps, idx), CapAt(me.caps, src);
    if ep.Some? && cap.Some? {
      FindIs(s, Blocked(ep.value, Recv));
      if FindBlocked(s, ep.value, Recv).None? {
        var msg := Message(badge, 0, 0, 0);
        SwitchLeaves(Put(s, s.current, me.(message := msg, pendingGrant := cap)), Blocked(ep.value, Send), ReturnZero,
                     None, Some(Parcel(OnEndpoint(ep.value), msg)));
      }
    }
  }

  lemma RecvLeaves(s: State, idx: nat, slot: nat)
    requires WellFormed(s) && RecvStep(s, idx, slot).Next?
    ensures Leaves(s, DoRecv(idx, slot), RecvStep(s, idx, slot).state)
  {
    hide SwitchAway, FindFrom, First;
    var ep := CapLookup(TaskAt(s, s.current).caps, idx);
    if ep.Some? {
      FindIs(s, Blocked(ep.value, Send));
      FindIs(s, Blocked(ep.value, Call));
      if Waiting(s, ep.value).None? {
        SwitchLeaves(s, Blocked(ep.value, Recv), FinishRecv(ep.value, slot), None, None);
      }
    }
  }

  lemma CrashLeaves(s: State, q: bool)
    requires WellFormed(s) && CrashStep(s, q).Next?
    ensures Leaves(s, Crash(q), CrashStep(s, q).state) && CrashStep(s, q).state.current != s.current
  {
    hide SwitchAway, FindFrom;
    var me := TaskAt(s, s.current);
    match HealerFor(s, q)
    case None => SwitchLeaves(s, Exited, me.cont, None, None);
    case Some(h) =>
      var msg := Message(me.crashBadge, 0, 0, 0);
      SwitchLeaves(Put(s, h, TaskAt(s, h).(message := msg, state := Ready)), Exited, me.cont, Some(h),
                   Some(Parcel(OnEndpoint(CRASH_EP), msg)));
  }

  /** How a step parks the task it switches away from. */
  lemma LeaverIs(s: State, e: Event, s': State)
    requires Takes(s, e, s')
    ensures Leaves(s, e, s')
  {
    hide SwitchAway, CrashStep, SendStep, CallStep, GrantStep, RecvStep, PickNext;
    var me := TaskAt(s, s.current);
    match e
    case Yield =>
      if PickNext(s) != s.current { SwitchLeaves(s, Ready, ToUser, Some(PickNext(s)), None); }
    case Exit => SwitchLeaves(s, Exited, me.cont, None, None);
    case Crash(q) => CrashLeaves(s, q);
    case DoSend(x, m) => SendLeaves(s, x, m);
    case DoRecv(x, r) => RecvLeaves(s, x, r);
    case DoCall(x, m) => CallLeaves(s, x, m);
    case DoGrant(x, y, b) => GrantLeaves(s, x, y, b);
    case WaitIrq(x) =>
      if InterruptIrq(me.caps, x).Some? {
        SwitchLeaves(s, WaitingIrq(InterruptIrq(me.caps, x).value), ReturnZero, None, None);
      }
    case _ =>
  }

  // ---- the task that comes to the hart ----

  /** The table with slot set to what comes in, if anything does. */
  predicate Filled(caps: CapTable, caps': CapTable, slot: nat, incoming: Option<Capability>) {
    && |caps'| == |caps|
    && forall k :: 0 <= k < |caps| ==> caps'[k] == if k == slot && incoming.Some? then incoming else caps[k]
  }

  /** What comes in with a recv that ends: the capability that was granted, or else
      the right to answer the call. */
  function Incoming(t: Task): Option<Capability> {
    if t.pendingGrant.Some? then t.pendingGrant else if t.caller.Some? then Some(Reply(t.caller.value)) else None
  }

  /** How a parked task runs on: where it was, or launched with its generation, or
      with 0 for a send, a grant or a wait, or with the message that ends its call or
      its recv, and then with what came with it. */
  predicate RunsOn(t: Task, t': Task) {
    && t' == t.(state := Running, cont := ToUser, regs := t'.regs, caps := t'.caps, caller := t'.caller,
                pendingGrant := t'.pendingGrant)
    && (match t.cont
        case ToUser => t'.regs == t.regs
        case Launch(g) => t'.regs == t.regs.(badge := g)
        case ReturnZero => t'.regs == t.regs.(badge := 0)
        case ReturnMessage => t'.regs == t.message
        case FinishRecv(_, _) => t'.regs == t.message)
    && if t.cont.FinishRecv?
       then t'.caller.None? && t'.pendingGrant.None? && Filled(t.caps, t'.caps, t.cont.replySlot, Incoming(t))
       else t'.caller == t.caller && t'.pendingGrant == t.pendingGrant && t'.caps == t.caps
  }

  /** The task a step switches to. */
  lemma RunnerIs(s: State, e: Event, s': State)
    requires Takes(s, e, s') && s'.current != s.current
    ensures Live(s, s'.current) && Live(s', s'.current)
    ensures InState(s, s'.current, Ready) || Wakes(s, e, s'.current)
    ensures RunsOn(Reached(s, e, s'.current), TaskAt(s', s'.current))
  {
    hide Step;
    DispatchedIs(s, e);
  }
}
