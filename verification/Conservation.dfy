/** Conservation of messages: what senders hand over is what receivers get, plus
    what is still on its way. */
module Conservation {
  import opened Options
  import opened KernelTypes
  import opened Steps
  import opened Lifecycle
  import opened Switching

  /** A parcel on its way in task i: queued at an endpoint, or in the inbox of
      a woken receiver or caller that has not run yet. */
  function Carry(i: nat, t: Task): Option<Parcel> {
    match t.state
    case Blocked(ep, Send) => Some(Parcel(OnEndpoint(ep), t.message))
    case Blocked(ep, Call) => Some(Parcel(OnEndpoint(ep), t.message))
    case Ready =>
      (match t.cont
       case ReturnMessage => Some(Parcel(BackTo(i), t.message))
       case FinishRecv(ep, _) => Some(Parcel(OnEndpoint(ep), t.message))
       case _ => None)
    case _ => None
  }

  function CarryAt(s: State, i: nat): Option<Parcel> {
    if Live(s, i) then Carry(i, TaskAt(s, i)) else None
  }

  function One(o: Option<Parcel>, p: Parcel): nat {
    if o == Some(p) then 1 else 0
  }

  /** Copies of parcel p on their way in the first n tasks. */
  function InTransit(s: State, p: Parcel, n: nat): nat {
    if n == 0 then 0 else InTransit(s, p, n - 1) + One(CarryAt(s, n - 1), p)
  }

  /** What a parked task will do next fits the state it is parked in. */
  predicate Fits(t: Task) {
    match t.state
    case Running => t.cont.ToUser? || t.cont.Launch?
    case Blocked(ep, Recv) => t.cont.FinishRecv? && t.cont.endpoint == ep
    case Blocked(_, Send) => t.cont.ReturnZero?
    case Blocked(_, Call) => t.cont.ReturnMessage?
    case AwaitingReply => t.cont.ReturnMessage?
    case WaitingIrq(_) => t.cont.ReturnZero?
    case _ => true
  }

  ghost predicate Coherent(s: State) {
    && WellFormed(s)
    && (TaskAt(s, s.current).cont.ToUser? || TaskAt(s, s.current).cont.Launch?)
    && forall i :: 0 <= i < |s.tasks| && s.tasks[i].Some? ==> Fits(s.tasks[i].value)
  }

  // ---- sums ----

  lemma {:induction false} PutTransit(s: State, i: nat, t: Task, p: Parcel, n: nat)
    requires Live(s, i)
    ensures i < n ==>
      InTransit(Put(s, i, t), p, n) + One(Carry(i, TaskAt(s, i)), p) == InTransit(s, p, n) + One(Carry(i, t), p)
    ensures i >= n ==> InTransit(Put(s, i, t), p, n) == InTransit(s, p, n)
    decreases n
  {
    if n > 0 {
      PutTransit(s, i, t, p, n - 1);
      if i == n - 1 {
        assert CarryAt(Put(s, i, t), n - 1) == Carry(i, t);
      } else {
        assert CarryAt(Put(s, i, t), n - 1) == CarryAt(s, n - 1);
      }
    }
  }

  lemma {:induction false} SameTransit(s: State, s': State, p: Parcel, n: nat)
    requires forall i: nat :: i < n ==> CarryAt(s', i) == CarryAt(s, i)
    ensures InTransit(s', p, n) == InTransit(s, p, n)
    decreases n
  {
    if n > 0 { SameTransit(s, s', p, n - 1); }
  }

  /** Balance of a step: in transit before plus sent is in transit after plus got. */
  ghost predicate Balanced(s: State, r: Outcome, p: Parcel) {
    r.Next? && InTransit(r.state, p, MAX_TASKS) + One(r.got, p) == InTransit(s, p, MAX_TASKS) + One(r.sent, p)
  }

  lemma SwitchBalance(s: State, st: TaskState, k: Continuation, prefer: Option<nat>, sent: Option<Parcel>, p: Parcel)
    requires Coherent(s) && (prefer.Some? ==> InState(s, prefer.value, Ready))
    requires SwitchAway(s, st, k, prefer, sent).Next?
    requires Fits(TaskAt(s, s.current).(state := st, cont := k)) && st != Running
    ensures var r := SwitchAway(s, st, k, prefer, sent);
            && Coherent(r.state) && r.sent == sent
            && InTransit(r.state, p, MAX_TASKS) + One(r.got, p)
               == InTransit(s, p, MAX_TASKS) + One(Carry(s.current, TaskAt(s, s.current).(state := st, cont := k)), p)
  {
    var t := TaskAt(s, s.current).(state := st, cont := k);
    var s1 := Put(s, s.current, t);
    var next := if prefer.Some? then prefer.value else PickNext(s1);
    assert CarryAt(s, s.current) == None;
    PutTransit(s, s.current, t, p, MAX_TASKS);
    PutTransit(s1, next, Resumed(TaskAt(s1, next)), p, MAX_TASKS);
    var s2 := Put(s1, next, Resumed(TaskAt(s1, next)));
    SameTransit(s2, s2.(current := next), p, MAX_TASKS);
  }

  /** Rewriting one task that carries nothing before and after. */
  lemma PutNothing(s: State, i: nat, t: Task, p: Parcel)
    requires Coherent(s) && Live(s, i) && Carry(i, TaskAt(s, i)) == None == Carry(i, t)
    requires Fits(t) && |t.caps| == CAP_SLOTS
    requires i == s.current ==> t.state in {Running, Ready} && (t.cont.ToUser? || t.cont.Launch?)
    ensures Coherent(Put(s, i, t)) && InTransit(Put(s, i, t), p, MAX_TASKS) == InTransit(s, p, MAX_TASKS)
  {
    PutTransit(s, i, t, p, MAX_TASKS);
  }

  /** A parked task other than the current one becomes Ready with a parcel. */
  lemma PutParcel(s: State, i: nat, t: Task, p: Parcel)
    requires Coherent(s) && Live(s, i) && i != s.current && Carry(i, TaskAt(s, i)) == None
    requires Fits(t) && |t.caps| == CAP_SLOTS
    ensures Coherent(Put(s, i, t))
    ensures InTransit(Put(s, i, t), p, MAX_TASKS) == InTransit(s, p, MAX_TASKS) + One(Carry(i, t), p)
  {
    PutTransit(s, i, t, p, MAX_TASKS);
  }

  lemma SetA0Balance(s: State, v: nat, p: Parcel)
    requires Coherent(s)
    ensures Coherent(SetA0(s, v)) && InTransit(SetA0(s, v), p, MAX_TASKS) == InTransit(s, p, MAX_TASKS)
  {
    PutNothing(s, s.current, TaskAt(SetA0(s, v), s.current), p);
  }

  // ---- the steps ----

  lemma YieldBalance(s: State, p: Parcel)
    requires Coherent(s) && YieldStep(s).Next?
    ensures Coherent(YieldStep(s).state) && Balanced(s, YieldStep(s), p)
  {
    if PickNext(s) != s.current { SwitchBalance(s, Ready, ToUser, Some(PickNext(s)), None, p); }
  }

  lemma CrashBalance(s: State, q: bool, p: Parcel)
    requires Coherent(s) && CrashStep(s, q).Next?
    ensures Coherent(CrashStep(s, q).state) && Balanced(s, CrashStep(s, q), p)
  {
    hide SwitchAway;
    var me := TaskAt(s, s.current);
    match HealerFor(s, q)
    case None => SwitchBalance(s, Exited, me.cont, None, None, p);
    case Some(h) =>
      var msg := Message(me.crashBadge, 0, 0, 0);
      var t := TaskAt(s, h).(message := msg, state := Ready);
      PutParcel(s, h, t, p);
      SwitchBalance(Put(s, h, t), Exited, me.cont, Some(h), Some(Parcel(OnEndpoint(CRASH_EP), msg)), p);
  }

  lemma SendBalance(s: State, idx: nat, m: Message, p: Parcel)
    requires Coherent(s) && SendStep(s, idx, m).Next?
    ensures Coherent(SendStep(s, idx, m).state) && Balanced(s, SendStep(s, idx, m), p)
  {
    hide SwitchAway;
    var me := TaskAt(s, s.current);
    match CapLookup(me.caps, idx)
    case None => SetA0Balance(s, USIZE_MAX, p);
    case Some(ep) =>
      match FindBlocked(s, ep, Recv) {
        case Some(ri) =>
          var t := TaskAt(s, ri).(message := m, state := Ready);
          PutParcel(s, ri, t, p);
          SetA0Balance(Put(s, ri, t), 0, p);
        case None =>
          PutNothing(s, s.current, me.(message := m), p);
          SwitchBalance(Put(s, s.current, me.(message := m)), Blocked(ep, Send), ReturnZero, None,
                        Some(Parcel(OnEndpoint(ep), m)), p);
      }
  }

  lemma TakeBalance(s: State, si: nat, ep: nat, slot: nat, p: Parcel)
    requires Coherent(s) && Live(s, si) && TaskAt(s, si).state in {Blocked(ep, Send), Blocked(ep, Call)}
    ensures Coherent(TakeFrom(s, si, ep, slot).state) && Balanced(s, TakeFrom(s, si, ep, slot), p)
  {
    var t := TaskAt(s, si);
    var t1 := t.(pendingGrant := None, state := if t.state == Blocked(ep, Call) then AwaitingReply else Ready);
    PutTransit(s, si, t1, p, MAX_TASKS);
    var s1 := Put(s, si, t1);
    PutNothing(s1, s.current, TaskAt(TakeFrom(s, si, ep, slot).state, s.current), p);
  }

  lemma RecvBalance(s: State, idx: nat, slot: nat, p: Parcel)
    requires Coherent(s) && RecvStep(s, idx, slot).Next?
    ensures Coherent(RecvStep(s, idx, slot).state) && Balanced(s, RecvStep(s, idx, slot), p)
  {
    hide SwitchAway, TakeFrom;
    match CapLookup(TaskAt(s, s.current).caps, idx)
    case None => SetA0Balance(s, USIZE_MAX, p);
    case Some(ep) =>
      match Waiting(s, ep) {
        case Some(si) => TakeBalance(s, si, ep, slot, p);
        case None => SwitchBalance(s, Blocked(ep, Recv), FinishRecv(ep, slot), None, None, p);
      }
  }

  lemma CallBalance(s: State, idx: nat, m: Message, p: Parcel)
    requires Coherent(s) && CallStep(s, idx, m).Next?
    ensures Coherent(CallStep(s, idx, m).state) && Balanced(s, CallStep(s, idx, m), p)
  {
    hide SwitchAway;
    var me := TaskAt(s, s.current);
    match CapLookup(me.caps, idx)
    case None => SetA0Balance(s, USIZE_MAX, p);
    case Some(ep) =>
      var sent := Some(Parcel(OnEndpoint(ep), m));
      match FindBlocked(s, ep, Recv) {
        case Some(ri) =>
          var t := TaskAt(s, ri).(message := m, caller := Some(s.current), state := Ready);
          PutParcel(s, ri, t, p);
          SwitchBalance(Put(s, ri, t), AwaitingReply, ReturnMessage, None, sent, p);
        case None =>
          PutNothing(s, s.current, me.(message := m), p);
          SwitchBalance(Put(s, s.current, me.(message := m)), Blocked(ep, Call), ReturnMessage, None, sent, p);
      }
  }

  lemma ReplyBalance(s: State, slot: nat, m: Message, p: Parcel)
    requires Coherent(s) && ReplyStep(s, slot, m).Next?
    ensures Coherent(ReplyStep(s, slot, m).state) && Balanced(s, ReplyStep(s, slot, m), p)
  {
    var me := TaskAt(s, s.current);
    match ReplyCaller(me.caps, slot)
    case None => SetA0Balance(s, USIZE_MAX, p);
    case Some(c) =>
      var t := me.(caps := me.caps[slot := None]);
      PutNothing(s, s.current, t, p);
      var s1 := Put(s, s.current, t);
      if InState(s, c, AwaitingReply) {
        var t1 := TaskAt(s1, c).(message := m, state := Ready);
        PutParcel(s1, c, t1, p);
        SetA0Balance(Put(s1, c, t1), 0, p);
      } else {
        SetA0Balance(s1, USIZE_MAX, p);
      }
  }

  lemma GrantBalance(s: State, idx: nat, src: nat, badge: nat, p: Parcel)
    requires Coherent(s) && GrantStep(s, idx, src, badge).Next?
    ensures Coherent(GrantStep(s, idx, src, badge).state) && Balanced(s, GrantStep(s, idx, src, badge), p)
  {
    hide SwitchAway, InTransit, Install, FindFrom;
    var me := TaskAt(s, s.current);
    if CapLookup(me.caps, idx).None? || CapAt(me.caps, src).None? {
      SetA0Balance(s, USIZE_MAX, p);
    } else {
      var ep, cap, msg := CapLookup(me.caps, idx).value, CapAt(me.caps, src), Message(badge, 0, 0, 0);
      match FindBlocked(s, ep, Recv) {
        case Some(ri) =>
          var t := TaskAt(s, ri).(message := msg, pendingGrant := cap, state := Ready);
          PutParcel(s, ri, t, p);
          SetA0Balance(Put(s, ri, t), 0, p);
        case None =>
          var t := me.(message := msg, pendingGrant := cap);
          PutNothing(s, s.current, t, p);
          SwitchBalance(Put(s, s.current, t), Blocked(ep, Send), ReturnZero, None, Some(Parcel(OnEndpoint(ep), msg)),
                        p);
      }
    }
  }

  lemma RevokeBalance(s: State, idx: nat, p: Parcel)
    requires Coherent(s)
    ensures Coherent(RevokeStep(s, idx).state) && Balanced(s, RevokeStep(s, idx), p)
  {
    match CapLookup(TaskAt(s, s.current).caps, idx)
    case None => SetA0Balance(s, USIZE_MAX, p);
    case Some(ep) =>
      var s1 := RevokedTasks(s, ep, s.current);
      assert forall i: nat :: CarryAt(s1, i) == CarryAt(s, i);
      SameTransit(s, s1, p, MAX_TASKS);
      SetA0Balance(s1, HeldCount(s, ep, s.current, |s.tasks|), p);
  }

  /** A restart wipes out parcel p, which its target carries. */
  ghost predicate Drops(s: State, e: Event, p: Parcel) {
    exists i: nat :: Relaunches(s, e, i) && CarryAt(s, i) == Some(p)
  }

  lemma RestartBalance(s: State, idx: nat, p: Parcel)
    requires Coherent(s) && RestartStep(s, idx).Next?
    ensures Coherent(RestartStep(s, idx).state)
    ensures Balanced(s, RestartStep(s, idx), p) <==> !Drops(s, DoRestart(idx), p)
  {
    var target := RestartTarget(TaskAt(s, s.current).caps, idx);
    if target.None? || !CanRestart(TaskAt(s, target.value).restarts, MAX_RESTARTS) {
      assert forall i: nat :: !Relaunches(s, DoRestart(idx), i);
      SetA0Balance(s, USIZE_MAX, p);
    } else {
      var t := TaskAt(s, target.value);
      var t1 := t.(cont := Launch(t.restarts + 1), restarts := t.restarts + 1, state := Ready);
      PutTransit(s, target.value, t1, p, MAX_TASKS);
      SetA0Balance(Put(s, target.value, t1), 0, p);
      assert Relaunches(s, DoRestart(idx), target.value);
      assert forall i: nat :: Relaunches(s, DoRestart(idx), i) ==> i == target.value;
    }
  }

  lemma IrqBalance(s: State, irq: nat, p: Parcel)
    requires Coherent(s)
    ensures Coherent(WakeIrqStep(s, irq).state) && Balanced(s, WakeIrqStep(s, irq), p)
  {
    match FindFrom(s.tasks, WaitingIrq(irq), 0)
    case None =>
    case Some(i) => PutNothing(s, i, TaskAt(s, i).(state := Ready), p);
  }

  /** Every outcome balances, but for a restart of a task that carries a parcel;
      that one does not. */
  lemma OutcomeBalance(s: State, e: Event, p: Parcel)
    requires Coherent(s) && Step(s, e).Next?
    ensures Coherent(Step(s, e).state)
    ensures Balanced(s, Step(s, e), p) <==> !Drops(s, e, p)
  {
    hide SwitchAway, CrashStep, SendStep, CallStep, GrantStep, RecvStep, ReplyStep, RestartStep, RevokeStep, Balanced,
      InTransit;
    var me := TaskAt(s, s.current);
    match e
    case Yield => YieldBalance(s, p);
    case Exit => ExitBalance(s, p);
    case Crash(q) => CrashBalance(s, q, p);
    case DoSend(x, m) => SendBalance(s, x, m, p);
    case DoRecv(x, r) => RecvBalance(s, x, r, p);
    case DoCall(x, m) => CallBalance(s, x, m, p);
    case DoReply(r, m) => ReplyBalance(s, r, m, p);
    case DoGrant(x, y, b) => GrantBalance(s, x, y, b, p);
    case DoRevoke(x) => RevokeBalance(s, x, p);
    case DoRestart(x) => RestartBalance(s, x, p);
    case WaitIrq(x) => WaitBalance(s, x, p);
    case WakeIrq(i) => IrqBalance(s, i, p);
  }

  lemma ExitBalance(s: State, p: Parcel)
    requires Coherent(s) && ExitStep(s).Next?
    ensures Coherent(ExitStep(s).state) && Balanced(s, ExitStep(s), p)
  {
    SwitchBalance(s, Exited, TaskAt(s, s.current).cont, None, None, p);
  }

  lemma WaitBalance(s: State, idx: nat, p: Parcel)
    requires Coherent(s) && WaitIrqStep(s, idx).Next?
    ensures Coherent(WaitIrqStep(s, idx).state) && Balanced(s, WaitIrqStep(s, idx), p)
  {
    match InterruptIrq(TaskAt(s, s.current).caps, idx)
    case None => SetA0Balance(s, USIZE_MAX, p);
    case Some(irq) => SwitchBalance(s, WaitingIrq(irq), ReturnZero, None, None, p);
  }

  // ---- what is sent and what is got, apart from the steps ----

  /** The event hands over parcel p: a send or a call its message, a grant its
      badge, each on the endpoint its slot holds; a reply to the waiting caller its
      slot names; a crash of a restartable task, not quarantined, its badge to a
      healer that waits. */
  ghost predicate Sends(s: State, e: Event, p: Parcel)
    requires Live(s, s.current)
  {
    var me := TaskAt(s, s.current);
    match e
    case DoSend(c, m) => p.channel.OnEndpoint? && Holds(me.caps, c, Endpoint(p.channel.ep)) && p.message == m
    case DoCall(c, m) => p.channel.OnEndpoint? && Holds(me.caps, c, Endpoint(p.channel.ep)) && p.message == m
    case DoGrant(c, x, b) =>
      && p.channel.OnEndpoint? && Holds(me.caps, c, Endpoint(p.channel.ep)) && p.message == Message(b, 0, 0, 0)
      && x < |me.caps| && me.caps[x].Some?
    case DoReply(r, m) =>
      && p.channel.BackTo? && Holds(me.caps, r, Reply(p.channel.caller)) && p.message == m
      && InState(s, p.channel.caller, AwaitingReply)
    case Crash(q) =>
      && !q && me.restartable && (exists h: nat :: InState(s, h, Blocked(CRASH_EP, Recv)))
      && p == Parcel(OnEndpoint(CRASH_EP), Message(me.crashBadge, 0, 0, 0))
    case _ => false
  }

  /** The step from s to s' puts parcel p into the registers of the task then on the
      hart: one that receives and finds a sender, or one that was parked in a recv or
      a call. */
  ghost predicate Gets(s: State, e: Event, s': State, p: Parcel)
    requires Live(s, s.current)
  {
    && Live(s', s'.current) && TaskAt(s', s'.current).regs == p.message
    && if s'.current == s.current
       then e.DoRecv? && p.channel.OnEndpoint? && Holds(TaskAt(s, s.current).caps, e.capIdx, Endpoint(p.channel.ep))
       else Live(s, s'.current) &&
            match TaskAt(s, s'.current).cont
            case ReturnMessage => p.channel == BackTo(s'.current)
            case FinishRecv(ep, _) => p.channel == OnEndpoint(ep)
            case _ => false
  }

  lemma SentIs(s: State, e: Event, p: Parcel)
    requires WellFormed(s) && Step(s, e).Next?
    ensures Step(s, e).sent == Some(p) <==> Sends(s, e, p)
  {
    hide PickNext, CrashStep, GrantStep;
    match e
    case Crash(q) => CrashSent(s, q, p);
    case DoGrant(x, y, b) => GrantSent(s, x, y, b, p);
    case _ =>
  }

  lemma CrashSent(s: State, q: bool, p: Parcel)
    requires WellFormed(s) && CrashStep(s, q).Next?
    ensures CrashStep(s, q).sent == Some(p) <==> Sends(s, Crash(q), p)
  {
    hide PickNext, Resumed, Delivered;
  }

  lemma GrantSent(s: State, idx: nat, src: nat, badge: nat, p: Parcel)
    requires WellFormed(s) && GrantStep(s, idx, src, badge).Next?
    ensures GrantStep(s, idx, src, badge).sent == Some(p) <==> Sends(s, DoGrant(idx, src, badge), p)
  {
    hide PickNext, Resumed, Delivered;
  }

  lemma GotIs(s: State, e: Event, p: Parcel)
    requires WellFormed(s) && Step(s, e).Next?
    ensures Step(s, e).got == Some(p) <==> Gets(s, e, Step(s, e).state, p)
  {
    hide Step;
    DispatchedIs(s, e);
    if Step(s, e).state.current == s.current {
      StayedGot(s, e, p);
    }
  }

  /** A task that stays on the hart gets a message only by a recv that finds one. */
  lemma StayedGot(s: State, e: Event, p: Parcel)
    requires WellFormed(s) && Step(s, e).Next? && Step(s, e).state.current == s.current
    ensures Step(s, e).got == Some(p) <==> Gets(s, e, Step(s, e).state, p)
  {
    hide PickNext, Resumed, Delivered;
  }

  function Bit(b: bool): nat {
    if b then 1 else 0
  }

  /** A step keeps the balance of a parcel, what is in transit and got against what
      was in transit and sent, if and only if it restarts no task that carries it. */
  lemma StepBalance(s: State, e: Event, s': State, p: Parcel)
    requires Coherent(s) && Takes(s, e, s')
    ensures Coherent(s')
    ensures InTransit(s', p, MAX_TASKS) + Bit(Gets(s, e, s', p)) == InTransit(s, p, MAX_TASKS) + Bit(Sends(s, e, p))
       <==> !Drops(s, e, p)
  {
    hide Step, Drops, Sends, Gets, InTransit;
    OutcomeBalance(s, e, p);
    SentIs(s, e, p);
    GotIs(s, e, p);
  }

  // ---- along runs ----

  ghost function Sent(tr: seq<State>, es: seq<Event>, p: Parcel, n: nat): nat
    requires IsRun(tr, es) && n <= |es|
  {
    if n == 0 then 0 else RunTakes(tr, es, n - 1); Sent(tr, es, p, n - 1) + Bit(Sends(tr[n - 1], es[n - 1], p))
  }

  ghost function Got(tr: seq<State>, es: seq<Event>, p: Parcel, n: nat): nat
    requires IsRun(tr, es) && n <= |es|
  {
    if n == 0 then 0 else RunTakes(tr, es, n - 1); Got(tr, es, p, n - 1) + Bit(Gets(tr[n - 1], es[n - 1], tr[n], p))
  }

  /** Along every run that restarts no task with a parcel in it (an Exited one
      carries none), everything sent on a channel has been received on it once,
      unaltered, or is still in transit; nothing else is received. */
  lemma {:induction false} MessagesConserved(tr: seq<State>, es: seq<Event>, n: nat, p: Parcel)
    requires IsRun(tr, es) && n <= |es| && Coherent(tr[0])
    requires forall i {:trigger es[i]} :: 0 <= i < n ==> !Drops(tr[i], es[i], p)
    ensures Coherent(tr[n])
    ensures InTransit(tr[n], p, MAX_TASKS) + Got(tr, es, p, n) == InTransit(tr[0], p, MAX_TASKS) + Sent(tr, es, p, n)
    decreases n
  {
    hide Step, Drops, Sends, Gets;
    if n > 0 {
      MessagesConserved(tr, es, n - 1, p);
      RunTakes(tr, es, n - 1);
      StepBalance(tr[n - 1], es[n - 1], tr[n], p);
    }
  }

  lemma ExitedCarriesNothing(s: State, e: Event, i: nat, p: Parcel)
    requires Relaunches(s, e, i) && InState(s, i, Exited)
    ensures !Drops(s, e, p)
  {
    assert forall j: nat :: Relaunches(s, e, j) ==> j == i;
  }
}
