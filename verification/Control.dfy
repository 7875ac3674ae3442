/** One kernel thread of control, bounded waiting, and the restart cage. */
module Control {
  import opened Options
  import opened KernelTypes
  import opened Steps
  import opened Lifecycle

  // ---- round robin ----

  /** How far slot t lies after slot c, going round. */
  function Offset(c: nat, t: nat): nat
    requires c < MAX_TASKS && t < MAX_TASKS
  {
    if c <= t then t - c else t + MAX_TASKS - c
  }

  lemma {:induction false} ScanFinds(s: State, o: nat, t: nat)
    requires |s.tasks| == MAX_TASKS && s.current < MAX_TASKS && 1 <= o <= Offset'(s, t)
    requires t < MAX_TASKS && t != s.current && InState(s, t, Ready)
    ensures ScanReady(s, o) != s.current
    ensures Offset(s.current, ScanReady(s, o)) <= Offset(s.current, t)
    decreases MAX_TASKS - o
  {
    if !InState(s, (s.current + o) % MAX_TASKS, Ready) {
      assert o != Offset(s.current, t);
      ScanFinds(s, o + 1, t);
    }
  }

  ghost function Offset'(s: State, t: nat): nat {
    if s.current < MAX_TASKS && t < MAX_TASKS then Offset(s.current, t) else 0
  }

  /** A Ready task is passed over only for one that comes earlier in the round,
      and then it is strictly closer to the hart. */
  lemma PickAdvances(s: State, t: nat)
    requires |s.tasks| == MAX_TASKS && s.current < MAX_TASKS
    requires t < MAX_TASKS && t != s.current && InState(s, t, Ready)
    ensures PickNext(s) != s.current
    ensures PickNext(s) != t ==> Offset(PickNext(s), t) < Offset(s.current, t)
  {
    ScanFinds(s, 1, t);
  }

  // ---- one thread of control ----

  /** Exactly the current slot is Running, and idle is Ready or current. */
  ghost predicate OneThread(s: State, idle: nat) {
    && WellFormed(s)
    && (forall i: nat :: InState(s, i, Running) <==> i == s.current)
    && (s.current == idle || InState(s, idle, Ready))
  }

  /** Idle is kernel code that only gives up the hart; interrupts may arrive. */
  predicate IdleYields(s: State, e: Event, idle: nat) {
    s.current == idle ==> e.Yield? || e.WakeIrq?
  }

  lemma SwitchFinds(s: State, st: TaskState, k: Continuation, sent: Option<Parcel>, idle: nat)
    requires WellFormed(s) && idle != s.current && InState(s, idle, Ready)
    ensures SwitchAway(s, st, k, None, sent).Next?
  {
    PickAdvances(Put(s, s.current, TaskAt(s, s.current).(state := st, cont := k)), idle);
  }

  /** The step names a slot that was never set up for it: a restart of an empty
      slot or of a kernel task, or a reply to no task slot at all. */
  ghost predicate Misconfigured(s: State, e: Event) {
    && Live(s, s.current)
    && var caps := TaskAt(s, s.current).caps;
       match e
       case DoRestart(x) =>
         && RestartTarget(caps, x).Some?
         && var t := RestartTarget(caps, x).value;
            !Live(s, t) || (TaskAt(s, t).restarts < MAX_RESTARTS && !TaskAt(s, t).restartable)
       case DoReply(x, _) => ReplyCaller(caps, x).Some? && ReplyCaller(caps, x).value >= MAX_TASKS
       case _ => false
  }

  lemma SendGoes(s: State, idx: nat, m: Message, idle: nat)
    requires WellFormed(s) && idle != s.current && InState(s, idle, Ready)
    ensures SendStep(s, idx, m).Next?
  {
    hide SwitchAway;
    var t := TaskAt(s, s.current);
    var ep := CapLookup(t.caps, idx);
    if ep.Some? && FindBlocked(s, ep.value, Recv).None? {
      SwitchFinds(Put(s, s.current, t.(message := m)), Blocked(ep.value, Send), ReturnZero,
                  Some(Parcel(OnEndpoint(ep.value), m)), idle);
    }
  }

  lemma RecvGoes(s: State, idx: nat, slot: nat, idle: nat)
    requires WellFormed(s) && idle != s.current && InState(s, idle, Ready)
    ensures RecvStep(s, idx, slot).Next?
  {
    hide SwitchAway;
    var ep := CapLookup(TaskAt(s, s.current).caps, idx);
    if ep.Some? && Waiting(s, ep.value).None? {
      SwitchFinds(s, Blocked(ep.value, Recv), FinishRecv(ep.value, slot), None, idle);
    }
  }

  lemma CallGoes(s: State, idx: nat, m: Message, idle: nat)
    requires WellFormed(s) && idle != s.current && InState(s, idle, Ready)
    ensures CallStep(s, idx, m).Next?
  {
    hide SwitchAway;
    var t := TaskAt(s, s.current);
    match CapLookup(t.caps, idx)
    case None =>
    case Some(ep) =>
      var sent := Some(Parcel(OnEndpoint(ep), m));
      match FindBlocked(s, ep, Recv) {
        case None => SwitchFinds(Put(s, s.current, t.(message := m)), Blocked(ep, Call), ReturnMessage, sent, idle);
        case Some(ri) =>
          var s1 := Put(s, ri, TaskAt(s, ri).(message := m, caller := Some(s.current), state := Ready));
          SwitchFinds(s1, AwaitingReply, ReturnMessage, sent, idle);
      }
  }

  lemma GrantGoes(s: State, idx: nat, src: nat, badge: nat, idle: nat)
    requires WellFormed(s) && idle != s.current && InState(s, idle, Ready)
    ensures GrantStep(s, idx, src, badge).Next?
  {
    hide SwitchAway;
    var t := TaskAt(s, s.current);
    var ep, cap := CapLookup(t.caps, idx), CapAt(t.caps, src);
    if ep.Some? && cap.Some? && FindBlocked(s, ep.value, Recv).None? {
      var msg := Message(badge, 0, 0, 0);
      SwitchFinds(Put(s, s.current, t.(message := msg, pendingGrant := cap)), Blocked(ep.value, Send), ReturnZero,
                  Some(Parcel(OnEndpoint(ep.value), msg)), idle);
    }
  }

  /** A crash always finds a successor: the healer it woke, or a Ready task. */
  lemma CrashGoes(s: State, q: bool, idle: nat)
    requires WellFormed(s) && idle != s.current && InState(s, idle, Ready)
    ensures CrashStep(s, q).Next?
  {
    if HealerFor(s, q).None? {
      SwitchFinds(s, Exited, TaskAt(s, s.current).cont, None, idle);
    }
  }

  /** The successor asserts of exit and park never fire: with one thread of
      control, a step stops the kernel exactly when it is misconfigured. */
  lemma PanicExact(s: State, e: Event, idle: nat)
    requires OneThread(s, idle) && IdleYields(s, e, idle)
    ensures Step(s, e).Panic? <==> Misconfigured(s, e)
  {
    hide SendStep, RecvStep, CallStep, GrantStep, CrashStep;
    var me := TaskAt(s, s.current);
    match e
    case Exit => SwitchFinds(s, Exited, me.cont, None, idle);
    case Crash(q) => CrashGoes(s, q, idle);
    case DoSend(x, m) => SendGoes(s, x, m, idle);
    case DoRecv(x, r) => RecvGoes(s, x, r, idle);
    case DoCall(x, m) => CallGoes(s, x, m, idle);
    case DoGrant(x, y, b) => GrantGoes(s, x, y, b, idle);
    case WaitIrq(x) =>
      if InterruptIrq(me.caps, x).Some? {
        SwitchFinds(s, WaitingIrq(InterruptIrq(me.caps, x).value), ReturnZero, None, idle);
      }
    case _ =>
  }

  /** A step keeps the one thread of control, unless the running task has
      relaunched itself; then it does not. */
  lemma OneThreadStep(s: State, e: Event, s': State, idle: nat)
    requires OneThread(s, idle) && IdleYields(s, e, idle) && Takes(s, e, s')
    ensures OneThread(s', idle) <==> !Relaunches(s, e, s.current)
  {
    hide Step;
    assert WellFormed(s') by { StepKeepsShape(s, e, s'); }
    Changes(s, e, s', s.current);
    Changes(s, e, s', s'.current);
    if !Relaunches(s, e, s.current) {
      forall i: nat
        ensures InState(s', i, Running) <==> i == s'.current
      {
        assert InState(s, i, Running) <==> i == s.current;
        if Live(s, i) { Changes(s, e, s', i); }
      }
      assert InState(s, idle, Running) <==> idle == s.current;
      if Live(s, idle) { Changes(s, e, s', idle); }
    } else {
      assert !InState(s', s'.current, Running);
    }
  }

  lemma StepKeepsShape(s: State, e: Event, s': State)
    requires Takes(s, e, s')
    ensures WellFormed(s')
  {
  }

  /** Along every run in which idle only yields and no task restarts itself
      (as when only Exited tasks are restarted), there is one thread of control,
      and no step of it can stop the kernel for want of a successor. */
  lemma {:induction false} OneThreadRun(tr: seq<State>, es: seq<Event>, n: nat, idle: nat)
    requires IsRun(tr, es) && n <= |es| && OneThread(tr[0], idle)
    requires forall i {:trigger es[i]} :: 0 <= i < n ==>
      IdleYields(tr[i], es[i], idle) && !Relaunches(tr[i], es[i], tr[i].current)
    ensures OneThread(tr[n], idle)
    ensures forall e: Event :: IdleYields(tr[n], e, idle) ==> (Step(tr[n], e).Panic? <==> Misconfigured(tr[n], e))
    decreases n
  {
    hide Takes, Step;
    if n > 0 {
      OneThreadRun(tr, es, n - 1, idle);
      RunTakes(tr, es, n - 1);
      var _ := es[n - 1];
      OneThreadStep(tr[n - 1], es[n - 1], tr[n], idle);
    }
    forall e: Event | IdleYields(tr[n], e, idle)
      ensures Step(tr[n], e).Panic? <==> Misconfigured(tr[n], e)
    {
      PanicExact(tr[n], e, idle);
    }
  }

  // ---- bounded waiting ----

  /** A crash that runs the healer next, out of turn. */
  predicate HandsOff(s: State, e: Event)
    requires WellFormed(s)
  {
    e.Crash? && HealerFor(s, e.quarantined).Some?
  }

  /** A switch to the picked successor brings every Ready task it passes over
      closer. */
  lemma SwitchAdvances(s: State, st: TaskState, k: Continuation, sent: Option<Parcel>, t: nat)
    requires WellFormed(s) && SwitchAway(s, st, k, None, sent).Next?
    requires t != s.current && InState(s, t, Ready)
    ensures var n := SwitchAway(s, st, k, None, sent).state.current;
            n < MAX_TASKS && n != s.current && (n != t ==> Offset(n, t) < Offset(s.current, t))
  {
    PickAdvances(Put(s, s.current, TaskAt(s, s.current).(state := st, cont := k)), t);
  }

  ghost predicate Closer(s: State, s': State, t: nat)
    requires s.current < MAX_TASKS && s'.current < MAX_TASKS && t < MAX_TASKS
  {
    s'.current != s.current && s'.current != t ==> Offset(s'.current, t) < Offset(s.current, t)
  }

  lemma CallAdvances(s: State, idx: nat, m: Message, t: nat)
    requires WellFormed(s) && CallStep(s, idx, m).Next? && t != s.current && InState(s, t, Ready)
    ensures Closer(s, CallStep(s, idx, m).state, t)
  {
    hide SwitchAway;
    var me := TaskAt(s, s.current);
    match CapLookup(me.caps, idx)
    case None =>
    case Some(ep) =>
      var sent := Some(Parcel(OnEndpoint(ep), m));
      match FindBlocked(s, ep, Recv) {
        case None => SwitchAdvances(Put(s, s.current, me.(message := m)), Blocked(ep, Call), ReturnMessage, sent, t);
        case Some(ri) =>
          var s1 := Put(s, ri, TaskAt(s, ri).(message := m, caller := Some(s.current), state := Ready));
          SwitchAdvances(s1, AwaitingReply, ReturnMessage, sent, t);
      }
  }

  lemma GrantAdvances(s: State, idx: nat, src: nat, badge: nat, t: nat)
    requires WellFormed(s) && GrantStep(s, idx, src, badge).Next? && t != s.current && InState(s, t, Ready)
    ensures Closer(s, GrantStep(s, idx, src, badge).state, t)
  {
    hide SwitchAway;
    var me := TaskAt(s, s.current);
    var ep, cap := CapLookup(me.caps, idx), CapAt(me.caps, src);
    if ep.Some? && cap.Some? && FindBlocked(s, ep.value, Recv).None? {
      var msg := Message(badge, 0, 0, 0);
      SwitchAdvances(Put(s, s.current, me.(message := msg, pendingGrant := cap)), Blocked(ep.value, Send), ReturnZero,
                     Some(Parcel(OnEndpoint(ep.value), msg)), t);
    }
  }

  lemma SendAdvances(s: State, idx: nat, m: Message, t: nat)
    requires WellFormed(s) && SendStep(s, idx, m).Next? && t != s.current && InState(s, t, Ready)
    ensures Closer(s, SendStep(s, idx, m).state, t)
  {
    hide SwitchAway;
    var me := TaskAt(s, s.current);
    var ep := CapLookup(me.caps, idx);
    if ep.Some? && FindBlocked(s, ep.value, Recv).None? {
      SwitchAdvances(Put(s, s.current, me.(message := m)), Blocked(ep.value, Send), ReturnZero,
                     Some(Parcel(OnEndpoint(ep.value), m)), t);
    }
  }

  /** Every step that is not a hand-off to the healer either keeps the hart
      where it is or brings a waiting Ready task strictly closer to it. */
  lemma StepAdvances(s: State, e: Event, s': State, t: nat)
    requires Takes(s, e, s') && !HandsOff(s, e) && t != s.current && InState(s, t, Ready)
    ensures s'.current < MAX_TASKS && Closer(s, s', t)
  {
    hide SwitchAway, SendStep, CallStep, GrantStep;
    var me := TaskAt(s, s.current);
    match e
    case Yield =>
      if PickNext(s) != s.current {
        PickAdvances(s, t);
        SwitchStates(s, Ready, ToUser, Some(PickNext(s)), None, s.current);
      }
    case Exit => SwitchAdvances(s, Exited, me.cont, None, t);
    case Crash(q) => SwitchAdvances(s, Exited, me.cont, None, t);
    case DoSend(x, m) => SendAdvances(s, x, m, t);
    case DoRecv(x, r) =>
      var ep := CapLookup(me.caps, x);
      if ep.Some? && Waiting(s, ep.value).None? {
        SwitchAdvances(s, Blocked(ep.value, Recv), FinishRecv(ep.value, r), None, t);
      }
    case DoCall(x, m) => CallAdvances(s, x, m, t);
    case DoGrant(x, y, b) => GrantAdvances(s, x, y, b, t);
    case WaitIrq(x) =>
      if InterruptIrq(me.caps, x).Some? {
        SwitchAdvances(s, WaitingIrq(InterruptIrq(me.caps, x).value), ReturnZero, None, t);
      }
    case _ =>
  }

  /** Dispatches among the first n steps of a run, hand-offs aside. */
  ghost function Dispatches(tr: seq<State>, es: seq<Event>, n: nat): nat
    requires n <= |es| < |tr|
  {
    if n == 0 then 0
    else
      var moved := tr[n].current != tr[n - 1].current && !IsHandOff(tr[n - 1], es[n - 1]);
      Dispatches(tr, es, n - 1) + if moved then 1 else 0
  }

  ghost predicate IsHandOff(s: State, e: Event) {
    WellFormed(s) && HandsOff(s, e)
  }

  ghost function HandOffs(tr: seq<State>, es: seq<Event>, n: nat): nat
    requires n <= |es| < |tr|
  {
    if n == 0 then 0 else HandOffs(tr, es, n - 1) + (if IsHandOff(tr[n - 1], es[n - 1]) then 1 else 0)
  }

  /** While t waits Ready, each dispatch of another task uses up distance and
      each hand-off restores at most one round of it. */
  lemma {:induction false} WaitingBound(tr: seq<State>, es: seq<Event>, n: nat, t: nat)
    requires IsRun(tr, es) && n <= |es|
    requires forall i {:trigger tr[i]} :: 0 <= i <= n ==> InState(tr[i], t, Ready) && t != tr[i].current
    ensures t < MAX_TASKS && tr[n].current < MAX_TASKS && tr[0].current < MAX_TASKS
    ensures Offset(tr[n].current, t) + Dispatches(tr, es, n)
         <= Offset(tr[0].current, t) + (MAX_TASKS - 1) * HandOffs(tr, es, n)
    decreases n
  {
    hide Step;
    assert InState(tr[n], t, Ready);
    if n > 0 {
      WaitingBound(tr, es, n - 1, t);
      RunTakes(tr, es, n - 1);
      var s, s' := tr[n - 1], tr[n];
      StepKeepsShape(s, es[n - 1], s');
      if !HandsOff(s, es[n - 1]) { StepAdvances(s, es[n - 1], s', t); }
    }
  }

  /** A task that stays Ready while nothing is handed off sees at most
      MAX_TASKS - 2 dispatches of others; each hand-off adds at most a round. */
  lemma BoundedWaiting(tr: seq<State>, es: seq<Event>, n: nat, t: nat)
    requires IsRun(tr, es) && n <= |es|
    requires forall i {:trigger tr[i]} :: 0 <= i <= n ==> InState(tr[i], t, Ready) && t != tr[i].current
    ensures Dispatches(tr, es, n) <= MAX_TASKS - 2 + (MAX_TASKS - 1) * HandOffs(tr, es, n)
  {
    hide Takes;
    WaitingBound(tr, es, n, t);
    assert t != tr[n].current && t != tr[0].current;
  }

  // ---- the restart cage ----

  /** No task has been restarted more often than the bound. */
  ghost predicate Caged(s: State) {
    forall i: nat :: Live(s, i) ==> TaskAt(s, i).restarts <= MAX_RESTARTS
  }

  lemma CagedStep(s: State, e: Event, s': State)
    requires Takes(s, e, s') && Caged(s)
    ensures Caged(s')
  {
    hide Step;
    forall i: nat | Live(s', i)
      ensures TaskAt(s', i).restarts <= MAX_RESTARTS
    {
      Changes(s, e, s', s.current);
      assert Live(s, i);
      Changes(s, e, s', i);
    }
  }

  /** The generations task i is relaunched with during the first n steps. */
  ghost function Generations(tr: seq<State>, es: seq<Event>, n: nat, i: nat): seq<nat>
    requires n <= |es| < |tr|
  {
    if n == 0 then []
    else Generations(tr, es, n - 1, i) +
         (if Relaunches(tr[n - 1], es[n - 1], i) && Live(tr[n], i) && TaskAt(tr[n], i).cont.Launch?
          then [TaskAt(tr[n], i).cont.generation] else [])
  }

  /** Whatever the healer does, a run relaunches a task with consecutive
      generations from where it stood, one per restart counted, and the bound
      holds in every state: at most MAX_RESTARTS relaunches in all. */
  lemma {:induction false} RestartCage(tr: seq<State>, es: seq<Event>, n: nat, i: nat)
    requires IsRun(tr, es) && n <= |es| && Caged(tr[0]) && Live(tr[0], i)
    ensures Caged(tr[n]) && Live(tr[n], i)
    ensures |Generations(tr, es, n, i)| == TaskAt(tr[n], i).restarts - TaskAt(tr[0], i).restarts <= MAX_RESTARTS
    ensures forall k :: 0 <= k < |Generations(tr, es, n, i)| ==>
      Generations(tr, es, n, i)[k] == TaskAt(tr[0], i).restarts + 1 + k
    decreases n
  {
    hide Step;
    if n > 0 {
      RestartCage(tr, es, n - 1, i);
      RunTakes(tr, es, n - 1);
      CagedStep(tr[n - 1], es[n - 1], tr[n]);
      Changes(tr[n - 1], es[n - 1], tr[n], i);
    }
  }

  /** Task i, dispatched by the step, launches with its generation in a0. */
  ghost predicate Receives(s: State, o: Outcome, i: nat) {
    o.Next? && Live(s, i) && i != s.current && i == o.state.current && TaskAt(s, i).cont.Launch? ==>
      Live(o.state, i) && TaskAt(o.state, i).regs.badge == TaskAt(s, i).cont.generation
  }

  lemma SwitchReceives(s: State, st: TaskState, k: Continuation, prefer: Option<nat>, sent: Option<Parcel>, i: nat)
    requires WellFormed(s) && (prefer.Some? ==> Live(s, prefer.value))
    ensures Receives(s, SwitchAway(s, st, k, prefer, sent), i)
  {
  }

  lemma CrashReceives(s: State, q: bool, i: nat)
    requires WellFormed(s)
    ensures Receives(s, CrashStep(s, q), i)
  {
    hide SwitchAway;
    var k := TaskAt(s, s.current).cont;
    match HealerFor(s, q)
    case None => SwitchReceives(s, Exited, k, None, None, i);
    case Some(h) =>
      var msg := Message(TaskAt(s, s.current).crashBadge, 0, 0, 0);
      var s1 := Put(s, h, TaskAt(s, h).(message := msg, state := Ready));
      SwitchReceives(s1, Exited, k, Some(h), Some(Parcel(OnEndpoint(CRASH_EP), msg)), i);
  }

  lemma SendReceives(s: State, idx: nat, m: Message, i: nat)
    requires WellFormed(s)
    ensures Receives(s, SendStep(s, idx, m), i)
  {
    hide SwitchAway;
    var t := TaskAt(s, s.current);
    var ep := CapLookup(t.caps, idx);
    if ep.Some? && FindBlocked(s, ep.value, Recv).None? {
      SwitchReceives(Put(s, s.current, t.(message := m)), Blocked(ep.value, Send), ReturnZero, None,
                     Some(Parcel(OnEndpoint(ep.value), m)), i);
    }
  }

  lemma RecvReceives(s: State, idx: nat, slot: nat, i: nat)
    requires WellFormed(s)
    ensures Receives(s, RecvStep(s, idx, slot), i)
  {
    hide SwitchAway;
    var ep := CapLookup(TaskAt(s, s.current).caps, idx);
    if ep.Some? && Waiting(s, ep.value).None? {
      SwitchReceives(s, Blocked(ep.value, Recv), FinishRecv(ep.value, slot), None, None, i);
    }
  }

  lemma CallReceives(s: State, idx: nat, m: Message, i: nat)
    requires WellFormed(s)
    ensures Receives(s, CallStep(s, idx, m), i)
  {
    hide SwitchAway;
    var t := TaskAt(s, s.current);
    match CapLookup(t.caps, idx)
    case None =>
    case Some(ep) =>
      var sent := Some(Parcel(OnEndpoint(ep), m));
      match FindBlocked(s, ep, Recv) {
        case None =>
          SwitchReceives(Put(s, s.current, t.(message := m)), Blocked(ep, Call), ReturnMessage, None, sent, i);
        case Some(ri) =>
          SwitchReceives(Put(s, ri, TaskAt(s, ri).(message := m, caller := Some(s.current), state := Ready)),
                         AwaitingReply, ReturnMessage, None, sent, i);
      }
  }

  lemma GrantReceives(s: State, idx: nat, src: nat, badge: nat, i: nat)
    requires WellFormed(s)
    ensures Receives(s, GrantStep(s, idx, src, badge), i)
  {
    hide SwitchAway;
    var t := TaskAt(s, s.current);
    var ep, cap := CapLookup(t.caps, idx), CapAt(t.caps, src);
    if ep.Some? && cap.Some? && FindBlocked(s, ep.value, Recv).None? {
      var msg := Message(badge, 0, 0, 0);
      SwitchReceives(Put(s, s.current, t.(message := msg, pendingGrant := cap)), Blocked(ep.value, Send), ReturnZero,
        None, Some(Parcel(OnEndpoint(ep.value), msg)), i);
    }
  }

  /** A launched task finds its generation in a0, whatever step dispatches it: so
      the launches of the cage receive 1, 2 and so on, and the first one 0. */
  lemma LaunchReceives(s: State, e: Event, i: nat)
    requires WellFormed(s)
    ensures Receives(s, Step(s, e), i)
  {
    hide SwitchAway, CrashStep, SendStep, CallStep, GrantStep, RecvStep;
    var me := TaskAt(s, s.current);
    match e
    case Yield =>
      if PickNext(s) != s.current { SwitchReceives(s, Ready, ToUser, Some(PickNext(s)), None, i); }
    case Exit => SwitchReceives(s, Exited, me.cont, None, None, i);
    case Crash(q) => CrashReceives(s, q, i);
    case DoSend(x, m) => SendReceives(s, x, m, i);
    case DoRecv(x, r) => RecvReceives(s, x, r, i);
    case DoCall(x, m) => CallReceives(s, x, m, i);
    case DoGrant(x, y, b) => GrantReceives(s, x, y, b, i);
    case WaitIrq(x) =>
      if InterruptIrq(me.caps, x).Some? {
        SwitchReceives(s, WaitingIrq(InterruptIrq(me.caps, x).value), ReturnZero, None, None, i);
      }
    case _ =>
  }

  // ---- the number of hand-offs ----

  /** Exits task slot i can still make: its remaining relaunches, and the
      present life if it has one. */
  function Lives(o: Option<Task>): nat {
    match o
    case None => 0
    case Some(t) =>
      (if t.restarts < MAX_RESTARTS then MAX_RESTARTS - t.restarts else 0) + (if t.state == Exited then 0 else 1)
  }

  function LivesUpTo(s: State, n: nat): nat
    requires n <= |s.tasks|
  {
    if n == 0 then 0 else LivesUpTo(s, n - 1) + Lives(s.tasks[n - 1])
  }

  lemma {:induction false} LivesShrink(s: State, s': State, n: nat, x: nat)
    requires n <= |s.tasks| == |s'.tasks|
    requires forall i :: 0 <= i < n ==> Lives(s'.tasks[i]) <= Lives(s.tasks[i])
    ensures LivesUpTo(s', n) <= LivesUpTo(s, n)
    ensures x < n && Lives(s'.tasks[x]) < Lives(s.tasks[x]) ==> LivesUpTo(s', n) < LivesUpTo(s, n)
    decreases n
  {
    if n > 0 { LivesShrink(s, s', n - 1, x); }
  }

  lemma {:induction false} LivesBound(s: State, n: nat)
    requires n <= |s.tasks|
    ensures LivesUpTo(s, n) <= n * (MAX_RESTARTS + 1)
    decreases n
  {
    if n > 0 { LivesBound(s, n - 1); }
  }

  lemma LivesStep(s: State, e: Event, s': State)
    requires Takes(s, e, s') && Caged(s)
    ensures |s'.tasks| == |s.tasks|
    ensures LivesUpTo(s', |s'.tasks|) + (if e.Exit? || e.Crash? then 1 else 0) <= LivesUpTo(s, |s.tasks|)
  {
    hide Step;
    Changes(s, e, s', s.current);
    forall i | 0 <= i < |s.tasks|
      ensures Lives(s'.tasks[i]) <= Lives(s.tasks[i])
    {
      if Live(s, i) { Changes(s, e, s', i); } else { assert !Live(s', i); }
    }
    LivesShrink(s, s', |s.tasks|, s.current);
  }

  /** A whole run hands the hart to the healer at most
      MAX_TASKS * (MAX_RESTARTS + 1) times. */
  lemma {:induction false} HandOffBound(tr: seq<State>, es: seq<Event>, n: nat)
    requires IsRun(tr, es) && n <= |es| && Caged(tr[0])
    ensures Caged(tr[n]) && |tr[n].tasks| == MAX_TASKS
    ensures HandOffs(tr, es, n) + LivesUpTo(tr[n], MAX_TASKS) <= MAX_TASKS * (MAX_RESTARTS + 1)
    decreases n
  {
    hide Step;
    if n == 0 {
      LivesBound(tr[0], MAX_TASKS);
    } else {
      HandOffBound(tr, es, n - 1);
      RunTakes(tr, es, n - 1);
      CagedStep(tr[n - 1], es[n - 1], tr[n]);
      LivesStep(tr[n - 1], es[n - 1], tr[n]);
    }
  }

  /** No starvation: in any run, however the healer is woken, a task that stays
      Ready sees a bounded number of dispatches of others. */
  lemma NoStarvation(tr: seq<State>, es: seq<Event>, n: nat, t: nat)
    requires IsRun(tr, es) && n <= |es| && Caged(tr[0])
    requires forall i {:trigger tr[i]} :: 0 <= i <= n ==> InState(tr[i], t, Ready) && t != tr[i].current
    ensures Dispatches(tr, es, n) <= MAX_TASKS - 2 + (MAX_TASKS - 1) * MAX_TASKS * (MAX_RESTARTS + 1)
  {
    hide Takes, Caged;
    BoundedWaiting(tr, es, n, t);
    HandOffBound(tr, es, n);
  }
}
