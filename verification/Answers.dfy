/** What every system call answers: at once to a task that stays on the hart, and
    when it runs again to one that was parked. */
module Answers {
  import opened Options
  import opened KernelTypes
  import opened Steps
  import opened Lifecycle
  import opened Switching
  import opened Conservation

  // ---- the task that stays on the hart ----

  predicate A0(t: Task, t': Task, v: nat) {
    t' == t.(regs := t.regs.(badge := v))
  }

  /** The restart is accepted. */
  ghost predicate Restarts(s: State, e: Event)
    requires Live(s, s.current)
  {
    exists i: nat :: Relaunches(s, e, i)
  }

  /** What a step answers the current task when it stays on the hart. */
  ghost predicate Stayed(s: State, e: Event, t: Task, t': Task)
    requires Live(s, s.current)
  {
    match e
    case Yield => t' == t
    case WakeIrq(_) => t' == t
    case Exit => false
    case Crash(_) => false
    case DoSend(c, _) => A0(t, t', if HoldsEndpoint(t.caps, c) then 0 else USIZE_MAX)
    case DoCall(c, _) => !HoldsEndpoint(t.caps, c) && A0(t, t', USIZE_MAX)
    case DoGrant(c, x, _) =>
      A0(t, t', if HoldsEndpoint(t.caps, c) && x < |t.caps| && t.caps[x].Some? then 0 else USIZE_MAX)
    case DoRecv(c, slot) =>
      if !HoldsEndpoint(t.caps, c) then A0(t, t', USIZE_MAX)
      else exists si: nat :: Partner(s, e, si) && Received(s, si, slot, t, t')
    case DoReply(r, _) =>
      if r < |t.caps| && t.caps[r].Some? && t.caps[r].value.Reply?
      then var waits := InState(s, t.caps[r].value.caller, AwaitingReply);
           A0(t.(caps := t.caps[r := None]), t', if waits then 0 else USIZE_MAX)
      else A0(t, t', USIZE_MAX)
    case DoRevoke(c) =>
      A0(t, t', if HoldsEndpoint(t.caps, c) then |HoldersOf(s, t.caps[c].value.id)| else USIZE_MAX)
    case DoRestart(_) =>
      if !Restarts(s, e) then A0(t, t', USIZE_MAX)
      else if Relaunches(s, e, s.current)
        then A0(t.(cont := Launch(t.restarts + 1), restarts := t.restarts + 1, state := Ready), t', 0)
      else A0(t, t', 0)
    case WaitIrq(c) => !HoldsInterrupt(t.caps, c) && A0(t, t', USIZE_MAX)
  }

  /** The receiver with what it takes from the sender si. */
  ghost predicate Received(s: State, si: nat, slot: nat, t: Task, t': Task)
    requires Live(s, si)
  {
    var o := TaskAt(s, si);
    && t' == t.(regs := o.message, caps := t'.caps)
    && Filled(t.caps, t'.caps, slot,
              if o.pendingGrant.Some? then o.pendingGrant
              else if o.state.Blocked? && o.state.role == Call then Some(Reply(si)) else None)
  }

  /** A slot of a task's table. */
  datatype Place = Place(task: nat, slot: nat)

  predicate HeldAt(s: State, ep: nat, keep: nat, i: nat, k: nat) {
    i != keep && Live(s, i) && Holds(s.tasks[i].value.caps, k, Endpoint(ep))
  }

  /** The slots of other tasks that hold endpoint ep. */
  function HoldersOf(s: State, ep: nat): set<Place> {
    HoldersBelow(s, ep, s.current, |s.tasks|)
  }

  function HoldersBelow(s: State, ep: nat, keep: nat, n: nat): set<Place> {
    set i: nat, k: nat | i < n && k < CAP_SLOTS && HeldAt(s, ep, keep, i, k) :: Place(i, k)
  }

  // ---- counting what a revoke clears ----

  function RowOf(caps: CapTable, ep: nat, i: nat): set<Place> {
    set k: nat | k < |caps| && Holds(caps, k, Endpoint(ep)) :: Place(i, k)
  }

  lemma {:induction false} CountIs(caps: CapTable, ep: nat, i: nat)
    ensures CountEndpoint(caps, ep) == |RowOf(caps, ep, i)|
  {
    if caps == [] {
      assert RowOf(caps, ep, i) == {};
    } else {
      var n := |caps| - 1;
      CountIs(caps[..n], ep, i);
      RowMore(caps, ep, i);
    }
  }

  lemma RowMore(caps: CapTable, ep: nat, i: nat)
    requires |caps| > 0
    ensures var n := |caps| - 1;
            && Place(i, n) !in RowOf(caps[..n], ep, i)
            && RowOf(caps, ep, i)
               == RowOf(caps[..n], ep, i) + if caps[n] == Some(Endpoint(ep)) then {Place(i, n)} else {}
  {
    var n := |caps| - 1;
    assert forall k: nat :: k < n ==> (Holds(caps[..n], k, Endpoint(ep)) <==> Holds(caps, k, Endpoint(ep)));
  }

  lemma {:induction false} HeldIs(s: State, ep: nat, keep: nat, n: nat)
    requires WellFormed(s) && n <= |s.tasks|
    ensures HeldCount(s, ep, keep, n) == |HoldersBelow(s, ep, keep, n)|
  {
    hide HoldersBelow, RowOf;
    if n == 0 {
      NoHolders(s, ep, keep);
    } else {
      HeldIs(s, ep, keep, n - 1);
      HoldersMore(s, ep, keep, n - 1);
      if n - 1 != keep && s.tasks[n - 1].Some? {
        CountIs(s.tasks[n - 1].value.caps, ep, n - 1);
      }
    }
  }

  lemma NoHolders(s: State, ep: nat, keep: nat)
    ensures HoldersBelow(s, ep, keep, 0) == {}
  {
  }

  /** One task more: its row, apart from the others. */
  lemma HoldersMore(s: State, ep: nat, keep: nat, n: nat)
    requires WellFormed(s) && n < |s.tasks|
    ensures n != keep && s.tasks[n].Some? ==>
      && HoldersBelow(s, ep, keep, n + 1) == HoldersBelow(s, ep, keep, n) + RowOf(s.tasks[n].value.caps, ep, n)
      && HoldersBelow(s, ep, keep, n) !! RowOf(s.tasks[n].value.caps, ep, n)
    ensures n == keep || s.tasks[n].None? ==> HoldersBelow(s, ep, keep, n + 1) == HoldersBelow(s, ep, keep, n)
  {
  }

  // ---- the answer ----

  ghost predicate Answered(s: State, e: Event, s': State)
    requires Live(s, s.current)
  {
    s'.current == s.current ==> Live(s', s.current) && Stayed(s, e, TaskAt(s, s.current), TaskAt(s', s.current))
  }

  lemma RecvAnswers(s: State, idx: nat, slot: nat)
    requires WellFormed(s) && RecvStep(s, idx, slot).Next?
    ensures Answered(s, DoRecv(idx, slot), RecvStep(s, idx, slot).state)
  {
    hide SwitchAway, FindFrom, First;
    var ep := CapLookup(TaskAt(s, s.current).caps, idx);
    if ep.Some? {
      FindIs(s, Blocked(ep.value, Send));
      FindIs(s, Blocked(ep.value, Call));
      if Waiting(s, ep.value).None? {
        SwitchLeaves(s, Blocked(ep.value, Recv), FinishRecv(ep.value, slot), None, None);
      } else {
        var si := Waiting(s, ep.value).value;
        assert Partner(s, DoRecv(idx, slot), si);
      }
    }
  }

  lemma CallAnswers(s: State, idx: nat, m: Message)
    requires WellFormed(s) && CallStep(s, idx, m).Next?
    ensures Answered(s, DoCall(idx, m), CallStep(s, idx, m).state)
  {
    hide SwitchAway, FindFrom;
    var me := TaskAt(s, s.current);
    match CapLookup(me.caps, idx)
    case None =>
    case Some(ep) =>
      var sent := Some(Parcel(OnEndpoint(ep), m));
      match FindBlocked(s, ep, Recv) {
        case None => SwitchLeaves(Put(s, s.current, me.(message := m)), Blocked(ep, Call), ReturnMessage, None, sent);
        case Some(ri) =>
          var s1 := Put(s, ri, TaskAt(s, ri).(message := m, caller := Some(s.current), state := Ready));
          SwitchLeaves(s1, AwaitingReply, ReturnMessage, None, sent);
      }
  }

  lemma SendAnswers(s: State, idx: nat, m: Message)
    requires WellFormed(s) && SendStep(s, idx, m).Next?
    ensures Answered(s, DoSend(idx, m), SendStep(s, idx, m).state)
  {
    hide SwitchAway, FindFrom;
    var me := TaskAt(s, s.current);
    var ep := CapLookup(me.caps, idx);
    if ep.Some? && FindBlocked(s, ep.value, Recv).None? {
      SwitchLeaves(Put(s, s.current, me.(message := m)), Blocked(ep.value, Send), ReturnZero, None,
                   Some(Parcel(OnEndpoint(ep.value), m)));
    }
  }

  lemma GrantAnswers(s: State, idx: nat, src: nat, badge: nat)
    requires WellFormed(s) && GrantStep(s, idx, src, badge).Next?
    ensures Answered(s, DoGrant(idx, src, badge), GrantStep(s, idx, src, badge).state)
  {
    hide SwitchAway, FindFrom;
    var me := TaskAt(s, s.current);
    var ep, cap := CapLookup(me.caps, idx), CapAt(me.caps, src);
    if ep.Some? && cap.Some? && FindBlocked(s, ep.value, Recv).None? {
      var msg := Message(badge, 0, 0, 0);
      SwitchLeaves(Put(s, s.current, me.(message := msg, pendingGrant := cap)), Blocked(ep.value, Send), ReturnZero,
                   None, Some(Parcel(OnEndpoint(ep.value), msg)));
    }
  }

  lemma RevokeAnswers(s: State, idx: nat)
    requires WellFormed(s)
    ensures Answered(s, DoRevoke(idx), RevokeStep(s, idx).state)
  {
    hide HeldCount, HoldersBelow;
    match CapLookup(TaskAt(s, s.current).caps, idx)
    case None =>
    case Some(ep) => HeldIs(s, ep, s.current, |s.tasks|);
  }

  lemma RestartAnswers(s: State, idx: nat)
    requires WellFormed(s) && RestartStep(s, idx).Next?
    ensures Answered(s, DoRestart(idx), RestartStep(s, idx).state)
  {
    var target := RestartTarget(TaskAt(s, s.current).caps, idx);
    if target.Some? && TaskAt(s, target.value).restarts < MAX_RESTARTS {
      assert Relaunches(s, DoRestart(idx), target.value);
    }
  }

  lemma ReplyAnswers(s: State, slot: nat, m: Message)
    requires WellFormed(s) && ReplyStep(s, slot, m).Next?
    ensures Answered(s, DoReply(slot, m), ReplyStep(s, slot, m).state)
  {
  }

  lemma WaitAnswers(s: State, idx: nat)
    requires WellFormed(s) && WaitIrqStep(s, idx).Next?
    ensures Answered(s, WaitIrq(idx), WaitIrqStep(s, idx).state)
  {
    hide SwitchAway;
    var irq := InterruptIrq(TaskAt(s, s.current).caps, idx);
    if irq.Some? { SwitchLeaves(s, WaitingIrq(irq.value), ReturnZero, None, None); }
  }

  lemma YieldAnswers(s: State)
    requires WellFormed(s) && YieldStep(s).Next?
    ensures Answered(s, Yield, YieldStep(s).state)
  {
    hide SwitchAway, PickNext;
    if PickNext(s) != s.current { SwitchLeaves(s, Ready, ToUser, Some(PickNext(s)), None); }
  }

  lemma ExitAnswers(s: State)
    requires WellFormed(s) && ExitStep(s).Next?
    ensures Answered(s, Exit, ExitStep(s).state)
  {
    hide SwitchAway;
    SwitchLeaves(s, Exited, TaskAt(s, s.current).cont, None, None);
  }

  /** What a step answers at once. */
  lemma StayerIs(s: State, e: Event, s': State)
    requires Takes(s, e, s')
    ensures Answered(s, e, s')
  {
    hide CrashStep, SendStep, CallStep, GrantStep, RecvStep, ReplyStep, RestartStep, RevokeStep, WaitIrqStep, YieldStep,
      ExitStep, Answered;
    match e
    case Yield => YieldAnswers(s);
    case Exit => ExitAnswers(s);
    case Crash(q) => CrashAnswers(s, q);
    case DoSend(x, m) => SendAnswers(s, x, m);
    case DoRecv(x, r) => RecvAnswers(s, x, r);
    case DoCall(x, m) => CallAnswers(s, x, m);
    case DoReply(r, m) => ReplyAnswers(s, r, m);
    case DoGrant(x, y, b) => GrantAnswers(s, x, y, b);
    case DoRevoke(x) => RevokeAnswers(s, x);
    case DoRestart(x) => RestartAnswers(s, x);
    case WaitIrq(x) => WaitAnswers(s, x);
    case WakeIrq(i) => WakeAnswers(s, i);
  }

  lemma CrashAnswers(s: State, q: bool)
    requires WellFormed(s) && CrashStep(s, q).Next?
    ensures Answered(s, Crash(q), CrashStep(s, q).state)
  {
    hide CrashStep;
    CrashLeaves(s, q);
  }

  lemma WakeAnswers(s: State, irq: nat)
    requires WellFormed(s)
    ensures Answered(s, WakeIrq(irq), WakeIrqStep(s, irq).state)
  {
  }

  // ---- along runs ----

  /** A task that does e in s has, when it is on the hart again in s', reached from
      s1 by e1, these registers: unchanged when it was preempted, a code in a0 for
      most calls, and the message it waited for after a recv or a call. */
  ghost predicate Returns(s: State, e: Event, s1: State, e1: Event, s': State, after: Message)
    requires Live(s, s.current) && Live(s1, s1.current)
  {
    var me := TaskAt(s, s.current);
    match e
    case Yield => after == me.regs
    case WakeIrq(_) => after == me.regs
    case Exit => false
    case Crash(_) => false
    case DoSend(c, _) => after == me.regs.(badge := if HoldsEndpoint(me.caps, c) then 0 else USIZE_MAX)
    case DoGrant(c, x, _) =>
      after == me.regs.(badge :=
        if HoldsEndpoint(me.caps, c) && x < |me.caps| && me.caps[x].Some? then 0 else USIZE_MAX)
    case DoCall(c, _) =>
      if HoldsEndpoint(me.caps, c) then Gets(s1, e1, s', Parcel(BackTo(s.current), after))
      else after == me.regs.(badge := USIZE_MAX)
    case DoRecv(c, _) =>
      if HoldsEndpoint(me.caps, c) then Gets(s1, e1, s', Parcel(OnEndpoint(me.caps[c].value.id), after))
      else after == me.regs.(badge := USIZE_MAX)
    case DoReply(r, _) =>
      var answers := r < |me.caps| && me.caps[r].Some? && me.caps[r].value.Reply?
        && InState(s, me.caps[r].value.caller, AwaitingReply);
      after == me.regs.(badge := if answers then 0 else USIZE_MAX)
    case DoRevoke(c) =>
      after == me.regs.(badge :=
        if HoldsEndpoint(me.caps, c) then |HoldersOf(s, me.caps[c].value.id)| else USIZE_MAX)
    case DoRestart(_) => after == me.regs.(badge := if Restarts(s, e) then 0 else USIZE_MAX)
    case WaitIrq(c) => after == me.regs.(badge := if HoldsInterrupt(me.caps, c) then 0 else USIZE_MAX)
  }

  /** Off the hart a task's registers, its continuation and an end of it stay. */
  lemma OffHart(s: State, e: Event, s': State, t: nat)
    requires Takes(s, e, s') && Live(s, t) && t != s.current && t != s'.current && !Relaunches(s, e, t)
    ensures Live(s', t) && TaskAt(s', t).regs == TaskAt(s, t).regs && TaskAt(s', t).cont == TaskAt(s, t).cont
    ensures TaskAt(s, t).state == Exited ==> TaskAt(s', t).state == Exited
  {
    hide Step, Partner;
    OtherIs(s, e, s', t);
    if Partner(s, e, t) {
      PartnerWaits(s, e, t);
    }
  }

  /** From when it is parked until it runs again. */
  lemma {:induction false} ParkedKept(tr: seq<State>, es: seq<Event>, i: nat, k: nat, t: nat)
    requires IsRun(tr, es) && i < k <= |es| && tr[i].current == t
    requires forall n :: i < n <= k ==> tr[n].current != t
    requires forall n {:trigger es[n]} :: i <= n < k ==> !Relaunches(tr[n], es[n], t)
    ensures Live(tr[i], t) && Live(tr[k], t) && TaskAt(tr[k], t).regs == TaskAt(tr[i], t).regs
    ensures exists t': Task ::
      && Parked(tr[i], es[i], TaskAt(tr[i], t), t') && TaskAt(tr[k], t).cont == t'.cont
      && (t'.state == Exited ==> TaskAt(tr[k], t).state == Exited)
    decreases k
  {
    hide Step, Parked, Relaunches;
    RunTakes(tr, es, k - 1);
    assert tr[k].current != t;
    if k == i + 1 {
      LeaverIs(tr[i], es[i], tr[k]);
      assert Parked(tr[i], es[i], TaskAt(tr[i], t), TaskAt(tr[k], t));
      SameRegs(tr[i], es[i], TaskAt(tr[i], t), TaskAt(tr[k], t));
    } else {
      ParkedKept(tr, es, i, k - 1, t);
      assert tr[k - 1].current != t;
      var _ := es[k - 1];
      OffHart(tr[k - 1], es[k - 1], tr[k], t);
    }
  }

  lemma SameRegs(s: State, e: Event, t: Task, t': Task)
    requires Live(s, s.current) && Parked(s, e, t, t')
    ensures t'.regs == t.regs
  {
  }

  /** What each system call returns, however long it takes: the task that does es[i]
      and next runs in tr[j], without being relaunched, finds this in its registers. */
  lemma CallsReturn(tr: seq<State>, es: seq<Event>, i: nat, j: nat, t: nat)
    requires IsRun(tr, es) && i < j <= |es| && tr[i].current == t == tr[j].current
    requires forall n :: i < n < j ==> tr[n].current != t
    requires forall n {:trigger es[n]} :: i <= n < j ==> !Relaunches(tr[n], es[n], t)
    ensures Live(tr[i], t) && Live(tr[j - 1], tr[j - 1].current) && Live(tr[j], t)
    ensures Returns(tr[i], es[i], tr[j - 1], es[j - 1], tr[j], TaskAt(tr[j], t).regs)
  {
    hide Step, Relaunches, Parked, Returns;
    RunTakes(tr, es, i);
    RunTakes(tr, es, j - 1);
    if j == i + 1 {
      var _ := es[i];
      AnswersAtOnce(tr[i], es[i], tr[j]);
    } else {
      ParkedKept(tr, es, i, j - 1, t);
      var t': Task :| Parked(tr[i], es[i], TaskAt(tr[i], t), t') && TaskAt(tr[j - 1], t).cont == t'.cont
        && (t'.state == Exited ==> TaskAt(tr[j - 1], t).state == Exited);
      assert tr[j - 1].current != t;
      RunsAgain(tr[i], es[i], tr[j - 1], es[j - 1], tr[j], t');
    }
  }

  lemma AnswersAtOnce(s: State, e: Event, s': State)
    requires Takes(s, e, s') && s'.current == s.current && !Relaunches(s, e, s.current)
    ensures Live(s', s.current) && Returns(s, e, s, e, s', TaskAt(s', s.current).regs)
  {
    hide Step, Relaunches, Partner, HoldersOf, Filled, Restarts;
    StayerIs(s, e, s');
    StayGets(s, e, s');
  }

  lemma StayGets(s: State, e: Event, s': State)
    requires Takes(s, e, s') && s'.current == s.current
    ensures Live(s', s'.current)
    ensures e.DoRecv? && HoldsEndpoint(TaskAt(s, s.current).caps, e.capIdx) ==>
      Gets(s, e, s', Parcel(OnEndpoint(TaskAt(s, s.current).caps[e.capIdx].value.id), TaskAt(s', s.current).regs))
  {
    hide Step;
  }

  lemma RunsAgain(s: State, e: Event, s1: State, e1: Event, s': State, t': Task)
    requires Live(s, s.current) && Takes(s1, e1, s') && s'.current == s.current != s1.current && Live(s1, s.current)
    requires Parked(s, e, TaskAt(s, s.current), t') && TaskAt(s1, s.current).cont == t'.cont
    requires TaskAt(s1, s.current).regs == TaskAt(s, s.current).regs
    requires t'.state == Exited ==> TaskAt(s1, s.current).state == Exited
    ensures Live(s', s.current) && Returns(s, e, s1, e1, s', TaskAt(s', s.current).regs)
  {
    hide Step, HoldersOf, Filled, Restarts, NoneIn;
    RunnerIs(s1, e1, s');
    Changes(s1, e1, s', s.current);
  }
}
