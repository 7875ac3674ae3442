/** One atomic step of the kernel per system call, timer tick, interrupt or
    crash. Each runs in the trap handler with interrupts off, up to and
    including the continuation of the task it switches to. */
module Steps {
  import opened Options
  import opened KernelTypes

  /** Where a message travels: over an endpoint, or back to a waiting caller. */
  datatype Channel = OnEndpoint(ep: nat) | BackTo(caller: nat)
  datatype Parcel = Parcel(channel: Channel, message: Message)

  /** A step stops the kernel (a failed assert or unwrap), or gives the next
      state, the parcel it accepted from a sender and the parcel it put into a
      receiver's registers, if any. */
  datatype Outcome = Panic | Next(state: State, sent: Option<Parcel>, got: Option<Parcel>)

  datatype Event =
    | Yield
    | Exit
    | Crash(quarantined: bool)
    | DoSend(capIdx: nat, msg: Message)
    | DoRecv(capIdx: nat, replySlot: nat)
    | DoCall(capIdx: nat, msg: Message)
    | DoReply(replySlot: nat, msg: Message)
    | DoGrant(epIdx: nat, srcSlot: nat, badge: nat)
    | DoRevoke(epIdx: nat)
    | DoRestart(capIdx: nat)
    | WaitIrq(capIdx: nat)
    | WakeIrq(irq: nat)

  // ---- scans ----

  /** First slot from i on whose task is in state want. */
  function FindFrom(tasks: seq<Option<Task>>, want: TaskState, i: nat): (r: Option<nat>)
    requires i <= |tasks|
    ensures r.Some? ==> i <= r.value < |tasks| && tasks[r.value].Some? && tasks[r.value].value.state == want
    ensures forall j :: i <= j < (if r.Some? then r.value else |tasks|) && tasks[j].Some? ==>
      tasks[j].value.state != want
    decreases |tasks| - i
  {
    if i == |tasks| then None
    else if tasks[i].Some? && tasks[i].value.state == want then Some(i)
    else FindFrom(tasks, want, i + 1)
  }

  function FindBlocked(s: State, ep: nat, role: Role): Option<nat> {
    FindFrom(s.tasks, Blocked(ep, role), 0)
  }

  /** Round robin: the first Ready slot at offset at least o after current. */
  function ScanReady(s: State, o: nat): (r: nat)
    requires |s.tasks| == MAX_TASKS && s.current < MAX_TASKS && 1 <= o <= MAX_TASKS
    ensures r < MAX_TASKS
    ensures r != s.current ==> InState(s, r, Ready)
    decreases MAX_TASKS - o
  {
    if o == MAX_TASKS then s.current
    else if InState(s, (s.current + o) % MAX_TASKS, Ready) then (s.current + o) % MAX_TASKS
    else ScanReady(s, o + 1)
  }

  function PickNext(s: State): (r: nat)
    requires |s.tasks| == MAX_TASKS && s.current < MAX_TASKS
    ensures r < MAX_TASKS
    ensures r != s.current ==> InState(s, r, Ready)
  {
    ScanReady(s, 1)
  }

  // ---- dispatch ----

  /** The task as its continuation leaves it, now Running. */
  function Resumed(t: Task): Task {
    var r := t.(state := Running, cont := ToUser);
    match t.cont
    case Launch(generation) => r.(regs := r.regs.(badge := generation))
    case ReturnZero => r.(regs := r.regs.(badge := 0))
    case ReturnMessage => r.(regs := t.message)
    case FinishRecv(_, slot) =>
      var c1 := if t.caller.Some? then Install(t.caps, slot, Reply(t.caller.value)) else t.caps;
      var c2 := if t.pendingGrant.Some? then Install(c1, slot, t.pendingGrant.value) else c1;
      r.(regs := t.message, caller := None, pendingGrant := None, caps := c2)
    case _ => r
  }

  /** The parcel the continuation of task i hands to its user code. */
  function Delivered(i: nat, t: Task): Option<Parcel> {
    match t.cont
    case ReturnMessage => Some(Parcel(BackTo(i), t.message))
    case FinishRecv(ep, _) => Some(Parcel(OnEndpoint(ep), t.message))
    case _ => None
  }

  function Dispatch(s: State, next: nat): State
    requires Live(s, next)
  {
    Put(s, next, Resumed(TaskAt(s, next))).(current := next)
  }

  /** Leave current in state st with continuation k and run the successor,
      or the preferred task if there is one. */
  function SwitchAway(s: State, st: TaskState, k: Continuation, prefer: Option<nat>, sent: Option<Parcel>): (r: Outcome)
    requires WellFormed(s)
    requires prefer.Some? ==> Live(s, prefer.value)
    ensures r.Next? ==> WellFormed(r.state)
  {
    var s1 := Put(s, s.current, TaskAt(s, s.current).(state := st, cont := k));
    var next := if prefer.Some? then prefer.value else PickNext(s1);
    if next == s.current then Panic
    else Next(Dispatch(s1, next), sent, Delivered(next, TaskAt(s1, next)))
  }

  function Park(s: State, st: TaskState, k: Continuation, sent: Option<Parcel>): (r: Outcome)
    requires WellFormed(s)
    ensures r.Next? ==> WellFormed(r.state)
  {
    SwitchAway(s, st, k, None, sent)
  }

  function Quiet(s: State): Outcome {
    Next(s, None, None)
  }

  /** Set a0 of the current task. */
  function SetA0(s: State, v: nat): State
    requires Live(s, s.current)
  {
    Put(s, s.current, TaskAt(s, s.current).(regs := TaskAt(s, s.current).regs.(badge := v)))
  }

  function Refuse(s: State): Outcome
    requires Live(s, s.current)
  {
    Quiet(SetA0(s, USIZE_MAX))
  }

  // ---- steps ----

  function YieldStep(s: State): (r: Outcome)
    requires WellFormed(s)
    ensures r.Next? ==> WellFormed(r.state)
  {
    if PickNext(s) == s.current then Quiet(s)
    else SwitchAway(s, Ready, ToUser, Some(PickNext(s)), None)
  }

  function ExitStep(s: State): (r: Outcome)
    requires WellFormed(s)
    ensures r.Next? ==> WellFormed(r.state)
  {
    SwitchAway(s, Exited, TaskAt(s, s.current).cont, None, None)
  }

  /** The slot of the healer a crash wakes, if it wakes one. */
  function HealerFor(s: State, quarantined: bool): (r: Option<nat>)
    requires WellFormed(s)
    ensures r.Some? ==> InState(s, r.value, Blocked(CRASH_EP, Recv)) && r.value != s.current
  {
    if TaskAt(s, s.current).restartable && !quarantined then FindBlocked(s, CRASH_EP, Recv) else None
  }

  function CrashStep(s: State, quarantined: bool): (r: Outcome)
    requires WellFormed(s)
    ensures r.Next? ==> WellFormed(r.state)
  {
    match HealerFor(s, quarantined)
    case None => ExitStep(s)
    case Some(h) =>
      var msg := Message(TaskAt(s, s.current).crashBadge, 0, 0, 0);
      var s1 := Put(s, h, TaskAt(s, h).(message := msg, state := Ready));
      SwitchAway(s1, Exited, TaskAt(s, s.current).cont, Some(h), Some(Parcel(OnEndpoint(CRASH_EP), msg)))
  }

  function SendStep(s: State, capIdx: nat, msg: Message): (r: Outcome)
    requires WellFormed(s)
    ensures r.Next? ==> WellFormed(r.state)
  {
    match CapLookup(TaskAt(s, s.current).caps, capIdx)
    case None => Refuse(s)
    case Some(ep) =>
      var sent := Some(Parcel(OnEndpoint(ep), msg));
      match FindBlocked(s, ep, Recv)
      case Some(ri) =>
        Next(SetA0(Put(s, ri, TaskAt(s, ri).(message := msg, state := Ready)), 0), sent, None)
      case None =>
        Park(Put(s, s.current, TaskAt(s, s.current).(message := msg)), Blocked(ep, Send), ReturnZero, sent)
  }

  /** The sender a recv on ep takes from: a waiting Send before a waiting Call. */
  function Waiting(s: State, ep: nat): (r: Option<nat>)
    ensures r.Some? ==> InState(s, r.value, Blocked(ep, Send)) || InState(s, r.value, Blocked(ep, Call))
    ensures r.None? ==> FindBlocked(s, ep, Send).None? && FindBlocked(s, ep, Call).None?
  {
    if FindBlocked(s, ep, Send).Some? then FindBlocked(s, ep, Send) else FindBlocked(s, ep, Call)
  }

  function TakeFrom(s: State, si: nat, ep: nat, replySlot: nat): (r: Outcome)
    requires WellFormed(s) && Live(s, si)
    ensures r.Next? ==> WellFormed(r.state)
  {
    var t := TaskAt(s, si);
    var isCall := t.state == Blocked(ep, Call);
    var s1 := Put(s, si, t.(pendingGrant := None, state := if isCall then AwaitingReply else Ready));
    var c := TaskAt(s1, s.current);
    var c1 := if isCall then Install(c.caps, replySlot, Reply(si)) else c.caps;
    var c2 := if t.pendingGrant.Some? then Install(c1, replySlot, t.pendingGrant.value) else c1;
    Next(Put(s1, s.current, c.(caps := c2, regs := t.message)), None, Some(Parcel(OnEndpoint(ep), t.message)))
  }

  function RecvStep(s: State, capIdx: nat, replySlot: nat): (r: Outcome)
    requires WellFormed(s)
    ensures r.Next? ==> WellFormed(r.state)
  {
    match CapLookup(TaskAt(s, s.current).caps, capIdx)
    case None => Refuse(s)
    case Some(ep) =>
      match Waiting(s, ep)
      case Some(si) => TakeFrom(s, si, ep, replySlot)
      case None => Park(s, Blocked(ep, Recv), FinishRecv(ep, replySlot), None)
  }

  function CallStep(s: State, capIdx: nat, msg: Message): (r: Outcome)
    requires WellFormed(s)
    ensures r.Next? ==> WellFormed(r.state)
  {
    match CapLookup(TaskAt(s, s.current).caps, capIdx)
    case None => Refuse(s)
    case Some(ep) =>
      var sent := Some(Parcel(OnEndpoint(ep), msg));
      match FindBlocked(s, ep, Recv)
      case Some(ri) =>
        Park(Put(s, ri, TaskAt(s, ri).(message := msg, caller := Some(s.current), state := Ready)),
             AwaitingReply, ReturnMessage, sent)
      case None =>
        Park(Put(s, s.current, TaskAt(s, s.current).(message := msg)), Blocked(ep, Call), ReturnMessage, sent)
  }

  function ReplyStep(s: State, slot: nat, msg: Message): (r: Outcome)
    requires WellFormed(s)
    ensures r.Next? ==> WellFormed(r.state)
  {
    match ReplyCaller(TaskAt(s, s.current).caps, slot)
    case None => Refuse(s)
    case Some(c) =>
      if c >= MAX_TASKS then Panic
      else
        var t := TaskAt(s, s.current);
        var s1 := Put(s, s.current, t.(caps := t.caps[slot := None]));
        if InState(s, c, AwaitingReply) then
          Next(SetA0(Put(s1, c, TaskAt(s1, c).(message := msg, state := Ready)), 0),
               Some(Parcel(BackTo(c), msg)), None)
        else
          Refuse(s1)
  }

  function GrantStep(s: State, epIdx: nat, srcSlot: nat, badge: nat): (r: Outcome)
    requires WellFormed(s)
    ensures r.Next? ==> WellFormed(r.state)
  {
    var t := TaskAt(s, s.current);
    match CapLookup(t.caps, epIdx)
    case None => Refuse(s)
    case Some(ep) =>
      match CapAt(t.caps, srcSlot)
      case None => Refuse(s)
      case Some(cap) =>
        var msg := Message(badge, 0, 0, 0);
        var sent := Some(Parcel(OnEndpoint(ep), msg));
        match FindBlocked(s, ep, Recv)
        case Some(ri) =>
          Next(SetA0(Put(s, ri, TaskAt(s, ri).(message := msg, pendingGrant := Some(cap), state := Ready)), 0),
               sent, None)
        case None =>
          Park(Put(s, s.current, t.(message := msg, pendingGrant := Some(cap))), Blocked(ep, Send), ReturnZero, sent)
  }

  /** Endpoint ep cleared from every table but that of task keep. */
  function RevokedTasks(s: State, ep: nat, keep: nat): (r: State)
    ensures r.current == s.current && |r.tasks| == |s.tasks|
    ensures forall i :: 0 <= i < |s.tasks| ==>
      r.tasks[i] == if i == keep || s.tasks[i].None? then s.tasks[i]
                    else Some(s.tasks[i].value.(caps := Revoked(s.tasks[i].value.caps, ep)))
  {
    s.(tasks := seq(|s.tasks|, i requires 0 <= i < |s.tasks| =>
      if i == keep || s.tasks[i].None? then s.tasks[i]
      else Some(s.tasks[i].value.(caps := Revoked(s.tasks[i].value.caps, ep)))))
  }

  /** How many Endpoint(ep) slots the first n tasks hold, task keep aside. */
  function HeldCount(s: State, ep: nat, keep: nat, n: nat): nat
    requires n <= |s.tasks|
  {
    if n == 0 then 0
    else HeldCount(s, ep, keep, n - 1) +
         (if n - 1 != keep && s.tasks[n - 1].Some? then CountEndpoint(s.tasks[n - 1].value.caps, ep) else 0)
  }

  function RevokeStep(s: State, epIdx: nat): (r: Outcome)
    requires WellFormed(s)
    ensures r.Next? ==> WellFormed(r.state)
  {
    match CapLookup(TaskAt(s, s.current).caps, epIdx)
    case None => Refuse(s)
    case Some(ep) => Quiet(SetA0(RevokedTasks(s, ep, s.current), HeldCount(s, ep, s.current, |s.tasks|)))
  }

  predicate CanRestart(restarts: nat, bound: nat) { restarts < bound }

  function RestartStep(s: State, capIdx: nat): (r: Outcome)
    requires WellFormed(s)
    ensures r.Next? ==> WellFormed(r.state)
  {
    match RestartTarget(TaskAt(s, s.current).caps, capIdx)
    case None => Refuse(s)
    case Some(target) =>
      if !Live(s, target) then Panic
      else
        var t := TaskAt(s, target);
        if !CanRestart(t.restarts, MAX_RESTARTS) then Refuse(s)
        else if !t.restartable then Panic
        else
          Quiet(SetA0(Put(s, target, t.(cont := Launch(t.restarts + 1),
            restarts := t.restarts + 1, state := Ready)), 0))
  }

  function WaitIrqStep(s: State, capIdx: nat): (r: Outcome)
    requires WellFormed(s)
    ensures r.Next? ==> WellFormed(r.state)
  {
    match InterruptIrq(TaskAt(s, s.current).caps, capIdx)
    case None => Refuse(s)
    case Some(irq) => Park(s, WaitingIrq(irq), ReturnZero, None)
  }

  function WakeIrqStep(s: State, irq: nat): (r: Outcome)
    requires WellFormed(s)
    ensures r.Next? ==> WellFormed(r.state)
  {
    match FindFrom(s.tasks, WaitingIrq(irq), 0)
    case None => Quiet(s)
    case Some(i) => Quiet(Put(s, i, TaskAt(s, i).(state := Ready)))
  }

  function Step(s: State, e: Event): (r: Outcome)
    requires WellFormed(s)
    ensures r.Next? ==> WellFormed(r.state)
  {
    match e
    case Yield => YieldStep(s)
    case Exit => ExitStep(s)
    case Crash(q) => CrashStep(s, q)
    case DoSend(c, m) => SendStep(s, c, m)
    case DoRecv(c, r) => RecvStep(s, c, r)
    case DoCall(c, m) => CallStep(s, c, m)
    case DoReply(r, m) => ReplyStep(s, r, m)
    case DoGrant(c, x, b) => GrantStep(s, c, x, b)
    case DoRevoke(c) => RevokeStep(s, c)
    case DoRestart(c) => RestartStep(s, c)
    case WaitIrq(c) => WaitIrqStep(s, c)
    case WakeIrq(i) => WakeIrqStep(s, i)
  }

  // ---- runs ----

  ghost predicate Takes(s: State, e: Event, s': State) {
    WellFormed(s) && Step(s, e).Next? && Step(s, e).state == s'
  }

  /** The states a run passes through, one more than its events. */
  ghost predicate IsRun(tr: seq<State>, es: seq<Event>) {
    && |tr| == |es| + 1
    && WellFormed(tr[0])
    && forall i {:trigger es[i]} :: 0 <= i < |es| ==> Takes(tr[i], es[i], tr[i + 1])
  }

  /** Step n of a run is a step. */
  lemma RunTakes(tr: seq<State>, es: seq<Event>, n: nat)
    requires IsRun(tr, es) && n < |es|
    ensures Takes(tr[n], es[n], tr[n + 1])
  {
    hide Takes;
    var _ := es[n];
  }
}
