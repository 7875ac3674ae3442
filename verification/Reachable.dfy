/** Everything together, from boot: the invariants in every reachable state. */
module Reachable {
  import opened Options
  import opened KernelTypes
  import opened Steps
  import opened Lifecycle
  import opened Matching
  import opened Conservation
  import opened Control
  import opened Receiving

  /** A task as spawn and the boot-time grants leave it. */
  predicate Spawned(t: Task) {
    && t.state == Ready && t.cont == Launch(0) && t.restarts == 0 && t.caller.None? && t.pendingGrant.None?
    && |t.caps| == CAP_SLOTS && forall k :: 0 <= k < |t.caps| ==> t.caps[k].None? || !t.caps[k].value.Reply?
  }

  predicate SpawnedTasks(tasks: seq<Option<Task>>) {
    && |tasks| == MAX_TASKS && tasks[0].Some?
    && forall i :: 0 <= i < |tasks| && tasks[i].Some? ==> Spawned(tasks[i].value)
  }

  /** enter: the first task runs. */
  function Enter(tasks: seq<Option<Task>>): State
    requires SpawnedTasks(tasks)
  {
    State(tasks[0 := Some(Resumed(tasks[0].value))], 0)
  }

  /** The invariants of a running system. */
  ghost predicate Sound(s: State, idle: nat) {
    Matched(s) && Rendezvous(s) && Coherent(s) && AllTidy(s) && OneThread(s, idle) && Caged(s)
  }

  lemma StartIsSound(tasks: seq<Option<Task>>, idle: nat)
    requires SpawnedTasks(tasks) && idle < MAX_TASKS && tasks[idle].Some?
    ensures Sound(Enter(tasks), idle)
  {
    var s := Enter(tasks);
    assert forall i: nat :: Live(s, i) ==> Live(State(tasks, 0), i) && Spawned(tasks[i].value);
    assert forall i: nat, k: nat, c: nat :: !Names(s, i, k, c);
  }

  /** What the design asks of its components: no Reply capability is delegated,
      only Exited tasks are restarted, and idle only yields. */
  ghost predicate Disciplined(s: State, e: Event, idle: nat) {
    && IdleYields(s, e, idle)
    && (forall i: nat :: Relaunches(s, e, i) ==> InState(s, i, Exited))
    && (e.DoGrant? && Live(s, s.current) ==> ReplyCaller(TaskAt(s, s.current).caps, e.srcSlot).None?)
  }

  lemma DisciplinedIsSafe(s: State, e: Event, idle: nat)
    requires Sound(s, idle) && Disciplined(s, e, idle)
    ensures !Tampers(s, e) && !Relaunches(s, e, s.current)
    ensures forall p: Parcel :: !Drops(s, e, p)
  {
    hide Coherent, Rendezvous, Caged;
    assert InState(s, s.current, Running);
    if e.DoRestart? && RestartTarget(TaskAt(s, s.current).caps, e.capIdx).Some? {
      var t := RestartTarget(TaskAt(s, s.current).caps, e.capIdx).value;
      if Relaunches(s, e, t) {
        ExitedRestartIsSafe(s, e.capIdx, t);
      }
    }
  }

  lemma SoundStep(s: State, e: Event, s': State, idle: nat)
    requires Sound(s, idle) && Disciplined(s, e, idle) && Takes(s, e, s')
    ensures Sound(s', idle)
  {
    hide Step, Matched, Rendezvous, Coherent, AllTidy, OneThread, Caged, Tampers, Drops, Disciplined;
    DisciplinedIsSafe(s, e, idle);
    MatchedStep(s, e);
    RendezvousStep(s, e, s');
    StepBalance(s, e, s', Parcel(OnEndpoint(0), Message(0, 0, 0, 0)));
    OneThreadStep(s, e, s', idle) by { DisciplinedIdle(s, e, idle); }
    CagedStep(s, e, s');
    TidyStep(s, e, s') by { DisciplinedRestarts(s, e, idle); }
  }

  lemma DisciplinedRestarts(s: State, e: Event, idle: nat)
    requires Disciplined(s, e, idle)
    ensures OnlyExited(s, e)
  {
  }

  lemma DisciplinedIdle(s: State, e: Event, idle: nat)
    requires Disciplined(s, e, idle)
    ensures IdleYields(s, e, idle)
  {
  }

  /** Every state reachable from boot by disciplined steps is sound, and a step
      from it stops the kernel only over a slot that was never set up. */
  lemma {:induction false} AlwaysSound(tasks: seq<Option<Task>>, tr: seq<State>, es: seq<Event>, n: nat, idle: nat)
    requires SpawnedTasks(tasks) && idle < MAX_TASKS && tasks[idle].Some?
    requires IsRun(tr, es) && tr[0] == Enter(tasks) && n <= |es|
    requires forall i {:trigger es[i]} :: 0 <= i < n ==> Disciplined(tr[i], es[i], idle)
    ensures Sound(tr[n], idle)
    ensures forall e: Event :: Disciplined(tr[n], e, idle) ==> (Step(tr[n], e).Panic? <==> Misconfigured(tr[n], e))
    decreases n
  {
    hide Takes, Step, Sound, Disciplined, Misconfigured;
    if n == 0 {
      StartIsSound(tasks, idle);
    } else {
      AlwaysSound(tasks, tr, es, n - 1, idle);
      RunTakes(tr, es, n - 1);
      var _ := es[n - 1];
      SoundStep(tr[n - 1], es[n - 1], tr[n], idle);
    }
    forall e: Event | Disciplined(tr[n], e, idle)
      ensures WellFormed(tr[n]) && (Step(tr[n], e).Panic? <==> Misconfigured(tr[n], e))
    {
      SoundPanics(tr[n], e, idle);
    }
  }

  lemma SoundPanics(s: State, e: Event, idle: nat)
    requires Sound(s, idle) && Disciplined(s, e, idle)
    ensures WellFormed(s) && (Step(s, e).Panic? <==> Misconfigured(s, e))
  {
    hide Step, Misconfigured;
    PanicExact(s, e, idle);
  }

  /** In every such state every task that waits for a reply is named by exactly one
      token, as long as no recv on the way has overwritten a token or had no slot for
      the one it brought. */
  lemma {:induction false} AlwaysAnswerable(tasks: seq<Option<Task>>, tr: seq<State>, es: seq<Event>, n: nat, idle: nat)
    requires SpawnedTasks(tasks) && idle < MAX_TASKS && tasks[idle].Some?
    requires IsRun(tr, es) && tr[0] == Enter(tasks) && n <= |es|
    requires forall i {:trigger es[i]} :: 0 <= i < n ==>
      Disciplined(tr[i], es[i], idle) && !Loses(tr[i], es[i], tr[i + 1])
    ensures forall c: nat :: InState(tr[n], c, AwaitingReply) ==> Named(tr[n], c)
    ensures forall i: nat, k: nat, j: nat, l: nat, c: nat ::
      Names(tr[n], i, k, c) && Names(tr[n], j, l, c) ==> i == j && k == l
    decreases n
  {
    hide Takes, Step, Disciplined, Loses, Rendezvous, OneThread, Caged, Coherent, AllTidy;
    AlwaysSound(tasks, tr, es, n, idle);
    if n == 0 {
      NoneWait(tasks);
    } else {
      AlwaysAnswerable(tasks, tr, es, n - 1, idle);
      AlwaysSound(tasks, tr, es, n - 1, idle);
      RunTakes(tr, es, n - 1);
      var _ := es[n - 1];
      DisciplinedIsSafe(tr[n - 1], es[n - 1], idle);
      AnswerableStep(tr[n - 1], es[n - 1], tr[n]);
    }
  }

  lemma NoneWait(tasks: seq<Option<Task>>)
    requires SpawnedTasks(tasks)
    ensures forall c: nat :: !InState(Enter(tasks), c, AwaitingReply)
  {
    assert forall i: nat :: Live(Enter(tasks), i) ==> Spawned(tasks[i].value);
  }
}
