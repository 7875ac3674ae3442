/** Runs from boot that reach states in which a condition of the run theorems
    fails, and with it the property: the conditions cannot be dropped. */
module Witnesses {
  import opened Options
  import opened KernelTypes
  import opened Steps
  import opened Lifecycle
  import opened Matching
  import opened Confinement
  import opened Conservation
  import opened Control
  import opened Reachable

  const NOTHING := Message(0, 0, 0, 0)
  const HELLO := Message(7, 1, 2, 3)

  function Plain(st: TaskState, caps: CapTable, k: Continuation): Task {
    Task(st, caps, NOTHING, NOTHING, k, true, 0, 0, None, None)
  }

  /** Three tasks in slots 0, 1 and 2, one of them current. */
  function Three(a: Task, b: Task, c: Task, current: nat): (s: State)
    ensures |s.tasks| == MAX_TASKS && s.current == current
    ensures s.tasks[0] == Some(a) && s.tasks[1] == Some(b) && s.tasks[2] == Some(c)
    ensures forall i :: 3 <= i < MAX_TASKS ==> s.tasks[i] == None
  {
    State(seq(MAX_TASKS, i => if i == 0 then Some(a) else if i == 1 then Some(b) else if i == 2 then Some(c) else None),
      current)
  }

  lemma ThreeIs(s: State, a: Task, b: Task, c: Task, current: nat)
    requires |s.tasks| == MAX_TASKS && s.current == current && s.tasks[0] == Some(a) && s.tasks[1] == Some(b)
    requires s.tasks[2] == Some(c)
    requires forall i :: 3 <= i < MAX_TASKS ==> s.tasks[i] == None
    ensures s == Three(a, b, c, current)
  {
    assert s.tasks == Three(a, b, c, current).tasks;
  }

  /** The only Ready task is picked next. */
  lemma PickOnly(s: State, t: nat)
    requires |s.tasks| == MAX_TASKS && s.current < MAX_TASKS && t < MAX_TASKS && t != s.current && InState(s, t, Ready)
    requires forall i: nat :: i != s.current && InState(s, i, Ready) ==> i == t
    ensures PickNext(s) == t
  {
    PickAdvances(s, t);
  }

  /** The next slot, when Ready, is picked. */
  lemma PickNeighbour(s: State)
    requires |s.tasks| == MAX_TASKS && s.current + 1 < MAX_TASKS && InState(s, s.current + 1, Ready)
    ensures PickNext(s) == s.current + 1
  {
  }

  const CAPS_A: CapTable := [Some(Endpoint(5)), None, Some(Restart(1)), Some(Restart(0))]
  const CAPS_B: CapTable := [Some(Endpoint(5)), None, None, None]
  const CAPS_C: CapTable := [Some(Restart(0)), None, None, None]

  /** Three spawned tasks; the last one also serves as idle. */
  function Boot(): (tasks: seq<Option<Task>>)
    ensures SpawnedTasks(tasks)
  {
    Three(Plain(Ready, CAPS_A, Launch(0)), Plain(Ready, CAPS_B, Launch(0)), Plain(Ready, CAPS_C, Launch(0)), 0).tasks
  }

  function S0(): State {
    Three(Plain(Running, CAPS_A, ToUser), Plain(Ready, CAPS_B, Launch(0)), Plain(Ready, CAPS_C, Launch(0)), 0)
  }

  lemma Started()
    ensures Enter(Boot()) == S0() && Sound(S0(), 2)
  {
    StartIsSound(Boot(), 2);
    var s := Enter(Boot());
    ThreeIs(s, Plain(Running, CAPS_A, ToUser), Plain(Ready, CAPS_B, Launch(0)), Plain(Ready, CAPS_C, Launch(0)), 0);
  }

  /** A switch from slot x to slot y among the three. */
  lemma Switched(a: Task, b: Task, c: Task, x: nat, y: nat, st: TaskState, k: Continuation, prefer: Option<nat>,
                 sent: Option<Parcel>)
    requires x < 3 && y < 3 && x != y && WellFormed(Three(a, b, c, x))
    requires prefer == Some(y) || prefer.None?
    requires prefer.None? ==>
      PickNext(Put(Three(a, b, c, x), x, TaskAt(Three(a, b, c, x), x).(state := st, cont := k))) == y
    ensures SwitchAway(Three(a, b, c, x), st, k, prefer, sent).Next?
    ensures SwitchAway(Three(a, b, c, x), st, k, prefer, sent).state ==
      Three(Moved(a, 0, x, y, st, k), Moved(b, 1, x, y, st, k), Moved(c, 2, x, y, st, k), y)
  {
    hide PickNext, Resumed;
    var s := SwitchAway(Three(a, b, c, x), st, k, prefer, sent).state;
    ThreeIs(s, Moved(a, 0, x, y, st, k), Moved(b, 1, x, y, st, k), Moved(c, 2, x, y, st, k), y);
  }

  /** What the switch makes of the task in slot i. */
  function Moved(t: Task, i: nat, x: nat, y: nat, st: TaskState, k: Continuation): Task {
    if i == x then t.(state := st, cont := k) else if i == y then Resumed(t) else t
  }

  // ---- a call, up to the server's receipt ----

  /** The server waits; the client runs. */
  function S1(): State {
    Three(Plain(Blocked(5, Recv), CAPS_A, FinishRecv(5, 1)), Plain(Running, CAPS_B, ToUser),
      Plain(Ready, CAPS_C, Launch(0)), 1)
  }

  lemma Step1()
    ensures Takes(S0(), DoRecv(0, 1), S1())
  {
    hide SwitchAway, ScanReady;
    var s := S0();
    assert CapLookup(TaskAt(s, 0).caps, 0) == Some(5);
    assert Waiting(s, 5).None?;
    var a, b, c := TaskAt(s, 0), TaskAt(s, 1), TaskAt(s, 2);
    var s' := Put(s, 0, a.(state := Blocked(5, Recv), cont := FinishRecv(5, 1)));
    PickNeighbour(s');
    Switched(a, b, c, 0, 1, Blocked(5, Recv), FinishRecv(5, 1), None, None);
  }

  /** The call has been delivered; the third task runs. */
  function S2(): State {
    Three(Plain(Ready, CAPS_A, FinishRecv(5, 1)).(message := HELLO, caller := Some(1)),
          Plain(AwaitingReply, CAPS_B, ReturnMessage), Plain(Running, CAPS_C, ToUser), 2)
  }

  lemma Step2()
    ensures Takes(S1(), DoCall(0, HELLO), S2())
  {
    hide SwitchAway, ScanReady;
    var s := S1();
    assert CapLookup(TaskAt(s, 1).caps, 0) == Some(5);
    assert s.tasks[0].value.state == Blocked(5, Recv);
    assert FindBlocked(s, 5, Recv) == Some(0);
    var a, b, c := TaskAt(s, 0).(message := HELLO, caller := Some(1), state := Ready), TaskAt(s, 1), TaskAt(s, 2);
    ThreeIs(Put(s, 0, a), a, b, c, 1);
    var s' := Put(Three(a, b, c, 1), 1, b.(state := AwaitingReply, cont := ReturnMessage));
    PickNeighbour(s');
    Switched(a, b, c, 1, 2, AwaitingReply, ReturnMessage, None, Some(Parcel(OnEndpoint(5), HELLO)));
  }

  /** The server has the message and the Reply capability. */
  function S3(): State {
    Three(Plain(Running, CAPS_A[1 := Some(Reply(1))], ToUser).(message := HELLO, regs := HELLO),
          Plain(AwaitingReply, CAPS_B, ReturnMessage), Plain(Ready, CAPS_C, ToUser), 0)
  }

  lemma Step3()
    ensures Takes(S2(), Yield, S3())
  {
    hide SwitchAway, ScanReady;
    var s := S2();
    assert InState(s, 0, Ready);
    PickOnly(s, 0);
    var a, b, c := TaskAt(s, 0), TaskAt(s, 1), TaskAt(s, 2);
    Switched(a, b, c, 2, 0, Ready, ToUser, Some(0), None);
    assert Install(CAPS_A, 1, Reply(1)) == CAPS_A[1 := Some(Reply(1))];
  }

  /** These steps are disciplined, so the states they reach are sound. */
  lemma CallRun()
    ensures IsRun([S0(), S1(), S2(), S3()], [DoRecv(0, 1), DoCall(0, HELLO), Yield])
    ensures Sound(S2(), 2) && Sound(S3(), 2)
  {
    hide Takes, Sound, S0, S1, S2, S3;
    Started();
    Step1(); Step2(); Step3();
    DisciplinedCall();
    SoundStep(S0(), DoRecv(0, 1), S1(), 2);
    SoundStep(S1(), DoCall(0, HELLO), S2(), 2);
    SoundStep(S2(), Yield, S3(), 2);
    var tr, es := [S0(), S1(), S2(), S3()], [DoRecv(0, 1), DoCall(0, HELLO), Yield];
    assert WellFormed(tr[0]) by { SoundShape(S0(), 2); }
    assert forall i {:trigger es[i]} :: 0 <= i < 3 ==> Takes(tr[i], es[i], tr[i + 1]);
  }

  lemma SoundShape(s: State, idle: nat)
    requires Sound(s, idle)
    ensures WellFormed(s) && Matched(s) && Coherent(s) && OneThread(s, idle)
  {
  }

  lemma DisciplinedCall()
    ensures Disciplined(S0(), DoRecv(0, 1), 2) && Disciplined(S1(), DoCall(0, HELLO), 2) && Disciplined(S2(), Yield, 2)
  {
  }

  /** Granting the Reply capability, reached by a run from boot, leaves two tokens
      for one caller. */
  lemma CopiedReply()
    ensures IsRun([S0(), S1(), S2(), S3()], [DoRecv(0, 1), DoCall(0, HELLO), Yield]) && Enter(Boot()) == S0()
    ensures Matched(S3()) && Step(S3(), DoGrant(0, 1, 0)).Next? && !Matched(Step(S3(), DoGrant(0, 1, 0)).state)
  {
    hide IsRun, Matched, S0, S1, S2, Step, Sound;
    Started();
    CallRun();
    SoundShape(S3(), 2);
    GrantsReply();
    MatchedStep(S3(), DoGrant(0, 1, 0));
  }

  lemma GrantsReply()
    ensures WellFormed(S3()) && Tampers(S3(), DoGrant(0, 1, 0)) && Step(S3(), DoGrant(0, 1, 0)).Next?
  {
    hide SwitchAway;
    var s := S3();
    assert InState(s, 2, Ready);
    GrantGoes(s, 0, 1, 0, 2);
  }

  /** Restarting the waiting caller leaves a token for a task that no longer
      waits. */
  lemma RestartedCaller()
    ensures IsRun([S0(), S1(), S2(), S3()], [DoRecv(0, 1), DoCall(0, HELLO), Yield]) && Enter(Boot()) == S0()
    ensures Matched(S3()) && Step(S3(), DoRestart(2)).Next? && !Matched(Step(S3(), DoRestart(2)).state)
  {
    hide IsRun, Matched, S0, S1, S2, Step, Sound;
    Started();
    CallRun();
    SoundShape(S3(), 2);
    RestartsCaller();
    MatchedStep(S3(), DoRestart(2));
  }

  lemma RestartsCaller()
    ensures WellFormed(S3()) && Tampers(S3(), DoRestart(2)) && Step(S3(), DoRestart(2)).Next?
  {
    assert Names(S3(), 0, 1, 1);
  }

  /** A restart of the woken server loses the message in its inbox: it neither is in
      transit nor has been got. */
  lemma LostMessage()
    ensures IsRun([S0(), S1(), S2(), S3()], [DoRecv(0, 1), DoCall(0, HELLO), Yield]) && Enter(Boot()) == S0()
    ensures Coherent(S2()) && Step(S2(), DoRestart(0)).Next?
    ensures var s', p := Step(S2(), DoRestart(0)).state, Parcel(OnEndpoint(5), HELLO);
            InTransit(s', p, MAX_TASKS) + Bit(Gets(S2(), DoRestart(0), s', p))
            != InTransit(S2(), p, MAX_TASKS) + Bit(Sends(S2(), DoRestart(0), p))
  {
    hide IsRun, Coherent, S0, S1, S2, S3, Step, Sound, InTransit, Gets, Sends, Bit, Drops;
    Started();
    CallRun();
    SoundShape(S2(), 2);
    RestartsServer();
    StepBalance(S2(), DoRestart(0), Step(S2(), DoRestart(0)).state, Parcel(OnEndpoint(5), HELLO));
  }

  lemma RestartsServer()
    ensures WellFormed(S2()) && Step(S2(), DoRestart(0)).Next?
    ensures Drops(S2(), DoRestart(0), Parcel(OnEndpoint(5), HELLO))
  {
    var s := S2();
    assert Relaunches(s, DoRestart(0), 0) && CarryAt(s, 0) == Some(Parcel(OnEndpoint(5), HELLO));
  }

  /** A running task that restarts itself is Ready and on the hart at once. */
  lemma SelfRelaunched()
    ensures Enter(Boot()) == S0() && OneThread(S0(), 2)
    ensures Step(S0(), DoRestart(3)).Next? && !OneThread(Step(S0(), DoRestart(3)).state, 2)
  {
    hide OneThread, Step, Sound;
    Started();
    SoundShape(S0(), 2);
    RestartsItself();
    OneThreadStep(S0(), DoRestart(3), Step(S0(), DoRestart(3)).state, 2);
  }

  lemma RestartsItself()
    ensures WellFormed(S0()) && Step(S0(), DoRestart(3)).Next? && Relaunches(S0(), DoRestart(3), 0)
    ensures IdleYields(S0(), DoRestart(3), 2)
  {
  }

  // ---- a delegation, revoked in flight ----

  function T1(): State {
    Three(Plain(Ready, CAPS_A, ToUser), Plain(Running, CAPS_B, ToUser), Plain(Ready, CAPS_C, Launch(0)), 1)
  }

  /** The second task waits to receive. */
  function T2(): State {
    Three(Plain(Ready, CAPS_A, ToUser), Plain(Blocked(5, Recv), CAPS_B, FinishRecv(5, 1)),
      Plain(Running, CAPS_C, ToUser), 2)
  }

  function T3(): State {
    Three(Plain(Running, CAPS_A, ToUser), Plain(Blocked(5, Recv), CAPS_B, FinishRecv(5, 1)),
      Plain(Ready, CAPS_C, ToUser), 0)
  }

  /** The first has granted it the endpoint, which is in flight. */
  function T4(): State {
    Three(Plain(Running, CAPS_A, ToUser),
          Plain(Ready, CAPS_B, FinishRecv(5, 1)).(message := Message(9, 0, 0, 0), pendingGrant := Some(Endpoint(5))),
          Plain(Ready, CAPS_C, ToUser), 0)
  }

  const NO_CAPS: CapTable := [None, None, None, None]

  /** The first has revoked it: no other table holds it. */
  function T5(): State {
    Three(Plain(Running, CAPS_A, ToUser).(regs := Message(1, 0, 0, 0)),
          Plain(Ready, NO_CAPS, FinishRecv(5, 1)).(message := Message(9, 0, 0, 0), pendingGrant := Some(Endpoint(5))),
          Plain(Ready, CAPS_C, ToUser), 0)
  }

  /** The receiver has run, and holds it again. */
  function T6(): State {
    Three(Plain(Ready, CAPS_A, ToUser).(regs := Message(1, 0, 0, 0)),
          Plain(Running, NO_CAPS[1 := Some(Endpoint(5))], ToUser).(message := Message(9, 0, 0, 0),
            regs := Message(9, 0, 0, 0)),
          Plain(Ready, CAPS_C, ToUser), 1)
  }

  lemma Delegates1()
    ensures Takes(S0(), Yield, T1())
  {
    hide SwitchAway, ScanReady;
    var s := S0();
    PickNeighbour(s);
    Switched(TaskAt(s, 0), TaskAt(s, 1), TaskAt(s, 2), 0, 1, Ready, ToUser, Some(1), None);
  }

  lemma Delegates2()
    ensures Takes(T1(), DoRecv(0, 1), T2())
  {
    hide SwitchAway, ScanReady;
    var s := T1();
    assert CapLookup(TaskAt(s, 1).caps, 0) == Some(5);
    assert Waiting(s, 5).None?;
    var a, b, c := TaskAt(s, 0), TaskAt(s, 1), TaskAt(s, 2);
    var s' := Put(s, 1, b.(state := Blocked(5, Recv), cont := FinishRecv(5, 1)));
    PickNeighbour(s');
    Switched(a, b, c, 1, 2, Blocked(5, Recv), FinishRecv(5, 1), None, None);
  }

  lemma Delegates3()
    ensures Takes(T2(), Yield, T3())
  {
    hide SwitchAway, ScanReady;
    var s := T2();
    assert InState(s, 0, Ready);
    PickOnly(s, 0);
    Switched(TaskAt(s, 0), TaskAt(s, 1), TaskAt(s, 2), 2, 0, Ready, ToUser, Some(0), None);
  }

  lemma Delegates4()
    ensures Takes(T3(), DoGrant(0, 0, 9), T4())
  {
    var s := T3();
    assert CapLookup(TaskAt(s, 0).caps, 0) == Some(5) && CapAt(TaskAt(s, 0).caps, 0) == Some(Endpoint(5));
    assert s.tasks[1].value.state == Blocked(5, Recv);
    assert FindBlocked(s, 5, Recv) == Some(1);
    var t := T4();
    ThreeIs(Step(s, DoGrant(0, 0, 9)).state, TaskAt(t, 0), TaskAt(t, 1), TaskAt(t, 2), 0);
  }

  lemma Delegates5()
    ensures Takes(T4(), DoRevoke(0), T5())
  {
    var s := T4();
    assert CapLookup(TaskAt(s, 0).caps, 0) == Some(5);
    assert Revoked(CAPS_B, 5) == NO_CAPS && Revoked(CAPS_C, 5) == CAPS_C;
    HeldOne(s, MAX_TASKS);
    var t := T5();
    ThreeIs(Step(s, DoRevoke(0)).state, TaskAt(t, 0), TaskAt(t, 1), TaskAt(t, 2), 0);
  }

  lemma {:induction false} HeldOne(s: State, n: nat)
    requires s == T4() && n <= MAX_TASKS
    ensures HeldCount(s, 5, 0, n) == if n >= 2 then 1 else 0
    decreases n
  {
    if n > 0 {
      HeldOne(s, n - 1);
      CountsB();
    }
  }

  lemma CountsB()
    ensures CountEndpoint(CAPS_B, 5) == 1 && CountEndpoint(CAPS_C, 5) == 0
  {
    CountsFirst(Endpoint(5));
    CountsFirst(Restart(0));
  }

  lemma CountsFirst(cap: Capability)
    ensures CountEndpoint([Some(cap), None, None, None], 5) == if cap == Endpoint(5) then 1 else 0
  {
    var c4: CapTable := [Some(cap), None, None, None];
    var c3, c2, c1 := c4[..3], c4[..3][..2], c4[..3][..2][..1];
    assert c1[..0] == [] && c1[0] == Some(cap);
    assert CountEndpoint(c1, 5) == if cap == Endpoint(5) then 1 else 0;
    assert CountEndpoint(c2, 5) == CountEndpoint(c1, 5);
    assert CountEndpoint(c3, 5) == CountEndpoint(c2, 5);
  }

  lemma Delegates6()
    ensures Takes(T5(), Yield, T6())
  {
    hide SwitchAway, ScanReady;
    var s := T5();
    PickNeighbour(s);
    Switched(TaskAt(s, 0), TaskAt(s, 1), TaskAt(s, 2), 0, 1, Ready, ToUser, Some(1), None);
    assert Install(NO_CAPS, 1, Endpoint(5)) == NO_CAPS[1 := Some(Endpoint(5))];
  }

  /** A run from boot in which a revoke misses a capability in flight: right after
      it no other table holds the endpoint, and the next dispatch of the receiver
      installs it. */
  lemma RevokedTooEarly()
    ensures Enter(Boot()) == S0()
    ensures IsRun([S0(), T1(), T2(), T3(), T4(), T5(), T6()],
      [Yield, DoRecv(0, 1), Yield, DoGrant(0, 0, 9), DoRevoke(0), Yield])
    ensures (forall i: nat :: InTable(T5(), i, Endpoint(5)) ==> i == 0) && InTable(T6(), 1, Endpoint(5))
  {
    hide Takes, S0, T1, T2, T3, T4, T5, T6, InTable, Sound;
    Started();
    assert WellFormed(S0()) by { SoundShape(S0(), 2); }
    Delegates1(); Delegates2(); Delegates3(); Delegates4(); Delegates5(); Delegates6();
    Held();
    var tr, es := [S0(), T1(), T2(), T3(), T4(), T5(), T6()],
      [Yield, DoRecv(0, 1), Yield, DoGrant(0, 0, 9), DoRevoke(0), Yield];
    assert forall i {:trigger es[i]} :: 0 <= i < 6 ==> Takes(tr[i], es[i], tr[i + 1]);
  }

  lemma Held()
    ensures (forall i: nat :: InTable(T5(), i, Endpoint(5)) ==> i == 0) && InTable(T6(), 1, Endpoint(5))
  {
    var t := T6();
    assert t.tasks[1].value.caps[1] == Some(Endpoint(5));
  }
}
