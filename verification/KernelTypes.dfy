/** The kernel's data model: capabilities, messages, tasks and the run queue.
    A task carries, beside the fields of the kernel's own task record, the
    registers a system call returns in and the continuation that runs when the
    task is next dispatched (in the kernel, the frame parked on its stack). */
module KernelTypes {
  import opened Options

  const MAX_TASKS: nat := 27
  const CAP_SLOTS: nat := 4
  const MAX_RESTARTS: nat := 2
  const CRASH_EP: nat := 1
  const USIZE_MAX: nat := 0xFFFF_FFFF_FFFF_FFFF

  datatype Capability =
    | Endpoint(id: nat)
    | Restart(slot: nat)
    | Randomness
    | Interrupt(irq: nat)
    | Reply(caller: nat)
    | Session

  datatype Role = Send | Recv | Call

  datatype TaskState =
    | Ready
    | Running
    | Exited
    | Blocked(endpoint: nat, role: Role)
    | AwaitingReply
    | WaitingIrq(irq: nat)

  /** A register message: the badge in a0 and three data words in a1..a3. */
  datatype Message = Message(badge: nat, d0: nat, d1: nat, d2: nat)

  /** What runs when the task is switched to. */
  datatype Continuation =
    | ToUser                                     // back to where it was interrupted
    | Launch(generation: nat)                    // first run of a forged context
    | ReturnZero                                 // a woken send, grant or wait_irq: a0 = 0
    | ReturnMessage                              // a woken call: the inbox goes to the registers
    | FinishRecv(endpoint: nat, replySlot: nat)  // the second half of a blocked recv

  type CapTable = seq<Option<Capability>>

  datatype Task = Task(
    state: TaskState,
    caps: CapTable,
    message: Message,
    regs: Message,
    cont: Continuation,
    restartable: bool,
    restarts: nat,
    crashBadge: nat,
    caller: Option<nat>,
    pendingGrant: Option<Capability>)

  datatype State = State(tasks: seq<Option<Task>>, current: nat)

  /** The task in slot i exists. */
  predicate Live(s: State, i: nat) {
    i < |s.tasks| && s.tasks[i].Some?
  }

  function TaskAt(s: State, i: nat): Task
    requires Live(s, i)
  {
    s.tasks[i].value
  }

  predicate InState(s: State, i: nat, st: TaskState) {
    Live(s, i) && s.tasks[i].value.state == st
  }

  function Put(s: State, i: nat, t: Task): State
    requires i < |s.tasks|
  {
    s.(tasks := s.tasks[i := Some(t)])
  }

  /** Shape of the run queue. The task on the hart is Running, or Ready in the
      one case where it has just restarted itself. */
  ghost predicate WellFormed(s: State) {
    && |s.tasks| == MAX_TASKS
    && Live(s, s.current)
    && TaskAt(s, s.current).state in {Running, Ready}
    && forall i :: 0 <= i < |s.tasks| && s.tasks[i].Some? ==> |s.tasks[i].value.caps| == CAP_SLOTS
  }

  /** Slot idx of the table holds cap. */
  predicate Holds(caps: CapTable, idx: nat, cap: Capability) {
    idx < |caps| && caps[idx] == Some(cap)
  }

  function CapAt(caps: CapTable, idx: nat): Option<Capability> {
    if idx < |caps| then caps[idx] else None
  }

  function CapLookup(caps: CapTable, idx: nat): Option<nat> {
    match CapAt(caps, idx)
    case Some(Endpoint(id)) => Some(id)
    case _ => None
  }

  function RestartTarget(caps: CapTable, idx: nat): Option<nat> {
    match CapAt(caps, idx)
    case Some(Restart(slot)) => Some(slot)
    case _ => None
  }

  function InterruptIrq(caps: CapTable, idx: nat): Option<nat> {
    match CapAt(caps, idx)
    case Some(Interrupt(irq)) => Some(irq)
    case _ => None
  }

  function ReplyCaller(caps: CapTable, idx: nat): Option<nat> {
    match CapAt(caps, idx)
    case Some(Reply(c)) => Some(c)
    case _ => None
  }

  /** The slot-bounded write: a slot past the table is ignored. */
  function Install(caps: CapTable, slot: nat, cap: Capability): (r: CapTable)
    ensures |r| == |caps|
  {
    if slot < |caps| then caps[slot := Some(cap)] else caps
  }

  /** The table with every Endpoint(ep) slot cleared. */
  function Revoked(caps: CapTable, ep: nat): (r: CapTable)
    ensures |r| == |caps|
    ensures forall k :: 0 <= k < |caps| ==> r[k] == if caps[k] == Some(Endpoint(ep)) then None else caps[k]
  {
    seq(|caps|, k requires 0 <= k < |caps| => if caps[k] == Some(Endpoint(ep)) then None else caps[k])
  }

  function CountEndpoint(caps: CapTable, ep: nat): nat {
    if caps == [] then 0
    else CountEndpoint(caps[..|caps| - 1], ep) + (if caps[|caps| - 1] == Some(Endpoint(ep)) then 1 else 0)
  }
}
