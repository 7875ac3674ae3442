/** The scheduler object: the run queue updated in place, each operation proved
    to perform the step the model gives for it. */
module Scheduler {
  import opened Options
  import opened KernelTypes
  import S = Steps

  class Scheduler {
    const tasks: array<Option<Task>>
    var current: nat

    ghost function View(): State
      reads this, tasks
    {
      State(tasks[..], current)
    }

    ghost predicate Valid()
      reads this, tasks
    {
      WellFormed(View())
    }

    /** The run queue before `enter`: no task, nothing running. */
    constructor ()
      ensures fresh(tasks) && tasks.Length == MAX_TASKS && current == 0
      ensures forall i :: 0 <= i < MAX_TASKS ==> tasks[i] == None
    {
      tasks := new Option<Task>[MAX_TASKS](_ => None);
      current := 0;
    }

    /** Round-robin scan for the next Ready slot. */
    method PickNext() returns (r: nat)
      requires tasks.Length == MAX_TASKS && current < MAX_TASKS
      ensures r == S.PickNext(View())
    {
      for offset := 1 to MAX_TASKS
        invariant S.PickNext(View()) == S.ScanReady(View(), offset)
      {
        var i := (current + offset) % MAX_TASKS;
        if tasks[i].Some? && tasks[i].value.state == Ready {
          return i;
        }
      }
      r := current;
    }

    /** First task in slot order that is in state want. */
    method Position(want: TaskState) returns (r: Option<nat>)
      ensures r == S.FindFrom(tasks[..], want, 0)
    {
      for i := 0 to tasks.Length
        invariant S.FindFrom(tasks[..], want, 0) == S.FindFrom(tasks[..], want, i)
      {
        if tasks[i].Some? && tasks[i].value.state == want {
          return Some(i);
        }
      }
      r := None;
    }

    method FindBlocked(ep: nat, role: Role) returns (r: Option<nat>)
      ensures r == S.FindBlocked(View(), ep, role)
    {
      r := Position(Blocked(ep, role));
    }

    method Store(i: nat, t: Task)
      requires i < tasks.Length
      modifies tasks
      ensures View() == Put(old(View()), i, t)
    {
      tasks[i] := Some(t);
    }

    method SetA0(v: nat)
      requires Valid()
      modifies tasks
      ensures View() == S.SetA0(old(View()), v)
    {
      var t := tasks[current].value;
      Store(current, t.(regs := t.regs.(badge := v)));
    }

    /** The second half of a blocked recv: turn the caller back-pointer into a
        reply capability, install a granted capability, return the message. */
    method FinishRecv(slot: nat)
      requires current < tasks.Length && tasks[current].Some?
      modifies tasks
      ensures var t := old(tasks[current].value);
              var c1 := if t.caller.Some? then Install(t.caps, slot, Reply(t.caller.value)) else t.caps;
              var c2 := if t.pendingGrant.Some? then Install(c1, slot, t.pendingGrant.value) else c1;
              View() == Put(old(View()), current,
                t.(regs := t.message, caller := None, pendingGrant := None, caps := c2))
    {
      var caller := tasks[current].value.caller;
      tasks[current] := Some(tasks[current].value.(caller := None));
      if caller.Some? {
        MintReplyCap(current, caller.value, slot);
      }
      var grant := tasks[current].value.pendingGrant;
      tasks[current] := Some(tasks[current].value.(pendingGrant := None));
      if grant.Some? {
        InstallCap(current, slot, grant.value);
      }
      tasks[current] := Some(tasks[current].value.(regs := tasks[current].value.message));
    }

    method MintReplyCap(server: nat, caller: nat, slot: nat)
      requires server < tasks.Length && tasks[server].Some?
      modifies tasks
      ensures View() == Put(old(View()), server,
        old(tasks[server].value).(caps := Install(old(tasks[server].value).caps, slot, Reply(caller))))
    {
      InstallCap(server, slot, Reply(caller));
    }

    method InstallCap(task: nat, slot: nat, cap: Capability)
      requires task < tasks.Length && tasks[task].Some?
      modifies tasks
      ensures View()
           == Put(old(View()), task, old(tasks[task].value).(caps := Install(old(tasks[task].value).caps, slot, cap)))
    {
      var t := tasks[task].value;
      if slot < |t.caps| {
        Store(task, t.(caps := t.caps[slot := Some(cap)]));
      } else {
        assert tasks[..] == tasks[..][task := Some(t)];
      }
    }

    /** Switch to slot next: its continuation runs, on the hart. */
    method SwitchContext(next: nat)
      requires next < tasks.Length && tasks[next].Some?
      modifies this, tasks
      ensures View() == S.Dispatch(old(View()), next)
    {
      var k := tasks[next].value.cont;
      tasks[next] := Some(tasks[next].value.(state := Running, cont := ToUser));
      current := next;
      match k {
        case Launch(generation) =>
          var t := tasks[next].value;
          Store(next, t.(regs := t.regs.(badge := generation)));
        case ReturnZero =>
          var t := tasks[next].value;
          Store(next, t.(regs := t.regs.(badge := 0)));
        case ReturnMessage =>
          var t := tasks[next].value;
          Store(next, t.(regs := t.message));
        case FinishRecv(_, slot) => FinishRecv(slot);
        case _ =>
      }
      assert tasks[..] == old(tasks[..])[next := Some(S.Resumed(old(tasks[next].value)))];
    }

    /** The successor assert of exit_current and park_current: false when it fires. */
    method SwitchAway(st: TaskState, k: Continuation, prefer: Option<nat>,
                      ghost sent: Option<S.Parcel>) returns (ok: bool)
      requires Valid() && (prefer.Some? ==> Live(View(), prefer.value))
      modifies this, tasks
      ensures var r := S.SwitchAway(old(View()), st, k, prefer, sent);
              ok == r.Next? && (ok ==> View() == r.state)
    {
      var cur := current;
      Store(cur, tasks[cur].value.(state := st, cont := k));
      var next;
      if prefer.Some? {
        next := prefer.value;
      } else {
        next := PickNext();
      }
      if next == cur {
        return false;
      }
      SwitchContext(next);
      return true;
    }

    // ---- system calls, ticks and interrupts ----

    /** yield_now: also the timer's preemption. */
    method YieldNow()
      requires Valid()
      modifies this, tasks
      ensures S.YieldStep(old(View())).Next? && View() == S.YieldStep(old(View())).state && Valid()
    {
      var next := PickNext();
      if next != current {
        var _ := SwitchAway(Ready, ToUser, Some(next), None);
      }
    }

    /** exit_current after the exit system call. */
    method ExitCurrent() returns (ok: bool)
      requires Valid()
      modifies this, tasks
      ensures var r := S.ExitStep(old(View())); ok == r.Next? && (ok ==> View() == r.state && Valid())
    {
      ok := SwitchAway(Exited, tasks[current].value.cont, None, None);
    }

    /** exit_current after a fault: wake the healer for a restartable task whose
        issue is not quarantined, and run it next. */
    method CrashCurrent(quarantined: bool) returns (ok: bool)
      requires Valid()
      modifies this, tasks
      ensures var r := S.CrashStep(old(View()), quarantined); ok == r.Next? && (ok ==> View() == r.state && Valid())
    {
      var me := tasks[current].value;
      var prefer: Option<nat> := None;
      ghost var sent: Option<S.Parcel> := None;
      if me.restartable && !quarantined {
        var h := FindBlocked(CRASH_EP, Recv);
        if h.Some? {
          var msg := Message(me.crashBadge, 0, 0, 0);
          Store(h.value, tasks[h.value].value.(message := msg, state := Ready));
          prefer := h;
          sent := Some(S.Parcel(S.OnEndpoint(CRASH_EP), msg));
        }
      }
      ok := SwitchAway(Exited, me.cont, prefer, sent);
    }

    method IpcSend(capIdx: nat, msg: Message) returns (ok: bool)
      requires Valid()
      modifies this, tasks
      ensures var r := S.SendStep(old(View()), capIdx, msg); ok == r.Next? && (ok ==> View() == r.state && Valid())
    {
      var me := tasks[current].value;
      match CapLookup(me.caps, capIdx)
      case None =>
        SetA0(USIZE_MAX);
        return true;
      case Some(ep) =>
        var peer := FindBlocked(ep, Recv);
        match peer {
          case Some(ri) =>
            Store(ri, tasks[ri].value.(message := msg, state := Ready));
            SetA0(0);
            return true;
          case None =>
            Store(current, me.(message := msg));
            ok := SwitchAway(Blocked(ep, Send), ReturnZero, None, Some(S.Parcel(S.OnEndpoint(ep), msg)));
        }
    }

    method IpcRecv(capIdx: nat, replySlot: nat) returns (ok: bool)
      requires Valid()
      modifies this, tasks
      ensures var r := S.RecvStep(old(View()), capIdx, replySlot);
              ok == r.Next? && (ok ==> View() == r.state && Valid())
    {
      match CapLookup(tasks[current].value.caps, capIdx)
      case None =>
        SetA0(USIZE_MAX);
        return true;
      case Some(ep) =>
        var waiting := FindBlocked(ep, Send);
        if waiting.None? {
          waiting := FindBlocked(ep, Call);
        }
        if waiting.Some? {
          Take(waiting.value, ep, replySlot);
          return true;
        }
        ok := SwitchAway(Blocked(ep, Recv), Continuation.FinishRecv(ep, replySlot), None, None);
    }

    /** Take the message, and any capability, of the waiting sender si. */
    method Take(si: nat, ep: nat, replySlot: nat)
      requires Valid() && S.Waiting(View(), ep) == Some(si)
      modifies tasks
      ensures View() == S.TakeFrom(old(View()), si, ep, replySlot).state
    {
      hide S.FindFrom;
      var isCall := tasks[si].value.state == Blocked(ep, Call);
      var msg := tasks[si].value.message;
      var granted := tasks[si].value.pendingGrant;
      Store(si, tasks[si].value.(pendingGrant := None));
      if isCall {
        Store(si, tasks[si].value.(state := AwaitingReply));
        MintReplyCap(current, si, replySlot);
      } else {
        Store(si, tasks[si].value.(state := Ready));
      }
      if granted.Some? {
        InstallCap(current, replySlot, granted.value);
      }
      Store(current, tasks[current].value.(regs := msg));
    }

    method IpcCall(capIdx: nat, msg: Message) returns (ok: bool)
      requires Valid()
      modifies this, tasks
      ensures var r := S.CallStep(old(View()), capIdx, msg); ok == r.Next? && (ok ==> View() == r.state && Valid())
    {
      var me := tasks[current].value;
      match CapLookup(me.caps, capIdx)
      case None =>
        SetA0(USIZE_MAX);
        return true;
      case Some(ep) =>
        ghost var sent := Some(S.Parcel(S.OnEndpoint(ep), msg));
        var peer := FindBlocked(ep, Recv);
        match peer {
          case Some(ri) =>
            Store(ri, tasks[ri].value.(message := msg, caller := Some(current), state := Ready));
            ok := SwitchAway(AwaitingReply, ReturnMessage, None, sent);
          case None =>
            Store(current, me.(message := msg));
            ok := SwitchAway(Blocked(ep, Call), ReturnMessage, None, sent);
        }
    }

    method IpcReply(replySlot: nat, msg: Message) returns (ok: bool)
      requires Valid()
      modifies this, tasks
      ensures var r := S.ReplyStep(old(View()), replySlot, msg); ok == r.Next? && (ok ==> View() == r.state && Valid())
    {
      var me := tasks[current].value;
      match ReplyCaller(me.caps, replySlot)
      case None =>
        SetA0(USIZE_MAX);
        return true;
      case Some(c) =>
        if c >= tasks.Length {
          return false;
        }
        Store(current, me.(caps := me.caps[replySlot := None]));
        if tasks[c].Some? && tasks[c].value.state == AwaitingReply {
          Store(c, tasks[c].value.(message := msg, state := Ready));
          SetA0(0);
        } else {
          SetA0(USIZE_MAX);
        }
        return true;
    }

    method IpcGrant(epIdx: nat, srcSlot: nat, badge: nat) returns (ok: bool)
      requires Valid()
      modifies this, tasks
      ensures var r := S.GrantStep(old(View()), epIdx, srcSlot, badge);
              ok == r.Next? && (ok ==> View() == r.state && Valid())
    {
      hide S.SwitchAway;
      var me := tasks[current].value;
      match CapLookup(me.caps, epIdx)
      case None =>
        SetA0(USIZE_MAX);
        return true;
      case Some(ep) =>
        match CapAt(me.caps, srcSlot)
        case None =>
          SetA0(USIZE_MAX);
          return true;
        case Some(cap) =>
          var msg := Message(badge, 0, 0, 0);
          var peer := FindBlocked(ep, Recv);
          match peer {
            case Some(ri) =>
              Store(ri, tasks[ri].value.(message := msg, pendingGrant := Some(cap), state := Ready));
              SetA0(0);
              return true;
            case None =>
              Store(current, me.(message := msg, pendingGrant := Some(cap)));
              ok := SwitchAway(Blocked(ep, Send), ReturnZero, None, Some(S.Parcel(S.OnEndpoint(ep), msg)));
          }
    }

    /** Clear Endpoint(ep) from one table, slot by slot. */
    method RevokeInCaps(caps: CapTable, ep: nat) returns (cleared: CapTable, n: nat)
      ensures cleared == Revoked(caps, ep) && n == CountEndpoint(caps, ep)
    {
      cleared, n := caps, 0;
      for k := 0 to |caps|
        invariant |cleared| == |caps|
        invariant forall j :: 0 <= j < |caps| ==> cleared[j] == if j < k then Revoked(caps, ep)[j] else caps[j]
        invariant n == CountEndpoint(caps[..k], ep)
      {
        assert caps[..k + 1][..k] == caps[..k];
        if cleared[k] == Some(Endpoint(ep)) {
          cleared := cleared[k := None];
          n := n + 1;
        }
      }
      assert caps[..|caps|] == caps;
    }

    method RevokeEndpoint(ep: nat, except: nat) returns (n: nat)
      requires Valid()
      modifies tasks
      ensures View() == S.RevokedTasks(old(View()), ep, except)
      ensures n == S.HeldCount(old(View()), ep, except, MAX_TASKS)
    {
      ghost var s := View();
      n := 0;
      for i := 0 to MAX_TASKS
        invariant forall j :: 0 <= j < MAX_TASKS ==>
          tasks[j] == if j < i then S.RevokedTasks(s, ep, except).tasks[j] else s.tasks[j]
        invariant n == S.HeldCount(s, ep, except, i)
      {
        if i != except && tasks[i].Some? {
          var caps, m := RevokeInCaps(tasks[i].value.caps, ep);
          tasks[i] := Some(tasks[i].value.(caps := caps));
          n := n + m;
        }
      }
      assert tasks[..] == S.RevokedTasks(s, ep, except).tasks;
    }

    method IpcRevoke(epIdx: nat)
      requires Valid()
      modifies tasks
      ensures View() == S.RevokeStep(old(View()), epIdx).state && Valid()
    {
      match CapLookup(tasks[current].value.caps, epIdx)
      case None => SetA0(USIZE_MAX);
      case Some(ep) =>
        var n := RevokeEndpoint(ep, current);
        SetA0(n);
    }

    /** The caged fix: false when the target was never set up to be restarted. */
    method Restart(capIdx: nat) returns (ok: bool)
      requires Valid()
      modifies tasks
      ensures var r := S.RestartStep(old(View()), capIdx); ok == r.Next? && (ok ==> View() == r.state && Valid())
    {
      match RestartTarget(tasks[current].value.caps, capIdx)
      case None =>
        SetA0(USIZE_MAX);
        return true;
      case Some(target) =>
        if target >= tasks.Length || tasks[target].None? {
          return false;
        }
        var t := tasks[target].value;
        if !S.CanRestart(t.restarts, MAX_RESTARTS) {
          SetA0(USIZE_MAX);
          return true;
        }
        if !t.restartable {
          return false;
        }
        var generation := t.restarts + 1;
        Store(target, t.(cont := Launch(generation), restarts := generation, state := Ready));
        SetA0(0);
        return true;
    }

    method WaitIrq(capIdx: nat) returns (ok: bool)
      requires Valid()
      modifies this, tasks
      ensures var r := S.WaitIrqStep(old(View()), capIdx); ok == r.Next? && (ok ==> View() == r.state && Valid())
    {
      match InterruptIrq(tasks[current].value.caps, capIdx)
      case None =>
        SetA0(USIZE_MAX);
        return true;
      case Some(irq) =>
        ok := SwitchAway(WaitingIrq(irq), ReturnZero, None, None);
    }

    method WakeIrq(irq: nat)
      requires Valid()
      modifies tasks
      ensures View() == S.WakeIrqStep(old(View()), irq).state && Valid()
    {
      var pos := Position(WaitingIrq(irq));
      if pos.Some? {
        Store(pos.value, tasks[pos.value].value.(state := Ready));
      }
    }
  }
}
