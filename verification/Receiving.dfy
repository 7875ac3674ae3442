/** What a receive brings: which sender it takes from, which capability it puts
    where, and so who can answer a waiting caller. */
module Receiving {
  import opened Options
  import opened KernelTypes
  import opened Steps
  import opened Lifecycle
  import opened Switching
  import opened Matching
  import opened Conservation
  import opened Answers

  lemma WaitingIs(s: State, ep: nat, si: nat)
    requires TakenFrom(s, ep, si)
    ensures Waiting(s, ep) == Some(si) && Live(s, si) && TaskAt(s, si).state.Blocked?
  {
    FindIs(s, Blocked(ep, Send));
    FindIs(s, Blocked(ep, Call));
  }

  lemma TakeIs(s: State, si: nat, ep: nat, slot: nat)
    requires WellFormed(s) && Live(s, si) && si != s.current
    ensures TakeFrom(s, si, ep, slot).Next?
    ensures var s', me, t := TakeFrom(s, si, ep, slot).state, TaskAt(s, s.current), TaskAt(s, si);
            var calls := t.state == Blocked(ep, Call);
            && s'.current == s.current && |s'.tasks| == |s.tasks| && Live(s', s.current)
            && TaskAt(s', s.current) == me.(regs := t.message, caps := TaskAt(s', s.current).caps)
            && Filled(me.caps, TaskAt(s', s.current).caps, slot,
                      if t.pendingGrant.Some? then t.pendingGrant else if calls then Some(Reply(si)) else None)
            && s'.tasks[si] == Some(t.(pendingGrant := None, state := if calls then AwaitingReply else Ready))
            && forall i :: 0 <= i < |s.tasks| && i != si && i != s.current ==> s'.tasks[i] == s.tasks[i]
  {
  }

  /** A recv that finds a sender waiting: the receiver has the sender's message in
      its registers and, in the slot it named, the capability the sender carried or
      else the right to answer its call; the sender waits for that answer or goes on;
      nothing else changes. */
  lemma RecvTakes(s: State, idx: nat, slot: nat, ep: nat, si: nat)
    requires WellFormed(s) && Holds(TaskAt(s, s.current).caps, idx, Endpoint(ep)) && TakenFrom(s, ep, si)
    ensures Step(s, DoRecv(idx, slot)).Next? && si != s.current
    ensures var s', me, t := Step(s, DoRecv(idx, slot)).state, TaskAt(s, s.current), TaskAt(s, si);
            var calls := t.state == Blocked(ep, Call);
            && s'.current == s.current && |s'.tasks| == |s.tasks| && Live(s', s.current)
            && TaskAt(s', s.current) == me.(regs := t.message, caps := TaskAt(s', s.current).caps)
            && Filled(me.caps, TaskAt(s', s.current).caps, slot,
                      if t.pendingGrant.Some? then t.pendingGrant else if calls then Some(Reply(si)) else None)
            && s'.tasks[si] == Some(t.(pendingGrant := None, state := if calls then AwaitingReply else Ready))
            && forall i :: 0 <= i < |s.tasks| && i != si && i != s.current ==> s'.tasks[i] == s.tasks[i]
  {
    hide TakenFrom, TakeFrom, Filled, Waiting;
    WaitingIs(s, ep, si);
    TakeIs(s, si, ep, slot);
  }

  // ---- who can answer a waiting caller ----

  /** What is pending in a task fits its state: a caller only in a receiver that a
      call has woken, a capability only in one that a grant has woken or in a sender
      that waits to hand it over. */
  predicate Tidy(t: Task) {
    match t.state
    case Ready =>
      if t.cont.FinishRecv? then t.caller.None? || t.pendingGrant.None? else t.caller.None? && t.pendingGrant.None?
    case Blocked(_, Send) => t.caller.None?
    case _ => t.caller.None? && t.pendingGrant.None?
  }

  ghost predicate AllTidy(s: State) {
    forall i: nat :: Live(s, i) ==> Tidy(TaskAt(s, i))
  }

  ghost predicate OnlyExited(s: State, e: Event) {
    forall i: nat :: Relaunches(s, e, i) ==> InState(s, i, Exited)
  }

  lemma TidyOther(s: State, e: Event, s': State, i: nat)
    requires Takes(s, e, s') && Coherent(s) && AllTidy(s) && OnlyExited(s, e)
    requires Live(s, i) && i != s.current && i != s'.current
    ensures Live(s', i) && Tidy(TaskAt(s', i))
  {
    hide Step, NoneIn, TakenFrom;
    OtherIs(s, e, s', i);
    assert Tidy(TaskAt(s, i)) && Fits(TaskAt(s, i));
    if Partner(s, e, i) {
      PartnerWaits(s, e, i);
    }
  }

  lemma TidySwitch(s: State, e: Event, s': State)
    requires Takes(s, e, s') && Coherent(s) && AllTidy(s) && s'.current != s.current
    ensures Live(s', s.current) && Tidy(TaskAt(s', s.current)) && Live(s', s'.current) && Tidy(TaskAt(s', s'.current))
  {
    hide Step, First, NoneIn, Filled;
    LeaverIs(s, e, s');
    RunnerIs(s, e, s');
    Changes(s, e, s', s'.current);
    assert Tidy(TaskAt(s, s.current)) && Tidy(TaskAt(s, s'.current)) && Fits(TaskAt(s, s'.current));
  }

  lemma TidyStay(s: State, e: Event, s': State)
    requires Takes(s, e, s') && Coherent(s) && AllTidy(s) && OnlyExited(s, e) && s'.current == s.current
    ensures Live(s', s.current) && Tidy(TaskAt(s', s.current))
  {
    hide Step, First, NoneIn, Filled, HoldersOf;
    StayerIs(s, e, s');
    assert Tidy(TaskAt(s, s.current));
  }

  /** Steps that restart only Exited tasks keep every task tidy. */
  lemma TidyStep(s: State, e: Event, s': State)
    requires Takes(s, e, s') && Coherent(s) && AllTidy(s) && OnlyExited(s, e)
    ensures AllTidy(s')
  {
    hide Step, Tidy, Relaunches;
    forall i: nat | Live(s', i) ensures Tidy(TaskAt(s', i)) {
      assert Live(s, i) by { Changes(s, e, s', s.current); }
      if i != s.current && i != s'.current {
        TidyOther(s, e, s', i);
      } else if s'.current != s.current {
        TidySwitch(s, e, s');
      } else {
        TidyStay(s, e, s');
      }
    }
  }

  /** Every waiting caller can be answered: some token names it. */
  ghost predicate Answerable(s: State) {
    forall c: nat :: InState(s, c, AwaitingReply) ==> Named(s, c)
  }

  /** A recv of the task then on the hart ends in this step, and names this slot. */
  ghost predicate EndsRecv(s: State, e: Event, s': State, slot: nat)
    requires Live(s, s.current)
  {
    if s'.current == s.current
    then e.DoRecv? && HoldsEndpoint(TaskAt(s, s.current).caps, e.capIdx) && slot == e.replySlot
    else Live(s, s'.current) && TaskAt(s, s'.current).cont.FinishRecv? && slot == TaskAt(s, s'.current).cont.replySlot
  }

  /** That recv brings cap: from the sender it takes from, or from what woke it. */
  ghost predicate Brings(s: State, e: Event, s': State, cap: Capability)
    requires Live(s, s.current)
  {
    if s'.current == s.current then exists si: nat :: Partner(s, e, si) && Hands(s, si, cap)
    else Live(s, s'.current) && Incoming(Reached(s, e, s'.current)) == Some(cap)
  }

  /** The sender si hands over cap. */
  ghost predicate Hands(s: State, si: nat, cap: Capability)
    requires Live(s, si)
  {
    var o := TaskAt(s, si);
    if o.pendingGrant.Some? then o.pendingGrant == Some(cap)
    else o.state.Blocked? && o.state.role == Call && cap == Reply(si)
  }

  /** The step loses a token: what it brings overwrites one, or is one and has no
      slot to go to. */
  ghost predicate Loses(s: State, e: Event, s': State) {
    Live(s, s.current) && exists slot: nat, cap: Capability ::
      && EndsRecv(s, e, s', slot) && Brings(s, e, s', cap)
      && if slot < CAP_SLOTS then Live(s, s'.current) && ReplyCaller(TaskAt(s, s'.current).caps, slot).Some?
         else cap.Reply?
  }

  // ---- a token is kept ----

  lemma PartnerOnly(s: State, e: Event, i: nat, j: nat)
    requires Live(s, s.current) && Partner(s, e, i) && Partner(s, e, j)
    ensures i == j
  {
  }

  /** In a task that neither leaves nor comes, a token stays, unless the sender hands
      it over. */
  lemma KeptOther(s: State, e: Event, s': State, i: nat, k: nat, c: nat)
    requires Takes(s, e, s') && Coherent(s) && AllTidy(s) && i != s.current && i != s'.current && Names(s, i, k, c)
    ensures Names(s', i, k, c) || (e.DoRecv? && Partner(s, e, i) && Hands(s, i, Reply(c)))
  {
    hide Step, First, NoneIn;
    OtherIs(s, e, s', i);
    assert Tidy(TaskAt(s, i));
    if Partner(s, e, i) {
      PartnerWaits(s, e, i);
    }
  }

  lemma KeptLeaver(s: State, e: Event, s': State, k: nat, c: nat)
    requires Takes(s, e, s') && Coherent(s) && AllTidy(s) && s'.current != s.current && Names(s, s.current, k, c)
    ensures Names(s', s.current, k, c)
  {
    hide Step, First, NoneIn;
    LeaverIs(s, e, s');
    assert Tidy(TaskAt(s, s.current));
  }

  lemma KeptRunner(s: State, e: Event, s': State, k: nat, c: nat)
    requires Takes(s, e, s') && Coherent(s) && AllTidy(s) && s'.current != s.current && Names(s, s'.current, k, c)
    ensures Named(s', c) || Loses(s, e, s')
  {
    hide Step, Partner, Loses, Filled;
    RunnerIs(s, e, s');
    Changes(s, e, s', s'.current);
    assert Tidy(TaskAt(s, s'.current));
    if TaskAt(s, s'.current).cont.FinishRecv? {
      KeptReceiver(s, e, s', k, c);
    } else {
      assert Names(s', s'.current, k, c);
    }
  }

  lemma KeptReceiver(s: State, e: Event, s': State, k: nat, c: nat)
    requires Takes(s, e, s') && AllTidy(s) && s'.current != s.current && Names(s, s'.current, k, c)
    requires TaskAt(s, s'.current).cont.FinishRecv?
    ensures Named(s', c) || Loses(s, e, s')
  {
    hide Step, Partner, Wakes;
    var n := s'.current;
    RunnerIs(s, e, s');
    var t, r := TaskAt(s, n), Reached(s, e, n);
    var slot := t.cont.replySlot;
    assert Tidy(t);
    assert EndsRecv(s, e, s', slot);
    if k < CAP_SLOTS && (k != slot || Incoming(r).None?) {
      assert Names(s', n, k, c);
    } else if slot < CAP_SLOTS && k >= CAP_SLOTS {
      assert Incoming(r) == Some(Reply(c));
      assert Names(s', n, slot, c);
    } else {
      assert Brings(s, e, s', Incoming(r).value);
    }
  }

  lemma KeptStayer(s: State, e: Event, s': State, k: nat, c: nat)
    requires Takes(s, e, s') && Coherent(s) && AllTidy(s) && s'.current == s.current && Names(s, s.current, k, c)
    requires InState(s', c, AwaitingReply) && InState(s, c, AwaitingReply)
    ensures Named(s', c) || Loses(s, e, s')
  {
    hide Step, First, NoneIn, TakenFrom, HoldersOf, Relaunches, Partner;
    StayerIs(s, e, s');
    var t, t' := TaskAt(s, s.current), TaskAt(s', s.current);
    assert Tidy(t);
    if e.DoReply? && k == e.replySlot && k < CAP_SLOTS {
      OtherIs(s, e, s', c);
      assert false;
    }
    if e.DoRecv? && HoldsEndpoint(t.caps, e.capIdx) {
      StayerRecv(s, e, s', k, c);
    } else {
      assert Names(s', s.current, k, c);
    }
  }

  lemma StayerRecv(s: State, e: Event, s': State, k: nat, c: nat)
    requires Takes(s, e, s') && Coherent(s) && AllTidy(s) && s'.current == s.current && Names(s, s.current, k, c)
    requires e.DoRecv? && HoldsEndpoint(TaskAt(s, s.current).caps, e.capIdx)
    ensures Named(s', c) || Loses(s, e, s')
  {
    hide Step, First, NoneIn, TakenFrom;
    StayerIs(s, e, s');
    var t, t' := TaskAt(s, s.current), TaskAt(s', s.current);
    assert Tidy(t);
    var si: nat :| Partner(s, e, si) && Received(s, si, e.replySlot, t, t');
    var o := TaskAt(s, si);
    if k == e.replySlot && t'.caps[k] != t.caps[k] {
      var cap := t'.caps[k].value;
      assert Hands(s, si, cap);
      assert EndsRecv(s, e, s', k) && Brings(s, e, s', cap);
    } else {
      assert Names(s', s.current, k, c);
    }
  }

  /** A recv with a sender waiting ends at once. */
  lemma RecvStays(s: State, e: Event, s': State, si: nat)
    requires Takes(s, e, s') && e.DoRecv? && Partner(s, e, si)
    ensures s'.current == s.current && HoldsEndpoint(TaskAt(s, s.current).caps, e.capIdx)
  {
    hide Step;
    LeaverIs(s, e, s');
  }

  /** What the sender hands over is in the receiver's slot, unless there is none. */
  lemma HandedOver(s: State, e: Event, s': State, si: nat, c: nat)
    requires Takes(s, e, s') && e.DoRecv? && Partner(s, e, si) && Hands(s, si, Reply(c))
    ensures Named(s', c) || Loses(s, e, s')
  {
    hide Step, First, NoneIn, TakenFrom;
    RecvStays(s, e, s', si);
    StayerIs(s, e, s');
    var t, t' := TaskAt(s, s.current), TaskAt(s', s.current);
    var sj: nat :| Partner(s, e, sj) && Received(s, sj, e.replySlot, t, t');
    PartnerOnly(s, e, si, sj);
    if e.replySlot < CAP_SLOTS {
      assert Names(s', s.current, e.replySlot, c);
    } else {
      assert EndsRecv(s, e, s', e.replySlot) && Brings(s, e, s', Reply(c));
    }
  }

  /** A caller that finds its server waiting is named by the server. */
  lemma CallerNamed(s: State, e: Event, s': State)
    requires Takes(s, e, s') && Coherent(s) && AllTidy(s) && s'.current != s.current
    requires InState(s', s.current, AwaitingReply)
    ensures Named(s', s.current) || Loses(s, e, s')
  {
    hide Step;
    LeaverIs(s, e, s');
    var ep := TaskAt(s, s.current).caps[e.capIdx].value.id;
    FindIs(s, Blocked(ep, Recv));
    var ri := FindFrom(s.tasks, Blocked(ep, Recv), 0).value;
    assert Partner(s, e, ri);
    assert Tidy(TaskAt(s, ri)) && Fits(TaskAt(s, ri));
    if ri != s'.current {
      OtherIs(s, e, s', ri);
      assert Names(s', ri, CAP_SLOTS, s.current);
    } else {
      RunnerIs(s, e, s');
      var slot := TaskAt(s, ri).cont.replySlot;
      if slot < CAP_SLOTS {
        assert Names(s', ri, slot, s.current);
      } else {
        assert EndsRecv(s, e, s', slot) && Brings(s, e, s', Reply(s.current));
      }
    }
  }

  /** Unless the step loses a token, every waiting caller can still be answered. */
  lemma StaysAnswerable(s: State, e: Event, s': State)
    requires Takes(s, e, s') && Coherent(s) && AllTidy(s) && Answerable(s) && !Loses(s, e, s')
    ensures Answerable(s')
  {
    hide Step, Loses, Relaunches;
    forall c: nat | InState(s', c, AwaitingReply) ensures Named(s', c) {
      assert Live(s, c) by { Changes(s, e, s', s.current); }
      Changes(s, e, s', c);
      if c == s.current {
        CallerNamed(s, e, s');
      } else if InState(s, c, AwaitingReply) {
        var i: nat, k: nat :| Names(s, i, k, c);
        if i == s.current && s'.current == s.current {
          KeptStayer(s, e, s', k, c);
        } else if i == s.current {
          KeptLeaver(s, e, s', k, c);
        } else if i == s'.current {
          KeptRunner(s, e, s', k, c);
        } else {
          KeptOther(s, e, s', i, k, c);
          if !Names(s', i, k, c) {
            HandedOver(s, e, s', i, c);
          }
        }
      } else {
        NewlyWaits(s, e, s', c);
      }
    }
  }

  /** A caller that a recv takes from is named by the receiver. */
  lemma NewlyWaits(s: State, e: Event, s': State, c: nat)
    requires Takes(s, e, s') && Coherent(s) && AllTidy(s)
    requires c != s.current && Live(s, c) && !InState(s, c, AwaitingReply) && InState(s', c, AwaitingReply)
    ensures Named(s', c) || Loses(s, e, s')
  {
    hide Step, First, NoneIn, TakenFrom, Loses;
    Changes(s, e, s', c);
    OtherIs(s, e, s', c);
    assert Tidy(TaskAt(s, c));
    PartnerWaits(s, e, c);
    HandedOver(s, e, s', c, c);
  }

  // ---- where tokens come from ----

  /** The token at place l of task j comes with the recv that ends in this step. */
  ghost predicate Brought(s: State, e: Event, s': State, j: nat, l: nat, d: nat)
    requires Live(s, s.current)
  {
    j == s'.current && l < CAP_SLOTS && EndsRecv(s, e, s', l) && Brings(s, e, s', Reply(d))
  }

  /** The token is that of the call made in this step, in the receiver it wakes. */
  ghost predicate Minted(s: State, e: Event, s': State, j: nat, l: nat, d: nat)
    requires Live(s, s.current)
  {
    e.DoCall? && Partner(s, e, j) && j != s'.current && l == CAP_SLOTS && d == s.current
  }

  lemma OriginOther(s: State, e: Event, s': State, j: nat, l: nat, d: nat)
    requires Takes(s, e, s') && !Tampers(s, e) && Live(s, j) && j != s.current && j != s'.current && Names(s', j, l, d)
    ensures Names(s, j, l, d) || Minted(s, e, s', j, l, d)
    ensures Partner(s, e, j) && e.DoRecv? ==> l != CAP_SLOTS + 1
  {
    hide Step, First, NoneIn, TakenFrom;
    OtherIs(s, e, s', j);
  }

  lemma OriginLeaver(s: State, e: Event, s': State, l: nat, d: nat)
    requires Takes(s, e, s') && !Tampers(s, e) && s'.current != s.current && Names(s', s.current, l, d)
    ensures Names(s, s.current, l, d)
  {
    hide Step, First, NoneIn, TakenFrom;
    LeaverIs(s, e, s');
  }

  lemma OriginRunner(s: State, e: Event, s': State, l: nat, d: nat)
    requires Takes(s, e, s') && Coherent(s) && AllTidy(s) && s'.current != s.current && Names(s', s'.current, l, d)
    ensures Live(s, s'.current)
    ensures Names(s, s'.current, l, d) || Brought(s, e, s', s'.current, l, d)
    ensures TaskAt(s, s'.current).cont.FinishRecv? ==> l < CAP_SLOTS
  {
    hide Step, First, NoneIn, TakenFrom, Wakes;
    var n := s'.current;
    RunnerIs(s, e, s');
    Changes(s, e, s', n);
    assert Tidy(TaskAt(s, n));
    if TaskAt(s, n).cont.FinishRecv? {
      assert EndsRecv(s, e, s', TaskAt(s, n).cont.replySlot);
    } else {
      NotWoken(s, e, s');
    }
  }

  /** A task that is not in a recv is not handed a call. */
  lemma NotWoken(s: State, e: Event, s': State)
    requires Takes(s, e, s') && Coherent(s) && s'.current != s.current && Live(s, s'.current)
    ensures !TaskAt(s, s'.current).cont.FinishRecv? ==> TaskAt(s, s'.current).state == Ready
  {
    hide Step;
    RunnerIs(s, e, s');
    LeaverIs(s, e, s');
    assert Fits(TaskAt(s, s'.current));
  }

  lemma OriginStayer(s: State, e: Event, s': State, l: nat, d: nat)
    requires Takes(s, e, s') && s'.current == s.current && Names(s', s.current, l, d)
    ensures Names(s, s.current, l, d) || Brought(s, e, s', s.current, l, d)
  {
    hide Step, First, NoneIn, TakenFrom, HoldersOf, Relaunches;
    StayerIs(s, e, s');
    var t, t' := TaskAt(s, s.current), TaskAt(s', s.current);
    if e.DoRecv? && HoldsEndpoint(t.caps, e.capIdx) {
      var si: nat :| Partner(s, e, si) && Received(s, si, e.replySlot, t, t');
      if !Names(s, s.current, l, d) {
        assert l == e.replySlot && Hands(s, si, Reply(d));
        assert EndsRecv(s, e, s', l);
      }
    }
  }

  /** A token was there before, or comes with the recv or the call of this step. */
  lemma Origin(s: State, e: Event, s': State, j: nat, l: nat, d: nat)
    requires Takes(s, e, s') && Coherent(s) && AllTidy(s) && !Tampers(s, e) && Names(s', j, l, d)
    ensures Names(s, j, l, d) || Brought(s, e, s', j, l, d) || Minted(s, e, s', j, l, d)
  {
    hide Step, Tampers, Brought, Minted, Tidy;
    assert Live(s, j) by { Changes(s, e, s', s.current); }
    if j == s.current && s'.current == s.current {
      OriginStayer(s, e, s', l, d);
    } else if j == s.current {
      OriginLeaver(s, e, s', l, d);
    } else if j == s'.current {
      OriginRunner(s, e, s', l, d);
    } else {
      OriginOther(s, e, s', j, l, d);
    }
  }

  /** A token that a recv brings was pending in one place, which it leaves, or is that
      of a call taken in this step. */
  lemma BroughtFrom(s: State, e: Event, s': State, d: nat)
    requires Takes(s, e, s') && Coherent(s) && AllTidy(s) && Matched(s) && Brings(s, e, s', Reply(d))
    requires exists slot: nat :: EndsRecv(s, e, s', slot)
    ensures || (d == s.current && e.DoCall? && Partner(s, e, s'.current) && s'.current != s.current)
            || (e.DoRecv? && Partner(s, e, d) && TaskAt(s, d).state.role == Call)
            || exists i: nat, k: nat :: k >= CAP_SLOTS && Names(s, i, k, d) && !Names(s', i, k, d)
  {
    hide Step, First, NoneIn, TakenFrom;
    if s'.current == s.current {
      var si: nat :| Partner(s, e, si) && Hands(s, si, Reply(d));
      PartnerWaits(s, e, si);
      if TaskAt(s, si).pendingGrant.Some? {
        OtherIs(s, e, s', si);
        assert Names(s, si, CAP_SLOTS + 1, d) && !Names(s', si, CAP_SLOTS + 1, d);
      }
    } else {
      var n := s'.current;
      RunnerIs(s, e, s');
      assert Tidy(TaskAt(s, n));
      if TaskAt(s, n).pendingGrant.Some? {
        assert Names(s, n, CAP_SLOTS + 1, d) && !Names(s', n, CAP_SLOTS + 1, d);
      } else if TaskAt(s, n).state == Ready {
        assert Names(s, n, CAP_SLOTS, d) && !Names(s', n, CAP_SLOTS, d);
      }
    }
  }

  /** A caller that waits through a step in which a recv ends still waits after it. */
  lemma WaitsOn(s: State, e: Event, s': State, slot: nat, d: nat)
    requires Takes(s, e, s') && EndsRecv(s, e, s', slot) && InState(s, d, AwaitingReply)
    ensures InState(s', d, AwaitingReply)
  {
    hide Step, First, NoneIn, TakenFrom;
    LeaverIs(s, e, s');
    if !InState(s', d, AwaitingReply) {
      CallerLeaves(s, e, s', d);
    }
  }

  lemma SlotFilled(s: State, e: Event, s': State, slot: nat, cap: Capability)
    requires Takes(s, e, s') && EndsRecv(s, e, s', slot) && slot < CAP_SLOTS && Brings(s, e, s', cap)
    ensures Live(s', s'.current) && slot < |TaskAt(s', s'.current).caps|
    ensures TaskAt(s', s'.current).caps[slot] == Some(cap)
  {
    hide Step, First, NoneIn, TakenFrom;
    if s'.current == s.current {
      StayerIs(s, e, s');
      var t, t' := TaskAt(s, s.current), TaskAt(s', s.current);
      var si: nat :| Partner(s, e, si) && Received(s, si, slot, t, t');
      var sj: nat :| Partner(s, e, sj) && Hands(s, sj, cap);
      PartnerOnly(s, e, si, sj);
    } else {
      RunnerIs(s, e, s');
    }
  }

  /** A token that is overwritten is gone for good. */
  lemma Overwritten(s: State, e: Event, s': State, slot: nat, cap: Capability, d: nat)
    requires Takes(s, e, s') && Coherent(s) && AllTidy(s) && Matched(s) && !Tampers(s, e)
    requires EndsRecv(s, e, s', slot) && Brings(s, e, s', cap) && slot < CAP_SLOTS && Names(s, s'.current, slot, d)
    ensures InState(s', d, AwaitingReply) && !Named(s', d)
  {
    hide Step, Tampers, EndsRecv, Brings, Partner, Coherent, AllTidy;
    WaitsOn(s, e, s', slot, d);
    assert d != s.current;
    SlotFilled(s, e, s', slot, cap);
    if Named(s', d) {
      var j: nat, l: nat :| Names(s', j, l, d);
      Origin(s, e, s', j, l, d);
      assert Brings(s, e, s', Reply(d));
      BroughtFrom(s, e, s', d);
      if e.DoRecv? && Partner(s, e, d) {
        PartnerWaits(s, e, d);
      }
      assert false;
    }
  }

  /** A token without a slot is gone for good. */
  lemma Dropped(s: State, e: Event, s': State, slot: nat, d: nat)
    requires Takes(s, e, s') && Coherent(s) && AllTidy(s) && Matched(s) && !Tampers(s, e)
    requires EndsRecv(s, e, s', slot) && Brings(s, e, s', Reply(d)) && slot >= CAP_SLOTS
    ensures InState(s', d, AwaitingReply) && !Named(s', d)
  {
    hide Step, Tampers, Brings, Coherent, AllTidy;
    BroughtFrom(s, e, s', d);
    NowWaits(s, e, s', slot, d);
    if Named(s', d) {
      var j: nat, l: nat :| Names(s', j, l, d);
      Origin(s, e, s', j, l, d);
      if Minted(s, e, s', j, l, d) && Partner(s, e, s'.current) {
        PartnerOnly(s, e, j, s'.current);
      }
      assert false;
    }
  }

  lemma NowWaits(s: State, e: Event, s': State, slot: nat, d: nat)
    requires Takes(s, e, s') && Matched(s) && EndsRecv(s, e, s', slot)
    requires || (d == s.current && e.DoCall? && Partner(s, e, s'.current) && s'.current != s.current)
             || (e.DoRecv? && Partner(s, e, d) && TaskAt(s, d).state.role == Call)
             || Named(s, d)
    ensures InState(s', d, AwaitingReply)
  {
    hide Step, TakenFrom;
    if Named(s, d) {
      WaitsOn(s, e, s', slot, d);
    } else if e.DoCall? {
      LeaverIs(s, e, s');
    } else {
      RecvStays(s, e, s', d);
      PartnerWaits(s, e, d);
      OtherIs(s, e, s', d);
    }
  }

  /** Exactly when a step keeps every waiting caller answerable: when the recv that
      ends in it, if any, overwrites no token and has a slot for the one it brings. */
  lemma AnswerableStep(s: State, e: Event, s': State)
    requires Takes(s, e, s') && Coherent(s) && AllTidy(s) && Matched(s) && !Tampers(s, e) && Answerable(s)
    ensures Answerable(s') <==> !Loses(s, e, s')
  {
    hide Step, Tampers, EndsRecv, Brings, Coherent, AllTidy, Matched;
    if Loses(s, e, s') {
      var slot: nat, cap: Capability :|
        && EndsRecv(s, e, s', slot) && Brings(s, e, s', cap)
        && if slot < CAP_SLOTS then Live(s, s'.current) && ReplyCaller(TaskAt(s, s'.current).caps, slot).Some?
           else cap.Reply?;
      if slot < CAP_SLOTS {
        Overwritten(s, e, s', slot, cap, ReplyCaller(TaskAt(s, s'.current).caps, slot).value);
      } else {
        Dropped(s, e, s', slot, cap.caller);
      }
    } else {
      StaysAnswerable(s, e, s');
    }
  }
}
