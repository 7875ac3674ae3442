/** The crash path: a crash is diagnosed, counted, and reported to the healer
    unless its issue is chronic. */
module Chronic {
  import opened Options
  import K = KernelTypes
  import S = Steps
  import L = Lifecycle
  import Sw = Switching
  import C = Conservation
  import H = Heal
  import M = Memory
  import R = Reboots
  import KbBlock
  import KbVolume
  import Loader
  import opened Bytes

  /** The verdict exit_current takes: the escalated flag of the diagnosed entry,
      read after this diagnosis was counted. */
  predicate Quarantined(table: seq<H.Issue>, cause: H.Cause) {
    match H.Diagnose(table, cause)
    case None => false
    case Some(k) =>
      match H.IndexOf(table, table[k].id, 0)
      case Some(j) => (if j == k then H.Counted(table[k]) else table[k]).escalated
      case None => table[k].escalated
  }

  /** A task waiting for crash reports is left as it is. */
  ghost predicate LeftAlone(s: K.State, o: S.Outcome, i: nat) {
    o.Next? && i < |s.tasks| == |o.state.tasks| ==> o.state.tasks[i] == s.tasks[i]
  }

  /** A quarantined crash wakes no healer and sends nothing. */
  lemma QuarantineSilences(s: K.State, i: nat)
    requires K.WellFormed(s) && K.InState(s, i, K.Blocked(K.CRASH_EP, K.Recv))
    ensures LeftAlone(s, S.CrashStep(s, true), i)
    ensures S.CrashStep(s, true).Next? ==> S.CrashStep(s, true).sent.None?
  {
  }

  /** Task h waits for crash reports, and is the first that does. */
  ghost predicate Healer(s: K.State, h: nat) {
    Sw.First(s, K.Blocked(K.CRASH_EP, K.Recv), h)
  }

  /** A crash is reported if and only if its task is restartable and not
      quarantined: then the first healer that waits runs next, with the task's crash
      badge in its registers. Every other one, and that one otherwise, is left as it
      was. */
  lemma HealerTold(s: K.State, q: bool, s': K.State, h: nat)
    requires S.Takes(s, S.Crash(q), s') && C.Coherent(s) && K.InState(s, h, K.Blocked(K.CRASH_EP, K.Recv))
    ensures s'.current == h <==> K.TaskAt(s, s.current).restartable && !q && Healer(s, h)
    ensures s'.current == h ==>
      K.Live(s', h) && K.TaskAt(s', h).regs == K.Message(K.TaskAt(s, s.current).crashBadge, 0, 0, 0)
    ensures s'.current != h ==> |s'.tasks| == |s.tasks| && s'.tasks[h] == s.tasks[h]
  {
    hide S.SwitchAway, S.FindFrom, Sw.First;
    var me, waits := K.TaskAt(s, s.current), K.Blocked(K.CRASH_EP, K.Recv);
    Sw.FindIs(s, waits);
    assert C.Fits(K.TaskAt(s, h));
    Told(s, q, s');
    Sw.CrashLeaves(s, q);
    if s'.current == h {
      Sw.RunnerIs(s, S.Crash(q), s');
    } else {
      Sw.OtherIs(s, S.Crash(q), s', h);
      L.Changes(s, S.Crash(q), s', h);
    }
  }

  /** Healer i runs next exactly if it is the first, the crashed task is restartable
      and the crash is below the threshold; it then has the task's badge. */
  ghost predicate Notifies(s: K.State, o: S.Outcome, i: nat, below: bool)
    requires K.Live(s, s.current)
  {
    o.Next? && C.Coherent(s) ==>
      && (o.state.current == i <==> K.TaskAt(s, s.current).restartable && below && Healer(s, i))
      && (o.state.current == i ==>
            K.Live(o.state, i) && K.TaskAt(o.state, i).regs == K.Message(K.TaskAt(s, s.current).crashBadge, 0, 0, 0))
  }

  lemma Notified(s: K.State, q: bool, i: nat)
    requires K.WellFormed(s) && K.InState(s, i, K.Blocked(K.CRASH_EP, K.Recv))
    ensures Notifies(s, S.CrashStep(s, q), i, !q)
  {
    hide S.CrashStep, C.Coherent, Healer;
    if S.CrashStep(s, q).Next? && C.Coherent(s) {
      HealerTold(s, q, S.CrashStep(s, q).state, i);
    }
  }

  /** Who runs after a crash. */
  lemma Told(s: K.State, q: bool, s': K.State)
    requires S.Takes(s, S.Crash(q), s')
    ensures var h := S.FindFrom(s.tasks, K.Blocked(K.CRASH_EP, K.Recv), 0);
            if K.TaskAt(s, s.current).restartable && !q && h.Some? then s'.current == h.value
            else K.InState(s, s'.current, K.Ready)
  {
    hide S.SwitchAway, S.FindFrom;
    var me := K.TaskAt(s, s.current);
    match S.HealerFor(s, q)
    case None => L.SwitchStates(s, K.Exited, me.cont, None, None, s.current);
    case Some(h) =>
      var msg := K.Message(me.crashBadge, 0, 0, 0);
      var s1 := K.Put(s, h, K.TaskAt(s, h).(message := msg, state := K.Ready));
      L.SwitchStates(s1, K.Exited, me.cont, Some(h), Some(S.Parcel(S.OnEndpoint(K.CRASH_EP), msg)), s.current);
  }

  /** The crash step of the boot notes exactly this diagnosis. */
  lemma VerdictIsNoted(table: seq<H.Issue>, cause: H.Cause, k: nat)
    requires H.DistinctIds(table) && H.Diagnose(table, cause) == Some(k)
    ensures Quarantined(table, cause) == M.Crashed(table, cause)[k].escalated == H.Counted(table[k]).escalated
  {
    hide H.Counted;
    H.IndexIs(table, k);
  }

  /** In any boot a crash diagnosed to entry k reaches a waiting healer only while
      the entry's diagnoses, this one included and those the disk remembers, are
      fewer than six. */
  lemma ChronicNeverNotifies(s: K.State, r: M.Ram, mems: seq<KbBlock.Mem>, es: seq<M.Event>, n: nat, k: nat,
                             cause: H.Cause, i: nat)
    requires M.Loaded(r, mems) && n <= |es| && H.Diagnose(M.After(r, es, n).table, cause) == Some(k)
    requires K.WellFormed(s) && K.InState(s, i, K.Blocked(K.CRASH_EP, K.Recv))
    ensures k < |mems|
    ensures Quarantined(M.After(r, es, n).table, cause) <==>
      mems[k].escalated || mems[k].seen + M.Count(r.table, es, k, n) + 1 >= H.ESCALATE_AT
    ensures mems[k].escalated || mems[k].seen + M.Count(r.table, es, k, n) + 1 >= H.ESCALATE_AT ==>
      LeftAlone(s, S.CrashStep(s, Quarantined(M.After(r, es, n).table, cause)), i)
  {
    hide S.CrashStep, H.Counted, LeftAlone, Quarantined, H.Diagnose;
    M.EntriesKept(r, es, n);
    VerdictIsNoted(M.After(r, es, n).table, cause, k);
    M.QuarantineExact(r, mems, es, k, n);
    QuarantineSilences(s, i);
  }

  /** Across boots: from a volume of entries, after any drained boots, a crash of
      the next boot diagnosed to entry k is quarantined exactly when it is at least
      the sixth diagnosis of that entry over all boots, or the entry was chronic
      from the start; and then no healer hears of it. Before that the first healer
      that waits hears of every crash of a restartable task. */
  lemma ChronicAcrossBoots(s: K.State, d: Bytes, slots: seq<KbVolume.Slot>, mems: seq<KbBlock.Mem>,
                           boots: seq<seq<M.Event>>, b: nat,
                           es: seq<M.Event>, n: nat, k: nat, cause: H.Cause, i: nat)
    requires KbVolume.VolumeOf(d, slots, mems) && R.DistinctEntries(slots) && R.AllDrained(d, boots) && b <= |boots|
    requires n <= |es|
    requires H.Diagnose(M.After(R.BootRam(R.DiskAt(d, boots, b)), es, n).table, cause) == Some(k)
    requires K.WellFormed(s) && K.InState(s, i, K.Blocked(K.CRASH_EP, K.Recv))
    ensures k < |mems|
    ensures var r := R.BootRam(R.DiskAt(d, boots, b));
            var before := mems[k].seen + R.Total(d, boots, k, b) + M.Count(r.table, es, k, n);
            && (Quarantined(M.After(r, es, n).table, cause) <==> mems[k].escalated || before + 1 >= H.ESCALATE_AT)
            && (mems[k].escalated || before + 1 >= H.ESCALATE_AT ==>
                  LeftAlone(s, S.CrashStep(s, Quarantined(M.After(r, es, n).table, cause)), i))
            && Notifies(s, S.CrashStep(s, Quarantined(M.After(r, es, n).table, cause)), i,
                        !mems[k].escalated && before + 1 < H.ESCALATE_AT)
  {
    hide S.CrashStep, LeftAlone, Notifies, Quarantined, H.Diagnose, KbVolume.VolumeOf, R.DistinctEntries, R.AllDrained,
      M.After, M.Count, M.Loaded, R.DiskAt, R.Total, Loader.LoadDisk;
    R.AcrossBoots(d, slots, mems, boots, b);
    var d', mems' := R.DiskAt(d, boots, b), R.GrownAll(mems, d, boots, b);
    R.BootLoaded(d', slots, mems');
    ChronicNeverNotifies(s, R.BootRam(d'), mems', es, n, k, cause, i);
    Notified(s, Quarantined(M.After(R.BootRam(d'), es, n).table, cause), i);
    Remembered(mems[k], R.Total(d, boots, k, b), M.Count(R.BootRam(d').table, es, k, n));
  }

  /** The cap hides nothing that matters to the threshold. */
  lemma Remembered(m: KbBlock.Mem, a: nat, c: nat)
    ensures var g := M.Grown(m, a);
            g.escalated || g.seen + c + 1 >= H.ESCALATE_AT <==> m.escalated || m.seen + a + c + 1 >= H.ESCALATE_AT
  {
  }
}
