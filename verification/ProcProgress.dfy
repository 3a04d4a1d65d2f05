/**
 Some CPU can always take a step.  Whoever holds the lock of a process waits for
 no other lock; whoever holds wait_lock waits for locks of processes only; and
 threads that hold no lock can go on when all locks are free.
 */
module ProcProgress {
  import opened Proc
  import opened ProcTheorems
  import opened ProcSteps

  /** Thread i waits for no lock: it has the lock of a process, or all locks it could want are free. */
  ghost predicate Unhindered(s: State, i: int)
    requires Shaped(s) && 0 <= i < |s.procs|
  {
    s.thr[i].held != -1 || ((s.wlock == -1 || s.thr[i].w) && forall k | 0 <= k < |s.procs| :: s.plock[k] == -1)
  }

  lemma SwitchCan(s: State, c: int, i: int) returns (s': State)
    requires Shaped(s) && OnCpu(s, c, i) && Unhindered(s, i)
    requires s.thr[i].pc == Sched || s.thr[i].pc == Self || (s.thr[i].pc == Resume && s.thr[i].r != FromExit)
    ensures SwitchStep(s, s', c, i)
  {
    var me, t := s.procs[i], s.thr[i];
    s' := if t.pc == Resume then
        s.(procs := s.procs[i := Awake(me, t.r)], plock := s.plock[i := -1],
           thr := s.thr[i := t.(held := -1, pc := if t.r == FromWaitSleep then WaitStart else User)])
      else if t.pc == Sched then
        s.(thr := s.thr[i := t.(pc := Resume, held := -1)], on := s.on[i := -1],
           cpus := s.cpus[c := s.cpus[c].(at := Back)])
      else
        if t.held == -1 then s.(plock := s.plock[i := c], thr := s.thr[i := t.(held := i)])
        else if t.r == FromYield then
          s.(procs := s.procs[i := me.(state := RUNNABLE)], thr := s.thr[i := t.(pc := Sched)])
        else
          s.(procs := s.procs[i := me.(state := SLEEPING, chan := t.chan)], thr := s.thr[i := t.(pc := Sched)]);
  }

  lemma WakeCan(s: State, c: int, i: int) returns (s': State)
    requires Shaped(s) && OnCpu(s, c, i) && Unhindered(s, i) && s.thr[i].pc == Wake
    ensures WakeStep(s, s', c, i)
  {
    var t := s.thr[i];
    s' := if t.held == -1 then
        if t.j == |s.procs| then s.(thr := s.thr[i := t.(pc := AfterWake(t.cont))])
        else if t.j == i then s.(thr := s.thr[i := t.(j := t.j + 1)])
        else s.(plock := s.plock[t.j := c], thr := s.thr[i := t.(held := t.j)])
      else
        s.(procs := s.procs[t.j := Woken(s.procs[t.j], t.chan)], plock := s.plock[t.j := -1],
           thr := s.thr[i := t.(held := -1, j := t.j + 1)]);
  }

  lemma KillCan(s: State, c: int, i: int) returns (s': State)
    requires Shaped(s) && OnCpu(s, c, i) && Unhindered(s, i) && s.thr[i].pc == Kill
    ensures KillStep(s, s', c, i)
  {
    var t := s.thr[i];
    s' := if t.held == -1 then
        if t.k == |s.procs| then s.(thr := s.thr[i := t.(pc := User)])
        else s.(plock := s.plock[t.k := c], thr := s.thr[i := t.(held := t.k)])
      else if s.procs[t.k].pid == t.pid then
        s.(procs := s.procs[t.k := Hit(s.procs[t.k])], plock := s.plock[t.k := -1],
           thr := s.thr[i := t.(held := -1, pc := User)])
      else
        s.(plock := s.plock[t.k := -1], thr := s.thr[i := t.(held := -1, k := t.k + 1)]);
  }

  lemma ForkCan(s: State, c: int, i: int) returns (s': State)
    requires Shaped(s) && OnCpu(s, c, i) && Unhindered(s, i) && (s.thr[i].pc == ForkScan || Making(s.thr[i]))
    ensures ForkStep(s, s', c, i, false)
  {
    var t := s.thr[i];
    s' := if t.pc == ForkScan then
        if t.held == -1 then
          if t.k == |s.procs| then s.(thr := s.thr[i := t.(pc := User)])
          else s.(plock := s.plock[t.k := c], thr := s.thr[i := t.(held := t.k)])
        else if s.procs[t.k].state == UNUSED then
          s.(procs := s.procs[t.k := s.procs[t.k].(state := USED, pid := s.hist.nextpid)],
             hist := s.hist.(nextpid := s.hist.nextpid + 1),
             thr := s.thr[t.k := FreshThread][i := t.(pc := ForkMade)])
        else
          s.(plock := s.plock[t.k := -1], thr := s.thr[i := t.(held := -1, k := t.k + 1)])
      else if t.pc == ForkMade then s.(plock := s.plock[t.k := -1], thr := s.thr[i := t.(held := -1, pc := ForkPub)])
      else if t.pc == ForkPub then
        if !t.w then s.(wlock := i, thr := s.thr[i := t.(w := true)])
        else
          s.(procs := s.procs[t.k := s.procs[t.k].(parent := i)], wlock := -1,
             thr := s.thr[i := t.(w := false, pc := ForkRun)])
      else
        if t.held == -1 then s.(plock := s.plock[t.k := c], thr := s.thr[i := t.(held := t.k)])
        else
          s.(procs := s.procs[t.k := s.procs[t.k].(state := RUNNABLE)], plock := s.plock[t.k := -1],
             thr := s.thr[i := t.(held := -1, pc := User)]);
  }

  lemma ExitCan(s: State, c: int, i: int) returns (s': State)
    requires Shaped(s) && OnCpu(s, c, i) && Unhindered(s, i)
    requires s.thr[i].pc == ExitStart || s.thr[i].pc == Reparent || s.thr[i].pc == ExitSelf
             || s.thr[i].pc == ExitRelease
    ensures ExitStep(s, s', c, i)
  {
    var me, t := s.procs[i], s.thr[i];
    s' := if t.pc == ExitStart then s.(wlock := i, thr := s.thr[i := t.(pc := Reparent, w := true, k := 0)])
      else if t.pc == Reparent then
        if t.k == |s.procs| then
          s.(thr := s.thr[i := t.(pc := Wake, j := 0, chan := ParentChan(me.parent), cont := ToZombie)])
        else if s.procs[t.k].parent == i then
          s.(procs := s.procs[t.k := s.procs[t.k].(parent := s.init)],
             thr := s.thr[i := t.(pc := Wake, k := t.k + 1, j := 0, chan := OnProc(s.init), cont := ToReparent)])
        else
          s.(thr := s.thr[i := t.(k := t.k + 1)])
      else if t.pc == ExitSelf then
        if t.held == -1 then s.(plock := s.plock[i := c], thr := s.thr[i := t.(held := i)])
        else
          s.(procs := s.procs[i := me.(state := ZOMBIE)], hist := s.hist.(exited := s.hist.exited + {me.pid}),
             thr := s.thr[i := t.(pc := ExitRelease)])
      else s.(wlock := -1, thr := s.thr[i := t.(w := false, r := FromExit, pc := Sched)]);
  }

  lemma WaitScanCan(s: State, c: int, i: int) returns (s': State)
    requires Shaped(s) && OnCpu(s, c, i) && Unhindered(s, i)
    requires s.thr[i].pc == WaitStart || s.thr[i].pc == WaitScan || s.thr[i].pc == WaitKid || s.thr[i].pc == WaitDrop
    ensures WaitStep(s, s', c, i, false)
  {
    var t := s.thr[i];
    s' := if t.pc == WaitStart then s.(wlock := i,
        thr := s.thr[i := t.(pc := WaitScan, w := true, k := 0, have := false)])
      else if t.pc == WaitScan then
        if t.k == |s.procs| then s.(thr := s.thr[i := t.(pc := if t.have then WaitKill else WaitLeave)])
        else if s.procs[t.k].parent == i then s.(thr := s.thr[i := t.(pc := WaitKid)])
        else s.(thr := s.thr[i := t.(k := t.k + 1)])
      else if t.pc == WaitKid then
        if t.held == -1 then s.(plock := s.plock[t.k := c], thr := s.thr[i := t.(held := t.k)])
        else if s.procs[t.k].state != ZOMBIE then
          s.(plock := s.plock[t.k := -1],
             thr := s.thr[i := t.(held := -1, have := true, k := t.k + 1, pc := WaitScan)])
        else
          s.(procs := s.procs[t.k := FreedProcess],
             hist := s.hist.(reaped := s.hist.reaped + [s.procs[t.k].pid]),
             thr := s.thr[i := t.(pc := WaitDrop)])
      else s.(plock := s.plock[t.k := -1], thr := s.thr[i := t.(held := -1, pc := WaitLeave)]);
  }

  lemma WaitSleepCan(s: State, c: int, i: int) returns (s': State)
    requires Shaped(s) && OnCpu(s, c, i) && Unhindered(s, i)
    requires s.thr[i].pc == WaitKill || s.thr[i].pc == WaitLeave || s.thr[i].pc == WaitSleep
    ensures WaitStep(s, s', c, i, false)
  {
    var me, t := s.procs[i], s.thr[i];
    s' := if t.pc == WaitKill then
        if t.held == -1 then s.(plock := s.plock[i := c], thr := s.thr[i := t.(held := i)])
        else
          s.(plock := s.plock[i := -1],
             thr := s.thr[i := t.(held := -1, pc := if me.killed then WaitLeave else WaitSleep)])
      else if t.pc == WaitLeave then s.(wlock := -1, thr := s.thr[i := t.(w := false, pc := User)])
      else
        if t.held == -1 then s.(plock := s.plock[i := c], thr := s.thr[i := t.(held := i)])
        else if t.w then s.(wlock := -1, thr := s.thr[i := t.(w := false)])
        else
          s.(procs := s.procs[i := me.(state := SLEEPING, chan := OnProc(i))],
             thr := s.thr[i := t.(r := FromWaitSleep, pc := Sched)]);
  }

  lemma ThreadCan(s: State, c: int, i: int) returns (s': State)
    requires Shaped(s) && OnCpu(s, c, i) && Unhindered(s, i) && (s.thr[i].pc == Resume ==> s.thr[i].r != FromExit)
    ensures ThreadStep(s, s', c, i)
  {
    hide SwitchStep, WakeStep, KillStep, ForkStep, ExitStep, WaitStep, Unhindered, LocalOk;
    match s.thr[i].pc
    case User =>
      var to := s.thr[i].(pc := WaitStart, held := -1, w := false, k := 0, j := 0, intr := NoIntr);
      s' := s.(thr := s.thr[i := to]);
      assert UserStep(s, s', c, i, to);
    case Resume => s' := SwitchCan(s, c, i);
    case Sched => s' := SwitchCan(s, c, i);
    case Self => s' := SwitchCan(s, c, i);
    case Wake => s' := WakeCan(s, c, i);
    case Kill => s' := KillCan(s, c, i);
    case ForkScan => s' := ForkCan(s, c, i);
    case ForkMade => s' := ForkCan(s, c, i);
    case ForkPub => s' := ForkCan(s, c, i);
    case ForkRun => s' := ForkCan(s, c, i);
    case ExitStart => s' := ExitCan(s, c, i);
    case Reparent => s' := ExitCan(s, c, i);
    case ExitSelf => s' := ExitCan(s, c, i);
    case ExitRelease => s' := ExitCan(s, c, i);
    case WaitStart => s' := WaitScanCan(s, c, i);
    case WaitScan => s' := WaitScanCan(s, c, i);
    case WaitKid => s' := WaitScanCan(s, c, i);
    case WaitDrop => s' := WaitScanCan(s, c, i);
    case WaitKill => s' := WaitSleepCan(s, c, i);
    case WaitLeave => s' := WaitSleepCan(s, c, i);
    case WaitSleep => s' := WaitSleepCan(s, c, i);
  }

  lemma IntrCan(s: State, c: int, i: int) returns (s': State, j: int)
    requires Shaped(s) && Executes(s, c, i) && s.thr[i].intr != NoIntr
    ensures 0 <= j < |s.procs| && IntrStep(s, s', c, i, j, 0)
  {
    var me, t := s.procs[i], s.thr[i];
    j := if t.intr == Waking then t.held else i;
    s' := if t.intr == Waking then
        s.(procs := s.procs[j := Woken(s.procs[j], OnOther(0))], plock := s.plock[j := -1],
           thr := s.thr[i := t.(held := -1, intr := NoIntr)])
      else if t.intr == Yielding then s.(procs := s.procs[i := me.(state := RUNNABLE)],
          thr := s.thr[i := t.(intr := Switching)])
      else if t.intr == Switching then
        s.(thr := s.thr[i := t.(intr := Parked, held := -1)], on := s.on[i := -1],
           cpus := s.cpus[c := s.cpus[c].(at := Back)])
      else s.(plock := s.plock[i := -1], thr := s.thr[i := t.(held := -1, intr := NoIntr)]);
  }

  lemma SchedulerCan(s: State, c: int) returns (s': State)
    requires Shaped(s) && 0 <= c < |s.cpus| && s.cpus[c].at != Run
    requires s.cpus[c].at == Scan ==> s.plock[s.cpus[c].k] == -1
    ensures CpuStep(s, s', c)
  {
    var cpu := s.cpus[c];
    var k := cpu.k;
    var next := if k + 1 == |s.procs| then 0 else k + 1;
    match cpu.at
    case Scan =>
      s' := s.(plock := s.plock[k := c], cpus := s.cpus[c := cpu.(at := Have)]);
      assert SchedulerStep(s, s', c);
    case Have =>
      s' := if s.procs[k].state == RUNNABLE then
          s.(procs := s.procs[k := s.procs[k].(state := RUNNING)], thr := s.thr[k := s.thr[k].(held := k)],
             on := s.on[k := c], cpus := s.cpus[c := cpu.(proc := k, at := Run)])
        else s.(plock := s.plock[k := -1], cpus := s.cpus[c := cpu.(at := Scan, k := next)]);
      assert SchedulerStep(s, s', c);
    case Back =>
      s' := s.(cpus := s.cpus[c := cpu.(proc := -1, at := Drop)]);
      assert SchedulerStep(s, s', c);
    case Drop =>
      s' := s.(plock := s.plock[k := -1], cpus := s.cpus[c := cpu.(at := Scan, k := next)]);
      assert SchedulerStep(s, s', c);
    case Visit =>
      s' := s.(procs := s.procs[cpu.v := Woken(s.procs[cpu.v], OnOther(0))], plock := s.plock[cpu.v := -1],
               cpus := s.cpus[c := cpu.(at := Scan)]);
      assert IdleWakeStep(s, s', c, cpu.v, 0);
  }

  /** A CPU that executes an unhindered thread can go on. */
  lemma RunningCan(s: State, c: int, i: int) returns (s': State)
    requires Inv(s) && 0 <= c < |s.cpus| && 0 <= i < |s.procs| && s.on[i] == c && Unhindered(s, i)
    ensures CpuStep(s, s', c)
  {
    hide LockInv, WaitLockInv, ParentInv, ExitInv, ForkInv, ScanInv, WakeInv, PidInv, ThreadStep, IntrStep, Unhindered,
         LocalOk;
    assert s.cpus[c].at == Run && s.cpus[c].k == i && LocalOk(|s.procs|, i, s.thr[i]);
    assert StateOk(i, s.procs[i], s.thr[i], c);
    if s.thr[i].intr == NoIntr {
      s' := ThreadCan(s, c, i);
    } else {
      var j;
      s', j := IntrCan(s, c, i);
    }
  }

  /** Who holds wait_lock is executed by some CPU. */
  lemma HolderRuns(s: State)
    requires Inv(s) && s.wlock != -1
    ensures s.on[s.wlock] != -1 && s.thr[s.wlock].w
  {
    hide LockInv, CpuInv, ParentInv, ExitInv, ForkInv, ScanInv, WakeInv, PidInv;
    assert StateOk(s.wlock, s.procs[s.wlock], s.thr[s.wlock], s.on[s.wlock]);
    assert LocalOk(|s.procs|, s.wlock, s.thr[s.wlock]);
  }

  /** The CPU that holds the lock of a process can go on. */
  lemma LockerCan(s: State, k: int) returns (s': State)
    requires Inv(s) && 0 <= k < |s.procs| && s.plock[k] != -1
    ensures CpuStep(s, s', s.plock[k])
  {
    hide LocalInv, StateInv, WaitLockInv, ParentInv, ExitInv, ForkInv, ScanInv, WakeInv, PidInv, CpuStep;
    var c := s.plock[k];
    if s.cpus[c].at == Run {
      s' := RunningCan(s, c, s.cpus[c].k);
    } else {
      s' := SchedulerCan(s, c);
    }
  }

  /** In every state of every run, some CPU can take a step. */
  lemma NoDeadlock(run: seq<State>, a: nat) returns (s': State)
    requires IsRun(run) && a < |run| && 0 < |run[a].cpus|
    ensures Next(run[a], s')
  {
    hide IsRun, CpuStep, LocalInv, LockInv, StateInv, WaitLockInv, ParentInv, ExitInv, ForkInv, ScanInv, WakeInv,
         PidInv;
    RunInv(run, a);
    var s := run[a];
    if k :| 0 <= k < |s.procs| && s.plock[k] != -1 {
      s' := LockerCan(s, k);
    } else if s.wlock != -1 {
      HolderRuns(s);
      s' := RunningCan(s, s.on[s.wlock], s.wlock);
    } else if s.cpus[0].at == Run {
      s' := RunningCan(s, 0, s.cpus[0].k);
    } else {
      s' := SchedulerCan(s, 0);
    }
  }
}
