/**
 Every run of module Proc keeps the invariant, and what that means for wait(),
 exit() and the scheduler.
 */
module ProcTheorems {
  import opened Proc
  import opened ProcRule
  import opened ProcMoves

  // ---------- The scheduler and swtch ----------

  ghost predicate TableInv(s: State)
    requires Shaped(s)
  {
    && LocalInv(s) && WaitLockInv(s) && ParentInv(s) && ExitInv(s) && ForkInv(s) && ScanInv(s) && WakeInv(s)
        && PidInv(s)
  }

  ghost predicate SameTable(a: State, b: State) {
    b.procs == a.procs && b.thr == a.thr && b.wlock == a.wlock && b.init == a.init && b.hist == a.hist
  }

  /** Most of the invariant does not mention CPUs and process locks. */
  lemma CpuFrame(a: State, b: State)
    requires Shaped(a) && Shaped(b) && TableInv(a) && SameTable(a, b)
    ensures TableInv(b)
  {
    hide LocalInv, WaitLockInv, ParentInv, ExitInv, ForkInv, ScanInv, WakeInv, PidInv;
    CpuFrameLocal(a, b);
    CpuFrameExit(a, b);
    CpuFrameWake(a, b);
  }

  lemma CpuFrameLocal(a: State, b: State)
    requires Shaped(a) && Shaped(b) && SameTable(a, b)
    requires LocalInv(a) && WaitLockInv(a) && ParentInv(a) && PidInv(a)
    ensures LocalInv(b) && WaitLockInv(b) && ParentInv(b) && PidInv(b)
  {
    hide LocalOk, PidOk;
  }

  lemma CpuFrameExit(a: State, b: State)
    requires Shaped(a) && Shaped(b) && SameTable(a, b)
    requires ExitInv(a) && ForkInv(a)
    ensures ExitInv(b) && ForkInv(b)
  {
    hide Given, Exiting, Making;
  }

  lemma CpuFrameWake(a: State, b: State)
    requires Shaped(a) && Shaped(b) && SameTable(a, b)
    requires ScanInv(a) && WakeInv(a)
    ensures ScanInv(b) && WakeInv(b)
  {
    hide Seen, HasWoken, WillWake, Asleep;
    forall x | 0 <= x < |b.procs| && b.procs[x].state == ZOMBIE && b.procs[x].parent != -1
      ensures NotLost(b, b.procs[x].parent)
    {
      assert NotLost(a, a.procs[x].parent);
    }
    forall e, i | 0 <= e < |b.procs| && 0 <= i < |b.procs| && HasWoken(b.thr[e], i, b.procs[e].parent)
      ensures !AsleepIn(b, i)
    {
      assert !AsleepIn(a, i);
    }
  }

  /** The thread goes into swtch, or comes out of it with p->lock held. */
  predicate InSwtch(i: int, t: Thread, t': Thread) {
    && (t'.held == -1 || t'.held == i)
    && (Place(t) == Sched || Place(t) == Resume) && t.intr != Waking
    && t' == if t.intr == NoIntr then t.(pc := Resume, held := t'.held) else t.(intr := Parked, held := t'.held)
  }

  /** Entering or leaving swtch changes nothing in the table that other processes care about. */
  lemma SwtchTable(s: State, i: int, t: Thread, q: Process)
    requires Inv(s) && 0 <= i < |s.procs| && InSwtch(i, s.thr[i], t)
    requires q == s.procs[i] || (s.procs[i].state == RUNNABLE && q == s.procs[i].(state := RUNNING))
    ensures Applies(s, Go(s, i, t).(q := q)) && Shaped(Apply(s, Go(s, i, t).(q := q)))
    ensures TableInv(Apply(s, Go(s, i, t).(q := q)))
  {
    hide CpuInv, LockInv, StateInv, WaitLockInv, ParentInv, ExitInv, ForkInv, ScanInv, WakeInv, PidInv;
    var u := Go(s, i, t).(q := q);
    ApplyShaped(s, u);
    SwtchMoves(s, u);
    KeepLocal(s, u);
    KeepWaitLock(s, u);
    KeepParent(s, u);
    KeepExit(s, u);
    KeepFork(s, u);
    KeepScan(s, u);
    KeepWake(s, u);
    KeepPid(s, u);
  }

  lemma SwtchMoves(s: State, u: Update)
    requires Inv(s) && Applies(s, u) && Shaped(Apply(s, u))
    requires u == Go(s, u.i, u.t).(q := u.q)
    requires InSwtch(u.i, s.thr[u.i], u.t)
    requires u.q == s.procs[u.i] || (s.procs[u.i].state == RUNNABLE && u.q == s.procs[u.i].(state := RUNNING))
    ensures LocalOk(|s.procs|, u.i, u.t) && WaitLockMove(s, u) && ParentMove(s, u) && ExitMove(s, u)
    ensures ForkMove(s, u) && ScanMove(s, u) && WakeMove(s, u) && PidMove(s, u)
  {
    hide CpuInv, LockInv, StateInv, WaitLockInv, ParentInv, ExitInv, ForkInv, ScanInv, WakeInv, ExitMove, ForkMove;
    assert LocalOk(|s.procs|, u.i, s.thr[u.i]);
    assert PidOk(s.procs[u.i], s.hist);
    SwtchCode(s, u);
  }

  lemma SwtchCode(s: State, u: Update)
    requires Shaped(s) && ExitInv(s) && ForkInv(s) && Applies(s, u)
    requires u == Go(s, u.i, u.t).(q := u.q)
    requires InSwtch(u.i, s.thr[u.i], u.t)
    requires u.q == s.procs[u.i] || (s.procs[u.i].state == RUNNABLE && u.q == s.procs[u.i].(state := RUNNING))
    ensures ExitMove(s, u) && ForkMove(s, u)
  {
    hide ChanOk;
    if s.thr[u.i].intr != NoIntr {
      SameCounts(|s.procs|, s.thr[u.i], u.t);
      SameChan(s, u.i, s.thr[u.i], u.t);
    }
  }

  /** The thread of i leaves CPU c by swtch, in sched() or in a yield() that an interrupt made it call. */
  ghost predicate SwtchOut(s: State, s': State, c: int, i: int)
    requires Shaped(s) && Executes(s, c, i)
  {
    && |s'.thr| == |s.thr| && Place(s.thr[i]) == Sched && s.thr[i].held == i && InSwtch(i, s.thr[i], s'.thr[i])
    && s'.thr[i].held == -1
    && s' == s.(thr := s.thr[i := s'.thr[i]], on := s.on[i := -1], cpus := s.cpus[c := s.cpus[c].(at := Back)])
  }

  /** p is switched out: the lock it holds now belongs to the scheduler of the same CPU. */
  lemma SwtchOutInv(s: State, s': State, c: int, i: int)
    requires Inv(s) && Executes(s, c, i) && SwtchOut(s, s', c, i)
    ensures Inv(s')
  {
    hide LocalInv, CpuInv, LockInv, StateInv, WaitLockInv, ParentInv, ExitInv, ForkInv, ScanInv, WakeInv, PidInv;
    var t := s'.thr[i];
    SwtchTable(s, i, t, s.procs[i]);
    SwtchOutCpu(s, s', c, i);
    CpuFrame(Apply(s, Go(s, i, t).(q := s.procs[i])), s');
  }

  lemma SwtchOutCpu(s: State, s': State, c: int, i: int)
    requires Shaped(s) && CpuInv(s) && LockInv(s) && StateInv(s) && Executes(s, c, i)
    requires SwtchOut(s, s', c, i)
    ensures Shaped(s') && CpuInv(s') && LockInv(s') && StateInv(s')
  {
    hide StateOk, LocalOk;
    assert s.on[i] == c && s.plock[i] == c;
    SwtchOutState(s, s', c, i);
    assert forall j | 0 <= j < |s.procs| && s.on[j] == c :: j == i by {
      forall j | 0 <= j < |s.procs| && s.on[j] == c ensures j == i {
        assert s.cpus[s.on[j]].k == j;
      }
    }
  }

  lemma SwtchOutState(s: State, s': State, c: int, i: int)
    requires Shaped(s) && StateInv(s) && Executes(s, c, i) && s.on[i] == c
    requires SwtchOut(s, s', c, i)
    ensures Shaped(s') && StateInv(s')
  {
    assert StateOk(i, s.procs[i], s.thr[i], s.on[i]);
  }

  /** A process found RUNNABLE under its lock is in swtch, on no CPU. */
  lemma RunnableIsParked(s: State, c: int)
    requires Inv(s) && 0 <= c < |s.cpus| && s.cpus[c].at == Have && s.procs[s.cpus[c].k].state == RUNNABLE
    ensures var k := s.cpus[c].k;
            && s.on[k] == -1 && s.plock[k] == c && s.thr[k].held == -1 && !s.thr[k].w
            && Place(s.thr[k]) == Resume && s.thr[k].intr != Waking && Returns(s.thr[k]) != FromExit
  {
    hide WaitLockInv, ParentInv, ExitInv, ForkInv, ScanInv, WakeInv, PidInv;
    var k := s.cpus[c].k;
    assert StateOk(k, s.procs[k], s.thr[k], s.on[k]) && LocalOk(|s.procs|, k, s.thr[k]);
    assert s.plock[k] == c;
    assert s.on[k] != c;
  }

  lemma SchedulerInv(s: State, s': State, c: int)
    requires Inv(s) && 0 <= c < |s.cpus| && SchedulerStep(s, s', c)
    ensures Inv(s')
  {
    hide LocalInv, CpuInv, LockInv, StateInv, WaitLockInv, ParentInv, ExitInv, ForkInv, ScanInv, WakeInv, PidInv;
    var k := s.cpus[c].k;
    if s.cpus[c].at == Have && s.procs[k].state == RUNNABLE {
      RunnableIsParked(s, c);
      var t, q := s.thr[k].(held := k), s.procs[k].(state := RUNNING);
      SwtchTable(s, k, t, q);
      SchedulerRunCpu(s, s', c);
      CpuFrame(Apply(s, Go(s, k, t).(q := q)), s');
    } else {
      SchedulerScanCpu(s, s', c);
      CpuFrame(s, s');
    }
  }

  lemma SchedulerRunCpu(s: State, s': State, c: int)
    requires Shaped(s) && CpuInv(s) && LockInv(s) && StateInv(s) && 0 <= c < |s.cpus| && SchedulerStep(s, s', c)
    requires s.cpus[c].at == Have && s.procs[s.cpus[c].k].state == RUNNABLE
    requires var k := s.cpus[c].k;
             s.on[k] == -1 && Place(s.thr[k]) == Resume && Returns(s.thr[k]) != FromExit && s.plock[k] == c
    ensures Shaped(s') && CpuInv(s') && LockInv(s') && StateInv(s')
  {
    hide StateOk, CpuInv, LockInv, StateInv;
    SchedulerRunProc(s, s', c);
    SchedulerRunLock(s, s', c);
    SchedulerRunState(s, s', c);
  }

  lemma SchedulerRunProc(s: State, s': State, c: int)
    requires Shaped(s) && CpuInv(s) && LockInv(s) && StateInv(s) && 0 <= c < |s.cpus| && SchedulerStep(s, s', c)
    requires s.cpus[c].at == Have && s.procs[s.cpus[c].k].state == RUNNABLE
    requires var k := s.cpus[c].k;
             s.on[k] == -1 && Place(s.thr[k]) == Resume && Returns(s.thr[k]) != FromExit && s.plock[k] == c
    ensures Shaped(s') && CpuInv(s')
  {
    hide StateOk;
    assert forall j | 0 <= j < |s.procs| :: s.on[j] != c;
  }

  lemma SchedulerRunLock(s: State, s': State, c: int)
    requires Shaped(s) && CpuInv(s) && LockInv(s) && StateInv(s) && 0 <= c < |s.cpus| && SchedulerStep(s, s', c)
    requires s.cpus[c].at == Have && s.procs[s.cpus[c].k].state == RUNNABLE
    requires var k := s.cpus[c].k;
             s.on[k] == -1 && Place(s.thr[k]) == Resume && Returns(s.thr[k]) != FromExit && s.plock[k] == c
    ensures Shaped(s') && LockInv(s')
  {
    hide StateOk, StateInv;
    assert forall j | 0 <= j < |s.procs| :: s.on[j] != c;
  }

  lemma SchedulerRunState(s: State, s': State, c: int)
    requires Shaped(s) && StateInv(s) && 0 <= c < |s.cpus| && SchedulerStep(s, s', c)
    requires s.cpus[c].at == Have && s.procs[s.cpus[c].k].state == RUNNABLE
    requires Place(s.thr[s.cpus[c].k]) == Resume && Returns(s.thr[s.cpus[c].k]) != FromExit
    ensures Shaped(s') && StateInv(s')
  {
    hide SleepOk;
  }

  lemma SchedulerScanCpu(s: State, s': State, c: int)
    requires Shaped(s) && CpuInv(s) && LockInv(s) && StateInv(s) && 0 <= c < |s.cpus| && SchedulerStep(s, s', c)
    requires !(s.cpus[c].at == Have && s.procs[s.cpus[c].k].state == RUNNABLE)
    ensures Shaped(s') && CpuInv(s') && LockInv(s') && StateInv(s')
  {
    hide StateInv, LockInv;
    SchedulerScanAt(s, s', c);
    SchedulerScanLock(s, s', c);
  }

  lemma SchedulerScanAt(s: State, s': State, c: int)
    requires Shaped(s) && CpuInv(s) && StateInv(s) && 0 <= c < |s.cpus| && SchedulerStep(s, s', c)
    requires !(s.cpus[c].at == Have && s.procs[s.cpus[c].k].state == RUNNABLE)
    ensures Shaped(s') && CpuInv(s') && StateInv(s')
  {
    hide StateOk;
  }

  lemma SchedulerScanLock(s: State, s': State, c: int)
    requires Shaped(s) && Shaped(s') && CpuInv(s) && LockInv(s) && 0 <= c < |s.cpus| && SchedulerStep(s, s', c)
    requires !(s.cpus[c].at == Have && s.procs[s.cpus[c].k].state == RUNNABLE)
    ensures LockInv(s')
  {
    hide CpuInv, LockInv;
    if s.cpus[c].at == Scan {
      TakesLock(s, s', c);
    } else if s.cpus[c].at == Back {
      KeepsLock(s, s', c);
    } else {
      DropsLock(s, s', c);
    }
  }

  lemma TakesLock(s: State, s': State, c: int)
    requires Shaped(s) && Shaped(s') && CpuInv(s) && LockInv(s) && 0 <= c < |s.cpus| == |s'.cpus|
             && s.cpus[c].at == Scan
    requires |s'.procs| == |s.procs| && s'.cpus[c].at != Scan && s'.cpus[c].at != Run
             && s.plock[Locked(s'.cpus[c])] == -1
    requires s' == s.(plock := s.plock[Locked(s'.cpus[c]) := c], cpus := s.cpus[c := s'.cpus[c]])
    ensures LockInv(s')
  {
    assert forall i | 0 <= i < |s.procs| :: s.on[i] != c;
  }

  lemma DropsLock(s: State, s': State, c: int)
    requires Shaped(s) && Shaped(s') && CpuInv(s) && LockInv(s) && 0 <= c < |s.cpus| == |s'.cpus|
    requires s.cpus[c].at != Scan && s.cpus[c].at != Run && s'.cpus[c].at == Scan
    requires s' == s.(plock := s.plock[Locked(s.cpus[c]) := -1], cpus := s.cpus[c := s'.cpus[c]])
    ensures LockInv(s')
  {
    assert forall i | 0 <= i < |s.procs| :: s.on[i] != c;
  }

  lemma KeepsLock(s: State, s': State, c: int)
    requires Shaped(s) && Shaped(s') && LockInv(s) && 0 <= c < |s.cpus| == |s'.cpus|
    requires s.cpus[c].at != Scan && s.cpus[c].at != Run && s'.cpus[c].at != Scan && s'.cpus[c].at != Run
    requires Locked(s'.cpus[c]) == Locked(s.cpus[c]) && s' == s.(cpus := s.cpus[c := s'.cpus[c]])
    ensures LockInv(s')
  {
  }

  // ---------- Interrupts in scheduler() ----------

  lemma IdleWakeInv(s: State, s': State, c: int, j: int, x: int)
    requires Inv(s) && 0 <= c < |s.cpus| && 0 <= j < |s.procs| && IdleWakeStep(s, s', c, j, x)
    ensures Inv(s')
  {
    hide LocalInv, CpuInv, LockInv, StateInv, WaitLockInv, ParentInv, ExitInv, ForkInv, ScanInv, WakeInv, PidInv;
    if s.cpus[c].at == Scan {
      IdleTakeCpu(s, s', c, j, x);
      CpuFrame(s, s');
    } else {
      VisitInv(s, c, j, x);
      var r := s.(procs := s.procs[j := Woken(s.procs[j], OnOther(x))]);
      IdleDropCpu(r, s', c, j);
      CpuFrame(r, s');
    }
  }

  lemma IdleTakeCpu(s: State, s': State, c: int, j: int, x: int)
    requires Shaped(s) && CpuInv(s) && LockInv(s) && StateInv(s) && 0 <= c < |s.cpus| && 0 <= j < |s.procs|
    requires IdleWakeStep(s, s', c, j, x) && s.cpus[c].at == Scan
    ensures Shaped(s') && CpuInv(s') && LockInv(s') && StateInv(s')
  {
    hide StateOk, LockInv;
    TakesLock(s, s', c);
  }

  lemma IdleDropCpu(s: State, s': State, c: int, j: int)
    requires Shaped(s) && CpuInv(s) && LockInv(s) && StateInv(s) && 0 <= c < |s.cpus| && s.cpus[c].at == Visit
             && s.cpus[c].v == j
    requires s' == s.(plock := s.plock[j := -1], cpus := s.cpus[c := s.cpus[c].(at := Scan)])
    ensures Shaped(s') && CpuInv(s') && LockInv(s') && StateInv(s')
  {
    hide StateOk, LockInv;
    DropsLock(s, s', c);
  }

  /** The handler wakes process j, whose lock it holds. */
  lemma VisitInv(s: State, c: int, j: int, x: int)
    requires Inv(s) && 0 <= c < |s.cpus| && s.cpus[c].at == Visit && s.cpus[c].v == j
    ensures Inv(s.(procs := s.procs[j := Woken(s.procs[j], OnOther(x))]))
  {
    hide WaitLockInv, ParentInv, ExitInv, ForkInv, ScanInv, WakeInv, PidInv, StateOk, LocalOk;
    assert s.plock[j] == c && s.on[j] != c && s.thr[j].held != j;
    assert StateOk(j, s.procs[j], s.thr[j], s.on[j]) && LocalOk(|s.procs|, j, s.thr[j]);
    var u := Go(s, j, s.thr[j]).(q := Woken(s.procs[j], OnOther(x)));
    VisitMove(s, j, x);
    UpdateInv(s, u);
    assert s.(procs := s.procs[j := u.q]) == Apply(s, u);
  }

  lemma VisitMove(s: State, j: int, x: int)
    requires Inv(s) && 0 <= j < |s.procs| && s.thr[j].held != j
    requires StateOk(j, s.procs[j], s.thr[j], s.on[j]) && LocalOk(|s.procs|, j, s.thr[j])
    ensures var u := Go(s, j, s.thr[j]).(q := Woken(s.procs[j], OnOther(x))); Applies(s, u) && MoveOk(s, u)
  {
    hide CpuInv, LockInv, LocalInv, StateInv, StateOk, LocalOk, WakeInv, WakeMove;
    var u := Go(s, j, s.thr[j]).(q := Woken(s.procs[j], OnOther(x)));
    ApplyShaped(s, u);
    WokenKeeps(|s.procs|, j, s.procs[j], s.thr[j], s.on[j], OnOther(x));
    assert PidOk(s.procs[j], s.hist);
    assert LockMove(s, u) && WaitLockMove(s, u) && StateMove(s, u) && ParentMove(s, u) && PidMove(s, u);
    assert ExitMove(s, u) && ForkMove(s, u) && ScanMove(s, u);
    VisitWakes(s, j, x);
  }

  lemma VisitWakes(s: State, j: int, x: int)
    requires Inv(s) && 0 <= j < |s.procs| && s.thr[j].held != j
    requires StateOk(j, s.procs[j], s.thr[j], s.on[j]) && LocalOk(|s.procs|, j, s.thr[j])
    requires var u := Go(s, j, s.thr[j]).(q := Woken(s.procs[j], OnOther(x))); Applies(s, u) && Shaped(Apply(s, u))
    ensures WakeMove(s, Go(s, j, s.thr[j]).(q := Woken(s.procs[j], OnOther(x))))
  {
    hide CpuInv, LockInv, LocalInv, StateInv, StateOk, LocalOk, ExitInv, ForkInv, ScanInv, ParentInv, PidInv, HasWoken,
         Asleep, AsleepIn;
    var u := Go(s, j, s.thr[j]).(q := Woken(s.procs[j], OnOther(x)));
    WokenKeeps(|s.procs|, j, s.procs[j], s.thr[j], s.on[j], OnOther(x));
    forall p | 0 <= p < |s.procs| ensures AsleepIn(Apply(s, u), p) ==> AsleepIn(s, p) {
      AsleepAfter(s, u, p);
    }
  }

  // ---------- Interrupts in threads ----------

  lemma IntrInv(s: State, s': State, c: int, i: int, j: int, x: int)
    requires Inv(s) && Executes(s, c, i) && 0 <= j < |s.procs| && IntrStep(s, s', c, i, j, x)
    ensures Inv(s')
  {
    hide LocalInv, CpuInv, LockInv, StateInv, WaitLockInv, ParentInv, ExitInv, ForkInv, ScanInv, WakeInv, PidInv, Here,
         MoveOk, LocalOk;
    var t := s.thr[i];
    HereFromInv(s, c, i, i);
    HereFacts(s, c, i, i);
    match t.intr
    case NoIntr =>
      var u := Go(s, i, t.(held := j, intr := if j == i then Yielding else Waking)).(m := j, v := c);
      IntrAcquireMove(s, c, i, u);
      StepInv(s, u, s');
    case Waking =>
      HereFromInv(s, c, i, j);
      var u := Go(s, i, t.(held := -1, intr := NoIntr)).(k := j, q := Woken(s.procs[j], OnOther(x)), m := j, v := -1);
      IntrWakeMove(s, c, i, u, x);
      StepInv(s, u, s');
    case Yielding =>
      var u := Go(s, i, t.(intr := Switching)).(q := s.procs[i].(state := RUNNABLE));
      IntrYieldMove(s, c, i, u);
      StepInv(s, u, s');
    case Switching =>
      SwitchingHolds(|s.procs|, i, t);
      SwtchOutInv(s, s', c, i);
    case Parked =>
      var u := Go(s, i, t.(held := -1, intr := NoIntr)).(m := i, v := -1);
      IntrReturnMove(s, c, i, u);
      StepInv(s, u, s');
  }

  lemma SwitchingHolds(n: nat, i: int, t: Thread)
    requires LocalOk(n, i, t) && t.intr == Switching
    ensures t.held == i
  {
  }

  // ---------- Thread steps ----------

  lemma StepInv(s: State, u: Update, s': State)
    requires Inv(s) && MoveOk(s, u)
    requires s'.thr == s.thr[u.i := u.t] && s'.procs == s.procs[u.k := u.q] && s'.plock == s.plock[u.m := u.v]
    requires s'.wlock == u.w && s'.hist == u.h && s'.on == s.on && s'.cpus == s.cpus && s'.init == s.init
    ensures Inv(s')
  {
    hide LocalInv, CpuInv, LockInv, StateInv, WaitLockInv, ParentInv, ExitInv, ForkInv, ScanInv, WakeInv, PidInv;
    UpdateInv(s, u);
    assert s' == Apply(s, u);
  }

  lemma UserInv(s: State, s': State, c: int, i: int, to: Thread)
    requires Inv(s) && OnCpu(s, c, i) && UserStep(s, s', c, i, to)
    ensures Inv(s')
  {
    hide LocalInv, CpuInv, LockInv, StateInv, WaitLockInv, ParentInv, ExitInv, ForkInv, ScanInv, WakeInv, PidInv, Here,
         MoveOk;
    HereFromInv(s, c, i, i);
    UserMove(s, s', c, i, to);
    StepInv(s, Go(s, i, to), s');
  }

  lemma SwitchInv(s: State, s': State, c: int, i: int)
    requires Inv(s) && OnCpu(s, c, i) && SwitchStep(s, s', c, i)
    ensures Inv(s')
  {
    hide LocalInv, CpuInv, LockInv, StateInv, WaitLockInv, ParentInv, ExitInv, ForkInv, ScanInv, WakeInv, PidInv, Here,
         MoveOk;
    var t, n := s.thr[i], |s.procs|;
    HereFromInv(s, c, i, i);
    if t.pc == Sched {
      SchedHolds(|s.procs|, i, t);
      SwtchOutInv(s, s', c, i);
    } else if t.pc == Self && t.held == -1 {
      AcquireMove(s, c, i, t, i);
      StepInv(s, Go(s, i, t.(held := i)).(m := i, v := c), s');
    } else if t.pc == Self {
      var q := if t.r == FromYield then s.procs[i].(state := RUNNABLE)
          else s.procs[i].(state := SLEEPING, chan := t.chan);
      var u := Go(s, i, t.(pc := Sched)).(q := q);
      SelfMove(s, c, i, t, u);
      StepInv(s, u, s');
    } else {
      var u := Go(s, i, t.(held := -1, pc := if t.r == FromWaitSleep then WaitStart else User))
               .(q := Awake(s.procs[i], t.r), m := i, v := -1);
      ResumeMove(s, c, i, t, u);
      StepInv(s, u, s');
    }
  }

  lemma SchedHolds(n: nat, i: int, t: Thread)
    requires LocalOk(n, i, t) && t.intr == NoIntr && t.pc == Sched
    ensures t.held == i
  {
  }

  lemma WakeStepInv(s: State, s': State, c: int, i: int)
    requires Inv(s) && OnCpu(s, c, i) && WakeStep(s, s', c, i)
    ensures Inv(s')
  {
    hide LocalInv, CpuInv, LockInv, StateInv, WaitLockInv, ParentInv, ExitInv, ForkInv, ScanInv, WakeInv, PidInv, Here,
         MoveOk;
    var t, n := s.thr[i], |s.procs|;
    HereFromInv(s, c, i, if t.held == -1 then i else t.held);
    if t.held == -1 && t.j < n && t.j != i {
      AcquireMove(s, c, i, t, t.j);
      StepInv(s, Go(s, i, t.(held := t.j)).(m := t.j, v := c), s');
    } else if t.held == -1 {
      var u := Go(s, i, if t.j == n then t.(pc := AfterWake(t.cont)) else t.(j := t.j + 1));
      WakeEndMove(s, c, i, t, u);
      StepInv(s, u, s');
    } else {
      var u := Go(s, i, t.(held := -1, j := t.j + 1)).(k := t.held, q := Woken(s.procs[t.held], t.chan), m := t.held,
          v := -1);
      WakeDeliverMove(s, c, i, t, u);
      StepInv(s, u, s');
    }
  }

  lemma KillInv(s: State, s': State, c: int, i: int)
    requires Inv(s) && OnCpu(s, c, i) && KillStep(s, s', c, i)
    ensures Inv(s')
  {
    hide LocalInv, CpuInv, LockInv, StateInv, WaitLockInv, ParentInv, ExitInv, ForkInv, ScanInv, WakeInv, PidInv, Here,
         MoveOk;
    var t, n := s.thr[i], |s.procs|;
    HereFromInv(s, c, i, i);
    if t.held == -1 && t.k < n {
      AcquireMove(s, c, i, t, t.k);
      StepInv(s, Go(s, i, t.(held := t.k)).(m := t.k, v := c), s');
    } else if t.held == -1 {
      var u := Go(s, i, t.(pc := User));
      ScanEndMove(s, c, i, t, u);
      StepInv(s, u, s');
    } else if s.procs[t.k].pid == t.pid {
      HereFromInv(s, c, i, t.held);
      var u := Go(s, i, t.(held := -1, pc := User)).(k := t.held, q := Hit(s.procs[t.held]), m := t.held, v := -1);
      KillHitMove(s, c, i, t, u);
      StepInv(s, u, s');
    } else {
      var u := Go(s, i, t.(held := -1, k := t.k + 1)).(m := t.held, v := -1);
      ScanNextMove(s, c, i, t, u);
      StepInv(s, u, s');
    }
  }

  lemma ForkScanInv(s: State, s': State, c: int, i: int, fails: bool)
    requires Inv(s) && OnCpu(s, c, i) && s.thr[i].pc == ForkScan && ForkStep(s, s', c, i, fails)
    ensures Inv(s')
  {
    hide LocalInv, CpuInv, LockInv, StateInv, WaitLockInv, ParentInv, ExitInv, ForkInv, ScanInv, WakeInv, PidInv, Here,
         MoveOk;
    var t, n := s.thr[i], |s.procs|;
    HereFromInv(s, c, i, i);
    if t.held == -1 && t.k < n {
      AcquireMove(s, c, i, t, t.k);
      StepInv(s, Go(s, i, t.(held := t.k)).(m := t.k, v := c), s');
    } else if t.held == -1 {
      var u := Go(s, i, t.(pc := User));
      ScanEndMove(s, c, i, t, u);
      StepInv(s, u, s');
    } else if s.procs[t.k].state == UNUSED {
      ForkFoundInv(s, s', c, i, fails);
    } else {
      var u := Go(s, i, t.(held := -1, k := t.k + 1)).(m := t.held, v := -1);
      ScanNextMove(s, c, i, t, u);
      StepInv(s, u, s');
    }
  }

  lemma ForkFoundInv(s: State, s': State, c: int, i: int, fails: bool)
    requires Inv(s) && OnCpu(s, c, i) && s.thr[i].pc == ForkScan && s.thr[i].held != -1
             && s.procs[s.thr[i].k].state == UNUSED && ForkStep(s, s', c, i, fails)
    ensures Inv(s')
  {
    hide LocalInv, CpuInv, LockInv, StateInv, WaitLockInv, ParentInv, ExitInv, ForkInv, ScanInv, WakeInv, PidInv, Here,
         MoveOk;
    var t, n := s.thr[i], |s.procs|;
    ResetInv(s, t.k);
    ActorIsRunning(s, c, i);
    var r := s.(thr := s.thr[t.k := FreshThread]);
    HereFromInv(r, c, i, t.k);
    var u := Go(r, i, t.(pc := ForkMade)).(k := t.k, q := r.procs[t.k].(state := USED, pid := r.hist.nextpid),
                                           h := r.hist.(nextpid := r.hist.nextpid + 1));
    ForkFoundMove(r, c, i, t, u);
    StepInv(r, u, s');
  }

  lemma ForkInvStep(s: State, s': State, c: int, i: int, fails: bool)
    requires Inv(s) && OnCpu(s, c, i) && s.thr[i].pc != ForkScan && ForkStep(s, s', c, i, fails)
    ensures Inv(s')
  {
    hide LocalInv, CpuInv, LockInv, StateInv, WaitLockInv, ParentInv, ExitInv, ForkInv, ScanInv, WakeInv, PidInv, Here,
         MoveOk;
    var t, n := s.thr[i], |s.procs|;
    HereFromInv(s, c, i, i);
    HereFromInv(s, c, i, t.k);
    if t.pc == ForkMade {
      var u := if fails then Go(s, i, t.(held := -1, pc := User)).(k := t.k, q := FreedProcess, m := t.k, v := -1)
               else Go(s, i, t.(held := -1, pc := ForkPub)).(m := t.k, v := -1);
      if fails { ForkFailMove(s, c, i, t, u); } else { ForkMadeMove(s, c, i, t, u); }
      StepInv(s, u, s');
    } else if t.pc == ForkPub && !t.w {
      var u := Go(s, i, t.(w := true)).(w := i);
      ForkWaitLockMove(s, c, i, t, u);
      StepInv(s, u, s');
    } else if t.pc == ForkPub {
      var u := Go(s, i, t.(w := false, pc := ForkRun)).(k := t.k, q := s.procs[t.k].(parent := i), w := -1);
      ForkParentMove(s, c, i, t, u);
      StepInv(s, u, s');
    } else if t.held == -1 {
      AcquireMove(s, c, i, t, t.k);
      StepInv(s, Go(s, i, t.(held := t.k)).(m := t.k, v := c), s');
    } else {
      var u := Go(s, i, t.(held := -1, pc := User)).(k := t.k, q := s.procs[t.k].(state := RUNNABLE), m := t.k,
          v := -1);
      ForkRunMove(s, c, i, t, u);
      StepInv(s, u, s');
    }
  }

  lemma ExitInvStep(s: State, s': State, c: int, i: int)
    requires Inv(s) && OnCpu(s, c, i) && ExitStep(s, s', c, i)
    ensures Inv(s')
  {
    hide LocalInv, CpuInv, LockInv, StateInv, WaitLockInv, ParentInv, ExitInv, ForkInv, ScanInv, WakeInv, PidInv, Here,
         MoveOk;
    var t, n := s.thr[i], |s.procs|;
    HereFromInv(s, c, i, i);
    if t.pc == ExitStart {
      var u := Go(s, i, t.(pc := Reparent, w := true, k := 0)).(w := i);
      ExitStartMove(s, c, i, t, u);
      StepInv(s, u, s');
    } else if t.pc == Reparent && t.k < n && s.procs[t.k].parent == i {
      HereFromInv(s, c, i, t.k);
      var u := Go(s, i, t.(pc := Wake, k := t.k + 1, j := 0, chan := OnProc(s.init), cont := ToReparent))
               .(k := t.k, q := s.procs[t.k].(parent := s.init));
      ReparentGiveMove(s, c, i, t, u);
      StepInv(s, u, s');
    } else if t.pc == Reparent {
      var u := Go(s, i, if t.k == n then t.(pc := Wake, j := 0, chan := ParentChan(s.procs[i].parent), cont := ToZombie)
                        else t.(k := t.k + 1));
      ReparentMove(s, c, i, t, u);
      StepInv(s, u, s');
    } else if t.pc == ExitSelf && t.held == -1 {
      AcquireMove(s, c, i, t, i);
      StepInv(s, Go(s, i, t.(held := i)).(m := i, v := c), s');
    } else if t.pc == ExitSelf {
      var u := Go(s, i, t.(pc := ExitRelease))
               .(q := s.procs[i].(state := ZOMBIE), h := s.hist.(exited := s.hist.exited + {s.procs[i].pid}));
      ZombieMove(s, c, i, t, u);
      StepInv(s, u, s');
    } else {
      var u := Go(s, i, t.(w := false, r := FromExit, pc := Sched)).(w := -1);
      ExitReleaseMove(s, c, i, t, u);
      StepInv(s, u, s');
    }
  }

  lemma WaitScanInv(s: State, s': State, c: int, i: int, fails: bool)
    requires Inv(s) && OnCpu(s, c, i) && (s.thr[i].pc == WaitStart || s.thr[i].pc == WaitScan || s.thr[i].pc == WaitKid)
             && WaitStep(s, s', c, i, fails)
    ensures Inv(s')
  {
    hide LocalInv, CpuInv, LockInv, StateInv, WaitLockInv, ParentInv, ExitInv, ForkInv, ScanInv, WakeInv, PidInv, Here,
         MoveOk;
    var t, n := s.thr[i], |s.procs|;
    HereFromInv(s, c, i, i);
    if t.pc == WaitStart {
      var u := Go(s, i, t.(pc := WaitScan, w := true, k := 0, have := false)).(w := i);
      WaitStartMove(s, c, i, t, u);
      StepInv(s, u, s');
    } else if t.pc == WaitScan && t.k == n {
      var u := Go(s, i, t.(pc := if t.have then WaitKill else WaitLeave));
      WaitScanEndMove(s, c, i, t, u);
      StepInv(s, u, s');
    } else if t.pc == WaitScan {
      var u := Go(s, i, if s.procs[t.k].parent == i then t.(pc := WaitKid) else t.(k := t.k + 1));
      WaitScanMove(s, c, i, t, u);
      StepInv(s, u, s');
    } else if t.held == -1 {
      AcquireMove(s, c, i, t, t.k);
      StepInv(s, Go(s, i, t.(held := t.k)).(m := t.k, v := c), s');
    } else if s.procs[t.k].state == ZOMBIE && !fails {
      HereFromInv(s, c, i, t.k);
      var u := Go(s, i, t.(pc := WaitDrop)).(k := t.k, q := FreedProcess,
                                             h := s.hist.(reaped := s.hist.reaped + [s.procs[t.k].pid]));
      ReapMove(s, c, i, t, u);
      StepInv(s, u, s');
    } else {
      var u := if s.procs[t.k].state == ZOMBIE then Go(s, i, t.(pc := WaitDrop))
               else Go(s, i, t.(held := -1, have := true, k := t.k + 1, pc := WaitScan)).(m := t.k, v := -1);
      WaitKidMove(s, c, i, t, u);
      StepInv(s, u, s');
    }
  }

  lemma WaitSleepInv(s: State, s': State, c: int, i: int, fails: bool)
    requires Inv(s) && OnCpu(s, c, i) && s.thr[i].pc != WaitStart && s.thr[i].pc != WaitScan && s.thr[i].pc != WaitKid
             && WaitStep(s, s', c, i, fails)
    ensures Inv(s')
  {
    hide LocalInv, CpuInv, LockInv, StateInv, WaitLockInv, ParentInv, ExitInv, ForkInv, ScanInv, WakeInv, PidInv, Here,
         MoveOk;
    var t, n := s.thr[i], |s.procs|;
    HereFromInv(s, c, i, i);
    if t.pc == WaitDrop {
      var u := Go(s, i, t.(held := -1, pc := WaitLeave)).(m := t.k, v := -1);
      WaitDropMove(s, c, i, t, u);
      StepInv(s, u, s');
    } else if t.pc == WaitLeave {
      var u := Go(s, i, t.(w := false, pc := User)).(w := -1);
      WaitLeaveMove(s, c, i, t, u);
      StepInv(s, u, s');
    } else if t.held == -1 {
      AcquireMove(s, c, i, t, i);
      StepInv(s, Go(s, i, t.(held := i)).(m := i, v := c), s');
    } else if t.pc == WaitKill {
      var u := Go(s, i, t.(held := -1, pc := if s.procs[i].killed then WaitLeave else WaitSleep)).(m := i, v := -1);
      WaitKillMove(s, c, i, t, u);
      StepInv(s, u, s');
    } else if t.w {
      var u := Go(s, i, t.(w := false)).(w := -1);
      WaitSleepMove(s, c, i, t, u);
      StepInv(s, u, s');
    } else {
      var u := Go(s, i, t.(r := FromWaitSleep, pc := Sched)).(q := s.procs[i].(state := SLEEPING, chan := OnProc(i)));
      WaitSleepSetMove(s, c, i, t, u);
      StepInv(s, u, s');
    }
  }

  lemma ActorIsRunning(s: State, c: int, i: int)
    requires Inv(s) && OnCpu(s, c, i) && s.thr[i].pc != Sched && s.thr[i].pc != ExitRelease
    ensures s.procs[i].state == RUNNING
  {
    hide LocalInv, LockInv, WaitLockInv, ParentInv, ExitInv, ForkInv, ScanInv, WakeInv, PidInv;
    assert StateOk(i, s.procs[i], s.thr[i], s.on[i]);
  }

  lemma NextInv(s: State, s': State)
    requires Inv(s) && Next(s, s')
    ensures Inv(s')
  {
    hide LocalInv, CpuInv, LockInv, StateInv, WaitLockInv, ParentInv, ExitInv, ForkInv, ScanInv, WakeInv, PidInv,
         LocalOk;
    hide SchedulerStep, UserStep, SwitchStep, WakeStep, KillStep, ForkStep, ExitStep, WaitStep, IdleWakeStep, IntrStep;
    var c :| 0 <= c < |s.cpus| && CpuStep(s, s', c);
    var i := s.cpus[c].k;
    if s.cpus[c].at != Run {
      if SchedulerStep(s, s', c) {
        SchedulerInv(s, s', c);
      } else {
        var j, x :| 0 <= j < |s.procs| && IdleWakeStep(s, s', c, j, x);
        IdleWakeInv(s, s', c, j, x);
      }
    } else if !(OnCpu(s, c, i) && ThreadStep(s, s', c, i)) {
      var j, x :| 0 <= j < |s.procs| && IntrStep(s, s', c, i, j, x);
      IntrInv(s, s', c, i, j, x);
    } else if SwitchStep(s, s', c, i) {
      SwitchInv(s, s', c, i);
    } else if WakeStep(s, s', c, i) {
      WakeStepInv(s, s', c, i);
    } else if ExitStep(s, s', c, i) {
      ExitInvStep(s, s', c, i);
    } else if to :| UserStep(s, s', c, i, to) {
      UserInv(s, s', c, i, to);
    } else if KillStep(s, s', c, i) {
      KillInv(s, s', c, i);
    } else if fails :| ForkStep(s, s', c, i, fails) {
      if s.thr[i].pc == ForkScan { ForkScanInv(s, s', c, i, fails); } else { ForkInvStep(s, s', c, i, fails); }
    } else {
      var fails :| WaitStep(s, s', c, i, fails);
      if s.thr[i].pc == WaitStart || s.thr[i].pc == WaitScan || s.thr[i].pc == WaitKid {
        WaitScanInv(s, s', c, i, fails);
      } else {
        WaitSleepInv(s, s', c, i, fails);
      }
    }
  }

  lemma InitInv(s: State)
    requires Init(s)
    ensures Inv(s)
  {
    hide ExitInv, ForkInv, ScanInv, WakeInv, CpuInv, LockInv, StateInv, LocalInv;
    assert Live(s.procs[s.init].state);
    InitTable(s);
    InitCpu(s);
  }

  lemma InitCpu(s: State)
    requires Init(s)
    ensures CpuInv(s) && LockInv(s) && StateInv(s) && LocalInv(s)
  {
  }

  lemma InitTable(s: State)
    requires Init(s)
    ensures ExitInv(s) && ForkInv(s) && ScanInv(s) && WakeInv(s)
  {
    assert forall i | 0 <= i < |s.procs| :: s.thr[i].pc == Resume && !s.thr[i].w;
  }

  ghost predicate IsRun(run: seq<State>) {
    && 0 < |run|
    && Init(run[0])
    && forall i, j :: 0 <= i && j == i + 1 && j < |run| ==> Next(run[i], run[j])
  }

  lemma {:induction false} RunInv(run: seq<State>, i: nat)
    requires IsRun(run) && i < |run|
    ensures Inv(run[i])
  {
    hide Inv, Init, Next;
    if i == 0 {
      InitInv(run[0]);
    } else {
      RunInv(run, i - 1);
      NextInv(run[i - 1], run[i]);
    }
  }

  // ---------- Main results ----------

  /**
   No lost wakeup: in every state of every run in which wait_lock is free, a
   process asleep in wait() has no ZOMBIE child.
   */
  lemma NoLostWakeup(run: seq<State>, a: nat, p: int, x: int)
    requires IsRun(run) && a < |run| && run[a].wlock == -1
    requires 0 <= p < |run[a].procs| && 0 <= x < |run[a].procs|
    requires run[a].procs[p].state == SLEEPING && run[a].procs[p].chan == OnProc(p)
    requires run[a].procs[x].parent == p
    ensures run[a].procs[x].state != ZOMBIE
  {
    RunInv(run, a);
    hide IsRun, Next, LocalInv, CpuInv, LockInv, StateInv, ParentInv, ExitInv, ForkInv, ScanInv, PidInv;
  }

  /** No ZOMBIE, UNUSED or half-made process is anyone's parent, at any time. */
  lemma ParentsAreLive(run: seq<State>, a: nat, x: int)
    requires IsRun(run) && a < |run| && 0 <= x < |run[a].procs| && run[a].procs[x].parent != -1
    ensures 0 <= run[a].procs[x].parent < |run[a].procs|
    ensures Live(run[a].procs[run[a].procs[x].parent].state)
  {
    RunInv(run, a);
    hide IsRun, Next, LocalInv, CpuInv, LockInv, StateInv, ExitInv, ForkInv, ScanInv, WakeInv, PidInv;
  }

  /** The pids that wait() returns are pairwise distinct, and each belonged to a process that exited. */
  lemma ReapedOnce(run: seq<State>, a: nat)
    requires IsRun(run) && a < |run|
    ensures forall j, k | 0 <= j < k < |run[a].hist.reaped| :: run[a].hist.reaped[j] != run[a].hist.reaped[k]
    ensures forall j | 0 <= j < |run[a].hist.reaped| :: run[a].hist.reaped[j] in run[a].hist.exited
  {
    RunInv(run, a);
    hide IsRun, Next, LocalInv, CpuInv, LockInv, StateInv, ParentInv, ExitInv, ForkInv, ScanInv, WakeInv;
  }

  /** Process k is executed by no CPU, and no CPU has it as c->proc: its kernel stack is not in use. */
  ghost predicate StackIdle(s: State, k: int)
    requires Shaped(s)
  {
    forall c | 0 <= c < |s.cpus| :: s.cpus[c].proc != k && !(s.cpus[c].at == Run && s.cpus[c].k == k)
  }

  /** The thread is inside the swtch that exit() called last. */
  predicate Left(t: Thread) {
    t.pc == Resume && t.r == FromExit && t.intr == NoIntr && t.held == -1
  }

  /** A thread's step starts no thread. */
  lemma ThreadStops(s: State, s': State, c: int, i: int)
    requires Shaped(s) && OnCpu(s, c, i) && ThreadStep(s, s', c, i)
    ensures s'.on == s.on || s'.on == s.on[i := -1]
  {
    hide Shaped, OnCpu, UserStep, SwitchStep, WakeStep, KillStep, ForkStep, ExitStep, WaitStep;
    if SwitchStep(s, s', c, i) {
      SwitchStops(s, s', c, i);
    } else if WakeStep(s, s', c, i) {
      WakeStops(s, s', c, i);
    } else if ExitStep(s, s', c, i) {
      ExitStops(s, s', c, i);
    } else if to :| UserStep(s, s', c, i, to) {
      UserStops(s, s', c, i, to);
    } else if KillStep(s, s', c, i) {
      KillStops(s, s', c, i);
    } else if fails :| ForkStep(s, s', c, i, fails) {
      ForkStops(s, s', c, i, fails);
    } else {
      var fails :| WaitStep(s, s', c, i, fails);
      WaitStops(s, s', c, i, fails);
    }
  }

  lemma SwitchStops(s: State, s': State, c: int, i: int)
    requires Shaped(s) && OnCpu(s, c, i) && SwitchStep(s, s', c, i)
    ensures s'.on == s.on || s'.on == s.on[i := -1]
  {
    hide LocalOk;
  }

  lemma WakeStops(s: State, s': State, c: int, i: int)
    requires Shaped(s) && OnCpu(s, c, i) && WakeStep(s, s', c, i)
    ensures s'.on == s.on
  {
    hide LocalOk;
  }

  lemma ExitStops(s: State, s': State, c: int, i: int)
    requires Shaped(s) && OnCpu(s, c, i) && ExitStep(s, s', c, i)
    ensures s'.on == s.on
  {
    hide LocalOk;
  }

  lemma KillStops(s: State, s': State, c: int, i: int)
    requires Shaped(s) && OnCpu(s, c, i) && KillStep(s, s', c, i)
    ensures s'.on == s.on
  {
    hide LocalOk;
  }

  lemma ForkStops(s: State, s': State, c: int, i: int, fails: bool)
    requires Shaped(s) && OnCpu(s, c, i) && ForkStep(s, s', c, i, fails)
    ensures s'.on == s.on
  {
    hide LocalOk;
  }

  lemma WaitStops(s: State, s': State, c: int, i: int, fails: bool)
    requires Shaped(s) && OnCpu(s, c, i) && WaitStep(s, s', c, i, fails)
    ensures s'.on == s.on
  {
    hide LocalOk;
  }

  lemma UserStops(s: State, s': State, c: int, i: int, to: Thread)
    requires Shaped(s) && OnCpu(s, c, i) && UserStep(s, s', c, i, to)
    ensures s'.on == s.on
  {
    hide LocalOk;
  }

  /** Only scheduler() starts a thread, and only of a RUNNABLE process. */
  lemma OnlyRunnableStarts(s: State, s': State, k: int)
    requires Next(s, s') && 0 <= k < |s.procs| && s.on[k] == -1
    ensures |s'.on| == |s.on| && (s'.on[k] != -1 ==> s.procs[k].state == RUNNABLE)
  {
    hide LocalOk, ThreadStep, Woken;
    var c :| 0 <= c < |s.cpus| && CpuStep(s, s', c);
    var i := s.cpus[c].k;
    if s.cpus[c].at == Run && OnCpu(s, c, i) && ThreadStep(s, s', c, i) {
      ThreadStops(s, s', c, i);
    }
  }

  lemma NextIsShaped(s: State, s': State)
    requires Next(s, s')
    ensures Shaped(s)
  {
  }

  /** Once it has left its stack, a ZOMBIE does not return to it. */
  lemma {:induction false} ZombieStaysParked(run: seq<State>, a: nat, b: nat, k: int)
    requires IsRun(run) && a <= b < |run| && 0 <= k < |run[a].procs|
    requires forall m | a <= m < b :: 0 <= k < |run[m].procs| && run[m].procs[k].state == ZOMBIE
    requires |run[a].on| == |run[a].procs| && run[a].on[k] == -1
    ensures k < |run[b].on| && run[b].on[k] == -1
  {
    hide Init, Next;
    if a < b {
      ZombieStaysParked(run, a, b - 1, k);
      assert Next(run[b - 1], run[b]);
      NextIsShaped(run[b - 1], run[b]);
      OnlyRunnableStarts(run[b - 1], run[b], k);
    }
  }

  /**
   The step that reaps is freeproc in wait(): it frees a ZOMBIE child of the
   waiting process, wait() returns that child's pid, and the child has left its
   kernel stack for good.
   */
  lemma ReapIsSafe(run: seq<State>, a: nat, c: int, i: int, fails: bool, s': State)
    requires IsRun(run) && a < |run| && Shaped(run[a]) && OnCpu(run[a], c, i) && WaitStep(run[a], s', c, i, fails)
    requires s'.hist.reaped != run[a].hist.reaped
    ensures var s, k := run[a], run[a].thr[i].k;
            && k < |s.procs| && s.procs[k].state == ZOMBIE && s.procs[k].parent == i
            && s'.hist.reaped == s.hist.reaped + [s.procs[k].pid]
            && s'.procs == s.procs[k := FreedProcess]
            && StackIdle(s, k) && Left(s.thr[k])
  {
    RunInv(run, a);
    hide IsRun, Next, LocalInv, ExitInv, ForkInv, WakeInv, PidInv;
    var s, k := run[a], run[a].thr[i].k;
    assert s.procs[k].parent == i && k != i;
    assert StateOk(k, s.procs[k], s.thr[k], s.on[k]) && LocalOk(|s.procs|, i, s.thr[i]);
    ZombieIsIdle(s, c, i, k);
  }

  lemma ZombieIsIdle(s: State, c: int, i: int, k: int)
    requires Shaped(s) && CpuInv(s) && LockInv(s) && LocalInv(s) && StateInv(s) && OnCpu(s, c, i)
    requires 0 <= k < |s.procs| && k != i && s.procs[k].state == ZOMBIE && s.thr[i].held == k
    ensures StackIdle(s, k) && Left(s.thr[k])
  {
    assert StateOk(k, s.procs[k], s.thr[k], s.on[k]) && LocalOk(|s.procs|, k, s.thr[k]);
    assert s.on[i] == c && s.plock[k] == c;
    assert s.on[k] != c;
    assert s.on[k] == -1;
  }

  /** A process is the current process of at most one CPU. */
  lemma CurrentOnOneCpu(run: seq<State>, a: nat, c: int, d: int)
    requires IsRun(run) && a < |run| && 0 <= c < |run[a].cpus| && 0 <= d < |run[a].cpus|
    requires run[a].cpus[c].proc == run[a].cpus[d].proc != -1
    ensures c == d
  {
    RunInv(run, a);
    hide IsRun, Next, LocalInv, StateInv, ParentInv, ExitInv, ForkInv, ScanInv, WakeInv, PidInv;
  }

  /** A RUNNING process whose lock is free is current on exactly one CPU, which executes it. */
  lemma RunningIsCurrent(run: seq<State>, a: nat, i: int) returns (c: int)
    requires IsRun(run) && a < |run| && Shaped(run[a]) && 0 <= i < |run[a].procs|
    requires run[a].procs[i].state == RUNNING && run[a].plock[i] == -1
    ensures 0 <= c < |run[a].cpus| && run[a].cpus[c].proc == i && run[a].cpus[c].at == Run && run[a].cpus[c].k == i
    ensures forall d | 0 <= d < |run[a].cpus| && run[a].cpus[d].proc == i :: d == c
  {
    RunInv(run, a);
    hide IsRun, Next, LocalInv, ParentInv, ExitInv, ForkInv, ScanInv, WakeInv, PidInv;
    var s := run[a];
    assert StateOk(i, s.procs[i], s.thr[i], s.on[i]);
    c := s.on[i];
    assert s.cpus[c].at == Run && s.cpus[c].k == i;
  }

  /** sched() never returns to an exited process: the "zombie exit" panic is out of reach. */
  lemma ZombieNeverResumes(run: seq<State>, a: nat, c: int, i: int)
    requires IsRun(run) && a < |run| && Shaped(run[a]) && Executes(run[a], c, i) && Place(run[a].thr[i]) == Resume
    ensures Returns(run[a].thr[i]) != FromExit && run[a].plock[i] == c
  {
    RunInv(run, a);
    hide IsRun, Next, ParentInv, ExitInv, ForkInv, ScanInv, WakeInv, PidInv;
    var s := run[a];
    assert StateOk(i, s.procs[i], s.thr[i], s.on[i]) && s.on[i] == c;
  }
}
