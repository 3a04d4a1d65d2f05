/**
 Two states that runs of module Proc reach, with two processes and one CPU: init
 asleep in wait() while its child lives, and init having reaped that child.
 */
module ProcWitness {
  import opened Proc
  import opened ProcTheorems

  ghost predicate Reached(s: State) {
    exists run :: IsRun(run) && run[|run| - 1] == s
  }

  /** A state that the one CPU has reached; if it executes a thread, the thread is in order. */
  ghost predicate Ready(s: State) {
    Reached(s) && Shaped(s) && |s.cpus| == 1 && (s.cpus[0].at == Run ==> Executes(s, 0, s.cpus[0].k))
  }

  lemma ReachedIsReady(s: State)
    requires Reached(s) && |s.cpus| == 1
    ensures Ready(s)
  {
    hide Init, Next, LocalOk, CpuInv, LockInv, StateInv, WaitLockInv, ParentInv, ExitInv, ForkInv, ScanInv, WakeInv,
         PidInv;
    var run :| IsRun(run) && run[|run| - 1] == s;
    RunInv(run, |run| - 1);
  }

  lemma Go(s: State, s': State)
    requires Reached(s) && Next(s, s') && |s'.cpus| == 1
    ensures Ready(s')
  {
    hide Init, Next;
    var run :| IsRun(run) && run[|run| - 1] == s;
    var more := run + [s'];
    forall i, j | 0 <= i && j == i + 1 && j < |more| ensures Next(more[i], more[j]) {
      assert j < |run| ==> Next(run[i], run[j]);
    }
    assert IsRun(more);
    ReachedIsReady(s');
  }

  /** The CPU is in scheduler(). */
  lemma GoScheduler(s: State, s': State)
    requires Ready(s) && s.cpus[0].at != Run && SchedulerStep(s, s', 0) && |s'.cpus| == 1
    ensures Ready(s')
  {
    hide Shaped, Reached, SchedulerStep;
    assert CpuStep(s, s', 0);
    Go(s, s');
  }

  /** The CPU executes thread i. */
  lemma GoThread(s: State, s': State, i: int)
    requires Ready(s) && s.cpus[0].at == Run && s.cpus[0].k == i && s.thr[i].intr == NoIntr
    requires ThreadStep(s, s', 0, i) && |s'.cpus| == 1
    ensures Ready(s')
  {
    hide Shaped, Reached, ThreadStep, LocalOk;
    assert CpuStep(s, s', 0);
    Go(s, s');
  }

  /** Two processes and one CPU; process 0 is init. */
  ghost function Pair(p: Process, q: Process, t: Thread, u: Thread, on: seq<int>, plock: seq<int>, wlock: int, cpu: Cpu,
                      hist: Hist): State
  {
    State([p, q], [t, u], on, plock, wlock, [cpu], 0, hist)
  }

  const Idle := [-1, -1]

  ghost function At(pc: Pc, k: nat, have: bool, r: Ret): Thread {
    FreshThread.(pc := pc, k := k, have := have, r := r)
  }

  lemma Start() returns (s: State)
    ensures Ready(s)
    ensures s == Pair(Process(RUNNABLE, NoChan, -1, 1, false), FreedProcess, FreshThread, FreshThread, Idle, Idle, -1,
                      Cpu(-1, Scan, 0, 0), Hist(2, {}, []))
  {
    s := Pair(Process(RUNNABLE, NoChan, -1, 1, false), FreedProcess, FreshThread, FreshThread, Idle, Idle, -1,
              Cpu(-1, Scan, 0, 0), Hist(2, {}, []));
    assert IsRun([s]);
    ReachedIsReady(s);
  }

  /** init runs in user space. */
  lemma Boot() returns (s: State)
    ensures Ready(s)
    ensures s == Pair(Process(RUNNING, NoChan, -1, 1, false), FreedProcess, At(User, 0, false, Forkret), FreshThread,
                      [0, -1], Idle, -1, Cpu(0, Run, 0, 0), Hist(2, {}, []))
  {
    hide Reached, Shaped, LocalOk;
    var s0 := Start();
    var s1 := s0.(plock := [0, -1], cpus := [Cpu(-1, Have, 0, 0)]);
    GoScheduler(s0, s1);
    var s2 := s1.(procs := s1.procs[0 := s1.procs[0].(state := RUNNING)], thr := s1.thr[0 := FreshThread.(held := 0)],
                  on := [0, -1], cpus := [Cpu(0, Run, 0, 0)]);
    GoScheduler(s1, s2);
    s := s2.(thr := s2.thr[0 := FreshThread.(pc := User)], plock := Idle);
    assert s.procs == s2.procs[0 := Awake(s2.procs[0], Forkret)];
    assert SwitchStep(s2, s, 0, 0);
    GoThread(s2, s, 0);
  }

  /** fork(): init allocates process 1. */
  lemma Allocate() returns (s: State)
    ensures Ready(s)
    ensures s == Pair(Process(RUNNING, NoChan, -1, 1, false), Process(USED, NoChan, -1, 2, false),
            At(ForkPub, 1, false, Forkret),
                      FreshThread, [0, -1], Idle, -1, Cpu(0, Run, 0, 0), Hist(3, {}, []))
  {
    hide Reached, Shaped, LocalOk;
    var s0 := Boot();
    var s1 := s0.(thr := s0.thr[0 := At(ForkScan, 0, false, Forkret)]);
    assert UserStep(s0, s1, 0, 0, s1.thr[0]);
    GoThread(s0, s1, 0);
    var s2 := s1.(plock := [0, -1], thr := s1.thr[0 := s1.thr[0].(held := 0)]);
    assert ForkStep(s1, s2, 0, 0, false);
    GoThread(s1, s2, 0);
    var s3 := s2.(plock := Idle, thr := s2.thr[0 := s2.thr[0].(held := -1, k := 1)]);
    assert ForkStep(s2, s3, 0, 0, false);
    GoThread(s2, s3, 0);
    var s4 := s3.(plock := [-1, 0], thr := s3.thr[0 := s3.thr[0].(held := 1)]);
    assert ForkStep(s3, s4, 0, 0, false);
    GoThread(s3, s4, 0);
    var s5 := s4.(procs := s4.procs[1 := FreedProcess.(state := USED, pid := 2)], hist := Hist(3, {}, []),
                  thr := s4.thr[0 := s4.thr[0].(pc := ForkMade)]);
    assert ForkStep(s4, s5, 0, 0, false);
    GoThread(s4, s5, 0);
    s := s5.(plock := Idle, thr := s5.thr[0 := s5.thr[0].(held := -1, pc := ForkPub)]);
    assert ForkStep(s5, s, 0, 0, false);
    GoThread(s5, s, 0);
  }

  /** fork() returns: the child of init is RUNNABLE. */
  lemma Fork() returns (s: State)
    ensures Ready(s)
    ensures s == Pair(Process(RUNNING, NoChan, -1, 1, false), Process(RUNNABLE, NoChan, 0, 2, false),
            At(User, 1, false, Forkret),
                      FreshThread, [0, -1], Idle, -1, Cpu(0, Run, 0, 0), Hist(3, {}, []))
  {
    hide Reached, Shaped, LocalOk;
    var s0 := Allocate();
    var s1 := s0.(wlock := 0, thr := s0.thr[0 := s0.thr[0].(w := true)]);
    assert ForkStep(s0, s1, 0, 0, false);
    GoThread(s0, s1, 0);
    var s2 := s1.(procs := s1.procs[1 := s1.procs[1].(parent := 0)], wlock := -1,
                  thr := s1.thr[0 := s1.thr[0].(w := false, pc := ForkRun)]);
    assert ForkStep(s1, s2, 0, 0, false);
    GoThread(s1, s2, 0);
    var s3 := s2.(plock := [-1, 0], thr := s2.thr[0 := s2.thr[0].(held := 1)]);
    assert ForkStep(s2, s3, 0, 0, false);
    GoThread(s2, s3, 0);
    s := s3.(procs := s3.procs[1 := s3.procs[1].(state := RUNNABLE)], plock := Idle,
                 thr := s3.thr[0 := s3.thr[0].(held := -1, pc := User)]);
    assert ForkStep(s3, s, 0, 0, false);
    GoThread(s3, s, 0);
  }

  /** wait(): init has looked at its child, which is no ZOMBIE. */
  lemma Look() returns (s: State)
    ensures Ready(s)
    ensures s == Pair(Process(RUNNING, NoChan, -1, 1, false), Process(RUNNABLE, NoChan, 0, 2, false),
                      At(WaitScan, 2, true, Forkret).(w := true),
                      FreshThread, [0, -1], Idle, 0, Cpu(0, Run, 0, 0), Hist(3, {}, []))
  {
    hide Reached, Shaped, LocalOk;
    var s0 := Fork();
    var s1 := s0.(thr := s0.thr[0 := At(WaitStart, 0, false, Forkret)]);
    assert UserStep(s0, s1, 0, 0, s1.thr[0]);
    GoThread(s0, s1, 0);
    var s2 := s1.(wlock := 0, thr := s1.thr[0 := s1.thr[0].(pc := WaitScan, w := true, k := 0, have := false)]);
    assert WaitStep(s1, s2, 0, 0, false);
    GoThread(s1, s2, 0);
    var s3 := s2.(thr := s2.thr[0 := s2.thr[0].(k := 1)]);
    assert WaitStep(s2, s3, 0, 0, false);
    GoThread(s2, s3, 0);
    var s4 := s3.(thr := s3.thr[0 := s3.thr[0].(pc := WaitKid)]);
    assert WaitStep(s3, s4, 0, 0, false);
    GoThread(s3, s4, 0);
    var s5 := s4.(plock := [-1, 0], thr := s4.thr[0 := s4.thr[0].(held := 1)]);
    assert WaitStep(s4, s5, 0, 0, false);
    GoThread(s4, s5, 0);
    s := s5.(plock := Idle, thr := s5.thr[0 := s5.thr[0].(held := -1, have := true, k := 2, pc := WaitScan)]);
    assert WaitStep(s5, s, 0, 0, false);
    GoThread(s5, s, 0);
  }

  /** init sleeps in wait(), and its child lives. */
  lemma Doze() returns (s: State)
    ensures Ready(s)
    ensures s == Pair(Process(SLEEPING, OnProc(0), -1, 1, false), Process(RUNNABLE, NoChan, 0, 2, false),
                      At(Sched, 2, true, FromWaitSleep).(held := 0),
                      FreshThread, [0, -1], [0, -1], -1, Cpu(0, Run, 0, 0), Hist(3, {}, []))
  {
    hide Reached, Shaped, LocalOk;
    var s0 := Look();
    var s1 := s0.(thr := s0.thr[0 := s0.thr[0].(pc := WaitKill)]);
    assert WaitStep(s0, s1, 0, 0, false);
    GoThread(s0, s1, 0);
    var s2 := s1.(plock := [0, -1], thr := s1.thr[0 := s1.thr[0].(held := 0)]);
    assert WaitStep(s1, s2, 0, 0, false);
    GoThread(s1, s2, 0);
    var s3 := s2.(plock := Idle, thr := s2.thr[0 := s2.thr[0].(held := -1, pc := WaitSleep)]);
    assert WaitStep(s2, s3, 0, 0, false);
    GoThread(s2, s3, 0);
    var s4 := s3.(plock := [0, -1], thr := s3.thr[0 := s3.thr[0].(held := 0)]);
    assert WaitStep(s3, s4, 0, 0, false);
    GoThread(s3, s4, 0);
    var s5 := s4.(wlock := -1, thr := s4.thr[0 := s4.thr[0].(w := false)]);
    assert WaitStep(s4, s5, 0, 0, false);
    GoThread(s4, s5, 0);
    s := s5.(procs := s5.procs[0 := s5.procs[0].(state := SLEEPING, chan := OnProc(0))],
                 thr := s5.thr[0 := s5.thr[0].(r := FromWaitSleep, pc := Sched)]);
    assert WaitStep(s5, s, 0, 0, false);
    GoThread(s5, s, 0);
  }

  /** The scheduler runs the child. */
  lemma Switch() returns (s: State)
    ensures Ready(s)
    ensures s == Pair(Process(SLEEPING, OnProc(0), -1, 1, false), Process(RUNNING, NoChan, 0, 2, false),
            At(Resume, 2, true, FromWaitSleep),
                      At(User, 0, false, Forkret), [-1, 0], Idle, -1, Cpu(1, Run, 1, 0), Hist(3, {}, []))
  {
    hide Reached, Shaped, LocalOk;
    var s0 := Doze();
    var s1 := s0.(on := Idle, cpus := [s0.cpus[0].(at := Back)],
        thr := s0.thr[0 := s0.thr[0].(pc := Resume, held := -1)]);
    assert SwitchStep(s0, s1, 0, 0);
    GoThread(s0, s1, 0);
    var s2 := s1.(cpus := [Cpu(-1, Drop, 0, 0)]);
    GoScheduler(s1, s2);
    var s3 := s2.(plock := Idle, cpus := [Cpu(-1, Scan, 1, 0)]);
    GoScheduler(s2, s3);
    var s4 := s3.(plock := [-1, 0], cpus := [Cpu(-1, Have, 1, 0)]);
    GoScheduler(s3, s4);
    var s5 := s4.(procs := s4.procs[1 := s4.procs[1].(state := RUNNING)], on := [-1, 0], cpus := [Cpu(1, Run, 1, 0)],
                  thr := s4.thr[1 := s4.thr[1].(held := 1)]);
    GoScheduler(s4, s5);
    s := s5.(plock := Idle, thr := s5.thr[1 := s5.thr[1].(held := -1, pc := User)]);
    assert SwitchStep(s5, s, 0, 1);
    GoThread(s5, s, 1);
  }

  /** exit(): the child has no children to give away, and is about to wake its parent. */
  lemma Depart() returns (s: State)
    ensures Ready(s)
    ensures s == Pair(Process(SLEEPING, OnProc(0), -1, 1, false), Process(RUNNING, NoChan, 0, 2, false),
            At(Resume, 2, true, FromWaitSleep),
                      At(Wake, 2, false, Forkret).(w := true, chan := OnProc(0), cont := ToZombie), [-1, 0], Idle, 1,
                      Cpu(1, Run, 1, 0), Hist(3, {}, []))
  {
    hide Reached, Shaped, LocalOk;
    var s0 := Switch();
    var s1 := s0.(thr := s0.thr[1 := At(ExitStart, 0, false, Forkret)]);
    assert UserStep(s0, s1, 0, 1, s1.thr[1]);
    GoThread(s0, s1, 1);
    var s2 := s1.(wlock := 1, thr := s1.thr[1 := s1.thr[1].(pc := Reparent, w := true, k := 0)]);
    assert ExitStep(s1, s2, 0, 1);
    GoThread(s1, s2, 1);
    var s3 := s2.(thr := s2.thr[1 := s2.thr[1].(k := 1)]);
    assert ExitStep(s2, s3, 0, 1);
    GoThread(s2, s3, 1);
    var s4 := s3.(thr := s3.thr[1 := s3.thr[1].(k := 2)]);
    assert ExitStep(s3, s4, 0, 1);
    GoThread(s3, s4, 1);
    s := s4.(thr := s4.thr[1 := s4.thr[1].(pc := Wake, j := 0, chan := OnProc(0), cont := ToZombie)]);
    assert ExitStep(s4, s, 0, 1);
    GoThread(s4, s, 1);
  }

  /** The child has woken init and is a ZOMBIE that has left its stack. */
  lemma Die() returns (s: State)
    ensures Ready(s)
    ensures s == Pair(Process(RUNNABLE, OnProc(0), -1, 1, false), Process(ZOMBIE, NoChan, 0, 2, false),
            At(Resume, 2, true, FromWaitSleep),
                      At(Resume, 2, false, FromExit).(j := 2, chan := OnProc(0), cont := ToZombie), Idle, [-1, 0], -1,
                      Cpu(1, Back, 1, 0), Hist(3, {2}, []))
  {
    hide Reached, Shaped, LocalOk;
    var s0 := Depart();
    var s1 := s0.(plock := [0, -1], thr := s0.thr[1 := s0.thr[1].(held := 0)]);
    assert WakeStep(s0, s1, 0, 1);
    GoThread(s0, s1, 1);
    var s2 := s1.(procs := s1.procs[0 := s1.procs[0].(state := RUNNABLE)], plock := Idle,
                  thr := s1.thr[1 := s1.thr[1].(held := -1, j := 1)]);
    assert WakeStep(s1, s2, 0, 1);
    GoThread(s1, s2, 1);
    var s3 := s2.(thr := s2.thr[1 := s2.thr[1].(j := 2)]);
    assert WakeStep(s2, s3, 0, 1);
    GoThread(s2, s3, 1);
    var s4 := s3.(thr := s3.thr[1 := s3.thr[1].(pc := ExitSelf)]);
    assert WakeStep(s3, s4, 0, 1);
    GoThread(s3, s4, 1);
    var s5 := s4.(plock := [-1, 0], thr := s4.thr[1 := s4.thr[1].(held := 1)]);
    assert ExitStep(s4, s5, 0, 1);
    GoThread(s4, s5, 1);
    var s6 := s5.(procs := s5.procs[1 := s5.procs[1].(state := ZOMBIE)], hist := Hist(3, {2}, []),
                  thr := s5.thr[1 := s5.thr[1].(pc := ExitRelease)]);
    assert ExitStep(s5, s6, 0, 1);
    GoThread(s5, s6, 1);
    var s7 := s6.(wlock := -1, thr := s6.thr[1 := s6.thr[1].(w := false, r := FromExit, pc := Sched)]);
    assert ExitStep(s6, s7, 0, 1);
    GoThread(s6, s7, 1);
    s := s7.(on := Idle, cpus := [Cpu(1, Back, 1, 0)], thr := s7.thr[1 := s7.thr[1].(pc := Resume, held := -1)]);
    assert SwitchStep(s7, s, 0, 1);
    GoThread(s7, s, 1);
  }

  /** init is back in wait(). */
  lemma Rouse() returns (s: State)
    ensures Ready(s)
    ensures s == Pair(Process(RUNNING, NoChan, -1, 1, false), Process(ZOMBIE, NoChan, 0, 2, false),
                      At(WaitStart, 2, true, FromWaitSleep),
                          At(Resume, 2, false, FromExit).(j := 2, chan := OnProc(0), cont := ToZombie),
                      [0, -1], Idle, -1, Cpu(0, Run, 0, 0), Hist(3, {2}, []))
  {
    hide Reached, Shaped, LocalOk;
    var s0 := Die();
    var s1 := s0.(cpus := [Cpu(-1, Drop, 1, 0)]);
    GoScheduler(s0, s1);
    var s2 := s1.(plock := Idle, cpus := [Cpu(-1, Scan, 0, 0)]);
    GoScheduler(s1, s2);
    var s3 := s2.(plock := [0, -1], cpus := [Cpu(-1, Have, 0, 0)]);
    GoScheduler(s2, s3);
    var s4 := s3.(procs := s3.procs[0 := s3.procs[0].(state := RUNNING)], on := [0, -1], cpus := [Cpu(0, Run, 0, 0)],
                  thr := s3.thr[0 := s3.thr[0].(held := 0)]);
    GoScheduler(s3, s4);
    s := s4.(procs := s4.procs[0 := s4.procs[0].(chan := NoChan)], plock := Idle,
                 thr := s4.thr[0 := s4.thr[0].(held := -1, pc := WaitStart)]);
    assert SwitchStep(s4, s, 0, 0);
    GoThread(s4, s, 0);
  }

  /** wait() has freed the child, and returns its pid. */
  lemma Reap() returns (s: State)
    ensures Ready(s)
    ensures s == Pair(Process(RUNNING, NoChan, -1, 1, false), FreedProcess,
                      At(WaitDrop, 1, false, FromWaitSleep).(held := 1, w := true),
                          At(Resume, 2, false, FromExit).(j := 2, chan := OnProc(0), cont := ToZombie),
                      [0, -1], [-1, 0], 0, Cpu(0, Run, 0, 0), Hist(3, {2}, [2]))
  {
    hide Reached, Shaped, LocalOk;
    var s0 := Rouse();
    var s1 := s0.(wlock := 0, thr := s0.thr[0 := s0.thr[0].(pc := WaitScan, w := true, k := 0, have := false)]);
    assert WaitStep(s0, s1, 0, 0, false);
    GoThread(s0, s1, 0);
    var s2 := s1.(thr := s1.thr[0 := s1.thr[0].(k := 1)]);
    assert WaitStep(s1, s2, 0, 0, false);
    GoThread(s1, s2, 0);
    var s3 := s2.(thr := s2.thr[0 := s2.thr[0].(pc := WaitKid)]);
    assert WaitStep(s2, s3, 0, 0, false);
    GoThread(s2, s3, 0);
    var s4 := s3.(plock := [-1, 0], thr := s3.thr[0 := s3.thr[0].(held := 1)]);
    assert WaitStep(s3, s4, 0, 0, false);
    GoThread(s3, s4, 0);
    s := s4.(procs := s4.procs[1 := FreedProcess], hist := Hist(3, {2}, [2]),
        thr := s4.thr[0 := s4.thr[0].(pc := WaitDrop)]);
    assert WaitStep(s4, s, 0, 0, false);
    GoThread(s4, s, 0);
  }

  /** A process sleeps in wait(), with a live child and wait_lock free. */
  lemma SomeoneSleepsInWait() returns (run: seq<State>, p: int, x: int)
    ensures IsRun(run) && 0 <= p < |run[|run| - 1].procs| && 0 <= x < |run[|run| - 1].procs|
    ensures var s := run[|run| - 1];
            && s.wlock == -1 && s.procs[p].state == SLEEPING && s.procs[p].chan == OnProc(p)
            && s.procs[x].parent == p && Live(s.procs[x].state)
  {
    hide Init, Next, Shaped, LocalOk;
    var s := Doze();
    run :| IsRun(run) && run[|run| - 1] == s;
    p, x := 0, 1;
  }

  /** wait() has returned the pid of a child. */
  lemma SomeoneIsReaped() returns (run: seq<State>)
    ensures IsRun(run) && run[|run| - 1].hist.reaped != []
  {
    hide Init, Next, Shaped, LocalOk;
    var s := Reap();
    run :| IsRun(run) && run[|run| - 1] == s;
  }
}
