/**
 What the steps of module Proc do to the process table: every change of an entry
 has one of a few causes, made under the locks that proc.h asks for; and some CPU
 can always take a step.
 */
module ProcSteps {
  import opened Proc
  import opened ProcTheorems

  /** Why an entry of the process table changes. */
  datatype Cause =
    | Starts               // scheduler() runs it
    | Yields
    | Sleeps(chan: Chan)
    | Returned             // sleep() clears p->chan on its way out
    | Wakes                // wakeup() on its channel
    | Kills(i: int)        // the rest names the process whose system call it is
    | Allocates(i: int)
    | Abandons(i: int)     // fork() fails
    | Adopts(i: int)       // fork() sets the parent
    | Launches(i: int)     // fork() makes it RUNNABLE
    | GivesAway(i: int)    // reparent()
    | Exits
    | Reaps(i: int)

  /** CPU c executes the thread of process i, which is at pc. */
  ghost predicate Acts(s: State, c: int, i: int, pc: Pc)
    requires Shaped(s)
  {
    OnCpu(s, c, i) && s.thr[i].pc == pc
  }

  /** CPU c is in wakeup(chan): of a device in scheduler(), of a device in a thread, or of a thread. */
  ghost predicate Waker(s: State, c: int, chan: Chan)
    requires Shaped(s) && 0 <= c < |s.cpus|
  {
    var i := s.cpus[c].k;
    || (s.cpus[c].at == Visit && chan.OnOther?)
    || (s.cpus[c].at == Run && s.thr[i].intr == Waking && chan.OnOther?)
    || (Acts(s, c, i, Wake) && s.thr[i].chan == chan)
  }

  /** The step from s to s' by CPU c changed process x, for this cause, to exactly this. */
  ghost predicate Causes(s: State, s': State, c: int, x: int, cause: Cause)
    requires Shaped(s) && 0 <= c < |s.cpus| && 0 <= x < |s.procs| == |s'.procs| && |s'.cpus| == |s.cpus|
  {
    var q, q', running := s.procs[x], s'.procs[x], s.cpus[c].at == Run && s.cpus[c].k == x;
    match cause
    case Starts =>
      && s.plock[x] == c && s.cpus[c].at == Have && s.cpus[c].k == x && s'.cpus[c].at == Run && s'.cpus[c].k == x
      && q.state == RUNNABLE && q' == q.(state := RUNNING)
    case Yields => s.plock[x] == c && running && q.state == RUNNING && q' == q.(state := RUNNABLE)
    case Sleeps(chan) =>
      && s.plock[x] == c && running && q.state == RUNNING && q' == q.(state := SLEEPING, chan := chan)
      && (chan == OnProc(x) || chan.OnOther?)
    case Returned => s.plock[x] == c && running && q.state == RUNNING && q' == q.(chan := NoChan)
    case Wakes => s.plock[x] == c && Waker(s, c, q.chan) && q.state == SLEEPING && q' == q.(state := RUNNABLE)
    case Kills(i) =>
      && s.plock[x] == c && Acts(s, c, i, Kill) && s.thr[i].k == x && q.pid == s.thr[i].pid
      && q'.killed && q' == q.(killed := true, state := q'.state)
      && q'.state == if q.state == SLEEPING then RUNNABLE else q.state
    case Allocates(i) =>
      && s.plock[x] == c && Acts(s, c, i, ForkScan) && s.thr[i].k == x && q.state == UNUSED
      && q' == q.(state := USED, pid := s.hist.nextpid) && s'.hist.nextpid == s.hist.nextpid + 1
    case Abandons(i) =>
      && s.plock[x] == c && Acts(s, c, i, ForkMade) && s.thr[i].k == x && q.state == USED && q.parent == -1
      && q' == FreedProcess
    case Adopts(i) =>
      && s.wlock == i && Acts(s, c, i, ForkPub) && s.thr[i].k == x && q.state == USED && q.parent == -1
      && q' == q.(parent := i)
    case Launches(i) =>
      && s.plock[x] == c && Acts(s, c, i, ForkRun) && s.thr[i].k == x && q.state == USED && q.parent == i
      && q' == q.(state := RUNNABLE)
    case GivesAway(i) =>
      && s.wlock == i && Acts(s, c, i, Reparent) && s.thr[i].k == x && q.parent == i && q' == q.(parent := s.init)
    case Exits =>
      && s.plock[x] == c && s.wlock == x && Acts(s, c, x, ExitSelf) && q.state == RUNNING
      && q' == q.(state := ZOMBIE) && s'.hist.exited == s.hist.exited + {q.pid}
    case Reaps(i) =>
      && s.plock[x] == c && s.wlock == i && Acts(s, c, i, WaitKid) && s.thr[i].k == x && q.state == ZOMBIE
      && q.parent == i && q' == FreedProcess && s'.hist.reaped == s.hist.reaped + [q.pid]
  }

  /** What the invariant says about the thread that acts. */
  lemma Actor(s: State, c: int, i: int)
    requires Inv(s) && Executes(s, c, i)
    ensures s.on[i] == c && (s.thr[i].held != -1 ==> s.plock[s.thr[i].held] == c)
    ensures s.thr[i].w <==> s.wlock == i
    ensures StateOk(i, s.procs[i], s.thr[i], c)
  {
    hide LocalOk, StateOk, ParentInv, ExitInv, ForkInv, ScanInv, WakeInv, PidInv;
  }

  lemma SchedulerCause(s: State, s': State, c: int, x: int) returns (cause: Cause)
    requires Inv(s) && 0 <= c < |s.cpus| && 0 <= x < |s.procs| && SchedulerStep(s, s', c)
    ensures |s'.procs| == |s.procs| && |s'.cpus| == |s.cpus|
    ensures s'.procs[x] == s.procs[x] || Causes(s, s', c, x, cause)
  {
    hide LocalInv, StateInv, WaitLockInv, ParentInv, ExitInv, ForkInv, ScanInv, WakeInv, PidInv;
    cause := Starts;
  }

  lemma IdleWakeCause(s: State, s': State, c: int, j: int, ch: int, x: int) returns (cause: Cause)
    requires Inv(s) && 0 <= c < |s.cpus| && 0 <= x < |s.procs| && 0 <= j < |s.procs| && IdleWakeStep(s, s', c, j, ch)
    ensures |s'.procs| == |s.procs| && |s'.cpus| == |s.cpus|
    ensures s'.procs[x] == s.procs[x] || Causes(s, s', c, x, cause)
  {
    hide LocalInv, StateInv, WaitLockInv, ParentInv, ExitInv, ForkInv, ScanInv, WakeInv, PidInv;
    cause := Wakes;
  }

  lemma IntrCause(s: State, s': State, c: int, i: int, j: int, ch: int, x: int) returns (cause: Cause)
    requires Inv(s) && Executes(s, c, i) && 0 <= x < |s.procs| && 0 <= j < |s.procs| && IntrStep(s, s', c, i, j, ch)
    ensures |s'.procs| == |s.procs| && |s'.cpus| == |s.cpus|
    ensures s'.procs[x] == s.procs[x] || Causes(s, s', c, x, cause)
  {
    hide LocalInv, CpuInv, LockInv, StateInv, WaitLockInv, ParentInv, ExitInv, ForkInv, ScanInv, WakeInv, PidInv;
    Actor(s, c, i);
    cause := if s.thr[i].intr == Waking then Wakes else Yields;
  }

  lemma SwitchCause(s: State, s': State, c: int, i: int, x: int) returns (cause: Cause)
    requires Inv(s) && OnCpu(s, c, i) && 0 <= x < |s.procs| && SwitchStep(s, s', c, i)
    ensures |s'.procs| == |s.procs| && |s'.cpus| == |s.cpus|
    ensures s'.procs[x] == s.procs[x] || Causes(s, s', c, x, cause)
  {
    hide LocalInv, CpuInv, LockInv, StateInv, WaitLockInv, ParentInv, ExitInv, ForkInv, ScanInv, WakeInv, PidInv;
    Actor(s, c, i);
    var t := s.thr[i];
    cause := if t.pc == Resume then Returned else if t.r == FromYield then Yields else Sleeps(t.chan);
  }

  lemma WakeCause(s: State, s': State, c: int, i: int, x: int) returns (cause: Cause)
    requires Inv(s) && OnCpu(s, c, i) && 0 <= x < |s.procs| && WakeStep(s, s', c, i)
    ensures |s'.procs| == |s.procs| && |s'.cpus| == |s.cpus|
    ensures s'.procs[x] == s.procs[x] || Causes(s, s', c, x, cause)
  {
    hide LocalInv, CpuInv, LockInv, StateInv, WaitLockInv, ParentInv, ExitInv, ForkInv, ScanInv, WakeInv, PidInv;
    Actor(s, c, i);
    cause := Wakes;
  }

  lemma KillCause(s: State, s': State, c: int, i: int, x: int) returns (cause: Cause)
    requires Inv(s) && OnCpu(s, c, i) && 0 <= x < |s.procs| && KillStep(s, s', c, i)
    ensures |s'.procs| == |s.procs| && |s'.cpus| == |s.cpus|
    ensures s'.procs[x] == s.procs[x] || Causes(s, s', c, x, cause)
  {
    hide LocalInv, CpuInv, LockInv, StateInv, WaitLockInv, ParentInv, ExitInv, ForkInv, ScanInv, WakeInv, PidInv;
    Actor(s, c, i);
    cause := Kills(i);
  }

  lemma ForkCause(s: State, s': State, c: int, i: int, fails: bool, x: int) returns (cause: Cause)
    requires Inv(s) && OnCpu(s, c, i) && 0 <= x < |s.procs| && ForkStep(s, s', c, i, fails)
    ensures |s'.procs| == |s.procs| && |s'.cpus| == |s.cpus|
    ensures s'.procs[x] == s.procs[x] || Causes(s, s', c, x, cause)
  {
    hide LocalInv, CpuInv, LockInv, StateInv, WaitLockInv, ParentInv, ExitInv, ScanInv, WakeInv, PidInv, StateOk;
    Actor(s, c, i);
    cause := match s.thr[i].pc
      case ForkScan => Allocates(i)
      case ForkMade => Abandons(i)
      case ForkPub => Adopts(i)
      case _ => Launches(i);
  }

  lemma ExitCause(s: State, s': State, c: int, i: int, x: int) returns (cause: Cause)
    requires Inv(s) && OnCpu(s, c, i) && 0 <= x < |s.procs| && ExitStep(s, s', c, i)
    ensures |s'.procs| == |s.procs| && |s'.cpus| == |s.cpus|
    ensures s'.procs[x] == s.procs[x] || Causes(s, s', c, x, cause)
  {
    hide LocalInv, CpuInv, LockInv, StateInv, WaitLockInv, ParentInv, ExitInv, ForkInv, ScanInv, WakeInv, PidInv;
    Actor(s, c, i);
    cause := if s.thr[i].pc == Reparent then GivesAway(i) else Exits;
  }

  lemma WaitCause(s: State, s': State, c: int, i: int, fails: bool, x: int) returns (cause: Cause)
    requires Inv(s) && OnCpu(s, c, i) && 0 <= x < |s.procs| && WaitStep(s, s', c, i, fails)
    ensures |s'.procs| == |s.procs| && |s'.cpus| == |s.cpus|
    ensures s'.procs[x] == s.procs[x] || Causes(s, s', c, x, cause)
  {
    hide LocalInv, CpuInv, LockInv, StateInv, WaitLockInv, ParentInv, ExitInv, ForkInv, WakeInv, PidInv;
    Actor(s, c, i);
    cause := if s.thr[i].pc == WaitKid then Reaps(i) else Sleeps(OnProc(i));
  }

  /** Whatever a CPU does to a process has one of these causes, and the locks for it are held. */
  lemma StepCause(s: State, s': State, c: int, x: int) returns (cause: Cause)
    requires Inv(s) && 0 <= c < |s.cpus| && CpuStep(s, s', c) && 0 <= x < |s.procs|
    ensures |s'.procs| == |s.procs| && |s'.cpus| == |s.cpus|
    ensures s'.procs[x] == s.procs[x] || Causes(s, s', c, x, cause)
  {
    hide Causes, LocalOk, LocalInv, CpuInv, LockInv, StateInv, WaitLockInv, ParentInv, ExitInv, ForkInv, ScanInv,
         WakeInv, PidInv;
    hide SchedulerStep, UserStep, SwitchStep, WakeStep, KillStep, ForkStep, ExitStep, WaitStep, IdleWakeStep, IntrStep;
    var i := s.cpus[c].k;
    if s.cpus[c].at != Run {
      if SchedulerStep(s, s', c) {
        cause := SchedulerCause(s, s', c, x);
      } else {
        var j, ch :| 0 <= j < |s.procs| && IdleWakeStep(s, s', c, j, ch);
        cause := IdleWakeCause(s, s', c, j, ch, x);
      }
    } else if !(OnCpu(s, c, i) && ThreadStep(s, s', c, i)) {
      var j, ch :| 0 <= j < |s.procs| && IntrStep(s, s', c, i, j, ch);
      cause := IntrCause(s, s', c, i, j, ch, x);
    } else {
      cause := ThreadCause(s, s', c, i, x);
    }
  }

  lemma ThreadCause(s: State, s': State, c: int, i: int, x: int) returns (cause: Cause)
    requires Inv(s) && OnCpu(s, c, i) && ThreadStep(s, s', c, i) && 0 <= x < |s.procs|
    ensures |s'.procs| == |s.procs| && |s'.cpus| == |s.cpus|
    ensures s'.procs[x] == s.procs[x] || Causes(s, s', c, x, cause)
  {
    hide Causes, LocalOk, LocalInv, CpuInv, LockInv, StateInv, WaitLockInv, ParentInv, ExitInv, ForkInv, ScanInv,
         WakeInv, PidInv, SwitchStep, WakeStep, KillStep, ForkStep, ExitStep, WaitStep;
    cause := Starts;
    if SwitchStep(s, s', c, i) {
      cause := SwitchCause(s, s', c, i, x);
    } else if WakeStep(s, s', c, i) {
      cause := WakeCause(s, s', c, i, x);
    } else if ExitStep(s, s', c, i) {
      cause := ExitCause(s, s', c, i, x);
    } else if KillStep(s, s', c, i) {
      cause := KillCause(s, s', c, i, x);
    } else if fails :| ForkStep(s, s', c, i, fails) {
      cause := ForkCause(s, s', c, i, fails, x);
    } else if fails :| WaitStep(s, s', c, i, fails) {
      cause := WaitCause(s, s', c, i, fails, x);
    }
  }

  // ---------- Threads ----------

  /** What of a thread only its own steps change. */
  function Regs(t: Thread): Thread {
    t.(held := -1, intr := NoIntr)
  }

  /** The thread of process i takes a step that is no interrupt. */
  ghost predicate OwnStep(s: State, s': State, c: int, i: int) {
    Shaped(s) && OnCpu(s, c, i) && ThreadStep(s, s', c, i)
  }

  /** No thread but e's and those of UNUSED entries is touched, and no other CPU; no pid comes back. */
  ghost predicate Spares(s: State, s': State, c: int, e: int)
    requires 0 <= c < |s.cpus|
  {
    && (s'.cpus == s.cpus || s'.cpus == s.cpus[c := s.cpus[c].(at := Back)])
    && |s.procs| == |s.thr| == |s'.thr| && s.hist.nextpid <= s'.hist.nextpid
    && forall i | 0 <= i < |s.thr| && i != e ::
         s'.thr[i] == s.thr[i] || (s.procs[i].state == UNUSED && s'.thr[i] == FreshThread)
  }

  lemma SwitchSpares(s: State, s': State, c: int, e: int)
    requires Shaped(s) && OnCpu(s, c, e) && SwitchStep(s, s', c, e)
    ensures Spares(s, s', c, e)
  {
    hide LocalOk;
  }

  lemma WakeSpares(s: State, s': State, c: int, e: int)
    requires Shaped(s) && OnCpu(s, c, e) && WakeStep(s, s', c, e)
    ensures Spares(s, s', c, e)
  {
    hide LocalOk;
  }

  lemma KillSpares(s: State, s': State, c: int, e: int)
    requires Shaped(s) && OnCpu(s, c, e) && KillStep(s, s', c, e)
    ensures Spares(s, s', c, e)
  {
    hide LocalOk;
  }

  lemma ExitSpares(s: State, s': State, c: int, e: int)
    requires Shaped(s) && OnCpu(s, c, e) && ExitStep(s, s', c, e)
    ensures Spares(s, s', c, e)
  {
    hide LocalOk;
  }

  lemma WaitSpares(s: State, s': State, c: int, e: int, fails: bool)
    requires Shaped(s) && OnCpu(s, c, e) && WaitStep(s, s', c, e, fails)
    ensures Spares(s, s', c, e)
  {
    hide LocalOk;
  }

  lemma UserSpares(s: State, s': State, c: int, e: int, to: Thread)
    requires Shaped(s) && OnCpu(s, c, e) && UserStep(s, s', c, e, to)
    ensures Spares(s, s', c, e)
  {
    hide LocalOk;
  }

  lemma ForkSpares(s: State, s': State, c: int, e: int, fails: bool)
    requires Shaped(s) && OnCpu(s, c, e) && ForkStep(s, s', c, e, fails)
    ensures Spares(s, s', c, e)
  {
  }

  lemma ThreadSpares(s: State, s': State, c: int, e: int)
    requires Shaped(s) && OnCpu(s, c, e) && ThreadStep(s, s', c, e)
    ensures Spares(s, s', c, e)
  {
    hide Shaped, OnCpu, Spares, UserStep, SwitchStep, WakeStep, KillStep, ForkStep, ExitStep, WaitStep;
    if SwitchStep(s, s', c, e) {
      SwitchSpares(s, s', c, e);
    } else if WakeStep(s, s', c, e) {
      WakeSpares(s, s', c, e);
    } else if ExitStep(s, s', c, e) {
      ExitSpares(s, s', c, e);
    } else if KillStep(s, s', c, e) {
      KillSpares(s, s', c, e);
    } else if to :| UserStep(s, s', c, e, to) {
      UserSpares(s, s', c, e, to);
    } else if fails :| ForkStep(s, s', c, e, fails) {
      ForkSpares(s, s', c, e, fails);
    } else {
      var fails :| WaitStep(s, s', c, e, fails);
      WaitSpares(s, s', c, e, fails);
    }
  }

  /** Program counters and registers change in the thread's own steps, or when allocproc sets up a new thread. */
  lemma OnlyOwnSteps(s: State, s': State, c: int, i: int)
    requires Inv(s) && 0 <= c < |s.cpus| && CpuStep(s, s', c) && 0 <= i < |s.procs|
    ensures |s'.thr| == |s.thr| && s.hist.nextpid <= s'.hist.nextpid
    ensures || Regs(s'.thr[i]) == Regs(s.thr[i]) || OwnStep(s, s', c, i)
            || (s.procs[i].state == UNUSED && s'.thr[i] == FreshThread)
  {
    hide LocalOk, LocalInv, CpuInv, LockInv, StateInv, WaitLockInv, ParentInv, ExitInv, ForkInv, ScanInv, WakeInv,
         PidInv, ThreadStep;
    var e := s.cpus[c].k;
    if s.cpus[c].at == Run && OnCpu(s, c, e) && ThreadStep(s, s', c, e) {
      ThreadSpares(s, s', c, e);
    }
  }

  /**
   scheduler() on CPU d goes on to the next process from one that is not RUNNABLE, or
   that it has run; a RUNNABLE one it has locked, it runs.
   */
  lemma SchedulerSteps(s: State, s': State, c: int, d: int)
    requires Inv(s) && 0 <= c < |s.cpus| && 0 <= d < |s.cpus| && CpuStep(s, s', c)
    ensures |s'.cpus| == |s.cpus|
    ensures s'.cpus[d].k != s.cpus[d].k ==>
              && s'.cpus[d].k == (if s.cpus[d].k + 1 == |s.procs| then 0 else s.cpus[d].k + 1)
              && s'.cpus[d].at == Scan
              && (s.cpus[d].at == Drop || (s.cpus[d].at == Have && s.procs[s.cpus[d].k].state != RUNNABLE))
    ensures s'.cpus[d].at == Back && s.cpus[d].at != Back ==> s.cpus[d].at == Run
    ensures s'.cpus[d].at == Drop && s.cpus[d].at != Drop ==> s.cpus[d].at == Back
    ensures s.cpus[d].at == Have && s'.cpus[d].at != Have && s.procs[s.cpus[d].k].state == RUNNABLE ==>
              s'.cpus[d].at == Run && s'.cpus[d].k == s.cpus[d].k
  {
    hide LocalOk, LocalInv, CpuInv, LockInv, StateInv, WaitLockInv, ParentInv, ExitInv, ForkInv, ScanInv, WakeInv,
         PidInv, ThreadStep;
    var e := s.cpus[c].k;
    if s.cpus[c].at == Run && OnCpu(s, c, e) && ThreadStep(s, s', c, e) {
      ThreadSpares(s, s', c, e);
    }
  }
}
