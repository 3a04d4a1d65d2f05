/**
 What wait(), kill(), wakeup() and fork() have done when they return, over whole
 runs: a call goes on while the other CPUs take any steps they like.
 */
module ProcCalls {
  import opened Proc
  import opened ProcTheorems
  import opened ProcSteps

  // ---------- One step of a run ----------

  lemma {:induction false} SameSize(run: seq<State>, a: nat, b: nat)
    requires IsRun(run) && a <= b < |run|
    ensures |run[b].procs| == |run[a].procs| && |run[b].thr| == |run[b].procs|
  {
    hide Init, Next, Inv;
    RunInv(run, b);
    ShapedInv(run[b]);
    if a < b {
      SameSize(run, a, b - 1);
      RunInv(run, b - 1);
      assert Next(run[b - 1], run[b]);
      NextSize(run[b - 1], run[b]);
    }
  }

  lemma ShapedInv(s: State)
    requires Inv(s)
    ensures Shaped(s)
  {
  }

  lemma NextSize(s: State, s': State)
    requires Inv(s) && Next(s, s')
    ensures |s'.procs| == |s.procs|
  {
    hide CpuStep, Causes, LocalInv, CpuInv, LockInv, StateInv, WaitLockInv, ParentInv, ExitInv, ForkInv, ScanInv,
         WakeInv, PidInv;
    var c :| 0 <= c < |s.cpus| && CpuStep(s, s', c);
    var _ := StepCause(s, s', c, s.init);
  }

  /** A thread that is not inside swtch belongs to a process in use. */
  lemma InUse(s: State, i: int)
    requires Inv(s) && 0 <= i < |s.procs| && s.thr[i].pc != Resume
    ensures s.procs[i].state != UNUSED && LocalOk(|s.procs|, i, s.thr[i])
  {
    hide CpuInv, LockInv, WaitLockInv, ParentInv, ExitInv, ForkInv, ScanInv, WakeInv, PidInv;
    assert StateOk(i, s.procs[i], s.thr[i], s.on[i]);
  }

  /** The next step of a run leaves thread i where it is, or it is the thread's own. */
  lemma NextStep(run: seq<State>, m: nat, i: int) returns (c: int)
    requires IsRun(run) && m + 1 < |run| && 0 <= i < |run[m].procs| == |run[m].thr| && run[m].thr[i].pc != Resume
    ensures Inv(run[m]) && Inv(run[m + 1]) && Shaped(run[m]) && |run[m + 1].procs| == |run[m].procs|
    ensures |run[m + 1].thr| == |run[m].thr| && LocalOk(|run[m].procs|, i, run[m].thr[i])
    ensures 0 <= c < |run[m].cpus| && CpuStep(run[m], run[m + 1], c)
    ensures run[m].hist.nextpid <= run[m + 1].hist.nextpid
    ensures Regs(run[m + 1].thr[i]) == Regs(run[m].thr[i]) || OwnStep(run[m], run[m + 1], c, i)
  {
    hide CpuStep, Init, OwnStep, LocalOk, Inv;
    RunInv(run, m);
    RunInv(run, m + 1);
    SameSize(run, m, m + 1);
    assert Next(run[m], run[m + 1]);
    c :| 0 <= c < |run[m].cpus| && CpuStep(run[m], run[m + 1], c);
    ShapedInv(run[m]);
    ShapedInv(run[m + 1]);
    InUse(run[m], i);
    OnlyOwnSteps(run[m], run[m + 1], c, i);
  }

  // ---------- kill() ----------

  ghost predicate HasPid(s: State, x: int, pid: nat) {
    0 <= x < |s.procs| && s.procs[x].pid == pid
  }

  /** Process x, which had this pid, has been killed: it will not go on sleeping. */
  ghost predicate KillHits(s: State, s': State, x: int, pid: nat) {
    && HasPid(s, x, pid) && HasPid(s', x, pid)
    && s'.procs[x].killed && s'.procs[x].state == if s.procs[x].state == SLEEPING then RUNNABLE else s.procs[x].state
  }

  ghost predicate InKill(s: State, i: int, pid: nat) {
    0 <= i < |s.thr| && s.thr[i].pc == Kill && s.thr[i].pid == pid
  }

  /** At some time from a on, and before b, process x did not have this pid. */
  ghost predicate PidSeenElsewhere(run: seq<State>, a: nat, b: nat, x: int, pid: nat)
    requires b <= |run|
  {
    exists m | a <= m < b :: !HasPid(run[m], x, pid)
  }

  lemma KillMoves(s: State, s': State, c: int, i: int)
    requires OwnStep(s, s', c, i) && s.thr[i].pc == Kill
    ensures KillStep(s, s', c, i)
  {
    hide LocalOk, KillStep;
  }

  /** One step of the search. */
  lemma KillSearch(s: State, s': State, c: int, i: int, pid: nat)
    requires InKill(s, i, pid) && Shaped(s) && |s'.thr| == |s.thr| && LocalOk(|s.procs|, i, s.thr[i])
    requires Regs(s'.thr[i]) == Regs(s.thr[i]) || OwnStep(s, s', c, i)
    ensures InKill(s', i, pid) ==>
              s'.thr[i].k == s.thr[i].k || (s'.thr[i].k == s.thr[i].k + 1 && !HasPid(s, s.thr[i].k, pid))
    ensures !InKill(s', i, pid) ==>
              s'.thr[i].pc == User && (s.thr[i].k == |s.procs| || KillHits(s, s', s.thr[i].k, pid))
  {
    hide ThreadStep;
    if Regs(s'.thr[i]) == Regs(s.thr[i]) {
      assert s'.thr[i].pc == Regs(s'.thr[i]).pc && s'.thr[i].pid == Regs(s'.thr[i]).pid;
      assert s'.thr[i].k == Regs(s'.thr[i]).k;
    } else {
      KillMoves(s, s', c, i);
    }
  }

  lemma {:induction false} KillScans(run: seq<State>, a: nat, b: nat, i: int, pid: nat)
    requires IsRun(run) && a <= b < |run| && 0 <= i < |run[a].procs|
    requires InKill(run[a], i, pid) && run[a].thr[i].k == 0
    requires forall m | a <= m <= b :: InKill(run[m], i, pid)
    ensures 0 <= i < |run[b].procs| == |run[b].thr|
    ensures forall x | 0 <= x < run[b].thr[i].k :: PidSeenElsewhere(run, a, b, x, pid)
  {
    hide IsRun, LocalOk, Inv, Shaped, OwnStep, HasPid, CpuStep;
    SameSize(run, a, b);
    if a < b {
      KillScans(run, a, b - 1, i, pid);
      assert InKill(run[b - 1], i, pid);
      var c := NextStep(run, b - 1, i);
      KillSearch(run[b - 1], run[b], c, i, pid);
      forall x | 0 <= x < run[b].thr[i].k ensures PidSeenElsewhere(run, a, b, x, pid) {
        if x < run[b - 1].thr[i].k {
          assert PidSeenElsewhere(run, a, b - 1, x, pid);
        } else {
          assert !HasPid(run[b - 1], x, pid);
        }
      }
    }
  }

  /**
   kill(pid) from entry to return: the process with that pid is marked killed and
   does not go on sleeping; or kill has seen every process without it.
   */
  lemma KillReturns(run: seq<State>, a: nat, b: nat, i: int, pid: nat)
    requires IsRun(run) && a < b < |run| && 0 <= i < |run[a].procs|
    requires InKill(run[a], i, pid) && run[a].thr[i].k == 0
    requires (forall m | a <= m < b :: InKill(run[m], i, pid)) && !InKill(run[b], i, pid)
    ensures i < |run[b - 1].thr| == |run[b].thr| && run[b].thr[i].pc == User
    ensures KillHits(run[b - 1], run[b], run[b - 1].thr[i].k, pid)
            || (forall x | 0 <= x < |run[a].procs| :: PidSeenElsewhere(run, a, b, x, pid))
  {
    hide IsRun, LocalOk, Inv, Shaped, OwnStep, HasPid, KillHits, CpuStep;
    assert InKill(run[b - 1], i, pid);
    KillScans(run, a, b - 1, i, pid);
    SameSize(run, a, b - 1);
    var c := NextStep(run, b - 1, i);
    KillSearch(run[b - 1], run[b], c, i, pid);
    if run[b - 1].thr[i].k == |run[a].procs| {
      forall x | 0 <= x < |run[a].procs| ensures PidSeenElsewhere(run, a, b, x, pid) {
        assert PidSeenElsewhere(run, a, b - 1, x, pid);
      }
    }
  }

  // ---------- wakeup() ----------

  ghost predicate SleepsOn(s: State, x: int, chan: Chan) {
    0 <= x < |s.procs| && s.procs[x].state == SLEEPING && s.procs[x].chan == chan
  }

  ghost predicate InWake(s: State, i: int, chan: Chan) {
    0 <= i < |s.thr| && s.thr[i].pc == Wake && s.thr[i].chan == chan
  }

  /** At some time from a up to b process x did not sleep on the channel. */
  ghost predicate SeenAwake(run: seq<State>, a: nat, b: nat, x: int, chan: Chan)
    requires b < |run|
  {
    exists m | a <= m <= b :: !SleepsOn(run[m], x, chan)
  }

  lemma WakeMoves(s: State, s': State, c: int, i: int)
    requires OwnStep(s, s', c, i) && s.thr[i].pc == Wake
    ensures WakeStep(s, s', c, i)
  {
    hide LocalOk, WakeStep;
  }

  lemma WakeSearch(s: State, s': State, c: int, i: int, chan: Chan)
    requires InWake(s, i, chan) && Shaped(s) && |s'.thr| == |s.thr| && LocalOk(|s.procs|, i, s.thr[i])
    requires Regs(s'.thr[i]) == Regs(s.thr[i]) || OwnStep(s, s', c, i)
    ensures InWake(s', i, chan) ==>
              || s'.thr[i].j == s.thr[i].j
              || (s'.thr[i].j == s.thr[i].j + 1 && (s.thr[i].j == i || !SleepsOn(s', s.thr[i].j, chan)))
    ensures !InWake(s', i, chan) ==> s.thr[i].j == |s.procs|
  {
    hide ThreadStep;
    if Regs(s'.thr[i]) == Regs(s.thr[i]) {
      assert s'.thr[i].pc == Regs(s'.thr[i]).pc && s'.thr[i].chan == Regs(s'.thr[i]).chan;
      assert s'.thr[i].j == Regs(s'.thr[i]).j;
    } else {
      WakeMoves(s, s', c, i);
    }
  }

  lemma {:induction false} WakeScans(run: seq<State>, a: nat, b: nat, i: int, chan: Chan)
    requires IsRun(run) && a <= b < |run| && 0 <= i < |run[a].procs|
    requires InWake(run[a], i, chan) && run[a].thr[i].j == 0
    requires forall m | a <= m <= b :: InWake(run[m], i, chan)
    ensures 0 <= i < |run[b].procs| == |run[b].thr|
    ensures forall x | 0 <= x < run[b].thr[i].j && x != i :: SeenAwake(run, a, b, x, chan)
  {
    hide IsRun, LocalOk, Inv, Shaped, OwnStep, SleepsOn, CpuStep;
    SameSize(run, a, b);
    if a < b {
      WakeScans(run, a, b - 1, i, chan);
      assert InWake(run[b - 1], i, chan);
      var c := NextStep(run, b - 1, i);
      WakeSearch(run[b - 1], run[b], c, i, chan);
      forall x | 0 <= x < run[b].thr[i].j && x != i ensures SeenAwake(run, a, b, x, chan) {
        if x < run[b - 1].thr[i].j {
          assert SeenAwake(run, a, b - 1, x, chan);
        } else {
          assert !SleepsOn(run[b], x, chan);
        }
      }
    }
  }

  /** When wakeup(chan) returns, it has seen or made every other process awake or asleep elsewhere. */
  lemma WakeupReturns(run: seq<State>, a: nat, b: nat, i: int, chan: Chan)
    requires IsRun(run) && a < b < |run| && 0 <= i < |run[a].procs|
    requires InWake(run[a], i, chan) && run[a].thr[i].j == 0
    requires (forall m | a <= m < b :: InWake(run[m], i, chan)) && !InWake(run[b], i, chan)
    ensures forall x | 0 <= x < |run[a].procs| && x != i :: SeenAwake(run, a, b, x, chan)
  {
    hide IsRun, LocalOk, Inv, Shaped, OwnStep, SleepsOn, CpuStep;
    assert InWake(run[b - 1], i, chan);
    WakeScans(run, a, b - 1, i, chan);
    SameSize(run, a, b - 1);
    var c := NextStep(run, b - 1, i);
    WakeSearch(run[b - 1], run[b], c, i, chan);
    forall x | 0 <= x < |run[a].procs| && x != i ensures SeenAwake(run, a, b, x, chan) {
      assert SeenAwake(run, a, b - 1, x, chan);
    }
  }

  // ---------- fork() ----------

  ghost predicate InFork(s: State, i: int) {
    0 <= i < |s.thr| && (s.thr[i].pc == ForkScan || Making(s.thr[i]))
  }

  ghost predicate Taken(s: State, x: int) {
    0 <= x < |s.procs| && s.procs[x].state != UNUSED
  }

  ghost predicate SeenTaken(run: seq<State>, a: nat, b: nat, x: int)
    requires b <= |run|
  {
    exists m | a <= m < b :: Taken(run[m], x)
  }

  /** Process x is being made, with a pid not given before. */
  ghost predicate Newborn(s: State, x: int, pids: nat) {
    0 <= x < |s.procs| && s.procs[x].state == USED && pids <= s.procs[x].pid
  }

  /** Process x, a new child of i, has become RUNNABLE. */
  ghost predicate Forked(s: State, s': State, i: int, x: int, pids: nat) {
    && Newborn(s, x, pids) && s.procs[x].parent == i
    && x < |s'.procs| && s'.procs[x] == s.procs[x].(state := RUNNABLE)
  }

  ghost predicate Unforked(s: State, s': State, i: int, x: int) {
    && 0 <= i < |s.thr| && s.thr[i].pc == ForkMade
    && 0 <= x < |s.procs| == |s'.procs| && s.procs[x].state == USED && s'.procs[x] == FreedProcess
  }

  lemma ForkMoves(s: State, s': State, c: int, i: int) returns (fails: bool)
    requires OwnStep(s, s', c, i) && (s.thr[i].pc == ForkScan || Making(s.thr[i]))
    ensures ForkStep(s, s', c, i, fails)
  {
    hide LocalOk, ForkStep;
    fails :| ForkStep(s, s', c, i, fails);
  }

  /** What fork() has done so far. */
  ghost predicate ForkSoFar(run: seq<State>, a: nat, b: nat, i: int)
    requires a <= b < |run|
  {
    && 0 <= i < |run[b].thr| == |run[b].procs| && run[a].hist.nextpid <= run[b].hist.nextpid
    && if run[b].thr[i].pc == ForkScan then forall x | 0 <= x < run[b].thr[i].k :: SeenTaken(run, a, b, x)
       else Newborn(run[b], run[b].thr[i].k, run[a].hist.nextpid)
  }

  lemma ForkSearch(s: State, s': State, c: int, i: int)
    requires InFork(s, i) && Shaped(s) && ForkInv(s) && |s'.thr| == |s.thr| && LocalOk(|s.procs|, i, s.thr[i])
    requires Regs(s'.thr[i]) == Regs(s.thr[i]) || OwnStep(s, s', c, i)
    ensures InFork(s', i) && s.thr[i].pc == ForkScan && s'.thr[i].pc == ForkScan ==>
              s'.thr[i].k == s.thr[i].k || (s'.thr[i].k == s.thr[i].k + 1 && Taken(s, s.thr[i].k))
    ensures InFork(s', i) && s.thr[i].pc == ForkScan && s'.thr[i].pc != ForkScan ==>
              Newborn(s', s'.thr[i].k, s.hist.nextpid)
    ensures InFork(s', i) && s.thr[i].pc != ForkScan ==> s'.thr[i].pc != ForkScan && s'.thr[i].k == s.thr[i].k
    ensures !InFork(s', i) ==> s'.thr[i].pc == User
    ensures !InFork(s', i) && s.thr[i].pc == ForkScan ==> s.thr[i].k == |s.procs|
    ensures !InFork(s', i) && s.thr[i].pc != ForkScan ==>
              || Unforked(s, s', i, s.thr[i].k)
              || (s.thr[i].k < |s.procs| == |s'.procs| && s.procs[s.thr[i].k].parent == i
                  && s'.procs[s.thr[i].k] == s.procs[s.thr[i].k].(state := RUNNABLE))
  {
    hide ThreadStep;
    if Regs(s'.thr[i]) == Regs(s.thr[i]) {
      assert s'.thr[i].pc == Regs(s'.thr[i]).pc && s'.thr[i].k == Regs(s'.thr[i]).k;
    } else {
      var fails := ForkMoves(s, s', c, i);
    }
  }

  /** A process keeps its pid and state while it is being made. */
  lemma NewbornStays(s: State, s': State, c: int, i: int)
    requires Inv(s) && 0 <= c < |s.cpus| && CpuStep(s, s', c) && 0 <= i < |s.procs| && Making(s.thr[i])
    requires Inv(s') && |s'.thr| == |s.thr| && Making(s'.thr[i]) && s'.thr[i].k == s.thr[i].k
    ensures s'.procs[s.thr[i].k].pid == s.procs[s.thr[i].k].pid && s'.procs[s.thr[i].k].state == USED
  {
    hide CpuStep, LocalInv, CpuInv, LockInv, StateInv, WaitLockInv, ParentInv, ExitInv, ScanInv, WakeInv, PidInv;
    var x := s.thr[i].k;
    var cause := StepCause(s, s', c, x);
  }

  lemma ForkInvOf(s: State)
    requires Inv(s)
    ensures Shaped(s) && ForkInv(s)
  {
  }

  lemma {:induction false} ForkScans(run: seq<State>, a: nat, b: nat, i: int)
    requires IsRun(run) && a <= b < |run| && 0 <= i < |run[a].procs|
    requires InFork(run[a], i) && run[a].thr[i].pc == ForkScan && run[a].thr[i].k == 0
    requires forall m | a <= m <= b :: InFork(run[m], i)
    ensures ForkSoFar(run, a, b, i)
  {
    hide IsRun, LocalOk, Inv, Shaped, OwnStep, Taken, CpuStep, ForkInv;
    SameSize(run, a, b);
    if a < b {
      ForkScans(run, a, b - 1, i);
      assert InFork(run[b - 1], i) && InFork(run[b], i);
      var s, s' := run[b - 1], run[b];
      var c := NextStep(run, b - 1, i);
      ForkInvOf(s);
      ForkSearch(s, s', c, i);
      if s'.thr[i].pc == ForkScan {
        forall x | 0 <= x < s'.thr[i].k ensures SeenTaken(run, a, b, x) {
          if x < s.thr[i].k {
            assert SeenTaken(run, a, b - 1, x);
          } else {
            assert Taken(run[b - 1], x);
          }
        }
      } else if s.thr[i].pc != ForkScan {
        NewbornStays(s, s', c, i);
        assert Newborn(s, s.thr[i].k, run[a].hist.nextpid);
      }
    }
  }

  /**
   fork() from entry to return: it has made a child of the caller RUNNABLE, with a
   pid never given before; or taken back the entry it allocated; or seen every
   entry of the table in use.
   */
  lemma ForkReturns(run: seq<State>, a: nat, b: nat, i: int)
    requires IsRun(run) && a < b < |run| && 0 <= i < |run[a].procs|
    requires InFork(run[a], i) && run[a].thr[i].pc == ForkScan && run[a].thr[i].k == 0
    requires (forall m | a <= m < b :: InFork(run[m], i)) && !InFork(run[b], i)
    ensures i < |run[b - 1].thr| == |run[b].thr| && run[b].thr[i].pc == User
    ensures || Forked(run[b - 1], run[b], i, run[b - 1].thr[i].k, run[a].hist.nextpid)
            || Unforked(run[b - 1], run[b], i, run[b - 1].thr[i].k)
            || (forall x | 0 <= x < |run[a].procs| :: SeenTaken(run, a, b, x))
  {
    hide IsRun, LocalOk, Inv, Shaped, OwnStep, Taken, CpuStep, ForkInv;
    assert InFork(run[b - 1], i);
    ForkScans(run, a, b - 1, i);
    SameSize(run, a, b - 1);
    var c := NextStep(run, b - 1, i);
    ForkInvOf(run[b - 1]);
    ForkSearch(run[b - 1], run[b], c, i);
    if run[b - 1].thr[i].pc == ForkScan {
      forall x | 0 <= x < |run[a].procs| ensures SeenTaken(run, a, b, x) {
        assert SeenTaken(run, a, b - 1, x);
      }
    }
  }

  // ---------- wait() ----------

  ghost predicate IsChild(s: State, x: int, i: int) {
    0 <= x < |s.procs| && s.procs[x].parent == i
  }

  /** Some process below position k has parent i. */
  ghost predicate HasChild(s: State, i: int, k: int) {
    exists x | 0 <= x < k :: IsChild(s, x, i)
  }

  /** havekids says whether a child has been seen, and the child that ends the search is reaped or still a ZOMBIE. */
  ghost predicate KidsOk(s: State, i: int)
    requires Shaped(s) && 0 <= i < |s.procs|
  {
    var t := s.thr[i];
    match t.pc
    case WaitScan => t.have <==> HasChild(s, i, t.k)
    case WaitKid => t.have <==> HasChild(s, i, t.k)
    case WaitKill => HasChild(s, i, |s.procs|)
    case WaitSleep => t.w ==> HasChild(s, i, |s.procs|)
    case _ => true
  }

  ghost predicate KidsInv(s: State)
    requires Shaped(s)
  {
    forall i | 0 <= i < |s.procs| :: KidsOk(s, i)
  }

  /** While process i holds wait_lock and takes no step, no process gets or loses a parent. */
  lemma ParentsStay(s: State, s': State, c: int, i: int, x: int)
    requires Inv(s) && 0 <= c < |s.cpus| && CpuStep(s, s', c) && 0 <= i < |s.procs| && s.wlock == i
    requires !OwnStep(s, s', c, i) && 0 <= x < |s.procs| == |s'.procs|
    ensures s'.procs[x].parent == s.procs[x].parent
  {
    hide LocalInv, CpuInv, LockInv, StateInv, WaitLockInv, ParentInv, ExitInv, ForkInv, ScanInv, WakeInv, PidInv,
         LocalOk, IntrStep, SchedulerStep, IdleWakeStep, ThreadStep;
    var cause := StepCause(s, s', c, x);
    if s'.procs[x].parent != s.procs[x].parent {
      assert Acts(s, c, i, s.thr[i].pc);
      HolderIsNotInterrupted(s, s', c, i);
    }
  }

  lemma HolderIsNotInterrupted(s: State, s': State, c: int, i: int)
    requires Inv(s) && OnCpu(s, c, i) && CpuStep(s, s', c) && s.wlock == i
    ensures OwnStep(s, s', c, i)
  {
    hide LocalInv, CpuInv, LockInv, StateInv, ParentInv, ExitInv, ForkInv, ScanInv, WakeInv, PidInv, ThreadStep,
         LocalOk;
    assert s.thr[i].w;
  }

  /** The part of wait() that holds wait_lock and goes by havekids. */
  predicate Counting(t: Thread) {
    t.pc == WaitScan || t.pc == WaitKid || t.pc == WaitKill || (t.pc == WaitSleep && t.w)
  }

  lemma WaitMoves(s: State, s': State, c: int, i: int) returns (fails: bool)
    requires OwnStep(s, s', c, i) && InWait(s, i)
    ensures WaitStep(s, s', c, i, fails)
  {
    hide LocalOk, WaitStep;
    fails :| WaitStep(s, s', c, i, fails);
  }

  ghost predicate InWait(s: State, i: int) {
    && 0 <= i < |s.thr|
    && (s.thr[i].pc == WaitStart || s.thr[i].pc == WaitScan || s.thr[i].pc == WaitKid || s.thr[i].pc == WaitDrop
        || s.thr[i].pc == WaitKill || s.thr[i].pc == WaitLeave || s.thr[i].pc == WaitSleep)
  }

  lemma KidsElsewhere(s: State, s': State, c: int, i: int)
    requires Inv(s) && Shaped(s') && 0 <= c < |s.cpus| && CpuStep(s, s', c) && !OwnStep(s, s', c, i)
    requires 0 <= i < |s.procs| == |s'.procs| && Regs(s'.thr[i]) == Regs(s.thr[i]) && KidsOk(s, i)
    ensures KidsOk(s', i)
  {
    hide CpuInv, LockInv, StateInv, ParentInv, ExitInv, ForkInv, ScanInv, WakeInv, PidInv, CpuStep, OwnStep;
    var t, t' := s.thr[i], s'.thr[i];
    assert t'.pc == Regs(t').pc && t'.k == Regs(t').k && t'.have == Regs(t').have && t'.w == Regs(t').w;
    assert LocalOk(|s.procs|, i, t);
    if Counting(t) {
      forall x | 0 <= x < |s.procs| ensures IsChild(s', x, i) <==> IsChild(s, x, i) {
        ParentsStay(s, s', c, i, x);
      }
    }
  }

  lemma KidsOwn(s: State, s': State, c: int, i: int)
    requires Inv(s) && Shaped(s') && |s'.procs| == |s.procs| && OwnStep(s, s', c, i) && KidsOk(s, i)
    ensures KidsOk(s', i)
  {
    hide LocalInv, CpuInv, LockInv, StateInv, WaitLockInv, ParentInv, ExitInv, ForkInv, WakeInv, PidInv, IsChild;
    if InWait(s, i) {
      var fails := WaitMoves(s, s', c, i);
      KidsWait(s, s', c, i, fails);
    } else {
      NoWaitStep(s, s', c, i);
    }
  }

  /** A scan that has looked at one more process. */
  lemma HasChildMore(s: State, s': State, i: int, k: int)
    requires 0 <= k && s'.procs == s.procs
    ensures HasChild(s', i, k) == HasChild(s, i, k)
    ensures HasChild(s', i, k + 1) <==> HasChild(s, i, k) || IsChild(s, k, i)
  {
    assert forall x :: IsChild(s', x, i) == IsChild(s, x, i);
    assert HasChild(s, i, k) ==> exists x | 0 <= x < k :: IsChild(s', x, i);
    assert HasChild(s', i, k + 1) ==> HasChild(s, i, k) || IsChild(s, k, i) by {
      if x :| 0 <= x < k + 1 && IsChild(s', x, i) {
        assert IsChild(s, x, i);
      }
    }
  }

  lemma KidsWait(s: State, s': State, c: int, i: int, fails: bool)
    requires Shaped(s) && Shaped(s') && ScanInv(s) && |s'.procs| == |s.procs|
    requires OnCpu(s, c, i) && InWait(s, i) && WaitStep(s, s', c, i, fails) && KidsOk(s, i)
    ensures KidsOk(s', i)
  {
    hide HasChild, Seen;
    var t := s.thr[i];
    if s'.procs == s.procs {
      HasChildMore(s, s', i, t.k);
      HasChildMore(s, s', i, |s.procs|);
    }
    if t.pc == WaitStart {
      NoChildYet(s', i);
    }
  }

  lemma NoChildYet(s: State, i: int)
    ensures !HasChild(s, i, 0)
  {
  }

  lemma SwitchCountsNot(s: State, s': State, c: int, i: int)
    requires Shaped(s) && OnCpu(s, c, i) && SwitchStep(s, s', c, i)
    ensures i < |s'.thr| && !Counting(s'.thr[i])
  {
    hide LocalOk;
  }

  lemma WakeCountsNot(s: State, s': State, c: int, i: int)
    requires Shaped(s) && OnCpu(s, c, i) && WakeStep(s, s', c, i)
    ensures i < |s'.thr| && !Counting(s'.thr[i])
  {
    hide LocalOk;
  }

  lemma KillCountsNot(s: State, s': State, c: int, i: int)
    requires Shaped(s) && OnCpu(s, c, i) && KillStep(s, s', c, i)
    ensures i < |s'.thr| && !Counting(s'.thr[i])
  {
    hide LocalOk;
  }

  lemma ExitCountsNot(s: State, s': State, c: int, i: int)
    requires Shaped(s) && OnCpu(s, c, i) && ExitStep(s, s', c, i)
    ensures i < |s'.thr| && !Counting(s'.thr[i])
  {
    hide LocalOk;
  }

  lemma UserCountsNot(s: State, s': State, c: int, i: int, to: Thread)
    requires Shaped(s) && OnCpu(s, c, i) && UserStep(s, s', c, i, to)
    ensures i < |s'.thr| && !Counting(s'.thr[i])
  {
    hide LocalOk;
  }

  lemma ForkCountsNot(s: State, s': State, c: int, i: int, fails: bool)
    requires Shaped(s) && OnCpu(s, c, i) && ForkStep(s, s', c, i, fails)
    ensures i < |s'.thr| && !Counting(s'.thr[i])
  {
  }

  lemma NoWaitStep(s: State, s': State, c: int, i: int)
    requires OwnStep(s, s', c, i) && !InWait(s, i)
    ensures i < |s'.thr| && !Counting(s'.thr[i])
  {
    hide Shaped, OnCpu, UserStep, SwitchStep, WakeStep, KillStep, ForkStep, ExitStep, WaitStep, Counting, InWait;
    if SwitchStep(s, s', c, i) {
      SwitchCountsNot(s, s', c, i);
    } else if WakeStep(s, s', c, i) {
      WakeCountsNot(s, s', c, i);
    } else if ExitStep(s, s', c, i) {
      ExitCountsNot(s, s', c, i);
    } else if KillStep(s, s', c, i) {
      KillCountsNot(s, s', c, i);
    } else if to :| UserStep(s, s', c, i, to) {
      UserCountsNot(s, s', c, i, to);
    } else if fails :| ForkStep(s, s', c, i, fails) {
      ForkCountsNot(s, s', c, i, fails);
    } else {
      var fails :| WaitStep(s, s', c, i, fails);
      WaitIsInWait(s, s', c, i, fails);
    }
  }

  lemma WaitIsInWait(s: State, s': State, c: int, i: int, fails: bool)
    requires Shaped(s) && OnCpu(s, c, i) && WaitStep(s, s', c, i, fails)
    ensures InWait(s, i)
  {
    hide LocalOk;
  }

  lemma KidsNext(s: State, s': State)
    requires Inv(s) && Inv(s') && Next(s, s') && |s'.procs| == |s.procs| && KidsInv(s)
    ensures KidsInv(s')
  {
    hide LocalInv, CpuInv, LockInv, StateInv, WaitLockInv, ParentInv, ExitInv, ForkInv, ScanInv, WakeInv, PidInv,
         CpuStep, OwnStep, KidsOk;
    var c :| 0 <= c < |s.cpus| && CpuStep(s, s', c);
    forall i | 0 <= i < |s'.procs| ensures KidsOk(s', i) {
      assert KidsOk(s, i);
      OnlyOwnSteps(s, s', c, i);
      if OwnStep(s, s', c, i) {
        KidsOwn(s, s', c, i);
      } else if Regs(s'.thr[i]) == Regs(s.thr[i]) {
        KidsElsewhere(s, s', c, i);
      } else {
        FreshCountsNot(s', i);
      }
    }
  }

  lemma FreshCountsNot(s: State, i: int)
    requires Shaped(s) && 0 <= i < |s.procs| && s.thr[i] == FreshThread
    ensures KidsOk(s, i)
  {
  }

  lemma {:induction false} RunKids(run: seq<State>, m: nat)
    requires IsRun(run) && m < |run|
    ensures Shaped(run[m]) && KidsInv(run[m])
  {
    hide Init, Next, Inv, KidsInv, Shaped;
    RunInv(run, m);
    ShapedInv(run[m]);
    if m == 0 {
      BootKids(run[0]);
    } else {
      RunKids(run, m - 1);
      RunInv(run, m - 1);
      SameSize(run, m - 1, m);
      KidsNext(run[m - 1], run[m]);
    }
  }

  lemma BootKids(s: State)
    requires Init(s)
    ensures Shaped(s) && KidsInv(s)
  {
    forall i | 0 <= i < |s.procs| ensures KidsOk(s, i) {
      FreshCountsNot(s, i);
    }
  }

  ghost predicate Leaving(s: State, i: int) {
    0 <= i < |s.thr| && (s.thr[i].pc == WaitDrop || s.thr[i].pc == WaitLeave)
  }

  /** freeproc of a ZOMBIE child; wait() returns its pid. */
  ghost predicate ReapsChild(s: State, s': State, i: int, x: int) {
    && IsChild(s, x, i) && s.procs[x].state == ZOMBIE
    && s'.procs == s.procs[x := FreedProcess] && s'.hist.reaped == s.hist.reaped + [s.procs[x].pid]
  }

  /** There is a ZOMBIE child, but copyout of its status fails, and it stays. */
  ghost predicate CopyoutFails(s: State, s': State, i: int, x: int) {
    && IsChild(s, x, i) && s.procs[x].state == ZOMBIE
    && s'.procs == s.procs && s'.hist == s.hist && 0 <= i < |s.thr| && s.thr[i].pc == WaitKid
  }

  /** In the sleep() that wait() calls. */
  ghost predicate InSleep(s: State, i: int) {
    0 <= i < |s.thr| && s.thr[i].pc == WaitSleep
  }

  /** What makes wait() return: a child reaped, a failed copyout, no child, or the caller killed. */
  ghost predicate MayLeave(s: State, s': State, i: int) {
    && 0 <= i < |s.thr| == |s.procs|
    && (|| ReapsChild(s, s', i, s.thr[i].k) || CopyoutFails(s, s', i, s.thr[i].k)
        || (s'.hist.reaped == s.hist.reaped && !HasChild(s, i, |s.procs|))
        || (s'.hist.reaped == s.hist.reaped && s.procs[i].killed))
  }

  /** The caller has a child, no ZOMBIE among them, and has not been killed. */
  ghost predicate MustSleep(s: State, i: int) {
    && 0 <= i < |s.procs| && !s.procs[i].killed && HasChild(s, i, |s.procs|)
    && forall x | IsChild(s, x, i) :: s.procs[x].state != ZOMBIE
  }

  /** One step of wait(). */
  ghost predicate Goes(s: State, s': State, i: int)
    requires InWait(s, i) && |s'.thr| == |s.thr|
  {
    && (Leaving(s', i) && !Leaving(s, i) ==> MayLeave(s, s', i))
    && (InWait(s', i) && Leaving(s, i) ==> Leaving(s', i))
    && (InWait(s', i) && s'.thr[i].pc == WaitSleep && s.thr[i].pc != WaitSleep ==> MustSleep(s, i))
    && (InWait(s', i) && s.thr[i].pc == WaitSleep ==> s'.thr[i].pc == WaitSleep)
    && (!InWait(s', i) ==>
          || (Leaving(s, i) && s'.thr[i].pc == User && s'.hist == s.hist)
          || (s.thr[i].pc == WaitSleep && s'.thr[i].pc == Sched && s'.thr[i].r == FromWaitSleep
              && SleepsOn(s', i, OnProc(i)) && s'.wlock != i))
  }

  lemma ScanGoes(s: State, s': State, c: int, i: int, fails: bool)
    requires Inv(s) && OnCpu(s, c, i) && WaitStep(s, s', c, i, fails) && KidsOk(s, i)
    requires s.thr[i].pc == WaitStart || s.thr[i].pc == WaitScan || s.thr[i].pc == WaitKid
    ensures InWait(s, i) && |s'.thr| == |s.thr| && Goes(s, s', i)
  {
    hide LocalInv, CpuInv, LockInv, StateInv, WaitLockInv, ParentInv, ExitInv, ForkInv, WakeInv, PidInv, HasChild;
  }

  lemma DropGoes(s: State, s': State, c: int, i: int, fails: bool)
    requires Inv(s) && OnCpu(s, c, i) && WaitStep(s, s', c, i, fails)
    requires s.thr[i].pc == WaitDrop || s.thr[i].pc == WaitLeave || s.thr[i].pc == WaitSleep
    ensures InWait(s, i) && |s'.thr| == |s.thr| && Goes(s, s', i)
  {
    hide LocalInv, CpuInv, LockInv, StateInv, ParentInv, ExitInv, ForkInv, ScanInv, WakeInv, PidInv, HasChild,
         MayLeave, MustSleep, LocalOk;
  }

  lemma KillGoes(s: State, s': State, c: int, i: int, fails: bool)
    requires Inv(s) && OnCpu(s, c, i) && WaitStep(s, s', c, i, fails) && KidsOk(s, i) && s.thr[i].pc == WaitKill
    ensures InWait(s, i) && |s'.thr| == |s.thr| && Goes(s, s', i)
  {
    hide LocalInv, CpuInv, LockInv, StateInv, WaitLockInv, ParentInv, ExitInv, ForkInv, WakeInv, PidInv, HasChild;
  }

  lemma WaitGoes(s: State, s': State, c: int, i: int)
    requires InWait(s, i) && Inv(s) && KidsInv(s) && |s'.thr| == |s.thr|
    requires Regs(s'.thr[i]) == Regs(s.thr[i]) || OwnStep(s, s', c, i)
    ensures Goes(s, s', i)
  {
    hide LocalInv, CpuInv, LockInv, StateInv, WaitLockInv, ParentInv, ExitInv, ForkInv, WakeInv, PidInv, ThreadStep,
         WaitStep, KidsOk, MayLeave, MustSleep, LocalOk;
    if Regs(s'.thr[i]) == Regs(s.thr[i]) {
      assert s'.thr[i].pc == Regs(s'.thr[i]).pc;
    } else {
      hide Goes;
      var fails := WaitMoves(s, s', c, i);
      assert KidsOk(s, i);
      if s.thr[i].pc == WaitKill {
        KillGoes(s, s', c, i, fails);
      } else if s.thr[i].pc == WaitStart || s.thr[i].pc == WaitScan || s.thr[i].pc == WaitKid {
        ScanGoes(s, s', c, i, fails);
      } else {
        DropGoes(s, s', c, i, fails);
      }
    }
  }

  /** From a on, before b, something let wait() return, and since then it has been returning. */
  ghost predicate LeftFor(run: seq<State>, a: nat, b: nat, i: int)
    requires b <= |run|
  {
    exists m, m' | a <= m && m' == m + 1 && m' < b ::
      MayLeave(run[m], run[m'], i) && forall l | m < l < b :: Leaving(run[l], i)
  }

  /** From a on, before b, wait() had to sleep, and since then it has been in sleep(). */
  ghost predicate SleepsFor(run: seq<State>, a: nat, b: nat, i: int)
    requires b <= |run|
  {
    exists m | a <= m && m + 1 < b ::
      MustSleep(run[m], i) && forall l | m < l < b :: InSleep(run[l], i)
  }

  lemma StillLeaving(run: seq<State>, a: nat, b: nat, i: int)
    requires a < b < |run| && Leaving(run[b], i)
    requires if Leaving(run[b - 1], i) then LeftFor(run, a, b, i) else MayLeave(run[b - 1], run[b], i)
    ensures LeftFor(run, a, b + 1, i)
  {
    hide MayLeave, Leaving;
    if Leaving(run[b - 1], i) {
      var m, m' :| a <= m && m' == m + 1 && m' < b && MayLeave(run[m], run[m'], i)
                   && forall l | m < l < b :: Leaving(run[l], i);
      assert forall l | m < l < b + 1 :: Leaving(run[l], i);
    } else {
      var m, m' := b - 1, b;
      assert forall l | m < l < b + 1 :: Leaving(run[l], i);
    }
  }

  lemma StillSleeping(run: seq<State>, a: nat, b: nat, i: int)
    requires a < b < |run| && InSleep(run[b], i)
    requires if InSleep(run[b - 1], i) then SleepsFor(run, a, b, i) else MustSleep(run[b - 1], i)
    ensures SleepsFor(run, a, b + 1, i)
  {
    hide MustSleep, InSleep;
    if InSleep(run[b - 1], i) {
      var m :| a <= m && m + 1 < b && MustSleep(run[m], i) && forall l | m < l < b :: InSleep(run[l], i);
      assert forall l | m < l < b + 1 :: InSleep(run[l], i);
    } else {
      var m := b - 1;
      assert forall l | m < l < b + 1 :: InSleep(run[l], i);
    }
  }

  lemma {:induction false} WaitScans(run: seq<State>, a: nat, b: nat, i: int)
    requires IsRun(run) && a <= b < |run| && 0 <= i < |run[a].procs| == |run[a].thr| && run[a].thr[i].pc == WaitStart
    requires forall m | a <= m <= b :: InWait(run[m], i)
    ensures Leaving(run[b], i) ==> LeftFor(run, a, b + 1, i)
    ensures i < |run[b].thr| && (run[b].thr[i].pc == WaitSleep ==> SleepsFor(run, a, b + 1, i))
  {
    hide IsRun, LocalOk, Inv, Shaped, OwnStep, CpuStep, KidsInv, MayLeave, MustSleep, LeftFor, SleepsFor;
    assert InWait(run[b], i);
    if a < b {
      WaitScans(run, a, b - 1, i);
      assert InWait(run[b - 1], i);
      SameSize(run, a, b - 1);
      var c := NextStep(run, b - 1, i);
      RunKids(run, b - 1);
      WaitGoes(run[b - 1], run[b - 1 + 1], c, i);
      if Leaving(run[b], i) {
        StillLeaving(run, a, b, i);
      }
      if run[b].thr[i].pc == WaitSleep {
        StillSleeping(run, a, b, i);
      }
    }
  }

  /**
   One round of wait() ends in one of two ways.  It returns, and that is because it
   has just reaped a child, or could not copy out the status of one, or has found no
   process whose parent is the caller, or the caller killed.  Or it sleeps on the
   caller's own address without wait_lock, and that is because there was a child,
   none of them a ZOMBIE, and the caller was not killed.
   */
  lemma WaitEnds(run: seq<State>, a: nat, b: nat, i: int)
    requires IsRun(run) && a < b < |run| && 0 <= i < |run[a].procs| == |run[a].thr| && run[a].thr[i].pc == WaitStart
    requires (forall m | a <= m < b :: InWait(run[m], i)) && !InWait(run[b], i)
    ensures i < |run[b].thr|
    ensures || (run[b].thr[i].pc == User && LeftFor(run, a, b, i))
            || (run[b].thr[i].pc == Sched && run[b].thr[i].r == FromWaitSleep && SleepsOn(run[b], i, OnProc(i))
                && run[b].wlock != i && SleepsFor(run, a, b, i))
  {
    hide IsRun, LocalOk, Inv, Shaped, OwnStep, CpuStep, KidsInv, MayLeave, MustSleep, LeftFor, SleepsFor;
    assert InWait(run[b - 1], i);
    WaitScans(run, a, b - 1, i);
    SameSize(run, a, b - 1);
    var c := NextStep(run, b - 1, i);
    RunKids(run, b - 1);
    WaitGoes(run[b - 1], run[b - 1 + 1], c, i);
  }

  // ---------- sleep() ----------

  /** Whatever happens to a process in a run has one of the causes of module ProcSteps. */
  lemma ChangeHasCause(run: seq<State>, m: nat, x: int) returns (c: int, cause: Cause)
    requires IsRun(run) && m + 1 < |run| && 0 <= x < |run[m].procs|
    ensures Shaped(run[m]) && |run[m + 1].procs| == |run[m].procs| && |run[m + 1].cpus| == |run[m].cpus|
    ensures 0 <= c < |run[m].cpus|
    ensures run[m + 1].procs[x] == run[m].procs[x] || Causes(run[m], run[m + 1], c, x, cause)
  {
    hide Init, Inv, CpuStep, Causes;
    RunInv(run, m);
    ShapedInv(run[m]);
    assert Next(run[m], run[m + 1]);
    c :| 0 <= c < |run[m].cpus| && CpuStep(run[m], run[m + 1], c);
    cause := StepCause(run[m], run[m + 1], c, x);
  }

  /** Process x stops sleeping, because of wakeup() on its channel or kill() of its pid. */
  ghost predicate IsWoken(s: State, s': State, x: int, c: int, i: int) {
    && Shaped(s) && 0 <= c < |s.cpus| == |s'.cpus| && 0 <= x < |s.procs| == |s'.procs|
    && (Causes(s, s', c, x, Wakes) || Causes(s, s', c, x, Kills(i)))
  }

  lemma {:induction false} SleeperIsWoken(run: seq<State>, a: nat, b: nat, x: int, chan: Chan)
    returns (m: nat, c: int, i: int)
    requires IsRun(run) && a < b < |run| && SleepsOn(run[a], x, chan) && !SleepsOn(run[b], x, chan)
    ensures a <= m < b && SleepsOn(run[m], x, chan) && IsWoken(run[m], run[m + 1], x, c, i)
    decreases b - a
  {
    hide IsRun, Shaped;
    var cause;
    c, cause := ChangeHasCause(run, a, x);
    if SleepsOn(run[a + 1], x, chan) {
      m, c, i := SleeperIsWoken(run, a + 1, b, x, chan);
    } else {
      m, i := a, if cause.Kills? then cause.i else 0;
    }
  }

  // ---------- scheduler() ----------

  /** CPU d has run process x, or seen that it was not RUNNABLE. */
  ghost predicate Served(s: State, d: int, x: int) {
    && 0 <= d < |s.cpus| && 0 <= x < |s.procs|
    && (s.procs[x].state != RUNNABLE || (s.cpus[d].at == Run && s.cpus[d].k == x))
  }

  ghost predicate ServedIn(run: seq<State>, a: nat, b: nat, d: int, x: int)
    requires b < |run|
  {
    exists m | a <= m <= b :: Served(run[m], d, x)
  }

  lemma ServedMore(run: seq<State>, a: nat, b: nat, b': nat, d: int, x: int)
    requires b <= b' < |run| && ServedIn(run, a, b, d, x)
    ensures ServedIn(run, a, b', d, x)
  {
  }

  /** CPU d does not start a new round. */
  ghost predicate Onward(s: State, s': State, d: int) {
    0 <= d < |s.cpus| && d < |s'.cpus| && s.cpus[d].k <= s'.cpus[d].k
  }

  /** One step of CPU d's loop. */
  lemma ServeStep(s: State, s': State, c: int, d: int)
    requires Inv(s) && 0 <= c < |s.cpus| && 0 <= d < |s.cpus| && CpuStep(s, s', c)
    ensures |s'.cpus| == |s.cpus|
    ensures s'.cpus[d].k != s.cpus[d].k ==>
              && s'.cpus[d].k == (if s.cpus[d].k + 1 == |s.procs| then 0 else s.cpus[d].k + 1)
              && s'.cpus[d].at == Scan
              && (s.cpus[d].at == Drop || Served(s, d, s.cpus[d].k))
    ensures s'.cpus[d].at == Back || s'.cpus[d].at == Drop ==>
              s.cpus[d].at == Run || s.cpus[d].at == Back || s.cpus[d].at == Drop
  {
    hide CpuStep, LocalInv, CpuInv, LockInv, StateInv, WaitLockInv, ParentInv, ExitInv, ForkInv, ScanInv, WakeInv,
         PidInv;
    SchedulerSteps(s, s', c, d);
  }

  lemma {:induction false} RoundScans(run: seq<State>, a: nat, b: nat, d: int)
    requires IsRun(run) && a <= b < |run| && 0 <= d < |run[a].cpus| && run[a].cpus[d].k == 0
             && run[a].cpus[d].at == Scan
    requires forall m | a <= m < b :: Onward(run[m], run[m + 1], d)
    ensures d < |run[b].cpus|
    ensures forall x | 0 <= x < run[b].cpus[d].k :: ServedIn(run, a, b, d, x)
    ensures (run[b].cpus[d].at == Run || run[b].cpus[d].at == Back || run[b].cpus[d].at == Drop) ==>
              ServedIn(run, a, b, d, run[b].cpus[d].k)
  {
    hide Init, Inv, CpuStep, ServedIn, Served;
    RunInv(run, b);
    ShapedInv(run[b]);
    if a < b {
      RoundScans(run, a, b - 1, d);
      RunInv(run, b - 1);
      var s, s', k := run[b - 1], run[b], run[b - 1].cpus[d].k;
      assert Next(s, s') && Onward(run[b - 1], run[b - 1 + 1], d);
      ShapedInv(s);
      var c :| 0 <= c < |s.cpus| && CpuStep(s, s', c);
      ServeStep(s, s', c, d);
      if s'.cpus[d].at == Run {
        ServedNow(run, a, b, d, s'.cpus[d].k);
      }
      if Served(s, d, k) {
        SeenServed(run, a, b, d, k);
      }
      forall x | 0 <= x <= k && ServedIn(run, a, b - 1, d, x) ensures ServedIn(run, a, b, d, x) {
        ServedMore(run, a, b - 1, b, d, x);
      }
    }
  }

  lemma ServedNow(run: seq<State>, a: nat, b: nat, d: int, x: int)
    requires a <= b < |run| && 0 <= d < |run[b].cpus| && run[b].cpus[d].at == Run && run[b].cpus[d].k == x
    requires 0 <= x < |run[b].procs|
    ensures ServedIn(run, a, b, d, x)
  {
    assert Served(run[b], d, x);
  }

  lemma SeenServed(run: seq<State>, a: nat, b: nat, d: int, x: int)
    requires a < b < |run| && Served(run[b - 1], d, x)
    ensures ServedIn(run, a, b, d, x)
  {
  }

  /** In one round of scheduler() a CPU runs every process it does not find other than RUNNABLE. */
  lemma SchedulerRound(run: seq<State>, a: nat, b: nat, d: int, x: int)
    requires IsRun(run) && a <= b < |run| && 0 <= d < |run[a].cpus| && run[a].cpus[d].k == 0
             && run[a].cpus[d].at == Scan
    requires forall m | a <= m < b :: Onward(run[m], run[m + 1], d)
    requires d < |run[b].cpus| && 0 <= x < run[b].cpus[d].k
    ensures ServedIn(run, a, b, d, x)
  {
    hide IsRun, ServedIn;
    RoundScans(run, a, b, d);
  }
}
