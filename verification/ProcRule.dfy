/**
 The proof rule for module Proc: a thread's step is an Update, and an update
 that makes the right moves keeps every part of the invariant.  Each Keep lemma
 needs only the parts it names.
 */
module ProcRule {
  import opened Proc

  // ---------- The proof rule ----------

  /**
   The common form of a thread's step: thread i continues as t, table entry k
   becomes q, the lock of process m becomes v, wait_lock becomes w and the history h.
   */
  datatype Update = Update(i: int, t: Thread, k: int, q: Process, m: int, v: int, w: int, h: Hist)

  ghost predicate Applies(s: State, u: Update)
    requires Shaped(s)
  {
    && 0 <= u.i < |s.procs| && 0 <= u.k < |s.procs| && 0 <= u.m < |s.procs|
    && -1 <= u.t.held < |s.procs| && u.t.k <= |s.procs| && u.t.j <= |s.procs|
    && -1 <= u.q.parent < |s.procs|
    && -1 <= u.v < |s.cpus| && -1 <= u.w < |s.procs|
  }

  ghost function Apply(s: State, u: Update): State
    requires Shaped(s) && Applies(s, u)
  {
    s.(thr := s.thr[u.i := u.t], procs := s.procs[u.k := u.q], plock := s.plock[u.m := u.v], wlock := u.w, hist := u.h)
  }

  lemma ApplyShaped(s: State, u: Update)
    requires Shaped(s) && Applies(s, u)
    ensures Shaped(Apply(s, u))
  {
  }

  lemma KeepLocal(s: State, u: Update)
    requires Shaped(s) && Applies(s, u) && Shaped(Apply(s, u))
    requires LocalInv(s) && LocalOk(|s.procs|, u.i, u.t)
    ensures LocalInv(Apply(s, u))
  {
    hide LocalOk;
  }

  /** At most one lock is taken or dropped. */
  ghost predicate LockMove(s: State, u: Update)
    requires Shaped(s) && Applies(s, u)
  {
    || (u.t.held == s.thr[u.i].held && u.v == s.plock[u.m])
    || (s.thr[u.i].held == -1 && u.t.held == u.m && s.plock[u.m] == -1 && s.on[u.i] != -1 && u.v == s.on[u.i])
    || (s.thr[u.i].held == u.m && u.t.held == -1 && u.v == -1)
  }

  lemma KeepLock(s: State, u: Update)
    requires Shaped(s) && Applies(s, u) && Shaped(Apply(s, u))
    requires CpuInv(s) && LockInv(s) && LockMove(s, u)
    ensures CpuInv(Apply(s, u)) && LockInv(Apply(s, u))
  {
    var s' := Apply(s, u);
    assert s.on[u.i] != -1 ==> s.cpus[s.on[u.i]].at == Run && s.cpus[s.on[u.i]].k == u.i;
    assert forall j | 0 <= j < |s.procs| && s.on[u.i] != -1 && s.on[j] == s.on[u.i] :: j == u.i by {
      forall j | 0 <= j < |s.procs| && s.on[u.i] != -1 && s.on[j] == s.on[u.i] ensures j == u.i {
        assert s.cpus[s.on[j]].k == j;
      }
    }
  }

  ghost predicate WaitLockMove(s: State, u: Update)
    requires Shaped(s) && Applies(s, u)
  {
    || (u.t.w == s.thr[u.i].w && u.w == s.wlock)
    || (!s.thr[u.i].w && u.t.w && s.wlock == -1 && u.w == u.i)
    || (s.thr[u.i].w && !u.t.w && u.w == -1)
  }

  lemma KeepWaitLock(s: State, u: Update)
    requires Shaped(s) && Applies(s, u) && Shaped(Apply(s, u))
    requires WaitLockInv(s) && WaitLockMove(s, u)
    ensures WaitLockInv(Apply(s, u))
  {
  }

  ghost predicate StateMove(s: State, u: Update)
    requires Shaped(s) && Applies(s, u)
  {
    && StateOk(u.i, if u.k == u.i then u.q else s.procs[u.i], u.t, s.on[u.i])
    && (u.k != u.i ==> StateOk(u.k, u.q, s.thr[u.k], s.on[u.k]))
  }

  lemma KeepState(s: State, u: Update)
    requires Shaped(s) && Applies(s, u) && Shaped(Apply(s, u))
    requires StateInv(s) && StateMove(s, u)
    ensures StateInv(Apply(s, u))
  {
    hide StateOk;
  }

  /** A process that stops being live has no children; a new parent is live. */
  ghost predicate ParentMove(s: State, u: Update)
    requires Shaped(s) && Applies(s, u)
  {
    && (Live(s.procs[u.k].state)
        ==> Live(u.q.state) || (u.k != s.init && forall x | 0 <= x < |s.procs| :: s.procs[x].parent != u.k))
    && (u.q.parent != s.procs[u.k].parent ==>
          && u.k != s.init && u.q.parent != u.k
          && (u.q.parent != -1 ==> Live(s.procs[u.q.parent].state)))
  }

  lemma KeepParent(s: State, u: Update)
    requires Shaped(s) && Applies(s, u) && Shaped(Apply(s, u))
    requires ParentInv(s) && ParentMove(s, u)
    ensures ParentInv(Apply(s, u))
  {
  }

  /** Parents change under wait_lock only; an exiting thread's progress is real. */
  ghost predicate ExitMove(s: State, u: Update)
    requires Shaped(s) && Applies(s, u)
  {
    var t, n := s.thr[u.i], |s.procs|;
    && (u.q.parent != s.procs[u.k].parent ==> t.w)
    && (Exiting(u.t) ==> u.i != s.init)
    && (u.t.pc == Wake ==> ChanOk(s, u.i, u.t) && (u.k == u.i ==> u.q.parent == s.procs[u.i].parent))
    && (forall x | 0 <= x < n :: x < Given(n, u.t) ==> (if x == u.k then u.q.parent else s.procs[x].parent) != u.i)
  }

  /** Whoever is giving children away, or scanning its children, holds wait_lock. */
  lemma UnderWaitLock(s: State)
    requires Shaped(s) && LocalInv(s)
    ensures forall e | 0 <= e < |s.thr| :: 0 < Given(|s.procs|, s.thr[e]) ==> s.thr[e].w
    ensures forall e | 0 <= e < |s.thr| :: 0 < Seen(|s.procs|, s.thr[e]) ==> s.thr[e].w
    ensures forall e | 0 <= e < |s.thr| :: s.thr[e].pc == Wake && s.thr[e].cont != ToUser ==> s.thr[e].w
    ensures forall e | 0 <= e < |s.thr| :: s.thr[e].pc == WaitKid ==> s.thr[e].w
  {
  }

  lemma KeepExit(s: State, u: Update)
    requires Shaped(s) && Applies(s, u) && Shaped(Apply(s, u))
    requires LocalInv(s) && WaitLockInv(s) && ExitInv(s) && ExitMove(s, u)
    ensures ExitInv(Apply(s, u))
  {
    hide LocalInv, Given, Exiting;
    UnderWaitLock(s);
  }

  /** A process being made by another fork is left alone. */
  ghost predicate ForkMove(s: State, u: Update)
    requires Shaped(s) && Applies(s, u)
  {
    var t := s.thr[u.i];
    && (s.procs[u.k].state == USED ==>
          (u.q.state == USED && u.q.parent == s.procs[u.k].parent) || (Making(t) && t.k == u.k))
    && (Making(u.t) ==>
          && u.t.k < |s.procs|
          && ((Making(t) && t.k == u.t.k) || (u.t.k == u.k && s.procs[u.k].state == UNUSED))
          && var q := if u.t.k == u.k then u.q else s.procs[u.t.k];
             q.state == USED && q.parent == if u.t.pc == ForkRun then u.i else -1)
    && (u.q.state == USED && u.q.parent != -1 ==>
          (s.procs[u.k].state == USED && s.procs[u.k].parent == u.q.parent)
          || (u.q.parent == u.i && u.t.pc == ForkRun && u.t.k == u.k))
    && (t.pc == ForkRun ==> (u.t.pc == ForkRun && u.t.k == t.k) || (u.k == t.k && u.q.state != USED))
  }

  lemma KeepFork(s: State, u: Update)
    requires Shaped(s) && Applies(s, u) && Shaped(Apply(s, u))
    requires ForkInv(s) && ForkMove(s, u)
    ensures ForkInv(Apply(s, u))
  {
    hide Making;
  }

  /** Children change and become ZOMBIE under wait_lock only; wait()'s progress is real. */
  ghost predicate ScanMove(s: State, u: Update)
    requires Shaped(s) && Applies(s, u)
  {
    var t, n := s.thr[u.i], |s.procs|;
    && (u.q.parent != s.procs[u.k].parent || (u.q.state == ZOMBIE && s.procs[u.k].state != ZOMBIE) ==> t.w)
    && (forall x | 0 <= x < n && x < Seen(n, u.t) ::
          var q := if x == u.k then u.q else s.procs[x]; q.parent == u.i ==> q.state != ZOMBIE)
    && (u.t.pc == WaitKid ==> u.t.k < n && (if u.t.k == u.k then u.q else s.procs[u.t.k]).parent == u.i)
  }

  lemma KeepScan(s: State, u: Update)
    requires Shaped(s) && Applies(s, u) && Shaped(Apply(s, u))
    requires LocalInv(s) && WaitLockInv(s) && ScanInv(s) && ScanMove(s, u)
    ensures ScanInv(Apply(s, u))
  {
    hide LocalInv, Seen;
    UnderWaitLock(s);
  }

  /** What a step must respect so that no wakeup is lost. */
  ghost predicate WakeMove(s: State, u: Update)
    requires Shaped(s) && Applies(s, u) && Shaped(Apply(s, u))
  {
    var s', t, n := Apply(s, u), s.thr[u.i], |s.procs|;
    && (u.q.parent != s.procs[u.k].parent ==> t.w)
    // a process falls asleep only by giving up wait_lock when it has no ZOMBIE child
    && (u.k != u.i && AsleepIn(s', u.k) ==> AsleepIn(s, u.k))
    && (AsleepIn(s', u.i) && !AsleepIn(s, u.i) ==>
          t.w && !u.t.w && forall x | 0 <= x < n && s'.procs[x].parent == u.i :: s'.procs[x].state != ZOMBIE)
    // a new ZOMBIE child has an awake parent, or one that will be woken
    && (u.q.state == ZOMBIE && u.q.parent != -1
        && (s.procs[u.k].state != ZOMBIE || s.procs[u.k].parent != u.q.parent) ==>
          !AsleepIn(s', u.q.parent) || (u.w == u.i && WillWake(u.t, u.q.parent)))
    // a promised wakeup stays promised until it is delivered
    && (forall p | 0 <= p < n && WillWake(t, p) :: !AsleepIn(s', p) || (u.w == u.i && WillWake(u.t, p)))
    && (forall p | 0 <= p < n && HasWoken(u.t, p, s'.procs[u.i].parent) ::
          !AsleepIn(s', p) || HasWoken(t, p, s.procs[u.i].parent))
  }

  lemma KeepWake(s: State, u: Update)
    requires Shaped(s) && Applies(s, u) && Shaped(Apply(s, u))
    requires WaitLockInv(s) && WaitLockMove(s, u) && WakeInv(s) && WakeMove(s, u)
    ensures WakeInv(Apply(s, u))
  {
    hide Asleep, WillWake, HasWoken, WakeInv, WakeMove, WaitLockMove, WaitLockInv, NotLost, AsleepIn;
    var s' := Apply(s, u);
    forall x | 0 <= x < |s.procs| && s'.procs[x].state == ZOMBIE && s'.procs[x].parent != -1
      ensures NotLost(s', s'.procs[x].parent)
    {
      KeepNotLost(s, u, x);
    }
    forall e, p | 0 <= e < |s.procs| && 0 <= p < |s.procs| && HasWoken(s'.thr[e], p, s'.procs[e].parent)
      ensures !AsleepIn(s', p)
    {
      KeepWoken(s, u, e, p);
    }
    WakeInvDef(s');
  }

  lemma WakeInvDef(s: State)
    requires Shaped(s)
    requires forall x | 0 <= x < |s.procs| ::
               s.procs[x].state == ZOMBIE && s.procs[x].parent != -1 ==> NotLost(s, s.procs[x].parent)
    requires forall e, i | 0 <= e < |s.procs| && 0 <= i < |s.procs| ::
               HasWoken(s.thr[e], i, s.procs[e].parent) ==> !AsleepIn(s, i)
    ensures WakeInv(s)
  {
    hide Asleep, WillWake, HasWoken, NotLost;
  }

  lemma KeepNotLost(s: State, u: Update, x: int)
    requires Shaped(s) && Applies(s, u) && Shaped(Apply(s, u)) && 0 <= x < |s.procs|
    requires WaitLockInv(s) && WaitLockMove(s, u) && WakeInv(s) && WakeMove(s, u)
    requires Apply(s, u).procs[x].state == ZOMBIE && Apply(s, u).procs[x].parent != -1
    ensures NotLost(Apply(s, u), Apply(s, u).procs[x].parent)
  {
    hide Asleep, HasWoken;
    var s' := Apply(s, u);
    var p := s'.procs[x].parent;
    if AsleepIn(s', p) {
      assert AsleepIn(s, p) || p == u.i;
    }
  }

  lemma KeepWoken(s: State, u: Update, e: int, p: int)
    requires Shaped(s) && Applies(s, u) && Shaped(Apply(s, u)) && 0 <= e < |s.procs| && 0 <= p < |s.procs|
    requires WaitLockInv(s) && WaitLockMove(s, u) && WakeInv(s) && WakeMove(s, u)
    requires HasWoken(Apply(s, u).thr[e], p, Apply(s, u).procs[e].parent)
    ensures !AsleepIn(Apply(s, u), p)
  {
    hide Asleep, WillWake, NotLost;
    var s' := Apply(s, u);
    assert s'.thr[e].w;
    if e != u.i {
      assert s.thr[e].w && !s.thr[u.i].w;
      assert s'.procs[e].parent == s.procs[e].parent;
    }
    assert HasWoken(s.thr[e], p, s.procs[e].parent) ==> !AsleepIn(s, p);
    assert p == u.i || p == u.k || (s'.procs[p] == s.procs[p] && s'.thr[p] == s.thr[p]);
  }

  /** pids and the history change together. */
  ghost predicate PidMove(s: State, u: Update)
    requires Shaped(s) && Applies(s, u)
  {
    var q, h := s.procs[u.k], s.hist;
    || (u.h == h && PidOk(u.q, h) && (u.q.pid == 0 || u.q.pid == q.pid))
    || (u.h == h.(nextpid := h.nextpid + 1) && u.q.pid == h.nextpid && u.q.state == USED)
    || (u.h == h.(exited := h.exited + {q.pid}) && u.q == q.(state := ZOMBIE) && q.state != UNUSED && q.state != ZOMBIE)
    || (u.h == h.(reaped := h.reaped + [q.pid]) && u.q == FreedProcess && q.state == ZOMBIE)
  }

  lemma KeepPid(s: State, u: Update)
    requires Shaped(s) && Applies(s, u) && Shaped(Apply(s, u))
    requires PidInv(s) && PidMove(s, u)
    ensures PidInv(Apply(s, u))
  {
    var s' := Apply(s, u);
    assert PidOk(s.procs[u.k], s.hist);
    forall i | 0 <= i < |s.procs| ensures PidOk(s'.procs[i], s'.hist) {
      assert PidOk(s.procs[i], s.hist);
    }
  }

  ghost predicate MoveOk(s: State, u: Update)
    requires Shaped(s)
  {
    && Applies(s, u) && Shaped(Apply(s, u))
    && LocalOk(|s.procs|, u.i, u.t) && LockMove(s, u) && WaitLockMove(s, u) && StateMove(s, u) && ParentMove(s, u)
    && ExitMove(s, u) && ForkMove(s, u) && ScanMove(s, u) && WakeMove(s, u) && PidMove(s, u)
  }

  lemma UpdateInv(s: State, u: Update)
    requires Inv(s) && MoveOk(s, u)
    ensures Inv(Apply(s, u))
  {
    hide LocalOk, LocalInv, CpuInv, LockInv, StateInv, WaitLockInv, ParentInv, ExitInv, ForkInv, ScanInv, WakeInv,
         PidInv;
    KeepLocal(s, u);
    KeepLock(s, u);
    KeepWaitLock(s, u);
    KeepState(s, u);
    KeepParent(s, u);
    KeepExit(s, u);
    KeepFork(s, u);
    KeepScan(s, u);
    KeepWake(s, u);
    KeepPid(s, u);
  }
}
