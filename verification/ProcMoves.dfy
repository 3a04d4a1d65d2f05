/**
 Every thread step of module Proc makes the right moves.  A step is mild when it
 leaves parents, half-made processes and zombies alone; the others are the steps
 that the protocol is about.
 */
module ProcMoves {
  import opened Proc
  import opened ProcRule

  // ---------- Every step keeps the invariant ----------

  /** What the invariant says about the acting thread i on CPU c and the process k it looks at. */
  ghost predicate Here(s: State, c: int, i: int, k: int)
    requires Shaped(s)
  {
    && 0 <= i < |s.procs| && 0 <= k < |s.procs| && 0 <= c < |s.cpus|
    && var t, me, kid, n := s.thr[i], s.procs[i], s.procs[k], |s.procs|;
    && LocalOk(n, i, t) && s.on[i] == c
    && (t.w <==> s.wlock == i)
    && (t.held != -1 ==> s.plock[t.held] == c)
    && (k != i && t.held == k ==> s.thr[k].held != k && LocalOk(n, k, s.thr[k]))
    && StateOk(i, me, t, c) && StateOk(k, kid, s.thr[k], s.on[k])
    && Live(s.procs[s.init].state) && s.procs[s.init].parent == -1
    && (me.parent != -1 ==> me.parent != i && Live(s.procs[me.parent].state))
    && (kid.parent != -1 ==> kid.parent != k && Live(s.procs[kid.parent].state))
    && (Exiting(t) ==> i != s.init)
    && (t.pc == Wake ==> ChanOk(s, i, t))
    && (forall x | 0 <= x < n :: x < Given(n, t) ==> s.procs[x].parent != i)
    && (Making(t) ==> t.k < n && s.procs[t.k].state == USED && s.procs[t.k].parent == if t.pc == ForkRun then i else -1)
    && (forall x | 0 <= x < n && x < Seen(n, t) :: s.procs[x].parent == i ==> s.procs[x].state != ZOMBIE)
    && (t.pc == WaitKid ==> t.k < n && s.procs[t.k].parent == i)
    && (forall p | 0 <= p < n && HasWoken(t, p, me.parent) :: !AsleepIn(s, p))
    && (kid.state == USED && kid.parent == i ==> t.pc == ForkRun)
    && PidOk(kid, s.hist) && PidOk(me, s.hist) && 0 < s.hist.nextpid && 0 !in s.hist.exited
  }

  lemma HereFromInv(s: State, c: int, i: int, k: int)
    requires Inv(s) && Executes(s, c, i) && 0 <= k < |s.procs|
    ensures Here(s, c, i, k)
  {
    hide LocalOk, StateOk, PidOk, Given, Seen;
    assert s.cpus[s.on[i]].k == i && s.on[i] == c;
    assert LocalOk(|s.procs|, i, s.thr[i]) && LocalOk(|s.procs|, k, s.thr[k]);
    assert s.on[k] != -1 ==> s.cpus[s.on[k]].k == k;
  }

  /** A table change that makes no difference to parents, forks and zombies. */
  predicate Mild(q: Process, q': Process) {
    && q'.parent == q.parent && q'.pid == q.pid
    && (q'.state == q.state || (Live(q.state) && Live(q'.state)))
  }

  /** The thread's place in exit(), fork() and wait() moves on only for a reason. */
  ghost predicate Progress(s: State, u: Update)
    requires Shaped(s) && Applies(s, u)
  {
    var t, n := s.thr[u.i], |s.procs|;
    && (Exiting(u.t) ==> u.i != s.init)
    && (u.t.pc == Wake ==> ChanOk(s, u.i, u.t))
    && (Given(n, u.t) <= Given(n, t)
        || (Given(n, u.t) == Given(n, t) + 1 && 0 <= Given(n, t) < n && s.procs[Given(n, t)].parent != u.i))
    && (Making(u.t) ==> Making(t) && u.t.k == t.k)
    && (u.t.pc == ForkRun <==> t.pc == ForkRun)
    && (Seen(n, u.t) <= Seen(n, t)
        || (Seen(n, u.t) == Seen(n, t) + 1 && 0 <= Seen(n, t) < n
            && (s.procs[Seen(n, t)].parent == u.i ==> s.procs[Seen(n, t)].state != ZOMBIE)))
    && (u.t.pc == WaitKid ==> u.t.k < n && s.procs[u.t.k].parent == u.i)
  }

  /** Sleeping and waking in wait() move on only for a reason. */
  ghost predicate WakeProgress(s: State, u: Update)
    requires Shaped(s) && Applies(s, u) && Shaped(Apply(s, u))
  {
    var s', t, n := Apply(s, u), s.thr[u.i], |s.procs|;
    && (u.k != u.i && AsleepIn(s', u.k) ==> AsleepIn(s, u.k))
    && (AsleepIn(s', u.i) && !AsleepIn(s, u.i) ==> t.w && !u.t.w && Seen(n, t) == n)
    && (forall p | 0 <= p < n && WillWake(t, p) :: !AsleepIn(s', p) || (u.w == u.i && WillWake(u.t, p)))
    && (forall p | 0 <= p < n && HasWoken(u.t, p, s.procs[u.i].parent) ::
          !AsleepIn(s', p) || HasWoken(t, p, s.procs[u.i].parent))
  }

  lemma MildMove(s: State, c: int, u: Update)
    requires Shaped(s) && Applies(s, u) && Shaped(Apply(s, u)) && Here(s, c, u.i, u.k)
    requires Mild(s.procs[u.k], u.q) && u.h == s.hist
    requires LocalOk(|s.procs|, u.i, u.t) && LockMove(s, u) && WaitLockMove(s, u) && StateMove(s, u)
    requires Progress(s, u) && WakeProgress(s, u)
    ensures MoveOk(s, u)
  {
    hide LocalOk, StateOk, LockMove, WaitLockMove, StateMove, Given, Seen, Exiting, HasWoken, WillWake, Asleep,
         AsleepIn, WakeMove, WakeProgress, ExitMove, ScanMove, ChanOk;
    assert ParentMove(s, u);
    assert PidMove(s, u);
    assert ForkMove(s, u);
    MildExit(s, c, u);
    MildWake(s, c, u);
  }

  lemma MildExit(s: State, c: int, u: Update)
    requires Shaped(s) && Applies(s, u) && Here(s, c, u.i, u.k) && Mild(s.procs[u.k], u.q) && Progress(s, u)
    ensures ExitMove(s, u) && ScanMove(s, u)
  {
    hide LocalOk, StateOk, PidOk, ChanOk, Given, Seen, Exiting, Making, HasWoken, AsleepIn, Shaped;
  }

  lemma MildWake(s: State, c: int, u: Update)
    requires Shaped(s) && Applies(s, u) && Shaped(Apply(s, u)) && Here(s, c, u.i, u.k)
    requires Mild(s.procs[u.k], u.q)
    requires WakeProgress(s, u)
    ensures WakeMove(s, u)
  {
    hide LocalOk, StateOk, PidOk, ChanOk, Given, Exiting, Making, HasWoken, WillWake, Asleep, Seen;
  }

  lemma HereFacts(s: State, c: int, i: int, k: int)
    requires Shaped(s) && Here(s, c, i, k)
    ensures LocalOk(|s.procs|, i, s.thr[i]) && 0 <= c == s.on[i] && StateOk(i, s.procs[i], s.thr[i], c)
    ensures StateOk(k, s.procs[k], s.thr[k], s.on[k])
    ensures k != i && s.thr[i].held == k ==> s.thr[k].held != k && LocalOk(|s.procs|, k, s.thr[k])
    ensures Exiting(s.thr[i]) ==> i != s.init
    ensures s.thr[i].pc == Wake ==> ChanOk(s, i, s.thr[i])
    ensures s.thr[i].pc == Wake && s.thr[i].intr == NoIntr ==> s.thr[i].held == -1 || i != s.thr[i].held == s.thr[i].j
    ensures s.thr[i].w <==> s.wlock == i
  {
  }

  /** Nothing is asleep in the entry kill has changed that was not before, and the state fits the thread. */
  lemma HitKeeps(n: nat, k: int, q: Process, t: Thread, on: int)
    requires 0 <= k && StateOk(k, q, t, on) && LocalOk(n, k, t) && (t.held == k ==> t.pc == Kill && t.intr == NoIntr)
    ensures Hit(q).parent == q.parent && StateOk(k, Hit(q), t, on) && (Asleep(k, Hit(q), t) ==> Asleep(k, q, t))
  {
  }

  /** The same for wakeup; and a process it was meant for is awake. */
  lemma WokenKeeps(n: nat, k: int, q: Process, t: Thread, on: int, chan: Chan)
    requires 0 <= k && StateOk(k, q, t, on) && LocalOk(n, k, t) && t.held != k
    ensures StateOk(k, Woken(q, chan), t, on) && (Asleep(k, Woken(q, chan), t) ==> Asleep(k, q, t))
    ensures chan == OnProc(k) ==> !Asleep(k, Woken(q, chan), t)
  {
  }

  lemma AsleepAfter(s: State, u: Update, p: int)
    requires Shaped(s) && Applies(s, u) && Shaped(Apply(s, u)) && 0 <= p < |s.procs|
    ensures |Apply(s, u).procs| == |s.procs|
    ensures AsleepIn(s, p) == Asleep(p, s.procs[p], s.thr[p])
    ensures AsleepIn(Apply(s, u), p)
            == Asleep(p, if p == u.k then u.q else s.procs[p], if p == u.i then u.t else s.thr[p])
  {
  }

  predicate Plain(pc: Pc) {
    pc == User || pc == Kill || pc == ForkScan
  }

  /** A thread that is in neither exit() nor wait() and makes no process. */
  lemma PlainProgress(s: State, u: Update)
    requires Shaped(s) && Applies(s, u) && Plain(u.t.pc) && Plain(s.thr[u.i].pc)
    ensures Progress(s, u)
  {
    hide ChanOk;
  }

  lemma Runs(i: int, q: Process, t': Thread)
    requires q.state == RUNNING && t'.pc != WaitSleep
    ensures !Asleep(i, q, t') && !Asleep(i, Hit(q), t')
  {
  }

  lemma RunsOn(i: int, q: Process, t: Thread, t': Thread, on: int)
    requires StateOk(i, q, t, on) && on != -1
    requires Place(t) != Sched && Place(t) != ExitRelease && Place(t) != Resume
    requires Place(t') != Sched && Place(t') != ExitRelease && Place(t') != Resume
    ensures q.state == RUNNING && StateOk(i, q, t', on)
  {
  }

  /** An update that leaves the table, the locks and the history alone. */
  ghost function Go(s: State, i: int, t: Thread): Update
    requires Shaped(s) && 0 <= i < |s.procs|
  {
    Update(i, t, i, s.procs[i], i, s.plock[i], s.wlock, s.hist)
  }

  predicate Quiet(t: Thread) {
    && (t.intr == NoIntr || t.intr == Waking)
    && t.pc != Wake && t.pc != ExitSelf && t.pc != WaitSleep && t.pc != Sched && t.pc != ExitRelease && t.pc != Resume
  }

  /** A thread that neither sleeps nor wakes others, and leaves the table alone. */
  lemma QuietMove(s: State, c: int, u: Update)
    requires Shaped(s) && Applies(s, u) && Shaped(Apply(s, u)) && Here(s, c, u.i, u.i)
    requires u.k == u.i && u.q == s.procs[u.i] && Quiet(s.thr[u.i]) && Quiet(u.t)
    ensures StateMove(s, u) && WakeProgress(s, u)
  {
    hide Here, StateOk, LocalOk, Asleep, AsleepIn, ChanOk, Exiting;
    HereFacts(s, c, u.i, u.i);
    RunsOn(u.i, u.q, s.thr[u.i], u.t, c);
    Runs(u.i, u.q, u.t);
    AsleepAfter(s, u, u.i);
  }

  lemma AcquireMove(s: State, c: int, i: int, t: Thread, m: int)
    requires Shaped(s) && OnCpu(s, c, i) && t == s.thr[i] && Here(s, c, i, i) && 0 <= m < |s.procs|
    requires t.pc != Resume && t.held == -1 && s.plock[m] == -1 && LocalOk(|s.procs|, i, t.(held := m))
    ensures MoveOk(s, Go(s, i, t.(held := m)).(m := m, v := c))
  {
    hide MoveOk;
    var u := Go(s, i, t.(held := m)).(m := m, v := c);
    ApplyShaped(s, u);
    MildMove(s, c, u);
  }

  // ---------- Interrupts ----------

  /** The interrupted code is where it was. */
  predicate SameCode(t: Thread, t': Thread) {
    t' == t.(held := t'.held, intr := t'.intr)
  }

  lemma SameProgress(s: State, c: int, u: Update)
    requires Shaped(s) && Applies(s, u) && Here(s, c, u.i, u.i) && SameCode(s.thr[u.i], u.t)
    ensures Progress(s, u)
  {
    hide LocalOk, StateOk, PidOk, AsleepIn, HasWoken, ChanOk;
    SameCounts(|s.procs|, s.thr[u.i], u.t);
    SameChan(s, u.i, s.thr[u.i], u.t);
  }

  lemma SameCounts(n: nat, t: Thread, t': Thread)
    requires SameCode(t, t')
    ensures Given(n, t') == Given(n, t) && Seen(n, t') == Seen(n, t) && Exiting(t') == Exiting(t)
            && Making(t') == Making(t)
  {
  }

  lemma SameChan(s: State, i: int, t: Thread, t': Thread)
    requires Shaped(s) && 0 <= i < |s.procs| && SameCode(t, t')
    ensures ChanOk(s, i, t') == ChanOk(s, i, t)
  {
  }

  /** An interrupted thread does not hold wait_lock, so no wakeup in wait() hangs on it. */
  lemma SameWakes(s: State, c: int, u: Update)
    requires Shaped(s) && Applies(s, u) && Shaped(Apply(s, u)) && SameCode(s.thr[u.i], u.t) && !u.t.w
    requires Asleep(u.k, u.q, s.thr[u.k]) ==> Asleep(u.k, s.procs[u.k], s.thr[u.k])
    ensures WakeProgress(s, u)
  {
    hide Asleep, AsleepIn;
    AsleepAfter(s, u, u.i);
    AsleepAfter(s, u, u.k);
    SameAsleep(u.i, if u.k == u.i then u.q else s.procs[u.i], s.thr[u.i], u.t);
  }

  lemma SameAsleep(i: int, q: Process, t: Thread, t': Thread)
    requires SameCode(t, t')
    ensures Asleep(i, q, t') == Asleep(i, q, t)
  {
  }

  /** Where an interrupt may come, and what an interrupted thread returns to, the process is RUNNING. */
  lemma Interruptible(n: nat, i: int, q: Process, t: Thread, on: int)
    requires 0 <= i && on != -1 && LocalOk(n, i, t) && StateOk(i, q, t, on)
    requires (t.intr == NoIntr && t.held == -1 && !t.w) || t.intr == Waking || t.intr == Yielding || t.intr == Parked
    ensures q.state == RUNNING && t.pc != Sched && t.pc != ExitRelease && t.pc != Resume && !t.w
    ensures !Asleep(i, q.(state := RUNNABLE), t)
    ensures forall t' | SameCode(t, t') && t'.intr != Switching && t'.intr != Parked :: StateOk(i, q, t', on)
  {
  }

  lemma IntrLocal(n: nat, i: int, t: Thread, t': Thread)
    requires LocalOk(n, i, t) && SameCode(t, t') && !t.w && t.pc != Resume && t.pc != Sched
    requires t.intr != NoIntr || t.held == -1
    requires match t'.intr
             case NoIntr => t'.held == -1
             case Waking => t'.held != -1 && t'.held != i
             case Parked => t'.held == -1 || t'.held == i
             case _ => t'.held == i
    ensures LocalOk(n, i, t')
  {
    assert t'.(held := -1, intr := NoIntr) == t.(held := -1, intr := NoIntr);
    SamePc(n, i, t.(held := -1), t'.(held := -1));
  }

  lemma SamePc(n: nat, i: int, t: Thread, t': Thread)
    requires SameCode(t, t') && t.held == t'.held
    ensures PcOk(n, i, t) == PcOk(n, i, t')
  {
  }

  lemma IntrAcquireMove(s: State, c: int, i: int, u: Update)
    requires Shaped(s) && Executes(s, c, i) && Here(s, c, i, i) && s.thr[i].intr == NoIntr && s.thr[i].held == -1
             && !s.thr[i].w
    requires 0 <= u.m < |s.procs| && s.plock[u.m] == -1
    requires u == Go(s, i, s.thr[i].(held := u.m, intr := if u.m == i then Yielding else Waking)).(m := u.m, v := c)
    ensures Applies(s, u) && MoveOk(s, u)
  {
    hide MoveOk, Here, StateOk, LocalOk, Progress, WakeProgress, Asleep;
    HereFacts(s, c, i, i);
    ApplyShaped(s, u);
    Interruptible(|s.procs|, i, s.procs[i], s.thr[i], c);
    IntrLocal(|s.procs|, i, s.thr[i], u.t);
    SameProgress(s, c, u);
    SameWakes(s, c, u);
    MildMove(s, c, u);
  }

  lemma IntrWakeMove(s: State, c: int, i: int, u: Update, x: int)
    requires Shaped(s) && Executes(s, c, i) && s.thr[i].intr == Waking && Here(s, c, i, i)
             && Here(s, c, i, s.thr[i].held)
    requires u == Go(s, i, s.thr[i].(held := -1, intr := NoIntr))
                  .(k := s.thr[i].held, q := Woken(s.procs[s.thr[i].held], OnOther(x)), m := s.thr[i].held, v := -1)
    ensures Applies(s, u) && MoveOk(s, u)
  {
    hide MoveOk, Here, StateOk, LocalOk, Progress, WakeProgress, Asleep;
    var j := s.thr[i].held;
    HereFacts(s, c, i, i);
    HereFacts(s, c, i, j);
    WakingHolds(|s.procs|, i, s.thr[i]);
    ApplyShaped(s, u);
    Interruptible(|s.procs|, i, s.procs[i], s.thr[i], c);
    IntrLocal(|s.procs|, i, s.thr[i], u.t);
    WokenKeeps(|s.procs|, j, s.procs[j], s.thr[j], s.on[j], OnOther(x));
    SameProgress(s, c, u);
    SameWakes(s, c, u);
    MildMove(s, c, u);
  }

  lemma WakingHolds(n: nat, i: int, t: Thread)
    requires LocalOk(n, i, t) && t.intr == Waking
    ensures t.held != -1 && t.held != i
  {
  }

  lemma IntrYieldMove(s: State, c: int, i: int, u: Update)
    requires Shaped(s) && Executes(s, c, i) && Here(s, c, i, i) && s.thr[i].intr == Yielding
    requires u == Go(s, i, s.thr[i].(intr := Switching)).(q := s.procs[i].(state := RUNNABLE))
    ensures Applies(s, u) && MoveOk(s, u)
  {
    hide MoveOk, Here, LocalOk, Progress, WakeProgress, Asleep;
    HereFacts(s, c, i, i);
    ApplyShaped(s, u);
    Interruptible(|s.procs|, i, s.procs[i], s.thr[i], c);
    YieldingHolds(|s.procs|, i, s.thr[i]);
    IntrLocal(|s.procs|, i, s.thr[i], u.t);
    SameProgress(s, c, u);
    SameWakes(s, c, u);
    MildMove(s, c, u);
  }

  lemma YieldingHolds(n: nat, i: int, t: Thread)
    requires LocalOk(n, i, t) && t.intr == Yielding
    ensures t.held == i
  {
  }

  lemma IntrReturnMove(s: State, c: int, i: int, u: Update)
    requires Shaped(s) && Executes(s, c, i) && Here(s, c, i, i) && s.thr[i].intr == Parked
    requires u == Go(s, i, s.thr[i].(held := -1, intr := NoIntr)).(m := i, v := -1)
    ensures Applies(s, u) && MoveOk(s, u)
  {
    hide MoveOk, Here, StateOk, LocalOk, Progress, WakeProgress, Asleep;
    HereFacts(s, c, i, i);
    ParkedHolds(i, s.procs[i], s.thr[i], c);
    ApplyShaped(s, u);
    Interruptible(|s.procs|, i, s.procs[i], s.thr[i], c);
    IntrLocal(|s.procs|, i, s.thr[i], u.t);
    SameProgress(s, c, u);
    SameWakes(s, c, u);
    MildMove(s, c, u);
  }

  lemma ParkedHolds(i: int, q: Process, t: Thread, on: int)
    requires StateOk(i, q, t, on) && on != -1 && t.intr == Parked
    ensures t.held == i
  {
  }

  // ---------- wakeup, kill, fork, exit, wait ----------

  lemma WakeEndMove(s: State, c: int, i: int, t: Thread, u: Update)
    requires Shaped(s) && OnCpu(s, c, i) && t == s.thr[i] && (t.pc == Wake)
    requires Here(s, c, i, i)
    requires
      || (t.held == -1 && t.j == |s.procs| && u == Go(s, i, t.(pc := AfterWake(t.cont))))
      || (t.held == -1 && t.j == i && u == Go(s, i, t.(j := t.j + 1)))
    ensures Applies(s, u) && MoveOk(s, u)
  {
    hide MoveOk;
    ApplyShaped(s, u);
    MildMove(s, c, u);
  }

  lemma WakeDeliverMove(s: State, c: int, i: int, t: Thread, u: Update)
    requires Shaped(s) && OnCpu(s, c, i) && t == s.thr[i] && (t.pc == Wake)
    requires Here(s, c, i, t.held)
    requires t.held != -1
             && u == Go(s, i, t.(held := -1, j := t.j + 1)).(k := t.held, q := Woken(s.procs[t.held], t.chan),
             m := t.held, v := -1)
    ensures Applies(s, u) && MoveOk(s, u)
  {
    hide MoveOk, StateMove, Progress, WakeProgress, StateOk;
    ApplyShaped(s, u);
    WakeDeliverState(s, c, i, t, u);
    WakeDeliverProgress(s, c, i, t, u);
    WakeDeliverWakes(s, c, i, t, u);
    MildMove(s, c, u);
  }

  lemma WakeDeliverState(s: State, c: int, i: int, t: Thread, u: Update)
    requires Shaped(s) && OnCpu(s, c, i) && t == s.thr[i] && (t.pc == Wake)
    requires Here(s, c, i, t.held)
    requires t.held != -1
             && u == Go(s, i, t.(held := -1, j := t.j + 1)).(k := t.held, q := Woken(s.procs[t.held], t.chan),
             m := t.held, v := -1)
    ensures Applies(s, u) && StateMove(s, u)
  {
    hide Here, StateOk, LocalOk;
    HereFacts(s, c, i, t.held);
    WokenKeeps(|s.procs|, t.held, s.procs[t.held], s.thr[t.held], s.on[t.held], t.chan);
    RunsOn(i, s.procs[i], t, u.t, c);
  }

  lemma WakeDeliverProgress(s: State, c: int, i: int, t: Thread, u: Update)
    requires Shaped(s) && OnCpu(s, c, i) && t == s.thr[i] && (t.pc == Wake)
    requires Here(s, c, i, t.held)
    requires t.held != -1
             && u == Go(s, i, t.(held := -1, j := t.j + 1)).(k := t.held, q := Woken(s.procs[t.held], t.chan),
             m := t.held, v := -1)
    ensures Applies(s, u) && Shaped(Apply(s, u)) && Progress(s, u)
  {
    hide Here, StateOk, LocalOk;
    HereFacts(s, c, i, t.held);
    ApplyShaped(s, u);
  }

  lemma WakeDeliverWakes(s: State, c: int, i: int, t: Thread, u: Update)
    requires Shaped(s) && OnCpu(s, c, i) && t == s.thr[i] && (t.pc == Wake)
    requires Here(s, c, i, t.held)
    requires t.held != -1
             && u == Go(s, i, t.(held := -1, j := t.j + 1)).(k := t.held, q := Woken(s.procs[t.held], t.chan),
             m := t.held, v := -1)
    ensures Applies(s, u) && Shaped(Apply(s, u)) && WakeProgress(s, u)
  {
    hide Here, StateOk, LocalOk, Asleep, AsleepIn, Progress;
    WakeDeliverProgress(s, c, i, t, u);
    HereFacts(s, c, i, t.held);
    forall p | 0 <= p < |s.procs|
      ensures AsleepIn(Apply(s, u), p) ==> AsleepIn(s, p) && (t.chan == OnProc(p) ==> p != t.held) {
      WakeDeliverAwake(s, c, i, t, u, p);
    }
  }

  lemma WakeDeliverAwake(s: State, c: int, i: int, t: Thread, u: Update, p: int)
    requires Shaped(s) && OnCpu(s, c, i) && t == s.thr[i] && (t.pc == Wake)
    requires Here(s, c, i, t.held)
    requires t.held != -1
             && u == Go(s, i, t.(held := -1, j := t.j + 1)).(k := t.held, q := Woken(s.procs[t.held], t.chan),
             m := t.held, v := -1)
    requires Applies(s, u) && Shaped(Apply(s, u)) && 0 <= p < |s.procs|
    ensures AsleepIn(Apply(s, u), p) ==> AsleepIn(s, p) && (t.chan == OnProc(p) ==> p != t.held)
  {
    hide Here, StateOk, LocalOk, Asleep, AsleepIn;
    HereFacts(s, c, i, t.held);
    WokenKeeps(|s.procs|, t.held, s.procs[t.held], s.thr[t.held], s.on[t.held], t.chan);
    AsleepAfter(s, u, p);
    RunsOn(i, s.procs[i], t, t, c);
    Runs(i, s.procs[i], u.t);
  }

  lemma KillHitMove(s: State, c: int, i: int, t: Thread, u: Update)
    requires Shaped(s) && OnCpu(s, c, i) && t == s.thr[i] && (t.pc == Kill)
    requires Here(s, c, i, t.held)
    requires t.held != -1
             && u == Go(s, i, t.(held := -1, pc := User)).(k := t.held, q := Hit(s.procs[t.held]), m := t.held, v := -1)
    ensures Applies(s, u) && MoveOk(s, u)
  {
    hide MoveOk, StateMove, Progress, WakeProgress, StateOk;
    ApplyShaped(s, u);
    KillHitState(s, c, i, t, u);
    KillHitProgress(s, c, i, t, u);
    KillHitWakes(s, c, i, t, u);
    MildMove(s, c, u);
  }

  lemma KillHitState(s: State, c: int, i: int, t: Thread, u: Update)
    requires Shaped(s) && OnCpu(s, c, i) && t == s.thr[i] && (t.pc == Kill)
    requires Here(s, c, i, t.held)
    requires t.held != -1
             && u == Go(s, i, t.(held := -1, pc := User)).(k := t.held, q := Hit(s.procs[t.held]), m := t.held, v := -1)
    ensures Applies(s, u) && StateMove(s, u)
  {
    hide Here, StateOk, LocalOk;
    HereFacts(s, c, i, t.held);
    HitKeeps(|s.procs|, t.held, s.procs[t.held], s.thr[t.held], s.on[t.held]);
    RunsOn(i, if t.held == i then u.q else s.procs[i], t, u.t, c);
  }

  lemma KillHitProgress(s: State, c: int, i: int, t: Thread, u: Update)
    requires Shaped(s) && OnCpu(s, c, i) && t == s.thr[i] && (t.pc == Kill)
    requires Here(s, c, i, t.held)
    requires t.held != -1
             && u == Go(s, i, t.(held := -1, pc := User)).(k := t.held, q := Hit(s.procs[t.held]), m := t.held, v := -1)
    ensures Applies(s, u) && Shaped(Apply(s, u)) && Progress(s, u)
  {
    hide Here, StateOk, LocalOk, Hit, Progress;
    HereFacts(s, c, i, t.held);
    HitKeeps(|s.procs|, t.held, s.procs[t.held], s.thr[t.held], s.on[t.held]);
    ApplyShaped(s, u);
    PlainProgress(s, u);
  }

  lemma KillHitWakes(s: State, c: int, i: int, t: Thread, u: Update)
    requires Shaped(s) && OnCpu(s, c, i) && t == s.thr[i] && (t.pc == Kill)
    requires Here(s, c, i, t.held)
    requires t.held != -1
             && u == Go(s, i, t.(held := -1, pc := User)).(k := t.held, q := Hit(s.procs[t.held]), m := t.held, v := -1)
    ensures Applies(s, u) && Shaped(Apply(s, u)) && WakeProgress(s, u)
  {
    hide Here, StateOk, LocalOk, Asleep, AsleepIn, Progress;
    KillHitProgress(s, c, i, t, u);
    forall p | 0 <= p < |s.procs| ensures AsleepIn(Apply(s, u), p) ==> AsleepIn(s, p) {
      KillHitAwake(s, c, i, t, u, p);
    }
  }

  lemma KillHitAwake(s: State, c: int, i: int, t: Thread, u: Update, p: int)
    requires Shaped(s) && OnCpu(s, c, i) && t == s.thr[i] && (t.pc == Kill)
    requires Here(s, c, i, t.held)
    requires t.held != -1
             && u == Go(s, i, t.(held := -1, pc := User)).(k := t.held, q := Hit(s.procs[t.held]), m := t.held, v := -1)
    requires Applies(s, u) && Shaped(Apply(s, u)) && 0 <= p < |s.procs|
    ensures AsleepIn(Apply(s, u), p) ==> AsleepIn(s, p)
  {
    hide Here, StateOk, LocalOk, Asleep, AsleepIn;
    HereFacts(s, c, i, t.held);
    HitKeeps(|s.procs|, t.held, s.procs[t.held], s.thr[t.held], s.on[t.held]);
    AsleepAfter(s, u, p);
    RunsOn(i, s.procs[i], t, t, c);
    Runs(i, s.procs[i], u.t);
  }

  lemma ScanEndMove(s: State, c: int, i: int, t: Thread, u: Update)
    requires Shaped(s) && OnCpu(s, c, i) && t == s.thr[i] && (t.pc == Kill || t.pc == ForkScan)
    requires Here(s, c, i, i)
    requires t.held == -1 && t.k == |s.procs| && u == Go(s, i, t.(pc := User))
    ensures Applies(s, u) && MoveOk(s, u)
  {
    hide MoveOk, StateMove, WakeProgress, StateOk, Progress, Here;
    HereFacts(s, c, i, i);
    ApplyShaped(s, u);
    QuietMove(s, c, u);
    PlainProgress(s, u);
    MildMove(s, c, u);
  }

  lemma ScanNextMove(s: State, c: int, i: int, t: Thread, u: Update)
    requires Shaped(s) && OnCpu(s, c, i) && t == s.thr[i] && (t.pc == Kill || t.pc == ForkScan)
    requires Here(s, c, i, i)
    requires t.held != -1 && u == Go(s, i, t.(held := -1, k := t.k + 1)).(m := t.held, v := -1)
    ensures Applies(s, u) && MoveOk(s, u)
  {
    hide MoveOk, StateMove, WakeProgress, StateOk, Progress, Here;
    HereFacts(s, c, i, i);
    ApplyShaped(s, u);
    QuietMove(s, c, u);
    PlainProgress(s, u);
    MildMove(s, c, u);
  }

  lemma ForkMadeMove(s: State, c: int, i: int, t: Thread, u: Update)
    requires Shaped(s) && OnCpu(s, c, i) && t == s.thr[i] && (t.pc == ForkMade)
    requires Here(s, c, i, i)
    requires u == Go(s, i, t.(held := -1, pc := ForkPub)).(m := t.k, v := -1)
    ensures Applies(s, u) && MoveOk(s, u)
  {
    hide MoveOk;
    ApplyShaped(s, u);
    MildMove(s, c, u);
  }

  lemma ForkWaitLockMove(s: State, c: int, i: int, t: Thread, u: Update)
    requires Shaped(s) && OnCpu(s, c, i) && t == s.thr[i] && (t.pc == ForkPub)
    requires Here(s, c, i, i)
    requires !t.w && s.wlock == -1 && u == Go(s, i, t.(w := true)).(w := i)
    ensures Applies(s, u) && MoveOk(s, u)
  {
    hide MoveOk;
    ApplyShaped(s, u);
    MildMove(s, c, u);
  }

  lemma ExitStartMove(s: State, c: int, i: int, t: Thread, u: Update)
    requires Shaped(s) && OnCpu(s, c, i) && t == s.thr[i] && (t.pc == ExitStart)
    requires Here(s, c, i, i)
    requires s.wlock == -1 && u == Go(s, i, t.(pc := Reparent, w := true, k := 0)).(w := i)
    ensures Applies(s, u) && MoveOk(s, u)
  {
    hide MoveOk;
    ApplyShaped(s, u);
    MildMove(s, c, u);
  }

  lemma ReparentMove(s: State, c: int, i: int, t: Thread, u: Update)
    requires Shaped(s) && OnCpu(s, c, i) && t == s.thr[i] && (t.pc == Reparent)
    requires Here(s, c, i, i)
    requires
      || (t.k == |s.procs|
          && u == Go(s, i, t.(pc := Wake, j := 0, chan := ParentChan(s.procs[i].parent), cont := ToZombie)))
      || (t.k < |s.procs| && s.procs[t.k].parent != i && u == Go(s, i, t.(k := t.k + 1)))
    ensures Applies(s, u) && MoveOk(s, u)
  {
    hide MoveOk;
    ApplyShaped(s, u);
    MildMove(s, c, u);
  }

  lemma ExitReleaseMove(s: State, c: int, i: int, t: Thread, u: Update)
    requires Shaped(s) && OnCpu(s, c, i) && t == s.thr[i] && (t.pc == ExitRelease)
    requires Here(s, c, i, i)
    requires u == Go(s, i, t.(w := false, r := FromExit, pc := Sched)).(w := -1)
    ensures Applies(s, u) && MoveOk(s, u)
  {
    hide MoveOk;
    ApplyShaped(s, u);
    MildMove(s, c, u);
  }

  lemma WaitStartMove(s: State, c: int, i: int, t: Thread, u: Update)
    requires Shaped(s) && OnCpu(s, c, i) && t == s.thr[i] && (t.pc == WaitStart)
    requires Here(s, c, i, i)
    requires s.wlock == -1 && u == Go(s, i, t.(pc := WaitScan, w := true, k := 0, have := false)).(w := i)
    ensures Applies(s, u) && MoveOk(s, u)
  {
    hide MoveOk;
    ApplyShaped(s, u);
    MildMove(s, c, u);
  }

  lemma WaitScanEndMove(s: State, c: int, i: int, t: Thread, u: Update)
    requires Shaped(s) && OnCpu(s, c, i) && t == s.thr[i] && (t.pc == WaitScan)
    requires Here(s, c, i, i)
    requires t.k == |s.procs| && u == Go(s, i, t.(pc := if t.have then WaitKill else WaitLeave))
    ensures Applies(s, u) && MoveOk(s, u)
  {
    hide MoveOk;
    ApplyShaped(s, u);
    MildMove(s, c, u);
  }

  lemma WaitScanMove(s: State, c: int, i: int, t: Thread, u: Update)
    requires Shaped(s) && OnCpu(s, c, i) && t == s.thr[i] && (t.pc == WaitScan)
    requires Here(s, c, i, i)
    requires
      || (t.k < |s.procs| && s.procs[t.k].parent == i && u == Go(s, i, t.(pc := WaitKid)))
      || (t.k < |s.procs| && s.procs[t.k].parent != i && u == Go(s, i, t.(k := t.k + 1)))
    ensures Applies(s, u) && MoveOk(s, u)
  {
    hide MoveOk, StateMove, WakeProgress, StateOk;
    ApplyShaped(s, u);
    QuietMove(s, c, u);
    MildMove(s, c, u);
  }

  lemma WaitKidMove(s: State, c: int, i: int, t: Thread, u: Update)
    requires Shaped(s) && OnCpu(s, c, i) && t == s.thr[i] && (t.pc == WaitKid)
    requires Here(s, c, i, i)
    requires t.held != -1 && (s.procs[t.k].state != ZOMBIE || u == Go(s, i, t.(pc := WaitDrop)))
    requires u == Go(s, i, t.(pc := WaitDrop)) ||
             u == Go(s, i, t.(held := -1, have := true, k := t.k + 1, pc := WaitScan)).(m := t.k, v := -1)
    ensures Applies(s, u) && MoveOk(s, u)
  {
    hide MoveOk, StateMove, WakeProgress, StateOk, Progress, Here;
    HereFacts(s, c, i, i);
    WaitKidProgress(s, c, i, t, u);
    ApplyShaped(s, u);
    QuietMove(s, c, u);
    MildMove(s, c, u);
  }

  lemma WaitKidProgress(s: State, c: int, i: int, t: Thread, u: Update)
    requires Shaped(s) && OnCpu(s, c, i) && t == s.thr[i] && (t.pc == WaitKid)
    requires Here(s, c, i, i)
    requires t.held != -1 && (s.procs[t.k].state != ZOMBIE || u == Go(s, i, t.(pc := WaitDrop)))
    requires u == Go(s, i, t.(pc := WaitDrop)) ||
             u == Go(s, i, t.(held := -1, have := true, k := t.k + 1, pc := WaitScan)).(m := t.k, v := -1)
    ensures Applies(s, u) && Progress(s, u)
  {
    hide StateOk, PidOk, AsleepIn, HasWoken, ChanOk;
  }

  lemma WaitDropMove(s: State, c: int, i: int, t: Thread, u: Update)
    requires Shaped(s) && OnCpu(s, c, i) && t == s.thr[i] && (t.pc == WaitDrop)
    requires Here(s, c, i, i)
    requires u == Go(s, i, t.(held := -1, pc := WaitLeave)).(m := t.k, v := -1)
    ensures Applies(s, u) && MoveOk(s, u)
  {
    hide MoveOk;
    ApplyShaped(s, u);
    MildMove(s, c, u);
  }

  lemma WaitKillMove(s: State, c: int, i: int, t: Thread, u: Update)
    requires Shaped(s) && OnCpu(s, c, i) && t == s.thr[i] && (t.pc == WaitKill)
    requires Here(s, c, i, i)
    requires t.held != -1
             && u == Go(s, i, t.(held := -1, pc := if s.procs[i].killed then WaitLeave else WaitSleep)).(m := i,
             v := -1)
    ensures Applies(s, u) && MoveOk(s, u)
  {
    hide MoveOk;
    ApplyShaped(s, u);
    MildMove(s, c, u);
  }

  lemma WaitLeaveMove(s: State, c: int, i: int, t: Thread, u: Update)
    requires Shaped(s) && OnCpu(s, c, i) && t == s.thr[i] && (t.pc == WaitLeave)
    requires Here(s, c, i, i)
    requires u == Go(s, i, t.(w := false, pc := User)).(w := -1)
    ensures Applies(s, u) && MoveOk(s, u)
  {
    hide MoveOk;
    ApplyShaped(s, u);
    MildMove(s, c, u);
  }

  lemma WaitSleepMove(s: State, c: int, i: int, t: Thread, u: Update)
    requires Shaped(s) && OnCpu(s, c, i) && t == s.thr[i] && (t.pc == WaitSleep)
    requires Here(s, c, i, i)
    requires t.held != -1 && t.w && u == Go(s, i, t.(w := false)).(w := -1)
    ensures Applies(s, u) && MoveOk(s, u)
  {
    hide MoveOk;
    ApplyShaped(s, u);
    MildMove(s, c, u);
  }

  lemma WaitSleepSetMove(s: State, c: int, i: int, t: Thread, u: Update)
    requires Shaped(s) && OnCpu(s, c, i) && t == s.thr[i] && (t.pc == WaitSleep)
    requires Here(s, c, i, i)
    requires t.held != -1 && !t.w
             && u == Go(s, i,
             t.(r := FromWaitSleep, pc := Sched)).(q := s.procs[i].(state := SLEEPING, chan := OnProc(i)))
    ensures Applies(s, u) && MoveOk(s, u)
  {
    hide MoveOk;
    ApplyShaped(s, u);
    MildMove(s, c, u);
  }

  lemma ResumeMove(s: State, c: int, i: int, t: Thread, u: Update)
    requires Shaped(s) && OnCpu(s, c, i) && t == s.thr[i] && (t.pc == Resume)
    requires Here(s, c, i, i)
    requires t.r != FromExit
             && u == Go(s, i,
             t.(held := -1, pc := if t.r == FromWaitSleep then WaitStart else User)).(q := Awake(s.procs[i], t.r),
             m := i, v := -1)
    ensures Applies(s, u) && MoveOk(s, u)
  {
    hide MoveOk;
    ApplyShaped(s, u);
    MildMove(s, c, u);
  }

  lemma SelfMove(s: State, c: int, i: int, t: Thread, u: Update)
    requires Shaped(s) && OnCpu(s, c, i) && t == s.thr[i] && (t.pc == Self)
    requires Here(s, c, i, i)
    requires
      || (t.held != -1 && t.r == FromYield && u == Go(s, i, t.(pc := Sched)).(q := s.procs[i].(state := RUNNABLE)))
      || (t.held != -1 && t.r != FromYield
          && u == Go(s, i, t.(pc := Sched)).(q := s.procs[i].(state := SLEEPING, chan := t.chan)))
    ensures Applies(s, u) && MoveOk(s, u)
  {
    hide MoveOk;
    ApplyShaped(s, u);
    MildMove(s, c, u);
  }

  lemma ForkFoundMove(s: State, c: int, i: int, t: Thread, u: Update)
    requires Shaped(s) && OnCpu(s, c, i) && t == s.thr[i] && t.pc == ForkScan
    requires Here(s, c, i, t.k)
    requires t.held != -1 && s.procs[t.k].state == UNUSED && s.thr[t.k] == FreshThread
             && u == Go(s, i, t.(pc := ForkMade)).(k := t.k, q := s.procs[t.k].(state := USED, pid := s.hist.nextpid),
             h := s.hist.(nextpid := s.hist.nextpid + 1))
    ensures Applies(s, u) && MoveOk(s, u)
  {
    hide WakeMove, Asleep, HasWoken, WillWake;
    ApplyShaped(s, u);
    ForkFoundWakes(s, c, i, t, u);
    assert LockMove(s, u) && WaitLockMove(s, u) && StateMove(s, u);
    assert ParentMove(s, u) && PidMove(s, u);
    assert ExitMove(s, u) && ForkMove(s, u);
  }

  lemma ForkFoundWakes(s: State, c: int, i: int, t: Thread, u: Update)
    requires Shaped(s) && OnCpu(s, c, i) && t == s.thr[i] && t.pc == ForkScan
    requires Here(s, c, i, t.k)
    requires t.held != -1 && s.procs[t.k].state == UNUSED && s.thr[t.k] == FreshThread
             && u == Go(s, i, t.(pc := ForkMade)).(k := t.k, q := s.procs[t.k].(state := USED, pid := s.hist.nextpid),
             h := s.hist.(nextpid := s.hist.nextpid + 1))
    requires Applies(s, u) && Shaped(Apply(s, u))
    ensures WakeMove(s, u)
  {
    hide PidOk, Given, Seen;
  }

  lemma ForkFailMove(s: State, c: int, i: int, t: Thread, u: Update)
    requires Shaped(s) && OnCpu(s, c, i) && t == s.thr[i] && t.pc == ForkMade
    requires Here(s, c, i, t.k)
    requires u == Go(s, i, t.(held := -1, pc := User)).(k := t.k, q := FreedProcess, m := t.k, v := -1)
    ensures Applies(s, u) && MoveOk(s, u)
  {
    hide WakeMove, Asleep, HasWoken, WillWake;
    ApplyShaped(s, u);
    ForkFailWakes(s, c, i, t, u);
    assert LockMove(s, u) && WaitLockMove(s, u) && StateMove(s, u);
    assert ParentMove(s, u) && PidMove(s, u);
    assert ExitMove(s, u) && ForkMove(s, u);
  }

  lemma ForkFailWakes(s: State, c: int, i: int, t: Thread, u: Update)
    requires Shaped(s) && OnCpu(s, c, i) && t == s.thr[i] && t.pc == ForkMade
    requires Here(s, c, i, t.k)
    requires u == Go(s, i, t.(held := -1, pc := User)).(k := t.k, q := FreedProcess, m := t.k, v := -1)
    requires Applies(s, u) && Shaped(Apply(s, u))
    ensures WakeMove(s, u)
  {
    hide PidOk, Given, Seen;
  }

  lemma ForkParentMove(s: State, c: int, i: int, t: Thread, u: Update)
    requires Shaped(s) && OnCpu(s, c, i) && t == s.thr[i] && t.pc == ForkPub
    requires Here(s, c, i, t.k)
    requires t.w && u == Go(s, i, t.(w := false, pc := ForkRun)).(k := t.k, q := s.procs[t.k].(parent := i), w := -1)
    ensures Applies(s, u) && MoveOk(s, u)
  {
    hide WakeMove, Asleep, HasWoken, WillWake;
    ApplyShaped(s, u);
    ForkParentWakes(s, c, i, t, u);
    assert LockMove(s, u) && WaitLockMove(s, u) && StateMove(s, u);
    assert ParentMove(s, u) && PidMove(s, u);
    assert ExitMove(s, u) && ForkMove(s, u);
  }

  lemma ForkParentWakes(s: State, c: int, i: int, t: Thread, u: Update)
    requires Shaped(s) && OnCpu(s, c, i) && t == s.thr[i] && t.pc == ForkPub
    requires Here(s, c, i, t.k)
    requires t.w && u == Go(s, i, t.(w := false, pc := ForkRun)).(k := t.k, q := s.procs[t.k].(parent := i), w := -1)
    requires Applies(s, u) && Shaped(Apply(s, u))
    ensures WakeMove(s, u)
  {
    hide PidOk, Given, Seen;
  }

  lemma ForkRunMove(s: State, c: int, i: int, t: Thread, u: Update)
    requires Shaped(s) && OnCpu(s, c, i) && t == s.thr[i] && t.pc == ForkRun
    requires Here(s, c, i, t.k)
    requires t.held != -1
             && u == Go(s, i, t.(held := -1, pc := User)).(k := t.k, q := s.procs[t.k].(state := RUNNABLE), m := t.k,
             v := -1)
    ensures Applies(s, u) && MoveOk(s, u)
  {
    hide WakeMove, Asleep, HasWoken, WillWake;
    ApplyShaped(s, u);
    ForkRunWakes(s, c, i, t, u);
    assert LockMove(s, u) && WaitLockMove(s, u) && StateMove(s, u);
    assert ParentMove(s, u) && PidMove(s, u);
    assert ExitMove(s, u) && ForkMove(s, u);
  }

  lemma ForkRunWakes(s: State, c: int, i: int, t: Thread, u: Update)
    requires Shaped(s) && OnCpu(s, c, i) && t == s.thr[i] && t.pc == ForkRun
    requires Here(s, c, i, t.k)
    requires t.held != -1
             && u == Go(s, i, t.(held := -1, pc := User)).(k := t.k, q := s.procs[t.k].(state := RUNNABLE), m := t.k,
             v := -1)
    requires Applies(s, u) && Shaped(Apply(s, u))
    ensures WakeMove(s, u)
  {
    hide PidOk, Given, Seen;
  }

  lemma ReparentGiveMove(s: State, c: int, i: int, t: Thread, u: Update)
    requires Shaped(s) && OnCpu(s, c, i) && t == s.thr[i] && t.pc == Reparent
    requires Here(s, c, i, t.k)
    requires t.k < |s.procs| && s.procs[t.k].parent == i
             && u == Go(s, i,
             t.(pc := Wake, k := t.k + 1, j := 0, chan := OnProc(s.init), cont := ToReparent)).(k := t.k,
             q := s.procs[t.k].(parent := s.init))
    ensures Applies(s, u) && MoveOk(s, u)
  {
    hide WakeMove, Asleep, HasWoken, WillWake;
    ApplyShaped(s, u);
    ReparentGiveWakes(s, c, i, t, u);
    assert LockMove(s, u) && WaitLockMove(s, u) && StateMove(s, u);
    assert ParentMove(s, u) && PidMove(s, u);
    assert ExitMove(s, u) && ForkMove(s, u);
  }

  lemma ReparentGiveWakes(s: State, c: int, i: int, t: Thread, u: Update)
    requires Shaped(s) && OnCpu(s, c, i) && t == s.thr[i] && t.pc == Reparent
    requires Here(s, c, i, t.k)
    requires t.k < |s.procs| && s.procs[t.k].parent == i
             && u == Go(s, i,
             t.(pc := Wake, k := t.k + 1, j := 0, chan := OnProc(s.init), cont := ToReparent)).(k := t.k,
             q := s.procs[t.k].(parent := s.init))
    requires Applies(s, u) && Shaped(Apply(s, u))
    ensures WakeMove(s, u)
  {
    hide PidOk, Given, Seen;
  }

  lemma ZombieMove(s: State, c: int, i: int, t: Thread, u: Update)
    requires Shaped(s) && OnCpu(s, c, i) && t == s.thr[i] && t.pc == ExitSelf
    requires Here(s, c, i, i)
    requires t.held != -1
             && u == Go(s, i, t.(pc := ExitRelease)).(q := s.procs[i].(state := ZOMBIE),
             h := s.hist.(exited := s.hist.exited + {s.procs[i].pid}))
    ensures Applies(s, u) && MoveOk(s, u)
  {
    hide WakeMove, Asleep, HasWoken, WillWake;
    ApplyShaped(s, u);
    ZombieWakes(s, c, i, t, u);
    assert LockMove(s, u) && WaitLockMove(s, u) && StateMove(s, u);
    assert ParentMove(s, u) && PidMove(s, u);
    assert ExitMove(s, u) && ForkMove(s, u);
  }

  lemma ZombieWakes(s: State, c: int, i: int, t: Thread, u: Update)
    requires Shaped(s) && OnCpu(s, c, i) && t == s.thr[i] && t.pc == ExitSelf
    requires Here(s, c, i, i)
    requires t.held != -1
             && u == Go(s, i, t.(pc := ExitRelease)).(q := s.procs[i].(state := ZOMBIE),
             h := s.hist.(exited := s.hist.exited + {s.procs[i].pid}))
    requires Applies(s, u) && Shaped(Apply(s, u))
    ensures WakeMove(s, u)
  {
    hide PidOk, Given, Seen;
    assert s.procs[i].parent != -1 ==> HasWoken(t, s.procs[i].parent, s.procs[i].parent);
  }

  lemma ReapMove(s: State, c: int, i: int, t: Thread, u: Update)
    requires Shaped(s) && OnCpu(s, c, i) && t == s.thr[i] && t.pc == WaitKid
    requires Here(s, c, i, t.k)
    requires t.held != -1 && s.procs[t.k].state == ZOMBIE
             && u == Go(s, i, t.(pc := WaitDrop)).(k := t.k, q := FreedProcess,
             h := s.hist.(reaped := s.hist.reaped + [s.procs[t.k].pid]))
    ensures Applies(s, u) && MoveOk(s, u)
  {
    hide WakeMove, Asleep, HasWoken, WillWake;
    ApplyShaped(s, u);
    ReapWakes(s, c, i, t, u);
    assert LockMove(s, u) && WaitLockMove(s, u) && StateMove(s, u);
    assert ParentMove(s, u) && PidMove(s, u);
    assert ExitMove(s, u) && ForkMove(s, u);
  }

  lemma ReapWakes(s: State, c: int, i: int, t: Thread, u: Update)
    requires Shaped(s) && OnCpu(s, c, i) && t == s.thr[i] && t.pc == WaitKid
    requires Here(s, c, i, t.k)
    requires t.held != -1 && s.procs[t.k].state == ZOMBIE
             && u == Go(s, i, t.(pc := WaitDrop)).(k := t.k, q := FreedProcess,
             h := s.hist.(reaped := s.hist.reaped + [s.procs[t.k].pid]))
    requires Applies(s, u) && Shaped(Apply(s, u))
    ensures WakeMove(s, u)
  {
    hide PidOk, Given, Seen;
  }

  lemma UserMove(s: State, s': State, c: int, i: int, to: Thread)
    requires Shaped(s) && OnCpu(s, c, i) && UserStep(s, s', c, i, to) && Here(s, c, i, i)
    ensures Applies(s, Go(s, i, to)) && MoveOk(s, Go(s, i, to)) && s' == Apply(s, Go(s, i, to))
  {
    hide MoveOk;
    var u := Go(s, i, to);
    ApplyShaped(s, u);
    MildMove(s, c, u);
  }

  /** allocproc sets up the context of an UNUSED entry. */
  lemma ResetInv(s: State, k: int)
    requires Inv(s) && 0 <= k < |s.procs| && s.procs[k].state == UNUSED
    ensures Inv(s.(thr := s.thr[k := FreshThread])) && s.on[k] == -1
  {
    hide CpuInv, LockInv, WaitLockInv, ParentInv, ExitInv, ForkInv, ScanInv, WakeInv, PidInv;
    assert StateOk(k, s.procs[k], s.thr[k], s.on[k]);
    ResetMove(s, k);
    UpdateInv(s, Go(s, k, FreshThread));
    assert s.(thr := s.thr[k := FreshThread]) == Apply(s, Go(s, k, FreshThread));
  }

  lemma ResetMove(s: State, k: int)
    requires Inv(s) && 0 <= k < |s.procs| && s.procs[k].state == UNUSED
    ensures Applies(s, Go(s, k, FreshThread)) && MoveOk(s, Go(s, k, FreshThread))
  {
    hide CpuInv, ParentInv, ExitInv, ForkInv, ScanInv, WakeInv, StateOk, LocalOk, PidOk;
    var u := Go(s, k, FreshThread);
    ApplyShaped(s, u);
    assert StateOk(k, s.procs[k], s.thr[k], s.on[k]) && LocalOk(|s.procs|, k, s.thr[k]);
    UnusedThread(|s.procs|, k, s.procs[k], s.thr[k], s.on[k]);
    assert PidOk(s.procs[k], s.hist);
  }

  /** The thread of an UNUSED entry is parked in swtch. */
  lemma UnusedThread(n: nat, k: int, q: Process, t: Thread, on: int)
    requires StateOk(k, q, t, on) && LocalOk(n, k, t) && q.state == UNUSED && (t.held != -1 ==> on != -1)
    ensures on == -1 && t.pc == Resume && t.held == -1 && !t.w && t.intr == NoIntr
    ensures StateOk(k, q, FreshThread, on) && LocalOk(n, k, FreshThread)
  {
  }
}
