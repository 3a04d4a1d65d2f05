/**
 The process table of kernel/proc.c as a step system.

 Every CPU runs either scheduler() or the kernel thread of one process; a thread
 has a program counter that names its place in fork, exit, wait, sleep, wakeup,
 yield or kill, and a few registers.  One step is one acquire, or the accesses
 made under a lock together with its release, or one swtch.  Any interleaving
 of the CPUs is a run.

 Interrupts come wherever no lock is held: a timer interrupt makes a thread call
 yield() in the middle of what it does, and a device interrupt, in a thread or in
 scheduler(), calls wakeup() on a channel that is no process.

 swtch is an atomic transfer of control that leaves p->lock held.  Memory
 allocation and copyout succeed or fail as they like.  pids are unbounded.
 Pointers to processes and CPUs are table indices, and -1 is the null pointer.
 */
module Proc {

  datatype ProcState = UNUSED | USED | SLEEPING | RUNNABLE | RUNNING | ZOMBIE

  /** A sleep channel: a struct proc (used by wait only) or any other address. */
  datatype Chan = NoChan | OnProc(i: int) | OnOther(x: int)

  /** Where a thread continues after sched(); Forkret for a thread that never ran. */
  datatype Ret = Forkret | FromYield | FromSleep | FromWaitSleep | FromExit

  /** Where a thread continues after wakeup(). */
  datatype Cont = ToReparent | ToZombie | ToUser

  datatype Pc =
    | User         // user space, or kernel code outside proc.c; no lock held
    | Resume       // inside swtch, or just returned from it with p->lock held
    | Sched        // p->lock held and p->state changed, about to call swtch
    | Wake         // wakeup(chan): process j is next
    | ForkScan     // allocproc: process k is next
    | ForkMade     // process k is USED and its lock is held
    | ForkPub      // about to set the parent of k under wait_lock
    | ForkRun      // about to make k RUNNABLE under its lock
    | ExitStart | Reparent | ExitSelf | ExitRelease
    | WaitStart | WaitScan | WaitKid | WaitDrop | WaitKill | WaitLeave
    | WaitSleep    // sleep(p, &wait_lock)
    | Self         // yield(), or sleep() on another channel
    | Kill         // kill(pid): process k is next

  /** What an interrupt makes a thread do before it goes on. */
  datatype Intr =
    | NoIntr
    | Waking       // wakeup() of a device's channel, with the lock of some process held
    | Yielding     // yield(), with p->lock held
    | Switching    // p->state changed, about to call swtch
    | Parked       // inside swtch, or just returned from it with p->lock held

  /** The fields of struct proc that the protocol uses. */
  datatype Process = Process(state: ProcState, chan: Chan, parent: int, pid: nat, killed: bool)

  /** A kernel thread: program counter, locks held, registers. */
  datatype Thread = Thread(
    pc: Pc,
    held: int,       // the process whose lock the thread holds
    w: bool,         // does it hold wait_lock?
    k: nat, j: nat,  // loop indices
    have: bool,      // wait()'s havekids
    r: Ret, chan: Chan, cont: Cont,
    pid: nat,        // kill()'s argument
    intr: Intr)

  datatype At = Scan | Have | Run | Back | Drop | Visit

  /**
   struct cpu: c->proc, and what the CPU executes: scheduler() at process k, or the
   thread of k, or a device interrupt in scheduler() whose wakeup() visits process v.
   */
  datatype Cpu = Cpu(proc: int, at: At, k: int, v: int)

  /** nextpid, and as history the pids that became ZOMBIE and those returned by wait, in order. */
  datatype Hist = Hist(nextpid: nat, exited: set<nat>, reaped: seq<nat>)

  datatype State = State(
    procs: seq<Process>,
    thr: seq<Thread>,
    on: seq<int>,        // the CPU that executes the thread of process i
    plock: seq<int>,     // p->lock: the CPU that holds it
    wlock: int,          // wait_lock: the process that holds it
    cpus: seq<Cpu>,
    init: int,           // initproc
    hist: Hist)

  // ---------- Shape ----------

  ghost predicate Shaped(s: State) {
    && 0 <= s.init < |s.procs|
    && |s.thr| == |s.procs| && |s.on| == |s.procs| && |s.plock| == |s.procs|
    && -1 <= s.wlock < |s.procs|
    && (forall c | 0 <= c < |s.cpus| :: 0 <= s.cpus[c].k < |s.procs| && 0 <= s.cpus[c].v < |s.procs|)
    && (forall i | 0 <= i < |s.procs| :: -1 <= s.on[i] < |s.cpus|)
    && (forall i | 0 <= i < |s.procs| :: -1 <= s.plock[i] < |s.cpus|)
    && (forall i | 0 <= i < |s.procs| :: -1 <= s.procs[i].parent < |s.procs|)
    && (forall i | 0 <= i < |s.procs| ::
        -1 <= s.thr[i].held < |s.procs| && s.thr[i].k <= |s.procs| && s.thr[i].j <= |s.procs|)
  }

  /** Which locks and register ranges go with a program counter, and with an interrupt on top of it. */
  predicate LocalOk(n: nat, i: int, t: Thread) {
    if t.intr == NoIntr then PcOk(n, i, t)
    else
      && PcOk(n, i, t.(held := -1)) && !t.w && t.pc != Resume
      && match t.intr
         case Waking => t.held != -1 && t.held != i
         case Parked => t.held == -1 || t.held == i
         case _ => t.held == i
  }

  predicate PcOk(n: nat, i: int, t: Thread) {
    match t.pc
    case User => t.held == -1 && !t.w
    case Resume => (t.held == -1 || t.held == i) && !t.w
    case Sched => t.held == i && !t.w && t.r != Forkret
    case Wake => (t.w <==> t.cont != ToUser) && (t.held == -1 || (t.held == t.j && t.j != i))
    case ForkScan => !t.w && (t.held == -1 || t.held == t.k)
    case ForkMade => !t.w && t.held == t.k
    case ForkPub => t.held == -1 && t.k < n
    case ForkRun => !t.w && t.k < n && (t.held == -1 || t.held == t.k)
    case ExitStart => t.held == -1 && !t.w
    case Reparent => t.held == -1 && t.w
    case ExitSelf => t.w && (t.held == -1 || t.held == i)
    case ExitRelease => t.w && t.held == i
    case WaitStart => t.held == -1 && !t.w
    case WaitScan => t.held == -1 && t.w
    case WaitKid => t.w && t.k < n && (t.held == -1 || t.held == t.k)
    case WaitDrop => t.w && t.held == t.k
    case WaitKill => t.w && (t.held == -1 || t.held == i)
    case WaitLeave => t.held == -1 && t.w
    case WaitSleep => (t.held == -1 && t.w) || t.held == i
    case Self => !t.w && (t.held == -1 || t.held == i) && SelfOk(t.r, t.chan)
    case Kill => !t.w && (t.held == -1 || t.held == t.k)
  }

  predicate SelfOk(r: Ret, chan: Chan) {
    (r == FromYield && chan == NoChan) || (r == FromSleep && chan.OnOther?)
  }

  /** Where a thread is, and where it continues after sched(), interrupts included. */
  function Place(t: Thread): Pc {
    match t.intr
    case Yielding => Self
    case Switching => Sched
    case Parked => Resume
    case _ => t.pc
  }

  function Returns(t: Thread): Ret {
    if t.intr == Switching || t.intr == Parked then FromYield else t.r
  }

  // ---------- Steps ----------

  /** scheduler() on CPU c. */
  ghost predicate SchedulerStep(s: State, s': State, c: int)
    requires Shaped(s) && 0 <= c < |s.cpus|
  {
    var cpu := s.cpus[c];
    var k := cpu.k;
    var next := if k + 1 == |s.procs| then 0 else k + 1;
    match cpu.at
    case Scan => s.plock[k] == -1 && s' == s.(plock := s.plock[k := c], cpus := s.cpus[c := cpu.(at := Have)])
    case Have =>
      if s.procs[k].state == RUNNABLE then
        s' == s.(procs := s.procs[k := s.procs[k].(state := RUNNING)],
                 thr := s.thr[k := s.thr[k].(held := k)],
                 on := s.on[k := c],
                 cpus := s.cpus[c := cpu.(proc := k, at := Run)])
      else
        s' == s.(plock := s.plock[k := -1], cpus := s.cpus[c := cpu.(at := Scan, k := next)])
    case Back => s' == s.(cpus := s.cpus[c := cpu.(proc := -1, at := Drop)])
    case Drop => s' == s.(plock := s.plock[k := -1], cpus := s.cpus[c := cpu.(at := Scan, k := next)])
    case _ => false
  }

  /** A device interrupt in scheduler(): its wakeup() acquires the lock of process j, or has it and is done with it. */
  ghost predicate IdleWakeStep(s: State, s': State, c: int, j: int, x: int)
    requires Shaped(s) && 0 <= c < |s.cpus| && 0 <= j < |s.procs|
  {
    var cpu := s.cpus[c];
    match cpu.at
    case Scan => s.plock[j] == -1 && s' == s.(plock := s.plock[j := c], cpus := s.cpus[c := cpu.(at := Visit, v := j)])
    case Visit =>
      && j == cpu.v
      && s' == s.(procs := s.procs[j := Woken(s.procs[j], OnOther(x))], plock := s.plock[j := -1],
                  cpus := s.cpus[c := cpu.(at := Scan)])
    case _ => false
  }

  ghost predicate Executes(s: State, c: int, i: int)
    requires Shaped(s)
  {
    && 0 <= c < |s.cpus| && 0 <= i < |s.procs| && s.cpus[c].at == Run && s.cpus[c].k == i
    && LocalOk(|s.procs|, i, s.thr[i])
  }

  ghost predicate OnCpu(s: State, c: int, i: int)
    requires Shaped(s)
  {
    Executes(s, c, i) && s.thr[i].intr == NoIntr
  }

  /** A thread outside proc.c decides what to do next. */
  ghost predicate UserStep(s: State, s': State, c: int, i: int, to: Thread)
    requires Shaped(s) && OnCpu(s, c, i)
  {
    && s.thr[i].pc == User
    && to.held == -1 && !to.w && to.k == 0 && to.j == 0 && to.intr == NoIntr
    && (match to.pc
        case ForkScan => true
        case ExitStart => i != s.init
        case WaitStart => true
        case Self => SelfOk(to.r, to.chan)
        case Wake => to.chan.OnOther? && to.cont == ToUser
        case Kill => true
        case _ => false)
    && s' == s.(thr := s.thr[i := to])
  }

  /** sleep() clears p->chan when it returns. */
  function Awake(q: Process, r: Ret): Process {
    if r == FromSleep || r == FromWaitSleep then q.(chan := NoChan) else q
  }

  /** Returning from swtch, calling swtch, yield(), and sleep() on another channel. */
  ghost predicate SwitchStep(s: State, s': State, c: int, i: int)
    requires Shaped(s) && OnCpu(s, c, i)
  {
    var me, t := s.procs[i], s.thr[i];
    match t.pc
    case Resume =>
      && t.r != FromExit
      && s' == s.(procs := s.procs[i := Awake(me, t.r)], plock := s.plock[i := -1],
                  thr := s.thr[i := t.(held := -1, pc := if t.r == FromWaitSleep then WaitStart else User)])
    case Sched =>
      s' == s.(thr := s.thr[i := t.(pc := Resume, held := -1)], on := s.on[i := -1],
               cpus := s.cpus[c := s.cpus[c].(at := Back)])
    case Self =>
      if t.held == -1 then
        s.plock[i] == -1 && s' == s.(plock := s.plock[i := c], thr := s.thr[i := t.(held := i)])
      else if t.r == FromYield then
        s' == s.(procs := s.procs[i := me.(state := RUNNABLE)], thr := s.thr[i := t.(pc := Sched)])
      else
        s' == s.(procs := s.procs[i := me.(state := SLEEPING, chan := t.chan)], thr := s.thr[i := t.(pc := Sched)])
    case _ => false
  }

  function AfterWake(cont: Cont): Pc {
    match cont
    case ToReparent => Reparent
    case ToZombie => ExitSelf
    case ToUser => User
  }

  /** What wakeup(chan) makes of a process. */
  function Woken(q: Process, chan: Chan): Process {
    if q.state == SLEEPING && q.chan == chan then q.(state := RUNNABLE) else q
  }

  /** What kill makes of its victim. */
  function Hit(q: Process): Process {
    q.(killed := true, state := if q.state == SLEEPING then RUNNABLE else q.state)
  }

  /** The channel wakeup(p->parent) names. */
  function ParentChan(parent: int): Chan {
    if parent == -1 then NoChan else OnProc(parent)
  }

  /** wakeup(chan). */
  ghost predicate WakeStep(s: State, s': State, c: int, i: int)
    requires Shaped(s) && OnCpu(s, c, i)
  {
    var t := s.thr[i];
    && t.pc == Wake
    && if t.held == -1 then
         if t.j == |s.procs| then s' == s.(thr := s.thr[i := t.(pc := AfterWake(t.cont))])
         else if t.j == i then s' == s.(thr := s.thr[i := t.(j := t.j + 1)])
         else s.plock[t.j] == -1 && s' == s.(plock := s.plock[t.j := c], thr := s.thr[i := t.(held := t.j)])
       else
         s' == s.(procs := s.procs[t.j := Woken(s.procs[t.j], t.chan)], plock := s.plock[t.j := -1],
                  thr := s.thr[i := t.(held := -1, j := t.j + 1)])
  }

  /** kill(pid). */
  ghost predicate KillStep(s: State, s': State, c: int, i: int)
    requires Shaped(s) && OnCpu(s, c, i)
  {
    var t := s.thr[i];
    && t.pc == Kill
    && if t.held == -1 then
         if t.k == |s.procs| then s' == s.(thr := s.thr[i := t.(pc := User)])
         else s.plock[t.k] == -1 && s' == s.(plock := s.plock[t.k := c], thr := s.thr[i := t.(held := t.k)])
       else
         var q := s.procs[t.k];
         if q.pid == t.pid then
           s' == s.(procs := s.procs[t.k := Hit(q)], plock := s.plock[t.k := -1],
                    thr := s.thr[i := t.(held := -1, pc := User)])
         else
           s' == s.(plock := s.plock[t.k := -1], thr := s.thr[i := t.(held := -1, k := t.k + 1)])
  }

  /** The table entry after freeproc, and the context that allocproc sets up. */
  const FreedProcess := Process(UNUSED, NoChan, -1, 0, false)
  const FreshThread := Thread(Resume, -1, false, 0, 0, false, Forkret, NoChan, ToUser, 0, NoIntr)

  /** fork(); `fails` stands for kalloc or uvmcopy returning an error. */
  ghost predicate ForkStep(s: State, s': State, c: int, i: int, fails: bool)
    requires Shaped(s) && OnCpu(s, c, i)
  {
    var n, t := |s.procs|, s.thr[i];
    match t.pc
    case ForkScan =>
      if t.held == -1 then
        if t.k == n then s' == s.(thr := s.thr[i := t.(pc := User)])
        else s.plock[t.k] == -1 && s' == s.(plock := s.plock[t.k := c], thr := s.thr[i := t.(held := t.k)])
      else if s.procs[t.k].state == UNUSED then
        s' == s.(procs := s.procs[t.k := s.procs[t.k].(state := USED, pid := s.hist.nextpid)],
                 hist := s.hist.(nextpid := s.hist.nextpid + 1),
                 thr := s.thr[t.k := FreshThread][i := t.(pc := ForkMade)])
      else
        s' == s.(plock := s.plock[t.k := -1], thr := s.thr[i := t.(held := -1, k := t.k + 1)])
    case ForkMade =>
      if fails then
        s' == s.(procs := s.procs[t.k := FreedProcess], plock := s.plock[t.k := -1],
                 thr := s.thr[i := t.(held := -1, pc := User)])
      else
        s' == s.(plock := s.plock[t.k := -1], thr := s.thr[i := t.(held := -1, pc := ForkPub)])
    case ForkPub =>
      if !t.w then
        s.wlock == -1 && s' == s.(wlock := i, thr := s.thr[i := t.(w := true)])
      else
        s' == s.(procs := s.procs[t.k := s.procs[t.k].(parent := i)], wlock := -1,
                 thr := s.thr[i := t.(w := false, pc := ForkRun)])
    case ForkRun =>
      if t.held == -1 then
        s.plock[t.k] == -1 && s' == s.(plock := s.plock[t.k := c], thr := s.thr[i := t.(held := t.k)])
      else
        s' == s.(procs := s.procs[t.k := s.procs[t.k].(state := RUNNABLE)], plock := s.plock[t.k := -1],
                 thr := s.thr[i := t.(held := -1, pc := User)])
    case _ => false
  }

  /** exit(). */
  ghost predicate ExitStep(s: State, s': State, c: int, i: int)
    requires Shaped(s) && OnCpu(s, c, i)
  {
    var n, me, t := |s.procs|, s.procs[i], s.thr[i];
    match t.pc
    case ExitStart => s.wlock == -1 && s' == s.(wlock := i, thr := s.thr[i := t.(pc := Reparent, w := true, k := 0)])
    case Reparent =>
      if t.k == n then
        s' == s.(thr := s.thr[i := t.(pc := Wake, j := 0, chan := ParentChan(me.parent), cont := ToZombie)])
      else if s.procs[t.k].parent == i then
        s' == s.(procs := s.procs[t.k := s.procs[t.k].(parent := s.init)],
                 thr := s.thr[i := t.(pc := Wake, k := t.k + 1, j := 0, chan := OnProc(s.init), cont := ToReparent)])
      else
        s' == s.(thr := s.thr[i := t.(k := t.k + 1)])
    case ExitSelf =>
      if t.held == -1 then
        s.plock[i] == -1 && s' == s.(plock := s.plock[i := c], thr := s.thr[i := t.(held := i)])
      else
        s' == s.(procs := s.procs[i := me.(state := ZOMBIE)], hist := s.hist.(exited := s.hist.exited + {me.pid}),
                 thr := s.thr[i := t.(pc := ExitRelease)])
    case ExitRelease => s' == s.(wlock := -1, thr := s.thr[i := t.(w := false, r := FromExit, pc := Sched)])
    case _ => false
  }

  /** wait(); `fails` stands for copyout returning an error. */
  ghost predicate WaitStep(s: State, s': State, c: int, i: int, fails: bool)
    requires Shaped(s) && OnCpu(s, c, i)
  {
    var n, me, t := |s.procs|, s.procs[i], s.thr[i];
    match t.pc
    case WaitStart =>
      s.wlock == -1 && s' == s.(wlock := i, thr := s.thr[i := t.(pc := WaitScan, w := true, k := 0, have := false)])
    case WaitScan =>
      if t.k == n then s' == s.(thr := s.thr[i := t.(pc := if t.have then WaitKill else WaitLeave)])
      else if s.procs[t.k].parent == i then s' == s.(thr := s.thr[i := t.(pc := WaitKid)])
      else s' == s.(thr := s.thr[i := t.(k := t.k + 1)])
    case WaitKid =>
      if t.held == -1 then
        s.plock[t.k] == -1 && s' == s.(plock := s.plock[t.k := c], thr := s.thr[i := t.(held := t.k)])
      else if s.procs[t.k].state != ZOMBIE then
        s' == s.(plock := s.plock[t.k := -1],
                 thr := s.thr[i := t.(held := -1, have := true, k := t.k + 1, pc := WaitScan)])
      else if fails then
        s' == s.(thr := s.thr[i := t.(pc := WaitDrop)])
      else
        s' == s.(procs := s.procs[t.k := FreedProcess],
                 hist := s.hist.(reaped := s.hist.reaped + [s.procs[t.k].pid]),
                 thr := s.thr[i := t.(pc := WaitDrop)])
    case WaitDrop => s' == s.(plock := s.plock[t.k := -1], thr := s.thr[i := t.(held := -1, pc := WaitLeave)])
    case WaitKill =>
      if t.held == -1 then
        s.plock[i] == -1 && s' == s.(plock := s.plock[i := c], thr := s.thr[i := t.(held := i)])
      else
        s' == s.(plock := s.plock[i := -1],
                 thr := s.thr[i := t.(held := -1, pc := if me.killed then WaitLeave else WaitSleep)])
    case WaitLeave => s' == s.(wlock := -1, thr := s.thr[i := t.(w := false, pc := User)])
    case WaitSleep =>
      if t.held == -1 then
        s.plock[i] == -1 && s' == s.(plock := s.plock[i := c], thr := s.thr[i := t.(held := i)])
      else if t.w then
        s' == s.(wlock := -1, thr := s.thr[i := t.(w := false)])
      else
        s' == s.(procs := s.procs[i := me.(state := SLEEPING, chan := OnProc(i))],
                 thr := s.thr[i := t.(r := FromWaitSleep, pc := Sched)])
    case _ => false
  }

  /**
   Interrupts.  They are on where the thread holds no lock.  kerneltrap() yields if
   the process is RUNNING; a device's handler calls wakeup(), which visits processes
   other than its own, one interrupt step each.
   */
  ghost predicate IntrStep(s: State, s': State, c: int, i: int, j: int, x: int)
    requires Shaped(s) && Executes(s, c, i) && 0 <= j < |s.procs|
  {
    var me, t := s.procs[i], s.thr[i];
    match t.intr
    case NoIntr =>
      && t.held == -1 && !t.w && s.plock[j] == -1 && (j == i ==> me.state == RUNNING)
      && s' == s.(plock := s.plock[j := c],
          thr := s.thr[i := t.(held := j, intr := if j == i then Yielding else Waking)])
    case Waking =>
      && j == t.held
      && s' == s.(procs := s.procs[j := Woken(s.procs[j], OnOther(x))], plock := s.plock[j := -1],
                  thr := s.thr[i := t.(held := -1, intr := NoIntr)])
    case Yielding =>
      s' == s.(procs := s.procs[i := me.(state := RUNNABLE)], thr := s.thr[i := t.(intr := Switching)])
    case Switching =>
      s' == s.(thr := s.thr[i := t.(intr := Parked, held := -1)], on := s.on[i := -1],
               cpus := s.cpus[c := s.cpus[c].(at := Back)])
    case Parked =>
      s' == s.(plock := s.plock[i := -1], thr := s.thr[i := t.(held := -1, intr := NoIntr)])
  }

  ghost predicate ThreadStep(s: State, s': State, c: int, i: int)
    requires Shaped(s) && OnCpu(s, c, i)
  {
    || (exists to :: UserStep(s, s', c, i, to))
    || SwitchStep(s, s', c, i)
    || WakeStep(s, s', c, i)
    || KillStep(s, s', c, i)
    || (exists fails :: ForkStep(s, s', c, i, fails))
    || ExitStep(s, s', c, i)
    || (exists fails :: WaitStep(s, s', c, i, fails))
  }

  /** Some CPU takes a step. */
  ghost predicate Next(s: State, s': State) {
    Shaped(s) && exists c | 0 <= c < |s.cpus| :: CpuStep(s, s', c)
  }

  ghost predicate CpuStep(s: State, s': State, c: int)
    requires Shaped(s) && 0 <= c < |s.cpus|
  {
    if s.cpus[c].at == Run then
      var i := s.cpus[c].k;
      || (OnCpu(s, c, i) && ThreadStep(s, s', c, i))
      || (Executes(s, c, i) && exists j, x | 0 <= j < |s.procs| :: IntrStep(s, s', c, i, j, x))
    else
      || SchedulerStep(s, s', c)
      || exists j, x | 0 <= j < |s.procs| :: IdleWakeStep(s, s', c, j, x)
  }

  /** The table after procinit and userinit: init is RUNNABLE and every CPU is in scheduler(). */
  ghost predicate Init(s: State) {
    && Shaped(s)
    && s.wlock == -1 && s.hist == Hist(2, {}, [])
    && (forall i | 0 <= i < |s.procs| :: s.thr[i] == FreshThread && s.plock[i] == -1 && s.on[i] == -1)
    && (forall i | 0 <= i < |s.procs| ::
          s.procs[i] == if i == s.init then Process(RUNNABLE, NoChan, -1, 1, false) else FreedProcess)
    && (forall c | 0 <= c < |s.cpus| :: s.cpus[c] == Cpu(-1, Scan, 0, 0))
  }

  // ---------- The invariant ----------

  ghost predicate LocalInv(s: State)
    requires Shaped(s)
  {
    forall i | 0 <= i < |s.procs| :: LocalOk(|s.procs|, i, s.thr[i])
  }

  /** c->proc and the thread a CPU executes agree, and a thread runs on one CPU only. */
  ghost predicate CpuInv(s: State)
    requires Shaped(s)
  {
    && (forall c | 0 <= c < |s.cpus| ::
          && (s.cpus[c].proc == if s.cpus[c].at == Run || s.cpus[c].at == Back then s.cpus[c].k else -1)
          && (s.cpus[c].at == Run ==> s.on[s.cpus[c].k] == c)
          && (s.cpus[c].at == Back || s.cpus[c].at == Drop ==> s.on[s.cpus[c].k] == -1))
    && (forall i | 0 <= i < |s.procs| :: s.on[i] != -1 ==> s.cpus[s.on[i]].at == Run && s.cpus[s.on[i]].k == i)
  }

  /** The process whose lock scheduler() holds, or a handler that interrupted it. */
  function Locked(cpu: Cpu): int {
    if cpu.at == Visit then cpu.v else cpu.k
  }

  /** A process lock is held exactly by the CPU whose code is between acquire and release. */
  ghost predicate LockInv(s: State)
    requires Shaped(s)
  {
    && (forall i | 0 <= i < |s.procs| :: s.thr[i].held != -1 ==> s.on[i] != -1 && s.plock[s.thr[i].held] == s.on[i])
    && (forall c | 0 <= c < |s.cpus| :: s.cpus[c].at != Run && s.cpus[c].at != Scan ==> s.plock[Locked(s.cpus[c])] == c)
    && (forall k | 0 <= k < |s.procs| :: s.plock[k] != -1 ==>
          var cpu := s.cpus[s.plock[k]];
          if cpu.at == Run then s.thr[cpu.k].held == k else cpu.at != Scan && Locked(cpu) == k)
  }

  /** wait_lock is held exactly by the thread whose code is between acquire and release. */
  ghost predicate WaitLockInv(s: State)
    requires Shaped(s)
  {
    forall i | 0 <= i < |s.procs| :: s.thr[i].w <==> s.wlock == i
  }

  /** What p->state says about the thread of p. */
  ghost predicate StateInv(s: State)
    requires Shaped(s)
  {
    forall i | 0 <= i < |s.procs| :: StateOk(i, s.procs[i], s.thr[i], s.on[i])
  }

  predicate StateOk(i: int, q: Process, t: Thread, on: int) {
    && (q.state == UNUSED ==> q.chan == NoChan && q.parent == -1)
    && (q.state == SLEEPING ==> SleepOk(i, Returns(t), q.chan))
    && if on == -1 then
         && Place(t) == Resume && (t.intr != NoIntr ==> q.state == RUNNABLE)
         && q.state != RUNNING
         && (q.state == ZOMBIE ==> Returns(t) == FromExit)
         && (q.state == USED ==> Returns(t) == Forkret)
         && (q.state == RUNNABLE ==> Returns(t) != FromExit)
       else if Place(t) == Sched then
         q.state == match Returns(t) case FromExit => ZOMBIE case FromYield => RUNNABLE case _ => SLEEPING
       else if Place(t) == ExitRelease then
         q.state == ZOMBIE
       else
         q.state == RUNNING && (Place(t) == Resume ==> t.held == i && Returns(t) != FromExit)
  }

  predicate SleepOk(i: int, r: Ret, chan: Chan) {
    (r == FromSleep && chan.OnOther?) || (r == FromWaitSleep && chan == OnProc(i))
  }

  predicate Live(st: ProcState) {
    st != UNUSED && st != USED && st != ZOMBIE
  }

  /** Only live processes are parents. */
  ghost predicate ParentInv(s: State)
    requires Shaped(s)
  {
    && Live(s.procs[s.init].state) && s.procs[s.init].parent == -1
    && forall x | 0 <= x < |s.procs| :: s.procs[x].parent != -1 ==>
         s.procs[x].parent != x && Live(s.procs[s.procs[x].parent].state)
  }

  /** The children of process i at table positions below this one have been given to init. */
  function Given(n: nat, t: Thread): int {
    match t.pc
    case Reparent => t.k
    case Wake => if t.cont == ToReparent then t.k else if t.cont == ToZombie then n else 0
    case ExitSelf => n
    case _ => 0
  }

  predicate Exiting(t: Thread) {
    t.pc == ExitStart || t.pc == Reparent || t.pc == ExitSelf || (t.pc == Wake && t.cont != ToUser)
  }

  /** An exiting process gives its children away in table order, and then wakes its parent. */
  ghost predicate ExitInv(s: State)
    requires Shaped(s)
  {
    && (forall i | 0 <= i < |s.procs| :: Exiting(s.thr[i]) ==> i != s.init)
    && (forall i | 0 <= i < |s.procs| :: s.thr[i].pc == Wake ==> ChanOk(s, i, s.thr[i]))
    && (forall i, x | 0 <= i < |s.procs|
        && 0 <= x < |s.procs| :: x < Given(|s.procs|, s.thr[i]) ==> s.procs[x].parent != i)
  }

  ghost predicate ChanOk(s: State, i: int, t: Thread)
    requires Shaped(s) && 0 <= i < |s.procs|
  {
    t.chan == match t.cont
              case ToReparent => OnProc(s.init)
              case ToZombie => ParentChan(s.procs[i].parent)
              case ToUser => OnOther(if t.chan.OnOther? then t.chan.x else 0)
  }

  /** Is thread t making process t.k in fork()? */
  predicate Making(t: Thread) {
    t.pc == ForkMade || t.pc == ForkPub || t.pc == ForkRun
  }

  ghost predicate ForkInv(s: State)
    requires Shaped(s)
  {
    && (forall i | 0 <= i < |s.procs| :: Making(s.thr[i]) ==>
          s.thr[i].k < |s.procs| && s.procs[s.thr[i].k].state == USED
          && s.procs[s.thr[i].k].parent == if s.thr[i].pc == ForkRun then i else -1)
    && (forall i, j | 0 <= i < |s.procs| && 0 <= j < |s.procs| && i != j ::
          Making(s.thr[i]) && Making(s.thr[j]) ==> s.thr[i].k != s.thr[j].k)
    && (forall x | 0 <= x < |s.procs| :: s.procs[x].state == USED && s.procs[x].parent != -1 ==>
          s.thr[s.procs[x].parent].pc == ForkRun && s.thr[s.procs[x].parent].k == x)
  }

  /** wait() has seen that the children of process i below this position are no ZOMBIEs. */
  function Seen(n: nat, t: Thread): int {
    match t.pc
    case WaitScan => t.k
    case WaitKid => t.k
    case WaitKill => n
    case WaitSleep => if t.w then n else 0
    case _ => 0
  }

  ghost predicate ScanInv(s: State)
    requires Shaped(s)
  {
    && (forall i, x | 0 <= i < |s.procs| && 0 <= x < |s.procs| ::
          x < Seen(|s.procs|, s.thr[i]) && s.procs[x].parent == i ==> s.procs[x].state != ZOMBIE)
    && (forall i | 0 <= i < |s.procs| ::
        s.thr[i].pc == WaitKid ==> s.thr[i].k < |s.procs| && s.procs[s.thr[i].k].parent == i)
  }

  /** Asleep in wait(), or past the point where sleep() has released wait_lock. */
  predicate Asleep(i: int, q: Process, t: Thread) {
    (q.state == SLEEPING && q.chan == OnProc(i)) || (t.pc == WaitSleep && !t.w)
  }

  /** Thread t holds wait_lock, has just given a child to process i, and will still wake i. */
  predicate WillWake(t: Thread, i: int) {
    t.w && t.pc == Wake && t.cont == ToReparent && t.chan == OnProc(i) && t.j <= i
  }

  /** Thread t holds wait_lock and has woken process i, or found it awake. */
  predicate HasWoken(t: Thread, i: int, parent: int) {
    t.w && ((t.pc == Wake && t.chan == OnProc(i) && i < t.j) || (t.pc == ExitSelf && parent == i))
  }

  ghost predicate AsleepIn(s: State, p: int)
    requires Shaped(s) && 0 <= p < |s.procs|
  {
    Asleep(p, s.procs[p], s.thr[p])
  }

  ghost predicate NotLost(s: State, i: int)
    requires Shaped(s) && 0 <= i < |s.procs|
  {
    AsleepIn(s, i) ==> s.wlock != -1 && WillWake(s.thr[s.wlock], i)
  }

  /** No wakeup is lost: a sleeping parent of a ZOMBIE is about to be woken. */
  ghost predicate WakeInv(s: State)
    requires Shaped(s)
  {
    && (forall x | 0 <= x < |s.procs| ::
          s.procs[x].state == ZOMBIE && s.procs[x].parent != -1 ==> NotLost(s, s.procs[x].parent))
    && (forall e, i | 0 <= e < |s.procs| && 0 <= i < |s.procs| ::
          HasWoken(s.thr[e], i, s.procs[e].parent) ==> !AsleepIn(s, i))
  }

  /** pids are fresh, and each is reaped at most once, after its process exited. */
  ghost predicate PidInv(s: State)
    requires Shaped(s)
  {
    && 0 < s.hist.nextpid
    && (forall i | 0 <= i < |s.procs| :: PidOk(s.procs[i], s.hist))
    && (forall i, j | 0 <= i < |s.procs| && 0 <= j < |s.procs| && i != j ::
          s.procs[i].pid != 0 ==> s.procs[i].pid != s.procs[j].pid)
    && (forall pid | pid in s.hist.exited :: 0 < pid < s.hist.nextpid)
    && (forall a | 0 <= a < |s.hist.reaped| :: s.hist.reaped[a] in s.hist.exited)
    && (forall a, b | 0 <= a < b < |s.hist.reaped| :: s.hist.reaped[a] != s.hist.reaped[b])
  }

  predicate PidOk(q: Process, h: Hist) {
    && (q.state == UNUSED <==> q.pid == 0)
    && q.pid < h.nextpid
    && (q.state == ZOMBIE ==> q.pid in h.exited && q.pid !in h.reaped)
    && (q.pid in h.exited ==> q.state == ZOMBIE)
  }

  ghost predicate Inv(s: State) {
    && Shaped(s)
    && LocalInv(s) && CpuInv(s) && LockInv(s) && StateInv(s) && WaitLockInv(s)
    && ParentInv(s) && ExitInv(s) && ForkInv(s) && ScanInv(s) && WakeInv(s) && PidInv(s)
  }
}
