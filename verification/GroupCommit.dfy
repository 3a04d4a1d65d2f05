/**
 The logging system of kernel/log.c as a step system: any number of file-system
 operations interleave begin_op, log_write and end_op; the last end_op commits,
 one block write per step; the machine may crash between any two steps, also
 while it is recovering.

 `durable` and `pending` are history: the log_writes made durable by a first write_head, in order, and
 those made since.
 */
module GroupCommit {
  import opened RedoLog
  import opened LogObject
  import Arithmetic

  type OpId = nat

  /** One log_write: operation `op` left `data` in the buffer of home block `block`. */
  datatype Rec = Rec(op: OpId, block: nat, data: Block)

  datatype Phase = Running | Committing | Recovering

  datatype State = State(
    disk: Disk,
    cache: Disk,             // contents of the pinned buffers
    lh: seq<nat>,            // log.lh.block[..log.lh.n]
    outstanding: nat,
    committing: bool,
    ops: map<OpId, nat>,     // outstanding operation -> number of blocks it has added to lh
    asleep: nat,             // how many processes sleep in begin_op
    nextOp: OpId,
    phase: Phase,
    base: Disk,              // the disk when the current commit or recovery began
    todo: seq<Write>,        // all block writes of that commit or recovery
    done: nat,               // how many of them have reached the disk
    durable: seq<Rec>,
    pending: seq<Rec>)

  /** MAXOPBLOCKS, the log's geometry, and the disk found at boot. */
  datatype Params = Params(cfg: Config, maxop: nat, boot: Disk)

  ghost predicate ValidParams(p: Params) {
    HeaderOk(p.cfg, p.boot)
  }

  // ---------- Steps ----------

  datatype Step = Begin | Sleep | LogWrite(t: OpId, b: nat, data: Block) | End(t: OpId) | DiskWrite | Finish | Crash

  /** Power on: recover_from_log is about to run on whatever disk is found. */
  ghost function PowerOn(p: Params, disk: Disk, nextOp: OpId, durable: seq<Rec>): State
    requires HeaderOk(p.cfg, disk)
  {
    State(disk, map[], [], 0, false, map[], 0, nextOp, Recovering, disk, RecoverWrites(p.cfg, disk), 0, durable, [])
  }

  ghost predicate Init(p: Params, s: State) {
    ValidParams(p) && s == PowerOn(p, p.boot, 0, [])
  }

  /** begin_op finds a commit in progress, or that this operation might exhaust the log. */
  predicate MustWait(p: Params, s: State) {
    s.committing || |s.lh| + (s.outstanding + 1) * p.maxop > p.cfg.logsize
  }

  ghost predicate BeginStep(p: Params, s: State, s': State) {
    && s.phase != Recovering && !MustWait(p, s)
    && s' == s.(outstanding := s.outstanding + 1, ops := s.ops[s.nextOp := 0], nextOp := s.nextOp + 1)
  }

  ghost predicate SleepStep(p: Params, s: State, s': State) {
    s.phase != Recovering && MustWait(p, s) && s' == s.(asleep := s.asleep + 1)
  }

  /** The three panics of log_write. */
  predicate Panics(p: Params, s: State) {
    |s.lh| >= p.cfg.logsize || |s.lh| >= p.cfg.size - 1 || s.outstanding < 1
  }

  /** An operation may log a block that is listed already, or use up one of its MAXOPBLOCKS. */
  ghost predicate MayLog(p: Params, s: State, t: OpId, b: nat, data: Block) {
    && t in s.ops
    && (b in s.lh || s.ops[t] < p.maxop)
    && IsHome(p.cfg, s.disk, b)
    && |data| == p.cfg.words
  }

  ghost predicate LogWriteStep(p: Params, s: State, s': State, t: OpId, b: nat, data: Block) {
    && MayLog(p, s, t, b, data)
    && !Panics(p, s)
    && s' == s.(lh := Absorb(s.lh, b),
                cache := s.cache[b := data],
                ops := if b in s.lh then s.ops else s.ops[t := s.ops[t] + 1],
                pending := s.pending + [Rec(t, b, data)])
  }

  ghost predicate EndStep(p: Params, s: State, s': State, t: OpId) {
    && t in s.ops
    && !s.committing
    && 0 < s.outstanding
    && if s.outstanding == 1 then
         && TransactionOk(p.cfg, s.disk, s.lh, s.cache)
         && s' == s.(outstanding := 0, ops := s.ops - {t}, committing := true, phase := Committing,
                     base := s.disk, todo := CommitWrites(p.cfg, s.disk, s.lh, s.cache), done := 0)
       else
         s' == s.(outstanding := s.outstanding - 1, ops := s.ops - {t}, asleep := 0)
  }

  /** The next block write of the commit or recovery under way. */
  ghost predicate DiskWriteStep(p: Params, s: State, s': State) {
    && s.phase != Running
    && s.done < |s.todo|
    && var w := s.todo[s.done];
       var committed := s.phase == Committing && Committed(s.lh, s.done + 1);
       s' == s.(disk := s.disk[w.addr := w.data], done := s.done + 1,
                durable := if committed then s.durable + s.pending else s.durable,
                pending := if committed then [] else s.pending)
  }

  /** commit() or recover_from_log() returns. */
  ghost predicate FinishStep(p: Params, s: State, s': State) {
    && s.phase != Running
    && s.done == |s.todo|
    && s' == s.(phase := Running, committing := false, lh := [], cache := Unpinned(s.cache, s.lh), asleep := 0)
  }

  ghost predicate CrashStep(p: Params, s: State, s': State) {
    HeaderOk(p.cfg, s.disk) && s' == PowerOn(p, s.disk, s.nextOp, s.durable)
  }

  ghost predicate NextStep(p: Params, s: State, s': State, step: Step) {
    match step
    case Begin => BeginStep(p, s, s')
    case Sleep => SleepStep(p, s, s')
    case LogWrite(t, b, data) => LogWriteStep(p, s, s', t, b, data)
    case End(t) => EndStep(p, s, s', t)
    case DiskWrite => DiskWriteStep(p, s, s')
    case Finish => FinishStep(p, s, s')
    case Crash => CrashStep(p, s, s')
  }

  ghost predicate Next(p: Params, s: State, s': State) {
    exists step :: NextStep(p, s, s', step)
  }

  ghost predicate IsRun(p: Params, run: seq<State>) {
    && 0 < |run|
    && Init(p, run[0])
    && forall i, j :: 0 <= i && j == i + 1 && j < |run| ==> Next(p, run[i], run[j])
  }

  ghost predicate Reachable(p: Params, s: State) {
    exists run :: IsRun(p, run) && run[|run| - 1] == s
  }

  // ---------- Unused budget ----------

  ghost function Unused(maxop: nat, ops: map<OpId, nat>): int {
    if ops == map[] then 0
    else var t :| t in ops; (maxop - ops[t]) + Unused(maxop, ops - {t})
  }

  lemma {:induction false} UnusedWithout(maxop: nat, ops: map<OpId, nat>, t: OpId)
    requires t in ops
    ensures Unused(maxop, ops) == (maxop - ops[t]) + Unused(maxop, ops - {t})
    decreases ops
  {
    var u :| u in ops && Unused(maxop, ops) == (maxop - ops[u]) + Unused(maxop, ops - {u});
    if u != t {
      UnusedWithout(maxop, ops - {u}, t);
      UnusedWithout(maxop, ops - {t}, u);
      assert (ops - {u}) - {t} == (ops - {t}) - {u};
    }
  }

  lemma UnusedUpdate(maxop: nat, ops: map<OpId, nat>, t: OpId, k: nat)
    ensures Unused(maxop, ops[t := k]) == (maxop - k) + Unused(maxop, ops - {t})
  {
    UnusedWithout(maxop, ops[t := k], t);
    assert ops[t := k] - {t} == ops - {t};
  }

  lemma MulSucc(n: nat, k: nat)
    ensures (n + 1) * k == n * k + k
  {
  }

  lemma {:induction false} UnusedBounds(maxop: nat, ops: map<OpId, nat>, n: nat)
    requires n == |ops| && forall t | t in ops :: ops[t] <= maxop
    ensures 0 <= Unused(maxop, ops) <= n * maxop
  {
    hide Unused;
    UnusedNone(maxop);
    if n > 0 {
      var t :| t in ops.Keys;
      UnusedWithout(maxop, ops, t);
      assert (ops - {t}).Keys == ops.Keys - {t};
      UnusedBounds(maxop, ops - {t}, n - 1);
      MulSucc(n - 1, maxop);
    }
  }

  lemma UnusedNone(maxop: nat)
    ensures Unused(maxop, map[]) == 0
  {
  }

  lemma UnusedOfNewOp(maxop: nat, ops: map<OpId, nat>, t: OpId)
    requires t !in ops && forall u | u in ops :: ops[u] <= maxop
    ensures Unused(maxop, ops[t := 0]) <= (|ops| + 1) * maxop
    ensures |ops[t := 0]| == |ops| + 1
  {
    hide Unused;
    UnusedUpdate(maxop, ops, t, 0);
    assert ops - {t} == ops;
    UnusedBounds(maxop, ops, |ops|);
    MulSucc(|ops|, maxop);
    assert ops[t := 0].Keys == ops.Keys + {t};
  }

  // ---------- History ----------

  /** The home blocks after the given log_writes, one by one. */
  function Replay(home: Disk, recs: seq<Rec>): Disk {
    if recs == [] then home
    else var r := recs[|recs| - 1]; Replay(home, recs[..|recs| - 1])[r.block := r.data]
  }

  ghost predicate Wrote(recs: seq<Rec>, t: OpId) {
    exists r :: r in recs && r.op == t
  }

  // ---------- The invariant ----------

  /** What the file system sees: the durable state with the pending writes on top. */
  ghost predicate ViewOk(p: Params, s: State, home: Disk)
    requires HeaderOk(p.cfg, p.boot)
  {
    home + s.cache == Replay(Meaning(p.cfg, p.boot), s.durable + s.pending)
  }

  ghost predicate ListOk(p: Params, s: State) {
    && |s.lh| <= p.cfg.logsize
    && (|s.lh| == 0 || |s.lh| < p.cfg.size)
    && (forall i, j :: 0 <= i < j < |s.lh| ==> s.lh[i] != s.lh[j])
    && (forall b | b in s.lh :: b in s.cache)
    && (forall b | b in s.cache :: b in s.lh && IsHome(p.cfg, s.disk, b) && |s.cache[b]| == p.cfg.words)
  }

  ghost predicate BudgetOk(p: Params, s: State) {
    && s.outstanding == |s.ops|
    && (forall t | t in s.ops :: s.ops[t] <= p.maxop)
    && (s.ops != map[] ==> |s.lh| + Unused(p.maxop, s.ops) <= p.cfg.logsize)
    && (s.phase != Running ==> s.ops == map[])
    && s.committing == (s.phase == Committing)
  }

  /** No operation is split: one with durable writes is over and has no pending ones. */
  ghost predicate OpsWhole(s: State) {
    && (forall t | t in s.ops :: t < s.nextOp)
    && (forall r | r in s.pending :: r.op < s.nextOp)
    && (forall r | r in s.durable :: r.op < s.nextOp && r.op !in s.ops)
    && (forall r, q | r in s.durable && q in s.pending :: r.op != q.op)
  }

  ghost predicate DiskOk(p: Params, s: State)
    requires HeaderOk(p.cfg, p.boot)
  {
    var init := Meaning(p.cfg, p.boot);
    && HeaderOk(p.cfg, s.disk)
    && Meaning(p.cfg, s.disk) == Replay(init, s.durable)
    && match s.phase
       case Running =>
         HeadN(p.cfg, s.disk) == 0 && ViewOk(p, s, Home(p.cfg, s.disk))
       case Committing =>
         && TransactionOk(p.cfg, s.base, s.lh, s.cache)
         && s.todo == CommitWrites(p.cfg, s.base, s.lh, s.cache)
         && s.done <= |s.todo|
         && s.disk == Apply(s.base, s.todo[..s.done])
         && ViewOk(p, s, Home(p.cfg, s.base))
         && ((Committed(s.lh, s.done) || s.lh == []) ==> s.pending == [])
       case Recovering =>
         && HeaderOk(p.cfg, s.base)
         && s.todo == RecoverWrites(p.cfg, s.base)
         && s.done <= |s.todo|
         && s.disk == Apply(s.base, s.todo[..s.done])
         && s.lh == [] && s.cache == map[] && s.pending == []
  }

  ghost predicate Inv(p: Params, s: State) {
    && ValidParams(p)
    && ListOk(p, s)
    && BudgetOk(p, s)
    && OpsWhole(s)
    && DiskOk(p, s)
    && (s.lh == [] ==> s.pending == [])
  }

  // ---------- Every step keeps the invariant ----------

  lemma PowerOnInv(p: Params, disk: Disk, nextOp: OpId, durable: seq<Rec>)
    requires ValidParams(p) && HeaderOk(p.cfg, disk)
    requires Meaning(p.cfg, disk) == Replay(Meaning(p.cfg, p.boot), durable)
    requires forall r | r in durable :: r.op < nextOp
    ensures Inv(p, PowerOn(p, disk, nextOp, durable))
  {
    hide HeaderOk, Meaning, Unused;
    assert RecoverWrites(p.cfg, disk)[..0] == [];
    assert DiskOk(p, PowerOn(p, disk, nextOp, durable));
    hide RecoverWrites, DiskOk;
  }

  lemma BeginInv(p: Params, s: State, s': State)
    requires Inv(p, s) && BeginStep(p, s, s')
    ensures Inv(p, s')
  {
    hide ListOk, BudgetOk, OpsWhole, DiskOk, HeaderOk;
    BeginBudget(p, s, s');
    BeginFrame(p, s, s');
  }

  lemma BeginBudget(p: Params, s: State, s': State)
    requires BudgetOk(p, s) && OpsWhole(s) && BeginStep(p, s, s')
    ensures BudgetOk(p, s')
  {
    UnusedOfNewOp(p.maxop, s.ops, s.nextOp);
  }

  lemma BeginFrame(p: Params, s: State, s': State)
    requires Inv(p, s) && BeginStep(p, s, s')
    ensures ListOk(p, s') && OpsWhole(s') && DiskOk(p, s')
  {
    hide HeaderOk, TransactionOk, DiskOk, BudgetOk, IsHome;
    BeginDisk(p, s, s');
  }

  lemma BeginDisk(p: Params, s: State, s': State)
    requires Inv(p, s) && BeginStep(p, s, s')
    ensures DiskOk(p, s')
  {
    hide HeaderOk, TransactionOk, ListOk, BudgetOk, OpsWhole, Meaning, Replay, Home, HeadN;
  }

  lemma LogWriteInv(p: Params, s: State, s': State, t: OpId, b: nat, data: Block)
    requires Inv(p, s) && LogWriteStep(p, s, s', t, b, data)
    ensures Inv(p, s')
  {
    hide ListOk, BudgetOk, OpsWhole, DiskOk, HeaderOk;
    LogWriteView(p, s, s', t, b, data);
    LogWriteBudget(p, s, s', t, b, data);
  }

  lemma LogWriteBudget(p: Params, s: State, s': State, t: OpId, b: nat, data: Block)
    requires Inv(p, s) && LogWriteStep(p, s, s', t, b, data)
    ensures BudgetOk(p, s') && ListOk(p, s') && OpsWhole(s')
  {
    hide DiskOk, HeaderOk, Unused, IsHome;
    UnusedWithout(p.maxop, s.ops, t);
    UnusedUpdate(p.maxop, s.ops, t, s.ops[t] + 1);
    assert s.phase == Running;
    if b !in s.lh {
      assert s'.ops.Keys == s.ops.Keys;
    }
  }

  lemma LogWriteView(p: Params, s: State, s': State, t: OpId, b: nat, data: Block)
    requires Inv(p, s) && LogWriteStep(p, s, s', t, b, data)
    ensures DiskOk(p, s')
  {
    hide HeaderOk, TransactionOk, ListOk, OpsWhole;
    assert s.phase == Running;
    ReplaySnoc(Meaning(p.cfg, p.boot), s.durable, s.pending, Rec(t, b, data));
    MergeUpdate(Home(p.cfg, s.disk), s.cache, b, data);
  }

  lemma ReplaySnoc(home: Disk, durable: seq<Rec>, pending: seq<Rec>, r: Rec)
    ensures Replay(home, durable + (pending + [r])) == Replay(home, durable + pending)[r.block := r.data]
  {
    var recs := durable + (pending + [r]);
    assert recs[..|recs| - 1] == durable + pending;
  }

  lemma EndInv(p: Params, s: State, s': State, t: OpId)
    requires Inv(p, s) && EndStep(p, s, s', t)
    ensures Inv(p, s')
  {
    hide ListOk, BudgetOk, OpsWhole, DiskOk, HeaderOk, TransactionOk;
    EndBudget(p, s, s', t);
    EndFrame(p, s, s', t);
    EndDisk(p, s, s', t);
  }

  lemma EndBudget(p: Params, s: State, s': State, t: OpId)
    requires Inv(p, s) && EndStep(p, s, s', t)
    ensures BudgetOk(p, s')
  {
    hide ListOk, OpsWhole, DiskOk, HeaderOk, TransactionOk, Unused;
    UnusedWithout(p.maxop, s.ops, t);
    UnusedBounds(p.maxop, s.ops - {t}, |s.ops - {t}|);
    assert (s.ops - {t}).Keys == s.ops.Keys - {t};
    assert |s.ops - {t}| == |s.ops| - 1;
  }

  lemma EndFrame(p: Params, s: State, s': State, t: OpId)
    requires Inv(p, s) && EndStep(p, s, s', t)
    ensures ListOk(p, s') && OpsWhole(s')
  {
    hide BudgetOk, DiskOk, HeaderOk, TransactionOk, IsHome;
  }

  lemma EndDisk(p: Params, s: State, s': State, t: OpId)
    requires Inv(p, s) && EndStep(p, s, s', t)
    ensures DiskOk(p, s')
  {
    hide ListOk, OpsWhole, HeaderOk, TransactionOk, Meaning, Replay, Home, HeadN, Unused;
    if s.outstanding == 1 {
      assert s'.todo[..0] == [];
    }
  }

  lemma DiskWriteInv(p: Params, s: State, s': State)
    requires Inv(p, s) && DiskWriteStep(p, s, s')
    ensures Inv(p, s')
  {
    hide Inv, DiskWriteStep;
    WriteIsNext(p, s, s');
    if s.phase == Committing {
      CommitWriteDisk(p, s, s');
    } else {
      RecoverWriteDisk(p, s, s');
    }
  }

  lemma WriteIsNext(p: Params, s: State, s': State)
    requires Inv(p, s) && DiskWriteStep(p, s, s')
    ensures s.phase == Committing || s.phase == Recovering
    ensures s'.done <= |s.todo| && s'.disk == Apply(s.base, s.todo[..s'.done])
  {
    hide ListOk, OpsWhole, BudgetOk, HeaderOk, TransactionOk, Replay, Home, Meaning;
    ApplySnoc(s.base, s.todo, s.done);
  }

  lemma RecoverWriteDisk(p: Params, s: State, s': State)
    requires Inv(p, s) && DiskWriteStep(p, s, s') && s.phase == Recovering
    requires s'.disk == Apply(s.base, s.todo[..s'.done])
    ensures Inv(p, s')
  {
    hide ListOk, OpsWhole, HeaderOk, TransactionOk;
    RecoveryCut(p.cfg, s.base, s.done);
    RecoveryCut(p.cfg, s.base, s'.done);
    SameKeys(p, s, s');
  }

  lemma SameKeys(p: Params, s: State, s': State)
    requires Inv(p, s) && DiskWriteStep(p, s, s') && s.phase == Recovering
    ensures ListOk(p, s') && OpsWhole(s')
  {
  }

  lemma CommitWriteDisk(p: Params, s: State, s': State)
    requires Inv(p, s) && DiskWriteStep(p, s, s') && s.phase == Committing
    requires s'.disk == Apply(s.base, s.todo[..s'.done])
    ensures Inv(p, s')
  {
    hide HeaderOk, TransactionOk, BudgetOk, ListOk, OpsWhole;
    CommitCut(p.cfg, s.base, s.lh, s.cache, s.done);
    CommitCut(p.cfg, s.base, s.lh, s.cache, s'.done);
    CommitWriteFrame(p, s, s');
    CacheIsUpdates(p, s);
    assert s'.durable + s'.pending == s.durable + s.pending;
    if Committed(s.lh, s'.done) && !Committed(s.lh, s.done) {
      assert s'.durable == s.durable + s.pending;
    }
  }

  lemma CommitWriteFrame(p: Params, s: State, s': State)
    requires Inv(p, s) && DiskWriteStep(p, s, s') && s.phase == Committing
    ensures ListOk(p, s') && OpsWhole(s') && BudgetOk(p, s')
  {
    hide HeaderOk, TransactionOk, DiskOk;
    assert s.ops == map[];
  }

  lemma CacheIsUpdates(p: Params, s: State)
    requires ListOk(p, s)
    ensures Updates(s.lh, s.cache) == s.cache
  {
  }

  lemma FinishInv(p: Params, s: State, s': State)
    requires Inv(p, s) && FinishStep(p, s, s')
    ensures Inv(p, s')
  {
    hide HeaderOk, TransactionOk, OpsWhole;
    assert s'.cache == map[] by { hide DiskOk; }
    assert OpsWhole(s') by { FinishFrame(p, s, s'); }
    FinishDisk(p, s);
    assert s.durable + s.pending == s.durable;
    assert Home(p.cfg, s'.disk) + map[] == Home(p.cfg, s'.disk);
  }

  lemma FinishFrame(p: Params, s: State, s': State)
    requires OpsWhole(s) && FinishStep(p, s, s')
    ensures OpsWhole(s')
  {
  }

  /** A commit or recovery that has issued all its writes left the durable state in the home blocks. */
  lemma FinishDisk(p: Params, s: State)
    requires Inv(p, s) && s.phase != Running && s.done == |s.todo|
    ensures HeadN(p.cfg, s.disk) == 0 && s.pending == []
    ensures Home(p.cfg, s.disk) == Replay(Meaning(p.cfg, p.boot), s.durable)
  {
    hide HeaderOk, TransactionOk, ListOk, OpsWhole;
    assert s.todo[..s.done] == s.todo;
    if s.phase == Committing {
      CommitCompletes(p.cfg, s.base, s.lh, s.cache);
      CacheIsUpdates(p, s);
      assert s.durable + s.pending == s.durable;
    } else {
      RecoverCompletes(p.cfg, s.base);
    }
  }

  lemma NextInv(p: Params, s: State, s': State)
    requires Inv(p, s) && Next(p, s, s')
    ensures Inv(p, s')
  {
    hide Inv, BeginStep, SleepStep, LogWriteStep, EndStep, DiskWriteStep, FinishStep, CrashStep;
    var step :| NextStep(p, s, s', step);
    match step
    case Begin => BeginInv(p, s, s');
    case Sleep => SleepInv(p, s, s');
    case LogWrite(t, b, data) => LogWriteInv(p, s, s', t, b, data);
    case End(t) => EndInv(p, s, s', t);
    case DiskWrite => DiskWriteInv(p, s, s');
    case Finish => FinishInv(p, s, s');
    case Crash => CrashInv(p, s, s');
  }

  lemma SleepInv(p: Params, s: State, s': State)
    requires Inv(p, s) && SleepStep(p, s, s')
    ensures Inv(p, s')
  {
    hide ListOk, BudgetOk, OpsWhole, DiskOk, HeaderOk;
    SleepFrame(p, s, s');
    SleepDisk(p, s, s');
  }

  lemma SleepFrame(p: Params, s: State, s': State)
    requires Inv(p, s) && s' == s.(asleep := s.asleep + 1)
    ensures ListOk(p, s') && BudgetOk(p, s') && OpsWhole(s')
  {
    hide DiskOk, HeaderOk, IsHome, Unused;
  }

  lemma SleepDisk(p: Params, s: State, s': State)
    requires Inv(p, s) && s' == s.(asleep := s.asleep + 1)
    ensures DiskOk(p, s')
  {
    hide ListOk, BudgetOk, OpsWhole, HeaderOk, TransactionOk, Meaning, Replay, Home, HeadN;
  }

  lemma CrashInv(p: Params, s: State, s': State)
    requires Inv(p, s) && CrashStep(p, s, s')
    ensures Inv(p, s')
  {
    hide HeaderOk, Meaning, Replay, ListOk, BudgetOk, TransactionOk;
    PowerOnInv(p, s.disk, s.nextOp, s.durable);
  }

  lemma {:induction false} RunInv(p: Params, run: seq<State>, i: nat)
    requires IsRun(p, run) && i < |run|
    ensures Inv(p, run[i])
  {
    if i == 0 {
      PowerOnInv(p, p.boot, 0, []);
    } else {
      RunInv(p, run, i - 1);
      NextInv(p, run[i - 1], run[i]);
    }
  }

  lemma ReachableInv(p: Params, s: State)
    requires Reachable(p, s)
    ensures Inv(p, s)
  {
    var run :| IsRun(p, run) && run[|run| - 1] == s;
    RunInv(p, run, |run| - 1);
  }

  // ---------- Main results ----------

  /** Group commit: no operation runs during a commit, and the log cannot overflow. */
  lemma GroupCommitSafety(p: Params, s: State)
    requires Reachable(p, s)
    ensures s.committing ==> s.outstanding == 0 && forall t, b, data :: !MayLog(p, s, t, b, data)
    ensures forall i, j :: 0 <= i < j < |s.lh| ==> s.lh[i] != s.lh[j]
    ensures s.outstanding == |s.ops|
    ensures |s.lh| + Unused(p.maxop, s.ops) <= p.cfg.logsize
  {
    ReachableInv(p, s);
  }

  /** end_op never panics, and its commit starts from an empty on-disk log. */
  lemma EndIsEnabled(p: Params, s: State, t: OpId)
    requires Reachable(p, s) && t in s.ops
    ensures exists s' :: EndStep(p, s, s', t)
    ensures !s.committing
  {
    ReachableInv(p, s);
    assert s.phase == Running;
    hide OpsWhole;
    assert 0 < |s.ops| by { assert s.ops.Keys != {}; }
    if s.outstanding == 1 {
      assert TransactionOk(p.cfg, s.disk, s.lh, s.cache);
      var s' := s.(outstanding := 0, ops := s.ops - {t}, committing := true, phase := Committing,
                   base := s.disk, todo := CommitWrites(p.cfg, s.disk, s.lh, s.cache), done := 0);
      assert EndStep(p, s, s', t);
    } else {
      var s' := s.(outstanding := s.outstanding - 1, ops := s.ops - {t}, asleep := 0);
      assert EndStep(p, s, s', t);
    }
  }

  /**
   Crash in any reachable state and recover: the home blocks are the boot state
   with exactly the durable log_writes replayed on it, and no operation is split
   between the durable writes and the ones that were lost.
   */
  lemma CrashRecoversWholeOps(p: Params, s: State)
    requires Reachable(p, s)
    ensures HeaderOk(p.cfg, p.boot) && HeaderOk(p.cfg, s.disk)
    ensures Home(p.cfg, Recover(p.cfg, s.disk)) == Replay(Meaning(p.cfg, p.boot), s.durable)
    ensures forall t | Wrote(s.durable, t) :: t !in s.ops && !Wrote(s.pending, t)
  {
    ReachableInv(p, s);
    RecoverCompletes(p.cfg, s.disk);
  }

  /** While operations run, readers see the durable writes and the pending ones, in order. */
  lemma RunningView(p: Params, s: State)
    requires Reachable(p, s) && s.phase == Running
    ensures HeaderOk(p.cfg, p.boot)
    ensures Home(p.cfg, s.disk) + s.cache == Replay(Meaning(p.cfg, p.boot), s.durable + s.pending)
  {
    ReachableInv(p, s);
  }

  /** Nothing durable is ever lost, and writes become durable only all together. */
  lemma DurableGrows(p: Params, s: State, s': State)
    requires Next(p, s, s')
    ensures s'.durable == s.durable || (s'.durable == s.durable + s.pending && s'.pending == [])
  {
    var step :| NextStep(p, s, s', step);
    match step
    case Begin =>
    case Sleep =>
    case LogWrite(t, b, data) =>
    case End(t) =>
    case DiskWrite =>
    case Finish =>
    case Crash =>
  }

  // ---------- How full does the log get? ----------

  /**
   The most blocks the log ever lists.  begin_op admits no operation when LOGSIZE
   is less than MAXOPBLOCKS, and one at a time when it is less than twice that.
   */
  function MostLogged(p: Params): nat {
    if p.maxop == 0 || p.cfg.logsize < p.maxop then 0
    else if p.cfg.logsize < 2 * p.maxop then p.maxop
    else p.cfg.logsize
  }

  /** An operation that has the log to itself has listed every block in it. */
  ghost predicate FillOk(p: Params, s: State) {
    && |s.lh| <= MostLogged(p)
    && (s.phase == Running && s.ops == map[] ==> s.lh == [])
    && (p.cfg.logsize < p.maxop ==> s.ops == map[])
    && (p.cfg.logsize < 2 * p.maxop ==> |s.ops| <= 1 && forall t | t in s.ops :: |s.lh| <= s.ops[t])
    && (0 < s.asleep ==> MustWait(p, s))
  }

  lemma BeginFill(p: Params, s: State, s': State)
    requires Inv(p, s) && BeginStep(p, s, s') && FillOk(p, s)
    ensures FillOk(p, s')
  {
    hide ListOk, OpsWhole, DiskOk, HeaderOk, Unused;
    assert s'.ops.Keys == s.ops.Keys + {s.nextOp};
    MulSucc(s.outstanding + 1, p.maxop);
    if p.cfg.logsize < 2 * p.maxop {
      if s.outstanding > 0 {
        Arithmetic.MulMonotone(2, s.outstanding + 1, p.maxop);
      }
      assert s.ops == map[];
    }
  }

  lemma LogWriteFill(p: Params, s: State, s': State, t: OpId, b: nat, data: Block)
    requires Inv(p, s) && LogWriteStep(p, s, s', t, b, data) && FillOk(p, s)
    ensures FillOk(p, s')
  {
    hide OpsWhole, DiskOk, HeaderOk, Unused, ListOk;
    assert s'.ops.Keys == s.ops.Keys;
    OneElement(s.ops, t);
  }

  lemma OneElement(ops: map<OpId, nat>, t: OpId)
    requires t in ops
    ensures |ops| <= 1 ==> ops.Keys == {t}
  {
    assert {t} <= ops.Keys;
    assert ops.Keys - {t} == {} || 1 <= |ops.Keys - {t}|;
    assert |ops.Keys - {t}| == |ops.Keys| - 1;
  }

  lemma EndFill(p: Params, s: State, s': State, t: OpId)
    requires Inv(p, s) && EndStep(p, s, s', t) && FillOk(p, s)
    ensures FillOk(p, s')
  {
    hide OpsWhole, DiskOk, HeaderOk, TransactionOk, Unused, ListOk;
    assert (s.ops - {t}).Keys == s.ops.Keys - {t};
    assert |s.ops - {t}| == |s.ops| - 1;
  }

  lemma NextFill(p: Params, s: State, s': State)
    requires Inv(p, s) && Next(p, s, s') && FillOk(p, s)
    ensures FillOk(p, s')
  {
    hide Inv, BeginStep, LogWriteStep, EndStep, DiskWriteStep;
    var step :| NextStep(p, s, s', step);
    match step
    case Begin => BeginFill(p, s, s');
    case Sleep =>
    case LogWrite(t, b, data) => LogWriteFill(p, s, s', t, b, data);
    case End(t) => EndFill(p, s, s', t);
    case DiskWrite => DiskWriteFill(p, s, s');
    case Finish => NoOps(p, s);
    case Crash =>
  }

  lemma DiskWriteFill(p: Params, s: State, s': State)
    requires FillOk(p, s) && DiskWriteStep(p, s, s')
    ensures FillOk(p, s')
  {
  }

  lemma NoOps(p: Params, s: State)
    requires Inv(p, s) && s.phase != Running
    ensures s.ops == map[]
  {
    hide ListOk, OpsWhole, DiskOk, HeaderOk;
  }

  lemma {:induction false} RunFill(p: Params, run: seq<State>, i: nat)
    requires IsRun(p, run) && i < |run|
    ensures FillOk(p, run[i])
  {
    hide Inv, FillOk, Next;
    if i == 0 {
      BootFill(p, run[0]);
    } else {
      RunFill(p, run, i - 1);
      RunInv(p, run, i - 1);
      NextFill(p, run[i - 1], run[i]);
    }
  }

  lemma BootFill(p: Params, s: State)
    requires Init(p, s)
    ensures FillOk(p, s)
  {
  }

  lemma ReachableFill(p: Params, s: State)
    requires Reachable(p, s)
    ensures FillOk(p, s)
  {
    var run :| IsRun(p, run) && run[|run| - 1] == s;
    RunFill(p, run, |run| - 1);
  }

  // ---------- Every fill is reached ----------

  lemma Extend(p: Params, s: State, s': State, step: Step)
    requires Reachable(p, s) && NextStep(p, s, s', step)
    ensures Reachable(p, s')
  {
    var run :| IsRun(p, run) && run[|run| - 1] == s;
    assert Next(p, s, s');
    var more := run + [s'];
    assert IsRun(p, more) by {
      forall i, j | 0 <= i && j == i + 1 && j < |more| ensures Next(p, more[i], more[j]) {
        if j < |run| {
          assert Next(p, run[i], run[j]);
        }
      }
    }
  }

  lemma {:induction false} ApplyKeys(d: Disk, ws: seq<Write>)
    ensures d.Keys <= Apply(d, ws).Keys
  {
    if ws != [] {
      ApplyKeys(d, ws[..|ws| - 1]);
    }
  }

  /** The machine while it boots: recovery has issued k writes. */
  lemma {:induction false} ReachBooting(p: Params, k: nat) returns (s: State)
    requires ValidParams(p) && k <= |RecoverWrites(p.cfg, p.boot)|
    ensures Reachable(p, s) && s.done == k
    ensures s == PowerOn(p, p.boot, 0, []).(disk := s.disk, done := k)
    ensures p.boot.Keys <= s.disk.Keys
  {
    var s0 := PowerOn(p, p.boot, 0, []);
    if k == 0 {
      s := s0;
      assert IsRun(p, [s0]);
    } else {
      var t := ReachBooting(p, k - 1);
      var w := t.todo[t.done];
      s := t.(disk := t.disk[w.addr := w.data], done := k);
      assert NextStep(p, t, s, DiskWrite);
      Extend(p, t, s, DiskWrite);
    }
  }

  /** Recovery is over and one operation has begun. */
  lemma ReachFirst(p: Params) returns (s: State)
    requires ValidParams(p) && p.maxop <= p.cfg.logsize
    ensures Reachable(p, s) && p.boot.Keys <= s.disk.Keys && s.phase == Running && !s.committing
    ensures s.lh == [] && s.outstanding == 1 && s.ops == map[0 := 0] && s.nextOp == 1
  {
    hide Reachable, HeaderOk;
    var t := ReachBooting(p, |RecoverWrites(p.cfg, p.boot)|);
    var r := t.(phase := Running, committing := false, lh := [], cache := Unpinned(t.cache, t.lh), asleep := 0);
    assert NextStep(p, t, r, Finish);
    Extend(p, t, r, Finish);
    s := r.(outstanding := 1, ops := r.ops[r.nextOp := 0], nextOp := r.nextOp + 1);
    assert NextStep(p, r, s, Begin);
    Extend(p, r, s, Begin);
  }

  /** The state holds the first n of the home blocks from lo on, logged by the operations given. */
  ghost predicate Holds(p: Params, s: State, lo: nat, n: nat, ops: map<OpId, nat>) {
    && Reachable(p, s) && p.boot.Keys <= s.disk.Keys && s.phase == Running && !s.committing
    && s.lh == seq(n, i => lo + i) && s.outstanding == |ops| && s.ops == ops && 1 <= s.nextOp
    && forall t | t in ops :: t < s.nextOp
  }

  ghost predicate HomeFrom(p: Params, lo: nat, n: nat) {
    forall b :: lo <= b < lo + n ==> IsHome(p.cfg, p.boot, b)
  }

  lemma HomeFewer(p: Params, lo: nat, m: nat, n: nat)
    requires HomeFrom(p, lo, n) && m <= n
    ensures HomeFrom(p, lo, m)
  {
  }

  /** Operation t logs the next block. */
  lemma LogNext(p: Params, s: State, lo: nat, n: nat, ops: map<OpId, nat>, t: OpId) returns (s': State)
    requires Holds(p, s, lo, n, ops) && t in ops && ops[t] < p.maxop
    requires n < p.cfg.logsize && n + 1 < p.cfg.size && HomeFrom(p, lo, n + 1)
    ensures Holds(p, s', lo, n + 1, ops[t := ops[t] + 1]) && s'.nextOp == s.nextOp
  {
    hide Reachable, HeaderOk;
    var b, data := lo + n, seq(p.cfg.words, _ => 0);
    assert b !in s.lh && IsHome(p.cfg, p.boot, b);
    s' := s.(lh := Absorb(s.lh, b), cache := s.cache[b := data],
             ops := s.ops[t := s.ops[t] + 1], pending := s.pending + [Rec(t, b, data)]);
    assert s.outstanding >= 1 by { assert t in ops.Keys; }
    assert NextStep(p, s, s', LogWrite(t, b, data));
    Extend(p, s, s', LogWrite(t, b, data));
    assert ops[t := ops[t] + 1].Keys == ops.Keys;
    assert s'.lh == seq(n + 1, i => lo + i);
  }

  /** A second operation begins beside operation 0 and logs the next j blocks. */
  lemma {:induction false} ReachPair(p: Params, s: State, lo: nat, n: nat, j: nat) returns (s': State)
    requires Holds(p, s, lo, n, map[0 := 0]) && n + 2 * p.maxop <= p.cfg.logsize && j <= p.maxop
    requires n + j < p.cfg.size && HomeFrom(p, lo, n + j)
    ensures Holds(p, s', lo, n + j, map[0 := 0, s.nextOp := j])
  {
    hide Holds, HomeFrom;
    if j == 0 {
      s' := BeginSecond(p, s, lo, n);
    } else {
      HomeFewer(p, lo, n + j - 1, n + j);
      var r := ReachPair(p, s, lo, n, j - 1);
      var ops := map[0 := 0, s.nextOp := j - 1];
      s' := LogNext(p, r, lo, n + j - 1, ops, s.nextOp);
      assert ops[s.nextOp := j] == map[0 := 0, s.nextOp := j];
    }
  }

  lemma BeginSecond(p: Params, s: State, lo: nat, n: nat) returns (s': State)
    requires Holds(p, s, lo, n, map[0 := 0]) && n + 2 * p.maxop <= p.cfg.logsize
    ensures Holds(p, s', lo, n, map[0 := 0, s.nextOp := 0])
  {
    hide Reachable, HeaderOk;
    var ops := map[0 := 0, s.nextOp := 0];
    s' := s.(outstanding := s.outstanding + 1, ops := s.ops[s.nextOp := 0], nextOp := s.nextOp + 1);
    assert map[0 := 0].Keys == {0} && ops.Keys == {0, s.nextOp};
    assert NextStep(p, s, s', Begin);
    Extend(p, s, s', Begin);
  }

  lemma EndSecond(p: Params, s: State, lo: nat, n: nat, u: OpId, j: nat) returns (s': State)
    requires Holds(p, s, lo, n, map[0 := 0, u := j]) && u != 0
    ensures Holds(p, s', lo, n, map[0 := 0])
  {
    hide Reachable, HeaderOk;
    var ops := map[0 := 0, u := j];
    s' := s.(outstanding := s.outstanding - 1, ops := s.ops - {u}, asleep := 0);
    assert ops.Keys == {0, u} && s.outstanding == 2 && ops - {u} == map[0 := 0] && map[0 := 0].Keys == {0};
    assert NextStep(p, s, s', End(u));
    Extend(p, s, s', End(u));
  }

  /** The log holds n blocks, a of them logged by operation 0, and the rest by operations that ended beside it. */
  lemma {:induction false} ReachFilled(p: Params, lo: nat, n: nat, a: nat) returns (s: State)
    requires ValidParams(p) && 0 < p.maxop <= p.cfg.logsize && n < p.cfg.size && HomeFrom(p, lo, n)
    requires a <= n && a <= p.maxop && n - a <= p.cfg.logsize - p.maxop
    requires a < n ==> 2 * p.maxop <= p.cfg.logsize
    ensures Holds(p, s, lo, n, map[0 := a])
    decreases n, a
  {
    hide Holds, HomeFrom, HeaderOk;
    if n == 0 {
      s := ReachEmpty(p, lo);
    } else if a > 0 {
      HomeFewer(p, lo, n - 1, n);
      var r := ReachFilled(p, lo, n - 1, a - 1);
      s := LogNext(p, r, lo, n - 1, map[0 := a - 1], 0);
      assert map[0 := a - 1][0 := a] == map[0 := a];
    } else {
      var j := if n < p.maxop then n else p.maxop;
      HomeFewer(p, lo, n - j, n);
      var r := ReachFilled(p, lo, n - j, 0);
      var q := ReachPair(p, r, lo, n - j, j);
      HasBegun(p, r, lo, n - j);
      s := EndSecond(p, q, lo, n, r.nextOp, j);
    }
  }

  lemma HasBegun(p: Params, s: State, lo: nat, n: nat)
    requires Holds(p, s, lo, n, map[0 := 0])
    ensures s.nextOp != 0
  {
  }

  lemma ReachEmpty(p: Params, lo: nat) returns (s: State)
    requires ValidParams(p) && p.maxop <= p.cfg.logsize
    ensures Holds(p, s, lo, 0, map[0 := 0])
  {
    s := ReachFirst(p);
    assert map[0 := 0].Keys == {0};
  }

  /**
   Every fill up to MostLogged is reached with an operation outstanding, and with
   budget left if more could be logged.
   */
  lemma ReachFill(p: Params, lo: nat, n: nat) returns (s: State)
    requires ValidParams(p) && 0 < n <= MostLogged(p) && n < p.cfg.size && HomeFrom(p, lo, n)
    ensures Reachable(p, s) && 0 in s.ops && |s.lh| == n && (n < MostLogged(p) ==> s.ops[0] < p.maxop)
    ensures lo in s.lh && IsHome(p.cfg, s.disk, lo)
  {
    var spare := p.cfg.logsize - p.maxop;
    var a := if p.cfg.logsize < 2 * p.maxop then n else if n <= spare then 0 else n - spare;
    s := ReachFilled(p, lo, n, a);
    assert s.lh[0] == lo && IsHome(p.cfg, p.boot, lo);
  }

  // ---------- Who wakes begin_op? ----------

  /**
   No wakeup is lost: while a process sleeps in begin_op, what it waits for still
   holds, and someone will wake it, the commit in progress or an outstanding
   operation; unless LOGSIZE is too small for any operation.
   */
  lemma SleepersAreWoken(p: Params, s: State)
    requires Reachable(p, s) && 0 < s.asleep
    ensures s.committing || p.cfg.logsize < |s.lh| + (s.outstanding + 1) * p.maxop
    ensures p.maxop <= p.cfg.logsize ==> s.committing || s.ops != map[]
  {
    hide Reachable, ListOk, BudgetOk, OpsWhole, DiskOk, HeaderOk, FillOk;
    ReachableInv(p, s);
    ReachableFill(p, s);
    ReachablePhase(p, s);
    WaitsForSomeone(p, s);
  }

  lemma WaitsForSomeone(p: Params, s: State)
    requires BudgetOk(p, s) && FillOk(p, s) && s.phase != Recovering && 0 < s.asleep
    ensures MustWait(p, s) && (p.maxop <= p.cfg.logsize ==> s.committing || s.ops != map[])
  {
    hide Unused;
  }

  /** begin_op runs only when recovery is over, and so does sleeping in it. */
  lemma ReachablePhase(p: Params, s: State)
    requires Reachable(p, s) && 0 < s.asleep
    ensures s.phase != Recovering
  {
    var run :| IsRun(p, run) && run[|run| - 1] == s;
    RunPhase(p, run, |run| - 1);
  }

  lemma {:induction false} RunPhase(p: Params, run: seq<State>, i: nat)
    requires IsRun(p, run) && i < |run|
    ensures run[i].phase == Recovering ==> run[i].asleep == 0
  {
    hide Next;
    if 0 < i {
      RunPhase(p, run, i - 1);
      NextPhase(p, run[i - 1], run[i]);
    }
  }

  lemma NextPhase(p: Params, s: State, s': State)
    requires Next(p, s, s') && (s.phase == Recovering ==> s.asleep == 0)
    ensures s'.phase == Recovering ==> s'.asleep == 0
  {
    hide TransactionOk, HeaderOk;
    var step :| NextStep(p, s, s', step);
  }

  // ---------- When can log_write panic? ----------

  /** log_write panics exactly when the log is full: LOGSIZE blocks, or one less than the log has. */
  lemma PanicsWhenFull(p: Params, s: State, t: OpId)
    requires Reachable(p, s) && t in s.ops
    ensures Panics(p, s) <==> |s.lh| == if p.cfg.logsize < p.cfg.size then p.cfg.logsize else p.cfg.size - 1
  {
    ReachableInv(p, s);
    hide DiskOk, OpsWhole, HeaderOk;
    assert 1 <= |s.ops| by { assert t in s.ops.Keys; }
  }

  /** log_write does not panic for an operation that has part of its budget left. */
  ghost predicate NeverPanics(p: Params) {
    forall s, t :: Reachable(p, s) && t in s.ops && s.ops[t] < p.maxop ==> !Panics(p, s)
  }

  lemma BudgetLeft(p: Params, s: State, t: OpId)
    requires BudgetOk(p, s) && FillOk(p, s) && t in s.ops && s.ops[t] < p.maxop
    ensures |s.lh| < p.cfg.logsize && |s.lh| < MostLogged(p)
  {
    hide Unused;
    UnusedWithout(p.maxop, s.ops, t);
    UnusedBounds(p.maxop, s.ops - {t}, |s.ops - {t}|);
  }

  /**
   Operations within their budgets never meet a panic if and only if the log has
   more blocks than it ever lists.  With LOGSIZE at least twice MAXOPBLOCKS that
   means more than LOGSIZE; mkfs makes them equal.
   */
  lemma NeverPanicsIff(p: Params, lo: nat)
    requires ValidParams(p) && HomeFrom(p, lo, MostLogged(p))
    ensures NeverPanics(p) <==> MostLogged(p) < p.cfg.size
  {
    hide Reachable, HeaderOk, BudgetOk, FillOk, ListOk, OpsWhole, DiskOk;
    if MostLogged(p) < p.cfg.size {
      forall s, t | Reachable(p, s) && t in s.ops && s.ops[t] < p.maxop ensures !Panics(p, s) {
        ReachableInv(p, s);
        ReachableFill(p, s);
        BudgetLeft(p, s, t);
        PanicsWhenFull(p, s, t);
      }
    } else {
      assert 0 < p.cfg.size by { LogNotEmpty(p); }
      var s := ReachBudget(p, lo, p.cfg.size - 1);
      assert Panics(p, s);
    }
  }

  lemma LogNotEmpty(p: Params)
    requires ValidParams(p)
    ensures 0 < p.cfg.size
  {
  }

  lemma ReachBudget(p: Params, lo: nat, n: nat) returns (s: State)
    requires ValidParams(p) && n < MostLogged(p) && n < p.cfg.size && HomeFrom(p, lo, n)
    ensures Reachable(p, s) && 0 in s.ops && |s.lh| == n && s.ops[0] < p.maxop
  {
    hide Reachable, HeaderOk;
    if n == 0 {
      s := ReachFirst(p);
    } else {
      s := ReachFill(p, lo, n);
    }
  }

  /** log_write does not panic for a block that the log lists already. */
  ghost predicate AbsorbedNeverPanics(p: Params) {
    forall s, t, b, data :: Reachable(p, s) && MayLog(p, s, t, b, data) && b in s.lh ==> !Panics(p, s)
  }

  /**
   The first guard, n >= LOGSIZE, is tested before absorption, so a write that
   adds nothing can panic: exactly when some run fills the log to one of the two
   limits.  Only a LOGSIZE strictly between MAXOPBLOCKS and twice that, with a log
   to match, keeps clear of both; otherwise the log must stay empty.
   */
  lemma AbsorbedNeverPanicsIff(p: Params, lo: nat)
    requires ValidParams(p) && HomeFrom(p, lo, MostLogged(p))
    ensures AbsorbedNeverPanics(p) <==>
              || p.maxop == 0 || p.cfg.logsize < p.maxop || p.cfg.size == 1
              || (p.maxop < p.cfg.logsize < 2 * p.maxop && p.maxop + 1 < p.cfg.size)
  {
    hide Reachable, HeaderOk, BudgetOk, FillOk, OpsWhole, DiskOk;
    var limit := if p.cfg.logsize < p.cfg.size then p.cfg.logsize else p.cfg.size - 1;
    LogNotEmpty(p);
    if 0 < limit <= MostLogged(p) {
      var s := ReachFill(p, lo, limit);
      PanicsWhenFull(p, s, 0);
      assert MayLog(p, s, 0, lo, seq(p.cfg.words, _ => 0));
    } else {
      forall s, t, b, data | Reachable(p, s) && MayLog(p, s, t, b, data) && b in s.lh ensures !Panics(p, s) {
        ReachableMost(p, s);
        PanicsWhenFull(p, s, t);
      }
    }
  }

  /** The log never lists more than MostLogged blocks. */
  lemma ReachableMost(p: Params, s: State)
    requires Reachable(p, s)
    ensures |s.lh| <= MostLogged(p)
  {
    ReachableFill(p, s);
  }
}
