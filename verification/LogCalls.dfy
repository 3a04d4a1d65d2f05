/**
 What begin_op, log_write, end_op, commit and a crash do in every reachable
 state of the logging system: when each can happen, and all that it changes.
 */
module LogCalls {
  import opened RedoLog
  import opened LogObject
  import opened GroupCommit
  import Arithmetic

  /** begin_op goes on if there is no commit and room for one more operation, and sleeps if not. */
  lemma BeginsIff(p: Params, s: State)
    requires Reachable(p, s) && s.phase != Recovering
    ensures (exists s' :: NextStep(p, s, s', Begin)) <==>
            !s.committing && |s.lh| + (s.outstanding + 1) * p.maxop <= p.cfg.logsize
    ensures (exists s' :: NextStep(p, s, s', Sleep)) <==>
            s.committing || p.cfg.logsize < |s.lh| + (s.outstanding + 1) * p.maxop
  {
    hide Reachable;
    if !s.committing && |s.lh| + (s.outstanding + 1) * p.maxop <= p.cfg.logsize {
      var s' := s.(outstanding := s.outstanding + 1, ops := s.ops[s.nextOp := 0], nextOp := s.nextOp + 1);
      assert NextStep(p, s, s', Begin);
    } else {
      var s' := s.(asleep := s.asleep + 1);
      assert NextStep(p, s, s', Sleep);
    }
  }

  /** begin_op adds one operation that has logged nothing, and changes nothing else. */
  lemma BeginAdds(p: Params, s: State, s': State)
    requires Reachable(p, s) && NextStep(p, s, s', Begin)
    ensures s'.outstanding == s.outstanding + 1 && s'.ops.Keys - s.ops.Keys == {s.nextOp} && s'.ops[s.nextOp] == 0
    ensures forall t | t in s.ops :: t in s'.ops && s'.ops[t] == s.ops[t]
    ensures s'.phase == s.phase == Running && s'.lh == s.lh && s'.cache == s.cache && s'.disk == s.disk
    ensures s'.pending == s.pending && s'.durable == s.durable && s'.asleep == s.asleep
  {
    hide Reachable, ListOk, DiskOk, HeaderOk, Unused;
    ReachableInv(p, s);
  }

  /**
   log_write by an operation that may log goes on unless the log is full, and then
   the block is listed once and has the new contents, here and in the pending writes.
   */
  lemma LogWriteIff(p: Params, s: State, t: OpId, b: nat, data: Block)
    requires Reachable(p, s) && MayLog(p, s, t, b, data)
    ensures (exists s' :: NextStep(p, s, s', LogWrite(t, b, data))) <==>
            |s.lh| < p.cfg.logsize && |s.lh| + 1 < p.cfg.size
  {
    hide Reachable, ListOk, DiskOk, HeaderOk, Unused;
    ReachableInv(p, s);
    assert 1 <= |s.ops| by { assert t in s.ops.Keys; }
    if !Panics(p, s) {
      var s' := s.(lh := Absorb(s.lh, b), cache := s.cache[b := data],
                   ops := if b in s.lh then s.ops else s.ops[t := s.ops[t] + 1],
                   pending := s.pending + [Rec(t, b, data)]);
      assert NextStep(p, s, s', LogWrite(t, b, data));
    }
  }

  lemma LogWriteLists(p: Params, s: State, s': State, t: OpId, b: nat, data: Block)
    requires Reachable(p, s) && NextStep(p, s, s', LogWrite(t, b, data))
    ensures s'.lh == if b in s.lh then s.lh else s.lh + [b]
    ensures s'.ops.Keys == s.ops.Keys && s'.outstanding == s.outstanding && s'.asleep == s.asleep
    ensures t in s.ops && forall u | u in s.ops ::
              u in s'.ops && s'.ops[u] == s.ops[u] + if u == t && b !in s.lh then 1 else 0
    ensures s'.disk == s.disk && s'.phase == s.phase == Running && s'.durable == s.durable
    ensures s'.pending == s.pending + [Rec(t, b, data)]
    ensures Home(p.cfg, s'.disk) + s'.cache == (Home(p.cfg, s.disk) + s.cache)[b := data]
  {
    hide Reachable, ListOk, DiskOk, HeaderOk, Unused, Home;
    ReachableInv(p, s);
  }

  lemma OneLess(ops: map<OpId, nat>, t: OpId)
    requires t in ops
    ensures (ops - {t}).Keys == ops.Keys - {t} && |ops - {t}| == |ops| - 1 && (ops - {t} == map[] <==> |ops| == 1)
  {
    assert (ops - {t}).Keys == ops.Keys - {t};
    assert ops - {t} == map[] <==> (ops - {t}).Keys == {};
  }

  /** end_op takes its operation away; the last one starts the commit, any other wakes the sleepers. */
  lemma EndTakes(p: Params, s: State, s': State, t: OpId)
    requires Reachable(p, s) && NextStep(p, s, s', End(t))
    ensures t in s.ops && s'.ops.Keys == s.ops.Keys - {t} && s'.outstanding == |s'.ops|
    ensures forall u | u in s'.ops :: s'.ops[u] == s.ops[u]
    ensures s'.lh == s.lh && s'.cache == s.cache && s'.disk == s.disk
    ensures s'.pending == s.pending && s'.durable == s.durable
    ensures s'.ops == map[] <==> s'.phase == Committing && s'.committing
    ensures s'.ops == map[] ==> s'.done == 0 && s'.asleep == s.asleep
    ensures s'.ops != map[] ==> s'.phase == Running && s'.asleep == 0
  {
    hide Reachable, ListOk, DiskOk, HeaderOk, Unused, TransactionOk, OpsWhole, CommitWrites;
    ReachableInv(p, s);
    OneLess(s.ops, t);
  }

  /** A commit or a recovery can always go on, to its next write or to its end. */
  lemma CommitGoesOn(p: Params, s: State)
    requires Reachable(p, s) && s.phase != Running
    ensures (exists s' :: NextStep(p, s, s', DiskWrite)) || (exists s' :: NextStep(p, s, s', Finish))
  {
    hide Reachable, ListOk, BudgetOk, HeaderOk, TransactionOk, Meaning, Replay, Home, HeadN, OpsWhole;
    ReachableInv(p, s);
    if s.done < |s.todo| {
      var w := s.todo[s.done];
      var committed := s.phase == Committing && Committed(s.lh, s.done + 1);
      var s' := s.(disk := s.disk[w.addr := w.data], done := s.done + 1,
                   durable := if committed then s.durable + s.pending else s.durable,
                   pending := if committed then [] else s.pending);
      assert NextStep(p, s, s', DiskWrite);
    } else {
      var s' := s.(phase := Running, committing := false, lh := [], cache := Unpinned(s.cache, s.lh), asleep := 0);
      assert NextStep(p, s, s', Finish);
    }
  }

  /** A crash can come in any reachable state; what was only in memory is gone. */
  lemma CrashesAnywhere(p: Params, s: State) returns (s': State)
    requires Reachable(p, s)
    ensures NextStep(p, s, s', Crash)
    ensures s'.disk == s.disk && s'.durable == s.durable && s'.pending == [] && s'.phase == Recovering
    ensures s'.lh == [] && s'.cache == map[] && s'.ops == map[] && s'.asleep == 0
  {
    hide Reachable, ListOk, BudgetOk, TransactionOk, Meaning, Replay, Home, HeadN, OpsWhole;
    ReachableInv(p, s);
    s' := PowerOn(p, s.disk, s.nextOp, s.durable);
  }

  /** Every step but log_write and a crash keeps the history of writes. */
  lemma HistoryKept(p: Params, s: State, s': State, step: Step)
    requires NextStep(p, s, s', step) && !step.Crash? && !step.LogWrite?
    ensures s'.durable + s'.pending == s.durable + s.pending
  {
    hide TransactionOk, HeaderOk;
    assert s.durable + s.pending + [] == s.durable + s.pending;
  }

  /** The machine goes from one state to the next without a crash. */
  ghost predicate Calm(p: Params, s: State, s': State) {
    exists step: Step :: !step.Crash? && NextStep(p, s, s', step)
  }

  /** During a commit that does not crash, no write is added or lost. */
  lemma CommitStep(p: Params, s: State, s': State)
    requires Inv(p, s) && s.phase == Committing && Calm(p, s, s')
    ensures s'.durable + s'.pending == s.durable + s.pending
    ensures s'.phase == Committing || (s'.phase == Running && s'.lh == [])
  {
    hide ListOk, HeaderOk, TransactionOk, DiskOk, OpsWhole, Unused;
    var step: Step :| !step.Crash? && NextStep(p, s, s', step);
    NoOps(p, s);
    HistoryKept(p, s, s', step);
  }

  lemma {:induction false} CommitKeeps(p: Params, run: seq<State>, a: nat, b: nat)
    requires IsRun(p, run) && a <= b < |run|
    requires forall i | a <= i < b :: run[i].phase == Committing && Calm(p, run[i], run[i + 1])
    ensures run[b].durable + run[b].pending == run[a].durable + run[a].pending
  {
    hide Inv, Next, Calm;
    if a < b {
      CommitKeeps(p, run, a, b - 1);
      RunInv(p, run, b - 1);
      assert Calm(p, run[b - 1], run[b - 1 + 1]);
      CommitStep(p, run[b - 1], run[b]);
    }
  }

  /** With an empty log the home blocks hold every write. */
  lemma EmptyLog(p: Params, s: State)
    requires Inv(p, s) && s.phase == Running && s.lh == []
    ensures s.pending == [] && HeaderOk(p.cfg, p.boot) && HeaderOk(p.cfg, s.disk)
    ensures Home(p.cfg, s.disk) == Replay(Meaning(p.cfg, p.boot), s.durable)
  {
    hide HeaderOk, TransactionOk, Replay, Home, Meaning, OpsWhole, BudgetOk;
    assert s.durable + [] == s.durable;
    assert s.cache == map[];
    assert Home(p.cfg, s.disk) + map[] == Home(p.cfg, s.disk);
  }

  /**
   A commit that is not cut short makes every pending write durable: when it is over
   the home blocks hold all writes so far, and the log is empty.
   */
  lemma CommitMakesDurable(p: Params, run: seq<State>, a: nat, b: nat)
    requires IsRun(p, run) && a < b < |run| && run[b].phase == Running
    requires forall i | a <= i < b :: run[i].phase == Committing && Calm(p, run[i], run[i + 1])
    ensures run[b].durable == run[a].durable + run[a].pending && run[b].pending == [] && run[b].lh == []
    ensures HeaderOk(p.cfg, p.boot) && HeaderOk(p.cfg, run[b].disk)
    ensures Home(p.cfg, run[b].disk) == Replay(Meaning(p.cfg, p.boot), run[a].durable + run[a].pending)
  {
    hide Inv, Calm, HeaderOk, Replay, Home, Meaning, Next;
    CommitKeeps(p, run, a, b);
    RunInv(p, run, b - 1);
    RunInv(p, run, b);
    assert Calm(p, run[b - 1], run[b - 1 + 1]);
    CommitStep(p, run[b - 1], run[b]);
    EmptyLog(p, run[b]);
    assert run[b].durable + [] == run[b].durable;
  }

  // ---------- How many operations at a time? ----------

  /** k operations are outstanding, and none has logged anything. */
  lemma {:induction false} ReachOutstanding(p: Params, k: nat) returns (s: State)
    requires ValidParams(p) && 0 < k && k * p.maxop <= p.cfg.logsize
    ensures Reachable(p, s) && s.outstanding == k && s.phase == Running && !s.committing && s.lh == []
    decreases k
  {
    hide Reachable, HeaderOk;
    if k == 1 {
      s := ReachFirst(p);
    } else {
      MulSucc(k - 1, p.maxop);
      var r := ReachOutstanding(p, k - 1);
      s := r.(outstanding := r.outstanding + 1, ops := r.ops[r.nextOp := 0], nextOp := r.nextOp + 1);
      assert NextStep(p, r, s, Begin);
      Extend(p, r, s, Begin);
    }
  }

  lemma NextOutstanding(p: Params, s: State, s': State)
    requires Next(p, s, s') && s.outstanding * p.maxop <= p.cfg.logsize
    ensures s'.outstanding * p.maxop <= p.cfg.logsize
  {
    hide TransactionOk, HeaderOk;
    var step :| NextStep(p, s, s', step);
    if s'.outstanding < s.outstanding {
      Arithmetic.MulMonotone(s'.outstanding, s.outstanding, p.maxop);
    }
  }

  lemma {:induction false} RunOutstanding(p: Params, run: seq<State>, i: nat)
    requires IsRun(p, run) && i < |run|
    ensures run[i].outstanding * p.maxop <= p.cfg.logsize
  {
    hide Next;
    if 0 < i {
      RunOutstanding(p, run, i - 1);
      NextOutstanding(p, run[i - 1], run[i]);
    }
  }

  /** Some run has k operations at a time if and only if the log has MAXOPBLOCKS blocks for each. */
  lemma OutstandingIff(p: Params, k: nat)
    requires ValidParams(p) && 0 < k
    ensures (exists s :: Reachable(p, s) && s.outstanding == k) <==> k * p.maxop <= p.cfg.logsize
  {
    if k * p.maxop <= p.cfg.logsize {
      var s := ReachOutstanding(p, k);
    } else {
      forall s | Reachable(p, s) ensures s.outstanding != k {
        var run :| IsRun(p, run) && run[|run| - 1] == s;
        RunOutstanding(p, run, |run| - 1);
      }
    }
  }
}
