/**
 The virtio disk driver, kernel/virtio_disk.c, with the device as an
 environment (sections 2.6 and 5.2 of the OASIS virtio specification 1.1).

 The methods are the steps that run under vdisk_lock, and the two things the
 device does: take the next published chain, and complete a chain it has taken,
 each at most once.  They may follow one another in any order.
 */
module Virtio {
  import opened Arithmetic

  const WRAP := 0x1_0000                       // ring indices are 16 bits wide

  datatype Addr = Nowhere | Op(i: nat) | Data(b: nat) | Status(i: nat)

  datatype Desc = Desc(addr: Addr, write: bool, hasNext: bool, next: nat)

  datatype Phase = Published | Taken | Completed | Seen

  /** A request in flight: its three descriptors, its buffer, and how far it has got. */
  datatype Chain = Chain(d0: nat, d1: nat, d2: nat, b: nat, write: bool, sector: nat, phase: Phase)

  // ---------- Rings indexed modulo their length ----------

  /** Two counts less than 2^16 apart have the same 16-bit index only if they are equal. */
  lemma SameIndex(j: nat, k: nat)
    requires j <= k < j + WRAP
    ensures Rem(j, WRAP) == Rem(k, WRAP) <==> j == k
  {
  }

  /** Ring indices are incremented, and wrap. */
  function NextIndex(i: nat): nat {
    (i + 1) % WRAP
  }

  lemma IndexNext(k: nat, n: nat, m: nat)
    requires Divides(n, WRAP, m)
    ensures Rem(Rem(k, WRAP), n) == Rem(k, n) && NextIndex(Rem(k, WRAP)) == Rem(k + 1, WRAP)
  {
    hide Rem;
    IndexFinds(k, WRAP, n, m);
  }

  ghost predicate Distinct(s: seq<nat>) {
    forall i, j | 0 <= i < j < |s| :: s[i] != s[j]
  }

  lemma {:induction false} DistinctBound(s: seq<nat>, n: nat)
    requires Distinct(s) && forall i | 0 <= i < |s| :: s[i] < n
    ensures |s| <= n
    decreases n
  {
    if s != [] {
      assert s[0] < n;
      if i :| 0 <= i < |s| && s[i] == n - 1 {
        var t := s[..i] + s[i + 1..];
        assert forall k | 0 <= k < |t| :: t[k] == s[if k < i then k else k + 1];
        DistinctBound(t, n - 1);
      } else {
        DistinctBound(s, n - 1);
      }
    }
  }

  /** The queue q of ring entries starts at count k. */
  ghost predicate Queued(ring: seq<nat>, k: nat, q: seq<nat>) {
    0 < |ring| && |q| <= |ring| && forall i | 0 <= i < |q| :: ring[Rem(k + i, |ring|)] == q[i]
  }

  /** A new entry at the end of the queue overwrites none of it. */
  lemma Enqueue(ring: seq<nat>, k: nat, q: seq<nat>, x: nat)
    requires Queued(ring, k, q) && |q| < |ring|
    ensures Queued(ring[Rem(k + |q|, |ring|) := x], k, q + [x])
  {
    hide Rem;
    var n := |ring|;
    var ring' := ring[Rem(k + |q|, n) := x];
    forall i | 0 <= i < |q + [x]| ensures ring'[Rem(k + i, n)] == (q + [x])[i] {
      if i < |q| {
        RemsDiffer(k + i, k + |q|, n);
        assert ring[Rem(k + i, n)] == q[i];
      }
    }
  }

  lemma Dequeue(ring: seq<nat>, k: nat, q: seq<nat>)
    requires Queued(ring, k, q) && q != []
    ensures ring[Rem(k, |ring|)] == q[0] && Queued(ring, k + 1, q[1..])
  {
    hide Rem;
    assert ring[Rem(k + 0, |ring|)] == q[0];
    forall i | 0 <= i < |q[1..]| ensures ring[Rem(k + 1 + i, |ring|)] == q[1..][i] {
      assert ring[Rem(k + (i + 1), |ring|)] == q[i + 1];
    }
  }

  // ---------- The state ----------

  /**
   The chain at head h: three distinct descriptors that are its own, formatted as
   section 5.2 asks, and its bookkeeping.
   */
  ghost predicate ChainOk(h: nat, c: Chain, owner: map<nat, nat>, desc: seq<Desc>, ops: seq<(bool, nat)>,
                          info: seq<nat>, status: seq<nat>, busy: set<nat>) {
    && h == c.d0 && c.d0 != c.d1 && c.d0 != c.d2 && c.d1 != c.d2
    && c.d0 < |desc| && c.d1 < |desc| && c.d2 < |desc| && h < |ops| && h < |info| && h < |status|
    && c.d0 in owner && owner[c.d0] == h && c.d1 in owner && owner[c.d1] == h && c.d2 in owner && owner[c.d2] == h
    && desc[c.d0] == Desc(Op(h), false, true, c.d1)
    && desc[c.d1] == Desc(Data(c.b), !c.write, true, c.d2)
    && desc[c.d2] == Desc(Status(h), true, false, 0)
    && ops[h] == (c.write, c.sector)
    && info[h] == c.b && c.b != 0
    && (c.phase == Completed || c.phase == Seen ==> status[h] == 0)
    && (c.b in busy <==> c.phase != Seen)
  }

  /** Descriptor i belongs to the chain its owner names. */
  ghost predicate OwnerOk(i: nat, owner: map<nat, nat>, chains: map<nat, Chain>)
    requires i in owner
  {
    owner[i] in chains && var c := chains[owner[i]]; i == c.d0 || i == c.d1 || i == c.d2
  }

  /** No two chains share a buffer. */
  ghost predicate BuffersApart(chains: map<nat, Chain>) {
    forall h, g | h in chains && g in chains && h != g :: chains[h].b != chains[g].b
  }

  /** The queue holds exactly the heads of the chains in a phase, each once. */
  ghost predicate QueueOk(q: seq<nat>, chains: map<nat, Chain>, phase: Phase) {
    && Distinct(q)
    && (forall i | 0 <= i < |q| :: q[i] in chains && chains[q[i]].phase == phase)
    && (forall h | h in chains && chains[h].phase == phase :: h in q)
  }

  ghost predicate ChainsOk(chains: map<nat, Chain>, owner: map<nat, nat>, desc: seq<Desc>, ops: seq<(bool, nat)>,
                           info: seq<nat>, status: seq<nat>, busy: set<nat>) {
    forall h | h in chains :: ChainOk(h, chains[h], owner, desc, ops, info, status, busy)
  }

  /** The free flags are the exact complement of the chains' descriptors. */
  ghost predicate FreeOk(free: seq<bool>, owner: map<nat, nat>, chains: map<nat, Chain>) {
    && (forall i | 0 <= i < |free| :: free[i] <==> i !in owner)
    && (forall i | i in owner :: i < |free| && OwnerOk(i, owner, chains))
  }

  /** The requests in flight and the free descriptors. */
  ghost predicate Requests(free: seq<bool>, owner: map<nat, nat>, chains: map<nat, Chain>, desc: seq<Desc>,
                           ops: seq<(bool, nat)>, info: seq<nat>,
                           status: seq<nat>, busy: set<nat>)
  {
    FreeOk(free, owner, chains) && ChainsOk(chains, owner, desc, ops, info, status, busy) && BuffersApart(chains)
  }

  ghost predicate Queues(published: seq<nat>, completed: seq<nat>, chains: map<nat, Chain>) {
    QueueOk(published, chains, Published) && QueueOk(completed, chains, Completed)
  }

  lemma HeadInRange(h: nat, chains: map<nat, Chain>, owner: map<nat, nat>, desc: seq<Desc>, ops: seq<(bool, nat)>,
                    info: seq<nat>, status: seq<nat>, busy: set<nat>)
    requires ChainsOk(chains, owner, desc, ops, info, status, busy) && h in chains
    ensures h < |desc| && h < |info| && h < |status| && ChainOk(h, chains[h], owner, desc, ops, info, status, busy)
  {
  }

  /** A queue of chains fits its ring. */
  lemma QueueFits(q: seq<nat>, phase: Phase, chains: map<nat, Chain>, owner: map<nat, nat>, desc: seq<Desc>,
                  ops: seq<(bool, nat)>, info: seq<nat>, status: seq<nat>, busy: set<nat>)
    requires QueueOk(q, chains, phase) && ChainsOk(chains, owner, desc, ops, info, status, busy)
    ensures |q| <= |desc|
  {
    forall i | 0 <= i < |q| ensures q[i] < |desc| {
      HeadInRange(q[i], chains, owner, desc, ops, info, status, busy);
    }
    DistinctBound(q, |desc|);
  }

  /** ... with room for one more head that is not in it. */
  lemma QueueHasRoom(q: seq<nat>, x: nat, phase: Phase, chains: map<nat, Chain>, owner: map<nat, nat>, desc: seq<Desc>,
                     ops: seq<(bool, nat)>, info: seq<nat>, status: seq<nat>, busy: set<nat>)
    requires QueueOk(q, chains, phase) && ChainsOk(chains, owner, desc, ops, info, status, busy) && x < |desc|
             && x !in q
    ensures |q| < |desc|
  {
    forall i | 0 <= i < |q| ensures q[i] < |desc| {
      HeadInRange(q[i], chains, owner, desc, ops, info, status, busy);
    }
    DistinctBound(q + [x], |desc|);
  }

  ghost predicate NewBuffer(chains: map<nat, Chain>, b: nat) {
    forall g | g in chains :: chains[g].b != b
  }

  /** The descriptors with a chain's three formatted, as section 5.2 asks. */
  function DescWith(desc: seq<Desc>, c: Chain): (r: seq<Desc>)
    requires c.d0 < |desc| && c.d1 < |desc| && c.d2 < |desc|
    ensures |r| == |desc|
  {
    desc[c.d0 := Desc(Op(c.d0), false, true, c.d1)][c.d1 := Desc(Data(c.b), !c.write, true, c.d2)][c.d2 :=
        Desc(Status(c.d0), true, false, 0)]
  }

  ghost function OwnerWith(owner: map<nat, nat>, c: Chain): map<nat, nat> {
    owner[c.d0 := c.d0][c.d1 := c.d0][c.d2 := c.d0]
  }

  function Without(free: seq<bool>, d0: nat, d1: nat, d2: nat): (r: seq<bool>)
    requires d0 < |free| && d1 < |free| && d2 < |free|
    ensures |r| == |free|
  {
    free[d0 := false][d1 := false][d2 := false]
  }

  ghost predicate AtMostTwo(free: seq<bool>) {
    forall i, j, k | 0 <= i < j < k < |free| :: !(free[i] && free[j] && free[k])
  }

  // ---------- How the steps keep the invariant ----------

  /** Clearing descriptors that are free touches no chain. */
  lemma DescKept(free: seq<bool>, owner: map<nat, nat>, chains: map<nat, Chain>, desc: seq<Desc>, desc': seq<Desc>,
                 ops: seq<(bool, nat)>,
                 info: seq<nat>, status: seq<nat>, busy: set<nat>)
    requires FreeOk(free, owner, chains) && ChainsOk(chains, owner, desc, ops, info, status, busy)
             && |desc'| == |desc| == |free|
    requires forall i | 0 <= i < |free| && !free[i] :: desc'[i] == desc[i]
    ensures ChainsOk(chains, owner, desc', ops, info, status, busy)
  {
    forall h | h in chains ensures ChainOk(h, chains[h], owner, desc', ops, info, status, busy) {
      assert ChainOk(h, chains[h], owner, desc, ops, info, status, busy);
    }
  }

  /** A free descriptor is not the head of a chain. */
  lemma NotAHead(free: seq<bool>, owner: map<nat, nat>, chains: map<nat, Chain>, desc: seq<Desc>, ops: seq<(bool, nat)>,
                 info: seq<nat>,
                 status: seq<nat>, busy: set<nat>, d: nat)
    requires FreeOk(free, owner, chains) && ChainsOk(chains, owner, desc, ops, info, status, busy) && d < |free|
             && free[d]
    ensures d !in chains && d !in owner
  {
    HeadOwned(d, chains, owner, desc, ops, info, status, busy);
  }

  lemma HeadOwned(h: nat, chains: map<nat, Chain>, owner: map<nat, nat>, desc: seq<Desc>, ops: seq<(bool, nat)>,
                  info: seq<nat>, status: seq<nat>, busy: set<nat>)
    requires ChainsOk(chains, owner, desc, ops, info, status, busy)
    ensures h in chains ==> h in owner
  {
    if h in chains {
      HeadInRange(h, chains, owner, desc, ops, info, status, busy);
    }
  }

  /** A chain keeps its format when its own descriptors and bookkeeping are left alone. */
  lemma ChainFrame(h: nat, c: Chain, owner: map<nat, nat>, desc: seq<Desc>, ops: seq<(bool, nat)>, info: seq<nat>,
                   status: seq<nat>, busy: set<nat>,
                   owner': map<nat, nat>, desc': seq<Desc>, ops': seq<(bool, nat)>, info': seq<nat>, status': seq<nat>,
                       busy': set<nat>)
    requires ChainOk(h, c, owner, desc, ops, info, status, busy)
    requires |desc'| == |desc| && |ops'| == |ops| && |info'| == |info| && |status'| == |status|
    requires forall i | i in owner && i < |desc|
             && owner[i] == h :: i in owner' && owner'[i] == h && desc'[i] == desc[i]
    requires ops'[h] == ops[h] && info'[h] == info[h] && status'[h] == status[h] && (c.b in busy' <==> c.b in busy)
    ensures ChainOk(h, c, owner', desc', ops', info', status', busy')
  {
  }

  lemma AddFree(free: seq<bool>, owner: map<nat, nat>, chains: map<nat, Chain>, c: Chain)
    requires FreeOk(free, owner, chains) && c.d0 < |free| && c.d1 < |free| && c.d2 < |free| && c.d0 !in chains
    requires c.d0 != c.d1 && c.d0 != c.d2 && c.d1 != c.d2 && free[c.d0] && free[c.d1] && free[c.d2]
    ensures FreeOk(Without(free, c.d0, c.d1, c.d2), OwnerWith(owner, c), chains[c.d0 := c])
  {
    var owner', chains' := OwnerWith(owner, c), chains[c.d0 := c];
    forall i | i in owner' ensures i < |free| && OwnerOk(i, owner', chains') {
      assert i in owner ==> OwnerOk(i, owner, chains);
    }
  }

  lemma AddChain(free: seq<bool>, owner: map<nat, nat>, chains: map<nat, Chain>, desc: seq<Desc>, ops: seq<(bool, nat)>,
                 info: seq<nat>,
                 status: seq<nat>, busy: set<nat>, c: Chain)
    requires FreeOk(free, owner, chains) && ChainsOk(chains, owner, desc, ops, info, status, busy)
    requires |desc| == |ops| == |info| == |status| == |free| && c.d0 < |free| && c.d1 < |free| && c.d2 < |free|
             && c.d0 !in chains
    requires c.d0 != c.d1 && c.d0 != c.d2 && c.d1 != c.d2 && free[c.d0] && free[c.d1] && free[c.d2]
    requires c.phase == Published && c.b != 0 && NewBuffer(chains, c.b)
    ensures var desc' := DescWith(desc, c);
            ChainsOk(chains[c.d0 := c], OwnerWith(owner, c), desc', ops[c.d0 := (c.write, c.sector)],
                     info[c.d0 := c.b], status[c.d0 := 0xff], busy + {c.b})
  {
    hide FreeOk;
    var desc' := DescWith(desc, c);
    var owner', chains' := OwnerWith(owner, c), chains[c.d0 := c];
    NotAHead(free, owner, chains, desc, ops, info, status, busy, c.d0);
    NotAHead(free, owner, chains, desc, ops, info, status, busy, c.d1);
    NotAHead(free, owner, chains, desc, ops, info, status, busy, c.d2);
    forall h | h in chains'
      ensures ChainOk(h, chains'[h], owner', desc', ops[c.d0 := (c.write, c.sector)], info[c.d0 := c.b],
              status[c.d0 := 0xff], busy + {c.b})
    {
      if h != c.d0 {
        HeadInRange(h, chains, owner, desc, ops, info, status, busy);
        ChainFrame(h, chains[h], owner, desc, ops, info, status, busy,
                   owner', desc', ops[c.d0 := (c.write, c.sector)], info[c.d0 := c.b], status[c.d0 := 0xff],
                       busy + {c.b});
      }
    }
  }

  lemma AddApart(chains: map<nat, Chain>, c: Chain)
    requires BuffersApart(chains) && c.d0 !in chains && NewBuffer(chains, c.b)
    ensures BuffersApart(chains[c.d0 := c])
  {
  }

  /** A new chain of three free descriptors and a buffer no chain has. */
  lemma LaunchKeeps(free: seq<bool>, owner: map<nat, nat>, chains: map<nat, Chain>, desc: seq<Desc>,
                    ops: seq<(bool, nat)>, info: seq<nat>,
                    status: seq<nat>, busy: set<nat>, p: seq<nat>, q: seq<nat>, c: Chain)
    requires Requests(free, owner, chains, desc, ops, info, status, busy) && Queues(p, q, chains)
    requires |desc| == |ops| == |info| == |status| == |free| && c.d0 < |free| && c.d1 < |free| && c.d2 < |free|
    requires c.d0 != c.d1 && c.d0 != c.d2 && c.d1 != c.d2 && free[c.d0] && free[c.d1] && free[c.d2]
    requires c.phase == Published && c.b != 0 && NewBuffer(chains, c.b)
    ensures c.d0 !in chains && |p| < |desc| && Queues(p + [c.d0], q, chains[c.d0 := c])
    ensures Requests(Without(free, c.d0, c.d1, c.d2), OwnerWith(owner, c), chains[c.d0 := c], DescWith(desc, c),
            ops[c.d0 := (c.write, c.sector)],
                     info[c.d0 := c.b], status[c.d0 := 0xff], busy + {c.b})
  {
    hide FreeOk, ChainsOk, BuffersApart, QueueOk, DescWith, OwnerWith, Without, NewBuffer;
    NotAHead(free, owner, chains, desc, ops, info, status, busy, c.d0);
    NotQueued(p, chains, Published, c.d0);
    QueueHasRoom(p, c.d0, Published, chains, owner, desc, ops, info, status, busy);
    AddFree(free, owner, chains, c);
    AddChain(free, owner, chains, desc, ops, info, status, busy, c);
    AddApart(chains, c);
    AddQueue(p, q, chains, c);
  }

  lemma NotQueued(q: seq<nat>, chains: map<nat, Chain>, phase: Phase, x: nat)
    requires QueueOk(q, chains, phase) && (x !in chains || chains[x].phase != phase)
    ensures x !in q
  {
  }

  lemma AddQueue(p: seq<nat>, q: seq<nat>, chains: map<nat, Chain>, c: Chain)
    requires QueueOk(p, chains, Published) && QueueOk(q, chains, Completed) && c.d0 !in chains && c.phase == Published
    ensures QueueOk(p + [c.d0], chains[c.d0 := c], Published) && QueueOk(q, chains[c.d0 := c], Completed)
  {
    var chains', p' := chains[c.d0 := c], p + [c.d0];
    forall h | h in chains' && chains'[h].phase == Published ensures h in p' {
      assert h == c.d0 ==> p'[|p|] == h;
    }
  }

  /** The first chain of the published queue is taken. */
  lemma LeavesQueue(p: seq<nat>, q: seq<nat>, chains: map<nat, Chain>, h: nat)
    requires QueueOk(p, chains, Published) && QueueOk(q, chains, Completed) && p != [] && h == p[0]
    ensures h in chains && chains[h].phase == Published
    ensures QueueOk(p[1..], chains[h := chains[h].(phase := Taken)], Published)
    ensures QueueOk(q, chains[h := chains[h].(phase := Taken)], Completed)
  {
    assert p == [p[0]] + p[1..];
    var chains' := chains[h := chains[h].(phase := Taken)];
    forall g | g in chains' && chains'[g].phase == Published ensures g in p[1..] {
      assert g in p && g != h;
    }
  }

  lemma PhaseKeeps(free: seq<bool>, owner: map<nat, nat>, chains: map<nat, Chain>, desc: seq<Desc>,
                   ops: seq<(bool, nat)>, info: seq<nat>,
                   status: seq<nat>, busy: set<nat>, h: nat, to: Phase)
    requires FreeOk(free, owner, chains) && ChainsOk(chains, owner, desc, ops, info, status, busy)
             && BuffersApart(chains)
    requires h in chains && chains[h].phase != Seen
             && (to == Taken || (to == Completed && h < |status| && status[h] == 0))
    ensures var chains' := chains[h := chains[h].(phase := to)];
            FreeOk(free, owner, chains') && ChainsOk(chains', owner, desc, ops, info, status, busy)
                && BuffersApart(chains')
  {
    var chains' := chains[h := chains[h].(phase := to)];
    forall g | g in chains' ensures ChainOk(g, chains'[g], owner, desc, ops, info, status, busy) {
      assert ChainOk(g, chains[g], owner, desc, ops, info, status, busy);
    }
    forall i | i in owner ensures i < |free| && OwnerOk(i, owner, chains') {
      assert OwnerOk(i, owner, chains);
    }
  }

  /** A chain the device has taken is completed. */
  lemma CompleteKeeps(free: seq<bool>, owner: map<nat, nat>, chains: map<nat, Chain>, desc: seq<Desc>,
                      ops: seq<(bool, nat)>, info: seq<nat>,
                      status: seq<nat>, busy: set<nat>, p: seq<nat>, q: seq<nat>, h: nat)
    requires Requests(free, owner, chains, desc, ops, info, status, busy) && Queues(p, q, chains) && h in chains
             && chains[h].phase == Taken
    ensures h < |status| && |q| < |desc|
    ensures var chains' := chains[h := chains[h].(phase := Completed)];
            Requests(free, owner, chains', desc, ops, info, status[h := 0], busy) && Queues(p, q + [h], chains')
  {
    hide FreeOk, BuffersApart, ChainsOk, QueueOk;
    HeadInRange(h, chains, owner, desc, ops, info, status, busy);
    StatusKeeps(chains, owner, desc, ops, info, status, busy, h);
    PhaseKeeps(free, owner, chains, desc, ops, info, status[h := 0], busy, h, Completed);
    NotQueued(q, chains, Completed, h);
    QueueHasRoom(q, h, Completed, chains, owner, desc, ops, info, status, busy);
    CompleteQueues(p, q, chains, h);
  }

  lemma StatusKeeps(chains: map<nat, Chain>, owner: map<nat, nat>, desc: seq<Desc>, ops: seq<(bool, nat)>,
                    info: seq<nat>, status: seq<nat>, busy: set<nat>, h: nat)
    requires ChainsOk(chains, owner, desc, ops, info, status, busy) && h < |status|
    ensures ChainsOk(chains, owner, desc, ops, info, status[h := 0], busy)
  {
    forall g | g in chains ensures ChainOk(g, chains[g], owner, desc, ops, info, status[h := 0], busy) {
      assert ChainOk(g, chains[g], owner, desc, ops, info, status, busy);
    }
  }

  lemma CompleteQueues(p: seq<nat>, q: seq<nat>, chains: map<nat, Chain>, h: nat)
    requires QueueOk(p, chains, Published) && QueueOk(q, chains, Completed) && h in chains && chains[h].phase == Taken
    ensures var chains' := chains[h := chains[h].(phase := Completed)];
            QueueOk(p, chains', Published) && QueueOk(q + [h], chains', Completed)
  {
    var chains', q' := chains[h := chains[h].(phase := Completed)], q + [h];
    forall g | g in chains' && chains'[g].phase == Completed ensures g in q' {
      assert g == h ==> q'[|q|] == h;
    }
  }

  lemma CompletedFits(free: seq<bool>, owner: map<nat, nat>, chains: map<nat, Chain>, desc: seq<Desc>,
                      ops: seq<(bool, nat)>, info: seq<nat>,
                      status: seq<nat>, busy: set<nat>, p: seq<nat>, q: seq<nat>)
    requires Requests(free, owner, chains, desc, ops, info, status, busy) && Queues(p, q, chains)
    ensures |q| <= |desc|
  {
    hide FreeOk, BuffersApart, ChainsOk, QueueOk;
    QueueFits(q, Completed, chains, owner, desc, ops, info, status, busy);
  }

  /**
   The first completion names an allocated chain with status 0; seeing it releases
   that chain's buffer and no other.
   */
  lemma SeeKeeps(free: seq<bool>, owner: map<nat, nat>, chains: map<nat, Chain>, desc: seq<Desc>, ops: seq<(bool, nat)>,
                 info: seq<nat>,
                 status: seq<nat>, busy: set<nat>, p: seq<nat>, q: seq<nat>, h: nat)
    requires Requests(free, owner, chains, desc, ops, info, status, busy) && Queues(p, q, chains) && q != []
             && h == q[0]
    ensures h in chains && h < |status| && status[h] == 0 && h < |info| && info[h] == chains[h].b && h !in q[1..]
    ensures forall g | g in chains && g != h :: chains[g].b != chains[h].b
    ensures var chains' := chains[h := chains[h].(phase := Seen)];
            Requests(free, owner, chains', desc, ops, info, status, busy - {chains[h].b}) && Queues(p, q[1..], chains')
  {
    hide FreeOk, ChainsOk;
    assert q[0] in chains;
    HeadInRange(h, chains, owner, desc, ops, info, status, busy);
    SeenChains(free, owner, chains, desc, ops, info, status, busy, h);
    assert q == [q[0]] + q[1..];
    var chains' := chains[h := chains[h].(phase := Seen)];
    forall g | g in chains' && chains'[g].phase == Completed ensures g in q[1..] {
      assert g in q && g != h;
    }
  }

  lemma SeenChains(free: seq<bool>, owner: map<nat, nat>, chains: map<nat, Chain>, desc: seq<Desc>,
                   ops: seq<(bool, nat)>, info: seq<nat>,
                   status: seq<nat>, busy: set<nat>, h: nat)
    requires FreeOk(free, owner, chains) && ChainsOk(chains, owner, desc, ops, info, status, busy)
             && BuffersApart(chains)
    requires h in chains && chains[h].phase == Completed
    ensures var chains' := chains[h := chains[h].(phase := Seen)];
            FreeOk(free, owner, chains') && ChainsOk(chains', owner, desc, ops, info, status, busy - {chains[h].b})
  {
    var chains' := chains[h := chains[h].(phase := Seen)];
    forall g | g in chains' ensures ChainOk(g, chains'[g], owner, desc, ops, info, status, busy - {chains[h].b}) {
      assert ChainOk(g, chains[g], owner, desc, ops, info, status, busy);
    }
    forall i | i in owner ensures i < |free| && OwnerOk(i, owner, chains') {
      assert OwnerOk(i, owner, chains);
    }
  }

  const CLEAR := Desc(Nowhere, false, false, 0)

  function Cleared(desc: seq<Desc>, c: Chain): (r: seq<Desc>)
    requires c.d0 < |desc| && c.d1 < |desc| && c.d2 < |desc|
    ensures |r| == |desc|
  {
    desc[c.d0 := CLEAR][c.d1 := CLEAR][c.d2 := CLEAR]
  }

  function Given(free: seq<bool>, c: Chain): (r: seq<bool>)
    requires c.d0 < |free| && c.d1 < |free| && c.d2 < |free|
    ensures |r| == |free|
  {
    free[c.d0 := true][c.d1 := true][c.d2 := true]
  }

  /** A chain whose completion has been seen gives its descriptors back. */
  lemma FinishKeeps(free: seq<bool>, owner: map<nat, nat>, chains: map<nat, Chain>, desc: seq<Desc>,
                    ops: seq<(bool, nat)>, info: seq<nat>,
                    status: seq<nat>, busy: set<nat>, p: seq<nat>, q: seq<nat>, h: nat)
    requires Requests(free, owner, chains, desc, ops, info, status, busy) && Queues(p, q, chains) && h in chains
             && chains[h].b !in busy
    requires |desc| == |free|
    ensures var c := chains[h];
            && c.d0 < |desc| && c.d1 < |desc| && c.d2 < |desc| && c.d0 != c.d1 && c.d0 != c.d2 && c.d1 != c.d2
                && h == c.d0 && h < |info|
            && desc[c.d0].hasNext && desc[c.d0].next == c.d1 && desc[c.d1].hasNext && desc[c.d1].next == c.d2
                && !desc[c.d2].hasNext
            && !free[c.d0] && !free[c.d1] && !free[c.d2]
            && Requests(Given(free, c), owner - {c.d0, c.d1, c.d2}, chains - {h}, Cleared(desc, c), ops, info[h := 0],
                status, busy)
            && Queues(p, q, chains - {h})
            && forall i | 0 <= i < |free| :: Given(free, c)[i] <==> free[i] || (i in owner && owner[i] == h)
  {
    hide FreeOk, ChainsOk, BuffersApart;
    HeadInRange(h, chains, owner, desc, ops, info, status, busy);
    FinishFree(free, owner, chains, desc, ops, info, status, busy, h);
    FinishChains(free, owner, chains, desc, ops, info, status, busy, h);
    FinishApart(chains, h);
  }

  lemma FinishApart(chains: map<nat, Chain>, h: nat)
    requires BuffersApart(chains)
    ensures BuffersApart(chains - {h})
  {
  }

  lemma FinishFree(free: seq<bool>, owner: map<nat, nat>, chains: map<nat, Chain>, desc: seq<Desc>,
                   ops: seq<(bool, nat)>, info: seq<nat>,
                   status: seq<nat>, busy: set<nat>, h: nat)
    requires FreeOk(free, owner, chains) && h in chains && ChainOk(h, chains[h], owner, desc, ops, info, status, busy)
             && |desc| == |free|
    ensures var c := chains[h];
            && !free[c.d0] && !free[c.d1] && !free[c.d2]
                && FreeOk(Given(free, c), owner - {c.d0, c.d1, c.d2}, chains - {h})
            && forall i | 0 <= i < |free| :: Given(free, c)[i] <==> free[i] || (i in owner && owner[i] == h)
  {
    var c := chains[h];
    var owner' := owner - {c.d0, c.d1, c.d2};
    forall i | i in owner
      ensures i < |free| && (owner[i] == h <==> i == c.d0 || i == c.d1 || i == c.d2) && OwnerOk(i, owner, chains) {
      assert OwnerOk(i, owner, chains);
    }
    forall i | i in owner' ensures OwnerOk(i, owner', chains - {h}) {
      assert OwnerOk(i, owner, chains);
    }
  }

  lemma FinishChains(free: seq<bool>, owner: map<nat, nat>, chains: map<nat, Chain>, desc: seq<Desc>,
                     ops: seq<(bool, nat)>, info: seq<nat>,
                     status: seq<nat>, busy: set<nat>, h: nat)
    requires FreeOk(free, owner, chains) && ChainsOk(chains, owner, desc, ops, info, status, busy) && h in chains
    requires ChainOk(h, chains[h], owner, desc, ops, info, status, busy)
    ensures var c := chains[h];
            ChainsOk(chains - {h}, owner - {c.d0, c.d1, c.d2}, Cleared(desc, c), ops, info[h := 0], status, busy)
  {
    hide FreeOk;
    var c := chains[h];
    var owner' := owner - {c.d0, c.d1, c.d2};
    forall g | g in chains - {h}
      ensures ChainOk(g, chains[g], owner', Cleared(desc, c), ops, info[h := 0], status, busy) {
      HeadInRange(g, chains, owner, desc, ops, info, status, busy);
      ChainFrame(g, chains[g], owner, desc, ops, info, status, busy, owner', Cleared(desc, c), ops, info[h := 0],
          status, busy);
    }
  }

  /** Exactly the chains of `ids` have been seen, and exactly their buffers released. */
  ghost predicate AreSeen(chains: map<nat, Chain>, busy: set<nat>, chains': map<nat, Chain>, busy': set<nat>,
                          ids: seq<nat>) {
    && chains'.Keys == chains.Keys
    && forall g | g in chains ::
         if g in ids then chains'[g] == chains[g].(phase := Seen) && chains[g].b !in busy'
         else chains'[g] == chains[g] && (chains[g].b in busy' <==> chains[g].b in busy)
  }

  lemma NoneSeen(chains: map<nat, Chain>, busy: set<nat>)
    ensures AreSeen(chains, busy, chains, busy, [])
  {
  }

  lemma SeenMore(chains: map<nat, Chain>, busy: set<nat>, c: map<nat, Chain>, y: set<nat>, c': map<nat, Chain>,
                 y': set<nat>,
                 ids: seq<nat>, id: nat)
    requires AreSeen(chains, busy, c, y, ids) && id in c && c' == c[id := c[id].(phase := Seen)] && y' == y - {c[id].b}
    requires forall g | g in c' && g != id :: c'[g].b != c'[id].b
    ensures AreSeen(chains, busy, c', y', ids + [id])
  {
  }

  class Driver {
    const n: nat                               // NUM
    ghost const m: nat                         // 2^16 / NUM
    var free: seq<bool>
    var desc: seq<Desc>
    var ops: seq<(bool, nat)>
    var info: seq<nat>                         // the buffer of a chain, by its head
    var status: seq<nat>
    var busy: set<nat>                         // the buffers with b->disk set
    var avail: seq<nat>
    var availIdx: nat
    var used: seq<nat>
    var usedIdx: nat                           // the device's count of completions
    var seenIdx: nat                           // disk.used_idx
    var lastAvail: nat                         // the device's place in the avail ring
    ghost var chains: map<nat, Chain>
    ghost var owner: map<nat, nat>
    ghost var published: seq<nat>              // heads published and not yet taken
    ghost var completed: seq<nat>              // heads completed and not yet seen
    ghost var taken: nat                       // how many heads the device has taken
    ghost var seen: nat                        // how many completions the driver has seen

    ghost predicate Sizes()
      reads this
    {
      0 < n < WRAP && Divides(n, WRAP, m) && |free| == n && |desc| == n && |ops| == n && |info| == n && |status| == n
          && |avail| == n && |used| == n
    }

    ghost predicate IndicesOk()
      reads this`availIdx, this`lastAvail, this`usedIdx, this`seenIdx, this`taken, this`seen, this`published,
            this`completed
    {
      && availIdx == Rem(taken + |published|, WRAP) && lastAvail == Rem(taken, WRAP)
      && usedIdx == Rem(seen + |completed|, WRAP) && seenIdx == Rem(seen, WRAP)
    }

    ghost predicate Valid()
      reads this
    {
      && Sizes() && Requests(free, owner, chains, desc, ops, info, status, busy) && Queues(published, completed, chains)
      && Queued(avail, taken, published) && Queued(used, seen, completed) && IndicesOk()
    }

    /** virtio_disk_init: every descriptor is free. */
    constructor (n: nat, ghost m: nat)
      requires Divides(n, WRAP, m)
      ensures Valid() && this.n == n && chains == map[] && busy == {}
    {
      this.n, this.m := n, m;
      free := seq(n, i => true);
      desc := seq(n, i => CLEAR);
      ops := seq(n, i => (false, 0));
      info, status, avail, used := seq(n, i => 0), seq(n, i => 0), seq(n, i => 0), seq(n, i => 0);
      busy, availIdx, usedIdx, seenIdx, lastAvail := {}, 0, 0, 0, 0;
      chains, owner, published, completed, taken, seen := map[], map[], [], [], 0, 0;
    }

    /** alloc_desc: the first free descriptor, or n. */
    method AllocDesc() returns (i: nat)
      modifies this`free
      ensures i <= |old(free)| && |free| == |old(free)|
      ensures i < |free| ==> old(free)[i] && free == old(free)[i := false] && forall j | 0 <= j < i :: !old(free)[j]
      ensures i == |free| ==> free == old(free) && forall j | 0 <= j < |free| :: !free[j]
    {
      i := 0;
      while i < |free|
        invariant 0 <= i <= |free| && free == old(free)
        invariant forall j | 0 <= j < i :: !free[j]
      {
        if free[i] {
          free := free[i := false];
          return;
        }
        i := i + 1;
      }
    }

    /** free_desc: panics if there is no such descriptor, or it is free already. */
    method FreeDesc(i: nat) returns (panic: bool)
      requires |desc| == |free|
      modifies this`free, this`desc
      ensures panic == (|old(free)| <= i || old(free)[i])
      ensures panic ==> free == old(free) && desc == old(desc)
      ensures !panic ==> free == old(free)[i := true] && desc == old(desc)[i := CLEAR]
    {
      if i >= |free| || free[i] {
        return true;
      }
      desc := desc[i := CLEAR];
      free := free[i := true];
      return false;
    }

    /** alloc3_desc: three distinct free descriptors, or none taken if there are not three. */
    method Alloc3() returns (ok: bool, d0: nat, d1: nat, d2: nat)
      requires |desc| == |free|
      modifies this`free, this`desc
      ensures |desc| == |free| == |old(free)|
      ensures ok ==> d0 < |free| && d1 < |free| && d2 < |free| && d0 != d1 && d0 != d2 && d1 != d2
      ensures ok ==>
              old(free)[d0] && old(free)[d1] && old(free)[d2] && free == Without(old(free), d0, d1, d2)
              && desc == old(desc)
      ensures !ok ==> free == old(free) && forall i | 0 <= i < |free| && !free[i] :: desc[i] == old(desc)[i]
      ensures !ok ==> AtMostTwo(free)
    {
      ok, d1, d2 := false, 0, 0;
      d0 := AllocDesc();
      if d0 == |free| {
        return;
      }
      d1 := AllocDesc();
      if d1 == |free| {
        var _ := FreeDesc(d0);
        assert free == old(free);
        return;
      }
      d2 := AllocDesc();
      if d2 == |free| {
        var _ := FreeDesc(d0);
        var _ := FreeDesc(d1);
        assert free == old(free);
        return;
      }
      ok := true;
    }

    /**
     The first half of virtio_disk_rw: allocate, format and publish a chain; false if
     it has to wait for descriptors.
     */
    method Submit(b: nat, write: bool, sector: nat) returns (ok: bool, ghost c: Chain)
      requires Valid() && b != 0 && NewBuffer(chains, b)
      modifies this
      ensures Valid() && taken == old(taken) && seen == old(seen) && completed == old(completed)
      ensures !ok ==> chains == old(chains) && owner == old(owner) && free == old(free) && busy == old(busy)
      ensures ok ==>
              c == Chain(c.d0, c.d1, c.d2, b, write, sector, Published) && c.d0 !in old(chains)
              && chains == old(chains)[c.d0 := c]
      ensures ok ==> published == old(published) + [c.d0] && busy == old(busy) + {b}
      ensures !ok ==> AtMostTwo(free)
    {
      hide FreeOk, ChainsOk, BuffersApart, Queues, Queued, Rem, Divides, AtMostTwo, OwnerOk, NewBuffer, NextIndex;
      c := Chain(0, 0, 0, 0, false, 0, Seen);
      ghost var free0, desc0 := free, desc;
      var d0, d1, d2;
      ok, d0, d1, d2 := Alloc3();
      if !ok {
        DescKept(free, owner, chains, desc0, desc, ops, info, status, busy);
        return;
      }
      c := Prepare(d0, d1, d2, b, write, sector, free0);
      Publish(d0);
    }

    /** The three descriptors taken from `was` become a chain of the buffer, ready to be published. */
    method Prepare(d0: nat, d1: nat, d2: nat, b: nat, write: bool, sector: nat, ghost was: seq<bool>)
      returns (ghost c: Chain)
      requires |was| == n && |desc| == n && |ops| == n && |info| == n && |status| == n
      requires Requests(was, owner, chains, desc, ops, info, status, busy) && Queues(published, completed, chains)
      requires d0 < n && d1 < n && d2 < n && d0 != d1 && d0 != d2 && d1 != d2 && was[d0] && was[d1] && was[d2]
      requires b != 0 && NewBuffer(chains, b)
      modifies this`ops, this`desc, this`status, this`busy, this`info, this`chains, this`owner
      ensures |desc| == n && |ops| == n && |info| == n && |status| == n && |published| < n
      ensures Requests(Without(was, d0, d1, d2), owner, chains, desc, ops, info, status, busy)
              && Queues(published + [d0], completed, chains)
      ensures c == Chain(d0, d1, d2, b, write, sector, Published) && d0 !in old(chains)
              && chains == old(chains)[d0 := c] && busy == old(busy) + {b}
    {
      hide Requests, Queues, DescWith, OwnerWith, Without, NewBuffer;
      c := Chain(d0, d1, d2, b, write, sector, Published);
      LaunchKeeps(was, owner, chains, desc, ops, info, status, busy, published, completed, c);
      Format(d0, d1, d2, b, write, sector);
      chains, owner := chains[d0 := c], OwnerWith(owner, c);
    }

    /** virtio_disk_rw's formatting of the three descriptors and the bookkeeping of the chain. */
    method Format(d0: nat, d1: nat, d2: nat, b: nat, write: bool, sector: nat)
      requires d0 < |desc| && d1 < |desc| && d2 < |desc| && d0 < |ops| && d0 < |status| && d0 < |info|
      modifies this`ops, this`desc, this`status, this`busy, this`info
      ensures ops == old(ops)[d0 := (write, sector)] && status == old(status)[d0 := 0xff] && info == old(info)[d0 := b]
              && busy == old(busy) + {b}
      ensures desc == DescWith(old(desc), Chain(d0, d1, d2, b, write, sector, Published))
    {
      ops := ops[d0 := (write, sector)];
      desc := desc[d0 := Desc(Op(d0), false, true, d1)];
      desc := desc[d1 := Desc(Data(b), !write, true, d2)];
      status := status[d0 := 0xff];
      desc := desc[d2 := Desc(Status(d0), true, false, 0)];
      busy := busy + {b};
      info := info[d0 := b];
    }

    /** Put a head into the avail ring, then let the device see it. */
    method Publish(h: nat)
      requires 0 < n && |avail| == n && Divides(n, WRAP, m) && IndicesOk() && Queued(avail, taken, published)
               && |published| < n
      modifies this`avail, this`availIdx, this`published
      ensures IndicesOk() && |avail| == n && Queued(avail, taken, published) && published == old(published) + [h]
    {
      hide Rem, Queued, Divides, NextIndex;
      Enqueue(avail, taken, published, h);
      IndexNext(taken + |published|, n, m);
      avail := avail[Rem(availIdx, n) := h];
      availIdx := NextIndex(availIdx);
      published := published + [h];
    }

    /** The device takes the next published head, and finds the chain as it was formatted. */
    method Take() returns (h: nat)
      requires Valid() && lastAvail != availIdx
      modifies this`lastAvail, this`chains, this`published, this`taken
      ensures Valid() && old(published) != [] && h == old(published)[0] && published == old(published)[1..]
      ensures h in old(chains) && chains == old(chains)[h := old(chains)[h].(phase := Taken)]
      ensures ChainOk(h, chains[h], owner, desc, ops, info, status, busy)
    {
      hide FreeOk, ChainsOk, BuffersApart, QueueOk, Queued, Rem, Divides, ChainOk, NextIndex;
      QueueFits(published, Published, chains, owner, desc, ops, info, status, busy);
      SameIndex(taken, taken + |published|);
      IndexNext(taken, n, m);
      Dequeue(avail, taken, published);
      h := avail[Rem(lastAvail, n)];
      LeavesQueue(published, completed, chains, h);
      PhaseKeeps(free, owner, chains, desc, ops, info, status, busy, h, Taken);
      lastAvail := NextIndex(lastAvail);
      chains := chains[h := chains[h].(phase := Taken)];
      published := published[1..];
      taken := taken + 1;
      HeadInRange(h, chains, owner, desc, ops, info, status, busy);
    }

    /** The device completes a chain it has taken: status 0, then a used-ring entry. */
    method Complete(h: nat)
      requires Valid() && h in chains && chains[h].phase == Taken
      modifies this`status, this`used, this`usedIdx, this`chains, this`completed
      ensures Valid() && completed == old(completed) + [h]
              && chains == old(chains)[h := old(chains)[h].(phase := Completed)]
    {
      hide Requests, Queues, Queued, Divides, IndicesOk;
      CompleteKeeps(free, owner, chains, desc, ops, info, status, busy, published, completed, h);
      status := status[h := 0];
      chains := chains[h := chains[h].(phase := Completed)];
      PutUsed(h);
    }

    /** The used ring gets one more entry. */
    method PutUsed(h: nat)
      requires 0 < n && |used| == n && Divides(n, WRAP, m) && IndicesOk() && Queued(used, seen, completed)
               && |completed| < n
      modifies this`used, this`usedIdx, this`completed
      ensures IndicesOk() && |used| == n && Queued(used, seen, completed) && completed == old(completed) + [h]
    {
      hide Rem, Queued, Divides, NextIndex;
      Enqueue(used, seen, completed, h);
      IndexNext(seen + |completed|, n, m);
      used := used[Rem(usedIdx, n) := h];
      usedIdx := NextIndex(usedIdx);
      completed := completed + [h];
    }

    /** virtio_disk_intr: every completion so far is seen, and exactly the buffers of those chains are released. */
    method Intr()
      requires Valid()
      modifies this`busy, this`seenIdx, this`chains, this`completed, this`seen
      ensures Valid() && completed == [] && seen == old(seen) + |old(completed)|
      ensures AreSeen(old(chains), old(busy), chains, busy, old(completed))
    {
      hide Requests, Queues, Queued, Rem, Divides, AreSeen, NextIndex;
      ghost var k := 0;
      NoneSeen(chains, busy);
      while seenIdx != usedIdx
        invariant Valid() && 0 <= k <= |old(completed)| && seen == old(seen) + k && completed == old(completed)[k..]
        invariant AreSeen(old(chains), old(busy), chains, busy, old(completed)[..k])
        decreases |completed|
      {
        ghost var c, y := chains, busy;
        See();
        assert old(completed)[..k + 1] == old(completed)[..k] + [old(completed)[k]];
        SeenMore(old(chains), old(busy), c, y, chains, busy, old(completed)[..k], old(completed)[k]);
        k := k + 1;
      }
      CompletedFits(free, owner, chains, desc, ops, info, status, busy, published, completed);
      SameIndex(seen, seen + |completed|);
      assert old(completed)[..k] == old(completed);
    }

    /** One round of the interrupt handler's loop. */
    method See()
      requires Valid() && seenIdx != usedIdx
      modifies this`busy, this`seenIdx, this`chains, this`completed, this`seen
      ensures Valid() && old(completed) != [] && completed == old(completed)[1..] && seen == old(seen) + 1
      ensures var id := old(completed)[0];
              id in old(chains) && chains == old(chains)[id := old(chains)[id].(phase := Seen)]
                                           && id !in completed && busy == old(busy) - {old(chains)[id].b}
      ensures forall g | g in chains && g != old(completed)[0] :: chains[g].b != chains[old(completed)[0]].b
    {
      hide Requests, Queues, Queued, Divides, IndicesOk;
      CompletedFits(free, owner, chains, desc, ops, info, status, busy, published, completed);
      ghost var q := completed;
      var id := TakeUsed();
      SeeKeeps(free, owner, chains, desc, ops, info, status, busy, published, q, id);
      assert status[id] == 0;
      var b := info[id];
      busy := busy - {b};
      chains := chains[id := chains[id].(phase := Seen)];
    }

    /** The driver takes the first entry of the used ring that it has not seen. */
    method TakeUsed() returns (id: nat)
      requires 0 < n < WRAP && |used| == n && Divides(n, WRAP, m) && IndicesOk() && Queued(used, seen, completed)
      requires seenIdx != usedIdx && |completed| <= n
      modifies this`seenIdx, this`completed, this`seen
      ensures old(completed) != [] && id == old(completed)[0] && completed == old(completed)[1..]
              && seen == old(seen) + 1
      ensures IndicesOk() && Queued(used, seen, completed)
    {
      hide Rem, Queued, Divides, NextIndex;
      SameIndex(seen, seen + |completed|);
      IndexNext(seen, n, m);
      Dequeue(used, seen, completed);
      id := used[Rem(seenIdx, n)];
      completed := completed[1..];
      seenIdx := NextIndex(seenIdx);
      seen := seen + 1;
    }

    /** The second half of virtio_disk_rw, once the buffer of the chain at h has been released. */
    method Finish(h: nat)
      requires Valid() && h in chains && chains[h].b !in busy
      modifies this`info, this`free, this`desc, this`chains, this`owner
      ensures Valid() && chains == old(chains) - {h}
      ensures forall i | 0 <= i < n :: free[i] <==> old(free)[i] || (i in old(owner) && old(owner)[i] == h)
    {
      hide Requests, Queues, Queued, Rem, Divides, Cleared, Given, IndicesOk;
      ghost var c := chains[h];
      FinishKeeps(free, owner, chains, desc, ops, info, status, busy, published, completed, h);
      info := info[h := 0];
      FreeChain(h, c);
      chains, owner := chains - {h}, owner - {c.d0, c.d1, c.d2};
      assert Requests(free, owner, chains, desc, ops, info, status, busy);
      assert Queues(published, completed, chains) && IndicesOk();
    }

    /** free_chain: follow the next fields, freeing each descriptor. */
    method FreeChain(h: nat, ghost c: Chain)
      requires |free| == |desc| && c.d0 < |desc| && c.d1 < |desc| && c.d2 < |desc| && c.d0 != c.d1 && c.d0 != c.d2
               && c.d1 != c.d2 && h == c.d0
      requires desc[c.d0].hasNext && desc[c.d0].next == c.d1 && desc[c.d1].hasNext && desc[c.d1].next == c.d2
               && !desc[c.d2].hasNext
      requires !free[c.d0] && !free[c.d1] && !free[c.d2]
      modifies this`free, this`desc
      ensures free == Given(old(free), c) && desc == Cleared(old(desc), c)
    {
      var i := h;
      ghost var k := 0;
      while true
        invariant 0 <= k < 3 && i == (if k == 0 then c.d0 else if k == 1 then c.d1 else c.d2)
        invariant free == (if k == 0 then old(free)
                  else if k == 1 then old(free)[c.d0 := true] else old(free)[c.d0 := true][c.d1 := true])
        invariant desc == (if k == 0 then old(desc)
                  else if k == 1 then old(desc)[c.d0 := CLEAR] else old(desc)[c.d0 := CLEAR][c.d1 := CLEAR])
        decreases 3 - k
      {
        var flag, nxt := desc[i].hasNext, desc[i].next;
        var panic := FreeDesc(i);
        assert !panic;
        if flag {
          i := nxt;
          k := k + 1;
        } else {
          break;
        }
      }
    }
  }
}
