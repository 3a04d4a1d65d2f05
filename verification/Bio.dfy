/**
 The buffer cache of kernel/bio.c.

 Buffers are numbered from 0; number n, one past the last, stands for the list
 head.  The methods are the atomic steps processes take: bget up to the wait
 for the buffer's sleep-lock, getting the lock, reading or writing the buffer
 while holding it, releasing it.  Processes may take them in any order their
 own protocol allows.
 */
module Bio {

  type Block = seq<int>

  type Key = (nat, nat)                        // device and block number

  datatype Buf = Buf(dev: nat, blockno: nat, valid: bool, refcnt: nat, data: Block) {
    function Key(): Key { (dev, blockno) }
  }

  // ---------- A circular doubly linked list ----------

  ghost predicate Distinct(c: seq<nat>) {
    forall i, j | 0 <= i < j < |c| :: c[i] != c[j]
  }

  function After(c: seq<nat>, i: nat): nat
    requires 0 < |c| && i <= |c|
  {
    if i < |c| then c[i] else c[0]
  }

  /** Element i and the one after it point at each other. */
  ghost predicate LinkAt(next: seq<nat>, prev: seq<nat>, c: seq<nat>, i: nat)
    requires i < |c| && c[i] < |next| && After(c, i + 1) < |prev|
  {
    next[c[i]] == After(c, i + 1) && prev[After(c, i + 1)] == c[i]
  }

  /** The circle c, which starts at the head, is what next and prev link. */
  ghost predicate Ring(next: seq<nat>, prev: seq<nat>, c: seq<nat>) {
    && 0 < |c| && Distinct(c) && |next| == |prev|
    && (forall i | 0 <= i < |c| :: c[i] < |next|)
    && (forall i | 0 <= i < |c| :: LinkAt(next, prev, c, i))
  }

  /** Taking buffer k of the ring out of it, as brelse does first. */
  lemma Unlink(next: seq<nat>, prev: seq<nat>, c: seq<nat>, k: nat)
    requires Ring(next, prev, c) && 1 <= k < |c|
    ensures var b := c[k];
            && next[b] < |prev| && prev[b] < |next|
            && Ring(next[prev[b] := next[b]], prev[next[b] := prev[b]], c[..k] + c[k + 1..])
  {
    assert LinkAt(next, prev, c, k - 1) && LinkAt(next, prev, c, k);
    var b := c[k];
    var next', prev', d := next[prev[b] := next[b]], prev[next[b] := prev[b]], c[..k] + c[k + 1..];
    assert forall i | 0 <= i < |d| :: d[i] == if i < k then c[i] else c[i + 1];
    forall i | 0 <= i < |d| ensures LinkAt(next', prev', d, i) {
      assert LinkAt(next, prev, c, if i < k then i else i + 1);
    }
  }

  /** Putting b in behind the head, as brelse does next. */
  lemma InsertFirst(next: seq<nat>, prev: seq<nat>, c: seq<nat>, b: nat)
    requires Ring(next, prev, c) && b !in c && b < |next|
    ensures var h := c[0];
            && next[h] < |prev|
            && Ring(next[b := next[h]][h := b], prev[b := h][next[h] := b], [h, b] + c[1..])
  {
    assert LinkAt(next, prev, c, 0);
    var h := c[0];
    var next', prev', d := next[b := next[h]][h := b], prev[b := h][next[h] := b], [h, b] + c[1..];
    assert forall i | 2 <= i < |d| :: d[i] == c[i - 1];
    forall i | 0 <= i < |d| ensures LinkAt(next', prev', d, i) {
      assert LinkAt(next, prev, c, if i < 2 then 0 else i - 1);
    }
  }

  // ---------- What the cache holds ----------

  /** Buffer b holds block k. */
  predicate Holds(buf: seq<Buf>, b: nat, k: Key) {
    b < |buf| && buf[b].Key() == k && buf[b].valid
  }

  /** What a reader of block k gets: the buffered contents, or the disk's. */
  ghost function View(buf: seq<Buf>, disk: map<Key, Block>, k: Key): Block
    requires k in disk
  {
    if exists b: nat :: Holds(buf, b, k) then
      var b: nat :| Holds(buf, b, k);
      buf[b].data
    else
      disk[k]
  }

  /** At most one buffer holds a given block of a device other than 0. */
  ghost predicate Unique(buf: seq<Buf>) {
    forall b, c | 0 <= b < c < |buf| && buf[b].dev != 0 :: buf[b].Key() != buf[c].Key()
  }

  lemma ViewHeld(buf: seq<Buf>, disk: map<Key, Block>, b: nat)
    requires Unique(buf) && b < |buf| && buf[b].dev != 0 && buf[b].valid && buf[b].Key() in disk
    ensures View(buf, disk, buf[b].Key()) == buf[b].data
  {
    assert Holds(buf, b, buf[b].Key());
  }

  lemma ViewNotHeld(buf: seq<Buf>, disk: map<Key, Block>, k: Key)
    requires k in disk && forall b | 0 <= b < |buf| :: buf[b].Key() == k ==> !buf[b].valid
    ensures View(buf, disk, k) == disk[k]
  {
  }

  /** A change to one buffer, and to the disk only at its block, is seen only at the keys it has or had. */
  lemma ViewElsewhere(buf: seq<Buf>, disk: map<Key, Block>, b: nat, x: Buf, disk': map<Key, Block>, k: Key)
    requires Unique(buf) && b < |buf| && k.0 != 0 && k in disk && k in disk' && disk'[k] == disk[k]
    requires k != buf[b].Key() && k != x.Key()
    ensures View(buf[b := x], disk', k) == View(buf, disk, k)
  {
    var buf' := buf[b := x];
    forall c: nat ensures Holds(buf', c, k) == Holds(buf, c, k) {
    }
    if exists c: nat :: Holds(buf, c, k) {
      var c: nat :| Holds(buf, c, k);
      assert Holds(buf', c, k);
      assert forall d: nat | Holds(buf, d, k) :: d == c;
      assert forall d: nat | Holds(buf', d, k) :: d == c;
    }
  }

  /** The bookkeeping of one buffer: references, lock, pin, and agreement with the disk when nobody is at work on it. */
  ghost predicate BufOk(x: Buf, clients: set<nat>, locked: bool, pinned: bool, disk: map<Key, Block>) {
    && x.refcnt == |clients| + (if pinned then 1 else 0)
    && (locked ==> clients != {})
    && (clients != {} || pinned ==> x.dev != 0)
    && (pinned ==> x.valid)
    && (x.dev != 0 ==> x.Key() in disk)
    && (x.dev != 0 && x.valid && !locked && !pinned ==> x.data == disk[x.Key()])
  }

  /** The list goes from the buffer left unused last to the one left unused first. */
  ghost predicate Recent(circle: seq<nat>, freed: seq<nat>, n: nat, clock: nat) {
    && |freed| == n && (forall b | 0 <= b < n :: freed[b] <= clock)
    && forall i, j | 1 <= i < j < |circle| && circle[i] < n && circle[j] < n :: freed[circle[j]] <= freed[circle[i]]
  }

  /** Buffer b has no references, and no other such buffer was left unused earlier. */
  ghost predicate LeastRecent(buf: seq<Buf>, freed: seq<nat>, b: nat) {
    && b < |buf| == |freed| && buf[b].refcnt == 0
    && forall c | 0 <= c < |buf| && buf[c].refcnt == 0 :: freed[b] <= freed[c]
  }

  /**
   What bget makes of the buffers: one more reference to the buffer of the block; if
   no buffer has it, the least recently used free one is to hold it.
   */
  ghost predicate Got(buf: seq<Buf>, freed: seq<nat>, b: nat, k: Key, buf': seq<Buf>) {
    && b < |buf|
    && if buf[b].Key() == k then buf' == buf[b := buf[b].(refcnt := buf[b].refcnt + 1)]
       else
         && LeastRecent(buf, freed, b) && (forall c | 0 <= c < |buf| :: buf[c].Key() != k)
         && buf' == buf[b := Buf(k.0, k.1, false, 1, buf[b].data)]
  }

  lemma IsUnused(buf: seq<Buf>, freed: seq<nat>, b: nat)
    requires LeastRecent(buf, freed, b)
    ensures b < |buf| && buf[b].refcnt == 0
  {
  }

  /** The unused buffer nearest to the end of the list. */
  lemma LastIsLeast(c: seq<nat>, buf: seq<Buf>, freed: seq<nat>, n: nat, clock: nat, i: nat)
    requires Recent(c, freed, n, clock) && |buf| == n && 1 <= i < |c| && c[i] < n && buf[c[i]].refcnt == 0
    requires (forall b | 0 <= b < n :: b in c) && c[0] == n
    requires forall j | i < j < |c| :: c[j] < n && 0 < buf[c[j]].refcnt
    ensures LeastRecent(buf, freed, c[i])
  {
    forall b | 0 <= b < n && buf[b].refcnt == 0 ensures freed[c[i]] <= freed[b] {
      assert b in c;
      var j :| 0 <= j < |c| && c[j] == b;
    }
  }

  /** Moving a buffer to the front, with the latest time, keeps the order. */
  lemma MovedIsRecent(c: seq<nat>, k: nat, freed: seq<nat>, n: nat, clock: nat)
    requires Recent(c, freed, n, clock) && Distinct(c) && 1 <= k < |c| && c[0] == n && c[k] < n
    ensures |freed| == n && Recent([n, c[k]] + (c[1..k] + c[k + 1..]), freed[c[k] := clock + 1], n, clock + 1)
  {
    var d, f := [n, c[k]] + (c[1..k] + c[k + 1..]), freed[c[k] := clock + 1];
    assert forall i | 2 <= i < |d| :: d[i] == if i <= k then c[i - 1] else c[i];
    forall i, j | 1 <= i < j < |d| && d[i] < n && d[j] < n ensures f[d[j]] <= f[d[i]] {
      if 1 < i {
        var i', j' := if i <= k then i - 1 else i, if j <= k then j - 1 else j;
        assert d[i] == c[i'] && d[j] == c[j'] && i' < j' && i' != k && j' != k;
      }
    }
  }

  class Cache {
    const n: nat                               // NBUF
    var buf: seq<Buf>
    var next: seq<nat>
    var prev: seq<nat>
    var disk: map<Key, Block>
    ghost var circle: seq<nat>
    ghost var clients: seq<set<nat>>           // processes between bget and the end of brelse
    ghost var holder: map<nat, nat>            // who holds a buffer's sleep-lock
    ghost var pinned: set<nat>                 // buffers of logged blocks
    ghost var clock: nat                       // how many times brelse has left a buffer unused
    ghost var freed: seq<nat>                  // when it last did so to each buffer; 0 if never

    ghost predicate ListOk()
      reads this
    {
      Ring(next, prev, circle) && |next| == n + 1 && circle[0] == n && forall b | 0 <= b < n :: b in circle
    }

    ghost predicate Valid()
      reads this
    {
      && |buf| == n && |clients| == n && ListOk() && Unique(buf) && Recent(circle, freed, n, clock)
      && (forall b | 0 <= b < n :: BufOk(buf[b], clients[b], b in holder, b in pinned, disk))
      && (forall b | b in holder :: b < n && holder[b] in clients[b])
      && (forall b | b in pinned :: b < n)
    }

    /** Every process sees the same contents of every block as before. */
    twostate predicate SameView()
      reads this
    {
      forall k: Key | k.0 != 0 && k in old(disk) :: k in disk && View(buf, disk, k) == View(old(buf), old(disk), k)
    }

    /** binit: all buffers in one list, none of them in use. */
    constructor (n: nat, disk: map<Key, Block>, data: Block)
      ensures Valid() && this.n == n && this.disk == disk && this.clients == seq(n, i => {}) && holder == map[]
              && pinned == {} && clock == 0
    {
      this.n := n;
      this.disk := disk;
      buf := seq(n, i => Buf(0, 0, false, 0, data));
      next := seq(n + 1, i => n);
      prev := seq(n + 1, i => n);
      circle := [n];
      clients, holder, pinned := seq(n, i => {}), map[], {};
      clock, freed := 0, seq(n, i => 0);
      new;
      var b := 0;
      assert LinkAt(next, prev, circle, 0);
      while b < n
        invariant 0 <= b <= n && Ring(next, prev, circle) && |next| == n + 1 && circle[0] == n
        invariant forall c | 0 <= c < n :: c in circle <==> c < b
        invariant this.n == n && this.disk == disk && buf == seq(n, i => Buf(0, 0, false, 0, data))
        invariant clients == seq(n, i => {}) && holder == map[] && pinned == {}
        invariant clock == 0 && freed == seq(n, i => 0)
      {
        InsertFirst(next, prev, circle, b);
        assert LinkAt(next, prev, circle, 0);
        ghost var d := circle;
        MoveFirst(b);
        circle := [n, b] + circle[1..];
        MovedMembers(d, [n, b] + d[1..], n, b);
        b := b + 1;
      }
    }

    /**
     bget, up to the wait for the sleep-lock: the buffer of the block, or the least
     recently used free one; n if there is none.
     */
    method Bget(p: nat, dev: nat, blockno: nat) returns (b: nat)
      requires Valid() && dev != 0 && (dev, blockno) in disk
      requires forall c | 0 <= c < n && buf[c].Key() == (dev, blockno) :: p !in clients[c]
      modifies this`buf, this`clients
      ensures Valid() && SameView() && b <= n
      ensures b == n <==> forall c | 0 <= c < n :: 0 < old(buf)[c].refcnt && old(buf)[c].Key() != (dev, blockno)
      ensures b == n ==> buf == old(buf) && clients == old(clients)
      ensures b < n ==> buf[b].Key() == (dev, blockno) && clients == old(clients)[b := old(clients)[b] + {p}]
      ensures b < n ==>
              buf == old(buf)[b := buf[b]]
              && (old(buf)[b].Key() == (dev, blockno) || (old(clients)[b] == {} && b !in pinned))
      ensures b < n ==> Got(old(buf), freed, b, (dev, blockno), buf)
    {
      hide Ring, Unique, BufOk, View, Recent, LeastRecent;
      b := Search(dev, blockno);
      if b < n {
        Refer(p, b);
        return;
      }
      b := Unused();
      if b < n {
        IsUnused(buf, freed, b);
        Recycle(p, b, dev, blockno);
      }
    }

    /** bget finds the block: one more reference. */
    method Refer(p: nat, b: nat)
      requires Valid() && b < n && buf[b].dev != 0 && p !in clients[b]
      modifies this`buf, this`clients
      ensures Valid() && SameView() && clients == old(clients)[b := old(clients)[b] + {p}]
      ensures buf == old(buf)[b := old(buf)[b].(refcnt := old(buf)[b].refcnt + 1)]
    {
      hide Ring, Unique, BufOk, View, Recent;
      RefMore(buf[b], clients[b], b in holder, b in pinned, disk, p);
      ViewSame(buf, disk, b, buf[b].(refcnt := buf[b].refcnt + 1));
      UniqueKept(buf, b, buf[b].(refcnt := buf[b].refcnt + 1));
      buf := buf[b := buf[b].(refcnt := buf[b].refcnt + 1)];
      clients := clients[b := clients[b] + {p}];
    }

    /** bget does not find the block: an unused buffer will hold it. */
    method Recycle(p: nat, b: nat, dev: nat, blockno: nat)
      requires Valid() && b < n && buf[b].refcnt == 0 && dev != 0 && (dev, blockno) in disk
      requires forall c | 0 <= c < n :: buf[c].Key() != (dev, blockno)
      modifies this`buf, this`clients
      ensures Valid() && SameView() && old(clients)[b] == {} && b !in pinned
      ensures clients == old(clients)[b := old(clients)[b] + {p}]
      ensures buf == old(buf)[b := Buf(dev, blockno, false, 1, old(buf)[b].data)]
    {
      hide Ring, Unique, BufOk, View, Recent;
      Recycled(buf[b], clients[b], b in holder, b in pinned, disk, p, dev, blockno);
      ViewRecycled(buf, disk, b, clients[b], b in holder, b in pinned, dev, blockno);
      UniqueRecycled(buf, b, dev, blockno);
      buf := buf[b := buf[b].(dev := dev, blockno := blockno, valid := false, refcnt := 1)];
      clients := clients[b := clients[b] + {p}];
    }

    /** The forward search of bget. */
    method Search(dev: nat, blockno: nat) returns (b: nat)
      requires Valid()
      ensures b <= n && (b < n ==> buf[b].Key() == (dev, blockno))
      ensures b == n ==> forall c | 0 <= c < n :: buf[c].Key() != (dev, blockno)
    {
      hide BufOk, Unique;
      b := next[n];
      ghost var i := 1;
      assert LinkAt(next, prev, circle, 0);
      while b != n
        invariant 1 <= i <= |circle| && b == After(circle, i)
        invariant forall j | 1 <= j < i :: circle[j] < n && buf[circle[j]].Key() != (dev, blockno)
        decreases |circle| - i
      {
        if buf[b].dev == dev && buf[b].blockno == blockno {
          return;
        }
        assert LinkAt(next, prev, circle, i);
        b := next[b];
        i := i + 1;
      }
      forall c | 0 <= c < n ensures buf[c].Key() != (dev, blockno) {
        assert c in circle;
        var j :| 0 <= j < |circle| && circle[j] == c;
      }
    }

    /** The backward search of bget. */
    method Unused() returns (b: nat)
      requires Valid()
      ensures b <= n && (b < n ==> LeastRecent(buf, freed, b))
      ensures b == n ==> forall c | 0 <= c < n :: 0 < buf[c].refcnt
    {
      hide BufOk, Unique;
      b := prev[n];
      ghost var i := |circle| - 1;
      assert LinkAt(next, prev, circle, |circle| - 1);
      while b != n
        invariant 0 <= i < |circle| && b == circle[i]
        invariant forall j | i < j < |circle| :: circle[j] < n && 0 < buf[circle[j]].refcnt
        decreases i
      {
        if buf[b].refcnt == 0 {
          LastIsLeast(circle, buf, freed, n, clock, i);
          return;
        }
        assert LinkAt(next, prev, circle, i - 1);
        b := prev[b];
        i := i - 1;
      }
      forall c | 0 <= c < n ensures 0 < buf[c].refcnt {
        assert c in circle;
        var j :| 0 <= j < |circle| && circle[j] == c;
      }
    }

    /** acquiresleep on a buffer got from bget. */
    method Lock(p: nat, b: nat)
      requires Valid() && b < n && p in clients[b] && b !in holder
      modifies this`holder
      ensures Valid() && holder == old(holder)[b := p]
    {
      holder := holder[b := p];
    }

    /** The rest of bread: read the block if the buffer is not valid. */
    method Fill(p: nat, b: nat)
      requires Valid() && b in holder && holder[b] == p
      modifies this`buf
      ensures Valid() && SameView() && buf == old(buf)[b := buf[b]]
      ensures buf[b].Key() == old(buf)[b].Key() && buf[b].valid && buf[b].Key() in disk
              && buf[b].data == View(buf, disk, buf[b].Key())
      ensures buf[b].data == if old(buf)[b].valid then old(buf)[b].data else disk[buf[b].Key()]
    {
      hide Ring, View, Recent;
      if !buf[b].valid {
        ghost var x := buf[b].(valid := true, data := disk[buf[b].Key()]);
        UniqueKept(buf, b, x);
        ViewFilled(buf, disk, b);
        buf := buf[b := buf[b].(data := disk[buf[b].Key()])];
        buf := buf[b := buf[b].(valid := true)];
        assert buf == old(buf)[b := x];
      } else {
        assert buf == buf[b := buf[b]];
      }
      ViewHeld(buf, disk, b);
    }

    /**
     The holder of a valid buffer changes its contents: this, and nothing else, changes
     what the block is seen to hold.
     */
    method Modify(p: nat, b: nat, data: Block)
      requires Valid() && b in holder && holder[b] == p && buf[b].valid
      modifies this`buf
      ensures Valid() && buf == old(buf)[b := old(buf)[b].(data := data)]
      ensures forall k: Key | k.0 != 0
              && k in disk :: View(buf, disk, k) == if k == buf[b].Key() then data else View(old(buf), disk, k)
    {
      hide Ring, View, Recent;
      UniqueKept(buf, b, buf[b].(data := data));
      ViewModified(buf, disk, b, data, disk);
      buf := buf[b := buf[b].(data := data)];
    }

    /** bwrite: the buffer's contents go to the disk. */
    method Bwrite(p: nat, b: nat)
      requires Valid() && b in holder && holder[b] == p && buf[b].valid
      modifies this`disk
      ensures Valid() && SameView() && disk == old(disk)[buf[b].Key() := buf[b].data]
    {
      hide Ring, View, Recent;
      ViewModified(buf, disk, b, buf[b].data, disk[buf[b].Key() := buf[b].data]);
      assert buf == buf[b := buf[b].(data := buf[b].data)];
      ViewHeld(buf, disk, b);
      forall c | 0 <= c < n && c != b
        ensures BufOk(buf[c], clients[c], c in holder, c in pinned, disk[buf[b].Key() := buf[b].data]) {
        assert buf[c].dev != 0 ==> buf[c].Key() != buf[b].Key();
      }
      disk := disk[buf[b].Key() := buf[b].data];
    }

    /** bpin: log_write keeps the buffer of a newly logged block in the cache. */
    method Bpin(p: nat, b: nat)
      requires Valid() && b in holder && holder[b] == p && buf[b].valid && b !in pinned
      modifies this`buf, this`pinned
      ensures Valid() && SameView() && pinned == old(pinned) + {b}
              && buf == old(buf)[b := old(buf)[b].(refcnt := old(buf)[b].refcnt + 1)]
    {
      hide Ring, View, Recent;
      UniqueKept(buf, b, buf[b].(refcnt := buf[b].refcnt + 1));
      ViewSame(buf, disk, b, buf[b].(refcnt := buf[b].refcnt + 1));
      buf := buf[b := buf[b].(refcnt := buf[b].refcnt + 1)];
      pinned := pinned + {b};
    }

    /** bunpin: install_trans has written the block to its home, still holding the buffer. */
    method Bunpin(p: nat, b: nat)
      requires Valid() && b in holder && holder[b] == p && b in pinned
      modifies this`buf, this`pinned
      ensures Valid() && SameView() && pinned == old(pinned) - {b}
              && buf == old(buf)[b := old(buf)[b].(refcnt := old(buf)[b].refcnt - 1)]
    {
      hide Ring, View, Recent;
      UniqueKept(buf, b, buf[b].(refcnt := buf[b].refcnt - 1));
      ViewSame(buf, disk, b, buf[b].(refcnt := buf[b].refcnt - 1));
      buf := buf[b := buf[b].(refcnt := buf[b].refcnt - 1)];
      pinned := pinned - {b};
    }

    /** brelse's releasesleep: the cache stays coherent exactly if what was changed has been logged or written. */
    method Unlock(p: nat, b: nat)
      requires Valid() && b in holder && holder[b] == p
      modifies this`holder
      ensures holder == old(holder) - {b}
      ensures b < n <= |buf| && buf[b].Key() in disk
      ensures Valid() <==> b in pinned || !buf[b].valid || buf[b].data == disk[buf[b].Key()]
    {
      hide Ring;
      holder := holder - {b};
    }

    /** The rest of brelse: drop the reference, and move an unused buffer to the front. */
    method Brelse(p: nat, b: nat)
      requires Valid() && b < n && p in clients[b] && (b in holder ==> holder[b] != p)
      modifies this`buf, this`clients, this`next, this`prev, this`circle, this`clock, this`freed
      ensures Valid() && SameView() && clients == old(clients)[b := old(clients)[b] - {p}]
      ensures buf == old(buf)[b := old(buf)[b].(refcnt := old(buf)[b].refcnt - 1)]
      ensures buf[b].refcnt == 0 ==> clock == old(clock) + 1 && freed == old(freed)[b := clock]
      ensures buf[b].refcnt != 0 ==> clock == old(clock) && freed == old(freed) && circle == old(circle)
    {
      hide Ring, View, Recent, Unique, BufOk;
      assert b in holder ==> holder[b] in clients[b] - {p};
      RefLess(buf[b], clients[b], b in holder, b in pinned, disk, p);
      UniqueKept(buf, b, buf[b].(refcnt := buf[b].refcnt - 1));
      ViewSame(buf, disk, b, buf[b].(refcnt := buf[b].refcnt - 1));
      buf := buf[b := buf[b].(refcnt := buf[b].refcnt - 1)];
      clients := clients[b := clients[b] - {p}];
      if buf[b].refcnt == 0 {
        MoveToFront(b);
      }
    }

    /** The list surgery of brelse. */
    method MoveToFront(b: nat)
      requires ListOk() && b < n && Recent(circle, freed, n, clock)
      modifies this`next, this`prev, this`circle, this`clock, this`freed
      ensures ListOk() && Recent(circle, freed, n, clock)
      ensures clock == old(clock) + 1 && freed == old(freed)[b := clock]
    {
      hide LinkAt, Recent;
      assert b in circle;
      ghost var k :| 0 <= k < |circle| && circle[k] == b;
      Unlink(next, prev, circle, k);
      ghost var d := circle[..k] + circle[k + 1..];
      NotSelf(next, prev, circle, k);
      prev := prev[next[b] := prev[b]];
      next := next[prev[b] := next[b]];
      CutMembers(circle, k);
      InsertFirst(next, prev, d, b);
      MoveFirst(b);
      MovedMembers(d, [n, b] + d[1..], n, b);
      MovedIsRecent(circle, k, freed, n, clock);
      assert d[1..] == circle[1..k] + circle[k + 1..];
      circle := [n, b] + d[1..];
      clock, freed := clock + 1, freed[b := clock + 1];
    }

    /** Link b in after the head. */
    method MoveFirst(b: nat)
      requires b < n && |next| == |prev| == n + 1 && next[n] < |prev|
      modifies this`next, this`prev
      ensures next == old(next)[b := old(next)[n]][n := b] && prev == old(prev)[b := n][old(next)[n] := b]
    {
      next := next[b := next[n]];
      prev := prev[b := n];
      prev := prev[next[n] := b];
      next := next[n := b];
    }
  }

  lemma MovedMembers(c: seq<nat>, d: seq<nat>, h: nat, b: nat)
    requires 0 < |c| && c[0] == h && d == [h, b] + c[1..]
    ensures forall x | x in d :: x == b || x in c
    ensures b in d && forall x | x in c :: x in d
  {
    assert c == [h] + c[1..];
    assert d == [h] + [b] + c[1..];
  }

  lemma RefMore(x: Buf, clients: set<nat>, locked: bool, pinned: bool, disk: map<Key, Block>, p: nat)
    requires BufOk(x, clients, locked, pinned, disk) && p !in clients && x.dev != 0
    ensures BufOk(x.(refcnt := x.refcnt + 1), clients + {p}, locked, pinned, disk)
  {
  }

  /** An unused buffer has no client, no lock and no pin. */
  lemma Recycled(x: Buf, clients: set<nat>, locked: bool, pinned: bool, disk: map<Key, Block>, p: nat, dev: nat,
                 blockno: nat)
    requires BufOk(x, clients, locked, pinned, disk) && x.refcnt == 0 && dev != 0 && (dev, blockno) in disk
    ensures clients == {} && !locked && !pinned
    ensures BufOk(x.(dev := dev, blockno := blockno, valid := false, refcnt := 1), clients + {p}, locked, pinned, disk)
  {
    assert clients + {p} == {p};
  }

  lemma UniqueKept(buf: seq<Buf>, b: nat, x: Buf)
    requires Unique(buf) && b < |buf| && x.Key() == buf[b].Key()
    ensures Unique(buf[b := x])
  {
  }

  lemma UniqueRecycled(buf: seq<Buf>, b: nat, dev: nat, blockno: nat)
    requires Unique(buf) && b < |buf| && forall c | 0 <= c < |buf| :: buf[c].Key() != (dev, blockno)
    ensures Unique(buf[b := buf[b].(dev := dev, blockno := blockno, valid := false, refcnt := 1)])
  {
  }

  /** Changing a buffer's reference count is not seen. */
  lemma ViewSame(buf: seq<Buf>, disk: map<Key, Block>, b: nat, x: Buf)
    requires Unique(buf) && b < |buf| && x == buf[b].(refcnt := x.refcnt)
    ensures forall k: Key | k.0 != 0 && k in disk :: View(buf[b := x], disk, k) == View(buf, disk, k)
  {
    forall k: Key | k.0 != 0 && k in disk ensures View(buf[b := x], disk, k) == View(buf, disk, k) {
      var buf' := buf[b := x];
      forall c: nat ensures Holds(buf', c, k) == Holds(buf, c, k) {
      }
      if exists c: nat :: Holds(buf, c, k) {
        var c: nat :| Holds(buf, c, k);
        assert Holds(buf', c, k);
        assert forall d: nat | Holds(buf, d, k) :: d == c;
        assert forall d: nat | Holds(buf', d, k) :: d == c;
      }
    }
  }

  /** Recycling an unused buffer loses nothing: its contents are on the disk. */
  lemma ViewRecycled(buf: seq<Buf>, disk: map<Key, Block>, b: nat, clients: set<nat>, locked: bool, pinned: bool,
                     dev: nat, blockno: nat)
    requires Unique(buf) && b < |buf| && BufOk(buf[b], clients, locked, pinned, disk) && buf[b].refcnt == 0
    requires dev != 0 && forall c | 0 <= c < |buf| :: buf[c].Key() != (dev, blockno)
    ensures var x := buf[b].(dev := dev, blockno := blockno, valid := false, refcnt := 1);
            forall k: Key | k.0 != 0 && k in disk :: View(buf[b := x], disk, k) == View(buf, disk, k)
  {
    var x := buf[b].(dev := dev, blockno := blockno, valid := false, refcnt := 1);
    forall k: Key | k.0 != 0 && k in disk ensures View(buf[b := x], disk, k) == View(buf, disk, k) {
      if k == (dev, blockno) {
        ViewNotHeld(buf, disk, k);
        ViewNotHeld(buf[b := x], disk, k);
      } else if k == buf[b].Key() {
        ViewNotHeld(buf[b := x], disk, k);
        if buf[b].valid {
          ViewHeld(buf, disk, b);
        } else {
          ViewNotHeld(buf, disk, k);
        }
      } else {
        ViewElsewhere(buf, disk, b, x, disk, k);
      }
    }
  }

  lemma RefLess(x: Buf, clients: set<nat>, locked: bool, pinned: bool, disk: map<Key, Block>, p: nat)
    requires BufOk(x, clients, locked, pinned, disk) && p in clients && (locked ==> clients - {p} != {})
    ensures 0 < x.refcnt && BufOk(x.(refcnt := x.refcnt - 1), clients - {p}, locked, pinned, disk)
  {
    assert |clients - {p}| == |clients| - 1;
  }

  lemma ViewFilled(buf: seq<Buf>, disk: map<Key, Block>, b: nat)
    requires Unique(buf) && b < |buf| && !buf[b].valid && buf[b].dev != 0 && buf[b].Key() in disk
    ensures var x := buf[b].(valid := true, data := disk[buf[b].Key()]);
            forall k: Key | k.0 != 0 && k in disk :: View(buf[b := x], disk, k) == View(buf, disk, k)
  {
    var x := buf[b].(valid := true, data := disk[buf[b].Key()]);
    UniqueKept(buf, b, x);
    forall k: Key | k.0 != 0 && k in disk ensures View(buf[b := x], disk, k) == View(buf, disk, k) {
      if k == buf[b].Key() {
        assert forall c | 0 <= c < |buf| && buf[c].Key() == k :: c == b;
        ViewNotHeld(buf, disk, k);
        ViewHeld(buf[b := x], disk, b);
      } else {
        ViewElsewhere(buf, disk, b, x, disk, k);
      }
    }
  }

  lemma ViewModified(buf: seq<Buf>, disk: map<Key, Block>, b: nat, data: Block, disk': map<Key, Block>)
    requires Unique(buf) && b < |buf| && buf[b].valid && buf[b].dev != 0 && disk'.Keys == disk.Keys
             && buf[b].Key() in disk
    requires forall k: Key | k in disk && k != buf[b].Key() :: disk'[k] == disk[k]
    ensures forall k: Key | k.0 != 0
            && k in disk ::
            View(buf[b := buf[b].(data := data)], disk', k) == if k == buf[b].Key() then data else View(buf, disk, k)
  {
    var x := buf[b].(data := data);
    UniqueKept(buf, b, x);
    forall k: Key | k.0 != 0 && k in disk
      ensures View(buf[b := x], disk', k) == if k == buf[b].Key() then data else View(buf, disk, k) {
      if k == buf[b].Key() {
        ViewHeld(buf[b := x], disk', b);
      } else {
        ViewElsewhere(buf, disk, b, x, disk', k);
      }
    }
  }

  lemma NotSelf(next: seq<nat>, prev: seq<nat>, c: seq<nat>, k: nat)
    requires Ring(next, prev, c) && 1 <= k < |c|
    ensures next[c[k]] != c[k]
  {
    assert LinkAt(next, prev, c, k);
  }

  lemma CutMembers(c: seq<nat>, k: nat)
    requires 1 <= k < |c| && Distinct(c)
    ensures var d := c[..k] + c[k + 1..]; d[0] == c[0] && c[k] !in d && forall x | x in c && x != c[k] :: x in d
  {
    assert c == c[..k] + [c[k]] + c[k + 1..];
  }
}
