/**
 The log of kernel/log.c on top of the buffer cache of kernel/bio.c: what
 log_write, write_log and install_trans do with buffers, against the block writes
 of module RedoLog.

 A logged block's buffer is pinned, so that its contents are those that readers
 see; `Pending` is these contents.  Other processes may hold any buffers but those
 of the blocks that are copied, for whose locks bread would wait.
 */
module LogCache {
  import opened RedoLog
  import Bio
  import LogObject

  // ---------- What a device's blocks are ----------

  /** The blocks of device d on the disk. */
  function DiskOf(disk: map<Bio.Key, Block>, d: nat): Disk {
    map k | k in disk && k.0 == d :: k.1 := disk[k]
  }

  /** Writes to device d. */
  function Issue(disk: map<Bio.Key, Block>, d: nat, ws: seq<Write>): map<Bio.Key, Block> {
    if ws == [] then disk
    else var last := ws[|ws| - 1]; Issue(disk, d, ws[..|ws| - 1])[(d, last.addr) := last.data]
  }

  lemma {:induction false} IssueIsApply(disk: map<Bio.Key, Block>, d: nat, ws: seq<Write>)
    ensures DiskOf(Issue(disk, d, ws), d) == Apply(DiskOf(disk, d), ws)
  {
    if ws != [] {
      var most, last := ws[..|ws| - 1], ws[|ws| - 1];
      IssueIsApply(disk, d, most);
      DiskOfUpdate(Issue(disk, d, most), d, last.addr, last.data);
    }
  }

  lemma DiskOfUpdate(disk: map<Bio.Key, Block>, d: nat, a: nat, data: Block)
    ensures DiskOf(disk[(d, a) := data], d) == DiskOf(disk, d)[a := data]
  {
    var after, want := DiskOf(disk[(d, a) := data], d), DiskOf(disk, d)[a := data];
    forall x ensures x in after <==> x in want {
      assert x in after <==> (d, x) in disk[(d, a) := data];
      assert x in DiskOf(disk, d) <==> (d, x) in disk;
    }
    forall x | x in after ensures after[x] == want[x] {
      assert (d, x) in disk[(d, a) := data];
    }
  }

  lemma IssueSnoc(disk: map<Bio.Key, Block>, d: nat, ws: seq<Write>, k: nat)
    requires k < |ws|
    ensures Issue(disk, d, ws[..k + 1]) == Issue(disk, d, ws[..k])[(d, ws[k].addr) := ws[k].data]
  {
    assert ws[..k + 1][..k] == ws[..k];
  }

  // ---------- Logged blocks are pinned ----------

  /** The pinned buffers are exactly those of the listed blocks. */
  ghost predicate Pins(buf: seq<Bio.Buf>, pinned: set<nat>, d: nat, lh: seq<nat>) {
    && (forall b | b in pinned :: b < |buf| && buf[b].dev == d && buf[b].blockno in lh)
    && (forall x | x in lh :: IsPinned(buf, pinned, (d, x)))
  }

  ghost predicate IsPinned(buf: seq<Bio.Buf>, pinned: set<nat>, k: Bio.Key) {
    exists b :: b in pinned && b < |buf| && buf[b].Key() == k
  }

  /** Every buffer that is pinned keeps its block. */
  lemma PinsKept(buf: seq<Bio.Buf>, buf': seq<Bio.Buf>, pinned: set<nat>, d: nat, lh: seq<nat>)
    requires Pins(buf, pinned, d, lh) && |buf'| == |buf|
    requires forall b | b in pinned && b < |buf| :: buf'[b].Key() == buf[b].Key()
    ensures Pins(buf', pinned, d, lh)
  {
    forall x | x in lh ensures IsPinned(buf', pinned, (d, x)) {
      var b :| b in pinned && b < |buf| && buf[b].Key() == (d, x);
      assert buf'[b].Key() == (d, x);
    }
  }

  /** The contents that readers see of the listed blocks. */
  ghost function Pending(buf: seq<Bio.Buf>, disk: map<Bio.Key, Block>, d: nat, lh: seq<nat>): (r: Disk)
    requires forall x | x in lh :: (d, x) in disk
    ensures forall x :: x in r <==> x in lh
  {
    map x | x in lh :: Bio.View(buf, disk, (d, x))
  }

  /**
   log_write of the buffer b, which the caller holds: its block is listed, and its
   buffer is pinned, once.
   */
  method LogWrite(c: Bio.Cache, p: nat, b: nat, lh: seq<nat>) returns (lh': seq<nat>)
    requires c.Valid() && b in c.holder && c.holder[b] == p && b < |c.buf| && c.buf[b].valid
    requires Pins(c.buf, c.pinned, c.buf[b].dev, lh)
    modifies c`buf, c`pinned
    ensures c.Valid() && c.SameView() && lh' == LogObject.Absorb(lh, c.buf[b].blockno)
    ensures b < |c.buf| == |old(c.buf)| && c.buf[b].Key() == old(c.buf)[b].Key() && c.buf[b].data == old(c.buf)[b].data
    ensures Pins(c.buf, c.pinned, c.buf[b].dev, lh')
  {
    hide Bio.View, Bio.Ring, Bio.BufOk;
    var x := c.buf[b].blockno;
    ghost var d := c.buf[b].dev;
    var i := 0;
    while i < |lh| && lh[i] != x
      invariant 0 <= i <= |lh| && x !in lh[..i]
    {
      i := i + 1;
    }
    if i == |lh| {
      assert lh[..i] == lh;
      assert b !in c.pinned;
      lh' := lh + [x];
      c.Bpin(p, b);
      PinsMore(old(c.buf), c.buf, old(c.pinned), d, lh, b);
    } else {
      lh' := lh;
      Unpinned(c);
    }
  }

  twostate lemma Unpinned(c: Bio.Cache)
    requires unchanged(c)
    ensures c.SameView()
  {
  }

  lemma PinsMore(buf: seq<Bio.Buf>, buf': seq<Bio.Buf>, pinned: set<nat>, d: nat, lh: seq<nat>, b: nat)
    requires Pins(buf, pinned, d, lh) && b < |buf| && buf[b].dev == d
    requires buf' == buf[b := buf[b].(refcnt := buf[b].refcnt + 1)]
    ensures Pins(buf', pinned + {b}, d, lh + [buf[b].blockno])
  {
    forall x | x in lh + [buf[b].blockno] ensures IsPinned(buf', pinned + {b}, (d, x)) {
      if x in lh {
        var c :| c in pinned && c < |buf| && buf[c].Key() == (d, x);
        assert buf'[c].Key() == (d, x);
      } else {
        assert buf'[b].Key() == (d, x);
      }
    }
  }

  // ---------- bread and brelse ----------

  /** Readers see the same. */
  ghost predicate Same(buf: seq<Bio.Buf>, disk: map<Bio.Key, Block>, buf': seq<Bio.Buf>, disk': map<Bio.Key, Block>) {
    forall k: Bio.Key | k.0 != 0 && k in disk :: k in disk' && Bio.View(buf', disk', k) == Bio.View(buf, disk, k)
  }

  /** Buffers that are pinned, or in use, keep their blocks. */
  ghost predicate SameBlocks(c: Bio.Cache, buf: seq<Bio.Buf>, clients: seq<set<nat>>, pinned: set<nat>)
    reads c
  {
    KeepBlocks(c.buf, buf, clients, pinned)
  }

  ghost predicate KeepBlocks(buf': seq<Bio.Buf>, buf: seq<Bio.Buf>, clients: seq<set<nat>>, pinned: set<nat>) {
    && |buf'| == |buf| == |clients|
    && forall b | 0 <= b < |buf| && (b in pinned || clients[b] != {}) :: buf'[b].Key() == buf[b].Key()
  }

  lemma KeepThenSame(buf1: seq<Bio.Buf>, buf2: seq<Bio.Buf>, buf: seq<Bio.Buf>, clients: seq<set<nat>>,
                     pinned: set<nat>)
    requires KeepBlocks(buf1, buf, clients, pinned) && SameKeys(buf1, buf2)
    ensures KeepBlocks(buf2, buf, clients, pinned)
  {
  }

  ghost predicate Uses(c: Bio.Cache, p: nat, k: Bio.Key)
    reads c
  {
    exists b :: 0 <= b < |c.buf| == |c.clients| && c.buf[b].Key() == k && p in c.clients[b]
  }

  /** bread: the locked buffer of block x, with what readers see of it; n if there is no buffer. */
  method Bread(c: Bio.Cache, p: nat, d: nat, x: nat) returns (b: nat)
    requires c.Valid() && d != 0 && (d, x) in c.disk && !Uses(c, p, (d, x))
    requires NotHeld(c.buf, c.holder, (d, x))
    modifies c`buf, c`clients, c`holder
    ensures c.Valid() && b <= c.n && SameBlocks(c, old(c.buf), old(c.clients), c.pinned)
    ensures Same(old(c.buf), c.disk, c.buf, c.disk)
    ensures b == c.n ==>
            c.clients == old(c.clients) && AllUsed(c.clients, c.pinned) && !IsPinned(old(c.buf), c.pinned, (d, x))
    ensures b < c.n ==> b !in old(c.holder) && c.holder == old(c.holder)[b := p]
    ensures b < c.n ==> p !in old(c.clients)[b] && c.clients == old(c.clients)[b := old(c.clients)[b] + {p}]
    ensures b < c.n ==> c.buf[b].Key() == (d, x) && c.buf[b].valid && c.buf == old(c.buf)[b := c.buf[b]]
    ensures b < c.n ==> c.buf[b].data == Bio.View(old(c.buf), c.disk, (d, x))
    ensures b < c.n ==> b in c.pinned || c.buf[b].data == c.disk[(d, x)]
  {
    hide Bio.View, Bio.Ring, Bio.BufOk, Bio.Unique, Bio.Recent, Bio.Got;
    NotUsing(c, p, (d, x));
    ghost var buf0 := c.buf;
    b := c.Bget(p, d, x);
    ghost var buf1 := c.buf;
    assert Same(buf0, c.disk, buf1, c.disk);
    if b == c.n {
      InUse(c);
      return;
    }
    NotLocked(c, b, old(c.buf), old(c.clients), (d, x));
    Clean(c, b);
    c.Lock(p, b);
    c.Fill(p, b);
    assert Same(buf1, c.disk, c.buf, c.disk);
    SameChain(buf0, c.disk, buf1, c.disk, c.buf, c.disk);
  }

  /** Every buffer is pinned or has users. */
  ghost predicate AllUsed(clients: seq<set<nat>>, pinned: set<nat>) {
    forall b | 0 <= b < |clients| :: b in pinned || clients[b] != {}
  }

  lemma InUse(c: Bio.Cache)
    requires c.Valid() && forall b | 0 <= b < c.n :: 0 < c.buf[b].refcnt
    ensures AllUsed(c.clients, c.pinned)
  {
    hide Bio.Ring, Bio.Unique;
  }

  lemma NotUsing(c: Bio.Cache, p: nat, k: Bio.Key)
    requires c.Valid() && !Uses(c, p, k)
    ensures forall b | 0 <= b < c.n && c.buf[b].Key() == k :: p !in c.clients[b]
  {
    hide Bio.Ring, Bio.BufOk, Bio.Unique;
  }

  lemma NotLocked(c: Bio.Cache, b: nat, buf: seq<Bio.Buf>, clients: seq<set<nat>>, k: Bio.Key)
    requires c.Valid() && b < c.n == |buf| == |clients| && c.clients[b] != {}
    requires forall a | a in c.holder && a < |buf| :: buf[a].Key() != k
    requires forall a | a in c.holder && a < |clients| :: clients[a] != {}
    requires buf[b].Key() == k || clients[b] == {}
    ensures b !in c.holder
  {
    hide Bio.Ring, Bio.BufOk, Bio.Unique;
  }

  /** A buffer nobody has locked is pinned, or as good as the disk. */
  lemma Clean(c: Bio.Cache, b: nat)
    requires c.Valid() && b < c.n && b !in c.holder && c.buf[b].dev != 0
    ensures c.buf[b].Key() in c.disk
    ensures c.buf[b].valid ==> b in c.pinned || c.buf[b].data == c.disk[c.buf[b].Key()]
  {
    hide Bio.Ring, Bio.Unique;
  }

  lemma SameChain(buf: seq<Bio.Buf>, disk: map<Bio.Key, Block>, buf1: seq<Bio.Buf>, disk1: map<Bio.Key, Block>,
                  buf2: seq<Bio.Buf>, disk2: map<Bio.Key, Block>)
    requires Same(buf, disk, buf1, disk1) && Same(buf1, disk1, buf2, disk2)
    ensures Same(buf, disk, buf2, disk2)
  {
    hide Bio.View;
  }

  /** brelse of a buffer whose changes, if any, are pinned or on the disk. */
  method Release(c: Bio.Cache, p: nat, b: nat)
    requires c.Valid() && b in c.holder && c.holder[b] == p && b < |c.buf| && c.buf[b].Key() in c.disk
    requires b in c.pinned || c.buf[b].data == c.disk[c.buf[b].Key()]
    modifies c`buf, c`clients, c`holder, c`next, c`prev, c`circle, c`clock, c`freed
    ensures c.Valid() && b < |old(c.clients)| && c.holder == old(c.holder) - {b}
    ensures c.clients == old(c.clients)[b := old(c.clients)[b] - {p}]
    ensures Same(old(c.buf), c.disk, c.buf, c.disk) && SameBuffers(old(c.buf), c.buf)
  {
    hide Bio.View, Bio.Ring, Bio.BufOk, Bio.Unique, Bio.Recent, Bio.Got;
    c.Unlock(p, b);
    Referenced(c, b);
    c.Brelse(p, b);
  }

  lemma Referenced(c: Bio.Cache, b: nat)
    requires c.Valid() && b < c.n && c.clients[b] != {}
    ensures 0 < c.buf[b].refcnt
  {
    hide Bio.Ring, Bio.Unique;
    assert |c.clients[b]| != 0;
  }

  /** Blocks, validity and contents of all buffers are the same; reference counts may differ. */
  ghost predicate SameBuffers(buf: seq<Bio.Buf>, buf': seq<Bio.Buf>) {
    && |buf'| == |buf|
    && forall b | 0 <= b < |buf| :: SameBuffer(buf[b], buf'[b])
  }

  predicate SameBuffer(x: Bio.Buf, y: Bio.Buf) {
    y == x.(refcnt := y.refcnt)
  }

  // ---------- Copying a block ----------

  /** No process holds the buffer of block k. */
  ghost predicate NotHeld(buf: seq<Bio.Buf>, holder: map<nat, nat>, k: Bio.Key) {
    forall b | b in holder && b < |buf| :: buf[b].Key() != k
  }

  /** Every buffer but one is pinned or has users. */
  ghost predicate AllButOne(clients: seq<set<nat>>, pinned: set<nat>) {
    exists a: nat :: AllBut(clients, pinned, a)
  }

  ghost predicate AllBut(clients: seq<set<nat>>, pinned: set<nat>, a: nat) {
    forall b | 0 <= b < |clients| && b != a :: b in pinned || clients[b] != {}
  }

  /** bread of two blocks, one after the other. */
  method Pair(c: Bio.Cache, p: nat, d: nat, x: nat, y: nat) returns (panic: bool, a: nat, b: nat)
    requires c.Valid() && NoUse(c.clients, p) && d != 0 && x != y && (d, x) in c.disk && (d, y) in c.disk
    requires NotHeld(c.buf, c.holder, (d, x)) && NotHeld(c.buf, c.holder, (d, y))
    modifies c`buf, c`clients, c`holder
    ensures !panic ==> c.Valid() && a < c.n && b < c.n && a != b && a !in old(c.holder) && b !in old(c.holder)
                       && c.holder == old(c.holder)[a := p][b := p]
    ensures !panic ==> Got(c, a, (d, x)) && Got(c, b, (d, y)) && a < |old(c.clients)| && b < |old(c.clients)|
    ensures !panic ==> c.clients == old(c.clients)[a := old(c.clients)[a] + {p}][b := old(c.clients)[b] + {p}]
    ensures !panic ==> Same(old(c.buf), c.disk, c.buf, c.disk) && SameBlocks(c, old(c.buf), old(c.clients), c.pinned)
    ensures panic ==> AllButOne(old(c.clients), c.pinned)
    ensures panic && IsPinned(old(c.buf), c.pinned, (d, y)) ==> AllUsed(old(c.clients), c.pinned)
  {
    hide Bio.View, Bio.Ring, Bio.BufOk, Bio.Unique, IsPinned, AllUsed, AllButOne;
    ghost var buf0, clients0, holder0 := c.buf, c.clients, c.holder;
    HoldersUse(c);
    assert !Uses(c, p, (d, x));
    b := 0;
    a := Bread(c, p, d, x);
    if a == c.n {
      UsedIsAllBut(clients0, clients0, c.pinned, a, p);
      return true, a, b;
    }
    ghost var buf1, clients1 := c.buf, c.clients;
    PinKept(buf0, buf1, c.pinned, (d, y));
    HeldMore(c, buf0, clients0, holder0, (d, y), a, p);
    OneUse(c, p, (d, y), a, clients0);
    b := Bread(c, p, d, y);
    if b == c.n {
      UsedIsAllBut(clients0, clients1, c.pinned, a, p);
      return true, a, b;
    }
    SameChain(buf0, c.disk, buf1, c.disk, c.buf, c.disk);
    SeenAs(buf0, buf1, c.disk, (d, y));
    SeenAs(buf1, c.buf, c.disk, (d, x));
    SeenAs(buf1, c.buf, c.disk, (d, y));
    return false, a, b;
  }

  lemma UsedIsAllBut(clients: seq<set<nat>>, clients': seq<set<nat>>, pinned: set<nat>, a: nat, p: nat)
    requires AllUsed(clients', pinned)
             && (clients' == clients || (a < |clients| && clients' == clients[a := clients[a] + {p}]))
    ensures AllButOne(clients, pinned)
  {
    assert forall b | 0 <= b < |clients| && b != a :: clients'[b] == clients[b];
    assert AllBut(clients, pinned, a);
  }

  /** Who holds a buffer uses it. */
  lemma HoldersUse(c: Bio.Cache)
    requires c.Valid()
    ensures |c.clients| == |c.buf| == c.n && forall b | b in c.holder :: b < c.n && c.clients[b] != {}
  {
    hide Bio.Ring, Bio.Unique, Bio.BufOk;
  }

  lemma HeldMore(c: Bio.Cache, buf: seq<Bio.Buf>, clients: seq<set<nat>>, holder: map<nat, nat>, k: Bio.Key, a: nat,
                 p: nat)
    requires SameBlocks(c, buf, clients, c.pinned) && NotHeld(buf, holder, k) && c.holder == holder[a := p]
    requires a < |c.buf| && c.buf[a].Key() != k && forall b | b in holder :: b < |buf| && clients[b] != {}
    ensures NotHeld(c.buf, c.holder, k)
  {
  }

  /** Buffers in use keep their blocks, so what nobody held nobody holds. */
  lemma HeldKept(c: Bio.Cache, buf: seq<Bio.Buf>, clients: seq<set<nat>>, pinned: set<nat>)
    requires SameBlocks(c, buf, clients, pinned) && forall b | b in c.holder :: b < |buf| && clients[b] != {}
    ensures forall k | NotHeld(buf, c.holder, k) :: NotHeld(c.buf, c.holder, k)
  {
  }

  ghost predicate NoUse(clients: seq<set<nat>>, p: nat) {
    forall b | 0 <= b < |clients| :: p !in clients[b]
  }

  /** Buffer b is valid, holds block k, and has what readers see of it; it may be released. */
  ghost predicate Got(c: Bio.Cache, b: nat, k: Bio.Key)
    reads c
  {
    && b < |c.buf| && c.buf[b].Key() == k && c.buf[b].valid && k in c.disk
        && c.buf[b].data == Bio.View(c.buf, c.disk, k)
    && (b in c.pinned || c.buf[b].data == c.disk[k])
  }

  lemma PinKept(buf: seq<Bio.Buf>, buf': seq<Bio.Buf>, pinned: set<nat>, k: Bio.Key)
    requires |buf'| == |buf| && forall b | 0 <= b < |buf| && b in pinned :: buf'[b].Key() == buf[b].Key()
    ensures IsPinned(buf, pinned, k) ==> IsPinned(buf', pinned, k)
  {
  }

  lemma OneUse(c: Bio.Cache, p: nat, k: Bio.Key, a: nat, clients: seq<set<nat>>)
    requires a < |c.buf| == |c.clients| == |clients| && c.buf[a].Key() != k
             && forall b | 0 <= b < |clients| :: p !in clients[b]
    requires c.clients == clients[a := clients[a] + {p}]
    ensures !Uses(c, p, k)
  {
  }

  lemma SeenAs(buf: seq<Bio.Buf>, buf': seq<Bio.Buf>, disk: map<Bio.Key, Block>, k: Bio.Key)
    requires Same(buf, disk, buf', disk) && k in disk && k.0 != 0
    ensures Bio.View(buf', disk, k) == Bio.View(buf, disk, k)
  {
  }

  /** Readers see `data` in block x, and all else as before. */
  ghost predicate SeesChange(buf: seq<Bio.Buf>, disk: map<Bio.Key, Block>, buf': seq<Bio.Buf>,
                             disk': map<Bio.Key, Block>,
                             x: Bio.Key, data: Block)
  {
    forall k: Bio.Key | k.0 != 0 && k in disk ::
      k in disk' && Bio.View(buf', disk', k) == if k == x then data else Bio.View(buf, disk, k)
  }

  lemma ChangeBetween(b0: seq<Bio.Buf>, d0: map<Bio.Key, Block>, b1: seq<Bio.Buf>, d1: map<Bio.Key, Block>,
                      b2: seq<Bio.Buf>, d2: map<Bio.Key, Block>, b3: seq<Bio.Buf>, d3: map<Bio.Key, Block>, x: Bio.Key,
                          data: Block)
    requires Same(b0, d0, b1, d1) && SeesChange(b1, d1, b2, d2, x, data) && Same(b2, d2, b3, d3)
    ensures SeesChange(b0, d0, b3, d3, x, data)
  {
    hide Bio.View;
  }

  /**
   One round of write_log or install_trans: block `from` is copied to block `to`,
   buffer to buffer, and written; its buffer, a, is unpinned if asked for.
   */
  method Copy(c: Bio.Cache, p: nat, d: nat, from: nat, to: nat, unpin: bool, toFirst: bool)
    returns (panic: bool, ghost a: nat)
    requires c.Valid() && NoUse(c.clients, p) && d != 0 && from != to && (d, from) in c.disk && (d, to) in c.disk
    requires NotHeld(c.buf, c.holder, (d, from)) && NotHeld(c.buf, c.holder, (d, to))
    requires unpin ==> IsPinned(c.buf, c.pinned, (d, to))
    modifies c
    ensures !panic ==> c.Valid() && c.holder == old(c.holder) && c.clients == old(c.clients)
    ensures !panic ==>
            a < |c.buf| && c.buf[a].Key() == (d, to) && c.pinned == old(c.pinned) - (if unpin then {a} else {})
    ensures !panic ==> SameBlocks(c, old(c.buf), old(c.clients), old(c.pinned))
    ensures !panic ==> c.disk == old(c.disk)[(d, to) := Bio.View(old(c.buf), old(c.disk), (d, from))]
    ensures !panic ==>
            SeesChange(old(c.buf), old(c.disk), c.buf, c.disk, (d, to), Bio.View(old(c.buf), old(c.disk), (d, from)))
    ensures panic ==> AllButOne(old(c.clients), old(c.pinned))
    ensures panic && IsPinned(old(c.buf), old(c.pinned), (d, if toFirst then from else to))
            ==> AllUsed(old(c.clients), old(c.pinned))
  {
    hide Bio.View, Bio.Ring, Bio.BufOk, Bio.Unique, IsPinned, AllUsed, AllButOne, NotHeld, Same, SeesChange,
         KeepBlocks, SameKeys, Bio.Cache.Valid;
    ghost var buf0, disk0, clients0, pinned0 := c.buf, c.disk, c.clients, c.pinned;
    var x, y;
    panic, x, y := Pair(c, p, d, if toFirst then to else from, if toFirst then from else to);
    a := if toFirst then x else y;
    if panic {
      return;
    }
    var dst, src := if toFirst then x else y, if toFirst then y else x;
    ghost var buf1 := c.buf;
    SeenAs(buf0, buf1, disk0, (d, from));
    if unpin {
      StillPinned(c, pinned0, buf0, clients0, (d, to), dst);
    }
    Transfer(c, p, dst, src, unpin, (d, to), (d, from));
    KeepThenSame(buf1, c.buf, buf0, clients0, pinned0);
    KeyAt(buf1, c.buf, dst);
    SameIsSame(c.buf, c.disk);
    ChangeBetween(buf0, disk0, buf1, disk0, c.buf, c.disk, c.buf, c.disk, (d, to), Bio.View(buf0, disk0, (d, from)));
    Restored(clients0, x, y, p);
  }

  lemma Restored(clients: seq<set<nat>>, x: nat, y: nat, p: nat)
    requires x < |clients| && y < |clients| && x != y && p !in clients[x] && p !in clients[y]
    ensures var more := clients[x := clients[x] + {p}][y := clients[y] + {p}];
            more[x := more[x] - {p}][y := more[y] - {p}] == clients == more[y := more[y] - {p}][x := more[x] - {p}]
  {
  }

  /** The part of a round between bread and the end. */
  method Transfer(c: Bio.Cache, p: nat, dst: nat, src: nat, unpin: bool, ghost kd: Bio.Key, ghost ks: Bio.Key)
    requires c.Valid() && dst != src && dst in c.holder && src in c.holder && c.holder[dst] == c.holder[src] == p
    requires Got(c, dst, kd) && Got(c, src, ks)
    requires kd.0 != 0 && ks.0 != 0 && kd != ks && (unpin ==> dst in c.pinned)
    modifies c
    ensures c.Valid() && c.holder == old(c.holder) - {dst, src} && dst < |old(c.clients)| && src < |old(c.clients)|
    ensures c.clients == old(c.clients)[src := old(c.clients)[src] - {p}][dst := old(c.clients)[dst] - {p}]
    ensures c.pinned == old(c.pinned) - (if unpin then {dst} else {}) && SameKeys(old(c.buf), c.buf)
    ensures c.disk == old(c.disk)[kd := old(c.buf)[src].data]
    ensures SeesChange(old(c.buf), old(c.disk), c.buf, c.disk, kd, old(c.buf)[src].data)
  {
    hide Bio.View, Bio.Ring, Bio.BufOk, Bio.Unique, Same, SeesChange, SameBuffers, SameKeys, Bio.Cache.Valid;
    ghost var buf1, disk1 := c.buf, c.disk;
    Overwrite(c, p, dst, src);
    ghost var buf2, disk2 := c.buf, c.disk;
    OverwriteKeys(buf1, buf2, dst, buf1[src].data);
    Unpin(c, p, dst, unpin);
    ghost var buf3 := c.buf;
    SameAt(buf2, buf3, src);
    SameAt(buf2, buf3, dst);
    Release(c, p, src);
    ghost var buf4 := c.buf;
    SameAt(buf3, buf4, dst);
    Release(c, p, dst);
    SameChain(buf2, disk2, buf3, disk2, buf4, disk2);
    SameChain(buf2, disk2, buf4, disk2, c.buf, disk2);
    SameIsSame(buf1, disk1);
    ChangeBetween(buf1, disk1, buf1, disk1, buf2, disk2, c.buf, disk2, kd, buf1[src].data);
    KeysChain(buf1, buf2, buf3, buf4, c.buf);
  }

  lemma SameAt(buf: seq<Bio.Buf>, buf': seq<Bio.Buf>, b: nat)
    requires SameBuffers(buf, buf') && b < |buf|
    ensures |buf'| == |buf| && SameBuffer(buf[b], buf'[b])
  {
  }

  lemma OverwriteKeys(buf: seq<Bio.Buf>, buf': seq<Bio.Buf>, b: nat, data: Block)
    requires b < |buf| && buf' == buf[b := buf[b].(data := data)]
    ensures SameKeys(buf, buf')
  {
  }

  /** bunpin, or nothing. */
  method Unpin(c: Bio.Cache, p: nat, b: nat, unpin: bool)
    requires c.Valid() && b in c.holder && c.holder[b] == p && (unpin ==> b in c.pinned)
    modifies c`buf, c`pinned
    ensures c.Valid() && c.pinned == old(c.pinned) - (if unpin then {b} else {})
    ensures Same(old(c.buf), c.disk, c.buf, c.disk) && SameBuffers(old(c.buf), c.buf)
  {
    hide Bio.View, Bio.Ring, Bio.BufOk, Bio.Unique, Bio.Recent, Bio.Got;
    if unpin {
      c.Bunpin(p, b);
    } else {
      SameIsSame(c.buf, c.disk);
    }
  }

  ghost predicate SameKeys(buf: seq<Bio.Buf>, buf': seq<Bio.Buf>) {
    |buf'| == |buf| && forall b | 0 <= b < |buf| :: buf'[b].Key() == buf[b].Key()
  }

  lemma KeyAt(buf: seq<Bio.Buf>, buf': seq<Bio.Buf>, b: nat)
    requires SameKeys(buf, buf') && b < |buf|
    ensures |buf'| == |buf| && buf'[b].Key() == buf[b].Key()
  {
  }

  lemma KeysChain(b1: seq<Bio.Buf>, b2: seq<Bio.Buf>, b3: seq<Bio.Buf>, b4: seq<Bio.Buf>, b5: seq<Bio.Buf>)
    requires SameKeys(b1, b2) && SameBuffers(b2, b3) && SameBuffers(b3, b4) && SameBuffers(b4, b5)
    ensures SameKeys(b1, b5)
  {
    forall b | 0 <= b < |b1| ensures b5[b].Key() == b1[b].Key() {
      assert SameBuffer(b2[b], b3[b]) && SameBuffer(b3[b], b4[b]) && SameBuffer(b4[b], b5[b]);
    }
  }

  /** memmove from one locked buffer to another, and bwrite. */
  method Overwrite(c: Bio.Cache, p: nat, dst: nat, src: nat)
    requires c.Valid() && dst in c.holder && c.holder[dst] == p && dst < |c.buf| && src < |c.buf| && src != dst
    requires c.buf[dst].valid && c.buf[dst].dev != 0
    modifies c`buf, c`disk
    ensures c.Valid() && c.buf == old(c.buf)[dst := old(c.buf)[dst].(data := old(c.buf)[src].data)]
    ensures c.disk == old(c.disk)[c.buf[dst].Key() := old(c.buf)[src].data]
    ensures SeesChange(old(c.buf), old(c.disk), c.buf, c.disk, c.buf[dst].Key(), old(c.buf)[src].data)
  {
    hide Bio.View, Bio.Ring, Bio.BufOk, Bio.Unique, Bio.Recent, Bio.Got;
    c.Modify(p, dst, c.buf[src].data);
    ghost var buf1, disk1 := c.buf, c.disk;
    assert SeesChange(old(c.buf), old(c.disk), buf1, disk1, c.buf[dst].Key(), old(c.buf)[src].data);
    c.Bwrite(p, dst);
    assert Same(buf1, disk1, c.buf, c.disk);
    SameIsSame(old(c.buf), old(c.disk));
    ChangeBetween(old(c.buf), old(c.disk), old(c.buf), old(c.disk), buf1, disk1, c.buf, c.disk, c.buf[dst].Key(),
        old(c.buf)[src].data);
  }

  lemma SameIsSame(buf: seq<Bio.Buf>, disk: map<Bio.Key, Block>)
    ensures Same(buf, disk, buf, disk)
  {
  }

  lemma StillPinned(c: Bio.Cache, pinned: set<nat>, buf: seq<Bio.Buf>, clients: seq<set<nat>>, k: Bio.Key, a: nat)
    requires c.Valid() && c.pinned == pinned && IsPinned(buf, pinned, k) && SameBlocks(c, buf, clients, pinned)
    requires a < |c.buf| && c.buf[a].Key() == k && k.0 != 0
    ensures a in pinned
  {
    hide Bio.Ring, Bio.BufOk;
    var b :| b in pinned && b < |buf| && buf[b].Key() == k;
    assert c.buf[b].Key() == c.buf[a].Key();
    assert b == a;
  }

  // ---------- write_log ----------

  /** Readers see the same of every block outside the log. */
  ghost predicate SameOutside(c: Config, d: nat, buf: seq<Bio.Buf>, disk: map<Bio.Key, Block>,
                              buf': seq<Bio.Buf>, disk': map<Bio.Key, Block>)
  {
    forall k: Bio.Key | k.0 != 0 && k in disk && !(k.0 == d && InLog(c, k.1)) ::
      k in disk' && Bio.View(buf', disk', k) == Bio.View(buf, disk, k)
  }

  lemma OutsideStep(c: Config, d: nat, b0: seq<Bio.Buf>, d0: map<Bio.Key, Block>, b1: seq<Bio.Buf>,
                    d1: map<Bio.Key, Block>,
                    b2: seq<Bio.Buf>, d2: map<Bio.Key, Block>, x: nat, data: Block)
    requires SameOutside(c, d, b0, d0, b1, d1) && SeesChange(b1, d1, b2, d2, (d, x), data) && InLog(c, x)
    ensures SameOutside(c, d, b0, d0, b2, d2)
  {
    hide Bio.View;
  }

  lemma SamePending(c: Config, d: nat, buf: seq<Bio.Buf>, disk: map<Bio.Key, Block>,
                    buf': seq<Bio.Buf>, disk': map<Bio.Key, Block>, lh: seq<nat>)
    requires SameOutside(c, d, buf, disk, buf', disk') && d != 0 && forall x | x in lh :: (d, x) in disk && !InLog(c, x)
    ensures (forall x | x in lh :: (d, x) in disk') && Pending(buf', disk', d, lh) == Pending(buf, disk, d, lh)
  {
    hide Bio.View;
  }

  lemma OutsideSame(c: Config, d: nat, buf: seq<Bio.Buf>, disk: map<Bio.Key, Block>)
    ensures SameOutside(c, d, buf, disk, buf, disk)
  {
  }

  /** What round i of write_log copies is what LogWrites says it writes. */
  lemma LogRound(c: Config, d: nat, buf: seq<Bio.Buf>, disk: map<Bio.Key, Block>,
                 buf': seq<Bio.Buf>, disk': map<Bio.Key, Block>, lh: seq<nat>, i: nat)
    requires SameOutside(c, d, buf, disk, buf', disk') && d != 0 && i < |lh|
             && (forall x | x in lh :: (d, x) in disk && !InLog(c, x))
    ensures (d, lh[i]) in disk'
    ensures LogWrites(c, lh, Pending(buf, disk, d, lh))[i] == Write(c.start + i + 1, Bio.View(buf', disk', (d, lh[i])))
  {
    hide Bio.View;
  }

  lemma PinsBlocks(c: Bio.Cache, buf: seq<Bio.Buf>, clients: seq<set<nat>>, pinned: set<nat>, d: nat, lh: seq<nat>)
    requires Pins(buf, pinned, d, lh) && SameBlocks(c, buf, clients, pinned)
    ensures Pins(c.buf, pinned, d, lh)
  {
    PinsKept(buf, c.buf, pinned, d, lh);
  }

  /** No process holds the buffer of a listed block or of the log. */
  ghost predicate Unheld(c: Config, buf: seq<Bio.Buf>, holder: map<nat, nat>, d: nat, lh: seq<nat>) {
    forall x | x in lh || InLog(c, x) :: NotHeld(buf, holder, (d, x))
  }

  lemma UnheldAt(c: Config, buf: seq<Bio.Buf>, holder: map<nat, nat>, d: nat, lh: seq<nat>, x: nat, y: nat)
    requires Unheld(c, buf, holder, d, lh) && x in lh && InLog(c, y)
    ensures NotHeld(buf, holder, (d, x)) && NotHeld(buf, holder, (d, y))
  {
    hide NotHeld, InLog;
  }

  lemma UnheldKept(c: Bio.Cache, buf: seq<Bio.Buf>, pinned: set<nat>, cfg: Config, d: nat, lh: seq<nat>)
    requires c.Valid() && SameBlocks(c, buf, c.clients, pinned) && Unheld(cfg, buf, c.holder, d, lh)
    ensures Unheld(cfg, c.buf, c.holder, d, lh)
  {
    hide Bio.Ring, Bio.BufOk, Bio.Unique, NotHeld, InLog;
    HoldersUse(c);
    HeldKept(c, buf, c.clients, pinned);
  }

  /**
   write_log through the cache: it issues the writes of RedoLog.LogWrites with the
   contents that readers see at the time, and changes none of these.  It panics
   only for want of buffers.
   */
  method WriteLog(c: Bio.Cache, p: nat, cfg: Config, d: nat, lh: seq<nat>) returns (panic: bool)
    requires c.Valid() && NoUse(c.clients, p) && d != 0 && Pins(c.buf, c.pinned, d, lh) && |lh| < cfg.size
    requires Unheld(cfg, c.buf, c.holder, d, lh)
    requires (forall x | x in lh :: (d, x) in c.disk && !InLog(cfg, x))
             && forall a: nat | InLog(cfg, a) :: (d, a) in c.disk
    modifies c
    ensures !panic ==> c.Valid() && c.holder == old(c.holder) && c.clients == old(c.clients)
                       && Pins(c.buf, c.pinned, d, lh)
    ensures !panic ==> (forall x | x in lh :: (d, x) in c.disk)
                       && Pending(c.buf, c.disk, d, lh) == old(Pending(c.buf, c.disk, d, lh))
    ensures !panic ==>
            DiskOf(c.disk, d) == Apply(DiskOf(old(c.disk), d), LogWrites(cfg, lh, old(Pending(c.buf, c.disk, d, lh))))
    ensures panic ==> AllUsed(old(c.clients), old(c.pinned))
  {
    hide Bio.View, Bio.Ring, Bio.BufOk, Bio.Unique, Apply, Issue, DiskOf, Pins, NoUse, AllUsed, AllButOne, IsPinned,
         SameOutside, LogWrites, Pending, SameBlocks, Unheld, NotHeld;
    ghost var buf0, disk0 := c.buf, c.disk;
    ghost var ws := LogWrites(cfg, lh, Pending(buf0, disk0, d, lh));
    var tail := 0;
    NoneIssued(disk0, d, ws);
    OutsideSame(cfg, d, buf0, disk0);
    while tail < |lh|
      invariant 0 <= tail <= |lh| && c.Valid() && Pins(c.buf, c.pinned, d, lh)
      invariant c.holder == old(c.holder) && Unheld(cfg, c.buf, c.holder, d, lh)
      invariant c.disk == Issue(disk0, d, ws[..tail]) && disk0.Keys <= c.disk.Keys
      invariant SameOutside(cfg, d, buf0, disk0, c.buf, c.disk) && c.clients == old(c.clients)
                && c.pinned == old(c.pinned)
    {
      ghost var buf1, disk1, pinned1 := c.buf, c.disk, c.pinned;
      assert InLog(cfg, cfg.start + tail + 1);
      LogRound(cfg, d, buf0, disk0, buf1, disk1, lh, tail);
      ListedPinned(c.buf, c.pinned, d, lh, lh[tail]);
      UnheldAt(cfg, c.buf, c.holder, d, lh, lh[tail], cfg.start + tail + 1);
      ghost var a;
      panic, a := Copy(c, p, d, lh[tail], cfg.start + tail + 1, false, true);
      if panic {
        return;
      }
      OutsideStep(cfg, d, buf0, disk0, buf1, disk1, c.buf, c.disk, cfg.start + tail + 1,
          Bio.View(buf1, disk1, (d, lh[tail])));
      assert c.pinned == pinned1;
      PinsBlocks(c, buf1, old(c.clients), pinned1, d, lh);
      UnheldKept(c, buf1, pinned1, cfg, d, lh);
      IssueSnoc(disk0, d, ws, tail);
      tail := tail + 1;
    }
    SamePending(cfg, d, buf0, disk0, c.buf, c.disk, lh);
    IssueIsApply(disk0, d, ws);
    assert ws[..tail] == ws;
    return false;
  }

  lemma NoneIssued(disk: map<Bio.Key, Block>, d: nat, ws: seq<Write>)
    ensures Issue(disk, d, ws[..0]) == disk
  {
  }

  // ---------- install_trans ----------

  /** What readers see of a block that is neither pinned nor held is the disk's. */
  lemma SeesDisk(c: Bio.Cache, k: Bio.Key)
    requires c.Valid() && NotHeld(c.buf, c.holder, k) && k in c.disk && k.0 != 0 && !IsPinned(c.buf, c.pinned, k)
    ensures Bio.View(c.buf, c.disk, k) == c.disk[k]
  {
    hide Bio.Ring;
    if b: nat :| Bio.Holds(c.buf, b, k) {
      Bio.ViewHeld(c.buf, c.disk, b);
    } else {
      assert Bio.View(c.buf, c.disk, k) == c.disk[k];
    }
  }

  lemma LogNotPinned(c: Config, buf: seq<Bio.Buf>, pinned: set<nat>, d: nat, lh: seq<nat>, a: nat)
    requires Pins(buf, pinned, d, lh) && InLog(c, a) && forall x | x in lh :: !InLog(c, x)
    ensures !IsPinned(buf, pinned, (d, a))
  {
  }

  /** The first listed block is unpinned. */
  lemma PinsFewer(buf: seq<Bio.Buf>, buf': seq<Bio.Buf>, pinned: set<nat>, d: nat, lh: seq<nat>, a: nat)
    requires lh != [] && Pins(buf, pinned, d, lh) && |buf'| == |buf| && a < |buf| && buf'[a].Key() == (d, lh[0])
             && lh[0] !in lh[1..]
    requires Bio.Unique(buf') && d != 0 && forall b | b in pinned && b < |buf| :: buf'[b].Key() == buf[b].Key()
    ensures Pins(buf', pinned - {a}, d, lh[1..])
  {
    forall b | b in pinned - {a} ensures buf'[b].blockno in lh[1..] {
      assert buf'[b].Key() != buf'[a].Key();
      assert buf[b].blockno in lh && lh == [lh[0]] + lh[1..];
    }
    forall x | x in lh[1..] ensures IsPinned(buf', pinned - {a}, (d, x)) {
      assert x in lh && IsPinned(buf, pinned, (d, x));
      var b :| b in pinned && b < |buf| && buf[b].Key() == (d, x);
      assert buf'[b].Key() == (d, x);
    }
  }

  /** In a commit the buffers of the blocks still listed are pinned; during recovery none is. */
  ghost predicate PinsFor(c: Bio.Cache, d: nat, lh: seq<nat>, recovering: bool)
    reads c
  {
    Pins(c.buf, c.pinned, d, if recovering then [] else lh)
  }

  /**
   install_trans through the cache: it issues the writes of RedoLog.InstallWrites,
   and no buffer stays pinned.
   */
  method InstallTrans(c: Bio.Cache, p: nat, cfg: Config, d: nat, lh: seq<nat>, recovering: bool) returns (panic: bool)
    requires c.Valid() && NoUse(c.clients, p) && d != 0 && PinsFor(c, d, lh, recovering)
    requires HeaderOk(cfg, DiskOf(c.disk, d)) && lh == LogObject.HeadBlocks(cfg, DiskOf(c.disk, d)) && Distinct(lh)
    requires Unheld(cfg, c.buf, c.holder, d, lh)
    modifies c
    ensures !panic ==> c.Valid() && c.holder == old(c.holder) && c.clients == old(c.clients) && c.pinned == {}
    ensures !panic ==> DiskOf(c.disk, d) == Apply(DiskOf(old(c.disk), d), InstallWrites(cfg, DiskOf(old(c.disk), d)))
    ensures !panic ==> forall k: Bio.Key | k.0 != 0 && k in c.disk && NotHeld(c.buf, c.holder, k) ::
                         Bio.View(c.buf, c.disk, k) == c.disk[k]
    ensures panic ==> AllButOne(old(c.clients), old(c.pinned))
    ensures panic && !recovering ==> AllUsed(old(c.clients), old(c.pinned))
  {
    hide Bio.View, Bio.Ring, Bio.BufOk, Bio.Unique, Apply, Issue, DiskOf, PinsFor, NoUse, HeaderOk, InstallWrites,
         LogObject.HeadBlocks, AllUsed, AllButOne, Unheld, NotHeld;
    ghost var disk0 := c.disk;
    ghost var ws := InstallWrites(cfg, DiskOf(disk0, d));
    HomeBlocks(cfg, disk0, d, lh);
    var tail := 0;
    NoneIssued(disk0, d, ws);
    assert lh[0..] == lh;
    while tail < |lh|
      invariant 0 <= tail <= |lh| && c.Valid() && PinsFor(c, d, lh[tail..], recovering)
      invariant c.holder == old(c.holder) && Unheld(cfg, c.buf, c.holder, d, lh[tail..])
      invariant c.disk == Issue(disk0, d, ws[..tail]) && disk0.Keys <= c.disk.Keys
      invariant forall a: nat | InLog(cfg, a) && (d, a) in disk0 :: c.disk[(d, a)] == disk0[(d, a)]
      invariant c.clients == old(c.clients) && c.pinned <= old(c.pinned)
    {
      InstallRound(cfg, disk0, d, lh, tail);
      MoreUsed(c.clients, c.pinned, old(c.pinned));
      panic := InstallOne(c, p, cfg, d, lh[tail..], tail, recovering);
      if panic {
        return;
      }
      assert lh[tail..][1..] == lh[tail + 1..];
      IssueSnoc(disk0, d, ws, tail);
      tail := tail + 1;
    }
    IssueIsApply(disk0, d, ws);
    assert ws[..tail] == ws && lh[tail..] == [];
    NonePinned(c, d, recovering);
    return false;
  }

  ghost predicate Distinct(lh: seq<nat>) {
    forall i, j | 0 <= i < j < |lh| :: lh[i] != lh[j]
  }

  /** One round: the log block is copied to the first listed block, which is unpinned in a commit. */
  method InstallOne(c: Bio.Cache, p: nat, cfg: Config, d: nat, lh: seq<nat>, tail: nat, recovering: bool)
    returns (panic: bool)
    requires c.Valid() && NoUse(c.clients, p) && d != 0 && PinsFor(c, d, lh, recovering) && Distinct(lh)
    requires lh != [] && InLog(cfg, cfg.start + tail + 1) && (d, cfg.start + tail + 1) in c.disk
    requires Unheld(cfg, c.buf, c.holder, d, lh) && forall x | x in lh :: (d, x) in c.disk && !InLog(cfg, x)
    modifies c
    ensures !panic ==> c.Valid() && PinsFor(c, d, lh[1..], recovering)
    ensures !panic ==> c.holder == old(c.holder) && Unheld(cfg, c.buf, c.holder, d, lh[1..])
    ensures !panic ==> c.disk == old(c.disk)[(d, lh[0]) := old(c.disk)[(d, cfg.start + tail + 1)]]
    ensures !panic ==> c.clients == old(c.clients) && c.pinned <= old(c.pinned)
    ensures panic ==> AllButOne(old(c.clients), old(c.pinned))
    ensures panic && !recovering ==> AllUsed(old(c.clients), old(c.pinned))
  {
    hide Bio.View, Bio.Ring, Bio.BufOk, Bio.Unique, Pins, NoUse, AllUsed, AllButOne, Unheld, NotHeld, IsPinned,
         SameBlocks;
    ghost var buf1, pinned1 := c.buf, c.pinned;
    ghost var listed := if recovering then [] else lh;
    LogNotPinned(cfg, c.buf, c.pinned, d, listed, cfg.start + tail + 1);
    UnheldAt(cfg, c.buf, c.holder, d, lh, lh[0], cfg.start + tail + 1);
    SeesDisk(c, (d, cfg.start + tail + 1));
    if !recovering {
      ListedPinned(c.buf, c.pinned, d, lh, lh[0]);
    }
    ghost var a;
    panic, a := Copy(c, p, d, cfg.start + tail + 1, lh[0], !recovering, false);
    if panic {
      return;
    }
    UnheldKept(c, buf1, pinned1, cfg, d, lh);
    UnheldFewer(cfg, c.buf, c.holder, d, lh);
    if recovering {
      PinsBlocks(c, buf1, c.clients, pinned1, d, listed);
      assert c.pinned == pinned1;
    } else {
      UniqueIn(c);
      PinnedKept(c, buf1, pinned1);
      PinsFewer(buf1, c.buf, pinned1, d, lh, a);
      assert c.pinned == pinned1 - {a};
    }
  }

  lemma UnheldFewer(c: Config, buf: seq<Bio.Buf>, holder: map<nat, nat>, d: nat, lh: seq<nat>)
    requires Unheld(c, buf, holder, d, lh) && lh != []
    ensures Unheld(c, buf, holder, d, lh[1..])
  {
    hide NotHeld, InLog;
  }

  lemma PinnedKept(c: Bio.Cache, buf: seq<Bio.Buf>, pinned: set<nat>)
    requires SameBlocks(c, buf, c.clients, pinned)
    ensures |c.buf| == |buf| && forall b | b in pinned && b < |buf| :: c.buf[b].Key() == buf[b].Key()
  {
  }

  lemma MoreUsed(clients: seq<set<nat>>, pinned: set<nat>, pinned': set<nat>)
    requires pinned <= pinned'
    ensures AllUsed(clients, pinned) ==> AllUsed(clients, pinned')
    ensures AllButOne(clients, pinned) ==> AllButOne(clients, pinned')
  {
    if AllButOne(clients, pinned) {
      var a: nat :| AllBut(clients, pinned, a);
      assert AllBut(clients, pinned', a);
    }
  }

  /**
   While no process uses a buffer, one more buffer than there are listed blocks is
   enough: write_log and install_trans do not panic.
   */
  lemma EnoughBuffers(buf: seq<Bio.Buf>, clients: seq<set<nat>>, pinned: set<nat>, d: nat, lh: seq<nat>)
    requires Bio.Unique(buf) && d != 0 && Pins(buf, pinned, d, lh) && |clients| == |buf| && |lh| < |buf|
    requires forall b | 0 <= b < |clients| :: clients[b] == {}
    ensures !AllUsed(clients, pinned)
  {
    if AllUsed(clients, pinned) {
      Squeeze(buf, lh, |buf|);
    }
  }

  /** Buffers of different blocks of a list are no more than the list is long. */
  lemma {:induction false} Squeeze(buf: seq<Bio.Buf>, lh: seq<nat>, n: nat)
    requires n <= |buf| && forall b | 0 <= b < n :: buf[b].dev != 0 && buf[b].dev == buf[0].dev && buf[b].blockno in lh
    requires Bio.Unique(buf)
    ensures n <= |lh|
    decreases n
  {
    if n > 0 {
      var x := buf[n - 1].blockno;
      var i :| 0 <= i < |lh| && lh[i] == x;
      var rest := lh[..i] + lh[i + 1..];
      forall b | 0 <= b < n - 1 ensures buf[b].blockno in rest {
        assert buf[b].Key() != buf[n - 1].Key();
        var j :| 0 <= j < |lh| && lh[j] == buf[b].blockno;
        assert j != i && rest[if j < i then j else j - 1] == lh[j];
      }
      Squeeze(buf, rest, n - 1);
    }
  }

  lemma UniqueIn(c: Bio.Cache)
    requires c.Valid()
    ensures Bio.Unique(c.buf)
  {
  }

  lemma ListedPinned(buf: seq<Bio.Buf>, pinned: set<nat>, d: nat, lh: seq<nat>, x: nat)
    requires Pins(buf, pinned, d, lh) && x in lh
    ensures IsPinned(buf, pinned, (d, x))
  {
  }

  lemma NonePinned(c: Bio.Cache, d: nat, recovering: bool)
    requires c.Valid() && PinsFor(c, d, [], recovering)
    ensures c.pinned == {}
    ensures forall k: Bio.Key | k.0 != 0 && k in c.disk && NotHeld(c.buf, c.holder, k) ::
              Bio.View(c.buf, c.disk, k) == c.disk[k]
  {
    hide Bio.View, Bio.Ring, Bio.BufOk, Bio.Unique, NotHeld;
    forall k: Bio.Key | k.0 != 0 && k in c.disk && NotHeld(c.buf, c.holder, k)
      ensures Bio.View(c.buf, c.disk, k) == c.disk[k] {
      SeesDisk(c, k);
    }
  }

  lemma HomeBlocks(c: Config, disk: map<Bio.Key, Block>, d: nat, lh: seq<nat>)
    requires HeaderOk(c, DiskOf(disk, d)) && lh == LogObject.HeadBlocks(c, DiskOf(disk, d))
    ensures |lh| == |InstallWrites(c, DiskOf(disk, d))| && forall x | x in lh :: (d, x) in disk && !InLog(c, x)
  {
    forall x | x in lh ensures (d, x) in disk && !InLog(c, x) {
      var i :| 0 <= i < |lh| && lh[i] == x;
      assert IsHome(c, DiskOf(disk, d), DiskOf(disk, d)[c.start][1 + i]);
    }
  }

  lemma InstallRound(c: Config, disk: map<Bio.Key, Block>, d: nat, lh: seq<nat>, i: nat)
    requires HeaderOk(c, DiskOf(disk, d)) && lh == LogObject.HeadBlocks(c, DiskOf(disk, d)) && i < |lh|
    ensures InLog(c, c.start + i + 1) && (d, c.start + i + 1) in disk
    ensures |lh| == |InstallWrites(c, DiskOf(disk, d))|
    ensures InstallWrites(c, DiskOf(disk, d))[i] == Write(lh[i], disk[(d, c.start + i + 1)])
  {
    InstallAt(c, DiskOf(disk, d), i);
  }
}
