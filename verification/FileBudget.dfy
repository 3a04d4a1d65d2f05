/**
 How many blocks a chunk of filewrite logs, exactly: a bound for every file
 system, which depends on the number of bitmap blocks, and the writes that meet
 it, those that cross from the direct blocks into the indirect one while the
 disk has no block to spare.
 */
module FileBudget {
  import opened Arithmetic
  import opened Blocks
  import opened Fs
  import opened FileSystem
  import opened FileBytes
  import MkfsDisk

  // ---------- Counting ----------

  ghost function Interval(lo: nat, n: nat): (s: set<nat>)
    ensures |s| == n && forall k: nat :: k in s <==> lo <= k < lo + n
  {
    if n == 0 then {} else Interval(lo, n - 1) + {lo + n - 1}
  }

  ghost predicate Injective<K, V>(m: map<K, V>) {
    forall k, l | k in m && l in m && k != l :: m[k] != m[l]
  }

  lemma {:induction false} ValuesCard<K, V>(m: map<K, V>)
    requires Injective(m)
    ensures |m.Values| == |m|
  {
    if m != map[] {
      var k :| k in m;
      var r := m - {k};
      assert r.Keys == m.Keys - {k};
      ValuesCard(r);
      assert m.Values == r.Values + {m[k]};
      assert m[k] !in r.Values;
    }
  }

  /** An injection into a set that is no larger reaches all of it. */
  lemma Onto<K, V>(m: map<K, V>, s: set<V>)
    requires Injective(m) && m.Values <= s && |s| <= |m|
    ensures m.Values == s
  {
    ValuesCard(m);
    SameCard(m.Values, s);
  }

  lemma SameCard<T>(a: set<T>, b: set<T>)
    requires a <= b && |b| <= |a|
    ensures a == b
  {
    assert |b - a| == |b| - |a|;
    assert b == a + (b - a);
  }

  // ---------- The bound ----------

  /** The number of bitmap blocks. */
  function Bitmaps(g: Geometry): nat
    requires 0 < g.nindirect && 0 < g.size
  {
    Quot(g.size - 1, g.Bpb()) + 1
  }

  lemma BitBlocksBound(g: Geometry, s: set<nat>)
    requires 0 < g.nindirect && 0 < g.size && forall b | b in s :: b < g.size
    ensures |BitBlocks(g, s)| <= Bitmaps(g)
  {
    hide Quot;
    forall b | b in s ensures BitBlock(g, b) in Interval(g.bmapstart, Bitmaps(g)) {
      QuotMonotone(b, g.size - 1, g.Bpb());
    }
    SubsetCard(BitBlocks(g, s), Interval(g.bmapstart, Bitmaps(g)));
  }

  /** q + 1 data blocks, the indirect block, the inode's block, and the bitmap blocks of q + 1 new blocks. */
  function Budget(g: Geometry, q: nat): nat
    requires 0 < g.nindirect && 0 < g.size
  {
    q + 3 + if Bitmaps(g) < q + 1 then Bitmaps(g) else q + 1
  }

  /** A write of at most q blocks' worth of bytes, at any offset of any file without holes, keeps the bound. */
  lemma ChunkLimit(g: Geometry, s0: Snapshot, s: Snapshot, i: nat, off: nat, n: nat, hi: nat, q: nat)
    requires SnapshotOk(g, s0) && SnapshotOk(g, s) && i in s0.inodes && NoHoles(g, s0.disk, s0.inodes)
    requires off <= s0.inodes[i].size && LoggedAll(g, s0, s, i, off, n, hi) && s0.logged == {} && 0 < n <= q * g.Bsize()
    ensures 0 < g.size && |s.logged| <= Budget(g, q)
  {
    hide Bn, At, BitOf, Ref, NoHoles, Geometry.Bsize, BitBlocks, DataBlocks, IndirectBlock, Bitmaps, EndBn, WriteSlots;
    SpanBound(g, off, n, q);
    BitsBound(g, s0, s, i, off, n, hi);
    LoggedBound(g, s0, s, i, off, n, hi);
    BitBlocksBound(g, s.owner.Keys - s0.owner.Keys);
  }

  // ---------- The writes that meet it ----------

  /**
   Every inode has its place in an inode block; file i has no indirect block, and the n
   bytes from off on begin inside its last direct block and end in the q-th block after
   it; exactly q + 1 blocks are free.
   */
  ghost predicate Crossing(g: Geometry, s: Snapshot, i: nat, off: nat, n: nat, q: nat, free: set<nat>) {
    && SnapshotOk(g, s) && NoHoles(g, s.disk, s.inodes) && s.logged == {}
    && i in s.inodes && InodesFit(g, s.inodes) && s.inodes[i].addrs[g.ndirect] == 0
    && off <= s.inodes[i].size && At(g, off) != 0 && Bn(g, off) + 1 == g.ndirect
    && 0 < n && EndBn(g, off, n) == g.ndirect + q && 1 <= q <= g.nindirect
    && |free| == q + 1 && forall b: nat :: b in free <==> b < g.size && !BitOf(g, s.disk, b)
  }

  /** A write from one snapshot to another that has not run into the end of the disk, or of its source. */
  ghost predicate Writes(g: Geometry, s0: Snapshot, s: Snapshot, i: nat, off: nat, n: nat, q: nat, free: set<nat>,
                         hi: nat) {
    && Crossing(g, s0, i, off, n, q, free) && SnapshotOk(g, s) && LoggedAll(g, s0, s, i, off, n, hi)
  }

  lemma EmptySlots(g: Geometry, d: Disk, ino: Inode, k: nat)
    requires |ino.addrs| == g.ndirect + 1 && ino.addrs[g.ndirect] == 0 && g.ndirect <= k
    ensures Ref(g, d, ino, k) == 0
  {
  }

  /** A new block was free, and fills one of the q + 1 empty slots. */
  lemma AddedIsFree(g: Geometry, s0: Snapshot, s: Snapshot, i: nat, off: nat, n: nat, q: nat, free: set<nat>, hi: nat,
                    b: nat)
    requires Writes(g, s0, s, i, off, n, q, free, hi) && b in s.owner && b !in s0.owner
    ensures b in free && s.owner[b].0 == i && g.ndirect <= s.owner[b].1 <= g.ndirect + q
    ensures i in s.inodes && Ref(g, s.disk, s.inodes[i], s.owner[b].1) == b
  {
    hide Ref, BitOf, Bn, At, DataBlocks, BitBlocks, NoHoles, Mapped, WriteSlots, IndirectBlock, EndBn;
    var k := s.owner[b].1;
    FirstMapped(g, s0, i, off);
    if k != g.ndirect {
      var bn := BlockNumber(g, Bn(g, off), EndBn(g, off, n), k);
    }
  }

  lemma FirstMapped(g: Geometry, s: Snapshot, i: nat, off: nat)
    requires 0 < g.nindirect && NoHoles(g, s.disk, s.inodes) && i in s.inodes && off <= s.inodes[i].size
             && At(g, off) != 0
    ensures Ref(g, s.disk, s.inodes[i], g.Slot(Bn(g, off))) != 0
  {
    hide Bn, At, Ref;
    FirstIsMapped(g, s.disk, s.inodes[i], off);
  }

  /** An empty slot that got a block got a free one. */
  lemma FilledIsFree(g: Geometry, s0: Snapshot, s: Snapshot, i: nat, off: nat, n: nat, q: nat, free: set<nat>, hi: nat,
                     k: nat)
    requires Writes(g, s0, s, i, off, n, q, free, hi) && g.ndirect <= k <= g.ndirect + q
    requires i in s.inodes && Ref(g, s.disk, s.inodes[i], k) != 0
    ensures var b := Ref(g, s.disk, s.inodes[i], k);
            b in free && b in s.owner && b !in s0.owner && s.owner[b] == (i, k)
  {
    hide Ref, BitOf, Bn, At, DataBlocks, BitBlocks, NoHoles, WriteSlots, IndirectBlock, EndBn;
    var b := Ref(g, s.disk, s.inodes[i], k);
    assert IsSlot(g, s.inodes, i, k) && Owns(s.owner, b, i, k);
    EmptySlots(g, s0.disk, s0.inodes[i], k);
    AddedIsFree(g, s0, s, i, off, n, q, free, hi, b);
  }

  /** With every empty slot of the range filled, the new blocks are exactly the free ones. */
  lemma AllTaken(g: Geometry, s0: Snapshot, s: Snapshot, i: nat, off: nat, n: nat, q: nat, free: set<nat>, hi: nat)
    requires Writes(g, s0, s, i, off, n, q, free, hi) && i in s.inodes
    requires forall k | g.ndirect <= k <= g.ndirect + q :: Ref(g, s.disk, s.inodes[i], k) != 0
    ensures s.owner.Keys - s0.owner.Keys == free
  {
    hide Crossing, LoggedAll, Ref, SnapshotOk;
    var slots := Interval(g.ndirect, q + 1);
    forall k | k in slots
      ensures var b := Ref(g, s.disk, s.inodes[i], k);
              b in free && b in s.owner && b !in s0.owner && s.owner[b] == (i, k)
    {
      FilledIsFree(g, s0, s, i, off, n, q, free, hi, k);
    }
    var m := map k | k in slots :: Ref(g, s.disk, s.inodes[i], k);
    assert m.Keys == slots;
    FreeCard(g, s0, i, off, n, q, free, m);
    forall b | b in s.owner && b !in s0.owner ensures b in free {
      AddedIsFree(g, s0, s, i, off, n, q, free, hi, b);
    }
    forall b | b in free ensures b in s.owner && b !in s0.owner {
      assert b in m.Values;
    }
  }

  lemma FreeCard(g: Geometry, s0: Snapshot, i: nat, off: nat, n: nat, q: nat, free: set<nat>, m: map<nat, int>)
    requires Crossing(g, s0, i, off, n, q, free) && |m| == q + 1
    requires forall k, l | k in m && l in m && k != l :: m[k] != m[l]
    requires forall k | k in m :: m[k] in free
    ensures forall b | b in free :: b in m.Values
  {
    hide Ref, BitOf, Bn, At, NoHoles, SnapshotOk, EndBn;
    var f := map k | k in m :: m[k] as nat;
    assert f.Keys == m.Keys;
    Onto(f, free);
  }

  /** If no block is left, every empty slot has got one. */
  lemma FullIsFilled(g: Geometry, s0: Snapshot, s: Snapshot, i: nat, off: nat, n: nat, q: nat, free: set<nat>, hi: nat,
                     k: nat)
    requires Writes(g, s0, s, i, off, n, q, free, hi) && Full(g, s.disk) && g.ndirect <= k <= g.ndirect + q
             && i in s.inodes
    ensures Ref(g, s.disk, s.inodes[i], k) != 0
  {
    hide Ref, BitOf, Bn, At, NoHoles, LoggedAll, EndBn, InodeBlock;
    forall b | b in free ensures b in s.owner && b !in s0.owner {
      assert BitOf(g, s.disk, b);
    }
    forall b | b in free
      ensures g.ndirect <= s.owner[b].1 <= g.ndirect + q && s.owner[b].0 == i
              && Ref(g, s.disk, s.inodes[i], s.owner[b].1) == b
    {
      AddedIsFree(g, s0, s, i, off, n, q, free, hi, b);
    }
    var m := map b | b in free :: s.owner[b].1;
    assert m.Keys == free;
    Onto(m, Interval(g.ndirect, q + 1));
    assert k in m.Values;
  }

  /** The write cannot stop early for want of a block: q + 1 are free and q + 1 are needed. */
  lemma HasRoom(g: Geometry, s0: Snapshot, s: Snapshot, i: nat, off: nat, n: nat, q: nat, free: set<nat>, hi: nat,
                r: nat)
    requires Writes(g, s0, s, i, off, n, q, free, hi) && r < n
    ensures !NoRoom(g, s.disk, s.inodes, i, off + r)
  {
    hide Ref, BitOf, Bn, At, NoHoles, LoggedAll, Own, Full, InodeBlock;
    InodeKept(g, s0, s, i, off, n, hi);
    FirstBlockKept(g, s0, s, i, off, n, q, free, hi);
    BnMonotone(g, off, off + r);
    BnMonotone(g, off + r, off + n - 1);
    if Full(g, s.disk) {
      var bn := Bn(g, off + r);
      if g.ndirect <= bn {
        FullIsFilled(g, s0, s, i, off, n, q, free, hi, bn + 1);
      }
    }
  }

  lemma InodeKept(g: Geometry, s0: Snapshot, s: Snapshot, i: nat, off: nat, n: nat, hi: nat)
    requires 0 < g.nindirect && 0 < g.ipb && LoggedAll(g, s0, s, i, off, n, hi)
    ensures i in s.inodes
  {
  }

  /** The block the write begins in stays where it is; it was not free. */
  lemma FirstBlockKept(g: Geometry, s0: Snapshot, s: Snapshot, i: nat, off: nat, n: nat, q: nat, free: set<nat>,
                       hi: nat)
    requires Writes(g, s0, s, i, off, n, q, free, hi) && i in s.inodes
    ensures var b := Ref(g, s.disk, s.inodes[i], g.ndirect - 1); b !in free && g.nmeta <= b
  {
    hide Ref, BitOf, Bn, At, DataBlocks, BitBlocks, NoHoles, WriteSlots, IndirectBlock, EndBn;
    FirstMapped(g, s0, i, off);
    var b := Ref(g, s0.disk, s0.inodes[i], g.ndirect - 1);
    assert IsSlot(g, s0.inodes, i, g.ndirect - 1) && Owns(s0.owner, b, i, g.ndirect - 1);
  }

  /** The data blocks of a write that got to its end are its first block and free ones. */
  lemma DataIs(g: Geometry, s0: Snapshot, s: Snapshot, i: nat, off: nat, n: nat, q: nat, free: set<nat>, first: nat)
    requires 0 < g.nindirect && Writes(g, s0, s, i, off, n, q, free, EndBn(g, off, n)) && i in s.inodes
    requires forall k | g.ndirect <= k <= g.ndirect + q :: Ref(g, s.disk, s.inodes[i], k) != 0
    requires 0 < first == Ref(g, s.disk, s.inodes[i], g.ndirect - 1)
    ensures var data := DataBlocks(g, s.disk, s.inodes[i], Bn(g, off), EndBn(g, off, n));
            first in data && data <= free + {first}
  {
    hide Ref, BitOf, Bn, At, NoHoles, DataBlocks, SnapshotOk, LoggedAll, InodesFit, EndBn;
    var ino, end := s.inodes[i], EndBn(g, off, n);
    forall bn | Bn(g, off) <= bn < end ensures Ref(g, s.disk, ino, g.Slot(bn)) in free + {first} {
      if g.ndirect <= bn {
        FilledIsFree(g, s0, s, i, off, n, q, free, end, bn + 1);
      }
    }
    DataBlocksWithin(g, s.disk, ino, Bn(g, off), end, free + {first});
    DataBlocksHas(g, s.disk, ino, Bn(g, off), end, g.ndirect - 1);
  }

  lemma LoggedBetween(g: Geometry, s0: Snapshot, s: Snapshot, i: nat, off: nat, n: nat, added: set<nat>)
    requires 0 < g.nindirect && 0 < g.ipb && LoggedAll(g, s0, s, i, off, n, EndBn(g, off, n)) && s0.logged == {}
    requires added == s.owner.Keys - s0.owner.Keys
    ensures var sure := added + BitBlocks(g, added)
                + DataBlocks(g, s.disk, s.inodes[i], Bn(g, off), EndBn(g, off, n)) + {InodeBlock(g, i)};
            sure <= s.logged <= sure + IndirectBlock(g, s.inodes[i])
  {
    hide Ref, Bn, EndBn, BitBlocks, DataBlocks, InodeBlock, IndirectBlock, WriteSlots;
    var none: set<nat> := {};
    assert none + added == added;
  }

  lemma SetSum(logged: set<nat>, free: set<nat>, bits: set<nat>, data: set<nat>, ind: set<nat>, first: nat, ib: nat)
    requires var sure := free + bits + data + {ib}; sure <= logged <= sure + ind
    requires first in data && data <= free + {first} && ind <= free
    ensures logged == free + {first} + bits + {ib}
  {
  }

  /**
   What is logged by a write that got to its end: the free blocks, their bitmap
   blocks, the first block and the inode's.
   */
  lemma LoggedIs(g: Geometry, s0: Snapshot, s: Snapshot, i: nat, off: nat, n: nat, q: nat, free: set<nat>)
    requires 0 < g.nindirect && Writes(g, s0, s, i, off, n, q, free, EndBn(g, off, n)) && i in s.inodes
    requires forall k | g.ndirect <= k <= g.ndirect + q :: Ref(g, s.disk, s.inodes[i], k) != 0
    ensures var first := Ref(g, s.disk, s.inodes[i], g.ndirect - 1);
            first >= 0 && s.logged == free + {first as nat} + BitBlocks(g, free) + {InodeBlock(g, i)}
  {
    hide Ref, BitOf, Bn, At, NoHoles, BitBlocks, DataBlocks, Own, InodeBlock, EndBn, LoggedAll, IndirectBlock,
         InodesFit;
    var end := EndBn(g, off, n);
    FirstBlockKept(g, s0, s, i, off, n, q, free, end);
    AllTaken(g, s0, s, i, off, n, q, free, end);
    FilledIsFree(g, s0, s, i, off, n, q, free, end, g.ndirect);
    IndirectIs(g, s.disk, s.inodes[i]);
    var first := Ref(g, s.disk, s.inodes[i], g.ndirect - 1) as nat;
    DataIs(g, s0, s, i, off, n, q, free, first);
    LoggedBetween(g, s0, s, i, off, n, free);
    SetSum(s.logged, free, BitBlocks(g, free), DataBlocks(g, s.disk, s.inodes[i], Bn(g, off), end),
        IndirectBlock(g, s.inodes[i]), first, InodeBlock(g, i));
  }

  lemma IndirectIs(g: Geometry, d: Disk, ino: Inode)
    requires |ino.addrs| == g.ndirect + 1 && Ref(g, d, ino, g.ndirect) != 0
    ensures IndirectBlock(g, ino) == {Ref(g, d, ino, g.ndirect) as nat}
  {
  }

  lemma {:induction false} DataBlocksWithin(g: Geometry, d: Disk, ino: Inode, lo: nat, hi: nat, f: set<nat>)
    requires forall bn | lo <= bn < hi :: Ref(g, d, ino, g.Slot(bn)) in f
    ensures DataBlocks(g, d, ino, lo, hi) <= f
    decreases hi
  {
    if lo < hi {
      DataBlocksWithin(g, d, ino, lo, hi - 1, f);
    }
  }

  /** Such a write logs exactly q + 3 blocks and one for each bitmap block among those of the free blocks. */
  lemma ExactlyLogged(g: Geometry, s0: Snapshot, s: Snapshot, i: nat, off: nat, n: nat, q: nat, free: set<nat>)
    requires 0 < g.nindirect && Writes(g, s0, s, i, off, n, q, free, EndBn(g, off, n)) && i in s.inodes
    requires NoHoles(g, s.disk, s.inodes) && off + n <= s.inodes[i].size
    ensures |s.logged| == q + 3 + |BitBlocks(g, free)|
  {
    hide Ref, BitOf, Bn, At, NoHoles, DataBlocks, LoggedAll, IndirectBlock, InodeBlock, EndBn, BitBlocks, Own;
    AllMapped(g, s, i, off, n, q);
    LoggedIs(g, s0, s, i, off, n, q, free);
    FirstBlockKept(g, s0, s, i, off, n, q, free, EndBn(g, off, n));
    FreeIsData(g, s0, i, off, n, q, free);
    var first := Ref(g, s.disk, s.inodes[i], g.ndirect - 1) as nat;
    FourApart(free, first, BitBlocks(g, free), InodeBlock(g, i));
  }

  lemma FourApart(a: set<nat>, b: nat, c: set<nat>, d: nat)
    requires b !in a && a !! c && b !in c && d !in a && d != b && d !in c
    ensures |a + {b} + c + {d}| == |a| + |c| + 2
  {
    assert |a + {b}| == |a| + 1;
    assert (a + {b}) !! c;
    assert |a + {b} + c| == |a| + 1 + |c|;
  }

  /** Free blocks are data blocks, bitmap blocks are not, and the inode's block is neither. */
  lemma FreeIsData(g: Geometry, s: Snapshot, i: nat, off: nat, n: nat, q: nat, free: set<nat>)
    requires Crossing(g, s, i, off, n, q, free)
    ensures forall b | b in free :: g.nmeta <= b < g.size
    ensures forall c | c in BitBlocks(g, free) :: g.bmapstart <= c < g.nmeta
    ensures InodeBlock(g, i) < g.bmapstart < g.nmeta
  {
    hide Ref, BitOf, Bn, At, NoHoles, EndBn, InodeBlock, Quot;
    assert BitBlock(g, 0) < g.nmeta;
  }

  lemma AllMapped(g: Geometry, s: Snapshot, i: nat, off: nat, n: nat, q: nat)
    requires 0 < g.nindirect && NoHoles(g, s.disk, s.inodes) && i in s.inodes && off + n <= s.inodes[i].size && 0 < n
             && 1 <= q
    requires Bn(g, off) < g.ndirect && EndBn(g, off, n) == g.ndirect + q && |s.inodes[i].addrs| == g.ndirect + 1
    ensures forall k | g.ndirect <= k <= g.ndirect + q :: Ref(g, s.disk, s.inodes[i], k) != 0
  {
    hide Ref, Bn, At, Geometry.Bsize, Quot;
    forall k | g.ndirect < k <= g.ndirect + q ensures Ref(g, s.disk, s.inodes[i], k) != 0 {
      StartsBefore(g, off, n, k - 1);
      assert BlockOf(g, s.disk, s.inodes[i], (k - 1) * g.Bsize()) != 0;
    }
    assert Ref(g, s.disk, s.inodes[i], g.ndirect + 1) != 0;
    ThroughIndirect(g, s.disk, s.inodes[i], g.ndirect + 1);
  }

  lemma ThroughIndirect(g: Geometry, d: Disk, ino: Inode, k: nat)
    requires |ino.addrs| == g.ndirect + 1 && g.ndirect < k && Ref(g, d, ino, k) != 0
    ensures Ref(g, d, ino, g.ndirect) != 0
  {
  }

  /** A block between the first and the last of a write begins within it. */
  lemma StartsBefore(g: Geometry, off: nat, n: nat, bn: nat)
    requires 0 < g.nindirect && 0 < n && Bn(g, off) < bn < EndBn(g, off, n)
    ensures Bn(g, bn * g.Bsize()) == bn && bn * g.Bsize() < off + n
  {
    var d := g.Bsize();
    DivAt(bn, 0, d);
    QuotRem(off + n - 1, d);
    MulMonotone(bn, Quot(off + n - 1, d), d);
  }

  /**
   writei of such a chunk, on any file system in such a state: it completes, and
   logs exactly that many blocks.
   */
  method TightChunk(fs: Filesystem, i: nat, off: nat, src: seq<int>, ghost q: nat, ghost free: set<nat>)
    returns (r: int)
    requires fs.Valid() && Crossing(fs.g, Snap(fs), i, off, |src|, q, free) && fs.g.Maxfile() * fs.g.Bsize() < WORDS
    modifies fs
    ensures fs.Valid() && NoHoles(fs.g, fs.disk, fs.inodes) && i in fs.inodes && r == |src|
    ensures Content(fs.g, fs.disk, fs.inodes[i]) == Splice(Content(fs.g, old(fs.disk), old(fs.inodes)[i]), off, src)
    ensures |fs.logged| == q + 3 + |BitBlocks(fs.g, free)|
  {
    hide Ref, BitOf, Bn, At, Own, Content, NoHoles, LoggedAll, NoRoom, Shape, Splice, EndBn, Full, BitBlocks,
         InodeBlock, Geometry.Bsize, Geometry.Maxfile;
    ghost var s0 := Snap(fs);
    EndsWithin(fs.g, off, |src|, q);
    ghost var hi;
    r, hi := Writei(fs, i, off, src, |src|);
    if r < |src| {
      HasRoom(fs.g, s0, Snap(fs), i, off, |src|, q, free, hi, r);
    }
    assert src[..r] == src;
    SpliceReaches(Content(fs.g, s0.disk, s0.inodes[i]), off, src);
    ExactlyLogged(fs.g, s0, Snap(fs), i, off, |src|, q, free);
  }

  lemma SpliceReaches(s: seq<int>, off: nat, t: seq<int>)
    requires off <= |s|
    ensures off + |t| <= |Splice(s, off, t)|
  {
  }

  lemma EndsWithin(g: Geometry, off: nat, n: nat, q: nat)
    requires 0 < g.nindirect && 0 < n && EndBn(g, off, n) == g.ndirect + q && q <= g.nindirect
    ensures off + n <= g.Maxfile() * g.Bsize()
  {
    QuotRem(off + n - 1, g.Bsize());
    MulMonotone(g.ndirect + q, g.Maxfile(), g.Bsize());
    Distribute(Quot(off + n - 1, g.Bsize()), 1, g.Bsize());
  }

  // ---------- There are such file systems, of every geometry ----------

  function Ones(n: nat): (b: Block)
    ensures |b| == n
  {
    seq(n, i => 255)
  }

  /** Every block is marked. */
  function MarkedDisk(g: Geometry): Disk {
    map b: nat | b < g.size :: MarkedBlock(g, b)
  }

  function MarkedBlock(g: Geometry, b: nat): (block: Block)
    ensures |block| == g.Bsize()
  {
    if g.bmapstart <= b < g.nmeta then Ones(g.Bsize()) else ZeroBlock(g.Bsize())
  }

  lemma OnesBit(n: nat, i: nat)
    requires i / 8 < n
    ensures Bit(Ones(n), i)
  {
    assert Mask(8) == 256;
    OnesHave(8, i % 8);
  }

  /** The low n bits of 2^n - 1 are set, and no others. */
  lemma {:induction false} OnesHave(n: nat, k: nat)
    ensures Has(Mask(n) - 1, k) <==> k < n
    decreases n + k
  {
    if n == 0 {
      ZeroHasNone(k);
    } else if k != 0 {
      OnesHave(n - 1, k - 1);
      assert (Mask(n) - 1) / 2 == Mask(n - 1) - 1;
    }
  }

  lemma MarkedBits(g: Geometry)
    requires GeometryOk(g)
    ensures DiskOk(g, MarkedDisk(g)) && forall b | 0 <= b < g.size :: BitOf(g, MarkedDisk(g), b)
  {
    forall b | 0 <= b < g.size ensures BitOf(g, MarkedDisk(g), b) {
      BitIndexFits(g, b);
      OnesBit(g.Bsize(), BitIndex(g, b));
    }
  }

  /** Every block but those of `free` is marked. */
  lemma {:induction false} FreedDisk(g: Geometry, free: seq<nat>) returns (d: Disk)
    requires GeometryOk(g) && forall k | 0 <= k < |free| :: free[k] < g.size
    ensures DiskOk(g, d) && forall b | 0 <= b < g.size :: BitOf(g, d, b) <==> b !in free
  {
    hide BitOf;
    if free == [] {
      MarkedBits(g);
      d := MarkedDisk(g);
    } else {
      var r := FreedDisk(g, free[1..]);
      MarkBits(g, r, free[0], false);
      d := Mark(g, r, free[0], false);
      assert free == [free[0]] + free[1..];
    }
  }

  /** The data blocks below n that are in use. */
  function UsedBelow(g: Geometry, free: seq<nat>, n: nat): (u: seq<nat>)
    requires g.nmeta <= n
    ensures forall b: nat :: b in u <==> g.nmeta <= b < n && b !in free
    ensures |u| <= n - g.nmeta && forall x, y | 0 <= x < y < |u| :: u[x] < u[y]
    decreases n
  {
    if n == g.nmeta then []
    else
      var u := UsedBelow(g, free, n - 1);
      if n - 1 in free then u else
        assert forall x | 0 <= x < |u| :: u[x] in u;
        u + [n - 1]
  }

  lemma {:induction false} ManyUsed(g: Geometry, free: seq<nat>, n: nat, m: nat)
    requires g.nmeta <= m <= n && forall b | b in free :: m <= b
    ensures m - g.nmeta <= |UsedBelow(g, free, n)|
    decreases n
  {
    if g.nmeta < m == n {
      ManyUsed(g, free, n - 1, m - 1);
    } else if m < n {
      ManyUsed(g, free, n - 1, m);
    }
  }

  /** The number of the first block of file i, among the blocks in use. */
  function Base(g: Geometry, i: nat): nat
    requires 1 <= i
  {
    (i - 1) * g.ndirect
  }

  /** How many blocks file i has. */
  function Length(g: Geometry, n: nat, i: nat): (r: nat)
    requires 1 <= i
    ensures r <= g.ndirect
  {
    if n <= Base(g, i) then 0 else if n - Base(g, i) < g.ndirect then n - Base(g, i) else g.ndirect
  }

  /** The blocks in use are dealt out to files of NDIRECT blocks each, the last one perhaps shorter. */
  function CrowdedInode(g: Geometry, u: seq<nat>, i: nat): (ino: Inode)
    requires 1 <= i
    ensures |ino.addrs| == g.ndirect + 1 && ino.size == Length(g, |u|, i) * g.Bsize()
  {
    Inode(seq(g.ndirect + 1, k requires 0 <= k => if k < Length(g, |u|, i) then u[Base(g, i) + k] else 0),
        Length(g, |u|, i) * g.Bsize())
  }

  ghost function CrowdedInodes(g: Geometry, u: seq<nat>): map<nat, Inode> {
    map i: nat | 1 <= i <= |u| && Base(g, i) < |u| :: CrowdedInode(g, u, i)
  }

  ghost function IndexIn(u: seq<nat>, b: nat): (x: nat)
    requires b in u
    ensures x < |u| && u[x] == b
  {
    var x: nat :| x < |u| && u[x] == b;
    x
  }

  ghost function CrowdedOwner(g: Geometry, u: seq<nat>): map<nat, (nat, nat)>
    requires 0 < g.ndirect
  {
    map b: nat | b in u :: (Quot(IndexIn(u, b), g.ndirect) + 1, Rem(IndexIn(u, b), g.ndirect))
  }

  /**
   The blocks of `free` are data blocks past the first NDIRECT, and files of NDIRECT
   blocks each that fill the disk have inode numbers within the inode blocks.
   */
  ghost predicate CanCrowd(g: Geometry, free: seq<nat>) {
    && GeometryOk(g) && 0 < g.ndirect && 2 <= g.nmeta && g.nmeta + g.ndirect <= g.size
    && (forall b | b in free :: g.nmeta + g.ndirect <= b < g.size)
    && InodeBlock(g, Quot(g.size - g.nmeta, g.ndirect) + 1) < g.bmapstart
  }

  lemma CrowdedRef(g: Geometry, d: Disk, u: seq<nat>, i: nat, k: nat)
    requires 1 <= i
    ensures Ref(g, d, CrowdedInode(g, u, i), k) == if k < Length(g, |u|, i) then u[Base(g, i) + k] else 0
  {
    hide Length, Base;
  }

  lemma CrowdedFit(g: Geometry, u: seq<nat>)
    requires 0 < g.ndirect && 0 < g.ipb && |u| <= g.size - g.nmeta
    requires InodeBlock(g, Quot(g.size - g.nmeta, g.ndirect) + 1) < g.bmapstart
    ensures InodesFit(g, CrowdedInodes(g, u))
  {
    hide CrowdedInode, Quot;
    forall i | i in CrowdedInodes(g, u) ensures InodeBlock(g, i) < g.bmapstart {
      DivAt(i - 1, 0, g.ndirect);
      QuotIs(Base(g, i), g.ndirect);
      QuotMonotone(Base(g, i), g.size - g.nmeta, g.ndirect);
      MkfsDisk.SmallerQuotient(i, Quot(g.size - g.nmeta, g.ndirect) + 1, g.ipb);
    }
  }

  lemma QuotIs(x: nat, d: nat)
    requires 0 < d
    ensures Quot(x, d) == x / d
  {
  }

  lemma Dealt(g: Geometry, u: seq<nat>, x: nat)
    requires 0 < g.ndirect && x < |u|
    ensures var i, k := Quot(x, g.ndirect) + 1, Rem(x, g.ndirect);
            && i <= |u| && Base(g, i) + k == x && k < Length(g, |u|, i)
  {
    hide Quot, Rem;
    QuotRem(x, g.ndirect);
    MulMonotone(1, g.ndirect, Quot(x, g.ndirect));
  }

  lemma DealtBack(g: Geometry, u: seq<nat>, i: nat, k: nat)
    requires 0 < g.ndirect && 1 <= i && k < Length(g, |u|, i)
    requires forall x, y | 0 <= x < y < |u| :: u[x] < u[y]
    ensures Base(g, i) + k < |u| && var b := u[Base(g, i) + k];
            b in u && IndexIn(u, b) == Base(g, i) + k && CrowdedOwner(g, u)[b] == (i, k)
  {
    hide IndexIn;
    DivAt(i - 1, k, g.ndirect);
  }

  /** A block in use is in the slot it was dealt to. */
  lemma OwnerHasIt(g: Geometry, d: Disk, u: seq<nat>, b: nat)
    requires 0 < g.ndirect && b in u
    ensures var (i, k) := CrowdedOwner(g, u)[b];
            IsSlot(g, CrowdedInodes(g, u), i, k) && Ref(g, d, CrowdedInodes(g, u)[i], k) == b
  {
    hide Ref, CrowdedInode, Length, Base, IndexIn, Quot, Rem;
    Dealt(g, u, IndexIn(u, b));
    CrowdedRef(g, d, u, CrowdedOwner(g, u)[b].0, CrowdedOwner(g, u)[b].1);
  }

  lemma SlotIsOwned(g: Geometry, d: Disk, u: seq<nat>, i: nat, k: nat)
    requires 0 < g.ndirect && forall x, y | 0 <= x < y < |u| :: u[x] < u[y]
    requires IsSlot(g, CrowdedInodes(g, u), i, k) && Ref(g, d, CrowdedInodes(g, u)[i], k) != 0
    ensures Owns(CrowdedOwner(g, u), Ref(g, d, CrowdedInodes(g, u)[i], k), i, k)
  {
    hide Ref, CrowdedInode, Length, Base, IndexIn, Quot, Rem;
    CrowdedRef(g, d, u, i, k);
    DealtBack(g, u, i, k);
  }

  lemma CrowdedOwn(g: Geometry, d: Disk, free: seq<nat>, u: seq<nat>)
    requires CanCrowd(g, free) && DiskOk(g, d) && forall b | 0 <= b < g.size :: BitOf(g, d, b) <==> b !in free
    requires u == UsedBelow(g, free, g.size)
    ensures Shape(g, d, CrowdedInodes(g, u)) && Own(g, d, CrowdedInodes(g, u), CrowdedOwner(g, u), {})
  {
    hide Ref, BitOf, CrowdedInode, DiskOk, UsedBelow, Base, IndexIn, Quot, Rem, CanCrowd;
    CrowdFacts(g, free);
    var inodes, owner := CrowdedInodes(g, u), CrowdedOwner(g, u);
    forall b | b in owner
      ensures IsSlot(g, inodes, owner[b].0, owner[b].1) && Ref(g, d, inodes[owner[b].0], owner[b].1) == b
    {
      OwnerHasIt(g, d, u, b);
    }
    forall i: nat, k: nat | IsSlot(g, inodes, i, k) && Ref(g, d, inodes[i], k) != 0
      ensures Owns(owner, Ref(g, d, inodes[i], k), i, k)
    {
      SlotIsOwned(g, d, u, i, k);
    }
  }

  lemma CrowdFacts(g: Geometry, free: seq<nat>)
    requires CanCrowd(g, free)
    ensures GeometryOk(g) && 0 < g.ndirect && g.nmeta + g.ndirect <= g.size
    ensures forall b | b in free :: g.nmeta + g.ndirect <= b < g.size
  {
  }

  lemma CrowdedNoHoles(g: Geometry, d: Disk, u: seq<nat>)
    requires 0 < g.nindirect && forall x | 0 <= x < |u| :: u[x] != 0
    ensures NoHoles(g, d, CrowdedInodes(g, u))
  {
    hide Ref, Quot, CrowdedInode, Base;
    var inodes := CrowdedInodes(g, u);
    forall i | i in inodes
      ensures inodes[i].size <= g.Maxfile() * g.Bsize() && Mapped(g, d, inodes[i], inodes[i].size) {
      var n := Length(g, |u|, i);
      MulMonotone(n, g.Maxfile(), g.Bsize());
      forall p | 0 <= p < inodes[i].size ensures BlockOf(g, d, inodes[i], p) != 0 {
        QuotBelow(p, n, g.Bsize());
        CrowdedRef(g, d, u, i, g.Slot(Bn(g, p)));
      }
    }
  }

  /** The place of the write: the second byte of the last direct block. */
  function CrossingAt(g: Geometry): nat
    requires 0 < g.ndirect
  {
    (g.ndirect - 1) * g.Bsize() + 1
  }

  lemma CrossingSpan(g: Geometry, q: nat)
    requires 0 < g.ndirect && 0 < g.nindirect && 1 <= q
    ensures var off := CrossingAt(g);
            && Bn(g, off) + 1 == g.ndirect && At(g, off) == 1 && 0 < q * g.Bsize()
                && EndBn(g, off, q * g.Bsize()) == g.ndirect + q
            && off <= g.ndirect * g.Bsize()
  {
    var d := g.Bsize();
    DivAt(g.ndirect - 1, 1, d);
    MulMonotone(1, q, d);
    Distribute(g.ndirect - 1, q, d);
    Distribute(g.ndirect - 1, 1, d);
    DivAt(g.ndirect - 1 + q, 0, d);
  }

  ghost predicate DistinctSeq(s: seq<nat>) {
    forall i, j | 0 <= i < j < |s| :: s[i] != s[j]
  }

  ghost function Elements(s: seq<nat>): set<nat> {
    set b | b in s
  }

  lemma {:induction false} ElementsCard(s: seq<nat>)
    requires DistinctSeq(s)
    ensures |Elements(s)| == |s|
  {
    if s != [] {
      ElementsCard(s[1..]);
      assert Elements(s) == {s[0]} + Elements(s[1..]);
    }
  }

  /**
   For every geometry with enough inodes, and any q + 1 data blocks past the first
   NDIRECT, there is a file system in which just these are free and a chunk of q blocks
   meets the bound that ExactlyLogged gives: for every distribution over the bitmap
   blocks.
   */
  lemma CrossingExists(g: Geometry, q: nat, free: seq<nat>) returns (s: Snapshot)
    requires CanCrowd(g, free) && DistinctSeq(free) && |free| == q + 1 && 1 <= q <= g.nindirect
    ensures Crossing(g, s, 1, CrossingAt(g), q * g.Bsize(), q, Elements(free))
  {
    hide Ref, BitOf, Bn, At, EndBn, Own, NoHoles, InodeBlock, CrossingAt, Geometry.Bsize, CrowdedOwner, CrowdedInode,
         UsedBelow, InodesFit;
    forall k | 0 <= k < |free| ensures free[k] < g.size {
      assert free[k] in free;
    }
    var d := FreedDisk(g, free);
    var u := UsedBelow(g, free, g.size);
    CrowdedOwn(g, d, free, u);
    forall x | 0 <= x < |u| ensures u[x] != 0 {
      assert u[x] in u;
    }
    CrowdedNoHoles(g, d, u);
    CrowdedFit(g, u);
    ManyUsed(g, free, g.size, g.nmeta + g.ndirect);
    FirstFile(g, d, u);
    CrossingSpan(g, q);
    ElementsCard(free);
    s := Snapshot(d, CrowdedInodes(g, u), CrowdedOwner(g, u), {});
  }

  lemma FirstFile(g: Geometry, d: Disk, u: seq<nat>)
    requires 0 < g.ndirect <= |u|
    ensures 1 in CrowdedInodes(g, u) && CrowdedInodes(g, u)[1].size == g.ndirect * g.Bsize()
    ensures CrowdedInodes(g, u)[1].addrs[g.ndirect] == 0
  {
  }

  // ---------- The numbers of param.h and fs.h ----------

  /** NDIRECT 12, BSIZE 1024, LOGSIZE 30, IPB 16; FSSIZE and NINODES as given. */
  function Xv6(fssize: nat, ninodes: nat): Geometry {
    MkfsDisk.Layout(fssize, 30, ninodes, 16, 12, 256)
  }

  lemma Xv6Is(fssize: nat, ninodes: nat)
    requires fssize < WORDS && Xv6(fssize, ninodes).nmeta <= fssize
    ensures var g := Xv6(fssize, ninodes);
            && GeometryOk(g) && g.Bsize() == 1024 && g.Bpb() == 8192 && g.ndirect == 12 && g.nindirect == 256
                && g.size == fssize
            && 2 <= g.nmeta == g.bmapstart + fssize / 8192 + 1 && g.bmapstart == 33 + ninodes / 16
            && g.ipb == 16 && g.inodestart == 32
            && forall b: nat :: BitBlock(g, b) == g.bmapstart + b / 8192
  {
    MkfsDisk.LayoutIsOk(fssize, 30, ninodes, 16, 12, 256);
  }

  /**
   MAXOPBLOCKS 10, so chunks of three blocks. On the disk mkfs makes, with one bitmap
   block, they log seven blocks at most.
   */
  lemma MkfsBudget()
    ensures ChunkBlocks(10) == 3 && Bitmaps(Xv6(2000, 200)) == 1 && Budget(Xv6(2000, 200), 3) == 7
  {
    hide MkfsDisk.Layout;
    Xv6Small();
  }

  lemma Xv6Small()
    ensures var g := Xv6(2000, 200);
            && g.nmeta == 46 && g.Bpb() == 8192 && g.size == 2000 && g.nindirect == 256 && 0 < g.ndirect && 0 < g.ipb
            && InodeBlock(g, Quot(g.size - g.nmeta, g.ndirect) + 1) < g.bmapstart
  {
  }

  lemma Xv6Big()
    ensures var g := Xv6(32768, 2800);
            && g.nmeta == 213 && g.Bpb() == 8192 && g.size == 32768 && g.nindirect == 256 && 0 < g.ndirect && 0 < g.ipb
            && InodeBlock(g, Quot(g.size - g.nmeta, g.ndirect) + 1) < g.bmapstart
  {
  }

  /** Seven are logged when all but four blocks are in use. */
  lemma MkfsBudgetMet() returns (s: Snapshot, free: set<nat>)
    ensures Crossing(Xv6(2000, 200), s, 1, CrossingAt(Xv6(2000, 200)), 3 * 1024, 3, free)
    ensures 3 + 3 + |BitBlocks(Xv6(2000, 200), free)| == Budget(Xv6(2000, 200), 3) == 7
  {
    hide Crossing, MkfsDisk.Layout, Xv6, InodeBlock, GeometryOk, BitBlock, CrossingAt, Budget;
    var g, blocks := Xv6(2000, 200), [1996, 1997, 1998, 1999];
    Xv6Small();
    Xv6Is(2000, 200);
    MkfsBudget();
    s := CrossingExists(g, 3, blocks);
    free := Elements(blocks);
    assert 1996 in free && forall b | b in free :: 1996 <= b < 2000;
    assert forall b | b in free :: BitBlock(g, b) == g.bmapstart;
    assert BitBlocks(g, free) == {g.bmapstart};
  }

  /** On a disk with four bitmap blocks the bound is MAXOPBLOCKS itself, and met: with one block of each free. */
  lemma FourBitmapsMet() returns (s: Snapshot, free: set<nat>)
    ensures Crossing(Xv6(32768, 2800), s, 1, CrossingAt(Xv6(32768, 2800)), 3 * 1024, 3, free)
    ensures 3 + 3 + |BitBlocks(Xv6(32768, 2800), free)| == Budget(Xv6(32768, 2800), 3) == 10
  {
    hide Crossing, MkfsDisk.Layout, Xv6, InodeBlock, GeometryOk, BitBlock, CrossingAt;
    var g, blocks := Xv6(32768, 2800), [8191, 16383, 24575, 32767];
    Xv6Big();
    Xv6Is(32768, 2800);
    s := CrossingExists(g, 3, blocks);
    free := Elements(blocks);
    assert free == {8191, 16383, 24575, 32767};
    assert BitBlock(g, 8191) == g.bmapstart && BitBlock(g, 16383) == g.bmapstart + 1;
    assert BitBlock(g, 24575) == g.bmapstart + 2 && BitBlock(g, 32767) == g.bmapstart + 3;
    assert BitBlocks(g, free) == {g.bmapstart, g.bmapstart + 1, g.bmapstart + 2, g.bmapstart + 3};
  }
}
