/**
 The disk that mkfs/mkfs.c builds: its layout, its bitmap, the blocks its files get
 and its inodes.

 mkfs hands out blocks in order and writes the bitmap last.  The proof follows
 it on the disk as it will be, with the bits of the blocks handed out so far
 already set: on that disk mkfs's allocations are balloc's, and its writes
 writei's.
 */
module MkfsDisk {
  import opened Arithmetic
  import opened Blocks
  import opened Fs
  import opened FileSystem
  import opened FileBytes
  import opened Dinodes

  // ---------- The layout ----------

  /** boot block, super block, log, inode blocks, bitmap, data: FSSIZE = size, BSIZE = 4 * nindirect. */
  function Layout(size: nat, nlog: nat, ninodes: nat, ipb: nat, ndirect: nat, nindirect: nat): Geometry
    requires 0 < ipb && 0 < nindirect
  {
    var bmapstart := 2 + nlog + (ninodes / ipb + 1);
    Geometry(size, bmapstart + (Quot(size, 32 * nindirect) + 1), 2 + nlog, ipb, bmapstart, ndirect, nindirect)
  }

  lemma LayoutIsOk(size: nat, nlog: nat, ninodes: nat, ipb: nat, ndirect: nat, nindirect: nat)
    requires 0 < ipb && 0 < nindirect && Layout(size, nlog, ninodes, ipb, ndirect, nindirect).nmeta <= size < WORDS
    ensures var g := Layout(size, nlog, ninodes, ipb, ndirect, nindirect);
            && GeometryOk(g)
            && (forall i: nat | i <= ninodes :: 2 + nlog <= InodeBlock(g, i) < g.bmapstart)
            && (forall b: nat | b < size :: g.bmapstart <= BitBlock(g, b) < g.nmeta)
  {
    hide Quot, Layout;
    var g := Layout(size, nlog, ninodes, ipb, ndirect, nindirect);
    LayoutRegions(size, nlog, ninodes, ipb, ndirect, nindirect);
    forall b: nat | b < size ensures g.bmapstart <= BitBlock(g, b) < g.nmeta {
      QuotMonotone(b, size, g.Bpb());
    }
    forall i: nat | i <= ninodes ensures 2 + nlog <= InodeBlock(g, i) < g.bmapstart {
      SmallerQuotient(i, ninodes, ipb);
    }
  }

  lemma LayoutRegions(size: nat, nlog: nat, ninodes: nat, ipb: nat, ndirect: nat, nindirect: nat)
    requires 0 < ipb && 0 < nindirect
    ensures var g := Layout(size, nlog, ninodes, ipb, ndirect, nindirect);
            && g.size == size && g.nindirect == nindirect && g.ipb == ipb && g.inodestart == 2 + nlog
            && g.bmapstart == 2 + nlog + ninodes / ipb + 1 && g.nmeta == g.bmapstart + Quot(size, g.Bpb()) + 1
  {
    hide Quot;
  }

  lemma SmallerQuotient(i: nat, n: nat, d: nat)
    requires i <= n && 0 < d
    ensures i / d <= n / d
  {
    QuotMonotone(i, n, d);
  }

  // ---------- The disk as it will be ----------

  ghost function Bitted(g: Geometry, disk: Disk, n: nat): (d: Disk)
    requires GeometryOk(g) && DiskOk(g, disk) && n <= g.size
    ensures DiskOk(g, d)
  {
    if n == 0 then disk else
      MarkBits(g, Bitted(g, disk, n - 1), n - 1, true);
      Mark(g, Bitted(g, disk, n - 1), n - 1, true)
  }

  ghost predicate BitmapZero(g: Geometry, disk: Disk)
    requires GeometryOk(g) && DiskOk(g, disk)
  {
    forall b | 0 <= b < g.size :: !BitOf(g, disk, b)
  }

  lemma {:induction false} BittedBits(g: Geometry, disk: Disk, n: nat)
    requires GeometryOk(g) && DiskOk(g, disk) && n <= g.size && BitmapZero(g, disk)
    ensures forall b | 0 <= b < g.size :: BitOf(g, Bitted(g, disk, n), b) <==> b < n
  {
    hide BitOf;
    if n != 0 {
      BittedBits(g, disk, n - 1);
      MarkBits(g, Bitted(g, disk, n - 1), n - 1, true);
    }
  }

  lemma StillDisk(g: Geometry, disk: Disk, b: nat, block: Block)
    requires DiskOk(g, disk) && |block| == g.Bsize()
    ensures DiskOk(g, disk[b := block])
  {
  }

  /** No block's bit is in block b. */
  ghost predicate NotBitmap(g: Geometry, b: nat)
    requires 0 < g.nindirect
  {
    b < g.size && forall c | 0 <= c < g.size :: BitBlock(g, c) != b
  }

  lemma DataNotBitmap(g: Geometry, b: nat)
    requires GeometryOk(g) && g.nmeta <= b < g.size
    ensures NotBitmap(g, b)
  {
  }

  lemma InodeNotBitmap(g: Geometry, b: nat)
    requires GeometryOk(g) && b < g.bmapstart
    ensures NotBitmap(g, b) && g.bmapstart < g.nmeta
  {
    hide Quot;
    assert 0 < BitBlock(g, 0) < g.nmeta;
  }

  lemma MarkAndWrite(g: Geometry, disk: Disk, n: nat, b: nat, block: Block)
    requires GeometryOk(g) && DiskOk(g, disk) && n < g.size && NotBitmap(g, b) && |block| == g.Bsize()
    ensures BitBlock(g, n) in disk && |disk[BitBlock(g, n)]| == g.Bsize()
    ensures BitBlock(g, n) != b && Mark(g, disk[b := block], n, true) == Mark(g, disk, n, true)[b := block]
  {
    hide SetBit, ClearBit, BitIndex;
    BitIndexFits(g, n);
    var bb, d := BitBlock(g, n), disk[b := block];
    assert bb < g.nmeta && d[bb] == disk[bb];
    var marked := SetBit(disk[bb], BitIndex(g, n));
    assert d[bb := marked] == disk[bb := marked][b := block];
  }

  lemma {:induction false} BittedWrite(g: Geometry, disk: Disk, n: nat, b: nat, block: Block)
    requires GeometryOk(g) && DiskOk(g, disk) && n <= g.size && NotBitmap(g, b) && |block| == g.Bsize()
    ensures DiskOk(g, disk[b := block]) && Bitted(g, disk[b := block], n) == Bitted(g, disk, n)[b := block]
  {
    hide GeometryOk, Mark, DiskOk, BitOf, NotBitmap;
    StillDisk(g, disk, b, block);
    if n != 0 {
      BittedWrite(g, disk, n - 1, b, block);
      MarkAndWrite(g, Bitted(g, disk, n - 1), n - 1, b, block);
    }
  }

  /** Marking blocks changes the bitmap only. */
  lemma {:induction false} BittedData(g: Geometry, disk: Disk, n: nat)
    requires GeometryOk(g) && DiskOk(g, disk) && n <= g.size
    ensures Bitted(g, disk, n).Keys == disk.Keys
    ensures forall b | 0 <= b < g.size && NotBitmap(g, b) :: Bitted(g, disk, n)[b] == disk[b]
  {
    if n != 0 {
      BittedData(g, disk, n - 1);
      MarkBits(g, Bitted(g, disk, n - 1), n - 1, true);
    }
  }

  lemma OtherKeepsBits(g: Geometry, disk: Disk, b: nat, block: Block)
    requires GeometryOk(g) && DiskOk(g, disk) && NotBitmap(g, b) && |block| == g.Bsize()
    ensures DiskOk(g, disk[b := block])
    ensures forall c | 0 <= c < g.size :: BitOf(g, disk[b := block], c) <==> BitOf(g, disk, c)
    ensures BitmapZero(g, disk) ==> BitmapZero(g, disk[b := block])
  {
    hide Bit, BitIndex;
    StillDisk(g, disk, b, block);
    var d := disk[b := block];
    forall c | 0 <= c < g.size ensures BitOf(g, d, c) <==> BitOf(g, disk, c) {
      assert BitBlock(g, c) != b;
    }
  }

  /** Handing out the next block, still zero, is what balloc would have done. */
  lemma BittedNext(g: Geometry, disk: Disk, n: nat)
    requires GeometryOk(g) && DiskOk(g, disk) && BitmapZero(g, disk) && g.nmeta <= n < g.size
             && disk[n] == ZeroBlock(g.Bsize())
    ensures !BitOf(g, Bitted(g, disk, n), n) && Bitted(g, disk, n + 1) == Allocated(g, Bitted(g, disk, n), n)
  {
    hide BitOf, Bit, SetBit;
    BittedBits(g, disk, n);
    BittedData(g, disk, n);
    MarkBits(g, Bitted(g, disk, n), n, true);
  }

  // ---------- The bitmap block ----------

  /** A block with its first n bits set. */
  function BitmapOf(size: nat, n: nat): (buf: Block)
    requires n <= 8 * size
    ensures |buf| == size
  {
    if n == 0 then ZeroBlock(size) else SetBit(BitmapOf(size, n - 1), n - 1)
  }

  lemma {:induction false} BitmapBits(size: nat, n: nat, k: nat)
    requires n <= 8 * size && k < 8 * size
    ensures Bit(BitmapOf(size, n), k) <==> k < n
    decreases n
  {
    hide Bit, SetBit;
    if n == 0 {
      BitOfZero(size, k);
    } else {
      BitmapBits(size, n - 1, k);
      BitAfterSet(BitmapOf(size, n - 1), n - 1, k);
    }
  }

  /** The bitmap starts among the metadata blocks. */
  lemma BitmapBlock(g: Geometry, disk: Disk)
    requires GeometryOk(g) && DiskOk(g, disk)
    ensures g.bmapstart < g.nmeta && g.bmapstart in disk && |disk[g.bmapstart]| == g.Bsize()
  {
    assert BitBlock(g, 0) == g.bmapstart by {
      DivAt(0, 0, g.Bpb());
    }
  }

  lemma FirstBitmap(g: Geometry, b: nat)
    requires 0 < g.nindirect && b < g.Bpb()
    ensures BitBlock(g, b) == g.bmapstart && BitIndex(g, b) == b
  {
    DivAt(0, b, g.Bpb());
  }

  /** The bitmap mkfs writes last is the one the proof has followed. */
  lemma {:induction false} WrittenBitmap(g: Geometry, disk: Disk, n: nat)
    requires GeometryOk(g) && DiskOk(g, disk) && n <= g.size && n < g.Bpb()
    requires g.bmapstart in disk && disk[g.bmapstart] == ZeroBlock(g.Bsize())
    ensures Bitted(g, disk, n) == disk[g.bmapstart := BitmapOf(g.Bsize(), n)]
    decreases n
  {
    hide BitOf, Bit, SetBit, ZeroBlock, GeometryOk, DiskOk, BitIndex, BitBlock;
    if n == 0 {
      assert disk == disk[g.bmapstart := ZeroBlock(g.Bsize())];
    } else {
      WrittenBitmap(g, disk, n - 1);
      FirstBitmap(g, n - 1);
    }
  }

  // ---------- Giving a file a block ----------

  ghost function AddrFilled(g: Geometry, s: Snapshot, i: nat, k: nat, b: nat): Snapshot
    requires SnapshotOk(g, s) && i in s.inodes && k <= g.ndirect && b < g.size
  {
    Snapshot(Allocated(g, s.disk, b), s.inodes[i := WithAddr(s.inodes[i], k, b)], s.owner[b := (i, k)],
        s.logged + {BitBlock(g, b), b})
  }

  lemma FillsAddr(g: Geometry, s: Snapshot, i: nat, k: nat, b: nat)
    requires SnapshotOk(g, s) && i in s.inodes && k <= g.ndirect && b < g.size && s.inodes[i].addrs[k] == 0
             && !BitOf(g, s.disk, b)
    ensures Fills(g, s, AddrFilled(g, s, i, k, b), i, {k}, {})
  {
    hide BitOf, Own, Grows, Logs, Allocated, BitBlock;
    DirectAdded(g, s.disk, s.inodes, s.owner, i, k, b);
    LogsOne(g, s.logged, s.owner, b, (i, k));
  }

  ghost function WordFilled(g: Geometry, s: Snapshot, i: nat, n: nat, b: nat): Snapshot
    requires SnapshotOk(g, s) && i in s.inodes && n < g.nindirect && b < g.size
             && s.inodes[i].addrs[g.ndirect] in Allocated(g, s.disk, b)
    requires |Allocated(g, s.disk, b)[s.inodes[i].addrs[g.ndirect]]| == g.Bsize()
  {
    var d, ind := Allocated(g, s.disk, b), s.inodes[i].addrs[g.ndirect];
    Snapshot(d[ind := PutWord(d[ind], n, b)], s.inodes, s.owner[b := (i, g.ndirect + 1 + n)],
        s.logged + {BitBlock(g, b), b} + {ind})
  }

  lemma FillsWord(g: Geometry, s: Snapshot, i: nat, n: nat, b: nat)
    requires SnapshotOk(g, s) && i in s.inodes && n < g.nindirect && b < g.size && !BitOf(g, s.disk, b)
    requires s.inodes[i].addrs[g.ndirect] != 0 && Ref(g, s.disk, s.inodes[i], g.ndirect + 1 + n) == 0
    ensures var ind := s.inodes[i].addrs[g.ndirect];
            && g.nmeta <= ind < g.size && ind != b && ind in s.disk && |s.disk[ind]| == g.Bsize()
            && ind in Allocated(g, s.disk, b) && Allocated(g, s.disk, b)[ind] == s.disk[ind]
            && Fills(g, s, WordFilled(g, s, i, n, b), i, {g.ndirect + 1 + n}, {ind})
            && Ref(g, WordFilled(g, s, i, n, b).disk, s.inodes[i], g.ndirect + 1 + n) == b
  {
    hide BitOf, Grows, Logs, Allocated, BitBlock, PutWord, Ref;
    IndirectAdded(g, s.disk, s.inodes, s.owner, i, n, b);
    LogsExtra(g, s.logged, s.owner, b, (i, g.ndirect + 1 + n), s.inodes[i].addrs[g.ndirect]);
    var ind := s.inodes[i].addrs[g.ndirect];
    assert ind in s.disk by { IndirectWord(g, s.disk, s.inodes, s.owner, i, n); }
    var s1 := WordFilled(g, s, i, n, b);
    OwnedRef(g, s1.disk, s1.inodes, s1.owner, b);
  }

  lemma FillsNothing(g: Geometry, s: Snapshot, i: nat, ks: set<nat>)
    requires SnapshotOk(g, s) && i in s.inodes
    ensures Fills(g, s, s, i, ks, {})
  {
    hide Own, Grows, Logs;
    GrowsReflexive(g, s.disk, s.inodes, s.owner, i, ks);
    LogsNone(g, s.logged, s.owner);
  }

  lemma FillsTwice(g: Geometry, s: Snapshot, s1: Snapshot, s2: Snapshot, i: nat, ks: set<nat>, ls: set<nat>,
                   ms: set<nat>, x: set<nat>, y: set<nat>)
    requires Fills(g, s, s1, i, ks, x) && Fills(g, s1, s2, i, ls, y) && ks <= ms && ls <= ms
    ensures Fills(g, s, s2, i, ms, x + y)
  {
    hide Own, Grows, Logs, Shape, IndirectBlock;
    GrowsTransitive(g, s.disk, s.inodes, s.owner, s1.disk, s1.inodes, s1.owner, s2.disk, s2.inodes, s2.owner, i, ks, ls,
        ms);
    GrowsKeys(g, s.disk, s.inodes, s.owner, s1.disk, s1.inodes, s1.owner, i, ks);
    GrowsKeys(g, s1.disk, s1.inodes, s1.owner, s2.disk, s2.inodes, s2.owner, i, ls);
    LogsTransitive(g, s.logged, s.owner, s1.logged, s1.owner, x, s2.logged, s2.owner, y, x + y);
    IndirectKept(g, s1.disk, s1.inodes, s1.owner, s2.disk, s2.inodes, s2.owner, i, ls);
  }

  // ---------- How many blocks a file takes ----------

  /** The data blocks of a file of n bytes. */
  function DataCount(g: Geometry, n: nat): nat
    requires 0 < g.nindirect
  {
    if n == 0 then 0 else Bn(g, n - 1) + 1
  }

  /** All its blocks: more than NDIRECT need an indirect block. */
  function Takes(g: Geometry, n: nat): nat
    requires 0 < g.nindirect
  {
    DataCount(g, n) + if g.ndirect < DataCount(g, n) then 1 else 0
  }

  lemma TakesMonotone(g: Geometry, m: nat, n: nat)
    requires 0 < g.nindirect && m <= n
    ensures Takes(g, m) <= Takes(g, n)
  {
    hide Bn;
    if 0 < m {
      BnMonotone(g, m - 1, n - 1);
    }
  }

  /** A file has blocks for its first n bytes and no others. */
  ghost predicate ExactlyMapped(g: Geometry, disk: Disk, ino: Inode, n: nat)
    requires 0 < g.nindirect
  {
    && |ino.addrs| == g.ndirect + 1 && (ino.addrs[g.ndirect] != 0 <==> g.ndirect < DataCount(g, n))
    && forall bn: nat | bn < g.Maxfile() :: Ref(g, disk, ino, g.Slot(bn)) != 0 <==> bn < DataCount(g, n)
  }

  /** How many blocks iappend has to hand out for block bn of a file. */
  ghost function Missing(g: Geometry, disk: Disk, ino: Inode, bn: nat): nat {
    (if Ref(g, disk, ino, g.Slot(bn)) == 0 then 1 else 0) + MissingIndirect(g, ino, bn)
  }

  ghost function MissingIndirect(g: Geometry, ino: Inode, bn: nat): nat {
    if g.ndirect <= bn && g.ndirect < |ino.addrs| && ino.addrs[g.ndirect] == 0 then 1 else 0
  }

  /** Before the block of byte p is there or not, the file has the blocks before it. */
  lemma CountAt(g: Geometry, p: nat)
    requires 0 < g.nindirect
    ensures DataCount(g, p) == if At(g, p) == 0 then Bn(g, p) else Bn(g, p) + 1
  {
    hide Quot, Rem;
    QuotRem(p, g.Bsize());
    if At(g, p) != 0 {
      LastByteBefore(p, g.Bsize());
    } else if p != 0 {
      var q := Bn(g, p);
      Distribute(q - 1, 1, g.Bsize());
      AtQuot(q - 1, g.Bsize() - 1, g.Bsize());
    }
  }

  lemma AtQuot(q: nat, r: nat, d: nat)
    requires r < d
    ensures Quot(q * d + r, d) == q
  {
    DivAt(q, r, d);
  }

  /** What is missing for m more bytes within a block is what a longer file takes. */
  lemma MissingIs(g: Geometry, disk: Disk, ino: Inode, p: nat, m: nat)
    requires 0 < g.nindirect && ExactlyMapped(g, disk, ino, p) && Bn(g, p) < g.Maxfile()
    requires 0 < m && At(g, p) + m <= g.Bsize()
    ensures DataCount(g, p + m) == Bn(g, p) + 1 && DataCount(g, p) <= Bn(g, p) + 1 <= DataCount(g, p) + 1
    ensures Takes(g, p) + Missing(g, disk, ino, Bn(g, p)) == Takes(g, p + m)
  {
    hide Bn, At, Ref;
    CountAt(g, p);
    SameBlock(g, p, m - 1);
  }

  /** With that block there, the file is exactly mapped for the longer size. */
  lemma FilledExactly(g: Geometry, s: Snapshot, s1: Snapshot, i: nat, p: nat, m: nat, extra: set<nat>)
    requires 0 < g.nindirect && Fills(g, s, s1, i, SlotsFor(g, Bn(g, p)), extra)
    requires ExactlyMapped(g, s.disk, s.inodes[i], p)
    requires Bn(g, p) < g.Maxfile() && Ref(g, s1.disk, s1.inodes[i], g.Slot(Bn(g, p))) != 0
    requires 0 < m && At(g, p) + m <= g.Bsize()
    ensures ExactlyMapped(g, s1.disk, s1.inodes[i], p + m)
  {
    hide Bn, At, Ref, Own, Logs, IndirectBlock, Geometry.Bsize, DataCount;
    var hi, ino, ino1 := Bn(g, p), s.inodes[i], s1.inodes[i];
    MissingIs(g, s.disk, ino, p, m);
    forall bn: nat | bn < g.Maxfile()
      ensures Ref(g, s1.disk, ino1, g.Slot(bn)) != 0 <==> bn < DataCount(g, p + m) {
      assert IsSlot(g, s.inodes, i, g.Slot(bn));
    }
    assert IsSlot(g, s.inodes, i, g.ndirect);
    IndirectRefs(g, s.disk, ino, g.Slot(hi));
    IndirectRefs(g, s1.disk, ino1, g.Slot(hi));
  }

  lemma IndirectRefs(g: Geometry, d: Disk, ino: Inode, k: nat)
    requires |ino.addrs| == g.ndirect + 1
    ensures Ref(g, d, ino, g.ndirect) == ino.addrs[g.ndirect]
    ensures g.ndirect < k && Ref(g, d, ino, k) != 0 ==> ino.addrs[g.ndirect] != 0
  {
  }

  /** Writing a block that is nobody's indirect block leaves it so. */
  lemma ExactlyKept(g: Geometry, d: Disk, inodes: map<nat, Inode>, b: nat, block: Block, j: nat, n: nat)
    requires 0 < g.nindirect && Shape(g, d, inodes) && NotIndirect(g, inodes, b) && j in inodes
    requires ExactlyMapped(g, d, inodes[j], n)
    ensures ExactlyMapped(g, d[b := block], inodes[j], n)
  {
    hide Ref, DataCount;
    RefsKept(g, d, inodes, b, block);
    forall bn: nat | bn < g.Maxfile()
      ensures Ref(g, d[b := block], inodes[j], g.Slot(bn)) == Ref(g, d, inodes[j], g.Slot(bn)) {
      assert IsSlot(g, inodes, j, g.Slot(bn));
    }
  }

  lemma SizeKeepsExact(g: Geometry, d: Disk, ino: Inode, size: nat, n: nat)
    requires 0 < g.nindirect && ExactlyMapped(g, d, ino, n)
    ensures ExactlyMapped(g, d, ino.(size := size), n)
  {
    hide Ref, DataCount;
    SizeKeepsRefs(g, d, ino, size);
  }

  // ---------- Inodes on the disk ----------

  /** The layout has room for IPB dinodes in a block, and inode blocks between the log and the bitmap. */
  ghost predicate PlanOk(g: Geometry) {
    && GeometryOk(g) && PackOk(g) && 2 <= g.inodestart < g.bmapstart && (g.Maxfile() + 1) * g.Bsize() < WORDS
  }

  /** mkfs's layouts have all that, and room for NINODES inodes besides number 0. */
  lemma LayoutPlan(size: nat, nlog: nat, ninodes: nat, ipb: nat, ndirect: nat, nindirect: nat)
    requires 0 < ipb && 0 < nindirect && Layout(size, nlog, ninodes, ipb, ndirect, nindirect).nmeta <= size < WORDS
    requires ipb * (4 + ndirect) <= nindirect && (ndirect + nindirect + 1) * (4 * nindirect) < WORDS
    ensures var g := Layout(size, nlog, ninodes, ipb, ndirect, nindirect); PlanOk(g) && ninodes < Slots(g)
  {
    hide GeometryOk, Quot;
    var g := Layout(size, nlog, ninodes, ipb, ndirect, nindirect);
    LayoutIsOk(size, nlog, ninodes, ipb, ndirect, nindirect);
    SlotIs(g, ninodes);
  }

  /** How many inodes the inode blocks hold. */
  function Slots(g: Geometry): nat
    requires g.inodestart <= g.bmapstart
  {
    (g.bmapstart - g.inodestart) * g.ipb
  }

  /**
   An inode number is within the inode blocks if and only if it is less than that,
   and the next is the bitmap's first.
   */
  lemma SlotIs(g: Geometry, i: nat)
    requires 0 < g.ipb && g.inodestart <= g.bmapstart
    ensures InodeBlock(g, i) < g.bmapstart <==> i < Slots(g)
    ensures InodeBlock(g, Slots(g)) == g.bmapstart && Rem(Slots(g), g.ipb) == 0
  {
    var n := g.bmapstart - g.inodestart;
    DivAt(n, 0, g.ipb);
    if i < Slots(g) {
      QuotBelow(i, n, g.ipb);
    } else {
      QuotMonotone(Slots(g), i, g.ipb);
    }
  }

  /** Inode i is within the inode blocks, and what they hold of it. */
  ghost predicate IsStored(g: Geometry, disk: Disk, i: nat, typ: nat, ino: Inode)
    requires PackOk(g)
  {
    InodeBlock(g, i) < g.bmapstart && OnDisk(g, disk, i) && Rinode(g, disk, i) == Dinode(typ, 1, ino)
  }

  /** The same inode blocks hold the same inodes. */
  lemma StoredKept(g: Geometry, d: Disk, d': Disk, i: nat, typ: nat, ino: Inode)
    requires PackOk(g) && IsStored(g, d, i, typ, ino)
    requires InodeBlock(g, i) in d' && d'[InodeBlock(g, i)] == d[InodeBlock(g, i)]
    ensures IsStored(g, d', i, typ, ino)
  {
  }

  /** Writing a metadata block other than the bitmap's changes no file. */
  lemma MetaKeepsOwn(g: Geometry, d: Disk, inodes: map<nat, Inode>, owner: map<nat, (nat, nat)>, b: nat, block: Block)
    requires GeometryOk(g) && Shape(g, d, inodes) && Own(g, d, inodes, owner, {})
    requires b < g.bmapstart && |block| == g.Bsize()
    ensures Shape(g, d[b := block], inodes) && Own(g, d[b := block], inodes, owner, {}) && NotIndirect(g, inodes, b)
  {
    hide BitOf, Ref, NotIndirect;
    InodeNotBitmap(g, b);
    OtherKeepsBits(g, d, b, block);
    OwnNotIndirect(g, d, inodes, owner, b);
    RefsKept(g, d, inodes, b, block);
    var d' := d[b := block];
    forall c | c in owner ensures Ref(g, d', inodes[owner[c].0], owner[c].1) == c {
      assert IsSlot(g, inodes, owner[c].0, owner[c].1);
    }
    forall i: nat, k: nat | IsSlot(g, inodes, i, k) && Ref(g, d', inodes[i], k) != 0
      ensures Owns(owner, Ref(g, d', inodes[i], k), i, k) {
      assert Ref(g, d', inodes[i], k) == Ref(g, d, inodes[i], k);
    }
    forall c | 0 <= c < g.size ensures BitOf(g, d', c) <==> c < g.nmeta || c in owner {
      assert BitOf(g, d', c) <==> BitOf(g, d, c);
    }
  }

  lemma MetaKeepsByte(g: Geometry, d: Disk, inodes: map<nat, Inode>, owner: map<nat, (nat, nat)>, b: nat, block: Block,
                      j: nat, p: nat)
    requires GeometryOk(g) && Shape(g, d, inodes) && Own(g, d, inodes, owner, {})
    requires b < g.bmapstart && |block| == g.Bsize() && NotIndirect(g, inodes, b) && j in inodes
    ensures BlockOf(g, d[b := block], inodes[j], p) == BlockOf(g, d, inodes[j], p)
    ensures ByteAt(g, d[b := block], inodes[j], p) == ByteAt(g, d, inodes[j], p)
    ensures var x := BlockOf(g, d, inodes[j], p); x != 0 && x in d ==> x != b
  {
    hide BitOf, Ref, NotIndirect, Bn, At;
    InodeNotBitmap(g, b);
    RefsKept(g, d, inodes, b, block);
    var k := g.Slot(Bn(g, p));
    if k <= g.ndirect + g.nindirect {
      assert IsSlot(g, inodes, j, k);
      var x := Ref(g, d, inodes[j], k);
      assert x != 0 ==> Owns(owner, x, j, k);
    } else {
      PastMaxfile(g, d, inodes, owner, j, k);
      MetaKeepsOwn(g, d, inodes, owner, b, block);
      PastMaxfile(g, d[b := block], inodes, owner, j, k);
    }
  }

  /** There is no word for a slot past the last. */
  lemma PastMaxfile(g: Geometry, d: Disk, inodes: map<nat, Inode>, owner: map<nat, (nat, nat)>, j: nat, k: nat)
    requires GeometryOk(g) && Shape(g, d, inodes) && Own(g, d, inodes, owner, {}) && j in inodes
    requires g.ndirect + g.nindirect < k
    ensures Ref(g, d, inodes[j], k) == 0
  {
    hide BitOf;
    assert IsSlot(g, inodes, j, g.ndirect);
    var ind := Ref(g, d, inodes[j], g.ndirect);
    assert ind != 0 ==> Owns(owner, ind, j, g.ndirect);
  }

  lemma MetaKeepsBytes(g: Geometry, d: Disk, inodes: map<nat, Inode>, owner: map<nat, (nat, nat)>, b: nat, block: Block,
                       j: nat)
    requires GeometryOk(g) && Shape(g, d, inodes) && Own(g, d, inodes, owner, {})
    requires b < g.bmapstart && |block| == g.Bsize() && NotIndirect(g, inodes, b) && j in inodes
    ensures Mapped(g, d[b := block], inodes[j], inodes[j].size) <==> Mapped(g, d, inodes[j], inodes[j].size)
    ensures Content(g, d[b := block], inodes[j]) == Content(g, d, inodes[j])
  {
    hide Own, Shape, NotIndirect, BlockOf, ByteAt;
    var d' := d[b := block];
    forall p | 0 <= p < inodes[j].size
      ensures BlockOf(g, d', inodes[j], p) == BlockOf(g, d, inodes[j], p)
      ensures ByteAt(g, d', inodes[j], p) == ByteAt(g, d, inodes[j], p) {
      MetaKeepsByte(g, d, inodes, owner, b, block, j, p);
    }
  }

  // ---------- The last block of a file ----------

  /** Past byte n, the block it is in holds zeros. */
  ghost predicate TailZero(g: Geometry, disk: Disk, ino: Inode, n: nat)
    requires 0 < g.nindirect
  {
    At(g, n) != 0 ==>
      var x := BlockOf(g, disk, ino, n);
      x != 0 && x in disk ==> forall k | At(g, n) <= k < |disk[x]| :: disk[x][k] == 0
  }

  ghost predicate FileOk(g: Geometry, disk: Disk, ino: Inode, n: nat)
    requires 0 < g.nindirect
  {
    ExactlyMapped(g, disk, ino, n) && TailZero(g, disk, ino, n)
  }

  lemma MetaKeepsFile(g: Geometry, d: Disk, inodes: map<nat, Inode>, owner: map<nat, (nat, nat)>, b: nat, block: Block,
                      j: nat, n: nat)
    requires GeometryOk(g) && Shape(g, d, inodes) && Own(g, d, inodes, owner, {})
    requires b < g.bmapstart && |block| == g.Bsize() && NotIndirect(g, inodes, b) && j in inodes
    requires FileOk(g, d, inodes[j], n)
    ensures FileOk(g, d[b := block], inodes[j], n)
  {
    hide Own, NotIndirect, BlockOf, ByteAt, ExactlyMapped, At;
    InodeNotBitmap(g, b);
    ExactlyKept(g, d, inodes, b, block, j, n);
    MetaKeepsByte(g, d, inodes, owner, b, block, j, n);
    assert b in d;
  }

  lemma SizeKeepsFile(g: Geometry, d: Disk, ino: Inode, size: nat, n: nat)
    requires 0 < g.nindirect && FileOk(g, d, ino, n)
    ensures FileOk(g, d, ino.(size := size), n)
  {
    hide Ref, ExactlyMapped, Bn, At;
    SizeKeepsExact(g, d, ino, size, n);
    SizeKeepsRefs(g, d, ino, size);
  }

  lemma NeedIs(g: Geometry, disk: Disk, ino: Inode, p: nat, m: nat)
    requires 0 < g.nindirect && FileOk(g, disk, ino, p) && Bn(g, p) < g.Maxfile()
    requires 0 < m && At(g, p) + m <= g.Bsize()
    ensures Takes(g, p) + Missing(g, disk, ino, Bn(g, p)) == Takes(g, p + m)
  {
    MissingIs(g, disk, ino, p, m);
  }

  /** m more bytes in the block of byte p, which was there or is new and zero. */
  lemma FileGrows(g: Geometry, s: Snapshot, s1: Snapshot, i: nat, p: nat, m: nat, extra: set<nat>, x: nat,
                  bytes: seq<int>)
    requires 0 < g.nindirect && Fills(g, s, s1, i, SlotsFor(g, Bn(g, p)), extra)
    requires FileOk(g, s.disk, s.inodes[i], p) && Bn(g, p) < g.Maxfile()
    requires 0 < x == Ref(g, s1.disk, s1.inodes[i], g.Slot(Bn(g, p))) && x in s1.disk && |s1.disk[x]| == g.Bsize()
    requires Ref(g, s.disk, s.inodes[i], g.Slot(Bn(g, p))) == 0 ==> s1.disk[x] == ZeroBlock(g.Bsize())
    requires 0 < m == |bytes| && At(g, p) + m <= g.Bsize()
    ensures FileOk(g, s1.disk[x := Patch(s1.disk[x], At(g, p), bytes)], s1.inodes[i], p + m)
  {
    hide Ref, Own, Grows, Logs, ExactlyMapped, IndirectBlock, Bn, At, Geometry.Bsize, SlotsFor, ZeroBlock, Patch;
    var hi, block := Bn(g, p), Patch(s1.disk[x], At(g, p), bytes);
    FilledExactly(g, s, s1, i, p, m, extra);
    DataBlockOk(g, s1.disk, s1.inodes, s1.owner, i, hi);
    OwnNotIndirect(g, s1.disk, s1.inodes, s1.owner, x);
    ExactlyKept(g, s1.disk, s1.inodes, x, block, i, p + m);
    TailGrows(g, s, s1, i, p, m, extra, x, bytes);
  }

  lemma TailGrows(g: Geometry, s: Snapshot, s1: Snapshot, i: nat, p: nat, m: nat, extra: set<nat>, x: nat,
                  bytes: seq<int>)
    requires 0 < g.nindirect && Fills(g, s, s1, i, SlotsFor(g, Bn(g, p)), extra)
    requires FileOk(g, s.disk, s.inodes[i], p) && Bn(g, p) < g.Maxfile()
    requires 0 < x == Ref(g, s1.disk, s1.inodes[i], g.Slot(Bn(g, p))) && x in s1.disk && |s1.disk[x]| == g.Bsize()
    requires Ref(g, s.disk, s.inodes[i], g.Slot(Bn(g, p))) == 0 ==> s1.disk[x] == ZeroBlock(g.Bsize())
    requires 0 < m == |bytes| && At(g, p) + m <= g.Bsize() && NotIndirect(g, s1.inodes, x)
    ensures TailZero(g, s1.disk[x := Patch(s1.disk[x], At(g, p), bytes)], s1.inodes[i], p + m)
  {
    hide Ref, Own, Logs, IndirectBlock, Bn, At, Geometry.Bsize, SlotsFor, Patch, NotIndirect;
    var hi, block := Bn(g, p), Patch(s1.disk[x], At(g, p), bytes);
    if At(g, p + m) != 0 {
      RefsKept(g, s1.disk, s1.inodes, x, block);
      assert IsSlot(g, s1.inodes, i, g.Slot(hi));
      InsideBlock(g, p, m);
      TailWas(g, s, s1, i, p, extra, x);
    }
  }

  lemma InsideBlock(g: Geometry, p: nat, m: nat)
    requires 0 < g.nindirect && At(g, p) + m <= g.Bsize() && At(g, p + m) != 0
    ensures Bn(g, p + m) == Bn(g, p) && At(g, p + m) == At(g, p) + m
  {
    hide Quot, Rem;
    if At(g, p) + m < g.Bsize() {
      SameBlock(g, p, m);
    } else {
      NextBlock(g, p);
    }
  }

  lemma TailWas(g: Geometry, s: Snapshot, s1: Snapshot, i: nat, p: nat, extra: set<nat>, x: nat)
    requires 0 < g.nindirect && Fills(g, s, s1, i, SlotsFor(g, Bn(g, p)), extra)
    requires FileOk(g, s.disk, s.inodes[i], p) && Bn(g, p) < g.Maxfile()
    requires 0 < x == Ref(g, s1.disk, s1.inodes[i], g.Slot(Bn(g, p))) && x in s1.disk && |s1.disk[x]| == g.Bsize()
    requires Ref(g, s.disk, s.inodes[i], g.Slot(Bn(g, p))) == 0 ==> s1.disk[x] == ZeroBlock(g.Bsize())
    ensures forall k | At(g, p) <= k < |s1.disk[x]| :: s1.disk[x][k] == 0
  {
    hide Ref, Logs, IndirectBlock, Bn, At, Geometry.Bsize, SlotsFor, BitOf;
    var hi := Bn(g, p);
    var y := Ref(g, s.disk, s.inodes[i], g.Slot(hi));
    if y != 0 {
      DataBlockOk(g, s.disk, s.inodes, s.owner, i, hi);
      assert IsSlot(g, s.inodes, i, g.Slot(hi));
      CountAt(g, p);
    }
  }

  /** Other files keep their blocks and what is in them. */
  lemma FileStays(g: Geometry, s: Snapshot, s1: Snapshot, i: nat, hi: nat, extra: set<nat>, x: nat, block: Block,
                  j: nat)
    requires 0 < g.nindirect && Fills(g, s, s1, i, SlotsFor(g, hi), extra) && hi < g.Maxfile() && |block| == g.Bsize()
    requires 0 < x == Ref(g, s1.disk, s1.inodes[i], g.Slot(hi))
    requires j in s.inodes && j != i && s.inodes[j].size <= g.Maxfile() * g.Bsize()
    requires FileOk(g, s.disk, s.inodes[j], s.inodes[j].size)
    ensures FileOk(g, s1.disk[x := block], s.inodes[j], s.inodes[j].size)
  {
    hide Ref, Logs, IndirectBlock, Bn, At, Geometry.Bsize, SlotsFor, BitOf, DataCount, NotIndirect, Own;
    var n := s.inodes[j].size;
    assert s1.inodes[j] == s.inodes[j];
    forall bn: nat | bn < g.Maxfile()
      ensures Ref(g, s1.disk, s.inodes[j], g.Slot(bn)) == Ref(g, s.disk, s.inodes[j], g.Slot(bn)) {
      assert IsSlot(g, s.inodes, j, g.Slot(bn));
    }
    DataBlockOk(g, s1.disk, s1.inodes, s1.owner, i, hi);
    OwnNotIndirect(g, s1.disk, s1.inodes, s1.owner, x);
    ExactlyKept(g, s1.disk, s1.inodes, x, block, j, n);
    if At(g, n) != 0 {
      InMaxfile(g, n);
      RefsKept(g, s1.disk, s1.inodes, x, block);
      assert IsSlot(g, s1.inodes, j, g.Slot(Bn(g, n)));
      DataBlockOk(g, s.disk, s.inodes, s.owner, j, Bn(g, n));
      DataBlockOk(g, s1.disk, s1.inodes, s1.owner, j, Bn(g, n));
    }
  }

  lemma InMaxfile(g: Geometry, n: nat)
    requires 0 < g.nindirect && n <= g.Maxfile() * g.Bsize() && At(g, n) != 0
    ensures Bn(g, n) < g.Maxfile()
  {
    hide Quot, Rem;
    LastByteBefore(n, g.Bsize());
    BnBelow(g, n - 1);
  }

  // ---------- Limits ----------

  /** As much of p as the largest file has room for from off on. */
  function Limited(g: Geometry, off: nat, p: seq<int>): (q: seq<int>)
    requires off <= g.Maxfile() * g.Bsize()
    ensures |q| <= |p| && q == p[..|q|] && off + |q| <= g.Maxfile() * g.Bsize()
    ensures if off + |p| <= g.Maxfile() * g.Bsize() then q == p else off + |q| == g.Maxfile() * g.Bsize()
  {
    if off + |p| <= g.Maxfile() * g.Bsize() then p else p[..g.Maxfile() * g.Bsize() - off]
  }

  lemma PastLimit(g: Geometry, x: nat)
    requires 0 < g.nindirect && g.Maxfile() <= Bn(g, x)
    ensures g.Maxfile() * g.Bsize() <= x
  {
    hide Quot, Rem;
    QuotRem(x, g.Bsize());
    MulMonotone(g.Maxfile(), Bn(g, x), g.Bsize());
  }

  lemma WithinLimit(g: Geometry, off: nat, m: nat, n: nat, tot: nat)
    requires 0 < g.nindirect && Bn(g, off + tot) < g.Maxfile() && tot <= n <= m && tot < m
    requires if off + m <= g.Maxfile() * g.Bsize() then n == m else off + n == g.Maxfile() * g.Bsize()
    ensures tot < n && RoundSize(g, off + tot, m - tot) == RoundSize(g, off + tot, n - tot)
  {
    hide Quot, Rem, Geometry.Maxfile;
    var x := off + tot;
    QuotRem(x, g.Bsize());
    MulMonotone(Bn(g, x) + 1, g.Maxfile(), g.Bsize());
    Distribute(Bn(g, x), 1, g.Bsize());
  }

  lemma SizeBound(g: Geometry, d: Disk, inodes: map<nat, Inode>, i: nat)
    requires 0 < g.nindirect && NoHoles(g, d, inodes) && i in inodes
    ensures inodes[i].size <= g.Maxfile() * g.Bsize()
  {
  }

  lemma PlanIs(g: Geometry)
    requires PlanOk(g)
    ensures GeometryOk(g) && PackOk(g) && 2 <= g.inodestart < g.bmapstart < g.nmeta
    ensures g.Maxfile() * g.Bsize() < WORDS
  {
    InodeNotBitmap(g, g.inodestart);
    Distribute(g.Maxfile(), 1, g.Bsize());
  }

  // ---------- Metadata blocks ----------

  ghost predicate MetaKept(g: Geometry, d: Disk, d': Disk) {
    forall b | 0 <= b < g.nmeta :: b in d && b in d' && d'[b] == d[b]
  }

  lemma MetaSame(g: Geometry, d: Disk)
    requires DiskOk(g, d) && g.nmeta <= g.size
    ensures MetaKept(g, d, d)
  {
  }

  lemma MetaWrite(g: Geometry, d: Disk, d': Disk, x: nat, block: Block)
    requires MetaKept(g, d, d') && g.nmeta <= x
    ensures MetaKept(g, d, d'[x := block])
  {
  }

  lemma MetaChain(g: Geometry, d: Disk, d1: Disk, d2: Disk)
    requires MetaKept(g, d, d1) && MetaKept(g, d1, d2)
    ensures MetaKept(g, d, d2)
  {
  }

  lemma MetaStored(g: Geometry, d: Disk, d': Disk, i: nat, typ: nat, ino: Inode)
    requires PlanOk(g) && MetaKept(g, d, d') && IsStored(g, d, i, typ, ino)
    ensures IsStored(g, d', i, typ, ino)
  {
    hide Rinode, GeometryOk;
    PlanIs(g);
    StoredKept(g, d, d', i, typ, ino);
  }

  lemma StoredIs(g: Geometry, d: Disk, i: nat, typ: nat, ino: Inode)
    requires PackOk(g) && IsStored(g, d, i, typ, ino)
    ensures OnDisk(g, d, i) && Rinode(g, d, i) == Dinode(typ, 1, ino) && InodeBlock(g, i) < g.bmapstart
  {
  }

  /** An inode of a file system can be stored. */
  lemma InodeStorable(g: Geometry, disk: Disk, inodes: map<nat, Inode>, owner: map<nat, (nat, nat)>, i: nat, d: Dinode)
    requires GeometryOk(g) && Shape(g, disk, inodes) && Own(g, disk, inodes, owner, {}) && i in inodes
    requires d.ino == inodes[i] && d.nlink == 1 && d.typ < SHORTS && d.ino.size < WORDS
    ensures Storable(g, d)
  {
    hide BitOf;
    forall k | 0 <= k <= g.ndirect ensures d.ino.addrs[k] < WORDS {
      assert IsSlot(g, inodes, i, k);
      var x := Ref(g, disk, inodes[i], k);
      assert x != 0 ==> Owns(owner, x, i, k);
    }
  }

  lemma StoredAfter(g: Geometry, disk: Disk, i: nat, d: Dinode, j: nat, typ: nat, ino: Inode)
    requires PackOk(g) && Storable(g, d) && d.nlink == 1 && InodeBlock(g, i) < g.bmapstart && OnDisk(g, disk, i)
    requires if j == i then typ == d.typ && ino == d.ino else IsStored(g, disk, j, typ, ino)
    ensures IsStored(g, Winode(g, disk, i, d), j, typ, ino)
  {
    hide Rinode, Winode, OnDisk, Storable, PackOk, InodeBlock;
    RinodeWinode(g, disk, i, d, j);
  }
}
