/**
 readi and writei of kernel/fs.c, and filewrite's chunks (kernel/file.c),
 as operations on a file seen as a sequence of bytes.
 */
module FileBytes {
  import opened Arithmetic
  import opened Blocks
  import opened Fs
  import opened FileSystem

  /** The block of a file that holds byte p, and the place in it. */
  function Bn(g: Geometry, p: nat): nat
    requires 0 < g.nindirect
  {
    Quot(p, g.Bsize())
  }

  function At(g: Geometry, p: nat): (r: nat)
    requires 0 < g.nindirect
    ensures r < g.Bsize()
  {
    Rem(p, g.Bsize())
  }

  function BlockOf(g: Geometry, disk: Disk, ino: Inode, p: nat): int
    requires 0 < g.nindirect
  {
    Ref(g, disk, ino, g.Slot(Bn(g, p)))
  }

  /** A block that a file lacks counts as zero: bmap would give it one that is. */
  function ByteIn(disk: Disk, b: int, at: nat): int {
    if b != 0 && b in disk && at < |disk[b]| then disk[b][at] else 0
  }

  function ByteAt(g: Geometry, disk: Disk, ino: Inode, p: nat): int
    requires 0 < g.nindirect
  {
    ByteIn(disk, BlockOf(g, disk, ino, p), At(g, p))
  }

  /** A file is its size and its bytes. */
  ghost function Content(g: Geometry, disk: Disk, ino: Inode): (s: seq<int>)
    requires 0 < g.nindirect
    ensures |s| == ino.size && forall p | 0 <= p < ino.size :: s[p] == ByteAt(g, disk, ino, p)
  {
    seq(ino.size, p requires p >= 0 => ByteAt(g, disk, ino, p))
  }

  /** Every byte below n lies in a block that the file has. */
  ghost predicate Mapped(g: Geometry, disk: Disk, ino: Inode, n: nat)
    requires 0 < g.nindirect
  {
    forall p | 0 <= p < n :: BlockOf(g, disk, ino, p) != 0
  }

  ghost predicate NoHoles(g: Geometry, disk: Disk, inodes: map<nat, Inode>)
    requires 0 < g.nindirect
  {
    forall i | i in inodes :: inodes[i].size <= g.Maxfile() * g.Bsize() && Mapped(g, disk, inodes[i], inodes[i].size)
  }

  // ---------- Positions ----------

  /** Bytes that follow p within its block. */
  lemma SameBlock(g: Geometry, p: nat, q: nat)
    requires 0 < g.nindirect && At(g, p) + q < g.Bsize()
    ensures Bn(g, p + q) == Bn(g, p) && At(g, p + q) == At(g, p) + q
  {
    hide Quot, Rem;
    Stays(p, q, g.Bsize());
  }

  lemma BnBelow(g: Geometry, p: nat)
    requires 0 < g.nindirect && p < g.Maxfile() * g.Bsize()
    ensures Bn(g, p) < g.Maxfile()
  {
    hide Quot, Rem;
    QuotBelow(p, g.Maxfile(), g.Bsize());
  }

  /** The byte after the last one of a block starts the next block. */
  lemma NextBlock(g: Geometry, p: nat)
    requires 0 < g.nindirect
    ensures Bn(g, p + (g.Bsize() - At(g, p))) == Bn(g, p) + 1 && At(g, p + (g.Bsize() - At(g, p))) == 0
  {
    hide Quot, Rem;
    Advances(p, g.Bsize());
  }

  // ---------- Reading ----------

  lemma ReadBytes(g: Geometry, disk: Disk, ino: Inode, off: nat, m: nat, b: nat)
    requires 0 < g.nindirect && b == BlockOf(g, disk, ino, off) != 0 && b in disk && |disk[b]| == g.Bsize()
    requires At(g, off) + m <= g.Bsize() && off + m <= ino.size
    ensures disk[b][At(g, off)..At(g, off) + m] == Content(g, disk, ino)[off..off + m]
  {
    hide Bn, At, Ref;
    var x, y := disk[b][At(g, off)..At(g, off) + m], Content(g, disk, ino)[off..off + m];
    forall q | 0 <= q < m ensures x[q] == y[q] {
      SameBlock(g, off, q);
    }
  }

  /** A block an inode refers to is on the disk. */
  lemma DataBlockOk(g: Geometry, disk: Disk, inodes: map<nat, Inode>, owner: map<nat, (nat, nat)>, i: nat, bn: nat)
    requires GeometryOk(g) && Shape(g, disk, inodes) && Own(g, disk, inodes, owner, {}) && i in inodes
             && bn < g.Maxfile()
    ensures IsSlot(g, inodes, i, g.Slot(bn))
    ensures var b := Ref(g, disk, inodes[i], g.Slot(bn));
            b != 0 ==>
                b in owner && owner[b] == (i, g.Slot(bn)) && g.nmeta <= b < g.size && b in disk
                && |disk[b]| == g.Bsize()
  {
    hide BitOf, Ref;
    var b := Ref(g, disk, inodes[i], g.Slot(bn));
    assert IsSlot(g, inodes, i, g.Slot(bn));
    assert b != 0 ==> Owns(owner, b, i, g.Slot(bn));
  }

  /** A byte of a file without holes is in a block of the file. */
  lemma ByteIsMapped(g: Geometry, disk: Disk, inodes: map<nat, Inode>, owner: map<nat, (nat, nat)>, i: nat, p: nat)
    requires GeometryOk(g) && Shape(g, disk, inodes) && Own(g, disk, inodes, owner, {}) && i in inodes
             && NoHoles(g, disk, inodes)
    requires p < inodes[i].size
    ensures Bn(g, p) < g.Maxfile()
    ensures var b := BlockOf(g, disk, inodes[i], p);
            b != 0 && b in owner && owner[b] == (i, g.Slot(Bn(g, p))) && b in disk && |disk[b]| == g.Bsize()
  {
    hide Bn, Own, Ref;
    assert BlockOf(g, disk, inodes[i], p) != 0;
    BnBelow(g, p);
    DataBlockOk(g, disk, inodes, owner, i, Bn(g, p));
  }

  /**
   readi: up to n bytes from off on; `room` is how many bytes the destination
   can take before either_copyout fails.  Nothing is allocated or changed.
   */
  method Readi(fs: Filesystem, i: nat, off: nat, n: nat, room: nat) returns (r: int, out: seq<int>)
    requires fs.Valid() && i in fs.inodes && NoHoles(fs.g, fs.disk, fs.inodes) && off < WORDS && n < WORDS
    modifies fs
    ensures fs.disk == old(fs.disk) && fs.inodes == old(fs.inodes) && fs.owner == old(fs.owner)
            && fs.logged == old(fs.logged)
    ensures off > fs.inodes[i].size || off + n >= WORDS ==> r == 0 && out == []
    ensures off <= fs.inodes[i].size && off + n < WORDS ==>
              var end := if off + n > fs.inodes[i].size then fs.inodes[i].size else off + n;
              if end - off <= room then r == end - off && out == Content(fs.g, fs.disk, fs.inodes[i])[off..end]
              else r == -1
  {
    hide Own, BitOf, Ref, Bn, At, Grows, Logs, SlotsFor, ByteAt, Full, NoHoles, Content, Geometry.Bsize,
         Geometry.Maxfile;
    ghost var content := Content(fs.g, fs.disk, fs.inodes[i]);
    out := [];
    if off > fs.inodes[i].size || (off + n) % WORDS < off {
      return 0, [];
    }
    var n' := if off + n > fs.inodes[i].size then fs.inodes[i].size - off else n;
    var tot := 0;
    var o := off;
    while tot < n'
      invariant 0 <= tot <= n' && o == off + tot && tot <= room
      invariant fs.Valid() && i in fs.inodes
      invariant fs.disk == old(fs.disk) && fs.inodes == old(fs.inodes) && fs.owner == old(fs.owner)
                && fs.logged == old(fs.logged)
      invariant out == content[off..off + tot]
    {
      ByteIsMapped(fs.g, fs.disk, fs.inodes, fs.owner, i, o);
      var addr := fs.Bmap(i, Bn(fs.g, o));
      var m := if n' - tot < fs.g.Bsize() - At(fs.g, o) then n' - tot else fs.g.Bsize() - At(fs.g, o);
      if tot + m > room {
        return -1, out;
      }
      ReadBytes(fs.g, fs.disk, fs.inodes[i], o, m, addr);
      assert content[off..off + tot] + content[o..o + m] == content[off..o + m];
      out := out + fs.disk[addr][At(fs.g, o)..At(fs.g, o) + m];
      tot := tot + m;
      o := o + m;
    }
    return tot, out;
  }

  // ---------- Writing ----------

  /** Bytes of t in place of those of s from off on, past the end if need be. */
  function Splice(s: seq<int>, off: nat, t: seq<int>): seq<int>
    requires off <= |s|
  {
    s[..off] + t + if off + |t| < |s| then s[off + |t|..] else []
  }

  /**
   The new bytes can be read back, the others are as before, and the file is as long
   as the longer of the two needs.
   */
  lemma SpliceAt(s: seq<int>, off: nat, t: seq<int>)
    requires off <= |s|
    ensures var r := Splice(s, off, t);
            && |r| == (if off + |t| < |s| then |s| else off + |t|) && r[off..off + |t|] == t
            && forall k | 0 <= k < |r| && !(off <= k < off + |t|) :: k < |s| && r[k] == s[k]
  {
  }

  /** tot bytes of src are in place from off on, in blocks of the file; all other bytes of all files are as before. */
  ghost predicate Wrote(g: Geometry, d0: Disk, n0: map<nat, Inode>, d: Disk, n: map<nat, Inode>, i: nat, off: nat,
                        src: seq<int>, tot: nat)
    requires 0 < g.nindirect
  {
    && i in n0 && n.Keys == n0.Keys && n[i].size == n0[i].size && tot <= |src|
    && (forall j | j in n0 && j != i :: n[j] == n0[j])
    && (forall p | off <= p < off + tot :: BlockOf(g, d, n[i], p) != 0 && ByteAt(g, d, n[i], p) == src[p - off])
    && (forall p | 0 <= p < n0[i].size :: BlockOf(g, d, n[i], p) != 0)
    && (forall p | 0 <= p < n0[i].size && !(off <= p < off + tot) :: ByteAt(g, d, n[i], p) == ByteAt(g, d0, n0[i], p))
    && (forall j, p | j in n0 && j != i && 0 <= p < n0[j].size ::
          BlockOf(g, d, n[j], p) == BlockOf(g, d0, n0[j], p) && ByteAt(g, d, n[j], p) == ByteAt(g, d0, n0[j], p))
  }

  lemma WroteStart(g: Geometry, d: Disk, n: map<nat, Inode>, i: nat, off: nat, src: seq<int>)
    requires 0 < g.nindirect && i in n && NoHoles(g, d, n)
    ensures Wrote(g, d, n, d, n, i, off, src, 0)
  {
    hide BlockOf, ByteAt;
  }

  /** bmap changes no byte that was in some block. */
  lemma GrowsKeepsByte(g: Geometry, d: Disk, n: map<nat, Inode>, o: map<nat, (nat, nat)>, d1: Disk, n1: map<nat, Inode>,
                       o1: map<nat, (nat, nat)>,
                       i: nat, ks: set<nat>, j: nat, p: nat)
    requires GeometryOk(g) && Shape(g, d, n) && Own(g, d, n, o, {}) && Grows(g, d, n, o, d1, n1, o1, i, ks)
    requires j in n && Bn(g, p) < g.Maxfile() && BlockOf(g, d, n[j], p) != 0
    ensures BlockOf(g, d1, n1[j], p) == BlockOf(g, d, n[j], p) && ByteAt(g, d1, n1[j], p) == ByteAt(g, d, n[j], p)
  {
    hide Bn, At, Ref, Own;
    DataBlockOk(g, d, n, o, j, Bn(g, p));
    GrowsAt(g, d, n, o, d1, n1, o1, i, ks, j, g.Slot(Bn(g, p)));
  }

  lemma OwnSameRefs(g: Geometry, d: Disk, n: map<nat, Inode>, o: map<nat, (nat, nat)>, d1: Disk)
    requires GeometryOk(g) && Shape(g, d, n) && Own(g, d, n, o, {}) && DiskOk(g, d1)
    requires forall j: nat, k: nat | IsSlot(g, n, j, k) :: Ref(g, d1, n[j], k) == Ref(g, d, n[j], k)
    requires forall c | 0 <= c < g.size :: BitOf(g, d1, c) <==> BitOf(g, d, c)
    ensures Own(g, d1, n, o, {})
  {
    hide Ref, BitOf;
    forall i: nat, k: nat | IsSlot(g, n, i, k) && Ref(g, d1, n[i], k) != 0 ensures Owns(o, Ref(g, d1, n[i], k), i, k) {
      assert Owns(o, Ref(g, d, n[i], k), i, k);
    }
  }

  /** Writing a data block changes no reference. */
  lemma WriteKeepsRefs(g: Geometry, d: Disk, n: map<nat, Inode>, o: map<nat, (nat, nat)>, b: nat, block: Block)
    requires GeometryOk(g) && Shape(g, d, n) && Own(g, d, n, o, {}) && b in o && o[b].1 != g.ndirect
             && |block| == g.Bsize()
    ensures Shape(g, d[b := block], n) && Own(g, d[b := block], n, o, {})
    ensures forall j: nat, k: nat | IsSlot(g, n, j, k) :: Ref(g, d[b := block], n[j], k) == Ref(g, d, n[j], k)
  {
    hide Ref, BitOf;
    OwnNotIndirect(g, d, n, o, b);
    RefsKept(g, d, n, b, block);
    DataKeepsBits(g, d, b, block);
    OwnSameRefs(g, d, n, o, d[b := block]);
  }

  /** A byte after block bn of inode i was overwritten. */
  lemma WriteAtByte(g: Geometry, d: Disk, n: map<nat, Inode>, o: map<nat, (nat, nat)>, i: nat, bn: nat, b: nat,
                    block: Block, j: nat, p: nat)
    requires GeometryOk(g) && Shape(g, d, n) && Own(g, d, n, o, {}) && b in o && o[b] == (i, g.Slot(bn))
             && |block| == g.Bsize()
    requires j in n && Bn(g, p) < g.Maxfile() && BlockOf(g, d, n[j], p) != 0
    ensures BlockOf(g, d[b := block], n[j], p) == BlockOf(g, d, n[j], p)
    ensures ByteAt(g, d[b := block], n[j], p) ==
            if j == i && Bn(g, p) == bn then block[At(g, p)] else ByteAt(g, d, n[j], p)
  {
    hide Bn, At, Ref, BitOf;
    DataBlockOk(g, d, n, o, j, Bn(g, p));
    WriteKeepsRefs(g, d, n, o, b, block);
    var c := BlockOf(g, d, n[j], p);
    assert IsSlot(g, n, i, g.Slot(bn)) && Ref(g, d, n[i], g.Slot(bn)) == b;
  }

  /** m bytes of src put into a block from position at on. */
  function Patch(block: Block, at: nat, t: seq<int>): (r: Block)
    requires at + |t| <= |block|
    ensures |r| == |block|
    ensures forall k | 0 <= k < |r| :: r[k] == if at <= k < at + |t| then t[k - at] else block[k]
  {
    block[..at] + t + block[at + |t|..]
  }

  /** One round of writei's loop: a state in which bmap has given the block, and the bytes to put there. */
  ghost predicate Round(g: Geometry, d: Disk, n: map<nat, Inode>, o: map<nat, (nat, nat)>, d1: Disk,
                        n1: map<nat, Inode>, o1: map<nat, (nat, nat)>,
                        i: nat, ks: set<nat>, p: nat, t: seq<int>, addr: nat)
  {
    && GeometryOk(g) && Shape(g, d, n) && Own(g, d, n, o, {}) && Shape(g, d1, n1) && Own(g, d1, n1, o1, {})
    && Grows(g, d, n, o, d1, n1, o1, i, ks)
    && Bn(g, p) < g.Maxfile() && At(g, p) + |t| <= g.Bsize()
    && addr != 0 && addr in o1 && o1[addr] == (i, g.Slot(Bn(g, p))) && addr in d1 && |d1[addr]| == g.Bsize()
  }

  lemma RoundOldByte(g: Geometry, d: Disk, n: map<nat, Inode>, o: map<nat, (nat, nat)>, d1: Disk, n1: map<nat, Inode>,
                     o1: map<nat, (nat, nat)>,
                     i: nat, ks: set<nat>, p: nat, t: seq<int>, addr: nat, j: nat, x: nat)
    requires Round(g, d, n, o, d1, n1, o1, i, ks, p, t, addr) && j in n && Bn(g, x) < g.Maxfile()
             && BlockOf(g, d, n[j], x) != 0
    ensures j in n1
    ensures var d2 := d1[addr := Patch(d1[addr], At(g, p), t)];
            && BlockOf(g, d2, n1[j], x) == BlockOf(g, d, n[j], x)
            && (!(j == i && p <= x < p + |t|) ==> ByteAt(g, d2, n1[j], x) == ByteAt(g, d, n[j], x))
  {
    hide Bn, At, Ref, Own, BlockOf, Grows, Quot, Rem;
    assert j in n1 by { GrowsKeys(g, d, n, o, d1, n1, o1, i, ks); }
    GrowsKeepsByte(g, d, n, o, d1, n1, o1, i, ks, j, x);
    WriteAtByte(g, d1, n1, o1, i, Bn(g, p), addr, Patch(d1[addr], At(g, p), t), j, x);
    if j == i && Bn(g, x) == Bn(g, p) {
      SameBn(g, p, x);
      BlockBytes(g, d1, n1, o1, i, p, addr, x);
    }
  }

  lemma GrowsKeys(g: Geometry, d: Disk, n: map<nat, Inode>, o: map<nat, (nat, nat)>, d1: Disk, n1: map<nat, Inode>,
                  o1: map<nat, (nat, nat)>, i: nat, ks: set<nat>)
    requires Grows(g, d, n, o, d1, n1, o1, i, ks)
    ensures n1.Keys == n.Keys && i in n && n1[i].size == n[i].size && forall j | j in n && j != i :: n1[j] == n[j]
    ensures o.Keys <= o1.Keys
  {
  }

  lemma SameBn(g: Geometry, p: nat, q: nat)
    requires 0 < g.nindirect && Bn(g, p) == Bn(g, q)
    ensures At(g, q) - At(g, p) == q - p
  {
    hide Quot, Rem;
    SameQuot(p, q, g.Bsize());
  }

  /** Bytes in the same block of the file are in the same block of the disk. */
  lemma BlockBytes(g: Geometry, d: Disk, n: map<nat, Inode>, o: map<nat, (nat, nat)>, i: nat, p: nat, addr: nat, x: nat)
    requires GeometryOk(g) && Shape(g, d, n) && Own(g, d, n, o, {}) && addr in o && o[addr] == (i, g.Slot(Bn(g, p)))
             && addr in d
    requires Bn(g, x) == Bn(g, p) && |d[addr]| == g.Bsize()
    ensures i in n && BlockOf(g, d, n[i], x) == addr && ByteAt(g, d, n[i], x) == d[addr][At(g, x)]
  {
    hide Bn, At, Ref, BitOf;
    assert IsSlot(g, n, o[addr].0, o[addr].1);
  }

  lemma RoundNewByte(g: Geometry, d: Disk, n: map<nat, Inode>, o: map<nat, (nat, nat)>, d1: Disk, n1: map<nat, Inode>,
                     o1: map<nat, (nat, nat)>,
                     i: nat, ks: set<nat>, p: nat, t: seq<int>, addr: nat, x: nat)
    requires Round(g, d, n, o, d1, n1, o1, i, ks, p, t, addr) && p <= x < p + |t|
    ensures i in n1
    ensures var d2 := d1[addr := Patch(d1[addr], At(g, p), t)];
            BlockOf(g, d2, n1[i], x) != 0 && ByteAt(g, d2, n1[i], x) == t[x - p]
  {
    hide Bn, At, Ref, Own, BlockOf, Grows, Quot, Rem;
    SameBlock(g, p, x - p);
    BlockBytes(g, d1, n1, o1, i, p, addr, x);
    WriteAtByte(g, d1, n1, o1, i, Bn(g, p), addr, Patch(d1[addr], At(g, p), t), i, x);
  }

  lemma WroteStep(g: Geometry, d0: Disk, n0: map<nat, Inode>, d: Disk, n: map<nat, Inode>, o: map<nat, (nat, nat)>,
                  d1: Disk, n1: map<nat, Inode>, o1: map<nat, (nat, nat)>, i: nat, ks: set<nat>, off: nat,
                      src: seq<int>, tot: nat, m: nat, addr: nat)
    requires 0 < g.nindirect && Wrote(g, d0, n0, d, n, i, off, src, tot) && NoHoles(g, d0, n0)
    requires off + |src| <= g.Maxfile() * g.Bsize() && tot + m <= |src|
    requires Round(g, d, n, o, d1, n1, o1, i, ks, off + tot, src[tot..tot + m], addr)
    ensures Wrote(g, d0, n0, d1[addr := Patch(d1[addr], At(g, off + tot), src[tot..tot + m])], n1, i, off, src, tot + m)
  {
    hide Bn, At, BlockOf, ByteAt, Grows, Patch, Own, Shape, Geometry.Bsize, Geometry.Maxfile;
    var t := src[tot..tot + m];
    var d2 := d1[addr := Patch(d1[addr], At(g, off + tot), t)];
    GrowsKeys(g, d, n, o, d1, n1, o1, i, ks);
    forall p | off <= p < off + (tot + m)
      ensures BlockOf(g, d2, n1[i], p) != 0 && ByteAt(g, d2, n1[i], p) == src[p - off] {
      BnBelow(g, p);
      if p < off + tot {
        RoundOldByte(g, d, n, o, d1, n1, o1, i, ks, off + tot, t, addr, i, p);
      } else {
        RoundNewByte(g, d, n, o, d1, n1, o1, i, ks, off + tot, t, addr, p);
      }
    }
    forall p | 0 <= p < n0[i].size ensures BlockOf(g, d2, n1[i], p) != 0 {
      BnBelow(g, p);
      RoundOldByte(g, d, n, o, d1, n1, o1, i, ks, off + tot, t, addr, i, p);
    }
    forall p | 0 <= p < n0[i].size && !(off <= p < off + (tot + m))
      ensures ByteAt(g, d2, n1[i], p) == ByteAt(g, d0, n0[i], p) {
      BnBelow(g, p);
      RoundOldByte(g, d, n, o, d1, n1, o1, i, ks, off + tot, t, addr, i, p);
    }
    forall j, p | j in n0 && j != i && 0 <= p < n0[j].size
      ensures BlockOf(g, d2, n1[j], p) == BlockOf(g, d0, n0[j], p) && ByteAt(g, d2, n1[j], p) == ByteAt(g, d0, n0[j], p)
    {
      BnBelow(g, p);
      assert Mapped(g, d0, n0[j], n0[j].size);
      RoundOldByte(g, d, n, o, d1, n1, o1, i, ks, off + tot, t, addr, j, p);
    }
  }

  lemma WroteGrow(g: Geometry, d0: Disk, n0: map<nat, Inode>, d: Disk, n: map<nat, Inode>, o: map<nat, (nat, nat)>,
                  d1: Disk, n1: map<nat, Inode>, o1: map<nat, (nat, nat)>, i: nat, ks: set<nat>, off: nat,
                      src: seq<int>, tot: nat)
    requires GeometryOk(g) && Shape(g, d, n) && Own(g, d, n, o, {}) && Grows(g, d, n, o, d1, n1, o1, i, ks)
    requires Wrote(g, d0, n0, d, n, i, off, src, tot) && NoHoles(g, d0, n0) && off + |src| <= g.Maxfile() * g.Bsize()
    ensures Wrote(g, d0, n0, d1, n1, i, off, src, tot)
  {
    hide Bn, At, BlockOf, ByteAt, Grows, Own, Shape, Geometry.Bsize, Geometry.Maxfile;
    GrowsKeys(g, d, n, o, d1, n1, o1, i, ks);
    forall p | off <= p < off + tot ensures BlockOf(g, d1, n1[i], p) != 0 && ByteAt(g, d1, n1[i], p) == src[p - off] {
      BnBelow(g, p);
      GrowsKeepsByte(g, d, n, o, d1, n1, o1, i, ks, i, p);
    }
    forall p | 0 <= p < n0[i].size
      ensures BlockOf(g, d1, n1[i], p) != 0 && ByteAt(g, d1, n1[i], p) == ByteAt(g, d, n[i], p) {
      BnBelow(g, p);
      GrowsKeepsByte(g, d, n, o, d1, n1, o1, i, ks, i, p);
    }
    forall j, p | j in n0 && j != i && 0 <= p < n0[j].size
      ensures BlockOf(g, d1, n1[j], p) == BlockOf(g, d0, n0[j], p) && ByteAt(g, d1, n1[j], p) == ByteAt(g, d0, n0[j], p)
    {
      BnBelow(g, p);
      assert Mapped(g, d0, n0[j], n0[j].size);
      GrowsKeepsByte(g, d, n, o, d1, n1, o1, i, ks, j, p);
    }
  }

  // ---------- The blocks a write logs ----------

  /** The data blocks lo .. hi-1 of a file, by their place on the disk. */
  ghost function DataBlocks(g: Geometry, d: Disk, ino: Inode, lo: nat, hi: nat): set<nat>
    decreases hi
  {
    if hi <= lo then {} else
      var b := Ref(g, d, ino, g.Slot(hi - 1));
      DataBlocks(g, d, ino, lo, hi - 1) + if b > 0 then {b as nat} else {}
  }

  ghost function IndirectBlock(g: Geometry, ino: Inode): set<nat> {
    if g.ndirect < |ino.addrs| && ino.addrs[g.ndirect] != 0 then {ino.addrs[g.ndirect]} else {}
  }

  /**
   What has been logged: the new blocks, their bitmap blocks, the data blocks lo ..
   hi-1, and perhaps the indirect block.
   */
  ghost predicate WriteLogs(g: Geometry, l0: set<nat>, o0: map<nat, (nat, nat)>, l: set<nat>, d: Disk,
                            n: map<nat, Inode>, o: map<nat, (nat, nat)>,
                            i: nat, lo: nat, hi: nat)
    requires 0 < g.nindirect && i in n
  {
    var added := o.Keys - o0.Keys;
    var sure := l0 + added + BitBlocks(g, added) + DataBlocks(g, d, n[i], lo, hi);
    sure <= l <= sure + IndirectBlock(g, n[i])
  }

  lemma {:induction false} DataBlocksKept(g: Geometry, d: Disk, ino: Inode, d1: Disk, ino1: Inode, lo: nat, hi: nat)
    requires forall bn | lo <= bn < hi :: Ref(g, d1, ino1, g.Slot(bn)) == Ref(g, d, ino, g.Slot(bn))
    ensures DataBlocks(g, d1, ino1, lo, hi) == DataBlocks(g, d, ino, lo, hi)
    decreases hi
  {
    hide Ref;
    if lo < hi {
      DataBlocksKept(g, d, ino, d1, ino1, lo, hi - 1);
    }
  }

  /** The slots writei may fill for blocks lo .. hi-1. */
  ghost function WriteSlots(g: Geometry, lo: nat, hi: nat): set<nat> {
    {g.ndirect} + set bn: nat | lo <= bn < hi :: g.Slot(bn)
  }

  lemma SlotsWithin(g: Geometry, lo: nat, hi: nat, bn: nat)
    requires lo <= bn < hi
    ensures SlotsFor(g, bn) <= WriteSlots(g, lo, hi)
  {
  }

  /** bmap within a write. */
  lemma WriteLogsGrow(g: Geometry, l0: set<nat>, o0: map<nat, (nat, nat)>, l: set<nat>, d: Disk, n: map<nat, Inode>,
                      o: map<nat, (nat, nat)>,
                      l1: set<nat>, d1: Disk, n1: map<nat, Inode>, o1: map<nat, (nat, nat)>, i: nat, ks: set<nat>,
                          lo: nat, hi: nat, extra: set<nat>)
    requires 0 < g.nindirect && i in n && WriteLogs(g, l0, o0, l, d, n, o, i, lo, hi) && o0.Keys <= o.Keys
             && hi <= g.Maxfile()
    requires Shape(g, d, n) && Shape(g, d1, n1)
    requires Grows(g, d, n, o, d1, n1, o1, i, ks) && Logs(g, l, o, l1, o1, extra) && extra <= IndirectBlock(g, n1[i])
    requires forall bn | lo <= bn < hi :: Ref(g, d, n[i], g.Slot(bn)) != 0
    ensures i in n1 && WriteLogs(g, l0, o0, l1, d1, n1, o1, i, lo, hi)
    ensures forall bn | lo <= bn < hi :: Ref(g, d1, n1[i], g.Slot(bn)) != 0
  {
    hide DataBlocks, BitBlocks, Ref;
    forall bn | lo <= bn < hi ensures Ref(g, d1, n1[i], g.Slot(bn)) == Ref(g, d, n[i], g.Slot(bn)) {
      assert IsSlot(g, n, i, g.Slot(bn));
    }
    DataBlocksKept(g, d, n[i], d1, n1[i], lo, hi);
    assert o1.Keys - o0.Keys == (o.Keys - o0.Keys) + (o1.Keys - o.Keys);
    BitBlocksUnion(g, o.Keys - o0.Keys, o1.Keys - o.Keys);
    IndirectKept(g, d, n, o, d1, n1, o1, i, ks);
  }

  lemma IndirectKept(g: Geometry, d: Disk, n: map<nat, Inode>, o: map<nat, (nat, nat)>, d1: Disk, n1: map<nat, Inode>,
                     o1: map<nat, (nat, nat)>, i: nat, ks: set<nat>)
    requires Grows(g, d, n, o, d1, n1, o1, i, ks) && Shape(g, d, n) && Shape(g, d1, n1)
    ensures IndirectBlock(g, n[i]) <= IndirectBlock(g, n1[i])
  {
    assert IsSlot(g, n, i, g.ndirect);
  }

  /** log_write of the data block. */
  lemma WriteLogsData(g: Geometry, l0: set<nat>, o0: map<nat, (nat, nat)>, l: set<nat>, d: Disk, n: map<nat, Inode>,
                      o: map<nat, (nat, nat)>,
                      i: nat, lo: nat, hi: nat, addr: nat, d1: Disk)
    requires 0 < g.nindirect && i in n && WriteLogs(g, l0, o0, l, d, n, o, i, lo, hi) && lo <= hi < g.Maxfile()
    requires addr != 0 && addr == Ref(g, d, n[i], g.Slot(hi))
    requires forall j: nat, k: nat | IsSlot(g, n, j, k) :: Ref(g, d1, n[j], k) == Ref(g, d, n[j], k)
    requires forall bn | lo <= bn < hi :: Ref(g, d, n[i], g.Slot(bn)) != 0
    ensures WriteLogs(g, l0, o0, l + {addr}, d1, n, o, i, lo, hi + 1)
    ensures forall bn | lo <= bn < hi + 1 :: Ref(g, d1, n[i], g.Slot(bn)) != 0
  {
    hide BitBlocks, Ref;
    forall bn | lo <= bn < hi + 1 ensures Ref(g, d1, n[i], g.Slot(bn)) == Ref(g, d, n[i], g.Slot(bn)) {
      assert IsSlot(g, n, i, g.Slot(bn));
    }
    DataBlocksKept(g, d, n[i], d1, n[i], lo, hi);
  }

  // ---------- writei ----------

  datatype Snapshot = Snapshot(disk: Disk, inodes: map<nat, Inode>, owner: map<nat, (nat, nat)>, logged: set<nat>)

  ghost predicate SnapshotOk(g: Geometry, s: Snapshot) {
    GeometryOk(g) && Shape(g, s.disk, s.inodes) && Own(g, s.disk, s.inodes, s.owner, {})
  }

  /** The number of the block after the last one that n bytes from off on touch. */
  function EndBn(g: Geometry, off: nat, n: nat): nat
    requires 0 < g.nindirect
  {
    if n == 0 then Bn(g, off) else Bn(g, off + n - 1) + 1
  }

  /** writei has written tot bytes, in blocks up to hi. */
  ghost predicate Progress(g: Geometry, s0: Snapshot, s: Snapshot, i: nat, off: nat, src: seq<int>, tot: nat, hi: nat) {
    && SnapshotOk(g, s0) && SnapshotOk(g, s) && NoHoles(g, s0.disk, s0.inodes) && off + |src| <= g.Maxfile() * g.Bsize()
    && Wrote(g, s0.disk, s0.inodes, s.disk, s.inodes, i, off, src, tot)
    && GrowsRefs(g, s0.disk, s0.inodes, s0.owner, s.disk, s.inodes, s.owner, i,
        WriteSlots(g, Bn(g, off), EndBn(g, off, |src|)))
    && WriteLogs(g, s0.logged, s0.owner, s.logged, s.disk, s.inodes, s.owner, i, Bn(g, off), hi)
    && Bn(g, off) <= hi <= EndBn(g, off, |src|)
    && (tot < |src| ==> hi == Bn(g, off + tot)) && (tot == |src| ==> hi == EndBn(g, off, |src|))
    && (forall bn | Bn(g, off) <= bn < hi :: Ref(g, s.disk, s.inodes[i], g.Slot(bn)) != 0)
  }

  lemma ProgressStart(g: Geometry, s: Snapshot, i: nat, off: nat, src: seq<int>)
    requires SnapshotOk(g, s) && i in s.inodes && NoHoles(g, s.disk, s.inodes) && off + |src| <= g.Maxfile() * g.Bsize()
    ensures Progress(g, s, s, i, off, src, 0, Bn(g, off))
  {
    hide Bn, Own, NoHoles, Wrote, Grows;
    WroteStart(g, s.disk, s.inodes, i, off, src);
    GrowsReflexive(g, s.disk, s.inodes, s.owner, i, WriteSlots(g, Bn(g, off), EndBn(g, off, |src|)));
    GrowsIsRefs(g, s.disk, s.inodes, s.owner, s.disk, s.inodes, s.owner, i,
        WriteSlots(g, Bn(g, off), EndBn(g, off, |src|)));
    assert BitBlocks(g, s.owner.Keys - s.owner.Keys) == {};
    if 0 < |src| {
      BnMonotone(g, off, off + |src| - 1);
    }
  }

  lemma GrowsIsRefs(g: Geometry, d: Disk, n: map<nat, Inode>, o: map<nat, (nat, nat)>, d1: Disk, n1: map<nat, Inode>,
                    o1: map<nat, (nat, nat)>, i: nat, ks: set<nat>)
    requires Grows(g, d, n, o, d1, n1, o1, i, ks)
    ensures GrowsRefs(g, d, n, o, d1, n1, o1, i, ks)
  {
  }

  lemma BnMonotone(g: Geometry, p: nat, q: nat)
    requires 0 < g.nindirect && p <= q
    ensures Bn(g, p) <= Bn(g, q)
  {
    hide Quot, Rem;
    QuotMonotone(p, q, g.Bsize());
  }

  /** What allocating blocks for some slots of inode i does to a snapshot. */
  ghost predicate Fills(g: Geometry, s: Snapshot, s1: Snapshot, i: nat, ks: set<nat>, extra: set<nat>) {
    && SnapshotOk(g, s) && SnapshotOk(g, s1) && i in s.inodes && i in s1.inodes
    && Grows(g, s.disk, s.inodes, s.owner, s1.disk, s1.inodes, s1.owner, i, ks)
    && Logs(g, s.logged, s.owner, s1.logged, s1.owner, extra) && extra <= IndirectBlock(g, s1.inodes[i])
  }

  /** bmap alone keeps the progress made. */
  lemma ProgressGrow(g: Geometry, s0: Snapshot, s: Snapshot, s1: Snapshot, i: nat, off: nat, src: seq<int>, tot: nat,
                     hi: nat, extra: set<nat>)
    requires Progress(g, s0, s, i, off, src, tot, hi) && tot < |src| && Fills(g, s, s1, i, SlotsFor(g, hi), extra)
    ensures Progress(g, s0, s1, i, off, src, tot, hi) && hi < EndBn(g, off, |src|) && hi < g.Maxfile()
  {
    hide Bn, Own, NoHoles, Wrote, Grows, GrowsRefs, Shape, DataBlocks, BitBlocks, WriteLogs, Logs, Ref, Geometry.Bsize,
         Geometry.Maxfile, WriteSlots, SlotsFor;
    BnMonotone(g, off + tot, off + |src| - 1);
    BnBelow(g, off + tot);
    WroteGrow(g, s0.disk, s0.inodes, s.disk, s.inodes, s.owner, s1.disk, s1.inodes, s1.owner, i, SlotsFor(g, hi), off,
        src, tot);
    SlotsWithin(g, Bn(g, off), EndBn(g, off, |src|), hi);
    GrowsIsRefs(g, s.disk, s.inodes, s.owner, s1.disk, s1.inodes, s1.owner, i, SlotsFor(g, hi));
    GrowsRefsTransitive(g, s0.disk, s0.inodes, s0.owner, s.disk, s.inodes, s.owner, s1.disk, s1.inodes, s1.owner, i,
                        WriteSlots(g, Bn(g, off), EndBn(g, off, |src|)), SlotsFor(g, hi));
    OwnersGrow(g, s0.disk, s0.inodes, s0.owner, s.disk, s.inodes, s.owner, i,
        WriteSlots(g, Bn(g, off), EndBn(g, off, |src|)));
    WriteLogsGrow(g, s0.logged, s0.owner, s.logged, s.disk, s.inodes, s.owner, s1.logged, s1.disk, s1.inodes, s1.owner,
        i, SlotsFor(g, hi),
                  Bn(g, off), hi, extra);
  }

  lemma OwnersGrow(g: Geometry, d: Disk, n: map<nat, Inode>, o: map<nat, (nat, nat)>, d1: Disk, n1: map<nat, Inode>,
                   o1: map<nat, (nat, nat)>, i: nat, ks: set<nat>)
    requires GrowsRefs(g, d, n, o, d1, n1, o1, i, ks)
    ensures o.Keys <= o1.Keys
  {
  }

  /** min(n - tot, BSIZE - off % BSIZE): how much one round of the loop moves. */
  function RoundSize(g: Geometry, p: nat, left: nat): (m: nat)
    requires 0 < g.nindirect
    ensures m <= left && At(g, p) + m <= g.Bsize() && (0 < left ==> 0 < m)
  {
    if left < g.Bsize() - At(g, p) then left else g.Bsize() - At(g, p)
  }

  /** A round ends the write or a block. */
  lemma RoundEnds(g: Geometry, p: nat, left: nat)
    requires 0 < g.nindirect && 0 < left
    ensures var m := RoundSize(g, p, left);
            if m < left then Bn(g, p + m) == Bn(g, p) + 1 else Bn(g, p + left - 1) == Bn(g, p)
  {
    hide Bn, At, Geometry.Bsize;
    NextBlock(g, p);
    var m := RoundSize(g, p, left);
    SameBlock(g, p, m - 1);
  }

  /** bmap, the copy and log_write take the write one block further. */
  lemma ProgressWrite(g: Geometry, s0: Snapshot, s: Snapshot, s1: Snapshot, i: nat, off: nat, src: seq<int>, tot: nat,
                      hi: nat, extra: set<nat>, addr: nat, s2: Snapshot)
    requires Progress(g, s0, s, i, off, src, tot, hi) && tot < |src| && Fills(g, s, s1, i, SlotsFor(g, hi), extra)
    requires addr != 0 && addr == Ref(g, s1.disk, s1.inodes[i], g.Slot(hi)) && addr in s1.disk
             && |s1.disk[addr]| == g.Bsize()
    requires var m := RoundSize(g, off + tot, |src| - tot);
             s2 == Snapshot(s1.disk[addr := Patch(s1.disk[addr], At(g, off + tot), src[tot..tot + m])], s1.inodes,
                 s1.owner, s1.logged + {addr})
    ensures Progress(g, s0, s2, i, off, src, tot + RoundSize(g, off + tot, |src| - tot), hi + 1)
  {
    hide Bn, At, Own, NoHoles, Wrote, Grows, GrowsRefs, Shape, DataBlocks, BitBlocks, WriteLogs, Logs, Ref,
         Geometry.Bsize, Geometry.Maxfile,
         WriteSlots, SlotsFor, Patch, RoundSize;
    var m := RoundSize(g, off + tot, |src| - tot);
    var ks := WriteSlots(g, Bn(g, off), EndBn(g, off, |src|));
    var block := Patch(s1.disk[addr], At(g, off + tot), src[tot..tot + m]);
    ProgressGrow(g, s0, s, s1, i, off, src, tot, hi, extra);
    DataBlockOk(g, s1.disk, s1.inodes, s1.owner, i, hi);
    WriteKeepsRefs(g, s1.disk, s1.inodes, s1.owner, addr, block);
    WroteStep(g, s0.disk, s0.inodes, s.disk, s.inodes, s.owner, s1.disk, s1.inodes, s1.owner, i, SlotsFor(g, hi), off,
        src, tot, m, addr);
    SameRefsGrow(g, s0.disk, s0.inodes, s0.owner, s1.disk, s1.inodes, s1.owner, s2.disk, i, ks);
    WriteLogsData(g, s0.logged, s0.owner, s1.logged, s1.disk, s1.inodes, s1.owner, i, Bn(g, off), hi, addr, s2.disk);
    RoundEnds(g, off + tot, |src| - tot);
    if tot + m < |src| {
      BnMonotone(g, off + tot + m, off + |src| - 1);
    }
  }

  lemma SameRefsGrow(g: Geometry, d: Disk, n: map<nat, Inode>, o: map<nat, (nat, nat)>, d1: Disk, n1: map<nat, Inode>,
                     o1: map<nat, (nat, nat)>, d2: Disk, i: nat, ks: set<nat>)
    requires GrowsRefs(g, d, n, o, d1, n1, o1, i, ks)
    requires forall j: nat, k: nat | IsSlot(g, n1, j, k) :: Ref(g, d2, n1[j], k) == Ref(g, d1, n1[j], k)
    ensures GrowsRefs(g, d, n, o, d2, n1, o1, i, ks)
  {
    hide Ref;
    forall j: nat, k: nat | IsSlot(g, n, j, k) && (Ref(g, d, n[j], k) != 0 || j != i || k !in ks)
      ensures Ref(g, d2, n1[j], k) == Ref(g, d, n[j], k)
    {
      assert IsSlot(g, n1, j, k);
    }
  }

  /** The end of writei: the new size makes the written bytes part of the file. */
  lemma ProgressEnd(g: Geometry, s0: Snapshot, s: Snapshot, i: nat, off: nat, src: seq<int>, tot: nat, hi: nat)
    requires Progress(g, s0, s, i, off, src, tot, hi) && off <= s0.inodes[i].size
    ensures var size := if off + tot > s0.inodes[i].size then off + tot else s0.inodes[i].size;
            var n := s.inodes[i := s.inodes[i].(size := size)];
            && Shape(g, s.disk, n) && Own(g, s.disk, n, s.owner, {}) && NoHoles(g, s.disk, n)
            && Content(g, s.disk, n[i]) == Splice(Content(g, s0.disk, s0.inodes[i]), off, src[..tot])
            && forall j | j in n
                && j != i :: n[j] == s0.inodes[j] && Content(g, s.disk, n[j]) == Content(g, s0.disk, s0.inodes[j])
  {
    hide Bn, At, Own, Grows, GrowsRefs, WriteLogs, Geometry.Bsize, Geometry.Maxfile, BlockOf, ByteAt;
    var size := if off + tot > s0.inodes[i].size then off + tot else s0.inodes[i].size;
    var n := s.inodes[i := s.inodes[i].(size := size)];
    SizeKeepsOwn(g, s.disk, s.inodes, s.owner, i, size);
    SizeKeepsBytes(g, s.disk, s.inodes[i], size);
    assert Mapped(g, s.disk, n[i], size);
    forall j | j in n && j != i
      ensures n[j] == s0.inodes[j] && Mapped(g, s.disk, n[j], n[j].size)
              && Content(g, s.disk, n[j]) == Content(g, s0.disk, s0.inodes[j]) {
      assert Mapped(g, s0.disk, s0.inodes[j], s0.inodes[j].size);
    }
    var x, y := Content(g, s.disk, n[i]), Splice(Content(g, s0.disk, s0.inodes[i]), off, src[..tot]);
    assert |x| == |y| && forall p | 0 <= p < |x| :: x[p] == y[p];
  }

  lemma SizeKeepsBytes(g: Geometry, d: Disk, ino: Inode, size: nat)
    requires 0 < g.nindirect
    ensures forall p: nat :: BlockOf(g, d, ino.(size := size), p) == BlockOf(g, d, ino, p)
    ensures forall p: nat :: ByteAt(g, d, ino.(size := size), p) == ByteAt(g, d, ino, p)
  {
    hide Bn, At;
  }

  ghost function Snap(fs: Filesystem): Snapshot
    reads fs
  {
    Snapshot(fs.disk, fs.inodes, fs.owner, fs.logged)
  }

  /** The disk is full and the file has no block for byte p. */
  ghost predicate NoRoom(g: Geometry, d: Disk, n: map<nat, Inode>, i: nat, p: nat)
    requires GeometryOk(g) && DiskOk(g, d)
  {
    Full(g, d) && i in n && BlockOf(g, d, n[i], p) == 0
  }

  /** One round of writei's loop.  Returns the bytes moved, 0 when the disk is full or the source cannot be read. */
  method WriteRound(fs: Filesystem, i: nat, off: nat, src: seq<int>, tot: nat, good: nat, ghost s0: Snapshot,
                    ghost hi: nat) returns (m: nat)
    requires Progress(fs.g, s0, Snap(fs), i, off, src, tot, hi) && tot < |src|
    modifies fs
    ensures m == 0 ==> Progress(fs.g, s0, Snap(fs), i, off, src, tot, hi)
    ensures m == 0 ==>
            NoRoom(fs.g, fs.disk, fs.inodes, i, off + tot) || good < tot + RoundSize(fs.g, off + tot, |src| - tot)
    ensures m > 0 ==> m == RoundSize(fs.g, off + tot, |src| - tot) && tot + m <= good
    ensures m > 0 ==> Progress(fs.g, s0, Snap(fs), i, off, src, tot + m, hi + 1)
  {
    hide Bn, At, Own, NoHoles, Wrote, Grows, GrowsRefs, DataBlocks, BitBlocks, WriteLogs, Logs, Ref, Geometry.Bsize,
         Geometry.Maxfile,
         WriteSlots, SlotsFor, Patch, RoundSize, Full;
    ghost var s := Snap(fs);
    BnBelow(fs.g, off + tot);
    WroteKeys(fs.g, s0, s, i, off, src, tot, hi);
    ghost var was := Ref(fs.g, fs.disk, fs.inodes[i], fs.g.Slot(hi));
    var addr := fs.Bmap(i, Bn(fs.g, off + tot));
    ghost var s1 := Snap(fs);
    ghost var extra := if fs.g.ndirect <= hi && was == 0 && addr != 0 then {fs.inodes[i].addrs[fs.g.ndirect]} else {};
    ExtraIsIndirect(fs.g, fs.disk, fs.inodes, i, hi, addr, was);
    ProgressGrow(fs.g, s0, s, s1, i, off, src, tot, hi, extra);
    if addr == 0 {
      return 0;
    }
    m := RoundSize(fs.g, off + tot, |src| - tot);
    if tot + m > good {
      return 0;
    }
    DataBlockOk(fs.g, fs.disk, fs.inodes, fs.owner, i, hi);
    ghost var s2 :=
        Snapshot(fs.disk[addr := Patch(fs.disk[addr], At(fs.g, off + tot), src[tot..tot + m])], fs.inodes, fs.owner,
        fs.logged + {addr});
    ProgressWrite(fs.g, s0, s, s1, i, off, src, tot, hi, extra, addr, s2);
    fs.disk := fs.disk[addr := Patch(fs.disk[addr], At(fs.g, off + tot), src[tot..tot + m])];
    fs.logged := fs.logged + {addr};
  }

  lemma ExtraIsIndirect(g: Geometry, d: Disk, n: map<nat, Inode>, i: nat, bn: nat, addr: nat, was: int)
    requires Shape(g, d, n) && i in n && addr == Ref(g, d, n[i], g.Slot(bn))
    ensures (if g.ndirect <= bn && was == 0 && addr != 0 then {n[i].addrs[g.ndirect]} else {}) <= IndirectBlock(g, n[i])
  {
  }

  /**
   writei: src written from off on; `good` is how many bytes of the source can
   be read before either_copyin fails.  Returns -1 for a bad range and
   otherwise the number of bytes written.
   */
  method Writei(fs: Filesystem, i: nat, off: nat, src: seq<int>, good: nat) returns (r: int, ghost hi: nat)
    requires fs.Valid() && i in fs.inodes && NoHoles(fs.g, fs.disk, fs.inodes) && off < WORDS && |src| < WORDS
    modifies fs
    ensures fs.Valid() && NoHoles(fs.g, fs.disk, fs.inodes) && fs.inodes.Keys == old(fs.inodes).Keys
    ensures var bad := off > old(fs.inodes)[i].size || off + |src| >= WORDS
            || off + |src| > fs.g.Maxfile() * fs.g.Bsize();
            if bad then r == -1 && Snap(fs) == old(Snap(fs))
            else
              && 0 <= r <= |src|
              && Content(fs.g, fs.disk, fs.inodes[i])
                  == Splice(Content(fs.g, old(fs.disk), old(fs.inodes)[i]), off, src[..r])
              && (r < |src| ==>
                  NoRoom(fs.g, fs.disk, fs.inodes, i, off + r) || good < r + RoundSize(fs.g, off + r, |src| - r))
              && (r == |src| ==> hi == EndBn(fs.g, off, |src|))
              && LoggedAll(fs.g, old(Snap(fs)), Snap(fs), i, off, |src|, hi)
    ensures forall j | j in fs.inodes && j != i ::
              fs.inodes[j] == old(fs.inodes)[j]
                  && Content(fs.g, fs.disk, fs.inodes[j]) == Content(fs.g, old(fs.disk), old(fs.inodes)[j])
  {
    hide Bn, At, Own, Shape, NoHoles, Wrote, GrowsRefs, WriteLogs, Ref, Geometry.Bsize, Geometry.Maxfile, WriteSlots,
         RoundSize, Full, Content, Splice, LoggedAll;
    ghost var s0 := Snap(fs);
    hi := 0;
    if off > fs.inodes[i].size || (off + |src|) % WORDS < off {
      return -1, 0;
    }
    if off + |src| > fs.g.Maxfile() * fs.g.Bsize() {
      return -1, 0;
    }
    hi := Bn(fs.g, off);
    ProgressStart(fs.g, s0, i, off, src);
    var tot := 0;
    while tot < |src|
      invariant 0 <= tot <= |src|
      invariant Progress(fs.g, s0, Snap(fs), i, off, src, tot, hi)
    {
      var m := WriteRound(fs, i, off, src, tot, good, s0, hi);
      if m == 0 {
        break;
      }
      tot := tot + m;
      hi := hi + 1;
    }
    ProgressEnd(fs.g, s0, Snap(fs), i, off, src, tot, hi);
    ghost var s := Snap(fs);
    WroteKeys(fs.g, s0, s, i, off, src, tot, hi);
    var size := if off + tot > fs.inodes[i].size then off + tot else fs.inodes[i].size;
    SizeKeepsBytes(fs.g, fs.disk, fs.inodes[i], size);
    fs.inodes := fs.inodes[i := fs.inodes[i].(size := size)];
    fs.logged := fs.logged + {InodeBlock(fs.g, i)};
    LoggedAtEnd(fs.g, s0, s, i, off, src, tot, hi, Snap(fs), size);
    return tot, hi;
  }

  lemma WroteKeys(g: Geometry, s0: Snapshot, s: Snapshot, i: nat, off: nat, src: seq<int>, tot: nat, hi: nat)
    requires Progress(g, s0, s, i, off, src, tot, hi)
    ensures i in s.inodes && s.inodes.Keys == s0.inodes.Keys && s.inodes[i].size == s0.inodes[i].size
  {
  }

  /**
   The transaction of a write: blocks were added for empty slots only, and what was
   logged is exactly known but for the indirect block.
   */
  ghost predicate LoggedAll(g: Geometry, s0: Snapshot, s: Snapshot, i: nat, off: nat, n: nat, hi: nat)
    requires 0 < g.nindirect && 0 < g.ipb
  {
    && i in s0.inodes && i in s.inodes && Bn(g, off) <= hi <= EndBn(g, off, n)
    && (forall b | b in s0.owner :: b in s.owner && s.owner[b] == s0.owner[b])
    && (forall b | b in s.owner && b !in s0.owner ::
          && s.owner[b].0 == i && s.owner[b].1 in WriteSlots(g, Bn(g, off), EndBn(g, off, n))
          && Ref(g, s0.disk, s0.inodes[i], s.owner[b].1) == 0)
    && var added := s.owner.Keys - s0.owner.Keys;
       var sure := s0.logged + added + BitBlocks(g, added) + DataBlocks(g, s.disk, s.inodes[i], Bn(g, off), hi)
           + {InodeBlock(g, i)};
       sure <= s.logged <= sure + IndirectBlock(g, s.inodes[i])
  }

  lemma LoggedAtEnd(g: Geometry, s0: Snapshot, s: Snapshot, i: nat, off: nat, src: seq<int>, tot: nat, hi: nat,
                    s': Snapshot, size: nat)
    requires Progress(g, s0, s, i, off, src, tot, hi) && i in s.inodes
    requires s' == Snapshot(s.disk, s.inodes[i := s.inodes[i].(size := size)], s.owner, s.logged + {InodeBlock(g, i)})
    ensures LoggedAll(g, s0, s', i, off, |src|, hi)
  {
    hide Bn, BitOf, Wrote, NoHoles, Ref, DataBlocks, BitBlocks;
    SizeKeepsRefs(g, s.disk, s.inodes[i], size);
    DataBlocksKept(g, s.disk, s.inodes[i], s'.disk, s'.inodes[i], Bn(g, off), hi);
    forall b | b in s.owner && b !in s0.owner ensures Ref(g, s0.disk, s0.inodes[i], s.owner[b].1) == 0 {
      AddedWasEmpty(g, s0, s, i, WriteSlots(g, Bn(g, off), EndBn(g, off, |src|)), b);
    }
  }

  lemma SizeKeepsRefs(g: Geometry, d: Disk, ino: Inode, size: nat)
    ensures forall k: nat :: Ref(g, d, ino.(size := size), k) == Ref(g, d, ino, k)
  {
  }

  /** A block that was added fills a slot that was empty. */
  lemma AddedWasEmpty(g: Geometry, s0: Snapshot, s: Snapshot, i: nat, ks: set<nat>, b: nat)
    requires SnapshotOk(g, s0) && SnapshotOk(g, s)
             && GrowsRefs(g, s0.disk, s0.inodes, s0.owner, s.disk, s.inodes, s.owner, i, ks)
    requires b in s.owner && b !in s0.owner
    ensures Ref(g, s0.disk, s0.inodes[i], s.owner[b].1) == 0
  {
    hide Ref, BitOf;
    var k := s.owner[b].1;
    assert IsSlot(g, s.inodes, i, k) && IsSlot(g, s0.inodes, i, k);
    var x := Ref(g, s0.disk, s0.inodes[i], k);
    assert x != 0 ==> Owns(s0.owner, x, i, k);
  }

  // ---------- The budget of a transaction ----------

  lemma {:induction false} SubsetCard<T>(a: set<T>, b: set<T>)
    requires a <= b
    ensures |a| <= |b|
    decreases |a|
  {
    if a != {} {
      var x :| x in a;
      SubsetCard(a - {x}, b - {x});
    }
  }

  lemma {:induction false} BitBlocksCard(g: Geometry, s: set<nat>)
    requires 0 < g.nindirect
    ensures |BitBlocks(g, s)| <= |s|
    decreases |s|
  {
    hide BitBlock;
    if s == {} {
      assert BitBlocks(g, s) == {};
    } else {
      var x :| x in s;
      BitBlocksCard(g, s - {x});
      assert BitBlocks(g, s) == BitBlocks(g, s - {x}) + {BitBlock(g, x)};
    }
  }

  lemma {:induction false} DataBlocksCard(g: Geometry, d: Disk, ino: Inode, lo: nat, hi: nat)
    requires lo <= hi
    ensures |DataBlocks(g, d, ino, lo, hi)| <= hi - lo
    decreases hi
  {
    hide Ref;
    if lo < hi {
      DataBlocksCard(g, d, ino, lo, hi - 1);
    }
  }

  lemma {:induction false} DataBlocksHas(g: Geometry, d: Disk, ino: Inode, lo: nat, hi: nat, bn: nat)
    requires lo <= bn < hi && Ref(g, d, ino, g.Slot(bn)) > 0
    ensures Ref(g, d, ino, g.Slot(bn)) in DataBlocks(g, d, ino, lo, hi)
    decreases hi
  {
    hide Ref;
    if bn < hi - 1 {
      DataBlocksHas(g, d, ino, lo, hi - 1, bn);
    }
  }

  lemma {:induction false} DataBlocksMore(g: Geometry, d: Disk, ino: Inode, lo: nat, hi: nat, lo': nat, hi': nat)
    requires lo <= lo' && hi' <= hi
    ensures DataBlocks(g, d, ino, lo', hi') <= DataBlocks(g, d, ino, lo, hi)
    decreases hi + hi'
  {
    hide Ref;
    if lo' < hi' {
      if hi' == hi {
        DataBlocksMore(g, d, ino, lo, hi - 1, lo', hi' - 1);
      } else {
        DataBlocksMore(g, d, ino, lo, hi - 1, lo', hi');
      }
    }
  }

  /** q blocks' worth of bytes touch q blocks, or one more when they do not start at a block. */
  lemma SpanBound(g: Geometry, off: nat, n: nat, q: nat)
    requires 0 < g.nindirect && 0 < n <= q * g.Bsize()
    ensures EndBn(g, off, n) - Bn(g, off) <= q + if At(g, off) == 0 then 0 else 1
  {
    hide Quot, Rem;
    SpanQuot(off, n, q, g.Bsize());
  }

  /** Without holes, the first block of a write that does not start at a block is there already. */
  lemma FirstIsMapped(g: Geometry, d: Disk, ino: Inode, off: nat)
    requires 0 < g.nindirect && Mapped(g, d, ino, ino.size) && off <= ino.size && At(g, off) != 0
    ensures Ref(g, d, ino, g.Slot(Bn(g, off))) != 0
  {
    hide Ref, Quot, Rem;
    LastByteBefore(off, g.Bsize());
    assert BlockOf(g, d, ino, off - 1) != 0;
  }

  /** The blocks a write adds are data blocks of the range, but for an unaligned first one, and the indirect block. */
  lemma AddedBlocks(g: Geometry, s0: Snapshot, s: Snapshot, i: nat, off: nat, n: nat, hi: nat)
    requires SnapshotOk(g, s0) && SnapshotOk(g, s) && i in s0.inodes && NoHoles(g, s0.disk, s0.inodes)
             && off <= s0.inodes[i].size
    requires LoggedAll(g, s0, s, i, off, n, hi)
    ensures s.owner.Keys - s0.owner.Keys <=
            DataBlocks(g, s.disk, s.inodes[i], Bn(g, off) + (if At(g, off) == 0 then 0 else 1), EndBn(g, off, n))
                + IndirectBlock(g, s.inodes[i])
  {
    hide Bn, At, BitOf, DataBlocks, BitBlocks, Geometry.Bsize, Geometry.Maxfile;
    var lo' := Bn(g, off) + (if At(g, off) == 0 then 0 else 1);
    if At(g, off) != 0 {
      FirstIsMapped(g, s0.disk, s0.inodes[i], off);
    }
    forall b | b in s.owner && b !in s0.owner
      ensures b in DataBlocks(g, s.disk, s.inodes[i], lo', EndBn(g, off, n)) + IndirectBlock(g, s.inodes[i]) {
      AddedBlock(g, s0, s, i, off, n, hi, b, lo');
    }
  }

  lemma AddedBlock(g: Geometry, s0: Snapshot, s: Snapshot, i: nat, off: nat, n: nat, hi: nat, b: nat, lo': nat)
    requires SnapshotOk(g, s0) && SnapshotOk(g, s) && LoggedAll(g, s0, s, i, off, n, hi) && b in s.owner
             && b !in s0.owner
    requires lo' == Bn(g, off) || (lo' == Bn(g, off) + 1 && Ref(g, s0.disk, s0.inodes[i], g.Slot(Bn(g, off))) != 0)
    ensures b in DataBlocks(g, s.disk, s.inodes[i], lo', EndBn(g, off, n)) + IndirectBlock(g, s.inodes[i])
  {
    hide Bn, At, BitOf, DataBlocks, BitBlocks, Geometry.Bsize, Geometry.Maxfile, Geometry.Slot, Indirect, Word,
         WriteSlots;
    var k := s.owner[b].1;
    assert Ref(g, s.disk, s.inodes[i], k) == b;
    if k != g.ndirect {
      var bn := BlockNumber(g, Bn(g, off), EndBn(g, off, n), k);
      DataBlocksHas(g, s.disk, s.inodes[i], lo', EndBn(g, off, n), bn);
    }
  }

  lemma BlockNumber(g: Geometry, lo: nat, hi: nat, k: nat) returns (bn: nat)
    requires k in WriteSlots(g, lo, hi) && k != g.ndirect
    ensures lo <= bn < hi && k == g.Slot(bn)
  {
    bn :| lo <= bn < hi && k == g.Slot(bn);
  }

  /** The blocks filewrite writes in one transaction of at most `max` log blocks: (max - 1 - 1 - 2) / 2. */
  function ChunkBlocks(max: nat): nat
    requires 4 <= max
  {
    (max - 1 - 1 - 2) / 2
  }

  /** No chunk of filewrite, at any offset of any file without holes, logs more than `max` blocks. */
  lemma ChunkBudget(g: Geometry, s0: Snapshot, s: Snapshot, i: nat, off: nat, n: nat, hi: nat, max: nat)
    requires SnapshotOk(g, s0) && SnapshotOk(g, s) && i in s0.inodes && NoHoles(g, s0.disk, s0.inodes)
             && off <= s0.inodes[i].size
    requires LoggedAll(g, s0, s, i, off, n, hi) && s0.logged == {} && 4 <= max && 0 < n <= ChunkBlocks(max) * g.Bsize()
    ensures |s.logged| <= max
  {
    hide *;
    LoggedFacts(g, s0, s, i, off, n, hi);
    SpanBound(g, off, n, ChunkBlocks(max));
    BitsBound(g, s0, s, i, off, n, hi);
    LoggedBound(g, s0, s, i, off, n, hi);
    BudgetSum(|s.logged|, |BitBlocks(g, s.owner.Keys - s0.owner.Keys)|, EndBn(g, off, n) - Bn(g, off),
        if At(g, off) == 0 then 0 else 1, max);
  }

  lemma BudgetSum(logged: nat, bits: nat, span: int, a: nat, max: nat)
    requires 4 <= max && logged <= span + 1 + bits + 1 && bits <= span - a + 1 && span <= ChunkBlocks(max) + a && a <= 1
    ensures logged <= max
  {
  }

  lemma BitsBound(g: Geometry, s0: Snapshot, s: Snapshot, i: nat, off: nat, n: nat, hi: nat)
    requires SnapshotOk(g, s0) && SnapshotOk(g, s) && i in s0.inodes && NoHoles(g, s0.disk, s0.inodes)
             && off <= s0.inodes[i].size
    requires LoggedAll(g, s0, s, i, off, n, hi) && s0.logged == {} && 0 < n
    ensures |BitBlocks(g, s.owner.Keys - s0.owner.Keys)|
            <= EndBn(g, off, n) - Bn(g, off) - (if At(g, off) == 0 then 0 else 1) + 1
  {
    hide *;
    LoggedFacts(g, s0, s, i, off, n, hi);
    var lo', end := Bn(g, off) + (if At(g, off) == 0 then 0 else 1), EndBn(g, off, n);
    var added := s.owner.Keys - s0.owner.Keys;
    AddedBlocks(g, s0, s, i, off, n, hi);
    EndIsPast(g, off, n);
    DataBlocksCard(g, s.disk, s.inodes[i], lo', end);
    IndirectCard(g, s.inodes[i]);
    BitBlocksCard(g, added);
    ThreeCard(added, BitBlocks(g, added), DataBlocks(g, s.disk, s.inodes[i], lo', end), IndirectBlock(g, s.inodes[i]));
  }

  lemma LoggedBound(g: Geometry, s0: Snapshot, s: Snapshot, i: nat, off: nat, n: nat, hi: nat)
    requires SnapshotOk(g, s0) && SnapshotOk(g, s) && i in s0.inodes && NoHoles(g, s0.disk, s0.inodes)
             && off <= s0.inodes[i].size
    requires LoggedAll(g, s0, s, i, off, n, hi) && s0.logged == {} && 0 < n
    ensures |s.logged| <= EndBn(g, off, n) - Bn(g, off) + 1 + |BitBlocks(g, s.owner.Keys - s0.owner.Keys)| + 1
  {
    hide *;
    LoggedFacts(g, s0, s, i, off, n, hi);
    EndIsPast(g, off, n);
    DataBlocksCard(g, s.disk, s.inodes[i], Bn(g, off), EndBn(g, off, n));
    IndirectCard(g, s.inodes[i]);
    FourCard(s.logged, DataBlocks(g, s.disk, s.inodes[i], Bn(g, off), EndBn(g, off, n)), IndirectBlock(g, s.inodes[i]),
             BitBlocks(g, s.owner.Keys - s0.owner.Keys), InodeBlock(g, i));
  }

  lemma IndirectCard(g: Geometry, ino: Inode)
    ensures |IndirectBlock(g, ino)| <= 1
  {
  }

  lemma UnionCard(a: set<nat>, b: set<nat>)
    ensures |a + b| <= |a| + |b|
  {
    assert |a + b| + |a * b| == |a| + |b|;
  }

  lemma FourCard(s: set<nat>, a: set<nat>, b: set<nat>, c: set<nat>, x: nat)
    requires s <= a + b + c + {x}
    ensures |s| <= |a| + |b| + |c| + 1
  {
    SubsetCard(s, a + b + c + {x});
    UnionCard(a, b);
    UnionCard(a + b, c);
    UnionCard(a + b + c, {x});
  }

  lemma ThreeCard(s: set<nat>, t: set<nat>, a: set<nat>, b: set<nat>)
    requires |t| <= |s| && s <= a + b
    ensures |t| <= |a| + |b|
  {
    SubsetCard(s, a + b);
    UnionCard(a, b);
  }

  /**
   All that a write logs: data blocks of the range, the indirect block, bitmap blocks
   of added blocks, the inode block.
   */
  lemma LoggedFacts(g: Geometry, s0: Snapshot, s: Snapshot, i: nat, off: nat, n: nat, hi: nat)
    requires SnapshotOk(g, s0) && SnapshotOk(g, s) && i in s0.inodes && NoHoles(g, s0.disk, s0.inodes)
             && off <= s0.inodes[i].size
    requires LoggedAll(g, s0, s, i, off, n, hi) && s0.logged == {} && 0 < n
    ensures i in s.inodes && 0 < g.nindirect && 0 < g.ipb
    ensures s.logged <= DataBlocks(g, s.disk, s.inodes[i], Bn(g, off), EndBn(g, off, n)) + IndirectBlock(g, s.inodes[i])
                        + BitBlocks(g, s.owner.Keys - s0.owner.Keys) + {InodeBlock(g, i)}
  {
    hide Bn, At, BitOf, DataBlocks, BitBlocks, NoHoles, Own, Shape, Geometry.Bsize, Geometry.Maxfile, InodeBlock,
         IndirectBlock, WriteSlots, Ref;
    var lo, end := Bn(g, off), EndBn(g, off, n);
    var ino := s.inodes[i];
    AddedBlocks(g, s0, s, i, off, n, hi);
    EndIsPast(g, off, n);
    DataBlocksMore(g, s.disk, ino, lo, end, lo + (if At(g, off) == 0 then 0 else 1), end);
    DataBlocksMore(g, s.disk, ino, lo, end, lo, hi);
  }

  lemma EndIsPast(g: Geometry, off: nat, n: nat)
    requires 0 < g.nindirect && 0 < n
    ensures Bn(g, off) < EndBn(g, off, n)
  {
    hide Bn;
    BnMonotone(g, off, off + n - 1);
  }

  /**
   filewrite on an inode: the `count` bytes src in chunks, each in its own transaction.
   `trace` holds the set of blocks each transaction logged.
   */
  method Filewrite(fs: Filesystem, i: nat, off: nat, count: int, src: seq<int>, good: nat, max: nat)
    returns (ret: int, off': nat, ghost trace: seq<set<nat>>)
    requires |src| == if count < 0 then 0 else count
    requires fs.Valid() && i in fs.inodes && NoHoles(fs.g, fs.disk, fs.inodes) && off < WORDS && |src| < WORDS / 2
    requires 6 <= max && fs.g.Maxfile() * fs.g.Bsize() < WORDS
    modifies fs
    ensures fs.Valid() && NoHoles(fs.g, fs.disk, fs.inodes) && fs.inodes.Keys == old(fs.inodes).Keys
    ensures forall t | 0 <= t < |trace| :: |trace[t]| <= max
    ensures off <= off' <= off + |src| && ret == if off' == off + count then count else -1
    ensures count < 0 ==> ret == -1 && off' == off && trace == [] && Snap(fs) == old(Snap(fs))
    ensures off' == off || off <= old(fs.inodes)[i].size
    ensures off' < off + |src| ==>
              off > old(fs.inodes)[i].size || off + |src| > fs.g.Maxfile() * fs.g.Bsize()
                  || NoRoom(fs.g, fs.disk, fs.inodes, i, off') || good < |src|
    ensures off <= old(fs.inodes)[i].size ==>
              Content(fs.g, fs.disk, fs.inodes[i])
                  == Splice(Content(fs.g, old(fs.disk), old(fs.inodes)[i]), off, src[..off' - off])
    ensures OthersKept(fs.g, old(fs.disk), old(fs.inodes), fs.disk, fs.inodes, i)
  {
    hide Bn, At, Own, Shape, NoHoles, NoRoom, Ref, Geometry.Bsize, Geometry.Maxfile, RoundSize, Full, Content, Splice,
         LoggedAll, ChunkBlocks, OthersKept;
    OthersSame(fs.g, fs.disk, fs.inodes, i);
    trace := [];
    var n := 0;
    ghost var c0 := Content(fs.g, fs.disk, fs.inodes[i]);
    SpliceNone(c0, off, src);
    while n < |src|
      invariant 0 <= n <= |src| && (src == [] ==> trace == [] && Snap(fs) == old(Snap(fs)))
      invariant fs.Valid() && NoHoles(fs.g, fs.disk, fs.inodes) && fs.inodes.Keys == old(fs.inodes).Keys
      invariant forall t | 0 <= t < |trace| :: |trace[t]| <= max
      invariant if n == 0 then fs.inodes[i].size == |c0|
                else off <= |c0| && off + n < WORDS && off + n <= fs.inodes[i].size
      invariant off <= |c0| ==> Content(fs.g, fs.disk, fs.inodes[i]) == Splice(c0, off, src[..n])
      invariant OthersKept(fs.g, old(fs.disk), old(fs.inodes), fs.disk, fs.inodes, i)
    {
      var n1 := if |src| - n > ChunkBlocks(max) * fs.g.Bsize() then ChunkBlocks(max) * fs.g.Bsize() else |src| - n;
      ChunkPositive(fs.g, max);
      var r; ghost var used;
      var t := src[n..n + n1];
      ghost var d, m := fs.disk, fs.inodes;
      r, used := WriteChunk(fs, i, off + n, t, if good < n then 0 else good - n, max);
      OthersChain(fs.g, old(fs.disk), old(fs.inodes), d, m, fs.disk, fs.inodes, i);
      trace := trace + [used];
      if off <= |c0| && 0 <= r {
        SpliceTwice(c0, off, src, n, t, r);
      }
      if r > 0 {
        n := n + r;
      }
      if r != n1 {
        break;
      }
    }
    return if n == count then n else -1, off + n, trace;
  }

  /** Every file but i is as it was. */
  ghost predicate OthersKept(g: Geometry, d0: Disk, n0: map<nat, Inode>, d: Disk, n: map<nat, Inode>, i: nat)
    requires 0 < g.nindirect
  {
    forall j | j in n && j != i :: j in n0 && n[j] == n0[j] && Content(g, d, n[j]) == Content(g, d0, n0[j])
  }

  lemma OthersSame(g: Geometry, d: Disk, n: map<nat, Inode>, i: nat)
    requires 0 < g.nindirect
    ensures OthersKept(g, d, n, d, n, i)
  {
  }

  lemma OthersChain(g: Geometry, d0: Disk, n0: map<nat, Inode>, d: Disk, n: map<nat, Inode>, d': Disk,
                    n': map<nat, Inode>, i: nat)
    requires 0 < g.nindirect && OthersKept(g, d0, n0, d, n, i) && OthersKept(g, d, n, d', n', i)
    ensures OthersKept(g, d0, n0, d', n', i)
  {
    hide Content;
  }

  /** begin_op, writei, end_op: one transaction of filewrite. */
  method WriteChunk(fs: Filesystem, i: nat, off: nat, src: seq<int>, good: nat, max: nat)
    returns (r: int, ghost used: set<nat>)
    requires fs.Valid() && i in fs.inodes && NoHoles(fs.g, fs.disk, fs.inodes) && off < WORDS && 0 < |src| < WORDS
    requires 4 <= max && |src| <= ChunkBlocks(max) * fs.g.Bsize()
    modifies fs
    ensures fs.Valid() && NoHoles(fs.g, fs.disk, fs.inodes) && fs.inodes.Keys == old(fs.inodes).Keys
    ensures used == fs.logged && |used| <= max
    ensures var bad := off > old(fs.inodes)[i].size || off + |src| >= WORDS
            || off + |src| > fs.g.Maxfile() * fs.g.Bsize();
            if bad then r == -1 && fs.inodes == old(fs.inodes) && fs.disk == old(fs.disk)
            else
              && 0 <= r <= |src|
              && Content(fs.g, fs.disk, fs.inodes[i])
                  == Splice(Content(fs.g, old(fs.disk), old(fs.inodes)[i]), off, src[..r])
              && (r < |src| ==> NoRoom(fs.g, fs.disk, fs.inodes, i, off + r) || good < |src|)
    ensures OthersKept(fs.g, old(fs.disk), old(fs.inodes), fs.disk, fs.inodes, i)
  {
    hide Bn, At, Own, Shape, NoHoles, NoRoom, Ref, Geometry.Bsize, Geometry.Maxfile, RoundSize, Full, Content, Splice,
         LoggedAll;
    fs.logged := {};
    ghost var s0 := Snap(fs);
    ghost var hi;
    r, hi := Writei(fs, i, off, src, good);
    used := fs.logged;
    if r != -1 {
      ChunkBudget(fs.g, s0, Snap(fs), i, off, |src|, hi, max);
    }
  }

  lemma SpliceNone(s: seq<int>, off: nat, src: seq<int>)
    ensures off <= |s| ==> Splice(s, off, src[..0]) == s
  {
  }

  /** Two writes, the second where the first ended, are one. */
  lemma SpliceTwice(s: seq<int>, off: nat, src: seq<int>, n: nat, t: seq<int>, r: nat)
    requires off <= |s| && n + |t| <= |src| && t == src[n..n + |t|] && r <= |t|
    ensures |Splice(s, off, src[..n])| >= off + n
    ensures var c := Splice(Splice(s, off, src[..n]), off + n, t[..r]);
            c == Splice(s, off, src[..n + r]) && |c| >= off + n + r
  {
    var c, e := Splice(Splice(s, off, src[..n]), off + n, t[..r]), Splice(s, off, src[..n + r]);
    assert |c| == |e|;
    assert forall p | 0 <= p < |c| :: c[p] == e[p];
  }

  lemma ChunkPositive(g: Geometry, max: nat)
    requires 6 <= max && 0 < g.nindirect
    ensures 0 < ChunkBlocks(max) * g.Bsize()
  {
    MulMonotone(1, ChunkBlocks(max), g.Bsize());
  }
}
