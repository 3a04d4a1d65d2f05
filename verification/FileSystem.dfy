/**
 The block and inode operations of kernel/fs.c as an object: balloc, bfree,
 bmap, itrunc, readi, writei.  `logged` collects the blocks the current
 transaction has passed to log_write.
 */
module FileSystem {
  import opened Arithmetic
  import opened Blocks
  import opened Fs

  /** Every block is in use. */
  ghost predicate Full(g: Geometry, disk: Disk)
    requires GeometryOk(g) && DiskOk(g, disk)
  {
    forall b | 0 <= b < g.size :: BitOf(g, disk, b)
  }

  ghost function BitBlocks(g: Geometry, s: set<nat>): set<nat>
    requires 0 < g.nindirect
  {
    set b | b in s :: BitBlock(g, b)
  }

  /** Inode i got blocks for empty slots among ks; every other reference and every other inode is as before. */
  ghost predicate GrowsRefs(g: Geometry, disk: Disk, inodes: map<nat, Inode>, owner: map<nat, (nat, nat)>,
                            disk': Disk, inodes': map<nat, Inode>, owner': map<nat, (nat, nat)>, i: nat, ks: set<nat>)
  {
    && i in inodes && inodes'.Keys == inodes.Keys && inodes'[i].size == inodes[i].size
    && (forall j | j in inodes && j != i :: inodes'[j] == inodes[j])
    && (forall j: nat, k: nat | IsSlot(g, inodes, j, k) && (Ref(g, disk, inodes[j], k) != 0 || j != i || k !in ks) ::
          Ref(g, disk', inodes'[j], k) == Ref(g, disk, inodes[j], k))
    && (forall b | b in owner :: b in owner' && owner'[b] == owner[b])
    && (forall b | b in owner' && b !in owner :: owner'[b].0 == i && owner'[b].1 in ks)
  }

  /** The same, and no data block was written. */
  ghost predicate Grows(g: Geometry, disk: Disk, inodes: map<nat, Inode>, owner: map<nat, (nat, nat)>,
                        disk': Disk, inodes': map<nat, Inode>, owner': map<nat, (nat, nat)>, i: nat, ks: set<nat>)
  {
    && GrowsRefs(g, disk, inodes, owner, disk', inodes', owner', i, ks)
    && (forall b | b in owner && owner[b].1 != g.ndirect :: b in disk && b in disk' && disk'[b] == disk[b])
  }

  /** The disk after balloc has chosen b. */
  function Allocated(g: Geometry, disk: Disk, b: nat): Disk
    requires 0 < g.nindirect && BitBlock(g, b) in disk && |disk[BitBlock(g, b)]| == g.Bsize()
  {
    Mark(g, disk, b, true)[b := ZeroBlock(g.Bsize())]
  }

  /** balloc touches a bitmap block and a block nobody owns. */
  lemma AllocatedFacts(g: Geometry, disk: Disk, inodes: map<nat, Inode>, owner: map<nat, (nat, nat)>, b: nat)
    requires GeometryOk(g) && Shape(g, disk, inodes) && Own(g, disk, inodes, owner, {}) && b < g.size
             && !BitOf(g, disk, b)
    ensures var disk' := Allocated(g, disk, b);
            && b !in owner && g.nmeta <= b && DiskOk(g, disk') && disk'[b] == ZeroBlock(g.Bsize())
            && (forall c | 0 <= c < g.size :: BitOf(g, disk', c) <==> c == b || BitOf(g, disk, c))
            && (forall c | c in owner :: c in disk && c in disk' && disk'[c] == disk[c])
            && (forall i: nat, k: nat | IsSlot(g, inodes, i, k) ::
                Ref(g, disk', inodes[i], k) == Ref(g, disk, inodes[i], k))
  {
    hide Ref, BitOf, Bit, SetBit, ClearBit, BitIndex;
    var d1 := Mark(g, disk, b, true);
    MarkBits(g, disk, b, true);
    DataKeepsBits(g, d1, b, ZeroBlock(g.Bsize()));
    OwnNotIndirect(g, disk, inodes, owner, BitBlock(g, b));
    RefsKept(g, disk, inodes, BitBlock(g, b), d1[BitBlock(g, b)]);
    OwnNotIndirect(g, disk, inodes, owner, b);
    RefsKept(g, d1, inodes, b, ZeroBlock(g.Bsize()));
  }

  function WithAddr(ino: Inode, k: nat, b: nat): Inode
    requires k < |ino.addrs|
  {
    ino.(addrs := ino.addrs[k := b])
  }

  /** A fresh block stored in an empty slot of addrs, which may be the one of the indirect block. */
  lemma DirectAdded(g: Geometry, disk: Disk, inodes: map<nat, Inode>, owner: map<nat, (nat, nat)>, i: nat, k: nat,
                    b: nat)
    requires GeometryOk(g) && Shape(g, disk, inodes) && Own(g, disk, inodes, owner, {}) && b < g.size
             && !BitOf(g, disk, b)
    requires i in inodes && k <= g.ndirect && inodes[i].addrs[k] == 0
    ensures var disk', inodes', owner' := Allocated(g, disk, b), inodes[i := WithAddr(inodes[i], k, b)],
            owner[b := (i, k)];
            && b !in owner && g.nmeta <= b && Shape(g, disk', inodes') && Own(g, disk', inodes', owner', {})
            && Grows(g, disk, inodes, owner, disk', inodes', owner', i, {k}) && disk'[b] == ZeroBlock(g.Bsize())
  {
    hide BitOf, Bit, Own, Word, Allocated;
    AllocatedFacts(g, disk, inodes, owner, b);
    var disk', inodes', owner' := Allocated(g, disk, b), inodes[i := WithAddr(inodes[i], k, b)], owner[b := (i, k)];
    forall j: nat, l: nat | IsSlot(g, inodes, j, l)
      ensures Ref(g, disk', inodes'[j], l) == if j == i && l == k then b else Ref(g, disk, inodes[j], l)
    {
      assert Ref(g, disk', inodes[j], l) == Ref(g, disk, inodes[j], l);
      if j == i && k == g.ndirect && g.ndirect < l {
        WordOfZero(g.Bsize(), l - g.ndirect - 1);
      }
    }
    assert IsSlot(g, inodes, i, k);
    OwnAdd(g, disk, inodes, owner, disk', inodes', i, k, b);
  }

  /** A fresh block stored in an empty word of the indirect block. */
  lemma IndirectAdded(g: Geometry, disk: Disk, inodes: map<nat, Inode>, owner: map<nat, (nat, nat)>, i: nat, n: nat,
                      b: nat)
    requires GeometryOk(g) && Shape(g, disk, inodes) && Own(g, disk, inodes, owner, {}) && b < g.size
             && !BitOf(g, disk, b)
    requires i in inodes && n < g.nindirect && inodes[i].addrs[g.ndirect] != 0
             && Ref(g, disk, inodes[i], g.ndirect + 1 + n) == 0
    ensures var ind, d1 := inodes[i].addrs[g.ndirect], Allocated(g, disk, b);
            && ind in owner && owner[ind] == (i, g.ndirect) && ind in d1 && |d1[ind]| == g.Bsize()
                && d1[ind] == disk[ind]
            && b !in owner && g.nmeta <= b && d1[b] == ZeroBlock(g.Bsize())
            && var disk', owner' := d1[ind := PutWord(d1[ind], n, b)], owner[b := (i, g.ndirect + 1 + n)];
            && Shape(g, disk', inodes) && Own(g, disk', inodes, owner', {})
            && Grows(g, disk, inodes, owner, disk', inodes, owner', i, {g.ndirect + 1 + n})
  {
    hide BitOf, Bit, Word, Allocated, PutWord;
    AllocatedFacts(g, disk, inodes, owner, b);
    var ind, d1 := inodes[i].addrs[g.ndirect], Allocated(g, disk, b);
    assert IsSlot(g, inodes, i, g.ndirect) && Owns(owner, Ref(g, disk, inodes[i], g.ndirect), i, g.ndirect);
    var disk', owner' := d1[ind := PutWord(d1[ind], n, b)], owner[b := (i, g.ndirect + 1 + n)];
    DataKeepsBits(g, d1, ind, PutWord(d1[ind], n, b));
    forall j: nat, l: nat | IsSlot(g, inodes, j, l)
      ensures Ref(g, disk', inodes[j], l) == if j == i && l == g.ndirect + 1 + n then b else Ref(g, disk, inodes[j], l)
    {
      IndirectRef(g, disk, inodes, owner, d1, i, n, b, j, l);
    }
    assert IsSlot(g, inodes, i, g.ndirect + 1 + n);
    OwnAdd(g, disk, inodes, owner, disk', inodes, i, g.ndirect + 1 + n, b);
  }

  lemma IndirectRef(g: Geometry, disk: Disk, inodes: map<nat, Inode>, owner: map<nat, (nat, nat)>, d1: Disk, i: nat,
                    n: nat, b: nat, j: nat, l: nat)
    requires GeometryOk(g) && Shape(g, disk, inodes) && Own(g, disk, inodes, owner, {}) && b < g.size && DiskOk(g, d1)
    requires i in inodes && n < g.nindirect && inodes[i].addrs[g.ndirect] != 0 && IsSlot(g, inodes, j, l)
    requires inodes[i].addrs[g.ndirect] in d1 && |d1[inodes[i].addrs[g.ndirect]]| == g.Bsize()
    requires Ref(g, d1, inodes[j], l) == Ref(g, disk, inodes[j], l)
    ensures var ind := inodes[i].addrs[g.ndirect];
            Ref(g, d1[ind := PutWord(d1[ind], n, b)], inodes[j], l) ==
                if j == i && l == g.ndirect + 1 + n then b else Ref(g, disk, inodes[j], l)
  {
    hide BitOf, Bit, Word, PutWord;
    var ind := inodes[i].addrs[g.ndirect];
    assert IsSlot(g, inodes, i, g.ndirect) && Owns(owner, Ref(g, disk, inodes[i], g.ndirect), i, g.ndirect);
    assert IsSlot(g, inodes, j, g.ndirect)
        && (inodes[j].addrs[g.ndirect] != 0 ==> Owns(owner, Ref(g, disk, inodes[j], g.ndirect), j, g.ndirect));
    if j == i && g.ndirect < l {
      WordPut(d1[ind], n, b, l - g.ndirect - 1);
    }
  }

  lemma GrowsReflexive(g: Geometry, disk: Disk, inodes: map<nat, Inode>, owner: map<nat, (nat, nat)>, i: nat,
                       ks: set<nat>)
    requires GeometryOk(g) && Shape(g, disk, inodes) && Own(g, disk, inodes, owner, {}) && i in inodes
    ensures Grows(g, disk, inodes, owner, disk, inodes, owner, i, ks)
  {
    hide Ref, BitOf;
  }

  lemma GrowsTransitive(g: Geometry, d0: Disk, n0: map<nat, Inode>, o0: map<nat, (nat, nat)>, d1: Disk,
                        n1: map<nat, Inode>, o1: map<nat, (nat, nat)>,
                        d2: Disk, n2: map<nat, Inode>, o2: map<nat, (nat, nat)>, i: nat, ks: set<nat>, ls: set<nat>,
                            ms: set<nat>)
    requires Grows(g, d0, n0, o0, d1, n1, o1, i, ks) && Grows(g, d1, n1, o1, d2, n2, o2, i, ls) && ks <= ms && ls <= ms
    ensures Grows(g, d0, n0, o0, d2, n2, o2, i, ms)
  {
    hide Ref;
    forall j: nat, k: nat | IsSlot(g, n0, j, k) && (Ref(g, d0, n0[j], k) != 0 || j != i || k !in ms)
      ensures Ref(g, d2, n2[j], k) == Ref(g, d0, n0[j], k)
    {
      assert k in ks || k in ls ==> k in ms;
      assert Ref(g, d1, n1[j], k) == Ref(g, d0, n0[j], k);
      assert IsSlot(g, n1, j, k);
    }
    forall b | b in o2 && b !in o0 ensures o2[b].0 == i && o2[b].1 in ms {
      assert b in o1 ==> o2[b] == o1[b];
    }
  }

  lemma GrowsRefsTransitive(g: Geometry, d0: Disk, n0: map<nat, Inode>, o0: map<nat, (nat, nat)>, d1: Disk,
                            n1: map<nat, Inode>, o1: map<nat, (nat, nat)>,
                            d2: Disk, n2: map<nat, Inode>, o2: map<nat, (nat, nat)>, i: nat, ks: set<nat>, ls: set<nat>)
    requires GrowsRefs(g, d0, n0, o0, d1, n1, o1, i, ks) && GrowsRefs(g, d1, n1, o1, d2, n2, o2, i, ls) && ls <= ks
    ensures GrowsRefs(g, d0, n0, o0, d2, n2, o2, i, ks)
  {
    hide Ref;
    forall j: nat, k: nat | IsSlot(g, n0, j, k) && (Ref(g, d0, n0[j], k) != 0 || j != i || k !in ks)
      ensures Ref(g, d2, n2[j], k) == Ref(g, d0, n0[j], k)
    {
      assert k in ls ==> k in ks;
      assert Ref(g, d1, n1[j], k) == Ref(g, d0, n0[j], k);
      assert IsSlot(g, n1, j, k);
    }
    forall b | b in o2 && b !in o0 ensures o2[b].0 == i && o2[b].1 in ks {
      assert b in o1 ==> o2[b] == o1[b];
    }
  }

  lemma GrowsAt(g: Geometry, d0: Disk, n0: map<nat, Inode>, o0: map<nat, (nat, nat)>, d1: Disk, n1: map<nat, Inode>,
                o1: map<nat, (nat, nat)>,
                i: nat, ks: set<nat>, j: nat, k: nat)
    requires Grows(g, d0, n0, o0, d1, n1, o1, i, ks) && IsSlot(g, n0, j, k)
             && (Ref(g, d0, n0[j], k) != 0 || j != i || k !in ks)
    ensures IsSlot(g, n1, j, k) && Ref(g, d1, n1[j], k) == Ref(g, d0, n0[j], k)
  {
    hide Ref;
  }

  /** The slots bmap may fill for block bn of a file. */
  function SlotsFor(g: Geometry, bn: nat): set<nat> {
    {g.Slot(bn)} + if bn < g.ndirect then {} else {g.ndirect}
  }

  /** The log_write calls of an operation: every new block, its bitmap block, and the blocks in `extra`. */
  ghost predicate Logs(g: Geometry, logged: set<nat>, owner: map<nat, (nat, nat)>, logged': set<nat>,
                       owner': map<nat, (nat, nat)>, extra: set<nat>)
    requires 0 < g.nindirect
  {
    logged' == logged + (owner'.Keys - owner.Keys) + BitBlocks(g, owner'.Keys - owner.Keys) + extra
  }

  lemma LogsNone(g: Geometry, logged: set<nat>, owner: map<nat, (nat, nat)>)
    requires 0 < g.nindirect
    ensures Logs(g, logged, owner, logged, owner, {})
  {
  }

  lemma LogsOne(g: Geometry, logged: set<nat>, owner: map<nat, (nat, nat)>, b: nat, slot: (nat, nat))
    requires 0 < g.nindirect && b !in owner
    ensures Logs(g, logged, owner, logged + {BitBlock(g, b), b}, owner[b := slot], {})
  {
    assert owner[b := slot].Keys - owner.Keys == {b};
    assert BitBlocks(g, {b}) == {BitBlock(g, b)};
  }

  lemma LogsExtra(g: Geometry, logged: set<nat>, owner: map<nat, (nat, nat)>, b: nat, slot: (nat, nat), x: nat)
    requires 0 < g.nindirect && b !in owner
    ensures Logs(g, logged, owner, logged + {BitBlock(g, b), b} + {x}, owner[b := slot], {x})
  {
    assert owner[b := slot].Keys - owner.Keys == {b};
    assert BitBlocks(g, {b}) == {BitBlock(g, b)};
  }

  lemma LogsTransitive(g: Geometry, l0: set<nat>, o0: map<nat, (nat, nat)>, l1: set<nat>, o1: map<nat, (nat, nat)>,
                       x1: set<nat>,
                       l2: set<nat>, o2: map<nat, (nat, nat)>, x2: set<nat>, x: set<nat>)
    requires 0 < g.nindirect && Logs(g, l0, o0, l1, o1, x1) && Logs(g, l1, o1, l2, o2, x2)
    requires o0.Keys <= o1.Keys <= o2.Keys && x == x1 + x2
    ensures Logs(g, l0, o0, l2, o2, x)
  {
    assert o2.Keys - o0.Keys == (o1.Keys - o0.Keys) + (o2.Keys - o1.Keys);
    BitBlocksUnion(g, o1.Keys - o0.Keys, o2.Keys - o1.Keys);
  }

  lemma BitBlocksUnion(g: Geometry, s: set<nat>, t: set<nat>)
    requires 0 < g.nindirect
    ensures BitBlocks(g, s + t) == BitBlocks(g, s) + BitBlocks(g, t)
  {
    hide BitBlock;
  }

  lemma ZeroBitSet(g: Geometry, disk: Disk, inodes: map<nat, Inode>, owner: map<nat, (nat, nat)>)
    requires GeometryOk(g) && Shape(g, disk, inodes) && Own(g, disk, inodes, owner, {})
    ensures BitOf(g, disk, 0)
  {
  }

  lemma OwnedRef(g: Geometry, disk: Disk, inodes: map<nat, Inode>, owner: map<nat, (nat, nat)>, b: nat)
    requires GeometryOk(g) && Shape(g, disk, inodes) && Own(g, disk, inodes, owner, {}) && b in owner
    ensures b in disk && owner[b].0 in inodes && Ref(g, disk, inodes[owner[b].0], owner[b].1) == b
  {
  }

  /** Word n of an inode's indirect block is its slot ndirect + 1 + n. */
  lemma IndirectWord(g: Geometry, disk: Disk, inodes: map<nat, Inode>, owner: map<nat, (nat, nat)>, i: nat, n: nat)
    requires GeometryOk(g) && Shape(g, disk, inodes) && Own(g, disk, inodes, owner, {}) && i in inodes
             && n < g.nindirect
    requires inodes[i].addrs[g.ndirect] != 0
    ensures var ind := inodes[i].addrs[g.ndirect];
            ind in disk && |disk[ind]| == g.Bsize()
                && 0 <= Word(disk[ind], n) == Ref(g, disk, inodes[i], g.ndirect + 1 + n)
  {
    assert IsSlot(g, inodes, i, g.ndirect) && IsSlot(g, inodes, i, g.ndirect + 1 + n);
    var x := Ref(g, disk, inodes[i], g.ndirect);
    assert Owns(owner, x, i, g.ndirect);
    var y := Ref(g, disk, inodes[i], g.ndirect + 1 + n);
    assert y != 0 ==> Owns(owner, y, i, g.ndirect + 1 + n);
  }

  // ---------- Truncation ----------

  /** The owners that remain when slots lo .. hi-1 of inode i are given up. */
  ghost function Kept(owner: map<nat, (nat, nat)>, i: nat, lo: nat, hi: nat): map<nat, (nat, nat)> {
    map b | b in owner && !(owner[b].0 == i && lo <= owner[b].1 < hi) :: owner[b]
  }

  /** Blocks that are not metadata keep their contents. */
  ghost predicate SameData(g: Geometry, disk: Disk, disk': Disk) {
    forall b | g.nmeta <= b < g.size :: b in disk && b in disk' && disk'[b] == disk[b]
  }

  ghost predicate NoIndirectIn(g: Geometry, inodes: map<nat, Inode>, cut: set<(nat, nat)>) {
    forall i | i in inodes :: (i, g.ndirect) !in cut
  }

  /** Freeing the block of a live slot: the block is in use, and every other reference and bit is kept. */
  lemma FreeSlot(g: Geometry, disk: Disk, inodes: map<nat, Inode>, owner: map<nat, (nat, nat)>, cut: set<(nat, nat)>,
                 i: nat, k: nat)
    requires GeometryOk(g) && Shape(g, disk, inodes) && Own(g, disk, inodes, owner, cut) && NoIndirectIn(g, inodes, cut)
    requires IsSlot(g, inodes, i, k) && (i, k) !in cut && Ref(g, disk, inodes[i], k) != 0
    ensures var b := Ref(g, disk, inodes[i], k);
            && g.nmeta <= b < g.size && b in owner && owner[b] == (i, k) && BitOf(g, disk, b)
            && var disk' := Mark(g, disk, b, false);
            && Shape(g, disk', inodes) && Own(g, disk', inodes, owner - {b}, cut + {(i, k)}) && SameData(g, disk, disk')
  {
    hide BitOf, Bit, SetBit, ClearBit, BitIndex;
    var b := Ref(g, disk, inodes[i], k);
    assert Owns(owner, b, i, k);
    MarkBits(g, disk, b, false);
    var disk' := Mark(g, disk, b, false);
    MetaNotIndirect(g, disk, inodes, owner, cut, BitBlock(g, b));
    RefsKept(g, disk, inodes, BitBlock(g, b), disk'[BitBlock(g, b)]);
    OwnCut(g, disk, inodes, owner, cut, disk', i, k, b);
  }

  lemma MetaNotIndirect(g: Geometry, disk: Disk, inodes: map<nat, Inode>, owner: map<nat, (nat, nat)>,
                        cut: set<(nat, nat)>, b: nat)
    requires GeometryOk(g) && Shape(g, disk, inodes) && Own(g, disk, inodes, owner, cut) && NoIndirectIn(g, inodes, cut)
             && b < g.nmeta
    ensures NotIndirect(g, inodes, b)
  {
    hide BitOf;
    forall i | i in inodes ensures inodes[i].addrs[g.ndirect] != b || b == 0 {
      assert IsSlot(g, inodes, i, g.ndirect);
      var x := Ref(g, disk, inodes[i], g.ndirect);
      assert x != 0 ==> Owns(owner, x, i, g.ndirect);
    }
  }

  /** Giving up one more slot of the range. */
  lemma KeptStep(g: Geometry, disk: Disk, inodes: map<nat, Inode>, o0: map<nat, (nat, nat)>,
                 owner: map<nat, (nat, nat)>, cut: set<(nat, nat)>,
                 i: nat, lo: nat, hi: nat)
    requires GeometryOk(g) && Shape(g, disk, inodes) && Own(g, disk, inodes, owner, cut) && owner == Kept(o0, i, lo, hi)
             && lo <= hi
    requires IsSlot(g, inodes, i, hi) && (i, hi) !in cut
    ensures Kept(o0, i, lo, hi + 1) == owner - {Ref(g, disk, inodes[i], hi)}
  {
    hide Ref, BitOf;
    forall b | b in o0 && o0[b] == (i, hi) ensures b == Ref(g, disk, inodes[i], hi) {
      assert b in owner && owner[b] == (i, hi);
    }
    var x := Ref(g, disk, inodes[i], hi);
    assert x != 0 ==> Owns(owner, x, i, hi);
  }

  /** The slots whose blocks itrunc has freed through the indirect block, which still holds their numbers. */
  ghost function Stale(g: Geometry, i: nat, j: nat): set<(nat, nat)> {
    set k: nat | g.ndirect < k <= g.ndirect + j :: (i, k)
  }

  /** One round of the loop over the direct slots. */
  lemma TruncDirect(g: Geometry, disk: Disk, inodes: map<nat, Inode>, o0: map<nat, (nat, nat)>,
                    owner: map<nat, (nat, nat)>, i: nat, k: nat)
    requires GeometryOk(g) && Shape(g, disk, inodes) && Own(g, disk, inodes, owner, {}) && owner == Kept(o0, i, 0, k)
    requires i in inodes && k < g.ndirect && inodes[i].addrs[k] != 0
    ensures var b := inodes[i].addrs[k];
            && b < g.size && b in owner && BitOf(g, disk, b) && owner - {b} == Kept(o0, i, 0, k + 1)
            && var disk', inodes' := Mark(g, disk, b, false), inodes[i := WithAddr(inodes[i], k, 0)];
            && Shape(g, disk', inodes') && Own(g, disk', inodes', owner - {b}, {}) && SameData(g, disk, disk')
  {
    hide BitOf, Own, Mark, SameData, Kept;
    assert IsSlot(g, inodes, i, k);
    FreeSlot(g, disk, inodes, owner, {}, i, k);
    KeptStep(g, disk, inodes, o0, owner, {}, i, 0, k);
    var b := inodes[i].addrs[k];
    OwnUncut(g, Mark(g, disk, b, false), inodes, owner - {b}, {} + {(i, k)}, inodes[i := WithAddr(inodes[i], k, 0)]);
  }

  /** One round of the loop over the words of the indirect block. */
  lemma TruncWord(g: Geometry, disk: Disk, inodes: map<nat, Inode>, o0: map<nat, (nat, nat)>,
                  owner: map<nat, (nat, nat)>, i: nat, j: nat)
    requires GeometryOk(g) && Shape(g, disk, inodes) && Own(g, disk, inodes, owner, Stale(g, i, j))
             && owner == Kept(o0, i, g.ndirect + 1, g.ndirect + 1 + j)
    requires i in inodes && j < g.nindirect && inodes[i].addrs[g.ndirect] != 0
    ensures var ind := inodes[i].addrs[g.ndirect];
            ind in disk && |disk[ind]| == g.Bsize() && g.nmeta <= ind < g.size
            && var b := Word(disk[ind], j);
            && (b == 0 ==>
                Own(g, disk, inodes, owner, Stale(g, i, j + 1))
                && owner == Kept(o0, i, g.ndirect + 1, g.ndirect + 1 + j + 1))
            && (b != 0 ==>
                  && 0 <= b < g.size && b in owner && BitOf(g, disk, b)
                      && owner - {b} == Kept(o0, i, g.ndirect + 1, g.ndirect + 1 + j + 1)
                  && var disk' := Mark(g, disk, b, false);
                  && Shape(g, disk', inodes) && Own(g, disk', inodes, owner - {b}, Stale(g, i, j + 1))
                      && SameData(g, disk, disk'))
  {
    hide BitOf, Mark, SameData, Kept, Word;
    var k := g.ndirect + 1 + j;
    assert IsSlot(g, inodes, i, k) && IsSlot(g, inodes, i, g.ndirect);
    var x := Ref(g, disk, inodes[i], g.ndirect);
    assert Owns(owner, x, i, g.ndirect);
    assert Stale(g, i, j + 1) == Stale(g, i, j) + {(i, k)};
    var b := Ref(g, disk, inodes[i], k);
    KeptStep(g, disk, inodes, o0, owner, Stale(g, i, j), i, g.ndirect + 1, k);
    if b == 0 {
      assert owner - {b} == owner;
    } else {
      FreeSlot(g, disk, inodes, owner, Stale(g, i, j), i, k);
    }
  }

  /** Freeing the indirect block itself ends the truncation. */
  lemma TruncIndirect(g: Geometry, disk: Disk, inodes: map<nat, Inode>, o0: map<nat, (nat, nat)>,
                      owner: map<nat, (nat, nat)>, i: nat)
    requires GeometryOk(g) && Shape(g, disk, inodes) && Own(g, disk, inodes, owner, Stale(g, i, g.nindirect))
    requires i in inodes && inodes[i].addrs[g.ndirect] != 0
    ensures var b := inodes[i].addrs[g.ndirect];
            && b < g.size && b in owner && owner[b] == (i, g.ndirect) && BitOf(g, disk, b)
            && var disk', inodes' := Mark(g, disk, b, false), inodes[i := WithAddr(inodes[i], g.ndirect, 0)];
            && Shape(g, disk', inodes') && Own(g, disk', inodes', owner - {b}, {}) && SameData(g, disk, disk')
  {
    hide BitOf, Own, Mark, SameData, Word;
    assert IsSlot(g, inodes, i, g.ndirect);
    FreeSlot(g, disk, inodes, owner, Stale(g, i, g.nindirect), i, g.ndirect);
    var b := inodes[i].addrs[g.ndirect];
    OwnUncut(g, Mark(g, disk, b, false), inodes, owner - {b}, Stale(g, i, g.nindirect) + {(i, g.ndirect)},
             inodes[i := WithAddr(inodes[i], g.ndirect, 0)]);
  }

  /** Truncation leaves i with no blocks. */
  lemma KeptAll(g: Geometry, disk: Disk, inodes: map<nat, Inode>, o0: map<nat, (nat, nat)>, owner: map<nat, (nat, nat)>,
                i: nat)
    requires GeometryOk(g) && Shape(g, disk, inodes) && Own(g, disk, inodes, owner, {}) && i in inodes
    requires forall k | 0 <= k <= g.ndirect :: inodes[i].addrs[k] == 0
    requires forall b | b in owner :: b in o0 && o0[b] == owner[b]
    requires forall b | b in o0 && b !in owner :: o0[b].0 == i
    ensures owner == map b | b in o0 && o0[b].0 != i :: o0[b]
  {
    hide BitOf, Word;
    forall b | b in owner ensures owner[b].0 != i {
      assert Ref(g, disk, inodes[owner[b].0], owner[b].1) == b;
    }
  }

  class Filesystem {
    const g: Geometry
    var disk: Disk
    var inodes: map<nat, Inode>
    ghost var owner: map<nat, (nat, nat)>
    ghost var logged: set<nat>

    ghost predicate Valid()
      reads this
    {
      GeometryOk(g) && Shape(g, disk, inodes) && Own(g, disk, inodes, owner, {})
    }

    /** A mounted file system. */
    constructor (g: Geometry, disk: Disk, inodes: map<nat, Inode>, ghost owner: map<nat, (nat, nat)>)
      requires GeometryOk(g) && Shape(g, disk, inodes) && Own(g, disk, inodes, owner, {})
      ensures Valid() && this.g == g && this.disk == disk && this.inodes == inodes && this.owner == owner
              && this.logged == {}
    {
      this.g, this.disk, this.inodes, this.owner, this.logged := g, disk, inodes, owner, {};
    }

    /** balloc: mark the first free block used and zero it; 0 when there is none. */
    method Balloc() returns (b: nat)
      requires GeometryOk(g) && DiskOk(g, disk) && BitOf(g, disk, 0)
      modifies this`disk, this`logged
      ensures b == 0 ==> disk == old(disk) && logged == old(logged) && Full(g, disk)
      ensures b != 0 ==> b < g.size && !BitOf(g, old(disk), b) && forall c | 0 <= c < b :: BitOf(g, old(disk), c)
      ensures b != 0 ==> disk == Allocated(g, old(disk), b)
      ensures b != 0 ==> logged == old(logged) + {BitBlock(g, b), b}
    {
      hide BitOf, Bit, SetBit, ClearBit, BitBlock, BitIndex;
      var base := 0;
      ghost var j := 0;
      while base < g.size
        invariant base == j * g.Bpb()
        invariant disk == old(disk) && logged == old(logged)
        invariant forall c | 0 <= c < base && c < g.size :: BitOf(g, disk, c)
      {
        var bi := 0;
        var bp := BitBlock(g, base);
        while bi < g.Bpb() && base + bi < g.size
          invariant 0 <= bi <= g.Bpb()
          invariant disk == old(disk) && logged == old(logged)
          invariant forall c | 0 <= c < base + bi && c < g.size :: BitOf(g, disk, c)
        {
          BitAt(g, disk, j, bi);
          if !Bit(disk[bp], bi) {
            MarkAt(g, disk, j, bi);
            disk := disk[bp := SetBit(disk[bp], bi)];
            logged := logged + {bp};
            disk := disk[base + bi := ZeroBlock(g.Bsize())];
            logged := logged + {base + bi};
            return base + bi;
          }
          bi := bi + 1;
        }
        base := base + g.Bpb();
        j := j + 1;
      }
      return 0;
    }

    /** bfree: the block must be in use. */
    method Bfree(b: nat) returns (panic: bool)
      requires GeometryOk(g) && DiskOk(g, disk) && b < g.size
      modifies this`disk, this`logged
      ensures panic == !BitOf(g, old(disk), b)
      ensures panic ==> disk == old(disk) && logged == old(logged)
      ensures !panic ==> disk == Mark(g, old(disk), b, false) && logged == old(logged) + {BitBlock(g, b)}
    {
      BitIndexFits(g, b);
      var bp, bi := BitBlock(g, b), BitIndex(g, b);
      if !Bit(disk[bp], bi) {
        return true;
      }
      disk := disk[bp := ClearBit(disk[bp], bi)];
      logged := logged + {bp};
      return false;
    }

    /** bmap's allocation of a block for an empty element of addrs. */
    method FillAddr(i: nat, k: nat) returns (b: nat)
      requires Valid() && i in inodes && k <= g.ndirect && inodes[i].addrs[k] == 0
      modifies this
      ensures Valid()
      ensures b == 0 ==>
              disk == old(disk) && inodes == old(inodes) && owner == old(owner) && logged == old(logged)
              && Full(g, disk)
      ensures b != 0 ==>
              b !in old(owner) && owner == old(owner)[b := (i, k)]
              && inodes == old(inodes)[i := WithAddr(old(inodes)[i], k, b)]
      ensures b != 0 ==> b in disk && disk[b] == ZeroBlock(g.Bsize()) && logged == old(logged) + {BitBlock(g, b), b}
      ensures b != 0 ==> Grows(g, old(disk), old(inodes), old(owner), disk, inodes, owner, i, {k})
    {
      hide Own, BitOf, Grows, Ref, Allocated, BitBlock;
      ZeroBitSet(g, disk, inodes, owner);
      b := Balloc();
      if b != 0 {
        DirectAdded(g, old(disk), old(inodes), old(owner), i, k, b);
        inodes := inodes[i := WithAddr(inodes[i], k, b)];
        owner := owner[b := (i, k)];
      }
    }

    /** bmap's allocation of a block for an empty word of the indirect block. */
    method FillWord(i: nat, n: nat) returns (b: nat)
      requires Valid() && i in inodes && n < g.nindirect && inodes[i].addrs[g.ndirect] != 0
               && Ref(g, disk, inodes[i], g.ndirect + 1 + n) == 0
      modifies this
      ensures Valid() && inodes == old(inodes)
      ensures b == 0 ==> disk == old(disk) && owner == old(owner) && logged == old(logged) && Full(g, disk)
      ensures b != 0 ==>
              b !in old(owner) && owner == old(owner)[b := (i, g.ndirect + 1 + n)]
              && Ref(g, disk, inodes[i], g.ndirect + 1 + n) == b
      ensures b != 0 ==>
              b in disk && disk[b] == ZeroBlock(g.Bsize())
              && logged == old(logged) + {BitBlock(g, b), b} + {inodes[i].addrs[g.ndirect]}
      ensures b != 0 ==> Grows(g, old(disk), inodes, old(owner), disk, inodes, owner, i, {g.ndirect + 1 + n})
    {
      hide Own, BitOf, Grows, Ref, Allocated, BitBlock, PutWord;
      ZeroBitSet(g, disk, inodes, owner);
      var ind := inodes[i].addrs[g.ndirect];
      b := Balloc();
      if b != 0 {
        IndirectAdded(g, old(disk), inodes, old(owner), i, n, b);
        disk := disk[ind := PutWord(disk[ind], n, b)];
        logged := logged + {ind};
        owner := owner[b := (i, g.ndirect + 1 + n)];
        OwnedRef(g, disk, inodes, owner, b);
      }
    }

    /** bmap: the block number of block bn of the file, allocated if need be; 0 when the disk is full. */
    method Bmap(i: nat, bn: nat) returns (addr: nat)
      requires Valid() && i in inodes && bn < g.Maxfile()
      modifies this
      ensures Valid() && i in inodes && addr == Ref(g, disk, inodes[i], g.Slot(bn))
      ensures Grows(g, old(disk), old(inodes), old(owner), disk, inodes, owner, i, SlotsFor(g, bn))
      ensures Ref(g, old(disk), old(inodes)[i], g.Slot(bn)) != 0 ==>
                disk == old(disk) && inodes == old(inodes) && owner == old(owner) && logged == old(logged)
      ensures Ref(g, old(disk), old(inodes)[i], g.Slot(bn)) == 0 && addr != 0
              ==> addr in disk && disk[addr] == ZeroBlock(g.Bsize())
      ensures addr == 0 ==> Full(g, disk)
      ensures g.ndirect < |inodes[i].addrs|
      ensures Logs(g, old(logged), old(owner), logged, owner,
                   if g.ndirect <= bn && Ref(g, old(disk), old(inodes)[i], g.Slot(bn)) == 0
                       && addr != 0 then {inodes[i].addrs[g.ndirect]} else {})
    {
      hide Own, BitOf, Grows, Allocated, BitBlock, Word, Logs, Full;
      GrowsReflexive(g, disk, inodes, owner, i, SlotsFor(g, bn));
      LogsNone(g, logged, owner);
      if bn < g.ndirect {
        addr := inodes[i].addrs[bn];
        if addr == 0 {
          addr := FillAddr(i, bn);
          if addr == 0 {
            return 0;
          }
          LogsOne(g, old(logged), old(owner), addr, (i, bn));
          assert SlotsFor(g, bn) == {bn};
        }
        return addr;
      }
      assert SlotsFor(g, bn) == {g.ndirect, g.ndirect + 1 + (bn - g.ndirect)};
      addr := BmapIndirect(i, bn - g.ndirect);
    }

    /** The part of bmap for blocks reached through the indirect block. */
    method BmapIndirect(i: nat, n: nat) returns (addr: nat)
      requires Valid() && i in inodes && n < g.nindirect
      modifies this
      ensures Valid() && i in inodes && addr == Ref(g, disk, inodes[i], g.ndirect + 1 + n)
      ensures Grows(g, old(disk), old(inodes), old(owner), disk, inodes, owner, i, {g.ndirect, g.ndirect + 1 + n})
      ensures Ref(g, old(disk), old(inodes)[i], g.ndirect + 1 + n) != 0 ==>
                disk == old(disk) && inodes == old(inodes) && owner == old(owner) && logged == old(logged)
      ensures Ref(g, old(disk), old(inodes)[i], g.ndirect + 1 + n) == 0 && addr != 0
              ==> addr in disk && disk[addr] == ZeroBlock(g.Bsize())
      ensures addr == 0 ==> Full(g, disk)
      ensures Logs(g, old(logged), old(owner), logged, owner,
                   if Ref(g, old(disk), old(inodes)[i], g.ndirect + 1 + n) == 0
                       && addr != 0 then {inodes[i].addrs[g.ndirect]} else {})
    {
      hide Own, BitOf, Grows, Allocated, BitBlock, Word, Logs, Full, Indirect;
      GrowsReflexive(g, disk, inodes, owner, i, {g.ndirect, g.ndirect + 1 + n});
      LogsNone(g, logged, owner);
      var ind := inodes[i].addrs[g.ndirect];
      if ind == 0 {
        ind := FillAddr(i, g.ndirect);
        if ind == 0 {
          return 0;
        }
        LogsOne(g, old(logged), old(owner), ind, (i, g.ndirect));
        GrowsAt(g, old(disk), old(inodes), old(owner), disk, inodes, owner, i, {g.ndirect}, i, g.ndirect + 1 + n);
        GrowsTransitive(g, old(disk), old(inodes), old(owner), old(disk), old(inodes), old(owner), disk, inodes, owner,
            i,
                        {g.ndirect, g.ndirect + 1 + n}, {g.ndirect}, {g.ndirect, g.ndirect + 1 + n});
      }
      ghost var d1, n1, o1, l1 := disk, inodes, owner, logged;
      IndirectWord(g, disk, inodes, owner, i, n);
      addr := Word(disk[ind], n);
      if addr == 0 {
        addr := FillWord(i, n);
        if addr != 0 {
          LogsExtra(g, l1, o1, addr, (i, g.ndirect + 1 + n), ind);
          LogsTransitive(g, old(logged), old(owner), l1, o1, {}, logged, owner, {ind}, {ind});
          GrowsTransitive(g, old(disk), old(inodes), old(owner), d1, n1, o1, disk, inodes, owner, i,
                          {g.ndirect, g.ndirect + 1 + n}, {g.ndirect + 1 + n}, {g.ndirect, g.ndirect + 1 + n});
        }
      }
    }

    /** itrunc: free every block of the inode and make it empty. */
    method Itrunc(i: nat)
      requires Valid() && i in inodes
      modifies this
      ensures Valid()
      ensures inodes.Keys == old(inodes).Keys && forall j | j in inodes && j != i :: inodes[j] == old(inodes)[j]
      ensures inodes[i].size == 0 && forall k | 0 <= k < |inodes[i].addrs| :: inodes[i].addrs[k] == 0
      ensures owner == map b | b in old(owner) && old(owner)[b].0 != i :: old(owner)[b]
      ensures SameData(g, old(disk), disk)
      ensures logged == old(logged) + BitBlocks(g, old(owner).Keys - owner.Keys) + {InodeBlock(g, i)}
    {
      hide BitOf, Own, Mark, Kept, Stale, Word, BitBlock, SameData, BitBlocks, Ref, InodeBlock;
      TruncDirectSlots(i);
      ghost var o, d := owner, disk;
      if inodes[i].addrs[g.ndirect] != 0 {
        TruncThroughIndirect(i);
        SameDataChain(g, old(disk), d, disk);
      }
      KeptAll(g, disk, inodes, old(owner), owner, i);
      BitBlocksSplit(g, old(owner).Keys, o.Keys, owner.Keys);
      SizeKeepsOwn(g, disk, inodes, owner, i, 0);
      inodes := inodes[i := inodes[i].(size := 0)];
      logged := logged + {InodeBlock(g, i)};
    }

    /** The part of itrunc that frees the direct blocks. */
    method TruncDirectSlots(i: nat)
      requires Valid() && i in inodes
      modifies this
      ensures Valid() && i in inodes && TruncFrame(g, old(inodes), inodes, i)
      ensures forall k | 0 <= k < g.ndirect :: inodes[i].addrs[k] == 0
      ensures SameData(g, old(disk), disk)
      ensures forall b | b in owner :: b in old(owner) && owner[b] == old(owner)[b]
      ensures forall b | b in old(owner) && b !in owner :: old(owner)[b].0 == i
      ensures logged == old(logged) + BitBlocks(g, old(owner).Keys - owner.Keys)
    {
      hide BitOf, Own, Mark, Kept, Word, BitBlock, BitBlocks, SameData, Ref;
      var k := 0;
      BitBlocksNone(g, owner.Keys);
      KeptNone(owner, i, 0);
      SameDataStart(g, disk);
      while k < g.ndirect
        invariant 0 <= k <= g.ndirect && Valid() && i in inodes && TruncFrame(g, old(inodes), inodes, i)
        invariant forall l | 0 <= l < k :: inodes[i].addrs[l] == 0
        invariant owner == Kept(old(owner), i, 0, k) && SameData(g, old(disk), disk)
        invariant logged == old(logged) + BitBlocks(g, old(owner).Keys - owner.Keys)
      {
        ghost var o := owner;
        KeptSubset(old(owner), i, 0, k);
        if inodes[i].addrs[k] != 0 {
          var b := inodes[i].addrs[k];
          ghost var d := disk;
          TruncDirect(g, disk, inodes, old(owner), owner, i, k);
          var panic := Bfree(b);
          assert !panic;
          SameDataChain(g, old(disk), d, disk);
          inodes := inodes[i := WithAddr(inodes[i], k, 0)];
          owner := owner - {b};
          BitBlocksMore(g, old(owner).Keys, o.Keys, b);
        } else {
          DirectRef(g, disk, inodes, i, k);
          KeptStep(g, disk, inodes, old(owner), owner, {}, i, 0, k);
          OwnerNonzero(g, disk, inodes, owner);
        }
        k := k + 1;
      }
      KeptSubset(old(owner), i, 0, g.ndirect);
    }

    /** The part of itrunc that goes through the indirect block. */
    method TruncThroughIndirect(i: nat)
      requires Valid() && i in inodes && inodes[i].addrs[g.ndirect] != 0
      modifies this
      ensures Valid()
      ensures inodes == old(inodes)[i := WithAddr(old(inodes)[i], g.ndirect, 0)]
      ensures SameData(g, old(disk), disk)
      ensures forall b | b in owner :: b in old(owner) && owner[b] == old(owner)[b]
      ensures forall b | b in old(owner) && b !in owner :: old(owner)[b].0 == i
      ensures logged == old(logged) + BitBlocks(g, old(owner).Keys - owner.Keys)
    {
      hide BitOf, Own, Mark, Kept, Stale, Word, BitBlock;
      var ind := inodes[i].addrs[g.ndirect];
      KeptNone(owner, i, g.ndirect + 1);
      StaleNone(g, i);
      var j := 0;
      while j < g.nindirect
        invariant 0 <= j <= g.nindirect && Shape(g, disk, inodes) && inodes == old(inodes)
        invariant Own(g, disk, inodes, owner, Stale(g, i, j))
        invariant owner == Kept(old(owner), i, g.ndirect + 1, g.ndirect + 1 + j) && SameData(g, old(disk), disk)
        invariant logged == old(logged) + BitBlocks(g, old(owner).Keys - owner.Keys)
      {
        TruncWord(g, disk, inodes, old(owner), owner, i, j);
        var a := Word(disk[ind], j);
        if a != 0 {
          ghost var o := owner;
          KeptSubset(old(owner), i, g.ndirect + 1, g.ndirect + 1 + j);
          var panic := Bfree(a);
          assert !panic;
          owner := owner - {a};
          BitBlocksMore(g, old(owner).Keys, o.Keys, a);
        }
        j := j + 1;
      }
      TruncIndirect(g, disk, inodes, old(owner), owner, i);
      ghost var o := owner;
      KeptSubset(old(owner), i, g.ndirect + 1, g.ndirect + 1 + g.nindirect);
      var panic := Bfree(ind);
      assert !panic;
      inodes := inodes[i := WithAddr(inodes[i], g.ndirect, 0)];
      owner := owner - {ind};
      BitBlocksMore(g, old(owner).Keys, o.Keys, ind);
    }
  }

  ghost predicate TruncFrame(g: Geometry, inodes: map<nat, Inode>, inodes': map<nat, Inode>, i: nat) {
    inodes'.Keys == inodes.Keys && forall j | j in inodes && j != i :: inodes'[j] == inodes[j]
  }

  lemma SameDataStart(g: Geometry, disk: Disk)
    requires DiskOk(g, disk)
    ensures SameData(g, disk, disk)
  {
  }

  lemma DirectRef(g: Geometry, disk: Disk, inodes: map<nat, Inode>, i: nat, k: nat)
    requires i in inodes && k < |inodes[i].addrs| == g.ndirect + 1
    ensures IsSlot(g, inodes, i, k) && Ref(g, disk, inodes[i], k) == inodes[i].addrs[k]
  {
  }

  lemma SameDataChain(g: Geometry, d0: Disk, d1: Disk, d2: Disk)
    requires SameData(g, d0, d1) && SameData(g, d1, d2)
    ensures SameData(g, d0, d2)
  {
  }

  lemma BitBlocksNone(g: Geometry, s: set<nat>)
    requires 0 < g.nindirect
    ensures BitBlocks(g, s - s) == {}
  {
  }

  lemma BitBlocksSplit(g: Geometry, s0: set<nat>, s1: set<nat>, s2: set<nat>)
    requires 0 < g.nindirect && s2 <= s1 <= s0
    ensures BitBlocks(g, s0 - s2) == BitBlocks(g, s0 - s1) + BitBlocks(g, s1 - s2)
  {
    assert s0 - s2 == (s0 - s1) + (s1 - s2);
    BitBlocksUnion(g, s0 - s1, s1 - s2);
  }

  /** The size of an inode has no part in block ownership. */
  lemma SizeKeepsOwn(g: Geometry, disk: Disk, inodes: map<nat, Inode>, owner: map<nat, (nat, nat)>, i: nat, size: nat)
    requires GeometryOk(g) && Shape(g, disk, inodes) && Own(g, disk, inodes, owner, {}) && i in inodes
    ensures var inodes' := inodes[i := inodes[i].(size := size)];
            Shape(g, disk, inodes') && Own(g, disk, inodes', owner, {})
  {
    hide BitOf;
    var inodes' := inodes[i := inodes[i].(size := size)];
    assert forall j: nat, k: nat | IsSlot(g, inodes, j, k) :: Ref(g, disk, inodes'[j], k) == Ref(g, disk, inodes[j], k);
    OwnUncut(g, disk, inodes, owner, {}, inodes');
  }

  lemma KeptNone(owner: map<nat, (nat, nat)>, i: nat, lo: nat)
    ensures Kept(owner, i, lo, lo) == owner
  {
  }

  lemma StaleNone(g: Geometry, i: nat)
    ensures Stale(g, i, 0) == {}
  {
  }

  lemma KeptSubset(owner: map<nat, (nat, nat)>, i: nat, lo: nat, hi: nat)
    ensures Kept(owner, i, lo, hi).Keys <= owner.Keys
    ensures forall b | b in Kept(owner, i, lo, hi) :: Kept(owner, i, lo, hi)[b] == owner[b]
    ensures forall b | b in owner && b !in Kept(owner, i, lo, hi) :: owner[b].0 == i
  {
  }

  lemma OwnerNonzero(g: Geometry, disk: Disk, inodes: map<nat, Inode>, owner: map<nat, (nat, nat)>)
    requires GeometryOk(g) && Shape(g, disk, inodes) && Own(g, disk, inodes, owner, {})
    ensures owner - {0} == owner
  {
  }

  lemma BitBlocksMore(g: Geometry, s: set<nat>, t: set<nat>, b: nat)
    requires 0 < g.nindirect && t <= s && b in t
    ensures BitBlocks(g, s - (t - {b})) == BitBlocks(g, s - t) + {BitBlock(g, b)}
  {
    assert s - (t - {b}) == (s - t) + {b};
    BitBlocksUnion(g, s - t, {b});
    assert BitBlocks(g, {b}) == {BitBlock(g, b)};
  }

  /** The bit of block number j * Bpb + bi is bit bi of bitmap block j. */
  lemma BitAt(g: Geometry, disk: Disk, j: nat, bi: nat)
    requires GeometryOk(g) && DiskOk(g, disk) && bi < g.Bpb() && j * g.Bpb() + bi < g.size
    ensures BitBlock(g, j * g.Bpb()) in disk && |disk[BitBlock(g, j * g.Bpb())]| == g.Bsize() && bi / 8 < g.Bsize()
    ensures BitOf(g, disk, j * g.Bpb() + bi) == Bit(disk[BitBlock(g, j * g.Bpb())], bi)
  {
    DivAt(j, bi, g.Bpb());
    DivAt(j, 0, g.Bpb());
  }

  lemma MarkAt(g: Geometry, disk: Disk, j: nat, bi: nat)
    requires GeometryOk(g) && DiskOk(g, disk) && bi < g.Bpb() && j * g.Bpb() + bi < g.size
    ensures BitBlock(g, j * g.Bpb()) == BitBlock(g, j * g.Bpb() + bi) && bi == BitIndex(g, j * g.Bpb() + bi)
            && bi / 8 < g.Bsize()
    ensures BitBlock(g, j * g.Bpb()) in disk && |disk[BitBlock(g, j * g.Bpb())]| == g.Bsize()
  {
    DivAt(j, bi, g.Bpb());
    DivAt(j, 0, g.Bpb());
    BitIndexFits(g, j * g.Bpb() + bi);
  }
}
