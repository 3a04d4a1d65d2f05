/**
 Inodes and the block bitmap of kernel/fs.c.

 The disk is a map from block number to bytes.  An inode's block references are
 numbered: slots 0 .. ndirect-1 are the direct ones, slot ndirect is the
 indirect block, and slot ndirect+1+j is word j of the indirect block.  The
 sizes of the format (fs.h, param.h) are parameters.
 */
module Fs {
  import opened Arithmetic
  import opened Blocks

  type Disk = map<nat, Block>

  /** addrs has NDIRECT + 1 elements. */
  datatype Inode = Inode(addrs: seq<nat>, size: nat)

  datatype Geometry = Geometry(size: nat, nmeta: nat, inodestart: nat, ipb: nat, bmapstart: nat, ndirect: nat,
                               nindirect: nat) {
    function Bsize(): nat { 4 * nindirect }
    function Bpb(): nat { 8 * Bsize() }
    function Maxfile(): nat { ndirect + nindirect }
    /** The number of the slot that refers to block bn of a file. */
    function Slot(bn: nat): nat { if bn < ndirect then bn else bn + 1 }
  }

  /** BBLOCK(b, sb) */
  function BitBlock(g: Geometry, b: nat): nat
    requires 0 < g.nindirect
  {
    g.bmapstart + Quot(b, g.Bpb())
  }

  function BitIndex(g: Geometry, b: nat): nat
    requires 0 < g.nindirect
  {
    Rem(b, g.Bpb())
  }

  /** IBLOCK(i, sb) */
  function InodeBlock(g: Geometry, i: nat): nat
    requires 0 < g.ipb
  {
    i / g.ipb + g.inodestart
  }

  /** Every inode has its place among the inode blocks, which end where the bitmap starts. */
  ghost predicate InodesFit(g: Geometry, inodes: map<nat, Inode>)
    requires 0 < g.ipb
  {
    forall i | i in inodes :: InodeBlock(g, i) < g.bmapstart
  }

  /** Block numbers fit 32 bits; the bitmap lies among the metadata blocks. */
  ghost predicate GeometryOk(g: Geometry) {
    && 0 < g.nindirect && 0 < g.ipb && 0 < g.nmeta <= g.size < WORDS
    && forall b | 0 <= b < g.size :: 0 < BitBlock(g, b) < g.nmeta
  }

  lemma BitIndexFits(g: Geometry, b: nat)
    requires 0 < g.nindirect
    ensures BitIndex(g, b) / 8 < g.Bsize()
  {
  }

  /** A block's bit is its own. */
  lemma BitPlace(g: Geometry, b: nat, c: nat)
    requires 0 < g.nindirect && BitBlock(g, b) == BitBlock(g, c) && BitIndex(g, b) == BitIndex(g, c)
    ensures b == c
  {
    var d := g.Bpb();
    assert b == b / d * d + b % d && c == c / d * d + c % d;
  }

  // ---------- Shape, references, bits ----------

  ghost predicate DiskOk(g: Geometry, disk: Disk) {
    forall b | 0 <= b < g.size :: b in disk && |disk[b]| == g.Bsize()
  }

  ghost predicate Shape(g: Geometry, disk: Disk, inodes: map<nat, Inode>) {
    DiskOk(g, disk) && forall i | i in inodes :: |inodes[i].addrs| == g.ndirect + 1
  }

  /** The block number in slot k of an inode, 0 for none. */
  function Ref(g: Geometry, disk: Disk, ino: Inode, k: nat): int {
    if k < |ino.addrs| then
      ino.addrs[k]
    else if k <= g.ndirect || |ino.addrs| <= g.ndirect || ino.addrs[g.ndirect] == 0 then
      0
    else
      Indirect(disk, ino.addrs[g.ndirect], k - g.ndirect - 1)
  }

  function Indirect(disk: Disk, ind: nat, j: nat): int {
    if ind in disk && 4 * j + 3 < |disk[ind]| then Word(disk[ind], j) else 0
  }

  ghost predicate BitOf(g: Geometry, disk: Disk, b: nat)
    requires GeometryOk(g) && DiskOk(g, disk) && b < g.size
  {
    BitIndexFits(g, b);
    Bit(disk[BitBlock(g, b)], BitIndex(g, b))
  }

  /** The slots of every inode, with slot k of inode i named (i, k). */
  ghost predicate IsSlot(g: Geometry, inodes: map<nat, Inode>, i: nat, k: nat) {
    i in inodes && k <= g.ndirect + g.nindirect
  }

  /**
   Exact ownership: `owner` is the inverse of the references (except those in
   `cut`, which are being dropped), and a block's bit is set if and only if the
   block is metadata or has an owner.
   */
  ghost predicate Own(g: Geometry, disk: Disk, inodes: map<nat, Inode>, owner: map<nat, (nat, nat)>,
                      cut: set<(nat, nat)>)
    requires GeometryOk(g) && Shape(g, disk, inodes)
  {
    && (forall b | b in owner ::
          g.nmeta <= b < g.size && IsSlot(g, inodes, owner[b].0, owner[b].1)
          && owner[b] !in cut && Ref(g, disk, inodes[owner[b].0], owner[b].1) == b)
    && (forall i: nat, k: nat | IsSlot(g, inodes, i, k) && (i, k) !in cut && Ref(g, disk, inodes[i], k) != 0 ::
          Owns(owner, Ref(g, disk, inodes[i], k), i, k))
    && (forall b | 0 <= b < g.size :: BitOf(g, disk, b) <==> b < g.nmeta || b in owner)
  }

  ghost predicate Owns(owner: map<nat, (nat, nat)>, b: int, i: nat, k: nat) {
    0 <= b && b in owner && owner[b] == (i, k)
  }

  /**
   Stated without the ghost map: a bit is set iff the block is metadata or some slot
   refers to it, and no two slots share a block.
   */
  lemma OwnershipIsExact(g: Geometry, disk: Disk, inodes: map<nat, Inode>, owner: map<nat, (nat, nat)>, b: nat)
    requires GeometryOk(g) && Shape(g, disk, inodes) && Own(g, disk, inodes, owner, {}) && b < g.size
    ensures BitOf(g, disk, b)
            <==> b < g.nmeta || exists i: nat, k: nat :: IsSlot(g, inodes, i, k) && Ref(g, disk, inodes[i], k) == b
    ensures b < g.nmeta
            ==> b == 0 || !exists i: nat, k: nat :: IsSlot(g, inodes, i, k) && Ref(g, disk, inodes[i], k) == b
    ensures forall i: nat, k: nat, i': nat, k': nat | IsSlot(g, inodes, i, k) && IsSlot(g, inodes, i', k') && b != 0
              && Ref(g, disk, inodes[i], k) == b && Ref(g, disk, inodes[i'], k') == b :: i == i' && k == k'
  {
    forall i: nat, k: nat | IsSlot(g, inodes, i, k) && Ref(g, disk, inodes[i], k) == b && b != 0
      ensures b in owner && owner[b] == (i, k) {
      assert Owns(owner, b, i, k);
    }
    if b in owner {
      assert IsSlot(g, inodes, owner[b].0, owner[b].1) && Ref(g, disk, inodes[owner[b].0], owner[b].1) == b;
    }
  }

  // ---------- Marking bits ----------

  function Mark(g: Geometry, disk: Disk, b: nat, used: bool): Disk
    requires 0 < g.nindirect && BitBlock(g, b) in disk && |disk[BitBlock(g, b)]| == g.Bsize()
  {
    BitIndexFits(g, b);
    var block := disk[BitBlock(g, b)];
    disk[BitBlock(g, b) := if used then SetBit(block, BitIndex(g, b)) else ClearBit(block, BitIndex(g, b))]
  }

  /** Marking a block changes its bit and no other. */
  lemma MarkBits(g: Geometry, disk: Disk, b: nat, used: bool)
    requires GeometryOk(g) && DiskOk(g, disk) && b < g.size
    ensures DiskOk(g, Mark(g, disk, b, used))
    ensures forall c | 0 <= c < g.size ::
            BitOf(g, Mark(g, disk, b, used), c) <==> if c == b then used else BitOf(g, disk, c)
  {
    hide Bit, SetBit, ClearBit, BitIndex;
    forall c | 0 <= c < g.size
      ensures BitOf(g, Mark(g, disk, b, used), c) <==> if c == b then used else BitOf(g, disk, c) {
      BitIndexFits(g, b);
      BitIndexFits(g, c);
      if BitBlock(g, c) == BitBlock(g, b) {
        BitAfterSet(disk[BitBlock(g, b)], BitIndex(g, b), BitIndex(g, c));
        BitAfterClear(disk[BitBlock(g, b)], BitIndex(g, b), BitIndex(g, c));
        if BitIndex(g, c) == BitIndex(g, b) {
          BitPlace(g, b, c);
        }
      }
    }
  }

  /** Writing a block that is not metadata changes no bit. */
  lemma DataKeepsBits(g: Geometry, disk: Disk, b: nat, block: Block)
    requires GeometryOk(g) && DiskOk(g, disk) && g.nmeta <= b < g.size && |block| == g.Bsize()
    ensures DiskOk(g, disk[b := block])
    ensures forall c | 0 <= c < g.size :: BitOf(g, disk[b := block], c) <==> BitOf(g, disk, c)
  {
    hide Bit, BitIndex;
  }

  // ---------- Adding and dropping a reference ----------

  /** The references after slot (i0, k0) alone was changed, to b. */
  ghost predicate RefsSet(g: Geometry, disk: Disk, inodes: map<nat, Inode>, disk': Disk, inodes': map<nat, Inode>,
                          i0: nat, k0: nat, b: int) {
    && inodes'.Keys == inodes.Keys
    && forall i: nat, k: nat | IsSlot(g, inodes, i, k) ::
         Ref(g, disk', inodes'[i], k) == if i == i0 && k == k0 then b else Ref(g, disk, inodes[i], k)
  }

  /** A slot that was empty refers to a block that was free and is marked used. */
  lemma OwnAdd(g: Geometry, disk: Disk, inodes: map<nat, Inode>, owner: map<nat, (nat, nat)>, disk': Disk,
               inodes': map<nat, Inode>, i0: nat, k0: nat, b: nat)
    requires GeometryOk(g) && Shape(g, disk, inodes) && Shape(g, disk', inodes') && Own(g, disk, inodes, owner, {})
    requires IsSlot(g, inodes, i0, k0) && Ref(g, disk, inodes[i0], k0) == 0 && b < g.size && !BitOf(g, disk, b)
    requires RefsSet(g, disk, inodes, disk', inodes', i0, k0, b)
    requires forall c | 0 <= c < g.size :: BitOf(g, disk', c) <==> c == b || BitOf(g, disk, c)
    ensures Own(g, disk', inodes', owner[b := (i0, k0)], {}) && b !in owner && g.nmeta <= b
  {
    hide Ref, BitOf;
    var owner' := owner[b := (i0, k0)];
    forall c | c in owner'
      ensures g.nmeta <= c < g.size && IsSlot(g, inodes', owner'[c].0, owner'[c].1)
              && Ref(g, disk', inodes'[owner'[c].0], owner'[c].1) == c
    {
      assert c in owner && owner[c] == (i0, k0) ==> c == 0;
    }
    forall i: nat, k: nat | IsSlot(g, inodes', i, k) && Ref(g, disk', inodes'[i], k) != 0
      ensures Owns(owner', Ref(g, disk', inodes'[i], k), i, k) {
      assert IsSlot(g, inodes, i, k);
      assert !(i == i0 && k == k0) ==> Owns(owner, Ref(g, disk, inodes[i], k), i, k);
    }
  }

  /**
   The owner of a slot that is given up, and its bit cleared, is no longer needed;
   the slot still holds the stale number.
   */
  lemma OwnCut(g: Geometry, disk: Disk, inodes: map<nat, Inode>, owner: map<nat, (nat, nat)>, cut: set<(nat, nat)>,
               disk': Disk, i0: nat, k0: nat, b: nat)
    requires GeometryOk(g) && Shape(g, disk, inodes) && Shape(g, disk', inodes) && Own(g, disk, inodes, owner, cut)
    requires b in owner && owner[b] == (i0, k0)
    requires forall i: nat, k: nat | IsSlot(g, inodes, i, k) ::
             Ref(g, disk', inodes[i], k) == Ref(g, disk, inodes[i], k)
    requires forall c | 0 <= c < g.size :: BitOf(g, disk', c) <==> c != b && BitOf(g, disk, c)
    ensures Own(g, disk', inodes, owner - {b}, cut + {(i0, k0)})
  {
    hide Ref, BitOf;
    var owner', cut' := owner - {b}, cut + {(i0, k0)};
    forall c | c in owner'
      ensures g.nmeta <= c < g.size && IsSlot(g, inodes, owner'[c].0, owner'[c].1)
              && owner'[c] !in cut' && Ref(g, disk', inodes[owner'[c].0], owner'[c].1) == c
    {
      assert owner[c] == (i0, k0) ==> c == b;
    }
    forall i: nat, k: nat | IsSlot(g, inodes, i, k) && (i, k) !in cut' && Ref(g, disk', inodes[i], k) != 0
      ensures Owns(owner', Ref(g, disk', inodes[i], k), i, k)
    {
      assert Owns(owner, Ref(g, disk, inodes[i], k), i, k);
    }
  }

  /** When every slot in the cut is empty nothing is being dropped any more. */
  lemma OwnUncut(g: Geometry, disk: Disk, inodes: map<nat, Inode>, owner: map<nat, (nat, nat)>, cut: set<(nat, nat)>,
                 inodes': map<nat, Inode>)
    requires GeometryOk(g) && Shape(g, disk, inodes) && Shape(g, disk, inodes') && Own(g, disk, inodes, owner, cut)
    requires inodes'.Keys == inodes.Keys
    requires forall i: nat, k: nat | IsSlot(g, inodes, i, k) ::
               Ref(g, disk, inodes'[i], k) == if (i, k) in cut then 0 else Ref(g, disk, inodes[i], k)
    ensures Own(g, disk, inodes', owner, {})
  {
    hide Ref, BitOf;
    forall c | c in owner
      ensures IsSlot(g, inodes', owner[c].0, owner[c].1) && Ref(g, disk, inodes'[owner[c].0], owner[c].1) == c {
      assert owner[c] == (owner[c].0, owner[c].1);
      assert IsSlot(g, inodes, owner[c].0, owner[c].1);
    }
    forall i: nat, k: nat | IsSlot(g, inodes', i, k) && Ref(g, disk, inodes'[i], k) != 0
      ensures Owns(owner, Ref(g, disk, inodes'[i], k), i, k) {
      assert IsSlot(g, inodes, i, k);
    }
  }

  // ---------- What writing a block does to the references ----------

  /** A block that is not some inode's indirect block. */
  ghost predicate NotIndirect(g: Geometry, inodes: map<nat, Inode>, b: nat) {
    forall i | i in inodes :: |inodes[i].addrs| == g.ndirect + 1 ==> inodes[i].addrs[g.ndirect] != b || b == 0
  }

  lemma RefsKept(g: Geometry, disk: Disk, inodes: map<nat, Inode>, b: nat, block: Block)
    requires Shape(g, disk, inodes) && NotIndirect(g, inodes, b)
    ensures forall i: nat, k: nat | IsSlot(g, inodes, i, k) ::
            Ref(g, disk[b := block], inodes[i], k) == Ref(g, disk, inodes[i], k)
  {
  }

  /** Metadata blocks, free blocks and blocks owned through another slot are nobody's indirect block. */
  lemma OwnNotIndirect(g: Geometry, disk: Disk, inodes: map<nat, Inode>, owner: map<nat, (nat, nat)>, b: nat)
    requires GeometryOk(g) && Shape(g, disk, inodes) && Own(g, disk, inodes, owner, {})
    requires b !in owner || owner[b].1 != g.ndirect
    ensures NotIndirect(g, inodes, b)
  {
    forall i | i in inodes ensures inodes[i].addrs[g.ndirect] != b || b == 0 {
      assert IsSlot(g, inodes, i, g.ndirect);
      var x := Ref(g, disk, inodes[i], g.ndirect);
      assert x != 0 ==> Owns(owner, x, i, g.ndirect);
    }
  }
}
