/**
 Inodes in their blocks: struct dinode of kernel/fs.h, IPB of them to a block, as
 rinode and winode of mkfs/mkfs.c, ilock and iupdate of kernel/fs.c read and write
 them.  Of a dinode's words the first holds type and major, the second minor and
 nlink, the third the size, and the others the block numbers; major and minor are 0.
 */
module Dinodes {
  import opened Arithmetic
  import opened Blocks
  import opened Fs

  const T_DIR: nat := 1
  const T_FILE: nat := 2
  const SHORTS := 0x1_0000

  datatype Dinode = Dinode(typ: nat, nlink: nat, ino: Inode)

  /** The number of words of a dinode. */
  function Words(g: Geometry): nat {
    4 + g.ndirect
  }

  /** IPB dinodes fit a block. */
  predicate PackOk(g: Geometry) {
    0 < g.nindirect && 0 < g.ipb && g.ipb * Words(g) <= g.nindirect
  }

  /** The first word of inode i in its block. */
  function Place(g: Geometry, i: nat): nat
    requires 0 < g.ipb
  {
    Rem(i, g.ipb) * Words(g)
  }

  lemma PlaceFits(g: Geometry, i: nat)
    requires PackOk(g)
    ensures Place(g, i) + Words(g) <= g.nindirect
  {
    hide Rem;
    var r, w := Rem(i, g.ipb), Words(g);
    Distribute(r, 1, w);
    MulMonotone(r + 1, g.ipb, w);
  }

  /** Two inodes in one block have no word in common. */
  lemma PlacesApart(g: Geometry, i: nat, j: nat)
    requires 0 < g.ipb && i != j && InodeBlock(g, i) == InodeBlock(g, j)
    ensures Place(g, i) + Words(g) <= Place(g, j) || Place(g, j) + Words(g) <= Place(g, i)
  {
    SameQuot(i, j, g.ipb);
    hide Rem;
    var r, s, w := Rem(i, g.ipb), Rem(j, g.ipb), Words(g);
    Distribute(r, 1, w);
    Distribute(s, 1, w);
    if r < s {
      MulMonotone(r + 1, s, w);
    } else {
      MulMonotone(s + 1, r, w);
    }
  }

  // ---------- Runs of words ----------

  function PutWords(b: Block, j: nat, xs: seq<nat>): (b': Block)
    requires 4 * (j + |xs|) <= |b|
    ensures |b'| == |b|
    decreases |xs|
  {
    if xs == [] then b else PutWords(PutWord(b, j, xs[0]), j + 1, xs[1..])
  }

  lemma {:induction false} WordPutWords(b: Block, j: nat, xs: seq<nat>, k: nat)
    requires 4 * (j + |xs|) <= |b| && 4 * k + 3 < |b| && forall i | 0 <= i < |xs| :: xs[i] < WORDS
    ensures Word(PutWords(b, j, xs), k) == if j <= k < j + |xs| then xs[k - j] else Word(b, k)
    decreases |xs|
  {
    hide Word, PutWord;
    if xs != [] {
      WordPut(b, j, xs[0], k);
      WordPutWords(PutWord(b, j, xs[0]), j + 1, xs[1..], k);
    }
  }

  // ---------- Reading and writing an inode ----------

  predicate Storable(g: Geometry, d: Dinode) {
    && d.typ < SHORTS && d.nlink < SHORTS && d.ino.size < WORDS && |d.ino.addrs| == g.ndirect + 1
    && forall k | 0 <= k <= g.ndirect :: d.ino.addrs[k] < WORDS
  }

  function Stored(d: Dinode): (xs: seq<nat>)
    ensures |xs| == 3 + |d.ino.addrs|
  {
    [d.typ, SHORTS * d.nlink, d.ino.size] + d.ino.addrs
  }

  /** The block that inode i lies in is on the disk. */
  predicate OnDisk(g: Geometry, disk: Disk, i: nat)
    requires 0 < g.ipb
  {
    InodeBlock(g, i) in disk && |disk[InodeBlock(g, i)]| == g.Bsize()
  }

  /** The block of inode i with d in its place. */
  function WithInode(g: Geometry, disk: Disk, i: nat, d: Dinode): (block: Block)
    requires PackOk(g) && OnDisk(g, disk, i) && |d.ino.addrs| == g.ndirect + 1
    ensures |block| == g.Bsize()
  {
    PlaceFits(g, i);
    PutWords(disk[InodeBlock(g, i)], Place(g, i), Stored(d))
  }

  function Winode(g: Geometry, disk: Disk, i: nat, d: Dinode): Disk
    requires PackOk(g) && OnDisk(g, disk, i) && |d.ino.addrs| == g.ndirect + 1
  {
    disk[InodeBlock(g, i) := WithInode(g, disk, i, d)]
  }

  /** Word k of inode i. */
  function InodeWord(g: Geometry, disk: Disk, i: nat, k: nat): nat
    requires PackOk(g) && OnDisk(g, disk, i) && k < Words(g)
  {
    PlaceFits(g, i);
    Word(disk[InodeBlock(g, i)], Place(g, i) + k) % WORDS
  }

  function Rinode(g: Geometry, disk: Disk, i: nat): (d: Dinode)
    requires PackOk(g) && OnDisk(g, disk, i)
    ensures |d.ino.addrs| == g.ndirect + 1 && d.typ < SHORTS
  {
    Dinode(InodeWord(g, disk, i, 0) % SHORTS, InodeWord(g, disk, i, 1) / SHORTS,
        Inode(seq(g.ndirect + 1, k requires 0 <= k <= g.ndirect => InodeWord(g, disk, i, 3 + k)),
          InodeWord(g, disk, i, 2)))
  }

  lemma StoredFit(g: Geometry, d: Dinode)
    requires Storable(g, d)
    ensures |Stored(d)| == Words(g) && forall k | 0 <= k < |Stored(d)| :: Stored(d)[k] < WORDS
  {
  }

  /** The words of inode j once inode i has been written. */
  lemma WordAfter(g: Geometry, disk: Disk, i: nat, d: Dinode, j: nat, k: nat)
    requires PackOk(g) && OnDisk(g, disk, i) && OnDisk(g, disk, j) && Storable(g, d) && k < Words(g)
    ensures OnDisk(g, Winode(g, disk, i, d), j) && |Stored(d)| == Words(g)
    ensures InodeWord(g, Winode(g, disk, i, d), j, k) == if j == i then Stored(d)[k] else InodeWord(g, disk, j, k)
  {
    hide Word, PutWords, Place, Words, Stored, Storable;
    StoredFit(g, d);
    PlaceFits(g, i);
    PlaceFits(g, j);
    if InodeBlock(g, j) == InodeBlock(g, i) {
      if j != i {
        PlacesApart(g, i, j);
      }
      WordPutWords(disk[InodeBlock(g, i)], Place(g, i), Stored(d), Place(g, j) + k);
    }
  }

  /** An inode read back is the inode written, and writing it changes no other. */
  lemma RinodeWinode(g: Geometry, disk: Disk, i: nat, d: Dinode, j: nat)
    requires PackOk(g) && OnDisk(g, disk, i) && OnDisk(g, disk, j) && Storable(g, d)
    ensures OnDisk(g, Winode(g, disk, i, d), j)
    ensures Rinode(g, Winode(g, disk, i, d), j) == if j == i then d else Rinode(g, disk, j)
  {
    hide InodeWord, Winode, OnDisk;
    var disk' := Winode(g, disk, i, d);
    forall k: nat | k < Words(g)
      ensures OnDisk(g, disk', j)
              && InodeWord(g, disk', j, k) == if j == i then Stored(d)[k] else InodeWord(g, disk, j, k)
    {
      WordAfter(g, disk, i, d, j, k);
    }
    assert OnDisk(g, disk', j) by { WordAfter(g, disk, i, d, j, 0); }
    if j == i {
      assert InodeWord(g, disk', j, 0) == d.typ && InodeWord(g, disk', j, 1) == SHORTS * d.nlink;
      assert InodeWord(g, disk', j, 2) == d.ino.size;
      assert forall k: nat | k <= g.ndirect :: InodeWord(g, disk', j, 3 + k) == d.ino.addrs[k];
      assert Rinode(g, disk', j).ino.addrs == d.ino.addrs;
    } else {
      assert Rinode(g, disk', j).ino.addrs == Rinode(g, disk, j).ino.addrs;
    }
  }
}
