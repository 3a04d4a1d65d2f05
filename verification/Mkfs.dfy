/**
 mkfs/mkfs.c: the image builder, and that what it builds is a file system the
 kernel's invariants hold of, with the inodes in their blocks.

 A block past the end of the image cannot be read, so mkfs dies when it has handed
 out one; after that, or a failed assertion, nothing is said of the image.
 */
module Mkfs {
  import opened Arithmetic
  import opened Blocks
  import opened Fs
  import opened FileSystem
  import opened FileBytes
  import opened Dinodes
  import opened MkfsDisk

  class Image {
    const g: Geometry
    var disk: Disk
    var freeblock: nat
    var freeinode: nat
    ghost var inodes: map<nat, Inode>          // what the inode blocks hold
    ghost var types: map<nat, nat>
    ghost var owner: map<nat, (nat, nat)>

    /** Blocks not handed out, and the bitmap, are as zeroed at the start. */
    ghost predicate Basics()
      reads this
    {
      && PlanOk(g) && DiskOk(g, disk) && BitmapZero(g, disk) && g.nmeta <= freeblock <= g.size
      && g.bmapstart in disk && disk[g.bmapstart] == ZeroBlock(g.Bsize())
      && forall b | freeblock <= b < g.size :: disk[b] == ZeroBlock(g.Bsize())
    }

    /** The file system so far, on the disk as it will be. */
    ghost function Built(inodes: map<nat, Inode>, logged: set<nat>): Snapshot
      requires Basics()
      reads this
    {
      Snapshot(Bitted(g, disk, freeblock), inodes, owner, logged)
    }

    /** Every file has the blocks for its bytes and no others, with zeros after its last byte. */
    ghost predicate Files()
      reads this
    {
      && Basics() && SnapshotOk(g, Built(inodes, {})) && NoHoles(g, Built(inodes, {}).disk, inodes)
      && forall i | i in inodes :: FileOk(g, Built(inodes, {}).disk, inodes[i], inodes[i].size)
    }

    /** The inode blocks hold the inodes, each with one link. */
    ghost predicate Packed()
      requires PlanOk(g)
      reads this
    {
      types.Keys == inodes.Keys && forall i | i in inodes :: IsStored(g, disk, i, types[i], inodes[i])
    }

    ghost predicate Valid()
      reads this
    {
      Files() && Packed() && forall i | i in inodes :: i < freeinode
    }

    /** What file i holds. */
    ghost function Held(i: nat): seq<int>
      requires Basics() && i in inodes
      reads this
    {
      Content(g, Built(inodes, {}).disk, inodes[i])
    }

    /** Every file but i holds what it held. */
    twostate predicate OthersHeld(i: nat)
      requires old(Basics()) && Basics()
      reads this
    {
      forall j | j in old(inodes) && j != i :: j in inodes && inodes[j] == old(inodes)[j] && Held(j) == old(Held(j))
    }

    // ---------- Blocks for a file ----------

    /** iappend's choice of the block for fbn: `din` is the working copy of inode i. */
    method BlockFor(i: nat, din: Inode, fbn: nat, ghost logged: set<nat>)
      returns (ok: bool, din': Inode, x: nat, ghost logged': set<nat>, ghost extra: set<nat>)
      requires Basics() && i in inodes && SnapshotOk(g, Built(inodes[i := din], logged)) && fbn < g.Maxfile()
      modifies this`disk, this`freeblock, this`owner
      ensures ok <==> old(freeblock + Missing(g, Built(inodes[i := din], logged).disk, din, fbn)) <= g.size
      ensures ok ==> Basics() && MetaKept(g, old(disk), disk)
                     && freeblock == old(freeblock + Missing(g, Built(inodes[i := din], logged).disk, din, fbn))
      ensures ok ==> Fills(g, old(Built(inodes[i := din], logged)), Built(inodes[i := din'], logged'), i,
                         SlotsFor(g, fbn), extra)
      ensures ok ==> x != 0 && x == Ref(g, Built(inodes[i := din'], logged').disk, din', g.Slot(fbn))
      ensures ok && old(Ref(g, Built(inodes[i := din], logged).disk, din, g.Slot(fbn))) == 0 ==>
                x in disk && disk[x] == ZeroBlock(g.Bsize())
    {
      hide BitOf, Own, Grows, Logs, Allocated, BitBlock, BitmapZero, Bitted, ZeroBlock, Fills, Word, PutWord, Indirect,
           PlanOk;
      PlanIs(g);
      ghost var s := Built(inodes[i := din], logged);
      FillsNothing(g, s, i, SlotsFor(g, fbn));
      ok, din', x, logged', extra := true, din, 0, logged, {};
      if fbn < g.ndirect {
        if din.addrs[fbn] == 0 {
          if freeblock == g.size {
            return false, din, 0, logged, {};
          }
          BittedNext(g, disk, freeblock);
          FillsAddr(g, s, i, fbn, freeblock);
          din' := WithAddr(din, fbn, freeblock);
          owner := owner[freeblock := (i, fbn)];
          logged' := logged + {BitBlock(g, freeblock), freeblock};
          assert inodes[i := din][i := din'] == inodes[i := din'] && SlotsFor(g, fbn) == {fbn};
          freeblock := freeblock + 1;
        }
        MetaSame(g, disk);
        x := din'.addrs[fbn];
        return;
      }
      ok, din', x, logged', extra := IndirectFor(i, din, fbn - g.ndirect, logged);
      assert SlotsFor(g, fbn) == {g.ndirect, g.ndirect + 1 + (fbn - g.ndirect)};
    }

    method IndirectFor(i: nat, din: Inode, n: nat, ghost logged: set<nat>)
      returns (ok: bool, din': Inode, x: nat, ghost logged': set<nat>, ghost extra: set<nat>)
      requires Basics() && i in inodes && SnapshotOk(g, Built(inodes[i := din], logged)) && n < g.nindirect
      modifies this`disk, this`freeblock, this`owner
      ensures ok <==> old(freeblock + Missing(g, Built(inodes[i := din], logged).disk, din, g.ndirect + n)) <= g.size
      ensures ok ==> Basics() && MetaKept(g, old(disk), disk)
                     && freeblock == old(freeblock
                         + Missing(g, Built(inodes[i := din], logged).disk, din, g.ndirect + n))
      ensures ok ==> Fills(g, old(Built(inodes[i := din], logged)), Built(inodes[i := din'], logged'), i,
                         {g.ndirect, g.ndirect + 1 + n}, extra)
      ensures ok ==> x != 0 && x == Ref(g, Built(inodes[i := din'], logged').disk, din', g.ndirect + 1 + n)
      ensures ok && old(Ref(g, Built(inodes[i := din], logged).disk, din, g.ndirect + 1 + n)) == 0 ==>
                x in disk && disk[x] == ZeroBlock(g.Bsize())
    {
      hide BitOf, Own, Grows, Logs, Allocated, BitBlock, BitmapZero, Bitted, ZeroBlock, Fills, Word, PutWord, Indirect,
           PlanOk, Ref, MetaKept;
      PlanIs(g);
      ghost var s := Built(inodes[i := din], logged);
      ghost var ks := {g.ndirect, g.ndirect + 1 + n};
      x, extra := 0, {};
      ok, din', logged' := IndirectBlockFor(i, din, logged);
      if !ok {
        return;
      }
      ghost var s1 := Built(inodes[i := din'], logged');
      FillsMore(g, s, s1, i, {g.ndirect}, ks);
      FillsOk(g, s, s1, i, ks, {});
      FillsRef(g, s, s1, i, {g.ndirect}, {}, g.ndirect + 1 + n);
      ok, x, logged', extra := WordFor(i, din', n, logged');
      if ok {
        FillsTwice(g, s, s1, Built(inodes[i := din'], logged'), i, ks, {g.ndirect + 1 + n}, ks, {}, extra);
        assert {} + extra == extra;
      }
    }

    method IndirectBlockFor(i: nat, din: Inode, ghost logged: set<nat>)
      returns (ok: bool, din': Inode, ghost logged': set<nat>)
      requires Basics() && i in inodes && SnapshotOk(g, Built(inodes[i := din], logged))
      modifies this`freeblock, this`owner
      ensures ok <==> old(freeblock) + MissingIndirect(g, din, g.ndirect) <= g.size
      ensures ok ==> Basics() && freeblock == old(freeblock) + MissingIndirect(g, din, g.ndirect)
      ensures ok ==> g.ndirect < |din'.addrs| && din'.addrs[g.ndirect] != 0
      ensures ok ==>
              Fills(g, old(Built(inodes[i := din], logged)), Built(inodes[i := din'], logged'), i, {g.ndirect}, {})
    {
      hide BitOf, Own, Grows, Logs, Allocated, BitBlock, BitmapZero, Bitted, ZeroBlock, Fills, PlanOk;
      PlanIs(g);
      ghost var s := Built(inodes[i := din], logged);
      FillsNothing(g, s, i, {g.ndirect});
      ok, din', logged' := true, din, logged;
      if din.addrs[g.ndirect] == 0 {
        if freeblock == g.size {
          return false, din, logged;
        }
        BittedNext(g, disk, freeblock);
        FillsAddr(g, s, i, g.ndirect, freeblock);
        din' := WithAddr(din, g.ndirect, freeblock);
        owner := owner[freeblock := (i, g.ndirect)];
        logged' := logged + {BitBlock(g, freeblock), freeblock};
        assert inodes[i := din][i := din'] == inodes[i := din'];
        freeblock := freeblock + 1;
      }
    }

    method WordFor(i: nat, din: Inode, n: nat, ghost logged: set<nat>)
      returns (ok: bool, x: nat, ghost logged': set<nat>, ghost extra: set<nat>)
      requires Basics() && i in inodes && SnapshotOk(g, Built(inodes[i := din], logged)) && n < g.nindirect
      requires g.ndirect < |din.addrs| && din.addrs[g.ndirect] != 0
      modifies this`disk, this`freeblock, this`owner
      ensures var missing := old(Ref(g, Built(inodes[i := din], logged).disk, din, g.ndirect + 1 + n)) == 0;
              && (ok <==> old(freeblock) + (if missing then 1 else 0) <= g.size)
              && (ok ==> freeblock == old(freeblock) + if missing then 1 else 0)
      ensures ok ==> Basics() && MetaKept(g, old(disk), disk)
      ensures ok ==> Fills(g, old(Built(inodes[i := din], logged)), Built(inodes[i := din], logged'), i,
                         {g.ndirect + 1 + n}, extra)
      ensures ok ==> x != 0 && x == Ref(g, Built(inodes[i := din], logged').disk, din, g.ndirect + 1 + n)
      ensures ok && old(Ref(g, Built(inodes[i := din], logged).disk, din, g.ndirect + 1 + n)) == 0 ==>
                x in disk && disk[x] == ZeroBlock(g.Bsize())
    {
      hide BitOf, Own, Grows, Logs, Allocated, BitBlock, BitmapZero, Bitted, ZeroBlock, Fills, Word, PutWord, Indirect,
           Ref, PlanOk, NotBitmap;
      PlanIs(g);
      ghost var s := Built(inodes[i := din], logged);
      FillsNothing(g, s, i, {g.ndirect + 1 + n});
      ok, logged', extra := true, logged, {};
      var ind := din.addrs[g.ndirect];
      IndirectAt(g, disk, freeblock, s, i, n);
      MetaSame(g, disk);
      x := Word(disk[ind], n);
      if x == 0 {
        if freeblock == g.size {
          return false, 0, logged, {};
        }
        x := freeblock;
        BittedNext(g, disk, x);
        FillsWord(g, s, i, n, x);
        DataNotBitmap(g, ind);
        BittedWrite(g, disk, x + 1, ind, PutWord(disk[ind], n, x));
        OtherKeepsBits(g, disk, ind, PutWord(disk[ind], n, x));
        BitmapBlock(g, disk);
        freeblock := freeblock + 1;
        disk := disk[ind := PutWord(disk[ind], n, x)];
        owner := owner[x := (i, g.ndirect + 1 + n)];
        logged' := logged' + {BitBlock(g, x), x} + {ind};
        extra := {ind};
      }
    }

    // ---------- The steps of main ----------

    /** main's start: every block zeroed, blocks handed out from the first data block on. */
    constructor (g: Geometry)
      requires PlanOk(g)
      ensures Valid() && this.g == g && inodes == map[] && freeblock == g.nmeta && freeinode == 1
    {
      this.g := g;
      inodes, types, freeblock, freeinode := map[], map[], g.nmeta, 1;
      disk, owner := map[], map[];
      new;
      var i := 0;
      while i < g.size
        invariant 0 <= i <= g.size
        invariant forall b | 0 <= b < i :: b in disk && disk[b] == ZeroBlock(g.Bsize())
        invariant this.g == g && inodes == map[] && types == map[] && freeblock == g.nmeta && freeinode == 1
        invariant owner == map[]
      {
        disk := disk[i := ZeroBlock(g.Bsize())];
        i := i + 1;
      }
      ZeroBitmap(g, disk);
      BitmapBlock(g, disk);
      BittedBits(g, disk, g.nmeta);
    }

    /** winode, of an inode within the inode blocks. */
    method StoreInode(i: nat, d: Dinode)
      requires Files() && i in inodes && inodes[i] == d.ino && d.nlink == 1 && d.typ < SHORTS && i < Slots(g)
      requires types.Keys == inodes.Keys && types[i] == d.typ
      requires forall j | j in inodes && j != i :: IsStored(g, disk, j, types[j], inodes[j])
      modifies this`disk
      ensures Files() && Packed() && forall j | j in inodes :: Held(j) == old(Held(j))
    {
      hide BitOf, Own, Bitted, Ref, Content, ZeroBlock, NotIndirect, NotBitmap, BitmapZero, IsStored, Storable,
           PlanOk, InodeBlock, Slots, WithInode, FileOk, Mapped;
      PlanIs(g);
      SlotIs(g, i);
      ghost var b, bitted := InodeBlock(g, i), Bitted(g, disk, freeblock);
      InodeNotBitmap(g, b);
      InodeStorable(g, bitted, inodes, owner, i, d);
      ghost var block := WithInode(g, disk, i, d);
      BittedWrite(g, disk, freeblock, b, block);
      OtherKeepsBits(g, disk, b, block);
      MetaKeepsOwn(g, bitted, inodes, owner, b, block);
      forall j | j in inodes
        ensures Content(g, bitted[b := block], inodes[j]) == Content(g, bitted, inodes[j])
        ensures Mapped(g, bitted[b := block], inodes[j], inodes[j].size)
        ensures FileOk(g, bitted[b := block], inodes[j], inodes[j].size)
        ensures IsStored(g, disk[b := block], j, types[j], inodes[j])
      {
        MetaKeepsBytes(g, bitted, inodes, owner, b, block, j);
        MetaKeepsFile(g, bitted, inodes, owner, b, block, j, inodes[j].size);
        StoredAfter(g, disk, i, d, j, types[j], inodes[j]);
      }
      disk := Winode(g, disk, i, d);
    }

    /**
     ialloc: the next inode, empty and with one link.  It is not asked whether the inode
     blocks have room for it: past their end winode writes the blocks that follow, and
     past the end of the image mkfs dies.
     */
    method Ialloc(typ: nat) returns (inum: nat, fits: bool)
      requires Valid() && typ < SHORTS
      modifies this
      ensures inum == old(freeinode) && (fits <==> inum < Slots(g))
      ensures fits ==> Valid() && inum !in old(inodes) && freeinode == old(freeinode) + 1 && freeblock == old(freeblock)
      ensures fits ==>
              inodes == old(inodes)[inum := Inode(seq(g.ndirect + 1, k => 0), 0)] && types == old(types)[inum := typ]
      ensures fits ==> OthersHeld(inum) && Held(inum) == []
      ensures !fits && InodeBlock(g, inum) < g.size ==>
                OnDisk(g, old(disk), inum)
                && disk == Winode(g, old(disk), inum, Dinode(typ, 1, Inode(seq(g.ndirect + 1, k => 0), 0)))
    {
      hide BitOf, Own, Bitted, Ref, Content, ZeroBlock, BitmapZero, IsStored, PlanOk, FileOk, NoHoles, Slots, Winode;
      PlanIs(g);
      inum := freeinode;
      freeinode := freeinode + 1;
      var din := Inode(seq(g.ndirect + 1, k => 0), 0);
      SlotIs(g, inum);
      fits := InodeBlock(g, inum) < g.bmapstart;
      if fits {
        EmptyInode(g, Bitted(g, disk, freeblock), inodes, owner, inum, din);
        inodes, types := inodes[inum := din], types[inum := typ];
        StoreInode(inum, Dinode(typ, 1, din));
      } else if InodeBlock(g, inum) < g.size {
        disk := Winode(g, disk, inum, Dinode(typ, 1, din));
      }
    }

    /** There is room for n more bytes, in the file and on the disk. */
    ghost predicate HasRoom(inum: nat, n: nat)
      requires 0 < g.nindirect && inum in inodes
      reads this
    {
      && inodes[inum].size + n <= g.Maxfile() * g.Bsize()
      && freeblock + Takes(g, inodes[inum].size + n) <= g.size + Takes(g, inodes[inum].size)
    }

    /** iappend under way: tot bytes of q are in the file after the first off, whose inode is still to be written. */
    ghost predicate Appending(s0: Snapshot, i: nat, din: Inode, off: nat, q: seq<int>, tot: nat, hi: nat,
                              logged: set<nat>)
      reads this
    {
      && Basics() && inodes == s0.inodes && i in inodes
      && Progress(g, s0, Built(inodes[i := din], logged), i, off, q, tot, hi)
      && FileOk(g, Built(inodes, {}).disk, din, off + tot)
      && forall j | j in inodes && j != i :: FileOk(g, Built(inodes, {}).disk, inodes[j], inodes[j].size)
    }

    /** One round of iappend's loop: up to the end of a block. */
    method AppendRound(i: nat, din: Inode, off: nat, p: seq<int>, tot: nat, ghost s0: Snapshot, ghost hi: nat,
                       ghost logged: set<nat>)
      returns (ok: bool, din': Inode, n1: nat, ghost logged': set<nat>)
      requires off <= g.Maxfile() * g.Bsize() && tot < |p|
      requires tot <= |Limited(g, off, p)| && Appending(s0, i, din, off, Limited(g, off, p), tot, hi, logged)
      modifies this`disk, this`freeblock, this`owner
      ensures ok <==> Bn(g, off + tot) < g.Maxfile() && old(freeblock)
                      + Takes(g, off + tot + RoundSize(g, off + tot, |p| - tot)) <= g.size + Takes(g, off + tot)
      ensures ok ==> n1 == RoundSize(g, off + tot, |p| - tot) && tot + n1 <= |Limited(g, off, p)|
      ensures ok ==> freeblock + Takes(g, off + tot) == old(freeblock) + Takes(g, off + tot + n1)
      ensures ok ==> Appending(s0, i, din', off, Limited(g, off, p), tot + n1, hi + 1, logged')
                     && MetaKept(g, old(disk), disk)
    {
      hide Bn, At, BitOf, Own, Shape, BitmapZero, Bitted, ZeroBlock, Fills, Ref, NoHoles, Content, Progress,
           Geometry.Bsize, Geometry.Maxfile, RoundSize, FileOk, PlanOk, Takes, Missing, MetaKept, Limited;
      PlanIs(g);
      din', logged', n1 := din, logged, 0;
      if Bn(g, off + tot) >= g.Maxfile() {
        return false, din', 0, logged';
      }
      ghost var q := Limited(g, off, p);
      WithinLimit(g, off, |p|, |q|, tot);
      ghost var s := Built(inodes[i := din], logged);
      ProgressFacts(g, s0, s, i, off, q, tot, hi);
      n1 := RoundSize(g, off + tot, |p| - tot);
      NeedIs(g, s.disk, din, off + tot, n1);
      var x; ghost var extra;
      ok, din', x, logged', extra := BlockFor(i, din, Bn(g, off + tot), logged);
      if !ok {
        return;
      }
      ghost var disk0 := disk;
      logged' := PutBytes(i, din', off, p, tot, n1, x, s0, s, hi, logged', extra);
      MetaChain(g, old(disk), disk0, disk);
    }

    /** The write of a round: n1 bytes into block x. */
    method PutBytes(i: nat, din: Inode, off: nat, p: seq<int>, tot: nat, n1: nat, x: nat, ghost s0: Snapshot,
                    ghost s: Snapshot, ghost hi: nat, ghost logged: set<nat>, ghost extra: set<nat>)
      returns (ghost logged': set<nat>)
      requires Basics() && inodes == s0.inodes && i in inodes && off <= g.Maxfile() * g.Bsize()
      requires var q := Limited(g, off, p);
               && tot < |q| && Progress(g, s0, s, i, off, q, tot, hi) && hi == Bn(g, off + tot) < g.Maxfile()
               && n1 == RoundSize(g, off + tot, |q| - tot)
      requires Fills(g, s, Built(inodes[i := din], logged), i, SlotsFor(g, hi), extra)
      requires x != 0 && x == Ref(g, Built(inodes[i := din], logged).disk, din, g.Slot(hi))
      requires Ref(g, s.disk, s.inodes[i], g.Slot(hi)) == 0 ==> x in disk && disk[x] == ZeroBlock(g.Bsize())
      requires FileOk(g, s.disk, s.inodes[i], off + tot)
      requires forall j | j in inodes && j != i :: FileOk(g, s.disk, inodes[j], inodes[j].size)
      modifies this`disk
      ensures Appending(s0, i, din, off, Limited(g, off, p), tot + n1, hi + 1, logged')
      ensures tot + n1 <= |Limited(g, off, p)| && MetaKept(g, old(disk), disk)
    {
      hide Bn, At, BitOf, Own, Shape, BitmapZero, Bitted, ZeroBlock, Fills, Ref, NoHoles, Content, Progress,
           Geometry.Bsize, Geometry.Maxfile, RoundSize, FileOk, Patch, PlanOk, NotBitmap, MetaKept, Limited;
      PlanIs(g);
      ghost var q := Limited(g, off, p);
      ghost var s1 := Built(inodes[i := din], logged);
      FillsOk(g, s, s1, i, SlotsFor(g, hi), extra);
      OwnedBelow(g, disk, freeblock, s1, i, hi);
      var block := Patch(disk[x], At(g, off + tot), p[tot..tot + n1]);
      assert p[tot..tot + n1] == q[tot..tot + n1];
      DataNotBitmap(g, x);
      BittedWrite(g, disk, freeblock, x, block);
      OtherKeepsBits(g, disk, x, block);
      BitmapBlock(g, disk);
      ProgressWrite(g, s0, s, s1, i, off, q, tot, hi, extra, x,
          Snapshot(s1.disk[x := block], s1.inodes, s1.owner, s1.logged + {x}));
      FileGrows(g, s, s1, i, off + tot, n1, extra, x, p[tot..tot + n1]);
      forall j | j in inodes && j != i
        ensures FileOk(g, s1.disk[x := block], inodes[j], inodes[j].size) {
        BoundOf(g, s0, s, i, off, q, tot, hi, j);
        FileStays(g, s, s1, i, hi, extra, x, block, j);
      }
      MetaSame(g, disk);
      MetaWrite(g, old(disk), disk, x, block);
      disk := disk[x := block];
      logged' := logged + {x};
    }

    /** iappend: the bytes of p at the end of the file, if there is room. */
    method Iappend(inum: nat, p: seq<int>) returns (ok: bool)
      requires Valid() && inum in inodes
      modifies this`disk, this`inodes, this`freeblock, this`owner
      ensures ok <==> old(HasRoom(inum, |p|))
      ensures ok ==> Valid() && inodes.Keys == old(inodes).Keys && inodes[inum].size == old(inodes)[inum].size + |p|
      ensures ok ==> freeblock + Takes(g, old(inodes)[inum].size) == old(freeblock) + Takes(g, inodes[inum].size)
      ensures ok ==> Held(inum) == old(Held(inum)) + p && OthersHeld(inum)
    {
      hide Bn, At, BitOf, Own, Shape, BitmapZero, Bitted, ZeroBlock, Ref, NoHoles, Content, Progress,
           Geometry.Bsize, Geometry.Maxfile, RoundSize, Splice, FileOk, PlanOk, Takes, IsStored, MetaKept, Slots,
           Rinode, Limited;
      PlanIs(g);
      StoredIs(g, disk, inum, types[inum], inodes[inum]);
      SlotIs(g, inum);
      ok := true;
      var d := Rinode(g, disk, inum);
      var din := d.ino;
      var off := din.size;
      SizeBound(g, Built(inodes, {}).disk, inodes, inum);
      ghost var s0, f0 := Built(inodes, {}), freeblock;
      var tot := 0;
      ghost var logged: set<nat> := {};
      ghost var hi := Bn(g, off);
      assert inodes[inum := din] == inodes;
      ProgressStart(g, s0, inum, off, Limited(g, off, p));
      MetaSame(g, disk);
      while tot < |p|
        invariant ok && 0 <= tot <= |Limited(g, off, p)| && MetaKept(g, old(disk), disk)
        invariant Appending(s0, inum, din, off, Limited(g, off, p), tot, hi, logged)
        invariant freeblock + Takes(g, off) == f0 + Takes(g, off + tot)
      {
        ghost var disk0 := disk;
        var n1;
        ok, din, n1, logged := AppendRound(inum, din, off, p, tot, s0, hi, logged);
        if !ok {
          Stopped(g, off, |p|, tot);
          return;
        }
        MetaChain(g, old(disk), disk0, disk);
        tot := tot + n1;
        hi := hi + 1;
      }
      assert Limited(g, off, p) == p;
      forall j | j in inodes ensures IsStored(g, disk, j, types[j], inodes[j]) {
        MetaStored(g, old(disk), disk, j, types[j], inodes[j]);
      }
      EndAppend(inum, d.(ino := din.(size := off + tot)), din, p, s0, hi, logged);
    }

    /** The end of iappend: the inode is written with its new size. */
    method EndAppend(i: nat, d: Dinode, ghost din: Inode, ghost p: seq<int>, ghost s0: Snapshot, ghost hi: nat,
                     ghost logged: set<nat>)
      requires i in s0.inodes && Appending(s0, i, din, s0.inodes[i].size, p, |p|, hi, logged)
      requires Packed() && i < Slots(g) && d == Dinode(types[i], 1, din.(size := s0.inodes[i].size + |p|))
               && d.typ < SHORTS
      modifies this`disk, this`inodes
      ensures Files() && Packed() && inodes == s0.inodes[i := d.ino]
      ensures Held(i) == Content(g, s0.disk, s0.inodes[i]) + p
      ensures forall j | j in inodes && j != i :: Held(j) == Content(g, s0.disk, s0.inodes[j])
    {
      hide Bn, BitOf, Own, Shape, BitmapZero, Bitted, ZeroBlock, Ref, NoHoles, Content, Progress,
           Geometry.Bsize, Geometry.Maxfile, Splice, FileOk, PlanOk, IsStored, Slots;
      PlanIs(g);
      ghost var off, s := s0.inodes[i].size, Built(inodes[i := din], logged);
      ProgressEnd(g, s0, s, i, off, p, |p|, hi);
      ProgressKeys(g, s0, s, i, off, p, |p|, hi);
      AppendSplice(Content(g, s0.disk, s0.inodes[i]), p);
      SizeKeepsFile(g, s.disk, din, off + |p|, off + |p|);
      inodes := inodes[i := d.ino];
      assert s.inodes[i := s.inodes[i].(size := off + |p|)] == inodes;
      assert p[..|p|] == p;
      StoreInode(i, d);
    }

    /** balloc: one bitmap block with the bits of the first `used` blocks set. */
    method Balloc(used: nat) returns (ok: bool)
      requires PlanOk(g)
      modifies this`disk
      ensures ok <==> used < g.Bpb()
      ensures ok ==> disk == old(disk)[g.bmapstart := BitmapOf(g.Bsize(), used)]
    {
      if used >= g.Bpb() {
        return false;
      }
      var buf := ZeroBlock(g.Bsize());
      var i := 0;
      while i < used
        invariant 0 <= i <= used && buf == BitmapOf(g.Bsize(), i) && disk == old(disk)
      {
        buf := SetBit(buf, i);
        i := i + 1;
      }
      disk := disk[g.bmapstart := buf];
      return true;
    }

    /** main's end: the root's size rounded up, and the bitmap written. */
    method Finish(root: nat) returns (ok: bool)
      requires Valid() && root in inodes
      modifies this`disk, this`inodes
      ensures ok <==> freeblock < g.Bpb()
      ensures ok ==> Finished(g, old(Built(inodes, {}).disk), old(inodes), root, disk, inodes, types, owner, freeblock)
    {
      hide BitOf, Own, Bitted, Ref, NoHoles, Content, FileOk, BitmapZero, Rounded, Geometry.Bsize,
           Geometry.Bpb, DiskOk, PlanOk, IsStored, ZeroBlock, BitmapOf, WithInode, InodeBlock, Shape, Finished;
      PlanIs(g);
      StoredIs(g, disk, root, types[root], inodes[root]);
      SizeBound(g, Built(inodes, {}).disk, inodes, root);
      var d := Rinode(g, disk, root);
      var off := Rounded(g, d.ino.size);
      d := d.(ino := d.ino.(size := off));
      ghost var disk0, n := disk, inodes;
      ghost var bitted := Built(inodes, {}).disk;
      RootStored(g, disk, freeblock, inodes, owner, root, d);
      disk := Winode(g, disk, root, d);
      inodes := inodes[root := d.ino];
      ghost var disk1 := disk;
      ok := Balloc(freeblock);
      if ok {
        assert disk1[g.bmapstart] == ZeroBlock(g.Bsize());
        WrittenBitmap(g, disk1, freeblock);
        FinishedIs(g, disk0, n, root, types, owner, freeblock, d, disk);
      }
    }
  }

  /**
   The finished disk d, for the files that d0 and n0 were: the kernel's invariants hold of
   it; the inode blocks hold the inodes; a bit is set if and only if the block is metadata
   or was handed out; every file has its bytes, the root with zeros up to its rounded size.
   */
  ghost predicate Finished(g: Geometry, d0: Disk, n0: map<nat, Inode>, root: nat, d: Disk, n: map<nat, Inode>,
                           types: map<nat, nat>, owner: map<nat, (nat, nat)>, used: nat) {
    && PlanOk(g) && root in n0 && SnapshotOk(g, Snapshot(d, n, owner, {}))
    && n == n0[root := n0[root].(size := Rounded(g, n0[root].size))]
    && (forall i | i in n :: i in types && IsStored(g, d, i, types[i], n[i]))
    && (forall b | 0 <= b < g.size :: BitOf(g, d, b) <==> b < used)
    && (forall j | j in n && j != root :: Content(g, d, n[j]) == Content(g, d0, n0[j]))
    && n0[root].size <= Rounded(g, n0[root].size)
    && Content(g, d, n[root]) == Content(g, d0, n0[root]) + ZeroBlock(Rounded(g, n0[root].size) - n0[root].size)
    && (NoHoles(g, d, n) <==> At(g, n0[root].size) != 0)
  }

  lemma FinishedIs(g: Geometry, disk: Disk, n0: map<nat, Inode>, root: nat, types: map<nat, nat>,
                   owner: map<nat, (nat, nat)>, used: nat, r: Dinode, d: Disk)
    requires PlanOk(g) && DiskOk(g, disk) && used <= g.size && root in n0 && n0.Keys == types.Keys
    requires var d0 := Bitted(g, disk, used);
             && SnapshotOk(g, Snapshot(d0, n0, owner, {})) && NoHoles(g, d0, n0)
             && FileOk(g, d0, n0[root], n0[root].size)
    requires forall j | j in n0 :: IsStored(g, disk, j, types[j], n0[j])
    requires OnDisk(g, disk, root) && Storable(g, r)
             && r == Dinode(types[root], 1, n0[root].(size := Rounded(g, n0[root].size)))
    requires var b, block, bitted := InodeBlock(g, root), WithInode(g, disk, root, r), Bitted(g, disk, used);
             && |block| == g.Bsize() && DiskOk(g, disk[b := block])
             && Bitted(g, disk[b := block], used) == bitted[b := block]
             && Shape(g, bitted, n0[root := r.ino]) && Own(g, bitted, n0[root := r.ino], owner, {})
             && forall c | 0 <= c < g.size :: BitOf(g, bitted, c) <==> c < used
    requires used <= g.Bpb() && d == Winode(g, disk, root, r)[g.bmapstart := BitmapOf(g.Bsize(), used)]
             && d == Bitted(g, Winode(g, disk, root, r), used)
    ensures Finished(g, Bitted(g, disk, used), n0, root, d, n0[root := r.ino], types, owner, used)
  {
    hide BitOf, Own, Bitted, Ref, NoHoles, Content, BitmapZero, Rounded, Geometry.Bsize, At,
         Geometry.Bpb, DiskOk, PlanOk, IsStored, ZeroBlock, BitmapOf, WithInode, InodeBlock, Shape, TailZero, Storable;
    PlanIs(g);
    var d0, n, b, block := Bitted(g, disk, used), n0[root := r.ino], InodeBlock(g, root), WithInode(g, disk, root, r);
    StoredIs(g, disk, root, types[root], n0[root]);
    SameView(g, d0, n, owner, b, block);
    RootContent(g, d0, n0, owner, root);
    RootRounding(g, d0, n0, root);
    forall j | j in n ensures IsStored(g, d, j, types[j], n[j]) {
      StoredAfter(g, disk, root, r, j, types[j], n[j]);
      StoredIs(g, Winode(g, disk, root, r), j, types[j], n[j]);
      StoredKept(g, Winode(g, disk, root, r), d, j, types[j], n[j]);
    }
  }

  /** The root's inode, with its size rounded, in its block. */
  lemma RootStored(g: Geometry, disk: Disk, n: nat, inodes: map<nat, Inode>, owner: map<nat, (nat, nat)>, root: nat,
                   d: Dinode)
    requires PlanOk(g) && DiskOk(g, disk) && BitmapZero(g, disk) && n <= g.size && OnDisk(g, disk, root)
    requires SnapshotOk(g, Snapshot(Bitted(g, disk, n), inodes, owner, {})) && root in inodes
    requires inodes[root].size <= g.Maxfile() * g.Bsize() && InodeBlock(g, root) < g.bmapstart
    requires d == Dinode(d.typ, 1, inodes[root].(size := Rounded(g, inodes[root].size))) && d.typ < SHORTS
    ensures Storable(g, d)
    ensures var b, block, bitted := InodeBlock(g, root), WithInode(g, disk, root, d), Bitted(g, disk, n);
            && |block| == g.Bsize() && DiskOk(g, disk[b := block]) && b != g.bmapstart
            && Bitted(g, disk[b := block], n) == bitted[b := block]
            && Shape(g, bitted, inodes[root := d.ino]) && Own(g, bitted, inodes[root := d.ino], owner, {})
            && forall c | 0 <= c < g.size :: BitOf(g, bitted, c) <==> c < n
  {
    hide BitOf, Own, Bitted, Ref, Rounded, BitmapZero, WithInode, PlanOk, Storable, NotBitmap, DiskOk;
    PlanIs(g);
    InodeNotBitmap(g, InodeBlock(g, root));
    BittedWrite(g, disk, n, InodeBlock(g, root), WithInode(g, disk, root, d));
    SizeKeepsOwn(g, Bitted(g, disk, n), inodes, owner, root, d.ino.size);
    RoundedFits(g, inodes[root].size);
    InodeStorable(g, Bitted(g, disk, n), inodes[root := d.ino], owner, root, d);
    BittedBits(g, disk, n);
  }

  lemma RoundedFits(g: Geometry, size: nat)
    requires PlanOk(g) && size <= g.Maxfile() * g.Bsize()
    ensures size < Rounded(g, size) < WORDS
  {
    hide Quot, Rem, GeometryOk;
    QuotRem(size, g.Bsize());
    Distribute(Bn(g, size), 1, g.Bsize());
    QuotMonotone(size, g.Maxfile() * g.Bsize(), g.Bsize());
    AtQuot(g.Maxfile(), 0, g.Bsize());
    MulMonotone(Bn(g, size) + 1, g.Maxfile() + 1, g.Bsize());
  }

  /** Writing an inode block changes no file, and no bit. */
  lemma SameView(g: Geometry, d: Disk, inodes: map<nat, Inode>, owner: map<nat, (nat, nat)>, b: nat, block: Block)
    requires GeometryOk(g) && Shape(g, d, inodes) && Own(g, d, inodes, owner, {})
    requires b < g.bmapstart && |block| == g.Bsize()
    ensures var d' := d[b := block];
            && Shape(g, d', inodes) && Own(g, d', inodes, owner, {})
            && (NoHoles(g, d', inodes) <==> NoHoles(g, d, inodes))
            && (forall j | j in inodes :: Content(g, d', inodes[j]) == Content(g, d, inodes[j]))
            && forall c | 0 <= c < g.size :: BitOf(g, d', c) <==> BitOf(g, d, c)
  {
    hide BitOf, Own, Content, Shape, Mapped, NotIndirect, NotBitmap;
    MetaKeepsOwn(g, d, inodes, owner, b, block);
    InodeNotBitmap(g, b);
    assert DiskOk(g, d) by { ShapeIs(g, d, inodes); }
    OtherKeepsBits(g, d, b, block);
    forall j | j in inodes
      ensures Content(g, d[b := block], inodes[j]) == Content(g, d, inodes[j])
      ensures Mapped(g, d[b := block], inodes[j], inodes[j].size) <==> Mapped(g, d, inodes[j], inodes[j].size) {
      MetaKeepsBytes(g, d, inodes, owner, b, block, j);
    }
  }

  lemma ShapeIs(g: Geometry, d: Disk, inodes: map<nat, Inode>)
    requires Shape(g, d, inodes)
    ensures DiskOk(g, d)
  {
  }

  /**
   Past its end the root's last block holds zeros, and the block after it, if the
   size is rounded to that, is missing.
   */
  lemma RootContent(g: Geometry, d: Disk, inodes: map<nat, Inode>, owner: map<nat, (nat, nat)>, root: nat)
    requires GeometryOk(g) && Shape(g, d, inodes) && Own(g, d, inodes, owner, {}) && root in inodes
    requires FileOk(g, d, inodes[root], inodes[root].size)
    ensures var ino, size := inodes[root], Rounded(g, inodes[root].size);
            size >= ino.size && Content(g, d, ino.(size := size)) == Content(g, d, ino) + ZeroBlock(size - ino.size)
  {
    hide Own, Shape, FileOk, ByteAt, BlockOf, Bn;
    var ino, size := inodes[root], Rounded(g, inodes[root].size);
    RoundedPast(g, ino.size);
    SizeKeepsBytes(g, d, ino, size);
    forall p | ino.size <= p < size ensures ByteAt(g, d, ino, p) == 0 {
      TailByte(g, d, inodes, owner, root, p);
    }
  }

  lemma RoundedPast(g: Geometry, size: nat)
    requires 0 < g.nindirect
    ensures size < Rounded(g, size)
  {
    hide Quot, Rem;
    QuotRem(size, g.Bsize());
    Distribute(Bn(g, size), 1, g.Bsize());
  }

  lemma TailByte(g: Geometry, d: Disk, inodes: map<nat, Inode>, owner: map<nat, (nat, nat)>, root: nat, p: nat)
    requires GeometryOk(g) && Shape(g, d, inodes) && Own(g, d, inodes, owner, {}) && root in inodes
    requires FileOk(g, d, inodes[root], inodes[root].size) && inodes[root].size <= p < Rounded(g, inodes[root].size)
    ensures ByteAt(g, d, inodes[root], p) == 0
  {
    hide Own, Shape, Ref, Quot, Rem;
    var n := inodes[root].size;
    QuotBelow(p, Bn(g, n) + 1, g.Bsize());
    BnMonotone(g, n, p);
    SameQuot(n, p, g.Bsize());
    CountAt(g, n);
    if At(g, n) == 0 && g.Maxfile() <= Bn(g, n) {
      PastMaxfile(g, d, inodes, owner, root, g.Slot(Bn(g, n)));
    }
  }

  lemma ZeroBitmap(g: Geometry, disk: Disk)
    requires GeometryOk(g) && DiskOk(g, disk) && forall b | 0 <= b < g.size :: disk[b] == ZeroBlock(g.Bsize())
    ensures BitmapZero(g, disk)
  {
    hide Bit, BitIndex;
    forall b | 0 <= b < g.size ensures !BitOf(g, disk, b) {
      BitIndexFits(g, b);
      BitOfZero(g.Bsize(), BitIndex(g, b));
    }
  }

  lemma EmptyMapped(g: Geometry, d: Disk, n: map<nat, Inode>, i: nat, ino: Inode)
    requires GeometryOk(g) && Shape(g, d, n) && i !in n && NoHoles(g, d, n)
    requires |ino.addrs| == g.ndirect + 1 && ino.size == 0 && forall k | 0 <= k <= g.ndirect :: ino.addrs[k] == 0
    ensures Shape(g, d, n[i := ino]) && NoHoles(g, d, n[i := ino]) && FileOk(g, d, ino, 0)
  {
    hide BitOf, BlockOf, DiskOk;
  }

  /** A new inode without blocks changes nothing about the others. */
  lemma EmptyInode(g: Geometry, d: Disk, n: map<nat, Inode>, o: map<nat, (nat, nat)>, i: nat, ino: Inode)
    requires GeometryOk(g) && Shape(g, d, n) && Own(g, d, n, o, {}) && i !in n && NoHoles(g, d, n)
    requires |ino.addrs| == g.ndirect + 1 && ino.size == 0 && forall k | 0 <= k <= g.ndirect :: ino.addrs[k] == 0
    ensures Shape(g, d, n[i := ino]) && Own(g, d, n[i := ino], o, {}) && NoHoles(g, d, n[i := ino])
            && FileOk(g, d, ino, 0)
  {
    hide BitOf, BlockOf, NoHoles;
    EmptyMapped(g, d, n, i, ino);
    var n' := n[i := ino];
    forall j: nat, k: nat | IsSlot(g, n', j, k) && Ref(g, d, n'[j], k) != 0 ensures Owns(o, Ref(g, d, n'[j], k), j, k) {
      assert IsSlot(g, n, j, k);
    }
  }

  lemma FillsMore(g: Geometry, s: Snapshot, s1: Snapshot, i: nat, ks: set<nat>, ms: set<nat>)
    requires Fills(g, s, s1, i, ks, {}) && ks <= ms
    ensures Fills(g, s, s1, i, ms, {})
  {
    hide Own, Grows, Logs, Shape;
    FillsNothing(g, s1, i, ms);
    var none: set<nat> := {};
    FillsTwice(g, s, s1, s1, i, ks, ms, ms, none, none);
    assert none + none == none;
  }

  lemma FillsOk(g: Geometry, s: Snapshot, s1: Snapshot, i: nat, ks: set<nat>, extra: set<nat>)
    requires Fills(g, s, s1, i, ks, extra)
    ensures SnapshotOk(g, s1) && i in s1.inodes
  {
  }

  /** The indirect block on the disk is the one of the disk as it will be. */
  lemma IndirectAt(g: Geometry, disk: Disk, n: nat, s: Snapshot, i: nat, j: nat)
    requires SnapshotOk(g, s) && i in s.inodes && j < g.nindirect && s.inodes[i].addrs[g.ndirect] != 0
    requires DiskOk(g, disk) && n <= g.size && s.disk == Bitted(g, disk, n) && BitmapZero(g, disk)
    ensures var ind := s.inodes[i].addrs[g.ndirect];
            && g.nmeta <= ind < n && ind in s.owner && ind in disk && |disk[ind]| == g.Bsize()
                && s.disk[ind] == disk[ind]
            && 0 <= Word(disk[ind], j) == Ref(g, s.disk, s.inodes[i], g.ndirect + 1 + j)
  {
    hide BitOf, Bitted, Word;
    IndirectWord(g, s.disk, s.inodes, s.owner, i, j);
    assert IsSlot(g, s.inodes, i, g.ndirect);
    var x := Ref(g, s.disk, s.inodes[i], g.ndirect);
    assert Owns(s.owner, x, i, g.ndirect);
    BittedData(g, disk, n);
    BittedBits(g, disk, n);
  }

  /** A data block is one that has been handed out. */
  lemma OwnedBelow(g: Geometry, disk: Disk, n: nat, s: Snapshot, i: nat, bn: nat)
    requires SnapshotOk(g, s) && i in s.inodes && bn < g.Maxfile() && Ref(g, s.disk, s.inodes[i], g.Slot(bn)) != 0
    requires DiskOk(g, disk) && n <= g.size && s.disk == Bitted(g, disk, n) && BitmapZero(g, disk)
    ensures var x := Ref(g, s.disk, s.inodes[i], g.Slot(bn));
            g.nmeta <= x < n && x in disk && |disk[x]| == g.Bsize() && x in s.disk && s.disk[x] == disk[x]
  {
    hide BitOf, Bitted, Ref;
    DataBlockOk(g, s.disk, s.inodes, s.owner, i, bn);
    BittedData(g, disk, n);
    BittedBits(g, disk, n);
  }

  lemma ProgressFacts(g: Geometry, s0: Snapshot, s: Snapshot, i: nat, off: nat, src: seq<int>, tot: nat, hi: nat)
    requires Progress(g, s0, s, i, off, src, tot, hi) && tot < |src|
    ensures SnapshotOk(g, s) && hi == Bn(g, off + tot) < g.Maxfile() && hi < EndBn(g, off, |src|)
  {
    hide Bn, Own, NoHoles, Wrote, GrowsRefs, WriteLogs, Ref, Geometry.Bsize, Geometry.Maxfile;
    BnBelow(g, off + tot);
    BnMonotone(g, off + tot, off + |src| - 1);
  }

  lemma ProgressKeys(g: Geometry, s0: Snapshot, s: Snapshot, i: nat, off: nat, src: seq<int>, tot: nat, hi: nat)
    requires Progress(g, s0, s, i, off, src, tot, hi)
    ensures i in s.inodes && s.inodes.Keys == s0.inodes.Keys && s.inodes[i].size == s0.inodes[i].size
  {
    hide Bn, Own, NoHoles, GrowsRefs, WriteLogs, Ref, Geometry.Bsize, Geometry.Maxfile;
  }

  /** Where a round cannot go on, the whole of the bytes has no room. */
  lemma Stopped(g: Geometry, off: nat, n: nat, tot: nat)
    requires 0 < g.nindirect && tot < n
    ensures g.Maxfile() <= Bn(g, off + tot) ==> g.Maxfile() * g.Bsize() < off + n
    ensures Takes(g, off + tot + RoundSize(g, off + tot, n - tot)) <= Takes(g, off + n)
  {
    hide Takes, RoundSize, Bn;
    if g.Maxfile() <= Bn(g, off + tot) {
      PastLimit(g, off + tot);
    }
    TakesMonotone(g, off + tot + RoundSize(g, off + tot, n - tot), off + n);
  }

  lemma BoundOf(g: Geometry, s0: Snapshot, s: Snapshot, i: nat, off: nat, q: seq<int>, tot: nat, hi: nat, j: nat)
    requires Progress(g, s0, s, i, off, q, tot, hi) && j in s0.inodes && j != i
    ensures j in s.inodes && s.inodes[j] == s0.inodes[j] && s.inodes[j].size <= g.Maxfile() * g.Bsize()
  {
    hide Bn, Own, GrowsRefs, WriteLogs, Ref, Geometry.Bsize, Geometry.Maxfile, Mapped, EndBn;
  }

  lemma AppendSplice(s: seq<int>, p: seq<int>)
    ensures Splice(s, |s|, p) == s + p
  {
  }

  /** The size, rounded up to the next multiple of BSIZE even when it is one. */
  function Rounded(g: Geometry, size: nat): nat
    requires 0 < g.nindirect
  {
    (Bn(g, size) + 1) * g.Bsize()
  }

  /**
   The root's size is rounded to the next multiple of BSIZE, even when it is
   one already; then, and only then, its last block is missing.
   */
  lemma RootRounding(g: Geometry, d: Disk, n: map<nat, Inode>, root: nat)
    requires 0 < g.nindirect && root in n && NoHoles(g, d, n) && ExactlyMapped(g, d, n[root], n[root].size)
    ensures var size := Rounded(g, n[root].size);
            NoHoles(g, d, n[root := n[root].(size := size)]) <==> At(g, n[root].size) != 0
  {
    hide Ref, BlockOf, Bn, At, Geometry.Bsize, Geometry.Maxfile;
    var ino := n[root];
    var size := Rounded(g, ino.size);
    var n' := n[root := ino.(size := size)];
    assert NoHoles(g, d, n') ==> Mapped(g, d, n'[root], size) && size <= g.Maxfile() * g.Bsize();
    SizeKeepsBytes(g, d, ino, size);
    if At(g, ino.size) != 0 {
      RoundedIsMapped(g, d, ino, size);
    } else {
      RoundedHasHole(g, d, ino, size);
    }
  }

  lemma RoundedIsMapped(g: Geometry, d: Disk, ino: Inode, size: nat)
    requires 0 < g.nindirect && Mapped(g, d, ino, ino.size) && ino.size <= g.Maxfile() * g.Bsize()
             && At(g, ino.size) != 0
    requires size == (Bn(g, ino.size) + 1) * g.Bsize()
    ensures Mapped(g, d, ino, size) && size <= g.Maxfile() * g.Bsize()
  {
    hide Ref, Quot, Rem, Geometry.Bsize, Geometry.Maxfile;
    LastByteBefore(ino.size, g.Bsize());
    assert BlockOf(g, d, ino, ino.size - 1) != 0;
    forall p | ino.size <= p < size ensures BlockOf(g, d, ino, p) != 0 {
      QuotBelow(p, Bn(g, ino.size) + 1, g.Bsize());
      BnMonotone(g, ino.size, p);
    }
    BnBelow(g, ino.size - 1);
    MulMonotone(Bn(g, ino.size) + 1, g.Maxfile(), g.Bsize());
  }

  lemma RoundedHasHole(g: Geometry, d: Disk, ino: Inode, size: nat)
    requires 0 < g.nindirect && ExactlyMapped(g, d, ino, ino.size) && At(g, ino.size) == 0
             && size == (Bn(g, ino.size) + 1) * g.Bsize()
    ensures !(Mapped(g, d, ino, size) && size <= g.Maxfile() * g.Bsize())
  {
    hide Ref, Quot, Rem, Geometry.Bsize, Geometry.Maxfile;
    var bn := Bn(g, ino.size);
    QuotRem(ino.size, g.Bsize());
    Distribute(bn, 1, g.Bsize());
    CountAt(g, ino.size);
    if bn < g.Maxfile() {
      assert BlockOf(g, d, ino, ino.size) == 0;
    } else {
      MulMonotone(g.Maxfile() + 1, bn + 1, g.Bsize());
      Distribute(g.Maxfile(), 1, g.Bsize());
    }
  }

  lemma FillsRef(g: Geometry, s: Snapshot, s1: Snapshot, i: nat, ks: set<nat>, extra: set<nat>, k: nat)
    requires Fills(g, s, s1, i, ks, extra) && k !in ks && k <= g.ndirect + g.nindirect
    ensures Ref(g, s1.disk, s1.inodes[i], k) == Ref(g, s.disk, s.inodes[i], k)
  {
    assert IsSlot(g, s.inodes, i, k);
  }
}
