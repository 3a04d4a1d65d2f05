/**
 main of mkfs/mkfs.c, from the file names on its command line to the finished image:
 when it gets to its end, what it then has put in the image, and that link counts are
 exact.
 */
module MkfsTree {
  import opened Arithmetic
  import opened Blocks
  import opened Fs
  import opened FileBytes
  import opened Dinodes
  import opened MkfsDisk
  import opened Mkfs
  import FileBudget
  import Links
  import Dirents

  /** A file to be put in the image, with its name as the shell gave it, and whether it can be opened. */
  datatype Source = Source(name: string, opens: bool, data: seq<int>)

  /** The argument without "user/". */
  function ShortName(arg: string): string {
    if 5 <= |arg| && arg[..5] == "user/" then arg[5..] else arg
  }

  /** A leading '_' is skipped, and the rest cut to the size of the name field. */
  function EntryName(arg: string): string {
    var name := ShortName(arg);
    Dirents.Cut(if name != "" && name[0] == '_' then name[1..] else name)
  }

  /** The first DIRSIZ characters of a name, or all of them. */
  ghost predicate IsCut(r: string, name: string) {
    r <= name && (r == name || |r| == Dirents.DIRSIZ)
  }

  /** With or without "user/" and an underscore, a file is entered under its own name. */
  lemma EntersName(name: string)
    requires (name == "" || name[0] != '_') && !("user/" <= name)
    ensures IsCut(EntryName("user/_" + name), name) && IsCut(EntryName("_" + name), name)
    ensures IsCut(EntryName("user/" + name), name) && IsCut(EntryName(name), name)
  {
    assert ("user/_" + name)[..5] == "user/" && ("user/_" + name)[5..] == "_" + name;
    assert ("user/" + name)[..5] == "user/" && ("user/" + name)[5..] == name;
    assert ("_" + name)[1..] == name;
    assert 5 <= |"_" + name| ==> ("_" + name)[..5][0] == '_';
    assert 5 <= |name| ==> name[..5] != "user/";
  }

  /** The root directory once the first k files are in. */
  function RootEntries(files: seq<Source>, k: nat): (es: seq<Links.Entry>)
    requires k <= |files|
    ensures |es| == k + 2 && es[0] == Links.Entry(".", Links.ROOTINO) && es[1] == Links.Entry("..", Links.ROOTINO)
    ensures forall i | 0 <= i < k :: es[i + 2] == Links.Entry(EntryName(files[i].name), i + 2)
  {
    if k == 0 then [Links.Entry(".", Links.ROOTINO), Links.Entry("..", Links.ROOTINO)]
    else RootEntries(files, k - 1) + [Links.Entry(EntryName(files[k - 1].name), k + 1)]
  }

  lemma RootEncodable(files: seq<Source>, k: nat)
    requires k <= |files| < 0xffff && forall i | 0 <= i < |files| :: Dirents.IsName(files[i].name)
    ensures forall i | 0 <= i < k + 2 :: Dirents.Encodable(RootEntries(files, k)[i])
  {
    hide RootEntries;
    forall i | 0 <= i < k + 2 ensures Dirents.Encodable(RootEntries(files, k)[i]) {
      if 2 <= i {
        assert RootEntries(files, k)[(i - 2) + 2] == Links.Entry(EntryName(files[i - 2].name), i);
        assert Dirents.IsName(files[i - 2].name);
      }
    }
  }

  // ---------- What the finished disk holds ----------

  /** Inode i can be read, is of this type and has one link. */
  predicate IsInode(g: Geometry, disk: Disk, i: nat, typ: nat)
    requires PackOk(g)
  {
    OnDisk(g, disk, i) && Rinode(g, disk, i).typ == typ && Rinode(g, disk, i).nlink == 1
  }

  /** The bytes of the file whose inode is i. */
  ghost function Stored(g: Geometry, disk: Disk, i: nat): seq<int>
    requires PackOk(g) && OnDisk(g, disk, i)
  {
    Content(g, disk, Rinode(g, disk, i).ino)
  }

  /** A directory with these entries, and empty ones after them. */
  ghost predicate Lists(entries: seq<Links.Entry>, es: seq<Links.Entry>) {
    es <= entries && forall k | |es| <= k < |entries| :: entries[k] == Links.Entry("", 0)
  }

  /** The root lists every file under its name, and every file has its bytes. */
  ghost predicate HoldsFiles(g: Geometry, disk: Disk, files: seq<Source>)
    requires PackOk(g)
  {
    && IsInode(g, disk, Links.ROOTINO, T_DIR)
    && Lists(Dirents.Entries(Stored(g, disk, Links.ROOTINO)), RootEntries(files, |files|))
    && forall i | 2 <= i < |files| + 2 :: IsInode(g, disk, i, T_FILE) && Stored(g, disk, i) == files[i - 2].data
  }

  function KindOf(typ: nat): Links.Kind {
    if typ == T_DIR then Links.Dir else if typ == T_FILE then Links.File else Links.Device
  }

  /** The tree that the inodes below n are. */
  ghost function Tree(g: Geometry, disk: Disk, n: nat): map<nat, Links.Node>
    requires PackOk(g)
  {
    map i: nat | 1 <= i < n && OnDisk(g, disk, i) && Rinode(g, disk, i).typ != 0 ::
      var d := Rinode(g, disk, i);
      Links.Node(KindOf(d.typ), d.nlink, if d.typ == T_DIR then Dirents.Entries(Stored(g, disk, i)) else [])
  }

  // ---------- Link counts ----------

  ghost predicate NoDots(files: seq<Source>) {
    forall i | 0 <= i < |files| :: !Links.IsDots(EntryName(files[i].name))
  }

  /** A tree with a root that lists the files, and no other directory. */
  ghost predicate IsTree(tree: map<nat, Links.Node>, files: seq<Source>) {
    && (forall i :: i in tree <==> 1 <= i < |files| + 2)
    && tree[Links.ROOTINO] == Links.Node(Links.Dir, 1, tree[Links.ROOTINO].entries)
    && Lists(tree[Links.ROOTINO].entries, RootEntries(files, |files|))
    && forall i | 2 <= i < |files| + 2 :: tree[i] == Links.Node(Links.File, 1, [])
  }

  lemma HeldTree(g: Geometry, disk: Disk, files: seq<Source>)
    requires PackOk(g) && HoldsFiles(g, disk, files)
    ensures IsTree(Tree(g, disk, |files| + 2), files)
  {
    hide Rinode, OnDisk, Lists, RootEntries, Stored;
    var tree := Tree(g, disk, |files| + 2);
    forall i: nat | 1 <= i < |files| + 2
      ensures i in tree && tree[i].nlink == 1
      ensures if i == 1 then tree[i].kind == Links.Dir && tree[i].entries == Dirents.Entries(Stored(g, disk, i))
              else tree[i] == Links.Node(Links.File, 1, []) {
      assert i != 1 ==> IsInode(g, disk, i, T_FILE);
    }
  }

  /** Counts are exact if and only if no file is called "." or "..". */
  lemma TreeCounts(tree: map<nat, Links.Node>, files: seq<Source>)
    requires IsTree(tree, files)
    ensures Links.LinksOk(tree, map[]) <==> NoDots(files)
  {
    hide RootEntries, Links.LinksOk, EntryName;
    if NoDots(files) {
      TreeOk(tree, files);
    }
    if Links.LinksOk(tree, map[]) {
      DotsShow(tree, files);
    }
  }

  lemma TreeOk(tree: map<nat, Links.Node>, files: seq<Source>)
    requires IsTree(tree, files) && NoDots(files)
    ensures Links.LinksOk(tree, map[])
  {
    hide RootEntries, Links.LinksOk, EntryName;
    var es := tree[Links.ROOTINO].entries;
    forall k | 2 <= k < |files| + 2 ensures es[k] == Links.Entry(EntryName(files[k - 2].name), k) {
      assert RootEntries(files, |files|)[(k - 2) + 2] == Links.Entry(EntryName(files[k - 2].name), k);
    }
    forall i | i in tree && i != Links.ROOTINO ensures exists k :: 2 <= k < |es| && es[k].inum == i {
      assert es[i].inum == i;
    }
    Links.MkfsCounts(tree);
  }

  lemma DotsShow(tree: map<nat, Links.Node>, files: seq<Source>)
    requires IsTree(tree, files) && Links.LinksOk(tree, map[])
    ensures NoDots(files)
  {
    hide RootEntries, EntryName;
    var es := tree[Links.ROOTINO].entries;
    assert Links.DirOk(tree, Links.ROOTINO);
    forall i | 0 <= i < |files| ensures !Links.IsDots(EntryName(files[i].name)) {
      assert RootEntries(files, |files|)[i + 2] == Links.Entry(EntryName(files[i].name), i + 2);
      assert es[i + 2].inum != 0;
    }
  }

  // ---------- What main needs ----------

  /** The blocks of the first k files. */
  function FileBlocks(g: Geometry, files: seq<Source>, k: nat): nat
    requires 0 < g.nindirect && k <= |files|
  {
    if k == 0 then 0 else FileBlocks(g, files, k - 1) + Takes(g, |files[k - 1].data|)
  }

  /** The blocks in use once the first k files are in. */
  function Used(g: Geometry, files: seq<Source>, k: nat): nat
    requires 0 < g.nindirect && k <= |files|
  {
    g.nmeta + Takes(g, Dirents.DIRENT * (k + 2)) + FileBlocks(g, files, k)
  }

  /** main accepts the name, can open the file, and it is not too long. */
  predicate IsFine(g: Geometry, f: Source) {
    '/' !in ShortName(f.name) && f.opens && |f.data| <= g.Maxfile() * g.Bsize()
  }

  /** There is room for the first k files and the directory that lists them. */
  predicate Fits(g: Geometry, files: seq<Source>, k: nat)
    requires 0 < g.nindirect && k <= |files|
  {
    && (forall i | 0 <= i < k :: IsFine(g, files[i]))
    && Dirents.DIRENT * (k + 2) <= g.Maxfile() * g.Bsize() && Used(g, files, k) <= g.size
  }

  /** So does main get to its end, unless it leaves the inode blocks. */
  predicate Builds(g: Geometry, files: seq<Source>)
    requires 0 < g.nindirect
  {
    Fits(g, files, |files|) && Used(g, files, |files|) < g.Bpb()
  }

  lemma {:induction false} FitsFewer(g: Geometry, files: seq<Source>, j: nat, k: nat)
    requires 0 < g.nindirect && j <= k <= |files|
    ensures Used(g, files, j) <= Used(g, files, k)
    ensures Fits(g, files, k) ==> Fits(g, files, j)
    decreases k
  {
    hide Takes, IsFine;
    if j < k {
      FitsFewer(g, files, j, k - 1);
      TakesMonotone(g, Dirents.DIRENT * (k + 1), Dirents.DIRENT * (k + 2));
    }
  }

  // ---------- main ----------

  /** A step is done; main has died; or it has written an inode outside the inode blocks. */
  datatype Outcome = Ran | Died | Left

  /** The loop that copies a file, at most BSIZE bytes at a time. */
  method CopyIn(img: Image, inum: nat, data: seq<int>) returns (ok: bool)
    requires img.Valid() && inum in img.inodes && img.inodes[inum].size == 0
    modifies img`disk, img`inodes, img`freeblock, img`owner
    ensures ok <==> |data| <= img.g.Maxfile() * img.g.Bsize() && old(img.freeblock) + Takes(img.g, |data|) <= img.g.size
    ensures ok ==> img.Valid() && img.inodes.Keys == old(img.inodes).Keys && img.Held(inum) == data
    ensures ok ==> img.freeblock == old(img.freeblock) + Takes(img.g, |data|)
    ensures ok ==> forall j | j in img.inodes && j != inum :: img.Held(j) == old(img.Held(j))
  {
    hide Content, NoHoles, SnapshotOk, Takes, PlanOk, Image.Packed, Image.Built, Image.Held, GeometryOk, PackOk, DiskOk,
         BitmapZero, ZeroBlock, FileOk, Geometry.Bsize, Geometry.Maxfile;
    PlanOf(img);
    NoBytes(img, inum);
    ok := true;
    var pos := 0;
    assert data[..0] == [];
    while pos < |data|
      invariant ok && 0 <= pos <= |data| && img.Valid() && img.inodes.Keys == old(img.inodes).Keys
      invariant img.inodes[inum].size == pos <= img.g.Maxfile() * img.g.Bsize()
      invariant img.freeblock == old(img.freeblock) + Takes(img.g, pos) && img.Held(inum) == data[..pos]
      invariant forall j | j in img.inodes && j != inum :: img.Held(j) == old(img.Held(j))
    {
      var cc := if |data| - pos < img.g.Bsize() then |data| - pos else img.g.Bsize();
      SomeBytes(img.g);
      TakesMonotone(img.g, pos + cc, |data|);
      ok := img.Iappend(inum, data[pos..pos + cc]);
      if !ok {
        return;
      }
      assert data[..pos] + data[pos..pos + cc] == data[..pos + cc];
      pos := pos + cc;
    }
    assert data[..pos] == data;
  }

  lemma NoBytes(img: Image, inum: nat)
    requires img.Valid() && inum in img.inodes && img.inodes[inum].size == 0
    ensures img.Held(inum) == [] && Takes(img.g, 0) == 0
  {
    hide NoHoles, SnapshotOk, BitmapZero, DiskOk, FileOk, Bitted, IsStored, GeometryOk;
  }

  lemma SomeBytes(g: Geometry)
    requires 0 < g.nindirect
    ensures 0 < g.Bsize()
  {
  }

  /** The image holds the root directory with the first k files, and these. */
  ghost predicate Done(img: Image, files: seq<Source>, k: nat)
    requires k <= |files|
    reads img
  {
    && img.Valid() && img.freeinode == k + 2 && (forall i :: i in img.inodes <==> 1 <= i < k + 2)
    && img.freeblock == Used(img.g, files, k) && TypesOk(img.types, k)
    && img.Held(Links.ROOTINO) == Dirents.EncodeAll(RootEntries(files, k))
    && forall i | 2 <= i < k + 2 :: img.Held(i) == files[i - 2].data
  }

  ghost predicate TypesOk(types: map<nat, nat>, k: nat) {
    Links.ROOTINO in types && types[Links.ROOTINO] == T_DIR
        && forall i | 2 <= i < k + 2 :: i in types && types[i] == T_FILE
  }

  /** File k has its inode and its entry, and is empty. */
  ghost predicate Listed(img: Image, files: seq<Source>, k: nat)
    requires k < |files|
    reads img
  {
    && img.Valid() && img.freeinode == k + 3 && (forall i :: i in img.inodes <==> 1 <= i < k + 3)
    && img.freeblock == ListedBlocks(img.g, files, k) && TypesOk(img.types, k + 1) && img.inodes[k + 2].size == 0
    && img.Held(Links.ROOTINO) == Dirents.EncodeAll(RootEntries(files, k + 1))
    && forall i | 2 <= i < k + 2 :: img.Held(i) == files[i - 2].data
  }

  function ListedBlocks(g: Geometry, files: seq<Source>, k: nat): nat
    requires 0 < g.nindirect && k < |files|
  {
    g.nmeta + Takes(g, Dirents.DIRENT * (k + 3)) + FileBlocks(g, files, k)
  }

  predicate RoomToList(g: Geometry, files: seq<Source>, k: nat)
    requires 0 < g.nindirect && k < |files|
  {
    Dirents.DIRENT * (k + 3) <= g.Maxfile() * g.Bsize() && ListedBlocks(g, files, k) <= g.size
  }

  /** The inode of file k, and its entry in the root. */
  method ListFile(img: Image, files: seq<Source>, k: nat) returns (out: Outcome)
    requires k < |files| && Done(img, files, k)
    modifies img
    ensures out == Left <==> Slots(img.g) <= k + 2
    ensures k + 2 < Slots(img.g) ==>
              (out == Ran <==> RoomToList(img.g, files, k))
    ensures out == Ran ==> Listed(img, files, k)
  {
    hide Content, EntryName, RootEntries, Takes, Dirents.Encode, Dirents.EncodeAll, Slots, Geometry.Bsize,
         Geometry.Maxfile, FileBlocks, Image.Valid, Image.Held, GeometryOk, PackOk;
    PlanOf(img);
    HeldSize(img, Links.ROOTINO);
    var inum, fits := img.Ialloc(T_FILE);
    if !fits {
      return Left;
    }
    var e := Links.Entry(EntryName(files[k].name), inum);
    var ok := img.Iappend(Links.ROOTINO, Dirents.Encode(e));
    if ok {
      Dirents.EncodeAppend(RootEntries(files, k), e);
      NextEntry(files, k);
    }
    return if ok then Ran else Died;
  }

  lemma HeldSize(img: Image, i: nat)
    requires img.Valid() && i in img.inodes
    ensures |img.Held(i)| == img.inodes[i].size
  {
    hide NoHoles, SnapshotOk, BitmapZero, DiskOk, FileOk, Bitted, IsStored, PlanOk, ZeroBlock;
  }

  lemma PlanOf(img: Image)
    requires img.Valid()
    ensures 0 < img.g.nindirect && 0 < img.g.ipb && img.g.inodestart < img.g.bmapstart
  {
    PlanIs(img.g);
  }

  lemma NextEntry(files: seq<Source>, k: nat)
    requires k < |files|
    ensures RootEntries(files, k + 1) == RootEntries(files, k) + [Links.Entry(EntryName(files[k].name), k + 2)]
  {
    hide EntryName;
  }

  /** One turn of main's loop over its arguments. */
  method AddFile(img: Image, files: seq<Source>, k: nat) returns (out: Outcome)
    requires k < |files| && Done(img, files, k) && Fits(img.g, files, k)
    modifies img
    ensures out == Left ==> Slots(img.g) <= k + 2
    ensures k + 2 < Slots(img.g) ==> (out == Ran <==> Fits(img.g, files, k + 1))
    ensures out == Ran ==> Done(img, files, k + 1) && Fits(img.g, files, k + 1)
  {
    hide Content, EntryName, RootEntries, Takes, Dirents.EncodeAll, Slots, Geometry.Bsize, Geometry.Maxfile,
         Image.Valid, Image.Held, GeometryOk, PackOk;
    PlanOf(img);
    if '/' in ShortName(files[k].name) || !files[k].opens {
      return Died;
    }
    out := ListFile(img, files, k);
    if out == Ran {
      ghost var f := img.freeblock;
      var ok := CopyIn(img, k + 2, files[k].data);
      out := if ok then Ran else Died;
    }
  }

  /** The root directory with its two dots. */
  method MakeRoot(img: Image, files: seq<Source>) returns (out: Outcome)
    requires img.Valid() && img.inodes == map[] && img.freeinode == 1 && img.freeblock == img.g.nmeta
    modifies img
    ensures out == Left <==> Slots(img.g) <= 1
    ensures 1 < Slots(img.g) ==> (out == Ran <==> Fits(img.g, files, 0))
    ensures out == Ran ==> Done(img, files, 0) && Fits(img.g, files, 0)
  {
    hide Content, Dirents.Encode, Takes, Slots, Geometry.Bsize, Geometry.Maxfile, Image.Valid, Image.Held, GeometryOk,
         PackOk;
    PlanOf(img);
    var dot, dots := Links.Entry(".", Links.ROOTINO), Links.Entry("..", Links.ROOTINO);
    var root, fits := img.Ialloc(T_DIR);
    if !fits {
      return Left;
    }
    NoBytes(img, root);
    TakesMonotone(img.g, Dirents.DIRENT, 2 * Dirents.DIRENT);
    var ok := img.Iappend(root, Dirents.Encode(dot));
    if ok {
      ok := img.Iappend(root, Dirents.Encode(dots));
      Dirents.EncodeAppend([], dot);
      Dirents.EncodeAppend([dot], dots);
      assert [] + [dot] == [dot] && [dot] + [dots] == [dot, dots];
      assert Dirents.EncodeAll([]) == [];
    }
    return if ok then Ran else Died;
  }

  /** main, from the zeroed image to the last file. */
  method Build(img: Image, files: seq<Source>) returns (out: Outcome)
    requires img.Valid() && img.inodes == map[] && img.freeinode == 1 && img.freeblock == img.g.nmeta
    modifies img
    ensures out == Left ==> Slots(img.g) <= |files| + 1
    ensures |files| + 1 < Slots(img.g) ==> (out == Ran <==> Fits(img.g, files, |files|))
    ensures out == Ran ==> Done(img, files, |files|)
  {
    hide Fits, Slots, Used, Done, Image.Valid;
    PlanOf(img);
    FitsFewer(img.g, files, 0, |files|);
    out := MakeRoot(img, files);
    var k := 0;
    while out == Ran && k < |files|
      invariant 0 <= k <= |files| && (out == Ran ==> Done(img, files, k) && Fits(img.g, files, k))
      invariant out == Left ==> Slots(img.g) <= |files| + 1
      invariant out == Died && |files| + 1 < Slots(img.g) ==> !Fits(img.g, files, |files|)
    {
      FitsFewer(img.g, files, k + 1, |files|);
      out := AddFile(img, files, k);
      k := k + 1;
    }
  }

  // ---------- The end ----------

  /** What is read of the finished disk through its inodes. */
  lemma {:induction false} FinishedReads(g: Geometry, d0: Disk, n0: map<nat, Inode>, d: Disk, n: map<nat, Inode>,
                                         types: map<nat, nat>, owner: map<nat, (nat, nat)>, used: nat,
                                         k: nat)
    requires Finished(g, d0, n0, Links.ROOTINO, d, n, types, owner, used) && TypesOk(types, k)
    requires forall i :: i in n0 <==> 1 <= i < k + 2
    ensures PackOk(g) && IsInode(g, d, Links.ROOTINO, T_DIR)
    ensures Links.ROOTINO in n && n0[Links.ROOTINO].size <= n[Links.ROOTINO].size
    ensures Stored(g, d, Links.ROOTINO)
            == Content(g, d0, n0[Links.ROOTINO]) + ZeroBlock(n[Links.ROOTINO].size - n0[Links.ROOTINO].size)
    ensures forall i | 2 <= i < k + 2 :: IsInode(g, d, i, T_FILE) && Stored(g, d, i) == Content(g, d0, n0[i])
  {
    hide Content, SnapshotOk, NoHoles, BitOf, Rounded, At, Rinode, PlanOk, ZeroBlock;
    PlanIs(g);
    StoredIs(g, d, Links.ROOTINO, T_DIR, n[Links.ROOTINO]);
    forall i | 2 <= i < k + 2 ensures IsInode(g, d, i, T_FILE) && Stored(g, d, i) == Content(g, d0, n0[i]) {
      assert i in n && n[i] == n0[i] && IsStored(g, d, i, types[i], n[i]);
      StoredIs(g, d, i, T_FILE, n[i]);
    }
  }

  /** The finished disk holds the files, if and only if their numbers fit the entries of a directory. */
  lemma {:induction false} FinishedHolds(g: Geometry, d0: Disk, n0: map<nat, Inode>, d: Disk, n: map<nat, Inode>,
                                         types: map<nat, nat>, owner: map<nat, (nat, nat)>, used: nat,
                                         files: seq<Source>)
    requires Finished(g, d0, n0, Links.ROOTINO, d, n, types, owner, used) && TypesOk(types, |files|)
    requires forall i :: i in n0 <==> 1 <= i < |files| + 2
    requires Content(g, d0, n0[Links.ROOTINO]) == Dirents.EncodeAll(RootEntries(files, |files|))
    requires forall i | 2 <= i < |files| + 2 :: Content(g, d0, n0[i]) == files[i - 2].data
    requires forall i | 0 <= i < |files| :: Dirents.IsName(files[i].name)
    ensures PackOk(g) && (HoldsFiles(g, d, files) <==> |files| + 1 < SHORTS)
  {
    hide Content, Finished, RootEntries, Dirents.Entries, Dirents.EncodeAll, Rinode, OnDisk, Stored, Lists,
         Dirents.IsName;
    FinishedReads(g, d0, n0, d, n, types, owner, used, |files|);
    RootLists(files, ZeroBlock(n[Links.ROOTINO].size - n0[Links.ROOTINO].size));
    forall i | 2 <= i < |files| + 2 ensures IsInode(g, d, i, T_FILE) && Stored(g, d, i) == files[i - 2].data {
      assert IsInode(g, d, i, T_FILE);
      assert Stored(g, d, i) == Content(g, d0, n0[i]);
    }
  }

  /** What is read of the root: the entries themselves if and only if their inode numbers fit 16 bits. */
  lemma {:induction false} RootLists(files: seq<Source>, pad: seq<int>)
    requires forall i | 0 <= i < |files| :: Dirents.IsName(files[i].name)
    requires forall i | 0 <= i < |pad| :: pad[i] == 0
    ensures var es := RootEntries(files, |files|);
            Lists(Dirents.Entries(Dirents.EncodeAll(es) + pad), es) <==> |files| + 1 < SHORTS
  {
    hide RootEntries, Dirents.Entries, Dirents.EncodeAll, Dirents.Encode, Dirents.Decode, Dirents.Encodable,
         Dirents.IsName, EntryName;
    var es := RootEntries(files, |files|);
    var read := Dirents.Entries(Dirents.EncodeAll(es) + pad);
    Dirents.EntriesAppend(Dirents.EncodeAll(es), pad);
    Dirents.ZeroEntries(pad);
    Dirents.EntriesOf(es);
    if |files| + 1 < SHORTS {
      RootEncodable(files, |files|);
      Dirents.EntriesRound(es);
    } else {
      var k := SHORTS - 2;
      assert es[k + 2] == Links.Entry(EntryName(files[k].name), SHORTS);
      Dirents.NumberIsCut(es[SHORTS]);
      assert read[SHORTS].inum == 0;
    }
  }

  /** Where the inode after the last would be, the bitmap holds a number that is no type of inode. */
  lemma BitmapIsNoInode(g: Geometry, disk: Disk, used: nat)
    requires PlanOk(g) && DiskOk(g, disk) && g.nmeta <= used < g.Bpb()
    ensures var d := disk[g.bmapstart := BitmapOf(g.Bsize(), used)];
            OnDisk(g, d, Slots(g)) && Rinode(g, d, Slots(g)).typ % 4 == 3
  {
    hide GeometryOk, DiskOk, Slots, Has, Word, BitmapOf;
    PlanIs(g);
    SlotIs(g, 0);
    var buf := BitmapOf(g.Bsize(), used);
    BitmapBits(g.Bsize(), used, 0);
    BitmapBits(g.Bsize(), used, 1);
    LowBits(buf);
    TypeIs(Word(buf, 0));
  }

  lemma LowBits(buf: Block)
    requires 4 <= |buf| && Bit(buf, 0) && Bit(buf, 1)
    ensures Word(buf, 0) % 4 == 3
  {
    assert Has(buf[0], 0) && Has(buf[0], 1);
    assert buf[0] % 2 == 1 && buf[0] / 2 % 2 == 1;
    assert Word(buf, 0) == buf[0] + 4 * (0x40 * buf[1] + 0x4000 * buf[2] + 0x40_0000 * buf[3]);
  }

  lemma TypeIs(w: int)
    ensures w % WORDS % SHORTS % 4 == w % 4
  {
    var a, v := w / WORDS, w % WORDS;
    var b, u := v / SHORTS, v % SHORTS;
    LowFour(w, 0x4000_0000 * a + 0x4000 * b, u);
  }

  lemma LowFour(w: int, m: int, u: int)
    requires w == 4 * m + u
    ensures w % 4 == u % 4
  {
  }

  /**
   The inodes on the disk make a file system the kernel's invariants hold of; the last
   block of the root is missing if and only if its n entries of 16 bytes fill their blocks.
   */
  ghost predicate IsSystem(g: Geometry, disk: Disk, inodes: map<nat, Inode>, owner: map<nat, (nat, nat)>, n: nat)
    requires PackOk(g)
  {
    && (forall i: nat :: i in inodes <==> 1 <= i < n)
    && (forall i | i in inodes :: OnDisk(g, disk, i) && Rinode(g, disk, i).ino == inodes[i])
    && InodesFit(g, inodes) && SnapshotOk(g, Snapshot(disk, inodes, owner, {}))
    && (NoHoles(g, disk, inodes) <==> At(g, Dirents.DIRENT * n) != 0)
  }

  /**
   main.  An inode written outside the inode blocks spoils the bitmap or data, and what
   follows is not traced: `rest` is the disk by the time balloc is called, `used` the
   number of blocks then in use, and `lives` whether mkfs gets that far; they may be
   anything.  In every other run main gets to its end if and only if the files fit; and in
   every run that does, the image holds the files if and only if their inode numbers fit
   the inode blocks and a directory entry.  Then the kernel's invariants hold of it, and
   its link counts are exact if and only if no file is called "." or "..".
   */
  method Make(img: Image, files: seq<Source>, rest: Disk, used: nat, lives: bool) returns (ok: bool)
    requires img.Valid() && img.inodes == map[] && img.freeinode == 1 && img.freeblock == img.g.nmeta
    requires forall i | 0 <= i < |files| :: Dirents.IsName(files[i].name)
    requires DiskOk(img.g, rest) && img.g.nmeta <= used
    modifies img
    ensures PackOk(img.g) && img.g.inodestart <= img.g.bmapstart
    ensures |files| + 1 < Slots(img.g) ==> (ok <==> Builds(img.g, files))
    ensures ok ==> (HoldsFiles(img.g, img.disk, files) <==> |files| + 1 < Slots(img.g) && |files| + 1 < SHORTS)
    ensures ok && HoldsFiles(img.g, img.disk, files) ==> IsSystem(img.g, img.disk, img.inodes, img.owner, |files| + 2)
    ensures ok && HoldsFiles(img.g, img.disk, files) ==>
              (Links.LinksOk(Tree(img.g, img.disk, |files| + 2), map[]) <==> NoDots(files))
  {
    hide IsSystem, Content, RootEntries, Dirents.EncodeAll, PlanOk, HoldsFiles, Slots, Fits, Used, Finished, NoDots,
         Links.LinksOk, Tree, DiskOk, Geometry.Bpb, BitmapOf, Done, TypesOk, Image.Valid, Image.Basics, Image.Built,
         Dirents.IsName, PackOk;
    PlanOf(img);
    PlanIn(img);
    var out := Build(img, files);
    if out == Died {
      return false;
    }
    if out == Left {
      if !lives {
        return false;
      }
      img.disk := rest;
      ok := img.Balloc(used);
      if ok {
        LeftShows(img.g, rest, used, files);
      }
      return;
    }
    NumbersFit(img, files);
    PlanIn(img);
    ghost var d0, n0 := img.Built(img.inodes, {}).disk, img.inodes;
    DoneIs(img, files, d0, n0);
    ok := img.Finish(Links.ROOTINO);
    if ok {
      FinishedHolds(img.g, d0, n0, img.disk, img.inodes, img.types, img.owner, img.freeblock, files);
      FinishedFacts(img.g, d0, n0, img.disk, img.inodes, img.types, img.owner, img.freeblock, |files|);
      if HoldsFiles(img.g, img.disk, files) {
        HeldTree(img.g, img.disk, files);
        TreeCounts(Tree(img.g, img.disk, |files| + 2), files);
      }
    }
  }

  lemma PlanIn(img: Image)
    requires img.Valid()
    ensures PlanOk(img.g) && PackOk(img.g) && img.Basics()
  {
    PlanIs(img.g);
  }

  /** What is in the image, on the disk as it will be. */
  lemma DoneIs(img: Image, files: seq<Source>, d0: Disk, n0: map<nat, Inode>)
    requires img.Basics() && Done(img, files, |files|) && d0 == img.Built(img.inodes, {}).disk && n0 == img.inodes
    ensures 0 < img.g.nindirect && (forall i :: i in n0 <==> 1 <= i < |files| + 2) && TypesOk(img.types, |files|)
    ensures Content(img.g, d0, n0[Links.ROOTINO]) == Dirents.EncodeAll(RootEntries(files, |files|))
    ensures n0[Links.ROOTINO].size == Dirents.DIRENT * (|files| + 2) && img.freeblock == Used(img.g, files, |files|)
    ensures forall i | 2 <= i < |files| + 2 :: Content(img.g, d0, n0[i]) == files[i - 2].data
  {
    hide Content, RootEntries, Dirents.EncodeAll, Image.Valid, Image.Built, Image.Basics, Used, PlanOk;
    PlanOf(img);
    assert img.Held(Links.ROOTINO) == Content(img.g, d0, n0[Links.ROOTINO]);
    forall i | 2 <= i < |files| + 2 ensures Content(img.g, d0, n0[i]) == files[i - 2].data {
      assert img.Held(i) == Content(img.g, d0, n0[i]);
    }
  }

  /** Inodes that are stored have numbers within the inode blocks. */
  lemma NumbersFit(img: Image, files: seq<Source>)
    requires Done(img, files, |files|)
    ensures img.Valid() && img.g.inodestart <= img.g.bmapstart && |files| + 1 < Slots(img.g)
  {
    hide Content, SnapshotOk, NoHoles, RootEntries, Dirents.EncodeAll, Rinode, Slots, BitmapZero, DiskOk, Bitted,
         FileOk, ZeroBlock, GeometryOk;
    PlanIs(img.g);
    assert |files| + 1 in img.inodes;
    SlotIs(img.g, |files| + 1);
    StoredIs(img.g, img.disk, |files| + 1, img.types[|files| + 1], img.inodes[|files| + 1]);
  }

  lemma LeftShows(g: Geometry, disk: Disk, used: nat, files: seq<Source>)
    requires PlanOk(g) && DiskOk(g, disk) && g.nmeta <= used < g.Bpb() && g.inodestart <= g.bmapstart
    requires Slots(g) <= |files| + 1 && PackOk(g)
    ensures !HoldsFiles(g, disk[g.bmapstart := BitmapOf(g.Bsize(), used)], files)
  {
    hide RootEntries, Rinode, Lists, PlanOk, DiskOk, GeometryOk, BitmapOf, Slots, Stored;
    BitmapIsNoInode(g, disk, used);
    SomeSlots(g);
    var d := disk[g.bmapstart := BitmapOf(g.Bsize(), used)];
    assert !IsInode(g, d, Slots(g), T_FILE) && !IsInode(g, d, Slots(g), T_DIR);
  }

  /** No disk with a bitmap in its first bitmap block holds the files. */
  ghost predicate NeverHeld(g: Geometry, files: seq<Source>)
    requires PackOk(g)
  {
    forall disk: Disk, used: nat | DiskOk(g, disk) && g.nmeta <= used < g.Bpb() ::
      !HoldsFiles(g, disk[g.bmapstart := BitmapOf(g.Bsize(), used)], files)
  }

  lemma TooMany(g: Geometry, files: seq<Source>)
    requires PlanOk(g) && Slots(g) <= |files| + 1
    ensures NeverHeld(g, files)
  {
    hide HoldsFiles, BitmapOf, DiskOk, GeometryOk, Slots;
    forall disk: Disk, used: nat | DiskOk(g, disk) && g.nmeta <= used < g.Bpb()
      ensures !HoldsFiles(g, disk[g.bmapstart := BitmapOf(g.Bsize(), used)], files) {
      LeftShows(g, disk, used, files);
    }
  }

  lemma SomeSlots(g: Geometry)
    requires PlanOk(g)
    ensures 1 <= Slots(g)
  {
    hide GeometryOk;
    MulMonotone(1, g.bmapstart - g.inodestart, g.ipb);
  }

  lemma FinishedFacts(g: Geometry, d0: Disk, n0: map<nat, Inode>, d: Disk, n: map<nat, Inode>, types: map<nat, nat>,
                      owner: map<nat, (nat, nat)>, used: nat, k: nat)
    requires Finished(g, d0, n0, Links.ROOTINO, d, n, types, owner, used)
    requires forall i :: i in n0 <==> 1 <= i < k + 2
    requires n0[Links.ROOTINO].size == Dirents.DIRENT * (k + 2)
    ensures PackOk(g) && IsSystem(g, d, n, owner, k + 2)
  {
    hide Content, SnapshotOk, NoHoles, BitOf, Rounded, At, Rinode, PlanOk, ZeroBlock;
    PlanIs(g);
    forall i | 1 <= i < k + 2 ensures i in n && OnDisk(g, d, i) && Rinode(g, d, i).ino == n[i] {
      StoredIs(g, d, i, types[i], n[i]);
    }
  }

  // ---------- Too many files ----------

  lemma {:induction false} EmptyTakeNone(g: Geometry, files: seq<Source>, k: nat)
    requires 0 < g.nindirect && k <= |files| && forall i | 0 <= i < |files| :: files[i].data == []
    ensures FileBlocks(g, files, k) == 0
    decreases k
  {
    if 0 < k {
      EmptyTakeNone(g, files, k - 1);
    }
  }

  /**
   With the numbers of param.h and NINODES 200, the inode blocks hold 208 inodes, the
   next is in the bitmap, and the one 16 after that in the root's first block.  207 empty
   files are one too many, though they fit otherwise: on no disk that balloc finishes are
   they there.
   */
  lemma OneTooMany() returns (g: Geometry, files: seq<Source>)
    ensures PlanOk(g) && NeverHeld(g, files)
    ensures Slots(g) == 208 && InodeBlock(g, 208) == g.bmapstart && InodeBlock(g, 224) == g.nmeta
    ensures |files| + 1 == Slots(g) && Builds(g, files) && NoDots(files)
    ensures forall i | 0 <= i < |files| :: Dirents.IsName(files[i].name)
    ensures g == FileBudget.Xv6(2000, 200)
  {
    hide *;
    g, files := FileBudget.Xv6(2000, 200), seq(207, i => Source("a", true, []));
    Xv6Plan();
    PlanIs(g);
    OnesFit(g, files);
    TooMany(g, files);
  }

  lemma Xv6Plan()
    ensures var g := FileBudget.Xv6(2000, 200);
            && PlanOk(g) && Slots(g) == 208 && InodeBlock(g, 208) == g.bmapstart && InodeBlock(g, 224) == g.nmeta
            && g.nmeta == 46 && g.size == 2000 && g.ndirect == 12 && g.nindirect == 256
  {
    hide FileBudget.Xv6, GeometryOk;
    FileBudget.Xv6Small();
    FileBudget.Xv6Is(2000, 200);
  }

  lemma OnesFit(g: Geometry, files: seq<Source>)
    requires g.nmeta == 46 && g.size == 2000 && g.ndirect == 12 && g.nindirect == 256 && |files| == 207
    requires forall i | 0 <= i < |files| :: files[i] == Source("a", true, [])
    ensures Builds(g, files) && NoDots(files) && forall i | 0 <= i < |files| :: Dirents.IsName(files[i].name)
  {
    EmptyTakeNone(g, files, 207);
    assert DataCount(g, 3344) == 4;
  }
}
