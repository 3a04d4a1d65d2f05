/**
 Sv39 page tables as kernel/vm.c keeps them in physical memory (section 4.4 of
 the RISC-V Privileged Architecture, version 20211203).

 Memory is a map from the address of a page to its 512 words.  `owner` is ghost
 knowledge: which pages are page-table pages, and where each hangs in which
 tree.  Under the shape invariant `Tree`, a page table is a flat map from
 virtual page numbers to PTEs (`View`), and the two ways vm.c changes a table
 page act on that map as insert or delete, and as nothing at all.
 */
module PageTable {

  type Page = seq<nat>

  type Memory = map<nat, Page>

  const PGSIZE := 4096
  const MAXVA := 0x40_0000_0000                // 1L << (9 + 9 + 9 + 12 - 1)
  const VPNS := 0x400_0000                     // MAXVA / PGSIZE

  const PTE_V := 1
  const PTE_R := 2
  const PTE_W := 4
  const PTE_X := 8
  const PTE_U := 16

  // ---------- Page-table entries ----------

  function Pa2Pte(pa: nat): nat {
    pa / 4096 * 1024
  }

  function Pte2Pa(pte: nat): nat {
    pte / 1024 * 4096
  }

  function Flags(pte: nat): nat {
    pte % 1024
  }

  predicate IsValid(pte: nat) {
    pte % 2 == 1
  }

  /** PA2PTE(pa) | flags | PTE_V, for flags of ten bits. */
  function MakePte(pa: nat, flags: nat): nat
    requires flags < 1024
  {
    Pa2Pte(pa) + flags + if flags % 2 == 0 then 1 else 0
  }

  /** PTE2PA and PTE_FLAGS undo PA2PTE(pa) | perm | PTE_V for a page-aligned address. */
  lemma PteRoundTrip(pa: nat, flags: nat)
    requires pa % 4096 == 0 && flags < 1024
    ensures Pte2Pa(MakePte(pa, flags)) == pa
    ensures Flags(MakePte(pa, flags)) == flags + if flags % 2 == 0 then 1 else 0
    ensures IsValid(MakePte(pa, flags))
  {
    Unpack(pa / 4096, flags + if flags % 2 == 0 then 1 else 0);
  }

  lemma Unpack(q: nat, f: nat)
    requires f < 1024
    ensures (q * 1024 + f) / 1024 == q && (q * 1024 + f) % 1024 == f && (q * 1024 + f) % 2 == f % 2
  {
  }

  /** PX(level, va): the nine-bit index of va at a level. */
  function Px(level: nat, va: nat): (i: nat)
    requires level <= 2
    ensures i < 512
  {
    (if level == 0 then va / 0x1000 else if level == 1 then va / 0x20_0000 else va / 0x4000_0000) % 512
  }

  /** Below MAXVA the three indices name the virtual page, and nothing else does. */
  lemma PxNamesPage(va: nat, vb: nat)
    requires va < MAXVA && vb < MAXVA
    ensures Px(2, va) == Px(2, vb) && Px(1, va) == Px(1, vb) && Px(0, va) == Px(0, vb) <==> va / PGSIZE == vb / PGSIZE
  {
    PxOfPage(va);
    PxOfPage(vb);
  }

  lemma PxOfPage(va: nat)
    requires va < MAXVA
    ensures va / PGSIZE < VPNS && Px(2, va) < 256
    ensures va / PGSIZE == Px(2, va) * 0x4_0000 + Px(1, va) * 512 + Px(0, va)
    ensures Px(2, va) == I2(va / PGSIZE) && Px(1, va) == I1(va / PGSIZE) && Px(0, va) == I0(va / PGSIZE)
  {
    var v := va / PGSIZE;
    assert va / 0x20_0000 == v / 512 && va / 0x4000_0000 == v / 0x4_0000;
    Recompose(v);
  }

  function I2(v: nat): (i: nat) ensures i < 512 { v / 0x4_0000 % 512 }
  function I1(v: nat): (i: nat) ensures i < 512 { v / 512 % 512 }
  function I0(v: nat): (i: nat) ensures i < 512 { v % 512 }

  lemma IndicesNamePage(v: nat, w: nat)
    requires v < VPNS && w < VPNS
    requires I2(v) == I2(w) && I1(v) == I1(w) && I0(v) == I0(w)
    ensures v == w
  {
    hide I2, I1, I0;
    Recompose(v);
    Recompose(w);
  }

  lemma Recompose(v: nat)
    requires v < VPNS
    ensures v == I2(v) * 0x4_0000 + I1(v) * 512 + I0(v)
  {
    var q := v / 512;
    assert v == q * 512 + I0(v);
    assert q == q / 512 * 512 + I1(v);
    assert q / 512 == v / 0x4_0000;
  }

  // ---------- The tree ----------

  /** A table page: the tree it belongs to, the indices leading to it, and the page above it. */
  datatype Node = Node(root: nat, path: seq<nat>, up: nat)

  /** Entry i of this table may point to another table. */
  ghost predicate RoomFor(node: Node, i: nat) {
    |node.path| < 2 && i < 512 && (node.path == [] ==> i < 256)
  }

  ghost predicate Pages(m: Memory) {
    forall f | f in m :: |m[f]| == 512 && f % 4096 == 0 && 0 < f
  }

  /** Entry i of table f, which is not of the lowest level, is empty or points to the right child. */
  ghost predicate EntryOk(m: Memory, owner: map<nat, Node>, f: nat, i: nat)
    requires Pages(m) && f in owner && f in m && i < 512
  {
    var pte := m[f][i];
    IsValid(pte) && |owner[f].path| < 2 ==>
      var child := Pte2Pa(pte);
      child in owner && owner[child] == Node(owner[f].root, owner[f].path + [i], f) && pte == MakePte(child, 0)
  }

  /** A table page below the root is pointed to by the page above it. */
  ghost predicate LinkOk(m: Memory, owner: map<nat, Node>, f: nat)
    requires Pages(m) && f in owner
  {
    var node := owner[f];
    && f in m
    && |node.path| <= 2
    && (node.path == [] ==> node.root == f && node.up == f)
    && (node.path != [] ==>
          var i := node.path[|node.path| - 1];
          && i < 512 && node.path[0] < 256         // the root's upper half is beyond MAXVA
          && node.up in owner && node.up in m
          && owner[node.up].root == node.root && owner[node.up].path == node.path[..|node.path| - 1]
          && m[node.up][i] == MakePte(f, 0))
  }

  /** The tree shape, except that one entry (of table f at i) is free to be anything. */
  ghost predicate TreeBut(m: Memory, owner: map<nat, Node>, hole: nat, at: nat) {
    && Pages(m)
    && (forall f | f in owner :: LinkOk(m, owner, f))
    && (forall f, i | f in owner && 0 <= i < 512 && !(f == hole && i == at) :: EntryOk(m, owner, f, i))
  }

  ghost predicate Tree(m: Memory, owner: map<nat, Node>) {
    TreeBut(m, owner, 0, 0) && 0 !in owner
  }

  // ---------- The flat view ----------

  /** The table below entry i of table f, or 0. */
  function Child(m: Memory, f: nat, i: nat): nat
    requires i < 512
  {
    if f in m && |m[f]| == 512 && IsValid(m[f][i]) then Pte2Pa(m[f][i]) else 0
  }

  /** The lowest-level table for virtual page v, or 0. */
  function LeafTable(m: Memory, root: nat, v: nat): nat {
    Child(m, Child(m, root, I2(v)), I1(v))
  }

  /** The PTE of virtual page v, or 0 when v is not mapped. */
  function Leaf(m: Memory, root: nat, v: nat): nat {
    var t := LeafTable(m, root, v);
    if t in m && |m[t]| == 512 && IsValid(m[t][I0(v)]) then m[t][I0(v)] else 0
  }

  /** What a page table means: the valid PTEs by virtual page number. */
  ghost function View(m: Memory, root: nat): map<nat, nat> {
    map v: nat | v < VPNS && Leaf(m, root, v) != 0 :: Leaf(m, root, v)
  }

  ghost predicate IsRoot(owner: map<nat, Node>, r: nat) {
    r in owner && owner[r].path == []
  }

  /** A child found by following a valid entry is the owned table with that path. */
  lemma ChildIsOwned(m: Memory, owner: map<nat, Node>, f: nat, i: nat)
    requires Tree(m, owner) && f in owner && |owner[f].path| < 2 && i < 512
    ensures Child(m, f, i) != 0 ==>
              Child(m, f, i) in owner && owner[Child(m, f, i)] == Node(owner[f].root, owner[f].path + [i], f)
    ensures Child(m, f, i) == 0 <==> !IsValid(m[f][i])
  {
    assert LinkOk(m, owner, f) && EntryOk(m, owner, f, i);
  }

  lemma ChildOfNone(m: Memory, i: nat)
    requires Pages(m) && i < 512
    ensures Child(m, 0, i) == 0
  {
  }

  /** walk() without allocation ends at the owned table of the path, or nowhere. */
  lemma LeafTableIsOwned(m: Memory, owner: map<nat, Node>, r: nat, v: nat)
    requires Tree(m, owner) && IsRoot(owner, r)
    ensures var t := LeafTable(m, r, v);
            t != 0 ==> t in owner && owner[t].root == r && owner[t].path == [I2(v), I1(v)]
  {
    assert LinkOk(m, owner, r);
    ChildIsOwned(m, owner, r, I2(v));
    var t1 := Child(m, r, I2(v));
    if t1 == 0 {
      ChildOfNone(m, I1(v));
    } else {
      ChildIsOwned(m, owner, t1, I1(v));
      assert [] + [I2(v)] + [I1(v)] == [I2(v), I1(v)];
    }
  }

  /** Two owned tables with the same tree and path are the same page: tables are not shared. */
  lemma {:induction false} TablesUnshared(m: Memory, owner: map<nat, Node>, f: nat, g: nat)
    requires Tree(m, owner) && f in owner && g in owner
    requires owner[f].root == owner[g].root && owner[f].path == owner[g].path
    ensures f == g
    decreases |owner[f].path|
  {
    assert LinkOk(m, owner, f) && LinkOk(m, owner, g);
    if owner[f].path != [] {
      TablesUnshared(m, owner, owner[f].up, owner[g].up);
      PteRoundTrip(f, 0);
      PteRoundTrip(g, 0);
    }
  }

  /** Every lowest-level table is the one walk() finds for some page, whatever index is used in it. */
  lemma LeafTableOf(m: Memory, owner: map<nat, Node>, f: nat, i: nat) returns (v: nat)
    requires Tree(m, owner) && f in owner && |owner[f].path| == 2 && i < 512
    ensures v < VPNS && LeafTable(m, owner[f].root, v) == f && I0(v) == i && IsRoot(owner, owner[f].root)
  {
    assert LinkOk(m, owner, f);
    var t1 := owner[f].up;
    assert LinkOk(m, owner, t1);
    var r := owner[t1].up;
    assert LinkOk(m, owner, r);
    assert r == owner[f].root;
    assert owner[t1].path[0] == owner[f].path[0];
    v := owner[f].path[0] * 0x4_0000 + owner[f].path[1] * 512 + i;
    Compose(owner[f].path[0], owner[f].path[1], i);
    PteRoundTrip(t1, 0);
    PteRoundTrip(f, 0);
  }

  lemma Compose(a: nat, b: nat, i: nat)
    requires a < 256 && b < 512 && i < 512
    ensures var v := a * 0x4_0000 + b * 512 + i; v < VPNS && I2(v) == a && I1(v) == b && I0(v) == i
  {
    var v := a * 0x4_0000 + b * 512 + i;
    assert v / 512 == a * 512 + b;
    assert v / 0x4_0000 == a;
  }

  // ---------- Changes that do not touch table pages ----------

  ghost predicate SameTables(m: Memory, m': Memory, owner: map<nat, Node>) {
    forall f | f in owner :: f in m && f in m' && m'[f] == m[f]
  }

  lemma TreeFrame(m: Memory, m': Memory, owner: map<nat, Node>)
    requires Tree(m, owner) && Pages(m') && SameTables(m, m', owner)
    ensures Tree(m', owner)
  {
    forall f | f in owner ensures LinkOk(m', owner, f) {
      assert LinkOk(m, owner, f);
    }
    forall f, i | f in owner && 0 <= i < 512 ensures EntryOk(m', owner, f, i) {
      assert EntryOk(m, owner, f, i);
    }
  }

  lemma LeafFrame(m: Memory, m': Memory, owner: map<nat, Node>, r: nat, v: nat)
    requires Tree(m, owner) && Pages(m') && SameTables(m, m', owner) && IsRoot(owner, r)
    ensures LeafTable(m', r, v) == LeafTable(m, r, v) && Leaf(m', r, v) == Leaf(m, r, v)
  {
    LeafTableIsOwned(m, owner, r, v);
    assert LinkOk(m, owner, r);
    ChildIsOwned(m, owner, r, I2(v));
    var t1 := Child(m, r, I2(v));
    if t1 == 0 {
      ChildOfNone(m, I1(v));
      ChildOfNone(m', I1(v));
    }
  }

  // ---------- Writing a lowest-level entry ----------

  function Put(page: Page, i: nat, pte: nat): Page
    requires i < |page|
  {
    page[i := pte]
  }

  function SetEntry(m: Memory, f: nat, i: nat, pte: nat): Memory
    requires f in m && i < |m[f]|
  {
    m[f := Put(m[f], i, pte)]
  }

  lemma SetLeafTree(m: Memory, owner: map<nat, Node>, t: nat, i: nat, pte: nat)
    requires Tree(m, owner) && t in owner && |owner[t].path| == 2 && i < 512
    ensures t in m && Tree(SetEntry(m, t, i, pte), owner)
  {
    assert LinkOk(m, owner, t);
    var m' := SetEntry(m, t, i, pte);
    forall f | f in owner ensures LinkOk(m', owner, f) {
      assert LinkOk(m, owner, f);
    }
    forall f, j | f in owner && 0 <= j < 512 ensures EntryOk(m', owner, f, j) {
      assert EntryOk(m, owner, f, j);
    }
  }

  /** Writing the lowest-level entry of page w changes the mapping of w and of no other page of any tree. */
  lemma SetLeafView(m: Memory, owner: map<nat, Node>, t: nat, w: nat, pte: nat, r: nat, v: nat)
    requires Tree(m, owner) && t in owner && IsRoot(owner, owner[t].root) && w < VPNS
    requires owner[t].path == [I2(w), I1(w)] && LeafTable(m, owner[t].root, w) == t
    requires IsRoot(owner, r) && v < VPNS
    ensures t in m && Leaf(SetEntry(m, t, I0(w), pte), r, v) ==
                      if r == owner[t].root && v == w then (if IsValid(pte) then pte else 0) else Leaf(m, r, v)
  {
    hide I0, I1, I2, EntryOk, MakePte, Pte2Pa;
    assert LinkOk(m, owner, t) && LinkOk(m, owner, r);
    var m' := SetEntry(m, t, I0(w), pte);
    LeafTableIsOwned(m, owner, r, v);
    ChildIsOwned(m, owner, r, I2(v));
    var t1 := Child(m, r, I2(v));
    assert Child(m', r, I2(v)) == t1;
    if t1 == 0 {
      ChildOfNone(m, I1(v));
      SetLeafTree(m, owner, t, I0(w), pte);
      ChildOfNone(m', I1(v));
    }
    assert LeafTable(m', r, v) == LeafTable(m, r, v);
    if LeafTable(m, r, v) == t && I0(v) == I0(w) {
      assert owner[t].path[0] == I2(v) && owner[t].path[1] == I1(v);
      IndicesNamePage(v, w);
    }
  }

  // ---------- Hanging a zeroed page into the tree ----------

  function ZeroPage(): (page: Page)
    ensures |page| == 512 && forall i | 0 <= i < 512 :: page[i] == 0
  {
    seq(512, i => 0)
  }

  function AddTable(m: Memory, f: nat, t: nat, i: nat): Memory
    requires t in m && i < |m[t]| && t != f
  {
    m[f := ZeroPage()][t := Put(m[t], i, MakePte(f, 0))]
  }

  lemma AddTableTree(m: Memory, owner: map<nat, Node>, f: nat, t: nat, i: nat)
    requires Tree(m, owner) && t in owner && RoomFor(owner[t], i)
    requires f in m && f !in owner && t in m && !IsValid(m[t][i])
    ensures Tree(AddTable(m, f, t, i), owner[f := Node(owner[t].root, owner[t].path + [i], t)])
  {
    hide LinkOk, EntryOk;
    var m', owner' := AddTable(m, f, t, i), owner[f := Node(owner[t].root, owner[t].path + [i], t)];
    forall g | g in owner' ensures g in m' && LinkOk(m', owner', g) {
      AddTableLink(m, owner, f, t, i, g);
    }
    forall g, j | g in owner' && 0 <= j < 512 ensures EntryOk(m', owner', g, j) {
      AddTableLink(m, owner, f, t, i, g);
      AddTableEntry(m, owner, f, t, i, g, j);
    }
  }

  lemma AddTableEntry(m: Memory, owner: map<nat, Node>, f: nat, t: nat, i: nat, g: nat, j: nat)
    requires Tree(m, owner) && t in owner && RoomFor(owner[t], i)
    requires f in m && f !in owner && t in m && !IsValid(m[t][i]) && j < 512
    requires var o' := owner[f := Node(owner[t].root, owner[t].path + [i], t)];
             g in o' && Pages(AddTable(m, f, t, i)) && g in AddTable(m, f, t, i)
    ensures EntryOk(AddTable(m, f, t, i), owner[f := Node(owner[t].root, owner[t].path + [i], t)], g, j)
  {
    PteRoundTrip(f, 0);
    if g != f {
      assert EntryOk(m, owner, g, j);
    }
  }

  lemma AddTableLink(m: Memory, owner: map<nat, Node>, f: nat, t: nat, i: nat, g: nat)
    requires Tree(m, owner) && t in owner && RoomFor(owner[t], i)
    requires f in m && f !in owner && t in m && !IsValid(m[t][i])
             && g in owner[f := Node(owner[t].root, owner[t].path + [i], t)]
    ensures Pages(AddTable(m, f, t, i)) && g in AddTable(m, f, t, i)
    ensures LinkOk(AddTable(m, f, t, i), owner[f := Node(owner[t].root, owner[t].path + [i], t)], g)
  {
    PteRoundTrip(f, 0);
    if g != f {
      assert LinkOk(m, owner, g);
      PteRoundTrip(g, 0);
    } else {
      assert (owner[t].path + [i])[..|owner[t].path|] == owner[t].path;
    }
  }

  /** A page-table page that walk() adds leaves every mapping of every tree as it was. */
  lemma AddTableView(m: Memory, owner: map<nat, Node>, f: nat, t: nat, i: nat, r: nat, v: nat)
    requires Tree(m, owner) && t in owner && RoomFor(owner[t], i)
    requires f in m && f !in owner && t in m && !IsValid(m[t][i])
    requires IsRoot(owner, r)
    ensures Leaf(AddTable(m, f, t, i), r, v) == Leaf(m, r, v)
  {
    hide I0, I1, I2, EntryOk, MakePte;
    var m' := AddTable(m, f, t, i);
    PteRoundTrip(f, 0);
    assert LinkOk(m, owner, r);
    ChildIsOwned(m, owner, r, I2(v));
    LeafTableIsOwned(m, owner, r, v);
    ChildOfNone(m, I1(v));
    assert forall j | 0 <= j < 512 :: Child(m', f, j) == 0;
    assert Child(m', 0, I1(v)) == 0;
    var t1 := Child(m, r, I2(v));
    if r == t && I2(v) == i {
      assert t1 == 0 && Child(m', r, I2(v)) == f;
    } else {
      assert Child(m', r, I2(v)) == t1;
      if t1 == t && t1 != 0 && I1(v) == i {
        assert LeafTable(m', r, v) == f && LeafTable(m, r, v) == 0;
      }
    }
  }
}
