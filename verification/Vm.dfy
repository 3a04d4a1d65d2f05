/**
 The page allocator of kernel/kalloc.c and the page-table operations of
 kernel/vm.c, as an object that owns physical memory.

 Every page of RAM is exactly one of: on the free list, a page-table page, a
 user page mapped at one place, or held by some other part of the kernel.  That
 partition is the object's invariant, so every method conserves frames.
 */
module Vm {
  import opened PageTable

  ghost function Elems(s: seq<nat>): set<nat> {
    set f | f in s
  }

  ghost predicate NoDups(s: seq<nat>) {
    forall i, j | 0 <= i < j < |s| :: s[i] != s[j]
  }

  /** Free frames, table frames, user frames and held frames partition memory. */
  ghost predicate Partition(all: set<nat>, free: seq<nat>, tables: set<nat>, users: set<nat>, held: set<nat>) {
    && NoDups(free)
    && Elems(free) !! tables && Elems(free) !! users && Elems(free) !! held
    && tables !! users && tables !! held && users !! held
    && all == Elems(free) + tables + users + held
  }

  /** A user frame is mapped by the tree and page it is booked for. */
  ghost predicate UsersOk(m: Memory, owner: map<nat, Node>, users: map<nat, (nat, nat)>) {
    forall f | f in users ::
      && IsRoot(owner, users[f].0) && users[f].1 < VPNS
      && Leaf(m, users[f].0, users[f].1) != 0 && Pte2Pa(Leaf(m, users[f].0, users[f].1)) == f
  }

  lemma TakeFree(all: set<nat>, free: seq<nat>, tables: set<nat>, users: set<nat>, held: set<nat>)
    requires Partition(all, free, tables, users, held) && free != []
    ensures free[0] in all && free[0] !in tables && free[0] !in users && free[0] !in held
    ensures Partition(all, free[1..], tables, users, held + {free[0]})
  {
    assert free == [free[0]] + free[1..];
    assert Elems(free) == {free[0]} + Elems(free[1..]);
    assert free[0] in Elems(free);
    forall f | f in Elems(free[1..]) ensures f != free[0] {
    }
  }

  lemma PutFree(all: set<nat>, free: seq<nat>, tables: set<nat>, users: set<nat>, held: set<nat>, f: nat)
    requires Partition(all, free, tables, users, held) && f in held
    ensures Partition(all, [f] + free, tables, users, held - {f})
  {
    assert Elems([f] + free) == {f} + Elems(free);
    assert f !in Elems(free);
  }

  lemma HeldBecomesTable(all: set<nat>, free: seq<nat>, tables: set<nat>, users: set<nat>, held: set<nat>, f: nat)
    requires Partition(all, free, tables, users, held) && f in held
    ensures Partition(all, free, tables + {f}, users, held - {f})
  {
  }

  lemma UserBecomesHeld(all: set<nat>, free: seq<nat>, tables: set<nat>, users: set<nat>, held: set<nat>, f: nat)
    requires Partition(all, free, tables, users, held) && f in users
    ensures Partition(all, free, tables, users - {f}, held + {f})
  {
  }

  lemma HeldBecomesUser(all: set<nat>, free: seq<nat>, tables: set<nat>, users: set<nat>, held: set<nat>, f: nat)
    requires Partition(all, free, tables, users, held) && f in held
    ensures Partition(all, free, tables, users + {f}, held - {f})
  {
  }

  /** Table pages may have been added; what is not a table page is as it was. */
  ghost predicate Extends(m: Memory, owner: map<nat, Node>, m': Memory, owner': map<nat, Node>) {
    && m'.Keys == m.Keys
    && MoreTables(owner, owner')
    && (forall f | f in m && f !in owner' :: m'[f] == m[f])
  }

  /** Table pages below the roots may have been added. */
  ghost predicate MoreTables(owner: map<nat, Node>, owner': map<nat, Node>) {
    && (forall f | f in owner :: f in owner' && owner'[f] == owner[f])
    && (forall f | f in owner' && f !in owner :: owner'[f].path != [])
  }

  /** From (m, owner) to (m', owner') only table pages were added, and no mapping changed. */
  ghost predicate Grew(m: Memory, owner: map<nat, Node>, m': Memory, owner': map<nat, Node>) {
    && Extends(m, owner, m', owner')
    && SameMappings(m, owner, m')
  }

  ghost predicate SameMappings(m: Memory, owner: map<nat, Node>, m': Memory) {
    forall r, v | IsRoot(owner, r) :: Leaf(m', r, v) == Leaf(m, r, v)
  }

  /** The entry of page v when pages from `first` on map consecutive frames from pa on. */
  function PteFor(pa: nat, first: nat, v: nat, perm: nat): nat
    requires first <= v && perm < 1024
  {
    MakePte(pa + (v - first) * PGSIZE, perm)
  }

  /** Grew, and the k pages from `first` on of tree `root` now map consecutive frames from pa on. */
  ghost predicate Maps(m: Memory, owner: map<nat, Node>, m': Memory, owner': map<nat, Node>,
                       root: nat, first: nat, k: nat, pa: nat, perm: nat)
    requires perm < 1024
  {
    && Extends(m, owner, m', owner')
    && (forall r, v | IsRoot(owner, r) && 0 <= v < VPNS ::
          Leaf(m', r, v) == if r == root && first <= v < first + k then PteFor(pa, first, v, perm) else Leaf(m, r, v))
  }

  lemma MapsStart(m: Memory, o: map<nat, Node>, root: nat, first: nat, pa: nat, perm: nat)
    requires perm < 1024
    ensures Maps(m, o, m, o, root, first, 0, pa, perm)
  {
  }

  lemma MapsGrow(m: Memory, o: map<nat, Node>, m1: Memory, o1: map<nat, Node>, m2: Memory, o2: map<nat, Node>,
                 root: nat, first: nat, k: nat, pa: nat, perm: nat)
    requires perm < 1024 && Maps(m, o, m1, o1, root, first, k, pa, perm) && Grew(m1, o1, m2, o2)
    ensures Maps(m, o, m2, o2, root, first, k, pa, perm)
  {
    forall r, v | IsRoot(o, r) && 0 <= v < VPNS
      ensures Leaf(m2, r, v) ==
              if r == root && first <= v < first + k then PteFor(pa, first, v, perm) else Leaf(m, r, v)
    {
      assert IsRoot(o1, r);
    }
  }

  /** The entry that walk finds is the page's PTE, as it was before. */
  lemma EntryIsLeaf(m: Memory, o: map<nat, Node>, m2: Memory, o2: map<nat, Node>,
                    root: nat, first: nat, k: nat, pa: nat, perm: nat, t: nat)
    requires perm < 1024 && Maps(m, o, m2, o2, root, first, k, pa, perm) && Tree(m2, o2) && IsRoot(o, root)
             && first + k < VPNS
    requires t in o2 && t in m2 && t == LeafTable(m2, root, first + k)
    ensures |m2[t]| == 512 && (IsValid(m2[t][I0(first + k)]) <==> Leaf(m, root, first + k) != 0)
  {
    hide LeafTable, TreeBut, I0, MakePte, PteFor;
    TableInMemory(m2, o2, 0, t);
    assert Leaf(m2, root, first + k) == Leaf(m, root, first + k);
  }

  /** Writing the entry that walk() found maps one more page. */
  lemma MapsStep(m: Memory, o: map<nat, Node>, m1: Memory, o1: map<nat, Node>, m2: Memory, o2: map<nat, Node>,
                 root: nat, first: nat, k: nat, pa: nat, perm: nat, t: nat, users: map<nat, (nat, nat)>)
    requires perm < 1024 && Maps(m, o, m1, o1, root, first, k, pa, perm) && Grew(m1, o1, m2, o2)
    requires Tree(m2, o2) && UsersOk(m2, o2, users) && IsRoot(o, root) && first + k < VPNS
    requires t in o2 && t in m2 && o2[t].root == root && o2[t].path == [I2(first + k), I1(first + k)]
    requires t == LeafTable(m2, root, first + k) && Leaf(m, root, first + k) == 0
    ensures |m2[t]| == 512 && IsRoot(o2, root)
    ensures var m3 := SetEntry(m2, t, I0(first + k), MakePte(pa + k * PGSIZE, perm));
            && Maps(m, o, m3, o2, root, first, k + 1, pa, perm)
            && Tree(m3, o2) && UsersOk(m3, o2, users) && m3.Keys == m2.Keys
  {
    hide TreeBut, Leaf, LeafTable, I0, I1, I2;
    TableInMemory(m2, o2, 0, t);
    var w := first + k;
    var pte := MakePte(pa + k * PGSIZE, perm);
    assert IsValid(pte);
    var m3 := SetEntry(m2, t, I0(w), pte);
    SetLeafTree(m2, o2, t, I0(w), pte);
    forall r, v | IsRoot(o2, r) && 0 <= v < VPNS
      ensures Leaf(m3, r, v) == if r == root && v == w then pte else Leaf(m2, r, v)
    {
      SetLeafView(m2, o2, t, w, pte, r, v);
    }
  }

  /** The k pages from `first` on of tree `root` are no longer mapped; nothing else about mappings changed. */
  ghost predicate Unmaps(m: Memory, owner: map<nat, Node>, m': Memory, root: nat, first: nat, k: nat) {
    && m'.Keys == m.Keys
    && (forall r, v | IsRoot(owner, r) && 0 <= v < VPNS ::
          Leaf(m', r, v) == if r == root && first <= v < first + k then 0 else Leaf(m, r, v))
  }

  /** The user frames that remain when those of a range of a tree's pages go. */
  ghost function Without(users: map<nat, (nat, nat)>, root: nat, first: nat, k: nat): map<nat, (nat, nat)> {
    map f | f in users && !(users[f].0 == root && first <= users[f].1 < first + k) :: users[f]
  }

  /** User frames and held frames keep their contents. */
  ghost predicate Keeps(m: Memory, m': Memory, users: map<nat, (nat, nat)>, held: set<nat>) {
    forall f | f in users || f in held :: f in m && f in m' && m'[f] == m[f]
  }

  lemma UnmapsStart(m: Memory, owner: map<nat, Node>, users: map<nat, (nat, nat)>, held: set<nat>, free: seq<nat>,
                    root: nat, first: nat)
    requires Partition(m.Keys, free, owner.Keys, users.Keys, held)
    ensures Unmaps(m, owner, m, root, first, 0) && Without(users, root, first, 0) == users && Keeps(m, m, users, held)
  {
  }

  /** Writing 0 to the entry that walk() found unmaps one more page. */
  lemma UnmapsStep(m: Memory, o: map<nat, Node>, m1: Memory, m2: Memory, root: nat, first: nat, k: nat, t: nat,
                   users: map<nat, (nat, nat)>)
    requires Unmaps(m, o, m1, root, first, k) && m2.Keys == m1.Keys && SameMappings(m1, o, m2)
    requires Tree(m2, o) && UsersOk(m2, o, users) && IsRoot(o, root) && first + k < VPNS
    requires forall f | f in users :: users[f] != (root, first + k)
    requires t in o && t in m2 && o[t].root == root && o[t].path == [I2(first + k), I1(first + k)]
    requires t == LeafTable(m2, root, first + k)
    ensures |m2[t]| == 512
    ensures var m3 := SetEntry(m2, t, I0(first + k), 0);
            && Unmaps(m, o, m3, root, first, k + 1)
            && Tree(m3, o) && UsersOk(m3, o, users) && m3.Keys == m2.Keys
  {
    hide TreeBut, Leaf, LeafTable, I0, I1, I2;
    TableInMemory(m2, o, 0, t);
    var w := first + k;
    var m3 := SetEntry(m2, t, I0(w), 0);
    SetLeafTree(m2, o, t, I0(w), 0);
    forall r, v | IsRoot(o, r) && 0 <= v < VPNS
      ensures Leaf(m3, r, v) == if r == root && v == w then 0 else Leaf(m2, r, v)
    {
      SetLeafView(m2, o, t, w, 0, r, v);
    }
    forall f | f in users ensures Leaf(m3, users[f].0, users[f].1) == Leaf(m2, users[f].0, users[f].1) {
      assert users[f] == (users[f].0, users[f].1);
    }
  }

  /** walk() finds the entry of a page that is still mapped. */
  lemma PageFound(m: Memory, o: map<nat, Node>, m1: Memory, root: nat, first: nat, k: nat, t: nat)
    requires Unmaps(m, o, m1, root, first, k) && Tree(m1, o) && IsRoot(o, root) && first + k < VPNS
    requires t == LeafTable(m1, root, first + k) && (t != 0 ==> t in o && t in m1)
    ensures t == 0 ==> Leaf(m, root, first + k) == 0
    ensures t != 0 ==> |m1[t]| == 512
    ensures t != 0 ==> Leaf(m, root, first + k) == if IsValid(m1[t][I0(first + k)]) then m1[t][I0(first + k)] else 0
  {
    assert Leaf(m1, root, first + k) == Leaf(m, root, first + k);
    if t != 0 {
      TableInMemory(m1, o, 0, t);
    }
  }

  /** After its page is dropped, no user frame is booked for that page. */
  lemma UnbookedAt(m: Memory, o: map<nat, Node>, users0: map<nat, (nat, nat)>, root: nat, first: nat, k: nat,
                   users: map<nat, (nat, nat)>)
    requires UsersOk(m, o, users0)
    requires users == Without(users0, root, first, k + 1) ||
             (users == users0 && forall f | f in users0 :: users0[f] != (root, first + k))
    ensures forall f | f in users :: users[f] != (root, first + k)
  {
  }

  lemma SameMappingsReflexive(m: Memory, o: map<nat, Node>)
    ensures SameMappings(m, o, m)
  {
  }

  lemma KeepsAfter(m: Memory, m1: Memory, users: map<nat, (nat, nat)>, held: set<nat>, users': map<nat, (nat, nat)>,
                   f: nat, page: Page)
    requires Keeps(m, m1, users, held) && f !in held && (users' == users || users' == users - {f}) && f !in users'
    ensures Keeps(m, m1[f := page], users', held)
  {
  }

  /** What the partition says of a user frame f and a table page t. */
  lemma Apart(all: set<nat>, free: seq<nat>, tables: set<nat>, users: set<nat>, held: set<nat>, f: nat, t: nat)
    requires Partition(all, free, tables, users, held)
    ensures f in users ==> f in all && f !in tables && f !in held && f !in free
    ensures f in held ==> f in all && f !in tables && f !in users && f !in free
    ensures t in tables ==> t in all && t !in users && t !in held
  {
    assert f in free ==> f in Elems(free);
  }

  /** Dropping the user frame of one more page. */
  lemma WithoutStep(m: Memory, o: map<nat, Node>, users: map<nat, (nat, nat)>, root: nat, first: nat, k: nat, f: nat)
    requires UsersOk(m, o, users) && f in users && users[f] == (root, first + k)
    ensures f in Without(users, root, first, k)
    ensures Without(users, root, first, k + 1) == Without(users, root, first, k) - {f}
    ensures Without(users, root, first, k + 1).Keys == Without(users, root, first, k).Keys - {f}
  {
    hide Leaf, Pte2Pa, IsRoot;
    forall g | g in users && users[g] == users[f] ensures g == f {
      assert Pte2Pa(Leaf(m, users[g].0, users[g].1)) == g;
    }
  }

  // ---------- Populated ranges ----------

  /** Pages lo..hi of a tree are mapped to frames booked for them. */
  ghost predicate Booked(m: Memory, users: map<nat, (nat, nat)>, root: nat, lo: nat, hi: nat) {
    forall v | lo <= v < hi :: IsBooked(m, users, root, v)
  }

  ghost predicate IsBooked(m: Memory, users: map<nat, (nat, nat)>, root: nat, v: nat) {
    var pte := Leaf(m, root, v);
    pte != 0 && Flags(pte) != PTE_V && Pte2Pa(pte) in users && users[Pte2Pa(pte)] == (root, v)
  }

  /** Page v is mapped, and its PTE is a leaf; on all else uvmunmap panics. */
  ghost predicate IsPage(m: Memory, root: nat, v: nat) {
    v < VPNS && Leaf(m, root, v) != 0 && Flags(Leaf(m, root, v)) != PTE_V
  }

  /**
   What uvmunmap demands of a page: mapped as a leaf, and the frame booked for it if
   and only if it is to be freed.
   */
  ghost predicate Removable(m: Memory, users: map<nat, (nat, nat)>, root: nat, v: nat, doFree: bool) {
    if doFree then IsBooked(m, users, root, v)
    else Leaf(m, root, v) != 0 && Flags(Leaf(m, root, v)) != PTE_V && forall f | f in users :: users[f] != (root, v)
  }

  ghost predicate Vacant(m: Memory, root: nat, lo: nat, hi: nat) {
    forall v | lo <= v < hi :: Leaf(m, root, v) == 0
  }

  /** Page v of a tree is mapped with the wanted permissions to a frame booked for it that has the wanted contents. */
  ghost predicate IsPopulated(m: Memory, users: map<nat, (nat, nat)>, root: nat, lo: nat, v: nat,
                              want: seq<(nat, Page)>)
    requires lo <= v < lo + |want|
  {
    Holds(m, users, root, v, want[v - lo].0, want[v - lo].1)
  }

  ghost predicate Holds(m: Memory, users: map<nat, (nat, nat)>, root: nat, v: nat, perm: nat, page: Page) {
    var f := Pte2Pa(Leaf(m, root, v));
    perm < 1024 && Leaf(m, root, v) == MakePte(f, perm) && f in users && users[f] == (root, v) && f in m && m[f] == page
  }

  /** k pages from lo on have been given new frames; the other mappings and user frames are as they were. */
  ghost predicate Populates(m: Memory, o: map<nat, Node>, users: map<nat, (nat, nat)>,
                            m': Memory, o': map<nat, Node>, users': map<nat, (nat, nat)>,
                            root: nat, lo: nat, k: nat, want: seq<(nat, Page)>)
    requires k <= |want|
  {
    && m'.Keys == m.Keys && MoreTables(o, o')
    && (forall r, v | IsRoot(o, r) && 0 <= v < VPNS
        && !(r == root && lo <= v < lo + k) :: Leaf(m', r, v) == Leaf(m, r, v))
    && (forall v | lo <= v < lo + k :: IsPopulated(m', users', root, lo, v, want))
    && Without(users', root, lo, k) == users
  }

  /** One page has been given a new frame. */
  ghost predicate AddsPage(m: Memory, o: map<nat, Node>, users: map<nat, (nat, nat)>,
                           m': Memory, o': map<nat, Node>, users': map<nat, (nat, nat)>,
                           root: nat, w: nat, f: nat, perm: nat, page: Page)
  {
    && m'.Keys == m.Keys && MoreTables(o, o')
    && (forall r, v | IsRoot(o, r) && 0 <= v < VPNS && !(r == root && v == w) :: Leaf(m', r, v) == Leaf(m, r, v))
    && f !in users && users' == users[f := (root, w)]
    && Holds(m', users', root, w, perm, page)
    && (forall g | g in users :: users[g] != (root, w) && g in m && g in m' && m'[g] == m[g])
  }

  lemma PopulatesStart(m: Memory, o: map<nat, Node>, users: map<nat, (nat, nat)>, root: nat, lo: nat,
                       want: seq<(nat, Page)>)
    ensures Populates(m, o, users, m, o, users, root, lo, 0, want)
  {
  }

  lemma PopulatesStep(m: Memory, o: map<nat, Node>, us: map<nat, (nat, nat)>, m1: Memory, o1: map<nat, Node>,
                      us1: map<nat, (nat, nat)>,
                      m2: Memory, o2: map<nat, Node>, us2: map<nat, (nat, nat)>, root: nat, lo: nat, k: nat,
                          want: seq<(nat, Page)>, f: nat)
    requires k < |want| && lo + k < VPNS && IsRoot(o, root)
    requires Populates(m, o, us, m1, o1, us1, root, lo, k, want)
    requires AddsPage(m1, o1, us1, m2, o2, us2, root, lo + k, f, want[k].0, want[k].1)
    ensures Populates(m, o, us, m2, o2, us2, root, lo, k + 1, want)
  {
    hide Leaf, MakePte, Pte2Pa;
    forall v | lo <= v < lo + (k + 1) ensures IsPopulated(m2, us2, root, lo, v, want) {
      if v < lo + k {
        assert IsPopulated(m1, us1, root, lo, v, want);
        assert IsRoot(o1, root);
        assert Leaf(m2, root, v) == Leaf(m1, root, v);
      }
    }
    forall r, v | IsRoot(o, r) && 0 <= v < VPNS && !(r == root && lo <= v < lo + (k + 1))
      ensures Leaf(m2, r, v) == Leaf(m, r, v) {
      assert IsRoot(o1, r);
      assert Leaf(m2, r, v) == Leaf(m1, r, v);
    }
    assert Without(us2, root, lo, k + 1) == Without(us1, root, lo, k) by {
      forall g | g in us1 && us1[g].0 == root ensures us1[g].1 != lo + k {
        assert us1[g] != (root, lo + k) && us1[g] == (us1[g].0, us1[g].1);
      }
    }
  }

  /** A populated range is booked. */
  lemma PopulatedIsBooked(m: Memory, o: map<nat, Node>, us: map<nat, (nat, nat)>, m1: Memory, o1: map<nat, Node>,
                          us1: map<nat, (nat, nat)>,
                          root: nat, lo: nat, k: nat, want: seq<(nat, Page)>)
    requires k <= |want| && Populates(m, o, us, m1, o1, us1, root, lo, k, want)
    requires forall i | 0 <= i < k :: want[i].0 > 1
    ensures Booked(m1, us1, root, lo, lo + k)
  {
    hide Leaf;
    forall v | lo <= v < lo + k ensures IsBooked(m1, us1, root, v) {
      assert IsPopulated(m1, us1, root, lo, v, want);
      assert want[v - lo].0 > 1;
      MakePteFlags(Pte2Pa(Leaf(m1, root, v)), want[v - lo].0);
    }
  }

  lemma MakePteFlags(pa: nat, flags: nat)
    requires flags < 1024
    ensures Flags(MakePte(pa, flags)) == flags + if flags % 2 == 0 then 1 else 0
    ensures IsValid(MakePte(pa, flags)) && MakePte(pa, flags) != 0
  {
    Unpack(pa / 4096, flags + if flags % 2 == 0 then 1 else 0);
  }

  /** Taking a populated range away again restores the mappings and the user frames. */
  lemma PopulatesUndone(m: Memory, o: map<nat, Node>, us: map<nat, (nat, nat)>, m1: Memory, o1: map<nat, Node>,
                        us1: map<nat, (nat, nat)>,
                        m2: Memory, root: nat, lo: nat, k: nat, want: seq<(nat, Page)>)
    requires k <= |want| && (lo + k <= VPNS || k == 0) && IsRoot(o, root)
    requires Populates(m, o, us, m1, o1, us1, root, lo, k, want) && Vacant(m, root, lo, lo + k)
    requires Unmaps(m1, o1, m2, root, lo, k)
    ensures m2.Keys == m.Keys && Restores(m, o, m2) && Without(us1, root, lo, k) == us
  {
    hide Leaf, MakePte;
    forall r, v | IsRoot(o, r) && 0 <= v < VPNS ensures Leaf(m2, r, v) == Leaf(m, r, v) {
      assert IsRoot(o1, r);
    }
  }

  /** Every tree maps every page as before. */
  ghost predicate Restores(m: Memory, owner: map<nat, Node>, m': Memory) {
    forall r, v | IsRoot(owner, r) && 0 <= v < VPNS :: Leaf(m', r, v) == Leaf(m, r, v)
  }

  lemma PopulatesFacts(m: Memory, o: map<nat, Node>, us: map<nat, (nat, nat)>, m1: Memory, o1: map<nat, Node>,
                       us1: map<nat, (nat, nat)>,
                       root: nat, lo: nat, k: nat, want: seq<(nat, Page)>)
    requires k <= |want| && Populates(m, o, us, m1, o1, us1, root, lo, k, want) && IsRoot(o, root)
    ensures IsRoot(o1, root) && us.Keys <= us1.Keys && MoreTables(o, o1)
    ensures lo + k < VPNS ==> Leaf(m1, root, lo + k) == Leaf(m, root, lo + k)
    ensures forall r, v | IsRoot(o, r) && r != root && 0 <= v < VPNS :: Leaf(m1, r, v) == Leaf(m, r, v)
  {
    hide Leaf, MakePte;
    forall f | f in us ensures f in us1 {
      assert f in Without(us1, root, lo, k);
    }
  }

  /** A failed attempt to add a page leaves the populated range as it is. */
  lemma PopulatesKept(m: Memory, o: map<nat, Node>, us: map<nat, (nat, nat)>, m1: Memory, o1: map<nat, Node>,
                      us1: map<nat, (nat, nat)>,
                      m2: Memory, o2: map<nat, Node>, h: set<nat>, root: nat, lo: nat, k: nat, want: seq<(nat, Page)>)
    requires k <= |want| && (lo + k <= VPNS || k == 0) && IsRoot(o, root)
    requires Populates(m, o, us, m1, o1, us1, root, lo, k, want)
    requires m2.Keys == m1.Keys && Restores(m1, o1, m2) && MoreTables(o1, o2) && Keeps(m1, m2, us1, h)
    ensures Populates(m, o, us, m2, o2, us1, root, lo, k, want)
  {
    hide Leaf, MakePte, Pte2Pa;
    forall r, v | IsRoot(o, r) && 0 <= v < VPNS && !(r == root && lo <= v < lo + k)
      ensures Leaf(m2, r, v) == Leaf(m, r, v) {
      assert IsRoot(o1, r);
      assert Leaf(m2, r, v) == Leaf(m1, r, v);
    }
    forall v | lo <= v < lo + k ensures IsPopulated(m2, us1, root, lo, v, want) {
      assert IsPopulated(m1, us1, root, lo, v, want);
      assert IsRoot(o1, root);
      assert Leaf(m2, root, v) == Leaf(m1, root, v);
    }
  }

  lemma KeepsChain(m: Memory, m1: Memory, m2: Memory, us: map<nat, (nat, nat)>, us1: map<nat, (nat, nat)>, h: set<nat>)
    requires Keeps(m, m1, us, h) && Keeps(m1, m2, us1, h) && us.Keys <= us1.Keys
    ensures Keeps(m, m2, us, h)
  {
    forall f | f in us || f in h ensures f in m && f in m2 && m2[f] == m[f] {
      assert f in us ==> f in us1.Keys;
    }
  }

  lemma AddPageNone(m: Memory, o: map<nat, Node>, us: map<nat, (nat, nat)>, h: set<nat>, free: seq<nat>)
    requires Partition(m.Keys, free, o.Keys, us.Keys, h)
    ensures Keeps(m, m, us, h) && MoreTables(o, o) && Restores(m, o, m)
  {
  }

  /** What kalloc, filling the frame and mappages leave alone. */
  lemma AddPageKeeps(m: Memory, o: map<nat, Node>, us: map<nat, (nat, nat)>, h: set<nat>, pa: nat, page: Page,
                     m2: Memory, o2: map<nat, Node>, free2: seq<nat>, root: nat, w: nat, k: nat, perm: nat)
    requires pa in m && perm < 1024 && Maps(m[pa := page], o, m2, o2, root, w, k, pa, perm)
    requires Partition(m2.Keys, free2, o2.Keys, us.Keys, h + {pa}) && pa !in us && pa !in h
    ensures m2.Keys == m.Keys && Keeps(m, m2, us, h) && MoreTables(o, o2) && pa in m2 && m2[pa] == page
  {
    hide Leaf;
    assert pa in h + {pa};
    assert m[pa := page].Keys == m.Keys;
    forall f | f in us || f in h ensures f in m && f in m2 && m2[f] == m[f] {
      assert f in us.Keys + (h + {pa});
    }
  }

  lemma AddPageFailed(m: Memory, o: map<nat, Node>, us: map<nat, (nat, nat)>, h: set<nat>, pa: nat, page: Page,
                      m2: Memory, o2: map<nat, Node>, free2: seq<nat>, root: nat, w: nat, perm: nat, junk: Page)
    requires pa in m && perm < 1024 && Maps(m[pa := page], o, m2, o2, root, w, 0, pa, perm)
             && SameMappings(m, o, m[pa := page])
    requires Partition(m2.Keys, free2, o2.Keys, us.Keys, h + {pa}) && pa !in us && pa !in h
    requires SameMappings(m2, o2, m2[pa := junk])
    ensures m2[pa := junk].Keys == m.Keys
    ensures Keeps(m, m2[pa := junk], us, h) && MoreTables(o, o2) && Restores(m, o, m2[pa := junk])
  {
    hide Leaf, Partition, Extends, Keeps;
    AddPageKeeps(m, o, us, h, pa, page, m2, o2, free2, root, w, 0, perm);
    KeepsAfter(m, m2, us, h, us, pa, junk);
    forall r, v | IsRoot(o, r) && 0 <= v < VPNS ensures Leaf(m2[pa := junk], r, v) == Leaf(m, r, v) {
      assert IsRoot(o2, r);
      assert Leaf(m2, r, v) == Leaf(m[pa := page], r, v);
    }
  }

  lemma TreePages(m: Memory, o: map<nat, Node>)
    requires Tree(m, o)
    ensures Pages(m)
  {
  }

  lemma AddPageMapped(m: Memory, o: map<nat, Node>, us: map<nat, (nat, nat)>, pa: nat, page: Page,
                      m2: Memory, o2: map<nat, Node>, root: nat, w: nat, perm: nat)
    requires pa in m && perm < 1024 && Maps(m[pa := page], o, m2, o2, root, w, 1, pa, perm)
    requires Pages(m) && IsRoot(o, root) && w < VPNS
    ensures IsRoot(o2, root) && Leaf(m2, root, w) == MakePte(pa, perm) && MakePte(pa, perm) != 0
            && Pte2Pa(MakePte(pa, perm)) == pa
  {
    hide Leaf;
    PteRoundTrip(pa, perm);
    assert Leaf(m2, root, w) == PteFor(pa, w, w, perm);
  }

  lemma AddPageDone(m: Memory, o: map<nat, Node>, us: map<nat, (nat, nat)>, h: set<nat>, pa: nat, page: Page,
                    m2: Memory, o2: map<nat, Node>, free2: seq<nat>, root: nat, w: nat, perm: nat)
    requires pa in m && perm < 1024 && Maps(m[pa := page], o, m2, o2, root, w, 1, pa, perm)
             && SameMappings(m, o, m[pa := page])
    requires Partition(m2.Keys, free2, o2.Keys, us.Keys, h + {pa}) && pa !in us && pa !in h
    requires Pages(m) && IsRoot(o, root) && w < VPNS && UsersOk(m, o, us) && Leaf(m, root, w) == 0
    ensures m2.Keys == m.Keys && Keeps(m, m2, us, h)
    ensures AddsPage(m, o, us, m2, o2, us[pa := (root, w)], root, w, pa, perm, page)
  {
    hide Leaf, Partition, Extends, MoreTables, Pages, MakePte, Pte2Pa;
    AddPageKeeps(m, o, us, h, pa, page, m2, o2, free2, root, w, 1, perm);
    AddPageMapped(m, o, us, pa, page, m2, o2, root, w, perm);
    forall r, v | IsRoot(o, r) && 0 <= v < VPNS && !(r == root && v == w) ensures Leaf(m2, r, v) == Leaf(m, r, v) {
      assert Leaf(m2, r, v) == Leaf(m[pa := page], r, v);
    }
  }

  lemma GrewReflexive(m: Memory, o: map<nat, Node>)
    ensures Grew(m, o, m, o)
  {
  }

  lemma GrewTransitive(m: Memory, o: map<nat, Node>, m1: Memory, o1: map<nat, Node>, m2: Memory, o2: map<nat, Node>)
    requires Grew(m, o, m1, o1) && Grew(m1, o1, m2, o2)
    ensures Grew(m, o, m2, o2)
  {
    forall r, v | IsRoot(o, r) ensures Leaf(m2, r, v) == Leaf(m, r, v) {
      assert IsRoot(o1, r);
    }
  }

  /** Growing keeps the bookkeeping of user frames. */
  lemma GrewKeepsUsers(m: Memory, o: map<nat, Node>, m': Memory, o': map<nat, Node>, users: map<nat, (nat, nat)>)
    requires Grew(m, o, m', o') && UsersOk(m, o, users)
    ensures UsersOk(m', o', users)
  {
  }

  lemma AddTableGrew(m: Memory, owner: map<nat, Node>, f: nat, t: nat, i: nat)
    requires Tree(m, owner) && t in owner && RoomFor(owner[t], i)
    requires f in m && f !in owner && t in m && !IsValid(m[t][i])
    ensures Grew(m, owner, AddTable(m, f, t, i), owner[f := Node(owner[t].root, owner[t].path + [i], t)])
  {
    forall r, v | IsRoot(owner, r) ensures Leaf(AddTable(m, f, t, i), r, v) == Leaf(m, r, v) {
      AddTableView(m, owner, f, t, i, r, v);
    }
  }

  /** The table walk() has reached for page v when it has `level` levels to go. */
  function Reached(m: Memory, root: nat, v: nat, level: nat): nat {
    if level == 2 then root else if level == 1 then Child(m, root, I2(v)) else LeafTable(m, root, v)
  }

  function PathTo(v: nat, level: nat): seq<nat> {
    if level == 2 then [] else if level == 1 then [I2(v)] else [I2(v), I1(v)]
  }

  /** The index walk() uses at a level. */
  function IndexAt(v: nat, level: nat): (i: nat)
    ensures i < 512
  {
    if level == 2 then I2(v) else if level == 1 then I1(v) else I0(v)
  }

  /** Adding the missing table for page v is what makes walk() reach the next level. */
  lemma AddTableReached(m: Memory, owner: map<nat, Node>, f: nat, root: nat, v: nat, level: nat)
    requires Tree(m, owner) && IsRoot(owner, root) && 0 < level <= 2
    requires var t := Reached(m, root, v, level); t in owner && t in m && owner[t].path == PathTo(v, level)
    requires f in m && f !in owner && |m[Reached(m, root, v, level)]| == 512
    requires !IsValid(m[Reached(m, root, v, level)][IndexAt(v, level)])
    ensures var t := Reached(m, root, v, level);
            Reached(AddTable(m, f, t, IndexAt(v, level)), root, v, level - 1) == f
  {
    hide TreeBut, LinkOk, EntryOk, MakePte;
    TableInMemory(m, owner, f, root);
    ChildIsOwned(m, owner, root, I2(v));
    var t := Reached(m, root, v, level);
    var m' := AddTable(m, f, t, IndexAt(v, level));
    assert Child(m', t, IndexAt(v, level)) == f;
    if level == 1 {
      assert Child(m', root, I2(v)) == t;
    }
  }

  /** A table page is in memory, and any page of memory is a page-aligned address that a PTE can hold. */
  lemma TableInMemory(m: Memory, owner: map<nat, Node>, f: nat, t: nat)
    requires Tree(m, owner) && t in owner
    ensures t in m && |m[t]| == 512 && t != 0
    ensures IsRoot(owner, t) ==> owner[t].root == t
    ensures f in m ==> |m[f]| == 512 && f != 0 && Pte2Pa(MakePte(f, 0)) == f && IsValid(MakePte(f, 0))
  {
    assert LinkOk(m, owner, t);
    if f in m {
      PteRoundTrip(f, 0);
    }
  }

  lemma ReachedNext(m: Memory, owner: map<nat, Node>, root: nat, v: nat, level: nat)
    requires Tree(m, owner) && IsRoot(owner, root) && 0 < level <= 2
    requires var t := Reached(m, root, v, level);
             t in owner && t in m && owner[t].root == root && owner[t].path == PathTo(v, level)
    ensures var t, t' := Reached(m, root, v, level), Reached(m, root, v, level - 1);
            if IsValid(m[t][IndexAt(v, level)]) then
              t' == Pte2Pa(m[t][IndexAt(v, level)]) && t' != 0 && t' in owner && t' in m && owner[t'].root == root
                  && owner[t'].path == PathTo(v, level - 1)
            else
              LeafTable(m, root, v) == 0
  {
    var t := Reached(m, root, v, level);
    ChildIsOwned(m, owner, t, IndexAt(v, level));
    ChildOfNone(m, I1(v));
    assert PathTo(v, level) + [IndexAt(v, level)] == PathTo(v, level - 1);
    var t' := Child(m, t, IndexAt(v, level));
    assert t' in owner ==> LinkOk(m, owner, t');
  }

  // ---------- Freeing a tree ----------

  /** Table f hangs at or below table t. */
  ghost predicate Under(o: map<nat, Node>, t: nat, f: nat)
    requires t in o && f in o
  {
    o[f].root == o[t].root && o[t].path <= o[f].path
  }

  ghost function Sub(o: map<nat, Node>, t: nat): set<nat>
    requires t in o
  {
    set f | f in o && Under(o, t, f)
  }

  /** No lowest-level table at or below t maps anything. */
  ghost predicate Bare(m: Memory, o: map<nat, Node>, t: nat)
    requires t in o
  {
    forall f, i | f in o && Under(o, t, f) && |o[f].path| == 2 && 0 <= i < 512 :: EntryInvalid(m, f, i)
  }

  ghost predicate EntryInvalid(m: Memory, f: nat, i: nat) {
    f in m && i < |m[f]| && !IsValid(m[f][i])
  }

  /** A valid entry of a table of a bare subtree points to a table, and its R, W and X bits are clear. */
  lemma EntryPointsDown(m: Memory, o: map<nat, Node>, t: nat, i: nat)
    requires Tree(m, o) && t in o && Bare(m, o, t) && i < 512 && t in m && IsValid(m[t][i])
    ensures |o[t].path| < 2 && m[t][i] / 2 % 8 == 0
    ensures var child := Pte2Pa(m[t][i]);
            child in o && o[child] == Node(o[t].root, o[t].path + [i], t) && Bare(m, o, child)
  {
    assert LinkOk(m, o, t);
    assert |o[t].path| == 2 ==> EntryInvalid(m, t, i);
    assert EntryOk(m, o, t, i);
    var child := Pte2Pa(m[t][i]);
    MadePteBits(child);
    forall f, j | f in o && Under(o, child, f) && |o[f].path| == 2 && 0 <= j < 512 ensures EntryInvalid(m, f, j) {
      assert Under(o, t, f);
    }
  }

  lemma MadePteBits(pa: nat)
    ensures MakePte(pa, 0) / 2 % 8 == 0
  {
    assert MakePte(pa, 0) == 2 * (pa / 4096 * 512) + 1;
    assert MakePte(pa, 0) / 2 == 8 * (pa / 4096 * 64);
  }

  /** Clearing the entry whose subtree is gone makes the tree whole again. */
  lemma ClearEntryTree(m: Memory, o: map<nat, Node>, t: nat, i: nat)
    requires TreeBut(m, o, t, i) && 0 !in o && t in o && i < 512
    requires forall g | g in o :: !(o[g].root == o[t].root && o[t].path + [i] <= o[g].path)
    ensures t in m && |m[t]| == 512 && Tree(SetEntry(m, t, i, 0), o)
  {
    assert LinkOk(m, o, t);
    var m' := SetEntry(m, t, i, 0);
    forall g | g in o ensures g in m' && LinkOk(m', o, g) {
      assert LinkOk(m, o, g);
      assert o[g].path != [] && o[g].up == t ==> o[g].path == o[t].path + [o[g].path[|o[g].path| - 1]];
    }
    forall g, j | g in o && 0 <= j < 512 ensures EntryOk(m', o, g, j) {
      assert (g == t && j == i) || EntryOk(m, o, g, j);
    }
  }

  /** A table without valid entries has no table below it. */
  lemma {:induction false} NothingBelow(m: Memory, o: map<nat, Node>, t: nat, f: nat)
    requires Tree(m, o) && t in o && f in o && Under(o, t, f) && t in m
    requires forall i | 0 <= i < 512 :: EntryInvalid(m, t, i)
    ensures f == t
    decreases |o[f].path|
  {
    assert LinkOk(m, o, f);
    if |o[f].path| == |o[t].path| {
      TablesUnshared(m, o, t, f);
    } else {
      var g := o[f].up;
      assert o[t].path <= o[g].path;
      NothingBelow(m, o, t, g);
      assert EntryInvalid(m, t, o[f].path[|o[f].path| - 1]);
      PteRoundTrip(f, 0);
      assert false;
    }
  }

  /** The slot of the parent that points to t; (0, 0) for a root, which no slot points to. */
  ghost function UpSlot(o: map<nat, Node>, t: nat): (nat, nat)
    requires t in o
  {
    if o[t].path == [] then (0, 0) else (o[t].up, o[t].path[|o[t].path| - 1])
  }

  /** Removing a table without valid entries leaves a hole in the parent's slot and nowhere else. */
  lemma RemoveTable(m: Memory, o: map<nat, Node>, t: nat, junk: Page)
    requires Tree(m, o) && t in o && t in m && |junk| == 512
    requires forall i | 0 <= i < 512 :: EntryInvalid(m, t, i)
    ensures TreeBut(m[t := junk], o - {t}, UpSlot(o, t).0, UpSlot(o, t).1)
  {
    var m', o' := m[t := junk], o - {t};
    forall g | g in o' ensures g in m' && LinkOk(m', o', g) {
      RemoveTableLink(m, o, t, junk, g);
    }
    forall g, j | g in o' && 0 <= j < 512 && !(g == UpSlot(o, t).0 && j == UpSlot(o, t).1)
      ensures EntryOk(m', o', g, j) {
      RemoveTableEntry(m, o, t, junk, g, j);
    }
  }

  lemma RemoveTableLink(m: Memory, o: map<nat, Node>, t: nat, junk: Page, g: nat)
    requires Tree(m, o) && t in o && t in m && |junk| == 512 && g in o && g != t
    requires forall i | 0 <= i < 512 :: EntryInvalid(m, t, i)
    ensures Pages(m[t := junk]) && g in m && LinkOk(m[t := junk], o - {t}, g)
  {
    assert LinkOk(m, o, g);
    if o[g].path != [] && o[g].up == t {
      assert EntryInvalid(m, t, o[g].path[|o[g].path| - 1]);
      PteRoundTrip(g, 0);
      assert false;
    }
  }

  lemma RemoveTableEntry(m: Memory, o: map<nat, Node>, t: nat, junk: Page, g: nat, j: nat)
    requires Tree(m, o) && t in o && t in m && |junk| == 512 && g in o && g != t && j < 512
    requires !(g == UpSlot(o, t).0 && j == UpSlot(o, t).1)
    ensures Pages(m[t := junk]) && g in m && EntryOk(m[t := junk], o - {t}, g, j)
  {
    assert LinkOk(m, o, g) && EntryOk(m, o, g, j);
  }

  /** Only tables properly below t have been removed, and only t's own entries changed. */
  ghost predicate Pruned(m0: Memory, o0: map<nat, Node>, m: Memory, o: map<nat, Node>, t: nat) {
    && t in o0 && t in o
    && (forall f | f in o :: f in o0 && o0[f] == o[f])
    && (forall f | f in o0 && f !in o :: Under(o0, t, f))
    && (forall f | f in o && f != t :: f in m0 && f in m && m[f] == m0[f])
  }

  lemma PrunedStart(m: Memory, o: map<nat, Node>, t: nat, users: map<nat, (nat, nat)>, held: set<nat>, free: seq<nat>)
    requires Tree(m, o) && t in o && Partition(m.Keys, free, o.Keys, users.Keys, held)
    ensures Pruned(m, o, m, o, t) && Keeps(m, m, users, held)
  {
    forall f | f in o ensures f in m {
      assert LinkOk(m, o, f);
    }
  }

  /** What is left when the subtree of entry i of t has been freed. */
  ghost predicate ChildGone(m: Memory, o: map<nat, Node>, m1: Memory, o1: map<nat, Node>, t: nat, i: nat, child: nat) {
    && child in o && t in o && i < 512 && |o[t].path| < 2 && o[child] == Node(o[t].root, o[t].path + [i], t)
    && o1 == o - Sub(o, child)
    && TreeBut(m1, o1, t, i) && m1.Keys == m.Keys && SameTables(m, m1, o1)
  }

  lemma PruneChildTree(m: Memory, o: map<nat, Node>, m1: Memory, o1: map<nat, Node>, t: nat, i: nat, child: nat)
    requires Tree(m, o) && ChildGone(m, o, m1, o1, t, i, child)
    ensures t in o1 && t in m1 && |m1[t]| == 512 && m1[t] == m[t] && Tree(SetEntry(m1, t, i, 0), o1)
  {
    hide LinkOk, EntryOk;
    assert !Under(o, child, t);
    forall g | g in o1 ensures !(o1[g].root == o1[t].root && o1[t].path + [i] <= o1[g].path) {
      assert !Under(o, child, g);
    }
    ClearEntryTree(m1, o1, t, i);
  }

  /**
   A table of the chain that maps page v of tree r is not in a bare subtree, and the
   chain does not use the slot above it.
   */
  lemma PruneChildLeaf(m: Memory, o: map<nat, Node>, m1: Memory, o1: map<nat, Node>, t: nat, i: nat, child: nat, r: nat,
                       v: nat)
    requires Tree(m, o) && ChildGone(m, o, m1, o1, t, i, child) && Bare(m, o, child) && IsRoot(o, r)
             && Leaf(m, r, v) != 0
    ensures t in m1 && |m1[t]| == 512
    ensures IsRoot(o1, r) && Leaf(SetEntry(m1, t, i, 0), r, v) == Leaf(m, r, v)
  {
    hide TreeBut, I0, I1, I2;
    PruneChildTree(m, o, m1, o1, t, i, child);
    LeafEntry(m, o, r, v);
    LeafTableIsOwned(m, o, r, v);
    var t2 := LeafTable(m, r, v);
    assert !Under(o, child, t2) by {
      assert Under(o, child, t2) ==> EntryInvalid(m, t2, I0(v));
    }
    ChildIsOwned(m, o, r, I2(v));
    TreePages(m, o);
    ChildOfNone(m, I1(v));
    var t1 := Child(m, r, I2(v));
    TableInMemory(m, o, 0, r);
    assert t1 in o && o[t1].path == [I2(v)];
    ChildIsOwned(m, o, t1, I1(v));
    assert !Under(o, child, t1);
    assert !Under(o, child, r);
    var m2 := SetEntry(m1, t, i, 0);
    assert r in o1 && t1 in o1 && t2 in o1;
    assert Child(m2, r, I2(v)) == t1;
    assert Child(m2, t1, I1(v)) == t2;
  }

  /** Freeing the subtree of an entry and clearing the entry: tree, user frames and bareness are kept. */
  lemma PruneChild(m0: Memory, o0: map<nat, Node>, m: Memory, o: map<nat, Node>, m1: Memory, o1: map<nat, Node>, t: nat,
                   i: nat, child: nat,
                   users: map<nat, (nat, nat)>)
    requires Tree(m, o) && UsersOk(m, o, users) && Pruned(m0, o0, m, o, t)
    requires ChildGone(m, o, m1, o1, t, i, child) && Bare(m, o, t) && Bare(m, o, child)
    requires forall j | 0 <= j < i :: EntryInvalid(m, t, j)
    ensures t in o1 && t in m1 && |m1[t]| == 512
    ensures var m2 := SetEntry(m1, t, i, 0);
            && Tree(m2, o1) && UsersOk(m2, o1, users) && Bare(m2, o1, t) && Pruned(m0, o0, m2, o1, t)
                && m2.Keys == m.Keys
            && forall j | 0 <= j <= i :: EntryInvalid(m2, t, j)
  {
    hide TreeBut, Leaf;
    PruneChildTree(m, o, m1, o1, t, i, child);
    var m2 := SetEntry(m1, t, i, 0);
    forall f | f in users
      ensures IsRoot(o1, users[f].0) && Leaf(m2, users[f].0, users[f].1) == Leaf(m, users[f].0, users[f].1) {
      PruneChildLeaf(m, o, m1, o1, t, i, child, users[f].0, users[f].1);
    }
    forall f, j | f in o1 && Under(o1, t, f) && |o1[f].path| == 2 && 0 <= j < 512 ensures EntryInvalid(m2, f, j) {
      assert Under(o, t, f) && EntryInvalid(m, f, j);
    }
    forall j | 0 <= j <= i ensures EntryInvalid(m2, t, j) {
      assert j < i ==> EntryInvalid(m, t, j);
    }
    forall f | f in o0 && f !in o1 ensures Under(o0, t, f) {
      assert f in o ==> Under(o, child, f);
    }
  }

  /** When t has no valid entry left, what remains is everything outside the subtree of t, and t itself. */
  lemma PrunedAll(m0: Memory, o0: map<nat, Node>, m: Memory, o: map<nat, Node>, t: nat, junk: Page)
    requires Tree(m, o) && Pruned(m0, o0, m, o, t) && t in m && |junk| == 512
    requires forall j | 0 <= j < 512 :: EntryInvalid(m, t, j)
    ensures o - {t} == o0 - Sub(o0, t) && (o - {t}).Keys == o.Keys - {t}
    ensures TreeBut(m[t := junk], o - {t}, UpSlot(o0, t).0, UpSlot(o0, t).1)
    ensures SameTables(m0, m[t := junk], o - {t})
  {
    hide TreeBut, EntryInvalid;
    RemoveTable(m, o, t, junk);
    forall f | f in o && Under(o, t, f) ensures f == t {
      NothingBelow(m, o, t, f);
    }
    forall f | f in o0 ensures f in Sub(o0, t) <==> f !in o - {t} {
      assert f in o ==> (Under(o, t, f) <==> Under(o0, t, f));
    }
  }

  lemma TableBecomesHeld(all: set<nat>, free: seq<nat>, tables: set<nat>, users: set<nat>, held: set<nat>, f: nat)
    requires Partition(all, free, tables, users, held) && f in tables
    ensures Partition(all, free, tables - {f}, users, held + {f})
  {
  }

  /** A zeroed page that no table points to is a tree that maps nothing. */
  lemma NewRoot(m: Memory, o: map<nat, Node>, us: map<nat, (nat, nat)>, f: nat)
    requires Tree(m, o) && UsersOk(m, o, us) && f in m && f !in o
    ensures var m', o' := m[f := ZeroPage()], o[f := Node(f, [], f)];
            Tree(m', o') && UsersOk(m', o', us) && SameMappings(m, o, m') && forall v :: Leaf(m', f, v) == 0
  {
    hide Leaf;
    var m', o' := m[f := ZeroPage()], o[f := Node(f, [], f)];
    FillKeepsTables(m, o, us, f, ZeroPage());
    forall g | g in o' ensures g in m' && LinkOk(m', o', g) {
      assert g != f ==> LinkOk(m', o, g);
    }
    forall g, j | g in o' && 0 <= j < 512 ensures EntryOk(m', o', g, j) {
      assert g != f ==> EntryOk(m', o, g, j);
    }
    forall v ensures Leaf(m', f, v) == 0 {
      BlankRootLeaf(m', f, v);
    }
  }

  lemma BlankRootLeaf(m: Memory, f: nat, v: nat)
    requires Pages(m) && f in m && m[f] == ZeroPage()
    ensures Leaf(m, f, v) == 0
  {
    assert Child(m, f, I2(v)) == 0;
    ChildOfNone(m, I1(v));
  }

  /** A tree that maps nothing is bare. */
  lemma EmptyIsBare(m: Memory, o: map<nat, Node>, root: nat)
    requires Tree(m, o) && IsRoot(o, root) && Vacant(m, root, 0, VPNS)
    ensures Bare(m, o, root)
  {
    hide TreeBut, I0;
    TableInMemory(m, o, 0, root);
    forall f, i | f in o && Under(o, root, f) && |o[f].path| == 2 && 0 <= i < 512 ensures EntryInvalid(m, f, i) {
      var v := LeafTableOf(m, o, f, i);
      TableInMemory(m, o, 0, f);
      assert Leaf(m, root, v) == 0;
      var pte := m[f][I0(v)];
      assert IsValid(pte) ==> Leaf(m, root, v) == pte;
    }
  }

  /** A user frame's tree is not the one that maps nothing, and freeing that tree leaves its mapping. */
  lemma FreedTreeKeeps(m: Memory, o: map<nat, Node>, m1: Memory, o1: map<nat, Node>, root: nat,
                       us: map<nat, (nat, nat)>)
    requires Tree(m, o) && IsRoot(o, root) && Vacant(m, root, 0, VPNS) && UsersOk(m, o, us)
    requires o1 == o - Sub(o, root) && TreeBut(m1, o1, 0, 0) && SameTables(m, m1, o1)
    ensures Tree(m1, o1) && SameMappings(m, o1, m1) && UsersOk(m1, o1, us)
    ensures forall f | f in o1 :: o1[f].root != root
  {
    hide TreeBut, Leaf, IsValid, Pte2Pa;
    TableInMemory(m, o, 0, root);
    TreePages(m1, o1);
    forall f | f in o1 ensures o1[f].root != root {
      assert !Under(o, root, f);
    }
    forall r, v | IsRoot(o1, r) ensures Leaf(m1, r, v) == Leaf(m, r, v) {
      OtherTreeSame(m, o, m1, o1, root, r, v);
    }
    forall f | f in us ensures IsRoot(o1, us[f].0) {
      assert us[f].0 != root;
      TableInMemory(m, o, 0, us[f].0);
      assert !Under(o, root, us[f].0);
    }
  }

  lemma OtherTreeSame(m: Memory, o: map<nat, Node>, m1: Memory, o1: map<nat, Node>, root: nat, r: nat, v: nat)
    requires Tree(m, o) && IsRoot(o, root) && o[root].root == root && IsRoot(o1, r) && Pages(m1)
    requires o1 == o - Sub(o, root) && SameTables(m, m1, o1)
    ensures Leaf(m1, r, v) == Leaf(m, r, v)
  {
    hide TreeBut, I0, I1, I2, IsValid, Pte2Pa;
    TableInMemory(m, o, 0, r);
    assert !Under(o, root, r);
    LeafTableIsOwned(m, o, r, v);
    ChildIsOwned(m, o, r, I2(v));
    TreePages(m, o);
    var t1, t2 := Child(m, r, I2(v)), LeafTable(m, r, v);
    assert Child(m1, r, I2(v)) == t1;
    if t1 == 0 {
      ChildOfNone(m, I1(v));
      ChildOfNone(m1, I1(v));
    } else {
      assert t1 in o1;
      assert LeafTable(m1, r, v) == t2;
    }
    assert t2 != 0 ==> t2 in o1;
    assert 0 !in m && 0 !in m1;
  }

  datatype Outcome = Done | NoMemory | Panic

  /** The number of pages that size bytes from va on touch. */
  function Span(va: nat, size: nat): (n: nat)
    ensures size == 0 ==> n == 0
    ensures size != 0 ==> (va / PGSIZE + n - 1) * PGSIZE < va + size <= (va / PGSIZE + n) * PGSIZE
  {
    if size == 0 then 0 else (va + size - 1) / PGSIZE - va / PGSIZE + 1
  }

  class Kernel {
    var mem: Memory
    var freelist: seq<nat>
    ghost var owner: map<nat, Node>
    ghost var users: map<nat, (nat, nat)>   // user frame -> the tree and page that map it
    ghost var held: set<nat>                // frames kalloc gave to other parts of the kernel

    ghost predicate Valid()
      reads this
    {
      && Tree(mem, owner)
      && UsersOk(mem, owner, users)
      && Books()
    }

    /** Every frame is accounted for exactly once. */
    ghost predicate Books()
      reads this
    {
      Partition(mem.Keys, freelist, owner.Keys, users.Keys, held)
    }

    /** At boot no page is a table, a user page or free: all are the kernel's. */
    constructor (ram: Memory)
      requires Pages(ram)
      ensures Valid() && mem == ram && freelist == [] && owner == map[] && users == map[] && held == ram.Keys
    {
      mem, freelist, owner, users, held := ram, [], map[], map[], ram.Keys;
    }

    /** freerange: free every whole page between two addresses. */
    method Freerange(start: nat, end: nat)
      requires Valid()
      requires WholePages(start, end) <= held
      modifies this`mem, this`freelist, this`held
      ensures Valid() && mem.Keys == old(mem).Keys
      ensures held == old(held) - WholePages(start, end)
      ensures Elems(freelist) == Elems(old(freelist)) + WholePages(start, end)
    {
      hide Tree, UsersOk, Partition, Filled, WholePages;
      WholeIsRange(start, end);
      var p := PagesOf(start) * PGSIZE;
      ghost var q := PagesOf(start);
      while p + PGSIZE <= end
        invariant p == q * PGSIZE && PagesOf(start) <= q
        invariant Valid() && mem.Keys == old(mem).Keys
        invariant held == old(held) - PageRange(PagesOf(start), q)
        invariant Elems(freelist) == Elems(old(freelist)) + PageRange(PagesOf(start), q)
        invariant q <= PagesOf(start) || q * PGSIZE <= end
      {
        assert (q + 1) * PGSIZE <= end;
        PageRangeStep(PagesOf(start), q);
        ghost var free := freelist;
        var _ := Kfree(p);
        assert Elems(freelist) == {p} + Elems(free);
        p := p + PGSIZE;
        q := q + 1;
      }
      assert PageRange(PagesOf(start), q) == WholePages(start, end);
    }

    /** kalloc: pop the free list and fill the page with junk; 0 when there is none. */
    method Kalloc() returns (pa: nat)
      requires Valid()
      modifies this`mem, this`freelist, this`held
      ensures Valid()
      ensures pa == 0 <==> old(freelist) == []
      ensures pa == 0 ==> mem == old(mem) && freelist == [] && held == old(held)
      ensures pa != 0 ==> pa == old(freelist)[0] && freelist == old(freelist)[1..] && held == old(held) + {pa}
      ensures pa != 0 ==> pa in old(mem) && pa !in owner && pa !in users && pa !in old(held)
      ensures pa != 0 ==> mem == old(mem)[pa := Filled(0x0505_0505_0505_0505)]
    {
      if freelist == [] {
        return 0;
      }
      TakeFree(mem.Keys, freelist, owner.Keys, users.Keys, held);
      pa := freelist[0];
      freelist := freelist[1..];
      held := held + {pa};
      FillKeepsTables(mem, owner, users, pa, Filled(0x0505_0505_0505_0505));
      mem := mem[pa := Filled(0x0505_0505_0505_0505)];
    }

    /**
     kfree: fill the page with junk and push it on the free list; panics unless pa is
     the address of a page of RAM.
     */
    method Kfree(pa: nat) returns (panic: bool)
      requires Books() && (pa in mem ==> pa in held)
      modifies this`mem, this`freelist, this`held
      ensures Books() && mem.Keys == old(mem).Keys && (old(Valid()) ==> Valid())
      ensures panic == (pa !in old(mem)) && (pa in old(held) ==> !panic)
      ensures panic ==> mem == old(mem) && freelist == old(freelist) && held == old(held)
      ensures !panic ==> freelist == [pa] + old(freelist) && held == old(held) - {pa}
      ensures !panic ==> pa in mem && mem == old(mem)[pa := Filled(0x0101_0101_0101_0101)]
    {
      if pa !in mem {
        Apart(mem.Keys, freelist, owner.Keys, users.Keys, held, pa, 0);
        return true;
      }
      PutFree(mem.Keys, freelist, owner.Keys, users.Keys, held, pa);
      Apart(mem.Keys, freelist, owner.Keys, users.Keys, held, pa, 0);
      freelist := [pa] + freelist;
      held := held - {pa};
      if Tree(mem, owner) && UsersOk(mem, owner, users) {
        FillKeepsTables(mem, owner, users, pa, Filled(0x0101_0101_0101_0101));
      }
      assert mem[pa := Filled(0x0101_0101_0101_0101)].Keys == mem.Keys;
      mem := mem[pa := Filled(0x0101_0101_0101_0101)];
      return false;
    }

    /** walk's allocation of a missing page-table page: kalloc, zero it, point entry i of t at it. */
    method NewTable(t: nat, i: nat) returns (f: nat)
      requires Valid() && t in owner && t in mem && RoomFor(owner[t], i) && !IsValid(mem[t][i])
      modifies this`mem, this`freelist, this`owner, this`held
      ensures Valid() && held == old(held)
      ensures f == 0 ==> mem == old(mem) && owner == old(owner) && freelist == old(freelist) == []
      ensures f != 0 ==> f in old(mem) && f !in old(owner) && mem == AddTable(old(mem), f, t, i)
      ensures f != 0 ==> owner == old(owner)[f := Node(old(owner)[t].root, old(owner)[t].path + [i], t)]
      ensures Grew(old(mem), old(owner), mem, owner)
    {
      hide Tree, UsersOk, Partition, Grew, IsRoot, MakePte, IsValid, Filled;
      ghost var m, o := mem, owner;
      TableInMemory(m, o, 0, t);
      f := Kalloc();
      if f == 0 {
        GrewReflexive(mem, owner);
        return;
      }
      assert mem.Keys == m.Keys;
      mem := mem[f := ZeroPage()];
      mem := SetEntry(mem, t, i, MakePte(f, 0));
      assert mem == AddTable(m, f, t, i);
      AddTableTree(m, o, f, t, i);
      AddTableGrew(m, o, f, t, i);
      owner := owner[f := Node(o[t].root, o[t].path + [i], t)];
      GrewKeepsUsers(m, o, mem, owner, users);
      assert mem.Keys == m.Keys && owner.Keys == o.Keys + {f};
      HeldBecomesTable(mem.Keys, freelist, o.Keys, users.Keys, held, f);
      held := held - {f};
    }

    /**
     walk: the lowest-level table for va and the index in it, or table 0.
     With alloc, missing table pages are added; no mapping of any tree changes.
     */
    method Walk(root: nat, va: nat, alloc: bool) returns (panic: bool, t: nat, i: nat)
      requires Valid() && IsRoot(owner, root)
      modifies this`mem, this`freelist, this`owner, this`held
      ensures panic <==> MAXVA <= va
      ensures panic ==> t == 0 && mem == old(mem) && owner == old(owner) && freelist == old(freelist)
      ensures Valid() && held == old(held)
      ensures Grew(old(mem), old(owner), mem, owner)
      ensures !panic ==> t == LeafTable(mem, root, va / PGSIZE) && i == I0(va / PGSIZE)
      ensures t != 0 ==>
              t in owner && t in mem && owner[t].root == root && owner[t].path == [I2(va / PGSIZE), I1(va / PGSIZE)]
      ensures !alloc ==> mem == old(mem) && owner == old(owner) && freelist == old(freelist)
      ensures alloc && !panic && t == 0 ==> freelist == []
    {
      hide Tree, UsersOk, Partition, Grew, IsValid, MakePte, LeafTable, AddTable, I2, I1, I0, Child, Pte2Pa;
      GrewReflexive(mem, owner);
      if va >= MAXVA {
        return true, 0, 0;
      }
      panic := false;
      PxOfPage(va);
      TableInMemory(mem, owner, 0, root);
      ghost var v := va / PGSIZE;
      t := root;
      var level := 2;
      i := Px(0, va);
      while level > 0
        invariant 0 <= level <= 2
        invariant Valid() && held == old(held) && IsRoot(owner, root)
        invariant Grew(old(mem), old(owner), mem, owner)
        invariant t == Reached(mem, root, v, level)
        invariant t != 0 && t in owner && t in mem && owner[t].root == root && owner[t].path == PathTo(v, level)
        invariant !alloc ==> mem == old(mem) && owner == old(owner) && freelist == old(freelist)
      {
        ghost var m, o := mem, owner;
        TableInMemory(m, o, 0, t);
        var pte := mem[t][Px(level, va)];
        ReachedNext(m, o, root, v, level);
        if IsValid(pte) {
          t := Pte2Pa(pte);
        } else if !alloc {
          t := 0;
          return;
        } else {
          var f := NewTable(t, Px(level, va));
          if f == 0 {
            t := 0;
            return;
          }
          AddTableReached(m, o, f, root, v, level);
          TableInMemory(mem, owner, 0, f);
          GrewTransitive(old(mem), old(owner), m, o, mem, owner);
          assert PathTo(v, level) + [IndexAt(v, level)] == PathTo(v, level - 1);
          t := f;
        }
        level := level - 1;
      }
    }

    /**
     mappages: map consecutive pages to consecutive frames; k tells how many were
     mapped.  It panics on an empty range, and at the first page that is mapped
     already or lies beyond MAXVA.
     */
    method Mappages(root: nat, va: nat, size: nat, pa: nat, perm: nat) returns (out: Outcome, ghost k: nat)
      requires Valid() && IsRoot(owner, root) && perm < 1024
      modifies this`mem, this`freelist, this`owner, this`held
      ensures Valid() && held == old(held)
      ensures Maps(old(mem), old(owner), mem, owner, root, va / PGSIZE, k, pa, perm)
      ensures va / PGSIZE + k <= VPNS || k == 0
      ensures Vacant(old(mem), root, va / PGSIZE, va / PGSIZE + k)
      ensures out == Done ==> k == Span(va, size)
      ensures out == NoMemory ==> freelist == [] && k < Span(va, size)
      ensures out == Panic ==>
                size == 0 || (k < Span(va, size)
                    && (VPNS <= va / PGSIZE + k || Leaf(old(mem), root, va / PGSIZE + k) != 0))
    {
      hide Tree, UsersOk, Partition, Grew, Maps, MakePte, Leaf, LeafTable, I0, I1, I2;
      if size == 0 {
        MapsStart(mem, owner, root, va / PGSIZE, pa, perm);
        return Panic, 0;
      }
      ghost var first := va / PGSIZE;
      var a := va / PGSIZE * PGSIZE;
      var last := (va + size - 1) / PGSIZE * PGSIZE;
      var p := pa;
      k := 0;
      MapsStart(mem, owner, root, first, pa, perm);
      while true
        invariant a == (first + k) * PGSIZE && a <= last && p == pa + k * PGSIZE
        invariant Valid() && held == old(held) && IsRoot(owner, root)
        invariant Maps(old(mem), old(owner), mem, owner, root, first, k, pa, perm)
        invariant (first + k <= VPNS || k == 0) && Vacant(old(mem), root, first, first + k)
        decreases last - a
      {
        ghost var m, o := mem, owner;
        var panic, t, i := Walk(root, a, true);
        if panic {
          return Panic, k;
        }
        if t == 0 {
          MapsGrow(old(mem), old(owner), m, o, mem, owner, root, first, k, pa, perm);
          return NoMemory, k;
        }
        MapsGrow(old(mem), old(owner), m, o, mem, owner, root, first, k, pa, perm);
        EntryIsLeaf(old(mem), old(owner), mem, owner, root, first, k, pa, perm, t);
        if IsValid(mem[t][i]) {
          return Panic, k;
        }
        MapsStep(old(mem), old(owner), m, o, mem, owner, root, first, k, pa, perm, t, users);
        mem := SetEntry(mem, t, i, MakePte(p, perm));
        k := k + 1;
        if a == last {
          break;
        }
        a := a + PGSIZE;
        p := p + PGSIZE;
      }
      return Done, k;
    }

    /** The user frame f, no longer booked, is the kernel's to free. */
    ghost method Unbook(f: nat)
      requires Valid() && f in users
      modifies this`users, this`held
      ensures Valid() && users == old(users) - {f} && held == old(held) + {f}
    {
      UserBecomesHeld(mem.Keys, freelist, owner.Keys, users.Keys, held, f);
      assert (users - {f}).Keys == users.Keys - {f};
      users := users - {f};
      held := held + {f};
    }

    /** uvmunmap: remove npages mappings, and with doFree return their frames to the free list. */
    method Uvmunmap(root: nat, va: nat, npages: nat, doFree: bool) returns (panic: bool, ghost k: nat)
      requires Valid() && IsRoot(owner, root)
      requires forall v | va / PGSIZE <= v < va / PGSIZE + npages
               && IsPage(mem, root, v) :: Removable(mem, users, root, v, doFree)
      modifies this
      ensures Valid() && held == old(held) && owner == old(owner)
      ensures Unmaps(old(mem), owner, mem, root, va / PGSIZE, k)
      ensures users == if doFree then Without(old(users), root, va / PGSIZE, k) else old(users)
      ensures |freelist| == |old(freelist)| + if doFree then k else 0
      ensures Keeps(old(mem), mem, users, held)
      ensures !panic ==> k == npages && va % PGSIZE == 0
      ensures panic ==> va % PGSIZE != 0 || (k < npages && !IsPage(old(mem), root, va / PGSIZE + k))
      ensures forall v | va / PGSIZE <= v < va / PGSIZE + k :: IsPage(old(mem), root, v)
    {
      hide Tree, UsersOk, Partition, Grew, Unmaps, Leaf, LeafTable, I0, I1, I2, Without, Keeps, Flags, Pte2Pa, IsRoot,
           IsPage;
      ghost var first := va / PGSIZE;
      k := 0;
      UnmapsStart(mem, owner, users, held, freelist, root, first);
      if va % PGSIZE != 0 {
        return true, 0;
      }
      var a := va;
      while a < va + npages * PGSIZE
        invariant a == va + k * PGSIZE && 0 <= k <= npages
        invariant Valid() && held == old(held) && owner == old(owner)
        invariant Unmaps(old(mem), owner, mem, root, first, k)
        invariant users == if doFree then Without(old(users), root, first, k) else old(users)
        invariant Keeps(old(mem), mem, users, held)
        invariant |freelist| == |old(freelist)| + if doFree then k else 0
        invariant forall v | first <= v < first + k :: IsPage(old(mem), root, v)
      {
        panic := UnmapOne(root, a, doFree, old(mem), old(users), first, k);
        if panic {
          return;
        }
        k := k + 1;
        a := a + PGSIZE;
      }
      return false, k;
    }

    /** One round of uvmunmap's loop. */
    method UnmapOne(root: nat, a: nat, doFree: bool, ghost m0: Memory, ghost users0: map<nat, (nat, nat)>,
                    ghost first: nat, ghost k: nat)
      returns (panic: bool)
      requires Valid() && IsRoot(owner, root) && a == (first + k) * PGSIZE
      requires Unmaps(m0, owner, mem, root, first, k) && UsersOk(m0, owner, users0)
      requires IsPage(m0, root, first + k) ==> Removable(m0, users0, root, first + k, doFree)
      requires users == if doFree then Without(users0, root, first, k) else users0
      requires Keeps(m0, mem, users, held)
      modifies this
      ensures Valid() && held == old(held) && owner == old(owner) && Keeps(m0, mem, users, held)
      ensures panic == !IsPage(m0, root, first + k)
      ensures panic ==> mem == old(mem) && users == old(users) && freelist == old(freelist)
      ensures !panic ==> Unmaps(m0, owner, mem, root, first, k + 1)
      ensures !panic ==> users == if doFree then Without(users0, root, first, k + 1) else users0
      ensures !panic ==> |freelist| == |old(freelist)| + if doFree then 1 else 0
    {
      hide Tree, UsersOk, Partition, Grew, Unmaps, Leaf, LeafTable, I0, I1, I2, Without, Keeps, Flags, Pte2Pa, IsRoot;
      ghost var m, us := mem, users;
      var t, i;
      panic, t, i := Walk(root, a, false);
      if panic {
        return;
      }
      PageFound(m0, owner, mem, root, first, k, t);
      if t == 0 || !IsValid(mem[t][i]) || Flags(mem[t][i]) == PTE_V {
        return true;
      }
      SameMappingsReflexive(m, owner);
      if doFree {
        var pa := Pte2Pa(mem[t][i]);
        WithoutStep(m0, owner, users0, root, first, k, pa);
        Apart(mem.Keys, freelist, owner.Keys, users.Keys, held, pa, t);
        Unbook(pa);
        var _ := Kfree(pa);
        assert held == old(held);
        FillKeepsTables(m, owner, users, pa, mem[pa]);
        KeepsAfter(m0, m, us, held, users, pa, mem[pa]);
      }
      UnbookedAt(m0, owner, users0, root, first, k, users);
      UnmapsStep(m0, owner, m, mem, root, first, k, t, users);
      Apart(mem.Keys, freelist, owner.Keys, users.Keys, held, 0, t);
      KeepsAfter(m0, mem, users, held, users, t, Put(mem[t], i, 0));
      mem := SetEntry(mem, t, i, 0);
      return false;
    }

    /** The held frame f, mapped at page v of a tree, becomes a user frame. */
    ghost method Book(f: nat, root: nat, v: nat)
      requires Valid() && f in held && IsRoot(owner, root) && v < VPNS
      requires Leaf(mem, root, v) != 0 && Pte2Pa(Leaf(mem, root, v)) == f
      modifies this`users, this`held
      ensures Valid() && users == old(users)[f := (root, v)] && held == old(held) - {f}
    {
      HeldBecomesUser(mem.Keys, freelist, owner.Keys, users.Keys, held, f);
      assert users[f := (root, v)].Keys == users.Keys + {f};
      users := users[f := (root, v)];
      held := held - {f};
    }

    /**
     The loop body shared by uvmalloc and uvmcopy: a new frame with given contents,
     mapped at a; freed again if that fails.
     */
    method AddPage(root: nat, a: nat, page: Page, perm: nat) returns (out: Outcome, ghost f: nat)
      requires Valid() && IsRoot(owner, root) && a % PGSIZE == 0 && perm < 1024 && |page| == 512
      modifies this
      ensures out == Panic ==> VPNS <= a / PGSIZE || Leaf(old(mem), root, a / PGSIZE) != 0
      ensures out != Panic ==> Valid() && held == old(held) && Keeps(old(mem), mem, old(users), held)
      ensures out != Panic ==> mem.Keys == old(mem).Keys
      ensures out == Done ==> a < MAXVA && Leaf(old(mem), root, a / PGSIZE) == 0
      ensures out == Done ==>
                AddsPage(old(mem), old(owner), old(users), mem, owner, users, root, a / PGSIZE, f, perm, page)
      ensures out == NoMemory ==>
                users == old(users) && MoreTables(old(owner), owner) && Restores(old(mem), old(owner), mem)
      ensures out == NoMemory ==> |freelist| <= 1
    {
      hide Tree, UsersOk, Partition, Maps, Leaf, MakePte, IsRoot, Keeps, AddsPage, MoreTables, Restores, Filled;
      ghost var m, o, us, h := mem, owner, users, held;
      var pa := Kalloc();
      f := pa;
      if pa == 0 {
        AddPageNone(m, o, us, h, freelist);
        return NoMemory, 0;
      }
      assert mem.Keys == m.Keys;
      FillKeepsTables(m, o, us, pa, page);
      mem := mem[pa := page];
      assert mem == m[pa := page] && mem.Keys == m.Keys;
      assert (a + PGSIZE - 1) / PGSIZE == a / PGSIZE;
      ghost var k;
      SameLeaf(m, o, mem, root, a / PGSIZE);
      out, k := Mappages(root, a, PGSIZE, pa, perm);
      if out == Panic {
        return;
      }
      assert users == us && held == h + {pa};
      if out == Done {
        TreePages(m, o);
        AddPageMapped(m, o, us, pa, page, mem, owner, root, a / PGSIZE, perm);
        AddPageDone(m, o, us, h, pa, page, mem, owner, freelist, root, a / PGSIZE, perm);
        Book(pa, root, a / PGSIZE);
      } else {
        ghost var m2, o2, free2 := mem, owner, freelist;
        Apart(m2.Keys, free2, o2.Keys, us.Keys, held, pa, 0);
        var _ := Kfree(pa);
        FillKeepsTables(m2, o2, us, pa, mem[pa]);
        AddPageFailed(m, o, us, h, pa, page, m2, o2, free2, root, a / PGSIZE, perm, mem[pa]);
      }
    }

    /** uvmdealloc: shrink the process from oldsz to newsz. */
    method Uvmdealloc(root: nat, oldsz: nat, newsz: nat) returns (sz: nat)
      requires Valid() && IsRoot(owner, root) && (oldsz <= MAXVA || oldsz <= newsz)
      requires forall v: nat | StartsIn(v, newsz, oldsz) :: IsBooked(mem, users, root, v)
      modifies this
      ensures Valid() && held == old(held) && owner == old(owner)
      ensures sz == if newsz < oldsz then newsz else oldsz
      ensures Clears(old(mem), owner, mem, root, newsz, oldsz)
      ensures users == Outside(old(users), root, newsz, oldsz)
      ensures |freelist| == |old(freelist)| + Count(PagesOf(newsz), PagesOf(oldsz))
      ensures Keeps(old(mem), mem, users, held)
    {
      hide Tree, UsersOk, Partition, Unmaps, Without, Keeps, Leaf, IsRoot, Pte2Pa, Flags, IsPage, IsBooked, Removable,
           Clears, Outside;
      ghost var m := mem;
      UnmapsStart(mem, owner, users, held, freelist, root, PagesOf(newsz));
      OutsideIsWithout(users, root, newsz, oldsz);
      if newsz >= oldsz {
        UnmapsClears(m, owner, mem, root, newsz, oldsz);
        return oldsz;
      }
      StartsInPages(newsz, oldsz);
      BookedIsRemovable(mem, users, root, PagesOf(newsz), PagesOf(oldsz));
      if PagesOf(newsz) * PGSIZE < PagesOf(oldsz) * PGSIZE {
        var npages := (PagesOf(oldsz) * PGSIZE - PagesOf(newsz) * PGSIZE) / PGSIZE;
        var panic, k := Uvmunmap(root, PagesOf(newsz) * PGSIZE, npages, true);
      }
      UnmapsClears(m, owner, mem, root, newsz, oldsz);
      return newsz;
    }

    /**
     uvmalloc: grow the process from oldsz to newsz with zeroed pages.
     When memory runs out every mapping and every user frame is as before; it
     has run out only if, with all of them back, no more frames are free than
     pages were asked for.
     */
    method Uvmalloc(root: nat, oldsz: nat, newsz: nat, xperm: nat) returns (panic: bool, sz: nat)
      requires Valid() && IsRoot(owner, root) && xperm in {0, PTE_W, PTE_X, PTE_W + PTE_X}
      modifies this
      ensures panic ==> MAXVA < newsz || exists v: nat | StartsIn(v, oldsz, newsz) :: Leaf(old(mem), root, v) != 0
      ensures !panic ==> Valid() && held == old(held) && Keeps(old(mem), mem, old(users), held)
      ensures !panic ==> sz == oldsz || sz == newsz || sz == 0
      ensures newsz < oldsz ==>
                !panic && sz == oldsz && mem == old(mem) && owner == old(owner) && users == old(users)
      ensures !panic && oldsz <= newsz && sz == newsz ==>
                Fills(old(mem), old(owner), old(users), mem, owner, users, root, oldsz, newsz)
      ensures !panic && oldsz <= newsz && sz == newsz ==>
                forall v: nat | StartsIn(v, oldsz, newsz) ::
                  v < VPNS && Leaf(old(mem), root, v) == 0
                  && Holds(mem, users, root, v, PTE_R + PTE_U + xperm, ZeroPage())
      ensures !panic && oldsz <= newsz && sz != newsz ==>
                sz == 0 && users == old(users) && MoreTables(old(owner), owner) && Restores(old(mem), old(owner), mem)
      ensures !panic && oldsz <= newsz && sz != newsz ==> |freelist| <= Count(PagesOf(oldsz), PagesOf(newsz))
    {
      hide Tree, UsersOk, Partition, Unmaps, Without, Keeps, Leaf, IsRoot, Pte2Pa, Flags, Populates, AddsPage,
           MoreTables, Restores, Booked, Fills, Holds, Clears, Outside;
      StartsInPages(oldsz, newsz);
      ghost var lo, n := PagesOf(oldsz), Count(PagesOf(oldsz), PagesOf(newsz));
      ghost var want := Blank(n, PTE_R + PTE_U + xperm);
      UnmapsStart(mem, owner, users, held, freelist, root, lo);
      panic := false;
      if newsz < oldsz {
        return false, oldsz;
      }
      PopulatesStart(mem, owner, users, root, lo, want);
      ghost var k := 0;
      var a := PagesOf(oldsz) * PGSIZE;
      while a < newsz
        invariant !panic && a == (lo + k) * PGSIZE && k <= n && (lo + k <= VPNS || k == 0)
        invariant Vacant(old(mem), root, lo, lo + k)
        invariant Valid() && held == old(held)
        invariant Populates(old(mem), old(owner), old(users), mem, owner, users, root, lo, k, want)
        invariant Keeps(old(mem), mem, old(users), held)
      {
        ghost var m, o, us := mem, owner, users;
        PopulatesFacts(old(mem), old(owner), old(users), m, o, us, root, lo, k, want);
        var out, f := AddPage(root, a, ZeroPage(), PTE_R + PTE_U + xperm);
        if out == Panic {
          return true, 0;
        }
        KeepsChain(old(mem), m, mem, old(users), us, held);
        if out == NoMemory {
          PopulatesKept(old(mem), old(owner), old(users), m, o, us, mem, owner, held, root, lo, k, want);
          PopulatesFacts(old(mem), old(owner), old(users), mem, owner, us, root, lo, k, want);
          PopulatedIsBooked(old(mem), old(owner), old(users), mem, owner, us, root, lo, k, want);
          m, o := mem, owner;
          BookedBytes(m, us, root, lo, k);
          var _ := Uvmdealloc(root, a, PagesOf(oldsz) * PGSIZE);
          ClearsUnmaps(m, o, mem, root, lo, k);
          OutsideIsWithout(us, root, lo * PGSIZE, a);
          PopulatesUndone(old(mem), old(owner), old(users), m, o, us, mem, root, lo, k, want);
          KeepsChain(old(mem), m, mem, old(users), users, held);
          return false, 0;
        }
        PopulatesStep(old(mem), old(owner), old(users), m, o, us, mem, owner, users, root, lo, k, want, f);
        k := k + 1;
        a := a + PGSIZE;
      }
      PopulatesFills(old(mem), old(owner), old(users), mem, owner, users, root, oldsz, newsz, want);
      return false, newsz;
    }

    /**
     uvmcopy: give the child a copy of every page of the parent.
     When memory runs out, in the same sense, every mapping and every user frame is as before.
     */
    method Uvmcopy(parent: nat, child: nat, sz: nat) returns (panic: bool, ok: bool)
      requires Valid() && IsRoot(owner, parent) && IsRoot(owner, child) && parent != child
      requires forall v: nat | StartsIn(v, 0, sz) && v < VPNS && Leaf(mem, parent, v) != 0 ::
                 IsBooked(mem, users, parent, v)
      modifies this
      ensures panic ==>
                exists v: nat | StartsIn(v, 0, sz) ::
                  VPNS <= v || Leaf(old(mem), parent, v) == 0 || Leaf(old(mem), child, v) != 0
      ensures !panic ==> Valid() && held == old(held) && Keeps(old(mem), mem, old(users), held)
      ensures !panic && ok ==> Fills(old(mem), old(owner), old(users), mem, owner, users, child, 0, sz)
      ensures !panic && ok ==>
                forall v: nat | StartsIn(v, 0, sz) :: IsCopied(old(mem), mem, users, parent, child, v)
      ensures !panic && ok ==> forall a: nat | a < sz :: Leaf(mem, child, a / PGSIZE) != 0
      ensures !panic && !ok ==>
                users == old(users) && MoreTables(old(owner), owner) && Restores(old(mem), old(owner), mem)
      ensures !panic && !ok ==> |freelist| <= PagesOf(sz)
    {
      hide Tree, UsersOk, Partition, Unmaps, Without, Keeps, Leaf, LeafTable, IsRoot, Pte2Pa, Flags, Populates,
           AddsPage, MoreTables, Restores, Booked,
           I0, I1, I2, Image, IsBooked, IsPage, Removable, Fills, IsCopied;
      StartsInPages(0, sz);
      ghost var n := PagesOf(sz);
      ghost var want := Image(mem, parent, n);
      panic := false;
      NoneBooked(mem, users, parent);
      UnmapsStart(mem, owner, users, held, freelist, child, 0);
      PopulatesStart(mem, owner, users, child, 0, want);
      ghost var k := 0;
      var i := 0;
      while i < sz
        invariant !panic && i == k * PGSIZE && k <= n && k <= VPNS && Booked(old(mem), old(users), parent, 0, k)
        invariant Vacant(old(mem), child, 0, k)
        invariant Valid() && held == old(held)
        invariant Populates(old(mem), old(owner), old(users), mem, owner, users, child, 0, k, want)
        invariant Keeps(old(mem), mem, old(users), held)
      {
        ghost var m, o, us := mem, owner, users;
        PopulatesFacts(old(mem), old(owner), old(users), m, o, us, child, 0, k, want);
        RootStays(old(owner), o, parent);
        var t, j;
        panic, t, j := Walk(parent, i, false);
        if panic {
          assert VPNS <= k;
          return true, false;
        }
        SourceEntry(old(mem), old(owner), old(users), mem, o, us, parent, child, k, want, t);
        if t == 0 || !IsValid(mem[t][j]) {
          return true, false;
        }
        BookedMore(old(mem), old(users), parent, k);
        SourceFound(old(mem), old(owner), old(users), mem, o, us, held, parent, child, k, n, want);
        var out, f := AddPage(child, i, mem[Pte2Pa(mem[t][j])], Flags(mem[t][j]));
        if out == Panic {
          return true, false;
        }
        KeepsChain(old(mem), m, mem, old(users), us, held);
        if out == NoMemory {
          PopulatesKept(old(mem), old(owner), old(users), m, o, us, mem, owner, held, child, 0, k, want);
          PopulatesFacts(old(mem), old(owner), old(users), mem, owner, us, child, 0, k, want);
          PopulatedIsBooked(old(mem), old(owner), old(users), mem, owner, us, child, 0, k, want);
          m, o := mem, owner;
          BookedIsRemovable(m, us, child, 0, k);
          var _, j := Uvmunmap(child, 0, i / PGSIZE, true);
          PopulatesUndone(old(mem), old(owner), old(users), m, o, us, mem, child, 0, k, want);
          KeepsChain(old(mem), m, mem, old(users), users, held);
          return false, false;
        }
        PopulatesStep(old(mem), old(owner), old(users), m, o, us, mem, owner, users, child, 0, k, want, f);
        k := k + 1;
        i := i + PGSIZE;
      }
      CopiedPages(old(mem), old(owner), old(users), mem, owner, users, held, parent, child, sz);
      return false, true;
    }

    /** freewalk: free a table that maps nothing and every table below it. */
    method Freewalk(t: nat)
      requires Valid() && t in owner && Bare(mem, owner, t)
      modifies this
      ensures Books() && users == old(users) && held == old(held) && mem.Keys == old(mem).Keys
      ensures owner == old(owner) - Sub(old(owner), t)
      ensures TreeBut(mem, owner, UpSlot(old(owner), t).0, UpSlot(old(owner), t).1)
      ensures SameTables(old(mem), mem, owner) && Keeps(old(mem), mem, users, held)
      decreases 2 - |owner[t].path|
    {
      hide Tree, UsersOk, Partition, Bare, Keeps, IsValid, Pte2Pa, Sub, TreeBut, Pruned;
      PrunedStart(mem, owner, t, users, held, freelist);
      var i := 0;
      while i < 512
        invariant 0 <= i <= 512
        invariant Valid() && users == old(users) && held == old(held) && mem.Keys == old(mem).Keys
        invariant t in owner && owner[t] == old(owner)[t] && Bare(mem, owner, t)
                  && Pruned(old(mem), old(owner), mem, owner, t)
        invariant Keeps(old(mem), mem, users, held)
        invariant forall j | 0 <= j < i :: EntryInvalid(mem, t, j)
      {
        ghost var m, o := mem, owner;
        TableInMemory(m, o, 0, t);
        var pte := mem[t][i];
        if IsValid(pte) {
          EntryPointsDown(m, o, t, i);
        }
        if IsValid(pte) && pte / 2 % 8 == 0 {
          var child := Pte2Pa(pte);
          Freewalk(child);
          PruneChild(old(mem), old(owner), m, o, mem, owner, t, i, child, users);
          KeepsChain(old(mem), m, mem, users, users, held);
          Apart(mem.Keys, freelist, owner.Keys, users.Keys, held, 0, t);
          KeepsAfter(old(mem), mem, users, held, users, t, Put(mem[t], i, 0));
          mem := SetEntry(mem, t, i, 0);
        } else if IsValid(pte) {
          assert false;
        }
        i := i + 1;
      }
      ghost var m, o := mem, owner;
      TableInMemory(m, o, 0, t);
      PrunedAll(old(mem), old(owner), m, o, t, Filled(0x0101_0101_0101_0101));
      Apart(m.Keys, freelist, o.Keys, users.Keys, held, 0, t);
      TableBecomesHeld(m.Keys, freelist, o.Keys, users.Keys, held, t);
      owner := owner - {t};
      held := held + {t};
      var _ := Kfree(t);
      KeepsAfter(old(mem), m, users, held, users, t, Filled(0x0101_0101_0101_0101));
    }

    /** uvmcreate: an empty tree, or 0. */
    method Uvmcreate() returns (root: nat)
      requires Valid()
      modifies this
      ensures Valid() && users == old(users) && held == old(held)
      ensures root == 0 <==> old(freelist) == []
      ensures root == 0 ==> mem == old(mem) && owner == old(owner)
      ensures root != 0 ==> root !in old(owner) && owner == old(owner)[root := Node(root, [], root)]
      ensures root != 0 ==> Vacant(mem, root, 0, VPNS) && SameMappings(old(mem), old(owner), mem)
    {
      hide Tree, UsersOk, Partition, Leaf, Filled;
      ghost var m, o := mem, owner;
      root := Kalloc();
      if root == 0 {
        return;
      }
      assert mem.Keys == m.Keys;
      mem := mem[root := ZeroPage()];
      assert mem == m[root := ZeroPage()] && mem.Keys == m.Keys;
      NewRoot(m, o, users, root);
      HeldBecomesTable(mem.Keys, freelist, o.Keys, users.Keys, held, root);
      owner := owner[root := Node(root, [], root)];
      assert owner.Keys == o.Keys + {root};
      held := held - {root};
    }

    /** uvmfree: every frame of the tree, data and tables, goes back to the free list. */
    method Uvmfree(root: nat, sz: nat) returns (panic: bool)
      requires Valid() && IsRoot(owner, root) && forall v: nat | StartsIn(v, sz, MAXVA) :: Leaf(mem, root, v) == 0
      requires forall v: nat | StartsIn(v, 0, sz) && IsPage(mem, root, v) :: IsBooked(mem, users, root, v)
      modifies this
      ensures panic <==> exists v: nat | StartsIn(v, 0, sz) :: !IsPage(old(mem), root, v)
      ensures !panic ==> Valid() && held == old(held)
      ensures !panic ==> owner == old(owner) - Sub(old(owner), root) && forall f | f in owner :: owner[f].root != root
      ensures !panic ==>
                users == Outside(old(users), root, 0, sz) && forall f | f in users :: users[f].0 != root
      ensures !panic ==> Restores(old(mem), owner, mem) && Keeps(old(mem), mem, users, held)
      ensures !panic ==>
                Elems(freelist) == Elems(old(freelist)) + Sub(old(owner), root) + (old(users).Keys - users.Keys)
    {
      hide Tree, UsersOk, Partition, Leaf, Sub, Without, Keeps, Unmaps, SameMappings, Restores, Booked, TreeBut, Bare,
           Elems, IsPage, Removable, Outside;
      ghost var m, o, us := mem, owner, users;
      StartsInPages(0, sz);
      StartsInPages(sz, MAXVA);
      OutsideIsWithout(us, root, 0, sz);
      UnmapsStart(mem, owner, users, held, freelist, root, 0);
      if sz > 0 {
        PagesRemovable(mem, users, root, PagesOf(sz));
        ghost var k;
        panic, k := Uvmunmap(root, 0, PagesOf(sz) * PGSIZE / PGSIZE, true);
        if panic {
          return;
        }
      }
      panic := false;
      ghost var m1, us1 := mem, users;
      UnmappedIsVacant(m, o, m1, root, PagesOf(sz));
      EmptyIsBare(m1, o, root);
      Freewalk(root);
      RootSlot(o, root);
      FreedTreeKeeps(m1, o, mem, owner, root, users);
      RestoresOthers(m, o, m1, mem, owner, root, PagesOf(sz));
      UsersElsewhere(mem, owner, users, root);
      KeepsChain(m, m1, mem, users, users, held);
      WithoutKeys(us, root, 0, PagesOf(sz));
      FreedAll(mem.Keys, old(freelist), freelist, o, root, us, users, held);
    }
  }

  lemma UnmappedIsVacant(m: Memory, o: map<nat, Node>, m1: Memory, root: nat, n: nat)
    requires Unmaps(m, o, m1, root, 0, n) && Vacant(m, root, n, VPNS) && IsRoot(o, root)
    ensures Vacant(m1, root, 0, VPNS) && m1.Keys == m.Keys
  {
    hide Leaf;
  }

  lemma RootSlot(o: map<nat, Node>, root: nat)
    requires IsRoot(o, root)
    ensures UpSlot(o, root) == (0, 0)
  {
  }

  lemma RestoresOthers(m: Memory, o: map<nat, Node>, m1: Memory, m2: Memory, o2: map<nat, Node>, root: nat, n: nat)
    requires Unmaps(m, o, m1, root, 0, n) && SameMappings(m1, o2, m2) && IsRoot(o, root) && o2 == o - Sub(o, root)
    ensures Restores(m, o2, m2)
  {
    hide Leaf;
    assert Under(o, root, root);
    forall r, v | IsRoot(o2, r) && 0 <= v < VPNS ensures Leaf(m2, r, v) == Leaf(m, r, v) {
      assert r != root && IsRoot(o, r);
      assert Leaf(m2, r, v) == Leaf(m1, r, v);
    }
  }

  lemma UsersElsewhere(m: Memory, o: map<nat, Node>, us: map<nat, (nat, nat)>, root: nat)
    requires UsersOk(m, o, us) && (forall f | f in o :: o[f].root != root) && Tree(m, o)
    ensures forall f | f in us :: us[f].0 != root
  {
    hide TreeBut, Leaf;
    forall f | f in us ensures us[f].0 != root {
      TableInMemory(m, o, 0, us[f].0);
    }
  }

  lemma WithoutKeys(us: map<nat, (nat, nat)>, root: nat, lo: nat, k: nat)
    ensures Without(us, root, lo, k).Keys <= us.Keys
  {
  }

  lemma FreedAll(all: set<nat>, free: seq<nat>, free': seq<nat>, o: map<nat, Node>, root: nat, us: map<nat, (nat, nat)>,
                 us': map<nat, (nat, nat)>, held: set<nat>)
    requires Partition(all, free, o.Keys, us.Keys, held) && root in o
    requires Partition(all, free', (o - Sub(o, root)).Keys, us'.Keys, held) && us'.Keys <= us.Keys
    ensures Elems(free') == Elems(free) + Sub(o, root) + (us.Keys - us'.Keys)
  {
    hide Elems, NoDups;
    assert (o - Sub(o, root)).Keys == o.Keys - Sub(o, root) && Sub(o, root) <= o.Keys;
  }

  /** Permissions and contents of the first n pages of a tree. */
  ghost function Image(m: Memory, root: nat, n: nat): (want: seq<(nat, Page)>)
    ensures |want| == n
  {
    seq(n, v requires v >= 0 => (Flags(Leaf(m, root, v)), PageAt(m, Pte2Pa(Leaf(m, root, v)))))
  }

  ghost function PageAt(m: Memory, f: nat): Page {
    if f in m then m[f] else ZeroPage()
  }

  lemma BookedIsRemovable(m: Memory, users: map<nat, (nat, nat)>, root: nat, lo: nat, hi: nat)
    requires Booked(m, users, root, lo, hi) && hi <= VPNS
    ensures forall v | lo <= v < hi :: Removable(m, users, root, v, true) && IsPage(m, root, v)
  {
  }

  /** The parent's page k is still where and what it was. */
  lemma SourceFound(m: Memory, o: map<nat, Node>, us: map<nat, (nat, nat)>, m1: Memory, o1: map<nat, Node>,
                    us1: map<nat, (nat, nat)>, h: set<nat>,
                    parent: nat, child: nat, k: nat, n: nat, want: seq<(nat, Page)>)
    requires k < n && k < VPNS && want == Image(m, parent, n) && Populates(m, o, us, m1, o1, us1, child, 0, k, want)
    requires Tree(m1, o1) && IsRoot(o, parent) && parent != child && Booked(m, us, parent, 0, k + 1)
             && Keeps(m, m1, us, h)
    ensures IsRoot(o1, parent)
    ensures var t, j := LeafTable(m1, parent, k), I0(k);
            && t != 0 && t in m1 && |m1[t]| == 512 && Pte2Pa(m1[t][j]) in m1 && |m1[Pte2Pa(m1[t][j])]| == 512
            && m1[Pte2Pa(m1[t][j])] == want[k].1 && Flags(m1[t][j]) == want[k].0 && Flags(m1[t][j]) < 1024
    ensures forall i | 0 <= i < k :: want[i].0 > 1
  {
    hide Leaf, LeafTable, I0, Pte2Pa, Flags, IsPopulated, Without, TreeBut, Image, PageAt;
    assert Leaf(m1, parent, k) == Leaf(m, parent, k);
    assert IsBooked(m, us, parent, k);
    LeafEntry(m1, o1, parent, k);
    ImageAt(m, parent, n, k);
    TreePages(m1, o1);
    forall i | 0 <= i < k ensures want[i].0 > 1 {
      assert IsBooked(m, us, parent, i);
      ImageAt(m, parent, n, i);
    }
  }

  lemma LeafEntry(m: Memory, o: map<nat, Node>, root: nat, v: nat)
    requires Tree(m, o) && Leaf(m, root, v) != 0
    ensures var t := LeafTable(m, root, v); t != 0 && t in m && |m[t]| == 512 && m[t][I0(v)] == Leaf(m, root, v)
  {
  }

  /** What walk finds of a page of the parent, while the child is being filled. */
  lemma SourceEntry(m: Memory, o: map<nat, Node>, us: map<nat, (nat, nat)>, m1: Memory, o1: map<nat, Node>,
                    us1: map<nat, (nat, nat)>, parent: nat, child: nat, k: nat, want: seq<(nat, Page)>, t: nat)
    requires k <= |want| && k < VPNS && Populates(m, o, us, m1, o1, us1, child, 0, k, want)
    requires Tree(m1, o1) && IsRoot(o, parent) && parent != child
    requires t == LeafTable(m1, parent, k) && (t != 0 ==> t in o1 && t in m1)
    ensures t == 0 ==> Leaf(m, parent, k) == 0
    ensures t != 0 ==> |m1[t]| == 512 && (IsValid(m1[t][I0(k)]) <==> Leaf(m, parent, k) != 0)
  {
    hide IsPopulated, Without, LeafTable, I0;
    assert Leaf(m1, parent, k) == Leaf(m, parent, k);
    if t != 0 {
      TableInMemory(m1, o1, 0, t);
    }
  }

  lemma PagesRemovable(m: Memory, us: map<nat, (nat, nat)>, root: nat, n: nat)
    requires forall v | 0 <= v < n && IsPage(m, root, v) :: IsBooked(m, us, root, v)
    ensures forall v | 0 <= v < n && IsPage(m, root, v) :: Removable(m, us, root, v, true)
  {
    hide IsPage, IsBooked;
  }

  lemma RootStays(o: map<nat, Node>, o1: map<nat, Node>, r: nat)
    requires MoreTables(o, o1) && IsRoot(o, r)
    ensures IsRoot(o1, r)
  {
  }

  lemma NoneBooked(m: Memory, us: map<nat, (nat, nat)>, root: nat)
    ensures Booked(m, us, root, 0, 0)
  {
  }

  lemma BookedMore(m: Memory, us: map<nat, (nat, nat)>, root: nat, k: nat)
    requires Booked(m, us, root, 0, k) && IsBooked(m, us, root, k)
    ensures Booked(m, us, root, 0, k + 1)
  {
    hide IsBooked;
  }

  /** The same mappings map the same page. */
  lemma SameLeaf(m: Memory, o: map<nat, Node>, m1: Memory, root: nat, v: nat)
    requires SameMappings(m, o, m1) && IsRoot(o, root)
    ensures v < VPNS ==> Leaf(m1, root, v) == Leaf(m, root, v)
  {
    hide Leaf;
  }

  lemma ImageAt(m: Memory, root: nat, n: nat, v: nat)
    requires v < n
    ensures Image(m, root, n)[v].0 == Flags(Leaf(m, root, v)) < 1024
    ensures Leaf(m, root, v) != 0 && Flags(Leaf(m, root, v)) != PTE_V ==> Flags(Leaf(m, root, v)) > 1
    ensures Pte2Pa(Leaf(m, root, v)) in m ==> Image(m, root, n)[v].1 == m[Pte2Pa(Leaf(m, root, v))]
  {
    assert Leaf(m, root, v) != 0 ==> IsValid(Leaf(m, root, v));
  }

  /** The addresses of pages lo up to hi. */
  ghost function PageRange(lo: nat, hi: nat): set<nat> {
    set q: nat | lo <= q < hi :: q * PGSIZE
  }

  /** The page addresses whose pages lie between two addresses. */
  ghost function WholePages(start: nat, end: nat): set<nat> {
    set a: nat | start <= a < end && a + PGSIZE <= end && a % PGSIZE == 0
  }

  lemma WholeIsRange(start: nat, end: nat)
    ensures WholePages(start, end) == PageRange(PagesOf(start), end / PGSIZE)
  {
    forall a | a in WholePages(start, end) ensures a in PageRange(PagesOf(start), end / PGSIZE) {
      var q := a / PGSIZE;
      assert a == q * PGSIZE && PagesOf(start) <= q < end / PGSIZE;
    }
  }

  lemma PageRangeStep(lo: nat, q: nat)
    requires lo <= q
    ensures PageRange(lo, q + 1) == PageRange(lo, q) + {q * PGSIZE} && q * PGSIZE !in PageRange(lo, q)
  {
  }

  /** The number of pages that sz bytes take: PGROUNDUP(sz) / PGSIZE. */
  function PagesOf(sz: nat): (n: nat)
    ensures sz <= n * PGSIZE < sz + PGSIZE
  {
    (sz + PGSIZE - 1) / PGSIZE
  }

  /** Page v starts at or above lo and below hi. */
  ghost predicate StartsIn(v: nat, lo: nat, hi: nat) {
    lo <= v * PGSIZE < hi
  }

  lemma StartsInPages(lo: nat, hi: nat)
    ensures forall v: nat :: StartsIn(v, lo, hi) <==> PagesOf(lo) <= v < PagesOf(hi)
  {
  }

  /** The user frames that remain when those of a tree's pages that start in a range of addresses go. */
  ghost function Outside(users: map<nat, (nat, nat)>, root: nat, lo: nat, hi: nat): map<nat, (nat, nat)> {
    map f | f in users && !(users[f].0 == root && StartsIn(users[f].1, lo, hi)) :: users[f]
  }

  /** Exactly the pages of a tree that start in a range of addresses are gone. */
  ghost predicate Clears(m: Memory, owner: map<nat, Node>, m': Memory, root: nat, lo: nat, hi: nat) {
    && m'.Keys == m.Keys
    && (forall r, v | IsRoot(owner, r) && 0 <= v < VPNS ::
          Leaf(m', r, v) == if r == root && StartsIn(v, lo, hi) then 0 else Leaf(m, r, v))
  }

  /** Only pages of a tree that start in a range of addresses were given frames. */
  ghost predicate Fills(m: Memory, o: map<nat, Node>, users: map<nat, (nat, nat)>,
                        m': Memory, o': map<nat, Node>, users': map<nat, (nat, nat)>, root: nat, lo: nat, hi: nat)
  {
    && m'.Keys == m.Keys && MoreTables(o, o')
    && (forall r, v | IsRoot(o, r) && 0 <= v < VPNS && !(r == root && StartsIn(v, lo, hi)) ::
          Leaf(m', r, v) == Leaf(m, r, v))
    && Outside(users', root, lo, hi) == users
  }

  /** Page v of the child has the permissions and the contents that the parent's page v had. */
  ghost predicate IsCopied(m: Memory, m': Memory, users': map<nat, (nat, nat)>, parent: nat, child: nat, v: nat) {
    var f := Pte2Pa(Leaf(m, parent, v));
    v < VPNS && Leaf(m, parent, v) != 0 && f in m && Holds(m', users', child, v, Flags(Leaf(m, parent, v)), m[f])
  }

  lemma OutsideIsWithout(users: map<nat, (nat, nat)>, root: nat, lo: nat, hi: nat)
    ensures Outside(users, root, lo, hi) == Without(users, root, PagesOf(lo), Count(PagesOf(lo), PagesOf(hi)))
  {
    StartsInPages(lo, hi);
  }

  lemma UnmapsClears(m: Memory, o: map<nat, Node>, m': Memory, root: nat, lo: nat, hi: nat)
    requires Unmaps(m, o, m', root, PagesOf(lo), Count(PagesOf(lo), PagesOf(hi)))
    ensures Clears(m, o, m', root, lo, hi)
  {
    hide Leaf;
    StartsInPages(lo, hi);
  }

  lemma BookedBytes(m: Memory, users: map<nat, (nat, nat)>, root: nat, lo: nat, k: nat)
    requires Booked(m, users, root, lo, lo + k)
    ensures forall v: nat | StartsIn(v, lo * PGSIZE, (lo + k) * PGSIZE) :: IsBooked(m, users, root, v)
  {
    hide IsBooked;
    StartsInPages(lo * PGSIZE, (lo + k) * PGSIZE);
  }

  lemma ClearsUnmaps(m: Memory, o: map<nat, Node>, m': Memory, root: nat, lo: nat, k: nat)
    requires Clears(m, o, m', root, lo * PGSIZE, (lo + k) * PGSIZE)
    ensures Unmaps(m, o, m', root, lo, k)
    ensures PagesOf(lo * PGSIZE) == lo && PagesOf((lo + k) * PGSIZE) == lo + k
  {
    hide Leaf;
    StartsInPages(lo * PGSIZE, (lo + k) * PGSIZE);
  }

  lemma PopulatesFills(m: Memory, o: map<nat, Node>, us: map<nat, (nat, nat)>,
                       m1: Memory, o1: map<nat, Node>, us1: map<nat, (nat, nat)>, root: nat, lo: nat, hi: nat,
                       want: seq<(nat, Page)>)
    requires |want| == Count(PagesOf(lo), PagesOf(hi))
    requires Populates(m, o, us, m1, o1, us1, root, PagesOf(lo), |want|, want)
    ensures Fills(m, o, us, m1, o1, us1, root, lo, hi)
    ensures forall v: nat | StartsIn(v, lo, hi) ::
              PagesOf(lo) <= v < PagesOf(lo) + |want|
              && Holds(m1, us1, root, v, want[v - PagesOf(lo)].0, want[v - PagesOf(lo)].1)
  {
    hide Leaf, Holds, Outside, Without;
    StartsInPages(lo, hi);
    OutsideIsWithout(us1, root, lo, hi);
    forall v: nat | StartsIn(v, lo, hi)
      ensures PagesOf(lo) <= v < PagesOf(lo) + |want|
      ensures Holds(m1, us1, root, v, want[v - PagesOf(lo)].0, want[v - PagesOf(lo)].1)
    {
      assert IsPopulated(m1, us1, root, PagesOf(lo), v, want);
    }
  }

  lemma CopiedPages(m: Memory, o: map<nat, Node>, us: map<nat, (nat, nat)>,
                    m1: Memory, o1: map<nat, Node>, us1: map<nat, (nat, nat)>, held: set<nat>,
                    parent: nat, child: nat, sz: nat)
    requires Keeps(m, m1, us, held) && PagesOf(sz) <= VPNS && Booked(m, us, parent, 0, PagesOf(sz))
    requires Populates(m, o, us, m1, o1, us1, child, 0, PagesOf(sz), Image(m, parent, PagesOf(sz)))
    ensures Fills(m, o, us, m1, o1, us1, child, 0, sz)
    ensures forall v: nat | StartsIn(v, 0, sz) :: IsCopied(m, m1, us1, parent, child, v)
    ensures forall a: nat | a < sz :: Leaf(m1, child, a / PGSIZE) != 0
  {
    hide Leaf, Populates, Fills, Image, MakePte, Pte2Pa, Flags;
    var want := Image(m, parent, PagesOf(sz));
    StartsInPages(0, sz);
    PopulatesFills(m, o, us, m1, o1, us1, child, 0, sz, want);
    forall v: nat | StartsIn(v, 0, sz) ensures IsCopied(m, m1, us1, parent, child, v) && Leaf(m1, child, v) != 0 {
      assert IsBooked(m, us, parent, v);
      ImageAt(m, parent, PagesOf(sz), v);
      MakePteFlags(Pte2Pa(Leaf(m1, child, v)), want[v].0);
    }
    forall a: nat | a < sz ensures Leaf(m1, child, a / PGSIZE) != 0 {
      assert StartsIn(a / PGSIZE, 0, sz);
    }
  }

  /** The number of pages from lo up to hi. */
  function Count(lo: nat, hi: nat): nat {
    if lo < hi then hi - lo else 0
  }

  ghost function Blank(n: nat, perm: nat): (want: seq<(nat, Page)>)
    ensures |want| == n && forall i | 0 <= i < n :: want[i].0 == perm && want[i].1 == ZeroPage()
  {
    seq(n, i => (perm, ZeroPage()))
  }

  function Filled(word: nat): (page: Page)
    ensures |page| == 512
  {
    seq(512, i => word)
  }

  /** Overwriting a page that is no table page keeps the trees and their mappings. */
  lemma FillKeepsTables(m: Memory, owner: map<nat, Node>, users: map<nat, (nat, nat)>, f: nat, page: Page)
    requires Tree(m, owner) && UsersOk(m, owner, users) && f in m && f !in owner && |page| == 512
    ensures Tree(m[f := page], owner) && UsersOk(m[f := page], owner, users)
    ensures m[f := page].Keys == m.Keys
    ensures SameMappings(m, owner, m[f := page])
    ensures forall r, v | IsRoot(owner, r) :: LeafTable(m[f := page], r, v) == LeafTable(m, r, v)
  {
    var m' := m[f := page];
    assert SameTables(m, m', owner) by {
      forall g | g in owner ensures g in m && g in m' && m'[g] == m[g] {
        assert LinkOk(m, owner, g);
      }
    }
    TreeFrame(m, m', owner);
    forall r, v | IsRoot(owner, r)
      ensures LeafTable(m', r, v) == LeafTable(m, r, v) && Leaf(m', r, v) == Leaf(m, r, v) {
      LeafFrame(m, m', owner, r, v);
    }
  }

  // ---------- The flat view ----------

  /** mappages is insertion into the flat map of its tree, and leaves the other trees' maps alone. */
  lemma MapsInserts(m: Memory, o: map<nat, Node>, m': Memory, o': map<nat, Node>, root: nat, first: nat, k: nat,
                    pa: nat, perm: nat, r: nat)
    requires perm < 1024 && Maps(m, o, m', o', root, first, k, pa, perm) && first + k <= VPNS && IsRoot(o, root)
             && IsRoot(o, r)
    ensures View(m', r) ==
            if r == root then View(m, r) + (map v | first <= v < first + k :: PteFor(pa, first, v, perm))
            else View(m, r)
  {
    hide Leaf;
    forall v | first <= v < first + k ensures PteFor(pa, first, v, perm) != 0 {
      MakePteFlags(pa + (v - first) * PGSIZE, perm);
    }
  }

  /** uvmunmap is deletion from the flat map of its tree, and leaves the other trees' maps alone. */
  lemma UnmapsDeletes(m: Memory, o: map<nat, Node>, m': Memory, root: nat, first: nat, k: nat, r: nat)
    requires Unmaps(m, o, m', root, first, k) && IsRoot(o, r)
    ensures View(m', r) ==
            if r == root then (map v | v in View(m, r) && !(first <= v < first + k) :: View(m, r)[v]) else View(m, r)
  {
    hide Leaf;
  }
}
