/**
 Link counts: the directory operations of kernel/fs.c and create, link and
 unlink of kernel/sysfile.c.

 A directory is the sequence of its entries; an entry with inode number 0 is
 empty.  A directory is live while its link count is positive.
 */
module Links {

  datatype Kind = Dir | File | Device

  datatype Entry = Entry(name: string, inum: nat)

  datatype Node = Node(kind: Kind, nlink: nat, entries: seq<Entry>)

  const ROOTINO := 1

  predicate IsDots(name: string) {
    name == "." || name == ".."
  }

  // ---------- Counting ----------

  predicate Live(inodes: map<nat, Node>, d: nat) {
    d in inodes && inodes[d].kind.Dir? && 0 < inodes[d].nlink
  }

  /** Entry k of live directory d names i, and is not ".". */
  predicate Names(inodes: map<nat, Node>, d: nat, k: nat, i: nat) {
    Live(inodes, d) && k < |inodes[d].entries| && inodes[d].entries[k].inum == i && inodes[d].entries[k].name != "."
  }

  /** The entries that count towards the link count of inode i. */
  ghost function Refs(inodes: map<nat, Node>, i: nat): set<(nat, nat)> {
    set d, k | d in inodes && 0 <= k < |inodes[d].entries| && Names(inodes, d, k, i) :: (d, k)
  }

  // ---------- The invariant ----------

  /** A live directory: ".", "..", then entries with other names for allocated inodes. */
  ghost predicate DirOk(inodes: map<nat, Node>, d: nat)
    requires d in inodes
  {
    var e := inodes[d].entries;
    && 2 <= |e| && e[0] == Entry(".", d) && e[1].name == ".." && e[1].inum in inodes
    && forall k | 2 <= k < |e| && e[k].inum != 0 :: !IsDots(e[k].name) && e[k].inum in inodes
  }

  /** A directory without links has no entries but "." and "..". */
  predicate OnlyDots(node: Node) {
    forall k | 0 <= k < |node.entries| && node.entries[k].inum != 0 :: IsDots(node.entries[k].name)
  }

  /** The one entry that names live directory c is in the directory its ".." names. */
  ghost predicate PlaceOk(inodes: map<nat, Node>, place: map<nat, (nat, nat)>, c: nat)
    requires c in place
  {
    var (p, k) := place[c];
    && Live(inodes, c) && Live(inodes, p) && p != c && c != ROOTINO
    && 2 <= k < |inodes[p].entries| && inodes[p].entries[k].inum == c
    && 2 <= |inodes[c].entries| && inodes[c].entries[1].inum == p
  }

  ghost predicate RootOk(inodes: map<nat, Node>) {
    0 !in inodes && Live(inodes, ROOTINO) && 2 <= |inodes[ROOTINO].entries|
        && inodes[ROOTINO].entries[1].inum == ROOTINO
  }

  ghost predicate DirsOk(inodes: map<nat, Node>) {
    forall d | d in inodes
        && inodes[d].kind.Dir? :: if 0 < inodes[d].nlink then DirOk(inodes, d) else OnlyDots(inodes[d])
  }

  ghost predicate PlacesOk(inodes: map<nat, Node>, place: map<nat, (nat, nat)>) {
    && (forall c | c in place :: PlaceOk(inodes, place, c))
    && (forall c | c in inodes && Live(inodes, c) && c != ROOTINO :: c in place)
  }

  /** No directory has a second name. */
  ghost predicate NamedOnce(inodes: map<nat, Node>, place: map<nat, (nat, nat)>) {
    forall d: nat, k: nat, c: nat | Names(inodes, d, k, c) && 2 <= k && c in inodes
        && inodes[c].kind.Dir? :: c in place && place[c] == (d, k)
  }

  ghost predicate Shape(inodes: map<nat, Node>, place: map<nat, (nat, nat)>) {
    RootOk(inodes) && DirsOk(inodes) && PlacesOk(inodes, place) && NamedOnce(inodes, place)
  }

  /** Link counts are exact. */
  ghost predicate CountsOk(inodes: map<nat, Node>) {
    forall i | i in inodes :: inodes[i].nlink == |Refs(inodes, i)|
  }

  ghost predicate LinksOk(inodes: map<nat, Node>, place: map<nat, (nat, nat)>) {
    Shape(inodes, place) && CountsOk(inodes)
  }

  // ---------- How changes move the counts ----------

  lemma InRefs(inodes: map<nat, Node>, i: nat, d: nat, k: nat)
    ensures (d, k) in Refs(inodes, i) <==> Names(inodes, d, k, i)
  {
  }

  lemma RefsSame(a: map<nat, Node>, b: map<nat, Node>, i: nat)
    requires forall d: nat, k: nat :: Names(b, d, k, i) <==> Names(a, d, k, i)
    ensures Refs(b, i) == Refs(a, i)
  {
    hide Names;
    forall x | x in Refs(a, i) || x in Refs(b, i) ensures x in Refs(a, i) && x in Refs(b, i) {
      InRefs(a, i, x.0, x.1);
      InRefs(b, i, x.0, x.1);
    }
  }

  lemma RefsPlusOne(a: map<nat, Node>, b: map<nat, Node>, i: nat, d0: nat, k0: nat)
    requires !Names(a, d0, k0, i) && Names(b, d0, k0, i)
    requires forall d: nat, k: nat | (d, k) != (d0, k0) :: Names(b, d, k, i) <==> Names(a, d, k, i)
    ensures |Refs(b, i)| == |Refs(a, i)| + 1
  {
    hide Names;
    InRefs(a, i, d0, k0);
    forall x ensures x in Refs(b, i) <==> x in Refs(a, i) + {(d0, k0)} {
      InRefs(a, i, x.0, x.1);
      InRefs(b, i, x.0, x.1);
      assert x == (x.0, x.1);
    }
    assert Refs(b, i) == Refs(a, i) + {(d0, k0)};
  }

  /** An empty entry, or the place after the last. */
  predicate Vacant(inodes: map<nat, Node>, d: nat, off: nat) {
    d in inodes && (off == |inodes[d].entries| || (off < |inodes[d].entries| && inodes[d].entries[off].inum == 0))
  }

  function PutEntry(entries: seq<Entry>, off: nat, e: Entry): (r: seq<Entry>)
    requires off <= |entries|
    ensures |r| == if off < |entries| then |entries| else |entries| + 1
    ensures r[off] == e && forall k | 0 <= k < |entries| && k != off :: r[k] == entries[k]
  {
    if off < |entries| then entries[off := e] else entries + [e]
  }

  // ---------- link ----------

  function Linked(inodes: map<nat, Node>, dp: nat, off: nat, name: string, ip: nat): map<nat, Node>
    requires dp in inodes && ip in inodes && off <= |inodes[dp].entries|
  {
    var n := inodes[ip := inodes[ip].(nlink := inodes[ip].nlink + 1)];
    n[dp := n[dp].(entries := PutEntry(inodes[dp].entries, off, Entry(name, ip)))]
  }

  ghost predicate IsLinked(inodes: map<nat, Node>, inodes': map<nat, Node>, dp: nat, off: nat, name: string, ip: nat) {
    Vacant(inodes, dp, off) && ip in inodes && inodes' == Linked(inodes, dp, off, name, ip)
  }

  /** A name in a directory that has lost its own does not count, but the link count has risen. */
  lemma DeadLinkBreaks(inodes: map<nat, Node>, place: map<nat, (nat, nat)>, dp: nat, off: nat, name: string, ip: nat)
    requires LinksOk(inodes, place) && dp in inodes && !Live(inodes, dp) && Vacant(inodes, dp, off)
    requires ip in inodes && !inodes[ip].kind.Dir? && dp != ip
    ensures forall place' :: !LinksOk(Linked(inodes, dp, off, name, ip), place')
  {
    hide Shape, Names, Refs, Linked;
    var linked := Linked(inodes, dp, off, name, ip);
    DeadNames(inodes, dp, off, name, ip);
    RefsSame(inodes, linked, ip);
    assert linked[ip].nlink != |Refs(linked, ip)|;
  }

  lemma DeadNames(inodes: map<nat, Node>, dp: nat, off: nat, name: string, ip: nat)
    requires Vacant(inodes, dp, off) && !Live(inodes, dp) && ip in inodes && !inodes[ip].kind.Dir? && dp != ip
    ensures var linked := Linked(inodes, dp, off, name, ip);
            && ip in linked && linked[ip].nlink == inodes[ip].nlink + 1
            && forall d: nat, k: nat :: Names(linked, d, k, ip) <==> Names(inodes, d, k, ip)
  {
  }

  lemma LinkedNames(inodes: map<nat, Node>, place: map<nat, (nat, nat)>, dp: nat, off: nat, name: string, ip: nat,
                    d: nat, k: nat, i: nat)
    requires Shape(inodes, place) && Live(inodes, dp) && Vacant(inodes, dp, off) && !IsDots(name)
    requires ip in inodes && !inodes[ip].kind.Dir? && i != 0
    ensures 2 <= off && Names(Linked(inodes, dp, off, name, ip), d, k, i)
            == (Names(inodes, d, k, i) || (d == dp && k == off && i == ip))
  {
    assert DirOk(inodes, dp);
  }

  /** A new name for a file and one more link keep the counts exact. */
  lemma LinkKeeps(inodes: map<nat, Node>, place: map<nat, (nat, nat)>, dp: nat, off: nat, name: string, ip: nat)
    requires LinksOk(inodes, place) && Live(inodes, dp) && Vacant(inodes, dp, off) && !IsDots(name)
    requires ip in inodes && !inodes[ip].kind.Dir?
    ensures LinksOk(Linked(inodes, dp, off, name, ip), place)
  {
    hide Names, Refs;
    var b := Linked(inodes, dp, off, name, ip);
    forall i | i in inodes ensures |Refs(b, i)| == |Refs(inodes, i)| + if i == ip then 1 else 0 {
      forall d: nat, k: nat ensures Names(b, d, k, i) == (Names(inodes, d, k, i) || (d == dp && k == off && i == ip)) {
        LinkedNames(inodes, place, dp, off, name, ip, d, k, i);
      }
      VacantNamesNone(inodes, dp, off, i);
      if i == ip {
        RefsPlusOne(inodes, b, i, dp, off);
      } else {
        RefsSame(inodes, b, i);
      }
    }
    LinkedShape(inodes, place, dp, off, name, ip);
  }

  lemma VacantNamesNone(inodes: map<nat, Node>, d: nat, off: nat, i: nat)
    requires Vacant(inodes, d, off) && i != 0
    ensures !Names(inodes, d, off, i)
  {
  }

  lemma LinkedShape(inodes: map<nat, Node>, place: map<nat, (nat, nat)>, dp: nat, off: nat, name: string, ip: nat)
    requires Shape(inodes, place) && Live(inodes, dp) && Vacant(inodes, dp, off) && !IsDots(name)
    requires ip in inodes && !inodes[ip].kind.Dir?
    ensures Shape(Linked(inodes, dp, off, name, ip), place)
  {
    hide DirsOk, PlacesOk, NamedOnce, Names;
    var b := Linked(inodes, dp, off, name, ip);
    DirAt(inodes, place, dp);
    assert DirsOk(b) by {
      LinkedDirs(inodes, place, dp, off, name, ip);
    }
    assert PlacesOk(b, place) by {
      LinkedPlaces(inodes, place, dp, off, name, ip);
    }
    assert NamedOnce(b, place) by {
      LinkedNamedOnce(inodes, place, dp, off, name, ip);
    }
  }

  lemma DirAt(inodes: map<nat, Node>, place: map<nat, (nat, nat)>, d: nat)
    requires Shape(inodes, place) && Live(inodes, d)
    ensures DirOk(inodes, d) && d != 0
  {
  }

  lemma LinkedDirs(inodes: map<nat, Node>, place: map<nat, (nat, nat)>, dp: nat, off: nat, name: string, ip: nat)
    requires Shape(inodes, place) && Live(inodes, dp) && Vacant(inodes, dp, off) && !IsDots(name)
    requires ip in inodes && !inodes[ip].kind.Dir?
    ensures DirsOk(Linked(inodes, dp, off, name, ip))
  {
    hide PlacesOk, NamedOnce;
    var b := Linked(inodes, dp, off, name, ip);
    assert DirOk(inodes, dp);
    forall d | d in b && b[d].kind.Dir? ensures if 0 < b[d].nlink then DirOk(b, d) else OnlyDots(b[d]) {
      assert if 0 < inodes[d].nlink then DirOk(inodes, d) else OnlyDots(inodes[d]);
    }
  }

  lemma LinkedPlaces(inodes: map<nat, Node>, place: map<nat, (nat, nat)>, dp: nat, off: nat, name: string, ip: nat)
    requires Shape(inodes, place) && Live(inodes, dp) && Vacant(inodes, dp, off) && 2 <= off
    requires ip in inodes && !inodes[ip].kind.Dir?
    ensures PlacesOk(Linked(inodes, dp, off, name, ip), place)
  {
    hide DirsOk, NamedOnce;
    var b := Linked(inodes, dp, off, name, ip);
    forall c | c in place ensures PlaceOk(b, place, c) {
      assert PlaceOk(inodes, place, c);
    }
  }

  lemma LinkedNamedOnce(inodes: map<nat, Node>, place: map<nat, (nat, nat)>, dp: nat, off: nat, name: string, ip: nat)
    requires Shape(inodes, place) && Live(inodes, dp) && Vacant(inodes, dp, off) && !IsDots(name)
    requires ip in inodes && !inodes[ip].kind.Dir?
    ensures NamedOnce(Linked(inodes, dp, off, name, ip), place)
  {
    hide DirsOk, PlacesOk, Names;
    var b := Linked(inodes, dp, off, name, ip);
    forall d: nat, k: nat, c: nat | Names(b, d, k, c) && 2 <= k && c in b && b[c].kind.Dir?
      ensures c in place && place[c] == (d, k) {
      LinkedNames(inodes, place, dp, off, name, ip, d, k, c);
    }
  }

  // ---------- A new inode ----------

  /** An inode that no entry counts, such as one just allocated or one create gave up. */
  lemma BornKeeps(inodes: map<nat, Node>, place: map<nat, (nat, nat)>, ip: nat, node: Node)
    requires LinksOk(inodes, place) && ip !in inodes && ip != 0 && node.nlink == 0 && OnlyDots(node)
    ensures LinksOk(inodes[ip := node], place)
  {
    hide Refs, NamedOnce, PlacesOk, DirsOk;
    var b := inodes[ip := node];
    forall d: nat, k: nat, i: nat ensures Names(b, d, k, i) == Names(inodes, d, k, i) {
    }
    forall i | i in inodes ensures Refs(b, i) == Refs(inodes, i) {
      RefsSame(inodes, b, i);
    }
    NobodyNames(inodes, place, ip);
    RefsSame(inodes, b, ip);
    BornShape(inodes, place, ip, node);
  }

  /** No live entry names an inode that is not allocated. */
  lemma NobodyNames(inodes: map<nat, Node>, place: map<nat, (nat, nat)>, i: nat)
    requires Shape(inodes, place) && i !in inodes && i != 0
    ensures Refs(inodes, i) == {} && forall d: nat, k: nat :: !Names(inodes, d, k, i)
  {
    hide NamedOnce, PlacesOk;
    forall d: nat, k: nat ensures !Names(inodes, d, k, i) {
      if Live(inodes, d) {
        assert DirOk(inodes, d);
        assert k < |inodes[d].entries| ==> k == 0 || k == 1 || 2 <= k;
      }
    }
    forall x | x in Refs(inodes, i) ensures false {
      InRefs(inodes, i, x.0, x.1);
    }
  }

  lemma BornShape(inodes: map<nat, Node>, place: map<nat, (nat, nat)>, ip: nat, node: Node)
    requires Shape(inodes, place) && ip !in inodes && ip != 0 && node.nlink == 0 && OnlyDots(node)
    ensures Shape(inodes[ip := node], place)
  {
    var b := inodes[ip := node];
    forall d | d in b && b[d].kind.Dir? ensures if 0 < b[d].nlink then DirOk(b, d) else OnlyDots(b[d]) {
      assert d != ip ==> if 0 < inodes[d].nlink then DirOk(inodes, d) else OnlyDots(inodes[d]);
    }
    forall c | c in place ensures PlaceOk(b, place, c) {
      assert PlaceOk(inodes, place, c);
    }
    NobodyNames(inodes, place, ip);
    forall d: nat, k: nat, c: nat | Names(b, d, k, c) && 2 <= k && c in b && b[c].kind.Dir?
      ensures c in place && place[c] == (d, k) {
      assert Names(inodes, d, k, c);
    }
  }

  // ---------- mkdir ----------

  function Made(inodes: map<nat, Node>, dp: nat, off: nat, name: string, ip: nat): map<nat, Node>
    requires dp in inodes && off <= |inodes[dp].entries| && ip != dp
  {
    inodes[ip := Node(Dir, 1, [Entry(".", ip), Entry("..", dp)])]
          [dp := inodes[dp].(nlink := inodes[dp].nlink + 1,
              entries := PutEntry(inodes[dp].entries, off, Entry(name, ip)))]
  }

  /** What create(path, T_DIR) needs of its surroundings. */
  ghost predicate CanMake(inodes: map<nat, Node>, place: map<nat, (nat, nat)>, dp: nat, off: nat, name: string,
                          ip: nat) {
    Shape(inodes, place) && Live(inodes, dp) && Vacant(inodes, dp, off) && !IsDots(name) && ip !in inodes && ip != 0
  }

  /**
   mkdir in such a directory gives it a link again, that of the new "..", while no
   directory has an entry for it.
   */
  lemma DeadMakeBreaks(inodes: map<nat, Node>, place: map<nat, (nat, nat)>, dp: nat, off: nat, name: string, ip: nat)
    requires LinksOk(inodes, place) && dp in inodes && inodes[dp].kind.Dir? && !Live(inodes, dp)
             && Vacant(inodes, dp, off)
    requires ip !in inodes && ip != 0
    ensures forall place' :: !LinksOk(Made(inodes, dp, off, name, ip), place')
  {
    hide CountsOk, DirsOk, NamedOnce, PlacesOk, RootOk, Made, Names;
    var made := Made(inodes, dp, off, name, ip);
    forall place' ensures !LinksOk(made, place') {
      if LinksOk(made, place') {
        var d, k := HasPlace(inodes, place, dp, off, name, ip, place');
        NotNamed(inodes, place, dp, d, k);
      }
    }
  }

  lemma HasPlace(inodes: map<nat, Node>, place: map<nat, (nat, nat)>, dp: nat, off: nat, name: string, ip: nat,
                 place': map<nat, (nat, nat)>) returns (d: nat, k: nat)
    requires Shape(inodes, place) && dp in inodes && inodes[dp].kind.Dir? && !Live(inodes, dp)
             && Vacant(inodes, dp, off)
    requires ip !in inodes && Shape(Made(inodes, dp, off, name, ip), place')
    ensures Names(inodes, d, k, dp)
  {
    hide NamedOnce;
    var made := Made(inodes, dp, off, name, ip);
    assert Live(made, dp) && dp != ROOTINO;
    assert PlaceOk(made, place', dp);
    d, k := place'[dp].0, place'[dp].1;
    assert d in inodes && made[d] == inodes[d];
    assert DirOk(inodes, d);
  }

  lemma NotNamed(inodes: map<nat, Node>, place: map<nat, (nat, nat)>, i: nat, d: nat, k: nat)
    requires LinksOk(inodes, place) && i in inodes && inodes[i].nlink == 0
    ensures !Names(inodes, d, k, i)
  {
    hide Shape, Names;
    InRefs(inodes, i, d, k);
  }

  lemma MadeNames(inodes: map<nat, Node>, place: map<nat, (nat, nat)>, dp: nat, off: nat, name: string, ip: nat, d: nat,
                  k: nat, i: nat)
    requires CanMake(inodes, place, dp, off, name, ip) && i != 0
    ensures 2 <= off
    ensures Names(Made(inodes, dp, off, name, ip), d, k, i) ==
            (Names(inodes, d, k, i) || (d == dp && k == off && i == ip) || (d == ip && k == 1 && i == dp))
  {
    hide NamedOnce, PlacesOk;
    assert DirOk(inodes, dp);
  }

  /** A new directory counts once for itself, and its ".." once for its parent. */
  lemma MakeKeeps(inodes: map<nat, Node>, place: map<nat, (nat, nat)>, dp: nat, off: nat, name: string, ip: nat)
    requires CanMake(inodes, place, dp, off, name, ip) && CountsOk(inodes)
    ensures LinksOk(Made(inodes, dp, off, name, ip), place[ip := (dp, off)])
  {
    hide Names, Refs, DirsOk, PlacesOk, NamedOnce;
    var b := Made(inodes, dp, off, name, ip);
    NobodyNames(inodes, place, ip);
    VacantNamesNone(inodes, dp, off, ip);
    NotThere(inodes, ip, 1, dp);
    forall i | i in b ensures |Refs(b, i)| == |Refs(inodes, i)| + if i == ip || i == dp then 1 else 0 {
      assert i != 0;
      forall d: nat, k: nat
        ensures Names(b, d, k, i)
                == (Names(inodes, d, k, i) || (d == dp && k == off && i == ip) || (d == ip && k == 1 && i == dp))
      {
        MadeNames(inodes, place, dp, off, name, ip, d, k, i);
      }
      if i == ip {
        RefsPlusOne(inodes, b, i, dp, off);
      } else if i == dp {
        RefsPlusOne(inodes, b, i, ip, 1);
      } else {
        RefsSame(inodes, b, i);
      }
    }
    MadeShape(inodes, place, dp, off, name, ip);
  }

  lemma NotThere(inodes: map<nat, Node>, d: nat, k: nat, i: nat)
    requires d !in inodes
    ensures !Names(inodes, d, k, i)
  {
  }

  lemma MadeShape(inodes: map<nat, Node>, place: map<nat, (nat, nat)>, dp: nat, off: nat, name: string, ip: nat)
    requires CanMake(inodes, place, dp, off, name, ip)
    ensures Shape(Made(inodes, dp, off, name, ip), place[ip := (dp, off)])
  {
    hide DirsOk, PlacesOk, NamedOnce, Names;
    DirAt(inodes, place, dp);
    MadeDirs(inodes, place, dp, off, name, ip);
    MadePlaces(inodes, place, dp, off, name, ip);
    MadeNamedOnce(inodes, place, dp, off, name, ip);
  }

  lemma MadeDirs(inodes: map<nat, Node>, place: map<nat, (nat, nat)>, dp: nat, off: nat, name: string, ip: nat)
    requires CanMake(inodes, place, dp, off, name, ip)
    ensures DirsOk(Made(inodes, dp, off, name, ip))
  {
    hide PlacesOk, NamedOnce;
    var b := Made(inodes, dp, off, name, ip);
    assert DirOk(inodes, dp);
    forall d | d in b && b[d].kind.Dir? ensures if 0 < b[d].nlink then DirOk(b, d) else OnlyDots(b[d]) {
      assert d != ip ==> if 0 < inodes[d].nlink then DirOk(inodes, d) else OnlyDots(inodes[d]);
    }
  }

  lemma MadePlaces(inodes: map<nat, Node>, place: map<nat, (nat, nat)>, dp: nat, off: nat, name: string, ip: nat)
    requires CanMake(inodes, place, dp, off, name, ip)
    ensures PlacesOk(Made(inodes, dp, off, name, ip), place[ip := (dp, off)])
  {
    hide NamedOnce, DirsOk;
    var b, place' := Made(inodes, dp, off, name, ip), place[ip := (dp, off)];
    DirAt(inodes, place, dp);
    forall c | c in place' ensures PlaceOk(b, place', c) {
      if c != ip {
        assert PlaceOk(inodes, place, c);
        assert place[c].0 != ip;
      }
    }
    forall c | c in b && Live(b, c) && c != ROOTINO ensures c in place' {
      assert c != ip ==> Live(inodes, c);
    }
  }

  lemma MadeNamedOnce(inodes: map<nat, Node>, place: map<nat, (nat, nat)>, dp: nat, off: nat, name: string, ip: nat)
    requires CanMake(inodes, place, dp, off, name, ip)
    ensures NamedOnce(Made(inodes, dp, off, name, ip), place[ip := (dp, off)])
  {
    hide DirsOk, PlacesOk, Names;
    var b, place' := Made(inodes, dp, off, name, ip), place[ip := (dp, off)];
    NobodyNames(inodes, place, ip);
    forall d: nat, k: nat, c: nat | Names(b, d, k, c) && 2 <= k && c in b && b[c].kind.Dir?
      ensures c in place' && place'[c] == (d, k) {
      MadeNames(inodes, place, dp, off, name, ip, d, k, c);
    }
  }

  // ---------- unlink ----------

  const EMPTY := Entry("", 0)

  /** Entry off of live directory dp is a name of ip. */
  ghost predicate IsNamed(inodes: map<nat, Node>, place: map<nat, (nat, nat)>, dp: nat, off: nat, ip: nat) {
    Shape(inodes, place) && Live(inodes, dp) && 2 <= off < |inodes[dp].entries| && inodes[dp].entries[off].inum == ip
        && ip in inodes
  }

  /** A name found in a directory has a positive link count: unlink cannot panic. */
  lemma NamedIsLinked(inodes: map<nat, Node>, place: map<nat, (nat, nat)>, dp: nat, off: nat, ip: nat)
    requires IsNamed(inodes, place, dp, off, ip) && CountsOk(inodes)
    ensures Names(inodes, dp, off, ip) && 1 <= inodes[ip].nlink
  {
    hide PlacesOk, NamedOnce;
    assert DirOk(inodes, dp);
    InRefs(inodes, ip, dp, off);
    assert |Refs(inodes, ip)| != 0;
  }

  function UnlinkedFile(inodes: map<nat, Node>, dp: nat, off: nat, ip: nat): map<nat, Node>
    requires dp in inodes && ip in inodes && off < |inodes[dp].entries| && 1 <= inodes[ip].nlink && ip != dp
  {
    inodes[dp := inodes[dp].(entries := inodes[dp].entries[off := EMPTY])][ip :=
        inodes[ip].(nlink := inodes[ip].nlink - 1)]
  }

  /** Unlinking a file. */
  lemma UnlinkFileKeeps(inodes: map<nat, Node>, place: map<nat, (nat, nat)>, dp: nat, off: nat, ip: nat)
    requires IsNamed(inodes, place, dp, off, ip) && CountsOk(inodes) && !inodes[ip].kind.Dir?
    ensures 1 <= inodes[ip].nlink && LinksOk(UnlinkedFile(inodes, dp, off, ip), place)
  {
    hide Refs, DirsOk, PlacesOk, NamedOnce;
    NamedIsLinked(inodes, place, dp, off, ip);
    var b := UnlinkedFile(inodes, dp, off, ip);
    forall d: nat, k: nat, i: nat | i != 0
      ensures Names(b, d, k, i) == (Names(inodes, d, k, i) && !(d == dp && k == off)) {
    }
    forall i | i in inodes ensures |Refs(inodes, i)| == |Refs(b, i)| + if i == ip then 1 else 0 {
      if i == ip {
        RefsPlusOne(b, inodes, i, dp, off);
      } else {
        RefsSame(inodes, b, i);
      }
    }
    UnlinkedFileShape(inodes, place, dp, off, ip);
  }

  lemma UnlinkedFileShape(inodes: map<nat, Node>, place: map<nat, (nat, nat)>, dp: nat, off: nat, ip: nat)
    requires IsNamed(inodes, place, dp, off, ip) && !inodes[ip].kind.Dir? && 1 <= inodes[ip].nlink
    ensures Shape(UnlinkedFile(inodes, dp, off, ip), place)
  {
    hide DirsOk, PlacesOk, NamedOnce, Names;
    UnlinkedFileDirs(inodes, place, dp, off, ip);
    UnlinkedFilePlaces(inodes, place, dp, off, ip);
    UnlinkedFileNamedOnce(inodes, place, dp, off, ip);
  }

  lemma UnlinkedFileDirs(inodes: map<nat, Node>, place: map<nat, (nat, nat)>, dp: nat, off: nat, ip: nat)
    requires IsNamed(inodes, place, dp, off, ip) && !inodes[ip].kind.Dir? && 1 <= inodes[ip].nlink
    ensures DirsOk(UnlinkedFile(inodes, dp, off, ip))
  {
    hide PlacesOk, NamedOnce;
    var b := UnlinkedFile(inodes, dp, off, ip);
    forall d | d in b && b[d].kind.Dir? ensures if 0 < b[d].nlink then DirOk(b, d) else OnlyDots(b[d]) {
      assert if 0 < inodes[d].nlink then DirOk(inodes, d) else OnlyDots(inodes[d]);
    }
  }

  lemma UnlinkedFilePlaces(inodes: map<nat, Node>, place: map<nat, (nat, nat)>, dp: nat, off: nat, ip: nat)
    requires IsNamed(inodes, place, dp, off, ip) && !inodes[ip].kind.Dir? && 1 <= inodes[ip].nlink
    ensures PlacesOk(UnlinkedFile(inodes, dp, off, ip), place)
  {
    hide DirsOk, NamedOnce;
    var b := UnlinkedFile(inodes, dp, off, ip);
    forall c | c in place ensures PlaceOk(b, place, c) {
      assert PlaceOk(inodes, place, c);
      var (p, k) := place[c];
      assert c != ip && p != ip && (p == dp ==> k != off);
    }
    forall c | c in b && Live(b, c) && c != ROOTINO ensures c in place {
      assert Live(inodes, c);
    }
  }

  lemma UnlinkedFileNamedOnce(inodes: map<nat, Node>, place: map<nat, (nat, nat)>, dp: nat, off: nat, ip: nat)
    requires IsNamed(inodes, place, dp, off, ip) && !inodes[ip].kind.Dir? && 1 <= inodes[ip].nlink
    ensures NamedOnce(UnlinkedFile(inodes, dp, off, ip), place)
  {
    hide DirsOk, PlacesOk;
    var b := UnlinkedFile(inodes, dp, off, ip);
    forall d: nat, k: nat, c: nat | Names(b, d, k, c) && 2 <= k && c in b && b[c].kind.Dir?
      ensures c in place && place[c] == (d, k) {
      assert Names(inodes, d, k, c);
    }
  }

  /** What isdirempty looks for. */
  predicate HasOnlyDots(node: Node) {
    forall k | 2 <= k < |node.entries| :: node.entries[k].inum == 0
  }

  function UnlinkedDir(inodes: map<nat, Node>, dp: nat, off: nat, ip: nat): map<nat, Node>
    requires dp in inodes && ip in inodes && off < |inodes[dp].entries| && 1 <= inodes[ip].nlink
             && 1 <= inodes[dp].nlink && ip != dp
  {
    inodes[dp := inodes[dp].(nlink := inodes[dp].nlink - 1, entries := inodes[dp].entries[off := EMPTY])][ip :=
        inodes[ip].(nlink := inodes[ip].nlink - 1)]
  }

  /** An empty directory has one name and no subdirectory, so exactly one link. */
  lemma EmptyDirNames(inodes: map<nat, Node>, place: map<nat, (nat, nat)>, dp: nat, off: nat, ip: nat, d: nat, k: nat)
    requires IsNamed(inodes, place, dp, off, ip) && inodes[ip].kind.Dir? && HasOnlyDots(inodes[ip])
             && Names(inodes, dp, off, ip)
    ensures ip in place && place[ip] == (dp, off) && Live(inodes, ip) && ip != dp && ip != ROOTINO
    ensures inodes[ip].entries[1].inum == dp
    ensures Names(inodes, d, k, ip) <==> d == dp && k == off
  {
    hide DirsOk;
    assert PlaceOk(inodes, place, ip);
    if Live(inodes, d) {
      DirAt(inodes, place, d);
      NoSubdirectory(inodes, place, ip, d);
      assert Names(inodes, d, k, ip) ==> k == 1 || 2 <= k;
    }
  }

  lemma NoSubdirectory(inodes: map<nat, Node>, place: map<nat, (nat, nat)>, ip: nat, d: nat)
    requires Shape(inodes, place) && ip in inodes && HasOnlyDots(inodes[ip]) && ip != ROOTINO && Live(inodes, d)
    ensures 2 <= |inodes[d].entries| && inodes[d].entries[1].inum != ip
  {
    hide DirsOk, NamedOnce;
    DirAt(inodes, place, d);
    assert d != ROOTINO ==> PlaceOk(inodes, place, d);
  }

  lemma EmptyDirCount(inodes: map<nat, Node>, place: map<nat, (nat, nat)>, dp: nat, off: nat, ip: nat)
    requires IsNamed(inodes, place, dp, off, ip) && CountsOk(inodes) && inodes[ip].kind.Dir? && HasOnlyDots(inodes[ip])
    ensures ip in place && place[ip] == (dp, off) && inodes[ip].nlink == 1 && ip != dp && ip != ROOTINO
            && inodes[ip].entries[1].inum == dp
    ensures forall d: nat, k: nat :: Names(inodes, d, k, ip) <==> d == dp && k == off
  {
    hide Names, DirsOk, PlacesOk, NamedOnce;
    NamedIsLinked(inodes, place, dp, off, ip);
    forall d: nat, k: nat ensures Names(inodes, d, k, ip) <==> d == dp && k == off {
      EmptyDirNames(inodes, place, dp, off, ip, d, k);
    }
    EmptyDirNames(inodes, place, dp, off, ip, dp, off);
    forall x ensures x in Refs(inodes, ip) <==> x == (dp, off) {
      InRefs(inodes, ip, x.0, x.1);
      assert x == (x.0, x.1);
    }
    assert Refs(inodes, ip) == {(dp, off)};
  }

  /** The parent of a directory has its own name besides the child's "..". */
  lemma ParentCount(inodes: map<nat, Node>, place: map<nat, (nat, nat)>, dp: nat, ip: nat)
    requires Shape(inodes, place) && CountsOk(inodes) && Live(inodes, dp) && Live(inodes, ip) && ip != ROOTINO
             && ip != dp
    requires 2 <= |inodes[ip].entries| && inodes[ip].entries[1].inum == dp
    ensures 2 <= inodes[dp].nlink && Names(inodes, ip, 1, dp)
  {
    hide DirsOk, PlacesOk, NamedOnce, Names, Refs;
    DirAt(inodes, place, ip);
    var own := OwnName(inodes, place, dp);
    InRefs(inodes, dp, own.0, own.1);
    ParentNamed(inodes, ip, dp);
    InRefs(inodes, dp, ip, 1);
    assert own == (own.0, own.1);
    TwoElements(Refs(inodes, dp), (ip, 1), own);
  }

  lemma ParentNamed(inodes: map<nat, Node>, ip: nat, dp: nat)
    requires Live(inodes, ip) && DirOk(inodes, ip) && inodes[ip].entries[1].inum == dp
    ensures Names(inodes, ip, 1, dp)
  {
  }

  /** Every live directory is named by its parent, or is the root, which names itself. */
  lemma OwnName(inodes: map<nat, Node>, place: map<nat, (nat, nat)>, dp: nat) returns (own: (nat, nat))
    requires Shape(inodes, place) && Live(inodes, dp)
    ensures Names(inodes, own.0, own.1, dp) && (own == (ROOTINO, 1) || 2 <= own.1)
  {
    hide NamedOnce, DirsOk;
    DirAt(inodes, place, dp);
    DirAt(inodes, place, ROOTINO);
    own := (ROOTINO, 1);
    if dp != ROOTINO {
      assert PlaceOk(inodes, place, dp);
      own := place[dp];
      DirAt(inodes, place, own.0);
    }
  }

  lemma TwoElements(s: set<(nat, nat)>, x: (nat, nat), y: (nat, nat))
    requires x in s && y in s && x != y
    ensures 2 <= |s|
  {
    assert |s - {x}| == |s| - 1 && y in s - {x};
    assert |s - {x} - {y}| == |s - {x}| - 1;
  }

  /** Unlinking an empty directory: it is no longer live, and its parent loses the link of its "..". */
  lemma UnlinkDirKeeps(inodes: map<nat, Node>, place: map<nat, (nat, nat)>, dp: nat, off: nat, ip: nat)
    requires IsNamed(inodes, place, dp, off, ip) && CountsOk(inodes) && inodes[ip].kind.Dir? && HasOnlyDots(inodes[ip])
    ensures ip != dp && 1 <= inodes[ip].nlink && 1 <= inodes[dp].nlink
    ensures LinksOk(UnlinkedDir(inodes, dp, off, ip), place - {ip})
  {
    hide Refs, DirsOk, PlacesOk, NamedOnce, Names;
    EmptyDirCount(inodes, place, dp, off, ip);
    DirAt(inodes, place, ip);
    ParentCount(inodes, place, dp, ip);
    var b := UnlinkedDir(inodes, dp, off, ip);
    forall d: nat, k: nat, i: nat | i != 0
      ensures Names(b, d, k, i) == (Names(inodes, d, k, i) && !(d == dp && k == off) && !(d == ip && k == 1))
    {
      UnlinkedDirNames(inodes, place, dp, off, ip, d, k, i);
    }
    forall i | i in inodes ensures |Refs(inodes, i)| == |Refs(b, i)| + if i == ip || i == dp then 1 else 0 {
      assert i != 0;
      SlotNames(inodes, ip, 1, dp, i);
      SlotNames(inodes, dp, off, ip, i);
      if i == ip {
        RefsPlusOne(b, inodes, i, dp, off);
      } else if i == dp {
        RefsPlusOne(b, inodes, i, ip, 1);
      } else {
        RefsSame(inodes, b, i);
      }
    }
    UnlinkedDirShape(inodes, place, dp, off, ip);
  }

  lemma SlotNames(inodes: map<nat, Node>, d: nat, k: nat, j: nat, i: nat)
    requires Names(inodes, d, k, j)
    ensures i != j ==> !Names(inodes, d, k, i)
  {
  }

  /** What the lemmas about unlinking a directory have in hand. */
  ghost predicate CanUnlinkDir(inodes: map<nat, Node>, place: map<nat, (nat, nat)>, dp: nat, off: nat, ip: nat) {
    && IsNamed(inodes, place, dp, off, ip) && inodes[ip].kind.Dir? && HasOnlyDots(inodes[ip])
    && inodes[ip].nlink == 1 && 2 <= inodes[dp].nlink && ip != dp && ip != ROOTINO && ip in place
        && place[ip] == (dp, off)
  }

  lemma UnlinkedDirNames(inodes: map<nat, Node>, place: map<nat, (nat, nat)>, dp: nat, off: nat, ip: nat, d: nat,
                         k: nat, i: nat)
    requires CanUnlinkDir(inodes, place, dp, off, ip) && i != 0
    ensures Names(UnlinkedDir(inodes, dp, off, ip), d, k, i)
            == (Names(inodes, d, k, i) && !(d == dp && k == off) && !(d == ip && k == 1))
  {
    hide DirsOk, PlacesOk, NamedOnce;
    DirAt(inodes, place, ip);
    assert d == ip && Names(inodes, d, k, i) ==> k == 1;
  }

  lemma UnlinkedDirShape(inodes: map<nat, Node>, place: map<nat, (nat, nat)>, dp: nat, off: nat, ip: nat)
    requires CanUnlinkDir(inodes, place, dp, off, ip)
    ensures Shape(UnlinkedDir(inodes, dp, off, ip), place - {ip})
  {
    hide DirsOk, PlacesOk, NamedOnce, Names;
    UnlinkedDirDirs(inodes, place, dp, off, ip);
    UnlinkedDirPlaces(inodes, place, dp, off, ip);
    UnlinkedDirNamedOnce(inodes, place, dp, off, ip);
  }

  lemma UnlinkedDirDirs(inodes: map<nat, Node>, place: map<nat, (nat, nat)>, dp: nat, off: nat, ip: nat)
    requires CanUnlinkDir(inodes, place, dp, off, ip)
    ensures DirsOk(UnlinkedDir(inodes, dp, off, ip))
  {
    hide PlacesOk, NamedOnce;
    var b := UnlinkedDir(inodes, dp, off, ip);
    forall d | d in b && b[d].kind.Dir? ensures if 0 < b[d].nlink then DirOk(b, d) else OnlyDots(b[d]) {
      assert if 0 < inodes[d].nlink then DirOk(inodes, d) else OnlyDots(inodes[d]);
    }
  }

  lemma UnlinkedDirPlaces(inodes: map<nat, Node>, place: map<nat, (nat, nat)>, dp: nat, off: nat, ip: nat)
    requires CanUnlinkDir(inodes, place, dp, off, ip)
    ensures PlacesOk(UnlinkedDir(inodes, dp, off, ip), place - {ip})
  {
    hide DirsOk, NamedOnce;
    var b := UnlinkedDir(inodes, dp, off, ip);
    forall c | c in place - {ip} ensures PlaceOk(b, place - {ip}, c) {
      assert PlaceOk(inodes, place, c);
      DirAt(inodes, place, c);
      var (p, k) := place[c];
      NoSubdirectory(inodes, place, ip, c);
      assert c != ip && p != ip && (p == dp ==> k != off);
    }
    forall c | c in b && Live(b, c) && c != ROOTINO ensures c in place - {ip} {
      assert Live(inodes, c) && c != ip;
    }
  }

  lemma UnlinkedDirNamedOnce(inodes: map<nat, Node>, place: map<nat, (nat, nat)>, dp: nat, off: nat, ip: nat)
    requires CanUnlinkDir(inodes, place, dp, off, ip)
    ensures NamedOnce(UnlinkedDir(inodes, dp, off, ip), place - {ip})
  {
    hide DirsOk, PlacesOk, Names;
    var b := UnlinkedDir(inodes, dp, off, ip);
    forall d: nat, k: nat, c: nat | Names(b, d, k, c) && 2 <= k && c in b && b[c].kind.Dir?
      ensures c in place - {ip} && (place - {ip})[c] == (d, k) {
      assert c != 0;
      UnlinkedDirNames(inodes, place, dp, off, ip, d, k, c);
    }
  }

  // ---------- iput ----------

  /** An inode without links can go: no live entry names it. */
  lemma ReapKeeps(inodes: map<nat, Node>, place: map<nat, (nat, nat)>, i: nat)
    requires LinksOk(inodes, place) && i in inodes && inodes[i].nlink == 0
    ensures LinksOk(inodes - {i}, place)
  {
    hide Refs, DirsOk, PlacesOk, NamedOnce;
    var b := inodes - {i};
    assert Refs(inodes, i) == {};
    forall d: nat, k: nat ensures !Names(inodes, d, k, i) {
      InRefs(inodes, i, d, k);
    }
    forall d: nat, k: nat, j: nat ensures Names(b, d, k, j) == Names(inodes, d, k, j) {
    }
    forall j | j in b ensures Refs(b, j) == Refs(inodes, j) {
      RefsSame(inodes, b, j);
    }
    ReapedShape(inodes, place, i);
  }

  lemma ReapedShape(inodes: map<nat, Node>, place: map<nat, (nat, nat)>, i: nat)
    requires Shape(inodes, place) && i in inodes && inodes[i].nlink == 0
             && forall d: nat, k: nat :: !Names(inodes, d, k, i)
    ensures Shape(inodes - {i}, place)
  {
    var b := inodes - {i};
    forall d | d in b && b[d].kind.Dir? ensures if 0 < b[d].nlink then DirOk(b, d) else OnlyDots(b[d]) {
      if 0 < b[d].nlink {
        assert DirOk(inodes, d);
        forall k: nat | k < |b[d].entries| && b[d].entries[k].name != "." ensures b[d].entries[k].inum != i {
          assert !Names(inodes, d, k, i);
        }
      }
    }
    forall c | c in place ensures PlaceOk(b, place, c) {
      assert PlaceOk(inodes, place, c);
    }
    forall d: nat, k: nat, c: nat | Names(b, d, k, c) && 2 <= k && c in b && b[c].kind.Dir?
      ensures c in place && place[c] == (d, k) {
      assert Names(inodes, d, k, c);
    }
  }

  // ---------- The operations ----------

  /** Entry k is the first one that matches name. */
  predicate IsFirst(entries: seq<Entry>, name: string, k: nat) {
    && k < |entries| && entries[k].inum != 0 && entries[k].name == name
    && forall j | 0 <= j < k :: entries[j].inum == 0 || entries[j].name != name
  }

  predicate Absent(entries: seq<Entry>, name: string) {
    forall j | 0 <= j < |entries| :: entries[j].inum == 0 || entries[j].name != name
  }

  /** The name is that of a directory with more than its dots. */
  ghost predicate IsFullDir(inodes: map<nat, Node>, dp: nat, off: nat, name: string) {
    && dp in inodes && IsFirst(inodes[dp].entries, name, off)
    && var i := inodes[dp].entries[off].inum; i in inodes && inodes[i].kind.Dir? && !HasOnlyDots(inodes[i])
  }

  /** The name is in use, and not by a file or device that opening for a file could return. */
  ghost predicate IsTaken(inodes: map<nat, Node>, dp: nat, off: nat, name: string, kind: Kind) {
    && dp in inodes && IsFirst(inodes[dp].entries, name, off)
    && var i := inodes[dp].entries[off].inum; i in inodes && (!kind.File? || inodes[i].kind.Dir?)
  }

  /** The name was free, and a new inode has it now: a directory with its dots, or an empty file or device. */
  ghost predicate IsCreated(inodes: map<nat, Node>, inodes': map<nat, Node>, dp: nat, off: nat, name: string,
                            kind: Kind, ip: nat) {
    && ip !in inodes && Vacant(inodes, dp, off) && Absent(inodes[dp].entries, name)
    && inodes' == if kind.Dir? then Made(inodes, dp, off, name, ip)
        else Linked(inodes[ip := Node(kind, 0, [])], dp, off, name, ip)
  }

  /** Entry off, the first with that name, is of an inode that is free. */
  ghost predicate IsDangling(inodes: map<nat, Node>, dp: nat, off: nat, name: string) {
    dp in inodes && IsFirst(inodes[dp].entries, name, off) && inodes[dp].entries[off].inum !in inodes
  }

  /** No inode is free. */
  ghost predicate NoneFree(inodes: map<nat, Node>, ninodes: nat) {
    forall i: nat | 1 <= i < ninodes :: i in inodes
  }

  /**
   When create makes and returns nothing: the name is taken, or of a free inode; or it
   is free and there is no inode for it, or no room for an entry.
   */
  ghost predicate Refuses(inodes: map<nat, Node>, ninodes: nat, dp: nat, name: string, kind: Kind,
                          room: (bool, bool, bool)) {
    dp in inodes &&
    if Absent(inodes[dp].entries, name) then
      NoneFree(inodes, ninodes) || !room.2 || (kind.Dir? && !(room.0 && room.1))
    else
      exists off: nat :: IsTaken(inodes, dp, off, name, kind) || IsDangling(inodes, dp, off, name)
  }

  /** The first entry with the name decides. */
  lemma FirstDecides(inodes: map<nat, Node>, ninodes: nat, dp: nat, off: nat, name: string, kind: Kind,
                     room: (bool, bool, bool))
    requires dp in inodes && IsFirst(inodes[dp].entries, name, off)
    ensures !Absent(inodes[dp].entries, name)
    ensures Refuses(inodes, ninodes, dp, name, kind, room)
            <==> inodes[dp].entries[off].inum !in inodes || IsTaken(inodes, dp, off, name, kind)
    ensures IsDangling(inodes, dp, off, name) <==> inodes[dp].entries[off].inum !in inodes
    ensures IsTaken(inodes, dp, off, name, kind) <==>
            var i := inodes[dp].entries[off].inum; i in inodes && (!kind.File? || inodes[i].kind.Dir?)
  {
    assert IsDangling(inodes, dp, off, name) || IsTaken(inodes, dp, off, name, kind) ==>
        Refuses(inodes, ninodes, dp, name, kind, room);
    forall k: nat | IsTaken(inodes, dp, k, name, kind) || IsDangling(inodes, dp, k, name) ensures k == off {
      assert IsFirst(inodes[dp].entries, name, k);
    }
  }

  class Directories {
    const ninodes: nat
    var inodes: map<nat, Node>
    ghost var place: map<nat, (nat, nat)>

    ghost predicate Valid()
      reads this
    {
      LinksOk(inodes, place)
    }

    /** dirlookup */
    method Dirlookup(dp: nat, name: string) returns (inum: nat, off: nat)
      requires dp in inodes && inodes[dp].kind.Dir?
      ensures if inum == 0 then Absent(inodes[dp].entries, name)
              else IsFirst(inodes[dp].entries, name, off) && inodes[dp].entries[off].inum == inum
    {
      off := 0;
      while off < |inodes[dp].entries|
        invariant 0 <= off <= |inodes[dp].entries|
        invariant forall j | 0 <= j < off :: inodes[dp].entries[j].inum == 0 || inodes[dp].entries[j].name != name
      {
        var de := inodes[dp].entries[off];
        if de.inum != 0 && name == de.name {
          return de.inum, off;
        }
        off := off + 1;
      }
      return 0, 0;
    }

    /** dirlink: `room` says whether writei can write the entry. */
    method Dirlink(dp: nat, name: string, inum: nat, room: bool) returns (r: int, ghost off: nat)
      requires dp in inodes && inodes[dp].kind.Dir?
      modifies this`inodes
      ensures r == 0 || r == -1
      ensures r == 0 <==> room && Absent(old(inodes)[dp].entries, name)
      ensures r != 0 ==> inodes == old(inodes)
      ensures r == 0 ==> Vacant(old(inodes), dp, off)
      ensures r == 0 ==>
              inodes == old(inodes)[dp :=
              old(inodes)[dp].(entries := PutEntry(old(inodes)[dp].entries, off, Entry(name, inum)))]
      ensures r == 0 ==> forall j | 0 <= j < off :: old(inodes)[dp].entries[j].inum != 0
    {
      off := 0;
      var found, _ := Dirlookup(dp, name);
      if found != 0 {
        return -1, 0;
      }
      var k := 0;
      while k < |inodes[dp].entries|
        invariant 0 <= k <= |inodes[dp].entries|
        invariant forall j | 0 <= j < k :: inodes[dp].entries[j].inum != 0
      {
        if inodes[dp].entries[k].inum == 0 {
          break;
        }
        k := k + 1;
      }
      if !room {
        return -1, 0;
      }
      inodes := inodes[dp := inodes[dp].(entries := PutEntry(inodes[dp].entries, k, Entry(name, inum)))];
      return 0, k;
    }

    /** isdirempty */
    method Isdirempty(dp: nat) returns (b: bool)
      requires dp in inodes
      ensures b == HasOnlyDots(inodes[dp])
    {
      var k := 2;
      while k < |inodes[dp].entries|
        invariant 2 <= k && forall j | 2 <= j < k && j < |inodes[dp].entries| :: inodes[dp].entries[j].inum == 0
      {
        if inodes[dp].entries[k].inum != 0 {
          return false;
        }
        k := k + 1;
      }
      return true;
    }

    /** sys_link, once ip and, if it was found, the directory dp of the new name are known. */
    method Link(ip: nat, dp: nat, found: bool, name: string, room: bool) returns (r: int, ghost off: nat)
      requires Valid() && ip in inodes && (found ==> dp in inodes && inodes[dp].kind.Dir?)
      modifies this`inodes
      ensures r == 0 || r == -1
      ensures Valid() <==> r == -1 || Live(old(inodes), dp)
      ensures r == 0 <==> !old(inodes)[ip].kind.Dir? && found && room && Absent(old(inodes)[dp].entries, name)
      ensures r == -1 ==> inodes == old(inodes)
      ensures r == 0 ==> IsLinked(old(inodes), inodes, dp, off, name, ip)
    {
      hide LinksOk, Absent, Names;
      off := 0;
      if inodes[ip].kind.Dir? {
        return -1, 0;
      }
      inodes := inodes[ip := inodes[ip].(nlink := inodes[ip].nlink + 1)];
      if found {
        r, off := Dirlink(dp, name, ip, room);
        if r == 0 {
          assert inodes == Linked(old(inodes), dp, off, name, ip);
          if Live(old(inodes), dp) {
            NotDots(old(inodes), place, dp, name);
            LinkKeeps(old(inodes), place, dp, off, name, ip);
          } else {
            DeadLinkBreaks(old(inodes), place, dp, off, name, ip);
          }
          return 0, off;
        }
      }
      inodes := inodes[ip := inodes[ip].(nlink := inodes[ip].nlink - 1)];
      assert inodes == old(inodes);
      return -1, 0;
    }

    /** sys_unlink, in the directory dp of the path; the entry it removes is number off, a name of ip. */
    method Unlink(dp: nat, name: string) returns (r: int, ghost off: nat, ghost ip: nat)
      requires Valid() && dp in inodes && inodes[dp].kind.Dir?
      modifies this`inodes, this`place
      ensures Valid() && (r == 0 || r == -1)
      ensures r == -1 ==> inodes == old(inodes)
      ensures r == -1 ==> IsDots(name) || Absent(inodes[dp].entries, name) || IsFullDir(inodes, dp, off, name)
      ensures r == 0 ==>
              !IsDots(name) && IsFirst(old(inodes)[dp].entries, name, off) && old(inodes)[dp].entries[off].inum == ip
      ensures r == 0 ==> Live(old(inodes), dp) && ip in old(inodes) && 1 <= old(inodes)[ip].nlink && ip != dp
      ensures r == 0 && old(inodes)[ip].kind.Dir? ==>
                HasOnlyDots(old(inodes)[ip]) && old(inodes)[ip].nlink == 1
                    && inodes == UnlinkedDir(old(inodes), dp, off, ip)
      ensures r == 0 && !old(inodes)[ip].kind.Dir? ==> inodes == UnlinkedFile(old(inodes), dp, off, ip)
    {
      hide LinksOk, Names, Shape, DirOk, HasOnlyDots, IsFirst, Absent;
      off, ip := 0, 0;
      if name == "." || name == ".." {
        return -1, 0, 0;
      }
      var i, k := Dirlookup(dp, name);
      if i == 0 {
        return -1, 0, 0;
      }
      FoundIsNamed(inodes, place, dp, k, name, i);
      if inodes[i].kind.Dir? {
        var empty := Isdirempty(i);
        if !empty {
          return -1, k, 0;
        }
        UnlinkDirKeeps(inodes, place, dp, k, i);
        EmptyDirCount(inodes, place, dp, k, i);
        inodes := inodes[dp := inodes[dp].(entries := inodes[dp].entries[k := EMPTY])];
        inodes := inodes[dp := inodes[dp].(nlink := inodes[dp].nlink - 1)];
        place := place - {i};
        inodes := inodes[i := inodes[i].(nlink := inodes[i].nlink - 1)];
        assert inodes == UnlinkedDir(old(inodes), dp, k, i);
      } else {
        UnlinkFileKeeps(inodes, place, dp, k, i);
        inodes := inodes[dp := inodes[dp].(entries := inodes[dp].entries[k := EMPTY])];
        inodes := inodes[i := inodes[i].(nlink := inodes[i].nlink - 1)];
        assert inodes == UnlinkedFile(old(inodes), dp, k, i);
      }
      return 0, k, i;
    }

    /** ialloc: the first free inode, without links; 0 when there is none. */
    method Ialloc(kind: Kind) returns (ip: nat)
      modifies this`inodes
      ensures ip == 0 ==> inodes == old(inodes) && forall i | 1 <= i < ninodes :: i in inodes
      ensures ip != 0 ==> ip < ninodes && ip !in old(inodes) && inodes == old(inodes)[ip := Node(kind, 0, [])]
      ensures ip != 0 ==> forall i | 1 <= i < ip :: i in old(inodes)
    {
      var i := 1;
      while i < ninodes
        invariant 1 <= i && inodes == old(inodes)
        invariant forall j | 1 <= j < i :: j in inodes
      {
        if i !in inodes {
          inodes := inodes[i := Node(kind, 0, [])];
          return i;
        }
        i := i + 1;
      }
      return 0;
    }

    /**
     create, in the directory dp of the path.  `room` says which of the directory
     writes succeed: ".", "..", and the new name.  ilock panics on a name whose inode
     is free, which only a dot entry of a directory without links can be.
     */
    method Create(dp: nat, name: string, kind: Kind, room: (bool, bool, bool))
      returns (ip: nat, panic: bool, ghost off: nat)
      requires Valid() && dp in inodes && inodes[dp].kind.Dir?
      modifies this`inodes, this`place
      ensures Valid() <==> ip == 0 || ip in old(inodes) || Live(old(inodes), dp)
      ensures panic <==> IsDangling(old(inodes), dp, off, name)
      ensures panic ==> ip == 0 && inodes == old(inodes) && !Live(inodes, dp) && IsDots(name)
      ensures ip == 0 ==> Unchanged(old(inodes), inodes)
      ensures ip != 0 && ip in old(inodes) ==>
                && inodes == old(inodes) && kind.File? && !inodes[ip].kind.Dir?
                && IsFirst(inodes[dp].entries, name, off) && inodes[dp].entries[off].inum == ip
      ensures ip != 0 && ip !in old(inodes) ==> IsCreated(old(inodes), inodes, dp, off, name, kind, ip)
      ensures ip == 0 <==> Refuses(old(inodes), ninodes, dp, name, kind, room)
    {
      hide LinksOk, Absent, Names, IsFirst, Live, OnlyDots, IsTaken, IsDangling;
      ip, panic, off := 0, false, 0;
      var found, k := Dirlookup(dp, name);
      if found != 0 {
        off := k;
        FirstDecides(inodes, ninodes, dp, k, name, kind, room);
        panic := found !in inodes;
        if panic {
          OnlyDotsDangle(inodes, place, dp, k, name, found);
        } else if kind.File? && (inodes[found].kind.File? || inodes[found].kind.Device?) {
          ip := found;
        }
        return;
      }
      NothingDangles(inodes, dp, name);
      ip := Ialloc(kind);
      if ip == 0 {
        return;
      }
      EmptyIsDots(kind);
      BornKeeps(old(inodes), place, ip, Node(kind, 0, []));
      if kind.Dir? {
        ip, off := FinishDir(dp, name, ip, room, old(inodes));
      } else {
        inodes := inodes[ip := inodes[ip].(nlink := 1)];
        var r;
        r, off := Dirlink(dp, name, ip, room.2);
        if r < 0 {
          inodes := inodes[ip := inodes[ip].(nlink := 0)];
          assert inodes == old(inodes)[ip := Node(kind, 0, [])];
          ip := 0;
          return;
        }
        assert inodes == Linked(old(inodes)[ip := Node(kind, 0, [])], dp, off, name, ip);
        StillLive(old(inodes), dp, ip, Node(kind, 0, []));
        if Live(old(inodes), dp) {
          NotDots(old(inodes), place, dp, name);
          LinkKeeps(old(inodes)[ip := Node(kind, 0, [])], place, dp, off, name, ip);
        } else {
          DeadLinkBreaks(old(inodes)[ip := Node(kind, 0, [])], place, dp, off, name, ip);
        }
      }
    }

    /** The part of create that makes a directory: ".", "..", the new name, and the parent's link. */
    method FinishDir(dp: nat, name: string, ip: nat, room: (bool, bool, bool), ghost n0: map<nat, Node>)
      returns (res: nat, ghost off: nat)
      requires LinksOk(n0, place) && dp in n0 && n0[dp].kind.Dir? && Absent(n0[dp].entries, name) && ip !in n0
               && ip != 0
      requires inodes == n0[ip := Node(Dir, 0, [])]
      modifies this`inodes, this`place
      ensures Valid() <==> res == 0 || Live(n0, dp)
      ensures res == 0 ==> Unchanged(n0, inodes)
      ensures res != 0 ==> res == ip && Vacant(n0, dp, off) && inodes == Made(n0, dp, off, name, ip)
      ensures res == 0 <==> !(room.0 && room.1 && room.2)
    {
      hide LinksOk, Absent, Names, Live, OnlyDots, Made, PutEntry, Shape, CountsOk, IsDots;
      off := 0;
      inodes := inodes[ip := inodes[ip].(nlink := 1)];
      var ok := FillDots(ip, dp, room.0, room.1);
      if ok {
        assert inodes == n0[ip := Node(Dir, 1, [Entry(".", ip), Entry("..", dp)])];
        var r;
        r, off := Dirlink(dp, name, ip, room.2);
        if r == 0 {
          Unfold(n0, place);
          if Live(n0, dp) {
            NotDots(n0, place, dp, name);
            MakeKeeps(n0, place, dp, off, name, ip);
          } else {
            DeadMakeBreaks(n0, place, dp, off, name, ip);
          }
          MadeFrom(n0, dp, off, name, ip, inodes);
          inodes := inodes[dp := inodes[dp].(nlink := inodes[dp].nlink + 1)];
          place := place[ip := (dp, off)];
          return ip, off;
        }
      }
      inodes := inodes[ip := inodes[ip].(nlink := 0)];
      assert inodes == n0[ip := inodes[ip]];
      SameDots(inodes[ip], 1);
      BornKeeps(n0, place, ip, inodes[ip]);
      return 0, 0;
    }

    /** The entries "." and ".." of a new directory. */
    method FillDots(ip: nat, dp: nat, room1: bool, room2: bool) returns (ok: bool)
      requires ip != 0 && ip in inodes && inodes[ip] == Node(Dir, 1, [])
      modifies this`inodes
      ensures ip in inodes && inodes == old(inodes)[ip := Node(Dir, 1, inodes[ip].entries)] && OnlyDots(inodes[ip])
      ensures ok ==> inodes[ip].entries == [Entry(".", ip), Entry("..", dp)]
      ensures ok <==> room1 && room2
    {
      DotsAbsent(ip);
      ghost var k;
      var r;
      r, k := Dirlink(ip, ".", ip, room1);
      if r != 0 {
        return false;
      }
      assert inodes[ip].entries == [Entry(".", ip)];
      r, k := Dirlink(ip, "..", dp, room2);
      ok := r == 0;
    }

    /**
     iput, of an inode with `ref` references whose in-memory copy has been read or not: the last
     reference to an inode without links frees it.
     */
    method Iput(i: nat, ref: nat, read: bool) returns (ref': nat)
      requires Valid() && i in inodes && 1 <= ref
      modifies this`inodes
      ensures Valid() && ref' == ref - 1
      ensures inodes == if ref' == 0 && read && old(inodes)[i].nlink == 0 then old(inodes) - {i} else old(inodes)
    {
      hide LinksOk;
      if ref == 1 && read && inodes[i].nlink == 0 {
        ReapKeeps(inodes, place, i);
        inodes := inodes - {i};
      }
      ref' := ref - 1;
    }
  }

  /** Nothing but perhaps one more inode without links. */
  ghost predicate Unchanged(a: map<nat, Node>, b: map<nat, Node>) {
    && (forall i | i in a :: i in b && b[i] == a[i])
    && (forall i | i in b && i !in a :: b[i].nlink == 0 && OnlyDots(b[i]))
  }

  lemma MadeFrom(n0: map<nat, Node>, dp: nat, off: nat, name: string, ip: nat, m: map<nat, Node>)
    requires dp in n0 && ip !in n0 && Vacant(n0, dp, off)
    requires m == n0[ip := Node(Dir, 1, [Entry(".", ip), Entry("..", dp)])][dp :=
             n0[dp].(entries := PutEntry(n0[dp].entries, off, Entry(name, ip)))]
    ensures m[dp := m[dp].(nlink := m[dp].nlink + 1)] == Made(n0, dp, off, name, ip)
  {
  }

  lemma Unfold(inodes: map<nat, Node>, place: map<nat, (nat, nat)>)
    requires LinksOk(inodes, place)
    ensures Shape(inodes, place) && CountsOk(inodes)
  {
  }

  lemma StillLive(inodes: map<nat, Node>, d: nat, ip: nat, node: Node)
    requires d in inodes && ip !in inodes
    ensures Live(inodes[ip := node], d) <==> Live(inodes, d)
  {
  }

  lemma SameDots(node: Node, nlink: nat)
    requires OnlyDots(node.(nlink := nlink))
    ensures OnlyDots(node)
  {
  }

  lemma EmptyIsDots(kind: Kind)
    ensures OnlyDots(Node(kind, 0, []))
  {
  }

  lemma DotsAbsent(ip: nat)
    ensures Absent([], ".") && Absent([Entry(".", ip)], "..")
  {
  }

  lemma OnlyDotsDangle(inodes: map<nat, Node>, place: map<nat, (nat, nat)>, dp: nat, off: nat, name: string, ip: nat)
    requires LinksOk(inodes, place) && dp in inodes && inodes[dp].kind.Dir? && IsFirst(inodes[dp].entries, name, off)
             && inodes[dp].entries[off].inum == ip && ip !in inodes
    ensures !Live(inodes, dp) && IsDots(name)
  {
    hide PlacesOk, NamedOnce, CountsOk, RootOk;
    assert Live(inodes, dp) ==> DirOk(inodes, dp);
    assert off == 0 || off == 1 || 2 <= off;
  }

  lemma NothingDangles(inodes: map<nat, Node>, dp: nat, name: string)
    requires dp in inodes && Absent(inodes[dp].entries, name)
    ensures forall off: nat :: !IsDangling(inodes, dp, off, name)
  {
  }

  /** The image mkfs builds: the root with its two entries and a name for every file, one link each. */
  lemma MkfsCounts(inodes: map<nat, Node>)
    requires 0 !in inodes && ROOTINO in inodes && inodes[ROOTINO].kind.Dir? && inodes[ROOTINO].nlink == 1
             && DirOk(inodes, ROOTINO)
    requires inodes[ROOTINO].entries[1] == Entry("..", ROOTINO)
    requires forall i | i in inodes && i != ROOTINO :: inodes[i].kind.File? && inodes[i].nlink == 1
    requires forall i | i in inodes
             && i != ROOTINO :: exists k :: 2 <= k < |inodes[ROOTINO].entries| && inodes[ROOTINO].entries[k].inum == i
    requires forall k | 2 <= k < |inodes[ROOTINO].entries| :: inodes[ROOTINO].entries[k].inum != ROOTINO
    requires forall k, l | 2 <= k < l < |inodes[ROOTINO].entries| && inodes[ROOTINO].entries[k].inum != 0 ::
               inodes[ROOTINO].entries[k].inum != inodes[ROOTINO].entries[l].inum
    ensures LinksOk(inodes, map[])
  {
    forall i | i in inodes ensures |Refs(inodes, i)| == 1 {
      OneName(inodes, i);
    }
  }

  lemma OneName(inodes: map<nat, Node>, i: nat)
    requires 0 !in inodes && ROOTINO in inodes && inodes[ROOTINO].kind.Dir? && inodes[ROOTINO].nlink == 1
             && DirOk(inodes, ROOTINO) && i in inodes
    requires inodes[ROOTINO].entries[1] == Entry("..", ROOTINO)
    requires forall i | i in inodes && i != ROOTINO :: inodes[i].kind.File? && inodes[i].nlink == 1
    requires i != ROOTINO ==> exists k :: 2 <= k < |inodes[ROOTINO].entries| && inodes[ROOTINO].entries[k].inum == i
    requires forall k | 2 <= k < |inodes[ROOTINO].entries| :: inodes[ROOTINO].entries[k].inum != ROOTINO
    requires forall k, l | 2 <= k < l < |inodes[ROOTINO].entries| && inodes[ROOTINO].entries[k].inum != 0 ::
               inodes[ROOTINO].entries[k].inum != inodes[ROOTINO].entries[l].inum
    ensures |Refs(inodes, i)| == 1
  {
    var k := 1;
    if i != ROOTINO {
      k :| 2 <= k < |inodes[ROOTINO].entries| && inodes[ROOTINO].entries[k].inum == i;
    }
    forall d: nat, l: nat ensures Names(inodes, d, l, i) <==> d == ROOTINO && l == k {
      assert Live(inodes, d) ==> d == ROOTINO;
      assert l == 0 || l == 1 || 2 <= l;
    }
    forall x ensures x in Refs(inodes, i) <==> x == (ROOTINO, k) {
      InRefs(inodes, i, x.0, x.1);
      assert x == (x.0, x.1);
    }
    assert Refs(inodes, i) == {(ROOTINO, k)};
  }

  lemma NotDots(inodes: map<nat, Node>, place: map<nat, (nat, nat)>, dp: nat, name: string)
    requires LinksOk(inodes, place) && Live(inodes, dp) && Absent(inodes[dp].entries, name)
    ensures !IsDots(name)
  {
    hide PlacesOk, NamedOnce;
    assert DirOk(inodes, dp);
  }

  /** What dirlookup finds under a name other than "." and ".." is a counted entry of a live directory. */
  lemma FoundIsNamed(inodes: map<nat, Node>, place: map<nat, (nat, nat)>, dp: nat, off: nat, name: string, ip: nat)
    requires LinksOk(inodes, place) && dp in inodes && inodes[dp].kind.Dir? && !IsDots(name)
    requires IsFirst(inodes[dp].entries, name, off) && inodes[dp].entries[off].inum == ip
    ensures off < |inodes[dp].entries| && IsNamed(inodes, place, dp, off, ip) && CountsOk(inodes)
    ensures 1 <= inodes[ip].nlink && (!inodes[ip].kind.Dir? ==> ip != dp)
  {
    hide PlacesOk, NamedOnce, Names, CountsOk;
    assert inodes[dp].nlink == 0 ==> OnlyDots(inodes[dp]);
    assert DirOk(inodes, dp);
    PastDots(inodes[dp].entries, name, off);
    NamedIsLinked(inodes, place, dp, off, ip);
  }

  lemma PastDots(entries: seq<Entry>, name: string, off: nat)
    requires 2 <= |entries| && entries[0].name == "." && entries[1].name == ".." && !IsDots(name)
    requires off < |entries| && entries[off].name == name
    ensures 2 <= off
  {
  }
}
