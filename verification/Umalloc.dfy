/**
 The storage allocator of user/umalloc.c (section 8.7 of The C Programming
 Language, 2nd edition).

 Addresses are counted in units of sizeof(Header), and memory maps a unit to its
 contents, written as if they were a header.  `base` lies below the heap.
 Besides the memory the program has, a Heap carries what it stands for: the
 free list in address order, the blocks, and for every unit obtained from sbrk
 the block it belongs to.
 */
module Umalloc {

  const UNIT := 16                             // sizeof(Header)

  datatype Header = Header(ptr: nat, size: nat)

  type Memory = map<nat, Header>

  // ---------- Blocks tile the heap ----------

  /** Every unit of the heap is in exactly one block: `who` names its first unit. */
  ghost predicate Tiled(who: map<nat, nat>, blk: map<nat, nat>) {
    && (forall a | a in blk :: 0 < blk[a] && Covers(who, a, blk[a]))
    && (forall u | u in who :: Placed(who, blk, u))
  }

  ghost predicate Covers(who: map<nat, nat>, a: nat, n: nat) {
    forall u | a <= u < a + n :: u in who && who[u] == a
  }

  ghost predicate Placed(who: map<nat, nat>, blk: map<nat, nat>, u: nat)
    requires u in who
  {
    who[u] in blk && who[u] <= u < who[u] + blk[who[u]]
  }

  lemma BlocksDisjoint(who: map<nat, nat>, blk: map<nat, nat>, a: nat, b: nat)
    requires Tiled(who, blk) && a in blk && b in blk && a < b
    ensures a + blk[a] <= b
  {
    assert Covers(who, a, blk[a]) && Covers(who, b, blk[b]);
    var w := who[b];
    assert w == b;
  }

  ghost function JoinWho(who: map<nat, nat>, a: nat, b: nat): map<nat, nat> {
    map u | u in who :: if who[u] == b then a else who[u]
  }

  ghost function JoinBlk(blk: map<nat, nat>, a: nat, b: nat): map<nat, nat>
    requires a in blk && b in blk
  {
    (blk - {b})[a := blk[a] + blk[b]]
  }

  /** Two touching blocks made one. */
  lemma Join(who: map<nat, nat>, blk: map<nat, nat>, a: nat, b: nat)
    requires Tiled(who, blk) && a in blk && b in blk && a + blk[a] == b
    ensures Tiled(JoinWho(who, a, b), JoinBlk(blk, a, b)) && JoinWho(who, a, b).Keys == who.Keys
  {
    var who', blk' := JoinWho(who, a, b), JoinBlk(blk, a, b);
    assert Covers(who, a, blk[a]) && Covers(who, b, blk[b]);
    forall c | c in blk' ensures 0 < blk'[c] && Covers(who', c, blk'[c]) {
      assert Covers(who, c, blk[c]);
      if c == a {
        forall u | a <= u < a + blk'[a] ensures u in who' && who'[u] == a {
          assert u < b || u in who;
        }
      }
    }
    forall u | u in who' ensures Placed(who', blk', u) {
      assert Placed(who, blk, u);
    }
  }

  ghost function SplitWho(who: map<nat, nat>, a: nat, b: nat): map<nat, nat> {
    map u | u in who :: if who[u] == a && b <= u then b else who[u]
  }

  ghost function SplitBlk(blk: map<nat, nat>, a: nat, b: nat): map<nat, nat>
    requires a in blk && a < b < a + blk[a]
  {
    blk[a := b - a][b := a + blk[a] - b]
  }

  /** A block cut in two. */
  lemma Split(who: map<nat, nat>, blk: map<nat, nat>, a: nat, b: nat)
    requires Tiled(who, blk) && a in blk && a < b < a + blk[a]
    ensures Tiled(SplitWho(who, a, b), SplitBlk(blk, a, b)) && SplitWho(who, a, b).Keys == who.Keys && b !in blk
  {
    hide Covers, Placed;
    var who', blk' := SplitWho(who, a, b), SplitBlk(blk, a, b);
    NotAStart(who, blk, a, b);
    forall c | c in blk' ensures 0 < blk'[c] && Covers(who', c, blk'[c]) {
      SplitCovers(who, blk, a, b, c);
    }
    forall u | u in who' ensures Placed(who', blk', u) {
      SplitPlaced(who, blk, a, b, u);
    }
  }

  lemma NotAStart(who: map<nat, nat>, blk: map<nat, nat>, a: nat, b: nat)
    requires Tiled(who, blk) && a in blk && a < b < a + blk[a]
    ensures b !in blk
  {
    assert Covers(who, a, blk[a]);
    var w := who[b];
    assert b in blk ==> Covers(who, b, blk[b]);
  }

  lemma SplitCovers(who: map<nat, nat>, blk: map<nat, nat>, a: nat, b: nat, c: nat)
    requires Tiled(who, blk) && a in blk && a < b < a + blk[a] && b !in blk && c in SplitBlk(blk, a, b)
    ensures 0 < SplitBlk(blk, a, b)[c] && Covers(SplitWho(who, a, b), c, SplitBlk(blk, a, b)[c])
  {
    assert Covers(who, a, blk[a]);
    assert c != b ==> Covers(who, c, blk[c]);
  }

  lemma SplitPlaced(who: map<nat, nat>, blk: map<nat, nat>, a: nat, b: nat, u: nat)
    requires Tiled(who, blk) && a in blk && a < b < a + blk[a] && b !in blk && u in who
    ensures Placed(SplitWho(who, a, b), SplitBlk(blk, a, b), u)
  {
    assert Placed(who, blk, u);
  }

  // ---------- The circular list ----------

  ghost predicate Sorted(list: seq<nat>) {
    forall i, j | 0 <= i < j < |list| :: list[i] < list[j]
  }

  /** The element after the first i. */
  function After(list: seq<nat>, i: nat): nat
    requires 0 < |list| && i <= |list|
  {
    if i < |list| then list[i] else list[0]
  }

  ghost predicate Linked(mem: Memory, list: seq<nat>) {
    && 0 < |list| && (forall i | 0 <= i < |list| :: list[i] in mem)
    && (forall i | 0 <= i < |list| :: LinkAt(mem, list, i))
  }

  ghost predicate LinkAt(mem: Memory, list: seq<nat>, i: nat)
    requires i < |list| && list[i] in mem
  {
    mem[list[i]].ptr == After(list, i + 1)
  }

  /** Replacing list[k+1..m] by `mid` (nothing or one element) relinks list[k] and that element alone. */
  lemma LinkedSplice(mem: Memory, list: seq<nat>, k: nat, mid: seq<nat>, m: nat, mem': Memory)
    requires Linked(mem, list) && k < m <= |list| && |mid| <= 1
    requires forall i | 0 <= i < |list| && (i < k || m <= i) :: list[i] in mem' && mem'[list[i]].ptr == mem[list[i]].ptr
    requires list[k] in mem' && mem'[list[k]].ptr == if mid == [] then After(list, m) else mid[0]
    requires mid != [] ==> mid[0] in mem' && mem'[mid[0]].ptr == After(list, m)
    ensures Linked(mem', list[..k + 1] + mid + list[m..])
  {
    var l := list[..k + 1] + mid + list[m..];
    forall i | 0 <= i < |l| ensures l[i] in mem' && LinkAt(mem', l, i) {
      if i < k {
        assert LinkAt(mem, list, i);
        assert l[i] == list[i] && After(l, i + 1) == After(list, i + 1);
      } else if k + |mid| < i {
        var j := i - (k + 1 + |mid|) + m;
        assert LinkAt(mem, list, j);
        assert l[i] == list[j] && After(l, i + 1) == After(list, j + 1);
      }
    }
  }

  lemma SortedSplice(list: seq<nat>, k: nat, mid: seq<nat>, m: nat)
    requires Sorted(list) && k < m <= |list| && |mid| <= 1
    requires mid != [] ==> list[k] < mid[0] && (m < |list| ==> mid[0] < list[m])
    ensures Sorted(list[..k + 1] + mid + list[m..])
  {
  }

  /** No free block touches the next one; `base`, the first element, is no block. */
  ghost predicate Apart(list: seq<nat>, blk: map<nat, nat>) {
    && (forall i | 1 <= i < |list| :: list[i] in blk)
    && (forall i | 1 <= i < |list| - 1 :: ApartAt(list, blk, i))
  }

  ghost predicate ApartAt(list: seq<nat>, blk: map<nat, nat>, i: nat)
    requires i + 1 < |list| && list[i] in blk
  {
    list[i] + blk[list[i]] < list[i + 1]
  }

  lemma ApartSplice(list: seq<nat>, blk: map<nat, nat>, k: nat, mid: seq<nat>, m: nat, blk': map<nat, nat>)
    requires Apart(list, blk) && k < m <= |list| && |mid| <= 1
    requires forall i | 1 <= i < |list| && (i < k || m <= i) :: list[i] in blk' && blk'[list[i]] == blk[list[i]]
    requires 1 <= k ==> list[k] in blk' && (mid != [] ==> list[k] + blk'[list[k]] < mid[0])
    requires 1 <= k && mid == [] && m < |list| ==> list[k] + blk'[list[k]] < list[m]
    requires mid != [] ==> mid[0] in blk' && (m < |list| ==> mid[0] + blk'[mid[0]] < list[m])
    ensures Apart(list[..k + 1] + mid + list[m..], blk')
  {
    var l := list[..k + 1] + mid + list[m..];
    forall i | 1 <= i < |l| ensures l[i] in blk' && (i + 1 < |l| ==> ApartAt(l, blk', i)) {
      if i < k {
        assert ApartAt(list, blk, i);
        assert l[i] == list[i] && l[i + 1] == list[i + 1];
      } else if k + |mid| < i {
        var j := i - (k + 1 + |mid|) + m;
        assert i + 1 < |l| ==> ApartAt(list, blk, j);
        assert l[i] == list[j] && (i + 1 < |l| ==> l[i + 1] == list[j + 1]);
      }
    }
  }

  // ---------- The heap ----------

  ghost predicate HeapOk(base: nat, mem: Memory, list: seq<nat>, blk: map<nat, nat>, who: map<nat, nat>) {
    && Linked(mem, list) && Sorted(list) && list[0] == base && mem[base].size == 0
    && Apart(list, blk) && Tiled(who, blk)
    && (forall a | a in blk :: base < a && a in mem && mem[a].size == blk[a])
  }

  /** The blocks that are not on the free list. */
  ghost function Allocated(list: seq<nat>, blk: map<nat, nat>): map<nat, nat> {
    map a | a in blk && a !in list :: blk[a]
  }

  // ---------- What programs store ----------

  /** Every unit of these blocks, header and payload, has the contents it had. */
  ghost predicate KeepsCells(mem: Memory, mem': Memory, blocks: map<nat, nat>) {
    forall a: nat, u: nat | a in blocks && a <= u < a + blocks[a] :: SameCell(mem, mem', u)
  }

  predicate SameCell(mem: Memory, mem': Memory, u: nat) {
    (u in mem <==> u in mem') && (u in mem ==> mem'[u] == mem[u])
  }

  lemma KeepsAll(mem: Memory, blocks: map<nat, nat>)
    ensures KeepsCells(mem, mem, blocks)
  {
  }

  lemma KeepsChain(mem: Memory, m1: Memory, m2: Memory, blocks: map<nat, nat>)
    requires KeepsCells(mem, m1, blocks) && KeepsCells(m1, m2, blocks)
    ensures KeepsCells(mem, m2, blocks)
  {
    forall a: nat, u: nat | a in blocks && a <= u < a + blocks[a] ensures SameCell(mem, m2, u) {
      assert SameCell(mem, m1, u) && SameCell(m1, m2, u);
    }
  }

  /** A store at a unit of none of the blocks. */
  lemma KeepsWrite(mem: Memory, who: map<nat, nat>, blk: map<nat, nat>, blocks: map<nat, nat>, x: nat, h: Header)
    requires Tiled(who, blk) && (forall a | a in blocks :: a in blk && blocks[a] == blk[a])
             && (x in who ==> who[x] !in blocks)
    ensures KeepsCells(mem, mem[x := h], blocks)
  {
    var m := mem[x := h];
    forall a: nat, u: nat | a in blocks && a <= u < a + blocks[a] ensures SameCell(mem, m, u) {
      assert Covers(who, a, blk[a]);
      assert u in who && who[u] == a;
    }
  }

  /** A unit of the free list is in a free block, or is base, which is in no block. */
  lemma ListUnit(base: nat, mem: Memory, list: seq<nat>, blk: map<nat, nat>, who: map<nat, nat>, x: nat)
    requires HeapOk(base, mem, list, blk, who) && x in list
    ensures x in who ==> who[x] == x && x !in Allocated(list, blk)
    ensures Tiled(who, blk) && forall a | a in Allocated(list, blk) :: a in blk && Allocated(list, blk)[a] == blk[a]
  {
    hide Linked;
    var i :| 0 <= i < |list| && list[i] == x;
    if i == 0 {
      assert x in who ==> Placed(who, blk, x);
    } else {
      assert Covers(who, x, blk[x]);
    }
  }

  /** bp belongs in the list after its element number k. */
  ghost predicate Fits(list: seq<nat>, k: nat, bp: nat) {
    k < |list| && list[k] < bp && (k + 1 < |list| ==> bp < list[k + 1])
  }

  /**
   The lists and blocks after free has put bp back after list[k], joined with its
   neighbours as `up` and `low` say.
   */
  ghost function FreeList(list: seq<nat>, k: nat, bp: nat, up: bool, low: bool): seq<nat>
    requires k < |list| && (up ==> k + 1 < |list|)
  {
    list[..k + 1] + (if low then [] else [bp]) + list[if up then k + 2 else k + 1..]
  }

  ghost function FreeBlk(list: seq<nat>, blk: map<nat, nat>, k: nat, bp: nat, up: bool, low: bool): map<nat, nat>
    requires k < |list| && bp in blk && (up ==> k + 1 < |list| && list[k + 1] in blk && list[k + 1] != bp)
             && (low ==> list[k] in blk)
    requires up ==> list[k + 1] != list[k]
  {
    var b1 := if up then JoinBlk(blk, bp, list[k + 1]) else blk;
    if low then JoinBlk(b1, list[k], bp) else b1
  }

  ghost function FreeWho(list: seq<nat>, who: map<nat, nat>, k: nat, bp: nat, up: bool, low: bool): map<nat, nat>
    requires k < |list| && (up ==> k + 1 < |list|)
  {
    var w1 := if up then JoinWho(who, bp, list[k + 1]) else who;
    if low then JoinWho(w1, list[k], bp) else w1
  }

  /** What free writes: bp's header, then its predecessor's. */
  function FreeMem(mem: Memory, p: nat, bp: nat): Memory
    requires p in mem && bp in mem && mem[p].ptr in mem
  {
    var nxt := mem[p].ptr;
    var m1 := mem[bp :=
        if bp + mem[bp].size == nxt then Header(mem[nxt].ptr, mem[bp].size + mem[nxt].size)
        else Header(nxt, mem[bp].size)];
    m1[p := if p + m1[p].size == bp then Header(m1[bp].ptr, m1[p].size + m1[bp].size) else Header(bp, m1[p].size)]
  }

  /** The situation in which free relinks. */
  ghost predicate Freeing(base: nat, mem: Memory, list: seq<nat>, blk: map<nat, nat>, who: map<nat, nat>, k: nat,
                          bp: nat) {
    HeapOk(base, mem, list, blk, who) && bp in blk && bp !in list && Fits(list, k, bp)
  }

  lemma FitsBetween(base: nat, mem: Memory, list: seq<nat>, blk: map<nat, nat>, who: map<nat, nat>, k: nat, bp: nat)
    requires Freeing(base, mem, list, blk, who, k, bp)
    ensures k < |list| && list[k] < bp && forall a | a in list :: a <= list[k] || bp < a
  {
    hide Linked, Apart, Tiled;
  }

  lemma FreeingFacts(base: nat, mem: Memory, list: seq<nat>, blk: map<nat, nat>, who: map<nat, nat>, k: nat, bp: nat)
    requires Freeing(base, mem, list, blk, who, k, bp)
    ensures 0 < base ==> 0 < list[k] && list[k] != bp
    ensures var p, nxt := list[k], After(list, k + 1);
            && p in mem && bp in mem && nxt in mem && mem[p].ptr == nxt && mem[bp].size == blk[bp] && 0 < blk[bp]
            && (bp + blk[bp] == nxt
                ==> k + 1 < |list| && nxt == list[k + 1] && nxt in blk && mem[nxt].size == blk[nxt]
                    && mem[nxt].ptr == After(list, k + 2))
            && (k + 1 < |list| ==> bp + blk[bp] <= list[k + 1])
            && (k == 0 ==> p == base && mem[p].size == 0)
                && (0 < k ==> p in blk && mem[p].size == blk[p] && p + blk[p] <= bp)
  {
    assert LinkAt(mem, list, k);
    if k + 1 < |list| {
      assert LinkAt(mem, list, k + 1);
      BlocksDisjoint(who, blk, bp, list[k + 1]);
    }
    if 0 < k {
      BlocksDisjoint(who, blk, list[k], bp);
    }
    assert blk[bp] > 0;
  }

  lemma FreeKeepsTiles(base: nat, mem: Memory, list: seq<nat>, blk: map<nat, nat>, who: map<nat, nat>, k: nat, bp: nat,
                       up: bool, low: bool)
    requires Freeing(base, mem, list, blk, who, k, bp)
    requires up == (bp + blk[bp] == After(list, k + 1)) && low == (0 < k && list[k] + blk[list[k]] == bp)
    ensures up ==> k + 1 < |list| && list[k + 1] in blk && list[k + 1] != list[k]
    ensures Tiled(FreeWho(list, who, k, bp, up, low), FreeBlk(list, blk, k, bp, up, low))
    ensures FreeWho(list, who, k, bp, up, low).Keys == who.Keys
  {
    hide Tiled, Linked, Apart, Sorted;
    FreeingFacts(base, mem, list, blk, who, k, bp);
    FreeNeighbours(base, mem, list, blk, who, k, bp);
    if up {
      Join(who, blk, bp, list[k + 1]);
    }
    if low {
      Join(if up then JoinWho(who, bp, list[k + 1]) else who,
          if up then JoinBlk(blk, bp, list[k + 1]) else blk, list[k], bp);
    }
  }

  lemma FreeNeighbours(base: nat, mem: Memory, list: seq<nat>, blk: map<nat, nat>, who: map<nat, nat>, k: nat, bp: nat)
    requires Freeing(base, mem, list, blk, who, k, bp)
    ensures list[k] < bp && (k + 1 < |list| ==> list[k + 1] in blk && bp < list[k + 1])
    ensures 0 < k ==> list[k] in blk
  {
  }

  /** free puts the block back: order, links, sizes and tiling hold again, and no two free blocks touch. */
  lemma FreeKeepsHeap(base: nat, mem: Memory, list: seq<nat>, blk: map<nat, nat>, who: map<nat, nat>, k: nat, bp: nat,
                      up: bool, low: bool)
    requires Freeing(base, mem, list, blk, who, k, bp)
    requires up == (bp + blk[bp] == After(list, k + 1)) && low == (0 < k && list[k] + blk[list[k]] == bp)
    ensures up ==> k + 1 < |list| && list[k + 1] in blk && list[k + 1] != list[k]
    ensures mem[list[k]].ptr in mem
    ensures HeapOk(base, FreeMem(mem, list[k], bp), FreeList(list, k, bp, up, low), FreeBlk(list, blk, k, bp, up, low),
            FreeWho(list, who, k, bp, up, low))
  {
    hide Tiled, Linked, Apart, Sorted, JoinWho;
    FreeingFacts(base, mem, list, blk, who, k, bp);
    FreeNeighbours(base, mem, list, blk, who, k, bp);
    FreeKeepsTiles(base, mem, list, blk, who, k, bp, up, low);
    var mid := if low then [] else [bp];
    var m := if up then k + 2 else k + 1;
    var mem' := FreeMem(mem, list[k], bp);
    FreeMemFacts(base, mem, list, blk, who, k, bp, up, low);
    FreeMemSizes(base, mem, list, blk, who, k, bp, up, low);
    LinkedSplice(mem, list, k, mid, m, mem');
    FreeSorted(base, mem, list, blk, who, k, bp, up);
    SortedSplice(list, k, mid, m);
    FreeApart(base, mem, list, blk, who, k, bp, up, low);
    ApartSplice(list, blk, k, mid, m, FreeBlk(list, blk, k, bp, up, low));
    assert FreeList(list, k, bp, up, low) == list[..k + 1] + mid + list[m..];
  }

  lemma FreeMemFacts(base: nat, mem: Memory, list: seq<nat>, blk: map<nat, nat>, who: map<nat, nat>, k: nat, bp: nat,
                     up: bool, low: bool)
    requires Freeing(base, mem, list, blk, who, k, bp)
    requires up == (bp + blk[bp] == After(list, k + 1)) && low == (0 < k && list[k] + blk[list[k]] == bp)
    requires up ==> k + 1 < |list| && list[k + 1] in blk && list[k + 1] != list[k]
    requires mem[list[k]].ptr in mem
    ensures var m, mem' := if up then k + 2 else k + 1, FreeMem(mem, list[k], bp);
            && (forall i | 0 <= i < |list|
                && (i < k || m <= i) :: list[i] in mem' && mem'[list[i]].ptr == mem[list[i]].ptr)
            && mem'[list[k]].ptr == (if low then After(list, m) else bp)
            && (!low ==> mem'[bp].ptr == After(list, m)) && bp in mem'
  {
    hide Tiled, Apart;
    FreeingFacts(base, mem, list, blk, who, k, bp);
    assert forall i | 0 <= i < |list| && i != k :: list[i] != list[k];
    assert forall i | 0 <= i < |list| :: list[i] != bp;
  }

  lemma FreeMemSizes(base: nat, mem: Memory, list: seq<nat>, blk: map<nat, nat>, who: map<nat, nat>, k: nat, bp: nat,
                     up: bool, low: bool)
    requires Freeing(base, mem, list, blk, who, k, bp)
    requires up == (bp + blk[bp] == After(list, k + 1)) && low == (0 < k && list[k] + blk[list[k]] == bp)
    requires up ==> k + 1 < |list| && list[k + 1] in blk && list[k + 1] != list[k]
    requires mem[list[k]].ptr in mem
    ensures var mem', blk' := FreeMem(mem, list[k], bp), FreeBlk(list, blk, k, bp, up, low);
            && base in mem' && mem'[base].size == 0
            && (forall a | a in blk' :: base < a && a in mem' && mem'[a].size == blk'[a])
  {
    hide Tiled, Apart, Linked;
    FreeingFacts(base, mem, list, blk, who, k, bp);
    BaseFacts(base, mem, list, blk, who);
    assert 0 < k ==> list[k] != base;
  }

  lemma BaseFacts(base: nat, mem: Memory, list: seq<nat>, blk: map<nat, nat>, who: map<nat, nat>)
    requires HeapOk(base, mem, list, blk, who)
    ensures base !in blk && base in mem && mem[base].size == 0 && forall i | 1 <= i < |list| :: list[i] != base
  {
  }

  lemma FreeSorted(base: nat, mem: Memory, list: seq<nat>, blk: map<nat, nat>, who: map<nat, nat>, k: nat, bp: nat,
                   up: bool)
    requires Freeing(base, mem, list, blk, who, k, bp) && (up ==> k + 1 < |list|)
    ensures Sorted(list) && list[k] < bp
            && ((if up then k + 2 else k + 1) < |list| ==> bp < list[if up then k + 2 else k + 1])
  {
  }

  lemma FreeApart(base: nat, mem: Memory, list: seq<nat>, blk: map<nat, nat>, who: map<nat, nat>, k: nat, bp: nat,
                  up: bool, low: bool)
    requires Freeing(base, mem, list, blk, who, k, bp)
    requires up == (bp + blk[bp] == After(list, k + 1)) && low == (0 < k && list[k] + blk[list[k]] == bp)
    requires up ==> k + 1 < |list| && list[k + 1] in blk && list[k + 1] != list[k]
    ensures var m, blk' := if up then k + 2 else k + 1, FreeBlk(list, blk, k, bp, up, low);
            && (forall i | 1 <= i < |list| && (i < k || m <= i) :: list[i] in blk' && blk'[list[i]] == blk[list[i]])
            && (1 <= k ==> list[k] in blk' && (!low ==> list[k] + blk'[list[k]] < bp))
            && (1 <= k && low && m < |list| ==> list[k] + blk'[list[k]] < list[m])
            && (!low ==> bp in blk' && (m < |list| ==> bp + blk'[bp] < list[m]))
  {
    hide Tiled, Linked;
    FreeingFacts(base, mem, list, blk, who, k, bp);
    assert 1 <= k && k + 1 < |list| ==> ApartAt(list, blk, k);
    assert k + 2 < |list| ==> ApartAt(list, blk, k + 1);
    var m, blk' := if up then k + 2 else k + 1, FreeBlk(list, blk, k, bp, up, low);
    forall i | 1 <= i < |list| && (i < k || m <= i) ensures list[i] in blk' && blk'[list[i]] == blk[list[i]] {
      assert list[i] != list[k] && (up ==> list[i] != list[k + 1]);
    }
  }

  /** free takes its block from the allocated ones and leaves the others as they are. */
  lemma FreeKeepsOthers(base: nat, mem: Memory, list: seq<nat>, blk: map<nat, nat>, who: map<nat, nat>, k: nat, bp: nat,
                        up: bool, low: bool)
    requires Freeing(base, mem, list, blk, who, k, bp)
    requires up == (bp + blk[bp] == After(list, k + 1)) && low == (0 < k && list[k] + blk[list[k]] == bp)
    requires up ==> k + 1 < |list| && list[k + 1] in blk && list[k + 1] != list[k]
    ensures Allocated(FreeList(list, k, bp, up, low), FreeBlk(list, blk, k, bp, up, low)) == Allocated(list, blk) - {bp}
  {
    hide Tiled, Linked, Sorted, Apart;
    FreeingFacts(base, mem, list, blk, who, k, bp);
    FreeNeighbours(base, mem, list, blk, who, k, bp);
    var m, mid := if up then k + 2 else k + 1, if low then [] else [bp];
    var l, blk' := FreeList(list, k, bp, up, low), FreeBlk(list, blk, k, bp, up, low);
    assert l == list[..k + 1] + mid + list[m..];
    forall a | a in blk ensures a in l <==> a in mid || (a in list && !(up && a == list[k + 1])) {
      SpliceMembers(list, k, mid, m, a);
      assert a in list[k + 1..m] <==> up && a == list[k + 1];
    }
    assert list[k] in list && (up ==> list[k + 1] in list);
  }

  lemma SpliceMembers(list: seq<nat>, k: nat, mid: seq<nat>, m: nat, x: nat)
    requires k < m <= |list| && Sorted(list)
    ensures x in list[..k + 1] + mid + list[m..] <==> x in mid || (x in list && x !in list[k + 1..m])
  {
    assert list == list[..k + 1] + list[k + 1..m] + list[m..];
    assert x in list[k + 1..m] ==> x !in list[..k + 1] && x !in list[m..];
  }

  /** There is a place for bp in the list. */
  lemma {:induction false} FindPlace(list: seq<nat>, bp: nat, n: nat) returns (k: nat)
    requires Sorted(list) && 0 < n <= |list| && list[0] < bp && bp !in list && (n < |list| ==> bp < list[n])
    ensures Fits(list, k, bp)
    decreases n
  {
    if list[n - 1] < bp {
      k := n - 1;
    } else {
      k := FindPlace(list, bp, n - 1);
    }
  }

  /** How far element k is from element t, going round. */
  function Distance(k: nat, t: nat, n: nat): nat
    requires k < n && t < n
  {
    if k <= t then t - k else n - k + t
  }

  /** At element k the search has found the place, or gets nearer to it by going on. */
  lemma SearchStep(list: seq<nat>, bp: nat, k: nat, t: nat)
    requires Sorted(list) && k < |list| && Fits(list, t, bp) && list[0] < bp
    ensures var p, nxt := list[k], After(list, k + 1);
            if (bp > p && bp < nxt) || (p >= nxt && (bp > p || bp < nxt)) then Fits(list, k, bp)
            else Distance(if k + 1 < |list| then k + 1 else 0, t, |list|) < Distance(k, t, |list|)
  {
    if k == t {
      assert k + 1 < |list| ==> list[k] < list[k + 1];
    }
  }

  /** The block that holds bp after free is a free one, no smaller than bp's was. */
  lemma FreedIsIn(base: nat, mem: Memory, list: seq<nat>, blk: map<nat, nat>, who: map<nat, nat>, k: nat, bp: nat,
                  up: bool, low: bool)
    requires Freeing(base, mem, list, blk, who, k, bp)
    requires up == (bp + blk[bp] == After(list, k + 1)) && low == (0 < k && list[k] + blk[list[k]] == bp)
    requires up ==> k + 1 < |list| && list[k + 1] in blk && list[k + 1] != list[k]
    ensures var w := if low then list[k] else bp;
            w in FreeList(list, k, bp, up, low) && w in FreeBlk(list, blk, k, bp, up, low)
                && blk[bp] <= FreeBlk(list, blk, k, bp, up, low)[w]
  {
    hide Tiled, Linked, Sorted, Apart;
    FreeingFacts(base, mem, list, blk, who, k, bp);
    FreeNeighbours(base, mem, list, blk, who, k, bp);
    var l := FreeList(list, k, bp, up, low);
    assert l[k] == list[k] && (!low ==> l[k + 1] == bp);
  }

  /** No two free blocks touch, next to each other in the list or not. */
  lemma FreeBlocksApart(base: nat, mem: Memory, list: seq<nat>, blk: map<nat, nat>, who: map<nat, nat>, i: nat, j: nat)
    requires HeapOk(base, mem, list, blk, who) && 1 <= i < |list| && 1 <= j < |list| && i != j
    ensures list[i] in blk && list[i] + blk[list[i]] != list[j]
  {
    assert i < j ==> ApartAt(list, blk, i) && (i + 1 < j ==> list[i + 1] < list[j]);
    assert j < i ==> list[j] < list[i];
  }

  lemma FreeKeepsCells(base: nat, mem: Memory, list: seq<nat>, blk: map<nat, nat>, who: map<nat, nat>, k: nat, bp: nat)
    requires Freeing(base, mem, list, blk, who, k, bp)
    requires k < |list| && list[k] in mem && bp in mem && mem[list[k]].ptr in mem
    ensures KeepsCells(mem, FreeMem(mem, list[k], bp), Allocated(list, blk) - {bp})
  {
    hide HeapOk, Fits, KeepsCells, Tiled, Allocated;
    var p, others := list[k], Allocated(list, blk) - {bp};
    ListUnit(base, mem, list, blk, who, p);
    FirstUnit(base, mem, list, blk, who, bp);
    var m := FreeMem(mem, p, bp);
    KeepsWrite(mem, who, blk, others, bp, m[bp]);
    var m1 := mem[bp := m[bp]];
    KeepsWrite(m1, who, blk, others, p, m[p]);
    assert p != bp ==> m == m1[p := m[p]];
    KeepsChain(mem, m1, m1[p := m[p]], others);
  }

  lemma FirstUnit(base: nat, mem: Memory, list: seq<nat>, blk: map<nat, nat>, who: map<nat, nat>, a: nat)
    requires HeapOk(base, mem, list, blk, who) && a in blk
    ensures a in who && who[a] == a && a in mem && Tiled(who, blk) && (a !in list ==> a != base)
  {
    hide Linked;
    assert Covers(who, a, blk[a]);
  }

  class Heap {
    const base: nat
    var mem: Memory
    var freep: nat                             // 0 before the first malloc
    ghost var list: seq<nat>
    ghost var blk: map<nat, nat>
    ghost var who: map<nat, nat>

    ghost predicate Valid()
      reads this
    {
      && 0 < base
      && (freep == 0 ==> list == [] && blk == map[] && who == map[])
      && (freep != 0 ==> freep in list && HeapOk(base, mem, list, blk, who))
    }

    constructor (base: nat)
      requires 0 < base
      ensures Valid() && this.base == base && freep == 0
    {
      this.base := base;
      mem, freep, list, blk, who := map[], 0, [], map[], map[];
    }

    /** free: find the place, join with the neighbours it touches. */
    method Free(ap: nat) returns (ghost w: nat)
      requires Valid() && 0 < ap && ap - 1 in Allocated(list, blk)
      modifies this
      ensures Valid() && freep != 0 && who.Keys == old(who).Keys
      ensures Allocated(list, blk) == Allocated(old(list), old(blk)) - {ap - 1}
      ensures w in list && w in blk && old(blk)[ap - 1] <= blk[w]
      ensures KeepsCells(old(mem), mem, Allocated(list, blk))
      ensures freep in old(list) && freep < ap - 1 && forall a | a in old(list) :: a <= freep || ap - 1 < a
    {
      hide HeapOk, FreeMem, FreeList, FreeBlk, FreeWho, Sorted, Linked, Fits, KeepsCells, Allocated;
      var bp := ap - 1;
      var p;
      ghost var k;
      p, k := FindPredecessor(bp);
      FreeingFacts(base, mem, list, blk, who, k, bp);
      ghost var up := bp + blk[bp] == After(list, k + 1);
      ghost var low := 0 < k && list[k] + blk[list[k]] == bp;
      FitsBetween(base, mem, list, blk, who, k, bp);
      FreeKeepsHeap(base, mem, list, blk, who, k, bp, up, low);
      FreeKeepsTiles(base, mem, list, blk, who, k, bp, up, low);
      FreeKeepsOthers(base, mem, list, blk, who, k, bp, up, low);
      FreedIsIn(base, mem, list, blk, who, k, bp, up, low);
      FirstKept(list, k, bp, up, low);
      InBlocks(list, blk, bp);
      FreeKeepsCells(base, mem, list, blk, who, k, bp);
      w := if low then list[k] else bp;
      Relink(p, bp);
      list, blk, who := FreeList(list, k, bp, up, low), FreeBlk(list, blk, k, bp, up, low),
          FreeWho(list, who, k, bp, up, low);
      freep := p;
    }

    /** The four stores of free. */
    method Relink(p: nat, bp: nat)
      requires p in mem && bp in mem && mem[p].ptr in mem && p != bp && 0 < mem[bp].size
      modifies this`mem
      ensures mem == FreeMem(old(mem), p, bp)
    {
      if bp + mem[bp].size == mem[p].ptr {
        mem := mem[bp := mem[bp].(size := mem[bp].size + mem[mem[p].ptr].size)];
        mem := mem[bp := mem[bp].(ptr := mem[mem[p].ptr].ptr)];
      } else {
        mem := mem[bp := mem[bp].(ptr := mem[p].ptr)];
      }
      if p + mem[p].size == bp {
        mem := mem[p := mem[p].(size := mem[p].size + mem[bp].size)];
        mem := mem[p := mem[p].(ptr := mem[bp].ptr)];
      } else {
        mem := mem[p := mem[p].(ptr := bp)];
      }
    }

    /** The search of free, which goes round the list at most once. */
    method FindPredecessor(bp: nat) returns (p: nat, ghost k: nat)
      requires Valid() && bp in Allocated(list, blk)
      ensures Freeing(base, mem, list, blk, who, k, bp) && k < |list| && p == list[k]
    {
      hide HeapOk, Sorted, Fits, Distance, Linked, Allocated;
      InBlocks(list, blk, bp);
      ListFacts(base, mem, list, blk, who, bp);
      ghost var t := FindPlace(list, bp, |list|);
      PlaceIn(list, t, bp);
      p := freep;
      k :| 0 <= k < |list| && list[k] == freep;
      SearchStep(list, bp, k, t);
      LinkedAt(mem, list, k);
      while !(bp > p && bp < mem[p].ptr)
        invariant k < |list| && p == list[k]
        invariant p in mem && mem[p].ptr == After(list, k + 1)
        invariant bp > p && bp < mem[p].ptr ==> Fits(list, k, bp)
        decreases Distance(k, t, |list|)
      {
        SearchStep(list, bp, k, t);
        if p >= mem[p].ptr && (bp > p || bp < mem[p].ptr) {
          break;
        }
        p := mem[p].ptr;
        k := if k + 1 < |list| then k + 1 else 0;
        LinkedAt(mem, list, k);
        SearchStep(list, bp, k, t);
      }
    }

    /**
     morecore: at least 4096 more units, freed.  `core` says whether sbrk
     succeeds and `brk` where, which is above everything it gave before.
     */
    method Morecore(nu: nat, core: bool, brk: nat) returns (p: nat, ghost w: nat)
      requires Valid() && freep != 0 && 0 < nu && base < brk && forall u | u in who :: u < brk
      modifies this
      ensures Valid() && freep != 0
      ensures !core ==>
              p == 0 && mem == old(mem) && freep == old(freep) && list == old(list) && blk == old(blk)
              && who == old(who)
      ensures core ==> p == freep && w in list && w in blk && nu <= blk[w]
      ensures core ==> Allocated(list, blk) == Allocated(old(list), old(blk)) && Grown(old(who), who, brk, nu)
      ensures KeepsCells(old(mem), mem, Allocated(old(list), old(blk)))
    {
      hide HeapOk, Allocated, NewWho, KeepsCells;
      KeepsAll(mem, Allocated(list, blk));
      var n := if nu < 4096 then 4096 else nu;
      if !core {
        return 0, 0;
      }
      var hp := brk;
      CoreKeepsCells(base, mem, list, blk, who, hp, Header(if hp in mem then mem[hp].ptr else 0, n));
      AddCore(base, mem, list, blk, who, hp, n);
      mem := mem[hp := Header(if hp in mem then mem[hp].ptr else 0, n)];
      blk, who := blk[hp := n], NewWho(who, hp, n);
      ghost var m := mem;
      w := Free(hp + 1);
      assert Allocated(old(list), old(blk))[hp := n] - {hp} == Allocated(old(list), old(blk));
      KeepsChain(old(mem), m, mem, Allocated(old(list), old(blk)));
      return freep, w;
    }

    /** malloc's use of the block it found: all of it, or its tail. */
    method Take(prevp: nat, p: nat, nunits: nat, ghost c: nat) returns (ap: nat)
      requires Valid() && freep != 0 && Walking(list, freep, prevp, p, c) && 0 < nunits && p in mem && p in blk
               && nunits <= mem[p].size
      requires prevp in mem
      modifies this
      ensures Valid() && ap != 0 && who.Keys == old(who).Keys
      ensures ap - 1 !in Allocated(old(list), old(blk))
              && Allocated(list, blk) == Allocated(old(list), old(blk))[ap - 1 := nunits]
      ensures freep == prevp && ap - 1 == p + (old(blk)[p] - nunits)
      ensures KeepsCells(old(mem), mem, Allocated(old(list), old(blk)))
    {
      hide HeapOk, Walking, Allocated, Linked, SplitWho, SplitBlk, KeepsCells, Tiled;
      ghost var others := Allocated(list, blk);
      ghost var k := WalkingIndex(base, mem, list, blk, who, freep, prevp, p, c);
      var q := p;
      if mem[p].size == nunits {
        TakeAll(base, mem, list, blk, who, k);
        TakenAll(list, blk, k);
        ListUnit(base, mem, list, blk, who, prevp);
        KeepsWrite(mem, who, blk, others, prevp, mem[prevp].(ptr := mem[p].ptr));
        mem := mem[prevp := mem[prevp].(ptr := mem[p].ptr)];
        list := list[..k + 1] + [] + list[k + 2..];
        assert list[k] == prevp;
      } else {
        TakeTail(base, mem, list, blk, who, k, nunits);
        NotABlock(base, mem, list, blk, who, k, p + (blk[p] - nunits));
        TakenTail(list, blk, p, p + (blk[p] - nunits));
        ListUnit(base, mem, list, blk, who, p);
        TailUnit(who, blk, p, p);
        TailUnit(who, blk, p, p + (blk[p] - nunits));
        KeepsWrite(mem, who, blk, others, p, mem[p].(size := mem[p].size - nunits));
        mem := mem[p := mem[p].(size := mem[p].size - nunits)];
        q := p + mem[p].size;
        ghost var m := mem;
        KeepsWrite(mem, who, blk, others, q, Header(if q in mem then mem[q].ptr else 0, nunits));
        mem := mem[q := Header(if q in mem then mem[q].ptr else 0, nunits)];
        KeepsChain(old(mem), m, mem, others);
        blk, who := SplitBlk(blk, p, q), SplitWho(who, p, q);
        assert list[k] == prevp;
      }
      freep := prevp;
      return q + 1;
    }

    /**
     malloc: first fit from freep on, with at most one call of morecore.
     Returns 0 only if no free block is big enough and sbrk fails.
     */
    method Malloc(nbytes: nat, core: bool, brk: nat) returns (ap: nat)
      requires Valid() && base < brk && forall u | u in who :: u < brk
      modifies this
      ensures Valid()
      ensures HasRoom(Units(nbytes), nbytes) && forall j: nat | HasRoom(j, nbytes) :: Units(nbytes) <= j
      ensures ap == 0 <==> !core && NoFit(old(list), old(blk), Units(nbytes))
      ensures ap == 0 ==> Allocated(list, blk) == Allocated(old(list), old(blk)) && who == old(who)
      ensures ap != 0 ==>
              ap - 1 !in Allocated(old(list), old(blk))
              && Allocated(list, blk) == Allocated(old(list), old(blk))[ap - 1 := Units(nbytes)]
      ensures !NoFit(old(list), old(blk), Units(nbytes)) ==>
              ap != 0 && who.Keys == old(who).Keys
              && NextFit(old(list), old(blk), old(freep), Units(nbytes), ap - 1, freep)
      ensures NoFit(old(list), old(blk), Units(nbytes)) && core ==> Grown(old(who), who, brk, Units(nbytes))
      ensures KeepsCells(old(mem), mem, Allocated(old(list), old(blk)))
    {
      hide HeapOk, Allocated, NoFit, NextFit, Grown, Linked, KeepsCells;
      KeepsAll(mem, Allocated(list, blk));
      var nunits := Units(nbytes);
      ghost var m := mem;
      if freep == 0 {
        NoBlocks(mem, mem[base := Header(base, 0)], list);
        mem := mem[base := Header(base, 0)];
        freep := base;
        list := [base];
        EmptyHeap(base, mem, nunits);
        m := mem;
      }
      NothingYet(old(list), old(blk), list, blk, base, nunits);
      ap := Search(nunits, core, brk);
      KeepsChain(old(mem), m, mem, Allocated(old(list), old(blk)));
    }

    /** malloc's search, from freep round the circle, and once more after morecore. */
    method Search(nunits: nat, core: bool, brk: nat) returns (ap: nat)
      requires Valid() && freep != 0 && 0 < nunits && base < brk && forall u | u in who :: u < brk
      modifies this
      ensures Valid()
      ensures ap == 0 <==> !core && NoFit(old(list), old(blk), nunits)
      ensures ap == 0 ==> Allocated(list, blk) == Allocated(old(list), old(blk)) && who == old(who)
      ensures ap != 0 ==>
              ap - 1 !in Allocated(old(list), old(blk))
              && Allocated(list, blk) == Allocated(old(list), old(blk))[ap - 1 := nunits]
      ensures !NoFit(old(list), old(blk), nunits) ==>
              ap != 0 && who.Keys == old(who).Keys
              && NextFit(old(list), old(blk), old(freep), nunits, ap - 1, freep)
      ensures NoFit(old(list), old(blk), nunits) && core ==> Grown(old(who), who, brk, nunits)
      ensures KeepsCells(old(mem), mem, Allocated(old(list), old(blk)))
    {
      hide HeapOk, Allocated, NoFit, NextFit, Rotation, Grown, Linked, KeepsCells;
      KeepsAll(mem, Allocated(list, blk));
      ghost var l0, b0, w0 := list, blk, who;
      RotationFacts(base, mem, list, blk, who, freep);
      var prevp := freep;
      var p := mem[prevp].ptr;
      ghost var c, grown, w := 0, false, 0;
      while true
        invariant Valid() && freep != 0 && Walking(list, freep, prevp, p, c)
        invariant forall i | 0 <= i < c :: SizeOf(blk, Rotation(list, freep)[i]) < nunits
        invariant !grown ==> list == l0 && blk == b0 && who == w0 && freep == old(freep)
        invariant Allocated(list, blk) == Allocated(l0, b0)
        invariant KeepsCells(old(mem), mem, Allocated(l0, b0))
        invariant grown ==>
                  core && NoFit(l0, b0, nunits) && Grown(w0, who, brk, nunits) && w in list && w in blk
                  && nunits <= blk[w]
        decreases if grown then 0 else 1, |list| - c
      {
        RotationFacts(base, mem, list, blk, who, freep);
        if mem[p].size >= nunits {
          ghost var w1, m := who, mem;
          Found(base, mem, list, blk, who, freep, nunits, prevp, p, c);
          ap := Take(prevp, p, nunits, c);
          KeepsChain(old(mem), m, mem, Allocated(l0, b0));
          SameGrown(w0, w1, who, brk, nunits);
          return;
        }
        assert SizeOf(blk, Rotation(list, freep)[c]) < nunits;
        c := c + 1;
        if p == freep {
          AllSmall(list, blk, freep, nunits);
          ghost var m := mem;
          p, w := Morecore(nunits, core, brk);
          KeepsChain(old(mem), m, mem, Allocated(l0, b0));
          if p == 0 {
            return 0;
          }
          grown, c := true, 0;
          RotationFacts(base, mem, list, blk, who, freep);
        }
        prevp := p;
        p := mem[p].ptr;
      }
    }

    /** The program stores into the payload of an allocated block: the heap does not care, nor does any other block. */
    method Store(ap: nat, u: nat, h: Header)
      requires Valid() && 0 < ap && ap - 1 in Allocated(list, blk) && ap <= u < ap - 1 + Allocated(list, blk)[ap - 1]
      modifies this`mem
      ensures Valid() && mem == old(mem)[u := h] && KeepsCells(old(mem), mem, Allocated(list, blk) - {ap - 1})
    {
      StoreKeeps(base, mem, list, blk, who, ap - 1, u, h);
      mem := mem[u := h];
    }
  }

  lemma StoreKeeps(base: nat, mem: Memory, list: seq<nat>, blk: map<nat, nat>, who: map<nat, nat>, a: nat, u: nat,
                   h: Header)
    requires HeapOk(base, mem, list, blk, who) && a in Allocated(list, blk) && a < u < a + blk[a]
    ensures HeapOk(base, mem[u := h], list, blk, who) && KeepsCells(mem, mem[u := h], Allocated(list, blk) - {a})
  {
    hide KeepsCells, Tiled, Apart, Sorted;
    TailUnit(who, blk, a, u);
    forall x | x in list || x in blk ensures x != u {
      if x in list {
        ListUnit(base, mem, list, blk, who, x);
      } else {
        FirstUnit(base, mem, list, blk, who, x);
      }
    }
    KeepsWrite(mem, who, blk, Allocated(list, blk) - {a}, u, h);
    var m := mem[u := h];
    forall i | 0 <= i < |list| ensures LinkAt(m, list, i) {
      assert LinkAt(mem, list, i) && list[i] != u;
    }
  }

  lemma NoBlocks(mem: Memory, mem': Memory, list: seq<nat>)
    ensures KeepsCells(mem, mem', Allocated(list, map[]))
  {
  }

  lemma TailUnit(who: map<nat, nat>, blk: map<nat, nat>, p: nat, q: nat)
    requires Tiled(who, blk) && p in blk && p <= q < p + blk[p]
    ensures q in who && who[q] == p
  {
    assert Covers(who, p, blk[p]);
  }

  lemma CoreKeepsCells(base: nat, mem: Memory, list: seq<nat>, blk: map<nat, nat>, who: map<nat, nat>, hp: nat,
                       h: Header)
    requires HeapOk(base, mem, list, blk, who) && hp !in who
    ensures KeepsCells(mem, mem[hp := h], Allocated(list, blk))
  {
    hide KeepsCells, Tiled, Linked;
    KeepsWrite(mem, who, blk, Allocated(list, blk), hp, h);
  }

  /** sbrk has added nu units, or 4096, from brk on. */
  ghost predicate Grown(who: map<nat, nat>, who': map<nat, nat>, brk: nat, nu: nat) {
    forall u: nat :: u in who' <==> u in who || brk <= u < brk + if nu < 4096 then 4096 else nu
  }

  lemma SameGrown(who: map<nat, nat>, w1: map<nat, nat>, w2: map<nat, nat>, brk: nat, nu: nat)
    requires w1.Keys == w2.Keys
    ensures Grown(who, w1, brk, nu) ==> Grown(who, w2, brk, nu)
  {
    assert forall u: nat :: u in w1 <==> u in w1.Keys;
    assert forall u: nat :: u in w2 <==> u in w2.Keys;
  }

  function First(a: nat, u: nat): nat {
    a
  }

  ghost function NewWho(who: map<nat, nat>, a: nat, n: nat): map<nat, nat> {
    who + map u | a <= u < a + n :: First(a, u)
  }

  lemma AddTiles(who: map<nat, nat>, blk: map<nat, nat>, hp: nat, n: nat)
    requires Tiled(who, blk) && 0 < n && forall u | u in who :: u < hp
    ensures hp !in blk && Tiled(NewWho(who, hp, n), blk[hp := n]) && forall a | a in blk :: a < hp
    ensures forall u: nat :: u in NewWho(who, hp, n) <==> u in who || hp <= u < hp + n
  {
    var blk', who' := blk[hp := n], NewWho(who, hp, n);
    forall a | a in blk ensures a < hp {
      assert Covers(who, a, blk[a]);
      assert a in who;
    }
    forall a | a in blk' ensures 0 < blk'[a] && Covers(who', a, blk'[a]) {
      assert a != hp ==> Covers(who, a, blk[a]);
    }
    forall u | u in who' ensures Placed(who', blk', u) {
      assert u in who ==> Placed(who, blk, u);
    }
  }

  /** New units above the heap make one allocated block. */
  lemma AddCore(base: nat, mem: Memory, list: seq<nat>, blk: map<nat, nat>, who: map<nat, nat>, hp: nat, n: nat)
    requires HeapOk(base, mem, list, blk, who) && base < hp && 0 < n && forall u | u in who :: u < hp
    ensures HeapOk(base, mem[hp := Header(if hp in mem then mem[hp].ptr else 0, n)], list, blk[hp := n],
            NewWho(who, hp, n))
    ensures hp !in Allocated(list, blk) && Allocated(list, blk[hp := n]) == Allocated(list, blk)[hp := n]
    ensures forall u: nat :: u in NewWho(who, hp, n) <==> u in who || hp <= u < hp + n
  {
    hide Tiled, NewWho, Linked, Apart;
    AddTiles(who, blk, hp, n);
    ListBelow(base, mem, list, blk, who, hp);
    SameLinks(mem, list, mem[hp := Header(if hp in mem then mem[hp].ptr else 0, n)]);
    SmallerApart(list, blk, blk[hp := n]);
  }

  lemma ListBelow(base: nat, mem: Memory, list: seq<nat>, blk: map<nat, nat>, who: map<nat, nat>, hp: nat)
    requires HeapOk(base, mem, list, blk, who) && base < hp && forall a | a in blk :: a < hp
    ensures hp !in list && base in mem
  {
    hide Tiled;
  }

  ghost function SizeOf(blk: map<nat, nat>, a: nat): nat {
    if a in blk then blk[a] else 0
  }

  /** Where malloc's search is: at element c of the rotation, prevp before it. */
  ghost predicate Walking(list: seq<nat>, freep: nat, prevp: nat, p: nat, c: nat) {
    && freep in list && c < |list| && p == Rotation(list, freep)[c]
    && prevp == if c == 0 then freep else Rotation(list, freep)[c - 1]
  }

  lemma EmptyHeap(base: nat, mem: Memory, n: nat)
    requires 0 < base && base in mem && mem[base] == Header(base, 0)
    ensures HeapOk(base, mem, [base], map[], map[])
  {
  }

  lemma NothingYet(list: seq<nat>, blk: map<nat, nat>, list': seq<nat>, blk': map<nat, nat>, base: nat, n: nat)
    requires (list' == list || (list == [] && list' == [base])) && blk' == blk && (list' != list ==> blk == map[])
    ensures NoFit(list, blk, n) == NoFit(list', blk', n) && Allocated(list, blk) == Allocated(list', blk')
    ensures list == [] ==> NoFit(list, blk, n)
  {
  }

  /** A block of n units has a header and room for nbytes bytes. */
  ghost predicate HasRoom(n: nat, nbytes: nat) {
    0 < n && nbytes <= (n - 1) * UNIT
  }

  /** The least number of units with room for nbytes bytes. */
  function Units(nbytes: nat): (n: nat)
    ensures 0 < n && HasRoom(n, nbytes) && forall j: nat | HasRoom(j, nbytes) :: n <= j
  {
    (nbytes + UNIT - 1) / UNIT + 1
  }

  /** When every element looked at is too small, none fits. */
  lemma AllSmall(list: seq<nat>, blk: map<nat, nat>, freep: nat, n: nat)
    requires freep in list && forall a | a in list :: a in Rotation(list, freep)
    requires forall i | 0 <= i < |list| :: SizeOf(blk, Rotation(list, freep)[i]) < n
    ensures NoFit(list, blk, n)
  {
    forall a | a in list && a in blk ensures blk[a] < n {
      var i :| 0 <= i < |list| && Rotation(list, freep)[i] == a;
      assert SizeOf(blk, a) < n;
    }
  }

  /** An exact fit is unlinked. */
  lemma TakeAll(base: nat, mem: Memory, list: seq<nat>, blk: map<nat, nat>, who: map<nat, nat>, k: nat)
    requires HeapOk(base, mem, list, blk, who) && k + 1 < |list|
    ensures var p, prevp, list' := list[k + 1], list[k], list[..k + 1] + [] + list[k + 2..];
            && p in mem && prevp in mem && p in blk
            && HeapOk(base, mem[prevp := mem[prevp].(ptr := mem[p].ptr)], list', blk, who)
  {
    hide Tiled, Linked, Apart, Sorted;
    var p, prevp := list[k + 1], list[k];
    UnlinkFacts(base, mem, list, blk, who, k);
    var mem' := mem[prevp := mem[prevp].(ptr := mem[p].ptr)];
    LinkedSplice(mem, list, k, [], k + 2, mem');
    SortedSplice(list, k, [], k + 2);
    NotTouching(list, blk, k);
    ApartSplice(list, blk, k, [], k + 2, blk);
  }

  lemma UnlinkFacts(base: nat, mem: Memory, list: seq<nat>, blk: map<nat, nat>, who: map<nat, nat>, k: nat)
    requires HeapOk(base, mem, list, blk, who) && k + 1 < |list|
    ensures list[k + 1] in mem && list[k] in mem && mem[list[k + 1]].ptr == After(list, k + 2) && base in mem
    ensures forall i | 0 <= i < |list| && i != k :: list[i] in mem && list[i] != list[k]
    ensures forall i | 1 <= i < |list| :: list[i] in blk
  {
    hide Tiled;
    assert LinkAt(mem, list, k + 1);
  }

  lemma NotTouching(list: seq<nat>, blk: map<nat, nat>, k: nat)
    requires Apart(list, blk) && Sorted(list) && k + 1 < |list|
    ensures 1 <= k && k + 2 < |list| ==> list[k] in blk && list[k] + blk[list[k]] < list[k + 2]
  {
    assert k + 2 < |list| ==> list[k + 1] < list[k + 2];
    assert 1 <= k ==> ApartAt(list, blk, k);
  }

  lemma TakenAll(list: seq<nat>, blk: map<nat, nat>, k: nat)
    requires Sorted(list) && k + 1 < |list| && list[k + 1] in blk
    ensures var p, list' := list[k + 1], list[..k + 1] + [] + list[k + 2..];
            p !in Allocated(list, blk) && Allocated(list', blk) == Allocated(list, blk)[p := blk[p]]
  {
    hide Sorted;
    var p, list' := list[k + 1], list[..k + 1] + [] + list[k + 2..];
    forall a | a in blk ensures a in list' <==> a in list && a != p {
      SpliceMembers(list, k, [], k + 2, a);
      assert list[k + 1..k + 2] == [p];
    }
  }

  /** A larger block gives its tail. */
  lemma TakeTail(base: nat, mem: Memory, list: seq<nat>, blk: map<nat, nat>, who: map<nat, nat>, k: nat, n: nat)
    requires HeapOk(base, mem, list, blk, who) && k + 1 < |list| && list[k + 1] in blk && 0 < n < blk[list[k + 1]]
    ensures var p := list[k + 1]; var q := p + (blk[p] - n);
            && p in mem && mem[p].size == blk[p]
            && var m1 := mem[p := mem[p].(size := mem[p].size - n)];
            && HeapOk(base, m1[q := Header(if q in m1 then m1[q].ptr else 0, n)], list, SplitBlk(blk, p, q),
                SplitWho(who, p, q))
            && SplitWho(who, p, q).Keys == who.Keys
  {
    hide Tiled, SplitWho, Linked, Apart, Sorted;
    var p := list[k + 1];
    var q := p + (blk[p] - n);
    var m1 := mem[p := mem[p].(size := mem[p].size - n)];
    var m2 := m1[q := Header(if q in m1 then m1[q].ptr else 0, n)];
    Split(who, blk, p, q);
    TailNotFree(base, mem, list, blk, who, k, q);
    SameLinks(mem, list, m2);
    SmallerApart(list, blk, SplitBlk(blk, p, q));
  }

  lemma SameLinks(mem: Memory, list: seq<nat>, mem': Memory)
    requires Linked(mem, list) && forall a | a in list && a in mem :: a in mem' && mem'[a].ptr == mem[a].ptr
    ensures Linked(mem', list)
  {
    forall i | 0 <= i < |list| ensures list[i] in mem' && LinkAt(mem', list, i) {
      assert LinkAt(mem, list, i);
    }
  }

  lemma SmallerApart(list: seq<nat>, blk: map<nat, nat>, blk': map<nat, nat>)
    requires Apart(list, blk) && forall a | a in list && a in blk :: a in blk' && blk'[a] <= blk[a]
    ensures Apart(list, blk')
  {
    forall i | 1 <= i < |list| - 1 ensures list[i] in blk' && ApartAt(list, blk', i) {
      assert ApartAt(list, blk, i);
    }
  }

  lemma TailNotFree(base: nat, mem: Memory, list: seq<nat>, blk: map<nat, nat>, who: map<nat, nat>, k: nat, q: nat)
    requires HeapOk(base, mem, list, blk, who) && k + 1 < |list| && q !in blk && list[k + 1] < q
    ensures q !in list && q != base && base in mem && base < list[k + 1]
  {
    hide Tiled;
  }

  lemma NotABlock(base: nat, mem: Memory, list: seq<nat>, blk: map<nat, nat>, who: map<nat, nat>, k: nat, q: nat)
    requires HeapOk(base, mem, list, blk, who) && k + 1 < |list| && list[k + 1] in blk
             && list[k + 1] < q < list[k + 1] + blk[list[k + 1]]
    ensures q !in blk && q !in list
  {
    hide Tiled;
    Split(who, blk, list[k + 1], q);
    TailNotFree(base, mem, list, blk, who, k, q);
  }

  lemma TakenTail(list: seq<nat>, blk: map<nat, nat>, p: nat, q: nat)
    requires p in blk && p in list && p < q < p + blk[p] && q !in blk && q !in list
    ensures q !in Allocated(list, blk)
            && Allocated(list, SplitBlk(blk, p, q)) == Allocated(list, blk)[q := p + blk[p] - q]
  {
  }

  /** Element c of the rotation is the first that fits; a is the start of its last k units. */
  ghost predicate FitAt(list: seq<nat>, blk: map<nat, nat>, freep: nat, k: nat, c: nat, a: nat, prevp: nat)
    requires freep in list
  {
    var r := Rotation(list, freep);
    && c < |list| && (forall i | 0 <= i < c :: SizeOf(blk, r[i]) < k)
    && r[c] in blk && k <= blk[r[c]] && a == r[c] + (blk[r[c]] - k)
    && prevp == if c == 0 then freep else r[c - 1]
  }

  /**
   The block at a is cut from the end of the first one that fits on the way
   round from freep, and the next search starts where this one stopped.
   */
  ghost predicate NextFit(list: seq<nat>, blk: map<nat, nat>, freep: nat, k: nat, a: nat, freep': nat) {
    freep in list && exists c: nat :: FitAt(list, blk, freep, k, c, a, freep')
  }

  lemma Found(base: nat, mem: Memory, list: seq<nat>, blk: map<nat, nat>, who: map<nat, nat>, freep: nat, k: nat,
              prevp: nat, p: nat, c: nat)
    requires HeapOk(base, mem, list, blk, who) && Walking(list, freep, prevp, p, c) && p in mem && 0 < k <= mem[p].size
    requires forall i | 0 <= i < c :: SizeOf(blk, Rotation(list, freep)[i]) < k
    ensures p in blk && mem[p].size == blk[p] && NextFit(list, blk, freep, k, p + (blk[p] - k), prevp)
    ensures !NoFit(list, blk, k)
  {
    hide Linked, Tiled;
    var f := RotationIndex(list, freep);
    var i :| 0 <= i < |list| && list[i] == p;
    assert FitAt(list, blk, freep, k, c, p + (blk[p] - k), prevp);
  }

  ghost predicate NoFit(list: seq<nat>, blk: map<nat, nat>, n: nat) {
    forall a | a in list && a in blk :: blk[a] < n
  }

  lemma RotationIndex(list: seq<nat>, freep: nat) returns (f: nat)
    requires freep in list && Sorted(list)
    ensures f < |list| && list[f] == freep && Rotation(list, freep) == list[f + 1..] + list[..f + 1]
  {
    f :| 0 <= f < |list| && list[f] == freep;
    assert forall i | 0 <= i < |list| && list[i] == freep :: i == f;
  }

  /** The place in the list of element c of the rotation that starts after place f. */
  function Turn(f: nat, c: nat, n: nat): nat
    requires f < n && c < n
  {
    if f + 1 + c < n then f + 1 + c else f + 1 + c - n
  }

  /** The rotation ends at freep, has every element of the list, and follows the links. */
  lemma RotationFacts(base: nat, mem: Memory, list: seq<nat>, blk: map<nat, nat>, who: map<nat, nat>, freep: nat)
    requires HeapOk(base, mem, list, blk, who) && freep in list
    ensures var r := Rotation(list, freep);
            && freep in mem && mem[freep].ptr == r[0] && r[|r| - 1] == freep
            && (forall c | 0 <= c < |r| :: r[c] in mem && mem[r[c]].size == SizeOf(blk, r[c]))
            && (forall c | 0 <= c < |r| - 1 :: r[c] != freep && mem[r[c]].ptr == r[c + 1])
            && (forall a | a in list :: a in r)
  {
    hide HeapOk, Rotation, Sorted;
    ListFacts(base, mem, list, blk, who, base);
    var f := RotationIndex(list, freep);
    var r, n := Rotation(list, freep), |list|;
    assert r == list[f + 1..] + list[..f + 1];
    forall c | 0 <= c < n ensures r[c] == list[Turn(f, c, n)] && r[c] in mem && mem[r[c]].size == SizeOf(blk, r[c]) {
      ListSize(base, mem, list, blk, who, Turn(f, c, n));
    }
    forall c | 0 <= c < n - 1 ensures r[c] != freep && mem[r[c]].ptr == r[c + 1] {
      assert r[c] == list[Turn(f, c, n)] && r[c + 1] == list[Turn(f, c + 1, n)];
      TurnStep(mem, list, f, c);
    }
    assert r[n - 1] == list[Turn(f, n - 1, n)] && r[0] == list[Turn(f, 0, n)];
    assert LinkAt(mem, list, f);
    assert list == list[..f + 1] + list[f + 1..];
  }

  lemma TurnStep(mem: Memory, list: seq<nat>, f: nat, c: nat)
    requires Linked(mem, list) && Sorted(list) && f < |list| && c < |list| - 1
    ensures var k := Turn(f, c, |list|);
            list[k] in mem && list[k] != list[f] && mem[list[k]].ptr == list[Turn(f, c + 1, |list|)]
  {
    assert LinkAt(mem, list, Turn(f, c, |list|));
  }

  lemma ListSize(base: nat, mem: Memory, list: seq<nat>, blk: map<nat, nat>, who: map<nat, nat>, i: nat)
    requires HeapOk(base, mem, list, blk, who) && i < |list|
    ensures list[i] in mem && mem[list[i]].size == SizeOf(blk, list[i])
  {
  }

  /** What malloc has found is an element of the list after the one before it. */
  lemma WalkingIndex(base: nat, mem: Memory, list: seq<nat>, blk: map<nat, nat>, who: map<nat, nat>, freep: nat,
                     prevp: nat, p: nat, c: nat) returns (k: nat)
    requires HeapOk(base, mem, list, blk, who) && Walking(list, freep, prevp, p, c) && p in blk
    ensures Sorted(list) && (0 < base ==> 0 < prevp)
    ensures k + 1 < |list| && list[k] == prevp && list[k + 1] == p && prevp in mem && p in mem && mem[prevp].ptr == p
            && mem[p].ptr == After(list, k + 2)
    ensures mem[p].size == blk[p]
  {
    hide HeapOk, Rotation, Sorted;
    ListFacts(base, mem, list, blk, who, base);
    BaseFacts(base, mem, list, blk, who);
    var f := RotationIndex(list, freep);
    var n := |list|;
    var r := list[f + 1..] + list[..f + 1];
    assert r[c] == list[Turn(f, c, n)] && (0 < c ==> r[c - 1] == list[Turn(f, c - 1, n)]);
    k := if c == 0 then f else Turn(f, c - 1, n);
    assert p == After(list, k + 1);
    assert LinkAt(mem, list, k) && LinkAt(mem, list, k + 1);
    ListSize(base, mem, list, blk, who, k);
    ListSize(base, mem, list, blk, who, k + 1);
    Positive(base, mem, list, blk, who, k);
  }

  lemma Positive(base: nat, mem: Memory, list: seq<nat>, blk: map<nat, nat>, who: map<nat, nat>, k: nat)
    requires HeapOk(base, mem, list, blk, who) && k < |list|
    ensures base <= list[k]
  {
    hide Tiled;
  }

  /** The list in the order malloc looks at it: from the element after freep to freep. */
  ghost function Rotation(list: seq<nat>, freep: nat): (r: seq<nat>)
    requires freep in list
    ensures |r| == |list|
  {
    var f :| 0 <= f < |list| && list[f] == freep;
    list[f + 1..] + list[..f + 1]
  }

  lemma LinkedAt(mem: Memory, list: seq<nat>, k: nat)
    requires Linked(mem, list) && k < |list|
    ensures list[k] in mem && mem[list[k]].ptr == After(list, k + 1)
  {
    assert LinkAt(mem, list, k);
  }

  lemma InBlocks(list: seq<nat>, blk: map<nat, nat>, bp: nat)
    requires bp in Allocated(list, blk)
    ensures bp in blk && bp !in list && blk != map[]
  {
  }

  lemma PlaceIn(list: seq<nat>, t: nat, bp: nat)
    requires Fits(list, t, bp)
    ensures t < |list|
  {
  }

  lemma ListFacts(base: nat, mem: Memory, list: seq<nat>, blk: map<nat, nat>, who: map<nat, nat>, bp: nat)
    requires HeapOk(base, mem, list, blk, who)
    ensures 0 < |list| && list[0] == base && Sorted(list) && Linked(mem, list) && (bp in blk ==> base < bp)
  {
  }

  lemma FirstKept(list: seq<nat>, k: nat, bp: nat, up: bool, low: bool)
    requires k < |list| && (up ==> k + 1 < |list|)
    ensures list[k] in FreeList(list, k, bp, up, low)
  {
    assert FreeList(list, k, bp, up, low)[k] == list[k];
  }
}
