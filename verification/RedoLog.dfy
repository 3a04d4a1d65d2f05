/**
 The on-disk redo log of kernel/log.c, over a disk whose block writes are atomic.

 A block is BSIZE bytes seen as `words` integers, which is how write_head and
 read_head overlay struct logheader on the header block: word 0 is `n`, word
 1+i is `block[i]`.  commit() and recover_from_log() are given as the sequence
 of block writes they issue, so that a crash is a prefix of that sequence.

 The abstraction function is `Meaning`: the home blocks as recovery would leave
 them.  Every write of commit() and of recovery keeps it, except the first
 write_head of commit().
 */
module RedoLog {

  type Block = seq<int>

  type Disk = map<nat, Block>

  datatype Write = Write(addr: nat, data: Block)

  /** log.start, log.size (the superblock's nlog), LOGSIZE, and BSIZE / sizeof(int). */
  datatype Config = Config(start: nat, size: nat, logsize: nat, words: nat)

  /** initlog refuses a log header that does not fit strictly inside a block. */
  predicate ValidConfig(c: Config) {
    c.logsize + 1 < c.words && 0 < c.size
  }

  predicate InLog(c: Config, a: nat) {
    c.start <= a < c.start + c.size
  }

  // ---------- Sequences of writes ----------

  function Apply(d: Disk, ws: seq<Write>): Disk {
    if ws == [] then d
    else var last := ws[|ws| - 1]; Apply(d, ws[..|ws| - 1])[last.addr := last.data]
  }

  lemma {:induction false} ApplyConcat(d: Disk, a: seq<Write>, b: seq<Write>)
    ensures Apply(d, a + b) == Apply(Apply(d, a), b)
    decreases |b|
  {
    if b == [] {
      assert a + b == a;
    } else {
      assert (a + b)[..|a + b| - 1] == a + b[..|b| - 1];
      ApplyConcat(d, a, b[..|b| - 1]);
    }
  }

  lemma ApplySnoc(d: Disk, ws: seq<Write>, k: nat)
    requires k < |ws|
    ensures Apply(d, ws[..k + 1]) == Apply(d, ws[..k])[ws[k].addr := ws[k].data]
  {
    assert ws[..k + 1][..k] == ws[..k];
  }

  // ---------- The header block ----------

  ghost predicate Formatted(c: Config, d: Disk) {
    && (forall a: nat | InLog(c, a) :: a in d)
    && (forall a | a in d :: |d[a]| == c.words)
  }

  /** The header block after write_head with in-memory list `blocks`: stale entries stay. */
  function HeadWith(stale: Block, blocks: seq<nat>): (b: Block)
    requires |blocks| < |stale|
    ensures |b| == |stale| && b[0] == |blocks|
    ensures forall j :: 1 <= j <= |blocks| ==> b[j] == blocks[j - 1]
  {
    [|blocks|] + seq(|blocks|, i requires 0 <= i < |blocks| => blocks[i]) + stale[1 + |blocks|..]
  }

  /** The header lists at most LOGSIZE home blocks, and the log has a slot for each. */
  ghost predicate HeaderOk(c: Config, d: Disk) {
    && ValidConfig(c)
    && Formatted(c, d)
    && 0 <= d[c.start][0] <= c.logsize
    && d[c.start][0] < c.size
    && forall j :: 1 <= j <= d[c.start][0] ==> IsHome(c, d, d[c.start][j])
  }

  predicate IsHome(c: Config, d: Disk, a: int) {
    0 <= a && a in d && !InLog(c, a)
  }

  function HeadN(c: Config, d: Disk): nat
    requires HeaderOk(c, d)
  {
    d[c.start][0]
  }

  function HeadBlock(c: Config, d: Disk, i: nat): nat
    requires HeaderOk(c, d) && i < HeadN(c, d)
  {
    d[c.start][1 + i]
  }

  // ---------- What the disk means ----------

  function Home(c: Config, d: Disk): Disk {
    map a | a in d && !InLog(c, a) :: d[a]
  }

  /** The first k logged blocks, as home-block contents. */
  function Logged(c: Config, d: Disk, k: nat): Disk
    requires HeaderOk(c, d) && k <= HeadN(c, d)
  {
    if k == 0 then map[]
    else Logged(c, d, k - 1)[HeadBlock(c, d, k - 1) := d[c.start + k]]
  }

  /** The home blocks as recovery leaves them. */
  function Meaning(c: Config, d: Disk): Disk
    requires HeaderOk(c, d)
  {
    Home(c, d) + Logged(c, d, HeadN(c, d))
  }

  /** n zeroed blocks, as mkfs begins. */
  function Zeroed(words: nat, n: nat): (d: Disk)
    ensures forall a: nat :: a in d <==> a < n
    ensures forall a | a in d :: |d[a]| == words && forall i | 0 <= i < words :: d[a][i] == 0
  {
    if n == 0 then map[] else Zeroed(words, n - 1)[n - 1 := seq(words, i => 0)]
  }

  /** A zeroed log is in order whatever the configuration, and the disk means its home blocks. */
  lemma FreshLog(c: Config, n: nat)
    requires ValidConfig(c) && c.start + c.size <= n
    ensures var d := Zeroed(c.words, n); HeaderOk(c, d) && HeadN(c, d) == 0 && Meaning(c, d) == Home(c, d)
  {
    hide Zeroed;
    var d := Zeroed(c.words, n);
    assert InLog(c, c.start) && d[c.start][0] == 0;
    assert Home(c, d) + map[] == Home(c, d);
  }

  /** Logged depends on the log area only, and names only home blocks. */
  lemma {:induction false} LoggedFrame(c: Config, d: Disk, e: Disk, k: nat)
    requires HeaderOk(c, d) && HeaderOk(c, e)
    requires forall a: nat | InLog(c, a) :: d[a] == e[a]
    requires k <= HeadN(c, d)
    ensures Logged(c, d, k) == Logged(c, e, k)
  {
    if k > 0 {
      LoggedFrame(c, d, e, k - 1);
      assert InLog(c, c.start) && InLog(c, c.start + k);
    }
  }

  lemma {:induction false} LoggedKeys(c: Config, d: Disk, k: nat)
    requires HeaderOk(c, d) && k <= HeadN(c, d)
    ensures forall a | a in Logged(c, d, k) :: IsHome(c, d, a) && |Logged(c, d, k)[a]| == c.words
  {
    if k > 0 {
      LoggedKeys(c, d, k - 1);
      assert InLog(c, c.start + k);
      assert IsHome(c, d, d[c.start][k]);
    }
  }

  lemma {:induction false} LoggedGrows(c: Config, d: Disk, k: nat, n: nat)
    requires HeaderOk(c, d) && k <= n <= HeadN(c, d)
    ensures Logged(c, d, k).Keys <= Logged(c, d, n).Keys
  {
    if k < n {
      LoggedGrows(c, d, k, n - 1);
    }
  }

  // ---------- install_trans ----------

  /** install_trans: copy log block i to its home location, for i from 0. */
  function InstallWrites(c: Config, d: Disk): (ws: seq<Write>)
    requires HeaderOk(c, d)
    ensures |ws| == HeadN(c, d)
  {
    seq(HeadN(c, d), i requires 0 <= i < HeadN(c, d) =>
      assert InLog(c, c.start + 1 + i); Write(HeadBlock(c, d, i), d[c.start + 1 + i]))
  }

  lemma InstallAt(c: Config, d: Disk, k: nat)
    requires HeaderOk(c, d) && k < HeadN(c, d)
    ensures c.start + k + 1 in d && InLog(c, c.start + k + 1)
    ensures InstallWrites(c, d)[k] == Write(HeadBlock(c, d, k), d[c.start + k + 1])
  {
    assert InLog(c, c.start + k + 1);
  }

  lemma {:induction false} InstallCut(c: Config, d: Disk, k: nat)
    requires HeaderOk(c, d) && k <= HeadN(c, d)
    ensures Apply(d, InstallWrites(c, d)[..k]) == d + Logged(c, d, k)
  {
    hide HeaderOk, InstallWrites, HeadBlock, HeadN, Apply, Logged;
    LoggedStep(c, d, k);
    if k > 0 {
      InstallAt(c, d, k - 1);
      InstallCut(c, d, k - 1);
      ApplySnoc(d, InstallWrites(c, d), k - 1);
      MergeUpdate(d, Logged(c, d, k - 1), HeadBlock(c, d, k - 1), d[c.start + k]);
    } else {
      NothingApplied(d, InstallWrites(c, d)[..0]);
      assert d + map[] == d;
    }
  }

  lemma LoggedStep(c: Config, d: Disk, k: nat)
    requires HeaderOk(c, d) && k <= HeadN(c, d)
    ensures k == 0 ==> Logged(c, d, k) == map[]
    ensures k > 0 ==>
            c.start + k in d && Logged(c, d, k) == Logged(c, d, k - 1)[HeadBlock(c, d, k - 1) := d[c.start + k]]
  {
    assert k > 0 ==> InLog(c, c.start + k);
  }

  lemma NothingApplied(d: Disk, ws: seq<Write>)
    requires ws == []
    ensures Apply(d, ws) == d
  {
  }

  lemma MergeUpdate(home: Disk, cache: Disk, b: nat, data: Block)
    ensures home + cache[b := data] == (home + cache)[b := data]
  {
  }

  lemma MergeAbsorbs(home: Disk, part: Disk, all: Disk)
    requires part.Keys <= all.Keys
    ensures (home + part) + all == home + all
  {
  }

  lemma InstalledHeaderOk(c: Config, d: Disk, k: nat)
    requires HeaderOk(c, d) && k <= HeadN(c, d)
    ensures HeaderOk(c, d + Logged(c, d, k))
    ensures forall a: nat | InLog(c, a) :: (d + Logged(c, d, k))[a] == d[a]
    ensures Home(c, d + Logged(c, d, k)) == Home(c, d) + Logged(c, d, k)
  {
    LoggedKeys(c, d, k);
    assert InLog(c, c.start);
    var e := d + Logged(c, d, k);
    assert e.Keys == d.Keys;
    forall j | 1 <= j <= e[c.start][0] ensures IsHome(c, e, e[c.start][j]) {
      assert IsHome(c, d, d[c.start][j]);
    }
  }

  /** A disk with some of the logged blocks already installed means the same. */
  lemma InstalledMeansSame(c: Config, d: Disk, k: nat)
    requires HeaderOk(c, d) && k <= HeadN(c, d)
    ensures HeaderOk(c, d + Logged(c, d, k))
    ensures Meaning(c, d + Logged(c, d, k)) == Meaning(c, d)
  {
    InstalledHeaderOk(c, d, k);
    var n := HeadN(c, d);
    assert InLog(c, c.start);
    LoggedFrame(c, d, d + Logged(c, d, k), n);
    LoggedGrows(c, d, k, n);
    MergeAbsorbs(Home(c, d), Logged(c, d, k), Logged(c, d, n));
  }

  /** Erasing the header of a fully installed log keeps the meaning and makes it the home blocks. */
  lemma ClearedMeansSame(c: Config, d: Disk, stale: Block)
    requires HeaderOk(c, d)
    requires |stale| == c.words
    ensures var e := (d + Logged(c, d, HeadN(c, d)))[c.start := HeadWith(stale, [])];
            HeaderOk(c, e) && HeadN(c, e) == 0
            && Meaning(c, e) == Meaning(c, d) && Home(c, e) == Meaning(c, d)
  {
    LoggedKeys(c, d, HeadN(c, d));
    assert InLog(c, c.start);
    var e := (d + Logged(c, d, HeadN(c, d)))[c.start := HeadWith(stale, [])];
    assert Home(c, e) == Meaning(c, d);
  }

  // ---------- recover_from_log ----------

  function RecoverWrites(c: Config, d: Disk): (ws: seq<Write>)
    requires HeaderOk(c, d)
    ensures |ws| == HeadN(c, d) + 1
  {
    assert InLog(c, c.start);
    InstallWrites(c, d) + [Write(c.start, HeadWith(d[c.start], []))]
  }

  function Recover(c: Config, d: Disk): Disk
    requires HeaderOk(c, d)
  {
    Apply(d, RecoverWrites(c, d))
  }

  /** Recovery cut after any k of its writes keeps the meaning and can be restarted. */
  lemma RecoveryCut(c: Config, d: Disk, k: nat)
    requires HeaderOk(c, d) && k <= |RecoverWrites(c, d)|
    ensures HeaderOk(c, Apply(d, RecoverWrites(c, d)[..k]))
    ensures Meaning(c, Apply(d, RecoverWrites(c, d)[..k])) == Meaning(c, d)
  {
    var n := HeadN(c, d);
    var ws := RecoverWrites(c, d);
    if k <= n {
      assert ws[..k] == InstallWrites(c, d)[..k];
      InstallCut(c, d, k);
      InstalledMeansSame(c, d, k);
    } else {
      assert ws[..k] == ws;
      RecoverCompletes(c, d);
    }
  }

  /** A completed recovery puts the meaning in the home blocks and leaves an empty log. */
  lemma RecoverCompletes(c: Config, d: Disk)
    requires HeaderOk(c, d)
    ensures var e := Recover(c, d);
            HeaderOk(c, e) && HeadN(c, e) == 0
            && Home(c, e) == Meaning(c, d) && Meaning(c, e) == Meaning(c, d)
  {
    var n := HeadN(c, d);
    var ws := RecoverWrites(c, d);
    assert ws[..n] == InstallWrites(c, d)[..n];
    assert ws[..n + 1] == ws;
    InstallCut(c, d, n);
    ApplySnoc(d, ws, n);
    assert InLog(c, c.start);
    ClearedMeansSame(c, d, d[c.start]);
  }

  lemma RecoverIsIdempotent(c: Config, d: Disk)
    requires HeaderOk(c, d)
    ensures HeaderOk(c, Recover(c, d))
    ensures Recover(c, Recover(c, d)) == Recover(c, d)
  {
    RecoverCompletes(c, d);
    var e := Recover(c, d);
    var n := HeadN(c, d);
    assert RecoverWrites(c, d)[..n] == InstallWrites(c, d);
    assert InLog(c, c.start);
    assert e[c.start] == HeadWith(d[c.start], []);
    assert HeadWith(e[c.start], []) == e[c.start];
    var ws := RecoverWrites(c, e);
    assert ws == [Write(c.start, e[c.start])];
    ApplySnoc(e, ws, 0);
    assert ws[..1] == ws && ws[..0] == [];
    assert e[c.start := e[c.start]] == e;
  }

  // ---------- commit ----------

  /** A transaction: the in-memory log header, and the cached contents of home blocks. */
  ghost predicate TransactionOk(c: Config, d: Disk, blocks: seq<nat>, cache: Disk) {
    && HeaderOk(c, d)
    && HeadN(c, d) == 0
    && |blocks| <= c.logsize
    && |blocks| < c.size
    && (forall b | b in blocks :: IsHome(c, d, b) && b in cache && |cache[b]| == c.words)
  }

  /** The updates the transaction makes to the home blocks. */
  function Updates(blocks: seq<nat>, cache: Disk): Disk {
    map b | b in blocks && b in cache :: cache[b]
  }

  function LogWrites(c: Config, blocks: seq<nat>, cache: Disk): (ws: seq<Write>)
    requires forall b | b in blocks :: b in cache
    ensures |ws| == |blocks|
  {
    seq(|blocks|, i requires 0 <= i < |blocks| => Write(c.start + 1 + i, cache[blocks[i]]))
  }

  /** What the disk holds once write_log and the first write_head are done. */
  function CommitPoint(c: Config, d: Disk, blocks: seq<nat>, cache: Disk): Disk
    requires TransactionOk(c, d, blocks, cache)
  {
    assert InLog(c, c.start);
    Apply(d, LogWrites(c, blocks, cache))[c.start := HeadWith(d[c.start], blocks)]
  }

  /** commit(): write_log, write_head, install_trans, write_head with n == 0. */
  function CommitWrites(c: Config, d: Disk, blocks: seq<nat>, cache: Disk): seq<Write>
    requires TransactionOk(c, d, blocks, cache)
  {
    if blocks == [] then []
    else
      CommitPointMeansNew(c, d, blocks, cache);
      assert InLog(c, c.start);
      LogWrites(c, blocks, cache)
      + [Write(c.start, HeadWith(d[c.start], blocks))]
      + RecoverWrites(c, CommitPoint(c, d, blocks, cache))
  }

  /** The first k log blocks as write_log fills them. */
  function LogArea(c: Config, blocks: seq<nat>, cache: Disk, k: nat): Disk
    requires k <= |blocks|
    requires forall b | b in blocks :: b in cache
  {
    if k == 0 then map[] else LogArea(c, blocks, cache, k - 1)[c.start + k := cache[blocks[k - 1]]]
  }

  lemma {:induction false} LogAreaAt(c: Config, blocks: seq<nat>, cache: Disk, k: nat)
    requires k <= |blocks|
    requires forall b | b in blocks :: b in cache
    ensures forall a: nat :: a in LogArea(c, blocks, cache, k) <==> c.start < a <= c.start + k
    ensures forall a: nat :: c.start < a <= c.start + k ==>
              a in LogArea(c, blocks, cache, k) && LogArea(c, blocks, cache, k)[a] == cache[blocks[a - c.start - 1]]
  {
    if k > 0 {
      LogAreaAt(c, blocks, cache, k - 1);
    }
  }

  lemma {:induction false} LogWritesApply(c: Config, d: Disk, blocks: seq<nat>, cache: Disk, k: nat)
    requires forall b | b in blocks :: b in cache
    requires k <= |blocks|
    ensures Apply(d, LogWrites(c, blocks, cache)[..k]) == d + LogArea(c, blocks, cache, k)
  {
    hide Apply;
    if k > 0 {
      LogWritesApply(c, d, blocks, cache, k - 1);
      ApplySnoc(d, LogWrites(c, blocks, cache), k - 1);
      MergeUpdate(d, LogArea(c, blocks, cache, k - 1), c.start + k, cache[blocks[k - 1]]);
    } else {
      NothingApplied(d, LogWrites(c, blocks, cache)[..0]);
      assert d + map[] == d;
    }
  }

  /** write_log cut after k writes touches log blocks only. */
  lemma LogWritesCut(c: Config, d: Disk, blocks: seq<nat>, cache: Disk, k: nat)
    requires TransactionOk(c, d, blocks, cache) && k <= |blocks|
    ensures var e := Apply(d, LogWrites(c, blocks, cache)[..k]);
            && HeaderOk(c, e) && e.Keys == d.Keys && HeadN(c, e) == 0
            && Home(c, e) == Home(c, d) && Meaning(c, e) == Home(c, d) && e[c.start] == d[c.start]
            && forall a: nat :: c.start < a <= c.start + k ==> a in e && e[a] == cache[blocks[a - c.start - 1]]
  {
    hide Apply, LogWrites, LogArea;
    LogWritesApply(c, d, blocks, cache, k);
    LogAreaAt(c, blocks, cache, k);
    LogAreaInLog(c, d, blocks, cache, k);
    LogAreaMerged(c, d, LogArea(c, blocks, cache, k));
  }

  lemma LogAreaInLog(c: Config, d: Disk, blocks: seq<nat>, cache: Disk, k: nat)
    requires TransactionOk(c, d, blocks, cache) && k <= |blocks|
    ensures forall a | a in LogArea(c, blocks, cache, k) ::
              InLog(c, a) && a != c.start && |LogArea(c, blocks, cache, k)[a]| == c.words
  {
    LogAreaAt(c, blocks, cache, k);
    hide HeaderOk, LogArea;
    forall a | a in LogArea(c, blocks, cache, k)
      ensures InLog(c, a) && a != c.start && |LogArea(c, blocks, cache, k)[a]| == c.words
    {
      assert blocks[a - c.start - 1] in blocks;
    }
  }

  /** Overwriting log blocks behind an empty header changes nothing that counts. */
  lemma LogAreaMerged(c: Config, d: Disk, area: Disk)
    requires HeaderOk(c, d) && HeadN(c, d) == 0
    requires forall a | a in area :: InLog(c, a) && a != c.start && |area[a]| == c.words
    ensures HeaderOk(c, d + area) && (d + area).Keys == d.Keys && HeadN(c, d + area) == 0
    ensures (d + area)[c.start] == d[c.start]
    ensures Home(c, d + area) == Home(c, d) == Meaning(c, d + area)
  {
    assert InLog(c, c.start);
  }

  lemma {:induction false} LoggedIsUpdates(c: Config, e: Disk, blocks: seq<nat>, cache: Disk, k: nat)
    requires HeaderOk(c, e) && HeadN(c, e) == |blocks| && k <= |blocks|
    requires forall i :: 0 <= i < |blocks| ==> blocks[i] in cache && HeadBlock(c, e, i) == blocks[i]
    requires forall a :: c.start < a <= c.start + |blocks| ==> a in e && e[a] == cache[blocks[a - c.start - 1]]
    ensures Logged(c, e, k) == Updates(blocks[..k], cache)
  {
    if k > 0 {
      LoggedIsUpdates(c, e, blocks, cache, k - 1);
      assert HeadBlock(c, e, k - 1) == blocks[k - 1];
      assert e[c.start + k] == cache[blocks[k - 1]];
      hide HeaderOk, HeadBlock;
      UpdatesSnoc(blocks, cache, k);
    }
  }

  lemma UpdatesSnoc(blocks: seq<nat>, cache: Disk, k: nat)
    requires 0 < k <= |blocks| && blocks[k - 1] in cache
    ensures Updates(blocks[..k], cache) == Updates(blocks[..k - 1], cache)[blocks[k - 1] := cache[blocks[k - 1]]]
  {
    assert blocks[..k] == blocks[..k - 1] + [blocks[k - 1]];
  }

  /** The first write_head moves the meaning from the old home blocks to the updated ones. */
  lemma CommitPointMeansNew(c: Config, d: Disk, blocks: seq<nat>, cache: Disk)
    requires TransactionOk(c, d, blocks, cache)
    ensures var e := CommitPoint(c, d, blocks, cache);
            HeaderOk(c, e) && HeadN(c, e) == |blocks|
            && Meaning(c, e) == Home(c, d) + Updates(blocks, cache)
  {
    hide HeaderOk, Apply, LogWrites, Logged, Home, HeadWith;
    var ws := LogWrites(c, blocks, cache);
    assert ws[..|blocks|] == ws;
    LogWritesCut(c, d, blocks, cache, |blocks|);
    HeaderPresent(c, d);
    HeaderPresent(c, Apply(d, ws));
    HeadWritten(c, Apply(d, ws), CommitPoint(c, d, blocks, cache), blocks);
    LoggedWhenListed(c, d, CommitPoint(c, d, blocks, cache), blocks, cache);
  }

  lemma HeaderPresent(c: Config, d: Disk)
    requires HeaderOk(c, d)
    ensures c.start in d && InLog(c, c.start) && |d[c.start]| == c.words && c.logsize + 1 < c.words
  {
    assert InLog(c, c.start);
  }

  /** Writing a list of home blocks into the header keeps the disk well formed. */
  lemma HeadWritten(c: Config, e0: Disk, e: Disk, blocks: seq<nat>)
    requires HeaderOk(c, e0) && |blocks| <= c.logsize && |blocks| < c.size
    requires forall b | b in blocks :: IsHome(c, e0, b)
    requires c.start in e0 && |blocks| < |e0[c.start]|
    requires e == e0[c.start := HeadWith(e0[c.start], blocks)]
    ensures HeaderOk(c, e) && HeadN(c, e) == |blocks|
    ensures Home(c, e) == Home(c, e0)
  {
    assert InLog(c, c.start);
    forall j | 1 <= j <= |blocks|
      ensures IsHome(c, e, e[c.start][j])
    {
      assert blocks[j - 1] in blocks;
    }
  }

  lemma LoggedWhenListed(c: Config, d: Disk, e: Disk, blocks: seq<nat>, cache: Disk)
    requires HeaderOk(c, e) && c.start in d && |blocks| < |d[c.start]|
    requires e[c.start] == HeadWith(d[c.start], blocks)
    requires forall b | b in blocks :: b in cache
    requires forall a :: c.start < a <= c.start + |blocks| ==> a in e && e[a] == cache[blocks[a - c.start - 1]]
    ensures Logged(c, e, |blocks|) == Updates(blocks, cache)
  {
    forall i | 0 <= i < |blocks| ensures blocks[i] in cache && HeadBlock(c, e, i) == blocks[i] {
      assert blocks[i] in blocks;
    }
    LoggedIsUpdates(c, e, blocks, cache, |blocks|);
    assert blocks[..|blocks|] == blocks;
  }

  /** Did the first write_head of commit() reach the disk? */
  predicate Committed(blocks: seq<nat>, k: nat) {
    blocks != [] && |blocks| < k
  }

  /** commit() cut after any k writes: the disk means the old or the new home blocks. */
  lemma CommitCut(c: Config, d: Disk, blocks: seq<nat>, cache: Disk, k: nat)
    requires TransactionOk(c, d, blocks, cache)
    requires k <= |CommitWrites(c, d, blocks, cache)|
    ensures var e := Apply(d, CommitWrites(c, d, blocks, cache)[..k]);
            HeaderOk(c, e)
            && Meaning(c, e) == if Committed(blocks, k) then Home(c, d) + Updates(blocks, cache) else Home(c, d)
  {
    hide HeaderOk, Apply, LogWrites, CommitWrites, Home, Logged, Meaning, RecoverWrites, CommitPoint, TransactionOk;
    if k <= |blocks| {
      CutBeforeCommitPoint(c, d, blocks, cache, k);
      LogWritesCut(c, d, blocks, cache, k);
    } else {
      CutAfterCommitPoint(c, d, blocks, cache, k);
      CommitPointMeansNew(c, d, blocks, cache);
      RecoveryCut(c, CommitPoint(c, d, blocks, cache), k - |blocks| - 1);
    }
  }

  lemma CutBeforeCommitPoint(c: Config, d: Disk, blocks: seq<nat>, cache: Disk, k: nat)
    requires TransactionOk(c, d, blocks, cache) && k <= |blocks|
    requires k <= |CommitWrites(c, d, blocks, cache)|
    ensures CommitWrites(c, d, blocks, cache)[..k] == LogWrites(c, blocks, cache)[..k]
  {
    hide HeaderOk, Apply, LogWrites, RecoverWrites;
  }

  /** Once the first write_head is done, commit() does what recovery would do. */
  lemma CutAfterCommitPoint(c: Config, d: Disk, blocks: seq<nat>, cache: Disk, k: nat)
    requires TransactionOk(c, d, blocks, cache)
    requires |blocks| < k <= |CommitWrites(c, d, blocks, cache)|
    ensures blocks != []
    ensures var point := CommitPoint(c, d, blocks, cache);
            HeaderOk(c, point) && k - |blocks| - 1 <= |RecoverWrites(c, point)|
            && Apply(d, CommitWrites(c, d, blocks, cache)[..k])
               == Apply(point, RecoverWrites(c, point)[..k - |blocks| - 1])
  {
    hide HeaderOk, TransactionOk, RecoverWrites, LogWrites, HeadN, HeadWith, Apply;
    HeaderPresentIn(c, d, blocks, cache);
    CommitPointMeansNew(c, d, blocks, cache);
    var logs := LogWrites(c, blocks, cache);
    var head := Write(c.start, HeadWith(d[c.start], blocks));
    var rec := RecoverWrites(c, CommitPoint(c, d, blocks, cache));
    var m := k - |blocks| - 1;
    assert CommitWrites(c, d, blocks, cache)[..k] == (logs + [head]) + rec[..m];
    ApplyConcat(d, logs + [head], rec[..m]);
    ApplyLast(d, logs, head);
  }

  lemma HeaderPresentIn(c: Config, d: Disk, blocks: seq<nat>, cache: Disk)
    requires TransactionOk(c, d, blocks, cache)
    ensures c.start in d && |blocks| < |d[c.start]|
    ensures forall b | b in blocks :: b in cache
  {
    HeaderPresent(c, d);
  }

  lemma ApplyLast(d: Disk, ws: seq<Write>, w: Write)
    ensures Apply(d, ws + [w]) == Apply(d, ws)[w.addr := w.data]
  {
    assert (ws + [w])[..|ws|] == ws;
  }

  /** A commit that runs to its end: the home blocks are the updated ones and the log is empty. */
  lemma CommitCompletes(c: Config, d: Disk, blocks: seq<nat>, cache: Disk)
    requires TransactionOk(c, d, blocks, cache)
    ensures var e := Apply(d, CommitWrites(c, d, blocks, cache));
            HeaderOk(c, e) && HeadN(c, e) == 0
            && Home(c, e) == Home(c, d) + Updates(blocks, cache)
  {
    if blocks == [] {
      assert Updates(blocks, cache) == map[];
    } else {
      CommitPointMeansNew(c, d, blocks, cache);
      assert InLog(c, c.start);
      var logs := LogWrites(c, blocks, cache);
      var head := Write(c.start, HeadWith(d[c.start], blocks));
      var point := CommitPoint(c, d, blocks, cache);
      ApplyConcat(d, logs + [head], RecoverWrites(c, point));
      assert (logs + [head])[..|logs|] == logs;
      RecoverCompletes(c, point);
    }
  }

  // ---------- Crash atomicity ----------

  /** Restart after a crash: each recovery attempt i is itself cut after cuts[i] writes. */
  function CutRecoveries(c: Config, d: Disk, cuts: seq<nat>): Disk
    requires HeaderOk(c, d)
    decreases |cuts|
  {
    if cuts == [] then d
    else
      var ws := RecoverWrites(c, d);
      var k := if cuts[0] <= |ws| then cuts[0] else |ws|;
      RecoveryCut(c, d, k);
      CutRecoveries(c, Apply(d, ws[..k]), cuts[1..])
  }

  lemma {:induction false} CutRecoveriesKeepMeaning(c: Config, d: Disk, cuts: seq<nat>)
    requires HeaderOk(c, d)
    ensures HeaderOk(c, CutRecoveries(c, d, cuts))
    ensures Meaning(c, CutRecoveries(c, d, cuts)) == Meaning(c, d)
    decreases |cuts|
  {
    if cuts != [] {
      var ws := RecoverWrites(c, d);
      var k := if cuts[0] <= |ws| then cuts[0] else |ws|;
      RecoveryCut(c, d, k);
      CutRecoveriesKeepMeaning(c, Apply(d, ws[..k]), cuts[1..]);
    }
  }

  /**
   Cut commit() after any k block writes, let any number of recoveries be cut
   anywhere as well, then let one recovery finish: the home blocks are exactly
   the new ones if the first write_head reached the disk and exactly the old
   ones otherwise, and the log is empty.
   */
  lemma CrashAtomicity(c: Config, d: Disk, blocks: seq<nat>, cache: Disk, k: nat, cuts: seq<nat>)
    requires TransactionOk(c, d, blocks, cache)
    requires k <= |CommitWrites(c, d, blocks, cache)|
    ensures var crashed := Apply(d, CommitWrites(c, d, blocks, cache)[..k]);
            && HeaderOk(c, crashed)
            && var again := CutRecoveries(c, crashed, cuts);
            && HeaderOk(c, again)
            && var final := Recover(c, again);
            && HeaderOk(c, final) && HeadN(c, final) == 0
            && Home(c, final) ==
               if Committed(blocks, k) then Home(c, d) + Updates(blocks, cache) else Home(c, d)
  {
    CommitCut(c, d, blocks, cache, k);
    var crashed := Apply(d, CommitWrites(c, d, blocks, cache)[..k]);
    CutRecoveriesKeepMeaning(c, crashed, cuts);
    RecoverCompletes(c, CutRecoveries(c, crashed, cuts));
  }

  /**
   What commit() writes, in order: the cached blocks into the log, the header that
   lists them, the same blocks to their homes, and an empty header; nothing at all
   for an empty transaction.
   */
  lemma CommitInOrder(c: Config, d: Disk, blocks: seq<nat>, cache: Disk)
    requires TransactionOk(c, d, blocks, cache)
    ensures var ws, n := CommitWrites(c, d, blocks, cache), |blocks|;
            && (n == 0 ==> ws == [])
            && (n != 0 ==>
                  && |ws| == 2 * n + 2
                  && (forall i | 0 <= i < n :: blocks[i] in cache && ws[i] == Write(c.start + 1 + i, cache[blocks[i]]))
                  && ws[n].addr == c.start && n < |ws[n].data| && ws[n].data[0] == n
                  && (forall i | 0 <= i < n :: ws[n].data[i + 1] == blocks[i])
                  && (forall k | n < k <= 2 * n :: ws[k] == Write(blocks[k - n - 1], cache[blocks[k - n - 1]]))
                  && ws[2 * n + 1].addr == c.start && ws[2 * n + 1].data != [] && ws[2 * n + 1].data[0] == 0)
  {
    hide Apply, HeaderOk, CommitPoint, Meaning, Logged, Home;
    var e, n := CommitPoint(c, d, blocks, cache), |blocks|;
    if n != 0 {
      CommitPointMeansNew(c, d, blocks, cache);
      HeaderPresent(c, d);
      HeaderPresent(c, e);
      var ws, rs := CommitWrites(c, d, blocks, cache), RecoverWrites(c, e);
      forall k | n < k <= 2 * n ensures ws[k] == Write(blocks[k - n - 1], cache[blocks[k - n - 1]]) {
        assert ws[k] == rs[k - n - 1];
        InstallsHome(c, d, blocks, cache, k - n - 1);
      }
    }
  }

  lemma InstallsHome(c: Config, d: Disk, blocks: seq<nat>, cache: Disk, i: nat)
    requires TransactionOk(c, d, blocks, cache) && i < |blocks|
    ensures HeaderOk(c, CommitPoint(c, d, blocks, cache)) && HeadN(c, CommitPoint(c, d, blocks, cache)) == |blocks|
    ensures blocks[i] in cache
    ensures InstallWrites(c, CommitPoint(c, d, blocks, cache))[i] == Write(blocks[i], cache[blocks[i]])
  {
    hide Apply, HeaderOk, Meaning, Logged, Home, HeadWith, LogWrites;
    var e, ws := CommitPoint(c, d, blocks, cache), LogWrites(c, blocks, cache);
    CommitPointMeansNew(c, d, blocks, cache);
    HeaderPresent(c, d);
    InstallAt(c, e, i);
    assert ws[..|blocks|] == ws;
    LogWritesCut(c, d, blocks, cache, |blocks|);
    assert e[c.start][i + 1] == blocks[i];
  }
}
