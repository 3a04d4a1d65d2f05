/**
 struct log of kernel/log.c as an object: the in-memory header is updated in
 place and every bwrite reaches the disk at once.  The ghost field `trace`
 records the block writes issued, in order; the methods are proved to issue
 exactly the sequences whose prefixes are the crashes of module RedoLog.
 */
module LogObject {
  import opened RedoLog

  /** log_write's scan over the in-memory header: a block already listed is absorbed. */
  function Absorb(blocks: seq<nat>, b: nat): (r: seq<nat>) {
    if b in blocks then blocks else blocks + [b]
  }

  /** The pinned buffers left once install_trans has unpinned every listed block. */
  function Unpinned(cache: Disk, blocks: seq<nat>): Disk {
    map b | b in cache && b !in blocks :: cache[b]
  }

  lemma UnpinnedNone(cache: Disk)
    ensures Unpinned(cache, []) == cache
  {
  }

  lemma UnpinnedSnoc(cache: Disk, blocks: seq<nat>, k: nat)
    requires k < |blocks|
    ensures Unpinned(cache, blocks[..k + 1]) == Unpinned(cache, blocks[..k]) - {blocks[k]}
  {
    assert blocks[..k + 1] == blocks[..k] + [blocks[k]];
  }

  lemma ApplyNone(d: Disk)
    ensures Apply(d, []) == d
  {
  }

  lemma TraceSnoc(t: seq<Write>, ws: seq<Write>, k: nat)
    requires k < |ws|
    ensures t + ws[..k + 1] == (t + ws[..k]) + [ws[k]]
  {
  }

  /** One round of install_trans: log block k is still on the disk when it is copied home. */
  lemma InstallStep(c: Config, d: Disk, k: nat)
    requires HeaderOk(c, d) && k < HeadN(c, d)
    ensures var ws, a := InstallWrites(c, d), c.start + k + 1;
            && InLog(c, a) && a in Apply(d, ws[..k])
            && ws[k] == Write(HeadBlocks(c, d)[k], Apply(d, ws[..k])[a])
            && Apply(d, ws[..k + 1]) == Apply(d, ws[..k])[ws[k].addr := ws[k].data]
  {
    hide HeaderOk, InstallWrites, HeadN, HeadBlock, Apply, Logged;
    InstallCut(c, d, k);
    InstalledHeaderOk(c, d, k);
    InstallAt(c, d, k);
    ApplySnoc(d, InstallWrites(c, d), k);
  }

  function HeadBlocks(c: Config, d: Disk): (s: seq<nat>)
    requires HeaderOk(c, d)
    ensures |s| == HeadN(c, d)
  {
    seq(HeadN(c, d), i requires 0 <= i < HeadN(c, d) => HeadBlock(c, d, i))
  }

  class Log {
    const cfg: Config
    var disk: Disk
    var cache: Disk           // contents of the pinned buffers
    var n: nat                // log.lh.n
    var block: array<nat>     // log.lh.block
    var outstanding: nat
    ghost var trace: seq<Write>

    ghost predicate Valid()
      reads this, block
    {
      && ValidConfig(cfg)
      && block.Length == cfg.logsize
      && n <= cfg.logsize
    }

    function Listed(): seq<nat>
      requires Valid()
      reads this, block
    {
      block[..n]
    }

    /** bread of a home block: the pinned buffer if there is one, the disk block otherwise. */
    function Bread(a: nat): Block
      requires a in cache || a in disk
      reads this
    {
      if a in cache then cache[a] else disk[a]
    }

    /** bread of log block i, whose buffer is never pinned and so equals the disk. */
    function BreadLog(i: nat): Block
      requires cfg.start + i + 1 in disk
      reads this
    {
      disk[cfg.start + i + 1]
    }

    method Bwrite(a: nat, data: Block)
      modifies this`disk, this`trace
      ensures disk == old(disk)[a := data]
      ensures trace == old(trace) + [Write(a, data)]
    {
      disk := disk[a := data];
      trace := trace + [Write(a, data)];
    }

    /** log_write: record the block number and pin the buffer, or panic. */
    method LogWrite(b: nat, data: Block) returns (panic: bool)
      requires Valid()
      modifies this`n, this`cache, block
      ensures Valid()
      ensures panic == (old(n) >= cfg.logsize || old(n) >= cfg.size - 1 || outstanding < 1)
      ensures panic ==> Listed() == old(Listed()) && cache == old(cache)
      ensures !panic ==> Listed() == Absorb(old(Listed()), b) && cache == old(cache)[b := data]
    {
      if n >= cfg.logsize || n >= cfg.size - 1 || outstanding < 1 {
        return true;
      }
      var i := 0;
      while i < n
        invariant i <= n
        invariant b !in block[..i]
      {
        if block[i] == b {
          break;
        }
        i := i + 1;
      }
      ghost var was := block[..n];
      block[i] := b;
      if i == n {
        n := n + 1;
        assert block[..n] == was + [b];
      } else {
        assert block[..n] == was;
      }
      cache := cache[b := data];
      return false;
    }

    method WriteLog()
      requires Valid() && TransactionOk(cfg, disk, Listed(), cache)
      modifies this`disk, this`trace
      ensures disk == Apply(old(disk), LogWrites(cfg, Listed(), cache))
      ensures trace == old(trace) + LogWrites(cfg, Listed(), cache)
    {
      ghost var ws := LogWrites(cfg, Listed(), cache);
      var tail := 0;
      while tail < n
        invariant tail <= n
        invariant disk == Apply(old(disk), ws[..tail])
        invariant trace == old(trace) + ws[..tail]
      {
        assert block[tail] in Listed();
        var from := Bread(block[tail]);
        Bwrite(cfg.start + tail + 1, from);
        ApplySnoc(old(disk), ws, tail);
        TraceSnoc(old(trace), ws, tail);
        tail := tail + 1;
      }
      assert ws[..n] == ws;
    }

    method WriteHead()
      requires Valid() && Formatted(cfg, disk)
      modifies this`disk, this`trace
      ensures cfg.start in old(disk) && |Listed()| < |old(disk)[cfg.start]|
      ensures disk == old(disk)[cfg.start := HeadWith(old(disk)[cfg.start], Listed())]
      ensures trace == old(trace) + [Write(cfg.start, HeadWith(old(disk)[cfg.start], Listed()))]
    {
      assert InLog(cfg, cfg.start);
      var stale := disk[cfg.start];
      var hb := stale[0 := n];
      for i := 0 to n
        invariant |hb| == |stale| && hb[0] == n
        invariant forall j :: 1 <= j <= i ==> hb[j] == block[j - 1]
        invariant forall j :: i < j < |hb| && 0 < j ==> hb[j] == stale[j]
      {
        hb := hb[1 + i := block[i]];
      }
      assert hb == HeadWith(stale, Listed());
      Bwrite(cfg.start, hb);
    }

    method ReadHead()
      requires Valid() && HeaderOk(cfg, disk)
      modifies this`n, block
      ensures Valid() && Listed() == HeadBlocks(cfg, disk)
    {
      assert InLog(cfg, cfg.start);
      n := disk[cfg.start][0];
      for i := 0 to n
        invariant n == HeadN(cfg, disk)
        invariant forall j :: 0 <= j < i ==> block[j] == HeadBlock(cfg, disk, j)
      {
        assert IsHome(cfg, disk, disk[cfg.start][i + 1]);
        block[i] := disk[cfg.start][i + 1];
      }
    }

    method InstallTrans(recovering: bool)
      requires Valid() && HeaderOk(cfg, disk) && Listed() == HeadBlocks(cfg, disk)
      modifies this`disk, this`trace, this`cache
      ensures Valid()
      ensures disk == Apply(old(disk), InstallWrites(cfg, old(disk)))
      ensures trace == old(trace) + InstallWrites(cfg, old(disk))
      ensures cache == if recovering then old(cache) else Unpinned(old(cache), Listed())
    {
      hide HeaderOk, Apply, InstallWrites, HeadN, HeadBlock, HeadBlocks, Unpinned;
      ghost var d, pinned, blocks := disk, cache, Listed();
      ghost var ws := InstallWrites(cfg, d);
      var tail := 0;
      ApplyNone(d);
      UnpinnedNone(pinned);
      assert ws[..0] == [] && blocks[..0] == [];
      while tail < n
        invariant tail <= n
        invariant disk == Apply(d, ws[..tail])
        invariant trace == old(trace) + ws[..tail]
        invariant cache == if recovering then pinned else Unpinned(pinned, blocks[..tail])
      {
        InstallStep(cfg, d, tail);
        TraceSnoc(old(trace), ws, tail);
        var lbuf := BreadLog(tail);
        Bwrite(block[tail], lbuf);
        if !recovering {
          cache := cache - {block[tail]};
          UnpinnedSnoc(pinned, blocks, tail);
        }
        tail := tail + 1;
      }
      assert ws[..n] == ws && blocks[..n] == blocks;
    }

    /** The tail shared by commit and recover_from_log: install, set n to 0, write the header. */
    method InstallAndClear(recovering: bool)
      requires Valid() && HeaderOk(cfg, disk) && Listed() == HeadBlocks(cfg, disk)
      modifies this`disk, this`trace, this`cache, this`n
      ensures Valid() && n == 0
      ensures disk == Recover(cfg, old(disk))
      ensures trace == old(trace) + RecoverWrites(cfg, old(disk))
      ensures cache == if recovering then old(cache) else Unpinned(old(cache), old(Listed()))
    {
      ghost var d := disk;
      InstallTrans(recovering);
      n := 0;
      FinishInstall(cfg, d);
      WriteHead();
      assert Listed() == [];
    }

    /** recover_from_log issues exactly RecoverWrites, whatever the crash left behind. */
    method RecoverFromLog()
      requires Valid() && HeaderOk(cfg, disk)
      modifies this`disk, this`trace, this`cache, this`n, block
      ensures Valid() && n == 0 && cache == old(cache)
      ensures disk == Recover(cfg, old(disk))
      ensures trace == old(trace) + RecoverWrites(cfg, old(disk))
      ensures HeaderOk(cfg, disk) && HeadN(cfg, disk) == 0
      ensures Home(cfg, disk) == Meaning(cfg, old(disk))
    {
      ghost var d := disk;
      ReadHead();
      InstallAndClear(true);
      RecoverCompletes(cfg, d);
    }

    /** commit issues exactly CommitWrites and unpins exactly the blocks it installed. */
    method Commit()
      requires Valid() && TransactionOk(cfg, disk, Listed(), cache)
      modifies this`disk, this`trace, this`cache, this`n
      ensures Valid() && n == 0
      ensures disk == Apply(old(disk), CommitWrites(cfg, old(disk), old(Listed()), old(cache)))
      ensures trace == old(trace) + CommitWrites(cfg, old(disk), old(Listed()), old(cache))
      ensures cache == Unpinned(old(cache), old(Listed()))
      ensures HeaderOk(cfg, disk) && HeadN(cfg, disk) == 0
      ensures Home(cfg, disk) == Home(cfg, old(disk)) + Updates(old(Listed()), old(cache))
    {
      ghost var d, blocks, pinned := disk, Listed(), cache;
      if n > 0 {
        WriteLog();
        WriteLogKeepsFormat(cfg, d, blocks, pinned);
        WriteHead();
        CommitPointMeansNew(cfg, d, blocks, pinned);
        assert disk == CommitPoint(cfg, d, blocks, pinned);
        HeadBlocksOfCommitPoint(cfg, d, blocks, pinned);
        CommitSplits(cfg, d, blocks, pinned, trace, old(trace));
        InstallAndClear(false);
      } else {
        assert blocks == [];
      }
      CommitCompletes(cfg, d, blocks, pinned);
    }
  }

  lemma WriteLogKeepsFormat(c: Config, d: Disk, blocks: seq<nat>, cache: Disk)
    requires TransactionOk(c, d, blocks, cache)
    ensures var e := Apply(d, LogWrites(c, blocks, cache)); Formatted(c, e) && c.start in e && e[c.start] == d[c.start]
  {
    LogWritesCut(c, d, blocks, cache, |blocks|);
    assert LogWrites(c, blocks, cache)[..|blocks|] == LogWrites(c, blocks, cache);
    assert InLog(c, c.start);
  }

  lemma HeadBlocksOfCommitPoint(c: Config, d: Disk, blocks: seq<nat>, cache: Disk)
    requires TransactionOk(c, d, blocks, cache)
    requires HeaderOk(c, CommitPoint(c, d, blocks, cache))
    ensures HeadBlocks(c, CommitPoint(c, d, blocks, cache)) == blocks
  {
  }

  /** After install_trans the header block is still there, and clearing it completes the recovery. */
  lemma FinishInstall(c: Config, d: Disk)
    requires HeaderOk(c, d)
    ensures var e := Apply(d, InstallWrites(c, d));
            && Formatted(c, e) && c.start in e && e[c.start] == d[c.start] && 0 < |d[c.start]|
            && Recover(c, d) == e[c.start := HeadWith(d[c.start], [])]
  {
    var n := HeadN(c, d);
    InstallCut(c, d, n);
    InstalledHeaderOk(c, d, n);
    assert InstallWrites(c, d)[..n] == InstallWrites(c, d);
    assert InLog(c, c.start);
    var ws := RecoverWrites(c, d);
    assert ws[..n] == InstallWrites(c, d) && ws[..n + 1] == ws;
    ApplySnoc(d, ws, n);
  }

  lemma CommitSplits(c: Config, d: Disk, blocks: seq<nat>, cache: Disk, t: seq<Write>, t0: seq<Write>)
    requires TransactionOk(c, d, blocks, cache) && blocks != []
    requires HeaderOk(c, CommitPoint(c, d, blocks, cache))
    requires c.start in d && |blocks| < |d[c.start]|
    requires t == t0 + LogWrites(c, blocks, cache) + [Write(c.start, HeadWith(d[c.start], blocks))]
    ensures Apply(d, CommitWrites(c, d, blocks, cache)) == Recover(c, CommitPoint(c, d, blocks, cache))
    ensures t0 + CommitWrites(c, d, blocks, cache) == t + RecoverWrites(c, CommitPoint(c, d, blocks, cache))
  {
    var logs := LogWrites(c, blocks, cache);
    var head := Write(c.start, HeadWith(d[c.start], blocks));
    var point := CommitPoint(c, d, blocks, cache);
    ApplyConcat(d, logs + [head], RecoverWrites(c, point));
    assert (logs + [head])[..|logs|] == logs;
    Regroup(t0, logs, [head], RecoverWrites(c, point));
  }

  lemma Regroup(t: seq<Write>, a: seq<Write>, b: seq<Write>, r: seq<Write>)
    ensures t + (a + b + r) == t + a + b + r
  {
  }
}
