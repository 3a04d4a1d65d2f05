/**
 Pipes, kernel/pipe.c.

 pi->lock is held from entry, or from waking up, until the call sleeps or
 returns, so each such stretch is one method here; calls of any number of
 readers and writers may be interleaved between them.  `stored` and `consumed`
 are the whole history of the pipe.
 */
module Pipe {
  import opened Arithmetic

  const WRAP := 0x1_0000_0000                  // nread and nwrite are 32 bits wide

  datatype Outcome = Returns(r: int) | Sleeps

  lemma FullOrEmpty(r: nat, w: nat, size: nat)
    requires r <= w <= r + size && size < WRAP
    ensures Rem(w, WRAP) == (Rem(r, WRAP) + size) % WRAP <==> w == r + size
    ensures Rem(w, WRAP) == Rem(r, WRAP) <==> w == r
  {
    assert (Rem(r, WRAP) + size) % WRAP == (r + size) % WRAP;
  }

  /** Bytes r up to w of the history are in the ring. */
  ghost predicate InRing(data: seq<int>, stored: seq<int>, r: nat) {
    && 0 < |data| && r <= |stored| <= r + |data|
    && forall k | r <= k < |stored| :: data[Rem(k, |data|)] == stored[k]
  }

  lemma RingFacts(data: seq<int>, stored: seq<int>, r: nat, size: nat, m: nat)
    requires InRing(data, stored, r) && Divides(size, WRAP, m)
    ensures r <= |stored| <= r + |data| && 0 < size < WRAP
  {
  }

  lemma Store(data: seq<int>, stored: seq<int>, r: nat, ch: int)
    requires InRing(data, stored, r) && |stored| < r + |data|
    ensures InRing(data[Rem(|stored|, |data|) := ch], stored + [ch], r)
  {
    hide Rem;
    var n := |data|;
    var data' := data[Rem(|stored|, n) := ch];
    forall k | r <= k < |stored + [ch]| ensures data'[Rem(k, n)] == (stored + [ch])[k] {
      if k < |stored| {
        RemsDiffer(k, |stored|, n);
      }
    }
  }

  lemma OneMore(s: seq<int>, lo: nat, i: nat)
    requires lo <= i < |s|
    ensures s[lo..i + 1] == s[lo..i] + [s[i]]
    ensures forall t: seq<int> :: t + s[lo..i + 1] == (t + s[lo..i]) + [s[i]]
  {
  }

  lemma None(s: seq<int>, lo: nat)
    requires lo <= |s|
    ensures s[lo..lo] == [] && forall t: seq<int> :: t + s[lo..lo] == t
  {
  }

  function Least(a: nat, b: nat, c: nat): (m: nat)
    ensures m in [a, b, c] && m <= a && m <= b && m <= c
  {
    if a <= b && a <= c then a else if b <= c then b else c
  }

  class Pipe {
    const size: nat                            // PIPESIZE
    ghost const m: nat                         // 2^32 / PIPESIZE
    var data: seq<int>
    var nread: nat
    var nwrite: nat
    var readopen: bool
    var writeopen: bool
    ghost var stored: seq<int>                 // every byte ever stored
    ghost var consumed: nat                    // how many of them have been taken out
    ghost var readers: set<nat>                // processes asleep on &pi->nread
    ghost var writers: set<nat>                // processes asleep on &pi->nwrite

    ghost predicate RingOk()
      reads this
    {
      Divides(size, WRAP, m) && |data| == size && InRing(data, stored, consumed) && nread == Rem(consumed, WRAP)
          && nwrite == Rem(|stored|, WRAP)
    }

    /**
     With the lock free: a sleeping writer has a full pipe and a reader to wait for; a
     sleeping reader has a writer to wait for.
     */
    ghost predicate SleepersOk()
      reads this
    {
      (writers != {} ==> |stored| == consumed + size && readopen) && (readers != {} ==> writeopen)
    }

    /** A reader sleeps beside bytes it could take. */
    ghost predicate Stranded()
      reads this
    {
      readers != {} && consumed < |stored|
    }

    ghost predicate Valid()
      reads this
    {
      RingOk() && SleepersOk()
    }

    /** pipealloc */
    constructor (size: nat, ghost m: nat, data: seq<int>)
      requires Divides(size, WRAP, m) && |data| == size
      ensures Valid() && this.size == size && stored == [] && consumed == 0 && readopen && writeopen
      ensures readers == {} && writers == {}
    {
      this.size, this.m, this.data := size, m, data;
      nread, nwrite, readopen, writeopen := 0, 0, true, true;
      stored, consumed, readers, writers := [], 0, {}, {};
    }

    /**
     pipewrite from byte `start` on, by process p, until it returns or sleeps.
     killed() becomes true at byte `kill`; copyin fails at byte `good`.  A reader is
     left asleep beside bytes just when the call returns -1 after storing some.
     */
    method Write(p: nat, src: seq<int>, start: nat, kill: nat, good: nat) returns (out: Outcome, i: nat)
      requires Valid() && start <= |src|
      modifies this`data, this`nwrite, this`stored, this`readers, this`writers
      ensures Valid() && start <= i <= |src| && stored == old(stored) + src[start..i]
      ensures start < i ==> i <= kill && i <= good && readopen
      ensures readers == if out == Returns(-1) then old(readers) else {}
      ensures writers == if out.Sleeps? then old(writers) + {p} else old(writers) - {p}
      ensures out.Sleeps? ==> i < |src| && i < kill && readopen && |stored| == consumed + size
      ensures out == Returns(-1) ==> i < |src| && (!readopen || kill <= i)
      ensures out != Returns(-1) && !out.Sleeps? ==> out == Returns(i) && (i == |src| || good <= i)
      ensures out != Returns(-1) && !out.Sleeps? && i < |src| ==> readopen && i < kill && |stored| < consumed + size
      ensures Stranded() <==> out == Returns(-1) && old(readers) != {} && (start < i || old(consumed < |stored|))
    {
      hide Rem, Divides, InRing;
      RingFacts(data, stored, consumed, size, m);
      writers := writers - {p};
      i := start;
      None(src, start);
      while i < |src|
        invariant start <= i <= |src| && RingOk() && SleepersOk() && stored == old(stored) + src[start..i]
        invariant readers == old(readers) && writers == old(writers) - {p}
        invariant start < i ==> writers == {} && i <= kill && i <= good && readopen
        decreases |src| - i
      {
        if !readopen || kill <= i {
          RingFacts(data, stored, consumed, size, m);
          return Returns(-1), i;
        }
        RingFacts(data, stored, consumed, size, m);
        FullOrEmpty(consumed, |stored|, size);
        if nwrite == (nread + size) % WRAP {
          readers := {};
          writers := writers + {p};
          return Sleeps, i;
        }
        if good <= i {
          break;
        }
        var ch := src[i];
        StoreByte(ch);
        OneMore(src, start, i);
        i := i + 1;
      }
      readers := {};
      return Returns(i), i;
    }

    method StoreByte(ch: int)
      requires RingOk() && |stored| < consumed + size
      modifies this`data, this`nwrite, this`stored
      ensures RingOk() && stored == old(stored) + [ch]
    {
      hide Rem, Divides, InRing;
      Store(data, stored, consumed, ch);
      IndexFinds(|stored|, WRAP, size, m);
      data := data[Rem(nwrite, size) := ch];
      nwrite := (nwrite + 1) % WRAP;
      stored := stored + [ch];
    }

    /**
     piperead of n bytes by process p, from entry or from waking up, until it
     returns or sleeps.  copyout fails at byte `room`, after the byte has been
     taken out.
     */
    method Read(p: nat, n: nat, killed: bool, room: nat) returns (out: Outcome, bytes: seq<int>)
      requires Valid()
      modifies this`nread, this`consumed, this`readers, this`writers
      ensures Valid() && old(consumed) <= consumed <= |stored|
      ensures old(consumed) == |stored| && writeopen ==> out == if killed then Returns(-1) else Sleeps
      ensures readers == if out.Sleeps? then old(readers) + {p} else old(readers) - {p}
      ensures writers == if out.Sleeps? || out == Returns(-1) then old(writers) else {}
      ensures out.Sleeps? || out == Returns(-1) ==>
                old(consumed) == |stored| && writeopen && bytes == [] && consumed == old(consumed)
      ensures out != Sleeps && out != Returns(-1) ==> out == Returns(|bytes|)
      ensures out != Sleeps && out != Returns(-1) ==>
                && |bytes| == Least(n, room, |stored| - old(consumed))
                && bytes == stored[old(consumed)..old(consumed) + |bytes|]
                && consumed == old(consumed) + |bytes| + if room < n && room < |stored| - old(consumed) then 1 else 0
      ensures Stranded() ==> old(Stranded())
    {
      hide Rem, Divides, InRing;
      readers := readers - {p};
      RingFacts(data, stored, consumed, size, m);
      FullOrEmpty(consumed, |stored|, size);
      bytes := [];
      if nread == nwrite && writeopen {
        if killed {
          return Returns(-1), [];
        }
        readers := readers + {p};
        return Sleeps, [];
      }
      bytes := TakeBytes(n, room);
      writers := {};
      return Returns(|bytes|), bytes;
    }

    /** piperead's loop: up to n bytes, as many as there are, until copyout fails. */
    method TakeBytes(n: nat, room: nat) returns (bytes: seq<int>)
      requires RingOk() && consumed <= |stored|
      modifies this`nread, this`consumed
      ensures RingOk() && old(consumed) <= consumed <= |stored|
      ensures |bytes| == Least(n, room, |stored| - old(consumed))
      ensures bytes == stored[old(consumed)..old(consumed) + |bytes|]
      ensures consumed == old(consumed) + |bytes| + if room < n && room < |stored| - old(consumed) then 1 else 0
    {
      hide Rem, Divides, InRing;
      bytes := [];
      None(stored, consumed);
      var i := 0;
      while i < n
        invariant 0 <= i <= n && RingOk() && consumed == old(consumed) + i <= |stored| && i == |bytes| && i <= room
        invariant bytes == stored[old(consumed)..consumed]
      {
        RingFacts(data, stored, consumed, size, m);
        FullOrEmpty(consumed, |stored|, size);
        if nread == nwrite {
          break;
        }
        var ch := TakeByte();
        RingFacts(data, stored, consumed, size, m);
        if room <= i {
          break;
        }
        OneMore(stored, old(consumed), consumed - 1);
        bytes := bytes + [ch];
        i := i + 1;
      }
    }

    method TakeByte() returns (ch: int)
      requires RingOk() && consumed < |stored|
      modifies this`nread, this`consumed
      ensures RingOk() && consumed == old(consumed) + 1 && ch == stored[old(consumed)]
    {
      hide Rem, Divides;
      IndexFinds(consumed, WRAP, size, m);
      ch := data[Rem(nread, size)];
      nread := (nread + 1) % WRAP;
      consumed := consumed + 1;
    }

    /** kill(p), wherever p is: a process that slept will run again, in Read or Write, and find itself killed. */
    method Kill(p: nat)
      requires Valid()
      modifies this`readers, this`writers
      ensures Valid() && readers == old(readers) - {p} && writers == old(writers) - {p}
      ensures Stranded() ==> old(Stranded())
    {
      readers, writers := readers - {p}, writers - {p};
    }

    /** pipeclose: the last descriptor of one side; a process asleep in the other side's call still holds its own. */
    method Close(writable: bool) returns (freed: bool)
      requires Valid() && (writable ==> writers == {}) && (!writable ==> readers == {})
      modifies this`readopen, this`writeopen, this`readers, this`writers
      ensures Valid() && readopen == (old(readopen) && writable) && writeopen == (old(writeopen) && !writable)
      ensures if writable then readers == {} && writers == old(writers) else writers == {} && readers == old(readers)
      ensures freed <==> !readopen && !writeopen
      ensures freed ==> readers == {} && writers == {}
      ensures Stranded() ==> old(Stranded())
    {
      if writable {
        writeopen := false;
        readers := {};
      } else {
        readopen := false;
        writers := {};
      }
      return !readopen && !writeopen;
    }
  }

  /**
   On any pipe that is open and empty: process p reads one byte and sleeps; process
   q writes two, is killed after the first, and returns; p is asleep beside it.
   */
  method Strand(pi: Pipe, p: nat, q: nat, ch: int) returns (read: Outcome, write: Outcome)
    requires pi.Valid() && pi.readopen && pi.writeopen && pi.consumed == |pi.stored|
    modifies pi
    ensures pi.Valid() && read == Sleeps && write == Returns(-1)
    ensures pi.readers == old(pi.readers) + {p} && pi.stored == old(pi.stored) + [ch] && pi.consumed == old(pi.consumed)
    ensures pi.Stranded() && pi.writeopen
  {
    hide Rem, Divides, InRing;
    RingFacts(pi.data, pi.stored, pi.consumed, pi.size, pi.m);
    var bytes, i;
    read, bytes := pi.Read(p, 1, false, 1);
    write, i := pi.Write(q, [ch, ch], 0, 1, 2);
    assert [ch, ch][0..1] == [ch];
  }
}
