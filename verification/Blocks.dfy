/**
 The two ways kernel/fs.c reads a disk block other than as bytes: an indirect
 block as an array of 32-bit little-endian words, and a bitmap block as an
 array of bits, eight to a byte.
 */
module Blocks {

  type Block = seq<int>

  function ZeroBlock(n: nat): (b: Block)
    ensures |b| == n && forall i | 0 <= i < n :: b[i] == 0
  {
    seq(n, i => 0)
  }

  // ---------- Words ----------

  const WORDS := 0x1_0000_0000

  /** Word j of a block. */
  function Word(b: Block, j: nat): (w: int)
    requires 4 * j + 3 < |b|
  {
    b[4 * j] + 0x100 * b[4 * j + 1] + 0x1_0000 * b[4 * j + 2] + 0x100_0000 * b[4 * j + 3]
  }

  function PutWord(b: Block, j: nat, x: nat): (b': Block)
    requires 4 * j + 3 < |b|
    ensures |b'| == |b|
  {
    var x1 := x / 0x100;
    var x2 := x1 / 0x100;
    var x3 := x2 / 0x100;
    b[4 * j := x % 0x100][4 * j + 1 := x1 % 0x100][4 * j + 2 := x2 % 0x100][4 * j + 3 := x3 % 0x100]
  }

  /** A 32-bit word read back is the word written; the other words keep their values. */
  lemma WordPut(b: Block, j: nat, x: nat, k: nat)
    requires 4 * j + 3 < |b| && 4 * k + 3 < |b| && x < WORDS
    ensures Word(PutWord(b, j, x), k) == if k == j then x else Word(b, k)
  {
    Digits(x);
  }

  lemma Digits(x: nat)
    requires x < WORDS
    ensures x == x % 0x100 + 0x100 * (x / 0x100 % 0x100) + 0x1_0000 * (x / 0x100 / 0x100 % 0x100)
            + 0x100_0000 * (x / 0x100 / 0x100 / 0x100 % 0x100)
  {
    var x1 := x / 0x100;
    var x2 := x1 / 0x100;
    var x3 := x2 / 0x100;
    assert x == x % 0x100 + 0x100 * x1;
    assert x1 == x1 % 0x100 + 0x100 * x2;
    assert x2 == x2 % 0x100 + 0x100 * x3;
  }

  lemma WordOfZero(n: nat, j: nat)
    requires 4 * j + 3 < n
    ensures Word(ZeroBlock(n), j) == 0
  {
  }

  // ---------- Bits ----------

  /** 1 << k */
  function Mask(k: nat): int {
    if k == 0 then 1 else 2 * Mask(k - 1)
  }

  /** x & (1 << k) */
  predicate Has(x: int, k: nat)
    decreases k
  {
    if k == 0 then x % 2 == 1 else Has(x / 2, k - 1)
  }

  /** data[i/8] & (1 << (i % 8)) */
  predicate Bit(b: Block, i: nat)
    requires i / 8 < |b|
  {
    Has(b[i / 8], i % 8)
  }

  /** data[i/8] |= 1 << (i % 8) */
  function SetBit(b: Block, i: nat): (b': Block)
    requires i / 8 < |b|
    ensures |b'| == |b|
  {
    b[i / 8 := if Bit(b, i) then b[i / 8] else b[i / 8] + Mask(i % 8)]
  }

  /** data[i/8] &= ~(1 << (i % 8)) */
  function ClearBit(b: Block, i: nat): (b': Block)
    requires i / 8 < |b|
    ensures |b'| == |b|
  {
    b[i / 8 := if Bit(b, i) then b[i / 8] - Mask(i % 8) else b[i / 8]]
  }

  /** Adding a clear bit of a number, or taking away a set one, changes that bit and no other. */
  lemma {:induction false} FlipBit(x: int, k: nat, j: nat)
    ensures !Has(x, k) ==> (Has(x + Mask(k), j) <==> j == k || Has(x, j))
    ensures Has(x, k) ==> (Has(x - Mask(k), j) <==> j != k && Has(x, j))
    decreases k
  {
    if 0 < k && 0 < j {
      FlipBit(x / 2, k - 1, j - 1);
      assert (x + Mask(k)) / 2 == x / 2 + Mask(k - 1) && (x - Mask(k)) / 2 == x / 2 - Mask(k - 1);
    }
  }

  lemma BitAfterSet(b: Block, i: nat, j: nat)
    requires i / 8 < |b| && j / 8 < |b|
    ensures Bit(SetBit(b, i), j) <==> j == i || Bit(b, j)
  {
    FlipBit(b[i / 8], i % 8, j % 8);
  }

  lemma BitAfterClear(b: Block, i: nat, j: nat)
    requires i / 8 < |b| && j / 8 < |b|
    ensures Bit(ClearBit(b, i), j) <==> j != i && Bit(b, j)
  {
    FlipBit(b[i / 8], i % 8, j % 8);
  }

  lemma BitOfZero(n: nat, i: nat)
    requires i / 8 < n
    ensures !Bit(ZeroBlock(n), i)
  {
    ZeroHasNone(i % 8);
  }

  lemma {:induction false} ZeroHasNone(k: nat)
    ensures !Has(0, k)
  {
    if 0 < k {
      ZeroHasNone(k - 1);
    }
  }
}
