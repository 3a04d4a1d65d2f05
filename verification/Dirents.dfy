/**
 Directory contents: struct dirent of kernel/fs.h, a 16-bit inode number and a
 name of at most DIRSIZ bytes, padded with NULs.
 */
module Dirents {
  import opened Links

  const DIRSIZ := 14
  const DIRENT := 16                           // sizeof(struct dirent)

  /** A C string of bytes. */
  predicate IsName(name: string) {
    forall i | 0 <= i < |name| :: 0 < name[i] as int < 256
  }

  /** What strncpy into a name field keeps. */
  function Cut(name: string): (r: string)
    ensures |r| <= DIRSIZ && (IsName(name) ==> IsName(r)) && (|name| <= DIRSIZ ==> r == name)
  {
    if DIRSIZ < |name| then name[..DIRSIZ] else name
  }

  function NameField(name: string): (b: seq<int>)
    requires |name| <= DIRSIZ
    ensures |b| == DIRSIZ
  {
    seq(DIRSIZ, i requires 0 <= i => if i < |name| then name[i] as int else 0)
  }

  function Encode(e: Entry): (b: seq<int>)
    ensures |b| == DIRENT
  {
    [e.inum % 256, e.inum / 256 % 256] + NameField(Cut(e.name))
  }

  function FieldName(b: seq<int>): (name: string) {
    if b == [] || !(0 < b[0] < 256) then "" else [b[0] as char] + FieldName(b[1..])
  }

  function Decode(b: seq<int>): Entry
    requires |b| == DIRENT
  {
    Entry(FieldName(b[2..]), if 0 <= b[0] && 0 <= b[1] then b[0] + 256 * b[1] else 0)
  }

  predicate Encodable(e: Entry) {
    e.inum < 0x1_0000 && |e.name| <= DIRSIZ && IsName(e.name)
  }

  lemma {:induction false} FieldNameRound(b: seq<int>, name: string)
    requires |name| <= |b| && IsName(name) && (|name| < |b| ==> b[|name|] == 0)
    requires forall i | 0 <= i < |name| :: b[i] == name[i] as int
    ensures FieldName(b) == name
    decreases |name|
  {
    if name != "" {
      FieldNameRound(b[1..], name[1..]);
      assert name == [name[0]] + name[1..];
    }
  }

  lemma DecodeEncode(e: Entry)
    requires Encodable(e)
    ensures Decode(Encode(e)) == e
  {
    FieldNameRound(NameField(e.name), e.name);
    assert Encode(e)[2..] == NameField(e.name);
    assert e.inum == e.inum % 256 + 256 * (e.inum / 256) && e.inum / 256 < 256;
  }

  /** The bytes of an entry: the inode number, low byte first, and the name padded with NULs. */
  lemma EncodedBytes(e: Entry)
    requires Encodable(e)
    ensures var b := Encode(e);
            && 0 <= b[0] < 256 && 0 <= b[1] < 256 && e.inum == b[0] + 256 * b[1]
            && (forall k | 2 <= k < DIRENT :: b[k] == if k - 2 < |e.name| then e.name[k - 2] as int else 0)
  {
    var b, name := Encode(e), NameField(e.name);
    assert forall k | 2 <= k < DIRENT :: b[k] == name[k - 2];
    assert e.inum == e.inum % 256 + 256 * (e.inum / 256) && e.inum / 256 < 256;
  }

  // ---------- Whole directories ----------

  /** The entries that the bytes of a directory hold. */
  function Entries(content: seq<int>): (es: seq<Entry>)
    ensures |es| == |content| / DIRENT
  {
    if |content| < DIRENT then [] else [Decode(content[..DIRENT])] + Entries(content[DIRENT..])
  }

  function EncodeAll(es: seq<Entry>): (content: seq<int>)
    ensures |content| == DIRENT * |es|
  {
    if es == [] then [] else Encode(es[0]) + EncodeAll(es[1..])
  }

  lemma {:induction false} EncodeAppend(es: seq<Entry>, e: Entry)
    ensures EncodeAll(es + [e]) == EncodeAll(es) + Encode(e)
  {
    if es == [] {
      assert es + [e] == [e] && [e][1..] == [];
    } else {
      EncodeAppend(es[1..], e);
      assert (es + [e])[1..] == es[1..] + [e];
    }
  }

  /** What is read of a directory is what became of each of its entries. */
  lemma {:induction false} EntriesOf(es: seq<Entry>)
    ensures |Entries(EncodeAll(es))| == |es|
    ensures forall k | 0 <= k < |es| :: Entries(EncodeAll(es))[k] == Decode(Encode(es[k]))
  {
    hide Encode, Decode;
    if es != [] {
      var content := EncodeAll(es);
      assert content[..DIRENT] == Encode(es[0]) && content[DIRENT..] == EncodeAll(es[1..]);
      EntriesOf(es[1..]);
      assert forall k | 1 <= k < |es| :: es[k] == es[1..][k - 1];
    }
  }

  lemma EntriesRound(es: seq<Entry>)
    requires forall k | 0 <= k < |es| :: Encodable(es[k])
    ensures Entries(EncodeAll(es)) == es
  {
    hide Encode, Decode, Encodable;
    EntriesOf(es);
    forall k | 0 <= k < |es| ensures Decode(Encode(es[k])) == es[k] {
      DecodeEncode(es[k]);
    }
  }

  /** An inode number of more than 16 bits is cut. */
  lemma NumberIsCut(e: Entry)
    ensures Decode(Encode(e)).inum == e.inum % 0x1_0000
  {
    var x := e.inum;
    var q, r := x / 256, x % 256;
    Low16(x, q / 256, 256 * (q % 256) + r);
  }

  lemma Low16(x: nat, p: nat, t: nat)
    requires x == 0x1_0000 * p + t && t < 0x1_0000
    ensures x % 0x1_0000 == t
  {
  }

  lemma {:induction false} EntriesAppend(c: seq<int>, z: seq<int>)
    requires |c| % DIRENT == 0
    ensures Entries(c + z) == Entries(c) + Entries(z)
    decreases |c|
  {
    hide Decode;
    if c == [] {
      assert c + z == z;
    } else {
      assert (c + z)[..DIRENT] == c[..DIRENT] && (c + z)[DIRENT..] == c[DIRENT..] + z;
      EntriesAppend(c[DIRENT..], z);
    }
  }

  /** Zeros are entries of no inode. */
  lemma {:induction false} ZeroEntries(z: seq<int>)
    requires forall i | 0 <= i < |z| :: z[i] == 0
    ensures forall k | 0 <= k < |Entries(z)| :: Entries(z)[k] == Entry("", 0)
    decreases |z|
  {
    if DIRENT <= |z| {
      ZeroEntries(z[DIRENT..]);
    }
  }
}
