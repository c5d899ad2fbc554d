/** The on-disk inode: 64 bytes, sixteen to a block, as iupdate stores and ilock loads
    them. */
module FsInode {
  import opened FsBlock
  import opened FsVolume

  /** Words per dinode. */
  const DWORDS: nat := 16

  /** The in-memory inode can be stored without loss. */
  predicate Fits(x: Inode) {
    && |x.addrs| == NDIRECT + 1 && x.size < 0x1_0000_0000
    && forall k :: 0 <= k <= NDIRECT ==> x.addrs[k] < 0x1_0000_0000
  }

  /** struct dinode as words: two shorts, two shorts, the size, the addresses. */
  function InodeWords(x: Inode): (ws: seq<nat>)
    requires Fits(x)
    ensures |ws| == DWORDS && forall j :: 0 <= j < DWORDS ==> ws[j] < 0x1_0000_0000
  {
    [x.kind.ftype + 0x1_0000 * x.kind.major, x.kind.minor + 0x1_0000 * x.kind.nlink, x.size] + x.addrs
  }

  function PutWords(d: Data, at: nat, ws: seq<nat>): (r: Data)
    requires at + |ws| <= NINDIRECT && forall j :: 0 <= j < |ws| ==> ws[j] < 0x1_0000_0000
    decreases |ws|
  {
    if ws == [] then d else PutWords(SetWord(d, at, ws[0]), at + 1, ws[1..])
  }

  lemma {:induction false} PutWordsAt(d: Data, at: nat, ws: seq<nat>, j: nat)
    requires at + |ws| <= NINDIRECT && (forall l :: 0 <= l < |ws| ==> ws[l] < 0x1_0000_0000) && j < NINDIRECT
    ensures Word(PutWords(d, at, ws), j) == if at <= j < at + |ws| then ws[j - at] else Word(d, j)
    decreases |ws|
  {
    hide Word, SetWord;
    if ws != [] {
      PutWordsAt(SetWord(d, at, ws[0]), at + 1, ws[1..], j);
      WordRoundTrip(d, at, ws[0], j);
    }
  }

  function PutInode(d: Data, s: nat, x: Inode): (r: Data)
    requires s < IPB && Fits(x)
  {
    PutWords(d, DWORDS * s, InodeWords(x))
  }

  /** Word j of dinode s. */
  function InodeWord(d: Data, s: nat, j: nat): (w: nat)
    requires s < IPB && j < DWORDS
    ensures w < 0x1_0000_0000
  {
    Word(d, DWORDS * s + j)
  }

  function GetInode(d: Data, s: nat): (x: Inode)
    requires s < IPB
  {
    var w0, w1 := InodeWord(d, s, 0), InodeWord(d, s, 1);
    Inode(Kind(w0 % 0x1_0000, w0 / 0x1_0000, w1 % 0x1_0000, w1 / 0x1_0000),
          seq<nat>(NDIRECT + 1, k requires 0 <= k <= NDIRECT => InodeWord(d, s, 3 + k)), InodeWord(d, s, 2))
  }

  /** What iupdate stores is what ilock loads, and no other inode of the block changes. */
  lemma InodeRoundTrip(d: Data, s: nat, x: Inode, t: nat)
    requires s < IPB && t < IPB && Fits(x)
    ensures GetInode(PutInode(d, s, x), t) == if s == t then x else GetInode(d, t)
  {
    var d' := PutInode(d, s, x);
    forall j | 0 <= j < DWORDS
      ensures InodeWord(d', t, j) == if s == t then InodeWords(x)[j] else InodeWord(d, t, j)
    {
      PutWordsAt(d, DWORDS * s, InodeWords(x), DWORDS * t + j);
    }
    hide InodeWord, InodeWords, PutInode, GetInode;
    if s == t {
      SameInode(d', t, x);
    } else {
      GotWords(d, t);
      SameInode(d', t, GetInode(d, t));
    }
  }

  lemma TwoShorts(w: nat, a: Short, b: Short)
    requires w < 0x1_0000_0000
    ensures w == a + 0x1_0000 * b <==> a == w % 0x1_0000 && b == w / 0x1_0000
  {
  }

  lemma GotWords(d: Data, t: nat)
    requires t < IPB
    ensures Fits(GetInode(d, t))
    ensures forall j :: 0 <= j < DWORDS ==> InodeWord(d, t, j) == InodeWords(GetInode(d, t))[j]
  {
    hide InodeWord;
    var x := GetInode(d, t);
    assert forall k :: 0 <= k <= NDIRECT ==> x.addrs[k] == InodeWord(d, t, 3 + k);
    TwoShorts(InodeWord(d, t, 0), x.kind.ftype, x.kind.major);
    TwoShorts(InodeWord(d, t, 1), x.kind.minor, x.kind.nlink);
    forall j | 0 <= j < DWORDS
      ensures InodeWord(d, t, j) == InodeWords(x)[j]
    {
      if j >= 3 {
        assert x.addrs[j - 3] == InodeWord(d, t, 3 + (j - 3));
      }
    }
  }

  /** An inode is its words. */
  lemma SameInode(d: Data, t: nat, x: Inode)
    requires t < IPB && Fits(x) && forall j :: 0 <= j < DWORDS ==> InodeWord(d, t, j) == InodeWords(x)[j]
    ensures GetInode(d, t) == x
  {
    hide InodeWord;
    var y := GetInode(d, t);
    TwoShorts(InodeWord(d, t, 0), x.kind.ftype, x.kind.major);
    TwoShorts(InodeWord(d, t, 1), x.kind.minor, x.kind.nlink);
    forall k | 0 <= k <= NDIRECT
      ensures y.addrs[k] == x.addrs[k]
    {
      assert InodeWord(d, t, 3 + k) == InodeWords(x)[3 + k];
    }
    assert y.addrs == x.addrs;
  }

  // ---- the inode blocks ----

  predicate TableOk(sb: Super, table: seq<Data>) {
    |table| == sb.ninodes / IPB + 1
  }

  /** All inodes as the inode blocks have them. */
  function Dinodes(sb: Super, table: seq<Data>): (inodes: seq<Inode>)
    requires TableOk(sb, table)
    ensures |inodes| == sb.ninodes
  {
    seq(sb.ninodes, i requires 0 <= i < sb.ninodes => GetInode(table[i / IPB], i % IPB))
  }

  function Store(sb: Super, table: seq<Data>, i: nat, x: Inode): (r: seq<Data>)
    requires TableOk(sb, table) && i < sb.ninodes && Fits(x)
  {
    table[i / IPB := PutInode(table[i / IPB], i % IPB, x)]
  }

  lemma StoreOne(sb: Super, table: seq<Data>, i: nat, x: Inode)
    requires TableOk(sb, table) && i < sb.ninodes && Fits(x)
    ensures TableOk(sb, Store(sb, table, i, x))
    ensures Dinodes(sb, Store(sb, table, i, x)) == Dinodes(sb, table)[i := x]
  {
    hide PutInode, GetInode;
    var table' := Store(sb, table, i, x);
    forall j | 0 <= j < sb.ninodes
      ensures Dinodes(sb, table')[j] == Dinodes(sb, table)[i := x][j]
    {
      if j / IPB == i / IPB {
        InodeRoundTrip(table[i / IPB], i % IPB, x, j % IPB);
        assert j % IPB == i % IPB ==> j == i;
      }
    }
  }
}
