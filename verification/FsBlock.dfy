/** File-system blocks as bytes: the bitmap's bits and the 32-bit little-endian
    words of an indirect block. */
module FsBlock {

  const BSIZE: nat := 1024
  const BPB: nat := 8 * BSIZE
  const NDIRECT: nat := 12
  const NINDIRECT: nat := 256
  const MAXFILE: nat := NDIRECT + NINDIRECT

  type Byte = b: int | 0 <= b < 256
  type Data = d: seq<Byte> | |d| == 1024 witness seq(1024, _ => 0)

  const ZEROES: Data := seq(1024, _ => 0)

  // ---- words ----

  function Word(d: Data, i: nat): (w: nat)
    requires i < NINDIRECT
    ensures w < 0x1_0000_0000
  {
    var b0: int, b1: int, b2: int, b3: int := d[4 * i], d[4 * i + 1], d[4 * i + 2], d[4 * i + 3];
    b0 + 0x100 * b1 + 0x1_0000 * b2 + 0x100_0000 * b3
  }

  function SetWord(d: Data, i: nat, w: nat): (r: Data)
    requires i < NINDIRECT && w < 0x1_0000_0000
  {
    d[4 * i := w % 0x100][4 * i + 1 := w / 0x100 % 0x100][4 * i + 2 := w / 0x1_0000 % 0x100]
     [4 * i + 3 := w / 0x100_0000]
  }

  lemma WordRoundTrip(d: Data, i: nat, w: nat, j: nat)
    requires i < NINDIRECT && j < NINDIRECT && w < 0x1_0000_0000
    ensures Word(SetWord(d, i, w), j) == if i == j then w else Word(d, j)
  {
    hide SetWord;
    SetWordBytes(d, i, w, j);
    FourBytes(w);
  }

  lemma SetWordBytes(d: Data, i: nat, w: nat, j: nat)
    requires i < NINDIRECT && j < NINDIRECT && w < 0x1_0000_0000
    ensures var r := SetWord(d, i, w);
            if i == j then
              r[4 * j] == w % 0x100 && r[4 * j + 1] == w / 0x100 % 0x100 && r[4 * j + 2] == w / 0x1_0000 % 0x100
              && r[4 * j + 3] == w / 0x100_0000
            else
              r[4 * j] == d[4 * j] && r[4 * j + 1] == d[4 * j + 1] && r[4 * j + 2] == d[4 * j + 2]
                  && r[4 * j + 3] == d[4 * j + 3]
  {
  }

  lemma FourBytes(w: nat)
    ensures w == w % 0x100 + 0x100 * (w / 0x100 % 0x100) + 0x1_0000 * (w / 0x1_0000 % 0x100)
                 + 0x100_0000 * (w / 0x100_0000)
  {
    var a, b := w / 0x100, w / 0x1_0000;
    assert a / 0x100 == b && b / 0x100 == w / 0x100_0000;
  }

  // ---- bits ----

  /** Bit k of x, counted from the least significant: (x & (1 << k)) != 0. */
  predicate HasBit(x: nat, k: nat) {
    if k == 0 then x % 2 == 1 else HasBit(x / 2, k - 1)
  }

  /** x | (1 << k) */
  function OrBit(x: nat, k: nat): (r: nat)
    decreases k
  {
    if k == 0 then x / 2 * 2 + 1 else OrBit(x / 2, k - 1) * 2 + x % 2
  }

  /** x & ~(1 << k) */
  function ClearBit(x: nat, k: nat): (r: nat)
    ensures r <= x
    decreases k
  {
    if k == 0 then x / 2 * 2 else ClearBit(x / 2, k - 1) * 2 + x % 2
  }

  lemma {:induction false} OrBitFits(x: nat, k: nat)
    requires x < 256 && k < 8
    ensures OrBit(x, k) < 256
  {
    OrBitBelow(x, k, 8, 256);
  }

  lemma {:induction false} OrBitBelow(x: nat, k: nat, n: nat, bound: nat)
    requires k < n && x < bound && bound == Pow2(n)
    ensures OrBit(x, k) < bound
    decreases n
  {
    if k > 0 {
      OrBitBelow(x / 2, k - 1, n - 1, bound / 2);
    }
  }

  ghost function Pow2(n: nat): nat {
    if n == 0 then 1 else 2 * Pow2(n - 1)
  }

  lemma {:induction false} OrBitSets(x: nat, k: nat, j: nat)
    ensures HasBit(OrBit(x, k), j) <==> j == k || HasBit(x, j)
    decreases k
  {
    if k > 0 && j > 0 {
      assert OrBit(x, k) / 2 == OrBit(x / 2, k - 1);
      OrBitSets(x / 2, k - 1, j - 1);
    }
  }

  lemma {:induction false} ClearBitClears(x: nat, k: nat, j: nat)
    ensures HasBit(ClearBit(x, k), j) <==> j != k && HasBit(x, j)
    decreases k
  {
    if k > 0 && j > 0 {
      assert ClearBit(x, k) / 2 == ClearBit(x / 2, k - 1);
      ClearBitClears(x / 2, k - 1, j - 1);
    }
  }

  // ---- the bits of a bitmap block ----

  predicate BlockBit(d: Data, bi: nat)
    requires bi < BPB
  {
    HasBit(d[bi / 8], bi % 8)
  }

  function MarkBit(d: Data, bi: nat): (r: Data)
    requires bi < BPB
  {
    OrBitFits(d[bi / 8], bi % 8);
    d[bi / 8 := OrBit(d[bi / 8], bi % 8)]
  }

  function UnmarkBit(d: Data, bi: nat): (r: Data)
    requires bi < BPB
  {
    d[bi / 8 := ClearBit(d[bi / 8], bi % 8)]
  }

  lemma MarkedBits(d: Data, bi: nat, j: nat)
    requires bi < BPB && j < BPB
    ensures BlockBit(MarkBit(d, bi), j) <==> j == bi || BlockBit(d, j)
    ensures BlockBit(UnmarkBit(d, bi), j) <==> j != bi && BlockBit(d, j)
  {
    OrBitSets(d[bi / 8], bi % 8, j % 8);
    ClearBitClears(d[bi / 8], bi % 8, j % 8);
  }
}
