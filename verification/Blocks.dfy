/** Disk blocks, the on-disk log header and single-block writes.
    A block is BSIZE = 1024 bytes, seen here as 256 32-bit words, which is how
    the log header (an int count followed by int block numbers) is laid out. */
module Blocks {

  const MAXOPBLOCKS: nat := 10
  const LOGBLOCKS: nat := 3 * MAXOPBLOCKS
  const WORDS: nat := 256

  type Word = w: int | 0 <= w < 0x1_0000_0000
  type Block = b: seq<Word> | |b| == 256 witness seq(256, _ => 0)
  type Image = seq<Block>

  /** The log occupies the header block `start` and the LOGBLOCKS blocks after it. */
  predicate InLog(start: nat, b: nat) {
    start <= b <= start + LOGBLOCKS
  }

  predicate Distinct(s: seq<nat>) {
    forall i, j :: 0 <= i < j < |s| ==> s[i] != s[j]
  }

  /** Block numbers a transaction may hold: on the disk, outside the log, each once. */
  predicate HomeBlocks(start: nat, size: nat, blocks: seq<nat>) {
    && |blocks| <= LOGBLOCKS
    && Distinct(blocks)
    && forall i :: 0 <= i < |blocks| ==> blocks[i] < size < 0x8000_0000 && !InLog(start, blocks[i])
  }

  /** The header count on disk. */
  function HeaderCount(d: Image, start: nat): (n: nat)
    requires start < |d|
  {
    d[start][0]
  }

  /** The block numbers recorded in the on-disk header. */
  function HeaderBlocks(d: Image, start: nat): (blocks: seq<nat>)
    requires start < |d| && HeaderCount(d, start) <= LOGBLOCKS
    ensures |blocks| == HeaderCount(d, start)
  {
    seq(HeaderCount(d, start), i requires 0 <= i < HeaderCount(d, start) => d[start][1 + i])
  }

  /** What write_head stores: the count and the numbers over the old block,
      whose remaining words stay as they were. */
  function HeaderBlock(old_: Block, blocks: seq<nat>): (h: Block)
    requires |blocks| <= LOGBLOCKS && forall i :: 0 <= i < |blocks| ==> blocks[i] < 0x8000_0000
    ensures h[0] == |blocks|
    ensures forall i :: 0 <= i < |blocks| ==> h[1 + i] == blocks[i]
    ensures forall i :: |blocks| < i < WORDS ==> h[i] == old_[i]
  {
    seq(WORDS, i requires 0 <= i < WORDS =>
      if i == 0 then |blocks| else if i <= |blocks| then blocks[i - 1] else old_[i])
  }

  /** The header on disk is one that recovery can replay. */
  predicate LogReadable(d: Image, start: nat) {
    && start + LOGBLOCKS < |d| < 0x8000_0000
    && HeaderCount(d, start) <= LOGBLOCKS
    && HomeBlocks(start, |d|, HeaderBlocks(d, start))
  }

  /** Replaying the log found on `d` yields the contents `img` outside the log:
      blocks named in the header come from the log area, all others from home. */
  ghost predicate RecoversTo(d: Image, start: nat, img: Image)
    requires LogReadable(d, start)
  {
    && |img| == |d|
    && (forall b :: 0 <= b < |d| && !InLog(start, b) && b !in HeaderBlocks(d, start) ==> d[b] == img[b])
    && (forall i :: 0 <= i < HeaderCount(d, start) ==> d[start + 1 + i] == img[HeaderBlocks(d, start)[i]])
  }

  ghost predicate SameHome(start: nat, x: Image, y: Image) {
    |x| == |y| && forall b :: 0 <= b < |x| && !InLog(start, b) ==> x[b] == y[b]
  }
}
