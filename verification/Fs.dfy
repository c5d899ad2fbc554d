/** Block allocation, the block map and file contents of kernel/fs.c, and the
    chunked filewrite of kernel/file.c. */
module Fs {
  import opened FsBlock
  import opened FsVolume
  import opened FsContent
  import opened FsInode
  import opened FsSpace
  import opened FsTrunc

  const MAXOPBLOCKS: nat := 10

  /** IBLOCK(i, sb) */
  function InodeBlock(sb: Super, i: nat): (b: nat) {
    i / IPB + sb.inodestart
  }

  function Min(a: nat, b: nat): (m: nat) {
    if a <= b then a else b
  }

  function Max(a: nat, b: nat): (m: nat) {
    if a < b then b else a
  }

  lemma SetGrows(xs: set<nat>, b: nat)
    ensures |xs| <= |xs + {b}| <= |xs| + 1
  {
    if b in xs {
      assert xs + {b} == xs;
    }
  }

  /** Every block that differs is among those logged. */
  ghost predicate Covered(d0: seq<Data>, d1: seq<Data>, logged: set<nat>) {
    |d1| == |d0| && forall b :: 0 <= b < |d0| && d1[b] != d0[b] ==> b in logged
  }

  lemma CoveredTwice(d0: seq<Data>, d1: seq<Data>, l1: set<nat>, d2: seq<Data>, l2: set<nat>)
    requires Covered(d0, d1, l1) && Covered(d1, d2, l2) && l1 <= l2
    ensures Covered(d0, d2, l2)
  {
  }

  lemma AllocCovered(sb: Super, disk: seq<Data>, b: nat, logged: set<nat>)
    requires SuperOk(sb) && |disk| == sb.size && b < sb.size && {BmapBlock(sb, b), b} <= logged
    ensures Covered(disk, Marked(sb, disk, b)[b := ZEROES], logged)
  {
  }

  /** A write of n bytes at off to file i has come from v0 to v: nothing has moved, and
      every block that differs is logged. */
  ghost predicate Traced(sb: Super, v0: Vol, logged0: set<nat>, i: nat, off: nat, n: nat, v: Vol, logged: set<nat>) {
    && Shaped(sb, v0) && Shaped(sb, v) && logged0 <= logged
    && Grown(sb, v0, v, i, off, n) && Covered(v0.disk, v.disk, logged)
  }

  lemma TracedNone(sb: Super, v: Vol, logged: set<nat>, i: nat, off: nat, n: nat)
    requires Shaped(sb, v)
    ensures Traced(sb, v, logged, i, off, n, v, logged)
  {
    hide Slot;
  }

  lemma TracedMore(sb: Super, v0: Vol, l0: set<nat>, i: nat, off: nat, n: nat, v: Vol, l: set<nat>, l': set<nat>)
    requires Traced(sb, v0, l0, i, off, n, v, l) && l <= l'
    ensures Traced(sb, v0, l0, i, off, n, v, l')
  {
    hide Grown;
  }

  lemma TracedTwice(sb: Super, u: Vol, l: set<nat>, v: Vol, l1: set<nat>, w: Vol, l2: set<nat>, i: nat, off: nat,
                    n: nat)
    requires Traced(sb, u, l, i, off, n, v, l1) && Traced(sb, v, l1, i, off, n, w, l2)
    ensures Traced(sb, u, l, i, off, n, w, l2)
  {
    hide Grown, Covered;
    GrownTwice(sb, u, v, w, i, off, n);
    CoveredTwice(u.disk, v.disk, l1, w.disk, l2);
  }

  lemma CoveredOne(d0: seq<Data>, b: nat, d: Data, logged: set<nat>)
    requires b < |d0| && b in logged
    ensures Covered(d0, d0[b := d], logged)
  {
  }

  /** 1 if block bn of file i is not allocated yet. */
  ghost function Fresh(v: Vol, i: nat, bn: nat): nat
    requires i < |v.ino| && |v.ino[i].addrs| == NDIRECT + 1 && bn < MAXFILE
  {
    if Slot(v, i, DataSlot(bn)) == 0 then 1 else 0
  }

  ghost function FreshAt(v: Vol, i: nat, cur: nat): nat
    requires i < |v.ino| && |v.ino[i].addrs| == NDIRECT + 1 && cur < MAXFILE * BSIZE
  {
    Fresh(v, i, cur / BSIZE)
  }

  /** |logged|, plus 1 if the indirect block ind is not among them yet, plus 2 if
      there is no indirect block yet. */
  ghost function ChargeOf(ind: nat, logged: set<nat>): nat {
    |logged| + if ind == 0 then 2 else if ind in logged then 0 else 1
  }

  lemma ChargeNone(ind: nat, logged: set<nat>)
    ensures logged == {} ==> ChargeOf(ind, logged) <= 2
  {
  }

  lemma ChargeCounts(ind: nat, logged: set<nat>)
    ensures |logged| <= ChargeOf(ind, logged)
  {
  }

  lemma ChargeGrows(ind: nat, logged: set<nat>, logged': set<nat>, n: nat)
    requires logged <= logged' && |logged'| <= |logged| + n
    ensures ChargeOf(ind, logged') <= ChargeOf(ind, logged) + n
  {
  }

  /** A chunk of a write of n bytes at off, tot of them done, was given up because the
      source can be read no further; k bytes of it had been copied. */
  ghost predicate GaveUp(off: nat, n: nat, tot: nat, readable: nat, k: int) {
    tot <= readable < n && readable < tot + Chunk(off + tot, n - tot) && k == readable - tot
  }

  /** File i had no block yet for position p. */
  ghost predicate WasMissing(v: Vol, i: nat, p: nat) {
    && i < |v.ino| && |v.ino[i].addrs| == NDIRECT + 1 && p / BSIZE < MAXFILE
    && Slot(v, i, DataSlot(p / BSIZE)) == 0
  }

  /** c is what a file with contents c0 reads as after a write at off that copied k bytes
      of src and counted r: beyond the bytes counted the size does not grow. */
  ghost predicate Reads(c: seq<Byte>, c0: seq<Byte>, off: nat, src: seq<Byte>, r: nat, k: nat) {
    && off <= |c0| && r <= k <= |src| && Max(|c0|, off + r) <= |Overwrite(c0, off, src[..k])|
    && c == Overwrite(c0, off, src[..k])[..Max(|c0|, off + r)]
  }

  /** What can be read of a write of n bytes at off is all of it, nothing, or ends where
      a block of the file does. */
  predicate ByBlocks(off: nat, n: nat, readable: nat) {
    readable >= n || readable == 0 || (off + readable) % BSIZE == 0
  }

  /** The count falls short of the copy only inside a block. */
  lemma WhenPartial(v0: Vol, i: nat, off: nat, n: nat, readable: nat, tot: nat, k: nat, full: bool)
    requires Stopped(v0, i, off, n, readable, tot, k, full)
    ensures tot <= k <= n && tot <= readable && (tot == n ==> k == tot)
    ensures !full ==> (k == tot <==> ByBlocks(off, n, readable))
  {
    if tot < n && !full && readable > tot {
      InsideBlock(off + tot, n - tot, readable - tot);
    }
  }

  lemma ChunkFits(off: nat, n: nat, tot: nat, readable: nat)
    requires tot < n && tot <= readable
    ensures var m := Chunk(off + tot, n - tot);
            && 0 < m <= n - tot && (off + tot) % BSIZE + m <= BSIZE
            && (readable < tot + m ==> GaveUp(off, n, tot, readable, readable - tot) && readable < n)
  {
  }

  lemma InsideBlock(cur: nat, left: nat, x: nat)
    requires 0 < x < left && x < Chunk(cur, left)
    ensures (cur + x) % BSIZE != 0
  {
  }

  /** Where a write of n bytes at off ends that counts tot bytes and has copied k: with all
      of them, or before the chunk that it gave up, or that there was no block left for. */
  ghost predicate Stopped(v0: Vol, i: nat, off: nat, n: nat, readable: nat, tot: nat, k: nat, full: bool) {
    && tot <= k <= n && tot <= readable && (tot == n ==> k == tot)
    && (tot < n ==> tot == 0 || (off + tot) % BSIZE == 0)
    && (tot < n ==> GaveUp(off, n, tot, readable, k - tot) || (k == tot && full && WasMissing(v0, i, off + tot)))
  }

  lemma StopsHere(sb: Super, v0: Vol, l0: set<nat>, i: nat, off: nat, n: nat, v: Vol, l: set<nat>, readable: nat,
                  tot: nat, k: nat, w: nat, a: nat, full: bool)
    requires Traced(sb, v0, l0, i, off, n, v, l) && tot < n && tot <= readable && Visited(off, n, tot, w, a)
    requires GaveUp(off, n, tot, readable, k) || (k == 0 && full && WasMissing(v, i, off + tot))
    ensures Stopped(v0, i, off, n, readable, tot, tot + k, full)
  {
    hide Slot, Covered;
  }

  /** What the volume before a write of n bytes at off decides: whether all of them are
      counted, and whether bytes are copied beyond those counted. */
  ghost predicate Settled(sb: Super, v0: Vol, i: nat, off: nat, n: nat, readable: nat, tot: nat, k: nat) {
    && (tot == n <==> n <= readable && Room(sb, v0, i, off, n))
    && (k != tot <==> !ByBlocks(off, n, readable) && Room(sb, v0, i, off, readable))
  }

  /** Two things to tell at once: nothing is copied beyond the count if the source ends with
      a block, and where no block is missing that is the only way. */
  lemma SettledEarly(sb: Super, v0: Vol, owner0: map<nat, (nat, nat)>, i: nat, off: nat, n: nat, readable: nat,
                     tot: nat, k: nat)
    requires Inv(sb, v0, owner0, {}) && i < |v0.ino| && off + n <= MAXFILE * BSIZE
    requires Settled(sb, v0, i, off, n, readable, tot, k)
    ensures ByBlocks(off, n, readable) ==> k == tot
    ensures (forall p: nat :: off <= p < off + readable ==> !WasMissing(v0, i, p)) ==>
              (k == tot <==> ByBlocks(off, n, readable))
  {
    if !ByBlocks(off, n, readable) && forall p: nat :: off <= p < off + readable ==> !WasMissing(v0, i, p) {
      hide Slot, BitsExact, Filled;
      forall p | off <= p < off + readable
        ensures Stored(v0, i, p)
      {
        assert !WasMissing(v0, i, p);
        assert Slot(v0, i, DataSlot(p / BSIZE)) in owner0;
      }
      RoomForNothing(sb, v0, i, off, readable);
    }
  }

  /** The first k bytes of the write have their blocks, and no block was allocated beyond
      the one after them. */
  ghost predicate Placed(sb: Super, v0: Vol, v: Vol, i: nat, off: nat, n: nat, k: nat) {
    Backed(v, i, off, k) && GrownTo(sb, v0, v, i, off, Min(n, k + 1))
  }

  ghost predicate GrownTo(sb: Super, v0: Vol, v: Vol, i: nat, off: nat, n: nat) {
    Shaped(sb, v0) && Shaped(sb, v) && Grown(sb, v0, v, i, off, n)
  }

  lemma GrownNone(sb: Super, v: Vol, i: nat, off: nat)
    requires Shaped(sb, v)
    ensures GrownTo(sb, v, v, i, off, 0)
  {
  }

  /** First n bytes, then more. */
  lemma GrownOn(sb: Super, u: Vol, v: Vol, w: Vol, i: nat, off: nat, n: nat, m: nat, k: nat)
    requires GrownTo(sb, u, v, i, off, n) && GrownTo(sb, v, w, i, off + n, m) && n + m <= k
    ensures GrownTo(sb, u, w, i, off, k)
  {
    forall x: nat | Reaches(x, off, n) || Reaches(x, off + n, m)
      ensures Reaches(x, off, k)
    {
    }
    hide Slot, Reaches;
  }

  lemma SameSlotsBacked(v: Vol, w: Vol, i: nat, off: nat, n: nat)
    requires Backed(v, i, off, n) && i < |w.ino| && |w.ino[i].addrs| == NDIRECT + 1 && |w.disk| == |v.disk|
    requires forall k :: 0 <= k < NSLOTS ==> Slot(w, i, k) == Slot(v, i, k)
    ensures Backed(w, i, off, n)
  {
    hide Slot;
    forall p | off <= p < off + n
      ensures Stored(w, i, p)
    {
      assert Stored(v, i, p);
    }
  }

  /** The disk has no block left and none is there for position p. */
  ghost predicate Dry(sb: Super, v: Vol, i: nat, p: nat) {
    Shaped(sb, v) && FreeBlocks(sb, v.disk) == {} && WasMissing(v, i, p)
  }

  lemma BackedOf(sb: Super, v0: Vol, i: nat, off: nat, src: seq<Byte>, k: nat, v: Vol)
    requires Progress(sb, v0, i, off, src, k, v)
    ensures Backed(v, i, off, k)
  {
  }

  lemma Settle(sb: Super, v0: Vol, owner0: map<nat, (nat, nat)>, v: Vol, owner: map<nat, (nat, nat)>, i: nat,
               off: nat, src: seq<Byte>, readable: nat, tot: nat, k: nat, full: bool)
    requires Inv(sb, v0, owner0, {}) && Inv(sb, v, owner, {}) && i < |v0.ino| && off + |src| <= MAXFILE * BSIZE
    requires Stopped(v0, i, off, |src|, readable, tot, k, full) && Progress(sb, v0, i, off, src, k, v)
    requires GrownTo(sb, v0, v, i, off, Min(|src|, k + 1))
    requires tot == |src| || GaveUp(off, |src|, tot, readable, k - tot) || (k == tot && Dry(sb, v, i, off + tot))
    ensures Settled(sb, v0, i, off, |src|, readable, tot, k) && Placed(sb, v0, v, i, off, |src|, k)
  {
    hide Inv, Slot, Grown, Room, Backed, Progress;
    BackedOf(sb, v0, i, off, src, k, v);
    var n := |src|;
    var g := Min(n, k + 1);
    if k == tot < n && Dry(sb, v, i, off + tot) {
      NoRoomThere(sb, v0, owner0, v, owner, i, off, n, readable, tot);
    } else {
      ThereWasRoom(sb, v0, owner0, v, owner, i, off, g, k);
    }
    if tot < n && GaveUp(off, n, tot, readable, k - tot) && readable > tot {
      InsideBlock(off + tot, n - tot, readable - tot);
    }
  }

  lemma NoRoomThere(sb: Super, v0: Vol, owner0: map<nat, (nat, nat)>, v: Vol, owner: map<nat, (nat, nat)>, i: nat,
                    off: nat, n: nat, readable: nat, tot: nat)
    requires Inv(sb, v0, owner0, {}) && Inv(sb, v, owner, {}) && i < |v0.ino| && off + n <= MAXFILE * BSIZE
    requires tot < n && GrownTo(sb, v0, v, i, off, tot + 1) && Dry(sb, v, i, off + tot)
    ensures !Room(sb, v0, i, off, n) && (tot < readable ==> !Room(sb, v0, i, off, readable))
  {
    hide Inv, Slot, Grown, Room;
    ThereWasNoRoom(sb, v0, owner0, v, owner, i, off, off + tot, n);
    if tot < readable {
      ThereWasNoRoom(sb, v0, owner0, v, owner, i, off, off + tot, readable);
    }
  }

  lemma FirstThere(sb: Super, v: Vol, owner: map<nat, (nat, nat)>, i: nat)
    requires Inv(sb, v, owner, {}) && i < |v.ino| && v.ino[i].size > 0
    ensures !WasMissing(v, i, 0)
  {
    hide Owned, BitsExact, Slot;
    InsideFilled(sb, v, i, 0);
  }

  lemma FirstByteOnly(v0: Vol, i: nat, src: seq<Byte>, r: nat, k: nat, full: bool, c0: seq<Byte>, c: seq<Byte>)
    requires |src| == 2 && Stopped(v0, i, 0, 2, 1, r, k, full) && !WasMissing(v0, i, 0)
    requires |c0| > 0 && Reads(c, c0, 0, src, r, k)
    ensures r == 0 && c == c0[0 := src[0]]
  {
  }

  lemma StopsAtEnd(v0: Vol, i: nat, off: nat, n: nat, readable: nat, full: bool)
    ensures n <= readable ==> Stopped(v0, i, off, n, readable, n, n, full)
  {
  }

  lemma NoStray(logged: set<nat>)
    ensures logged + {} == logged
  {
  }

  /** Every bit below n is set. */
  ghost predicate AllSet(sb: Super, disk: seq<Data>, n: nat)
    requires SuperOk(sb) && |disk| == sb.size
  {
    forall j :: 0 <= j < sb.size && j < n ==> Bit(sb, disk, j)
  }

  class Fs {
    const sb: Super
    var disk: seq<Data>       // the blocks, as bread returns them
    var ino: seq<Inode>       // in-memory inodes
    var itable: seq<Data>     // the inode blocks
    ghost var owner: map<nat, (nat, nat)>
    ghost var logged: set<nat>   // distinct blocks logged by the current operation
    ghost var peak: nat          // the most blocks already logged at any log_write of it

    ghost function V(): Vol
      reads this
    {
      Vol(disk, ino)
    }

    ghost predicate Good(hand: set<nat>)
      reads this
    {
      Inv(sb, V(), owner, hand)
    }

    ghost predicate Valid()
      reads this
    {
      Good({})
    }

    ghost predicate DiskFull()
      reads this`disk
    {
      SuperOk(sb) && |disk| == sb.size && forall j :: 0 <= j < sb.size ==> Bit(sb, disk, j)
    }

    /** What bmap promises: the block's address, or 0 on a full disk; every byte
        of every file is kept; an allocated block is returned as it is. */
    ghost predicate Mapped(i: nat, bn: nat, addr: nat, was: Vol, wasLogged: set<nat>, wasPeak: nat)
      requires Shaped(sb, was) && i < |was.ino| && bn < MAXFILE
      reads this
    {
      && Valid() && KeepsBytes(sb, was, V()) && Grown(sb, was, V(), i, bn * BSIZE, 1)
      && (addr != 0 ==> addr < sb.size && Slot(V(), i, DataSlot(bn)) == addr)
      && (addr == 0 ==> Slot(V(), i, DataSlot(bn)) == 0 && forall j :: 0 <= j < sb.size ==> Bit(sb, disk, j))
      && (Slot(was, i, DataSlot(bn)) != 0 ==> addr != 0 && V() == was && logged == wasLogged && peak == wasPeak)
      && wasLogged <= logged && peak <= Max(wasPeak, |logged|) && Covered(was.disk, disk, logged)
    }

    ghost predicate Tabled()
      reads this`itable
    {
      TableOk(sb, itable)
    }

    /** The inodes on disk, as of each one's last iupdate. */
    ghost function Dino(): seq<Inode>
      requires Tabled()
      reads this`itable
    {
      Dinodes(sb, itable)
    }

    constructor (sb: Super, disk: seq<Data>, ino: seq<Inode>, itable: seq<Data>, ghost owner: map<nat, (nat, nat)>)
      requires Inv(sb, Vol(disk, ino), owner, {}) && TableOk(sb, itable) && Dinodes(sb, itable) == ino
      ensures Valid() && Tabled() && this.sb == sb && this.disk == disk && this.ino == ino && Dino() == ino
        && this.owner == owner
      ensures logged == {} && peak == 0
    {
      this.sb := sb;
      this.disk := disk;
      this.ino := ino;
      this.itable := itable;
      this.owner := owner;
      this.logged := {};
      this.peak := 0;
    }

    /** log_write, as far as the count of blocks goes. */
    ghost method LogWrite(b: nat)
      modifies this`logged, this`peak
      ensures logged == old(logged) + {b} && peak == Max(old(peak), |old(logged)|)
      ensures |old(logged)| <= |logged| <= |old(logged)| + 1
    {
      peak := Max(peak, |logged|);
      SetGrows(logged, b);
      logged := logged + {b};
    }

    /** Mark block b, whose bit is bit bi of block m, in use and zero it. */
    method TakeBlock(m: nat, bi: nat, b: nat)
      requires Shaped(sb, V()) && b < sb.size && m == BmapBlock(sb, b) && bi == BitIndex(b)
      modifies this`disk, this`logged, this`peak
      ensures disk == Marked(sb, old(disk), b)[b := ZEROES]
      ensures logged == old(logged) + {m, b} && |logged| <= |old(logged)| + 2 && peak <= Max(old(peak), |logged|)
    {
      hide MarkBit, BmapBlock, BitIndex;
      disk := disk[m := MarkBit(disk[m], bi)];
      LogWrite(m);
      disk := disk[b := ZEROES];
      LogWrite(b);
      assert old(logged) + {m} + {b} == old(logged) + {m, b};
    }

    /** balloc: the lowest-numbered free block, marked and zeroed; 0 if there is none. */
    method Balloc(ghost hand: set<nat>) returns (b: nat)
      requires Good(hand)
      modifies this`disk, this`logged, this`peak
      ensures b == 0 ==> disk == old(disk) && logged == old(logged) && peak == old(peak)
                         && forall j :: 0 <= j < sb.size ==> Bit(sb, old(disk), j)
      ensures b != 0 ==> b < sb.size && !Bit(sb, old(disk), b) && forall j :: 0 <= j < b ==> Bit(sb, old(disk), j)
      ensures b != 0 ==> disk == Marked(sb, old(disk), b)[b := ZEROES]
      ensures b != 0 ==> logged == old(logged) + {BmapBlock(sb, b), b}
      ensures b != 0 ==> |logged| <= |old(logged)| + 2 && peak <= Max(old(peak), |logged|)
    {
      hide Owned, Filled, BitsExact, BlockBit, Bit, Marked, BmapBlock, BitIndex;
      var base := 0;
      while base < sb.size
        invariant base % BPB == 0 && disk == old(disk) && logged == old(logged) && peak == old(peak)
        invariant AllSet(sb, disk, base)
      {
        var bi := FirstClear(base);
        if bi < BPB && base + bi < sb.size {
          b := base + bi;
          BitPosition(sb, disk, base, bi);
          NonzeroBlock(sb, disk, owner, hand, b);
          TakeBlock(base / BPB + sb.bmapstart, bi, b);
          return;
        }
        base := base + BPB;
      }
      b := 0;
    }

    /** The inner loop of balloc: the first clear bit of one bitmap block. */
    method FirstClear(base: nat) returns (bi: nat)
      requires Shaped(sb, V()) && base % BPB == 0 && base < sb.size && AllSet(sb, disk, base)
      ensures bi <= BPB && AllSet(sb, disk, base + bi) && (bi == BPB || base + bi <= sb.size)
      ensures bi < BPB && base + bi < sb.size ==> !Bit(sb, disk, base + bi)
    {
      hide BlockBit, Bit;
      var m := base / BPB + sb.bmapstart;
      bi := 0;
      while bi < BPB && base + bi < sb.size
        invariant bi <= BPB && base + bi <= sb.size && AllSet(sb, disk, base + bi)
      {
        BitPosition(sb, disk, base, bi);
        if !BlockBit(disk[m], bi) {
          break;
        }
        bi := bi + 1;
      }
    }

    /** bfree; ok is false where the kernel panics with "freeing free block". */
    method Bfree(b: nat) returns (ok: bool)
      requires Shaped(sb, V()) && b < sb.size
      modifies this`disk, this`logged, this`peak
      ensures ok <==> Bit(sb, old(disk), b)
      ensures disk == if ok then Unmarked(sb, old(disk), b) else old(disk)
      ensures old(logged) <= logged && Covered(old(disk), disk, logged)
    {
      var m := b / BPB + sb.bmapstart;
      var bi := b % BPB;
      if !BlockBit(disk[m], bi) {
        return false;
      }
      disk := disk[m := UnmarkBit(disk[m], bi)];
      LogWrite(m);
      ok := true;
    }

    // ---- bmap ----

    /** Allocate a block into the empty slot k of inode i; 0 if the disk is full. */
    method AllocInto(i: nat, k: nat) returns (addr: nat)
      requires Valid() && i < |ino| && k <= NDIRECT && ino[i].addrs[k] == 0
      modifies this`disk, this`ino, this`owner, this`logged, this`peak
      ensures Valid() && KeepsBytes(sb, old(V()), V())
      ensures addr == 0 ==>
          V() == old(V()) && logged == old(logged) && forall j :: 0 <= j < sb.size ==> Bit(sb, disk, j)
      ensures addr != 0 ==> addr < sb.size && SlotFilled(sb, old(V()), i, k, addr, V())
      ensures addr != 0 ==> logged == old(logged) + {BmapBlock(sb, addr), addr}
      ensures peak <= Max(old(peak), |logged|) && Covered(old(disk), disk, logged)
    {
      hide Owned, Filled, BitsExact, Slot, KeepsBytes, SlotFilled, Marked, Bit, Covered;
      assert Slot(V(), i, k) == 0 by {
        DirectSlot(V(), i, k);
      }
      addr := Balloc({});
      if addr != 0 {
        ghost var v0 := old(V());
        ghost var v1 := v0.(disk := Marked(sb, v0.disk, addr)[addr := ZEROES]);
        AllocKeepsInv(sb, v0, owner, {}, addr);
        AllocKeepsBytes(sb, v0, owner, {}, addr);
        AllocCovered(sb, v0.disk, addr, logged);
        AttachKeepsInv(sb, v1, owner, {addr}, i, k, addr);
        AttachKeepsBytes(sb, v1, owner, {addr}, i, k, addr);
        ino := ino[i := ino[i].(addrs := ino[i].addrs[k := addr])];
        owner := owner[addr := (i, k)];
        assert V() == WithAddr(v1, i, k, addr);
        KeepsBytesTransitive(sb, v0, v1, V());
        FilledThrough(sb, v0, v1, i, k, addr, V());
        assert {addr} - {addr} == {};
      } else {
        NothingChanged(sb, V());
      }
    }

    /** Allocate a block into the empty entry e of inode i's indirect block. */
    method AllocEntry(i: nat, e: nat) returns (addr: nat)
      requires Valid() && i < |ino| && e < NINDIRECT && 0 < ino[i].addrs[NDIRECT] < sb.size
      requires Word(disk[ino[i].addrs[NDIRECT]], e) == 0
      modifies this`disk, this`owner, this`logged, this`peak
      ensures Valid() && KeepsBytes(sb, old(V()), V())
      ensures addr == 0 ==>
          disk == old(disk) && logged == old(logged) && forall j :: 0 <= j < sb.size ==> Bit(sb, disk, j)
      ensures addr != 0 ==> addr < sb.size && SlotFilled(sb, old(V()), i, NDIRECT + 1 + e, addr, V())
      ensures addr != 0 ==> logged == old(logged) + {BmapBlock(sb, addr), addr} + {ino[i].addrs[NDIRECT]}
      ensures peak <= Max(old(peak), |logged|) && Covered(old(disk), disk, logged)
    {
      hide Owned, Filled, BitsExact, Slot, KeepsBytes, SlotFilled, Marked, Bit, SetWord, Word, Covered;
      var ind := ino[i].addrs[NDIRECT];
      EntrySlot(V(), i, e);
      addr := Balloc({});
      if addr != 0 {
        ghost var v0 := old(V());
        ghost var v1 := v0.(disk := Marked(sb, v0.disk, addr)[addr := ZEROES]);
        AllocKeepsInv(sb, v0, owner, {}, addr);
        AllocKeepsBytes(sb, v0, owner, {}, addr);
        AllocCovered(sb, v0.disk, addr, logged);
        AttachEntryKeepsInv(sb, v1, owner, {addr}, i, e, addr);
        AttachEntryKeepsBytes(sb, v1, owner, {addr}, i, e, addr);
        ghost var d1, l1 := disk, logged;
        disk := disk[ind := SetWord(disk[ind], e, addr)];
        LogWrite(ind);
        CoveredOne(d1, ind, SetWord(d1[ind], e, addr), logged);
        CoveredTwice(old(disk), d1, l1, disk, logged);
        owner := owner[addr := (i, NDIRECT + 1 + e)];
        assert V() == WithEntry(v1, i, e, addr);
        KeepsBytesTransitive(sb, v0, v1, V());
        FilledThrough(sb, v0, v1, i, NDIRECT + 1 + e, addr, V());
        assert {addr} - {addr} == {};
      } else {
        NothingChanged(sb, V());
      }
    }

    /** bmap for a direct block. */
    method BmapDirect(i: nat, bn: nat) returns (addr: nat)
      requires Valid() && i < |ino| && bn < NDIRECT
      modifies this`disk, this`ino, this`owner, this`logged, this`peak
      ensures Mapped(i, bn, addr, old(V()), old(logged), old(peak))
      ensures ino[i].addrs[NDIRECT] == old(ino)[i].addrs[NDIRECT]
      ensures addr == 0 ==> logged == old(logged)
      ensures addr != 0 ==>
        ChargeOf(ino[i].addrs[NDIRECT], logged + {addr}) <= old(Charge(i)) + 1 + Fresh(old(V()), i, bn)
    {
      hide Owned, Filled, BitsExact, Slot, KeepsBytes, Bit, Covered, Grown;
      DirectSlot(V(), i, bn);
      DirectSlot(V(), i, NDIRECT);
      NothingChanged(sb, V());
      addr := ino[i].addrs[bn];
      if addr == 0 {
        addr := AllocInto(i, bn);
        if addr != 0 {
          GrowTwo(old(logged), BmapBlock(sb, addr), addr);
          ChargeGrows(ino[i].addrs[NDIRECT], old(logged), logged + {addr}, 2);
          FillGrows(sb, old(V()), i, bn, addr, V(), bn * BSIZE, 1);
          DirectSlot(V(), i, bn);
          DirectSlot(V(), i, NDIRECT);
        }
      } else {
        SetGrows(logged, addr);
        ChargeGrows(ino[i].addrs[NDIRECT], logged, logged + {addr}, 1);
        SlotBound(sb, V(), owner, i, bn);
      }
    }

    /** bmap for entry e of an indirect block that is there. */
    method BmapEntry(i: nat, e: nat) returns (addr: nat)
      requires Valid() && i < |ino| && e < NINDIRECT && ino[i].addrs[NDIRECT] != 0
      modifies this`disk, this`owner, this`logged, this`peak
      ensures Mapped(i, NDIRECT + e, addr, old(V()), old(logged), old(peak))
      ensures addr == 0 ==> logged == old(logged)
      ensures addr != 0 ==>
        ChargeOf(ino[i].addrs[NDIRECT], logged + {addr}) <= old(Charge(i)) + 1 + Fresh(old(V()), i, NDIRECT + e)
    {
      hide Owned, Filled, BitsExact, Slot, KeepsBytes, Bit, Word, SlotFilled, Covered, Grown;
      var ind := ino[i].addrs[NDIRECT];
      DirectSlot(V(), i, NDIRECT);
      SlotBound(sb, V(), owner, i, NDIRECT);
      EntrySlot(V(), i, e);
      NothingChanged(sb, V());
      addr := Word(disk[ind], e);
      if addr == 0 {
        addr := AllocEntry(i, e);
        if addr != 0 {
          EntryCharge(old(logged), BmapBlock(sb, addr), addr, ind);
          FilledSlot(sb, old(V()), i, NDIRECT + 1 + e, addr, V());
          FillGrows(sb, old(V()), i, NDIRECT + 1 + e, addr, V(), (NDIRECT + e) * BSIZE, 1);
        }
      } else {
        SetGrows(logged, addr);
        ChargeGrows(ind, logged, logged + {addr}, 1);
        SlotBound(sb, V(), owner, i, NDIRECT + 1 + e);
      }
    }

    /** Blocks logged, plus those that using the indirect block may still add. */
    ghost function Charge(i: nat): nat
      requires i < |ino| && |ino[i].addrs| == NDIRECT + 1
      reads this`ino, this`logged
    {
      ChargeOf(ino[i].addrs[NDIRECT], logged)
    }

    /** bmap for an indirect entry of a file without an indirect block. */
    method BmapNewIndirect(i: nat, e: nat) returns (addr: nat)
      requires Valid() && i < |ino| && e < NINDIRECT && ino[i].addrs[NDIRECT] == 0
      modifies this`disk, this`ino, this`owner, this`logged, this`peak
      ensures Mapped(i, NDIRECT + e, addr, old(V()), old(logged), old(peak))
      ensures addr == 0 ==> Charge(i) <= old(Charge(i))
      ensures addr != 0 ==>
        ChargeOf(ino[i].addrs[NDIRECT], logged + {addr}) <= old(Charge(i)) + 1 + Fresh(old(V()), i, NDIRECT + e)
    {
      hide Owned, Filled, BitsExact, Slot, KeepsBytes, Bit, Word, SlotFilled, Covered, Grown;
      NoEntries(V(), i, e);
      DirectSlot(V(), i, NDIRECT);
      NothingChanged(sb, V());
      var ind := AllocInto(i, NDIRECT);
      if ind == 0 {
        return 0;
      }
      ghost var v1, l1 := V(), logged;
      GrowTwo(old(logged), BmapBlock(sb, ind), ind);
      assert old(logged) + {BmapBlock(sb, ind), ind} + {ind} == logged;
      FilledSlot(sb, old(V()), i, NDIRECT, ind, V());
      FilledOther(sb, old(V()), i, NDIRECT, ind, V(), NDIRECT + 1 + e);
      DirectSlot(V(), i, NDIRECT);
      assert Charge(i) <= old(Charge(i));
      addr := BmapEntry(i, e);
      KeepsBytesTransitive(sb, old(V()), v1, V());
      CoveredTwice(old(disk), v1.disk, l1, disk, logged);
      FillGrows(sb, old(V()), i, NDIRECT, ind, v1, (NDIRECT + e) * BSIZE, 1);
      GrownTwice(sb, old(V()), v1, V(), i, (NDIRECT + e) * BSIZE, 1);
      SubsetSize(l1, logged);
    }

    /** bmap. */
    method Bmap(i: nat, bn: nat) returns (addr: nat)
      requires Valid() && i < |ino| && bn < MAXFILE
      modifies this`disk, this`ino, this`owner, this`logged, this`peak
      ensures Mapped(i, bn, addr, old(V()), old(logged), old(peak))
      ensures addr == 0 ==> Charge(i) <= old(Charge(i))
      ensures addr != 0 ==>
        ChargeOf(ino[i].addrs[NDIRECT], logged + {addr}) <= old(Charge(i)) + 1 + Fresh(old(V()), i, bn)
    {
      hide Owned, Filled, BitsExact, Slot, KeepsBytes, Bit, Word, SlotFilled, ChargeOf, Covered, Grown;
      if bn < NDIRECT {
        addr := BmapDirect(i, bn);
      } else if ino[i].addrs[NDIRECT] == 0 {
        addr := BmapNewIndirect(i, bn - NDIRECT);
      } else {
        addr := BmapEntry(i, bn - NDIRECT);
      }
    }

    // ---- writei ----

    /** bmap for the next chunk of writei. */
    method MapChunk(i: nat, off: nat, src: seq<Byte>, tot: nat, ghost v0: Vol) returns (addr: nat)
      requires Valid() && i < |ino| && Progress(sb, v0, i, off, src, tot, V()) && tot < |src|
      modifies this`disk, this`ino, this`owner, this`logged, this`peak
      ensures Valid() && Shaped(sb, old(V())) && Shaped(sb, V()) && Progress(sb, v0, i, off, src, tot, V())
      ensures off + tot < MAXFILE * BSIZE && |ino| == old(|ino|) && |ino[i].addrs| == NDIRECT + 1 == |old(ino[i].addrs)|
      ensures ino[i].size == old(ino)[i].size && old(logged) <= logged && peak <= Max(old(peak), |logged|)
      ensures Grown(sb, old(V()), V(), i, off, |src|) && Grown(sb, old(V()), V(), i, off + tot, 1)
      ensures Covered(old(disk), disk, logged)
      ensures addr != 0 ==> addr < sb.size && Slot(V(), i, DataSlot((off + tot) / BSIZE)) == addr
      ensures addr == 0 ==> DiskFull() && WasMissing(old(V()), i, off + tot) && Dry(sb, V(), i, off + tot)
      ensures addr == 0 ==> Charge(i) <= old(Charge(i))
      ensures addr != 0 ==>
        ChargeOf(ino[i].addrs[NDIRECT], logged + {addr}) <= old(Charge(i)) + 1 + FreshAt(old(V()), i, off + tot)
    {
      hide Owned, Filled, BitsExact, Slot, KeepsBytes, Bit, Progress, ChargeOf, Fresh, Covered, Grown;
      ChunkInFile(sb, v0, i, off, src, tot, V());
      var cur := off + tot;
      addr := Bmap(i, cur / BSIZE);
      ProgressMapped(sb, v0, i, off, src, tot, old(V()), V());
      SizesKept(sb, old(V()), V());
      GrownWithin(sb, old(V()), V(), i, cur, off, |src|);
      GrownWithin(sb, old(V()), V(), i, cur, cur, 1);
    }

    /** either_copyin of n bytes into the block. */
    method CopyChunk(i: nat, off: nat, src: seq<Byte>, tot: nat, n: nat, addr: nat, ghost v0: Vol, ghost u: Vol)
      requires Valid() && i < |ino| && Progress(sb, v0, i, off, src, tot, V()) && 0 < n && tot + n <= |src|
      requires (off + tot) % BSIZE + n <= BSIZE && addr != 0 && (off + tot) / BSIZE < MAXFILE
      requires Slot(V(), i, DataSlot((off + tot) / BSIZE)) == addr && GrownTo(sb, u, V(), i, off, |src|)
      requires GrownTo(sb, u, V(), i, off + tot, 1) && Covered(u.disk, disk, logged)
      modifies this`disk
      ensures Valid() && Progress(sb, v0, i, off, src, tot + n, V()) && GrownTo(sb, u, V(), i, off, |src|)
      ensures GrownTo(sb, u, V(), i, off + tot, 1) && Covered(u.disk, disk, logged + {addr})
    {
      hide Owned, Filled, BitsExact, Slot, Bit, Progress, Splice, Covered, Grown;
      ProgressChunk(sb, v0, i, off, src, tot, V(), owner, {}, n, addr);
      ghost var v1 := V();
      disk := disk[addr := Splice(disk[addr], (off + tot) % BSIZE, src[tot..tot + n])];
      SameSlotsGrow(sb, u, v1, V(), i, off, |src|);
      SameSlotsGrow(sb, u, v1, V(), i, off + tot, 1);
      CoveredOne(v1.disk, addr, disk[addr], logged + {addr});
      CoveredTwice(u.disk, v1.disk, logged, disk, logged + {addr});
    }

    /** One pass of writei's loop; m is 0 if it breaks off.  The first `readable` bytes of
        src can be copied in.  A chunk that reaches beyond them is copied as far as they
        go, and then given up: k bytes have been copied, but the block is not logged. */
    method WriteStep(i: nat, off: nat, src: seq<Byte>, tot: nat, readable: nat, ghost v0: Vol)
      returns (m: nat, ghost k: nat, ghost stray: set<nat>)
      requires Valid() && i < |ino| && Progress(sb, v0, i, off, src, tot, V()) && tot < |src| && tot <= readable
      modifies this`disk, this`ino, this`owner, this`logged, this`peak
      ensures Valid() && m <= k && tot + k <= |src| && Progress(sb, v0, i, off, src, tot + k, V())
      ensures (stray == {} <==> k == m) && |stray| <= 1
      ensures m == 0 ==>
        || GaveUp(off, |src|, tot, readable, k)
        || (k == 0 && DiskFull() && WasMissing(old(V()), i, off + tot) && Dry(sb, V(), i, off + tot))
      ensures GrownTo(sb, old(V()), V(), i, off + tot, 1) && (m == 0 ==> tot + k < |src|)
      ensures m > 0 ==> m == Chunk(off + tot, |src| - tot) == k && tot + m <= readable
      ensures Charge(i) <= old(Charge(i)) + 1 + FreshAt(old(V()), i, off + tot)
      ensures Traced(sb, old(V()), old(logged), i, off, |src|, V(), logged + stray)
      ensures old(logged) <= logged && |old(logged)| <= |logged| && peak <= Max(old(peak), |logged|)
      ensures |ino| == old(|ino|) && |ino[i].addrs| == NDIRECT + 1 && ino[i].size == old(ino)[i].size
    {
      hide Inv, Slot, Progress, ChargeOf, FreshAt, Covered, Grown, Dry, WasMissing, DiskFull, GaveUp, Chunk;
      k, stray := 0, {};
      var cur := off + tot;
      var addr := MapChunk(i, off, src, tot, v0);
      SubsetSize(old(logged), logged);
      NoStray(logged);
      if addr == 0 {
        return 0, 0, {};
      }
      m := Chunk(cur, |src| - tot);
      ChunkFits(off, |src|, tot, readable);
      ChargeMonotone(ino[i].addrs[NDIRECT], logged, addr);
      var copied := if tot + m > readable then readable - tot else m;
      if copied == 0 {
        return 0, 0, {};
      }
      ghost var l1 := logged;
      CopyChunk(i, off, src, tot, copied, addr, v0, old(V()));
      k := copied;
      if copied < m {
        return 0, copied, {addr};
      }
      LogWrite(addr);
      assert logged + {} == l1 + {addr};
    }

    /** iupdate: the in-memory inode goes to its place in its disk block, which is logged;
        all other inodes on disk stay as they are. */
    method Iupdate(i: nat)
      requires Tabled() && i < |ino| == sb.ninodes && Fits(ino[i])
      modifies this`itable, this`logged, this`peak
      ensures Tabled() && Dino() == old(Dino())[i := ino[i]]
      ensures forall b :: 0 <= b < |itable| && itable[b] != old(itable)[b] ==> b + sb.inodestart == InodeBlock(sb, i)
      ensures logged == old(logged) + {InodeBlock(sb, i)} && |logged| <= |old(logged)| + 1
      ensures peak == Max(old(peak), |old(logged)|)
    {
      hide PutInode, Dinodes;
      StoreOne(sb, itable, i, ino[i]);
      itable := itable[i / IPB := PutInode(itable[i / IPB], i % IPB, ino[i])];
      LogWrite(i / IPB + sb.inodestart);
    }

    /** writei's loop has come from the volume v0, with l0 logged, through w chunks, a of
        them in blocks that had to be allocated.  It has copied k bytes. */
    ghost predicate Going(i: nat, off: nat, src: seq<Byte>, k: nat, v0: Vol, l0: set<nat>, peak0: nat, charge0: nat,
                          w: nat, a: nat, stray: set<nat>)
      reads this
    {
      && Valid() && i < |ino| == |v0.ino| && |ino[i].addrs| == NDIRECT + 1
      && off <= v0.ino[i].size == ino[i].size && Progress(sb, v0, i, off, src, k, V())
      && Traced(sb, v0, l0, i, off, |src|, V(), logged + stray) && peak <= Max(peak0, |logged|)
      && Charge(i) <= charge0 + w + a && Counts(off, |src|, w, a)
    }

    /** One pass of writei's loop, in its place in the loop. */
    method WriteRound(i: nat, off: nat, src: seq<Byte>, tot: nat, readable: nat, ghost v0: Vol, ghost l0: set<nat>,
                      ghost peak0: nat, ghost charge0: nat, ghost w: nat, ghost a: nat)
      returns (m: nat, ghost k: nat, ghost stray: set<nat>, ghost f: nat)
      requires Going(i, off, src, tot, v0, l0, peak0, charge0, w, a, {}) && tot < |src| && tot <= readable
      requires Visited(off, |src|, tot, w, a) && GrownTo(sb, v0, V(), i, off, tot)
      modifies this`disk, this`ino, this`owner, this`logged, this`peak
      ensures Going(i, off, src, tot + k, v0, l0, peak0, charge0, w + 1, a + f, stray)
      ensures m > 0 ==> m == k && tot + m <= readable && tot + m <= |src| && stray == {}
      ensures m > 0 ==> Visited(off, |src|, tot + m, w + 1, a + f)
      ensures GrownTo(sb, v0, V(), i, off, if m > 0 then tot + m else tot + k + 1)
      ensures m == 0 ==>
        tot + k < |src| && (GaveUp(off, |src|, tot, readable, k) || (k == 0 && Dry(sb, V(), i, off + tot)))
      ensures m == 0 ==> Stopped(v0, i, off, |src|, readable, tot, tot + k, DiskFull())
      ensures m == 0 ==> (stray == {} <==> k == 0) && |stray| <= 1
    {
      hide Inv, Shaped, Progress, ChargeOf, FreshAt, Visited, Counts, Chunk, DiskFull, Traced, GaveUp, WasMissing;
      hide Stopped, GrownTo, Dry;
      NoStray(logged);
      f := VisitStep(sb, v0, src, V(), owner, i, off, tot, w, a);
      ghost var v1, l1 := V(), logged;
      m, k, stray := WriteStep(i, off, src, tot, readable, v0);
      TracedTwice(sb, v0, l0, v1, l1, V(), logged + stray, i, off, |src|);
      GrownOn(sb, v0, v1, V(), i, off, tot, 1, if m > 0 then tot + m else tot + k + 1);
      if m == 0 {
        StopsHere(sb, v0, l0, i, off, |src|, v1, l1, readable, tot, k, w, a, DiskFull());
      }
    }

    /** The loop of writei: all chunks, or those before the first that failed. */
    method WriteLoop(i: nat, off: nat, src: seq<Byte>, readable: nat)
      returns (tot: nat, ghost k: nat, ghost stray: set<nat>)
      requires Valid() && i < |ino| && off <= ino[i].size && off + |src| <= MAXFILE * BSIZE
      modifies this`disk, this`ino, this`owner, this`logged, this`peak
      ensures Valid() && Progress(sb, old(V()), i, off, src, k, V())
      ensures Stopped(old(V()), i, off, |src|, readable, tot, k, DiskFull())
      ensures Settled(sb, old(V()), i, off, |src|, readable, tot, k)
      ensures Placed(sb, old(V()), V(), i, off, |src|, k)
      ensures (stray == {} <==> k == tot) && |stray| <= 1
      ensures Traced(sb, old(V()), old(logged), i, off, |src|, V(), logged + stray)
      ensures |ino| == old(|ino|) && (|src| <= 3 * BSIZE ==> Charge(i) <= old(Charge(i)) + 7)
      ensures peak <= Max(old(peak), |logged|)
    {
      hide Inv, Shaped, Progress, ChargeOf, Visited, Counts, DiskFull, Traced, Stopped, GrownTo, Dry, GaveUp, Settled;
      hide Placed;
      InodeShape(sb, V(), owner, i);
      GrownNone(sb, V(), i, off);
      TracedNone(sb, V(), logged, i, off, |src|);
      ghost var v0, l0, peak0, charge0, w, a := V(), logged, peak, Charge(i), 0, 0;
      tot, k, stray := 0, 0, {};
      NoStray(logged);
      ProgressNone(sb, v0, i, off, src);
      VisitNone(off, |src|);
      while tot < |src|
        invariant k == tot <= |src| && tot <= readable && stray == {}
        invariant Going(i, off, src, tot, v0, l0, peak0, charge0, w, a, {}) && Visited(off, |src|, tot, w, a)
        invariant GrownTo(sb, v0, V(), i, off, tot)
      {
        var m;
        ghost var c, f;
        m, c, stray, f := WriteRound(i, off, src, tot, readable, v0, l0, peak0, charge0, w, a);
        k, w, a := tot + c, w + 1, a + f;
        if m == 0 {
          break;
        }
        tot := tot + m;
      }
      if tot == |src| {
        StopsAtEnd(v0, i, off, |src|, readable, DiskFull());
      }
      Settle(sb, v0, old(owner), V(), owner, i, off, src, readable, tot, k, DiskFull());
      CountBound(off, |src|, w, a);
    }

    /** The end of writei: the size reaches the last byte counted. */
    method SetSize(i: nat, off: nat, src: seq<Byte>, tot: nat, ghost k: nat, ghost v0: Vol, ghost l0: set<nat>,
                   ghost l: set<nat>, ghost owner0: map<nat, (nat, nat)>)
      requires Valid() && i < |v0.ino| && Inv(sb, v0, owner0, {}) && Progress(sb, v0, i, off, src, k, V())
      requires off <= v0.ino[i].size && tot <= k && Traced(sb, v0, l0, i, off, |src|, V(), l)
      requires Placed(sb, v0, V(), i, off, |src|, k)
      modifies this`ino
      ensures Valid() && |ino| == |v0.ino| && Shaped(sb, v0) && Traced(sb, v0, l0, i, off, |src|, V(), l)
      ensures Shaped(sb, V()) && Reads(Content(sb, V(), i), Content(sb, v0, i), off, src, tot, k)
      ensures forall j :: 0 <= j < |ino| && j != i ==> Content(sb, V(), j) == Content(sb, v0, j)
      ensures ino[i].addrs == old(ino[i].addrs) && Placed(sb, v0, V(), i, off, |src|, k)
    {
      hide Owned, Filled, BitsExact, Slot, Bit, Progress, Content, Overwrite, Grown, Covered, Backed;
      ghost var v1 := V();
      SizesOfProgress(sb, v0, i, off, src, k, v1);
      ProgressDone(sb, v0, i, off, src, tot, k, v1, owner0, owner);
      if off + tot > ino[i].size {
        ino := ino[i := ino[i].(size := off + tot)];
      }
      assert V() == WithSize(v1, i, if off + tot > v1.ino[i].size then off + tot else v1.ino[i].size);
      SizeKeepsSlots(sb, v1, i, ino[i].size);
      SameSlotsGrow(sb, v0, v1, V(), i, off, |src|);
      SameSlotsGrow(sb, v0, v1, V(), i, off, Min(|src|, k + 1));
      SameSlotsBacked(v1, V(), i, off, k);
      SizeOf(sb, v0, i);
    }

    /** writei, once the arguments are accepted. */
    method WriteAll(i: nat, off: nat, src: seq<Byte>, readable: nat)
      returns (r: nat, ghost k: nat, ghost stray: set<nat>)
      requires Valid() && Tabled() && i < |ino| && off <= ino[i].size && off + |src| <= MAXFILE * BSIZE
      modifies this`disk, this`ino, this`itable, this`owner, this`logged, this`peak
      ensures Valid() && Tabled() && |ino| == old(|ino|) && Dino() == old(Dino())[i := ino[i]]
      ensures Stopped(old(V()), i, off, |src|, readable, r, k, DiskFull())
      ensures Settled(sb, old(V()), i, off, |src|, readable, r, k)
      ensures Placed(sb, old(V()), V(), i, off, |src|, k)
      ensures (stray == {} <==> k == r) && |stray| <= 1 && InodeBlock(sb, i) in logged
      ensures Shaped(sb, old(V())) && Traced(sb, old(V()), old(logged), i, off, |src|, V(), logged + stray)
      ensures Shaped(sb, V()) && Reads(Content(sb, V(), i), old(Content(sb, V(), i)), off, src, r, k)
      ensures forall j :: 0 <= j < |ino| && j != i ==> Content(sb, V(), j) == old(Content(sb, V(), j))
      ensures |src| <= 3 * BSIZE && old(logged) == {} ==>
                |logged| <= MAXOPBLOCKS && peak <= Max(old(peak), MAXOPBLOCKS - 1)
    {
      hide Inv, Shaped, DiskFull, Traced, Progress, Content, Stopped, Reads, ChargeOf, Settled, Placed;
      InodeShape(sb, V(), owner, i);
      ChargeNone(ino[i].addrs[NDIRECT], logged);
      r, k, stray := WriteLoop(i, off, src, readable);
      InodeShape(sb, V(), owner, i);
      ChargeCounts(ino[i].addrs[NDIRECT], logged);
      WhenPartial(old(V()), i, off, |src|, readable, r, k, DiskFull());
      ghost var l1 := logged;
      hide Dinodes, Fits;
      SetSize(i, off, src, r, k, old(V()), old(logged), logged + stray, old(owner));
      InodeFits(sb, V(), owner, i);
      Iupdate(i);
      TracedMore(sb, old(V()), old(logged), i, off, |src|, V(), l1 + stray, logged + stray);
    }

    /** writei.  The arguments are 32-bit unsigned; -1 rejects a write that starts
        beyond the end, wraps around or exceeds the largest file.  It copies k bytes, and
        counts r of them.  The two differ only if the source gives out inside a block: the
        bytes before that are in the cached block, which is in stray and not logged. */
    method Writei(i: nat, off: nat, src: seq<Byte>, readable: nat)
      returns (r: int, ghost k: nat, ghost stray: set<nat>)
      requires Valid() && Tabled() && i < |ino| && off < 0x1_0000_0000 && |src| < 0x1_0000_0000
      modifies this`disk, this`ino, this`itable, this`owner, this`logged, this`peak
      ensures Valid() && Tabled() && |ino| == old(|ino|)
      ensures r == -1 <==> off > old(ino)[i].size || off + |src| > MAXFILE * BSIZE
      ensures r == -1 ==> V() == old(V()) && itable == old(itable) && logged == old(logged) && stray == {}
      ensures r != -1 ==> 0 <= r <= k <= |src| && r <= readable && Dino() == old(Dino())[i := ino[i]]
      ensures r != -1 ==> Stopped(old(V()), i, off, |src|, readable, r, k, DiskFull())
      ensures r != -1 ==> Settled(sb, old(V()), i, off, |src|, readable, r, k)
      ensures r != -1 ==> Placed(sb, old(V()), V(), i, off, |src|, k)
      ensures r != -1 ==> (stray == {} <==> k == r) && |stray| <= 1 && InodeBlock(sb, i) in logged
      ensures Shaped(sb, old(V())) && Traced(sb, old(V()), old(logged), i, off, |src|, V(), logged + stray)
      ensures Shaped(sb, V())
      ensures r != -1 ==> Reads(Content(sb, V(), i), old(Content(sb, V(), i)), off, src, r, k)
      ensures forall j :: 0 <= j < |ino| && j != i ==> Content(sb, V(), j) == old(Content(sb, V(), j))
      ensures r != -1 && !DiskFull() ==> (k == r <==> ByBlocks(off, |src|, readable))
      ensures |src| <= 3 * BSIZE && old(logged) == {} ==>
                |logged| <= MAXOPBLOCKS && peak <= Max(old(peak), MAXOPBLOCKS - 1)
    {
      hide Inv, Shaped, DiskFull, Traced, Content, Stopped, Reads, ByBlocks, Settled, Placed;
      InodeShape(sb, V(), owner, i);
      SizeInside(sb, V(), i);
      TracedNone(sb, V(), logged, i, off, |src|);
      NoStray(logged);
      if off > ino[i].size || (off + |src|) % 0x1_0000_0000 < off {
        return -1, 0, {};
      }
      if off + |src| > MAXFILE * BSIZE {
        return -1, 0, {};
      }
      r, k, stray := WriteAll(i, off, src, readable);
      WhenPartial(old(V()), i, off, |src|, readable, r, k, DiskFull());
    }

    /** What that comes to: two bytes from a source that ends after one.  writei counts
        nothing, and the file has changed. */
    method GivenUpWrite(i: nat, src: seq<Byte>) returns (r: int)
      requires Valid() && Tabled() && i < |ino| && ino[i].size > 0 && |src| == 2 && |Content(sb, V(), i)| > 0
      requires src[0] != Content(sb, V(), i)[0]
      modifies this`disk, this`ino, this`itable, this`owner, this`logged, this`peak
      ensures Valid() && r == 0 && |ino| == old(|ino|) && ino[i].size == old(ino)[i].size
      ensures Content(sb, V(), i) == old(Content(sb, V(), i))[0 := src[0]] != old(Content(sb, V(), i))
    {
      InodeShape(sb, V(), owner, i);
      SizeOf(sb, V(), i);
      FirstThere(sb, V(), owner, i);
      hide Inv, Shaped, Traced, Content, DiskFull, Stopped, Reads, WasMissing, ByBlocks, Settled, Placed;
      ghost var k, stray;
      r, k, stray := Writei(i, 0, src, 1);
      FirstByteOnly(old(V()), i, src, r, k, DiskFull(), old(Content(sb, V(), i)), Content(sb, V(), i));
      InodeShape(sb, V(), owner, i);
      SizeOf(sb, V(), i);
    }

    // ---- readi, fileread and filewrite ----

    /** One pass of readi's loop, up to the copy. */
    method ReadStep(i: nat, off: nat, tot: nat, k: nat) returns (m: nat, more: seq<Byte>)
      requires Valid() && i < |ino| && tot < k && off + k <= ino[i].size
      modifies this`disk, this`ino, this`owner, this`logged, this`peak
      ensures Valid() && V() == old(V()) && logged == old(logged) && peak == old(peak)
      ensures m == Chunk(off + tot, k - tot) && more == Content(sb, V(), i)[off + tot..off + tot + m]
    {
      hide Owned, Filled, BitsExact, Slot, Bit, Content, KeepsBytes, ChargeOf, Fresh, Covered, Grown;
      InsideFilled(sb, V(), i, off + tot);
      var addr := Bmap(i, (off + tot) / BSIZE);
      m := Chunk(off + tot, k - tot);
      ContentChunk(sb, V(), i, off, tot, m);
      more := disk[addr][(off + tot) % BSIZE..(off + tot) % BSIZE + m];
    }

    /** The loop of readi, over k bytes that the file has. */
    method ReadLoop(i: nat, off: nat, k: nat, writable: nat) returns (ok: bool, out: seq<Byte>)
      requires Valid() && i < |ino| && off + k <= ino[i].size
      modifies this`disk, this`ino, this`owner, this`logged, this`peak
      ensures Valid() && V() == old(V()) && logged == old(logged) && peak == old(peak)
      ensures |Content(sb, V(), i)| == ino[i].size && out == Content(sb, V(), i)[off..off + Min(k, writable)]
      ensures ok <==> k <= writable
    {
      hide Inv, Shaped, Content, Chunk;
      InodeShape(sb, V(), owner, i);
      SizeOf(sb, V(), i);
      ghost var c := Content(sb, V(), i);
      var tot := 0;
      out := [];
      while tot < k
        invariant tot <= k && tot <= writable && Valid() && V() == old(V())
        invariant logged == old(logged) && peak == old(peak)
        invariant out == c[off..off + tot]
      {
        var m, more := ReadStep(i, off, tot, k);
        var copied := Min(m, writable - tot);
        ContentJoin(c, off, tot, m, more, copied);
        out := out + more[..copied];
        if tot + m > writable {
          return false, out;
        }
        tot := tot + m;
      }
      ok := true;
    }

    /** readi.  A read inside the file allocates nothing, so it logs nothing either:
        fileread calls it outside any transaction.  The first `writable` bytes of the
        destination can be copied out to; out is what arrived there. */
    method Readi(i: nat, off: nat, n: nat, writable: nat) returns (r: int, out: seq<Byte>)
      requires Valid() && i < |ino| && off < 0x1_0000_0000 && n < 0x1_0000_0000
      modifies this`disk, this`ino, this`owner, this`logged, this`peak
      ensures Valid() && V() == old(V()) && logged == old(logged) && peak == old(peak)
      ensures r == if writable < Readable(ino[i].size, off, n) then -1 else Readable(ino[i].size, off, n)
      ensures |out| == Min(writable, Readable(ino[i].size, off, n)) && off + |out| <= Max(off, ino[i].size)
      ensures off <= ino[i].size ==> out == Content(sb, V(), i)[off..off + |out|]
    {
      hide Inv, Content;
      InodeShape(sb, V(), owner, i);
      if off > ino[i].size || (off + n) % 0x1_0000_0000 < off {
        SizeOf(sb, V(), i);
        return 0, [];
      }
      var k := n;
      if off + k > ino[i].size {
        k := ino[i].size - off;
      }
      var ok;
      ok, out := ReadLoop(i, off, k, writable);
      r := if ok then k else -1;
    }

    /** fileread on an inode: the offset moves by what was read. */
    method FileRead(i: nat, off: nat, n: nat, writable: nat) returns (r: int, out: seq<Byte>, off': nat)
      requires Valid() && i < |ino| && off < 0x1_0000_0000 && n < 0x1_0000_0000
      modifies this`disk, this`ino, this`owner, this`logged, this`peak
      ensures Valid() && V() == old(V()) && logged == old(logged) && peak == old(peak)
      ensures r == if writable < Readable(ino[i].size, off, n) then -1 else Readable(ino[i].size, off, n)
      ensures |out| == Min(writable, Readable(ino[i].size, off, n)) && off' == if r == -1 then off else off + r
      ensures off <= ino[i].size ==> off + |out| <= ino[i].size && out == Content(sb, V(), i)[off..off + |out|]
    {
      hide Inv, Content;
      r, out := Readi(i, off, n, writable);
      off' := if r > 0 then off + r else off;
    }

    /** One pass of filewrite's loop, a transaction of its own: r bytes more, and it
        is the last pass if it could not write all it set out to.  Then it may have copied
        k > r of them, and has changed the block in stray without logging it. */
    method FileChunk(i: nat, off: nat, cur: nat, src: seq<Byte>, done: nat, readable: nat, ghost c0: seq<Byte>)
      returns (r: nat, last: bool, ghost k: nat, ghost stray: set<nat>)
      requires Valid() && Shaped(sb, V()) && Tabled() && i < |ino| && cur == off + done
      requires off < 0x1_0000_0000 && |src| < 0x8000_0000 && done < |src| && done <= readable
      requires Written(c0, off, src, done, done, Content(sb, V(), i))
      modifies this`disk, this`ino, this`itable, this`owner, this`logged, this`peak
      ensures Valid() && Shaped(sb, V()) && Tabled() && |ino| == old(|ino|) && done + r <= |src| && done + r <= readable
      ensures Written(c0, off, src, done + r, done + k, Content(sb, V(), i))
      ensures off > |c0| ==> last && V() == old(V())
      ensures forall j :: 0 <= j < |ino| && j != i ==> Content(sb, V(), j) == old(Content(sb, V(), j))
      ensures last ==> done + r < |src|
      ensures last ==>
        off > |c0| || off + |src| > MAXFILE * BSIZE || readable < done + Batch(|src| - done) || DiskFull()
      ensures |logged| <= MAXOPBLOCKS && Covered(old(disk), disk, logged + stray)
      ensures (stray == {} <==> k == r) && |stray| <= 1
      ensures r > 0 || itable != old(itable) ==> InodeBlock(sb, i) in logged
      ensures Shaped(sb, old(V())) && Grown(sb, old(V()), V(), i, cur, |src| - done)
      ensures !last ==> r == k == Batch(|src| - done)
      ensures off <= |c0| && off + |src| <= MAXFILE * BSIZE && !DiskFull() ==>
                (k == r <==> ByBlocks(cur, Batch(|src| - done), readable - done))
      ensures r <= Batch(|src| - done) && (last <==> r != Batch(|src| - done))
      ensures off <= |c0| && cur + Batch(|src| - done) > MAXFILE * BSIZE ==> r == k == 0
      ensures off <= |c0| && cur + Batch(|src| - done) <= MAXFILE * BSIZE ==>
                && Settled(sb, old(V()), i, cur, Batch(|src| - done), readable - done, r, k)
                && Placed(sb, old(V()), V(), i, cur, Batch(|src| - done), k)
      ensures readable >= |src| ==> k == r
      ensures r > 0 ==> off + done + r <= MAXFILE * BSIZE
      ensures peak <= Max(old(peak), MAXOPBLOCKS - 1)
    {
      hide Inv, Shaped, Content, Overwrite, DiskFull, Covered, Grown, Reads, WasMissing, Chunk, Settled, Placed;
      var max := (MAXOPBLOCKS - 1 - 1 - 2) / 2 * BSIZE;
      var n1 := if |src| - done > max then max else |src| - done;
      logged := {};
      ghost var c1 := Content(sb, V(), i);
      WrittenSize(c0, off, src, done, c1);
      SizeOf(sb, V(), i);
      SizeInside(sb, V(), i);
      var w;
      w, k, stray := Writei(i, cur, src[done..done + n1], readable - done);
      ChunkShort(cur, n1, w);
      GrownMore(sb, old(V()), V(), i, cur, n1, |src| - done);
      InodeShape(sb, V(), owner, i);
      last := w != n1;
      if w == -1 {
        r, k := 0, 0;
        assert logged + stray == logged;
      } else {
        r := w;
        WrittenMore(c0, off, src, done, n1, r, k, c1, Content(sb, V(), i));
      }
    }

    /** filewrite has left every file but i as it was in v0, and i as written. */
    ghost predicate Wrote(i: nat, off: nat, src: seq<Byte>, tot: nat, k: nat, c0: seq<Byte>, v0: Vol)
      reads this
    {
      && Valid() && Shaped(sb, v0) && Shaped(sb, V()) && Tabled() && i < |ino| == |v0.ino|
      && Written(c0, off, src, tot, k, Content(sb, V(), i))
      && (off > |c0| ==> V() == v0) && (forall j :: 0 <= j < |ino| ==> ino[j].kind == v0.ino[j].kind)
      && (tot > 0 ==> off + tot <= MAXFILE * BSIZE)
      && forall j :: 0 <= j < |ino| && j != i ==> Content(sb, V(), j) == Content(sb, v0, j)
    }

    /** It goes on, after whole transactions only. */
    ghost predicate Writing(i: nat, off: nat, src: seq<Byte>, done: nat, readable: nat, c0: seq<Byte>, v0: Vol)
      reads this
    {
      && Wrote(i, off, src, done, done, c0, v0) && done <= readable && (done < |src| ==> done % (3 * BSIZE) == 0)
      && (off <= |c0| ==> Along(sb, v0, V(), i, off, |src|, done))
    }

    /** It has ended, and why it ended there. */
    ghost predicate Ended(i: nat, off: nat, src: seq<Byte>, tot: nat, k: nat, readable: nat, c0: seq<Byte>, v0: Vol)
      reads this
    {
      && Wrote(i, off, src, tot, k, c0, v0) && tot <= readable && (|src| <= readable ==> k == tot)
      && (off <= |c0| ==> AllSettled(sb, v0, i, off, |src|, readable, tot, k))
      && (tot < |src| ==> off > |c0| || off + |src| > MAXFILE * BSIZE || readable < |src| || DiskFull())
      && (off <= |c0| && off + |src| <= MAXFILE * BSIZE && !DiskFull() ==>
            (k == tot <==> ByBatches(off, |src|, readable)))
    }

    method FilePass(i: nat, off: nat, src: seq<Byte>, done: nat, readable: nat, ghost c0: seq<Byte>, ghost v0: Vol,
                    ghost owner0: map<nat, (nat, nat)>) returns (r: nat, last: bool, ghost k: nat)
      requires Writing(i, off, src, done, readable, c0, v0) && done < |src| && Inv(sb, v0, owner0, {})
      requires off < 0x1_0000_0000 && |src| < 0x8000_0000
      modifies this`disk, this`ino, this`itable, this`owner, this`logged, this`peak
      ensures peak <= Max(old(peak), MAXOPBLOCKS - 1) && (last <==> r != Batch(|src| - done))
      ensures !last ==> r == k && Writing(i, off, src, done + r, readable, c0, v0)
      ensures last ==> done + r < |src| && Ended(i, off, src, done + r, done + k, readable, c0, v0)
    {
      hide Inv, Shaped, Content, DiskFull, Written, Covered, Grown, Settled, Placed, AllSettled, Along, ByBlocks;
      ghost var v1, owner1 := V(), owner;
      ghost var stray;
      r, last, k, stray := FileChunk(i, off, off + done, src, done, readable, c0);
      BatchEnds(off, done, |src|, readable);
      WrittenSizes(c0, off, src, done + r, done + k, Content(sb, V(), i));
      GrownKinds(sb, v1, V(), i, off + done, |src| - done);
      if off <= |c0| {
        ChunkAlong(sb, v0, owner0, v1, owner1, V(), owner, i, off, |src|, done, readable, r, k);
      }
    }

    /** filewrite on an inode: the bytes go in transactions of at most three blocks'
        worth each, so that no log_write of any of them finds ten blocks logged.  It copies
        k bytes and counts off' - off of them, the same unless the source gives out inside
        a block. */
    method FileWrite(i: nat, off: nat, src: seq<Byte>, readable: nat) returns (ret: int, off': nat, ghost k: nat)
      requires Valid() && Tabled() && i < |ino| && off < 0x1_0000_0000 && |src| < 0x8000_0000
      modifies this`disk, this`ino, this`itable, this`owner, this`logged, this`peak
      ensures Valid() && Tabled() && |ino| == old(|ino|) && off <= off' <= off + k <= off + |src|
      ensures ret == if off' - off == |src| then |src| else -1
      ensures off <= old(ino)[i].size ==>
                Reads(Content(sb, V(), i), old(Content(sb, V(), i)), off, src, off' - off, k)
      ensures off <= old(ino)[i].size ==> AllSettled(sb, old(V()), i, off, |src|, readable, off' - off, k)
      ensures off <= old(ino)[i].size && off + |src| <= MAXFILE * BSIZE && !DiskFull() ==>
                (k == off' - off <==> ByBatches(off, |src|, readable))
      ensures readable >= |src| ==> k == off' - off
      ensures off > old(ino)[i].size ==> off' == off && V() == old(V())
      ensures forall j :: 0 <= j < |ino| ==> ino[j].kind == old(ino)[j].kind
      ensures forall j :: 0 <= j < |ino| && j != i ==> Content(sb, V(), j) == old(Content(sb, V(), j))
      ensures ret == -1 ==>
                off > old(ino)[i].size || off + |src| > MAXFILE * BSIZE || readable < |src| || DiskFull()
      ensures ret == |src| > 0 ==> off <= old(ino)[i].size && off + |src| <= MAXFILE * BSIZE && |src| <= readable
      ensures peak <= Max(old(peak), MAXOPBLOCKS - 1)
    {
      hide Inv, Shaped, Content, DiskFull, AllSettled, Along, ByBatches, Writing, Ended, Reads;
      InodeShape(sb, V(), owner, i);
      SizeOf(sb, V(), i);
      SizeInside(sb, V(), i);
      ghost var v0, c0 := V(), Content(sb, V(), i);
      AlongNone(sb, v0, i, off, |src|);
      var done := 0;
      k := 0;
      StartsWriting(i, off, src, readable);
      while done < |src|
        invariant done <= |src| && k == done && Writing(i, off, src, done, readable, c0, v0)
        invariant peak <= Max(old(peak), MAXOPBLOCKS - 1)
      {
        var r, last;
        ghost var c;
        r, last, c := FilePass(i, off, src, done, readable, c0, v0, old(owner));
        done, k := done + r, done + c;
        if last {
          break;
        }
      }
      if done == |src| {
        EndsWriting(i, off, src, readable, c0, v0, old(owner));
      }
      EndedMeans(i, off, src, done, k, readable, c0, v0);
      off' := off + done;
      ret := if done == |src| then |src| else -1;
    }

    lemma StartsWriting(i: nat, off: nat, src: seq<Byte>, readable: nat)
      requires Valid() && Shaped(sb, V()) && Tabled() && i < |ino|
      requires off <= |Content(sb, V(), i)| ==> Along(sb, V(), V(), i, off, |src|, 0)
      ensures Writing(i, off, src, 0, readable, Content(sb, V(), i), V())
    {
      hide Inv, Shaped, Content, Along, Written;
      WrittenNothing(Content(sb, V(), i), off, src);
    }

    lemma EndsWriting(i: nat, off: nat, src: seq<Byte>, readable: nat, c0: seq<Byte>, v0: Vol,
                      owner0: map<nat, (nat, nat)>)
      requires Writing(i, off, src, |src|, readable, c0, v0) && Inv(sb, v0, owner0, {})
      ensures Ended(i, off, src, |src|, |src|, readable, c0, v0)
    {
      hide Inv, Shaped, Content, Along, Written, AllSettled, DiskFull;
      if off <= |c0| {
        AllAlong(sb, v0, owner0, V(), owner, i, off, |src|, readable);
      }
    }

    lemma EndedMeans(i: nat, off: nat, src: seq<Byte>, tot: nat, k: nat, readable: nat, c0: seq<Byte>, v0: Vol)
      requires Ended(i, off, src, tot, k, readable, c0, v0)
      ensures Valid() && Shaped(sb, v0) && Shaped(sb, V()) && Tabled() && i < |ino| == |v0.ino|
      ensures tot <= k <= |src| && tot <= readable && (|src| <= readable ==> k == tot)
      ensures if off <= |c0| then Reads(Content(sb, V(), i), c0, off, src, tot, k) else tot == k == 0 && V() == v0
      ensures off <= |c0| ==> AllSettled(sb, v0, i, off, |src|, readable, tot, k)
      ensures tot < |src| ==> off > |c0| || off + |src| > MAXFILE * BSIZE || readable < |src| || DiskFull()
      ensures tot == |src| > 0 ==> off <= |c0| && off + |src| <= MAXFILE * BSIZE
      ensures off <= |c0| && off + |src| <= MAXFILE * BSIZE && !DiskFull() ==>
                (k == tot <==> ByBatches(off, |src|, readable))
      ensures forall j :: 0 <= j < |ino| ==> ino[j].kind == v0.ino[j].kind
      ensures forall j :: 0 <= j < |ino| && j != i ==> Content(sb, V(), j) == Content(sb, v0, j)
    {
      hide Inv, Shaped, Content, AllSettled, DiskFull, Reads, ByBatches;
    }

    // ---- itrunc ----

    /** The volume with file i's size already taken as 0, as itrunc leaves it. */
    ghost function Cut(i: nat): Vol
      requires i < |ino|
      reads this
    {
      WithSize(V(), i, 0)
    }

    /** One pass of itrunc's direct loop. */
    method FreeDirect(i: nat, k: nat) returns (ok: bool)
      requires i < |ino| && Shaped(sb, V()) && Inv(sb, Cut(i), owner, {}) && k < NDIRECT
      modifies this`disk, this`ino, this`owner, this`logged, this`peak
      ensures ok
      ensures Shaped(sb, V()) && |ino| == old(|ino|)
      ensures Inv(sb, Cut(i), owner, {}) && OthersKept(sb, old(Cut(i)), i, Cut(i))
      ensures ino[i] == old(ino)[i].(addrs := old(ino)[i].addrs[k := 0])
      ensures forall b :: b in owner <==> b in old(owner) && old(owner)[b] != (i, k)
      ensures forall b :: b in owner ==> owner[b] == old(owner)[b]
      ensures old(logged) <= logged && Covered(old(disk), disk, logged)
    {
      hide Owned, BitsExact, Filled, Slot, Unmarked, OthersKept, Bit, Covered;
      ghost var v0 := Cut(i);
      ok := true;
      if ino[i].addrs[k] != 0 {
        DropDirect(sb, v0, owner, i, k);
        var b := ino[i].addrs[k];
        ok := Bfree(b);
        ino := ino[i := ino[i].(addrs := ino[i].addrs[k := 0])];
        owner := owner - {b};
        assert Cut(i) == WithAddr(v0, i, k, 0).(disk := Unmarked(sb, v0.disk, b));
      } else {
        NothingChanged(sb, V());
        OneSlotOwner(sb, v0, owner, i, k);
        InodeKeepsOthers(sb, v0, i, v0.ino[i]);
        assert Cut(i) == v0.(ino := v0.ino[i := v0.ino[i]]);
        assert ino[i].addrs == ino[i].addrs[k := 0];
      }
    }

    /** One pass of itrunc's indirect loop, over the words of the indirect block as
        they were in v0; rest is the volume without that block. */
    method FreeEntry(i: nat, e: nat, b: nat, ghost v0: Vol, ghost own0: map<nat, (nat, nat)>, ghost rest: seq<Inode>)
      returns (ok: bool)
      requires Shaped(sb, v0) && Owned(sb, v0, own0) && i < |v0.ino| && e < NINDIRECT
        && b == Slot(v0, i, NDIRECT + 1 + e)
      requires Shaped(sb, V()) && i < |rest|
        && Inv(sb, Vol(disk, rest), Others(own0, i), Below(own0, i, NDIRECT + 1 + e))
      modifies this`disk, this`logged, this`peak
      ensures ok
      ensures Shaped(sb, V()) && Inv(sb, Vol(disk, rest), Others(own0, i), Below(own0, i, NDIRECT + 2 + e))
      ensures OthersKept(sb, Vol(old(disk), rest), i, Vol(disk, rest))
      ensures old(logged) <= logged && Covered(old(disk), disk, logged)
    {
      hide Owned, BitsExact, Filled, Slot, Unmarked, OthersKept, Bit, Below, Others, Covered;
      EntryInHand(sb, v0, own0, i, e, b);
      ok := true;
      if b != 0 {
        DropHand(sb, Vol(disk, rest), Others(own0, i), Below(own0, i, NDIRECT + 1 + e), i, b);
        ok := Bfree(b);
      } else {
        NothingChanged(sb, V());
        ZeroNotBelow(sb, v0, own0, i, NDIRECT + 1 + e);
        assert Below(own0, i, NDIRECT + 1 + e) - {0} == Below(own0, i, NDIRECT + 1 + e);
        InodeKeepsOthers(sb, Vol(disk, rest), i, rest[i]);
        assert rest[i := rest[i]] == rest;
      }
    }

    /** The second half of itrunc: the entries of the indirect block, then itself. */
    method FreeIndirect(i: nat) returns (ok: bool)
      requires i < |ino| && Shaped(sb, V()) && Inv(sb, Cut(i), owner, {}) && ino[i].addrs[NDIRECT] != 0
      modifies this`disk, this`ino, this`owner, this`logged, this`peak
      ensures ok
      ensures Shaped(sb, V()) && |ino| == old(|ino|)
      ensures Inv(sb, Cut(i), owner, {}) && OthersKept(sb, old(Cut(i)), i, Cut(i))
      ensures ino[i] == old(ino)[i].(addrs := old(ino)[i].addrs[NDIRECT := 0])
      ensures owner == Others(old(owner), i)
      ensures old(logged) <= logged && Covered(old(disk), disk, logged)
    {
      hide Owned, BitsExact, Filled, Slot, Unmarked, OthersKept, Bit, Below, Others, Word, Covered;
      ghost var v0, own0 := Cut(i), owner;
      ghost var rest := WithAddr(v0, i, NDIRECT, 0).ino;
      DetachIndirect(sb, v0, own0, i);
      OnlyIndirectLeft(sb, v0, own0, i);
      InodeKeepsOthers(sb, v0, i, rest[i]);
      var ind := ino[i].addrs[NDIRECT];
      DirectSlot(v0, i, NDIRECT);
      SlotBound(sb, v0, own0, i, NDIRECT);
      NothingChanged(sb, V());
      var a := disk[ind];
      ok := true;
      var j := 0;
      while j < NINDIRECT
        invariant ok && j <= NINDIRECT && Shaped(sb, V()) && ino == old(ino)
        invariant old(logged) <= logged && Covered(old(disk), disk, logged)
        invariant Inv(sb, Vol(disk, rest), Others(own0, i), Below(own0, i, NDIRECT + 1 + j))
        invariant OthersKept(sb, v0, i, Vol(disk, rest))
      {
        EntrySlot(v0, i, j);
        ghost var d, l := disk, logged;
        var freed := FreeEntry(i, j, Word(a, j), v0, own0, rest);
        ok := ok && freed;
        CoveredTwice(old(disk), d, l, disk, logged);
        OthersKeptTransitive(sb, v0, Vol(d, rest), Vol(disk, rest), i);
        j := j + 1;
      }
      ghost var d, l := disk, logged;
      DropHand(sb, Vol(disk, rest), Others(own0, i), {ind}, i, ind);
      var last := Bfree(ind);
      ok := ok && last;
      CoveredTwice(old(disk), d, l, disk, logged);
      OthersKeptTransitive(sb, v0, Vol(d, rest), Vol(disk, rest), i);
      ino := ino[i := ino[i].(addrs := ino[i].addrs[NDIRECT := 0])];
      owner := Others(own0, i);
      assert Cut(i) == Vol(disk, rest);
      assert {ind} - {ind} == {};
    }

    /** The first half of itrunc: the direct blocks. */
    method FreeAllDirect(i: nat) returns (ok: bool)
      requires i < |ino| && Shaped(sb, V()) && Inv(sb, Cut(i), owner, {})
      modifies this`disk, this`ino, this`owner, this`logged, this`peak
      ensures ok
      ensures Shaped(sb, V()) && |ino| == old(|ino|)
      ensures Inv(sb, Cut(i), owner, {}) && OthersKept(sb, old(Cut(i)), i, Cut(i))
      ensures ino[i].kind == old(ino)[i].kind && forall l :: 0 <= l < NDIRECT ==> ino[i].addrs[l] == 0
      ensures forall b :: b in owner <==> b in old(owner) && !(old(owner)[b].0 == i && old(owner)[b].1 < NDIRECT)
      ensures forall b :: b in owner ==> owner[b] == old(owner)[b]
      ensures old(logged) <= logged && Covered(old(disk), disk, logged)
    {
      hide Owned, BitsExact, Filled, Slot, OthersKept, Bit, Covered;
      ghost var v0 := Cut(i);
      InodeKeepsOthers(sb, v0, i, v0.ino[i]);
      assert v0.ino[i := v0.ino[i]] == v0.ino;
      NothingChanged(sb, V());
      ok := true;
      var k := 0;
      while k < NDIRECT
        invariant ok && k <= NDIRECT && |ino| == |v0.ino| && Shaped(sb, V()) && Inv(sb, Cut(i), owner, {})
        invariant old(logged) <= logged && Covered(old(disk), disk, logged)
        invariant OthersKept(sb, v0, i, Cut(i))
        invariant ino[i].kind == old(ino)[i].kind && forall l :: 0 <= l < k ==> ino[i].addrs[l] == 0
        invariant forall b :: b in owner <==> b in old(owner) && !(old(owner)[b].0 == i && old(owner)[b].1 < k)
        invariant forall b :: b in owner ==> owner[b] == old(owner)[b]
      {
        ghost var v1, d, l := Cut(i), disk, logged;
        var freed := FreeDirect(i, k);
        ok := ok && freed;
        CoveredTwice(old(disk), d, l, disk, logged);
        OthersKeptTransitive(sb, v0, v1, Cut(i), i);
        k := k + 1;
      }
    }

    /** itrunc: the file is empty, each of its blocks has been freed once, and every
        other file is untouched.  ok would be false had bfree met a free block. */
    method Itrunc(i: nat) returns (ok: bool)
      requires Valid() && Tabled() && i < |ino|
      modifies this`disk, this`ino, this`itable, this`owner, this`logged, this`peak
      ensures ok
      ensures Valid() && Tabled() && |ino| == old(|ino|) && Dino() == old(Dino())[i := ino[i]]
      ensures ino[i].size == 0 && ino[i].kind == old(ino)[i].kind
      ensures forall k :: 0 <= k <= NDIRECT ==> ino[i].addrs[k] == 0
      ensures forall j :: 0 <= j < |ino| && j != i ==>
          ino[j] == old(ino)[j] && Content(sb, V(), j) == old(Content(sb, V(), j))
      ensures forall b :: b in old(owner) && old(owner)[b].0 == i ==> b < sb.size && !Bit(sb, disk, b)
      ensures forall b :: b in owner <==> b in old(owner) && old(owner)[b].0 != i
      ensures old(logged) <= logged && Covered(old(disk), disk, logged) && InodeBlock(sb, i) in logged
    {
      hide Owned, BitsExact, Filled, Slot, OthersKept, Bit, Content, Covered;
      ghost var v0 := V();
      CutKeepsInv(sb, v0, owner, i);
      InodeKeepsOthers(sb, v0, i, Cut(i).ino[i]);
      ghost var v1 := Cut(i);
      ok := FreeAllDirect(i);
      OthersKeptTransitive(sb, v0, v1, Cut(i), i);
      if ino[i].addrs[NDIRECT] != 0 {
        ghost var v2, d, l := Cut(i), disk, logged;
        var freed := FreeIndirect(i);
        ok := ok && freed;
        CoveredTwice(old(disk), d, l, disk, logged);
        OthersKeptTransitive(sb, v0, v2, Cut(i), i);
      } else {
        NoIndirect(sb, Cut(i), owner, i);
      }
      ino := ino[i := ino[i].(size := 0)];
      assert V() == Cut(i);
      ghost var l1 := logged;
      NothingChanged(sb, V());
      InodeFits(sb, V(), owner, i);
      Iupdate(i);
      CoveredTwice(old(disk), disk, l1, disk, logged);
      AllFreed(sb, v0, old(owner), V(), owner, i);
      OthersSame(sb, v0, old(owner), i, V());
    }
  }

  /** How many of the n bytes at off a file of that size has to give; the sum off + n
      is 32 bits wide. */
  function Readable(size: nat, off: nat, n: nat): (r: nat)
    requires off < 0x1_0000_0000 && n < 0x1_0000_0000
  {
    if off > size || off + n >= 0x1_0000_0000 then 0 else if off + n > size then size - off else n
  }

  lemma InsideFilled(sb: Super, v: Vol, i: nat, p: nat)
    requires Shaped(sb, v) && Filled(sb, v) && i < |v.ino| && p < v.ino[i].size
    ensures p / BSIZE < MAXFILE && Slot(v, i, DataSlot(p / BSIZE)) != 0
  {
    assert p / BSIZE * BSIZE < v.ino[i].size;
  }

  lemma ContentChunk(sb: Super, v: Vol, i: nat, off: nat, tot: nat, m: nat)
    requires Shaped(sb, v) && i < |v.ino| && off + tot + m <= v.ino[i].size && (off + tot) % BSIZE + m <= BSIZE
    requires (off + tot) / BSIZE < MAXFILE && 0 < Slot(v, i, DataSlot((off + tot) / BSIZE)) < sb.size
    ensures v.disk[Slot(v, i, DataSlot((off + tot) / BSIZE))][(off + tot) % BSIZE..(off + tot) % BSIZE + m]
            == Content(sb, v, i)[off + tot..off + tot + m]
  {
    hide Slot, Content;
    var cur := off + tot;
    var a := v.disk[Slot(v, i, DataSlot(cur / BSIZE))][cur % BSIZE..cur % BSIZE + m];
    var b := Content(sb, v, i)[cur..cur + m];
    forall x | 0 <= x < m
      ensures a[x] == b[x]
    {
      ChunkByte(sb, v, i, cur, x);
    }
    assert a == b;
  }

  lemma ChunkByte(sb: Super, v: Vol, i: nat, cur: nat, x: nat)
    requires Shaped(sb, v) && i < |v.ino| && cur + x < v.ino[i].size && cur % BSIZE + x < BSIZE && cur / BSIZE < MAXFILE
    requires 0 < Slot(v, i, DataSlot(cur / BSIZE)) < sb.size
    ensures Content(sb, v, i)[cur + x] == v.disk[Slot(v, i, DataSlot(cur / BSIZE))][cur % BSIZE + x]
  {
    hide Slot;
    assert (cur + x) / BSIZE == cur / BSIZE && (cur + x) % BSIZE == cur % BSIZE + x;
    assert Stored(v, i, cur + x);
  }

  lemma ContentJoin(c: seq<Byte>, off: nat, tot: nat, m: nat, more: seq<Byte>, k: nat)
    requires off + tot + m <= |c| && more == c[off + tot..off + tot + m] && k <= m
    ensures c[off..off + tot] + more[..k] == c[off..off + tot + k]
  {
  }

  /** c is c0 with the first k bytes of src written at off, the size reaching the first
      `done` of them only; nothing is ever written at an offset beyond the end. */
  ghost predicate Written(c0: seq<Byte>, off: nat, src: seq<Byte>, done: nat, k: nat, c: seq<Byte>) {
    && done <= k <= |src|
    && if off <= |c0| then Reads(c, c0, off, src, done, k) else k == 0 && c == c0
  }

  lemma WrittenNothing(c: seq<Byte>, off: nat, src: seq<Byte>)
    ensures Written(c, off, src, 0, 0, c)
  {
    if off <= |c| {
      assert Overwrite(c, off, src[..0]) == c;
    }
  }

  lemma WrittenSizes(c0: seq<Byte>, off: nat, src: seq<Byte>, tot: nat, k: nat, c: seq<Byte>)
    requires Written(c0, off, src, tot, k, c)
    ensures tot <= k <= |src|
  {
  }

  lemma WrittenSize(c0: seq<Byte>, off: nat, src: seq<Byte>, done: nat, c: seq<Byte>)
    requires Written(c0, off, src, done, done, c)
    ensures off <= |c0| <==> off + done <= |c|
    ensures off <= |c0| ==> c == Overwrite(c0, off, src[..done])
  {
  }

  /** A write of n bytes, of which r were counted and k copied, after `done` bytes. */
  lemma WrittenMore(c0: seq<Byte>, off: nat, src: seq<Byte>, done: nat, n: nat, r: nat, k: nat, c1: seq<Byte>,
                    c: seq<Byte>)
    requires off <= |c0| && Written(c0, off, src, done, done, c1) && done + n <= |src|
    requires Reads(c, c1, off + done, src[done..done + n], r, k)
    ensures Written(c0, off, src, done + r, done + k, c)
  {
    WrittenSize(c0, off, src, done, c1);
    assert src[done..done + n][..k] == src[done..done + k];
    OverwriteMore(c0, off, src, done, k, c1);
    OverwriteSize(c0, off, src[..done]);
    OverwriteSize(c0, off, src[..done + k]);
    hide Overwrite;
  }

  /** What one transaction of filewrite takes of n bytes. */
  function Batch(n: nat): (m: nat) {
    if n > 3 * BSIZE then 3 * BSIZE else n
  }

  lemma BatchEnds(off: nat, done: nat, n: nat, readable: nat)
    requires done < n && done <= readable && done % (3 * BSIZE) == 0
    ensures done + Batch(n - done) < n ==> (done + Batch(n - done)) % (3 * BSIZE) == 0
    ensures readable < done + Batch(n - done) ==>
              (ByBlocks(off + done, Batch(n - done), readable - done) <==>
               readable % (3 * BSIZE) == 0 || ByBlocks(off, n, readable))
    ensures readable >= done + Batch(n - done) ==> ByBlocks(off + done, Batch(n - done), readable - done)
  {
    if readable < done + Batch(n - done) {
      assert readable % (3 * BSIZE) == 0 <==> readable == done;
    }
  }

  /** How many of n bytes at off filewrite takes before it meets a transaction that would
      go beyond the largest file. */
  function Taken(off: nat, n: nat): (m: nat)
    requires off <= MAXFILE * BSIZE
  {
    if off + n <= MAXFILE * BSIZE then n else (MAXFILE * BSIZE - off) / (3 * BSIZE) * (3 * BSIZE)
  }

  /** What can be read ends where a block of the file or a transaction does, or not at all. */
  predicate ByBatches(off: nat, n: nat, readable: nat) {
    readable % (3 * BSIZE) == 0 || ByBlocks(off, n, readable)
  }

  /** What the volume before filewrite decides: whether it counts all it takes, and whether
      it copies bytes beyond those counted. */
  ghost predicate AllSettled(sb: Super, v0: Vol, i: nat, off: nat, n: nat, readable: nat, tot: nat, k: nat) {
    && off <= MAXFILE * BSIZE
    && var t := Taken(off, n);
       && (tot == t <==> t <= readable && Room(sb, v0, i, off, t))
       && (k != tot <==> !ByBatches(off, t, readable) && Room(sb, v0, i, off, readable))
  }

  /** filewrite has come from v0 to v and has written `done` bytes. */
  ghost predicate Along(sb: Super, v0: Vol, v: Vol, i: nat, off: nat, n: nat, done: nat) {
    && off <= MAXFILE * BSIZE && done <= Taken(off, n)
    && Backed(v, i, off, done) && GrownTo(sb, v0, v, i, off, done)
  }

  lemma AlongNone(sb: Super, v: Vol, i: nat, off: nat, n: nat)
    requires Shaped(sb, v) && i < |v.ino| && |v.ino[i].addrs| == NDIRECT + 1
    ensures off <= MAXFILE * BSIZE ==> Along(sb, v, v, i, off, n, 0)
  {
    if off <= MAXFILE * BSIZE {
      GrownNone(sb, v, i, off);
      TakenSome(off, n);
    }
  }

  lemma TakenSome(off: nat, n: nat)
    requires off <= MAXFILE * BSIZE
    ensures 0 <= Taken(off, n) <= n
  {
  }

  /** The next transaction is refused exactly if nothing more is taken, and else is all
      within what is. */
  lemma TakenNext(off: nat, n: nat, done: nat)
    requires off <= MAXFILE * BSIZE && done < n && done <= Taken(off, n) && done % (3 * BSIZE) == 0
    ensures if off + done + Batch(n - done) <= MAXFILE * BSIZE
            then done + Batch(n - done) <= Taken(off, n) && Batch(Taken(off, n) - done) == Batch(n - done)
            else Taken(off, n) == done
  {
  }

  lemma ChunkAlong(sb: Super, v0: Vol, owner0: map<nat, (nat, nat)>, v1: Vol, owner1: map<nat, (nat, nat)>, v: Vol,
                   owner: map<nat, (nat, nat)>, i: nat, off: nat, n: nat, done: nat, readable: nat, r: nat, k: nat)
    requires Inv(sb, v0, owner0, {}) && Inv(sb, v1, owner1, {}) && Inv(sb, v, owner, {}) && i < |v0.ino|
    requires Along(sb, v0, v1, i, off, n, done) && done < n && done <= readable && done % (3 * BSIZE) == 0
    requires if off + done + Batch(n - done) <= MAXFILE * BSIZE
             then Settled(sb, v1, i, off + done, Batch(n - done), readable - done, r, k)
                  && Placed(sb, v1, v, i, off + done, Batch(n - done), k)
             else r == k == 0
    requires r <= Batch(n - done)
    ensures r == k == Batch(n - done) ==> Along(sb, v0, v, i, off, n, done + r)
    ensures r != Batch(n - done) ==> AllSettled(sb, v0, i, off, n, readable, done + r, done + k)
  {
    hide Inv, Settled, Room, Backed, Taken;
    TakenNext(off, n, done);
    if off + done + Batch(n - done) > MAXFILE * BSIZE {
      ThereWasRoom(sb, v0, owner0, v1, owner1, i, off, done, done);
    } else if r == k == Batch(n - done) {
      AlongMore(sb, v0, v1, v, i, off, n, done, r);
    } else if r != Batch(n - done) {
      ChunkSettles(sb, v0, owner0, v1, owner1, i, off, Taken(off, n), done, readable, r, k);
    }
  }

  lemma AlongMore(sb: Super, v0: Vol, v1: Vol, v: Vol, i: nat, off: nat, n: nat, done: nat, r: nat)
    requires Along(sb, v0, v1, i, off, n, done) && Placed(sb, v1, v, i, off + done, r, r)
    requires done + r <= Taken(off, n)
    ensures Along(sb, v0, v, i, off, n, done + r)
  {
    hide Backed, Grown, Taken;
    GrownOn(sb, v0, v1, v, i, off, done, r, done + r);
    StillBacked(sb, v1, v, i, off, done, off + done, r);
    BackedBoth(v, i, off, done, r);
  }

  /** The last transaction settles it, as there is room for it exactly if there was room
      from the start. */
  lemma ChunkSettles(sb: Super, v0: Vol, owner0: map<nat, (nat, nat)>, v1: Vol, owner1: map<nat, (nat, nat)>,
                     i: nat, off: nat, t: nat, done: nat, readable: nat, r: nat, k: nat)
    requires Inv(sb, v0, owner0, {}) && Inv(sb, v1, owner1, {}) && i < |v0.ino|
    requires Backed(v1, i, off, done) && GrownTo(sb, v0, v1, i, off, done)
    requires done < t && done <= readable && done % (3 * BSIZE) == 0 && r < Batch(t - done)
    requires Settled(sb, v1, i, off + done, Batch(t - done), readable - done, r, k)
    ensures done + r < t && !(t <= readable && Room(sb, v0, i, off, t))
    ensures k != r <==> !ByBatches(off, t, readable) && Room(sb, v0, i, off, readable)
  {
    hide Inv, Room, Backed, Grown, ByBlocks;
    RoomForRest(sb, v0, owner0, v1, owner1, i, off, done, readable);
    RoomForRest(sb, v0, owner0, v1, owner1, i, off, done, done + Batch(t - done));
    BatchEnds(off, done, t, readable);
    RoomForLess(sb, v0, i, off, done + Batch(t - done), t);
    if done + Batch(t - done) <= readable {
      RoomForLess(sb, v0, i, off, done + Batch(t - done), readable);
    }
  }

  /** All of it written. */
  lemma AllAlong(sb: Super, v0: Vol, owner0: map<nat, (nat, nat)>, v: Vol, owner: map<nat, (nat, nat)>, i: nat,
                 off: nat, n: nat, readable: nat)
    requires Inv(sb, v0, owner0, {}) && Inv(sb, v, owner, {}) && i < |v0.ino| && Along(sb, v0, v, i, off, n, n)
    requires n <= readable
    ensures AllSettled(sb, v0, i, off, n, readable, n, n)
  {
    hide Inv, Room, Backed;
    TakenSome(off, n);
    ThereWasRoom(sb, v0, owner0, v, owner, i, off, n, n);
  }

  lemma ChunkShort(cur: nat, n: nat, r: int)
    ensures 0 <= r < n ==> Chunk(cur + r, n - r) <= n - r
  {
  }

  /** Two writes in a row are one write of both. */
  lemma OverwriteMore(c0: seq<Byte>, off: nat, src: seq<Byte>, done: nat, r: nat, c1: seq<Byte>)
    requires off <= |c0| && done + r <= |src| && c1 == Overwrite(c0, off, src[..done])
    ensures off + done <= |c1| && |c1| >= |c0|
    ensures Overwrite(c1, off + done, src[done..done + r]) == Overwrite(c0, off, src[..done + r])
  {
    OverwriteSize(c0, off, src[..done]);
    OverwriteSize(c1, off + done, src[done..done + r]);
    OverwriteSize(c0, off, src[..done + r]);
    hide Overwrite;
    var a, b := Overwrite(c1, off + done, src[done..done + r]), Overwrite(c0, off, src[..done + r]);
    assert |a| == |b|;
    forall p | 0 <= p < |a|
      ensures a[p] == b[p]
    {
      OverwriteAt(c1, off + done, src[done..done + r], p);
      OverwriteAt(c0, off, src[..done + r], p);
      if p < |c1| {
        OverwriteAt(c0, off, src[..done], p);
      }
    }
  }

  lemma OverwriteSize(c: seq<Byte>, off: nat, data: seq<Byte>)
    requires off <= |c|
    ensures |Overwrite(c, off, data)| == if off + |data| <= |c| then |c| else off + |data|
  {
  }

  /** Reading a written range gives back the bytes written. */
  lemma ReadAfterWrite(c: seq<Byte>, off: nat, data: seq<Byte>)
    requires off <= |c|
    ensures off + |data| <= |Overwrite(c, off, data)| && Overwrite(c, off, data)[off..off + |data|] == data
    ensures |Overwrite(c, off, data)| == Max(|c|, off + |data|)
    ensures forall p :: 0 <= p < |c| && !(off <= p < off + |data|) ==> Overwrite(c, off, data)[p] == c[p]
  {
  }

  lemma CutKeepsInv(sb: Super, v: Vol, owner: map<nat, (nat, nat)>, i: nat)
    requires Inv(sb, v, owner, {}) && i < |v.ino|
    ensures Inv(sb, WithSize(v, i, 0), owner, {})
  {
    SizeKeepsSlots(sb, v, i, 0);
  }

  lemma NoIndirect(sb: Super, v: Vol, owner: map<nat, (nat, nat)>, i: nat)
    requires Shaped(sb, v) && Owned(sb, v, owner) && i < |v.ino| && v.ino[i].addrs[NDIRECT] == 0
    ensures forall b :: b in owner ==> !(owner[b].0 == i && owner[b].1 >= NDIRECT)
  {
  }

  lemma AllFreed(sb: Super, v0: Vol, own0: map<nat, (nat, nat)>, v: Vol, owner: map<nat, (nat, nat)>, i: nat)
    requires Inv(sb, v0, own0, {}) && Inv(sb, v, owner, {})
    requires forall b :: b in owner ==> b in own0 && own0[b].0 != i
    ensures forall b :: b in own0 && own0[b].0 == i ==> b < sb.size && !Bit(sb, v.disk, b)
  {
  }

  lemma OthersSame(sb: Super, v: Vol, owner: map<nat, (nat, nat)>, i: nat, v': Vol)
    requires OthersKept(sb, v, i, v') && Inv(sb, v, owner, {})
    ensures forall j :: 0 <= j < |v.ino| && j != i ==> v'.ino[j] == v.ino[j] && Content(sb, v', j) == Content(sb, v, j)
  {
    forall j | 0 <= j < |v.ino| && j != i
      ensures Content(sb, v', j) == Content(sb, v, j)
    {
      OthersContent(sb, v, owner, i, v', j);
    }
  }

  lemma InodeShape(sb: Super, v: Vol, owner: map<nat, (nat, nat)>, i: nat)
    requires Inv(sb, v, owner, {}) && i < |v.ino|
    ensures Shaped(sb, v) && |v.ino[i].addrs| == NDIRECT + 1
  {
  }

  lemma SizeOf(sb: Super, v: Vol, i: nat)
    requires Shaped(sb, v) && i < |v.ino|
    ensures |Content(sb, v, i)| == v.ino[i].size
  {
  }

  lemma InodeFits(sb: Super, v: Vol, owner: map<nat, (nat, nat)>, i: nat)
    requires Inv(sb, v, owner, {}) && i < |v.ino|
    ensures Fits(v.ino[i]) && |v.ino| == sb.ninodes
  {
    hide BitsExact, Filled, Bit;
    forall k | 0 <= k <= NDIRECT
      ensures v.ino[i].addrs[k] < 0x1_0000_0000
    {
      assert Slot(v, i, k) == v.ino[i].addrs[k];
    }
  }

  lemma SizeInside(sb: Super, v: Vol, i: nat)
    requires Shaped(sb, v) && i < |v.ino|
    ensures v.ino[i].size <= MAXFILE * BSIZE < 0x1_0000_0000
  {
  }

  lemma SizesOfProgress(sb: Super, v0: Vol, i: nat, off: nat, src: seq<Byte>, tot: nat, v: Vol)
    requires Progress(sb, v0, i, off, src, tot, v)
    ensures Shaped(sb, v) && |v.ino| == |v0.ino| && i < |v.ino| && v.ino[i].size == v0.ino[i].size && tot <= |src|
  {
  }

  /** w chunks of a write of n bytes at off have been visited, a of them in blocks
      that had to be allocated; the first block of an unaligned write had not. */
  ghost predicate Counts(off: nat, n: nat, w: nat, a: nat) {
    && w <= (if n == 0 then 0 else (off + n - 1) / BSIZE - off / BSIZE + 1)
    && a <= w && (off % BSIZE != 0 && w > 0 ==> a < w)
  }

  ghost predicate Visited(off: nat, n: nat, tot: nat, w: nat, a: nat) {
    && Counts(off, n, w, a)
    && (tot < n ==> w == (off + tot) / BSIZE - off / BSIZE && (tot > 0 ==> (off + tot) % BSIZE == 0))
  }

  lemma VisitNone(off: nat, n: nat)
    ensures Visited(off, n, 0, 0, 0) && Counts(off, n, 0, 0)
  {
  }

  lemma VisitNext(off: nat, n: nat, tot: nat, w: nat, a: nat, f: nat)
    requires Visited(off, n, tot, w, a) && tot < n && f <= 1
    requires off % BSIZE != 0 && tot == 0 ==> f == 0
    ensures Counts(off, n, w + 1, a + f)
    ensures Visited(off, n, tot + Chunk(off + tot, n - tot), w + 1, a + f)
  {
    assert (off + tot) / BSIZE <= (off + n - 1) / BSIZE;
  }

  /** A write of at most three blocks' worth of bytes touches at most four blocks,
      and at most three if it is aligned. */
  lemma CountBound(off: nat, n: nat, w: nat, a: nat)
    requires Counts(off, n, w, a)
    ensures n <= 3 * BSIZE ==> w + a <= 7
  {
  }

  /** One more chunk.  The first block of an unaligned write within the file is
      there already. */
  lemma VisitStep(sb: Super, v0: Vol, src: seq<Byte>, v: Vol, owner: map<nat, (nat, nat)>, i: nat, off: nat, tot: nat,
                  w: nat, a: nat)
    returns (f: nat)
    requires Progress(sb, v0, i, off, src, tot, v) && tot < |src| && Visited(off, |src|, tot, w, a)
    requires Inv(sb, v, owner, {}) && i < |v.ino| && off <= v.ino[i].size
    ensures off + tot < MAXFILE * BSIZE && |v.ino[i].addrs| == NDIRECT + 1 && f == FreshAt(v, i, off + tot)
    ensures Counts(off, |src|, w + 1, a + f)
    ensures Visited(off, |src|, tot + Chunk(off + tot, |src| - tot), w + 1, a + f)
  {
    f := Fresh(v, i, (off + tot) / BSIZE);
    if off % BSIZE != 0 && tot == 0 {
      assert off / BSIZE * BSIZE < off;
      assert Slot(v, i, DataSlot(off / BSIZE)) != 0;
    }
    VisitNext(off, |src|, tot, w, a, f);
  }

  /** min(n - tot, BSIZE - off % BSIZE) */
  function Chunk(cur: nat, left: nat): (m: nat)
    requires left > 0
    ensures 0 < m <= left && cur % BSIZE + m <= BSIZE
    ensures m < left ==> (cur + m) % BSIZE == 0
  {
    if left < BSIZE - cur % BSIZE then left else BSIZE - cur % BSIZE
  }

  lemma ChargeMonotone(ind: nat, logged: set<nat>, x: nat)
    ensures ChargeOf(ind, logged) <= ChargeOf(ind, logged + {x})
  {
    if x in logged {
      assert logged + {x} == logged;
    } else {
      assert |logged + {x}| == |logged| + 1;
    }
  }

  lemma ChunkInFile(sb: Super, v0: Vol, i: nat, off: nat, src: seq<Byte>, tot: nat, v: Vol)
    requires Progress(sb, v0, i, off, src, tot, v) && tot < |src|
    ensures off + tot < MAXFILE * BSIZE && (off + tot) / BSIZE < MAXFILE
  {
  }

  lemma SizesKept(sb: Super, v: Vol, v': Vol)
    requires Shaped(sb, v) && Shaped(sb, v') && KeepsBytes(sb, v, v')
    ensures |v'.ino| == |v.ino| && forall j :: 0 <= j < |v.ino| ==> v'.ino[j].size == v.ino[j].size
  {
  }

  lemma {:induction false} SubsetSize(xs: set<nat>, ys: set<nat>)
    requires xs <= ys
    ensures |xs| <= |ys|
  {
    if x :| x in xs {
      SubsetSize(xs - {x}, ys - {x});
    } else {
      assert xs == {};
    }
  }

  lemma FilledSlot(sb: Super, v: Vol, i: nat, k: nat, b: nat, v': Vol)
    requires Shaped(sb, v) && Shaped(sb, v') && i < |v.ino| && k < NSLOTS && SlotFilled(sb, v, i, k, b, v')
    ensures Slot(v', i, k) == b
  {
  }

  lemma FilledOther(sb: Super, v: Vol, i: nat, k: nat, b: nat, v': Vol, l: nat)
    requires Shaped(sb, v) && Shaped(sb, v') && i < |v.ino| && k < NSLOTS && SlotFilled(sb, v, i, k, b, v')
    requires l < NSLOTS && l != k
    ensures Slot(v', i, l) == Slot(v, i, l)
  {
  }

  lemma NoEntries(v: Vol, i: nat, e: nat)
    requires i < |v.ino| && |v.ino[i].addrs| == NDIRECT + 1 && e < NINDIRECT && v.ino[i].addrs[NDIRECT] == 0
    ensures Slot(v, i, NDIRECT + 1 + e) == 0
  {
  }

  lemma SlotBound(sb: Super, v: Vol, owner: map<nat, (nat, nat)>, i: nat, k: nat)
    requires Shaped(sb, v) && Owned(sb, v, owner) && i < |v.ino| && k < NSLOTS
    ensures Slot(v, i, k) != 0 ==> sb.nmeta <= Slot(v, i, k) < sb.size
  {
  }

  lemma EntryCharge(xs: set<nat>, a: nat, b: nat, ind: nat)
    requires ind != 0
    ensures ChargeOf(ind, xs + {a, b} + {ind} + {b}) <= ChargeOf(ind, xs) + 2
  {
    GrowTwo(xs + {ind}, a, b);
    assert xs + {a, b} + {ind} + {b} == xs + {ind} + {a, b} + {b};
    if ind in xs {
      assert xs + {ind} == xs;
    }
  }

  lemma GrowTwo(xs: set<nat>, a: nat, b: nat)
    ensures |xs + {a, b} + {b}| <= |xs| + 2
  {
    SetGrows(xs, a);
    SetGrows(xs + {a}, b);
    assert xs + {a, b} + {b} == xs + {a} + {b};
  }

  lemma EntrySlot(v: Vol, i: nat, e: nat)
    requires i < |v.ino| && |v.ino[i].addrs| == NDIRECT + 1 && e < NINDIRECT
    requires 0 < v.ino[i].addrs[NDIRECT] < |v.disk|
    ensures Slot(v, i, NDIRECT + 1 + e) == Word(v.disk[v.ino[i].addrs[NDIRECT]], e)
  {
  }

  lemma NothingChanged(sb: Super, v: Vol)
    requires Shaped(sb, v)
    ensures KeepsBytes(sb, v, v) && forall l :: Covered(v.disk, v.disk, l)
    ensures forall i, off, n :: Grown(sb, v, v, i, off, n)
  {
  }

  lemma DirectSlot(v: Vol, i: nat, k: nat)
    requires i < |v.ino| && |v.ino[i].addrs| == NDIRECT + 1 && k <= NDIRECT
    ensures Slot(v, i, k) == v.ino[i].addrs[k]
  {
  }

  lemma FilledThrough(sb: Super, u: Vol, v: Vol, i: nat, k: nat, b: nat, w: Vol)
    requires Shaped(sb, u) && Shaped(sb, v) && Shaped(sb, w) && v.ino == u.ino
    requires forall j, l :: 0 <= j < |u.ino| && 0 <= l < NSLOTS ==> Slot(v, j, l) == Slot(u, j, l)
    requires SlotFilled(sb, v, i, k, b, w)
    ensures SlotFilled(sb, u, i, k, b, w)
  {
  }

  lemma BitPosition(sb: Super, disk: seq<Data>, base: nat, bi: nat)
    requires SuperOk(sb) && |disk| == sb.size && base % BPB == 0 && bi < BPB && base + bi < sb.size
    ensures BmapBlock(sb, base + bi) == base / BPB + sb.bmapstart && BitIndex(base + bi) == bi
    ensures Bit(sb, disk, base + bi) <==> BlockBit(disk[base / BPB + sb.bmapstart], bi)
  {
  }

  lemma NonzeroBlock(sb: Super, disk: seq<Data>, owner: map<nat, (nat, nat)>, hand: set<nat>, b: nat)
    requires SuperOk(sb) && |disk| == sb.size && BitsExact(sb, disk, owner, hand) && b < sb.size && !Bit(sb, disk, b)
    ensures b != 0 && sb.nmeta <= b
  {
  }

  /** Inode blocks with these inodes in them, written one by one. */
  method InodeTable(sb: Super, disk: seq<Data>, ino: seq<Inode>, ghost owner: map<nat, (nat, nat)>)
    returns (table: seq<Data>)
    requires Inv(sb, Vol(disk, ino), owner, {})
    ensures TableOk(sb, table) && Dinodes(sb, table) == ino
  {
    hide Inv, Dinodes, PutInode;
    table := seq(sb.ninodes / IPB + 1, _ => ZEROES);
    var i := 0;
    InodeCount(sb, Vol(disk, ino), owner);
    while i < |ino|
      invariant i <= |ino| == sb.ninodes && TableOk(sb, table) && Dinodes(sb, table)[..i] == ino[..i]
    {
      InodeFits(sb, Vol(disk, ino), owner, i);
      StoreOne(sb, table, i, ino[i]);
      table := Store(sb, table, i, ino[i]);
      i := i + 1;
    }
  }

  lemma InodeCount(sb: Super, v: Vol, owner: map<nat, (nat, nat)>)
    requires Inv(sb, v, owner, {})
    ensures |v.ino| == sb.ninodes
  {
  }
}
