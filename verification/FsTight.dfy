/** The ten-block bound of filewrite is reached: a volume on which one chunk of
    three blocks' worth of bytes logs ten distinct blocks. */
module FsTight {
  import opened FsBlock
  import opened FsVolume
  import opened FsContent
  import opened FsInode
  import opened Fs

  // ---- when a write must log ten blocks ----

  predicate Blank(d: Data) {
    forall q :: 0 <= q < BSIZE ==> d[q] == 0
  }

  /** No two free blocks share a bitmap block, and all of them hold zeroes. */
  ghost predicate Scattered(sb: Super, disk: seq<Data>)
    requires SuperOk(sb) && |disk| == sb.size
  {
    && (forall b :: 0 <= b < sb.size && !Bit(sb, disk, b) ==> Blank(disk[b]))
    && forall a, b :: 0 <= a < b < sb.size && !Bit(sb, disk, a) && !Bit(sb, disk, b) ==>
         BmapBlock(sb, a) != BmapBlock(sb, b)
  }

  /** What one pass of filewrite's loop at off promises of the volume v it found, the
      volume v' it left and the blocks it logged. */
  ghost predicate Pass(sb: Super, v: Vol, owner: map<nat, (nat, nat)>, v': Vol, owner': map<nat, (nat, nat)>,
                       i: nat, off: nat, n: nat, logged: set<nat>)
  {
    && Inv(sb, v, owner, {}) && Inv(sb, v', owner', {}) && i < |v.ino|
    && Grown(sb, v, v', i, off, n) && Covered(v.disk, v'.disk, logged)
  }

  /** A block in a slot that was empty was free, and its bitmap block is logged. */
  lemma NewBlock(sb: Super, v: Vol, owner: map<nat, (nat, nat)>, v': Vol, owner': map<nat, (nat, nat)>,
                 i: nat, off: nat, n: nat, logged: set<nat>, k: nat)
    requires Pass(sb, v, owner, v', owner', i, off, n, logged) && k < NSLOTS
    requires Slot(v, i, k) == 0 && Slot(v', i, k) != 0
    ensures var b := Slot(v', i, k);
            sb.nmeta <= b < sb.size && !Bit(sb, v.disk, b) && BmapBlock(sb, b) in logged
  {
    hide Slot, Bit;
    var b := Slot(v', i, k);
    assert b in owner' && owner'[b] == (i, k);
    assert b !in owner;
    assert !Bit(sb, v.disk, b) && Bit(sb, v'.disk, b);
    BitChanged(sb, v.disk, v'.disk, b, logged);
  }

  lemma BitChanged(sb: Super, d: seq<Data>, d': seq<Data>, b: nat, logged: set<nat>)
    requires SuperOk(sb) && |d| == sb.size && b < sb.size && Covered(d, d', logged)
    requires Bit(sb, d, b) != Bit(sb, d', b)
    ensures BmapBlock(sb, b) in logged
  {
  }

  /** A block of the file that held zeroes and now holds another byte is logged. */
  lemma NewByte(sb: Super, v: Vol, owner: map<nat, (nat, nat)>, v': Vol, owner': map<nat, (nat, nat)>,
                i: nat, off: nat, n: nat, logged: set<nat>, p: nat)
    requires Pass(sb, v, owner, v', owner', i, off, n, logged)
    requires p < v'.ino[i].size && Content(sb, v', i)[p] != 0
    requires var k := DataSlot(p / BSIZE);
             if Slot(v, i, k) == 0 then Scattered(sb, v.disk)
             else Slot(v, i, k) < |v.disk| && Blank(v.disk[Slot(v, i, k)])
    ensures Slot(v', i, DataSlot(p / BSIZE)) != 0 && Slot(v', i, DataSlot(p / BSIZE)) in logged
  {
    hide Slot, Bit;
    var k := DataSlot(p / BSIZE);
    assert Slot(v', i, k) != 0;
    var b := Slot(v', i, k);
    assert b in owner';
    assert v'.disk[b][p % BSIZE] != 0;
    if Slot(v, i, k) == 0 {
      NewBlock(sb, v, owner, v', owner', i, off, n, logged, k);
    }
    assert Blank(v.disk[b]);
  }

  /** A file of NDIRECT blocks, the last of them blank, about to be written from the
      second byte of that last block on. */
  ghost predicate Ready(sb: Super, v: Vol, i: nat) {
    && Shaped(sb, v) && i < |v.ino| && Scattered(sb, v.disk)
    && 0 < Slot(v, i, NDIRECT - 1) < |v.disk| && Blank(v.disk[Slot(v, i, NDIRECT - 1)])
    && v.ino[i].addrs[NDIRECT] == 0
    && InodeBlock(sb, i) < sb.bmapstart
  }

  const OFF: nat := (NDIRECT - 1) * BSIZE + 1

  /** Bytes other than zero are now where the pass was to write. */
  ghost predicate WroteAll(sb: Super, v': Vol, i: nat)
    requires Shaped(sb, v') && i < |v'.ino|
  {
    v'.ino[i].size >= OFF + 3 * BSIZE && forall p :: OFF <= p < OFF + 3 * BSIZE ==> Content(sb, v', i)[p] != 0
  }

  /** The last direct block, the three blocks behind it and the indirect block are
      logged, and so are the bitmap blocks of the four new ones. */
  lemma FileBlocks(sb: Super, v: Vol, owner: map<nat, (nat, nat)>, v': Vol, owner': map<nat, (nat, nat)>,
                   i: nat, n: nat, logged: set<nat>, k: nat)
    requires Pass(sb, v, owner, v', owner', i, OFF, n, logged) && Ready(sb, v, i) && WroteAll(sb, v', i)
    requires NDIRECT - 1 <= k <= NDIRECT + 3
    ensures var b := Slot(v', i, k);
            && sb.nmeta <= b < sb.size && b in owner' && owner'[b] == (i, k) && b in logged
            && (k >= NDIRECT ==> !Bit(sb, v.disk, b) && BmapBlock(sb, b) in logged)
  {
    hide Bit, Content;
    if k >= NDIRECT {
      assert Slot(v, i, k) == 0;
    }
    if k == NDIRECT {
      IndirectLogged(sb, v, owner, v', owner', i, n, logged);
    } else {
      var bn := if k < NDIRECT then k else k - 1;
      var p := if k < NDIRECT then OFF else bn * BSIZE;
      assert p / BSIZE == bn && DataSlot(bn) == k;
      NewByte(sb, v, owner, v', owner', i, OFF, n, logged, p);
      if k > NDIRECT {
        NewBlock(sb, v, owner, v', owner', i, OFF, n, logged, k);
      }
    }
  }

  lemma IndirectLogged(sb: Super, v: Vol, owner: map<nat, (nat, nat)>, v': Vol, owner': map<nat, (nat, nat)>,
                       i: nat, n: nat, logged: set<nat>)
    requires Pass(sb, v, owner, v', owner', i, OFF, n, logged) && Ready(sb, v, i) && WroteAll(sb, v', i)
    ensures var b := Slot(v', i, NDIRECT);
            && sb.nmeta <= b < sb.size && b in owner' && owner'[b] == (i, NDIRECT) && b in logged
            && !Bit(sb, v.disk, b) && BmapBlock(sb, b) in logged
  {
    hide Bit, Content;
    assert NDIRECT * BSIZE < v'.ino[i].size;
    assert Slot(v', i, DataSlot(NDIRECT)) != 0;
    var b := Slot(v', i, NDIRECT);
    assert b != 0 && Word(v'.disk[b], 0) != 0;
    assert Slot(v, i, NDIRECT) == 0;
    NewBlock(sb, v, owner, v', owner', i, OFF, n, logged, NDIRECT);
    assert Blank(v.disk[b]) && Word(v.disk[b], 0) == 0;
  }

  lemma {:induction false} TenApart(sb: Super, inode: nat, m0: nat, m1: nat, m2: nat, m3: nat,
                 x0: nat, x1: nat, x2: nat, x3: nat, x4: nat, logged: set<nat>)
    requires inode < m0 && inode < m1 && inode < m2 && inode < m3
      && {inode, m0, m1, m2, m3, x0, x1, x2, x3, x4} <= logged
    requires m0 < sb.nmeta && m1 < sb.nmeta && m2 < sb.nmeta && m3 < sb.nmeta
    requires sb.nmeta <= x0 && sb.nmeta <= x1 && sb.nmeta <= x2 && sb.nmeta <= x3 && sb.nmeta <= x4
    requires m0 != m1 && m0 != m2 && m0 != m3 && m1 != m2 && m1 != m3 && m2 != m3
    requires x0 != x1 && x0 != x2 && x0 != x3 && x0 != x4 && x1 != x2 && x1 != x3 && x1 != x4
    requires x2 != x3 && x2 != x4 && x3 != x4
    ensures |logged| >= 10
  {
    SubsetSize({inode, m0, m1, m2, m3, x0, x1, x2, x3, x4}, logged);
  }

  lemma Apart(sb: Super, v: Vol, i: nat, a: nat, b: nat)
    requires Ready(sb, v, i) && a < sb.size && b < sb.size && a != b
    requires !Bit(sb, v.disk, a) && !Bit(sb, v.disk, b)
    ensures BmapBlock(sb, a) != BmapBlock(sb, b)
    ensures InodeBlock(sb, i) < BmapBlock(sb, a) < sb.nmeta && InodeBlock(sb, i) < BmapBlock(sb, b) < sb.nmeta
  {
    hide Bit, Slot, Blank;
  }

  /** Such a pass logs at least ten distinct blocks. */
  lemma LogsTen(sb: Super, v: Vol, owner: map<nat, (nat, nat)>, v': Vol, owner': map<nat, (nat, nat)>,
                i: nat, n: nat, logged: set<nat>)
    requires Pass(sb, v, owner, v', owner', i, OFF, n, logged) && Ready(sb, v, i) && WroteAll(sb, v', i)
    requires InodeBlock(sb, i) in logged
    ensures |logged| >= MAXOPBLOCKS
  {
    hide Bit, Slot, Owned, BitsExact, Filled, Grown, Covered, WroteAll, Scattered, Ready, Content, BmapBlock;
    FileBlocks(sb, v, owner, v', owner', i, n, logged, 11);
    FileBlocks(sb, v, owner, v', owner', i, n, logged, 12);
    FileBlocks(sb, v, owner, v', owner', i, n, logged, 13);
    FileBlocks(sb, v, owner, v', owner', i, n, logged, 14);
    FileBlocks(sb, v, owner, v', owner', i, n, logged, 15);
    var x0, x1, x2, x3, x4 := Slot(v', i, 11), Slot(v', i, 12), Slot(v', i, 13), Slot(v', i, 14), Slot(v', i, 15);
    Apart(sb, v, i, x1, x2);
    Apart(sb, v, i, x1, x3);
    Apart(sb, v, i, x1, x4);
    Apart(sb, v, i, x2, x3);
    Apart(sb, v, i, x2, x4);
    Apart(sb, v, i, x3, x4);
    TenApart(sb, InodeBlock(sb, i), BmapBlock(sb, x1), BmapBlock(sb, x2), BmapBlock(sb, x3), BmapBlock(sb, x4),
             x0, x1, x2, x3, x4, logged);
  }

  /** A free block that is in use now is in one of the four slots. */
  lemma FilledFree(sb: Super, v: Vol, owner: map<nat, (nat, nat)>, v': Vol, owner': map<nat, (nat, nat)>,
                   i: nat, logged: set<nat>, b: nat)
    requires Pass(sb, v, owner, v', owner', i, OFF, 3 * BSIZE, logged) && Ready(sb, v, i)
    requires b < sb.size && !Bit(sb, v.disk, b) && Bit(sb, v'.disk, b)
    ensures b in owner' && owner'[b].0 == i && NDIRECT <= owner'[b].1 <= NDIRECT + 3 && Slot(v', i, owner'[b].1) == b
  {
    hide Bit, Slot, Blank;
    assert b !in owner && b in owner';
    var (j, k) := owner'[b];
    assert Slot(v', j, k) == b;
    assert Slot(v, j, k) != b;
  }

  lemma Pigeonhole(v: Vol, i: nat, f: seq<nat>, ks: seq<nat>)
    requires i < |v.ino| && |v.ino[i].addrs| == NDIRECT + 1 && |f| == |ks| == 5
    requires forall t :: 0 <= t < 5 ==> NDIRECT <= ks[t] <= NDIRECT + 3 && Slot(v, i, ks[t]) == f[t]
    ensures exists s, t :: 0 <= s < t < 5 && f[s] == f[t]
  {
    hide Slot;
    var a, b, c, d, e := ks[0], ks[1], ks[2], ks[3], ks[4];
    assert a == b || a == c || a == d || a == e || b == c || b == d || b == e || c == d || c == e || d == e;
    assert f[0] == f[1] || f[0] == f[2] || f[0] == f[3] || f[0] == f[4] || f[1] == f[2] || f[1] == f[3] || f[1] == f[4]
        || f[2] == f[3] || f[2] == f[4] || f[3] == f[4];
  }

  /** With five free blocks to begin with, such a pass cannot fill the disk. */
  lemma NotFull(sb: Super, v: Vol, owner: map<nat, (nat, nat)>, v': Vol, owner': map<nat, (nat, nat)>,
                i: nat, logged: set<nat>, f: seq<nat>)
    requires Pass(sb, v, owner, v', owner', i, OFF, 3 * BSIZE, logged) && Ready(sb, v, i)
    requires |f| == 5 && forall s, t :: 0 <= s < t < 5 ==> f[s] != f[t]
    requires forall t :: 0 <= t < 5 ==> f[t] < sb.size && !Bit(sb, v.disk, f[t])
    ensures exists t :: 0 <= t < 5 && !Bit(sb, v'.disk, f[t])
  {
    hide Bit, Slot;
    if forall t :: 0 <= t < 5 ==> Bit(sb, v'.disk, f[t]) {
      forall t | 0 <= t < 5
        ensures f[t] in owner' && owner'[f[t]].0 == i && NDIRECT <= owner'[f[t]].1 <= NDIRECT + 3
        ensures Slot(v', i, owner'[f[t]].1) == f[t]
      {
        FilledFree(sb, v, owner, v', owner', i, logged, f[t]);
      }
      Pigeonhole(v', i, f, seq(5, t requires 0 <= t < 5 => owner'[f[t]].1));
    }
  }

  // ---- a volume on which it happens ----

  const SIZE: nat := 4 * BPB + 1
  const FILLERS: nat := 92
  const DATA: nat := BPB - 1
  const META: nat := DATA - NDIRECT

  function Volume(): (sb: Super)
    ensures SuperOk(sb)
  {
    Super(SIZE, FILLERS + 1, 100, 200, META)
  }

  /** Every block of the data area is some filler file's, but for BPB - 1 and the
      multiples of BPB: one free block for each of the five bitmap blocks. */
  predicate Taken(b: nat) {
    DATA < b < SIZE && b % BPB != 0
  }

  /** Slot k of filler file j. */
  function At(j: nat, k: nat): (b: nat) {
    var x := DATA + NSLOTS * j + k; if Taken(x) then x else 0
  }

  predicate InUse(b: nat) {
    b < DATA || Taken(b)
  }

  function Zeroes(): (d: Data)
    ensures Blank(d)
  {
    seq(BSIZE, _ => 0)
  }

  function Entries(j: nat, e: nat): (d: Data)
    requires e <= NINDIRECT
  {
    if e == 0 then Zeroes() else SetWord(Entries(j, e - 1), e - 1, At(j, NDIRECT + e))
  }

  lemma {:induction false} EntriesAt(j: nat, e: nat, x: nat)
    requires e <= NINDIRECT && x < NINDIRECT
    ensures Word(Entries(j, e), x) == if x < e then At(j, NDIRECT + 1 + x) else 0
  {
    if e > 0 {
      EntriesAt(j, e - 1, x);
      WordRoundTrip(Entries(j, e - 1), e - 1, At(j, NDIRECT + e), x);
    }
  }

  function Bitmap(t: nat, n: nat): (d: Data)
    requires n <= BPB
  {
    if n == 0 then Zeroes()
    else if InUse(BPB * t + n - 1) then MarkBit(Bitmap(t, n - 1), n - 1)
    else Bitmap(t, n - 1)
  }

  lemma {:induction false} NoBits(k: nat)
    ensures !HasBit(0, k)
  {
    if k > 0 {
      NoBits(k - 1);
    }
  }

  lemma {:induction false} BitmapAt(t: nat, n: nat, bi: nat)
    requires n <= BPB && bi < BPB
    ensures BlockBit(Bitmap(t, n), bi) <==> bi < n && InUse(BPB * t + bi)
  {
    if n == 0 {
      NoBits(bi % 8);
    } else {
      BitmapAt(t, n - 1, bi);
      MarkedBits(Bitmap(t, n - 1), n - 1, bi);
    }
  }

  function BlockOf(b: nat): (d: Data) {
    if 200 <= b <= 204 then Bitmap(b - 200, BPB)
    else if b > DATA && (b - DATA) % NSLOTS == NDIRECT then Entries((b - DATA) / NSLOTS, NINDIRECT)
    else Zeroes()
  }

  const FILE: Kind := Kind(2, 0, 0, 1)

  function InodeOf(j: nat): (ino: Inode) {
    if j < FILLERS then Inode(FILE, seq(NDIRECT + 1, k requires 0 <= k => At(j, k)), 0)
    else Inode(FILE, seq(NDIRECT + 1, k => if 0 <= k < NDIRECT then META + k else 0), NDIRECT * BSIZE)
  }

  function Disk(): (v: Vol) {
    Vol(seq(SIZE, b requires 0 <= b => BlockOf(b)), seq(FILLERS + 1, j requires 0 <= j => InodeOf(j)))
  }

  function OwnerOf(b: nat): (o: (nat, nat))
    requires META <= b
  {
    if b < DATA then (FILLERS, b - META) else ((b - DATA) / NSLOTS, (b - DATA) % NSLOTS)
  }

  ghost function Owners(): (owner: map<nat, (nat, nat)>) {
    map b: nat | META <= b < SIZE && InUse(b) :: OwnerOf(b)
  }

  function SlotOf(j: nat, k: nat): (b: nat) {
    if j < FILLERS then At(j, k) else if k < NDIRECT then META + k else 0
  }

  /** Each filler has its indirect block. */
  lemma IndirectTaken(j: nat)
    requires j < FILLERS
    ensures Taken(DATA + NSLOTS * j + NDIRECT)
  {
    var x := DATA + NSLOTS * j + NDIRECT;
    assert x == BPB * (x / BPB) + x % BPB;
  }

  lemma DivMod(j: nat, k: nat)
    requires k < NSLOTS
    ensures (NSLOTS * j + k) / NSLOTS == j && (NSLOTS * j + k) % NSLOTS == k
  {
  }

  lemma VolumeShaped()
    ensures Shaped(Volume(), Disk())
  {
    hide BlockOf, At;
  }

  lemma SlotIs(j: nat, k: nat)
    requires j <= FILLERS && k < NSLOTS
    ensures Shaped(Volume(), Disk())
    ensures Slot(Disk(), j, k) == SlotOf(j, k)
  {
    VolumeShaped();
    hide Entries, Bitmap, At;
    if j < FILLERS && k > NDIRECT {
      IndirectAt(j);
      EntriesAt(j, NINDIRECT, k - NDIRECT - 1);
      hide BlockOf;
    }
  }

  /** The indirect block of filler j. */
  lemma IndirectAt(j: nat)
    requires j < FILLERS
    ensures 0 < At(j, NDIRECT) < SIZE && BlockOf(At(j, NDIRECT)) == Entries(j, NINDIRECT)
  {
    hide Entries, Bitmap;
    IndirectTaken(j);
    DivMod(j, NDIRECT);
  }

  lemma OwnerOfSlot(j: nat, k: nat)
    requires j <= FILLERS && k < NSLOTS && SlotOf(j, k) != 0
    ensures SlotOf(j, k) in Owners() && Owners()[SlotOf(j, k)] == (j, k)
  {
    DivMod(j, k);
  }

  lemma SlotOfOwner(b: nat)
    requires b in Owners()
    ensures META <= b < SIZE && Owners()[b].0 <= FILLERS && Owners()[b].1 < NSLOTS
    ensures SlotOf(Owners()[b].0, Owners()[b].1) == b
  {
  }

  lemma VolumeOwned()
    ensures Shaped(Volume(), Disk()) && Owned(Volume(), Disk(), Owners())
  {
    hide Slot, SlotOf, Owners;
    SlotIs(0, 0);
    var v, owner := Disk(), Owners();
    forall j, k | 0 <= j < |v.ino| && 0 <= k < NSLOTS && Slot(v, j, k) != 0
      ensures Slot(v, j, k) in owner && owner[Slot(v, j, k)] == (j, k)
    {
      SlotIs(j, k);
      OwnerOfSlot(j, k);
    }
    forall b | b in owner
      ensures META <= b < SIZE && owner[b].0 < |v.ino| && owner[b].1 < NSLOTS && Slot(v, owner[b].0, owner[b].1) == b
    {
      SlotOfOwner(b);
      SlotIs(owner[b].0, owner[b].1);
    }
  }

  lemma VolumeBits(b: nat)
    requires b < SIZE
    ensures Bit(Volume(), Disk().disk, b) <==> InUse(b)
  {
    hide Bitmap, InUse, Disk, BlockBit;
    var t := b / BPB;
    Position(b);
    BitmapBlock(t);
    BitmapAt(t, BPB, b % BPB);
  }

  lemma Position(b: nat)
    requires b < SIZE
    ensures b / BPB <= 4 && BPB * (b / BPB) + b % BPB == b
  {
  }

  lemma BitmapBlock(t: nat)
    requires t <= 4
    ensures |Disk().disk| == SIZE && Disk().disk[200 + t] == Bitmap(t, BPB)
  {
    hide Bitmap, Entries, InodeOf;
  }

  lemma VolumeBitsExact()
    ensures BitsExact(Volume(), Disk().disk, Owners(), {})
  {
    hide Bit, BlockOf, InodeOf;
    forall b | 0 <= b < SIZE
      ensures Bit(Volume(), Disk().disk, b) <==> b < META || b in Owners()
    {
      VolumeBits(b);
    }
  }

  predicate IsFree(b: nat) {
    b == DATA || b == BPB || b == 2 * BPB || b == 3 * BPB || b == 4 * BPB
  }

  lemma NotInUse(b: nat)
    requires b < SIZE
    ensures InUse(b) <==> !IsFree(b)
  {
    assert b == BPB * (b / BPB) + b % BPB;
  }

  lemma FreeBlock(b: nat)
    requires b < SIZE && !Bit(Volume(), Disk().disk, b)
    ensures IsFree(b) && Blank(BlockOf(b))
  {
    hide Bit, Bitmap, Entries, Blank;
    VolumeBits(b);
    NotInUse(b);
  }

  lemma VolumeScattered()
    ensures Scattered(Volume(), Disk().disk)
  {
    hide Bit, BlockOf, InodeOf, Blank;
    var sb, disk := Volume(), Disk().disk;
    forall b | 0 <= b < SIZE && !Bit(sb, disk, b)
      ensures Blank(disk[b])
    {
      FreeBlock(b);
    }
    forall a, b | 0 <= a < b < SIZE && !Bit(sb, disk, a) && !Bit(sb, disk, b)
      ensures BmapBlock(sb, a) != BmapBlock(sb, b)
    {
      FreeBlock(a);
      FreeBlock(b);
    }
  }

  lemma VolumeFilled()
    requires Shaped(Volume(), Disk())
    ensures Filled(Volume(), Disk())
  {
    hide Slot;
    var v := Disk();
    forall i, bn | 0 <= i < |v.ino| && 0 <= bn < MAXFILE && bn * BSIZE < v.ino[i].size
      ensures Slot(v, i, DataSlot(bn)) != 0
    {
      SlotIs(i, DataSlot(bn));
    }
  }

  lemma VolumeOk()
    ensures Inv(Volume(), Disk(), Owners(), {}) && Ready(Volume(), Disk(), FILLERS)
    ensures Shaped(Volume(), Disk()) && |Content(Volume(), Disk(), FILLERS)| == NDIRECT * BSIZE
  {
    hide Slot, Bit, Owned, BitsExact, Filled, Owners, Scattered;
    VolumeOwned();
    VolumeBitsExact();
    VolumeScattered();
    VolumeFilled();
    SlotIs(FILLERS, NDIRECT - 1);
  }

  /** What filewrite's first transaction promises, from offset off of file i on: it took
      the volume v to v' and logged these blocks. */
  ghost predicate FirstChunk(sb: Super, v: Vol, owner: map<nat, (nat, nat)>, v': Vol, owner': map<nat, (nat, nat)>,
                             i: nat, off: nat, src: seq<Byte>, r: nat, last: bool, logged: set<nat>)
  {
    && Pass(sb, v, owner, v', owner', i, off, |src|, logged) && |logged| <= MAXOPBLOCKS
    && off <= v.ino[i].size && r <= |src|
    && Content(sb, v', i) == Overwrite(Content(sb, v, i), off, src[..r])
    && (last ==> off + |src| > MAXFILE * BSIZE || forall j :: 0 <= j < sb.size ==> Bit(sb, v'.disk, j))
    && (!last ==> r == Batch(|src|))
    && (r > 0 ==> InodeBlock(sb, i) in logged)
  }

  /** It does promise that, whatever the file system, if all of the source can be read. */
  method FirstPass(fs: Fs, i: nat, off: nat, src: seq<Byte>) returns (r: nat, last: bool)
    requires fs.Valid() && fs.Tabled() && i < |fs.ino| && off <= fs.ino[i].size && 0 < |src| < 0x8000_0000
    modifies fs
    ensures fs.Valid()
    ensures FirstChunk(fs.sb, old(fs.V()), old(fs.owner), fs.V(), fs.owner, i, off, src, r, last, fs.logged)
  {
    hide Owned, BitsExact, Filled, Grown, Covered, Overwrite, Bit;
    WrittenNothing(Content(fs.sb, fs.V(), i), off, src);
    assert |Content(fs.sb, fs.V(), i)| == fs.ino[i].size;
    hide Content;
    ghost var k, stray;
    r, last, k, stray := fs.FileChunk(i, off, off, src, 0, |src|, Content(fs.sb, fs.V(), i));
    assert fs.logged + stray == fs.logged;
    WrittenSize(old(Content(fs.sb, fs.V(), i)), off, src, r, Content(fs.sb, fs.V(), i));
  }

  /** The bound is reached: from that volume and offset filewrite's first transaction
      cannot but write all it was given and log ten distinct blocks. */
  lemma TenBlocks(v': Vol, owner': map<nat, (nat, nat)>, src: seq<Byte>, r: nat, last: bool, logged: set<nat>)
    requires |src| == 3 * BSIZE && forall p :: 0 <= p < |src| ==> src[p] == 1
    requires FirstChunk(Volume(), Disk(), Owners(), v', owner', FILLERS, OFF, src, r, last, logged)
    ensures r == |src| && |logged| == MAXOPBLOCKS
  {
    hide Bit, Slot, Owned, BitsExact, Filled, Grown, Covered, Content, Overwrite, Ready, BlockOf, InodeOf;
    VolumeOk();
    if last {
      var f := [DATA, BPB, 2 * BPB, 3 * BPB, 4 * BPB];
      forall t | 0 <= t < 5
        ensures !Bit(Volume(), Disk().disk, f[t])
      {
        NotInUse(f[t]);
        VolumeBits(f[t]);
      }
      NotFull(Volume(), Disk(), Owners(), v', owner', FILLERS, logged, f);
    }
    AllThere(v', src);
    LogsTen(Volume(), Disk(), Owners(), v', owner', FILLERS, 3 * BSIZE, logged);
  }

  lemma AllThere(v': Vol, src: seq<Byte>)
    requires Shaped(Volume(), v') && |src| == 3 * BSIZE && forall p :: 0 <= p < |src| ==> src[p] == 1
    requires Shaped(Volume(), Disk())
    requires Content(Volume(), v', FILLERS) == Overwrite(Content(Volume(), Disk(), FILLERS), OFF, src[..|src|])
    ensures WroteAll(Volume(), v', FILLERS)
  {
    var c := Content(Volume(), v', FILLERS);
    assert |Content(Volume(), Disk(), FILLERS)| == NDIRECT * BSIZE;
    forall p | OFF <= p < OFF + 3 * BSIZE
      ensures c[p] != 0
    {
      OverwriteAt(Content(Volume(), Disk(), FILLERS), OFF, src[..|src|], p);
    }
  }

  /** That volume, and the write on it. */
  method TenBlocksLogged() returns (fs: Fs, r: nat)
    ensures fresh(fs) && fs.Valid() && r == 3 * BSIZE && |fs.logged| == MAXOPBLOCKS
  {
    hide Inv, FirstChunk, Ready, BlockOf, InodeOf;
    VolumeOk();
    var table := InodeTable(Volume(), Disk().disk, Disk().ino, Owners());
    fs := new Fs(Volume(), Disk().disk, Disk().ino, table, Owners());
    var src: seq<Byte> := seq(3 * BSIZE, _ => 1);
    VolumeSize();
    var last: bool;
    r, last := FirstPass(fs, FILLERS, OFF, src);
    TenBlocks(fs.V(), fs.owner, src, r, last, fs.logged);
  }

  lemma VolumeSize()
    ensures |Disk().ino| == FILLERS + 1 && OFF <= Disk().ino[FILLERS].size
  {
  }
}
