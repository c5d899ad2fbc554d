/** The file system as the buffer cache shows it: a flat array of blocks and the
    inodes.  Every block is reached from at most one slot of one inode, and the
    free bitmap says exactly which blocks are in use. */
module FsVolume {
  import opened FsBlock

  const NSLOTS: nat := NDIRECT + 1 + NINDIRECT
  const IPB: nat := 16

  /** The superblock fields the allocator uses.  Blocks below nmeta are the boot
      block, the superblock, the log, the inode blocks and the bitmap. */
  datatype Super = Super(size: nat, ninodes: nat, inodestart: nat, bmapstart: nat, nmeta: nat)

  /** A 16-bit field, as a bit pattern. */
  type Short = s: int | 0 <= s < 0x1_0000

  datatype Kind = Kind(ftype: Short, major: Short, minor: Short, nlink: Short)

  datatype Inode = Inode(kind: Kind, addrs: seq<nat>, size: nat)

  datatype Vol = Vol(disk: seq<Data>, ino: seq<Inode>)

  predicate SuperOk(sb: Super) {
    && 0 < sb.nmeta <= sb.size < 0x1_0000_0000
    && sb.bmapstart + sb.size / BPB < sb.nmeta
    && sb.inodestart + sb.ninodes / IPB < sb.bmapstart
  }

  ghost predicate Shaped(sb: Super, v: Vol) {
    && SuperOk(sb) && |v.disk| == sb.size && |v.ino| == sb.ninodes
    && forall i :: 0 <= i < |v.ino| ==> |v.ino[i].addrs| == NDIRECT + 1 && v.ino[i].size <= MAXFILE * BSIZE
  }

  /** The block number in slot k of inode i: the direct blocks, the indirect block
      itself, then the entries of the indirect block; 0 is an empty slot. */
  ghost function Slot(v: Vol, i: nat, k: nat): (b: nat)
    requires i < |v.ino| && |v.ino[i].addrs| == NDIRECT + 1 && k < NSLOTS
  {
    if k <= NDIRECT then v.ino[i].addrs[k]
    else
      var ind := v.ino[i].addrs[NDIRECT];
      if 0 < ind < |v.disk| then Word(v.disk[ind], k - NDIRECT - 1) else 0
  }

  /** The slot that holds the n-th block of a file. */
  function DataSlot(bn: nat): (k: nat)
    requires bn < MAXFILE
    ensures k < NSLOTS && k != NDIRECT
  {
    if bn < NDIRECT then bn else bn + 1
  }

  /** The bitmap block and the bit in it for block b. */
  function BmapBlock(sb: Super, b: nat): (m: nat)
    requires SuperOk(sb) && b < sb.size
    ensures m < sb.nmeta
  {
    b / BPB + sb.bmapstart
  }

  function BitIndex(b: nat): (bi: nat)
    ensures bi < BPB
  {
    b % BPB
  }

  /** Block b's bit in the free bitmap: set means in use. */
  ghost predicate Bit(sb: Super, disk: seq<Data>, b: nat)
    requires SuperOk(sb) && |disk| == sb.size && b < sb.size
  {
    BlockBit(disk[BmapBlock(sb, b)], BitIndex(b))
  }

  /** `owner` is the inverse of Slot: each data block in use has exactly one slot. */
  ghost predicate Owned(sb: Super, v: Vol, owner: map<nat, (nat, nat)>)
    requires Shaped(sb, v)
  {
    && (forall i, k :: 0 <= i < |v.ino| && 0 <= k < NSLOTS && Slot(v, i, k) != 0 ==>
          Slot(v, i, k) in owner && owner[Slot(v, i, k)] == (i, k))
    && (forall b :: b in owner ==>
          && sb.nmeta <= b < sb.size && owner[b].0 < |v.ino| && owner[b].1 < NSLOTS
          && Slot(v, owner[b].0, owner[b].1) == b)
  }

  /** The bitmap marks metadata, owned blocks, and blocks allocated but not yet
      stored in a slot. */
  ghost predicate BitsExact(sb: Super, disk: seq<Data>, owner: map<nat, (nat, nat)>, hand: set<nat>)
    requires SuperOk(sb) && |disk| == sb.size
  {
    && (forall b :: 0 <= b < sb.size ==> (Bit(sb, disk, b) <==> b < sb.nmeta || b in owner || b in hand))
    && (forall b :: b in hand ==> sb.nmeta <= b < sb.size && b !in owner)
  }

  /** Every block below a file's size is there. */
  ghost predicate Filled(sb: Super, v: Vol)
    requires Shaped(sb, v)
  {
    forall i, bn :: 0 <= i < |v.ino| && 0 <= bn < MAXFILE && bn * BSIZE < v.ino[i].size ==>
      Slot(v, i, DataSlot(bn)) != 0
  }

  ghost predicate Inv(sb: Super, v: Vol, owner: map<nat, (nat, nat)>, hand: set<nat>) {
    && Shaped(sb, v)
    && Owned(sb, v, owner)
    && BitsExact(sb, v.disk, owner, hand)
    && Filled(sb, v)
  }

  // ---- what changing one block changes ----

  /** Slots do not depend on a block that is no inode's indirect block. */
  lemma SlotFrame(sb: Super, v: Vol, x: nat, d: Data, i: nat, k: nat)
    requires Shaped(sb, v) && i < |v.ino| && k < NSLOTS && x < |v.disk|
    requires v.ino[i].addrs[NDIRECT] != x || x == 0
    ensures Slot(v.(disk := v.disk[x := d]), i, k) == Slot(v, i, k)
  {
  }

  lemma IndirectIsOwned(sb: Super, v: Vol, owner: map<nat, (nat, nat)>, i: nat)
    requires Shaped(sb, v) && Owned(sb, v, owner) && i < |v.ino|
    ensures var ind := v.ino[i].addrs[NDIRECT];
            ind == 0 || (sb.nmeta <= ind < sb.size && ind in owner && owner[ind] == (i, NDIRECT))
  {
    assert Slot(v, i, NDIRECT) == v.ino[i].addrs[NDIRECT];
  }

  /** Writing a block that is no indirect block keeps ownership. */
  lemma WriteKeepsOwned(sb: Super, v: Vol, owner: map<nat, (nat, nat)>, x: nat, d: Data)
    requires Shaped(sb, v) && Owned(sb, v, owner) && Filled(sb, v) && x < |v.disk|
    requires x in owner ==> owner[x].1 != NDIRECT
    ensures var v' := v.(disk := v.disk[x := d]);
            && Shaped(sb, v') && Owned(sb, v', owner) && Filled(sb, v')
            && forall i, k :: 0 <= i < |v.ino| && 0 <= k < NSLOTS ==> Slot(v', i, k) == Slot(v, i, k)
  {
    var v' := v.(disk := v.disk[x := d]);
    forall i, k | 0 <= i < |v.ino| && 0 <= k < NSLOTS
      ensures Slot(v', i, k) == Slot(v, i, k)
    {
      IndirectIsOwned(sb, v, owner, i);
      SlotFrame(sb, v, x, d, i, k);
    }
  }

  /** Bits do not depend on blocks outside the bitmap. */
  lemma WriteKeepsBits(sb: Super, disk: seq<Data>, owner: map<nat, (nat, nat)>, hand: set<nat>, x: nat, d: Data)
    requires SuperOk(sb) && |disk| == sb.size && sb.nmeta <= x < sb.size
    requires BitsExact(sb, disk, owner, hand)
    ensures BitsExact(sb, disk[x := d], owner, hand)
  {
    var disk' := disk[x := d];
    forall b | 0 <= b < sb.size
      ensures Bit(sb, disk', b) <==> b < sb.nmeta || b in owner || b in hand
    {
      assert Bit(sb, disk', b) <==> Bit(sb, disk, b);
    }
  }

  // ---- allocation and freeing ----

  /** The disk after block b's bit was set, or cleared. */
  function Marked(sb: Super, disk: seq<Data>, b: nat): (r: seq<Data>)
    requires SuperOk(sb) && |disk| == sb.size && b < sb.size
    ensures |r| == |disk|
  {
    var m := BmapBlock(sb, b);
    disk[m := MarkBit(disk[m], BitIndex(b))]
  }

  function Unmarked(sb: Super, disk: seq<Data>, b: nat): (r: seq<Data>)
    requires SuperOk(sb) && |disk| == sb.size && b < sb.size
    ensures |r| == |disk|
  {
    var m := BmapBlock(sb, b);
    disk[m := UnmarkBit(disk[m], BitIndex(b))]
  }

  lemma SameBit(sb: Super, b: nat, j: nat)
    requires SuperOk(sb) && b < sb.size && j < sb.size && BmapBlock(sb, b) == BmapBlock(sb, j)
    ensures BitIndex(b) == BitIndex(j) <==> b == j
  {
    assert b == b / BPB * BPB + b % BPB && j == j / BPB * BPB + j % BPB;
  }

  lemma MarkedBit(sb: Super, disk: seq<Data>, b: nat, j: nat)
    requires SuperOk(sb) && |disk| == sb.size && b < sb.size && j < sb.size
    ensures Bit(sb, Marked(sb, disk, b), j) <==> j == b || Bit(sb, disk, j)
    ensures Bit(sb, Unmarked(sb, disk, b), j) <==> j != b && Bit(sb, disk, j)
  {
    hide BlockBit, MarkBit, UnmarkBit, BmapBlock, BitIndex;
    if BmapBlock(sb, j) == BmapBlock(sb, b) {
      MarkedBits(disk[BmapBlock(sb, b)], BitIndex(b), BitIndex(j));
      SameBit(sb, b, j);
    }
  }

  /** balloc: a block whose bit was clear is nobody's; it is now in hand, zeroed. */
  lemma AllocKeepsInv(sb: Super, v: Vol, owner: map<nat, (nat, nat)>, hand: set<nat>, b: nat)
    requires Inv(sb, v, owner, hand) && b < sb.size && !Bit(sb, v.disk, b)
    ensures sb.nmeta <= b && b !in owner && b !in hand
    ensures var v' := v.(disk := Marked(sb, v.disk, b)[b := ZEROES]);
            && Inv(sb, v', owner, hand + {b})
            && forall i, k :: 0 <= i < |v.ino| && 0 <= k < NSLOTS ==> Slot(v', i, k) == Slot(v, i, k)
  {
    var m := BmapBlock(sb, b);
    var v1 := v.(disk := Marked(sb, v.disk, b));
    WriteKeepsOwned(sb, v, owner, m, MarkBit(v.disk[m], BitIndex(b)));
    forall j | 0 <= j < sb.size
      ensures Bit(sb, v1.disk, j) <==> j < sb.nmeta || j in owner || j in hand + {b}
    {
      MarkedBit(sb, v.disk, b, j);
    }
    WriteKeepsOwned(sb, v1, owner, b, ZEROES);
    WriteKeepsBits(sb, v1.disk, owner, hand + {b}, b, ZEROES);
  }

  /** bfree of a block in hand. */
  lemma FreeKeepsInv(sb: Super, v: Vol, owner: map<nat, (nat, nat)>, hand: set<nat>, b: nat)
    requires Inv(sb, v, owner, hand) && b in hand
    ensures Bit(sb, v.disk, b)
    ensures var v' := v.(disk := Unmarked(sb, v.disk, b));
            && Inv(sb, v', owner, hand - {b})
            && forall i, k :: 0 <= i < |v.ino| && 0 <= k < NSLOTS ==> Slot(v', i, k) == Slot(v, i, k)
  {
    var m := BmapBlock(sb, b);
    WriteKeepsOwned(sb, v, owner, m, UnmarkBit(v.disk[m], BitIndex(b)));
    var disk' := Unmarked(sb, v.disk, b);
    forall j | 0 <= j < sb.size
      ensures Bit(sb, disk', j) <==> j < sb.nmeta || j in owner || j in hand - {b}
    {
      MarkedBit(sb, v.disk, b, j);
    }
  }

  // ---- storing a block in a slot, and taking it out ----

  function WithAddr(v: Vol, i: nat, k: nat, b: nat): (r: Vol)
    requires i < |v.ino| && |v.ino[i].addrs| == NDIRECT + 1 && k <= NDIRECT
  {
    v.(ino := v.ino[i := v.ino[i].(addrs := v.ino[i].addrs[k := b])])
  }

  lemma AttachedSlots(sb: Super, v: Vol, i: nat, k: nat, b: nat, j: nat, l: nat)
    requires Shaped(sb, v) && i < |v.ino| && k <= NDIRECT && 0 < b < sb.size && Slot(v, i, k) == 0
    requires k == NDIRECT ==> v.disk[b] == ZEROES
    requires j < |v.ino| && l < NSLOTS
    ensures Shaped(sb, WithAddr(v, i, k, b))
    ensures Slot(WithAddr(v, i, k, b), j, l) == if j == i && l == k then b else Slot(v, j, l)
  {
  }

  /** One empty slot now holds the block b that was in hand, and no other slot changed. */
  ghost predicate SlotFilled(sb: Super, v: Vol, i: nat, k: nat, b: nat, v': Vol)
    requires Shaped(sb, v) && Shaped(sb, v')
  {
    && |v'.ino| == |v.ino|
    && (forall j :: 0 <= j < |v.ino| ==> v'.ino[j].size == v.ino[j].size && v'.ino[j].kind == v.ino[j].kind)
    && forall j, l :: 0 <= j < |v.ino| && 0 <= l < NSLOTS ==>
         Slot(v', j, l) == if j == i && l == k then b else Slot(v, j, l)
  }

  lemma FillSlotKeepsInv(sb: Super, v: Vol, owner: map<nat, (nat, nat)>, hand: set<nat>, i: nat, k: nat, b: nat,
                         v': Vol)
    requires Inv(sb, v, owner, hand) && b in hand && i < |v.ino| && k < NSLOTS && Slot(v, i, k) == 0
    requires Shaped(sb, v') && SlotFilled(sb, v, i, k, b, v')
    requires BitsExact(sb, v'.disk, owner, hand)
    ensures Inv(sb, v', owner[b := (i, k)], hand - {b})
  {
    hide Bit;
  }

  /** A block in hand goes into an empty direct slot, or becomes the indirect
      block; a zeroed indirect block has no entries. */
  lemma AttachKeepsInv(sb: Super, v: Vol, owner: map<nat, (nat, nat)>, hand: set<nat>, i: nat, k: nat, b: nat)
    requires Inv(sb, v, owner, hand) && b in hand && i < |v.ino| && k <= NDIRECT && Slot(v, i, k) == 0
    requires k == NDIRECT ==> v.disk[b] == ZEROES
    ensures Inv(sb, WithAddr(v, i, k, b), owner[b := (i, k)], hand - {b})
    ensures SlotFilled(sb, v, i, k, b, WithAddr(v, i, k, b))
  {
    var v' := WithAddr(v, i, k, b);
    forall j, l | 0 <= j < |v.ino| && 0 <= l < NSLOTS
      ensures Slot(v', j, l) == if j == i && l == k then b else Slot(v, j, l)
    {
      AttachedSlots(sb, v, i, k, b, j, l);
    }
    AttachedSlots(sb, v, i, k, b, i, 0);
    FillSlotKeepsInv(sb, v, owner, hand, i, k, b, v');
  }

  function WithEntry(v: Vol, i: nat, e: nat, b: nat): (r: Vol)
    requires i < |v.ino| && |v.ino[i].addrs| == NDIRECT + 1 && v.ino[i].addrs[NDIRECT] < |v.disk|
    requires e < NINDIRECT && b < 0x1_0000_0000
  {
    var ind := v.ino[i].addrs[NDIRECT];
    v.(disk := v.disk[ind := SetWord(v.disk[ind], e, b)])
  }

  lemma EntrySlots(sb: Super, v: Vol, owner: map<nat, (nat, nat)>, i: nat, e: nat, b: nat, j: nat, l: nat)
    requires Shaped(sb, v) && Owned(sb, v, owner) && i < |v.ino| && e < NINDIRECT && b < 0x1_0000_0000
    requires 0 < v.ino[i].addrs[NDIRECT] < |v.disk| && j < |v.ino| && l < NSLOTS
    ensures Slot(WithEntry(v, i, e, b), j, l) == if j == i && l == NDIRECT + 1 + e then b else Slot(v, j, l)
  {
    var ind := v.ino[i].addrs[NDIRECT];
    IndirectIsOwned(sb, v, owner, i);
    IndirectIsOwned(sb, v, owner, j);
    if j == i && l > NDIRECT {
      WordRoundTrip(v.disk[ind], e, b, l - NDIRECT - 1);
    } else if j != i {
      SlotFrame(sb, v, ind, SetWord(v.disk[ind], e, b), j, l);
    }
  }

  /** A block in hand goes into an empty entry of the indirect block. */
  lemma AttachEntryKeepsInv(sb: Super, v: Vol, owner: map<nat, (nat, nat)>, hand: set<nat>, i: nat, e: nat, b: nat)
    requires Inv(sb, v, owner, hand) && b in hand && i < |v.ino| && e < NINDIRECT
    requires 0 < v.ino[i].addrs[NDIRECT] < |v.disk| && Slot(v, i, NDIRECT + 1 + e) == 0
    ensures Inv(sb, WithEntry(v, i, e, b), owner[b := (i, NDIRECT + 1 + e)], hand - {b})
    ensures SlotFilled(sb, v, i, NDIRECT + 1 + e, b, WithEntry(v, i, e, b))
  {
    hide SetWord;
    var ind := v.ino[i].addrs[NDIRECT];
    var v' := WithEntry(v, i, e, b);
    IndirectIsOwned(sb, v, owner, i);
    assert SlotFilled(sb, v, i, NDIRECT + 1 + e, b, v') by {
      forall j, l | 0 <= j < |v.ino| && 0 <= l < NSLOTS
        ensures Slot(v', j, l) == if j == i && l == NDIRECT + 1 + e then b else Slot(v, j, l)
      {
        EntrySlots(sb, v, owner, i, e, b, j, l);
      }
    }
    WriteKeepsBits(sb, v.disk, owner, hand, ind, SetWord(v.disk[ind], e, b));
    FillSlotKeepsInv(sb, v, owner, hand, i, NDIRECT + 1 + e, b, v');
  }

  // ---- bytes of files ----

  /** Position p of file i lies in an allocated block. */
  ghost predicate Stored(v: Vol, i: nat, p: nat)
    requires i < |v.ino| && |v.ino[i].addrs| == NDIRECT + 1 && p < MAXFILE * BSIZE
  {
    0 < Slot(v, i, DataSlot(p / BSIZE)) < |v.disk|
  }

  ghost function ByteAt(v: Vol, i: nat, p: nat): Byte
    requires i < |v.ino| && |v.ino[i].addrs| == NDIRECT + 1 && p < MAXFILE * BSIZE
  {
    if Stored(v, i, p) then v.disk[Slot(v, i, DataSlot(p / BSIZE))][p % BSIZE] else 0
  }

  /** The contents of file i. */
  ghost function Content(sb: Super, v: Vol, i: nat): (c: seq<Byte>)
    requires Shaped(sb, v) && i < |v.ino|
    ensures |c| == v.ino[i].size
  {
    seq(v.ino[i].size, p requires 0 <= p < v.ino[i].size => ByteAt(v, i, p))
  }

  /** All allocated blocks of all files stay allocated and keep their bytes. */
  ghost predicate KeepsBytes(sb: Super, v: Vol, v': Vol)
    requires Shaped(sb, v) && Shaped(sb, v')
  {
    && |v'.ino| == |v.ino|
    && (forall i :: 0 <= i < |v.ino| ==> v'.ino[i].size == v.ino[i].size && v'.ino[i].kind == v.ino[i].kind)
    && forall i, p :: 0 <= i < |v.ino| && 0 <= p < MAXFILE * BSIZE && Stored(v, i, p) ==>
         Stored(v', i, p) && ByteAt(v', i, p) == ByteAt(v, i, p)
  }

  lemma KeepsBytesTransitive(sb: Super, u: Vol, v: Vol, w: Vol)
    requires Shaped(sb, u) && Shaped(sb, v) && Shaped(sb, w) && KeepsBytes(sb, u, v) && KeepsBytes(sb, v, w)
    ensures KeepsBytes(sb, u, w)
  {
  }

  /** In a filled volume every byte of a file is stored. */
  lemma ContentStored(sb: Super, v: Vol, owner: map<nat, (nat, nat)>, hand: set<nat>, i: nat, p: nat)
    requires Inv(sb, v, owner, hand) && i < |v.ino| && p < v.ino[i].size
    ensures p < MAXFILE * BSIZE && Stored(v, i, p) && Content(sb, v, i)[p] == ByteAt(v, i, p)
  {
    assert p / BSIZE * BSIZE <= p;
    assert Slot(v, i, DataSlot(p / BSIZE)) != 0;
  }

  lemma DataSlotOwned(sb: Super, v: Vol, owner: map<nat, (nat, nat)>, i: nat, p: nat)
    requires Shaped(sb, v) && Owned(sb, v, owner) && i < |v.ino| && p < MAXFILE * BSIZE && Stored(v, i, p)
    ensures var x := Slot(v, i, DataSlot(p / BSIZE));
            sb.nmeta <= x < sb.size && x in owner && owner[x] == (i, DataSlot(p / BSIZE))
  {
  }

  lemma AllocKeepsBytes(sb: Super, v: Vol, owner: map<nat, (nat, nat)>, hand: set<nat>, b: nat)
    requires Inv(sb, v, owner, hand) && b < sb.size && !Bit(sb, v.disk, b)
    ensures var v' := v.(disk := Marked(sb, v.disk, b)[b := ZEROES]); Shaped(sb, v') && KeepsBytes(sb, v, v')
  {
    AllocKeepsInv(sb, v, owner, hand, b);
    var v' := v.(disk := Marked(sb, v.disk, b)[b := ZEROES]);
    forall i, p | 0 <= i < |v.ino| && 0 <= p < MAXFILE * BSIZE && Stored(v, i, p)
      ensures Stored(v', i, p) && ByteAt(v', i, p) == ByteAt(v, i, p)
    {
      DataSlotOwned(sb, v, owner, i, p);
    }
  }

  lemma AttachKeepsBytes(sb: Super, v: Vol, owner: map<nat, (nat, nat)>, hand: set<nat>, i: nat, k: nat, b: nat)
    requires Inv(sb, v, owner, hand) && b in hand && i < |v.ino| && k <= NDIRECT && Slot(v, i, k) == 0
    requires k == NDIRECT ==> v.disk[b] == ZEROES
    ensures Shaped(sb, WithAddr(v, i, k, b)) && KeepsBytes(sb, v, WithAddr(v, i, k, b))
  {
    hide BitsExact, Slot, Owned, Filled, KeepsBytes, SlotFilled;
    AttachKeepsInv(sb, v, owner, hand, i, k, b);
    FillKeepsBytes(sb, v, i, k, b, WithAddr(v, i, k, b));
  }

  /** Filling an empty slot changes no stored byte. */
  lemma FillKeepsBytes(sb: Super, v: Vol, i: nat, k: nat, b: nat, v': Vol)
    requires Shaped(sb, v) && Shaped(sb, v') && i < |v.ino| && k < NSLOTS && Slot(v, i, k) == 0
    requires SlotFilled(sb, v, i, k, b, v') && v'.disk == v.disk
    ensures KeepsBytes(sb, v, v')
  {
    hide Slot;
    forall j, p | 0 <= j < |v.ino| && 0 <= p < MAXFILE * BSIZE && Stored(v, j, p)
      ensures Stored(v', j, p) && ByteAt(v', j, p) == ByteAt(v, j, p)
    {
      assert Slot(v', j, DataSlot(p / BSIZE)) == Slot(v, j, DataSlot(p / BSIZE));
    }
  }

  lemma AttachEntryKeepsBytes(sb: Super, v: Vol, owner: map<nat, (nat, nat)>, hand: set<nat>, i: nat, e: nat, b: nat)
    requires Inv(sb, v, owner, hand) && b in hand && i < |v.ino| && e < NINDIRECT
    requires 0 < v.ino[i].addrs[NDIRECT] < |v.disk| && Slot(v, i, NDIRECT + 1 + e) == 0
    ensures Shaped(sb, WithEntry(v, i, e, b)) && KeepsBytes(sb, v, WithEntry(v, i, e, b))
  {
    AttachEntryKeepsInv(sb, v, owner, hand, i, e, b);
    IndirectIsOwned(sb, v, owner, i);
    var v' := WithEntry(v, i, e, b);
    hide SetWord, BitsExact, Filled;
    forall j, p | 0 <= j < |v.ino| && 0 <= p < MAXFILE * BSIZE && Stored(v, j, p)
      ensures Stored(v', j, p) && ByteAt(v', j, p) == ByteAt(v, j, p)
    {
      DataSlotOwned(sb, v, owner, j, p);
    }
  }

  /** Writing the n-th block of file i changes exactly that file's bytes there. */
  lemma DataWriteKeepsInv(sb: Super, v: Vol, owner: map<nat, (nat, nat)>, hand: set<nat>, i: nat, bn: nat, d: Data)
    requires Inv(sb, v, owner, hand) && i < |v.ino| && bn < MAXFILE && Slot(v, i, DataSlot(bn)) != 0
    ensures var x := Slot(v, i, DataSlot(bn));
            && x < |v.disk|
            && var v' := v.(disk := v.disk[x := d]);
            && Inv(sb, v', owner, hand)
            && (forall j, k :: 0 <= j < |v.ino| && 0 <= k < NSLOTS ==> Slot(v', j, k) == Slot(v, j, k))
            && forall j, p :: 0 <= j < |v.ino| && 0 <= p < MAXFILE * BSIZE && Stored(v, j, p) ==>
                 Stored(v', j, p) && ByteAt(v', j, p) == if j == i && p / BSIZE == bn then d[p % BSIZE]
                                                         else ByteAt(v, j, p)
  {
    var x := Slot(v, i, DataSlot(bn));
    assert x in owner && owner[x] == (i, DataSlot(bn));
    WriteKeepsOwned(sb, v, owner, x, d);
    WriteKeepsBits(sb, v.disk, owner, hand, x, d);
    var v' := v.(disk := v.disk[x := d]);
    forall j, p | 0 <= j < |v.ino| && 0 <= p < MAXFILE * BSIZE && Stored(v, j, p)
      ensures Stored(v', j, p) && ByteAt(v', j, p) == if j == i && p / BSIZE == bn then d[p % BSIZE]
                                                      else ByteAt(v, j, p)
    {
      DataSlotOwned(sb, v, owner, j, p);
      SlotsDiffer(p / BSIZE, bn);
    }
  }

  /** Slot k is one that a write of n bytes at off may fill: that of a block it touches,
      or the indirect block's if it needs that. */
  predicate Reaches(k: nat, off: nat, n: nat) {
    && n > 0
    && if k == NDIRECT then NDIRECT * BSIZE < off + n
       else
         var bn := if k < NDIRECT then k else k - 1;
         off < (bn + 1) * BSIZE && bn * BSIZE < off + n
  }

  /** Nothing that was allocated has moved, no inode has become another kind of file, and
      only file i has new blocks, in slots that n bytes at off reach. */
  ghost predicate Grown(sb: Super, v: Vol, v': Vol, i: nat, off: nat, n: nat)
    requires Shaped(sb, v) && Shaped(sb, v')
  {
    && |v'.ino| == |v.ino| && (forall j :: 0 <= j < |v.ino| ==> v'.ino[j].kind == v.ino[j].kind)
    && forall j, k :: 0 <= j < |v.ino| && 0 <= k < NSLOTS && Slot(v', j, k) != Slot(v, j, k) ==>
         j == i && Slot(v, j, k) == 0 && Reaches(k, off, n)
  }

  lemma GrownWithin(sb: Super, v: Vol, v': Vol, i: nat, cur: nat, off: nat, n: nat)
    requires Shaped(sb, v) && Shaped(sb, v') && Grown(sb, v, v', i, cur / BSIZE * BSIZE, 1) && off <= cur < off + n
    ensures Grown(sb, v, v', i, off, n)
  {
    hide Slot;
  }

  lemma GrownKinds(sb: Super, v: Vol, v': Vol, i: nat, off: nat, n: nat)
    requires Shaped(sb, v) && Shaped(sb, v') && Grown(sb, v, v', i, off, n)
    ensures |v'.ino| == |v.ino| && forall j :: 0 <= j < |v.ino| ==> v'.ino[j].kind == v.ino[j].kind
  {
  }

  lemma GrownMore(sb: Super, v: Vol, v': Vol, i: nat, off: nat, n: nat, m: nat)
    requires Shaped(sb, v) && Shaped(sb, v') && Grown(sb, v, v', i, off, n) && n <= m
    ensures Grown(sb, v, v', i, off, m)
  {
    hide Slot;
  }

  lemma GrownTwice(sb: Super, u: Vol, v: Vol, w: Vol, i: nat, off: nat, n: nat)
    requires Shaped(sb, u) && Shaped(sb, v) && Shaped(sb, w) && Grown(sb, u, v, i, off, n) && Grown(sb, v, w, i, off, n)
    ensures Grown(sb, u, w, i, off, n)
  {
    hide Slot;
  }

  lemma FillGrows(sb: Super, v: Vol, i: nat, k: nat, b: nat, v': Vol, off: nat, n: nat)
    requires Shaped(sb, v) && Shaped(sb, v') && i < |v.ino| && k < NSLOTS && Slot(v, i, k) == 0
    requires SlotFilled(sb, v, i, k, b, v') && Reaches(k, off, n)
    ensures Grown(sb, v, v', i, off, n)
  {
    hide Slot;
  }

  lemma SameSlotsGrow(sb: Super, u: Vol, v: Vol, w: Vol, i: nat, off: nat, n: nat)
    requires Shaped(sb, u) && Shaped(sb, v) && Shaped(sb, w) && Grown(sb, u, v, i, off, n) && |w.ino| == |v.ino|
    requires forall j, k :: 0 <= j < |v.ino| && 0 <= k < NSLOTS ==> Slot(w, j, k) == Slot(v, j, k)
    requires forall j :: 0 <= j < |v.ino| ==> w.ino[j].kind == v.ino[j].kind
    ensures Grown(sb, u, w, i, off, n)
  {
    hide Slot;
  }

  lemma SlotsDiffer(m: nat, n: nat)
    requires m < MAXFILE && n < MAXFILE
    ensures DataSlot(m) == DataSlot(n) <==> m == n
  {
  }
}
