/** Whether the disk has room for a write, told from the volume before it: the slots that
    the write reaches and that are empty, against the blocks that are free. */
module FsSpace {
  import opened FsBlock
  import opened FsVolume

  /** The empty slots of file i that n bytes at off need. */
  ghost function Missing(v: Vol, i: nat, off: nat, n: nat): set<nat>
    requires i < |v.ino| && |v.ino[i].addrs| == NDIRECT + 1
  {
    set k | 0 <= k < NSLOTS && Reaches(k, off, n) && Slot(v, i, k) == 0
  }

  ghost function FreeBlocks(sb: Super, disk: seq<Data>): set<nat>
    requires SuperOk(sb) && |disk| == sb.size
  {
    set b | 0 <= b < sb.size && !Bit(sb, disk, b)
  }

  /** There is a free block for every slot, data and indirect, that n bytes at off still
      need. */
  ghost predicate Room(sb: Super, v: Vol, i: nat, off: nat, n: nat) {
    Shaped(sb, v) && i < |v.ino| && |Missing(v, i, off, n)| <= |FreeBlocks(sb, v.disk)|
  }

  /** The slots of file i filled on the way from v to v'. */
  ghost function NewSlots(v: Vol, v': Vol, i: nat): set<nat>
    requires i < |v.ino| && |v.ino[i].addrs| == NDIRECT + 1 && i < |v'.ino| && |v'.ino[i].addrs| == NDIRECT + 1
  {
    set k | 0 <= k < NSLOTS && Slot(v, i, k) == 0 && Slot(v', i, k) != 0
  }

  ghost function BlocksIn(v: Vol, i: nat, ks: set<nat>): set<nat>
    requires i < |v.ino| && |v.ino[i].addrs| == NDIRECT + 1 && forall k :: k in ks ==> k < NSLOTS
  {
    set k | k in ks :: Slot(v, i, k)
  }

  /** Distinct slots hold distinct blocks. */
  lemma {:induction false} OneBlockEach(sb: Super, v: Vol, owner: map<nat, (nat, nat)>, i: nat, ks: set<nat>)
    requires Shaped(sb, v) && Owned(sb, v, owner) && i < |v.ino|
    requires forall k :: k in ks ==> k < NSLOTS && Slot(v, i, k) != 0
    ensures |BlocksIn(v, i, ks)| == |ks|
  {
    hide Slot;
    if ks == {} {
      assert BlocksIn(v, i, ks) == {};
    } else {
      var k :| k in ks;
      OneBlockEach(sb, v, owner, i, ks - {k});
      assert BlocksIn(v, i, ks) == BlocksIn(v, i, ks - {k}) + {Slot(v, i, k)};
      assert Slot(v, i, k) !in BlocksIn(v, i, ks - {k});
    }
  }

  /** A block taken from the free ones is in exactly one new slot. */
  lemma FreeBecame(sb: Super, v: Vol, owner: map<nat, (nat, nat)>, v': Vol, owner': map<nat, (nat, nat)>, i: nat,
                   off: nat, n: nat, b: nat)
    requires Inv(sb, v, owner, {}) && Inv(sb, v', owner', {}) && Grown(sb, v, v', i, off, n) && i < |v.ino|
    ensures b in FreeBlocks(sb, v.disk) <==>
            b in FreeBlocks(sb, v'.disk) || b in BlocksIn(v', i, NewSlots(v, v', i))
    ensures !(b in FreeBlocks(sb, v'.disk) && b in BlocksIn(v', i, NewSlots(v, v', i)))
  {
    hide Slot, Bit;
    if b in owner' {
      assert Slot(v', owner'[b].0, owner'[b].1) == b;
    }
    if b in owner {
      assert Slot(v, owner[b].0, owner[b].1) == b;
    }
  }

  lemma FreeCount(sb: Super, v: Vol, owner: map<nat, (nat, nat)>, v': Vol, owner': map<nat, (nat, nat)>, i: nat,
                  off: nat, n: nat)
    requires Inv(sb, v, owner, {}) && Inv(sb, v', owner', {}) && Grown(sb, v, v', i, off, n) && i < |v.ino|
    ensures |FreeBlocks(sb, v.disk)| == |FreeBlocks(sb, v'.disk)| + |NewSlots(v, v', i)|
  {
    hide Slot, Bit, Grown, BitsExact, Filled;
    var filled := BlocksIn(v', i, NewSlots(v, v', i));
    OneBlockEach(sb, v', owner', i, NewSlots(v, v', i));
    hide Owned, FreeBlocks, BlocksIn, NewSlots;
    forall b
      ensures b in FreeBlocks(sb, v.disk) <==> b in FreeBlocks(sb, v'.disk) || b in filled
      ensures !(b in FreeBlocks(sb, v'.disk) && b in filled)
    {
      if b >= 0 {
        FreeBecame(sb, v, owner, v', owner', i, off, n, b);
      }
    }
    Apart(FreeBlocks(sb, v.disk), FreeBlocks(sb, v'.disk), filled);
  }

  lemma Apart(a: set<nat>, b: set<nat>, c: set<nat>)
    requires forall x: nat :: x in a <==> x in b || x in c
    requires forall x: nat :: !(x in b && x in c)
    ensures |a| == |b| + |c|
  {
    assert a == b + c && b !! c;
  }

  lemma {:induction false} Smaller(a: set<nat>, b: set<nat>)
    requires a <= b
    ensures |a| <= |b|
  {
    assert b == a + (b - a);
  }

  /** Every position of the range is in an allocated block. */
  ghost predicate Backed(v: Vol, i: nat, off: nat, n: nat) {
    && i < |v.ino| && |v.ino[i].addrs| == NDIRECT + 1 && off + n <= MAXFILE * BSIZE
    && forall p :: off <= p < off + n ==> Stored(v, i, p)
  }

  /** So no slot that the range needs is empty. */
  lemma BackedSlot(v: Vol, i: nat, off: nat, n: nat, k: nat)
    requires Backed(v, i, off, n) && k < NSLOTS && Reaches(k, off, n)
    ensures Slot(v, i, k) != 0
  {
    if k == NDIRECT {
      var p := off + n - 1;
      assert Stored(v, i, p) && p / BSIZE >= NDIRECT;
    } else {
      var bn := if k < NDIRECT then k else k - 1;
      var p := if off > bn * BSIZE then off else bn * BSIZE;
      assert Stored(v, i, p) && p / BSIZE == bn;
    }
  }

  /** What a write has stored, there was room for. */
  lemma ThereWasRoom(sb: Super, v: Vol, owner: map<nat, (nat, nat)>, v': Vol, owner': map<nat, (nat, nat)>, i: nat,
                     off: nat, n: nat, m: nat)
    requires Inv(sb, v, owner, {}) && Inv(sb, v', owner', {}) && Grown(sb, v, v', i, off, n) && i < |v.ino|
    requires Backed(v', i, off, m)
    ensures Room(sb, v, i, off, m)
  {
    hide Owned, BitsExact, Filled, Slot, Reaches, Backed, Grown, Bit;
    forall k | k in Missing(v, i, off, m)
      ensures k in NewSlots(v, v', i)
    {
      BackedSlot(v', i, off, m, k);
    }
    Smaller(Missing(v, i, off, m), NewSlots(v, v', i));
    FreeCount(sb, v, owner, v', owner', i, off, n);
  }

  /** A write that went up to position p and found no block for it, on a disk then full:
      there was none for any range with p in it. */
  lemma ThereWasNoRoom(sb: Super, v: Vol, owner: map<nat, (nat, nat)>, v': Vol, owner': map<nat, (nat, nat)>, i: nat,
                       off: nat, p: nat, n: nat)
    requires Inv(sb, v, owner, {}) && Inv(sb, v', owner', {}) && i < |v.ino|
    requires off <= p < off + n && p / BSIZE < MAXFILE && Grown(sb, v, v', i, off, p - off + 1)
    requires Slot(v', i, DataSlot(p / BSIZE)) == 0 && FreeBlocks(sb, v'.disk) == {}
    ensures !Room(sb, v, i, off, n)
  {
    hide Slot, Bit, Reaches, Owned, BitsExact, Filled, DataSlot;
    var k := DataSlot(p / BSIZE);
    SlotReached(p, off, n);
    FreeCount(sb, v, owner, v', owner', i, off, p - off + 1);
    NewIsMissing(sb, v, v', i, off, p - off + 1, n, k);
    Smaller(NewSlots(v, v', i), Missing(v, i, off, n) - {k});
  }

  lemma SlotReached(p: nat, off: nat, n: nat)
    requires off <= p < off + n && p / BSIZE < MAXFILE
    ensures Reaches(DataSlot(p / BSIZE), off, n)
  {
  }

  lemma NewIsMissing(sb: Super, v: Vol, v': Vol, i: nat, off: nat, m: nat, n: nat, k: nat)
    requires Shaped(sb, v) && Shaped(sb, v') && i < |v.ino| && Grown(sb, v, v', i, off, m) && m <= n
    requires k < NSLOTS && Reaches(k, off, n) && Slot(v', i, k) == 0
    ensures k in Missing(v, i, off, n) && NewSlots(v, v', i) <= Missing(v, i, off, n) - {k}
  {
    ReachesMore(off, m, n);
    hide Slot, Reaches;
  }

  lemma ReachesMore(off: nat, n: nat, m: nat)
    requires n <= m
    ensures forall k :: 0 <= k && Reaches(k, off, n) ==> Reaches(k, off, m)
  {
  }

  /** Once the first part of a write is in place there is room for the rest of it exactly
      if there was room for all of it. */
  lemma RoomForRest(sb: Super, v: Vol, owner: map<nat, (nat, nat)>, v': Vol, owner': map<nat, (nat, nat)>, i: nat,
                    off: nat, done: nat, n: nat)
    requires Inv(sb, v, owner, {}) && Inv(sb, v', owner', {}) && i < |v.ino| && done <= n
    requires Grown(sb, v, v', i, off, done) && Backed(v', i, off, done)
    ensures Room(sb, v, i, off, n) <==> Room(sb, v', i, off + done, n - done)
  {
    FreeCount(sb, v, owner, v', owner', i, off, done);
    var m0, m1, filled := Missing(v, i, off, n), Missing(v', i, off + done, n - done), NewSlots(v, v', i);
    forall k: nat
      ensures k in m0 <==> k in filled || k in m1
      ensures !(k in filled && k in m1)
    {
      if k < NSLOTS {
        SlotInRest(sb, v, v', i, off, done, n, k);
      }
    }
    Apart(m0, filled, m1);
  }

  lemma SlotInRest(sb: Super, v: Vol, v': Vol, i: nat, off: nat, done: nat, n: nat, k: nat)
    requires Shaped(sb, v) && Shaped(sb, v') && i < |v.ino| && done <= n && k < NSLOTS
    requires Grown(sb, v, v', i, off, done) && Backed(v', i, off, done)
    ensures k in Missing(v, i, off, n) <==>
            k in NewSlots(v, v', i) || k in Missing(v', i, off + done, n - done)
    ensures !(k in NewSlots(v, v', i) && k in Missing(v', i, off + done, n - done))
  {
    if Reaches(k, off, done) {
      BackedSlot(v', i, off, done, k);
    }
    ReachesApart(k, off, done, n);
    hide Slot, Reaches, Backed;
  }

  lemma ReachesApart(k: nat, off: nat, done: nat, n: nat)
    requires done <= n
    ensures Reaches(k, off, n) <==> Reaches(k, off, done) || Reaches(k, off + done, n - done)
  {
  }

  /** Slots once filled stay so. */
  lemma StillBacked(sb: Super, v: Vol, v': Vol, i: nat, off: nat, n: nat, cur: nat, m: nat)
    requires Shaped(sb, v) && Shaped(sb, v') && Grown(sb, v, v', i, cur, m) && Backed(v, i, off, n)
    ensures Backed(v', i, off, n)
  {
    hide Slot;
    forall p | off <= p < off + n
      ensures Stored(v', i, p)
    {
      assert Stored(v, i, p);
    }
  }

  lemma BackedBoth(v: Vol, i: nat, off: nat, n: nat, m: nat)
    requires Backed(v, i, off, n) && Backed(v, i, off + n, m)
    ensures Backed(v, i, off, n + m)
  {
  }

  lemma RoomForLess(sb: Super, v: Vol, i: nat, off: nat, m: nat, n: nat)
    requires m <= n
    ensures Room(sb, v, i, off, n) ==> Room(sb, v, i, off, m)
  {
    ReachesMore(off, m, n);
    hide Slot, Bit, Reaches;
    if Room(sb, v, i, off, n) {
      assert Missing(v, i, off, m) <= Missing(v, i, off, n);
      Smaller(Missing(v, i, off, m), Missing(v, i, off, n));
    }
  }

  /** Nothing is needed where nothing is missing. */
  lemma RoomForNothing(sb: Super, v: Vol, i: nat, off: nat, n: nat)
    requires Shaped(sb, v) && Backed(v, i, off, n)
    ensures Room(sb, v, i, off, n)
  {
    assert i < |v.ino|;
    hide Slot, Reaches, Backed;
    forall k | 0 <= k < NSLOTS && Reaches(k, off, n)
      ensures Slot(v, i, k) != 0
    {
      BackedSlot(v, i, off, n, k);
    }
    assert Missing(v, i, off, n) == {};
  }
}
