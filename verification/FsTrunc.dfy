/** Taking blocks out of an inode's slots, for itrunc. */
module FsTrunc {
  import opened FsBlock
  import opened FsVolume

  /** Every file but i keeps its size and its stored bytes. */
  ghost predicate OthersKept(sb: Super, v: Vol, i: nat, v': Vol) {
    && Shaped(sb, v) && Shaped(sb, v') && |v'.ino| == |v.ino|
    && forall j :: 0 <= j < |v.ino| && j != i ==>
         && v'.ino[j] == v.ino[j]
         && forall p :: 0 <= p < MAXFILE * BSIZE && Stored(v, j, p) ==>
              Stored(v', j, p) && ByteAt(v', j, p) == ByteAt(v, j, p)
  }

  lemma OthersKeptTransitive(sb: Super, u: Vol, v: Vol, w: Vol, i: nat)
    requires OthersKept(sb, u, i, v) && OthersKept(sb, v, i, w)
    ensures OthersKept(sb, u, i, w)
  {
    hide Stored, ByteAt;
    forall j | 0 <= j < |u.ino| && j != i
      ensures w.ino[j] == u.ino[j]
    {
      assert v.ino[j] == u.ino[j];
    }
    forall j, p | 0 <= j < |u.ino| && j != i && 0 <= p < MAXFILE * BSIZE && Stored(u, j, p)
      ensures Stored(w, j, p) && ByteAt(w, j, p) == ByteAt(u, j, p)
    {
      assert v.ino[j] == u.ino[j];
      assert Stored(v, j, p);
    }
  }

  lemma OthersContent(sb: Super, v: Vol, owner: map<nat, (nat, nat)>, i: nat, v': Vol, j: nat)
    requires OthersKept(sb, v, i, v') && Inv(sb, v, owner, {}) && j < |v.ino| && j != i
    ensures Content(sb, v', j) == Content(sb, v, j)
  {
    forall p | 0 <= p < v.ino[j].size
      ensures ByteAt(v', j, p) == ByteAt(v, j, p)
    {
      ContentStored(sb, v, owner, {}, j, p);
    }
  }

  /** Changing inode i alone, or the bitmap alone, keeps the others. */
  lemma InodeKeepsOthers(sb: Super, v: Vol, i: nat, n: Inode)
    requires Shaped(sb, v) && i < |v.ino| && |n.addrs| == NDIRECT + 1 && n.size <= MAXFILE * BSIZE
    ensures OthersKept(sb, v, i, v.(ino := v.ino[i := n]))
  {
    var v' := v.(ino := v.ino[i := n]);
    assert Shaped(sb, v');
    forall j, p | 0 <= j < |v.ino| && j != i && 0 <= p < MAXFILE * BSIZE && Stored(v, j, p)
      ensures Stored(v', j, p) && ByteAt(v', j, p) == ByteAt(v, j, p)
    {
      assert Slot(v', j, DataSlot(p / BSIZE)) == Slot(v, j, DataSlot(p / BSIZE));
    }
  }

  lemma UnmarkKeepsOthers(sb: Super, v: Vol, owner: map<nat, (nat, nat)>, i: nat, b: nat)
    requires Shaped(sb, v) && Owned(sb, v, owner) && Filled(sb, v) && i < |v.ino| && b < sb.size
    ensures OthersKept(sb, v, i, v.(disk := Unmarked(sb, v.disk, b)))
  {
    var m := BmapBlock(sb, b);
    var v' := v.(disk := Unmarked(sb, v.disk, b));
    WriteKeepsOwned(sb, v, owner, m, UnmarkBit(v.disk[m], BitIndex(b)));
    forall j, p | 0 <= j < |v.ino| && 0 <= p < MAXFILE * BSIZE && Stored(v, j, p)
      ensures Stored(v', j, p) && ByteAt(v', j, p) == ByteAt(v, j, p)
    {
      DataSlotOwned(sb, v, owner, j, p);
    }
  }

  // ---- emptying slots ----

  lemma EmptiedSlots(sb: Super, v: Vol, i: nat, k: nat, j: nat, l: nat)
    requires Shaped(sb, v) && i < |v.ino| && k <= NDIRECT && j < |v.ino| && l < NSLOTS
    ensures Shaped(sb, WithAddr(v, i, k, 0))
    ensures Slot(WithAddr(v, i, k, 0), j, l)
            == if j == i && (l == k || (k == NDIRECT && l > NDIRECT)) then 0 else Slot(v, j, l)
  {
  }

  /** Emptying a direct slot of a truncated file puts its block in hand. */
  lemma DetachDirect(sb: Super, v: Vol, owner: map<nat, (nat, nat)>, i: nat, k: nat)
    requires Inv(sb, v, owner, {}) && i < |v.ino| && v.ino[i].size == 0 && k < NDIRECT && v.ino[i].addrs[k] != 0
    ensures var b := v.ino[i].addrs[k];
            b in owner && owner[b] == (i, k) && Inv(sb, WithAddr(v, i, k, 0), owner - {b}, {b})
  {
    var b := v.ino[i].addrs[k];
    assert Slot(v, i, k) == b;
    var v' := WithAddr(v, i, k, 0);
    forall j, l | 0 <= j < |v.ino| && 0 <= l < NSLOTS
      ensures Slot(v', j, l) == if j == i && l == k then 0 else Slot(v, j, l)
    {
      EmptiedSlots(sb, v, i, k, j, l);
    }
    EmptiedSlots(sb, v, i, k, i, k);
    hide Slot, Bit;
  }

  /** bfree of a direct block and clearing of its slot, together. */
  lemma DropDirect(sb: Super, v: Vol, owner: map<nat, (nat, nat)>, i: nat, k: nat)
    requires Inv(sb, v, owner, {}) && i < |v.ino| && v.ino[i].size == 0 && k < NDIRECT && v.ino[i].addrs[k] != 0
    ensures var b := v.ino[i].addrs[k];
            && b < sb.size && Bit(sb, v.disk, b)
            && var v' := WithAddr(v, i, k, 0).(disk := Unmarked(sb, v.disk, b));
            && Inv(sb, v', owner - {b}, {}) && OthersKept(sb, v, i, v')
            && forall x :: x in owner ==> (owner[x] == (i, k) <==> x == b)
  {
    hide Owned, BitsExact, Filled, Unmarked, OthersKept, Bit;
    DetachDirect(sb, v, owner, i, k);
    var b := v.ino[i].addrs[k];
    var v1 := WithAddr(v, i, k, 0);
    HandInside(sb, v1.disk, owner - {b}, {b}, b);
    FreeKeepsInv(sb, v1, owner - {b}, {b}, b);
    UnmarkKeepsOthers(sb, v1, owner - {b}, i, b);
    InodeKeepsOthers(sb, v, i, v1.ino[i]);
    OthersKeptTransitive(sb, v, v1, v1.(disk := Unmarked(sb, v1.disk, b)), i);
    OneSlotOwner(sb, v, owner, i, k);
    assert {b} - {b} == {};
  }

  lemma HandInside(sb: Super, disk: seq<Data>, owner: map<nat, (nat, nat)>, hand: set<nat>, b: nat)
    requires SuperOk(sb) && |disk| == sb.size && BitsExact(sb, disk, owner, hand) && b in hand
    ensures sb.nmeta <= b < sb.size && Bit(sb, disk, b)
  {
  }

  lemma OneSlotOwner(sb: Super, v: Vol, owner: map<nat, (nat, nat)>, i: nat, k: nat)
    requires Shaped(sb, v) && Owned(sb, v, owner) && i < |v.ino| && k <= NDIRECT
    ensures forall x :: x in owner ==> (owner[x] == (i, k) <==> x == v.ino[i].addrs[k] && x != 0)
  {
    assert Slot(v, i, k) == v.ino[i].addrs[k];
  }

  /** The blocks of inode i reached from slot `from` on, and the indirect block. */
  ghost function Below(owner: map<nat, (nat, nat)>, i: nat, from: nat): (s: set<nat>) {
    set b | b in owner && owner[b].0 == i && (owner[b].1 == NDIRECT || owner[b].1 >= from)
  }

  ghost function Others(owner: map<nat, (nat, nat)>, i: nat): (r: map<nat, (nat, nat)>) {
    map b | b in owner && !(owner[b].0 == i && owner[b].1 >= NDIRECT) :: owner[b]
  }

  /** Dropping the indirect block puts it and all its entries in hand. */
  lemma DetachIndirect(sb: Super, v: Vol, owner: map<nat, (nat, nat)>, i: nat)
    requires Inv(sb, v, owner, {}) && i < |v.ino| && v.ino[i].size == 0
    ensures Inv(sb, WithAddr(v, i, NDIRECT, 0), Others(owner, i), Below(owner, i, NDIRECT))
  {
    var v' := WithAddr(v, i, NDIRECT, 0);
    hide Slot, Bit, Owned, BitsExact, Filled, Others, Below;
    EmptiedSlots(sb, v, i, NDIRECT, i, NDIRECT);
    forall j, l | 0 <= j < |v.ino| && 0 <= l < NSLOTS
      ensures Slot(v', j, l) == if j == i && l >= NDIRECT then 0 else Slot(v, j, l)
    {
      EmptiedSlots(sb, v, i, NDIRECT, j, l);
    }
    DetachedOwned(sb, v, owner, i, v');
    DetachedBits(sb, v.disk, owner, i);
    DetachedFilled(sb, v, i, v');
  }

  lemma DetachedOwned(sb: Super, v: Vol, owner: map<nat, (nat, nat)>, i: nat, v': Vol)
    requires Shaped(sb, v) && Shaped(sb, v') && Owned(sb, v, owner) && i < |v.ino| == |v'.ino|
    requires forall j, l :: 0 <= j < |v.ino| && 0 <= l < NSLOTS ==>
      Slot(v', j, l) == if j == i && l >= NDIRECT then 0 else Slot(v, j, l)
    ensures Owned(sb, v', Others(owner, i))
  {
    hide Slot;
  }

  lemma DetachedBits(sb: Super, disk: seq<Data>, owner: map<nat, (nat, nat)>, i: nat)
    requires SuperOk(sb) && |disk| == sb.size && BitsExact(sb, disk, owner, {})
    requires forall b :: b in owner ==> sb.nmeta <= b < sb.size
    ensures BitsExact(sb, disk, Others(owner, i), Below(owner, i, NDIRECT))
  {
    hide Bit;
  }

  lemma DetachedFilled(sb: Super, v: Vol, i: nat, v': Vol)
    requires Shaped(sb, v) && Shaped(sb, v') && Filled(sb, v) && i < |v.ino| == |v'.ino| && v'.ino[i].size == 0
    requires forall j :: 0 <= j < |v.ino| ==> v'.ino[j].size == v.ino[j].size
    requires forall j, l :: 0 <= j < |v.ino| && 0 <= l < NSLOTS && j != i ==> Slot(v', j, l) == Slot(v, j, l)
    ensures Filled(sb, v')
  {
    hide Slot;
  }

  /** Entry e of the indirect block is the one block in hand from that slot. */
  lemma EntryInHand(sb: Super, v: Vol, owner: map<nat, (nat, nat)>, i: nat, e: nat, b: nat)
    requires Shaped(sb, v) && Owned(sb, v, owner) && i < |v.ino| && e < NINDIRECT
    requires b == Slot(v, i, NDIRECT + 1 + e)
    ensures b != 0 ==> b in Below(owner, i, NDIRECT + 1 + e)
    ensures Below(owner, i, NDIRECT + 1 + e) - {b} == Below(owner, i, NDIRECT + 2 + e)
  {
    if b != 0 {
      assert b in owner && owner[b] == (i, NDIRECT + 1 + e);
    }
    forall x | x in owner && owner[x].0 == i && owner[x].1 == NDIRECT + 1 + e
      ensures x == b
    {
    }
  }

  lemma OnlyIndirectLeft(sb: Super, v: Vol, owner: map<nat, (nat, nat)>, i: nat)
    requires Shaped(sb, v) && Owned(sb, v, owner) && i < |v.ino| && v.ino[i].addrs[NDIRECT] != 0
    ensures Below(owner, i, NSLOTS) == {v.ino[i].addrs[NDIRECT]}
    ensures Below(owner, i, NDIRECT) == Below(owner, i, NDIRECT + 1)
  {
    var ind := v.ino[i].addrs[NDIRECT];
    assert Slot(v, i, NDIRECT) == ind;
    assert ind in owner && owner[ind] == (i, NDIRECT);
  }

  /** bfree of a block in hand. */
  lemma DropHand(sb: Super, v: Vol, owner: map<nat, (nat, nat)>, hand: set<nat>, i: nat, b: nat)
    requires Inv(sb, v, owner, hand) && b in hand && i < |v.ino|
    ensures b < sb.size && Bit(sb, v.disk, b)
    ensures var v' := v.(disk := Unmarked(sb, v.disk, b));
            Inv(sb, v', owner, hand - {b}) && OthersKept(sb, v, i, v')
  {
    HandInside(sb, v.disk, owner, hand, b);
    FreeKeepsInv(sb, v, owner, hand, b);
    UnmarkKeepsOthers(sb, v, owner, i, b);
  }

  lemma ZeroNotBelow(sb: Super, v: Vol, owner: map<nat, (nat, nat)>, i: nat, from: nat)
    requires Shaped(sb, v) && Owned(sb, v, owner)
    ensures 0 !in Below(owner, i, from)
  {
  }
}
