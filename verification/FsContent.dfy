/** What writei and readi mean for the byte sequence of a file. */
module FsContent {
  import opened FsBlock
  import opened FsVolume

  /** Overwrite from position off, extending the file if need be. */
  function Overwrite(c: seq<Byte>, off: nat, data: seq<Byte>): (r: seq<Byte>)
    requires off <= |c|
  {
    if off + |data| <= |c| then c[..off] + data + c[off + |data|..] else c[..off] + data
  }

  /** memmove into a block. */
  function Splice(d: Data, o: nat, bytes: seq<Byte>): (r: Data)
    requires o + |bytes| <= BSIZE
  {
    d[..o] + bytes + d[o + |bytes|..]
  }

  /** After `tot` bytes of src have gone to file i from off on: those bytes are
      there, and every other stored byte of every file is as in v0. */
  ghost predicate Progress(sb: Super, v0: Vol, i: nat, off: nat, src: seq<Byte>, tot: nat, v: Vol) {
    && Shaped(sb, v0) && Shaped(sb, v) && i < |v0.ino| && tot <= |src| && off + |src| <= MAXFILE * BSIZE
    && |v.ino| == |v0.ino|
    && (forall j :: 0 <= j < |v0.ino| ==> v.ino[j].size == v0.ino[j].size && v.ino[j].kind == v0.ino[j].kind)
    && (forall j, p :: 0 <= j < |v0.ino| && 0 <= p < MAXFILE * BSIZE && Stored(v0, j, p)
                       && !(j == i && off <= p < off + tot) ==>
          Stored(v, j, p) && ByteAt(v, j, p) == ByteAt(v0, j, p))
    && (forall p :: off <= p < off + tot ==> Stored(v, i, p) && ByteAt(v, i, p) == src[p - off])
  }

  lemma ProgressNone(sb: Super, v: Vol, i: nat, off: nat, src: seq<Byte>)
    requires Shaped(sb, v) && i < |v.ino| && off + |src| <= MAXFILE * BSIZE
    ensures Progress(sb, v, i, off, src, 0, v)
  {
  }

  lemma ProgressMapped(sb: Super, v0: Vol, i: nat, off: nat, src: seq<Byte>, tot: nat, v: Vol, v': Vol)
    requires Progress(sb, v0, i, off, src, tot, v) && Shaped(sb, v') && KeepsBytes(sb, v, v')
    ensures Progress(sb, v0, i, off, src, tot, v')
  {
    hide Stored, ByteAt;
  }

  /** v' is v with file i's block bn holding d. */
  ghost predicate BlockSet(sb: Super, v: Vol, i: nat, bn: nat, d: Data, v': Vol)
    requires Shaped(sb, v) && Shaped(sb, v') && |v'.ino| == |v.ino| && bn < MAXFILE
  {
    forall j, p :: 0 <= j < |v.ino| && 0 <= p < MAXFILE * BSIZE && Stored(v, j, p) ==>
      Stored(v', j, p) && ByteAt(v', j, p) == if j == i && p / BSIZE == bn then d[p % BSIZE] else ByteAt(v, j, p)
  }

  lemma ChunkThere(sb: Super, v0: Vol, i: nat, off: nat, src: seq<Byte>, tot: nat, v: Vol, m: nat, x: nat, d: Data,
                   v': Vol, p: nat)
    requires Progress(sb, v0, i, off, src, tot, v) && Shaped(sb, v') && |v'.ino| == |v.ino|
    requires 0 < m && tot + m <= |src| && (off + tot) % BSIZE + m <= BSIZE
    requires x == Slot(v, i, DataSlot((off + tot) / BSIZE)) && 0 < x < |v.disk|
    requires d == Splice(v.disk[x], (off + tot) % BSIZE, src[tot..tot + m])
    requires BlockSet(sb, v, i, (off + tot) / BSIZE, d, v')
    requires off <= p < off + tot + m
    ensures Stored(v', i, p) && ByteAt(v', i, p) == src[p - off]
  {
    hide Slot, Splice, Shaped, Stored, ByteAt;
    ChunkByte(sb, v, i, off + tot, m, p, x);
    SpliceByte(v.disk[x], (off + tot) % BSIZE, src[tot..tot + m], p % BSIZE);
  }

  lemma RestKept(sb: Super, v0: Vol, i: nat, off: nat, src: seq<Byte>, tot: nat, v: Vol, m: nat, x: nat, d: Data,
                 v': Vol, j: nat, p: nat)
    requires Progress(sb, v0, i, off, src, tot, v) && Shaped(sb, v') && |v'.ino| == |v.ino|
    requires 0 < m && tot + m <= |src| && (off + tot) % BSIZE + m <= BSIZE
    requires x == Slot(v, i, DataSlot((off + tot) / BSIZE)) && 0 < x < |v.disk|
    requires d == Splice(v.disk[x], (off + tot) % BSIZE, src[tot..tot + m])
    requires BlockSet(sb, v, i, (off + tot) / BSIZE, d, v')
    requires j < |v0.ino| && p < MAXFILE * BSIZE && Stored(v0, j, p) && !(j == i && off <= p < off + tot + m)
    ensures Stored(v', j, p) && ByteAt(v', j, p) == ByteAt(v0, j, p)
  {
    hide Slot, Splice, Shaped, Stored, ByteAt;
    if j == i {
      ChunkByte(sb, v, i, off + tot, m, p, x);
    }
    SpliceByte(v.disk[x], (off + tot) % BSIZE, src[tot..tot + m], p % BSIZE);
  }

  /** One chunk: from position off + tot to the end of its block at most. */
  lemma ProgressChunk(sb: Super, v0: Vol, i: nat, off: nat, src: seq<Byte>, tot: nat, v: Vol,
                      owner: map<nat, (nat, nat)>, hand: set<nat>, m: nat, x: nat)
    requires Progress(sb, v0, i, off, src, tot, v) && Inv(sb, v, owner, hand)
    requires 0 < m && tot + m <= |src| && (off + tot) % BSIZE + m <= BSIZE
    requires x == Slot(v, i, DataSlot((off + tot) / BSIZE)) && x != 0
    ensures x < |v.disk|
    ensures var d := Splice(v.disk[x], (off + tot) % BSIZE, src[tot..tot + m]);
            var v' := v.(disk := v.disk[x := d]);
            && Inv(sb, v', owner, hand) && Progress(sb, v0, i, off, src, tot + m, v')
            && forall j, k :: 0 <= j < |v.ino| && 0 <= k < NSLOTS ==> Slot(v', j, k) == Slot(v, j, k)
  {
    hide Owned, BitsExact, Filled, Slot, Splice, Stored, ByteAt;
    var bn := (off + tot) / BSIZE;
    SlotInside(sb, v, owner, i, DataSlot(bn));
    var d := Splice(v.disk[x], (off + tot) % BSIZE, src[tot..tot + m]);
    var v' := v.(disk := v.disk[x := d]);
    DataWriteKeepsInv(sb, v, owner, hand, i, bn, d);
    assert BlockSet(sb, v, i, bn, d, v');
    forall p | off <= p < off + tot + m
      ensures Stored(v', i, p) && ByteAt(v', i, p) == src[p - off]
    {
      ChunkThere(sb, v0, i, off, src, tot, v, m, x, d, v', p);
    }
    forall j, p | 0 <= j < |v0.ino| && 0 <= p < MAXFILE * BSIZE && Stored(v0, j, p)
                  && !(j == i && off <= p < off + tot + m)
      ensures Stored(v', j, p) && ByteAt(v', j, p) == ByteAt(v0, j, p)
    {
      RestKept(sb, v0, i, off, src, tot, v, m, x, d, v', j, p);
    }
  }

  lemma SlotInside(sb: Super, v: Vol, owner: map<nat, (nat, nat)>, i: nat, k: nat)
    requires Shaped(sb, v) && Owned(sb, v, owner) && i < |v.ino| && k < NSLOTS && Slot(v, i, k) != 0
    ensures Slot(v, i, k) < |v.disk|
  {
  }

  lemma SpliceByte(d: Data, o: nat, bytes: seq<Byte>, q: nat)
    requires o + |bytes| <= BSIZE && q < BSIZE
    ensures Splice(d, o, bytes)[q] == if o <= q < o + |bytes| then bytes[q - o] else d[q]
  {
  }

  /** Where position p lies relative to the chunk of m bytes at cur. */
  lemma ChunkByte(sb: Super, v: Vol, i: nat, cur: nat, m: nat, p: nat, x: nat)
    requires Shaped(sb, v) && i < |v.ino| && p < MAXFILE * BSIZE && cur < MAXFILE * BSIZE
    requires cur % BSIZE + m <= BSIZE && 0 < x < |v.disk| && x == Slot(v, i, DataSlot(cur / BSIZE))
    ensures p / BSIZE == cur / BSIZE ==>
              Stored(v, i, p) && ByteAt(v, i, p) == v.disk[x][p % BSIZE] && p - cur == p % BSIZE - cur % BSIZE
    ensures cur <= p < cur + m ==> p / BSIZE == cur / BSIZE
  {
    if cur <= p < cur + m {
      assert p / BSIZE == cur / BSIZE;
    }
  }

  function WithSize(v: Vol, i: nat, size: nat): (r: Vol)
    requires i < |v.ino|
  {
    v.(ino := v.ino[i := v.ino[i].(size := size)])
  }

  lemma SizeKeepsSlots(sb: Super, v: Vol, i: nat, size: nat)
    requires Shaped(sb, v) && i < |v.ino| && size <= MAXFILE * BSIZE
    ensures Shaped(sb, WithSize(v, i, size))
    ensures forall j, k :: 0 <= j < |v.ino| && 0 <= k < NSLOTS ==> Slot(WithSize(v, i, size), j, k) == Slot(v, j, k)
  {
  }

  /** The end of writei, which has copied k bytes and counts tot of them: the size
      reaches the last byte counted, and the file reads as its old contents overwritten,
      up to that size; all other files read as before. */
  lemma ProgressDone(sb: Super, v0: Vol, i: nat, off: nat, src: seq<Byte>, tot: nat, k: nat, v: Vol,
                     owner0: map<nat, (nat, nat)>, owner: map<nat, (nat, nat)>)
    requires Progress(sb, v0, i, off, src, k, v) && Inv(sb, v0, owner0, {}) && Inv(sb, v, owner, {})
    requires off <= v0.ino[i].size && tot <= k
    ensures var size := if off + tot > v.ino[i].size then off + tot else v.ino[i].size;
            var v' := WithSize(v, i, size);
            && Inv(sb, v', owner, {}) && size <= |Overwrite(Content(sb, v0, i), off, src[..k])|
            && Content(sb, v', i) == Overwrite(Content(sb, v0, i), off, src[..k])[..size]
            && forall j :: 0 <= j < |v0.ino| && j != i ==> Content(sb, v', j) == Content(sb, v0, j)
  {
    hide Owned, BitsExact, Filled, Slot, Stored, ByteAt;
    var size := if off + tot > v.ino[i].size then off + tot else v.ino[i].size;
    var v' := WithSize(v, i, size);
    SizeKeepsSlots(sb, v, i, size);
    GrowKeepsInv(sb, v, owner, i, off, tot, size);
    OwnFile(sb, v0, i, off, src, tot, k, v, owner0, size);
    hide Content, Overwrite;
    forall j | 0 <= j < |v0.ino| && j != i
      ensures Content(sb, v', j) == Content(sb, v0, j)
    {
      OtherFile(sb, v0, i, off, src, k, v, owner0, size, j);
    }
  }

  lemma OwnFile(sb: Super, v0: Vol, i: nat, off: nat, src: seq<Byte>, tot: nat, k: nat, v: Vol,
                owner0: map<nat, (nat, nat)>, size: nat)
    requires Progress(sb, v0, i, off, src, k, v) && Inv(sb, v0, owner0, {}) && off <= v0.ino[i].size && tot <= k
    requires size == if off + tot > v.ino[i].size then off + tot else v.ino[i].size
    ensures Shaped(sb, WithSize(v, i, size)) && size <= |Overwrite(Content(sb, v0, i), off, src[..k])|
    ensures Content(sb, WithSize(v, i, size), i) == Overwrite(Content(sb, v0, i), off, src[..k])[..size]
  {
    hide Owned, BitsExact, Filled, Slot, Stored, ByteAt;
    SizeKeepsSlots(sb, v, i, size);
    var c := Overwrite(Content(sb, v0, i), off, src[..k]);
    assert |c| >= size;
    hide Overwrite, Progress;
    forall p | 0 <= p < size
      ensures Content(sb, WithSize(v, i, size), i)[p] == c[p]
    {
      DoneByte(sb, v0, i, off, src, k, v, owner0, size, p);
    }
  }

  lemma SameByte(sb: Super, v: Vol, i: nat, size: nat, j: nat, p: nat)
    requires Shaped(sb, v) && i < |v.ino| && size <= MAXFILE * BSIZE && j < |v.ino| && p < MAXFILE * BSIZE
    ensures Shaped(sb, WithSize(v, i, size))
    ensures Stored(WithSize(v, i, size), j, p) == Stored(v, j, p)
      && ByteAt(WithSize(v, i, size), j, p) == ByteAt(v, j, p)
  {
    SizeKeepsSlots(sb, v, i, size);
  }

  lemma DoneByte(sb: Super, v0: Vol, i: nat, off: nat, src: seq<Byte>, tot: nat, v: Vol,
                 owner0: map<nat, (nat, nat)>, size: nat, p: nat)
    requires Progress(sb, v0, i, off, src, tot, v) && Inv(sb, v0, owner0, {}) && off <= v0.ino[i].size
    requires v.ino[i].size <= size <= (if off + tot > v.ino[i].size then off + tot else v.ino[i].size) && p < size
    requires p < |Overwrite(Content(sb, v0, i), off, src[..tot])|
    ensures Shaped(sb, WithSize(v, i, size))
    ensures Content(sb, WithSize(v, i, size), i)[p] == Overwrite(Content(sb, v0, i), off, src[..tot])[p]
  {
    hide Owned, BitsExact, Filled, Slot, Stored, ByteAt, Overwrite, Content;
    SameByte(sb, v, i, size, i, p);
    ContentAt(sb, WithSize(v, i, size), i, p);
    OverwriteAt(Content(sb, v0, i), off, src[..tot], p);
    if p < v0.ino[i].size {
      ContentStored(sb, v0, owner0, {}, i, p);
      ContentAt(sb, v0, i, p);
    }
  }

  lemma ContentAt(sb: Super, v: Vol, i: nat, p: nat)
    requires Shaped(sb, v) && i < |v.ino| && p < v.ino[i].size
    ensures Content(sb, v, i)[p] == ByteAt(v, i, p)
  {
    hide ByteAt;
  }

  lemma OverwriteAt(c: seq<Byte>, off: nat, data: seq<Byte>, p: nat)
    requires off <= |c| && (p < |c| || p < off + |data|)
    ensures p < |Overwrite(c, off, data)| == if off + |data| <= |c| then |c| else off + |data|
    ensures Overwrite(c, off, data)[p] == if off <= p < off + |data| then data[p - off] else c[p]
  {
  }

  lemma OtherFile(sb: Super, v0: Vol, i: nat, off: nat, src: seq<Byte>, tot: nat, v: Vol,
                  owner0: map<nat, (nat, nat)>, size: nat, j: nat)
    requires Progress(sb, v0, i, off, src, tot, v) && Inv(sb, v0, owner0, {})
    requires size <= MAXFILE * BSIZE && j < |v0.ino| && j != i
    ensures Shaped(sb, WithSize(v, i, size))
    ensures Content(sb, WithSize(v, i, size), j) == Content(sb, v0, j)
  {
    hide Owned, BitsExact, Filled, Slot, Stored, ByteAt;
    SizeKeepsSlots(sb, v, i, size);
    forall p | 0 <= p < v0.ino[j].size
      ensures ByteAt(WithSize(v, i, size), j, p) == ByteAt(v0, j, p)
    {
      SameByte(sb, v, i, size, j, p);
      ContentStored(sb, v0, owner0, {}, j, p);
    }
  }

  /** The size may grow over stored bytes. */
  lemma GrowKeepsInv(sb: Super, v: Vol, owner: map<nat, (nat, nat)>, i: nat, off: nat, tot: nat, size: nat)
    requires Inv(sb, v, owner, {}) && i < |v.ino| && off + tot <= MAXFILE * BSIZE && off <= v.ino[i].size
    requires forall p :: off <= p < off + tot ==> Stored(v, i, p)
    requires size == if off + tot > v.ino[i].size then off + tot else v.ino[i].size
    ensures Inv(sb, WithSize(v, i, size), owner, {})
  {
    var v' := WithSize(v, i, size);
    SizeKeepsSlots(sb, v, i, size);
    assert Owned(sb, v', owner);
    forall j, bn | 0 <= j < |v.ino| && 0 <= bn < MAXFILE && bn * BSIZE < v'.ino[j].size
      ensures Slot(v', j, DataSlot(bn)) != 0
    {
      if j == i && bn * BSIZE >= v.ino[i].size {
        assert Stored(v, i, bn * BSIZE);
        assert bn * BSIZE / BSIZE == bn;
      } else {
        assert Slot(v, j, DataSlot(bn)) != 0;
      }
    }
  }
}
