/** The buffer cache of kernel/bio.c.

    One BufCache method is one critical section of bcache.lock (or of the
    buffer's sleep lock), so a run of the cache under any number of processes is
    a sequence of these calls.  `latest` is the flat array of blocks the cache
    stands for: Valid() says that every cached copy not being changed agrees with
    it, and that the disk does for every block without a pinned cached copy. */
module Bio {
  import opened Blocks
  import opened BufList

  datatype Write = Write(bno: nat, data: Block)

  predicate Holds(b: Buf, dev: nat, blockno: nat) {
    b.dev == dev && b.blockno == blockno
  }

  /** Equal but for the list links. */
  predicate SameContents(a: Buf, b: Buf) {
    a == b.(prev := a.prev, next := a.next)
  }

  /** At most one buffer per block; the (0, 0) every buffer starts with is no block. */
  predicate Unique(bs: seq<Buf>)
    requires |bs| == NBUF + 1
  {
    forall i, j :: 0 <= i < j < NBUF && bs[i].dev != 0 ==> !Holds(bs[j], bs[i].dev, bs[i].blockno)
  }

  /** References are those of current users and of the log. */
  predicate Counted(bs: seq<Buf>, holders: seq<nat>, pins: seq<nat>)
    requires |bs| == NBUF + 1
  {
    && |holders| == NBUF && |pins| == NBUF
    && forall i :: 0 <= i < NBUF ==>
         bs[i].refcnt == holders[i] + pins[i] && (bs[i].locked ==> holders[i] > 0)
  }

  /** Clean cached copies and unpinned home blocks equal the flat array. */
  predicate Coherent(bs: seq<Buf>, disk: Image, latest: Image, pins: seq<nat>, dirty: map<nat, nat>)
    requires |bs| == NBUF + 1 && |pins| == NBUF
  {
    && |latest| == |disk|
    && (forall i :: 0 <= i < NBUF && bs[i].dev == ROOTDEV && bs[i].valid ==>
          bs[i].blockno < |disk| && (!bs[i].locked ==> bs[i].data == latest[bs[i].blockno]))
    && (forall k :: 0 <= k < |disk| && k !in dirty ==> disk[k] == latest[k])
    && (forall k :: k in dirty ==>
          k < |disk| && dirty[k] < NBUF && pins[dirty[k]] > 0
          && bs[dirty[k]].valid && Holds(bs[dirty[k]], ROOTDEV, k))
  }

  /** Every buffer is still for the block it was for. */
  predicate SameNames(bs: seq<Buf>, bs': seq<Buf>) {
    |bs'| == |bs| == NBUF + 1 && forall i :: 0 <= i < NBUF ==> Holds(bs'[i], bs[i].dev, bs[i].blockno)
  }

  lemma PushFrontContents(bs: seq<Buf>, b: nat)
    requires |bs| == NBUF + 1 && b < NBUF && bs[HEAD].next < |bs|
    ensures |PushFront(bs, b)| == |bs| && forall i :: 0 <= i <= NBUF ==> SameContents(PushFront(bs, b)[i], bs[i])
  {
  }

  lemma SameNamesUnique(bs: seq<Buf>, bs': seq<Buf>)
    requires |bs| == NBUF + 1 && Unique(bs) && SameNames(bs, bs')
    ensures Unique(bs')
  {
  }

  /** Some buffer is for the block. */
  ghost predicate HasBlock(bs: seq<Buf>, blockno: nat) {
    |bs| == NBUF + 1 && exists i :: 0 <= i < NBUF && Holds(bs[i], ROOTDEV, blockno)
  }

  lemma SameNamesSameBlocks(bs: seq<Buf>, bs': seq<Buf>)
    requires SameNames(bs, bs')
    ensures forall x :: HasBlock(bs, x) <==> HasBlock(bs', x)
  {
    forall x
      ensures HasBlock(bs, x) <==> HasBlock(bs', x)
    {
      if HasBlock(bs, x) {
        var i :| 0 <= i < NBUF && Holds(bs[i], ROOTDEV, x);
        assert Holds(bs'[i], ROOTDEV, x);
      }
      if HasBlock(bs', x) {
        var i :| 0 <= i < NBUF && Holds(bs'[i], ROOTDEV, x);
        assert Holds(bs[i], ROOTDEV, x);
      }
    }
  }

  /** The list plays no part in it. */
  lemma CoherentContents(bs: seq<Buf>, bs': seq<Buf>, disk: Image, latest: Image, pins: seq<nat>,
                         dirty: map<nat, nat>)
    requires |bs'| == |bs| == NBUF + 1 && |pins| == NBUF
    requires forall i :: 0 <= i <= NBUF ==> SameContents(bs'[i], bs[i])
    ensures Coherent(bs', disk, latest, pins, dirty) <==> Coherent(bs, disk, latest, pins, dirty)
  {
    assert forall i :: 0 <= i <= NBUF ==> SameContents(bs[i], bs'[i]);
    if Coherent(bs, disk, latest, pins, dirty) {
      CoherentKept(bs, bs', disk, latest, pins, dirty);
    }
    if Coherent(bs', disk, latest, pins, dirty) {
      CoherentKept(bs', bs, disk, latest, pins, dirty);
    }
  }

  lemma CoherentKept(bs: seq<Buf>, bs': seq<Buf>, disk: Image, latest: Image, pins: seq<nat>, dirty: map<nat, nat>)
    requires |bs'| == |bs| == NBUF + 1 && |pins| == NBUF
    requires forall i :: 0 <= i <= NBUF ==> SameContents(bs'[i], bs[i])
    requires Coherent(bs, disk, latest, pins, dirty)
    ensures Coherent(bs', disk, latest, pins, dirty)
  {
  }

  /** A buffer released must agree with the flat array, and nothing else changes. */
  lemma CoherentReleased(bs: seq<Buf>, b: nat, disk: Image, latest: Image, pins: seq<nat>, dirty: map<nat, nat>)
    requires |bs| == NBUF + 1 && |pins| == NBUF && b < NBUF && bs[b].refcnt > 0
    requires Coherent(bs, disk, latest, pins, dirty)
    ensures Coherent(bs[b := bs[b].(locked := false, refcnt := bs[b].refcnt - 1)], disk, latest, pins, dirty) <==>
            (bs[b].dev == ROOTDEV && bs[b].valid ==> bs[b].blockno < |latest| && bs[b].data == latest[bs[b].blockno])
  {
    var bs' := bs[b := bs[b].(locked := false, refcnt := bs[b].refcnt - 1)];
    assert bs'[b].dev == bs[b].dev && bs'[b].valid == bs[b].valid && !bs'[b].locked;
  }

  /** Links are all that the list depends on. */
  lemma SameLinks(bs: seq<Buf>, bs': seq<Buf>, order: seq<nat>)
    requires Linked(bs, order) && |bs'| == |bs|
    requires forall i :: 0 <= i < |bs| ==> bs'[i].prev == bs[i].prev && bs'[i].next == bs[i].next
    ensures Linked(bs', order)
  {
  }

  class BufCache {
    const buf: array<Buf>
    var disk: Image
    ghost var order: seq<nat>         // most recently used first
    ghost var latest: Image
    ghost var holders: seq<nat>
    ghost var pins: seq<nat>
    ghost var dirty: map<nat, nat>    // logged blocks whose home copy is older, and their buffers
    ghost var trace: seq<Write>       // disk writes so far

    ghost predicate Valid()
      reads this, buf
    {
      Structured() && Coherent(buf[..], disk, latest, pins, dirty)
    }

    /** What holds whatever the buffers contain. */
    ghost predicate Structured()
      reads this, buf
    {
      && buf.Length == NBUF + 1 && |holders| == |pins| == NBUF && |latest| == |disk|
      && Linked(buf[..], order) && |order| == NBUF && (forall b :: 0 <= b < NBUF ==> b in order)
      && Unique(buf[..])
      && Counted(buf[..], holders, pins)
    }

    /** Nothing in the buffer is neither logged nor written. */
    ghost predicate Clean(b: nat)
      requires b < buf.Length
      reads this, buf
    {
      buf[b].dev == ROOTDEV && buf[b].valid ==>
        buf[b].blockno < |latest| && buf[b].data == latest[buf[b].blockno]
    }

    /** Some buffer is referenced by nobody. */
    ghost predicate Spare()
      reads this
    {
      |holders| == |pins| == NBUF && exists i :: 0 <= i < NBUF && holders[i] == 0 && pins[i] == 0
    }

    ghost predicate Cached(blockno: nat)
      reads buf
    {
      HasBlock(buf[..], blockno)
    }

    /** binit, on a machine that has just booted. */
    constructor (image: Image)
      ensures Valid() && fresh(buf)
      ensures disk == latest == image && dirty == map[] && trace == []
      ensures holders == pins == seq(NBUF, _ => 0)
      ensures forall i :: 0 <= i < NBUF ==> !buf[i].locked && !buf[i].valid && buf[i].dev == 0
      ensures forall i :: 0 <= i < NBUF ==> order[i] == NBUF - 1 - i
    {
      var zero := Buf(false, 0, 0, false, 0, HEAD, HEAD, seq(256, _ => 0));
      buf := new Buf[NBUF + 1](_ => zero);
      disk := image;
      latest := image;
      holders := seq(NBUF, _ => 0);
      pins := seq(NBUF, _ => 0);
      dirty := map[];
      trace := [];
      order := [];
      new;
      var b := 0;
      while b < NBUF
        invariant b <= NBUF && buf.Length == NBUF + 1 && |order| == b
        invariant forall i :: 0 <= i < b ==> order[i] == b - 1 - i
        invariant Linked(buf[..], order)
        invariant forall i :: 0 <= i < NBUF ==> SameContents(buf[i], zero)
        modifies buf, this`order
      {
        LinkFirst(b);
        b := b + 1;
      }
      forall b | 0 <= b < NBUF
        ensures b in order
      {
        assert order[NBUF - 1 - b] == b;
      }
    }

    /** Splice an unlisted buffer in behind the head. */
    method LinkFirst(b: nat)
      requires Linked(buf[..], order) && b < NBUF && b !in order
      modifies buf, this`order
      ensures Linked(buf[..], order) && order == [b] + old(order)
      ensures forall i :: 0 <= i <= NBUF ==> SameContents(buf[i], old(buf[i]))
    {
      ghost var bs := buf[..];
      assert |bs| == NBUF + 1;
      hide Linked;
      PushFrontKeepsList(bs, order, b);
      PushFrontContents(bs, b);
      buf[b] := buf[b].(next := buf[HEAD].next);
      buf[b] := buf[b].(prev := HEAD);
      assert buf[..] == bs[b := bs[b].(next := bs[HEAD].next, prev := HEAD)];
      buf[buf[HEAD].next] := buf[buf[HEAD].next].(prev := b);
      buf[HEAD] := buf[HEAD].(next := b);
      assert buf[..] == PushFront(bs, b);
      hide PushFront;
      order := [b] + order;
      forall i | 0 <= i <= NBUF
        ensures SameContents(buf[i], old(buf[i]))
      {
        assert buf[i] == PushFront(bs, b)[i];
      }
    }

    /** Take a buffer out of the list. */
    method TakeOut(b: nat, ghost k: nat)
      requires Linked(buf[..], order) && k < |order| && order[k] == b
      modifies buf, this`order
      ensures Linked(buf[..], order) && order == Without(old(order), k)
      ensures forall i :: 0 <= i <= NBUF ==> SameContents(buf[i], old(buf[i]))
    {
      assert buf.Length == NBUF + 1 && b < NBUF;
      hide Linked;
      UnlinkKeepsList(buf[..], order, k);
      buf[buf[b].next] := buf[buf[b].next].(prev := buf[b].prev);
      buf[buf[b].prev] := buf[buf[b].prev].(next := buf[b].next);
      assert buf[..] == Unlink(old(buf[..]), b);
      order := Without(order, k);
    }
  
    /** The first scan of bget: along next from the head. */
    method FindCached(dev: nat, blockno: nat) returns (b: nat)
      requires Valid()
      ensures b <= NBUF
      ensures b < NBUF ==> Holds(buf[b], dev, blockno)
      ensures b == HEAD <==> forall i :: 0 <= i < NBUF ==> !Holds(buf[i], dev, blockno)
    {
      ghost var k: nat := 0;
      assert At(order, 0) == HEAD;
      b := buf[HEAD].next;
      while b != HEAD
        invariant k <= NBUF && b == At(order, k + 1)
        invariant forall j :: 0 <= j < k ==> !Holds(buf[order[j]], dev, blockno)
        decreases NBUF - k
      {
        assert b == order[k];
        if buf[b].dev == dev && buf[b].blockno == blockno {
          return;
        }
        b := buf[b].next;
        k := k + 1;
      }
      forall i | 0 <= i < NBUF
        ensures !Holds(buf[i], dev, blockno)
      {
        assert i in order;
      }
    }

    /** The second scan of bget: along prev from the head, so that of all
        unreferenced buffers it returns the least recently used one. */
    method FindUnused() returns (b: nat)
      requires Valid()
      ensures b <= NBUF
      ensures b < NBUF ==> buf[b].refcnt == 0
      ensures forall j, k :: 0 <= k < j < NBUF && order[k] == b ==> buf[order[j]].refcnt != 0
      ensures b == HEAD <==> !Spare()
    {
      ghost var k: nat := NBUF;
      b := buf[HEAD].prev;
      assert At(order, NBUF + 1) == HEAD && At(order, NBUF) == order[NBUF - 1];
      while b != HEAD
        invariant k <= NBUF && b == At(order, k)
        invariant forall j :: k <= j < NBUF ==> buf[order[j]].refcnt != 0
        decreases k
      {
        assert b == order[k - 1];
        if buf[b].refcnt == 0 {
          return;
        }
        assert At(order, k - 1) == buf[b].prev;
        b := buf[b].prev;
        k := k - 1;
      }
      forall i | 0 <= i < NBUF
        ensures buf[i].refcnt != 0
      {
        assert i in order;
      }
    }
  
    method AddRef(b: nat)
      requires Valid() && b < NBUF
      modifies this`holders, buf
      ensures Valid() && holders == old(holders)[b := old(holders)[b] + 1]
      ensures buf[..] == old(buf[..])[b := old(buf[b]).(refcnt := old(buf[b].refcnt) + 1)]
    {
      hide Linked, Unique;
      buf[b] := buf[b].(refcnt := buf[b].refcnt + 1);
      holders := holders[b := holders[b] + 1];
      SameLinks(old(buf[..]), buf[..], order);
      SameNamesUnique(old(buf[..]), buf[..]);
    }

    method Recycle(b: nat, dev: nat, blockno: nat)
      requires Valid() && b < NBUF && buf[b].refcnt == 0
      requires forall i :: 0 <= i < NBUF ==> !Holds(buf[i], dev, blockno)
      modifies this`holders, buf
      ensures Valid() && holders == old(holders)[b := old(holders)[b] + 1]
      ensures buf[..] == old(buf[..])[b := old(buf[b]).(dev := dev, blockno := blockno, valid := false, refcnt := 1)]
    {
      buf[b] := buf[b].(dev := dev, blockno := blockno, valid := false, refcnt := 1);
      holders := holders[b := holders[b] + 1];
      SameLinks(old(buf[..]), buf[..], order);
    }

    /** bget.  A cached block is found; otherwise the least recently used
        unreferenced buffer is recycled; ok is false where the kernel panics
        with "no buffers". */
    method BGet(dev: nat, blockno: nat) returns (b: nat, ok: bool)
      requires Valid()
      modifies this`holders, buf
      ensures Valid()
      ensures ok <==> old(Spare()) || exists i :: 0 <= i < NBUF && Holds(old(buf[i]), dev, blockno)
      ensures !ok ==> buf[..] == old(buf[..]) && holders == old(holders)
      ensures ok ==> b < NBUF && holders == old(holders)[b := old(holders)[b] + 1]
      ensures ok ==>
        var was := old(buf[b]);
        if Holds(was, dev, blockno) then
          buf[..] == old(buf[..])[b := was.(refcnt := was.refcnt + 1)]
        else
          && was.refcnt == 0
          && buf[..] == old(buf[..])[b := was.(dev := dev, blockno := blockno, valid := false, refcnt := 1)]
          && (forall i :: 0 <= i < NBUF ==> !Holds(old(buf[i]), dev, blockno))
          && (forall j, k :: 0 <= k < j < NBUF && order[k] == b ==> old(buf[order[j]].refcnt) != 0)
    {
      b := FindCached(dev, blockno);
      if b != HEAD {
        AddRef(b);
      } else {
        b := FindUnused();
        if b == HEAD {
          return b, false;
        }
        Recycle(b, dev, blockno);
      }
      ok := true;
    }

    /** The rest of bread, once the sleep lock is free: lock the buffer and read
        the block from disk unless the cached copy is valid. */
    method LockAndFill(b: nat)
      requires Valid() && b < NBUF && holders[b] > 0 && !buf[b].locked
      requires buf[b].dev == ROOTDEV && buf[b].blockno < |disk|
      modifies buf
      ensures Valid()
      ensures buf[..] == old(buf[..])[b :=
                old(buf[b]).(locked := true, valid := true, data := latest[old(buf[b]).blockno])]
    {
      assert !buf[b].valid ==> buf[b].blockno !in dirty;
      hide Linked, Unique;
      buf[b] := buf[b].(locked := true);
      if !buf[b].valid {
        buf[b] := buf[b].(data := disk[buf[b].blockno]);
        buf[b] := buf[b].(valid := true);
      }
      SameLinks(old(buf[..]), buf[..], order);
      SameNamesUnique(old(buf[..]), buf[..]);
    }

    /** The buffer of the block is in somebody's hands. */
    ghost predicate InUse(blockno: nat)
      reads buf
    {
      exists i :: 0 <= i < NBUF < buf.Length && Holds(buf[i], ROOTDEV, blockno) && buf[i].locked
    }

    /** bread: a locked buffer with the block's latest contents.  If another process has
        the buffer locked, the caller has its reference and sleeps, and goes on with
        LockAndFill when the lock is free. */
    method BRead(blockno: nat) returns (b: nat, ok: bool, sleeps: bool)
      requires Valid() && blockno < |disk|
      modifies this`holders, buf
      ensures Valid()
      ensures ok <==> old(Spare()) || old(Cached(blockno))
      ensures !ok ==> buf[..] == old(buf[..]) && holders == old(holders)
      ensures ok ==> b < NBUF && holders == old(holders)[b := old(holders)[b] + 1]
      ensures ok && !old(Spare()) ==> SameNames(old(buf[..]), buf[..])
      ensures sleeps <==> old(InUse(blockno))
      ensures sleeps ==> ok && buf[..] == old(buf[..])[b := old(buf[b]).(refcnt := old(buf[b].refcnt) + 1)]
      ensures ok ==> Holds(buf[b], ROOTDEV, blockno) && buf[b].locked && (sleeps <==> old(buf[b].locked))
      ensures ok && !sleeps ==> buf[b].valid && buf[b].data == latest[blockno]
      ensures ok ==> forall i :: 0 <= i < NBUF && i != b ==> buf[i] == old(buf[i])
      ensures ok && !Holds(old(buf[b]), ROOTDEV, blockno) ==> old(holders)[b] == 0 && pins[b] == 0
    {
      b, ok := BGet(ROOTDEV, blockno);
      sleeps := ok && buf[b].locked;
      if ok && !sleeps {
        assert Holds(buf[b], ROOTDEV, blockno);
        LockAndFill(b);
      }
    }

    /** The holder of a locked buffer stores into b->data. */
    method SetData(b: nat, data: Block)
      requires Valid() && b < NBUF && buf[b].locked
      modifies buf
      ensures Valid()
      ensures buf[..] == old(buf[..])[b := old(buf[b]).(data := data)]
    {
      hide Linked, Unique;
      buf[b] := buf[b].(data := data);
      SameLinks(old(buf[..]), buf[..], order);
      SameNamesUnique(old(buf[..]), buf[..]);
    }

    /** bwrite: one disk write, after which the home copy is the latest. */
    method BWrite(b: nat)
      requires Valid() && b < NBUF && buf[b].locked && buf[b].valid && buf[b].dev == ROOTDEV
      modifies this`disk, this`latest, this`dirty, this`trace
      ensures Valid()
      ensures disk == old(disk)[buf[b].blockno := buf[b].data]
      ensures latest == old(latest)[buf[b].blockno := buf[b].data]
      ensures dirty == old(dirty) - {buf[b].blockno}
      ensures trace == old(trace) + [Write(buf[b].blockno, buf[b].data)]
    {
      disk := disk[buf[b].blockno := buf[b].data];
      latest := latest[buf[b].blockno := buf[b].data];
      dirty := dirty - {buf[b].blockno};
      trace := trace + [Write(buf[b].blockno, buf[b].data)];
    }

    method MoveToFront(b: nat, ghost k: nat)
      requires Structured() && k < NBUF && order[k] == b
      modifies this`order, buf
      ensures Structured() && order == [b] + Without(old(order), k)
      ensures forall i :: 0 <= i <= NBUF ==> SameContents(buf[i], old(buf[i]))
    {
      TakeOut(b, k);
      LinkFirst(b);
      forall i | 0 <= i < NBUF
        ensures i in order
      {
        assert i in old(order);
      }
    }

    /** brelse.  The cache stays coherent exactly if the client has logged or written
        whatever it changed.  An unreferenced buffer becomes the most recently used one. */
    method BRelse(b: nat)
      requires Valid() && b < NBUF && buf[b].locked
      modifies this`holders, this`order, buf
      ensures Structured() && (Valid() <==> old(Clean(b)))
      ensures holders == old(holders)[b := old(holders)[b] - 1]
      ensures forall i :: 0 <= i < NBUF && i != b ==> SameContents(buf[i], old(buf[i]))
      ensures SameContents(buf[b], old(buf[b]).(locked := false, refcnt := old(buf[b].refcnt) - 1))
      ensures if old(buf[b].refcnt) > 1 then order == old(order)
              else exists k :: 0 <= k < NBUF && old(order)[k] == b && order == [b] + Without(old(order), k)
    {
      DropRef(b);
      ghost var bs := buf[..];
      if buf[b].refcnt == 0 {
        assert b in order;
        ghost var k :| 0 <= k < |order| && order[k] == b;
        MoveToFront(b, k);
        CoherentContents(bs, buf[..], disk, latest, pins, dirty);
      }
    }

    method DropRef(b: nat)
      requires Valid() && b < NBUF && buf[b].locked
      modifies this`holders, buf
      ensures Structured() && (Coherent(buf[..], disk, latest, pins, dirty) <==> old(Clean(b)))
      ensures holders == old(holders)[b := old(holders)[b] - 1]
      ensures buf[..] == old(buf[..])[b := old(buf[b]).(locked := false, refcnt := old(buf[b].refcnt) - 1)]
    {
      CoherentReleased(buf[..], b, disk, latest, pins, dirty);
      hide Linked, Unique, Coherent;
      buf[b] := buf[b].(locked := false);
      buf[b] := buf[b].(refcnt := buf[b].refcnt - 1);
      holders := holders[b := holders[b] - 1];
      SameLinks(old(buf[..]), buf[..], order);
      SameNamesUnique(old(buf[..]), buf[..]);
      assert buf[..] == old(buf[..])[b := old(buf[b]).(locked := false, refcnt := old(buf[b].refcnt) - 1)];
    }

    method BPin(b: nat)
      requires Valid() && b < NBUF
      modifies this`pins, buf
      ensures Valid()
      ensures pins == old(pins)[b := old(pins)[b] + 1]
      ensures buf[..] == old(buf[..])[b := old(buf[b]).(refcnt := old(buf[b].refcnt) + 1)]
    {
      hide Linked, Unique;
      buf[b] := buf[b].(refcnt := buf[b].refcnt + 1);
      pins := pins[b := pins[b] + 1];
      SameLinks(old(buf[..]), buf[..], order);
      SameNamesUnique(old(buf[..]), buf[..]);
    }

    /** bunpin of a buffer that is pinned once more than it is dirty. */
    method BUnpin(b: nat)
      requires Valid() && b < NBUF && pins[b] > 0
      requires pins[b] == 1 ==> forall k :: k in dirty ==> dirty[k] != b
      modifies this`pins, buf
      ensures Valid()
      ensures pins == old(pins)[b := old(pins)[b] - 1]
      ensures buf[..] == old(buf[..])[b := old(buf[b]).(refcnt := old(buf[b].refcnt) - 1)]
    {
      hide Linked, Unique;
      buf[b] := buf[b].(refcnt := buf[b].refcnt - 1);
      pins := pins[b := pins[b] - 1];
      SameLinks(old(buf[..]), buf[..], order);
      SameNamesUnique(old(buf[..]), buf[..]);
    }
  
    /** The effect of log_write on the flat array: the contents of the pinned
        buffer b are now its block's latest contents. */
    ghost method MarkLogged(b: nat)
      requires Valid() && b < NBUF && pins[b] > 0
      requires buf[b].locked && buf[b].valid && buf[b].dev == ROOTDEV
      modifies this`latest, this`dirty
      ensures Valid()
      ensures latest == old(latest)[buf[b].blockno := buf[b].data]
      ensures dirty == old(dirty)[buf[b].blockno := b]
    {
      latest := latest[buf[b].blockno := buf[b].data];
      dirty := dirty[buf[b].blockno := b];
    }

    /** bpin of a buffer that log_write has just added to the transaction. */
    method PinLogged(b: nat)
      requires Valid() && b < NBUF
      requires buf[b].locked && buf[b].valid && buf[b].dev == ROOTDEV
      modifies this`latest, this`dirty, this`pins, buf
      ensures Valid()
      ensures latest == old(latest)[old(buf[b].blockno) := old(buf[b].data)]
      ensures dirty == old(dirty)[old(buf[b].blockno) := b]
      ensures pins == old(pins)[b := old(pins)[b] + 1]
      ensures buf[..] == old(buf[..])[b := old(buf[b]).(refcnt := old(buf[b].refcnt) + 1)]
    {
      hide Linked, Unique, Counted, Coherent;
      BPin(b);
      MarkLogged(b);
    }
  }
}
