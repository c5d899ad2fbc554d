/** The driver of kernel/virtio_disk.c, with the device as its environment. */
module Virtio {
  import opened VirtioQueue

  type Bytes = seq<nat>

  /** The three descriptors d are taken, those of other requests are not touched. */
  lemma AddChain(desc: seq<Desc>, free: seq<bool>, ops: seq<Op>, info: seq<Info>, reqs: Reqs,
                 desc': seq<Desc>, free': seq<bool>, ops': seq<Op>, info': seq<Info>, h: nat, q: Req)
    requires Chains(desc, free, ops, info, reqs) && |desc'| == NUM && |free'| == NUM && |ops'| == NUM && |info'| == NUM
    requires h < NUM && q.d1 < NUM && q.d2 < NUM && h != q.d1 && h != q.d2 && q.d1 != q.d2
    requires free[h] && free[q.d1] && free[q.d2]
    requires free' == free[h := false][q.d1 := false][q.d2 := false]
    requires forall i :: 0 <= i < NUM && i != h && i != q.d1 && i != q.d2 ==> desc'[i] == desc[i]
    requires forall i :: 0 <= i < NUM && i != h ==> ops'[i] == ops[i] && info'[i] == info[i]
    requires ChainOk(desc', free', ops', info', h, q) && forall k :: k in reqs ==> reqs[k].b != q.b
    ensures h !in reqs && Chains(desc', free', ops', info', reqs[h := q])
  {
    hide ChainOk;
    CountSet(free, h, false);
    CountSet(free[h := false], q.d1, false);
    CountSet(free[h := false][q.d1 := false], q.d2, false);
    assert ReqOk(desc, free, ops, info, reqs, h);
    if h in reqs {
      ChainBounds(desc, free, ops, info, h, reqs[h]);
    }
    var reqs' := reqs[h := q];
    forall k
      ensures ReqOk(desc', free', ops', info', reqs', k) && PairOk(reqs', k, h) && PairOk(reqs', h, k)
    {
      assert ReqOk(desc, free, ops, info, reqs, k);
      if k in reqs {
        ChainBounds(desc, free, ops, info, k, reqs[k]);
        ChainKept(desc, free, ops, info, k, reqs[k], desc', free', ops', info');
      }
    }
    forall k, l
      ensures PairOk(reqs', k, l)
    {
      assert PairOk(reqs, k, l);
    }
    assert |reqs'| == |reqs| + 1;
  }

  /** Only the stage, and the status with it, of request h changes. */
  lemma StageChain(desc: seq<Desc>, free: seq<bool>, ops: seq<Op>, info: seq<Info>, reqs: Reqs, info': seq<Info>,
                   h: nat, q: Req)
    requires Chains(desc, free, ops, info, reqs) && h in reqs && h < NUM && |info'| == NUM
      && q == reqs[h].(stage := q.stage)
    requires info' == info[h := Info(Some(q.b), if q.stage.Used? || q.stage.Seen? then 0 else 255)]
    ensures Chains(desc, free, ops, info', reqs[h := q])
  {
    assert ReqOk(desc, free, ops, info, reqs, h);
    assert ChainOk(desc, free, ops, info', h, q);
    hide ChainOk;
    var reqs' := reqs[h := q];
    forall k
      ensures ReqOk(desc, free, ops, info', reqs', k)
    {
      assert ReqOk(desc, free, ops, info, reqs, k);
      if k in reqs && k != h {
        ChainBounds(desc, free, ops, info, k, reqs[k]);
        ChainKept(desc, free, ops, info, k, reqs[k], desc, free, ops, info');
      }
    }
    forall k, l
      ensures PairOk(reqs', k, l)
    {
      assert PairOk(reqs, k, l);
    }
    assert reqs'.Keys == reqs.Keys;
    assert |reqs'| == |reqs|;
  }

  lemma DropChain(desc: seq<Desc>, free: seq<bool>, ops: seq<Op>, info: seq<Info>, reqs: Reqs,
                  desc': seq<Desc>, free': seq<bool>, info': seq<Info>, h: nat)
    requires Chains(desc, free, ops, info, reqs) && h in reqs && |desc'| == NUM && |free'| == NUM && |info'| == NUM
    requires ChainOk(desc, free, ops, info, h, reqs[h])
    requires free' == free[h := true][reqs[h].d1 := true][reqs[h].d2 := true]
    requires forall i :: 0 <= i < NUM && i != h && i != reqs[h].d1 && i != reqs[h].d2 ==> desc'[i] == desc[i]
    requires forall i :: 0 <= i < NUM && i != h ==> info'[i] == info[i]
    ensures Chains(desc', free', ops, info', reqs - {h})
  {
    var q := reqs[h];
    ChainBounds(desc, free, ops, info, h, q);
    hide ChainOk;
    CountSet(free, h, true);
    CountSet(free[h := true], q.d1, true);
    CountSet(free[h := true][q.d1 := true], q.d2, true);
    var reqs' := reqs - {h};
    forall k
      ensures ReqOk(desc', free', ops, info', reqs', k)
    {
      assert ReqOk(desc, free, ops, info, reqs, k) && PairOk(reqs, h, k);
      if k in reqs' {
        ChainBounds(desc, free, ops, info, k, reqs[k]);
        ChainKept(desc, free, ops, info, k, reqs[k], desc', free', ops, info');
      }
    }
    forall k, l
      ensures PairOk(reqs', k, l)
    {
      assert PairOk(reqs, k, l);
    }
    assert reqs'[h := q] == reqs;
    assert |reqs'| == |reqs| - 1;
  }

  /** free with the descriptors in idx taken. */
  ghost predicate Taken(free: seq<bool>, idx: seq<nat>, free': seq<bool>) {
    && |free| == NUM && |free'| == NUM
    && (forall j :: 0 <= j < |idx| ==> idx[j] < NUM && free[idx[j]])
    && (forall j, k :: 0 <= j < k < |idx| ==> idx[j] != idx[k])
    && (forall i :: 0 <= i < NUM ==> free'[i] == (free[i] && i !in idx))
  }

  /** b->disk is 1 exactly until the completion has been seen. */
  ghost predicate BuffersOk(reqs: Reqs, inDisk: set<nat>, bufs: set<nat>) {
    forall h :: h in reqs ==> reqs[h].b in bufs && (reqs[h].b in inDisk <==> !reqs[h].stage.Seen?)
  }

  /** The requests of these heads, and no others, have been seen. */
  ghost predicate SeenAlso(reqs: Reqs, heads: seq<nat>, reqs': Reqs) {
    && reqs'.Keys == reqs.Keys
    && forall h :: h in reqs ==> h in reqs' && reqs'[h] == if h in heads then reqs[h].(stage := Seen) else reqs[h]
  }

  ghost predicate Linked(desc: seq<Desc>, free: seq<bool>, h: nat, q: Req) {
    && |desc| == NUM && |free| == NUM && h < NUM && q.d1 < NUM && q.d2 < NUM && h != q.d1 && h != q.d2 && q.d1 != q.d2
    && !free[h] && !free[q.d1] && !free[q.d2]
    && desc[h].flags % 2 == F_NEXT && desc[h].next == q.d1
    && desc[q.d1].flags % 2 == F_NEXT && desc[q.d1].next == q.d2 && desc[q.d2].flags % 2 == 0
  }

  class Disk {
    var desc: seq<Desc>
    var free: seq<bool>
    var ops: seq<Op>
    var info: seq<Info>
    var avail: seq<nat>
    var availIdx: nat
    var used: seq<nat>
    var usedIdx: nat           // how far the device has written the used ring
    var seenIdx: nat           // how far the driver has read it
    var devIdx: nat            // how far the device has read the available ring
    var inDisk: set<nat>       // the buffers with b->disk == 1
    var data: map<nat, Bytes>  // their contents
    var sectors: map<nat, Bytes>
    ghost var reqs: Reqs
    ghost var submitted: seq<nat>
    ghost var fetched: nat
    ghost var completed: seq<nat>
    ghost var seen: nat

    ghost predicate Rings()
      reads this
    {
      && Ring(avail, availIdx, submitted, fetched, reqs, Queued) && devIdx == Index(fetched)
      && Ring(used, usedIdx, completed, seen, reqs, Used) && seenIdx == Index(seen)
    }

    ghost predicate Buffers()
      reads this
    {
      BuffersOk(reqs, inDisk, data.Keys)
    }

    ghost predicate Valid()
      reads this
    {
      Chains(desc, free, ops, info, reqs) && Rings() && Buffers()
    }

    constructor (data: map<nat, Bytes>, sectors: map<nat, Bytes>)
      ensures Valid() && reqs == map[] && this.data == data && this.sectors == sectors
    {
      desc := seq(NUM, _ => NODESC);
      free := [true, true, true, true, true, true, true, true];
      ops := seq(NUM, _ => Op(0, 0));
      info := seq(NUM, _ => Info(None, 0));
      avail, used := seq(NUM, _ => 0), seq(NUM, _ => 0);
      availIdx, usedIdx, seenIdx, devIdx := 0, 0, 0, 0;
      inDisk := {};
      this.data, this.sectors := data, sectors;
      reqs, submitted, fetched, completed, seen := map[], [], 0, [], 0;
      AllFree();
    }

    /** alloc_desc. */
    method AllocDesc() returns (i: int)
      requires |free| == NUM
      modifies this`free
      ensures i == -1 ==> free == old(free) && forall j :: 0 <= j < NUM ==> !free[j]
      ensures i != -1 ==> 0 <= i < NUM && old(free)[i] && free == old(free)[i := false]
      ensures i != -1 ==> forall j :: 0 <= j < i ==> !old(free)[j]
    {
      i := 0;
      while i < NUM
        invariant 0 <= i <= NUM && free == old(free) && forall j :: 0 <= j < i ==> !free[j]
      {
        if free[i] {
          free := free[i := false];
          return;
        }
        i := i + 1;
      }
      i := -1;
    }

    /** free_desc; it panics on a descriptor out of range or already free. */
    method FreeDesc(i: nat)
      requires |free| == NUM && |desc| == NUM && i < NUM && !free[i]
      modifies this`free, this`desc
      ensures free == old(free)[i := true] && desc == old(desc)[i := NODESC]
    {
      desc := desc[i := NODESC];
      free := free[i := true];
    }

    /** alloc3_desc: three free descriptors, or none are taken. */
    method Alloc3Desc() returns (ok: bool, idx: seq<nat>)
      requires |free| == NUM && |desc| == NUM
      modifies this`free, this`desc
      ensures |desc| == NUM && forall i :: 0 <= i < NUM && !old(free)[i] ==> desc[i] == old(desc)[i]
      ensures ok ==> |idx| == 3 && Taken(old(free), idx, free) && desc == old(desc)
      ensures !ok ==> free == old(free) && FreeCount(free) < 3
    {
      idx := [];
      while |idx| < 3
        invariant |idx| <= 3 && desc == old(desc) && Taken(old(free), idx, free)
        decreases 3 - |idx|
      {
        var x := AllocDesc();
        if x < 0 {
          ghost var none := free;
          TooFew(old(free), idx, free);
          var j := 0;
          while j < |idx|
            invariant j <= |idx| && |desc| == NUM && Taken(old(free), idx[j..], free)
            invariant forall i :: 0 <= i < NUM && !old(free)[i] ==> desc[i] == old(desc)[i]
          {
            assert idx[j] in idx[j..];
            FreeDesc(idx[j]);
            Untaken(old(free), idx, j, old(free), free);
            j := j + 1;
          }
          assert idx[j..] == [];
          assert free == old(free);
          return false, [];
        }
        idx := idx + [x];
      }
      ok := true;
    }

    /** The middle of virtio_disk_rw: fill in the three descriptors, the request header
        and the record for the interrupt handler. */
    method Format(h: nat, d1: nat, d2: nat, b: nat, write: bool, block: nat)
      requires |desc| == NUM && |free| == NUM && |ops| == NUM && |info| == NUM
      requires h < NUM && d1 < NUM && d2 < NUM && h != d1 && h != d2 && d1 != d2 && !free[h] && !free[d1] && !free[d2]
      modifies this`desc, this`ops, this`info, this`inDisk
      ensures |desc| == NUM && |ops| == NUM && |info| == NUM && inDisk == old(inDisk) + {b}
      ensures ChainOk(desc, free, ops, info, h, Req(d1, d2, b, write, block, Queued))
      ensures forall i :: 0 <= i < NUM && i != h && i != d1 && i != d2 ==> desc[i] == old(desc)[i]
      ensures forall i :: 0 <= i < NUM && i != h ==> ops[i] == old(ops)[i] && info[i] == old(info)[i]
    {
      ops := ops[h := Op(if write then T_OUT else T_IN, block * (1024 / 512))];
      desc := desc[h := Desc(OpOf(h), 16, F_NEXT, d1)];
      desc := desc[d1 := Desc(DataOf(b), 1024, (if write then 0 else F_WRITE) + F_NEXT, d2)];
      info := info[h := info[h].(status := 0xff)];
      desc := desc[d2 := Desc(StatusOf(h), 1, F_WRITE, 0)];
      inDisk := inDisk + {b};
      info := info[h := info[h].(b := Some(b))];
    }

    /** virtio_disk_rw up to its wait for the interrupt; false if it has to wait for
        descriptors first. */
    method Submit(b: nat, write: bool, block: nat) returns (ok: bool, h: nat)
      requires Valid() && b in data && forall k :: k in reqs ==> reqs[k].b != b
      modifies this`desc, this`free, this`ops, this`info, this`inDisk, this`avail, this`availIdx, this`reqs,
          this`submitted
      ensures Valid()
      ensures !ok ==> reqs == old(reqs) && submitted == old(submitted) && inDisk == old(inDisk) && |reqs| >= 2
      ensures ok ==> h !in old(reqs) && submitted == old(submitted) + [h] && inDisk == old(inDisk) + {b}
      ensures ok ==> exists d1, d2 :: reqs == old(reqs)[h := Req(d1, d2, b, write, block, Queued)]
    {
      hide Index, Chains, ChainOk, Ring, Apart, Taken, BuffersOk;
      ghost var desc0, free0, ops0, info0 := desc, free, ops, info;
      Shape(desc, free, ops, info, reqs);
      var idx;
      ok, idx := Alloc3Desc();
      if !ok {
        Sparse(desc0, free, ops, info, reqs, desc);
        h := 0;
        return;
      }
      TakenThree(free0, idx, free);
      h := idx[0];
      Format(h, idx[1], idx[2], b, write, block);
      ghost var q := Req(idx[1], idx[2], b, write, block, Queued);
      AddChain(desc0, free0, ops0, info0, reqs, desc, free, ops, info, h, q);
      AddBuffer(reqs, old(inDisk), data.Keys, h, q);
      Publish(h, q);
    }

    /** The end of virtio_disk_rw's first half: the head goes on the available ring. */
    method Publish(h: nat, ghost q: Req)
      requires Rings() && h !in reqs && q.stage == Queued && 3 * |reqs| <= NUM
      modifies this`avail, this`availIdx, this`reqs, this`submitted
      ensures Rings() && reqs == old(reqs)[h := q] && submitted == old(submitted) + [h]
    {
      hide Index, Ring;
      RingRoom(avail, availIdx, submitted, fetched, reqs, Queued);
      RingPut(avail, availIdx, submitted, fetched, reqs, Queued, h, reqs[h := q]);
      RingKeeps(used, usedIdx, completed, seen, reqs, Used, h, reqs[h := q]);
      RingSize(avail, availIdx, submitted, fetched, reqs, Queued);
      avail := avail[availIdx % NUM := h];
      availIdx := (availIdx + 1) % WRAP;
      submitted := submitted + [h];
      reqs := reqs[h := q];
    }

    // ---- the device ----

    /** The device takes the next head from the available ring: the oldest one that was
        submitted and not taken, whatever was submitted since. */
    method DeviceFetch() returns (h: nat)
      requires Valid() && devIdx != availIdx
      modifies this`devIdx, this`reqs, this`fetched
      ensures Valid() && fetched == old(fetched) + 1 <= |submitted| && h == submitted[old(fetched)]
      ensures h in old(reqs) && old(reqs)[h].stage == Queued && reqs == old(reqs)[h := old(reqs)[h].(stage := Fetched)]
    {
      hide Index, Chains, ChainOk, Ring, Apart, BuffersOk;
      RingSize(avail, availIdx, submitted, fetched, reqs, Queued);
      Unread(avail, availIdx, submitted, fetched, reqs, Queued, desc, free, ops, info);
      h := avail[devIdx % NUM];
      ghost var x := submitted[fetched];
      RingGet(avail, availIdx, submitted, fetched, reqs, Queued, StageOf(reqs, x, Fetched));
      RingKeeps(used, usedIdx, completed, seen, reqs, Used, h, StageOf(reqs, h, Fetched));
      SameInfo(desc, free, ops, info, reqs, h);
      StageChain(desc, free, ops, info, reqs, info, h, reqs[h].(stage := Fetched));
      StageBuffers(reqs, inDisk, data.Keys, h, Fetched);
      devIdx := (devIdx + 1) % WRAP;
      WrapIndex(fetched);
      fetched := fetched + 1;
      reqs := reqs[h := reqs[h].(stage := Fetched)];
    }

    /** The device carries out a request that it has fetched, in any order: it follows
        the chain, moves the data, writes the status and adds to the used ring. */
    method DeviceComplete(h: nat)
      requires Valid() && h in reqs && reqs[h].stage == Fetched && reqs[h].block * 2 in sectors
      modifies this`info, this`used, this`usedIdx, this`data, this`sectors, this`reqs, this`completed
      ensures Valid() && completed == old(completed) + [h] && reqs == old(reqs)[h := old(reqs)[h].(stage := Used)]
      ensures var q := old(reqs)[h];
              if q.write then data == old(data) && sectors == old(sectors)[q.block * 2 := old(data)[q.b]]
              else sectors == old(sectors) && data == old(data)[q.b := old(sectors)[q.block * 2]]
    {
      hide Index, Chains, Ring, Apart, BuffersOk, ChainOk;
      Shape(desc, free, ops, info, reqs);
      Chain(desc, free, ops, info, reqs, h);
      StageBuffers(reqs, inDisk, data.Keys, h, Used);
      StageChain(desc, free, ops, info, reqs, info[h := Info(Some(reqs[h].b), 0)], h, reqs[h].(stage := Used));
      MoveData(h, reqs[h]);
      PostUsed(h);
    }

    /** Follow the chain, move the data one way or the other, and write the status. */
    method MoveData(h: nat, ghost q: Req)
      requires ChainOk(desc, free, ops, info, h, q) && q.b in data && q.block * 2 in sectors
      modifies this`info, this`data, this`sectors
      ensures info == old(info)[h := Info(Some(q.b), 0)] && data.Keys == old(data).Keys
      ensures if q.write then data == old(data) && sectors == old(sectors)[q.block * 2 := old(data)[q.b]]
              else sectors == old(sectors) && data == old(data)[q.b := old(sectors)[q.block * 2]]
    {
      hide ChainOk;
      Followed(desc, free, ops, info, h, q);
      var first := desc[h];
      var second := desc[first.next];
      var third := desc[second.next];
      var op := ops[first.addr.i];
      if second.flags / F_WRITE % 2 == 0 {
        sectors := sectors[op.sector := data[second.addr.b]];
      } else {
        data := data[second.addr.b := sectors[op.sector]];
      }
      assert data.Keys == old(data).Keys;
      info := info[third.addr.i := info[third.addr.i].(status := 0)];
    }

    /** The device adds a head to the used ring. */
    method PostUsed(h: nat)
      requires Rings() && h in reqs && reqs[h].stage == Fetched && 3 * |reqs| <= NUM
      modifies this`used, this`usedIdx, this`reqs, this`completed
      ensures Rings() && reqs == old(reqs)[h := old(reqs)[h].(stage := Used)] && completed == old(completed) + [h]
    {
      hide Index, Ring;
      ghost var reqs' := reqs[h := reqs[h].(stage := Used)];
      RingRoom(used, usedIdx, completed, seen, reqs, Used);
      RingSize(used, usedIdx, completed, seen, reqs, Used);
      RingPut(used, usedIdx, completed, seen, reqs, Used, h, reqs');
      RingKeeps(avail, availIdx, submitted, fetched, reqs, Queued, h, reqs');
      used := used[usedIdx % NUM := h];
      usedIdx := (usedIdx + 1) % WRAP;
      completed := completed + [h];
      reqs := reqs';
    }

    // ---- completion ----

    /** One pass of virtio_disk_intr's loop: the oldest unseen completion releases the
        buffer of that very request.  Its status is 0, so there is no panic. */
    method SeeOne() returns (h: nat)
      requires Valid() && seenIdx != usedIdx
      modifies this`inDisk, this`seenIdx, this`reqs, this`seen
      ensures Valid() && seen == old(seen) + 1 <= |completed| && h == completed[old(seen)]
      ensures h in old(reqs) && old(reqs)[h].stage == Used && reqs == old(reqs)[h := old(reqs)[h].(stage := Seen)]
      ensures inDisk == old(inDisk) - {old(reqs)[h].b}
    {
      hide Index, Chains, ChainOk, Ring, Apart, BuffersOk;
      RingSize(used, usedIdx, completed, seen, reqs, Used);
      Unread(used, usedIdx, completed, seen, reqs, Used, desc, free, ops, info);
      h := used[seenIdx % NUM];
      ghost var x := completed[seen];
      RingGet(used, usedIdx, completed, seen, reqs, Used, StageOf(reqs, x, Seen));
      RingKeeps(avail, availIdx, submitted, fetched, reqs, Queued, h, StageOf(reqs, h, Seen));
      UsedInfo(desc, free, ops, info, reqs, h);
      assert info[h].status == 0;
      StageChain(desc, free, ops, info, reqs, info, h, reqs[h].(stage := Seen));
      OtherBuffers(desc, free, ops, info, reqs, h);
      SeenBuffer(reqs, inDisk, data.Keys, h);
      var b := info[h].b.value;
      inDisk := inDisk - {b};
      WrapIndex(seen);
      seenIdx := (seenIdx + 1) % WRAP;
      seen := seen + 1;
      reqs := reqs[h := reqs[h].(stage := Seen)];
    }

    /** virtio_disk_intr: exactly the completions on the used ring are seen. */
    method Intr()
      requires Valid()
      modifies this`inDisk, this`seenIdx, this`reqs, this`seen
      ensures Valid() && old(seen) <= seen == |completed| && SeenAlso(old(reqs), completed[old(seen)..], reqs)
    {
      hide Index, Chains, Ring, BuffersOk, SeenAlso;
      RingSize(used, usedIdx, completed, seen, reqs, Used);
      SeenNone(reqs);
      ghost var n := seen;
      assert completed[n..n] == [];
      while seenIdx != usedIdx
        invariant Valid() && n <= seen <= |completed| && SeenAlso(old(reqs), completed[n..seen], reqs)
        decreases |completed| - seen
      {
        ghost var r1 := reqs;
        var h := SeeOne();
        SeenMore(old(reqs), completed[n..seen - 1], r1, h, reqs);
        assert completed[n..seen] == completed[n..seen - 1] + [h];
      }
      Unread(used, usedIdx, completed, seen, reqs, Used, desc, free, ops, info);
      assert completed[n..seen] == completed[n..];
    }

    /** free_chain: it follows the chain and frees exactly its three descriptors, none
        of which is free already. */
    method FreeChain(h: nat, ghost q: Req)
      requires Linked(desc, free, h, q)
      modifies this`free, this`desc
      ensures |desc| == NUM && free == old(free)[h := true][q.d1 := true][q.d2 := true]
      ensures forall i :: 0 <= i < NUM && i != h && i != q.d1 && i != q.d2 ==> desc[i] == old(desc)[i]
    {
      var i := h;
      ghost var k := 0;
      while true
        invariant k <= 2 && |desc| == NUM && |free| == NUM
        invariant i == if k == 0 then h else if k == 1 then q.d1 else q.d2
        invariant free == if k == 0 then old(free) else if k == 1 then old(free)[h := true]
                          else old(free)[h := true][q.d1 := true]
        invariant desc == if k == 0 then old(desc) else if k == 1 then old(desc)[h := NODESC]
                          else old(desc)[h := NODESC][q.d1 := NODESC]
        decreases 3 - k
      {
        var flag, nxt := desc[i].flags, desc[i].next;
        FreeDesc(i);
        if flag % 2 == F_NEXT {
          i := nxt;
        } else {
          break;
        }
        k := k + 1;
      }
    }

    /** virtio_disk_rw once b->disk is 0: the request is over. */
    method Finish(h: nat)
      requires Valid() && h in reqs && reqs[h].b !in inDisk
      modifies this`desc, this`free, this`info, this`reqs
      ensures Valid() && reqs == old(reqs) - {h} && FreeCount(free) == FreeCount(old(free)) + 3
    {
      hide Index, Chains, Ring, Apart, BuffersOk, ChainOk;
      Shape(desc, free, ops, info, reqs);
      Chain(desc, free, ops, info, reqs, h);
      ghost var desc0, free0, info0, q := desc, free, info, reqs[h];
      ChainLinked(desc, free, ops, info, h, q);
      DropBuffer(reqs, inDisk, data.Keys, h);
      RingKeeps(avail, availIdx, submitted, fetched, reqs, Queued, h, reqs - {h});
      RingKeeps(used, usedIdx, completed, seen, reqs, Used, h, reqs - {h});
      info := info[h := info[h].(b := None)];
      FreeChain(h, q);
      DropChain(desc0, free0, ops, info0, reqs, desc, free, info, h);
      CountBoth(desc0, free0, ops, info0, reqs, desc, free, info, h);
      reqs := reqs - {h};
    }
  }

  lemma AllFree()
    ensures FreeCount([true, true, true, true, true, true, true, true]) == NUM
  {
    var f := [true, true, true, true, true, true, true, true];
    AllTrue(f);
  }

  lemma {:induction false} AllTrue(f: seq<bool>)
    requires forall i :: 0 <= i < |f| ==> f[i]
    ensures FreeCount(f) == |f|
  {
    if f != [] {
      AllTrue(f[..|f| - 1]);
    }
  }

  lemma {:induction false} AllFalse(f: seq<bool>)
    requires forall i :: 0 <= i < |f| ==> !f[i]
    ensures FreeCount(f) == 0
  {
    if f != [] {
      AllFalse(f[..|f| - 1]);
    }
  }

  /** Taking all that was free took as many as idx has. */
  lemma {:induction false} TooFew(free: seq<bool>, idx: seq<nat>, free': seq<bool>)
    requires Taken(free, idx, free') && forall j :: 0 <= j < NUM ==> !free'[j]
    ensures FreeCount(free) == |idx|
    decreases |idx|
  {
    if idx == [] {
      AllFalse(free);
    } else {
      var n := |idx| - 1;
      var x, rest := idx[n], idx[..n];
      var f1 := free[x := false];
      assert idx == rest + [x];
      forall j | 0 <= j < |rest|
        ensures f1[rest[j]]
      {
        assert rest[j] == idx[j];
      }
      TooFew(f1, rest, free');
      CountSet(free, x, false);
    }
  }

  lemma Untaken(free: seq<bool>, idx: seq<nat>, j: nat, f0: seq<bool>, free': seq<bool>)
    requires j < |idx| && |free| == NUM && |free'| == NUM && (forall i :: 0 <= i < |idx| ==>
        idx[i] < NUM && free[idx[i]])
    requires forall i, k :: 0 <= i < k < |idx| ==> idx[i] != idx[k]
    requires forall i :: 0 <= i < NUM ==> free'[i] == if i == idx[j] then true else free[i] && i !in idx[j..]
    ensures Taken(free, idx[j + 1..], free')
  {
    assert idx[j..] == [idx[j]] + idx[j + 1..];
    assert idx[j] !in idx[j + 1..];
  }

  ghost function StageOf(reqs: Reqs, h: nat, stage: Stage): Reqs {
    if h in reqs then reqs[h := reqs[h].(stage := stage)] else reqs
  }

  lemma Shape(desc: seq<Desc>, free: seq<bool>, ops: seq<Op>, info: seq<Info>, reqs: Reqs)
    requires Chains(desc, free, ops, info, reqs)
    ensures |desc| == NUM && |free| == NUM && |ops| == NUM && |info| == NUM && 3 * |reqs| <= NUM
  {
  }

  lemma Chain(desc: seq<Desc>, free: seq<bool>, ops: seq<Op>, info: seq<Info>, reqs: Reqs, h: nat)
    requires Chains(desc, free, ops, info, reqs) && h in reqs
    ensures ChainOk(desc, free, ops, info, h, reqs[h])
  {
    assert ReqOk(desc, free, ops, info, reqs, h);
  }

  lemma SameInfo(desc: seq<Desc>, free: seq<bool>, ops: seq<Op>, info: seq<Info>, reqs: Reqs, h: nat)
    requires Chains(desc, free, ops, info, reqs) && h in reqs && reqs[h].stage == Queued
    ensures h < NUM && |info| == NUM && info == info[h := Info(Some(reqs[h].b), 255)]
  {
    assert ReqOk(desc, free, ops, info, reqs, h);
  }

  /** Descriptors that belong to no chain may change. */
  lemma Sparse(desc: seq<Desc>, free: seq<bool>, ops: seq<Op>, info: seq<Info>, reqs: Reqs, desc': seq<Desc>)
    requires Chains(desc, free, ops, info, reqs) && |desc'| == NUM && FreeCount(free) < 3
    requires forall i :: 0 <= i < NUM && !free[i] ==> desc'[i] == desc[i]
    ensures Chains(desc', free, ops, info, reqs) && |reqs| >= 2
  {
    hide ChainOk;
    forall k
      ensures ReqOk(desc', free, ops, info, reqs, k)
    {
      assert ReqOk(desc, free, ops, info, reqs, k);
      if k in reqs {
        ChainBounds(desc, free, ops, info, k, reqs[k]);
        ChainKept(desc, free, ops, info, k, reqs[k], desc', free, ops, info);
      }
    }
  }

  lemma TakenThree(free: seq<bool>, idx: seq<nat>, free': seq<bool>)
    requires Taken(free, idx, free') && |idx| == 3
    ensures idx[0] < NUM && idx[1] < NUM && idx[2] < NUM && idx[0] != idx[1] && idx[0] != idx[2] && idx[1] != idx[2]
    ensures |free| == NUM && |free'| == NUM && free[idx[0]] && free[idx[1]] && free[idx[2]]
    ensures free' == free[idx[0] := false][idx[1] := false][idx[2] := false]
    ensures !free'[idx[0]] && !free'[idx[1]] && !free'[idx[2]]
  {
    assert idx == [idx[0], idx[1], idx[2]];
  }

  lemma RingSize(ring: seq<nat>, idx: nat, hist: seq<nat>, done: nat, reqs: Reqs, stage: Stage)
    requires Ring(ring, idx, hist, done, reqs, stage)
    ensures |ring| == NUM && idx == Index(|hist|) && done <= |hist|
  {
  }

  lemma Unread(ring: seq<nat>, idx: nat, hist: seq<nat>, done: nat, reqs: Reqs, stage: Stage,
               desc: seq<Desc>, free: seq<bool>, ops: seq<Op>, info: seq<Info>)
    requires Ring(ring, idx, hist, done, reqs, stage) && Chains(desc, free, ops, info, reqs)
    ensures Index(done) == idx <==> done == |hist|
  {
    RingRoom(ring, idx, hist, done, reqs, stage);
    WrapDiffers(done, |hist|);
  }

  lemma UsedInfo(desc: seq<Desc>, free: seq<bool>, ops: seq<Op>, info: seq<Info>, reqs: Reqs, h: nat)
    requires Chains(desc, free, ops, info, reqs) && h in reqs && reqs[h].stage == Used
    ensures h < NUM && |info| == NUM && info == info[h := Info(Some(reqs[h].b), 0)]
      && info[h] == Info(Some(reqs[h].b), 0)
  {
    assert ReqOk(desc, free, ops, info, reqs, h);
  }

  lemma OtherBuffers(desc: seq<Desc>, free: seq<bool>, ops: seq<Op>, info: seq<Info>, reqs: Reqs, h: nat)
    requires Chains(desc, free, ops, info, reqs) && h in reqs
    ensures forall k :: k in reqs && k != h ==> reqs[k].b != reqs[h].b
  {
    forall k | k in reqs && k != h
      ensures reqs[k].b != reqs[h].b
    {
      assert PairOk(reqs, k, h);
    }
  }

  lemma CountBoth(desc: seq<Desc>, free: seq<bool>, ops: seq<Op>, info: seq<Info>, reqs: Reqs,
                  desc': seq<Desc>, free': seq<bool>, info': seq<Info>, h: nat)
    requires Chains(desc, free, ops, info, reqs) && Chains(desc', free', ops, info', reqs - {h}) && h in reqs
    ensures FreeCount(free') == FreeCount(free) + 3
  {
    assert (reqs - {h})[h := reqs[h]] == reqs;
    assert |reqs - {h}| == |reqs| - 1;
  }

  /** In every valid state: the free descriptors and three for each request in flight
      are all there are, so at most two requests are; no two share a descriptor; and
      neither ring holds more unread entries than there are requests. */
  lemma Conservation(desc: seq<Desc>, free: seq<bool>, ops: seq<Op>, info: seq<Info>, reqs: Reqs,
                     ring: seq<nat>, idx: nat, hist: seq<nat>, done: nat, stage: Stage, h: nat, k: nat)
    requires Chains(desc, free, ops, info, reqs) && Ring(ring, idx, hist, done, reqs, stage)
    ensures FreeCount(free) + 3 * |reqs| == NUM && |reqs| <= 2 && |hist| - done <= 2
    ensures h in reqs && k in reqs && h != k ==> {h, reqs[h].d1, reqs[h].d2} !! {k, reqs[k].d1, reqs[k].d2}
  {
    RingRoom(ring, idx, hist, done, reqs, stage);
    assert PairOk(reqs, h, k);
  }

  lemma ChainLinked(desc: seq<Desc>, free: seq<bool>, ops: seq<Op>, info: seq<Info>, h: nat, q: Req)
    requires ChainOk(desc, free, ops, info, h, q)
    ensures Linked(desc, free, h, q) && h < NUM && |info| == NUM
  {
  }

  /** What the device finds along the chain of a request. */
  lemma Followed(desc: seq<Desc>, free: seq<bool>, ops: seq<Op>, info: seq<Info>, h: nat, q: Req)
    requires ChainOk(desc, free, ops, info, h, q)
    ensures h < NUM == |desc| && |ops| == NUM && |info| == NUM && info[h].b == Some(q.b)
    ensures desc[h].addr == OpOf(h) && ops[h].sector == q.block * 2 && desc[h].next == q.d1 < NUM
    ensures desc[q.d1].addr == DataOf(q.b) && (desc[q.d1].flags / F_WRITE % 2 == 0 <==> q.write)
    ensures desc[q.d1].next == q.d2 < NUM && desc[q.d2].addr == StatusOf(h)
  {
  }

  lemma AddBuffer(reqs: Reqs, inDisk: set<nat>, bufs: set<nat>, h: nat, q: Req)
    requires BuffersOk(reqs, inDisk, bufs) && q.b in bufs && q.stage == Queued && forall k :: k in reqs ==>
      reqs[k].b != q.b
    ensures BuffersOk(reqs[h := q], inDisk + {q.b}, bufs)
  {
  }

  lemma StageBuffers(reqs: Reqs, inDisk: set<nat>, bufs: set<nat>, h: nat, stage: Stage)
    requires BuffersOk(reqs, inDisk, bufs) && h in reqs && !reqs[h].stage.Seen? && !stage.Seen?
    ensures BuffersOk(reqs[h := reqs[h].(stage := stage)], inDisk, bufs) && reqs[h].b in bufs
  {
  }

  lemma SeenBuffer(reqs: Reqs, inDisk: set<nat>, bufs: set<nat>, h: nat)
    requires BuffersOk(reqs, inDisk, bufs) && h in reqs && forall k :: k in reqs && k != h ==> reqs[k].b != reqs[h].b
    ensures BuffersOk(reqs[h := reqs[h].(stage := Seen)], inDisk - {reqs[h].b}, bufs)
  {
  }

  lemma DropBuffer(reqs: Reqs, inDisk: set<nat>, bufs: set<nat>, h: nat)
    requires BuffersOk(reqs, inDisk, bufs) && h in reqs && reqs[h].b !in inDisk
    ensures BuffersOk(reqs - {h}, inDisk, bufs) && reqs[h].stage.Seen?
  {
  }

  lemma SeenNone(reqs: Reqs)
    ensures SeenAlso(reqs, [], reqs)
  {
  }

  lemma SeenMore(reqs: Reqs, heads: seq<nat>, r1: Reqs, h: nat, reqs': Reqs)
    requires SeenAlso(reqs, heads, r1) && h in r1 && reqs' == r1[h := r1[h].(stage := Seen)]
    ensures SeenAlso(reqs, heads + [h], reqs')
  {
    assert reqs'.Keys == r1.Keys;
  }
}
