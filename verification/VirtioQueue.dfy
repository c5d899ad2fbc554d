/** The descriptors and rings that the driver of kernel/virtio_disk.c shares with the
    device (sections 2.6 and 5.2 of virtio 1.1). */
module VirtioQueue {
  const NUM: nat := 8
  const WRAP: nat := 0x1_0000   // ring indices are 16 bits wide

  const F_NEXT: nat := 1
  const F_WRITE: nat := 2
  const T_IN: nat := 0
  const T_OUT: nat := 1

  /** What a descriptor points to: the header of request i, the data of a buffer, or
      the status byte of request i. */
  datatype Addr = Null | OpOf(i: nat) | DataOf(b: nat) | StatusOf(i: nat)

  datatype Desc = Desc(addr: Addr, len: nat, flags: nat, next: nat)

  datatype Op = Op(kind: nat, sector: nat)

  datatype Info = Info(b: Option, status: nat)

  datatype Option = None | Some(value: nat)

  /** On the available ring; fetched by the device; on the used ring; seen by the
      interrupt handler. */
  datatype Stage = Queued | Fetched | Used | Seen

  /** A request in flight, under the number of its first descriptor. */
  datatype Req = Req(d1: nat, d2: nat, b: nat, write: bool, block: nat, stage: Stage)

  type Reqs = map<nat, Req>

  const NODESC: Desc := Desc(Null, 0, 0, 0)

  // ---- free descriptors ----

  ghost function FreeCount(free: seq<bool>): nat {
    if free == [] then 0 else FreeCount(free[..|free| - 1]) + if free[|free| - 1] then 1 else 0
  }

  lemma {:induction false} CountSet(free: seq<bool>, i: nat, v: bool)
    requires i < |free|
    ensures FreeCount(free[i := v]) == FreeCount(free) - (if free[i] then 1 else 0) + (if v then 1 else 0)
  {
    var n := |free| - 1;
    if i == n {
      assert free[i := v][..n] == free[..n];
    } else {
      assert free[i := v][..n] == free[..n][i := v];
      CountSet(free[..n], i, v);
    }
  }

  // ---- chains ----

  /** The three descriptors of request h say what was asked for. */
  ghost predicate ChainOk(desc: seq<Desc>, free: seq<bool>, ops: seq<Op>, info: seq<Info>, h: nat, q: Req) {
    && |desc| == NUM && |free| == NUM && |ops| == NUM && |info| == NUM
    && h < NUM && q.d1 < NUM && q.d2 < NUM && h != q.d1 && h != q.d2 && q.d1 != q.d2
    && !free[h] && !free[q.d1] && !free[q.d2]
    && desc[h] == Desc(OpOf(h), 16, F_NEXT, q.d1)
    && desc[q.d1] == Desc(DataOf(q.b), 1024, if q.write then F_NEXT else F_NEXT + F_WRITE, q.d2)
    && desc[q.d2] == Desc(StatusOf(h), 1, F_WRITE, 0)
    && ops[h] == Op(if q.write then T_OUT else T_IN, q.block * 2)
    && info[h] == Info(Some(q.b), if q.stage.Used? || q.stage.Seen? then 0 else 255)
  }

  /** Two requests share neither descriptors nor buffers. */
  ghost predicate Apart(h: nat, q: Req, k: nat, r: Req) {
    && h != k && h != r.d1 && h != r.d2 && q.d1 != k && q.d1 != r.d1 && q.d1 != r.d2
    && q.d2 != k && q.d2 != r.d1 && q.d2 != r.d2 && q.b != r.b
  }

  ghost predicate ReqOk(desc: seq<Desc>, free: seq<bool>, ops: seq<Op>, info: seq<Info>, reqs: Reqs, h: nat) {
    h in reqs ==> ChainOk(desc, free, ops, info, h, reqs[h])
  }

  ghost predicate PairOk(reqs: Reqs, h: nat, k: nat) {
    h in reqs && k in reqs && h != k ==> Apart(h, reqs[h], k, reqs[k])
  }

  /** Every request has its chain, the chains are disjoint, and the free descriptors
      are all the others. */
  ghost predicate Chains(desc: seq<Desc>, free: seq<bool>, ops: seq<Op>, info: seq<Info>, reqs: Reqs) {
    && |desc| == NUM && |free| == NUM && |ops| == NUM && |info| == NUM
    && (forall h :: ReqOk(desc, free, ops, info, reqs, h))
    && (forall h, k :: PairOk(reqs, h, k))
    && FreeCount(free) + 3 * |reqs| == NUM
  }

  /** A chain whose descriptors, header and status are untouched. */
  lemma ChainKept(desc: seq<Desc>, free: seq<bool>, ops: seq<Op>, info: seq<Info>, h: nat, q: Req,
                  desc': seq<Desc>, free': seq<bool>, ops': seq<Op>, info': seq<Info>)
    requires ChainOk(desc, free, ops, info, h, q) && |desc'| == NUM && |free'| == NUM && |ops'| == NUM && |info'| == NUM
    requires desc'[h] == desc[h] && desc'[q.d1] == desc[q.d1] && desc'[q.d2] == desc[q.d2]
    requires !free'[h] && !free'[q.d1] && !free'[q.d2] && ops'[h] == ops[h] && info'[h] == info[h]
    ensures ChainOk(desc', free', ops', info', h, q)
  {
  }

  lemma ChainBounds(desc: seq<Desc>, free: seq<bool>, ops: seq<Op>, info: seq<Info>, h: nat, q: Req)
    requires ChainOk(desc, free, ops, info, h, q)
    ensures |free| == NUM && h < NUM && q.d1 < NUM && q.d2 < NUM && h != q.d1 && h != q.d2 && q.d1 != q.d2
    ensures !free[h] && !free[q.d1] && !free[q.d2]
  {
  }

  // ---- rings ----

  /** Entry k of those ever put on the ring is still to be read, and is there. */
  ghost predicate EntryOk(ring: seq<nat>, hist: seq<nat>, reqs: Reqs, stage: Stage, k: nat) {
    && |ring| == NUM && k < |hist|
    && ring[k % NUM] == hist[k] && hist[k] in reqs && reqs[hist[k]].stage == stage
  }

  /** What a 16-bit counter shows after n steps. */
  function Index(n: nat): (i: nat) {
    n % WRAP
  }

  /** hist holds all heads ever put on the ring, of which done have been read. */
  ghost predicate Ring(ring: seq<nat>, idx: nat, hist: seq<nat>, done: nat, reqs: Reqs, stage: Stage) {
    && |ring| == NUM && idx == Index(|hist|) && done <= |hist|
    && (forall k: nat :: done <= k < |hist| ==> EntryOk(ring, hist, reqs, stage, k))
    && (forall k, l :: done <= k < l < |hist| ==> hist[k] != hist[l])
  }

  lemma {:induction false} DistinctIn(xs: seq<nat>, keys: set<nat>)
    requires forall x :: x in xs ==> x in keys
    requires forall i, j :: 0 <= i < j < |xs| ==> xs[i] != xs[j]
    ensures |xs| <= |keys|
  {
    if xs != [] {
      var last, rest := xs[|xs| - 1], xs[..|xs| - 1];
      assert last in xs;
      forall x | x in rest
        ensures x in keys - {last}
      {
      }
      DistinctIn(rest, keys - {last});
    }
  }

  /** With at most two requests in flight, at most two entries are unread. */
  lemma RingRoom(ring: seq<nat>, idx: nat, hist: seq<nat>, done: nat, reqs: Reqs, stage: Stage)
    requires Ring(ring, idx, hist, done, reqs, stage)
    ensures |hist| - done <= |reqs|
  {
    var xs := hist[done..];
    forall x | x in xs
      ensures x in reqs.Keys
    {
      var i :| 0 <= i < |xs| && xs[i] == x;
      assert EntryOk(ring, hist, reqs, stage, done + i);
    }
    DistinctIn(xs, reqs.Keys);
  }

  /** Adding an entry overwrites none that is unread, and the 16-bit index goes on. */
  lemma RingPut(ring: seq<nat>, idx: nat, hist: seq<nat>, done: nat, reqs: Reqs, stage: Stage, h: nat, reqs': Reqs)
    requires Ring(ring, idx, hist, done, reqs, stage) && |hist| - done < NUM
    requires h in reqs' && reqs'[h].stage == stage && (h in reqs ==> reqs[h].stage != stage)
    requires forall x :: x in reqs && x != h ==> x in reqs' && reqs'[x] == reqs[x]
    ensures Ring(ring[idx % NUM := h], (idx + 1) % WRAP, hist + [h], done, reqs', stage)
  {
    var ring', hist' := ring[idx % NUM := h], hist + [h];
    WrapIndex(|hist|);
    forall k: nat | done <= k < |hist'|
      ensures EntryOk(ring', hist', reqs', stage, k)
    {
      if k < |hist| {
        assert EntryOk(ring, hist, reqs, stage, k);
        Places(k, |hist|);
      }
    }
    forall k, l | done <= k < l < |hist'|
      ensures hist'[k] != hist'[l]
    {
      assert EntryOk(ring, hist, reqs, stage, k);
    }
  }

  /** The next unread entry is what was put there, and it moves on to another stage. */
  lemma RingGet(ring: seq<nat>, idx: nat, hist: seq<nat>, done: nat, reqs: Reqs, stage: Stage, reqs': Reqs)
    requires Ring(ring, idx, hist, done, reqs, stage) && done < |hist|
    requires forall x :: x in reqs && x != hist[done] ==> x in reqs' && reqs'[x] == reqs[x]
    ensures ring[Index(done) % NUM] == hist[done] && hist[done] in reqs && reqs[hist[done]].stage == stage
    ensures Ring(ring, idx, hist, done + 1, reqs', stage)
  {
    WrapIndex(done);
    assert EntryOk(ring, hist, reqs, stage, done);
    forall k: nat | done + 1 <= k < |hist|
      ensures EntryOk(ring, hist, reqs', stage, k)
    {
      assert EntryOk(ring, hist, reqs, stage, k);
    }
  }

  /** A request that is not unread on this ring may change or go. */
  lemma RingKeeps(ring: seq<nat>, idx: nat, hist: seq<nat>, done: nat, reqs: Reqs, stage: Stage, h: nat, reqs': Reqs)
    requires Ring(ring, idx, hist, done, reqs, stage) && (h in reqs ==> reqs[h].stage != stage)
    requires forall x :: x in reqs && x != h ==> x in reqs' && reqs'[x] == reqs[x]
    ensures Ring(ring, idx, hist, done, reqs', stage)
  {
    forall k: nat | done <= k < |hist|
      ensures EntryOk(ring, hist, reqs', stage, k)
    {
      assert EntryOk(ring, hist, reqs, stage, k);
    }
  }

  lemma WrapIndex(n: nat)
    ensures Index(n) % NUM == n % NUM && (Index(n) + 1) % WRAP == Index(n + 1)
  {
    SameSlot(n / WRAP, n % WRAP);
    NextIndex(n / WRAP, n % WRAP);
  }

  lemma SameSlot(q: nat, r: nat)
    ensures (q * WRAP + r) % NUM == r % NUM
  {
    Remainder(q * 0x2000 + r / NUM, r % NUM);
  }

  lemma Remainder(k: nat, c: nat)
    requires c < NUM
    ensures (k * NUM + c) % NUM == c
  {
  }

  lemma NextIndex(q: nat, r: nat)
    requires r < WRAP
    ensures (q * WRAP + r + 1) % WRAP == (r + 1) % WRAP
  {
    if r + 1 == WRAP {
      assert q * WRAP + r + 1 == (q + 1) * WRAP;
    }
  }

  lemma Places(a: nat, b: nat)
    requires a < b < a + NUM
    ensures a % NUM != b % NUM
  {
  }

  /** The wrapped indices differ exactly while something is unread. */
  lemma WrapDiffers(a: nat, b: nat)
    requires a <= b <= a + NUM
    ensures Index(a) == Index(b) <==> a == b
  {
  }
}
