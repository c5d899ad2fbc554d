/** malloc and free of user/umalloc.c. */
module Umalloc {
  import opened FreeList

  /** The list is circular, in address order and without adjacent blocks; its blocks
      and the live ones are disjoint and make up exactly the units from sbrk. */
  ghost predicate HeapOk(base: nat, hdr: Headers, fl: seq<nat>, live: set<nat>, blocks: map<nat, nat>,
                         arena: set<nat>) {
    && |fl| > 0 && fl[0] == base && base in hdr && hdr[base].size == 0
    && Chain(hdr, fl) && Spaced(hdr, fl) && Tiled(blocks, arena)
    && (forall a :: a in blocks ==> a in hdr && hdr[a].size == blocks[a] && base < a)
    && (forall a :: a in fl ==> a == base || (a in blocks && a !in live))
    && (forall a :: a in live ==> a in blocks)
    && (forall a :: a in blocks ==> a in live || a in fl)
  }

  /** Each unit from sbrk is in exactly one block, which is live or on the free list;
      so live blocks are disjoint, and free and live units together are those. */
  lemma EveryUnitOnce(base: nat, hdr: Headers, fl: seq<nat>, live: set<nat>, blocks: map<nat, nat>, arena: set<nat>,
                      x: nat)
    requires HeapOk(base, hdr, fl, live, blocks, arena)
    ensures x in arena <==> exists a :: Covers(blocks, a, x) && (a in live || (a in fl && a != base))
    ensures forall a, b :: Covers(blocks, a, x) && Covers(blocks, b, x) ==> a == b
    ensures live !! set a | a in fl
  {
    forall a: nat, b: nat | Covers(blocks, a, x) && Covers(blocks, b, x)
      ensures a == b
    {
      assert Apart(blocks, a, b);
    }
    if x in arena {
      var a: nat :| Covers(blocks, a, x);
      assert a in live || a in fl;
    }
  }

  /** What lies between a list element, a live block behind it and the next element. */
  lemma Between(base: nat, hdr: Headers, fl: seq<nat>, live: set<nat>, blocks: map<nat, nat>, arena: set<nat>, i: nat,
                b: nat)
    requires HeapOk(base, hdr, fl, live, blocks, arena) && b in live && Fits(fl, i, b)
    ensures b in hdr && hdr[b].size > 0 && b !in fl && fl[i] in hdr && Next(fl, i) in hdr && b != base
    ensures fl[i] + hdr[fl[i]].size <= b && hdr[fl[i]].ptr == Next(fl, i)
    ensures i + 1 < |fl| ==> b + hdr[b].size <= fl[i + 1] && fl[i + 1] in blocks
    ensures i + 1 == |fl| ==> Next(fl, i) == base < b
    ensures fl[i] != base ==> fl[i] in blocks
    ensures fl[i] == base ==> i == 0
  {
    assert LinkAt(hdr, fl, i) && fl[i] in fl && fl[0] in fl;
    assert Apart(blocks, fl[i], b);
    if i + 1 < |fl| {
      assert LinkAt(hdr, fl, i + 1) && fl[i + 1] in fl;
      assert Apart(blocks, b, fl[i + 1]);
    }
  }

  /** Joining a list element to a block concerns no other live block. */
  lemma JoinedLive(base: nat, hdr: Headers, fl: seq<nat>, live: set<nat>, blocks: map<nat, nat>, arena: set<nat>,
                   b: nat, j: nat)
    requires HeapOk(base, hdr, fl, live, blocks, arena) && b in blocks && j < |fl| && fl[j] in blocks
    ensures forall a :: a in live && a != b ==>
        a in Joined(blocks, b, fl[j]) && Joined(blocks, b, fl[j])[a] == blocks[a]
  {
    hide Chain, Spaced, Tiled;
    assert fl[j] in fl;
  }

  lemma AbsorbedLive(base: nat, hdr: Headers, fl: seq<nat>, live: set<nat>, blocks: map<nat, nat>, arena: set<nat>,
                     p: nat, b: nat)
    requires HeapOk(base, hdr, fl, live, blocks, arena) && b in blocks && p in blocks && p in fl && p != base
    ensures forall a :: a in live && a != b ==> a in Joined(blocks, p, b) && Joined(blocks, p, b)[a] == blocks[a]
  {
    hide Chain, Spaced, Tiled;
  }

  /** The block after b on the list is joined to b. */
  lemma ExtendKeeps(base: nat, hdr: Headers, fl: seq<nat>, live: set<nat>, blocks: map<nat, nat>, arena: set<nat>,
                    i: nat, b: nat, hdr': Headers)
    requires HeapOk(base, hdr, fl, live, blocks, arena) && b in live && Fits(fl, i, b) && i + 1 < |fl|
    requires b in hdr && fl[i] in hdr && fl[i + 1] in hdr && b + hdr[b].size == fl[i + 1]
    requires hdr' == hdr[b := Header(hdr[fl[i + 1]].ptr, hdr[b].size + hdr[fl[i + 1]].size)]
                        [fl[i] := hdr[fl[i]].(ptr := hdr[fl[i + 1]].ptr)]
    ensures b in blocks && fl[i + 1] in blocks
    ensures HeapOk(base, hdr', Remove(fl, i), live, Joined(blocks, b, fl[i + 1]), arena)
    ensures Fits(Remove(fl, i), i, b) && Remove(fl, i)[i] == fl[i] && hdr'[b].ptr == Next(Remove(fl, i), i)
    ensures i + 1 < |Remove(fl, i)| ==> b + hdr'[b].size < Remove(fl, i)[i + 1]
  {
    Between(base, hdr, fl, live, blocks, arena, i, b);
    var nx, r := fl[i + 1], Remove(fl, i);
    ExtendList(hdr, fl, i, b, hdr');
    hide Chain, Spaced, Tiled, Remove;
    JoinTiled(blocks, arena, b, nx);
    RemoveMembers(fl, i);
    ExtendBlocks(base, hdr, fl, live, blocks, arena, i, b, hdr', r);
  }

  /** The list side of it. */
  lemma ExtendList(hdr: Headers, fl: seq<nat>, i: nat, b: nat, hdr': Headers)
    requires Chain(hdr, fl) && Spaced(hdr, fl) && i + 1 < |fl| && fl[i] in hdr && fl[i + 1] in hdr && b in hdr
      && b !in fl
    requires Fits(fl, i, b) && b + hdr[b].size == fl[i + 1]
    requires hdr' == hdr[b := Header(hdr[fl[i + 1]].ptr, hdr[b].size + hdr[fl[i + 1]].size)]
                        [fl[i] := hdr[fl[i]].(ptr := hdr[fl[i + 1]].ptr)]
    ensures var r := Remove(fl, i);
            && |r| > 0 && r[0] == fl[0] && Chain(hdr', r) && Spaced(hdr', r)
            && Fits(r, i, b) && r[i] == fl[i] && hdr'[b].ptr == Next(r, i)
            && (i + 1 < |r| ==> b + hdr'[b].size < r[i + 1])
  {
    var r := Remove(fl, i);
    assert LinkAt(hdr, fl, i + 1);
    InList(hdr, fl);
    ChainRemove(hdr, fl, i, hdr');
    forall j: nat | j < |r|
      ensures GapAt(hdr', r, j)
    {
      ExtendGap(hdr, fl, i, b, hdr', j);
    }
    assert GapAt(hdr, fl, i + 1);
  }

  lemma ExtendGap(hdr: Headers, fl: seq<nat>, i: nat, b: nat, hdr': Headers, j: nat)
    requires Chain(hdr, fl) && Spaced(hdr, fl) && i + 1 < |fl| && fl[i] in hdr && fl[i + 1] in hdr && b in hdr
      && b !in fl
    requires hdr' == hdr[b := Header(hdr[fl[i + 1]].ptr, hdr[b].size + hdr[fl[i + 1]].size)]
                        [fl[i] := hdr[fl[i]].(ptr := hdr[fl[i + 1]].ptr)]
    ensures GapAt(hdr', Remove(fl, i), j)
  {
    assert GapAt(hdr, fl, j) && GapAt(hdr, fl, j + 1);
    if j + 1 < |fl| {
      assert LinkAt(hdr, fl, j) && LinkAt(hdr, fl, j + 1) && fl[j] in fl && fl[j + 1] in fl;
    }
  }

  lemma ExtendBlocks(base: nat, hdr: Headers, fl: seq<nat>, live: set<nat>, blocks: map<nat, nat>, arena: set<nat>,
                     i: nat, b: nat, hdr': Headers, r: seq<nat>)
    requires HeapOk(base, hdr, fl, live, blocks, arena) && b in live && i + 1 < |fl| && fl[i + 1] in blocks
      && b in blocks
    requires b in hdr && fl[i] in hdr && fl[i + 1] in hdr && fl[i + 1] != base && b !in fl
    requires hdr' == hdr[b := Header(hdr[fl[i + 1]].ptr, hdr[b].size + hdr[fl[i + 1]].size)]
                        [fl[i] := hdr[fl[i]].(ptr := hdr[fl[i + 1]].ptr)]
    requires forall a :: a in r <==> a in fl && a != fl[i + 1]
    ensures var blocks' := Joined(blocks, b, fl[i + 1]);
            && (forall a :: a in blocks' ==>
                a in hdr' && hdr'[a].size == blocks'[a] && base < a && (a in live || a in r))
            && (forall a :: a in r ==> a == base || (a in blocks' && a !in live))
            && (forall a :: a in live ==> a in blocks')
            && base in hdr' && hdr'[base].size == 0
  {
    hide Chain, Spaced, Tiled;
    assert fl[i + 1] in fl && fl[i] in fl && fl[0] in fl;
  }

  lemma InList(hdr: Headers, fl: seq<nat>)
    requires Chain(hdr, fl)
    ensures forall a :: a in fl ==> a in hdr
  {
    forall a | a in fl
      ensures a in hdr
    {
      var j :| 0 <= j < |fl| && fl[j] == a;
      assert LinkAt(hdr, fl, j);
    }
  }

  lemma RemoveMembers(fl: seq<nat>, i: nat)
    requires i + 1 < |fl| && forall j, k :: 0 <= j < k < |fl| ==> fl[j] < fl[k]
    ensures forall a :: a in Remove(fl, i) <==> a in fl && a != fl[i + 1]
  {
    assert fl == fl[..i + 1] + [fl[i + 1]] + fl[i + 2..];
  }

  lemma InsertMembers(fl: seq<nat>, i: nat, b: nat)
    requires i < |fl|
    ensures forall a :: a in Insert(fl, i, b) <==> a in fl || a == b
  {
    assert fl == fl[..i + 1] + fl[i + 1..];
  }

  /** b is joined to the list element before it. */
  lemma AbsorbKeeps(base: nat, hdr: Headers, fl: seq<nat>, live: set<nat>, blocks: map<nat, nat>, arena: set<nat>,
                    i: nat, b: nat, hdr': Headers)
    requires HeapOk(base, hdr, fl, live, blocks, arena) && b in live && Fits(fl, i, b) && b in hdr && fl[i] in hdr
    requires fl[i] + hdr[fl[i]].size == b && (i + 1 < |fl| ==> b + hdr[b].size < fl[i + 1])
    requires hdr' == hdr[fl[i] := Header(hdr[fl[i]].ptr, hdr[fl[i]].size + hdr[b].size)]
    ensures fl[i] in blocks && b in blocks
    ensures HeapOk(base, hdr', fl, live - {b}, Joined(blocks, fl[i], b), arena)
  {
    Between(base, hdr, fl, live, blocks, arena, i, b);
    JoinTiled(blocks, arena, fl[i], b);
    InList(hdr, fl);
    ChainKeeps(hdr, fl, hdr');
    assert fl[i] in fl;
    forall j: nat | j < |fl|
      ensures GapAt(hdr', fl, j)
    {
      assert GapAt(hdr, fl, j) && LinkAt(hdr, fl, j);
    }
    var blocks' := Joined(blocks, fl[i], b);
    forall a | a in blocks'
      ensures a in hdr' && hdr'[a].size == blocks'[a] && base < a && (a in live - {b} || a in fl)
    {
      assert a in blocks;
    }
  }

  /** b goes on the list by itself. */
  lemma ReturnKeeps(base: nat, hdr: Headers, fl: seq<nat>, live: set<nat>, blocks: map<nat, nat>, arena: set<nat>,
                    i: nat, b: nat, hdr': Headers)
    requires HeapOk(base, hdr, fl, live, blocks, arena) && b in live && Fits(fl, i, b) && b in hdr && fl[i] in hdr
    requires fl[i] + hdr[fl[i]].size != b && (i + 1 < |fl| ==> b + hdr[b].size < fl[i + 1]) && hdr[b].ptr == Next(fl, i)
    requires hdr' == hdr[fl[i] := hdr[fl[i]].(ptr := b)]
    ensures HeapOk(base, hdr', Insert(fl, i, b), live - {b}, blocks, arena)
  {
    Between(base, hdr, fl, live, blocks, arena, i, b);
    InList(hdr, fl);
    ChainInsert(hdr, fl, i, b, hdr');
    InsertMembers(fl, i, b);
    var r := Insert(fl, i, b);
    forall j: nat | j < |r|
      ensures GapAt(hdr', r, j)
    {
      ReturnGap(hdr, fl, i, b, hdr', j);
    }
  }

  lemma ReturnGap(hdr: Headers, fl: seq<nat>, i: nat, b: nat, hdr': Headers, j: nat)
    requires Chain(hdr, fl) && Spaced(hdr, fl) && Fits(fl, i, b) && b in hdr && fl[i] in hdr && j <= |fl|
    requires fl[i] + hdr[fl[i]].size < b && (i + 1 < |fl| ==> b + hdr[b].size < fl[i + 1])
    requires hdr' == hdr[fl[i] := hdr[fl[i]].(ptr := b)]
    ensures GapAt(hdr', Insert(fl, i, b), j)
  {
    if j < i {
      assert GapAt(hdr, fl, j);
    } else if j > i + 1 {
      assert GapAt(hdr, fl, j - 1) && LinkAt(hdr, fl, j - 1);
    }
  }

  // ---- malloc's side ----

  /** The whole i+1-st element of the list becomes a live block. */
  lemma TakeKeeps(base: nat, hdr: Headers, fl: seq<nat>, live: set<nat>, blocks: map<nat, nat>, arena: set<nat>,
                  i: nat, hdr': Headers)
    requires HeapOk(base, hdr, fl, live, blocks, arena) && i + 1 < |fl| && fl[i] in hdr && fl[i + 1] in hdr
    requires hdr' == hdr[fl[i] := hdr[fl[i]].(ptr := hdr[fl[i + 1]].ptr)]
    ensures HeapOk(base, hdr', Remove(fl, i), live + {fl[i + 1]}, blocks, arena) && fl[i + 1] !in live
    ensures Remove(fl, i)[i] == fl[i]
  {
    var r := Remove(fl, i);
    InList(hdr, fl);
    assert LinkAt(hdr, fl, i + 1) && fl[i + 1] in fl && fl[i] in fl && fl[0] in fl;
    assert fl[0] != fl[i + 1];
    ChainRemove(hdr, fl, i, hdr');
    RemoveMembers(fl, i);
    forall j: nat | j < |r|
      ensures GapAt(hdr', r, j)
    {
      TakeGap(hdr, fl, i, hdr', j);
    }
    assert r[0] == base;
    hide Chain, Spaced, Tiled, Remove;
    TakeBlocks(base, hdr, fl, live, blocks, arena, i, hdr', r);
  }

  lemma TakeBlocks(base: nat, hdr: Headers, fl: seq<nat>, live: set<nat>, blocks: map<nat, nat>, arena: set<nat>,
                   i: nat, hdr': Headers, r: seq<nat>)
    requires HeapOk(base, hdr, fl, live, blocks, arena) && i + 1 < |fl| && fl[i] in hdr && fl[i + 1] in hdr
      && fl[i + 1] != base
    requires hdr' == hdr[fl[i] := hdr[fl[i]].(ptr := hdr[fl[i + 1]].ptr)]
    requires forall a :: a in r <==> a in fl && a != fl[i + 1]
    ensures var live' := live + {fl[i + 1]};
            && (forall a :: a in blocks ==>
                a in hdr' && hdr'[a].size == blocks[a] && base < a && (a in live' || a in r))
            && (forall a :: a in r ==> a == base || (a in blocks && a !in live'))
            && (forall a :: a in live' ==> a in blocks)
            && base in hdr' && hdr'[base].size == 0 && fl[i + 1] !in live
  {
    hide Chain, Spaced, Tiled;
    assert fl[i + 1] in fl && fl[i] in fl;
  }

  lemma TakeGap(hdr: Headers, fl: seq<nat>, i: nat, hdr': Headers, j: nat)
    requires Chain(hdr, fl) && Spaced(hdr, fl) && i + 1 < |fl| && fl[i] in hdr && fl[i + 1] in hdr
    requires hdr' == hdr[fl[i] := hdr[fl[i]].(ptr := hdr[fl[i + 1]].ptr)]
    ensures GapAt(hdr', Remove(fl, i), j)
  {
    assert GapAt(hdr, fl, j) && GapAt(hdr, fl, j + 1);
    if j + 1 < |fl| {
      assert LinkAt(hdr, fl, j) && LinkAt(hdr, fl, j + 1);
    }
  }

  /** The last n units of a list element become a live block. */
  lemma SplitKeeps(base: nat, hdr: Headers, fl: seq<nat>, live: set<nat>, blocks: map<nat, nat>, arena: set<nat>,
                   i: nat, n: nat, hdr': Headers)
    requires HeapOk(base, hdr, fl, live, blocks, arena) && i < |fl| && fl[i] in hdr && 0 < n < hdr[fl[i]].size
    requires hdr' == hdr[fl[i] := hdr[fl[i]].(size := hdr[fl[i]].size - n)]
                        [fl[i] + (hdr[fl[i]].size - n) := Header(0, n)]
    ensures fl[i] in blocks && blocks[fl[i]] == hdr[fl[i]].size && fl[i] + (hdr[fl[i]].size - n) !in live
    ensures HeapOk(base, hdr', fl, live + {fl[i] + (hdr[fl[i]].size - n)}, Split(blocks, fl[i], n), arena)
  {
    var p := fl[i];
    assert p in fl && fl[0] in fl;
    var t := p + (hdr[p].size - n);
    SplitTiled(blocks, arena, p, n);
    InList(hdr, fl);
    ChainKeeps(hdr, fl, hdr');
    forall j: nat | j < |fl|
      ensures GapAt(hdr', fl, j)
    {
      assert GapAt(hdr, fl, j) && LinkAt(hdr, fl, j) && fl[j] in fl;
    }
    var blocks' := Split(blocks, p, n);
    forall a | a in blocks'
      ensures a in hdr' && hdr'[a].size == blocks'[a] && base < a && (a in live + {t} || a in fl)
    {
      assert a == t || a in blocks;
    }
  }

  /** Units fresh from sbrk, as a live block. */
  lemma GrantKeeps(base: nat, hdr: Headers, fl: seq<nat>, live: set<nat>, blocks: map<nat, nat>, arena: set<nat>,
                   a: nat, n: nat)
    requires HeapOk(base, hdr, fl, live, blocks, arena) && n > 0 && base < a && forall x :: x in arena ==> x < a
    ensures a !in blocks && a !in live
    ensures HeapOk(base, hdr[a := Header(0, n)], fl, live + {a}, blocks[a := n], arena + Span(a, n))
  {
    var hdr' := hdr[a := Header(0, n)];
    AddTiled(blocks, arena, a, n);
    InList(hdr, fl);
    ChainKeeps(hdr, fl, hdr');
    forall j: nat | j < |fl|
      ensures GapAt(hdr', fl, j)
    {
      assert GapAt(hdr, fl, j) && fl[j] in fl;
    }
  }

  /** The place of b in the address order. */
  lemma Place(fl: seq<nat>, b: nat) returns (t: nat)
    requires |fl| > 0 && fl[0] < b && b !in fl && forall i, j :: 0 <= i < j < |fl| ==> fl[i] < fl[j]
    ensures Fits(fl, t, b)
  {
    t := 0;
    while t + 1 < |fl| && fl[t + 1] < b
      invariant t < |fl| && fl[t] < b
    {
      t := t + 1;
    }
    assert t + 1 < |fl| ==> fl[t + 1] in fl;
  }

  /** Steps from i to t round a circle of n. */
  function Steps(i: nat, t: nat, n: nat): (d: nat)
    requires i < n && t < n
  {
    if i <= t then t - i else n - i + t
  }

  function After(i: nat, n: nat): (j: nat)
    requires i < n
    ensures j < n
  {
    if i + 1 < n then i + 1 else 0
  }

  /** m lies on the way from j to s round the circle. */
  ghost predicate Ahead(m: nat, j: nat, s: nat) {
    if j <= s then j <= m <= s else m >= j || m <= s
  }

  ghost predicate Small(hdr: Headers, fl: seq<nat>, m: nat, n: nat) {
    m < |fl| && fl[m] in hdr && hdr[fl[m]].size < n
  }

  /** Every element that is not ahead is too small. */
  ghost predicate Searched(hdr: Headers, fl: seq<nat>, j: nat, s: nat, n: nat) {
    forall m: nat :: m < |fl| && !Ahead(m, j, s) ==> Small(hdr, fl, m, n)
  }

  ghost predicate Serves(hdr: Headers, fl: seq<nat>, n: nat) {
    exists m: nat :: m < |fl| && fl[m] in hdr && hdr[fl[m]].size >= n
  }

  class Umalloc {
    const base: nat            // the static header, below the heap
    var freep: nat             // 0 until the first malloc
    var hdr: Headers
    ghost var fl: seq<nat>
    ghost var live: set<nat>
    ghost var blocks: map<nat, nat>
    ghost var arena: set<nat>

    ghost predicate Ready()
      reads this
    {
      base > 0 && HeapOk(base, hdr, fl, live, blocks, arena) && freep in fl
    }

    ghost predicate Valid()
      reads this
    {
      if freep == 0 then base > 0 && live == {} && blocks == map[] && arena == {} else Ready()
    }

    /** Some free block has n units. */
    ghost predicate HasRoom(n: nat)
      reads this
    {
      freep != 0 && Serves(hdr, fl, n)
    }

    constructor (base: nat)
      requires base > 0
      ensures Valid() && this.base == base && freep == 0 && live == {} && arena == {}
    {
      this.base := base;
      freep := 0;
      hdr := map[base := Header(0, 0)];
      fl, live, blocks, arena := [], {}, map[], {};
    }

    /** The loop of free: the list element after which b belongs.  It ends because the
        place of b is somewhere on the circle. */
    method FindPlace(b: nat) returns (p: nat, ghost i: nat)
      requires Ready() && b in live
      ensures i < |fl| && p == fl[i] && Fits(fl, i, b)
    {
      InList(hdr, fl);
      assert fl[0] in fl;
      ghost var t := Place(fl, b);
      p := freep;
      i :| i < |fl| && fl[i] == freep;
      while !(b > p && b < hdr[p].ptr)
        invariant i < |fl| && p == fl[i] && p in hdr
        decreases Steps(i, t, |fl|)
      {
        assert LinkAt(hdr, fl, i);
        if p >= hdr[p].ptr && (b > p || b < hdr[p].ptr) {
          return;
        }
        p := hdr[p].ptr;
        i := After(i, |fl|);
        assert fl[i] in fl;
      }
      assert LinkAt(hdr, fl, i);
    }

    /** The heap if p already pointed past b, as it will when free is done. */
    ghost predicate Pending(p: nat, b: nat, i: nat)
      reads this
    {
      && base > 0 && p in hdr && b in hdr && i < |fl| && p == fl[i] && b in live && Fits(fl, i, b)
      && HeapOk(base, hdr[p := hdr[p].(ptr := hdr[b].ptr)], fl, live, blocks, arena) && hdr[b].ptr == Next(fl, i)
      && (i + 1 < |fl| ==> b + hdr[b].size < fl[i + 1])
    }

    /** The first half of free: b and the block above it. */
    method JoinUp(b: nat, p: nat, ghost i: nat)
      requires Ready() && b in live && Fits(fl, i, b) && p == fl[i]
      modifies this`hdr, this`fl, this`blocks
      ensures Pending(p, b, i)
      ensures b in old(blocks) && hdr[b].size >= old(blocks)[b]
      ensures forall a :: a in live && a != b ==> a in old(blocks) && a in blocks && blocks[a] == old(blocks)[a]
    {
      hide HeapOk, Joined, Remove;
      Between(base, hdr, fl, live, blocks, arena, i, b);
      LiveBlocks(base, hdr, fl, live, blocks, arena);
      assert p != b;
      var nx := hdr[p].ptr;
      if b + hdr[b].size == nx {
        ghost var h2 := hdr[b := Header(hdr[nx].ptr, hdr[b].size + hdr[nx].size)][p := hdr[p].(ptr := hdr[nx].ptr)];
        ExtendKeeps(base, hdr, fl, live, blocks, arena, i, b, h2);
        JoinedLive(base, hdr, fl, live, blocks, arena, b, i + 1);
        hdr := hdr[b := Header(hdr[nx].ptr, hdr[b].size + hdr[nx].size)];
        assert hdr[p := hdr[p].(ptr := hdr[b].ptr)] == h2;
        blocks := Joined(blocks, b, nx);
        fl := Remove(fl, i);
      } else {
        PointerKeeps(base, hdr, fl, live, blocks, arena, b, hdr[b := hdr[b].(ptr := nx)]);
        hdr := hdr[b := hdr[b].(ptr := nx)];
        assert hdr[p := hdr[p].(ptr := hdr[b].ptr)] == hdr;
      }
    }

    /** The second half of free: b and the block below it. */
    method JoinDown(b: nat, p: nat, ghost i: nat)
      requires Pending(p, b, i)
      modifies this`freep, this`hdr, this`fl, this`live, this`blocks
      ensures Ready() && live == old(live) - {b} && Serves(hdr, fl, old(hdr)[b].size)
      ensures forall a :: a in live ==> a in old(blocks) && a in blocks && blocks[a] == old(blocks)[a]
    {
      hide HeapOk, Joined;
      ghost var hv := hdr[p := hdr[p].(ptr := hdr[b].ptr)];
      Between(base, hv, fl, live, blocks, arena, i, b);
      LiveBlocks(base, hv, fl, live, blocks, arena);
      if p + hdr[p].size == b {
        ghost var h2 := hv[p := Header(hv[p].ptr, hv[p].size + hv[b].size)];
        AbsorbKeeps(base, hv, fl, live, blocks, arena, i, b, h2);
        hdr := hdr[p := Header(hdr[b].ptr, hdr[p].size + hdr[b].size)];
        assert hdr == h2;
        AbsorbedLive(base, hv, fl, live, blocks, arena, p, b);
        blocks := Joined(blocks, p, b);
        assert hdr[fl[i]].size >= old(hdr)[b].size;
      } else {
        ghost var h2 := hv[p := hv[p].(ptr := b)];
        ReturnKeeps(base, hv, fl, live, blocks, arena, i, b, h2);
        hdr := hdr[p := hdr[p].(ptr := b)];
        assert hdr == h2;
        fl := Insert(fl, i, b);
        assert fl[i + 1] == b && hdr[fl[i + 1]].size >= old(hdr)[b].size;
      }
      live := live - {b};
      freep := p;
      assert fl[i] == p;
    }

    /** free of the block whose header is b: the other live blocks keep their places and
        sizes, and the free list can now serve a request of that size. */
    method Free(b: nat)
      requires Ready() && b in live
      modifies this`freep, this`hdr, this`fl, this`live, this`blocks
      ensures Ready() && live == old(live) - {b}
      ensures forall a :: a in live ==> a in old(blocks) && a in blocks && blocks[a] == old(blocks)[a]
      ensures b in old(blocks) && Serves(hdr, fl, old(blocks)[b])
    {
      hide HeapOk, Fits;
      var p, i := FindPlace(b);
      JoinUp(b, p, i);
      JoinDown(b, p, i);
    }

    /** morecore: the units that sbrk grants (-1 for SBRK_ERROR) go on the free list. */
    method Morecore(nu: nat, grant: int) returns (p: nat)
      requires Ready() && 0 < nu && (grant == -1 || (base < grant && forall x :: x in arena ==> x < grant))
      modifies this
      ensures Ready() && live == old(live)
      ensures grant == -1 ==>
      p == 0 && hdr == old(hdr) && fl == old(fl) && freep == old(freep) && blocks == old(blocks) && arena == old(arena)
      ensures grant != -1 ==> p == freep != 0 && arena == old(arena) + Span(grant, Units(nu)) && Serves(hdr, fl, nu)
      ensures forall a :: a in live ==> a in old(blocks) && a in blocks && blocks[a] == old(blocks)[a]
    {
      hide Chain, Spaced, Tiled, Span;
      if grant == -1 {
        return 0;
      }
      var n := Units(nu);
      var hp: nat := grant;
      GrantKeeps(base, hdr, fl, live, blocks, arena, hp, n);
      hdr := hdr[hp := Header(0, n)];
      live := live + {hp};
      blocks := blocks[hp := n];
      arena := arena + Span(hp, n);
      ghost var b1 := blocks;
      Free(hp);
      assert live == old(live);
      assert forall a :: a in live ==> a in b1 && blocks[a] == b1[a];
      ServesLess(hdr, fl, n, nu);
      InList(hdr, fl);
      NotNull(base, hdr, fl, live, blocks, arena, freep);
      p := freep;
    }

    /** Cut n units from element j, which is large enough; prevp is the one before. */
    method Cut(prevp: nat, p: nat, ghost j: nat, n: nat) returns (q: nat)
      requires Ready() && 0 < j < |fl| && prevp == fl[j - 1] && p == fl[j] && p in hdr && 0 < n <= hdr[p].size
      modifies this
      ensures Ready() && q !in old(live) && live == old(live) + {q} && arena == old(arena) && freep == prevp
      ensures q in blocks && blocks[q] == n && q == p + old(hdr[p].size) - n
      ensures forall a :: a in old(live) ==> a in old(blocks) && a in blocks && blocks[a] == old(blocks)[a]
    {
      hide Chain, Spaced, Tiled;
      InList(hdr, fl);
      assert fl[j] in fl && fl[j - 1] in fl && fl[0] in fl;
      ListDistinct(hdr, fl, j);
      q := p;
      if hdr[p].size == n {
        TakeKeeps(base, hdr, fl, live, blocks, arena, j - 1, hdr[prevp := hdr[prevp].(ptr := hdr[p].ptr)]);
        hdr := hdr[prevp := hdr[prevp].(ptr := hdr[p].ptr)];
        fl := Remove(fl, j - 1);
        assert fl[j - 1] == prevp;
      } else {
        ghost var h2 := hdr[p := hdr[p].(size := hdr[p].size - n)][p + (hdr[p].size - n) := Header(0, n)];
        SplitKeeps(base, hdr, fl, live, blocks, arena, j, n, h2);
        blocks := Split(blocks, p, n);
        hdr := hdr[p := hdr[p].(size := hdr[p].size - n)];
        q := p + hdr[p].size;
        hdr := hdr[q := Header(0, n)];
      }
      live := live + {q};
      freep := prevp;
    }

    /** malloc.  It calls sbrk, once, just if no free block is large enough; 0 is returned just
        if sbrk then refuses. */
    method Malloc(nbytes: nat, grant: int) returns (r: nat, cored: bool)
      requires Valid() && (grant == -1 || (base < grant && forall x :: x in arena ==> x < grant))
      modifies this
      ensures Ready() && (r == 0 ==> live == old(live))
      ensures r == 0 <==> grant == -1 && !old(HasRoom(Wanted(nbytes)))
      ensures r != 0 ==> r - 1 !in old(live) && live == old(live) + {r - 1} && r - 1 in blocks
                         && blocks[r - 1] == Wanted(nbytes) && (blocks[r - 1] - 1) * 16 >= nbytes
      ensures cored <==> grant != -1 && !old(HasRoom(Wanted(nbytes)))
      ensures arena == if cored then old(arena) + Span(grant, Units(Wanted(nbytes))) else old(arena)
      ensures forall a :: a in old(live) ==> a in old(blocks) && a in blocks && blocks[a] == old(blocks)[a]
    {
      hide HeapOk, Chain, Spaced, Tiled, Span;
      var n := Wanted(nbytes);
      var prevp := freep;
      if prevp == 0 {
        hdr := hdr[base := Header(base, 0)];
        freep, prevp := base, base;
        fl := [base];
        FirstHeap(base, hdr);
      }
      LiveBlocks(base, hdr, fl, live, blocks, arena);
      cored := false;
      ghost var s: nat := IndexOf(fl, freep);
      ListLinks(base, hdr, fl, live, blocks, arena, s);
      var p := hdr[prevp].ptr;
      ghost var i: nat, j: nat := s, After(s, |fl|);
      while true
        invariant Ready() && live == old(live)
        invariant i < |fl| && j == After(i, |fl|) && s < |fl| && fl[s] == freep && fl[i] == prevp && fl[j] == p
          && p in hdr
        invariant Searched(hdr, fl, j, s, n) && (cored ==> Serves(hdr, fl, n) && grant >= 0)
        invariant if cored then !old(HasRoom(n)) else Serves(hdr, fl, n) <==> old(HasRoom(n))
        invariant arena == if cored then old(arena) + Span(grant, Units(n)) else old(arena)
        invariant forall a :: a in live ==> a in old(blocks) && a in blocks && blocks[a] == old(blocks)[a]
        decreases !cored, Steps(j, s, |fl|)
      {
        if hdr[p].size >= n {
          assert Serves(hdr, fl, n);
          NotBase(base, hdr, fl, live, blocks, arena, i, j, n);
          ghost var b1 := blocks;
          p := Cut(prevp, p, j, n);
          assert forall a :: a in old(live) ==> a in b1;
          return p + 1, cored;
        }
        if p == freep {
          AllSearched(base, hdr, fl, live, blocks, arena, j, s, n);
          ghost var b1 := blocks;
          p := Morecore(n, grant);
          if p == 0 {
            return 0, false;
          }
          cored := true;
          assert forall a :: a in old(live) ==> a in b1;
          s := IndexOf(fl, freep);
          j := s;
        }
        ListLinks(base, hdr, fl, live, blocks, arena, j);
        SearchOn(hdr, fl, j, s, n);
        prevp, i := p, j;
        p, j := hdr[p].ptr, After(j, |fl|);
      }
    }
  }

  /** nunits, for a request of nbytes. */
  function Wanted(nbytes: nat): (n: nat)
    ensures n > 0 && (n - 1) * 16 >= nbytes
  {
    (nbytes + 16 - 1) / 16 + 1
  }

  function Units(nu: nat): (n: nat)
    ensures n >= nu
  {
    if nu < 4096 then 4096 else nu
  }

  lemma ServesLess(hdr: Headers, fl: seq<nat>, m: nat, n: nat)
    requires Serves(hdr, fl, m) && n <= m
    ensures Serves(hdr, fl, n)
  {
    var k: nat :| k < |fl| && fl[k] in hdr && hdr[fl[k]].size >= m;
    assert hdr[fl[k]].size >= n;
  }

  lemma NotNull(base: nat, hdr: Headers, fl: seq<nat>, live: set<nat>, blocks: map<nat, nat>, arena: set<nat>, a: nat)
    requires base > 0 && HeapOk(base, hdr, fl, live, blocks, arena) && a in fl
    ensures a != 0
  {
  }

  lemma ListDistinct(hdr: Headers, fl: seq<nat>, j: nat)
    requires Chain(hdr, fl) && 0 < j < |fl|
    ensures fl[j] != fl[0] && fl[j - 1] != fl[j]
  {
  }

  lemma LiveBlocks(base: nat, hdr: Headers, fl: seq<nat>, live: set<nat>, blocks: map<nat, nat>, arena: set<nat>)
    requires HeapOk(base, hdr, fl, live, blocks, arena)
    ensures forall a :: a in live ==> a in blocks && a in hdr && hdr[a].size == blocks[a]
  {
    hide Chain, Spaced, Tiled;
  }

  lemma FirstHeap(base: nat, hdr: Headers)
    requires base in hdr && hdr[base] == Header(base, 0)
    ensures HeapOk(base, hdr, [base], {}, map[], {})
  {
  }

  ghost function IndexOf(fl: seq<nat>, a: nat): (i: nat)
    requires a in fl
    ensures i < |fl| && fl[i] == a
  {
    var i :| 0 <= i < |fl| && fl[i] == a;
    i
  }

  lemma ListLinks(base: nat, hdr: Headers, fl: seq<nat>, live: set<nat>, blocks: map<nat, nat>, arena: set<nat>, j: nat)
    requires HeapOk(base, hdr, fl, live, blocks, arena) && j < |fl|
    ensures fl[j] in hdr && hdr[fl[j]].ptr == fl[After(j, |fl|)] && fl[After(j, |fl|)] in hdr
  {
    assert LinkAt(hdr, fl, j) && LinkAt(hdr, fl, After(j, |fl|));
  }

  /** The base header is never large enough. */
  lemma NotBase(base: nat, hdr: Headers, fl: seq<nat>, live: set<nat>, blocks: map<nat, nat>, arena: set<nat>, i: nat,
                j: nat, n: nat)
    requires HeapOk(base, hdr, fl, live, blocks, arena) && i < |fl| && j == After(i, |fl|) && n > 0
    requires fl[j] in hdr && hdr[fl[j]].size >= n
    ensures j == i + 1
  {
  }

  /** Back at freep, with the search having gone all the way round. */
  lemma AllSearched(base: nat, hdr: Headers, fl: seq<nat>, live: set<nat>, blocks: map<nat, nat>, arena: set<nat>,
                    j: nat, s: nat, n: nat)
    requires HeapOk(base, hdr, fl, live, blocks, arena) && j < |fl| && s < |fl| && fl[j] == fl[s] && fl[j] in hdr
      && hdr[fl[j]].size < n
    requires Searched(hdr, fl, j, s, n)
    ensures !Serves(hdr, fl, n)
  {
    assert j == s;
    forall m: nat | m < |fl|
      ensures fl[m] in hdr && hdr[fl[m]].size < n
    {
      assert m == s || Small(hdr, fl, m, n);
    }
  }

  lemma SearchOn(hdr: Headers, fl: seq<nat>, j: nat, s: nat, n: nat)
    requires j < |fl| && s < |fl| && fl[j] in hdr && (j == s || (Searched(hdr, fl, j, s, n) && hdr[fl[j]].size < n))
    ensures Searched(hdr, fl, After(j, |fl|), s, n)
    ensures j != s ==> Steps(After(j, |fl|), s, |fl|) < Steps(j, s, |fl|)
  {
    forall m: nat | m < |fl| && !Ahead(m, After(j, |fl|), s)
      ensures Small(hdr, fl, m, n)
    {
      assert m == j || !Ahead(m, j, s);
    }
  }

  lemma PointerKeeps(base: nat, hdr: Headers, fl: seq<nat>, live: set<nat>, blocks: map<nat, nat>, arena: set<nat>,
                     b: nat, hdr': Headers)
    requires HeapOk(base, hdr, fl, live, blocks, arena) && b in live && b in hdr
    requires hdr'.Keys == hdr.Keys && forall a :: a in hdr ==> a in hdr' && hdr'[a].size == hdr[a].size && (a != b ==>
      hdr'[a] == hdr[a])
    ensures HeapOk(base, hdr', fl, live, blocks, arena)
  {
    InList(hdr, fl);
    assert fl[0] in fl;
    ChainKeeps(hdr, fl, hdr');
    forall j: nat | j < |fl|
      ensures GapAt(hdr', fl, j)
    {
      assert GapAt(hdr, fl, j) && fl[j] in fl;
    }
  }
}
