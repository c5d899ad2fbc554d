/** The circular free list of user/umalloc.c and the blocks of its heap.  Addresses
    count units of one header. */
module FreeList {
  datatype Header = Header(ptr: nat, size: nat)

  type Headers = map<nat, Header>

  // ---- the list ----

  /** The element after the i-th, round the circle. */
  ghost function Next(fl: seq<nat>, i: nat): nat
    requires i < |fl|
  {
    if i + 1 < |fl| then fl[i + 1] else fl[0]
  }

  ghost predicate LinkAt(hdr: Headers, fl: seq<nat>, i: nat) {
    i < |fl| && fl[i] in hdr && hdr[fl[i]].ptr == Next(fl, i)
  }

  /** The i-th block ends before the next begins, with something in between. */
  ghost predicate GapAt(hdr: Headers, fl: seq<nat>, i: nat) {
    i + 1 < |fl| ==> fl[i] in hdr && fl[i] + hdr[fl[i]].size < fl[i + 1]
  }

  ghost predicate Chain(hdr: Headers, fl: seq<nat>) {
    && (forall i: nat :: i < |fl| ==> LinkAt(hdr, fl, i))
    && (forall i, j :: 0 <= i < j < |fl| ==> fl[i] < fl[j])
  }

  ghost predicate Spaced(hdr: Headers, fl: seq<nat>) {
    forall i: nat :: i < |fl| ==> GapAt(hdr, fl, i)
  }

  function Insert(fl: seq<nat>, i: nat, b: nat): (r: seq<nat>)
    requires i < |fl|
  {
    fl[..i + 1] + [b] + fl[i + 1..]
  }

  /** fl without the element after the i-th. */
  function Remove(fl: seq<nat>, i: nat): (r: seq<nat>)
    requires i + 1 < |fl|
  {
    fl[..i + 1] + fl[i + 2..]
  }

  ghost predicate Fits(fl: seq<nat>, i: nat, b: nat) {
    i < |fl| && fl[i] < b && (i + 1 < |fl| ==> b < fl[i + 1])
  }

  lemma ChainInsert(hdr: Headers, fl: seq<nat>, i: nat, b: nat, hdr': Headers)
    requires Chain(hdr, fl) && Fits(fl, i, b) && b in hdr' && hdr'[b].ptr == Next(fl, i)
    requires forall a :: a in fl ==> a in hdr && a in hdr' && hdr'[a].ptr == if a == fl[i] then b else hdr[a].ptr
    ensures Chain(hdr', Insert(fl, i, b)) && b !in fl
  {
    var r := Insert(fl, i, b);
    forall j: nat | j < |r|
      ensures LinkAt(hdr', r, j)
    {
      if j < i {
        assert LinkAt(hdr, fl, j) && fl[j] in fl;
      } else if j == i {
        assert fl[i] in fl;
      } else if j > i + 1 {
        assert LinkAt(hdr, fl, j - 1) && fl[j - 1] in fl;
      }
    }
  }

  lemma ChainRemove(hdr: Headers, fl: seq<nat>, i: nat, hdr': Headers)
    requires Chain(hdr, fl) && i + 1 < |fl|
    requires forall a :: a in fl && a != fl[i + 1] ==>
        a in hdr && a in hdr' && hdr'[a].ptr == if a == fl[i] then Next(fl, i + 1) else hdr[a].ptr
    ensures Chain(hdr', Remove(fl, i))
  {
    var r := Remove(fl, i);
    forall j: nat | j < |r|
      ensures LinkAt(hdr', r, j)
    {
      if j < i {
        assert LinkAt(hdr, fl, j) && fl[j] in fl;
      } else if j == i {
        assert fl[i] in fl;
      } else {
        assert LinkAt(hdr, fl, j + 1) && fl[j + 1] in fl;
      }
    }
  }

  lemma ChainKeeps(hdr: Headers, fl: seq<nat>, hdr': Headers)
    requires Chain(hdr, fl) && forall a :: a in fl ==> a in hdr' && (a in hdr ==> hdr'[a].ptr == hdr[a].ptr)
    ensures Chain(hdr', fl)
  {
    forall j: nat | j < |fl|
      ensures LinkAt(hdr', fl, j)
    {
      assert LinkAt(hdr, fl, j) && fl[j] in fl;
    }
  }

  // ---- the blocks ----

  ghost predicate Covers(blocks: map<nat, nat>, a: nat, x: nat) {
    a in blocks && a <= x < a + blocks[a]
  }

  ghost predicate Apart(blocks: map<nat, nat>, a: nat, b: nat) {
    a in blocks && b in blocks && a != b ==> a + blocks[a] <= b || b + blocks[b] <= a
  }

  /** The blocks are disjoint and together make up exactly the units from sbrk. */
  ghost predicate Tiled(blocks: map<nat, nat>, arena: set<nat>) {
    && (forall a :: a in blocks ==> blocks[a] > 0)
    && (forall a, b :: Apart(blocks, a, b))
    && (forall x :: x in arena ==> exists a :: Covers(blocks, a, x))
    && (forall a, x :: Covers(blocks, a, x) ==> x in arena)
  }

  function Joined(blocks: map<nat, nat>, a: nat, b: nat): (r: map<nat, nat>)
    requires a in blocks && b in blocks
  {
    (blocks - {b})[a := blocks[a] + blocks[b]]
  }

  lemma JoinTiled(blocks: map<nat, nat>, arena: set<nat>, a: nat, b: nat)
    requires Tiled(blocks, arena) && a in blocks && b in blocks && a + blocks[a] == b
    ensures Tiled(Joined(blocks, a, b), arena)
  {
    var r := Joined(blocks, a, b);
    assert Apart(blocks, a, b);
    forall c: nat, d: nat
      ensures Apart(r, c, d)
    {
      assert Apart(blocks, c, d) && Apart(blocks, c, a) && Apart(blocks, c, b) && Apart(blocks, a, d)
        && Apart(blocks, b, d);
    }
    forall x | x in arena
      ensures exists c :: Covers(r, c, x)
    {
      var c: nat :| Covers(blocks, c, x);
      assert Covers(r, if c == b then a else c, x);
    }
    forall c: nat, x: nat | Covers(r, c, x)
      ensures x in arena
    {
      assert Covers(blocks, if c == a && x >= b then b else c, x);
    }
  }

  /** malloc takes the tail of a block. */
  function Split(blocks: map<nat, nat>, a: nat, n: nat): (r: map<nat, nat>)
    requires a in blocks && n < blocks[a]
  {
    blocks[a := blocks[a] - n][a + (blocks[a] - n) := n]
  }

  lemma SplitTiled(blocks: map<nat, nat>, arena: set<nat>, a: nat, n: nat)
    requires Tiled(blocks, arena) && a in blocks && 0 < n < blocks[a]
    ensures Tiled(Split(blocks, a, n), arena) && a + (blocks[a] - n) !in blocks
  {
    var r, t := Split(blocks, a, n), a + (blocks[a] - n);
    assert Apart(blocks, a, t);
    forall c: nat, d: nat
      ensures Apart(r, c, d)
    {
      assert Apart(blocks, c, d) && Apart(blocks, c, a) && Apart(blocks, a, d);
    }
    forall x | x in arena
      ensures exists c :: Covers(r, c, x)
    {
      var c: nat :| Covers(blocks, c, x);
      assert Covers(r, if c == a && x >= t then t else c, x);
    }
    forall c: nat, x: nat | Covers(r, c, x)
      ensures x in arena
    {
      assert Covers(blocks, if c == t then a else c, x);
    }
  }

  /** The units from a on that one call of sbrk adds. */
  ghost function Span(a: nat, n: nat): set<nat> {
    set x | a <= x < a + n && InSpan(a, n, x)
  }

  ghost predicate InSpan(a: nat, n: nat, x: nat) {
    a <= x < a + n
  }

  lemma AddTiled(blocks: map<nat, nat>, arena: set<nat>, a: nat, n: nat)
    requires Tiled(blocks, arena) && n > 0 && forall x :: x in arena ==> x < a
    ensures a !in blocks && Tiled(blocks[a := n], arena + Span(a, n))
    ensures forall b :: b in blocks ==> b + blocks[b] <= a
  {
    var r, s := blocks[a := n], arena + Span(a, n);
    forall b | b in blocks
      ensures b + blocks[b] <= a
    {
      assert Covers(blocks, b, b + blocks[b] - 1);
    }
    forall c: nat, d: nat
      ensures Apart(r, c, d)
    {
      assert Apart(blocks, c, d);
    }
    forall x | x in s
      ensures exists c :: Covers(r, c, x)
    {
      if x in arena {
        var c: nat :| Covers(blocks, c, x);
        assert Covers(r, c, x);
      } else {
        assert Covers(r, a, x);
      }
    }
    forall c: nat, x: nat | Covers(r, c, x)
      ensures x in s
    {
      if c != a {
        assert Covers(blocks, c, x);
      } else {
        assert InSpan(a, n, x);
      }
    }
  }
}
