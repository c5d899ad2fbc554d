/** How many pages an operation on page tables takes, told from the state before it: the
    slots it has to fill and that no page fills yet, against the pages that are free. */
module VmNeed {
  import opened VmPte
  import opened VmTable
  import opened VmSpec

  /** The slots of S that no page has. */
  ghost function Lacking(owner: Owners, S: set<Slot>): set<Slot> {
    set s | s in S && s !in owner.Values
  }

  ghost function Need(owner: Owners, S: set<Slot>): nat {
    |Lacking(owner, S)|
  }

  /** The lower tables that page v of table r goes through. */
  ghost function Tables(r: nat, v: nat): set<Slot> {
    {Mid(r, Top(v)), Low(r, Top(v), Mid9(v))}
  }

  /** With its frame. */
  ghost function Path(r: nat, v: nat): set<Slot> {
    Tables(r, v) + {Leaf(r, v)}
  }

  ghost function TablesOf(r: nat, v: nat, n: nat): set<Slot> {
    set j, s | v <= j < v + n && s in Tables(r, j) :: s
  }

  ghost function Paths(r: nat, pages: set<nat>): set<Slot> {
    set j, s | j in pages && s in Path(r, j) :: s
  }

  ghost function Range(v: nat, n: nat): (pages: set<nat>)
    ensures |pages| == n && forall j :: j in pages <==> v <= j < v + n
  {
    if n == 0 then {} else Range(v, n - 1) + {v + n - 1}
  }

  /** Pages keep what they are for, and each page taken fills a slot of S. */
  ghost predicate Spread(o0: Owners, o1: Owners, S: set<Slot>) {
    && (forall q :: q in o0 ==> q in o1 && o1[q] == o0[q])
    && (forall q :: q in o1 && q !in o0 ==> o1[q] in S)
  }

  lemma SpreadNone(o: Owners, S: set<Slot>)
    ensures Spread(o, o, S)
  {
  }

  lemma SpreadTwice(o0: Owners, o1: Owners, o2: Owners, S: set<Slot>, T: set<Slot>)
    requires Spread(o0, o1, S) && Spread(o1, o2, T) && T <= S
    ensures Spread(o0, o2, S)
  {
  }

  /** The same, but frames in the kernel's hands may go to leaf slots outside S. */
  ghost predicate SpreadTables(o0: Owners, o1: Owners, S: set<Slot>) {
    && (forall q :: q in o0 ==> q in o1 && (o1[q] == o0[q] || (o0[q].Held? && o1[q] !in S)))
    && (forall q :: q in o1 && q !in o0 ==> o1[q] in S)
  }

  // ---- counting ----

  lemma OnePageEach(mem: Mem, owner: Owners, p: nat, q: nat)
    requires PtOk(mem, owner) && p in owner && q in owner && owner[p] == owner[q] && !owner[p].Held?
    ensures p == q
  {
    hide Pte, Ppn, Valid;
    assert PageOk(mem, owner, p) && PageOk(mem, owner, q);
  }

  ghost function SlotsOf(owner: Owners, pages: set<nat>): set<Slot>
    requires pages <= owner.Keys
  {
    set q | q in pages :: owner[q]
  }

  lemma {:induction false} AsManySlots(mem: Mem, owner: Owners, pages: set<nat>)
    requires PtOk(mem, owner) && pages <= owner.Keys && forall q :: q in pages ==> !owner[q].Held?
    ensures |SlotsOf(owner, pages)| == |pages|
  {
    hide PtOk;
    if pages == {} {
      assert SlotsOf(owner, pages) == {};
    } else {
      var q :| q in pages;
      AsManySlots(mem, owner, pages - {q});
      assert SlotsOf(owner, pages) == SlotsOf(owner, pages - {q}) + {owner[q]};
      if owner[q] in SlotsOf(owner, pages - {q}) {
        var p :| p in pages - {q} && owner[p] == owner[q];
        OnePageEach(mem, owner, p, q);
      }
    }
  }

  /** A slot that lacked a page still does, or one of the pages taken fills it. */
  lemma FilledBy(m1: Mem, o0: Owners, o1: Owners, S: set<Slot>, s: Slot)
    requires PtOk(m1, o1) && SpreadTables(o0, o1, S) && Held !in S
    ensures s in Lacking(o0, S) <==> s in Lacking(o1, S) || s in SlotsOf(o1, o1.Keys - o0.Keys)
    ensures !(s in Lacking(o1, S) && s in SlotsOf(o1, o1.Keys - o0.Keys))
  {
    hide PtOk;
    if s in S && s in o1.Values {
      var q :| q in o1 && o1[q] == s;
      if s in o0.Values {
        var p :| p in o0 && o0[p] == s;
        OnePageEach(m1, o1, p, q);
      }
    }
    if s in SlotsOf(o1, o1.Keys - o0.Keys) {
      var q :| q in o1.Keys - o0.Keys && o1[q] == s;
      if s in o0.Values {
        var p :| p in o0 && o0[p] == s;
        OnePageEach(m1, o1, p, q);
      }
    }
    if s in S && s in o0.Values {
      var p :| p in o0 && o0[p] == s;
      assert o1[p] == s;
    }
  }

  lemma SplitSize<T(!new)>(a: set<T>, b: set<T>, c: set<T>)
    requires forall x :: x in a <==> x in b || x in c
    requires forall x :: !(x in b && x in c)
    ensures |a| == |b| + |c|
  {
    assert a == b + c && b !! c;
  }

  lemma NeedKept(m1: Mem, o0: Owners, o1: Owners, S: set<Slot>)
    requires PtOk(m1, o1) && SpreadTables(o0, o1, S) && Held !in S
    ensures Need(o0, S) == Need(o1, S) + |o1.Keys - o0.Keys|
  {
    hide PtOk;
    AsManySlots(m1, o1, o1.Keys - o0.Keys);
    forall s
      ensures s in Lacking(o0, S) <==> s in Lacking(o1, S) || s in SlotsOf(o1, o1.Keys - o0.Keys)
      ensures !(s in Lacking(o1, S) && s in SlotsOf(o1, o1.Keys - o0.Keys))
    {
      FilledBy(m1, o0, o1, S, s);
    }
    hide Lacking, SlotsOf, SpreadTables;
    SplitSize(Lacking(o0, S), Lacking(o1, S), SlotsOf(o1, o1.Keys - o0.Keys));
  }

  ghost function Elements(xs: seq<nat>): set<nat> {
    set x | x in xs
  }

  lemma {:induction false} AllElements(xs: seq<nat>)
    requires forall i, j :: 0 <= i < j < |xs| ==> xs[i] != xs[j]
    ensures |Elements(xs)| == |xs|
  {
    if xs == [] {
      assert Elements(xs) == {};
    } else {
      AllElements(xs[1..]);
      assert xs == [xs[0]] + xs[1..];
      assert Elements(xs) == Elements(xs[1..]) + {xs[0]};
      assert xs[0] !in xs[1..];
    }
  }

  /** Pages are free or owned. */
  lemma FreeIs(mem: Mem, freelist: nat, free: seq<nat>, owner: Owners, lo: nat)
    requires Kmem(mem, freelist, free, owner, lo)
    ensures |free| + |owner.Keys| == |mem| - lo
  {
    AllElements(free);
    hide Linked;
    forall p
      ensures p in Range(lo, |mem| - lo) <==> p in Elements(free) || p in owner.Keys
      ensures !(p in Elements(free) && p in owner.Keys)
    {
    }
    SplitSize(Range(lo, |mem| - lo), Elements(free), owner.Keys);
  }

  /** Whatever part of S has been filled, there is room for the rest of it exactly if there
      was room for all. */
  lemma RoomKept(m0: Mem, l0: nat, f0: seq<nat>, o0: Owners, m1: Mem, l1: nat, f1: seq<nat>, o1: Owners, lo: nat,
                 S: set<Slot>)
    requires Kmem(m0, l0, f0, o0, lo) && Kmem(m1, l1, f1, o1, lo) && |m1| == |m0| && PtOk(m1, o1)
    requires SpreadTables(o0, o1, S) && Held !in S
    ensures Need(o0, S) - |f0| == Need(o1, S) - |f1|
  {
    hide Kmem, PtOk;
    FreeIs(m0, l0, f0, o0, lo);
    FreeIs(m1, l1, f1, o1, lo);
    NeedKept(m1, o0, o1, S);
    assert o1.Keys == o0.Keys + (o1.Keys - o0.Keys);
  }

  lemma SpreadIsTables(o0: Owners, o1: Owners, S: set<Slot>)
    requires Spread(o0, o1, S)
    ensures SpreadTables(o0, o1, S)
  {
  }

  lemma NeedLess(owner: Owners, S: set<Slot>, T: set<Slot>)
    requires S <= T
    ensures Need(owner, S) <= Need(owner, T)
  {
    var a, b := Lacking(owner, S), Lacking(owner, T);
    assert b == a + (b - a);
  }

  lemma NeedNone(owner: Owners, S: set<Slot>)
    ensures Need(owner, S) == 0 <==> S <= owner.Values
  {
    if S <= owner.Values {
      assert Lacking(owner, S) == {};
    } else {
      var s :| s in S && s !in owner.Values;
      assert s in Lacking(owner, S);
    }
  }

  lemma NeedOne(owner: Owners, S: set<Slot>, s: Slot)
    requires s in S && s !in owner.Values
    ensures Need(owner, S) == Need(owner, S - {s}) + 1
  {
    assert Lacking(owner, S) == Lacking(owner, S - {s}) + {s};
  }

  // ---- which slots have pages ----

  /** Where walk gets to, the tables have pages. */
  lemma TablesThere(mem: Mem, owner: Owners, r: nat, v: nat)
    requires PtOk(mem, owner) && IsRoot(owner, r) && v < ALLVPN && Base(mem, Step(r, v, 0)) < |mem|
    ensures Tables(r, v) <= owner.Values
  {
    hide Pte, Valid, Ppn;
    var low, mid := Low(r, Top(v), Mid9(v)), Mid(r, Top(v));
    BaseOwned(mem, owner, low);
    assert Base(mem, low) in owner;
    if Base(mem, mid) >= |mem| {
      WalkBlocked(mem, r, v, 1);
    }
    BaseOwned(mem, owner, mid);
    assert owner[Base(mem, low)] == low && owner[Base(mem, mid)] == mid;
  }

  /** Where it does not, the last table has none. */
  lemma LowMissing(mem: Mem, owner: Owners, r: nat, v: nat)
    requires PtOk(mem, owner) && IsRoot(owner, r) && v < ALLVPN && Base(mem, Step(r, v, 0)) >= |mem|
    ensures Low(r, Top(v), Mid9(v)) !in owner.Values
  {
    hide Pte, Valid, Ppn;
    var low := Low(r, Top(v), Mid9(v));
    assert SlotOk(mem, owner, low);
    forall p | p in owner
      ensures owner[p] != low
    {
      assert PageOk(mem, owner, p);
    }
  }

  lemma LeafMissing(mem: Mem, owner: Owners, r: nat, v: nat)
    requires PtOk(mem, owner) && v < ALLVPN && !Valid(Pte(mem, Leaf(r, v)))
    ensures Leaf(r, v) !in owner.Values
  {
    hide Pte, Valid, Ppn;
    forall p | p in owner
      ensures owner[p] != Leaf(r, v)
    {
      assert PageOk(mem, owner, p);
    }
  }

  lemma LeafOwned(mem: Mem, owner: Owners, r: nat, v: nat)
    requires PtOk(mem, owner) && v < ALLVPN && Leaf(r, v) in owner.Values
    ensures Valid(Pte(mem, Leaf(r, v)))
  {
    hide Pte, Valid, Ppn;
    var p :| p in owner && owner[p] == Leaf(r, v);
    assert PageOk(mem, owner, p);
  }

  /** A page that is mapped has its path. */
  lemma MappedThere(mem: Mem, owner: Owners, r: nat, v: nat)
    requires PtOk(mem, owner) && IsRoot(owner, r) && v < ALLVPN && Valid(Pte(mem, Leaf(r, v)))
    ensures Tables(r, v) <= owner.Values && (Owns(Leaf(r, v)) ==> Path(r, v) <= owner.Values)
  {
    assert !Valid(0);
    assert SlotOk(mem, owner, Leaf(r, v));
    hide Valid, Ppn;
    assert Pte(mem, Leaf(r, v)) != 0;
    assert Base(mem, Step(r, v, 0)) < |mem|;
    hide Pte;
    TablesThere(mem, owner, r, v);
    if Owns(Leaf(r, v)) {
      assert owner[Ppn(Pte(mem, Leaf(r, v)))] == Leaf(r, v);
    }
  }

  lemma StillThere(o0: Owners, o1: Owners, S: set<Slot>, T: set<Slot>)
    requires Spread(o0, o1, S) && T <= o0.Values
    ensures T <= o1.Values
  {
    forall t | t in T
      ensures t in o1.Values
    {
      var q :| q in o0 && o0[q] == t;
      assert o1[q] == t;
    }
  }

  // ---- walk and mappages ----

  /** walk has found room for its tables, or memory had run out. */
  lemma TablesSettled(m0: Mem, l0: nat, f0: seq<nat>, o0: Owners, m1: Mem, l1: nat, f1: seq<nat>, o1: Owners, lo: nat,
                      r: nat, v: nat)
    requires Kmem(m0, l0, f0, o0, lo) && Kmem(m1, l1, f1, o1, lo) && |m1| == |m0| && PtOk(m1, o1)
    requires IsRoot(o1, r) && v < ALLVPN && Spread(o0, o1, Tables(r, v))
    requires Base(m1, Step(r, v, 0)) >= |m1| ==> f1 == []
    ensures Base(m1, Step(r, v, 0)) < |m1| <==> Need(o0, Tables(r, v)) <= |f0|
  {
    hide Kmem, PtOk, Base;
    SpreadIsTables(o0, o1, Tables(r, v));
    RoomKept(m0, l0, f0, o0, m1, l1, f1, o1, lo, Tables(r, v));
    NeedNone(o1, Tables(r, v));
    if Base(m1, Step(r, v, 0)) < |m1| {
      TablesThere(m1, o1, r, v);
    } else {
      LowMissing(m1, o1, r, v);
      assert Low(r, Top(v), Mid9(v)) in Tables(r, v);
    }
  }

  lemma TablesWithin(r: nat, v: nat, n: nat, j: nat)
    requires v <= j < v + n
    ensures Tables(r, j) <= TablesOf(r, v, n) && Held !in TablesOf(r, v, n)
    ensures forall s :: s in TablesOf(r, v, n) ==> s.Mid? || s.Low?
  {
  }

  /** mappages has mapped k pages; its tables are those of the pages it came to. */
  ghost predicate MapsSpread(o0: Owners, o1: Owners, r: nat, v: nat, n: nat) {
    && (forall q :: q in o0 ==> q in o1 && (o1[q] == o0[q] || (o0[q].Held? && o1[q].Leaf?)))
    && (forall q :: q in o1 && q !in o0 ==> o1[q] in TablesOf(r, v, n))
  }

  lemma MapsSpreadMore(o0: Owners, o1: Owners, o2: Owners, r: nat, v: nat, n: nat, j: nat)
    requires MapsSpread(o0, o1, r, v, n) && Spread(o1, o2, Tables(r, j)) && v <= j < v + n
    ensures MapsSpread(o0, o2, r, v, n)
  {
    TablesWithin(r, v, n, j);
  }

  lemma MapsSpreadFrame(o0: Owners, o1: Owners, o2: Owners, r: nat, v: nat, n: nat, p: nat, s: Slot)
    requires MapsSpread(o0, o1, r, v, n)
    requires o2 == o1 || (s.Leaf? && p in o0 && o0[p].Held? && o2 == o1[p := s])
    ensures MapsSpread(o0, o2, r, v, n)
  {
  }

  /** mappages ran out of memory at page j: so there was not enough for all of them. */
  lemma MapsNoRoom(m0: Mem, l0: nat, f0: seq<nat>, o0: Owners, m1: Mem, l1: nat, f1: seq<nat>, o1: Owners, lo: nat,
                   r: nat, v: nat, n: nat, j: nat)
    requires Kmem(m0, l0, f0, o0, lo) && Kmem(m1, l1, f1, o1, lo) && |m1| == |m0| && PtOk(m1, o1)
    requires MapsSpread(o0, o1, r, v, n) && v <= j < v + n && Need(o1, Tables(r, j)) > |f1|
    ensures Need(o0, TablesOf(r, v, n)) > |f0|
  {
    hide Kmem, PtOk, Need;
    TablesWithin(r, v, n, j);
    assert SpreadTables(o0, o1, TablesOf(r, v, n));
    RoomKept(m0, l0, f0, o0, m1, l1, f1, o1, lo, TablesOf(r, v, n));
    NeedLess(o1, Tables(r, j), TablesOf(r, v, n));
  }

  /** It mapped them all: so there was. */
  lemma MapsRoom(m0: Mem, l0: nat, f0: seq<nat>, o0: Owners, m1: Mem, l1: nat, f1: seq<nat>, o1: Owners, lo: nat,
                 r: nat, v: nat, n: nat)
    requires Kmem(m0, l0, f0, o0, lo) && Kmem(m1, l1, f1, o1, lo) && |m1| == |m0| && PtOk(m1, o1) && IsRoot(o1, r)
    requires MapsSpread(o0, o1, r, v, n) && n > 0 && v + n <= ALLVPN
    requires forall j :: v <= j < v + n ==> Valid(Pte(m1, Leaf(r, j)))
    ensures Need(o0, TablesOf(r, v, n)) <= |f0|
  {
    hide Kmem, PtOk, Need, Pte, Valid;
    TablesWithin(r, v, n, v);
    assert SpreadTables(o0, o1, TablesOf(r, v, n));
    RoomKept(m0, l0, f0, o0, m1, l1, f1, o1, lo, TablesOf(r, v, n));
    forall s | s in TablesOf(r, v, n)
      ensures s in o1.Values
    {
      var j :| v <= j < v + n && s in Tables(r, j);
      MappedThere(m1, o1, r, j);
    }
    NeedNone(o1, TablesOf(r, v, n));
  }

  // ---- one frame ----

  /** kalloc of a frame and then mappages: both together need the page's path. */
  lemma FrameNeed(mem: Mem, owner: Owners, p: nat, r: nat, v: nat)
    requires PtOk(mem, owner) && v < ALLVPN && !Valid(Pte(mem, Leaf(r, v)))
    ensures Need(owner, Path(r, v)) > 0
    ensures p !in owner ==> Need(owner, Path(r, v)) == Need(owner[p := Held], TablesOf(r, v, 1)) + 1
  {
    LeafMissing(mem, owner, r, v);
    NeedOne(owner, Path(r, v), Leaf(r, v));
    assert Path(r, v) - {Leaf(r, v)} == TablesOf(r, v, 1);
    if p !in owner {
      AddedValue(owner, p, Held);
      assert Lacking(owner[p := Held], TablesOf(r, v, 1)) == Lacking(owner, TablesOf(r, v, 1));
    }
  }

  lemma AddedValue(owner: Owners, p: nat, s: Slot)
    requires p !in owner
    ensures owner[p := s].Values == owner.Values + {s}
  {
    var o := owner[p := s];
    forall x | x in owner.Values + {s}
      ensures x in o.Values
    {
      if x == s {
        assert o[p] == s;
      } else {
        var q :| q in owner && owner[q] == x;
        assert o[q] == x;
      }
    }
  }

  /** The frame taken and, if mappages failed, given back. */
  lemma FrameSpread(o0: Owners, p: nat, o1: Owners, r: nat, v: nat, ok: bool)
    requires p !in o0 && MapsSpread(o0[p := Held], o1, r, v, 1)
    requires forall q :: q in o0 ==> o1[q] == o0[q]
    requires ok ==> o1[p] == Leaf(r, v)
    ensures Spread(o0, if ok then o1 else o1 - {p}, Path(r, v))
  {
    assert TablesOf(r, v, 1) == Tables(r, v);
    forall q | q in o0
      ensures q in o1 && o1[q] == o0[q]
    {
      assert q in o0[p := Held];
    }
  }

  // ---- many frames ----

  lemma PathWithin(r: nat, pages: set<nat>, j: nat)
    requires j in pages
    ensures Path(r, j) <= Paths(r, pages)
  {
  }

  lemma PathsSlots(r: nat, pages: set<nat>)
    ensures Held !in Paths(r, pages)
  {
  }

  /** A page of the set found no room, whichever came before it: there was none for all. */
  lemma PathsNoRoom(m0: Mem, l0: nat, f0: seq<nat>, o0: Owners, m1: Mem, l1: nat, f1: seq<nat>, o1: Owners, lo: nat,
                    r: nat, pages: set<nat>, j: nat)
    requires Kmem(m0, l0, f0, o0, lo) && Kmem(m1, l1, f1, o1, lo) && |m1| == |m0| && PtOk(m1, o1)
    requires Spread(o0, o1, Paths(r, pages)) && j in pages && Need(o1, Path(r, j)) > |f1|
    ensures Need(o0, Paths(r, pages)) > |f0|
  {
    hide Kmem, PtOk, Need, Paths;
    PathWithin(r, pages, j);
    PathsSlots(r, pages);
    SpreadIsTables(o0, o1, Paths(r, pages));
    RoomKept(m0, l0, f0, o0, m1, l1, f1, o1, lo, Paths(r, pages));
    NeedLess(o1, Path(r, j), Paths(r, pages));
  }

  /** All of them have their paths: there was room. */
  lemma PathsRoom(m0: Mem, l0: nat, f0: seq<nat>, o0: Owners, m1: Mem, l1: nat, f1: seq<nat>, o1: Owners, lo: nat,
                  r: nat, pages: set<nat>)
    requires Kmem(m0, l0, f0, o0, lo) && Kmem(m1, l1, f1, o1, lo) && |m1| == |m0| && PtOk(m1, o1)
    requires Spread(o0, o1, Paths(r, pages)) && forall j :: j in pages ==> Path(r, j) <= o1.Values
    ensures Need(o0, Paths(r, pages)) <= |f0|
  {
    hide Kmem, PtOk, Need;
    PathsSlots(r, pages);
    SpreadIsTables(o0, o1, Paths(r, pages));
    RoomKept(m0, l0, f0, o0, m1, l1, f1, o1, lo, Paths(r, pages));
    NeedNone(o1, Paths(r, pages));
  }

  lemma SpreadPath(o0: Owners, o1: Owners, o2: Owners, r: nat, pages: set<nat>, j: nat)
    requires Spread(o0, o1, Paths(r, pages)) && Spread(o1, o2, Path(r, j)) && j in pages
    ensures Spread(o0, o2, Paths(r, pages))
  {
    PathWithin(r, pages, j);
    SpreadTwice(o0, o1, o2, Paths(r, pages), Path(r, j));
  }

  // ---- a new page table ----

  /** The slots of a page table that maps the trampoline and the trapframe, which share
      their tables. */
  ghost function FreshSlots(r: nat): set<Slot> {
    {Root(r)} + Tables(r, TRAMPOLINE)
  }

  lemma SharedTables(r: nat)
    ensures Tables(r, TRAPFRAME) == Tables(r, TRAMPOLINE) && |Tables(r, TRAMPOLINE)| == 2
    ensures TablesOf(r, TRAMPOLINE, 1) == TablesOf(r, TRAPFRAME, 1) == Tables(r, TRAMPOLINE)
  {
    assert Top(TRAPFRAME) == Top(TRAMPOLINE) && Mid9(TRAPFRAME) == Mid9(TRAMPOLINE);
    assert Tables(r, TRAMPOLINE) == {Mid(r, Top(TRAMPOLINE))} + {Low(r, Top(TRAMPOLINE), Mid9(TRAMPOLINE))};
  }

  /** Under a new root both are lacking. */
  lemma FreshNeed(m0: Mem, o0: Owners, r: nat)
    requires PtOk(m0, o0) && r !in o0
    ensures Need(o0[r := Root(r)], TablesOf(r, TRAMPOLINE, 1)) == 2
  {
    SharedTables(r);
    var o := o0[r := Root(r)];
    forall s | s in Tables(r, TRAMPOLINE)
      ensures s !in o.Values
    {
      NoSlots(m0, o0, r, s);
      AddedValue(o0, r, Root(r));
    }
    assert Lacking(o, Tables(r, TRAMPOLINE)) == Tables(r, TRAMPOLINE);
  }

  lemma NoSlots(m0: Mem, o0: Owners, r: nat, s: Slot)
    requires PtOk(m0, o0) && r !in o0 && !s.Held? && s.r == r
    ensures s !in o0.Values
  {
    hide Pte, Valid, Ppn;
    forall p | p in o0
      ensures o0[p] != s
    {
      assert PageOk(m0, o0, p);
    }
  }

  lemma FreshSpread(o0: Owners, o1: Owners, o2: Owners, r: nat, v: nat)
    requires (o1 == o0[r := Root(r)] && r !in o0) || Spread(o0, o1, FreshSlots(r))
    requires MapsSpread(o1, o2, r, v, 1) && (v == TRAMPOLINE || v == TRAPFRAME) && r in o2
    requires forall q :: q in o1 ==> o2[q] == o1[q]
    ensures Spread(o0, o2, FreshSlots(r))
  {
    SharedTables(r);
    assert forall q :: q in o1 ==> q in o2;
  }

  /** Its pages are one for each slot. */
  lemma FreshCount(m0: Mem, l0: nat, f0: seq<nat>, o0: Owners, m1: Mem, l1: nat, f1: seq<nat>, o1: Owners, lo: nat,
                   r: nat)
    requires Kmem(m0, l0, f0, o0, lo) && Kmem(m1, l1, f1, o1, lo) && |m1| == |m0| && PtOk(m0, o0) && PtOk(m1, o1)
    requires r !in o0 && Spread(o0, o1, FreshSlots(r)) && FreshSlots(r) <= o1.Values
    ensures |f1| == |f0| - 3
    ensures forall s: Slot :: !s.Held? && s.r == r ==> (s in o1.Values <==> s in FreshSlots(r))
  {
    hide Kmem, PtOk, Need;
    SpreadIsTables(o0, o1, FreshSlots(r));
    RoomKept(m0, l0, f0, o0, m1, l1, f1, o1, lo, FreshSlots(r));
    NeedNone(o1, FreshSlots(r));
    FreshAll(m0, o0, r);
    forall s: Slot | !s.Held? && s.r == r
      ensures s in o1.Values <==> s in FreshSlots(r)
    {
      NoSlots(m0, o0, r, s);
      if s in o1.Values {
        var q :| q in o1 && o1[q] == s;
        if q in o0 {
          assert o0[q] == s;
        }
      }
    }
  }

  lemma FreshAll(m0: Mem, o0: Owners, r: nat)
    requires PtOk(m0, o0) && r !in o0
    ensures Need(o0, FreshSlots(r)) == 3
  {
    forall s | s in FreshSlots(r)
      ensures s !in o0.Values
    {
      NoSlots(m0, o0, r, s);
    }
    assert Lacking(o0, FreshSlots(r)) == FreshSlots(r);
    SharedTables(r);
    assert Root(r) !in Tables(r, TRAMPOLINE);
  }

  /** What a fork has to find: a root, the tables of the trampoline and those of the pages
      copied, each once, and a frame for each of these. */
  ghost function ForkNeed(pages: set<nat>): nat {
    1 + |ForkSlots(pages, 0)|
  }

  ghost function Renamed(s: Slot, r: nat): Slot {
    match s
    case Held => Held
    case Root(_) => Root(r)
    case Mid(_, a) => Mid(r, a)
    case Low(_, a, b) => Low(r, a, b)
    case Leaf(_, v) => Leaf(r, v)
  }

  ghost function AllRenamed(S: set<Slot>, r: nat): set<Slot> {
    set s | s in S :: Renamed(s, r)
  }

  lemma {:induction false} SameSize(S: set<Slot>, r: nat, c: nat)
    requires forall s :: s in S ==> !s.Held? && s.r == r
    ensures |AllRenamed(S, c)| == |S|
  {
    if S == {} {
      assert AllRenamed(S, c) == {};
    } else {
      var s :| s in S;
      SameSize(S - {s}, r, c);
      assert AllRenamed(S, c) == AllRenamed(S - {s}, c) + {Renamed(s, c)};
      assert Renamed(s, c) !in AllRenamed(S - {s}, c);
    }
  }

  ghost function ForkSlots(pages: set<nat>, c: nat): set<Slot> {
    Paths(c, pages) + Tables(c, TRAMPOLINE)
  }

  lemma ForkSlot(pages: set<nat>, c: nat, d: nat, t: Slot)
    requires t in ForkSlots(pages, c)
    ensures Renamed(t, d) in ForkSlots(pages, d) && t == Renamed(Renamed(t, d), c) && !t.Held? && !t.Root? && t.r == c
  {
    hide Top, Mid9;
    if t in Paths(c, pages) {
      var j :| j in pages && t in Path(c, j);
      assert Renamed(t, d) in Path(d, j);
    }
  }

  /** Whatever the root of the child will be. */
  lemma ForkAnyRoot(pages: set<nat>, c: nat)
    ensures ForkNeed(pages) == 1 + |ForkSlots(pages, c)|
  {
    var S, T := ForkSlots(pages, 0), ForkSlots(pages, c);
    hide ForkSlots;
    forall t | t in T
      ensures t in AllRenamed(S, c)
    {
      ForkSlot(pages, c, 0, t);
    }
    forall s | s in S
      ensures Renamed(s, c) in T && !s.Held? && s.r == 0
    {
      ForkSlot(pages, 0, c, s);
    }
    SameSize(S, 0, c);
    assert T == AllRenamed(S, c);
  }

  /** The copy finds room exactly if the whole fork does. */
  lemma ForkRoom(owner: Owners, c: nat, pages: set<nat>, free0: nat, free1: nat)
    requires forall s: Slot :: !s.Held? && s.r == c ==> (s in owner.Values <==> s in FreshSlots(c))
    requires free0 >= 3 && free1 == free0 - 3
    ensures Need(owner, Paths(c, pages)) <= free1 <==> ForkNeed(pages) <= free0
  {
    ForkAnyRoot(pages, c);
    SharedTables(c);
    hide ForkNeed, Tables, Top, Mid9;
    var P, T := Paths(c, pages), Tables(c, TRAMPOLINE);
    forall s | s in P
      ensures s in owner.Values <==> s in T
    {
      assert s in ForkSlots(pages, c);
      ForkSlot(pages, c, c, s);
    }
    hide Paths;
    assert Lacking(owner, P) == P - T;
    assert P + T == (P - T) + T;
  }

  lemma ForkAtLeast(pages: set<nat>)
    ensures ForkNeed(pages) >= 3
  {
    SharedTables(0);
    var P, T := Paths(0, pages), Tables(0, TRAMPOLINE);
    assert P + T == (P - T) + T;
  }
}
