/** The free list of pages, and what the operations on page tables promise. */
module VmSpec {
  import opened VmPte
  import opened VmTable

  function Head(free: seq<nat>): (p: nat) {
    if free == [] then 0 else free[0]
  }

  function Next(free: seq<nat>, i: nat): (p: nat) {
    if i + 1 < |free| then free[i + 1] else 0
  }

  ghost predicate LinkAt(mem: Mem, free: seq<nat>, i: nat) {
    i < |free| && free[i] < |mem| && mem[free[i]] == Link(Next(free, i))
  }

  /** The free list runs through the pages on it. */
  ghost predicate Linked(mem: Mem, free: seq<nat>) {
    && (forall i: nat :: i < |free| ==> LinkAt(mem, free, i))
    && (forall i, j :: 0 <= i < j < |free| ==> free[i] != free[j])
  }

  /** Every page from lo on is on the free list or owned, not both. */
  ghost predicate Parted(n: nat, free: seq<nat>, owner: Owners, lo: nat) {
    && (forall p :: p in free ==> lo <= p < n && p !in owner)
    && (forall p :: p in owner ==> lo <= p < n)
    && (forall p :: lo <= p < n ==> p in owner || p in free)
  }

  ghost predicate Kmem(mem: Mem, freelist: nat, free: seq<nat>, owner: Owners, lo: nat) {
    0 < lo <= |mem| && freelist == Head(free) && Linked(mem, free) && Parted(|mem|, free, owner, lo)
  }

  lemma LinkedTake(mem: Mem, free: seq<nat>)
    requires Linked(mem, free) && free != []
    ensures free[0] < |mem| && Linked(mem[free[0] := Junk], free[1..]) && mem[free[0]] == Link(Head(free[1..]))
      && free[0] !in free[1..]
  {
    var rest := free[1..];
    assert LinkAt(mem, free, 0);
    forall i: nat | i < |rest|
      ensures rest[i] != free[0] && LinkAt(mem[free[0] := Junk], rest, i)
    {
      assert LinkAt(mem, free, i + 1);
    }
  }

  lemma KmemTake(mem: Mem, free: seq<nat>, owner: Owners, lo: nat)
    requires Kmem(mem, Head(free), free, owner, lo) && free != []
    ensures 0 < free[0] < |mem| && Kmem(mem[free[0] := Junk], Head(free[1..]), free[1..], owner[free[0] := Held], lo)
    ensures mem[free[0]] == Link(Head(free[1..])) && free[0] !in owner && lo <= free[0]
  {
    hide Linked;
    LinkedTake(mem, free);
    assert free == [free[0]] + free[1..];
    assert forall p :: p in free <==> p == free[0] || p in free[1..];
  }

  lemma LinkedGive(mem: Mem, free: seq<nat>, p: nat)
    requires Linked(mem, free) && p !in free && p < |mem|
    ensures Linked(mem[p := Link(Head(free))], [p] + free)
  {
    var free' := [p] + free;
    var mem' := mem[p := Link(Head(free))];
    forall i: nat | i < |free'|
      ensures LinkAt(mem', free', i)
    {
      if i > 0 {
        assert LinkAt(mem, free, i - 1) && free[i - 1] in free;
      }
    }
  }

  lemma KmemGive(mem: Mem, free: seq<nat>, owner: Owners, lo: nat, p: nat)
    requires Kmem(mem, Head(free), free, owner, lo) && p in owner
    ensures lo <= p < |mem| && Kmem(mem[p := Link(Head(free))], p, [p] + free, owner - {p}, lo)
  {
    hide Linked;
    LinkedGive(mem, free, p);
  }

  /** Owned pages may change contents and owners. */
  lemma KmemKeeps(mem: Mem, freelist: nat, free: seq<nat>, owner: Owners, lo: nat, mem': Mem, owner': Owners)
    requires Kmem(mem, freelist, free, owner, lo) && |mem'| == |mem| && owner'.Keys == owner.Keys
    requires forall q :: 0 <= q < |mem| && q !in owner ==> mem'[q] == mem[q]
    ensures Kmem(mem', freelist, free, owner', lo)
  {
    assert forall q :: q in owner' <==> q in owner'.Keys;
    assert forall q :: q in owner <==> q in owner.Keys;
    forall i: nat | i < |free|
      ensures LinkAt(mem', free, i)
    {
      assert LinkAt(mem, free, i) && free[i] in free;
    }
  }

  /** walk with alloc: tables may have been added below r; no page is mapped
      otherwise than before, and no page that is not a table has changed. */
  ghost predicate Grown(mem: Mem, owner: Owners, mem': Mem, owner': Owners, r: nat) {
    && |mem'| == |mem|
    && (forall q :: q in owner ==> q in owner' && owner'[q] == owner[q])
    && (forall q :: q in owner && q < |mem| && !IsTable(owner[q]) ==> mem'[q] == mem[q])
    && (forall q :: q in owner' && q !in owner ==> (owner'[q].Mid? || owner'[q].Low?) && owner'[q].r == r)
    && (forall x: Slot :: x.Leaf? && Live(owner, x) ==> Pte(mem', x) == Pte(mem, x))
  }

  lemma GrownSelf(mem: Mem, owner: Owners, r: nat)
    ensures Grown(mem, owner, mem, owner, r)
  {
  }

  lemma GrownTwice(mem: Mem, owner: Owners, mem1: Mem, owner1: Owners, mem2: Mem, owner2: Owners, r: nat)
    requires Grown(mem, owner, mem1, owner1, r) && Grown(mem1, owner1, mem2, owner2, r)
    ensures Grown(mem, owner, mem2, owner2, r)
  {
    hide Pte, IsEntry;
    forall x: Slot | x.Leaf? && Live(owner, x)
      ensures Pte(mem2, x) == Pte(mem, x)
    {
      assert Live(owner1, x);
    }
  }

  /** The slot of the table that walk has reached when level levels are left. */
  ghost function Step(r: nat, v: nat, level: nat): (s: Slot)
    requires level <= 2
    ensures IsTable(s) && s.r == r && (s.Root? || IsEntry(s))
  {
    if level == 2 then Root(r) else if level == 1 then Mid(r, Top(v)) else Low(r, Top(v), Mid9(v))
  }

  /** PX(level, va) */
  function Px(level: nat, v: nat): (i: nat)
    requires level <= 2
    ensures i < PTES
  {
    if level == 2 then Top(v) else if level == 1 then Mid9(v) else Low9(v)
  }

  /** One level of walk, when the table is there. */
  lemma WalkDown(mem: Mem, owner: Owners, r: nat, v: nat, level: nat)
    requires PtOk(mem, owner) && IsRoot(owner, r) && 0 < level <= 2 && Base(mem, Step(r, v, level)) < |mem|
    ensures mem[Base(mem, Step(r, v, level))].Words?
    ensures var e := mem[Base(mem, Step(r, v, level))].w[Px(level, v)];
            && Live(owner, Step(r, v, level - 1)) && Parent(Step(r, v, level - 1)) == Step(r, v, level)
            && Index(Step(r, v, level - 1)) == Px(level, v) && Pte(mem, Step(r, v, level - 1)) == e
            && Base(mem, Step(r, v, level - 1)) == (if Valid(e) then Ppn(e) else |mem|)
            && (Valid(e) ==> Ppn(e) < |mem| && Ppn(e) in owner)
  {
    BaseOwned(mem, owner, Step(r, v, level));
    assert SlotOk(mem, owner, Step(r, v, level - 1));
  }

  lemma {:induction false} WalkBlocked(mem: Mem, r: nat, v: nat, level: nat)
    requires level <= 2 && v < ALLVPN && Base(mem, Step(r, v, level)) >= |mem|
    ensures Base(mem, Step(r, v, 0)) >= |mem| && Pte(mem, Leaf(r, v)) == 0
    decreases level
  {
    if level > 0 {
      var s := Step(r, v, level - 1);
      assert Pte(mem, s) == Entry(mem, Base(mem, Parent(s)), Index(s)) == 0;
      WalkBlocked(mem, r, v, level - 1);
    }
  }

  /** The page that kalloc gave is made a table and put into slot s. */
  lemma AddTable(mem: Mem, owner: Owners, s: Slot, p: nat, r: nat, mem': Mem)
    requires PtOk(mem, owner) && HasSlot(mem, owner, s) && (s.Mid? || s.Low?) && s.r == r && !Valid(Pte(mem, s))
    requires p !in owner && p < |mem| && mem[Base(mem, Parent(s))].Words?
    requires var b := Base(mem, Parent(s));
             mem' == mem[p := Words(NoEntries())][b := Words(mem[b].w[Index(s) := MakePte(p, 0)])]
    ensures PtOk(mem', owner[p := s]) && Base(mem', s) == p && Grown(mem, owner, mem', owner[p := s], r)
  {
    hide PtOk, Valid, MakePte, IsEntry, Ppn, Pte, NoEntries, Frame;
    var b := Base(mem, Parent(s));
    SlotHas(mem, owner, s);
    var mem1, owner1 := mem[p := Words(NoEntries())], owner[p := Held];
    FrameKeeps(mem, owner, mem1, owner1);
    BaseKept(mem, owner, mem1, owner1, Parent(s));
    InstallKeeps(mem1, owner1, s, p);
    assert owner1[p := s] == owner[p := s];
  }

  lemma BaseKept(mem: Mem, owner: Owners, mem': Mem, owner': Owners, s: Slot)
    requires IsTable(s) && (s.Root? || IsEntry(s)) && IsRoot(owner', s.r) && |mem'| == |mem|
    requires forall x :: Live(owner', x) ==> Pte(mem', x) == Pte(mem, x)
    ensures Base(mem', s) == Base(mem, s)
  {
    if !s.Root? {
      assert Live(owner', s);
    }
  }

  // ---- mappages ----

  ghost predicate In(x: Slot, r: nat, v: nat, n: nat) {
    x.Leaf? && x.r == r && v <= x.v < v + n
  }

  /** Whom page q belongs to once the pages p .. p + n are mapped at v .. v + n. */
  ghost function MappedOwner(s: Slot, q: nat, r: nat, v: nat, n: nat, p: nat): Slot {
    if s == Held && p <= q < p + n && Owns(Leaf(r, v + (q - p))) then Leaf(r, v + (q - p)) else s
  }

  ghost predicate MapsPages(mem: Mem, owner: Owners, mem': Mem, owner': Owners, r: nat, v: nat, n: nat, p: nat) {
    && |mem'| == |mem|
    && (forall q :: q in owner ==> q in owner' && owner'[q] == MappedOwner(owner[q], q, r, v, n, p))
    && (forall q :: q in owner && q < |mem| && !IsTable(owner[q]) ==> mem'[q] == mem[q])
    && (forall q :: q in owner' && q !in owner ==> (owner'[q].Mid? || owner'[q].Low?) && owner'[q].r == r)
  }

  ghost predicate MapsPtes(mem: Mem, owner: Owners, mem': Mem, r: nat, v: nat, n: nat, p: nat, perm: nat)
    requires perm < 1024
  {
    forall x: Slot :: x.Leaf? && Live(owner, x) ==>
      Pte(mem', x) == if In(x, r, v, n) then MakePte(p + (x.v - v), perm) else Pte(mem, x)
  }

  /** Exactly the n pages from v on of table r have been mapped, to p, p + 1, ... */
  ghost predicate MapsTo(mem: Mem, owner: Owners, mem': Mem, owner': Owners, r: nat, v: nat, n: nat, p: nat, perm: nat)
    requires perm < 1024
  {
    MapsPages(mem, owner, mem', owner', r, v, n, p) && MapsPtes(mem, owner, mem', r, v, n, p, perm)
  }

  lemma MapsNothing(mem: Mem, owner: Owners, r: nat, v: nat, p: nat, perm: nat)
    requires perm < 1024
    ensures MapsTo(mem, owner, mem, owner, r, v, 0, p, perm)
  {
  }

  lemma MapsGrown(mem: Mem, owner: Owners, m1: Mem, o1: Owners, mem': Mem, owner': Owners, r: nat, v: nat, n: nat,
                  p: nat, perm: nat)
    requires perm < 1024 && MapsTo(mem, owner, m1, o1, r, v, n, p, perm) && Grown(m1, o1, mem', owner', r)
    ensures MapsTo(mem, owner, mem', owner', r, v, n, p, perm)
  {
    hide Pte, IsEntry, MakePte;
    forall x: Slot | x.Leaf? && Live(owner, x)
      ensures Pte(mem', x) == if In(x, r, v, n) then MakePte(p + (x.v - v), perm) else Pte(mem, x)
    {
      assert Live(o1, x);
    }
  }

  lemma MapsPagesMore(mem: Mem, owner: Owners, m1: Mem, o1: Owners, m2: Mem, o2: Owners, r: nat, v: nat, n: nat, p: nat)
    requires MapsPages(mem, owner, m1, o1, r, v, n, p) && |m2| == |m1|
    requires forall q :: q in o1 && q < |m1| && !IsTable(o1[q]) ==> m2[q] == m1[q]
    requires if Owns(Leaf(r, v + n)) then p + n in owner && owner[p + n] == Held && o2 == o1[p + n := Leaf(r, v + n)]
             else o2 == o1
    ensures MapsPages(mem, owner, m2, o2, r, v, n + 1, p)
  {
  }

  lemma MapsPtesMore(mem: Mem, owner: Owners, m1: Mem, o1: Owners, m2: Mem, r: nat, v: nat, n: nat, p: nat, perm: nat)
    requires perm < 1024 && MapsTo(mem, owner, m1, o1, r, v, n, p, perm)
    requires v + n < ALLVPN && Pte(m2, Leaf(r, v + n)) == MakePte(p + n, perm)
    requires forall x :: Live(o1, x) && x != Leaf(r, v + n) ==> Pte(m2, x) == Pte(m1, x)
    ensures MapsPtes(mem, owner, m2, r, v, n + 1, p, perm)
  {
    hide Pte, MakePte, IsEntry;
    forall x: Slot | x.Leaf? && Live(owner, x)
      ensures Pte(m2, x) == if In(x, r, v, n + 1) then MakePte(p + (x.v - v), perm) else Pte(mem, x)
    {
      assert Live(o1, x);
    }
  }

  /** One more page, into the slot that walk has found. */
  lemma MapsMore(mem: Mem, owner: Owners, m1: Mem, o1: Owners, r: nat, v: nat, n: nat, p: nat, perm: nat, e: nat)
    returns (m2: Mem, o2: Owners)
    requires perm < 1024 && MapsTo(mem, owner, m1, o1, r, v, n, p, perm) && PtOk(m1, o1) && IsLeaf(perm)
    requires v + n < ALLVPN && HasSlot(m1, o1, Leaf(r, v + n)) && m1[Base(m1, Parent(Leaf(r, v + n)))].Words?
    requires Live(owner, Leaf(r, v + n)) && !Valid(Pte(mem, Leaf(r, v + n))) && e == MakePte(p + n, perm)
    requires Owns(Leaf(r, v + n)) ==> p + n in owner && owner[p + n] == Held && p + n < |mem| && mem[p + n].Bytes?
    ensures m2 == SetPte(m1, Leaf(r, v + n), e)
      && o2 == (if Owns(Leaf(r, v + n)) then o1[p + n := Leaf(r, v + n)] else o1)
    ensures PtOk(m2, o2) && MapsTo(mem, owner, m2, o2, r, v, n + 1, p, perm)
  {
    var s := Leaf(r, v + n);
    m2, o2 := SetPte(m1, s, e), if Owns(s) then o1[p + n := s] else o1;
    MadePte(p + n, perm);
    hide MakePte, Valid, Ppn, IsLeaf, PtOk;
    SlotHas(m1, o1, s);
    assert Pte(m1, s) == Pte(mem, s);
    MapKeeps(m1, o1, s, p + n, e);
    MapsPtesMore(mem, owner, m1, o1, m2, r, v, n, p, perm);
    MapsPagesMore(mem, owner, m1, o1, m2, o2, r, v, n, p);
  }

  // ---- uvmunmap ----

  ghost predicate UnmapsPages(mem: Mem, owner: Owners, mem': Mem, owner': Owners, r: nat, v: nat, n: nat,
                              doFree: bool) {
    && |mem'| == |mem|
    && (forall q :: q in owner' ==> q in owner)
    && (forall q :: q in owner && In(owner[q], r, v, n) && doFree ==> q !in owner')
    && (forall q :: q in owner && !(In(owner[q], r, v, n) && doFree) ==>
          q in owner' && owner'[q] == (if In(owner[q], r, v, n) then Held else owner[q]))
    && (forall q :: q in owner' && q in owner && q < |mem| && !IsTable(owner[q]) ==> mem'[q] == mem[q])
  }

  ghost predicate UnmapsPtes(mem: Mem, owner: Owners, mem': Mem, r: nat, v: nat, n: nat) {
    forall x: Slot :: x.Leaf? && Live(owner, x) ==>
      Pte(mem', x) == if In(x, r, v, n) then 0 else Pte(mem, x)
  }

  /** Exactly the n pages from v on of table r have been unmapped, and their frames
      freed or left in the kernel's hands. */
  ghost predicate Unmaps(mem: Mem, owner: Owners, mem': Mem, owner': Owners, r: nat, v: nat, n: nat, doFree: bool) {
    UnmapsPages(mem, owner, mem', owner', r, v, n, doFree) && UnmapsPtes(mem, owner, mem', r, v, n)
  }

  lemma UnmapsNothing(mem: Mem, owner: Owners, r: nat, v: nat, doFree: bool)
    ensures Unmaps(mem, owner, mem, owner, r, v, 0, doFree)
  {
  }

  /** A page that was not mapped. */
  lemma UnmapsHole(mem: Mem, owner: Owners, m1: Mem, o1: Owners, r: nat, v: nat, n: nat, doFree: bool)
    requires PtOk(mem, owner) && Unmaps(mem, owner, m1, o1, r, v, n, doFree) && v + n < ALLVPN
    requires Live(owner, Leaf(r, v + n)) && !Valid(Pte(m1, Leaf(r, v + n)))
    ensures Unmaps(mem, owner, m1, o1, r, v, n + 1, doFree)
  {
    hide Valid, Ppn;
    var s := Leaf(r, v + n);
    assert Pte(m1, s) == Pte(mem, s);
    assert SlotOk(mem, owner, s);
    forall q | q in owner
      ensures owner[q] != s
    {
      assert PageOk(mem, owner, q);
    }
  }

  lemma PagesMore(mem: Mem, owner: Owners, m1: Mem, o1: Owners, m2: Mem, o2: Owners, r: nat, v: nat, n: nat,
                  doFree: bool, p: nat)
    requires UnmapsPages(mem, owner, m1, o1, r, v, n, doFree) && |m2| == |mem|
    requires forall q :: q in owner && owner[q] == Leaf(r, v + n) ==> q == p
    requires if Owns(Leaf(r, v + n)) then p in owner && owner[p] == Leaf(r, v + n)
                                          && o2 == (if doFree then o1 - {p} else o1[p := Held])
             else o2 == o1 && forall q :: q in owner ==> owner[q] != Leaf(r, v + n)
    requires forall q :: q in o1 && q < |m1| && !IsTable(o1[q]) && q in o2 ==> m2[q] == m1[q]
    ensures UnmapsPages(mem, owner, m2, o2, r, v, n + 1, doFree)
  {
  }

  /** A page that was: its entry is cleared, and the frame freed if asked for. */
  lemma UnmapsMore(mem: Mem, owner: Owners, m1: Mem, o1: Owners, r: nat, v: nat, n: nat, doFree: bool, link: nat)
    returns (m2: Mem, o2: Owners)
    requires PtOk(mem, owner) && Unmaps(mem, owner, m1, o1, r, v, n, doFree) && PtOk(m1, o1) && v + n < ALLVPN
    requires HasSlot(m1, o1, Leaf(r, v + n)) && m1[Base(m1, Parent(Leaf(r, v + n)))].Words?
    requires Live(owner, Leaf(r, v + n)) && Valid(Pte(m1, Leaf(r, v + n))) && (doFree ==> Owns(Leaf(r, v + n)))
    ensures var s, p := Leaf(r, v + n), Ppn(Pte(m1, Leaf(r, v + n)));
            && (Owns(s) ==> p < |m1| && p in o1 && p != Base(m1, Parent(s)))
            && m2 == (if doFree then SetPte(m1, s, 0)[p := Link(link)] else SetPte(m1, s, 0))
            && o2 == (if doFree then o1 - {p} else if Owns(s) then o1[p := Held] else o1)
    ensures PtOk(m2, o2) && Unmaps(mem, owner, m2, o2, r, v, n + 1, doFree)
  {
    var s := Leaf(r, v + n);
    var p := Ppn(Pte(m1, s));
    assert !Valid(0);
    hide Valid, Ppn, IsLeaf, PtOk, Pte, SetPte, IsEntry, UnmapsPtes, UnmapsPages;
    SamePage(mem, owner, m1, r, v, n);
    OneFrame(mem, owner, s);
    OneFrame(m1, o1, s);
    UnmapKeeps(m1, o1, s);
    m2, o2 := SetPte(m1, s, 0), if Owns(s) then o1[p := Held] else o1;
    OtherPages(m1, o1, s, 0);
    PtesMore(mem, owner, m1, o1, r, v, n, doFree, m2);
    FramesHere(mem, owner, m1, o1, r, v, n, doFree, p);
    if doFree {
      RootsKept(mem, owner, m1, o1, r, v, n, doFree, p);
      FreeFrame(mem, owner, m2, o2, r, v, n + 1, p, link);
      m2, o2 := m2[p := Link(link)], o2 - {p};
      assert o2 == o1 - {p};
    }
    PagesMore(mem, owner, m1, o1, m2, o2, r, v, n, doFree, p);
  }

  lemma RootsKept(mem: Mem, owner: Owners, m1: Mem, o1: Owners, r: nat, v: nat, n: nat, doFree: bool, p: nat)
    requires UnmapsPages(mem, owner, m1, o1, r, v, n, doFree) && (p in o1 ==> o1[p].Leaf?)
    ensures forall q :: q in owner && owner[q].Root? ==> q in o1[p := Held] && o1[p := Held][q] == owner[q]
  {
  }

  lemma FramesHere(mem: Mem, owner: Owners, m1: Mem, o1: Owners, r: nat, v: nat, n: nat, doFree: bool, p: nat)
    requires UnmapsPages(mem, owner, m1, o1, r, v, n, doFree)
    ensures |m1| == |mem| && (p in o1 && o1[p] == Leaf(r, v + n) ==> p in owner && owner[p] == Leaf(r, v + n))
  {
  }

  lemma SamePage(mem: Mem, owner: Owners, m1: Mem, r: nat, v: nat, n: nat)
    requires UnmapsPtes(mem, owner, m1, r, v, n) && v + n < ALLVPN && Live(owner, Leaf(r, v + n))
    ensures Pte(m1, Leaf(r, v + n)) == Pte(mem, Leaf(r, v + n))
  {
    hide Pte;
  }

  /** Setting an entry changes no page but a table. */
  lemma OtherPages(mem: Mem, owner: Owners, s: Slot, e: nat)
    requires PtOk(mem, owner) && HasSlot(mem, owner, s) && mem[Base(mem, Parent(s))].Words?
    ensures Base(mem, Parent(s)) in owner && owner[Base(mem, Parent(s))] == Parent(s)
    ensures forall q :: q in owner && q < |mem| && !IsTable(owner[q]) ==> SetPte(mem, s, e)[q] == mem[q]
  {
    hide Pte;
    SlotHas(mem, owner, s);
  }

  lemma FreeFrame(mem: Mem, owner: Owners, m2: Mem, o2: Owners, r: nat, v: nat, n: nat, p: nat, link: nat)
    requires PtOk(m2, o2) && UnmapsPtes(mem, owner, m2, r, v, n) && p in o2 && o2[p] == Held && p < |m2|
    requires forall q :: q in owner && owner[q].Root? ==> q in o2 && o2[q] == owner[q]
    ensures PtOk(m2[p := Link(link)], o2 - {p}) && UnmapsPtes(mem, owner, m2[p := Link(link)], r, v, n)
  {
    FrameKeeps(m2, o2, m2[p := Link(link)], o2 - {p});
    PtesKept(mem, owner, m2, r, v, n, m2[p := Link(link)], o2 - {p});
  }

  /** The frame of a mapped page, and no other page, belongs to its slot. */
  lemma OneFrame(mem: Mem, owner: Owners, s: Slot)
    requires PtOk(mem, owner) && Live(owner, s) && s.Leaf? && Valid(Pte(mem, s))
    ensures forall q :: q in owner && owner[q] == s ==> q == Ppn(Pte(mem, s)) && Owns(s)
    ensures Owns(s) ==> Ppn(Pte(mem, s)) in owner && owner[Ppn(Pte(mem, s))] == s && Ppn(Pte(mem, s)) < |mem|
  {
    assert SlotOk(mem, owner, s);
    forall q | q in owner && owner[q] == s
      ensures q == Ppn(Pte(mem, s)) && Owns(s)
    {
      assert PageOk(mem, owner, q);
    }
  }

  lemma PtesKept(mem: Mem, owner: Owners, m1: Mem, r: nat, v: nat, n: nat, m2: Mem, o2: Owners)
    requires UnmapsPtes(mem, owner, m1, r, v, n) && forall x :: Live(o2, x) ==> Pte(m2, x) == Pte(m1, x)
    requires forall q :: q in owner && owner[q].Root? ==> q in o2 && o2[q] == owner[q]
    ensures UnmapsPtes(mem, owner, m2, r, v, n)
  {
    hide Pte, IsEntry, Valid;
    forall x: Slot | x.Leaf? && Live(owner, x)
      ensures Pte(m2, x) == Pte(m1, x)
    {
      assert Live(o2, x);
    }
  }

  lemma PtesMore(mem: Mem, owner: Owners, m1: Mem, o1: Owners, r: nat, v: nat, n: nat, doFree: bool, m2: Mem)
    requires Unmaps(mem, owner, m1, o1, r, v, n, doFree) && v + n < ALLVPN && !Valid(0)
    requires Valid(Pte(m1, Leaf(r, v + n))) && Pte(m2, Leaf(r, v + n)) == 0
    requires forall x :: Live(o1, x) && x != Leaf(r, v + n) ==> Pte(m2, x) == Pte(m1, x)
    ensures UnmapsPtes(mem, owner, m2, r, v, n + 1)
  {
    hide Valid, Pte, IsEntry;
    forall x: Slot | x.Leaf? && Live(owner, x)
      ensures Pte(m2, x) == if In(x, r, v, n + 1) then 0 else Pte(mem, x)
    {
      assert Live(o1, x);
    }
  }

  // ---- freewalk ----

  /** Entry i of the table for slot s. */
  ghost function Sub(s: Slot, i: nat): (x: Slot)
    requires IsTable(s) && (s.Root? || IsEntry(s)) && i < PTES
    ensures IsEntry(x) && Parent(x) == s && Index(x) == i && x.r == s.r && Rank(x) == Rank(s) + 1
  {
    match s
    case Root(r) => Mid(r, i)
    case Mid(r, a) => Low(r, a, i)
    case Low(r, a, b) => JoinSplit(a, b, i); Leaf(r, Join(a, b, i))
  }

  ghost predicate NoLeaves(mem: Mem, owner: Owners, s: Slot) {
    forall x: Slot :: x.Leaf? && Live(owner, x) && Below(s, x) ==> !Valid(Pte(mem, x))
  }

  /** Nothing has been mapped since, and what has gone was below s. */
  ghost predicate Shrunk(mem: Mem, owner: Owners, mem': Mem, owner': Owners, s: Slot) {
    && |mem'| == |mem|
    && (forall q :: q in owner' ==> q in owner && owner'[q] == owner[q])
    && (forall q :: q in owner && !Below(s, owner[q]) ==> q in owner')
    && (forall q :: q in owner' && q < |mem| && owner[q] != s ==> mem'[q] == mem[q])
  }

  /** Every valid entry was there before. */
  ghost predicate Fewer(mem: Mem, mem': Mem, owner': Owners) {
    forall x :: Live(owner', x) && Valid(Pte(mem', x)) ==> Pte(mem', x) == Pte(mem, x)
  }

  ghost predicate EmptyUpTo(w: Table, n: nat) {
    forall i :: 0 <= i < n && i < PTES ==> !Valid(w[i])
  }

  ghost predicate HasLeaf(p: Page) {
    p.Words? && exists i :: 0 <= i < PTES && Valid(p.w[i])
  }

  /** No level-0 table that maps a page has gone. */
  ghost predicate LeavesStay(mem: Mem, owner: Owners, owner': Owners) {
    forall q :: q in owner && owner[q].Low? && q < |mem| && HasLeaf(mem[q]) ==> q in owner'
  }

  lemma LeavesStayTwice(mem: Mem, owner: Owners, m1: Mem, o1: Owners, o2: Owners, s: Slot)
    requires LeavesStay(mem, owner, o1) && Shrunk(mem, owner, m1, o1, s) && LeavesStay(m1, o1, o2) && !s.Low?
    ensures LeavesStay(mem, owner, o2)
  {
    hide HasLeaf, Below;
  }

  /** The table itself goes, once all its entries are cleared. */
  lemma LeavesStayLast(mem: Mem, owner: Owners, m1: Mem, o1: Owners, pt: nat, s: Slot)
    requires LeavesStay(mem, owner, o1) && pt in owner && owner[pt] == s && pt < |m1| && m1[pt].Words?
    requires EmptyUpTo(m1[pt].w, PTES) && (s.Low? ==> m1 == mem)
    ensures LeavesStay(mem, owner, o1 - {pt})
  {
    assert s.Low? ==> !HasLeaf(m1[pt]);
    hide HasLeaf;
  }

  /** With all pages of s gone, and no table with leaves among them, there were none. */
  lemma NoLeavesBelow(mem: Mem, owner: Owners, mem': Mem, owner': Owners, pt: nat, s: Slot)
    requires PtOk(mem, owner) && pt in owner && owner[pt] == s && IsTable(s)
    requires LeavesStay(mem, owner, owner') && Gone(mem, owner, mem', owner', s)
    ensures NoLeaves(mem, owner, s)
  {
    assert !Valid(0);
    forall x: Slot | x.Leaf? && Live(owner, x) && Below(s, x)
      ensures !Valid(Pte(mem, x))
    {
      var t := Parent(x);
      if Base(mem, t) < |mem| {
        BaseOwned(mem, owner, t);
        UpFromLeaf(s, x);
        hide Above;
        assert Base(mem, t) !in owner';
        assert !HasLeaf(mem[Base(mem, t)]);
      }
    }
  }

  lemma UpFromLeaf(s: Slot, x: Slot)
    requires x.Leaf? && Below(s, x) && IsTable(s)
    ensures Parent(x) == s || Below(s, Parent(x))
  {
  }

  lemma BaseOf(mem: Mem, owner: Owners, q: nat)
    requires PtOk(mem, owner) && q in owner && IsTable(owner[q])
    ensures if owner[q].Root? then owner[q].r == q else IsEntry(owner[q])
    ensures Base(mem, owner[q]) == q && IsRoot(owner, owner[q].r) && q < |mem| && mem[q].Words?
  {
    assert PageOk(mem, owner, q);
    if !owner[q].Root? {
      assert SlotOk(mem, owner, owner[q]);
    }
  }

  /** Entry i of the table in page pt. */
  lemma SubEntry(mem: Mem, owner: Owners, pt: nat, s: Slot, i: nat)
    requires PtOk(mem, owner) && pt in owner && owner[pt] == s && IsTable(s) && i < PTES
    ensures (s.Root? || IsEntry(s)) && pt < |mem| && mem[pt].Words? && Base(mem, s) == pt
    ensures var x, e := Sub(s, i), mem[pt].w[i];
            && HasSlot(mem, owner, x) && Pte(mem, x) == e
            && (Valid(e) ==> (IsLeaf(e) <==> x.Leaf?))
            && (Valid(e) && !x.Leaf? ==> Ppn(e) in owner && owner[Ppn(e)] == x && Ppn(e) < |mem|)
  {
    BaseOf(mem, owner, pt);
    assert SlotOk(mem, owner, Sub(s, i));
  }

  lemma {:induction false} BelowMore(s: Slot, t: Slot, x: Slot)
    requires IsEntry(t) && Parent(t) == s && (Below(t, x) || x == t)
    ensures Below(s, x)
    decreases Rank(x)
  {
    if x != t && Parent(x) != t {
      BelowMore(s, t, Parent(x));
    }
    AboveIsHigher(s, x);
  }

  lemma {:induction false} AboveIsHigher(s: Slot, x: Slot)
    requires IsEntry(x) && Above(s, x)
    ensures s == x || Rank(s) < Rank(x)
    decreases Rank(x)
  {
    if s != x && s != Parent(x) {
      AboveIsHigher(s, Parent(x));
    }
  }

  lemma NoLeavesDown(mem: Mem, owner: Owners, s: Slot, t: Slot)
    requires IsEntry(t) && Parent(t) == s && NoLeaves(mem, owner, s)
    ensures NoLeaves(mem, owner, t)
  {
    forall x: Slot | x.Leaf? && Live(owner, x) && Below(t, x)
      ensures !Valid(Pte(mem, x))
    {
      BelowMore(s, t, x);
    }
  }

  lemma NoLeavesFewer(mem: Mem, owner: Owners, mem': Mem, owner': Owners, s: Slot)
    requires NoLeaves(mem, owner, s) && Fewer(mem, mem', owner')
    requires forall q :: q in owner' ==> q in owner && owner'[q] == owner[q]
    ensures NoLeaves(mem', owner', s)
  {
    hide Pte, IsEntry, Valid;
    forall x: Slot | x.Leaf? && Live(owner', x) && Below(s, x)
      ensures !Valid(Pte(mem', x))
    {
      assert Live(owner, x);
    }
  }

  lemma FewerTwice(mem: Mem, m1: Mem, o1: Owners, m2: Mem, o2: Owners)
    requires Fewer(mem, m1, o1) && Fewer(m1, m2, o2) && forall q :: q in o2 ==> q in o1 && o2[q] == o1[q]
    ensures Fewer(mem, m2, o2)
  {
    hide Pte, IsEntry, Valid;
    forall x | Live(o2, x) && Valid(Pte(m2, x))
      ensures Pte(m2, x) == Pte(mem, x)
    {
      assert Live(o1, x);
    }
  }

  /** The subtable in slot t below s is gone. */
  lemma ShrunkMore(mem: Mem, owner: Owners, m1: Mem, o1: Owners, m2: Mem, o2: Owners, s: Slot, t: Slot)
    requires IsEntry(t) && Parent(t) == s && Shrunk(mem, owner, m1, o1, s) && |m2| == |m1|
    requires forall q :: q in o2 ==> q in o1 && o2[q] == o1[q]
    requires forall q :: q in o1 && o1[q] != t && !Below(t, o1[q]) ==> q in o2
    requires forall q :: q in o2 && q < |m1| && o2[q] != s ==> m2[q] == m1[q]
    ensures Shrunk(mem, owner, m2, o2, s)
  {
    hide Above, IsEntry, Parent;
    forall q | q in owner && !Below(s, owner[q])
      ensures q in o2
    {
      assert q in o1;
      if o1[q] == t || Below(t, o1[q]) {
        BelowMore(s, t, o1[q]);
      }
    }
  }

  lemma AllEmpty(mem: Mem, owner: Owners, pt: nat, s: Slot)
    requires PtOk(mem, owner) && pt in owner && owner[pt] == s && IsTable(s) && pt < |mem| && mem[pt].Words?
    requires EmptyUpTo(mem[pt].w, PTES)
    ensures forall y :: IsEntry(y) && Parent(y) == s ==> !Valid(Pte(mem, y))
    ensures forall q :: q in owner && !owner[q].Held? ==> !Below(s, owner[q])
  {
    forall y | IsEntry(y) && Parent(y) == s
      ensures !Valid(Pte(mem, y))
    {
      SubEntry(mem, owner, pt, s, Index(y));
      SlotsDiffer(y, Sub(s, Index(y)));
    }
    forall q | q in owner && !owner[q].Held?
      ensures !Below(s, owner[q])
    {
      assert PageOk(mem, owner, q);
      if Below(s, owner[q]) {
        BelowEmpty(mem, owner, s, owner[q]);
      }
    }
  }

  /** The pages of slot s and below, and no others, are gone. */
  ghost predicate Gone(mem: Mem, owner: Owners, mem': Mem, owner': Owners, s: Slot) {
    && |mem'| == |mem|
    && (forall q :: q in owner' ==> q in owner && owner'[q] == owner[q])
    && (forall q :: q in owner' && q < |mem| ==> mem'[q] == mem[q])
    && (forall q :: q in owner ==> (q in owner' <==> owner[q] != s && !Below(s, owner[q])))
  }

  /** Clearing the entry of slot s is all that is missing. */
  ghost predicate Dangling(mem: Mem, mem': Mem, owner': Owners, s: Slot) {
    && (s.Mid? || s.Low?) && IsEntry(s) && Base(mem', Parent(s)) < |mem'| && mem'[Base(mem', Parent(s))].Words?
    && (forall b :: b in owner' && owner'[b] == Parent(s) ==> Base(mem', Parent(s)) == b)
    && PtOk(SetPte(mem', s, 0), owner') && Fewer(mem, SetPte(mem', s, 0), owner')
  }

  lemma GoneAfter(mem: Mem, owner: Owners, m1: Mem, o1: Owners, pt: nat, s: Slot, link: nat)
    requires PtOk(mem, owner) && Shrunk(mem, owner, m1, o1, s) && PtOk(m1, o1) && pt in o1 && o1[pt] == s && IsTable(s)
    requires pt < |m1| && m1[pt].Words? && EmptyUpTo(m1[pt].w, PTES)
    ensures Gone(mem, owner, m1[pt := Link(link)], o1 - {pt}, s)
  {
    hide Above, IsEntry, EmptyUpTo, PtOk;
    AllEmpty(m1, o1, pt, s);
    OneTable(mem, owner, pt);
    assert forall q :: q in o1 && o1[q].Held? ==> !Below(s, o1[q]) by {
      HeldNotBelow(s);
    }
  }

  lemma HeldNotBelow(s: Slot)
    ensures !Below(s, Held)
  {
  }

  lemma OneTable(mem: Mem, owner: Owners, pt: nat)
    requires PtOk(mem, owner)
    ensures forall q, t :: q in owner && t in owner && owner[q] == owner[t] && IsTable(owner[q]) ==> q == t
  {
    forall q, t | q in owner && t in owner && owner[q] == owner[t] && IsTable(owner[q])
      ensures q == t
    {
      assert PageOk(mem, owner, q) && PageOk(mem, owner, t);
    }
  }

  lemma DanglingAfter(mem: Mem, m1: Mem, o1: Owners, pt: nat, s: Slot, link: nat)
    requires PtOk(m1, o1) && pt in o1 && o1[pt] == s && (s.Mid? || s.Low?) && Fewer(mem, m1, o1)
    requires pt < |m1| && m1[pt].Words? && EmptyUpTo(m1[pt].w, PTES)
    ensures Dangling(mem, m1[pt := Link(link)], o1 - {pt}, s)
  {
    assert !Valid(0);
    hide EmptyUpTo, Valid, Ppn;
    AllEmpty(m1, o1, pt, s);
    FreeKeeps(m1, o1, s, pt, link);
    var m2 := SetPte(m1[pt := Link(link)], s, 0);
    forall x | Live(o1 - {pt}, x) && Valid(Pte(m2, x))
      ensures Pte(m2, x) == Pte(m1, x)
    {
      assert Live(o1, x);
    }
    FewerTwice(mem, m1, o1, m2, o1 - {pt});
    forall b | b in o1 - {pt} && o1[b] == Parent(s)
      ensures Base(m1[pt := Link(link)], Parent(s)) == b
    {
      BaseOf(m1, o1, b);
    }
  }

  lemma RootAfter(mem: Mem, m1: Mem, o1: Owners, r: nat, link: nat)
    requires PtOk(m1, o1) && IsRoot(o1, r) && Fewer(mem, m1, o1)
    requires r < |m1| && m1[r].Words? && EmptyUpTo(m1[r].w, PTES)
    ensures PtOk(m1[r := Link(link)], o1 - {r}) && Fewer(mem, m1[r := Link(link)], o1 - {r})
  {
    hide EmptyUpTo, Valid, Ppn;
    AllEmpty(m1, o1, r, Root(r));
    FreeRootKeeps(m1, o1, r, link);
    FewerTwice(mem, m1, o1, m1[r := Link(link)], o1 - {r});
  }

  /** One valid entry of freewalk's loop: the subtable is freed, the entry cleared. */
  lemma SubGone(m0: Mem, o0: Owners, m1: Mem, o1: Owners, m2: Mem, o2: Owners, m3: Mem, pt: nat, s: Slot, i: nat)
    requires PtOk(m1, o1) && Shrunk(m0, o0, m1, o1, s) && Fewer(m0, m1, o1) && pt in o1 && o1[pt] == s && IsTable(s)
    requires i < PTES && (s.Root? || IsEntry(s)) && pt < |m1| && m1[pt].Words?
    requires Gone(m1, o1, m2, o2, Sub(s, i)) && Dangling(m1, m2, o2, Sub(s, i))
    requires m3 == m2[pt := Words(m1[pt].w[i := 0])]
    ensures PtOk(m3, o2) && Shrunk(m0, o0, m3, o2, s) && Fewer(m0, m3, o2) && pt in o2 && o2[pt] == s
      && m2[pt] == m1[pt]
  {
    hide PtOk, Fewer, Shrunk, Pte, IsEntry;
    var t := Sub(s, i);
    AboveIsHigherAll(t, s);
    assert Base(m2, Parent(t)) == pt && m3 == SetPte(m2, t, 0);
    FewerTwice(m0, m1, o1, m3, o2);
    ShrunkMore(m0, o0, m1, o1, m3, o2, s, t);
  }

  lemma AboveIsHigherAll(t: Slot, s: Slot)
    requires Rank(s) < Rank(t) && IsEntry(t)
    ensures !Below(t, s) && t != s
  {
    if IsEntry(s) && Above(t, s) {
      AboveIsHigher(t, s);
    }
  }
}
