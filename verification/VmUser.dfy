/** Whole address spaces: what creating, growing, copying and freeing them does to
    the pages and the tables, and the bytes that user code sees. */
module VmUser {
  import opened VmPte
  import opened VmTable
  import opened VmSpec

  /** PGROUNDUP(sz) / PGSIZE */
  function Pages(sz: nat): (n: nat)
    ensures sz <= n * PGSIZE < sz + PGSIZE
  {
    (sz + PGSIZE - 1) / PGSIZE
  }

  ghost predicate Belongs(s: Slot, r: nat) {
    !s.Held? && s.r == r
  }

  // ---- uvmcreate and uvmfree ----

  lemma NewRootKeeps(mem: Mem, owner: Owners, r: nat)
    requires PtOk(mem, owner) && r !in owner && r < |mem|
    ensures var m, o := mem[r := Words(NoEntries())], owner[r := Root(r)];
            && PtOk(m, o) && (forall x :: Live(owner, x) ==> Pte(m, x) == Pte(mem, x))
            && (forall x :: IsEntry(x) && x.r == r ==> Pte(m, x) == 0)
    ensures forall q :: q in owner ==> !Belongs(owner[q], r)
  {
    var m, o := mem[r := Words(NoEntries())], owner[r := Root(r)];
    FrameKeeps(mem, owner, m, owner);
    NothingBelongs(mem, owner, r);
    NothingMapped(m, r);
    hide PtOk, Frame, NoEntries;
    RootAdded(m, owner, r);
  }

  lemma NothingMapped(mem: Mem, r: nat)
    requires r < |mem| && mem[r] == Words(NoEntries())
    ensures forall x :: IsEntry(x) && x.r == r ==> Pte(mem, x) == 0
  {
    hide NoEntries;
    forall x | IsEntry(x) && x.r == r
      ensures Pte(mem, x) == 0
    {
      EmptyRoot(mem, x);
    }
  }

  lemma NothingBelongs(mem: Mem, owner: Owners, r: nat)
    requires PtOk(mem, owner) && r !in owner
    ensures forall q :: q in owner ==> !Belongs(owner[q], r)
  {
    hide Pte, Valid, Ppn, Owns, IsEntry;
    forall q | q in owner
      ensures !Belongs(owner[q], r)
    {
      assert PageOk(mem, owner, q);
    }
  }

  /** A root that maps nothing, in a page that nobody owned. */
  lemma RootAdded(mem: Mem, owner: Owners, r: nat)
    requires PtOk(mem, owner) && r !in owner && r < |mem| && mem[r].Words?
    requires forall x :: IsEntry(x) && x.r == r ==> Pte(mem, x) == 0
    ensures PtOk(mem, owner[r := Root(r)])
  {
    var o := owner[r := Root(r)];
    assert !Valid(0);
    hide Pte, Valid, Ppn, Owns, IsEntry, IsLeaf;
    forall x
      ensures SlotOk(mem, o, x)
    {
      assert SlotOk(mem, owner, x);
    }
    forall q
      ensures PageOk(mem, o, q)
    {
      assert PageOk(mem, owner, q);
    }
  }

  lemma {:induction false} EmptyRoot(mem: Mem, x: Slot)
    requires IsEntry(x) && x.r < |mem| && mem[x.r] == Words(NoEntries())
    ensures Pte(mem, x) == 0
    decreases Rank(x)
  {
    if !Parent(x).Root? {
      EmptyRoot(mem, Parent(x));
    }
  }

  /** The pages of page table r, and no others, are gone; the rest is as it was. */
  ghost predicate Dropped(mem: Mem, owner: Owners, mem': Mem, owner': Owners, r: nat) {
    && |mem'| == |mem|
    && (forall q :: q in owner' <==> q in owner && !Belongs(owner[q], r))
    && (forall q :: q in owner' ==> owner'[q] == owner[q])
    && (forall q :: q in owner' && q < |mem| && !IsTable(owner[q]) ==> mem'[q] == mem[q])
    && (forall x: Slot :: x.Leaf? && Live(owner', x) ==> Pte(mem', x) == Pte(mem, x))
  }

  /** All pages that r maps are below n. */
  ghost predicate MappedBelow(mem: Mem, r: nat, n: nat) {
    forall v :: n <= v < ALLVPN ==> !Valid(Pte(mem, Leaf(r, v)))
  }

  /** After uvmunmap of the first n pages, freewalk meets a leaf exactly if one of the
      others is mapped. */
  lemma ReadyToFree(m0: Mem, o0: Owners, mem: Mem, owner: Owners, r: nat, n: nat)
    requires IsRoot(o0, r) && IsRoot(owner, r) && Unmaps(m0, o0, mem, owner, r, 0, n, true)
    ensures NoLeaves(mem, owner, Root(r)) <==> MappedBelow(m0, r, n)
  {
    assert !Valid(0);
    hide Valid, Pte;
    if MappedBelow(m0, r, n) {
      forall x: Slot | x.Leaf? && Live(owner, x) && Below(Root(r), x)
        ensures !Valid(Pte(mem, x))
      {
        UnderRoot(r, x);
      }
    }
    if NoLeaves(mem, owner, Root(r)) {
      forall v | n <= v < ALLVPN
        ensures !Valid(Pte(m0, Leaf(r, v)))
      {
        RootAbove(Leaf(r, v));
        assert Live(o0, Leaf(r, v)) && Live(owner, Leaf(r, v));
      }
    }
  }

  lemma {:induction false} UnderRoot(r: nat, x: Slot)
    requires Below(Root(r), x)
    ensures x.r == r
    decreases Rank(x)
  {
    if Parent(x) != Root(r) {
      UnderRoot(r, Parent(x));
    }
  }

  lemma DroppedAll(m0: Mem, o0: Owners, m1: Mem, o1: Owners, mem: Mem, owner: Owners, r: nat, n: nat)
    requires PtOk(m0, o0) && PtOk(m1, o1) && PtOk(mem, owner) && IsRoot(o0, r)
    requires Unmaps(m0, o0, m1, o1, r, 0, n, true) && Gone(m1, o1, mem, owner, Root(r))
    ensures Dropped(m0, o0, mem, owner, r)
  {
    hide Valid, Pte, PtOk;
    forall q | q in o1
      ensures Belongs(o1[q], r) <==> o1[q] == Root(r) || Below(Root(r), o1[q])
    {
      BelongsRoot(m1, o1, q, r);
    }
    forall q | q in o0
      ensures In(o0[q], r, 0, n) ==> Belongs(o0[q], r)
    {
    }
    forall x: Slot | x.Leaf? && Live(owner, x)
      ensures Pte(mem, x) == Pte(m0, x)
    {
      assert Live(o1, x) && Live(o0, x);
      SamePteBack(m1, o1, mem, owner, r, x);
      if x.r == r {
        BelongsRoot(mem, owner, r, r);
      }
    }
  }

  lemma BelongsRoot(mem: Mem, owner: Owners, q: nat, r: nat)
    requires PtOk(mem, owner) && q in owner
    ensures Belongs(owner[q], r) <==> owner[q] == Root(r) || Below(Root(r), owner[q])
  {
    assert PageOk(mem, owner, q);
    if IsEntry(owner[q]) {
      RootAbove(owner[q]);
      if Below(Root(r), owner[q]) {
        UnderRoot(r, owner[q]);
      }
    }
  }

  /** Entries of other page tables survive freewalk. */
  lemma {:induction false} SamePteBack(m1: Mem, o1: Owners, mem: Mem, owner: Owners, r: nat, x: Slot)
    requires PtOk(m1, o1) && PtOk(mem, owner) && Gone(m1, o1, mem, owner, Root(r)) && Live(owner, x)
    ensures Pte(mem, x) == Pte(m1, x)
    decreases Rank(x)
  {
    var p := Parent(x);
    assert Live(o1, x);
    if !p.Root? {
      SamePteBack(m1, o1, mem, owner, r, p);
    }
    if Base(mem, p) < |mem| {
      BaseOwned(mem, owner, p);
      BaseOwned(m1, o1, p);
    }
  }

  // ---- uvmalloc, uvmcopy and vmfault ----

  /** Frames for some of the n pages from v on of table r, and tables for them, have
      been added; nothing else has changed. */
  ghost predicate Added(mem: Mem, owner: Owners, mem': Mem, owner': Owners, r: nat, v: nat, n: nat) {
    && |mem'| == |mem|
    && (forall q :: q in owner ==> q in owner' && owner'[q] == owner[q])
    && (forall q :: q in owner && q < |mem| && !IsTable(owner[q]) ==> mem'[q] == mem[q])
    && (forall q :: q in owner' && q !in owner ==>
          ((owner'[q].Mid? || owner'[q].Low?) && owner'[q].r == r) || In(owner'[q], r, v, n))
    && (forall x: Slot :: x.Leaf? && Live(owner, x) && !In(x, r, v, n) ==> Pte(mem', x) == Pte(mem, x))
  }

  lemma AddedNothing(mem: Mem, owner: Owners, r: nat, v: nat)
    ensures Added(mem, owner, mem, owner, r, v, 0)
  {
  }

  /** Unmapping what was added leaves at most new tables. */
  lemma AddedUndone(m0: Mem, o0: Owners, m1: Mem, o1: Owners, mem: Mem, owner: Owners, r: nat, v: nat, n: nat)
    requires PtOk(m0, o0) && Added(m0, o0, m1, o1, r, v, n) && Unmaps(m1, o1, mem, owner, r, v, n, true)
    requires forall j :: v <= j < v + n && j < ALLVPN ==> !Valid(Pte(m0, Leaf(r, j)))
    ensures Grown(m0, o0, mem, owner, r)
  {
    hide Valid, Pte;
    forall q | q in o0
      ensures !In(o0[q], r, v, n)
    {
      assert PageOk(m0, o0, q);
    }
    forall x: Slot | x.Leaf? && Live(o0, x)
      ensures Pte(mem, x) == Pte(m0, x)
    {
      assert Live(o1, x);
      assert SlotOk(m0, o0, x);
    }
  }

  lemma AddedGrown(m0: Mem, o0: Owners, m1: Mem, o1: Owners, mem: Mem, owner: Owners, r: nat, v: nat, n: nat)
    requires Added(m0, o0, m1, o1, r, v, n) && Grown(m1, o1, mem, owner, r)
    ensures Added(m0, o0, mem, owner, r, v, n)
  {
    hide Pte, IsEntry;
    forall x: Slot | x.Leaf? && Live(o0, x) && !In(x, r, v, n)
      ensures Pte(mem, x) == Pte(m0, x)
    {
      assert Live(o1, x);
    }
  }

  lemma AddedMore(m0: Mem, o0: Owners, m1: Mem, o1: Owners, mem: Mem, owner: Owners, r: nat, v: nat, n: nat)
    requires Added(m0, o0, m1, o1, r, v, n) && Added(m1, o1, mem, owner, r, v + n, 1)
    ensures Added(m0, o0, mem, owner, r, v, n + 1)
  {
    hide Pte, IsEntry;
    forall x: Slot | x.Leaf? && Live(o0, x) && !In(x, r, v, n + 1)
      ensures Pte(mem, x) == Pte(m0, x)
    {
      assert Live(o1, x);
    }
  }

  lemma AddedSkip(m0: Mem, o0: Owners, m1: Mem, o1: Owners, r: nat, v: nat, n: nat)
    requires Added(m0, o0, m1, o1, r, v, n)
    ensures Added(m0, o0, m1, o1, r, v, n + 1)
  {
  }

  /** Page v of table r is mapped with these flags to a frame with these bytes. */
  ghost predicate Holds(mem: Mem, r: nat, v: nat, perm: nat, data: Data)
    requires v < ALLVPN && perm < 1024
  {
    var e := Pte(mem, Leaf(r, v));
    Ppn(e) < |mem| && e == MakePte(Ppn(e), perm) && mem[Ppn(e)] == Bytes(data)
  }

  /** kalloc, fill and mappages, all successful. */
  lemma NewFrame(m0: Mem, o0: Owners, p: nat, data: Data, mem: Mem, owner: Owners, r: nat, v: nat, perm: nat)
    requires PtOk(m0, o0) && p !in o0 && p < |m0| && IsRoot(o0, r) && v < TRAPFRAME && perm < 1024
    requires MapsTo(m0[p := Bytes(data)], o0[p := Held], mem, owner, r, v, 1, p, perm)
    ensures Added(m0, o0, mem, owner, r, v, 1) && Holds(mem, r, v, perm, data)
  {
    var m1, o1 := m0[p := Bytes(data)], o0[p := Held];
    FrameHeld(m0, o0, p, data);
    MadePte(p, perm);
    hide MakePte, Ppn, Pte, PtOk;
    assert Live(o1, Leaf(r, v));
    assert owner[p] == Leaf(r, v);
    FrameAdded(m0, o0, p, data, mem, owner, r, v, perm);
  }

  /** A page taken and filled is no part of any page table. */
  lemma FrameHeld(m0: Mem, o0: Owners, p: nat, data: Data)
    requires PtOk(m0, o0) && p !in o0 && p < |m0|
    ensures var m1, o1 := m0[p := Bytes(data)], o0[p := Held];
            PtOk(m1, o1) && forall x: Slot :: x.Leaf? && Live(o0, x) ==> Live(o1, x) && Pte(m1, x) == Pte(m0, x)
  {
    var m1, o1 := m0[p := Bytes(data)], o0[p := Held];
    FrameKeeps(m0, o0, m1, o1);
    hide Pte, PtOk;
  }

  lemma FrameAdded(m0: Mem, o0: Owners, p: nat, data: Data, mem: Mem, owner: Owners, r: nat, v: nat, perm: nat)
    requires p !in o0 && p < |m0| && v < TRAPFRAME && perm < 1024
    requires MapsTo(m0[p := Bytes(data)], o0[p := Held], mem, owner, r, v, 1, p, perm) && owner[p] == Leaf(r, v)
    requires forall x: Slot :: x.Leaf? && Live(o0, x) ==>
      Live(o0[p := Held], x) && Pte(m0[p := Bytes(data)], x) == Pte(m0, x)
    ensures Added(m0, o0, mem, owner, r, v, 1)
  {
    hide MakePte, Pte, IsEntry;
    var m1, o1 := m0[p := Bytes(data)], o0[p := Held];
    forall q | q in o0
      ensures q in owner && owner[q] == o0[q] && (q < |m0| && !IsTable(o0[q]) ==> mem[q] == m0[q])
    {
      assert q in o1 && o1[q] == o0[q] && q != p;
    }
    forall q | q in owner && q !in o0
      ensures ((owner[q].Mid? || owner[q].Low?) && owner[q].r == r) || In(owner[q], r, v, 1)
    {
      assert q != p ==> q !in o1;
    }
  }

  /** mappages failed, and the frame went back. */
  lemma NoFrame(m0: Mem, o0: Owners, p: nat, data: Data, m1: Mem, o1: Owners, r: nat, v: nat, perm: nat, link: nat)
    requires PtOk(m0, o0) && p !in o0 && p < |m0| && IsRoot(o0, r) && perm < 1024 && PtOk(m1, o1)
    requires MapsTo(m0[p := Bytes(data)], o0[p := Held], m1, o1, r, v, 0, p, perm)
    ensures p in o1 && p < |m1| && PtOk(m1[p := Link(link)], o1 - {p})
      && Grown(m0, o0, m1[p := Link(link)], o1 - {p}, r)
  {
    var m, o := m0[p := Bytes(data)], o0[p := Held];
    FrameKeeps(m0, o0, m, o);
    var m2, o2 := m1[p := Link(link)], o1 - {p};
    FrameKeeps(m1, o1, m2, o2);
    hide MakePte, Ppn, Pte, PtOk;
    forall x: Slot | x.Leaf? && Live(o0, x)
      ensures Pte(m2, x) == Pte(m0, x)
    {
      assert Live(o, x) && Live(o2, x);
    }
  }

  /** A page that was mapped stays as it was while others are added. */
  lemma HoldsKept(m0: Mem, o0: Owners, mem: Mem, owner: Owners, r: nat, v: nat, n: nat, x: nat, j: nat, perm: nat,
                  data: Data)
    requires PtOk(m0, o0) && Added(m0, o0, mem, owner, r, v, n) && j < TRAPFRAME && perm < 1024 && IsRoot(o0, x)
    requires !In(Leaf(x, j), r, v, n) && Holds(m0, x, j, perm, data)
    ensures Holds(mem, x, j, perm, data)
  {
    MadePte(Ppn(Pte(m0, Leaf(x, j))), perm);
    hide MakePte, Ppn, Pte;
    assert SlotOk(m0, o0, Leaf(x, j));
  }

  // ---- proc_pagetable ----

  /** All that was there before r is as it was, and what is new belongs to r. */
  ghost predicate Private(m0: Mem, o0: Owners, mem: Mem, owner: Owners, r: nat) {
    && |mem| == |m0|
    && (forall q :: q in o0 ==> q in owner && owner[q] == o0[q] && !Belongs(o0[q], r))
    && (forall q :: q in o0 && q < |m0| && !IsTable(o0[q]) ==> mem[q] == m0[q])
    && (forall q :: q in owner && q !in o0 ==> Belongs(owner[q], r))
    && (forall x: Slot :: x.Leaf? && Live(o0, x) ==> Pte(mem, x) == Pte(m0, x))
  }

  /** Every page is back where it was. */
  ghost predicate Restored(m0: Mem, o0: Owners, mem: Mem, owner: Owners) {
    && |mem| == |m0| && owner == o0
    && (forall q :: q in o0 && q < |m0| && !IsTable(o0[q]) ==> mem[q] == m0[q])
    && (forall x: Slot :: x.Leaf? && Live(o0, x) ==> Pte(mem, x) == Pte(m0, x))
  }

  lemma PrivateNew(m0: Mem, o0: Owners, r: nat)
    requires PtOk(m0, o0) && r !in o0 && r < |m0|
    ensures var m, o := m0[r := Words(NoEntries())], o0[r := Root(r)];
            PtOk(m, o) && IsRoot(o, r) && Private(m0, o0, m, o, r) && MappedBelow(m, r, 0)
  {
    NewRootKeeps(m0, o0, r);
    hide PtOk, Pte;
    assert !Valid(0);
  }

  lemma PrivateMaps(m0: Mem, o0: Owners, m1: Mem, o1: Owners, mem: Mem, owner: Owners, r: nat, v: nat, n: nat, p: nat,
                    perm: nat)
    requires perm < 1024 && Private(m0, o0, m1, o1, r) && MapsTo(m1, o1, mem, owner, r, v, n, p, perm)
    requires v == TRAMPOLINE || v == TRAPFRAME
    requires n <= 1 && IsRoot(o1, r)
    ensures Private(m0, o0, mem, owner, r)
    ensures forall w :: 0 <= w < ALLVPN && w != v ==> Pte(mem, Leaf(r, w)) == Pte(m1, Leaf(r, w))
    ensures Pte(mem, Leaf(r, v)) == if n == 1 then MakePte(p, perm) else Pte(m1, Leaf(r, v))
  {
    hide Pte, MakePte;
    forall x: Slot | x.Leaf? && Live(o0, x)
      ensures Pte(mem, x) == Pte(m0, x)
    {
      assert Live(o1, x);
    }
    forall w | 0 <= w < ALLVPN
      ensures Live(o1, Leaf(r, w))
    {
    }
  }

  lemma PrivateDropped(m0: Mem, o0: Owners, m1: Mem, o1: Owners, mem: Mem, owner: Owners, r: nat)
    requires Private(m0, o0, m1, o1, r) && Dropped(m1, o1, mem, owner, r)
    ensures Restored(m0, o0, mem, owner)
  {
    hide Pte, IsEntry;
    assert forall q :: q in owner <==> q in o0;
    assert owner == o0;
    forall x: Slot | x.Leaf? && Live(o0, x)
      ensures Pte(mem, x) == Pte(m0, x)
    {
      assert Live(owner, x);
    }
  }

  // ---- the bytes that user code sees ----

  ghost function FrameBytes(mem: Mem, e: nat): Data {
    if Valid(e) && Ppn(e) < |mem| && mem[Ppn(e)].Bytes? then mem[Ppn(e)].b else Zeroes()
  }

  /** Page v as user code sees it: a page that is not mapped yet reads as zeroes. */
  ghost function UserPage(mem: Mem, r: nat, v: nat): Data
    requires v < ALLVPN
  {
    FrameBytes(mem, Pte(mem, Leaf(r, v)))
  }

  const USERTOP: nat := TRAPFRAME * PGSIZE

  ghost function UserByte(mem: Mem, r: nat, va: nat): Byte
    requires va < USERTOP
  {
    UserPage(mem, r, va / PGSIZE)[va % PGSIZE]
  }

  /** Every address space reads as before. */
  ghost predicate SameView(m0: Mem, o0: Owners, mem: Mem, owner: Owners) {
    && (forall x :: IsRoot(o0, x) ==> IsRoot(owner, x))
    && (forall x, v :: IsRoot(o0, x) && 0 <= v < TRAPFRAME ==> UserPage(mem, x, v) == UserPage(m0, x, v))
  }

  lemma HoldsPage(mem: Mem, r: nat, v: nat, perm: nat, data: Data)
    requires v < ALLVPN && perm < 1024 && Holds(mem, r, v, perm, data)
    ensures UserPage(mem, r, v) == data && Valid(Pte(mem, Leaf(r, v))) && Flags(Pte(mem, Leaf(r, v))) / 2 == perm / 2
    ensures IsUser(Pte(mem, Leaf(r, v))) == IsUser(perm) && IsWritable(Pte(mem, Leaf(r, v))) == IsWritable(perm)
  {
    MadePte(Ppn(Pte(mem, Leaf(r, v))), perm);
  }

  /** Pages outside the range look the same, in every address space. */
  lemma PageKept(m0: Mem, o0: Owners, mem: Mem, owner: Owners, r: nat, v: nat, n: nat, x: nat, j: nat)
    requires PtOk(m0, o0) && Added(m0, o0, mem, owner, r, v, n) && IsRoot(o0, x) && j < TRAPFRAME
      && !In(Leaf(x, j), r, v, n)
    ensures UserPage(mem, x, j) == UserPage(m0, x, j) && Pte(mem, Leaf(x, j)) == Pte(m0, Leaf(x, j))
  {
    hide Pte, Valid, Ppn;
    assert SlotOk(m0, o0, Leaf(x, j));
  }

  lemma GrownPage(m0: Mem, o0: Owners, mem: Mem, owner: Owners, r: nat, x: nat, j: nat)
    requires PtOk(m0, o0) && Grown(m0, o0, mem, owner, r) && IsRoot(o0, x) && j < TRAPFRAME
    ensures UserPage(mem, x, j) == UserPage(m0, x, j) && Pte(mem, Leaf(x, j)) == Pte(m0, Leaf(x, j))
  {
    hide Pte, Valid, Ppn;
    assert SlotOk(m0, o0, Leaf(x, j));
  }

  /** uvmalloc so far: k zeroed pages. */
  ghost predicate Zeroed(mem: Mem, r: nat, v: nat, k: nat, perm: nat)
    requires perm < 1024 && v + k <= TRAPFRAME
  {
    forall j :: v <= j < v + k ==> Holds(mem, r, j, perm, Zeroes())
  }

  lemma ZeroedMore(m0: Mem, o0: Owners, mem: Mem, owner: Owners, r: nat, v: nat, k: nat, perm: nat)
    requires PtOk(m0, o0) && IsRoot(o0, r) && v + k < TRAPFRAME && perm < 1024 && Zeroed(m0, r, v, k, perm)
    requires Added(m0, o0, mem, owner, r, v + k, 1) && Holds(mem, r, v + k, perm, Zeroes())
    ensures Zeroed(mem, r, v, k + 1, perm)
  {
    hide Added, Holds, PtOk;
    forall j | v <= j < v + k
      ensures Holds(mem, r, j, perm, Zeroes())
    {
      HoldsKept(m0, o0, mem, owner, r, v + k, 1, r, j, perm, Zeroes());
    }
  }

  /** uvmcopy so far: the first k pages of c are copies of those of r. */
  ghost predicate CopyOf(m0: Mem, mem: Mem, r: nat, c: nat, k: nat)
    requires k <= TRAPFRAME
  {
    forall j :: 0 <= j < k ==> CopiedPage(m0, mem, r, c, j)
  }

  ghost predicate CopiedPage(m0: Mem, mem: Mem, r: nat, c: nat, j: nat)
    requires j < TRAPFRAME
  {
    var e := Pte(m0, Leaf(r, j));
    if Valid(e) then Ppn(e) < |m0| && m0[Ppn(e)].Bytes? && Holds(mem, c, j, Flags(e), m0[Ppn(e)].b)
    else !Valid(Pte(mem, Leaf(c, j)))
  }

  lemma CopyMore(m0: Mem, m1: Mem, o1: Owners, mem: Mem, owner: Owners, r: nat, c: nat, k: nat)
    requires PtOk(m1, o1) && IsRoot(o1, c) && k < TRAPFRAME && CopyOf(m0, m1, r, c, k)
    requires Added(m1, o1, mem, owner, c, k, 1) && CopiedPage(m0, mem, r, c, k)
    ensures CopyOf(m0, mem, r, c, k + 1)
  {
    hide Added, Holds, PtOk, Valid, Ppn, Flags;
    forall j | 0 <= j < k
      ensures CopiedPage(m0, mem, r, c, j)
    {
      assert CopiedPage(m0, m1, r, c, j);
      CopyKept(m0, m1, o1, mem, owner, r, c, k, j);
    }
  }

  lemma CopyKept(m0: Mem, m1: Mem, o1: Owners, mem: Mem, owner: Owners, r: nat, c: nat, k: nat, j: nat)
    requires PtOk(m1, o1) && IsRoot(o1, c) && j < k < TRAPFRAME && CopiedPage(m0, m1, r, c, j)
    requires Added(m1, o1, mem, owner, c, k, 1)
    ensures CopiedPage(m0, mem, r, c, j)
  {
    hide Pte, Holds;
    var e := Pte(m0, Leaf(r, j));
    if Valid(e) {
      HoldsKept(m1, o1, mem, owner, c, k, 1, c, j, Flags(e), m0[Ppn(e)].b);
    } else {
      PageKept(m1, o1, mem, owner, c, k, 1, c, j);
    }
  }

  /** The child's pages read as the parent's did, mapped or not. */
  lemma CopySeen(m0: Mem, mem: Mem, r: nat, c: nat, k: nat, j: nat)
    requires k <= TRAPFRAME && CopyOf(m0, mem, r, c, k) && j < k
    ensures UserPage(mem, c, j) == UserPage(m0, r, j)
    ensures Valid(Pte(mem, Leaf(c, j))) == Valid(Pte(m0, Leaf(r, j)))
  {
    assert CopiedPage(m0, mem, r, c, j);
    var e := Pte(m0, Leaf(r, j));
    hide Pte;
    if Valid(e) {
      HoldsPage(mem, c, j, Flags(e), m0[Ppn(e)].b);
    }
  }

  // ---- vmfault, copyin and copyout ----

  lemma GrownView(m0: Mem, o0: Owners, mem: Mem, owner: Owners, r: nat)
    requires PtOk(m0, o0) && Grown(m0, o0, mem, owner, r)
    ensures SameView(m0, o0, mem, owner)
  {
    hide UserPage, PtOk, Pte;
    forall x, v | IsRoot(o0, x) && 0 <= v < TRAPFRAME
      ensures UserPage(mem, x, v) == UserPage(m0, x, v)
    {
      GrownPage(m0, o0, mem, owner, r, x, v);
    }
  }

  /** A page filled in with zeroes is seen by nobody. */
  lemma FaultView(m0: Mem, o0: Owners, mem: Mem, owner: Owners, r: nat, v: nat, perm: nat)
    requires PtOk(m0, o0) && v < TRAPFRAME && perm < 1024 && !Valid(Pte(m0, Leaf(r, v)))
    requires Added(m0, o0, mem, owner, r, v, 1) && Holds(mem, r, v, perm, Zeroes())
    ensures SameView(m0, o0, mem, owner)
  {
    HoldsPage(mem, r, v, perm, Zeroes());
    assert UserPage(m0, r, v) == Zeroes();
    hide UserPage, PtOk, Pte, Holds;
    forall x, j | IsRoot(o0, x) && 0 <= j < TRAPFRAME
      ensures UserPage(mem, x, j) == UserPage(m0, x, j)
    {
      if !In(Leaf(x, j), r, v, 1) {
        PageKept(m0, o0, mem, owner, r, v, 1, x, j);
      }
    }
  }

  lemma SameViewTwice(m0: Mem, o0: Owners, m1: Mem, o1: Owners, mem: Mem, owner: Owners)
    requires SameView(m0, o0, m1, o1) && SameView(m1, o1, mem, owner)
    ensures SameView(m0, o0, mem, owner)
  {
    hide UserPage;
    forall x, v | IsRoot(o0, x) && 0 <= v < TRAPFRAME
      ensures UserPage(mem, x, v) == UserPage(m0, x, v)
    {
      assert IsRoot(o1, x);
    }
  }

  /** Page v of r now reads as data, all others as before. */
  ghost predicate PageWritten(mem: Mem, owner: Owners, mem': Mem, r: nat, v: nat, data: Data) {
    forall x, j :: IsRoot(owner, x) && 0 <= j < TRAPFRAME ==>
      UserPage(mem', x, j) == if x == r && j == v then data else UserPage(mem, x, j)
  }

  /** Bytes written into the frame of page v are seen there and nowhere else. */
  lemma WriteFrame(mem: Mem, owner: Owners, r: nat, v: nat, data: Data)
    requires PtOk(mem, owner) && IsRoot(owner, r) && v < TRAPFRAME && Valid(Pte(mem, Leaf(r, v)))
    ensures var p := Ppn(Pte(mem, Leaf(r, v)));
            && p < |mem| && p in owner && mem[p].Bytes? && UserPage(mem, r, v) == mem[p].b
            && PtOk(mem[p := Bytes(data)], owner)
            && PageWritten(mem, owner, mem[p := Bytes(data)], r, v, data)
  {
    var s := Leaf(r, v);
    var p := Ppn(Pte(mem, s));
    assert SlotOk(mem, owner, s);
    var mem' := mem[p := Bytes(data)];
    FrameKeeps(mem, owner, mem', owner);
    hide Pte, Valid, Ppn;
    forall x, j | IsRoot(owner, x) && 0 <= j < TRAPFRAME
      ensures UserPage(mem', x, j) == if x == r && j == v then data else UserPage(mem, x, j)
    {
      assert Live(owner, Leaf(x, j));
      assert SlotOk(mem, owner, Leaf(x, j));
    }
  }

  /** memmove into a page. */
  function Splice(d: Data, o: nat, bytes: seq<Byte>): (r: Data)
    requires o + |bytes| <= PGSIZE
  {
    d[..o] + bytes + d[o + |bytes|..]
  }

  /** src[..done] has been written at dst in the address space of r. */
  ghost predicate Wrote(m0: Mem, o0: Owners, mem: Mem, r: nat, dst: nat, src: seq<Byte>, done: nat)
    requires done <= |src|
  {
    && (done > 0 ==> dst + done <= USERTOP)
    && forall x, va :: IsRoot(o0, x) && 0 <= va < USERTOP ==>
         UserByte(mem, x, va) == if x == r && dst <= va < dst + done then src[va - dst] else UserByte(m0, x, va)
  }

  lemma WroteNothing(mem: Mem, owner: Owners, r: nat, dst: nat, src: seq<Byte>)
    ensures Wrote(mem, owner, mem, r, dst, src, 0)
  {
  }

  lemma WroteView(m0: Mem, o0: Owners, m1: Mem, o1: Owners, mem: Mem, owner: Owners, r: nat, dst: nat, src: seq<Byte>,
                  done: nat)
    requires done <= |src| && Wrote(m0, o0, m1, r, dst, src, done) && SameView(m1, o1, mem, owner)
    requires forall x :: IsRoot(o0, x) ==> IsRoot(o1, x)
    ensures Wrote(m0, o0, mem, r, dst, src, done)
  {
    hide UserPage;
    forall x, va | IsRoot(o0, x) && 0 <= va < USERTOP
      ensures UserByte(mem, x, va) == UserByte(m1, x, va)
    {
      assert IsRoot(o1, x);
    }
  }

  /** One chunk of copyout. */
  lemma WroteMore(m0: Mem, o0: Owners, m1: Mem, o1: Owners, mem: Mem, r: nat, dst: nat, src: seq<Byte>, done: nat,
                  n: nat, d: Data)
    requires done + n <= |src| && Wrote(m0, o0, m1, r, dst, src, done) && IsRoot(o0, r)
    requires forall x :: IsRoot(o0, x) ==> IsRoot(o1, x)
    requires (dst + done) / PGSIZE < TRAPFRAME && (dst + done) % PGSIZE + n <= PGSIZE
    requires d == UserPage(m1, r, (dst + done) / PGSIZE)
    requires PageWritten(m1, o1, mem, r, (dst + done) / PGSIZE, Splice(d, (dst + done) % PGSIZE, src[done..done + n]))
    ensures Wrote(m0, o0, mem, r, dst, src, done + n)
  {
    hide UserPage;
    var c, o := dst + done, (dst + done) % PGSIZE;
    forall x, va | IsRoot(o0, x) && 0 <= va < USERTOP
      ensures UserByte(mem, x, va) == if x == r && dst <= va < dst + (done + n) then src[va - dst]
                                      else UserByte(m0, x, va)
    {
      WroteByte(m0, o0, m1, o1, mem, r, dst, src, done, n, d, x, va);
    }
  }

  lemma WroteByte(m0: Mem, o0: Owners, m1: Mem, o1: Owners, mem: Mem, r: nat, dst: nat, src: seq<Byte>, done: nat,
                  n: nat, d: Data,
                  x: nat, va: nat)
    requires done + n <= |src| && Wrote(m0, o0, m1, r, dst, src, done) && IsRoot(o0, x) && va < USERTOP
    requires forall y :: IsRoot(o0, y) ==> IsRoot(o1, y)
    requires (dst + done) / PGSIZE < TRAPFRAME && (dst + done) % PGSIZE + n <= PGSIZE
    requires d == UserPage(m1, r, (dst + done) / PGSIZE)
    requires PageWritten(m1, o1, mem, r, (dst + done) / PGSIZE, Splice(d, (dst + done) % PGSIZE, src[done..done + n]))
    ensures UserByte(mem, x, va) == if x == r && dst <= va < dst + (done + n) then src[va - dst]
                                    else UserByte(m0, x, va)
  {
    hide UserPage;
    var c := dst + done;
    assert IsRoot(o1, x);
    if x == r && va / PGSIZE == c / PGSIZE {
      SpliceAt(d, c % PGSIZE, src[done..done + n], va % PGSIZE);
      assert va - c == va % PGSIZE - c % PGSIZE;
      assert UserPage(mem, x, va / PGSIZE) == Splice(d, c % PGSIZE, src[done..done + n]);
      assert UserByte(m1, x, va) == d[va % PGSIZE];
    } else {
      SamePage(c, n, va);
      assert UserPage(mem, x, va / PGSIZE) == UserPage(m1, x, va / PGSIZE);
      assert UserByte(mem, x, va) == UserByte(m1, x, va);
    }
  }

  lemma SamePage(c: nat, n: nat, va: nat)
    requires c % PGSIZE + n <= PGSIZE
    ensures c <= va < c + n ==> va / PGSIZE == c / PGSIZE
  {
  }

  lemma SpliceAt(d: Data, o: nat, bytes: seq<Byte>, i: nat)
    requires o + |bytes| <= PGSIZE && i < PGSIZE
    ensures Splice(d, o, bytes)[i] == if o <= i < o + |bytes| then bytes[i - o] else d[i]
  {
  }

  /** dst holds the bytes at src as user code saw them. */
  ghost predicate Got(mem: Mem, r: nat, src: nat, dst: seq<Byte>) {
    && (dst != [] ==> src + |dst| <= USERTOP)
    && forall i :: 0 <= i < |dst| ==> dst[i] == UserByte(mem, r, src + i)
  }

  lemma GotMore(m0: Mem, o0: Owners, mem: Mem, owner: Owners, r: nat, src: nat, dst: seq<Byte>, n: nat, d: Data)
    requires Got(m0, r, src, dst) && SameView(m0, o0, mem, owner) && IsRoot(o0, r)
    requires (src + |dst|) / PGSIZE < TRAPFRAME && (src + |dst|) % PGSIZE + n <= PGSIZE
    requires d == UserPage(mem, r, (src + |dst|) / PGSIZE)
    ensures Got(m0, r, src, dst + d[(src + |dst|) % PGSIZE..(src + |dst|) % PGSIZE + n])
  {
    hide UserPage;
    var c := src + |dst|;
    var dst' := dst + d[c % PGSIZE..c % PGSIZE + n];
    forall i | 0 <= i < |dst'|
      ensures src + i < USERTOP && dst'[i] == UserByte(m0, r, src + i)
    {
      if i >= |dst| {
        SamePage(c, n, src + i);
      }
    }
  }

  // ---- sbrk ----

  /** Zeroed pages where nothing was mapped are seen by nobody. */
  lemma ZeroedView(m0: Mem, o0: Owners, mem: Mem, owner: Owners, r: nat, v: nat, n: nat, perm: nat)
    requires PtOk(m0, o0) && v + n <= TRAPFRAME && perm < 1024
    requires forall j :: v <= j < v + n ==> !Valid(Pte(m0, Leaf(r, j)))
    requires Added(m0, o0, mem, owner, r, v, n) && Zeroed(mem, r, v, n, perm)
    ensures SameView(m0, o0, mem, owner)
  {
    hide PtOk, Pte, Holds, Valid;
    forall x, j | IsRoot(o0, x) && 0 <= j < TRAPFRAME
      ensures UserPage(mem, x, j) == UserPage(m0, x, j)
    {
      if In(Leaf(x, j), r, v, n) {
        HoldsPage(mem, r, j, perm, Zeroes());
        assert !Valid(Pte(m0, Leaf(r, j)));
      } else {
        PageKept(m0, o0, mem, owner, r, v, n, x, j);
      }
    }
  }

  /** Unmapped pages read as zeroes from then on, all others as before. */
  lemma UnmappedView(m0: Mem, o0: Owners, mem: Mem, owner: Owners, r: nat, v: nat, n: nat, x: nat, j: nat)
    requires PtOk(m0, o0) && Unmaps(m0, o0, mem, owner, r, v, n, true) && IsRoot(o0, x) && j < TRAPFRAME
    ensures IsRoot(owner, x)
    ensures UserPage(mem, x, j) == if In(Leaf(x, j), r, v, n) then Zeroes() else UserPage(m0, x, j)
  {
    assert !Valid(0);
    hide Pte, Valid, Ppn;
    var s := Leaf(x, j);
    assert Live(o0, s);
    assert SlotOk(m0, o0, s);
  }

  // ---- the table as a finite map ----

  ghost predicate IsMapped(mem: Mem, r: nat, v: nat) {
    v < ALLVPN && Valid(Pte(mem, Leaf(r, v)))
  }

  /** Page number to frame and flags, for every page that r maps. */
  ghost function PageMap(mem: Mem, r: nat): map<nat, (nat, nat)> {
    map v | 0 <= v < ALLVPN && IsMapped(mem, r, v) :: (Ppn(Pte(mem, Leaf(r, v))), Flags(Pte(mem, Leaf(r, v))))
  }

  /** mappages adds exactly its range, with the frames and permissions it was given. */
  lemma MappingAddsRange(mem: Mem, owner: Owners, mem': Mem, owner': Owners, r: nat, v: nat, n: nat, p: nat,
                         perm: nat, w: nat)
    requires perm < 1024 && MapsTo(mem, owner, mem', owner', r, v, n, p, perm) && IsRoot(owner, r) && w < ALLVPN
    ensures w in PageMap(mem', r) <==> w in PageMap(mem, r) || v <= w < v + n
    ensures v <= w < v + n ==> PageMap(mem', r)[w] == (p + (w - v), if perm % 2 == 1 then perm else perm + 1)
    ensures w in PageMap(mem, r) && !(v <= w < v + n) ==> PageMap(mem', r)[w] == PageMap(mem, r)[w]
  {
    assert Live(owner, Leaf(r, w));
    if v <= w < v + n {
      MadePte(p + (w - v), perm);
    }
    hide Pte, Valid, Ppn, Flags, MakePte;
  }

  /** uvmunmap removes exactly its range. */
  lemma UnmappingRemovesRange(mem: Mem, owner: Owners, mem': Mem, owner': Owners, r: nat, v: nat, n: nat, doFree: bool)
    requires Unmaps(mem, owner, mem', owner', r, v, n, doFree) && IsRoot(owner, r)
    ensures forall w :: w in PageMap(mem', r) <==> w in PageMap(mem, r) && !(v <= w < v + n)
    ensures forall w :: w in PageMap(mem', r) ==> PageMap(mem', r)[w] == PageMap(mem, r)[w]
  {
    assert !Valid(0);
    hide Pte, Valid, Ppn, Flags;
    forall w | 0 <= w < ALLVPN
      ensures Pte(mem', Leaf(r, w)) == if v <= w < v + n then 0 else Pte(mem, Leaf(r, w))
    {
      assert Live(owner, Leaf(r, w));
    }
  }

  /** Neither touches any other page table. */
  lemma OtherTablesKept(mem: Mem, owner: Owners, mem': Mem, owner': Owners, r: nat, v: nat, n: nat, p: nat, perm: nat,
                        doFree: bool, x: nat)
    requires perm < 1024 && IsRoot(owner, x) && x != r
    requires MapsTo(mem, owner, mem', owner', r, v, n, p, perm) || Unmaps(mem, owner, mem', owner', r, v, n, doFree)
    ensures PageMap(mem', x) == PageMap(mem, x)
  {
    hide Pte, Valid, Ppn, Flags, MakePte;
    forall w | 0 <= w < ALLVPN
      ensures Pte(mem', Leaf(x, w)) == Pte(mem, Leaf(x, w))
    {
      assert Live(owner, Leaf(x, w));
    }
  }

  /** Two pages of user space, in one address space or in two, never share a frame. */
  lemma FramesAreDisjoint(mem: Mem, owner: Owners, r: nat, v: nat, x: nat, w: nat)
    requires PtOk(mem, owner) && IsRoot(owner, r) && IsRoot(owner, x) && v < TRAPFRAME && w < TRAPFRAME
      && (r, v) != (x, w)
    requires IsMapped(mem, r, v) && IsMapped(mem, x, w)
    ensures PageMap(mem, r)[v].0 != PageMap(mem, x)[w].0
  {
    hide Pte, Valid, Ppn, Flags;
    assert SlotOk(mem, owner, Leaf(r, v)) && SlotOk(mem, owner, Leaf(x, w));
  }
}
