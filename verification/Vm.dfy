/** kernel/kalloc.c and the page tables of kernel/vm.c and kernel/proc.c. */
module Vm {
  import opened VmPte
  import opened VmTable
  import opened VmSpec
  import opened VmNeed
  import opened VmUser
  import opened VmSpace

  class Vm {
    const lo: nat              // pages below hold the kernel
    const top: nat             // where memory ends
    var mem: Mem
    var freelist: nat
    ghost var free: seq<nat>   // the pages on the free list, in its order
    ghost var owner: Owners
    var spaces: Sizes          // the size of each process, by its page table

    ghost predicate KmemOk()
      reads this
    {
      Kmem(mem, freelist, free, owner, lo) && |mem| == top
    }

    ghost predicate Good()
      reads this
    {
      KmemOk() && PtOk(mem, owner)
    }

    /** Between system calls every page table is that of a process. */
    ghost predicate Sound()
      reads this
    {
      Good() && Spaces(mem, owner, spaces)
    }

    /** kinit: all pages from lo on are free. */
    constructor (lo: nat, mem: Mem)
      requires 0 < lo <= |mem|
      ensures Sound() && this.lo == lo && top == |mem| && owner == map[] && spaces == map[] && |free| == |mem| - lo
    {
      this.lo := lo;
      this.top := |mem|;
      this.mem := mem;
      freelist := 0;
      free := [];
      spaces := map[];
      owner := map p | lo <= p < |mem| && Ram(p, lo, |mem|) :: Held;
      new;
      var p := lo;
      while p < |mem|
        invariant lo <= p <= |mem| == |this.mem| && KmemOk() && |free| == p - lo && spaces == map[]
        invariant forall q :: q in owner <==> p <= q < |mem|
        invariant forall q :: q in owner ==> owner[q] == Held
      {
        Kfree(p);
        p := p + 1;
      }
      assert owner == map[];
      NoOwners(this.mem);
    }

    /** kalloc: the first page of the free list, or 0. */
    method Kalloc() returns (p: nat)
      requires KmemOk()
      modifies this`mem, this`freelist, this`free, this`owner
      ensures KmemOk()
      ensures p == 0 <==> old(free) == []
      ensures p == 0 ==> free == [] && mem == old(mem) && owner == old(owner)
      ensures p != 0 ==>
          p < |old(mem)| && p !in old(owner) && owner == old(owner)[p := Held] && mem == old(mem)[p := Junk]
      ensures p != 0 ==> free == old(free)[1..]
    {
      p := freelist;
      HeadNull(mem, freelist, free, owner, lo);
      if p != 0 {
        KmemTake(mem, free, owner, lo);
        freelist := mem[p].next;
        mem := mem[p := Junk];
        free := free[1..];
        owner := owner[p := Held];
      }
    }

    /** kfree; an owned page is never one that makes it panic. */
    method Kfree(p: nat)
      requires KmemOk() && p in owner
      modifies this`mem, this`freelist, this`free, this`owner
      ensures KmemOk() && lo <= p < |mem| && free == [p] + old(free)
      ensures owner == old(owner) - {p} && mem == old(mem)[p := Link(old(freelist))]
    {
      KmemGive(mem, free, owner, lo, p);
      mem := mem[p := Link(freelist)];
      freelist := p;
      free := [p] + free;
      owner := owner - {p};
    }

    /** A new table in entry i of the table in page pt, which is the entry of slot s. */
    method NewTable(pt: nat, i: nat, ghost s: Slot) returns (p: nat)
      requires Good() && HasSlot(mem, owner, s) && (s.Mid? || s.Low?) && !Valid(Pte(mem, s))
      requires pt == Base(mem, Parent(s)) && i == Index(s)
      modifies this`mem, this`freelist, this`free, this`owner
      ensures Good() && Grown(old(mem), old(owner), mem, owner, s.r)
      ensures p == 0 ==> free == [] && mem == old(mem) && owner == old(owner)
      ensures p != 0 ==> Base(mem, s) == p < |mem| && p !in old(owner) && owner == old(owner)[p := s]
    {
      hide PtOk, Grown, IsEntry, Pte, Base, MakePte, Valid, Ppn, Kmem;
      SlotHas(mem, owner, s);
      GrownSelf(mem, owner, s.r);
      p := Kalloc();
      if p != 0 {
        ghost var m1, o1 := mem, owner;
        mem := mem[p := Words(NoEntries())];
        mem := mem[pt := Words(mem[pt].w[i := MakePte(p, 0)])];
        owner := owner[p := s];
        AddTable(old(mem), old(owner), s, p, s.r, mem);
        assert owner == old(owner)[p := s];
        KmemKeeps(m1, freelist, free, o1, lo, mem, owner);
      }
    }

    /** walk: the level-0 table for page v, or 0; with alloc, exactly if there are not enough
        pages for the tables that v still lacks. */
    method Walk(r: nat, v: nat, alloc: bool) returns (t: nat)
      requires Good() && IsRoot(owner, r) && v < MAXVPN
      modifies this`mem, this`freelist, this`free, this`owner
      ensures Good() && IsRoot(owner, r) && Grown(old(mem), old(owner), mem, owner, r)
      ensures !alloc ==> mem == old(mem) && owner == old(owner) && free == old(free)
      ensures t != 0 ==> t == Base(mem, Step(r, v, 0)) < |mem|
      ensures t == 0 ==> Base(mem, Step(r, v, 0)) >= |mem| && Pte(mem, Leaf(r, v)) == 0 && (alloc ==> free == [])
      ensures Spread(old(owner), owner, Tables(r, v))
      ensures alloc ==> (t != 0 <==> Need(old(owner), Tables(r, v)) <= |old(free)|)
    {
      hide PtOk, Grown, IsEntry, Pte, Base, Valid, Ppn, Step, Kmem, Spread, Tables, Need;
      t := r;
      RootStep(mem, owner, r, v);
      GrownSelf(mem, owner, r);
      SpreadNone(owner, Tables(r, v));
      var level := 2;
      while level > 0
        invariant level <= 2 && Good() && IsRoot(owner, r) && Grown(old(mem), old(owner), mem, owner, r)
        invariant !alloc ==> mem == old(mem) && owner == old(owner) && free == old(free)
        invariant t == Base(mem, Step(r, v, level)) < |mem| && Spread(old(owner), owner, Tables(r, v))
      {
        WalkDown(mem, owner, r, v, level);
        var e := mem[t].w[Px(level, v)];
        if Valid(e) {
          t := Ppn(e);
        } else {
          WalkBlocked(mem, r, v, level - 1);
          if !alloc {
            return 0;
          }
          ghost var m1, o1 := mem, owner;
          LowerTable(r, v, level);
          t := NewTable(t, Px(level, v), Step(r, v, level - 1));
          GrownTwice(old(mem), old(owner), m1, o1, mem, owner, r);
          GrownRoot(m1, o1, mem, owner, r);
          if t == 0 {
            TablesSettled(old(mem), old(freelist), old(free), old(owner), mem, freelist, free, owner, lo, r, v);
            return;
          }
          SpreadTable(old(owner), o1, owner, r, v, level - 1, t);
        }
        level := level - 1;
      }
      InsideMemory(mem, owner, freelist, free, lo, r, v);
      TablesSettled(old(mem), old(freelist), old(free), old(owner), mem, freelist, free, owner, lo, r, v);
    }

    // ---- mappages and uvmunmap ----

    /** mappages.  It fails exactly if there are not enough pages for the tables that its
        range lacks, with the first k pages mapped. */
    method Mappages(r: nat, v: nat, n: nat, p: nat, perm: nat) returns (ok: bool, ghost k: nat)
      requires Good() && IsRoot(owner, r) && n > 0 && v + n <= MAXVPN && perm < 1024 && IsLeaf(perm)
      requires forall j :: v <= j < v + n ==> !Valid(Pte(mem, Leaf(r, j)))
      requires forall j :: v <= j < v + n && Owns(Leaf(r, j)) ==> Spare(mem, owner, p + (j - v))
      modifies this`mem, this`freelist, this`free, this`owner
      ensures Good() && IsRoot(owner, r) && (ok <==> k == n) && k <= n && (!ok ==> free == [])
      ensures MapsTo(old(mem), old(owner), mem, owner, r, v, k, p, perm)
      ensures MapsSpread(old(owner), owner, r, v, n)
      ensures ok <==> Need(old(owner), TablesOf(r, v, n)) <= |old(free)|
    {
      hide PtOk, Grown, MapsTo, IsEntry, Pte, Base, MakePte, Valid, Ppn, Kmem, IsLeaf, MapsSpread, Spread, Need;
      MapsNothing(mem, owner, r, v, p, perm);
      MapsSpreadNone(owner, r, v, n);
      k := 0;
      var a := 0;
      while a < n
        invariant a == k <= n && Good() && IsRoot(owner, r) && MapsSpread(old(owner), owner, r, v, n)
        invariant MapsTo(old(mem), old(owner), mem, owner, r, v, k, p, perm)
      {
        ghost var m1, l1, f1, o1 := mem, freelist, free, owner;
        var t := Walk(r, v + a, true);
        MapsSpreadMore(old(owner), o1, owner, r, v, n, v + a);
        MapsGrown(old(mem), old(owner), m1, o1, mem, owner, r, v, k, p, perm);
        if t == 0 {
          MapsNoRoom(old(mem), old(freelist), old(free), old(owner), m1, l1, f1, o1, lo, r, v, n, v + a);
          return false, k;
        }
        ghost var o2 := owner;
        MapHere(r, v, a, p, perm, t, old(mem), old(owner));
        MapsSpreadFrame(old(owner), o2, owner, r, v, n, p + a, Leaf(r, v + a));
        k := k + 1;
        a := a + 1;
      }
      MapsValid(old(mem), old(owner), mem, owner, r, v, n, p, perm);
      MapsRoom(old(mem), old(freelist), old(free), old(owner), mem, freelist, free, owner, lo, r, v, n);
      ok := true;
    }

    /** Store the entry for page v + k in the table that walk returned. */
    method MapHere(r: nat, v: nat, k: nat, p: nat, perm: nat, t: nat, ghost m0: Mem, ghost o0: Owners)
      requires Good() && IsRoot(owner, r) && IsRoot(o0, r) && v + k < MAXVPN && perm < 1024 && IsLeaf(perm)
      requires t == Base(mem, Step(r, v + k, 0)) < |mem| && MapsTo(m0, o0, mem, owner, r, v, k, p, perm)
      requires !Valid(Pte(m0, Leaf(r, v + k))) && (Owns(Leaf(r, v + k)) ==> Spare(m0, o0, p + k))
      modifies this`mem, this`owner
      ensures Good() && IsRoot(owner, r) && MapsTo(m0, o0, mem, owner, r, v, k + 1, p, perm)
      ensures if Owns(Leaf(r, v + k)) then owner == old(owner)[p + k := Leaf(r, v + k)] else owner == old(owner)
    {
      hide PtOk, MapsTo, Pte, Base, MakePte, Valid, Ppn, Kmem, IsLeaf;
      ghost var s := Leaf(r, v + k);
      SlotHas(mem, owner, s);
      ghost var e := MakePte(p + k, perm);
      ghost var m2, o2 := MapsMore(m0, o0, mem, owner, r, v, k, p, perm, e);
      SpareOwned(m0, o0, mem, owner, r, v, k, p, perm);
      KmemKeeps(mem, freelist, free, owner, lo, m2, o2);
      mem := mem[t := Words(mem[t].w[Low9(v + k) := MakePte(p + k, perm)])];
      owner := o2;
    }

    /** uvmunmap.  The frames are freed only where they are the page table's. */
    method Uvmunmap(r: nat, v: nat, n: nat, doFree: bool)
      requires Good() && IsRoot(owner, r) && v + n <= MAXVPN && (doFree ==> v + n <= TRAPFRAME)
      modifies this`mem, this`freelist, this`free, this`owner
      ensures Good() && IsRoot(owner, r) && Unmaps(old(mem), old(owner), mem, owner, r, v, n, doFree)
    {
      hide PtOk, Grown, Unmaps, IsEntry, Pte, Base, Valid, Ppn, Kmem;
      UnmapsNothing(mem, owner, r, v, doFree);
      var a := 0;
      while a < n
        invariant a <= n && Good() && IsRoot(owner, r)
        invariant Unmaps(old(mem), old(owner), mem, owner, r, v, a, doFree)
      {
        var t := Walk(r, v + a, false);
        UnmapHere(r, v, a, doFree, t, old(mem), old(owner));
        a := a + 1;
      }
    }

    /** Clear the entry for page v + k, if it has one. */
    method UnmapHere(r: nat, v: nat, k: nat, doFree: bool, t: nat, ghost m0: Mem, ghost o0: Owners)
      requires Good() && IsRoot(owner, r) && IsRoot(o0, r) && v + k < MAXVPN && (doFree ==> v + k < TRAPFRAME)
      requires PtOk(m0, o0) && Unmaps(m0, o0, mem, owner, r, v, k, doFree)
      requires if t != 0 then t == Base(mem, Step(r, v + k, 0)) < |mem| else Pte(mem, Leaf(r, v + k)) == 0
      modifies this`mem, this`freelist, this`free, this`owner
      ensures Good() && IsRoot(owner, r) && Unmaps(m0, o0, mem, owner, r, v, k + 1, doFree)
    {
      assert !Valid(0);
      hide PtOk, Unmaps, Base, Valid, Ppn, Kmem, Pte, IsEntry;
      LeafAt(mem, owner, r, v + k, t);
      if t == 0 {
        UnmapsHole(m0, o0, mem, owner, r, v, k, doFree);
        return;
      }
      var e := mem[t].w[Low9(v + k)];
      if !Valid(e) {
        UnmapsHole(m0, o0, mem, owner, r, v, k, doFree);
        return;
      }
      ClearEntry(r, v, k, doFree, t, e, m0, o0);
    }

    /** The entry is there: free its frame if asked to, and store 0. */
    method ClearEntry(r: nat, v: nat, k: nat, doFree: bool, t: nat, e: nat, ghost m0: Mem, ghost o0: Owners)
      requires Good() && IsRoot(owner, r) && IsRoot(o0, r) && v + k < MAXVPN && (doFree ==> v + k < TRAPFRAME)
      requires PtOk(m0, o0) && Unmaps(m0, o0, mem, owner, r, v, k, doFree)
      requires t == Base(mem, Step(r, v + k, 0)) < |mem| && mem[t].Words? && e == Pte(mem, Leaf(r, v + k)) && Valid(e)
      modifies this`mem, this`freelist, this`free, this`owner
      ensures Good() && IsRoot(owner, r) && Unmaps(m0, o0, mem, owner, r, v, k + 1, doFree)
    {
      hide PtOk, Unmaps, Base, Valid, Ppn, Kmem, Pte, IsEntry, Low9;
      LeafSlot(mem, owner, r, v + k, t, doFree);
      ghost var m2, o2 := UnmapsMore(m0, o0, mem, owner, r, v, k, doFree, freelist);
      EntryCleared(mem, r, v + k, t, Ppn(e), freelist, doFree);
      if doFree {
        Kfree(Ppn(e));
      }
      KmemKeeps(mem, freelist, free, owner, lo, m2, o2);
      mem := mem[t := Words(mem[t].w[Low9(v + k) := 0])];
      owner := o2;
      UnmapsRoot(m0, o0, mem, owner, r, v, k + 1, doFree);
    }

    // ---- freewalk, uvmcreate and uvmfree ----

    /** freewalk of the table in page pt, which is that of slot s: every page of it is
        freed once, and the entry that pointed to it is left for the caller to clear.
        It panics, and ok is false, exactly if a page is still mapped. */
    method Freewalk(pt: nat, ghost s: Slot) returns (ok: bool)
      requires Good() && pt in owner && owner[pt] == s && IsTable(s)
      modifies this`mem, this`freelist, this`free, this`owner
      ensures ok <==> NoLeaves(old(mem), old(owner), s)
      ensures ok ==> KmemOk() && |mem| == |old(mem)| && Gone(old(mem), old(owner), mem, owner, s)
      ensures ok ==> LeavesStay(old(mem), old(owner), owner)
      ensures ok && s.Root? ==> PtOk(mem, owner) && Fewer(old(mem), mem, owner)
      ensures ok && !s.Root? ==> Dangling(old(mem), mem, owner, s)
      decreases 3 - Rank(s)
    {
      hide PtOk, Shrunk, Fewer, Gone, Dangling, EmptyUpTo, NoLeaves, LeavesStay, IsEntry, Pte, Base, Valid, Ppn, Kmem,
        IsLeaf;
      ghost var m0, o0 := mem, owner;
      BaseOf(mem, owner, pt);
      ShrunkNot(mem, owner, pt, s);
      var i := 0;
      while i < PTES
        invariant i <= PTES && Good() && pt in owner && owner[pt] == s && pt < |mem| && mem[pt].Words?
        invariant Shrunk(m0, o0, mem, owner, s) && Fewer(m0, mem, owner) && LeavesStay(m0, o0, owner)
        invariant EmptyUpTo(mem[pt].w, i) && |mem| == |m0| && (s.Low? ==> mem == m0)
      {
        ok := FreeOne(pt, i, s, m0, o0);
        if !ok {
          return;
        }
        i := i + 1;
      }
      GoneAfter(m0, o0, mem, owner, pt, s, freelist);
      LeavesStayLast(m0, o0, mem, owner, pt, s);
      if s.Root? {
        RootAfter(m0, mem, owner, pt, freelist);
      } else {
        DanglingAfter(m0, mem, owner, pt, s, freelist);
      }
      Kfree(pt);
      NoLeavesBelow(m0, o0, mem, owner, pt, s);
      ok := true;
    }

    /** One pass of freewalk's loop; ok is false where it panics. */
    method FreeOne(pt: nat, i: nat, ghost s: Slot, ghost m0: Mem, ghost o0: Owners) returns (ok: bool)
      requires Good() && pt in owner && owner[pt] == s && IsTable(s) && pt < |mem| && mem[pt].Words? && i < PTES
      requires Shrunk(m0, o0, mem, owner, s) && Fewer(m0, mem, owner) && LeavesStay(m0, o0, owner)
      requires EmptyUpTo(mem[pt].w, i)
      modifies this`mem, this`freelist, this`free, this`owner
      ensures !ok ==> !NoLeaves(m0, o0, s)
      ensures ok ==> Good() && pt in owner && owner[pt] == s && pt < |mem| && mem[pt].Words?
      ensures ok ==> Shrunk(m0, o0, mem, owner, s) && Fewer(m0, mem, owner) && LeavesStay(m0, o0, owner)
      ensures ok ==> EmptyUpTo(mem[pt].w, i + 1) && |mem| == |old(mem)| && (s.Low? ==> mem == old(mem))
      decreases 3 - Rank(s), 0
    {
      hide PtOk, Shrunk, Fewer, Gone, Dangling, EmptyUpTo, NoLeaves, LeavesStay, IsEntry, Pte, Base, Valid, Ppn, Kmem,
        IsLeaf;
      var e := mem[pt].w[i];
      SubEntry(mem, owner, pt, s, i);
      ghost var t := Sub(s, i);
      StillNone(m0, o0, mem, owner, s, t);
      EmptyMore(mem[pt].w, i);
      if !Valid(e) {
        return true;
      }
      if IsLeaf(e) {
        return false;
      }
      ghost var m1, o1 := mem, owner;
      ok := Freewalk(Ppn(e), t);
      if ok {
        SubGone(m0, o0, m1, o1, mem, owner, mem[pt := Words(m1[pt].w[i := 0])], pt, s, i);
        LeavesStayTwice(m0, o0, m1, o1, owner, s);
        KmemKeeps(mem, freelist, free, owner, lo, mem[pt := Words(m1[pt].w[i := 0])], owner);
        mem := mem[pt := Words(mem[pt].w[i := 0])];
      }
    }

    /** uvmcreate. */
    method Uvmcreate() returns (r: nat)
      requires Good()
      modifies this`mem, this`freelist, this`free, this`owner
      ensures Good() && (r == 0 ==> free == [] && mem == old(mem) && owner == old(owner))
      ensures r != 0 ==>
          IsRoot(owner, r) && r !in old(owner) && Private(old(mem), old(owner), mem, owner, r) && MappedBelow(mem, r, 0)
      ensures (r == 0 <==> old(free) == []) && (r != 0 ==> free == old(free)[1..] && owner == old(owner)[r := Root(r)])
    {
      hide PtOk, Private, MappedBelow, Kmem;
      r := Kalloc();
      if r != 0 {
        PrivateNew(old(mem), old(owner), r);
        KmemKeeps(mem, freelist, free, owner, lo, mem[r := Words(NoEntries())], owner[r := Root(r)]);
        mem := mem[r := Words(NoEntries())];
        owner := owner[r := Root(r)];
        assert mem == old(mem)[r := Words(NoEntries())] && owner == old(owner)[r := Root(r)];
      }
    }

    /** uvmfree: every page of the page table and every frame goes back once; it panics,
        and ok is false, exactly if a page beyond sz is mapped. */
    method Uvmfree(r: nat, sz: nat) returns (ok: bool)
      requires Good() && IsRoot(owner, r) && Pages(sz) <= TRAPFRAME
      modifies this`mem, this`freelist, this`free, this`owner
      ensures ok <==> MappedBelow(old(mem), r, Pages(sz))
      ensures ok ==> Good() && Dropped(old(mem), old(owner), mem, owner, r)
    {
      hide PtOk, MappedBelow, Kmem, Unmaps, Gone, Dropped, NoLeaves, Fewer, Pages, LeavesStay;
      ghost var n := Pages(sz);
      if sz > 0 {
        Uvmunmap(r, 0, Pages(sz), true);
      } else {
        UnmapsNothing(mem, owner, r, 0, true);
        NoPages();
      }
      ReadyToFree(old(mem), old(owner), mem, owner, r, n);
      ghost var m1, o1 := mem, owner;
      ok := Freewalk(r, Root(r));
      if ok {
        DroppedAll(old(mem), old(owner), m1, o1, mem, owner, r, n);
      }
    }

    // ---- proc_pagetable and proc_freepagetable ----

    /** proc_pagetable, for the trapframe page tf and the trampoline page tramp.  It takes
        three pages, and fails exactly if there are fewer; then no page is lost.  The
        second mappages finds its tables there, so that it cannot fail. */
    method ProcPagetable(tf: nat, tramp: nat) returns (r: nat)
      requires Sound()
      modifies this`mem, this`freelist, this`free, this`owner, this`spaces
      ensures Sound()
      ensures r == 0 ==> Restored(old(mem), old(owner), mem, owner) && spaces == old(spaces)
      ensures r != 0 ==> r !in old(spaces) && spaces == old(spaces)[r := 0]
      ensures r != 0 ==> IsRoot(owner, r) && Private(old(mem), old(owner), mem, owner, r) && MapsOnly(mem, r, tf, tramp)
      ensures r != 0 <==> |old(free)| >= 3
      ensures r != 0 ==> |free| == |old(free)| - 3
      ensures r != 0 ==> forall s: Slot :: !s.Held? && s.r == r ==> (s in owner.Values <==> s in FreshSlots(r))
    {
      hide Spaces, PtOk, MappedBelow, Kmem, Unmaps, Dropped, MapsTo, Private, Restored, Pte, MapsOnly, Spread,
          MapsSpread, Need, FreshSlots;
      r := Uvmcreate();
      if r == 0 {
        RestoredSelf(mem, owner);
        return;
      }
      ghost var m1, o1 := mem, owner;
      Unmapped(mem, r, TRAMPOLINE);
      FreshNeed(old(mem), old(owner), r);
      var ok, k := Mappages(r, TRAMPOLINE, 1, tramp, PTE_R + PTE_X);
      PrivateMaps(old(mem), old(owner), m1, o1, mem, owner, r, TRAMPOLINE, k, tramp, PTE_R + PTE_X);
      ghost var m2, o2 := mem, owner;
      if !ok {
        StillEmpty(m1, mem, r);
        var freed := Uvmfree(r, 0);
        PrivateDropped(old(mem), old(owner), m2, o2, mem, owner, r);
        RestoredSpaces(old(mem), old(owner), spaces, mem, owner);
        return 0;
      }
      OnlyOne(m1, mem, r, tramp);
      KeptOwners(m1, o1, mem, owner, r, TRAMPOLINE, tramp, PTE_R + PTE_X);
      FreshSpread(old(owner), o1, owner, r, TRAMPOLINE);
      TablesReady(m1, o1, mem, owner, r, tramp);
      var ok2, k2 := Mappages(r, TRAPFRAME, 1, tf, PTE_R + PTE_W);
      PrivateMaps(old(mem), old(owner), m2, o2, mem, owner, r, TRAPFRAME, k2, tf, PTE_R + PTE_W);
      KeptOwners(m2, o2, mem, owner, r, TRAPFRAME, tf, PTE_R + PTE_W);
      FreshSpread(old(owner), o2, owner, r, TRAPFRAME);
      FreshThere(m2, o2, mem, owner, r, tf);
      FreshCount(old(mem), old(freelist), old(free), old(owner), mem, freelist, free, owner, lo, r);
      BothMapped(m1, m2, mem, r, tf, tramp);
      NewSpace(old(mem), old(owner), spaces, mem, owner, r, tf, tramp);
      spaces := spaces[r := 0];
    }

    /** proc_freepagetable: every page of the page table, and every frame below sz, goes
        back once; nothing else changes, and freewalk does not panic. */
    method ProcFreepagetable(r: nat, sz: nat) returns (ok: bool)
      requires Sound() && r in spaces && sz == spaces[r]
      modifies this`mem, this`freelist, this`free, this`owner, this`spaces
      ensures ok && Sound() && spaces == old(spaces) - {r} && Dropped(old(mem), old(owner), mem, owner, r)
    {
      hide Spaces, Guarded, PtOk, MappedBelow, Kmem, Unmaps, Dropped, Pte, UserBelow, Pages;
      SpaceOf(mem, owner, spaces, r);
      Uvmunmap(r, TRAMPOLINE, 1, false);
      ghost var m1, o1 := mem, owner;
      Uvmunmap(r, TRAPFRAME, 1, false);
      ghost var m2, o2 := mem, owner;
      OnlyUser(old(mem), old(owner), m1, o1, m2, o2, r, Pages(sz));
      ok := Uvmfree(r, sz);
      DroppedThen(old(mem), old(owner), m1, o1, m2, o2, mem, owner, r);
      DroppedSpaces(old(mem), old(owner), spaces, mem, owner, r);
      spaces := spaces - {r};
    }

    // ---- uvmalloc, uvmdealloc, uvmcopy and vmfault ----

    /** What uvmalloc, uvmcopy and vmfault do for one page: kalloc, fill the frame,
        mappages, and kfree the frame if that fails. */
    method MapNew(r: nat, v: nat, data: Data, perm: nat) returns (p: nat)
      requires Good() && IsRoot(owner, r) && v < TRAPFRAME && perm < 1024 && IsLeaf(perm)
        && !Valid(Pte(mem, Leaf(r, v)))
      modifies this`mem, this`freelist, this`free, this`owner
      ensures Good() && IsRoot(owner, r)
      ensures p == 0 ==> Grown(old(mem), old(owner), mem, owner, r) && |free| <= 1
      ensures p != 0 ==> Added(old(mem), old(owner), mem, owner, r, v, 1) && Holds(mem, r, v, perm, data)
      ensures p != 0 ==> Ppn(Pte(mem, Leaf(r, v))) == p
      ensures Spread(old(owner), owner, Path(r, v))
      ensures p != 0 <==> Need(old(owner), Path(r, v)) <= |old(free)|
    {
      hide PtOk, Kmem, Grown, MapsTo, Added, Holds, Pte, Valid, Ppn, IsLeaf, MakePte, Spread, MapsSpread, Need;
      GrownSelf(mem, owner, r);
      SpreadNone(owner, Path(r, v));
      p := Kalloc();
      FrameNeed(old(mem), old(owner), p, r, v);
      if p == 0 {
        return;
      }
      ghost var m1, o1 := old(mem)[p := Bytes(data)], old(owner)[p := Held];
      KmemKeeps(mem, freelist, free, owner, lo, m1, o1);
      mem := mem[p := Bytes(data)];
      assert mem == m1;
      FreshFrame(old(mem), old(owner), p, data, r, v);
      var ok, k := Mappages(r, v, 1, p, perm);
      FrameKept(m1, old(owner), p, mem, owner, r, v, k, perm);
      FrameSpread(old(owner), p, owner, r, v, ok);
      if !ok {
        NoFrame(old(mem), old(owner), p, data, mem, owner, r, v, perm, freelist);
        Kfree(p);
        GrownRoot(old(mem), old(owner), mem, owner, r);
        return 0;
      }
      NewFrame(old(mem), old(owner), p, data, mem, owner, r, v, perm);
      NewFrameAt(m1, o1, p, mem, owner, r, v, perm);
    }

    /** uvmdealloc. */
    method Uvmdealloc(r: nat, oldsz: nat, newsz: nat) returns (sz: nat)
      requires Sound() && r in spaces && oldsz == spaces[r]
      modifies this`mem, this`freelist, this`free, this`owner, this`spaces
      ensures Sound() && sz == (if newsz < oldsz then newsz else oldsz) && spaces == old(spaces)[r := sz]
      ensures Unmaps(old(mem), old(owner), mem, owner, r, Pages(sz), Pages(oldsz) - Pages(sz), true)
    {
      hide Spaces, UserBelow, Guarded, PtOk, Kmem, Unmaps;
      SpaceOf(mem, owner, spaces, r);
      UnmapsNothing(mem, owner, r, Pages(oldsz), true);
      if newsz >= oldsz {
        assert spaces == spaces[r := oldsz];
        return oldsz;
      }
      MorePages(newsz, oldsz);
      if Pages(newsz) < Pages(oldsz) {
        Uvmunmap(r, Pages(newsz), Pages(oldsz) - Pages(newsz), true);
      }
      ShrunkSpaces(old(mem), old(owner), spaces, mem, owner, r, newsz);
      spaces := spaces[r := newsz];
      sz := newsz;
    }

    /** uvmalloc: zeroed pages up to newsz; exactly if there are not enough free pages for
        them and for the tables they lack, everything stays mapped as before. */
    method Uvmalloc(r: nat, oldsz: nat, newsz: nat, xperm: nat) returns (sz: nat)
      requires Sound() && r in spaces && oldsz == spaces[r] && newsz <= USERTOP
      requires xperm in {0, PTE_W, PTE_X, PTE_W + PTE_X}
      modifies this`mem, this`freelist, this`free, this`owner, this`spaces
      ensures Sound() && spaces == old(spaces)[r := if sz == newsz then newsz else oldsz]
      ensures newsz < oldsz ==> sz == oldsz && mem == old(mem) && owner == old(owner)
      ensures newsz >= oldsz ==> sz == newsz || sz == 0
      ensures newsz >= oldsz && sz != newsz ==> Grown(old(mem), old(owner), mem, owner, r)
      ensures newsz >= oldsz && sz == newsz ==>
                && Pages(oldsz) <= Pages(newsz)
                && Added(old(mem), old(owner), mem, owner, r, Pages(oldsz), Pages(newsz) - Pages(oldsz))
                && Zeroed(mem, r, Pages(oldsz), Pages(newsz) - Pages(oldsz), PTE_R + PTE_U + xperm)
      ensures SameView(old(mem), old(owner), mem, owner)
      ensures newsz >= oldsz ==>
                (sz == newsz <==> Need(old(owner), Paths(r, NewPages(oldsz, newsz))) <= |old(free)|)
    {
      hide Spaces, PtOk, Kmem, Added, Grown, Zeroed, Pages, SameView, Need, Paths, NewPages;
      SpaceOf(mem, owner, spaces, r);
      GrownSelf(mem, owner, r);
      GrownView(mem, owner, mem, owner, r);
      if newsz < oldsz {
        assert spaces == spaces[r := oldsz];
        return oldsz;
      }
      UserPerm(xperm);
      NothingNew(owner, r, oldsz);
      var ok := Enlarge(r, oldsz, newsz, PTE_R + PTE_U + xperm);
      sz := if ok then newsz else 0;
    }

    /** uvmalloc, once it is clear that the process does not shrink. */
    method Enlarge(r: nat, oldsz: nat, newsz: nat, perm: nat) returns (ok: bool)
      requires Sound() && r in spaces && oldsz == spaces[r] <= newsz <= USERTOP && perm < 1024 && IsLeaf(perm)
      modifies this`mem, this`freelist, this`free, this`owner, this`spaces
      ensures Sound() && spaces == old(spaces)[r := if ok then newsz else oldsz]
      ensures if ok then GrownTo(old(mem), old(owner), mem, owner, r, oldsz, newsz, perm)
              else Grown(old(mem), old(owner), mem, owner, r)
      ensures SameView(old(mem), old(owner), mem, owner)
      ensures ok <==> Need(old(owner), Paths(r, NewPages(oldsz, newsz))) <= |old(free)|
    {
      hide Spaces, UserBelow, Guarded, PtOk, Kmem, Unmaps, Added, Grown, Zeroed, Pte, Valid, Pages, SameView, Need,
          Paths, NewPages, IsLeaf;
      SpaceOf(mem, owner, spaces, r);
      TopPages(newsz);
      MorePages(oldsz, newsz);
      FreeAbove(mem, r, oldsz, newsz);
      NewPagesAre(oldsz, newsz);
      var v, n := Pages(oldsz), Pages(newsz) - Pages(oldsz);
      var k := GrowLoop(r, v, n, perm);
      ok := k == n;
      if ok {
        ZeroedView(old(mem), old(owner), mem, owner, r, v, n, perm);
        AddedSpaces(old(mem), old(owner), spaces, mem, owner, r, v, n, newsz);
        spaces := spaces[r := newsz];
      } else {
        Shrink(r, oldsz, v, k, old(mem), old(owner));
        GrownView(old(mem), old(owner), mem, owner, r);
        GrownSpaces(old(mem), old(owner), old(spaces), mem, owner, r);
        spaces := spaces[r := oldsz];
        assert spaces == old(spaces) == old(spaces)[r := oldsz];
      }
    }

    /** The loop of uvmalloc; k < n if it ran out of memory. */
    method GrowLoop(r: nat, v: nat, n: nat, perm: nat) returns (k: nat)
      requires Good() && IsRoot(owner, r) && v + n <= TRAPFRAME && perm < 1024 && IsLeaf(perm)
      requires forall j :: v <= j < v + n ==> !Valid(Pte(mem, Leaf(r, j)))
      modifies this`mem, this`freelist, this`free, this`owner
      ensures k <= n && Good() && IsRoot(owner, r)
      ensures Added(old(mem), old(owner), mem, owner, r, v, k) && (k == n ==> Zeroed(mem, r, v, k, perm))
      ensures k == n <==> Need(old(owner), Paths(r, Range(v, n))) <= |old(free)|
    {
      hide PtOk, Kmem, Added, Grown, Zeroed, Holds, Pte, Valid, IsLeaf, Spread, Need, Paths;
      AddedNothing(mem, owner, r, v);
      ZeroedNone(mem, r, v, perm);
      ghost var pages := Range(v, n);
      SpreadNone(owner, Paths(r, pages));
      k := 0;
      while k < n
        invariant k <= n && Good() && IsRoot(owner, r) && Spread(old(owner), owner, Paths(r, pages))
        invariant Added(old(mem), old(owner), mem, owner, r, v, k) && Zeroed(mem, r, v, k, perm)
      {
        ghost var m1, l1, f1, o1 := mem, freelist, free, owner;
        StillUnmapped(old(mem), old(owner), mem, owner, r, v, k, v + k);
        var p := MapNew(r, v + k, Zeroes(), perm);
        SpreadPath(old(owner), o1, owner, r, pages, v + k);
        if p == 0 {
          PathsNoRoom(old(mem), old(freelist), old(free), old(owner), m1, l1, f1, o1, lo, r, pages, v + k);
          AddedGrown(old(mem), old(owner), m1, o1, mem, owner, r, v, k);
          return;
        }
        AddedMore(old(mem), old(owner), m1, o1, mem, owner, r, v, k);
        ZeroedMore(m1, o1, mem, owner, r, v, k, perm);
        k := k + 1;
      }
      ZeroedThere(mem, owner, r, v, n, perm);
      PathsRoom(old(mem), old(freelist), old(free), old(owner), mem, freelist, free, owner, lo, r, pages);
    }

    /** uvmdealloc of what a failed uvmalloc has added. */
    method Shrink(r: nat, oldsz: nat, v: nat, k: nat, ghost m0: Mem, ghost o0: Owners)
      requires Good() && IsRoot(owner, r) && Spaces(m0, o0, spaces) && r in spaces && oldsz == spaces[r]
      requires PtOk(m0, o0) && v == Pages(oldsz) && v + k <= TRAPFRAME && Added(m0, o0, mem, owner, r, v, k)
      requires forall j :: v <= j < v + k ==> !Valid(Pte(m0, Leaf(r, j)))
      modifies this`mem, this`freelist, this`free, this`owner, this`spaces
      ensures Good() && IsRoot(owner, r) && Grown(m0, o0, mem, owner, r) && spaces == old(spaces)[r := v * PGSIZE]
    {
      hide Spaces, PtOk, Kmem, Unmaps, Added, Grown, Pages, Pte, Valid;
      ghost var m2, o2 := mem, owner;
      PageEnd(v + k);
      PageEnd(v);
      AddedSpaces(m0, o0, spaces, mem, owner, r, v, k, (v + k) * PGSIZE);
      spaces := spaces[r := (v + k) * PGSIZE];
      var _ := Uvmdealloc(r, (v + k) * PGSIZE, v * PGSIZE);
      AddedUndone(m0, o0, m2, o2, mem, owner, r, v, k);
      SpaceOf(mem, owner, spaces, r);
    }

    /** uvmcopy: the child c maps a copy of each page that r maps below sz, or nothing,
        exactly if there are not enough free pages for these and the tables c lacks. */
    method Uvmcopy(r: nat, c: nat, sz: nat) returns (ok: bool)
      requires Sound() && r in spaces && c in spaces && r != c && sz == spaces[r] && spaces[c] == 0
      modifies this`mem, this`freelist, this`free, this`owner, this`spaces
      ensures Sound() && spaces == old(spaces)[c := if ok then sz else 0] && Pages(sz) <= TRAPFRAME
      ensures ok ==> Added(old(mem), old(owner), mem, owner, c, 0, Pages(sz)) && CopyOf(old(mem), mem, r, c, Pages(sz))
      ensures !ok ==> Grown(old(mem), old(owner), mem, owner, c)
      ensures ok <==> Need(old(owner), Paths(c, MappedPages(old(mem), r, Pages(sz)))) <= |old(free)|
    {
      hide Spaces, UserBelow, Guarded, PtOk, Kmem, Unmaps, Added, Grown, Pte, Valid, Ppn, Pages, Spread, Need, Paths;
      SpaceOf(mem, owner, spaces, r);
      SpaceOf(mem, owner, spaces, c);
      NoPages();
      FreeAbove(mem, c, 0, sz);
      AddedNothing(mem, owner, c, 0);
      var n := Pages(sz);
      ghost var pages := MappedPages(mem, r, n);
      SpreadNone(owner, Paths(c, pages));
      var i := 0;
      while i < n
        invariant i <= n && Good() && IsRoot(owner, c) && spaces == old(spaces)
        invariant Spread(old(owner), owner, Paths(c, pages))
        invariant Added(old(mem), old(owner), mem, owner, c, 0, i) && CopyOf(old(mem), mem, r, c, i)
      {
        ghost var m1, l1, f1, o1 := mem, freelist, free, owner;
        var done := CopyOne(r, c, i, old(mem), old(owner));
        if Valid(Pte(old(mem), Leaf(r, i))) {
          SpreadPath(old(owner), o1, owner, c, pages, i);
        }
        if !done {
          PathsNoRoom(old(mem), old(freelist), old(free), old(owner), m1, l1, f1, o1, lo, c, pages, i);
          ghost var m2, o2 := mem, owner;
          Uvmunmap(c, 0, i, true);
          AddedUndone(old(mem), old(owner), m2, o2, mem, owner, c, 0, i);
          GrownSpaces(old(mem), old(owner), spaces, mem, owner, c);
          assert spaces == spaces[c := 0];
          return false;
        }
        i := i + 1;
      }
      CopiedThere(old(mem), mem, owner, r, c, n);
      PathsRoom(old(mem), old(freelist), old(free), old(owner), mem, freelist, free, owner, lo, c, pages);
      AddedSpaces(old(mem), old(owner), spaces, mem, owner, c, 0, n, sz);
      spaces := spaces[c := sz];
      ok := true;
    }

    /** The entry that walk without alloc finds for page v; 0 if it finds none. */
    method Lookup(r: nat, v: nat) returns (e: nat)
      requires Good() && IsRoot(owner, r) && v < MAXVPN
      modifies this`mem, this`freelist, this`free, this`owner
      ensures Good() && mem == old(mem) && owner == old(owner) && free == old(free) && e == Pte(mem, Leaf(r, v))
    {
      hide PtOk, Kmem, Grown, Pte, Base;
      var t := Walk(r, v, false);
      LeafAt(mem, owner, r, v, t);
      e := if t == 0 then 0 else mem[t].w[Low9(v)];
    }

    /** One pass of uvmcopy's loop. */
    method CopyOne(r: nat, c: nat, i: nat, ghost m0: Mem, ghost o0: Owners) returns (ok: bool)
      requires Good() && IsRoot(o0, r) && IsRoot(o0, c) && IsRoot(owner, c) && r != c && i < TRAPFRAME
      requires PtOk(m0, o0) && Added(m0, o0, mem, owner, c, 0, i) && CopyOf(m0, mem, r, c, i)
      requires !Valid(Pte(m0, Leaf(c, i)))
      modifies this`mem, this`freelist, this`free, this`owner
      ensures Good() && IsRoot(owner, c)
      ensures ok ==> Added(m0, o0, mem, owner, c, 0, i + 1) && CopyOf(m0, mem, r, c, i + 1)
      ensures !ok ==> Added(m0, o0, mem, owner, c, 0, i)
      ensures if Valid(Pte(m0, Leaf(r, i))) then Spread(old(owner), owner, Path(c, i)) else owner == old(owner)
      ensures !ok <==> Valid(Pte(m0, Leaf(r, i))) && Need(old(owner), Path(c, i)) > |old(free)|
    {
      hide PtOk, Kmem, Added, Grown, Valid, Ppn, Pte, CopyOf, CopiedPage, Holds, Flags, Spread, Need, Path;
      AddedRoot(m0, o0, mem, owner, c, 0, i, r);
      PageKept(m0, o0, mem, owner, c, 0, i, r, i);
      StillUnmapped(m0, o0, mem, owner, c, 0, i, i);
      ghost var m1, o1 := mem, owner;
      var e := Lookup(r, i);
      CopySource(m0, o0, r, c, mem, i);
      if !Valid(e) {
        AddedNothing(mem, owner, c, i);
        AddedSkip(mem, owner, mem, owner, c, i, 0);
        AddedSkip(m0, o0, mem, owner, c, 0, i);
        CopyMore(m0, m1, o1, mem, owner, r, c, i);
        return true;
      }
      SourceFrame(mem, owner, r, i);
      var p := MapNew(c, i, mem[Ppn(e)].b, Flags(e));
      if p == 0 {
        AddedGrown(m0, o0, m1, o1, mem, owner, c, 0, i);
        return false;
      }
      AddedMore(m0, o0, m1, o1, mem, owner, c, 0, i);
      CopyDone(m0, o0, m1, o1, r, c, mem, i, i);
      CopyMore(m0, m1, o1, mem, owner, r, c, i);
      ok := true;
    }

    // ---- walkaddr, vmfault, copyin and copyout ----

    /** vmfault, on the page table of the process itself: a frame of zeroes for a page
        below sz that has none. */
    method Vmfault(r: nat, sz: nat, va: nat) returns (p: nat)
      requires Sound() && r in spaces && sz == spaces[r]
      modifies this`mem, this`freelist, this`free, this`owner
      ensures Sound() && IsRoot(owner, r) && SameView(old(mem), old(owner), mem, owner)
      ensures p != 0 ==> va < sz && va / PGSIZE < TRAPFRAME && !Valid(Pte(old(mem), Leaf(r, va / PGSIZE)))
      ensures p != 0 ==> Behind(mem, r, va / PGSIZE, p) && Added(old(mem), old(owner), mem, owner, r, va / PGSIZE, 1)
      ensures SameBlocked(old(mem), mem, r, sz)
      ensures p == 0 ==> Grown(old(mem), old(owner), mem, owner, r)
      ensures p != 0 <==> va < sz && Absent(old(mem), r, sz, va / PGSIZE)
                          && Need(old(owner), Path(r, va / PGSIZE)) <= |old(free)|
      ensures Spread(old(owner), owner,
                     if va < sz then FaultSlots(old(mem), r, sz, va / PGSIZE) else {})
    {
      hide Spaces, UserBelow, PtOk, Kmem, Grown, Added, Holds, Pte, Valid, Ppn, SameView, IsLeaf, Pages, Behind,
          Guarded, SameBlocked, Spread, Need, Path;
      SpaceOf(mem, owner, spaces, r);
      SpreadNone(owner, if va < sz then FaultSlots(mem, r, sz, va / PGSIZE) else {});
      GrownSelf(mem, owner, r);
      GrownView(mem, owner, mem, owner, r);
      GrownBlocked(mem, owner, mem, owner, r, sz);
      if va >= sz {
        return 0;
      }
      var v := va / PGSIZE;
      InPages(va, sz);
      var e := Lookup(r, v);
      if Valid(e) {
        return 0;
      }
      UserPerm(PTE_W);
      p := MapNew(r, v, Zeroes(), PTE_R + PTE_U + PTE_W);
      if p == 0 {
        GrownView(old(mem), old(owner), mem, owner, r);
        GrownBlocked(old(mem), old(owner), mem, owner, r, sz);
        GrownSpaces(old(mem), old(owner), spaces, mem, owner, r);
        return;
      }
      FaultView(old(mem), old(owner), mem, owner, r, v, PTE_R + PTE_U + PTE_W);
      AddedSpaces(old(mem), old(owner), spaces, mem, owner, r, v, 1, sz);
      assert spaces == spaces[r := sz];
      HoldsPage(mem, r, v, PTE_R + PTE_U + PTE_W, Zeroes());
      BehindFault(mem, r, v, p);
      FaultBlocked(old(mem), old(owner), mem, owner, r, sz, v);
    }

    /** walkaddr, and vmfault if that finds nothing: the frame behind page v for the
        user, or 0. */
    method UserFrame(r: nat, sz: nat, v: nat) returns (p: nat)
      requires Sound() && r in spaces && sz == spaces[r]
      modifies this`mem, this`freelist, this`free, this`owner
      ensures Sound() && IsRoot(owner, r) && SameView(old(mem), old(owner), mem, owner)
      ensures p != 0 ==> v < TRAPFRAME && Behind(mem, r, v, p) && !Blocked(old(mem), r, sz, v, false)
      ensures p == 0 ==> Blocked(old(mem), r, sz, v, false)
                         || (Absent(old(mem), r, sz, v) && Need(old(owner), Path(r, v)) > |old(free)|)
      ensures p != 0 && Absent(old(mem), r, sz, v) ==> Need(old(owner), Path(r, v)) <= |old(free)|
      ensures SameBlocked(old(mem), mem, r, sz) && Spread(old(owner), owner, FaultSlots(old(mem), r, sz, v))
    {
      hide PtOk, Kmem, Pte, Valid, Ppn, SameView, IsUser, Spaces, UserBelow, Pages, Behind, Guarded, Blocked;
      hide SameBlocked, Spread, Need, Path;
      SpaceOf(mem, owner, spaces, r);
      SpreadNone(owner, FaultSlots(mem, r, sz, v));
      GrownSelf(mem, owner, r);
      GrownView(mem, owner, mem, owner, r);
      GrownBlocked(mem, owner, mem, owner, r, sz);
      WhenBlocked(mem, r, sz, v);
      ViewRoot(mem, owner, mem, owner, r);
      if v < MAXVPN {
        var e := Lookup(r, v);
        if Valid(e) && IsUser(e) {
          UserInside(mem, r, sz, v);
          BehindUser(mem, owner, freelist, free, lo, r, v);
          return Ppn(e);
        }
      }
      PageStart(v);
      NotFaulted(mem, r, sz, v);
      p := Vmfault(r, sz, v * PGSIZE);
      ViewRoot(old(mem), old(owner), mem, owner, r);
    }

    /** copyin: on success dst is exactly what user code saw at srcva. */
    method Copyin(r: nat, sz: nat, srcva: nat, len: nat) returns (ok: bool, dst: seq<Byte>)
      requires Sound() && r in spaces && sz == spaces[r]
      modifies this`mem, this`freelist, this`free, this`owner
      ensures Sound() && IsRoot(owner, r) && SameView(old(mem), old(owner), mem, owner)
      ensures Got(old(mem), r, srcva, dst) && |dst| <= len && (ok <==> |dst| == len)
      ensures ok <==> Open(old(mem), r, sz, srcva, len, false)
                      && CanFault(old(mem), old(owner), |old(free)|, r, sz, srcva, len)
    {
      hide PtOk, Kmem, SameView, Spaces, UserBelow, Pages, Behind, Guarded, UserPage, UserByte, Got;
      hide SameBlocked, Blocked, Open, CanFault, Spread, FaultedTo, Paths, Faults, Path, Need, FaultSlots, Absent;
      SpreadNone(owner, Paths(r, Faults(mem, r, sz, srcva, len)));
      FaultedNone(mem, owner, r, sz, srcva, len);
      SpaceOf(mem, owner, spaces, r);
      GrownSelf(mem, owner, r);
      GrownBlocked(mem, owner, mem, owner, r, sz);
      OpenNone(mem, r, sz, srcva, false);
      GrownView(mem, owner, mem, owner, r);
      GotNothing(mem, r, srcva);
      dst := [];
      while |dst| < len
        invariant Sound() && IsRoot(owner, r) && SameView(old(mem), old(owner), mem, owner)
        invariant |dst| <= len && Got(old(mem), r, srcva, dst)
        invariant SameBlocked(old(mem), mem, r, sz) && Open(old(mem), r, sz, srcva, |dst|, false)
        invariant Spread(old(owner), owner, Paths(r, Faults(old(mem), r, sz, srcva, len)))
        invariant FaultedTo(old(mem), owner, r, sz, srcva, len, |dst|)
        decreases len - |dst|
      {
        var c := srcva + |dst|;
        ghost var m1, l1, f1, o1 := mem, freelist, free, owner;
        var p := UserFrame(r, sz, c / PGSIZE);
        SameViewTwice(old(mem), old(owner), m1, o1, mem, owner);
        SameBlockedTwice(old(mem), m1, mem, r, sz);
        BlockedThen(old(mem), m1, r, sz, c / PGSIZE, false);
        if p == 0 {
          if Blocked(old(mem), r, sz, c / PGSIZE, false) {
            NotOpen(old(mem), r, sz, srcva, |dst|, len, false);
          } else {
            FaultedNot(old(mem), old(freelist), old(free), old(owner), m1, l1, f1, o1, lo, r, sz, srcva, len, |dst|);
          }
          return false, dst;
        }
        FaultSpread(old(mem), old(owner), m1, o1, owner, r, sz, srcva, len, |dst|);
        BehindThere(mem, owner, r, c / PGSIZE, p);
        var n := PGSIZE - c % PGSIZE;
        if n > len - |dst| {
          n := len - |dst|;
        }
        BehindPage(mem, owner, r, c / PGSIZE, p);
        GotMore(old(mem), old(owner), mem, owner, r, srcva, dst, n, mem[p].b);
        OpenMore(old(mem), r, sz, srcva, |dst|, n, false);
        FaultedMore(old(mem), o1, owner, FaultSlots(m1, r, sz, c / PGSIZE), r, sz, srcva, len, |dst|, n);
        dst := dst + mem[p].b[c % PGSIZE..c % PGSIZE + n];
      }
      FaultedAll(old(mem), old(freelist), old(free), old(owner), mem, freelist, free, owner, lo, r, sz, srcva, len);
      ok := true;
    }

    /** copyout: on success exactly the bytes at dstva change, to src; on failure a
        prefix of them.  Pages without PTE_W are refused. */
    method Copyout(r: nat, sz: nat, dstva: nat, src: seq<Byte>) returns (ok: bool, ghost done: nat)
      requires Sound() && r in spaces && sz == spaces[r]
      modifies this`mem, this`freelist, this`free, this`owner
      ensures Sound() && IsRoot(owner, r) && done <= |src| && (ok <==> done == |src|)
      ensures Wrote(old(mem), old(owner), mem, r, dstva, src, done)
      ensures ok <==> Open(old(mem), r, sz, dstva, |src|, true)
                      && CanFault(old(mem), old(owner), |old(free)|, r, sz, dstva, |src|)
    {
      hide PtOk, Kmem, Spaces, UserBelow, Pages, Behind, Guarded, UserPage, UserByte, Wrote, SameView;
      hide SameBlocked, Blocked, Open, CanFault, Spread, FaultedTo, Paths, Faults, Path, Need, FaultSlots, Absent;
      SpreadNone(owner, Paths(r, Faults(mem, r, sz, dstva, |src|)));
      FaultedNone(mem, owner, r, sz, dstva, |src|);
      SpaceOf(mem, owner, spaces, r);
      GrownSelf(mem, owner, r);
      GrownBlocked(mem, owner, mem, owner, r, sz);
      OpenNone(mem, r, sz, dstva, true);
      WroteNothing(mem, owner, r, dstva, src);
      done := 0;
      var k := 0;
      while k < |src|
        invariant k == done <= |src| && Sound() && IsRoot(owner, r)
        invariant forall x :: IsRoot(old(owner), x) ==> IsRoot(owner, x)
        invariant Wrote(old(mem), old(owner), mem, r, dstva, src, done)
        invariant SameBlocked(old(mem), mem, r, sz) && Open(old(mem), r, sz, dstva, k, true)
        invariant Spread(old(owner), owner, Paths(r, Faults(old(mem), r, sz, dstva, |src|)))
        invariant FaultedTo(old(mem), owner, r, sz, dstva, |src|, k)
      {
        ghost var m1, l1, f1, o1 := mem, freelist, free, owner;
        var n := PutChunk(r, sz, dstva, src, k, old(mem), old(owner));
        SameBlockedTwice(old(mem), m1, mem, r, sz);
        BlockedThen(old(mem), m1, r, sz, (dstva + k) / PGSIZE, true);
        if n == 0 {
          if Blocked(old(mem), r, sz, (dstva + k) / PGSIZE, true) {
            NotOpen(old(mem), r, sz, dstva, k, |src|, true);
          } else {
            FaultedNot(old(mem), old(freelist), old(free), old(owner), m1, l1, f1, o1, lo, r, sz, dstva, |src|, k);
          }
          return false, done;
        }
        OpenMore(old(mem), r, sz, dstva, k, n, true);
        FaultSpread(old(mem), old(owner), m1, o1, owner, r, sz, dstva, |src|, k);
        FaultedMore(old(mem), o1, owner, FaultSlots(m1, r, sz, (dstva + k) / PGSIZE), r, sz, dstva, |src|, k, n);
        done := done + n;
        k := k + n;
      }
      FaultedAll(old(mem), old(freelist), old(free), old(owner), mem, freelist, free, owner, lo, r, sz, dstva, |src|);
      ok := true;
    }

    /** One pass of copyout's loop; 0 if it gives up. */
    method PutChunk(r: nat, sz: nat, dstva: nat, src: seq<Byte>, k: nat, ghost m0: Mem,
                    ghost o0: Owners) returns (n: nat)
      requires Sound() && r in spaces && sz == spaces[r] && IsRoot(o0, r) && k < |src|
      requires (forall x :: IsRoot(o0, x) ==> IsRoot(owner, x)) && Wrote(m0, o0, mem, r, dstva, src, k)
      modifies this`mem, this`freelist, this`free, this`owner
      ensures Sound() && IsRoot(owner, r) && k + n <= |src|
      ensures (forall x :: IsRoot(o0, x) ==> IsRoot(owner, x)) && Wrote(m0, o0, mem, r, dstva, src, k + n)
      ensures SameBlocked(old(mem), mem, r, sz) && n <= PGSIZE - (dstva + k) % PGSIZE
      ensures n > 0 ==> !Blocked(old(mem), r, sz, (dstva + k) / PGSIZE, true)
      ensures var v := (dstva + k) / PGSIZE;
              && (n == 0 ==> Blocked(old(mem), r, sz, v, true)
                             || (Absent(old(mem), r, sz, v) && Need(old(owner), Path(r, v)) > |old(free)|))
              && Spread(old(owner), owner, FaultSlots(old(mem), r, sz, v)) && (n > 0 ==> Path(r, v) <= owner.Values)
    {
      hide PtOk, Kmem, SameView, Spaces, UserBelow, Pages, Behind, Guarded, UserPage, UserByte, Wrote, Pte,
          PageWritten, IsWritable, Blocked, SameBlocked, Spread, Need, Path, FaultSlots, Absent;
      SpaceOf(mem, owner, spaces, r);
      var c := dstva + k;
      ghost var m1, o1 := mem, owner;
      GrownSelf(mem, owner, r);
      GrownBlocked(mem, owner, mem, owner, r, sz);
      SpreadNone(owner, FaultSlots(mem, r, sz, c / PGSIZE));
      if c / PGSIZE >= MAXVPN {
        FarBlocked(mem, r, sz, c / PGSIZE);
        return 0;
      }
      var p := UserFrame(r, sz, c / PGSIZE);
      BlockedForWriting(m1, r, sz, c / PGSIZE);
      WroteView(m0, o0, m1, o1, mem, owner, r, dstva, src, k);
      ViewRoots(m1, o1, mem, owner);
      if p == 0 {
        return 0;
      }
      var e := Lookup(r, c / PGSIZE);
      WritableThen(m1, mem, r, sz, c / PGSIZE, p);
      if !IsWritable(e) {
        return 0;
      }
      n := PGSIZE - c % PGSIZE;
      if n > |src| - k {
        n := |src| - k;
      }
      BehindPage(mem, owner, r, c / PGSIZE, p);
      BehindThere(mem, owner, r, c / PGSIZE, p);
      var data := Splice(mem[p].b, c % PGSIZE, src[k..k + n]);
      ghost var m2 := mem;
      BehindWrite(mem, owner, r, c / PGSIZE, p, data);
      KmemKeeps(mem, freelist, free, owner, lo, mem[p := Bytes(data)], owner);
      WroteMore(m0, o0, mem, owner, mem[p := Bytes(data)], r, dstva, src, k, n, mem[p].b);
      WrittenSpaces(mem, owner, spaces, mem[p := Bytes(data)]);
      WrittenBlocked(mem, owner, mem[p := Bytes(data)], r, sz);
      SameBlockedTwice(m1, mem, mem[p := Bytes(data)], r, sz);
      mem := mem[p := Bytes(data)];
    }

    /** The memory side of kfork: a page table for the child with a copy of every page.
        It fails exactly if there are not enough pages for all of that, and then freeproc
        gives every page back. */
    method ForkMemory(r: nat, sz: nat, tf: nat, tramp: nat) returns (c: nat)
      requires Sound() && r in spaces && sz == spaces[r]
      modifies this`mem, this`freelist, this`free, this`owner, this`spaces
      ensures Sound() && Pages(sz) <= TRAPFRAME
      ensures c == 0 ==> Restored(old(mem), old(owner), mem, owner) && spaces == old(spaces)
      ensures c != 0 ==> c !in old(spaces) && spaces == old(spaces)[c := sz]
      ensures c != 0 ==> IsRoot(owner, c) && c != r && Private(old(mem), old(owner), mem, owner, c)
      ensures c != 0 ==> forall j :: 0 <= j < Pages(sz) ==> UserPage(mem, c, j) == UserPage(old(mem), r, j)
      ensures c != 0 <==> ForkNeed(MappedPages(old(mem), r, Pages(sz))) <= |old(free)|
    {
      hide Spaces, Guarded, PtOk, Kmem, Pages, Private, Restored, Dropped, Added, Grown, CopyOf, UserPage, UserBelow,
          MapsOnly, Pte, Need, Paths, ForkNeed, FreshSlots, MappedPages;
      SpaceOf(mem, owner, spaces, r);
      ForkAtLeast(MappedPages(mem, r, Pages(sz)));
      c := ProcPagetable(tf, tramp);
      if c == 0 {
        return;
      }
      ghost var m1, o1 := mem, owner;
      PrivateRoot(old(mem), old(owner), mem, owner, r, c);
      SameMapped(old(mem), old(owner), mem, owner, r, c, Pages(sz));
      ForkRoom(owner, c, MappedPages(mem, r, Pages(sz)), |old(free)|, |free|);
      var ok := Uvmcopy(r, c, sz);
      ghost var m2, o2 := mem, owner;
      if !ok {
        PrivateGrown(old(mem), old(owner), m1, o1, mem, owner, c);
        var freed := ProcFreepagetable(c, 0);
        PrivateDropped(old(mem), old(owner), m2, o2, mem, owner, c);
        assert spaces == old(spaces);
        return 0;
      }
      PrivateAdded(old(mem), old(owner), m1, o1, mem, owner, c, Pages(sz));
      PrivatePages(old(mem), old(owner), m1, o1, r, c);
      SpaceOf(mem, owner, spaces, c);
      CopySeenAll(m1, mem, r, c, Pages(sz));
    }

    // ---- sbrk ----

    /** sys_sbrk and growproc.  Growing, eagerly or lazily, changes no byte that can be
        read, since a page without a frame reads as zeroes; shrinking by more than sz
        wraps around and changes nothing. */
    method Sbrk(r: nat, sz: nat, n: int, eager: bool) returns (ret: int, sz': nat)
      requires Sound() && r in spaces && sz == spaces[r] && -0x8000_0000 <= n < 0x8000_0000
      modifies this`mem, this`freelist, this`free, this`owner, this`spaces
      ensures Sound() && sz' <= USERTOP && spaces == old(spaces)[r := sz']
      ensures ret == -1 ==> n > 0 && sz' == sz
      ensures ret != -1 ==> ret == sz && sz' == if sz + n >= 0 then sz + n else sz
      ensures sz + n > USERTOP ==> ret == -1
      ensures !eager && sz + n <= USERTOP ==> ret != -1
      ensures eager && n > 0 && sz + n <= USERTOP ==>
                (ret == -1 <==> Need(old(owner), Paths(r, NewPages(sz, sz + n))) > |old(free)|)
      ensures forall x, j :: IsRoot(old(owner), x) && 0 <= j < TRAPFRAME ==>
                UserPage(mem, x, j) == if x == r && Pages(sz') <= j < Pages(sz) then Zeroes()
                                       else UserPage(old(mem), x, j)
    {
      hide Spaces, Guarded, PtOk, Kmem, Unmaps, Added, Grown, Zeroed, Pte, Valid, UserPage, UserBelow, Pages, Need,
          Paths, NewPages;
      ret, sz' := sz, sz;
      SpaceOf(mem, owner, spaces, r);
      assert spaces == spaces[r := sz];
      TopPages(sz);
      if eager || n < 0 {
        if n > 0 {
          if sz + n > USERTOP {
            return -1, sz;
          }
          var got := Uvmalloc(r, sz, sz + n, PTE_W);
          if got == 0 {
            return -1, sz;
          }
          MorePages(sz, sz + n);
          sz' := got;
        } else if n < 0 {
          var want := (sz + n) % 0x1_0000_0000_0000_0000;
          sz' := Uvmdealloc(r, sz, want);
          MorePages(sz', sz);
          ShrunkView(old(mem), old(owner), mem, owner, r, sz', sz);
        }
      } else {
        if sz + n > USERTOP {
          return -1, sz;
        }
        MorePages(sz, sz + n);
        LazySpaces(mem, owner, spaces, r, sz + n);
        spaces := spaces[r := sz + n];
        sz' := sz + n;
      }
    }

    // ---- whole runs ----

    /** One call of any process.  A page table that is not there makes no call. */
    method Perform(call: Call)
      requires Sound()
      modifies this`mem, this`freelist, this`free, this`owner, this`spaces
      ensures Sound() && Performed(call, old(mem), old(owner), |old(free)|, old(spaces), spaces)
    {
      hide Spaces, Good, Need, Paths, NewPages, ForkNeed, MappedPages, UserPage, Private, Restored, Added, Grown,
           Dropped, SameView, SameBlocked, MapsOnly, FreshSlots, Open, CanFault, Wrote, Got;
      match call {
        case Spawn(tf, tramp) =>
          var _ := ProcPagetable(tf, tramp);
        case Fork(r, tf, tramp) =>
          if r in spaces {
            var _ := ForkMemory(r, spaces[r], tf, tramp);
          }
        case Exit(r) =>
          if r in spaces {
            var _ := ProcFreepagetable(r, spaces[r]);
          }
        case Grow(r, n, eager) =>
          if r in spaces {
            var _, _ := Sbrk(r, spaces[r], n, eager);
          }
        case Touch(r, va) =>
          if r in spaces {
            var _ := Vmfault(r, spaces[r], va);
          }
        case Fetch(r, va, len) =>
          if r in spaces {
            var _, _ := Copyin(r, spaces[r], va, len);
          }
        case Store(r, va, bytes) =>
          if r in spaces {
            var _, _ := Copyout(r, spaces[r], va, bytes);
          }
      }
    }

    /** However the calls of all processes follow each other, once every process has
        exited all pages but those the kernel holds itself are on the free list. */
    method RunAndExit(calls: seq<Call>)
      requires Sound()
      modifies this`mem, this`freelist, this`free, this`owner, this`spaces
      ensures Sound() && spaces == map[]
      ensures forall p :: lo <= p < top ==> p in free || (p in owner && owner[p] == Held)
    {
      hide Spaces, PtOk;
      var i := 0;
      while i < |calls|
        invariant i <= |calls| && Sound()
      {
        Perform(calls[i]);
        i := i + 1;
      }
      while spaces != map[]
        invariant Sound()
        decreases |spaces|
      {
        var r :| r in spaces;
        ghost var s := spaces;
        var _ := ProcFreepagetable(r, spaces[r]);
        assert s.Keys == spaces.Keys + {r};
      }
      NoProcessNoPage(mem, owner);
    }
  }

  /** What processes do to memory: exec apart, every way into this file. */
  datatype Call =
    | Spawn(tf: nat, tramp: nat)
    | Fork(r: nat, tf: nat, tramp: nat)
    | Exit(r: nat)
    | Grow(r: nat, n: int32, eager: bool)
    | Touch(r: nat, va: nat)
    | Fetch(r: nat, va: nat, len: nat)
    | Store(r: nat, va: nat, bytes: seq<Byte>)

  type int32 = n: int | -0x8000_0000 <= n < 0x8000_0000

  /** What a call makes of the address spaces and their sizes, with so many pages free. */
  ghost predicate Performed(call: Call, mem: Mem, owner: Owners, free: nat, spaces: Sizes, spaces': Sizes) {
    match call
    case Spawn(_, _) =>
      if free < 3 then spaces' == spaces else exists c: nat :: c !in spaces && spaces' == spaces[c := 0]
    case Fork(r, _, _) =>
      if r !in spaces then spaces' == spaces
      else
        && Pages(spaces[r]) <= TRAPFRAME
        && if ForkNeed(MappedPages(mem, r, Pages(spaces[r]))) > free then spaces' == spaces
           else exists c: nat :: c !in spaces && spaces' == spaces[c := spaces[r]]
    case Exit(r) =>
      spaces' == spaces - {r}
    case Grow(r, n, eager) =>
      if r !in spaces || spaces[r] + n < 0 || spaces[r] + n > USERTOP then spaces' == spaces
      else if n > 0 && eager && Need(owner, Paths(r, NewPages(spaces[r], spaces[r] + n))) > free then spaces' == spaces
      else spaces' == spaces[r := spaces[r] + n]
    case _ =>
      spaces' == spaces
  }

  /** Every page in use is the kernel's or belongs to a process. */
  lemma NoProcessNoPage(mem: Mem, owner: Owners)
    requires PtOk(mem, owner) && Spaces(mem, owner, map[])
    ensures forall q :: q in owner ==> owner[q] == Held
  {
    hide Pte, Valid, Ppn;
    forall q | q in owner
      ensures owner[q] == Held
    {
      assert PageOk(mem, owner, q);
      assert owner[q].Held? || IsRoot(owner, owner[q].r);
    }
  }

  lemma HeadNull(mem: Mem, freelist: nat, free: seq<nat>, owner: Owners, lo: nat)
    requires Kmem(mem, freelist, free, owner, lo)
    ensures freelist == 0 <==> free == []
  {
    if free != [] {
      assert free[0] in free;
    }
  }

  lemma RootStep(mem: Mem, owner: Owners, r: nat, v: nat)
    requires PtOk(mem, owner) && IsRoot(owner, r)
    ensures Base(mem, Step(r, v, 2)) == r < |mem|
  {
    assert PageOk(mem, owner, r);
  }

  lemma SpreadTable(o0: Owners, o1: Owners, o2: Owners, r: nat, v: nat, level: nat, p: nat)
    requires Spread(o0, o1, Tables(r, v)) && level < 2 && p !in o1 && o2 == o1[p := Step(r, v, level)]
    ensures Spread(o0, o2, Tables(r, v))
  {
  }

  lemma LowerTable(r: nat, v: nat, level: nat)
    requires 0 < level <= 2
    ensures Step(r, v, level - 1).Mid? || Step(r, v, level - 1).Low?
  {
  }

  lemma GrownRoot(mem: Mem, owner: Owners, mem': Mem, owner': Owners, r: nat)
    requires Grown(mem, owner, mem', owner', r) && IsRoot(owner, r)
    ensures IsRoot(owner', r)
  {
  }

  lemma InsideMemory(mem: Mem, owner: Owners, freelist: nat, free: seq<nat>, lo: nat, r: nat, v: nat)
    requires Kmem(mem, freelist, free, owner, lo) && PtOk(mem, owner) && IsRoot(owner, r)
    requires Base(mem, Step(r, v, 0)) < |mem|
    ensures Base(mem, Step(r, v, 0)) != 0
  {
    BaseOwned(mem, owner, Step(r, v, 0));
  }

  /** A frame in the kernel's hands, ready to be mapped. */
  lemma MapsSpreadNone(owner: Owners, r: nat, v: nat, n: nat)
    ensures MapsSpread(owner, owner, r, v, n)
  {
  }

  lemma MapsValid(m0: Mem, o0: Owners, mem: Mem, owner: Owners, r: nat, v: nat, n: nat, p: nat, perm: nat)
    requires perm < 1024 && MapsTo(m0, o0, mem, owner, r, v, n, p, perm) && IsRoot(o0, r) && v + n <= ALLVPN
    ensures forall j :: v <= j < v + n ==> Valid(Pte(mem, Leaf(r, j)))
  {
    hide Pte, MakePte, Valid;
    forall j | v <= j < v + n
      ensures Valid(Pte(mem, Leaf(r, j)))
    {
      assert Live(o0, Leaf(r, j));
      MadePte(p + (j - v), perm);
    }
  }

  ghost predicate Spare(mem: Mem, owner: Owners, p: nat) {
    p in owner && owner[p] == Held && p < |mem| && mem[p].Bytes?
  }

  lemma SpareOwned(m0: Mem, o0: Owners, mem: Mem, owner: Owners, r: nat, v: nat, k: nat, p: nat, perm: nat)
    requires perm < 1024 && MapsTo(m0, o0, mem, owner, r, v, k, p, perm) && IsRoot(o0, r)
    ensures IsRoot(owner, r) && (p + k in o0 ==> p + k in owner && (o0[p + k] == Held ==> p + k != r))
  {
  }

  lemma UnmapsRoot(m0: Mem, o0: Owners, mem: Mem, owner: Owners, r: nat, v: nat, n: nat, doFree: bool)
    requires Unmaps(m0, o0, mem, owner, r, v, n, doFree) && IsRoot(o0, r)
    ensures IsRoot(owner, r)
  {
  }

  lemma LeafSlot(mem: Mem, owner: Owners, r: nat, v: nat, t: nat, doFree: bool)
    requires PtOk(mem, owner) && IsRoot(owner, r) && v < MAXVPN && (doFree ==> v < TRAPFRAME)
    requires t == Base(mem, Step(r, v, 0)) < |mem|
    ensures var s := Leaf(r, v);
            && IsEntry(s) && Parent(s) == Step(r, v, 0) && HasSlot(mem, owner, s) && (doFree ==> Owns(s))
            && t in owner && owner[t] == Parent(s)
  {
    hide Pte, Valid, Ppn;
    SlotHas(mem, owner, Leaf(r, v));
  }

  /** The two stores of uvmunmap, in either order. */
  lemma EntryCleared(mem: Mem, r: nat, v: nat, t: nat, p: nat, link: nat, doFree: bool)
    requires v < MAXVPN && t == Base(mem, Step(r, v, 0)) < |mem| && mem[t].Words? && (doFree ==> p < |mem| && p != t)
    ensures var m := if doFree then mem[p := Link(link)] else mem;
            && Base(mem, Parent(Leaf(r, v))) == t && m[t].Words?
            && m[t := Words(m[t].w[Low9(v) := 0])]
               == if doFree then SetPte(mem, Leaf(r, v), 0)[p := Link(link)] else SetPte(mem, Leaf(r, v), 0)
  {
    hide Pte, Valid, Ppn, Base, Low9;
  }

  lemma ShrunkNot(mem: Mem, owner: Owners, pt: nat, s: Slot)
    ensures Shrunk(mem, owner, mem, owner, s) && Fewer(mem, mem, owner) && LeavesStay(mem, owner, owner)
    ensures pt < |mem| && mem[pt].Words? ==> EmptyUpTo(mem[pt].w, 0)
  {
  }

  /** If s had no leaves to begin with, then neither has what is left of it. */
  lemma StillNone(m0: Mem, o0: Owners, mem: Mem, owner: Owners, s: Slot, t: Slot)
    requires Shrunk(m0, o0, mem, owner, s) && Fewer(m0, mem, owner) && IsEntry(t) && Parent(t) == s && Live(owner, t)
    ensures NoLeaves(m0, o0, s) ==> NoLeaves(mem, owner, t) && (t.Leaf? ==> !Valid(Pte(mem, t)))
  {
    if NoLeaves(m0, o0, s) {
      NoLeavesFewer(m0, o0, mem, owner, s);
      NoLeavesDown(mem, owner, s, t);
      BelowMore(s, t, t);
    }
  }

  lemma EmptyMore(w: Table, i: nat)
    requires EmptyUpTo(w, i) && i < PTES
    ensures EmptyUpTo(w[i := 0], i + 1) && (!Valid(w[i]) ==> EmptyUpTo(w, i + 1))
  {
  }

  // ---- page tables of processes ----

  lemma NoPages()
    ensures Pages(0) == 0
  {
  }

  lemma RestoredSelf(mem: Mem, owner: Owners)
    ensures Restored(mem, owner, mem, owner)
  {
  }

  lemma Unmapped(mem: Mem, r: nat, v: nat)
    requires MappedBelow(mem, r, 0) && v < ALLVPN
    ensures !Valid(Pte(mem, Leaf(r, v)))
  {
  }

  lemma StillEmpty(m1: Mem, mem: Mem, r: nat)
    requires MappedBelow(m1, r, 0)
    requires forall w :: 0 <= w < ALLVPN && w != TRAMPOLINE ==> Pte(mem, Leaf(r, w)) == Pte(m1, Leaf(r, w))
    requires Pte(mem, Leaf(r, TRAMPOLINE)) == Pte(m1, Leaf(r, TRAMPOLINE))
    ensures MappedBelow(mem, r, Pages(0))
  {
    hide Pte, Valid;
  }

  lemma OnlyOne(m1: Mem, mem: Mem, r: nat, tramp: nat)
    requires MappedBelow(m1, r, 0)
    requires forall w :: 0 <= w < ALLVPN && w != TRAMPOLINE ==> Pte(mem, Leaf(r, w)) == Pte(m1, Leaf(r, w))
    ensures !Valid(Pte(mem, Leaf(r, TRAPFRAME)))
  {
    hide Pte, Valid;
  }

  lemma KeptOwners(m1: Mem, o1: Owners, mem: Mem, owner: Owners, r: nat, v: nat, p: nat, perm: nat)
    requires perm < 1024 && MapsTo(m1, o1, mem, owner, r, v, 1, p, perm) && (v == TRAMPOLINE || v == TRAPFRAME)
    ensures forall q :: q in o1 ==> q in owner && owner[q] == o1[q]
  {
    hide MapsPtes;
  }

  /** The trampoline is mapped, and so the tables of the trapframe are there. */
  lemma TablesReady(m1: Mem, o1: Owners, mem: Mem, owner: Owners, r: nat, tramp: nat)
    requires PtOk(mem, owner) && IsRoot(owner, r) && IsRoot(o1, r)
    requires MapsTo(m1, o1, mem, owner, r, TRAMPOLINE, 1, tramp, PTE_R + PTE_X)
    ensures Need(owner, TablesOf(r, TRAPFRAME, 1)) == 0
  {
    hide PtOk, Pte, Valid, MapsTo;
    MapsValid(m1, o1, mem, owner, r, TRAMPOLINE, 1, tramp, PTE_R + PTE_X);
    MappedThere(mem, owner, r, TRAMPOLINE);
    SharedTables(r);
    NeedNone(owner, TablesOf(r, TRAPFRAME, 1));
  }

  lemma FreshThere(m2: Mem, o2: Owners, mem: Mem, owner: Owners, r: nat, tf: nat)
    requires PtOk(mem, owner) && IsRoot(owner, r) && IsRoot(o2, r)
    requires MapsTo(m2, o2, mem, owner, r, TRAPFRAME, 1, tf, PTE_R + PTE_W)
    ensures FreshSlots(r) <= owner.Values
  {
    hide PtOk, Pte, Valid, MapsTo;
    MapsValid(m2, o2, mem, owner, r, TRAPFRAME, 1, tf, PTE_R + PTE_W);
    MappedThere(mem, owner, r, TRAPFRAME);
    SharedTables(r);
    assert owner[r] == Root(r);
  }

  lemma BothMapped(m1: Mem, m2: Mem, mem: Mem, r: nat, tf: nat, tramp: nat)
    requires MappedBelow(m1, r, 0)
    requires forall w :: 0 <= w < ALLVPN && w != TRAMPOLINE ==> Pte(m2, Leaf(r, w)) == Pte(m1, Leaf(r, w))
    requires forall w :: 0 <= w < ALLVPN && w != TRAPFRAME ==> Pte(mem, Leaf(r, w)) == Pte(m2, Leaf(r, w))
    requires Pte(m2, Leaf(r, TRAMPOLINE)) == MakePte(tramp, PTE_R + PTE_X)
    requires Pte(mem, Leaf(r, TRAPFRAME)) == MakePte(tf, PTE_R + PTE_W)
    ensures MapsOnly(mem, r, tf, tramp)
  {
    hide Pte, Valid, MakePte;
  }

  lemma OnlyUser(m0: Mem, o0: Owners, m1: Mem, o1: Owners, m2: Mem, o2: Owners, r: nat, n: nat)
    requires IsRoot(o0, r) && UserBelow(m0, r, n)
    requires Unmaps(m0, o0, m1, o1, r, TRAMPOLINE, 1, false) && Unmaps(m1, o1, m2, o2, r, TRAPFRAME, 1, false)
    ensures MappedBelow(m2, r, n)
  {
    assert !Valid(0);
    hide Pte, Valid;
    forall v | n <= v < ALLVPN
      ensures !Valid(Pte(m2, Leaf(r, v)))
    {
      assert Live(o0, Leaf(r, v)) && Live(o1, Leaf(r, v));
    }
  }

  lemma DroppedThen(m0: Mem, o0: Owners, m1: Mem, o1: Owners, m2: Mem, o2: Owners, mem: Mem, owner: Owners, r: nat)
    requires PtOk(m0, o0) && Dropped(m2, o2, mem, owner, r) && IsRoot(o0, r)
    requires Unmaps(m0, o0, m1, o1, r, TRAMPOLINE, 1, false) && Unmaps(m1, o1, m2, o2, r, TRAPFRAME, 1, false)
    ensures Dropped(m0, o0, mem, owner, r)
  {
    hide Pte;
    forall q | q in o0
      ensures !In(o0[q], r, TRAMPOLINE, 1) && !In(o0[q], r, TRAPFRAME, 1)
    {
      assert PageOk(m0, o0, q);
    }
    forall x: Slot | x.Leaf? && Live(owner, x)
      ensures Pte(mem, x) == Pte(m0, x)
    {
      assert Live(o2, x) && Live(o1, x) && Live(o0, x);
    }
  }

  // ---- growing and copying ----

  lemma FreshFrame(m0: Mem, o0: Owners, p: nat, data: Data, r: nat, v: nat)
    requires PtOk(m0, o0) && p !in o0 && p < |m0| && IsRoot(o0, r) && v < MAXVPN
    ensures var m, o := m0[p := Bytes(data)], o0[p := Held];
            PtOk(m, o) && IsRoot(o, r) && Spare(m, o, p) && Pte(m, Leaf(r, v)) == Pte(m0, Leaf(r, v))
  {
    var m, o := m0[p := Bytes(data)], o0[p := Held];
    FrameKeeps(m0, o0, m, o);
    assert Live(o, Leaf(r, v));
  }

  lemma FrameKept(m1: Mem, o0: Owners, p: nat, mem: Mem, owner: Owners, r: nat, v: nat, k: nat, perm: nat)
    requires p !in o0 && perm < 1024 && k <= 1 && MapsTo(m1, o0[p := Held], mem, owner, r, v, k, p, perm)
    requires v < TRAPFRAME
    ensures forall q :: q in o0 ==> q in owner && owner[q] == o0[q]
    ensures k == 1 ==> p in owner && owner[p] == Leaf(r, v)
  {
    hide MapsPtes;
    forall q | q in o0
      ensures q in owner && owner[q] == o0[q]
    {
      assert q in o0[p := Held] && q != p;
    }
    assert p in o0[p := Held];
  }

  lemma NewFrameAt(m1: Mem, o1: Owners, p: nat, mem: Mem, owner: Owners, r: nat, v: nat, perm: nat)
    requires perm < 1024 && MapsTo(m1, o1, mem, owner, r, v, 1, p, perm) && IsRoot(o1, r) && v < TRAPFRAME
    ensures Ppn(Pte(mem, Leaf(r, v))) == p
  {
    hide Pte;
    MadePte(p, perm);
    assert Live(o1, Leaf(r, v));
  }

  lemma MorePages(a: nat, b: nat)
    requires a <= b
    ensures Pages(a) <= Pages(b)
  {
  }

  lemma PageEnd(v: nat)
    ensures Pages(v * PGSIZE) == v
  {
  }

  lemma UserPerm(xperm: nat)
    requires xperm in {0, PTE_W, PTE_X, PTE_W + PTE_X}
    ensures PTE_R + PTE_U + xperm < 1024 && IsLeaf(PTE_R + PTE_U + xperm)
  {
  }

  lemma ZeroedNone(mem: Mem, r: nat, v: nat, perm: nat)
    requires perm < 1024 && v <= TRAPFRAME
    ensures Zeroed(mem, r, v, 0, perm)
  {
  }

  /** Zeroed frames have been added for exactly the pages from oldsz up to newsz. */
  ghost predicate GrownTo(m0: Mem, o0: Owners, mem: Mem, owner: Owners, r: nat, oldsz: nat, newsz: nat, perm: nat)
    requires perm < 1024
  {
    && Pages(oldsz) <= Pages(newsz) <= TRAPFRAME
    && Added(m0, o0, mem, owner, r, Pages(oldsz), Pages(newsz) - Pages(oldsz))
    && Zeroed(mem, r, Pages(oldsz), Pages(newsz) - Pages(oldsz), perm)
  }

  lemma NothingNew(owner: Owners, r: nat, sz: nat)
    ensures Need(owner, Paths(r, NewPages(sz, sz))) == 0
  {
    assert Lacking(owner, Paths(r, NewPages(sz, sz))) == {};
  }

  lemma NewPagesAre(oldsz: nat, newsz: nat)
    requires Pages(oldsz) <= Pages(newsz)
    ensures NewPages(oldsz, newsz) == Range(Pages(oldsz), Pages(newsz) - Pages(oldsz))
  {
  }

  lemma ZeroedThere(mem: Mem, owner: Owners, r: nat, v: nat, n: nat, perm: nat)
    requires PtOk(mem, owner) && IsRoot(owner, r) && perm < 1024 && v + n <= TRAPFRAME && Zeroed(mem, r, v, n, perm)
    ensures forall j :: v <= j < v + n ==> Path(r, j) <= owner.Values
  {
    hide PtOk, Pte, Valid, Holds, Path;
    forall j | v <= j < v + n
      ensures Path(r, j) <= owner.Values
    {
      HoldsPage(mem, r, j, perm, Zeroes());
      MappedThere(mem, owner, r, j);
    }
  }

  lemma StillUnmapped(m0: Mem, o0: Owners, mem: Mem, owner: Owners, r: nat, v: nat, n: nat, j: nat)
    requires Added(m0, o0, mem, owner, r, v, n) && IsRoot(o0, r) && v + n <= j < ALLVPN && !Valid(Pte(m0, Leaf(r, j)))
    ensures !Valid(Pte(mem, Leaf(r, j)))
  {
    hide Pte, Valid;
    assert Live(o0, Leaf(r, j));
  }

  lemma AddedRoot(m0: Mem, o0: Owners, mem: Mem, owner: Owners, r: nat, v: nat, n: nat, x: nat)
    requires Added(m0, o0, mem, owner, r, v, n) && IsRoot(o0, x)
    ensures IsRoot(owner, x)
  {
  }

  /** The entry that walk found is that of the leaf slot. */
  lemma LeafAt(mem: Mem, owner: Owners, r: nat, v: nat, t: nat)
    requires PtOk(mem, owner) && IsRoot(owner, r) && v < MAXVPN
    requires if t == 0 then Pte(mem, Leaf(r, v)) == 0 else t == Base(mem, Step(r, v, 0)) < |mem|
    ensures t != 0 ==> mem[t].Words? && Pte(mem, Leaf(r, v)) == mem[t].w[Low9(v)]
  {
    if t != 0 {
      SlotHas(mem, owner, Leaf(r, v));
    }
  }

  lemma SourceFrame(mem: Mem, owner: Owners, r: nat, v: nat)
    requires PtOk(mem, owner) && IsRoot(owner, r) && v < TRAPFRAME && Valid(Pte(mem, Leaf(r, v)))
    ensures var e := Pte(mem, Leaf(r, v));
            && Ppn(e) < |mem| && mem[Ppn(e)].Bytes? && Flags(e) < 1024 && IsLeaf(Flags(e))
            && Ppn(e) in owner && owner[Ppn(e)] == Leaf(r, v)
  {
    hide Pte;
    var e := Pte(mem, Leaf(r, v));
    assert SlotOk(mem, owner, Leaf(r, v));
    FlagsLeaf(e);
  }

  lemma FlagsLeaf(e: nat)
    ensures Flags(e) < 1024 && IsLeaf(Flags(e)) == IsLeaf(e)
  {
    FieldOf(e / 1024, e % 1024);
    assert e / 1024 * 1024 + e % 1024 == e;
  }

  lemma CopySource(m0: Mem, o0: Owners, r: nat, c: nat, mem: Mem, i: nat)
    requires i < TRAPFRAME && Pte(mem, Leaf(r, i)) == Pte(m0, Leaf(r, i)) && !Valid(Pte(mem, Leaf(c, i)))
    ensures !Valid(Pte(mem, Leaf(r, i))) ==> CopiedPage(m0, mem, r, c, i)
  {
  }

  lemma CopiedThere(m0: Mem, mem: Mem, owner: Owners, r: nat, c: nat, n: nat)
    requires PtOk(mem, owner) && IsRoot(owner, c) && n <= TRAPFRAME && CopyOf(m0, mem, r, c, n)
    ensures forall j :: j in MappedPages(m0, r, n) ==> Path(c, j) <= owner.Values
  {
    hide PtOk, Pte, Valid, Holds, Path, Ppn, Flags;
    forall j | j in MappedPages(m0, r, n)
      ensures Path(c, j) <= owner.Values
    {
      assert CopiedPage(m0, mem, r, c, j);
      CopiedMapped(m0, mem, r, c, j);
      MappedThere(mem, owner, c, j);
    }
  }

  lemma CopiedMapped(m0: Mem, mem: Mem, r: nat, c: nat, j: nat)
    requires j < TRAPFRAME && CopiedPage(m0, mem, r, c, j) && Valid(Pte(m0, Leaf(r, j)))
    ensures Valid(Pte(mem, Leaf(c, j)))
  {
    var e := Pte(m0, Leaf(r, j));
    HoldsPage(mem, c, j, Flags(e), m0[Ppn(e)].b);
  }

  lemma CopyDone(m0: Mem, o0: Owners, m1: Mem, o1: Owners, r: nat, c: nat, mem: Mem, n: nat, i: nat)
    requires PtOk(m0, o0) && IsRoot(o0, r) && Added(m0, o0, m1, o1, c, 0, n) && i < TRAPFRAME && r != c
    requires Valid(Pte(m0, Leaf(r, i))) && Pte(m1, Leaf(r, i)) == Pte(m0, Leaf(r, i)) && Ppn(Pte(m0, Leaf(r, i))) < |m1|
    requires m1[Ppn(Pte(m0, Leaf(r, i)))].Bytes?
    requires Holds(mem, c, i, Flags(Pte(m0, Leaf(r, i))), m1[Ppn(Pte(m0, Leaf(r, i)))].b)
    ensures CopiedPage(m0, mem, r, c, i)
  {
    hide Pte, Holds;
    SourceFrame(m0, o0, r, i);
  }

  // ---- frames behind user pages ----

  /** User code reaches frame p through page v. */
  ghost predicate Behind(mem: Mem, r: nat, v: nat, p: nat) {
    v < TRAPFRAME && Valid(Pte(mem, Leaf(r, v))) && IsUser(Pte(mem, Leaf(r, v))) && Ppn(Pte(mem, Leaf(r, v))) == p
  }

  lemma WhenBlocked(mem: Mem, r: nat, sz: nat, v: nat)
    ensures v < MAXVPN && Valid(Pte(mem, Leaf(r, v))) && IsUser(Pte(mem, Leaf(r, v))) && v < Pages(sz) ==>
              !Blocked(mem, r, sz, v, false)
    ensures v < MAXVPN && Valid(Pte(mem, Leaf(r, v))) && !IsUser(Pte(mem, Leaf(r, v))) ==>
              Blocked(mem, r, sz, v, false)
    ensures v * PGSIZE >= sz <==> v >= Pages(sz)
    ensures v >= Pages(sz) ==> Blocked(mem, r, sz, v, false)
    ensures v < MAXVPN && v < Pages(sz) && !Valid(Pte(mem, Leaf(r, v))) ==> !Blocked(mem, r, sz, v, false)
  {
    hide Pte, Valid, IsUser;
  }

  /** A page without a frame is not blocked, and one beyond sz is not faulted in. */
  lemma NotFaulted(mem: Mem, r: nat, sz: nat, v: nat)
    ensures Absent(mem, r, sz, v) ==> !Blocked(mem, r, sz, v, false) && v * PGSIZE < sz
    ensures v * PGSIZE >= sz ==> FaultSlots(mem, r, sz, v) == {}
  {
    hide Pte, Valid;
  }

  lemma UserInside(mem: Mem, r: nat, sz: nat, v: nat)
    requires UserBelow(mem, r, Pages(sz)) && Guarded(mem, r) && v < MAXVPN
    requires Valid(Pte(mem, Leaf(r, v))) && IsUser(Pte(mem, Leaf(r, v)))
    ensures v < Pages(sz)
  {
    hide Pte, Valid, IsUser;
  }

  lemma BlockedThen(m0: Mem, mem: Mem, r: nat, sz: nat, v: nat, writing: bool)
    requires SameBlocked(m0, mem, r, sz)
    ensures Blocked(mem, r, sz, v, writing) <==> Blocked(m0, r, sz, v, writing)
  {
    hide Blocked;
  }

  lemma BlockedForWriting(mem: Mem, r: nat, sz: nat, v: nat)
    ensures Blocked(mem, r, sz, v, false) ==> Blocked(mem, r, sz, v, true)
  {
  }

  lemma FarBlocked(mem: Mem, r: nat, sz: nat, v: nat)
    requires sz <= USERTOP && v >= MAXVPN
    ensures Blocked(mem, r, sz, v, true)
  {
  }

  /** Once the frame is found, PTE_W decides. */
  lemma WritableThen(m0: Mem, mem: Mem, r: nat, sz: nat, v: nat, p: nat)
    requires SameBlocked(m0, mem, r, sz) && Behind(mem, r, v, p) && !Blocked(m0, r, sz, v, false)
    ensures Blocked(m0, r, sz, v, true) <==> !IsWritable(Pte(mem, Leaf(r, v)))
  {
    BlockedThen(m0, mem, r, sz, v, false);
    BlockedThen(m0, mem, r, sz, v, true);
    hide SameBlocked, Pte, Valid, IsUser, IsWritable, Pages;
  }

  lemma OpenNone(mem: Mem, r: nat, sz: nat, va: nat, writing: bool)
    ensures Open(mem, r, sz, va, 0, writing)
  {
  }

  lemma InPages(va: nat, sz: nat)
    requires va < sz
    ensures va / PGSIZE < Pages(sz)
  {
  }

  lemma PageStart(v: nat)
    ensures v * PGSIZE / PGSIZE == v
  {
  }

  lemma BehindFault(mem: Mem, r: nat, v: nat, p: nat)
    requires v < TRAPFRAME && Valid(Pte(mem, Leaf(r, v))) && Ppn(Pte(mem, Leaf(r, v))) == p
    requires IsUser(Pte(mem, Leaf(r, v))) == IsUser(PTE_R + PTE_U + PTE_W)
    ensures Behind(mem, r, v, p)
  {
  }

  lemma BehindUser(mem: Mem, owner: Owners, freelist: nat, free: seq<nat>, lo: nat, r: nat, v: nat)
    requires Kmem(mem, freelist, free, owner, lo) && PtOk(mem, owner) && IsRoot(owner, r) && Guarded(mem, r)
      && v < MAXVPN
    requires Valid(Pte(mem, Leaf(r, v))) && IsUser(Pte(mem, Leaf(r, v)))
    ensures v < TRAPFRAME && Behind(mem, r, v, Ppn(Pte(mem, Leaf(r, v)))) && Ppn(Pte(mem, Leaf(r, v))) != 0
  {
    hide Pte, IsUser;
    assert SlotOk(mem, owner, Leaf(r, v));
  }

  lemma BehindPage(mem: Mem, owner: Owners, r: nat, v: nat, p: nat)
    requires PtOk(mem, owner) && IsRoot(owner, r) && Behind(mem, r, v, p)
    ensures p < |mem| && mem[p].Bytes? && p in owner && UserPage(mem, r, v) == mem[p].b
  {
    hide Pte;
    assert SlotOk(mem, owner, Leaf(r, v));
  }

  lemma BehindThere(mem: Mem, owner: Owners, r: nat, v: nat, p: nat)
    requires PtOk(mem, owner) && IsRoot(owner, r) && Behind(mem, r, v, p)
    ensures Path(r, v) <= owner.Values
  {
    hide PtOk, Pte, Valid, Path;
    MappedThere(mem, owner, r, v);
  }

  lemma BehindWrite(mem: Mem, owner: Owners, r: nat, v: nat, p: nat, data: Data)
    requires PtOk(mem, owner) && IsRoot(owner, r) && Behind(mem, r, v, p) && p < |mem| && p in owner
    ensures PtOk(mem[p := Bytes(data)], owner) && PageWritten(mem, owner, mem[p := Bytes(data)], r, v, data)
    ensures forall s :: Live(owner, s) ==> Pte(mem[p := Bytes(data)], s) == Pte(mem, s)
  {
    WriteFrame(mem, owner, r, v, data);
    assert SlotOk(mem, owner, Leaf(r, v));
    FrameKeeps(mem, owner, mem[p := Bytes(data)], owner);
  }

  lemma ViewRoot(m0: Mem, o0: Owners, mem: Mem, owner: Owners, r: nat)
    requires SameView(m0, o0, mem, owner) && IsRoot(o0, r)
    ensures IsRoot(owner, r)
  {
  }

  lemma ViewRoots(m0: Mem, o0: Owners, mem: Mem, owner: Owners)
    requires SameView(m0, o0, mem, owner)
    ensures forall x :: IsRoot(o0, x) ==> IsRoot(owner, x)
  {
  }

  lemma GotNothing(mem: Mem, r: nat, src: nat)
    ensures Got(mem, r, src, [])
  {
  }

  // ---- the memory of a forked child ----

  lemma PrivateRoot(m0: Mem, o0: Owners, mem: Mem, owner: Owners, r: nat, c: nat)
    requires Private(m0, o0, mem, owner, c) && IsRoot(o0, r)
    ensures IsRoot(owner, r) && r != c
  {
    assert !Belongs(o0[r], c);
  }

  lemma PrivateGrown(m0: Mem, o0: Owners, m1: Mem, o1: Owners, mem: Mem, owner: Owners, c: nat)
    requires Private(m0, o0, m1, o1, c) && Grown(m1, o1, mem, owner, c)
    ensures Private(m0, o0, mem, owner, c)
  {
    hide Pte, IsEntry;
    forall x: Slot | x.Leaf? && Live(o0, x)
      ensures Pte(mem, x) == Pte(m0, x)
    {
      assert Live(o1, x);
    }
  }

  lemma PrivateAdded(m0: Mem, o0: Owners, m1: Mem, o1: Owners, mem: Mem, owner: Owners, c: nat, n: nat)
    requires Private(m0, o0, m1, o1, c) && Added(m1, o1, mem, owner, c, 0, n)
    ensures Private(m0, o0, mem, owner, c)
  {
    hide Pte, IsEntry;
    forall x: Slot | x.Leaf? && Live(o0, x)
      ensures Pte(mem, x) == Pte(m0, x)
    {
      assert Live(o1, x);
      assert !Belongs(o0[x.r], c);
    }
  }

  lemma SameMapped(m0: Mem, o0: Owners, mem: Mem, owner: Owners, r: nat, c: nat, n: nat)
    requires Private(m0, o0, mem, owner, c) && IsRoot(o0, r) && n <= ALLVPN
    ensures MappedPages(mem, r, n) == MappedPages(m0, r, n)
  {
    hide Pte, Valid;
    forall v | 0 <= v < n
      ensures Pte(mem, Leaf(r, v)) == Pte(m0, Leaf(r, v))
    {
      assert Live(o0, Leaf(r, v));
    }
  }

  lemma PrivatePages(m0: Mem, o0: Owners, mem: Mem, owner: Owners, r: nat, c: nat)
    requires PtOk(m0, o0) && Private(m0, o0, mem, owner, c) && IsRoot(o0, r)
    ensures forall j :: 0 <= j < TRAPFRAME ==> UserPage(mem, r, j) == UserPage(m0, r, j)
  {
    hide Pte, Valid, Ppn;
    forall j | 0 <= j < TRAPFRAME
      ensures UserPage(mem, r, j) == UserPage(m0, r, j)
    {
      assert Live(o0, Leaf(r, j));
      assert SlotOk(m0, o0, Leaf(r, j));
    }
  }

  lemma CopySeenAll(m0: Mem, mem: Mem, r: nat, c: nat, n: nat)
    requires n <= TRAPFRAME && CopyOf(m0, mem, r, c, n)
    ensures forall j :: 0 <= j < n ==> UserPage(mem, c, j) == UserPage(m0, r, j)
  {
    hide CopyOf, UserPage, Pte, Valid;
    forall j | 0 <= j < n
      ensures UserPage(mem, c, j) == UserPage(m0, r, j)
    {
      CopySeen(m0, mem, r, c, n, j);
    }
  }

  // ---- sbrk and kinit ----

  ghost predicate Ram(p: nat, lo: nat, n: nat) {
    lo <= p < n
  }

  lemma NoOwners(mem: Mem)
    ensures PtOk(mem, map[])
  {
  }

  lemma TopPages(sz: nat)
    requires sz <= USERTOP
    ensures Pages(sz) <= TRAPFRAME
  {
  }

  lemma FreeAbove(mem: Mem, r: nat, sz: nat, newsz: nat)
    requires UserBelow(mem, r, Pages(sz)) && Pages(newsz) <= TRAPFRAME
    ensures forall j :: Pages(sz) <= j < Pages(newsz) ==> !Valid(Pte(mem, Leaf(r, j)))
  {
    hide Pte, Valid, Pages;
  }

  lemma ShrunkView(m0: Mem, o0: Owners, mem: Mem, owner: Owners, r: nat, sz': nat, sz: nat)
    requires PtOk(m0, o0) && IsRoot(o0, r) && sz' <= sz && Pages(sz') <= Pages(sz)
    requires Unmaps(m0, o0, mem, owner, r, Pages(sz'), Pages(sz) - Pages(sz'), true)
    ensures forall x, j :: IsRoot(o0, x) && 0 <= j < TRAPFRAME ==>
      UserPage(mem, x, j) == if x == r && Pages(sz') <= j < Pages(sz) then Zeroes() else UserPage(m0, x, j)
  {
    hide Pte, Valid, Pages, UserPage, PtOk;
    forall x, j | IsRoot(o0, x) && 0 <= j < TRAPFRAME
      ensures UserPage(mem, x, j) == if x == r && Pages(sz') <= j < Pages(sz) then Zeroes() else UserPage(m0, x, j)
    {
      UnmappedView(m0, o0, mem, owner, r, Pages(sz'), Pages(sz) - Pages(sz'), x, j);
    }
  }
}
