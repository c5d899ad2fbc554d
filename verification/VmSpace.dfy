/** The address spaces of all processes together: each page table in existence is that
    of a process with a size, maps no user page beyond that size, and keeps its
    trampoline and trapframe from the user. */
module VmSpace {
  import opened VmPte
  import opened VmTable
  import opened VmSpec
  import opened VmNeed
  import opened VmUser

  /** p->sz of every process, by the root of its page table. */
  type Sizes = map<nat, nat>

  /** Of the pages above n only the trampoline and the trapframe may be mapped. */
  ghost predicate UserBelow(mem: Mem, r: nat, n: nat) {
    forall v :: n <= v < ALLVPN && v != TRAMPOLINE && v != TRAPFRAME ==> !Valid(Pte(mem, Leaf(r, v)))
  }

  /** The trampoline and the trapframe are not for the user. */
  ghost predicate Guarded(mem: Mem, r: nat) {
    !IsUser(Pte(mem, Leaf(r, TRAMPOLINE))) && !IsUser(Pte(mem, Leaf(r, TRAPFRAME)))
  }

  ghost predicate Space(mem: Mem, owner: Owners, r: nat, sz: nat) {
    IsRoot(owner, r) && sz <= USERTOP && UserBelow(mem, r, Pages(sz)) && Guarded(mem, r)
  }

  /** The pages that growing from oldsz to newsz adds. */
  ghost function NewPages(oldsz: nat, newsz: nat): set<nat> {
    Range(Pages(oldsz), if Pages(oldsz) <= Pages(newsz) then Pages(newsz) - Pages(oldsz) else 0)
  }

  /** The first n pages of table r that are mapped. */
  ghost function MappedPages(mem: Mem, r: nat, n: nat): (pages: set<nat>)
    requires n <= ALLVPN
  {
    set v | 0 <= v < n && Valid(Pte(mem, Leaf(r, v)))
  }

  ghost predicate Spaces(mem: Mem, owner: Owners, spaces: Sizes) {
    && (forall r :: IsRoot(owner, r) ==> r in spaces)
    && (forall r :: r in spaces ==> Space(mem, owner, r, spaces[r]))
  }

  /** No page table but r has changed. */
  ghost predicate Others(m0: Mem, o0: Owners, mem: Mem, owner: Owners, r: nat) {
    && (forall x :: x != r ==> (IsRoot(o0, x) <==> IsRoot(owner, x)))
    && (forall x: Slot :: x.Leaf? && x.r != r && Live(o0, x) ==> Pte(mem, x) == Pte(m0, x))
  }

  lemma SpaceKept(m0: Mem, o0: Owners, mem: Mem, owner: Owners, r: nat, x: nat, sz: nat)
    requires Others(m0, o0, mem, owner, r) && x != r && Space(m0, o0, x, sz)
    ensures Space(mem, owner, x, sz)
  {
    hide Pte, Valid, IsUser, Pages;
    forall v | 0 <= v < ALLVPN
      ensures Pte(mem, Leaf(x, v)) == Pte(m0, Leaf(x, v))
    {
      assert Live(o0, Leaf(x, v));
    }
  }

  /** What a change to page table r alone leaves to be shown. */
  lemma SpacesKept(m0: Mem, o0: Owners, spaces: Sizes, mem: Mem, owner: Owners, r: nat, spaces': Sizes)
    requires Spaces(m0, o0, spaces) && Others(m0, o0, mem, owner, r) && spaces' - {r} == spaces - {r}
    requires if r in spaces' then Space(mem, owner, r, spaces'[r]) else !IsRoot(owner, r)
    ensures Spaces(mem, owner, spaces')
  {
    hide Space, Others;
    forall x | x in spaces'
      ensures Space(mem, owner, x, spaces'[x])
    {
      if x != r {
        assert x in spaces' - {r};
        assert (spaces' - {r})[x] == spaces'[x] && (spaces - {r})[x] == spaces[x];
        SpaceKept(m0, o0, mem, owner, r, x, spaces[x]);
      }
    }
    forall x | IsRoot(owner, x)
      ensures x in spaces'
    {
      if x != r {
        OthersRoot(m0, o0, mem, owner, r, x);
        assert x in spaces - {r};
      }
    }
  }

  lemma OthersRoot(m0: Mem, o0: Owners, mem: Mem, owner: Owners, r: nat, x: nat)
    requires Others(m0, o0, mem, owner, r) && x != r && IsRoot(owner, x)
    ensures IsRoot(o0, x)
  {
  }

  lemma SpaceOf(mem: Mem, owner: Owners, spaces: Sizes, r: nat)
    requires Spaces(mem, owner, spaces) && r in spaces
    ensures Space(mem, owner, r, spaces[r])
    ensures IsRoot(owner, r) && spaces[r] <= USERTOP && Pages(spaces[r]) <= TRAPFRAME && Guarded(mem, r)
    ensures UserBelow(mem, r, Pages(spaces[r]))
  {
    hide UserBelow, Guarded;
  }

  // ---- each kind of change touches one page table ----

  lemma GrownOthers(m0: Mem, o0: Owners, mem: Mem, owner: Owners, r: nat)
    requires Grown(m0, o0, mem, owner, r)
    ensures Others(m0, o0, mem, owner, r)
  {
    hide Pte, IsEntry;
  }

  lemma AddedOthers(m0: Mem, o0: Owners, mem: Mem, owner: Owners, r: nat, v: nat, n: nat)
    requires Added(m0, o0, mem, owner, r, v, n)
    ensures Others(m0, o0, mem, owner, r)
  {
    hide Pte, IsEntry;
  }

  lemma UnmapsOthers(m0: Mem, o0: Owners, mem: Mem, owner: Owners, r: nat, v: nat, n: nat, doFree: bool)
    requires Unmaps(m0, o0, mem, owner, r, v, n, doFree)
    ensures Others(m0, o0, mem, owner, r)
  {
    hide Pte, IsEntry;
  }

  lemma PrivateOthers(m0: Mem, o0: Owners, mem: Mem, owner: Owners, r: nat)
    requires Private(m0, o0, mem, owner, r)
    ensures Others(m0, o0, mem, owner, r)
  {
    hide Pte, IsEntry;
  }

  lemma DroppedOthers(m0: Mem, o0: Owners, mem: Mem, owner: Owners, r: nat)
    requires Dropped(m0, o0, mem, owner, r)
    ensures Others(m0, o0, mem, owner, r) && !IsRoot(owner, r)
  {
    hide Pte, IsEntry;
    forall x: Slot | x.Leaf? && x.r != r && Live(o0, x)
      ensures Pte(mem, x) == Pte(m0, x)
    {
      assert Live(owner, x);
    }
  }

  // ---- what becomes of the space of r itself ----

  lemma GrownSpaces(m0: Mem, o0: Owners, spaces: Sizes, mem: Mem, owner: Owners, r: nat)
    requires Spaces(m0, o0, spaces) && Grown(m0, o0, mem, owner, r) && r in spaces
    ensures Spaces(mem, owner, spaces)
  {
    hide Pte, Valid, IsUser, Pages;
    GrownOthers(m0, o0, mem, owner, r);
    assert Space(m0, o0, r, spaces[r]);
    forall v | 0 <= v < ALLVPN
      ensures Pte(mem, Leaf(r, v)) == Pte(m0, Leaf(r, v))
    {
      assert Live(o0, Leaf(r, v));
    }
    assert Space(mem, owner, r, spaces[r]);
    hide Spaces, Others, Grown, Space;
    SpacesKept(m0, o0, spaces, mem, owner, r, spaces);
  }

  lemma AddedSpaces(m0: Mem, o0: Owners, spaces: Sizes, mem: Mem, owner: Owners, r: nat, v: nat, n: nat, sz: nat)
    requires Spaces(m0, o0, spaces) && Added(m0, o0, mem, owner, r, v, n) && r in spaces
    requires sz <= USERTOP && Pages(spaces[r]) <= Pages(sz) && v + n <= Pages(sz) <= TRAPFRAME
    ensures Spaces(mem, owner, spaces[r := sz])
  {
    hide Pte, Valid, IsUser, Pages;
    AddedOthers(m0, o0, mem, owner, r, v, n);
    assert Space(m0, o0, r, spaces[r]);
    forall w | v + n <= w < ALLVPN
      ensures Pte(mem, Leaf(r, w)) == Pte(m0, Leaf(r, w))
    {
      assert Live(o0, Leaf(r, w));
    }
    assert Space(mem, owner, r, sz);
    hide Spaces, Others, Added, Space;
    assert spaces[r := sz] - {r} == spaces - {r};
    SpacesKept(m0, o0, spaces, mem, owner, r, spaces[r := sz]);
  }

  lemma ShrunkSpace(m0: Mem, o0: Owners, mem: Mem, owner: Owners, r: nat, v: nat, n: nat, sz: nat)
    requires IsRoot(o0, r) && UserBelow(m0, r, v + n) && Guarded(m0, r) && v + n <= TRAPFRAME
    requires sz <= USERTOP && Pages(sz) == v && Unmaps(m0, o0, mem, owner, r, v, n, true)
    ensures Space(mem, owner, r, sz)
  {
    assert !Valid(0);
    hide Pte, Valid, IsUser, Pages;
    forall w | v <= w < ALLVPN
      ensures Pte(mem, Leaf(r, w)) == if w < v + n then 0 else Pte(m0, Leaf(r, w))
    {
      assert Live(o0, Leaf(r, w));
    }
    assert owner[r] == o0[r];
    hide Unmaps;
  }

  lemma ShrunkSpaces(m0: Mem, o0: Owners, spaces: Sizes, mem: Mem, owner: Owners, r: nat, sz: nat)
    requires Spaces(m0, o0, spaces) && r in spaces && sz <= spaces[r] && Pages(sz) <= Pages(spaces[r]) <= TRAPFRAME
    requires Unmaps(m0, o0, mem, owner, r, Pages(sz), Pages(spaces[r]) - Pages(sz), true)
    ensures Spaces(mem, owner, spaces[r := sz])
  {
    hide Spaces, Others, Unmaps, Space, Pages, UserBelow, Guarded;
    SpaceOf(m0, o0, spaces, r);
    UnmapsOthers(m0, o0, mem, owner, r, Pages(sz), Pages(spaces[r]) - Pages(sz), true);
    ShrunkSpace(m0, o0, mem, owner, r, Pages(sz), Pages(spaces[r]) - Pages(sz), sz);
    assert spaces[r := sz] - {r} == spaces - {r};
    SpacesKept(m0, o0, spaces, mem, owner, r, spaces[r := sz]);
  }

  /** A size that grows without any page: sbrk with SBRK_LAZY. */
  lemma LazySpaces(mem: Mem, owner: Owners, spaces: Sizes, r: nat, sz: nat)
    requires Spaces(mem, owner, spaces) && r in spaces && sz <= USERTOP && Pages(spaces[r]) <= Pages(sz)
    ensures Spaces(mem, owner, spaces[r := sz])
  {
    hide Pte, Valid, IsUser, Pages;
  }

  /** Bytes written into a frame. */
  lemma WrittenSpaces(m0: Mem, owner: Owners, spaces: Sizes, mem: Mem)
    requires Spaces(m0, owner, spaces) && forall s :: Live(owner, s) ==> Pte(mem, s) == Pte(m0, s)
    ensures Spaces(mem, owner, spaces)
  {
    hide Pte, Valid, IsUser, Pages;
    forall r | r in spaces
      ensures Space(mem, owner, r, spaces[r])
    {
      assert Space(m0, owner, r, spaces[r]);
      forall v | 0 <= v < ALLVPN
        ensures Pte(mem, Leaf(r, v)) == Pte(m0, Leaf(r, v))
      {
        assert Live(owner, Leaf(r, v));
      }
    }
  }

  lemma RestoredSpaces(m0: Mem, o0: Owners, spaces: Sizes, mem: Mem, owner: Owners)
    requires Spaces(m0, o0, spaces) && Restored(m0, o0, mem, owner)
    ensures Spaces(mem, owner, spaces)
  {
    hide Pte, Valid, IsUser, Pages;
    forall r | r in spaces
      ensures Space(mem, owner, r, spaces[r])
    {
      assert Space(m0, o0, r, spaces[r]);
      forall v | 0 <= v < ALLVPN
        ensures Pte(mem, Leaf(r, v)) == Pte(m0, Leaf(r, v))
      {
        assert Live(o0, Leaf(r, v));
      }
    }
  }

  /** A fresh page table maps the trampoline and the trapframe, and no user page. */
  ghost predicate MapsOnly(mem: Mem, r: nat, tf: nat, tramp: nat) {
    && UserBelow(mem, r, 0)
    && Pte(mem, Leaf(r, TRAMPOLINE)) == MakePte(tramp, PTE_R + PTE_X)
    && Pte(mem, Leaf(r, TRAPFRAME)) == MakePte(tf, PTE_R + PTE_W)
  }

  lemma FreshSpace(mem: Mem, owner: Owners, r: nat, tf: nat, tramp: nat)
    requires IsRoot(owner, r) && MapsOnly(mem, r, tf, tramp)
    ensures Space(mem, owner, r, 0)
  {
    MadePte(tramp, PTE_R + PTE_X);
    MadePte(tf, PTE_R + PTE_W);
    hide Pte, Valid, MakePte;
  }

  lemma FreshRoot(m0: Mem, o0: Owners, spaces: Sizes, mem: Mem, owner: Owners, r: nat)
    requires Spaces(m0, o0, spaces) && Private(m0, o0, mem, owner, r)
    ensures r !in spaces
  {
    hide Pte, Valid, IsEntry, UserBelow, Guarded;
    assert r in spaces ==> IsRoot(o0, r);
  }

  lemma NewSpace(m0: Mem, o0: Owners, spaces: Sizes, mem: Mem, owner: Owners, r: nat, tf: nat, tramp: nat)
    requires Spaces(m0, o0, spaces) && Private(m0, o0, mem, owner, r) && IsRoot(owner, r) && MapsOnly(mem, r, tf, tramp)
    ensures r !in spaces && Spaces(mem, owner, spaces[r := 0])
  {
    hide Spaces, Others, Private, Space, MapsOnly;
    PrivateOthers(m0, o0, mem, owner, r);
    FreshRoot(m0, o0, spaces, mem, owner, r);
    FreshSpace(mem, owner, r, tf, tramp);
    assert spaces[r := 0] - {r} == spaces - {r};
    SpacesKept(m0, o0, spaces, mem, owner, r, spaces[r := 0]);
  }

  lemma DroppedSpaces(m0: Mem, o0: Owners, spaces: Sizes, mem: Mem, owner: Owners, r: nat)
    requires Spaces(m0, o0, spaces) && Dropped(m0, o0, mem, owner, r)
    ensures Spaces(mem, owner, spaces - {r})
  {
    hide Spaces, Others, Dropped, Space;
    DroppedOthers(m0, o0, mem, owner, r);
    assert spaces - {r} - {r} == spaces - {r};
    SpacesKept(m0, o0, spaces, mem, owner, r, spaces - {r});
  }

  // ---- what may be copied ----

  /** Page v of a process of size sz cannot be copied from, or to, however much memory
      is left. */
  ghost predicate Blocked(mem: Mem, r: nat, sz: nat, v: nat, writing: bool) {
    || v >= Pages(sz)
    || (v < ALLVPN && Valid(Pte(mem, Leaf(r, v)))
        && !(IsUser(Pte(mem, Leaf(r, v))) && (writing ==> IsWritable(Pte(mem, Leaf(r, v))))))
  }

  ghost predicate BlockedAt(mem: Mem, r: nat, sz: nat, a: nat, writing: bool) {
    Blocked(mem, r, sz, a / PGSIZE, writing)
  }

  /** None of the n bytes from va on is on such a page. */
  ghost predicate Open(mem: Mem, r: nat, sz: nat, va: nat, n: nat, writing: bool) {
    forall a :: va <= a < va + n ==> !BlockedAt(mem, r, sz, a, writing)
  }

  ghost predicate SameBlocked(m0: Mem, mem: Mem, r: nat, sz: nat) {
    forall v: nat, writing :: Blocked(mem, r, sz, v, writing) <==> Blocked(m0, r, sz, v, writing)
  }

  /** Page-table pages added change nothing about it. */
  lemma GrownBlocked(m0: Mem, o0: Owners, mem: Mem, owner: Owners, r: nat, sz: nat)
    requires Grown(m0, o0, mem, owner, r) && IsRoot(o0, r)
    ensures SameBlocked(m0, mem, r, sz)
  {
    hide Pte, Valid, IsUser, IsWritable, Pages;
    forall v: nat, writing
      ensures Blocked(mem, r, sz, v, writing) <==> Blocked(m0, r, sz, v, writing)
    {
      if v < ALLVPN {
        assert Live(o0, Leaf(r, v));
      }
    }
  }

  /** Nor does a page faulted in, which is the user's to read and write. */
  lemma FaultBlocked(m0: Mem, o0: Owners, mem: Mem, owner: Owners, r: nat, sz: nat, v: nat)
    requires Added(m0, o0, mem, owner, r, v, 1) && IsRoot(o0, r) && v < ALLVPN
    requires !Valid(Pte(m0, Leaf(r, v))) && IsUser(Pte(mem, Leaf(r, v))) && IsWritable(Pte(mem, Leaf(r, v)))
    ensures SameBlocked(m0, mem, r, sz)
  {
    hide Pte, Valid, IsUser, IsWritable, Pages;
    forall w: nat, writing
      ensures Blocked(mem, r, sz, w, writing) <==> Blocked(m0, r, sz, w, writing)
    {
      if w < ALLVPN {
        assert Live(o0, Leaf(r, w));
        assert In(Leaf(r, w), r, v, 1) <==> w == v;
      }
    }
  }

  lemma WrittenBlocked(m0: Mem, owner: Owners, mem: Mem, r: nat, sz: nat)
    requires IsRoot(owner, r) && forall s :: Live(owner, s) ==> Pte(mem, s) == Pte(m0, s)
    ensures SameBlocked(m0, mem, r, sz)
  {
    hide Pte, Valid, IsUser, IsWritable, Pages;
    forall v: nat, writing
      ensures Blocked(mem, r, sz, v, writing) <==> Blocked(m0, r, sz, v, writing)
    {
      if v < ALLVPN {
        assert Live(owner, Leaf(r, v));
      }
    }
  }

  lemma SameBlockedTwice(m0: Mem, m1: Mem, mem: Mem, r: nat, sz: nat)
    requires SameBlocked(m0, m1, r, sz) && SameBlocked(m1, mem, r, sz)
    ensures SameBlocked(m0, mem, r, sz)
  {
    hide Blocked;
  }

  /** Another chunk, all on one page. */
  lemma OpenMore(mem: Mem, r: nat, sz: nat, va: nat, k: nat, n: nat, writing: bool)
    requires Open(mem, r, sz, va, k, writing) && n <= PGSIZE - (va + k) % PGSIZE
    requires !Blocked(mem, r, sz, (va + k) / PGSIZE, writing)
    ensures Open(mem, r, sz, va, k + n, writing)
  {
    hide Blocked;
    forall a | va + k <= a < va + k + n
      ensures !BlockedAt(mem, r, sz, a, writing)
    {
      assert a / PGSIZE == (va + k) / PGSIZE;
    }
  }

  /** Where a page is blocked, the range is not open. */
  lemma NotOpen(mem: Mem, r: nat, sz: nat, va: nat, k: nat, n: nat, writing: bool)
    requires k < n && Blocked(mem, r, sz, (va + k) / PGSIZE, writing)
    ensures !Open(mem, r, sz, va, n, writing)
  {
    assert BlockedAt(mem, r, sz, va + k, writing);
  }

  // ---- what has to be faulted in ----

  /** Page v of a process of size sz has no frame yet. */
  ghost predicate Absent(mem: Mem, r: nat, sz: nat, v: nat) {
    v < Pages(sz) && v < ALLVPN && !Valid(Pte(mem, Leaf(r, v)))
  }

  /** The pages of the n bytes from va on that have none. */
  ghost function Faults(mem: Mem, r: nat, sz: nat, va: nat, n: nat): set<nat> {
    set v | 0 <= v < Pages(sz) && n > 0 && va / PGSIZE <= v && v * PGSIZE < va + n && Absent(mem, r, sz, v)
  }

  /** There are pages for them, and for the tables they lack. */
  ghost predicate CanFault(mem: Mem, owner: Owners, free: nat, r: nat, sz: nat, va: nat, n: nat) {
    Need(owner, Paths(r, Faults(mem, r, sz, va, n))) <= free
  }

  /** The slots that a copy may fill. */
  ghost function FaultSlots(mem: Mem, r: nat, sz: nat, v: nat): set<Slot> {
    if Absent(mem, r, sz, v) then Path(r, v) else {}
  }

  /** Byte va + k is on page v: if that was absent, it is one of the faults. */
  lemma FaultIn(mem: Mem, r: nat, sz: nat, va: nat, n: nat, k: nat)
    requires k < n && Absent(mem, r, sz, (va + k) / PGSIZE)
    ensures (va + k) / PGSIZE in Faults(mem, r, sz, va, n)
  {
  }

  /** A page that was there is there. */
  lemma StillMapped(m0: Mem, o0: Owners, mem: Mem, owner: Owners, S: set<Slot>, r: nat, sz: nat, v: nat)
    requires PtOk(m0, o0) && PtOk(mem, owner) && IsRoot(o0, r) && Spread(o0, owner, S) && sz <= USERTOP
    ensures Absent(mem, r, sz, v) ==> Absent(m0, r, sz, v)
  {
    hide Pte, Valid, PtOk, Pages;
    if v < Pages(sz) && v < ALLVPN && Valid(Pte(m0, Leaf(r, v))) {
      BelowTop(sz, v);
      MappedThere(m0, o0, r, v);
      StillThere(o0, owner, S, Path(r, v));
      LeafOwned(mem, owner, r, v);
    }
  }

  lemma BelowTop(sz: nat, v: nat)
    requires sz <= USERTOP && v < Pages(sz)
    ensures v < TRAPFRAME && Owns(Leaf(0, v))
  {
  }

  /** The copy has come to byte k, and every page before that has its path. */
  ghost predicate FaultedTo(m0: Mem, owner: Owners, r: nat, sz: nat, va: nat, n: nat, k: nat) {
    k > 0 ==> forall v :: v in Faults(m0, r, sz, va, n) && v * PGSIZE < va + k ==> Path(r, v) <= owner.Values
  }

  lemma FaultedNone(m0: Mem, owner: Owners, r: nat, sz: nat, va: nat, n: nat)
    ensures FaultedTo(m0, owner, r, sz, va, n, 0)
  {
  }

  lemma FaultedMore(m0: Mem, o1: Owners, owner: Owners, S: set<Slot>, r: nat, sz: nat, va: nat, n: nat, k: nat, c: nat)
    requires FaultedTo(m0, o1, r, sz, va, n, k) && Spread(o1, owner, S) && Path(r, (va + k) / PGSIZE) <= owner.Values
    requires 0 < c <= PGSIZE - (va + k) % PGSIZE
    ensures FaultedTo(m0, owner, r, sz, va, n, k + c)
  {
    hide Path, Spread;
    var w := (va + k) / PGSIZE;
    forall v | v in Faults(m0, r, sz, va, n) && v * PGSIZE < va + k + c
      ensures Path(r, v) <= owner.Values
    {
      hide Absent;
      if v != w {
        assert v < w;
        assert v * PGSIZE < va + k;
        StillThere(o1, owner, S, Path(r, v));
      }
    }
  }

  /** It has come to the end: there was room. */
  lemma FaultedAll(m0: Mem, l0: nat, f0: seq<nat>, o0: Owners, m1: Mem, l1: nat, f1: seq<nat>, o1: Owners, lo: nat,
                   r: nat, sz: nat, va: nat, n: nat)
    requires Kmem(m0, l0, f0, o0, lo) && Kmem(m1, l1, f1, o1, lo) && |m1| == |m0| && PtOk(m1, o1)
    requires Spread(o0, o1, Paths(r, Faults(m0, r, sz, va, n))) && FaultedTo(m0, o1, r, sz, va, n, n)
    ensures CanFault(m0, o0, |f0|, r, sz, va, n)
  {
    hide Kmem, PtOk, Need, Paths, Absent, Path, Pages, Spread;
    PathsRoom(m0, l0, f0, o0, m1, l1, f1, o1, lo, r, Faults(m0, r, sz, va, n));
  }

  /** It stopped for lack of memory: there was none. */
  lemma FaultedNot(m0: Mem, l0: nat, f0: seq<nat>, o0: Owners, m1: Mem, l1: nat, f1: seq<nat>, o1: Owners, lo: nat,
                   r: nat, sz: nat, va: nat, n: nat, k: nat)
    requires Kmem(m0, l0, f0, o0, lo) && Kmem(m1, l1, f1, o1, lo) && |m1| == |m0| && PtOk(m0, o0) && PtOk(m1, o1)
    requires IsRoot(o0, r) && sz <= USERTOP && Spread(o0, o1, Paths(r, Faults(m0, r, sz, va, n))) && k < n
    requires Absent(m1, r, sz, (va + k) / PGSIZE) && Need(o1, Path(r, (va + k) / PGSIZE)) > |f1|
    ensures !CanFault(m0, o0, |f0|, r, sz, va, n)
  {
    hide Kmem, PtOk, Need, Paths, Absent, Path, Pages, Spread, Faults;
    StillMapped(m0, o0, m1, o1, Paths(r, Faults(m0, r, sz, va, n)), r, sz, (va + k) / PGSIZE);
    FaultIn(m0, r, sz, va, n, k);
    PathsNoRoom(m0, l0, f0, o0, m1, l1, f1, o1, lo, r, Faults(m0, r, sz, va, n), (va + k) / PGSIZE);
  }

  lemma FaultSpread(m0: Mem, o0: Owners, m1: Mem, o1: Owners, owner: Owners, r: nat, sz: nat, va: nat, n: nat, k: nat)
    requires PtOk(m0, o0) && PtOk(m1, o1) && IsRoot(o0, r) && sz <= USERTOP && k < n
    requires Spread(o0, o1, Paths(r, Faults(m0, r, sz, va, n)))
    requires Spread(o1, owner, FaultSlots(m1, r, sz, (va + k) / PGSIZE))
    ensures Spread(o0, owner, Paths(r, Faults(m0, r, sz, va, n)))
  {
    hide PtOk, Paths, Absent, Path, Pages, Faults;
    var v := (va + k) / PGSIZE;
    if Absent(m1, r, sz, v) {
      StillMapped(m0, o0, m1, o1, Paths(r, Faults(m0, r, sz, va, n)), r, sz, v);
      FaultIn(m0, r, sz, va, n, k);
      SpreadPath(o0, o1, owner, r, Faults(m0, r, sz, va, n), v);
    }
  }
}
