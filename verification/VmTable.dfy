/** Physical pages, who owns them, and the three-level tables that live in them. */
module VmTable {
  import opened VmPte

  type Byte = x: nat | x < 256 witness 0
  type Table = w: seq<nat> | |w| == PTES witness seq(PTES, _ => 0)
  type Data = b: seq<Byte> | |b| == PGSIZE witness seq(PGSIZE, _ => 0)

  /** A page holds the link of the free list, table entries or bytes; Junk is what
      kalloc and kernel memory hold. */
  datatype Page = Link(next: nat) | Junk | Words(w: Table) | Bytes(b: Data)

  type Mem = seq<Page>

  function NoEntries(): Table {
    seq(PTES, _ => 0)
  }

  function Zeroes(): Data {
    seq(PGSIZE, _ => 0)
  }

  /** What a page is for: the root of a page table, a lower table in a given entry
      of it, the frame of user page v, or something of the kernel's. */
  datatype Slot = Held | Root(r: nat) | Mid(r: nat, a: nat) | Low(r: nat, a: nat, b: nat) | Leaf(r: nat, v: nat)

  type Owners = map<nat, Slot>

  ghost predicate IsTable(s: Slot) {
    s.Root? || s.Mid? || s.Low?
  }

  /** The slot is an entry of some table. */
  ghost predicate IsEntry(s: Slot) {
    || (s.Mid? && s.a < PTES)
    || (s.Low? && s.a < PTES && s.b < PTES)
    || (s.Leaf? && s.v < ALLVPN)
  }

  /** The frames of the trampoline and the trapframe are not the page table's. */
  ghost predicate Owns(s: Slot) {
    s.Leaf? ==> s.v != TRAMPOLINE && s.v != TRAPFRAME
  }

  ghost function Parent(s: Slot): (p: Slot)
    requires IsEntry(s)
    ensures IsTable(p) && p.r == s.r && Rank(p) < Rank(s) && (p.Root? || IsEntry(p))
  {
    match s
    case Mid(r, a) => Root(r)
    case Low(r, a, b) => Mid(r, a)
    case Leaf(r, v) => Low(r, Top(v), Mid9(v))
  }

  ghost function Index(s: Slot): (i: nat)
    requires IsEntry(s)
    ensures i < PTES
  {
    match s
    case Mid(r, a) => a
    case Low(r, a, b) => b
    case Leaf(r, v) => Low9(v)
  }

  ghost function Rank(s: Slot): nat {
    match s
    case Held => 0
    case Root(_) => 0
    case Mid(_, _) => 1
    case Low(_, _, _) => 2
    case Leaf(_, _) => 3
  }

  lemma SlotsDiffer(s: Slot, x: Slot)
    requires IsEntry(s) && IsEntry(x) && Parent(s) == Parent(x) && Index(s) == Index(x)
    ensures s == x
  {
    if s.Leaf? {
      SplitJoin(s.v);
      SplitJoin(x.v);
    }
  }

  /** Entry i of the table in page p. */
  ghost function Entry(mem: Mem, p: nat, i: nat): nat {
    if p < |mem| && mem[p].Words? && i < PTES then mem[p].w[i] else 0
  }

  /** The page of the table for slot s, or none (|mem|). */
  ghost function Base(mem: Mem, s: Slot): nat
    requires IsTable(s) && (s.Root? || IsEntry(s))
    decreases Rank(s), 1
  {
    if s.Root? then s.r else if Valid(Pte(mem, s)) then Ppn(Pte(mem, s)) else |mem|
  }

  /** The entry in slot s, as walk finds it; 0 where there is no table for it. */
  ghost function Pte(mem: Mem, s: Slot): nat
    requires IsEntry(s)
    decreases Rank(s), 0
  {
    Entry(mem, Base(mem, Parent(s)), Index(s))
  }

  ghost predicate IsRoot(owner: Owners, r: nat) {
    r in owner && owner[r] == Root(r)
  }

  ghost predicate Live(owner: Owners, s: Slot) {
    IsEntry(s) && IsRoot(owner, s.r)
  }

  /** What a valid entry e in slot s points to. */
  ghost predicate Target(mem: Mem, owner: Owners, s: Slot, e: nat) {
    var p := Ppn(e);
    if s.Leaf? then IsLeaf(e) && (Owns(s) ==> p in owner && owner[p] == s && p < |mem| && mem[p].Bytes?)
    else !IsLeaf(e) && p in owner && owner[p] == s && p < |mem| && mem[p].Words?
  }

  ghost predicate SlotOk(mem: Mem, owner: Owners, s: Slot) {
    Live(owner, s) ==> if Valid(Pte(mem, s)) then Target(mem, owner, s, Pte(mem, s)) else Pte(mem, s) == 0
  }

  /** An owned page is where its owner says it is. */
  ghost predicate PageOk(mem: Mem, owner: Owners, p: nat) {
    p in owner && !owner[p].Held? ==>
      if owner[p].Root? then owner[p].r == p && p < |mem| && mem[p].Words?
      else Live(owner, owner[p]) && Owns(owner[p]) && Valid(Pte(mem, owner[p])) && Ppn(Pte(mem, owner[p])) == p
  }

  ghost predicate PtOk(mem: Mem, owner: Owners) {
    && (forall s :: SlotOk(mem, owner, s))
    && (forall p :: PageOk(mem, owner, p))
  }

  // ---- which entries depend on which pages ----

  /** The table of a live slot that has one is owned as such. */
  lemma BaseOwned(mem: Mem, owner: Owners, s: Slot)
    requires PtOk(mem, owner) && IsTable(s) && IsRoot(owner, s.r) && (s.Root? || IsEntry(s)) && Base(mem, s) < |mem|
    ensures Base(mem, s) in owner && owner[Base(mem, s)] == s && mem[Base(mem, s)].Words?
  {
    if s.Root? {
      assert PageOk(mem, owner, s.r);
    } else {
      assert SlotOk(mem, owner, s);
    }
  }

  ghost predicate TablesKept(mem: Mem, owner: Owners, mem': Mem) {
    |mem'| == |mem| && forall p :: p in owner && p < |mem| && IsTable(owner[p]) ==> mem'[p] == mem[p]
  }

  lemma {:induction false} SamePte(mem: Mem, owner: Owners, mem': Mem, s: Slot)
    requires PtOk(mem, owner) && TablesKept(mem, owner, mem') && Live(owner, s)
    ensures Pte(mem', s) == Pte(mem, s)
    decreases Rank(s)
  {
    var p := Parent(s);
    if !p.Root? {
      SamePte(mem, owner, mem', p);
    }
    if Base(mem, p) < |mem| {
      BaseOwned(mem, owner, p);
    }
  }

  /** s is x or above it. */
  ghost predicate Above(s: Slot, x: Slot)
    requires IsEntry(x)
    decreases Rank(x)
  {
    s == x || s == Parent(x) || (!Parent(x).Root? && Above(s, Parent(x)))
  }

  /** Writing entry s changes no entry that is not below it. */
  lemma {:induction false} WriteOther(mem: Mem, owner: Owners, s: Slot, w: Table, x: Slot)
    requires PtOk(mem, owner) && Live(owner, s) && Live(owner, x) && !Above(s, x)
    requires Base(mem, Parent(s)) < |mem| && mem[Base(mem, Parent(s))].Words?
    requires forall i :: 0 <= i < PTES && i != Index(s) ==> w[i] == mem[Base(mem, Parent(s))].w[i]
    ensures Pte(mem[Base(mem, Parent(s)) := Words(w)], x) == Pte(mem, x)
    decreases Rank(x)
  {
    var b := Base(mem, Parent(s));
    var mem' := mem[b := Words(w)];
    var p := Parent(x);
    if !p.Root? {
      WriteOther(mem, owner, s, w, p);
    }
    assert Base(mem', p) == Base(mem, p);
    if Base(mem, p) == b {
      BaseOwned(mem, owner, p);
      BaseOwned(mem, owner, Parent(s));
      if Index(x) == Index(s) {
        SlotsDiffer(s, x);
      }
    }
  }

  /** The entry itself, if no table above it was concerned. */
  lemma WriteSelf(mem: Mem, owner: Owners, s: Slot, w: Table)
    requires PtOk(mem, owner) && Live(owner, s)
    requires Base(mem, Parent(s)) < |mem| && mem[Base(mem, Parent(s))].Words?
    requires forall i :: 0 <= i < PTES && i != Index(s) ==> w[i] == mem[Base(mem, Parent(s))].w[i]
    ensures Pte(mem[Base(mem, Parent(s)) := Words(w)], s) == w[Index(s)]
  {
    var p := Parent(s);
    if !p.Root? {
      AboveRank(s, p);
      WriteOther(mem, owner, s, w, p);
    }
  }

  lemma {:induction false} AboveRank(s: Slot, x: Slot)
    requires IsEntry(x) && IsEntry(s) && Rank(s) > Rank(x)
    ensures !Above(s, x)
    decreases Rank(x)
  {
    if !Parent(x).Root? {
      AboveRank(s, Parent(x));
    }
  }

  // ---- changes that keep the tables as they are ----

  /** Tables stay, frames stay frames, and only pages held by the kernel come or go. */
  ghost predicate Frame(mem: Mem, owner: Owners, mem': Mem, owner': Owners) {
    && TablesKept(mem, owner, mem')
    && (forall p :: p in owner && p < |mem| && owner[p].Leaf? && mem[p].Bytes? ==> mem'[p].Bytes?)
    && (forall p :: p in owner && !owner[p].Held? ==> p in owner' && owner'[p] == owner[p])
    && (forall p :: p in owner' && !owner'[p].Held? ==> p in owner && owner[p] == owner'[p])
  }

  lemma FrameKeeps(mem: Mem, owner: Owners, mem': Mem, owner': Owners)
    requires PtOk(mem, owner) && Frame(mem, owner, mem', owner')
    ensures PtOk(mem', owner')
    ensures forall s :: Live(owner', s) ==> Pte(mem', s) == Pte(mem, s)
  {
    forall s | Live(owner', s)
      ensures Pte(mem', s) == Pte(mem, s)
    {
      SamePte(mem, owner, mem', s);
    }
    forall s
      ensures SlotOk(mem', owner', s)
    {
      assert SlotOk(mem, owner, s);
    }
    forall p
      ensures PageOk(mem', owner', p)
    {
      assert PageOk(mem, owner, p);
    }
  }

  // ---- a leaf entry is set or cleared ----

  lemma LeafAbove(s: Slot, x: Slot)
    requires s.Leaf? && IsEntry(s) && IsEntry(x) && x != s
    ensures !Above(s, x)
  {
    if !Parent(x).Root? {
      AboveRank(s, Parent(x));
    }
  }

  /** mem with entry s set to e. */
  ghost function SetPte(mem: Mem, s: Slot, e: nat): (r: Mem)
    requires IsEntry(s) && Base(mem, Parent(s)) < |mem| && mem[Base(mem, Parent(s))].Words?
    ensures |r| == |mem|
  {
    var b := Base(mem, Parent(s));
    mem[b := Words(mem[b].w[Index(s) := e])]
  }

  ghost predicate HasSlot(mem: Mem, owner: Owners, s: Slot) {
    Live(owner, s) && Base(mem, Parent(s)) < |mem|
  }

  lemma SlotHas(mem: Mem, owner: Owners, s: Slot)
    requires PtOk(mem, owner) && HasSlot(mem, owner, s)
    ensures Base(mem, Parent(s)) in owner && owner[Base(mem, Parent(s))] == Parent(s)
      && mem[Base(mem, Parent(s))].Words?
  {
    BaseOwned(mem, owner, Parent(s));
  }

  lemma WriteLeaf(mem: Mem, owner: Owners, s: Slot, e: nat)
    requires PtOk(mem, owner) && HasSlot(mem, owner, s) && s.Leaf? && mem[Base(mem, Parent(s))].Words?
    ensures Pte(SetPte(mem, s, e), s) == e
    ensures forall x :: Live(owner, x) && x != s ==> Pte(SetPte(mem, s, e), x) == Pte(mem, x)
  {
    var w := mem[Base(mem, Parent(s))].w[Index(s) := e];
    WriteSelf(mem, owner, s, w);
    forall x | Live(owner, x) && x != s
      ensures Pte(SetPte(mem, s, e), x) == Pte(mem, x)
    {
      LeafAbove(s, x);
      WriteOther(mem, owner, s, w, x);
    }
  }

  /** mappages: a frame in the kernel's hands goes into an empty slot. */
  lemma MapKeeps(mem: Mem, owner: Owners, s: Slot, p: nat, e: nat)
    requires PtOk(mem, owner) && HasSlot(mem, owner, s) && s.Leaf? && mem[Base(mem, Parent(s))].Words?
    requires !Valid(Pte(mem, s)) && Valid(e) && IsLeaf(e) && Ppn(e) == p
    requires Owns(s) ==> p in owner && owner[p] == Held && p < |mem| && mem[p].Bytes?
    ensures PtOk(SetPte(mem, s, e), if Owns(s) then owner[p := s] else owner)
    ensures Pte(SetPte(mem, s, e), s) == e
    ensures forall x :: Live(owner, x) && x != s ==> Pte(SetPte(mem, s, e), x) == Pte(mem, x)
  {
    var mem', owner' := SetPte(mem, s, e), if Owns(s) then owner[p := s] else owner;
    SlotHas(mem, owner, s);
    WriteLeaf(mem, owner, s, e);
    forall x
      ensures SlotOk(mem', owner', x)
    {
      assert SlotOk(mem, owner, x);
    }
    forall q
      ensures PageOk(mem', owner', q)
    {
      assert PageOk(mem, owner, q);
    }
  }

  /** uvmunmap: the frame is in the kernel's hands again. */
  lemma UnmapKeeps(mem: Mem, owner: Owners, s: Slot)
    requires PtOk(mem, owner) && HasSlot(mem, owner, s) && s.Leaf? && mem[Base(mem, Parent(s))].Words?
    requires Valid(Pte(mem, s))
    ensures PtOk(SetPte(mem, s, 0), if Owns(s) then owner[Ppn(Pte(mem, s)) := Held] else owner)
    ensures Pte(SetPte(mem, s, 0), s) == 0
    ensures forall x :: Live(owner, x) && x != s ==> Pte(SetPte(mem, s, 0), x) == Pte(mem, x)
  {
    assert !Valid(0);
    hide Valid, Ppn, IsLeaf;
    var p := Ppn(Pte(mem, s));
    var mem', owner' := SetPte(mem, s, 0), if Owns(s) then owner[p := Held] else owner;
    SlotHas(mem, owner, s);
    assert SlotOk(mem, owner, s);
    WriteLeaf(mem, owner, s, 0);
    forall x
      ensures SlotOk(mem', owner', x)
    {
      assert SlotOk(mem, owner, x);
    }
    forall q
      ensures PageOk(mem', owner', q)
    {
      assert PageOk(mem, owner, q);
    }
  }

  // ---- a table is added or removed ----

  lemma {:induction false} BelowNothing(mem: Mem, s: Slot, x: Slot)
    requires IsEntry(s) && IsTable(s) && IsEntry(x) && Above(s, x) && x != s
    requires !Valid(Pte(mem, s)) || Ppn(Pte(mem, s)) >= |mem| || !mem[Ppn(Pte(mem, s))].Words?
             || mem[Ppn(Pte(mem, s))].w == NoEntries()
    ensures Pte(mem, x) == 0
    decreases Rank(x)
  {
    if Parent(x) != s {
      BelowNothing(mem, s, Parent(x));
    }
  }

  /** walk: an empty table in the kernel's hands goes into an empty slot. */
  lemma InstallKeeps(mem: Mem, owner: Owners, s: Slot, p: nat)
    requires PtOk(mem, owner) && HasSlot(mem, owner, s) && IsTable(s) && mem[Base(mem, Parent(s))].Words?
    requires !Valid(Pte(mem, s)) && p in owner && owner[p] == Held && p < |mem| && mem[p] == Words(NoEntries())
    ensures PtOk(SetPte(mem, s, MakePte(p, 0)), owner[p := s])
    ensures Pte(SetPte(mem, s, MakePte(p, 0)), s) == MakePte(p, 0) && Base(SetPte(mem, s, MakePte(p, 0)), s) == p
    ensures forall x :: Live(owner, x) && x != s ==> Pte(SetPte(mem, s, MakePte(p, 0)), x) == Pte(mem, x)
  {
    hide PtOk, MakePte, NoEntries, SetPte, Pte, Valid, Ppn, IsLeaf;
    var e := MakePte(p, 0);
    TablePte(p);
    InstallPtes(mem, owner, s, p, e);
    InstallPages(mem, owner, s, p, e);
    Installed(mem, owner, s, p, SetPte(mem, s, e), e);
  }

  lemma TablePte(p: nat)
    ensures Valid(MakePte(p, 0)) && Ppn(MakePte(p, 0)) == p && !IsLeaf(MakePte(p, 0))
  {
    MadePte(p, 0);
  }

  /** Of the pages only the table that holds the entry changes. */
  lemma InstallPages(mem: Mem, owner: Owners, s: Slot, p: nat, e: nat)
    requires PtOk(mem, owner) && HasSlot(mem, owner, s) && IsTable(s) && mem[Base(mem, Parent(s))].Words?
    requires p in owner && owner[p] == Held
    ensures var mem' := SetPte(mem, s, e);
            && |mem'| == |mem| && (p < |mem| ==> mem'[p] == mem[p])
            && forall q :: q in owner && q < |mem| ==>
                 (mem[q].Words? ==> mem'[q].Words?) && (mem[q].Bytes? ==> mem'[q].Bytes?)
  {
    BaseOwned(mem, owner, Parent(s));
  }

  lemma InstallPtes(mem: Mem, owner: Owners, s: Slot, p: nat, e: nat)
    requires PtOk(mem, owner) && HasSlot(mem, owner, s) && IsTable(s) && mem[Base(mem, Parent(s))].Words?
    requires !Valid(Pte(mem, s)) && p in owner && owner[p] == Held && p < |mem| && mem[p] == Words(NoEntries())
    requires Valid(e) && Ppn(e) == p
    ensures Pte(SetPte(mem, s, e), s) == e
    ensures forall x :: Live(owner, x) && x != s ==> Pte(SetPte(mem, s, e), x) == Pte(mem, x)
  {
    var mem' := SetPte(mem, s, e);
    SlotHas(mem, owner, s);
    var w := mem[Base(mem, Parent(s))].w[Index(s) := e];
    WriteSelf(mem, owner, s, w);
    forall x | Live(owner, x) && x != s
      ensures Pte(mem', x) == Pte(mem, x)
    {
      if Above(s, x) {
        BelowNothing(mem, s, x);
        BelowNothing(mem', s, x);
      } else {
        WriteOther(mem, owner, s, w, x);
      }
    }
  }

  lemma Installed(mem: Mem, owner: Owners, s: Slot, p: nat, mem': Mem, e: nat)
    requires PtOk(mem, owner) && Live(owner, s) && IsTable(s) && !Valid(Pte(mem, s))
    requires p in owner && owner[p] == Held && p < |mem| == |mem'| && mem'[p].Words?
    requires Pte(mem', s) == e && Valid(e) && Ppn(e) == p && !IsLeaf(e)
    requires forall x :: Live(owner, x) && x != s ==> Pte(mem', x) == Pte(mem, x)
    requires forall q :: q in owner && q < |mem| ==> (mem[q].Words? ==> mem'[q].Words?) && (mem[q].Bytes? ==>
      mem'[q].Bytes?)
    ensures PtOk(mem', owner[p := s])
  {
    var owner' := owner[p := s];
    hide Pte, Valid, Ppn, IsLeaf;
    forall x
      ensures SlotOk(mem', owner', x)
    {
      assert SlotOk(mem, owner, x);
    }
    forall q
      ensures PageOk(mem', owner', q)
    {
      assert PageOk(mem, owner, q);
    }
  }

  ghost predicate Below(s: Slot, x: Slot) {
    IsEntry(x) && x != s && Above(s, x)
  }

  lemma {:induction false} BelowEmpty(mem: Mem, owner: Owners, s: Slot, x: Slot)
    requires Below(s, x) && (forall y :: IsEntry(y) && Parent(y) == s ==> !Valid(Pte(mem, y)))
    ensures !Valid(Pte(mem, x))
    decreases Rank(x)
  {
    if Parent(x) != s {
      BelowEmpty(mem, owner, s, Parent(x));
    }
  }

  /** What freewalk leaves of the tables: the page of slot s is gone, and clearing the
      entry that pointed to it restores order. */
  lemma FreeKeeps(mem: Mem, owner: Owners, s: Slot, p: nat, link: nat)
    requires PtOk(mem, owner) && p in owner && owner[p] == s && (s.Mid? || s.Low?) && p < |mem|
    requires forall y :: IsEntry(y) && Parent(y) == s ==> !Valid(Pte(mem, y))
    ensures HasSlot(mem, owner, s) && Base(mem[p := Link(link)], Parent(s)) == Base(mem, Parent(s)) != p
    ensures mem[Base(mem, Parent(s))].Words?
    ensures PtOk(SetPte(mem[p := Link(link)], s, 0), owner - {p})
    ensures Pte(SetPte(mem[p := Link(link)], s, 0), s) == 0
    ensures forall x :: Live(owner, x) && x != s && !Below(s, x) ==>
        Pte(SetPte(mem[p := Link(link)], s, 0), x) == Pte(mem, x)
    ensures forall x :: Live(owner, x) && Below(s, x) ==> Pte(SetPte(mem[p := Link(link)], s, 0), x) == 0
  {
    assert !Valid(0);
    hide Valid, Ppn, IsLeaf;
    assert PageOk(mem, owner, p) && SlotOk(mem, owner, s);
    var b := Base(mem, Parent(s));
    SlotHas(mem, owner, s);
    var mem1 := mem[p := Link(link)];
    var w := mem[b].w[Index(s) := 0];
    var mem2 := mem[b := Words(w)];
    forall x | Live(owner, x) && !Below(s, x)
      ensures Pte(mem2[p := Link(link)], x) == if x == s then 0 else Pte(mem, x)
    {
      FreeOther(mem, owner, s, p, link, x);
    }
    FreeBase(mem, owner, s, p, link);
    assert SetPte(mem1, s, 0) == mem2[p := Link(link)];
    var mem' := SetPte(mem1, s, 0);
    forall x | Live(owner, x) && Below(s, x)
      ensures Pte(mem', x) == 0 && !Valid(Pte(mem, x))
    {
      BelowNothing(mem', s, x);
      BelowEmpty(mem, owner, s, x);
    }
    FreedOk(mem, owner, s, p, mem');
  }

  /** mem' is mem without the table of slot s, which was in page p. */
  ghost predicate Freed(mem: Mem, owner: Owners, s: Slot, p: nat, mem': Mem) {
    && IsEntry(s) && p in owner && owner[p] == s && (s.Mid? || s.Low?) && |mem'| == |mem| && Pte(mem', s) == 0
    && (forall x :: Live(owner, x) && Below(s, x) ==> Pte(mem', x) == 0 && !Valid(Pte(mem, x)))
    && (forall x :: Live(owner, x) && x != s && !Below(s, x) ==> Pte(mem', x) == Pte(mem, x))
    && (forall q :: q in owner && q != p && q < |mem| ==>
          (mem[q].Words? ==> mem'[q].Words?) && (mem[q].Bytes? ==> mem'[q].Bytes?))
  }

  lemma FreedSlot(mem: Mem, owner: Owners, s: Slot, p: nat, mem': Mem, x: Slot)
    requires PageOk(mem, owner, p) && SlotOk(mem, owner, x) && Freed(mem, owner, s, p, mem')
    ensures SlotOk(mem', owner - {p}, x)
  {
    assert !Valid(0);
    hide Valid, Ppn, IsLeaf, Pte, Below;
  }

  lemma FreedPage(mem: Mem, owner: Owners, s: Slot, p: nat, mem': Mem, q: nat)
    requires PageOk(mem, owner, p) && PageOk(mem, owner, q) && Freed(mem, owner, s, p, mem')
    ensures PageOk(mem', owner - {p}, q)
  {
    hide Valid, Ppn, IsLeaf, Pte, Below;
  }

  lemma FreedOk(mem: Mem, owner: Owners, s: Slot, p: nat, mem': Mem)
    requires PtOk(mem, owner) && Freed(mem, owner, s, p, mem')
    ensures PtOk(mem', owner - {p})
  {
    hide SlotOk, PageOk, Freed;
    assert PageOk(mem, owner, p);
    forall x
      ensures SlotOk(mem', owner - {p}, x)
    {
      assert SlotOk(mem, owner, x);
      FreedSlot(mem, owner, s, p, mem', x);
    }
    forall q
      ensures PageOk(mem', owner - {p}, q)
    {
      assert PageOk(mem, owner, q);
      FreedPage(mem, owner, s, p, mem', q);
    }
  }

  lemma FreeBase(mem: Mem, owner: Owners, s: Slot, p: nat, link: nat)
    requires PtOk(mem, owner) && p in owner && owner[p] == s && (s.Mid? || s.Low?) && p < |mem|
      && HasSlot(mem, owner, s)
    ensures Base(mem[p := Link(link)], Parent(s)) == Base(mem, Parent(s)) != p
  {
    SlotHas(mem, owner, s);
    if !Parent(s).Root? {
      AboveRank(s, Parent(s));
      FreePage(mem, owner, s, p, link, Parent(s));
    }
  }

  /** Overwriting the page of slot s changes only entries below s. */
  lemma {:induction false} FreePage(mem: Mem, owner: Owners, s: Slot, p: nat, link: nat, x: Slot)
    requires PtOk(mem, owner) && p in owner && owner[p] == s && (s.Mid? || s.Low?) && p < |mem|
    requires Live(owner, x) && !Below(s, x)
    ensures Pte(mem[p := Link(link)], x) == Pte(mem, x)
    decreases Rank(x)
  {
    var q := Parent(x);
    if !q.Root? {
      FreePage(mem, owner, s, p, link, q);
    }
    if Base(mem, q) < |mem| {
      BaseOwned(mem, owner, q);
    }
  }

  lemma {:induction false} FreeOther(mem: Mem, owner: Owners, s: Slot, p: nat, link: nat, x: Slot)
    requires PtOk(mem, owner) && p in owner && owner[p] == s && (s.Mid? || s.Low?) && p < |mem|
    requires HasSlot(mem, owner, s) && mem[Base(mem, Parent(s))].Words? && Live(owner, x) && !Below(s, x)
    ensures Pte(mem[Base(mem, Parent(s)) := Words(mem[Base(mem, Parent(s))].w[Index(s) := 0])][p := Link(link)], x)
            == if x == s then 0 else Pte(mem, x)
    decreases Rank(x)
  {
    var b := Base(mem, Parent(s));
    var q := Parent(x);
    SlotHas(mem, owner, s);
    if !q.Root? {
      FreeOther(mem, owner, s, p, link, q);
    }
    if Base(mem, q) < |mem| {
      BaseOwned(mem, owner, q);
      if Base(mem, q) == b && Index(x) == Index(s) {
        SlotsDiffer(s, x);
      }
    }
  }

  /** The end of freewalk on a whole page table. */
  lemma FreeRootKeeps(mem: Mem, owner: Owners, r: nat, link: nat)
    requires PtOk(mem, owner) && IsRoot(owner, r) && r < |mem|
    requires forall y :: IsEntry(y) && Parent(y) == Root(r) ==> !Valid(Pte(mem, y))
    ensures PtOk(mem[r := Link(link)], owner - {r})
    ensures forall x :: Live(owner - {r}, x) ==> Pte(mem[r := Link(link)], x) == Pte(mem, x)
    ensures forall q :: q in owner - {r} && !owner[q].Held? ==> owner[q].r != r
  {
    var mem', owner' := mem[r := Link(link)], owner - {r};
    forall x | Live(owner', x)
      ensures Pte(mem', x) == Pte(mem, x)
    {
      RootPage(mem, owner, r, link, x);
    }
    forall q | q in owner' && !owner[q].Held?
      ensures owner[q].r != r
    {
      assert PageOk(mem, owner, q);
      if owner[q].r == r && IsEntry(owner[q]) {
        RootAbove(owner[q]);
        BelowEmpty(mem, owner, Root(r), owner[q]);
      }
    }
    forall x
      ensures SlotOk(mem', owner', x)
    {
      assert SlotOk(mem, owner, x);
    }
    forall q
      ensures PageOk(mem', owner', q)
    {
      assert PageOk(mem, owner, q);
    }
  }

  lemma {:induction false} RootAbove(x: Slot)
    requires IsEntry(x)
    ensures Above(Root(x.r), x)
    decreases Rank(x)
  {
    if !Parent(x).Root? {
      RootAbove(Parent(x));
    }
  }

  lemma {:induction false} RootPage(mem: Mem, owner: Owners, r: nat, link: nat, x: Slot)
    requires PtOk(mem, owner) && IsRoot(owner, r) && r < |mem| && Live(owner, x) && x.r != r
    ensures Pte(mem[r := Link(link)], x) == Pte(mem, x)
    decreases Rank(x)
  {
    var q := Parent(x);
    if !q.Root? {
      RootPage(mem, owner, r, link, q);
    }
    if Base(mem, q) < |mem| {
      BaseOwned(mem, owner, q);
    }
  }
}
