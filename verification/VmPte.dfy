/** Page-table entries and virtual page numbers of kernel/riscv.h, in the format of
    Sv39 (section 4.4 of the RISC-V privileged architecture). */
module VmPte {
  const PGSIZE: nat := 4096
  const PTES: nat := 512
  const ALLVPN: nat := 0x800_0000    // pages that three levels can reach
  const MAXVPN: nat := 0x400_0000    // MAXVA / PGSIZE
  const TRAMPOLINE: nat := MAXVPN - 1
  const TRAPFRAME: nat := MAXVPN - 2

  const PTE_V: nat := 1
  const PTE_R: nat := 2
  const PTE_W: nat := 4
  const PTE_X: nat := 8
  const PTE_U: nat := 16

  predicate Valid(pte: nat) {
    pte % 2 == 1
  }

  /** One of R, W and X is set: the entry maps a page. */
  predicate IsLeaf(pte: nat) {
    pte / 2 % 8 != 0
  }

  predicate IsWritable(pte: nat) {
    pte / 4 % 2 == 1
  }

  predicate IsUser(pte: nat) {
    pte / 16 % 2 == 1
  }

  /** PTE2PA, as a page number. */
  function Ppn(pte: nat): (p: nat) {
    pte / 1024
  }

  function Flags(pte: nat): (f: nat) {
    pte % 1024
  }

  /** PA2PTE(pa) | perm | PTE_V */
  function MakePte(ppn: nat, perm: nat): (pte: nat)
    requires perm < 1024
  {
    ppn * 1024 + if perm % 2 == 1 then perm else perm + 1
  }

  lemma MadePte(ppn: nat, perm: nat)
    requires perm < 1024
    ensures Valid(MakePte(ppn, perm)) && Ppn(MakePte(ppn, perm)) == ppn
    ensures IsLeaf(MakePte(ppn, perm)) == IsLeaf(perm) && IsUser(MakePte(ppn, perm)) == IsUser(perm)
    ensures IsWritable(MakePte(ppn, perm)) == IsWritable(perm)
    ensures Flags(MakePte(ppn, perm)) == if perm % 2 == 1 then perm else perm + 1
  {
    var f := if perm % 2 == 1 then perm else perm + 1;
    FieldOf(ppn, f);
    FieldOf(0, f);
    assert f / 2 == perm / 2;
    HalfFields(f, perm);
  }

  lemma FieldOf(ppn: nat, f: nat)
    requires f < 1024
    ensures (ppn * 1024 + f) % 2 == f % 2 && (ppn * 1024 + f) / 1024 == ppn && (ppn * 1024 + f) % 1024 == f
    ensures (ppn * 1024 + f) / 2 % 8 == f / 2 % 8
    ensures (ppn * 1024 + f) / 4 % 2 == f / 4 % 2
    ensures (ppn * 1024 + f) / 16 % 2 == f / 16 % 2
  {
    Halved(ppn * 512, f);
    Halved(ppn * 256, f / 2);
    Halved(ppn * 128, f / 4);
    Halved(ppn * 64, f / 8);
    Digits(ppn, f);
    LowDigits(ppn * 64, f / 2);
    LowDigits(ppn * 32, f / 4);
    LowDigits(ppn * 8, f / 16);
  }

  lemma Halved(x: nat, f: nat)
    ensures (2 * x + f) / 2 == x + f / 2 && (2 * x + f) % 2 == f % 2
  {
  }

  lemma Digits(ppn: nat, f: nat)
    requires f < 1024
    ensures (ppn * 1024 + f) / 1024 == ppn && (ppn * 1024 + f) % 1024 == f
  {
  }

  lemma LowDigits(x: nat, f: nat)
    ensures (8 * x + f) % 8 == f % 8 && (8 * x + f) % 2 == f % 2
  {
    Eighths(x, f);
    Halved(4 * x, f);
  }

  lemma Eighths(x: nat, f: nat)
    ensures (8 * x + f) % 8 == f % 8
  {
    var q, r := f / 8, f % 8;
    assert 8 * x + f == 8 * (x + q) + r;
  }

  lemma HalfFields(f: nat, g: nat)
    requires f / 2 == g / 2
    ensures IsLeaf(f) == IsLeaf(g) && IsWritable(f) == IsWritable(g) && IsUser(f) == IsUser(g)
  {
    assert f / 4 == f / 2 / 2 && g / 4 == g / 2 / 2;
    assert f / 16 == f / 2 / 8 && g / 16 == g / 2 / 8;
  }

  /** PX(2, va), PX(1, va) and PX(0, va) of the page number v. */
  function Top(v: nat): (i: nat) {
    v / 0x40000 % PTES
  }

  function Mid9(v: nat): (i: nat) {
    v / PTES % PTES
  }

  function Low9(v: nat): (i: nat) {
    v % PTES
  }

  function Join(a: nat, b: nat, c: nat): (v: nat) {
    a * 0x40000 + b * PTES + c
  }

  /** The three indices determine the page: distinct pages have distinct slots. */
  lemma SplitJoin(v: nat)
    requires v < ALLVPN
    ensures Join(Top(v), Mid9(v), Low9(v)) == v
    ensures v < MAXVPN ==> Top(v) < 256
  {
    assert v / PTES == v / 0x40000 * PTES + v / PTES % PTES;
  }

  lemma JoinSplit(a: nat, b: nat, c: nat)
    requires a < PTES && b < PTES && c < PTES
    ensures Join(a, b, c) < ALLVPN
    ensures Top(Join(a, b, c)) == a && Mid9(Join(a, b, c)) == b && Low9(Join(a, b, c)) == c
  {
    assert Join(a, b, c) / PTES == a * PTES + b;
    assert Join(a, b, c) / 0x40000 == a;
  }

  lemma DistinctSlots(v: nat, w: nat)
    requires v < ALLVPN && w < ALLVPN && v != w
    ensures Top(v) != Top(w) || Mid9(v) != Mid9(w) || Low9(v) != Low9(w)
  {
    SplitJoin(v);
    SplitJoin(w);
  }
}
