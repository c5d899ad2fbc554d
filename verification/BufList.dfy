/** The buffers of kernel/bio.c and the doubly linked LRU list through them.
    Buffer NBUF is the list head. */
module BufList {
  import opened Blocks

  const NBUF: nat := 3 * MAXOPBLOCKS
  const HEAD: nat := NBUF
  const ROOTDEV: nat := 1

  datatype Buf = Buf(
    valid: bool,
    dev: nat,
    blockno: nat,
    locked: bool,
    refcnt: nat,
    prev: nat,
    next: nat,
    data: Block)

  /** Position i of the circular list: the head, the listed buffers, the head again. */
  function At(order: seq<nat>, i: nat): (b: nat)
    requires i <= |order| + 1
  {
    if i == 0 || i == |order| + 1 then HEAD else order[i - 1]
  }

  /** `order` lists distinct buffers, and the links walk it in both directions. */
  ghost predicate Linked(bs: seq<Buf>, order: seq<nat>) {
    && |bs| == NBUF + 1
    && (forall i :: 0 <= i < |order| ==> order[i] < NBUF)
    && Distinct(order)
    && forall i :: 0 <= i <= |order| ==>
         bs[At(order, i)].next == At(order, i + 1) && bs[At(order, i + 1)].prev == At(order, i)
  }

  function Without(order: seq<nat>, k: nat): (r: seq<nat>)
    requires k < |order|
  {
    order[..k] + order[k + 1..]
  }

  /** Take b out: its neighbours come to point at each other. */
  function Unlink(bs: seq<Buf>, b: nat): (r: seq<Buf>)
    requires b < |bs| && bs[b].next < |bs| && bs[b].prev < |bs|
  {
    var bs1 := bs[bs[b].next := bs[bs[b].next].(prev := bs[b].prev)];
    bs1[bs1[b].prev := bs1[bs1[b].prev].(next := bs1[b].next)]
  }

  /** Put b between the head and the buffer that was first. */
  function PushFront(bs: seq<Buf>, b: nat): (r: seq<Buf>)
    requires |bs| == NBUF + 1 && b < NBUF && bs[HEAD].next < |bs|
  {
    var bs1 := bs[b := bs[b].(next := bs[HEAD].next, prev := HEAD)];
    var bs2 := bs1[bs1[HEAD].next := bs1[bs1[HEAD].next].(prev := b)];
    bs2[HEAD := bs2[HEAD].(next := b)]
  }

  lemma UnlinkKeepsList(bs: seq<Buf>, order: seq<nat>, k: nat)
    requires Linked(bs, order) && k < |order|
    ensures bs[order[k]].next < |bs| && bs[order[k]].prev < |bs|
    ensures Linked(Unlink(bs, order[k]), Without(order, k))
  {
    var b := order[k];
    assert At(order, k + 1) == b && bs[At(order, k)].next == b && bs[b].prev == At(order, k);
    assert bs[b].next == At(order, k + 2);
    var r := Unlink(bs, b);
    var rest := Without(order, k);
    forall i | 0 <= i <= |rest|
      ensures r[At(rest, i)].next == At(rest, i + 1) && r[At(rest, i + 1)].prev == At(rest, i)
    {
      WithoutAt(order, k, i);
      WithoutAt(order, k, i + 1);
      UnlinkAt(bs, order, k, i);
    }
  }

  /** Positions in the list without its k-th buffer. */
  lemma WithoutAt(order: seq<nat>, k: nat, i: nat)
    requires k < |order| && i <= |order|
    ensures At(Without(order, k), i) == At(order, if i <= k then i else i + 1)
  {
  }

  lemma UnlinkAt(bs: seq<Buf>, order: seq<nat>, k: nat, i: nat)
    requires Linked(bs, order) && k < |order| && i < |order|
    ensures bs[order[k]].next < |bs| && bs[order[k]].prev < |bs|
    ensures var r := Unlink(bs, order[k]);
            var x, y := At(order, if i <= k then i else i + 1), At(order, if i < k then i + 1 else i + 2);
            x < |bs| && y < |bs| && r[x].next == y && r[y].prev == x
  {
    var b := order[k];
    assert At(order, k + 1) == b && bs[At(order, k)].next == b && bs[b].prev == At(order, k);
    assert bs[b].next == At(order, k + 2);
    var j := if i <= k then i else i + 1;
    assert bs[At(order, j)].next == At(order, j + 1) && bs[At(order, j + 1)].prev == At(order, j);
  }

  lemma PushFrontKeepsList(bs: seq<Buf>, order: seq<nat>, b: nat)
    requires Linked(bs, order) && b < NBUF && b !in order
    ensures bs[HEAD].next < |bs|
    ensures Linked(PushFront(bs, b), [b] + order)
  {
    assert At(order, 0) == HEAD && bs[HEAD].next == At(order, 1);
    var r := PushFront(bs, b);
    var all := [b] + order;
    forall i | 0 <= i <= |all|
      ensures r[At(all, i)].next == At(all, i + 1) && r[At(all, i + 1)].prev == At(all, i)
    {
      if i > 0 {
        assert At(all, i + 1) == At(order, i);
        if i > 1 {
          assert At(all, i) == At(order, i - 1);
        }
      }
    }
  }
}
