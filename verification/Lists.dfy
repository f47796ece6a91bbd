/** What the primitives do to a list as a sequence, at any position of it. */
module Lists {
  import opened Links
  import opened Rings
  import opened Traversals

  function InsertBefore<P>(r: seq<P>, k: nat, x: P): seq<P>
    requires k < |r|
  {
    r[..k] + [x] + r[k..]
  }

  /** `list_add` at any member of a ring inserts right after that member. */
  lemma ListAddInserts<P>(h: Heap<P>, r: seq<P>, k: nat, x: P)
    requires IsRing(h, r) && k < |r| && x in h && x !in r
    ensures h[r[k]].next in h
    ensures IsRing(ListAdd(h, x, r[k]), InsertAfter(r, k, x))
  {
    assert h[r[k]].next == After(r, k);
    AddSplices(h, x, r[k], After(r, k));
    SpliceInserts(h, ListAdd(h, x, r[k]), r, k, x);
  }

  /** `list_add_tail` at any member of a ring inserts right before that member. */
  lemma ListAddTailInserts<P>(h: Heap<P>, r: seq<P>, k: nat, x: P)
    requires IsRing(h, r) && k < |r| && x in h && x !in r
    ensures h[r[k]].prev in h
    ensures IsRing(ListAddTail(h, x, r[k]), InsertBefore(r, k, x))
  {
    var j := if k == 0 then |r| - 1 else k - 1;
    assert After(r, j) == r[k] && h[After(r, j)].prev == r[j];
    var g := ListAddTail(h, x, r[k]);
    AddSplices(h, x, r[j], r[k]);
    SpliceInserts(h, g, r, j, x);
    if k == 0 {
      RotateIsRing(g, InsertAfter(r, j, x), |r|);
      assert Rotate(InsertAfter(r, j, x), |r|) == InsertBefore(r, k, x);
    } else {
      assert InsertAfter(r, j, x) == InsertBefore(r, k, x);
    }
  }

  /** `list_del` removes exactly the entry it is given, wherever it sits, without being told the head. */
  lemma ListDelRemoves<P>(h: Heap<P>, r: seq<P>, k: nat, poison: Cell<P>)
    requires IsRing(h, r) && k < |r| && 1 < |r|
    ensures h[r[k]].next in h && h[r[k]].prev in h
    ensures IsRing(DelEntry(h, r[k]), RemoveAt(r, k))
    ensures IsRing(ListDel(h, r[k], poison), RemoveAt(r, k))
    ensures ListDel(h, r[k], poison)[r[k]] == poison
  {
    NeighboursInRing(h, r, r[k]);
    DelBridges(h, r[k]);
    var g, s := DelEntry(h, r[k]), RemoveAt(r, k);
    BridgeRemoves(h, g, r, k);
    PoisonElsewhere(g, s, r[k], poison);
  }

  lemma PoisonElsewhere<P>(h: Heap<P>, r: seq<P>, x: P, poison: Cell<P>)
    requires IsRing(h, r) && x in h && x !in r
    ensures IsRing(h[x := poison], r)
  {
  }

  /** Every list that is not the one operated on stays as it was. */
  lemma AddsElsewhere<P>(h: Heap<P>, s: seq<P>, x: P, at: P)
    requires IsRing(h, s) && x in h && x !in s && at in h && at !in s
    requires h[at].next in h && h[h[at].next].prev == at && h[at].prev in h && h[h[at].prev].next == at
    ensures IsRing(Init(h, x), s)
    ensures IsRing(ListAdd(h, x, at), s)
    ensures IsRing(ListAddTail(h, x, at), s)
  {
    var p, n := h[at].prev, h[at].next;
    NeighboursElsewhere(h, s, at);
    AddSplices(h, x, at, n);
    SpliceElsewhere(h, ListAdd(h, x, at), s, x, at, n);
    AddSplices(h, x, p, at);
    SpliceElsewhere(h, ListAddTail(h, x, at), s, x, p, at);
    PoisonElsewhere(h, s, x, Cell(x, x));
  }

  lemma DelsElsewhere<P>(h: Heap<P>, s: seq<P>, at: P, poison: Cell<P>)
    requires IsRing(h, s) && at in h && at !in s
    requires h[at].next in h && h[h[at].next].prev == at && h[at].prev in h && h[h[at].prev].next == at
    ensures IsRing(DelEntry(h, at), s)
    ensures IsRing(ListDel(h, at, poison), s)
  {
    NeighboursElsewhere(h, s, at);
    DelBridges(h, at);
    BridgeElsewhere(h, DelEntry(h, at), s, h[at].prev, h[at].next);
    PoisonElsewhere(DelEntry(h, at), s, at, poison);
  }

  lemma NeighboursElsewhere<P>(h: Heap<P>, s: seq<P>, at: P)
    requires IsRing(h, s) && at in h && at !in s
    requires h[at].next in h && h[h[at].next].prev == at && h[at].prev in h && h[h[at].prev].next == at
    ensures h[at].next !in s && h[at].prev !in s
  {
    if h[at].prev in s { NeighboursInRing(h, s, h[at].prev); }
    if h[at].next in s { NeighboursInRing(h, s, h[at].next); }
  }

  /** The head's view: `list_add` puts the entry first, as a stack does; `list_add_tail` puts it last,
      as a queue does. */
  lemma AddsAtHead<P>(h: Heap<P>, head: P, es: seq<P>, x: P)
    requires IsRing(h, [head] + es) && x in h && x != head && x !in es
    ensures head in h && h[head].next in h && IsRing(ListAdd(h, x, head), [head] + ([x] + es))
    ensures h[head].prev in h && IsRing(ListAddTail(h, x, head), [head] + (es + [x]))
  {
    var r := [head] + es;
    ListAddInserts(h, r, 0, x);
    assert InsertAfter(r, 0, x) == [head] + ([x] + es);
    ListAddTailInserts(h, r, 0, x);
    var s := InsertBefore(r, 0, x);
    RotateIsRing(ListAddTail(h, x, head), s, 1);
    assert Rotate(s, 1) == [head] + (es + [x]);
  }

  /** The head's view of deleting the entry at position `i`. */
  lemma DelsAtHead<P>(h: Heap<P>, head: P, es: seq<P>, i: nat, poison: Cell<P>)
    requires IsRing(h, [head] + es) && i < |es|
    ensures es[i] in h && h[es[i]].next in h && h[es[i]].prev in h
    ensures IsRing(ListDel(h, es[i], poison), [head] + RemoveAt(es, i))
  {
    var r := [head] + es;
    assert r[i + 1] == es[i];
    ListDelRemoves(h, r, i + 1, poison);
    assert RemoveAt(r, i + 1) == [head] + RemoveAt(es, i);
  }

  /** The same facts on what a traversal from the head meets, in either direction. */
  lemma TraversalsAfterAdd<P>(h: Heap<P>, head: P, es: seq<P>, x: P)
    requires IsRing(h, [head] + es) && x in h && x != head && x !in es
    ensures head in h && h[head].next in h && h[head].prev in h
    ensures var g := ListAdd(h, x, head);
      Entries(g, head) == [x] + es && EntriesBackward(g, head) == Reverse([x] + es)
    ensures var g := ListAddTail(h, x, head);
      Entries(g, head) == es + [x] && EntriesBackward(g, head) == Reverse(es + [x])
  {
    AddsAtHead(h, head, es, x);
    WalksOfList(ListAdd(h, x, head), head, [x] + es);
    WalksOfList(ListAddTail(h, x, head), head, es + [x]);
  }

  lemma TraversalsAfterDel<P>(h: Heap<P>, head: P, es: seq<P>, i: nat, poison: Cell<P>)
    requires IsRing(h, [head] + es) && i < |es|
    ensures es[i] in h && h[es[i]].next in h && h[es[i]].prev in h && head in h
    ensures var g := ListDel(h, es[i], poison);
      Entries(g, head) == RemoveAt(es, i) && EntriesBackward(g, head) == Reverse(RemoveAt(es, i))
  {
    DelsAtHead(h, head, es, i, poison);
    WalksOfList(ListDel(h, es[i], poison), head, RemoveAt(es, i));
  }

  lemma WalksOfList<P>(h: Heap<P>, head: P, es: seq<P>)
    requires IsRing(h, [head] + es)
    ensures head in h && Entries(h, head) == es && EntriesBackward(h, head) == Reverse(es)
  {
    WalksOfRing(h, [head] + es);
    assert ([head] + es)[1..] == es;
  }
}
