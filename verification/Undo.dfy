/** Undoing: an add by a deletion, and deletions by adds, restoring the memory exactly. */
module Undo {
  import opened Links
  import opened Rings
  import opened Coherence

  /** `list_add` followed by `list_del` of that entry restores every field of every other node, in all
      lists, exactly when the head's successor pointed back to it. */
  lemma DelUndoesListAdd<P>(h: Heap<P>, x: P, head: P, poison: Cell<P>)
    requires x in h && head in h && h[head].next in h && x != head && x != h[head].next
    ensures var g := ListAdd(h, x, head);
      && g[x].next in g && g[x].prev in g
      && (ListDel(g, x, poison) == h[x := poison] <==> h[h[head].next].prev == head)
  {
    var n := h[head].next;
    AddSplices(h, x, head, n);
    var g := ListAdd(h, x, head);
    DelBridges(g, x);
    var d := DelEntry(g, x);
    assert ListDel(g, x, poison) == d[x := poison];
    assert d[n].prev == head;
    if h[n].prev == head {
      forall q | q in h ensures d[x := poison][q] == h[x := poison][q] {
      }
      assert d[x := poison] == h[x := poison];
    } else {
      assert d[x := poison][n] != h[x := poison][n];
    }
  }

  lemma DelUndoesListAddTail<P>(h: Heap<P>, x: P, head: P, poison: Cell<P>)
    requires x in h && head in h && h[head].prev in h && x != head && x != h[head].prev
    ensures var g := ListAddTail(h, x, head);
      && g[x].next in g && g[x].prev in g
      && (ListDel(g, x, poison) == h[x := poison] <==> h[h[head].prev].next == head)
  {
    var p := h[head].prev;
    AddSplices(h, x, p, head);
    var g := ListAddTail(h, x, head);
    DelBridges(g, x);
    var d := DelEntry(g, x);
    assert ListDel(g, x, poison) == d[x := poison];
    assert d[p].next == head;
    if h[p].next == head {
      forall q | q in h ensures d[x := poison][q] == h[x := poison][q] {
      }
      assert d[x := poison] == h[x := poison];
    } else {
      assert d[x := poison][p] != h[x := poison][p];
    }
  }

  datatype Outcome<P> = Fault | Memory(heap: Heap<P>)

  /** `__list_add(e, e->prev, e->next)`. */
  function Relink<P>(h: Heap<P>, e: P): Outcome<P> {
    if e in h && h[e].prev in h && h[e].next in h then
      Memory(Add(h, e, h[e].prev, h[e].next))
    else
      Fault
  }

  /** Relinking a deleted entry restores the memory exactly when its neighbours pointed to it. */
  lemma RelinkUndoesDel<P>(h: Heap<P>, e: P)
    requires e in h && h[e].prev in h && h[e].next in h
    ensures Relink(DelEntry(h, e), e) == Memory(h) <==>
            h[h[e].prev].next == e && (h[e].next == e || h[h[e].next].prev == e)
  {
    var p, n := h[e].prev, h[e].next;
    DelBridges(h, e);
    var d := DelEntry(h, e);
    AddSplices(d, e, d[e].prev, d[e].next);
    var g := Add(d, e, d[e].prev, d[e].next);
    if h[p].next == e && (n == e || h[n].prev == e) {
      forall q | q in h ensures g[q] == h[q] {
      }
      assert g == h;
    }
  }

  /** Distinct linked nodes. */
  ghost predicate Deletable<P>(linked: set<P>, es: seq<P>) {
    Distinct(es) && forall x :: x in es ==> x in linked
  }

  /** `__list_del_entry` of each node of `es`, in order. */
  ghost function DelAll<P>(h: Heap<P>, linked: set<P>, es: seq<P>): (g: Heap<P>)
    requires Coherent(h, linked) && Deletable(linked, es)
    ensures g.Keys == h.Keys && Coherent(g, linked - set x | x in es)
  {
    if es == [] then
      assert linked - (set x | x in es) == linked;
      h
    else
      var (init, last) := (es[..|es| - 1], es[|es| - 1]);
      var rest := linked - set x | x in init;
      assert rest - {last} == linked - set x | x in es;
      DelKeepsCoherence(DelAll(h, linked, init), rest, last);
      DelEntry(DelAll(h, linked, init), last)
  }

  /** Relinks the nodes of `es`, the last one first. */
  function RelinkAll<P>(h: Heap<P>, es: seq<P>): Outcome<P> {
    if es == [] then Memory(h)
    else
      match Relink(h, es[|es| - 1])
      case Fault => Fault
      case Memory(g) => RelinkAll(g, es[..|es| - 1])
  }

  /** Deletions from any lists, relinked in the opposite order: every `next` and `prev` field of
      every node is back, and no step follows a bad pointer. */
  lemma {:induction false} RelinkAllUndoesDelAll<P>(h: Heap<P>, linked: set<P>, es: seq<P>)
    requires Coherent(h, linked) && Deletable(linked, es)
    ensures RelinkAll(DelAll(h, linked, es), es) == Memory(h)
    decreases |es|
  {
    if es != [] {
      var init, last := es[..|es| - 1], es[|es| - 1];
      var g := DelAll(h, linked, init);
      assert Mirrored(g, linked - (set x | x in init), last);
      RelinkUndoesDel(g, last);
      RelinkAllUndoesDelAll(h, linked, init);
    }
  }
}
