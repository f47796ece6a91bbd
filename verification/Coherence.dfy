/** The local invariant of linked nodes, and why it means that they form rings. */
module Coherence {
  import opened Links
  import opened Rings

  /** The neighbours of `p` are linked nodes that point back to it. */
  ghost predicate Mirrored<P>(h: Heap<P>, linked: set<P>, p: P) {
    && p in h && h[p].next in h && h[p].prev in h
    && h[p].next in linked && h[h[p].next].prev == p
    && h[p].prev in linked && h[h[p].prev].next == p
  }

  ghost predicate Coherent<P>(h: Heap<P>, linked: set<P>) {
    && linked <= h.Keys
    && forall p {:trigger Mirrored(h, linked, p)} :: p in linked ==> Mirrored(h, linked, p)
  }

  /** A node that may be initialised or added: unlinked, or a list of its own without entries. */
  ghost predicate Addable<P>(h: Heap<P>, linked: set<P>, x: P) {
    x in h && (x in linked ==> h[x].next == x)
  }

  /** A stretch of `next` pointers through linked nodes. */
  ghost predicate IsPath<P>(h: Heap<P>, linked: set<P>, path: seq<P>) {
    && 0 < |path|
    && Distinct(path)
    && (forall i :: 0 <= i < |path| ==> path[i] in linked && path[i] in h)
    && (forall i :: 0 <= i < |path| - 1 ==> h[path[i]].next == path[i + 1])
  }

  /** Extends a path along `next` until it closes. It closes on its first node, since any other
      node of the path already has a predecessor, and it must close, since the heap is finite. */
  ghost function Close<P>(h: Heap<P>, linked: set<P>, path: seq<P>): (r: seq<P>)
    requires Coherent(h, linked) && IsPath(h, linked, path)
    ensures IsRing(h, r) && r[0] == path[0]
    ensures forall x :: x in r ==> x in linked
    decreases |linked| - |path|
  {
    DistinctFits(path, linked);
    var last := path[|path| - 1];
    assert Mirrored(h, linked, last);
    var following := h[last].next;
    if following == path[0] then
      ClosedIsRing(h, linked, path);
      path
    else
      NotRevisited(h, linked, path);
      DistinctFits(path + [following], linked);
      Close(h, linked, path + [following])
  }

  lemma NotRevisited<P>(h: Heap<P>, linked: set<P>, path: seq<P>)
    requires Coherent(h, linked) && IsPath(h, linked, path)
    requires h[path[|path| - 1]].next != path[0]
    ensures h[path[|path| - 1]].next !in path
  {
    var last := path[|path| - 1];
    forall i | 0 <= i < |path| ensures path[i] != h[last].next {
      assert Mirrored(h, linked, last);
      if 0 < i {
        assert h[path[i - 1]].next == path[i] && Mirrored(h, linked, path[i - 1]);
      }
    }
  }

  lemma ClosedIsRing<P>(h: Heap<P>, linked: set<P>, path: seq<P>)
    requires Coherent(h, linked) && IsPath(h, linked, path)
    requires h[path[|path| - 1]].next == path[0]
    ensures IsRing(h, path)
  {
    forall i | 0 <= i < |path|
      ensures h[path[i]].next == After(path, i) && h[After(path, i)].prev == path[i]
    {
      assert Mirrored(h, linked, path[i]);
    }
  }

  /** The ring through a linked node, read from that node. */
  ghost function RingOf<P>(h: Heap<P>, linked: set<P>, p: P): (r: seq<P>)
    requires Coherent(h, linked) && p in linked
    ensures IsRing(h, r) && r[0] == p
    ensures forall x :: x in r ==> x in linked
  {
    Close(h, linked, [p])
  }

  ghost predicate RingThrough<P>(h: Heap<P>, linked: set<P>, p: P, r: seq<P>) {
    IsRing(h, r) && r[0] == p && forall x :: x in r ==> x in linked
  }

  /** Mirrored neighbours everywhere is the same as: the linked nodes fall into rings. */
  lemma CoherentIffRings<P>(h: Heap<P>, linked: set<P>)
    requires linked <= h.Keys
    ensures Coherent(h, linked) <==> forall p :: p in linked ==> exists r :: RingThrough(h, linked, p, r)
  {
    if Coherent(h, linked) {
      forall p | p in linked ensures exists r :: RingThrough(h, linked, p, r) {
        assert RingThrough(h, linked, p, RingOf(h, linked, p));
      }
    }
    if forall p :: p in linked ==> exists r :: RingThrough(h, linked, p, r) {
      forall p | p in linked ensures Mirrored(h, linked, p) {
        var r :| RingThrough(h, linked, p, r);
        NeighboursInRing(h, r, p);
      }
    }
  }

  /** A node that is its own successor is alone on its ring. */
  lemma RingOfLonely<P>(h: Heap<P>, linked: set<P>, x: P, r: seq<P>)
    requires Coherent(h, linked) && x in linked && h[x].next == x && IsRing(h, r) && x in r
    ensures r == [x]
  {
    var i :| 0 <= i < |r| && r[i] == x;
    assert After(r, i) == x;
  }

  /** Initialising a node keeps all lists intact exactly when no other node points to it. */
  lemma InitKeepsCoherence<P>(h: Heap<P>, linked: set<P>, x: P)
    requires Coherent(h, linked) && x in h
    ensures Coherent(Init(h, x), linked + {x}) <==> Addable(h, linked, x)
  {
    var g, after := Init(h, x), linked + {x};
    assert x in linked ==> Mirrored(h, linked, x);
    if Addable(h, linked, x) {
      forall q | q in after ensures Mirrored(g, after, q) {
        assert q in linked ==> Mirrored(h, linked, q);
      }
    } else {
      assert !Mirrored(g, after, h[x].next);
    }
  }

  lemma SpliceKeepsMirrored<P>(h: Heap<P>, g: Heap<P>, linked: set<P>, x: P, p: P, n: P, q: P)
    requires x in h && Mirrored(h, linked, p) && Mirrored(h, linked, n) && h[p].next == n && p in linked
    requires x in linked ==> h[x].next == x && h[x].prev == x
    requires Spliced(h, g, x, p, n) && (q == x || Mirrored(h, linked, q))
    ensures Mirrored(g, linked + {x}, q)
  {
  }

  lemma SpliceBreaks<P>(h: Heap<P>, g: Heap<P>, linked: set<P>, x: P, p: P, n: P)
    requires Mirrored(h, linked, p) && Mirrored(h, linked, x) && h[p].next == n
    requires Spliced(h, g, x, p, n) && h[x].next != x
    ensures !Mirrored(g, linked + {x}, x) || !Mirrored(g, linked + {x}, h[x].next)
         || !Mirrored(g, linked + {x}, h[x].prev)
  {
  }

  lemma SpliceKeepsAll<P>(h: Heap<P>, g: Heap<P>, linked: set<P>, x: P, p: P, n: P)
    requires Coherent(h, linked) && x in h && p in linked && n in linked && h[p].next == n
    requires x in linked ==> h[x].next == x && h[x].prev == x
    requires Spliced(h, g, x, p, n)
    ensures Coherent(g, linked + {x})
  {
    assert Mirrored(h, linked, p) && Mirrored(h, linked, n);
    var after := linked + {x};
    assert after <= g.Keys;
    forall q | q in after ensures Mirrored(g, after, q) {
      if q != x {
        assert Mirrored(h, linked, q);
      }
      SpliceKeepsMirrored(h, g, linked, x, p, n, q);
    }
  }

  lemma SpliceKeepsCoherence<P>(h: Heap<P>, g: Heap<P>, linked: set<P>, x: P, p: P, n: P)
    requires Coherent(h, linked) && x in h && p in linked && Mirrored(h, linked, p) && h[p].next == n
    requires Spliced(h, g, x, p, n)
    ensures Coherent(g, linked + {x}) <==> Addable(h, linked, x)
  {
    assert x in linked ==> Mirrored(h, linked, x);
    if Addable(h, linked, x) {
      SpliceKeepsAll(h, g, linked, x, p, n);
    } else {
      SpliceBreaks(h, g, linked, x, p, n);
    }
  }

  /** `list_add` keeps all lists intact exactly when the added node is free to be added. */
  lemma ListAddKeepsCoherence<P>(h: Heap<P>, linked: set<P>, x: P, head: P)
    requires Coherent(h, linked) && x in h && head in linked
    ensures Mirrored(h, linked, head)
    ensures Coherent(ListAdd(h, x, head), linked + {x}) <==> Addable(h, linked, x)
  {
    assert Mirrored(h, linked, head);
    var n := h[head].next;
    AddSplices(h, x, head, n);
    SpliceKeepsCoherence(h, ListAdd(h, x, head), linked, x, head, n);
  }

  lemma ListAddTailKeepsCoherence<P>(h: Heap<P>, linked: set<P>, x: P, head: P)
    requires Coherent(h, linked) && x in h && head in linked
    ensures Mirrored(h, linked, head)
    ensures Coherent(ListAddTail(h, x, head), linked + {x}) <==> Addable(h, linked, x)
  {
    assert Mirrored(h, linked, head);
    var p := h[head].prev;
    assert Mirrored(h, linked, p);
    AddSplices(h, x, p, head);
    SpliceKeepsCoherence(h, ListAddTail(h, x, head), linked, x, p, head);
  }

  lemma BridgeKeepsCoherence<P>(h: Heap<P>, g: Heap<P>, linked: set<P>, entry: P)
    requires Coherent(h, linked) && entry in linked && Mirrored(h, linked, entry)
    requires Bridged(h, g, h[entry].prev, h[entry].next)
    ensures Coherent(g, linked - {entry})
  {
    var after := linked - {entry};
    forall q | q in after ensures Mirrored(g, after, q) {
      assert Mirrored(h, linked, q) && Mirrored(h, linked, h[entry].prev) && Mirrored(h, linked, h[entry].next);
    }
  }

  /** `__list_del_entry` of a linked node leaves all other linked nodes intact. */
  lemma DelKeepsCoherence<P>(h: Heap<P>, linked: set<P>, entry: P)
    requires Coherent(h, linked) && entry in linked
    ensures Mirrored(h, linked, entry)
    ensures Coherent(DelEntry(h, entry), linked - {entry})
  {
    assert Mirrored(h, linked, entry);
    DelBridges(h, entry);
    BridgeKeepsCoherence(h, DelEntry(h, entry), linked, entry);
  }

  /** `list_del`: poisoning the entry afterwards disturbs no linked node either. */
  lemma ListDelKeepsCoherence<P>(h: Heap<P>, linked: set<P>, entry: P, poison: Cell<P>)
    requires Coherent(h, linked) && entry in linked
    ensures Mirrored(h, linked, entry)
    ensures Coherent(ListDel(h, entry, poison), linked - {entry})
  {
    DelKeepsCoherence(h, linked, entry);
    var g, after := ListDel(h, entry, poison), linked - {entry};
    forall q | q in after ensures Mirrored(g, after, q) {
      assert Mirrored(DelEntry(h, entry), after, q);
    }
  }
}
