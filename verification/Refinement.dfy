/** Runs on linked memory refine runs on plain sequences.

    The abstract state gives for every linked node the circle read from that node; the abstract
    operations only insert into sequences and remove from them. */
module Refinement {
  import opened Links
  import opened Rings
  import opened Coherence
  import opened Lists
  import opened Worlds

  type Circles<P(==)> = map<P, seq<P>>

  function PutAfter<P(==)>(r: seq<P>, m: P, x: P): seq<P> {
    if m in r then InsertAfter(r, IndexOf(r, m), x) else r
  }

  /** Before the first element of a circle is the end of it. */
  function PutBefore<P(==)>(r: seq<P>, m: P, x: P): seq<P> {
    if m !in r then r
    else if r[0] == m then r + [x]
    else InsertBefore(r, IndexOf(r, m), x)
  }

  function TakeOut<P(==)>(r: seq<P>, x: P): seq<P> {
    if x in r then RemoveAt(r, IndexOf(r, x)) else r
  }

  /** The operations on sequences. */
  function AbstractStep<P(==)>(c: Circles<P>, op: Op<P>): Circles<P> {
    match op
    case InitHead(x) => c[x := [x]]
    case AddFirst(x, head) =>
      if x == head || head !in c || c[head] == [] then
        c
      else
        map q | q in c.Keys + {x} :: if q == x then [x] + c[head][1..] + [head] else PutAfter(c[q], head, x)
    case AddLast(x, head) =>
      if x == head || head !in c then
        c
      else
        map q | q in c.Keys + {x} :: if q == x then [x] + c[head] else PutBefore(c[q], head, x)
    case Delete(entry) =>
      map q | q in c && q != entry :: TakeOut(c[q], entry)
  }

  function AbstractRun<P(==)>(c: Circles<P>, ops: seq<Op<P>>): Circles<P>
    decreases |ops|
  {
    if ops == [] then c else AbstractRun(AbstractStep(c, ops[0]), ops[1..])
  }

  /** The circles in a memory. */
  ghost function View<P>(h: Heap<P>, linked: set<P>): (c: Circles<P>)
    requires Coherent(h, linked)
    ensures c.Keys == linked
  {
    map p | p in linked :: RingOf(h, linked, p)
  }

  lemma ViewIs<P>(h: Heap<P>, linked: set<P>, c: Circles<P>)
    requires Coherent(h, linked) && c.Keys == linked
    requires forall q :: q in c ==> IsRing(h, c[q]) && c[q][0] == q
    ensures View(h, linked) == c
  {
    forall q | q in linked ensures RingOf(h, linked, q) == c[q] {
      RingUnique(h, RingOf(h, linked, q), c[q]);
    }
  }

  lemma InitRefines<P>(h: Heap<P>, linked: set<P>, x: P)
    requires Coherent(h, linked) && Addable(h, linked, x)
    ensures Coherent(Init(h, x), linked + {x})
    ensures View(Init(h, x), linked + {x}) == AbstractStep(View(h, linked), InitHead(x))
  {
    InitKeepsCoherence(h, linked, x);
    var g, c := Init(h, x), View(h, linked)[x := [x]];
    forall q | q in c ensures IsRing(g, c[q]) && c[q][0] == q {
      if q != x {
        if x in c[q] { RingOfLonely(h, linked, x, c[q]); }
        PoisonElsewhere(h, c[q], x, Cell(x, x));
      }
    }
    ViewIs(g, linked + {x}, c);
  }

  /** `list_add` of a node to the empty list that the node itself heads changes nothing. */
  lemma AddToItself<P>(h: Heap<P>, linked: set<P>, x: P)
    requires Coherent(h, linked) && Addable(h, linked, x) && x in linked
    ensures Mirrored(h, linked, x)
    ensures ListAdd(h, x, x) == h && ListAddTail(h, x, x) == h
  {
    assert Mirrored(h, linked, x);
  }

  lemma AddFirstOnCircle<P>(h: Heap<P>, linked: set<P>, x: P, head: P, r: seq<P>)
    requires Coherent(h, linked) && x in h && head in linked && IsRing(h, r) && x !in r && x != head
    ensures Mirrored(h, linked, head)
    ensures IsRing(ListAdd(h, x, head), PutAfter(r, head, x))
    ensures r[0] == head ==> IsRing(ListAdd(h, x, head), [x] + r[1..] + [head])
  {
    assert Mirrored(h, linked, head);
    if head !in r {
      AddsElsewhere(h, r, x, head);
    } else {
      ListAddInserts(h, r, IndexOf(r, head), x);
      if r[0] == head {
        var s := InsertAfter(r, 0, x);
        RotateIsRing(ListAdd(h, x, head), s, 1);
        assert Rotate(s, 1) == [x] + r[1..] + [head];
      }
    }
  }

  lemma AddFirstRefines<P>(h: Heap<P>, linked: set<P>, x: P, head: P)
    requires Coherent(h, linked) && Addable(h, linked, x) && head in linked
    ensures Mirrored(h, linked, head) && Coherent(ListAdd(h, x, head), linked + {x})
    ensures View(ListAdd(h, x, head), linked + {x}) == AbstractStep(View(h, linked), AddFirst(x, head))
  {
    ListAddKeepsCoherence(h, linked, x, head);
    var g, c := ListAdd(h, x, head), View(h, linked);
    if x == head {
      AddToItself(h, linked, x);
      assert linked + {x} == linked;
    } else {
      var d := AbstractStep(c, AddFirst(x, head));
      forall q | q in d ensures IsRing(g, d[q]) && d[q][0] == q {
        var r := c[if q == x then head else q];
        if x in r { RingOfLonely(h, linked, x, r); }
        AddFirstOnCircle(h, linked, x, head, r);
      }
      ViewIs(g, linked + {x}, d);
    }
  }

  lemma AddLastOnCircle<P>(h: Heap<P>, linked: set<P>, x: P, head: P, r: seq<P>)
    requires Coherent(h, linked) && x in h && head in linked && IsRing(h, r) && x !in r && x != head
    ensures Mirrored(h, linked, head)
    ensures IsRing(ListAddTail(h, x, head), PutBefore(r, head, x))
    ensures r[0] == head ==> IsRing(ListAddTail(h, x, head), [x] + r)
  {
    assert Mirrored(h, linked, head);
    if head !in r {
      AddsElsewhere(h, r, x, head);
    } else {
      ListAddTailInserts(h, r, IndexOf(r, head), x);
      if r[0] == head {
        assert InsertBefore(r, 0, x) == [x] + r;
        RotateIsRing(ListAddTail(h, x, head), [x] + r, 1);
        assert Rotate([x] + r, 1) == r + [x];
      }
    }
  }

  lemma AddLastRefines<P>(h: Heap<P>, linked: set<P>, x: P, head: P)
    requires Coherent(h, linked) && Addable(h, linked, x) && head in linked
    ensures Mirrored(h, linked, head) && Coherent(ListAddTail(h, x, head), linked + {x})
    ensures View(ListAddTail(h, x, head), linked + {x}) == AbstractStep(View(h, linked), AddLast(x, head))
  {
    ListAddTailKeepsCoherence(h, linked, x, head);
    var g, c := ListAddTail(h, x, head), View(h, linked);
    if x == head {
      AddToItself(h, linked, x);
      assert linked + {x} == linked;
    } else {
      var d := AbstractStep(c, AddLast(x, head));
      forall q | q in d ensures IsRing(g, d[q]) && d[q][0] == q {
        var r := c[if q == x then head else q];
        if x in r { RingOfLonely(h, linked, x, r); }
        AddLastOnCircle(h, linked, x, head, r);
      }
      ViewIs(g, linked + {x}, d);
    }
  }

  lemma DeleteRefines<P>(h: Heap<P>, linked: set<P>, entry: P, poison: Cell<P>)
    requires Coherent(h, linked) && entry in linked
    ensures Mirrored(h, linked, entry) && Coherent(ListDel(h, entry, poison), linked - {entry})
    ensures View(ListDel(h, entry, poison), linked - {entry}) == AbstractStep(View(h, linked), Delete(entry))
  {
    ListDelKeepsCoherence(h, linked, entry, poison);
    var g, c := ListDel(h, entry, poison), View(h, linked);
    var d := AbstractStep(c, Delete(entry));
    forall q | q in d ensures IsRing(g, d[q]) && d[q][0] == q {
      var r := c[q];
      if entry in r {
        ListDelRemoves(h, r, IndexOf(r, entry), poison);
      } else {
        DelsElsewhere(h, r, entry, poison);
      }
    }
    ViewIs(g, linked - {entry}, d);
  }

  /** Every run in linked memory is the run of the same operations on sequences. */
  lemma {:induction false} RunRefines<P>(w: World<P>, ops: seq<Op<P>>, poison: Cell<P>)
    requires Worlds.Valid(w, poison) && CanRun(w, ops, poison)
    ensures var v := Run(w, ops, poison);
      View(v.heap, v.linked) == AbstractRun(View(w.heap, w.linked), ops)
    decreases |ops|
  {
    if ops != [] {
      match ops[0] {
        case InitHead(x) => InitRefines(w.heap, w.linked, x);
        case AddFirst(x, head) => AddFirstRefines(w.heap, w.linked, x, head);
        case AddLast(x, head) => AddLastRefines(w.heap, w.linked, x, head);
        case Delete(entry) => DeleteRefines(w.heap, w.linked, entry, poison);
      }
      RunRefines(Step(w, ops[0], poison), ops[1..], poison);
    }
  }
}
