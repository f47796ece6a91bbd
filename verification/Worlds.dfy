/** Whole runs: any number of lists and unlinked nodes sharing one memory. */
module Worlds {
  import opened Links
  import opened Rings
  import opened Coherence
  import opened Lists
  import opened Powers

  /** A memory and the nodes that are in some list (list heads included). */
  datatype World<P> = World(heap: Heap<P>, linked: set<P>)

  datatype Op<P> =
    | InitHead(list: P)
    | AddFirst(added: P, head: P)
    | AddLast(added: P, head: P)
    | Delete(entry: P)

  ghost predicate Valid<P>(w: World<P>, poison: Cell<P>) {
    && Coherent(w.heap, w.linked)
    && poison.next !in w.heap
    && poison.prev !in w.heap
  }

  /** What the primitives ask of their callers. */
  ghost predicate Enabled<P>(w: World<P>, op: Op<P>) {
    match op
    case InitHead(x) => Addable(w.heap, w.linked, x)
    case AddFirst(x, head) => Addable(w.heap, w.linked, x) && head in w.linked
    case AddLast(x, head) => Addable(w.heap, w.linked, x) && head in w.linked
    case Delete(entry) => entry in w.linked
  }

  /** The worlds before and after an operation that need not be enabled. */
  ghost predicate Intact<P>(w: World<P>, op: Op<P>) {
    match op
    case InitHead(x) => x in w.heap && Coherent(Init(w.heap, x), w.linked + {x})
    case AddFirst(x, head) =>
      && x in w.heap && head in w.heap && w.heap[head].next in w.heap
      && Coherent(ListAdd(w.heap, x, head), w.linked + {x})
    case AddLast(x, head) =>
      && x in w.heap && head in w.heap && w.heap[head].prev in w.heap
      && Coherent(ListAddTail(w.heap, x, head), w.linked + {x})
    case Delete(entry) =>
      && entry in w.heap && w.heap[entry].next in w.heap && w.heap[entry].prev in w.heap
      && Coherent(DelEntry(w.heap, entry), w.linked - {entry})
  }

  /** Given linked heads and a linked entry to delete, the primitives ask for no more than what keeps all
      lists intact. */
  lemma EnabledExactly<P>(w: World<P>, op: Op<P>)
    requires Coherent(w.heap, w.linked)
    requires op.AddFirst? || op.AddLast? ==> op.head in w.linked
    requires op.Delete? ==> op.entry in w.linked
    ensures Enabled(w, op) <==> Intact(w, op)
  {
    match op
    case InitHead(x) =>
      if x in w.heap { InitKeepsCoherence(w.heap, w.linked, x); }
    case AddFirst(x, head) =>
      assert Mirrored(w.heap, w.linked, head);
      if x in w.heap { ListAddKeepsCoherence(w.heap, w.linked, x, head); }
    case AddLast(x, head) =>
      assert Mirrored(w.heap, w.linked, head);
      if x in w.heap { ListAddTailKeepsCoherence(w.heap, w.linked, x, head); }
    case Delete(entry) =>
      DelKeepsCoherence(w.heap, w.linked, entry);
  }

  ghost function Step<P>(w: World<P>, op: Op<P>, poison: Cell<P>): (v: World<P>)
    requires Valid(w, poison) && Enabled(w, op)
    ensures Valid(v, poison) && v.heap.Keys == w.heap.Keys
  {
    match op
    case InitHead(x) =>
      InitKeepsCoherence(w.heap, w.linked, x);
      World(Init(w.heap, x), w.linked + {x})
    case AddFirst(x, head) =>
      ListAddKeepsCoherence(w.heap, w.linked, x, head);
      World(ListAdd(w.heap, x, head), w.linked + {x})
    case AddLast(x, head) =>
      ListAddTailKeepsCoherence(w.heap, w.linked, x, head);
      World(ListAddTail(w.heap, x, head), w.linked + {x})
    case Delete(entry) =>
      ListDelKeepsCoherence(w.heap, w.linked, entry, poison);
      World(ListDel(w.heap, entry, poison), w.linked - {entry})
  }

  ghost predicate CanRun<P>(w: World<P>, ops: seq<Op<P>>, poison: Cell<P>)
    requires Valid(w, poison)
    decreases |ops|
  {
    ops == [] || (Enabled(w, ops[0]) && CanRun(Step(w, ops[0], poison), ops[1..], poison))
  }

  /** The world after a run. Whatever the run, the invariant holds and no node appears or vanishes. */
  ghost function Run<P>(w: World<P>, ops: seq<Op<P>>, poison: Cell<P>): (v: World<P>)
    requires Valid(w, poison) && CanRun(w, ops, poison)
    ensures Valid(v, poison) && v.heap.Keys == w.heap.Keys
    decreases |ops|
  {
    if ops == [] then w else Run(Step(w, ops[0], poison), ops[1..], poison)
  }

  /** The linked nodes after a run: each operation links or unlinks the node it is given. */
  function LinkedAfter<P(==)>(linked: set<P>, ops: seq<Op<P>>): set<P>
    decreases |ops|
  {
    if ops == [] then linked
    else LinkedAfter(match ops[0]
                     case InitHead(x) => linked + {x}
                     case AddFirst(x, _) => linked + {x}
                     case AddLast(x, _) => linked + {x}
                     case Delete(x) => linked - {x}, ops[1..])
  }

  lemma {:induction false} RunLinks<P>(w: World<P>, ops: seq<Op<P>>, poison: Cell<P>)
    requires Valid(w, poison) && CanRun(w, ops, poison)
    ensures Run(w, ops, poison).linked == LinkedAfter(w.linked, ops)
    decreases |ops|
  {
    if ops != [] {
      RunLinks(Step(w, ops[0], poison), ops[1..], poison);
    }
  }

  /** After any run every linked node is the neighbour of its neighbours and lies on a single cycle,
      two cycles are the same circle or disjoint, and none of them contains an unlinked node. */
  lemma RunKeepsLists<P>(w: World<P>, ops: seq<Op<P>>, poison: Cell<P>, p: P, q: P)
    requires Valid(w, poison) && CanRun(w, ops, poison)
    requires p in LinkedAfter(w.linked, ops) && q in LinkedAfter(w.linked, ops)
    ensures var h := Run(w, ops, poison).heap;
      && p in h && h[p].next in h && h[h[p].next].prev == p
      && h[p].prev in h && h[h[p].prev].next == p
    ensures var v := Run(w, ops, poison);
      p in v.linked && q in v.linked && var r, s := RingOf(v.heap, v.linked, p), RingOf(v.heap, v.linked, q);
      && (forall t :: IsRing(v.heap, t) && t[0] == p ==> t == r)
      && (forall x :: x in r ==> x in LinkedAfter(w.linked, ops))
      && ((forall x :: x in r ==> x !in s) || (exists k :: 0 <= k < |r| && Rotate(r, k) == s))
  {
    RunLinks(w, ops, poison);
    var v := Run(w, ops, poison);
    assert Mirrored(v.heap, v.linked, p);
    var r, s := RingOf(v.heap, v.linked, p), RingOf(v.heap, v.linked, q);
    forall t | IsRing(v.heap, t) && t[0] == p ensures t == r {
      RingUnique(v.heap, t, r);
    }
    if x :| x in r && x in s {
      RingsDisjointOrRotated(v.heap, r, s, x);
    }
  }

  /** One link followed, forwards or backwards. */
  datatype Move = Next | Prev

  /** Where a chain of links leads, or no node at all when it runs into a pointer that is none. */
  function Follow<P>(h: Heap<P>, p: P, moves: seq<Move>): P {
    if moves == [] || p !in h then p
    else Follow(h, if moves[0].Next? then h[p].next else h[p].prev, moves[1..])
  }

  /** How far a chain goes, when a move backwards takes back a move forwards. */
  function Net(moves: seq<Move>): int {
    if moves == [] then 0 else (if moves[0].Next? then 1 else -1) + Net(moves[1..])
  }

  /** Position `i`, counted around a circle of `n` places. */
  function Around(i: int, n: nat): (k: nat)
    requires 0 < n
    ensures k < n
  {
    i % n
  }

  lemma AroundNext(i: int, n: nat)
    requires 0 < n
    ensures Around(i + 1, n) == if Around(i, n) + 1 < n then Around(i, n) + 1 else 0
    ensures Around(i - 1, n) == if 0 < Around(i, n) then Around(i, n) - 1 else n - 1
  {
    var q, r := i / n, i % n;
    assert i == q * n + r;
    if r + 1 < n {
      DivModUnique(i + 1, n, q, r + 1);
    } else {
      assert (q + 1) * n == q * n + n;
      DivModUnique(i + 1, n, q + 1, 0);
    }
    if 0 < r {
      DivModUnique(i - 1, n, q, r - 1);
    } else {
      assert (q - 1) * n == q * n - n;
      DivModUnique(i - 1, n, q - 1, n - 1);
    }
  }

  lemma MoveOnRing<P>(h: Heap<P>, r: seq<P>, i: int, move: Move)
    requires IsRing(h, r)
    ensures var p := r[Around(i, |r|)];
      p in h && (if move.Next? then h[p].next else h[p].prev) == r[Around(if move.Next? then i + 1 else i - 1, |r|)]
  {
    AroundNext(i, |r|);
    var k, j := Around(i, |r|), Around(i - 1, |r|);
    assert h[r[k]].next == After(r, k);
    assert After(r, j) == r[k] && h[After(r, j)].prev == r[j];
  }

  /** A chain of links on a ring leads as far around it as it has moves forwards more than backwards. */
  lemma {:induction false} FollowOnRing<P>(h: Heap<P>, r: seq<P>, i: int, moves: seq<Move>)
    requires IsRing(h, r)
    ensures Follow(h, r[Around(i, |r|)], moves) == r[Around(i + Net(moves), |r|)]
    decreases |moves|
  {
    if moves != [] {
      var j := if moves[0].Next? then i + 1 else i - 1;
      MoveOnRing(h, r, i, moves[0]);
      FollowOnRing(h, r, j, moves[1..]);
      assert j + Net(moves[1..]) == i + Net(moves);
    }
  }

  lemma {:induction false} FollowStaysLinked<P>(h: Heap<P>, linked: set<P>, p: P, moves: seq<Move>)
    requires Coherent(h, linked) && p in linked
    ensures Follow(h, p, moves) in linked
  {
    assert Mirrored(h, linked, p);
    if moves != [] {
      FollowStaysLinked(h, linked, if moves[0].Next? then h[p].next else h[p].prev, moves[1..]);
    }
  }

  /** After any run, no chain of links from a linked node leads to a node that holds a poison value. */
  lemma NeverReachesPoison<P>(w: World<P>, ops: seq<Op<P>>, poison: Cell<P>, p: P, moves: seq<Move>)
    requires Valid(w, poison) && CanRun(w, ops, poison)
    requires p in LinkedAfter(w.linked, ops)
    ensures var h := Run(w, ops, poison).heap; var x := Follow(h, p, moves);
      x in h && h[x].next != poison.next && h[x].prev != poison.prev
  {
    RunLinks(w, ops, poison);
    var v := Run(w, ops, poison);
    FollowStaysLinked(v.heap, v.linked, p, moves);
    assert Mirrored(v.heap, v.linked, Follow(v.heap, p, moves));
  }

  lemma RemovedIsGone<P>(a: P, xs: seq<P>, i: nat)
    requires Distinct([a] + xs) && i < |xs|
    ensures xs[i] !in [a] + RemoveAt(xs, i)
    ensures forall x :: x in [a] + RemoveAt(xs, i) ==> x in [a] + xs
  {
    var r, s := [a] + xs, [a] + RemoveAt(xs, i);
    assert r[i + 1] == xs[i];
    forall j | 0 <= j < |s| ensures s[j] == r[if j <= i then j else j + 1] {
    }
  }

  lemma MoveRings<P>(h: Heap<P>, a: P, xs: seq<P>, i: nat, b: P, ys: seq<P>, poison: Cell<P>)
    requires IsRing(h, [a] + xs) && IsRing(h, [b] + ys) && i < |xs|
    requires forall x :: x in [a] + xs ==> x !in [b] + ys
    ensures xs[i] in h && h[xs[i]].prev in h && h[xs[i]].next in h
    ensures var g := ListDel(h, xs[i], poison);
      && b in g && g[b].prev in g && g[b].next in g
      && IsRing(ListAddTail(g, xs[i], b), [a] + RemoveAt(xs, i))
      && IsRing(ListAddTail(g, xs[i], b), [b] + (ys + [xs[i]]))
      && IsRing(ListAdd(g, xs[i], b), [a] + RemoveAt(xs, i))
      && IsRing(ListAdd(g, xs[i], b), [b] + ([xs[i]] + ys))
  {
    var e := xs[i];
    assert ([a] + xs)[i + 1] == e;
    NeighboursInRing(h, [a] + xs, e);
    var g, r, t := ListDel(h, e, poison), [a] + RemoveAt(xs, i), [b] + ys;
    assert IsRing(g, r) by { DelsAtHead(h, a, xs, i, poison); }
    assert IsRing(g, t) by { DelsElsewhere(h, t, e, poison); }
    assert b == t[0];
    AddsAtHead(g, b, ys, e);
    RemovedIsGone(a, xs, i);
    NeighboursInRing(g, t, b);
    AddsElsewhere(g, r, e, b);
  }

  lemma RunOne<P>(w: World<P>, a: Op<P>, poison: Cell<P>)
    requires Valid(w, poison) && Enabled(w, a)
    ensures CanRun(w, [a], poison) && Run(w, [a], poison) == Step(w, a, poison)
  {
    assert [a][1..] == [];
  }

  lemma RunTwo<P>(w: World<P>, a: Op<P>, b: Op<P>, poison: Cell<P>)
    requires Valid(w, poison) && Enabled(w, a) && Enabled(Step(w, a, poison), b)
    ensures CanRun(w, [a, b], poison)
    ensures Run(w, [a, b], poison) == Step(Step(w, a, poison), b, poison)
  {
    var u := Step(w, a, poison);
    assert [a, b][1..] == [b];
    RunOne(u, b, poison);
  }

  /** The entries of the list at the new place, at its beginning or at its end. */
  function Joined<P>(x: P, ys: seq<P>, first: bool): seq<P> {
    if first then [x] + ys else ys + [x]
  }

  lemma MoveMultiset<P>(xs: seq<P>, i: nat, ys: seq<P>, first: bool)
    requires i < |xs|
    ensures multiset(RemoveAt(xs, i)) + multiset(Joined(xs[i], ys, first)) == multiset(xs) + multiset(ys)
  {
    assert xs == xs[..i] + [xs[i]] + xs[i + 1..];
  }

  lemma MoveSteps<P>(w: World<P>, e: P, b: P, first: bool, poison: Cell<P>)
    requires Valid(w, poison) && e in w.linked && b in w.linked && e != b
    ensures var op := if first then AddFirst(e, b) else AddLast(e, b);
      && Enabled(Step(w, Delete(e), poison), op)
      && var g := ListDel(w.heap, e, poison);
         && b in g && g[b].next in g && g[b].prev in g
         && Step(Step(w, Delete(e), poison), op, poison) ==
            World(if first then ListAdd(g, e, b) else ListAddTail(g, e, b), w.linked)
  {
    var u := Step(w, Delete(e), poison);
    assert Mirrored(u.heap, u.linked, b);
    assert u.linked + {e} == w.linked;
  }

  /** Moving an entry by `list_del` and then `list_add` or `list_add_tail` onto another list: the one list
      loses exactly that entry, the other gains it at its beginning or its end, and the linked nodes are the
      same as before. */
  lemma MoveConserves<P>(w: World<P>, a: P, xs: seq<P>, i: nat, b: P, ys: seq<P>, first: bool, poison: Cell<P>)
    requires Valid(w, poison) && IsRing(w.heap, [a] + xs) && IsRing(w.heap, [b] + ys)
    requires b in w.linked && i < |xs| && xs[i] in w.linked
    requires forall x :: x in [a] + xs ==> x !in [b] + ys
    ensures var ops := [Delete(xs[i]), if first then AddFirst(xs[i], b) else AddLast(xs[i], b)];
      && CanRun(w, ops, poison)
      && var v := Run(w, ops, poison);
         && v.linked == w.linked
         && IsRing(v.heap, [a] + RemoveAt(xs, i))
         && IsRing(v.heap, [b] + Joined(xs[i], ys, first))
    ensures multiset(RemoveAt(xs, i)) + multiset(Joined(xs[i], ys, first)) == multiset(xs) + multiset(ys)
  {
    MoveRings(w.heap, a, xs, i, b, ys, poison);
    MoveMultiset(xs, i, ys, first);
    assert ([a] + xs)[i + 1] == xs[i] && ([b] + ys)[0] == b;
    MoveSteps(w, xs[i], b, first, poison);
    RunTwo(w, Delete(xs[i]), if first then AddFirst(xs[i], b) else AddLast(xs[i], b), poison);
  }

  function DeletedBy<P(==)>(deleted: set<P>, op: Op<P>): set<P> {
    match op
    case InitHead(x) => deleted - {x}
    case AddFirst(x, _) => deleted - {x}
    case AddLast(x, _) => deleted - {x}
    case Delete(x) => deleted + {x}
  }

  /** The nodes deleted and neither initialised nor added since. */
  function DeletedAfter<P(==)>(deleted: set<P>, ops: seq<Op<P>>): set<P>
    decreases |ops|
  {
    if ops == [] then deleted else DeletedAfter(DeletedBy(deleted, ops[0]), ops[1..])
  }

  /** Nodes that are unlinked and hold the poison values. */
  ghost predicate Poisoned<P>(w: World<P>, deleted: set<P>, poison: Cell<P>) {
    forall x :: x in deleted ==> x !in w.linked && x in w.heap && w.heap[x] == poison
  }

  /** No operation writes to a deleted node, unless it links it again: all it writes to are linked nodes. */
  lemma StepKeepsPoisoned<P>(w: World<P>, op: Op<P>, deleted: set<P>, poison: Cell<P>)
    requires Valid(w, poison) && Enabled(w, op) && Poisoned(w, deleted, poison)
    ensures Poisoned(Step(w, op, poison), DeletedBy(deleted, op), poison)
  {
    match op
    case InitHead(x) =>
    case AddFirst(x, head) =>
      assert Mirrored(w.heap, w.linked, head);
      AddSplices(w.heap, x, head, w.heap[head].next);
    case AddLast(x, head) =>
      assert Mirrored(w.heap, w.linked, head);
      AddSplices(w.heap, x, w.heap[head].prev, head);
    case Delete(x) =>
      assert Mirrored(w.heap, w.linked, x);
      DelBridges(w.heap, x);
  }

  lemma {:induction false} RunKeepsPoisoned<P>(w: World<P>, ops: seq<Op<P>>, deleted: set<P>, poison: Cell<P>)
    requires Valid(w, poison) && CanRun(w, ops, poison) && Poisoned(w, deleted, poison)
    ensures Poisoned(Run(w, ops, poison), DeletedAfter(deleted, ops), poison)
    decreases |ops|
  {
    if ops != [] {
      StepKeepsPoisoned(w, ops[0], deleted, poison);
      RunKeepsPoisoned(Step(w, ops[0], poison), ops[1..], DeletedBy(deleted, ops[0]), poison);
    }
  }

  /** After any run, every node that was deleted in it and neither initialised nor added since is unlinked
      and holds both poison values. So deleting it again, or using it as a head to add at, follows a pointer
      at which there is no node. */
  lemma DeletedStaysPoisoned<P>(w: World<P>, ops: seq<Op<P>>, poison: Cell<P>, x: P)
    requires Valid(w, poison) && CanRun(w, ops, poison) && x in DeletedAfter({}, ops)
    ensures var v := Run(w, ops, poison);
      && x !in v.linked && x in v.heap && v.heap[x] == poison
      && v.heap[x].next !in v.heap && v.heap[x].prev !in v.heap
  {
    RunKeepsPoisoned(w, ops, {}, poison);
  }
}
