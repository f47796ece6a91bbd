/** One list used as a stack, as a queue, or as both at once. */
module Histories {
  import opened Links
  import opened Rings
  import opened Lists

  /** `Push` is `list_add`, `Enqueue` is `list_add_tail`, and `Take` deletes `head->next` of a list that
      is not empty. */
  datatype Command<P> = Push(added: P) | Enqueue(added: P) | Take

  /** A memory and the entries taken so far, or the fault of following a bad pointer. */
  datatype Use<P> = Fault | Use(heap: Heap<P>, taken: seq<P>)

  function Perform<P>(h: Heap<P>, head: P, c: Command<P>, poison: Cell<P>): Use<P>
    requires head in h
  {
    match c
    case Push(x) =>
      if x in h && h[head].next in h then Use(ListAdd(h, x, head), []) else Fault
    case Enqueue(x) =>
      if x in h && h[head].prev in h then Use(ListAddTail(h, x, head), []) else Fault
    case Take =>
      var first := h[head].next;
      if first == head then Use(h, [])
      else if first in h && h[first].next in h && h[first].prev in h then
        Use(ListDel(h, first, poison), [first])
      else Fault
  }

  function PerformAll<P>(h: Heap<P>, head: P, cs: seq<Command<P>>, poison: Cell<P>): Use<P>
    requires head in h
    decreases |cs|
  {
    if cs == [] then Use(h, [])
    else
      match Perform(h, head, cs[0], poison)
      case Fault => Fault
      case Use(g, t) =>
        if head !in g then Fault
        else
          match PerformAll(g, head, cs[1..], poison)
          case Fault => Fault
          case Use(f, u) => Use(f, t + u)
  }

  /** The entries that remain and those taken, of a double-ended queue that is just a sequence. */
  function Model<P>(es: seq<P>, cs: seq<Command<P>>): (seq<P>, seq<P>)
    decreases |cs|
  {
    if cs == [] then (es, [])
    else
      match cs[0]
      case Push(x) => Model([x] + es, cs[1..])
      case Enqueue(x) => Model(es + [x], cs[1..])
      case Take =>
        if es == [] then Model([], cs[1..])
        else var (left, taken) := Model(es[1..], cs[1..]); (left, [es[0]] + taken)
  }

  /** Each added entry is a node that is not on the list when it is added. */
  ghost predicate Proper<P>(h: Heap<P>, head: P, es: seq<P>, cs: seq<Command<P>>)
    decreases |cs|
  {
    cs == [] ||
    match cs[0]
    case Push(x) => x in h && x != head && x !in es && Proper(h, head, [x] + es, cs[1..])
    case Enqueue(x) => x in h && x != head && x !in es && Proper(h, head, es + [x], cs[1..])
    case Take => Proper(h, head, if es == [] then [] else es[1..], cs[1..])
  }

  function Added<P>(cs: seq<Command<P>>): seq<P> {
    if cs == [] then [] else (if cs[0].Take? then [] else [cs[0].added]) + Added(cs[1..])
  }

  lemma RestDistinct<P>(x: P, s: seq<P>)
    requires Distinct([x] + s)
    ensures Distinct(s)
  {
    assert forall i :: 0 <= i < |s| ==> ([x] + s)[i + 1] == s[i];
  }

  /** Adding different new nodes is proper, in whatever order entries are taken in between. */
  lemma {:induction false} NewNodesAreProper<P>(h: Heap<P>, head: P, es: seq<P>, cs: seq<Command<P>>)
    requires Distinct(Added(cs)) && forall x :: x in Added(cs) ==> x in h && x != head && x !in es
    ensures Proper(h, head, es, cs)
    decreases |cs|
  {
    if cs != [] {
      var more := Added(cs[1..]);
      if cs[0].Take? {
        assert Added(cs) == more;
        NewNodesAreProper(h, head, if es == [] then [] else es[1..], cs[1..]);
      } else {
        var x := cs[0].added;
        assert Added(cs) == [x] + more;
        assert Added(cs)[0] == x && x in Added(cs);
        forall i | 0 <= i < |more| ensures more[i] in Added(cs) && more[i] != x {
          assert more[i] == Added(cs)[i + 1];
        }
        assert Distinct(more) by { RestDistinct(x, more); }
        NewNodesAreProper(h, head, if cs[0].Push? then [x] + es else es + [x], cs[1..]);
      }
    }
  }

  lemma {:induction false} ProperIgnoresFields<P>(h: Heap<P>, g: Heap<P>, head: P, es: seq<P>, cs: seq<Command<P>>)
    requires h.Keys == g.Keys && Proper(h, head, es, cs)
    ensures Proper(g, head, es, cs)
    decreases |cs|
  {
    if cs != [] {
      match cs[0]
      case Push(x) => ProperIgnoresFields(h, g, head, [x] + es, cs[1..]);
      case Enqueue(x) => ProperIgnoresFields(h, g, head, es + [x], cs[1..]);
      case Take => ProperIgnoresFields(h, g, head, if es == [] then [] else es[1..], cs[1..]);
    }
  }

  lemma PerformFollowsModel<P>(h: Heap<P>, head: P, es: seq<P>, c: Command<P>, poison: Cell<P>)
    requires IsRing(h, [head] + es) && head in h && Proper(h, head, es, [c])
    ensures var u := Perform(h, head, c, poison); var (left, taken) := Model(es, [c]);
      u.Use? && u.heap.Keys == h.Keys && u.taken == taken && IsRing(u.heap, [head] + left)
    ensures var u := Perform(h, head, c, poison);
      && (c.Take? && es != [] ==> es[0] in u.heap && u.heap[es[0]] == poison)
      && (forall q :: q in h && q !in [head] + es && q !in Added([c]) ==> u.heap[q] == h[q])
  {
    assert [c][1..] == [];
    var r := [head] + es;
    assert head in r;
    NeighboursInRing(h, r, head);
    match c {
      case Push(x) =>
        AddsAtHead(h, head, es, x);
        AddSplices(h, x, head, h[head].next);
      case Enqueue(x) =>
        AddsAtHead(h, head, es, x);
        AddSplices(h, x, h[head].prev, head);
      case Take =>
        assert h[r[0]].next == After(r, 0);
        if es != [] {
          DelsAtHead(h, head, es, 0, poison);
          assert RemoveAt(es, 0) == es[1..];
          NeighboursInRing(h, r, es[0]);
          DelBridges(h, es[0]);
        }
    }
  }

  lemma ModelOne<P>(es: seq<P>, c: Command<P>)
    ensures c.Push? ==> Model(es, [c]) == ([c.added] + es, [])
    ensures c.Enqueue? ==> Model(es, [c]) == (es + [c.added], [])
    ensures c.Take? ==> Model(es, [c]) == if es == [] then ([], []) else (es[1..], [es[0]])
  {
    var one := [c];
    assert one[1..] == [];
    var none: seq<P> := [];
    if c.Take? && es != [] {
      assert Model(es[1..], one[1..]) == (es[1..], none);
      assert [es[0]] + none == [es[0]];
      assert Model(es, one) == (es[1..], [es[0]] + none);
    }
  }

  lemma ModelStep<P>(es: seq<P>, cs: seq<Command<P>>)
    requires cs != []
    ensures var (left, taken) := Model(es, [cs[0]]);
      Model(es, cs) == (Model(left, cs[1..]).0, taken + Model(left, cs[1..]).1)
  {
    ModelOne(es, cs[0]);
    var left := Model(es, [cs[0]]).0;
    assert [] + Model(left, cs[1..]).1 == Model(left, cs[1..]).1;
  }

  lemma ProperStep<P>(h: Heap<P>, head: P, es: seq<P>, cs: seq<Command<P>>)
    requires cs != [] && Proper(h, head, es, cs)
    ensures Proper(h, head, es, [cs[0]]) && Proper(h, head, Model(es, [cs[0]]).0, cs[1..])
  {
    assert [cs[0]][1..] == [];
  }

  lemma OneConserves<P>(es: seq<P>, c: Command<P>)
    ensures multiset(Model(es, [c]).0) + multiset(Model(es, [c]).1) == multiset(es) + multiset(Added([c]))
  {
    ModelOne(es, c);
    assert [c][1..] == [];
    if c.Take? && es != [] {
      assert es == [es[0]] + es[1..];
    }
  }

  lemma RegroupMultisets<P>(es: multiset<P>, one: multiset<P>, more: multiset<P>,
                            left: multiset<P>, taken: multiset<P>, left': multiset<P>, taken': multiset<P>)
    requires left + taken == es + one && left' + taken' == left + more
    ensures left' + (taken + taken') == es + (one + more)
  {
    assert left' + (taken + taken') == (left' + taken') + taken == (left + taken) + more;
  }

  /** Entries neither appear nor vanish: what is left and what was taken is what was there and what was
      added, each as many times. */
  lemma {:induction false} ModelConserves<P>(es: seq<P>, cs: seq<Command<P>>)
    ensures multiset(Model(es, cs).0) + multiset(Model(es, cs).1) == multiset(es) + multiset(Added(cs))
    decreases |cs|
  {
    if cs != [] {
      var (left, taken) := Model(es, [cs[0]]);
      ModelStep(es, cs);
      OneConserves(es, cs[0]);
      ModelConserves(left, cs[1..]);
      AddedStep(cs);
      var (left', taken') := Model(left, cs[1..]);
      assert multiset(taken + taken') == multiset(taken) + multiset(taken');
      RegroupMultisets(multiset(es), multiset(Added([cs[0]])), multiset(Added(cs[1..])),
                       multiset(left), multiset(taken), multiset(left'), multiset(taken'));
    }
  }

  lemma AddedStep<P>(cs: seq<Command<P>>)
    requires cs != []
    ensures Added([cs[0]]) == if cs[0].Take? then [] else [cs[0].added]
    ensures Added(cs) == Added([cs[0]]) + Added(cs[1..])
  {
    assert [cs[0]][1..] == [];
  }

  /** What an entry that was there or was added has become. */
  lemma LeftOrTaken<P>(es: seq<P>, cs: seq<Command<P>>, x: P)
    ensures x in es || x in Added(cs) <==> x in Model(es, cs).0 || x in Model(es, cs).1
  {
    ModelConserves(es, cs);
    var before, after := multiset(es) + multiset(Added(cs)), multiset(Model(es, cs).0) + multiset(Model(es, cs).1);
    assert x in before <==> x in after;
  }

  /** The nodes off the list: those taken hold the poison values, and all others are as they were. */
  ghost predicate OffTheList<P>(h: Heap<P>, g: Heap<P>, left: seq<P>, taken: seq<P>, known: set<P>, poison: Cell<P>) {
    && g.Keys == h.Keys
    && (forall q :: q in taken && q !in left ==> q in g && g[q] == poison)
    && (forall q :: q in h && q !in known ==> g[q] == h[q])
  }

  /** The nodes that a use of the list may write to: the head, the entries, and what is added. */
  function Involved<P(==)>(head: P, es: seq<P>, cs: seq<Command<P>>): set<P> {
    {head} + (set x | x in es) + (set x | x in Added(cs))
  }

  lemma PoisonStays<P>(g: Heap<P>, f: Heap<P>, head: P, left: seq<P>, cs: seq<Command<P>>, poison: Cell<P>, q: P)
    requires var (left', taken') := Model(left, cs);
      && OffTheList(g, f, left', taken', Involved(head, left, cs), poison)
      && q !in left' && q !in left && q != head
    requires q in g && g[q] == poison
    ensures q in f && f[q] == poison
  {
    LeftOrTaken(left, cs, q);
    if q in Added(cs) {
      assert q in Model(left, cs).1;
    } else {
      assert q !in Involved(head, left, cs);
    }
  }

  lemma InvolvedStep<P>(head: P, es: seq<P>, cs: seq<Command<P>>)
    requires cs != []
    ensures Involved(head, es, [cs[0]]) <= Involved(head, es, cs)
    ensures Involved(head, Model(es, [cs[0]]).0, cs[1..]) <= Involved(head, es, cs)
  {
    AddedStep(cs);
    ModelOne(es, cs[0]);
  }

  lemma OffTheListNext<P>(h: Heap<P>, g: Heap<P>, f: Heap<P>, head: P, es: seq<P>, cs: seq<Command<P>>, poison: Cell<P>)
    requires cs != [] && Distinct([head] + es)
    requires var (left, taken) := Model(es, [cs[0]]); var (left', taken') := Model(left, cs[1..]);
      && OffTheList(h, g, left, taken, Involved(head, es, [cs[0]]), poison)
      && OffTheList(g, f, left', taken', Involved(head, left, cs[1..]), poison)
    ensures OffTheList(h, f, Model(es, cs).0, Model(es, cs).1, Involved(head, es, cs), poison)
  {
    ModelStep(es, cs);
    InvolvedStep(head, es, cs);
    var (left, taken) := Model(es, [cs[0]]);
    var (left', taken') := Model(left, cs[1..]);
    forall q | q in taken && q !in left' ensures q in f && f[q] == poison {
      TakenIsGone(head, es, cs[0], q);
      PoisonStays(g, f, head, left, cs[1..], poison, q);
    }
  }

  lemma TakenIsGone<P>(head: P, es: seq<P>, c: Command<P>, q: P)
    requires Distinct([head] + es) && q in Model(es, [c]).1
    ensures q != head && q !in Model(es, [c]).0
  {
    ModelOne(es, c);
    var r := [head] + es;
    assert r[0] == head && forall i :: 0 <= i < |es| ==> r[i + 1] == es[i];
  }

  /** Any mixed use of a list does to the sequence of its entries what the model does. Off the list, an entry
      that was taken and is not on it again holds the poison values, and no other node has changed. */
  lemma {:induction false} UseFollowsModel<P>(h: Heap<P>, head: P, es: seq<P>, cs: seq<Command<P>>, poison: Cell<P>)
    requires IsRing(h, [head] + es) && head in h && Proper(h, head, es, cs)
    ensures var u := PerformAll(h, head, cs, poison); var (left, taken) := Model(es, cs);
      && u.Use? && u.heap.Keys == h.Keys && u.taken == taken && IsRing(u.heap, [head] + left)
      && OffTheList(h, u.heap, left, taken, Involved(head, es, cs), poison)
    decreases |cs|
  {
    if cs != [] {
      ProperStep(h, head, es, cs);
      PerformFollowsModel(h, head, es, cs[0], poison);
      ModelStep(es, cs);
      var g := Perform(h, head, cs[0], poison).heap;
      var left := Model(es, [cs[0]]).0;
      ProperIgnoresFields(h, g, head, left, cs[1..]);
      UseFollowsModel(g, head, left, cs[1..], poison);
      OffTheListNext(h, g, PerformAll(g, head, cs[1..], poison).heap, head, es, cs, poison);
    }
  }

  /** So the whole memory after a use is known: the head and the entries left form the ring, the entries taken
      and not there again are poisoned, and no other node has changed. */
  lemma EveryNodeAfterUse<P>(h: Heap<P>, head: P, es: seq<P>, cs: seq<Command<P>>, poison: Cell<P>, q: P)
    requires IsRing(h, [head] + es) && head in h && Proper(h, head, es, cs) && q in h
    ensures var u := PerformAll(h, head, cs, poison); var left := Model(es, cs).0;
      && u.Use? && q in u.heap && IsRing(u.heap, [head] + left)
      && (q == head || q in left || u.heap[q] == if q in u.taken then poison else h[q])
  {
    UseFollowsModel(h, head, es, cs, poison);
    LeftOrTaken(es, cs, q);
  }

  ghost predicate QueueLaw<P>(es: seq<P>, cs: seq<Command<P>>) {
    Model(es, cs).1 + Model(es, cs).0 == es + Added(cs)
  }

  lemma EnqueueLaw<P>(es: seq<P>, cs: seq<Command<P>>)
    requires cs != [] && cs[0].Enqueue? && QueueLaw(es + [cs[0].added], cs[1..])
    ensures QueueLaw(es, cs)
  {
    var x := cs[0].added;
    assert (es + [x]) + Added(cs[1..]) == es + ([x] + Added(cs[1..]));
  }

  lemma TakeLaw<P>(es: seq<P>, cs: seq<Command<P>>)
    requires cs != [] && cs[0].Take? && QueueLaw(if es == [] then [] else es[1..], cs[1..])
    ensures QueueLaw(es, cs)
  {
    if es != [] {
      FirstThenRest(es, Model(es[1..], cs[1..]).1, Model(es[1..], cs[1..]).0, Added(cs[1..]));
    }
  }

  lemma {:induction false} ModelIsQueue<P>(es: seq<P>, cs: seq<Command<P>>)
    requires forall i :: 0 <= i < |cs| ==> !cs[i].Push?
    ensures QueueLaw(es, cs)
    decreases |cs|
  {
    if cs != [] {
      if cs[0].Enqueue? {
        ModelIsQueue(es + [cs[0].added], cs[1..]);
        EnqueueLaw(es, cs);
      } else {
        ModelIsQueue(if es == [] then [] else es[1..], cs[1..]);
        TakeLaw(es, cs);
      }
    }
  }

  lemma FirstThenRest<P>(es: seq<P>, taken: seq<P>, left: seq<P>, added: seq<P>)
    requires es != [] && taken + left == es[1..] + added
    ensures ([es[0]] + taken) + left == es + added
  {
    assert ([es[0]] + taken) + left == [es[0]] + (taken + left);
    assert [es[0]] + (es[1..] + added) == es + added;
  }

  /** Adding at the tail and taking at the head: what was taken, followed by what is left, is what was
      added, in order. So the entries leave in the order in which they came. */
  lemma QueueHistory<P>(h: Heap<P>, head: P, es: seq<P>, cs: seq<Command<P>>, poison: Cell<P>)
    returns (left: seq<P>)
    requires IsRing(h, [head] + es) && head in h && Proper(h, head, es, cs)
    requires forall i :: 0 <= i < |cs| ==> !cs[i].Push?
    ensures var u := PerformAll(h, head, cs, poison);
      && u.Use? && IsRing(u.heap, [head] + left) && u.taken + left == es + Added(cs)
      && OffTheList(h, u.heap, left, u.taken, Involved(head, es, cs), poison)
  {
    UseFollowsModel(h, head, es, cs, poison);
    ModelIsQueue(es, cs);
    left := Model(es, cs).0;
  }

  /** Runs of pushes and takes that take back exactly what they push. */
  ghost predicate Balanced<P>(cs: seq<Command<P>>, depth: nat)
    decreases |cs|
  {
    if cs == [] then depth == 0
    else match cs[0]
         case Push(_) => Balanced(cs[1..], depth + 1)
         case Enqueue(_) => false
         case Take => 0 < depth && Balanced(cs[1..], depth - 1)
  }

  /** A balanced run takes some entries `t`, and hands the entries below the top on to `rest` unchanged. */
  lemma {:induction false} BalancedRestores<P>(top: seq<P>, es: seq<P>, cs: seq<Command<P>>, rest: seq<Command<P>>)
    returns (t: seq<P>)
    requires Balanced(cs, |top|)
    ensures Model(top + es, cs + rest) == (Model(es, rest).0, t + Model(es, rest).1)
    decreases |cs|
  {
    if cs == [] {
      assert cs + rest == rest && top + es == es;
      t := [];
      assert t + Model(es, rest).1 == Model(es, rest).1;
    } else {
      assert (cs + rest)[1..] == cs[1..] + rest;
      match cs[0]
      case Push(x) =>
        assert [x] + (top + es) == ([x] + top) + es;
        t := BalancedRestores([x] + top, es, cs[1..], rest);
      case Take =>
        assert (top + es)[1..] == top[1..] + es;
        t := BalancedRestores(top[1..], es, cs[1..], rest);
        assert [top[0]] + (t + Model(es, rest).1) == ([top[0]] + t) + Model(es, rest).1;
        t := [top[0]] + t;
    }
  }

  /** Adding and taking at the head: a take that closes a balanced run after a push takes exactly the
      entry pushed, and the list is what it was before the push. */
  lemma StackHistory<P>(h: Heap<P>, head: P, es: seq<P>, x: P, cs: seq<Command<P>>, poison: Cell<P>)
    requires IsRing(h, [head] + es) && head in h && Balanced(cs, 0)
    requires Proper(h, head, es, [Push(x)] + cs + [Take])
    ensures var u := PerformAll(h, head, [Push(x)] + cs + [Take], poison);
      && u.Use? && IsRing(u.heap, [head] + es) && u.taken != [] && u.taken[|u.taken| - 1] == x
      && x in u.heap && u.heap[x] == poison
  {
    var all := [Push(x)] + cs + [Take];
    UseFollowsModel(h, head, es, all, poison);
    assert all[1..] == cs + [Take];
    var t := BalancedRestores([], [x] + es, cs, [Take]);
    assert [] + ([x] + es) == [x] + es;
    var take: seq<Command<P>> := [Take];
    assert take[1..] == [];
    assert ([x] + es)[1..] == es;
    assert Model(es, take[1..]) == (es, []);
    assert Model([x] + es, take).1 == [x] + Model(es, take[1..]).1 == [x];
  }

  function Takes<P>(n: nat): seq<Command<P>> {
    seq(n, _ => Take)
  }

  lemma {:induction false} ModelTakes<P>(es: seq<P>, n: nat)
    requires n <= |es|
    ensures Model(es, Takes(n)) == (es[n..], es[..n])
  {
    if 0 < n {
      assert Takes<P>(n)[1..] == Takes(n - 1) && Takes<P>(n)[0] == Take;
      ModelTakes(es[1..], n - 1);
      assert es[..n] == [es[0]] + es[1..][..n - 1];
    }
  }

  lemma {:induction false} TakesAreProper<P>(h: Heap<P>, head: P, es: seq<P>, n: nat)
    ensures Proper(h, head, es, Takes(n))
    decreases n
  {
    if 0 < n {
      assert Takes<P>(n)[1..] == Takes(n - 1);
      TakesAreProper(h, head, if es == [] then [] else es[1..], n - 1);
    }
  }

  lemma {:induction false} TakesAddNothing<P>(n: nat)
    ensures Added(Takes<P>(n)) == []
  {
    if 0 < n {
      assert Takes<P>(n)[1..] == Takes(n - 1) && Takes<P>(n)[0] == Take;
      TakesAddNothing<P>(n - 1);
    }
  }

  lemma EmptyWhenDone<P>(h: Heap<P>, head: P, es: seq<P>)
    requires IsRing(h, [head] + es)
    ensures head in h && (h[head].next == head <==> es == [])
    ensures es == [] ==> h[head] == Cell(head, head)
  {
    var r := [head] + es;
    assert r[0] == head && h[r[0]].next == After(r, 0);
    if es == [] {
      assert h[After(r, 0)].prev == r[0];
    } else {
      assert r[1] != r[0];
    }
  }

  lemma TakesFollowModel<P>(h: Heap<P>, head: P, es: seq<P>, n: nat, poison: Cell<P>)
    requires IsRing(h, [head] + es) && head in h && n <= |es|
    ensures var u := PerformAll(h, head, Takes(n), poison);
      && u.Use? && u.taken == es[..n] && IsRing(u.heap, [head] + es[n..])
      && OffTheList(h, u.heap, es[n..], es[..n], Involved(head, es, []), poison)
  {
    TakesAreProper(h, head, es, n);
    UseFollowsModel(h, head, es, Takes(n), poison);
    ModelTakes(es, n);
    TakesAddNothing<P>(n);
  }

  lemma TakenNotLeft<P>(head: P, es: seq<P>, n: nat, i: nat)
    requires Distinct([head] + es) && i < n <= |es|
    ensures es[i] in es[..n] && es[i] !in es[n..]
  {
    assert es[..n][i] == es[i];
    assert forall j :: 0 <= j < |es| ==> ([head] + es)[j + 1] == es[j];
  }

  /** Deleting `head->next` while it differs from the head ends after exactly as many deletions as the
      list has entries, has then deleted and poisoned each of them in order, and leaves the head as
      `INIT_LIST_HEAD` would, and every other node as it was. */
  lemma DrainsInAsManySteps<P>(h: Heap<P>, head: P, es: seq<P>, n: nat, poison: Cell<P>)
    requires IsRing(h, [head] + es) && head in h && n <= |es|
    ensures var u := PerformAll(h, head, Takes(n), poison);
      && u.Use? && head in u.heap && u.taken == es[..n]
      && (u.heap[head].next == head <==> n == |es|)
      && (n == |es| ==> u.heap[head] == Init(h, head)[head])
      && (forall i :: 0 <= i < n ==> es[i] in u.heap && u.heap[es[i]] == poison)
      && (forall q :: q in h && q !in [head] + es ==> q in u.heap && u.heap[q] == h[q])
  {
    TakesFollowModel(h, head, es, n, poison);
    var u := PerformAll(h, head, Takes(n), poison);
    EmptyWhenDone(u.heap, head, es[n..]);
    forall i | 0 <= i < n ensures es[i] in es[..n] && es[i] !in es[n..] {
      TakenNotLeft(head, es, n, i);
    }
  }
}
