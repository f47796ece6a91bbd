/** A reader that follows `next` from a list head while one writer adds and deletes entries.

    Each store of `__list_add` and `__list_del` is a step of its own, stores take effect in program order,
    and the reader may follow one link between any two steps. The writer works on any lists of the memory.
    It deletes with `__list_del_entry` and adds no node that was on the traversed list since the traversal
    began; it does not delete the head of that list. */
module Readers {
  import opened Links
  import opened Rings
  import opened Coherence

  /** Where the writer is: between operations, or after some stores of one. */
  datatype Writer<P> =
    | Idle
    | Adding(added: P, prev: P, next: P, stores: nat)
    | Deleting(entry: P, prev: P, next: P, stores: nat)

  /** The memory, its linked nodes, the writer, and the memory in which the writer's operation began. */
  datatype Shared<P> = Shared(heap: Heap<P>, linked: set<P>, writer: Writer<P>, base: Heap<P>)

  /** A rank for every node that was on the traversed list since the traversal began. The reader does not
      use it: it says which nodes may be added, and where among the entries a deleted node belongs. */
  datatype Ranking<P> = Ranking(head: P, rank: map<P, real>, end: real) {
    /** The rank of a link's target, where the head stands for the end of the list. */
    function Key(y: P): real
      requires y in rank
    {
      if y == head then end else rank[y]
    }
  }

  /** A traversal: the node the reader stands on, the entries it has visited, and whether it is back at
      the head. */
  datatype Traversal<P> = Traversal(at: P, visited: seq<P>, back: bool)

  datatype State<P> = State(m: Shared<P>, t: Traversal<P>, o: Ranking<P>)

  datatype Event<P> =
    | BeginAdd(added: P, head: P)
    | BeginAddTail(added: P, head: P)
    | BeginDel(entry: P)
    | Store
    | Read

  /** The writer is where it says it is: some stores into an operation on coherent lists. */
  ghost predicate Consistent<P>(m: Shared<P>) {
    && Coherent(m.base, m.linked)
    && match m.writer
       case Idle => m.heap == m.base
       case Adding(x, p, n, k) =>
         && Addable(m.base, m.linked, x) && x != p && x != n
         && p in m.linked && Mirrored(m.base, m.linked, p) && m.base[p].next == n
         && k < ADD_STORES && m.heap == AddStores(m.base, x, p, n, k)
       case Deleting(e, p, n, k) =>
         && e in m.linked && Mirrored(m.base, m.linked, e) && p == m.base[e].prev && n == m.base[e].next
         && k < DEL_STORES && m.heap == DelStores(m.base, p, n, k)
  }

  /** An entry of the list as it was when the traversal began that is still linked. */
  ghost predicate Kept<P>(linked: set<P>, es: seq<P>, k: P) {
    k in es && k in linked
  }

  ghost predicate Ranked<P>(o: Ranking<P>, es: seq<P>) {
    && o.head in o.rank && o.rank[o.head] == -1.0 && o.head !in es
    && o.end == |es| as real
    && forall i :: 0 <= i < |es| ==> es[i] in o.rank && o.rank[es[i]] == i as real
  }

  /** The link out of `x` leads to a ranked node, to a higher rank, and skips no kept entry. */
  ghost predicate GoesOn<P>(o: Ranking<P>, h: Heap<P>, linked: set<P>, es: seq<P>, x: P) {
    x in o.rank && x in h && h[x].next in o.rank &&
    var y := h[x].next;
    && o.rank[x] < o.Key(y)
    && (forall k :: k in o.rank && Kept(linked, es, k) ==>
         k == x || k == y || o.rank[k] < o.rank[x] || o.Key(y) < o.rank[k])
  }

  /** The ranked nodes are ordered, and the linked ones among them are whole circles. */
  ghost predicate Ordered<P>(o: Ranking<P>, h: Heap<P>, linked: set<P>, es: seq<P>) {
    && (forall x {:trigger GoesOn(o, h, linked, es, x)} :: x in o.rank ==> GoesOn(o, h, linked, es, x))
    && (forall x {:trigger RankedAsNext(o, h, x)} :: x in linked ==> RankedAsNext(o, h, x))
  }

  ghost predicate RankedAsNext<P>(o: Ranking<P>, h: Heap<P>, x: P) {
    x in h && (x in o.rank <==> h[x].next in o.rank)
  }

  /** The reader has gone upwards and has visited every kept entry up to where it stands. */
  ghost predicate ReaderIsRight<P>(o: Ranking<P>, t: Traversal<P>, linked: set<P>, es: seq<P>) {
    && t.at in o.rank
    && (forall i :: 0 <= i < |t.visited| ==> t.visited[i] in o.rank && t.visited[i] != o.head)
    && (forall i, j :: 0 <= i < j < |t.visited| ==> o.rank[t.visited[i]] < o.rank[t.visited[j]])
    && (if t.back || t.visited == [] then t.at == o.head else t.at == t.visited[|t.visited| - 1])
    && (forall k :: k in o.rank && Kept(linked, es, k) && (t.back || o.rank[k] <= o.rank[t.at]) ==> k in t.visited)
  }

  /** The invariant of a traversal of the list that had the entries `es` when it began. */
  ghost predicate Invariant<P>(s: State<P>, es: seq<P>) {
    && Consistent(s.m)
    && s.o.head in s.m.linked
    && Ranked(s.o, es)
    && Ordered(s.o, s.m.base, s.m.linked, es)
    && ReaderIsRight(s.o, s.t, s.m.linked, es)
    && (s.m.writer.Adding? ==> s.m.writer.added !in s.o.rank)
    && (s.m.writer.Deleting? ==> s.m.writer.entry != s.o.head)
  }

  /** What the writer may do next, whether or not there is a reader. */
  ghost predicate WriterEnabled<P>(m: Shared<P>, ev: Event<P>) {
    match ev
    case BeginAdd(x, head) => m.writer.Idle? && Addable(m.heap, m.linked, x) && head in m.linked && x != head
    case BeginAddTail(x, head) => m.writer.Idle? && Addable(m.heap, m.linked, x) && head in m.linked && x != head
    case BeginDel(e) => m.writer.Idle? && e in m.linked
    case Store => !m.writer.Idle?
    case Read => false
  }

  ghost predicate Enabled<P>(s: State<P>, ev: Event<P>) {
    if ev.Read? then !s.t.back
    else
      && WriterEnabled(s.m, ev)
      && (ev.BeginAdd? || ev.BeginAddTail? ==> ev.added !in s.o.rank)
      && (ev.BeginDel? ==> ev.entry != s.o.head)
  }

  /** The writer reads the neighbours and begins. */
  function Begin<P(==)>(m: Shared<P>, ev: Event<P>): Shared<P>
    requires (ev.BeginAdd? || ev.BeginAddTail?) ==> ev.head in m.heap
    requires ev.BeginDel? ==> ev.entry in m.heap
  {
    match ev
    case BeginAdd(x, head) => m.(writer := Adding(x, head, m.heap[head].next, 0), base := m.heap)
    case BeginAddTail(x, head) => m.(writer := Adding(x, m.heap[head].prev, head, 0), base := m.heap)
    case BeginDel(e) => m.(writer := Deleting(e, m.heap[e].prev, m.heap[e].next, 0), base := m.heap)
    case _ => m
  }

  /** One store of the writer's operation; the last one completes it. */
  function StoreNext<P(==)>(m: Shared<P>): Shared<P>
    requires m.writer.Adding? ==>
      {m.writer.added, m.writer.prev, m.writer.next} <= m.heap.Keys && m.writer.stores < ADD_STORES
    requires m.writer.Deleting? ==> {m.writer.prev, m.writer.next} <= m.heap.Keys && m.writer.stores < DEL_STORES
  {
    match m.writer
    case Idle => m
    case Adding(x, p, n, k) =>
      var h := AddStore(m.heap, x, p, n, k);
      if k + 1 < ADD_STORES then m.(heap := h, writer := Adding(x, p, n, k + 1))
      else Shared(h, m.linked + {x}, Idle, h)
    case Deleting(e, p, n, k) =>
      var h := DelStore(m.heap, p, n, k);
      if k + 1 < DEL_STORES then m.(heap := h, writer := Deleting(e, p, n, k + 1))
      else Shared(h, m.linked - {e}, Idle, h)
  }

  /** A node that joins the traversed list gets a rank between its neighbours'. */
  function Rerank<P(==)>(o: Ranking<P>, x: P, p: P, n: P): Ranking<P> {
    if p in o.rank && n in o.rank then o.(rank := o.rank[x := (o.rank[p] + o.Key(n)) / 2.0]) else o
  }

  function RankAfterStore<P(==)>(o: Ranking<P>, w: Writer<P>): Ranking<P> {
    if w.Adding? && w.stores + 1 == ADD_STORES then Rerank(o, w.added, w.prev, w.next) else o
  }

  /** The reader follows the link it finds. */
  function ReadNext<P(==)>(h: Heap<P>, head: P, t: Traversal<P>): Traversal<P>
    requires t.at in h
  {
    var y := h[t.at].next;
    if y == head then Traversal(y, t.visited, true) else Traversal(y, t.visited + [y], false)
  }

  /** On the traversed list, and on all that was deleted from it, an unfinished operation has not yet
      changed any `next`. */
  lemma NextsUnchanged<P>(s: State<P>, es: seq<P>, x: P)
    requires Invariant(s, es) && x in s.o.rank
    ensures x in s.m.heap && GoesOn(s.o, s.m.heap, s.m.linked, es, x)
  {
    assert GoesOn(s.o, s.m.base, s.m.linked, es, x);
  }

  lemma ReadKeeps<P>(o: Ranking<P>, h: Heap<P>, linked: set<P>, t: Traversal<P>, es: seq<P>)
    requires Ranked(o, es) && ReaderIsRight(o, t, linked, es) && !t.back && GoesOn(o, h, linked, es, t.at)
    ensures ReaderIsRight(o, ReadNext(h, o.head, t), linked, es)
  {
  }

  /** The links of the nodes around an added one go on; `q` is the ranking with the new node. */
  lemma AddGoesOn<P>(o: Ranking<P>, h: Heap<P>, g: Heap<P>, linked: set<P>, es: seq<P>, x: P, p: P, n: P)
    requires x in h && x != p && x != n && x !in o.rank && x !in es
    requires Spliced(h, g, x, p, n) && GoesOn(o, h, linked, es, p) && h[p].next == n
    requires o.head in o.rank && o.head !in es
    ensures var q := Rerank(o, x, p, n);
      GoesOn(q, g, linked + {x}, es, p) && GoesOn(q, g, linked + {x}, es, x)
  {
    var q, after := Rerank(o, x, p, n), linked + {x};
    assert g[p].next == x && g[x].next == n;
    assert forall k :: k in o.rank ==> q.rank[k] == o.rank[k];
    assert o.rank[p] < q.rank[x] == q.Key(x) < q.Key(n) == o.Key(n);
    forall k | k in q.rank && Kept(after, es, k)
      ensures k in o.rank && Kept(linked, es, k)
      ensures k == p || k == n || q.rank[k] < q.rank[p] || q.Key(n) < q.rank[k]
      ensures k == n ==> q.Key(n) == q.rank[k] || n == q.head
    {
    }
  }

  lemma AddGoesOnElsewhere<P>(o: Ranking<P>, h: Heap<P>, g: Heap<P>, linked: set<P>, es: seq<P>, x: P, p: P, n: P, y: P)
    requires x in h && x !in o.rank && x !in es && y != p && y != x
    requires Spliced(h, g, x, p, n) && GoesOn(o, h, linked, es, y) && o.head in o.rank
    ensures GoesOn(Rerank(o, x, p, n), g, linked + {x}, es, y)
  {
    var q, after := Rerank(o, x, p, n), linked + {x};
    assert g[y].next == h[y].next;
    forall k | k in q.rank && Kept(after, es, k)
      ensures k in o.rank && Kept(linked, es, k) && q.rank[k] == o.rank[k]
    {
    }
  }

  lemma AddRanksAsNext<P>(o: Ranking<P>, h: Heap<P>, g: Heap<P>, x: P, p: P, n: P, y: P)
    requires x in h && x != p && x != n && x !in o.rank
    requires RankedAsNext(o, h, p) && h[p].next == n && Spliced(h, g, x, p, n)
    requires y != x ==> RankedAsNext(o, h, y) && h[y].next != x
    ensures RankedAsNext(Rerank(o, x, p, n), g, y)
  {
  }

  lemma AddGoesOnEverywhere<P>(o: Ranking<P>, h: Heap<P>, g: Heap<P>, linked: set<P>, es: seq<P>, x: P, p: P, n: P)
    requires x in h && x != p && x != n && x !in o.rank && p in h && h[p].next == n && Spliced(h, g, x, p, n)
    requires Ranked(o, es) && Ordered(o, h, linked, es) && (p in o.rank <==> n in o.rank)
    ensures forall y :: y in Rerank(o, x, p, n).rank ==> GoesOn(Rerank(o, x, p, n), g, linked + {x}, es, y)
  {
    forall y | y in Rerank(o, x, p, n).rank ensures GoesOn(Rerank(o, x, p, n), g, linked + {x}, es, y) {
      if y == p || y == x {
        assert GoesOn(o, h, linked, es, p);
        AddGoesOn(o, h, g, linked, es, x, p, n);
      } else {
        assert GoesOn(o, h, linked, es, y);
        AddGoesOnElsewhere(o, h, g, linked, es, x, p, n, y);
      }
    }
  }

  lemma AddKeepsOrder<P>(o: Ranking<P>, h: Heap<P>, g: Heap<P>, linked: set<P>, es: seq<P>, x: P, p: P, n: P)
    requires Coherent(h, linked) && Addable(h, linked, x) && x != p && x != n && x !in o.rank
    requires p in linked && Mirrored(h, linked, p) && h[p].next == n && Spliced(h, g, x, p, n)
    requires Ranked(o, es) && Ordered(o, h, linked, es)
    ensures Ordered(Rerank(o, x, p, n), g, linked + {x}, es)
  {
    assert RankedAsNext(o, h, p);
    AddGoesOnEverywhere(o, h, g, linked, es, x, p, n);
    assert x in linked ==> Mirrored(h, linked, x);
    forall y | y in linked + {x} ensures RankedAsNext(Rerank(o, x, p, n), g, y) {
      if y != x {
        assert Mirrored(h, linked, y) && RankedAsNext(o, h, y);
      }
      AddRanksAsNext(o, h, g, x, p, n, y);
    }
  }

  lemma DelGoesOn<P>(o: Ranking<P>, h: Heap<P>, g: Heap<P>, linked: set<P>, es: seq<P>, e: P, y: P)
    requires e in h && e != o.head && h[e].prev in h && h[h[e].prev].next == e
    requires Bridged(h, g, h[e].prev, h[e].next)
    requires GoesOn(o, h, linked, es, y) && (y == h[e].prev ==> GoesOn(o, h, linked, es, e))
    ensures GoesOn(o, g, linked - {e}, es, y)
  {
    forall k | k in o.rank && Kept(linked - {e}, es, k) ensures Kept(linked, es, k) && k != e {
    }
  }

  lemma DelRanksAsNext<P>(o: Ranking<P>, h: Heap<P>, g: Heap<P>, e: P, y: P)
    requires e in h && h[e].prev in h && h[h[e].prev].next == e
    requires Bridged(h, g, h[e].prev, h[e].next) && RankedAsNext(o, h, y) && RankedAsNext(o, h, e)
    ensures RankedAsNext(o, g, y)
  {
  }

  lemma DelKeepsOrder<P>(o: Ranking<P>, h: Heap<P>, g: Heap<P>, linked: set<P>, es: seq<P>, e: P)
    requires Coherent(h, linked) && e in linked && e != o.head
    requires Mirrored(h, linked, e) && Bridged(h, g, h[e].prev, h[e].next)
    requires Ordered(o, h, linked, es)
    ensures Ordered(o, g, linked - {e}, es)
  {
    forall y | y in o.rank ensures GoesOn(o, g, linked - {e}, es, y) {
      assert GoesOn(o, h, linked, es, y);
      if y == h[e].prev {
        assert GoesOn(o, h, linked, es, e);
      }
      DelGoesOn(o, h, g, linked, es, e, y);
    }
    assert RankedAsNext(o, h, e);
    forall y | y in linked - {e} ensures RankedAsNext(o, g, y) {
      assert RankedAsNext(o, h, y);
      DelRanksAsNext(o, h, g, e, y);
    }
  }

  lemma ReaderSurvives<P>(o: Ranking<P>, q: Ranking<P>, t: Traversal<P>, linked: set<P>, after: set<P>, es: seq<P>)
    requires ReaderIsRight(o, t, linked, es) && q.head == o.head
    requires forall k :: k in o.rank ==> k in q.rank && q.rank[k] == o.rank[k]
    requires forall k :: k in q.rank && Kept(after, es, k) ==> k in o.rank && Kept(linked, es, k)
    ensures ReaderIsRight(q, t, after, es)
  {
  }

  lemma OneMoreStore<P>(h: Heap<P>, x: P, p: P, n: P, k: nat)
    requires x in h && p in h && n in h
    ensures k < ADD_STORES ==> AddStore(AddStores(h, x, p, n, k), x, p, n, k) == AddStores(h, x, p, n, k + 1)
    ensures k < DEL_STORES ==> DelStore(DelStores(h, p, n, k), p, n, k) == DelStores(h, p, n, k + 1)
  {
    if k == 0 {
    } else if k == 1 {
    } else if k == 2 {
    } else if k == 3 {
    }
  }

  /** A store either only moves on inside the operation or completes it. */
  lemma StoreCases<P>(m: Shared<P>)
    requires Consistent(m) && !m.writer.Idle?
    ensures m.writer.Adding? ==> {m.writer.added, m.writer.prev, m.writer.next} <= m.heap.Keys
    ensures m.writer.Deleting? ==> {m.writer.prev, m.writer.next} <= m.heap.Keys
    ensures var m' := StoreNext(m);
      match m.writer
      case Adding(x, p, n, k) =>
        if k + 1 < ADD_STORES then Consistent(m') && m' == m.(heap := m'.heap, writer := Adding(x, p, n, k + 1))
        else Spliced(m.base, m'.base, x, p, n) && m' == Shared(m'.base, m.linked + {x}, Idle, m'.base)
      case Deleting(e, p, n, k) =>
        if k + 1 < DEL_STORES then Consistent(m') && m' == m.(heap := m'.heap, writer := Deleting(e, p, n, k + 1))
        else Bridged(m.base, m'.base, p, n) && m' == Shared(m'.base, m.linked - {e}, Idle, m'.base)
  {
    match m.writer
    case Adding(x, p, n, k) =>
      OneMoreStore(m.base, x, p, n, k);
      AddSplices(m.base, x, p, n);
    case Deleting(e, p, n, k) =>
      OneMoreStore(m.base, e, p, n, k);
      DelBridges(m.base, e);
  }

  lemma StoreConsistent<P>(m: Shared<P>)
    requires Consistent(m) && !m.writer.Idle?
    ensures m.writer.Adding? ==> {m.writer.added, m.writer.prev, m.writer.next} <= m.heap.Keys
    ensures m.writer.Deleting? ==> {m.writer.prev, m.writer.next} <= m.heap.Keys
    ensures Consistent(StoreNext(m))
  {
    StoreCases(m);
    var w, g := m.writer, StoreNext(m).base;
    if w.Adding? && w.stores + 1 == ADD_STORES {
      SpliceKeepsCoherence(m.base, g, m.linked, w.added, w.prev, w.next);
    } else if w.Deleting? && w.stores + 1 == DEL_STORES {
      BridgeKeepsCoherence(m.base, g, m.linked, w.entry);
    }
  }

  lemma AddCompletes<P>(s: State<P>, es: seq<P>)
    requires Invariant(s, es) && s.m.writer.Adding? && s.m.writer.stores + 1 == ADD_STORES
    ensures {s.m.writer.added, s.m.writer.prev, s.m.writer.next} <= s.m.heap.Keys
    ensures Invariant(State(StoreNext(s.m), s.t, RankAfterStore(s.o, s.m.writer)), es)
  {
    StoreCases(s.m);
    StoreConsistent(s.m);
    var m, w, g := s.m, s.m.writer, StoreNext(s.m).base;
    AddKeepsOrder(s.o, m.base, g, m.linked, es, w.added, w.prev, w.next);
    ReaderSurvives(s.o, Rerank(s.o, w.added, w.prev, w.next), s.t, m.linked, m.linked + {w.added}, es);
  }

  lemma DelCompletes<P>(s: State<P>, es: seq<P>)
    requires Invariant(s, es) && s.m.writer.Deleting? && s.m.writer.stores + 1 == DEL_STORES
    ensures {s.m.writer.prev, s.m.writer.next} <= s.m.heap.Keys
    ensures Invariant(State(StoreNext(s.m), s.t, RankAfterStore(s.o, s.m.writer)), es)
  {
    StoreCases(s.m);
    StoreConsistent(s.m);
    var m, w, g := s.m, s.m.writer, StoreNext(s.m).base;
    DelKeepsOrder(s.o, m.base, g, m.linked, es, w.entry);
    ReaderSurvives(s.o, s.o, s.t, m.linked, m.linked - {w.entry}, es);
  }

  lemma StoreKeeps<P>(s: State<P>, es: seq<P>)
    requires Invariant(s, es) && !s.m.writer.Idle?
    ensures s.m.writer.Adding? ==> {s.m.writer.added, s.m.writer.prev, s.m.writer.next} <= s.m.heap.Keys
    ensures s.m.writer.Deleting? ==> {s.m.writer.prev, s.m.writer.next} <= s.m.heap.Keys
    ensures Invariant(State(StoreNext(s.m), s.t, RankAfterStore(s.o, s.m.writer)), es)
  {
    StoreCases(s.m);
    if s.m.writer.Adding? && s.m.writer.stores + 1 == ADD_STORES {
      AddCompletes(s, es);
    } else if s.m.writer.Deleting? && s.m.writer.stores + 1 == DEL_STORES {
      DelCompletes(s, es);
    }
  }

  lemma BeginConsistent<P>(m: Shared<P>, ev: Event<P>)
    requires Consistent(m) && WriterEnabled(m, ev) && !ev.Store?
    ensures (ev.BeginAdd? || ev.BeginAddTail?) ==> ev.head in m.heap
    ensures ev.BeginDel? ==> ev.entry in m.heap
    ensures Consistent(Begin(m, ev)) && Begin(m, ev).base == m.base
  {
    match ev
    case BeginAdd(x, head) =>
      assert Mirrored(m.heap, m.linked, head);
      assert x in m.linked ==> Mirrored(m.heap, m.linked, x);
    case BeginAddTail(x, head) =>
      assert Mirrored(m.heap, m.linked, head) && Mirrored(m.heap, m.linked, m.heap[head].prev);
      assert x in m.linked ==> Mirrored(m.heap, m.linked, x);
    case BeginDel(e) =>
      assert Mirrored(m.heap, m.linked, e);
    case _ =>
  }

  /** One step of the writer. It follows no bad pointer. */
  ghost function WriterNext<P>(m: Shared<P>, ev: Event<P>): (v: Shared<P>)
    requires Consistent(m) && WriterEnabled(m, ev)
    ensures Consistent(v)
  {
    if ev.Store? then
      StoreConsistent(m);
      StoreNext(m)
    else
      BeginConsistent(m, ev);
      Begin(m, ev)
  }

  /** One event. It depends on `es` only for knowing that the reader follows no bad pointer. */
  ghost function Next<P>(s: State<P>, ev: Event<P>, es: seq<P>): (v: State<P>)
    requires Invariant(s, es) && Enabled(s, ev)
    ensures Invariant(v, es)
  {
    if ev.Read? then
      NextsUnchanged(s, es, s.t.at);
      ReadKeeps(s.o, s.m.heap, s.m.linked, s.t, es);
      s.(t := ReadNext(s.m.heap, s.o.head, s.t))
    else if ev.Store? then
      StoreKeeps(s, es);
      State(WriterNext(s.m, ev), s.t, RankAfterStore(s.o, s.m.writer))
    else
      BeginConsistent(s.m, ev);
      s.(m := WriterNext(s.m, ev))
  }

  /** A run of the writer alone. */
  ghost predicate WriterCanRun<P>(m: Shared<P>, evs: seq<Event<P>>)
    requires Consistent(m)
    decreases |evs|
  {
    evs == [] || (WriterEnabled(m, evs[0]) && WriterCanRun(WriterNext(m, evs[0]), evs[1..]))
  }

  ghost function WriterRun<P>(m: Shared<P>, evs: seq<Event<P>>): (v: Shared<P>)
    requires Consistent(m) && WriterCanRun(m, evs)
    ensures Consistent(v)
    decreases |evs|
  {
    if evs == [] then m else WriterRun(WriterNext(m, evs[0]), evs[1..])
  }

  ghost predicate CanRun<P>(s: State<P>, evs: seq<Event<P>>, es: seq<P>)
    requires Invariant(s, es)
    decreases |evs|
  {
    evs == [] || (Enabled(s, evs[0]) && CanRun(Next(s, evs[0], es), evs[1..], es))
  }

  ghost function Run<P>(s: State<P>, evs: seq<Event<P>>, es: seq<P>): (v: State<P>)
    requires Invariant(s, es) && CanRun(s, evs, es)
    ensures Invariant(v, es)
    decreases |evs|
  {
    if evs == [] then s else Run(Next(s, evs[0], es), evs[1..], es)
  }
}
