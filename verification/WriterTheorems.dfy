/** The writer's single stores add up to whole operations: whatever else happens in between, an operation
    that began at once takes its effect as if it were made in one step. */
module WriterTheorems {
  import opened Links
  import opened Coherence
  import opened Readers
  import opened Worlds

  /** The memory as it will be when the operation under way is complete. */
  ghost function Target<P>(m: Shared<P>): World<P>
    requires Consistent(m)
  {
    match m.writer
    case Idle => World(m.heap, m.linked)
    case Adding(x, p, n, _) => World(Add(m.base, x, p, n), m.linked + {x})
    case Deleting(e, p, n, _) => World(DelStores(m.base, p, n, DEL_STORES), m.linked - {e})
  }

  /** The operation in one step; a single store of it is none. */
  function Effect<P(==)>(w: World<P>, ev: Event<P>): World<P> {
    match ev
    case BeginAdd(x, head) =>
      if x in w.heap && head in w.heap && w.heap[head].next in w.heap then
        World(ListAdd(w.heap, x, head), w.linked + {x})
      else w
    case BeginAddTail(x, head) =>
      if x in w.heap && head in w.heap && w.heap[head].prev in w.heap then
        World(ListAddTail(w.heap, x, head), w.linked + {x})
      else w
    case BeginDel(e) =>
      if e in w.heap && w.heap[e].prev in w.heap && w.heap[e].next in w.heap then
        World(DelEntry(w.heap, e), w.linked - {e})
      else w
    case _ => w
  }

  function Effects<P(==)>(w: World<P>, evs: seq<Event<P>>): World<P>
    decreases |evs|
  {
    if evs == [] then w else Effects(Effect(w, evs[0]), evs[1..])
  }

  lemma BeginAims<P>(m: Shared<P>, ev: Event<P>)
    requires Consistent(m) && WriterEnabled(m, ev) && !ev.Store?
    ensures Target(WriterNext(m, ev)) == Effect(Target(m), ev)
  {
    BeginConsistent(m, ev);
    match ev
    case BeginAdd(x, head) => assert Mirrored(m.heap, m.linked, head);
    case BeginAddTail(x, head) => assert Mirrored(m.heap, m.linked, head);
    case BeginDel(e) => assert Mirrored(m.heap, m.linked, e);
  }

  lemma StoreAims<P>(m: Shared<P>)
    requires Consistent(m) && !m.writer.Idle?
    ensures Target(WriterNext(m, Store)) == Target(m)
  {
    StoreConsistent(m);
    match m.writer
    case Adding(x, p, n, k) => OneMoreStore(m.base, x, p, n, k);
    case Deleting(e, p, n, k) => OneMoreStore(m.base, e, p, n, k);
  }

  /** Any run of single stores on any lists aims at what the same operations do one after the other, each in
      one step; between operations that is the memory itself. */
  lemma {:induction false} RunIsSequential<P>(m: Shared<P>, evs: seq<Event<P>>)
    requires Consistent(m) && WriterCanRun(m, evs)
    ensures var v := WriterRun(m, evs); var w := Effects(Target(m), evs);
      Target(v) == w && (v.writer.Idle? ==> v.heap == w.heap && v.linked == w.linked)
    decreases |evs|
  {
    if evs != [] {
      if evs[0].Store? { StoreAims(m); } else { BeginAims(m, evs[0]); }
      RunIsSequential(WriterNext(m, evs[0]), evs[1..]);
    }
  }

  /** The writer may begin to add at a linked head exactly what the operation in one step would add without
      damage to any list; it does not add a head to itself. */
  lemma BeginsExactly<P>(m: Shared<P>, x: P, head: P)
    requires Consistent(m) && m.writer.Idle? && x in m.heap && head in m.linked && x != head
    ensures Mirrored(m.heap, m.linked, head)
    ensures WriterEnabled(m, BeginAdd(x, head)) <==> Coherent(ListAdd(m.heap, x, head), m.linked + {x})
    ensures WriterEnabled(m, BeginAddTail(x, head)) <==> Coherent(ListAddTail(m.heap, x, head), m.linked + {x})
  {
    ListAddKeepsCoherence(m.heap, m.linked, x, head);
    ListAddTailKeepsCoherence(m.heap, m.linked, x, head);
  }

  function Stores<P>(n: nat): seq<Event<P>> {
    seq(n, _ => Store)
  }

  /** How many stores the operation under way still makes. */
  function Left<P>(w: Writer<P>): int {
    match w
    case Idle => 0
    case Adding(_, _, _, k) => ADD_STORES - k
    case Deleting(_, _, _, k) => DEL_STORES - k
  }

  lemma {:induction false} StoresComplete<P>(m: Shared<P>, n: nat)
    requires Consistent(m) && n == Left(m.writer)
    ensures WriterCanRun(m, Stores(n)) && WriterRun(m, Stores(n)).writer.Idle?
    decreases n
  {
    if 0 < n {
      assert Stores<P>(n)[0] == Store && Stores<P>(n)[1..] == Stores(n - 1);
      StoreConsistent(m);
      StoresComplete(WriterNext(m, Store), n - 1);
    }
  }

  lemma {:induction false} StoresHaveNoEffect<P>(w: World<P>, n: nat)
    ensures Effects(w, Stores(n)) == w
  {
    if 0 < n {
      assert Stores<P>(n)[0] == Store && Stores<P>(n)[1..] == Stores(n - 1);
      StoresHaveNoEffect(w, n - 1);
    }
  }

  /** An operation from its beginning to its last store: four stores for an add, two for a deletion. */
  function Whole<P>(ev: Event<P>): seq<Event<P>> {
    [ev] + Stores(if ev.BeginDel? then 2 else 4)
  }

  /** The writer is between operations, with this memory and these linked nodes. */
  ghost predicate IsDone<P>(m: Shared<P>, h: Heap<P>, linked: set<P>) {
    m.writer.Idle? && m.heap == h && m.linked == linked
  }

  /** An operation that may begin can make all its stores, and then the memory is what `list_add`,
      `list_add_tail` or `__list_del_entry` makes of it. */
  lemma OperationCompletes<P>(m: Shared<P>, ev: Event<P>)
    requires Consistent(m) && WriterEnabled(m, ev) && !ev.Store?
    ensures WriterCanRun(m, Whole(ev))
    ensures ev.BeginAdd? ==>
      && ev.head in m.heap && m.heap[ev.head].next in m.heap
      && IsDone(WriterRun(m, Whole(ev)), ListAdd(m.heap, ev.added, ev.head), m.linked + {ev.added})
    ensures ev.BeginAddTail? ==>
      && ev.head in m.heap && m.heap[ev.head].prev in m.heap
      && IsDone(WriterRun(m, Whole(ev)), ListAddTail(m.heap, ev.added, ev.head), m.linked + {ev.added})
    ensures ev.BeginDel? ==>
      && m.heap[ev.entry].prev in m.heap && m.heap[ev.entry].next in m.heap
      && IsDone(WriterRun(m, Whole(ev)), DelEntry(m.heap, ev.entry), m.linked - {ev.entry})
  {
    var n := if ev.BeginDel? then 2 else 4;
    var evs, begun := Whole(ev), WriterNext(m, ev);
    assert evs[0] == ev && evs[1..] == Stores(n);
    StoresComplete(begun, n);
    RunIsSequential(begun, Stores(n));
    BeginAims(m, ev);
    StoresHaveNoEffect(Target(begun), n);
    match ev
    case BeginAdd(x, head) => assert Mirrored(m.heap, m.linked, head);
    case BeginAddTail(x, head) => assert Mirrored(m.heap, m.linked, head);
    case BeginDel(e) => assert Mirrored(m.heap, m.linked, e);
  }
}
