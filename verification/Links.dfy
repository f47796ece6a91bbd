/** The memory of `struct list_head` nodes as a value, and the stores that the
    list primitives make in it.

    A heap maps every pointer that may be dereferenced to the two fields stored
    there; a pointer outside the heap (a poison constant, for one) faults when it
    is followed. The pointer type is a parameter: `KernelList` instantiates it with
    references to objects, `Embedding` with machine addresses. */
module Links {

  datatype Cell<P> = Cell(next: P, prev: P)

  type Heap<P(==)> = map<P, Cell<P>>

  function SetNext<P>(h: Heap<P>, at: P, value: P): Heap<P>
    requires at in h
  {
    h[at := h[at].(next := value)]
  }

  function SetPrev<P>(h: Heap<P>, at: P, value: P): Heap<P>
    requires at in h
  {
    h[at := h[at].(prev := value)]
  }

  /** The number of stores made by `__list_add` and by `__list_del`. */
  const ADD_STORES := 4
  const DEL_STORES := 2

  /** Store number `i` of `__list_add(added, prev, next)`, counted from 0. */
  function AddStore<P>(h: Heap<P>, added: P, prev: P, next: P, i: nat): (r: Heap<P>)
    requires added in h && prev in h && next in h && i < ADD_STORES
    ensures r.Keys == h.Keys
  {
    if i == 0 then SetPrev(h, next, added)
    else if i == 1 then SetNext(h, added, next)
    else if i == 2 then SetPrev(h, added, prev)
    else SetNext(h, prev, added)
  }

  /** The heap after the first `stores` stores of `__list_add(added, prev, next)`. */
  function AddStores<P>(h: Heap<P>, added: P, prev: P, next: P, stores: nat): (r: Heap<P>)
    requires added in h && prev in h && next in h && stores <= ADD_STORES
    ensures r.Keys == h.Keys
  {
    var h1 := if 1 <= stores then AddStore(h, added, prev, next, 0) else h;
    var h2 := if 2 <= stores then AddStore(h1, added, prev, next, 1) else h1;
    var h3 := if 3 <= stores then AddStore(h2, added, prev, next, 2) else h2;
    if 4 <= stores then AddStore(h3, added, prev, next, 3) else h3
  }

  /** Store number `i` of `__list_del(prev, next)`, counted from 0. */
  function DelStore<P>(h: Heap<P>, prev: P, next: P, i: nat): (r: Heap<P>)
    requires prev in h && next in h && i < DEL_STORES
    ensures r.Keys == h.Keys
  {
    if i == 0 then SetPrev(h, next, prev) else SetNext(h, prev, next)
  }

  /** The heap after the first `stores` stores of `__list_del(prev, next)`. */
  function DelStores<P>(h: Heap<P>, prev: P, next: P, stores: nat): (r: Heap<P>)
    requires prev in h && next in h && stores <= DEL_STORES
    ensures r.Keys == h.Keys
  {
    var h1 := if 1 <= stores then DelStore(h, prev, next, 0) else h;
    if 2 <= stores then DelStore(h1, prev, next, 1) else h1
  }

  function Init<P>(h: Heap<P>, list: P): Heap<P>
    requires list in h
  {
    SetPrev(SetNext(h, list, list), list, list)
  }

  function Add<P>(h: Heap<P>, added: P, prev: P, next: P): Heap<P>
    requires added in h && prev in h && next in h
  {
    AddStores(h, added, prev, next, ADD_STORES)
  }

  function ListAdd<P>(h: Heap<P>, added: P, head: P): Heap<P>
    requires added in h && head in h && h[head].next in h
  {
    Add(h, added, head, h[head].next)
  }

  function ListAddTail<P>(h: Heap<P>, added: P, head: P): Heap<P>
    requires added in h && head in h && h[head].prev in h
  {
    Add(h, added, h[head].prev, head)
  }

  function DelEntry<P>(h: Heap<P>, entry: P): Heap<P>
    requires entry in h && h[entry].prev in h && h[entry].next in h
  {
    DelStores(h, h[entry].prev, h[entry].next, DEL_STORES)
  }

  /** `list_del`: `__list_del_entry`, then the two stores that poison the entry. */
  function ListDel<P>(h: Heap<P>, entry: P, poison: Cell<P>): Heap<P>
    requires entry in h && h[entry].prev in h && h[entry].next in h
  {
    SetPrev(SetNext(DelEntry(h, entry), entry, poison.next), entry, poison.prev)
  }

  /** Heap `g` differs from `h` just in that `x` stands between `p` and `n`,
      whichever of the three nodes coincide. */
  ghost predicate Spliced<P>(h: Heap<P>, g: Heap<P>, x: P, p: P, n: P) {
    && g.Keys == h.Keys
    && (forall q :: q in h ==> g[q].next == if q == p then x else if q == x then n else h[q].next)
    && (forall q :: q in h ==> g[q].prev == if q == x then p else if q == n then x else h[q].prev)
  }

  /** Heap `g` differs from `h` just in that `p` and `n` point to each other. */
  ghost predicate Bridged<P>(h: Heap<P>, g: Heap<P>, p: P, n: P) {
    && g.Keys == h.Keys
    && (forall q :: q in h ==> g[q].next == if q == p then n else h[q].next)
    && (forall q :: q in h ==> g[q].prev == if q == n then p else h[q].prev)
  }

  /** Which fields the first stores of `__list_add` have written, and with what, whichever of the three nodes
      coincide: `n.prev` first, then the fields of `x`, and `p.next` last. */
  ghost predicate AddedSoFar<P>(h: Heap<P>, g: Heap<P>, x: P, p: P, n: P, stores: nat) {
    && g.Keys == h.Keys
    && (forall q :: q in h ==>
         g[q].next == if q == p && 4 <= stores then x else if q == x && 2 <= stores then n else h[q].next)
    && (forall q :: q in h ==>
         g[q].prev == if q == x && 3 <= stores then p else if q == n && 1 <= stores then x else h[q].prev)
  }

  lemma AddStoreByStore<P>(h: Heap<P>, x: P, p: P, n: P, stores: nat)
    requires x in h && p in h && n in h && stores <= ADD_STORES
    ensures AddedSoFar(h, AddStores(h, x, p, n, stores), x, p, n, stores)
  {
  }

  /** The same for `__list_del`: `n.prev` first, `p.next` last. */
  lemma DelStoreByStore<P>(h: Heap<P>, p: P, n: P, stores: nat)
    requires p in h && n in h && stores <= DEL_STORES
    ensures var g := DelStores(h, p, n, stores);
      && g.Keys == h.Keys
      && (forall q :: q in h ==> g[q].next == if q == p && 2 <= stores then n else h[q].next)
      && (forall q :: q in h ==> g[q].prev == if q == n && 1 <= stores then p else h[q].prev)
  {
  }

  lemma AddSplices<P>(h: Heap<P>, x: P, p: P, n: P)
    requires x in h && p in h && n in h
    ensures Spliced(h, Add(h, x, p, n), x, p, n)
  {
  }

  lemma DelBridges<P>(h: Heap<P>, entry: P)
    requires entry in h && h[entry].prev in h && h[entry].next in h
    ensures Bridged(h, DelEntry(h, entry), h[entry].prev, h[entry].next)
  {
  }
}
