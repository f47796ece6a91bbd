/** `struct list_head` as objects, and the list primitives as methods that assign their fields.

    Each method says what the whole memory of any set of nodes looks like afterwards, as a function of
    what it looked like before, and returns as a ghost result the memory after each single store. */
module KernelList {
  import L = Links

  /** A pointer value: the address of a node, or an address where no node is. */
  datatype Ptr = Raw(address: nat) | To(node: ListHead)

  /** The configured offset of the poison values; 0 without the option, and of no concern to the proofs. */
  const POISON_POINTER_DELTA: nat
  const LIST_POISON1 := Raw(0x100 + POISON_POINTER_DELTA)
  const LIST_POISON2 := Raw(0x200 + POISON_POINTER_DELTA)

  class ListHead {
    var next: Ptr
    var prev: Ptr

    /** `LIST_HEAD(name)`. */
    constructor ()
      ensures next == To(this) && prev == To(this)
    {
      new;
      next, prev := To(this), To(this);
    }
  }

  /** The memory that a set of nodes occupies. */
  ghost function Cells(world: set<ListHead>): (h: L.Heap<Ptr>)
    reads world
    ensures forall n :: n in world ==> To(n) in h
  {
    map n | n in world :: To(n) := L.Cell(n.next, n.prev)
  }

  ghost function Poison(): L.Cell<Ptr> {
    L.Cell(LIST_POISON1, LIST_POISON2)
  }

  /** No object is at a poison address, so following a poisoned field faults. */
  lemma PoisonIsNoNode(world: set<ListHead>)
    ensures LIST_POISON1 !in Cells(world) && LIST_POISON2 !in Cells(world)
    ensures LIST_POISON1 == Raw(256 + POISON_POINTER_DELTA) && LIST_POISON2 == Raw(512 + POISON_POINTER_DELTA)
    ensures LIST_POISON1 != LIST_POISON2
  {
  }

  method InitListHead(list: ListHead, ghost world: set<ListHead>)
    requires list in world
    modifies list
    ensures list.next == To(list) && list.prev == To(list)
    ensures Cells(world) == L.Init(old(Cells(world)), To(list))
  {
    list.next := To(list);
    list.prev := To(list);
  }

  /** `__list_add`. */
  method InsertBetween(added: ListHead, prev: ListHead, next: ListHead, ghost world: set<ListHead>)
    returns (ghost trace: seq<L.Heap<Ptr>>)
    requires {added, prev, next} <= world
    modifies added, prev`next, next`prev
    ensures Cells(world) == L.Add(old(Cells(world)), To(added), To(prev), To(next))
    ensures |trace| == L.ADD_STORES
    ensures forall k :: 0 <= k < |trace| ==>
      trace[k] == L.AddStores(old(Cells(world)), To(added), To(prev), To(next), k + 1)
  {
    ghost var h0 := Cells(world);
    next.prev := To(added);
    ghost var h1 := Cells(world);
    assert h1 == L.SetPrev(h0, To(next), To(added));
    added.next := To(next);
    ghost var h2 := Cells(world);
    assert h2 == L.SetNext(h1, To(added), To(next));
    added.prev := To(prev);
    ghost var h3 := Cells(world);
    assert h3 == L.SetPrev(h2, To(added), To(prev));
    prev.next := To(added);
    ghost var h4 := Cells(world);
    assert h4 == L.SetNext(h3, To(prev), To(added));
    trace := [h1, h2, h3, h4];
  }

  method ListAdd(added: ListHead, head: ListHead, ghost world: set<ListHead>)
    returns (ghost trace: seq<L.Heap<Ptr>>)
    requires head.next.To? && {added, head, head.next.node} <= world
    modifies added, head`next, head.next.node`prev
    ensures Cells(world) == L.ListAdd(old(Cells(world)), To(added), To(head))
    ensures |trace| == L.ADD_STORES
    ensures forall k :: 0 <= k < |trace| ==>
      trace[k] == L.AddStores(old(Cells(world)), To(added), To(head), old(head.next), k + 1)
  {
    trace := InsertBetween(added, head, head.next.node, world);
  }

  method ListAddTail(added: ListHead, head: ListHead, ghost world: set<ListHead>)
    returns (ghost trace: seq<L.Heap<Ptr>>)
    requires head.prev.To? && {added, head, head.prev.node} <= world
    modifies added, head`prev, head.prev.node`next
    ensures Cells(world) == L.ListAddTail(old(Cells(world)), To(added), To(head))
    ensures |trace| == L.ADD_STORES
    ensures forall k :: 0 <= k < |trace| ==>
      trace[k] == L.AddStores(old(Cells(world)), To(added), old(head.prev), To(head), k + 1)
  {
    trace := InsertBetween(added, head.prev.node, head, world);
  }

  /** `__list_del`. */
  method JoinNeighbours(prev: ListHead, next: ListHead, ghost world: set<ListHead>)
    returns (ghost trace: seq<L.Heap<Ptr>>)
    requires {prev, next} <= world
    modifies prev`next, next`prev
    ensures Cells(world) == L.DelStores(old(Cells(world)), To(prev), To(next), L.DEL_STORES)
    ensures |trace| == L.DEL_STORES
    ensures forall k :: 0 <= k < |trace| ==>
      trace[k] == L.DelStores(old(Cells(world)), To(prev), To(next), k + 1)
  {
    next.prev := To(prev);
    trace := [Cells(world)];
    prev.next := To(next);
    trace := trace + [Cells(world)];
  }

  /** `__list_del_entry`. */
  method ListDelEntry(entry: ListHead, ghost world: set<ListHead>)
    returns (ghost trace: seq<L.Heap<Ptr>>)
    requires entry.prev.To? && entry.next.To? && {entry, entry.prev.node, entry.next.node} <= world
    modifies entry.prev.node`next, entry.next.node`prev
    ensures Cells(world) == L.DelEntry(old(Cells(world)), To(entry))
    ensures |trace| == L.DEL_STORES
    ensures forall k :: 0 <= k < |trace| ==>
      trace[k] == L.DelStores(old(Cells(world)), old(entry.prev), old(entry.next), k + 1)
  {
    trace := JoinNeighbours(entry.prev.node, entry.next.node, world);
  }

  method ListDel(entry: ListHead, ghost world: set<ListHead>)
    returns (ghost trace: seq<L.Heap<Ptr>>)
    requires entry.prev.To? && entry.next.To? && {entry, entry.prev.node, entry.next.node} <= world
    modifies entry, entry.prev.node`next, entry.next.node`prev
    ensures entry.next == LIST_POISON1 && entry.prev == LIST_POISON2
    ensures Cells(world) == L.ListDel(old(Cells(world)), To(entry), Poison())
    ensures |trace| == L.DEL_STORES + 2
    ensures forall k :: 0 <= k < L.DEL_STORES ==>
      trace[k] == L.DelStores(old(Cells(world)), old(entry.prev), old(entry.next), k + 1)
    ensures trace[2] == L.SetNext(trace[1], To(entry), LIST_POISON1) && trace[3] == Cells(world)
  {
    trace := ListDelEntry(entry, world);
    ghost var h2 := Cells(world);
    entry.next := LIST_POISON1;
    ghost var h3 := Cells(world);
    assert h3 == L.SetNext(h2, To(entry), LIST_POISON1);
    entry.prev := LIST_POISON2;
    ghost var h4 := Cells(world);
    assert h4 == L.SetPrev(h3, To(entry), LIST_POISON2);
    trace := trace + [h3, h4];
  }
}
