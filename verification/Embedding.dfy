/** List nodes inside larger objects, in a flat address space, and `container_of`. */
module Embedding {
  import opened Links
  import opened Rings
  import opened Lists
  import opened Coherence
  import KernelList
  import Worlds

  type Address = int

  /** A `list_head` is two pointers of eight bytes. */
  const NODE_SIZE := 16

  function NodeAt(container: Address, offset: nat): Address {
    container + offset
  }

  /** `container_of(ptr, type, member)`, where `offset` is `offsetof(type, member)`. */
  function ContainerOf(node: Address, offset: nat): Address {
    node - offset
  }

  /** Objects of one size at addresses where they do not overlap. */
  ghost predicate Apart(objects: set<Address>, size: nat) {
    forall a, b :: a in objects && b in objects && a != b ==> a + size <= b || b + size <= a
  }

  /** Two node members that lie inside the object and do not overlap. */
  ghost predicate Members(first: nat, second: nat, size: nat) {
    && first + NODE_SIZE <= size && second + NODE_SIZE <= size
    && (first + NODE_SIZE <= second || second + NODE_SIZE <= first)
  }

  /** Two nodes that share no byte. */
  ghost predicate Disjoint(p: Address, q: Address) {
    p + NODE_SIZE <= q || q + NODE_SIZE <= p
  }

  /** A node at `p`, such as a list head, that shares no byte with the nodes of the objects. */
  ghost predicate Outside(objects: set<Address>, first: nat, second: nat, p: Address) {
    forall o :: o in objects ==> Disjoint(NodeAt(o, first), p) && Disjoint(NodeAt(o, second), p)
  }

  /** A node lies in one object only, at one of its members only: different nodes share no byte. And
      `container_of` with the offset of that member finds the object; with the other offset it finds none. */
  lemma NodesAreDistinct(objects: set<Address>, a: Address, b: Address, first: nat, second: nat, size: nat)
    requires Apart(objects, size) && Members(first, second, size) && a in objects && b in objects
    ensures a <= NodeAt(a, first) <= a + size - NODE_SIZE && a <= NodeAt(a, second) <= a + size - NODE_SIZE
    ensures ContainerOf(NodeAt(a, first), first) == a == ContainerOf(NodeAt(a, second), second)
    ensures NodeAt(a, first) == NodeAt(b, first) <==> a == b
    ensures a != b ==> Disjoint(NodeAt(a, first), NodeAt(b, first)) && Disjoint(NodeAt(a, second), NodeAt(b, second))
    ensures Disjoint(NodeAt(a, first), NodeAt(b, second))
    ensures ContainerOf(NodeAt(a, first), second) !in objects
  {
    var c := ContainerOf(NodeAt(a, first), second);
    assert c in objects ==> c == a || c + size <= a || a + size <= c;
  }

  /** The addresses of nodes that a memory of cells may have: no two different ones overlap. */
  ghost predicate LaidOut(nodes: set<Address>) {
    forall p, q :: p in nodes && q in nodes && p != q ==> Disjoint(p, q)
  }

  /** Objects with two nodes each, and list heads that share no byte with those, may be treated as a map
      from addresses to cells: a store to one node changes no byte of another. */
  lemma NodesAreLaidOut(objects: set<Address>, heads: set<Address>, nodes: set<Address>,
                        first: nat, second: nat, size: nat)
    requires Apart(objects, size) && Members(first, second, size)
    requires LaidOut(heads) && forall p :: p in heads ==> Outside(objects, first, second, p)
    requires forall p :: p in nodes ==>
      p in heads || ContainerOf(p, first) in objects || ContainerOf(p, second) in objects
    ensures LaidOut(nodes)
  {
    forall p, q | p in nodes && q in nodes && p != q ensures Disjoint(p, q) {
      NodesShareNoByte(objects, heads, first, second, size, p, q);
    }
  }

  lemma NodesShareNoByte(objects: set<Address>, heads: set<Address>, first: nat, second: nat, size: nat,
                         p: Address, q: Address)
    requires Apart(objects, size) && Members(first, second, size) && p != q
    requires LaidOut(heads) && forall p :: p in heads ==> Outside(objects, first, second, p)
    requires p in heads || ContainerOf(p, first) in objects || ContainerOf(p, second) in objects
    requires q in heads || ContainerOf(q, first) in objects || ContainerOf(q, second) in objects
    ensures Disjoint(p, q)
  {
    if p !in heads && q !in heads {
      var a, b := if ContainerOf(p, first) in objects then ContainerOf(p, first) else ContainerOf(p, second),
                  if ContainerOf(q, first) in objects then ContainerOf(q, first) else ContainerOf(q, second);
      NodesAreDistinct(objects, a, b, first, second, size);
      NodesAreDistinct(objects, b, a, first, second, size);
    } else if p in heads && q !in heads {
      assert Outside(objects, first, second, p);
    } else if q in heads && p !in heads {
      assert Outside(objects, first, second, q);
    }
  }

  /** The nodes of a list of objects, and the objects of a list of nodes. */
  function Nodes(objects: seq<Address>, offset: nat): (s: seq<Address>)
    ensures |s| == |objects| && forall i :: 0 <= i < |s| ==> s[i] == NodeAt(objects[i], offset)
  {
    seq(|objects|, i requires 0 <= i < |objects| => NodeAt(objects[i], offset))
  }

  function Containers(nodes: seq<Address>, offset: nat): (s: seq<Address>)
    ensures |s| == |nodes| && forall i :: 0 <= i < |s| ==> s[i] == ContainerOf(nodes[i], offset)
  {
    seq(|nodes|, i requires 0 <= i < |nodes| => ContainerOf(nodes[i], offset))
  }

  lemma ContainersOfNodes(objects: seq<Address>, offset: nat)
    ensures Containers(Nodes(objects, offset), offset) == objects
  {
  }

  /** Objects on two lists at once: deleting one from the first list through its first node takes exactly
      that object off the first list and leaves the second list, which may hold it too, as it was. */
  lemma DeleteFromOneList(h: Heap<Address>, objects: set<Address>, size: nat, first: nat, second: nat,
                          a: Address, xs: seq<Address>, b: Address, ys: seq<Address>, i: nat, poison: Cell<Address>)
    requires Apart(objects, size) && Members(first, second, size)
    requires (forall x :: x in xs ==> x in objects) && (forall y :: y in ys ==> y in objects)
    requires IsRing(h, [a] + Nodes(xs, first)) && IsRing(h, [b] + Nodes(ys, second)) && i < |xs|
    requires Outside(objects, first, second, b)
    ensures var e := NodeAt(xs[i], first);
      && e in h && h[e].next in h && h[e].prev in h
      && var g := ListDel(h, e, poison);
         && IsRing(g, [a] + Nodes(RemoveAt(xs, i), first))
         && IsRing(g, [b] + Nodes(ys, second))
         && Containers(Nodes(RemoveAt(xs, i), first), first) == RemoveAt(xs, i)
         && Containers(Nodes(ys, second), second) == ys
  {
    var e, s := NodeAt(xs[i], first), [b] + Nodes(ys, second);
    var ns := Nodes(xs, first);
    DelsAtHead(h, a, ns, i, poison);
    assert RemoveAt(ns, i) == Nodes(RemoveAt(xs, i), first);
    assert xs[i] in objects && e != b;
    forall j | 0 <= j < |ys| ensures e != NodeAt(ys[j], second) {
      NodesAreDistinct(objects, xs[i], ys[j], first, second, size);
    }
    assert e !in s;
    assert e in [a] + ns by { assert ([a] + ns)[i + 1] == e; }
    NeighboursInRing(h, [a] + ns, e);
    DelsElsewhere(h, s, e, poison);
    ContainersOfNodes(RemoveAt(xs, i), first);
    ContainersOfNodes(ys, second);
  }

  /** The two poison values for a configured offset, as addresses. */
  function FlatPoison(delta: nat): Cell<Address> {
    Cell(0x100 + delta, 0x200 + delta)
  }

  /** These are the addresses that `list_del` stores: the first in `next`, the second in `prev`. */
  lemma PoisonAddresses()
    ensures var flat := FlatPoison(KernelList.POISON_POINTER_DELTA);
      && 0 <= flat.next && 0 <= flat.prev
      && KernelList.LIST_POISON1 == KernelList.Raw(flat.next)
      && KernelList.LIST_POISON2 == KernelList.Raw(flat.prev)
      && KernelList.Poison() == Cell(KernelList.LIST_POISON1, KernelList.LIST_POISON2)
  {
  }

  const PAGE_SIZE := 4096

  /** No node has a byte on the page at `page`: it is not mapped. */
  ghost predicate Unmapped(nodes: set<Address>, page: Address) {
    forall p :: p in nodes ==> p + NODE_SIZE <= page || page + PAGE_SIZE <= p
  }

  /** If the page at the configured offset is not mapped, the page at 0 by default, then the two poison values
      are different, not null, and no nodes, so following one faults; and every list operation may rely on
      that, which is what the results about whole runs ask of the poison values. */
  lemma PoisonFaults(h: Heap<Address>, linked: set<Address>, delta: nat)
    requires Coherent(h, linked) && Unmapped(h.Keys, delta)
    ensures var poison := FlatPoison(delta);
      && 0 < poison.next == delta + 256 < poison.prev == delta + 512
      && poison.next !in h && poison.prev !in h
      && Worlds.Valid(Worlds.World(h, linked), poison)
  {
  }
}
