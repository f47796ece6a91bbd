/** What a forward reader sees between the single stores of an add or a delete. */
module StoreOrder {
  import opened Links
  import opened Rings
  import opened Traversals
  import opened Lists

  /** After each store of `__list_add` the `next` pointers form the old list or the new one, and it is the
      last store that switches. This includes a list without entries, where `prev` and `next` are the
      same node. */
  lemma AddIsOldOrNew<P>(h: Heap<P>, r: seq<P>, k: nat, x: P, stores: nat)
    requires IsRing(h, r) && k < |r| && x in h && x !in r && stores <= ADD_STORES
    ensures After(r, k) in h
    ensures var g := AddStores(h, x, r[k], After(r, k), stores);
      var s := if stores < ADD_STORES then r else InsertAfter(r, k, x);
      IsForwardRing(g, s) && r[0] in g && Entries(g, r[0]) == s[1..]
  {
    assert After(r, k) == h[r[k]].next;
    var g := AddStores(h, x, r[k], After(r, k), stores);
    if stores < ADD_STORES {
      forall i | 0 <= i < |r| ensures r[i] in g && g[r[i]].next == After(r, i) {
        assert h[r[i]].next == After(r, i);
      }
      ForwardWalk(g, r);
    } else {
      ListAddInserts(h, r, k, x);
      ForwardWalk(g, InsertAfter(r, k, x));
    }
  }

  /** The same for `__list_del_entry`. */
  lemma DelIsOldOrNew<P>(h: Heap<P>, r: seq<P>, k: nat, stores: nat)
    requires IsRing(h, r) && 0 < k < |r| && stores <= DEL_STORES
    ensures h[r[k]].prev in h && h[r[k]].next in h
    ensures var g := DelStores(h, h[r[k]].prev, h[r[k]].next, stores);
      var s := if stores < DEL_STORES then r else RemoveAt(r, k);
      IsForwardRing(g, s) && r[0] in g && Entries(g, r[0]) == s[1..]
  {
    NeighboursInRing(h, r, r[k]);
    var g := DelStores(h, h[r[k]].prev, h[r[k]].next, stores);
    if stores < DEL_STORES {
      forall i | 0 <= i < |r| ensures r[i] in g && g[r[i]].next == After(r, i) {
        assert h[r[i]].next == After(r, i);
      }
      ForwardWalk(g, r);
    } else {
      ListDelRemoves(h, r, k, Cell(r[k], r[k]));
      ForwardWalk(g, RemoveAt(r, k));
    }
  }

  /** No store of either changes what a reader of another list sees. */
  lemma OthersNeverSwitch<P>(h: Heap<P>, s: seq<P>, x: P, p: P, n: P, stores: nat)
    requires IsForwardRing(h, s) && x in h && p in h && n in h && x !in s && p !in s
    ensures stores <= ADD_STORES ==> IsForwardRing(AddStores(h, x, p, n, stores), s)
    ensures stores <= DEL_STORES ==> IsForwardRing(DelStores(h, p, n, stores), s)
  {
    forall i | 0 <= i < |s|
      ensures stores <= ADD_STORES ==> AddStores(h, x, p, n, stores)[s[i]].next == After(s, i)
      ensures stores <= DEL_STORES ==> DelStores(h, p, n, stores)[s[i]].next == After(s, i)
    {
      assert s[i] in s;
    }
  }
}
