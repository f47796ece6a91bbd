/** Walking a list along `next` or `prev` from its head. */
module Traversals {
  import opened Links
  import opened Rings

  /** The nodes met from `at` along `next` before `head` is met, at most `fuel` of them. */
  function Forward<P>(h: Heap<P>, at: P, head: P, fuel: nat): seq<P> {
    if fuel == 0 || at == head || at !in h then []
    else [at] + Forward(h, h[at].next, head, fuel - 1)
  }

  function Backward<P>(h: Heap<P>, at: P, head: P, fuel: nat): seq<P> {
    if fuel == 0 || at == head || at !in h then []
    else [at] + Backward(h, h[at].prev, head, fuel - 1)
  }

  /** The entries of the list at `head`. There are never more than nodes in the heap. */
  function Entries<P>(h: Heap<P>, head: P): seq<P>
    requires head in h
  {
    Forward(h, h[head].next, head, |h.Keys|)
  }

  function EntriesBackward<P>(h: Heap<P>, head: P): seq<P>
    requires head in h
  {
    Backward(h, h[head].prev, head, |h.Keys|)
  }

  function Reverse<T>(s: seq<T>): seq<T> {
    if s == [] then [] else [s[|s| - 1]] + Reverse(s[..|s| - 1])
  }

  lemma {:induction false} ReverseAt<T>(s: seq<T>)
    ensures |Reverse(s)| == |s| && forall k :: 0 <= k < |s| ==> Reverse(s)[k] == s[|s| - 1 - k]
  {
    if s != [] {
      ReverseAt(s[..|s| - 1]);
    }
  }

  lemma {:induction false} ForwardMeets<P>(h: Heap<P>, r: seq<P>, i: nat, fuel: nat)
    requires IsForwardRing(h, r) && i < |r| && |r| - i - 1 <= fuel
    ensures Forward(h, After(r, i), r[0], fuel) == r[i + 1..]
    decreases |r| - i
  {
    if i + 1 < |r| {
      assert h[r[i + 1]].next == After(r, i + 1);
      ForwardMeets(h, r, i + 1, fuel - 1);
    }
  }

  lemma {:induction false} BackwardMeets<P>(h: Heap<P>, r: seq<P>, i: nat, fuel: nat)
    requires IsRing(h, r) && i < |r| && i <= fuel
    ensures Backward(h, r[i], r[0], fuel) == Reverse(r[1..][..i])
  {
    if 0 < i {
      assert After(r, i - 1) == r[i];
      assert h[r[i]].prev == r[i - 1];
      BackwardMeets(h, r, i - 1, fuel - 1);
      assert r[1..][..i][..i - 1] == r[1..][..i - 1];
    }
  }

  /** `next` pointers alone decide what a forward reader meets. */
  lemma ForwardWalk<P>(h: Heap<P>, r: seq<P>)
    requires IsForwardRing(h, r)
    ensures Entries(h, r[0]) == r[1..]
  {
    DistinctFits(r, h.Keys);
    assert h[r[0]].next == After(r, 0);
    ForwardMeets(h, r, 0, |h.Keys|);
  }

  /** A list read forwards gives its entries in order, and read backwards gives their reverse. */
  lemma WalksOfRing<P>(h: Heap<P>, r: seq<P>)
    requires IsRing(h, r)
    ensures Entries(h, r[0]) == r[1..]
    ensures EntriesBackward(h, r[0]) == Reverse(r[1..])
    ensures |EntriesBackward(h, r[0])| == |r| - 1
    ensures forall k :: 0 <= k < |r| - 1 ==> EntriesBackward(h, r[0])[k] == r[|r| - 1 - k]
  {
    ForwardWalk(h, r);
    DistinctFits(r, h.Keys);
    assert h[After(r, |r| - 1)].prev == r[|r| - 1];
    BackwardMeets(h, r, |r| - 1, |h.Keys|);
    assert r[1..][..|r| - 1] == r[1..];
    ReverseAt(r[1..]);
  }
}
