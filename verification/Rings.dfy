/** Rings: circular doubly linked lists in a heap, as sequences of nodes. */
module Rings {
  import opened Links

  ghost predicate Distinct<P>(s: seq<P>) {
    forall i, j :: 0 <= i < j < |s| ==> s[i] != s[j]
  }

  function IndexOf<P(==)>(r: seq<P>, m: P): (k: nat)
    requires m in r
    ensures k < |r| && r[k] == m
  {
    if r[0] == m then 0 else 1 + IndexOf(r[1..], m)
  }

  /** The element that follows position `i` when the sequence is read as a circle. */
  function After<P>(r: seq<P>, i: nat): P
    requires i < |r|
  {
    if i + 1 < |r| then r[i + 1] else r[0]
  }

  /** A circle of `next` pointers: what a forward reader sees. */
  ghost predicate IsForwardRing<P>(h: Heap<P>, r: seq<P>) {
    && 0 < |r|
    && Distinct(r)
    && (forall i :: 0 <= i < |r| ==> r[i] in h && h[r[i]].next == After(r, i))
  }

  ghost predicate IsRing<P>(h: Heap<P>, r: seq<P>) {
    && IsForwardRing(h, r)
    && (forall i :: 0 <= i < |r| ==> After(r, i) in h && h[After(r, i)].prev == r[i])
  }

  /** The ring `r` with `x` put right after position `k`. */
  function InsertAfter<P>(r: seq<P>, k: nat, x: P): seq<P>
    requires k < |r|
  {
    r[..k + 1] + [x] + r[k + 1..]
  }

  function RemoveAt<P>(r: seq<P>, k: nat): seq<P>
    requires k < |r|
  {
    r[..k] + r[k + 1..]
  }

  function Rotate<P>(r: seq<P>, k: nat): seq<P>
    requires k <= |r|
  {
    r[k..] + r[..k]
  }

  lemma RotateAfter<P>(r: seq<P>, k: nat, i: nat)
    requires k < |r| && i < |r|
    ensures var j := if i + k < |r| then i + k else i + k - |r|;
      Rotate(r, k)[i] == r[j] && After(Rotate(r, k), i) == After(r, j)
  {
  }

  /** A ring has no first element: reading it from any of its members gives a ring. */
  lemma RotateIsRing<P>(h: Heap<P>, r: seq<P>, k: nat)
    requires IsRing(h, r) && k < |r|
    ensures IsRing(h, Rotate(r, k))
  {
    var s := Rotate(r, k);
    forall i | 0 <= i < |s|
      ensures s[i] in h && h[s[i]].next == After(s, i) && After(s, i) in h && h[After(s, i)].prev == s[i]
    {
      RotateAfter(r, k, i);
    }
  }

  lemma SpliceAppends<P>(h: Heap<P>, g: Heap<P>, r: seq<P>, x: P)
    requires IsRing(h, r) && x in h && x !in r
    requires Spliced(h, g, x, r[|r| - 1], r[0])
    ensures IsRing(g, r + [x])
  {
    var s := r + [x];
    forall i | 0 <= i < |s|
      ensures s[i] in g && g[s[i]].next == After(s, i) && After(s, i) in g && g[After(s, i)].prev == s[i]
    {
      if i + 1 < |r| {
        assert s[i] == r[i] && After(s, i) == After(r, i) == r[i + 1];
      }
    }
  }

  lemma BridgeDropsLast<P>(h: Heap<P>, g: Heap<P>, r: seq<P>, x: P)
    requires IsRing(h, r + [x]) && 0 < |r|
    requires Bridged(h, g, r[|r| - 1], r[0])
    ensures IsRing(g, r)
  {
    var s := r + [x];
    assert forall i :: 0 <= i < |r| ==> r[i] == s[i];
    assert Distinct(r);
    forall i | 0 <= i < |r|
      ensures r[i] in g && g[r[i]].next == After(r, i) && After(r, i) in g && g[After(r, i)].prev == r[i]
    {
      assert s[i] in h && h[s[i]].next == After(s, i) && h[After(s, i)].prev == s[i];
      if i + 1 < |r| {
        assert r[i] != r[|r| - 1] && r[i + 1] != r[0];
        assert After(s, i) == After(r, i) == r[i + 1];
      }
    }
  }

  lemma InsertIsRotatedAppend<P>(r: seq<P>, k: nat, x: P)
    requires k + 1 < |r|
    ensures Rotate(Rotate(r, k + 1) + [x], |r| - k - 1) == InsertAfter(r, k, x)
  {
  }

  /** Splicing `x` in after position `k` is inserting it there. */
  lemma SpliceInserts<P>(h: Heap<P>, g: Heap<P>, r: seq<P>, k: nat, x: P)
    requires IsRing(h, r) && k < |r| && x in h && x !in r
    requires Spliced(h, g, x, r[k], After(r, k))
    ensures IsRing(g, InsertAfter(r, k, x))
  {
    if k + 1 == |r| {
      SpliceAppends(h, g, r, x);
      assert InsertAfter(r, k, x) == r + [x];
    } else {
      var s := Rotate(r, k + 1);
      RotateIsRing(h, r, k + 1);
      RotateMembers(r, k + 1, x);
      SpliceAppends(h, g, s, x);
      RotateIsRing(g, s + [x], |r| - k - 1);
      InsertIsRotatedAppend(r, k, x);
    }
  }

  lemma BridgeRemoves<P>(h: Heap<P>, g: Heap<P>, r: seq<P>, k: nat)
    requires IsRing(h, r) && k < |r| && 1 < |r|
    requires Bridged(h, g, h[r[k]].prev, h[r[k]].next)
    ensures IsRing(g, RemoveAt(r, k))
  {
    var s, m := r[k + 1..] + r[..k], |r| - k - 1;
    assert s + [r[k]] == if k + 1 == |r| then r else Rotate(r, k + 1);
    if k + 1 < |r| {
      RotateIsRing(h, r, k + 1);
    }
    LastNeighbours(h, s, r[k]);
    BridgeDropsLast(h, g, s, r[k]);
    if 0 < k {
      RotateIsRing(g, s, m);
    }
    assert RemoveAt(r, k) == if k == 0 then s else Rotate(s, m);
  }

  lemma LastNeighbours<P>(h: Heap<P>, r: seq<P>, x: P)
    requires IsRing(h, r + [x]) && 0 < |r|
    ensures x in h && h[x].next == r[0] && h[x].prev == r[|r| - 1]
  {
    var s := r + [x];
    assert s[|r|] == x && After(s, |r|) == r[0] && After(s, |r| - 1) == x;
    assert h[After(s, |r| - 1)].prev == s[|r| - 1];
  }

  lemma NeighboursInRing<P>(h: Heap<P>, r: seq<P>, x: P)
    requires IsRing(h, r) && x in r
    ensures x in h && h[x].next in r && h[x].prev in r
    ensures h[x].next in h && h[h[x].next].prev == x
    ensures h[x].prev in h && h[h[x].prev].next == x
  {
    var i :| 0 <= i < |r| && r[i] == x;
    var j := if i == 0 then |r| - 1 else i - 1;
    assert After(r, j) == x && h[After(r, j)].prev == r[j];
    assert After(r, i) == h[x].next;
  }

  /** Changing pointers between nodes outside a ring leaves the ring alone. */
  lemma SpliceElsewhere<P>(h: Heap<P>, g: Heap<P>, r: seq<P>, x: P, p: P, n: P)
    requires IsRing(h, r) && Spliced(h, g, x, p, n)
    requires x !in r && p !in r && n !in r
    ensures IsRing(g, r)
  {
  }

  lemma BridgeElsewhere<P>(h: Heap<P>, g: Heap<P>, r: seq<P>, p: P, n: P)
    requires IsRing(h, r) && Bridged(h, g, p, n)
    requires p !in r && n !in r
    ensures IsRing(g, r)
  {
  }

  /** The memory determines a ring once its first element is known. */
  lemma RingUnique<P>(h: Heap<P>, r: seq<P>, s: seq<P>)
    requires IsForwardRing(h, r) && IsForwardRing(h, s) && r[0] == s[0]
    ensures r == s
  {
    if |r| <= |s| {
      ForwardPrefix(h, r, s, |r|);
    } else {
      ForwardPrefix(h, s, r, |s|);
    }
  }

  lemma {:induction false} ForwardPrefix<P>(h: Heap<P>, r: seq<P>, s: seq<P>, n: nat)
    requires IsForwardRing(h, r) && IsForwardRing(h, s) && r[0] == s[0]
    requires n <= |r| <= |s|
    ensures forall i :: 0 <= i < n ==> r[i] == s[i]
    ensures n == |r| ==> |r| == |s|
  {
    if n > 1 {
      ForwardPrefix(h, r, s, n - 1);
      assert r[n - 1] == After(r, n - 2) == After(s, n - 2) == s[n - 1];
    }
    if n == |r| {
      assert r[n - 1] == s[n - 1];
      assert After(s, n - 1) == h[s[n - 1]].next == After(r, n - 1) == s[0];
    }
  }

  lemma RotateMembers<P>(r: seq<P>, k: nat, x: P)
    requires k <= |r|
    ensures x in Rotate(r, k) <==> x in r
  {
    assert r == r[..k] + r[k..];
  }

  lemma SharedRingsMeet<P>(h: Heap<P>, r: seq<P>, s: seq<P>, x: P)
    requires IsRing(h, r) && IsRing(h, s) && x in r && x in s
    ensures s[0] in r
  {
    var i, j := IndexOf(r, x), IndexOf(s, x);
    RotateIsRing(h, r, i);
    RotateIsRing(h, s, j);
    RingUnique(h, Rotate(r, i), Rotate(s, j));
    RotateMembers(s, j, s[0]);
    RotateMembers(r, i, s[0]);
  }

  /** Two rings are the same circle or have no node in common. */
  lemma RingsDisjointOrRotated<P>(h: Heap<P>, r: seq<P>, s: seq<P>, x: P)
    requires IsRing(h, r) && IsRing(h, s) && x in r && x in s
    ensures exists k :: 0 <= k < |r| && Rotate(r, k) == s
  {
    SharedRingsMeet(h, r, s, x);
    var k := IndexOf(r, s[0]);
    RotateIsRing(h, r, k);
    RingUnique(h, Rotate(r, k), s);
  }

  lemma {:induction false} DistinctFits<P>(s: seq<P>, all: set<P>)
    requires Distinct(s) && forall x :: x in s ==> x in all
    ensures |s| <= |all|
  {
    if s != [] {
      var x := s[|s| - 1];
      DistinctFits(s[..|s| - 1], all - {x});
    }
  }
}
