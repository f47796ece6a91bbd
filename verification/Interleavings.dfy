/** Which interleavings there are: neither side has to wait for the other. */
module Interleavings {
  import opened Links
  import opened Rings
  import opened Readers
  import opened ReaderTheorems

  /** Each node added is new: not among the known ones, and not added before. */
  ghost predicate NewNodes<P>(known: set<P>, evs: seq<Event<P>>)
    decreases |evs|
  {
    evs == [] || (known !! AddedByOne(evs[0]) && NewNodes(known + AddedByOne(evs[0]), evs[1..]))
  }

  lemma {:induction false} FewerKnown<P>(a: set<P>, b: set<P>, evs: seq<Event<P>>)
    requires a <= b && NewNodes(b, evs)
    ensures NewNodes(a, evs)
    decreases |evs|
  {
    if evs != [] {
      FewerKnown(a + AddedByOne(evs[0]), b + AddedByOne(evs[0]), evs[1..]);
    }
  }

  /** While a reader is on its way, the writer may make every run that it could make without the reader, as
      long as the nodes it adds are new and the head of the traversed list is not deleted. */
  lemma {:induction false} WriterIsFree<P>(s: State<P>, evs: seq<Event<P>>, es: seq<P>)
    requires Invariant(s, es) && WriterCanRun(s.m, evs) && NewNodes(Known(s), evs)
    requires forall i :: 0 <= i < |evs| && evs[i].BeginDel? ==> evs[i].entry != s.o.head
    ensures CanRun(s, evs, es) && Run(s, evs, es).m == WriterRun(s.m, evs) && Run(s, evs, es).t == s.t
    decreases |evs|
  {
    if evs != [] {
      var v := Next(s, evs[0], es);
      StepKnowsOneMore(s, evs[0], es);
      FewerKnown(Known(v), Known(s) + AddedByOne(evs[0]), evs[1..]);
      WriterIsFree(v, evs[1..], es);
    }
  }

  function ReadSteps<P>(n: nat): seq<Event<P>> {
    seq(n, _ => Read)
  }

  /** A reader that has made `n` steps on a list that nobody changes. */
  function TraversalAt<P>(head: P, es: seq<P>, n: nat): Traversal<P>
    requires n <= |es| + 1
  {
    if n <= |es| then Traversal(([head] + es)[n], es[..n], false) else Traversal(head, es, true)
  }

  lemma ReadStep<P>(h: Heap<P>, head: P, es: seq<P>, i: nat)
    requires IsForwardRing(h, [head] + es) && i <= |es|
    ensures var t := TraversalAt(head, es, i);
      !t.back && t.at in h && ReadNext(h, head, t) == TraversalAt(head, es, i + 1)
  {
    var r := [head] + es;
    assert r[0] == head && h[r[i]].next == After(r, i);
    if i < |es| {
      assert r[i + 1] == es[i] && es[..i] + [es[i]] == es[..i + 1];
    } else {
      assert es[..i] == es;
    }
  }

  /** Each traversal in `ts` is one step further than the one before. */
  ghost predicate StepByStep<P>(h: Heap<P>, head: P, ts: seq<Traversal<P>>) {
    forall i :: 0 <= i < |ts| - 1 ==> !ts[i].back && ts[i].at in h && ReadNext(h, head, ts[i]) == ts[i + 1]
  }

  function Walk<P>(head: P, es: seq<P>, n: nat): (ts: seq<Traversal<P>>)
    requires n <= |es| + 1
    ensures |ts| == n + 1 && forall i :: 0 <= i <= n ==> ts[i] == TraversalAt(head, es, i)
  {
    seq(n + 1, i requires 0 <= i <= n => TraversalAt(head, es, i))
  }

  lemma WalkSteps<P>(h: Heap<P>, head: P, es: seq<P>, n: nat)
    requires IsForwardRing(h, [head] + es) && n <= |es| + 1
    ensures StepByStep(h, head, Walk(head, es, n))
  {
    var ts := Walk(head, es, n);
    forall i | 0 <= i < n
      ensures !ts[i].back && ts[i].at in h && ReadNext(h, head, ts[i]) == ts[i + 1]
    {
      ReadStep(h, head, es, i);
    }
  }

  lemma {:induction false} ReadsOn<P>(s: State<P>, es: seq<P>, ts: seq<Traversal<P>>, evs: seq<Event<P>>)
    requires Invariant(s, es) && |ts| == |evs| + 1 && s.t == ts[0] && StepByStep(s.m.heap, s.o.head, ts)
    requires forall k :: 0 <= k < |evs| ==> evs[k] == Read
    ensures CanRun(s, evs, es) && Run(s, evs, es).t == ts[|evs|]
    decreases |evs|
  {
    if evs != [] {
      ReadsOn(Next(s, Read, es), es, ts[1..], evs[1..]);
    }
  }

  /** Between two steps of the writer, also in the middle of an operation, the reader may go all the way: it
      meets the entries one by one, in order, and then is back. */
  lemma UndisturbedTraversal<P>(m: Shared<P>, head: P, es: seq<P>, n: nat)
    requires CanStart(m, head, es) && n <= |es| + 1
    ensures var s := Start(m, head, es);
      && CanRun(s, ReadSteps(n), es)
      && Run(s, ReadSteps(n), es).t == TraversalAt(head, es, n)
  {
    var s := Start(m, head, es);
    WalkSteps(m.heap, head, es, n);
    ReadsOn(s, es, Walk(head, es, n), ReadSteps(n));
  }
}
