/** What a concurrent traversal guarantees, for every interleaving. */
module ReaderTheorems {
  import opened Links
  import opened Rings
  import opened Coherence
  import opened Readers

  function Elements<P(==)>(s: seq<P>): set<P> {
    set x | x in s
  }

  /** Ranks by position; the first element has rank -1. */
  function Positions<P(==)>(r: seq<P>): (rank: map<P, real>)
    ensures rank.Keys == Elements(r)
  {
    map x | x in Elements(r) :: IndexOf(r, x) as real - 1.0
  }

  function InitialState<P(==)>(m: Shared<P>, head: P, es: seq<P>): State<P> {
    State(m, Traversal(head, [], false), Ranking(head, Positions([head] + es), |es| as real))
  }

  ghost predicate CanStart<P>(m: Shared<P>, head: P, es: seq<P>) {
    && Consistent(m)
    && head in m.linked
    && (m.writer.Adding? ==> m.writer.added != head)
    && (m.writer.Deleting? ==> m.writer.entry != head)
    && IsForwardRing(m.heap, [head] + es)
  }

  /** An unfinished operation shows a reader of any other node's ring that ring as it was before. */
  lemma RingStillSeen<P>(m: Shared<P>, head: P) returns (r: seq<P>)
    requires Consistent(m) && head in m.linked && (m.writer.Adding? ==> m.writer.added != head)
    ensures IsRing(m.base, r) && r[0] == head && (forall x :: x in r ==> x in m.linked)
    ensures IsForwardRing(m.heap, r)
    ensures m.writer.Adding? ==> m.writer.added !in r
  {
    r := RingOf(m.base, m.linked, head);
    if m.writer.Adding? && m.writer.added in r {
      RingOfLonely(m.base, m.linked, m.writer.added, r);
    }
    forall i | 0 <= i < |r| ensures r[i] in m.heap && m.heap[r[i]].next == After(r, i) {
      assert r[i] in r;
    }
  }

  /** What the reader sees at the start is the list as it was when the writer's operation began. */
  lemma SeesBase<P>(m: Shared<P>, head: P, es: seq<P>)
    requires CanStart(m, head, es)
    ensures IsRing(m.base, [head] + es) && forall x :: x in [head] + es ==> x in m.linked
    ensures m.writer.Adding? ==> m.writer.added !in [head] + es
  {
    var r := RingStillSeen(m, head);
    RingUnique(m.heap, r, [head] + es);
  }

  /** After any steps of the writer, stopped between any two stores, a traversal can start at any list
      head that is not itself being added or deleted. */
  lemma StartsAnywhere<P>(m: Shared<P>, evs: seq<Event<P>>, head: P) returns (es: seq<P>)
    requires Consistent(m) && WriterCanRun(m, evs)
    requires var v := WriterRun(m, evs);
      && head in v.linked
      && (v.writer.Adding? ==> v.writer.added != head)
      && (v.writer.Deleting? ==> v.writer.entry != head)
    ensures CanStart(WriterRun(m, evs), head, es)
  {
    var r := RingStillSeen(WriterRun(m, evs), head);
    es := r[1..];
    assert r == [head] + es;
  }

  lemma PositionsOf<P>(r: seq<P>)
    requires Distinct(r)
    ensures forall i :: 0 <= i < |r| ==> r[i] in Positions(r) && Positions(r)[r[i]] == i as real - 1.0
  {
    forall i | 0 <= i < |r| ensures IndexOf(r, r[i]) == i {
      assert r[IndexOf(r, r[i])] == r[i];
    }
  }

  /** The ranking at the start: the head has rank -1 and the entries have their positions. */
  ghost predicate RanksPositions<P>(o: Ranking<P>, head: P, es: seq<P>, r: seq<P>) {
    && r == [head] + es
    && o.head == head && o.end == |es| as real && o.rank.Keys == Elements(r)
    && forall j :: 0 <= j < |r| ==> r[j] in o.rank && o.rank[r[j]] == j as real - 1.0
  }

  lemma PositionGap<P>(o: Ranking<P>, r: seq<P>, i: nat, j: nat)
    requires i < |r| && j < |r| && r[i] in o.rank && r[j] in o.rank && After(r, i) in o.rank
    requires o.rank[r[i]] == i as real - 1.0 && o.rank[r[j]] == j as real - 1.0 && o.Key(After(r, i)) == i as real
    ensures var k := r[j];
      k == r[i] || k == After(r, i) || o.rank[k] < o.rank[r[i]] || o.Key(After(r, i)) < o.rank[k]
  {
    if j > i + 1 {
      assert j as real > i as real + 1.0;
    } else if j < i {
      assert (j as real) < i as real;
    }
  }

  lemma PositionKey<P>(o: Ranking<P>, head: P, es: seq<P>, r: seq<P>, i: nat)
    requires RanksPositions(o, head, es, r) && i < |r| && Distinct(r)
    ensures r[i] in o.rank && o.rank[r[i]] == i as real - 1.0
    ensures After(r, i) in o.rank && o.Key(After(r, i)) == i as real
  {
    assert r[0] == head && |r| == |es| + 1;
    if i + 1 < |r| {
      assert r[i + 1] != r[0];
    }
  }

  lemma StartGoesOn<P>(o: Ranking<P>, h: Heap<P>, linked: set<P>, head: P, es: seq<P>, r: seq<P>, i: nat)
    requires RanksPositions(o, head, es, r) && IsForwardRing(h, r) && i < |r|
    ensures GoesOn(o, h, linked, es, r[i])
  {
    PositionKey(o, head, es, r, i);
    assert h[r[i]].next == After(r, i);
    forall k | k in o.rank && Kept(linked, es, k)
      ensures k == r[i] || k == After(r, i) || o.rank[k] < o.rank[r[i]] || o.Key(After(r, i)) < o.rank[k]
    {
      var j := IndexOf(r, k);
      PositionKey(o, head, es, r, j);
      PositionGap(o, r, i, j);
    }
  }

  lemma RankedAsNextInRing<P>(o: Ranking<P>, h: Heap<P>, linked: set<P>, r: seq<P>, x: P)
    requires IsRing(h, r) && o.rank.Keys == Elements(r) && Mirrored(h, linked, x)
    ensures RankedAsNext(o, h, x)
  {
    if x in r { NeighboursInRing(h, r, x); }
    if h[x].next in r { NeighboursInRing(h, r, h[x].next); }
  }

  lemma StartOrdered<P>(o: Ranking<P>, h: Heap<P>, linked: set<P>, head: P, es: seq<P>, r: seq<P>)
    requires RanksPositions(o, head, es, r) && IsRing(h, r) && Coherent(h, linked)
    ensures Ordered(o, h, linked, es)
  {
    forall x | x in o.rank ensures GoesOn(o, h, linked, es, x) {
      StartGoesOn(o, h, linked, head, es, r, IndexOf(r, x));
    }
    forall x | x in linked ensures RankedAsNext(o, h, x) {
      assert Mirrored(h, linked, x);
      RankedAsNextInRing(o, h, linked, r, x);
    }
  }

  lemma StartIsRanked<P>(o: Ranking<P>, head: P, es: seq<P>, r: seq<P>)
    requires RanksPositions(o, head, es, r) && Distinct(r)
    ensures Ranked(o, es)
  {
    assert r[0] == head;
    forall i | 0 <= i < |es| ensures es[i] in o.rank && o.rank[es[i]] == i as real && es[i] != head {
      assert es[i] == r[i + 1];
    }
  }

  lemma StartIsRight<P>(o: Ranking<P>, linked: set<P>, es: seq<P>)
    requires Ranked(o, es)
    ensures ReaderIsRight(o, Traversal(o.head, [], false), linked, es)
  {
  }

  lemma StartInvariant<P>(m: Shared<P>, head: P, es: seq<P>)
    requires CanStart(m, head, es)
    ensures Invariant(InitialState(m, head, es), es)
  {
    SeesBase(m, head, es);
    var o, r := InitialState(m, head, es).o, [head] + es;
    PositionsOf(r);
    assert RanksPositions(o, head, es, r);
    StartOrdered(o, m.base, m.linked, head, es, r);
    StartIsRanked(o, head, es, r);
    StartIsRight(o, m.linked, es);
  }

  /** A reader arrives at the head of a list with the entries `es`; the writer may be at any point. */
  ghost function Start<P>(m: Shared<P>, head: P, es: seq<P>): (s: State<P>)
    requires CanStart(m, head, es)
    ensures Invariant(s, es)
  {
    StartInvariant(m, head, es);
    InitialState(m, head, es)
  }

  function Filter<P(==)>(s: seq<P>, keep: set<P>): seq<P> {
    if s == [] then []
    else if s[|s| - 1] in keep then Filter(s[..|s| - 1], keep) + [s[|s| - 1]]
    else Filter(s[..|s| - 1], keep)
  }

  ghost predicate Ascending<P>(s: seq<P>, rank: map<P, real>) {
    && (forall i :: 0 <= i < |s| ==> s[i] in rank)
    && (forall i, j :: 0 <= i < j < |s| ==> rank[s[i]] < rank[s[j]])
  }

  lemma {:induction false} FilterAscending<P>(s: seq<P>, keep: set<P>, rank: map<P, real>)
    requires Ascending(s, rank)
    ensures Ascending(Filter(s, keep), rank)
    ensures forall x :: x in Filter(s, keep) <==> x in s && x in keep
  {
    if s != [] {
      var init, last := s[..|s| - 1], s[|s| - 1];
      FilterAscending(init, keep, rank);
      assert s == init + [last];
      forall x | x in Filter(init, keep) ensures rank[x] < rank[last] {
      }
    }
  }

  lemma {:induction false} AscendingUnique<P>(a: seq<P>, b: seq<P>, rank: map<P, real>)
    requires Ascending(a, rank) && Ascending(b, rank) && forall x :: x in a <==> x in b
    ensures a == b
  {
    assert b != [] ==> b[0] in a;
    assert a != [] ==> a[0] in b;
    if a != [] {
      var x, y := a[|a| - 1], b[|b| - 1];
      assert x in b && y in a;
      assert x == y;
      var i, j := a[..|a| - 1], b[..|b| - 1];
      assert a == i + [x] && b == j + [x];
      forall z ensures z in i <==> z in j {
        assert z in a <==> z in i || z == x;
        assert z in b <==> z in j || z == x;
      }
      AscendingUnique(i, j, rank);
    }
  }

  /** Nodes that the writer begins to add. */
  function AddedBy<P(==)>(evs: seq<Event<P>>): set<P> {
    set i | 0 <= i < |evs| && (evs[i].BeginAdd? || evs[i].BeginAddTail?) :: evs[i].added
  }

  function Adds<P>(evs: seq<Event<P>>): nat {
    if evs == [] then 0
    else (if evs[0].BeginAdd? || evs[0].BeginAddTail? then 1 else 0) + Adds(evs[1..])
  }

  function Reads<P>(evs: seq<Event<P>>): nat {
    if evs == [] then 0 else (if evs[0].Read? then 1 else 0) + Reads(evs[1..])
  }

  function Pending<P(==)>(w: Writer<P>): set<P> {
    if w.Adding? then {w.added} else {}
  }

  /** The nodes that the reader may come to meet, as far as they are known. */
  function Known<P(==)>(s: State<P>): set<P> {
    s.o.rank.Keys + Pending(s.m.writer)
  }

  function AddedByOne<P(==)>(ev: Event<P>): set<P> {
    if ev.BeginAdd? || ev.BeginAddTail? then {ev.added} else {}
  }

  lemma StepKnowsOneMore<P>(s: State<P>, ev: Event<P>, es: seq<P>)
    requires Invariant(s, es) && Readers.Enabled(s, ev)
    ensures Known(Next(s, ev, es)) <= Known(s) + AddedByOne(ev)
    ensures Next(s, ev, es).o.head == s.o.head
  {
  }

  lemma StepKnows<P>(s: State<P>, ev: Event<P>, es: seq<P>)
    requires Invariant(s, es) && Readers.Enabled(s, ev)
    ensures Known(Next(s, ev, es)) <= Known(s) + AddedBy([ev])
    ensures |Known(Next(s, ev, es))| <= |Known(s)| + Adds([ev])
    ensures Next(s, ev, es).o.head == s.o.head
  {
    StepKnowsOneMore(s, ev, es);
    AddedBySingle(ev);
    GrownSet(Known(s), Known(Next(s, ev, es)), ev);
  }

  lemma GrownSet<P>(a: set<P>, b: set<P>, ev: Event<P>)
    requires b <= a + AddedByOne(ev)
    ensures |b| <= |a| + Adds([ev])
  {
    AddedBySingle(ev);
    SmallerSet(b, a + AddedByOne(ev));
  }

  lemma AddedBySingle<P>(ev: Event<P>)
    ensures AddedBy([ev]) == AddedByOne(ev)
    ensures Adds([ev]) == if ev.BeginAdd? || ev.BeginAddTail? then 1 else 0
  {
    assert [ev][0] == ev && [ev][1..] == [];
  }

  lemma SmallerSet<T>(a: set<T>, b: set<T>)
    requires a <= b
    ensures |a| <= |b|
  {
    assert b == a + (b - a);
  }

  lemma {:induction false} RunKnows<P>(s: State<P>, evs: seq<Event<P>>, es: seq<P>)
    requires Invariant(s, es) && CanRun(s, evs, es)
    ensures Known(Run(s, evs, es)) <= Known(s) + AddedBy(evs)
    ensures |Known(Run(s, evs, es))| <= |Known(s)| + Adds(evs)
    ensures Run(s, evs, es).o.head == s.o.head
    decreases |evs|
  {
    if evs != [] {
      StepKnows(s, evs[0], es);
      RunKnows(Next(s, evs[0], es), evs[1..], es);
      AddedByFirst(evs);
    }
  }

  lemma AddedByFirst<P>(evs: seq<Event<P>>)
    requires evs != []
    ensures AddedBy(evs) == AddedBy([evs[0]]) + AddedBy(evs[1..])
    ensures Adds(evs) == Adds([evs[0]]) + Adds(evs[1..])
  {
    forall x | x in AddedBy(evs) ensures x in AddedBy([evs[0]]) + AddedBy(evs[1..]) {
      var i :| 0 <= i < |evs| && (evs[i].BeginAdd? || evs[i].BeginAddTail?) && evs[i].added == x;
      if i == 0 { assert [evs[0]][0].added == x; } else { assert evs[1..][i - 1].added == x; }
    }
    forall x | x in AddedBy(evs[1..]) ensures x in AddedBy(evs) {
      var i :| 0 <= i < |evs[1..]| && (evs[1..][i].BeginAdd? || evs[1..][i].BeginAddTail?) && evs[1..][i].added == x;
      assert evs[i + 1].added == x;
    }
    assert [evs[0]][1..] == [];
  }

  function Hops<P(==)>(t: Traversal<P>): nat {
    |t.visited| + if t.back then 1 else 0
  }

  lemma {:induction false} RunReads<P>(s: State<P>, evs: seq<Event<P>>, es: seq<P>)
    requires Invariant(s, es) && CanRun(s, evs, es)
    ensures Hops(Run(s, evs, es).t) == Hops(s.t) + Reads(evs)
    decreases |evs|
  {
    if evs != [] {
      var u := Next(s, evs[0], es);
      assert Hops(u.t) == Hops(s.t) + if evs[0].Read? then 1 else 0;
      RunReads(u, evs[1..], es);
    }
  }

  lemma VisitedKept<P>(o: Ranking<P>, t: Traversal<P>, linked: set<P>, es: seq<P>)
    requires Ranked(o, es) && ReaderIsRight(o, t, linked, es) && t.back
    ensures var kept := Elements(es) * linked; Filter(t.visited, kept) == Filter(es, kept)
  {
    var kept := Elements(es) * linked;
    FilterAscending(t.visited, kept, o.rank);
    FilterAscending(es, kept, o.rank);
    forall k | k in kept ensures k in t.visited {
      assert Kept(linked, es, k) && k in o.rank;
    }
    AscendingUnique(Filter(t.visited, kept), Filter(es, kept), o.rank);
  }

  lemma VisitedFits<P>(o: Ranking<P>, t: Traversal<P>, linked: set<P>, es: seq<P>)
    requires Ranked(o, es) && ReaderIsRight(o, t, linked, es)
    ensures Distinct(t.visited) && Elements(t.visited) <= o.rank.Keys - {o.head}
    ensures |t.visited| + 1 <= |o.rank.Keys|
  {
    assert forall x :: x in t.visited ==> x in o.rank.Keys - {o.head};
    DistinctFits(t.visited, o.rank.Keys - {o.head});
  }

  lemma {:induction false} FewElements<P>(s: seq<P>)
    ensures |Elements(s)| <= |s|
  {
    if s != [] {
      FewElements(s[1..]);
      assert Elements(s) == Elements(s[1..]) + {s[0]};
    }
  }

  lemma KnownAtStart<P>(m: Shared<P>, head: P, es: seq<P>)
    ensures var s := InitialState(m, head, es);
      Known(s) == Elements([head] + es) + Pending(m.writer) && |Known(s)| <= |es| + 1 + |Pending(m.writer)|
  {
    FewElements([head] + es);
    assert |Elements([head] + es) + Pending(m.writer)| <= |Elements([head] + es)| + |Pending(m.writer)|;
  }

  /** The entries of the traversed list and its head: the ring through the head, as the writer's unfinished
      operation found it. */
  ghost function OnList<P>(s: State<P>, es: seq<P>): set<P>
    requires Invariant(s, es)
  {
    Elements(RingOf(s.m.base, s.m.linked, s.o.head))
  }

  lemma {:induction false} RingIsRanked<P>(o: Ranking<P>, h: Heap<P>, linked: set<P>, es: seq<P>, r: seq<P>, n: nat)
    requires Ordered(o, h, linked, es) && IsForwardRing(h, r) && r[0] in o.rank && n < |r|
    requires forall x :: x in r ==> x in linked
    ensures r[n] in o.rank
  {
    if 0 < n {
      RingIsRanked(o, h, linked, es, r, n - 1);
      assert r[n - 1] in linked && RankedAsNext(o, h, r[n - 1]);
      assert h[r[n - 1]].next == After(r, n - 1);
    }
  }

  /** Along a ring of ranked nodes without the head the ranks could only go up, so there is none. */
  lemma RankedRingMeetsHead<P>(o: Ranking<P>, h: Heap<P>, linked: set<P>, es: seq<P>, r: seq<P>)
    requires Ordered(o, h, linked, es) && IsForwardRing(h, r) && r[0] in o.rank
    requires forall x :: x in r ==> x in linked
    ensures o.head in r
  {
    var last := r[|r| - 1];
    RingIsRanked(o, h, linked, es, r, |r| - 1);
    assert GoesOn(o, h, linked, es, last);
    assert h[last].next == After(r, |r| - 1) == r[0];
    if o.head !in r {
      RanksRise(o, h, linked, es, r, |r| - 1);
    }
  }

  lemma {:induction false} RanksRise<P>(o: Ranking<P>, h: Heap<P>, linked: set<P>, es: seq<P>, r: seq<P>, n: nat)
    requires Ordered(o, h, linked, es) && IsForwardRing(h, r) && r[0] in o.rank && o.head !in r && n < |r|
    requires forall x :: x in r ==> x in linked
    ensures r[n] in o.rank && o.rank[r[0]] <= o.rank[r[n]]
  {
    if 0 < n {
      RanksRise(o, h, linked, es, r, n - 1);
      assert GoesOn(o, h, linked, es, r[n - 1]);
      assert h[r[n - 1]].next == After(r, n - 1) == r[n];
    }
  }

  /** In every reachable state the ranked nodes that are linked are exactly the traversed list. */
  lemma RankedLinkedIsList<P>(s: State<P>, es: seq<P>)
    requires Invariant(s, es)
    ensures s.o.rank.Keys * s.m.linked == OnList(s, es)
  {
    var o, h, linked := s.o, s.m.base, s.m.linked;
    var r := RingOf(h, linked, o.head);
    forall x | x in r ensures x in o.rank && x in linked {
      RingIsRanked(o, h, linked, es, r, IndexOf(r, x));
    }
    forall x | x in o.rank && x in linked ensures x in r {
      var t := RingOf(h, linked, x);
      RankedRingMeetsHead(o, h, linked, es, t);
      SharedRingsMeet(h, r, t, o.head);
    }
  }

  /** Every node that was on the traversed list at some moment of a run. */
  ghost function EverOnList<P>(s: State<P>, evs: seq<Event<P>>, es: seq<P>): set<P>
    requires Invariant(s, es) && CanRun(s, evs, es)
    decreases |evs|
  {
    OnList(s, es) + if evs == [] then {} else EverOnList(Next(s, evs[0], es), evs[1..], es)
  }

  /** A node gets a rank exactly when it joins the list. */
  lemma RanksTheJoining<P>(s: State<P>, ev: Event<P>, es: seq<P>)
    requires Invariant(s, es) && Readers.Enabled(s, ev)
    ensures Next(s, ev, es).o.rank.Keys == s.o.rank.Keys + OnList(Next(s, ev, es), es)
  {
    var v := Next(s, ev, es);
    RankedLinkedIsList(v, es);
    RankGrowsByLinked(s, ev, es);
  }

  lemma RankGrowsByLinked<P>(s: State<P>, ev: Event<P>, es: seq<P>)
    requires Invariant(s, es) && Readers.Enabled(s, ev)
    ensures var v := Next(s, ev, es);
      s.o.rank.Keys <= v.o.rank.Keys <= s.o.rank.Keys + v.m.linked
  {
  }

  lemma {:induction false} RanksEverOnList<P>(s: State<P>, evs: seq<Event<P>>, es: seq<P>)
    requires Invariant(s, es) && CanRun(s, evs, es)
    ensures Run(s, evs, es).o.rank.Keys == s.o.rank.Keys + EverOnList(s, evs, es)
    decreases |evs|
  {
    RankedLinkedIsList(s, es);
    if evs != [] {
      RanksTheJoining(s, evs[0], es);
      RanksEverOnList(Next(s, evs[0], es), evs[1..], es);
    }
  }

  /** So the history variable of the model says what it is meant to: it ranks the nodes that were on the
      traversed list since the traversal began, and no others. */
  lemma RankIsHistory<P>(m: Shared<P>, head: P, es: seq<P>, evs: seq<Event<P>>)
    requires CanStart(m, head, es)
    ensures CanRun(Start(m, head, es), evs, es) ==>
      Run(Start(m, head, es), evs, es).o.rank.Keys == EverOnList(Start(m, head, es), evs, es)
  {
    var s := Start(m, head, es);
    if CanRun(s, evs, es) {
      RanksEverOnList(s, evs, es);
      RankedLinkedIsList(s, es);
      SeesBase(m, head, es);
      assert s.o.rank.Keys <= m.linked;
    }
  }

  lemma ReaderIsSafe<P>(v: State<P>, es: seq<P>)
    requires Invariant(v, es)
    ensures v.t.at in v.m.heap && v.m.heap[v.t.at].next in v.m.heap
    ensures v.m.writer.Adding? ==> v.m.writer.added !in v.t.visited + [v.t.at, v.m.heap[v.t.at].next]
    ensures Distinct(v.t.visited) && Elements(v.t.visited) <= v.o.rank.Keys - {v.o.head}
  {
    NextsUnchanged(v, es, v.t.at);
    NextsUnchanged(v, es, v.m.heap[v.t.at].next);
    VisitedFits(v.o, v.t, v.m.linked, es);
  }

  /** A traversal at any moment of any run, from any start: the node that the reader stands on and the
      one it goes to next are initialised nodes, and neither it nor any visited one is a node whose add is
      under way; it has visited nothing twice, and nothing but entries that were on the traversed list at
      some moment since it began: entries of the start, or entries added since. */
  lemma TraversalIsSafe<P>(m: Shared<P>, head: P, es: seq<P>, evs: seq<Event<P>>)
    requires CanStart(m, head, es)
    ensures CanRun(Start(m, head, es), evs, es) ==>
      var s := Start(m, head, es);
      var v := Run(s, evs, es);
      && v.t.at in v.m.heap && v.m.heap[v.t.at].next in v.m.heap
      && (v.m.writer.Adding? ==> v.m.writer.added !in v.t.visited + [v.t.at, v.m.heap[v.t.at].next])
      && Distinct(v.t.visited)
      && Elements(v.t.visited) <= EverOnList(s, evs, es) - {head}
      && Elements(v.t.visited) <= Elements(es) + Pending(m.writer) + AddedBy(evs)
  {
    var s := Start(m, head, es);
    if CanRun(s, evs, es) {
      var v := Run(s, evs, es);
      ReaderIsSafe(v, es);
      RankIsHistory(m, head, es, evs);
      RunKnows(s, evs, es);
      KnownAtStart(m, head, es);
      assert v.o.rank.Keys <= Known(v) && Known(s) <= Elements(es) + {head} + Pending(m.writer);
    }
  }

  /** The reader comes back: it reads at most one link for the head and one for each entry that was ever on
      the traversed list since it began, whatever happens on other lists, and once it has read that many it
      is back. There are at most as many entries as at the start and added since. */
  lemma TraversalEnds<P>(m: Shared<P>, head: P, es: seq<P>, evs: seq<Event<P>>)
    requires CanStart(m, head, es)
    ensures CanRun(Start(m, head, es), evs, es) ==>
      var ever := EverOnList(Start(m, head, es), evs, es);
      && Reads(evs) <= |ever| <= |es| + |Pending(m.writer)| + Adds(evs) + 1
      && (Reads(evs) == |ever| ==> Run(Start(m, head, es), evs, es).t.back)
  {
    var s := Start(m, head, es);
    if CanRun(s, evs, es) {
      var v := Run(s, evs, es);
      RunReads(s, evs, es);
      RunKnows(s, evs, es);
      KnownAtStart(m, head, es);
      VisitedFits(v.o, v.t, v.m.linked, es);
      SmallerSet(v.o.rank.Keys, Known(v));
      RankIsHistory(m, head, es, evs);
    }
  }

  /** A traversal that is back at the head has visited each initial entry that is still linked exactly
      once, in the order of the list. */
  lemma TraversalVisitsKept<P>(m: Shared<P>, head: P, es: seq<P>, evs: seq<Event<P>>)
    requires CanStart(m, head, es)
    ensures CanRun(Start(m, head, es), evs, es) ==>
      var v := Run(Start(m, head, es), evs, es);
      var kept := Elements(es) * v.m.linked;
      v.t.back ==> Distinct(v.t.visited) && Filter(v.t.visited, kept) == Filter(es, kept)
  {
    var s := Start(m, head, es);
    if CanRun(s, evs, es) && Run(s, evs, es).t.back {
      var v := Run(s, evs, es);
      VisitedKept(v.o, v.t, v.m.linked, es);
      VisitedFits(v.o, v.t, v.m.linked, es);
    }
  }

  lemma {:induction false} RunSplits<P>(s: State<P>, a: seq<Event<P>>, b: seq<Event<P>>, es: seq<P>)
    requires Invariant(s, es) && CanRun(s, a + b, es)
    ensures CanRun(s, a, es) && CanRun(Run(s, a, es), b, es)
    ensures Run(Run(s, a, es), b, es) == Run(s, a + b, es)
    decreases |a|
  {
    if a == [] {
      assert a + b == b;
    } else {
      assert (a + b)[1..] == a[1..] + b;
      RunSplits(Next(s, a[0], es), a[1..], b, es);
    }
  }

  lemma {:induction false} StaysUnlinked<P>(s: State<P>, evs: seq<Event<P>>, es: seq<P>, x: P)
    requires Invariant(s, es) && CanRun(s, evs, es) && x in s.o.rank
    ensures x in Run(s, evs, es).o.rank
    ensures x !in s.m.linked ==> x !in Run(s, evs, es).m.linked
    decreases |evs|
  {
    if evs != [] {
      StaysUnlinked(Next(s, evs[0], es), evs[1..], es, x);
    }
  }

  /** An entry that is still linked at the end was linked all the time: once deleted, it stays so. */
  lemma KeptThroughout<P>(s: State<P>, a: seq<Event<P>>, b: seq<Event<P>>, es: seq<P>, x: P)
    requires Invariant(s, es) && CanRun(s, a + b, es) && x in s.o.rank
    ensures CanRun(s, a, es)
    ensures x in Run(s, a + b, es).m.linked ==> x in Run(s, a, es).m.linked
  {
    RunSplits(s, a, b, es);
    StaysUnlinked(s, a, es, x);
    StaysUnlinked(Run(s, a, es), b, es, x);
  }
}
