/** How much there is to receive on all connections together. */
module Unread {
  import opened Connections

  ghost function TotalLoad(conns: Conns): nat
    decreases |conns|
  {
    if exists fd :: fd in conns then
      var fd :| fd in conns;
      conns[fd].Load() + TotalLoad(conns - {fd})
    else
      0
  }

  /** Any connection may be counted first. */
  lemma {:induction false} CountFirst(conns: Conns, fd: int)
    requires fd in conns
    ensures TotalLoad(conns) == conns[fd].Load() + TotalLoad(conns - {fd})
    decreases |conns|
  {
    var first :| first in conns && TotalLoad(conns) == conns[first].Load() + TotalLoad(conns - {first});
    if first != fd {
      CountFirst(conns - {first}, fd);
      CountFirst(conns - {fd}, first);
      assert conns - {first} - {fd} == conns - {fd} - {first};
    }
  }

  /** No connection is new, and on none is there more to receive. */
  ghost predicate NoMore(before: Conns, after: Conns) {
    forall fd :: fd in after ==> fd in before && after[fd].Load() <= before[fd].Load()
  }

  lemma {:induction false} TotalNoMore(before: Conns, after: Conns)
    requires NoMore(before, after)
    ensures TotalLoad(after) <= TotalLoad(before)
    decreases |after|
  {
    if fd :| fd in after {
      CountFirst(before, fd);
      CountFirst(after, fd);
      TotalNoMore(before - {fd}, after - {fd});
    }
  }

  lemma TotalLess(before: Conns, after: Conns, fd: int)
    requires NoMore(before, after) && fd in before && 0 < before[fd].Load()
    requires fd in after ==> after[fd].Load() < before[fd].Load()
    ensures TotalLoad(after) < TotalLoad(before)
  {
    CountFirst(before, fd);
    if fd in after {
      CountFirst(after, fd);
    } else {
      assert after - {fd} == after;
    }
    TotalNoMore(before - {fd}, after - {fd});
  }

  lemma NothingLeft(conns: Conns, fd: int)
    requires TotalLoad(conns) == 0 && fd in conns
    ensures !conns[fd].Readable()
  {
    CountFirst(conns, fd);
  }

  lemma {:induction false} NothingReadable(conns: Conns)
    requires forall fd :: fd in conns ==> !conns[fd].Readable()
    ensures TotalLoad(conns) == 0
    decreases |conns|
  {
    if fd :| fd in conns {
      CountFirst(conns, fd);
      NothingReadable(conns - {fd});
    }
  }

  /** After `i` events in a quiet network, every one of them has made less to receive on its connection. */
  ghost predicate LessAfter(start: Conns, conns: Conns, events: seq<Event>, i: nat)
    requires i <= |events|
  {
    && NoMore(start, conns)
    && forall j :: 0 <= j < i && events[j].readable && events[j].fd in conns ==>
         conns[events[j].fd].Load() < start[events[j].fd].Load()
  }

  lemma LessAfterNext(start: Conns, conns: Conns, conns': Conns, events: seq<Event>, i: nat)
    requires i < |events| && DistinctEvents(events) && LessAfter(start, conns, events, i)
    requires conns'.Keys <= conns.Keys && forall f :: f in conns' && f != events[i].fd ==> conns'[f] == conns[f]
    requires events[i].fd in conns' ==> conns'[events[i].fd].Load() <= conns[events[i].fd].Load()
    requires events[i].fd in conns' && events[i].readable ==> conns'[events[i].fd].Load() < conns[events[i].fd].Load()
    ensures LessAfter(start, conns', events, i + 1)
  {
  }
}
