/** The loop of `main`: wait for events and hand them to `lt` or to `et`. */
module MainLoop {
  import opened Calls
  import opened Connections
  import opened EventLoop
  import opened Service
  import opened Sockets
  import opened Unread

  /** What holds between the rounds of the main loop. */
  ghost predicate Serving(k: Kernel, mode: Mode)
    reads k
  {
    Handling(k, mode) && forall fd :: fd in k.conns ==> k.conns[fd].NotStranded()
  }

  /** A client waits to be accepted, and no edge will announce it. */
  ghost predicate ClientStranded(k: Kernel)
    reads k
  {
    k.accepted < k.arrived && !k.ListenEdge()
  }

  /** The network does not act, and no client is waiting to be noticed. */
  ghost predicate Quiet(k: Kernel)
    reads k
  {
    k.traffic == 0 && !k.ListenEdge()
  }

  /** The connections after `epoll_wait`: what was ready is reported, and what lost its edge too. */
  ghost predicate Polled(found: Conns, conns: Conns, events: seq<Event>) {
    && conns.Keys == found.Keys
    && forall fd :: fd in found ==> conns[fd] == found[fd].(edge := found[fd].edge && !Mentioned(events, fd))
  }

  /** So nobody is stranded who is not reported. */
  lemma PollStrandsNobody(start: Conns, found: Conns, conns: Conns, events: seq<Event>, listenfd: int, edge: bool)
    requires AllGrew(start, found) && Polled(found, conns, events)
    requires forall fd :: fd in start ==> start[fd].NotStranded()
    requires forall i :: 0 <= i < |events| ==> WasReady(events[i], found, listenfd, edge)
    ensures NoneStranded(conns, events, 0) && AllReportable(conns, listenfd, events)
  {
    forall fd | fd in conns ensures conns[fd].NotStranded() || Reported(events, 0, fd) {
      assert GrewAt(start, found, fd);
      GrownConserves(start[fd], found[fd]);
      if i :| 0 <= i < |events| && events[i].fd == fd {
        assert WasReady(events[i], found, listenfd, edge);
      }
    }
    forall i | 0 <= i < |events| ensures Reportable(conns, listenfd, events[i]) {
      assert WasReady(events[i], found, listenfd, edge);
    }
  }

  lemma PollKeeps(start: Conns, found: Conns, conns: Conns, closed: seq<Conn>, events: seq<Event>, mode: Mode)
    requires AllGrew(start, found) && Polled(found, conns, events) && AllRegistered(start, mode)
    ensures AllKept(start, conns, closed, |closed|) && AllRegistered(conns, mode)
  {
    AllGrewModes(start, found, mode);
    forall f | f in start ensures KeptAt(start, conns, closed, |closed|, f) {
      assert GrewAt(start, found, f);
      GrownIsLater(start[f], found[f]);
    }
  }

  /** In a quiet network the poll leaves as much to receive as there was, and the batch less; unless nothing
      is reported, because there is nothing to receive. */
  lemma QuietRound(start: Conns, reported: Conns, conns: Conns, events: seq<Event>,
                   listenfd: int, edge: bool, mode: Mode)
    requires Polled(start, reported, events) && LessAfter(reported, conns, events, |events|)
    requires mode.EdgeTriggered? || mode.LevelTriggered?
    requires AllRegistered(start, mode) && forall fd :: fd in start ==> start[fd].NotStranded()
    requires forall i :: 0 <= i < |events| ==> WasReady(events[i], start, listenfd, edge) && events[i].fd != listenfd
    requires events == [] ==> forall fd :: fd in start ==> !start[fd].Ready()
    ensures TotalLoad(conns) < TotalLoad(start) || TotalLoad(conns) == 0
  {
    assert NoMore(start, reported);
    TotalNoMore(start, reported);
    if events == [] {
      assert forall fd :: fd in reported ==> !start[fd].Ready() && !reported[fd].Readable();
      NothingReadable(reported);
      TotalNoMore(reported, conns);
    } else {
      assert WasReady(events[0], start, listenfd, edge);
      TotalLess(reported, conns, events[0].fd);
    }
  }

  /** The handler that is in use, and what a round of the main loop needs of it. */
  method Handle(k: Kernel, events: seq<Event>, edgeTriggered: bool) returns (ghost parts: seq<seq<Call>>)
    requires Handling(k, ModeOf(edgeTriggered)) && Reports(k, events)
    modifies k`conns, k`closed, k`arrived, k`traffic, k`accepted, k`refusals, k`calls
    ensures Serving(k, ModeOf(edgeTriggered)) && TrafficSpent(old(k.arrived), k.arrived, old(k.traffic), k.traffic)
    ensures old(k.closed) <= k.closed && AllKept(old(k.conns), k.conns, k.closed, |old(k.closed)|)
    ensures BatchCalls(ModeOf(edgeTriggered), k.listenfd, events, parts) && k.calls == old(k.calls) + Flatten(parts)
    ensures Accepts(k.calls) == Accepts(old(k.calls)) + if Mentioned(events, k.listenfd) then 1 else 0
    ensures Mentioned(events, k.listenfd) ==>
      TookClient(old(k.accepted), k.accepted, old(k.arrived), k.refusals != old(k.refusals))
    ensures !Mentioned(events, k.listenfd) ==> k.accepted == old(k.accepted)
    ensures !Mentioned(events, k.listenfd) && k.traffic == old(k.traffic) ==>
      LessAfter(old(k.conns), k.conns, events, |events|)
  {
    if edgeTriggered {
      parts := Et(k, events);
    } else {
      parts := Lt(k, events);
    }
    assert events[..|events|] == events;
    assert Mentioned(events, k.listenfd) <==> Listening(events, |events|, k.listenfd);
    BatchAccepts(ModeOf(edgeTriggered), k.listenfd, events, parts);
    AcceptsTogether(old(k.calls), Flatten(parts));
  }

  /** Waiting for events: no connection is lost by it, and the handlers may rely on what it reports. */
  method Wait(k: Kernel, mode: Mode) returns (events: seq<Event>, ghost found: Conns, ghost edge: bool)
    requires Serving(k, mode)
    modifies k`conns, k`arrived, k`traffic, k`noticed, k`waits, k`calls
    ensures Handling(k, mode) && Reports(k, events)
    ensures k.waits == old(k.waits) + 1 && k.calls == old(k.calls) + [WaitCall(events)]
    ensures AllKept(old(k.conns), k.conns, k.closed, |k.closed|)
    ensures TrafficSpent(old(k.arrived), k.arrived, old(k.traffic), k.traffic)
    ensures (edge <==> old(k.noticed) < k.arrived) && (Mentioned(events, k.listenfd) ==> edge)
    ensures k.noticed == if Mentioned(events, k.listenfd) then k.arrived else old(k.noticed)
    ensures k.traffic == old(k.traffic) ==> found == old(k.conns)
    ensures Polled(found, k.conns, events)
    ensures forall i :: 0 <= i < |events| ==> WasReady(events[i], found, k.listenfd, edge)
    ensures events == [] ==> forall fd :: fd in found ==> !found[fd].Ready()
  {
    events, found, edge := k.EpollWait();
    PollStrandsNobody(old(k.conns), found, k.conns, events, k.listenfd, edge);
    PollKeeps(old(k.conns), found, k.conns, k.closed, events, mode);
    ListenerIsNoConnection(k);
    if i :| 0 <= i < |events| && events[i].fd == k.listenfd {
      assert WasReady(events[i], found, k.listenfd, edge);
    }
  }

  /** One round of the main loop. No connection is lost. When the network is quiet and no client is waiting
      to be noticed, there is less to receive after it, until there is nothing. If the edge of the listening
      socket was `taken`, when `waited` clients were waiting, then one `accept` was made, and a client is
      stranded exactly if more of them were waiting than it took and none has arrived `since`. */
  method Round(k: Kernel, edgeTriggered: bool)
    returns (ghost events: seq<Event>, ghost parts: seq<seq<Call>>,
             ghost taken: bool, ghost waited: nat, ghost since: nat)
    requires Serving(k, ModeOf(edgeTriggered))
    modifies k`conns, k`closed, k`arrived, k`traffic, k`accepted, k`refusals, k`calls, k`noticed, k`waits
    ensures Serving(k, ModeOf(edgeTriggered)) && k.waits == old(k.waits) + 1
    ensures old(k.closed) <= k.closed && AllKept(old(k.conns), k.conns, k.closed, |old(k.closed)|)
    ensures k.traffic <= old(k.traffic) && old(k.arrived) <= k.arrived
    ensures BatchCalls(ModeOf(edgeTriggered), k.listenfd, events, parts)
    ensures k.calls == old(k.calls) + [WaitCall(events)] + Flatten(parts)
    ensures Accepts(k.calls) == Accepts(old(k.calls)) + if taken then 1 else 0
    ensures old(Quiet(k)) ==> Quiet(k)
    ensures old(Quiet(k)) ==> TotalLoad(k.conns) < TotalLoad(old(k.conns)) || TotalLoad(k.conns) == 0
    ensures taken ==> k.noticed == old(k.accepted) + waited && k.arrived == k.noticed + since
    ensures taken ==> TookClient(old(k.accepted), k.accepted, old(k.accepted) + waited, k.refusals != old(k.refusals))
    ensures taken ==> (ClientStranded(k) <==> since == 0 && k.accepted - old(k.accepted) < waited)
    ensures !taken ==> k.noticed == old(k.noticed) && k.accepted == old(k.accepted)
    ensures !taken ==> (ClientStranded(k) <==> old(ClientStranded(k)) && k.arrived == old(k.arrived))
  {
    var reports;
    ghost var found, edge;
    reports, found, edge := Wait(k, ModeOf(edgeTriggered));
    events := reports;
    ghost var reported, before := k.conns, k.arrived;
    taken, waited := Mentioned(events, k.listenfd), k.arrived - k.accepted;
    NoAccepts([WaitCall(events)]);
    AcceptsTogether(old(k.calls), [WaitCall(events)]);
    parts := Handle(k, reports, edgeTriggered);
    since := k.arrived - before;
    AllKeptTwice(old(k.conns), reported, k.conns, old(k.closed), k.closed, |old(k.closed)|);
    if old(Quiet(k)) {
      QuietRound(old(k.conns), reported, k.conns, events, k.listenfd, edge, ModeOf(edgeTriggered));
    }
  }

  /** The main loop for any number of rounds, with either handler, from a server without connections. Every
      connection that was ever accepted is open or was closed at its end. */
  method Serve(k: Kernel, rounds: nat, edgeTriggered: bool)
    requires k.Valid() && k.conns == map[] && k.closed == []
    modifies k`conns, k`closed, k`arrived, k`traffic, k`accepted, k`refusals, k`calls, k`noticed, k`waits
    ensures Serving(k, ModeOf(edgeTriggered)) && k.waits == old(k.waits) + rounds
    ensures forall id: nat :: id < k.accepted ==> IsThere(k.conns, k.closed, id)
    ensures edgeTriggered ==> forall fd :: fd in k.conns && !k.conns[fd].edge ==>
      Received(k.conns[fd].printed) == k.conns[fd].sent
  {
    for round := 0 to rounds
      invariant Serving(k, ModeOf(edgeTriggered)) && k.waits == old(k.waits) + round
    {
      ghost var events, parts, taken, waited, since := Round(k, edgeTriggered);
    }
    EveryNumberIsThere(k.conns, k.closed, k.accepted);
    forall fd | edgeTriggered && fd in k.conns && !k.conns[fd].edge
      ensures Received(k.conns[fd].printed) == k.conns[fd].sent
    {
      assert GoodAt(k.conns, k.others, -1, fd);
      AllReceivedUnlessEdge(k.conns[fd]);
    }
  }

  /** Once the network is quiet, as many rounds as there is to receive are enough for either handler to
      receive it all: every connection that was open is still open, was received completely, and has neither
      ended nor failed; or it was closed at its end. */
  method ServeUntilIdle(k: Kernel, rounds: nat, edgeTriggered: bool)
    requires Serving(k, ModeOf(edgeTriggered)) && Quiet(k) && TotalLoad(k.conns) <= rounds
    modifies k`conns, k`closed, k`arrived, k`traffic, k`accepted, k`refusals, k`calls, k`noticed, k`waits
    ensures Serving(k, ModeOf(edgeTriggered)) && k.waits == old(k.waits) + rounds
    ensures old(k.closed) <= k.closed && AllKept(old(k.conns), k.conns, k.closed, |old(k.closed)|)
    ensures forall fd :: fd in k.conns ==> var c := k.conns[fd];
      Received(c.printed) == c.sent && !c.hungUp && !c.failed
  {
    AllGrewSame(k.conns);
    AllGrewIsKept(k.conns, k.conns, k.closed);
    for round := 0 to rounds
      invariant Serving(k, ModeOf(edgeTriggered)) && Quiet(k) && k.waits == old(k.waits) + round
      invariant TotalLoad(k.conns) <= rounds - round
      invariant old(k.closed) <= k.closed && AllKept(old(k.conns), k.conns, k.closed, |old(k.closed)|)
    {
      ghost var conns, closed := k.conns, k.closed;
      ghost var events, parts, taken, waited, since := Round(k, edgeTriggered);
      AllKeptTwice(old(k.conns), conns, k.conns, closed, k.closed, |old(k.closed)|);
    }
    forall fd | fd in k.conns
      ensures var c := k.conns[fd]; Received(c.printed) == c.sent && !c.hungUp && !c.failed
    {
      assert GoodAt(k.conns, k.others, -1, fd);
      NothingLeft(k.conns, fd);
      ReceivedIsPrefix(k.conns[fd]);
    }
  }
}
