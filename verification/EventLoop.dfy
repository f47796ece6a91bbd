/** The event handlers `lt` and `et`. */
module EventLoop {
  import opened Calls
  import opened Connections
  import opened Service
  import opened Sockets
  import opened Unread

  function ModeOf(edgeTriggered: bool): Mode {
    if edgeTriggered then EdgeTriggered else LevelTriggered
  }

  /** What holds whenever a handler is between two system calls. */
  ghost predicate Handling(k: Kernel, mode: Mode)
    reads k
  {
    k.Valid() && AllComplete(k.closed) && AllRegistered(k.conns, mode)
  }

  /** The network may have acted: it has fewer acts left then, and clients may have arrived. */
  ghost predicate TrafficSpent(arrived: nat, arrived': nat, traffic: nat, traffic': nat) {
    traffic' <= traffic && arrived <= arrived' && (traffic' == traffic ==> arrived' == arrived)
  }

  /** `memset(buf, 0, ...)`. */
  method Clear(buf: array<Byte>)
    modifies buf
    ensures forall i :: 0 <= i < buf.Length ==> buf[i] == 0
  {
    forall i | 0 <= i < buf.Length {
      buf[i] := 0;
    }
  }

  /** `recv` into a cleared buffer and, when bytes came, `printf`. The network does not act in between. */
  method RecvAndPrint(k: Kernel, sockfd: int, buf: array<Byte>) returns (ret: int, errno: Error)
    requires k.Valid() && buf.Length == BUFFER_SIZE && forall i :: 0 <= i < BUFFER_SIZE ==> buf[i] == 0
    requires sockfd in k.conns ==> k.conns[sockfd].nonblocking && k.conns[sockfd].Conserved()
    modifies k`conns, k`calls, buf
    ensures k.Valid() && k.conns.Keys == old(k.conns).Keys
    ensures k.calls == old(k.calls) + Reading(sockfd, ret, errno)
    ensures OthersSame(old(k.conns), k.conns, sockfd)
    ensures sockfd !in k.conns ==> ret < 0 && errno == Other
    ensures sockfd in k.conns ==>
      ReadStep(old(k.conns)[sockfd], k.conns[sockfd], ret, errno, buf[..], true)
  {
    ghost var before := k.conns;
    ret, errno := k.Recv(sockfd, buf, BUFFER_SIZE - 1);
    if 0 < ret {
      ghost var c, bytes := before[sockfd], buf[..];
      ghost var d := c.(queue := c.queue[ret..], printed := c.printed + [Message(ret, bytes)]);
      assert bytes[..ret] == buf[..ret];
      ReadStepPrints(c, c, d, ret, errno, bytes, true);
      k.Print(sockfd, ret, buf);
      assert k.conns[sockfd] == d;
    } else if sockfd in before {
      ReadStepStops(before[sockfd], before[sockfd], ret, errno, buf[..], true);
      assert k.conns[sockfd] == AfterNoBytes(before[sockfd], ret, errno);
    }
  }

  /** The network acts first, and then one `recv` is a step from what it left. */
  lemma ReadStepAfter(c: Conn, seen: Conn, d: Conn, ret: int, errno: Error, buf: seq<Byte>, quiet: bool)
    requires Grown(c, seen) && ReadStep(seen, d, ret, errno, buf, true) && (quiet ==> seen == c)
    ensures ReadStep(c, d, ret, errno, buf, quiet)
  {
    if ret <= 0 {
      GrownTwice(c, seen, d.(cut := c.cut));
    }
  }

  /** `memset`, `recv` and, when bytes came, `printf`. */
  method ReadOnce(k: Kernel, sockfd: int, buf: array<Byte>) returns (ret: int, errno: Error)
    requires k.Valid() && buf.Length == BUFFER_SIZE
    requires sockfd in k.conns ==> !k.conns[sockfd].mode.Unregistered?
    modifies k`conns, k`arrived, k`traffic, k`calls, buf
    ensures k.Valid() && k.conns.Keys == old(k.conns).Keys
    ensures TrafficSpent(old(k.arrived), k.arrived, old(k.traffic), k.traffic)
    ensures k.calls == old(k.calls) + Reading(sockfd, ret, errno)
    ensures OthersGrew(old(k.conns), k.conns, sockfd)
    ensures k.traffic == old(k.traffic) ==> OthersSame(old(k.conns), k.conns, sockfd)
    ensures sockfd !in k.conns ==> ret < 0 && errno == Other
    ensures sockfd in k.conns ==> ReadStep(old(k.conns)[sockfd], k.conns[sockfd], ret, errno, buf[..],
                                           k.traffic == old(k.traffic))
  {
    Clear(buf);
    k.Network();
    ghost var found := k.conns;
    assert sockfd in found ==> GrewAt(old(k.conns), found, sockfd) && GoodAt(found, k.others, -1, sockfd);
    ret, errno := RecvAndPrint(k, sockfd, buf);
    AllGrewOthers(old(k.conns), found, sockfd);
    OthersKept(found, k.conns, sockfd);
    OthersGrewTwice(old(k.conns), found, k.conns, sockfd);
    if sockfd in found {
      ReadStepAfter(old(k.conns)[sockfd], found[sockfd], k.conns[sockfd], ret, errno, buf[..],
                    k.traffic == old(k.traffic));
    }
  }

  /** Every connection of a kernel has a descriptor of its own, apart from the listening socket. */
  lemma ListenerIsNoConnection(k: Kernel)
    requires k.Valid()
    ensures k.listenfd !in k.conns
  {
    assert k.listenfd in k.conns ==> GoodAt(k.conns, k.others, -1, k.listenfd);
  }

  /** The branch of both handlers for the listening socket: `accept` once, and `addfd`. */
  method AcceptOne(k: Kernel, e: Event, edgeTriggered: bool) returns (ghost part: seq<Call>)
    requires Handling(k, ModeOf(edgeTriggered)) && e.fd == k.listenfd
    modifies k`conns, k`arrived, k`traffic, k`accepted, k`refusals, k`calls
    ensures AcceptCalls(part, edgeTriggered) && k.calls == old(k.calls) + part
    ensures Handling(k, ModeOf(edgeTriggered)) && TrafficSpent(old(k.arrived), k.arrived, old(k.traffic), k.traffic)
    ensures EventStep(ModeOf(edgeTriggered), k.listenfd, old(k.conns), k.conns, k.closed, k.closed, e)
    ensures TookClient(old(k.accepted), k.accepted, k.arrived, k.refusals != old(k.refusals))
  {
    ListenerIsNoConnection(k);
    k.Network();
    ghost var found := k.conns;
    AllGrewModes(old(k.conns), found, ModeOf(edgeTriggered));
    part := AcceptAndAdd(k, edgeTriggered);
    AcceptIsStep(ModeOf(edgeTriggered), k.listenfd, old(k.conns), found, k.conns, k.closed, e);
  }

  /** `accept` and `addfd`. The network does not act in between. */
  method AcceptAndAdd(k: Kernel, edgeTriggered: bool) returns (ghost part: seq<Call>)
    requires Handling(k, ModeOf(edgeTriggered))
    modifies k`conns, k`accepted, k`refusals, k`calls
    ensures AcceptCalls(part, edgeTriggered) && k.calls == old(k.calls) + part
    ensures Handling(k, ModeOf(edgeTriggered))
    ensures forall f :: f in old(k.conns) ==> f in k.conns && k.conns[f] == old(k.conns)[f]
    ensures forall f :: f in k.conns && f !in old(k.conns) ==> k.conns[f].NotStranded()
    ensures TookClient(old(k.accepted), k.accepted, k.arrived, k.refusals != old(k.refusals))
  {
    var connfd := k.Accept();
    k.AddFd(connfd, edgeTriggered);
    part := [AcceptCall(connfd), AddCall(connfd, edgeTriggered)];
  }

  /** Closing a connection that the handler has seen at its end. */
  method CloseFinished(k: Kernel, fd: int)
    requires k.Valid() && AllComplete(k.closed)
    requires fd in k.conns ==> k.conns[fd].Finished()
    modifies k`conns, k`closed, k`calls
    ensures k.Valid() && AllComplete(k.closed) && k.calls == old(k.calls) + [CloseCall(fd)]
    ensures k.conns == old(k.conns) - {fd}
    ensures k.closed == old(k.closed) + if fd in old(k.conns) then [old(k.conns)[fd]] else []
  {
    if fd in k.conns {
      assert GoodAt(k.conns, k.others, -1, fd);
      FinishedIsComplete(k.conns[fd]);
    }
    k.Close(fd);
  }

  /** The `recv` in the loop of `et`, and what it says of the connection. */
  method ReadDraining(k: Kernel, sockfd: int, buf: array<Byte>, ghost start: Conns, ghost n: nat)
    returns (ret: int, errno: Error)
    requires Handling(k, EdgeTriggered) && buf.Length == BUFFER_SIZE
    requires DrainingFrom(start, k.conns, k.closed, n, sockfd)
    modifies k`conns, k`arrived, k`traffic, k`calls, buf
    ensures Handling(k, EdgeTriggered) && k.conns.Keys == old(k.conns).Keys
    ensures TrafficSpent(old(k.arrived), k.arrived, old(k.traffic), k.traffic)
    ensures k.calls == old(k.calls) + Reading(sockfd, ret, errno)
    ensures DrainingFrom(start, k.conns, k.closed, n, sockfd)
    ensures k.traffic == old(k.traffic) ==> OthersSame(old(k.conns), k.conns, sockfd)
    ensures sockfd !in k.conns ==> ret < 0 && errno == Other
    ensures sockfd in k.conns && ret < 0 && errno == Again ==> !k.conns[sockfd].Readable()
    ensures sockfd in k.conns && ret <= 0 && (ret < 0 ==> errno != Again) ==> k.conns[sockfd].Finished()
    ensures sockfd in k.conns && 0 < ret && k.traffic == old(k.traffic) ==>
      |k.conns[sockfd].queue| < |old(k.conns)[sockfd].queue|
  {
    ret, errno := ReadOnce(k, sockfd, buf);
    ModesStay(old(k.conns), k.conns, sockfd, EdgeTriggered);
    DrainingGoesOn(start, old(k.conns), k.conns, k.closed, n, sockfd);
  }

  /** The `close` in the loop of `et`. The descriptor may have been closed before. */
  method CloseDrained(k: Kernel, sockfd: int, ghost start: Conns, ghost n: nat)
    requires Handling(k, EdgeTriggered) && DrainingFrom(start, k.conns, k.closed, n, sockfd)
    requires sockfd in k.conns ==> k.conns[sockfd].Finished()
    modifies k`conns, k`closed, k`calls
    ensures Handling(k, EdgeTriggered) && DrainingFrom(start, k.conns, k.closed, n, sockfd)
    ensures k.conns == old(k.conns) - {sockfd} && old(k.closed) <= k.closed
    ensures k.calls == old(k.calls) + [CloseCall(sockfd)]
  {
    CloseFinished(k, sockfd);
    DrainingCloses(start, old(k.conns), old(k.closed), k.closed, n, sockfd);
  }

  /** One turn of the loop in `et`: it goes on unless the connection is seen with nothing to receive or an
      error was returned. */
  method DrainOnce(k: Kernel, sockfd: int, buf: array<Byte>, ghost start: Conns, ghost n: nat)
    returns (done: bool, ghost turn: seq<Call>)
    requires Handling(k, EdgeTriggered) && buf.Length == BUFFER_SIZE
    requires DrainingFrom(start, k.conns, k.closed, n, sockfd)
    modifies k`conns, k`closed, k`arrived, k`traffic, k`calls, buf
    ensures Handling(k, EdgeTriggered) && TrafficSpent(old(k.arrived), k.arrived, old(k.traffic), k.traffic)
    ensures k.calls == old(k.calls) + turn && if done then Ends(turn, sockfd) else GoesOn(turn, sockfd)
    ensures old(k.closed) <= k.closed && DrainingFrom(start, k.conns, k.closed, n, sockfd)
    ensures k.conns.Keys <= old(k.conns).Keys
    ensures k.traffic == old(k.traffic) ==> OthersSame(old(k.conns), k.conns, sockfd)
    ensures done && sockfd in k.conns ==> !k.conns[sockfd].Readable()
    ensures sockfd !in old(k.conns) ==> done
    ensures !done && sockfd in k.conns && k.traffic == old(k.traffic) ==>
      |k.conns[sockfd].queue| < |old(k.conns)[sockfd].queue|
  {
    var ret, errno := ReadDraining(k, sockfd, buf, start, n);
    turn := Reading(sockfd, ret, errno);
    ReadingTurns(sockfd, ret, errno);
    done := ret < 0;
    if ret < 0 && errno == Again {
      return;
    } else if ret <= 0 {
      CloseDrained(k, sockfd, start, n);
      turn := turn + [CloseCall(sockfd)];
    }
  }

  /** `recv` until there is nothing left: what the edge-triggered handler does with a readable socket. It
      stays open exactly when it is seen with nothing to receive, neither bytes nor the end nor an error. */
  method Drain(k: Kernel, sockfd: int, buf: array<Byte>) returns (ghost part: seq<Call>)
    requires Handling(k, EdgeTriggered) && buf.Length == BUFFER_SIZE
    modifies k`conns, k`closed, k`arrived, k`traffic, k`calls, buf
    ensures DrainCalls(part, sockfd) && k.calls == old(k.calls) + part
    ensures Handling(k, EdgeTriggered) && TrafficSpent(old(k.arrived), k.arrived, old(k.traffic), k.traffic)
    ensures old(k.closed) <= k.closed && k.conns.Keys <= old(k.conns).Keys
    ensures OthersGrew(old(k.conns), k.conns, sockfd)
    ensures k.traffic == old(k.traffic) ==> OthersSame(old(k.conns), k.conns, sockfd)
    ensures sockfd in k.conns ==> !k.conns[sockfd].Readable()
    ensures sockfd in old(k.conns) ==> DrainedAt(old(k.conns), k.conns, k.closed, |old(k.closed)|, sockfd)
  {
    DrainingStart(k.conns, k.closed, sockfd);
    var done := false;
    ghost var turns: seq<seq<Call>> := [];
    while !done
      invariant k.calls == old(k.calls) + Flatten(turns)
      invariant if done then DrainTurns(turns, sockfd) else AllGoOn(turns, sockfd)
      invariant Handling(k, EdgeTriggered) && TrafficSpent(old(k.arrived), k.arrived, old(k.traffic), k.traffic)
      invariant old(k.closed) <= k.closed
      invariant DrainingFrom(old(k.conns), k.conns, k.closed, |old(k.closed)|, sockfd)
      invariant k.traffic == old(k.traffic) ==> OthersSame(old(k.conns), k.conns, sockfd)
      invariant done && sockfd in k.conns ==> !k.conns[sockfd].Readable()
      decreases !done, sockfd in k.conns, k.traffic, if sockfd in k.conns then |k.conns[sockfd].queue| else 0
    {
      ghost var conns, turn := k.conns, [];
      done, turn := DrainOnce(k, sockfd, buf, old(k.conns), |old(k.closed)|);
      OneMoreTurn(turns, turn, sockfd);
      turns := turns + [turn];
      if k.traffic == old(k.traffic) {
        OthersSameTwice(old(k.conns), conns, k.conns, sockfd);
      }
    }
    part := Flatten(turns);
    DrainingEnds(old(k.conns), k.conns, k.closed, |old(k.closed)|, sockfd, k.others);
  }

  /** The fields of a kernel at some moment. */
  datatype Moment = Moment(conns: Conns, closed: seq<Conn>, accepted: nat, arrived: nat, traffic: nat,
                           refusals: nat, calls: seq<Call>)

  ghost function Now(k: Kernel): Moment
    reads k
  {
    Moment(k.conns, k.closed, k.accepted, k.arrived, k.traffic, k.refusals, k.calls)
  }

  /** What both handlers do about one event, from `s` to `t`, with the calls `part`. */
  ghost predicate EventDone(s: Moment, t: Moment, mode: Mode, listenfd: int, e: Event, part: seq<Call>) {
    && TrafficSpent(s.arrived, t.arrived, s.traffic, t.traffic)
    && EventStep(mode, listenfd, s.conns, t.conns, s.closed, t.closed, e)
    && (if e.fd == listenfd then TookClient(s.accepted, t.accepted, t.arrived, t.refusals != s.refusals)
        else t.accepted == s.accepted && t.refusals == s.refusals)
    && (t.traffic == s.traffic && e.fd != listenfd ==> QuietStep(s.conns, t.conns, e))
    && EventCalls(mode, listenfd, e, part) && t.calls == s.calls + part
  }

  /** One event of the edge-triggered handler. */
  method EtEvent(k: Kernel, e: Event, buf: array<Byte>) returns (ghost part: seq<Call>)
    requires Handling(k, EdgeTriggered) && Reportable(k.conns, k.listenfd, e) && buf.Length == BUFFER_SIZE
    modifies k`conns, k`closed, k`arrived, k`traffic, k`accepted, k`refusals, k`calls, buf
    ensures Handling(k, EdgeTriggered) && EventDone(old(Now(k)), Now(k), EdgeTriggered, k.listenfd, e, part)
  {
    var sockfd := e.fd;
    if sockfd == k.listenfd {
      part := AcceptOne(k, e, true);
    } else if e.readable {
      part := Drain(k, sockfd, buf);
    } else {
      OthersKept(k.conns, k.conns, sockfd);
      part := [];
    }
  }

  lemma ReadSeesEnd(c: Conn, d: Conn, ret: int, errno: Error, buf: seq<Byte>, quiet: bool)
    requires c.Readable() && ReadStep(c, d, ret, errno, buf, quiet) && ret <= 0
    ensures d.Finished()
  {
    GrownIsLater(c, d.(cut := c.cut));
  }

  /** From `s` one `recv` leads to `r`, and a `close`, if no bytes came, to `t`. */
  lemma ReadOrCloseDone(s: Moment, r: Moment, t: Moment, listenfd: int, e: Event,
                        ret: int, errno: Error, buf: seq<Byte>)
    requires e.readable && e.fd != listenfd && e.fd in s.conns && s.conns[e.fd].Readable()
    requires r.conns.Keys == s.conns.Keys && OthersGrew(s.conns, r.conns, e.fd)
    requires r.traffic == s.traffic ==> OthersSame(s.conns, r.conns, e.fd)
    requires ReadStep(s.conns[e.fd], r.conns[e.fd], ret, errno, buf, r.traffic == s.traffic)
    requires TrafficSpent(s.arrived, r.arrived, s.traffic, r.traffic)
    requires t.conns == (if ret <= 0 then r.conns - {e.fd} else r.conns)
    requires t.closed == s.closed + if ret <= 0 then [r.conns[e.fd]] else []
    requires t.accepted == s.accepted && t.refusals == s.refusals && t.arrived == r.arrived && t.traffic == r.traffic
    requires t.calls == s.calls + (Reading(e.fd, ret, errno) + if ret <= 0 then [CloseCall(e.fd)] else [])
    ensures var part := Reading(e.fd, ret, errno) + if ret <= 0 then [CloseCall(e.fd)] else [];
      EventDone(s, t, LevelTriggered, listenfd, e, part)
  {
    ReadIsStep(listenfd, s.conns, r.conns, s.closed, e, ret, errno, buf, r.traffic == s.traffic);
    ReadingTurns(e.fd, ret, errno);
    assert Reading(e.fd, ret, errno) + [] == Reading(e.fd, ret, errno);
  }

  /** What the level-triggered handler does with a readable socket: one `recv`, and `close` without bytes. */
  method ReadOrClose(k: Kernel, e: Event, buf: array<Byte>) returns (ghost part: seq<Call>)
    requires Handling(k, LevelTriggered) && buf.Length == BUFFER_SIZE
    requires e.readable && e.fd != k.listenfd && e.fd in k.conns && k.conns[e.fd].Readable()
    modifies k`conns, k`closed, k`arrived, k`traffic, k`calls, buf
    ensures Handling(k, LevelTriggered) && EventDone(old(Now(k)), Now(k), LevelTriggered, k.listenfd, e, part)
  {
    var ret, errno := ReadOnce(k, e.fd, buf);
    ModesStay(old(k.conns), k.conns, e.fd, LevelTriggered);
    ghost var read := Now(k);
    part := Reading(e.fd, ret, errno);
    if ret <= 0 {
      ReadSeesEnd(old(k.conns)[e.fd], k.conns[e.fd], ret, errno, buf[..], k.traffic == old(k.traffic));
      CloseFinished(k, e.fd);
      part := part + [CloseCall(e.fd)];
    }
    ReadOrCloseDone(old(Now(k)), read, Now(k), k.listenfd, e, ret, errno, buf[..]);
  }

  /** One event of the level-triggered handler. */
  method LtEvent(k: Kernel, e: Event, buf: array<Byte>) returns (ghost part: seq<Call>)
    requires Handling(k, LevelTriggered) && Reportable(k.conns, k.listenfd, e) && buf.Length == BUFFER_SIZE
    modifies k`conns, k`closed, k`arrived, k`traffic, k`accepted, k`refusals, k`calls, buf
    ensures Handling(k, LevelTriggered) && EventDone(old(Now(k)), Now(k), LevelTriggered, k.listenfd, e, part)
  {
    if e.fd == k.listenfd {
      part := AcceptOne(k, e, false);
    } else if e.readable {
      part := ReadOrClose(k, e, buf);
    } else {
      OthersKept(k.conns, k.conns, e.fd);
      part := [];
    }
  }

  /** The listening socket was among the first `i` events. */
  ghost predicate Listening(events: seq<Event>, i: nat, listenfd: int)
    requires i <= |events|
  {
    exists j :: 0 <= j < i && events[j].fd == listenfd
  }

  /** How a batch of events changes the number of accepted clients: by one `accept` if the listening socket
      was among them, and not otherwise. */
  ghost predicate AcceptedFor(events: seq<Event>, i: nat, listenfd: int,
                              accepted: nat, accepted': nat, arrived: nat, refused: bool)
    requires i <= |events|
  {
    if Listening(events, i, listenfd) then TookClient(accepted, accepted', arrived, refused)
    else accepted' == accepted && !refused
  }

  lemma AcceptedNext(events: seq<Event>, i: nat, listenfd: int, accepted: nat, now: nat, next: nat,
                     arrived: nat, arrived': nat, refused: bool, refused': bool)
    requires i < |events| && DistinctEvents(events) && accepted <= arrived <= arrived' && now <= arrived'
    requires AcceptedFor(events, i, listenfd, accepted, now, arrived, refused)
    requires events[i].fd == listenfd && !refused ==> TookClient(now, next, arrived', refused')
    requires events[i].fd != listenfd ==> next == now && refused' == refused
    ensures AcceptedFor(events, i + 1, listenfd, accepted, next, arrived, refused')
  {
    if events[i].fd == listenfd {
      assert !Listening(events, i, listenfd);
      assert Listening(events, i + 1, listenfd);
    } else if Listening(events, i, listenfd) {
      var j :| 0 <= j < i && events[j].fd == listenfd;
      assert Listening(events, i + 1, listenfd);
    } else if Listening(events, i + 1, listenfd) {
      var j :| 0 <= j < i + 1 && events[j].fd == listenfd;
      assert false;
    }
  }

  /** The account of a handler after `i` events: what it did to the connections, to the number of accepted
      clients and, in a quiet network, to what there is to receive. */
  ghost predicate Account(mode: Mode, listenfd: int, start: Conns, conns: Conns, closed: seq<Conn>, n: nat,
                          events: seq<Event>, i: nat, accepted: nat, now: nat, arrived: nat,
                          refused: bool, quiet: bool)
    requires i <= |events|
  {
    && Batch(mode, start, conns, closed, n, events, i)
    && AcceptedFor(events, i, listenfd, accepted, now, arrived, refused)
    && (quiet && !Mentioned(events, listenfd) ==> LessAfter(start, conns, events, i))
  }

  /** What both handlers have done from `s` to `t` about a batch of events, up to event `i`, with the calls
      `parts`. */
  ghost predicate BatchDone(s: Moment, t: Moment, mode: Mode, listenfd: int, events: seq<Event>, i: nat,
                            parts: seq<seq<Call>>)
    requires i <= |events|
  {
    && TrafficSpent(s.arrived, t.arrived, s.traffic, t.traffic) && s.closed <= t.closed
    && Account(mode, listenfd, s.conns, t.conns, t.closed, |s.closed|, events, i,
               s.accepted, t.accepted, s.arrived, t.refusals != s.refusals, t.traffic == s.traffic)
    && BatchCalls(mode, listenfd, events[..i], parts) && t.calls == s.calls + Flatten(parts)
  }

  /** What a handler asks of the events: `epoll_wait` has reported them, and every connection that has
      something to receive but no edge is among them. */
  ghost predicate Reports(k: Kernel, events: seq<Event>)
    reads k
  {
    DistinctEvents(events) && AllReportable(k.conns, k.listenfd, events) && NoneStranded(k.conns, events, 0)
  }

  /** What the events were when the handler was called. */
  ghost predicate Batched(s: Moment, listenfd: int, events: seq<Event>) {
    DistinctEvents(events) && AllReportable(s.conns, listenfd, events) && s.accepted <= s.arrived
  }

  /** The next event: what it asks for follows from where the handler stands, and after it the handler
      stands one event further. */
  lemma NextReportable(mode: Mode, listenfd: int, start: Conns, conns: Conns, closed: seq<Conn>, n: nat,
                       events: seq<Event>, i: nat)
    requires i < |events| && AllReportable(start, listenfd, events)
    requires Batch(mode, start, conns, closed, n, events, i)
    ensures Reportable(conns, listenfd, events[i])
  {
    assert Reportable(start, listenfd, events[i]) && ToBeServed(start, conns, events[i]);
  }

  /** One event takes the account one event further. */
  lemma AccountNext(mode: Mode, listenfd: int, start: Conns, conns: Conns, conns': Conns,
                    closed: seq<Conn>, closed': seq<Conn>, n: nat, events: seq<Event>, i: nat,
                    accepted: nat, now: nat, next: nat, arrived: nat, arrived': nat,
                    refused: bool, refused': bool, quiet: bool, quiet': bool)
    requires i < |events| && DistinctEvents(events) && accepted <= arrived <= arrived' && now <= arrived'
    requires Account(mode, listenfd, start, conns, closed, n, events, i, accepted, now, arrived, refused, quiet)
    requires EventStep(mode, listenfd, conns, conns', closed, closed', events[i])
    requires mode.EdgeTriggered? || (mode.LevelTriggered? && AllRegistered(conns', mode))
    requires events[i].fd == listenfd && !refused ==> TookClient(now, next, arrived', refused')
    requires events[i].fd != listenfd ==> next == now && refused' == refused
    requires quiet' && events[i].fd != listenfd ==> QuietStep(conns, conns', events[i])
    requires quiet' ==> quiet
    ensures Account(mode, listenfd, start, conns', closed', n, events, i + 1,
                    accepted, next, arrived, refused', quiet')
  {
    BatchNext(mode, listenfd, start, conns, conns', closed, closed', n, events, i);
    AcceptedNext(events, i, listenfd, accepted, now, next, arrived, arrived', refused, refused');
    if quiet' && !Mentioned(events, listenfd) {
      LessAfterNext(start, conns, conns', events, i);
    }
  }

  /** One event takes a handler one event further. */
  lemma BatchDoneNext(s: Moment, t: Moment, u: Moment, mode: Mode, listenfd: int, events: seq<Event>, i: nat,
                      parts: seq<seq<Call>>, part: seq<Call>)
    requires i < |events| && Batched(s, listenfd, events) && u.accepted <= u.arrived && t.accepted <= t.arrived
    requires BatchDone(s, t, mode, listenfd, events, i, parts)
    requires EventDone(t, u, mode, listenfd, events[i], part)
    requires mode.EdgeTriggered? || (mode.LevelTriggered? && AllRegistered(u.conns, mode))
    ensures BatchDone(s, u, mode, listenfd, events, i + 1, parts + [part])
  {
    AccountNext(mode, listenfd, s.conns, t.conns, u.conns, t.closed, u.closed, |s.closed|, events, i,
                s.accepted, t.accepted, u.accepted, s.arrived, u.arrived,
                t.refusals != s.refusals, u.refusals != s.refusals, t.traffic == s.traffic, u.traffic == s.traffic);
    OneMorePart(mode, listenfd, events, i, parts, part);
  }

  lemma AccountStart(mode: Mode, listenfd: int, conns: Conns, closed: seq<Conn>, events: seq<Event>,
                     accepted: nat, arrived: nat)
    requires AllReportable(conns, listenfd, events) && listenfd !in conns && NoneStranded(conns, events, 0)
    ensures Account(mode, listenfd, conns, conns, closed, |closed|, events, 0,
                    accepted, accepted, arrived, false, true)
  {
    BatchStart(mode, listenfd, conns, closed, events);
    LessAfterStart(conns, events);
  }

  lemma LessAfterStart(conns: Conns, events: seq<Event>)
    ensures LessAfter(conns, conns, events, 0)
  {
  }

  lemma NothingDone(k: Kernel, mode: Mode, events: seq<Event>)
    requires Handling(k, mode) && Reports(k, events)
    ensures BatchDone(Now(k), Now(k), mode, k.listenfd, events, 0, []) && Batched(Now(k), k.listenfd, events)
  {
    ListenerIsNoConnection(k);
    AccountStart(mode, k.listenfd, k.conns, k.closed, events, k.accepted, k.arrived);
  }

  /** Event number `i` of a batch, in the edge-triggered handler. */
  method EtNext(k: Kernel, events: seq<Event>, i: nat, buf: array<Byte>, ghost start: Moment,
                ghost parts: seq<seq<Call>>)
    returns (ghost part: seq<Call>)
    requires i < |events| && buf.Length == BUFFER_SIZE && Batched(start, k.listenfd, events)
    requires Handling(k, EdgeTriggered) && BatchDone(start, Now(k), EdgeTriggered, k.listenfd, events, i, parts)
    modifies k`conns, k`closed, k`arrived, k`traffic, k`accepted, k`refusals, k`calls, buf
    ensures Handling(k, EdgeTriggered)
    ensures BatchDone(start, Now(k), EdgeTriggered, k.listenfd, events, i + 1, parts + [part])
  {
    ghost var before := Now(k);
    NextReportable(EdgeTriggered, k.listenfd, start.conns, before.conns, before.closed, |start.closed|, events, i);
    part := EtEvent(k, events[i], buf);
    BatchDoneNext(start, before, Now(k), EdgeTriggered, k.listenfd, events, i, parts, part);
  }

  /** Event number `i` of a batch, in the level-triggered handler. */
  method LtNext(k: Kernel, events: seq<Event>, i: nat, buf: array<Byte>, ghost start: Moment,
                ghost parts: seq<seq<Call>>)
    returns (ghost part: seq<Call>)
    requires i < |events| && buf.Length == BUFFER_SIZE && Batched(start, k.listenfd, events)
    requires Handling(k, LevelTriggered) && BatchDone(start, Now(k), LevelTriggered, k.listenfd, events, i, parts)
    modifies k`conns, k`closed, k`arrived, k`traffic, k`accepted, k`refusals, k`calls, buf
    ensures Handling(k, LevelTriggered)
    ensures BatchDone(start, Now(k), LevelTriggered, k.listenfd, events, i + 1, parts + [part])
  {
    ghost var before := Now(k);
    NextReportable(LevelTriggered, k.listenfd, start.conns, before.conns, before.closed, |start.closed|, events, i);
    part := LtEvent(k, events[i], buf);
    BatchDoneNext(start, before, Now(k), LevelTriggered, k.listenfd, events, i, parts, part);
  }

  /** The edge-triggered handler. Every socket that was reported is drained, so that afterwards no open
      connection has anything to receive without a pending edge. No connection is lost, none is closed
      before its end, and those that no event is about only grow. */
  method Et(k: Kernel, events: seq<Event>) returns (ghost parts: seq<seq<Call>>)
    requires Handling(k, EdgeTriggered) && Reports(k, events)
    modifies k`conns, k`closed, k`arrived, k`traffic, k`accepted, k`refusals, k`calls
    ensures Handling(k, EdgeTriggered)
    ensures BatchDone(old(Now(k)), Now(k), EdgeTriggered, k.listenfd, events, |events|, parts)
  {
    var buf := new Byte[BUFFER_SIZE];
    ghost var start := Now(k);
    NothingDone(k, EdgeTriggered, events);
    parts := [];
    for i := 0 to |events|
      invariant Handling(k, EdgeTriggered) && BatchDone(start, Now(k), EdgeTriggered, k.listenfd, events, i, parts)
    {
      ghost var part := EtNext(k, events, i, buf, start, parts);
      parts := parts + [part];
    }
  }

  /** The level-triggered handler. Every socket that was reported readable is read once: some of its bytes
      are received and the rest stays readable, or it is at its end and is closed. No connection is lost,
      and those that no event is about only grow. */
  method Lt(k: Kernel, events: seq<Event>) returns (ghost parts: seq<seq<Call>>)
    requires Handling(k, LevelTriggered) && Reports(k, events)
    modifies k`conns, k`closed, k`arrived, k`traffic, k`accepted, k`refusals, k`calls
    ensures Handling(k, LevelTriggered)
    ensures BatchDone(old(Now(k)), Now(k), LevelTriggered, k.listenfd, events, |events|, parts)
  {
    var buf := new Byte[BUFFER_SIZE];
    ghost var start := Now(k);
    NothingDone(k, LevelTriggered, events);
    parts := [];
    for i := 0 to |events|
      invariant Handling(k, LevelTriggered) && BatchDone(start, Now(k), LevelTriggered, k.listenfd, events, i, parts)
    {
      ghost var part := LtNext(k, events, i, buf, start, parts);
      parts := parts + [part];
    }
  }
}
