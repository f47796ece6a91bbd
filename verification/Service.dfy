/** What the event handlers owe to the connections, one event and one batch of events at a time. */
module Service {
  import opened Connections
  import opened Unread

  /** Every open connection is registered in one mode. */
  ghost predicate AllRegistered(conns: Conns, mode: Mode) {
    forall fd :: fd in conns ==> conns[fd].mode == mode
  }

  /** No open connection has something to receive without a pending edge, or one of the events from
      position `from` on. */
  ghost predicate NoneStranded(conns: Conns, events: seq<Event>, from: nat) {
    forall fd :: fd in conns ==> conns[fd].NotStranded() || Reported(events, from, fd)
  }

  /** Only connections at their end were closed. */
  ghost predicate AllComplete(closed: seq<Conn>) {
    forall c :: c in closed ==> Complete(c)
  }

  /** The connections other than `fd` are still open and only grew. */
  ghost predicate OthersGrew(before: Conns, after: Conns, fd: int) {
    forall f {:trigger GrewAt(before, after, f)} :: f in before && f != fd ==> GrewAt(before, after, f)
  }

  /** No connection other than `fd` changed. */
  ghost predicate OthersSame(before: Conns, after: Conns, fd: int) {
    forall f :: f in after && f != fd ==> f in before && after[f] == before[f]
  }

  lemma OthersGrewTwice(a: Conns, b: Conns, c: Conns, fd: int)
    requires OthersGrew(a, b, fd) && OthersGrew(b, c, fd)
    ensures OthersGrew(a, c, fd)
  {
    forall f | f in a && f != fd ensures GrewAt(a, c, f) {
      assert GrewAt(a, b, f) && GrewAt(b, c, f);
      GrownTwice(a[f], b[f], c[f]);
    }
  }

  lemma OthersSameTwice(a: Conns, b: Conns, c: Conns, fd: int)
    requires OthersSame(a, b, fd) && OthersSame(b, c, fd)
    ensures OthersSame(a, c, fd)
  {
  }

  lemma AllGrewOthers(a: Conns, b: Conns, fd: int)
    requires AllGrew(a, b)
    ensures OthersGrew(a, b, fd)
  {
    forall f | f in a && f != fd ensures GrewAt(a, b, f) {
    }
  }

  /** Only the connection at `fd` was replaced, or removed, or added. */
  lemma OthersKept(a: Conns, b: Conns, fd: int)
    requires forall f :: f in a && f != fd ==> f in b && b[f] == a[f]
    ensures OthersGrew(a, b, fd)
  {
    forall f | f in a && f != fd ensures GrewAt(a, b, f) {
    }
  }

  /** What one `recv` and the `printf` after it do to a connection: at its end or without anything to
      receive nothing is printed, and otherwise one more message is. `quiet` says that the network did not
      act. */
  ghost predicate ReadStep(c: Conn, d: Conn, ret: int, errno: Error, buf: seq<Byte>, quiet: bool) {
    && Later(c, d) && d.mode == c.mode
    && (0 < ret ==> d.printed == c.printed + [Message(ret, buf)] && Message(ret, buf).Terminated())
    && (0 < ret && quiet ==> |d.queue| < |c.queue| && d.Load() < c.Load())
    && (ret <= 0 ==> Grown(c, d.(cut := c.cut)) && (quiet ==> d.(cut := c.cut) == c))
    && (ret < 0 && errno == Again <==> ret <= 0 && !d.Readable())
    && (ret <= 0 && d.Readable() ==> d.Finished())
  }

  /** Received bytes go from the queue to a printed message. */
  lemma ReadStepPrints(c: Conn, seen: Conn, d: Conn, ret: nat, errno: Error, buf: seq<Byte>, quiet: bool)
    requires Grown(c, seen) && seen.Conserved() && 0 < ret <= |seen.queue| && (quiet ==> seen == c)
    requires Message(ret, buf).Terminated() && buf[..ret] == seen.queue[..ret]
    requires d == seen.(queue := seen.queue[ret..], printed := seen.printed + [Message(ret, buf)])
    ensures ReadStep(c, d, ret, errno, buf, quiet) && d.Conserved()
  {
    PrintConserves(seen, ret, Message(ret, buf));
  }

  /** Without bytes nothing is printed. */
  lemma ReadStepStops(c: Conn, seen: Conn, ret: int, errno: Error, buf: seq<Byte>, quiet: bool)
    requires Grown(c, seen) && ret <= 0 && (quiet ==> seen == c) && RecvFinds(seen, ret, errno)
    ensures ReadStep(c, AfterNoBytes(seen, ret, errno), ret, errno, buf, quiet)
  {
    assert c.sent <= seen.sent;
  }

  /** Connection `d` is `c` later on: it has its number, and no byte that was sent or printed is gone. */
  ghost predicate Later(c: Conn, d: Conn) {
    c.id == d.id && c.sent <= d.sent && c.printed <= d.printed
  }

  /** Connection `c` is among those closed after the first `n`. */
  ghost predicate ClosedSince(closed: seq<Conn>, c: Conn, n: nat) {
    exists j :: n <= j < |closed| && Later(c, closed[j])
  }

  /** The connection that was open at `fd` at the start is open there, or among those closed since. */
  ghost predicate KeptAt(start: Conns, conns: Conns, closed: seq<Conn>, n: nat, fd: int) {
    fd in start && ((fd in conns && Later(start[fd], conns[fd])) || ClosedSince(closed, start[fd], n))
  }

  ghost predicate AllKept(start: Conns, conns: Conns, closed: seq<Conn>, n: nat) {
    forall f {:trigger KeptAt(start, conns, closed, n, f)} :: f in start ==> KeptAt(start, conns, closed, n, f)
  }

  /** It has everything received that it held, or is closed. */
  ghost predicate DrainedAt(start: Conns, conns: Conns, closed: seq<Conn>, n: nat, fd: int) {
    && KeptAt(start, conns, closed, n, fd)
    && (ClosedSince(closed, start[fd], n) || start[fd].sent <= Received(conns[fd].printed))
  }

  /** It has been received from exactly once, or is closed. */
  ghost predicate AdvancedAt(start: Conns, conns: Conns, closed: seq<Conn>, n: nat, fd: int) {
    && KeptAt(start, conns, closed, n, fd)
    && (ClosedSince(closed, start[fd], n) || |conns[fd].printed| == |start[fd].printed| + 1)
  }

  /** What a handler owes to a reported socket, `start` being the connections when it was called, when
      `n` connections had been closed. */
  ghost predicate Served(mode: Mode, start: Conns, conns: Conns, closed: seq<Conn>, n: nat, e: Event) {
    e.readable && e.fd in start ==>
      if mode.EdgeTriggered? then DrainedAt(start, conns, closed, n, e.fd)
      else AdvancedAt(start, conns, closed, n, e.fd)
  }

  /** One event: the sockets that it is not about only grow, the one that it is about is served or, when
      not reported readable, left alone, and a new one is not stranded. */
  ghost predicate EventStep(mode: Mode, listenfd: int, conns: Conns, conns': Conns,
                            closed: seq<Conn>, closed': seq<Conn>, e: Event) {
    && closed <= closed'
    && OthersGrew(conns, conns', e.fd)
    && (e.fd in conns ==> KeptAt(conns, conns', closed', |closed|, e.fd))
    && (e.fd in conns ==> Served(mode, conns, conns', closed', |closed|, e))
    && (e.fd in conns && !e.readable ==> GrewAt(conns, conns', e.fd))
    && (e.fd in conns && e.fd in conns' && e.readable ==> mode.LevelTriggered? || !conns'[e.fd].Readable())
    && (forall f :: f in conns' && f !in conns ==> conns'[f].NotStranded() && (f == e.fd ==> e.fd == listenfd))
  }

  lemma LaterTwice(c: Conn, d: Conn, e: Conn)
    requires Later(c, d) && Later(d, e)
    ensures Later(c, e)
  {
  }

  lemma GrownIsLater(c: Conn, d: Conn)
    requires Grown(c, d)
    ensures Later(c, d) && d.printed == c.printed && (c.Readable() ==> d.Readable())
  {
  }

  lemma ClosedSinceStays(closed: seq<Conn>, closed': seq<Conn>, c: Conn, n: nat)
    requires ClosedSince(closed, c, n) && closed <= closed'
    ensures ClosedSince(closed', c, n)
  {
    var j :| n <= j < |closed| && Later(c, closed[j]);
    assert Later(c, closed'[j]);
  }

  lemma ClosedSinceEarlier(closed: seq<Conn>, c: Conn, d: Conn, n: nat, m: nat)
    requires ClosedSince(closed, d, m) && n <= m && Later(c, d)
    ensures ClosedSince(closed, c, n)
  {
    var j :| m <= j < |closed| && Later(d, closed[j]);
    assert Later(c, closed[j]);
  }

  /** Kept from one moment to the next and from that to a third is kept from the first to the third. */
  lemma KeptTwice(a: Conns, b: Conns, c: Conns, closed: seq<Conn>, closed': seq<Conn>, n: nat, fd: int)
    requires KeptAt(a, b, closed, n, fd) && n <= |closed| && closed <= closed'
    requires fd in b ==> KeptAt(b, c, closed', |closed|, fd)
    ensures KeptAt(a, c, closed', n, fd)
  {
    if ClosedSince(closed, a[fd], n) {
      ClosedSinceStays(closed, closed', a[fd], n);
    } else if ClosedSince(closed', b[fd], |closed|) {
      ClosedSinceEarlier(closed', a[fd], b[fd], n, |closed|);
    } else {
      LaterTwice(a[fd], b[fd], c[fd]);
    }
  }

  lemma AllKeptTwice(a: Conns, b: Conns, c: Conns, closed: seq<Conn>, closed': seq<Conn>, n: nat)
    requires AllKept(a, b, closed, n) && AllKept(b, c, closed', |closed|) && n <= |closed| && closed <= closed'
    ensures AllKept(a, c, closed', n)
  {
    forall f | f in a ensures KeptAt(a, c, closed', n, f) {
      assert KeptAt(a, b, closed, n, f);
      if f in b { assert KeptAt(b, c, closed', |closed|, f); }
      KeptTwice(a, b, c, closed, closed', n, f);
    }
  }

  lemma GrewIsKept(a: Conns, b: Conns, closed: seq<Conn>, n: nat, fd: int)
    requires GrewAt(a, b, fd)
    ensures KeptAt(a, b, closed, n, fd)
  {
    GrownIsLater(a[fd], b[fd]);
  }

  lemma AllGrewIsKept(a: Conns, b: Conns, closed: seq<Conn>)
    requires AllGrew(a, b)
    ensures AllKept(a, b, closed, |closed|)
  {
    forall f | f in a ensures KeptAt(a, b, closed, |closed|, f) {
      assert GrewAt(a, b, f);
      GrewIsKept(a, b, closed, |closed|, f);
    }
  }

  /** One event loses no connection. */
  lemma StepKeeps(mode: Mode, listenfd: int, conns: Conns, conns': Conns,
                  closed: seq<Conn>, closed': seq<Conn>, e: Event)
    requires EventStep(mode, listenfd, conns, conns', closed, closed', e)
    ensures AllKept(conns, conns', closed', |closed|)
  {
    forall f | f in conns ensures KeptAt(conns, conns', closed', |closed|, f) {
      if f != e.fd {
        assert GrewAt(conns, conns', f);
        GrewIsKept(conns, conns', closed', |closed|, f);
      }
    }
  }

  /** A socket whose turn has not come is open, nothing was received from it, and if it was reported as
      readable then it still is. */
  ghost predicate ToBeServed(start: Conns, conns: Conns, e: Event) {
    e.fd in start ==> GrewSince(start[e.fd], conns, e.fd) && (e.readable ==> conns[e.fd].Readable())
  }

  ghost predicate GrewSince(c: Conn, conns: Conns, fd: int) {
    fd in conns && Grown(c, conns[fd])
  }

  /** The connections that no event is about are still open and only grew. */
  ghost predicate UnmentionedGrew(start: Conns, conns: Conns, events: seq<Event>) {
    forall f {:trigger GrewAt(start, conns, f)} ::
      f in start && !Mentioned(events, f) ==> GrewAt(start, conns, f)
  }

  /** Where a handler stands after `i` events. */
  ghost predicate Batch(mode: Mode, start: Conns, conns: Conns, closed: seq<Conn>, n: nat, events: seq<Event>, i: nat)
    requires i <= |events|
  {
    && n <= |closed|
    && (forall j :: 0 <= j < i ==> Served(mode, start, conns, closed, n, events[j]))
    && (forall j :: i <= j < |events| ==> ToBeServed(start, conns, events[j]))
    && AllKept(start, conns, closed, n)
    && UnmentionedGrew(start, conns, events)
    && NoneStranded(conns, events, i)
  }

  /** What was established about one socket survives the work on another. */
  lemma ServedStays(mode: Mode, start: Conns, conns: Conns, conns': Conns, closed: seq<Conn>, closed': seq<Conn>,
                    n: nat, e: Event)
    requires Served(mode, start, conns, closed, n, e) && closed <= closed'
    requires e.fd in conns ==> GrewAt(conns, conns', e.fd)
    ensures Served(mode, start, conns', closed', n, e)
  {
    if e.fd in start && ClosedSince(closed, start[e.fd], n) {
      ClosedSinceStays(closed, closed', start[e.fd], n);
    } else if e.fd in start && e.readable {
      GrownIsLater(conns[e.fd], conns'[e.fd]);
    }
  }

  lemma ToBeServedStays(start: Conns, conns: Conns, conns': Conns, e: Event)
    requires ToBeServed(start, conns, e) && (e.fd in conns ==> GrewAt(conns, conns', e.fd))
    ensures ToBeServed(start, conns', e)
  {
    if e.fd in start {
      GrownTwice(start[e.fd], conns[e.fd], conns'[e.fd]);
    }
  }

  /** The socket whose turn it is: what the event does to it now is what is owed since the start. */
  lemma ServedSinceStart(mode: Mode, start: Conns, conns: Conns, conns': Conns, closed: seq<Conn>, closed': seq<Conn>,
                         n: nat, e: Event)
    requires ToBeServed(start, conns, e) && n <= |closed|
    requires e.fd in conns ==> Served(mode, conns, conns', closed', |closed|, e)
    ensures Served(mode, start, conns', closed', n, e)
  {
    if e.fd in start && e.readable {
      GrownIsLater(start[e.fd], conns[e.fd]);
      if ClosedSince(closed', conns[e.fd], |closed|) {
        ClosedSinceEarlier(closed', start[e.fd], conns[e.fd], n, |closed|);
      }
    }
  }

  lemma ServedNext(mode: Mode, listenfd: int, start: Conns, conns: Conns, conns': Conns,
                   closed: seq<Conn>, closed': seq<Conn>, n: nat, events: seq<Event>, i: nat)
    requires i < |events| && DistinctEvents(events) && Batch(mode, start, conns, closed, n, events, i)
    requires EventStep(mode, listenfd, conns, conns', closed, closed', events[i])
    ensures forall j :: 0 <= j < i + 1 ==> Served(mode, start, conns', closed', n, events[j])
    ensures forall j :: i + 1 <= j < |events| ==> ToBeServed(start, conns', events[j])
  {
    forall j | 0 <= j < i + 1 ensures Served(mode, start, conns', closed', n, events[j]) {
      if j < i {
        assert events[j].fd in conns ==> GrewAt(conns, conns', events[j].fd);
        ServedStays(mode, start, conns, conns', closed, closed', n, events[j]);
      } else {
        ServedSinceStart(mode, start, conns, conns', closed, closed', n, events[i]);
      }
    }
    forall j | i + 1 <= j < |events| ensures ToBeServed(start, conns', events[j]) {
      assert events[j].fd in conns ==> GrewAt(conns, conns', events[j].fd);
      ToBeServedStays(start, conns, conns', events[j]);
    }
  }

  lemma UnmentionedNext(start: Conns, conns: Conns, conns': Conns, events: seq<Event>, i: nat)
    requires i < |events| && UnmentionedGrew(start, conns, events) && OthersGrew(conns, conns', events[i].fd)
    ensures UnmentionedGrew(start, conns', events)
  {
    forall f | f in start && !Mentioned(events, f) ensures GrewAt(start, conns', f) {
      assert GrewAt(start, conns, f) && GrewAt(conns, conns', f);
      GrownTwice(start[f], conns[f], conns'[f]);
    }
  }

  lemma NoneStrandedNext(mode: Mode, listenfd: int, conns: Conns, conns': Conns, closed: seq<Conn>, closed': seq<Conn>,
                         events: seq<Event>, i: nat)
    requires i < |events| && DistinctEvents(events) && NoneStranded(conns, events, i)
    requires EventStep(mode, listenfd, conns, conns', closed, closed', events[i])
    requires mode.EdgeTriggered? || AllRegistered(conns', mode)
    requires mode.EdgeTriggered? || mode.LevelTriggered?
    ensures NoneStranded(conns', events, i + 1)
  {
    forall f | f in conns' ensures conns'[f].NotStranded() || Reported(events, i + 1, f) {
      if f in conns && (f != events[i].fd || !events[i].readable) {
        assert GrewAt(conns, conns', f);
        GrownConserves(conns[f], conns'[f]);
      }
    }
  }

  /** One event takes a handler from where it stands to where it stands next. */
  lemma BatchNext(mode: Mode, listenfd: int, start: Conns, conns: Conns, conns': Conns,
                  closed: seq<Conn>, closed': seq<Conn>, n: nat, events: seq<Event>, i: nat)
    requires i < |events| && DistinctEvents(events) && Batch(mode, start, conns, closed, n, events, i)
    requires EventStep(mode, listenfd, conns, conns', closed, closed', events[i])
    requires mode.EdgeTriggered? || (mode.LevelTriggered? && AllRegistered(conns', mode))
    ensures Batch(mode, start, conns', closed', n, events, i + 1)
  {
    ServedNext(mode, listenfd, start, conns, conns', closed, closed', n, events, i);
    StepKeeps(mode, listenfd, conns, conns', closed, closed', events[i]);
    AllKeptTwice(start, conns, conns', closed, closed', n);
    UnmentionedNext(start, conns, conns', events, i);
    NoneStrandedNext(mode, listenfd, conns, conns', closed, closed', events, i);
  }

  /** What `epoll_wait` says of each event it reports. */
  ghost predicate AllReportable(conns: Conns, listenfd: int, events: seq<Event>) {
    forall i :: 0 <= i < |events| ==> Reportable(conns, listenfd, events[i])
  }

  lemma BatchStart(mode: Mode, listenfd: int, conns: Conns, closed: seq<Conn>, events: seq<Event>)
    requires AllReportable(conns, listenfd, events) && listenfd !in conns && NoneStranded(conns, events, 0)
    ensures Batch(mode, conns, conns, closed, |closed|, events, 0)
  {
    AllGrewSame(conns);
    AllGrewIsKept(conns, conns, closed);
    forall f | f in conns ensures GrewAt(conns, conns, f) {
    }
    forall j | 0 <= j < |events| ensures ToBeServed(conns, conns, events[j]) {
      assert Reportable(conns, listenfd, events[j]);
    }
  }

  /** One event in a quiet network: nothing new, and less to receive on a socket that was readable. */
  ghost predicate QuietStep(conns: Conns, conns': Conns, e: Event) {
    && conns'.Keys <= conns.Keys && OthersSame(conns, conns', e.fd)
    && (e.fd in conns' ==> conns'[e.fd].Load() <= conns[e.fd].Load())
    && (e.fd in conns' && e.readable ==> conns'[e.fd].Load() < conns[e.fd].Load())
  }

  /** What the level-triggered handler does with a readable socket: one read, and without bytes a close. */
  lemma ReadIsStep(listenfd: int, conns: Conns, read: Conns, closed: seq<Conn>, e: Event,
                   ret: int, errno: Error, buf: seq<Byte>, quiet: bool)
    requires e.readable && e.fd in conns && conns[e.fd].Readable() && read.Keys == conns.Keys
    requires OthersGrew(conns, read, e.fd) && (quiet ==> OthersSame(conns, read, e.fd))
    requires ReadStep(conns[e.fd], read[e.fd], ret, errno, buf, quiet)
    ensures ret <= 0 ==> read[e.fd].Finished()
    ensures var conns' := if ret <= 0 then read - {e.fd} else read;
      var closed' := closed + if ret <= 0 then [read[e.fd]] else [];
      && EventStep(LevelTriggered, listenfd, conns, conns', closed, closed', e)
      && (quiet ==> QuietStep(conns, conns', e))
  {
    if ret <= 0 {
      GrownIsLater(conns[e.fd], read[e.fd].(cut := conns[e.fd].cut));
      var closed' := closed + [read[e.fd]];
      assert Later(conns[e.fd], closed'[|closed|]);
      OthersKept(read, read - {e.fd}, e.fd);
      OthersGrewTwice(conns, read, read - {e.fd}, e.fd);
    } else {
      assert KeptAt(conns, read, closed, |closed|, e.fd);
      assert closed + [] == closed;
    }
  }

  /** Accepting a connection is a step for the listening socket: all others only grow. */
  lemma AcceptIsStep(mode: Mode, listenfd: int, conns: Conns, found: Conns, conns': Conns, closed: seq<Conn>, e: Event)
    requires e.fd == listenfd && listenfd !in conns && AllGrew(conns, found)
    requires forall f :: f in found ==> f in conns' && conns'[f] == found[f]
    requires forall f :: f in conns' && f !in found ==> conns'[f].NotStranded()
    ensures EventStep(mode, listenfd, conns, conns', closed, closed, e)
  {
    AllGrewOthers(conns, found, listenfd);
    OthersKept(found, conns', listenfd);
    OthersGrewTwice(conns, found, conns', listenfd);
  }

  lemma AllGrewModes(conns: Conns, found: Conns, mode: Mode)
    requires AllGrew(conns, found) && AllRegistered(conns, mode)
    ensures AllRegistered(found, mode)
  {
    forall fd | fd in found ensures found[fd].mode == mode {
      assert GrewAt(conns, found, fd);
    }
  }

  lemma ModesStay(conns: Conns, conns': Conns, fd: int, mode: Mode)
    requires AllRegistered(conns, mode) && conns'.Keys == conns.Keys && OthersGrew(conns, conns', fd)
    requires fd in conns ==> conns'[fd].mode == conns[fd].mode
    ensures AllRegistered(conns', mode)
  {
    forall f | f in conns' ensures conns'[f].mode == mode {
      assert f != fd ==> GrewAt(conns, conns', f);
    }
  }

  /** What one call of `accept` does to the number of accepted clients: it takes a client, unless none
      waits or the kernel refuses. */
  ghost predicate TookClient(accepted: nat, accepted': nat, arrived: nat, refused: bool) {
    if refused then accepted' == accepted
    else accepted' == accepted + 1 || (accepted' == accepted && arrived == accepted)
  }

  /** What a handler has drained so far: a connection is gone only when it is among the closed ones. */
  ghost predicate DrainingFrom(start: Conns, conns: Conns, closed: seq<Conn>, n: nat, fd: int) {
    && n <= |closed|
    && conns.Keys <= start.Keys
    && OthersGrew(start, conns, fd)
    && (fd in start ==> KeptAt(start, conns, closed, n, fd))
    && (fd in start && fd !in conns ==> ClosedSince(closed, start[fd], n))
    && (fd in conns ==> Later(start[fd], conns[fd]))
  }

  lemma DrainingStart(conns: Conns, closed: seq<Conn>, fd: int)
    ensures DrainingFrom(conns, conns, closed, |closed|, fd)
  {
    OthersKept(conns, conns, fd);
  }

  lemma DrainingGoesOn(start: Conns, conns: Conns, conns': Conns, closed: seq<Conn>, n: nat, fd: int)
    requires DrainingFrom(start, conns, closed, n, fd) && conns'.Keys == conns.Keys && OthersGrew(conns, conns', fd)
    requires fd in conns ==> Later(conns[fd], conns'[fd])
    ensures DrainingFrom(start, conns', closed, n, fd)
  {
    OthersGrewTwice(start, conns, conns', fd);
  }

  lemma DrainingCloses(start: Conns, conns: Conns, closed: seq<Conn>, closed': seq<Conn>, n: nat, fd: int)
    requires DrainingFrom(start, conns, closed, n, fd)
    requires closed' == closed + if fd in conns then [conns[fd]] else []
    ensures DrainingFrom(start, conns - {fd}, closed', n, fd)
  {
    if fd in conns {
      assert Later(start[fd], closed'[|closed|]);
    } else if fd in start {
      ClosedSinceStays(closed, closed', start[fd], n);
    }
    forall f | f in start && f != fd ensures GrewAt(start, conns - {fd}, f) {
      assert GrewAt(start, conns, f);
    }
  }

  lemma DrainingEnds(start: Conns, conns: Conns, closed: seq<Conn>, n: nat, fd: int, others: set<int>)
    requires DrainingFrom(start, conns, closed, n, fd) && AllGood(conns, others, -1)
    requires fd in conns ==> !conns[fd].Readable()
    ensures fd in start ==> DrainedAt(start, conns, closed, n, fd)
  {
    if fd in conns {
      assert GoodAt(conns, others, -1, fd);
      ReceivedIsPrefix(conns[fd]);
    }
  }
}
