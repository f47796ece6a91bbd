/** Connections as values: their streams, what the network may do to them, and how many there are. */
module Connections {
  type Byte = b: int | 0 <= b < 256

  const MAX_EVENT_NUMBER := 1024
  const BUFFER_SIZE := 10

  datatype Mode = Unregistered | LevelTriggered | EdgeTriggered

  /** One line that the server prints: the byte count, and the buffer at that moment. */
  datatype Message = Message(ret: nat, buf: seq<Byte>) {
    /** From 1 to 9 received bytes are followed by zero bytes in a buffer of 10. */
    ghost predicate Terminated() {
      && |buf| == 10
      && 1 <= ret <= 9
      && forall i :: ret <= i < |buf| ==> buf[i] == 0
    }
  }

  /** A connection: its number among all that were ever accepted, the bytes that the peer has sent so far,
      those not yet received, whether the peer has hung up or the connection has failed, whether `recv` has
      returned that error while bytes were left, what the server printed, and how it is registered. */
  datatype Conn = Conn(id: nat, sent: seq<Byte>, queue: seq<Byte>, hungUp: bool, failed: bool, cut: bool,
                       printed: seq<Message>, mode: Mode, edge: bool, nonblocking: bool) {
    /** There is something to receive: bytes, the end of the stream, or an error. */
    predicate Readable() {
      queue != [] || hungUp || failed
    }

    /** A level-triggered connection is ready while there is something to receive; an edge-triggered one
        needs a pending edge as well. */
    predicate Ready() {
      Readable() && (mode.LevelTriggered? || (mode.EdgeTriggered? && edge))
    }

    /** How much there is to receive; 0 when nothing is. */
    function Load(): nat {
      |queue| + if hungUp || failed then 1 else 0
    }

    /** The connection is at its end: the peer has hung up or the connection has failed, and all was received;
        or `recv` has returned the error already. */
    predicate Finished() {
      ((hungUp || failed) && queue == []) || (failed && cut)
    }

    /** An edge-triggered connection that has something to receive has an edge pending. */
    predicate NotStranded() {
      mode.EdgeTriggered? && Readable() ==> edge
    }

    /** Nothing is lost, doubled or reordered, and every printed buffer is terminated. */
    ghost predicate Conserved() {
      && Received(printed) + queue == sent
      && forall m :: m in printed ==> m.Terminated()
    }
  }

  /** The bytes in the printed buffers, concatenated. */
  function Received(printed: seq<Message>): seq<Byte> {
    if printed == [] then []
    else
      var m := printed[|printed| - 1];
      Received(printed[..|printed| - 1]) + if m.ret <= |m.buf| then m.buf[..m.ret] else m.buf
  }

  /** What the network may have done to a connection: every change of what there is to receive is an edge. */
  ghost predicate Grown(c: Conn, d: Conn) {
    && c.queue <= d.queue
    && d.sent == c.sent + d.queue[|c.queue|..]
    && (c.hungUp ==> d.hungUp) && (c.failed ==> d.failed) && (c.edge ==> d.edge)
    && (d != c ==> d.edge)
    && d.id == c.id && d.cut == c.cut && d.printed == c.printed && d.mode == c.mode && d.nonblocking == c.nonblocking
  }

  /** Something happens to a connection, or nothing does. */
  function Receives(c: Conn, bytes: seq<Byte>, end: bool, error: bool): (d: Conn)
    ensures Grown(c, d)
    ensures c.Conserved() ==> d.Conserved()
  {
    var d := c.(sent := c.sent + bytes, queue := c.queue + bytes, hungUp := c.hungUp || end,
                failed := c.failed || error, edge := c.edge || bytes != [] || end || error);
    assert c.Conserved() ==> Received(c.printed) + d.queue == c.sent + bytes;
    d
  }

  lemma GrownTwice(c: Conn, d: Conn, e: Conn)
    requires Grown(c, d) && Grown(d, e)
    ensures Grown(c, e)
  {
    assert e.queue[|c.queue|..] == d.queue[|c.queue|..] + e.queue[|d.queue|..];
  }

  lemma GrownConserves(c: Conn, d: Conn)
    requires Grown(c, d)
    ensures c.Conserved() ==> d.Conserved()
    ensures c.NotStranded() ==> d.NotStranded()
  {
    assert d.queue == c.queue + d.queue[|c.queue|..];
    assert Received(c.printed) + c.queue + d.queue[|c.queue|..] == Received(c.printed) + d.queue;
  }

  /** Taking bytes off the queue and printing them keeps the stream. */
  lemma PrintConserves(c: Conn, n: nat, m: Message)
    requires c.Conserved() && n <= |c.queue| && m.Terminated() && m.ret == n && m.buf[..n] == c.queue[..n]
    ensures c.(queue := c.queue[n..], printed := c.printed + [m]).Conserved()
  {
    var all := c.printed + [m];
    assert all[..|all| - 1] == c.printed;
    assert Received(all) == Received(c.printed) + c.queue[..n];
    assert c.queue == c.queue[..n] + c.queue[n..];
    assert Received(all) + c.queue[n..] == Received(c.printed) + c.queue;
  }

  /** When no edge is pending on it, an open edge-triggered connection has been received completely. */
  lemma AllReceivedUnlessEdge(c: Conn)
    requires c.Conserved() && c.NotStranded() && c.mode.EdgeTriggered? && !c.edge
    ensures Received(c.printed) == c.sent && !c.hungUp && !c.failed
  {
    assert Received(c.printed) + [] == Received(c.printed);
  }

  /** What the server may claim of a connection that it has closed: it was at its end, and everything the
      peer ever sent had been received, unless the connection failed and its error was returned before. */
  ghost predicate Complete(c: Conn) {
    && (c.hungUp || c.failed)
    && (Received(c.printed) == c.sent || (c.failed && c.cut))
  }

  lemma FinishedIsComplete(c: Conn)
    requires c.Conserved() && c.Finished()
    ensures Complete(c)
  {
    assert Received(c.printed) + [] == Received(c.printed);
  }

  /** At any time the received bytes are a prefix of the stream, and what is missing is in the queue. */
  lemma ReceivedIsPrefix(c: Conn)
    requires c.Conserved()
    ensures Received(c.printed) <= c.sent && c.sent[|Received(c.printed)|..] == c.queue
  {
  }

  type Conns = map<int, Conn>

  /** The connection at `f` is still open and only grew. */
  ghost predicate GrewAt(before: Conns, after: Conns, f: int) {
    f in before && f in after && Grown(before[f], after[f])
  }

  ghost predicate AllGrew(before: Conns, after: Conns) {
    && after.Keys == before.Keys
    && forall f {:trigger GrewAt(before, after, f)} :: f in before ==> GrewAt(before, after, f)
  }

  /** What the network may do: connections grow and clients arrive. With each act it has fewer left, and
      `arrived` counts the clients. */
  ghost predicate Acted(conns: Conns, conns': Conns, arrived: nat, arrived': nat, traffic: nat, traffic': nat) {
    && AllGrew(conns, conns')
    && arrived <= arrived' && traffic' <= traffic
    && (traffic' == traffic ==> conns' == conns && arrived' == arrived)
  }

  lemma AllGrewTwice(a: Conns, b: Conns, c: Conns)
    requires AllGrew(a, b) && AllGrew(b, c)
    ensures AllGrew(a, c)
  {
    forall f | f in a ensures GrewAt(a, c, f) {
      assert GrewAt(a, b, f) && GrewAt(b, c, f);
      GrownTwice(a[f], b[f], c[f]);
    }
  }

  lemma AllGrewSame(conns: Conns)
    ensures AllGrew(conns, conns)
  {
    forall f | f in conns ensures GrewAt(conns, conns, f) {
    }
  }

  lemma OneGrew(conns: Conns, fd: int, d: Conn)
    requires fd in conns && Grown(conns[fd], d)
    ensures AllGrew(conns, conns[fd := d])
  {
    forall f | f in conns ensures GrewAt(conns, conns[fd := d], f) {
    }
  }

  /** An open connection keeps its stream and, once registered, does not block. Bytes received from the
      connection at `pending` may not have been printed yet. */
  ghost predicate GoodAt(conns: Conns, others: set<int>, pending: int, fd: int) {
    && fd in conns && 0 <= fd && fd !in others
    && (fd != pending ==> conns[fd].Conserved())
    && (!conns[fd].mode.Unregistered? ==> conns[fd].nonblocking)
  }

  ghost predicate AllGood(conns: Conns, others: set<int>, pending: int) {
    forall fd {:trigger GoodAt(conns, others, pending, fd)} :: fd in conns ==> GoodAt(conns, others, pending, fd)
  }

  function OpenId(conns: Conns, fd: int): nat
    requires fd in conns
  {
    conns[fd].id
  }

  function ClosedId(closed: seq<Conn>, i: nat): nat
    requires i < |closed|
  {
    closed[i].id
  }

  /** Connections are numbered apart as they are accepted, and each is still open or among the closed. */
  ghost predicate Numbered(conns: Conns, closed: seq<Conn>, accepted: nat) {
    && |conns| + |closed| == accepted
    && (forall f {:trigger OpenId(conns, f)} :: f in conns ==> OpenId(conns, f) < accepted)
    && (forall i {:trigger ClosedId(closed, i)} :: 0 <= i < |closed| ==> ClosedId(closed, i) < accepted)
    && (forall f, g {:trigger OpenId(conns, f), OpenId(conns, g)} ::
         f in conns && g in conns && f != g ==> OpenId(conns, f) != OpenId(conns, g))
    && (forall i, j {:trigger ClosedId(closed, i), ClosedId(closed, j)} ::
         0 <= i < j < |closed| ==> ClosedId(closed, i) != ClosedId(closed, j))
    && (forall f, i {:trigger OpenId(conns, f), ClosedId(closed, i)} ::
         f in conns && 0 <= i < |closed| ==> OpenId(conns, f) != ClosedId(closed, i))
  }

  lemma SameKeysNumbered(conns: Conns, conns': Conns, closed: seq<Conn>, accepted: nat)
    requires Numbered(conns, closed, accepted) && conns'.Keys == conns.Keys
    requires forall f :: f in conns ==> conns'[f].id == conns[f].id
    ensures Numbered(conns', closed, accepted)
  {
    assert |conns'| == |conns'.Keys| && |conns| == |conns.Keys|;
    forall f | f in conns ensures OpenId(conns', f) == OpenId(conns, f) {
    }
  }

  lemma UpdateKeepsGood(conns: Conns, others: set<int>, closed: seq<Conn>, accepted: nat, fd: int, d: Conn,
                        pending: int, pending': int)
    requires AllGood(conns, others, pending) && Numbered(conns, closed, accepted) && fd in conns
    requires pending == fd || pending < 0
    requires d.id == conns[fd].id && (!d.mode.Unregistered? ==> d.nonblocking) && (fd == pending' || d.Conserved())
    ensures AllGood(conns[fd := d], others, pending') && Numbered(conns[fd := d], closed, accepted)
  {
    assert GoodAt(conns, others, pending, fd);
    var after := conns[fd := d];
    forall f | f in after ensures GoodAt(after, others, pending', f) {
      assert GoodAt(conns, others, pending, f);
    }
    SameKeysNumbered(conns, after, closed, accepted);
  }

  lemma CloseKeepsGood(conns: Conns, others: set<int>, closed: seq<Conn>, accepted: nat, fd: int)
    requires AllGood(conns, others, -1) && Numbered(conns, closed, accepted) && fd in conns
    ensures AllGood(conns - {fd}, others, -1) && conns[fd].Conserved()
    ensures Numbered(conns - {fd}, closed + [conns[fd]], accepted)
  {
    var rest, all := conns - {fd}, closed + [conns[fd]];
    assert GoodAt(conns, others, -1, fd);
    forall f | f in rest ensures GoodAt(rest, others, -1, f) {
      assert GoodAt(conns, others, -1, f);
    }
    assert |conns.Keys| == |rest.Keys| + 1 by { assert rest.Keys == conns.Keys - {fd}; }
    forall f | f in rest ensures OpenId(rest, f) == OpenId(conns, f) != OpenId(conns, fd) {
    }
    forall i | 0 <= i < |all|
      ensures ClosedId(all, i) == if i < |closed| then ClosedId(closed, i) else OpenId(conns, fd)
    {
    }
  }

  lemma AcceptKeepsGood(conns: Conns, others: set<int>, closed: seq<Conn>, accepted: nat, fd: int, d: Conn)
    requires AllGood(conns, others, -1) && Numbered(conns, closed, accepted) && fd !in conns
    requires 0 <= fd && fd !in others && d.id == accepted && d.Conserved() && d.mode.Unregistered?
    ensures AllGood(conns[fd := d], others, -1) && Numbered(conns[fd := d], closed, accepted + 1)
  {
    var more := conns[fd := d];
    forall f | f in more ensures GoodAt(more, others, -1, f) {
      assert f != fd ==> GoodAt(conns, others, -1, f);
    }
    assert |more.Keys| == |conns.Keys| + 1 by { assert more.Keys == conns.Keys + {fd}; }
    forall f | f in conns ensures OpenId(more, f) == OpenId(conns, f) < accepted {
    }
    assert OpenId(more, fd) == accepted;
  }

  ghost function OpenIds(conns: Conns, fds: set<int>): (ids: set<nat>)
    requires fds <= conns.Keys
    requires forall f, g {:trigger OpenId(conns, f), OpenId(conns, g)} ::
      f in conns && g in conns && f != g ==> OpenId(conns, f) != OpenId(conns, g)
    ensures |ids| == |fds|
    ensures forall x :: x in ids <==> exists f :: f in fds && OpenId(conns, f) == x
  {
    if exists f :: f in fds then
      var f :| f in fds;
      var rest := OpenIds(conns, fds - {f});
      assert OpenId(conns, f) !in rest;
      rest + {OpenId(conns, f)}
    else
      assert fds == {};
      {}
  }

  ghost function ClosedIds(closed: seq<Conn>, n: nat): (ids: set<nat>)
    requires n <= |closed|
    requires forall i, j {:trigger ClosedId(closed, i), ClosedId(closed, j)} ::
      0 <= i < j < |closed| ==> ClosedId(closed, i) != ClosedId(closed, j)
    ensures |ids| == n
    ensures forall x :: x in ids <==> exists i :: 0 <= i < n && ClosedId(closed, i) == x
  {
    if n == 0 then {}
    else
      var rest := ClosedIds(closed, n - 1);
      assert ClosedId(closed, n - 1) !in rest;
      rest + {ClosedId(closed, n - 1)}
  }

  lemma IdsApart(conns: Conns, closed: seq<Conn>, accepted: nat)
    requires Numbered(conns, closed, accepted)
    ensures OpenIds(conns, conns.Keys) !! ClosedIds(closed, |closed|)
    ensures |OpenIds(conns, conns.Keys) + ClosedIds(closed, |closed|)| == accepted
    ensures forall x :: x in OpenIds(conns, conns.Keys) + ClosedIds(closed, |closed|) ==> x < accepted
  {
  }

  /** Connection number `id` is open or among the closed. */
  ghost predicate IsThere(conns: Conns, closed: seq<Conn>, id: nat) {
    || (exists f :: f in conns && OpenId(conns, f) == id)
    || (exists i :: 0 <= i < |closed| && ClosedId(closed, i) == id)
  }

  /** Every connection that was ever accepted is open or among the closed: none got lost. */
  lemma EveryNumberIsThere(conns: Conns, closed: seq<Conn>, accepted: nat)
    requires Numbered(conns, closed, accepted)
    ensures forall id: nat :: id < accepted ==> IsThere(conns, closed, id)
  {
    IdsApart(conns, closed, accepted);
    NumbersBelow(OpenIds(conns, conns.Keys) + ClosedIds(closed, |closed|), accepted);
    forall id: nat | id < accepted ensures IsThere(conns, closed, id) {
      assert id in OpenIds(conns, conns.Keys) || id in ClosedIds(closed, |closed|);
    }
  }

  /** As many different numbers below `n` as there are below `n` are all of them. */
  lemma {:induction false} NumbersBelow(ids: set<nat>, n: nat)
    requires |ids| == n && forall x :: x in ids ==> x < n
    ensures forall x :: 0 <= x < n ==> x in ids
  {
    if 0 < n {
      if n - 1 !in ids {
        FewBelow(ids, n - 1);
      }
      NumbersBelow(ids - {n - 1}, n - 1);
    }
  }

  lemma {:induction false} FewBelow(ids: set<nat>, n: nat)
    requires forall x :: x in ids ==> x < n
    ensures |ids| <= n
  {
    if n == 0 {
      assert ids == {};
    } else {
      FewBelow(ids - {n - 1}, n - 1);
    }
  }

  datatype Error = Success | Again | Other

  datatype Event = Event(fd: int, readable: bool)

  ghost predicate DistinctEvents(events: seq<Event>) {
    forall i, j :: 0 <= i < j < |events| ==> events[i].fd != events[j].fd
  }

  /** One of the events from position `from` on says that `fd` has something to receive. */
  ghost predicate Reported(events: seq<Event>, from: nat, fd: int) {
    exists i :: from <= i < |events| && events[i].fd == fd && events[i].readable
  }

  /** There is an event about `fd`. */
  ghost predicate Mentioned(events: seq<Event>, fd: int) {
    exists i :: 0 <= i < |events| && events[i].fd == fd
  }

  /** An event is about the listening socket, or about an open connection as it is. */
  ghost predicate Reportable(conns: Conns, listenfd: int, e: Event) {
    e.fd != listenfd ==> e.fd in conns && (e.readable ==> conns[e.fd].Readable())
  }

  /** Taking the edges of the chosen descriptors away. */
  function WithoutEdges(conns: Conns, chosen: seq<int>): (r: Conns)
    ensures r.Keys == conns.Keys
    ensures forall fd :: fd in conns ==> r[fd] == conns[fd].(edge := conns[fd].edge && fd !in chosen)
  {
    map fd | fd in conns :: conns[fd].(edge := conns[fd].edge && fd !in chosen)
  }

  lemma WithoutEdgesKeepsGood(conns: Conns, others: set<int>, closed: seq<Conn>, accepted: nat, chosen: seq<int>)
    requires AllGood(conns, others, -1) && Numbered(conns, closed, accepted)
    ensures AllGood(WithoutEdges(conns, chosen), others, -1)
    ensures Numbered(WithoutEdges(conns, chosen), closed, accepted)
  {
    forall f | f in conns ensures GoodAt(WithoutEdges(conns, chosen), others, -1, f) {
      assert GoodAt(conns, others, -1, f);
    }
    SameKeysNumbered(conns, WithoutEdges(conns, chosen), closed, accepted);
  }

  function EventsFor(chosen: seq<int>): (events: seq<Event>)
    ensures |events| == |chosen| && forall i :: 0 <= i < |events| ==> events[i] == Event(chosen[i], true)
    ensures forall fd :: Mentioned(events, fd) <==> fd in chosen
  {
    var events := seq(|chosen|, i requires 0 <= i < |chosen| => Event(chosen[i], true));
    assert forall fd :: fd in chosen ==> Mentioned(events, fd) by {
      forall fd | fd in chosen ensures Mentioned(events, fd) {
        var i :| 0 <= i < |chosen| && chosen[i] == fd;
        assert events[i].fd == fd;
      }
    }
    events
  }

  /** The event is about something that was ready. */
  ghost predicate WasReady(e: Event, found: Conns, listenfd: int, edge: bool) {
    e.readable && if e.fd in found then found[e.fd].Ready() else e.fd == listenfd && edge
  }

  /** What `recv` says of the connection that it finds: no bytes mean its end, an error, or that there is
      nothing to receive. */
  ghost predicate RecvFinds(c: Conn, ret: int, errno: Error) {
    && (ret == 0 ==> c.hungUp && c.queue == [])
    && (ret < 0 && errno != Again ==> c.failed)
    && (ret < 0 && errno == Again <==> !c.Readable())
  }

  /** The connection after a `recv` that gave no bytes: an error that overtook bytes is remembered. */
  function AfterNoBytes(c: Conn, ret: int, errno: Error): Conn {
    c.(cut := c.cut || (ret < 0 && errno != Again && c.queue != []))
  }
}
