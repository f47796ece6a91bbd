/** What the event handlers need of the kernel: connections with byte queues, and an epoll instance.

    The network acts before the server's calls: it may deliver any bytes on any connection, hang up, fail a
    connection, or bring a new client, any finite number of times. */
module Sockets {
  import opened Calls
  import opened Connections

  class Kernel {
    const listenfd: int
    /** Descriptors that are not connections: the listening socket, the epoll instance, standard streams. */
    const others: set<int>
    /** The open connections by descriptor, and those that were closed. */
    var conns: Conns
    var closed: seq<Conn>
    /** How many clients have arrived so far, how many were accepted, and how many had arrived when the
        listening socket was last reported. */
    var arrived: nat
    var accepted: nat
    var noticed: nat
    /** How many more times the network will act. */
    var traffic: nat
    /** How many times the server has called `epoll_wait`, and all its calls, with their results. */
    var waits: nat
    ghost var calls: seq<Call>
    /** How often `accept` has failed although a client was waiting, as it does when descriptors run out. */
    ghost var refusals: nat

    constructor (listenfd: int, others: set<int>, traffic: nat)
      requires listenfd in others && forall fd :: fd in others ==> 0 <= fd
      ensures this.listenfd == listenfd && this.others == others && Valid()
      ensures conns == map[] && closed == [] && calls == []
    {
      this.listenfd, this.others, this.traffic := listenfd, others, traffic;
      conns, closed, arrived, accepted, noticed, waits := map[], [], 0, 0, 0, 0;
      calls, refusals := [], 0;
    }

    /** An edge is pending on the listening socket: a client has arrived since it was last reported. */
    predicate ListenEdge()
      reads this
    {
      noticed < arrived
    }

    ghost predicate Valid()
      reads this
    {
      ValidBut(-1)
    }

    /** The invariant, except that bytes received from `pending` may not have been printed yet. */
    ghost predicate ValidBut(pending: int)
      reads this
    {
      && listenfd in others && (forall fd :: fd in others ==> 0 <= fd)
      && accepted <= arrived && noticed <= arrived
      && AllGood(conns, others, pending)
      && Numbered(conns, closed, accepted)
      && (forall c :: c in closed ==> c.Conserved())
    }

    /** One act of the network. */
    method Act()
      requires Valid() && 0 < traffic
      modifies this`conns, this`arrived, this`traffic
      ensures Valid() && traffic < old(traffic)
      ensures Acted(old(conns), conns, old(arrived), arrived, old(traffic), traffic)
    {
      traffic := traffic - 1;
      var fd: int := *;
      if fd in conns {
        var bytes: seq<Byte>, end: bool, error: bool := *, *, *;
        var d := Receives(conns[fd], bytes, end, error);
        assert GoodAt(conns, others, -1, fd);
        UpdateKeepsGood(conns, others, closed, accepted, fd, d, -1, -1);
        OneGrew(conns, fd, d);
        conns := conns[fd := d];
      } else {
        AllGrewSame(conns);
        arrived := arrived + 1;
      }
    }

    /** Any number of acts of the network. */
    method Network()
      requires Valid()
      modifies this`conns, this`arrived, this`traffic
      ensures Valid() && Acted(old(conns), conns, old(arrived), arrived, old(traffic), traffic)
    {
      AllGrewSame(conns);
      while *
        invariant Valid() && Acted(old(conns), conns, old(arrived), arrived, old(traffic), traffic)
        decreases traffic
      {
        if traffic == 0 {
          break;
        }
        ghost var earlier := conns;
        Act();
        AllGrewTwice(old(conns), earlier, conns);
      }
    }

    /** `recv(fd, buf, len, 0)` on a descriptor that does not block. Any number of the available bytes
        that fits may come; a pending error may come before them. */
    method Recv(fd: int, buf: array<Byte>, len: nat) returns (ret: int, errno: Error)
      requires Valid() && 0 < len <= buf.Length
      requires fd in conns ==> conns[fd].nonblocking
      modifies this`conns, this`calls, buf
      ensures calls == old(calls) + [RecvCall(fd, len, ret, errno)]
      ensures ret <= len
      ensures forall i :: 0 <= i < buf.Length && ret <= i ==> buf[i] == old(buf[i])
      ensures fd !in old(conns) ==> ret < 0 && errno == Other && conns == old(conns)
      ensures fd in old(conns) && 0 < ret ==> var c := old(conns)[fd];
        ret <= |c.queue| && conns == old(conns)[fd := c.(queue := c.queue[ret..])] && buf[..ret] == c.queue[..ret]
      ensures fd in old(conns) && ret <= 0 ==> conns == old(conns)[fd := AfterNoBytes(old(conns)[fd], ret, errno)]
      ensures fd in old(conns) ==> RecvFinds(old(conns)[fd], ret, errno)
      ensures ValidBut(if 0 < ret then fd else -1)
    {
      ret, errno := Answer(fd, buf, len);
      calls := calls + [RecvCall(fd, len, ret, errno)];
    }

    /** What `recv` does to the connection and the buffer. */
    method Answer(fd: int, buf: array<Byte>, len: nat) returns (ret: int, errno: Error)
      requires Valid() && 0 < len <= buf.Length
      modifies this`conns, buf
      ensures ret <= len
      ensures forall i :: 0 <= i < buf.Length && ret <= i ==> buf[i] == old(buf[i])
      ensures fd !in old(conns) ==> ret < 0 && errno == Other && conns == old(conns)
      ensures fd in old(conns) && 0 < ret ==> var c := old(conns)[fd];
        ret <= |c.queue| && conns == old(conns)[fd := c.(queue := c.queue[ret..])] && buf[..ret] == c.queue[..ret]
      ensures fd in old(conns) && ret <= 0 ==> conns == old(conns)[fd := AfterNoBytes(old(conns)[fd], ret, errno)]
      ensures fd in old(conns) ==> RecvFinds(old(conns)[fd], ret, errno)
      ensures ValidBut(if 0 < ret then fd else -1)
    {
      if fd !in conns {
        return -1, Other;
      }
      var c := conns[fd];
      assert GoodAt(conns, others, -1, fd);
      var early: bool := *;
      if c.failed && (c.queue == [] || early) {
        var d := AfterNoBytes(c, -1, Other);
        UpdateKeepsGood(conns, others, closed, accepted, fd, d, -1, -1);
        conns := conns[fd := d];
        return -1, Other;
      } else if c.queue != [] {
        var n: nat := *;
        if n < 1 || len < n || |c.queue| < n {
          n := 1;
        }
        forall i | 0 <= i < n {
          buf[i] := c.queue[i];
        }
        UpdateKeepsGood(conns, others, closed, accepted, fd, c.(queue := c.queue[n..]), -1, fd);
        conns := conns[fd := c.(queue := c.queue[n..])];
        return n, Success;
      } else if c.hungUp {
        return 0, Success;
      } else {
        return -1, Again;
      }
    }

    /** The server's `printf` of the buffer that it has received from `fd`. */
    method Print(fd: int, ret: nat, buf: array<Byte>)
      requires ValidBut(fd) && fd in conns
      requires var c := conns[fd]; c.(printed := c.printed + [Message(ret, buf[..])]).Conserved()
      modifies this`conns, this`calls
      ensures Valid() && calls == old(calls) + [PrintCall(fd, ret)]
      ensures var c := old(conns)[fd]; conns == old(conns)[fd := c.(printed := c.printed + [Message(ret, buf[..])])]
    {
      var c := conns[fd];
      var d := c.(printed := c.printed + [Message(ret, buf[..])]);
      assert GoodAt(conns, others, fd, fd);
      UpdateKeepsGood(conns, others, closed, accepted, fd, d, fd, -1);
      conns := conns[fd := d];
      calls := calls + [PrintCall(fd, ret)];
    }

    /** `close(fd)`. A descriptor that is not open is left alone. */
    method Close(fd: int)
      requires Valid()
      modifies this`conns, this`closed, this`calls
      ensures Valid() && calls == old(calls) + [CloseCall(fd)]
      ensures conns == old(conns) - {fd}
      ensures closed == old(closed) + if fd in old(conns) then [old(conns)[fd]] else []
    {
      Release(fd);
      calls := calls + [CloseCall(fd)];
    }

    method Release(fd: int)
      requires Valid()
      modifies this`conns, this`closed
      ensures Valid()
      ensures conns == old(conns) - {fd}
      ensures closed == old(closed) + if fd in old(conns) then [old(conns)[fd]] else []
    {
      if fd in conns {
        CloseKeepsGood(conns, others, closed, accepted, fd);
        closed := closed + [conns[fd]];
        conns := conns - {fd};
      }
    }

    /** The lowest number that is not an open descriptor. */
    method UnusedDescriptor() returns (fd: int)
      ensures fd !in conns && fd !in others && 0 <= fd
      ensures forall i :: 0 <= i < fd ==> i in conns || i in others
    {
      fd := 0;
      ghost var above := conns.Keys + others;
      while fd in conns || fd in others
        invariant 0 <= fd
        invariant forall i :: 0 <= i < fd ==> i in conns || i in others
        invariant forall i :: fd <= i && (i in conns || i in others) ==> i in above
        decreases above
      {
        above := above - {fd};
        fd := fd + 1;
      }
    }

    /** `accept(listenfd, ...)`: a new connection that may already hold bytes, or -1 if no client waits or
        the kernel refuses. */
    method Accept() returns (connfd: int)
      requires Valid()
      modifies this`conns, this`accepted, this`calls, this`refusals
      ensures Valid() && calls == old(calls) + [AcceptCall(connfd)]
      ensures refusals == old(refusals) + if connfd < 0 && accepted < arrived then 1 else 0
      ensures connfd < 0 ==> connfd !in conns && conns == old(conns) && accepted == old(accepted)
      ensures 0 <= connfd ==>
        && connfd !in old(conns) && connfd !in others && connfd in conns
        && conns == old(conns)[connfd := conns[connfd]]
        && accepted == old(accepted) + 1 && old(accepted) < arrived
        && conns[connfd].mode.Unregistered? && conns[connfd].printed == [] && conns[connfd].id == old(accepted)
    {
      var refused: bool := *;
      if accepted == arrived || refused {
        assert -1 in conns ==> GoodAt(conns, others, -1, -1);
        refusals := refusals + if accepted < arrived then 1 else 0;
        calls := calls + [AcceptCall(-1)];
        return -1;
      }
      connfd := UnusedDescriptor();
      var bytes: seq<Byte>, end: bool, error: bool := *, *, *;
      assert Received([]) + bytes == bytes;
      var d := Conn(accepted, bytes, bytes, end, error, false, [], Unregistered, false, false);
      AcceptKeepsGood(conns, others, closed, accepted, connfd, d);
      conns := conns[connfd := d];
      accepted := accepted + 1;
      calls := calls + [AcceptCall(connfd)];
    }

    /** `addfd`: registers a connection in the given mode, non-blocking, and not stranded: if there is
        something to receive already, then it has an edge. A descriptor that is not open is refused. */
    method AddFd(fd: int, enableEt: bool)
      requires Valid()
      modifies this`conns, this`calls
      ensures Valid() && conns.Keys == old(conns).Keys && calls == old(calls) + [AddCall(fd, enableEt)]
      ensures forall f :: f in conns && f != fd ==> conns[f] == old(conns)[f]
      ensures fd in conns ==>
        var c, d := old(conns)[fd], conns[fd];
        && d.mode == (if enableEt then EdgeTriggered else LevelTriggered)
        && d.nonblocking && d.NotStranded()
        && d.id == c.id && d.sent == c.sent && d.queue == c.queue && d.printed == c.printed
        && d.hungUp == c.hungUp && d.failed == c.failed && d.cut == c.cut
    {
      if fd in conns {
        var c := conns[fd];
        var d := c.(mode := if enableEt then EdgeTriggered else LevelTriggered,
                    edge := enableEt && c.Readable(), nonblocking := true);
        assert GoodAt(conns, others, -1, fd);
        UpdateKeepsGood(conns, others, closed, accepted, fd, d, -1, -1);
        conns := conns[fd := d];
      }
      calls := calls + [AddCall(fd, enableEt)];
    }

    /** A connection is ready as its mode says; the listening socket, which is edge-triggered, while an
        edge is pending. */
    predicate Ready(fd: int)
      reads this
    {
      if fd in conns then conns[fd].Ready() else fd == listenfd && ListenEdge()
    }

    /** One descriptor that is ready, or none if none is. */
    method OneReady() returns (chosen: seq<int>)
      ensures |chosen| <= 1 && forall i :: 0 <= i < |chosen| ==> Ready(chosen[i])
      ensures chosen == [] ==> forall fd :: !Ready(fd)
    {
      if fd :| fd in conns.Keys + {listenfd} && Ready(fd) {
        return [fd];
      }
      return [];
    }

    /** Some of the descriptors that are ready, in any order; none only if none is. */
    method SomeReady() returns (chosen: seq<int>)
      ensures |chosen| <= MAX_EVENT_NUMBER
      ensures forall i, j :: 0 <= i < j < |chosen| ==> chosen[i] != chosen[j]
      ensures forall i :: 0 <= i < |chosen| ==> Ready(chosen[i])
      ensures chosen == [] ==> forall fd :: !Ready(fd)
    {
      chosen := *;
      if chosen == [] || MAX_EVENT_NUMBER < |chosen|
      || (exists i, j :: 0 <= i < j < |chosen| && chosen[i] == chosen[j])
      || (exists i :: 0 <= i < |chosen| && !Ready(chosen[i])) {
        chosen := OneReady();
      }
    }

    /** The network acts until some descriptor is ready; without that, it has no acts left. */
    method NetworkUntilReady() returns (ghost one: int)
      requires Valid()
      modifies this`conns, this`arrived, this`traffic
      ensures Valid() && Acted(old(conns), conns, old(arrived), arrived, old(traffic), traffic)
      ensures 0 < traffic ==> Ready(one)
    {
      Network();
      var chosen := OneReady();
      while chosen == [] && 0 < traffic
        invariant Valid() && Acted(old(conns), conns, old(arrived), arrived, old(traffic), traffic)
        invariant chosen != [] ==> Ready(chosen[0])
        decreases traffic
      {
        ghost var earlier := conns;
        Act();
        AllGrewTwice(old(conns), earlier, conns);
        chosen := OneReady();
      }
      one := if chosen == [] then -1 else chosen[0];
    }

    /** Reporting takes the edges of the reported descriptors away. */
    method Report(chosen: seq<int>)
      requires Valid()
      modifies this`conns, this`noticed
      ensures Valid() && conns == WithoutEdges(old(conns), chosen)
      ensures noticed == if listenfd in chosen then arrived else old(noticed)
    {
      WithoutEdgesKeepsGood(conns, others, closed, accepted, chosen);
      conns := WithoutEdges(conns, chosen);
      if listenfd in chosen {
        noticed := arrived;
      }
    }

    /** `epoll_wait(epollfd, events, MAX_EVENT_NUMBER, -1)`: some of the descriptors that are ready, at
        least one. It waits for one; the empty result stands for waiting forever. Reporting takes the
        edges of the reported descriptors away. `found` and `edge` are the connections and the edge of the
        listening socket as they were when it was done waiting. */
    method EpollWait() returns (events: seq<Event>, ghost found: Conns, ghost edge: bool)
      requires Valid()
      modifies this`conns, this`arrived, this`traffic, this`noticed, this`waits, this`calls
      ensures waits == old(waits) + 1 && calls == old(calls) + [WaitCall(events)]
      ensures Valid() && Acted(old(conns), found, old(arrived), arrived, old(traffic), traffic)
      ensures edge <==> old(noticed) < arrived
      ensures |events| <= 1024 && DistinctEvents(events)
      ensures forall i :: 0 <= i < |events| ==> WasReady(events[i], found, listenfd, edge)
      ensures events == [] ==> traffic == 0 && !edge && forall fd :: fd in found ==> !found[fd].Ready()
      ensures conns.Keys == found.Keys && forall fd :: fd in found ==>
        conns[fd] == found[fd].(edge := found[fd].edge && !Mentioned(events, fd))
      ensures noticed == if Mentioned(events, listenfd) then arrived else old(noticed)
    {
      waits := waits + 1;
      ghost var one := NetworkUntilReady();
      found, edge := conns, ListenEdge();
      assert listenfd !in conns by {
        assert listenfd in conns ==> GoodAt(conns, others, -1, listenfd);
      }
      var chosen := SomeReady();
      assert 0 < traffic ==> Ready(one);
      assert chosen == [] ==> !Ready(listenfd) && forall fd :: fd in found ==> !found[fd].Ready() by {
        assert forall fd :: fd in found ==> (Ready(fd) <==> found[fd].Ready());
      }
      events := EventsFor(chosen);
      Report(chosen);
      calls := calls + [WaitCall(events)];
    }
  }
}
