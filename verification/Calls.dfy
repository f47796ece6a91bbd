/** The server's system calls with their results, and which calls the handlers make of which results. */
module Calls {
  import opened Connections

  datatype Call =
    | WaitCall(events: seq<Event>)
    | AcceptCall(ret: int)
    | AddCall(fd: int, edgeTriggered: bool)
    | RecvCall(fd: int, len: nat, ret: int, errno: Error)
    | PrintCall(fd: int, count: int)
    | CloseCall(fd: int)

  /** For the listening socket: `accept`, and `addfd` of whatever it returned. */
  ghost predicate AcceptCalls(part: seq<Call>, edgeTriggered: bool) {
    && |part| == 2
    && part[0].AcceptCall?
    && part[1] == AddCall(part[0].ret, edgeTriggered)
  }

  /** One `recv` of at most 9 bytes, so that a zero byte fits behind them, and `printf` of the bytes. Without
      bytes the connection is closed, whatever the reason. */
  ghost predicate ReadCalls(part: seq<Call>, fd: int) {
    && |part| == 2
    && part[0].RecvCall? && part[0].fd == fd && part[0].len == 9
    && part[1] == if 0 < part[0].ret then PrintCall(fd, part[0].ret) else CloseCall(fd)
  }

  /** A turn of the loop in `et` after which it goes on. */
  ghost predicate GoesOn(part: seq<Call>, fd: int) {
    ReadCalls(part, fd) && 0 <= part[0].ret
  }

  /** The turn that ends the loop: nothing to receive now, or an error and a `close`. */
  ghost predicate Ends(part: seq<Call>, fd: int) {
    if |part| == 1 then
      part[0].RecvCall? && part[0].fd == fd && part[0].len == 9 && part[0].ret < 0 && part[0].errno == Again
    else
      ReadCalls(part, fd) && part[0].ret < 0 && part[0].errno != Again
  }

  function Flatten(parts: seq<seq<Call>>): seq<Call> {
    if parts == [] then [] else Flatten(parts[..|parts| - 1]) + parts[|parts| - 1]
  }

  ghost predicate AllGoOn(turns: seq<seq<Call>>, fd: int) {
    forall i :: 0 <= i < |turns| ==> GoesOn(turns[i], fd)
  }

  /** The whole loop in `et`: turns after which it goes on, and then the one that ends it. */
  ghost predicate DrainTurns(turns: seq<seq<Call>>, fd: int) {
    turns != [] && AllGoOn(turns[..|turns| - 1], fd) && Ends(turns[|turns| - 1], fd)
  }

  ghost predicate DrainCalls(part: seq<Call>, fd: int) {
    exists turns :: DrainTurns(turns, fd) && part == Flatten(turns)
  }

  lemma OneMoreTurn(turns: seq<seq<Call>>, turn: seq<Call>, fd: int)
    requires AllGoOn(turns, fd)
    ensures Flatten(turns + [turn]) == Flatten(turns) + turn
    ensures GoesOn(turn, fd) ==> AllGoOn(turns + [turn], fd)
    ensures Ends(turn, fd) ==> DrainTurns(turns + [turn], fd)
  {
    assert (turns + [turn])[..|turns|] == turns;
  }

  /** The calls of one `recv` and, when bytes came, one `printf`. */
  function Reading(fd: int, ret: int, errno: Error): seq<Call> {
    [RecvCall(fd, 9, ret, errno)] + if 0 < ret then [PrintCall(fd, ret)] else []
  }

  lemma ReadingTurns(fd: int, ret: int, errno: Error)
    ensures 0 < ret ==> ReadCalls(Reading(fd, ret, errno), fd) && GoesOn(Reading(fd, ret, errno), fd)
    ensures ret <= 0 ==> ReadCalls(Reading(fd, ret, errno) + [CloseCall(fd)], fd)
    ensures ret == 0 ==> GoesOn(Reading(fd, ret, errno) + [CloseCall(fd)], fd)
    ensures ret < 0 && errno == Again ==> Ends(Reading(fd, ret, errno), fd)
    ensures ret < 0 && errno != Again ==> Ends(Reading(fd, ret, errno) + [CloseCall(fd)], fd)
  {
  }

  /** What a handler does about one event. */
  ghost predicate EventCalls(mode: Mode, listenfd: int, e: Event, part: seq<Call>) {
    if e.fd == listenfd then AcceptCalls(part, mode.EdgeTriggered?)
    else if !e.readable then part == []
    else if mode.EdgeTriggered? then DrainCalls(part, e.fd)
    else ReadCalls(part, e.fd)
  }

  /** What it does about a batch of events, one part for each event. */
  ghost predicate BatchCalls(mode: Mode, listenfd: int, events: seq<Event>, parts: seq<seq<Call>>) {
    |parts| == |events| && forall i :: 0 <= i < |events| ==> EventCalls(mode, listenfd, events[i], parts[i])
  }

  lemma OneMorePart(mode: Mode, listenfd: int, events: seq<Event>, i: nat, parts: seq<seq<Call>>, part: seq<Call>)
    requires i < |events| && BatchCalls(mode, listenfd, events[..i], parts)
    requires EventCalls(mode, listenfd, events[i], part)
    ensures BatchCalls(mode, listenfd, events[..i + 1], parts + [part])
    ensures Flatten(parts + [part]) == Flatten(parts) + part
  {
    var more := parts + [part];
    assert more[..|parts|] == parts;
    forall j | 0 <= j <= i ensures EventCalls(mode, listenfd, events[..i + 1][j], more[j]) {
      if j < i {
        assert EventCalls(mode, listenfd, events[..i][j], parts[j]);
      }
    }
  }

  /** How often `accept` was called. */
  function Accepts(calls: seq<Call>): nat {
    if calls == [] then 0
    else Accepts(calls[..|calls| - 1]) + if calls[|calls| - 1].AcceptCall? then 1 else 0
  }

  lemma {:induction false} AcceptsTogether(a: seq<Call>, b: seq<Call>)
    ensures Accepts(a + b) == Accepts(a) + Accepts(b)
    decreases |b|
  {
    if b == [] {
      assert a + b == a;
    } else {
      assert (a + b)[..|a + b| - 1] == a + b[..|b| - 1];
      AcceptsTogether(a, b[..|b| - 1]);
    }
  }

  lemma {:induction false} NoAccepts(calls: seq<Call>)
    requires forall i :: 0 <= i < |calls| ==> !calls[i].AcceptCall?
    ensures Accepts(calls) == 0
  {
    if calls != [] {
      NoAccepts(calls[..|calls| - 1]);
    }
  }

  lemma {:induction false} TurnsDoNotAccept(turns: seq<seq<Call>>, fd: int)
    requires forall i :: 0 <= i < |turns| ==> GoesOn(turns[i], fd) || Ends(turns[i], fd)
    ensures Accepts(Flatten(turns)) == 0
    decreases |turns|
  {
    if turns != [] {
      var n := |turns| - 1;
      TurnsDoNotAccept(turns[..n], fd);
      NoAccepts(turns[n]);
      AcceptsTogether(Flatten(turns[..n]), turns[n]);
    }
  }

  lemma AcceptCallsAccept(part: seq<Call>, edgeTriggered: bool)
    requires AcceptCalls(part, edgeTriggered)
    ensures Accepts(part) == 1
  {
    assert Accepts(part[..1]) == 1 by {
      assert part[..1][..0] == [];
    }
  }

  lemma DrainCallsDoNotAccept(part: seq<Call>, fd: int)
    requires DrainCalls(part, fd)
    ensures Accepts(part) == 0
  {
    var turns :| DrainTurns(turns, fd) && part == Flatten(turns);
    forall i | 0 <= i < |turns| ensures GoesOn(turns[i], fd) || Ends(turns[i], fd) {
      if i < |turns| - 1 {
        assert GoesOn(turns[..|turns| - 1][i], fd);
      }
    }
    TurnsDoNotAccept(turns, fd);
  }

  /** A handler calls `accept` for an event about the listening socket, once, and for no other. */
  lemma EventAccepts(mode: Mode, listenfd: int, e: Event, part: seq<Call>)
    requires EventCalls(mode, listenfd, e, part)
    ensures Accepts(part) == if e.fd == listenfd then 1 else 0
  {
    if e.fd == listenfd {
      AcceptCallsAccept(part, mode.EdgeTriggered?);
    } else if e.readable && mode.EdgeTriggered? {
      DrainCallsDoNotAccept(part, e.fd);
    } else {
      NoAccepts(part);
    }
  }

  /** In a batch `accept` is called exactly once if the listening socket is in it, and otherwise not. */
  lemma {:induction false} BatchAccepts(mode: Mode, listenfd: int, events: seq<Event>, parts: seq<seq<Call>>)
    requires DistinctEvents(events) && BatchCalls(mode, listenfd, events, parts)
    ensures Accepts(Flatten(parts)) == if Mentioned(events, listenfd) then 1 else 0
    decreases |events|
  {
    if events != [] {
      var n := |events| - 1;
      var before := events[..n];
      BatchAccepts(mode, listenfd, before, parts[..n]);
      EventAccepts(mode, listenfd, events[n], parts[n]);
      AcceptsTogether(Flatten(parts[..n]), parts[n]);
      MentionedLast(events, listenfd);
    }
  }

  lemma MentionedLast(events: seq<Event>, fd: int)
    requires DistinctEvents(events) && events != []
    ensures Mentioned(events, fd) <==> Mentioned(events[..|events| - 1], fd) || events[|events| - 1].fd == fd
    ensures events[|events| - 1].fd == fd ==> !Mentioned(events[..|events| - 1], fd)
  {
    var n := |events| - 1;
    if i :| 0 <= i < |events| && events[i].fd == fd {
      assert i < n ==> events[..n][i].fd == fd;
    }
    if i :| 0 <= i < n && events[..n][i].fd == fd {
      assert events[i].fd == fd;
    }
  }
}
