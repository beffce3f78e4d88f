// What one client of the simple server sees: each descriptor on its own, told by the
// events that concern it.
module ServerSessions {
  import opened Options
  import opened ServerStreams

  // A descriptor that is not in use, or one that has been asked for so many bytes and has
  // sent so many of them
  datatype Session = Idle | Busy(asked: nat, sent: nat)

  // The accept on some listener hands out the descriptor, and none fails before it.
  ghost predicate HandedOut(ls: seq<nat>, accepts: nat -> Accepting, fd: nat) {
    exists j :: 0 <= j < |ls| && accepts(ls[j]) == Accepts(fd) && forall i :: 0 <= i < j ==> accepts(ls[i]).Accepts?
  }

  ghost function Opened(s: Session, e: Events, fd: nat): Session {
    if HandedOut(e.listeners, e.accepts, fd) then Busy(0, 0) else s
  }

  // A new request takes the place of the one before.
  ghost function Asked(s: Session, e: Events, fd: nat): Session {
    if s.Busy? && fd in e.readable && e.requests(fd).Some? then Busy(e.requests(fd).value, 0) else s
  }

  function Least(a: nat, b: nat): nat { if a < b then a else b }

  // As much of what is owed is sent as the socket takes, 1448 bytes at most at a time; the
  // descriptor is let go with the last byte, or on a broken pipe when something is owed.
  function SentOn(s: Session, w: Writing): Session {
    if s.Idle? || s.sent >= s.asked then s
    else
      match w
      case WouldBlock => s
      case BrokenPipe => Idle
      case Room(room) =>
        var sent := s.sent + Least(s.asked - s.sent, Least(1448, room));
        if sent == s.asked then Idle else Busy(s.asked, sent)
  }

  ghost function Sent(s: Session, e: Events, fd: nat): Session {
    if fd in e.writable then SentOn(s, e.writes(fd)) else s
  }

  ghost function SessionAfter(es: seq<Events>, fd: nat): Session
    decreases |es|
  {
    if es == [] then Idle
    else
      var e := es[|es| - 1];
      Sent(Asked(Opened(SessionAfter(es[..|es| - 1], fd), e, fd), e, fd), e, fd)
  }

  // The server's books say the same of the descriptor.
  ghost predicate Shows(v: Srv, fd: nat, s: Session)
    requires fd < |v.streams|
  {
    match s
    case Idle => fd !in v.active
    case Busy(asked, sent) => fd in v.active && v.streams[fd] == Stream(true, asked, sent)
  }

  // ---------------------------------------------------------------------
  // The three steps of a pass

  lemma HandedOutMore(ls: seq<nat>, accepts: nat -> Accepting, fd: nat)
    requires ls != []
    ensures var n := |ls| - 1;
            HandedOut(ls, accepts, fd) <==>
              HandedOut(ls[..n], accepts, fd)
              || (accepts(ls[n]) == Accepts(fd) && forall i :: 0 <= i < n ==> accepts(ls[i]).Accepts?)
  {
    var n := |ls| - 1;
    assert forall i :: 0 <= i < n ==> ls[..n][i] == ls[i];
  }

  lemma {:induction false} AcceptsShown(v: Srv, ls: seq<nat>, accepts: nat -> Accepting, fd: nat)
    requires InRange(accepts, |v.streams|) && Below(ls, |v.streams|) && fd < |v.streams|
    ensures var r := AcceptAll(v, ls, accepts);
            && (r.rc >= 0 <==> forall i :: 0 <= i < |ls| ==> accepts(ls[i]).Accepts?)
            && r.srv.finished == v.finished
            && (fd in r.srv.active <==> fd in v.active || HandedOut(ls, accepts, fd))
            && r.srv.streams[fd] == if HandedOut(ls, accepts, fd) then Stream(true, 0, 0) else v.streams[fd]
    decreases |ls|
  {
    if ls != [] {
      var n := |ls| - 1;
      AcceptsShown(v, ls[..n], accepts, fd);
      HandedOutMore(ls, accepts, fd);
      assert forall i :: 0 <= i < n ==> ls[..n][i] == ls[i];
    }
  }

  // Where a request was read, it is what the stream is to send; nothing else changes.
  lemma {:induction false} RequestsShown(v: Srv, fds: seq<nat>, requests: nat -> Option<nat>, fd: nat)
    requires Below(fds, |v.streams|) && fd < |v.streams|
    ensures var r := RequestAll(v, fds, requests);
            && r.active == v.active && r.finished == v.finished && r.maxfd == v.maxfd
            && r.streams[fd] ==
               if fd in fds && requests(fd).Some? then Stream(v.streams[fd].open, requests(fd).value, 0)
               else v.streams[fd]
    decreases |fds|
  {
    if fds != [] {
      var n := |fds| - 1;
      assert fds == fds[..n] + [fds[n]];
      RequestsShown(v, fds[..n], requests, fd);
    }
  }

  // One write, to the stream alone
  lemma WriteShown(r: WriteResult, fd: nat, w: Writing, s: Session)
    requires Serving(r.srv) && WithinTarget(r.srv) && fd < |r.srv.streams| && Shows(r.srv, fd, s) && s.Busy?
    ensures Shows(WriteOne(r, fd, w).srv, fd, SentOn(s, w))
    ensures fd !in WriteOne(r, fd, w).srv.active && !w.BrokenPipe? ==>
              WriteOne(r, fd, w).srv.streams[fd] == Stream(false, s.asked, s.asked)
  {
    assert Diff(r.srv.streams[fd]) == s.asked - s.sent;
  }

  // What is owed, as the code computes it: the difference of two 32-bit numbers read as a
  // signed one.
  lemma OwedMeans(s: Stream)
    ensures -0x8000_0000 <= Diff(s) < 0x8000_0000
    ensures (Diff(s) - (s.target - s.sent)) % 0x1_0000_0000 == 0
  {
  }

  // When that is negative a write is not held to a buffer: the socket is given all it takes.
  lemma HugeRequest(r: WriteResult, fd: nat, room: nat)
    requires fd < |r.srv.streams| && Diff(r.srv.streams[fd]) < 0
    ensures var s, r' := r.srv.streams[fd], WriteOne(r, fd, Room(room));
            r'.fin == r.fin && r'.srv.active == r.srv.active
            && r'.srv.streams[fd] == if room == 0 then s else s.(sent := (s.sent + room) % 0x1_0000_0000)
  {
  }

  lemma {:induction false} WritesShown(v: Srv, fds: seq<nat>, writes: nat -> Writing, fd: nat, s: Session)
    requires Serving(v) && WithinTarget(v) && Distinct(fds) && (forall x :: x in fds ==> x in v.active)
    requires fd < |v.streams| && Shows(v, fd, s)
    ensures Below(fds, |v.streams|)
    ensures var r := WriteAll(v, fds, writes).srv;
            && Shows(r, fd, if fd in fds then SentOn(s, writes(fd)) else s)
            && (fd in fds && fd !in r.active && !writes(fd).BrokenPipe? ==>
                  s.Busy? && r.streams[fd] == Stream(false, s.asked, s.asked))
    decreases |fds|
  {
    if fds != [] {
      var n := |fds| - 1;
      var x := fds[n];
      assert fds == fds[..n] + [x] && x !in fds[..n];
      WritesShown(v, fds[..n], writes, fd, s);
      WritesCount(v, fds[..n], writes);
      WritesStayWithin(v, fds[..n], writes);
      var r := WriteAll(v, fds[..n], writes);
      if fd == x {
        WriteShown(r, fd, writes(fd), s);
      } else {
        OthersShown(r, x, writes(x), fd);
      }
    }
  }

  lemma OthersShown(r: WriteResult, x: nat, w: Writing, fd: nat)
    requires x < |r.srv.streams| && fd < |r.srv.streams| && fd != x
    ensures var r' := WriteOne(r, x, w);
            (fd in r'.srv.active <==> fd in r.srv.active) && r'.srv.streams[fd] == r.srv.streams[fd]
  {
  }

  // ---------------------------------------------------------------------
  // Passes and runs

  ghost predicate Kept(x: Server) { Balanced(x) && WithinTarget(x.srv) }

  lemma PassKept(x: Server, e: Events)
    requires Kept(x) && Possible(x, e) && Modest(e.requests)
    ensures Kept(Passed(x, e))
  {
    PassKeepsBalance(x, e);
    PassStaysWithin(x, e);
  }

  lemma PassShown(x: Server, e: Events, fd: nat, s: Session)
    requires Kept(x) && Possible(x, e) && Modest(e.requests) && fd < FD_SETSIZE && Shows(x.srv, fd, s)
    ensures var asked := Asked(Opened(s, e, fd), e, fd);
            && Shows(Passed(x, e).srv, fd, Sent(asked, e, fd))
            && (asked.Busy? && fd !in Passed(x, e).srv.active && !(fd in e.writable && e.writes(fd).BrokenPipe?) ==>
                  Passed(x, e).srv.streams[fd] == Stream(false, asked.asked, asked.asked))
  {
    var a := AcceptAll(x.srv, e.listeners, e.accepts).srv;
    AcceptCounts(x.srv, e.listeners, e.accepts);
    AcceptsShown(x.srv, e.listeners, e.accepts, fd);
    assert Shows(a, fd, Opened(s, e, fd));
    var v := RequestAll(a, e.readable, e.requests);
    RequestsKeepServing(a, e.readable, e.requests);
    RequestsShown(a, e.readable, e.requests, fd);
    RequestsStayWithin(a, e.readable, e.requests);
    assert Shows(v, fd, Asked(Opened(s, e, fd), e, fd));
    WritesShown(v, e.writable, e.writes, fd, Asked(Opened(s, e, fd), e, fd));
  }

  lemma {:induction false} RunKept(xs: seq<Server>, es: seq<Events>)
    requires IsRun(xs, es) && Started(xs[0]) && forall i :: 0 <= i < |es| ==> Modest(es[i].requests)
    ensures Kept(xs[|es|])
  {
    RunBalances(xs, es);
  }

  // In every run with requests below 2^31 each descriptor is served as if it were alone:
  // what is asked of it last and what it has sent of that follow from its own events.
  lemma {:induction false} RunServesEach(xs: seq<Server>, es: seq<Events>, fd: nat)
    requires IsRun(xs, es) && Started(xs[0]) && (forall i :: 0 <= i < |es| ==> Modest(es[i].requests))
    requires fd < FD_SETSIZE
    ensures |xs[|es|].srv.streams| == FD_SETSIZE && Shows(xs[|es|].srv, fd, SessionAfter(es, fd))
    decreases |es|
  {
    if es != [] {
      var n := |es| - 1;
      var before, init := xs[..|xs| - 1], es[..n];
      assert IsRun(before, init) && forall i :: 0 <= i < n ==> init[i] == es[i];
      RunServesEach(before, init, fd);
      RunKept(before, init);
      assert Possible(xs[n], es[n]) && before[n] == xs[n];
      PassShown(xs[n], es[n], fd, SessionAfter(init, fd));
    }
  }

  // A stream that goes away in a pass, other than on a broken pipe, has sent exactly the
  // bytes it was last asked for.
  lemma LeavesServed(xs: seq<Server>, es: seq<Events>, fd: nat)
    requires IsRun(xs, es) && Started(xs[0]) && (forall i :: 0 <= i < |es| ==> Modest(es[i].requests))
    requires fd < FD_SETSIZE && es != []
    ensures var n := |es| - 1;
            var last := Asked(Opened(SessionAfter(es[..n], fd), es[n], fd), es[n], fd);
            last.Busy? && fd !in xs[n + 1].srv.active && !(fd in es[n].writable && es[n].writes(fd).BrokenPipe?) ==>
              |xs[n + 1].srv.streams| == FD_SETSIZE
              && xs[n + 1].srv.streams[fd] == Stream(false, last.asked, last.asked)
  {
    var n := |es| - 1;
    var before, init := xs[..|xs| - 1], es[..n];
    assert IsRun(before, init) && forall i :: 0 <= i < n ==> init[i] == es[i];
    RunServesEach(before, init, fd);
    RunKept(before, init);
    assert Possible(xs[n], es[n]) && before[n] == xs[n];
    PassShown(xs[n], es[n], fd, SessionAfter(init, fd));
  }
}
