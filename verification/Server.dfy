// The server of tunnel_measurement/pttcp/simple_svr.c, with accept_incoming of pttcp.c and
// send_data of pttcp_util.c: which descriptors it serves and how it counts them.
module ServerStreams {
  import opened Options

  const FD_SETSIZE: nat := 1024
  const BUF_SIZE: int := 1448
  const TWO31: int := 0x8000_0000
  const TWO32: int := 0x1_0000_0000

  // The sending side of state_t; target and sent are 32-bit numbers.
  datatype Stream = Stream(open: bool, target: nat, sent: nat)

  datatype Srv = Srv(active: set<nat>, finished: set<nat>, streams: seq<Stream>, maxfd: nat)

  predicate Below(fds: seq<nat>, n: nat) { forall i :: 0 <= i < |fds| ==> fds[i] < n }

  // What accept and the ioctl after it do on a listener that is ready
  datatype Accepting = AcceptFails | IoctlFails(fd: nat) | Accepts(fd: nat)

  // What write does: `room` is what the socket can take. Any other error ends the program.
  datatype Writing = WouldBlock | BrokenPipe | Room(room: nat)

  // ---------------------------------------------------------------------
  // accept_incoming

  // rc is what the call returns, taken the number of descriptors it has made active.
  datatype AcceptResult = AcceptResult(srv: Srv, rc: int, taken: nat)

  function Max(a: nat, b: nat): nat { if a > b then a else b }

  function Accepted(v: Srv, fd: nat): Srv
    requires fd < |v.streams|
  {
    Srv(v.active + {fd}, v.finished, v.streams[fd := Stream(true, 0, 0)], Max(v.maxfd, fd))
  }

  predicate InRange(accepts: nat -> Accepting, n: nat) {
    forall l :: 0 <= l < n ==> match accepts(l)
                               case AcceptFails => true
                               case IoctlFails(fd) => fd < n
                               case Accepts(fd) => fd < n
  }

  function AcceptOne(r: AcceptResult, a: Accepting): (r': AcceptResult)
    requires match a case AcceptFails => true case IoctlFails(fd) => true case Accepts(fd) => fd < |r.srv.streams|
    ensures |r'.srv.streams| == |r.srv.streams|
  {
    if r.rc < 0 then r
    else
      match a
      case AcceptFails => r.(rc := -1)
      case IoctlFails(fd) => r.(srv := r.srv.(maxfd := Max(r.srv.maxfd, fd)), rc := -1)
      case Accepts(fd) => AcceptResult(Accepted(r.srv, fd), r.rc + 1, r.taken + 1)
  }

  // The listeners that are ready, in the order they are visited
  function AcceptAll(v: Srv, ls: seq<nat>, accepts: nat -> Accepting): (r: AcceptResult)
    requires InRange(accepts, |v.streams|) && Below(ls, |v.streams|)
    ensures |r.srv.streams| == |v.streams|
  {
    if ls == [] then AcceptResult(v, 0, 0)
    else AcceptOne(AcceptAll(v, ls[..|ls| - 1], accepts), accepts(ls[|ls| - 1]))
  }

  // ---------------------------------------------------------------------
  // send_data

  // tx_target - tx_sent, computed on unsigned numbers and stored in an int
  function Diff(s: Stream): int {
    var d := (s.target - s.sent) % TWO32;
    if d < TWO31 then d else d - TWO32
  }

  // A request read from the descriptor replaces the one before.
  function Requested(v: Srv, fd: nat, bytes: nat): Srv
    requires fd < |v.streams|
  {
    v.(streams := v.streams[fd := v.streams[fd].(target := bytes, sent := 0)])
  }

  // requests(fd) is empty when the read does not yield a whole number.
  function RequestAll(v: Srv, fds: seq<nat>, requests: nat -> Option<nat>): (r: Srv)
    requires Below(fds, |v.streams|)
    ensures |r.streams| == |v.streams|
  {
    if fds == [] then v
    else
      var w := RequestAll(v, fds[..|fds| - 1], requests);
      var fd := fds[|fds| - 1];
      if requests(fd).Some? then Requested(w, fd, requests(fd).value) else w
  }

  function Retired(v: Srv, fd: nat, s: Stream): Srv
    requires fd < |v.streams|
  {
    Srv(v.active - {fd}, v.finished + {fd}, v.streams[fd := s.(open := false)], v.maxfd)
  }

  // How much a write of `diff` bytes, at most a buffer's worth, puts on the socket; a
  // negative length is taken for a very large one.
  function Actual(diff: int, room: nat): nat {
    var len := if diff < BUF_SIZE then diff else BUF_SIZE;
    if 0 <= len < room then len else room
  }

  datatype WriteResult = WriteResult(srv: Srv, fin: nat)

  function WriteOne(r: WriteResult, fd: nat, w: Writing): (r': WriteResult)
    requires fd < |r.srv.streams|
    ensures |r'.srv.streams| == |r.srv.streams|
  {
    var s := r.srv.streams[fd];
    var diff := Diff(s);
    if diff == 0 then r
    else
      match w
      case WouldBlock => r
      case BrokenPipe => if s.open then WriteResult(Retired(r.srv, fd, s), r.fin + 1) else r
      case Room(room) =>
        var actual := Actual(diff, room);
        var s' := s.(sent := (s.sent + actual) % TWO32);
        if actual == 0 then r
        else if diff == actual then WriteResult(Retired(r.srv, fd, s'), r.fin + 1)
        else r.(srv := r.srv.(streams := r.srv.streams[fd := s']))
  }

  function WriteAll(v: Srv, fds: seq<nat>, writes: nat -> Writing): (r: WriteResult)
    requires Below(fds, |v.streams|)
    ensures |r.srv.streams| == |v.streams|
  {
    if fds == [] then WriteResult(v, 0)
    else WriteOne(WriteAll(v, fds[..|fds| - 1], writes), fds[|fds| - 1], writes(fds[|fds| - 1]))
  }

  // ---------------------------------------------------------------------
  // One pass of the server

  // What the system does in one pass: the listeners ready and what accept does on them,
  // the descriptors ready to read and what they ask for, and those ready to write.
  datatype Events = Events(listeners: seq<nat>, accepts: nat -> Accepting, readable: seq<nat>,
                           requests: nat -> Option<nat>, writable: seq<nat>, writes: nat -> Writing, report: bool)

  // What is counted since the last report and what was counted before it; missed are the
  // descriptors made active by calls of accept_incoming that then failed.
  datatype Server = Server(srv: Srv, openedNow: int, closedNow: int, openedBefore: int, closedBefore: int, missed: nat)

  ghost predicate Distinct(fds: seq<nat>) { forall i, j :: 0 <= i < j < |fds| ==> fds[i] != fds[j] }

  // Descriptors in use are open, not 0, and within maxfd.
  ghost predicate Serving(v: Srv) {
    && |v.streams| == FD_SETSIZE
    && forall fd :: fd in v.active ==> 0 < fd < FD_SETSIZE && fd <= v.maxfd && v.streams[fd].open
  }

  // accept hands out descriptors that are not in use.
  ghost predicate HandsOutUnused(v: Srv, ls: seq<nat>, accepts: nat -> Accepting)
    requires InRange(accepts, |v.streams|) && Below(ls, |v.streams|)
  {
    ls != [] ==>
      && HandsOutUnused(v, ls[..|ls| - 1], accepts)
      && match accepts(ls[|ls| - 1])
         case Accepts(fd) => fd > 0 && fd !in AcceptAll(v, ls[..|ls| - 1], accepts).srv.active
         case _ => true
  }

  lemma {:induction false} AcceptCounts(v: Srv, ls: seq<nat>, accepts: nat -> Accepting)
    requires Serving(v) && InRange(accepts, |v.streams|) && Below(ls, |v.streams|)
    requires HandsOutUnused(v, ls, accepts)
    ensures var r := AcceptAll(v, ls, accepts);
            && Serving(r.srv) && |r.srv.active| == |v.active| + r.taken && v.active <= r.srv.active
            && (r.rc >= 0 ==> r.rc == r.taken)
            && (forall fd :: fd in v.active ==> r.srv.streams[fd] == v.streams[fd])
            && (forall fd :: fd in r.srv.active && fd !in v.active ==> r.srv.streams[fd] == Stream(true, 0, 0))
    decreases |ls|
  {
    if ls != [] {
      AcceptCounts(v, ls[..|ls| - 1], accepts);
    }
  }

  lemma {:induction false} RequestsKeepServing(v: Srv, fds: seq<nat>, requests: nat -> Option<nat>)
    requires Serving(v) && Below(fds, |v.streams|)
    ensures var r := RequestAll(v, fds, requests); Serving(r) && r.active == v.active
    decreases |fds|
  {
    if fds != [] {
      RequestsKeepServing(v, fds[..|fds| - 1], requests);
    }
  }

  lemma WriteCounts(r: WriteResult, fd: nat, w: Writing)
    requires Serving(r.srv) && fd in r.srv.active
    ensures var r' := WriteOne(r, fd, w);
            && Serving(r'.srv) && |r'.srv.active| + r'.fin == |r.srv.active| + r.fin
            && r.srv.active - {fd} <= r'.srv.active <= r.srv.active
            && (forall other :: other in r.srv.active && other != fd ==> r'.srv.streams[other] == r.srv.streams[other])
  {
  }

  // Each descriptor that leaves is counted once.
  lemma {:induction false} WritesCount(v: Srv, fds: seq<nat>, writes: nat -> Writing)
    requires Serving(v) && Distinct(fds) && forall fd :: fd in fds ==> fd in v.active
    ensures Below(fds, |v.streams|)
    ensures var r := WriteAll(v, fds, writes);
            && Serving(r.srv) && |r.srv.active| == |v.active| - r.fin && r.srv.active <= v.active
            && (forall fd :: fd in v.active && fd !in fds ==> fd in r.srv.active && r.srv.streams[fd] == v.streams[fd])
    decreases |fds|
  {
    if fds != [] {
      var n := |fds| - 1;
      assert fds == fds[..n] + [fds[n]];
      WritesCount(v, fds[..n], writes);
      assert fds[n] !in fds[..n];
      WriteCounts(WriteAll(v, fds[..n], writes), fds[n], writes(fds[n]));
    }
  }

  // A stream goes away exactly when the last of what was asked for is written, or on a
  // broken pipe with something left to send.
  lemma WriteLeavesIff(r: WriteResult, fd: nat, w: Writing)
    requires Serving(r.srv) && fd in r.srv.active
    requires r.srv.streams[fd].sent <= r.srv.streams[fd].target < TWO31
    ensures var r' := WriteOne(r, fd, w);
            var s, s' := r.srv.streams[fd], r'.srv.streams[fd];
            && (fd !in r'.srv.active <==> s.sent < s.target && (w == BrokenPipe || s'.sent == s.target))
            && s'.target == s.target && s.sent <= s'.sent <= s.target && s'.sent - s.sent <= BUF_SIZE
            && (fd !in r'.srv.active <==> r'.fin == r.fin + 1) && (fd in r'.srv.active <==> r'.fin == r.fin)
            && (fd in r'.srv.finished <==> fd in r.srv.finished || fd !in r'.srv.active)
  {
    assert Diff(r.srv.streams[fd]) == r.srv.streams[fd].target - r.srv.streams[fd].sent;
  }

  // What the system may do in a pass
  ghost predicate Possible(x: Server, e: Events) {
    && InRange(e.accepts, |x.srv.streams|) && Below(e.listeners, |x.srv.streams|)
    && HandsOutUnused(x.srv, e.listeners, e.accepts)
    && Distinct(e.readable) && Distinct(e.writable)
    && Below(e.readable, |x.srv.streams|) && Below(e.writable, |x.srv.streams|)
    && var active := AcceptAll(x.srv, e.listeners, e.accepts).srv.active;
       forall fd :: fd in e.readable || fd in e.writable ==> fd in active
  }

  function Passed(x: Server, e: Events): (r: Server)
    requires InRange(e.accepts, |x.srv.streams|) && Below(e.listeners, |x.srv.streams|)
    requires Below(e.readable, |x.srv.streams|) && Below(e.writable, |x.srv.streams|)
    ensures |r.srv.streams| == |x.srv.streams|
  {
    var a := AcceptAll(x.srv, e.listeners, e.accepts);
    var w := WriteAll(RequestAll(a.srv, e.readable, e.requests), e.writable, e.writes);
    var gained := x.openedNow + (if a.rc > 0 then a.rc else 0);
    var lost := x.closedNow + w.fin;
    var missed := x.missed + (if a.rc < 0 then a.taken else 0);
    if e.report then Server(w.srv, 0, 0, x.openedBefore + gained, x.closedBefore + lost, missed)
    else Server(w.srv, gained, lost, x.openedBefore, x.closedBefore, missed)
  }

  // All that was ever reported opened less all reported closed, and what was missed, are
  // the streams in use.
  ghost predicate Balanced(x: Server) {
    Serving(x.srv) &&
    x.openedBefore + x.openedNow - (x.closedBefore + x.closedNow) + x.missed == |x.srv.active|
  }

  lemma PassKeepsBalance(x: Server, e: Events)
    requires Balanced(x) && Possible(x, e)
    ensures Balanced(Passed(x, e))
  {
    AcceptCounts(x.srv, e.listeners, e.accepts);
    var a := AcceptAll(x.srv, e.listeners, e.accepts).srv;
    RequestsKeepServing(a, e.readable, e.requests);
    WritesCount(RequestAll(a, e.readable, e.requests), e.writable, e.writes);
  }

  // ---------------------------------------------------------------------
  // When connections are missed

  // The accept on the j-th listener is the first that fails.
  predicate FailsAt(ls: seq<nat>, accepts: nat -> Accepting, j: nat) {
    j < |ls| && !accepts(ls[j]).Accepts? && forall i :: 0 <= i < j ==> accepts(ls[i]).Accepts?
  }

  // An accept fails after one that did not.
  ghost predicate FailsLate(e: Events) { exists j :: j > 0 && FailsAt(e.listeners, e.accepts, j) }

  lemma {:induction false} TakenUpToFailure(v: Srv, ls: seq<nat>, accepts: nat -> Accepting)
    requires InRange(accepts, |v.streams|) && Below(ls, |v.streams|)
    ensures var r := AcceptAll(v, ls, accepts);
            && (r.rc < 0 <==> exists i :: 0 <= i < |ls| && !accepts(ls[i]).Accepts?)
            && (r.rc < 0 ==> FailsAt(ls, accepts, r.taken))
            && (r.rc >= 0 ==> r.rc == r.taken == |ls|)
    decreases |ls|
  {
    if ls != [] {
      var n := |ls| - 1;
      TakenUpToFailure(v, ls[..n], accepts);
      assert forall i :: 0 <= i < n ==> ls[..n][i] == ls[i];
    }
  }

  // A pass misses connections exactly when an accept fails in it after one that did not:
  // all those accepted before.
  lemma PassMissesIff(x: Server, e: Events)
    requires Possible(x, e)
    ensures Passed(x, e).missed > x.missed <==> FailsLate(e)
    ensures forall j :: FailsAt(e.listeners, e.accepts, j) ==> Passed(x, e).missed == x.missed + j
  {
    TakenUpToFailure(x.srv, e.listeners, e.accepts);
    var r := AcceptAll(x.srv, e.listeners, e.accepts);
    forall j: nat | FailsAt(e.listeners, e.accepts, j) ensures r.rc < 0 && r.taken == j {
      assert !e.accepts(e.listeners[j]).Accepts?;
    }
  }

  // ---------------------------------------------------------------------
  // Nothing is sent beyond what was asked for

  ghost predicate WithinTarget(v: Srv) {
    forall fd :: fd in v.active && fd < |v.streams| ==> v.streams[fd].sent <= v.streams[fd].target < TWO31
  }

  ghost predicate Modest(requests: nat -> Option<nat>) {
    forall fd :: requests(fd).Some? ==> requests(fd).value < TWO31
  }

  lemma {:induction false} RequestsStayWithin(v: Srv, fds: seq<nat>, requests: nat -> Option<nat>)
    requires Serving(v) && WithinTarget(v) && Modest(requests) && Below(fds, |v.streams|)
    ensures WithinTarget(RequestAll(v, fds, requests))
    decreases |fds|
  {
    if fds != [] {
      RequestsStayWithin(v, fds[..|fds| - 1], requests);
      RequestsKeepServing(v, fds[..|fds| - 1], requests);
    }
  }

  lemma {:induction false} WritesStayWithin(v: Srv, fds: seq<nat>, writes: nat -> Writing)
    requires Serving(v) && WithinTarget(v) && Distinct(fds) && forall fd :: fd in fds ==> fd in v.active
    ensures Below(fds, |v.streams|) && WithinTarget(WriteAll(v, fds, writes).srv)
    decreases |fds|
  {
    if fds != [] {
      var n := |fds| - 1;
      assert fds == fds[..n] + [fds[n]];
      WritesStayWithin(v, fds[..n], writes);
      WritesCount(v, fds[..n], writes);
      var r := WriteAll(v, fds[..n], writes);
      assert fds[n] !in fds[..n];
      WriteLeavesIff(r, fds[n], writes(fds[n]));
    }
  }

  lemma PassStaysWithin(x: Server, e: Events)
    requires Serving(x.srv) && WithinTarget(x.srv) && Possible(x, e) && Modest(e.requests)
    ensures WithinTarget(Passed(x, e).srv)
  {
    AcceptCounts(x.srv, e.listeners, e.accepts);
    var a := AcceptAll(x.srv, e.listeners, e.accepts).srv;
    RequestsKeepServing(a, e.readable, e.requests);
    RequestsStayWithin(a, e.readable, e.requests);
    WritesStayWithin(RequestAll(a, e.readable, e.requests), e.writable, e.writes);
  }

  // ---------------------------------------------------------------------
  // Runs

  ghost predicate IsRun(xs: seq<Server>, es: seq<Events>) {
    && |xs| == |es| + 1
    && forall i :: 0 <= i < |es| ==> Possible(xs[i], es[i]) && xs[i + 1] == Passed(xs[i], es[i])
  }

  ghost predicate Started(x: Server) {
    x.srv.active == {} && |x.srv.streams| == FD_SETSIZE && x == Server(x.srv, 0, 0, 0, 0, 0)
  }

  // In every run the counts differ from the number of streams in use by the descriptors
  // missed, and by nothing else; with requests below 2^31 no stream has sent more than it
  // was asked for.
  lemma {:induction false} RunBalances(xs: seq<Server>, es: seq<Events>)
    requires IsRun(xs, es) && Started(xs[0])
    ensures Balanced(xs[|es|])
    ensures (forall i :: 0 <= i < |es| ==> Modest(es[i].requests)) ==> WithinTarget(xs[|es|].srv)
    decreases |es|
  {
    if es != [] {
      var n := |es| - 1;
      assert IsRun(xs[..|xs| - 1], es[..n]);
      RunBalances(xs[..|xs| - 1], es[..n]);
      assert Possible(xs[n], es[n]);
      PassKeepsBalance(xs[n], es[n]);
      if forall i :: 0 <= i < |es| ==> Modest(es[i].requests) {
        PassStaysWithin(xs[n], es[n]);
      }
    }
  }

  lemma {:induction false} RunMissesIff(xs: seq<Server>, es: seq<Events>)
    requires IsRun(xs, es) && Started(xs[0])
    ensures xs[|es|].missed == 0 <==> forall i :: 0 <= i < |es| ==> !FailsLate(es[i])
    decreases |es|
  {
    if es != [] {
      var n := |es| - 1;
      assert IsRun(xs[..|xs| - 1], es[..n]);
      RunMissesIff(xs[..|xs| - 1], es[..n]);
      assert Possible(xs[n], es[n]);
      PassMissesIff(xs[n], es[n]);
      NeverFewerMissed(xs[n], es[n]);
      assert forall i :: 0 <= i < n ==> es[..n][i] == es[i];
    }
  }

  // In every run opened less closed, over all reports, is the number of streams in use
  // exactly when no accept has failed after one that did not in the same call.
  lemma RunCountsIff(xs: seq<Server>, es: seq<Events>)
    requires IsRun(xs, es) && Started(xs[0])
    ensures var x := xs[|es|];
            x.openedBefore + x.openedNow - (x.closedBefore + x.closedNow) == |x.srv.active|
            <==> forall i :: 0 <= i < |es| ==> !FailsLate(es[i])
  {
    RunBalances(xs, es);
    RunMissesIff(xs, es);
  }

  lemma NeverFewerMissed(x: Server, e: Events)
    requires Possible(x, e)
    ensures Passed(x, e).missed >= x.missed
  {
  }

  // One pass after the start: the first of two listeners accepts, the second fails. One
  // stream is in use, and none is counted as opened.
  lemma FailureLosesCount(x: Server, a: nat, b: nat, fd: nat, e: Events)
    requires Started(x) && 0 < fd < FD_SETSIZE && a < b < FD_SETSIZE
    requires InRange(e.accepts, FD_SETSIZE) && e.listeners == [a, b]
    requires e.accepts(a) == Accepts(fd) && e.accepts(b) == AcceptFails
    requires e.readable == [] && e.writable == []
    ensures Possible(x, e) && FailsLate(e)
    ensures var y := Passed(x, e);
            y.openedBefore + y.openedNow - (y.closedBefore + y.closedNow) == 0 && y.srv.active == {fd}
  {
    assert [a, b][..1] == [a] && [a][..0] == [];
    var none, first := AcceptAll(x.srv, [], e.accepts), AcceptAll(x.srv, [a], e.accepts);
    assert none == AcceptResult(x.srv, 0, 0) && first == AcceptOne(none, e.accepts([a][0]));
    assert first == AcceptResult(Accepted(x.srv, fd), 1, 1);
    assert AcceptAll(x.srv, [a, b], e.accepts) == first.(rc := -1);
    assert FailsAt(e.listeners, e.accepts, 1);
    assert HandsOutUnused(x.srv, [a], e.accepts);
  }
}

// The same on descriptor sets and the array of streams.
module SimpleServer {
  import opened BitWords
  import opened FdSets
  import opened Options
  import opened ServerStreams
  import Surge

  const WORDS: nat := 32

  ghost function ReadyOf(m: set<nat>, ready: nat -> bool): set<nat> { set fd | fd in m && ready(fd) }

  // v lists the elements of m from the least one on, in order, perhaps not all of them.
  ghost predicate EnumeratesFirst(v: seq<nat>, m: set<nat>) {
    Increasing(v) && (forall x :: x in v ==> x in m) && forall x :: x in m && x !in v ==> forall y :: y in v ==> y < x
  }

  lemma VisitedSoFar(m: set<nat>, maxfd: nat, v: seq<nat>, fd: nat)
    requires VisitingFrom(m, maxfd, v, fd) && fd != 0
    ensures EnumeratesFirst(v + [fd], m)
  {
    forall i | 0 <= i < |v| ensures v[i] < fd {
      assert v[i] in v;
    }
  }

  lemma VisitedAll(m: set<nat>, maxfd: nat, v: seq<nat>, left: set<nat>)
    requires Draining(m, maxfd, v, 0, left) && 0 !in m && forall fd :: fd in m ==> fd <= maxfd
    ensures Enumerates(v, m)
  {
  }

  lemma OneMore(v: seq<nat>, fd: nat, n: nat)
    requires Below(v, n) && fd < n
    ensures Below(v + [fd], n)
    ensures (v + [fd])[..|v + [fd]| - 1] == v && (v + [fd])[|v + [fd]| - 1] == fd
  {
  }

  // The accepting loop stands at fd, having accepted on every listener in v.
  ghost predicate AcceptingAt(was: Srv, accepts: nat -> Accepting, m: set<nat>, maxlfd: nat, v: seq<nat>, fd: nat,
                              left: set<nat>, srv: Srv, rc: int)
  {
    && |was.streams| == FD_SETSIZE && InRange(accepts, FD_SETSIZE) && Below(v, FD_SETSIZE) && rc >= 0
    && Draining(m, maxlfd, v, fd, left)
    && AcceptAll(was, v, accepts) == AcceptResult(srv, rc, rc)
  }

  lemma AcceptNext(was: Srv, accepts: nat -> Accepting, v: seq<nat>, fd: nat)
    requires |was.streams| == FD_SETSIZE && InRange(accepts, FD_SETSIZE) && Below(v, FD_SETSIZE) && fd < FD_SETSIZE
    ensures Below(v + [fd], FD_SETSIZE)
    ensures AcceptAll(was, v + [fd], accepts) == AcceptOne(AcceptAll(was, v, accepts), accepts(fd))
  {
    OneMore(v, fd, FD_SETSIZE);
  }

  lemma AcceptTurn(was: Srv, accepts: nat -> Accepting, m: set<nat>, maxlfd: nat, v: seq<nat>, fd: nat,
                   left: set<nat>, srv: Srv, rc: nat, srv': Srv, next: nat, left': set<nat>)
    requires AcceptingAt(was, accepts, m, maxlfd, v, fd, left, srv, rc)
    requires fd != 0 && maxlfd < FD_SETSIZE && fd < FD_SETSIZE
    requires AcceptOne(AcceptResult(srv, rc, rc), accepts(fd)) == AcceptResult(srv', rc + 1, rc + 1)
    requires SearchResult(left, (fd + 1) - (fd + 1) % 32, maxlfd, next)
    requires left' == left - (if next == 0 && fd + 1 >= 32 then {} else {next})
    ensures AcceptingAt(was, accepts, m, maxlfd, v + [fd], next, left', srv', rc + 1)
    ensures next != 0 ==> fd < next <= maxlfd
  {
    DrainTurn(m, maxlfd, v, fd, left, next, left');
    AcceptNext(was, accepts, v, fd);
  }

  lemma AcceptStops(was: Srv, accepts: nat -> Accepting, m: set<nat>, maxlfd: nat, v: seq<nat>, fd: nat,
                    left: set<nat>, srv: Srv, rc: nat, srv': Srv)
    requires AcceptingAt(was, accepts, m, maxlfd, v, fd, left, srv, rc) && fd != 0 && fd < FD_SETSIZE && 0 !in m
    requires AcceptOne(AcceptResult(srv, rc, rc), accepts(fd)) == AcceptResult(srv', -1, rc)
    ensures Below(v + [fd], FD_SETSIZE) && EnumeratesFirst(v + [fd], m)
    ensures AcceptAll(was, v + [fd], accepts) == AcceptResult(srv', -1, rc)
  {
    AcceptNext(was, accepts, v, fd);
    VisitedSoFar(m, maxlfd, v, fd);
  }

  // The reading and the writing loop of send_data stand at fd, done with those in v.
  ghost predicate ReadingAt(was: Srv, requests: nat -> Option<nat>, m: set<nat>, maxfd: nat, v: seq<nat>, fd: nat,
                            left: set<nat>, srv: Srv)
  {
    && |was.streams| == FD_SETSIZE && Below(v, FD_SETSIZE)
    && Draining(m, maxfd, v, fd, left) && RequestAll(was, v, requests) == srv
  }

  lemma ReadTurn(was: Srv, requests: nat -> Option<nat>, m: set<nat>, maxfd: nat, v: seq<nat>, fd: nat,
                 left: set<nat>, srv: Srv, next: nat, left': set<nat>)
    requires ReadingAt(was, requests, m, maxfd, v, fd, left, srv) && fd != 0 && fd < FD_SETSIZE
    requires SearchResult(left, (fd + 1) - (fd + 1) % 32, maxfd, next)
    requires left' == left - (if next == 0 && fd + 1 >= 32 then {} else {next})
    ensures ReadingAt(was, requests, m, maxfd, v + [fd], next, left',
                      if requests(fd).Some? then Requested(srv, fd, requests(fd).value) else srv)
    ensures next != 0 ==> fd < next <= maxfd
  {
    DrainTurn(m, maxfd, v, fd, left, next, left');
    OneMore(v, fd, FD_SETSIZE);
  }

  ghost predicate WritingAt(was: Srv, writes: nat -> Writing, m: set<nat>, maxfd: nat, v: seq<nat>, fd: nat,
                            left: set<nat>, srv: Srv, fin: nat)
  {
    && |was.streams| == FD_SETSIZE && Below(v, FD_SETSIZE)
    && Draining(m, maxfd, v, fd, left) && WriteAll(was, v, writes) == WriteResult(srv, fin)
  }

  lemma WriteTurn(was: Srv, writes: nat -> Writing, m: set<nat>, maxfd: nat, v: seq<nat>, fd: nat,
                  left: set<nat>, srv: Srv, fin: nat, r: WriteResult, next: nat, left': set<nat>)
    requires WritingAt(was, writes, m, maxfd, v, fd, left, srv, fin) && fd != 0 && fd < FD_SETSIZE
    requires |srv.streams| == FD_SETSIZE && r == WriteOne(WriteResult(srv, fin), fd, writes(fd))
    requires SearchResult(left, (fd + 1) - (fd + 1) % 32, maxfd, next)
    requires left' == left - (if next == 0 && fd + 1 >= 32 then {} else {next})
    ensures WritingAt(was, writes, m, maxfd, v + [fd], next, left', r.srv, r.fin)
    ensures next != 0 ==> fd < next <= maxfd
  {
    DrainTurn(m, maxfd, v, fd, left, next, left');
    OneMore(v, fd, FD_SETSIZE);
  }

  lemma AtMost(m: set<nat>, maxfd: nat, v: seq<nat>, fd: nat, left: set<nat>)
    requires Draining(m, maxfd, v, fd, left)
    ensures fd <= maxfd
  {
  }

  class StreamServer {
    const listeners: array<Word>
    const maxlfd: nat
    const active: array<Word>
    const finished: array<Word>
    const streams: array<Stream>
    var maxfd: nat
    var openedNow: int
    var closedNow: int

    ghost predicate Shape()
      reads this, listeners
    {
      && listeners.Length == active.Length == finished.Length == WORDS && streams.Length == FD_SETSIZE
      && active != finished && listeners != active && listeners != finished
      && maxlfd < FD_SETSIZE && maxfd < FD_SETSIZE
      && 0 !in Members(listeners[..]) && forall fd :: fd in Members(listeners[..]) ==> fd <= maxlfd
    }

    ghost function Abs(): Srv
      reads this, active, finished, streams
    {
      Srv(Members(active[..]), Members(finished[..]), streams[..], maxfd)
    }

    method AcceptOn(outcome: Accepting, ghost count: nat) returns (ok: bool)
      requires Shape()
      requires outcome.AcceptFails? || outcome.fd < FD_SETSIZE
      modifies this`maxfd, active, streams
      ensures Shape()
      ensures AcceptOne(AcceptResult(old(Abs()), count, count), outcome)
              == (if ok then AcceptResult(Abs(), count + 1, count + 1) else AcceptResult(Abs(), -1, count))
    {
      match outcome {
        case AcceptFails => ok := false;
        case IoctlFails(fd) =>
          if fd > maxfd { maxfd := fd; }
          ok := false;
        case Accepts(fd) =>
          if fd > maxfd { maxfd := fd; }
          streams[fd] := Stream(true, 0, 0);
          FdSet(fd, active);
          ok := true;
      }
    }

    // One turn of the loop below.
    method AcceptStep(tmp: array<Word>, fd: nat, accepts: nat -> Accepting, rc: nat,
                      ghost was: Srv, ghost m: set<nat>, ghost v: seq<nat>)
      returns (ok: bool, next: nat)
      requires Shape() && tmp.Length == WORDS && tmp !in {active, finished, listeners} && fd != 0 && 0 !in m
      requires AcceptingAt(was, accepts, m, maxlfd, v, fd, Members(tmp[..]), Abs(), rc)
      modifies this`maxfd, active, streams, tmp
      ensures Shape()
      ensures if ok then
                && AcceptingAt(was, accepts, m, maxlfd, v + [fd], next, Members(tmp[..]), Abs(), rc + 1)
                && (next != 0 ==> fd < next <= maxlfd)
              else
                && Below(v + [fd], FD_SETSIZE) && EnumeratesFirst(v + [fd], m)
                && AcceptAll(was, v + [fd], accepts) == AcceptResult(Abs(), -1, rc)
    {
      ghost var left, srv := Members(tmp[..]), Abs();
      AtMost(m, maxlfd, v, fd, left);
      next := 0;
      ok := AcceptOn(accepts(fd), rc);
      if !ok {
        AcceptStops(was, accepts, m, maxlfd, v, fd, left, srv, rc, Abs());
      } else {
        next := FdFfsAndC(fd + 1, maxlfd, tmp);
        AcceptTurn(was, accepts, m, maxlfd, v, fd, left, srv, rc, Abs(), next, Members(tmp[..]));
      }
    }

    // select on some descriptors, with no time to wait
    method Poll(fds: array<Word>, ready: nat -> bool) returns (tmp: array<Word>)
      ensures fresh(tmp) && tmp.Length == fds.Length && Members(tmp[..]) == ReadyOf(Members(fds[..]), ready)
    {
      tmp := Copy(fds);
      Surge.Select(tmp, ready);
    }

    // rc is the number of descriptors accepted, or -1; visited are the listeners accepted
    // on, all that are ready unless the call fails.
    method AcceptIncoming(ready: nat -> bool, accepts: nat -> Accepting) returns (rc: int, ghost visited: seq<nat>)
      requires Shape() && InRange(accepts, FD_SETSIZE)
      modifies this`maxfd, active, streams
      ensures Shape() && Below(visited, FD_SETSIZE)
      ensures AcceptAll(old(Abs()), visited, accepts).srv == Abs() && AcceptAll(old(Abs()), visited, accepts).rc == rc
      ensures if rc >= 0 then Enumerates(visited, ReadyOf(Members(listeners[..]), ready))
              else EnumeratesFirst(visited, ReadyOf(Members(listeners[..]), ready))
    {
      ghost var was, m := Abs(), ReadyOf(Members(listeners[..]), ready);
      var tmp := Poll(listeners, ready);
      rc, visited := 0, [];
      var fd := FdFfsAndC(0, maxlfd, tmp);
      while fd != 0
        invariant Shape() && AcceptingAt(was, accepts, m, maxlfd, visited, fd, Members(tmp[..]), Abs(), rc)
        decreases if fd == 0 then 0 else maxlfd + 1 - fd
      {
        var ok, next := AcceptStep(tmp, fd, accepts, rc, was, m, visited);
        visited := visited + [fd];
        if !ok {
          return -1, visited;
        }
        rc, fd := rc + 1, next;
      }
      VisitedAll(m, maxlfd, visited, Members(tmp[..]));
    }

    method ReadStep(tmp: array<Word>, fd: nat, requests: nat -> Option<nat>,
                    ghost was: Srv, ghost m: set<nat>, ghost v: seq<nat>)
      returns (next: nat)
      requires Shape() && tmp.Length == WORDS && tmp !in {active, finished, listeners} && fd != 0
      requires ReadingAt(was, requests, m, maxfd, v, fd, Members(tmp[..]), Abs())
      modifies streams, tmp
      ensures Shape() && ReadingAt(was, requests, m, maxfd, v + [fd], next, Members(tmp[..]), Abs())
      ensures next != 0 ==> fd < next <= maxfd
    {
      ghost var left, srv := Members(tmp[..]), Abs();
      AtMost(m, maxfd, v, fd, left);
      match requests(fd) {
        case None =>
        case Some(bytes) => streams[fd] := streams[fd].(target := bytes, sent := 0);
      }
      next := FdFfsAndC(fd + 1, maxfd, tmp);
      ReadTurn(was, requests, m, maxfd, v, fd, left, srv, next, Members(tmp[..]));
    }

    method Retire(fd: nat, s: Stream)
      requires Shape() && fd < FD_SETSIZE
      modifies active, finished, streams
      ensures Shape() && Abs() == Retired(old(Abs()), fd, s)
    {
      streams[fd] := s.(open := false);
      FdClr(fd, active);
      FdSet(fd, finished);
    }

    method WriteTo(fd: nat, w: Writing, fin: nat) returns (fin': nat)
      requires Shape() && fd < FD_SETSIZE
      modifies active, finished, streams
      ensures Shape() && WriteResult(Abs(), fin') == WriteOne(WriteResult(old(Abs()), fin), fd, w)
    {
      fin' := fin;
      var s := streams[fd];
      var diff := Diff(s);
      if diff == 0 {
        return;
      }
      match w {
        case WouldBlock =>
        case BrokenPipe =>
          if s.open {
            Retire(fd, s);
            fin' := fin + 1;
          }
        case Room(room) =>
          var actual := Actual(diff, room);
          if actual > 0 {
            var s' := s.(sent := (s.sent + actual) % TWO32);
            if diff == actual {
              Retire(fd, s');
              fin' := fin + 1;
            } else {
              streams[fd] := s';
            }
          }
      }
    }

    method WriteStep(tmp: array<Word>, fd: nat, writes: nat -> Writing, fin: nat,
                     ghost was: Srv, ghost m: set<nat>, ghost v: seq<nat>)
      returns (fin': nat, next: nat)
      requires Shape() && tmp.Length == WORDS && tmp !in {active, finished, listeners} && fd != 0
      requires WritingAt(was, writes, m, maxfd, v, fd, Members(tmp[..]), Abs(), fin)
      modifies active, finished, streams, tmp
      ensures Shape() && WritingAt(was, writes, m, maxfd, v + [fd], next, Members(tmp[..]), Abs(), fin')
      ensures next != 0 ==> fd < next <= maxfd
    {
      ghost var left, srv := Members(tmp[..]), Abs();
      AtMost(m, maxfd, v, fd, left);
      fin' := WriteTo(fd, writes(fd), fin);
      next := FdFfsAndC(fd + 1, maxfd, tmp);
      WriteTurn(was, writes, m, maxfd, v, fd, left, srv, fin, WriteResult(Abs(), fin'), next, Members(tmp[..]));
    }

    method ReadRequests(tmp: array<Word>, requests: nat -> Option<nat>) returns (ghost read: seq<nat>)
      requires Shape() && tmp.Length == WORDS && tmp !in {active, finished, listeners} && 0 !in Members(tmp[..])
      requires forall fd :: fd in Members(tmp[..]) ==> fd <= maxfd
      modifies streams, tmp
      ensures Shape() && Below(read, FD_SETSIZE) && Enumerates(read, old(Members(tmp[..])))
      ensures Abs() == RequestAll(old(Abs()), read, requests)
    {
      ghost var was, m := Abs(), Members(tmp[..]);
      read := [];
      var fd := FdFfsAndC(0, maxfd, tmp);
      while fd != 0
        invariant Shape() && ReadingAt(was, requests, m, maxfd, read, fd, Members(tmp[..]), Abs())
        decreases if fd == 0 then 0 else maxfd + 1 - fd
      {
        var next := ReadStep(tmp, fd, requests, was, m, read);
        read, fd := read + [fd], next;
      }
      VisitedAll(m, maxfd, read, Members(tmp[..]));
    }

    method WriteData(tmp: array<Word>, writes: nat -> Writing) returns (fin: nat, ghost written: seq<nat>)
      requires Shape() && tmp.Length == WORDS && tmp !in {active, finished, listeners} && 0 !in Members(tmp[..])
      requires forall fd :: fd in Members(tmp[..]) ==> fd <= maxfd
      modifies active, finished, streams, tmp
      ensures Shape() && Below(written, FD_SETSIZE) && Enumerates(written, old(Members(tmp[..])))
      ensures WriteResult(Abs(), fin) == WriteAll(old(Abs()), written, writes)
    {
      ghost var was, m := Abs(), Members(tmp[..]);
      fin, written := 0, [];
      var fd := FdFfsAndC(0, maxfd, tmp);
      while fd != 0
        invariant Shape() && WritingAt(was, writes, m, maxfd, written, fd, Members(tmp[..]), Abs(), fin)
        decreases if fd == 0 then 0 else maxfd + 1 - fd
      {
        var fin', next := WriteStep(tmp, fd, writes, fin, was, m, written);
        written := written + [fd];
        fin, fd := fin', next;
      }
      VisitedAll(m, maxfd, written, Members(tmp[..]));
    }

    // fin is the number of streams that are finished with.
    method SendData(readable: nat -> bool, requests: nat -> Option<nat>, writable: nat -> bool, writes: nat -> Writing)
      returns (fin: nat, ghost read: seq<nat>, ghost written: seq<nat>)
      requires Shape() && Serving(Abs())
      modifies active, finished, streams
      ensures Shape() && Below(read, FD_SETSIZE) && Below(written, FD_SETSIZE)
      ensures Enumerates(read, ReadyOf(old(Abs()).active, readable))
      ensures Enumerates(written, ReadyOf(old(Abs()).active, writable))
      ensures WriteResult(Abs(), fin) == WriteAll(RequestAll(old(Abs()), read, requests), written, writes)
    {
      var tmp0 := Poll(active, readable);
      var tmp1 := Poll(active, writable);
      read := ReadRequests(tmp0, requests);
      fin, written := WriteData(tmp1, writes);
    }

    // The number of streams the report prints
    method Streams() returns (n: nat)
      requires Shape() && Serving(Abs())
      ensures n == |Abs().active|
    {
      n := FdPop(maxfd, active);
      assert Upto(Members(active[..]), maxfd) == Members(active[..]);
    }

    // Once around the loop of simple_server; x is what the counts stand for, e what has
    // happened.
    method OnePass(listening: nat -> bool, accepts: nat -> Accepting,
                   readable: nat -> bool, requests: nat -> Option<nat>,
                   writable: nat -> bool, writes: nat -> Writing, report: bool, ghost x: ServerStreams.Server)
      returns (ghost e: Events)
      requires Shape() && Serving(Abs()) && OsPromises(Abs().active, accepts)
      requires x.srv == Abs() && x.openedNow == openedNow && x.closedNow == closedNow
      modifies this`maxfd, this`openedNow, this`closedNow, active, finished, streams
      ensures Shape() && Possible(x, e) && Serving(Abs())
      ensures var y := Passed(x, e); y.srv == Abs() && y.openedNow == openedNow && y.closedNow == closedNow
    {
      ghost var was := Abs();
      var rc, listeners := AcceptIncoming(listening, accepts);
      if rc > 0 {
        openedNow := openedNow + rc;
      }
      PromisesHold(was, listeners, accepts);
      AcceptCounts(was, listeners, accepts);
      ghost var taken := Abs();
      var fin, read, written := SendData(readable, requests, writable, writes);
      closedNow := closedNow + fin;
      e := Events(listeners, accepts, read, requests, written, writes, report);
      DistinctSubset(read, taken.active, readable);
      DistinctSubset(written, taken.active, writable);
      if report {
        openedNow, closedNow := 0, 0;
      }
      RequestsKeepServing(taken, read, requests);
      WritesCount(RequestAll(taken, read, requests), written, writes);
    }
  }

  lemma DistinctSubset(v: seq<nat>, m: set<nat>, ready: nat -> bool)
    requires Enumerates(v, ReadyOf(m, ready))
    ensures Distinct(v) && forall fd :: fd in v ==> fd in m
  {
  }

  // accept gives each listener a descriptor of its own that is not in use.
  ghost predicate OsPromises(active: set<nat>, accepts: nat -> Accepting) {
    && InRange(accepts, FD_SETSIZE)
    && (forall l: nat :: accepts(l).Accepts? ==> accepts(l).fd > 0 && accepts(l).fd !in active)
    && (forall l: nat, k: nat :: l != k && accepts(l).Accepts? && accepts(k).Accepts? ==>
          accepts(l).fd != accepts(k).fd)
  }

  ghost function Handed(ls: seq<nat>, accepts: nat -> Accepting): set<nat> {
    set l | l in ls && accepts(l).Accepts? :: accepts(l).fd
  }

  lemma {:induction false} OnlyHanded(v: Srv, ls: seq<nat>, accepts: nat -> Accepting)
    requires InRange(accepts, |v.streams|) && Below(ls, |v.streams|)
    ensures AcceptAll(v, ls, accepts).srv.active <= v.active + Handed(ls, accepts)
    decreases |ls|
  {
    if ls != [] {
      var n := |ls| - 1;
      OnlyHanded(v, ls[..n], accepts);
      assert Handed(ls[..n], accepts) <= Handed(ls, accepts);
      if accepts(ls[n]).Accepts? {
        assert ls[n] in ls && accepts(ls[n]).fd in Handed(ls, accepts);
      }
    }
  }

  lemma {:induction false} PromisesHold(v: Srv, ls: seq<nat>, accepts: nat -> Accepting)
    requires |v.streams| == FD_SETSIZE && OsPromises(v.active, accepts) && Below(ls, FD_SETSIZE) && Increasing(ls)
    ensures HandsOutUnused(v, ls, accepts)
    decreases |ls|
  {
    if ls != [] {
      var n := |ls| - 1;
      PromisesHold(v, ls[..n], accepts);
      OnlyHanded(v, ls[..n], accepts);
    }
  }
}
