// The action loop of the surge client, on descriptor sets. Each method is one step
// of SurgeSessions: its contract says the sets become what the step says.
module Surge {
  import opened BitWords
  import opened FdSets
  import opened SurgeSessions

  const WORDS: nat := 32

  // select(2): leaves in the set only the descriptors that are ready.
  method Select(fds: array<Word>, ready: nat -> bool)
    modifies fds
    ensures Members(fds[..]) == set fd | fd in old(Members(fds[..])) && ready(fd)
  {
    ghost var m := Members(fds[..]);
    var fd := 0;
    while fd < NFDBITS * fds.Length
      invariant fd <= NFDBITS * fds.Length
      invariant Members(fds[..]) == set x | x in m && (x < fd ==> ready(x))
    {
      if !ready(fd) {
        FdClr(fd, fds);
      }
      fd := fd + 1;
    }
  }

  ghost function Chosen(s: set<nat>, p: nat -> bool): set<nat> {
    set x | x in s && p(x)
  }

  // A clearing loop over m whose body moves some of what it visits from a to b.
  ghost predicate Moving(m: set<nat>, maxfd: nat, v: seq<nat>, fd: nat, left: set<nat>, moves: nat -> bool,
                         a0: set<nat>, b0: set<nat>, a: set<nat>, b: set<nat>, count: nat) {
    && Draining(m, maxfd, v, fd, left)
    && a == a0 - Chosen(Elements(v), moves)
    && b == b0 + Chosen(Elements(v), moves)
    && count == |Chosen(Elements(v), moves)|
  }

  lemma MoveTurn(m: set<nat>, maxfd: nat, v: seq<nat>, fd: nat, left: set<nat>, moves: nat -> bool,
                 a0: set<nat>, b0: set<nat>, a: set<nat>, b: set<nat>, count: nat,
                 next: nat, left': set<nat>, a': set<nat>, b': set<nat>, count': nat)
    requires Moving(m, maxfd, v, fd, left, moves, a0, b0, a, b, count) && fd != 0
    requires a' == (if moves(fd) then a - {fd} else a) && b' == (if moves(fd) then b + {fd} else b)
    requires count' == if moves(fd) then count + 1 else count
    requires SearchResult(left, (fd + 1) - (fd + 1) % 32, maxfd, next)
    requires left' == left - (if next == 0 && fd + 1 >= 32 then {} else {next})
    ensures Moving(m, maxfd, v + [fd], next, left', moves, a0, b0, a', b', count')
    ensures next != 0 ==> fd < next <= maxfd
  {
    DrainTurn(m, maxfd, v, fd, left, next, left');
    assert fd !in Elements(v);
    assert Chosen(Elements(v + [fd]), moves)
        == if moves(fd) then Chosen(Elements(v), moves) + {fd} else Chosen(Elements(v), moves);
  }

  lemma MoveDone(m: set<nat>, maxfd: nat, v: seq<nat>, left: set<nat>, moves: nat -> bool,
                 a0: set<nat>, b0: set<nat>, a: set<nat>, b: set<nat>, count: nat)
    requires Moving(m, maxfd, v, 0, left, moves, a0, b0, a, b, count)
    requires 0 !in m && forall fd :: fd in m ==> fd <= maxfd
    ensures a == a0 - Chosen(m, moves) && b == b0 + Chosen(m, moves) && count == |Chosen(m, moves)|
  {
    assert Elements(v) == m;
  }

  method MoveOne(fd: nat, moves: bool, from: array<Word>, to: array<Word>)
    requires from.Length == to.Length && fd < NFDBITS * from.Length && from != to
    modifies from, to
    ensures Members(from[..]) == if moves then old(Members(from[..])) - {fd} else old(Members(from[..]))
    ensures Members(to[..]) == if moves then old(Members(to[..])) + {fd} else old(Members(to[..]))
  {
    if moves {
      FdSet(fd, to);
      FdClr(fd, from);
    }
  }

  // One turn of the loop below.
  method MoveStep(maxfd: nat, fd: nat, tmp: array<Word>, moves: bool, from: array<Word>, to: array<Word>)
    returns (next: nat)
    requires tmp.Length == from.Length == to.Length && fd <= maxfd < NFDBITS * tmp.Length
    requires tmp != from && tmp != to && from != to
    modifies tmp, from, to
    ensures Members(from[..]) == if moves then old(Members(from[..])) - {fd} else old(Members(from[..]))
    ensures Members(to[..]) == if moves then old(Members(to[..])) + {fd} else old(Members(to[..]))
    ensures SearchResult(old(Members(tmp[..])), (fd + 1) - (fd + 1) % 32, maxfd, next)
    ensures Members(tmp[..]) == old(Members(tmp[..])) - (if next == 0 && fd + 1 >= 32 then {} else {next})
  {
    MoveOne(fd, moves, from, to);
    next := FdFfsAndC(fd + 1, maxfd, tmp);
  }

  method MoveSome(maxfd: nat, tmp: array<Word>, moves: nat -> bool, from: array<Word>, to: array<Word>)
    returns (count: nat)
    requires tmp.Length == from.Length == to.Length && maxfd < NFDBITS * tmp.Length
    requires tmp != from && tmp != to && from != to
    requires 0 !in Members(tmp[..]) && forall fd :: fd in Members(tmp[..]) ==> fd <= maxfd
    modifies tmp, from, to
    ensures var moved := Chosen(old(Members(tmp[..])), moves);
            && Members(from[..]) == old(Members(from[..])) - moved
            && Members(to[..]) == old(Members(to[..])) + moved
            && count == |moved|
  {
    ghost var m, a0, b0 := Members(tmp[..]), Members(from[..]), Members(to[..]);
    ghost var v: seq<nat> := [];
    count := 0;
    var fd := FdFfsAndC(0, maxfd, tmp);
    while fd != 0
      invariant Moving(m, maxfd, v, fd, Members(tmp[..]), moves, a0, b0, Members(from[..]), Members(to[..]), count)
      decreases if fd == 0 then 0 else maxfd + 1 - fd
    {
      ghost var left, a, b, n := Members(tmp[..]), Members(from[..]), Members(to[..]), count;
      var next := MoveStep(maxfd, fd, tmp, moves(fd), from, to);
      if moves(fd) {
        count := count + 1;
      }
      MoveTurn(m, maxfd, v, fd, left, moves, a0, b0, a, b, n,
               next, Members(tmp[..]), Members(from[..]), Members(to[..]), count);
      v := v + [fd];
      fd := next;
    }
    MoveDone(m, maxfd, v, Members(tmp[..]), moves, a0, b0, Members(from[..]), Members(to[..]), count);
  }

  method RemoveAll(maxfd: nat, tmp: array<Word>, from: array<Word>)
    requires tmp.Length == from.Length && maxfd < NFDBITS * tmp.Length && tmp != from
    requires 0 !in Members(tmp[..]) && forall fd :: fd in Members(tmp[..]) ==> fd <= maxfd
    modifies tmp, from
    ensures Members(from[..]) == old(Members(from[..])) - old(Members(tmp[..]))
  {
    ghost var m, a0 := Members(tmp[..]), Members(from[..]);
    ghost var v: seq<nat> := [];
    var fd := FdFfsAndC(0, maxfd, tmp);
    while fd != 0
      invariant Draining(m, maxfd, v, fd, Members(tmp[..])) && Members(from[..]) == a0 - Elements(v)
      decreases if fd == 0 then 0 else maxfd + 1 - fd
    {
      ghost var left := Members(tmp[..]);
      FdClr(fd, from);
      var next := FdFfsAndC(fd + 1, maxfd, tmp);
      DrainTurn(m, maxfd, v, fd, left, next, Members(tmp[..]));
      assert Elements(v + [fd]) == Elements(v) + {fd};
      v := v + [fd];
      fd := next;
    }
    assert Elements(v) == m;
  }

  lemma OpenWithin(x: Sessions)
    requires InRange(x)
    ensures forall fd :: fd in x.unsent || fd in x.active || fd in x.finished ==> 0 < fd <= x.maxfd
  {
    assert forall fd :: fd in x.unsent || fd in x.active || fd in x.finished ==> fd in x.Open();
  }

  // What the loops of sink_data add up to
  lemma SinkIs(x: Sessions, env: Environment, moves: nat -> bool)
    requires forall fd :: moves(fd) <==> env.atEof(fd) && !env.exceptional(fd)
    ensures Chosen(Chosen(x.active, env.readable), moves) == Ended(x, env)
    ensures Chosen(x.active, env.exceptional) == Dropped(x, env)
  {
  }

  // The close loop: what it visits leaves the set, and its owner joins `sleeping`.
  ghost predicate Closing(m: set<nat>, maxfd: nat, v: seq<nat>, fd: nat, left: set<nat>, owner: seq<nat>,
                          b0: set<nat>, b: set<nat>) {
    Draining(m, maxfd, v, fd, left) && b == b0 + Owners(Elements(v), owner)
  }

  lemma CloseTurn(m: set<nat>, maxfd: nat, v: seq<nat>, fd: nat, left: set<nat>, owner: seq<nat>,
                  b0: set<nat>, b: set<nat>, next: nat, left': set<nat>, b': set<nat>)
    requires Closing(m, maxfd, v, fd, left, owner, b0, b) && 0 < fd < |owner| && b' == b + {owner[fd]}
    requires SearchResult(left, (fd + 1) - (fd + 1) % 32, maxfd, next)
    requires left' == left - (if next == 0 && fd + 1 >= 32 then {} else {next})
    ensures Closing(m, maxfd, v + [fd], next, left', owner, b0, b') && (next != 0 ==> fd < next <= maxfd)
  {
    DrainTurn(m, maxfd, v, fd, left, next, left');
    assert Elements(v + [fd]) == Elements(v) + {fd};
    assert Owners(Elements(v + [fd]), owner) == Owners(Elements(v), owner) + {owner[fd]};
  }

  lemma CloseDone(m: set<nat>, maxfd: nat, v: seq<nat>, left: set<nat>, owner: seq<nat>, b0: set<nat>, b: set<nat>)
    requires Closing(m, maxfd, v, 0, left, owner, b0, b)
    requires 0 !in m && forall fd :: fd in m ==> fd <= maxfd
    ensures left == {} && b == b0 + Owners(m, owner)
  {
    assert Elements(v) == m;
  }

  // One turn of the loop below; the bit of fd is clear already.
  method CloseStep(maxfd: nat, fd: nat, fds: array<Word>, id: nat, to: array<Word>) returns (next: nat)
    requires fds.Length == to.Length && fd <= maxfd < NFDBITS * fds.Length && fds != to && id <= maxfd
    requires fd !in Members(fds[..])
    modifies fds, to
    ensures Members(to[..]) == old(Members(to[..])) + {id}
    ensures SearchResult(old(Members(fds[..])), (fd + 1) - (fd + 1) % 32, maxfd, next)
    ensures Members(fds[..]) == old(Members(fds[..])) - (if next == 0 && fd + 1 >= 32 then {} else {next})
  {
    ghost var left := Members(fds[..]);
    FdClr(fd, fds);
    assert Members(fds[..]) == left;
    FdSet(id, to);
    next := FdFfsAndC(fd + 1, maxfd, fds);
  }

  method CloseLoop(maxfd: nat, fds: array<Word>, owner: array<nat>, to: array<Word>)
    requires fds.Length == to.Length && maxfd < NFDBITS * fds.Length && fds != to && owner.Length > maxfd
    requires 0 !in Members(fds[..])
    requires forall fd :: fd in Members(fds[..]) ==> fd <= maxfd && owner[fd] <= maxfd
    modifies fds, to
    ensures Members(fds[..]) == {}
    ensures Members(to[..]) == old(Members(to[..])) + Owners(old(Members(fds[..])), owner[..])
  {
    ghost var m, b0 := Members(fds[..]), Members(to[..]);
    ghost var v: seq<nat> := [];
    var fd := FdFfsAndC(0, maxfd, fds);
    while fd != 0
      invariant Closing(m, maxfd, v, fd, Members(fds[..]), owner[..], b0, Members(to[..]))
      decreases if fd == 0 then 0 else maxfd + 1 - fd
    {
      ghost var left, b := Members(fds[..]), Members(to[..]);
      var next := CloseStep(maxfd, fd, fds, owner[fd], to);
      CloseTurn(m, maxfd, v, fd, left, owner[..], b0, b, next, Members(fds[..]), Members(to[..]));
      v := v + [fd];
      fd := next;
    }
    CloseDone(m, maxfd, v, Members(fds[..]), owner[..], b0, Members(to[..]));
  }

  // The sleeping loop: those due move, and are counted.
  ghost predicate Waking(m: set<nat>, maxfd: nat, v: seq<nat>, id: nat, left: set<nat>, due: nat -> bool,
                         b0: set<nat>, b: set<nat>, count: nat) {
    && Scanning(m, maxfd, v, id, left, due)
    && b == b0 + Chosen(Elements(v), due) && count == |Chosen(Elements(v), due)|
  }

  lemma WakeTurn(m: set<nat>, maxfd: nat, v: seq<nat>, id: nat, left: set<nat>, due: nat -> bool,
                 b0: set<nat>, b: set<nat>, count: nat, next: nat, left': set<nat>, b': set<nat>, count': nat)
    requires Waking(m, maxfd, v, id, left, due, b0, b, count) && id != 0
    requires left' == (if due(id) then left - {id} else left) && b' == (if due(id) then b + {id} else b)
    requires count' == if due(id) then count + 1 else count
    requires SearchResult(left', id + 1, maxfd, next)
    ensures Waking(m, maxfd, v + [id], next, left', due, b0, b', count') && (next != 0 ==> id < next <= maxfd)
  {
    ScanTurn(m, maxfd, v, id, left, due, next, left');
    assert id !in Elements(v);
    assert Chosen(Elements(v + [id]), due)
        == if due(id) then Chosen(Elements(v), due) + {id} else Chosen(Elements(v), due);
  }

  lemma WakeDone(m: set<nat>, maxfd: nat, v: seq<nat>, left: set<nat>, due: nat -> bool,
                 b0: set<nat>, b: set<nat>, count: nat)
    requires Waking(m, maxfd, v, 0, left, due, b0, b, count)
    requires 0 !in m && forall id :: id in m ==> id <= maxfd
    ensures left == m - Chosen(m, due) && b == b0 + Chosen(m, due) && count == |Chosen(m, due)|
  {
    assert Elements(v) == m;
  }

  method WakeLoop(maxfd: nat, ids: array<Word>, due: nat -> bool, to: array<Word>) returns (count: nat)
    requires ids.Length == to.Length && maxfd < NFDBITS * ids.Length && ids != to
    requires 0 !in Members(ids[..]) && forall id :: id in Members(ids[..]) ==> id <= maxfd
    modifies ids, to
    ensures Members(ids[..]) == old(Members(ids[..])) - Chosen(old(Members(ids[..])), due)
    ensures Members(to[..]) == old(Members(to[..])) + Chosen(old(Members(ids[..])), due)
    ensures count == |Chosen(old(Members(ids[..])), due)|
  {
    ghost var m, b0 := Members(ids[..]), Members(to[..]);
    ghost var v: seq<nat> := [];
    count := 0;
    var id := FdFfs(0, maxfd, ids);
    while id != 0
      invariant Waking(m, maxfd, v, id, Members(ids[..]), due, b0, Members(to[..]), count)
      decreases if id == 0 then 0 else maxfd + 1 - id
    {
      ghost var left, b, n := Members(ids[..]), Members(to[..]), count;
      MoveOne(id, due(id), ids, to);
      if due(id) {
        count := count + 1;
      }
      var next := FdFfs(id + 1, maxfd, ids);
      WakeTurn(m, maxfd, v, id, left, due, b0, b, n, next, Members(ids[..]), Members(to[..]), count);
      v := v + [id];
      id := next;
    }
    WakeDone(m, maxfd, v, Members(ids[..]), due, b0, Members(to[..]), count);
  }

  // The connection loop has dealt with the clients in v and stands at id.
  ghost predicate Starting(x: Sessions, env: Environment, v: seq<nat>, id: nat, y: Sessions) {
    && Draining(x.wanting, x.maxfd, v, id, y.wanting)
    && StartedFor(x, env, Elements(v), y.(wanting := x.wanting - Elements(v)))
  }

  // A search up to a larger maxfd finds the same when nothing lies beyond the smaller.
  lemma SearchFurther(m: set<nat>, from: nat, maxfd: nat, further: nat, fd: nat)
    requires SearchResult(m, from, further, fd) && maxfd <= further && forall x :: x in m ==> x <= maxfd
    ensures SearchResult(m, from, maxfd, fd)
  {
  }

  lemma StartTurn(x: Sessions, env: Environment, v: seq<nat>, id: nat, y: Sessions, next: nat, z: Sessions)
    requires InRange(x) && OpensUnused(x, env) && Starting(x, env, v, id, y) && id != 0
    requires z.(wanting := {}) == StartOne(y, env, id).(wanting := {})
    requires SearchResult(y.wanting, (id + 1) - (id + 1) % 32, z.maxfd, next)
    requires z.wanting == y.wanting - (if next == 0 && id + 1 >= 32 then {} else {next})
    ensures Starting(x, env, v + [id], next, z) && (next != 0 ==> id < next <= x.maxfd)
  {
    assert forall w :: w in x.wanting ==> w in x.Waiting();
    SearchFurther(y.wanting, (id + 1) - (id + 1) % 32, x.maxfd, z.maxfd, next);
    DrainTurn(x.wanting, x.maxfd, v, id, y.wanting, next, z.wanting);
    StartedForOneMore(x, env, Elements(v), y.(wanting := x.wanting - Elements(v)), id);
    assert Elements(v + [id]) == Elements(v) + {id};
    assert x.wanting - Elements(v) - {id} == x.wanting - Elements(v + [id]);
  }

  lemma StartDone(x: Sessions, env: Environment, v: seq<nat>, y: Sessions)
    requires InRange(x) && Starting(x, env, v, 0, y)
    ensures StartedFor(x, env, x.wanting, y)
  {
    assert forall w :: w in x.wanting ==> w in x.Waiting();
    assert Elements(v) == x.wanting;
    assert y.(wanting := x.wanting - Elements(v)) == y;
  }

  class SurgeClient {
    const fdsNew: array<Word>
    const fdsActive: array<Word>
    const fdsFinished: array<Word>
    const idsSleeping: array<Word>
    const idsWantToRun: array<Word>
    const clientId: array<nat>
    var maxfd: nat

    ghost predicate Shape()
      reads this
    {
      && fdsNew.Length == fdsActive.Length == fdsFinished.Length == WORDS
      && idsSleeping.Length == idsWantToRun.Length == WORDS
      && fdsNew != fdsActive && fdsNew != fdsFinished && fdsActive != fdsFinished
      && idsSleeping != idsWantToRun
      && idsSleeping !in {fdsNew, fdsActive, fdsFinished}
      && idsWantToRun !in {fdsNew, fdsActive, fdsFinished}
      && clientId.Length == FD_SETSIZE
      && maxfd < FD_SETSIZE
    }

    ghost function Abs(): Sessions
      reads this, fdsNew, fdsActive, fdsFinished, idsSleeping, idsWantToRun, clientId
    {
      Sessions(Members(fdsNew[..]), Members(fdsActive[..]), Members(fdsFinished[..]),
               Members(idsSleeping[..]), Members(idsWantToRun[..]), clientId[..], maxfd)
    }

    constructor ()
      ensures Shape() && Abs() == Sessions({}, {}, {}, {}, {}, clientId[..], 0)
    {
      fdsNew := new Word[WORDS](_ => Zero());
      fdsActive := new Word[WORDS](_ => Zero());
      fdsFinished := new Word[WORDS](_ => Zero());
      idsSleeping := new Word[WORDS](_ => Zero());
      idsWantToRun := new Word[WORDS](_ => Zero());
      clientId := new nat[FD_SETSIZE](_ => 0);
      maxfd := 0;
      new;
      FdZero(fdsNew);
      FdZero(fdsActive);
      FdZero(fdsFinished);
      FdZero(idsSleeping);
      FdZero(idsWantToRun);
    }

    // Opening all the connections: the descriptor of each is also its client's id.
    method OpenAll(fds: seq<nat>)
      requires Shape() && Abs() == Sessions({}, {}, {}, {}, {}, clientId[..], 0)
      requires forall i :: 0 <= i < |fds| ==> 0 < fds[i] < FD_SETSIZE
      requires forall i, j :: 0 <= i < j < |fds| ==> fds[i] != fds[j]
      modifies this, fdsNew, clientId
      ensures Shape() && AtLoopTop(Abs()) && Conserved(Abs(), Elements(fds)) && Initial(Abs(), Elements(fds))
    {
      var i := 0;
      while i < |fds|
        invariant i <= |fds| && Shape()
        invariant Initial(Abs(), Elements(fds[..i]))
      {
        ghost var x := Abs();
        var fd := fds[i];
        if fd > maxfd {
          maxfd := fd;
        }
        clientId[fd] := fd;
        FdSet(fd, fdsNew);
        InitialOneMore(x, Elements(fds[..i]), fd, Abs());
        assert fds[..i + 1] == fds[..i] + [fd];
        assert Elements(fds[..i + 1]) == Elements(fds[..i]) + {fd};
        i := i + 1;
      }
      assert fds[..i] == fds;
      InitialConserved(Abs(), Elements(fds));
    }

    // select on a copy of a set
    method Ready(fds: array<Word>, ready: nat -> bool) returns (tmp: array<Word>)
      ensures fresh(tmp) && tmp.Length == fds.Length && Members(tmp[..]) == Chosen(Members(fds[..]), ready)
    {
      tmp := Copy(fds);
      Select(tmp, ready);
    }

    // send_request
    method SendRequest(env: Environment)
      requires Shape() && InRange(Abs())
      modifies fdsNew, fdsActive
      ensures Abs() == Send(old(Abs()), env)
    {
      ghost var x := Abs();
      OpenWithin(x);
      var tmp := Ready(fdsNew, env.writable);
      var _ := MoveSome(maxfd, tmp, _ => true, fdsNew, fdsActive);
      assert Chosen(Chosen(x.unsent, env.writable), _ => true) == Chosen(x.unsent, env.writable);
    }

    // sink_data
    method SinkData(env: Environment) returns (fin: nat)
      requires Shape() && InRange(Abs())
      modifies fdsActive, fdsFinished
      ensures Abs() == Sink(old(Abs()), env)
      ensures fin == |Ended(old(Abs()), env)|
    {
      ghost var x := Abs();
      OpenWithin(x);
      var tmp1 := Ready(fdsActive, env.readable);
      var tmp2 := Ready(fdsActive, env.exceptional);
      RemoveAll(maxfd, tmp2, fdsActive);
      var moves := (fd: nat) => env.atEof(fd) && !env.exceptional(fd);
      fin := MoveSome(maxfd, tmp1, moves, fdsActive, fdsFinished);
      SinkIs(x, env, moves);
    }

    // close those that have finished
    method CloseFinished(sinkDataRc: nat)
      requires Shape() && InRange(Abs())
      modifies fdsFinished, idsSleeping
      ensures Abs() == if sinkDataRc > 0 then Close(old(Abs())) else old(Abs())
    {
      ghost var x := Abs();
      assert forall fd :: fd in Members(fdsFinished[..]) ==> fd in x.Open();
      if sinkDataRc > 0 {
        CloseLoop(maxfd, fdsFinished, clientId, idsSleeping);
      }
    }

    // wake the sleepers that are due
    method WakeSleepers(env: Environment) returns (wantToRunRc: nat)
      requires Shape() && InRange(Abs())
      modifies idsSleeping, idsWantToRun
      ensures Abs() == Wake(old(Abs()), env)
      ensures wantToRunRc == |Due(old(Abs()), env)|
    {
      ghost var x := Abs();
      assert forall id :: id in Members(idsSleeping[..]) ==> id in x.Waiting();
      wantToRunRc := WakeLoop(maxfd, idsSleeping, env.due, idsWantToRun);
    }

    // One descriptor of the connection loop: create_tx_tcp for client id.
    method StartClient(env: Environment, id: nat)
      requires Shape() && 0 <= env.connect(id) < FD_SETSIZE
      modifies this, fdsNew, clientId
      ensures Shape() && Abs() == StartOne(old(Abs()), env, id).(wanting := old(Abs()).wanting)
    {
      var fd := env.connect(id);
      clientId[fd] := id;
      if fd > maxfd {
        maxfd := fd;
      }
      FdSet(fd, fdsNew);
    }

    // One turn of the connection loop.
    method ConnectStep(env: Environment, id: nat, ghost x: Sessions, ghost v: seq<nat>) returns (next: nat)
      requires Shape() && InRange(x) && OpensUnused(x, env) && Starting(x, env, v, id, Abs()) && id != 0
      modifies this, fdsNew, clientId, idsWantToRun
      ensures Shape() && Starting(x, env, v + [id], next, Abs()) && (next != 0 ==> id < next <= x.maxfd)
    {
      ghost var y := Abs();
      assert id in x.wanting;
      if env.connect(id) >= 0 {
        StartClient(env, id);
      }
      ghost var w := Abs();
      next := FdFfsAndC(id + 1, maxfd, idsWantToRun);
      assert Abs() == w.(wanting := Abs().wanting);
      StartTurn(x, env, v, id, y, next, Abs());
    }

    // connect again for those that want to run
    method ConnectWanting(env: Environment, wantToRunRc: nat)
      requires Shape() && InRange(Abs()) && OpensUnused(Abs(), env)
      modifies this, fdsNew, clientId, idsWantToRun
      ensures Shape()
      ensures if wantToRunRc == 0 then Abs() == old(Abs())
              else StartedFor(old(Abs()), env, old(Abs()).wanting, Abs())
    {
      ghost var x := Abs();
      assert forall w :: w in x.wanting ==> w in x.Waiting();
      if wantToRunRc == 0 {
        return;
      }
      ghost var v: seq<nat> := [];
      var id := FdFfsAndC(0, maxfd, idsWantToRun);
      assert NewFds({}, env) == {};
      while id != 0
        invariant Shape() && Starting(x, env, v, id, Abs())
        decreases if id == 0 then 0 else x.maxfd + 1 - id
      {
        var next := ConnectStep(env, id, x, v);
        v := v + [id];
        id := next;
      }
      StartDone(x, env, v, Abs());
    }

    // One pass of the action loop.
    method OnePass(env: Environment, ghost clients: set<nat>) returns (ghost p: Pass)
      requires Shape() && Conserved(Abs(), clients) && AtLoopTop(Abs())
      requires OpensUnused(BeforeConnecting(Abs(), env), env)
      modifies this, fdsNew, fdsActive, fdsFinished, idsSleeping, idsWantToRun, clientId
      ensures Shape() && IsPass(old(Abs()), env, p) && Abs() == p.started
      ensures AtLoopTop(Abs())
    {
      ghost var x := Abs();
      SendRequest(env);
      ghost var sent := Abs();
      SendConserves(x, env, clients);
      var fin := SinkData(env);
      ghost var sunk := Abs();
      SinkConserves(sent, env, clients);
      ghost var c := clients - Lost(sent, env);
      CloseFinished(fin);
      ghost var closed := Abs();
      CloseConserves(sunk, c);
      var due := WakeSleepers(env);
      ghost var woken := Abs();
      WakeConserves(closed, env, c);
      ConnectWanting(env, due);
      p := Pass(sent, sunk, closed, woken, Abs());
      FirstHalfConserves(x, env, p, clients);
      SecondHalfConserves(x, env, p, c);
    }

    // The sum of population counts that the verbose output prints.
    method CountAll(ghost clients: set<nat>) returns (total: nat)
      requires Shape() && Conserved(Abs(), clients)
      ensures total == |clients|
    {
      var a := FdPop(maxfd, fdsNew);
      var b := FdPop(maxfd, fdsActive);
      var c := FdPop(maxfd, fdsFinished);
      var d := FdPop(maxfd, idsSleeping);
      var e := FdPop(maxfd, idsWantToRun);
      total := a + b + c + d + e;
      ghost var x := Abs();
      AllWithin(x.unsent, maxfd, x.Open());
      AllWithin(x.active, maxfd, x.Open());
      AllWithin(x.finished, maxfd, x.Open());
      AllWithin(x.sleeping, maxfd, x.Waiting());
      AllWithin(x.wanting, maxfd, x.Waiting());
      CountsAddUp(x, clients);
    }
  }

  lemma AllWithin(s: set<nat>, maxfd: nat, all: set<nat>)
    requires s <= all && forall x :: x in all ==> x <= maxfd
    ensures Upto(s, maxfd) == s
  {
  }
}
