// The surge client of tunnel_measurement/pttcp/surge_clt.c as steps on sets: which
// descriptors are new, active or finished, which clients sleep or want to run, and
// which client each descriptor works for.
module SurgeSessions {

  const FD_SETSIZE: nat := 1024

  datatype Sessions = Sessions(
    unsent: set<nat>,      // fds_new
    active: set<nat>,     // fds_active
    finished: set<nat>,   // fds_finished
    sleeping: set<nat>,   // ids_sleeping
    wanting: set<nat>,    // ids_want_to_run
    owner: seq<nat>,      // state[fd].client_id
    maxfd: nat)
  {
    ghost function Open(): set<nat> { unsent + active + finished }

    ghost function Waiting(): set<nat> { sleeping + wanting }
  }

  ghost function Owners(fds: set<nat>, owner: seq<nat>): set<nat> {
    set fd | fd in fds && fd < |owner| :: owner[fd]
  }

  // What one pass of the action loop meets: which sockets select reports, what the
  // sockets return, which sleepers are due, and what socket creation returns.
  datatype Environment = Environment(
    writable: nat -> bool,
    exceptional: nat -> bool,
    readable: nat -> bool,
    atEof: nat -> bool,
    due: nat -> bool,
    connect: nat -> int)     // the new descriptor for a client, or a negative number

  // ---------------------------------------------------------------------
  // The five steps of the action loop

  // send_request: what can be written to becomes active.
  ghost function Send(x: Sessions, env: Environment): Sessions {
    var w := set fd | fd in x.unsent && env.writable(fd);
    x.(unsent := x.unsent - w, active := x.active + w)
  }

  // sink_data: exceptions drop the descriptor, end of file finishes it. Reading from
  // a descriptor that was closed for an exception just before reports an error, not
  // end of file.
  ghost function Dropped(x: Sessions, env: Environment): set<nat> {
    set fd | fd in x.active && env.exceptional(fd)
  }

  ghost function Ended(x: Sessions, env: Environment): set<nat> {
    set fd | fd in x.active && !env.exceptional(fd) && env.readable(fd) && env.atEof(fd)
  }

  ghost function Sink(x: Sessions, env: Environment): Sessions {
    x.(active := x.active - Dropped(x, env) - Ended(x, env), finished := x.finished + Ended(x, env))
  }

  // The close loop: every finished descriptor is closed and its client sleeps.
  ghost function Close(x: Sessions): Sessions {
    x.(finished := {}, sleeping := x.sleeping + Owners(x.finished, x.owner))
  }

  ghost function Due(x: Sessions, env: Environment): set<nat> {
    set id | id in x.sleeping && env.due(id)
  }

  ghost function Wake(x: Sessions, env: Environment): Sessions {
    x.(sleeping := x.sleeping - Due(x, env), wanting := x.wanting + Due(x, env))
  }

  // The clients whose connection could be created, and their descriptors.
  ghost function Started(x: Sessions, env: Environment): set<nat> {
    set id | id in x.wanting && env.connect(id) >= 0
  }

  ghost function NewFds(ids: set<nat>, env: Environment): set<nat> {
    set id | id in ids && env.connect(id) >= 0 :: env.connect(id)
  }

  // y is x after the connection loop has dealt with the clients in ids, all of
  // which wanted to run.
  ghost predicate StartedFor(x: Sessions, env: Environment, ids: set<nat>, y: Sessions) {
    && ids <= x.wanting
    && y.unsent == x.unsent + NewFds(ids, env)
    && y.active == x.active && y.finished == x.finished && y.sleeping == x.sleeping
    && y.wanting == x.wanting - ids
    && OwnedFor(x.owner, env, ids, y.owner)
    && HighestOf(x.maxfd, NewFds(ids, env), y.maxfd)
  }

  // The new descriptors belong to the clients in ids, the others to whom they did.
  ghost predicate OwnedFor(before: seq<nat>, env: Environment, ids: set<nat>, owner: seq<nat>) {
    && |owner| == |before|
    && (forall id :: id in ids && 0 <= env.connect(id) < |owner| ==> owner[env.connect(id)] == id)
    && (forall fd :: 0 <= fd < |before| && fd !in NewFds(ids, env) ==> owner[fd] == before[fd])
  }

  ghost predicate HighestOf(before: nat, fds: set<nat>, highest: nat) {
    && before <= highest
    && (forall fd :: fd in fds ==> fd <= highest)
    && (highest == before || highest in fds)
  }

  // x after one more client has been dealt with.
  ghost function StartOne(x: Sessions, env: Environment, id: nat): Sessions
    requires env.connect(id) < |x.owner|
  {
    var fd := env.connect(id);
    if fd < 0 then x.(wanting := x.wanting - {id})
    else x.(wanting := x.wanting - {id}, unsent := x.unsent + {fd}, owner := x.owner[fd := id],
            maxfd := if fd > x.maxfd then fd else x.maxfd)
  }

  lemma StartedForOneMore(x: Sessions, env: Environment, ids: set<nat>, y: Sessions, id: nat)
    requires |x.owner| == FD_SETSIZE && OpensUnused(x, env) && StartedFor(x, env, ids, y)
    requires id in x.wanting && id !in ids
    ensures StartedFor(x, env, ids + {id}, StartOne(y, env, id))
  {
    var fd := env.connect(id);
    if fd < 0 {
      assert NewFds(ids + {id}, env) == NewFds(ids, env);
    } else {
      NewFdsGrow(env, ids, id);
      OwnersOneMore(x, env, ids, y.owner, id);
      HighestOneMore(x.maxfd, NewFds(ids, env), y.maxfd, fd);
    }
  }

  lemma OwnersOneMore(x: Sessions, env: Environment, ids: set<nat>, owner: seq<nat>, id: nat)
    requires OpensUnused(x, env) && ids <= x.wanting && id in x.wanting && id !in ids
    requires 0 <= env.connect(id) < |owner| && OwnedFor(x.owner, env, ids, owner)
    ensures OwnedFor(x.owner, env, ids + {id}, owner[env.connect(id) := id])
  {
    NewFdsGrow(env, ids, id);
    forall a | a in ids && 0 <= env.connect(a) < |owner|
      ensures owner[env.connect(id) := id][env.connect(a)] == a
    {
      assert env.connect(a) != env.connect(id);
    }
  }

  lemma HighestOneMore(before: nat, fds: set<nat>, highest: nat, fd: nat)
    requires HighestOf(before, fds, highest)
    ensures HighestOf(before, fds + {fd}, if fd > highest then fd else highest)
  {
  }

  lemma NewFdsGrow(env: Environment, ids: set<nat>, id: nat)
    requires env.connect(id) >= 0
    ensures NewFds(ids + {id}, env) == NewFds(ids, env) + {env.connect(id)}
  {
  }

  // What the operating system promises of the descriptors it hands out: in range,
  // not 0, not open, and one each.
  ghost predicate OpensUnused(x: Sessions, env: Environment) {
    && (forall id :: id in x.wanting && env.connect(id) >= 0 ==>
          0 < env.connect(id) < FD_SETSIZE && env.connect(id) !in x.Open())
    && (forall a, b :: a in x.wanting && b in x.wanting && a != b && env.connect(a) >= 0 ==>
          env.connect(a) != env.connect(b))
  }

  // ---------------------------------------------------------------------
  // Conservation

  ghost predicate InRange(x: Sessions) {
    && |x.owner| == FD_SETSIZE && x.maxfd < FD_SETSIZE
    && (forall fd :: fd in x.Open() ==> 0 < fd <= x.maxfd && 0 < x.owner[fd] <= x.maxfd)
    && (forall id :: id in x.Waiting() ==> 0 < id <= x.maxfd)
  }

  ghost predicate OwnersDistinct(fds: set<nat>, owner: seq<nat>) {
    forall a, b :: a in fds && b in fds && a != b && a < |owner| && b < |owner| ==> owner[a] != owner[b]
  }

  // Every client of `clients` is in exactly one place, and nobody else is anywhere.
  ghost predicate Conserved(x: Sessions, clients: set<nat>) {
    && InRange(x)
    && x.unsent !! x.active && x.finished !! (x.unsent + x.active)
    && x.sleeping !! x.wanting
    && OwnersDistinct(x.Open(), x.owner)
    && Owners(x.Open(), x.owner) !! x.Waiting()
    && Owners(x.Open(), x.owner) + x.Waiting() == clients
  }

  // Only new descriptors, each its own client: the state after the initial loop.
  ghost predicate Initial(x: Sessions, clients: set<nat>) {
    && x.unsent == clients && x.active == x.finished == x.sleeping == x.wanting == {}
    && |x.owner| == FD_SETSIZE && x.maxfd < FD_SETSIZE
    && forall fd :: fd in clients ==> 0 < fd <= x.maxfd && x.owner[fd] == fd
  }

  lemma InitialOneMore(x: Sessions, clients: set<nat>, fd: nat, y: Sessions)
    requires Initial(x, clients) && 0 < fd < FD_SETSIZE
    requires y == x.(unsent := x.unsent + {fd}, owner := x.owner[fd := fd],
                     maxfd := if fd > x.maxfd then fd else x.maxfd)
    ensures Initial(y, clients + {fd})
  {
  }

  lemma InitialConserved(x: Sessions, clients: set<nat>)
    requires Initial(x, clients)
    ensures Conserved(x, clients)
  {
    assert x.Open() == clients;
    assert Owners(x.Open(), x.owner) == clients by {
      forall fd | fd in clients ensures fd in Owners(x.Open(), x.owner) {
        assert x.owner[fd] == fd;
      }
    }
  }

  lemma SendConserves(x: Sessions, env: Environment, clients: set<nat>)
    requires Conserved(x, clients)
    ensures Conserved(Send(x, env), clients)
  {
    assert Send(x, env).Open() == x.Open();
  }

  // Exceptions lose the client of the dropped descriptor, and only those.
  ghost function Lost(x: Sessions, env: Environment): set<nat> {
    Owners(Dropped(x, env), x.owner)
  }

  lemma SinkConserves(x: Sessions, env: Environment, clients: set<nat>)
    requires Conserved(x, clients)
    ensures Conserved(Sink(x, env), clients - Lost(x, env))
  {
    var y := Sink(x, env);
    assert y.Open() == x.Open() - Dropped(x, env);
    assert Owners(y.Open(), y.owner) == Owners(x.Open(), x.owner) - Lost(x, env);
  }

  lemma CloseConserves(x: Sessions, clients: set<nat>)
    requires Conserved(x, clients)
    ensures Conserved(Close(x), clients)
  {
    var y := Close(x);
    assert y.Open() == x.Open() - x.finished;
    assert Owners(x.Open(), x.owner) == Owners(y.Open(), x.owner) + Owners(x.finished, x.owner);
    forall id | id in Owners(y.Open(), x.owner)
      ensures id !in Owners(x.finished, x.owner)
    {
    }
  }

  lemma WakeConserves(x: Sessions, env: Environment, clients: set<nat>)
    requires Conserved(x, clients)
    ensures Conserved(Wake(x, env), clients)
  {
    assert Wake(x, env).Waiting() == x.Waiting();
  }

  // The connection loop loses exactly the clients whose connection fails.
  ghost function Refused(x: Sessions, env: Environment): set<nat> {
    x.wanting - Started(x, env)
  }

  // The new descriptors are unused and belong to the clients that were started.
  lemma NewFdsAreOwned(x: Sessions, env: Environment, y: Sessions)
    requires InRange(x) && OpensUnused(x, env) && StartedFor(x, env, x.wanting, y)
    ensures var fds := NewFds(x.wanting, env);
            && fds !! x.Open() && (forall fd :: fd in fds ==> 0 < fd < FD_SETSIZE)
            && OwnersDistinct(fds, y.owner) && Owners(fds, y.owner) == Started(x, env)
  {
    var fds := NewFds(x.wanting, env);
    forall id | id in Started(x, env) ensures id in Owners(fds, y.owner) {
      assert env.connect(id) in fds && y.owner[env.connect(id)] == id;
    }
  }

  // The descriptors that were open keep their owners.
  lemma OldFdsKeepOwners(x: Sessions, env: Environment, y: Sessions)
    requires InRange(x) && OpensUnused(x, env) && StartedFor(x, env, x.wanting, y)
    ensures forall fd :: fd in x.Open() ==> y.owner[fd] == x.owner[fd]
    ensures Owners(x.Open(), y.owner) == Owners(x.Open(), x.owner)
  {
    NewFdsAreOwned(x, env, y);
  }

  lemma StartStaysInRange(x: Sessions, env: Environment, y: Sessions)
    requires InRange(x) && OpensUnused(x, env) && StartedFor(x, env, x.wanting, y)
    ensures InRange(y) && y.Open() == x.Open() + NewFds(x.wanting, env)
  {
    NewFdsAreOwned(x, env, y);
    OldFdsKeepOwners(x, env, y);
    var fds := NewFds(x.wanting, env);
    assert y.Waiting() <= x.Waiting();
    forall fd | fd in fds ensures 0 < y.owner[fd] <= y.maxfd {
      assert y.owner[fd] in Owners(fds, y.owner);
      assert y.owner[fd] in x.Waiting();
    }
  }

  lemma StartConserves(x: Sessions, env: Environment, y: Sessions, clients: set<nat>)
    requires Conserved(x, clients) && OpensUnused(x, env) && StartedFor(x, env, x.wanting, y)
    ensures Conserved(y, clients - Refused(x, env)) && y.wanting == {}
  {
    var fds := NewFds(x.wanting, env);
    StartStaysInRange(x, env, y);
    NewFdsAreOwned(x, env, y);
    OldFdsKeepOwners(x, env, y);
    assert Owners(y.Open(), y.owner) == Owners(x.Open(), x.owner) + Started(x, env);
    assert OwnersDistinct(y.Open(), y.owner) by {
      forall a, b | a in x.Open() && b in fds ensures y.owner[a] != y.owner[b] {
        assert y.owner[a] in Owners(x.Open(), x.owner) && y.owner[b] in Started(x, env);
      }
    }
  }

  // ---------------------------------------------------------------------
  // Whole runs

  // One pass of the action loop, through all its intermediate states. The close
  // loop runs only when sink_data finished something and the connection loop only
  // when a sleeper was due.
  datatype Pass = Pass(sent: Sessions, sunk: Sessions, closed: Sessions, woken: Sessions, started: Sessions)

  // The state in which the connection loop would start.
  ghost function BeforeConnecting(x: Sessions, env: Environment): Sessions {
    var sent := Send(x, env);
    var sunk := Sink(sent, env);
    Wake(if Ended(sent, env) == {} then sunk else Close(sunk), env)
  }

  ghost predicate IsPass(x: Sessions, env: Environment, p: Pass) {
    && p.sent == Send(x, env)
    && p.sunk == Sink(p.sent, env)
    && p.closed == (if Ended(p.sent, env) == {} then p.sunk else Close(p.sunk))
    && p.woken == Wake(p.closed, env)
    && (if Due(p.closed, env) == {} then p.started == p.woken
        else OpensUnused(p.woken, env) && StartedFor(p.woken, env, p.woken.wanting, p.started))
  }

  // At the top of the loop nothing is finished and nobody wants to run.
  ghost predicate AtLoopTop(x: Sessions) { x.finished == {} && x.wanting == {} }

  lemma MinusNothing(c: set<nat>, none: set<nat>)
    requires none == {}
    ensures c - none == c
  {
  }

  lemma FirstHalfConserves(x: Sessions, env: Environment, p: Pass, clients: set<nat>)
    requires Conserved(x, clients) && AtLoopTop(x) && IsPass(x, env, p)
    ensures Conserved(p.sent, clients)
    ensures Conserved(p.sunk, clients - Lost(p.sent, env))
    ensures Conserved(p.closed, clients - Lost(p.sent, env)) && AtLoopTop(p.closed)
  {
    SendConserves(x, env, clients);
    SinkConserves(p.sent, env, clients);
    CloseConserves(p.sunk, clients - Lost(p.sent, env));
  }

  lemma SecondHalfConserves(x: Sessions, env: Environment, p: Pass, clients: set<nat>)
    requires Conserved(p.closed, clients) && AtLoopTop(p.closed) && IsPass(x, env, p)
    ensures Conserved(p.woken, clients)
    ensures Conserved(p.started, clients - Refused(p.woken, env)) && AtLoopTop(p.started)
  {
    WakeConserves(p.closed, env, clients);
    if Due(p.closed, env) == {} {
      MinusNothing(clients, Refused(p.woken, env));
    } else {
      StartConserves(p.woken, env, p.started, clients);
    }
  }

  // A run: the states at the top of the loop, and the passes between them.
  ghost predicate IsRun(states: seq<Sessions>, envs: seq<Environment>, passes: seq<Pass>) {
    && |states| == |envs| + 1 && |passes| == |envs|
    && forall i :: 0 <= i < |envs| ==> IsPass(states[i], envs[i], passes[i]) && states[i + 1] == passes[i].started
  }

  // The clients left after n passes: those that met no exception and were not refused.
  ghost function Remaining(clients: set<nat>, envs: seq<Environment>, passes: seq<Pass>, n: nat): set<nat>
    requires |passes| == |envs| && n <= |envs|
  {
    if n == 0 then clients
    else Remaining(clients, envs, passes, n - 1)
           - Lost(passes[n - 1].sent, envs[n - 1]) - Refused(passes[n - 1].woken, envs[n - 1])
  }

  // Over every run, the clients in the five sets are exactly the initial ones minus
  // those whose connection raised an exception or could not be created.
  lemma {:induction false} RunConserves(states: seq<Sessions>, envs: seq<Environment>, passes: seq<Pass>,
                                        clients: set<nat>, n: nat)
    requires IsRun(states, envs, passes) && n <= |envs|
    requires Conserved(states[0], clients) && AtLoopTop(states[0])
    ensures AtLoopTop(states[n])
    ensures Conserved(states[n], Remaining(clients, envs, passes, n))
  {
    if n > 0 {
      RunConserves(states, envs, passes, clients, n - 1);
      var c := Remaining(clients, envs, passes, n - 1);
      assert IsPass(states[n - 1], envs[n - 1], passes[n - 1]);
      FirstHalfConserves(states[n - 1], envs[n - 1], passes[n - 1], c);
      SecondHalfConserves(states[n - 1], envs[n - 1], passes[n - 1], c - Lost(passes[n - 1].sent, envs[n - 1]));
    }
  }

  // No exception on an active descriptor, and no failed connect
  ghost predicate LosesNobody(p: Pass, env: Environment) {
    Dropped(p.sent, env) == {} && Refused(p.woken, env) == {}
  }

  // Nobody is missing exactly when no pass so far dropped a descriptor and none was
  // refused a connection.
  lemma {:induction false} NobodyMissingIff(states: seq<Sessions>, envs: seq<Environment>, passes: seq<Pass>,
                                            clients: set<nat>, n: nat)
    requires IsRun(states, envs, passes) && n <= |envs|
    requires Conserved(states[0], clients) && AtLoopTop(states[0])
    ensures Remaining(clients, envs, passes, n) <= clients
    ensures Remaining(clients, envs, passes, n) == clients <==>
            forall i :: 0 <= i < n ==> LosesNobody(passes[i], envs[i])
  {
    if n > 0 {
      NobodyMissingIff(states, envs, passes, clients, n - 1);
      LastPassLosesIff(states, envs, passes, clients, n);
      var before, after := Remaining(clients, envs, passes, n - 1), Remaining(clients, envs, passes, n);
      assert after == clients <==> before == clients && after == before;
    }
  }

  lemma LastPassLosesIff(states: seq<Sessions>, envs: seq<Environment>, passes: seq<Pass>, clients: set<nat>, n: nat)
    requires IsRun(states, envs, passes) && 0 < n <= |envs|
    requires Conserved(states[0], clients) && AtLoopTop(states[0])
    ensures var before, after := Remaining(clients, envs, passes, n - 1), Remaining(clients, envs, passes, n);
            after <= before && (after == before <==> LosesNobody(passes[n - 1], envs[n - 1]))
  {
    RunConserves(states, envs, passes, clients, n - 1);
    PassOfRun(states, envs, passes, n - 1);
    PassLosesIff(states[n - 1], envs[n - 1], passes[n - 1], Remaining(clients, envs, passes, n - 1),
                 Remaining(clients, envs, passes, n));
  }

  lemma PassOfRun(states: seq<Sessions>, envs: seq<Environment>, passes: seq<Pass>, i: nat)
    requires IsRun(states, envs, passes) && i < |envs|
    ensures IsPass(states[i], envs[i], passes[i])
  {
  }

  lemma PassLosesIff(x: Sessions, env: Environment, p: Pass, c: set<nat>, left: set<nat>)
    requires Conserved(x, c) && AtLoopTop(x) && IsPass(x, env, p)
    requires left == c - Lost(p.sent, env) - Refused(p.woken, env)
    ensures left <= c && (left == c <==> LosesNobody(p, env))
  {
    FirstHalfConserves(x, env, p, c);
    SecondHalfConserves(x, env, p, c - Lost(p.sent, env));
    LostAreClients(p.sent, env, c);
    RefusedAreClients(p.woken, env, c - Lost(p.sent, env));
  }

  lemma LostAreClients(x: Sessions, env: Environment, c: set<nat>)
    requires Conserved(x, c)
    ensures Lost(x, env) <= c
    ensures c - Lost(x, env) == c <==> Dropped(x, env) == {}
  {
    assert forall fd :: fd in Dropped(x, env) ==> fd in x.Open() && x.owner[fd] in Owners(x.Open(), x.owner);
    if Dropped(x, env) != {} {
      var fd :| fd in Dropped(x, env);
      assert x.owner[fd] in Lost(x, env);
    }
  }

  lemma RefusedAreClients(x: Sessions, env: Environment, c: set<nat>)
    requires Conserved(x, c)
    ensures Refused(x, env) <= c
    ensures c - Refused(x, env) == c <==> Refused(x, env) == {}
  {
    if Refused(x, env) != {} {
      var id :| id in Refused(x, env);
      assert id in x.Waiting();
    }
  }

  // One pass with one active descriptor, which has an exception: its client is nowhere
  // afterwards.
  lemma ExceptionLosesClient(x: Sessions, env: Environment, p: Pass, fd: nat)
    requires x == Sessions({}, {fd}, {}, {}, {}, x.owner, x.maxfd) && 0 < fd <= x.maxfd < FD_SETSIZE
    requires |x.owner| == FD_SETSIZE && x.owner[fd] == fd
    requires IsPass(x, env, p) && env.exceptional(fd)
    ensures Conserved(x, {fd}) && AtLoopTop(x) && p.started.Open() == {} && p.started.Waiting() == {}
  {
    InitialConserved(x.(unsent := {fd}, active := {}), {fd});
    assert x.Open() == {fd};
    assert p.sent == x && Dropped(x, env) == {fd} && Ended(x, env) == {};
    assert p.closed.active == {} && Due(p.closed, env) == {};
  }

  // One pass with one sleeper, which is due but gets no connection: it is nowhere
  // afterwards.
  lemma RefusedConnectLosesClient(x: Sessions, env: Environment, p: Pass, id: nat)
    requires x == Sessions({}, {}, {}, {id}, {}, x.owner, x.maxfd) && 0 < id <= x.maxfd < FD_SETSIZE
    requires |x.owner| == FD_SETSIZE && IsPass(x, env, p) && env.due(id) && env.connect(id) < 0
    ensures Conserved(x, {id}) && AtLoopTop(x) && p.started.Open() == {} && p.started.Waiting() == {}
  {
    assert p.sent == x && p.sunk == x && p.closed == x && Due(x, env) == {id};
    assert p.woken.wanting == {id} && p.woken.sleeping == {};
    assert NewFds({id}, env) == {};
  }

  // No socket exceptions, and every connection succeeds.
  ghost predicate Smooth(env: Environment) {
    (forall fd :: !env.exceptional(fd)) && (forall id :: env.connect(id) >= 0)
  }

  lemma SmoothLosesNobody(x: Sessions, env: Environment, c: set<nat>)
    requires Smooth(env)
    ensures c - Lost(x, env) == c && c - Refused(x, env) == c
  {
    assert Dropped(x, env) == {};
    MinusNothing(c, Lost(x, env));
    MinusNothing(c, Refused(x, env));
  }

  lemma {:induction false} SmoothRemaining(clients: set<nat>, envs: seq<Environment>, passes: seq<Pass>, n: nat)
    requires |passes| == |envs| && n <= |envs|
    requires forall i :: 0 <= i < n ==> Smooth(envs[i])
    ensures Remaining(clients, envs, passes, n) == clients
  {
    if n > 0 {
      SmoothRemaining(clients, envs, passes, n - 1);
      SmoothLosesNobody(passes[n - 1].sent, envs[n - 1], clients);
      SmoothLosesNobody(passes[n - 1].woken, envs[n - 1], clients);
    }
  }

  // In a smooth run every client is in exactly one place at every point of every
  // pass, so that the five counts always add up to the number of clients.
  lemma SmoothRunConserves(states: seq<Sessions>, envs: seq<Environment>, passes: seq<Pass>,
                           clients: set<nat>, n: nat)
    requires IsRun(states, envs, passes) && n < |envs|
    requires Conserved(states[0], clients) && AtLoopTop(states[0])
    requires forall i :: 0 <= i < |envs| ==> Smooth(envs[i])
    ensures Conserved(states[n], clients)
    ensures Conserved(passes[n].sent, clients)
    ensures Conserved(passes[n].sunk, clients)
    ensures Conserved(passes[n].closed, clients)
    ensures Conserved(passes[n].woken, clients)
    ensures Conserved(passes[n].started, clients)
  {
    RunConserves(states, envs, passes, clients, n);
    SmoothRemaining(clients, envs, passes, n);
    assert IsPass(states[n], envs[n], passes[n]);
    FirstHalfConserves(states[n], envs[n], passes[n], clients);
    SmoothLosesNobody(passes[n].sent, envs[n], clients);
    SecondHalfConserves(states[n], envs[n], passes[n], clients);
    SmoothLosesNobody(passes[n].woken, envs[n], clients);
  }

  // The five population counts then add up to the number of clients.
  lemma CountsAddUp(x: Sessions, clients: set<nat>)
    requires Conserved(x, clients)
    ensures |x.unsent| + |x.active| + |x.finished| + |x.sleeping| + |x.wanting| == |clients|
  {
    OwnersKeepSize(x.Open(), x.owner);
    assert |x.Open()| == |x.unsent| + |x.active| + |x.finished|;
    assert |x.Waiting()| == |x.sleeping| + |x.wanting|;
    assert |clients| == |Owners(x.Open(), x.owner)| + |x.Waiting()|;
  }

  lemma {:induction false} OwnersKeepSize(fds: set<nat>, owner: seq<nat>)
    requires OwnersDistinct(fds, owner) && forall fd :: fd in fds ==> fd < |owner|
    ensures |Owners(fds, owner)| == |fds|
  {
    if fds != {} {
      var fd :| fd in fds;
      var rest := fds - {fd};
      OwnersKeepSize(rest, owner);
      assert Owners(fds, owner) == Owners(rest, owner) + {owner[fd]};
      assert owner[fd] !in Owners(rest, owner);
    } else {
      assert Owners(fds, owner) == {};
    }
  }
}
