// What one client of the surge client goes through, told by the events that concern it.
module SurgeClients {
  import opened SurgeSessions

  // A client has a new, an active or a finished connection on a descriptor, sleeps, wants
  // to run, or is nowhere.
  datatype Client = Fresh(fd: nat) | Reading(fd: nat) | Done(fd: nat) | Asleep | Ready | Gone

  ghost predicate Works(x: Sessions, fds: set<nat>, fd: nat, id: nat) {
    fd in fds && fd < |x.owner| && x.owner[fd] == id
  }

  ghost predicate Where(x: Sessions, id: nat, c: Client) {
    match c
    case Fresh(fd) => Works(x, x.unsent, fd, id)
    case Reading(fd) => Works(x, x.active, fd, id)
    case Done(fd) => Works(x, x.finished, fd, id)
    case Asleep => id in x.sleeping
    case Ready => id in x.wanting
    case Gone => id !in Owners(x.Open(), x.owner) + x.Waiting()
  }

  // ---------------------------------------------------------------------
  // The five steps

  // The request goes out on a new connection as soon as it can be written to.
  function Sending(c: Client, env: Environment): Client {
    if c.Fresh? && env.writable(c.fd) then Reading(c.fd) else c
  }

  // An exception drops the connection and its client; end of file ends it.
  function Sinking(c: Client, env: Environment): Client {
    if !c.Reading? then c
    else if env.exceptional(c.fd) then Gone
    else if env.readable(c.fd) && env.atEof(c.fd) then Done(c.fd)
    else c
  }

  function Closing(c: Client): Client { if c.Done? then Asleep else c }

  function Waking(c: Client, env: Environment, id: nat): Client { if c.Asleep? && env.due(id) then Ready else c }

  // A client that cannot connect is gone.
  function Connecting(c: Client, env: Environment, id: nat): Client {
    if !c.Ready? then c
    else if env.connect(id) >= 0 then Fresh(env.connect(id))
    else Gone
  }

  function ClientAfterPass(c: Client, env: Environment, id: nat): Client {
    Connecting(Waking(Closing(Sinking(Sending(c, env), env)), env, id), env, id)
  }

  ghost function ClientAfter(c: Client, envs: seq<Environment>, id: nat): Client
    decreases |envs|
  {
    if envs == [] then c
    else ClientAfterPass(ClientAfter(c, envs[..|envs| - 1], id), envs[|envs| - 1], id)
  }

  // ---------------------------------------------------------------------
  // The sets say the same of the client.

  lemma SendShown(x: Sessions, env: Environment, clients: set<nat>, id: nat, c: Client)
    requires Conserved(x, clients) && Where(x, id, c)
    ensures Where(Send(x, env), id, Sending(c, env))
  {
    assert Send(x, env).Open() == x.Open();
  }

  lemma SinkShown(x: Sessions, env: Environment, clients: set<nat>, id: nat, c: Client)
    requires Conserved(x, clients) && Where(x, id, c)
    ensures Where(Sink(x, env), id, Sinking(c, env))
  {
    var y := Sink(x, env);
    assert y.Open() == x.Open() - Dropped(x, env);
    if c.Reading? && env.exceptional(c.fd) {
      forall fd | fd in y.Open() && fd < |y.owner| ensures y.owner[fd] != id {
        assert fd != c.fd;
      }
      assert id in Owners(x.Open(), x.owner);
    }
  }

  lemma CloseShown(x: Sessions, clients: set<nat>, id: nat, c: Client)
    requires Conserved(x, clients) && Where(x, id, c)
    ensures Where(Close(x), id, Closing(c))
  {
    assert Close(x).Open() == x.Open() - x.finished;
    if c.Gone? {
      assert forall fd :: fd in x.finished && fd < |x.owner| ==> x.owner[fd] in Owners(x.Open(), x.owner);
    }
  }

  lemma WakeShown(x: Sessions, env: Environment, clients: set<nat>, id: nat, c: Client)
    requires Conserved(x, clients) && Where(x, id, c)
    ensures Where(Wake(x, env), id, Waking(c, env, id))
  {
    assert Wake(x, env).Waiting() == x.Waiting();
  }

  lemma ConnectShown(x: Sessions, env: Environment, clients: set<nat>, y: Sessions, id: nat, c: Client)
    requires Conserved(x, clients) && Where(x, id, c) && OpensUnused(x, env) && StartedFor(x, env, x.wanting, y)
    ensures Where(y, id, Connecting(c, env, id))
  {
    NewFdsAreOwned(x, env, y);
    OldFdsKeepOwners(x, env, y);
    StartStaysInRange(x, env, y);
    if c.Ready? && env.connect(id) >= 0 {
      assert env.connect(id) in NewFds(x.wanting, env);
    }
    assert Owners(y.Open(), y.owner) == Owners(x.Open(), x.owner) + Started(x, env);
  }

  lemma PassShown(x: Sessions, env: Environment, p: Pass, clients: set<nat>, id: nat, c: Client)
    requires Conserved(x, clients) && AtLoopTop(x) && IsPass(x, env, p) && Where(x, id, c)
    ensures Where(p.started, id, ClientAfterPass(c, env, id))
  {
    var c1 := Sending(c, env);
    var c2 := Sinking(c1, env);
    var c3 := Closing(c2);
    var left := clients - Lost(p.sent, env);
    FirstHalfConserves(x, env, p, clients);
    SecondHalfConserves(x, env, p, left);
    SendShown(x, env, clients, id, c);
    SinkShown(p.sent, env, clients, id, c1);
    CloseShown(p.sunk, left, id, c2);
    assert Ended(p.sent, env) == {} ==> p.sunk.finished == {};
    WakeShown(p.closed, env, left, id, c3);
    if Due(p.closed, env) != {} {
      ConnectShown(p.woken, env, left, p.started, id, Waking(c3, env, id));
    }
  }

  // In every run each client goes its own way: which connection it has and in which state,
  // whether it sleeps and when it is lost follow from the events on its own connections.
  lemma {:induction false} RunServesEachClient(states: seq<Sessions>, envs: seq<Environment>, passes: seq<Pass>,
                                               clients: set<nat>, id: nat, c: Client, n: nat)
    requires IsRun(states, envs, passes) && n <= |envs|
    requires Conserved(states[0], clients) && AtLoopTop(states[0]) && Where(states[0], id, c)
    ensures Where(states[n], id, ClientAfter(c, envs[..n], id))
  {
    if n > 0 {
      var c' := ClientAfter(c, envs[..n - 1], id);
      RunServesEachClient(states, envs, passes, clients, id, c, n - 1);
      StepShown(states, envs, passes, clients, id, c', n - 1);
      assert envs[..n][..n - 1] == envs[..n - 1] && envs[..n][n - 1] == envs[n - 1];
    }
  }

  lemma StepShown(states: seq<Sessions>, envs: seq<Environment>, passes: seq<Pass>,
                  clients: set<nat>, id: nat, c: Client, i: nat)
    requires IsRun(states, envs, passes) && i < |envs|
    requires Conserved(states[0], clients) && AtLoopTop(states[0]) && Where(states[i], id, c)
    ensures Where(states[i + 1], id, ClientAfterPass(c, envs[i], id))
  {
    RunConserves(states, envs, passes, clients, i);
    PassOfRun(states, envs, passes, i);
    PassShown(states[i], envs[i], passes[i], Remaining(clients, envs, passes, i), id, c);
  }
}
