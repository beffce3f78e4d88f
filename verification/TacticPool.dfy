// The pool of recycled tactic threads of psp/lib/tactic_solver/tactic_pool.rb and the
// life cycle of a thread in tactic.rb.
module TacticPool {
  import opened Options

  // A thread runs the tactic of one directory.
  datatype Thread = Thread(dir: string, id: nat)

  datatype Request = Request(what: string, userInfo: string)

  datatype Given = Given(thread: Thread, request: Request)

  // What belongs to one tactic. items and waiting make up its EM::Queue: idle threads,
  // and the callbacks of requests that found none. warming are the threads that have not
  // connected yet. created, requests and given are histories.
  datatype Station = Station(
    items: seq<Thread>, waiting: seq<Request>,
    warming: set<Thread>, serving: map<Thread, Request>,
    created: set<Thread>, requests: seq<Request>, given: seq<Given>)

  const EMPTY := Station([], [], {}, map[], {}, [], [])

  datatype Pool = Pool(stations: map<string, Station>, count: nat)

  function StationOf(stations: map<string, Station>, dir: string): Station {
    if dir in stations then stations[dir] else EMPTY
  }

  // ---------------------------------------------------------------------
  // EM::Queue

  function Hand(s: Station, t: Thread, r: Request): Station {
    s.(serving := s.serving[t := r], given := s.given + [Given(t, r)])
  }

  function HandFirst(s: Station): Station
    requires s.items != [] && s.waiting != []
  {
    Hand(s.(items := s.items[1..], waiting := s.waiting[1..]), s.items[0], s.waiting[0])
  }

  // Callbacks are called for as long as there are items.
  function Drained(s: Station): Station
    decreases |s.items|
  {
    if s.items == [] || s.waiting == [] then s else Drained(HandFirst(s))
  }

  function Push(s: Station, t: Thread): Station { Drained(s.(items := s.items + [t])) }

  function Pop(s: Station, r: Request): Station {
    if s.items == [] then s.(waiting := s.waiting + [r])
    else Hand(s.(items := s.items[1..]), s.items[0], r)
  }

  // ---------------------------------------------------------------------
  // The steps of a pool

  function NewThread(s: Station, t: Thread): Station {
    s.(warming := s.warming + {t}, created := s.created + {t})
  }

  function Spawned(p: Pool, dir: string, r: Request): Pool {
    var s := StationOf(p.stations, dir);
    var asked := s.(requests := s.requests + [r]);
    if s.items == [] then
      Pool(p.stations[dir := Pop(NewThread(asked, Thread(dir, p.count)), r)], p.count + 1)
    else
      Pool(p.stations[dir := Pop(asked, r)], p.count)
  }

  // A thread that has connected, or has finished what it was given
  function Readied(p: Pool, t: Thread): Pool {
    var s := StationOf(p.stations, t.dir);
    p.(stations := p.stations[t.dir := Push(s.(warming := s.warming - {t}, serving := s.serving - {t}), t)])
  }

  datatype Step = Ask(dir: string, request: Request) | Connect(thread: Thread) | Recycle(thread: Thread)

  predicate Enabled(p: Pool, e: Step) {
    match e
    case Ask(_, _) => true
    case Connect(t) => t in StationOf(p.stations, t.dir).warming
    case Recycle(t) => t in StationOf(p.stations, t.dir).serving
  }

  function Next(p: Pool, e: Step): Pool
    requires Enabled(p, e)
  {
    match e
    case Ask(dir, r) => Spawned(p, dir, r)
    case Connect(t) => Readied(p, t)
    case Recycle(t) => Readied(p, t)
  }

  // ---------------------------------------------------------------------
  // What every step keeps

  function RequestsOf(given: seq<Given>): seq<Request> {
    if given == [] then [] else RequestsOf(given[..|given| - 1]) + [given[|given| - 1].request]
  }

  ghost predicate Distinct(items: seq<Thread>) {
    forall i, j :: 0 <= i < j < |items| ==> items[i] != items[j]
  }

  // Every thread is warming up, idle or serving one request, and no two of these.
  ghost predicate OneState(s: Station) {
    && Distinct(s.items)
    && (forall t :: t in s.created <==> t in s.items || t in s.warming || t in s.serving)
    && (forall t :: t in s.items ==> t !in s.warming && t !in s.serving)
    && s.warming !! s.serving.Keys
  }

  ghost predicate InOrder(s: Station) { s.requests == RequestsOf(s.given) + s.waiting }

  ghost predicate Balanced(s: Station) {
    && |s.waiting| <= |s.warming| && (s.items == [] || s.waiting == [])
    && |s.created| <= |s.requests|
  }

  function LastGiven(given: seq<Given>, t: Thread): Option<Request> {
    if given == [] then None
    else
      var last := given[|given| - 1];
      if last.thread == t then Some(last.request) else LastGiven(given[..|given| - 1], t)
  }

  // A thread serves the request it was given last.
  ghost predicate ServesLast(s: Station) {
    forall t :: t in s.serving ==> LastGiven(s.given, t) == Some(s.serving[t])
  }

  lemma HandServesLast(s: Station, t: Thread, r: Request)
    requires ServesLast(s)
    ensures ServesLast(Hand(s, t, r))
  {
    var given := Hand(s, t, r).given;
    assert given[..|given| - 1] == s.given;
  }

  ghost predicate StationValid(s: Station, dir: string, count: nat) {
    && OneState(s) && InOrder(s) && Balanced(s) && ServesLast(s)
    && forall t :: t in s.created ==> t.dir == dir && t.id < count
  }

  ghost predicate Valid(p: Pool) {
    forall dir :: StationValid(StationOf(p.stations, dir), dir, p.count)
  }

  lemma HandKeepsOrder(s: Station, t: Thread, r: Request, waiting: seq<Request>)
    requires s.requests == RequestsOf(s.given) + ([r] + waiting)
    ensures Hand(s, t, r).requests == RequestsOf(Hand(s, t, r).given) + waiting
  {
    var given := Hand(s, t, r).given;
    assert given[..|given| - 1] == s.given;
  }

  lemma QueuedKeepsStation(s: Station, dir: string, count: nat, r: Request)
    requires StationValid(s, dir, count) && s.items == []
    ensures StationValid(Pop(NewThread(s.(requests := s.requests + [r]), Thread(dir, count)), r), dir, count + 1)
  {
    assert Thread(dir, count) !in s.created;
    assert s.requests + [r] == RequestsOf(s.given) + (s.waiting + [r]);
  }

  lemma ServedKeepsStation(s: Station, dir: string, count: nat, r: Request)
    requires StationValid(s, dir, count) && s.items != []
    ensures StationValid(Pop(s.(requests := s.requests + [r]), r), dir, count)
  {
    var asked := s.(requests := s.requests + [r]);
    assert s.items == [s.items[0]] + s.items[1..];
    assert asked.requests == RequestsOf(s.given) + ([r] + []);
    HandKeepsOrder(asked.(items := s.items[1..]), s.items[0], r, []);
    HandServesLast(asked.(items := s.items[1..]), s.items[0], r);
  }

  lemma AskKeepsStation(s: Station, dir: string, count: nat, r: Request)
    requires StationValid(s, dir, count)
    ensures var p := Spawned(Pool(map[dir := s], count), dir, r);
            StationValid(p.stations[dir], dir, p.count)
  {
    if s.items == [] {
      QueuedKeepsStation(s, dir, count, r);
    } else {
      ServedKeepsStation(s, dir, count, r);
    }
  }

  lemma ReadyKeepsStation(s: Station, dir: string, count: nat, t: Thread)
    requires StationValid(s, dir, count) && (t in s.warming || t in s.serving)
    ensures StationValid(Push(s.(warming := s.warming - {t}, serving := s.serving - {t}), t), dir, count)
  {
    var s' := s.(warming := s.warming - {t}, serving := s.serving - {t}, items := s.items + [t]);
    if s.waiting != [] {
      var h := HandFirst(s');
      assert s'.items == [t] && h.items == [];
      assert Drained(s') == h;
      assert s.waiting == [s.waiting[0]] + s.waiting[1..];
      HandKeepsOrder(s'.(items := [], waiting := s.waiting[1..]), t, s.waiting[0], s.waiting[1..]);
      HandServesLast(s'.(items := [], waiting := s.waiting[1..]), t, s.waiting[0]);
    } else {
      assert Drained(s') == s';
    }
  }

  lemma NextKeepsValid(p: Pool, e: Step)
    requires Valid(p) && Enabled(p, e)
    ensures Valid(Next(p, e))
  {
    var p' := Next(p, e);
    forall dir ensures StationValid(StationOf(p'.stations, dir), dir, p'.count) {
      var s := StationOf(p.stations, dir);
      assert StationValid(s, dir, p.count);
      match e
      case Ask(d, r) => if d == dir { AskKeepsStation(s, dir, p.count, r); }
      case Connect(t) => if t.dir == dir { ReadyKeepsStation(s, dir, p.count, t); }
      case Recycle(t) => if t.dir == dir { ReadyKeepsStation(s, dir, p.count, t); }
    }
  }

  // ---------------------------------------------------------------------
  // Runs

  ghost function Run(p: Pool, steps: seq<Step>): (r: Pool)
    requires Valid(p)
    ensures Valid(r)
    decreases |steps|
  {
    if steps == [] then p
    else if Enabled(p, steps[0]) then
      NextKeepsValid(p, steps[0]);
      Run(Next(p, steps[0]), steps[1..])
    else Run(p, steps[1..])
  }

  lemma {:induction false} RequestsAt(given: seq<Given>, i: nat)
    requires i < |given|
    ensures |RequestsOf(given)| == |given| && RequestsOf(given)[i] == given[i].request
    decreases |given|
  {
    if |given| == 1 {
      assert RequestsOf(given[..0]) == [];
    } else {
      RequestsAt(given[..|given| - 1], if i < |given| - 1 then i else 0);
    }
  }

  lemma EmptyPoolIsValid()
    ensures Valid(Pool(map[], 0))
  {
    assert RequestsOf([]) == [];
  }

  // In every run, for every tactic: the i-th request goes to the i-th thread given one and
  // to no other, those not given yet wait in order, never more of them than threads that
  // are warming up, and none while a thread is idle.
  lemma PoolRunsInOrder(steps: seq<Step>, dir: string)
    ensures Valid(Pool(map[], 0))
    ensures var s := StationOf(Run(Pool(map[], 0), steps).stations, dir);
            && |s.given| + |s.waiting| == |s.requests|
            && (forall i :: 0 <= i < |s.given| ==> s.given[i].request == s.requests[i])
            && s.waiting == s.requests[|s.given|..]
            && |s.waiting| <= |s.warming|
            && (s.items != [] ==> s.waiting == [])
            && OneState(s) && ServesLast(s)
  {
    EmptyPoolIsValid();
    var p := Run(Pool(map[], 0), steps);
    var s := StationOf(p.stations, dir);
    assert StationValid(s, dir, p.count);
    if s.given != [] {
      RequestsAt(s.given, 0);
    }
    assert s.requests == RequestsOf(s.given) + s.waiting;
    forall i | 0 <= i < |s.given| ensures s.given[i].request == s.requests[i] {
      RequestsAt(s.given, i);
    }
  }

  // ---------------------------------------------------------------------
  // What one step does

  ghost predicate OthersKept(p: Pool, p': Pool, dir: string) {
    forall other :: other != dir ==> StationOf(p'.stations, other) == StationOf(p.stations, other)
  }

  // A request goes to the thread that has been idle longest; when none is, it joins the end
  // of the queue and one new thread is started.
  lemma AskMeans(p: Pool, dir: string, r: Request)
    ensures var p' := Next(p, Ask(dir, r));
            var s, s', t := StationOf(p.stations, dir), StationOf(p'.stations, dir), Thread(dir, p.count);
            && OthersKept(p, p', dir)
            && if s.items == [] then
                 && p'.count == p.count + 1
                 && s' == Station([], s.waiting + [r], s.warming + {t}, s.serving, s.created + {t},
                                  s.requests + [r], s.given)
               else
                 && p'.count == p.count
                 && s' == Station(s.items[1..], s.waiting, s.warming, s.serving[s.items[0] := r], s.created,
                                  s.requests + [r], s.given + [Given(s.items[0], r)])
  {
  }

  // A thread that has connected or is done takes the request that has waited longest; when
  // none waits, it joins the end of the idle ones.
  lemma ReadyMeans(p: Pool, e: Step, t: Thread)
    requires Valid(p) && Enabled(p, e) && e in {Connect(t), Recycle(t)}
    ensures var p' := Next(p, e);
            var s, s' := StationOf(p.stations, t.dir), StationOf(p'.stations, t.dir);
            var warming, serving := s.warming - {t}, s.serving - {t};
            && OthersKept(p, p', t.dir) && p'.count == p.count
            && if s.waiting == [] then
                 s' == Station(s.items + [t], [], warming, serving, s.created, s.requests, s.given)
               else
                 s' == Station([], s.waiting[1..], warming, serving[t := s.waiting[0]], s.created, s.requests,
                               s.given + [Given(t, s.waiting[0])])
  {
    var s := StationOf(p.stations, t.dir);
    assert StationValid(s, t.dir, p.count);
    var s1 := s.(warming := s.warming - {t}, serving := s.serving - {t}, items := s.items + [t]);
    if s.waiting != [] {
      assert s1.items == [t] && HandFirst(s1).items == [];
      assert Drained(s1) == HandFirst(s1);
    }
  }

  // How many requests for a tactic find no idle thread
  ghost function Misses(p: Pool, steps: seq<Step>, dir: string): nat
    requires Valid(p)
    decreases |steps|
  {
    if steps == [] then 0
    else if Enabled(p, steps[0]) then
      NextKeepsValid(p, steps[0]);
      (if steps[0].Ask? && steps[0].dir == dir && StationOf(p.stations, dir).items == [] then 1 else 0)
      + Misses(Next(p, steps[0]), steps[1..], dir)
    else Misses(p, steps[1..], dir)
  }

  // In every run a tactic has one thread for each request that found none idle.
  lemma {:induction false} RunCreates(p: Pool, steps: seq<Step>, dir: string)
    requires Valid(p)
    ensures |StationOf(Run(p, steps).stations, dir).created|
            == |StationOf(p.stations, dir).created| + Misses(p, steps, dir)
    decreases |steps|
  {
    if steps != [] {
      if Enabled(p, steps[0]) {
        NextKeepsValid(p, steps[0]);
        StepCreates(p, steps[0], dir);
        RunCreates(Next(p, steps[0]), steps[1..], dir);
      } else {
        RunCreates(p, steps[1..], dir);
      }
    }
  }

  lemma StepCreates(p: Pool, e: Step, dir: string)
    requires Valid(p) && Enabled(p, e)
    ensures |StationOf(Next(p, e).stations, dir).created| == |StationOf(p.stations, dir).created|
            + (if e.Ask? && e.dir == dir && StationOf(p.stations, dir).items == [] then 1 else 0)
  {
    assert StationValid(StationOf(p.stations, dir), dir, p.count);
    match e
    case Ask(d, r) => AskMeans(p, d, r);
    case Connect(t) => ReadyMeans(p, e, t);
    case Recycle(t) => ReadyMeans(p, e, t);
  }

  // ---------------------------------------------------------------------
  // The class

  class ThreadPool {
    var stations: map<string, Station>
    var count: nat

    function State(): Pool
      reads this
    {
      Pool(stations, count)
    }

    constructor ()
      ensures State() == Pool(map[], 0)
    {
      stations := map[];
      count := 0;
    }

    // TacticThread.new
    method CreateThread(dir: string) returns (t: Thread)
      modifies this
      ensures t == Thread(dir, old(count)) && count == old(count) + 1
      ensures stations == old(stations)[dir := NewThread(StationOf(old(stations), dir), t)]
    {
      t := Thread(dir, count);
      count := count + 1;
      stations := stations[dir := NewThread(StationOf(stations, dir), t)];
    }

    method SpawnExecutionFor(dir: string, r: Request)
      modifies this
      ensures State() == Spawned(old(State()), dir, r)
    {
      var s := StationOf(stations, dir);
      stations := stations[dir := s.(requests := s.requests + [r])];
      if s.items == [] {
        var _ := CreateThread(dir);
      }
      stations := stations[dir := Pop(stations[dir], r)];
    }

    // tactic_thread_ready, called when the thread connects and when it is recycled
    method TacticThreadReady(t: Thread)
      modifies this
      ensures State() == Readied(old(State()), t)
    {
      var s := StationOf(stations, t.dir);
      s := s.(warming := s.warming - {t}, serving := s.serving - {t});
      s := s.(items := s.items + [t]);
      ghost var pushed := s;
      while s.items != [] && s.waiting != []
        invariant Drained(s) == Drained(pushed)
        decreases |s.items|
      {
        s := HandFirst(s);
      }
      stations := stations[t.dir := s];
    }

    // explore_truth_space_for: `matching` lists the tactic of every `provides` entry that
    // matches what is asked for, in order.
    method Explore(matching: seq<string>, r: Request)
      modifies this
      ensures State() == Explored(old(State()), matching, r)
    {
      ghost var was := State();
      for i := 0 to |matching|
        invariant State() == Explored(was, matching[..i], r)
      {
        assert matching[..i + 1][..i] == matching[..i];
        SpawnExecutionFor(matching[i], r);
      }
      assert matching[..|matching|] == matching;
    }
  }

  function Explored(p: Pool, matching: seq<string>, r: Request): Pool {
    if matching == [] then p
    else Spawned(Explored(p, matching[..|matching| - 1], r), matching[|matching| - 1], r)
  }

  function Times(r: Request, n: nat): seq<Request> { if n == 0 then [] else Times(r, n - 1) + [r] }

  lemma SpawnedAsks(p: Pool, d: string, r: Request, dir: string)
    ensures StationOf(Spawned(p, d, r).stations, dir).requests
            == StationOf(p.stations, dir).requests + (if d == dir then [r] else [])
  {
  }

  // An exploration asks each matching tactic once for each entry that matches, and no
  // other.
  lemma {:induction false} ExploredAsks(p: Pool, matching: seq<string>, r: Request, dir: string)
    ensures StationOf(Explored(p, matching, r).stations, dir).requests
            == StationOf(p.stations, dir).requests + Times(r, multiset(matching)[dir])
    decreases |matching|
  {
    if matching != [] {
      var n := |matching| - 1;
      var init, last := matching[..n], matching[n];
      ExploredAsks(p, init, r, dir);
      SpawnedAsks(Explored(p, init, r), last, r, dir);
      var before, k := StationOf(p.stations, dir).requests, multiset(init)[dir];
      assert multiset(matching)[dir] == k + (if last == dir then 1 else 0) by {
        assert matching == init + [last];
      }
      assert before + Times(r, k) + [r] == before + (Times(r, k) + [r]);
    }
  }

  lemma {:induction false} ExploredIsValid(p: Pool, matching: seq<string>, r: Request)
    requires Valid(p)
    ensures Valid(Explored(p, matching, r))
    decreases |matching|
  {
    if matching != [] {
      var n := |matching| - 1;
      ExploredIsValid(p, matching[..n], r);
      NextKeepsValid(Explored(p, matching[..n], r), Ask(matching[n], r));
    }
  }
}
