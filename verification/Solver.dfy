// The truth cache of psp/lib/tactic_solver/solver.rb. One tick of its Bloom rules reads
// the tables as they were, then applies the deferred deletions, then the upserts.
module Solver {
  import Names
  import opened Options

  const GLOBAL := "GLOBAL"
  const ANY := "ANY"

  // Rows of provide_truth and of provide_truth_from_external
  datatype Provided =
    Provided(what: string, provider: string, userInfo: string, signpost: string, truth: string, ttl: int)

  datatype TruthKey = TruthKey(what: string, provider: string, userInfo: string, signpost: string)

  datatype TtlState = NonCacheable | Expires(ttl: int, expires: int)

  datatype Stored = Stored(truth: string, ttlState: TtlState)

  // Rows of need_truth and of observe_truth
  datatype Need = Need(what: string, who: string, signpost: string, userInfo: string, whoName: string)

  datatype SubKey = SubKey(what: string, who: string, signpost: string)

  datatype Subscriber = Subscriber(userInfo: string, whoName: string)

  datatype Tables = Tables(truths: map<TruthKey, Stored>, subscribers: map<SubKey, Subscriber>)

  // Everything that reaches the rules in one tick; collect: the timer has fired
  datatype Batch = Batch(
    needs: set<Need>, observes: set<Need>, provided: set<Provided>, external: set<Provided>,
    leavers: set<string>, collect: bool)

  // A row of needed_truth
  datatype Message = Message(to: string, key: TruthKey, truth: string)

  // A row of satisfiable_truth_needs
  datatype Satisfied = Satisfied(who: string, what: string, userInfo: string, signpost: string, message: Message)

  datatype Decision = Explore(what: string, userInfo: string)
                    | RemoteResolve(what: string, userInfo: string, signpost: string)

  // answers and pushes together are what is sent as needed_truth.
  datatype Output = Output(
    answers: set<Message>, pushes: set<Message>, decisions: map<Need, Decision>, distributed: set<Provided>)

  // Bud stops with an error when two rows that reach a table in one tick agree on a key only.
  datatype Outcome = KeyConflict | Ticked(tables: Tables, output: Output)

  function KeyOf(p: Provided): TruthKey { TruthKey(p.what, p.provider, p.userInfo, p.signpost) }

  function SubKeyOf(n: Need): SubKey { SubKey(n.what, n.who, n.signpost) }

  predicate KeysAgree(b: Batch) {
    && (forall p, q :: p in b.provided + b.external && q in b.provided + b.external && KeyOf(p) == KeyOf(q) ==> p == q)
    && (forall m, n :: m in b.needs + b.observes && n in b.needs + b.observes && SubKeyOf(m) == SubKeyOf(n) ==> m == n)
  }

  // ttl_is_valid?
  predicate IsValid(s: Stored, now: int) { s.ttlState.Expires? && s.ttlState.expires > now }

  // create_ttl_state
  function CreateTtlState(ttl: int, now: int): TtlState {
    if ttl == 0 then NonCacheable else Expires(ttl, now + ttl)
  }

  // A truth of the name asked for that the user may see, from the signpost asked for
  predicate Suits(k: TruthKey, n: Need) {
    && k.what == n.what && (k.userInfo == GLOBAL || k.userInfo == n.userInfo)
    && (n.signpost == ANY || n.signpost == k.signpost)
  }

  // A cached truth that answers a need
  predicate Answers(k: TruthKey, s: Stored, n: Need, now: int) { Suits(k, n) && IsValid(s, now) }

  function Satisfiable(truths: map<TruthKey, Stored>, needs: set<Need>, now: int): set<Satisfied> {
    set k, n | k in truths && n in needs && Answers(k, truths[k], n, now)
      :: Satisfied(n.who, k.what, n.userInfo, k.signpost, Message(n.who, k, truths[k].truth))
  }

  predicate SameRowKey(r: Satisfied, s: Satisfied) {
    r.who == s.who && r.what == s.what && r.userInfo == s.userInfo && r.signpost == s.signpost
  }

  // No two rows of satisfiable_truth_needs have one key.
  predicate RowsAgree(satisfiable: set<Satisfied>) {
    forall r, s :: r in satisfiable && s in satisfiable && SameRowKey(r, s) ==> r == s
  }

  // Nothing stops the tick.
  predicate Fits(t: Tables, b: Batch, now: int) {
    KeysAgree(b) && RowsAgree(Satisfiable(t.truths, b.needs, now))
  }

  // The test that decides whether a need still has to be resolved
  predicate LooksSatisfied(satisfiable: set<Satisfied>, n: Need) {
    exists s :: s in satisfiable && s.what == n.what && (s.userInfo == n.userInfo || s.userInfo == GLOBAL)
                && (n.signpost == ANY || s.signpost == n.signpost)
  }

  function Decide(name: string, n: Need): Decision {
    if n.signpost == name || n.signpost == ANY then Explore(n.what, n.userInfo)
    else RemoteResolve(n.what, n.userInfo, n.signpost)
  }

  function MessageFor(to: string, p: Provided): Message { Message(to, KeyOf(p), p.truth) }

  // A subscription to that very truth, for a user who may see it, or to its resource at
  // any domain from that signpost, for any user
  predicate Concerns(what: string, userInfo: string, signpost: string, p: Provided) {
    || (what == p.what && (p.userInfo == GLOBAL || p.userInfo == userInfo))
    || (what == Names.AnyDomain(p.what) && (signpost == p.signpost || signpost == ANY))
  }

  function Pushes(subscribers: map<SubKey, Subscriber>, provided: set<Provided>): set<Message> {
    set k, p | k in subscribers && p in provided && Concerns(k.what, subscribers[k].userInfo, k.signpost, p)
      :: MessageFor(k.who, p)
  }

  // Deferred deletion of the truths that are no longer valid
  function Collected(truths: map<TruthKey, Stored>, collect: bool, now: int): map<TruthKey, Stored> {
    map k | k in truths && (collect ==> IsValid(truths[k], now)) :: truths[k]
  }

  // The rows to store: those with a positive time to live
  function Storable(provided: set<Provided>, now: int): (m: map<TruthKey, Stored>)
    requires forall p, q :: p in provided && q in provided && KeyOf(p) == KeyOf(q) ==> p == q
    ensures forall k :: k in m <==> exists p :: p in provided && KeyOf(p) == k && p.ttl > 0
    ensures forall p :: p in provided && p.ttl > 0 ==> m[KeyOf(p)] == Stored(p.truth, CreateTtlState(p.ttl, now))
  {
    map k | k in (set p | p in provided && p.ttl > 0 :: KeyOf(p)) ::
      var p := RowOf(provided, k); Stored(p.truth, CreateTtlState(p.ttl, now))
  }

  // The row under a key
  function RowOf(provided: set<Provided>, k: TruthKey): (p: Provided)
    requires forall p, q :: p in provided && q in provided && KeyOf(p) == KeyOf(q) ==> p == q
    requires exists p :: p in provided && KeyOf(p) == k
    ensures p in provided && KeyOf(p) == k
  {
    var p :| p in provided && KeyOf(p) == k;
    p
  }

  function Staying(subscribers: map<SubKey, Subscriber>, leavers: set<string>): map<SubKey, Subscriber> {
    map k | k in subscribers && k.who !in leavers :: subscribers[k]
  }

  function Joining(needs: set<Need>): (m: map<SubKey, Subscriber>)
    requires forall a, b :: a in needs && b in needs && SubKeyOf(a) == SubKeyOf(b) ==> a == b
    ensures forall k :: k in m <==> exists n :: n in needs && SubKeyOf(n) == k
    ensures forall n :: n in needs ==> m[SubKeyOf(n)] == Subscriber(n.userInfo, n.whoName)
  {
    map k | k in (set n | n in needs :: SubKeyOf(n)) ::
      var n := AskerOf(needs, k); Subscriber(n.userInfo, n.whoName)
  }

  function AskerOf(needs: set<Need>, k: SubKey): (n: Need)
    requires forall a, b :: a in needs && b in needs && SubKeyOf(a) == SubKeyOf(b) ==> a == b
    requires exists n :: n in needs && SubKeyOf(n) == k
    ensures n in needs && SubKeyOf(n) == k
  {
    var n :| n in needs && SubKeyOf(n) == k;
    n
  }

  function Tick(name: string, t: Tables, b: Batch, now: int): Outcome {
    if !Fits(t, b, now) then KeyConflict
    else
      var provided := b.provided + b.external;
      var satisfiable := Satisfiable(t.truths, b.needs, now);
      Ticked(
        Tables(Collected(t.truths, b.collect, now) + Storable(provided, now),
               Staying(t.subscribers, b.leavers) + Joining(b.needs + b.observes)),
        Output(set s | s in satisfiable :: s.message,
               Pushes(t.subscribers, provided),
               map n | n in b.needs && !LooksSatisfied(satisfiable, n) :: Decide(name, n),
               b.provided))
  }

  // What is in the table of truths after a tick
  lemma TruthsAfter(name: string, t: Tables, b: Batch, now: int, k: TruthKey)
    requires Fits(t, b, now) && k in Tick(name, t, b, now).tables.truths
    ensures var s, provided := Tick(name, t, b, now).tables.truths[k], b.provided + b.external;
            if k in Storable(provided, now) then
              exists p :: p in provided && KeyOf(p) == k && p.ttl > 0
                          && s == Stored(p.truth, Expires(p.ttl, now + p.ttl))
            else k in t.truths && s == t.truths[k]
  {
    if k in Storable(b.provided + b.external, now) {
      StoredRow(b.provided + b.external, now, k);
    }
  }

  lemma StoredRow(provided: set<Provided>, now: int, k: TruthKey)
    requires forall p, q :: p in provided && q in provided && KeyOf(p) == KeyOf(q) ==> p == q
    requires k in Storable(provided, now)
    ensures exists p :: p in provided && KeyOf(p) == k && p.ttl > 0
                        && Storable(provided, now)[k] == Stored(p.truth, Expires(p.ttl, now + p.ttl))
  {
    var p :| p in provided && KeyOf(p) == k && p.ttl > 0;
    assert Storable(provided, now)[KeyOf(p)] == Stored(p.truth, CreateTtlState(p.ttl, now));
  }

  // ---------------------------------------------------------------------
  // Every need is answered or resolved

  // Although the test does not look at who asked, it never takes the answer to one asker
  // for the answer to another.
  lemma TestIsExact(truths: map<TruthKey, Stored>, needs: set<Need>, n: Need, now: int)
    requires n in needs
    ensures LooksSatisfied(Satisfiable(truths, needs, now), n)
            <==> exists k :: k in truths && Answers(k, truths[k], n, now)
  {
    var satisfiable := Satisfiable(truths, needs, now);
    if LooksSatisfied(satisfiable, n) {
      var s :| s in satisfiable && s.what == n.what && (s.userInfo == n.userInfo || s.userInfo == GLOBAL)
               && (n.signpost == ANY || s.signpost == n.signpost);
      var k, m :| k in truths && m in needs && Answers(k, truths[k], m, now)
                  && s == Satisfied(m.who, k.what, m.userInfo, k.signpost, Message(m.who, k, truths[k].truth));
      assert Answers(k, truths[k], n, now);
    }
    if k :| k in truths && Answers(k, truths[k], n, now) {
      var s := Satisfied(n.who, k.what, n.userInfo, k.signpost, Message(n.who, k, truths[k].truth));
      assert s in satisfiable;
    }
  }

  lemma AnswerIsSent(truths: map<TruthKey, Stored>, needs: set<Need>, k: TruthKey, n: Need, now: int)
    requires n in needs && k in truths && Answers(k, truths[k], n, now)
    ensures Message(n.who, k, truths[k].truth) in set s | s in Satisfiable(truths, needs, now) :: s.message
  {
    var s := Satisfied(n.who, k.what, n.userInfo, k.signpost, Message(n.who, k, truths[k].truth));
    assert s in Satisfiable(truths, needs, now);
    assert s.message in set s | s in Satisfiable(truths, needs, now) :: s.message;
  }

  lemma AnswerIsAsked(truths: map<TruthKey, Stored>, needs: set<Need>, now: int, m: Message)
    requires exists s :: s in Satisfiable(truths, needs, now) && s.message == m
    ensures m.key in truths && m.truth == truths[m.key].truth
    ensures exists n :: n in needs && n.who == m.to && Answers(m.key, truths[m.key], n, now)
  {
    var s :| s in Satisfiable(truths, needs, now) && s.message == m;
    var k, n :| k in truths && n in needs && Answers(k, truths[k], n, now)
                && s == Satisfied(n.who, k.what, n.userInfo, k.signpost, Message(n.who, k, truths[k].truth));
    assert n.who == m.to && Answers(k, truths[k], n, now);
  }

  // Two truths of one name and signpost, by different providers or for different users,
  // that both answer the need
  predicate Rivals(truths: map<TruthKey, Stored>, n: Need, k: TruthKey, l: TruthKey, now: int) {
    && k in truths && l in truths && k != l && k.signpost == l.signpost
    && Answers(k, truths[k], n, now) && Answers(l, truths[l], n, now)
  }

  lemma RowsAgreeIff(truths: map<TruthKey, Stored>, needs: set<Need>, now: int)
    ensures RowsAgree(Satisfiable(truths, needs, now))
            <==> !exists n, k, l :: n in needs && Rivals(truths, n, k, l, now)
  {
    var satisfiable := Satisfiable(truths, needs, now);
    if n, k, l :| n in needs && Rivals(truths, n, k, l, now) {
      var r := Satisfied(n.who, k.what, n.userInfo, k.signpost, Message(n.who, k, truths[k].truth));
      var s := Satisfied(n.who, l.what, n.userInfo, l.signpost, Message(n.who, l, truths[l].truth));
      assert r in satisfiable && s in satisfiable && r != s;
    }
    if r, s :| r in satisfiable && s in satisfiable && SameRowKey(r, s) && r != s {
      RowsOfRivals(truths, needs, now, r, s);
    }
  }

  lemma RowsOfRivals(truths: map<TruthKey, Stored>, needs: set<Need>, now: int, r: Satisfied, s: Satisfied)
    requires r in Satisfiable(truths, needs, now) && s in Satisfiable(truths, needs, now) && r != s
    requires SameRowKey(r, s)
    ensures exists n, k, l :: n in needs && Rivals(truths, n, k, l, now)
  {
    var k, n :| k in truths && n in needs && Answers(k, truths[k], n, now)
                && r == Satisfied(n.who, k.what, n.userInfo, k.signpost, Message(n.who, k, truths[k].truth));
    var l, o :| l in truths && o in needs && Answers(l, truths[l], o, now)
                && s == Satisfied(o.who, l.what, o.userInfo, l.signpost, Message(o.who, l, truths[l].truth));
    assert Rivals(truths, n, k, l, now);
  }

  // A tick stops exactly when its batch has two rows with one key, or a need has rivals
  // among the valid cached truths. When it does not stop, a need is sent every cached truth
  // that answers it or, without one, starts exactly one exploration or remote resolution.
  lemma NeedIsServed(name: string, t: Tables, b: Batch, now: int)
    ensures Tick(name, t, b, now).KeyConflict?
            <==> !KeysAgree(b) || exists n, k, l :: n in b.needs && Rivals(t.truths, n, k, l, now)
    ensures Tick(name, t, b, now).Ticked? ==> forall n :: n in b.needs ==>
              Served(name, t.truths, n, now, Tick(name, t, b, now).output)
  {
    RowsAgreeIff(t.truths, b.needs, now);
    if Fits(t, b, now) {
      forall n | n in b.needs ensures Served(name, t.truths, n, now, Tick(name, t, b, now).output) {
        ServedInTick(name, t, b, now, n);
      }
    }
  }

  ghost predicate Served(name: string, truths: map<TruthKey, Stored>, n: Need, now: int, o: Output) {
    if exists k :: k in truths && Answers(k, truths[k], n, now) then
      && n !in o.decisions
      && forall k :: k in truths && Answers(k, truths[k], n, now) ==> Message(n.who, k, truths[k].truth) in o.answers
    else
      && n in o.decisions
      && o.decisions[n] == if n.signpost == ANY || n.signpost == name then Explore(n.what, n.userInfo)
                           else RemoteResolve(n.what, n.userInfo, n.signpost)
  }

  lemma ServedInTick(name: string, t: Tables, b: Batch, now: int, n: Need)
    requires Fits(t, b, now) && n in b.needs
    ensures Served(name, t.truths, n, now, Tick(name, t, b, now).output)
  {
    TestIsExact(t.truths, b.needs, n, now);
    forall k | k in t.truths && Answers(k, t.truths[k], n, now)
      ensures Message(n.who, k, t.truths[k].truth) in Tick(name, t, b, now).output.answers
    {
      AnswerIsSent(t.truths, b.needs, k, n, now);
    }
  }

  // ---------------------------------------------------------------------
  // Runs

  datatype Event = Event(batch: Batch, now: int)

  // What the ticks send, up to the one that stops with a conflict
  ghost function Outputs(name: string, t: Tables, events: seq<Event>): seq<Option<Output>>
    decreases |events|
  {
    if events == [] then []
    else
      var o := TickOf(name, t, events[0]);
      if o.KeyConflict? then [None] else [Some(o.output)] + Outputs(name, o.tables, events[1..])
  }

  // The tables after the last tick
  ghost function After(name: string, t: Tables, events: seq<Event>): Option<Tables>
    decreases |events|
  {
    if events == [] then Some(t)
    else
      var o := TickOf(name, t, events[0]);
      if o.KeyConflict? then None else After(name, o.tables, events[1..])
  }

  function TickOf(name: string, t: Tables, e: Event): Outcome { Tick(name, t, e.batch, e.now) }

  ghost predicate Monotone(events: seq<Event>, since: int) {
    events != [] ==> since <= events[0].now && Monotone(events[1..], events[0].now)
  }

  // ---------------------------------------------------------------------
  // Garbage collection cannot be observed

  // The same subscribers, and the same truths among those still valid
  ghost predicate SameFresh(s: Tables, t: Tables, now: int) {
    && s.subscribers == t.subscribers
    && (forall k :: k in s.truths && IsValid(s.truths[k], now) ==> k in t.truths && t.truths[k] == s.truths[k])
    && (forall k :: k in t.truths && IsValid(t.truths[k], now) ==> k in s.truths && s.truths[k] == t.truths[k])
  }

  ghost predicate SameButCollection(es: seq<Event>, fs: seq<Event>) {
    && |es| == |fs|
    && forall i :: 0 <= i < |es| ==> fs[i] == es[i].(batch := es[i].batch.(collect := fs[i].batch.collect))
  }

  lemma SameSatisfiable(s: map<TruthKey, Stored>, t: map<TruthKey, Stored>, needs: set<Need>, now: int)
    requires forall k :: k in s && IsValid(s[k], now) ==> k in t && t[k] == s[k]
    ensures Satisfiable(s, needs, now) <= Satisfiable(t, needs, now)
  {
    forall x | x in Satisfiable(s, needs, now) ensures x in Satisfiable(t, needs, now) {
      var k, n :| k in s && n in needs && Answers(k, s[k], n, now)
                  && x == Satisfied(n.who, k.what, n.userInfo, k.signpost, Message(n.who, k, s[k].truth));
      assert Answers(k, t[k], n, now);
    }
  }

  lemma SameOutput(name: string, s: Tables, t: Tables, b: Batch, b': Batch, now: int)
    requires SameFresh(s, t, now) && b' == b.(collect := b'.collect)
    ensures Fits(s, b, now) <==> Fits(t, b', now)
    ensures Fits(s, b, now) ==> Tick(name, s, b, now).output == Tick(name, t, b', now).output
  {
    SameSatisfiable(s.truths, t.truths, b.needs, now);
    SameSatisfiable(t.truths, s.truths, b.needs, now);
    assert Satisfiable(s.truths, b.needs, now) == Satisfiable(t.truths, b.needs, now);
  }

  lemma TablesStaySameFresh(name: string, s: Tables, t: Tables, b: Batch, b': Batch, now: int)
    requires SameFresh(s, t, now) && Fits(s, b, now) && Fits(t, b', now) && b' == b.(collect := b'.collect)
    ensures SameFresh(Tick(name, s, b, now).tables, Tick(name, t, b', now).tables, now)
  {
    var m := Storable(b.provided + b.external, now);
    CollectedStillThere(s.truths, t.truths, b.collect, b'.collect, m, now);
    CollectedStillThere(t.truths, s.truths, b'.collect, b.collect, m, now);
  }

  lemma CollectedStillThere(s: map<TruthKey, Stored>, t: map<TruthKey, Stored>, c: bool, d: bool,
                            m: map<TruthKey, Stored>, now: int)
    requires forall k :: k in s && IsValid(s[k], now) ==> k in t && t[k] == s[k]
    ensures var s', t' := Collected(s, c, now) + m, Collected(t, d, now) + m;
            forall k :: k in s' && IsValid(s'[k], now) ==> k in t' && t'[k] == s'[k]
  {
  }

  // Two solvers that see the same events, but collect at different ticks, send the same
  // answers, push the same truths and start the same resolutions.
  lemma {:induction false} CollectionIsInvisible(name: string, s: Tables, t: Tables,
                                                 es: seq<Event>, fs: seq<Event>, since: int)
    requires SameFresh(s, t, since) && SameButCollection(es, fs) && Monotone(es, since)
    ensures Outputs(name, s, es) == Outputs(name, t, fs)
    decreases |es|
  {
    if es != [] {
      var e, f := es[0], fs[0];
      SameFreshAfterTick(name, s, t, e, f, since);
      if Fits(s, e.batch, e.now) {
        CollectionIsInvisible(name, TickOf(name, s, e).tables, TickOf(name, t, f).tables, es[1..], fs[1..], e.now);
      }
    }
  }

  lemma SameFreshAfterTick(name: string, s: Tables, t: Tables, e: Event, f: Event, since: int)
    requires SameFresh(s, t, since) && since <= e.now
    requires f == e.(batch := e.batch.(collect := f.batch.collect))
    ensures var o, o' := TickOf(name, s, e), TickOf(name, t, f);
            && (o.Ticked? <==> Fits(s, e.batch, e.now)) && (o'.Ticked? <==> o.Ticked?)
            && (o.Ticked? ==> o.output == o'.output && SameFresh(o.tables, o'.tables, e.now))
  {
    StillSameFresh(s, t, since, e.now);
    SameOutput(name, s, t, e.batch, f.batch, e.now);
    if Fits(s, e.batch, e.now) {
      TablesStaySameFresh(name, s, t, e.batch, f.batch, e.now);
    }
  }

  lemma StillSameFresh(s: Tables, t: Tables, now: int, later: int)
    requires SameFresh(s, t, now) && now <= later
    ensures SameFresh(s, t, later)
  {
  }

  // ---------------------------------------------------------------------
  // No lost wake-up

  // The asker neither unsubscribes nor asks again under the same key.
  ghost predicate LeavesAlone(b: Batch, k: SubKey) {
    k.who !in b.leavers && forall n :: n in b.needs + b.observes ==> SubKeyOf(n) != k
  }

  lemma {:induction false} SubscriptionLasts(name: string, t: Tables, events: seq<Event>, k: SubKey)
    requires k in t.subscribers && forall e :: e in events ==> LeavesAlone(e.batch, k)
    ensures var t' := After(name, t, events); t'.Some? ==> k in t'.value.subscribers
                                                           && t'.value.subscribers[k] == t.subscribers[k]
    decreases |events|
  {
    if events != [] && Fits(t, events[0].batch, events[0].now) {
      SubscriptionLasts(name, Tick(name, t, events[0].batch, events[0].now).tables, events[1..], k);
    }
  }

  // A need or observation made in one tick hears every matching truth of every later
  // tick: one for all users or for its own, or one for its resource at any domain.
  lemma NoLostWakeUp(name: string, t: Tables, first: Event, between: seq<Event>, last: Event, n: Need, p: Provided)
    requires n in first.batch.needs + first.batch.observes && Fits(t, first.batch, first.now)
    requires forall e :: e in between ==> LeavesAlone(e.batch, SubKeyOf(n))
    requires p in last.batch.provided + last.batch.external
    requires Concerns(n.what, n.userInfo, n.signpost, p)
    ensures var t' := After(name, Tick(name, t, first.batch, first.now).tables, between);
            t'.Some? && Fits(t'.value, last.batch, last.now) ==>
              MessageFor(n.who, p) in Tick(name, t'.value, last.batch, last.now).output.pushes
  {
    var t1 := Tick(name, t, first.batch, first.now).tables;
    SubscriptionLasts(name, t1, between, SubKeyOf(n));
    var t' := After(name, t1, between);
    if t'.Some? {
      var s := t'.value.subscribers[SubKeyOf(n)];
      assert Concerns(SubKeyOf(n).what, s.userInfo, SubKeyOf(n).signpost, p);
      assert MessageFor(SubKeyOf(n).who, p) in Pushes(t'.value.subscribers, last.batch.provided + last.batch.external);
    }
  }

  // In the very tick in which it asks, a newcomer hears of no new truth, not even of one
  // it asked for.
  lemma SameTickIsMissed(name: string, t: Tables, b: Batch, now: int, who: string, n: Need)
    requires Fits(t, b, now) && (forall k :: k in t.subscribers ==> k.who != who) && n in b.needs && n.who == who
    ensures forall m :: m in Tick(name, t, b, now).output.pushes ==> m.to != who
    ensures (forall k :: k in t.truths ==> k.what != n.what) ==>
              && (forall m :: m in Tick(name, t, b, now).output.answers ==> m.key.what != n.what)
              && n in Tick(name, t, b, now).output.decisions
  {
    ServedInTick(name, t, b, now, n);
    forall m | m in Tick(name, t, b, now).output.answers ensures m.key in t.truths {
      AnswerIsAsked(t.truths, b.needs, now, m);
    }
  }

  // ---------------------------------------------------------------------
  // exportable_truths

  // Reading the expiry of an entry that is not cacheable raises an error in the code.
  function Exports(truths: map<TruthKey, Stored>, now: int): Option<set<Provided>> {
    if exists k :: k in truths && truths[k].ttlState.NonCacheable? then None
    else Some(set k | k in truths && truths[k].ttlState.Expires? :: ExportedRow(k, truths[k], now))
  }

  function ExportedRow(k: TruthKey, s: Stored, now: int): Provided
    requires s.ttlState.Expires?
  {
    Provided(k.what, k.provider, k.userInfo, k.signpost, s.truth, s.ttlState.expires - now)
  }

  // Only truths with time to live are stored.
  ghost predicate Cacheable(t: Tables) {
    forall k :: k in t.truths ==> t.truths[k].ttlState.Expires? && t.truths[k].ttlState.ttl > 0
  }

  lemma {:induction false} RunStaysCacheable(name: string, t: Tables, events: seq<Event>)
    requires Cacheable(t)
    ensures var t' := After(name, t, events);
            t'.Some? ==> Cacheable(t'.value) && forall now :: Exports(t'.value.truths, now).Some?
    decreases |events|
  {
    if events != [] && Fits(t, events[0].batch, events[0].now) {
      TickStaysCacheable(name, t, events[0].batch, events[0].now);
      RunStaysCacheable(name, Tick(name, t, events[0].batch, events[0].now).tables, events[1..]);
    }
  }

  lemma TickStaysCacheable(name: string, t: Tables, b: Batch, now: int)
    requires Cacheable(t) && Fits(t, b, now)
    ensures Cacheable(Tick(name, t, b, now).tables)
  {
    var t' := Tick(name, t, b, now).tables;
    forall k | k in t'.truths ensures t'.truths[k].ttlState.Expires? && t'.truths[k].ttlState.ttl > 0 {
      TruthsAfter(name, t, b, now, k);
    }
  }

  // The exported rows that still have time to live
  ghost function LiveExports(truths: map<TruthKey, Stored>, now: int): set<Provided> {
    var rows := Exports(truths, now);
    if rows.None? then {} else set p | p in rows.value && p.ttl > 0
  }

  lemma {:induction false} RunsStaySameFresh(name: string, s: Tables, t: Tables, es: seq<Event>, fs: seq<Event>,
                                             since: int, now: int)
    requires SameFresh(s, t, since) && SameButCollection(es, fs) && Monotone(es, since) && since <= now
    requires forall e :: e in es ==> e.now <= now
    ensures var s', t' := After(name, s, es), After(name, t, fs);
            (s'.Some? <==> t'.Some?) && (s'.Some? ==> SameFresh(s'.value, t'.value, now))
    decreases |es|
  {
    if es == [] {
      StillSameFresh(s, t, since, now);
    } else {
      var e, f := es[0], fs[0];
      SameFreshAfterTick(name, s, t, e, f, since);
      if Fits(s, e.batch, e.now) {
        RunsStaySameFresh(name, TickOf(name, s, e).tables, TickOf(name, t, f).tables, es[1..], fs[1..], e.now, now);
      }
    }
  }

  lemma SameLiveExports(s: Tables, t: Tables, now: int)
    requires SameFresh(s, t, now) && Cacheable(s) && Cacheable(t)
    ensures LiveExports(s.truths, now) <= LiveExports(t.truths, now)
  {
    forall p | p in LiveExports(s.truths, now) ensures p in LiveExports(t.truths, now) {
      var k :| k in s.truths && p == ExportedRow(k, s.truths[k], now);
      assert IsValid(s.truths[k], now);
      assert ExportedRow(k, t.truths[k], now) in Exports(t.truths, now).value;
    }
  }

  // What two solvers that differ in collection only export differs in rows whose time is
  // over, and in nothing else.
  lemma CollectionShowsInExpiredOnly(name: string, s: Tables, t: Tables, es: seq<Event>, fs: seq<Event>,
                                     since: int, now: int)
    requires SameFresh(s, t, since) && Cacheable(s) && Cacheable(t)
    requires SameButCollection(es, fs) && Monotone(es, since) && since <= now
    requires forall e :: e in es ==> e.now <= now
    ensures var s', t' := After(name, s, es), After(name, t, fs);
            && (s'.Some? <==> t'.Some?)
            && (s'.Some? ==> LiveExports(s'.value.truths, now) == LiveExports(t'.value.truths, now))
  {
    RunsStaySameFresh(name, s, t, es, fs, since, now);
    RunStaysCacheable(name, s, es);
    RunStaysCacheable(name, t, fs);
    var s', t' := After(name, s, es), After(name, t, fs);
    if s'.Some? {
      SameLiveExports(s'.value, t'.value, now);
      SameLiveExports(t'.value, s'.value, now);
    }
  }

  // add_initial_truths
  function InitialTruths(name: string, domain: string): set<Provided> {
    {Provided("web_auth_url@" + name, "global_truth", GLOBAL, name, "http://localhost:8080/requests", 1_000_000),
     Provided("local_signpost_domain@" + name, "global_truth", GLOBAL, name, domain, 1_000_000)}
  }

  function InitialTables(name: string, domain: string, now: int): Tables {
    InitialKeysDiffer(name, domain);
    Tables(Storable(InitialTruths(name, domain), now), map[])
  }

  lemma InitialKeysDiffer(name: string, domain: string)
    ensures var ps := InitialTruths(name, domain);
            forall p, q :: p in ps && q in ps && KeyOf(p) == KeyOf(q) ==> p == q
  {
    assert ("web_auth_url@" + name)[0] != ("local_signpost_domain@" + name)[0];
  }

  // ---------------------------------------------------------------------
  // The class

  class TruthSolver {
    const name: string
    var truths: map<TruthKey, Stored>
    var subscribers: map<SubKey, Subscriber>

    function State(): Tables
      reads this
    {
      Tables(truths, subscribers)
    }

    constructor (name: string, domain: string, now: int)
      ensures this.name == name && State() == InitialTables(name, domain, now)
    {
      this.name := name;
      var initial := InitialTables(name, domain, now);
      truths := initial.truths;
      subscribers := initial.subscribers;
    }

    // One tick of the rules garbage_collection, remove_leavers and tactic_comms
    method RunTick(b: Batch, now: int) returns (o: Option<Output>)
      modifies this
      ensures match Tick(name, old(State()), b, now)
              case KeyConflict => o == None && State() == old(State())
              case Ticked(t, output) => o == Some(output) && State() == t
    {
      if !KeysAgree(b) {
        return None;
      }
      var satisfiable := Satisfiable(truths, b.needs, now);
      if !RowsAgree(satisfiable) {
        return None;
      }
      var answers := set s | s in satisfiable :: s.message;
      var decisions := map n | n in b.needs && !LooksSatisfied(satisfiable, n) :: Decide(name, n);
      var provided := b.provided + b.external;
      var pushes := Pushes(subscribers, provided);
      truths := Collected(truths, b.collect, now);
      subscribers := Staying(subscribers, b.leavers);
      truths := truths + Storable(provided, now);
      subscribers := subscribers + Joining(b.needs + b.observes);
      o := Some(Output(answers, pushes, decisions, b.provided));
    }
  }
}
