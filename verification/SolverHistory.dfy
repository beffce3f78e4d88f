// What a solver has been told decides what it says: its answers, pushes, resolutions and
// stops, in terms of the batches of its earlier ticks.
module SolverHistory {
  import opened Options
  import Names
  import opened Solver

  const EMPTY := Tables(map[], map[])

  function ProvidedIn(e: Event): set<Provided> { e.batch.provided + e.batch.external }

  function AskedIn(e: Event): set<Need> { e.batch.needs + e.batch.observes }

  // ---------------------------------------------------------------------
  // Subscriptions

  // The need or observation n was made in the j-th tick, and its asker has neither left
  // nor asked again under the same key in a later one.
  ghost predicate HeldSince(es: seq<Event>, j: nat, n: Need) {
    && j < |es| && n in AskedIn(es[j])
    && forall i :: j < i < |es| ==> LeavesAlone(es[i].batch, SubKey(n.what, n.who, n.signpost))
  }

  ghost predicate Subscribes(n: Need, k: SubKey, s: Subscriber) {
    k == SubKey(n.what, n.who, n.signpost) && s == Subscriber(n.userInfo, n.whoName)
  }

  ghost predicate IsHeld(es: seq<Event>, k: SubKey, s: Subscriber) {
    exists j: nat, n :: HeldSince(es, j, n) && Subscribes(n, k, s)
  }

  ghost predicate JustAsked(e: Event, k: SubKey, s: Subscriber) { exists n :: n in AskedIn(e) && Subscribes(n, k, s) }

  lemma HeldMore(es: seq<Event>, before: seq<Event>, e: Event, j: nat, n: Need)
    requires es == before + [e]
    ensures HeldSince(es, j, n) <==>
              if j == |before| then n in AskedIn(e)
              else HeldSince(before, j, n) && LeavesAlone(e.batch, SubKeyOf(n))
  {
    assert forall i :: 0 <= i < |before| ==> es[i] == before[i];
    assert es[|before|] == e;
  }

  lemma HeldSplits(es: seq<Event>, before: seq<Event>, e: Event, k: SubKey, s: Subscriber)
    requires es == before + [e]
    ensures IsHeld(es, k, s) <==> JustAsked(e, k, s) || (IsHeld(before, k, s) && LeavesAlone(e.batch, k))
  {
    if IsHeld(es, k, s) {
      var j: nat, n :| HeldSince(es, j, n) && Subscribes(n, k, s);
      HeldMore(es, before, e, j, n);
    }
    if JustAsked(e, k, s) {
      var n :| n in AskedIn(e) && Subscribes(n, k, s);
      HeldMore(es, before, e, |before|, n);
    }
    if IsHeld(before, k, s) && LeavesAlone(e.batch, k) {
      var j: nat, n :| HeldSince(before, j, n) && Subscribes(n, k, s);
      HeldMore(es, before, e, j, n);
    }
  }

  // One tick: a subscriber has just asked or was there and has been left alone.
  ghost predicate SubscribersChange(before: map<SubKey, Subscriber>, e: Event, after: map<SubKey, Subscriber>) {
    forall k, s :: k in after && after[k] == s <==>
      JustAsked(e, k, s) || (k in before && before[k] == s && LeavesAlone(e.batch, k))
  }

  lemma SubscribersInTick(name: string, t: Tables, e: Event)
    requires Fits(t, e.batch, e.now)
    ensures SubscribersChange(t.subscribers, e, TickOf(name, t, e).tables.subscribers)
  {
    var after := TickOf(name, t, e).tables.subscribers;
    forall k, s
      ensures k in after && after[k] == s <==>
              JustAsked(e, k, s) || (k in t.subscribers && t.subscribers[k] == s && LeavesAlone(e.batch, k))
    {
      JoiningIff(e, k, s);
    }
  }

  lemma JoiningIff(e: Event, k: SubKey, s: Subscriber)
    requires KeysAgree(e.batch)
    ensures var joining := Joining(e.batch.needs + e.batch.observes);
            && (k in joining && joining[k] == s <==> JustAsked(e, k, s))
            && (k in joining <==> exists n :: n in AskedIn(e) && SubKeyOf(n) == k)
  {
    var joining := Joining(e.batch.needs + e.batch.observes);
    if k in joining {
      var n :| n in e.batch.needs + e.batch.observes && SubKeyOf(n) == k;
      assert n in AskedIn(e);
      assert joining[SubKeyOf(n)] == Subscriber(n.userInfo, n.whoName);
      assert Subscribes(n, k, joining[k]);
    }
  }

  // ---------------------------------------------------------------------
  // Truths

  // Something is stored under this key.
  ghost predicate Replaces(e: Event, k: TruthKey) {
    exists q :: q in ProvidedIn(e) && k == TruthKey(q.what, q.provider, q.userInfo, q.signpost) && q.ttl > 0
  }

  // p was provided in the j-th tick with a time to live that has not run out, and nothing
  // has been stored in its place since.
  ghost predicate LiveSince(es: seq<Event>, j: nat, p: Provided, now: int) {
    && j < |es| && p in ProvidedIn(es[j]) && p.ttl > 0 && now < es[j].now + p.ttl
    && forall i :: j < i < |es| ==> !Replaces(es[i], TruthKey(p.what, p.provider, p.userInfo, p.signpost))
  }

  // The row that a truth provided at `at` is stored in
  ghost predicate StoredAs(p: Provided, at: int, k: TruthKey, s: Stored) {
    k == TruthKey(p.what, p.provider, p.userInfo, p.signpost) && s == Stored(p.truth, Expires(p.ttl, at + p.ttl))
  }

  ghost predicate IsLive(es: seq<Event>, k: TruthKey, s: Stored, now: int) {
    exists j: nat, p :: LiveSince(es, j, p, now) && StoredAs(p, es[j].now, k, s)
  }

  ghost predicate JustStored(e: Event, k: TruthKey, s: Stored) {
    exists p :: p in ProvidedIn(e) && p.ttl > 0 && StoredAs(p, e.now, k, s)
  }

  ghost predicate NoneLater(es: seq<Event>, now: int) { forall e :: e in es ==> e.now <= now }

  lemma LiveMore(es: seq<Event>, before: seq<Event>, e: Event, j: nat, p: Provided, now: int)
    requires es == before + [e]
    ensures LiveSince(es, j, p, now) <==>
              if j == |before| then p in ProvidedIn(e) && p.ttl > 0 && now < e.now + p.ttl
              else LiveSince(before, j, p, now) && !Replaces(e, KeyOf(p))
  {
    assert forall i :: 0 <= i < |before| ==> es[i] == before[i];
    assert es[|before|] == e;
  }

  lemma LiveSplits(es: seq<Event>, before: seq<Event>, e: Event, k: TruthKey, s: Stored, now: int)
    requires es == before + [e] && IsValid(s, now)
    ensures IsLive(es, k, s, now) <==> JustStored(e, k, s) || (IsLive(before, k, s, now) && !Replaces(e, k))
  {
    if IsLive(es, k, s, now) {
      var j: nat, p :| LiveSince(es, j, p, now) && StoredAs(p, es[j].now, k, s);
      LiveMore(es, before, e, j, p, now);
    }
    if JustStored(e, k, s) {
      var p :| p in ProvidedIn(e) && p.ttl > 0 && StoredAs(p, e.now, k, s);
      LiveMore(es, before, e, |before|, p, now);
    }
    if IsLive(before, k, s, now) && !Replaces(e, k) {
      var j: nat, p :| LiveSince(before, j, p, now) && StoredAs(p, before[j].now, k, s);
      LiveMore(es, before, e, j, p, now);
      assert es[j] == before[j];
    }
  }

  // One tick: a truth still valid later has just been provided, or was there and has not
  // been replaced.
  ghost predicate TruthsChange(before: map<TruthKey, Stored>, e: Event, after: map<TruthKey, Stored>) {
    forall k, s, now :: e.now <= now && IsValid(s, now) ==>
      (k in after && after[k] == s <==> JustStored(e, k, s) || (k in before && before[k] == s && !Replaces(e, k)))
  }

  // What a tick leaves in the table: what it has stored, and what was there and has been
  // neither replaced nor, if garbage is collected, found to be over.
  lemma StoredInTickIff(name: string, t: Tables, e: Event, k: TruthKey, s: Stored)
    requires Fits(t, e.batch, e.now)
    ensures var after := TickOf(name, t, e).tables.truths;
            k in after && after[k] == s <==>
              || JustStored(e, k, s)
              || (k in t.truths && t.truths[k] == s && !Replaces(e, k)
                  && (e.batch.collect ==> s.ttlState.Expires? && e.now < s.ttlState.expires))
  {
    StorableIff(e, k, s);
  }

  lemma TruthsInTick(name: string, t: Tables, e: Event)
    requires Fits(t, e.batch, e.now)
    ensures TruthsChange(t.truths, e, TickOf(name, t, e).tables.truths)
  {
    var after := TickOf(name, t, e).tables.truths;
    forall k, s, now | e.now <= now && IsValid(s, now)
      ensures k in after && after[k] == s <==>
              JustStored(e, k, s) || (k in t.truths && t.truths[k] == s && !Replaces(e, k))
    {
      StoredInTickIff(name, t, e, k, s);
    }
  }

  lemma StorableIff(e: Event, k: TruthKey, s: Stored)
    requires KeysAgree(e.batch)
    ensures var storable := Storable(e.batch.provided + e.batch.external, e.now);
            && (k in storable && storable[k] == s <==> JustStored(e, k, s))
            && (k in storable <==> Replaces(e, k))
  {
    var storable := Storable(e.batch.provided + e.batch.external, e.now);
    if k in storable {
      var p :| p in e.batch.provided + e.batch.external && KeyOf(p) == k && p.ttl > 0;
      assert p in ProvidedIn(e);
      assert storable[KeyOf(p)] == Stored(p.truth, CreateTtlState(p.ttl, e.now));
      assert StoredAs(p, e.now, k, storable[k]);
    }
  }

  // ---------------------------------------------------------------------
  // Runs

  // The tables change as the batches say, from the first to the last.
  ghost predicate Leads(t: Tables, es: seq<Event>, t'': Tables)
    decreases |es|
  {
    if es == [] then t'' == t
    else exists t' :: Leads(t, Init(es), t') && Changes(t', Last(es), t'')
  }

  function Init(es: seq<Event>): (r: seq<Event>)
    requires es != []
    ensures |r| < |es|
  {
    es[..|es| - 1]
  }

  function Last(es: seq<Event>): Event
    requires es != []
  {
    es[|es| - 1]
  }

  ghost predicate Changes(t: Tables, e: Event, t': Tables) {
    SubscribersChange(t.subscribers, e, t'.subscribers) && TruthsChange(t.truths, e, t'.truths)
  }

  lemma {:induction false} RunLeads(name: string, t: Tables, es: seq<Event>, t'': Tables)
    requires After(name, t, es) == Some(t'')
    ensures Leads(t, es, t'')
    decreases |es|
  {
    if es != [] {
      var t' := AfterFirst(name, t, es, t'');
      RunLeads(name, t', es[1..], t'');
      LeadsInFront(t, es[0], t', es[1..], es, t'');
    }
  }

  // The tables after the first tick of a run that does not stop
  lemma AfterFirst(name: string, t: Tables, es: seq<Event>, t'': Tables) returns (t': Tables)
    requires es != [] && After(name, t, es) == Some(t'')
    ensures After(name, t', es[1..]) == Some(t'') && Changes(t, es[0], t')
  {
    t' := TickOf(name, t, es[0]).tables;
    SubscribersInTick(name, t, es[0]);
    TruthsInTick(name, t, es[0]);
  }

  lemma {:induction false} LeadsInFront(t: Tables, e: Event, t': Tables, rest: seq<Event>, es: seq<Event>, t'': Tables)
    requires Changes(t, e, t') && Leads(t', rest, t'') && es == [e] + rest
    ensures Leads(t, es, t'')
    decreases |rest|
  {
    if rest == [] {
      assert Init(es) == [] && Last(es) == e && Leads(t, Init(es), t);
    } else {
      var m :| Leads(t', Init(rest), m) && Changes(m, Last(rest), t'');
      assert Init(es) == [e] + Init(rest) && Last(es) == Last(rest);
      LeadsInFront(t, e, t', Init(rest), Init(es), m);
    }
  }

  lemma {:induction false} LedSubscribersIff(t: Tables, es: seq<Event>, t'': Tables, k: SubKey, s: Subscriber)
    requires t.subscribers == map[] && Leads(t, es, t'')
    ensures k in t''.subscribers && t''.subscribers[k] == s <==> IsHeld(es, k, s)
    decreases |es|
  {
    if es != [] {
      var before, e := Init(es), Last(es);
      assert es == before + [e];
      var t' :| Leads(t, before, t') && Changes(t', e, t'');
      LedSubscribersIff(t, before, t', k, s);
      OneMoreHeld(es, before, e, t'.subscribers, t''.subscribers, k, s);
    }
  }

  // The subscribers after a run are those who asked and have been left alone since.
  lemma SubscribersIff(name: string, t: Tables, es: seq<Event>, t'': Tables, k: SubKey, s: Subscriber)
    requires t.subscribers == map[] && After(name, t, es) == Some(t'')
    ensures k in t''.subscribers && t''.subscribers[k] == s <==> IsHeld(es, k, s)
  {
    RunLeads(name, t, es, t'');
    LedSubscribersIff(t, es, t'', k, s);
  }

  lemma OneMoreHeld(es: seq<Event>, before: seq<Event>, e: Event, was: map<SubKey, Subscriber>,
                    after: map<SubKey, Subscriber>, k: SubKey, s: Subscriber)
    requires es == before + [e] && SubscribersChange(was, e, after)
    requires k in was && was[k] == s <==> IsHeld(before, k, s)
    ensures k in after && after[k] == s <==> IsHeld(es, k, s)
  {
    HeldSplits(es, before, e, k, s);
  }

  lemma {:induction false} LedTruthsIff(t: Tables, es: seq<Event>, t'': Tables, k: TruthKey, s: Stored, now: int)
    requires t.truths == map[] && Leads(t, es, t'') && NoneLater(es, now) && IsValid(s, now)
    ensures k in t''.truths && t''.truths[k] == s <==> IsLive(es, k, s, now)
    decreases |es|
  {
    if es != [] {
      var before, e := Init(es), Last(es);
      assert es == before + [e];
      var t' :| Leads(t, before, t') && Changes(t', e, t'');
      NoneLaterBefore(es, before, e, now);
      LedTruthsIff(t, before, t', k, s, now);
      OneMoreLive(es, before, e, t'.truths, t''.truths, k, s, now);
    }
  }

  // The valid truths after a run are those provided in it that have not run out and have
  // not been replaced.
  lemma TruthsIff(name: string, t: Tables, es: seq<Event>, t'': Tables, k: TruthKey, s: Stored, now: int)
    requires t.truths == map[] && After(name, t, es) == Some(t'') && NoneLater(es, now) && IsValid(s, now)
    ensures k in t''.truths && t''.truths[k] == s <==> IsLive(es, k, s, now)
  {
    RunLeads(name, t, es, t'');
    LedTruthsIff(t, es, t'', k, s, now);
  }

  lemma NoneLaterBefore(es: seq<Event>, before: seq<Event>, e: Event, now: int)
    requires es == before + [e] && NoneLater(es, now)
    ensures NoneLater(before, now) && e.now <= now
  {
  }

  lemma OneMoreLive(es: seq<Event>, before: seq<Event>, e: Event, was: map<TruthKey, Stored>,
                    after: map<TruthKey, Stored>, k: TruthKey, s: Stored, now: int)
    requires es == before + [e] && TruthsChange(was, e, after) && e.now <= now && IsValid(s, now)
    requires k in was && was[k] == s <==> IsLive(before, k, s, now)
    ensures k in after && after[k] == s <==> IsLive(es, k, s, now)
  {
    LiveSplits(es, before, e, k, s, now);
  }

  ghost predicate TruthsAre(truths: map<TruthKey, Stored>, es: seq<Event>, now: int) {
    forall k, s :: IsValid(s, now) ==> (k in truths && truths[k] == s <==> IsLive(es, k, s, now))
  }

  lemma TruthsAfterRun(name: string, t: Tables, es: seq<Event>, t': Tables, now: int)
    requires t.truths == map[] && After(name, t, es) == Some(t') && NoneLater(es, now)
    ensures TruthsAre(t'.truths, es, now)
  {
    forall k, s | IsValid(s, now) ensures k in t'.truths && t'.truths[k] == s <==> IsLive(es, k, s, now) {
      TruthsIff(name, t, es, t', k, s, now);
    }
  }

  ghost predicate SubscribersAre(subscribers: map<SubKey, Subscriber>, es: seq<Event>) {
    forall k, s :: k in subscribers && subscribers[k] == s <==> IsHeld(es, k, s)
  }

  lemma SubscribersAfterRun(name: string, t: Tables, es: seq<Event>, t': Tables)
    requires t.subscribers == map[] && After(name, t, es) == Some(t')
    ensures SubscribersAre(t'.subscribers, es)
  {
    forall k, s ensures k in t'.subscribers && t'.subscribers[k] == s <==> IsHeld(es, k, s) {
      SubscribersIff(name, t, es, t', k, s);
    }
  }

  // ---------------------------------------------------------------------
  // Pushes

  // For a need or observation of a strictly earlier tick that has been left alone since, a
  // truth provided now that concerns it
  ghost predicate IsDue(es: seq<Event>, provided: set<Provided>, m: Message) {
    exists j: nat, n, p :: HeldSince(es, j, n) && p in provided && Pushed(n, p, m)
  }

  // The very truth asked for, for all users or this one; or one of the resource asked for at
  // any domain, from the signpost asked for, whoever it is for
  ghost predicate Pushed(n: Need, p: Provided, m: Message) {
    && (|| (p.what == n.what && p.userInfo in {"GLOBAL", n.userInfo})
        || (Names.AnyDomain(p.what) == n.what && n.signpost in {"ANY", p.signpost}))
    && m == Message(n.who, TruthKey(p.what, p.provider, p.userInfo, p.signpost), p.truth)
  }

  // After any run, what a tick pushes is exactly what is due.
  lemma PushedIff(name: string, t: Tables, es: seq<Event>, e: Event, m: Message)
    requires t.subscribers == map[] && After(name, t, es).Some?
    requires TickOf(name, After(name, t, es).value, e).Ticked?
    ensures m in TickOf(name, After(name, t, es).value, e).output.pushes <==> IsDue(es, ProvidedIn(e), m)
  {
    var t' := After(name, t, es).value;
    SubscribersAfterRun(name, t, es, t');
    PushesIff(t'.subscribers, es, ProvidedIn(e), m);
  }

  lemma PushesIff(subscribers: map<SubKey, Subscriber>, es: seq<Event>, provided: set<Provided>, m: Message)
    requires SubscribersAre(subscribers, es)
    ensures m in Pushes(subscribers, provided) <==> IsDue(es, provided, m)
  {
    if m in Pushes(subscribers, provided) {
      var k, p :| k in subscribers && p in provided && m == MessageFor(k.who, p)
                  && Concerns(k.what, subscribers[k].userInfo, k.signpost, p);
      assert IsHeld(es, k, subscribers[k]);
      var j: nat, n :| HeldSince(es, j, n) && Subscribes(n, k, subscribers[k]);
      assert Pushed(n, p, m);
    }
    if IsDue(es, provided, m) {
      var j: nat, n, p :| HeldSince(es, j, n) && p in provided && Pushed(n, p, m);
      var k, s := SubKeyOf(n), Subscriber(n.userInfo, n.whoName);
      assert Subscribes(n, k, s);
      assert IsHeld(es, k, s);
      assert Concerns(k.what, subscribers[k].userInfo, k.signpost, p);
    }
  }

  // ---------------------------------------------------------------------
  // Answers, resolutions and stops

  // The truth asked for, for all users or for this one, from the signpost asked for
  ghost predicate Meets(p: Provided, n: Need) {
    p.what == n.what && p.userInfo in {"GLOBAL", n.userInfo} && n.signpost in {"ANY", p.signpost}
  }

  // A truth provided in an earlier tick, not run out and not replaced since, that meets a
  // need of this tick
  ghost predicate IsOwed(es: seq<Event>, needs: set<Need>, now: int, m: Message) {
    exists j: nat, p, n :: n in needs && LiveSince(es, j, p, now) && Meets(p, n) && IsMessage(n.who, p, m)
  }

  ghost predicate IsMessage(who: string, p: Provided, m: Message) {
    m == Message(who, TruthKey(p.what, p.provider, p.userInfo, p.signpost), p.truth)
  }

  ghost predicate IsAnswered(es: seq<Event>, n: Need, now: int) {
    exists j: nat, p :: LiveSince(es, j, p, now) && Meets(p, n)
  }

  // Two truths of one signpost, by different providers or for different users, both alive
  // and both meeting the need
  ghost predicate IsDisputed(es: seq<Event>, n: Need, now: int) {
    exists i: nat, p, j: nat, q :: LiveSince(es, i, p, now) && LiveSince(es, j, q, now) && Meets(p, n) && Meets(q, n)
                                   && (p.provider != q.provider || p.userInfo != q.userInfo)
                                   && p.signpost == q.signpost
  }

  // Two different rows of one key reach a table.
  ghost predicate TwoRows(e: Event) {
    || (exists p, q :: p in ProvidedIn(e) && q in ProvidedIn(e) && p != q && p.what == q.what
                       && p.provider == q.provider && p.userInfo == q.userInfo && p.signpost == q.signpost)
    || (exists m, n :: m in AskedIn(e) && n in AskedIn(e) && m != n && m.what == n.what && m.who == n.who
                       && m.signpost == n.signpost)
  }

  lemma TwoRowsIff(e: Event)
    ensures KeysAgree(e.batch) <==> !TwoRows(e)
  {
  }

  lemma AnswerIsLive(truths: map<TruthKey, Stored>, es: seq<Event>, k: TruthKey, n: Need, now: int)
    returns (j: nat, p: Provided)
    requires TruthsAre(truths, es, now) && k in truths && Answers(k, truths[k], n, now)
    ensures LiveSince(es, j, p, now) && KeyOf(p) == k && p.truth == truths[k].truth && Meets(p, n)
  {
    assert IsLive(es, k, truths[k], now);
    j, p :| LiveSince(es, j, p, now) && StoredAs(p, es[j].now, k, truths[k]);
  }

  lemma LiveAnswers(truths: map<TruthKey, Stored>, es: seq<Event>, j: nat, p: Provided, n: Need, now: int)
    requires TruthsAre(truths, es, now) && LiveSince(es, j, p, now) && Meets(p, n)
    ensures KeyOf(p) in truths && Answers(KeyOf(p), truths[KeyOf(p)], n, now) && truths[KeyOf(p)].truth == p.truth
  {
    var s := Stored(p.truth, Expires(p.ttl, es[j].now + p.ttl));
    assert StoredAs(p, es[j].now, KeyOf(p), s);
    assert IsLive(es, KeyOf(p), s, now);
  }

  // After any run, a tick stops exactly when its batch has two rows with one key or one of
  // its needs is disputed.
  lemma StopsIff(name: string, t: Tables, es: seq<Event>, e: Event)
    requires t.truths == map[] && After(name, t, es).Some? && NoneLater(es, e.now)
    ensures TickOf(name, After(name, t, es).value, e).KeyConflict?
            <==> TwoRows(e) || exists n :: n in e.batch.needs && IsDisputed(es, n, e.now)
  {
    var t' := After(name, t, es).value;
    TruthsAfterRun(name, t, es, t', e.now);
    NeedIsServed(name, t', e.batch, e.now);
    TwoRowsIff(e);
    forall n ensures IsDisputed(es, n, e.now) <==> exists k, l :: Rivals(t'.truths, n, k, l, e.now) {
      DisputedIff(t'.truths, es, n, e.now);
    }
  }

  lemma DisputedIff(truths: map<TruthKey, Stored>, es: seq<Event>, n: Need, now: int)
    requires TruthsAre(truths, es, now)
    ensures IsDisputed(es, n, now) <==> exists k, l :: Rivals(truths, n, k, l, now)
  {
    if k, l :| Rivals(truths, n, k, l, now) {
      var i, p := AnswerIsLive(truths, es, k, n, now);
      var j, q := AnswerIsLive(truths, es, l, n, now);
      assert p.signpost == k.signpost && q.signpost == l.signpost;
    }
    if IsDisputed(es, n, now) {
      var i: nat, p, j: nat, q :| LiveSince(es, i, p, now) && LiveSince(es, j, q, now) && Meets(p, n) && Meets(q, n)
                                  && (p.provider != q.provider || p.userInfo != q.userInfo)
                                  && p.signpost == q.signpost;
      LiveAnswers(truths, es, i, p, n, now);
      LiveAnswers(truths, es, j, q, n, now);
      assert Rivals(truths, n, KeyOf(p), KeyOf(q), now);
    }
  }

  // After any run, what a tick answers is exactly what is owed.
  lemma AnsweredIff(name: string, t: Tables, es: seq<Event>, e: Event, m: Message)
    requires t.truths == map[] && After(name, t, es).Some? && NoneLater(es, e.now)
    requires TickOf(name, After(name, t, es).value, e).Ticked?
    ensures m in TickOf(name, After(name, t, es).value, e).output.answers <==> IsOwed(es, e.batch.needs, e.now, m)
  {
    var t' := After(name, t, es).value;
    TruthsAfterRun(name, t, es, t', e.now);
    if m in TickOf(name, t', e).output.answers {
      AnswerIsAsked(t'.truths, e.batch.needs, e.now, m);
      var n :| n in e.batch.needs && n.who == m.to && Answers(m.key, t'.truths[m.key], n, e.now);
      var j, p := AnswerIsLive(t'.truths, es, m.key, n, e.now);
      assert IsMessage(n.who, p, m);
    }
    if IsOwed(es, e.batch.needs, e.now, m) {
      var j: nat, p, n :| n in e.batch.needs && LiveSince(es, j, p, e.now) && Meets(p, n) && IsMessage(n.who, p, m);
      LiveAnswers(t'.truths, es, j, p, n, e.now);
      AnswerIsSent(t'.truths, e.batch.needs, KeyOf(p), n, e.now);
    }
  }

  // After any run, a tick resolves exactly the needs that nothing alive suits, each once:
  // here if it names this signpost or any, otherwise at the signpost it names.
  lemma ResolvedIff(name: string, t: Tables, es: seq<Event>, e: Event, n: Need)
    requires t.truths == map[] && After(name, t, es).Some? && NoneLater(es, e.now)
    requires TickOf(name, After(name, t, es).value, e).Ticked?
    ensures var decisions := TickOf(name, After(name, t, es).value, e).output.decisions;
            && (n in decisions <==> n in e.batch.needs && !IsAnswered(es, n, e.now))
            && (n in decisions ==> decisions[n] == if n.signpost in {"ANY", name} then Explore(n.what, n.userInfo)
                                                   else RemoteResolve(n.what, n.userInfo, n.signpost))
  {
    var t' := After(name, t, es).value;
    TruthsAfterRun(name, t, es, t', e.now);
    if n in e.batch.needs {
      TestIsExact(t'.truths, e.batch.needs, n, e.now);
      AnsweredNeedIff(t'.truths, es, n, e.now);
    }
  }

  // No answer carries a truth of another user, or of another signpost than the one named.
  lemma AnswersAreMeant(name: string, t: Tables, es: seq<Event>, e: Event, m: Message)
    requires t.truths == map[] && After(name, t, es).Some? && NoneLater(es, e.now)
    requires TickOf(name, After(name, t, es).value, e).Ticked?
    requires m in TickOf(name, After(name, t, es).value, e).output.answers
    ensures exists n :: n in e.batch.needs && n.who == m.to && n.what == m.key.what
                        && m.key.userInfo in {"GLOBAL", n.userInfo} && n.signpost in {"ANY", m.key.signpost}
  {
    AnsweredIff(name, t, es, e, m);
    var j: nat, p, n :| n in e.batch.needs && LiveSince(es, j, p, e.now) && Meets(p, n) && IsMessage(n.who, p, m);
  }

  // What is exported with time to live is exactly what is alive, with the time it has left.
  lemma ExportedIff(name: string, t: Tables, es: seq<Event>, now: int, r: Provided)
    requires t.truths == map[] && After(name, t, es).Some? && NoneLater(es, now)
    ensures var rows := Exports(After(name, t, es).value.truths, now);
            && rows.Some?
            && (r in rows.value && r.ttl > 0 <==>
                  exists j: nat, p :: LiveSince(es, j, p, now) && r == p.(ttl := es[j].now + p.ttl - now))
  {
    var truths := After(name, t, es).value.truths;
    RunStaysCacheable(name, t, es);
    TruthsAfterRun(name, t, es, After(name, t, es).value, now);
    if r in Exports(truths, now).value && r.ttl > 0 {
      var k :| k in truths && truths[k].ttlState.Expires? && r == ExportedRow(k, truths[k], now);
      RowIsLive(truths, es, k, now, r);
    }
    if j: nat, p :| LiveSince(es, j, p, now) && r == p.(ttl := es[j].now + p.ttl - now) {
      LiveIsStored(truths, es, j, p, now);
      assert r == ExportedRow(KeyOf(p), truths[KeyOf(p)], now);
    }
  }

  lemma RowIsLive(truths: map<TruthKey, Stored>, es: seq<Event>, k: TruthKey, now: int, r: Provided)
    requires TruthsAre(truths, es, now) && k in truths && truths[k].ttlState.Expires?
    requires r == ExportedRow(k, truths[k], now) && r.ttl > 0
    ensures exists j: nat, p :: LiveSince(es, j, p, now) && r == p.(ttl := es[j].now + p.ttl - now)
  {
    assert IsValid(truths[k], now);
    assert IsLive(es, k, truths[k], now);
    var j: nat, p :| LiveSince(es, j, p, now) && StoredAs(p, es[j].now, k, truths[k]);
    assert r == p.(ttl := es[j].now + p.ttl - now);
  }

  lemma LiveIsStored(truths: map<TruthKey, Stored>, es: seq<Event>, j: nat, p: Provided, now: int)
    requires TruthsAre(truths, es, now) && LiveSince(es, j, p, now)
    ensures KeyOf(p) in truths && truths[KeyOf(p)] == Stored(p.truth, Expires(p.ttl, es[j].now + p.ttl))
  {
    var s := Stored(p.truth, Expires(p.ttl, es[j].now + p.ttl));
    assert StoredAs(p, es[j].now, KeyOf(p), s);
    assert IsLive(es, KeyOf(p), s, now);
  }

  lemma AnsweredNeedIff(truths: map<TruthKey, Stored>, es: seq<Event>, n: Need, now: int)
    requires TruthsAre(truths, es, now)
    ensures IsAnswered(es, n, now) <==> exists k :: k in truths && Answers(k, truths[k], n, now)
  {
    if k :| k in truths && Answers(k, truths[k], n, now) {
      var j, p := AnswerIsLive(truths, es, k, n, now);
    }
    if IsAnswered(es, n, now) {
      var j: nat, p :| LiveSince(es, j, p, now) && Meets(p, n);
      LiveAnswers(truths, es, j, p, n, now);
    }
  }

  // ---------------------------------------------------------------------
  // Where solvers start, and where two providers bring one to a stop

  function Providing(truths: set<Provided>, now: int): Event { Event(Batch({}, {}, truths, {}, {}, false), now) }

  lemma ProvidingFits(t: Tables, truths: set<Provided>, now: int)
    requires forall p, q :: p in truths && q in truths && KeyOf(p) == KeyOf(q) ==> p == q
    ensures Fits(t, Providing(truths, now).batch, now)
  {
    var b := Providing(truths, now).batch;
    assert b.provided + b.external == truths && b.needs + b.observes == {};
  }

  lemma ProvidingStores(name: string, t: Tables, truths: set<Provided>, now: int)
    requires forall p, q :: p in truths && q in truths && KeyOf(p) == KeyOf(q) ==> p == q
    requires t.truths == map[] && t.subscribers == map[]
    ensures TickOf(name, t, Providing(truths, now)).Ticked?
    ensures TickOf(name, t, Providing(truths, now)).tables == Tables(Storable(truths, now), map[])
  {
    var b := Providing(truths, now).batch;
    ProvidingFits(t, truths, now);
    assert b.provided + b.external == truths && b.needs + b.observes == {};
    assert Collected(t.truths, false, now) == map[] && Staying(t.subscribers, {}) == map[] && Joining({}) == map[];
    assert map[] + Storable(truths, now) == Storable(truths, now);
  }

  // A new solver holds two truths, for everybody, that last a million seconds.
  lemma NewSolverHolds(name: string, domain: string, now: int)
    ensures InitialTables(name, domain, now) ==
            Tables(map[TruthKey("web_auth_url@" + name, "global_truth", "GLOBAL", name) :=
                         Stored("http://localhost:8080/requests", Expires(1_000_000, now + 1_000_000)),
                       TruthKey("local_signpost_domain@" + name, "global_truth", "GLOBAL", name) :=
                         Stored(domain, Expires(1_000_000, now + 1_000_000))],
                   map[])
  {
    var url := "http://localhost:8080/requests";
    var p := Provided("web_auth_url@" + name, "global_truth", GLOBAL, name, url, 1_000_000);
    var q := Provided("local_signpost_domain@" + name, "global_truth", GLOBAL, name, domain, 1_000_000);
    assert p.what[0] != q.what[0];
    InitialKeysDiffer(name, domain);
    TwoStored(p, q, now);
  }

  lemma TwoStored(p: Provided, q: Provided, now: int)
    requires KeyOf(p) != KeyOf(q) && p.ttl > 0 && q.ttl > 0
    ensures Storable({p, q}, now) == map[KeyOf(p) := Stored(p.truth, Expires(p.ttl, now + p.ttl)),
                                         KeyOf(q) := Stored(q.truth, Expires(q.ttl, now + q.ttl))]
  {
    var m := Storable({p, q}, now);
    assert m[KeyOf(p)] == Stored(p.truth, CreateTtlState(p.ttl, now));
    assert m[KeyOf(q)] == Stored(q.truth, CreateTtlState(q.ttl, now));
    assert m.Keys == {KeyOf(p), KeyOf(q)};
  }

  // A new solver holds what an empty one holds that has been given the two initial truths.
  lemma StartsAsProvided(name: string, domain: string, now: int)
    ensures After(name, EMPTY, [Providing(InitialTruths(name, domain), now)]) == Some(InitialTables(name, domain, now))
  {
    InitialKeysDiffer(name, domain);
    ProvidingStores(name, EMPTY, InitialTruths(name, domain), now);
    OneTick(name, EMPTY, Providing(InitialTruths(name, domain), now), InitialTables(name, domain, now));
  }

  lemma OneTick(name: string, t: Tables, e: Event, t': Tables)
    requires TickOf(name, t, e).Ticked? && TickOf(name, t, e).tables == t'
    ensures After(name, t, [e]) == Some(t')
  {
    assert [e][1..] == [];
  }

  lemma ProvidedTwiceFits(name: string, t: Tables, e: Event, f: Event)
    requires e.batch.needs == f.batch.needs == {} && KeysAgree(e.batch) && KeysAgree(f.batch)
    ensures After(name, t, [e, f]).Some?
  {
    var t' := TickOf(name, t, e).tables;
    OneTick(name, t', f, TickOf(name, t', f).tables);
    assert [e, f][1..] == [f];
  }

  // One truth from two providers at one signpost: the first to need it stops the solver.
  lemma TwoProvidersStop(name: string, p: Provided, q: Provided, n: Need, now: int)
    requires p.ttl > 0 && q == p.(provider := q.provider) && q != p && Meets(p, n)
    ensures var t := After(name, EMPTY, [Providing({p}, now), Providing({q}, now)]);
            t.Some? && TickOf(name, t.value, Event(Batch({n}, {}, {}, {}, {}, false), now)).KeyConflict?
  {
    var es := BothLive(p, q, n, now);
    ProvidedTwiceFits(name, EMPTY, es[0], es[1]);
    DisputeStops(name, EMPTY, es, Event(Batch({n}, {}, {}, {}, {}, false), now), n);
  }

  lemma DisputeStops(name: string, t: Tables, es: seq<Event>, e: Event, n: Need)
    requires t.truths == map[] && After(name, t, es).Some? && NoneLater(es, e.now)
    requires n in e.batch.needs && IsDisputed(es, n, e.now)
    ensures TickOf(name, After(name, t, es).value, e).KeyConflict?
  {
    StopsIff(name, t, es, e);
  }

  lemma BothLive(p: Provided, q: Provided, n: Need, now: int) returns (es: seq<Event>)
    requires p.ttl > 0 && q == p.(provider := q.provider) && q != p && Meets(p, n)
    ensures es == [Providing({p}, now), Providing({q}, now)] && NoneLater(es, now) && IsDisputed(es, n, now)
    ensures KeysAgree(es[0].batch) && KeysAgree(es[1].batch)
  {
    es := [Providing({p}, now), Providing({q}, now)];
    assert LiveSince(es, 0, p, now) && LiveSince(es, 1, q, now);
  }
}
