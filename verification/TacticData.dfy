// What a helper holds after a message: which truth lies under which key, and which of the
// initial facts are still to come.
module TacticData {
  import opened Options
  import Names
  import opened TacticHelper

  // A truth is filed under its short form as a symbol and as a string, and as a string
  // under its full name.
  predicate Writes(t: Truth, k: Key) {
    match k
    case Sym(x) => ShortForm(t.what) == x
    case Str(n) => ShortForm(t.what) == n || t.what == n
  }

  // The last truth filed under the key
  function LastFiled(truths: seq<Truth>, k: Key): Option<Truth> {
    if truths == [] then None
    else if Writes(truths[|truths| - 1], k) then Some(truths[|truths| - 1])
    else LastFiled(truths[..|truths| - 1], k)
  }

  lemma FiledHolds(data: map<Key, Datum>, t: Truth, k: Key)
    ensures var filed := Filed(data, t);
            if Writes(t, k) then k in filed && filed[k].what == t.what && filed[k].value == t.value
            else (k in filed <==> k in data) && (k in data ==> filed[k] == data[k])
  {
  }

  // After any sequence of truths each key holds the name and the value of the last truth
  // that is filed under it, or what it held before if there is none.
  lemma {:induction false} HoldsTheLast(s: State, truths: seq<Truth>, s': State, k: Key)
    requires DealtWith(s, truths) == Some(s')
    ensures match LastFiled(truths, k)
            case None => (k in s'.data <==> k in s.data) && (k in s.data ==> s'.data[k] == s.data[k])
            case Some(t) => k in s'.data && s'.data[k].what == t.what && s'.data[k].value == t.value
    decreases |truths|
  {
    if truths != [] {
      var n := |truths| - 1;
      var before := DealtWith(s, truths[..n]).value;
      HoldsTheLast(s, truths[..n], before, k);
      FiledHolds(before.data, truths[n], k);
    }
  }

  // ---------------------------------------------------------------------
  // Which facts are awaited

  // The last word on whether the tactic is a daemon
  function Daemon(truths: seq<Truth>): Option<bool> {
    if truths == [] then None
    else if truths[|truths| - 1].what == "is_daemon" then Some(truths[|truths| - 1].value == True)
    else Daemon(truths[..|truths| - 1])
  }

  function Awaited(daemon: bool): set<string> {
    if daemon then {"is_daemon", "node_name"}
    else {"destination", "port", "domain", "resource", "user", "is_daemon", "what", "node_name"}
  }

  lemma AwaitedArePending(daemon: bool)
    ensures Awaited(daemon) == if daemon then DAEMON_PENDING else TACTIC_PENDING
    ensures Awaited(daemon) <= TACTIC_PENDING
  {
  }

  // Filing a truth takes its short form off the list.
  lemma FiledIsNotAwaited(s: State, t: Truth, s': State, names: set<string>)
    requires Stored(s, t) == Some(s') && Told(s, t).pending == Some(names - Present(s.data))
    ensures s'.pending == Some(names - Present(s'.data))
  {
    FiledPresent(s.data, t);
    LessOne(names, Present(s.data), ShortForm(t.what));
  }

  lemma LessOne(names: set<string>, present: set<string>, x: string)
    ensures names - present - {x} == names - (present + {x})
  {
  }

  lemma StoredAwaits(s: State, t: Truth, s': State, known: Option<bool>, now: Option<bool>)
    requires Coherent(s) && Stored(s, t) == Some(s')
    requires s.pending == if known.Some? then Some(Awaited(known.value) - Present(s.data)) else None
    requires now == if t.what == IS_DAEMON then Some(t.value == True) else known
    ensures Coherent(s') && now.Some? && s'.pending == Some(Awaited(now.value) - Present(s'.data))
  {
    StoredRefinesIff(s, t);
    ToldAwaits(s, t, known, now);
    FiledIsNotAwaited(s, t, s', Awaited(now.value));
  }

  lemma ToldAwaits(s: State, t: Truth, known: Option<bool>, now: Option<bool>)
    requires Coherent(s) && Told(s, t).pending.Some?
    requires s.pending == if known.Some? then Some(Awaited(known.value) - Present(s.data)) else None
    requires now == if t.what == IS_DAEMON then Some(t.value == True) else known
    ensures now.Some? && Told(s, t).pending == Some(Awaited(now.value) - Present(s.data))
  {
    ToldRefines(s, t);
    AwaitedArePending(t.value == True);
  }

  // From a new helper: after any sequence of truths, what is awaited are the facts a tactic
  // of its kind is started with less the truths filed so far.
  lemma {:induction false} AwaitsTheRest(s: State, truths: seq<Truth>, s': State)
    requires s.data == map[] && s.pending == None && Coherent(s) && DealtWith(s, truths) == Some(s')
    ensures Coherent(s') && (truths != [] ==> Daemon(truths).Some?)
    ensures s'.pending == if Daemon(truths).Some? then Some(Awaited(Daemon(truths).value) - Present(s'.data)) else None
    decreases |truths|
  {
    if truths != [] {
      var n := |truths| - 1;
      var before := DealtWith(s, truths[..n]).value;
      AwaitsTheRest(s, truths[..n], before);
      StoredAwaits(before, truths[n], s', Daemon(truths[..n]), Daemon(truths));
    }
  }

  // ---------------------------------------------------------------------
  // Short forms

  // resource@domain and resource@domain:port are filed under resource,
  lemma NamesAreShortened(resource: string, domain: string, port: Option<nat>)
    requires Names.All(resource, Names.IsGraph) && Names.All(domain, Names.IsDomainChar)
    ensures ShortForm(resource + "@" + Names.Destination(domain, port)) == resource
  {
    Names.ParsePrinted(resource, domain, port);
  }

  // and what has no '@' under its own name.
  lemma PlainNamesStay(n: string)
    requires forall i :: 0 <= i < |n| ==> n[i] != '@'
    ensures ShortForm(n) == n
  {
    PlainName(n);
  }
}
