// The scheduler of user blocks in psp/lib/tactic_solver/tactic_helper.rb.
module TacticHelper {
  import Names
  import opened Options

  const NODE_NAME := "node_name"
  const IS_DAEMON := "is_daemon"
  const TACTIC_PENDING := {"destination", "port", "domain", "resource", "user", IS_DAEMON, "what", NODE_NAME}
  const DAEMON_PENDING := {IS_DAEMON, NODE_NAME}

  datatype Value = True | Other(text: string)

  datatype Truth = Truth(what: string, value: Value)

  // Keys of @_data: the same text as a symbol and as a string are two keys.
  datatype Key = Sym(name: string) | Str(name: string)

  datatype Datum = Datum(what: string, value: Value, version: nat)

  // versions is empty until the block has run.
  datatype Todo = Todo(requirements: seq<string>, versions: map<string, nat>)

  // pending is not set before the tactic is told whether it is a daemon.
  datatype State = State(todos: seq<Todo>, data: map<Key, Datum>, pending: Option<set<string>>)

  // ---------------------------------------------------------------------
  // deal_with_input

  // A truth is filed under its resource, or under its whole name if that is not of the
  // form resource@domain:port.
  function ShortForm(what: string): string {
    var m := Names.MagicVariables(what);
    if m.Some? then m.value.resource else what
  }

  function NamesOf(data: map<Key, Datum>): set<string> { set k | k in data :: k.name }

  function Told(s: State, t: Truth): State {
    if t.what != IS_DAEMON then s
    else
      var names := if t.value == True then DAEMON_PENDING else TACTIC_PENDING;
      s.(pending := Some(names - NamesOf(s.data)))
  }

  function Filed(data: map<Key, Datum>, t: Truth): map<Key, Datum> {
    var x := ShortForm(t.what);
    var d := Datum(t.what, t.value, if Str(x) in data then data[Str(x)].version + 1 else 1);
    data[Sym(x) := d][Str(x) := d][Str(t.what) := d]
  }

  // None stands for the error raised when nothing is known about the tactic yet.
  function Stored(s: State, t: Truth): Option<State> {
    var told := Told(s, t);
    if told.pending.None? then None
    else Some(told.(pending := Some(told.pending.value - {ShortForm(t.what)}), data := Filed(s.data, t)))
  }

  function DealtWith(s: State, truths: seq<Truth>): Option<State> {
    if truths == [] then Some(s)
    else
      var s' := DealtWith(s, truths[..|truths| - 1]);
      if s'.None? then None else Stored(s'.value, truths[|truths| - 1])
  }

  // ---------------------------------------------------------------------
  // execute_user_blocks

  predicate Satisfied(t: Todo, data: map<Key, Datum>) {
    forall r :: r in t.requirements ==> Sym(r) in data
  }

  function Inputs(t: Todo): set<string> { (set r | r in t.requirements) + {NODE_NAME} }

  // All the versions the code looks at can be read.
  predicate Readable(t: Todo, data: map<Key, Datum>) {
    if t.versions == map[] then Sym(NODE_NAME) in data else forall r :: r in t.versions ==> Sym(r) in data
  }

  predicate Due(t: Todo, data: map<Key, Datum>)
    requires Readable(t, data)
  {
    t.versions == map[] || exists r :: r in t.versions && data[Sym(r)].version > t.versions[r]
  }

  // The versions recorded before a block is called
  function Recorded(t: Todo, data: map<Key, Datum>): map<string, nat>
    requires Satisfied(t, data) && Readable(t, data)
  {
    if t.versions == map[] then map r | r in Inputs(t) :: data[Sym(r)].version
    else map r | r in t.versions ::
           if data[Sym(r)].version > t.versions[r] then data[Sym(r)].version else t.versions[r]
  }

  function Forgotten(todos: seq<Todo>): seq<Todo> {
    seq(|todos|, i requires 0 <= i < |todos| => todos[i].(versions := map[]))
  }

  // recycle_tactic
  function Recycled(s: State): State { State(Forgotten(s.todos), map[], Some(TACTIC_PENDING)) }

  // called: the blocks called, in order; crashed: a version could not be read
  datatype Result = Result(state: State, called: seq<nat>, crashed: bool)

  // The i-th block has been called.
  function Ran(s: State, i: nat, recycling: set<nat>): (s': State)
    requires i < |s.todos| && Satisfied(s.todos[i], s.data) && Readable(s.todos[i], s.data)
    ensures |s'.todos| == |s.todos|
  {
    var ran := s.(todos := s.todos[i := s.todos[i].(versions := Recorded(s.todos[i], s.data))]);
    if i in recycling then Recycled(ran) else ran
  }

  // From the i-th block on; the blocks in `recycling` recycle the tactic when called.
  function Pass(s: State, i: nat, recycling: set<nat>): Result
    requires i <= |s.todos|
    decreases |s.todos| - i
  {
    if i == |s.todos| then Result(s, [], false)
    else
      var t := s.todos[i];
      if !Satisfied(t, s.data) then Pass(s, i + 1, recycling)
      else if !Readable(t, s.data) then Result(s, [], true)
      else if !Due(t, s.data) then Pass(s, i + 1, recycling)
      else
        var rest := Pass(Ran(s, i, recycling), i + 1, recycling);
        rest.(called := [i] + rest.called)
  }

  // handle_input
  function Handled(s: State, truths: seq<Truth>, recycling: set<nat>): Result {
    match DealtWith(s, truths)
    case None => Result(s, [], true)
    case Some(s') => if s'.pending == Some({}) then Pass(s', 0, recycling) else Result(s', [], false)
  }

  // ---------------------------------------------------------------------
  // What the versions stand for: marks of what has changed

  // reqs: what each block requires; present: the truths there are; a mark is None for a
  // block that has not run since the last recycling, otherwise the inputs that have been
  // updated since it last ran.
  datatype Spec = Spec(reqs: seq<set<string>>, present: set<string>, pending: Option<set<string>>,
                       marks: seq<Option<set<string>>>)

  datatype SpecResult = SpecResult(spec: Spec, called: seq<nat>, crashed: bool)

  predicate SpecValid(a: Spec) { |a.marks| == |a.reqs| }

  function Marked(mark: Option<set<string>>, reqs: set<string>, x: string): Option<set<string>> {
    if mark.Some? && x in reqs + {NODE_NAME} then Some(mark.value + {x}) else mark
  }

  function SpecStored(a: Spec, t: Truth): Option<Spec>
    requires SpecValid(a)
  {
    var x := ShortForm(t.what);
    var pending := if t.what != IS_DAEMON then a.pending
                   else Some((if t.value == True then DAEMON_PENDING else TACTIC_PENDING) - a.present);
    if pending.None? then None
    else Some(a.(present := a.present + {x}, pending := Some(pending.value - {x}),
                 marks := seq(|a.marks|, i requires 0 <= i < |a.marks| => Marked(a.marks[i], a.reqs[i], x))))
  }

  function SpecRecycled(a: Spec): Spec {
    a.(present := {}, pending := Some(TACTIC_PENDING), marks := seq(|a.marks|, _ => None))
  }

  function SpecRan(a: Spec, i: nat, recycling: set<nat>): (a': Spec)
    requires SpecValid(a) && i < |a.reqs|
    ensures SpecValid(a') && a'.reqs == a.reqs
  {
    var ran := a.(marks := a.marks[i := Some({})]);
    if i in recycling then SpecRecycled(ran) else ran
  }

  function SpecPass(a: Spec, i: nat, recycling: set<nat>): (r: SpecResult)
    requires SpecValid(a) && i <= |a.reqs|
    ensures SpecValid(r.spec) && r.spec.reqs == a.reqs
    decreases |a.reqs| - i
  {
    if i == |a.reqs| then SpecResult(a, [], false)
    else if !(a.reqs[i] <= a.present) then SpecPass(a, i + 1, recycling)
    else if NODE_NAME !in a.present then SpecResult(a, [], true)
    else if a.marks[i] == Some({}) then SpecPass(a, i + 1, recycling)
    else
      var rest := SpecPass(SpecRan(a, i, recycling), i + 1, recycling);
      rest.(called := [i] + rest.called)
  }

  function SpecDealtWith(a: Spec, truths: seq<Truth>): (r: Option<Spec>)
    requires SpecValid(a)
    ensures r.Some? ==> SpecValid(r.value) && r.value.reqs == a.reqs
  {
    if truths == [] then Some(a)
    else
      var a' := SpecDealtWith(a, truths[..|truths| - 1]);
      if a'.None? then None else SpecStored(a'.value, truths[|truths| - 1])
  }

  function SpecHandled(a: Spec, truths: seq<Truth>, recycling: set<nat>): (r: SpecResult)
    requires SpecValid(a)
    ensures SpecValid(r.spec)
  {
    match SpecDealtWith(a, truths)
    case None => SpecResult(a, [], true)
    case Some(a') => if a'.pending == Some({}) then SpecPass(a', 0, recycling) else SpecResult(a', [], false)
  }

  // ---------------------------------------------------------------------
  // From versions to marks

  function ReqSet(t: Todo): set<string> { set r | r in t.requirements }

  function Present(data: map<Key, Datum>): set<string> { set k | k in data && k.Sym? :: k.name }

  function MarkOf(t: Todo, data: map<Key, Datum>): Option<set<string>> {
    if t.versions == map[] then None
    else Some(set r | r in t.versions && Sym(r) in data && data[Sym(r)].version > t.versions[r])
  }

  function Abs(s: State): (a: Spec)
    ensures SpecValid(a) && |a.reqs| == |s.todos|
  {
    Spec(seq(|s.todos|, i requires 0 <= i < |s.todos| => ReqSet(s.todos[i])), Present(s.data), s.pending,
         seq(|s.todos|, i requires 0 <= i < |s.todos| => MarkOf(s.todos[i], s.data)))
  }

  // What is filed under a symbol is there under the string too, and a name that is its own
  // short form is not there as a string alone.
  ghost predicate KeysPaired(data: map<Key, Datum>) {
    && (forall x :: Sym(x) in data ==> Str(x) in data)
    && (forall n :: Str(n) in data ==> Sym(n) in data || ShortForm(n) != n)
  }

  ghost predicate TodoCoherent(t: Todo, data: map<Key, Datum>) {
    t.versions != map[] ==> t.versions.Keys == Inputs(t) && forall r :: r in t.versions ==> Sym(r) in data
  }

  ghost predicate TodosCoherent(todos: seq<Todo>, data: map<Key, Datum>) {
    forall t :: t in todos ==> TodoCoherent(t, data)
  }

  ghost predicate Coherent(s: State) { KeysPaired(s.data) && TodosCoherent(s.todos, s.data) }

  // The version under the string key of x has not fallen behind what the block has seen.
  predicate KeepsUp(t: Todo, data: map<Key, Datum>, x: string) {
    x in t.versions ==> Str(x) in data && data[Str(x)].version >= t.versions[x]
  }

  lemma FiledStaysPaired(data: map<Key, Datum>, t: Truth)
    requires KeysPaired(data)
    ensures KeysPaired(Filed(data, t))
  {
  }

  // An update of x counts as news for a block that has run with it exactly when the string
  // key of x has kept up.
  lemma UpdateNoticedIff(data: map<Key, Datum>, t: Truth, todo: Todo)
    requires KeysPaired(data) && TodoCoherent(todo, data) && ShortForm(t.what) in todo.versions
    ensures var x := ShortForm(t.what);
            && MarkOf(todo, Filed(data, t)).Some? && Str(x) in data
            && (x in MarkOf(todo, Filed(data, t)).value <==> data[Str(x)].version >= todo.versions[x])
  {
    var x := ShortForm(t.what);
    assert Sym(x) in data;
  }

  // So filing a truth marks a block as it should exactly when the string key has kept up.
  lemma FiledMarksIff(data: map<Key, Datum>, t: Truth, todo: Todo)
    requires KeysPaired(data) && TodoCoherent(todo, data)
    ensures TodoCoherent(todo, Filed(data, t))
    ensures MarkOf(todo, Filed(data, t)) == Marked(MarkOf(todo, data), ReqSet(todo), ShortForm(t.what))
            <==> KeepsUp(todo, data, ShortForm(t.what))
  {
    var x, filed := ShortForm(t.what), Filed(data, t);
    assert Inputs(todo) == ReqSet(todo) + {NODE_NAME};
    if todo.versions != map[] {
      OthersUnchanged(data, t, todo);
      var was, now := MarkOf(todo, data).value, MarkOf(todo, filed).value;
      if x in todo.versions {
        UpdateNoticedIff(data, t, todo);
        assert now - {x} == was - {x};
        assert x in now ==> now == was + {x};
      } else {
        assert now == was;
      }
    }
  }

  lemma OthersUnchanged(data: map<Key, Datum>, t: Truth, todo: Todo)
    requires TodoCoherent(todo, data)
    ensures forall r :: r in todo.versions && r != ShortForm(t.what) ==>
              Sym(r) in data && Filed(data, t)[Sym(r)] == data[Sym(r)]
  {
  }

  lemma FiledPresent(data: map<Key, Datum>, t: Truth)
    ensures Present(Filed(data, t)) == Present(data) + {ShortForm(t.what)}
  {
    var x := ShortForm(t.what);
    forall n ensures n in Present(Filed(data, t)) <==> n in Present(data) + {x} {
      assert Sym(n) in Filed(data, t) <==> n == x || Sym(n) in data;
    }
  }

  lemma PlainName(n: string)
    requires forall i :: 0 <= i < |n| ==> n[i] != '@'
    ensures Names.SplitName(n) == None
    decreases |n|
  {
    if n != "" {
      var k := Names.Span(n, Names.IsGraph);
      if k < |n| {
        PlainName(n[k + 1..]);
      }
    }
  }

  // The names a tactic waits for are filed as they are.
  lemma PendingNamesArePlain(n: string)
    requires n in TACTIC_PENDING
    ensures ShortForm(n) == n
  {
    assert forall i :: 0 <= i < |n| ==> n[i] != '@' by {
      if n == "destination" {
      } else if n == "port" {
      } else if n == "domain" {
      } else if n == "resource" {
      } else if n == "user" {
      } else if n == IS_DAEMON {
      } else if n == "what" {
      } else {
        assert n == NODE_NAME;
      }
    }
    PlainName(n);
  }

  lemma ToldRefines(s: State, t: Truth)
    requires Coherent(s)
    ensures Told(s, t).pending ==
            if t.what != IS_DAEMON then s.pending
            else Some((if t.value == True then DAEMON_PENDING else TACTIC_PENDING) - Present(s.data))
  {
    forall n | n in TACTIC_PENDING ensures n in NamesOf(s.data) <==> n in Present(s.data) {
      PendingNamesArePlain(n);
      PresentNames(s.data, n);
    }
    var names := if t.value == True then DAEMON_PENDING else TACTIC_PENDING;
    assert names <= TACTIC_PENDING;
    assert names - NamesOf(s.data) == names - Present(s.data);
  }

  lemma PresentNames(data: map<Key, Datum>, n: string)
    requires KeysPaired(data) && ShortForm(n) == n
    ensures n in NamesOf(data) <==> n in Present(data)
  {
    if n in NamesOf(data) {
      var k :| k in data && k.name == n;
      assert k == Sym(n) || k == Str(n);
      assert Sym(n) in data && Sym(n).name == n;
    }
    if n in Present(data) {
      assert Sym(n) in data;
    }
  }

  lemma FiledAllMarksIff(todos: seq<Todo>, data: map<Key, Datum>, t: Truth)
    requires KeysPaired(data) && TodosCoherent(todos, data)
    ensures TodosCoherent(todos, Filed(data, t))
    ensures forall i :: 0 <= i < |todos| ==>
              (MarkOf(todos[i], Filed(data, t)) == Marked(MarkOf(todos[i], data), ReqSet(todos[i]), ShortForm(t.what))
               <==> KeepsUp(todos[i], data, ShortForm(t.what)))
  {
    forall todo | todo in todos
      ensures TodoCoherent(todo, Filed(data, t))
      ensures MarkOf(todo, Filed(data, t)) == Marked(MarkOf(todo, data), ReqSet(todo), ShortForm(t.what))
              <==> KeepsUp(todo, data, ShortForm(t.what))
    {
      FiledMarksIff(data, t, todo);
    }
  }

  ghost predicate AllKeepUp(s: State, t: Truth) {
    forall i :: 0 <= i < |s.todos| ==> KeepsUp(s.todos[i], s.data, ShortForm(t.what))
  }

  // Filing a truth changes the versions as it should change the marks exactly when the
  // string key has kept up with every block.
  lemma StoredRefinesIff(s: State, t: Truth)
    requires Coherent(s)
    ensures Stored(s, t).None? <==> SpecStored(Abs(s), t).None?
    ensures Stored(s, t).Some? ==>
              && Coherent(Stored(s, t).value)
              && (Abs(Stored(s, t).value) == SpecStored(Abs(s), t).value <==> AllKeepUp(s, t))
  {
    ToldRefines(s, t);
    if Stored(s, t).Some? {
      var s', a' := Stored(s, t).value, SpecStored(Abs(s), t).value;
      FiledStaysPaired(s.data, t);
      FiledPresent(s.data, t);
      FiledAllMarksIff(s.todos, s.data, t);
      assert Abs(s').reqs == a'.reqs && Abs(s').present == a'.present && Abs(s').pending == a'.pending;
      MarksKeepUpIff(s, t, s', a');
    }
  }

  lemma MarksKeepUpIff(s: State, t: Truth, s': State, a': Spec)
    requires |Abs(s').marks| == |a'.marks| == |s.todos|
    requires forall i :: 0 <= i < |s.todos| ==>
               (Abs(s').marks[i] == a'.marks[i] <==> KeepsUp(s.todos[i], s.data, ShortForm(t.what)))
    ensures Abs(s').marks == a'.marks <==> AllKeepUp(s, t)
  {
    if AllKeepUp(s, t) {
      assert forall i :: 0 <= i < |a'.marks| ==> Abs(s').marks[i] == a'.marks[i];
    }
  }

  // ---------------------------------------------------------------------
  // The blocks run as the marks say

  lemma RecordedClears(t: Todo, data: map<Key, Datum>)
    requires TodoCoherent(t, data) && Satisfied(t, data) && Readable(t, data)
    ensures var t' := t.(versions := Recorded(t, data));
            TodoCoherent(t', data) && MarkOf(t', data) == Some({})
  {
    var t' := t.(versions := Recorded(t, data));
    assert NODE_NAME in t'.versions;
    assert MarkOf(t', data).value == {};
  }

  lemma TestsAgree(t: Todo, data: map<Key, Datum>)
    requires TodoCoherent(t, data)
    ensures Satisfied(t, data) <==> ReqSet(t) <= Present(data)
    ensures Satisfied(t, data) ==> (Readable(t, data) <==> NODE_NAME in Present(data))
    ensures Satisfied(t, data) && Readable(t, data) ==> (Due(t, data) <==> MarkOf(t, data) != Some({}))
  {
    forall r ensures r in Present(data) <==> Sym(r) in data {
      assert Sym(r) in data ==> Sym(r).name == r;
    }
    if t.versions != map[] {
      assert NODE_NAME in t.versions.Keys;
      if Satisfied(t, data) && Readable(t, data) {
        if Due(t, data) {
          var r :| r in t.versions && data[Sym(r)].version > t.versions[r];
          assert r in MarkOf(t, data).value;
        } else {
          assert MarkOf(t, data).value == {};
        }
      }
    }
  }

  lemma ForgottenRefines(s: State)
    ensures Abs(Recycled(s)) == SpecRecycled(Abs(s)) && Coherent(Recycled(s))
  {
    var r := Recycled(s);
    assert forall i :: 0 <= i < |s.todos| ==> ReqSet(r.todos[i]) == ReqSet(s.todos[i]);
    assert Abs(r).reqs == Abs(s).reqs;
    assert Abs(r).present == {};
    assert Abs(r).marks == SpecRecycled(Abs(s)).marks;
  }

  lemma RanRefines(s: State, i: nat, recycling: set<nat>)
    requires Coherent(s) && i < |s.todos| && Satisfied(s.todos[i], s.data) && Readable(s.todos[i], s.data)
    ensures Coherent(Ran(s, i, recycling)) && Abs(Ran(s, i, recycling)) == SpecRan(Abs(s), i, recycling)
  {
    var r := Ran(s, i, {});
    RecordedClears(s.todos[i], s.data);
    assert ReqSet(r.todos[i]) == ReqSet(s.todos[i]);
    assert Abs(r).reqs == Abs(s).reqs;
    assert Abs(r).marks == Abs(s).marks[i := Some({})];
    if i in recycling {
      ForgottenRefines(r);
    }
  }

  ghost predicate SameResult(r: Result, a: SpecResult) {
    r.called == a.called && r.crashed == a.crashed && Coherent(r.state) && Abs(r.state) == a.spec
  }

  // The state in which the blocks after the i-th are looked at
  function AfterBlock(s: State, i: nat, recycling: set<nat>): (s': State)
    requires i < |s.todos|
    ensures |s'.todos| == |s.todos|
  {
    var t := s.todos[i];
    if Satisfied(t, s.data) && Readable(t, s.data) && Due(t, s.data) then Ran(s, i, recycling) else s
  }

  lemma AfterBlockIsCoherent(s: State, i: nat, recycling: set<nat>)
    requires Coherent(s) && i < |s.todos|
    ensures Coherent(AfterBlock(s, i, recycling))
  {
    var t := s.todos[i];
    if Satisfied(t, s.data) && Readable(t, s.data) && Due(t, s.data) {
      RanRefines(s, i, recycling);
    }
  }

  // One block, given that the rest of the pass agrees
  lemma BlockRefines(s: State, i: nat, recycling: set<nat>)
    requires Coherent(s) && i < |s.todos|
    requires var s' := AfterBlock(s, i, recycling);
             SameResult(Pass(s', i + 1, recycling), SpecPass(Abs(s'), i + 1, recycling))
    ensures SameResult(Pass(s, i, recycling), SpecPass(Abs(s), i, recycling))
  {
    var t, a := s.todos[i], Abs(s);
    TestsAgree(t, s.data);
    assert a.reqs[i] == ReqSet(t) && a.marks[i] == MarkOf(t, s.data) && a.present == Present(s.data);
    if Satisfied(t, s.data) && Readable(t, s.data) && Due(t, s.data) {
      RanRefines(s, i, recycling);
    }
  }

  lemma {:induction false} PassRefines(s: State, i: nat, recycling: set<nat>)
    requires Coherent(s) && i <= |s.todos|
    ensures SameResult(Pass(s, i, recycling), SpecPass(Abs(s), i, recycling))
    decreases |s.todos| - i
  {
    if i < |s.todos| {
      AfterBlockIsCoherent(s, i, recycling);
      PassRefines(AfterBlock(s, i, recycling), i + 1, recycling);
      BlockRefines(s, i, recycling);
    }
  }

  // Every truth is filed while the string key of its short form keeps up.
  ghost predicate TruthsKeepUp(s: State, truths: seq<Truth>) {
    truths != [] ==>
      && TruthsKeepUp(s, truths[..|truths| - 1])
      && var s' := DealtWith(s, truths[..|truths| - 1]);
         s'.Some? ==> AllKeepUp(s'.value, truths[|truths| - 1])
  }

  lemma {:induction false} DealtWithRefines(s: State, truths: seq<Truth>)
    requires Coherent(s) && TruthsKeepUp(s, truths)
    ensures DealtWith(s, truths).None? <==> SpecDealtWith(Abs(s), truths).None?
    ensures DealtWith(s, truths).Some? ==>
              && Coherent(DealtWith(s, truths).value)
              && Abs(DealtWith(s, truths).value) == SpecDealtWith(Abs(s), truths).value
    decreases |truths|
  {
    if truths != [] {
      var init, last := truths[..|truths| - 1], truths[|truths| - 1];
      DealtWithRefines(s, init);
      if DealtWith(s, init).Some? {
        StoredRefinesIff(DealtWith(s, init).value, last);
      }
    }
  }

  lemma HandledRefines(s: State, truths: seq<Truth>, recycling: set<nat>)
    requires Coherent(s) && TruthsKeepUp(s, truths)
    ensures SameResult(Handled(s, truths, recycling), SpecHandled(Abs(s), truths, recycling))
  {
    DealtWithRefines(s, truths);
    if DealtWith(s, truths).Some? {
      PassRefines(DealtWith(s, truths).value, 0, recycling);
    }
  }

  // ---------------------------------------------------------------------
  // Runs

  datatype Input = Input(truths: seq<Truth>, recycling: set<nat>)

  // The blocks each message causes to be called, up to an error
  datatype Reaction = Reaction(called: seq<nat>, crashed: bool)

  ghost function Reactions(s: State, inputs: seq<Input>): seq<Reaction>
    decreases |inputs|
  {
    if inputs == [] then []
    else
      var r := Handled(s, inputs[0].truths, inputs[0].recycling);
      [Reaction(r.called, r.crashed)] + if r.crashed then [] else Reactions(r.state, inputs[1..])
  }

  ghost function SpecReactions(a: Spec, inputs: seq<Input>): seq<Reaction>
    requires SpecValid(a)
    decreases |inputs|
  {
    if inputs == [] then []
    else
      var r := SpecHandled(a, inputs[0].truths, inputs[0].recycling);
      [Reaction(r.called, r.crashed)] + if r.crashed then [] else SpecReactions(r.spec, inputs[1..])
  }

  ghost predicate InputsKeepUp(s: State, inputs: seq<Input>)
    decreases |inputs|
  {
    inputs != [] ==>
      && TruthsKeepUp(s, inputs[0].truths)
      && var r := Handled(s, inputs[0].truths, inputs[0].recycling);
         !r.crashed ==> InputsKeepUp(r.state, inputs[1..])
  }

  // In every sequence of messages in which the string keys keep up, comparing versions
  // calls the blocks that the marks call: once nothing is pending, those with all they
  // require that have not run since the last recycling or one of whose inputs has been
  // updated since they ran.
  lemma {:induction false} VersionsRefineMarks(s: State, inputs: seq<Input>)
    requires Coherent(s) && InputsKeepUp(s, inputs)
    ensures Reactions(s, inputs) == SpecReactions(Abs(s), inputs)
    decreases |inputs|
  {
    if inputs != [] {
      HandledRefines(s, inputs[0].truths, inputs[0].recycling);
      var r := Handled(s, inputs[0].truths, inputs[0].recycling);
      if !r.crashed {
        VersionsRefineMarks(r.state, inputs[1..]);
      }
    }
  }

  // ---------------------------------------------------------------------
  // Names that keep the string keys up

  // The whole name of the truth is not what another truth is filed under.
  predicate Unaliased(s: State, t: Truth) { ShortForm(t.what) == t.what || Sym(t.what) !in s.data }

  ghost predicate TruthsUnaliased(s: State, truths: seq<Truth>) {
    truths != [] ==>
      && TruthsUnaliased(s, truths[..|truths| - 1])
      && var s' := DealtWith(s, truths[..|truths| - 1]);
         s'.Some? ==> Unaliased(s'.value, truths[|truths| - 1])
  }

  ghost predicate InputsUnaliased(s: State, inputs: seq<Input>)
    decreases |inputs|
  {
    inputs != [] ==>
      && TruthsUnaliased(s, inputs[0].truths)
      && var r := Handled(s, inputs[0].truths, inputs[0].recycling);
         !r.crashed ==> InputsUnaliased(r.state, inputs[1..])
  }

  // The string keys are not behind the symbols, nor the symbols behind the blocks.
  ghost predicate Ahead(s: State) {
    && (forall x :: Sym(x) in s.data ==> Str(x) in s.data && s.data[Str(x)].version >= s.data[Sym(x)].version)
    && (forall t, r :: t in s.todos && r in t.versions && Sym(r) in s.data ==> t.versions[r] <= s.data[Sym(r)].version)
  }

  lemma AheadKeepsUp(s: State, t: Truth)
    requires Coherent(s) && Ahead(s)
    ensures AllKeepUp(s, t)
  {
    forall i | 0 <= i < |s.todos| ensures KeepsUp(s.todos[i], s.data, ShortForm(t.what)) {
      if ShortForm(t.what) in s.todos[i].versions {
        assert s.todos[i] in s.todos;
      }
    }
  }

  lemma StoredStaysAhead(s: State, t: Truth)
    requires Coherent(s) && Ahead(s) && Unaliased(s, t) && Stored(s, t).Some?
    ensures Ahead(Stored(s, t).value)
  {
    var s', x := Stored(s, t).value, ShortForm(t.what);
    forall todo, r | todo in s'.todos && r in todo.versions && Sym(r) in s'.data
      ensures todo.versions[r] <= s'.data[Sym(r)].version
    {
      assert todo in s.todos && Sym(r) in s.data;
    }
  }

  lemma {:induction false} TruthsStayAhead(s: State, truths: seq<Truth>)
    requires Coherent(s) && Ahead(s) && TruthsUnaliased(s, truths)
    ensures TruthsKeepUp(s, truths)
    ensures var s' := DealtWith(s, truths); s'.Some? ==> Ahead(s'.value) && Coherent(s'.value)
    decreases |truths|
  {
    if truths != [] {
      var init, last := truths[..|truths| - 1], truths[|truths| - 1];
      TruthsStayAhead(s, init);
      if DealtWith(s, init).Some? {
        var s' := DealtWith(s, init).value;
        AheadKeepsUp(s', last);
        StoredRefinesIff(s', last);
        if Stored(s', last).Some? {
          StoredStaysAhead(s', last);
        }
      }
    }
  }

  lemma RanStaysAhead(s: State, i: nat, recycling: set<nat>)
    requires Coherent(s) && Ahead(s) && i < |s.todos|
    ensures Ahead(AfterBlock(s, i, recycling))
  {
    var s' := AfterBlock(s, i, recycling);
    if s'.data != map[] {
      forall todo, r | todo in s'.todos && r in todo.versions && Sym(r) in s'.data
        ensures todo.versions[r] <= s'.data[Sym(r)].version
      {
        assert todo in s.todos || todo == s'.todos[i];
        assert s.todos[i] in s.todos;
      }
    }
  }

  lemma {:induction false} PassStaysAhead(s: State, i: nat, recycling: set<nat>)
    requires Coherent(s) && Ahead(s) && i <= |s.todos|
    ensures Ahead(Pass(s, i, recycling).state)
    decreases |s.todos| - i
  {
    if i < |s.todos| {
      var s' := AfterBlock(s, i, recycling);
      AfterBlockIsCoherent(s, i, recycling);
      RanStaysAhead(s, i, recycling);
      PassStaysAhead(s', i + 1, recycling);
    }
  }

  // As long as no truth's whole name is what another truth present is filed under, the
  // string keys keep up, whatever the messages are.
  lemma {:induction false} UnaliasedKeepsUp(s: State, inputs: seq<Input>)
    requires Coherent(s) && Ahead(s) && InputsUnaliased(s, inputs)
    ensures InputsKeepUp(s, inputs)
    decreases |inputs|
  {
    if inputs != [] {
      var truths, recycling := inputs[0].truths, inputs[0].recycling;
      TruthsStayAhead(s, truths);
      HandledRefines(s, truths, recycling);
      var r := Handled(s, truths, recycling);
      if !r.crashed {
        var s' := DealtWith(s, truths).value;
        if s'.pending == Some({}) {
          PassStaysAhead(s', 0, recycling);
        }
        UnaliasedKeepsUp(r.state, inputs[1..]);
      }
    }
  }

  // ---------------------------------------------------------------------
  // Which blocks a pass calls

  predicate DueBySpec(a: Spec, j: nat)
    requires SpecValid(a) && j < |a.reqs|
  {
    a.reqs[j] <= a.present && a.marks[j] != Some({})
  }

  // No block due from the i-th up to the j-th recycles the tactic.
  predicate NoneRecycles(a: Spec, i: nat, j: nat, recycling: set<nat>)
    requires SpecValid(a) && j <= |a.reqs|
  {
    forall k :: i <= k < j && DueBySpec(a, k) ==> k !in recycling
  }

  // The blocks called are those due up to the first of them that recycles the tactic, each
  // once and in order. Without one, nothing is marked afterwards for the blocks called and
  // the others are as before; with one, everything is forgotten.
  lemma {:induction false} CalledIffDue(a: Spec, i: nat, recycling: set<nat>)
    requires SpecValid(a) && i <= |a.reqs| && NODE_NAME in a.present
    ensures var r := SpecPass(a, i, recycling);
            && (forall j :: j in r.called <==>
                  i <= j < |a.reqs| && DueBySpec(a, j) && NoneRecycles(a, i, j, recycling))
            && (forall m, n :: 0 <= m < n < |r.called| ==> r.called[m] < r.called[n])
            && (if NoneRecycles(a, i, |a.reqs|, recycling) then
                  && !r.crashed && r.spec.present == a.present && r.spec.pending == a.pending
                  && forall j :: 0 <= j < |a.reqs| ==>
                       r.spec.marks[j] == if j in r.called then Some({}) else a.marks[j]
                else r.spec == SpecRecycled(a))
    decreases |a.reqs| - i
  {
    if i < |a.reqs| {
      if !DueBySpec(a, i) {
        CalledIffDue(a, i + 1, recycling);
        assert forall j :: i < j <= |a.reqs| ==>
                             (NoneRecycles(a, i, j, recycling) <==> NoneRecycles(a, i + 1, j, recycling));
      } else if i in recycling {
        var ran := SpecRan(a, i, recycling);
        assert ran == SpecRecycled(a);
        EmptyPass(ran, i + 1, recycling);
        assert SpecPass(a, i, recycling).called == [i];
      } else {
        CalledAndGoesOn(a, i, recycling);
      }
    }
  }

  lemma CalledAndGoesOn(a: Spec, i: nat, recycling: set<nat>)
    requires SpecValid(a) && i < |a.reqs| && NODE_NAME in a.present && DueBySpec(a, i) && i !in recycling
    ensures var r := SpecPass(a, i, recycling);
            && (forall j :: j in r.called <==>
                  i <= j < |a.reqs| && DueBySpec(a, j) && NoneRecycles(a, i, j, recycling))
            && (forall m, n :: 0 <= m < n < |r.called| ==> r.called[m] < r.called[n])
            && (if NoneRecycles(a, i, |a.reqs|, recycling) then
                  && !r.crashed && r.spec.present == a.present && r.spec.pending == a.pending
                  && forall j :: 0 <= j < |a.reqs| ==>
                       r.spec.marks[j] == if j in r.called then Some({}) else a.marks[j]
                else r.spec == SpecRecycled(a))
    decreases |a.reqs| - i, 0
  {
    var ran, r := SpecRan(a, i, recycling), SpecPass(a, i, recycling);
    var rest := SpecPass(ran, i + 1, recycling);
    CalledIffDue(ran, i + 1, recycling);
    assert forall j :: i < j < |a.reqs| ==> (DueBySpec(ran, j) <==> DueBySpec(a, j));
    forall j | i < j <= |a.reqs|
      ensures NoneRecycles(a, i, j, recycling) <==> NoneRecycles(ran, i + 1, j, recycling)
    {
      SameDue(a, ran, i, j, recycling);
    }
    assert forall k :: k in rest.called ==> i < k;
    FirstInFront(i, rest.called, r.called);
  }

  lemma FirstInFront(i: nat, rest: seq<nat>, called: seq<nat>)
    requires called == [i] + rest && forall k :: k in rest ==> i < k
    requires forall m, n :: 0 <= m < n < |rest| ==> rest[m] < rest[n]
    ensures forall j :: j in called <==> j == i || j in rest
    ensures forall m, n :: 0 <= m < n < |called| ==> called[m] < called[n]
  {
    forall m, n | 0 <= m < n < |called| ensures called[m] < called[n] {
      assert called[n] == rest[n - 1] && rest[n - 1] in rest;
    }
  }

  lemma SameDue(a: Spec, ran: Spec, i: nat, j: nat, recycling: set<nat>)
    requires SpecValid(a) && SpecValid(ran) && |ran.reqs| == |a.reqs| && i < j <= |a.reqs| && i !in recycling
    requires forall k :: i < k < |a.reqs| ==> (DueBySpec(ran, k) <==> DueBySpec(a, k))
    ensures NoneRecycles(a, i, j, recycling) <==> NoneRecycles(ran, i + 1, j, recycling)
  {
  }

  // ---------------------------------------------------------------------
  // An update that goes unnoticed

  // Names of this kind exist: y, y@d and y@d@e.
  lemma AliasesExist(y: string, d: string, e: string)
    requires Names.All(y, Names.IsGraph) && Names.All(d, Names.IsDomainChar) && Names.All(e, Names.IsDomainChar)
    ensures var x := y + "@" + d; ShortForm(x + "@" + e) == x && ShortForm(x) == y
  {
    var x := y + "@" + d;
    assert Names.All(x, Names.IsGraph) by {
      assert forall i :: 0 <= i < |x| ==> x[i] == if i < |y| then y[i] else if i == |y| then '@' else d[i - |y| - 1];
    }
    Names.ParsePrinted(y, d, None);
    Names.ParsePrinted(x, e, None);
  }

  lemma OneTruth(s: State, t: Truth)
    ensures DealtWith(s, [t]) == Stored(s, t)
    ensures TruthsKeepUp(s, [t]) <==> AllKeepUp(s, t)
  {
    assert [t][..0] == [] && DealtWith(s, []) == Some(s) && TruthsKeepUp(s, []);
  }

  // With nothing pending, a truth other than is_daemon is filed and the blocks are looked at.
  lemma NothingBecomesPending(s: State, t: Truth)
    requires s.pending == Some({}) && t.what != IS_DAEMON
    ensures Stored(s, t) == Some(s.(data := Filed(s.data, t)))
    ensures SpecStored(Abs(s), t).Some? && SpecStored(Abs(s), t).value.pending == Some({})
    ensures Handled(s, [t], {}) == Pass(s.(data := Filed(s.data, t)), 0, {})
    ensures SpecHandled(Abs(s), [t], {}) == SpecPass(SpecStored(Abs(s), t).value, 0, {})
  {
    var x := ShortForm(t.what);
    assert {} - {x} == {};
    OneTruth(s, t);
    OneSpecTruth(Abs(s), t);
  }

  lemma OneSpecTruth(a: Spec, t: Truth)
    requires SpecValid(a)
    ensures SpecDealtWith(a, [t]) == SpecStored(a, t)
  {
    assert [t][..0] == [] && SpecDealtWith(a, []) == Some(a);
  }

  // A message updates one input of a block that has run with all the others. The block
  // should be called, and is called exactly when the string key has kept up.
  lemma UpdateCallsIff(s: State, t: Truth, i: nat)
    requires Coherent(s) && s.pending == Some({}) && t.what != IS_DAEMON && i < |s.todos|
    requires ShortForm(t.what) in Inputs(s.todos[i])
    requires Satisfied(s.todos[i], s.data) && MarkOf(s.todos[i], s.data) == Some({})
    ensures i in SpecHandled(Abs(s), [t], {}).called
    ensures i in Handled(s, [t], {}).called <==> KeepsUp(s.todos[i], s.data, ShortForm(t.what))
  {
    NothingBecomesPending(s, t);
    var s', a' := s.(data := Filed(s.data, t)), SpecStored(Abs(s), t).value;
    assert s.todos[i] in s.todos;
    UpdatedBlock(s.data, t, s.todos[i]);
    StoredRefinesIff(s, t);
    PassRefines(s', 0, {});
    CalledWhenMarked(Abs(s'), i);
    CalledWhenMarked(a', i);
  }

  lemma CalledWhenMarked(a: Spec, i: nat)
    requires SpecValid(a) && i < |a.reqs| && NODE_NAME in a.present && a.reqs[i] <= a.present
    ensures i in SpecPass(a, 0, {}).called <==> a.marks[i] != Some({})
  {
    CalledIffDue(a, 0, {});
    assert NoneRecycles(a, 0, i, {});
    assert DueBySpec(a, i) <==> a.marks[i] != Some({});
  }

  // What the update does to the block
  lemma UpdatedBlock(data: map<Key, Datum>, t: Truth, todo: Todo)
    requires KeysPaired(data) && TodoCoherent(todo, data) && ShortForm(t.what) in Inputs(todo)
    requires Satisfied(todo, data) && MarkOf(todo, data) == Some({})
    ensures var x, filed := ShortForm(t.what), Filed(data, t);
            && ReqSet(todo) <= Present(data) <= Present(filed) && NODE_NAME in Present(data)
            && Present(filed) == Present(data) + {x}
            && Marked(MarkOf(todo, data), ReqSet(todo), x) == Some({x})
            && (MarkOf(todo, filed) != Some({}) <==> KeepsUp(todo, data, x))
  {
    FiledPresent(data, t);
    ReadyBlock(todo, data);
    UpdateNoticedIff(data, t, todo);
    OthersUnchanged(data, t, todo);
    var x, now := ShortForm(t.what), MarkOf(todo, Filed(data, t)).value;
    assert now <= {x} by {
      forall r | r in now && r != x ensures r in MarkOf(todo, data).value {
      }
    }
    assert x !in now ==> now == {};
    assert {} + {x} == {x};
  }

  lemma ReadyBlock(t: Todo, data: map<Key, Datum>)
    requires TodoCoherent(t, data) && Satisfied(t, data) && t.versions != map[]
    ensures ReqSet(t) <= Present(data) && NODE_NAME in Present(data) && t.versions.Keys == Inputs(t)
    ensures Inputs(t) == ReqSet(t) + {NODE_NAME}
  {
    TestsAgree(t, data);
    assert NODE_NAME in t.versions.Keys;
  }

  // A helper with one block, which requires x and has run with its symbol at version
  // `seen`, while the string is at version `behind`
  ghost predicate Watching(s: State, x: string, seen: nat, behind: nat) {
    && s.todos == [Todo([x], map[x := seen, NODE_NAME := 1])] && s.pending == Some({}) && KeysPaired(s.data)
    && Sym(x) in s.data && s.data[Sym(x)].version == seen && s.data[Str(x)].version == behind
    && Sym(NODE_NAME) in s.data && s.data[Sym(NODE_NAME)].version == 1
  }

  lemma WatchingIsClean(s: State, x: string, seen: nat, behind: nat)
    requires Watching(s, x, seen, behind) && x != NODE_NAME
    ensures Coherent(s) && Satisfied(s.todos[0], s.data) && MarkOf(s.todos[0], s.data) == Some({})
  {
    var t := s.todos[0];
    assert t.versions.Keys == {x, NODE_NAME} == Inputs(t);
    assert MarkOf(t, s.data).value == {};
  }

  lemma OneBlockPass(s: State)
    requires |s.todos| == 1 && Satisfied(s.todos[0], s.data) && Readable(s.todos[0], s.data)
    ensures Pass(s, 0, {}) ==
            if Due(s.todos[0], s.data) then Result(Ran(s, 0, {}), [0], false) else Result(s, [], false)
  {
    var ran := Ran(s, 0, {});
    assert Pass(ran, 1, {}) == Result(ran, [], false) && Pass(s, 1, {}) == Result(s, [], false);
    assert [0] + [] == [0];
  }

  // What filing t under x changes in the data
  lemma FiledUnder(data: map<Key, Datum>, t: Truth, x: string)
    requires ShortForm(t.what) == x
    ensures var filed, k := Filed(data, t), if Str(x) in data then data[Str(x)].version + 1 else 1;
            && Sym(x) in filed && Str(x) in filed && Str(t.what) in filed
            && filed[Sym(x)].version == filed[Str(x)].version == filed[Str(t.what)].version == k
            && (forall r :: r != x ==> (Sym(r) in filed <==> Sym(r) in data))
            && (forall r :: r != x && Sym(r) in data ==> filed[Sym(r)] == data[Sym(r)])
            && filed.Keys == data.Keys + {Sym(x), Str(x), Str(t.what)}
  {
  }

  lemma WatcherRuns(t: Todo, data: map<Key, Datum>, x: string, seen: nat, node: string)
    requires t.requirements == [x] && t.versions == map[x := seen, node := 1] && x != node
    requires Sym(x) in data && Sym(node) in data && data[Sym(node)].version == 1
    ensures Satisfied(t, data) && Readable(t, data)
    ensures Due(t, data) <==> data[Sym(x)].version > seen
    ensures Due(t, data) ==> Recorded(t, data) == map[x := data[Sym(x)].version, node := 1]
  {
    assert x in t.versions;
  }

  // The next value of x is noticed, and the block called, when the string is level.
  lemma LevelUpdate(s: State, x: string, k: nat, t: Truth) returns (s'': State)
    requires Watching(s, x, k, k) && ShortForm(t.what) == x && x != NODE_NAME && t.what != IS_DAEMON
    ensures TruthsKeepUp(s, [t]) && Handled(s, [t], {}) == Result(s'', [0], false) && Watching(s'', x, k + 1, k + 1)
    ensures s''.data.Keys == s.data.Keys + {Sym(x), Str(x), Str(t.what)}
  {
    NothingBecomesPending(s, t);
    OneTruth(s, t);
    var s' := s.(data := Filed(s.data, t));
    LevelFiled(s, x, k, t, s');
    FreshRun(s', x);
    s'' := Pass(s', 0, {}).state;
  }

  lemma LevelFiled(s: State, x: string, k: nat, t: Truth, s': State)
    requires Watching(s, x, k, k) && ShortForm(t.what) == x && x != NODE_NAME && s' == s.(data := Filed(s.data, t))
    ensures KeysPaired(s'.data) && s'.data.Keys == s.data.Keys + {Sym(x), Str(x), Str(t.what)}
    ensures s'.data[Sym(x)].version == s'.data[Str(x)].version == k + 1
    ensures Sym(NODE_NAME) in s'.data && s'.data[Sym(NODE_NAME)].version == 1 && AllKeepUp(s, t)
    ensures var todo := s'.todos[0];
            && Satisfied(todo, s'.data) && Readable(todo, s'.data) && Due(todo, s'.data)
            && Recorded(todo, s'.data) == map[x := k + 1, NODE_NAME := 1]
  {
    FiledStaysPaired(s.data, t);
    LevelData(s.data, s'.data, x, k, t, NODE_NAME);
    WatcherRuns(s'.todos[0], s'.data, x, k, NODE_NAME);
  }

  lemma LevelData(data: map<Key, Datum>, filed: map<Key, Datum>, x: string, k: nat, t: Truth, node: string)
    requires Sym(x) in data && Str(x) in data && data[Str(x)].version == k && ShortForm(t.what) == x && x != node
    requires Sym(node) in data && filed == Filed(data, t)
    ensures Sym(x) in filed && Str(x) in filed && filed[Sym(x)].version == filed[Str(x)].version == k + 1
    ensures Sym(node) in filed && filed[Sym(node)] == data[Sym(node)]
    ensures filed.Keys == data.Keys + {Sym(x), Str(x), Str(t.what)}
  {
    FiledUnder(data, t, x);
  }

  // The one block runs and has seen the present version of x.
  lemma FreshRun(s: State, x: string)
    requires |s.todos| == 1 && s.todos[0].requirements == [x] && s.pending == Some({}) && KeysPaired(s.data)
    requires Satisfied(s.todos[0], s.data) && Readable(s.todos[0], s.data) && Due(s.todos[0], s.data)
    requires Sym(NODE_NAME) in s.data && s.data[Sym(NODE_NAME)].version == 1
    requires Recorded(s.todos[0], s.data) == map[x := s.data[Sym(x)].version, NODE_NAME := 1]
    ensures var r := Pass(s, 0, {});
            && r.called == [0] && !r.crashed && r.state.data == s.data
            && Watching(r.state, x, s.data[Sym(x)].version, s.data[Str(x)].version)
  {
    OneBlockPass(s);
    var k := s.data[Sym(x)].version;
    assert Ran(s, 0, {}).todos == [Todo([x], map[x := k, NODE_NAME := 1])];
  }

  // A truth called x, but filed under y, sets the string of x back and calls nothing.
  lemma AliasSetsBack(s: State, x: string, k: nat, t: Truth, y: string) returns (s'': State)
    requires Watching(s, x, k, k) && t.what == x && ShortForm(x) == y && Str(y) !in s.data
    requires y != x && y != NODE_NAME && x != NODE_NAME && x != IS_DAEMON
    ensures TruthsKeepUp(s, [t]) && Handled(s, [t], {}) == Result(s'', [], false) && Watching(s'', x, k, 1)
  {
    NothingBecomesPending(s, t);
    OneTruth(s, t);
    var s', todo := s.(data := Filed(s.data, t)), s.todos[0];
    FiledStaysPaired(s.data, t);
    FiledUnder(s.data, t, y);
    WatcherRuns(todo, s'.data, x, k, NODE_NAME);
    OneBlockPass(s');
    s'' := s';
  }

  lemma StoredWhilePending(s: State, t: Truth, x: string, p: set<string>, d: map<Key, Datum>)
    requires t.what != IS_DAEMON && ShortForm(t.what) == x && s.pending == Some(p) && d == Filed(s.data, t)
    ensures Stored(s, t) == Some(State(s.todos, d, Some(p - {x})))
  {
  }

  lemma ToldDaemon(s: State, t: Truth, d: map<Key, Datum>)
    requires s.data == map[] && t.what == IS_DAEMON && t.value == True && ShortForm(t.what) == t.what
    requires d == Filed(map[], t)
    ensures Stored(s, t) == Some(State(s.todos, d, Some({NODE_NAME})))
  {
    assert NamesOf(s.data) == {};
    assert DAEMON_PENDING - {} - {t.what} == {NODE_NAME};
  }

  // What it is and where it runs: after these two nothing is pending.
  lemma FirstTwo(s: State, t1: Truth, t2: Truth) returns (s2: State)
    requires s.data == map[] && t1.what == IS_DAEMON && t1.value == True && t2.what == NODE_NAME
    requires forall todo :: todo in s.todos ==> todo.versions == map[]
    ensures DealtWith(s, [t1, t2]) == Some(s2) && TruthsKeepUp(s, [t1, t2])
    ensures s2.todos == s.todos && s2.pending == Some({}) && KeysPaired(s2.data)
    ensures Sym(NODE_NAME) in s2.data && s2.data[Sym(NODE_NAME)].version == 1
    ensures s2.data.Keys == {Sym(t1.what), Str(t1.what), Sym(t2.what), Str(t2.what)}
  {
    PendingNamesArePlain(t1.what);
    PendingNamesArePlain(t2.what);
    assert t1.what != t2.what;
    var d1 := Filed(map[], t1);
    var d2 := Filed(d1, t2);
    var s1 := State(s.todos, d1, Some({NODE_NAME}));
    s2 := State(s.todos, d2, Some({}));
    ToldDaemon(s, t1, d1);
    assert {NODE_NAME} - {t2.what} == {};
    StoredWhilePending(s1, t2, t2.what, {NODE_NAME}, d2);
    FirstTwoChained(s, t1, s1, t2, s2);
    FiledTwice(t1, t2);
  }

  lemma FirstTwoChained(s: State, t1: Truth, s1: State, t2: Truth, s2: State)
    requires Stored(s, t1) == Some(s1) && Stored(s1, t2) == Some(s2) && s1.todos == s.todos
    requires forall todo :: todo in s.todos ==> todo.versions == map[]
    ensures DealtWith(s, [t1, t2]) == Some(s2) && TruthsKeepUp(s, [t1, t2])
  {
    OneTruth(s, t1);
    NothingRanYet(s, t1);
    NothingRanYet(s1, t2);
    OneMoreTruth(s, [t1], s1, t2, s2);
    assert [t1] + [t2] == [t1, t2];
  }

  lemma FiledTwice(t1: Truth, t2: Truth)
    requires ShortForm(t1.what) == t1.what && ShortForm(t2.what) == t2.what && t1.what != t2.what
    ensures var d := Filed(Filed(map[], t1), t2);
            && KeysPaired(d) && Sym(t2.what) in d && d[Sym(t2.what)].version == 1
            && d.Keys == {Sym(t1.what), Str(t1.what), Sym(t2.what), Str(t2.what)}
  {
    var d1 := Filed(map[], t1);
    FiledUnder(map[], t1, t1.what);
    FiledUnder(d1, t2, t2.what);
    FiledStaysPaired(map[], t1);
    FiledStaysPaired(d1, t2);
  }

  // A helper with one block, which requires x, and nothing pending: the first value of x
  lemma FirstThree(s: State, x: string, first: seq<Truth>, s2: State, t: Truth) returns (s'': State)
    requires s.todos == s2.todos == [Todo([x], map[])] && s2.pending == Some({}) && KeysPaired(s2.data)
    requires DealtWith(s, first) == Some(s2) && TruthsKeepUp(s, first)
    requires Sym(NODE_NAME) in s2.data && s2.data[Sym(NODE_NAME)].version == 1 && Str(x) !in s2.data
    requires ShortForm(t.what) == x && x != NODE_NAME && t.what != IS_DAEMON
    ensures TruthsKeepUp(s, first + [t]) && Handled(s, first + [t], {}) == Result(s'', [0], false)
    ensures Watching(s'', x, 1, 1) && s''.data.Keys == s2.data.Keys + {Sym(x), Str(x), Str(t.what)}
  {
    var s3 := s2.(data := Filed(s2.data, t));
    NothingBecomesPending(s2, t);
    NothingRanYet(s2, t);
    OneMoreTruth(s, first, s2, t, s3);
    FiledUnder(s2.data, t, x);
    FiledStaysPaired(s2.data, t);
    FirstSight(s3.todos[0], s3.data, x);
    FreshRun(s3, x);
    s'' := Pass(s3, 0, {}).state;
  }

  lemma FirstSight(t: Todo, data: map<Key, Datum>, x: string)
    requires t == Todo([x], map[]) && Sym(x) in data && Sym(NODE_NAME) in data && data[Sym(NODE_NAME)].version == 1
    requires x != NODE_NAME
    ensures Satisfied(t, data) && Readable(t, data) && Due(t, data)
    ensures Recorded(t, data) == map[x := data[Sym(x)].version, NODE_NAME := 1]
  {
    assert Inputs(t) == {x, NODE_NAME};
  }

  lemma OneMoreTruth(s: State, truths: seq<Truth>, s': State, t: Truth, s'': State)
    requires DealtWith(s, truths) == Some(s') && Stored(s', t) == Some(s'')
    requires TruthsKeepUp(s, truths) && AllKeepUp(s', t)
    ensures DealtWith(s, truths + [t]) == Some(s'') && TruthsKeepUp(s, truths + [t])
  {
    assert (truths + [t])[..|truths|] == truths;
  }

  lemma NothingRanYet(s: State, t: Truth)
    requires forall todo :: todo in s.todos ==> todo.versions == map[]
    ensures AllKeepUp(s, t)
  {
  }

  lemma OneMoreReaction(s: State, input: Input, called: seq<nat>, s': State, rest: seq<Input>)
    requires Coherent(s) && TruthsKeepUp(s, input.truths)
    requires Handled(s, input.truths, input.recycling) == Result(s', called, false)
    ensures Coherent(s')
    ensures Reactions(s, [input] + rest) == [Reaction(called, false)] + Reactions(s', rest)
    ensures SpecReactions(Abs(s), [input] + rest) == [Reaction(called, false)] + SpecReactions(Abs(s'), rest)
  {
    HandledRefines(s, input.truths, input.recycling);
    assert ([input] + rest)[1..] == rest;
  }

  lemma LastReaction(s: State, input: Input)
    ensures var r, a := Handled(s, input.truths, input.recycling), SpecHandled(Abs(s), input.truths, input.recycling);
            && Reactions(s, [input]) == [Reaction(r.called, r.crashed)]
            && SpecReactions(Abs(s), [input]) == [Reaction(a.called, a.crashed)]
  {
    assert [input][1..] == [];
  }

  // One message: both machines react alike, and go on alike from the state reached.
  ghost predicate ReactAlike(s: State, input: Input, called: seq<nat>, s': State, rest: seq<Input>) {
    && Reactions(s, [input] + rest) == [Reaction(called, false)] + Reactions(s', rest)
    && SpecReactions(Abs(s), [input] + rest) == [Reaction(called, false)] + SpecReactions(Abs(s'), rest)
  }

  lemma LevelReaction(s: State, x: string, k: nat, t: Truth, rest: seq<Input>) returns (s': State)
    requires Watching(s, x, k, k) && ShortForm(t.what) == x && x != NODE_NAME && t.what != IS_DAEMON
    ensures ReactAlike(s, Input([t], {}), [0], s', rest) && Watching(s', x, k + 1, k + 1)
    ensures s'.data.Keys == s.data.Keys + {Sym(x), Str(x), Str(t.what)}
  {
    s' := LevelUpdate(s, x, k, t);
    WatchingIsClean(s, x, k, k);
    OneMoreReaction(s, Input([t], {}), [0], s', rest);
  }

  lemma AliasReaction(s: State, x: string, k: nat, t: Truth, y: string, rest: seq<Input>) returns (s': State)
    requires Watching(s, x, k, k) && t.what == x && ShortForm(x) == y && Str(y) !in s.data
    requires y != x && y != NODE_NAME && x != NODE_NAME && x != IS_DAEMON
    ensures ReactAlike(s, Input([t], {}), [], s', rest) && Watching(s', x, k, 1)
  {
    s' := AliasSetsBack(s, x, k, t, y);
    WatchingIsClean(s, x, k, k);
    OneMoreReaction(s, Input([t], {}), [], s', rest);
  }

  lemma FirstReaction(s: State, x: string, first: seq<Truth>, s2: State, t: Truth, rest: seq<Input>)
    returns (s': State)
    requires s.todos == s2.todos == [Todo([x], map[])] && s2.pending == Some({}) && KeysPaired(s2.data)
    requires DealtWith(s, first) == Some(s2) && TruthsKeepUp(s, first) && Coherent(s)
    requires Sym(NODE_NAME) in s2.data && s2.data[Sym(NODE_NAME)].version == 1 && Str(x) !in s2.data
    requires ShortForm(t.what) == x && x != NODE_NAME && t.what != IS_DAEMON
    ensures ReactAlike(s, Input(first + [t], {}), [0], s', rest)
    ensures Watching(s', x, 1, 1) && s'.data.Keys == s2.data.Keys + {Sym(x), Str(x), Str(t.what)}
  {
    s' := FirstThree(s, x, first, s2, t);
    OneMoreReaction(s, Input(first + [t], {}), [0], s', rest);
  }

  // Three messages after which the helper watches x at version 2, with the string key of x
  // set back
  ghost predicate Led(s: State, inputs: seq<Input>, s': State, m: Input) {
    var shared := [Reaction([0], false), Reaction([0], false), Reaction([], false)];
    && Reactions(s, inputs) == shared + Reactions(s', [m])
    && SpecReactions(Abs(s), inputs) == shared + SpecReactions(Abs(s'), [m])
  }

  lemma ThreeAlike(s: State, s1: State, s2: State, s3: State, m1: Input, m2: Input, m3: Input, m: Input)
    requires ReactAlike(s, m1, [0], s1, [m2] + ([m3] + [m])) && ReactAlike(s1, m2, [0], s2, [m3] + [m])
    requires ReactAlike(s2, m3, [], s3, [m])
    ensures Led(s, [m1] + ([m2] + ([m3] + [m])), s3, m)
  {
    var a, c := Reaction([0], false), Reaction([], false);
    Prefixed(a, a, c, Reactions(s3, [m]));
    Prefixed(a, a, c, SpecReactions(Abs(s3), [m]));
  }

  lemma StillAbsent(before: set<Key>, after: set<Key>, k: Key, x: string, w: string)
    requires after == before + {Sym(x), Str(x), Str(w)} && k !in before && k.Str? && k.name != x && k.name != w
    ensures k !in after
  {
  }

  lemma AliasedInputsLead(s: State, x: string, y: string, first: seq<Truth>, s2: State,
                          t: Truth, alias: Truth, m: Input)
    returns (s': State)
    requires s.todos == s2.todos == [Todo([x], map[])] && s2.pending == Some({}) && KeysPaired(s2.data)
    requires DealtWith(s, first) == Some(s2) && TruthsKeepUp(s, first) && Coherent(s)
    requires Sym(NODE_NAME) in s2.data && s2.data[Sym(NODE_NAME)].version == 1
    requires ShortForm(t.what) == x && x != NODE_NAME && x != IS_DAEMON && t.what != IS_DAEMON && Str(x) !in s2.data
    requires alias.what == x && ShortForm(x) == y && y != x && y != t.what && y != NODE_NAME && Str(y) !in s2.data
    ensures Watching(s', x, 2, 1)
    ensures Led(s, [Input(first + [t], {})] + ([Input([t], {})] + ([Input([alias], {})] + [m])), s', m)
  {
    var m1, m2, m3 := Input(first + [t], {}), Input([t], {}), Input([alias], {});
    var s3 := FirstReaction(s, x, first, s2, t, [m2] + ([m3] + [m]));
    var s4 := LevelReaction(s3, x, 1, t, [m3] + [m]);
    StillAbsent(s2.data.Keys, s3.data.Keys, Str(y), x, t.what);
    StillAbsent(s3.data.Keys, s4.data.Keys, Str(y), x, t.what);
    s' := AliasReaction(s4, x, 2, alias, y, [m]);
    ThreeAlike(s, s3, s4, s', m1, m2, m3, m);
  }

  lemma Prefixed(a: Reaction, b: Reaction, c: Reaction, rest: seq<Reaction>)
    ensures [a] + ([b] + ([c] + rest)) == [a, b, c] + rest
  {
  }

  lemma AliasMissed(s: State, x: string, y: string, first: seq<Truth>, s2: State, t: Truth, alias: Truth, late: Truth)
    requires s.todos == s2.todos == [Todo([x], map[])] && s2.pending == Some({}) && KeysPaired(s2.data)
    requires DealtWith(s, first) == Some(s2) && TruthsKeepUp(s, first) && Coherent(s)
    requires Sym(NODE_NAME) in s2.data && s2.data[Sym(NODE_NAME)].version == 1
    requires ShortForm(t.what) == x && x != NODE_NAME && x != IS_DAEMON && t.what != IS_DAEMON && Str(x) !in s2.data
    requires alias.what == x && ShortForm(x) == y && y != x && y != t.what && y != NODE_NAME && Str(y) !in s2.data
    requires late.what == t.what
    ensures var inputs := [Input(first + [t], {})] + ([Input([t], {})] + ([Input([alias], {})] + [Input([late], {})]));
            var shared := [Reaction([0], false), Reaction([0], false), Reaction([], false)];
            && Reactions(s, inputs) == shared + [Reaction([], false)]
            && SpecReactions(Abs(s), inputs) == shared + [Reaction([0], false)]
  {
    var m := Input([late], {});
    var s3 := AliasedInputsLead(s, x, y, first, s2, t, alias, m);
    MissedByWatcher(s3, x, late);
    LastReaction(s3, m);
  }

  // From a new helper whose one block requires x: w, filed under x, comes twice, then a
  // truth called x but filed elsewhere, then a new value of w. The block runs for the first
  // two, and misses the last, although its input has changed since it ran.
  lemma AliasHidesUpdate(x: string, t1: Truth, t2: Truth, t: Truth, alias: Truth, late: Truth)
    requires ShortForm(t.what) == x && ShortForm(x) != x && ShortForm(x) != t.what && t.what != IS_DAEMON
    requires ShortForm(x) != IS_DAEMON && ShortForm(x) != NODE_NAME
    requires t1.what == IS_DAEMON && t1.value == True && t2.what == NODE_NAME
    requires alias.what == x && late.what == t.what
    ensures var s := State([Todo([x], map[])], map[], None);
            var inputs := [Input([t1, t2] + [t], {})]
                          + ([Input([t], {})] + ([Input([alias], {})] + [Input([late], {})]));
            var shared := [Reaction([0], false), Reaction([0], false), Reaction([], false)];
            && Reactions(s, inputs) == shared + [Reaction([], false)]
            && SpecReactions(Abs(s), inputs) == shared + [Reaction([0], false)]
  {
    var s, y := State([Todo([x], map[])], map[], None), ShortForm(x);
    var s2 := FirstTwo(s, t1, t2);
    NotPending(x);
    NotAmong(s2.data, t1.what, t2.what, x);
    NotAmong(s2.data, t1.what, t2.what, y);
    AliasMissed(s, x, y, [t1, t2], s2, t, alias, late);
  }

  lemma NotAmong(data: map<Key, Datum>, a: string, b: string, x: string)
    requires data.Keys == {Sym(a), Str(a), Sym(b), Str(b)} && x != a && x != b
    ensures Str(x) !in data
  {
  }

  // A name that is not its own short form is none of those a tactic waits for.
  lemma NotPending(x: string)
    requires ShortForm(x) != x
    ensures x != NODE_NAME && x != IS_DAEMON
  {
    if x in TACTIC_PENDING {
      PendingNamesArePlain(x);
    }
  }

  lemma MissedByWatcher(s: State, x: string, t: Truth)
    requires Watching(s, x, 2, 1) && ShortForm(t.what) == x && x != NODE_NAME && t.what != IS_DAEMON
    ensures var r, a := Handled(s, [t], {}), SpecHandled(Abs(s), [t], {});
            r.called == [] && a.called == [0] && !r.crashed && !a.crashed
  {
    WatchingIsClean(s, x, 2, 1);
    UpdateCallsIff(s, t, 0);
    OnlyOneBlock(s, t);
    NothingBecomesPending(s, t);
    var s', a' := s.(data := Filed(s.data, t)), SpecStored(Abs(s), t).value;
    UpdatedBlock(s.data, t, s.todos[0]);
    StoredRefinesIff(s, t);
    PassRefines(s', 0, {});
    CalledIffDue(Abs(s'), 0, {});
    CalledIffDue(a', 0, {});
  }

  lemma OnlyOneBlock(s: State, t: Truth)
    requires |s.todos| == 1 && s.pending == Some({}) && t.what != IS_DAEMON
    ensures var c, d := Handled(s, [t], {}).called, SpecHandled(Abs(s), [t], {}).called;
            && (c == [] || c == [0]) && (d == [] || d == [0])
  {
    NothingBecomesPending(s, t);
    var s', a' := s.(data := Filed(s.data, t)), SpecStored(Abs(s), t).value;
    OneBlockCalls(s');
    assert |a'.reqs| == 1;
    assert SpecPass(a', 1, {}).called == [];
    assert SpecPass(SpecRan(a', 0, {}), 1, {}).called == [];
    assert [0] + [] == [0];
  }

  lemma OneBlockCalls(s: State)
    requires |s.todos| == 1
    ensures Pass(s, 0, {}).called in [[], [0]]
  {
    assert Pass(s, 1, {}).called == [];
    if Satisfied(s.todos[0], s.data) && Readable(s.todos[0], s.data) {
      OneBlockPass(s);
    }
  }

  // ---------------------------------------------------------------------
  // When the scheduler fails

  // Once nothing is pending the name of the node is there.
  predicate NodeNameKnown(a: Spec) {
    a.pending.Some? ==> NODE_NAME in a.pending.value || NODE_NAME in a.present
  }

  lemma {:induction false} EmptyPass(a: Spec, i: nat, recycling: set<nat>)
    requires SpecValid(a) && i <= |a.reqs| && a.present == {}
    ensures SpecPass(a, i, recycling).called == [] && SpecPass(a, i, recycling).spec == a
    ensures SpecPass(a, i, recycling).crashed <==> exists j :: i <= j < |a.reqs| && a.reqs[j] == {}
    decreases |a.reqs| - i
  {
    if i < |a.reqs| {
      EmptyPass(a, i + 1, recycling);
    }
  }

  // A block that is due recycles the tactic, and a block that requires nothing comes after.
  ghost predicate RecyclesEarly(a: Spec, i: nat, recycling: set<nat>)
    requires SpecValid(a)
  {
    exists k, j :: i <= k < j < |a.reqs| && DueBySpec(a, k) && k in recycling && a.reqs[j] == {}
  }

  lemma {:induction false} PassCrashesIff(a: Spec, i: nat, recycling: set<nat>)
    requires SpecValid(a) && i <= |a.reqs| && NODE_NAME in a.present
    ensures SpecPass(a, i, recycling).crashed <==> RecyclesEarly(a, i, recycling)
    decreases |a.reqs| - i
  {
    if i < |a.reqs| {
      var ran := SpecRan(a, i, recycling);
      if !DueBySpec(a, i) {
        PassCrashesIff(a, i + 1, recycling);
      } else if i in recycling {
        EmptyPass(ran, i + 1, recycling);
        if j :| i < j < |a.reqs| && a.reqs[j] == {} {
          assert i <= i < j && DueBySpec(a, i);
        }
      } else {
        PassCrashesIff(ran, i + 1, recycling);
        assert forall j :: i < j < |a.reqs| ==> (DueBySpec(ran, j) <==> DueBySpec(a, j));
      }
    }
  }

  lemma {:induction false} DealtWithFailsIff(a: Spec, truths: seq<Truth>)
    requires SpecValid(a) && NodeNameKnown(a)
    ensures var r := SpecDealtWith(a, truths);
            && (r.None? <==> a.pending.None? && truths != [] && truths[0].what != IS_DAEMON)
            && (r.Some? ==> NodeNameKnown(r.value) && (truths != [] ==> r.value.pending.Some?))
    decreases |truths|
  {
    if truths != [] {
      var init := truths[..|truths| - 1];
      DealtWithFailsIff(a, init);
      if init != [] {
        assert init[0] == truths[0];
      }
    }
  }

  // A message fails exactly when it is the first and does not start by telling whether the
  // tactic is a daemon, or when, with its truths filed and nothing pending, a block that is
  // due recycles the tactic ahead of one that requires nothing.
  lemma HandledCrashesIff(a: Spec, truths: seq<Truth>, recycling: set<nat>)
    requires SpecValid(a) && NodeNameKnown(a)
    ensures var r, d := SpecHandled(a, truths, recycling), SpecDealtWith(a, truths);
            && (r.crashed <==>
                  || (a.pending.None? && truths != [] && truths[0].what != IS_DAEMON)
                  || (d.Some? && d.value.pending == Some({}) && RecyclesEarly(d.value, 0, recycling)))
            && (!r.crashed ==> NodeNameKnown(r.spec))
  {
    DealtWithFailsIff(a, truths);
    var d := SpecDealtWith(a, truths);
    if d.Some? && d.value.pending == Some({}) {
      PassCrashesIff(d.value, 0, recycling);
      CalledIffDue(d.value, 0, recycling);
    }
  }

  // From a new helper: the first block requires x and recycles the tactic, the second
  // requires nothing. The message that brings x calls the first and then fails.
  lemma RecyclingAheadFails(x: string, t1: Truth, t2: Truth, t: Truth)
    requires t1.what == IS_DAEMON && t1.value == True && t2.what == NODE_NAME
    requires ShortForm(t.what) == x && x != NODE_NAME && t.what != IS_DAEMON
    ensures var s := State([Todo([x], map[]), Todo([], map[])], map[], None);
            var r := Handled(s, [t1, t2] + [t], {0});
            r.crashed && r.called == [0]
  {
    var s := State([Todo([x], map[]), Todo([], map[])], map[], None);
    var s2 := FirstTwo(s, t1, t2);
    RecyclesThenFails(s, x, [t1, t2], s2, t);
  }

  lemma RecyclesThenFails(s: State, x: string, first: seq<Truth>, s2: State, t: Truth)
    requires s.todos == s2.todos == [Todo([x], map[]), Todo([], map[])] && s2.pending == Some({})
    requires DealtWith(s, first) == Some(s2) && TruthsKeepUp(s, first)
    requires Sym(NODE_NAME) in s2.data && s2.data[Sym(NODE_NAME)].version == 1
    requires ShortForm(t.what) == x && x != NODE_NAME && t.what != IS_DAEMON
    ensures Handled(s, first + [t], {0}).crashed && Handled(s, first + [t], {0}).called == [0]
  {
    var s3 := s2.(data := Filed(s2.data, t));
    NothingBecomesPending(s2, t);
    NothingRanYet(s2, t);
    OneMoreTruth(s, first, s2, t, s3);
    FiledUnder(s2.data, t, x);
    RecyclingPassFails(s3, x);
  }

  lemma RecyclingPassFails(s: State, x: string)
    requires s.todos == [Todo([x], map[]), Todo([], map[])] && Sym(x) in s.data && x != NODE_NAME
    requires Sym(NODE_NAME) in s.data && s.data[Sym(NODE_NAME)].version == 1
    ensures Pass(s, 0, {0}).crashed && Pass(s, 0, {0}).called == [0]
  {
    FirstSight(s.todos[0], s.data, x);
    var ran := Ran(s, 0, {0});
    assert ran.data == map[] && ran.todos[1] == Todo([], map[]);
    assert Pass(ran, 1, {0}) == Result(ran, [], true);
    assert [0] + [] == [0];
  }

  // ---------------------------------------------------------------------
  // Recycling starts afresh

  // A new helper with the blocks of s
  function Fresh(s: State): State { State(Forgotten(s.todos), map[], None) }

  lemma TellsAfresh(s: State, t: Truth)
    requires t.what == IS_DAEMON
    ensures Told(Recycled(s), t) == Told(Fresh(s), t)
  {
  }

  lemma StoresAlike(s: State, s': State, t: Truth)
    requires Told(s, t) == Told(s', t) && s.data == s'.data
    ensures Stored(s, t) == Stored(s', t)
  {
  }

  lemma {:induction false} DealsAfresh(s: State, t: Truth, truths: seq<Truth>)
    requires Told(Recycled(s), t) == Told(Fresh(s), t)
    ensures DealtWith(Recycled(s), [t] + truths) == DealtWith(Fresh(s), [t] + truths)
    decreases |truths|
  {
    var all := [t] + truths;
    if truths == [] {
      StoresAlike(Recycled(s), Fresh(s), t);
      assert all[..0] == [] && all[0] == t;
    } else {
      var init := truths[..|truths| - 1];
      DealsAfresh(s, t, init);
      assert all[..|all| - 1] == [t] + init;
    }
  }

  // Whatever a helper has been through, once recycled and told what its tactic is it reacts
  // to every sequence of messages as a new helper with the same blocks does.
  lemma RecycledReactsAsNew(s: State, t: Truth, truths: seq<Truth>, recycling: set<nat>, rest: seq<Input>)
    requires t.what == IS_DAEMON
    ensures var inputs := [Input([t] + truths, recycling)] + rest;
            Reactions(Recycled(s), inputs) == Reactions(Fresh(s), inputs)
  {
    TellsAfresh(s, t);
    DealsAfresh(s, t, truths);
    ReactsAlike(Recycled(s), Fresh(s), Input([t] + truths, recycling), rest);
  }

  lemma ReactsAlike(s: State, s': State, first: Input, rest: seq<Input>)
    requires DealtWith(s, first.truths) == DealtWith(s', first.truths) && s.todos == s'.todos
    ensures Reactions(s, [first] + rest) == Reactions(s', [first] + rest)
  {
    assert ([first] + rest)[1..] == rest;
  }

  // Declaring a block adds one that has not run, and changes nothing for the others.
  lemma DeclaredBlock(s: State, requirements: seq<string>)
    requires Coherent(s)
    ensures var s' := s.(todos := s.todos + [Todo(requirements, map[])]);
            && Coherent(s') && Abs(s').present == Abs(s).present && Abs(s').pending == Abs(s).pending
            && Abs(s').reqs == Abs(s).reqs + [set r | r in requirements] && Abs(s').marks == Abs(s).marks + [None]
  {
    var todo := Todo(requirements, map[]);
    var s' := s.(todos := s.todos + [todo]);
    assert ReqSet(todo) == set r | r in requirements;
    assert forall i :: 0 <= i < |s.todos| ==> s'.todos[i] == s.todos[i];
    assert Abs(s').reqs == Abs(s).reqs + [ReqSet(todo)];
    assert Abs(s').marks == Abs(s).marks + [None];
  }

  // ---------------------------------------------------------------------
  // The class

  class Helper {
    var todos: seq<Todo>
    var data: map<Key, Datum>
    var pending: Option<set<string>>

    function Current(): State
      reads this
    {
      State(todos, data, pending)
    }

    constructor ()
      ensures Current() == State([], map[], None) && Coherent(Current()) && NodeNameKnown(Abs(Current()))
    {
      todos := [];
      data := map[];
      pending := None;
    }

    method When(requirements: seq<string>)
      requires Coherent(Current())
      modifies this
      ensures Current() == old(Current()).(todos := old(todos) + [Todo(requirements, map[])])
      ensures Coherent(Current())
    {
      todos := todos + [Todo(requirements, map[])];
    }

    method RecycleTactic()
      modifies this
      ensures Current() == Recycled(old(Current()))
    {
      data := map[];
      pending := Some(TACTIC_PENDING);
      todos := Forgotten(todos);
    }

    method DealWithInput(truths: seq<Truth>) returns (ok: bool)
      modifies this
      ensures match DealtWith(old(Current()), truths)
              case None => !ok
              case Some(s) => ok && Current() == s
    {
      ghost var was := Current();
      for n := 0 to |truths|
        invariant DealtWith(was, truths[..n]) == Some(Current())
      {
        assert truths[..n + 1][..n] == truths[..n];
        ok := StoreTruth(truths[n]);
        if !ok {
          FailsFromThere(was, truths, n + 1);
          return;
        }
      }
      assert truths[..|truths|] == truths;
      ok := true;
    }

    method StoreTruth(t: Truth) returns (ok: bool)
      modifies this
      ensures match Stored(old(Current()), t)
              case None => !ok
              case Some(s) => ok && Current() == s
    {
      if t.what == IS_DAEMON {
        pending := Some((if t.value == True then DAEMON_PENDING else TACTIC_PENDING) - NamesOf(data));
      }
      var shortForm := ShortForm(t.what);
      if pending.None? {
        return false;
      }
      pending := Some(pending.value - {shortForm});
      FileTruth(t, shortForm);
      ok := true;
    }

    method FileTruth(t: Truth, shortForm: string)
      requires shortForm == ShortForm(t.what)
      modifies this`data
      ensures data == Filed(old(data), t)
    {
      var version := if Str(shortForm) in data then data[Str(shortForm)].version + 1 else 1;
      var d := Datum(t.what, t.value, version);
      data := data[Sym(shortForm) := d];
      data := data[Str(shortForm) := d];
      data := data[Str(t.what) := d];
    }

    // One turn of the loop below.
    method ExecuteBlock(i: nat, recycling: set<nat>) returns (ran: bool, crashed: bool)
      requires i < |todos|
      modifies this
      ensures |todos| == |old(todos)|
      ensures Turn(old(Current()), i, recycling, Current(), ran, crashed)
    {
      ran, crashed := false, false;
      var t := todos[i];
      if !Satisfied(t, data) {
        return;
      }
      if !Readable(t, data) {
        crashed := true;
        return;
      }
      if Due(t, data) {
        todos := todos[i := t.(versions := Recorded(t, data))];
        ran := true;
        if i in recycling {
          RecycleTactic();
        }
      }
    }

    method ExecuteUserBlocks(recycling: set<nat>) returns (called: seq<nat>, crashed: bool)
      modifies this
      ensures Result(Current(), called, crashed) ==
              if old(pending) == Some({}) then Pass(old(Current()), 0, recycling)
              else Result(old(Current()), [], false)
    {
      called, crashed := [], false;
      if pending != Some({}) {
        return;
      }
      ghost var all := Pass(Current(), 0, recycling);
      var i := 0;
      while i < |todos|
        invariant i <= |todos| && !crashed && Remains(all, called, Current(), i, recycling)
        decreases |todos| - i
      {
        ghost var was, before := Current(), called;
        var ran;
        ran, crashed := ExecuteBlock(i, recycling);
        called := if ran then called + [i] else called;
        TurnTaken(all, before, was, i, recycling, Current(), ran, crashed);
        if crashed {
          return;
        }
        i := i + 1;
      }
    }

    method HandleInput(truths: seq<Truth>, recycling: set<nat>) returns (called: seq<nat>, crashed: bool)
      modifies this
      ensures var r := Handled(old(Current()), truths, recycling);
              called == r.called && crashed == r.crashed && (!crashed ==> Current() == r.state)
    {
      var ok := DealWithInput(truths);
      if !ok {
        return [], true;
      }
      called, crashed := ExecuteUserBlocks(recycling);
    }
  }

  function After(called: seq<nat>, r: Result): Result { r.(called := called + r.called) }

  // What is left of a pass once the blocks before the i-th have been dealt with
  predicate Remains(all: Result, called: seq<nat>, s: State, i: nat, recycling: set<nat>) {
    i <= |s.todos| && all == After(called, Pass(s, i, recycling))
  }

  // Dealing with the i-th block alone
  predicate Turn(s: State, i: nat, recycling: set<nat>, s': State, ran: bool, crashed: bool)
    requires i < |s.todos|
  {
    && |s'.todos| == |s.todos| && (crashed ==> !ran)
    && Pass(s, i, recycling) ==
       if crashed then Result(s', [], true) else After(if ran then [i] else [], Pass(s', i + 1, recycling))
  }

  lemma TurnTaken(all: Result, called: seq<nat>, s: State, i: nat, recycling: set<nat>,
                  s': State, ran: bool, crashed: bool)
    requires Remains(all, called, s, i, recycling) && i < |s.todos| && Turn(s, i, recycling, s', ran, crashed)
    ensures crashed ==> all == Result(s', called, true)
    ensures !crashed ==> Remains(all, if ran then called + [i] else called, s', i + 1, recycling)
  {
    if !crashed {
      var rest := Pass(s', i + 1, recycling).called;
      assert called + ([i] + rest) == called + [i] + rest;
      assert called + ([] + rest) == called + rest;
    }
  }

  lemma {:induction false} FailsFromThere(s: State, truths: seq<Truth>, n: nat)
    requires n <= |truths| && DealtWith(s, truths[..n]).None?
    ensures DealtWith(s, truths).None?
    decreases |truths| - n
  {
    if n == |truths| {
      assert truths[..n] == truths;
    } else {
      assert truths[..n + 1][..n] == truths[..n];
      FailsFromThere(s, truths, n + 1);
    }
  }
}
