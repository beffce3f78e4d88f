// What a pass leaves in the recorded versions of the blocks it calls.
module TacticVersions {
  import opened TacticHelper

  // The versions there are of all that a block looks at
  function Current(t: Todo, data: map<Key, Datum>): map<string, nat>
    requires Satisfied(t, data) && Sym(NODE_NAME) in data
  {
    map r | r in Inputs(t) :: data[Sym(r)].version
  }

  // The block has not recorded more than there is.
  predicate NotBeyond(t: Todo, data: map<Key, Datum>) {
    forall r :: r in t.versions ==> Sym(r) in data && t.versions[r] <= data[Sym(r)].version
  }

  lemma RecordedCurrentIff(t: Todo, data: map<Key, Datum>, node: string)
    requires node == NODE_NAME && TodoCoherent(t, data) && Satisfied(t, data) && Readable(t, data)
    ensures Sym(node) in data && (Recorded(t, data) == Current(t, data) <==> NotBeyond(t, data))
  {
    assert node in Inputs(t);
    if t.versions != map[] {
      assert t.versions.Keys == Inputs(t);
      if Recorded(t, data) == Current(t, data) {
        forall r | r in t.versions ensures t.versions[r] <= data[Sym(r)].version {
          assert Recorded(t, data)[r] == Current(t, data)[r];
        }
      }
    }
  }

  predicate NoneOf(called: seq<nat>, recycling: set<nat>) { forall k :: k in called ==> k !in recycling }

  // What a pass that does not recycle the tactic makes of the j-th block
  ghost predicate Leaves(before: State, r: Result, j: nat)
    requires j < |before.todos|
  {
    var t := before.todos[j];
    && j < |r.state.todos| && (j in r.called ==> Satisfied(t, before.data) && Readable(t, before.data))
    && r.state.todos[j] == if j in r.called then t.(versions := Recorded(t, before.data)) else t
  }

  lemma {:induction false} PassLeaves(s: State, i: nat, recycling: set<nat>)
    requires i <= |s.todos| && NoneOf(Pass(s, i, recycling).called, recycling)
    ensures var r := Pass(s, i, recycling);
            && r.state.data == s.data && (forall k :: k in r.called ==> i <= k)
            && forall j :: 0 <= j < |s.todos| ==> Leaves(s, r, j)
    decreases |s.todos| - i
  {
    if i < |s.todos| {
      var t := s.todos[i];
      if Satisfied(t, s.data) && Readable(t, s.data) && Due(t, s.data) {
        var s', r := Ran(s, i, recycling), Pass(s, i, recycling);
        var rest := Pass(s', i + 1, recycling);
        assert r.called == [i] + rest.called && r.called[0] == i;
        assert forall k :: k in rest.called ==> k in r.called;
        PassLeaves(s', i + 1, recycling);
        CalledFirst(s, i, recycling, s', rest, r);
      } else if !Satisfied(t, s.data) || Readable(t, s.data) {
        PassLeaves(s, i + 1, recycling);
      }
    }
  }

  lemma CalledFirst(s: State, i: nat, recycling: set<nat>, s': State, rest: Result, r: Result)
    requires i < |s.todos| && Satisfied(s.todos[i], s.data) && Readable(s.todos[i], s.data) && i !in recycling
    requires s' == Ran(s, i, recycling) && r == rest.(called := [i] + rest.called)
    requires rest.state.data == s'.data && forall k :: k in rest.called ==> i < k
    requires forall j :: 0 <= j < |s'.todos| ==> Leaves(s', rest, j)
    ensures r.state.data == s.data && (forall k :: k in r.called ==> i <= k)
    ensures forall j :: 0 <= j < |s.todos| ==> Leaves(s, r, j)
  {
    forall j | 0 <= j < |s.todos| ensures Leaves(s, r, j) {
      assert Leaves(s', rest, j);
      assert j in r.called <==> j == i || j in rest.called;
    }
  }

  // After a pass without recycling, a block that was called has recorded exactly the
  // versions there are, if and only if it had not recorded more before.
  lemma CalledIsCurrentIff(s: State, recycling: set<nat>, j: nat)
    requires Coherent(s) && j < |s.todos| && j in Pass(s, 0, recycling).called
    requires NoneOf(Pass(s, 0, recycling).called, recycling)
    ensures var t, r := s.todos[j], Pass(s, 0, recycling);
            && r.state.data == s.data && j < |r.state.todos|
            && Satisfied(t, s.data) && Sym(NODE_NAME) in s.data
            && (r.state.todos[j].versions == Current(t, s.data) <==> NotBeyond(t, s.data))
  {
    PassLeaves(s, 0, recycling);
    assert Leaves(s, Pass(s, 0, recycling), j) && s.todos[j] in s.todos;
    RecordedCurrentIff(s.todos[j], s.data, NODE_NAME);
  }
}
