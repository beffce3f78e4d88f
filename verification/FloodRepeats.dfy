// When a signpost accepts the same payload twice: exactly when its cache has forgotten it
// in between. Runs are looked at through the networks they go through.
module FloodRepeats {
  import opened CommsAgent
  import opened Flood

  // ms[i] is the network before the i-th event.
  ghost predicate IsTrace(ms: seq<Net>, es: seq<Event>) {
    && |ms| == |es| + 1
    && forall i :: 0 <= i < |es| ==> Enabled(ms[i], es[i]) && ms[i + 1] == Step(ms[i], es[i])
  }

  lemma {:induction false} PrefixIsRun(n: Net, es: seq<Event>, i: nat)
    requires IsRun(n, es) && i <= |es|
    ensures IsRun(n, es[..i])
    decreases |es| - i
  {
    if i == |es| {
      assert es[..i] == es;
    } else {
      PrefixIsRun(n, es, i + 1);
      assert es[..i + 1][..i] == es[..i];
    }
  }

  lemma StepAt(n: Net, es: seq<Event>, i: nat)
    requires IsRun(n, es) && i < |es|
    ensures Enabled(After(n, es[..i]), es[i]) && After(n, es[..i + 1]) == Step(After(n, es[..i]), es[i])
  {
    PrefixIsRun(n, es, i + 1);
    assert es[..i + 1][..i] == es[..i];
  }

  // Every run goes through such networks.
  ghost function TraceOf(n: Net, es: seq<Event>): (ms: seq<Net>)
    requires IsRun(n, es)
    ensures IsTrace(ms, es) && ms[0] == n && ms[|es|] == After(n, es)
  {
    assert es[..0] == [] && es[..|es|] == es;
    var ms := seq(|es| + 1, i requires 0 <= i <= |es| => After(n, es[..i]));
    assert forall i :: 0 <= i < |es| ==> Enabled(ms[i], es[i]) && ms[i + 1] == Step(ms[i], es[i]) by {
      forall i: nat | i < |es| ensures Enabled(ms[i], es[i]) && ms[i + 1] == Step(ms[i], es[i]) {
        StepAt(n, es, i);
      }
    }
    ms
  }

  // ---------------------------------------------------------------------
  // In terms of the caches

  // A copy of p reaches x.
  ghost predicate Reaches(n: Net, e: Event, p: Payload, x: Name) {
    Enabled(n, e) && e.Deliver? && n.flight[e.i].data == p && n.flight[e.i].dst == x
  }

  // A copy of p reaches a signpost that has accepted p and has forgotten it.
  ghost predicate Repeats(n: Net, e: Event, p: Payload) {
    exists x :: x in n.nodes && Reaches(n, e, p, x) && Accepted(n, p, x) && p !in n.nodes[x].cache
  }

  lemma StepAcceptsOnceIff(n: Net, e: Event, p: Payload)
    requires Enabled(n, e)
    ensures AcceptedOnce(Step(n, e), p) <==> AcceptedOnce(n, p) && !Repeats(n, e, p)
  {
    var m := Step(n, e);
    if e.Deliver? {
      DeliverLogs(n, e, p);
      var c := n.flight[e.i];
      var again := c.data == p && c.data !in n.nodes[c.dst].cache && Accepted(n, p, c.dst);
      assert again <==> Repeats(n, e, p) by {
        assert again ==> Reaches(n, e, p, c.dst);
      }
      forall x ensures multiset(m.log)[Acceptance(x, p)] >= multiset(n.log)[Acceptance(x, p)] {
      }
      if again {
        assert multiset(n.log)[Acceptance(c.dst, p)] >= 1;
        assert multiset(m.log)[Acceptance(c.dst, p)] >= 2;
      } else {
        NewEntryIsFirst(n, e, p);
      }
    } else {
      assert m.log == n.log;
    }
  }

  lemma NewEntryIsFirst(n: Net, e: Event, p: Payload)
    requires Enabled(n, e) && e.Deliver?
    requires var c := n.flight[e.i];
             !(c.data == p && c.data !in n.nodes[c.dst].cache && Accepted(n, p, c.dst))
    ensures AcceptedOnce(n, p) ==> AcceptedOnce(Step(n, e), p)
    ensures forall x :: multiset(Step(n, e).log)[Acceptance(x, p)] >= multiset(n.log)[Acceptance(x, p)]
  {
    var c, m := n.flight[e.i], Step(n, e);
    DeliverLogs(n, e, p);
    forall x ensures multiset(n.log)[Acceptance(x, p)] <= multiset(m.log)[Acceptance(x, p)]
      ensures multiset(n.log)[Acceptance(x, p)] <= 1 ==> multiset(m.log)[Acceptance(x, p)] <= 1
    {
      if c.data == p && c.data !in n.nodes[c.dst].cache && x == c.dst {
        assert Acceptance(x, p) !in n.log;
      }
    }
  }

  // In every run no signpost accepts p twice exactly when no copy reaches one that has
  // accepted p and forgotten it.
  lemma {:induction false} AcceptedOnceIff(ms: seq<Net>, es: seq<Event>, p: Payload, l: nat)
    requires IsTrace(ms, es) && AcceptedOnce(ms[0], p) && l <= |es|
    ensures AcceptedOnce(ms[l], p) <==> forall i :: 0 <= i < l ==> !Repeats(ms[i], es[i], p)
  {
    if l > 0 {
      AcceptedOnceIff(ms, es, p, l - 1);
      StepAcceptsOnceIff(ms[l - 1], es[l - 1], p);
    }
  }

  // ---------------------------------------------------------------------
  // In terms of the clock

  // x accepts p at the i-th event.
  ghost predicate AcceptsAt(ms: seq<Net>, es: seq<Event>, i: nat, p: Payload, x: Name) {
    && i < |es| < |ms| && x in ms[i].nodes && Reaches(ms[i], es[i], p, x) && p !in ms[i].nodes[x].cache
  }

  // At j, x prunes its cache more than 30 seconds after time t.
  ghost predicate PrunesAt(ms: seq<Net>, es: seq<Event>, j: nat, x: Name, t: int) {
    j < |es| < |ms| && es[j] == Prune(x) && ms[j].clock > t + 30
  }

  // x accepts p at i, prunes its cache more than 30 seconds later, at j, and is reached by
  // another copy after that, at k.
  ghost predicate LateCopy(ms: seq<Net>, es: seq<Event>, p: Payload, x: Name, i: nat, j: nat, k: nat) {
    && i < j < k < |es| < |ms| && AcceptsAt(ms, es, i, p, x) && PrunesAt(ms, es, j, x, ms[i].clock)
    && Reaches(ms[k], es[k], p, x)
  }

  // The run starts in a sound network in which nobody has accepted p, and originates p no
  // more.
  ghost predicate Undisturbed(ms: seq<Net>, es: seq<Event>, p: Payload) {
    && IsTrace(ms, es) && Spreads(p)
    && (forall i :: 0 <= i < |ms| ==> WellFormed(ms[i]))
    && (forall i :: 0 <= i < |es| ==> !Originates(ms[i], es[i], p))
    && forall x :: !Accepted(ms[0], p, x)
  }

  // What a step that is not the origin of p does to an entry for p
  lemma EntryStep(n: Net, e: Event, p: Payload, x: Name)
    requires WellFormed(n) && Enabled(n, e) && !Originates(n, e, p) && Spreads(p) && x in n.nodes
    ensures x in Step(n, e).nodes
    ensures var c, d := n.nodes[x].cache, Step(n, e).nodes[x].cache;
            if p in c then
              if e == Prune(x) && c[p] < n.clock - 30 then p !in d else p in d && d[p] == c[p]
            else if Reaches(n, e, p, x) then p in d && d[p] == n.clock
            else p !in d
  {
    StepKeepsGraph(n, e);
    if e.Deliver? {
      DeliveredPayload(n, e, p);
    }
  }

  // Since x accepted p at i, its entry has been there with that time, or a prune more than
  // 30 seconds later has come along.
  ghost predicate EntryFrom(ms: seq<Net>, es: seq<Event>, l: nat, p: Payload, x: Name, i: nat) {
    && i < l < |ms| && AcceptsAt(ms, es, i, p, x) && x in ms[l].nodes
    && (if p in ms[l].nodes[x].cache then ms[l].nodes[x].cache[p] == ms[i].clock
        else exists j :: i < j < l && PrunesAt(ms, es, j, x, ms[i].clock))
  }

  // An entry that the l-th event does not renew
  lemma EntryGoesOn(ms: seq<Net>, es: seq<Event>, p: Payload, x: Name, l: nat, i: nat)
    requires Undisturbed(ms, es, p) && l < |es| && EntryFrom(ms, es, l, p, x, i) && !AcceptsAt(ms, es, l, p, x)
    ensures EntryFrom(ms, es, l + 1, p, x, i)
  {
    EntryStep(ms[l], es[l], p, x);
    var c, d := ms[l].nodes[x].cache, ms[l + 1].nodes[x].cache;
    if p in c && p !in d {
      assert PrunesAt(ms, es, l, x, ms[i].clock);
    } else if p !in c {
      var j: nat :| i < j < l && PrunesAt(ms, es, j, x, ms[i].clock);
      assert i < j < l + 1;
    }
  }

  lemma {:induction false} EntriesAreFrom(ms: seq<Net>, es: seq<Event>, p: Payload, l: nat, x: Name)
    requires Undisturbed(ms, es, p) && l <= |es| && Accepted(ms[l], p, x)
    ensures exists i :: EntryFrom(ms, es, l, p, x, i)
    decreases l
  {
    if l > 0 {
      var k := l - 1;
      assert ms[k + 1] == Step(ms[k], es[k]);
      if AcceptsAt(ms, es, k, p, x) {
        EntryStep(ms[k], es[k], p, x);
        assert EntryFrom(ms, es, l, p, x, k);
      } else {
        AcceptedBefore(ms[k], es[k], p, x);
        EntriesAreFrom(ms, es, p, k, x);
        var i: nat :| EntryFrom(ms, es, k, p, x, i);
        EntryGoesOn(ms, es, p, x, k, i);
      }
    }
  }

  lemma AcceptedBefore(n: Net, e: Event, p: Payload, x: Name)
    requires Enabled(n, e) && Accepted(Step(n, e), p, x)
    requires !(x in n.nodes && Reaches(n, e, p, x) && p !in n.nodes[x].cache)
    ensures Accepted(n, p, x)
  {
    if e.Deliver? {
      DeliverLogs(n, e, p);
    }
  }

  lemma RepeatIsLate(ms: seq<Net>, es: seq<Event>, p: Payload, k: nat)
    requires Undisturbed(ms, es, p) && k < |es| && Repeats(ms[k], es[k], p)
    ensures exists x, i, j :: LateCopy(ms, es, p, x, i, j, k)
  {
    var x :| x in ms[k].nodes && Reaches(ms[k], es[k], p, x) && Accepted(ms[k], p, x) && p !in ms[k].nodes[x].cache;
    EntriesAreFrom(ms, es, p, k, x);
    var i: nat :| EntryFrom(ms, es, k, p, x, i);
    var j: nat :| i < j < k && PrunesAt(ms, es, j, x, ms[i].clock);
    assert LateCopy(ms, es, p, x, i, j, k);
  }

  // x has accepted p, and an entry for p can only be from time t; or it is gone.
  ghost predicate Entry(m: Net, p: Payload, x: Name, t: int, gone: bool) {
    && x in m.nodes && Accepted(m, p, x)
    && (p in m.nodes[x].cache ==> !gone && m.nodes[x].cache[p] == t)
  }

  lemma UnrepeatedStep(m: Net, e: Event, p: Payload, x: Name, t: int, gone: bool)
    requires WellFormed(m) && Enabled(m, e) && !Originates(m, e, p) && Spreads(p)
    requires Entry(m, p, x, t, gone) && !Repeats(m, e, p)
    ensures Entry(Step(m, e), p, x, t, gone || (e == Prune(x) && m.clock > t + 30))
  {
    EntryStep(m, e, p, x);
    if e.Deliver? {
      DeliverLogs(m, e, p);
    }
  }

  lemma FirstStep(m: Net, e: Event, p: Payload, x: Name)
    requires WellFormed(m) && Enabled(m, e) && !Originates(m, e, p) && Spreads(p) && x in m.nodes
    requires Reaches(m, e, p, x) && p !in m.nodes[x].cache
    ensures Entry(Step(m, e), p, x, m.clock, false)
  {
    EntryStep(m, e, p, x);
    DeliverLogs(m, e, p);
  }

  // From the acceptance at i on, as long as nothing is repeated
  lemma {:induction false} EntryUntil(ms: seq<Net>, es: seq<Event>, p: Payload, x: Name, i: nat, j: nat, l: nat)
    requires Undisturbed(ms, es, p) && AcceptsAt(ms, es, i, p, x) && PrunesAt(ms, es, j, x, ms[i].clock)
    requires i < j && i < l <= |es| && forall k :: i < k < l ==> !Repeats(ms[k], es[k], p)
    ensures Entry(ms[l], p, x, ms[i].clock, l > j)
    decreases l
  {
    var k := l - 1;
    assert ms[k + 1] == Step(ms[k], es[k]);
    if k == i {
      FirstStep(ms[i], es[i], p, x);
    } else {
      EntryUntil(ms, es, p, x, i, j, k);
      UnrepeatedStep(ms[k], es[k], p, x, ms[i].clock, k > j);
    }
  }

  lemma LateCopyRepeats(ms: seq<Net>, es: seq<Event>, p: Payload, x: Name, i: nat, j: nat, k: nat)
    requires Undisturbed(ms, es, p) && LateCopy(ms, es, p, x, i, j, k)
    ensures exists l :: 0 <= l < |es| && Repeats(ms[l], es[l], p)
  {
    if forall l :: i < l < k ==> !Repeats(ms[l], es[l], p) {
      EntryUntil(ms, es, p, x, i, j, k);
      assert Repeats(ms[k], es[k], p);
    }
  }

  // A signpost accepts p twice exactly when, more than 30 seconds after it accepted p, it
  // prunes its cache and is reached by another copy after that.
  lemma AcceptedTwiceIff(ms: seq<Net>, es: seq<Event>, p: Payload)
    requires Undisturbed(ms, es, p)
    ensures !AcceptedOnce(ms[|es|], p) <==> exists x, i, j, k :: LateCopy(ms, es, p, x, i, j, k)
  {
    NobodyTwiceYet(ms[0], p);
    AcceptedOnceIff(ms, es, p, |es|);
    if l :| 0 <= l < |es| && Repeats(ms[l], es[l], p) {
      RepeatIsLate(ms, es, p, l);
    }
    if x, i, j, k :| LateCopy(ms, es, p, x, i, j, k) {
      LateCopyRepeats(ms, es, p, x, i, j, k);
    }
  }

  lemma NobodyTwiceYet(n: Net, p: Payload)
    requires forall x :: !Accepted(n, p, x)
    ensures AcceptedOnce(n, p)
  {
    forall x ensures multiset(n.log)[Acceptance(x, p)] <= 1 {
      assert !Accepted(n, p, x);
    }
  }

  // ---------------------------------------------------------------------
  // Every flood

  lemma {:induction false} NotOriginated(n: Net, es: seq<Event>, p: Payload, i: nat)
    requires IsRun(n, es) && NoNewOrigin(n, es, p) && i < |es|
    ensures Enabled(After(n, es[..i]), es[i]) && !Originates(After(n, es[..i]), es[i], p)
    decreases |es|
  {
    var k := |es| - 1;
    StepAt(n, es, i);
    if i < k {
      PrefixIsRun(n, es, k);
      LastNotOriginated(n, es, p);
      assert es[..k][i] == es[i] && es[..k][..i] == es[..i];
      NotOriginated(n, es[..k], p, i);
    } else {
      LastNotOriginated(n, es, p);
    }
  }

  lemma LastNotOriginated(n: Net, es: seq<Event>, p: Payload)
    requires IsRun(n, es) && NoNewOrigin(n, es, p) && es != []
    ensures var init := es[..|es| - 1];
            && IsRun(n, init) && NoNewOrigin(n, init, p) && Enabled(After(n, init), es[|es| - 1])
            && !Originates(After(n, init), es[|es| - 1], p)
  {
  }

  lemma {:induction false} TraceIsSound(ms: seq<Net>, es: seq<Event>, i: nat)
    requires IsTrace(ms, es) && WellFormed(ms[0]) && i <= |es|
    ensures WellFormed(ms[i])
  {
    if i > 0 {
      TraceIsSound(ms, es, i - 1);
      StepKeepsGraph(ms[i - 1], es[i - 1]);
    }
  }

  // In every flood, in every delivery order, a signpost accepts the payload twice exactly
  // when a copy reaches it after it has pruned an entry more than 30 seconds old.
  lemma FloodAcceptsTwiceIff(n: Net, e: Event, es: seq<Event>, p: Payload)
    requires Starts(n, e, p) && IsRun(Step(n, e), es) && NoNewOrigin(Step(n, e), es, p)
    ensures !AcceptedOnce(After(Step(n, e), es), p)
            <==> exists x, i, j, k :: LateCopy(TraceOf(Step(n, e), es), es, p, x, i, j, k)
  {
    var s := Step(n, e);
    var ms := TraceOf(s, es);
    StepKeepsGraph(n, e);
    assert s.log == n.log;
    forall i | 0 <= i < |ms| ensures WellFormed(ms[i]) {
      TraceIsSound(ms, es, i);
    }
    forall i: nat | i < |es| ensures !Originates(ms[i], es[i], p) {
      NotOriginated(s, es, p, i);
    }
    AcceptedTwiceIff(ms, es, p);
  }
}
