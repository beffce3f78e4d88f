// Answers to gimme_truths that happen to be a payload on its way: such an answer goes to
// the asker alone, who does not send it back, so whoever gave it may be left out.
module FloodReplies {
  import opened CommsAgent
  import opened Flood

  // ---------------------------------------------------------------------
  // Who is reached

  // Copies come from signposts that hold p or have answered with it; whoever holds p has
  // reached, or is about to reach, all its neighbours but those that answered.
  ghost predicate Leaking(n: Net, p: Payload, os: set<Name>, rs: set<Name>) {
    && (forall c :: c in n.flight && c.data == p ==> Holds(n, p, os, c.src) || c.src in rs)
    && (forall x, y :: x in n.nodes && Holds(n, p, os, x) && y in n.nodes[x].channels ==>
          Holds(n, p, os, y) || InFlight(n, p, x, y) || y in rs)
  }

  ghost predicate Reaching(n: Net, p: Payload, os: set<Name>, rs: set<Name>) {
    WellFormed(n) && Spreads(p) && os <= n.nodes.Keys && CachedWhereHeld(n, p, os) && Leaking(n, p, os, rs)
  }

  // One copy goes and others come; those in `heard` hold p from now on.
  lemma StaysLeaking(n: Net, m: Net, p: Payload, os: set<Name>, rs: set<Name>, os': set<Name>, rs': set<Name>,
                     gone: Copy, copies: seq<Copy>, heard: set<Name>)
    requires Leaking(n, p, os, rs) && SameGraph(n, m) && Replaces(n, m, gone, copies) && rs <= rs'
    requires forall x :: Holds(m, p, os', x) <==> Holds(n, p, os, x) || x in heard
    requires gone.data == p ==> Holds(m, p, os', gone.dst)
    requires forall c :: c in copies && c.data == p ==> Holds(m, p, os', c.src) || c.src in rs'
    requires forall x, y :: x in heard && x in n.nodes && y in n.nodes[x].channels ==>
               Holds(m, p, os', y) || Copy(x, y, p) in copies || y in rs'
    ensures Leaking(m, p, os', rs')
  {
    forall c | c in m.flight && c.data == p ensures Holds(m, p, os', c.src) || c.src in rs' {
      assert c in n.flight || c in copies;
    }
    forall x, y | x in m.nodes && Holds(m, p, os', x) && y in m.nodes[x].channels
      ensures Holds(m, p, os', y) || InFlight(m, p, x, y) || y in rs'
    {
      if x in heard {
        assert Copy(x, y, p) in copies ==> InFlight(m, p, x, y);
      } else {
        assert Holds(n, p, os, y) || InFlight(n, p, x, y) || y in rs;
        assert Copy(x, y, p) == gone ==> y == gone.dst;
      }
    }
  }

  // p is delivered.
  lemma DeliveryReaches(n: Net, e: Event, p: Payload, os: set<Name>, rs: set<Name>)
    requires Reaching(n, p, os, rs) && Enabled(n, e) && e.Deliver? && n.flight[e.i].data == p
    ensures Reaching(Step(n, e), p, os, rs)
  {
    var c, m := n.flight[e.i], Step(n, e);
    var r := Received(n.nodes[c.dst], c.src, c.data, n.clock, e.answers);
    StepKeepsGraph(n, e);
    DeliverLogs(n, e, p);
    DeliverReplaces(n, e);
    DeliverKeepsCached(n, e, p, os);
    assert c in n.flight;
    if r.accepted {
      CopyTargets(n.nodes[c.dst].name, n.nodes[c.dst].channels, c.src, p);
      assert r.sent == CopiesTo(c.dst, n.nodes[c.dst].channels, c.src, p);
      StaysLeaking(n, m, p, os, rs, os, rs, c, r.sent, {c.dst});
    } else {
      StaysLeaking(n, m, p, os, rs, os, rs, c, [], {});
    }
  }

  // The signpost that answers with p in this step
  ghost function NewAnswerer(n: Net, e: Event, p: Payload): set<Name>
    requires Enabled(n, e)
  {
    if e.Deliver? && Originates(n, e, p) then {n.flight[e.i].dst} else {}
  }

  lemma OtherDeliveryCaches(n: Net, e: Event, p: Payload, os: set<Name>)
    requires CachedWhereHeld(n, p, os) && Enabled(n, e) && e.Deliver? && n.flight[e.i].data != p
    ensures CachedWhereHeld(Step(n, e), p, os)
    ensures forall x :: Accepted(Step(n, e), p, x) <==> Accepted(n, p, x)
  {
    DeliverLogs(n, e, p);
    DeliverTouchesOne(n, e);
  }

  lemma OtherDeliverySends(n: Net, e: Event, p: Payload)
    requires WellFormed(n) && Enabled(n, e) && e.Deliver? && n.flight[e.i].data != p
    ensures var c := n.flight[e.i];
            forall d :: d in Received(n.nodes[c.dst], c.src, c.data, n.clock, e.answers).sent && d.data == p ==>
              d.src in NewAnswerer(n, e, p)
  {
    var c := n.flight[e.i];
    var x := n.nodes[c.dst];
    CopyTargets(x.name, x.channels, c.src, c.data);
    forall d | d in Received(x, c.src, c.data, n.clock, e.answers).sent && d.data == p
      ensures d.src in NewAnswerer(n, e, p)
    {
      assert d in Reply(x, c.src, c.data, e.answers);
    }
  }

  // Something else is delivered, and perhaps answered with p.
  lemma OtherDeliveryReaches(n: Net, e: Event, p: Payload, os: set<Name>, rs: set<Name>)
    requires Reaching(n, p, os, rs) && Enabled(n, e) && e.Deliver? && n.flight[e.i].data != p
    ensures Reaching(Step(n, e), p, os, rs + NewAnswerer(n, e, p))
  {
    var c, m := n.flight[e.i], Step(n, e);
    var r := Received(n.nodes[c.dst], c.src, c.data, n.clock, e.answers);
    StepKeepsGraph(n, e);
    DeliverReplaces(n, e);
    OtherDeliveryCaches(n, e, p, os);
    OtherDeliverySends(n, e, p);
    StaysLeaking(n, m, p, os, rs, os, rs + NewAnswerer(n, e, p), c, r.sent, {});
  }

  // A payload is sent to all neighbours, perhaps p.
  lemma SendingReaches(n: Net, e: Event, p: Payload, os: set<Name>, rs: set<Name>, data: Payload, copies: seq<Copy>)
    requires Reaching(n, p, os, rs) && Enabled(n, e) && (e.Distribute? || e.AskRemotely?)
    requires data == if e.Distribute? then Truths(e.truths) else Resolve(e.query)
    requires Step(n, e).flight == n.flight + copies
    requires forall c :: c in copies <==> c == Copy(e.at, c.dst, data) && c.dst in n.nodes[e.at].channels
    ensures Leaking(Step(n, e), p, os + NewOrigin(n, e, p), rs)
  {
    var m, none := Step(n, e), Copy([], [], ListOfSignposts);
    StepKeepsGraph(n, e);
    assert m.log == n.log;
    StaysLeaking(n, m, p, os, rs, os + NewOrigin(n, e, p), rs, none, copies, NewOrigin(n, e, p));
  }

  lemma CachedAfterOther(n: Net, e: Event, p: Payload, os: set<Name>)
    requires CachedWhereHeld(n, p, os) && Enabled(n, e) && !e.Deliver?
    ensures CachedWhereHeld(Step(n, e), p, os + NewOrigin(n, e, p))
  {
    assert Step(n, e).log == n.log;
  }

  // The remaining steps
  lemma OtherStepReaches(n: Net, e: Event, p: Payload, os: set<Name>, rs: set<Name>)
    requires Reaching(n, p, os, rs) && Enabled(n, e) && !e.Deliver?
    ensures Reaching(Step(n, e), p, os + NewOrigin(n, e, p), rs)
  {
    StepKeepsGraph(n, e);
    CachedAfterOther(n, e, p, os);
    if e.Distribute? || e.AskRemotely? {
      var c := n.nodes[e.at];
      var data := if e.Distribute? then Truths(e.truths) else Resolve(e.query);
      CopyTargetsAll(c.name, c.channels, data);
      CopyTargets(c.name, c.channels, c.name, data);
      var copies := if e.Distribute? then CopiesToAll(c.name, c.channels, data)
                    else CopiesTo(c.name, c.channels, c.name, data);
      SendingReaches(n, e, p, os, rs, data, copies);
    } else {
      StaysLeaking(n, Step(n, e), p, os, rs, os + NewOrigin(n, e, p), rs, Copy([], [], ListOfSignposts), [], {});
    }
  }

  // The signposts that answer with p on the way
  ghost function Answerers(n: Net, es: seq<Event>, p: Payload): set<Name>
    requires IsRun(n, es)
  {
    if es == [] then {}
    else
      assert IsRun(n, es[..|es| - 1]);
      Answerers(n, es[..|es| - 1], p) + NewAnswerer(After(n, es[..|es| - 1]), es[|es| - 1], p)
  }

  lemma StepReaches(n: Net, e: Event, p: Payload, os: set<Name>, rs: set<Name>)
    requires Reaching(n, p, os, rs) && Enabled(n, e)
    ensures Reaching(Step(n, e), p, os + NewOrigin(n, e, p), rs + NewAnswerer(n, e, p))
  {
    assert os + {} == os && rs + {} == rs;
    if !e.Deliver? {
      OtherStepReaches(n, e, p, os, rs);
    } else if n.flight[e.i].data == p {
      DeliveryReaches(n, e, p, os, rs);
    } else {
      OtherDeliveryReaches(n, e, p, os, rs);
    }
  }

  lemma {:induction false} RunReaches(n: Net, es: seq<Event>, p: Payload, os: set<Name>)
    requires Reaching(n, p, os, {}) && IsRun(n, es)
    ensures Reaching(After(n, es), p, os + Origins(n, es, p), Answerers(n, es, p)) && SameGraph(n, After(n, es))
  {
    if es == [] {
      assert os + {} == os;
    } else {
      var init, e := es[..|es| - 1], es[|es| - 1];
      var m := After(n, init);
      assert IsRun(n, init);
      StepKeepsGraph(m, e);
      RunReaches(n, init, p, os);
      var os', rs' := os + Origins(n, init, p), Answerers(n, init, p);
      StepReaches(m, e, p, os', rs');
      assert os + Origins(n, es, p) == os' + NewOrigin(m, e, p);
      assert Answerers(n, es, p) == rs' + NewAnswerer(m, e, p);
    }
  }

  ghost predicate Connected(n: Net, os: set<Name>, x: Name) {
    exists path :: IsPath(n, path) && path[0] in os && path[|path| - 1] == x
  }

  lemma {:induction false} QuietReaches(n: Net, p: Payload, os: set<Name>, rs: set<Name>, path: seq<Name>)
    requires Reaching(n, p, os, rs) && Quiet(n, p) && IsPath(n, path) && path[0] in os
    requires forall x :: Connected(n, os, x) && x in rs ==> Holds(n, p, os, x)
    ensures Holds(n, p, os, path[|path| - 1]) && path[|path| - 1] in n.nodes
  {
    if |path| > 1 {
      var init := path[..|path| - 1];
      assert IsPath(n, init);
      QuietReaches(n, p, os, rs, init);
      var x, y := init[|init| - 1], path[|path| - 1];
      assert x == path[|path| - 2] && y in n.nodes[x].channels;
      assert Connected(n, os, y) && !InFlight(n, p, x, y);
    }
  }

  // In every run, answers and further origins included: once no copy is in flight, the
  // payload has reached all that an origin is connected to exactly when it has reached
  // those of them that answered with it.
  lemma FloodReachesIff(n: Net, e: Event, es: seq<Event>, p: Payload)
    requires Starts(n, e, p) && IsRun(Step(n, e), es) && Quiet(After(Step(n, e), es), p)
    ensures var m, os := After(Step(n, e), es), {e.at} + Origins(Step(n, e), es, p);
            (forall x :: Connected(n, os, x) ==> Accepted(m, p, x) || x in os) <==>
              forall x :: Connected(n, os, x) && x in Answerers(Step(n, e), es, p) ==> Accepted(m, p, x) || x in os
  {
    var first := Step(n, e);
    var m, os, rs := After(first, es), {e.at} + Origins(first, es, p), Answerers(first, es, p);
    StartReaches(n, e, p);
    StepKeepsGraph(n, e);
    RunReaches(first, es, p, {e.at});
    SameConnections(n, m, os);
    if forall x :: Connected(n, os, x) && x in rs ==> Accepted(m, p, x) || x in os {
      forall x | Connected(n, os, x) ensures Holds(m, p, os, x) {
        assert Connected(m, os, x);
        var path :| IsPath(m, path) && path[0] in os && path[|path| - 1] == x;
        QuietReaches(m, p, os, rs, path);
      }
    }
  }

  lemma StartReaches(n: Net, e: Event, p: Payload)
    requires Starts(n, e, p)
    ensures Reaching(Step(n, e), p, {e.at}, {})
  {
    OriginStartsFlood(n, e, p);
  }

  lemma SameConnections(n: Net, m: Net, os: set<Name>)
    requires SameGraph(n, m)
    ensures forall x :: Connected(n, os, x) <==> Connected(m, os, x)
  {
    assert forall path :: IsPath(n, path) <==> IsPath(m, path);
  }

  // ---------------------------------------------------------------------
  // How somebody is left out

  // Four signposts in a row; y has just asked r for its truths.
  function Row(o: Name, y: Name, r: Name, z: Name): Net {
    Net([o, y, r, z],
        map[o := Centre(o, [y], map[], [], []), y := Centre(y, [o, r], map[], [], []),
            r := Centre(r, [y, z], map[], [], []), z := Centre(z, [r], map[], [], [])],
        [Copy(y, r, GimmeTruths)], 0, [Copy(y, r, GimmeTruths)], [], [])
  }

  ghost predicate Apart(o: Name, y: Name, r: Name, z: Name) {
    o != y && o != r && o != z && y != r && y != z && r != z
  }

  // What matters of a state on the way: the flight, and who has heard of p
  ghost predicate Stage(o: Name, y: Name, r: Name, z: Name, n: Net, p: Payload, flight: seq<Copy>, heard: set<Name>) {
    && Apart(o, y, r, z) && SameGraph(Row(o, y, r, z), n) && n.flight == flight
    && HeardBy(n, p, heard)
  }

  ghost predicate HeardBy(n: Net, p: Payload, heard: set<Name>) {
    && (forall x :: Accepted(n, p, x) <==> x in heard)
    && (forall x :: x in n.nodes ==> (p in n.nodes[x].cache <==> x in heard) && GimmeTruths !in n.nodes[x].cache)
  }

  lemma RowChannels(o: Name, y: Name, r: Name, z: Name)
    requires Apart(o, y, r, z)
    ensures var n := Row(o, y, r, z);
            && n.nodes.Keys == {o, y, r, z} && (forall x :: x in n.nodes ==> n.nodes[x].name == x)
            && n.nodes[o].channels == [y] && n.nodes[y].channels == [o, r]
            && n.nodes[r].channels == [y, z] && n.nodes[z].channels == [r]
  {
  }

  lemma RowWellFormed(o: Name, y: Name, r: Name, z: Name)
    requires Apart(o, y, r, z)
    ensures WellFormed(Row(o, y, r, z))
  {
    RowChannels(o, y, r, z);
  }

  lemma OnlyCopy(name: Name, x: Name, except: Name, p: Payload)
    ensures CopiesToAll(name, [x], p) == [Copy(name, x, p)]
    ensures CopiesTo(name, [x], except, p) == if x == except then [] else [Copy(name, x, p)]
  {
    assert [x][..0] == [];
  }

  lemma ChannelsNow(o: Name, y: Name, r: Name, z: Name, n: Net)
    requires Apart(o, y, r, z) && SameGraph(Row(o, y, r, z), n)
    ensures n.nodes.Keys == {o, y, r, z} && n.nodes[o].channels == [y] && n.nodes[y].channels == [o, r]
    ensures forall x :: x in n.nodes ==> n.nodes[x].name == x
  {
    RowChannels(o, y, r, z);
  }

  // o starts the flood.
  lemma RowStarts(o: Name, y: Name, r: Name, z: Name, p: Payload)
    requires Apart(o, y, r, z) && p.Truths?
    ensures Starts(Row(o, y, r, z), Distribute(o, p.truths), p)
  {
    RowWellFormed(o, y, r, z);
  }

  lemma RowStarted(o: Name, y: Name, r: Name, z: Name, p: Payload)
    requires Apart(o, y, r, z) && p.Truths?
    ensures Stage(o, y, r, z, Step(Row(o, y, r, z), Distribute(o, p.truths)), p,
                  [Copy(y, r, GimmeTruths), Copy(o, y, p)], {})
  {
    RowChannels(o, y, r, z);
    OnlyCopy(o, y, o, p);
  }

  // What a signpost makes of truths
  lemma TruthsReceived(c: Centre, from: Name, p: Payload, now: int, none: Answers)
    requires p.Truths?
    ensures var o := Received(c, from, p, now, none);
            && o.sent == (if p in c.cache then [] else CopiesTo(c.name, c.channels, from, p))
            && p in o.centre.cache && (GimmeTruths in o.centre.cache <==> GimmeTruths in c.cache)
  {
  }

  // A delivery of p
  lemma HeardByOneMore(n: Net, p: Payload, heard: set<Name>, i: nat, none: Answers)
    requires p.Truths? && HeardBy(n, p, heard) && Enabled(n, Deliver(i, none)) && n.flight[i].data == p
    ensures HeardBy(Step(n, Deliver(i, none)), p, heard + {n.flight[i].dst})
  {
    var e, c := Deliver(i, none), n.flight[i];
    TruthsReceived(n.nodes[c.dst], c.src, p, n.clock, none);
    DeliverTouchesOne(n, e);
    DeliverLogs(n, e, p);
  }

  lemma Heard(o: Name, y: Name, r: Name, z: Name, n: Net, p: Payload, flight: seq<Copy>, heard: set<Name>,
              i: nat, none: Answers, copies: seq<Copy>)
    requires p.Truths? && Stage(o, y, r, z, n, p, flight, heard) && i < |flight| && flight[i].dst in n.nodes
    requires flight[i].data == p
    requires copies == if flight[i].dst in heard then []
                       else CopiesTo(flight[i].dst, n.nodes[flight[i].dst].channels, flight[i].src, p)
    ensures Enabled(n, Deliver(i, none))
    ensures Stage(o, y, r, z, Step(n, Deliver(i, none)), p, flight[..i] + flight[i + 1..] + copies,
                  heard + {flight[i].dst})
  {
    var e := Deliver(i, none);
    ChannelsNow(o, y, r, z, n);
    TruthsReceived(n.nodes[flight[i].dst], flight[i].src, p, n.clock, none);
    DeliverMoves(n, e);
    HeardByOneMore(n, p, heard, i, none);
    StepKeepsGraph(n, e);
  }

  lemma Answered(o: Name, y: Name, r: Name, z: Name, n: Net, p: Payload, flight: seq<Copy>, answers: Answers)
    requires p.Truths? && p.truths != [] && answers.exports == p.truths
    requires Stage(o, y, r, z, n, p, flight, {}) && flight != [] && flight[0] == Copy(y, r, GimmeTruths)
    ensures Enabled(n, Deliver(0, answers))
    ensures Stage(o, y, r, z, Step(n, Deliver(0, answers)), p, flight[1..] + [Copy(r, y, p)], {})
  {
    RowChannels(o, y, r, z);
    DeliverTouchesOne(n, Deliver(0, answers));
    DeliverLogs(n, Deliver(0, answers), p);
    StepKeepsGraph(n, Deliver(0, answers));
    assert flight[..0] + flight[1..] == flight[1..];
  }

  lemma RunMore(n: Net, es: seq<Event>, e: Event)
    requires IsRun(n, es) && Enabled(After(n, es), e)
    ensures IsRun(n, es + [e]) && After(n, es + [e]) == Step(After(n, es), e)
  {
    assert (es + [e])[..|es|] == es;
  }

  lemma {:induction false} DeliveriesOriginateNowhere(n: Net, es: seq<Event>, p: Payload)
    requires IsRun(n, es) && forall e :: e in es ==> e.Deliver?
    ensures Origins(n, es, p) == {}
  {
    if es != [] {
      assert es[|es| - 1] in es && IsRun(n, es[..|es| - 1]);
      DeliveriesOriginateNowhere(n, es[..|es| - 1], p);
    }
  }

  // r answers y.
  lemma FirstDelivery(o: Name, y: Name, r: Name, z: Name, n: Net, p: Payload, a: Answers)
    requires p.Truths? && p.truths != [] && a.exports == p.truths
    requires Stage(o, y, r, z, n, p, [Copy(y, r, GimmeTruths), Copy(o, y, p)], {})
    ensures Enabled(n, Deliver(0, a))
    ensures Stage(o, y, r, z, Step(n, Deliver(0, a)), p, [Copy(o, y, p), Copy(r, y, p)], {})
  {
    var flight := [Copy(y, r, GimmeTruths), Copy(o, y, p)];
    Answered(o, y, r, z, n, p, flight, a);
    assert flight[1..] + [Copy(r, y, p)] == [Copy(o, y, p), Copy(r, y, p)];
  }

  // y passes the answer on to o only.
  lemma SecondDelivery(o: Name, y: Name, r: Name, z: Name, n: Net, p: Payload, a: Answers)
    requires p.Truths? && Stage(o, y, r, z, n, p, [Copy(o, y, p), Copy(r, y, p)], {})
    ensures Enabled(n, Deliver(1, a))
    ensures Stage(o, y, r, z, Step(n, Deliver(1, a)), p, [Copy(o, y, p), Copy(y, o, p)], {y})
  {
    var flight := [Copy(o, y, p), Copy(r, y, p)];
    ChannelsNow(o, y, r, z, n);
    PassedBack(y, o, r, p);
    Heard(o, y, r, z, n, p, flight, {}, 1, a, [Copy(y, o, p)]);
    assert flight[..1] + flight[2..] + [Copy(y, o, p)] == [Copy(o, y, p), Copy(y, o, p)];
    assert {} + {y} == {y};
  }

  lemma PassedBack(y: Name, o: Name, r: Name, p: Payload)
    requires o != r
    ensures CopiesTo(y, [o, r], r, p) == [Copy(y, o, p)]
  {
    OnlyCopy(y, o, r, p);
    assert [o, r][..1] == [o];
  }

  // o's own copy is ignored at y.
  lemma ThirdDelivery(o: Name, y: Name, r: Name, z: Name, n: Net, p: Payload, a: Answers)
    requires p.Truths? && Stage(o, y, r, z, n, p, [Copy(o, y, p), Copy(y, o, p)], {y})
    ensures Enabled(n, Deliver(0, a))
    ensures Stage(o, y, r, z, Step(n, Deliver(0, a)), p, [Copy(y, o, p)], {y})
  {
    var flight := [Copy(o, y, p), Copy(y, o, p)];
    ChannelsNow(o, y, r, z, n);
    Heard(o, y, r, z, n, p, flight, {y}, 0, a, []);
    assert flight[..0] + flight[1..] + [] == [Copy(y, o, p)];
    assert {y} + {y} == {y};
  }

  lemma FourthDelivery(o: Name, y: Name, r: Name, z: Name, n: Net, p: Payload, a: Answers)
    requires p.Truths? && Stage(o, y, r, z, n, p, [Copy(y, o, p)], {y})
    ensures Enabled(n, Deliver(0, a))
    ensures Stage(o, y, r, z, Step(n, Deliver(0, a)), p, [], {y, o})
  {
    var c := Copy(y, o, p);
    NothingToPassOn(o, y, r, z, n, p);
    Heard(o, y, r, z, n, p, [c], {y}, 0, a, []);
    NothingLeft(c);
    assert {y} + {o} == {y, o};
  }

  lemma NothingToPassOn(o: Name, y: Name, r: Name, z: Name, n: Net, p: Payload)
    requires Apart(o, y, r, z) && SameGraph(Row(o, y, r, z), n)
    ensures o in n.nodes && CopiesTo(o, n.nodes[o].channels, y, p) == []
  {
    ChannelsNow(o, y, r, z, n);
    OnlyCopy(o, y, y, p);
  }

  lemma NothingLeft(c: Copy)
    ensures [c][..0] + [c][1..] + [] == []
  {
  }

  lemma FourDeliveries(o: Name, y: Name, r: Name, z: Name, n: Net, p: Payload, a: Answers)
    returns (es: seq<Event>, m: Net)
    requires p.Truths? && p.truths != [] && a.exports == p.truths
    requires Stage(o, y, r, z, n, p, [Copy(y, r, GimmeTruths), Copy(o, y, p)], {})
    ensures IsRun(n, es) && After(n, es) == m && forall e :: e in es ==> e.Deliver?
    ensures Stage(o, y, r, z, m, p, [], {y, o})
  {
    FirstDelivery(o, y, r, z, n, p, a);
    var n1 := Step(n, Deliver(0, a));
    SecondDelivery(o, y, r, z, n1, p, a);
    var n2 := Step(n1, Deliver(1, a));
    ThirdDelivery(o, y, r, z, n2, p, a);
    var n3 := Step(n2, Deliver(0, a));
    FourthDelivery(o, y, r, z, n3, p, a);
    m := Step(n3, Deliver(0, a));
    es := Chained(n, Deliver(0, a), n1, Deliver(1, a), n2, Deliver(0, a), n3, Deliver(0, a), m);
  }

  lemma Chained(n: Net, e1: Event, n1: Net, e2: Event, n2: Net, e3: Event, n3: Net, e4: Event, m: Net)
    returns (es: seq<Event>)
    requires e1.Deliver? && e2.Deliver? && e3.Deliver? && e4.Deliver?
    requires Enabled(n, e1) && n1 == Step(n, e1) && Enabled(n1, e2) && n2 == Step(n1, e2)
    requires Enabled(n2, e3) && n3 == Step(n2, e3) && Enabled(n3, e4) && m == Step(n3, e4)
    ensures IsRun(n, es) && After(n, es) == m && forall e :: e in es ==> e.Deliver?
  {
    es := [];
    es := OneMore(n, es, e1, n1);
    es := OneMore(n, es, e2, n2);
    es := OneMore(n, es, e3, n3);
    es := OneMore(n, es, e4, m);
  }

  lemma OneMore(n: Net, es: seq<Event>, e: Event, m: Net) returns (all: seq<Event>)
    requires IsRun(n, es) && (forall d :: d in es ==> d.Deliver?) && e.Deliver?
    requires Enabled(After(n, es), e) && m == Step(After(n, es), e)
    ensures IsRun(n, all) && After(n, all) == m && forall d :: d in all ==> d.Deliver?
  {
    all := es + [e];
    RunMore(n, es, e);
  }

  // The flood that o starts ends with nothing in flight, and z, which o is connected to,
  // has not heard of p: y has it from r and does not send it back.
  lemma ReplyCutsOff(o: Name, y: Name, r: Name, z: Name, p: Payload) returns (es: seq<Event>)
    requires Apart(o, y, r, z) && p.Truths? && p.truths != []
    ensures var n, e := Row(o, y, r, z), Distribute(o, p.truths);
            && Starts(n, e, p) && IsPath(n, [o, y, r, z]) && IsRun(Step(n, e), es)
            && Origins(Step(n, e), es, p) == {} && Quiet(After(Step(n, e), es), p)
            && !Accepted(After(Step(n, e), es), p, z)
  {
    var n1, m;
    RowStarts(o, y, r, z, p);
    RowStarted(o, y, r, z, p);
    RowPath(o, y, r, z);
    n1 := Step(Row(o, y, r, z), Distribute(o, p.truths));
    es, m := FourDeliveries(o, y, r, z, n1, p, Answers(p.truths, []));
    DeliveriesOriginateNowhere(n1, es, p);
    assert z !in {y, o};
  }

  lemma RowPath(o: Name, y: Name, r: Name, z: Name)
    requires Apart(o, y, r, z)
    ensures IsPath(Row(o, y, r, z), [o, y, r, z])
  {
    RowChannels(o, y, r, z);
  }
}
