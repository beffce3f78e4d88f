// The gossip of psp/lib/tactic_solver/comms_agent.rb on a whole network: signposts,
// the copies in flight between them, and a clock. Channels stay as they are.
module Flood {
  import opened CommsAgent

  datatype Acceptance = Acceptance(node: Name, data: Payload)

  // sent, delivered and log are histories: every copy ever sent, every copy ever
  // delivered, and every payload a signpost did not ignore.
  datatype Net = Net(
    names: seq<Name>,
    nodes: map<Name, Centre>,
    flight: seq<Copy>,
    clock: int,
    sent: seq<Copy>,
    delivered: seq<Copy>,
    log: seq<Acceptance>)

  datatype Event =
    | Deliver(i: nat, answers: Answers)               // in any order
    | Distribute(at: Name, truths: seq<Truth>)
    | AskRemotely(at: Name, query: Query)
    | Prune(at: Name)
    | Tick(dt: nat)

  predicate Enabled(n: Net, e: Event) {
    match e
    case Deliver(i, _) => i < |n.flight| && n.flight[i].dst in n.nodes
    case Distribute(at, _) => at in n.nodes
    case AskRemotely(at, _) => at in n.nodes
    case Prune(at) => at in n.nodes
    case Tick(_) => true
  }

  function WithSent(n: Net, copies: seq<Copy>): Net {
    n.(flight := n.flight + copies, sent := n.sent + copies)
  }

  function Step(n: Net, e: Event): Net
    requires Enabled(n, e)
  {
    match e
    case Deliver(i, answers) =>
      var c := n.flight[i];
      var o := Received(n.nodes[c.dst], c.src, c.data, n.clock, answers);
      WithSent(n.(nodes := n.nodes[c.dst := o.centre], flight := n.flight[..i] + n.flight[i + 1..],
                  delivered := n.delivered + [c],
                  log := if o.accepted then n.log + [Acceptance(c.dst, c.data)] else n.log), o.sent)
    case Distribute(at, truths) =>
      WithSent(n, CopiesToAll(n.nodes[at].name, n.nodes[at].channels, Truths(truths)))
    case AskRemotely(at, query) =>
      var (c, sent) := Broadcast(n.nodes[at], Resolve(query), n.nodes[at].name, n.clock);
      WithSent(n.(nodes := n.nodes[at := c]), sent)
    case Prune(at) =>
      n.(nodes := n.nodes[at := n.nodes[at].(cache := Pruned(n.nodes[at].cache, n.clock))])
    case Tick(dt) => n.(clock := n.clock + dt)
  }

  // ---------------------------------------------------------------------
  // The channel graph

  // Channels go both ways and never lead back to the same signpost. Two signposts
  // may share more than one channel.
  ghost predicate WellFormed(n: Net) {
    && Listed(n)
    && (forall x :: x in n.nodes ==> n.nodes[x].name == x && x !in n.nodes[x].channels)
    && (forall x, y :: x in n.nodes && y in n.nodes[x].channels ==> y in n.nodes && x in n.nodes[y].channels)
  }

  ghost predicate SameGraph(n: Net, m: Net) {
    && n.names == m.names && n.nodes.Keys == m.nodes.Keys
    && forall x :: x in n.nodes ==> m.nodes[x].name == n.nodes[x].name && m.nodes[x].channels == n.nodes[x].channels
  }

  lemma StepKeepsGraph(n: Net, e: Event)
    requires Enabled(n, e)
    ensures SameGraph(n, Step(n, e))
    ensures WellFormed(n) ==> WellFormed(Step(n, e))
    ensures n.clock <= Step(n, e).clock
  {
  }

  // ---------------------------------------------------------------------
  // Who gets a copy

  lemma {:induction false} CopyTargets(name: Name, channels: seq<Name>, except: Name, data: Payload)
    ensures forall c :: c in CopiesTo(name, channels, except, data) <==>
                        c == Copy(name, c.dst, data) && c.dst in channels && c.dst != except
    ensures |CopiesTo(name, channels, except, data)| <= |channels|
    ensures except in channels ==> |CopiesTo(name, channels, except, data)| <= |channels| - 1
  {
    if channels != [] {
      var last := channels[|channels| - 1];
      CopyTargets(name, channels[..|channels| - 1], except, data);
      assert channels == channels[..|channels| - 1] + [last];
    }
  }

  lemma {:induction false} CopyTargetsAll(name: Name, channels: seq<Name>, data: Payload)
    ensures forall c :: c in CopiesToAll(name, channels, data) <==>
                        c == Copy(name, c.dst, data) && c.dst in channels
    ensures |CopiesToAll(name, channels, data)| == |channels|
  {
    if channels != [] {
      var last := channels[|channels| - 1];
      CopyTargetsAll(name, channels[..|channels| - 1], data);
      assert channels == channels[..|channels| - 1] + [last];
    }
  }

  // ---------------------------------------------------------------------
  // The life of one payload p, originated at o at time t0

  // The event makes a new copy of p other than by forwarding one.
  ghost predicate Originates(n: Net, e: Event, p: Payload)
    requires Enabled(n, e)
  {
    match e
    case Deliver(i, answers) =>
      var c := n.flight[i];
      c.data !in n.nodes[c.dst].cache && exists r :: r in Reply(n.nodes[c.dst], c.src, c.data, answers) && r.data == p
    case Distribute(_, truths) => p == Truths(truths)
    case AskRemotely(_, query) => p == Resolve(query)
    case Prune(_) => false
    case Tick(_) => false
  }

  ghost predicate Accepted(n: Net, p: Payload, x: Name) { Acceptance(x, p) in n.log }

  ghost predicate InFlight(n: Net, p: Payload, x: Name, y: Name) { Copy(x, y, p) in n.flight }

  // Nobody has heard of p.
  ghost predicate Unheard(n: Net, p: Payload) {
    && (forall c :: c in n.flight || c in n.sent || c in n.delivered ==> c.data != p)
    && (forall x :: x in n.nodes ==> p !in n.nodes[x].cache)
    && (forall a :: a in n.log ==> a.data != p)
  }

  ghost predicate Holds(n: Net, p: Payload, os: set<Name>, x: Name) { x in os || Accepted(n, p, x) }

  // Caches remember p from t0 on wherever it was accepted; elsewhere, only an origin
  // that broadcast it has cached it.
  ghost predicate Remembered(n: Net, p: Payload, os: set<Name>, t0: int) {
    && (forall x :: Accepted(n, p, x) ==> x in n.nodes && p in n.nodes[x].cache)
    && (forall x :: x in n.nodes && p in n.nodes[x].cache ==> n.nodes[x].cache[p] >= t0 && Holds(n, p, os, x))
  }

  ghost predicate AcceptedOnce(n: Net, p: Payload) {
    forall x :: multiset(n.log)[Acceptance(x, p)] <= 1
  }

  // Copies come from signposts that hold p; and whoever holds p has reached, or is
  // about to reach, all its neighbours.
  ghost predicate Spreading(n: Net, p: Payload, os: set<Name>) {
    && (forall c :: c in n.flight && c.data == p ==>
          c.src in n.nodes && Holds(n, p, os, c.src) && c.dst in n.nodes[c.src].channels)
    && (forall x, y :: x in n.nodes && Holds(n, p, os, x) && y in n.nodes[x].channels ==>
          Holds(n, p, os, y) || InFlight(n, p, x, y))
  }

  // Only those that hold p have cached it.
  ghost predicate CachedWhereHeld(n: Net, p: Payload, os: set<Name>) {
    forall x :: x in n.nodes && p in n.nodes[x].cache ==> Holds(n, p, os, x)
  }

  // What holds of the flood even when caches forget p
  ghost predicate Covering(n: Net, p: Payload, os: set<Name>) {
    WellFormed(n) && os <= n.nodes.Keys && Spreads(p) && CachedWhereHeld(n, p, os) && Spreading(n, p, os)
  }

  ghost predicate Flooding(n: Net, p: Payload, os: set<Name>, t0: int) {
    Covering(n, p, os) && n.clock >= t0 && Remembered(n, p, os, t0) && AcceptedOnce(n, p)
  }

  // The origin's own copies start it off.
  lemma OriginSpreads(n: Net, p: Payload, o: Name, m: Net, copies: seq<Copy>)
    requires WellFormed(n) && Unheard(n, p) && o in n.nodes
    requires SameGraph(n, m) && m.log == n.log && m.flight == n.flight + copies
    requires forall c :: c in copies <==> c == Copy(o, c.dst, p) && c.dst in n.nodes[o].channels
    ensures Spreading(m, p, {o}) && AcceptedOnce(m, p)
  {
    forall c | c in m.flight && c.data == p
      ensures c.src == o && c.dst in m.nodes[o].channels
    {
      assert c in n.flight || c in copies;
    }
    forall y | y in m.nodes[o].channels
      ensures InFlight(m, p, o, y)
    {
      assert Copy(o, y, p) in copies;
    }
    forall x
      ensures !Accepted(m, p, x) && multiset(m.log)[Acceptance(x, p)] == 0
    {
      assert Acceptance(x, p) !in m.log;
    }
  }

  lemma OriginStartsFlood(n: Net, e: Event, p: Payload)
    requires WellFormed(n) && Unheard(n, p)
    requires e.Distribute? || e.AskRemotely?
    requires Enabled(n, e) && Originates(n, e, p)
    ensures Flooding(Step(n, e), p, {e.at}, n.clock)
  {
    StepKeepsGraph(n, e);
    OriginSends(n, e, p);
    OriginRemembers(n, e, p);
  }

  lemma OriginSends(n: Net, e: Event, p: Payload)
    requires WellFormed(n) && Unheard(n, p)
    requires e.Distribute? || e.AskRemotely?
    requires Enabled(n, e) && Originates(n, e, p)
    ensures Spreading(Step(n, e), p, {e.at}) && AcceptedOnce(Step(n, e), p)
  {
    var c := n.nodes[e.at];
    var m := Step(n, e);
    StepKeepsGraph(n, e);
    if e.Distribute? {
      CopyTargetsAll(c.name, c.channels, p);
      OriginSpreads(n, p, e.at, m, CopiesToAll(c.name, c.channels, p));
    } else {
      CopyTargets(c.name, c.channels, c.name, p);
      OriginSpreads(n, p, e.at, m, CopiesTo(c.name, c.channels, c.name, p));
    }
  }

  lemma OriginRemembers(n: Net, e: Event, p: Payload)
    requires Unheard(n, p) && (e.Distribute? || e.AskRemotely?) && Enabled(n, e)
    ensures Remembered(Step(n, e), p, {e.at}, n.clock) && CachedWhereHeld(Step(n, e), p, {e.at})
  {
    var m := Step(n, e);
    assert m.log == n.log && forall x :: x in m.nodes && x != e.at ==> m.nodes[x] == n.nodes[x];
    assert forall x :: !Accepted(m, p, x);
    assert p in m.nodes[e.at].cache ==> m.nodes[e.at].cache[p] == n.clock;
  }

  // ---------------------------------------------------------------------
  // Every step keeps the flood going

  // A step that takes one copy out of flight and puts others in.
  ghost predicate Replaces(n: Net, m: Net, gone: Copy, copies: seq<Copy>) {
    && (forall c :: c in m.flight ==> c in n.flight || c in copies)
    && (forall c :: c in n.flight && c != gone ==> c in m.flight)
    && (forall c :: c in copies ==> c in m.flight)
  }

  lemma DeliverReplaces(n: Net, e: Event)
    requires Enabled(n, e) && e.Deliver?
    ensures var c := n.flight[e.i];
            Replaces(n, Step(n, e), c, Received(n.nodes[c.dst], c.src, c.data, n.clock, e.answers).sent)
  {
    var c := n.flight[e.i];
    var o := Received(n.nodes[c.dst], c.src, c.data, n.clock, e.answers);
    var m := Step(n, e);
    assert n.flight == n.flight[..e.i] + [c] + n.flight[e.i + 1..];
    assert m.flight == n.flight[..e.i] + n.flight[e.i + 1..] + o.sent;
  }

  // p is delivered to a signpost that has it in its cache: nothing is lost, since the
  // receiver holds p already.
  lemma IgnoredKeepsSpreading(n: Net, m: Net, p: Payload, os: set<Name>, c: Copy)
    requires Spreading(n, p, os) && SameGraph(n, m) && m.log == n.log
    requires Holds(n, p, os, c.dst) && Replaces(n, m, c, [])
    ensures Spreading(m, p, os)
  {
    forall x, y | x in m.nodes && Holds(m, p, os, x) && y in m.nodes[x].channels
      ensures Holds(m, p, os, y) || InFlight(m, p, x, y)
    {
      assert Holds(n, p, os, x) && y in n.nodes[x].channels;
      assert Holds(n, p, os, y) || InFlight(n, p, x, y);
      assert Holds(n, p, os, y) <==> Holds(m, p, os, y);
    }
  }

  // p is accepted: the receiver's neighbours either get a copy or gave it one.
  lemma AcceptedKeepsSpreading(n: Net, m: Net, p: Payload, os: set<Name>, c: Copy, copies: seq<Copy>)
    requires Spreading(n, p, os) && SameGraph(n, m)
    requires c in n.flight && c.data == p && c.dst in n.nodes
    requires m.log == n.log + [Acceptance(c.dst, p)] && Replaces(n, m, c, copies)
    requires forall d :: d in copies && d.data == p <==>
                         d == Copy(c.dst, d.dst, p) && d.dst in n.nodes[c.dst].channels && d.dst != c.src
    ensures Spreading(m, p, os)
  {
    assert Acceptance(c.dst, p) in m.log;
    assert forall x :: Holds(n, p, os, x) ==> Holds(m, p, os, x);
    assert forall x :: Holds(m, p, os, x) ==> Holds(n, p, os, x) || x == c.dst;
    assert Holds(n, p, os, c.src);
    forall x, y | x in m.nodes && Holds(m, p, os, x) && y in m.nodes[x].channels
      ensures Holds(m, p, os, y) || InFlight(m, p, x, y)
    {
      if x == c.dst {
        if y != c.src {
          assert Copy(x, y, p) in copies;
        }
      } else {
        assert Holds(n, p, os, x) && y in n.nodes[x].channels;
      }
    }
    forall d | d in m.flight && d.data == p
      ensures d.src in m.nodes && Holds(m, p, os, d.src) && d.dst in m.nodes[d.src].channels
    {
      assert d in n.flight || d in copies;
    }
  }

  // A step that adds or removes only copies of other payloads.
  lemma OthersKeepSpreading(n: Net, m: Net, p: Payload, os: set<Name>)
    requires Spreading(n, p, os) && SameGraph(n, m)
    requires forall x :: Accepted(n, p, x) <==> Accepted(m, p, x)
    requires forall c: Copy :: c.data == p ==> (c in n.flight <==> c in m.flight)
    ensures Spreading(m, p, os)
  {
    assert forall x :: Holds(n, p, os, x) <==> Holds(m, p, os, x);
    forall x, y | x in m.nodes && Holds(m, p, os, x) && y in m.nodes[x].channels
      ensures Holds(m, p, os, y) || InFlight(m, p, x, y)
    {
      assert Holds(n, p, os, x) && y in n.nodes[x].channels;
      assert Holds(n, p, os, y) || InFlight(n, p, x, y);
      assert Copy(x, y, p) in n.flight <==> Copy(x, y, p) in m.flight;
    }
  }

  // Reception, seen from p: the three cases of a delivery.
  lemma DeliveredPayload(n: Net, e: Event, p: Payload)
    requires WellFormed(n) && Enabled(n, e) && e.Deliver? && !Originates(n, e, p) && Spreads(p)
    ensures var c := n.flight[e.i];
            var o := Received(n.nodes[c.dst], c.src, c.data, n.clock, e.answers);
            && (p in o.centre.cache <==> p in n.nodes[c.dst].cache || (c.data == p && o.accepted))
            && (p in n.nodes[c.dst].cache ==> o.centre.cache[p] == n.nodes[c.dst].cache[p])
            && (p in o.centre.cache && p !in n.nodes[c.dst].cache ==> o.centre.cache[p] == n.clock)
            && (forall d :: d in o.sent && d.data == p <==>
                  c.data == p && o.accepted && d == Copy(c.dst, d.dst, p) &&
                  d.dst in n.nodes[c.dst].channels && d.dst != c.src)
  {
    var c := n.flight[e.i];
    var x := n.nodes[c.dst];
    CopyTargets(x.name, x.channels, c.src, c.data);
  }

  // The log of a delivery grows by at most one entry, and for p only by the receiver.
  lemma DeliverLogs(n: Net, e: Event, p: Payload)
    requires Enabled(n, e) && e.Deliver?
    ensures var c := n.flight[e.i];
            var accepted := c.data !in n.nodes[c.dst].cache;
            && Step(n, e).log == (if accepted then n.log + [Acceptance(c.dst, c.data)] else n.log)
            && forall x :: Accepted(Step(n, e), p, x) <==>
                           Accepted(n, p, x) || (accepted && c.data == p && x == c.dst)
  {
  }

  lemma DeliverAcceptsOnce(n: Net, e: Event, p: Payload)
    requires Enabled(n, e) && e.Deliver? && AcceptedOnce(n, p)
    requires forall x :: Accepted(n, p, x) ==> x in n.nodes && p in n.nodes[x].cache
    ensures AcceptedOnce(Step(n, e), p)
  {
    DeliverLogs(n, e, p);
    var c, m := n.flight[e.i], Step(n, e);
    forall x
      ensures multiset(m.log)[Acceptance(x, p)] <= 1
    {
      if c.data !in n.nodes[c.dst].cache && c.data == p && x == c.dst {
        assert !Accepted(n, p, x);
      }
    }
  }

  lemma DeliverKeepsRemembered(n: Net, e: Event, p: Payload, os: set<Name>, t0: int)
    requires WellFormed(n) && Remembered(n, p, os, t0) && n.clock >= t0
    requires Enabled(n, e) && e.Deliver? && !Originates(n, e, p) && Spreads(p)
    ensures Remembered(Step(n, e), p, os, t0)
  {
    DeliverLogs(n, e, p);
    DeliveredPayload(n, e, p);
    DeliverTouchesOne(n, e);
  }

  // A delivery changes no other signpost than the receiver.
  lemma DeliverTouchesOne(n: Net, e: Event)
    requires Enabled(n, e) && e.Deliver?
    ensures var c, m := n.flight[e.i], Step(n, e);
            && m.nodes.Keys == n.nodes.Keys
            && m.nodes[c.dst] == Received(n.nodes[c.dst], c.src, c.data, n.clock, e.answers).centre
            && forall x :: x in m.nodes && x != c.dst ==> m.nodes[x] == n.nodes[x]
  {
  }

  lemma DeliverKeepsCached(n: Net, e: Event, p: Payload, os: set<Name>)
    requires WellFormed(n) && CachedWhereHeld(n, p, os) && Spreads(p)
    requires Enabled(n, e) && e.Deliver? && !Originates(n, e, p)
    ensures CachedWhereHeld(Step(n, e), p, os)
  {
    DeliverLogs(n, e, p);
    DeliveredPayload(n, e, p);
    DeliverTouchesOne(n, e);
  }

  lemma DeliverKeepsCovering(n: Net, e: Event, p: Payload, os: set<Name>)
    requires Covering(n, p, os) && Enabled(n, e) && e.Deliver? && !Originates(n, e, p)
    ensures Covering(Step(n, e), p, os)
  {
    StepKeepsGraph(n, e);
    DeliverKeepsCached(n, e, p, os);
    DeliverLogs(n, e, p);
    DeliverReplaces(n, e);
    DeliveredPayload(n, e, p);
    var c, m := n.flight[e.i], Step(n, e);
    var r := Received(n.nodes[c.dst], c.src, c.data, n.clock, e.answers);
    if c.data == p {
      if r.accepted {
        AcceptedKeepsSpreading(n, m, p, os, c, r.sent);
      } else {
        IgnoredKeepsSpreading(n, m, p, os, c);
      }
    } else {
      assert forall x :: Accepted(n, p, x) <==> Accepted(m, p, x);
      OthersKeepSpreading(n, m, p, os);
    }
  }

  lemma DeliverKeepsFlooding(n: Net, e: Event, p: Payload, os: set<Name>, t0: int)
    requires Flooding(n, p, os, t0) && Enabled(n, e) && e.Deliver? && !Originates(n, e, p)
    ensures Flooding(Step(n, e), p, os, t0)
  {
    StepKeepsGraph(n, e);
    DeliverKeepsCovering(n, e, p, os);
    DeliverKeepsRemembered(n, e, p, os, t0);
    DeliverAcceptsOnce(n, e, p);
  }

  // The remaining steps do not touch the log, and add only copies of other payloads.
  lemma OtherStepsKeepSpreading(n: Net, e: Event, p: Payload, os: set<Name>)
    requires Spreading(n, p, os) && Enabled(n, e) && !e.Deliver? && !Originates(n, e, p)
    ensures Spreading(Step(n, e), p, os)
  {
    var m := Step(n, e);
    StepKeepsGraph(n, e);
    if e.Distribute? {
      CopyTargetsAll(n.nodes[e.at].name, n.nodes[e.at].channels, Truths(e.truths));
    } else if e.AskRemotely? {
      CopyTargets(n.nodes[e.at].name, n.nodes[e.at].channels, n.nodes[e.at].name, Resolve(e.query));
    }
    assert forall x :: Accepted(n, p, x) <==> Accepted(m, p, x);
    OthersKeepSpreading(n, m, p, os);
  }

  // A signpost prunes its entry for p.
  ghost predicate Forgets(n: Net, e: Event, p: Payload)
    requires Enabled(n, e)
  {
    e.Prune? && p in n.nodes[e.at].cache && p !in Pruned(n.nodes[e.at].cache, n.clock)
  }

  lemma OtherStepsKeepRemembered(n: Net, e: Event, p: Payload, os: set<Name>, t0: int)
    requires Remembered(n, p, os, t0) && t0 <= n.clock
    requires Enabled(n, e) && !e.Deliver? && !Originates(n, e, p) && !Forgets(n, e, p)
    ensures Remembered(Step(n, e), p, os, t0)
  {
    var m := Step(n, e);
    assert m.log == n.log;
    forall x | x in n.nodes
      ensures p in m.nodes[x].cache <==> p in n.nodes[x].cache
      ensures p in n.nodes[x].cache ==> m.nodes[x].cache[p] == n.nodes[x].cache[p]
    {
    }
  }

  // Whatever is forgotten, caches only shrink.
  lemma OtherStepsKeepCovering(n: Net, e: Event, p: Payload, os: set<Name>)
    requires Covering(n, p, os) && Enabled(n, e) && !e.Deliver? && !Originates(n, e, p)
    ensures Covering(Step(n, e), p, os)
  {
    var m := Step(n, e);
    StepKeepsGraph(n, e);
    OtherStepsKeepSpreading(n, e, p, os);
    assert m.log == n.log;
    forall x | x in m.nodes && p in m.nodes[x].cache ensures Holds(m, p, os, x) {
      assert p in n.nodes[x].cache && Holds(n, p, os, x);
    }
  }

  lemma OtherStepsKeepFlooding(n: Net, e: Event, p: Payload, os: set<Name>, t0: int)
    requires Flooding(n, p, os, t0) && Enabled(n, e) && !e.Deliver? && !Originates(n, e, p)
    requires !Forgets(n, e, p)
    ensures Flooding(Step(n, e), p, os, t0)
  {
    StepKeepsGraph(n, e);
    OtherStepsKeepCovering(n, e, p, os);
    OtherStepsKeepRemembered(n, e, p, os, t0);
    assert Step(n, e).log == n.log;
  }

  // ---------------------------------------------------------------------
  // Whole runs

  function Run(n: Net, es: seq<Event>): (r: (bool, Net)) {
    if es == [] then (true, n)
    else
      var (ok, m) := Run(n, es[..|es| - 1]);
      var e := es[|es| - 1];
      if ok && Enabled(m, e) then (true, Step(m, e)) else (false, m)
  }

  ghost predicate IsRun(n: Net, es: seq<Event>) { Run(n, es).0 }

  ghost function After(n: Net, es: seq<Event>): Net { Run(n, es).1 }

  // p is not originated again on the way.
  ghost predicate NoNewOrigin(n: Net, es: seq<Event>, p: Payload)
    requires IsRun(n, es)
  {
    if es == [] then true
    else
      assert IsRun(n, es[..|es| - 1]);
      NoNewOrigin(n, es[..|es| - 1], p) && !Originates(After(n, es[..|es| - 1]), es[|es| - 1], p)
  }

  // No entry for p ages out of a cache on the way.
  ghost predicate NothingForgotten(n: Net, es: seq<Event>, p: Payload)
    requires IsRun(n, es)
  {
    if es == [] then true
    else
      assert IsRun(n, es[..|es| - 1]);
      NothingForgotten(n, es[..|es| - 1], p) && !Forgets(After(n, es[..|es| - 1]), es[|es| - 1], p)
  }

  lemma {:induction false} RunFloods(n: Net, es: seq<Event>, p: Payload, os: set<Name>, t0: int)
    requires Flooding(n, p, os, t0) && IsRun(n, es) && NoNewOrigin(n, es, p)
    requires NothingForgotten(n, es, p)
    ensures Flooding(After(n, es), p, os, t0) && SameGraph(n, After(n, es))
  {
    if es != [] {
      var init, e := es[..|es| - 1], es[|es| - 1];
      var m := After(n, init);
      assert IsRun(n, init);
      StepKeepsGraph(m, e);
      RunFloods(n, init, p, os, t0);
      if e.Deliver? {
        DeliverKeepsFlooding(m, e, p, os, t0);
      } else {
        OtherStepsKeepFlooding(m, e, p, os, t0);
      }
    }
  }

  // No signpost answers gimme_truths with p on the way. Such an answer goes to the asker
  // alone, who does not send it back.
  ghost predicate NoReply(n: Net, es: seq<Event>, p: Payload)
    requires IsRun(n, es)
  {
    if es == [] then true
    else
      assert IsRun(n, es[..|es| - 1]);
      var m, e := After(n, es[..|es| - 1]), es[|es| - 1];
      NoReply(n, es[..|es| - 1], p) && !(e.Deliver? && Originates(m, e, p))
  }

  ghost function NewOrigin(n: Net, e: Event, p: Payload): set<Name>
    requires Enabled(n, e)
  {
    if !e.Deliver? && Originates(n, e, p) then {e.at} else {}
  }

  // The signposts that originate p on the way
  ghost function Origins(n: Net, es: seq<Event>, p: Payload): set<Name>
    requires IsRun(n, es)
  {
    if es == [] then {}
    else
      assert IsRun(n, es[..|es| - 1]);
      Origins(n, es[..|es| - 1], p) + NewOrigin(After(n, es[..|es| - 1]), es[|es| - 1], p)
  }

  // Another origin, which may have heard of p before, sends it to all its neighbours.
  lemma OriginJoins(n: Net, e: Event, p: Payload, os: set<Name>)
    requires Covering(n, p, os) && Enabled(n, e) && !e.Deliver? && Originates(n, e, p)
    ensures Covering(Step(n, e), p, os + {e.at})
  {
    var m, c := Step(n, e), n.nodes[e.at];
    StepKeepsGraph(n, e);
    CopyTargetsAll(c.name, c.channels, p);
    CopyTargets(c.name, c.channels, c.name, p);
    var copies := if e.Distribute? then CopiesToAll(c.name, c.channels, p)
                  else CopiesTo(c.name, c.channels, c.name, p);
    assert m.flight == n.flight + copies && m.log == n.log;
    JoinsSpreading(n, m, p, os, e.at, copies);
  }

  lemma JoinsSpreading(n: Net, m: Net, p: Payload, os: set<Name>, o: Name, copies: seq<Copy>)
    requires Spreading(n, p, os) && SameGraph(n, m) && m.log == n.log && m.flight == n.flight + copies
    requires o in n.nodes && forall c :: c in copies <==> c == Copy(o, c.dst, p) && c.dst in n.nodes[o].channels
    ensures Spreading(m, p, os + {o})
  {
    assert forall x :: Holds(m, p, os + {o}, x) <==> Holds(n, p, os, x) || x == o;
    forall x, y | x in m.nodes && Holds(m, p, os + {o}, x) && y in m.nodes[x].channels
      ensures Holds(m, p, os + {o}, y) || InFlight(m, p, x, y)
    {
      if x == o {
        assert Copy(o, y, p) in copies;
      } else {
        assert Holds(n, p, os, x) && y in n.nodes[x].channels;
      }
    }
    forall c | c in m.flight && c.data == p
      ensures c.src in m.nodes && Holds(m, p, os + {o}, c.src) && c.dst in m.nodes[c.src].channels
    {
      assert c in n.flight || c in copies;
    }
  }

  lemma StepCovers(n: Net, e: Event, p: Payload, os: set<Name>)
    requires Covering(n, p, os) && Enabled(n, e) && !(e.Deliver? && Originates(n, e, p))
    ensures Covering(Step(n, e), p, os + NewOrigin(n, e, p))
  {
    assert os + {} == os;
    if e.Deliver? {
      DeliverKeepsCovering(n, e, p, os);
    } else if Originates(n, e, p) {
      OriginJoins(n, e, p, os);
    } else {
      OtherStepsKeepCovering(n, e, p, os);
    }
  }

  // In every run, whatever the caches forget and whoever originates p again
  lemma {:induction false} RunCovers(n: Net, es: seq<Event>, p: Payload, os: set<Name>)
    requires Covering(n, p, os) && IsRun(n, es) && NoReply(n, es, p)
    ensures Covering(After(n, es), p, os + Origins(n, es, p)) && SameGraph(n, After(n, es))
  {
    if es == [] {
      assert os + {} == os;
    } else {
      var init, e := es[..|es| - 1], es[|es| - 1];
      var m := After(n, init);
      assert IsRun(n, init);
      StepKeepsGraph(m, e);
      RunCovers(n, init, p, os);
      StepCovers(m, e, p, os + Origins(n, init, p));
      assert os + Origins(n, es, p) == os + Origins(n, init, p) + NewOrigin(m, e, p);
    }
  }

  // An entry survives pruning for 30 seconds, so nothing is forgotten in a run that ends
  // within 30 seconds of the origin.
  lemma {:induction false} ShortRunForgetsNothing(n: Net, es: seq<Event>, p: Payload, os: set<Name>, t0: int)
    requires Flooding(n, p, os, t0) && IsRun(n, es) && NoNewOrigin(n, es, p)
    requires After(n, es).clock <= t0 + 30
    ensures NothingForgotten(n, es, p)
  {
    if es != [] {
      var init, e := es[..|es| - 1], es[|es| - 1];
      var m := After(n, init);
      assert IsRun(n, init);
      StepKeepsGraph(m, e);
      ShortRunForgetsNothing(n, init, p, os, t0);
      RunFloods(n, init, p, os, t0);
      assert !Forgets(m, e, p) by {
        if e.Prune? && p in m.nodes[e.at].cache {
          assert m.nodes[e.at].cache[p] >= t0;
        }
      }
    }
  }

  // A path along channels.
  ghost predicate IsPath(n: Net, path: seq<Name>) {
    && |path| > 0 && path[0] in n.nodes
    && forall i :: 0 <= i < |path| - 1 ==> path[i] in n.nodes && path[i + 1] in n.nodes[path[i]].channels
  }

  ghost predicate Quiet(n: Net, p: Payload) {
    forall c :: c in n.flight ==> c.data != p
  }

  lemma {:induction false} QuietReachesPath(n: Net, p: Payload, os: set<Name>, path: seq<Name>)
    requires Covering(n, p, os) && Quiet(n, p) && IsPath(n, path) && path[0] in os
    ensures Holds(n, p, os, path[|path| - 1]) && path[|path| - 1] in n.nodes
  {
    if |path| > 1 {
      var init := path[..|path| - 1];
      assert IsPath(n, init);
      QuietReachesPath(n, p, os, init);
      var x, y := init[|init| - 1], path[|path| - 1];
      assert x == path[|path| - 2] && y in n.nodes[x].channels;
      assert !InFlight(n, p, x, y);
    }
  }

  // A payload nobody has heard of is originated by e.
  ghost predicate Starts(n: Net, e: Event, p: Payload) {
    && WellFormed(n) && Unheard(n, p)
    && (e.Distribute? || e.AskRemotely?) && Enabled(n, e) && Originates(n, e, p)
  }

  // Flood coverage. Once no copy is in flight, every signpost that an origin is connected
  // to has accepted the payload or originated it, in every delivery order, whatever the
  // caches have forgotten and however often it is originated.
  lemma FloodReaches(n: Net, e: Event, es: seq<Event>, p: Payload, path: seq<Name>)
    requires Starts(n, e, p) && IsRun(Step(n, e), es) && NoReply(Step(n, e), es, p)
    requires IsPath(n, path) && path[0] in {e.at} + Origins(Step(n, e), es, p)
    ensures var m, x := After(Step(n, e), es), path[|path| - 1];
            Quiet(m, p) ==> Accepted(m, p, x) || x in {e.at} + Origins(Step(n, e), es, p)
  {
    var m := After(Step(n, e), es);
    OriginStartsFlood(n, e, p);
    StepKeepsGraph(n, e);
    RunCovers(Step(n, e), es, p, {e.at});
    if Quiet(m, p) {
      assert IsPath(m, path);
      QuietReachesPath(m, p, {e.at} + Origins(Step(n, e), es, p), path);
    }
  }

  lemma {:induction false} OneOriginOnly(n: Net, es: seq<Event>, p: Payload)
    requires IsRun(n, es) && NoNewOrigin(n, es, p)
    ensures NoReply(n, es, p) && Origins(n, es, p) == {}
  {
    if es != [] {
      assert IsRun(n, es[..|es| - 1]);
      OneOriginOnly(n, es[..|es| - 1], p);
    }
  }

  // As long as no entry for it ages out, no signpost accepts it twice.
  lemma FloodAcceptsOnce(n: Net, e: Event, es: seq<Event>, p: Payload)
    requires Starts(n, e, p) && IsRun(Step(n, e), es) && NoNewOrigin(Step(n, e), es, p)
    requires NothingForgotten(Step(n, e), es, p)
    ensures AcceptedOnce(After(Step(n, e), es), p)
  {
    OriginStartsFlood(n, e, p);
    StepKeepsGraph(n, e);
    RunFloods(Step(n, e), es, p, {e.at}, n.clock);
  }

  // Both together: exactly once.
  lemma FloodCoverage(n: Net, e: Event, es: seq<Event>, p: Payload, path: seq<Name>)
    requires Starts(n, e, p) && IsRun(Step(n, e), es) && NoNewOrigin(Step(n, e), es, p)
    requires NothingForgotten(Step(n, e), es, p)
    requires IsPath(n, path) && path[0] == e.at && path[|path| - 1] != e.at
    ensures var m := After(Step(n, e), es);
            Quiet(m, p) ==> multiset(m.log)[Acceptance(path[|path| - 1], p)] == 1
  {
    OneOriginOnly(Step(n, e), es, p);
    FloodReaches(n, e, es, p, path);
    FloodAcceptsOnce(n, e, es, p);
  }

  // ---------------------------------------------------------------------
  // Nobody else hears of it

  ghost predicate Closed(n: Net, r: set<Name>) {
    forall x, y :: x in n.nodes && x in r && y in n.nodes[x].channels ==> y in r
  }

  ghost predicate Outside(n: Net, p: Payload, r: set<Name>) {
    forall x :: x in r ==> !Accepted(n, p, x)
  }

  lemma DeliverStaysOutside(n: Net, e: Event, p: Payload, os: set<Name>, r: set<Name>)
    requires Covering(n, p, os) && Closed(n, r) && os !! r && Outside(n, p, r)
    requires Enabled(n, e) && e.Deliver?
    ensures Outside(Step(n, e), p, r)
  {
    DeliverLogs(n, e, p);
    var c := n.flight[e.i];
    assert c in n.flight;
    assert c.data == p ==> Holds(n, p, os, c.src) && c.src in n.nodes[c.dst].channels;
  }

  lemma {:induction false} RunStaysOutside(n: Net, es: seq<Event>, p: Payload, os: set<Name>, r: set<Name>)
    requires Covering(n, p, os) && IsRun(n, es) && NoReply(n, es, p)
    requires Closed(n, r) && (os + Origins(n, es, p)) !! r && Outside(n, p, r)
    ensures Outside(After(n, es), p, r)
  {
    if es != [] {
      var init, e := es[..|es| - 1], es[|es| - 1];
      var m := After(n, init);
      assert IsRun(n, init);
      StepKeepsGraph(m, e);
      RunCovers(n, init, p, os);
      RunStaysOutside(n, init, p, os, r);
      assert Closed(m, r);
      if e.Deliver? {
        DeliverStaysOutside(m, e, p, os + Origins(n, init, p), r);
      } else {
        assert Step(m, e).log == m.log;
      }
    }
  }

  // A group of signposts without channels to the rest, and without an origin, never
  // accepts the payload.
  lemma FloodStaysConnected(n: Net, e: Event, es: seq<Event>, p: Payload, r: set<Name>)
    requires Starts(n, e, p) && IsRun(Step(n, e), es) && NoReply(Step(n, e), es, p)
    requires Closed(n, r) && ({e.at} + Origins(Step(n, e), es, p)) !! r
    ensures Outside(After(Step(n, e), es), p, r)
  {
    OriginStartsFlood(n, e, p);
    StepKeepsGraph(n, e);
    assert Step(n, e).log == n.log;
    RunStaysOutside(Step(n, e), es, p, {e.at}, r);
  }

  // ---------------------------------------------------------------------
  // What acceptance does: truths reach the solver, queries the signpost they name

  function LearnedFrom(log: seq<Acceptance>, x: Name): seq<Truth> {
    if log == [] then []
    else
      var a := log[|log| - 1];
      LearnedFrom(log[..|log| - 1], x) + (if a.node == x && a.data.Truths? then a.data.truths else [])
  }

  function AskedFrom(log: seq<Acceptance>, x: Name): seq<Query> {
    if log == [] then []
    else
      var a := log[|log| - 1];
      AskedFrom(log[..|log| - 1], x) +
      (if a.node == x && a.data.Resolve? && a.data.query.signpost == x then [a.data.query] else [])
  }

  ghost predicate ActsOnLog(n: Net) {
    forall x :: x in n.nodes ==>
      n.nodes[x].learned == LearnedFrom(n.log, x) && n.nodes[x].asked == AskedFrom(n.log, x)
  }

  lemma DeliverActsOnLog(n: Net, e: Event)
    requires WellFormed(n) && ActsOnLog(n) && Enabled(n, e) && e.Deliver?
    ensures ActsOnLog(Step(n, e))
  {
    var c, m := n.flight[e.i], Step(n, e);
    if c.data !in n.nodes[c.dst].cache {
      assert m.log == n.log + [Acceptance(c.dst, c.data)];
      assert m.log[..|m.log| - 1] == n.log;
    }
    forall x | x in m.nodes
      ensures m.nodes[x].learned == LearnedFrom(m.log, x) && m.nodes[x].asked == AskedFrom(m.log, x)
    {
      assert x in n.nodes && n.nodes[x].learned == LearnedFrom(n.log, x);
    }
  }

  // In every run a signpost hands its solver exactly the truths of the payloads it
  // accepted, in order, and takes on exactly the accepted queries that name it.
  lemma {:induction false} RunActsOnLog(n: Net, es: seq<Event>)
    requires WellFormed(n) && ActsOnLog(n) && IsRun(n, es)
    ensures ActsOnLog(After(n, es)) && WellFormed(After(n, es))
  {
    if es != [] {
      var init, e := es[..|es| - 1], es[|es| - 1];
      var m := After(n, init);
      assert IsRun(n, init);
      RunActsOnLog(n, init);
      StepKeepsGraph(m, e);
      if e.Deliver? {
        DeliverActsOnLog(m, e);
      }
    }
  }

  // ---------------------------------------------------------------------
  // How many copies

  ghost function CountOf(s: seq<Copy>, p: Payload): nat {
    if s == [] then 0 else CountOf(s[..|s| - 1], p) + (if s[|s| - 1].data == p then 1 else 0)
  }

  lemma {:induction false} CountAppend(a: seq<Copy>, b: seq<Copy>, p: Payload)
    ensures CountOf(a + b, p) == CountOf(a, p) + CountOf(b, p)
  {
    if b == [] {
      assert a + b == a;
    } else {
      assert (a + b)[..|a + b| - 1] == a + b[..|b| - 1];
      CountAppend(a, b[..|b| - 1], p);
    }
  }

  lemma CountWithout(s: seq<Copy>, i: nat, p: Payload)
    requires i < |s|
    ensures CountOf(s[..i] + s[i + 1..], p) + (if s[i].data == p then 1 else 0) == CountOf(s, p)
  {
    assert s == s[..i] + ([s[i]] + s[i + 1..]);
    CountAppend(s[..i], [s[i]] + s[i + 1..], p);
    CountAppend([s[i]], s[i + 1..], p);
    CountAppend(s[..i], s[i + 1..], p);
    assert [s[i]][..0] == [];
  }

  lemma {:induction false} CountBounds(s: seq<Copy>, p: Payload)
    ensures CountOf(s, p) <= |s|
    ensures (forall c :: c in s ==> c.data != p) ==> CountOf(s, p) == 0
    ensures CountOf(s, p) == 0 ==> forall c :: c in s ==> c.data != p
  {
    if s != [] {
      assert s == s[..|s| - 1] + [s[|s| - 1]];
      CountBounds(s[..|s| - 1], p);
    }
  }

  // A signpost that accepts p sends at most this many copies: none goes back to the
  // sender.
  ghost function Fanout(n: Net, x: Name): nat
    requires x in n.nodes
  {
    if n.nodes[x].channels == [] then 0 else |n.nodes[x].channels| - 1
  }

  ghost predicate Listed(n: Net) {
    && (forall i, j :: 0 <= i < j < |n.names| ==> n.names[i] != n.names[j])
    && (forall x :: x in n.names <==> x in n.nodes)
  }

  // What the first k signposts may still send of p.
  ghost function Spare(n: Net, p: Payload, k: nat): nat
    requires k <= |n.names| && Listed(n)
  {
    if k == 0 then 0
    else Spare(n, p, k - 1) + (if Accepted(n, p, n.names[k - 1]) then 0 else Fanout(n, n.names[k - 1]))
  }

  // Copies of p in flight, plus those that may still be sent.
  ghost function Measure(n: Net, p: Payload): nat
    requires WellFormed(n)
  {
    CountOf(n.flight, p) + Spare(n, p, |n.names|)
  }

  lemma {:induction false} SpareKept(n: Net, m: Net, p: Payload, k: nat)
    requires Listed(n) && Listed(m) && SameGraph(n, m) && k <= |n.names|
    requires forall i :: 0 <= i < k ==> (Accepted(n, p, n.names[i]) <==> Accepted(m, p, n.names[i]))
    ensures Spare(m, p, k) == Spare(n, p, k)
  {
    if k > 0 {
      SpareKept(n, m, p, k - 1);
    }
  }

  lemma {:induction false} SpareDrops(n: Net, m: Net, p: Payload, k: nat, j: nat)
    requires Listed(n) && Listed(m) && SameGraph(n, m) && j < k <= |n.names|
    requires !Accepted(n, p, n.names[j]) && Accepted(m, p, n.names[j])
    requires forall i :: 0 <= i < k && i != j ==> (Accepted(n, p, n.names[i]) <==> Accepted(m, p, n.names[i]))
    ensures Spare(m, p, k) + Fanout(n, n.names[j]) == Spare(n, p, k)
  {
    if j == k - 1 {
      SpareKept(n, m, p, k - 1);
    } else {
      SpareDrops(n, m, p, k - 1, j);
    }
  }

  // The books: copies of p sent are delivered or in flight, and together with what
  // may still be sent they stay within the total.
  ghost predicate Accounted(n: Net, p: Payload, total: nat)
    requires WellFormed(n)
  {
    && CountOf(n.sent, p) == CountOf(n.delivered, p) + CountOf(n.flight, p)
    && CountOf(n.sent, p) + Spare(n, p, |n.names|) <= total
  }

  lemma SentOfP(n: Net, e: Event, p: Payload, os: set<Name>)
    requires Covering(n, p, os) && Enabled(n, e) && e.Deliver? && !Originates(n, e, p)
    ensures var c := n.flight[e.i];
            var r := Received(n.nodes[c.dst], c.src, c.data, n.clock, e.answers);
            CountOf(r.sent, p) <= if c.data == p && r.accepted then Fanout(n, c.dst) else 0
  {
    var c := n.flight[e.i];
    var x := n.nodes[c.dst];
    var r := Received(x, c.src, c.data, n.clock, e.answers);
    DeliveredPayload(n, e, p);
    CountBounds(r.sent, p);
    if c.data == p && r.accepted {
      assert c in n.flight;
      assert c.src in x.channels;
      CopyTargets(x.name, x.channels, c.src, p);
      assert Reply(x, c.src, c.data, e.answers) == [];
      assert r.sent == CopiesTo(x.name, x.channels, c.src, p);
    }
  }

  lemma DeliverMoves(n: Net, e: Event)
    requires Enabled(n, e) && e.Deliver?
    ensures var c, m := n.flight[e.i], Step(n, e);
            var r := Received(n.nodes[c.dst], c.src, c.data, n.clock, e.answers);
            && m.flight == n.flight[..e.i] + n.flight[e.i + 1..] + r.sent
            && m.sent == n.sent + r.sent && m.delivered == n.delivered + [c]
  {
  }

  lemma DeliverCounts(n: Net, e: Event, p: Payload)
    requires Enabled(n, e) && e.Deliver?
    ensures var c, m := n.flight[e.i], Step(n, e);
            var r := Received(n.nodes[c.dst], c.src, c.data, n.clock, e.answers);
            var d := if c.data == p then 1 else 0;
            && CountOf(m.flight, p) == CountOf(n.flight, p) - d + CountOf(r.sent, p)
            && CountOf(m.sent, p) == CountOf(n.sent, p) + CountOf(r.sent, p)
            && CountOf(m.delivered, p) == CountOf(n.delivered, p) + d
  {
    var c := n.flight[e.i];
    var r := Received(n.nodes[c.dst], c.src, c.data, n.clock, e.answers);
    DeliverMoves(n, e);
    CopiesCounted(n.flight, e.i, n.sent, n.delivered, r.sent, p);
  }

  lemma CopiesCounted(flight: seq<Copy>, i: nat, sent: seq<Copy>, delivered: seq<Copy>, more: seq<Copy>, p: Payload)
    requires i < |flight|
    ensures var d := if flight[i].data == p then 1 else 0;
            && CountOf(flight[..i] + flight[i + 1..] + more, p) == CountOf(flight, p) - d + CountOf(more, p)
            && CountOf(sent + more, p) == CountOf(sent, p) + CountOf(more, p)
            && CountOf(delivered + [flight[i]], p) == CountOf(delivered, p) + d
  {
    CountWithout(flight, i, p);
    CountAppend(flight[..i] + flight[i + 1..], more, p);
    CountAppend(sent, more, p);
    assert (delivered + [flight[i]])[..|delivered|] == delivered;
  }

  lemma DeliverSpends(n: Net, e: Event, p: Payload)
    requires Enabled(n, e) && e.Deliver?
    requires Listed(n) && Listed(Step(n, e)) && SameGraph(n, Step(n, e))
    requires forall x :: Accepted(n, p, x) ==> x in n.nodes && p in n.nodes[x].cache
    ensures var c := n.flight[e.i];
            Spare(Step(n, e), p, |n.names|) ==
            Spare(n, p, |n.names|) - (if c.data == p && p !in n.nodes[c.dst].cache then Fanout(n, c.dst) else 0)
  {
    var c, m := n.flight[e.i], Step(n, e);
    DeliverLogs(n, e, p);
    if c.data == p && p !in n.nodes[c.dst].cache {
      var j :| 0 <= j < |n.names| && n.names[j] == c.dst;
      SpareDrops(n, m, p, |n.names|, j);
    } else {
      SpareKept(n, m, p, |n.names|);
    }
  }

  // Each delivery of p uses up the measure, each other step keeps it; and the books
  // stay balanced. So the flood ends in every delivery order.
  lemma DeliverAccounts(n: Net, e: Event, p: Payload, os: set<Name>, t0: int, total: nat)
    requires Flooding(n, p, os, t0) && Accounted(n, p, total)
    requires Enabled(n, e) && e.Deliver? && !Originates(n, e, p)
    ensures WellFormed(Step(n, e)) && Accounted(Step(n, e), p, total)
    ensures Measure(Step(n, e), p) <= Measure(n, p) - (if n.flight[e.i].data == p then 1 else 0)
  {
    StepKeepsGraph(n, e);
    SentOfP(n, e, p, os);
    DeliverCounts(n, e, p);
    DeliverSpends(n, e, p);
  }

  lemma OtherStepsCount(n: Net, e: Event, p: Payload)
    requires Enabled(n, e) && !e.Deliver? && !Originates(n, e, p)
    ensures var m := Step(n, e);
            && CountOf(m.flight, p) == CountOf(n.flight, p) && CountOf(m.sent, p) == CountOf(n.sent, p)
            && m.delivered == n.delivered && m.log == n.log
  {
    if e.Distribute? {
      var copies := CopiesToAll(n.nodes[e.at].name, n.nodes[e.at].channels, Truths(e.truths));
      CopyTargetsAll(n.nodes[e.at].name, n.nodes[e.at].channels, Truths(e.truths));
      OtherCopies(n.flight, n.sent, copies, p);
    } else if e.AskRemotely? {
      var copies := CopiesTo(n.nodes[e.at].name, n.nodes[e.at].channels, n.nodes[e.at].name, Resolve(e.query));
      CopyTargets(n.nodes[e.at].name, n.nodes[e.at].channels, n.nodes[e.at].name, Resolve(e.query));
      OtherCopies(n.flight, n.sent, copies, p);
    }
  }

  lemma OtherStepsAccount(n: Net, e: Event, p: Payload, total: nat)
    requires WellFormed(n) && Accounted(n, p, total) && Enabled(n, e) && !e.Deliver? && !Originates(n, e, p)
    ensures WellFormed(Step(n, e)) && Accounted(Step(n, e), p, total)
    ensures Measure(Step(n, e), p) == Measure(n, p)
  {
    StepKeepsGraph(n, e);
    OtherStepsCount(n, e, p);
    SpareKept(n, Step(n, e), p, |n.names|);
  }

  lemma OtherCopies(flight: seq<Copy>, sent: seq<Copy>, copies: seq<Copy>, p: Payload)
    requires forall c :: c in copies ==> c.data != p
    ensures CountOf(flight + copies, p) == CountOf(flight, p) && CountOf(sent + copies, p) == CountOf(sent, p)
  {
    CountBounds(copies, p);
    CountAppend(flight, copies, p);
    CountAppend(sent, copies, p);
  }

  // The origin's degree plus the fan-out of every signpost.
  ghost function FloodTotal(n: Net, p: Payload, o: Name): nat
    requires WellFormed(n) && o in n.nodes
  {
    |n.nodes[o].channels| + Spare(n, p, |n.names|)
  }

  lemma OriginAccounts(n: Net, e: Event, p: Payload)
    requires WellFormed(n) && Unheard(n, p) && (e.Distribute? || e.AskRemotely?)
    requires Enabled(n, e) && Originates(n, e, p)
    ensures WellFormed(Step(n, e)) && Accounted(Step(n, e), p, FloodTotal(n, p, e.at))
  {
    var m, c := Step(n, e), n.nodes[e.at];
    StepKeepsGraph(n, e);
    SpareKept(n, m, p, |n.names|);
    var copies := if e.Distribute? then CopiesToAll(c.name, c.channels, p)
                  else CopiesTo(c.name, c.channels, c.name, p);
    CopyTargetsAll(c.name, c.channels, p);
    CopyTargets(c.name, c.channels, c.name, p);
    CountBounds(copies, p);
    CountBounds(n.sent, p);
    CountBounds(n.flight, p);
    CountBounds(n.delivered, p);
    CountAppend(n.flight, copies, p);
    CountAppend(n.sent, copies, p);
  }

  lemma {:induction false} RunAccounts(n: Net, es: seq<Event>, p: Payload, os: set<Name>, t0: int, total: nat)
    requires Flooding(n, p, os, t0) && IsRun(n, es) && NoNewOrigin(n, es, p)
    requires NothingForgotten(n, es, p) && Accounted(n, p, total)
    ensures WellFormed(After(n, es)) && Accounted(After(n, es), p, total)
  {
    if es != [] {
      var init, e := es[..|es| - 1], es[|es| - 1];
      var m := After(n, init);
      assert IsRun(n, init);
      StepKeepsGraph(m, e);
      RunFloods(n, init, p, os, t0);
      RunAccounts(n, init, p, os, t0, total);
      if e.Deliver? {
        DeliverAccounts(m, e, p, os, t0, total);
      } else {
        OtherStepsAccount(m, e, p, total);
      }
    }
  }

  // However the copies are delivered, and whatever cycles the graph has, one payload
  // is sent, and so delivered, at most as often as the origin's degree plus, for every
  // signpost, its degree less one.
  lemma FloodBound(n: Net, e: Event, es: seq<Event>, p: Payload)
    requires Starts(n, e, p)
    requires IsRun(Step(n, e), es) && NoNewOrigin(Step(n, e), es, p)
    requires NothingForgotten(Step(n, e), es, p)
    ensures var m := After(Step(n, e), es);
            CountOf(m.delivered, p) <= CountOf(m.sent, p) <= FloodTotal(n, p, e.at)
  {
    OriginStartsFlood(n, e, p);
    OriginAccounts(n, e, p);
    StepKeepsGraph(n, e);
    RunAccounts(Step(n, e), es, p, {e.at}, n.clock, FloodTotal(n, p, e.at));
  }

  // The fan-outs of those that accepted p, once for each time they did
  ghost function Forwarded(n: Net, log: seq<Acceptance>, p: Payload): nat {
    if log == [] then 0
    else
      var a := log[|log| - 1];
      Forwarded(n, log[..|log| - 1], p) + (if a.data == p && a.node in n.nodes then Fanout(n, a.node) else 0)
  }

  lemma {:induction false} ForwardedKept(n: Net, m: Net, log: seq<Acceptance>, p: Payload)
    requires SameGraph(n, m)
    ensures Forwarded(n, log, p) == Forwarded(m, log, p)
  {
    if log != [] {
      ForwardedKept(n, m, log[..|log| - 1], p);
    }
  }

  lemma ForwardedMore(n: Net, log: seq<Acceptance>, a: Acceptance, p: Payload)
    requires a.node in n.nodes
    ensures Forwarded(n, log + [a], p) == Forwarded(n, log, p) + (if a.data == p then Fanout(n, a.node) else 0)
  {
    assert (log + [a])[..|log|] == log;
  }

  // Copies of p sent are delivered or in flight; apart from `first`, acceptances account
  // for them.
  ghost predicate Booked(n: Net, p: Payload, first: nat) {
    && CountOf(n.sent, p) == CountOf(n.delivered, p) + CountOf(n.flight, p)
    && CountOf(n.sent, p) <= first + Forwarded(n, n.log, p)
  }

  lemma DeliverBooks(n: Net, e: Event, p: Payload, os: set<Name>, first: nat)
    requires Covering(n, p, os) && Booked(n, p, first) && Enabled(n, e) && e.Deliver? && !Originates(n, e, p)
    ensures Booked(Step(n, e), p, first)
  {
    var c, m := n.flight[e.i], Step(n, e);
    StepKeepsGraph(n, e);
    SentOfP(n, e, p, os);
    DeliverCounts(n, e, p);
    DeliverLogs(n, e, p);
    ForwardedKept(n, m, m.log, p);
    ForwardedMore(n, n.log, Acceptance(c.dst, c.data), p);
  }

  lemma {:induction false} RunBooks(n: Net, es: seq<Event>, p: Payload, os: set<Name>, first: nat)
    requires Covering(n, p, os) && IsRun(n, es) && NoNewOrigin(n, es, p) && Booked(n, p, first)
    ensures Booked(After(n, es), p, first)
  {
    if es != [] {
      var init, e := es[..|es| - 1], es[|es| - 1];
      var m := After(n, init);
      assert IsRun(n, init);
      StepKeepsGraph(m, e);
      OneOriginOnly(n, init, p);
      RunCovers(n, init, p, os);
      RunBooks(n, init, p, os, first);
      if e.Deliver? {
        DeliverBooks(m, e, p, os + {}, first);
      } else {
        OtherStepsCount(m, e, p);
        ForwardedKept(m, Step(m, e), m.log, p);
      }
    }
  }

  // Whatever the caches forget: copies are at most the origin's degree plus, for every
  // acceptance, the degree of the signpost that accepted less one.
  lemma FloodSpends(n: Net, e: Event, es: seq<Event>, p: Payload)
    requires Starts(n, e, p) && IsRun(Step(n, e), es) && NoNewOrigin(Step(n, e), es, p)
    ensures var m := After(Step(n, e), es);
            CountOf(m.delivered, p) <= CountOf(m.sent, p) <= |n.nodes[e.at].channels| + Forwarded(n, m.log, p)
  {
    var first, m := Step(n, e), After(Step(n, e), es);
    OriginStartsFlood(n, e, p);
    OriginBooks(n, e, p);
    StepKeepsGraph(n, e);
    RunBooks(first, es, p, {e.at}, |n.nodes[e.at].channels|);
    OneOriginOnly(first, es, p);
    RunCovers(first, es, p, {e.at});
    ForwardedKept(n, m, m.log, p);
  }

  lemma OriginBooks(n: Net, e: Event, p: Payload)
    requires Starts(n, e, p)
    ensures Booked(Step(n, e), p, |n.nodes[e.at].channels|)
  {
    OriginAccounts(n, e, p);
    StepKeepsGraph(n, e);
    SpareKept(n, Step(n, e), p, |n.names|);
  }

  // ---------------------------------------------------------------------
  // The 30 seconds are needed

  function Triangle(a: Name, b: Name, c: Name): Net {
    Net([a, b, c],
        map[a := Centre(a, [b, c], map[], [], []),
            b := Centre(b, [c, a], map[], [], []),
            c := Centre(c, [a, b], map[], [], [])],
        [], 0, [], [], [])
  }

  // What matters of a state on the way: the flight, the clock, the log, and who has
  // cached the payload since when.
  ghost predicate Stage(a: Name, b: Name, c: Name, n: Net, flight: seq<Copy>, clock: int, log: seq<Acceptance>,
                        atB: map<Payload, int>, atC: map<Payload, int>) {
    && a != b && b != c && a != c && SameGraph(Triangle(a, b, c), n)
    && n.flight == flight && n.clock == clock && n.log == log
    && n.nodes[b].cache == atB && n.nodes[c].cache == atC
  }

  lemma TwoCopies(name: Name, x: Name, y: Name, except: Name, p: Payload)
    requires x != except
    ensures CopiesTo(name, [x, y], except, p)
         == if y == except then [Copy(name, x, p)] else [Copy(name, x, p), Copy(name, y, p)]
    ensures CopiesToAll(name, [x, y], p) == [Copy(name, x, p), Copy(name, y, p)]
  {
    var one := [x];
    assert [x, y][..1] == one && one[..0] == [];
    assert CopiesTo(name, [x], except, p) == [Copy(name, x, p)];
    assert CopiesToAll(name, [x], p) == [Copy(name, x, p)];
  }

  lemma TriangleWellFormed(a: Name, b: Name, c: Name)
    requires a != b && b != c && a != c
    ensures WellFormed(Triangle(a, b, c))
  {
    TriangleChannels(a, b, c);
    var n := Triangle(a, b, c);
    forall x, y | x in n.nodes && y in n.nodes[x].channels
      ensures y in n.nodes && x in n.nodes[y].channels
    {
      assert x in {a, b, c} && y in {a, b, c} && x != y;
    }
  }

  lemma TriangleChannels(a: Name, b: Name, c: Name)
    requires a != b && b != c && a != c
    ensures var n := Triangle(a, b, c);
            && n.nodes.Keys == {a, b, c} && n.names == [a, b, c]
            && (forall x :: x in n.nodes ==> n.nodes[x].name == x)
            && (forall x, y :: x in n.nodes ==> (y in n.nodes[x].channels <==> y in {a, b, c} && y != x))
  {
    var n := Triangle(a, b, c);
    assert n.nodes[a].channels == [b, c] && n.nodes[b].channels == [c, a] && n.nodes[c].channels == [a, b];
  }

  lemma LateStart(a: Name, b: Name, c: Name, p: Payload)
    requires a != b && b != c && a != c && p.Truths?
    ensures Stage(a, b, c, Step(Triangle(a, b, c), Distribute(a, p.truths)),
                  [Copy(a, b, p), Copy(a, c, p)], 0, [], map[], map[])
  {
    assert Triangle(a, b, c).nodes[a].channels == [b, c];
    TwoCopies(a, b, c, a, p);
  }

  // b accepts a's copy and forwards it to c.
  lemma LateFirst(a: Name, b: Name, c: Name, n: Net, p: Payload, none: Answers)
    requires p.Truths? && Stage(a, b, c, n, [Copy(a, b, p), Copy(a, c, p)], 0, [], map[], map[])
    ensures Stage(a, b, c, Step(n, Deliver(0, none)), [Copy(a, c, p), Copy(b, c, p)], 0,
                  [Acceptance(b, p)], map[p := 0], map[])
  {
    assert n.nodes[b].channels == [c, a];
    TwoCopies(b, c, a, a, p);
  }

  // 31 seconds later b has forgotten it.
  lemma LateWait(a: Name, b: Name, c: Name, n: Net, p: Payload)
    requires Stage(a, b, c, n, [Copy(a, c, p), Copy(b, c, p)], 0, [Acceptance(b, p)], map[p := 0], map[])
    ensures Stage(a, b, c, Step(Step(n, Tick(31)), Prune(b)), [Copy(a, c, p), Copy(b, c, p)], 31,
                  [Acceptance(b, p)], map[], map[])
  {
    assert Pruned(map[p := 0], 31) == map[];
  }

  // c accepts a's copy only now and forwards it to b.
  lemma LateSecond(a: Name, b: Name, c: Name, n: Net, p: Payload, none: Answers)
    requires p.Truths? && Stage(a, b, c, n, [Copy(a, c, p), Copy(b, c, p)], 31, [Acceptance(b, p)], map[], map[])
    ensures Stage(a, b, c, Step(n, Deliver(0, none)), [Copy(b, c, p), Copy(c, b, p)], 31,
                  [Acceptance(b, p), Acceptance(c, p)], map[], map[p := 31])
  {
    assert n.nodes[c].channels == [a, b];
    assert CopiesTo(c, [a, b], a, p) == [Copy(c, b, p)] by {
      var one := [a];
      assert [a, b][..1] == one && one[..0] == [];
      assert CopiesTo(c, [a], a, p) == [];
    }
  }

  lemma LateThird(a: Name, b: Name, c: Name, n: Net, p: Payload, none: Answers)
    requires Stage(a, b, c, n, [Copy(b, c, p), Copy(c, b, p)], 31,
                   [Acceptance(b, p), Acceptance(c, p)], map[], map[p := 31])
    ensures Step(n, Deliver(1, none)).log == [Acceptance(b, p), Acceptance(c, p), Acceptance(b, p)]
    ensures Step(n, Deliver(1, none)).clock == 31
  {
  }

  lemma RunOneMore(n: Net, es: seq<Event>, e: Event, p: Payload)
    requires IsRun(n, es) && Enabled(After(n, es), e)
    requires NoNewOrigin(n, es, p) && !Originates(After(n, es), e, p)
    ensures IsRun(n, es + [e]) && After(n, es + [e]) == Step(After(n, es), e)
    ensures NoNewOrigin(n, es + [e], p)
  {
    assert (es + [e])[..|es|] == es;
  }

  // A second acceptance within the run es, 31 seconds after the first.
  ghost predicate AcceptsTwice(n: Net, es: seq<Event>, p: Payload, x: Name) {
    && IsRun(n, es) && NoNewOrigin(n, es, p)
    && After(n, es).clock == n.clock + 31 && multiset(After(n, es).log)[Acceptance(x, p)] == 2
  }

  // Three signposts, each connected to the other two. The copy that c forwards to b
  // is 31 seconds late, b has pruned its cache, and b accepts the same truths twice.
  lemma LateCopyIsAcceptedAgain(a: Name, b: Name, c: Name, p: Payload, none: Answers)
    requires a != b && b != c && a != c && p.Truths?
    ensures var n, first := Triangle(a, b, c), Distribute(a, p.truths);
            && WellFormed(n) && Unheard(n, p) && Enabled(n, first) && Originates(n, first, p)
            && exists es :: AcceptsTwice(Step(n, first), es, p, b)
  {
    TriangleWellFormed(a, b, c);
    LateStart(a, b, c, p);
    LateMiddle(a, b, c, Step(Triangle(a, b, c), Distribute(a, p.truths)), p, none);
  }

  lemma LateMiddle(a: Name, b: Name, c: Name, n: Net, p: Payload, none: Answers)
    requires p.Truths? && Stage(a, b, c, n, [Copy(a, b, p), Copy(a, c, p)], 0, [], map[], map[])
    ensures exists all :: AcceptsTwice(n, all, p, b)
  {
    LateFirst(a, b, c, n, p, none);
    RunOneMore(n, [], Deliver(0, none), p);
    var es1 := [] + [Deliver(0, none)];
    LateWait(a, b, c, After(n, es1), p);
    RunOneMore(n, es1, Tick(31), p);
    RunOneMore(n, es1 + [Tick(31)], Prune(b), p);
    LateEnding(a, b, c, n, es1 + [Tick(31)] + [Prune(b)], p, none);
  }

  lemma LateEnding(a: Name, b: Name, c: Name, n: Net, es: seq<Event>, p: Payload, none: Answers)
    requires p.Truths? && n.clock == 0 && IsRun(n, es) && NoNewOrigin(n, es, p)
    requires Stage(a, b, c, After(n, es), [Copy(a, c, p), Copy(b, c, p)], 31, [Acceptance(b, p)], map[], map[])
    ensures exists all :: AcceptsTwice(n, all, p, b)
  {
    LateSecond(a, b, c, After(n, es), p, none);
    RunOneMore(n, es, Deliver(0, none), p);
    var es4 := es + [Deliver(0, none)];
    LateThird(a, b, c, After(n, es4), p, none);
    RunOneMore(n, es4, Deliver(1, none), p);
    assert AcceptsTwice(n, es4 + [Deliver(1, none)], p, b);
  }
}
