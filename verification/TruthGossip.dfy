// Truths on the move between solvers: how long a copy lives at a signpost it has been
// passed on to. The gossip of comms_agent.rb may pass a copy on to anyone it likes.
module TruthGossip {
  import opened Options
  import opened Solver

  // One leg of a copy's journey: from the moment it was sent to the moment it was passed
  // on or stored.
  datatype Hop = Hop(sent: int, received: int)

  // When a truth was first provided, and as what
  datatype Origin = Origin(at: int, first: Provided)

  datatype History = History(origin: Origin, hops: seq<Hop>)

  datatype Copy = Copy(dst: string, truth: Provided, sent: int, past: History)

  // The solver's tables, where each of its truths comes from, and the copies that wait for
  // its next tick
  datatype Node = Node(tables: Tables, past: map<TruthKey, History>, inbox: set<Copy>)

  datatype Net = Net(nodes: map<string, Node>, flight: set<Copy>, origins: set<Origin>, clock: int)

  datatype Step =
    | Deliver(copy: Copy, to: set<string>)                     // passed on to these, perhaps none
    | Drop(copy: Copy)                                         // already seen
    | Solve(at: string, batch: Batch, arrivals: map<Provided, Copy>, to: set<string>)
    | Export(at: string, asker: string)                        // gimme_truths
    | Advance(dt: nat)

  predicate Enabled(n: Net, s: Step) {
    match s
    case Deliver(c, _) => c in n.flight && c.dst in n.nodes
    case Drop(c) => c in n.flight
    case Solve(at, b, arrivals, _) =>
      && at in n.nodes && Fits(n.nodes[at].tables, b, n.clock) && arrivals.Keys == b.external
      && forall p :: p in arrivals ==> arrivals[p] in n.nodes[at].inbox && arrivals[p].truth == p
    case Export(at, _) => at in n.nodes && Exports(n.nodes[at].tables.truths, n.clock).Some?
    case Advance(_) => true
  }

  function Travelled(c: Copy, now: int): History {
    c.past.(hops := c.past.hops + [Hop(c.sent, now)])
  }

  function Spread(to: set<string>, p: Provided, now: int, past: History): set<Copy> {
    set x | x in to :: Copy(x, p, now, past)
  }

  // Where a row stored in this tick comes from
  function PastOf(b: Batch, arrivals: map<Provided, Copy>, now: int, p: Provided): History
    requires arrivals.Keys == b.external && p in b.provided + b.external
  {
    if p in b.provided then History(Origin(now, p), []) else Travelled(arrivals[p], now)
  }

  function NewPast(b: Batch, arrivals: map<Provided, Copy>, now: int): (m: map<TruthKey, History>)
    requires KeysAgree(b) && arrivals.Keys == b.external
    ensures forall k :: k in m <==> exists p :: p in b.provided + b.external && KeyOf(p) == k && p.ttl > 0
    ensures forall p :: p in b.provided + b.external && p.ttl > 0 ==> m[KeyOf(p)] == PastOf(b, arrivals, now, p)
  {
    map k | k in (set p | p in b.provided + b.external && p.ttl > 0 :: KeyOf(p)) ::
      PastOf(b, arrivals, now, RowOf(b.provided + b.external, k))
  }

  function Exported(node: Node, to: string, now: int): set<Copy>
    requires node.tables.truths.Keys <= node.past.Keys
  {
    set k | k in node.tables.truths && node.tables.truths[k].ttlState.Expires? ::
      Copy(to, Provided(k.what, k.provider, k.userInfo, k.signpost, node.tables.truths[k].truth,
                        node.tables.truths[k].ttlState.expires - now), now, node.past[k])
  }

  function Solved(name: string, node: Node, b: Batch, arrivals: map<Provided, Copy>, now: int): Node
    requires Fits(node.tables, b, now) && arrivals.Keys == b.external
  {
    Node(Tick(name, node.tables, b, now).tables, node.past + NewPast(b, arrivals, now), node.inbox - arrivals.Values)
  }

  function Distributed(provided: set<Provided>, to: set<string>, now: int): set<Copy> {
    set p, x | p in provided && x in to :: Copy(x, p, now, History(Origin(now, p), []))
  }

  function Next(n: Net, s: Step): Net
    requires Enabled(n, s) && Traced(n)
  {
    match s
    case Deliver(c, to) =>
      var node := n.nodes[c.dst];
      n.(flight := n.flight - {c} + Spread(to, c.truth, n.clock, Travelled(c, n.clock)),
         nodes := n.nodes[c.dst := node.(inbox := node.inbox + {c})])
    case Drop(c) => n.(flight := n.flight - {c})
    case Solve(at, b, arrivals, to) =>
      n.(nodes := n.nodes[at := Solved(at, n.nodes[at], b, arrivals, n.clock)],
         flight := n.flight + Distributed(Tick(at, n.nodes[at].tables, b, n.clock).output.distributed, to, n.clock),
         origins := n.origins + set p | p in b.provided :: Origin(n.clock, p))
    case Export(at, to) => n.(flight := n.flight + Exported(n.nodes[at], to, n.clock))
    case Advance(dt) => n.(clock := n.clock + dt)
  }

  // ---------------------------------------------------------------------
  // What is sent

  // A copy passed on: the truth as it came, with one leg more
  ghost predicate PassedOn(c: Copy, d: Copy, to: set<string>, now: int) {
    d.dst in to && d.truth == c.truth && d.sent == now
    && d.past == History(c.past.origin, c.past.hops + [Hop(c.sent, now)])
  }

  // A stored truth, with the time it has left
  ghost predicate SentFrom(node: Node, k: TruthKey, d: Copy, asker: string, now: int) {
    && k in node.tables.truths && k in node.past && node.tables.truths[k].ttlState.Expires?
    && d.dst == asker && d.sent == now && d.past == node.past[k]
    && d.truth == Provided(k.what, k.provider, k.userInfo, k.signpost, node.tables.truths[k].truth,
                           node.tables.truths[k].ttlState.expires - now)
  }

  // What a step adds to the copies in flight: what is passed on; what this signpost's own
  // tactics have provided, and nothing that came from outside; what is exported.
  lemma StepSends(n: Net, s: Step, d: Copy)
    requires Enabled(n, s) && Traced(n) && d !in n.flight
    ensures d in Next(n, s).flight <==>
            match s
            case Deliver(c, to) => PassedOn(c, d, to, n.clock)
            case Drop(_) => false
            case Solve(_, b, _, to) =>
              && d.dst in to && d.truth in b.provided && d.sent == n.clock
              && d.past == History(Origin(n.clock, d.truth), [])
            case Export(at, asker) => exists k :: SentFrom(n.nodes[at], k, d, asker, n.clock)
            case Advance(_) => false
  {
    if s.Export? {
      ExportSends(n.nodes[s.at], s.asker, n.clock, d);
    }
  }

  // What a step takes away: a copy that is delivered or dropped leaves the flight, a
  // delivered one waits at its destination, and a tick uses up those it stores.
  lemma StepTakes(n: Net, s: Step, d: Copy)
    requires Enabled(n, s) && Traced(n) && d in n.flight
    ensures d !in Next(n, s).flight <==> (s.Drop? || s.Deliver?) && s.copy == d
    ensures s.Deliver? ==> Next(n, s).nodes[s.copy.dst].inbox == n.nodes[s.copy.dst].inbox + {s.copy}
    ensures s.Solve? ==> Next(n, s).nodes[s.at].inbox == n.nodes[s.at].inbox - s.arrivals.Values
    ensures Next(n, s).clock == n.clock + if s.Advance? then s.dt else 0
  {
    if s.Deliver? && s.copy == d {
      assert forall c :: c in Spread(s.to, d.truth, n.clock, Travelled(d, n.clock)) ==>
                           |c.past.hops| == |d.past.hops| + 1;
    }
  }

  // Time may pass, and copies may arrive or get lost, whatever the state.
  lemma AlwaysEnabled(n: Net, c: Copy, to: set<string>, dt: nat)
    ensures Enabled(n, Advance(dt)) && (c in n.flight ==> Enabled(n, Drop(c)))
    ensures c in n.flight && c.dst in n.nodes ==> Enabled(n, Deliver(c, to))
  {
  }

  lemma ExportSends(node: Node, asker: string, now: int, d: Copy)
    requires node.tables.truths.Keys <= node.past.Keys
    ensures d in Exported(node, asker, now) <==> exists k :: SentFrom(node, k, d, asker, now)
  {
    if k :| SentFrom(node, k, d, asker, now) {
      assert k in node.tables.truths && node.tables.truths[k].ttlState.Expires?;
    }
    if d in Exported(node, asker, now) {
      var k :| k in node.tables.truths && node.tables.truths[k].ttlState.Expires?
               && d == Copy(asker, Provided(k.what, k.provider, k.userInfo, k.signpost, node.tables.truths[k].truth,
                                            node.tables.truths[k].ttlState.expires - now), now, node.past[k]);
      assert SentFrom(node, k, d, asker, now);
    }
  }

  // ---------------------------------------------------------------------
  // The account

  function Transit(hops: seq<Hop>): int {
    if hops == [] then 0 else Transit(hops[..|hops| - 1]) + (hops[|hops| - 1].received - hops[|hops| - 1].sent)
  }

  // The expiry the truth was given at first, and the time its messages have taken since
  function Due(h: History): int { h.origin.at + h.origin.first.ttl + Transit(h.hops) }

  // The legs follow one another in time.
  predicate InOrder(since: int, hops: seq<Hop>, until: int) {
    if hops == [] then since <= until
    else
      var last := hops[|hops| - 1];
      InOrder(since, hops[..|hops| - 1], last.sent) && last.sent <= last.received <= until
  }

  // The text and the name of a truth are those it was first provided with.
  predicate TracesTo(h: History, key: TruthKey, text: string, origins: set<Origin>) {
    h.origin in origins && KeyOf(h.origin.first) == key && h.origin.first.truth == text
  }

  predicate Traced(n: Net) {
    forall x :: x in n.nodes ==> n.nodes[x].tables.truths.Keys <= n.nodes[x].past.Keys
  }

  predicate CopyAccounted(c: Copy, origins: set<Origin>, now: int) {
    && c.sent + c.truth.ttl == Due(c.past) && c.sent <= now && InOrder(c.past.origin.at, c.past.hops, c.sent)
    && TracesTo(c.past, KeyOf(c.truth), c.truth.truth, origins)
  }

  predicate StoredAccounted(k: TruthKey, s: Stored, h: History, origins: set<Origin>, now: int) {
    && s.ttlState.Expires? && s.ttlState.ttl > 0 && s.ttlState.expires == Due(h)
    && InOrder(h.origin.at, h.hops, now) && TracesTo(h, k, s.truth, origins)
  }

  predicate NodeAccounted(node: Node, origins: set<Origin>, now: int) {
    && node.tables.truths.Keys <= node.past.Keys
    && (forall k :: k in node.tables.truths ==> StoredAccounted(k, node.tables.truths[k], node.past[k], origins, now))
    && (forall c :: c in node.inbox ==> CopyAccounted(c, origins, now))
  }

  ghost predicate Accounted(n: Net) {
    && (forall x :: x in n.nodes ==> NodeAccounted(n.nodes[x], n.origins, n.clock))
    && (forall c :: c in n.flight ==> CopyAccounted(c, n.origins, n.clock))
  }

  lemma {:induction false} TransitBounds(since: int, hops: seq<Hop>, until: int)
    requires InOrder(since, hops, until)
    ensures 0 <= Transit(hops) <= until - since
  {
    if hops != [] {
      TransitBounds(since, hops[..|hops| - 1], hops[|hops| - 1].sent);
    }
  }

  lemma {:induction false} InOrderLater(since: int, hops: seq<Hop>, until: int, later: int)
    requires InOrder(since, hops, until) && until <= later
    ensures InOrder(since, hops, later)
  {
  }

  // Passing a copy on, or storing it, adds the time since it was sent and nothing else.
  lemma TravelledIsAccounted(c: Copy, origins: set<Origin>, now: int, late: set<Origin>)
    requires CopyAccounted(c, origins, now) && origins <= late
    ensures var h := Travelled(c, now);
            && now + c.truth.ttl == Due(h) && InOrder(h.origin.at, h.hops, now)
            && TracesTo(h, KeyOf(c.truth), c.truth.truth, late)
  {
    var h := Travelled(c, now);
    assert h.hops[..|h.hops| - 1] == c.past.hops;
  }

  lemma CopyStays(c: Copy, origins: set<Origin>, now: int, late: set<Origin>, later: int)
    requires CopyAccounted(c, origins, now) && origins <= late && now <= later
    ensures CopyAccounted(c, late, later)
  {
  }

  lemma NodeStays(node: Node, origins: set<Origin>, now: int, late: set<Origin>, later: int)
    requires NodeAccounted(node, origins, now) && origins <= late && now <= later
    ensures NodeAccounted(node, late, later)
  {
    forall k | k in node.tables.truths
      ensures StoredAccounted(k, node.tables.truths[k], node.past[k], late, later)
    {
      InOrderLater(node.past[k].origin.at, node.past[k].hops, now, later);
    }
    forall c | c in node.inbox ensures CopyAccounted(c, late, later) {
      CopyStays(c, origins, now, late, later);
    }
  }

  // The step of a solver
  lemma SolvedIsAccounted(name: string, node: Node, b: Batch, arrivals: map<Provided, Copy>,
                          origins: set<Origin>, now: int, late: set<Origin>)
    requires Fits(node.tables, b, now) && arrivals.Keys == b.external && NodeAccounted(node, origins, now)
    requires forall p :: p in arrivals ==> arrivals[p] in node.inbox && arrivals[p].truth == p
    requires origins <= late && forall p :: p in b.provided ==> Origin(now, p) in late
    ensures NodeAccounted(Solved(name, node, b, arrivals, now), late, now)
  {
    var node' := Solved(name, node, b, arrivals, now);
    NodeStays(node, origins, now, late, now);
    forall k | k in node'.tables.truths
      ensures k in node'.past && StoredAccounted(k, node'.tables.truths[k], node'.past[k], late, now)
    {
      TruthsAfter(name, node.tables, b, now, k);
      if k in Storable(b.provided + b.external, now) {
        var p :| p in b.provided + b.external && KeyOf(p) == k && p.ttl > 0
                 && node'.tables.truths[k] == Stored(p.truth, Expires(p.ttl, now + p.ttl));
        assert NewPast(b, arrivals, now)[KeyOf(p)] == PastOf(b, arrivals, now, p);
        NewRowIsAccounted(b, arrivals, p, origins, now, late);
      }
    }
  }

  lemma NewRowIsAccounted(b: Batch, arrivals: map<Provided, Copy>, p: Provided, origins: set<Origin>, now: int,
                          late: set<Origin>)
    requires arrivals.Keys == b.external && p in b.provided + b.external && p.ttl > 0 && origins <= late
    requires p in b.provided ==> Origin(now, p) in late
    requires p in arrivals ==> arrivals[p].truth == p && CopyAccounted(arrivals[p], origins, now)
    ensures StoredAccounted(KeyOf(p), Stored(p.truth, Expires(p.ttl, now + p.ttl)), PastOf(b, arrivals, now, p),
                            late, now)
  {
    if p !in b.provided {
      TravelledIsAccounted(arrivals[p], origins, now, late);
    }
  }

  lemma ExportedIsAccounted(node: Node, asker: string, origins: set<Origin>, now: int)
    requires NodeAccounted(node, origins, now)
    ensures forall c :: c in Exported(node, asker, now) ==> CopyAccounted(c, origins, now)
  {
    forall c | c in Exported(node, asker, now) ensures CopyAccounted(c, origins, now) {
      var k :| k in node.tables.truths && node.tables.truths[k].ttlState.Expires?
               && c == Copy(asker, Provided(k.what, k.provider, k.userInfo, k.signpost, node.tables.truths[k].truth,
                                            node.tables.truths[k].ttlState.expires - now), now, node.past[k]);
      assert StoredAccounted(k, node.tables.truths[k], node.past[k], origins, now);
    }
  }

  lemma NewCopiesAreAccounted(n: Net, s: Step, c: Copy)
    requires Accounted(n) && Enabled(n, s) && c in Next(n, s).flight && c !in n.flight
    ensures CopyAccounted(c, Next(n, s).origins, n.clock)
  {
    match s
    case Deliver(d, to) =>
      TravelledIsAccounted(d, n.origins, n.clock, n.origins);
    case Solve(at, b, arrivals, to) =>
    case Export(at, asker) => ExportedIsAccounted(n.nodes[at], asker, n.origins, n.clock);
    case Drop(_) =>
    case Advance(_) =>
  }

  lemma StepKeepsNodes(n: Net, s: Step, x: string)
    requires Accounted(n) && Enabled(n, s) && x in Next(n, s).nodes
    ensures NodeAccounted(Next(n, s).nodes[x], Next(n, s).origins, Next(n, s).clock)
  {
    match s
    case Deliver(d, to) =>
    case Solve(at, b, arrivals, to) =>
      if x == at {
        SolvedIsAccounted(at, n.nodes[at], b, arrivals, n.origins, n.clock, Next(n, s).origins);
      } else {
        NodeStays(n.nodes[x], n.origins, n.clock, Next(n, s).origins, n.clock);
      }
    case Export(_, _) =>
    case Drop(_) =>
    case Advance(dt) => NodeStays(n.nodes[x], n.origins, n.clock, n.origins, n.clock + dt);
  }

  lemma StepIsAccounted(n: Net, s: Step)
    requires Accounted(n) && Enabled(n, s)
    ensures Accounted(Next(n, s))
  {
    var m := Next(n, s);
    forall x | x in m.nodes ensures NodeAccounted(m.nodes[x], m.origins, m.clock) {
      StepKeepsNodes(n, s, x);
    }
    forall c | c in m.flight ensures CopyAccounted(c, m.origins, m.clock) {
      if c in n.flight {
        CopyStays(c, n.origins, n.clock, m.origins, m.clock);
      } else {
        NewCopiesAreAccounted(n, s, c);
      }
    }
  }

  // ---------------------------------------------------------------------
  // Runs

  function Run(n: Net, steps: seq<Step>): Option<Net>
    decreases |steps|
  {
    if steps == [] then Some(n)
    else if Traced(n) && Enabled(n, steps[0]) then Run(Next(n, steps[0]), steps[1..])
    else None
  }

  // A signpost that has just been started
  function Booted(name: string, domain: string, now: int): Node {
    InitialKeysDiffer(name, domain);
    Node(InitialTables(name, domain, now),
         map k | k in (set p | p in InitialTruths(name, domain) :: KeyOf(p)) ::
           History(Origin(now, RowOf(InitialTruths(name, domain), k)), []),
         {})
  }

  // Signposts started together, with nothing sent yet
  ghost predicate Started(n: Net, domains: map<string, string>) {
    && n.nodes.Keys == domains.Keys && n.flight == {}
    && forall x :: x in n.nodes ==>
         && n.nodes[x] == Booted(x, domains[x], n.clock)
         && forall p :: p in InitialTruths(x, domains[x]) ==> Origin(n.clock, p) in n.origins
  }

  // The only truths provided so far are those a signpost starts with.
  ghost predicate OnlyInitialOrigins(n: Net, domains: map<string, string>) {
    forall o :: o in n.origins ==>
      o.at == n.clock && exists x :: x in domains && o.first in InitialTruths(x, domains[x])
  }

  // Every origin goes back to a truth a signpost started with or one that a tactic
  // provided in a tick of the run, at that time.
  ghost predicate Genuine(o: Origin, n: Net, domains: map<string, string>, steps: seq<Step>)
    decreases |steps|
  {
    || (o.at == n.clock && exists x :: x in domains && o.first in InitialTruths(x, domains[x]))
    || ProvidedAlong(o, n, steps)
  }

  ghost predicate ProvidedAlong(o: Origin, n: Net, steps: seq<Step>)
    decreases |steps|
  {
    && steps != [] && Traced(n) && Enabled(n, steps[0])
    && ((steps[0].Solve? && o.at == n.clock && o.first in steps[0].batch.provided)
        || ProvidedAlong(o, Next(n, steps[0]), steps[1..]))
  }

  lemma {:induction false} OriginsAreProvided(n: Net, steps: seq<Step>, o: Origin)
    requires Run(n, steps).Some? && o in Run(n, steps).value.origins
    ensures o in n.origins || ProvidedAlong(o, n, steps)
    decreases |steps|
  {
    if steps != [] {
      OriginsAreProvided(Next(n, steps[0]), steps[1..], o);
    }
  }

  lemma BootedIsAccounted(name: string, domain: string, now: int, origins: set<Origin>)
    requires forall p :: p in InitialTruths(name, domain) ==> Origin(now, p) in origins
    ensures NodeAccounted(Booted(name, domain, now), origins, now)
  {
    InitialKeysDiffer(name, domain);
    var node, initial := Booted(name, domain, now), InitialTruths(name, domain);
    forall k | k in node.tables.truths
      ensures k in node.past && StoredAccounted(k, node.tables.truths[k], node.past[k], origins, now)
    {
      var p :| p in initial && KeyOf(p) == k && p.ttl > 0;
      assert node.tables.truths[KeyOf(p)] == Stored(p.truth, CreateTtlState(p.ttl, now));
      assert node.past[KeyOf(p)] == History(Origin(now, p), []);
    }
  }

  lemma {:induction false} RunIsAccounted(n: Net, steps: seq<Step>)
    requires Accounted(n) && Run(n, steps).Some?
    ensures Accounted(Run(n, steps).value)
    decreases |steps|
  {
    if steps != [] {
      StepIsAccounted(n, steps[0]);
      RunIsAccounted(Next(n, steps[0]), steps[1..]);
    }
  }

  // In every run, wherever a truth is stored, it expires when the truth it goes back to
  // expires, put off by the time its messages were in transit; the time it lay stored on
  // the way does not count. It has the name and the text it was first provided with.
  lemma ExpiryAccount(n: Net, domains: map<string, string>, steps: seq<Step>, m: Net, x: string, k: TruthKey)
    requires Started(n, domains) && OnlyInitialOrigins(n, domains) && Run(n, steps) == Some(m)
    requires x in m.nodes && k in m.nodes[x].tables.truths
    ensures k in m.nodes[x].past && AccountedFor(m.nodes[x].tables.truths[k], k, m.nodes[x].past[k], m.clock)
    ensures Genuine(m.nodes[x].past[k].origin, n, domains, steps)
  {
    AccountedFromStart(n, domains, steps, m);
    StoredInAccounted(m, x, k);
    OriginIsGenuine(n, domains, steps, m, m.nodes[x].past[k].origin);
  }

  ghost predicate AccountedFor(s: Stored, k: TruthKey, h: History, now: int) {
    && s.ttlState.Expires? && s.ttlState.ttl > 0
    && s.ttlState.expires == h.origin.at + h.origin.first.ttl + Transit(h.hops)
    && 0 <= Transit(h.hops) <= now - h.origin.at
    && k == TruthKey(h.origin.first.what, h.origin.first.provider, h.origin.first.userInfo, h.origin.first.signpost)
    && s.truth == h.origin.first.truth
  }

  lemma AccountedFromStart(n: Net, domains: map<string, string>, steps: seq<Step>, m: Net)
    requires Started(n, domains) && Run(n, steps) == Some(m)
    ensures Accounted(m)
  {
    StartedIsAccounted(n, domains);
    RunIsAccounted(n, steps);
  }

  lemma StoredInAccounted(m: Net, x: string, k: TruthKey)
    requires Accounted(m) && x in m.nodes && k in m.nodes[x].tables.truths
    ensures k in m.nodes[x].past
    ensures AccountedFor(m.nodes[x].tables.truths[k], k, m.nodes[x].past[k], m.clock)
    ensures m.nodes[x].past[k].origin in m.origins
  {
    var h := m.nodes[x].past[k];
    assert StoredAccounted(k, m.nodes[x].tables.truths[k], h, m.origins, m.clock);
    TransitBounds(h.origin.at, h.hops, m.clock);
  }

  lemma OriginIsGenuine(n: Net, domains: map<string, string>, steps: seq<Step>, m: Net, o: Origin)
    requires OnlyInitialOrigins(n, domains) && Run(n, steps) == Some(m) && o in m.origins
    ensures Genuine(o, n, domains, steps)
  {
    OriginsAreProvided(n, steps, o);
  }

  lemma StartedIsAccounted(n: Net, domains: map<string, string>)
    requires Started(n, domains)
    ensures Accounted(n)
  {
    forall x | x in n.nodes ensures NodeAccounted(n.nodes[x], n.origins, n.clock) {
      BootedIsAccounted(x, domains[x], n.clock, n.origins);
    }
  }

  // A signpost can always export its truths: none of them is not cacheable.
  lemma ExportsSucceed(n: Net, domains: map<string, string>, steps: seq<Step>, x: string)
    requires Started(n, domains) && Run(n, steps).Some? && x in Run(n, steps).value.nodes
    ensures Exports(Run(n, steps).value.nodes[x].tables.truths, Run(n, steps).value.clock).Some?
  {
    StartedIsAccounted(n, domains);
    RunIsAccounted(n, steps);
  }
}
