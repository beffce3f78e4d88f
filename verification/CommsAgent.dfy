// The communication centre of psp/lib/tactic_solver/comms_agent.rb: what one signpost
// does with a payload that arrives on a channel, and what it sends.
module CommsAgent {

  type Name = string

  datatype Truth = Truth(what: string, provider: string, userInfo: string, signpost: Name, truth: string, ttl: int)

  datatype Query = Query(what: string, userInfo: string, signpost: Name)

  datatype Address = Address(name: Name, ip: string, port: int)

  // The payloads the centre sends. The digest the code keys its cache with is taken
  // to be injective, so payloads are their own keys.
  datatype Payload =
    | Truths(truths: seq<Truth>)
    | Resolve(query: Query)
    | ListOfSignposts
    | GimmeTruths
    | Signposts(addresses: seq<Address>)

  // Only truths and resolve requests are spread.
  predicate Spreads(p: Payload) { p.Truths? || p.Resolve? }

  datatype Copy = Copy(src: Name, dst: Name, data: Payload)

  // A signpost: its channels, named after the signpost at the other end (two
  // channels may lead to the same one), its broadcast cache, the truths it has handed
  // to its solver and the queries it has taken on.
  datatype Centre = Centre(
    name: Name,
    channels: seq<Name>,
    cache: map<Payload, int>,
    learned: seq<Truth>,
    asked: seq<Query>)

  // What the rest of the signpost answers with.
  datatype Answers = Answers(exports: seq<Truth>, addresses: seq<Address>)

  datatype Outcome = Outcome(centre: Centre, sent: seq<Copy>, accepted: bool)

  // The copies sent for a broadcast: one per channel, the sender's channels excepted.
  function CopiesTo(name: Name, channels: seq<Name>, except: Name, data: Payload): seq<Copy> {
    if channels == [] then []
    else CopiesTo(name, channels[..|channels| - 1], except, data) +
         (var last := channels[|channels| - 1]; if last != except then [Copy(name, last, data)] else [])
  }

  function CopiesToAll(name: Name, channels: seq<Name>, data: Payload): seq<Copy> {
    if channels == [] then []
    else CopiesToAll(name, channels[..|channels| - 1], data) + [Copy(name, channels[|channels| - 1], data)]
  }

  function Broadcast(c: Centre, data: Payload, sender: Name, now: int): (r: (Centre, seq<Copy>)) {
    (c.(cache := c.cache[data := now]), CopiesTo(c.name, c.channels, sender, data))
  }

  function Reply(c: Centre, from: Name, data: Payload, answers: Answers): seq<Copy> {
    match data
    case ListOfSignposts => [Copy(c.name, from, Signposts(answers.addresses))]
    case GimmeTruths => if answers.exports == [] then [] else [Copy(c.name, from, Truths(answers.exports))]
    case _ => []
  }

  function Received(c: Centre, from: Name, data: Payload, now: int, answers: Answers): Outcome {
    if data in c.cache then Outcome(c, [], false)
    else
      var (c1, sent) := if Spreads(data) then Broadcast(c, data, from, now) else (c, []);
      var c2 := if data.Truths? then c1.(learned := c1.learned + data.truths) else c1;
      var c3 := if data.Resolve? && data.query.signpost == c.name then c2.(asked := c2.asked + [data.query]) else c2;
      Outcome(c3, sent + Reply(c, from, data, answers), true)
  }

  // Entries older than 30 seconds go.
  function Pruned(cache: map<Payload, int>, now: int): map<Payload, int> {
    map key | key in cache && cache[key] >= now - 30 :: cache[key]
  }

  // ---------------------------------------------------------------------
  // What is sent

  // Exactly one copy of data for every channel of another name than `except`
  ghost predicate OneCopyEach(sent: seq<Copy>, name: Name, channels: seq<Name>, except: Name, data: Payload) {
    forall c :: multiset(sent)[c] ==
      if c == Copy(name, c.dst, data) && c.dst != except then multiset(channels)[c.dst] else 0
  }

  lemma {:induction false} CopiesOneEach(name: Name, channels: seq<Name>, except: Name, data: Payload)
    ensures OneCopyEach(CopiesTo(name, channels, except, data), name, channels, except, data)
  {
    if channels != [] {
      var n := |channels| - 1;
      CopiesOneEach(name, channels[..n], except, data);
      assert channels == channels[..n] + [channels[n]];
    }
  }

  lemma SentOneEach(before: seq<Copy>, after: seq<Copy>, name: Name, channels: seq<Name>, except: Name, data: Payload)
    requires after == before + CopiesTo(name, channels, except, data)
    ensures OneCopyEach(after[|before|..], name, channels, except, data)
  {
    CopiesOneEach(name, channels, except, data);
    assert after[|before|..] == CopiesTo(name, channels, except, data);
  }

  // Exactly one copy of data for every channel
  ghost predicate OneCopyForAll(sent: seq<Copy>, name: Name, channels: seq<Name>, data: Payload) {
    forall c :: multiset(sent)[c] == if c == Copy(name, c.dst, data) then multiset(channels)[c.dst] else 0
  }

  lemma {:induction false} CopiesForAll(name: Name, channels: seq<Name>, data: Payload)
    ensures OneCopyForAll(CopiesToAll(name, channels, data), name, channels, data)
  {
    if channels != [] {
      var n := |channels| - 1;
      CopiesForAll(name, channels[..n], data);
      assert channels == channels[..n] + [channels[n]];
    }
  }

  lemma SentForAll(before: seq<Copy>, after: seq<Copy>, name: Name, channels: seq<Name>, data: Payload)
    requires after == before + CopiesToAll(name, channels, data)
    ensures OneCopyForAll(after[|before|..], name, channels, data)
  {
    CopiesForAll(name, channels, data);
    assert after[|before|..] == CopiesToAll(name, channels, data);
  }

  // The channels of other names, in order
  function Without(channels: seq<Name>, name: Name): (r: seq<Name>)
    ensures name !in r && forall other :: other != name ==> multiset(r)[other] == multiset(channels)[other]
  {
    if channels == [] then []
    else
      var n := |channels| - 1;
      assert channels == channels[..n] + [channels[n]];
      Without(channels[..n], name) + (if channels[n] != name then [channels[n]] else [])
  }

  // What a signpost does with a payload: nothing when it is cached. Otherwise it caches it
  // if it spreads, and then sends it once to every channel but those of the sender; it
  // learns truths, and takes on a query that names it.
  ghost predicate ReceivedMeans(c: Centre, from: Name, data: Payload, answers: Answers,
                                accepted: bool, after: Centre, now: int, sent: seq<Copy>)
  {
    && (accepted <==> data !in c.cache)
    && (!accepted ==> after == c && sent == [])
    && (accepted ==>
          && after.name == c.name && after.channels == c.channels
          && CachedSince(c.cache, after.cache, data, now)
          && after.learned == c.learned + (if data.Truths? then data.truths else [])
          && after.asked == c.asked + (if data.Resolve? && data.query.signpost == c.name then [data.query] else []))
    && (accepted && (data.Truths? || data.Resolve?) ==> OneCopyEach(sent, c.name, c.channels, from, data))
    && (accepted && data.ListOfSignposts? ==> sent == [Copy(c.name, from, Signposts(answers.addresses))])
    && (accepted && data.GimmeTruths? && answers.exports != [] ==>
          sent == [Copy(c.name, from, Truths(answers.exports))])
    && (accepted && data.GimmeTruths? && answers.exports == [] ==> sent == [])
    && (accepted && data.Signposts? ==> sent == [])
  }

  ghost predicate CachedSince(before: map<Payload, int>, after: map<Payload, int>, data: Payload, now: int) {
    && after.Keys == before.Keys + (if data.Truths? || data.Resolve? then {data} else {})
    && (data.Truths? || data.Resolve? ==> data in after && after[data] == now)
    && (forall other :: other in before && other != data ==> other in after && after[other] == before[other])
  }

  lemma ReceivedExplained(c: Centre, from: Name, data: Payload, now: int, answers: Answers)
    ensures var o := Received(c, from, data, now, answers);
            ReceivedMeans(c, from, data, answers, o.accepted, o.centre, now, o.sent)
  {
    var o := Received(c, from, data, now, answers);
    if Spreads(data) && o.accepted {
      CopiesOneEach(c.name, c.channels, from, data);
      assert o.sent == CopiesTo(c.name, c.channels, from, data);
    }
  }

  // ---------------------------------------------------------------------
  // The class

  class CommunicationCentre {
    const name: Name
    var channels: seq<Name>
    var cache: map<Payload, int>
    var learned: seq<Truth>
    var asked: seq<Query>
    var outbox: seq<Copy>      // everything sent so far, in order

    ghost function State(): Centre
      reads this
    {
      Centre(name, channels, cache, learned, asked)
    }

    constructor (name: Name)
      ensures State() == Centre(name, [], map[], [], []) && outbox == []
    {
      this.name := name;
      channels := [];
      cache := map[];
      learned := [];
      asked := [];
      outbox := [];
    }

    // A signpost that connects to itself is turned away; any other is asked for its
    // connections and its truths.
    method NewChannel(channel: Name)
      modifies this
      ensures State() == if channel == name then old(State()) else old(State()).(channels := old(channels) + [channel])
      ensures outbox == old(outbox) + if channel == name then []
                                      else [Copy(name, channel, ListOfSignposts), Copy(name, channel, GimmeTruths)]
    {
      if channel != name {
        channels := channels + [channel];
        Send(channel, ListOfSignposts);
        Send(channel, GimmeTruths);
      }
    }

    method Send(channel: Name, data: Payload)
      modifies this`outbox
      ensures outbox == old(outbox) + [Copy(name, channel, data)]
    {
      outbox := outbox + [Copy(name, channel, data)];
    }

    // lonely: there is no channel left, so a signpost is looked up to connect to again.
    method ChannelClosed(channel: Name) returns (lonely: bool)
      modifies this
      ensures State() == old(State()).(channels := channels) && outbox == old(outbox)
      ensures channels == if channel == name then old(channels) else Without(old(channels), channel)
      ensures lonely <==> channel != name && channels == []
    {
      if channel == name {
        return false;
      }
      var kept: seq<Name> := [];
      var i := 0;
      while i < |channels|
        invariant i <= |channels| && channels == old(channels) && kept == Without(channels[..i], channel)
      {
        assert channels[..i + 1][..i] == channels[..i];
        if channels[i] != channel {
          kept := kept + [channels[i]];
        }
        i := i + 1;
      }
      assert channels[..i] == channels;
      channels := kept;
      lonely := channels == [];
    }

    method BroadcastTo(data: Payload, sender: Name, now: int)
      modifies this
      ensures State() == Broadcast(old(State()), data, sender, now).0
      ensures outbox == old(outbox) + Broadcast(old(State()), data, sender, now).1
      ensures data in cache && cache[data] == now
      ensures OneCopyEach(outbox[|old(outbox)|..], name, channels, sender, data)
    {
      cache := cache[data := now];
      var i := 0;
      while i < |channels|
        invariant i <= |channels| && State() == Broadcast(old(State()), data, sender, now).0
        invariant outbox == old(outbox) + CopiesTo(name, channels[..i], sender, data)
      {
        assert channels[..i + 1][..i] == channels[..i];
        if channels[i] != sender {
          Send(channels[i], data);
        }
        i := i + 1;
      }
      assert channels[..i] == channels;
      SentOneEach(old(outbox), outbox, name, channels, sender, data);
    }

    method Receive(from: Name, data: Payload, now: int, answers: Answers) returns (accepted: bool)
      modifies this
      ensures var o := Received(old(State()), from, data, now, answers);
              State() == o.centre && outbox == old(outbox) + o.sent && accepted == o.accepted
    {
      if data in cache {
        return false;
      }
      if Spreads(data) {
        BroadcastTo(data, from, now);
      }
      Answer(from, data, answers);
      if data.Truths? {
        learned := learned + data.truths;
      }
      if data.Resolve? && data.query.signpost == name {
        asked := asked + [data.query];
      }
      return true;
    }

    method Answer(from: Name, data: Payload, answers: Answers)
      modifies this`outbox
      ensures outbox == old(outbox) + Reply(State(), from, data, answers)
    {
      if data.ListOfSignposts? {
        Send(from, Signposts(answers.addresses));
      } else if data.GimmeTruths? {
        if answers.exports != [] {
          Send(from, Truths(answers.exports));
        }
      }
    }

    // Truths of this signpost's own go to every channel and are not cached.
    method DistributeTruths(truths: seq<Truth>)
      modifies this`outbox
      ensures outbox == old(outbox) + CopiesToAll(name, channels, Truths(truths))
      ensures OneCopyForAll(outbox[|old(outbox)|..], name, channels, Truths(truths))
    {
      var i := 0;
      while i < |channels|
        invariant i <= |channels|
        invariant outbox == old(outbox) + CopiesToAll(name, channels[..i], Truths(truths))
      {
        assert channels[..i + 1][..i] == channels[..i];
        Send(channels[i], Truths(truths));
        i := i + 1;
      }
      assert channels[..i] == channels;
      SentForAll(old(outbox), outbox, name, channels, Truths(truths));
    }

    // A query for another signpost is remembered and goes once to every channel.
    method RemoteResolve(query: Query, now: int)
      modifies this
      ensures State() == old(State()).(cache := cache) && cache.Keys == old(cache).Keys + {Resolve(query)}
      ensures cache[Resolve(query)] == now
      ensures forall other :: other in old(cache) && other != Resolve(query) ==> cache[other] == old(cache)[other]
      ensures old(outbox) <= outbox && OneCopyEach(outbox[|old(outbox)|..], name, channels, name, Resolve(query))
    {
      BroadcastTo(Resolve(query), name, now);
    }

    method PruneBroadcastCache(now: int)
      modifies this`cache
      ensures cache == Pruned(old(cache), now)
      ensures forall key :: key in cache <==> key in old(cache) && old(cache)[key] >= now - 30
      ensures forall key :: key in cache ==> cache[key] == old(cache)[key]
    {
      cache := map key | key in cache && cache[key] >= now - 30 :: cache[key];
    }
  }
}
