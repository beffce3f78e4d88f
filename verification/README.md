# Signpost, verified

A Dafny model of the parts of the Signpost repository that carry state over long runs, with
proofs of what these parts promise. `dafny verify dfyconfig.toml` checks the whole project.

| files | what they model |
|---|---|
| `CommsAgent.dfy`, `Flood.dfy`, `FloodRepeats.dfy`, `FloodReplies.dfy` | the communication centre of a signpost, the flooding of truths and resolve requests over a network of them, when a payload is accepted twice, and what answers do to a flood |
| `Solver.dfy`, `SolverHistory.dfy`, `TruthGossip.dfy` | the truth cache with its subscribers and garbage collection, its outputs in terms of what it has been told, and the expiry of truths that travel between signposts |
| `TacticPool.dfy` | recycled worker threads and the queue of requests |
| `TacticHelper.dfy`, `TacticVersions.dfy`, `TacticData.dfy`, `Names.dfy` | the scheduler of user blocks by data versions, what its blocks find, and the printing and parsing of `resource@domain:port` |
| `BitWords.dfy`, `FdSets.dfy` | 32-bit words and the descriptor sets made of them |
| `SurgeSessions.dfy`, `Surge.dfy`, `SurgeClients.dfy` | the session loop of the surge client: on sets, on descriptor sets, and for one client |
| `Server.dfy`, `ServerSessions.dfy` | the simple server: accounting of streams on sets, its loops on descriptor sets, and what one client of it sees |
| `NssBuffer.dfy` | the name-service result buffers, arrays and linked list |
| `OAuth.dfy`, `OAuthOrder.dfy`, `OAuthQuery.dfy` | percent-encoding, normalized parameters and the signature base string; the order of RFC 5849; the URL query |
| `Options.dfy` | a value or nothing |

## What is assumed of the surroundings

- Sockets, select, timers, user blocks and address lookup are inputs: functions that say what
  each call would return. A write puts at most the requested length on the socket; accept and
  socket return descriptors that are not in use and not 0.
- The digest that keys the broadcast cache is injective, so payloads are their own keys. Channels
  carry the name of the signpost at the other end and stay as they are during a flood; copies are
  delivered in any order.
- A tick of the solver reads the tables as they were, then applies deferred deletions, then
  upserts, with one reading of the clock; two different rows with one key in a table or collection stop it.
- A queue of the pool is its items plus its waiting callbacks; a thread that serves nobody does not
  ask to be recycled.
- Words have 32 bits, as the comment at `tunnel_measurement/pttcp/pttcp_util.h:46` requires; pointers
  have 4 or 8 bytes, little-endian, and NULL is 0. Sizes do not overflow.
- Text is ASCII in names, and byte strings in OAuth.

## Where the code falls short of what it seems to promise

- A descriptor loop visits nothing when descriptor 0 is in the set, since 0 also means "none"
  (`FdSets.Drain`, `FdSets.Scan`). It is complete exactly without it.
- A signpost can accept a payload a second time (`Flood.LateCopyIsAcceptedAgain`): exactly when it
  prunes its cache more than 30 seconds after accepting it and another copy comes after that
  (`FloodRepeats.FloodAcceptsTwiceIff`). Reaching everybody does not depend on it.
- An answer to gimme_truths that equals a payload on its way can leave others out
  (`FloodReplies.ReplyCutsOff`). A flood reaches all it should exactly when it reaches those of them
  that gave such an answer (`FloodReplies.FloodReachesIff`).
- The surge client loses a client for good on a socket exception or a failed connect; clients are
  conserved exactly without these (`SurgeSessions.NobodyMissingIff`; one pass each in
  `SurgeSessions.ExceptionLosesClient` and `SurgeSessions.RefusedConnectLosesClient`).
- A failed accept returns -1 and forgets the connections accepted before it in the same call
  (`ServerStreams.FailureLosesCount`). The counts are right exactly when in no pass an accept fails
  after one that succeeded (`ServerStreams.RunCountsIff`).
- A truth whose full name is the short form of another resets the version under the string key, and
  a later update of the other calls nobody (`TacticHelper.AliasHidesUpdate`). An update calls a block
  that has seen everything exactly when the string key has not fallen behind the version the block
  recorded (`TacticHelper.UpdateCallsIff`).
- Recycling ahead of a block without requirements makes the same pass fail
  (`TacticHelper.RecyclingAheadFails`; exactly when is `TacticHelper.PassCrashesIff`).
- A need and the truth it asks for in the same tick miss each other (`Solver.SameTickIsMissed`); what
  is pushed is exactly what earlier ticks asked for (`SolverHistory.PushedIff`).
- One truth from two providers at one signpost stops the solver as soon as it is needed, since the
  intermediate collection has no provider in its key (`SolverHistory.TwoProvidersStop`; exactly when
  is `SolverHistory.StopsIff`).
- No token and an empty token secret give the same signing key (`OAuth.SigningKeysEqualIff`).
- Parameters are sorted before they are encoded; section 3.4.1.3.2 of RFC 5849 encodes first. The two
  differ on names of the section's own example (`OAuthOrder.OrdersDiffer`) and agree exactly when
  encoding flips no two of the signed pairs (`OAuthOrder.OrdersAgreeIff`).
- Of a repeated name in the URL query only the first value is signed, and values are decoded twice
  (`OAuthQuery.QueryMisread`); exactly when nothing is lost is `OAuthQuery.BaseStringCoversQueryIff`.

## Model

The main results come first, then concrete inputs on which the code falls short, then what both
rest on.

| member | source | states |
|---|---|---|
| Flood.FloodReaches | psp/lib/tactic_solver/comms_agent.rb:154-226 | in every delivery order, once no copy of a payload is in flight, every signpost with a path from an origin has accepted it or originated it; nothing is assumed of the age of cache entries, and it may be originated again anywhere |
| FloodReplies.FloodReachesIff | psp/lib/tactic_solver/comms_agent.rb:154-264 | in every run, answers to gimme_truths included: once quiet, all that an origin is connected to have accepted or originated the payload exactly when those of them have that gave it as an answer |
| Flood.FloodStaysConnected | psp/lib/tactic_solver/comms_agent.rb:154-226 | signposts not connected to an origin never accept, whatever is pruned |
| Flood.FloodAcceptsOnce | psp/lib/tactic_solver/comms_agent.rb:154-246 | as long as no cache entry for the payload ages out, nobody accepts it twice |
| Flood.FloodCoverage | psp/lib/tactic_solver/comms_agent.rb:154-226 | the two together: once quiet, every signpost reachable from the origin has accepted exactly once |
| FloodRepeats.FloodAcceptsTwiceIff | psp/lib/tactic_solver/comms_agent.rb:154-246 | for every origin and run, in terms of the clock: somebody accepts twice exactly when a signpost accepts, prunes its cache more than 30 seconds later, and is reached by another copy after that |
| FloodRepeats.AcceptedTwiceIff | psp/lib/tactic_solver/comms_agent.rb:154-246 | the same of any run in which the payload is not originated again |
| Flood.FloodBound | psp/lib/tactic_solver/comms_agent.rb:154-226 | all copies ever sent are at most the origin's degree plus every signpost's degree less one |
| Flood.FloodSpends | psp/lib/tactic_solver/comms_agent.rb:154-226 | whatever is forgotten, all copies ever sent are at most the degree of the origin plus, for each acceptance in the log, the degree of the signpost that accepted less one |
| Flood.RunActsOnLog | psp/lib/tactic_solver/comms_agent.rb:154-168 | in every run a signpost passes on to its solver exactly the truths it accepted, in order, and exactly the accepted queries addressed to it |
| SolverHistory.PushedIff | psp/lib/tactic_solver/solver.rb:122-144 | after any run, a message is pushed in the next tick exactly when a truth is provided now that a need or observation of a strictly earlier tick, whose asker has not left or asked again under the same key since, names (and whose user may see it), or whose resource it names at any domain |
| SolverHistory.AnsweredIff | psp/lib/tactic_solver/solver.rb:68-81 | after any run, a message answers a need of the next tick exactly when a truth of the name asked for, for all users or for the user who asks, from the signpost asked for or any, was provided in an earlier tick with a positive ttl, has not run out by now, and nothing has been stored under its key since |
| SolverHistory.ResolvedIff | psp/lib/tactic_solver/solver.rb:83-102 | after any run, the next tick starts a resolution for exactly those needs that no such truth suits: an exploration if the need names this signpost or any, otherwise at the signpost it names |
| SolverHistory.StopsIff | psp/lib/tactic_solver/solver.rb:23-81 | after any run, the next tick stops exactly when two different rows of its batch have one key, or two truths that are alive, of one signpost and by different providers or for different users, meet one need |
| SolverHistory.AnswersAreMeant | psp/lib/tactic_solver/solver.rb:71-80 | in every run no answer carries a truth of another user, or of another signpost than the one the need names |
| SolverHistory.ExportedIff | psp/lib/tactic_solver/solver.rb:204-224 | after any run, what is exported with time to live is exactly what is alive, with the time it has left |
| Solver.NoLostWakeUp | psp/lib/tactic_solver/solver.rb:122-144 | a subscriber is sent every matching truth of every later tick, also under resource@ANY |
| Solver.CollectionIsInvisible | psp/lib/tactic_solver/solver.rb:42-47 | two solvers that see the same events but collect garbage at different ticks send the same answers and pushes and start the same resolutions |
| Solver.CollectionShowsInExpiredOnly | psp/lib/tactic_solver/solver.rb:204-224 | two solvers that differ in when they collect garbage export the same rows with time to live, after every run |
| Solver.NeedIsServed | psp/lib/tactic_solver/solver.rb:68-102 | in any state, a tick stops exactly when its batch has two rows with one key or a need has two valid cached answers of one name and signpost; otherwise each need is sent every valid cached truth that answers it or, without one, starts exactly one resolution |
| TruthGossip.ExpiryAccount | psp/lib/tactic_solver/solver.rb:104-120 | in every run a stored copy expires at the origin's expiry plus the total time its messages were in transit, has a positive ttl, and has the name and text it was first provided with |
| TruthGossip.ExportsSucceed | psp/lib/tactic_solver/comms_agent.rb:258-265 | in every run exporting succeeds at every signpost |
| TacticPool.PoolRunsInOrder | psp/lib/tactic_solver/tactic_pool.rb:39-79 | in every run the i-th request of a tactic goes to the i-th thread given one and to no other; the rest wait in order, no more than threads warming up, none while a thread is idle; a thread serves the request it was given last |
| TacticPool.RunCreates | psp/lib/tactic_solver/tactic_pool.rb:53-68 | in every run a tactic has exactly one thread for each request that found none idle |
| TacticHelper.VersionsRefineMarks | psp/lib/tactic_solver/tactic_helper.rb:135-138 | in every sequence of messages in which the string keys keep up with what the blocks have seen, comparing versions and marking updated inputs call the same blocks and fail alike, recycling included |
| TacticHelper.UpdateCallsIff | psp/lib/tactic_solver/tactic_helper.rb:135-138 | for every state in which a block is satisfied and has seen everything, a message that updates one of its inputs calls it exactly when the version under the string key is at least the one it recorded; by the marks it is always due |
| TacticHelper.StoredRefinesIff | psp/lib/tactic_solver/tactic_helper.rb:229-296 | filing a truth in any state does to the versions what it should do to the marks exactly when the string key of its short form keeps up with every block that has run with it |
| TacticHelper.AliasHidesUpdate | psp/lib/tactic_solver/tactic_helper.rb:280-293 | from a new helper whose block requires y@d: two updates call it; then y@d@e sets the string key back, and the next update is not acted on although by the marks the block is due |
| TacticHelper.RecycledReactsAsNew | psp/lib/tactic_solver/tactic_helper.rb:108-122 | whatever a helper has been through, once recycled and told what its tactic is it reacts to every sequence of messages as a new helper with the same blocks |
| TacticHelper.CalledIffDue | psp/lib/tactic_solver/tactic_helper.rb:178-222 | in every pass a block is called iff it is due (its requirements are present and it has not run since the last recycling or an input was updated) and no block due before it recycles; each once, in order; marks afterwards with and without recycling |
| TacticHelper.PassCrashesIff | psp/lib/tactic_solver/tactic_helper.rb:178-199 | a pass fails exactly when, in the state before it, a block that is due recycles the tactic ahead of a block that requires nothing |
| TacticHelper.HandledCrashesIff | psp/lib/tactic_solver/tactic_helper.rb:135-138 | a message fails exactly then, or when the first truth ever does not tell whether the tactic is a daemon |
| TacticData.HoldsTheLast | psp/lib/tactic_solver/tactic_helper.rb:229-296 | after any sequence of truths, each key holds the name and the value of the last truth whose short form, or for a string key full name, it is, and what it held before if there is none |
| TacticData.AwaitsTheRest | psp/lib/tactic_solver/tactic_helper.rb:238-259 | from a new helper, after any sequence of truths, what is awaited are the two facts a daemon starts with, or the eight a tactic starts with, less the truths filed so far |
| SurgeClients.RunServesEachClient | tunnel_measurement/pttcp/surge_clt.c:377-524 | in every run each client goes its own way: whether its connection is new, active or done, whether it sleeps, is started again or is lost follows from the events on its own connections alone |
| SurgeSessions.RunConserves | tunnel_measurement/pttcp/surge_clt.c:377-524 | in every run the clients left are exactly the initial ones less those dropped by socket exceptions and failed connects, each once |
| SurgeSessions.NobodyMissingIff | tunnel_measurement/pttcp/surge_clt.c:377-524 | nobody is missing exactly when no pass had an exception on an active descriptor or a failed connect |
| Surge.SurgeClient.OnePass | tunnel_measurement/pttcp/surge_clt.c:378-524 | one pass of the action loop on the five sets is the five steps in order |
| ServerSessions.RunServesEach | tunnel_measurement/pttcp/simple_svr.c:86-150 | in every run with requests below 2^31 each descriptor is served as if it were alone: what it was last asked for, how much of that it has sent (as much as is owed and the socket takes, 1448 bytes at most at a time), and whether it is in use |
| ServerSessions.LeavesServed | tunnel_measurement/pttcp/pttcp_util.c:390-466 | in every such run a stream that goes away, other than on EPIPE, has sent exactly the bytes of its last request |
| ServerStreams.RunCountsIff | tunnel_measurement/pttcp/simple_svr.c:86-150 | in every run, opened less closed equals the number of active streams exactly when in no pass an accept failed after one that succeeded |
| ServerStreams.RunBalances | tunnel_measurement/pttcp/simple_svr.c:86-150 | in every run opened less closed, plus what failed accept calls had taken before failing, equals the size of the active set, across reports; with requests below 2^31 tx_sent <= tx_target throughout |
| SimpleServer.StreamServer.OnePass | tunnel_measurement/pttcp/simple_svr.c:86-149 | the loop body on descriptor sets is one pass of the counted model |
| NssBuffer.FillInHostent | client_resolver/nss-signpost.c:178-295 | too small a buffer is refused untouched; without a matching address TRYAGAIN; otherwise the reader gets the name and, in order, four bytes of every IPv4 address or all sixteen of every IPv6 address, and only [0, ms) is written |
| NssBuffer.GetHostByName3 | client_resolver/nss-signpost.c:297-331 | an unspecified family means IPv4, others than the two are refused; a failing gethostname gives UNAVAIL with its error; success exactly when an address matches and the size fits |
| NssBuffer.GetHostByName4 | client_resolver/nss-signpost.c:100-176 | a failing gethostname gives UNAVAIL with its error; too small a buffer is refused untouched; no address gives NOTFOUND with the name written; otherwise the list reads back as all addresses in order, each with the name and its interface index as scope |
| OAuthOrder.OrdersAgreeIff | socialnet/python-oauth2/oauth2/__init__.py:474-482 | for every list of pairs: sorting and then encoding gives the string of RFC 5849, which encodes and then sorts, exactly when no two pairs flip: where their names (or values, under one name) first differ, the smaller byte stays as it is and the larger is encoded |
| OAuthQuery.BaseStringCoversQueryIff | socialnet/python-oauth2/oauth2/__init__.py:470-474 | the base string covers every pair of the URL query, the signature apart, exactly when each name has one value and that value has no percent-escape left once it is decoded |
| OAuth.BaseStringsEqualIff | socialnet/python-oauth2/oauth2/__init__.py:824-834 | two base strings are equal exactly when method, URL and multiset of signed pairs agree |
| OAuth.EncodingsAgree | socialnet/python-oauth2/oauth2/__init__.py:476-482 | urlencode followed by the two whole-string replacements equals encoding every key and value on its own, for every list of pairs |
| OAuth.SigningKeysEqualIff | socialnet/python-oauth2/oauth2/__init__.py:830-832 | the key fixes both secrets, except that no token and an empty token secret give the same key |
| OAuth.DecodeBaseString | socialnet/python-oauth2/oauth2/__init__.py:824-834 | a decoder recovers method, URL and sorted pairs from the base string |
| OAuth.NormalizedParametersMean | socialnet/python-oauth2/oauth2/__init__.py:450-482 | the normalized parameters parse to a sorted list in which every pair but the signature is exactly as often as the request holds that value under that key and the query lists it |
| OAuth.BaseStringIgnoresOrder | socialnet/python-oauth2/oauth2/__init__.py:450-482 | the base string depends neither on the order the parameters are held in nor on that of the items of the URL query |
| Names.NameRoundTripIff | psp/lib/tactic_solver/tactic.rb:458-474 | a request is read back as made exactly when its resource is visible characters and its domain is of the class the parser allows |
| Names.DestinationRoundTrip | psp/lib/tactic_solver/tactic.rb:458-474 | so are destinations given whole and those completed from the tactic |
| FdSets.Drain | tunnel_measurement/pttcp/pttcp_util.c:256-281 | the loop s=0; fd=FD_FFSandC; s=fd+1 visits exactly the members up to maxfd, in increasing order, each once, and leaves none; with descriptor 0 in the set it visits nothing |
| FdSets.Scan | tunnel_measurement/pttcp/pttcp_util.c:227-254 | the FD_FFS loop visits the same, even when the body clears what is visited, and changes nothing else |
| BitWords.PopCountIsSize | tunnel_measurement/pttcp/pttcp_util.c:198-205 | the masked additions on a 32-bit word count exactly its one bits |
| Flood.LateCopyIsAcceptedAgain | psp/lib/tactic_solver/comms_agent.rb:237-246 | a concrete run with a copy 31 seconds late in which one signpost accepts twice |
| SurgeSessions.ExceptionLosesClient | tunnel_measurement/pttcp/pttcp.c:531-593 | one pass with an exception on the only active descriptor, after which its client is in none of the sets |
| SurgeSessions.RefusedConnectLosesClient | tunnel_measurement/pttcp/surge_clt.c:500-523 | one pass with one failed connect, after which the client is in none of the sets |
| ServerStreams.FailureLosesCount | tunnel_measurement/pttcp/pttcp.c:453-525 | one pass with one accept and then a failure: opened less closed is 0 while one stream is active |
| TacticHelper.RecyclingAheadFails | psp/lib/tactic_solver/tactic_helper.rb:178-199 | from a new helper: a message calls a block that recycles, ahead of one that requires nothing, and the pass fails |
| TacticHelper.AliasesExist | psp/lib/tactic_solver/tactic_helper.rb:263-276 | such names exist: y, y@d and y@d@e |
| Solver.SameTickIsMissed | psp/lib/tactic_solver/solver.rb:58-66 | in the tick in which it first subscribes an asker is pushed nothing |
| SolverHistory.TwoProvidersStop | psp/lib/tactic_solver/solver.rb:23-81 | from an empty solver: one truth from two providers at one signpost, then a need for it, and the tick stops |
| FloodReplies.ReplyCutsOff | psp/lib/tactic_solver/comms_agent.rb:154-264 | four signposts in a row, one of which answers with the payload: the flood ends and the one behind it has not heard |
| OAuthOrder.OrdersDiffer | socialnet/python-oauth2/oauth2/__init__.py:474-482 | the parameters c2 and c@ of the example in section 3.4.1.3.2 of RFC 5849 come out in the other order |
| OAuthQuery.QueryMisread | socialnet/python-oauth2/oauth2/__init__.py:607-612 | a=1&a=2 is read as a=1, and a=%2541 as a=A |
| TruthGossip.StepSends | psp/lib/tactic_solver/solver.rb:104-111 | each step puts in flight exactly: what is passed on, with one leg more; what this signpost's own tactics have provided, and nothing from outside; what is exported, with the time it has left |
| SolverHistory.StoredInTickIff | psp/lib/tactic_solver/solver.rb:42-47 | a tick leaves in the table exactly what it has stored and what was there and has neither been replaced nor, if garbage is collected, run out |
| SolverHistory.NewSolverHolds | psp/lib/tactic_solver/solver.rb:228-245 | a new solver holds two truths, for everybody, with a ttl of a million seconds |
| TacticPool.AskMeans | psp/lib/tactic_solver/tactic_pool.rb:53-68 | a request goes to the thread idle longest; when none is, it joins the queue and one thread is started |
| TacticPool.ReadyMeans | psp/lib/tactic_solver/tactic_pool.rb:39-43 | a thread that has connected or is done takes the request that has waited longest, or joins the idle ones |
| ServerSessions.AcceptsShown | tunnel_measurement/pttcp/pttcp.c:453-525 | a descriptor is in use afterwards exactly if it was or a listener hands it out before any accept fails; it then owes nothing |
| ServerSessions.RequestsShown | tunnel_measurement/pttcp/pttcp_util.c:363-387 | where a request was read it is what the stream is to send, from the start; nothing else changes |
| OAuth.HeldCounted | socialnet/python-oauth2/oauth2/__init__.py:453-467 | a pair is collected as often as the request holds that value under that key, and never for oauth_signature |
| TacticData.NamesAreShortened | psp/lib/tactic_solver/tactic_helper.rb:263-276 | resource@domain and resource@domain:port have the short form resource |
| Names.ParsesLongest | psp/lib/tactic_solver/tactic_helpers.rb:20-31 | what follows the @ is read as far as it goes: letters, digits and three marks for the domain, then, after a colon, the digits of the port |
| Names.DestinationComesFirst | psp/lib/tactic_solver/tactic.rb:458-474 | a destination given whole overrides a domain and a port; what is not given is the own |
| NssBuffer.MatchingPicks | client_resolver/nss-signpost.c:205-207 | the matching addresses are those of the family, each once, in the order in which they were found |
| TruthGossip.StepTakes | psp/lib/tactic_solver/solver.rb:104-111 | a copy leaves the flight exactly when it is delivered or dropped; a delivered one waits at its destination, and a tick uses up those it stores |
| OAuth.RequestDecoded | socialnet/python-oauth2/oauth2/__init__.py:824-834 | the base string decodes to the method, the URL and the sorted pairs, in this order |
| OAuthQuery.EscapesMean | socialnet/python-oauth2/oauth2/__init__.py:611 | what is decoded a second time is a percent sign before two hex digits of either case |
| OAuthQuery.UnquoteEscape | socialnet/python-oauth2/oauth2/__init__.py:611 | decoding undoes the encoding of every byte string |
| ServerSessions.OwedMeans | tunnel_measurement/pttcp/pttcp_util.c:392 | what is owed is the signed reading of a difference of 32-bit numbers |
| ServerSessions.HugeRequest | tunnel_measurement/pttcp/pttcp_util.c:390-466 | where that is negative the socket is given all it takes |
| Flood.RunCovers | psp/lib/tactic_solver/comms_agent.rb:154-246 | in every run, pruning and further origins included: every neighbour of a signpost that accepted has accepted, is an origin or has a copy on the way, and what is cached has been heard |
| FloodRepeats.AcceptedOnceIff | psp/lib/tactic_solver/comms_agent.rb:154-246 | in every run nobody accepts a payload twice exactly when no copy of it reaches a signpost that has accepted and forgotten it |
| Flood.OriginStartsFlood | psp/lib/tactic_solver/comms_agent.rb:170-215 | originating a payload nobody has heard of establishes the flooding invariant |
| Flood.DeliverKeepsFlooding | psp/lib/tactic_solver/comms_agent.rb:154-168 | a delivery keeps it: every neighbour of a signpost that accepted has accepted, is the origin or has a copy on the way |
| Flood.OtherStepsKeepFlooding | psp/lib/tactic_solver/comms_agent.rb:195-246 | so do new payloads, pruning and time |
| Flood.ShortRunForgetsNothing | psp/lib/tactic_solver/comms_agent.rb:237-246 | no entry ages out in a run that ends within 30 seconds of the origin |
| Flood.DeliverAccounts | psp/lib/tactic_solver/comms_agent.rb:154-226 | each delivery of a copy decreases copies in flight plus copies that may still be sent, so every delivery order ends |
| CommsAgent.CommunicationCentre.NewChannel | psp/lib/tactic_solver/comms_agent.rb:116-136 | a channel to itself is refused; any other is kept and asked for signposts and truths |
| CommsAgent.CommunicationCentre.ChannelClosed | psp/lib/tactic_solver/comms_agent.rb:138-152 | all channels of that name go, the others stay in order, and a new signpost is looked for exactly when none is left |
| CommsAgent.ReceivedExplained | psp/lib/tactic_solver/comms_agent.rb:154-168 | a payload in the cache changes nothing and sends nothing; any other is cached with the time iff it spreads, and then goes exactly once to each channel but those of the sender; truths are learned, a query that names this signpost is taken on, and requests are answered to the sender alone |
| CommsAgent.CommunicationCentre.BroadcastTo | psp/lib/tactic_solver/comms_agent.rb:204-215 | the payload is cached with the time and exactly one copy goes to each channel but those of the sender |
| CommsAgent.CommunicationCentre.DistributeTruths | psp/lib/tactic_solver/comms_agent.rb:170-181 | exactly one copy goes to every channel and nothing is cached |
| CommsAgent.CommunicationCentre.RemoteResolve | psp/lib/tactic_solver/comms_agent.rb:195-201 | the request is cached with the time, every other entry stays, and exactly one copy goes to each channel |
| CommsAgent.CommunicationCentre.PruneBroadcastCache | psp/lib/tactic_solver/comms_agent.rb:237-246 | an entry is kept, with its time, exactly when its time is at most 30 seconds ago |
| SolverHistory.SubscribersIff | psp/lib/tactic_solver/solver.rb:50-66 | after any run, the subscribers are those who asked and have neither left nor asked again since |
| SolverHistory.TruthsIff | psp/lib/tactic_solver/solver.rb:104-120 | after any run, the valid truths are those provided in it that have not run out or been replaced |
| SolverHistory.StartsAsProvided | psp/lib/tactic_solver/solver.rb:228-245 | a new solver holds what an empty one holds that has been given the two initial truths |
| Solver.Storable | psp/lib/tactic_solver/solver.rb:115-120 | exactly the provided truths with positive ttl are stored, with expiry now + ttl |
| Solver.Joining | psp/lib/tactic_solver/solver.rb:58-66 | every need and observation becomes a subscription under its key |
| Solver.TruthsAfter | psp/lib/tactic_solver/solver.rb:43-47 | after a tick a stored truth is one just provided or one that was there |
| Solver.TestIsExact | psp/lib/tactic_solver/solver.rb:84-89 | although the existence test ignores who asked, it holds exactly when the need itself is answered from the cache |
| Solver.SubscriptionLasts | psp/lib/tactic_solver/solver.rb:50-54 | a subscription stays until its owner leaves or the key is used again |
| Solver.RunStaysCacheable | psp/lib/tactic_solver/solver.rb:204-224 | in every run only truths with positive ttl are stored and exporting never meets a non-cacheable one |
| TruthGossip.StepIsAccounted | psp/lib/tactic_solver/solver.rb:104-120 | delivery, forwarding, storing, exporting and time keep the account of every copy |
| TruthGossip.OriginsAreProvided | psp/lib/tactic_solver/solver.rb:104-111 | every origin is a truth some tactic provided in a tick of the run |
| TacticPool.NextKeepsValid | psp/lib/tactic_solver/tactic_pool.rb:39-79 | every step keeps: one state per thread, FIFO order, waiting <= warming, none waits while one is idle |
| TacticPool.ThreadPool.TacticThreadReady | psp/lib/tactic_solver/tactic_pool.rb:39-43 | a connected or recycled thread serves the first waiting request or becomes idle |
| TacticPool.ThreadPool.Explore | psp/lib/tactic_solver/tactic_pool.rb:16-24 | one request per matching entry, in order |
| TacticPool.ExploredAsks | psp/lib/tactic_solver/tactic_pool.rb:16-24 | an exploration asks each tactic once per matching entry and no other tactic |
| TacticHelper.FiledMarksIff | psp/lib/tactic_solver/tactic_helper.rb:280-293 | filing a truth marks a block that has run with that input, and no other, exactly when the string key has kept up with the block |
| TacticHelper.UpdateNoticedIff | psp/lib/tactic_solver/tactic_helper.rb:280-293 | for a block that has run with the input: after the update the input counts as changed iff the version under the string key was at least the version the block recorded under the symbol |
| TacticHelper.UnaliasedKeepsUp | psp/lib/tactic_solver/tactic_helper.rb:263-293 | the string keys keep up in every sequence of messages in which no truth is named like the short form of another one present |
| TacticHelper.HandledRefines | psp/lib/tactic_solver/tactic_helper.rb:135-138 | a whole message, truths and pass, does to versions what it does to marks |
| TacticHelper.PassRefines | psp/lib/tactic_solver/tactic_helper.rb:178-222 | comparing versions calls the blocks the marks call and clears their marks |
| TacticHelper.DeclaredBlock | psp/lib/tactic_solver/tactic_helper.rb:66-68 | declaring a block adds one that has not run, with its requirements, and changes nothing for the others |
| TacticVersions.CalledIsCurrentIff | psp/lib/tactic_solver/tactic_helper.rb:178-222 | after a pass without recycling, a called block has recorded exactly the versions there are, iff it had not recorded higher ones before |
| TacticHelper.Helper.ExecuteUserBlocks | psp/lib/tactic_solver/tactic_helper.rb:178-222 | one pass over the blocks; nothing while something is pending |
| TacticHelper.Helper.DealWithInput | psp/lib/tactic_solver/tactic_helper.rb:229-296 | all truths of the message are filed in order |
| SurgeSessions.SmoothRunConserves | tunnel_measurement/pttcp/surge_clt.c:344-524 | without exceptions and failed connects the clients in the five sets are the initial ones after every step of every pass |
| SurgeSessions.CountsAddUp | tunnel_measurement/pttcp/surge_clt.c:485-498 | conserved clients make the sizes of the five sets add up to their number |
| SurgeSessions.SinkConserves | tunnel_measurement/pttcp/pttcp.c:531-593 | sinking loses exactly the clients of descriptors dropped by exceptions |
| SurgeSessions.StartConserves | tunnel_measurement/pttcp/surge_clt.c:500-523 | connecting loses exactly the clients whose connection failed |
| Surge.Select | tunnel_measurement/pttcp/pttcp.c:544-545 | select leaves in the set exactly the descriptors that are ready |
| Surge.SurgeClient.OpenAll | tunnel_measurement/pttcp/surge_clt.c:344-375 | afterwards every client owns exactly one descriptor, its own, and nothing sleeps |
| Surge.SurgeClient.SendRequest | tunnel_measurement/pttcp/pttcp.c:599-647 | exactly the writable new descriptors become active |
| Surge.SurgeClient.SinkData | tunnel_measurement/pttcp/pttcp.c:531-593 | exceptions are dropped, those at end of file become finished and are counted |
| Surge.SurgeClient.CloseFinished | tunnel_measurement/pttcp/surge_clt.c:386-449 | the clients of all finished descriptors, and no others, go to sleep |
| Surge.SurgeClient.WakeSleepers | tunnel_measurement/pttcp/surge_clt.c:453-483 | exactly the sleepers that are due come to want to run |
| Surge.SurgeClient.ConnectWanting | tunnel_measurement/pttcp/surge_clt.c:500-523 | every client that wants to run is given a descriptor of its own or, when socket creation fails, is lost |
| Surge.SurgeClient.CountAll | tunnel_measurement/pttcp/surge_clt.c:485-498 | the five FD_POP counts add up to the number of clients |
| ServerStreams.PassMissesIff | tunnel_measurement/pttcp/pttcp.c:453-525 | a pass loses count of connections exactly when an accept fails at a later listener than the first; it then loses as many as come before that one |
| ServerStreams.RunMissesIff | tunnel_measurement/pttcp/simple_svr.c:86-150 | in every run nothing is missed exactly when no pass does this |
| ServerStreams.AcceptCounts | tunnel_measurement/pttcp/pttcp.c:453-525 | the active set grows by the descriptors taken; the result is their number unless the call fails |
| ServerStreams.WritesCount | tunnel_measurement/pttcp/pttcp_util.c:390-466 | each descriptor that leaves the active set is counted once, the others keep their state |
| ServerStreams.WriteLeavesIff | tunnel_measurement/pttcp/pttcp_util.c:390-466 | a stream leaves exactly when the last byte asked for is written or on EPIPE with something left; it never sends more than asked, nor more than a buffer at a time |
| ServerStreams.PassKeepsBalance | tunnel_measurement/pttcp/simple_svr.c:86-150 | a pass keeps opened less closed, plus the descriptors missed by failed accepts, equal to the size of the active set |
| ServerStreams.PassStaysWithin | tunnel_measurement/pttcp/pttcp_util.c:363-466 | with requests below 2^31 every stream keeps tx_sent <= tx_target |
| SimpleServer.StreamServer.AcceptIncoming | tunnel_measurement/pttcp/pttcp.c:453-525 | accepts on the ready listeners in increasing order, all of them unless a call fails |
| SimpleServer.StreamServer.SendData | tunnel_measurement/pttcp/pttcp_util.c:329-467 | reads requests from all readable, then writes to all writable active descriptors, in increasing order |
| SimpleServer.StreamServer.Streams | tunnel_measurement/pttcp/simple_svr.c:139-145 | the number of streams reported is the size of the active set |
| SimpleServer.PromisesHold | tunnel_measurement/pttcp/pttcp.c:482-521 | distinct unused descriptors from the system are never in use when they are handed out |
| NssBuffer.Align | client_resolver/nss-signpost.c:54 | the least multiple of the word size from a on |
| NssBuffer.CountMatching | client_resolver/nss-signpost.c:205-207 | the first pass counts the addresses of the family |
| NssBuffer.FillAddresses | client_resolver/nss-signpost.c:232-246 | the second pass puts the addresses of the family into consecutive slots and writes nowhere else |
| NssBuffer.FillPointers | client_resolver/nss-signpost.c:254-268 | the third pass writes the pointers to the slots, then NULL, and nothing else |
| NssBuffer.ListReadBack | client_resolver/nss-signpost.c:254-268 | following such an array to NULL yields the addresses in order, with alen bytes each |
| NssBuffer.HostentReadBack | client_resolver/nss-signpost.c:282-286 | name, empty aliases and address list read back through the returned pointers; arrays are word-aligned |
| NssBuffer.FillHost | client_resolver/nss-signpost.c:220-292 | after the size check idx comes out as ms and the result reads back |
| NssBuffer.FillTuples | client_resolver/nss-signpost.c:153-166 | the tuples are written back to front, each linked to the one before, ending with idx equal to ms |
| NssBuffer.TuplesReadBack | client_resolver/nss-signpost.c:153-169 | following next from the last tuple written shows the addresses in order, then NULL |
| NssBuffer.TuplesApart | client_resolver/nss-signpost.c:153-169 | tuples lie at distinct word-aligned places and do not overlap |
| OAuth.ParseJoinEscaped | socialnet/python-oauth2/oauth2/__init__.py:476-482 | the normalized parameters can be parsed back into the list of pairs |
| OAuth.SortSorts | socialnet/python-oauth2/oauth2/__init__.py:476 | sorting orders by key then value and keeps the pairs |
| OAuth.BelowMeans | socialnet/python-oauth2/oauth2/__init__.py:476 | the order of byte strings: the first byte that differs decides, a prefix comes first |
| OAuth.SortedByKeyThenValue | socialnet/python-oauth2/oauth2/__init__.py:476 | in the sorted list keys ascend, and under one key values do |
| OAuth.SortedIsUnique | socialnet/python-oauth2/oauth2/__init__.py:476 | a collection of pairs has one sorted list |
| OAuth.GetNormalizedParameters | socialnet/python-oauth2/oauth2/__init__.py:450-482 | collecting, sorting and encoding gives the sorted pairs joined escaped, signature excluded |
| OAuth.HeldOrderDoesNotMatter | socialnet/python-oauth2/oauth2/__init__.py:453-467 | the order in which the request yields its parameters does not change the collection of pairs |
| OAuth.QueryOrderDoesNotMatter | socialnet/python-oauth2/oauth2/__init__.py:470-474 | nor does the order of the items of the URL query |
| OAuthQuery.QueryCoveredIff | socialnet/python-oauth2/oauth2/__init__.py:607-612 | what is read of the query is all of it exactly under the same condition |
| OAuthQuery.SplitUrlString | socialnet/python-oauth2/oauth2/__init__.py:607-612 | the loop reads, for each name, the first value, decoded once more |
| OAuthQuery.UnquoteKeepsIff | socialnet/python-oauth2/oauth2/__init__.py:611 | decoding leaves a string as it is exactly when no percent sign in it is followed by two hex digits |
| OAuthOrder.EscapeKeepsOrderIff | socialnet/python-oauth2/oauth2/__init__.py:156-158 | encoding keeps the order of two byte strings exactly when they do not flip |
| OAuth.SignatureIsNotSigned | socialnet/python-oauth2/oauth2/__init__.py:454-455 | setting oauth_signature leaves what is signed as it was |
| OAuth.SigningBase | socialnet/python-oauth2/oauth2/__init__.py:820-835 | key and base string, or an error without a normalized URL |
| PercentEncoding.UnescapeEscape | socialnet/python-oauth2/oauth2/__init__.py:156-158 | escape is undone by percent-decoding, so it is injective |
| PercentEncoding.EscapedCharacters | socialnet/python-oauth2/oauth2/__init__.py:156-158 | only unreserved characters and % are left, and a string stays as it is exactly when all of it is unreserved |
| PercentEncoding.EscapeIsFree | socialnet/python-oauth2/oauth2/__init__.py:156-158 | an escaped string contains neither delimiter |
| PercentEncoding.ReplaceTildeAppend | socialnet/python-oauth2/oauth2/__init__.py:482 | the replacement of %7E never straddles a token boundary |
| PercentEncoding.RoutesAgree | socialnet/python-oauth2/oauth2/__init__.py:476-482 | quote_plus and the two replacements give what escape gives, for every string |
| Names.SplitPrinted | psp/lib/tactic_solver/tactic_helpers.rb:20-25 | the name is cut at its last @ |
| Names.DecimalReadBack | psp/lib/tactic_solver/tactic_helpers.rb:30 | to_i undoes the printing of a port |
| Names.ParsePrinted | psp/lib/tactic_solver/tactic_helpers.rb:20-31 | what the printer writes is parsed back |
| Names.AnyDomainOf | psp/lib/tactic_solver/solver.rb:133-138 | the name for any domain of resource@destination is resource@ANY |
| FdSets.FdPop | tunnel_measurement/pttcp/pttcp_util.c:209-225 | the count is the number of members of the set in 0..maxfd |
| FdSets.FdFfs | tunnel_measurement/pttcp/pttcp_util.c:228-254 | the least member in start..maxfd; 0 when there is none or when it is descriptor 0 |
| FdSets.FdFfsAndC | tunnel_measurement/pttcp/pttcp_util.c:256-281 | the least member from the start of the word that holds start, taken out of the set; descriptor 0 is taken out too but reported as nothing found |
| FdSets.EnumerationUnique | tunnel_measurement/pttcp/pttcp_util.c:227-281 | a set has one increasing enumeration, so the two loops visit the same sequence |
| BitWords.FindFirst | tunnel_measurement/pttcp/pttcp_util.h:46 | ffs: one more than the place of the lowest one bit |
| BitWords.KeepUpTo | tunnel_measurement/pttcp/pttcp_util.c:218-221 | masking with the complement of -2 shifted keeps exactly the bits up to the given one |
| BitWords.KeepFrom | tunnel_measurement/pttcp/pttcp_util.c:237-241 | masking with all ones shifted keeps exactly the bits from the given one on |

## Left out

- Flood.FloodCoverage: "exactly once" assumes that no cache entry for the payload ages out, which `Flood.ShortRunForgetsNothing` gives for 30 seconds; `Flood.FloodReaches` and `FloodRepeats.FloodAcceptsTwiceIff` say what holds without it. The channel graph is fixed during a flood.
- Flood.FloodReaches: assumes that nobody answers gimme_truths with the payload; `FloodReplies.FloodReachesIff` says what holds without that.
- Flood.FloodStaysConnected: assumes the same, since such an answer is an origin of another kind.
- Flood.FloodBound: under the same assumption on ageing; a signpost that accepts again forwards again, which `Flood.FloodSpends` counts.
- FloodRepeats.FloodAcceptsTwiceIff: assumes that the payload is not originated again on the way.
- TacticHelper.VersionsRefineMarks: assumes that the string keys keep up, as `TacticHelper.StoredRefinesIff` and `TacticHelper.AliasHidesUpdate` show it must; `TacticHelper.UnaliasedKeepsUp` gives it from the names of the truths.
- Surge.SurgeClient.SendRequest: the program's exit on an exception on a new descriptor is not modelled.
- ServerSessions.RunServesEach: for requests below 2^31; from there on the signed difference of the code is negative and a write is not held to the size of the buffer.
- SimpleServer.StreamServer.SendData: a socket exception or an unexpected write error ends the program and is not modelled; tx_sent_cpt, packet counts and times are not kept.
- Surge.SurgeClient.WakeSleepers: which sleepers are due is an input, object counts and think times included; the code mixes slots of descriptors and clients there.
- Surge.SurgeClient.ConnectWanting: for a failed connect the code writes the client id before the array; the model writes nothing.
- NssBuffer.GetHostByName4: the address lookup is an input: its result, or the error of the gethostname before it.
- Freshness of pushed truths: pushes to subscribers do not check the ttl, only cache answers do.
- TruthGossip.ExpiryAccount: a copy may be forwarded to any signposts and each truth travels by itself, which allows more than the gossip does.
- TacticHelper.HandledRefines: blocks do not add further blocks or change the data while they run; logging and outgoing messages are left out.
- TacticPool.PoolRunsInOrder: threads that die and tactics that refuse their request are left out, as are daemons.
- OAuth.GetNormalizedParameters: values that are not strings, UTF-8 conversion, parse_qs and the upper-casing of the method happen before the model starts.
- TacticData.HoldsTheLast: the source, user and signpost that are stored with a value are left out.
- HMAC and SHA1: the proofs stop at the base string and the key.
- Full-mesh discovery of signposts: the code asks for the connectable address of its own domain, so it does not decide who gets connected.
- Bandwidth figures, distributions, tvadd, tvsub and tveqless: easy or floating-point.
- simple_tx, simple_clt, cts_clt, simple_rx: the same set-moving steps with fewer states.
- Reverse lookup (gethostbyaddr): a search without a result buffer of its own.
- psp_python, simulation, routing_info and vendored libraries: wrappers and earlier variants.
