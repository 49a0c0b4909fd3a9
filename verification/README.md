# A verified model of an AODV implementation

This project models an ns-3 implementation of AODV (RFC 3561) in Dafny and
proves what it is for: that route discovery finds routes and ends, that routes
do not loop, that no packet waits forever, that broken links are reported to
whom it concerns, and that messages survive the wire.

The model has four layers.

* **Step functions** (`RouteTable`, `PacketQueue`, `IdCache`, `Discovery`,
  `LinkBreak`, `Routes`, `NodeEvents`): the state of one node as a value and
  what each handler does to it, branch by branch, with 8-, 16- and 32-bit
  fields that wrap as they do in the source. `NodeEvents.Apply` is one event of
  one node.
* **Objects** (`RoutingTable`, `RequestQueue`, `IdCache`, `PacketHeaders`,
  `RoutingProtocol`): the same handlers in the form the source has them, as
  methods that update fields in place with the source's loops. Routing table
  entries are copied by value but share a heap-allocated `Ipv4Route`, so writing
  the next hop of a looked-up copy changes the stored entry. Every method is
  proved to change the state exactly as its step function, and
  `RoutingProtocol.Dispatch` does so for any event.
* **Handlers and runs** of one node: what it asks, learns, answers and passes
  on (`OwnRequests`, `ReverseNumbers`, `KnownNumbers`, `AnsweredRequests`,
  `TakenReplies`, `Freshness`, `Precursors`, `Acknowledgements`), its search,
  queue and data packets (`RingSearch`, `SearchRuns`, `RetryOutcomes`,
  `RetryLimit`, `RetryBound`, `NoStrandedPacket`, `Flush`, `DataPackets`), its neighbours
  and route errors (`Announcements`, `NeighborWatch`, `LinkCut`,
  `RerrBudget`), and the rest (`NodeRuns`, `StartedNodes`). `Frames`,
  `NodeFrames`, `TableSteps` and `Emissions` say what handlers leave alone and
  what they send.
* **Runs of a network** whose nodes exchange messages in any order: floods
  (`Network`, `Flood`, `FloodLimits`, `FloodRuns`), loops (`LoopFreedom`,
  `LoopExactly`, `InOrder`, `OutOfOrder`), discovery (`SteadyNode`,
  `ReplyDelivery`, `ReplyRuns`, `ReachBound`, `RingRuns`), the packets sent
  over what it finds (`PacketDelivery`) and the reports that come back when it
  breaks (`PathPrecursors`, `ReportsReturn`, `ReportRuns`, `RerrCascade`).

`NodeEvents.Started` is a node with its loopback and broadcast routes in place;
the concrete runs and the base cases of the invariants begin there.

`dafny verify dfyconfig.toml` checks the whole project.

## How the source is read

* Time is a parameter `now`; timers are optional deadlines; postponed calls of
  `SendRequest` are a multiset; socket sends and callbacks are append-only logs.
  Random jitter is arbitrary delivery order.
* `NS_ASSERT` is taken as compiled out, so a RERR may list more than 255
  destinations; it is then not sent when its one-byte count reads zero.
  `NS_ABORT_MSG_UNLESS` sets `aborted`, after which no event is enabled.
* The difference of two `int32_t` is taken to wrap, and `1 << n` is the power
  of two; from 31 on C++ leaves it undefined, and the retry bound assumes at
  most 31.
* `DeletePeriod`, `PathDiscoveryTime` and `HelloInterval` reach the routing
  table, the duplicate cache and the neighbour list only as the values their
  constructors were given (15 s, 5.6 s, 1 s), not as the attributes set later;
  `Config` therefore has `badLinkLifetime`, `idLifetime` and `neighborDelay`.
* What the code does differs from its comments in places, and the model follows
  the code: the reverse route takes over next hop and hop count whatever the
  sequence numbers say and keeps an INVALID or IN_SEARCH flag; when the sender
  is the originator, the neighbour block clears the valid-number flag that was
  just set; the lifetime branch of `UpdateRouteToNeighbor` changes only a copy;
  the retry limit is compared with `==`; a packet pinned to another device is
  discarded silently and ends the flush; the RERR counter grows only when a
  broken link is reported by unicast, so broadcasts and reports about missing
  routes do not use it up; a route that a reply replaces starts with no
  precursors; a destination that is asked for more than its next number answers
  with an older one; a hello overwrites the number known of its
  sender without a comparison; entries of unknown next hops are written back under the default
  address 102.102.102.102 if that address has an entry.

## Model

| member | source | states |
|---|---|---|
| `LoopFreedom.ReverseRoutesNeverLoop` | model/madaodv-routing-protocol.cc:1333-1445 | over every run of any number of nodes in which no node processes a request of the originator after the same or a later one, following next hops towards the originator never visits a node twice; requests may be lost, repeated, delayed and heard anywhere, and every other event may happen in between |
| `InOrder.OrderedFloodsNeverLoop` | model/madaodv-routing-protocol.cc:1333-1445 | while duplicate records live it is enough that no node processes an older request of the originator after a newer one: then next hops towards it never visit a node twice |
| `InOrder.EventKnows` | model/madaodv-id-cache.cc:35-49 | no event makes a node forget a request before its record runs out |
| `LoopFreedom.StepInv` | model/madaodv-routing-protocol.cc:1333-1445 | the ranking behind it, kept by every step: a next hop towards the originator is the originator itself, nobody, or a node that processed a later flood or the same flood fewer hops out; every request on the air ranks below its sender |
| `OutOfOrder.ThreeNodesLoop` | model/madaodv-routing-protocol.cc:1368-1414 | the order of floods is needed: a run of three started nodes, five moves of it in order and a sixth that processes what was relayed of an older flood, after which the routes of two nodes towards the originator go through each other |
| `LoopExactly.OutOfOrderExactly` | model/madaodv-routing-protocol.cc:1394-1414 | a request that is processed out of order closes a loop exactly when next hops towards the originator led from the node that relayed it back to the receiver; one that is processed in order never does |
| `LoopExactly.RunExactly` | model/madaodv-routing-protocol.cc:1215-1268 | over every run of any events and any messages, replies about the node and repeated or reordered requests included: next hops towards a node stay loop-free exactly when no event closes a loop, that is, no node processes a request of that node, or takes over a reply about it, from a neighbour whose next hops led to the receiver before |
| `LoopExactly.StepExactly` | model/madaodv-routing-protocol.cc:1215-1268 | the same for each single event at a node of a loop-free network |
| `LoopExactly.EventRoutes` | model/madaodv-routing-protocol.cc:1368-1732 | the events that redirect a route: after a processed request its origin, and after a reply that is taken over its destination, is reached through the sender; any other event leaves the next hop, drops the entry, or makes it lead to the node itself or nowhere |
| `LoopExactly.OrderNeverCloses` | model/madaodv-routing-protocol.cc:1333-1445 | in runs that process the floods in order no event closes a loop |
| `LoopFreedom.ProcessToward` | model/madaodv-routing-protocol.cc:1368-1445 | after processing a request the route to its origin goes through the sender with one hop more than the request says, or straight to the origin, whatever was known before and whatever the sequence numbers are |
| `LoopFreedom.HearRequest` | model/madaodv-routing-protocol.cc:1333-1540 | when a request is accepted, the route to its origin goes through the sender, or straight to the origin, and the request is passed on, one hop further and with one TTL less, on every interface in turn or not at all; otherwise the route to the origin keeps next hop and hop count, disappears or becomes a one-hop route, and nothing is sent |
| `FloodRuns.FloodTerminates` | model/madaodv-routing-protocol.cc:1358-1362 | while duplicate records live, over every run in which copies arrive in any order or get lost and nodes handle any other events in between: arrivals of the flood so far plus the remaining potential (fresh nodes times a round of copies, plus copies in flight) never exceed the starting potential |
| `Flood.EmissionStep` | model/madaodv-routing-protocol.cc:1500-1540 | one delivery adds to a flood nothing, or once the received request with one TTL less and one hop more, and only at a node that had never heard of it |
| `FloodRuns.SentOnce` | model/madaodv-routing-protocol.cc:1358-1362 | over the same runs each node sends a given request, its own included, at most once if it was new to it and never again otherwise |
| `FloodRuns.HopCountPlusTtl` | model/madaodv-routing-protocol.cc:1364-1366 | over the same runs every copy of a launched flood in flight keeps hop count plus TTL equal to the originating TTL |
| `FloodRuns.RingBound` | model/madaodv-routing-protocol.cc:1380-1413 | over every run without replies that install a route to the originator and without other searches for it, no node records a reverse route longer than the largest TTL of the originator's requests |
| `ReplyRuns.ReplyNeverLost` | model/madaodv-routing-protocol.cc:1542-1570 | for any request of a search, the first one or a later ring, over symmetric lossless links and within the lifetimes: once the destination has the request there is at every moment exactly one reply in flight or the originator has its valid route, and the replies delivered never exceed the TTL of the request |
| `ReplyRuns.ReplyWithinItsTtl` | model/madaodv-routing-protocol.cc:1782-1800 | the destination's reply is delivered at most as often as its TTL, the reverse hop count, says; it is never dropped for its TTL |
| `ReplyRuns.RouteLeadsToDestination` | model/madaodv-routing-protocol.cc:1655-1752 | the originator's route leads over existing links and VALID entries to the destination, the hop count strictly decreasing along next hops, in no more links than its own hop count says |
| `ReachBound.ReachSufficesExactly` | model/madaodv-routing-protocol.cc:1333-1752 | a TTL is enough for every request of a search in every network of n nodes that joins originator and destination exactly when it is at least n - 1 |
| `ReplyRuns.DiscoverySucceeds` | model/madaodv-routing-protocol.cc:1333-1752 | with a TTL of at least the number of nodes less one and some path of links, once nothing is in flight the originator has a valid route |
| `ReachBound.FoundIsWithinReach` | model/madaodv-routing-protocol.cc:1500-1540 | whatever a discovery finds is joined to the originator by a path of at most as many links as the TTL |
| `ReachBound.DistanceIsNotEnough` | model/madaodv-routing-protocol.cc:1358-1366 | a TTL of the distance may be too small: the destination is two links away, but its only neighbour first hears the copy that went over a third node and has no TTL left to pass on |
| `ReachBound.ComesToRest` | model/madaodv-routing-protocol.cc:1333-1752 | from every state that a discovery can reach, delivering what is in flight ends with nothing in flight |
| `ReplyRuns.DiscoveryEnds` | model/madaodv-routing-protocol.cc:1333-1752 | a whole discovery is at most the flood potential plus the TTL in deliveries, in any order |
| `RingRuns.NextRing` | model/madaodv-routing-protocol.cc:1921-1961 | a ring that has come to rest without a route leaves a network in which the retry timer is due after exactly the wait of that ring and sends the next request, with the next number and the next TTL, from a state that meets every hypothesis again |
| `RingRuns.RingsSucceed` | model/madaodv-routing-protocol.cc:1049-1175 | so a search, ring after ring, never goes past the first ring whose TTL is at least the number of nodes less one, and when that ring has come to rest the originator has a valid route |
| `RingRuns.RingsFind` | model/madaodv-routing-protocol.cc:1049-1175 | from every such start there are deliveries, each ring at rest before its timer is due, that end with a route no later than that ring |
| `RingRuns.DefaultSearchSucceeds` | model/madaodv-routing-protocol.cc:145-185 | with the default parameters, in every connected network of n new nodes, n at most 36, the search succeeds at the latest at the first of the rings 1, 3, 5, 7 and 35 that is at least n - 1 |
| `RingRuns.DefaultSearchFinds` | model/madaodv-routing-protocol.cc:145-185 | and such a search that ends with a route exists in each of these networks |
| `ReachBound.TwoNodesFindEachOther` | model/madaodv-routing-protocol.cc:145-185 | two started nodes with the default parameters, which meet every hypothesis of DiscoverySucceeds, find each other with one request and one reply within two seconds |
| `ReachBound.DefaultsLast` | model/madaodv-routing-protocol.cc:145-185 | two seconds lie within every lifetime that nodes with the default parameters hand out, up to the network diameter in hops |
| `ReplyDelivery.PassStep` | model/madaodv-routing-protocol.cc:1755-1800 | a reply at a node on the way is passed on, to the originator or to a node that heard the request fewer hops out, and every part of the network invariant holds again |
| `ReplyDelivery.GetStep` | model/madaodv-routing-protocol.cc:1741-1752 | a reply at the originator ends the search with a VALID route and keeps the network invariant |
| `ReplyDelivery.AnswerStep` | model/madaodv-routing-protocol.cc:1450-1456 | the first request at the destination puts exactly one reply in flight, to the request's sender, with the reverse hop count as TTL |
| `SteadyNode.HearFirst` | model/madaodv-routing-protocol.cc:1333-1540 | when nothing expires, a first request at a node that knows no route to the destination: the exact messages sent, the route learned, and that no other route changed but the sender's |
| `SteadyNode.PassReply` | model/madaodv-routing-protocol.cc:1655-1800 | when nothing expires, a reply on its way: forward route through the sender with one hop more, the one message sent along the reverse route, all other routes as before |
| `RerrCascade.CascadeEnds` | model/madaodv-routing-protocol.cc:1860-1918 | if hop counts decrease along next hops towards a destination, then in every run without a discovery about it no node occurs twice in a chain of forwarded reports, and a chain is at most as long as there are nodes |
| `RerrCascade.ReportsOwnRoute` | model/madaodv-routing-protocol.cc:1867-1883 | a node passes on what a RERR says about a destination only if its own next hop towards it is the sender, as the handler finds the table, and also before the message came unless the sender is that destination |
| `RerrCascade.RepeatedRerrAffectsAgain` | model/madaodv-routing-protocol.cc:1867-1883 | nothing but the next hop stops a report: the same RERR affects the route it made INVALID again |
| `PathPrecursors.RouteIsListed` | model/madaodv-routing-protocol.cc:1764-1781 | on the route that a discovery finds, every node lists the node before it as a precursor of its route to the destination |
| `ReportsReturn.BreakComesBack` | model/madaodv-routing-protocol.cc:2075-2127 | wherever on a discovered route a link breaks, below the rate limit: the reports reach the originator in exactly as many deliveries as there are hops back, and its route to the destination is not VALID any more |
| `ReportRuns.LastBreakIsKnown` | model/madaodv-routing-protocol.cc:1860-1918 | when the last link of the route breaks and nothing but the destination is lost with it, then however the reports are delivered, once nothing is in flight the originator has no VALID route to the destination |
| `ReportsReturn.PassesOn` | model/madaodv-routing-protocol.cc:1860-1918 | a node of the route passes a report from its next hop on, and the node before hears it |
| `ReportsReturn.OriginatorLoses` | model/madaodv-routing-protocol.cc:1860-1918 | a report from the next hop about the destination costs the originator its VALID route |
| `PacketDelivery.PacketArrives` | model/madaodv-routing-protocol.cc:647-704 | a data packet that the originator sends over a discovered route is handed from node to node over existing links until it is at the destination, over no more hops than the originator's route says |
| `NoStrandedPacket.RunExactly` | model/madaodv-routing-protocol.cc:472-494 | every destination under search and every one with a queued packet has a running retry timer or a pending postponed request, after every event of a run that does not abort, exactly when every flush in it finishes or leaves its destination awaited |
| `NoStrandedPacket.StepExactly` | model/madaodv-routing-protocol.cc:1921-1961 | the same for each single event: output, postponed call, retry expiry, every received message, every timer |
| `NoStrandedPacket.RetryFlushExactly` | model/madaodv-routing-protocol.cc:1921-1945 | when the retry timer finds a route the invariant survives exactly when no live packet for the destination but the last is pinned to another interface, or a postponed request is pending |
| `NoStrandedPacket.ReplyFlushExactly` | model/madaodv-routing-protocol.cc:1741-1752 | the same for the flush that a reply sets off at the originator |
| `NoStrandedPacket.RecvReplyExactly` | model/madaodv-routing-protocol.cc:1655-1801 | any received reply keeps the invariant exactly when the flush it sets off, if any, finishes or leaves its destination awaited |
| `NodeRuns.PinnedPacketStrands` | model/madaodv-routing-protocol.cc:2059-2063 | a run that breaks it: a started node gets a packet pinned to another interface and a free one for the same destination, and then the reply; the free packet stays in the queue and nothing will take it out |
| `NodeRuns.FromStart` | model/madaodv-routing-protocol.cc:404-416 | over every run of a node from its start these invariants hold: the table, the request counter and, exactly when all flushes settle, no unattended packet |
| `RingSearch.SearchExactly` | model/madaodv-routing-protocol.cc:1070-1122 | an unanswered, never postponed search makes exactly floor((threshold - start) / increment) + 1 + retries requests, waits exactly the ring sum plus NetTraversalTime * (2^retries - 1), never aborts, and ends with entry, timer and packets gone |
| `SearchRuns.SearchRunExactly` | model/madaodv-routing-protocol.cc:472-494 | the same of whole runs: a packet for a new destination, and then any events that neither come from it nor are about it, with the timer not rate limited |
| `SearchRuns.BystanderLeaves` | model/madaodv-routing-protocol.cc:1215-1268 | those events leave the search and its timer alone: no message from the destination or about it, no postponed call for it that goes out, not its own timer, and no packet that starts a search for it |
| `RingSearch.DefaultSearch` | model/madaodv-routing-protocol.cc:145-185 | with the default parameters: six requests, and the packets fail after 10.32 s |
| `RingSearch.RingsExactly` | model/madaodv-routing-protocol.cc:1077-1083 | the TTLs follow that pattern exactly when the step out of the ring does not wrap in 16 bits and, with more than one retry, the wrapped sum of diameter and increment passes the threshold |
| `RingSearch.LeavesRingExactly` | model/madaodv-routing-protocol.cc:1077-1083 | the ring is left for the diameter exactly when start plus increments does not pass 16 bits; otherwise the ring starts over |
| `RingSearch.StaysAtDiameterExactly` | model/madaodv-routing-protocol.cc:1077-1083 | an entry at the diameter stays there exactly when the wrapped sum of diameter and increment passes the threshold; otherwise the ring starts over |
| `RingSearch.AbortsExactly` | model/madaodv-routing-protocol.cc:1196-1208 | SendRequest aborts exactly when, for a new destination, the first TTL is beyond the diameter, or, for a known one, the next TTL is beyond it with nothing counted yet or is the diameter while the 8-bit counter wraps |
| `RetryOutcomes.RetryExactly` | model/madaodv-routing-protocol.cc:1921-1961 | the retry timer flushes the queue exactly when there is a VALID route, asks again on every interface or puts that off to the next reset exactly when the search runs and its retries are not used up, and otherwise gives up: entry, timer and packets gone, every packet reported as failed |
| `RetryLimit.RetryLimitPassed` | model/madaodv-routing-protocol.cc:1049-1064 | a run that passes the retry limit: a started node with default parameters whose rate limit is used up gets seven packets for a new destination, and after the reset the seven postponed calls raise the retry counter to 3, past the limit of 2 |
| `RetryBound.RunExactly` | model/madaodv-routing-protocol.cc:1049-1122 | and nothing else does: over every run no retry counter passes the limit exactly when no postponed call goes out while its search has counted to the limit and stays at the diameter |
| `RetryBound.StepExactly` | model/madaodv-routing-protocol.cc:1049-1122 | the same for each single event, received messages and other searches included |
| `RingSearch.PostponedRequestPassesLimit` | model/madaodv-routing-protocol.cc:1049-1064 | during a regular search: a postponed call for it that comes due passes the limit exactly when it is not rate limited again, the wait is the last one and the search stays at the diameter |
| `RingSearch.PastTheLimitRun` | model/madaodv-routing-protocol.cc:1937-1950 | past the limit, compared with ==, every undisturbed expiry sends one more request, and the one at which the 8-bit counter wraps, and no earlier one, aborts the simulation |
| `NodeRuns.RunTableOk` | model/madaodv-routing-protocol.cc:1070-1122 | in every reachable table each key is its entry's destination, retry counters are zero unless the entry is under search, precursor lists have no duplicates |
| `NodeRuns.CounterIsOriginations` | model/madaodv-routing-protocol.cc:1052-1068 | the request counter equals the originations since the last reset and never exceeds the limit |
| `NodeRuns.WindowBound` | model/madaodv-routing-protocol.cc:1984-1989 | any half-open window of one second holds at most twice the limit of originations |
| `NodeRuns.PostponedIsKept` | model/madaodv-routing-protocol.cc:1053-1060 | a postponed request stays pending until its call, which sends it or postpones it again |
| `NodeRuns.HelloGap` | model/madaodv-routing-protocol.cc:1964-1981 | once paced, no event of any run comes later than one hello interval after the last broadcast before it |
| `NodeRuns.FirstHelloExactly` | model/madaodv-routing-protocol.cc:1964-1981 | the first expiry establishes the pace exactly when it comes at most one interval after an earlier request |
| `OwnRequests.EventAsks` | model/madaodv-routing-protocol.cc:1084-1175 | whatever event makes a node ask, each request is for that event's destination with the TTL its entry now holds, asks for the number the node knows or says that it knows none, carries the node's own number just raised, and has the configured flags |
| `OwnRequests.EventNumber` | model/madaodv-routing-protocol.cc:1130-1137 | the own number rises by one exactly when a request goes out or a request asks the node for exactly its next number; nothing else changes it |
| `OwnRequests.OwnNumber` | model/madaodv-routing-protocol.cc:1130-1137 | over every run the own number is the wrapped count of those events |
| `OwnRequests.LaterRequestIsNewer` | model/madaodv-routing-protocol.cc:1130-1137 | a later request of a node carries a newer own number than an earlier one, over any run of fewer than 2^31 - 1 events between them |
| `ReverseNumbers.OriginNumber` | model/madaodv-routing-protocol.cc:1380-1442 | a processed request leaves the larger of the two true counters as the originator's number, the header's if none was known, and, when it comes straight from the originator, the header's without the valid flag |
| `ReverseNumbers.RequestTeaches` | model/madaodv-routing-protocol.cc:1380-1442 | what a processed request leaves about its originator through all later writes, field by field: next hop, device, source, hops, number, flag, lifetime |
| `ReverseNumbers.RelayLearned` | model/madaodv-routing-protocol.cc:1418-1442 | and about the node that relayed it: a VALID one-hop route for ActiveRouteTimeout, with the originator's number written down but not as a valid one |
| `ReverseNumbers.OriginLearned` | model/madaodv-routing-protocol.cc:1380-1442 | the reverse route goes through the sender over the receiving interface with one hop more than the request says, and lives at least as long as the request's hop count allows and as before |
| `KnownNumbers.StepExactly` | model/madaodv-routing-protocol.cc:1215-1268 | while the number known of a node stays valid, an event makes it fall exactly when a reply brings an older one and overrides: a hello, a reply to a search of the node's own, or one that finds the number no longer valid; requests and all other events never do |
| `KnownNumbers.RunExactly` | model/madaodv-routing-protocol.cc:1215-1268 | so over every run the number never falls exactly when no such reply arrives |
| `KnownNumbers.NeverAsksForLess` | model/madaodv-routing-protocol.cc:1084-1097 | and then no later request for a destination asks for an older number than an earlier one did |
| `AnsweredRequests.AnswersExactly` | model/madaodv-routing-protocol.cc:1475-1540 | a node that is not the destination answers a request exactly when its route is VALID and numbered, does not lead to the sender, others may answer, and its true counter is not below the one asked for |
| `AnsweredRequests.RespondsExactly` | model/madaodv-routing-protocol.cc:1448-1633 | all that such a node sends: the answer with the number, the hops and the remaining lifetime of its route, back to the sender, with an acknowledgement asked for exactly at one hop, and the gratuitous reply exactly when asked for; or the request, one hop further; or nothing |
| `AnsweredRequests.PassedOnAsks` | model/madaodv-routing-protocol.cc:1500-1540 | a request that is passed on asks for the larger of the two true counters, or for the only one there is |
| `AnsweredRequests.AnswerPrecursors` | model/madaodv-routing-protocol.cc:1573-1633 | an answering node lists the sender for the route to the destination and the next hop there for the route to the originator, nobody else, and drops nobody |
| `AnsweredRequests.DestinationResponds` | model/madaodv-routing-protocol.cc:1542-1570 | the destination answers every request that it processes, to its sender, with hop count 0, its own lifetime and its own number, which it raises first exactly when asked for the next one |
| `AnsweredRequests.DestinationAnswersExactly` | model/madaodv-routing-protocol.cc:1553-1560 | its answer is as new as both its own number and the one asked for exactly when no more than its next number is asked for; asked for more it answers with an older number |
| `TakenReplies.ReplyRoutes` | model/madaodv-routing-protocol.cc:1682-1752 | a reply that is taken over leaves a VALID route through its sender with its number, one hop more and its lifetime; any other reply leaves the next hop alone |
| `TakenReplies.OwnReplyEndsSearch` | model/madaodv-routing-protocol.cc:1741-1752 | a reply for the node itself ends the search for its destination, with the retry timer, exactly when one runs; no reply touches another search |
| `TakenReplies.OwnReplyDelivers` | model/madaodv-routing-protocol.cc:1741-1752 | and every packet that it lets go is for its destination and goes over the route that the node then has |
| `Precursors.PassedPrecursors` | model/madaodv-routing-protocol.cc:1755-1800 | a reply that is passed on makes the next hop towards the originator a precursor of the routes to the destination and to the next hop there, and that next hop one of the routes to the originator and to the next hop towards it; nobody else becomes one and nobody is dropped, except that the entry of the next hop gains nothing when that next hop is the originator, because a stale copy is written back |
| `Precursors.ConnectExactly` | model/madaodv-routing-protocol.cc:1764-1781 | the four writes behind it, entry by entry |
| `Precursors.LearnedPrecursors` | model/madaodv-routing-protocol.cc:1682-1732 | a route that a reply replaces starts with no precursors; all other lists are kept |
| `DataPackets.ForwardsExactly` | model/madaodv-routing-protocol.cc:647-704 | a packet that is to be forwarded is delivered unchanged, once, over the route to its destination exactly when that is VALID; otherwise nothing is delivered and, below the limit, exactly that destination is reported towards the packet's origin or on every interface |
| `DataPackets.ForwardKeepsAlive` | model/madaodv-routing-protocol.cc:665-686 | forwarding keeps the routes to the destination, its next hop, the origin and the way back alive for at least ActiveRouteTimeout |
| `DataPackets.DeliveryKeepsAlive` | model/madaodv-routing-protocol.cc:604-628 | local delivery keeps the route to the origin and the way back alive for at least ActiveRouteTimeout |
| `DataPackets.ForwardHears` | model/madaodv-routing-protocol.cc:680-686 | forwarding keeps the next hop and the way back in the neighbour list for ActiveRouteTimeout |
| `DataPackets.DeliveryHears` | model/madaodv-routing-protocol.cc:604-628 | and local delivery the way back |
| `DataPackets.OutputExactly` | model/madaodv-routing-protocol.cc:419-470 | asking for a route prolongs it and the route to its next hop, to at least ActiveRouteTimeout from now, exactly when it is VALID and over the right device, and changes nothing else |
| `Announcements.HelloExactly` | model/madaodv-routing-protocol.cc:1964-2048 | the hello timer sends nothing when a broadcast stood in for the hello, and otherwise exactly one announcement per interface: own address, own number, hop count 0, TTL 1, AllowedHelloLoss hello intervals |
| `Announcements.BroadcastNoted` | model/madaodv-routing-protocol.cc:1049-1540 | whatever event makes a node send a request, its own or a relayed one, the hello timer will find it and let it stand in for a hello |
| `Announcements.HelloTeaches` | model/madaodv-routing-protocol.cc:1817-1857 | whoever hears a hello has a VALID one-hop route to the announced node with the announced number and an exact lifetime, and has it as an open neighbour |
| `Announcements.HelloMakesNeighbor` | model/madaodv-routing-protocol.cc:1817-2048 | so a hello of one node that another hears leaves there a VALID one-hop route with the sender's own number that lives as long as the sender may stay silent |
| `Announcements.NeighborLearnedExactly` | model/madaodv-routing-protocol.cc:1290-1330 | what hearing anything from a neighbour does to the table: a numbered one-hop route over the same device stays as it is, lifetime included; any other becomes a new VALID one-hop route without number and precursors that lives no shorter than before; nothing else changes |
| `NeighborWatch.SilentNeighborGone` | model/madaodv-neighbor.cc:118-140 | after every run, as long as the neighbour timer is not overdue, nobody is a neighbour for longer than the timer's delay after its time ran out |
| `NeighborWatch.StartWatched` | model/madaodv-routing-protocol.cc:404-416 | which holds of every run from the start |
| `NeighborWatch.HeardNeighborStays` | model/madaodv-neighbor.cc:79-101 | over every run a neighbour stays one until its time runs out unless a transmission error hits it |
| `NeighborWatch.EventGuards` | model/madaodv-neighbor.cc:79-191 | every event keeps the watch over the neighbours and loses none early |
| `Acknowledgements.ReplyAckedExactly` | model/madaodv-routing-protocol.cc:1636-1732 | a reply that asks for it and is no hello is acknowledged once, to its sender, before anything else is sent; no other reply is |
| `Acknowledgements.AckRevives` | model/madaodv-routing-protocol.cc:1804-1814 | an acknowledgement makes the route to its sender VALID, whatever it was, and changes nothing else |
| `Acknowledgements.AckReturns` | model/madaodv-routing-protocol.cc:1636-1814 | a reply that asks for it comes back as an acknowledgement that makes the route VALID |
| `RerrBudget.RunWithinLimits` | model/madaodv-routing-protocol.cc:1992-2270 | over every run in which each packet to forward finds a route, a node sends no more unicast reports about broken links, its own and those it passes on, than the limit allows between the resets of the counter |
| `RerrBudget.ResetReopens` | model/madaodv-routing-protocol.cc:1992-1997 | after a reset it reports again, however many it has sent before |
| `RerrBudget.NoRouteReportsUnlimited` | model/madaodv-routing-protocol.cc:2130-2186 | the limit does not bound reports about missing routes: for every n, n packets that cannot be forwarded bring n unicast reports, and none is counted |
| `StartedNodes.StartedExactly` | model/madaodv-routing-protocol.cc:404-416 | a started node has exactly the loopback route and one lasting route per broadcast address, over the first interface that has it; zero counters, no search, and its timers due |
| `Freshness.ReplyFreshness` | model/madaodv-routing-protocol.cc:1697-1781 | a reply about a VALID, numbered entry leaves exactly the fresher of old and new (number, hops), through all later writes of stale copies |
| `Freshness.ReceivedReplyFreshnessExactly` | model/madaodv-routing-protocol.cc:1655-1781 | for the whole received message the same, except exactly when the sender is the destination and the neighbour update rewrites its route first |
| `LinkCut.PurgeNeighborsCuts` | model/madaodv-neighbor.cc:118-140 | after the purge exactly the closed neighbours are gone, no route became VALID, and no VALID route goes to or through a removed neighbour that had an entry |
| `LinkCut.TxErrorCuts` | model/madaodv-neighbor.cc:178-191 | a transmission error takes the neighbours that it hits out of the list at once, and no VALID route goes to or through one of them that had an entry |
| `LinkCut.BreakLinkExactly` | model/madaodv-routing-protocol.cc:2075-2127 | exactly the VALID routes to or through the neighbour become INVALID for DeletePeriod; nothing else changes |
| `LinkCut.BreakLinkCutsExactly` | model/madaodv-routing-protocol.cc:2083-2086 | no VALID route uses the neighbour afterwards exactly when it has an entry or none used it before |
| `LinkCut.LostExactly` | model/madaodv-routing-protocol.cc:2087-2112 | the RERR lists exactly the neighbour and the destinations behind it with the table's numbers, and its precursors are the duplicate-free union of theirs |
| `LinkCut.BreakLinkReports` | model/madaodv-routing-protocol.cc:2075-2127 | breaking a link sends that RERR to those precursors, exactly when the neighbour has an entry and the one-byte count of lost destinations does not read zero |
| `LinkCut.RerrGoesTo` | model/madaodv-routing-protocol.cc:2189-2270 | a RERR with several precursors is broadcast on exactly the interfaces that lead to one of them over a valid route, once on each, with TTL 1 |
| `LinkCut.RecvErrorTable` | model/madaodv-routing-protocol.cc:1917-1917 | exactly the VALID routes that the RERR lists and that go through its sender become INVALID for DeletePeriod; no next hop or hop count changes |
| `LinkCut.RecvErrorForwards` | model/madaodv-routing-protocol.cc:1867-1916 | what is passed on lists exactly the listed destinations routed via the sender, with the received numbers, to the duplicate-free union of their precursors, or nothing |
| `LinkCut.AffectedSize` | model/madaodv-packet.cc:626-628 | the rebuilt list is never longer than the received one, so its size assertion cannot fail |
| `TableSteps.EventSpares` | model/madaodv-routing-protocol.cc:1215-1330 | whatever event happens, a route that it is not about keeps next hop and hop count, disappears, or turns into a one-hop route |
| `NodeFrames.RecvRequestQuiet` | model/madaodv-routing-protocol.cc:1333-1540 | processing a request leaves search, queue and request numbers alone, starts no search, and redirects no route but those to its origin, to the default address and to one-hop neighbours |
| `Flush.FlushClearsExactly` | model/madaodv-routing-protocol.cc:2051-2072 | a flush empties the queue for its destination exactly when no live packet but the last is pinned elsewhere, and touches no other destination |
| `Flush.FlushDelivers` | model/madaodv-routing-protocol.cc:2051-2072 | a flush hands over the live packets for its destination one by one in queue order, with the route's source and the TTL raised by one, up to the first that is pinned elsewhere, and takes exactly those and the pinned one out |
| `Flush.FlushStep` | model/madaodv-routing-protocol.cc:2055-2071 | one round of the flush loop: nothing left to do without a packet or at a pinned one, otherwise the rest of the flush |
| `Emissions.EventIssues` | model/madaodv-routing-protocol.cc:1139-1174 | apart from passing on what it received, a node only sends requests with its own address as origin and hop count 0 |
| `PacketQueue.RunConserves` | model/madaodv-rqueue.cc:51-104 | over every run with a limit of at least 1: accepted packets equal, as a multiset, queued plus dequeued plus failed ones; (uid, destination) stay unique; the limit holds; each destination is served first in, first out |
| `PacketQueue.EmptyRunConserves` | model/madaodv-rqueue.cc:51-104 | so for every queue that starts empty |
| `PacketQueue.StepOk` | model/madaodv-rqueue.cc:137-156 | the same for each single operation |
| `IdCaches.DuplicateExactly` | model/madaodv-id-cache.cc:35-49 | a query says duplicate exactly when the latest earlier query of that key that was told new made a record that has not run out, whatever lifetimes were set |
| `IdCaches.SizeCountsLive` | model/madaodv-id-cache.cc:57-62 | the size is the number of keys whose latest record is live |
| `IdCaches.CacheReflectsHistory` | model/madaodv-id-cache.h:112-115 | stored keys are unique and every live stored record is the latest one of its key |
| `SeqNo.NewerExactly` | model/madaodv-routing-protocol.cc:1398-1398 | the signed 32-bit difference of two counters' low halves is positive exactly when the first is ahead by less than half a turn around the circle |
| `SeqNo.NewerIsCounterOrder` | model/madaodv-routing-protocol.cc:1709-1709 | so it is the order of the true counters whenever they differ by less than 2^31 |
| `SeqNo.HalfTurnIsUnordered` | model/madaodv-routing-protocol.cc:1485-1487 | exactly half a turn apart neither number counts as newer or as at least as new |
| `RouteTable.LazyExpiryIsExact` | model/madaodv-rtable.cc:258-269 | whatever lookups came before, a lookup of valid routes finds an untouched VALID entry exactly up to its expiry |
| `RouteTable.InvalidatedStaysForDeletePeriod` | model/madaodv-rtable.cc:401-435 | an entry invalidated by a lookup is there exactly as long as no later lookup comes more than DeletePeriod after that |
| `RouteTable.SearchEntriesSurvive` | model/madaodv-rtable.cc:401-435 | an entry under search is never purged |
| `RouteTable.PurgeAllIsFate` | model/madaodv-rtable.cc:401-435 | what any pattern of lookups makes of an entry, said without running them |
| `RouteTable.PurgeIdempotentExactly` | model/madaodv-rtable.cc:401-435 | purging twice at one instant is purging once, for every table, exactly when DeletePeriod is not negative |
| `RouteTable.TableOpsKeepInvariant` | model/madaodv-rtable.cc:272-333 | purge, add, update, delete and invalidation keep the representation invariant |
| `Packets.MessageRoundTripExactly` | model/madaodv-packet.cc:68-94 | type byte and header of any of the four messages, with payload behind, read back as they were, except exactly a RERR with more than 255 destinations |
| `Packets.RreqRoundTrip` | model/madaodv-packet.cc:182-210 | RREQ: reading what was written gives the fields back |
| `Packets.RreqBytesRoundTrip` | model/madaodv-packet.cc:182-210 | RREQ: writing what was read gives the 23 bytes back |
| `Packets.RrepRoundTrip` | model/madaodv-packet.cc:339-366 | RREP: reading what was written gives the fields back |
| `Packets.RrepBytesRoundTrip` | model/madaodv-packet.cc:339-366 | RREP: writing what was read gives the 19 bytes back |
| `Packets.RerrRoundTripExactly` | model/madaodv-packet.cc:552-585 | RERR: reading what was written gives the map back, and consumes the serialized size, exactly for maps of 0 to 255 destinations |
| `Packets.RerrSizeAssertExactly` | model/madaodv-packet.cc:583-583 | the size assertion of Deserialize holds exactly for messages that list no address twice |
| `Packets.RerrBytesRoundTripExactly` | model/madaodv-packet.cc:552-585 | a RERR byte string is rewritten unchanged exactly when its addresses are strictly ascending |
| `RoutingTables.RoutingTable.RoutesUnshared` | model/madaodv-rtable.h:401-401 | in a valid table no two keys share an Ipv4Route object, and a copy can share its route only with the entry of its own destination |
| `RoutingTables.RoutingTable.SetNextHop` | model/madaodv-rtable.h:159-162 | writing the next hop of a looked-up copy changes the stored entry of that destination, and no other |
| `RoutingTables.RoutingTable.SetOutputDevice` | model/madaodv-rtable.h:177-180 | the same for the output device |
| `RoutingTables.RoutingTable.LookupRoute` | model/madaodv-rtable.cc:237-255 | purges first; the copy returned is the stored entry and shares its route object; otherwise the caller's entry is left as it was |
| `RoutingTables.RoutingTable.LookupValidRoute` | model/madaodv-rtable.cc:258-269 | the same, and whether the entry is VALID |
| `RoutingTables.RoutingTable.DeleteRoute` | model/madaodv-rtable.cc:272-283 | purge, then remove the one key; whether it was there |
| `RoutingTables.RoutingTable.AddRoute` | model/madaodv-rtable.cc:286-297 | purge, then add unless the key exists; the retry counter is cleared unless under search |
| `RoutingTables.RoutingTable.Update` | model/madaodv-rtable.cc:300-317 | overwrite the entry with the same destination, if any |
| `RoutingTables.RoutingTable.GetListOfDestinationWithNextHop` | model/madaodv-rtable.cc:336-352 | purge, then exactly the destinations routed through the node with their numbers |
| `RoutingTables.RoutingTable.InvalidateRoutesWithDst` | model/madaodv-rtable.cc:355-374 | purge, then exactly the listed VALID entries become INVALID |
| `RoutingTables.RoutingTable.Purge` | model/madaodv-rtable.cc:401-435 | the loop in key order computes the table-wide purge |
| `RoutingTables.RoutingTable.PurgeCopy` | model/madaodv-rtable.cc:438-471 | the const overload computes the same purge on a copy |
| `RoutingTables.RoutingTable.PurgeMap` | model/madaodv-rtable.cc:401-471 | one pass in key order, erasing and invalidating as it goes, leaves each entry as its own purge does |
| `RoutingTables.RoutingTable.MarkLinkAsUnidirectional` | model/madaodv-rtable.cc:474-488 | blacklists the entry with its timeout and clears its retry counter |
| `RoutingTables.RoutingTableEntry.InsertPrecursor` | model/madaodv-rtable.cc:79-91 | appends when absent, and says whether it did |
| `RoutingTables.RoutingTableEntry.GetPrecursors` | model/madaodv-rtable.cc:144-168 | appends to the list what it does not hold yet, in order |
| `RequestQueues.RequestQueue.Enqueue` | model/madaodv-rqueue.cc:51-70 | purge, refuse the same (uid, destination), drop the oldest when full, append with a fresh expiry |
| `RequestQueues.RequestQueue.DropPacketWithDst` | model/madaodv-rqueue.cc:73-88 | every live packet for the destination gets its ErrorCallback in order and leaves |
| `RequestQueues.RequestQueue.Dequeue` | model/madaodv-rqueue.cc:91-104 | the first live packet for the destination, taken out |
| `RequestQueues.RequestQueue.Purge` | model/madaodv-rqueue.cc:138-149 | exactly the expired packets get their ErrorCallback in order and leave |
| `RequestQueues.RequestQueue.Find` | model/madaodv-rqueue.cc:107-121 | whether a packet for the destination is stored, expired or not |
| `RequestQueues.RequestQueue.GetSize` | model/madaodv-rqueue.cc:44-48 | the size after a purge |
| `IdCaches.IdCache.IsDuplicate` | model/madaodv-id-cache.cc:36-49 | purge, scan, record when new; the answer and the new cache |
| `IdCaches.IdCache.Purge` | model/madaodv-id-cache.cc:52-55 | exactly the expired records leave, in order |
| `IdCaches.IdCache.GetSize` | model/madaodv-id-cache.cc:58-62 | the number of records after a purge |
| `PacketHeaders.RreqHeader.Serialize` | model/madaodv-packet.cc:182-192 | writes the bytes of the message format |
| `PacketHeaders.RreqHeader.Deserialize` | model/madaodv-packet.cc:195-210 | overwrites every field from the bytes and says how many it consumed |
| `PacketHeaders.RrepHeader.Serialize` | model/madaodv-packet.cc:339-348 | writes the bytes of the message format |
| `PacketHeaders.RrepHeader.Deserialize` | model/madaodv-packet.cc:351-366 | overwrites every field from the bytes and says how many it consumed |
| `PacketHeaders.RerrHeader.AddUnDestination` | model/madaodv-packet.cc:619-629 | inserts the pair unless the destination is listed; never fails |
| `PacketHeaders.RerrHeader.RemoveUnDestination` | model/madaodv-packet.cc:632-642 | takes out the least address |
| `PacketHeaders.RerrHeader.Clear` | model/madaodv-packet.cc:645-650 | empties map, flag and reserved byte |
| `PacketHeaders.RerrHeader.Serialize` | model/madaodv-packet.cc:552-563 | one-byte count, then the pairs in address order |
| `PacketHeaders.RerrHeader.Deserialize` | model/madaodv-packet.cc:566-585 | rebuilds the map from the counted pairs, the first of equal addresses staying |
| `RoutingProtocols.Neighbors.Update` | model/madaodv-neighbor.cc:79-101 | extends a known neighbour or adds it and purges; the whole new node state |
| `RoutingProtocols.Neighbors.Purge` | model/madaodv-neighbor.cc:118-140 | reports every closed neighbour in order through the failure callback, forgets them, restarts the timer; the whole new node state |
| `RoutingProtocols.Neighbors.ReportClosed` | model/madaodv-neighbor.cc:126-137 | the callback loop equals breaking the closed links one after another |
| `RoutingProtocols.Neighbors.ProcessTxError` | model/madaodv-neighbor.cc:178-191 | closes the neighbours behind the failed address, then purges |
| `RoutingProtocols.RoutingProtocol.Dispatch` | model/madaodv-routing-protocol.cc:1215-1268 | any enabled event changes the object exactly as one step of the event function, so every result about runs holds of the object |
| `RoutingProtocols.RoutingProtocol.UpdateRouteLifeTime` | model/madaodv-routing-protocol.cc:1271-1287 | a VALID route lives at least the given time longer |
| `RoutingProtocols.RoutingProtocol.UpdateRouteToNeighbor` | model/madaodv-routing-protocol.cc:1290-1330 | the sender is one hop away; the lifetime branch changes only a copy |
| `RoutingProtocols.RoutingProtocol.ScheduleRreqRetry` | model/madaodv-routing-protocol.cc:1185-1211 | the timer of the destination runs for the ring wait or the doubled wait, or the simulation aborts |
| `RoutingProtocols.RoutingProtocol.StartSearch` | model/madaodv-routing-protocol.cc:1066-1122 | the entry goes under search and its hop field becomes the TTL; the header gets the known number or the unknown flag |
| `RoutingProtocols.RoutingProtocol.BroadcastRequest` | model/madaodv-routing-protocol.cc:1139-1173 | one copy per interface with its own origin, each recorded as seen |
| `RoutingProtocols.RoutingProtocol.SendRequest` | model/madaodv-routing-protocol.cc:1049-1175 | postponed at the rate limit, otherwise entry, numbers, copies, duplicate records and timer; the whole new node state |
| `RoutingProtocols.RoutingProtocol.StartUp` | model/madaodv-routing-protocol.cc:404-416 | attaching and starting a new node: the loopback route, a route to each broadcast address, the timers; the whole new node state |
| `RoutingProtocols.RoutingProtocol.SetIpv4` | model/madaodv-routing-protocol.cc:707-732 | adds the loopback route |
| `RoutingProtocols.RoutingProtocol.NotifyInterfaceUp` | model/madaodv-routing-protocol.cc:735-779 | adds the route to the broadcast address of the interface |
| `RoutingProtocols.RoutingProtocol.PostponedSendRequest` | model/madaodv-routing-protocol.cc:1055-1059 | a postponed call is taken off the pending ones and made |
| `RoutingProtocols.RoutingProtocol.SendPacketFromQueue` | model/madaodv-routing-protocol.cc:2051-2072 | the loop delivers the live packets for the destination in order up to a pinned one, which is thrown away |
| `RoutingProtocols.RoutingProtocol.RouteRequestTimerExpire` | model/madaodv-routing-protocol.cc:1921-1961 | flush, give up, ask again or stop; the whole new node state |
| `RoutingProtocols.RoutingProtocol.DeferredRouteOutput` | model/madaodv-routing-protocol.cc:472-494 | enqueue, and ask for the destination unless it is under search |
| `RoutingProtocols.RoutingProtocol.HelloTimerExpire` | model/madaodv-routing-protocol.cc:1964-1981 | a broadcast since the last expiry stands in for the hello and shortens the next wait by its age |
| `RoutingProtocols.RoutingProtocol.SendHello` | model/madaodv-routing-protocol.cc:2007-2048 | one hello per interface |
| `RoutingProtocols.RoutingProtocol.RreqRateLimitTimerExpire` | model/madaodv-routing-protocol.cc:1984-1989 | the request counter restarts and the next reset is due in a second |
| `RoutingProtocols.RoutingProtocol.RerrRateLimitTimerExpire` | model/madaodv-routing-protocol.cc:1992-1997 | the RERR counter restarts |
| `RoutingProtocols.RoutingProtocol.SendRerrMessage` | model/madaodv-routing-protocol.cc:2189-2270 | nothing without precursors or at the limit, one unicast, or one broadcast per interface that leads to a precursor |
| `RoutingProtocols.RoutingProtocol.ListUnreachable` | model/madaodv-routing-protocol.cc:2091-2112 | the loop lists every destination in address order and collects the duplicate-free precursors |
| `RoutingProtocols.RoutingProtocol.SendRerrWhenBreaksLinkToNextHop` | model/madaodv-routing-protocol.cc:2075-2127 | RERR for everything behind the neighbour, then invalidation; the whole new node state |
| `RoutingProtocols.RoutingProtocol.SendRerrWhenNoRouteToForward` | model/madaodv-routing-protocol.cc:2130-2186 | unicast towards the packet's origin, or broadcast, below the limit |
| `RoutingProtocols.RoutingProtocol.DrainUnreachable` | model/madaodv-routing-protocol.cc:1870-1883 | the nested drain loop empties the message and keeps exactly what the node routes through the sender |
| `RoutingProtocols.RoutingProtocol.RecvError` | model/madaodv-routing-protocol.cc:1860-1918 | drain, rebuild, pass on, invalidate; the whole new node state |
| `RoutingProtocols.RoutingProtocol.LearnOrigin` | model/madaodv-routing-protocol.cc:1380-1416 | the reverse route, written through the shared route object and then back |
| `RoutingProtocols.RoutingProtocol.LearnNeighbor` | model/madaodv-routing-protocol.cc:1418-1442 | the route to the relaying node; the handler's other copy keeps its value |
| `RoutingProtocols.RoutingProtocol.SendReply` | model/madaodv-routing-protocol.cc:1542-1570 | the destination's answer along the reverse route |
| `RoutingProtocols.RoutingProtocol.SendReplyByIntermediateNode` | model/madaodv-routing-protocol.cc:1573-1633 | precursors exchanged, the reply and the gratuitous reply |
| `RoutingProtocols.RoutingProtocol.AnswerRequest` | model/madaodv-routing-protocol.cc:1448-1540 | answer, drop or pass on; the whole new node state |
| `RoutingProtocols.RoutingProtocol.RecvRequest` | model/madaodv-routing-protocol.cc:1333-1540 | blacklist, duplicates, routes, answer; the whole new node state |
| `RoutingProtocols.RoutingProtocol.SendReplyAck` | model/madaodv-routing-protocol.cc:1636-1652 | the acknowledgement goes to the neighbour over its interface |
| `RoutingProtocols.RoutingProtocol.RecvReplyAck` | model/madaodv-routing-protocol.cc:1804-1814 | the entry becomes VALID |
| `RoutingProtocols.RoutingProtocol.ProcessHello` | model/madaodv-routing-protocol.cc:1817-1857 | the announced neighbour is one hop away and, with hellos enabled, in the neighbour list |
| `RoutingProtocols.RoutingProtocol.LearnDestination` | model/madaodv-routing-protocol.cc:1682-1732 | the forward route replaces the known one only if it is fresher |
| `RoutingProtocols.RoutingProtocol.AcceptReply` | model/madaodv-routing-protocol.cc:1741-1752 | the search ends and the queue is flushed over the route now known |
| `RoutingProtocols.RoutingProtocol.ConnectPrecursors` | model/madaodv-routing-protocol.cc:1764-1781 | precursors on both routes, through copies taken before later writes |
| `RoutingProtocols.RoutingProtocol.ForwardReply` | model/madaodv-routing-protocol.cc:1755-1800 | the reverse route is kept alive, precursors are noted, the reply goes one hop on unless its TTL is below 2 |
| `RoutingProtocols.RoutingProtocol.RecvReply` | model/madaodv-routing-protocol.cc:1655-1801 | hello, own reply or passing reply; the whole new node state |
| `RoutingProtocols.RoutingProtocol.RecvMadaodv` | model/madaodv-routing-protocol.cc:1215-1268 | learn the neighbour, then handle the message by its type |
| `RoutingProtocols.RoutingProtocol.RouteOutput` | model/madaodv-routing-protocol.cc:419-470 | a valid route over the right device is kept alive and returned; without a valid route the packet goes to the loopback device, and over the wrong device nowhere |
| `RoutingProtocols.RoutingProtocol.Forwarding` | model/madaodv-routing-protocol.cc:647-704 | both directions are kept alive and the packet goes on with its header over the route, or the missing route is reported |
| `RoutingProtocols.RoutingProtocol.DeliverUnicast` | model/madaodv-routing-protocol.cc:604-628 | local delivery keeps the way back alive |

## Left out

* Sockets, ARP and MAC lookups: a transmission error closes an arbitrary set of neighbours.
* Interfaces going down and address changes: the interface list is fixed, and all interfaces come up before the first event.
* Broadcast and multicast data delivery, the loopback route's own packets and the duplicate detection of data packets.
* The acknowledgement and blacklist timers: the source configures the timer on a copy and never starts it, so entries are blacklisted only by the operation itself.
* `SetEntryState`, `DeleteAllRoutesFromInterface`, `Print` and the unused precursor operations.
* The data packets themselves: a packet is its uid, its header and the interface it is pinned to.
- LoopFreedom.ReverseRoutesNeverLoop: every node has one address, and replies that install a forward route to the originator are left out; that nobody processes a request after a later one is assumed, since the code does not enforce it (OutOfOrder.ThreeNodesLoop); that nobody processes the same one twice follows while duplicate records live (InOrder.OrderedFloodsNeverLoop). LoopExactly.RunExactly needs none of this and says exactly which events close a loop.
- LoopExactly.StepExactly: DeletePeriod is not negative, as the constructor sets it, and no node has the default address 102.102.102.102.
- ReplyRuns.ReplyNeverLost: nodes have one interface, and those between originator and destination have no entry for the destination, since one that routes back to the sender makes a node drop the request; while a request is under way only deliveries happen, so hellos and data packets are left out; the window lies within every lifetime that the nodes hand out.
- ReplyRuns.DiscoverySucceeds: the TTL is at least the number of nodes less one; with a smaller one some network of that size fails (ReachBound.ReachSufficesExactly), and the distance is not enough because a copy that took a longer way may be processed first (ReachBound.DistanceIsNotEnough).
- RingRuns.RingsSucceed: besides deliveries only the originator's retry timer fires, each ring comes to rest before it does, and all rings up to the one that suffices go out within the window.
- RetryBound.StepExactly: the retry limit is at least 1.
- ReachBound.ReachSufficesExactly: the networks have one interface per node, symmetric lossless links, and n is below 0x6666_6666, since the line uses the addresses 1 to n.
- FloodRuns.FloodTerminates: nodes have one interface, and no node that has seen the request issues another one of the same name, which takes 2^32 own requests.
- FloodRuns.SentOnce: nodes have one interface.
- FloodRuns.HopCountPlusTtl: nodes have one interface.
- FloodRuns.RingBound: for runs that deliver no reply installing a forward route to the originator and in which nobody else searches for it.
- RingSearch.SearchExactly: for parameters under NoWrap; RingsExactly says that the TTLs follow the pattern under no others. SearchRuns.SearchRunExactly says which events of a run leave a search undisturbed.
- ReverseNumbers.OriginNumber: for true counters less than 2^31 apart, as the comparison by signed difference demands; so are AnsweredRequests.AnswersExactly, AnsweredRequests.PassedOnAsks and AnsweredRequests.DestinationAnswersExactly.
- KnownNumbers.StepExactly: for numbers within half a turn of a common base, and while the entry stays numbered; a request straight from the originator ends that.
- PacketDelivery.PacketArrives: under the hypotheses of ReplyRuns.DiscoverySucceeds, with only the packet on the move and within the lifetimes; a packet handed to a next hop over an existing link arrives there.
- ReportsReturn.BreakComesBack: under the hypotheses of ReplyRuns.DiscoverySucceeds, with nodes of the route below the rate limit and lists that fit their count byte.
- ReportRuns.LastBreakIsKnown: for the last link, with no other route behind it; a report that lists more may also take away the routes to the precursors that should pass it on.
- RerrBudget.RunWithinLimits: counts unicasts about broken links; the source does not count broadcasts and reports about missing routes (RerrBudget.NoRouteReportsUnlimited), and the resets may come at any time.
- RerrCascade.CascadeEnds: for runs without a discovery about the destination; while one runs, hop counts need not decrease along next hops.
- PacketQueue.RunConserves: the limit is fixed and at least 1, and callbacks do not re-enter the queue; with a limit of 0 the source drops the front of an empty vector.
- NodeRuns.WindowBound: timers fire at their deadlines.
- RoutingProtocols.RoutingProtocol.Dispatch: the clock is not negative and DeletePeriod is not negative, as the constructor sets it.
- RoutingProtocols.RoutingProtocol.ForwardReply: requires a clock that is not negative, since a default entry written back lives until twice the clock.
- RoutingProtocols.Neighbors.Purge: the failure callback is set, as the protocol's constructor does, so the branch for a null callback is not modelled.
- RoutingProtocols.Neighbors.Update: the MAC address of a neighbour is not stored; which neighbours a transmission error closes is arbitrary.
- RoutingProtocols.RoutingProtocol.DeliverUnicast: which of the two delivery callbacks gets the packet is not recorded; neither touches the protocol.
