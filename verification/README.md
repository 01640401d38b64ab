# A verified model of cashewnix

cashewnix is a proxy in front of several binary caches. Some caches are
configured; others are found on the local network, where machines advertise
theirs in signed broadcast datagrams. This project models the parts of it that
decide which cache a request may reach, and proves what they guarantee over
every input, every schedule and every run.

| file | models |
|---|---|
| `Types.dfy` | the shared records |
| `CacheMap.dfy`, `CacheTable.dfy` | the cache table: the reference definition, one map, and the object with two maps kept in step |
| `Dedup.dfy`, `Interned.dfy` | interned URLs, compared by address, and the manager that knows its caches by them |
| `ManagerSteps.dfy`, `Server.dfy` | the cache manager: its steps on values, and the object that performs them and publishes new tables |
| `ManagerRuns.dfy`, `Ownership.dfy`, `Departures.dfy`, `Timeouts.dfy` | whole runs of the manager |
| `Combinators.dfy`, `Signing.dfy`, `Proto.dfy`, `Discovery.dfy` | packets on the wire and what the discovery task makes of them |
| `Timers.dfy`, `Debounce.dfy` | the restartable timer and the debouncer |
| `System.dfy`, `Effects.dfy`, `Refresh.dfy`, `Channels.dfy`, `Provenance.dfy`, `Orphans.dfy`, `Stragglers.dfy` | manager, discovery and timer with the channels between them, as one transition system, and its runs |
| `ProxyRuns.dfy`, `RequestRuns.dfy`, `Timing.dfy`, `ProxyLoop.dfy` | one request: what the select loop of a bucket may do, what the whole request may do, at which instants, and the nested loops themselves |
| `EndToEnd.dfy`, `Retries.dfy`, `Starvation.dfy` | requests as processes of a running system: the tables they load and the reports they make |

How the pieces fit. A table is one map from cache to metadata; the priority
index is proved to be that map grouped by priority. The manager's handlers are
methods on pointers to interned URLs, proved against functions on the URLs
themselves, and the transition system uses those functions, so the results about
runs are about what the methods do. Nothing but its own state changes in a
handler: a published table is never modified, and a request reads one table from
beginning to end.

A request waits while the manager accepts a report. How long is part of the
world it meets, and may be for ever: a method that models a request returns the
response `Never` where the program would not return.

Nondeterminism is explicit. A run of the system is any sequence of enabled
steps; a drained hash map comes out in any order; a select with several ready
arms may take any of them. An arm whose pattern does not match is only disabled,
so in the request's loop the deadline arm stays, and the `else` arm
(`src/binary_cache_proxy/mod.rs:199`) is never taken: a bucket in which every
cache has replied without a hit is still held until its deadline.

The signature scheme and the body codec are parameters. What is assumed of them
is stated as the predicates `Sound` and `Faithful`; Ed25519 (sections 5.1.6 and
5.1.7 of RFC 8032) and MessagePack are meant.

## What turned out not to hold

These are facts about the code, each with the exact condition or a witness.

- The manager and the discovery task can block each other for good: the manager in
  `broadcast_req` because the message channel is full, discovery sending an event
  because the event channel is full. No node and no configuration is safe from it:
  two changes of the machine's addresses are enough, as far apart as the debouncer
  puts them, when discovery is held up in between, say in looking for interfaces
  (`DeadlockIsReachable`); so are any two accepted datagrams (`DeadlockByDatagrams`).
  It is the only way to be stuck in a send (`StuckIffDeadlocked`), nothing leads out
  of it (`DeadlockIsForever`), and a batch can still reach the table exactly when it
  has not happened (`BatchFlushesIff`).
- A request can hang for ever, because it awaits its reports. It hangs exactly when
  a report it has begun is never accepted (`NeverIffReportNotAccepted`); which
  buckets can hang, and which can be passed on the way to the next, is computed from
  latencies and reports alone (`BucketEndsIff`, `CanPassIff`, `EndKnownAtStart`). Once
  manager and discovery block each other and the report channel is full, no report is
  ever accepted (`NoReportAccepted`) and a request hangs exactly when it comes to
  report anything (`BlockedManagerHangsRequests`), also with a hit in time
  (`RequestsCanHang`).
- A report that is slow to be accepted keeps the request out of its select, so that
  a hit that was in time can be passed over (`SlowReportHidesHit`), or a late or
  slower one be taken. A bucket gives the right answer on every schedule exactly when
  the latest instant at which its select can be entered finds no such choice; that
  instant is one pass over the replies in order of latency (`AlwaysRightIff`).
- A cache that is skipped because it is timed out is still among the late ones when
  its bucket's time runs out, so it is reported again then and its timeout starts
  anew. A request that loads its table some time after the last report finds the cache
  exactly when that time and the timeouts of the buckets before the cache's own are no
  shorter than its timeout (`NextRetryIff`). Requests each of which starts when the one
  before is over therefore never ask a cache that would answer at once, if and only if
  the timeouts of all other buckets together are shorter than its own
  (`CacheStarvesIff`, `NextInTurnIff`).
- When one address advertises two URLs, the first entry can lose its owner and then
  stays in the table across network changes. This happens in some run of a node
  exactly when it can hear such a conflict (`OwnedInSystemIff`).
- A peer that says goodbye, or that a network change leaves behind, can get its entry
  back without advertising again: its adverts stay in the batch
  (`GoneBeforeTheTick`). On the manager alone it stays away exactly when each of them
  is about an entry that is there, cannot be removed by a report and is owned by nobody
  (`Departures.StaysAwayIff`); in the running system the events on their way to the
  manager count as well (`Stragglers.StaysAwayIff`).
- The length check on received datagrams (`src/discover/mod.rs:231`) cannot fire,
  since a longer datagram is cut to the size of the buffer; the model receives at
  most 1024 bytes.

## Model

| member | source | states |
|---|---|---|
| CacheMap.GroupsPartition | src/binary_cache_proxy/mod.rs:49-53 | the buckets of the index are non-empty, disjoint and cover exactly the caches, so looking up the metadata of a bucket's member cannot fail |
| CacheMap.GroupByInsert | src/binary_cache_proxy/mod.rs:71-96 | how the grouping moves when a cache is inserted or re-prioritised: out of its old bucket, which goes when empty, into the new one; the old bucket is there |
| CacheMap.GroupByWithout | src/binary_cache_proxy/mod.rs:98-112 | removing a cache takes it out of its bucket, which is there, and the bucket out of the index when it was the last |
| CacheTable.CacheData.IterPriorities | src/binary_cache_proxy/mod.rs:63-65 | every priority in use comes up once, lowest number first |
| CacheTable.CacheData.InsertCache | src/binary_cache_proxy/mod.rs:71-96 | the index stays the table grouped by priority; a new cache gets the strategy and no timeout, a known one only the priority; the "Invalid state" panic cannot happen |
| CacheTable.CacheData.Remove | src/binary_cache_proxy/mod.rs:98-112 | says whether the cache was there, takes out only that cache, and keeps the index in step |
| CacheTable.CacheData.SetTimedOutUntil | src/binary_cache_proxy/mod.rs:118-120 | writing through the metadata reference changes that entry's timeout only and leaves the index right |
| Dedup.Deduper.GetOrInsert | src/binary_cache_proxy/dedup.rs:75-86 | returns the address of the value, a new one only when the value is new, and never forgets a value |
| Dedup.HandlesIdentifyValues | src/binary_cache_proxy/dedup.rs:37-86 | over any sequence of calls two handles are the same pointer exactly when they were made from equal values |
| Dedup.PointerTableSimulatesValueTable | src/binary_cache_proxy/mod.rs:49-121 | every run of operations on a table keyed by handles is, read through the handles, that run on a table keyed by URLs, and the priority index agrees bucket by bucket |
| Dedup.InternedTableSimulates | src/binary_cache_proxy/dedup.rs:65-87 | in particular for the handles a deduper has given out |
| Interned.TickSimulates | src/binary_cache_proxy/mod.rs:295-307 | a tick of the manager that knows its caches by pointers is, read through them, the tick of the manager keyed by URLs, with the drain order renamed |
| Interned.NetworkChangeSimulates | src/binary_cache_proxy/mod.rs:328-334 | so is a network change, which removes exactly the caches whose names are owned |
| Interned.AdvertSimulates | src/binary_cache_proxy/mod.rs:353-354 | interning an advertised URL, known or new, changes nothing else, and the advert joins the batch under its name |
| Server.LoadConfigured | src/binary_cache_proxy/mod.rs:248-253 | interning the configured URLs and inserting them in order builds the configured table |
| ManagerRuns.ConfiguredFold | src/binary_cache_proxy/mod.rs:250-253 | a repeated URL appears once, with the priority of its last entry, in exactly that bucket, the strategy of its first, and no timeout |
| Server.Manager.constructor | src/binary_cache_proxy/mod.rs:248-283 | starts with the interned configured table and nothing from the network |
| Server.Manager.HandleTick | src/binary_cache_proxy/mod.rs:295-307 | a tick is the step OnTick for some drain order, on the pointers and on the URLs behind them, and publishes a fresh table or none |
| Server.Manager.HandleBadCache | src/binary_cache_proxy/mod.rs:308-324 | a report removes a cache or times it out as its own strategy says, and does nothing when it is gone |
| Server.Manager.HandleNetworkChanged | src/binary_cache_proxy/mod.rs:328-334 | removes every cache a peer owns and forgets the owners |
| Server.Manager.HandleGoodbye | src/binary_cache_proxy/mod.rs:337-346 | removes the cache the peer owns, if it owns one, and the peer |
| Effects.GoodbyeTakesItsOwn | src/binary_cache_proxy/mod.rs:337-346 | a goodbye removes from the table exactly what its sender owns; every other entry is unchanged, every other peer keeps what it owns, the sender owns nothing, waiting adverts and the time of the last one stay, and a goodbye from a stranger changes nothing |
| Effects.NetworkChangeTakesTheOwned | src/binary_cache_proxy/mod.rs:327-335 | a network change removes exactly what any peer owns and every ownership, and leaves other entries, waiting adverts and the time of the last one alone |
| Server.Manager.HandleEvent | src/binary_cache_proxy/mod.rs:325-352 | each event is its step on the URLs up to what the manager awaits next: a request to broadcast after a network change, the restart of the timer after an advert whose time is noted and which publishes nothing |
| Server.Manager.JoinBatch | src/binary_cache_proxy/mod.rs:353-354 | after that the URL is interned and put into the batch under its sender; no table is published |
| ManagerRuns.TickIsOrderIndependent | src/binary_cache_proxy/mod.rs:295-307 | in any drain order a tick adds exactly the absent URLs at priority 0 with the local strategy and no timeout, changes no other entry and empties the batch |
| ManagerRuns.OwnersAreOrderIndependentIff | src/binary_cache_proxy/mod.rs:300-304 | who owns what after a tick is independent of the drain order exactly when no peer brought two absent URLs |
| Ownership.PermanentCachesStay | src/binary_cache_proxy/mod.rs:249-253 | a configured cache with a timeout strategy keeps its place, priority and strategy in every reachable state and is never owned by a peer |
| Ownership.EntriesAreConfiguredOrLocal | src/binary_cache_proxy/mod.rs:285-359 | in every reachable state an entry is as configured, or has priority 0 and the local strategy; one a peer owns is the latter |
| Ownership.StepOwned | src/binary_cache_proxy/mod.rs:286-358 | every step keeps each entry configured or owned, given adverts without conflict |
| Ownership.TickKeepsOwnersIff | src/binary_cache_proxy/mod.rs:300-304 | taking up one advert keeps every entry owned exactly when the peer's former URL is none, gone, configured, or owned by another peer too |
| Ownership.OwnedIffNoConflict | src/binary_cache_proxy/mod.rs:302 | all runs fed from given adverts keep every entry configured or owned, if and only if no address advertises two URLs it can own |
| Ownership.OrphaningRun | src/binary_cache_proxy/mod.rs:302 | a run in which an entry loses its owner and outlives a network change, for any two such URLs; it begins with reports about them only when they are in the table |
| Ownership.NetworkChangeLeavesConfigured | src/binary_cache_proxy/mod.rs:327-334 | after a network change only configured caches as configured are left, if and only if everything was owned |
| Departures.StaysAwayIff | src/binary_cache_proxy/mod.rs:295-307 | a peer without an entry gets none, whatever follows, until it advertises again, if and only if each of its adverts in the batch is about an entry that can never leave the table |
| Departures.DepartureHoldsIff | src/binary_cache_proxy/mod.rs:327-346 | so it is after a goodbye, and after a network change for every peer: the batch they leave as it was decides |
| Departures.GoneBeforeTheTick | src/binary_cache_proxy/mod.rs:295-346 | for every unconfigured URL, the run in which a peer advertises it, leaves or is left behind, and is taken up afterwards |
| Timeouts.TimeoutNeverShrinks | src/binary_cache_proxy/mod.rs:308-323 | with a clock that does not go back, the end of a cache's timeout never moves back while the cache stays in the table |
| Timeouts.ReportedCacheIsLeftAlone | src/binary_cache_proxy/mod.rs:144-148 | after a report handled at T with timeout d the cache is skipped at every instant before T + d, in every later table it has not left |
| Combinators.U64LeRoundTrip | src/discover/combinators.rs:13-21 | reading the little-endian bytes of any 64-bit number gives the number and the rest back |
| Combinators.U64LeDeterminesBytes | src/discover/combinators.rs:13-21 | and the number read determines the bytes it was read from |
| Combinators.U64LittleEndian | src/discover/combinators.rs:13-21 | the first byte counts ones, the next multiples of 256, and so on up to the eighth |
| Signing.KeyStore.AddPublicKey | src/signing.rs:20-26 | keeps the stored keys distinct and in order |
| Signing.SignedIsVerified | src/signing.rs:20-44 | what one store signs with its private key, another store that was given the public key accepts, whatever other keys it holds |
| Signing.KeyStore.Verify | src/signing.rs:36-44 | succeeds exactly when some stored key accepts the signature |
| Proto.ToBytes | src/discover/proto.rs:157-203 | the bytes are magic, flag, signature of the body and body; a missing key comes before a size that is too big |
| Proto.FrameIsFramed | src/discover/proto.rs:157-196 | what is sent is the nine bytes of the name, the flag 0xff with signature and signed body, or the flag 0 with the plain body |
| Proto.WireRoundTrip | src/discover/proto.rs:118-204 | a peer that holds the sender's public key reads back the packet, when it fits 1024 bytes, if and only if it is unsigned or the clocks are at most 5 apart; otherwise the timestamp is what it refuses |
| Proto.RawIffFramed | src/discover/proto.rs:48-67 | the header parser recognises exactly the two ways of framing and returns their parts |
| Proto.AcceptedIffAuthentic | src/discover/proto.rs:119-155 | an advert or goodbye is accepted exactly when the bytes carry it signed under a stored key with a timestamp at most 5 from now; a request exactly when it is framed unsigned |
| Proto.RefusedBecause | src/discover/proto.rs:119-142 | which bytes give an invalid header, a failed verification and a timestamp error, in that order of precedence |
| Discovery.DispatchIffAuthentic | src/discover/mod.rs:51-122 | a datagram becomes an advert or goodbye event exactly when it is authentic and not from one of our own addresses; it speaks only for its sender, and the URL is the one signed, or the one built from sender and signed port |
| Discovery.AdvertDispatched | src/discover/mod.rs:82-99 | an authentic advert of a URL gives the event for exactly that URL, and one of a port the event for the sender at exactly that port |
| Discovery.DiscoverCtx.HandleDatagram | src/discover/mod.rs:57-121 | the event is the dispatched one; a request is answered to every managed network once, or with an error and nothing sent |
| Discovery.DiscoverCtx.Rediscover | src/discover/mod.rs:183-200 | the managed interfaces become exactly the ones found, the last entry of an address deciding |
| Discovery.AdvertReachesPeer | src/discover/mod.rs:61-100 | an advert a node sends becomes, at a peer with its key and a close clock, the event for exactly that URL, or for exactly that port of its address |
| Discovery.AnswerReachesPeer | src/discover/mod.rs:61-81 | so does every datagram with which a node answers a request for adverts, sent to the broadcast address of a network it manages |
| Timers.DynamicTimer.SendTimeout | src/util.rs:48-50 | a duration gets into the slot exactly when it is empty |
| Timers.DynamicTimer.Poll | src/util.rs:22-43 | one turn of the timer task takes a duration or lets the sleep expire, and is idle only when neither is ready; a tick that finds the slot full is dropped |
| Timers.DynamicTimer.ReceiveTick | src/binary_cache_proxy/mod.rs:295 | the owner of the timer gets a tick exactly when one waits, and takes it out |
| Timers.ExpiryIsDue | src/util.rs:24-28 | every expiry is due to the duration taken last, of the last set_timeout before that, at least that long ago |
| Timers.TicksConserved | src/util.rs:14-50 | expiries are the ticks delivered, waiting and dropped, the last only while one waits, and are no more than set_timeout calls |
| Debounce.Run | src/util.rs:53-77 | one tick per maximal burst of the events as they are taken, at its last event plus the quiet period, also when the input has ended; events that arrive while the consumer keeps the task in its send are taken when it is back; only a tick that is never taken stops it |
| Debounce.TakenWhenBack | src/util.rs:57-72 | an event is taken when it arrives, or when the consumer has taken the tick before if that is later; no burst begins before the tick of the one before |
| Debounce.PromptConsumer | src/util.rs:57-72 | with a consumer that takes every tick at once each event is taken when it arrives, so the bursts are those of the arrivals |
| Debounce.TicksFallBetweenBursts | src/util.rs:60-70 | a tick comes no later than the next burst and no event inside a burst comes after the quiet period |
| Debounce.SplitIsUnique | src/util.rs:61-69 | the instants at which events are taken and the outcomes of ties determine the bursts and so the ticks |
| System.ManagerRunsInside | src/binary_cache_proxy/mod.rs:285-359 | the manager's part of every run of the whole system is a run of the manager, on a clock that does not go back |
| Effects.StepEffect | src/binary_cache_proxy/mod.rs:285-359 | every step of every run does to the table, the owners, the batch and the noted time exactly what its kind of input calls for, entry by entry and peer by peer, and nothing else |
| Effects.TimerAndClock | src/util.rs:18-50 | only setting a timeout of one second, taking it up, its expiry and the manager's tick touch the timer, each in one way, and only waiting takes time |
| Refresh.IntervalAsksIff | src/binary_cache_proxy/mod.rs:287-294 | in every run, when the interval fires the manager goes on to ask for adverts if and only if none was taken in less than the refresh time ago; otherwise nothing changes |
| Refresh.AsksIff | src/binary_cache_proxy/mod.rs:287-335 | it begins to ask at no other step than such an interval and a network change |
| Channels.ChannelsKeep | src/discover/mod.rs:155-156 | in every run each channel holds what was put into it until it is taken out |
| Channels.EventsWereSent | src/discover/mod.rs:155-156 | and the event channel holds nothing else; so do the other two (`RequestsWereSent`, `ReportsWereMade`) |
| Channels.TickIsDue | src/binary_cache_proxy/mod.rs:352 | every tick the manager takes comes at least a second after an advert restarted the timer |
| Channels.BatchIsCovered | src/util.rs:22-42 | in every reachable state a non-empty batch has a duration in the slot, a sleep running or a tick waiting |
| Channels.TickFlushes | src/binary_cache_proxy/mod.rs:295-307 | each tick the manager takes leaves the batch empty and every URL it held in the table, other entries untouched |
| Channels.BatchFlushesIff | src/binary_cache_proxy/mod.rs:286-358 | from every reachable state with a batch, wherever the manager stands, the tasks' own steps and time can empty it into the table if and only if manager and discovery do not block each other |
| Channels.StuckIffDeadlocked | src/discover/mod.rs:91-95 | a task is blocked in a send with no internal step enabled exactly when manager and discovery block each other with both channels full and the timer is idle |
| Channels.DeadlockIsForever | src/discover/mod.rs:266-271 | from such a state nothing moves either task, and the published table never changes again |
| Channels.DeadlockIsReachable | src/discover/mod.rs:163 | for every node and configuration, two changes of addresses, two seconds after the start and two seconds apart, reach such a state when discovery is held up in between |
| Channels.DeadlockByDatagrams | src/discover/mod.rs:228-238 | so do any two accepted datagrams, the same or different |
| Channels.NoReportAccepted | src/binary_cache_proxy/mod.rs:193-195 | with a report in the channel, no other report is ever accepted or handled after such a state |
| Channels.FullDeadlockIsReachable | src/binary_cache_proxy/mod.rs:254-259 | and the first report made there leads to that, for every node and configuration |
| Provenance.ManagedAreFound | src/discover/mod.rs:178-200 | in every run the addresses taken for our own are those found when discovery last looked, and none from a change of addresses until then |
| Provenance.EveryEntryHasAnOrigin | src/discover/mod.rs:228-235 | over every run, each entry that is not configured was advertised, as that URL or as a port of the sender under it, by an authentic datagram received before, from an address not among those last found |
| Provenance.PermanentCachesStayInSystem | src/binary_cache_proxy/mod.rs:285-359 | the same for configured caches with a timeout strategy, in the whole system |
| Provenance.NetworkChangeRestoresConfiguration | src/binary_cache_proxy/mod.rs:327-334 | without conflicting genuine adverts, a network change in the running system leaves only configured caches as configured |
| Provenance.ReportedCacheIsSkipped | src/binary_cache_proxy/mod.rs:308-323 | the timeout of a reported cache holds for all later tables of the running system |
| Orphans.OwnedInSystemIff | src/binary_cache_proxy/mod.rs:302 | every run of a node keeps every entry configured or owned if and only if the node cannot hear one address advertise, authentically, two URLs it can own |
| Orphans.OrphaningRunInSystem | src/binary_cache_proxy/mod.rs:295-335 | otherwise the run, from boot through datagrams, timer and ticks, in which an entry loses its owner and stays after the addresses of the machine change |
| Stragglers.StaysAwayIff | src/binary_cache_proxy/mod.rs:286-358 | from every reachable state of the system in which a peer has no entry, it gets none before an authentic advert of it is heard, whatever follows, if and only if manager and discovery block each other or no handling of the events on their way brings one of its adverts to an entry that can leave the table |
| ProxyRuns.LegalFacts | src/binary_cache_proxy/mod.rs:177-201 | on every schedule each reply is taken once and only from a cache that was asked, an answer is a hit, a bucket without one is held to its deadline, and the loop hangs only in the report about the failure it took last |
| ProxyRuns.WaitingBounded | src/binary_cache_proxy/mod.rs:173-201 | the selects of a bucket wait no longer than its timeout |
| Timing.VisitTimes | src/binary_cache_proxy/mod.rs:167-201 | on every schedule a reply is taken when it comes or when the loop is back, which after a failure is when its report was accepted; a bucket runs out of time at its own configured timeout, or the default one, or when the loop is back after that |
| Timing.BucketIsOver | src/binary_cache_proxy/mod.rs:167-201 | with reports accepted at once a bucket without an answer is over at exactly its configured timeout, or the default one, and an answer comes at its latency and no later |
| Timing.LoneHitIff | src/binary_cache_proxy/mod.rs:167-201 | then a lone hit is fetched when its latency is below that timeout and passed over when it is above |
| Timing.NextBucketStarts | src/binary_cache_proxy/mod.rs:210-217 | the next bucket starts when the late reports have been accepted one after the other, the sum of their times after the end of the one before |
| Timing.ReportsBegin | src/binary_cache_proxy/mod.rs:191-217 | a failure is reported when it is taken, and a late cache when the late ones before it have been accepted |
| Timing.NoManagerNoReports | src/binary_cache_proxy/mod.rs:193-195 | without a manager nothing is reported |
| ProxyRuns.LoopEndsIff | src/binary_cache_proxy/mod.rs:177-201 | the select loop of a bucket ends on every schedule if and only if the pass over its replies in order of latency meets no report that is never accepted |
| ProxyRuns.AlwaysRightIff | src/binary_cache_proxy/mod.rs:177-201 | with reports of any length, or never accepted, a bucket gives a fastest hit in time, or nothing when it has none, on every schedule, if and only if the latest instant its select can be entered is there and finds neither a hit ready past the deadline nor a slower hit ready beside a faster one |
| ProxyRuns.CanBeLateIff | src/binary_cache_proxy/mod.rs:210-217 | when no schedule hangs, some schedule leaves a cache late exactly when latencies and report times say so |
| ProxyRuns.CanHearAllIff | src/binary_cache_proxy/mod.rs:177-201 | with a latest select, some schedule ends the bucket by its deadline with all of given caches heard from exactly when each is in reach by then and no hit has to be taken before |
| ProxyRuns.VerdictMoves | src/binary_cache_proxy/mod.rs:136-201 | these verdicts depend on which caches are asked, not on when |
| ProxyRuns.SlowReportHidesHit | src/binary_cache_proxy/mod.rs:193-195 | for every timeout, every hit before it and every report at least that long or never accepted, a schedule on which the request passes over that hit or hangs |
| RequestRuns.NeverIffReportNotAccepted | src/binary_cache_proxy/mod.rs:193-217 | on every schedule a request hangs if and only if one of the reports it begins is never accepted |
| RequestRuns.BucketEndsIff | src/binary_cache_proxy/mod.rs:173-217 | a bucket cannot hang, on any schedule, if and only if its loop ends and every cache that can be late has a report that is accepted |
| RequestRuns.CanPassIff | src/binary_cache_proxy/mod.rs:134-217 | some visit passes a bucket without an answer and without hanging if and only if every cache of it whose report is never accepted is asked, gives a bad status and can be heard from in time |
| RequestRuns.AlwaysEndsIff | src/binary_cache_proxy/mod.rs:125-226 | a request ends on every schedule if and only if no bucket can hang at an instant at which the request may come to it |
| RequestRuns.VisitsAlwaysRightIff | src/binary_cache_proxy/mod.rs:134-226 | every bucket a request tries gives the right answer on every schedule if and only if each is safe at every instant at which the request may come to it |
| RequestRuns.ReachesIff | src/binary_cache_proxy/mod.rs:134-226 | when no timeout is running at the start, a request may come to a bucket if and only if it can pass all buckets before it, judged from latencies and report times at the start |
| RequestRuns.RightKnownAtStart | src/binary_cache_proxy/mod.rs:134-226 | then every bucket it tries gives the right answer on every schedule if and only if each bucket before which all can be passed is safe, judged at the start |
| RequestRuns.EndKnownAtStart | src/binary_cache_proxy/mod.rs:134-226 | and it ends on every schedule if and only if each such bucket ends, judged at the start |
| RequestRuns.AnswerIsFirstHit | src/binary_cache_proxy/mod.rs:134-226 | with reports of any length: when the buckets were safe at the instants they were tried, the answer is a fastest hit, within its timeout, of a bucket before which no bucket has a hit before its deadline; not found means all buckets were tried and none has one; a request that hangs passed over none |
| RequestRuns.NoAnswerIff | src/binary_cache_proxy/mod.rs:220-225 | away from ties, there is no answer if and only if no bucket that was tried has a hit in time |
| RequestRuns.SwiftAnswer | src/binary_cache_proxy/mod.rs:134-226 | with reports about the caches of the table accepted at once, the request ends, at instants known beforehand, and the first bucket with a hit in time decides |
| RequestRuns.TimeBounded | src/binary_cache_proxy/mod.rs:167-201 | the selects of a request wait no longer than the configured or default timeouts of the buckets visited, and a bucket without an answer is held to its deadline |
| RequestRuns.ReportsExact | src/binary_cache_proxy/mod.rs:191-217 | no cache is reported twice, one is reported only when its failure was taken or its bucket ran out of time before it replied, skipped ones included, and always then unless the request hangs |
| RequestRuns.AskedOnce | src/binary_cache_proxy/mod.rs:141-165 | no cache is asked in two buckets or heard from twice |
| RequestRuns.SkippedNeverAnswers | src/binary_cache_proxy/mod.rs:144-148 | the answering cache was not timed out when its bucket was started |
| ProxyLoop.StartRequests | src/binary_cache_proxy/mod.rs:141-165 | read through the pointers of the table, exactly the caches of the bucket that are not timed out are asked, each of which has metadata |
| ProxyLoop.RunBucket | src/binary_cache_proxy/mod.rs:133-201 | the select loop does only what the rules of select allow, ends unless a report is never accepted, and reports failures in the order taken |
| ProxyLoop.ReportLate | src/binary_cache_proxy/mod.rs:210-217 | every cache still waited for is reported once, up to a report that is never accepted, and when this is over |
| ProxyLoop.Proxy | src/binary_cache_proxy/mod.rs:125-226 | on the published table of pointers and any schedule, the nested loops make a legal request on the table of URLs, with the response and the reports that go with it, and end unless a report they begin is never accepted |
| EndToEnd.AnswersAreTrusted | src/binary_cache_proxy/mod.rs:125-209 | in a running system only a configured or authentically advertised cache, not timed out, ever answers a request |
| EndToEnd.TimeoutIsRespected | src/binary_cache_proxy/mod.rs:140-148 | no request that loads its table after a report was handled asks the cache before the timeout is over |
| EndToEnd.LastLateReportTaken | src/binary_cache_proxy/mod.rs:210-217 | in a running system the next bucket starts at the very step that takes in the last late report of the one before |
| EndToEnd.BlockedManagerHangsRequests | src/binary_cache_proxy/mod.rs:193-217 | in a running system whose manager and discovery block each other with a report in the channel, a request whose reports are steps of the run hangs if and only if it comes to report anything, and in its first report |
| EndToEnd.RequestsCanHang | src/binary_cache_proxy/mod.rs:193-195 | for every node and configuration such a state is reached with the configured table, where a request that meets one failure hangs although another cache of the bucket would answer in time |
| Starvation.RetryKeepsUnasked | src/binary_cache_proxy/mod.rs:136-148 | a request that comes to the bucket of a permanent cache within the timeout of its last report asks it in no bucket, is not answered by it, and reports it again when the bucket runs out of time |
| Retries.RetryFindsIff | src/binary_cache_proxy/mod.rs:140-217 | on every schedule, a request that only one, timed out, cache would answer, and at once, fetches from it if and only if the timeouts of the buckets before its own last until its timeout is over, and finds nothing otherwise |
| Retries.MissReports | src/binary_cache_proxy/mod.rs:210-217 | a request that misses it makes exactly one report, about it, when the time of its bucket is up, if the other caches say in time that they do not have what is asked |
| Starvation.NextRetryIff | src/binary_cache_proxy/mod.rs:140-217 | in every run, a request some time after the last handled report about a permanent cache finds it exactly when that time and the timeouts of the buckets before its own are no shorter than its timeout; else it reports it at the end of its bucket |
| Starvation.NextInTurnIff | src/binary_cache_proxy/mod.rs:136-217 | so a request that starts when one that missed the cache is over finds it exactly when the timeouts of the other buckets together are no shorter than its timeout |
| Starvation.RetriesInTurn | src/binary_cache_proxy/mod.rs:136-217 | for every sequence of pauses, a run in which requests follow each other that long after the report of the one before, each of which finds or misses the cache by that rule, and makes the next report of the run when it misses it |
| Starvation.CacheStarvesIff | src/binary_cache_proxy/mod.rs:136-217 | for any number of requests each of which starts when the one before is over, a run in which all of them miss the cache on every schedule while the timeouts of the other buckets together are shorter than its own, and all find it otherwise |

## Left out

- HTTP: a reply is a hit, a bad status or a failure after some time; headers, URL rewriting, `nix-cache-info` and the body are not part of the model.
- Sockets, signals, cancellation, shutdown, logging, configuration files and key parsing; a socket send always succeeds.
- Looking for interfaces (`src/discover/network.rs`): what is found is an arbitrary set.
- Signature and MessagePack internals, and URL syntax: parameters with the stated assumptions.
- Time: clocks are natural numbers, nanoseconds where the system has fixed delays, without overflow; in a request no time passes but in selects and reports, so a bucket's clock reading, its deadline and its requests start at one instant.
- Time on the wall and time on the monotone clock are unrelated in the system; each datagram carries the wall clock it was judged by.
- Fairness: nothing is said about discovery when datagrams are lost, or about the batch when adverts keep restarting the timer.
- The discovery task's loop and the manager's loop are steps of the transition system, not loops; the bodies of their arms are methods.
- Proto.WireRoundTrip: says nothing about packets of more than 1024 bytes, of which the receiver sees a prefix.
- A reply is ready at the start of its bucket plus its latency: that the program polls the requests only inside the select, and not while it awaits a report, is not modelled.
- A report in the system may also be made by a request that is not followed; `Served` ties a request that is followed to its own steps of the run.
- A report that is begun and not yet accepted when a run ends counts as never accepted only when the system can never take it in.
- The transition system lets addresses change at any time; the debouncer is a model of its own, and the runs that need address changes keep its quiet period.
- Looking for interfaces takes no step of its own; time may pass right after it.
