# trqsh in Dafny

trqsh is a tunnel service: edges accept agent sessions, bind public hosts and ports to them, and share state through
Redis. This project models its protocols and state machines and proves what they keep over whole runs.

Concurrent parts are step systems: one step is one section under a mutex, one Redis command or transaction, or one
move of a goroutine between two of them, and the steps of different goroutines, edges and replicas interleave freely.
Objects that the source changes in place are classes, and their methods are proved against the functions the step
systems are built from.

| file | models |
|---|---|
| LeaseLock.dfy | the cluster-wide lock: SET NX PX, refresher, compare-and-delete release, crashes, lost replies |
| CertTree.dfy, CertStore.dfy | the certificate store: a flat key set with an index, presented as a directory tree |
| EdgeRouting.dfy, SessionEffects.dfy, RoutingFaults.dfy, HubAndPorts.dfy | hub, port pool, session tunnel maps and tunnel gauge of one edge, what each session call achieves, and where they go wrong |
| TokenBucket.dfy, RateLimiter.dfy, FleetOverflow.dfy, BucketStores.dfy | the local bucket and its reaper, the Redis script and its TTL, a fleet with fallbacks |
| RouteLease.dfy, Forwarding.dfy | route leases in the registry, and the routing decision with its one hop to a peer edge |
| RemoteSession.dfy, RemoteHub.dfy | the relay session of remote pairing, and the hub of sessions by code |
| MeterIdentifier.dfy, Metering.dfy, Settlement.dfy, MeterQueue.dfy, MeteringLoop.dfy, AdjacentWindows.dfy, BillingService.dfy | metered billing from usage records to Stripe |
| Usage.dfy | the usage aggregator of an edge and the usage queries of the store |
| Frames.dfy, Streams.dfy | control and UDP frames, and several writers on one stream |
| AgentGenerations.dfy | the agent's session generations and its reconnect loop |
| DeviceFlow.dfy | the device-authorization flow: in-process store, Redis store, and a history-based reference |
| Wrappers.dfy | the Option type |

Random tokens, codes and ids are taken as new, time as a non-decreasing number read from one clock, bucket tokens as
reals, and messages as their marshalled bytes. Redis is a map with expiries and atomic commands, scripts and
transactions.

## Findings

Places where the code does less than its comments or its other parts suggest. Each has a lemma with a concrete run, an
exact condition, or both.

- Unlock looks its record up by name alone, so a caller that outlived its lease can free the key of another caller on
  the same edge (SameEdgeUnlockHarms; exact condition in UnlockSparesOwner).
- A key with an empty path component is listed recursively but not met by walking directories (WalkExactIffClean).
- The hub accepts a second bind of a host by the same session, and the session map a second tunnel under a live id
  (exact condition in ConsistentIffNoDuplicate). After the first, releasing either tunnel takes the other's route
  (ReleaseUnroutesTwin, DuplicateHostRun); after the second, the teardown leaves the first tunnel's route behind
  (ReusedIdLeaks, ReusedIdRun). Clean runs lead to both (DuplicateHostIsReached, DuplicateIdIsReached).
- A port pool that contains port 0 leaks, because the release path reads port 0 as no port; teardown is clean in every
  run exactly when it does not (CleanTeardownIffNoZero).
- The reaper is visible, the two limiter implementations disagree, and the window bound fails, exactly when burst
  exceeds 600 times rps (ReaperInvisibleIff, RedisAndLocalAgreeIff, LocalWindowBoundIff, FleetWindowBoundIff).
- A registry unbind that arrives late removes the entry of the session that rebound the route; a bind holds exactly when
  no release of its route is in flight (BindHoldsIffNoReleaseInFlight, LateUnbindRun).
- Two windows of one organisation and metric that start in the same second share one Stripe identifier, so one of them
  is reported and never charged (SameSecondRun; exact condition in ReportedIsChargedIff).
- A window's row keeps the quantity of its first collection (RecollectIsIdle). The metering loop collects the current
  month at every tick (internal/billing/metering.go:117-135), so the month is charged what the first tick with usage
  saw, although the comment at lines 18-19 asks for one collection per closed period (ChargeIsFirstTick,
  ChargesTooLittle). And a collection ignores the end of its window, so a closed window is also charged for later usage,
  which the next window charges again (RowHoldsWindowIff, ChargesBeyondTheEnd, ChargesAddUpIff, ChargedTwice).
- Rows without a meter or a customer stay at the head of the queue: once 500 of them are ahead, no later row is ever
  pushed (EverReportedIff, StuckQueue).
- A viewer that joins a remote session after its end is never told nor closed (DismissedIffEndedSince,
  LateViewerIsForgotten), and a lookup of an expired session drops it without ending it, so the sweep never does
  (LostExactlyByLateLookup, LookupLosesSession).
- The Redis device store compares a typed code as it is, the in-process store trims and upper-cases it
  (ApprovalsAgreeIff, LowerCaseIsRefused). Once the record has lapsed, fifteen minutes or more after creation, it
  refuses an approval that the in-process store accepts (LapsedApprovalDiffers), contrary to its comment at
  internal/api/device_redis.go:85-88, and answers a poll with unknown where the in-process store says expired
  (PollsDifferIffLapsed, LapsedPollDiffers), contrary to its comment at lines 20-24. A record that lapses between Approve's read and its KEEPTTL write comes
  back without an expiry (ApproveKeepsLifetimeIff, ApproveRevivesRecord).

## Model

| member | source | states |
|---|---|---|
| LeaseLock.BaseRun | internal/server/tls_storage_redis.go:269-350 | in every run of any number of edges, with crashes, lost replies and expiry, each live key holds the token of one call for that very name, no expiry is further than one lease away, and a refresher exists only after its Lock has won |
| LeaseLock.CallProgress | internal/server/tls_storage_redis.go:269-312 | no step forgets a Lock call, moves it to another edge or name, or takes it back to an earlier part of Lock; only its own Record puts a call into its critical section |
| LeaseLock.LostForever | internal/server/tls_storage_redis.go:44-59 | a token that is no longer the live value of its key is never the live value again |
| LeaseLock.StaleCommandsChangeNothing | internal/server/tls_storage_redis.go:298-312 | however late they run, refreshes and releases carrying a lost token leave every key and every expiry as they were, the refresher racing with Unlock included |
| LeaseLock.TakenNames | internal/server/tls_storage_redis.go:298-302 | what Unlock takes from the locks map is always the record of a call for the same name that has already won it |
| LeaseLock.ExpiryBound | internal/server/tls_storage_redis.go:333-350 | with no further refresh, a held lease expires at most one lease from now |
| LeaseLock.FreeWithinOneLease | internal/server/tls_storage_redis.go:264-294 | once a holder's refreshes stop, one lease later its token is dead, and unless someone else took the name the next SET NX of any waiting caller wins it |
| LeaseLock.TimelyRun | internal/server/tls_storage_redis.go:269-350 | while every holder's last successful renewal is less than a lease old, every caller in its critical section owns its key, and Unlock only ever takes the record of a caller that left |
| LeaseLock.TimedMutualExclusion | internal/server/tls_storage_redis.go:264-312 | under that timing no two callers are ever both between a returned Lock and the start of their Unlock for one name |
| LeaseLock.UnlockSparesOwner | internal/server/tls_storage_redis.go:298-312 | an Unlock by a caller whose key now belongs to another call leaves that key alone if and only if the instance does not hold the other call's record under the name; callers on other edges are always spared |
| LeaseLock.ReleaseFrees | internal/server/tls_storage_redis.go:305-312 | in every run, a release that reaches Redis while the token it carries is the live value of its name, the caller's own token in particular, leaves the name free, and the next SET NX of any waiting caller wins it |
| LeaseLock.UnlockFrees | internal/server/tls_storage_redis.go:298-312 | the Unlock of a caller that holds its name can run to its end, removes exactly that key and that record, and the next attempt on the name wins |
| LeaseLock.LockTakes | internal/server/tls_storage_redis.go:269-294 | a Lock of a free name, answered at once, leaves the caller holding it for one lease with its record filed |
| LeaseLock.TryLockMeans | internal/server/tls_storage_redis.go:275-294 | one turn of Lock's loop, for every state of the client, the name and the reply: who wins, who waits, who fails, and that a lost reply may leave the key set |
| LeaseLock.LockUnlockRoundTrip | internal/server/tls_storage_redis.go:269-312 | Lock followed by Unlock puts Redis and the locks map back as they were, but for anything stale under the name |
| LeaseLock.RefreshingKeepsName | internal/server/tls_storage_redis.go:333-350 | in every run, while refreshes reach Redis less than one lease apart and the token is not released, the name stays the caller's and expires one lease after the last refresh |
| LeaseLock.CloseStops | internal/server/tls_storage_redis.go:316-329 | Close forgets the locks of its own instance and no others, lets none of their refreshers go on, and leaves the keys to expire |
| LeaseLock.OvertakenIsReached | internal/server/tls_storage_redis.go:269-294 | a run in which two callers of one edge are both in their critical section, when the first outlives its lease |
| LeaseLock.SameEdgeUnlockHarms | internal/server/tls_storage_redis.go:298-312 | in that run the first caller's Unlock deletes the second caller's live key: the lock record is looked up by name alone |
| CertTree.Descend | internal/server/tls_storage_redis.go:189-235 | a non-recursive listing never skips a level: below a non-empty component the walk continues with exactly the remaining components |
| CertTree.CleanIsReached | internal/server/tls_storage_redis.go:189-235 | every stored key without empty components below a directory is met by walking listings down from it |
| CertTree.ReachedShape | internal/server/tls_storage_redis.go:189-235 | what a walk can meet at all: the exact shape of keys reachable through listings, empty components included |
| CertTree.DirtyBreaksWalk | internal/server/tls_storage_redis.go:189-235 | if walking listings and the recursive listing agree, then no key below the directory has an empty component |
| CertTree.WalkExactIffClean | internal/server/tls_storage_redis.go:185-235 | walking non-recursive listings from a directory reaches exactly what the recursive listing returns if and only if no key below has an empty path component |
| CertTree.DoubleSlashIsMissed | internal/server/tls_storage_redis.go:205-230 | the key a//b is listed recursively and never met by the walk |
| CertTree.ListingsMean | internal/server/tls_storage_redis.go:189-230 | both listings in terms of the text of the keys: a key is below a directory exactly when it continues it with a non-empty remainder, and its entry in the non-recursive listing is the directory and its next component |
| KeyOrder.Sort | internal/server/tls_storage_redis.go:231-234 | the result is in strictly increasing order and has the same elements |
| KeyOrder.BeforeMeans | internal/server/tls_storage_redis.go:231-234 | the order of the listing: a proper prefix comes first, otherwise the smaller byte at the first difference decides |
| CertStore.RedisStorage.Store | internal/server/tls_storage_redis.go:115-129 | the file becomes the new value with its size and time, the index stays equal to the stored files, nothing else changes |
| CertStore.LoadIsLastWrite | internal/server/tls_storage_redis.go:115-171 | after any transactions of any number of edges a Load gives the value of the last Store of that very key, or a miss if a Delete dropped it later |
| CertStore.RedisStorage.Remove | internal/server/tls_storage_redis.go:158-168 | exactly the given keys leave the files and the index |
| CertStore.RedisStorage.Delete | internal/server/tls_storage_redis.go:145-171 | removes exactly the key and everything below it; every other file keeps its value |
| CertStore.SubtreeMeans | internal/server/tls_storage_redis.go:145-157 | Delete takes the key itself and exactly the keys that continue it with a slash; a key that only shares its text is spared |
| CertStore.RedisStorage.HasChildren | internal/server/tls_storage_redis.go:360-372 | true exactly when a stored key lies below the directory |
| CertStore.RedisStorage.Exists | internal/server/tls_storage_redis.go:173-187 | true exactly for stored files and for directories with something below them |
| CertStore.RedisStorage.Stat | internal/server/tls_storage_redis.go:239-262 | misses exactly when Exists is false; a file reports its own size and time, a directory is never reported as a file |
| CertStore.RedisStorage.List | internal/server/tls_storage_redis.go:189-235 | sorted, without duplicates, exactly the children (recursively: the descendants) of the directory; not-exist exactly when there are none and the prefix is no file |
| CertStore.IndexNeverDrifts | internal/server/tls_storage_redis.go:115-171 | in every interleaving of the transactions of any number of edges the index equals the set of stored files |
| CertStore.DeleteUnderInterference | internal/server/tls_storage_redis.go:145-171 | whatever transactions run between Delete's read and its write, it removes exactly the keys of its subtree that it saw |
| EdgeRouting.Reserve | internal/server/ingress_tcp.go:45-63 | a reserved port is in range and free; an any-port request fails only when the whole range is in use, a specific one exactly when it is out of range or taken |
| EdgeRouting.StepKeepsInv | internal/server/server.go:344-458 | hub, port pool, session maps and gauge stay in agreement across every step of any session that does not rebind its own host or reuse its own live id |
| RoutingFaults.ConsistentIffNoDuplicate | internal/server/server.go:344-402 | from an agreeing state a step leaves every live tunnel routed to itself and no hub route forgotten by its session if and only if it neither binds a host the session already has nor tracks a tunnel under an id the session already uses |
| RoutingFaults.DuplicateHostMisroutes | internal/server/hub.go:126-135 | after a session binds its own host again, its first tunnel is live and its route leads to the second |
| RoutingFaults.ReleaseUnroutesTwin | internal/server/server.go:446-449 | of two live tunnels of a session with one route, releasing either removes the route of the other |
| RoutingFaults.DuplicateHostIsReached | internal/server/server.go:344-348 | a clean run one step short of a second bind of the session's own host |
| RoutingFaults.DuplicateHostRun | internal/server/server.go:344-366 | a run from an edge's start that ends with a live tunnel that has no route |
| RoutingFaults.ReusedIdForgets | internal/server/server.go:397-402 | after the reuse of a live id the first tunnel is gone from its session's map, and from everything the session will take out, while the hub still routes to it |
| RoutingFaults.ReusedIdLeaks | internal/server/server.go:397-458 | in every continuation, unless the same session binds that very host once more, the first tunnel's route stays in the hub, so the session's teardown leaves something behind |
| RoutingFaults.DuplicateIdIsReached | internal/server/server.go:397-402 | a clean run one step short of the reuse of a live id |
| RoutingFaults.ReusedIdRun | internal/server/session.go:145-158 | a run from an edge's start in which a torn-down session leaves a route behind after reusing an id |
| EdgeRouting.RunKeepsInv | internal/server/server.go:298-458 | the agreement holds at every point of every run of any number of interleaved sessions |
| EdgeRouting.LiveTunnelsAreRouted | internal/server/server.go:344-402 | in every run each live tunnel's route leads to that tunnel and no two live tunnels share a route |
| EdgeRouting.PortRouteIsFree | internal/server/hub.go:137-146 | the port of a bind in flight is never in the hub already |
| EdgeRouting.PortsHaveOneOwner | internal/server/ingress_tcp.go:45-93 | in every run a bound port is reserved, and a reserved port is held by exactly one tunnel of one session: a bind in flight, a live tunnel or a release in flight |
| EdgeRouting.PortConflictNeverHappens | internal/server/server.go:368-380 | the hub's port-conflict branch is unreachable |
| EdgeRouting.DeadSessionLeavesNothing | internal/server/session.go:145-158 | after a teardown has released everything, no route, reserved port or listener refers to the session |
| EdgeRouting.OthersUntouched | internal/server/server.go:446-458 | no step of one session, teardown included, adds, removes or changes another session's routes or reserved ports |
| EdgeRouting.GaugeEqualsStats | internal/server/hub.go:174-178 | the tunnel gauge equals the hub's count whenever no bind or release is between its hub section and its gauge section |
| SessionEffects.UnbindReleases | internal/server/server.go:435-458 | from every agreeing state, Unbind of a tracked id takes it out of the session's map, and the steps that follow take its route out of the hub, its port out of the pool and the listeners and one off the gauge, and change nothing else |
| SessionEffects.UnknownUnbindIsIdle | internal/server/server.go:435-444 | Unbind of an id the session does not have changes nothing |
| SessionEffects.TeardownReleases | internal/server/session.go:145-158 | from every agreeing state and in any order of the tunnels, a teardown runs to its end; the hub and the pool then hold exactly what they held of other sessions, and the gauge is lower by the number of its tunnels |
| SessionEffects.BindHostEffect | internal/server/server.go:344-366 | a bind of a host that nobody routes goes through its four steps and leaves exactly one more live, routed and counted tunnel |
| SessionEffects.BindHostRefused | internal/server/hub.go:126-135 | a custom domain that another session routes is refused and leaves everything as it was |
| SessionEffects.BindPortEffect | internal/server/server.go:368-402 | from every agreeing state, a port request that can be met gets the port asked for or the lowest free one, and ends with it reserved, listened on, routed and counted |
| SessionEffects.ReserveRefused | internal/server/ingress_tcp.go:45-63 | a request that no port can meet changes nothing |
| SessionEffects.ListenFailureGivesBack | internal/server/server.go:368-396 | a port whose listener does not start goes back to the pool, and nothing else is changed |
| RoutingFaults.ZeroPortLeaks | internal/server/server.go:446-458 | with port 0 anywhere in the pool a clean run leaves a route and a reserved port of a session that is gone, because the release path reads port 0 as no port |
| RoutingFaults.CleanTeardownIffNoZero | internal/server/server.go:446-458 | every torn-down session leaves nothing behind in every clean run if and only if the pool does not contain port 0 |
| HubAndPorts.Hub.Bind | internal/server/hub.go:126-146 | refuses exactly a route held by another session and otherwise makes the route lead to the tunnel, changing nothing else |
| HubAndPorts.Hub.Unbind | internal/server/hub.go:148-157 | removes exactly the tunnel's own key, and nothing for port 0 |
| HubAndPorts.Hub.RemoveSession | internal/server/hub.go:110-122 | the session is no longer counted, and exactly the keys of the tunnels left in its map go |
| HubAndPorts.Hub.AllocateHost | internal/server/server.go:404-433 | a name that is not a custom domain is returned only if the hub does not route it; given names are lower-cased; each refusal happens exactly under its own condition; a random name is refused only when all eight draws are taken |
| HubAndPorts.Hub.Stats | internal/server/hub.go:174-178 | the number of sessions and the size of the routing table |
| HubAndPorts.Hub.SnapshotRoutes | internal/server/hub.go:183-194 | lists every route once and nothing else |
| HubAndPorts.PortManager.Reserve | internal/server/ingress_tcp.go:45-63 | reserves the wanted port or the lowest free one; fails for any port only if the whole range is used; the other protocol's ports are untouched |
| HubAndPorts.PortManager.SetListener | internal/server/ingress_tcp.go:65-76 | records the listener under its protocol and port only |
| HubAndPorts.PortManager.Release | internal/server/ingress_tcp.go:78-93 | frees the port and drops its listener, for that protocol only |
| TokenBucket.AllowWellFormed | internal/api/middleware.go:128-144 | tokens stay between zero and the burst |
| TokenBucket.ReaperInvisible | internal/api/middleware.go:128-159 | when a burst refills within the reap age, a reaped bucket and one that is never dropped make the same decisions on every ordered sequence of requests and sweeps |
| TokenBucket.Distinguish | internal/api/middleware.go:128-144 | two buckets with different contents are told apart by some later requests |
| TokenBucket.Drain | internal/api/middleware.go:128-144 | requests that empty a bucket exactly, admitting all it had and all it gained |
| TokenBucket.ReapOfEmptyShows | internal/api/middleware.go:146-159 | when a burst needs longer than the reap age, sweeping an empty bucket changes some later decision |
| TokenBucket.ReaperInvisibleIff | internal/api/middleware.go:128-159 | the reaper is invisible on all sequences if and only if burst is at most 600 times rps |
| TokenBucket.LocalWindowBound | internal/api/middleware.go:128-159 | in any window of length T one bucket admits at most burst + rps*T requests, whatever state it enters the window in |
| TokenBucket.LocalWindowBoundIff | internal/api/middleware.go:128-159 | that bound holds of all sequences if and only if burst is at most 600 times rps; otherwise two drainings around a sweep exceed it |
| RateLimiter.ScriptIsAllow | internal/api/ratelimit_redis.go:35-64 | the Redis script decides and updates exactly as the local bucket does on the record it finds |
| RateLimiter.ExpiredIsFull | internal/api/ratelimit_redis.go:92-99 | once its key has expired under the computed TTL, a bucket has refilled |
| RateLimiter.TtlMeans | internal/api/ratelimit_redis.go:92-99 | the lifetime of the key is the refill time of a burst and one second, rounded up to a whole millisecond |
| RateLimiter.ExpiryInvisible | internal/api/ratelimit_redis.go:35-99 | the Redis bucket with expiry makes the same decisions as a bucket that is never dropped, on every ordered sequence of requests |
| RateLimiter.RedisLocalAndKeptAgree | internal/api/ratelimit_redis.go:35-99 | with sweeps of the local reaper interleaved anywhere, the Redis bucket decides as the undropped bucket, and when a burst refills within the reap age as the reaped local bucket |
| RateLimiter.RedisAndLocalAgreeIff | internal/api/ratelimit_redis.go:23-28 | the Redis and the local implementation agree on every sequence of requests and sweeps if and only if burst is at most 600 times rps |
| RateLimiter.SharedSeesItsOwn | internal/api/ratelimit_redis.go:113-129 | in every run of the fleet the shared bucket is the single Redis bucket on exactly the calls that reach it, lost replies included, and every answer seen is its answer |
| RateLimiter.LocalSeesItsOwn | internal/api/ratelimit_redis.go:113-129 | in every run of the fleet each replica's own bucket is the local bucket on exactly its sweeps and the calls Redis did not answer, and decides those calls |
| RateLimiter.SharedWithinCapacity | internal/api/ratelimit_redis.go:113-129 | every admission through Redis, by any replica, is paid from the shared bucket, lost replies included |
| RateLimiter.LocalsWithinCapacity | internal/api/ratelimit_redis.go:113-129 | every admission through a fallback is paid from that replica's own bucket |
| RateLimiter.SharedWindowBound | internal/api/ratelimit_redis.go:113-129 | through Redis at most burst + rps*T requests are admitted in a window of length T, for all limits and error patterns |
| RateLimiter.FleetWindowBound | internal/api/ratelimit_redis.go:113-129 | with N replicas and any pattern of Redis errors at most (N+1)*(burst + rps*T) requests are admitted in a window of length T |
| FleetOverflow.FleetWindowBoundIff | internal/api/ratelimit_redis.go:113-129 | for a fleet of any size N that bound holds on every schedule if and only if burst is at most 600 times rps |
| FleetOverflow.ManyCycles | internal/api/middleware.go:128-159 | k cycles of draining and sweeping admit k times the same excess over the allowance |
| FleetOverflow.NearlyExhausts | internal/api/ratelimit_redis.go:35-64 | requests that take all but a fraction of a token of what the shared bucket may admit in a window |
| RateLimiter.LocalsWindowBoundIff | internal/api/ratelimit_redis.go:113-129 | for a fleet of any size N, the fallback buckets admit at most N*(burst + rps*T) on every schedule if and only if burst is at most 600 times rps |
| BucketStores.LocalBucketStore.Allow | internal/api/middleware.go:128-144 | decides for one key as its bucket does and touches no other key |
| BucketStores.LocalBucketStore.Sweep | internal/api/middleware.go:146-159 | drops exactly the buckets idle past the cutoff |
| BucketStores.RedisBucketStore.Allow | internal/api/ratelimit_redis.go:113-129 | decides as the script when Redis answers and as the local fallback otherwise, other keys untouched |
| Forwarding.DialWithRetry | internal/server/forward.go:159-170 | at most two dials, to two different edges other than this one: the named owner when it has an address, then, after a failure, exactly a different edge named by the second lookup; which edge ends up connected, if any, from the lookups and the dials alone |
| Forwarding.ForwardHttp | internal/server/forward.go:126-153 | declines exactly when the first lookup names no other edge, without dialling; otherwise hands over to the owner if its dial succeeds, else to the edge of the second lookup if that dial does, and answers 502 exactly when neither does or the replay fails |
| Forwarding.ServeConn | internal/server/ingress_http.go:112-161 | the first request of a connection that nothing here serves decides: handed over to the owner or to the edge of the retry, 502 or 404, each under its own condition on the answers, and without one the connection closes; at most two dials in all, never to this edge, and none on a forwarded connection or without a mesh |
| Forwarding.RequestFates | internal/server/ingress_http.go:112-185 | which requests leave the connection open, by what serves them, and that only wrong passwords are counted |
| Forwarding.TenthFailureCloses | internal/server/ingress_http.go:112-185 | the tenth wrong password on a connection closes it and no earlier one does |
| Forwarding.ServeForward | internal/server/forward_listener.go:62-96 | an inter-edge connection never causes a dial: without the shared token or for a non-HTTP scheme it is closed, and otherwise a host missing here is answered 404 |
| Forwarding.FollowPublicConn | internal/server/forward.go:71-170 | for every registry content and every change between lookups, a public connection crosses at most one hop and causes at most two dials anywhere, to two different edges other than its own |
| RouteLease.InMemoryRegistry.Bind | internal/server/registry.go:84-89 | lookups find the edge and session bound, for the lifetime asked for and not after it |
| RouteLease.InMemoryRegistry.RefreshRoute | internal/server/registry.go:91-99 | never adds an entry and changes no binding; an entry that is there resolves for the lifetime asked for from now on and not after it, and every other route resolves as before |
| RouteLease.InMemoryRegistry.Find | internal/server/registry.go:101-112 | the entry's edge and session until its expiry has passed |
| RouteLease.InMemoryRegistry.Unbind | internal/server/registry.go:114-119 | the route resolves to nothing afterwards; other routes stay |
| RouteLease.InMemoryRegistry.RegisterEdge | internal/server/registry.go:121-126 | lookups of the edge find the address for the lifetime asked for and not after it; every other edge resolves as before |
| RouteLease.InMemoryRegistry.LookupEdge | internal/server/registry.go:128-139 | the advertised address until its expiry has passed |
| RouteLease.InMemoryRegistry.UnregisterEdge | internal/server/registry.go:141-146 | the edge resolves to nothing afterwards |
| RouteLease.LeasedRouteResolves | internal/server/forward_listener.go:103-125 | for a route only this edge binds, with presence rounds succeeding less than two heartbeats apart, every lookup from the registry bind to the start of the release finds this edge |
| RouteLease.ResolvesUntilUnbound | internal/server/forward_listener.go:103-125 | after the hub has let go, lookups still find this edge until the registry unbind arrives or two heartbeats have passed since the last good round |
| RouteLease.RefreshNeverRevives | internal/server/registry.go:91-99 | without a new bind an absent route stays absent, whatever refreshes of earlier snapshots still arrive |
| RouteLease.UnrenewedRouteLapses | internal/server/forward_listener.go:103-125 | in every run a route that is no longer bound or refreshed, its edge having crashed for instance, resolves to nothing once two heartbeats have passed, whatever else happens |
| RouteLease.RoundRenews | internal/server/forward_listener.go:103-125 | a presence round whose refreshes succeed makes every registered route of the hub last two heartbeats from its start, touches no other route and counts as the last good round |
| RouteLease.NoOtherEdge | internal/server/registry.go:84-119 | another edge never appears under a route that only this edge binds |
| RouteLease.BindHoldsIffNoReleaseInFlight | internal/server/server.go:344-366 | at any registry bind of a run with timely rounds, of a route only this edge binds: every timely continuation without its release resolves it to this edge if and only if no earlier release of the route is still on its way to the registry |
| RouteLease.LateUnbindRun | internal/server/server.go:446-458 | a run from the start that ends with a route in the hub and none in the registry |
| RelayModel.NeverFaults | internal/api/remote.go:169-283 | in every run no operation sends on a closed channel, closes one twice, or blocks under the mutex |
| RelayModel.BacklogIsExact | internal/api/remote.go:223-236 | in every run the backlog is exactly the last 200 lines ever published |
| RelayModel.ViewerSeesReplayThenBroadcasts | internal/api/remote.go:195-247 | in every run a viewer is sent its replay and then, in order, some of the broadcasts made after it joined |
| RelayModel.KeepingUpMissesNothing | internal/api/remote.go:195-247 | over any operations, a viewer whose channel has room at every broadcast is sent its replay and then every broadcast since it joined |
| RelayModel.JoinIsComplete | internal/api/remote.go:195-210 | in every run a new viewer starts out registered, open and with exactly its replay |
| RelayModel.SessionFollowsStory | internal/api/remote.go:169-283 | in every run the attached agent, the lines, the state, the end and the broadcasts are those that a plain account of the operations tells |
| RelayModel.NewcomerIsTold | internal/api/remote.go:195-210 | in every run a new viewer is sent the last 200 lines if any were published, the last state if any, and whether the agent is there, in this order |
| RelayModel.CommandArrives | internal/api/remote.go:249-261 | a command goes to the attached agent's channel if fewer than 32 events wait there, and nowhere else |
| RelayModel.StaleDetachIsIdle | internal/api/remote.go:181-193 | a superseded or detached connection stays superseded over any further operations, so its detach, however late, changes nothing |
| RelayModel.ReconnectSupersedes | internal/api/remote.go:169-179 | in every run a reconnect supersedes all earlier connections for good |
| RelayModel.EndedStaysEnded | internal/api/remote.go:265-283 | an ended session stays ended over any further operations, and a second end, however late, changes nothing |
| RelayModel.EndTells | internal/api/remote.go:265-283 | the first end tells every viewer and the agent, room permitting, then closes the viewers' channels and forgets the viewers |
| RelayModel.LeaveDismisses | internal/api/remote.go:212-221 | a viewer that leaves is unregistered and closed, and nobody else notices |
| RelayModel.DismissedIffEndedSince | internal/api/remote.go:265-283 | a viewer that does not leave is unregistered and closed if and only if the session ends while it watches |
| RelayModel.LateViewerIsForgotten | internal/api/remote.go:195-210 | in every run a viewer that joins after the end stays registered and open whatever follows, short of its leaving |
| RemoteHub.Hub.Create | internal/api/remote.go:85-97 | the code finds the session for thirty minutes and not after |
| RemoteHub.Hub.Find | internal/api/remote.go:101-113 | an expired session is dropped and reported missing; a miss leaves the code unknown |
| RemoteHub.Hub.End | internal/api/remote.go:117-125 | the code goes, and its session is ended if there was one |
| RemoteHub.Hub.Sweep | internal/api/remote.go:128-147 | exactly the expired sessions go and are ended, the others stay |
| RemoteHub.EverEndedIffNotLost | internal/api/remote.go:101-147 | from any reached state a session is ended in some continuation if and only if it has not left the map unended |
| RemoteHub.LostExactlyByLateLookup | internal/api/remote.go:101-113 | in every run a session in the map is lost that way by a step if and only if the step looks it up after its expiry |
| RemoteHub.SweepTakes | internal/api/remote.go:128-147 | a sweep sends a session of the map to its end if and only if its expiry has passed |
| RemoteHub.LookupLosesSession | internal/api/remote.go:101-113 | a run in which a lookup between expiry and sweep loses the session |
| RelaySession.RemoteSession.FanOut | internal/api/remote.go:238-247 | every registered viewer is offered the event once, no other channel is touched; the session invariant is kept |
| RelaySession.RemoteSession.AttachAgent | internal/api/remote.go:169-179 | the new channel replaces the old one and viewers hear of the presence; the session invariant is kept |
| RelaySession.RemoteSession.DetachAgent | internal/api/remote.go:181-193 | only the current channel detaches; otherwise nothing changes; the session invariant is kept |
| RelaySession.RemoteSession.AddViewer | internal/api/remote.go:195-210 | the viewer's channel starts with exactly the replay; the session invariant is kept |
| RelaySession.RemoteSession.RemoveViewer | internal/api/remote.go:212-221 | closes the viewer's channel once; an unknown viewer changes nothing; the session invariant is kept |
| RelaySession.RemoteSession.PublishEvent | internal/api/remote.go:223-236 | records the lines or the snapshot and offers the event to every viewer; the session invariant is kept |
| RelaySession.RemoteSession.SendCommand | internal/api/remote.go:249-261 | true exactly when an agent is attached and its channel had room; the session invariant is kept |
| RelaySession.RemoteSession.EndSession | internal/api/remote.go:265-283 | ends once: viewers and agent are told, viewer channels are closed, a second call changes nothing; the session invariant is kept |
| MeterIdentifier.IdentifierInjective | internal/billing/metering.go:109-112 | over the two metrics the identifier determines the organisation, the metric and the second of the window start |
| MeterIdentifier.IdentifierMeans | internal/billing/metering.go:109-112 | the identifier's text: mu_, the organisation, the metric's name and the second of the window start, joined by underscores |
| Metering.MeterStore.InsertMeteredUsage | internal/api/store/mem.go:761-776 | inserts with the next id unless organisation, metric and window start are taken |
| Metering.MeterStore.PendingMeteredUsage | internal/api/store/mem.go:778-791 | the unreported rows in order, up to the limit |
| Metering.MeterStore.MarkReported | internal/api/store/mem.go:793-807 | marks exactly the rows with the given ids and changes nothing else of any row |
| Metering.ExecKeepsInv | internal/billing/metering.go:37-107 | in every interleaving of collectors and flushers rows are unique per window, only ever appended, and never change quantity; every accepted charge is some row's own |
| Metering.ChargedAtMostOnce | internal/billing/metering.go:37-112 | however often collecting and flushing are repeated, and whatever fails between a push and its mark, one organisation, metric and window start is charged at most once and with the quantity first collected |
| Metering.PushMeans | internal/billing/metering.go:71-107 | a push charges the row's own quantity under its identifier unless that is taken, also when only the reply is lost, and only an acknowledged push is marked |
| MeteringLoop.ChargeIsFirstTick | internal/billing/metering.go:37-135 | in every run of arriving usage, ticks and flushes, the quantity charged for a window is the usage at the first tick that saw any; it falls short of the last tick's total by exactly what arrived in between, and equals it if and only if that is nothing |
| MeteringLoop.ChargesTooLittle | internal/billing/metering.go:117-135 | for any two records with a tick after each and a flush that succeeds: only the first is charged |
| MeteringLoop.UsageSinceMeans | internal/billing/metering.go:45-50 | bandwidth is the bytes in plus the bytes out of the organisation's records, requests are counted by themselves |
| MeteringLoop.RowHoldsWindowIff | internal/billing/metering.go:37-54 | a collected row holds exactly the usage of [start, end) if and only if what was recorded from the end on, which is counted too, equals what arrives for the window only later |
| MeteringLoop.ChargesBeyondTheEnd | internal/billing/metering.go:37-38 | a closed window is charged for a request served after its end |
| AdjacentWindows.ChargesAddUpIff | internal/billing/metering.go:20-54 | for any number of adjacent windows closed one after the other, the charges add up to the usage recorded over all of them if and only if what they counted from beyond their ends equals what arrived for them too late |
| AdjacentWindows.ChargedTwice | internal/billing/metering.go:37-38 | a record that is there when the first window closes and ends in the second is charged in both |
| Metering.RecollectIsIdle | internal/billing/metering.go:13-17 | collecting a window again, at any later time, inserts and changes nothing |
| Settlement.ReportedIsCharged | internal/billing/metering.go:71-107 | in every run in which no two rows of one organisation and metric start in the same second, every row marked reported has been charged with its own quantity |
| Settlement.ReportedIsChargedIff | internal/billing/metering.go:71-112 | from any reached state, every row that flushes mark reported is charged with its own quantity, however they go on, if and only if no two rows of one organisation and metric start in the same second |
| MeterQueue.EverReportedIff | internal/billing/metering.go:71-107 | in every run whose flushes skip exactly what has no meter or no customer, a row is reported in some continuation if and only if it can be pushed itself and fewer than 500 rows that cannot are ahead of it |
| MeterQueue.StuckQueue | internal/billing/metering.go:75-85 | 500 windows of an organisation without a customer, and the next window of anyone else is never pushed |
| Settlement.SameSecondLosesOne | internal/billing/metering.go:109-112 | of two windows of one organisation and metric that start within one second at most one is ever charged |
| Settlement.SameSecondRun | internal/billing/metering.go:37-112 | a run in which both pushes are accepted and both rows marked, and the second window is charged nowhere |
| BillingService.Service.CollectForOrg | internal/billing/metering.go:37-65 | earlier rows stay; a new bandwidth row holds the bytes in plus the bytes out, and a new requests row the requests, of the organisation's records that end at or after the start; without errors both windows have a row whenever their usage is positive; the state is that of the two collect steps up to the first store error, and the created rows are counted |
| BillingService.CollectsBothDirections | internal/billing/metering.go:37-54 | ten bytes in and ninety out are collected as a row of one hundred bytes, beside a row for the one request |
| BillingService.Service.CollectMeteredUsage | internal/billing/metering.go:20-35 | one tick is the collections of all organisations in order, an error in one not stopping the others; the count is exact without errors and never too high |
| BillingService.Service.CreateMeterEvent | internal/billing/metering.go:88-97 | what Stripe holds after one push, given how the push ends |
| BillingService.Service.FlushMeteredUsage | internal/billing/metering.go:71-107 | one flush is exactly its snapshot, push and mark steps |
| UsageAggregator.UsageIsConserved | internal/server/usage.go:39-91 | in every interleaving of record and flush, per account and tunnel, what was recorded equals what was handed to ReportUsage plus what a flush still holds plus what is in the windows |
| UsageAggregator.FlushCompletes | internal/server/usage.go:75-91 | a flush that is let finish empties the windows and hands over, per account and tunnel, exactly what they held |
| UsageAggregator.Aggregator.RecordTraffic | internal/server/usage.go:39-54 | adds to one window; an empty account records nothing |
| UsageAggregator.Aggregator.Flush | internal/server/usage.go:75-91 | empties the windows and hands over exactly what they held |
| UsageSeries.TruncateTo | internal/api/store/mem.go:477-484 | the multiple of an hour or a day at or below the time, less than one unit away |
| UsageSeries.BucketsAddUp | internal/api/store/mem.go:437-475 | over any distinct starts that cover the records, the bucket totals add up to the overall total |
| UsageSeries.BucketMeans | internal/api/store/mem.go:451-484 | the bucket of an hour or a day holds exactly what ends in it, no earlier than the given time |
| UsageSeries.UsageStore.UsageForOrg | internal/api/store/mem.go:437-449 | each count by itself is the sum over the organisation's records that end at or after the given time |
| UsageSeries.UsageStore.Gather | internal/api/store/mem.go:451-468 | one entry per hour or day that occurs, holding exactly what falls into it |
| UsageSeries.UsageStore.UsageSeriesForOrg | internal/api/store/mem.go:451-475 | strictly increasing starts, each bucket holding what falls into it, all buckets together exactly what UsageForOrg reports for the same start time |
| Frames.DecodeEncode | pkg/proto/codec.go:45-78 | a length survives its big-endian prefix |
| Frames.BigEndian | pkg/proto/codec.go:45-61 | a four-byte length is written with the most significant byte first |
| Frames.UdpFrameMeans | internal/server/ingress_udp.go:122-132 | a datagram on the wire is its length in two bytes, the higher one first, and the datagram |
| Frames.ReadWritten | pkg/proto/codec.go:45-78 | a frame reads back as its message and the bytes after it are left alone |
| Frames.ReadCutFrame | pkg/proto/codec.go:64-78 | a frame cut short is never mistaken for a message |
| Frames.RoundTrip | pkg/proto/codec.go:45-78 | any sequence of messages within the limit reads back as itself and leaves any trailing raw bytes untouched |
| Frames.TruncationIsPrefix | pkg/proto/codec.go:64-78 | every truncation reads as exactly the messages whose frames arrived whole |
| Streams.Stream.WriteFramed | pkg/proto/codec.go:45-61 | refuses exactly a message over the limit, writing nothing; otherwise appends its frame |
| Streams.Stream.ReadFramed | pkg/proto/codec.go:64-78 | returns what one frame read gives on the stream's bytes, errors included, and leaves the rest |
| Streams.Stream.PumpDatagrams | internal/server/ingress_udp.go:122-132 | every datagram becomes one 16-bit frame, in order |
| Streams.Stream.DrainDatagrams | internal/server/ingress_udp.go:136-153 | the datagrams read until the stream ends are those of its whole frames |
| Streams.CarryDatagrams | internal/agent/forward.go:176-222 | datagrams between edge and agent arrive as they were sent |
| Streams.WritersNeverInterleave | internal/server/hub.go:63-68 | in every interleaving of writers that hold the write mutex, writes that fail part way included, the peer reads exactly the messages written so far in lock order |
| Streams.WriteCompletes | internal/server/hub.go:63-68 | a writer that gets the mutex and whose writes go through puts out its whole frame and frees the mutex |
| Streams.CapWriter.Write | internal/agent/forward.go:251-266 | every byte is counted and exactly the first max are kept |
| AgentGenerations.StepKeepsInv | internal/agent/session.go:82-137 | every connect, failure, drain notice, reconnect move and shutdown keeps the generation invariant |
| AgentGenerations.OneReconnectPerGeneration | internal/agent/reconnect.go:16-39 | in every run no generation starts more than one reconnect |
| AgentGenerations.FirstFailureDecides | internal/agent/reconnect.go:16-39 | in every run the first failure of the current generation makes it stale and decides on exactly one reconnect, or on none when the agent is shut down |
| AgentGenerations.StaleFailureIsIdle | internal/agent/reconnect.go:16-21 | once a generation is down or overtaken, none of its failures, however late, moves anything but the failing loop itself |
| AgentGenerations.NeverRevived | internal/agent/session.go:82-90 | a generation that went down or was overtaken is never current again |
| AgentGenerations.ConnectedIsWatched | internal/agent/session.go:82-137 | in every run, while the agent shows as connected, each loop of that very session is reading or about to be started by the connect under way |
| AgentGenerations.AlwaysRecovering | internal/agent/reconnect.go:16-77 | in every run an agent that connected once and is not shut down is connected or has a reconnect under way, and connection plus reconnects never outnumber the connects made by callers |
| AgentGenerations.Recovers | internal/agent/reconnect.go:43-77 | from every state of every run in which an agent that is not shut down has lost its connection, at most three steps of one reconnect bring up a new current generation |
| AgentGenerations.CallerConnects | internal/agent/session.go:26-99 | a call that finds the agent disconnected and dials successfully starts a new generation with its own loops |
| AgentGenerations.SingleReconnect | internal/agent/reconnect.go:16-77 | with one connect by a caller there is always exactly one of the two: a live connection or a single reconnect |
| AgentGenerations.ShutdownStops | internal/agent/reconnect.go:43-56 | after shutdown no reconnect is decided on and none under way begins another dial |
| AgentGenerations.ShutdownCloses | internal/agent/core.go:308-323 | shutdown closes the agent for good, whatever follows, and the reconnects under way never grow in number again |
| AgentGenerations.Agent.FinishConnect | internal/agent/session.go:82-90 | a new generation becomes current |
| AgentGenerations.Agent.HandleSessionDown | internal/agent/reconnect.go:16-39 | a stale failure changes nothing; a current one disconnects and asks for a reconnect unless shut down; the generation is not current afterwards |
| AgentGenerations.Agent.ShutdownOnce | internal/agent/core.go:308-316 | closes once and leaves the connection fields alone |
| Backoff.NextDelay | internal/agent/reconnect.go:73-75 | doubling while below 30 s is the smaller of 500 ms times a power of two and 32 s |
| Backoff.Wait | internal/agent/reconnect.go:64-67 | every wait is between 500 ms and 30 s, at least the backoff or 30 s, and at most half again the backoff |
| Backoff.Reconnect | internal/agent/reconnect.go:43-77 | the k-th wait is the k-th backoff plus jitter capped at 30 s; the loop ends exactly by a successful dial or a shutdown |
| UserCodes.RandUserCode | internal/api/auth/device.go:131-144 | four alphabet characters, a dash and four more, unchanged by trimming and upper-casing |
| UserCodes.NormalizeMeans | internal/api/auth/device.go:77-82 | white space around a typed code is dropped and that within it kept, small letters become capital ones, and everything else stays |
| DeviceFlow.DeviceStore.Create | internal/api/auth/device.go:63-74 | files the request under both codes |
| DeviceFlow.DeviceStore.Approve | internal/api/auth/device.go:77-92 | succeeds exactly when the tidied code names a pending flow, and changes only that flow |
| DeviceFlow.DeviceStore.Poll | internal/api/auth/device.go:95-114 | answers by age, then approval; a key or an expiry consumes the flow under both codes |
| DeviceFlow.RedisDeviceStore.Create | internal/api/device_redis.go:61-83 | both keys with the fifteen-minute lifetime |
| DeviceFlow.RedisDeviceStore.Approve | internal/api/device_redis.go:89-129 | reads the user key, reads the record, writes it back with KEEPTTL |
| DeviceFlow.RedisDeviceStore.Poll | internal/api/device_redis.go:134-161 | answers by age, then approval; a key or an expiry deletes both keys |
| DeviceFlow.RedisDeviceStore.Delete | internal/api/device_redis.go:163-170 | neither code leads anywhere afterwards, at any time; every other device code is answered as before |
| DeviceFlow.StoreFollowsHistory | internal/api/auth/device.go:63-114 | after every run the in-process store answers every poll and approval as a reference that knows only the history of the flows |
| DeviceFlow.HandoutsAreDeserved | internal/api/auth/device.go:95-114 | in every run each key handed out is the one last approved for the user code paired with that device code, within ten minutes of its creation |
| DeviceFlow.HandedOutOnce | internal/api/auth/device.go:95-114 | in every run no device code gets a key twice and no key is handed out twice |
| DeviceFlow.FlowRoundTrip | internal/api/auth/device.go:63-114 | after any run: a code just created is pending, once approved it is answered with the approved key, until ten minutes have passed, and once answered with the key or the expiry it is unknown |
| DeviceFlow.RedisRoundTrip | internal/api/device_redis.go:61-161 | the Redis store hands out the approved key in the same way when the code is typed as displayed and polled within ten minutes |
| DeviceFlow.RedisHandsOutTheSame | internal/api/device_redis.go:61-170 | on the same non-overlapping operations with codes typed as displayed, the Redis store hands the same keys to the same devices in the same order |
| DeviceFlow.PollsDifferIffLapsed | internal/api/device_redis.go:134-161 | the stores answer a poll differently if and only if the flow is live in process and its record has lapsed in Redis at the read; then one says expired, the other unknown, and the flow is at least fifteen minutes old |
| DeviceFlow.LapsedPollDiffers | internal/api/device_redis.go:134-145 | a flow created at zero and polled after fifteen minutes gets the two different answers |
| DeviceFlow.ApprovalsAgreeIff | internal/api/device_redis.go:89-109 | after any run both stores agree on an approval if and only if the code names no live flow, or is typed as displayed and both keys of the flow are still there when they are read |
| DeviceFlow.LapsedApprovalDiffers | internal/api/device_redis.go:85-101 | a flow approved as displayed fifteen minutes after its creation is accepted in process and refused by Redis |
| DeviceFlow.LowerCaseIsRefused | internal/api/device_redis.go:89-96 | a live code typed in lower case is accepted in process and refused by Redis |
| DeviceFlow.ApproveKeepsLifetimeIff | internal/api/device_redis.go:85-128 | approving leaves the record's lifetime as it was if and only if the record is still there at the write; otherwise it comes back and stays for good |
| DeviceFlow.ApproveRevivesRecord | internal/api/device_redis.go:102-128 | a run in which the record lapses between the second read and the write and is back for good |

## Left out

- LeaseLock: Lock, Unlock and refreshLock are steps on values, not methods, since their loops block on other goroutines; the blocking itself and the poll interval are not modelled.
- BindHoldsIffNoReleaseInFlight: is about routes that only this edge binds and about runs with timely presence rounds.
- ReusedIdLeaks: leaves out continuations in which the same session binds the forgotten host once more, which replaces the route.
- EverReportedIff: takes it as fixed which organisations and metrics can be pushed; a customer added later is not modelled.
- ChargesAddUpIff: takes byte and request counts as non-negative and each window as collected once, when it closes.
- RedisHandsOutTheSame: overlapping Redis polls and Redis errors are not claimed, since read and delete are separate commands and a failed delete is only logged.
- UserCodes: codes are ASCII; Unicode spaces and case mappings are not modelled, nor in the lower-casing of host names.
- WritersNeverInterleave: covers writers that hold the write mutex; the drain broadcast writes without it. A failed write breaks the stream for good.
- Global uniqueness of a host across edges: the registry overwrites on bind and deletes on unbind without an owner check.
- Redis connection errors in the reads of the certificate store.
- The HTTP/2 and HTTP/3 ingress, which does not forward.
- Protobuf marshalling, HTTP parsing and proxying, TLS, ACME, QUIC, yamux and byte welding.
- Endpoint restoration after a reconnect (rebindAll), which depends on the control plane's answers.
- Floating-point rounding in the buckets, the truncation of the Redis clock to whole milliseconds, and 64-bit overflow of usage counters.
- Cryptography and random generation, the Postgres store, plan tables, configuration, geo lookup, OAuth state.
- Desktop app, dashboard, command line, packaging, admin and documentation pages.
