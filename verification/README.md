# IronBabel: a verified model of the gateway's core

IronBabel is a protocol gateway: it accepts HTTP requests, picks a route, checks the client against
an authentication and rate-limit chain, forwards the request over one of seven transports, records a
metrics sample, and runs inbound listeners (AMQP, MQTT, ZMQ) that it must be able to shut down
cleanly. This project models that logic in Dafny and proves what each part is there for.

`dafny verify dfyconfig.toml` checks everything. Each module mirrors one component:

| module | component |
|---|---|
| `PathDecoding` | the percent-decoding loop of the traversal check, as string rewriting with a unique normal form |
| `StableSort`, `Router`, `Forwarding` | route order, longest-prefix match, prefix stripping and the proxy's guards |
| `GrpcFraming` | the frame encoder and both decoders (Length-Prefixed-Message of "gRPC over HTTP/2") |
| `RateLimiter`, `Auth`, `MiddlewareChain` | the sliding-window limiter, the token check and the chain built from them |
| `MetricsViews`, `Percentiles`, `MetricsStore` | the metrics store as a sequential object that agrees with its full history |
| `BucketArrivals` | the sixty time buckets under requests and ticks in any order, and exactly when their count is right |
| `ConcurrentRecording`, `PendingReadings`, `StaleReadings` | the same store when calls and ticks interleave between its separate locks, how many pending clock readings the count tolerates, and a run that defeats it |
| `ShutdownLatch`, `ShutdownProtocol` | the shutdown flag with its `Notify`, over every interleaving of waiters and triggers |
| `GatewayLifecycle`, `StartAndStop`, `GatewayDrain`, `OverlappingStart` | `start`/`stop` with handle ownership, what they bring about, the drain, and exactly when it survives an overlapping `start` |
| `AmqpSettlement` | ack, requeue-once and drop of AMQP deliveries, with lost sessions |
| `RequestPipeline`, `DispatchOutcomes`, `ServedRequests` | `handle_request` (one record per request, whatever happens) and `admin_middleware`, and what they mean over whole runs |

How the source is represented:

- Text is byte-wise: a `char` stands for one UTF-8 byte, as `len` and slicing count in the source.
  Header values and tokens are sequences of `bv8`.
- Integers are unbounded; the two casts that lose bits (the 32-bit frame length and the 32-bit
  request limit) are written out. Instants are natural numbers.
- Loops are methods proved against functions; objects that update their fields (the limiter, the
  chain, the store, the application) are classes; the chain keeps its limiter's table as a value, and
  `IsRateLimited` shows that the object does the same step. Where several tasks act at once (shutdown latch,
  lifecycle, concurrent recording, AMQP broker and consumer) the state is a value and every atomic
  step an event, so that a theorem about "every run" is about every interleaving.
- What libraries, sockets and clocks answer comes in as a parameter (`Env`) or as an event.

Four properties one would expect turn out to hold only under a condition, and each has its exact one:

- The gRPC round trip holds exactly for payloads below 4 GiB (`RoundTripExactlyBelow4GiB`).
- The five-second request count is exact just when every request of the window was followed by fewer
  than sixty changes of second in the order of arrival at the buckets (`WindowedCountExactly`). Clock
  readings that arrive in order always satisfy this, and so do up to 27 late ones
  (`FewLateArrivals`), hence every run with at most five calls or ticks between clock reading and
  buckets at any moment (`FivePendingAreHarmless`); some thirty calls that read the clock before a second ends and reach the
  buckets after it, in alternation with newer ones, do not (`StaleCallsUndercount` is such a run, with
  clock readings that never go back).
- A `stop` completes whenever no `start` clears the flag during its joins (`EveryStopCompletes`). If
  one does, the `stop` can still complete on its own exactly when every task it has yet to join was
  past its `wait` at that moment (`ResetDecides`). `OverlapBlocksStop` reaches a state where one is
  not: `start` clears the flag before it binds, so even a `start` that fails, because the old server
  still listens, blocks the `stop`; and as the gateway is not running then, no later `stop` sends the
  signal again (`WedgedForGood`, `WedgedByServer`).
- docs/security.md:152 promises that with API keys configured a request without a valid token gets a
  401 before it reaches an upstream. In the code WebSocket routes are answered before the middlewares
  run, so such a request is refused exactly unless it is for a WebSocket route
  (`UnauthorizedIsRefusedUnlessWebSocket`), and the limiter is skipped likewise
  (`LimitedIsRefusedUnlessWebSocket`); `UnauthorizedUpgrade` is an example.

One disagreement needs no condition: docs/security.md:167 calls the admin routes exempt from the auth
middleware, while the code puts the same chain in front of them (`AdminIsGuarded`), so that accepted
admin requests spend their client's rate limit too (`AdminSpendsBudget`). The model follows the code.

## Model

| member | source | states |
|---|---|---|
| `PathDecoding.UniqueNormalForm` | src/protocols/http.rs:48-61 | contracting `%25`, `%2e`, `%2f` anywhere, in any order, reaches exactly one irreducible string (both directions) |
| `PathDecoding.Confluence` | src/protocols/http.rs:48-61 | two strings reached from one path can be rewritten to a common string |
| `PathDecoding.ReachesNormalForm` | src/protocols/http.rs:50-59 | every string rewrites to its normal form |
| `PathDecoding.RewriteKeepsNormalForm` | src/protocols/http.rs:50-59 | any number of contractions keeps the normal form |
| `PathDecoding.ContractKeepsNormalForm` | src/protocols/http.rs:50-59 | a single contraction at any position keeps the normal form |
| `PathDecoding.ReplacePass` | src/protocols/http.rs:51-54 | one `replace` keeps the normal form, changes the string only by shortening it, and leaves it alone exactly when the pattern does not occur |
| `PathDecoding.DecodeOnceStep` | src/protocols/http.rs:50-59 | the loop body stops exactly on irreducible strings and otherwise shortens, so the loop ends |
| `PathDecoding.PathContainsTraversal` | src/protocols/http.rs:48-61 | the loop ends and its verdict is that the normal form has a `..` segment |
| `PathDecoding.HasDotDotMeaning` | src/protocols/http.rs:60-60 | `split('/')` contains `..` exactly when two dots stand between slashes or ends |
| `PathDecoding.TraversalMeaning` | src/protocols/http.rs:48-61 | the verdict is a statement about any irreducible string the path rewrites to |
| `PathDecoding.EncodingKeepsNormalForm` | src/protocols/http.rs:48-61 | percent-encoding one `%`, `.` or `/` (either hex case) keeps the normal form |
| `PathDecoding.EncodingNeverHides` | src/protocols/http.rs:48-61 | encoding any characters any number of times in any order and case never changes the verdict |
| `PathDecoding.JoinSplit` | src/protocols/http.rs:60-60 | joining the segments with slashes gives the path back |
| `PathDecoding.SplitAtSlash` | src/protocols/http.rs:60-60 | the segments of `u/v` are those of `u` followed by those of `v` |
| `PathDecoding.SlashIsBarrier` | src/protocols/http.rs:48-61 | the normal form of `u/v` splits at that slash |
| `PathDecoding.TraversalSplits` | src/protocols/http.rs:48-61 | `u/v` is a traversal exactly when `u` or `v` is |
| `PathDecoding.SafePathCharacters` | src/protocols/http.rs:71-76 | `path_is_safe` in character codes: a leading slash and no code up to 32, no 92, no 127 |
| `PathDecoding.SafeQueryCharacters` | src/protocols/http.rs:81-85 | `query_is_safe` in character codes: no code up to 32 and no 127 |
| `StableSort.SortIsStableSort` | src/core/router.rs:13-16 | the sort orders by key and keeps the order of equal keys |
| `StableSort.SortContents` | src/core/router.rs:13-16 | the sort is a permutation |
| `StableSort.StableSortUnique` | src/core/router.rs:13-16 | an ordered stable rearrangement is unique, so any stable sort gives this list |
| `Router.FirstMatchWins` | src/core/router.rs:13-60 | the first match in the sorted list is the longest matching path, the earliest configured among duplicates; none exactly when nothing matches |
| `Router.MatchesIsEligible` | src/core/router.rs:40-58 | what makes a route a candidate, in characters: the path is its own, continued by a slash or ends in one; it lists no method or this one in some ASCII case |
| `Router.SelectSpec` | src/core/router.rs:29-60 | `route` in terms of the configured list: `None` exactly for a method that is empty or has a character other than letters, digits and hyphens, or when no route is a candidate; else the longest candidate, the earliest among duplicates |
| `Router.WinnerUnique` | src/core/router.rs:29-60 | the winner is unique |
| `Router.OrderIndependent` | src/core/router.rs:13-60 | permuting the configuration does not change the matched path |
| `Forwarding.PrefixMatchesSegments` | src/core/router.rs:43-47 | the character test is a test on whole segments |
| `Forwarding.ForwardShape` | src/core/gateway.rs:246-257 | the matched path is the route followed by the forward path, or the route itself; the `strip_prefix` fallback is not taken |
| `Forwarding.StripKeepsClean` | src/core/gateway.rs:246-257 | stripping a matched prefix never creates a `..` segment |
| `Forwarding.StrippedPathStaysSafe` | src/gateway/http.rs:46-69 | a routed path that passes the traversal and safe-path checks passes both again after stripping, and starts with `/` |
| `GrpcFraming.WireFormat` | src/protocols/grpc.rs:29-36 | the encoded bytes: a zero flag, the length with its most significant byte first, the payload |
| `GrpcFraming.DecodeFrameOnWire` | src/protocols/grpc.rs:43-72 | accepts exactly five header bytes with a zero flag and a big-endian length covered by what follows, takes that many bytes, and otherwise names the first thing wrong with its numbers |
| `GrpcFraming.ParseErrorExact` | src/protocols/grpc.rs:82-123 | the error of a refused stream is that of the rest after its leading whole frames |
| `GrpcFraming.DecodeAfterEncode` | src/protocols/grpc.rs:29-72 | decoding an encoded payload followed by anything gives the payload, cut to the 32-bit length |
| `GrpcFraming.EncodeAfterDecode` | src/protocols/grpc.rs:43-72 | a decoded buffer is the encoding of the result followed by the rest |
| `GrpcFraming.DecodeFrames` | src/protocols/grpc.rs:82-123 | the loop over `offset` and `out` computes the joined payloads, or the first malformed frame's error |
| `GrpcFraming.ParseAfterEncodeAll` | src/protocols/grpc.rs:82-123 | decoding undoes encoding for any number of frames |
| `GrpcFraming.EncodeAllAfterParse` | src/protocols/grpc.rs:82-123 | whatever is accepted is a concatenation of encoded frames: every byte is consumed |
| `GrpcFraming.DecodeFramesExact` | src/protocols/grpc.rs:82-123 | accepted exactly for concatenations of frames; the split is unique; the result is the payloads in order |
| `GrpcFraming.CutAcceptedOnlyAtBoundary` | src/protocols/grpc.rs:82-123 | a cut stream is accepted exactly when the cut is on a frame boundary |
| `GrpcFraming.ParseLength` | src/protocols/grpc.rs:82-123 | bytes consumed are the payload bytes plus five per frame |
| `GrpcFraming.SingleFrameAgreement` | src/protocols/grpc.rs:43-123 | on one frame both decoders give the payload |
| `GrpcFraming.RoundTripExactlyBelow4GiB` | src/protocols/grpc.rs:29-36 | the round trip holds exactly when the length fits into 32 bits |
| `RateLimiter.StepRefines` | src/core/middleware/rate_limit.rs:33-57 | one call answers like the ideal limiter and keeps the simulation, eviction included |
| `RateLimiter.LimiterRefinesIdeal` | src/core/middleware/rate_limit.rs:33-57 | over every run in time order, every answer is that of a limiter that never forgets |
| `RateLimiter.IdealStepBounded` | src/core/middleware/rate_limit.rs:46-56 | admitting one more request keeps every window within the limit |
| `RateLimiter.SlidingWindowBound` | src/core/middleware/rate_limit.rs:46-56 | every closed interval of window length holds at most `limit` admissions per key; a rejection means exactly `limit` in the window ending now |
| `RateLimiter.StepKeepsShortLists` | src/core/middleware/rate_limit.rs:46-56 | no key ever stores more than `limit` timestamps |
| `RateLimiter.InsertKeepsTableSmall` | src/core/middleware/rate_limit.rs:39-56 | inserting a key leaves at most 10,000 keys or only keys with a timestamp in the window |
| `RateLimiter.BoundedTracking` | src/core/middleware/rate_limit.rs:39-56 | the same over every run, in terms of admitted requests |
| `RateLimiter.EvictionOnlyWhenFull` | src/core/middleware/rate_limit.rs:39-44 | other clients' lists are touched only by a new client that finds 10,000 tracked, and then pruned and dropped if empty |
| `RateLimiter.RateLimitMiddleware.constructor` | src/core/middleware/rate_limit.rs:19-26 | a new limiter has admitted nothing and satisfies the invariant |
| `RateLimiter.RateLimitMiddleware.IsRateLimited` | src/core/middleware/rate_limit.rs:33-57 | limits exactly when the key has `limit` admissions in the window; records the request exactly when it admits it; keeps the refinement and the window bound |
| `Auth.ConstantTimeEqIsEquality` | src/core/middleware/auth.rs:10-16 | the length test and the XOR/OR fold are equality |
| `Auth.AnyKeyMatchesIsMembership` | src/core/middleware/auth.rs:29-53 | the fold over all keys is membership among the string keys |
| `Auth.AuthHeaderIsFirst` | src/core/middleware/auth.rs:63-65 | the lookup finds the value of the first header named `authorization` in any case, and none exactly when there is none |
| `Auth.AuthenticateSpec` | src/core/middleware/auth.rs:58-98 | accepts exactly when no keys are asked for or the first such header is the bytes of "Bearer " and a configured key; otherwise the refusal names the missing header, the wrong scheme or the invalid token |
| `MiddlewareChain.Chain.constructor` | src/core/middleware/mod.rs:26-30 | a new chain is empty |
| `MiddlewareChain.Chain.Add` | src/core/middleware/mod.rs:32-34 | appends one middleware |
| `MiddlewareChain.Chain.HandleRequest` | src/core/middleware/mod.rs:36-41 | the loop stops at the first refusal and leaves later middlewares untouched |
| `MiddlewareChain.FirstRefusalDecides` | src/core/middleware/mod.rs:36-41 | for any chain the first middleware that refuses decides, those before it have handled the request, those after it have not seen it, and an accepted request comes out unchanged |
| `MiddlewareChain.LimitSettings` | src/core/middleware/rate_limit.rs:67-82 | defaults of 100 requests and 60 seconds, the 32-bit cut of the limit, the unit of the window, and the shared bucket of unknown clients |
| `MiddlewareChain.Chain.FinishResponse` | src/core/middleware/mod.rs:43-48 | the reversed response loop returns the response unchanged |
| `MiddlewareChain.BuiltStep` | src/core/gateway.rs:970-994 | the built chain accepts by the auth rule and the limiter; a request refused by auth leaves the limiter as it was |
| `MiddlewareChain.ChainDecides` | src/core/gateway.rs:970-994 | over every run the outcomes are those of one declarative rule, and the limiter remembers exactly the accepted requests |
| `MiddlewareChain.RetryAfterIsWindow` | src/core/middleware/mod.rs:53-63 | a rate-limited request finds the configured window as its retry time |
| `MetricsViews.PushRingIsSuffix` | src/admin/store.rs:143-159 | pushing with eviction keeps exactly the newest `cap` items |
| `MetricsViews.TouchAgrees` | src/admin/store.rs:229-246 | a tick keeps the buckets increasing, exact and covering the last 60 seconds |
| `MetricsViews.AddAgrees` | src/admin/store.rs:111-141 | recording a request does too |
| `MetricsViews.WindowedCountIsExact` | src/admin/store.rs:261-268 | for windows up to 60 seconds the bucket count equals the number of requests of the full history in the window |
| `MetricsViews.WindowSeconds` | src/admin/store.rs:261-268 | which seconds a window covers |
| `MetricsViews.ErrorsSpelledOut` | src/admin/store.rs:89-92 | the error tally counts exactly the requests with a status of 400 or more or an error of the gateway's own |
| `MetricsViews.SpanSpelledOut` | src/admin/store.rs:114-114 | the tally of a span of seconds counts exactly the requests with a timestamp in it, in milliseconds |
| `BucketArrivals.ReplayIsSuffix` | src/admin/store.rs:111-141 | whatever the order of arrival, the buckets are the last sixty ever opened |
| `BucketArrivals.WindowedCountExactly` | src/admin/store.rs:261-268 | for every order of arrival the count never exceeds the requests of the window, and equals them exactly when each is followed by fewer than sixty changes of second |
| `BucketArrivals.FewLateArrivals` | src/admin/store.rs:261-268 | the count is exact while twice the late arrivals since each request of the window, plus the span of the window, stay below sixty |
| `BucketArrivals.FewOvertaken` | src/admin/store.rs:261-268 | the count is exact when never more than `k` arrivals are overtaken at any one second, for windows short enough for that `k` |
| `BucketArrivals.InOrderBucketsAgree` | src/admin/store.rs:111-141 | arrivals in order keep the buckets increasing, exact in requests, latency and errors, and covering the last sixty seconds |
| `BucketArrivals.InOrderIsExact` | src/admin/store.rs:261-268 | arrivals in order make the count exact for every window of up to sixty seconds |
| `BucketArrivals.AlternatingUndercounts` | src/admin/store.rs:111-141 | any number of requests of two neighbouring seconds that arrive in alternation is reported as sixty |
| `Percentiles.RankOf` | src/admin/store.rs:275-283 | the rank is the exact ceiling of `p*n/100` |
| `Percentiles.NearestRank` | src/admin/store.rs:275-283 | the percentile is one of the values, at least `rank` values are at or below it and fewer strictly below |
| `Percentiles.PercentilesOrdered` | src/admin/store.rs:194-206 | a higher percentile is never smaller |
| `MetricsStore.CountsAfter` | src/admin/store.rs:94-98 | the status map agrees with the history after one more request |
| `MetricsStore.RoutesAfter` | src/admin/store.rs:100-109 | the route map agrees with the history after one more request |
| `MetricsStore.Store.constructor` | src/admin/store.rs:41-55 | a new store agrees with the empty history |
| `MetricsStore.Store.CountRequest` | src/admin/store.rs:85-109 | totals, id counter and both maps agree with the history extended by this request |
| `MetricsStore.Store.PushRings` | src/admin/store.rs:143-159 | both rings are the last 10,000 of the history extended by this request |
| `MetricsStore.Store.TrimBuckets` | src/admin/store.rs:129-131 | the eviction loop leaves the last 60 buckets |
| `MetricsStore.Store.RecordInBuckets` | src/admin/store.rs:111-141 | the bucket block, on the three cases of the newest bucket |
| `MetricsStore.Store.TouchBuckets` | src/admin/store.rs:229-246 | the newest bucket becomes that of the given second, evicting past sixty |
| `MetricsStore.Store.Tick` | src/admin/store.rs:229-246 | arrives at the buckets and changes no count; all views still agree |
| `MetricsStore.Store.RecordRequest` | src/admin/store.rs:57-163 | the history grows by exactly this request and totals, maps, rings and buckets agree with it |
| `MetricsStore.Store.RecentRequests` | src/admin/store.rs:181-184 | the newest `n` requests of the whole history, newest first |
| `MetricsStore.Store.GetPercentiles` | src/admin/store.rs:194-206 | nearest-rank percentiles of the last 10,000 latencies of the history, p50 at most p95 at most p99 |
| `MetricsStore.Store.CountLastFiveSeconds` | src/admin/store.rs:213-226 | the count behind `compute_rps` never exceeds the requests of the last five seconds, is exact just when none was followed by sixty changes of second, and so whenever arrivals were in order |
| `ConcurrentRecording.RecordIsConserved` | src/admin/store.rs:111-141 | retained plus evicted buckets grow by exactly this request |
| `ConcurrentRecording.TotalsStep` | src/admin/store.rs:85-92 | every step keeps the totals equal to the calls past that point |
| `ConcurrentRecording.StatusStep` | src/admin/store.rs:94-98 | likewise each status counter and their sum |
| `ConcurrentRecording.RouteStep` | src/admin/store.rs:100-109 | likewise requests, errors and latency of each route |
| `ConcurrentRecording.TouchIsConserved` | src/admin/store.rs:229-246 | a tick moves buckets out but loses nothing they hold |
| `ConcurrentRecording.BucketStep` | src/admin/store.rs:111-141 | likewise retained plus evicted buckets, ticks included |
| `ConcurrentRecording.ArrivalStep` | src/admin/store.rs:111-141 | the buckets are those of the arrivals so far, whose requests are the calls past the buckets |
| `ConcurrentRecording.RingStep` | src/admin/store.rs:143-159 | the rings are suffixes of everything stored, which is what the calls stored |
| `ConcurrentRecording.IdStep` | src/admin/store.rs:67-67 | ids in the log stay pairwise distinct |
| `ConcurrentRecording.RunKeepsInv` | src/admin/store.rs:57-163 | all views hold after every run of any number of calls and ticks |
| `ConcurrentRecording.InterleavedConservation` | src/admin/store.rs:57-163 | totals exceed the other counters (each status; requests, errors and latency of each route; the buckets) by exactly the calls between the two updates; ids distinct; rings exact |
| `ConcurrentRecording.InterleavedWindow` | src/admin/store.rs:261-268 | in every reachable state the windowed count is at most, and exactly under the sixty-changes condition equal to, the requests that reached the buckets |
| `ConcurrentRecording.QuiescentViewsAgree` | src/admin/store.rs:57-163 | with no call in flight totals, statuses, routes, buckets, log, latencies and both rings agree with one history |
| `ConcurrentRecording.CanFinish` | src/admin/store.rs:57-163 | from every state all calls in flight can finish and all ticks reach the buckets |
| `PendingReadings.FewLateStep` | src/admin/store.rs:67-141 | at each second, arrivals already overtaken plus pending readings that still may be stay within the largest number ever pending |
| `PendingReadings.FewPendingIsExact` | src/admin/store.rs:261-268 | in every interleaving with clock readings in order and at most `k` of them pending at any moment, the windowed count is exact for windows short enough for that `k` |
| `PendingReadings.FivePendingAreHarmless` | src/admin/store.rs:213-226 | the five-second count is exact with at most five pending |
| `StaleReadings.StaleCallsUndercount` | src/admin/store.rs:57-163 | for any number of calls above sixty there is a run, with clock readings in order and all calls finished, whose five-second count is sixty |
| `ShutdownProtocol.RunKeepsInv` | src/core/shutdown.rs:27-61 | over every run a waiter sleeps under a set flag only while a trigger still owes its notification |
| `ShutdownProtocol.NoLostWakeup` | src/core/shutdown.rs:33-61 | once stored and notified, every waiter has returned or can step, however it interleaved |
| `ShutdownProtocol.TriggerWakesAll` | src/core/shutdown.rs:33-42 | `trigger` is always possible and its halves set the flag and wake everybody; `reset` clears it |
| `ShutdownProtocol.ReturnsOnlyWhenSet` | src/core/shutdown.rs:44-61 | a `wait` returns only on reading a set flag |
| `ShutdownProtocol.WaitReturns` | src/core/shutdown.rs:44-61 | without a reset `wait` returns within three own steps and is never blocked before |
| `ShutdownProtocol.EveryWaiterReturns` | src/core/shutdown.rs:27-61 | the same after every run of the latch from its creation |
| `GatewayLifecycle.LockStep` | src/core/gateway.rs:744-898 | the lock's holder is the one caller inside the critical section |
| `GatewayLifecycle.RecordStep` | src/core/gateway.rs:774-898 | what the runtime record holds at each point of `start` and `stop` |
| `GatewayLifecycle.OwnerStep` | src/core/gateway.rs:774-898 | every step keeps each spawned task's handle in exactly one place |
| `GatewayLifecycle.JoinStep` | src/core/gateway.rs:888-898 | only finished tasks are joined |
| `GatewayLifecycle.LatchStep` | src/core/gateway.rs:754-883 | no task sleeps through a trigger that `stop` has completed |
| `GatewayLifecycle.RunKeepsInv` | src/core/gateway.rs:744-901 | all of these after every run of starts, stops, cancellations and task moves |
| `GatewayLifecycle.LifecycleOwnership` | src/core/gateway.rs:744-901 | one owner per handle, joined at most once, and a free lock with `running` set means server, metrics and one handle per listener |
| `GatewayLifecycle.FailedBindLeavesNothing` | src/core/gateway.rs:744-757 | a `start` that cannot bind, from its call on and in every interleaving, spawns nothing, leaves the record alone and gives the lock back; when its bind fails the gateway is stopped and the record empty |
| `StartAndStop.StartStarts` | src/core/gateway.rs:744-868 | for any number of listeners and every interleaving: a `start` that gets the lock of a stopped gateway and binds can always step, returns after exactly `listeners + 6` own steps, and at that moment `running` is set, the flag clear, server, metrics and each listener held, and `listeners + 2` tasks spawned |
| `StartAndStop.StartedTasksAreUp` | src/core/gateway.rs:774-863 | unless one crashes, all its tasks run and have not been told to stop |
| `StartAndStop.StartRefusedWhenRunning` | src/core/gateway.rs:746-750 | a `start` of a running gateway changes nothing |
| `StartAndStop.StopJoinsEverything` | src/core/gateway.rs:871-901 | when an uncancelled `stop` that found the gateway running returns, each of the `listeners + 2` tasks of the record is finished and joined |
| `StartAndStop.StopIdleWhenStopped` | src/core/gateway.rs:874-876 | a `stop` of a stopped gateway changes nothing |
| `StartAndStop.TaskEnds` | src/core/gateway.rs:852-863 | without a crash a task ends only after its `wait` returned, the server only after draining |
| `StartAndStop.ListenerReconnects` | src/gateway/amqp.rs:116-141 | under a clear flag a supervisor goes from session to backoff to the next session |
| `StartAndStop.MetricsTicks` | src/core/gateway.rs:777-784 | the metrics loop can always take another tick and goes on |
| `StartAndStop.CancelledStop` | src/core/gateway.rs:888-898 | dropping a joining `stop` gives up exactly its unjoined handles |
| `GatewayDrain.SettledStep` | src/core/gateway.rs:871-901 | a completed trigger stays in force until a reset |
| `GatewayDrain.TakeSettles` | src/core/gateway.rs:871-886 | when `stop` has taken its handles the signal is out and the joins concern existing tasks |
| `GatewayDrain.TaskDrains` | src/gateway/amqp.rs:116-141 | every move of a task under a set signal brings its end nearer |
| `GatewayDrain.StopCompletes` | src/core/gateway.rs:871-901 | from its call on, a `stop` returns within `8 * (listeners + 2) + 6` steps of its own and of the tasks it joins; one is always possible, or the lock's holder can step |
| `GatewayDrain.EveryStopCompletes` | src/core/gateway.rs:871-901 | the same for every `stop` of every run of the gateway in which no `start` clears the flag during its joins |
| `GatewayDrain.HolderCanStep` | src/core/gateway.rs:745-886 | whoever holds the lock can step |
| `GatewayDrain.LockIsReleased` | src/core/gateway.rs:745-886 | no caller keeps the lock for more than `listeners + 5` steps of its own, whatever the others do |
| `GatewayDrain.ListenerLoopEnds` | src/gateway/amqp.rs:116-141 | a supervisor loop returns: at most one more session and one more backoff resolve, it ends within six moves and can always make the next |
| `OverlappingStart.PastStopCompletes` | src/core/gateway.rs:888-901 | a `stop` whose tasks are all past their `wait` completes in every run that does not cancel it, resets included, within three steps per task and one more |
| `OverlappingStart.StuckForGood` | src/core/gateway.rs:888-898 | a `stop` joining under a clear flag with any task not past its `wait` stays so until a new trigger, a crash or a cancellation |
| `OverlappingStart.ClearFlagCompletion` | src/core/gateway.rs:888-898 | under a clear flag a joining `stop` can complete without those exactly when every task it still joins is past its `wait` |
| `OverlappingStart.ResetDecides` | src/core/gateway.rs:754-754 | after the reset in an overlapping `start`, a draining `stop` can complete on its own exactly when all its tasks were past their `wait` before |
| `OverlappingStart.WedgedForGood` | src/core/gateway.rs:744-876 | a stuck `stop` in a gateway that is not running stays so however often `start` and `stop` are called, until a bind succeeds, a joined task crashes or it is cancelled |
| `OverlappingStart.WedgedByServer` | src/core/gateway.rs:752-757 | when the sleeper is the old server no bind succeeds while it listens, so only a crash or a cancellation ends it |
| `OverlappingStart.OverlapBlocksStop` | src/core/gateway.rs:752-757 | such a state is reachable: a `start` clears the flag during the drain and then fails to bind |
| `AmqpSettlement.ConservedStep` | src/gateway/amqp.rs:194-259 | every step keeps each published message in exactly one place |
| `AmqpSettlement.JustifiedStep` | src/gateway/amqp.rs:209-235 | each settlement directly follows the forward of the same delivery: an ack a 2xx one, a drop a failed redelivery, a requeue a failed first delivery |
| `AmqpSettlement.RequeuedOnceStep` | src/gateway/amqp.rs:217-231 | a message is requeued at most once and then travels as redelivered |
| `AmqpSettlement.BudgetStep` | src/gateway/amqp.rs:194-259 | deliveries made plus deliveries possible stay within two per message, plus redeliveries lost with a session |
| `AmqpSettlement.SettlementSafety` | src/gateway/amqp.rs:194-259 | all of these over any run with arbitrary outcomes, lost sessions and settlements that never arrive |
| `AmqpSettlement.SmoothSessionSettles` | src/gateway/amqp.rs:194-259 | without losses `n` fresh messages settle in at most `2n` deliveries and everything ends acked or dropped |
| `AmqpSettlement.AnythingCanHappen` | src/gateway/amqp.rs:194-259 | what broker, network and webhook may do is unrestricted: publish, deliver, lose, either outcome, a settlement heard or not |
| `RequestPipeline.App.constructor` | src/core/gateway.rs:41-52 | the application holds the sorted routes, the chain and the store |
| `RequestPipeline.App.Record` | src/core/gateway.rs:81-98 | appends one record with this request, route, target, status and error |
| `RequestPipeline.App.Finalize` | src/core/gateway.rs:335-382 | the response chain keeps the status |
| `RequestPipeline.App.Reply` | src/core/gateway.rs:112-116 | the early exits: one record without an error and a response with exactly that status |
| `RequestPipeline.App.HandleHttp` | src/core/gateway.rs:234-283 | one record; 405, the upstream's status or 502, by the method and the guards on the forward path |
| `RequestPipeline.App.HandleZmq` | src/core/gateway.rs:418-489 | one record; 200 for a reply, 202 for a one-way send, 502 on failure |
| `RequestPipeline.App.HandleGraphQL` | src/core/gateway.rs:547-594 | one record; 400 for a refused body, the upstream's status or 502 |
| `RequestPipeline.App.HandlePublish` | src/core/gateway.rs:596-642 | one record; 202 or 502 |
| `RequestPipeline.App.HandleGrpc` | src/core/gateway.rs:648-718 | one record; a 2xx answer that is not a sequence of frames becomes a 502 |
| `RequestPipeline.App.Dispatch` | src/core/gateway.rs:233-308 | one record, by the route's transport |
| `RequestPipeline.App.HandleRequest` | src/core/gateway.rs:100-309 | exactly one record for every request, with the status, route, target and error flag of the verdict; the response has exactly that status, or 500 just when an upstream answer cannot be turned into a response; the middlewares change only if reached |
| `DispatchOutcomes.RefusedBeforeTheChain` | src/core/gateway.rs:110-181 | 400 for a `..` path, 404 when no route is a candidate, 101 or 426 on a WebSocket route, 413 for an unreadable body; the middlewares are not asked |
| `DispatchOutcomes.HttpOutcome` | src/core/gateway.rs:234-283 | 405 for a bad method; the upstream's status if target, forward path and query are acceptable and it answers; else 502 with an error |
| `DispatchOutcomes.GrpcOutcome` | src/core/gateway.rs:648-718 | the upstream's status, except 502 with an error for a 2xx whose body is no concatenation of encoded frames, an unacceptable target or path, or no answer |
| `DispatchOutcomes.GraphQLOutcome` | src/core/gateway.rs:547-594 | 400 with an error for a refused body; the upstream's status; else 502 with an error |
| `DispatchOutcomes.MessagingOutcome` | src/core/gateway.rs:418-642 | 200 for a reply, 202 for a one-way send, 502 with an error on failure |
| `DispatchOutcomes.ResponseSpelledOut` | src/core/gateway.rs:263-275 | the client sees the outcome's status, or 500 exactly for an upstream answer that cannot be turned into a response |
| `DispatchOutcomes.TargetsSpelledOut` | src/core/gateway.rs:389-399 | the recorded target is the transport's URL, address or broker |
| `RequestPipeline.CleanHttpRequestGetsAnswer` | src/core/gateway.rs:233-283 | an accepted request with a clean, safe path gets the upstream's own answer, stripped or not |
| `RequestPipeline.RefusalStatuses` | src/core/gateway.rs:181-223 | 401, 429 or the dispatch's outcome by the auth rule and the limiter alone; the limiter is charged only for requests that auth accepts |
| `RequestPipeline.App.HandleAdmin` | src/core/gateway.rs:498-541 | the chain is asked, nothing is recorded, a refusal is answered 401 or 429 and anything else as the admin route does |
| `RequestPipeline.AdminIsGuarded` | src/core/gateway.rs:498-541 | an admin request is answered by its route exactly when it satisfies the auth rule and the limiter admits it, and is charged exactly when it satisfies the auth rule |
| `RequestPipeline.UnauthorizedIsRefusedUnlessWebSocket` | src/core/gateway.rs:131-157 | without a valid token a request is never dispatched and is refused exactly unless it is for a WebSocket route, where it is upgraded just when it asks properly |
| `RequestPipeline.LimitedIsRefusedUnlessWebSocket` | src/core/gateway.rs:131-157 | the same for a client over its limit; WebSocket requests are never charged |
| `RequestPipeline.UnauthorizedUpgrade` | src/core/gateway.rs:131-157 | a request without any token, from a client that has used up its limit, is answered 101 |
| `ServedRequests.Serve` | src/core/gateway.rs:839-863 | handing requests to the application one after another yields a served run from its old state to its new one |
| `ServedRequests.RecordsInOrder` | src/core/gateway.rs:100-309 | after any run the history has one entry per proxied request, in order, with its route, status and time |
| `ServedRequests.BudgetKept` | src/core/gateway.rs:181-210 | after any run in clock order the limiter remembers exactly the dispatched and the accepted admin requests |
| `ServedRequests.EveryRunIsAccounted` | src/core/gateway.rs:100-309 | over every run of proxied and admin requests in clock order: one record and the exact response per proxied request; at most `limit` dispatched plus accepted admin requests per client in any interval of the window's length; 429 for an authorized request just when `limit` of them lie in the window ending now |
| `ServedRequests.AdminSpendsBudget` | src/core/gateway.rs:498-541 | with a limit of one, an admin request makes its client's next proxied request a 429 although nothing was dispatched |

## Left out

- Sockets, brokers and HTTP clients: only what they answer is modelled, as an arbitrary input.
- The executor: `Notify` is taken at its documented behaviour and fairness is not modelled; a bound is stated in steps together with the fact that a step is always possible. axum's graceful shutdown is taken to finish once signalled, as one step of the server task.
- src/core/shutdown.rs, `start`/`stop` and the AMQP session are modelled as transition systems over values rather than as classes, since their properties are about interleavings.
- StopCompletes: see EveryStopCompletes, which it is the general form of.
- EveryStopCompletes: the ticks the metrics loop takes before it polls `wait` are not counted, because `select!` may favour a ready interval; a `stop` cancelled by its caller's timeout is an `Abandon` event that drops the handles.
- OrderIndependent: states that the matched path, not the route record, is the same for every order, because two routes may share a path and then the earlier one wins.
- CountLastFiveSeconds: covers the count only; the division by the window that yields a floating-point rate is not modelled.
- RequestPipeline.App.HandleRequest: response bodies and headers, the retry header and `set_forwarded_for` are not modelled; the 500 answer to other middleware errors is left out because the built chain only refuses with Unauthorized or RateLimited, and so is the gRPC encoding error, because the encoder cannot fail.
- ServedRequests.EveryRunIsAccounted: requests are handled one after another; in the code the chain calls of concurrent requests are ordered by the limiter's lock and their records by the store's, which ConcurrentRecording covers on its own.
- AMQP with `auto_ack`, the consumer tag counter and the MQTT and ZMQ session bodies: nothing is settled there.
- Overflow of 64-bit counters and rounding of floating-point percentiles: natural numbers and the exact integer ceiling instead.
- Timing of `constant_time_eq`: only its result is modelled.
- The admin dashboard's own answers, its event stream, the configuration store, configuration loading and validation, URL building, hop-by-hop header removal and the pass-through protocols: they would only add easy members.
