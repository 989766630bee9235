# Verified model of the QPS simulator's rate limiting and connection management

This Dafny project models the stateful core of the QPS simulator and proves what that core
keeps over whole runs. `dafny verify dfyconfig.toml` checks all of it.

| file | what it holds |
|---|---|
| `Common.dfy` | options, the token scale, Go's truncating division, time truncation |
| `Counting.dfy` | counting the elements of a sequence that satisfy a predicate |
| `Limiters.dfy` | one decision of each keyed limiter, and runs of decisions for one key |
| `BucketTheorems.dfy` | token bucket and leaky bucket over whole histories |
| `BucketExact.dfy` | exactly which calls the buckets allow, and the numbers in their answers |
| `WindowTheorems.dfy` | fixed and sliding window over whole histories |
| `WindowExact.dfy` | exactly which calls the windows allow, and the numbers in their answers |
| `Hash.dfy`, `Sharding.dfy` | FNV-1a, the sharded per-key store, its refinement of one map |
| `KeyedLimiters.dfy` | the four limiter objects over arrays of shard maps |
| `RemoteTokens.dfy` | the central token server that may go into debt, and runs of requests |
| `LocalCached.dfy`, `LocalCachedSafety.dfy` | many local-cached limiters and goroutines as a transition system, and its invariants |
| `LocalCachedBackOff.dfy` | what one turn of a local-cached limiter does; its rejection period in every interleaving |
| `LocalCachedAlone.dfy` | the local-cached limiter object, termination of `AllowN` |
| `PoolProtocol.dfy`, `PoolSafety.dfy` | the connection pool with its condition variable as a transition system, and its invariants |
| `Servers.dfy` | server connection tables and the transport |
| `Agreement.dfy`, `AgreementLimits.dfy` | connection life cycles on client and server in every interleaving |
| `Clients.dfy` | the connection, pool and client objects, `Client.Send` |
| `Balancer.dfy` | round-robin and weighted selection, fairness |
| `Metrics.dfy` | bucket rotation, percentiles, independence of shards |
| `Budget.dfy` | the request budget shared by a client's workers |

## How to read the model

* **Time and tokens.** Instants are integer nanoseconds since Go's zero time; token and water
  levels are integer nanotokens, so rate times elapsed time is exact. IEEE rounding, `int64`
  overflow and float precision are abstracted away. Conversions back to `int64` and
  `time.Duration` truncate toward zero, also for negative values.
* **Clocks** are arguments. A theorem that needs a clock that does not step back says so
  (`ClockForward`, `Advances`); the bisimulations do not need it.
* **One body, two uses.** Each object's method is proved against a function (`Decide`,
  `StoreAfter`, `Request`, `Choose`/`Take`/`Landed`, `Taken`/`Remaining`, `Counted`/`Dropped`).
  The transition systems and the theorems about histories are about those same functions.
* **Connection IDs** are numbers and unique: the original formats them from client, server and
  a nanosecond clock, and the model takes a new ID to be unused (`Unused`, `Open`).
* **Interleavings.** In the transition systems a state holds one program counter per goroutine
  (per connection in `Agreement`), a step is one critical section or one atomic operation
  outside the locks, and `Exec` runs a trace of steps. A theorem about `Exec(Init, trace)` is
  about every interleaving of any number of goroutines.

## What turned out different from what one might expect

* **The sliding window never slides.** Window starts are aligned, so a later window start is at
  least a whole window later and the branch that carries the count over is dead
  (`pkg/ratelimiter/limiter.go:268-277`). As coded the limiter is the fixed window on every
  history, although the comments speak of a weighted previous window.
* **RetryAfter can be one nanosecond short.** It truncates; a retry after exactly RetryAfter
  succeeds exactly when the rate divides the shortfall. If the cost fits the burst, one
  nanosecond more is always enough; one less never is. The same holds for the remote server's
  back-off.
* **`AllowN` of the local-cached limiter needs something to fetch.** With a prefetch count of
  zero or less and nobody waiting it can fetch zero tokens for ever; it returns from every
  state exactly when the prefetch count is at least one or somebody waits. Against a solvent
  server a single call without either returns exactly when the cache covers it or the
  rejection period has not ended.
* **A failing picker can cost the pool a wake-up.** It decrements and signals without the lock
  (`pkg/client/connection.go:266-273`); if that falls between another goroutine's load of the
  counter and its wait, that goroutine sleeps on a free slot. That cannot happen exactly when
  there is no limit or the limit is at least the number of goroutines. Where it can, each such
  failure costs at most one claim, and nothing else does.
* **Client and server agree on connections only if the limits fit.** The pool looks at its own
  count, not at the server's instruction; with a lower limit on the server it keeps a
  connection the server has dropped. `pkg/simulator/simulator.go:75` and `:139` set the limits
  equal, which is enough.
* **Weighted fairness does not survive every wrap of the counter.** It holds for every stretch of
  picks exactly when only one server is healthy or the total weight divides 2^64.

## Model

| member | source | states |
|---|---|---|
| BucketTheorems.TokenAndLeakyBucketsAgree | pkg/ratelimiter/limiter.go:430-472 | with equal rate and burst, token and leaky bucket give the same Allowed, Remaining and RetryAfter to every history of calls and resets, for any clock and any costs |
| BucketTheorems.StepMirrored | pkg/ratelimiter/limiter.go:168-199 | one call keeps tokens = capacity - water through both clamps and gets the same answer |
| BucketTheorems.AnyWindowBound | pkg/ratelimiter/limiter.go:160-202 | between any two calls of a stretch without Reset the allowed cost is at most burst + rate * time between them, for token and leaky bucket |
| BucketTheorems.TokensStayInRange | pkg/ratelimiter/limiter.go:177-191 | in every reachable state the level is non-negative, and at most the burst if no cost was negative |
| BucketTheorems.SpendingIsPaidFor | pkg/ratelimiter/limiter.go:177-192 | what a stretch spends is covered by the level at its first call and the refill since |
| BucketTheorems.RefillIsAdditive | pkg/ratelimiter/limiter.go:177-183 | clamped refill in two steps reaches the same level as in one, also from a key's first call |
| BucketTheorems.DeniedCallsAreInvisible | pkg/ratelimiter/limiter.go:168-199 | removing any set of denied calls from a token- or leaky-bucket history leaves every other answer as it was |
| BucketTheorems.RetryAfterIsExact | pkg/ratelimiter/limiter.go:189-199 | after a denial with nothing allowed since, a retry is allowed exactly when the cost fits the burst and more than RetryAfter has passed, or exactly RetryAfter and the truncation lost nothing |
| BucketTheorems.RetryAfterCanBeOneShort | pkg/ratelimiter/limiter.go:189-199 | for every rate and burst, a caller denied one token by an empty bucket that waits exactly RetryAfter is denied again exactly when the rate does not divide a second |
| BucketExact.BucketIsExact | pkg/ratelimiter/limiter.go:160-202 | token and leaky bucket, any clock, costs and resets: a call is answered from the least of a full bucket and of burst - cost allowed since + rate * time since, over the earlier calls since the last Reset; allowed exactly if that covers its cost, with Remaining and RetryAfter exact up to truncation |
| BucketExact.DeniedIffSomeWindowIsFull | pkg/ratelimiter/limiter.go:430-472 | a call is denied exactly when allowing it would break the any-window bound from some earlier call, or exceed the burst |
| WindowTheorems.SlidingWindowIsFixedWindow | pkg/ratelimiter/limiter.go:250-302 | the sliding window as coded answers every history, with any clock, as the fixed window does, and never carries a count over |
| WindowTheorems.TransitionDropsTheCount | pkg/ratelimiter/limiter.go:265-279 | the window transition resets both counters or none; the carry-over branch is never taken |
| WindowTheorems.IntervalBound | pkg/ratelimiter/limiter.go:349-383 | the cost allowed between two calls is at most rate per window touched, so at most twice the rate within one window length; for fixed and sliding window |
| WindowTheorems.WindowsPay | pkg/ratelimiter/limiter.go:357-375 | each window reached pays for at most the rate, the first one only for what is unused |
| WindowExact.WindowIsExact | pkg/ratelimiter/limiter.go:349-383 | fixed and sliding window, forward clock: a call is allowed exactly when the cost allowed in its window since the last Reset, by the answers given, plus its own is at most the rate; Remaining is the rate less that total; ResetAfter ends at the next window and RetryAfter is it |
| WindowExact.RetryAfterIsExact | pkg/ratelimiter/limiter.go:373-380 | with nothing allowed since a denial, a retry of the same cost is allowed exactly when the cost is at most the rate and RetryAfter has passed |
| Sharding.ShardingRefinesFlatMap | pkg/ratelimiter/limiter.go:72-95 | any number of shards gives every multi-key history the answers of one flat map, and each key lives only in the shard of its hash |
| Sharding.KeysDoNotInterfere | pkg/ratelimiter/limiter.go:160-210 | what a key is told in a multi-key history is the run of its own calls and resets alone |
| Hash.ComputeFnv1a | pkg/ratelimiter/limiter.go:98-109 | the accumulator loop computes the recursive 64-bit FNV-1a hash |
| Hash.KnownHashes | pkg/ratelimiter/limiter.go:98-109 | the published FNV-1a values of the empty string and of "a" |
| KeyedLimiters.BaseLimiter.constructor | pkg/ratelimiter/limiter.go:72-89 | a non-positive count means 256 shards; no key is known in any of them |
| KeyedLimiters.BaseLimiter.GetShard | pkg/ratelimiter/limiter.go:92-95 | the shard index is the hash modulo the shard count |
| KeyedLimiters.BaseLimiter.Reset | pkg/ratelimiter/limiter.go:204-210 | the key's state is gone, nothing else changes, keys stay in their shards |
| KeyedLimiters.TokenBucketLimiter.Create | pkg/ratelimiter/limiter.go:140-154 | an error exactly for a non-positive rate, else a fresh limiter without keys, with the defaults for burst and shards |
| KeyedLimiters.LeakyBucketLimiter.Create | pkg/ratelimiter/limiter.go:410-424 | the same for the leaky bucket |
| KeyedLimiters.SlidingWindowLimiter.Create | pkg/ratelimiter/limiter.go:230-244 | the same for the sliding window, whose window defaults to a second |
| KeyedLimiters.FixedWindowLimiter.Create | pkg/ratelimiter/limiter.go:329-343 | the same for the fixed window |
| KeyedLimiters.TokenBucketLimiter.AllowN | pkg/ratelimiter/limiter.go:160-202 | answer and new shards are those of the store the history theorems are about |
| KeyedLimiters.LeakyBucketLimiter.AllowN | pkg/ratelimiter/limiter.go:430-472 | the same for the leaky bucket |
| KeyedLimiters.SlidingWindowLimiter.AllowN | pkg/ratelimiter/limiter.go:250-302 | the same for the sliding window, with the carry-over branch in place; which calls that store step allows is WindowExact.WindowIsExact |
| KeyedLimiters.FixedWindowLimiter.AllowN | pkg/ratelimiter/limiter.go:349-383 | the same for the fixed window; which calls that store step allows is WindowExact.WindowIsExact |
| RemoteTokens.RemoteTokenServer.RequestTokens | pkg/ratelimiter/localcached.go:31-67 | everything asked for if the refilled level is not negative, else nothing; the level pays for the grant; a wait exactly if a debt is left, for as long as the rate needs, truncated |
| RemoteTokens.AnswersAreExact | pkg/ratelimiter/localcached.go:31-67 | in any run each request is answered exactly from the initial level plus refill less all tokens granted before it |
| RemoteTokens.RunConserves | pkg/ratelimiter/localcached.go:35-66 | over any run, tokens granted equal the initial level plus refill minus the final level |
| RemoteTokens.RefusalsLeaveNoTrace | pkg/ratelimiter/localcached.go:35-51 | after any run of refused requests the next is granted exactly if it would be as the only one |
| RemoteTokens.DebtBlocks | pkg/ratelimiter/localcached.go:43-51 | while in debt a request is granted exactly when refill since the debt covers it, whatever was refused meanwhile |
| RemoteTokens.BackOffIsExact | pkg/ratelimiter/localcached.go:45-66 | after an answer with wait w nothing is granted before t + w, and the first request after t + w is granted (at t + w if the truncation lost nothing) |
| LocalCachedSafety.TokensAreConserved | pkg/ratelimiter/localcached.go:105-211 | in every interleaving, cost allowed + tokens cached + grants in flight + tokens discarded by Reset = tokens granted |
| LocalCachedSafety.GlobalAdmissionBound | pkg/ratelimiter/localcached.go:31-183 | cost allowed is at most tokens granted, and those at most burst + rate * elapsed + one largest batch, whatever the number of limiters and goroutines |
| LocalCachedSafety.AdmissionBoundIsReached | pkg/ratelimiter/localcached.go:105-203 | for every rate, prefetch count and number of goroutines a run that reaches the bound exactly, waiters' part included, at the instant the server is made, the burst being the prefetch count |
| LocalCachedSafety.SingleFlight | pkg/ratelimiter/localcached.go:136-179 | fetching holds exactly when one goroutine fetches, never two; waiters counts parked and woken goroutines; nobody is parked without a fetch in flight |
| LocalCachedSafety.NoLostWakeUp | pkg/ratelimiter/localcached.go:136-146 | along any continuation a parked goroutine stays parked only while the same fetch is under way, and the landing of that fetch wakes it |
| LocalCachedSafety.ParkedStep | pkg/ratelimiter/localcached.go:136-179 | one step leaves a parked goroutine and its fetcher as they are, or is the landing of that fetch and wakes it |
| LocalCachedSafety.LandingWakesEveryone | pkg/ratelimiter/localcached.go:167-181 | after a fetch lands nobody on its limiter is parked, the fetcher included |
| LocalCachedSafety.NeverStuck | pkg/ratelimiter/localcached.go:109-182 | while a goroutine is inside AllowN, one of its limiter's goroutines can step |
| LocalCachedSafety.TurnedKeepsFlights | pkg/ratelimiter/localcached.go:109-158 | one turn of the loop under the lock keeps single flight and waiter accounting |
| LocalCachedSafety.AskedKeepsServer | pkg/ratelimiter/localcached.go:185-203 | a fetch keeps the server's level accountable and its debt within one largest batch |
| LocalCachedBackOff.BackOffIsHonoured | pkg/ratelimiter/localcached.go:123-176 | once an answer with a wait has landed, nobody fetches or sleeps on that limiter and its period stands in every interleaving, until the period is over or Reset comes |
| LocalCachedBackOff.TurnedAwayInside | pkg/ratelimiter/localcached.go:123-134 | a caller coming in or waking up inside the period with too few tokens cached leaves at once, denied, and nothing is asked of the server |
| LocalCachedBackOff.ResetEndsBackOff | pkg/ratelimiter/localcached.go:205-211 | after Reset the next call that needs tokens is not denied: it fetches or waits for a fetch |
| LocalCachedAlone.LocalCachedLimiter.AllowN | pkg/ratelimiter/localcached.go:105-183 | a call that returns at all ends as its turns say, from any state; one covered by the cache takes its tokens there; one not covered inside the rejection period is denied for the rest of it with limiter and server unchanged, whatever the prefetch count |
| LocalCachedAlone.FirstTurnDecides | pkg/ratelimiter/localcached.go:113-134 | a call covered by the cache or inside the rejection period is answered by its first turn, however many turns are allowed |
| LocalCachedAlone.LocalCachedLimiter.Fetch | pkg/ratelimiter/localcached.go:148-179 | a fetch asks for max(prefetch, waiters), caches the grant and sets the rejection period |
| LocalCachedAlone.LocalCachedLimiter.Reset | pkg/ratelimiter/localcached.go:205-211 | cached tokens and rejection period are cleared, fetching and waiters stay |
| LocalCachedAlone.TurnMakesProgress | pkg/ratelimiter/localcached.go:109-182 | a turn that does not return lowers (tokens missing, server debt, clock readings until the clock moves), also for grants below n and for zero tokens with zero wait |
| LocalCachedAlone.ReturnsIffFetching | pkg/ratelimiter/localcached.go:151-171 | with a clock that never steps back and does not stop for ever, AllowN returns for every cost and state exactly when the prefetch count is at least 1 or somebody waits |
| LocalCachedAlone.ReturnsIffAnsweredAtOnce | pkg/ratelimiter/localcached.go:116-181 | with nothing to fetch and a solvent server a single call returns exactly when the cache covers it or the clock is inside the rejection period |
| LocalCachedAlone.SpinsForever | pkg/ratelimiter/localcached.go:151-181 | with no prefetch, nobody waiting, too few tokens cached, no rejection period and a server without debt, the call is still looping after any number of turns |
| LocalCachedAlone.CallOutcome | pkg/ratelimiter/localcached.go:109-182 | tokens spent and cached all came from the server; a denial happens only in a rejection period with too few tokens cached |
| PoolSafety.PoolIsConserved | pkg/client/connection.go:173-327 | in every interleaving total = idle + held + reserved, within a positive limit, also with failing pickers |
| PoolSafety.OneOwner | pkg/client/connection.go:180-278 | no connection is idle twice, held twice, or both |
| PoolSafety.ReuseOrder | pkg/client/connection.go:181-204 | fifo hands out the connection returned longest ago, lifo the one returned last |
| PoolSafety.FreeSlotsAreClaimed | pkg/client/connection.go:207-274 | if anybody is parked, goroutines woken, checking or about to signal plus raced picker failures are at least the free slots: a failure costs at most one claim |
| PoolSafety.SleepersCoveredIffRoomForAll | pkg/client/connection.go:207-274 | with pickers that may fail, every free slot has a claim in all reachable states with a sleeper exactly when there is no limit or the limit is at least the number of goroutines |
| PoolSafety.NoSleeperOnAFreeSlot | pkg/client/connection.go:207-263 | with a picker that succeeds: if anybody is parked, woken goroutines are at least the free slots, barging newcomers included |
| PoolSafety.PickerFailureCanLoseAWakeUp | pkg/client/connection.go:265-274 | for every positive limit and any number of goroutines above it, a run in which a failing picker leaves a goroutine asleep on a free slot with nobody to wake it |
| Servers.StatsKept | pkg/server/server.go:249-287 | counting and closing keep active = table size = total - closed |
| Servers.Server.CountRequest | pkg/server/server.go:164-169 | the connection's entry is made if missing and counts one more request |
| Servers.Server.HandleRequest | pkg/server/server.go:151-247 | no answer when stopped; else the request is counted whatever the limiter says, and status, close flag and statistics follow |
| Servers.Server.CloseConnection | pkg/server/server.go:278-287 | the entry goes, once, and the statistics follow |
| Servers.Transport.Find | pkg/simulator/simulator.go:529-540 | the search loop finds the server with the ID or none has it |
| Servers.Transport.Send | pkg/simulator/simulator.go:528-554 | only the addressed server's table changes; at the limit its entry is dropped again |
| Servers.Transport.CloseConnection | pkg/simulator/simulator.go:556-563 | only the addressed server drops the connection |
| Agreement.CountsAgree | pkg/client/client.go:199-279 | in every interleaving, workers that exit and the closing of idle connections included, a resting connection has the same count on both sides up to failed requests, no count exceeds the limit, idle ones are below it, closed ones have no entry |
| Agreement.GoneIsForever | pkg/client/connection.go:104-117 | along any continuation of any run nothing touches a closed connection and no server has an entry for it |
| Agreement.ActiveCountsOpenConnections | pkg/server/server.go:249-287 | at rest a server's active statistic is its table size, and its table is exactly its open connections ever answered |
| Agreement.NextKeepsConn | pkg/client/connection.go:78-102 | each step keeps the per-connection invariant, when the server's limit is not below the client's |
| AgreementLimits.AgreementIffLimitsFit | pkg/client/connection.go:307-315 | agreement in all reachable states holds exactly when the client's limit is at most the server's |
| AgreementLimits.LowServerLimitDisagrees | pkg/client/client.go:258-268 | for every lower server limit, a run after which the pool holds an idle connection the server has dropped |
| Clients.Connection.Send | pkg/client/connection.go:78-102 | no answer when closed; otherwise counted, and the answer says close exactly when either side's limit is reached; if the limits fit, that is the client's, and agreement is kept below it |
| Clients.Connection.Close | pkg/client/connection.go:104-117 | idempotent; the server forgets this connection and no other |
| Clients.Pool.Get | pkg/client/connection.go:173-278 | reuse by strategy, wait at the limit, reserve and roll back on a picker failure, else a new connection fit for use |
| Clients.Pool.Put | pkg/client/connection.go:290-327 | at its limit the connection is closed and uncounted, else it becomes the last idle one; agreement of the idle ones is kept if it agreed |
| Clients.Pool.Close | pkg/client/connection.go:330-343 | every idle connection is closed and its server has forgotten it; the idle list is empty |
| Clients.Pool.Discard | pkg/client/connection.go:104-117 | closing a connection that is not idle makes its server forget it and leaves idle ones in agreement, whatever the servers' limits |
| Clients.Pool.SendAndPut | pkg/client/client.go:233-274 | after a pooled request the connection is the last idle one, or closed exactly at its own limit; if the limits fit, the idle ones stay in agreement and closing is what the answer says |
| Clients.Pool.SendAndClose | pkg/client/client.go:233-279 | after a one-shot request the connection is closed and its ID unknown again |
| Clients.Pool.SendAndKeep | pkg/client/client.go:233-265 | after a worker's request the connection is closed exactly on failure or when the answer says so; if the limits fit, exactly on failure or at its limit |
| Clients.Pool.Create | pkg/client/connection.go:281-287 | a new connection outside the pool's accounting unless the pool is closed |
| Clients.Client.CreateDedicatedConnection | pkg/client/client.go:107-121 | a connection exactly when a server was picked and the pool is open |
| Clients.Client.WorkerConnection | pkg/client/client.go:172-195 | a worker keeps its connection below the limit and otherwise gets a new one, if a server can be picked |
| Clients.Pool.UsePooled | pkg/client/client.go:199-274 | a pooled request is refused by a closed pool, uses the idle connection the strategy takes, sleeps at the limit with nothing idle, or makes a new one if a server is picked; it is answered exactly if that connection's server runs |
| Clients.Client.SendPooled | pkg/client/client.go:199-279 | that, with one outcome booked, the answer its server's limiter gave, and as many pool connections in use afterwards as before; if the limits fit the idle ones stay in agreement |
| Clients.Client.SendOneShot | pkg/client/client.go:216-279 | answered exactly if a server was picked, the pool is open and the server runs; the connection is closed and no server knows it |
| Clients.Client.SendDedicated | pkg/client/client.go:172-284 | one outcome; the worker's connection ends closed exactly on failure or when the answer says so; if the limits fit, exactly on failure or at its limit, else in agreement |
| Clients.Client.Send | pkg/client/client.go:124-284 | every request gets exactly one outcome and the answer its server's limiter gave; per-request and dedicated clients and every tenth hybrid request leave the pool alone and never sleep, all others go through it as UsePooled says; pool connections in use are the same before and after |
| Balancer.BaseBalancer.GetHealthyServers | pkg/loadbalancer/balancer.go:85-96 | the healthy servers in registration order |
| Balancer.HealthyInOrder | pkg/loadbalancer/balancer.go:85-96 | wherever the registered servers are cut, the healthy ones of the first part come first, and one alone is offered exactly if healthy |
| Balancer.HealthyMembers | pkg/loadbalancer/balancer.go:85-96 | a server is offered exactly if it is registered and healthy |
| Balancer.BaseBalancer.RegisterServer | pkg/loadbalancer/balancer.go:19-32 | refused exactly when the ID is taken, else appended as healthy |
| Balancer.BaseBalancer.Mark | pkg/loadbalancer/balancer.go:49-72 | sets the health of the first server with the ID and of no other |
| Balancer.RoundRobin.PickServer | pkg/loadbalancer/balancer.go:114-123 | the healthy server at counter modulo length; the counter advances and wraps |
| Balancer.Weighted.PickServer | pkg/loadbalancer/balancer.go:165-197 | the one healthy server whose share of the weight cycle holds the counter; the fallback after the loop is unreachable |
| Balancer.OneOwner | pkg/loadbalancer/balancer.go:185-194 | no turn of the cycle belongs to two servers |
| Balancer.WeightedFairness | pkg/loadbalancer/balancer.go:165-197 | of L consecutive picks server i gets between floor(L/W)*w and floor(L/W)*w + min(w, L mod W), across counter wraps too if W divides 2^64 |
| Balancer.ConfiguredShares | pkg/loadbalancer/balancer.go:165-197 | over whole cycles without a wrap, or any if the cycle divides 2^64, a server with a positive configured weight gets exactly that many picks per cycle and any other exactly one |
| Balancer.TurnsAreProportional | pkg/loadbalancer/balancer.go:165-197 | the picks of two servers with positive weights stand in the ratio of those weights |
| Balancer.CycleLengthAdds | pkg/loadbalancer/balancer.go:171-180 | a cycle is as long as the sum of the configured weights, those not positive counting one |
| Balancer.FairnessIffCycleFits | pkg/loadbalancer/balancer.go:165-197 | every stretch of picks is fair, across counter wraps too, exactly when one server is healthy or the total weight divides 2^64 |
| Balancer.WrapRepeatsFirstServer | pkg/loadbalancer/balancer.go:182-183 | otherwise one cycle of picks that starts with the incomplete cycle before the wrap gives the first server more than its weight |
| Balancer.UnitWeightsAreRoundRobin | pkg/loadbalancer/balancer.go:114-123 | unit weights pick exactly as round robin |
| Metrics.Sort | pkg/metrics/metrics.go:450-452 | sorting in place leaves the one sorted sequence of the elements |
| Metrics.CalculateStats | pkg/metrics/metrics.go:445-465 | the argument is sorted in place, and the loop and the indexing compute `StatsOf` its elements |
| Metrics.StatsDependOnMultiset | pkg/metrics/metrics.go:450-462 | equal multisets of latencies have equal statistics |
| Metrics.StatsAreShardIndependent | pkg/metrics/metrics.go:361-372 | for any number of shards and any placement the merged latencies have the statistics of the recorded ones |
| Metrics.Bucket.Snapshot | pkg/metrics/metrics.go:358-391 | statistics of all, of answered and of rate-limited requests are those of any listing of the latencies recorded, whatever the shards |
| Metrics.PercentileIsOrderStatistic | pkg/metrics/metrics.go:460-462 | at most n*p/100 latencies are below the percentile and more than n*p/100 are not above it |
| Metrics.PercentilesOfStats | pkg/metrics/metrics.go:460-462 | p50, p95 and p99 are recorded latencies with at most 50, 95 and 99 percent of the number recorded below them and more not above them |
| Metrics.AverageIsMean | pkg/metrics/metrics.go:454-458 | the average is the sum of the latencies in any order over their number, truncated |
| Metrics.SumAdds | pkg/metrics/metrics.go:454-457 | that sum is additive and a single latency is its own sum |
| Metrics.StatsAreOrdered | pkg/metrics/metrics.go:454-462 | min <= p50 <= p95 <= p99 <= max, and the average lies between min and max |
| Metrics.Bucket.Record | pkg/metrics/metrics.go:129-148 | one more request, filed under success or rejected, and the totals match |
| Metrics.Collector.RotateBucket | pkg/metrics/metrics.go:228-255 | archived buckets are kept under their own second, within ten seconds before the current one; a late instant changes nothing |
| Metrics.Collector.RecordRequest | pkg/metrics/metrics.go:107-149 | the latency is added to the bucket of its second, or to the current one if the clock stepped back; the previous bucket is archived with its latencies unchanged; the collector counts the request as successful or rate-limited |
| Budget.ExactBudget | pkg/simulator/simulator.go:330-336 | no interleaving starts more sends than the budget; if all workers leave by the budget, exactly that many were started and the counter is budget + workers |
| Budget.NextKeepsInv | pkg/simulator/simulator.go:324-403 | each worker step keeps sends + tickets + cancelled = min(counter, budget) |

## Left out

- Metrics.Sort: an insertion sort stands for the library's sort.Slice; that any sort gives the same sequence is proved.
- Clients.Pool.Get: for one caller at a time, so it reports that it would block instead of blocking; blocking and waking are in the pool's transition system.
- Clients.Client.Send: for one caller at a time and without the concurrency semaphore, header merging and latency measurement; interleavings are in Agreement and PoolSafety.
- LimitedBy in limiter results, which is the key on every denial and adds nothing.
- Locks inside the objects: each method is one lock region; what happens between lock regions is in the transition systems.
- Behaviour of Get and Put after or racing with Pool.Close, where the counter is not reduced and a Get that passed the closed check can still park.
- MarkShouldClose and evictOneIdleConnection, which nothing calls.
- The value Remaining of the local-cached limiter, read after the unlock.
- An any-window bound for the remote server: it never caps its level, so only the bound since its creation holds.
- Cleaning up a dedicated connection that Send makes itself: the worker never receives it.
- Random and LeastConnections balancers, the limiter registry, getters and setters.
- Recorders for check and fetch latencies, normalised rates per second and Reset in the metrics collector; recorders that race with a rotation; which bucket a snapshot reads.
- The gRPC remote limiter, configuration, file output, console and dashboard.
- Sleeps, jitter and context cancellation, except as clock readings and as the Cancel step of a worker.
