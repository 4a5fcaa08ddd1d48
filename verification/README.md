# Distributed inference router: verified model

A Dafny model of the router's resilience and routing core, with proofs about every run of it. It
covers the circuit breaker and its sliding window, the life of a request from permit to release, the
five routing strategies and backend selection, health hysteresis, the latency estimate, and the mock
replica's LRU prefix cache. `dafny verify dfyconfig.toml` checks the whole project.

## How it is put together

| file | what it holds |
|---|---|
| `SlidingWindow.dfy` | the failure window twice: a plain log of raw clock readings, and the ring of one-second buckets; the ring is the log's exact image |
| `Breaker.dfy` | the breaker as a state machine over the log; what every run of calls keeps |
| `CircuitBreaker.dfy` | the breaker as stored: classes with a bucket array, each method proved equal to the machine's step |
| `LateVerdicts.dfy` | two-run statements about verdicts that arrive while the circuit is not closed |
| `Lifecycle.dfy` | many requests at the granularity of single atomic updates; tokens, connections, permits |
| `SystemRuns.dfy` | each breaker inside a system run makes a breaker run, so the breaker theorems hold there |
| `Recovery.dfy` | no backend is ever stuck |
| `Accounting.dfy` | the accounting guard, the permit counter and the accounted stream as classes |
| `HashRing.dfy`, `PrefixRouting.dfy` | consistent hashing and prefix affinity |
| `RoundRobin.dfy`, `LatencyAware.dfy`, `Peers.dfy` | weighted turns, the weighted draw, first-minimum choices |
| `Selection.dfy` | the routable set and the selection loop, with interference from other requests |
| `Health.dfy`, `Ewma.dfy`, `LruCache.dfy` | hysteresis, latency estimate, prefix cache |
| `Cyclic.dfy`, `Sorting.dfy`, `Options.dfy` | indices round a circle, counting over a period; insertion sort; the optional value |

Idealisations: `f64` is `real` with exact arithmetic; SHA-256 is an arbitrary function from text to
64-bit values; the random draw and every clock reading are parameters; instants are natural numbers
of nanoseconds; counters do not wrap. A clock reading is taken before the lock, so readings reach the
breaker in any order and every breaker theorem allows that unless it says otherwise.

## What the code does not quite do

The breaker's header says a verdict from a request that started before the trip can never close the
circuit or release the probe. That holds in every run (`Lifecycle.NormalVerdictRestoresNothing`). The
stronger reading, that such a verdict leaves no trace, fails in one way: it also looks at the clock,
and if its reading is past the open period it moves Open to HalfOpen, so a later claim that carries an
older reading is admitted although without that verdict it would have been refused
(`LateVerdicts.StaleClaimExample`). `LateVerdicts.LateVerdictsAreInvisible` says for any two runs that
differ in late verdicts exactly when all their replies agree, `LateVerdicts.NeverToldApartIff` exactly
when no continuation could ever tell them apart, and with readings that do not run backwards the
promise holds for whole runs (`LateVerdicts.SteadyClockHidesLateVerdicts`).

An open period of zero seconds, which the configuration accepts, counts as over at any reading, even
one older than the trip; `Breaker.Due` carries that case.

## Model

| member | source | states |
|---|---|---|
| SlidingWindow.NewestIsMaximum | router-core/src/circuit_breaker.rs:55-67 | the slot the log calls newest is the maximum over all readings, stale ones included |
| SlidingWindow.CountIsCardinality | router-core/src/circuit_breaker.rs:69-73 | the log's count is the number of positions holding such a sample in the given slots |
| SlidingWindow.SlotIsWholeSeconds | router-core/src/circuit_breaker.rs:56-56 | a slot is the whole seconds of 10^9 nanoseconds since the base, rounded down, and 0 for a reading before it |
| SlidingWindow.WindowIsRecent | router-core/src/circuit_breaker.rs:55-73 | the window counts exactly the samples with fewer than n whole seconds between the newest instant read up to theirs and the newest of all; no slot or bucket is named |
| SlidingWindow.RecentByAge | router-core/src/circuit_breaker.rs:55-73 | a sample at most n - 1 seconds older than the newest instant is counted, one at least n seconds older is not |
| Cyclic.WrapIsRemainder | router-core/src/circuit_breaker.rs:62-65 | the wrap used for ring indices is the remainder |
| SlidingWindow.ClearAheadChron | router-core/src/circuit_breaker.rs:62-64 | the modular clearing loop empties exactly the oldest buckets |
| SlidingWindow.RotateShifts | router-core/src/circuit_breaker.rs:55-67 | rotating by e seconds drops the oldest min(e, n) buckets and keeps every other one in order |
| SlidingWindow.RotationsCompose | router-core/src/circuit_breaker.rs:55-67 | rotating in two steps leaves the same window, read back from the head, and the same head start as rotating once to the later reading |
| SlidingWindow.RecordRefines | router-core/src/circuit_breaker.rs:199-227 | rotate-and-count keeps the ring the exact image of the log with the reading appended, for readings in any order |
| SlidingWindow.TotalsRefine | router-core/src/circuit_breaker.rs:69-73 | summing the buckets in storage order gives the log's failure and total counts over the last n slots |
| SlidingWindow.ClearRefines | router-core/src/circuit_breaker.rs:75-79 | clearing is the image of the empty log based at the reading |
| CircuitBreakers.Inner.RotateBuckets | router-core/src/circuit_breaker.rs:55-67 | the in-place loop computes the specified rotation |
| CircuitBreakers.Inner.Rotate | router-core/src/circuit_breaker.rs:55-67 | afterwards a sample of any kind, or none, can be counted and the ring is the log's image again; a reading at or after the head start leaves the head less than a second behind it, an older one moves nothing |
| CircuitBreakers.Inner.Totals | router-core/src/circuit_breaker.rs:69-73 | returns the log's in-window failures and total |
| CircuitBreakers.Inner.Clear | router-core/src/circuit_breaker.rs:75-79 | empties every bucket in place, restarts the log at the reading |
| CircuitBreakers.Inner.TakeSuccess | router-core/src/circuit_breaker.rs:199-213 | a success lands in the log, after a restart when it closes the circuit |
| CircuitBreakers.Inner.TakeFailure | router-core/src/circuit_breaker.rs:215-231 | a failure advances the log and is counted only when asked to |
| CircuitBreakers.Inner.Refresh | router-core/src/circuit_breaker.rs:81-89 | moves only the state, as the machine's refresh does |
| CircuitBreakers.Inner.ShouldTrip | router-core/src/circuit_breaker.rs:232-235 | decides exactly on the log's in-window total and failure rate |
| CircuitBreakers.CircuitBreaker.constructor | router-core/src/circuit_breaker.rs:110-132 | window and minimum are raised to at least one; starts closed with an empty log |
| CircuitBreakers.CircuitBreaker.State | router-core/src/circuit_breaker.rs:160-165 | refines the machine's refresh |
| CircuitBreakers.CircuitBreaker.IsRoutable | router-core/src/circuit_breaker.rs:168-177 | refines the machine's question, side effect included |
| CircuitBreakers.CircuitBreaker.TryBegin | router-core/src/circuit_breaker.rs:181-197 | refines the machine's claim |
| CircuitBreakers.CircuitBreaker.RecordSuccess | router-core/src/circuit_breaker.rs:199-213 | array update refines the machine's success on the plain log |
| CircuitBreakers.CircuitBreaker.RecordFailure | router-core/src/circuit_breaker.rs:215-239 | array update refines the machine's failure on the plain log, trip included |
| CircuitBreakers.CircuitBreaker.TripIfDue | router-core/src/circuit_breaker.rs:232-238 | opens at the reading exactly when the log says so, probe flag and window untouched |
| CircuitBreakers.CircuitBreaker.Abandon | router-core/src/circuit_breaker.rs:243-251 | refines the machine's hand-back |
| Breaker.RunKeepsSound | router-core/src/circuit_breaker.rs:81-251 | after any calls with any tokens and readings: an opening instant exactly when not closed, a probe only when half-open |
| Breaker.LogIsHistory | router-core/src/circuit_breaker.rs:199-239 | after any run the window's log is exactly the verdicts since the last close, in order, the closing success first |
| Breaker.TripIsJustified | router-core/src/circuit_breaker.rs:215-239 | a run leaves Closed only on a failure verdict, with at least threshold * min_requests in-window failures since the last close, and opens at that reading |
| Breaker.FailureOpensIff | router-core/src/circuit_breaker.rs:226-238 | a closed circuit opens on a failure if and only if the window then holds at least min_requests samples and failures >= threshold * total, mixed windows included |
| Breaker.RunOpensIff | router-core/src/circuit_breaker.rs:215-239 | in any run a closed circuit opens with the next call if and only if that is a failure verdict and the verdicts since the last close make such a window |
| Breaker.OnlyFailingTrips | router-core/src/circuit_breaker.rs:226-238 | an only-failing backend stays closed if and only if the window never held min_requests failures, readings in any order |
| Breaker.FreshBackendTripsAtMinRequests | router-core/src/circuit_breaker.rs:226-238 | within the first window it opens at exactly the min_requests-th failure |
| Breaker.OpenPeriodIsRespected | router-core/src/circuit_breaker.rs:81-89 | while no reading is due, no call of any kind moves or extends an open period; a claim is then granted if and only if its own reading is due, as the probe |
| Breaker.RefreshMovesIff | router-core/src/circuit_breaker.rs:81-89 | exactly the open circuits whose period is over at the reading are moved, to half-open, and nothing else changes |
| Breaker.RoutableIffGranted | router-core/src/circuit_breaker.rs:168-197 | the question and the claim agree, and both refuse if and only if the circuit is inside its open period or has its probe out; the token is normal if and only if it is closed |
| LateVerdicts.LateVerdictsAreInvisible | router-core/src/circuit_breaker.rs:199-239 | two runs differing only in normal verdicts made while not closed, in any number and on either side, readings in any order: no reply differs if no shared call reads the clock early while only one side has noticed the end of the open period; and only if, unless a probe verdict comes with no probe out |
| LateVerdicts.SteadyClockHidesLateVerdicts | router-core/src/circuit_breaker.rs:199-239 | with non-decreasing readings such runs give the same replies for ever |
| LateVerdicts.NeverToldApartIff | router-core/src/circuit_breaker.rs:81-89 | whole runs, readings in any order: at no moment can any continuation tell the two runs apart, if and only if no one-sided verdict ends a running open period in its run |
| LateVerdicts.DroppingIsInvisibleIff | router-core/src/circuit_breaker.rs:81-89 | with readings in any order, leaving one late verdict out is invisible to every continuation if and only if its reading does not end a running open period |
| LateVerdicts.StaleClaimExample | router-core/src/circuit_breaker.rs:200-203 | a concrete run, with a ten-second open period, in which a late failure lets a stale claim through |
| LateVerdicts.LateVerdictIsOnlyALook | router-core/src/circuit_breaker.rs:210-231 | what a late verdict says never matters: it acts as a bare look at the clock, readings in any order |
| Lifecycle.BooksAfter | router-core/src/accounting.rs:70-148 | one request's move keeps a backend's books balanced when its connection count and probe flag move with it |
| Lifecycle.NextKeeps | router-core/src/accounting.rs:70-167 | every single atomic update keeps the whole set of books |
| Lifecycle.ExecKeeps | router-core/src/server.rs:159-234 | any run from any state with balanced books keeps them balanced |
| Lifecycle.EveryRunKeepsBooks | router-core/src/server.rs:159-234 | in every interleaving: in_flight is the number of live permits and within the budget, each active count is the number of live accountings, the probe flag is the number of live probe holders |
| Lifecycle.ProbeHasOneOwner | router-core/src/circuit_breaker.rs:181-251 | a held probe has exactly one owner and its breaker is half-open; a free one has none |
| Lifecycle.ProbeVerdictDecides | router-core/src/accounting.rs:128-148 | every probe verdict finds the breaker half-open with the probe out: a 5xx, transport error or broken stream reopens it at the reading, any other answer closes it with a fresh window, a disconnect hands the probe back |
| Lifecycle.ProbeHeadersClose | router-core/src/accounting.rs:101-106 | 2xx headers close the circuit at once and leave no probe holder |
| Lifecycle.OtherHeadersDecideNothing | router-core/src/accounting.rs:101-106 | headers that are not 2xx, or of a normal request, leave breaker, token and counts to the final verdict |
| Lifecycle.LookNoticesTheEnd | router-core/src/circuit_breaker.rs:158-177 | a look moves a backend to half-open exactly when it is open and its period is over at the reading, and moves nothing else |
| Lifecycle.OutcomeIsCounted | router-core/src/accounting.rs:128-148 | while closed: 5xx, transport error and broken stream count as failures, any other answer as a success, a vanished client as neither |
| Lifecycle.NormalVerdictRestoresNothing | router-core/src/circuit_breaker.rs:210-231 | a normal verdict never closes a circuit, never touches the probe, never moves an open period |
| Lifecycle.CountersStayInBudget | router-core/src/backpressure.rs:17-46 | between any two atomic updates: sum of active <= in_flight <= max_in_flight, and a counter about to be decremented is positive |
| SystemRuns.SystemRunIsBreakerRun | router-core/src/accounting.rs:101-148 | a backend's breaker after any system run is the result of the breaker calls its requests made |
| SystemRuns.SystemTripIsJustified | router-core/src/circuit_breaker.rs:215-239 | in any interleaving only a failed outcome of its own request takes a backend out of service, with enough in-window failures |
| SystemRuns.SystemOpensIff | router-core/src/accounting.rs:128-148 | in any interleaving a closed backend opens with an event if and only if that delivers the failed outcome of one of its requests and its verdicts since it last closed make a bad window |
| SystemRuns.TraceGrows | router-core/src/accounting.rs:101-148 | the breaker calls of a run extend those of any earlier part of it |
| SystemRuns.SystemRespectsOpenPeriod | router-core/src/circuit_breaker.rs:81-89 | in any interleaving, while no call made on an opened backend since then carries a due reading, a claim is granted if and only if its own reading is due, and then as the probe |
| Recovery.ClaimRefusedOnlyWhileOpen | router-core/src/circuit_breaker.rs:181-197 | with no live probe holder a claim is refused if and only if an open period is still running |
| Recovery.Finish | router-core/src/accounting.rs:108-148 | any live request can be driven to its end while all others stand still, and its breaker has judged it on any chosen outcome still open to it (all of them until the headers arrive) |
| Recovery.Drain | router-core/src/accounting.rs:108-148 | all live requests can be ended, each judged on its wished outcome where that is still open to it |
| Recovery.FreshClaim | router-core/src/circuit_breaker.rs:181-197 | with nothing in flight a fresh request is granted its claim at a reading if and only if the reading is not inside the open period |
| Recovery.NoBackendIsStuck | router-core/src/server.rs:182-234 | from every reachable state: drain with any outcomes; then on every backend a fresh claim is granted at exactly those readings that are not inside the open period then current |
| Accounting.BackpressureController.TryAcquire | router-core/src/backpressure.rs:36-46 | takes a slot exactly when below the budget |
| Accounting.BackpressureController.Release | router-core/src/backpressure.rs:17-25 | gives one slot back and never goes below zero |
| Accounting.RequestAccounting.Start | router-core/src/accounting.rs:70-90 | counts the connection; an unfinished request will be a client disconnect |
| Accounting.RequestAccounting.MarkHeadersReceivedAt | router-core/src/accounting.rs:93-95 | keeps the first reading only |
| Accounting.RequestAccounting.ResolveProbeOnHeaders | router-core/src/accounting.rs:101-106 | a probe with 2xx headers succeeds now and its token becomes normal; anything else changes nothing |
| Accounting.RequestAccounting.GiveVerdict | router-core/src/accounting.rs:128-148 | the breaker call the lifecycle model makes for that outcome |
| Accounting.RequestAccounting.UpdateEstimate | router-core/src/accounting.rs:131-139 | a 2xx completion feeds the estimate the whole microseconds to its headers, or to now if none were marked; nothing else feeds it |
| Accounting.RequestAccounting.Drop | router-core/src/accounting.rs:113-167 | connection, estimate (2xx only, whole microseconds to the headers), verdict, label and permit are each settled once |
| Accounting.RequestAccounting.Finish | router-core/src/accounting.rs:108-110 | the same with the given outcome |
| Accounting.AccountedStream.PollNext | router-core/src/accounting.rs:210-239 | refines the stream's poll step; a stalled or forwarding poll, or one after the end, leaves connection, estimate, breaker, labels and permit alone, an ending one settles each once with its outcome |
| Accounting.AccountedStream.Drop | router-core/src/accounting.rs:196-205 | refines the stream's drop step; settles each once if still open, nothing if not |
| Accounting.StreamIsTransparent | router-core/src/accounting.rs:210-239 | every poll is answered with the backend's own event up to its first end or error, and with the end of the stream from then on |
| Accounting.ExactlyOneVerdict | router-core/src/accounting.rs:196-239 | for every event sequence and drop point exactly one outcome is recorded, and dropping again records nothing |
| Accounting.VerdictIsFirstEnding | router-core/src/accounting.rs:220-236 | the outcome is that of the first ending event: stream error on a break, completed on an end |
| Accounting.VerdictByLastChunk | router-core/src/accounting.rs:196-218 | without an ending event it is completed if and only if the last forwarded chunk carried the marker, else a client disconnect |
| Accounting.LastChunkIsLast | router-core/src/accounting.rs:215-218 | that chunk is the last one sent: it carries the marker and nothing was sent after it |
| Accounting.DoneIsFoundAnywhere | router-core/src/accounting.rs:169-173 | the marker is found if and only if the chunk contains it at any place |
| HashRing.LabelsAreDistinct | router-core/src/routing/ring.rs:24-28 | no two virtual nodes hash the same text |
| Sorting.SortSorts | router-core/src/routing/ring.rs:29-29 | under any total order the result is in order |
| HashRing.New | router-core/src/routing/ring.rs:22-31 | sorted, and exactly one point per backend and virtual node, each at the hash of its own text `backend-{id}-vnode-{v}` |
| HashRing.PointsAreApart | router-core/src/routing/ring.rs:22-31 | where the hash separates the labels, no two points of the ring stand at the same place |
| HashRing.FindStart | router-core/src/routing/ring.rs:39-39 | binary search finds the number of points below the key |
| HashRing.Lookup | router-core/src/routing/ring.rs:34-43 | search and scan loop compute the specified scan |
| HashRing.LookupIsNearest | router-core/src/routing/ring.rs:33-43 | the answer is a routable point at least clockwise distance modulo 2^64, ties to the smaller id; no answer if and only if no point is routable |
| HashRing.LookupIff | router-core/src/routing/ring.rs:33-43 | an id is the answer if and only if it is such a nearest one |
| HashRing.SurvivorsKeepTheirKeys | router-core/src/routing/ring.rs:73-92 | for all keys: taking backends away moves no key whose backend stays |
| HashRing.NewcomerTakesOnlyItsOwn | router-core/src/routing/ring.rs:73-92 | for all keys: adding a backend changes an answer only to it |
| PrefixRouting.PartsReadAsText | router-core/src/routing/prefix_cache.rs:45-58 | a part array reads like its text parts joined by spaces, a part without text may be taken out anywhere, and it reads as nothing if and only if no part has text |
| PrefixRouting.PartTextsAppend | router-core/src/routing/prefix_cache.rs:52-56 | parts contribute their texts in order |
| PrefixRouting.OtherPartsDoNotCount | router-core/src/routing/prefix_cache.rs:52-56 | a part without a text string, wherever it stands, contributes nothing |
| PrefixRouting.TextPartCounts | router-core/src/routing/prefix_cache.rs:52-57 | a part with a text string contributes that string, wherever it stands |
| PrefixRouting.PlainMessageCounts | router-core/src/routing/prefix_cache.rs:30-35 | a message whose content is a string contributes that string, wherever it stands |
| PrefixRouting.SilentMessageDoesNotCount | router-core/src/routing/prefix_cache.rs:30-35 | a message without text contributes nothing |
| PrefixRouting.KeyIsFirstPart | router-core/src/routing/prefix_cache.rs:24-42 | the key is the first limit characters of the joined messages if there is a message array, else of the prompt if that is a string, else empty |
| PrefixRouting.KeyIsKeptIff | router-core/src/routing/prefix_cache.rs:24-42 | a conversation with text keeps its key under further text if and only if it had reached the limit |
| PrefixRouting.LongConversationKeepsItsKey | router-core/src/routing/prefix_cache.rs:24-58 | past the limit, messages of any shape keep the key |
| PrefixRouting.ConversationStaysPut | router-core/src/routing/prefix_cache.rs:60-76 | past the limit the conversation stays on its backend, for the same candidates and for any fewer that include it |
| PrefixRouting.SelectsACandidate | router-core/src/routing/prefix_cache.rs:60-76 | on the pool's ring the strategy always answers, with a candidate |
| PrefixRouting.SelectIff | router-core/src/routing/prefix_cache.rs:60-76 | with a key an id is the answer if and only if it is the candidate nearest the hash of the key; without one the answer is the first candidate with the fewest connections |
| RoundRobin.WeightedPick | router-core/src/routing/round_robin.rs:41-50 | the subtracting loop returns the owner of the slot, and nothing beyond the total |
| RoundRobin.SlotWidth | router-core/src/routing/round_robin.rs:36-38 | weights add up from zero, each max(weight, 1) |
| RoundRobin.ChosenOwnsItsSlot | router-core/src/routing/round_robin.rs:31-32 | the choice is the backend whose weight, laid after those before it, covers counter mod total |
| RoundRobin.PickAt | router-core/src/routing/round_robin.rs:31-32 | the owner of the counter's slot |
| RoundRobin.Selector.Select | router-core/src/routing/round_robin.rs:26-33 | the counter's choice, counter advanced by one; nothing for no candidates |
| RoundRobin.FullTurnIsExact | router-core/src/routing/round_robin.rs:26-50 | any total_weight consecutive counter values choose each backend exactly max(weight, 1) times |
| RoundRobin.SharesAreExact | router-core/src/routing/round_robin.rs:26-50 | any k * total + r consecutive calls choose it between k * w and k * w + min(r, w) times |
| LatencyAware.MedianIsUpper | router-core/src/routing/latency_aware.rs:42-50 | at most n/2 samples lie below the fill value and at most n - 1 - n/2 above it |
| LatencyAware.FillIsUpperMedian | router-core/src/routing/latency_aware.rs:42-50 | of the n sampled backends at most n/2 are faster than the fill value and at most n - 1 - n/2 slower, and it is one of their latencies |
| LatencyAware.LatencyIsOwnOrFill | router-core/src/routing/latency_aware.rs:51-54 | a sampled backend keeps its own latency, another gets the fill value |
| LatencyAware.FillKeepsTheSpread | router-core/src/routing/latency_aware.rs:51-58 | filling leaves minimum and maximum alone, so a pool is flat if and only if its samples are |
| LatencyAware.UnsampledPoolIsFlat | router-core/src/routing/latency_aware.rs:46-58 | a pool without samples is flat |
| LatencyAware.FlatIffWithinATenth | router-core/src/routing/latency_aware.rs:55-58 | flat if and only if no filled-in latency exceeds another by more than a tenth |
| LatencyAware.Draw | router-core/src/routing/latency_aware.rs:69-77 | the decrementing loop stops in the stretch the draw falls in; the trailing fallback is never reached |
| LatencyAware.DrawIsAPartition | router-core/src/routing/latency_aware.rs:64-76 | the draws choosing position i are one interval of length w_i / total; the intervals adjoin from 0 to 1 |
| LatencyAware.DrawnIff | router-core/src/routing/latency_aware.rs:64-76 | the draws choosing a candidate are those between the share of the total weight before it and the share up to it |
| LatencyAware.LandsOnce | router-core/src/routing/latency_aware.rs:71-76 | no draw chooses two positions |
| LatencyAware.WeightIsShareOverLatency | router-core/src/routing/latency_aware.rs:64-68 | a weight times its latency is the configured weight, at least 1 |
| LatencyAware.Selector.Select | router-core/src/routing/latency_aware.rs:33-79 | flat pools take turns by weight and advance the counter; others choose by the draw and do not |
| Selection.Choose | router-core/src/routing/mod.rs:18-22 | every strategy answers nothing for no candidates and otherwise one of them, by its own rule: the turn at its counter, fewest connections, lightest load, the draw, the ring; only a turn moves the counter, by one |
| Selection.BuildPrefixStrategy | router-core/src/routing/prefix_cache.rs:17-22 | four characters to a token, and a ring of 128 points for each backend |
| Selection.LeastBusyIsAnswered | router-core/src/routing/least_connections.rs:11-14 | least connections over a pool: no routable backend has fewer than the one answered, the first among equals |
| Peers.FirstLeast | router-core/src/routing/least_load.rs:16-18 | the first candidate with the smallest key |
| Selection.Router.Ask | router-core/src/backend.rs:46-48 | an unhealthy backend's breaker is not looked at; a healthy one's answers and is refreshed |
| Selection.Router.Available | router-core/src/backend.rs:100-106 | in a quiet world exactly the healthy backends whose breaker lets one through, each asked once |
| Selection.Router.UnderLimit | router-core/src/backend.rs:107-119 | in a quiet world exactly the available backends within the queue limit |
| Selection.Router.Routable | router-core/src/backend.rs:100-119 | in pool order; in a quiet world a backend is in the set if and only if it is available and either within the queue limit or every available one is over it; each was asked once |
| Selection.RoutableSetIsEmptyIff | router-core/src/backend.rs:100-119 | the set is empty if and only if every backend is unhealthy, inside its open period or has its probe out, however deep the queues |
| Selection.Router.Pick | router-core/src/server.rs:165-172 | the pick is the strategy's answer on the candidates as found, and one of them: the branch for another id is unreachable |
| Selection.Router.Claim | router-core/src/server.rs:165-175 | the id is the strategy's answer on the peers as found, and the grant is its breaker's answer in the state others had left by then |
| Selection.Router.ClaimInTurn | router-core/src/server.rs:164-179 | under any interference: at most one claim per candidate, on distinct backends, each the strategy's answer among those left, all but the last refused by their breakers as found; nothing is returned only when every candidate was claimed and refused |
| Selection.Router.SelectBackend | router-core/src/server.rs:159-179 | the same for the whole selection; in a quiet world nothing if and only if every backend is unhealthy, inside its open period or has its probe out, whatever the queue depths; else the first claim succeeds, on the strategy's answer for the routable set, with the token its breaker hands out |
| Health.Backend.ApplyProbeResult | router-core/src/health.rs:103-129 | the in-place update is the automaton's step |
| Health.Backend.RecordProbe | router-core/src/health.rs:76-82 | scraped values are cleared exactly on a failed probe of a backend that is down; scrape exactly on success |
| Health.CountersAreRuns | router-core/src/health.rs:103-129 | after any history the counters are the trailing run lengths |
| Health.RunIsLongest | router-core/src/health.rs:101-102 | the run length is that of the longest suffix of one result |
| Health.FlagIsLastDecision | router-core/src/health.rs:101-129 | the flag is decided by the most recent run to reach its threshold, and is up if none has |
| Health.FlapBound | router-core/src/health.rs:101-129 | d * max(U, 1) + u * max(H, 1) <= number of probes |
| Ewma.UpdateIsBetween | router-core/src/backend.rs:73-83 | one update stays between estimate and sample and strictly falls from above |
| Ewma.UpdateIsRoundedDown | router-core/src/backend.rs:75-81 | the first sample is taken as it is; later ones move the estimate by alpha times the gap, rounded down |
| Ewma.EstimateStaysInRange | router-core/src/backend.rs:73-83 | in every interleaving of loads and stores the estimate is unset or within the range of the samples |
| Ewma.EstimateWithinSamples | router-core/src/backend.rs:73-83 | one request at a time it lies between two of the samples seen |
| Ewma.StandsStillIff | router-core/src/backend.rs:78-80 | below the sample it is a fixed point if and only if alpha times the gap is under 1 |
| Ewma.ConvergesFromAbove | router-core/src/backend.rs:73-83 | under a constant sample it reaches it exactly from above, within as many updates as the gap |
| Ewma.ConvergesFromBelow | router-core/src/backend.rs:73-83 | from below it never overshoots and reaches a fixed point less than 1 / alpha short |
| LruCache.PrefixCache.Lookup | mock_backend/main.py:95-104 | hit exactly when present; move, insert, evict and both counters |
| LruCache.CacheIsMostRecent | mock_backend/main.py:86-104 | after any trace the cache is exactly the capacity most recently used distinct keys, in order; a capacity of 0 or less keeps none |
| LruCache.RecencyIsTheKeys | mock_backend/main.py:86-104 | the recency order lists every key of the trace exactly once |
| LruCache.HitIffRecent | mock_backend/main.py:95-104 | a lookup hits if and only if the key was used before and fewer than capacity distinct other keys were used since |
| LruCache.LargerCacheIncludes | mock_backend/main.py:86-104 | the smaller cache is the recent end of the larger one |
| LruCache.MoreRoomNeverHurts | mock_backend/main.py:86-104 | a larger capacity never has fewer hits on any trace |
| LruCache.Replay | mock_backend/main.py:86-104 | looking up a trace leaves those entries and counts those hits and queries |

## Left out

- `proxy.rs`: forwarding and header filtering; a forward ends in a transport error, a broken body, a full body or a stream.
- `metrics.rs` and the metrics handler: only the one recorded outcome per request is kept.
- `config.rs`: parsing and validation; the accepted ranges appear as preconditions where a theorem needs them.
- Parsing of scraped metrics: a queue depth is any number.
- Floating-point rounding, counter wrap-around, memory ordering, lock poisoning and the task scheduler.
- Statistical spread of keys over backends: it depends on SHA-256.
- The KV-usage decay, the request handlers of the mock, benchmarks and deployment files.
- The pool inside selection is a sequence of values reassigned by the router's methods, with breakers as the state machine that the breaker class refines; aliasing between pool entries is not modelled.
- The ring and the latency samples are sorted by an insertion sort on values; the library's in-place sort is not modelled.
- In `CircuitBreaker.RecordSuccess` and `RecordFailure` the state fields are written after the window rather than between its steps; both happen under one lock.
- A strategy reads all its inputs of the candidates at one step; readings torn between concurrent updates only change which candidate is chosen.
- Turns that other requests take of a shared strategy counter between two claims of one selection; what is proved of turns holds from any counter value.
- A panic between a successful claim and the start of accounting would keep the probe out for ever; the lifecycle model has no such step.
