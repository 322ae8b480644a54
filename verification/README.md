# Storage-proof pipeline: a verified model

The coordinator keeps a list of relations between storage contracts and the providers that hold their
bags. In every proof cycle it resolves the providers' endpoints, closes contracts that ran out of
balance, shards the rest over a fleet of agents, merges the agents' rows into one verdict per relation,
commits the final verdicts, waits, retries the transient failures on other agents and commits those.
Each agent checks its providers with a pool of workers per provider, a semaphore whose cap follows the
observed piece times, and a gate that rebuilds a closed peer connection only when nobody uses it.

This project models that pipeline in Dafny and proves what it is for. Code that updates maps, slices or
fields is written as methods and classes with loops and is proved against specification functions; code
that runs concurrently is written as a transition system with one step per lock, channel or atomic
operation, and its theorems hold for every interleaving.

The main results, by module:

| module | result |
|---|---|
| Sharding, ShardOrder, LoadBalance | the greedy assignment is a partition, honours the sticky and exclusion rules exactly, does not depend on the order of its input, and is within 4/3 - 1/(3m) of every other assignment |
| Endpoints, EndpointRaces, Requests | over any sequence and any interleaving of refreshes only valid endpoints are remembered or returned, so every request sent passes the agent's validator |
| Merging, ProofPass | a pass has the same results and the same assignment for every map order and every order in which the agents finish |
| AgentRun | end to end: which of the verdicts "unresolved", "unanswered" or an agent's row a relation gets, and exactly when |
| Commit, StoreProofs, Cycles | each relation is committed exactly once over all exits of a cycle, and its verdict is the main one or, for a transient failure, the retry's; a cycle's outcome does not depend on any schedule; failed calls are reported; cycles and retries keep to their times |
| FailureTally, WorkerPool, PoolOutcomes | each contract is written and recorded exactly once in every interleaving of dispatcher and workers, with the outcome its check ended with; no state is stuck, and the short circuit accounts for every check and skip |
| JobProgress | the lock-free log writes one final line and at most ceil(total / step) lines in every interleaving, and its loops terminate |
| PieceLimit, LimiterProtocol | the trajectory of the cap in closed form; no wake-up is lost, slots are accounted for, and the limiter settles |
| PeerGate, SimpleCache | one rebuild per busy period with a closed connection; a cache whose deletions cannot be observed |
| ContractClosing, ContractCollection, PieceBudget | the closing rule as an order-preserving partition, monotone in balance and clock; an order-independent merge; piece and deadline arithmetic in fixed-width integers |

`Domain` holds the shared records and `Arithmetic` a few facts about products and quotients. The whole
project is checked with `dafny verify dfyconfig.toml`.

Places where the code does not do what its comments or its purpose say, with the exact condition proved:

- `pieceTimeout` converts a uint64 rate to a signed duration; for rates of 2^63 and more, which the
  configuration accepts, the deadline gets shorter, even negative (`PieceBudget.DeadlineExactIff`,
  `PieceBudget.HugeRateShortensDeadline`).
- The progress log counts nil contracts in its total but never advances over them, so completion is
  announced if and only if there are none (`JobProgress.CompletionAnnounced`). The validator refuses
  requests with nil contracts, so a job that runs always announces it (`JobProgress.ValidatedJobCompletes`).

Branches that no caller reaches:

- `pieceTimeout` is documented as clamped to the cap and its early return is not
  (`PieceBudget.WithinCapIff`); a counted piece, a positive rate and a request's timeout never take it
  (`PieceBudget.RequestWithinCap`).
- `buildBagCheckResults` has a branch for a checked relation without a merged row; the merge is total
  (`Merging.ResultsAreVerdicts`).
- `begin` of the peer gate rebuilds a dirty idle peer; no idle peer is dirty (`PeerGate.ReinitOnlyWhenIdle`).

Assumptions, named in the preconditions that use them:

- Agent endpoints are distinct and not empty where two of them are compared.
- Provider addresses contain no pipe; `Requests.KeyCollision` says exactly which keys would collide otherwise.
- Public key and provider address determine each other, as the database schema enforces.
- The peer gate has a reinit function, as its only caller provides; `PeerGate.IdleIsCleanIff` says that it is needed.
- An agent that answers ran the job as modelled in AgentRun, where results of schedules or verdicts depend on it.

## Model

| member | source | states |
|---|---|---|
| ShardOrder.SortStable | coordinator/internal/workers/providersMaster/runchecks_shard.go:36-44 | the in-place stable sort ends with exactly the stable insertion sort of the slice, for which sortedness, permutation and uniqueness are proved |
| ShardOrder.SiftIn | coordinator/internal/workers/providersMaster/runchecks_shard.go:37-44 | one insertion: the prefix becomes the insertion of the next entry, the rest of the slice is untouched |
| ShardOrder.ShiftRight | coordinator/internal/workers/providersMaster/runchecks_shard.go:37-44 | exactly the entries that have to follow the new one move one place to the right |
| ShardOrder.InsertAt | coordinator/internal/workers/providersMaster/runchecks_shard.go:37-44 | the insertion point: before it nothing has to follow the new entry, after it everything does |
| ShardOrder.StableSortedCorrect | coordinator/internal/workers/providersMaster/runchecks_shard.go:36-44 | the ordering is a sorted permutation of the input, most bags first, ties by public key |
| ShardOrder.SortedMeans | coordinator/internal/workers/providersMaster/runchecks_shard.go:38-43 | in the sorted slice bag counts do not increase, and among equal counts the public keys do not decrease |
| ShardOrder.SortIsStable | coordinator/internal/workers/providersMaster/runchecks_shard.go:37 | entries that compare equal keep their order |
| ShardOrder.SortedIsUnique | coordinator/internal/workers/providersMaster/runchecks_shard.go:37-44 | two sorted arrangements of the same tie-free batches are equal |
| ShardOrder.SortIgnoresInputOrder | coordinator/internal/workers/providersMaster/runchecks_shard.go:36-44 | any two input orders of tie-free batches are sorted to the same sequence |
| Sharding.PickAgent | coordinator/internal/workers/providersMaster/runchecks_shard.go:84-102 | the sticky endpoint if it is a candidate; otherwise, also when the sticky endpoint is not a candidate, the first candidate of minimal load |
| Sharding.PickLeastLoaded | coordinator/internal/workers/providersMaster/runchecks_shard.go:93-101 | the loop over the candidates returns the first one of minimal load |
| Sharding.LeastLoaded | coordinator/internal/workers/providersMaster/runchecks_shard.go:93-101 | the running minimum is a candidate no other candidate undercuts |
| Sharding.FilterCandidates | coordinator/internal/workers/providersMaster/runchecks_shard.go:62-73 | the candidate list drops the excluded endpoint only when something remains |
| Sharding.CandidatesExact | coordinator/internal/workers/providersMaster/runchecks_shard.go:62-73 | the excluded endpoint is out exactly when another endpoint exists; if it stays, it is the only one |
| Sharding.CandidatesKeepOrder | coordinator/internal/workers/providersMaster/runchecks_shard.go:62-73 | the candidates stand in the order of the endpoints |
| Sharding.LeastLoadedIsFirst | coordinator/internal/workers/providersMaster/runchecks_shard.go:93-101 | the running minimum is the first candidate of minimal load |
| Sharding.PlacedOnFirstLeastLoaded | coordinator/internal/workers/providersMaster/runchecks_shard.go:62-92 | under every set of rules a batch that cannot go to its sticky endpoint goes to the first candidate whose load over the earlier batches is minimal among the candidates |
| Sharding.PlacedOnSticky | coordinator/internal/workers/providersMaster/runchecks_shard.go:84-91 | a batch whose sticky endpoint is a candidate goes there |
| Sharding.AssignedFirstLeastLoaded | coordinator/internal/workers/providersMaster/runchecks_shard.go:51-79 | the same for the assignment, with the bags already given to each agent |
| Sharding.PlaceBatch | coordinator/internal/workers/providersMaster/runchecks_shard.go:51-79 | one round of the hand-out keeps loads, lists and provider map in step with the placement so far |
| Sharding.AssignProvidersToAgents | coordinator/internal/workers/providersMaster/runchecks_shard.go:18-82 | the whole function computes the assignment all sharding theorems are about, nil batches and empty inputs included |
| Sharding.HandOut | coordinator/internal/workers/providersMaster/runchecks_shard.go:46-81 | the loop over the sorted slice skips nil batches and builds that assignment |
| Sharding.AssignmentConserves | coordinator/internal/workers/providersMaster/runchecks_shard.go:51-79 | the lists of the endpoints partition the non-nil batches, with multiplicity; every endpoint has a list |
| Sharding.SelectLoad | coordinator/internal/workers/providersMaster/runchecks_shard.go:46-79 | the tracked load of an endpoint is the number of contracts in its list |
| Sharding.OrderedConserves | coordinator/internal/workers/providersMaster/runchecks_shard.go:36-54 | sorting and skipping nil entries loses and adds no batch |
| Sharding.AssignmentAgrees | coordinator/internal/workers/providersMaster/runchecks_shard.go:76-77 | with unique public keys, a batch is in the list of an endpoint if and only if byProvider names that endpoint |
| Sharding.AssignedProviders | coordinator/internal/workers/providersMaster/runchecks_shard.go:51-79 | byProvider has exactly the public keys of the non-nil batches |
| Sharding.StickyHonoured | coordinator/internal/workers/providersMaster/runchecks_shard.go:75-92 | a sticky endpoint that exists and is not the excluded one is always chosen |
| Sharding.ExclusionExact | coordinator/internal/workers/providersMaster/runchecks_shard.go:57-75 | a provider avoids its excluded endpoint if and only if some other endpoint exists |
| Sharding.RetryAvoidsMainAgent | coordinator/internal/workers/providersMaster/worker.go:833-847 | main pass, then retry excluding the main assignment: with two agents or more no provider returns to its main agent, whatever became sticky in between |
| Sharding.PlacementIsGreedy | coordinator/internal/workers/providersMaster/runchecks_shard.go:84-101 | without sticky and exclusion entries every batch goes to an endpoint that is least loaded at that moment |
| Sharding.AssignmentBalanced | coordinator/internal/workers/providersMaster/runchecks_shard.go:36-102 | with m agents and no sticky or excluded entries, 3m times any load is at most (4m - 1) times the peak of every other assignment of the same providers |
| Sharding.AssignmentSpread | coordinator/internal/workers/providersMaster/runchecks_shard.go:36-102 | any two loads differ by at most the largest batch, and m times any load is at most the total plus (m - 1) largest batches |
| Sharding.AssignmentIgnoresOrder | coordinator/internal/workers/providersMaster/runchecks_shard.go:36-82 | the assignment is the same for every order of the incoming batches |
| LoadBalance.GreedySpread | coordinator/internal/workers/providersMaster/runchecks_shard.go:84-101 | list scheduling keeps any two loads within the largest job |
| LoadBalance.GreedyPeak | coordinator/internal/workers/providersMaster/runchecks_shard.go:84-101 | m * load <= total + (m - 1) * largest for every endpoint |
| LoadBalance.LargeJobsFit | coordinator/internal/workers/providersMaster/runchecks_shard.go:36-102 | if every job exceeds a third of what some placement achieves, the greedy placement achieves it too |
| LoadBalance.SmallJobFits | coordinator/internal/workers/providersMaster/runchecks_shard.go:36-102 | a last job of at most a third lands low enough by averaging |
| LoadBalance.LongestFirstBound | coordinator/internal/workers/providersMaster/runchecks_shard.go:36-102 | the longest-processing-time bound, 4/3 - 1/(3m), against every placement |
| Endpoints.Memory.RefreshProvidersEndpoints | coordinator/internal/workers/providersMaster/endpoint_refresh.go:123-330 | returned map and new memory are those of the specification, whatever order the lookups finish in, on every exit |
| Endpoints.Memory.ResolveTargets | coordinator/internal/workers/providersMaster/endpoint_refresh.go:206-244 | the concurrent lookups: each provider ends with its own lookup result, or keeps the cached endpoint |
| Endpoints.Memory.OverlayFallback | coordinator/internal/workers/providersMaster/endpoint_refresh.go:246-272 | the fallback only touches providers whose lookup failed and whose own address is known |
| Endpoints.RefreshStaysValid | coordinator/internal/workers/providersMaster/endpoint_refresh.go:198-272 | one refresh remembers and returns only valid endpoints, and only of the providers asked for |
| Endpoints.RefreshReturnsValid | coordinator/internal/workers/providersMaster/endpoint_refresh.go:198-272 | whatever is remembered, a refresh returns only valid endpoints of the providers asked for |
| Endpoints.TargetsExact | coordinator/internal/workers/providersMaster/endpoint_refresh.go:62-73 | a stale-only refresh looks up exactly the providers whose stored state is missing, blank, undated or older than the ttl |
| Endpoints.RefreshAnswers | coordinator/internal/workers/providersMaster/endpoint_refresh.go:198-272 | per provider: the lookup answer where it is valid, the remembered endpoint where nothing was looked up or found, the overlay storage endpoint beside the known own address after a failed lookup |
| Endpoints.RefreshRemembers | coordinator/internal/workers/providersMaster/endpoint_refresh.go:236-271 | what was learned is remembered, also when it could not be stored, and nothing else changes |
| Endpoints.RefreshFailsIff | coordinator/internal/workers/providersMaster/endpoint_refresh.go:150-153 | a refresh fails iff the stored states cannot be read, or something was learned and cannot be stored |
| Endpoints.RefreshesStayValid | coordinator/internal/workers/providersMaster/endpoint_refresh.go:123-330 | over any sequence of refreshes with arbitrary outcomes every remembered and every returned endpoint is valid |
| EndpointRaces.InvReachable | coordinator/internal/workers/providersMaster/endpoint_refresh.go:75-86 | the invariant of several refreshes interleaved at the lock of the shared memory holds in every reachable state |
| EndpointRaces.RacesStayValid | coordinator/internal/workers/providersMaster/endpoint_refresh.go:198-272 | however concurrent refreshes interleave, everything remembered and returned is valid, and a refresh that returned holds its own valid lookup results |
| Requests.KeyCollision | coordinator/internal/workers/providersMaster/worker.go:966-968 | two different (provider, contract) pairs share a key if and only if one extends the other across a pipe |
| Requests.KeyInjective | coordinator/internal/workers/providersMaster/worker.go:966-968 | keys of pipe-free provider addresses determine provider and contract |
| Requests.GroupByProvider | coordinator/internal/workers/providersMaster/worker.go:971-974 | the grouping loop gives every provider its relations in input order |
| Requests.BuildRunChecksRequest | coordinator/internal/workers/providersMaster/worker.go:970-1016 | for some iteration order of the map, the request holds one batch per resolvable provider and the checked keys are exactly the keys of its relations |
| Requests.EffectiveJobId | coordinator/internal/workers/providersMaster/worker.go:1003-1005 | a job id that is not blank is kept, and no request has a blank one |
| Requests.BatchesMembers | coordinator/internal/workers/providersMaster/worker.go:978-1001 | the batches are exactly those of the resolvable providers |
| Requests.BatchContents | coordinator/internal/workers/providersMaster/worker.go:983-1000 | a batch carries ip, port and key of the provider's resolved storage endpoint and the contracts of its relations, one by one |
| Requests.GroupKeepsOrder | coordinator/internal/workers/providersMaster/worker.go:971-974 | the relations of a provider stand in input order |
| Requests.ValidateRequest | agent/internal/grpcserver/server.go:214-267 | the validator accepts a request if and only if it is well formed |
| Requests.ValidateBatch | agent/internal/grpcserver/server.go:225-264 | the per-provider part rejects if and only if the batch has a defect |
| Requests.AcceptedIsBuildable | agent/internal/grpcserver/server.go:225-264 | the validator refuses nothing that can be built: an accepted batch is what the builder makes of some non-blank relations and a valid endpoint |
| Requests.FannedOutRequestsAreWellFormed | coordinator/internal/workers/providersMaster/worker.go:872-919 | every request sent to an agent from non-blank relations passes that agent's validator, for every map order and every sharding rule |
| Requests.ShardMembers | coordinator/internal/workers/providersMaster/runchecks_shard.go:76 | a batch in a shard is one of the batches that were assigned |
| Requests.CheckedExactly | coordinator/internal/workers/providersMaster/worker.go:976-990 | a relation is checked if and only if its provider has a usable endpoint |
| Requests.CheckedIffResolved | coordinator/internal/workers/providersMaster/worker.go:976-990 | a relation is checked if and only if the refresh returned its provider |
| Merging.Consider | coordinator/internal/workers/providersMaster/worker.go:1041-1063 | one row: first row wins, a valid row replaces an invalid one |
| Merging.MergeAll | coordinator/internal/workers/providersMaster/worker.go:1027-1065 | the nested loops fold all rows of all responses, nil responses and nil rows skipped |
| Merging.MergeRunChecksResponses | coordinator/internal/workers/providersMaster/worker.go:1018-1095 | one check per relation from the fold, NotFound where there is no row, and the number of valid ones |
| Merging.MergeIsBest | coordinator/internal/workers/providersMaster/worker.go:1027-1065 | the fold keeps, per key, the first valid row, or else the first row |
| Merging.MergedValidity | coordinator/internal/workers/providersMaster/worker.go:1027-1065 | the merged row is valid if and only if some row for that key is valid |
| Merging.MergedRowExact | coordinator/internal/workers/providersMaster/worker.go:1027-1065 | the merged map has exactly the keys of the rows, each with its first valid row, or its first row when none is valid |
| Merging.VerdictExact | coordinator/internal/workers/providersMaster/storeproof_commit.go:36-63 | a verdict is valid iff the relation is checked and some row for it is valid; an unresolved relation is IPNotFound and an unanswered one NotFound |
| Merging.BuildBagCheckResults | coordinator/internal/workers/providersMaster/storeproof_commit.go:30-65 | the total results map: unresolved, merged or missing, per relation |
| Merging.ResultsAreVerdicts | coordinator/internal/workers/providersMaster/storeproof_commit.go:30-65 | the results have exactly the keys of the relations and hold the verdict read off the rows; the branch for a checked relation without a merged row is never taken |
| ProofPass.AgentMemory.RunStoreProofChecks | coordinator/internal/workers/providersMaster/worker.go:798-870 | the pass equals the specification for the map order and completion order it met, and updates the sticky memory only on success |
| ProofPass.AgentMemory.CheckSharded | coordinator/internal/workers/providersMaster/worker.go:828-869 | sharding, fan-out, merge and sticky update together are the pass of the specification |
| ProofPass.AgentMemory.FanoutRunChecks | coordinator/internal/workers/providersMaster/worker.go:872-919 | the responses are exactly those of the agents that answered, in completion order |
| ProofPass.AgentMemory.UpdateProviderAgentSuccess | coordinator/internal/workers/providersMaster/worker.go:934-958 | the memory after a pass is the one StickyExact describes, untouched when there are no results or no assignment |
| ProofPass.StickyExact | coordinator/internal/workers/providersMaster/worker.go:947-957 | a provider with a valid relation and an assigned agent is remembered with that agent; the entry of every other provider is as before |
| ProofPass.StickyNextExact | coordinator/internal/workers/providersMaster/worker.go:841-847 | the same for a whole pass; a failed pass changes nothing |
| ProofPass.PassFailsIff | coordinator/internal/workers/providersMaster/worker.go:807-843 | a pass fails iff there is no agent, or something was sent and no agent answered |
| ProofPass.PassVerdicts | coordinator/internal/workers/providersMaster/worker.go:798-870 | a finished pass has one check per relation, and it is the verdict of the rows received |
| ProofPass.ShardsAreDisjoint | coordinator/internal/workers/providersMaster/worker.go:872-919 | rows of two different agents never concern the same relation |
| ProofPass.CompletionIsIrrelevant | coordinator/internal/workers/providersMaster/worker.go:892-917 | the rows for a key, in order, are the same for every completion order |
| ProofPass.OrderIsIrrelevant | coordinator/internal/workers/providersMaster/worker.go:978-1001 | every iteration order of the provider map leads to the same assignment |
| ProofPass.ScheduleIndependence | coordinator/internal/workers/providersMaster/worker.go:814-847 | results and assignment of a pass are identical for every map-iteration order and every completion order of the agents |
| ProofPass.RetryPassChangesAgent | coordinator/internal/workers/providersMaster/worker.go:639 | on two passes with any schedule, sticky memory and answers, the retry moves every provider to another agent |
| AgentRun.PoolRowsAreProviderRows | agent/internal/checker/checker.go:275-326 | row j of a finished pool belongs to the j-th non-nil contract and carries the code and text with which its check ended, or UnavailableProvider when it was skipped |
| AgentRun.PassValidity | coordinator/internal/workers/providersMaster/worker.go:845-846 | a finished pass finds a relation valid iff it is resolved and some answering agent returned a valid row for it; unresolved means IPNotFound, unanswered NotFound |
| AgentRun.GatheredIgnoresOrder | agent/internal/checker/checker.go:172-175 | gathering per-provider results in any completion order gives the same rows |
| AgentRun.AnsweredContracts | agent/internal/checker/checker.go:142-176 | there is a row for a provider and contract if and only if the shard has that contract |
| AgentRun.FaithfulAnswersOwnShard | agent/internal/checker/checker.go:117-177 | agents that run the job as modelled meet the assumption of schedule independence |
| Commit.SelectMainProofsCommit | coordinator/internal/workers/providersMaster/storeproof_commit.go:69-80 | the committed rows are those of the settled keys, once each; the pending keys are the rest |
| Commit.SelectFinalProofsCommit | coordinator/internal/workers/providersMaster/storeproof_commit.go:84-105 | one row per pending key: the retry row if there is one, else the main row |
| Commit.SelectPendingContracts | coordinator/internal/workers/providersMaster/storeproof_commit.go:107-121 | the pending relations in input order |
| Commit.PendingKeepsOrder | coordinator/internal/workers/providersMaster/storeproof_commit.go:115-119 | the pending relations stand in input order |
| Commit.SettledCodes | coordinator/internal/workers/providersMaster/storeproof_commit.go:13-28 | written at once are valid proofs and exactly four permanent failures |
| Commit.DecisionValidity | coordinator/internal/workers/providersMaster/storeproof_commit.go:13-28 | the decided verdict is valid iff the main row is, or the main row is retriable and the retry row is; a non-retriable main row is never overwritten |
| Commit.AllCommittedOnce | coordinator/internal/workers/providersMaster/storeproof_commit.go:67-105 | once all keys are written every relation has exactly one row, carrying its decision |
| Commit.RowsDiffer | coordinator/internal/workers/providersMaster/storeproof_commit.go:67-105 | no two written rows concern the same relation |
| Commit.DecidedIgnoresOrder | coordinator/internal/workers/providersMaster/storeproof_commit.go:69-105 | the rows written do not depend on the order in which the keys were visited |
| StoreProofs.AfterMain | coordinator/internal/workers/providersMaster/worker.go:540-671 | from the end of the main pass: no retry, or one retry, with everything above |
| StoreProofs.CommitMain | coordinator/internal/workers/providersMaster/worker.go:540-624 | the cycle ends without a retry if and only if none is possible, and then with its exact error and its exact written keys |
| StoreProofs.WithoutRetry | coordinator/internal/workers/providersMaster/worker.go:569-623 | the exits without a retry write the main verdict of every pending key; a failed write is the returned error unless the wait was cancelled |
| StoreProofs.Wait | coordinator/internal/workers/providersMaster/worker.go:590-624 | cancelled, too late or in time, each exactly when the clock and the context say so |
| StoreProofs.Retry | coordinator/internal/workers/providersMaster/worker.go:626-643 | the retry is a pass over the pending relations, with refreshed endpoints over the old ones, the main assignment excluded and the retry fleet |
| StoreProofs.CommitRetry | coordinator/internal/workers/providersMaster/worker.go:645-670 | the final commit with the retry verdicts, or the main ones after a failed retry; a failed write is the returned error |
| StoreProofs.CommitDeferred | coordinator/internal/workers/providersMaster/worker.go:645-659 | exactly the keys whose commit succeeded are written, and success is reported if and only if nothing failed |
| Cycles.ErrorsAreReported | coordinator/internal/workers/providersMaster/worker.go:487-671 | no error iff a main pass finished, every needed write and status update succeeded and the wait was not cancelled; then every key was written |
| Cycles.CommitExactlyOnce | coordinator/internal/workers/providersMaster/worker.go:533-671 | on every error-free cycle, and on every cycle with a main pass and a working repository, each active relation is committed exactly once over all exits, valid iff the main row is valid or it is retriable and the retry row is valid |
| Cycles.CommittedValidIff | coordinator/internal/workers/providersMaster/worker.go:533-671 | a relation is committed as valid iff an agent of the main pass returned a valid row for it, or its main verdict is retriable and an agent of a finished retry did |
| Cycles.SettledSurvivesErrors | coordinator/internal/workers/providersMaster/worker.go:540-671 | a verdict no retry can change is committed as soon as the main commit succeeds, whatever fails afterwards |
| Cycles.CommitAtMostOnce | coordinator/internal/workers/providersMaster/worker.go:533-671 | whatever fails, no relation is committed twice in a cycle |
| Cycles.ClosedOrCommitted | coordinator/internal/workers/providersMaster/worker.go:521-671 | a relation the cycle started from is either closed or committed exactly once, never both and never neither |
| Cycles.RetryGoesElsewhere | coordinator/internal/workers/providersMaster/worker.go:639 | with two agents or more, the retry of a cycle gives every provider to another agent than its main pass |
| Cycles.RetryUsesNewEndpoints | coordinator/internal/workers/providersMaster/worker.go:626-639 | every batch of the retry carries the endpoint the forced refresh returned for its provider, and the main pass's one where the refresh returned none |
| Cycles.RetryIff | coordinator/internal/workers/providersMaster/worker.go:565-624 | a retry is made iff everything was stored, something is retriable, a delay is configured, nothing was cancelled, and the wait ends before the deadline; likewise for the cancelled exit |
| Cycles.CycleIgnoresSchedules | coordinator/internal/workers/providersMaster/worker.go:487-671 | two cycles of the same world from the same memories have the same passes, error, times and memories and commit the same rows, whatever the map and completion orders |
| Cycles.MainVerdictsExplained | coordinator/internal/workers/providersMaster/worker.go:527-533 | in a cycle a relation is valid iff an agent said so, unresolved (IPNotFound) iff the refresh did not return its provider, unanswered (NotFound) iff the call to its agent failed, both then pending, and otherwise carries a row of that agent |
| Cycles.OnTime | coordinator/internal/workers/providersMaster/worker.go:488-500 | a cycle that is not an error ends with the interval that completes the cycle time; the retry starts no earlier than the configured delay after the main commit and before nextFullAt - 5 min, where its context ends |
| Cycles.ConsecutiveStarts | coordinator/internal/workers/workers.go:44-68 | starts are a full interval apart after an error-free return and 15 seconds apart after any error other than cancellation |
| Cycles.SuccessfulLapsAreSpaced | coordinator/internal/workers/workers.go:44-68 | over any run of the loop, s error-free laps take at least s intervals |
| Cycles.LoopRemembersValid | coordinator/internal/workers/workers.go:44-68 | over any run of the loop every remembered endpoint stays valid |
| FailureTally.TallyAccounts | agent/internal/checker/checker.go:536-573 | after any operations: failsInARow is the trailing run of failures, stopped holds iff that run ever exceeded the threshold, stats sum to the checks, details sum to failures plus skips |
| FailureTally.StatsByCode | agent/internal/checker/checker.go:542-545 | each statistic counts the checks with its code |
| FailureTally.LatchStays | agent/internal/checker/checker.go:552-554 | the latch never clears |
| FailureTally.Counters.RecordCheck | agent/internal/checker/checker.go:542-555 | new counters after one recorded check |
| FailureTally.Counters.RecordSkipped | agent/internal/checker/checker.go:557-561 | a skip only counts its details |
| WorkerPool.InvReachable | agent/internal/checker/checker.go:246-326 | in every reachable state every contract index is done, in exactly one hand, or not dispatched yet, and the tally is the fold of the records |
| WorkerPool.NeverStuck | agent/internal/checker/checker.go:246-311 | a reachable state that is not final has an enabled step |
| WorkerPool.RunsAreFinite | agent/internal/checker/checker.go:246-311 | every interleaving is shorter than a measure of its start |
| WorkerPool.PoolExactlyOnce | agent/internal/checker/checker.go:246-326 | when the pool ends each non-nil contract was written once and recorded once, rows and records agree in reason and details, the output is one row per non-nil contract in input order, and the progress ticks add up |
| PoolOutcomes.OutcomesReachable | agent/internal/checker/checker.go:275-281 | in every reachable state what is written or recorded for a check is what a step of the run ended that check with |
| PoolOutcomes.PoolReportsChecks | agent/internal/checker/checker.go:267-281 | when the pool ends every recorded check and its row carry the code and details with which a worker ended that check, and every other contract was skipped and reported unavailable |
| PoolOutcomes.OutputEarned | agent/internal/checker/checker.go:319-326 | row j of the output was earned by the j-th non-nil contract |
| WorkerPool.PoolAccounts | agent/internal/checker/checker.go:263-345 | stats plus skips are the non-nil contracts, details are failures plus skips, skips happen only after threshold + 1 consecutive failures, and at most workers - 1 checks are recorded after that |
| WorkerPool.CompactResults | agent/internal/checker/checker.go:319-326 | the last loop keeps the non-nil rows in order |
| WorkerPool.FillProviderResults | agent/internal/checker/checker.go:575-589 | an unreachable provider gets the same reason for every non-nil contract, in order |
| WorkerPool.RefsAreLeft | agent/internal/checker/checker.go:209-213 | the rows of a failed provider are as many as its progress ticks due |
| JobProgress.InvReachable | agent/internal/checker/checker.go:632-670 | in every interleaving the handed-out sums are distinct, the ticks left match the lines written, and the final line is written by the call that reached the total |
| JobProgress.LogIsComplete | agent/internal/checker/checker.go:613-670 | when all calls have returned at most ceil(total / step) lines were written, and exactly one reports the total if and only if the advances add up to it |
| JobProgress.LinesReachable | agent/internal/checker/checker.go:654-666 | every line written reports a sum that some call's add returned |
| JobProgress.RunsAreFinite | agent/internal/checker/checker.go:640-670 | the compare-and-swap loops of all calls terminate together, by a measure on nextLogAt |
| JobProgress.StepProgress | agent/internal/checker/checker.go:651-653 | a successful swap uses up a threshold, any other step uses up work of its own call |
| JobProgress.InitialTicks | agent/internal/checker/checker.go:613-630 | the thresholds step, 2 step, ..., total are ceil(total / step) many |
| JobProgress.PathAdvances | agent/internal/checker/checker.go:206-326 | every path of a provider, unreachable or pooled, advances once per non-nil contract |
| JobProgress.AdvancesReachTotal | agent/internal/checker/checker.go:129-139 | the advances of all provider paths reach the announced total if and only if no contract is nil |
| JobProgress.ValidatedJobCompletes | agent/internal/checker/checker.go:613-670 | for every request the validator accepts exactly one line of the job reports its total |
| JobProgress.Progress.constructor | agent/internal/checker/checker.go:613-630 | a new log is an initial state of the step model, with the default step and the clipped first threshold |
| JobProgress.Progress.Advance | agent/internal/checker/checker.go:632-638 | an uncontended call is the three steps of the model |
| JobProgress.Progress.MaybeLog | agent/internal/checker/checker.go:640-670 | one round of the loop: which line is written and which threshold comes next |
| PieceLimit.New | agent/internal/checker/aimd.go:33-63 | any arguments give a limiter with 1 <= min <= limit <= max; consistent ones are kept as they are |
| PieceLimit.CheckerLimits | agent/internal/checker/checker.go:84-113 | the checker's floor, ceiling and initial cap are consistent, so no clamp of the constructor moves them |
| PieceLimit.Semaphore.constructor | agent/internal/checker/aimd.go:33-63 | the clamping code builds that limiter |
| PieceLimit.Semaphore.TryEnter | agent/internal/checker/aimd.go:83-93 | one pass of the wait loop: admission leaves inflight at most limit, waiting means no free slot, an ended context takes none |
| PieceLimit.Semaphore.Release | agent/internal/checker/aimd.go:96-103 | one slot fewer, never below zero |
| PieceLimit.Semaphore.SetLimit | agent/internal/checker/aimd.go:148-163 | waiters are notified if and only if the cap rose |
| PieceLimit.Semaphore.CountRatios | agent/internal/checker/aimd.go:122-131 | the counting loop counts the slow and the fast samples |
| PieceLimit.Semaphore.Observe | agent/internal/checker/aimd.go:105-146 | new cap and buffer after one observation; a broadcast if and only if the cap rose |
| PieceLimit.BranchesExclusive | agent/internal/checker/aimd.go:132-145 | a window cannot take the slow and the fast branch |
| PieceLimit.RatiosExact | agent/internal/checker/aimd.go:110-129 | slow and fast are the ratio above 0.8 and at most 0.5 |
| PieceLimit.MixedWindowKeeps | agent/internal/checker/aimd.go:132-145 | a window that is neither half slow nor all fast leaves the cap alone |
| PieceLimit.BoundedKeptAll | agent/internal/checker/aimd.go:105-146 | between calls the buffer is shorter than the window and the cap within its bounds |
| PieceLimit.FillWindow | agent/internal/checker/aimd.go:115-145 | a block that completes the window acts exactly once, on the whole window |
| PieceLimit.UnusableIgnored | agent/internal/checker/aimd.go:106-108 | samples without a usable budget or duration never matter |
| PieceLimit.SlowTrajectory | agent/internal/checker/aimd.go:133-138 | k slow windows take the cap to exactly max(min, limit / 2^k) |
| PieceLimit.FastTrajectory | agent/internal/checker/aimd.go:139-144 | k fast windows take the cap to exactly min(max, limit + k) |
| PieceLimit.HalvingsAreLogarithmic | agent/internal/checker/aimd.go:133-138 | the windows needed to reach the floor are at most k if and only if limit < (min + 1) * 2^k |
| LimiterProtocol.InvReachable | agent/internal/checker/aimd.go:65-163 | the protocol invariant holds in every reachable state of callers, wakers, cancellations, releases and observations |
| LimiterProtocol.SlotsAccounted | agent/internal/checker/aimd.go:65-103 | min <= limit <= max, inflight <= max, and inflight is acquires minus releases, also after the cap was cut |
| LimiterProtocol.AdmissionRespectsLimit | agent/internal/checker/aimd.go:83-93 | every admission leaves inflight at most limit and never serves an ended context |
| LimiterProtocol.NoLostWakeup | agent/internal/checker/aimd.go:71-88 | a sleeper no broadcast has reached faces inflight >= limit and a holder who will release; if its context ended, its waker still has its broadcast to make |
| LimiterProtocol.QuietMeansServed | agent/internal/checker/aimd.go:65-103 | when no goroutine of the limiter has a step left, no cancelled call sleeps, and nobody sleeps beside a free slot |
| LimiterProtocol.InternalRunsAreFinite | agent/internal/checker/aimd.go:65-103 | left to itself the limiter settles after finitely many wake-ups |
| LimiterProtocol.NotQuietHasStep | agent/internal/checker/aimd.go:65-103 | it stops only in a quiet state |
| PeerGate.Mutex.BeginCheck | agent/internal/checker/session.go:18-26 | new gate after a begin, with the rebuild it may contain |
| PeerGate.Mutex.EndCheck | agent/internal/checker/session.go:28-41 | new gate after an end |
| PeerGate.GateTracksPeriods | agent/internal/checker/session.go:18-41 | over every well-bracketed trace inflight is the number of open checks, dirty means a connection closed in the busy period under way, and reinit ran once per completed busy period with a closed connection |
| PeerGate.ReinitOnlyWhenIdle | agent/internal/checker/session.go:18-41 | reinit runs only with no check open, an idle peer is clean, and the rebuild in begin is never reached |
| PeerGate.NilReinitStaysDirty | agent/internal/checker/session.go:20-23 | without a reinit function the flag records any closed connection for ever |
| PeerGate.IdleIsCleanIff | agent/internal/checker/session.go:18-41 | idle implies clean exactly when there is a reinit function |
| SimpleCache.Cache.SetItem | coordinator/internal/cache/simple.go:42-49 | stores the value with a fresh expiry |
| SimpleCache.Cache.GetItem | coordinator/internal/cache/simple.go:52-61 | returns a live value, drops an expired one |
| SimpleCache.Cache.ReleaseItem | coordinator/internal/cache/simple.go:64-74 | returns a live value and removes the key in any case |
| SimpleCache.Cache.GetAllItems | coordinator/internal/cache/simple.go:28-39 | lists what is strictly before its expiry |
| SimpleCache.Cache.CleanupOnce | coordinator/internal/cache/simple.go:77-90 | one tick removes exactly the expired entries |
| SimpleCache.CacheRefinesMap | coordinator/internal/cache/simple.go:28-90 | for every interleaving and non-decreasing clock all observations equal those of a map that never deletes expired entries, even if cleanup read the clock before it got the lock |
| SimpleCache.VisibleUntilExpiry | coordinator/internal/cache/simple.go:42-61 | a value is read back until its ttl has passed and not after, whatever happens to other keys and however often cleanup runs |
| SimpleCache.ReleasedIsGone | coordinator/internal/cache/simple.go:64-74 | after a release nothing is read back until the key is set again |
| SimpleCache.CleanupLeavesOnlyLive | coordinator/internal/cache/simple.go:77-90 | cleanup removes what had expired and nothing else |
| SimpleCache.ReleasedAtMostOnce | coordinator/internal/cache/simple.go:42-74 | a value is handed out by Release at most as often as it was set |
| SimpleCache.ListAndReadDiffer | coordinator/internal/cache/simple.go:28-61 | Get and GetAll disagree exactly on items that expire at that instant |
| ContractClosing.BalanceCovers | coordinator/internal/workers/providersMaster/helpers.go:31-38 | the balance test without its rounding division |
| ContractClosing.SizesByAddress | coordinator/internal/workers/providersMaster/worker.go:1339-1342 | the size of a contract is that of its last relation |
| ContractClosing.LastSizeIsLast | coordinator/internal/workers/providersMaster/worker.go:1339-1342 | of several relations of a contract the last one gives the size |
| ContractClosing.ReportForIsLast | coordinator/internal/workers/providersMaster/worker.go:1361-1382 | of several report entries for one address the last counts |
| ContractClosing.ServingProviders | coordinator/internal/workers/providersMaster/worker.go:1363-1375 | keys of the listed providers that are not removed for low balance |
| ContractClosing.ActiveRelations | coordinator/internal/workers/providersMaster/worker.go:1360-1382 | the lookup table describes the last entry of every reported address |
| ContractClosing.Classify | coordinator/internal/workers/providersMaster/worker.go:1339-1403 | active and closed are the two parts of the relations under the closing rule |
| ContractClosing.UpdateRejectedContracts | coordinator/internal/workers/providersMaster/worker.go:1331-1416 | no question is asked for no relations; a failed report or a failed write is an error; otherwise exactly the closed part is written |
| ContractClosing.OrderPreservingPartition | coordinator/internal/workers/providersMaster/worker.go:1384-1403 | active and closed relations stand at strictly increasing positions and every position is in exactly one list, closed iff the rule says so |
| ContractClosing.ClosedExactly | coordinator/internal/workers/providersMaster/worker.go:1360-1403 | a relation is closed iff its contract is not reported, or the report is genuine and every listing of its provider was proved before, is overdue by more than span and grace, and is not covered by the balance |
| ContractClosing.ActiveGrows | coordinator/internal/workers/providersMaster/worker.go:1384-1403 | so positions only move from closed to active when balances rise, and only back when the clock advances |
| ContractClosing.FreshIsKept | coordinator/internal/workers/providersMaster/helpers.go:39-43 | a listed provider that has not proved anything yet keeps its relation |
| ContractCollection.ScanProviderTransactions | coordinator/internal/workers/providersMaster/worker.go:1643-1680 | contracts and watermark of one wallet; the watermark is never below the stored one |
| ContractCollection.ScanKeepsLast | coordinator/internal/workers/providersMaster/worker.go:1656-1677 | a contract is found iff a relevant transaction names it, and its last one decides LastLT |
| ContractCollection.WatermarkIsMax | coordinator/internal/workers/providersMaster/worker.go:1654-1675 | the watermark is the largest of the stored one and the relevant transactions |
| ContractCollection.ScanBelowWatermark | coordinator/internal/workers/providersMaster/worker.go:1654-1677 | no contract is recorded later than the watermark of its scan |
| ContractCollection.MergeOne | coordinator/internal/workers/providersMaster/worker.go:402-416 | the critical section of one scan, in any iteration order of its map |
| ContractCollection.Absorb | coordinator/internal/workers/providersMaster/worker.go:391-427 | what one goroutine adds to contracts and watermarks |
| ContractCollection.CollectScans | coordinator/internal/workers/providersMaster/worker.go:385-430 | all goroutines in the order in which they got the locks |
| ContractCollection.MergeIsUnion | coordinator/internal/workers/providersMaster/worker.go:403-415 | keys and provider sets are unions, LastLT is the maximum over the scans |
| ContractCollection.MergeIgnoresOrder | coordinator/internal/workers/providersMaster/worker.go:385-430 | the merged map depends on the set of scans only |
| ContractCollection.UpdatesAdvance | coordinator/internal/workers/providersMaster/worker.go:419-426 | a written watermark is above the stored one |
| ContractCollection.UpdatesExact | coordinator/internal/workers/providersMaster/worker.go:419-426 | a watermark is written iff a scan succeeded and found something newer, with the largest value it found |
| PieceBudget.PiecesCover | agent/internal/checker/checker.go:490-504 | a successful count is between 1 and 2^31 - 1, the pieces cover the file and all but the last lie inside it |
| PieceBudget.PiecesRefused | agent/internal/checker/checker.go:490-504 | a count is refused if and only if a size is zero or 2^31 - 1 pieces cannot cover the file |
| PieceBudget.DrawnPieceExists | agent/internal/checker/checker.go:438-443 | every piece the draw can ask for starts inside the file |
| PieceBudget.TimeoutFromMs | agent/internal/checker/checker.go:672-677 | a given timeout is positive and far from overflow |
| PieceBudget.DeadlineExactIff | agent/internal/checker/aimd.go:173-187 | the code returns min(cap, base + floor(size * 10^9 / minBPS)) if and only if the rate fits an int64 and the sum does not overflow, or the wrong sign is hidden by the cap |
| PieceBudget.PositiveRate | agent/internal/checker/aimd.go:181-186 | for rates below 2^63 the deadline is exact iff the sum fits an int64 |
| PieceBudget.NegativeRate | agent/internal/checker/aimd.go:181-186 | a rate of 2^63 or more is read as negative and shortens the deadline |
| PieceBudget.RequestBase | agent/internal/checker/checker.go:405 | with the timeout of any request and a rate below 2^63 the deadline is exact, positive and within the cap |
| PieceBudget.DeadlineMonotone | agent/internal/checker/aimd.go:173-187 | more bytes never get less time, a faster floor never more |
| PieceBudget.WithinCapIff | agent/internal/checker/aimd.go:173-187 | the result is within the cap if and only if the early return is not taken or the base is within the cap |
| PieceBudget.RequestWithinCap | agent/internal/checker/checker.go:433-446 | for a counted piece, a positive rate and the timeout of any request the early return is not taken and the result is within the cap |
| PieceBudget.HugeRateShortensDeadline | agent/internal/checker/aimd.go:181-186 | a concrete rate for which the deadline is too short, and one for which it is negative |

## Left out

- ADNL, RLDP, DHT, lite-server, gRPC and TLS traffic, BoC parsing and proof checking: calls into libraries; a check ends with an arbitrary reason and details, a lookup or an agent call with an arbitrary outcome.
- The database and its SQL, rating and uptime formulas: repository calls succeed or fail; a failed commit is taken to have written nothing.
- HTTP server, authentication, metrics, configuration, deployment and log texts: plumbing.
- The former checker in coordinator/internal/workers/providersMaster/worker.go:1139-1327: no caller is left.
- Reason-code translation between the two services: finite switches; one datatype of reasons stands for both.
- Collecting new providers, and that no registration is ever lost: the watermark is written before the rows.
- The recorder of pipeline events: it does not influence verdicts; the stage of a row is kept as the details it is parsed from.
- Random choice of a piece, latency values and sleeping between bags: every choice is allowed and no time passes inside the pool.
- Rounding: the ratio of elapsed time to budget is compared exactly instead of in float64, and the short-circuit threshold is an arbitrary number instead of a float32 product.
- Counters of the tally, the limiter and the progress log are unbounded integers; wrap-around is modelled in PieceBudget only.
- Response timeouts of a request and the fan-out's context: the retry's deadline is recorded, the effect of a context on a call is part of its outcome.
- The endless loop of coordinator/internal/workers/workers.go is a relation between consecutive laps, because a method must terminate.
- Blocking in `acquire` is modelled in LimiterProtocol, one pass of its loop in `PieceLimit.Semaphore.TryEnter`.
- The pool and the progress log under contention are modelled on values, step by step; `JobProgress.Progress` is the object without contention.
- RefreshProvidersEndpoints: the equation with its specification is for a refresh that runs alone; for refreshes that run concurrently EndpointRaces states validity and own lookup results.
- StoreProof: the full endpoint refresh, which another worker runs on the same memory, does not interleave with a cycle.
