# A verified model of roost-keeper's stateful core

roost-keeper is a Kubernetes operator that installs Helm releases for `ManagedRoost` objects, watches them
and tears them down. Most of it is plumbing; this project models the parts that carry state, concurrency or
non-trivial data transformations, and proves what they promise:

- the **connection pool**: gets and returns interleaved with two maintenance passes that destroy connections
  which may still sit in the idle channel (`ConnectionPool`, `ConnectionPoolRaces`, `ConnectionPoolObject`);
- the **circuit breaker** with any number of calls in flight (`CircuitBreaker`);
- **Helm values**: deep merge, and template expansion in Go's unspecified map order (`HelmValues`,
  `TemplateText`, `HelmTemplating`), and the same expansion in **RBAC rules** (`RbacRules`);
- the TTL and least-recently-used **resource cache** (`ResourceCache`, `ResourceCacheObject`);
- the **reconciler** as a protocol between API server, Helm, controller and users (`Reconciler`,
  `ReconcilerObject`);
- the **worker pool** (`WorkerPool`, `WorkerPoolObject`);
- the **teardown engine**: triggers, safety gate, decision, execution and running average
  (`TeardownEvaluation`, `TeardownSafety`, `TeardownManager`, `TeardownExecution`, `RunningAverage`);
- the per-client **rate limiter** (`RateLimiter`) and the **lifecycle tracker** (`LifecycleTracker`).

`Common` holds the few definitions they share.

Concurrent components come in two layers. A state machine takes one locked region, channel operation or
remote call per step, and in the connection pool, whose connections are used without a lock, one write of a
shared field per step; theorems are about every interleaving of steps from the initial state. A class then
holds the program's own fields and runs the program's own operations; its `Valid()` says that the fields are
the state of some run of the machine, so the theorems apply to it.

Time, randomness, generated ids, the Kubernetes lists, Helm's answers and the outcome of API writes are
parameters. Go's map iteration order is a nondeterministic choice; results that depend on it are stated for
every order. `int` is unbounded; where the program's int32 or int64 matters (failure sums, event counters,
the running average) wrap-around is written out.

`dafny verify dfyconfig.toml` checks the whole project.

## What turned out false of the code

- Connections are not used exclusively in every interleaving. A health check or cleanup can decide to destroy a
  connection between the test and the claim of a get, and cleanup between the two writes of a return; then it is
  destroyed while held or handed out after it was destroyed. `ConnectionPoolRaces.DecisionBreaksIff` says exactly
  which decisions open the door, `ConnectionPoolRaces.AlwaysExclusiveIff` for which configurations none can, and
  `ConnectionPoolRaces.UseCanBreak` gives a failing run for every other configuration. That no connection ever
  has two holders is unconditional.
- `stats.Size` of a pool is not the number of active connections. A connection that cleanup removes while it
  sits in the channel is destroyed a second time when popped. `ConnectionPool.SizeDriftIsRepeats` gives the
  exact difference, the number of repeated destroys; `ConnectionPoolRaces.SizeCanDrift` gives a race-free drifting
  run for every configuration.
- A breaker can stay half-open forever, refusing every call: an episode admits a limited number of calls, and
  closing may take more successes than that. `CircuitBreaker.WedgesIff` says for which configurations.
- Merging value maps is not associative (`HelmValues.NotAssociative`). `HelmValues.AssociativeIff` gives the
  exact condition.
- Expansion order is observable when one replacement value holds the token of another entry
  (`TemplateText.OrderMattersForOpenValues`), and a second pass can change what the first has made
  (`TemplateText.SecondPassCanChange`). `TemplateText.OrderIndependentIff` and `RbacRules.ApplicationOrderIff` give
  the exact condition for the order: no entry changes another's value. `TemplateText.IdempotentIff` gives the one for
  a second pass: no entry changes any value, its own included.
- The late half of `Get` can delete a value just written (`ResourceCache.LateDeleteLosesLiveValue`);
  `ResourceCache.GetIsExact` says exactly when `Get` hits.
- A user who strips the finalizer defeats its purpose (`Reconciler.StrippingOrphansTheRelease`);
  `Reconciler.OnlyStrippingBreaksTheGuard` shows that nothing else does.
- The phase does not keep Helm's install from running again after Ready was stored: the client's cache may still show
  the object as Deploying (`Reconciler.StaleReadReinstalls`). `Reconciler.NoInstallAfterReady` says from when on it
  does: once the controller has read a version that is Ready or newer than that.
- Forgetting idle clients can hand a client a full bucket early. `RateLimiter.ForgettingUnobservableIff` says
  exactly when it cannot.
- The early exit of `IsEventRecent` can miss an event if timestamps are out of order
  (`LifecycleTracker.ScanCanMiss`). `LifecycleTracker.ScanAgreesIff` gives the exact condition on the log.

## Model

| member | source | states |
|---|---|---|
| ConnectionPool.PoolIsSafe | internal/performance/connection_pool.go:330-516 | over every interleaving of the unlocked steps of gets and returns with both passes, with a monotone clock and without a racing decision: no connection is handed out while held or after it was destroyed, and none is destroyed while held |
| ConnectionPool.NeverTwoHolders | internal/performance/connection_pool.go:330-516 | over every interleaving, racing or not, no connection has two holders and the channel stays within capacity |
| ConnectionPoolRaces.DecisionBreaksIff | internal/performance/connection_pool.go:333-336 | after every run without a racing decision and for every next step, exclusive use can be broken without a further race if and only if that step decides to destroy a connection between test and claim, or, unless it can never be accepted again, between the two writes of a return |
| ConnectionPoolRaces.AlwaysExclusiveIff | internal/performance/connection_pool.go:330-516 | exclusive use holds in every interleaving if and only if the channel has no room or no idle time is allowed |
| ConnectionPoolRaces.UseCanBreak | internal/performance/connection_pool.go:374-379 | for every other configuration, a run in which cleanup collects a connection between the two writes of its return and it is handed out after its destruction |
| ConnectionPoolRaces.IntoTheClaimWindow | internal/performance/connection_pool.go:450-459 | for every such configuration, a run to the point where the health check is about to condemn a connection that a client has tested but not yet claimed |
| ConnectionPool.StepKeepsInv | internal/performance/connection_pool.go:330-516 | every step that is not a racing decision keeps use exclusive and every destroyed or doomed connection out of clients' hands and unacceptable for good |
| ConnectionPool.SizeDriftIsRepeats | internal/performance/connection_pool.go:389-436 | after any run, racing or not, the active table is larger than stats.Size by exactly the number of repeated destroys |
| ConnectionPoolRaces.SizeCanDrift | internal/performance/connection_pool.go:343-346 | for every configuration, a run without races after which the active table is empty and stats.Size is -1 |
| ConnectionPoolObject.PoolObject.GetConnection | internal/performance/connection_pool.go:330-366 | the caller receives the popped connection if it is healthy and fresh enough, otherwise a new one; it was held by nobody and nobody else's changes; a rejected one is destroyed; hits, misses and creations are counted; the call is a race-free run of the machine |
| ConnectionPoolObject.PoolObject.ReturnConnection | internal/performance/connection_pool.go:369-386 | the connection becomes idle at the end of the channel, or is destroyed when the channel is full; returning nil does nothing |
| ConnectionPoolObject.PoolObject.ReturnThenGet | internal/performance/connection_pool.go:330-386 | a connection given back at t to an empty pool with room is what a get at u yields, with nothing created, if it is marked healthy and u - t is below the idle limit; otherwise it leaves the active table and the get yields a new one |
| ConnectionPoolObject.PoolObject.ReturnThenCleanup | internal/performance/connection_pool.go:369-497 | a connection given back at t stays active through a cleanup at u if and only if u - t is within the idle limit |
| ConnectionPoolObject.PoolObject.CreateConnection | internal/performance/connection_pool.go:389-417 | a new connection in use, entered in the active table and counted as created and as a miss |
| ConnectionPoolObject.PoolObject.DestroyConnection | internal/performance/connection_pool.go:420-435 | removes exactly this connection from the active table, nothing from the channel, and counts it even if it was not there |
| ConnectionPoolObject.PoolObject.HealthCheck | internal/performance/connection_pool.go:438-474 | every active connection is marked healthy if and only if it is at most thirty minutes old and idle within the limit; exactly the unhealthy idle ones leave the active table; both counts are exact; the channel is untouched |
| ConnectionPoolObject.PoolObject.Cleanup | internal/performance/connection_pool.go:477-497 | exactly the connections idle for too long leave the active table |
| ConnectionPoolObject.PoolObject.IsConnectionHealthy | internal/performance/connection_pool.go:500-516 | healthy means neither older than thirty minutes nor idle beyond the limit |
| ConnectionPoolObject.PoolObject.Safe | internal/performance/connection_pool.go:330-516 | after any sequence of operations that do not overlap, use has been exclusive |
| CircuitBreaker.CountersMatchLog | internal/events/circuit_breaker.go:52-142 | in every reachable state successCount is the number of successes since Reset; while closed failureCount is the trailing run of failures and below the threshold |
| CircuitBreaker.EpisodeIsBounded | internal/events/circuit_breaker.go:64-90 | a half-open episode admits at least one and at most MaxHalfOpenCalls + 1 calls |
| CircuitBreaker.WedgesIff | internal/events/circuit_breaker.go:64-142 | some reachable state is half-open, idle and refusing if and only if SuccessThreshold exceeds the calls an episode admits |
| CircuitBreaker.WedgedForever | internal/events/circuit_breaker.go:64-142 | from such a state nothing is ever admitted and nothing changes until Reset |
| CircuitBreaker.NeverWedges | internal/events/circuit_breaker.go:64-142 | with SuccessThreshold at most MaxHalfOpenCalls + 1, a half-open breaker with nothing in flight admits the next call |
| CircuitBreaker.FailureQuarantines | internal/events/circuit_breaker.go:64-123 | after a failure that leaves the breaker open no call is admitted for RecoveryTimeout, whatever late results arrive, unless it is reset |
| CircuitBreaker.RecoversIff | internal/events/circuit_breaker.go:64-123 | after a failure at f leaves the breaker open, and without further failure, reset or admission, the next call is admitted if and only if RecoveryTimeout has passed since f, and then it opens an episode |
| CircuitBreaker.CallDecides | internal/events/circuit_breaker.go:64-90 | a closed breaker admits every call, a half-open one exactly while its episode has admitted at most MaxHalfOpenCalls |
| CircuitBreaker.ResultDecides | internal/events/circuit_breaker.go:93-142 | read off the result log: closed opens exactly at FailureThreshold consecutive failures, half-open opens at any failure and closes exactly at SuccessThreshold successes since the last reset, open stays open |
| CircuitBreaker.ResetReadmits | internal/events/circuit_breaker.go:52-61 | after a reset the breaker is closed and the next call is admitted |
| CircuitBreaker.SimpleCircuitBreaker.AllowCall | internal/events/circuit_breaker.go:64-90 | admission and the new fields are those of the machine's admission region |
| CircuitBreaker.SimpleCircuitBreaker.RecordResult | internal/events/circuit_breaker.go:93-102 | the new fields are those of the machine's result region |
| CircuitBreaker.SimpleCircuitBreaker.Execute | internal/events/circuit_breaker.go:34-42 | the function runs exactly when admitted, and its own result is recorded and returned |
| CircuitBreaker.SimpleCircuitBreaker.Reset | internal/events/circuit_breaker.go:52-61 | closes the breaker and clears all three counters but not the failure time |
| HelmValues.MergeMaps | internal/helm/values.go:306-330 | the loops that fill a fresh map compute the recursive merge |
| HelmValues.MergeAtPath | internal/helm/values.go:306-330 | at every path, a value of the merge is the override's, or the base's where the override has nothing there and no non-map above it |
| HelmValues.MergeIsUnique | internal/helm/values.go:306-330 | that description determines the merged tree completely |
| HelmValues.MergeLaws | internal/helm/values.go:306-330 | the empty map is an identity, merging is idempotent, and re-applying either operand is absorbed |
| HelmValues.CoveredIffAbsorbed | internal/helm/values.go:306-330 | laying one tree over another hides it completely if and only if it covers its paths |
| HelmValues.AssociativeIff | internal/helm/values.go:306-330 | merging three trees is associative if and only if wherever the middle holds a non-map between two maps the last map already covers the first |
| HelmValues.NotAssociative | internal/helm/values.go:306-330 | a family of trees on which merging is not associative |
| HelmValues.AssociativeWithoutShadows | internal/helm/values.go:306-330 | in particular when the middle tree never holds a non-map where both others hold maps |
| TemplateText.IteratedIsSimultaneous | internal/helm/values.go:240-250 | for plain keys and values, replacing key after key in any order is one simultaneous substitution of the tokens of a template |
| TemplateText.OrderIndependentIff | internal/helm/values.go:240-250 | for plain keys and values that are themselves templates: all orders agree on every template if and only if no entry changes another entry's value |
| TemplateText.StableIsSimultaneous | internal/helm/values.go:240-250 | then one pass in any order replaces every token at once, by what its own entry makes of it |
| TemplateText.IdempotentIff | internal/helm/values.go:240-250 | for plain keys and values that are themselves templates: a second pass in any order changes nothing on any template if and only if no entry changes any value, its own included |
| TemplateText.UnchangedIsFixed | internal/helm/values.go:240-250 | a template that an entry leaves unchanged is left unchanged token by token |
| TemplateText.ExpansionIsIdempotent | internal/helm/values.go:240-250 | with plain keys and values expanding an expanded template again, in any orders, changes nothing |
| TemplateText.OneTokenExpands | internal/helm/values.go:240-250 | with plain keys and values, the token of a known key in plain text becomes its value in any order, and that of an unknown key stays |
| TemplateText.OrderMattersForOpenValues | internal/helm/values.go:240-250 | a context whose one value is another entry's token, and a template on which two orders differ |
| TemplateText.SecondPassCanChange | internal/helm/values.go:240-250 | a context and a template that a second pass changes although no entry changes its own value, and one although no entry changes another's |
| TemplateText.ExpandString | internal/helm/values.go:240-250 | the loop visits every key of the context once, in whatever order Go ranges, and yields the simultaneous substitution of any template in any stable context |
| HelmTemplating.ProcessTemplatesInMap | internal/helm/values.go:232-266 | every string of the tree is expanded and everything else kept |
| HelmTemplating.ProcessTemplatesInSlice | internal/helm/values.go:269-303 | the same for slices, element by element |
| HelmTemplating.ExpansionKeepsShape | internal/helm/values.go:232-303 | at every path, through maps and slices, expansion keeps presence, kind, key sets, lengths and non-string leaves |
| HelmTemplating.TokensAreFilledIn | internal/helm/values.go:232-303 | at every path of a tree, a string with the token of a known key comes out with its value, one with an unknown key as it was |
| HelmTemplating.DeterministicIff | internal/helm/values.go:232-303 | the result of expanding any tree of templates is independent of map order if and only if no context entry changes another's value |
| HelmTemplating.ExpansionCommutesWithMerging | internal/helm/values.go:33-85 | for any number of sources the outcomes of expanding the merge are exactly the merges of separately expanded sources |
| HelmTemplating.PrepareValues | internal/helm/values.go:18-90 | an absent spec gives no values; any failed load fails; otherwise at every key path the last secret with a value there or a non-map above it decides, then the last config map, then the inline values; and one expansion follows if templating is configured, with the three built-in variables overriding the user's |
| HelmTemplating.MergedAtPath | internal/helm/values.go:33-85 | a fold of merges holds at a path what the last source holds that has a value there or a non-map above it |
| RbacRules.OrderIsSimultaneous | internal/rbac/manager.go:420-485 | if no placeholder changes another parameter's value, replacing parameter after parameter in any order is one simultaneous substitution of the placeholders of a template |
| RbacRules.ApplicationOrderIff | internal/rbac/manager.go:420-485 | for plain names and values that are templates: all parameter orders agree on every template if and only if no placeholder changes another parameter's value |
| RbacRules.TwoPassesAreOne | internal/rbac/manager.go:324-350 | template parameters followed by global ones is one substitution in which template parameters take precedence, the placeholders in their values resolved by the global ones |
| RbacRules.PlaceholdersAreFilledIn | internal/rbac/manager.go:420-485 | with plain parameters, the dotted brace placeholder of a known name in plain text becomes its value in any order; of an unknown name, or with a dollar, it stays |
| RbacRules.DotIsNeeded | internal/rbac/manager.go:420-485 | a brace token without the dot is no placeholder |
| RbacRules.SubstituteRules | internal/rbac/manager.go:420-485 | every rule is deep-copied and rewritten; nothing that existed before is modified |
| RbacRules.BuildRules | internal/rbac/manager.go:324-350 | fails exactly for an unknown template; otherwise every rule is fresh and, unless a placeholder changes a value of its own set, substituted all at once by the role parameters over the specification's over RoostName, Namespace and TenantID; registered templates and the spec stay unchanged |
| RbacRules.PlainSetsOverlay | internal/rbac/manager.go:324-350 | with plain parameters that condition always holds, and the two sets are simply laid over one another |
| RbacRules.CollectGlobals | internal/rbac/manager.go:451-461 | the built-in parameters overridden by the specification's |
| RbacRules.GlobalsTell | internal/rbac/manager.go:451-461 | RoostName, Namespace and TenantID have the built-in values unless the specification overrides them, and nothing is added beyond its parameters |
| ResourceCache.HitsAgreeWithPlainMap | internal/performance/resource_cache.go:121-186 | over every interleaving, with Get's unlock window open, every hit returns the value most recently set, not since deleted, invalidated or cleared, and no older than its TTL |
| ResourceCache.CountsBalance | internal/performance/resource_cache.go:121-210 | requests are hits, misses or open windows; insertions are present, evicted or removed; with a positive bound the size never exceeds it |
| ResourceCache.GetIsExact | internal/performance/resource_cache.go:121-151 | after every run Get hits if and only if the plain map holds an unexpired value that was neither evicted nor deleted late since it was written |
| ResourceCache.LateDeleteLosesLiveValue | internal/performance/resource_cache.go:121-151 | for every cache size, a run in which the late half of Get deletes a live value just written |
| ResourceCache.GetOrSetIsTransparent | internal/performance/resource_cache.go:422-437 | if all writes store a deterministic function of the key, every hit in every interleaving returns that function's value |
| ResourceCacheObject.ExchangeSort | internal/performance/resource_cache.go:338-345 | the in-place nested loops leave a permutation ordered by last access |
| ResourceCacheObject.SelectEntriesForEviction | internal/performance/resource_cache.go:320-360 | chosen keys are distinct, present, as many as asked for or available, and no more recently accessed than any key that stays |
| ResourceCacheObject.CacheObject.Get | internal/performance/resource_cache.go:121-151 | a hit returns the stored value and touches it; an expired entry is removed and missed; counters move accordingly |
| ResourceCacheObject.CacheObject.SetWithTTL | internal/performance/resource_cache.go:159-186 | stores the new entry; below capacity nothing else goes, at capacity exactly one entry that no other precedes in last access |
| ResourceCacheObject.CacheObject.Delete | internal/performance/resource_cache.go:189-198 | removes exactly this key |
| ResourceCacheObject.CacheObject.Clear | internal/performance/resource_cache.go:201-210 | removes everything |
| ResourceCacheObject.CacheObject.Invalidate | internal/performance/resource_cache.go:458-482 | removes exactly the keys with the prefix and returns their number |
| ResourceCacheObject.CacheObject.CleanupExpiredEntries | internal/performance/resource_cache.go:275-298 | removes exactly the expired entries |
| ResourceCacheObject.CacheObject.GetOrSet | internal/performance/resource_cache.go:422-437 | a live entry is returned as it is; otherwise the computed value is returned and stored for the default time to live, or nothing is stored if computing fails; over a deterministic function callers cannot tell the cache from calling it |
| ResourceCacheObject.CacheObject.GetOrSetTwice | internal/performance/resource_cache.go:422-437 | within the default time to live a second caller gets the first one's computed value whatever its own function gives, and its own after that |
| ResourceCacheObject.CacheObject.Statistics | internal/performance/resource_cache.go:395-419 | between operations hits plus misses is the number of requests, and insertions are entries plus evictions plus removals |
| Reconciler.FinalizerGuardsRelease | controllers/managedroost_controller.go:133-358 | in every run with lagging reads, arbitrary API and Helm failures, crashes, users creating, editing and deleting the object and others creating and removing the release, a release the controller installed and has not uninstalled implies that the object exists with the finalizer, unless a user stripped it |
| Reconciler.ObjectOutlivesRelease | controllers/managedroost_controller.go:302-358 | the object never disappears while such a release remains, unless its finalizer was stripped |
| Reconciler.OnlyStrippingBreaksTheGuard | controllers/managedroost_controller.go:133-358 | with a release installed under the guard, the next step breaks it if and only if it is a user stripping the finalizer |
| Reconciler.StrippingOrphansTheRelease | controllers/managedroost_controller.go:133-149 | a run in which the object disappears and its release remains |
| Reconciler.AdoptionHappens | controllers/managedroost_controller.go:190-193 | a run in which a release made by others takes the object from Pending to Ready without an install |
| Reconciler.PhaseNeverRegresses | controllers/managedroost_controller.go:151-323 | each step either keeps the persisted phase or raises its rank; Failed and TearingDown are absorbing |
| Reconciler.RankAlongRun | controllers/managedroost_controller.go:151-323 | along any run of one object the rank does not drop and final phases do not change |
| Reconciler.StoredStatusIsSound | controllers/managedroost_controller.go:360-421 | at most four phase changes; persisted Ready has Ready=True and Progressing=False, persisted Failed has both False |
| Reconciler.PhaseIsEarned | controllers/managedroost_controller.go:151-323 | over every run, a change of the stored phase follows, in the same reconcile, the answer that calls for it: Ready a finished install or a found release, Failed an invalid spec, a failed lookup, install or upgrade, TearingDown a due teardown |
| Reconciler.InstallsOnlyWhileDeploying | controllers/managedroost_controller.go:200-223 | Helm's install works only on a copy that is Deploying with the finalizer; the object is stored with its finalizer unless a user stripped it, and every version of it that is Ready or beyond is newer than the copy |
| Reconciler.NoInstallAfterReady | controllers/managedroost_controller.go:200-284 | once the controller has read a version of an object that is Ready or beyond, or anything newer, no later install works on a copy of that object, whoever strips or recreates what |
| Reconciler.StaleReadReinstalls | controllers/managedroost_controller.go:360-394 | a run in which Ready is stored, the requeued reconcile still reads Deploying, and Helm's install is called again |
| Reconciler.StepKeepsInv | controllers/managedroost_controller.go:133-421 | every step of the protocol, crashes, user edits, stripping and foreign releases included, keeps the store, the controller's copy and the release consistent |
| ReconcilerObject.Cluster.Reconcile | controllers/managedroost_controller.go:72-130 | an undisturbed reconcile reads what the cache returns, decides, makes the Helm call and the one write, and is exactly that run of the protocol; the phase it leaves is given for every phase and answer |
| ReconcilerObject.PhaseOutcome | controllers/managedroost_controller.go:133-323 | the phase an applied write leaves, for every phase of a live object with its finalizer and every answer |
| ReconcilerObject.PendingOutcome | controllers/managedroost_controller.go:174-198 | invalid spec or failed lookup: Failed with Ready and Progressing false; release found: Ready; otherwise Deploying |
| ReconcilerObject.DeployingOutcome | controllers/managedroost_controller.go:200-223 | install error: Failed; in progress: Deploying; finished: Ready, with their conditions |
| ReconcilerObject.ReadyOutcome | controllers/managedroost_controller.go:225-284 | failed upgrade: Failed; otherwise the health answer is recorded and a due teardown starts |
| ReconcilerObject.ReadyUndecided | controllers/managedroost_controller.go:236-240 | if the upgrade question fails nothing is written |
| ReconcilerObject.OtherOutcome | controllers/managedroost_controller.go:151-300 | Failed stays Failed, a missing or unknown phase becomes Pending |
| ReconcilerObject.FinalizerOutcome | controllers/managedroost_controller.go:141-149 | a live object without the finalizer gets it and nothing else |
| ReconcilerObject.UninstallOutcome | controllers/managedroost_controller.go:302-358 | the finalizer goes exactly after a successful uninstall, and a deleted object that nothing else holds goes with it |
| ReconcilerObject.NoWriteNoChange | controllers/managedroost_controller.go:72-130 | without an applied write the stored object is untouched |
| ReconcilerObject.Cluster.ActedOn | controllers/managedroost_controller.go:72-130 | between reconciles the cluster changes exactly as the protocol says users and others may change it |
| ReconcilerObject.Cluster.ReconcileNormal | controllers/managedroost_controller.go:133-172 | adds the finalizer first, then dispatches on the phase, as the protocol's decision does |
| ReconcilerObject.Cluster.HandlePendingPhase | controllers/managedroost_controller.go:174-198 | an invalid spec or a failed lookup fails the roost, an existing release makes it Ready, otherwise it is Deploying |
| ReconcilerObject.Cluster.HandleDeployingPhase | controllers/managedroost_controller.go:200-223 | an install error fails the roost, an unfinished install only reports progress, a finished one makes it Ready |
| ReconcilerObject.Cluster.HandleReadyPhase | controllers/managedroost_controller.go:225-284 | upgrade failure, health and teardown decide the next status |
| ReconcilerObject.Cluster.HandleFailedPhase | controllers/managedroost_controller.go:286-300 | only rewrites the two conditions |
| ReconcilerObject.Cluster.UninstallThenRelease | controllers/managedroost_controller.go:302-358 | the finalizer is given up only after a successful uninstall |
| ReconcilerObject.Cluster.TransitionToPhase | controllers/managedroost_controller.go:360-394 | the stored status becomes the transitioned one if the write is applied and is unchanged otherwise |
| ReconcilerObject.Cluster.UpdateStatus | controllers/managedroost_controller.go:409-421 | writes status and not metadata |
| WorkerPool.NoJobLostOrRepeated | internal/performance/worker_pool.go:184-420 | in every interleaving each accepted job is in exactly one of the two queues, the dispatcher's hand, a worker, completed or failed; callbacks never outnumber results; jobs are counted by their own outcome |
| WorkerPool.BacklogIsBounded | internal/performance/worker_pool.go:74-91 | unfinished jobs never exceed 10W + 10W/4 + 1 + W |
| WorkerPool.WorkIsPossible | internal/performance/worker_pool.go:268-420 | while work is pending and there is a worker, some internal step is possible |
| WorkerPool.PoolDrains | internal/performance/worker_pool.go:268-420 | once submissions stop, every run is finite and one that cannot continue has finished every accepted job and made every callback |
| WorkerPoolObject.PoolObject.Submit | internal/performance/worker_pool.go:184-212 | accepted exactly when started and the queue chosen by priority has room; a refusal changes nothing |
| WorkerPoolObject.PoolObject.SubmitWithTimeout | internal/performance/worker_pool.go:215-240 | accepted exactly when started and the send succeeds before the deadline |
| WorkerPoolObject.PoolObject.Dispatch | internal/performance/worker_pool.go:268-290 | moves the first priority job to the end of the ordinary queue |
| WorkerPoolObject.PoolObject.Work | internal/performance/worker_pool.go:327-357 | takes the head of one non-empty queue, leaves the other alone, and counts the job by its outcome |
| WorkerPoolObject.PoolObject.ProcessJob | internal/performance/worker_pool.go:360-421 | counts the job once by its outcome and finishes it |
| TeardownEvaluation.EvaluateTimeout | internal/teardown/evaluators.go:33-68 | answers with the first expired timeout trigger, and with something exactly when one has expired |
| TeardownEvaluation.TimeoutMeans | internal/teardown/evaluators.go:33-68 | no answer if no timeout trigger's time since creation has passed; otherwise the first such trigger's timeout, medium urgency and score 50 |
| TeardownEvaluation.EvaluateFailureCount | internal/teardown/evaluators.go:178-213 | answers with the first failure_count trigger whose threshold is at most the 32-bit sum of failures |
| TeardownEvaluation.FailureMeans | internal/teardown/evaluators.go:178-213 | no answer if the 32-bit total is below every threshold; otherwise the first threshold it reaches, high urgency and score 80 |
| TeardownEvaluation.SumFailures | internal/teardown/evaluators.go:188-191 | accumulating in int32 equals wrapping the exact sum once |
| Common.SumSplits | internal/teardown/evaluators.go:188-191 | the exact sum over two lists of checks is the sum of their sums |
| Common.WrapIsInt32 | internal/teardown/evaluators.go:188-191 | a wrapped total is an int32 that differs from the exact one by a multiple of 2^32 |
| TeardownEvaluation.EvaluatorRegistry.GetByTrigger | internal/teardown/evaluator.go:89-104 | exactly the registered evaluators with a configured trigger, each once, in an arbitrary order |
| TeardownEvaluation.EvaluatorRegistry.RegisterDefaults | internal/teardown/manager.go:427-453 | the six built-in evaluators with their priorities override what was registered |
| TeardownEvaluation.SortByPriority | internal/teardown/manager.go:204-207 | the same evaluators in strictly descending priority |
| TeardownEvaluation.PriorityOrderIsUnique | internal/teardown/manager.go:204-207 | a set of evaluators has only one such order, so collection order is forgotten |
| TeardownEvaluation.OrderDecides | internal/teardown/manager.go:209-229 | running the applicable evaluators in priority order yields exactly the fired timeout, health and failure decisions |
| TeardownEvaluation.AggregateDecisions | internal/teardown/manager.go:378-424 | the first decision of highest score, carrying the reasons of all; the first of all if no score is above -1; a refusal if there is none |
| TeardownSafety.PerformSafetyChecks | internal/teardown/safety.go:31-76 | the report of eight checks, each equal to its characterisation by what the lists hold |
| TeardownSafety.ReportTells | internal/teardown/safety.go:31-445 | for each of the eight checks, from the lists and the policy alone: name, whether it passes, whether it can be overridden, and its severity |
| TeardownSafety.ReportCounts | internal/teardown/safety.go:79-287 | the number of offenders each check reports |
| TeardownSafety.EndpointCount | internal/teardown/safety.go:318-328 | a load balancer's endpoints are its non-empty addresses |
| TeardownSafety.EndpointsNext | internal/teardown/safety.go:318-328 | the endpoints of several services are those of the load balancers among them |
| TeardownSafety.CheckActiveConnections | internal/teardown/safety.go:79-127 | passes exactly when pods could be listed and none runs; counts the running ones; can be overridden |
| TeardownSafety.CheckPersistentVolumes | internal/teardown/safety.go:130-184 | passes exactly when claims could be listed and are absent or preserved; a failure is critical and cannot be overridden |
| TeardownSafety.CheckDependentResources | internal/teardown/safety.go:187-238 | passes exactly when services could be listed and none is externally reachable |
| TeardownSafety.CheckRunningPods | internal/teardown/safety.go:241-287 | passes exactly when pods could be listed; counts the running ones |
| TeardownSafety.CheckExternalEndpoints | internal/teardown/safety.go:290-343 | passes exactly when services could be listed and no load balancer has an address; counts the addresses |
| TeardownSafety.OnlyVolumesAndApprovalStop | internal/teardown/safety.go:79-445 | of the eight checks only persistent volumes and manual approval can stop a teardown, and exactly when volumes are at risk or approval is required |
| TeardownManager.Manager.EvaluateTeardownPolicy | internal/teardown/manager.go:137-271 | the decision is a function of roost, clock and cluster alone, whatever order evaluators are found in |
| TeardownManager.Manager.Evaluate | internal/teardown/manager.go:204-232 | sorting, running and aggregating gives the strongest fired trigger with all reasons |
| TeardownManager.Manager.Gate | internal/teardown/manager.go:234-254 | the report is attached and the first stopping check declines the teardown and names the reason |
| TeardownManager.TeardownIff | internal/teardown/manager.go:137-271 | teardown if and only if a trigger fires and, with safety checks on, nothing vetoes it |
| TeardownManager.TeardownMeans | internal/teardown/manager.go:137-271 | the same in terms of the policy, the clock, the failure counts and the volume claims alone |
| TeardownManager.OutcomeNames | internal/teardown/manager.go:378-424 | the decision names the leading trigger, failures before ill health before age and the first of its kind, with its reason, urgency and score |
| TeardownManager.OutcomeLists | internal/teardown/manager.go:402-421 | it lists every kind of trigger that fired with its reason, age first and failures last |
| TeardownManager.OutcomeDeclines | internal/teardown/manager.go:163-254 | which reason a declined teardown gives: no policy, no evaluator, no trigger, or the safety check that stops it, with the report attached |
| TeardownManager.LegalTeardownIff | internal/teardown/manager.go:182-254 | with safety checks and admissible trigger types, health plays no part: an expired timeout or a reached failure threshold, no manual approval required, and volume claims listed and absent or preserved |
| TeardownExecution.ConcurrencyIsCapped | internal/teardown/manager.go:284-317 | in every interleaving running teardowns never exceed MaxConcurrentExecutions |
| TeardownExecution.StepsFollowThePlan | internal/teardown/execution.go:33-96 | recorded steps are a prefix of the six, all but the last over; resource teardown is recorded only after completed hooks and completed data preservation |
| TeardownExecution.ProgressNeverDecreases | internal/teardown/execution.go:99-133 | between any two points of a run progress does not decrease and records of finished steps do not change |
| TeardownExecution.FinishedExecutions | internal/teardown/manager.go:319-343 | a finished execution completed all six steps at progress 100, or failed at a fatal step with progress at most 50 |
| TeardownExecution.FinalTells | internal/teardown/execution.go:33-133 | what a call leaves for every combination of step outcomes: the status, the recorded steps with their names and outcomes, and the progress 0, 16, 33, 50 or 100 |
| TeardownExecution.CallIsARun | internal/teardown/manager.go:284-356 | every admitted call, with every combination of step outcomes, is a run of the interleaved machine that restores the table |
| TeardownExecution.TeardownExecution.ExecuteStep | internal/teardown/execution.go:99-133 | appends one record with the step's outcome; progress moves only on success |
| TeardownExecution.TeardownExecution.Execute | internal/teardown/execution.go:33-96 | stops at the first failing fatal step and records exactly the steps up to it |
| TeardownExecution.Manager.Admit | internal/teardown/manager.go:284-308 | refuses exactly when the table is full, and then changes nothing |
| TeardownExecution.Manager.ExecuteTeardown | internal/teardown/manager.go:274-356 | refused exactly when full; otherwise the final record is determined by the outcomes, with an error exactly when a fatal step failed; the table is restored |
| RunningAverage.AverageError | internal/teardown/metrics.go:175-187 | after n non-negative durations with sum S within int64, 0 <= S - nA and 2(S - nA) <= n(n-1), and no intermediate value exceeds S |
| RunningAverage.AverageIsBetween | internal/teardown/metrics.go:175-187 | the average lies between the smallest and largest duration |
| RunningAverage.BoundIsAttained | internal/teardown/metrics.go:175-187 | for every n the durations 0, 1, ..., n-1 attain the error bound |
| RunningAverage.WrapIsInt64 | internal/teardown/metrics.go:184-186 | an overflowing intermediate value is an int64 that differs from the exact one by a multiple of 2^64 |
| RunningAverage.QuotientTruncates | internal/teardown/metrics.go:184-186 | the division loses less than one divisor, toward zero |
| RunningAverage.TeardownMetrics.RecordExecutionSuccess | internal/teardown/metrics.go:120-132 | counts and averages the duration, or does nothing without an end time |
| RunningAverage.TeardownMetrics.RecordExecutionFailure | internal/teardown/metrics.go:135-145 | counts and averages the duration |
| RateLimiter.ForgettingUnobservableIff | internal/api/middleware/ratelimit.go:46-81 | dropping idle limiters changes no answer of any run if and only if the rate refills the burst within the cleanup period |
| RateLimiter.AdmissionsAreBounded | internal/api/middleware/ratelimit.go:46-81 | then in any window of any run a client is granted, less what it gives back, at most burst plus rate times the window |
| RateLimiter.GrantsComeFromLevel | internal/api/middleware/ratelimit.go:46-81 | grants, less what is given back, never exceed the bucket's level plus the refill |
| RateLimiter.RefillsAtTheRate | internal/api/middleware/ratelimit.go:46-81 | a client that drained its bucket at t and has not asked since is granted n tokens at u if and only if the rate has refilled n since t, up to the burst, or it was dropped and the burst covers n |
| RateLimiter.RefusalsCostNothing | internal/api/middleware/ratelimit.go:46-81 | a new client that took k tokens has the rest of the burst and the refill left, whatever requests were refused in between |
| RateLimiter.RateLimiter.AllowN | internal/api/middleware/ratelimit.go:65-81 | the answer and the new table are those of the machine, for negative counts too; a new client gets up to the burst; other clients' limiters stay |
| RateLimiter.RateLimiter.Allow | internal/api/middleware/ratelimit.go:46-62 | the same for a single token |
| RateLimiter.RateLimiter.CleanupOldLimiters | internal/api/middleware/ratelimit.go:153-163 | drops exactly the limiters not seen for the cleanup period |
| LifecycleTracker.ManagedRoost.TrackEvent | internal/api/lifecycle.go:29-57 | appends to the history; the retained log is the last fifty events of the whole history |
| LifecycleTracker.LifecycleStatus.UpdateLifecycleStatus | internal/api/lifecycle.go:60-99 | keeps log, per-kind counters, creation time and last activity equal to their definitions over the whole history |
| LifecycleTracker.FirstCreationMeans | internal/api/lifecycle.go:63-66 | the creation time is that of the first event of kind Created, if there is one |
| LifecycleTracker.OccurrencesAreSize | internal/api/lifecycle.go:88-92 | the counted occurrences of a kind are its positions in the history |
| LifecycleTracker.ManagedRoost.GetEventCount | internal/api/lifecycle.go:110-115 | the number of occurrences in the whole history, as an int32 |
| LifecycleTracker.ManagedRoost.GetRecentEvents | internal/api/lifecycle.go:118-130 | the last min(limit, 50) events of the whole history; a panic exactly for a negative limit on a non-empty log |
| LifecycleTracker.ManagedRoost.IsEventRecent | internal/api/lifecycle.go:133-153 | true exactly when a recent event of the kind has nothing older than the cutoff after it |
| LifecycleTracker.ScanIsExistence | internal/api/lifecycle.go:133-153 | with non-decreasing timestamps that is plain existence |
| LifecycleTracker.ScanAgreesIff | internal/api/lifecycle.go:133-153 | on any log, the scan agrees with existence for every kind and cutoff if and only if every event that a later, older record could hide comes again, no older, after that record |
| LifecycleTracker.ScanCanMiss | internal/api/lifecycle.go:133-153 | an unordered log on which the scan misses a recent event |
| LifecycleTracker.RetainedAnswersForHistory | internal/api/lifecycle.go:60-153 | on an ordered history the answer is about exactly the last fifty events |

## Left out

- Logging, tracing, OpenTelemetry and Prometheus exporters: side effects only.
- Kafka, the Helm SDK, chart download and YAML parsing: foreign code. Helm is a contract (a successful uninstall leaves no release, a failed install may leave one or not), and values arrive parsed.
- Command line, HTTP handlers, Gin middleware and WebSocket code: interfaces and mock responses.
- `internal/ha`, the lifecycle manager (not wired in by `cmd/manager/main.go:233-243`), the teardown scheduler, security policies and identity providers: libraries, polling or placeholders.
- Field validators and generated deep copies: flat lists of branches and copies without state.
- Connection objects in the heap: connections live in a table keyed by id, so aliasing of a `*Connection` is represented by equal ids; distinct ids are assumed.
- ConnectionPool.PoolIsSafe: assumes that clients return only connections they hold, once each, as the pool's own callers do, and that no racing decision falls; closing the pool and the memory model of unsynchronised accesses are not modelled.
- CircuitBreaker.NeverWedges: a call whose function panics never reports its result and counts as in flight for good, so an episode with such calls can refuse for good whatever the configuration.
- ResourceCache.CountsBalance: the size estimate of entries and the `Size` field of the statistics are not modelled; under an open Get window a late delete is counted separately.
- TemplateText.OrderIndependentIff: texts are literals and tokens; texts with stray `$`, `{` or `}`, in which a replacement can complete a token, are outside.
- TemplateText.IteratedIsSimultaneous: the special case of plain values; values with tokens are covered by OrderIndependentIff and StableIsSimultaneous.
- TemplateText.IdempotentIff: as for OrderIndependentIff, texts with stray `$`, `{` or `}` are outside.
- TemplateText.ExpansionIsIdempotent: the special case of plain values; values with tokens are covered by IdempotentIff.
- RbacRules.OrderIsSimultaneous: texts and values with stray `$`, `{` or `}` are outside; where a placeholder changes another parameter's value, ApplicationOrderIff says that the order shows.
- RbacRules.BuildRules: which of several results comes out is not stated where a placeholder changes a value of its own set; writing the role to the API server and the API group and non-resource fields, which substitution does not touch, are not modelled.
- HelmTemplating.PrepareValues: fetching ConfigMaps and Secrets and the error texts are not modelled; every load is a value or a failure.
- Reconciler.FinalizerGuardsRelease: a stripped finalizer voids the guard until the controller adds it again; one object and a fixed target namespace; a read may return any version not older than the last one read, and that the cache never goes back, not even after a restart, is an assumption; that teardown completes is not claimed, since a missing release makes uninstall fail and the finalizer is added again after line 316.
- Reconciler.PhaseNeverRegresses: assumes that only the controller writes the status subresource.
- Spec validation and the controller's own trigger evaluation (`controllers/managedroost_controller.go:423-475`): their answers are inputs of the reconciler.
- WorkerPool.PoolDrains: up to `Stop`; shutdown may send on a closed channel, so panic-free shutdown is not a property. Workers are interchangeable, and draining needs at least one. With zero workers both channels are unbuffered and a priority job can be handed straight to the dispatcher, which the model refuses.
- WorkerPoolObject.PoolObject.SubmitWithTimeout: whether the send beats the deadline is a parameter.
- TeardownManager.Manager.EvaluateTeardownPolicy: one clock reading serves the whole evaluation; custom evaluators, the metadata besides the list of reasons, and the evaluation metrics are not modelled.
- Trigger types, job types, step names and check names are datatypes with a case for any other text where the program accepts one.
- TeardownExecution.TeardownExecution.Execute: the bodies of the six steps are placeholders in the program; their outcomes are parameters. Timestamps and messages of steps are not modelled.
- TeardownExecution.ConcurrencyIsCapped: assumes that execution ids, which the program reads off the clock, are distinct; with equal ids two executions share one table entry.
- RunningAverage.AverageError: the execution counters are unbounded.
- RateLimiter.RateLimiter.AllowN: `golang.org/x/time/rate` is an exact integer token bucket; floating-point rounding, `Reserve` and `Wait` are not modelled.
- LifecycleTracker.LifecycleStatus.UpdateLifecycleStatus: event details and phase durations (always empty in the program) are not modelled.
- Data races on fields written under read locks outside the connection pool: each locked region is atomic, except where a property names a split.
