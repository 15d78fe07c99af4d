# Gateway verification model

This project models the stateful core of the LLM gateway and its control plane
and proves properties of whole runs. Each module follows one source file or
component.

- **Governance** (`Governance`, `Reconciliation`, `History`, `CatalogSync`,
  `GovernanceStore`, `Mlflow`, `MlflowRuns`, `MlflowAliases`, `MlflowStore`):
  reconciling a catalog with a store.
  A store is a map from name and revision to a record, the benchmark runs, and
  the promotion log. `Governance` holds the plan and its execution as functions;
  `GovernanceStore` and `MlflowStore` are the mutating stores proved against
  them; `Mlflow` reads an MLflow client, as tag and alias maps, as such a store,
  and every run against it is matched by a run against the plain store.
- **Circuit breaker** (`Breaker`): the breaker class, and a system of calls that
  are admitted in one state and report in another.
- **Requests** (`Models`, `Registry`, `Routing`, `Admission`, `Lifecycle`,
  `LifecycleSafety`, `LifecycleContents`, `LifecycleVerdicts`,
  `LifecycleProgress`, `Handlers`):
  entitlement, selection, and one completion from arrival to its last byte.
  `Lifecycle` is a state machine over any number of interleaved requests that
  share the admission slots; `Handlers` holds the same steps as objects that
  change in place.
- **Quotas** (`SlidingWindow`, `SharedQuota`): the in-process deque and the
  Redis counter that replicas share.
- **Canary** (`Canary`, `Percentile`, `Sorting`): the rule, the incremental arms
  and the monitor.
- **Simple specifications** (`Safetensors`, `LruCache`, `CacheKey`, `KeyCache`):
  the header sweep, the response cache, the cache key and the issuer keys.

Clocks, bucket hashes, the classifier's prediction, load readings and what a
backend, a cache, MLflow or Redis answers are parameters of each step. Floats
are reals, hashes are arbitrary functions (injective where a lemma says so), and
code between two awaits is one atomic step. A returned streaming response is
always invoked.

## Where the code and its documentation differ

The model follows the code.

- The breaker's summary says that only a successful trial closes the circuit.
  A call admitted while closed may report later; its success closes the circuit
  and its cancellation frees the trial slot. `SecondTrialIff` and
  `AnotherClosesIff` say exactly when that can happen.
- A revision is called immutable, but `annotate` copies an absent checksum. A
  checksum holds through one sync, and over a run exactly while no sync that is
  carried out omits it (`ChecksumImmutableIff`).
- The cache module says an entry can never cross a tenant boundary.
  `TenantsShareAKeyIff` gives the tenant names for which it can.
- A canary is described as promoted on trusted rates only. That needs
  `min_requests` to be at least `min_sample`, which the settings do not enforce
  (`PromoteMeansMetIff`).
- The routing comment says that high complexity outweighs specialization and
  cost. `SpecialistYieldsIff` gives the quality lead for which it does.

## Model

| member | source | states |
|---|---|---|
| `Reconciliation.ApplyProjects` | src/llm_router/governance.py:349-386 | carrying out a whole plan changes each recorded revision, and its part of the promotion log, exactly as the plan's actions about that one revision do |
| `Reconciliation.ApplySucceeds` | src/llm_router/governance.py:349-386 | a plan whose actions succeed revision by revision, and whose benchmarks are in the catalog, succeeds as a whole |
| `Reconciliation.PlanTouching` | src/llm_router/governance.py:284-339 | no two subjects of one plan meet at a revision: each revision receives exactly the actions its own subject, or its retirement, calls for |
| `Reconciliation.PlanRefusesIff` | src/llm_router/governance.py:239-305 | a plan is refused exactly when models and adapters share a name or a recorded revision now carries another checksum |
| `Reconciliation.SyncAt` | src/llm_router/governance.py:274-400 | from any store, hand-edited ones included, an accepted plan can be carried out; every revision ends with the record the catalog asks for, one promotion is added for it exactly when its stage moved, and exactly the missing benchmarks are logged |
| `Reconciliation.PlanEmptyIff` | src/llm_router/governance.py:279-346 | a plan is empty if and only if the store is in step with the catalog |
| `Reconciliation.SyncConverges` | src/llm_router/governance.py:274-400 | one accepted sync of any store succeeds and brings it in step, so a following plan is empty in whatever order the store lists its versions |
| `CatalogSync.PlanRefusedExactlyWhen` | src/llm_router/governance.py:225-305 | read off the catalog's own lists, a plan is refused for names exactly when two cards share an id, be they models or adapters, and otherwise exactly when the checksum the deployments give a card differs from the recorded one |
| `CatalogSync.ModelChecksumsExact` | src/llm_router/governance.py:147-156 | the model checksums merged over the deployments give an id the value of the last production deployment that names it, and none if none does |
| `CatalogSync.AdapterChecksumsExact` | src/llm_router/governance.py:147-156 | the same for adapters and the deployments' adapter checksums |
| `CatalogSync.SyncRecordsTheCatalog` | src/llm_router/governance.py:274-400 | after an accepted sync of any store every model and every adapter of the catalog is recorded in its own stage, every other record is kept as it was but deprecated, and nothing else is recorded |
| `CatalogSync.SyncDescribesACard` | src/llm_router/governance.py:248-260 | and every card's record carries exactly the card's tags, revision, managed mark and production checksum; a record that already did keeps its checksum, a new or rewritten one takes the production one |
| `CatalogSync.SyncLogsThePromotion` | src/llm_router/governance.py:371-386 | an accepted sync adds to a revision's log one promotion exactly when its stage moved, with both stages, commit, policy version and the reason that applies, and nothing otherwise |
| `CatalogSync.PlansSayWhy` | src/llm_router/governance.py:317-345 | the actions of a plan that move no stage carry the reason that applies to them |
| `History.RunsReplay` | src/llm_router/governance.py:371-386 | over every run of syncs from an empty store, the promotions of each revision chain from no stage to its recorded stage, each starting where the one before ended |
| `History.RunsOnlyGrow` | src/llm_router/governance.py:371-386 | no later state of a run forgets a revision or rewrites a promotion |
| `History.RunsHaveOneLiveRevision` | src/llm_router/governance.py:326-339 | after every sync of a run each name has at most one revision that is not deprecated |
| `History.SyncKeepsChecksum` | src/llm_router/governance.py:299-305 | no single sync, from any store, replaces a recorded checksum with a different one |
| `History.SyncForgetsChecksumIff` | src/llm_router/governance.py:440-443 | an accepted sync drops a recorded checksum if and only if the catalog lists that revision without one |
| `History.ChecksumImmutableIff` | src/llm_router/governance.py:299-305 | over any stretch of any run a recorded checksum stays the same if and only if no sync of the stretch is carried out with a catalog that gives the revision no checksum; refused syncs do not count |
| `History.ChecksumCanBeReplaced` | src/llm_router/governance.py:300-300 | a concrete run of three syncs that replaces a checksum by dropping it in between |
| `GovernanceStore.InMemoryStore.RegisterVersion` | src/llm_router/governance.py:432-438 | registering writes exactly one record, unstaged, and leaves benchmarks and promotions alone |
| `GovernanceStore.InMemoryStore.AnnotateVersion` | src/llm_router/governance.py:440-443 | annotating an unknown revision fails and changes nothing; a known one gets the catalog's tags and checksum and keeps its stage |
| `GovernanceStore.InMemoryStore.SetVersionStage` | src/llm_router/governance.py:445-446 | staging an unknown revision fails and changes nothing; a known one changes its stage alone |
| `GovernanceStore.InMemoryStore.LogBenchmark` | src/llm_router/governance.py:451-452 | a benchmark run is recorded under its own id and nothing else changes |
| `GovernanceStore.InMemoryStore.LogPromotion` | src/llm_router/governance.py:454-455 | a promotion is appended at the end of the log and nothing else changes |
| `GovernanceStore.PlanOwn` | src/llm_router/governance.py:287-325 | the appending branches about the catalog's own revision produce the list that the convergence proofs reason about |
| `GovernanceStore.PlanGoverned` | src/llm_router/governance.py:284-332 | the loop over the governed versions, with its early refusal, computes the declarative subject plan |
| `GovernanceStore.FirstRefusal` | src/llm_router/governance.py:300-305 | the refusal reported is the one of the first conflicting subject in catalog order |
| `GovernanceStore.PlanChanges` | src/llm_router/governance.py:274-346 | the imperative planner computes the declarative plan of the store's current state |
| `GovernanceStore.ApplyPlan` | src/llm_router/governance.py:359-386 | the action loop either completes the plan or stops at its first failing action, having done exactly what the earlier ones say |
| `GovernanceStore.ApplyStopsAtFailure` | src/llm_router/governance.py:364-386 | a plan with a failing action after a succeeding prefix fails as a whole |
| `GovernanceStore.SyncStore` | src/llm_router/governance.py:389-400 | a sync leaves the store in step or, when its plan is refused, untouched; carrying an accepted plan out never fails |
| `Mlflow.StageTextParses` | src/llm_router/governance.py:492-498 | every stage survives the round trip through its tag text |
| `Mlflow.ViewAgrees` | src/llm_router/governance.py:567-578 | any client whose revision tags are unique, hand-edited or not, agrees with the plain store read off it |
| `Mlflow.SamePlan` | src/llm_router/governance.py:274-346 | a plan depends only on stages, given checksums and card tags, so agreeing stores get one plan |
| `Mlflow.StagingAgrees` | src/llm_router/governance.py:602-613 | staging a version in MLflow and in an agreeing plain store leaves them in agreement |
| `Mlflow.AnnotatingAgrees` | src/llm_router/governance.py:594-600 | so does annotating, although MLflow sets and deletes tags one by one and keeps the stage tag |
| `Mlflow.RegisteringAgrees` | src/llm_router/governance.py:580-592 | so does registering a revision that is not recorded yet |
| `MlflowRuns.ApplyAgrees` | src/llm_router/governance.py:349-386 | carrying out a plan in MLflow succeeds exactly when it does in an agreeing plain store, and keeps the two in agreement |
| `MlflowRuns.MlSyncAgrees` | src/llm_router/governance.py:389-400 | a sync of MLflow and a sync of an agreeing plain store do the same; an accepted plan is carried out in full |
| `MlflowRuns.MlSyncConverges` | src/llm_router/governance.py:389-400 | one accepted sync of any MLflow client with unique revision tags succeeds and leaves the following plan empty |
| `MlflowRuns.MlRunsAgree` | src/llm_router/governance.py:389-400 | every run against an empty MLflow is matched state by state by a run against the plain store, so replay and single live revisions carry over |
| `MlflowRuns.ActionIsSafe` | src/llm_router/governance.py:602-613 | every single action keeps each alias off versions in another stage, whatever plan it belongs to |
| `MlflowRuns.AliasesSafeThroughout` | src/llm_router/governance.py:602-613 | at every point while any plan is carried out, no alias points at a version in another stage |
| `MlflowRuns.SyncKeepsAliasesExact` | src/llm_router/governance.py:602-613 | a sync keeps the staging and production aliases pointing at exactly the versions in those stages |
| `MlflowRuns.RunsKeepAliasesExact` | src/llm_router/governance.py:602-613 | over every run with arbitrary catalogs from an empty MLflow, each name has at most one live revision after each sync and its aliases are exact |
| `MlflowRuns.AliasTargetsAreUnique` | src/llm_router/governance.py:602-613 | the version an alias points at is the only version of its name in any live stage |
| `MlflowAliases.AliasesReadExactly` | src/llm_router/governance.py:602-613 | letter by letter, after every sync of every run the alias production of a name leads to a version exactly when its stage tag reads production, likewise staging, and no other alias exists |
| `MlflowAliases.AliasesLeadToTheCatalog` | src/llm_router/governance.py:501-507 | after an accepted sync of any run, a name's staging or production alias leads to the revision the catalog has in that stage, and exists only if the catalog has one |
| `MlflowStore.MlflowStore.FindVersion` | src/llm_router/governance.py:531-535 | the scan finds a version exactly when the revision is recorded, and then that one |
| `MlflowStore.MlflowStore.RegisterSubject` | src/llm_router/governance.py:580-592 | a new version with the recorded tags and the next number is created, whether or not the model existed |
| `MlflowStore.MlflowStore.SetTags` | src/llm_router/governance.py:597-598 | the loop merges the wanted tags into one version and touches no other |
| `MlflowStore.MlflowStore.DeleteTags` | src/llm_router/governance.py:599-600 | the loop removes exactly the surplus tags of one version |
| `MlflowStore.MlflowStore.Annotate` | src/llm_router/governance.py:594-600 | an unknown revision fails and changes nothing; a known one ends with the annotated tags of the agreement proof |
| `MlflowStore.MlflowStore.SetVersionStage` | src/llm_router/governance.py:602-613 | an unknown revision fails and changes nothing; a known one gets the tag and alias moves of the agreement proof |
| `Breaker.CircuitBreaker.Allow` | src/llm_router/resilience.py:67-76 | a call is admitted while closed, or as the one trial of a half-open circuit, and only the latter sets the trial flag |
| `Breaker.CircuitBreaker.RecordSuccess` | src/llm_router/resilience.py:78-82 | a success returns the breaker to its initial state from any state |
| `Breaker.CircuitBreaker.RecordFailure` | src/llm_router/resilience.py:84-92 | a failure counts, frees the trial slot, and opens the circuit or restarts its cooldown under the source's condition |
| `Breaker.CircuitBreaker.AbandonTrial` | src/llm_router/resilience.py:94-102 | an interrupted call frees the trial slot and changes nothing else |
| `Breaker.CircuitBreaker.ProbeSucceeded` | src/llm_router/resilience.py:104-108 | a probe ends the cooldown of a circuit that is not closed and never closes it |
| `Breaker.CircuitBreaker.Healthy` | src/llm_router/resilience.py:152-158 | the backend reports ready exactly when the engine answers: the probe has already turned an open circuit half-open |
| `Breaker.RunConsistent` | src/llm_router/resilience.py:53-108 | in every reachable state of interleaved calls the breaker's fields are tied to the outstanding calls, and the failure counter is the number of failures since the last success |
| `Breaker.OpenIffThresholdReached` | src/llm_router/resilience.py:84-92 | after any trace the circuit is not closed if and only if the failures since the last success reach the threshold |
| `Breaker.TrialBound` | src/llm_router/resilience.py:67-102 | outstanding trials never exceed one plus the verdicts delivered late by calls admitted while closed |
| `Breaker.SingleTrial` | src/llm_router/resilience.py:67-102 | without such a verdict there is at most one trial, outstanding exactly while the flag is set |
| `Breaker.OnlyATrialCloses` | src/llm_router/resilience.py:78-82 | only a success closes the circuit; it is an outstanding trial's exactly when it adds no late verdict, and over a run without one it is the single trial's |
| `Breaker.NeverWedged` | src/llm_router/resilience.py:67-102 | a set trial flag always has its call outstanding, so a half-open circuit with no trial outstanding admits the next call |
| `Breaker.AdmittedExactlyWhen` | src/llm_router/resilience.py:53-76 | after any trace a new call is admitted exactly when the circuit is closed, or its cooldown is over or was ended by a probe and no trial holds the slot; a refused call changes nothing |
| `Breaker.ProbeEndsTheCooldown` | src/llm_router/resilience.py:104-108 | after any trace a probe is possible, makes an open circuit half-open and changes nothing else |
| `Breaker.FailureRestartsCooldown` | src/llm_router/resilience.py:84-92 | a failure reported while not closed leaves the circuit open for a whole cooldown from that moment |
| `Breaker.RetryAfterIsExact` | src/llm_router/resilience.py:53-65 | an open circuit left alone turns half-open after exactly the advertised wait and not before |
| `Breaker.NothingToWaitFor` | src/llm_router/resilience.py:61-65 | the advertised wait is never negative, and zero exactly when the circuit is closed or its cooldown is over |
| `Breaker.SecondTrialIff` | src/llm_router/resilience.py:67-102 | in every reachable state of an open circuit without a late verdict so far, two outstanding trials can be reached with no success in between if and only if a call admitted while closed is still outstanding |
| `Breaker.AnotherClosesIff` | src/llm_router/resilience.py:78-82 | in every reachable state of an open circuit, some events without a success can lead to a call that is not an outstanding trial closing it, if and only if a call admitted while closed is still outstanding |
| `Breaker.TrialBoundIsReached` | src/llm_router/resilience.py:67-102 | for every threshold and every n there is a trace with n late verdicts and n + 1 trials outstanding, so the bound is exact |
| `Breaker.TwoTrialsArePossible` | src/llm_router/resilience.py:94-102 | for every threshold a trace with two trials outstanding at once: one trial at a time is false without the condition |
| `Breaker.LateSuccessCloses` | src/llm_router/resilience.py:78-82 | for every threshold a trace without a success in which a call admitted while closed then closes the circuit though no trial was made |
| `Admission.AdmissionController.Acquire` | src/llm_router/admission.py:28-41 | a slot is taken, with the counter and the idle event, exactly when one is free; a refusal changes nothing |
| `Admission.AdmissionController.Release` | src/llm_router/admission.py:43-47 | a slot is returned, and the idle event set when none is left in flight |
| `SlidingWindow.PopExpired` | src/llm_router/admission.py:83-84 | the pop loop removes exactly the leading timestamps at or before the cutoff |
| `SlidingWindow.DequeIsExact` | src/llm_router/admission.py:73-87 | with non-decreasing timestamps the deque is the full accepted history after the last cutoff, before and after every call |
| `SlidingWindow.WindowBound` | src/llm_router/admission.py:73-87 | under one limit no interval (a, a + 60] ever holds more accepted calls of a subject than the limit |
| `SlidingWindow.SlidingWindowQuota.Consume` | src/llm_router/admission.py:73-87 | a call is accepted exactly when the subject's full accepted history holds fewer than its limit in the last sixty seconds; other subjects are untouched |
| `Canary.SharedOutageIsNotBlamed` | src/llm_router/canary.py:87-119 | an error rate or latency that a trusted control shares never rolls a ready canary back |
| `Canary.EvaluateExactly` | src/llm_router/canary.py:93-131 | rollback exactly when the canary is not ready, or has a sample with too high an error rate or p95 that no control with a sample of its own matches, or quality below the floor; hold exactly when not that and requests are missing |
| `Canary.ReasonsExactly` | src/llm_router/canary.py:93-131 | the reasons name exactly the criteria that fail, or the requests that are missing |
| `Canary.FailsExactlyWhen` | src/llm_router/canary.py:297-306 | on any trace a prefix fails a subject exactly when it ends in its canary record and its records so far, by failures, windowed p95 or mean quality, fail the canary beside the stable ones |
| `Canary.FailingCanaryIsRolledBack` | src/llm_router/canary.py:299-305 | a canary whose error rate is too high on a full sample is rolled back as long as the stable arm has no sample to excuse it |
| `Canary.PromoteMeansMet` | src/llm_router/canary.py:96-131 | with min_requests at least min_sample, promotion means enough requests, the quality floor, and no error or latency excess that a trusted control does not share |
| `Canary.PromoteWithoutASample` | src/llm_router/canary.py:45-48 | for every setting with min_requests below min_sample, a canary whose every request failed is promoted |
| `Canary.PromoteMeansMetIff` | src/llm_router/canary.py:96-131 | promotion means in every case that the criteria are met or missed by a trusted control as badly, if and only if min_requests is at least min_sample, whatever the other settings |
| `Canary.RecordKeepsSummary` | src/llm_router/canary.py:236-252 | recording one by one keeps the summary of the whole history: all counts, and exactly the last thousand latencies |
| `Canary.Arm.Record` | src/llm_router/canary.py:236-242 | an arm's new counters and latency window follow from the outcome alone, whatever its subject and arm |
| `Canary.FailedByAppend` | src/llm_router/canary.py:297-306 | a subject's first failing prefix can only be completed by a canary record of its own |
| `Canary.CanaryMonitor.Takes` | src/llm_router/canary.py:268-279 | traffic is taken exactly for a planned subject in its share of buckets that no prefix of the recorded history has failed |
| `Canary.CanaryMonitor.RecordArm` | src/llm_router/canary.py:295-296 | recording touches one arm, and both arms of every subject still summarize the whole trace |
| `Canary.CanaryMonitor.JudgeSubject` | src/llm_router/canary.py:299-303 | the verdict computed from the incremental arms is that of the whole trace |
| `Canary.CanaryMonitor.Record` | src/llm_router/canary.py:281-306 | a decision is returned exactly for a canary record of a planned subject not yet failed, it judges the whole history, and the suspended subjects are again exactly those with a failing prefix |
| `Canary.RollbackIsAbsorbing` | src/llm_router/canary.py:297-305 | once some prefix of a trace fails a subject, every longer trace does |
| `Canary.RollbackReturnedOnce` | src/llm_router/canary.py:297-306 | over any trace at most one call returns a rollback for a subject |
| `Canary.RollbackReturned` | src/llm_router/canary.py:297-306 | some call returns it for every subject that ends up rolled back |
| `Percentile.P95IndexInRange` | src/llm_router/canary.py:249-249 | the integer ceiling index is in range for every window size and is the least one that covers 95% |
| `Percentile.P95Splits` | src/llm_router/canary.py:245-249 | the reported latency is one of the window's, with at least 95% of the window at or below it and fewer than 95% strictly below |
| `Percentile.P95IsNearestRank` | src/llm_router/evaluation.py:78-85 | over the reals the arm's value is the nearest-rank percentile that evaluation uses, at 0.95 |
| `Sorting.SortKeeps` | src/llm_router/canary.py:245-245 | the sorting that both sweeps rely on rearranges its input and orders it, for every total order |
| `Safetensors.FindProblem` | src/llm_router/artifact_scan.py:145-167 | the collecting loop and the sweep with their early returns report the declarative verdict, problem by problem, and raise where a dtype is a list or an object |
| `Safetensors.SweepAcceptsIffTiles` | src/llm_router/artifact_scan.py:160-167 | spans in range are accepted if and only if each byte of the data lies in exactly one non-empty span and every empty span sits on a boundary |
| `Safetensors.HeaderSoundIff` | src/llm_router/artifact_scan.py:145-167 | a header is accepted if and only if every tensor entry is well formed and the entries tile the data |
| `Safetensors.HeaderTilesIff` | src/llm_router/artifact_scan.py:145-167 | in terms of the tensors' own offsets: a header is accepted if and only if every tensor has a known type and ordered offsets inside the data, every byte lies in exactly one tensor, and every empty tensor starts at zero or where another ends |
| `Safetensors.OrderDoesNotMatter` | src/llm_router/artifact_scan.py:146-161 | two headers listing the same entries in different orders get the same verdict |
| `LruCache.InMemoryCacheStore.Get` | src/llm_router/caching.py:48-57 | a lookup hits exactly on an unexpired entry; a hit moves the key to the end, an expired entry is dropped |
| `LruCache.InMemoryCacheStore.Set` | src/llm_router/caching.py:59-63 | a store writes and moves the key, then the loop evicts from the front down to the bound |
| `LruCache.RunHolds` | src/llm_router/caching.py:48-63 | after every trace the dictionary's order is recency of last touch, keys and order agree, and the size is within max_entries |
| `LruCache.RunFresh` | src/llm_router/caching.py:48-63 | every entry, hence every hit, carries the last value set for its key and that value's expiry |
| `LruCache.HitIsYoung` | src/llm_router/caching.py:48-60 | after every trace a held key has the value of the last store under it, hits exactly while less than the time to live has passed since, and is dropped by the first lookup after that |
| `LruCache.RecentKeyHits` | src/llm_router/caching.py:48-63 | under a monotone clock an unexpired key with fewer than max_entries distinct other keys touched since its own last touch is a hit with its last value |
| `CacheKey.MaterialDecodes` | src/llm_router/caching.py:91-100 | an explicit decoder recovers tenant, fingerprint, max_tokens, temperature, privacy and the whole prompt, bars and all, from the joined material |
| `CacheKey.MaterialDecodesIff` | src/llm_router/caching.py:91-100 | it does so if and only if tenant and fingerprint hold no bar |
| `CacheKey.KeysSeparateRequests` | src/llm_router/caching.py:82-101 | for bar-free tenants and fingerprints and an injective hash, two requests with one key are equal under this projection |
| `CacheKey.TenantsShareAKeyIff` | src/llm_router/caching.py:91-101 | for an injective hash and fingerprints that hold no bar and start with none of the three labels, as hexadecimal digests do, two tenants share some key if and only if the name of one, ended by a bar, runs through all of the key material that a request of the other has before its prompt |
| `CacheKey.TenantKeysSeparate` | src/llm_router/caching.py:91-101 | within one tenant, bars in its name or not, two requests share a key if and only if they are equal under this projection |
| `CacheKey.KeyHasDigestLength` | src/llm_router/caching.py:101-101 | a key has the length the hash gives it, whatever the prompt |
| `CacheKey.BarInTenantIsAmbiguous` | src/llm_router/caching.py:91-100 | any two requests can be made to share a key by a tenant that holds bars: the module's claim that entries never cross a tenant boundary is false of such names |
| `Registry.StrictestIsLeastUpperBound` | src/llm_router/registry.py:27-30 | the stricter of two classes is the least class at least as sensitive as both, so a tenant floor only raises and raises no further than needed |
| `Registry.ProfilesExact` | src/llm_router/registry.py:489-500 | the router is given exactly the profiles of the servable cards |
| `Registry.PermittedExact` | src/llm_router/registry.py:468-487 | a servable model is open to a tenant exactly when its card meets every list the tenant carries, restricted or not |
| `Registry.PermittedAreServable` | src/llm_router/registry.py:468-495 | nothing outside the servable catalog, or outside the tenant's own lists, is ever permitted by name |
| `Registry.PermittedReadsTheLists` | src/llm_router/registry.py:468-495 | a model is in the catalog's servable list and open to a tenant exactly when it is staged or in production, on the operator's list if there is one, and admitted by the tenant's tiers and names wherever those are given |
| `Registry.RestrictedIff` | src/llm_router/registry.py:477-487 | a tenant's entitlement is a set, possibly empty, exactly when its record names a tier or a model |
| `Routing.CandidatesExact` | src/llm_router/routing.py:159-184 | the filter keeps exactly the eligible profiles |
| `Routing.BestIndexExact` | src/llm_router/routing.py:226-226 | the scan of max() finds the first maximum, and nothing else is one |
| `Routing.SelectExact` | src/llm_router/routing.py:137-226 | a request is refused exactly when no profile is eligible; otherwise the choice is eligible and no eligible profile outscores it |
| `Routing.SelectServesTheRequest` | src/llm_router/routing.py:137-190 | condition by condition: the chosen profile is the named one if the request names one, healthy, capable of the task, context, quality floors, structured output and modalities, and allowed by privacy, agreement, entitlement and fallback; the request is refused exactly when no profile is; the task is the declared, else the remembered, else the predicted, else the keyword's |
| `Routing.SelectEarnsTheMostPoints` | src/llm_router/routing.py:192-226 | by a points table read off the request and the readings, the chosen profile earns the most of all that can serve the request, and more than any of those listed before it |
| `Routing.TiesGoToTheFirst` | src/llm_router/routing.py:226-226 | every eligible profile listed before the chosen one scores strictly less |
| `Routing.DominanceIsRespected` | src/llm_router/routing.py:194-224 | for every task, complexity, tier and saturation, a model no worse than another on each axis is never outscored by it, and wins if it is better on one |
| `Routing.ChosenIsUndominated` | src/llm_router/routing.py:159-226 | no eligible model is at least as good as the chosen one everywhere and better somewhere |
| `Routing.SpecialistYieldsIff` | src/llm_router/routing.py:19-27 | of a generalist and a specialist on one side of the boundary, the generalist scores higher exactly when its quality lead, weighted by the complexity, exceeds the ten points of specialization and its extra cost and delay |
| `Routing.CostOutweighsComplexity` | src/llm_router/routing.py:19-21 | a losing input for high complexity, for every task class, tier and saturation: a generalist fourteen points better that costs 2.6 more |
| `Routing.SaturationKeepsEachSide` | src/llm_router/routing.py:192-224 | raising or lowering saturation never changes which local model, or which external one, is the first best |
| `Routing.ChoiceByThreshold` | src/llm_router/routing.py:192-226 | the best local model is chosen exactly while its idle lead over the best external one exceeds twenty points per unit of saturation, or equals it and it is listed first |
| `Routing.SaturationIsMonotone` | src/llm_router/routing.py:192-226 | rising saturation leaves the choice or moves it from local to external, ties included |
| `Routing.RisingSaturationMovesOnce` | src/llm_router/routing.py:192-226 | over any rising series of readings the choice changes at most once, from a local to an external model |
| `Routing.SelectLeavesTheEngineOnce` | src/llm_router/routing.py:137-226 | the same for whole selections, and saturation never decides whether a request is refused |
| `Routing.ChoiceHonoursEntitlement` | src/llm_router/routing.py:177-177 | with the catalog behind the router, the chosen model is servable and admitted by every list of the tenant |
| `Routing.ExternalNeedsAgreement` | src/llm_router/backends.py:203-212 | a routed request never meets the boundary's refusal, and reaches for an external model only if public and agreed to by operator, tenant and caller; a fallback never returns to the engine |
| `LifecycleSafety.EffectIsExact` | src/llm_router/app.py:915-999 | every step of a request takes a slot exactly when holding begins and gives it back exactly when holding ends, on success, fallback, failure and every way a stream can close |
| `LifecycleSafety.SlotsAreConserved` | src/llm_router/admission.py:28-47 | for any interleaving of any number of requests, free permits plus holders equal max_concurrency, in_flight is the number of holders, and the idle event is set exactly when there is none |
| `LifecycleSafety.EverySlotComesBack` | src/llm_router/app.py:703-734 | an admitted request gives its slot back exactly once: never twice through its two closers, and always before it settles, never-iterated streams included |
| `LifecycleSafety.CanAlwaysDrain` | src/llm_router/admission.py:57-64 | from every reachable state, ending the calls and responses in flight brings the gateway to idle with all permits free |
| `LifecycleSafety.DispatchesAreBounded` | src/llm_router/app.py:639-669 | at most two dispatches per request, the second only from a local to an external model and for the same task, each passing the router's filter |
| `LifecycleSafety.ExternalDispatchIsAgreed` | src/llm_router/app.py:838-849 | an external dispatch means a request declared public, a public tenant floor, and operator, tenant and caller agreement; the dispatch boundary's refusal is unreachable |
| `LifecycleSafety.DispatchHonoursEntitlement` | src/llm_router/app.py:891-903 | every model a tenant's request is sent to, fallbacks included, is servable and admitted by each of the tenant's lists |
| `LifecycleSafety.QueuedExactlyWhen` | src/llm_router/app.py:857-903 | a request waits for a slot if and only if its quota was charged, no cache answered, and some profile passes the filter under its effective class and its tenant's terms |
| `LifecycleSafety.FallsBackExactlyWhen` | src/llm_router/app.py:980-996 | an unavailable engine leads to a second, external dispatch if and only if the first was local and an external model passes the same filter for the same task class; otherwise the request fails |
| `LifecycleContents.StreamsHaveOneShape` | src/llm_router/app.py:748-767 | every chunk of a stream names the model of its last dispatch; role, content beginning with the delta drawn before the response, stop and the done mark come in that order |
| `LifecycleContents.NoFallbackOnceStreaming` | src/llm_router/app.py:926-977 | once a response has begun, no later event calls a backend for it again or takes back what was sent |
| `LifecycleContents.CachedIsWhatWasServed` | src/llm_router/app.py:593-618 | a cache entry is the whole text of a completed answer under the model that produced it; never from a canary, a restricted request or a sampled generation, and the semantic cache takes only public requests for approved tasks |
| `LifecycleContents.ServedIsCachedIff` | src/llm_router/app.py:1001-1018 | a buffered answer served in full has been written to each cache if and only if it may enter it |
| `LifecycleContents.StreamRelaysTheBackend` | src/llm_router/app.py:754-802 | in every run a stream spells exactly what its backend gave it: the first delta of the answer that began it, then the deltas drawn since in the order of the trace |
| `LifecycleContents.BufferedAnswerIsServed` | src/llm_router/app.py:979-1018 | in every run a buffered answer is served, or lost to a failing cache, as the backend's latest answer to that request gave it |
| `LifecycleVerdicts.VerdictsAreSingle` | src/llm_router/app.py:620-637 | in every run the canary monitor hears of each dispatch of a request at most once, of a first dispatch followed by a second as failed, and of success only for the last dispatch of a completed answer |
| `LifecycleVerdicts.PullTellsExactly` | src/llm_router/app.py:769-802 | in every run, resuming a live stream past its done mark reports one success and writes to exactly the caches the answer may enter, a backend that becomes unavailable after the first delta is one reported failure, and any other resumption tells nothing |
| `LifecycleVerdicts.DeliveredIsHeard` | src/llm_router/app.py:1001-1018 | a finished buffered request has one success reported if and only if its answer reached delivery, and none without a dispatch |
| `LifecycleProgress.ArrivalTakesEffect` | src/llm_router/app.py:832-907 | an arriving request is known under its raised class and, if charged and not cached, waits on exactly the route selected for it under its tenant's terms; otherwise it ends from the cache or rejected |
| `LifecycleProgress.OthersAreUntouched` | src/llm_router/app.py:826-999 | no event changes a request other than its own |
| `LifecycleProgress.WaitEnds` | src/llm_router/admission.py:28-41 | a waiting request is dispatched on its route as soon as a permit is free, keeps waiting while none is, and is rejected when its wait runs out |
| `LifecycleProgress.AnswerTakesEffect` | src/llm_router/app.py:926-999 | in every run an answered call begins its stream with that delta and keeps its slot, or becomes the buffered reply and gives it back; a broken call fails, and so does any external call without a provider |
| `LifecycleProgress.DeliveryTakesEffect` | src/llm_router/app.py:593-618 | a buffered reply reaches the exact and the semantic cache in that order up to the first that fails, is served if none did, and is reported as a success |
| `LifecycleProgress.StreamIsStored` | src/llm_router/app.py:786-802 | a finished stream is stored in the same order, and its generator ends with the slot back, whatever store fails |
| `LifecycleProgress.ClosersTakeEffect` | src/llm_router/app.py:703-734 | a closed generator is never resumed and frees the slot if it had started; an ended response always does, once |
| `Handlers.StreamLease.Close` | src/llm_router/app.py:703-716 | the first close returns one slot and every further close does nothing |
| `Handlers.LeasedStream.Resume` | src/llm_router/app.py:754-802 | each resumption of the body generator is one step of the stream model, and touches the slots only when it ends the stream |
| `Handlers.LeasedStream.CloseGenerator` | src/llm_router/app.py:801-802 | closing a started generator closes the lease; closing one that never started does not |
| `Handlers.LeasedStream.EndResponse` | src/llm_router/app.py:730-734 | the end of the response closes the lease whether or not the body ever ran |
| `Handlers.Completion.Acquire` | src/llm_router/app.py:915-924 | the bounded wait ends with a slot and the first dispatch, or with a refusal that leaves the slots alone |
| `Handlers.Completion.OnAnswer` | src/llm_router/app.py:926-999 | what follows a backend's answer, fallback included, is one step of the request model; a stream keeps its slot and every other ending returns it |
| `Handlers.Completion.Deliver` | src/llm_router/app.py:1001-1018 | after its slot is back, a buffered answer goes to the caches it may enter and is then served, or lost where a cache write fails |
| `KeyCache.RemoteKeys.StartLookup` | src/llm_router/credentials.py:101-106 | a lookup starts a fetch, and stamps it before the answer is awaited, exactly under the source's age rules |
| `KeyCache.RemoteKeys.FinishFetch` | src/llm_router/credentials.py:94-99 | a failed fetch or one without usable keys changes nothing |
| `KeyCache.FetchesAreSpaced` | src/llm_router/credentials.py:92-107 | for every interleaving of lookups, slow answers and failures under a monotone clock, fetches start at least ten seconds apart and an interval of length L holds at most floor(L / 10) + 1 of them |
| `KeyCache.TheBoundIsReached` | src/llm_router/credentials.py:26-28 | a caller naming an unknown key every ten seconds reaches that bound for every length |
| `KeyCache.KeysAreTheLastUsable` | src/llm_router/credentials.py:94-99 | the keys held are those of the latest usable answer, so a key set that is not empty never becomes empty |
| `KeyCache.FetchesExactlyWhen` | src/llm_router/credentials.py:101-106 | a lookup starts a fetch exactly when none has started, the last start is five minutes old, or it is ten seconds old and the latest usable answer lacks the key |
| `SharedQuota.RedisFixedWindowQuota.Count` | src/llm_router/redis_state.py:67-74 | one increment of the window's counter decides the call; the expiry is wanted only by the call that created the counter |
| `SharedQuota.RedisFixedWindowQuota.FinishConsume` | src/llm_router/redis_state.py:72-73 | the expiry is set two windows ahead and changes no count |
| `SharedQuota.AdmitsExactlyIff` | src/llm_router/redis_state.py:67-74 | for every interleaving of replicas, a window admits exactly min(calls, limit) if and only if its counter is not dropped between calls, or the calls stay within the limit |
| `SharedQuota.PromptNeverRestarts` | src/llm_router/redis_state.py:72-73 | when every command reaches the server within a minute of its window, the expiry never drops a counter that is still needed |
| `SharedQuota.WindowAdmitsExactly` | src/llm_router/redis_state.py:67-74 | under prompt commands a window admits exactly min(calls, limit) |
| `SharedQuota.MinuteAdmitsAtMostTwice` | src/llm_router/app.py:671-680 | no half-open sixty seconds of stamps admit more than twice the limit |
| `SharedQuota.TwiceIsReached` | src/llm_router/app.py:678-680 | prompt calls within two seconds reach twice the limit, for every limit |
| `SharedQuota.LateCallIsAdmittedAgain` | src/llm_router/redis_state.py:72-74 | a call two minutes late is admitted over a limit of one: promptness is needed |

## Left out

- Order of retirements and of removed names in a plan: the source sorts them; the theorems hold for every listing order of a store, so the sorting itself is not modelled.
- Tag text, sources, descriptions and promotion timestamps of governance records: templating; card tags are a map.
- MLflow clients in which two versions of one name carry the same revision tag: the lookup takes whichever comes first. Every governance operation keeps the tags unique; a hand-edited client is assumed to.
- Models in MLflow that are not managed by the catalog or share a name with it, and paging and parameters of its runs.
- The nested version dictionaries of the stores are one map from name and revision to a record; aliasing between records is not captured.
- Breaker.OpenIffThresholdReached: assumes a threshold of at least one, as the gateway's settings require.
- KeyCache.FetchesAreSpaced: assumes that the clock does not run backwards between the two readings of one lookup.
- SharedQuota.MinuteAdmitsAtMostTwice: assumes one limit per subject and prompt commands; a tenant whose limit is edited mid-window is covered only by the count that `Fits` compares with.
- Registry.ProfilesExact: the per-task quality that benchmark runs add to a profile is taken as part of the card.
- LifecycleSafety.SlotsAreConserved: waiting for a slot is one step, so the order in which waiters are served is not captured.
- Handlers: the map of live requests and their interleaving are in `Lifecycle`; a handler object is one request.
- LifecycleVerdicts.VerdictsAreSingle: a cache that fails is assumed not to raise the backend's own unavailability error, as neither cache does.
- Adapter selection, route reasons and headers: the canary arm of a route is an input of the step that makes it.
- Quota charging and cache lookup before routing are outcomes of the arrival step in `Lifecycle`; the quotas and the exact cache have modules of their own.
- The semantic, decision and prefix caches beyond what is written to the semantic one.
- Canary status reports, canary plans, and the buckets of SHA-256: the share of traffic is not a provable percentage.
- Reading a safetensors file up to its parsed header, pickle scanning and file walking.
- The classifier's arithmetic, token verification, the load tracker's average, rollout, configuration and telemetry: library calls or single branches.
- Rounding of floats, and the interpreter's scheduling between awaits.
