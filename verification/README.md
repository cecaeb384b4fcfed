# Headlamp: a Dafny model of the caching and reconciliation layer

The project models the stateful core of Headlamp's backend, with HTTP and Kubernetes calls
reduced to parameters, and proves what that state keeps over every call, run and interleaving.
`dafny verify dfyconfig.toml` checks everything.

| file | what it models |
|---|---|
| `Wrappers.dfy` | the optional value |
| `GoStrings.dfy` | the functions of Go's `strings` package that the modelled code calls |
| `KeyCodec.dfy` | the response-cache key: percent escaping in two passes, four fields joined by `+` |
| `TtlCache.dfy` | the cache with deadlines and a background sweep, refined to a map that is never swept |
| `ApiPaths.dfy` | the two parsers of Kubernetes API paths, related to one printer of requests |
| `Invalidation.dfy` | which response keys an informer event removes |
| `ContextCleanup.dfy` | `SyncWatchers` and the purge of removed contexts |
| `ClientsetRegistry.dfy` | clientset cache, single-flight table and block list, one critical section at a time, in place |
| `ClientsetProtocol.dfy` | any number of goroutines in `GetClientSet` against evictions, janitor ticks and re-activations |
| `ClientsetReuse.dfy` | what calls get from that cache: which clientset, and how long |
| `InventoryModel.dfy`, `InventoryRuns.dfy`, `InventoryConvergence.dfy` | the Cluster Inventory runner as a state machine, its invariant over runs, and convergence of a reconcile |
| `InventoryHistory.dfy` | what each event of the runner does, and what a run leaves recorded, told by its events |
| `InventoryLocks.dfy` | activation and cancellation of root states, one critical section at a time |
| `InventoryStore.dfy` | the context store against the maps, one critical section at a time |
| `InventoryRunner.dfy` | the same runner as a class whose maps are mutated in place |
| `Cookies.dfy` | token cookies against a browser jar (section 5.3 of RFC 6265) |
| `Connection.dfy` | the status protocol of one multiplexed connection |
| `Scanner.dfy` | the grouped, cancellable rule scan |
| `Debounce.dfy` | the store listener that debounces `SyncWatchers`, and in which order its syncs end |
| `RateLimiter.dfy` | `sometimes`, the fixed-window limiter |
| `Annotations.dfy` | `convertAnnotations`, which builds nested objects in place |

Code that mutates is a class or a method, proved against functions on values; the theorems over
runs and interleavings are about those same functions. Go strings are Dafny strings, one
character per byte. Times are integers. A clock reading never precedes an earlier one, and any
time may pass between two readings.

## What the proofs found

- Evicting context `c` drops every clientset whose key starts with `c` NUL, including those of
  the stateless contexts `c` NUL user, but blocks re-caching only for keys whose last-NUL prefix
  is `c`. `EvictionBlocksExactly` gives the exact condition, `StatelessContextIsNotBlocked` an
  instance. Hence a sweep takes clientsets of active contexts too: exactly of those that extend,
  behind a NUL, a context that is due (`ActiveClientsetsLost`, `RemovalReachesUserContexts`).
- A clientset key is attributed to its own context exactly when the bearer token has no NUL
  (`KeyAttributedToItsContext`).
- The double-check in `createAndCacheClientSet` never finds a fresh clientset (`DoubleCheckIsRedundant`).
- Between `recordRootProfile` and `recordSyncedProfile` the initial sync may complete with a
  listing that predates the profile; the profile is then recorded under no root.
  `SectionContainment` says exactly when each critical section keeps profiles filed,
  `StaleListingLosesTrack` builds the losing order.
- The context store and the maps can part in exactly two ways (`StoreAgreementStep`): a root is
  superseded between `AddContext` and `recordSyncedProfile`, and the context stays without a
  record (`SupersededRootLeavesOrphan`); or a removal decided under the lock comes after the
  context was added anew (`LateRemovalTakesContext`). `InventoryAgreement` is stated for callbacks
  that are not interleaved, where neither happens.
- The token cookies have the path `/clusters/<cluster>`, and the OIDC callback is another path: its
  request brings no cookies, so the old chunks are not cleared but written over. If the jar held
  more chunks than the new token has, the old rest is read behind it (`CallbackLeavesOldChunk`).
  `CookieJarKeepsToken` gives the exact condition under which the last token is read.
- `parseAPIResourceRequest` does not give back an unnamed namespaced resource called `status` or
  `finalize`, nor a subresource of a namespace other than those two (`ParseInvertsPrint`). The
  cache key carries what that parse reads, except when it reads an object of the cluster-scoped
  resource `namespaces`, or a subresource of a cluster-scoped object named `namespaces`
  (`ParsersAgree`, over the parse itself).
- Nothing keeps two syncs apart once both are past the gate: an older one may return last with
  keys that miss the newest change (`StaleSyncCanFinishLast`). While the newest sync is under way,
  the last word is sure to be up to date exactly when every sync under way has read keys at least
  as new as the newest notification (`LastWordIsUpToDate`).
- The limiter runs at most 2 * threshold - 1 times in a span shorter than its interval, and for
  every threshold, and every interval of at least two ticks, some history reaches that
  (`BurstBound`, `BurstBoundIsTight`).
- `convertAnnotations` stores every value under its own key exactly for records whose keys are
  prefix-free by segments, have no inherited name such as `constructor` before the last segment,
  and do not end in `__proto__` (`ConvertAnnotations`, `ProtoKeyIsLost`, `ConstructorKeyIsNotConvertible`).

Some exceptions in the theorems concern inputs the program never receives.

- Session TTLs are positive by configuration (backend/pkg/config/config.go:152-154); a negative
  one would make `SetTokenCookie` delete what it sets.
- Informers watch no Namespace objects (backend/pkg/k8cache/cacheInvalidation.go:156-169); an event
  about one would leave its named key. `WatchedEventsAreCovered` has no exception.
- No caller closes a connection with an error (backend/cmd/multiplexer.go:564, 1093 and 1123);
  one that did would have the status lose the text its client was told
  (`CloseWithErrorLosesText`). `ClientKnowsStatus` has no exception.
- `GetContextKeys` fails only if the cache's `GetAll` does, which never happens
  (backend/pkg/cache/cache.go:125-142); a failed read would not be retried until the next
  notification (`QuiescentMeansSynced`).

## Model

| member | source | states |
|---|---|---|
| KeyCodec.UnescapeInvertsEscape | backend/pkg/k8cache/cacheStore.go:169-182 | the two-pass unescape gives back every byte string the two-pass escape was given |
| KeyCodec.PassOrderMatters | backend/pkg/k8cache/cacheStore.go:177-182 | undoing the passes in the other order would corrupt the context name "%2B" |
| KeyCodec.EscapedHasNoDelimiter | backend/pkg/k8cache/cacheStore.go:169-174 | an escaped segment contains no "+" |
| KeyCodec.SplitRecoversFields | backend/pkg/k8cache/context_cleanup.go:27-38 | the four-way split of a built key, bounded or not, gives the four escaped fields |
| KeyCodec.BuildCacheKeyInjective | backend/pkg/k8cache/cacheStore.go:196-201 | equal keys come from equal group, kind, namespace and context |
| KeyCodec.BuiltKeyBelongsExactly | backend/pkg/k8cache/context_cleanup.go:27-38 | a built key belongs to its own non-empty context and to no other |
| KeyCodec.BelongsImpliesAttributed | backend/pkg/k8cache/context_cleanup.go:102-107 | whatever the key, the sweep attributes it to the context it belongs to |
| TtlCache.SweepingIsInvisible | backend/pkg/cache/cache.go:108-190 | over any run with a monotone clock, sweeps with stale clock readings included, readers see what a never-swept map of deadlines shows |
| TtlCache.NoResurrection | backend/pkg/cache/cache.go:201-216 | a key that is dead stays dead until it is set again, UpdateTTL included |
| TtlCache.ValuesLeaveExactlyOnce | backend/pkg/cache/cache.go:145-190 | every stored value is overwritten or deleted, or reported as evicted, or still there, and only one of these |
| TtlCache.ReadsFollowHistory | backend/pkg/cache/cache.go:80-216 | after any run a key is read exactly as its own sets, deletes and timely extensions say, until set or extension time plus TTL |
| TtlCache.SetThenRead | backend/pkg/cache/cache.go:80-122 | a value set is read at a later instant exactly within its TTL, always for a zero TTL |
| TtlCache.ExtendThenRead | backend/pkg/cache/cache.go:201-216 | a value readable at the check is then read exactly until the extension plus the new TTL |
| TtlCache.SweepLeavesExactly | backend/pkg/cache/cache.go:157-167 | a sweep leaves exactly the entries without a deadline or whose deadline is not past |
| TtlCache.RefinesStep | backend/pkg/cache/cache.go:80-216 | each operation, and a sweep however old its clock reading, keeps the swept store equal to the plain one up to entries whose deadline has passed |
| TtlCache.Cache.SetWithTTL | backend/pkg/cache/cache.go:80-95 | the entry is there with its deadline (none for a zero TTL) and no other entry changes |
| TtlCache.Cache.Get | backend/pkg/cache/cache.go:108-122 | the answer is that of the never-swept map at the instant of return |
| TtlCache.Cache.GetAll | backend/pkg/cache/cache.go:125-142 | every selected entry still live at the end is returned, none that was dead at the start |
| TtlCache.Cache.UpdateTTL | backend/pkg/cache/cache.go:201-216 | a live entry keeps its value and gets the deadline now plus TTL, a dead one is untouched; the error tells whether the entry had been swept |
| TtlCache.Cache.CleanUp | backend/pkg/cache/cache.go:157-185 | after a reading taken before the lock: exactly the entries whose deadline precedes it go, and each is reported once when a callback is set |
| ApiPaths.ParseAPIResourceRequest | backend/pkg/k8cache/authorization.go:407-461 | the step-by-step parse equals the segment grammar, failing on the same paths |
| ApiPaths.ParseInvertsPrint | backend/pkg/k8cache/authorization.go:411-461 | parsing a printed request gives it back, except for exactly two families of paths |
| ApiPaths.ExtractNamespace | backend/pkg/k8cache/cacheStore.go:134-164 | the loop finds the segment after the first "namespaces", and the last segment as kind |
| ApiPaths.UrlGroup | backend/pkg/k8cache/cacheStore.go:101-130 | GetAPIGroup finds group and version of a printed request, direct or proxied |
| ApiPaths.GeneratedKey | backend/pkg/k8cache/cacheStore.go:206-221 | the key of a printed request names its group, its last component, its namespace and the context |
| ApiPaths.ParsersAgree | backend/pkg/k8cache/cacheStore.go:101-221 | the cache key carries the group, namespace and last component that parseAPIResourceRequest reads, exactly unless it reads an object of, or a subresource of an object named, "namespaces" |
| ApiPaths.QueryIsCut | backend/pkg/k8cache/cacheStore.go:134-139 | a URL is read as its path without the query |
| ApiPaths.TrailingSlashIsIgnored | backend/pkg/k8cache/cacheStore.go:101-164 | a slash at the end of a path does not change its key |
| Invalidation.DeleteKeys | backend/pkg/k8cache/cacheInvalidation.go:46-57 | the key and its all-namespaces form are removed, nothing else |
| Invalidation.BlankingTheNamespace | backend/pkg/k8cache/cacheInvalidation.go:46-57 | blanking the third "+" field of a built key gives the key built for the empty namespace |
| Invalidation.InvalidateCacheKeysForResourceEvent | backend/pkg/k8cache/cacheInvalidation.go:375-395 | exactly the event's two list keys and named key go |
| Invalidation.InvalidationCoverage | backend/pkg/k8cache/cacheInvalidation.go:375-395 | the entries of the namespaced list, the all-namespaces list and the named object go, the last exactly when it is no namespace |
| Invalidation.WatchedEventsAreCovered | backend/pkg/k8cache/cacheInvalidation.go:156-181 | for every resource informers watch all three entries go |
| Invalidation.OnlyRequestKeysRemoved | backend/pkg/k8cache/cacheInvalidation.go:375-395 | every removed key is the key of one of those three requests |
| Invalidation.EventStaysInItsContext | backend/pkg/k8cache/cacheInvalidation.go:375-395 | an event never removes a key belonging to another context |
| ContextCleanup.Sweeper.PurgeCacheForContext | backend/pkg/k8cache/context_cleanup.go:41-68 | no live entry of the context remains, and no entry of another context is touched |
| ContextCleanup.Sweeper.CollectCachedContextKeys | backend/pkg/k8cache/context_cleanup.go:72-110 | exactly the contexts mentioned by a response, a clientset or a creation under way, up to responses expiring meanwhile |
| ContextCleanup.Sweeper.CleanupRemovedContext | backend/pkg/k8cache/context_cleanup.go:121-124 | the context's responses are gone and its clientsets evicted |
| ContextCleanup.Sweeper.CancelRemoved | backend/pkg/k8cache/cacheInvalidation.go:220-238 | exactly the watched inactive contexts are cancelled, unregistered and cleaned up |
| ContextCleanup.Sweeper.CleanCached | backend/pkg/k8cache/cacheInvalidation.go:240-250 | exactly the collected inactive contexts are cleaned up besides |
| ContextCleanup.Sweeper.SyncWatchers | backend/pkg/k8cache/cacheInvalidation.go:210-251 | exact purge: no observable response of an inactive context is left and no other response dropped; a clientset goes exactly when a context watched or mentioned before the call, and inactive, reaches it; no active context is blocked |
| ContextCleanup.DueIsReached | backend/pkg/k8cache/cacheInvalidation.go:220-250 | the first loop hides nothing: a context mentioned before it is still mentioned after it, or reaches only clientsets dropped already |
| ContextCleanup.DueIsStable | backend/pkg/k8cache/cacheInvalidation.go:240-250 | the two bounds on what a sweep reaches coincide when no response expires during it |
| ContextCleanup.ActiveClientsetsLost | backend/pkg/k8cache/authorization.go:176-197 | an active context loses its clientsets exactly when it extends a due context behind a NUL |
| ContextCleanup.RemovalReachesUserContexts | backend/pkg/k8cache/authorization.go:176-197 | with "c" removed and "c NUL u" active, the clientsets of "c NUL u" go |
| ClientsetRegistry.ClientsetRegistry.GetCachedClientSet | backend/pkg/k8cache/authorization.go:232-258 | the key's own fresh clientset is returned and touched, a stale one dropped |
| ClientsetRegistry.ClientsetRegistry.UseJoinOrCreate | backend/pkg/k8cache/authorization.go:363-389 | the locked decision of GetClientSet: use the cache, join the filed entry, or file a new one |
| ClientsetRegistry.ClientsetRegistry.KeepCreated | backend/pkg/k8cache/authorization.go:277-304 | a created clientset is stored unless a fresh one is there or its prefix is blocked |
| ClientsetRegistry.ClientsetRegistry.FinishInFlightClientset | backend/pkg/k8cache/authorization.go:327-338 | the outcome is recorded, the entry unfiled and its channel closed |
| ClientsetRegistry.ClientsetRegistry.EvictClientsetsForCluster | backend/pkg/k8cache/authorization.go:176-208 | the prefix is blocked and exactly the clientsets under it go |
| ClientsetRegistry.ClientsetRegistry.ClearBlockedForActiveContexts | backend/pkg/k8cache/authorization.go:222-229 | exactly the active contexts are unblocked |
| ClientsetRegistry.ClientsetRegistry.HasActivityForPrefix | backend/pkg/k8cache/authorization.go:139-156 | true exactly when a cached or in-flight key lies under the prefix |
| ClientsetRegistry.ClientsetRegistry.PruneBlockedClientsetPrefixes | backend/pkg/k8cache/authorization.go:160-171 | blocks go exactly when old and without activity |
| ClientsetRegistry.ClientsetRegistry.EvictExpiredClientsets | backend/pkg/k8cache/authorization.go:111-135 | a janitor tick drops exactly the stale clientsets, then prunes blocks |
| ClientsetRegistry.KeyAttributedToItsContext | backend/pkg/k8cache/authorization.go:212-218 | the last-NUL prefix of a call's key is its context exactly when the token has no NUL |
| ClientsetRegistry.EvictionBlocksExactly | backend/pkg/k8cache/authorization.go:176-218 | an evicted key cannot be cached again right away exactly when its own prefix is blocked |
| ClientsetRegistry.StatelessContextIsNotBlocked | backend/pkg/k8cache/authorization.go:176-218 | evicting "c" lets a clientset of "c NUL u" come straight back |
| ClientsetProtocol.InvStep | backend/pkg/k8cache/authorization.go:111-396 | every step of every goroutine, eviction, janitor or re-activation keeps the protocol's invariant |
| ClientsetProtocol.SingleFlight | backend/pkg/k8cache/authorization.go:310-396 | one creator per key, filed under it; channels close once; whoever returns through an entry returns its recorded outcome, whoever returns without one a clientset created for its own key |
| ClientsetProtocol.WaitersAreServed | backend/pkg/k8cache/authorization.go:310-338 | a waiter can be woken or its creator is still under way |
| ClientsetProtocol.DoubleCheckIsRedundant | backend/pkg/k8cache/authorization.go:280-291 | the creator always goes on with its own clientset |
| ClientsetProtocol.StoredExactlyWhenNotBlocked | backend/pkg/k8cache/authorization.go:293-303 | a created clientset enters the cache exactly when its prefix is not blocked at that moment |
| ClientsetProtocol.JanitorKeepsBlock | backend/pkg/k8cache/authorization.go:111-171 | the janitor cannot lift a block while a creation under it is filed in flight |
| ClientsetProtocol.EvictionBarrier | backend/pkg/k8cache/authorization.go:139-304 | in every interleaving, the clientset of an entry filed before an eviction of its context, stored already or not, is never in the cache afterwards unless the context is re-activated before its creator stores it |
| ClientsetProtocol.BlockedContextsStayEmpty | backend/pkg/k8cache/authorization.go:176-304 | in every reachable state nothing is cached under a blocked context |
| ClientsetReuse.OwnClientset | backend/pkg/k8cache/authorization.go:232-396 | in every interleaving whoever returns with a clientset returns with one created for its own context and token |
| ClientsetReuse.CallIsServed | backend/pkg/k8cache/authorization.go:232-258 | a call is answered at once exactly when its key is cached and was used within the TTL, and with that clientset |
| ClientsetReuse.CreationIsUse | backend/pkg/k8cache/authorization.go:293-303 | an unblocked creation is cached from its store step on |
| ClientsetReuse.ReusedWithinTTL | backend/pkg/k8cache/authorization.go:111-396 | through any run that does not evict it, a call within the TTL of the last use gets the same clientset at once |
| ClientsetReuse.JanitorKeepsExactly | backend/pkg/k8cache/authorization.go:111-171 | a janitor tick leaves exactly the clientsets used within the TTL, and exactly the blocks that are young or have activity under them |
| InventoryRuns.MakeProfileKeyInjective | backend/pkg/clusterinventory/clusterinventory.go:863-866 | profile keys of slash-free namespaces and names determine root, namespace and name |
| InventoryRuns.SectionKeepsOwnership | backend/pkg/clusterinventory/clusterinventory.go:603-853 | every critical section keeps profile keys filed under the root they name |
| InventoryRuns.SectionContainment | backend/pkg/clusterinventory/clusterinventory.go:603-853 | every critical section keeps recorded profiles filed, recordSyncedProfile exactly when its key still is |
| InventoryRuns.StaleListingLosesTrack | backend/pkg/clusterinventory/clusterinventory.go:603-672 | an initial sync between recording and syncing a profile loses track of it |
| InventoryRuns.SupersededForever | backend/pkg/clusterinventory/clusterinventory.go:441-524 | a superseded root state never becomes current again and its callbacks change nothing at any later point of any run |
| InventoryHistory.DeleteRemoves | backend/pkg/clusterinventory/clusterinventory.go:465-476 | after a delete by a current root its key is filed and recorded nowhere, its context is out of the store, and nothing else changed |
| InventoryHistory.UnselectedIsRemoved | backend/pkg/clusterinventory/clusterinventory.go:451-456 | so after an upsert that no longer matches the selector |
| InventoryHistory.SelectedIsRecorded | backend/pkg/clusterinventory/clusterinventory.go:458-524 | a selected profile is filed, and recorded and stored under its name if its context is built and accepted |
| InventoryHistory.InitialSyncDrops | backend/pkg/clusterinventory/clusterinventory.go:615-654 | the initial sync drops exactly the profiles of its root that are not listed, with their contexts |
| InventoryHistory.NoCRDStops | backend/pkg/clusterinventory/clusterinventory.go:833-853 | a missing CRD stops the root, drops exactly what it filed, and marks its server for exactly the TTL |
| InventoryHistory.RecordedByHistory | backend/pkg/clusterinventory/clusterinventory.go:205-853 | after any run a profile is recorded exactly when its events say so: synced, and since then not deleted, deselected, unlisted or its root taken out |
| InventoryHistory.SeedsUntouched | backend/pkg/clusterinventory/clusterinventory.go:493-804 | over any run the contexts that are not the inventory's are exactly those set and not dropped by others |
| InventoryRuns.InvStep | backend/pkg/clusterinventory/clusterinventory.go:205-853 | every reconcile, callback and seed change keeps agreement, ownership and no-leak |
| InventoryRuns.InventoryAgreement | backend/pkg/clusterinventory/clusterinventory.go:441-804 | after any run of whole callbacks each recorded profile has one owning root and the store's inventory contexts are exactly the recorded ones |
| InventoryRuns.NoLeakedInformer | backend/pkg/clusterinventory/clusterinventory.go:280-769 | after any run each activated root state is current or cancelled, never both, and live informers number as many as roots |
| InventoryStore.StoreAgreementStep | backend/pkg/clusterinventory/clusterinventory.go:493-804 | each critical section, add, recording and removal keeps store and maps agreed exactly unless it records for a superseded root or removes a context added anew |
| InventoryStore.StoreAgreement | backend/pkg/clusterinventory/clusterinventory.go:493-804 | over every interleaving without those two steps the store holds the recorded and the just added contexts, and besides only those on their way out |
| InventoryStore.SupersededRootLeavesOrphan | backend/pkg/clusterinventory/clusterinventory.go:516-523 | a root replaced between adding and recording leaves a context no profile records |
| InventoryStore.LateRemovalTakesContext | backend/pkg/clusterinventory/clusterinventory.go:634-653 | a removal after the lock takes the context of a profile recorded again in between |
| InventoryLocks.InvStep | backend/pkg/clusterinventory/clusterinventory.go:411-853 | every critical section and every later cancel keeps each root state in exactly one place: built, active, about to be cancelled, cancelled |
| InventoryLocks.NoLeakedInformerBetweenLocks | backend/pkg/clusterinventory/clusterinventory.go:696-853 | in every interleaving of sections, running informers number as many as roots and those about to be cancelled |
| InventoryLocks.DoomedIsSuperseded | backend/pkg/clusterinventory/clusterinventory.go:696-861 | a root state about to be cancelled, or cancelled, is not the current one |
| InventoryConvergence.ReconcileConverges | backend/pkg/clusterinventory/clusterinventory.go:205-318 | one reconcile makes each desired root active with its server and fingerprint, or inactive when marked, and leaves no other |
| InventoryConvergence.ReconcileIdempotent | backend/pkg/clusterinventory/clusterinventory.go:205-318 | a second reconcile with the same inputs changes nothing at all |
| InventoryHistory.ReconcileReachesStore | backend/pkg/clusterinventory/clusterinventory.go:205-318 | by the store: each non-inventory, non-internal context with a good configuration has its root active and up to date unless marked, so has the hub, and no other root is active |
| InventoryHistory.FailedListingKeepsRoots | backend/pkg/clusterinventory/clusterinventory.go:242-247 | when the store cannot be listed, its roots stay as they are |
| InventoryHistory.UncreatedStays | backend/pkg/clusterinventory/clusterinventory.go:302-305 | a root whose client cannot be created stays as it was |
| InventoryRunner.Runner.RemoveContexts | backend/pkg/clusterinventory/clusterinventory.go:797-804 | exactly the named contexts leave the store |
| InventoryRunner.Runner.PruneProfileLocked | backend/pkg/clusterinventory/clusterinventory.go:785-794 | the profile goes and its context name is returned, if it had one |
| InventoryRunner.Runner.PruneRootLocked | backend/pkg/clusterinventory/clusterinventory.go:772-782 | all profiles filed under the root go and their context names are returned |
| InventoryRunner.Runner.RecordRootProfile | backend/pkg/clusterinventory/clusterinventory.go:657-672 | a current root files the key; a superseded one changes nothing |
| InventoryRunner.Runner.RecordSyncedProfile | backend/pkg/clusterinventory/clusterinventory.go:603-612 | a current root records the context name; a superseded one changes nothing |
| InventoryRunner.Runner.PruneClusterProfile | backend/pkg/clusterinventory/clusterinventory.go:680-693 | key, profile and context go together (their absence afterwards: InventoryHistory.DeleteRemoves) |
| InventoryRunner.Runner.HandleClusterProfileUpsert | backend/pkg/clusterinventory/clusterinventory.go:441-524 | the upsert step of the state machine, selector verdict and failures included |
| InventoryRunner.Runner.HandleClusterProfileDelete | backend/pkg/clusterinventory/clusterinventory.go:465-476 | the delete step |
| InventoryRunner.Runner.CompleteRootSyncFromCache | backend/pkg/clusterinventory/clusterinventory.go:615-654 | the initial-sync step: filed keys become the listed ones, the rest is pruned |
| InventoryRunner.Runner.HandleNoCRDError | backend/pkg/clusterinventory/clusterinventory.go:479-490 | the no-CRD step: mark the server, stop, prune and cancel the current root |
| InventoryRunner.Runner.HasNoCRD | backend/pkg/clusterinventory/clusterinventory.go:807-822 | tells whether the mark is live and forgets an expired one |
| InventoryRunner.Runner.StopMissingRoots | backend/pkg/clusterinventory/clusterinventory.go:696-725 | exactly the missing roots are removed, pruned and cancelled |
| InventoryRunner.Runner.StopRoot | backend/pkg/clusterinventory/clusterinventory.go:728-751 | the root is removed, pruned and cancelled |
| InventoryRunner.Runner.StopAllRoots | backend/pkg/clusterinventory/clusterinventory.go:754-769 | every root is cancelled, no profile or context is touched |
| InventoryRunner.Runner.ActivateRoot | backend/pkg/clusterinventory/clusterinventory.go:411-423 | replaces a differing root and hands back its predecessor |
| InventoryRunner.Runner.ReconcileRoot | backend/pkg/clusterinventory/clusterinventory.go:280-318 | one root of a reconcile |
| InventoryRunner.Runner.ReconcileRoots | backend/pkg/clusterinventory/clusterinventory.go:205-235 | the reconcile step of the state machine |
| Cookies.SplitToken | backend/pkg/auth/cookies.go:174-187 | the loop cuts the token into the chunk sequence |
| Cookies.ChunksRejoin | backend/pkg/auth/cookies.go:174-187 | chunks join to the token and hold 1 to size bytes each |
| Cookies.CookieNameInjective | backend/pkg/auth/cookies.go:96-100 | different chunk numbers give different cookie names |
| Cookies.CookieNamesApart | backend/pkg/auth/cookies.go:43-54 | cookies of different sanitized cluster names never share a name |
| Cookies.GetTokenFromCookie | backend/pkg/auth/cookies.go:114-137 | joins the numbered cookies up to the first gap, and terminates |
| Cookies.ClearTokenCookie | backend/pkg/auth/cookies.go:140-171 | expires the numbered cookies up to the first gap |
| Cookies.SetTokenCookie | backend/pkg/auth/cookies.go:78-111 | clears, then sets one cookie per chunk; refuses the empty token |
| Cookies.JarHoldsChunks | backend/pkg/auth/cookies.go:78-187 | after any run, sets by requests without cookies included, the jar holds exactly the chunks written and not cleared or overwritten, numbered from 0 |
| Cookies.LastTokenIsLastSet | backend/pkg/config/config.go:152-154 | with the session TTLs the configuration admits, the last token is the one last set and not cleared since |
| Cookies.CookieJarKeepsToken | backend/pkg/auth/cookies.go:78-187 | after any run the chunks are contiguous from 0, of 1 to 3800 bytes, and all read; they spell the last token exactly when its set came with the jar or has at least as many chunks as were held |
| Cookies.OverlayReads | backend/pkg/auth/cookies.go:95-110 | a token written over more chunks than its own is read with the old rest behind it |
| Cookies.CallbackLeavesOldChunk | backend/cmd/headlamp.go:1154-1154 | a one-chunk token set by the OIDC callback over a two-chunk token is read with the old second chunk |
| Connection.WSConnection.UpdateStatus | backend/cmd/multiplexer.go:266-307 | a closed connection ignores it; otherwise the status is the given one, an attached client is told it, and a close follows |
| Connection.WSConnection.WriteStatusLocked | backend/cmd/multiplexer.go:309-340 | writes the present status unless closed |
| Connection.WSConnection.SafeClose | backend/cmd/multiplexer.go:343-373 | the first call closes, tells an attached client and closes Done; later calls do nothing |
| Connection.WSConnection.CloseForClient | backend/cmd/multiplexer.go:709-738 | detaches the client silently and closes |
| Connection.ClientKnowsStatus | backend/cmd/multiplexer.go:266-373 | in every interleaving of the calls the source makes, an attached client was last told exactly the present status, error text included |
| Connection.StatusAgreement | backend/cmd/multiplexer.go:266-373 | the same for any calls, up to the error text of a close; and Done is closed at most once, exactly once when some safeClose has returned |
| Connection.ReportsAreHeard | backend/cmd/multiplexer.go:266-340 | until it closes, an attached connection's status is the last one reported, and its client got every report, in order |
| Connection.CloseIsHeard | backend/cmd/multiplexer.go:343-359 | on closing an attached client hears StateClosed once, and the status is StateClosed without an error |
| Connection.DetachingIsSilent | backend/cmd/multiplexer.go:727-737 | a client whose connections are closed hears nothing more |
| Connection.ReturnedMeansDone | backend/cmd/multiplexer.go:343-373 | nobody returns from safeClose while another goroutine is still closing |
| Connection.ClosedIsFinal | backend/cmd/multiplexer.go:266-373 | once closed, the state stays closed and no STATUS is written |
| Scanner.GroupedOrder | backend/pkg/clusterdoctor/scanner.go:62-166 | the order names every enabled rule once, categories by first appearance, rules in original order |
| Scanner.Categories | backend/pkg/clusterdoctor/scanner.go:152-166 | each category once, in first-seen order |
| Scanner.Evaluate | backend/pkg/clusterdoctor/scanner.go:95-129 | all findings of a rule are appended in order, or it is counted as skipped |
| Scanner.RunCategory | backend/pkg/clusterdoctor/scanner.go:80-134 | a category extends the evaluated prefix or cuts the scan short |
| Scanner.Run | backend/pkg/clusterdoctor/scanner.go:62-148 | the evaluated rules are a prefix of the grouped order; every raw finding of theirs is reported once, in order of rule and finding, and nothing else; completed exactly when the prefix is all |
| Scanner.ReportedInFull | backend/pkg/clusterdoctor/scanner.go:95-129 | what accumulates rule by rule is every raw finding in its place and the number of rules without an outcome |
| Debounce.InvStep | backend/cmd/server.go:146-181 | every change, notification, expiry, gate, read and sync keeps the invariant |
| Debounce.NothingLost | backend/cmd/server.go:146-181 | the newest generation is pending or past the gate, none passes twice, syncs read late enough |
| Debounce.QuiescentMeansSynced | backend/cmd/server.go:146-181 | once settled, a sync for the newest notification has returned, with keys at least as new, unless reading them failed |
| Debounce.LastWordIsUpToDate | backend/cmd/server.go:164-179 | while the newest sync is under way, every way to settle ends with keys covering the newest notification exactly when all syncs under way read such keys |
| Debounce.StaleSyncCanFinishLast | backend/cmd/server.go:164-179 | a run without failures in which an older sync returns last with keys that miss the newest change |
| Debounce.Watcher.OnContextChange | backend/cmd/server.go:153-164 | the listener performs the notification step and keeps the invariant |
| Debounce.Watcher.TimerFired | backend/cmd/server.go:164-170 | the callback performs the gate step and goes on exactly when no notification came after its own |
| RateLimiter.Sometimes.Do | backend/pkg/exec/exec.go:143-165 | one call moves window and count and runs f as the limiter function says |
| RateLimiter.RateBound | backend/pkg/exec/exec.go:129-165 | f runs at most threshold times for each interval begun since the first call |
| RateLimiter.BurstBound | backend/pkg/exec/exec.go:129-165 | in a span shorter than the interval f runs at most 2 * threshold - 1 times |
| RateLimiter.BurstBoundIsTight | backend/pkg/exec/exec.go:143-165 | that bound is reached for every threshold and every interval of at least two ticks |
| RateLimiter.IdleThenRuns | backend/pkg/exec/exec.go:143-165 | after any history a call an interval or more after all others runs f |
| RateLimiter.WindowRunsThreshold | backend/pkg/exec/exec.go:143-165 | after an idle interval the first threshold calls of the window all run f, and no other in it does |
| Annotations.Converter.ConvertAnnotations | app/electron/plugin-management.ts:843-865 | in any key order, succeeds and is faithful exactly for prefix-free records with no inherited name before a last segment and no last "__proto__"; then nothing else is found in the object |
| Annotations.Converter.Enter | app/electron/plugin-management.ts:846-862 | a key's value is stored exactly when no step reads an inherited name and the last can be stored; nothing stored before is lost |
| Annotations.Converter.Descend | app/electron/plugin-management.ts:852-860 | one step down: the own object, a new one where nothing is found, or out of the objects being built through an inherited name or a non-empty string |
| Annotations.ProtoKeyIsLost | app/electron/plugin-management.ts:853-854 | the prefix-free record {"__proto__": "x"} is not stored |
| Annotations.ConstructorKeyIsNotConvertible | app/electron/plugin-management.ts:856-859 | the prefix-free record with the key "constructor/name" is not convertible |
| Annotations.FaithfulNeedsPrefixFree | app/electron/plugin-management.ts:843-865 | no object holds, in own properties, a record with a key inside another |
| Annotations.TreeIsFaithful | app/electron/plugin-management.ts:843-865 | the shape kept while building makes walking along keys and flattening inverse to each other |
| Annotations.SplitKeysFaithful | app/electron/plugin-management.ts:849-849 | splitting keys at "/" loses nothing |

## Left out

- HTTP handlers, access reviews, response bodies, gzip and JSON, and a nil response cache.
- `runWatcher` and the uniqueness of watchers per context: its deferred deletes can drop a newer registration.
- Requests that store responses or clientsets while `SyncWatchers` runs: the purge is exact only without them, so the model runs it alone.
- ContextCleanup.Sweeper.PurgeCacheForContext: entries already dead when they are listed may stay in the map; they are unobservable and the response sweep removes them.
- TtlCache.Cache.GetAll: each entry is judged at its own clock reading, so entries dying during the call may or may not be returned.
- TtlCache.Cache.CleanUp: the callback's own effects are not modelled, only which values it is given; map iteration order is arbitrary.
- ContextCleanup.Sweeper.SyncWatchers: a context mentioned only by responses that expire during the call may or may not be cleaned up; the contract bounds the effect from both sides.
- ClientsetRegistry: the exec plugin and REST client behind `clientsetCreator`; a creation returns a fresh pointer or an error.
- ClientsetProtocol.EvictionBarrier: a creation whose `GetClientSet` comes after the eviction is refused only while the block lasts (`StoredExactlyWhenNotBlocked`); it assumes the bearer token has no NUL, without which the block list speaks of another context.
- ClientsetProtocol.WaitersAreServed: states that a wake-up cannot be lost, not that the creator's call into Kubernetes returns.
- ApiPaths.ParsersAgree: for clusters, groups or versions called "namespaces" nothing is claimed.
- InventoryRuns.InventoryAgreement: callbacks are not interleaved with each other (for interleavings see `SectionContainment` and `InventoryStore`), context names do not collide with each other or with other contexts, and `AddContext`/`RemoveContext` do not lose or rename contexts.
- InventoryRunner.Runner.HandleClusterProfileUpsert: performs the checks between its sections, but nothing interleaves for them to catch; `InventoryStore` interleaves the sections, and lets a callback pass those checks at any time.
- InventoryRunner.Runner.ReconcileRoot: another goroutine activating the same root in between, which the single reconcile loop excludes (`InventoryLocks` admits it).
- InventoryRunner.Runner.ReconcileRoots: reads of the store's contexts happen at one instant; the context being cancelled half-way is not modelled.
- Informers themselves: whether one runs is its root state being activated and not cancelled. SHA-256 fingerprints and label selectors are parameters.
- Cookies: names of different clusters that sanitize alike, expiry by age, and bytes that Go's cookie encoder drops (bearer tokens have none).
- Cookies.CookieJarKeepsToken: a request brings the present jar or no cookies; two requests under way at once, answered out of order, are not modelled, nor is a negative session TTL on a request without cookies.
- InventoryRuns.NoLeakedInformer: reconciles are atomic here; `InventoryLocks` interleaves them.
- Connection: the socket, the heartbeat and the connection table; writes to the client succeed.
- Scanner: progress events, and the content of checks (an outcome per rule).
- Scanner.Run: the context is polled when the source polls it; a check that fails because of cancellation counts as failed.
- RateLimiter.RateBound: assumes a positive interval and a clock that does not go back.
- Annotations.Converter.ConvertAnnotations: speaks of own properties of the object built. What happens past a built-in object or inside a string is left open (it may throw, or change what later names inherit), and keys are those of the record, not ones that become enumerable during the loop. A value can be readable through a built-in object and still not be stored under its key.
- The reader `getExtraFiles`, a validation loop over the converted object.
- OIDC, Helm, the Electron shell, port forwarding, role and branding configuration: easy or not visible as state.
