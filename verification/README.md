# RenderMesh in Dafny

A model of the parts of RenderMesh that decide what is served and when it changes, with proofs about
every run of them. `dafny verify dfyconfig.toml` checks the whole project with Dafny 4.11.

**The refresh of an origin.** A refresh takes the origin's lock, lists the remote, diffs the listing
against the previous freshness index, stages a copy of the live mirror with only the changed keys
downloaded, checks it (activation barrier, edge config, templates), swaps it in with a backup, writes
four in-memory stores and purges the CDN. It is modelled three times, and each level is tied to the next:

- `RefreshProtocol` is a state machine over events: refresh steps, faults, and arbitrary remote writes
  in between. `RefreshInvariant` and `RefreshTheorems` prove what every run keeps, `Deployment` adds a
  publisher, `RefreshSystem` puts any number of origins and callers behind the locks. `RefreshFaults`
  says exactly when the results survive the faults that the code does not guard against, and
  `RefreshWitness` has concrete runs in which they do not.
- `FileTree`, `TreeWalk`, `TreeCopy`, `MirrorLayout`, `MirrorSync`, `MirrorPlaces`, `MirrorPrune`,
  `MirrorStaging`, `MirrorSwap` and `MirrorRead` are the same work on a disk that is a finite tree and
  whose every operation may fail: the stack-driven copy and prune walks, the writes, the two renames.
- `OriginRefresh`, `TemplateStore`, `Edge`, `OriginRuntime` and `Freshness` hold the service as code
  that updates its stores in place, on that disk; `HtmlPages` says which objects are templates.

`StagingRefinement` shows that any gets and the prune of the protocol make the mirror that the disk
stages from the same answers. `RefreshRuns` builds a run of the protocol for every way a refresh can
end, and `RefreshSimulation` proves that each refresh of the service is such a run: from any protocol
state that shows the mirror and the stores it found, to one that shows those it left.

**The CloudFront SaaS side.** `TenantCloud` is a versioned tenant store that others write to as well;
`TenantReconcile` is the reconciler over it. `Purge` is the paginated listing and the invalidation
fan-out, `CallerReference` the length-prefixed bytes behind the caller reference, `CdnRefresh` the
purge plan.

**Answering a request.** `Hosts`, `HostNames`, `HostResolution` and `Cors` cover host names, `StaticRules`
redirects and rewrites, `Headers`, `Gateway`, `GatewayTheorems`, `GatewayDecisions` and `HookReplies` the
hook chain and the response. Lemmas named `...Exactly` say what a function decides letter by letter or field
by field, without the functions it is made of.

`Common`, `Text` and `Sorting` hold result types, the string functions of the standard library with
the order of `BTreeMap<String, _>`, and a stable sort.

## Assumptions

- Remote: a bucket changes in whole steps. A listing reports each key as it was at some instant between
  the start and the end of the listing, and looks at a configured activation barrier before any other
  key. Each key is fetched once per refresh, at any later instant.
- Keys on disk are canonical: accepted by `normalize_remote_key`, unchanged by trimming, without empty
  or `.` segments. The walks re-derive keys from path components, so other keys do not survive the way
  to the disk and back. `Canonical` is checkable on the key alone.
- The sidecar hash tells the keys in play apart where a result says so: those mirrored and those listed
  (`InjectiveOn`). No 64-character digest is injective on all strings; `PaddedIsInjective` has one for any
  set of short keys, `SharedSidecar` says what a collision costs. YAML and JSON parsing, template compilation,
  UTF-8, SHA-256 and URL parsing are functions of their input and nothing else is known of them.
- A failing disk operation has no effect, except that a failing directory removal may have removed any
  part of the directory.

## Results where the code does not do what one would expect

- A failed look at the live mirror (`metadata(...).is_ok()`) passes for an absent mirror: staging then
  starts empty, and the refresh succeeds without the unmodified keys. `PrepareStagingDir` returns
  `copied` for this, the protocol has the event `CopyMissed`. Publication order does not suffer. The
  mirror agrees with its listing exactly when no key was skipped (`MissedCopyAgreesExactly`), the
  registry is a rebuild exactly when no skipped key has a template (`MissedCopyRebuildsExactly`), and a
  changed deployment is complete exactly when no key was skipped (`MissedCopyDeploysExactly`).
  `MissedCopyRun` is a run from a fresh process that ends with an empty mirror under a full index.
- When only the removal of the backup fails, the refresh reports an error although the new mirror is
  live; stores and index stay old. A later refresh agrees with its listing exactly when no key listed as
  the kept index has it is wrong in the mirror left live (`CleanupFaultAgreesExactly`; for any earlier
  history `ActivationAgreesExactly`, `ActivationRebuildsExactly`, `ActivationDeploysExactly`). The same
  three say what follows when the old mirror could not be moved back: the next refresh begins from nothing.
  `CleanupFaultRun` is a run that ends with a new body served under an old entry.
- Downloads are written before deleted objects are pruned, and empty directories are never removed. A
  key that used to be a directory of another key, or that has a former key on its way, cannot be
  staged; the refresh fails again on every later attempt. `DownloadsSucceedExactly` and the last
  postcondition of `StageOriginDir` give the exact condition.
- Host entries that differ in spelling (`A.com`, `a.com:80`) can say the same and name different
  origins; then the order of the entries decides, the last exact entry and the first wildcard winning.
  The manifest keeps hosts in a `BTreeMap`, so that order is the byte order of the spellings.
  `HostResolution.OrderMattersExactly` says when it matters.
- A download is checked against its listing entry in key, size, entity tag and last-modified, not in
  content type or cache control, although a difference in those makes a key count as modified.

## Model

| member | source | states |
|---|---|---|
| Freshness.BuildOriginIndex | src/services/freshness.rs:63-92 | the loop over a listing builds `ListedFiles`, and the first refused key refuses the listing |
| Freshness.ListedFilesMeaning | src/services/freshness.rs:63-92 | a listing is accepted exactly when every key is, and then describes exactly the listed keys, each by its last entry |
| Freshness.AcceptedKeyIsRelative | src/repositories/sync.rs:523-548 | an accepted key is kept verbatim and never starts with a slash |
| Freshness.RemoteKeyExactly | src/repositories/sync.rs:523-548 | a key is accepted as it stands exactly when it is relative, without control characters, has no `..` between slashes and is not the metadata directory or below it |
| Freshness.DiffOriginIndexes | src/services/freshness.rs:94-130 | the two loops compute the diff `DiffOf` of the two indexes |
| Freshness.DiffPartitions | src/services/freshness.rs:94-130 | added, modified and unmodified partition the new keys; modified, removed and unmodified the known ones |
| Freshness.TouchedMeansDiffers | src/services/freshness.rs:94-140 | a key is in one of the three change sets exactly when its presence or source state differs |
| Freshness.NoChangesMeansSameSource | src/services/freshness.rs:94-140 | the diff is free of changes exactly when no key differs |
| Freshness.ListedTwice | src/services/freshness.rs:63-140 | two listings read at any two times: a key in both is unmodified exactly when its last summary is the same in both, and modified otherwise |
| Freshness.ListedOnce | src/services/freshness.rs:94-130 | a key is added exactly when the new listing alone has it, removed exactly when the old one alone has it |
| Freshness.SameListingNoChanges | src/services/freshness.rs:63-140 | the same summaries read at two times give no change and nothing to download |
| CdnRefresh.PlanCoversEveryChange | src/services/cdn_refresh.rs:168-218 | there is a plan exactly when some key differs, and it reaches every key that does |
| CdnRefresh.PathsNameOnlyTouched | src/services/cdn_refresh.rs:208-218 | every purged path is the path of a touched key |
| CdnRefresh.UrlsNameOnlyTouched | src/services/cdn_refresh.rs:184-196 | every purged URL is a prefix with the path of a touched key |
| CdnRefresh.PathCountIsChangeCount | src/services/cdn_refresh.rs:208-230 | the path count is the sum of the change sets exactly when no touched key is another one with a leading slash |
| CdnRefresh.ListedDiffsCountExactly | src/services/cdn_refresh.rs:168-230 | for diffs of accepted listings the counts of plan, paths and URLs are exact |
| CdnRefresh.PlanInPlainWords | src/services/cdn_refresh.rs:168-238 | for relative keys, which all accepted ones are: a plan exists exactly when some key was touched; its mode is that of strategy and prefixes; its paths, ascending, are the touched keys behind a slash, its URLs those behind each prefix without its last slashes, and nothing else |
| CdnRefresh.SameListingNoPlan | src/services/cdn_refresh.rs:168-198 | the same summaries read at two times give no plan |
| LocalMirror.ValidatedMatches | src/repositories/sync.rs:189-216 | a download passes exactly when its key is the listed one and it matches the entry in size and in any listed tag and time |
| LocalMirror.SameStateMatchesSame | src/services/freshness.rs:132-140 | entries in the same source state match the same objects, which is what lets an unmodified key be skipped |
| Edge.BarrierDecides | src/services/origin_refresh.rs:682-706 | with the barrier file present the config is what that file parses to, or the mirror is rejected |
| Edge.SixPlaces | src/services/origin_refresh.rs:31-56 | the first of the six files present decides, in this order, and with none of them the default |
| Edge.ParsedExactly | src/services/origin_refresh.rs:682-706 | a file is a configuration exactly when its bytes decode and the text parses |
| Edge.EdgeConfigStore.Get | src/services/edge_config_store.rs:36-45 | a config is returned exactly for a valid entry, and a missing origin is told from an invalid one |
| Edge.EdgeConfigStore.SetValid | src/services/edge_config_store.rs:47-52 | replaces one origin's entry and no other |
| Templates.IncrementalIsFullRebuild | src/services/template_store.rs:54-92 | along a diff that carries the unmodified files over, the incremental update succeeds exactly when a full rebuild does and makes the same registry |
| TemplateStore.TemplateStore.CompileTemplateUpdate | src/services/template_store.rs:54-92 | the two loops over the staged directory compute `UpdatedRegistry`; on a working disk they fail only for a broken page |
| TemplateStore.TemplateStore.SetOriginRegistry | src/services/template_store.rs:94-99 | replaces one origin's registry and no other |
| TemplateStore.TemplateStore.LoadOriginTemplates | src/services/template_store.rs:31-42 | the walk and the loop over its files compute `FullRegistry` of the objects on disk; a failure changes nothing |
| TemplateStore.BuildPages | src/services/template_store.rs:119-143 | the loop over the files of a mirror registers exactly the HTML pages that compile and fails for a broken one |
| HtmlPages.PageExactly | src/services/edge_hooks.rs:64-72 | a page is registered exactly when its content type, up to `;`, white space and case, is text/html or, without one, its key ends in .html or .htm in any case, and it decodes and compiles |
| HtmlPages.RebuiltExactly | src/services/template_store.rs:119-143 | a full rebuild succeeds exactly when every such page decodes and compiles, and then holds exactly those pages |
| HtmlPages.UpdatedExactly | src/services/template_store.rs:54-92 | an update fails exactly for a changed page that is broken; changed keys are then registered as a rebuild would, removed ones are gone, all others are as they were |
| OriginRuntime.OriginRuntimeStore.SetSnapshot | src/services/origin_runtime.rs:49-73 | a new snapshot keeps the CDN and domain history of the one it replaces |
| OriginRuntime.OriginRuntimeStore.SetError | src/services/origin_runtime.rs:75-115 | changes the last error alone, on a generation-0 record if there was none |
| OriginRuntime.OriginRuntimeStore.SetCdnResult | src/services/origin_runtime.rs:117-140 | records a purge on an existing snapshot and clears its CDN error |
| OriginRuntime.OriginRuntimeStore.SetCdnError | src/services/origin_runtime.rs:142-151 | changes the CDN error of an existing snapshot alone |
| RefreshInvariant.OrderStep | src/services/origin_refresh.rs:244-354 | every step but a broken swap keeps the generations in order |
| RefreshInvariant.StepKeeps | src/services/origin_refresh.rs:244-354 | every step of a refresh, every fault but the three named ones and every remote write keep the invariant |
| RefreshInvariant.RunKeeps | src/services/origin_refresh.rs:244-354 | the invariant holds in every reachable state |
| RefreshInvariant.StagedAgrees | src/repositories/sync.rs:153-216 | a staged mirror agrees with its listing and every object in it was once the remote's |
| RefreshTheorems.PublicationOrder | src/services/origin_refresh.rs:336-354 | in every run without a broken swap, missed copies included, at every intermediate step the generations of mirror, edge config, templates, index and runtime form a non-increasing chain at most one apart, each store holds what its generation published, and the runtime generation counts activations |
| RefreshTheorems.SnapshotAgreement | src/repositories/sync.rs:153-216 | every generation mirrors exactly the listed keys, matching each entry; with faithful listed tags the bodies are those shown during the listing, whatever was written before the gets |
| RefreshTheorems.RegistryIsFullRebuild | src/services/template_store.rs:54-92 | in every reachable state the active registry is a full rebuild of the mirror of its generation |
| RefreshTheorems.StagedCompileMatchesFullRebuild | src/services/template_store.rs:54-143 | in every reachable state the incremental compile of the staged mirror succeeds exactly when a full rebuild would, with the same registry |
| RefreshTheorems.FailedRefreshChangesOnlyTheError | src/services/origin_refresh.rs:200-297 | a refresh ending in an error, under any faults short of a broken swap, leaves mirror, stores and generation as they were and changes the last error alone |
| RefreshTheorems.BarrierExactly | src/services/origin_refresh.rs:440-472 | with changes and a configured barrier a refresh is accepted exactly when the barrier is listed and not unmodified, a first deployment exactly when it is listed; each refusal is told apart |
| RefreshTheorems.PreparedExactly | src/services/origin_refresh.rs:263-284 | a staged mirror is refused for its barrier, then its configuration, then a broken page |
| RefreshFaults.ActivationAgreesExactly | src/repositories/sync.rs:153-187 | from any state, however reached, a refresh activates a mirror that agrees with its listing exactly when the mirror it began from agreed with the previous index on every skipped key |
| RefreshFaults.MissedCopyAgreesExactly | src/repositories/sync.rs:248-257 | after a missed copy the activated mirror agrees exactly when no key was skipped |
| RefreshFaults.CleanupFaultAgreesExactly | src/repositories/sync.rs:290-323 | after a failed backup removal the next activation agrees exactly when no key listed as the kept index has it is wrong or absent in the mirror left live |
| RefreshFaults.ActivationRebuildsExactly | src/services/template_store.rs:54-92 | from any state the published registry is a full rebuild exactly when the active one showed, under every skipped key, the template of the object begun from |
| RefreshFaults.MissedCopyRebuildsExactly | src/services/template_store.rs:54-92 | after a missed copy that is when no skipped key has a template |
| RefreshFaults.RegistryNamesKnownKeys | src/services/template_store.rs:54-92 | in every run, under all faults, the active registry names only keys of the index published with it |
| Templates.UpdateIsFullExactly | src/services/template_store.rs:54-143 | the incremental compile over a mirror that the registry need not describe agrees with a full rebuild exactly under that condition |
| RefreshFaults.CleanupFaultThenReport | src/repositories/sync.rs:321-323 | a failed backup removal ends the refresh with the new mirror live and all stores old |
| RefreshFaults.CleanupFaultLeavesStaleIndex | src/repositories/sync.rs:290-323 | after that fault the index kept describes a changed key wrongly |
| RefreshWitness.MissedCopyRun | src/repositories/sync.rs:248-257 | a run from a fresh process whose second refresh misses the mirror and publishes an empty one under an index of one key |
| RefreshWitness.CleanupFaultRun | src/repositories/sync.rs:290-323 | a run from a fresh process whose third refresh, after a failed backup removal, downloads nothing and publishes a new body under an old entry |
| Deployment.BarrierShowsDeployment | src/services/origin_refresh.rs:440-472 | a barrier that parses is visible only while one and the same deployment is complete |
| Deployment.ListingShowsDeployment | src/repositories/sync.rs:166-216 | a listing whose barrier was fetched unchanged and parses lists exactly the keys of one deployment, and bodies carrying the listed tags are that deployment's |
| Deployment.ActivationDeploysExactly | src/services/origin_refresh.rs:440-472 | from any state, a changed activation is one complete deployment exactly when the mirror begun from had the listed deployment's body under every skipped key |
| RefreshFaults.UnchangedActivatesBase | src/services/origin_refresh.rs:440-472 | without changes the barrier is not asked for and the mirror begun from is activated again, cut to the known keys |
| Deployment.MissedCopyDeploysExactly | src/repositories/sync.rs:248-257 | after a missed copy that is when no key was skipped |
| Deployment.DeploymentsAreAtomic | src/services/origin_refresh.rs:263-297 | in every interleaving of publisher and refresh every activated generation is empty or exactly one complete deployment |
| RefreshSystem.OriginRefreshLocks.TryAcquire | src/services/origin_refresh.rs:111-121 | a guard is given exactly when the origin was free, and the origin is then active |
| RefreshSystem.OriginRefreshLocks.Drop | src/services/origin_refresh.rs:124-132 | dropping a guard frees its origin and no other |
| RefreshSystem.LocksAreSafe | src/services/origin_refresh.rs:100-132 | for any callers and interleavings the active set is the origins of the live guards, no origin has two, and refreshes run only under one |
| RefreshSystem.AcquireExactly | src/services/origin_refresh.rs:96-132 | in every reachable state a caller gets the guard of a known origin exactly when no caller has one |
| RefreshSystem.StepsCommute | src/services/origin_refresh.rs:174-186 | steps of refreshes of distinct origins commute on all shared stores |
| RefreshSystem.OriginsRunAlone | src/services/origin_refresh.rs:174-241 | an origin's part of the shared state is what its own events alone would have made |
| FileTree.FileSystem.Rename | src/repositories/sync.rs:306-319 | a rename moves a whole directory to an absent or empty place, or does nothing |
| FileTree.FileSystem.RemoveDirIfExists | src/repositories/sync.rs:325-331 | removes a directory if there is one; a failure may leave any part of it |
| MirrorSwap.SwapOriginDir | src/repositories/sync.rs:290-323 | for every combination of failures: success means the new tree is live and the backup gone; an error leaves the old tree live, or intact in the backup because it could not be moved back, or the new tree live because only the backup's removal failed |
| MirrorSwap.ActivateOrRestore | src/repositories/sync.rs:311-319 | the second rename, and the restore when it fails |
| MirrorStaging.ActivateStagedOrigin | src/repositories/sync.rs:126-134 | the swap, with the staging directory removed on failure and the three outcomes kept |
| TreeWalk.WalkPushes | src/repositories/sync.rs:264-285 | popping a directory and pushing its subdirectories keeps the stack duplicate-free and forgets none |
| TreeWalk.WalkEnds | src/repositories/sync.rs:400-454 | a walk with an empty stack has read every directory |
| TreeCopy.CopyDirContents | src/repositories/sync.rs:259-288 | terminates on every tree, copies exactly the source's contents over the target, touches nothing beside it |
| MirrorStaging.PrepareStagingDir | src/repositories/sync.rs:248-257 | the staging directory holds the mirror's contents, or nothing when the mirror was not found; an existing one is replaced |
| MirrorLayout.KeyOfObjectPath | src/repositories/sync.rs:512-568 | a canonical key is recovered from the path of its object, which is never in the metadata directory |
| MirrorLayout.ObjectPathExactly | src/repositories/local_mirror.rs:95-153 | a path names a key exactly when it is that key behind slashes between white space, and the key is not empty and has no control character, no `..` between slashes and no metadata directory at its head |
| MirrorLayout.CanonicalExactly | src/repositories/local_mirror.rs:95-153 | a key is canonical exactly when it may be listed, has no white space at its ends and no empty or `.` segment |
| MirrorLayout.DistinctSidecars | src/repositories/local_mirror.rs:122-131 | sidecars coincide exactly when digests do |
| MirrorLayout.SharedSidecar | src/repositories/local_mirror.rs:122-131 | keys that share a digest cannot be mirrored with different metadata |
| MirrorLayout.PaddedIsInjective | src/repositories/local_mirror.rs:122-131 | digests that tell any set of short keys apart exist |
| MirrorSync.WriteObject | src/repositories/sync.rs:367-398 | body and sidecar are written with their parents; on a working disk it succeeds exactly when nothing is in the way of either |
| MirrorSync.WriteHolds | src/repositories/sync.rs:367-398 | a write changes one object of the mirror held and no other |
| MirrorSync.DownloadChanged | src/repositories/sync.rs:174-182 | the download loop is `AfterDownloads`, in success and in failure, and counts its downloads |
| MirrorSync.DownloadsHold | src/repositories/sync.rs:174-182 | afterwards the directory holds what it held and, over it, what was fetched, every object checked |
| MirrorPlaces.DownloadsMakeDirs | src/repositories/sync.rs:174-182 | the directories afterwards, metadata aside, are those before and those on the way to a download |
| MirrorPlaces.FitsExactly | src/repositories/sync.rs:259-498 | after a staging a key has its place exactly when no directory was or was made there and no staged object is on its way |
| MirrorSync.DownloadsSucceedExactly | src/repositories/sync.rs:174-182 | on a working disk the downloads succeed exactly when every changed key is delivered as listed and, before any write, no directory lies at its place and no file on its way |
| MirrorSync.KeyOfDirectoryBlocked | src/repositories/sync.rs:400-454 | the place of a key that was a directory of a mirrored object is taken |
| MirrorPrune.RemoveDeletedObjects | src/repositories/sync.rs:400-454 | visits every file outside the metadata directory once; exactly the unlisted ones go, with their sidecars |
| MirrorPrune.RemoveOrphanMetadataSidecars | src/repositories/sync.rs:456-498 | exactly the files below the metadata directory that are no listed key's sidecar go |
| MirrorSync.PruneSpares | src/repositories/sync.rs:427-450 | pruning stale objects never deletes body or sidecar of a listed key |
| MirrorSync.PrunedImage | src/repositories/sync.rs:400-498 | after both prunes one body and one sidecar per listed key are left, and no other files |
| MirrorStaging.StageOriginDir | src/repositories/sync.rs:153-187 | success leaves exactly the image of the staged mirror and touches nothing outside; on a working disk it succeeds exactly when `CanStage` held before |
| MirrorStaging.PrepareAndStage | src/repositories/sync.rs:97-124 | the same from the live mirror, with the condition stated on the live mirror |
| MirrorStaging.StageOriginSync | src/repositories/sync.rs:97-124 | the same, with the same exact condition, and the staging directory removed on failure |
| MirrorRead.ReadObject | src/repositories/local_mirror.rs:55-92 | for any key the value is what is stored at its place; for a canonical one that is the object mirrored, and a working disk refuses it exactly for a directory at its place or a file on the way |
| MirrorRead.MirrorFiles | src/services/template_store.rs:145-177 | lists the keys of all objects held, each once |
| StagingRefinement.ProtocolStagesTheSame | src/repositories/sync.rs:174-185 | the protocol's gets and prune, under any remote writes, make the mirror that the disk stages from the same answers |
| OriginRefresh.LoadOriginEdgeConfig | src/services/origin_refresh.rs:682-706 | the config loaded is `LoadedConfig` of the mirror held; on a working disk it is loaded exactly when that exists and each candidate up to the first present can be read |
| OriginRefresh.CheckStaged | src/services/origin_refresh.rs:263-284 | on a working disk a staged mirror passes exactly when its config can be read and the protocol's `Prepared` accepts it, with that config and registry |
| OriginRefresh.UpdateMirror | src/services/origin_refresh.rs:255-336 | for all faults the mirror ends as it was, aside in the backup, or as the accepted staged image; on a working disk it succeeds exactly when `CanRefresh` held before it started |
| OriginRefresh.OriginRefreshService.RefreshOriginSnapshot | src/services/origin_refresh.rs:244-438 | an error changes none of the four stores; success publishes to them exactly what the protocol prepares from the mirror left on disk, for this origin alone; on a working disk exactly when `CanRefresh` |
| OriginRefresh.OriginRefreshService.RecordPurge | src/services/origin_refresh.rs:355-410 | the runtime snapshot remembers a purge, a partial failure or a failure as `AfterPurge` says |
| OriginRefresh.CompletedIsShown | src/services/origin_refresh.rs:300-410 | what a refresh that completes with success leaves in the runtime store: the next generation, its counts and times, and with changes the CDN answer to the plan, field by field; a failed purge leaves its message, with a partial result exactly when some request went through; without changes the CDN record is the old one |
| OriginRefresh.OriginRefreshService.RefreshOrigin | src/services/origin_refresh.rs:174-241 | unknown and busy origins are refused without effect; otherwise mirror and stores end as `Completed` says, with a failure recorded as the last error and nowhere else, and success exactly when `CanRefresh` on a working disk; the lock is given back |
| RefreshSimulation.RefreshIsARun | src/services/origin_refresh.rs:174-438 | for every end of a refresh there is a run of the protocol from what it found on disk and in the stores to what it left |
| RefreshRuns.RefreshRun | src/services/origin_refresh.rs:244-354 | whatever the remote answers, a stageable and acceptable listing has a run that activates and publishes it |
| TenantCloud.CloudFrontSaasClient.Update | src/repositories/cloudfront_saas_cdn/aws_client.rs:105-141 | compare-and-set: an update is accepted only over the version it was made from |
| TenantCloud.WritesKeep | src/repositories/cloudfront_saas_cdn/aws_client.rs:105-141 | whatever others write, each domain keeps at most one owner and a version is never reused |
| TenantReconcile.MergeKeeps | src/repositories/cloudfront_saas_cdn.rs:72-90 | merging is idempotent, keeps id, name, customizations and unconfigured parameters, and sets the configured ones |
| TenantReconcile.MergeExactly | src/repositories/cloudfront_saas_cdn.rs:72-90 | the merge is the one tenant with the configured parts as configured, the others as they were, and enabled unless it says nothing of that |
| TenantReconcile.MatchesExactly | src/repositories/cloudfront_saas_cdn.rs:92-118 | a tenant is left alone exactly when every configured part is there, it is not disabled, and its certificate was found with no token host or the configured one |
| TenantReconcile.DomainSettles | src/repositories/cloudfront_saas_cdn.rs:154-268 | a domain is reconciled exactly when it is free or held by a tenant of its own in the distribution, and is then settled; a settled one is left alone |
| TenantReconcile.OthersUntouched | src/repositories/cloudfront_saas_cdn.rs:154-268 | reconciling a domain touches the tenant of no other |
| TenantReconcile.PassSucceedsExactly | src/repositories/cloudfront_saas_cdn.rs:145-280 | with nobody else writing a pass succeeds exactly when every desired domain can be reconciled at its start |
| TenantReconcile.ReconcileConverges | src/repositories/cloudfront_saas_cdn.rs:145-280 | counts cover the desired domains, an immediate second pass changes nothing and counts every domain unchanged, tenants of other domains keep record and version, new tenants are of one desired domain |
| TenantReconcile.PassLeaves | src/repositories/cloudfront_saas_cdn.rs:145-280 | after a successful pass every desired domain has a tenant of its own with every configured part and a good certificate: the one it had, otherwise unchanged, or a new one |
| TenantReconcile.PassCounts | src/repositories/cloudfront_saas_cdn.rs:145-280 | the domains without a tenant at the start are counted added, those with nothing to change unchanged, all others updated |
| TenantReconcile.ReconcileExisting | src/repositories/cloudfront_saas_cdn.rs:202-268 | with others writing between any two calls, an accepted update is the merge of the version current at that instant |
| TenantReconcile.ReconcileTenants | src/repositories/cloudfront_saas_cdn.rs:145-280 | no update loses a change, counts of a successful pass add up; with nobody else writing the loop is `AfterPass` |
| CallerReference.InvalidationCallerReference | src/repositories/cloudfront_saas_cdn.rs:377-400 | the updates of the digest feed it exactly `Preimage` |
| CallerReference.DecodeOfPreimage | src/repositories/cloudfront_saas_cdn.rs:377-400 | a decoder recovers namespace, origin, generation, tenant and paths from the hashed bytes, for all lengths below 2^64 |
| CallerReference.ReferencesCollideOnlyIfHashDoes | src/repositories/cloudfront_saas_cdn.rs:377-395 | two invalidations share a reference only if they are the same or the hash collides |
| Purge.ListTenants | src/repositories/cloudfront_saas_cdn.rs:287-313 | pagination ends when markers come from a finite set: it succeeds exactly when there is a last page before any repeat or failure, with all tenants up to it; each error exactly when the repeated marker or the failing call comes first |
| Purge.OneEnding | src/repositories/cloudfront_saas_cdn.rs:287-313 | a listing ends in one way only, and at one call |
| Purge.PaginationIsExact | src/repositories/cloudfront_saas_cdn.rs:287-313 | on a stateless server a repeated marker is reported exactly when the pages go on for ever |
| Purge.TargetsMeaning | src/repositories/cloudfront_saas_cdn.rs:315-323 | the targets are exactly the matching tenants not disabled, as often as listed, ascending by id |
| Purge.FanOut | src/repositories/cloudfront_saas_cdn.rs:334-373 | one invalidation per target in order; a failure at position k reports k ids and k times the path count |
| Purge.PurgeTenants | src/repositories/cloudfront_saas_cdn.rs:285-374 | the whole purge: error kinds, skipping without targets, counts and ids tied to the listing |
| Purge.RequestSays | src/repositories/cloudfront_saas_cdn.rs:334-395 | each request names its tenant and all paths; its caller reference hashes bytes that tell namespace, origin, generation, tenant and every path |
| Purge.ReferencesTellTenantsApart | src/repositories/cloudfront_saas_cdn.rs:334-353 | two tenants of one purge share a reference only if the hash collides on their two preimages |
| Hosts.NormalizeHostIdempotent | src/services/manifest.rs:103-141 | a normalised host is valid and normalises to itself |
| HostNames.NormalizeHostExactly | src/services/manifest.rs:103-141 | a header names a host exactly when it is that host in any case, perhaps with a port, between white space; a host has letters, digits, hyphens and dots, with a letter or digit at both ends and on both sides of every dot |
| HostNames.RuleExactly | src/services/manifest.rs:40-62 | an entry is `*`, or `*.` before a host without a port, or a host header, each in any case between white space, or unusable |
| HostNames.MatchesExactly | src/services/manifest.rs:83-86 | a wildcard covers exactly the hosts with something before its suffix |
| HostResolution.NewResolver | src/services/manifest.rs:34-70 | a manifest is accepted exactly when every host is usable and at most one is `*`; the loop and the sort build `ResolverOf` |
| HostResolution.ResolveIsBest | src/services/manifest.rs:72-100 | resolution finds a host exactly when a rule matches, and then the exact rule, else the longest matching suffix, else `*`; ties go to the last exact and the first wildcard entry |
| HostResolution.BestIsUnique | src/services/manifest.rs:83-93 | the strongest rule for a host is unique |
| HostResolution.OrderMattersExactly | src/services/manifest.rs:34-100 | the order of entries matters for no host exactly when entries that say the same name the same origin |
| Cors.FromManifest | src/services/cors.rs:17-42 | the loop collects the rules of each origin as `RulesByOrigin` |
| Cors.AllowedExactly | src/services/cors.rs:44-63 | a host is allowed for an origin exactly when an entry of that origin other than `*` covers it |
| Cors.ResolvedHostIsAllowed | src/services/cors.rs:17-63 | any host resolved to an origin by a rule other than `*` is allowed for that origin |
| StaticRules.SplatRebuildsPath | src/services/static_rules.rs:80-95 | prefix and splat of a wildcard match rebuild the path; an exact match has no splat |
| StaticRules.SameRankSamePattern | src/services/static_rules.rs:68-95 | matches of one rank have the same pattern |
| StaticRules.WinnerMeaning | src/services/static_rules.rs:14-42 | the winner is the exact rule if any, else the longest matching pattern; of several with that pattern the last |
| StaticRules.MatchesExactly | src/services/static_rules.rs:80-95 | a pattern matches itself, and with a star at its end every path with its prefix |
| StaticRules.RewriteExactly | src/services/static_rules.rs:34-42 | a path that no rule matches stays; any other goes where the deciding rule says, with the rest of the path for each splat |
| StaticRules.RedirectExactly | src/services/static_rules.rs:9-32 | a redirect exists exactly when a rule matches; it has the status and target of the deciding rule, and the query if the target has none |
| StaticRules.RootObjectExactly | src/services/static_rules.rs:44-56 | slashes at the end give way to the root object, and for the index candidate to /index.html |
| StaticRules.OrderMattersExactly | src/services/static_rules.rs:14-42 | the order of rules matters exactly when two different rules have one pattern |
| StaticRules.SplatCarriesPathOver | src/services/static_rules.rs:57-59 | the splat puts the rest of the path where the target asks for it |
| Headers.ApplyHeaders | src/services/render_gateway.rs:973-980 | the insertion loop is `Applied` |
| Headers.AppliedIsOverride | src/services/render_gateway.rs:939-980 | applying headers with lower-case names overrides, losing none of either side otherwise |
| Headers.FilteredIsSafe | src/services/render_gateway.rs:948-971 | filtered headers are lower-case and safe, and every safe header survives |
| Headers.UnsafeExactly | src/services/render_gateway.rs:956-971 | a name is unsafe exactly when it is one of eleven in any case |
| Headers.FilteredSays | src/services/render_gateway.rs:948-980 | every filtered header has the value of a safe header, of names alike up to case the last |
| Gateway.EdgeChainState.ApplyEdgePayload | src/services/edge_hooks.rs:32-62 | an acceptable payload adds its headers and yields its outcome; an unacceptable file path changes nothing |
| Gateway.HandleEdgeChain | src/services/render_gateway.rs:314-504 | the loop that mutates the chain state is the recursive `Chain` |
| GatewayTheorems.ChainOfHead | src/services/render_gateway.rs:314-504 | the hook chain ends a HEAD request as it ends GET, without the body |
| GatewayTheorems.HeadIsGetWithoutBody | src/services/render_gateway.rs:195-312 | with hooks that ignore the method HEAD equals GET with the body erased, for every configuration and mirror |
| GatewayTheorems.HeadersOfEveryResponse | src/services/render_gateway.rs:727-814 | every response to a resolved host carries its derived CORS headers, and no response an unsafe header |
| GatewayTheorems.ChainFine | src/services/render_gateway.rs:314-516 | every way a hook ends the chain keeps the CORS headers and adds no unsafe one |
| GatewayDecisions.ChainPassesOnExactly | src/services/render_gateway.rs:314-504 | the chain passes a request on exactly when every hook answers with headers alone, and then with all of them, later ones overriding |
| GatewayDecisions.LaterHooksDoNotMatter | src/services/render_gateway.rs:314-504 | the first hook that does not pass decides; hooks after it change nothing |
| GatewayDecisions.PassedRequestAnswered | src/services/render_gateway.rs:195-312 | a GET that every hook passes on gets a matching redirect, else the first present of rewritten path, index and configured miss file with its status, else the configured miss; location or metadata, hook and CORS headers override in that order |
| HookReplies.StoppedRequestAnswered | src/services/render_gateway.rs:314-504 | a GET whose first hook not to pass it on is the i-th gets exactly: 504 for a hook out of time, 502 for one that fails or names a bad file; else its body, else its file or the index below under its status, rendered if there are parameters, else the configured miss; with parameters alone the rendered page, else 404; 415 without a template and 502 when rendering fails |
| HookReplies.MayNameExactly | src/services/edge_hooks.rs:56-62 | a hook may name a file exactly when it starts with a slash and has no control character and no two dots in a row |
| GatewayDecisions.UnaskedRequestAnswered | src/services/render_gateway.rs:195-262 | no origin gives 421, a preflight 204 with methods and the headers asked for, another method 405, no usable configuration 500, each with the CORS headers |
| GatewayDecisions.HookSees | src/services/render_gateway.rs:817-853 | every hook is asked about the request as it came |
| GatewayDecisions.ReservedExactly | src/services/render_gateway.rs:920-926 | a path is reserved exactly when, after any slashes, it is .rendermesh or _rendermesh or below one of them |
| GatewayDecisions.TargetExactly | src/services/render_gateway.rs:518-521 | the file a path stands for: rewritten first, and then the root object instead of slashes at the end |
| GatewayDecisions.DefaultChoices | src/services/edge_config.rs:8-26 | without a configuration nothing is redirected, and a GET is answered from the file or root object, the index below it, or with 404 from the root index |
| GatewayDecisions.FetchedIsShown | src/services/render_gateway.rs:882-897 | an object is served with the body, content type, cache control, tag and time it was fetched with, and no other header of its own |
| GatewayDecisions.CorsHeadersExactly | src/services/render_gateway.rs:790-803 | a request gets CORS headers exactly when it names an origin covered by a non-`*` entry of the served origin, and they allow that origin only |
| GatewayDecisions.RedirectKeepsQuery | src/services/static_rules.rs:9-32 | a redirect keeps the query unless its target has one; the query never changes which rule wins |

## Left out

- AWS SDK, HTTP server and client, tracing and telemetry: plumbing around the modelled decisions.
- YAML, JSON and Handlebars: functions of the bytes that succeed or fail; the JSON of a sidecar is kept as the metadata it stands for.
- SHA-256, UUIDs and `deterministic_tenant_name`: abstract functions; the sidecar hash tells the keys in play apart where a result requires it.
- Canonical keys: a listing with an accepted but non-canonical key is outside the disk results; the protocol level covers it.
- Symbolic links and other special files in a mirror: a tree has directories and files only.
- Removing entries of a directory while it is read: a directory is read whole before its files are handled.
- Cancellation of a refresh half-way: a guard is dropped only when its refresh has returned.
- Readers of a half-published generation: the skew between the stores is stated by `PublicationOrder`, requests are answered from one state of the stores.
- A failed CDN purge is not retried by the code; the model records it and goes on likewise.
- The reply to a sync request: it repeats the snapshot and the purge answer that the stores keep.
- Error messages: errors are constructors, and which of several failing keys is named first is open, since key sets are visited in any order where the order shows in nothing else.
- Timestamps are natural numbers; the temporary directories of a refresh are given names not in use.
- Request headers with several values under one name, and header values that are not text: a request has one textual value per name.
- Gateway.RenderGateway: reading a file for a request is a function that may fail, so invalid paths and directories are not told apart there.
- MirrorStaging.StageOriginSync: the exact condition is stated where no file is in the way of the staging directory, the metadata directory has the shape that staging gives it, and no changed key is a directory on the way to another.
- RefreshSimulation.RefreshIsARun: an error that leaves the old mirror live is matched by a run that stops at its first step with that error, whatever step the service had reached.
- `set_cdn_domain_result`, `set_cdn_domain_error`, `set_invalid`, `from_configs`: setters of the same shape that no result needs.
- `sync_origin` and `sync_origin_dir`: superseded by the staged path.
- Cloudflare DNS and CloudFront alias reconciliation, manifest and edge-config field validation, environment variables, admin tokens, health and echo routes, timers: single-branch checks or I/O.
