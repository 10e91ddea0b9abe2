# EMLy server: verified models

This project models the stateful parts of the EMLy API server in Dafny 4.11 and proves what they
keep. `dafny verify dfyconfig.toml` checks everything. Each component has a module with its data
model, the operations in the shape of the source (classes and loops where the source updates state,
functions where it computes), and a module of theorems about all inputs or all runs.

| component | modules |
|---|---|
| Remote-config override engine | `MergePatch`, `Schema`, `JsonCodec`, `FixedSections`, `ConfigDocument`, `DecodeMeaning`, `PatchDocument`, `Validation`, `Effective`, `OverrideTheorems`, `EffectiveTheorems`, `EffectiveMeaning`, `SiteTheorems`, `Canonical` |
| Revision store and mirrors | `RevisionStore`, `RevisionEffects`, `MirrorReplication`, `MirrorAcceptance` |
| Presence hub | `PresenceHub` |
| Rate limiter | `RateLimiter`, `RateLimitBounds`, `RateLimitTightness`, `RateLimitCounters`, `RateLimitCleanup`, `RateLimitSteps`, `RateLimitRace`, `RateLimitSweeps` |
| Client table | `ClientUpsert`, `UpsertTheorems`, `UpsertSteps` |
| Event counters and retention | `EventRollup`, `EventQuery`, `EventPrune` |
| TTL cache | `TtlCache`, `TtlCacheTheorems`, `TtlCacheFreshness` |
| Statistics stream | `StreamCoalescer`, `StreamTheorems`, `StreamReader` |
| Releases and manifest | `Releases`, `ReleaseTheorems`, `ReleaseEffects` |

## Results worth knowing

- **Checking overrides one by one is not enough, and here is exactly when it is.** `Parse` dry-runs
  each override alone, `Effective` applies many in sequence. For an accepted document no override is
  ever skipped, and the effective document passes the validators if and only if the patches applied to
  the host do not clear `updater.resolver` and later reopen it without `attempts`
  (`EffectiveTheorems.EffectiveValidIff`). `CheckedAloneIsNotEnough` is an accepted document for which
  every host gets an invalid result.
- **Merge patches compose if and only if** the second has no nulls and puts no object where the first
  has a non-object (`MergePatch.MergeAssociatesIff`).
- **A deleted draft's number is reused** exactly when it was the highest number
  (`RevisionStore.DeleteFreesNumberIff`). The comment at internal/configapi/config.route.go:266-267
  promises otherwise; allocation is `MAX(revision)+1`. Numbers that were ever published are never reused.
- **Cleanup of idle visitors is invisible** to later answers unless the two clock reads of the next
  request differ and fall inside one window (`RateLimitCleanup.ForgettingIsInvisibleIff`).
- **The violation counter is exact** if and only if the limit admits at least one request
  (`RateLimitCounters.ViolationsAreExactIff`).
- **Repeating a client report is harmless** if and only if the client is identified and a new client does
  not claim that nobody is logged on while sending a user or a session state
  (`UpsertTheorems.RepeatIsHarmlessIff`). A report that nobody is logged on clears the disconnection time
  only if it carries none, although the comment at internal/updaterclient/updaterclient.go:447-451 says it is cleared
  (`NobodyClearsSessionIff`, with the request of `NobodyCanKeepTime`).
- **A failed cache build reaches its own caller only.** The comment at internal/ttlcache/ttlcache.go:62-66
  says that it reaches every waiting caller. A call has failed exactly when its own build failed
  (`TtlCacheTheorems.FailedIff`), and a waiter builds for itself (`WaiterRebuildsAfterFailure`; the run is
  `FailureThenSuccess`). One key can be built twice at once after the full map is dropped
  (`FullMapBuildsTwice`), and only then (`SingleFlight`). A caller that finds the lock free is served if and
  only if a build on its entry finished less than one TTL before (`TtlCacheFreshness.ServedIffFresh`).
- **A stale delete can lift a running ban.** Finding a ban expired and deleting it are two operations on the ban
  table, and a ban stored in between is deleted too (`RateLimitRace.StaleDeleteLiftsBan`). In every interleaving
  a request is dropped exactly while a stored ban of its address stands and runs
  (`RateLimitSteps.DroppedIffBanStands`). The same delete in the cleanup pass is the only way in which that pass
  shows (`RateLimitSweeps.InterleavedCleanupIsInvisible`, `DeleteShowsIff`, `UnsafeIffReplaced`).
- **Concurrent client reports get in each other's way.** The statements of the upsert are not one transaction,
  so the promise at internal/updaterclient/updaterclient.go:434-435 holds for undisturbed calls only. A report
  is refused exactly when its target was not lost and a row that stands was given its pair after its delete or
  its hwid after its lookup (`UpsertSteps.InterleavedRefusedIff`); two reports of one new machine are such a run
  (`NewMachineRefused`). A returned id has no row exactly when someone else deleted the target in between
  (`ReturnedIdIsDeadIff`); in `BothRowsLost` two machines end without a row. Both keys stay unique in every
  interleaving (`InterleavedSound`).
- **A late commit can lose a fresh event.** A prune pass never removes a row inside the window exactly when no
  insert of such a row is open below the boundary as the pass begins (`EventPrune.PassRemovesOnlyExpiredIff`).
- **The admission bound depends on the clock reads.** 2 * maxReqs in general, and reached; one less, and reached,
  when no request reads two different times inside one window (`RateLimitBounds.OneLessWithSharpReads`).
- **The clients channel can lose or overtake a row, and here is exactly when.** A flush that owes a snapshot drops
  its deltas when the snapshot query fails (`StreamReader.FailedSnapshotLosesDelta`; the comment at
  internal/stats/stats_stream.route.go:448-449 says that they are already included), and a subscribe answered
  while an older row is owed is overtaken by it (`OlderRowOvertakes`). In every run, a reader of the coalesced
  stream and one told of every event agree on a client exactly when the last step that decides about it settles
  it (`AgreeOnClientIff`).
- **The events channel misses some refreshes**: its query counts whole hours, its filter compares exact
  times, so events in the partial hours at both ends change the answer without refreshing it
  (`StreamTheorems.RefreshedIffInRange`). The range of a new connection ends when it connects
  (internal/stats/stats_stream.route.go:155), so until the reader asks for a later end no event refreshes the
  channel at all (`LiveEventsDoNotRefresh`).
- The comment on patches (internal/remoteconfig/types.go:200-201) names four patchable keys; the code allows
  five, `clientWs` included (internal/remoteconfig/types.go:209-215). The model follows the code.

## Conventions

Transactions, and statements outside a transaction, are atomic steps; a failed one leaves the tables
unchanged. Clock reads, random choices, map iteration order, query failures and interruptions are parameters
or nondeterministic choices. Library parsers (RFC 3339, CIDR, URLs, case folding, SHA-256, dotted versions)
are function-valued parameters, so every theorem holds whatever they answer.

## Model

| member | source | states |
|---|---|---|
| `MergePatch.MergePatch` | internal/remoteconfig/mergepatch.go:56-82 | the copy-then-update loop, for every key order, computes the recursive function of section 2 of RFC 7386 |
| `MergePatch.MergeIdempotent` | internal/remoteconfig/mergepatch.go:56-82 | applying a patch twice equals applying it once |
| `MergePatch.ComposableAssociates` | internal/remoteconfig/mergepatch.go:56-82 | for composable patches, patching twice equals patching once with the merged patch |
| `MergePatch.NotComposableWitness` | internal/remoteconfig/mergepatch.go:56-82 | for any other pair it constructs a target that tells the two apart |
| `MergePatch.MergeAssociatesIff` | internal/remoteconfig/mergepatch.go:56-82 | merge(merge(t,p),q) = merge(t,merge(p,q)) for all t, exactly when q has no nulls and never puts an object where p has a non-object |
| `Schema.MergeConforms` | internal/remoteconfig/mergepatch.go:17-50 | a patch that leaves some tree decodable leaves every decodable tree decodable |
| `FixedSections.FixedRoundTrip` | internal/remoteconfig/types.go:73-114 | refresh, ipcProtocol and hostIntegrity are read back field by field as they were written |
| `ConfigDocument.DecodeWrite` | internal/remoteconfig/types.go:28-70 | decoding an encoded document gives it back, all fields included |
| `DecodeMeaning.DecodesIff` | internal/remoteconfig/types.go:28-70 | a tree decodes exactly when it says what some document holds, and to such a document: same scalars, same list and map entries, same struct fields, null or zero for what the tree leaves out, a wrong type anywhere rejecting it |
| `PatchDocument.MergeAllowedKeys` | internal/remoteconfig/mergepatch.go:31-39 | the loop over the patch, in any key order, merges exactly the allowed keys into the tree |
| `PatchDocument.ApplyPatchToDocument` | internal/remoteconfig/mergepatch.go:17-50 | encode, merge, decode equals patching the five sections one by one, errors included |
| `PatchDocument.CodeAppliesPatch` | internal/remoteconfig/mergepatch.go:17-50 | the round trip through the whole tree and the section-wise patch agree on every document and patch |
| `PatchDocument.PatchKeepsOtherFields` | internal/remoteconfig/mergepatch.go:17-50 | every field outside the five allowed keys, the override list included, is unchanged |
| `PatchDocument.PatchMergesFiveKeys` | internal/remoteconfig/mergepatch.go:17-50 | the outcome is what the encoded document decodes to once the patch is merged under the five keys, named one by one, and nowhere else |
| `PatchDocument.TopLevelNullDeletes` | internal/remoteconfig/mergepatch.go:31-50 | a top-level null gives the same document as leaving that key out of the tree |
| `PatchDocument.PatchOutcomeIgnoresDocument` | internal/remoteconfig/mergepatch.go:41-50 | a patch that applies to one document applies to every document |
| `Validation.TopProblems` | internal/remoteconfig/parse.go:69-83 | no problem exactly for a valid head of the document |
| `Validation.ServersProblems` | internal/remoteconfig/parse.go:85-101 | no problem exactly when there are servers with valid URLs and the default server is one of them |
| `Validation.SitesProblems` | internal/remoteconfig/parse.go:159-183 | no problem exactly when every site has valid subnets and only known servers |
| `Validation.IPCProblems` | internal/remoteconfig/parse.go:135-157 | no problem exactly when every version key is decimal, every bound is a version, and the default version is listed and enabled |
| `Validation.ControlProblems` | internal/remoteconfig/parse.go:213-224 | no problem exactly for valid gates |
| `Validation.UpdaterProblems` | internal/remoteconfig/parse.go:226-257 | no problem exactly for tuning within its ranges, at least one resolver attempt included |
| `Validation.LoggingProblems` | internal/remoteconfig/parse.go:259-272 | no problem exactly for logging within its ranges |
| `Validation.SelectorProblems` | internal/remoteconfig/parse.go:276-318 | no problem exactly for a selector that is `all` alone, where allowed, or has a list, with valid subnets |
| `Validation.OverridesShapeProblems` | internal/remoteconfig/parse.go:321-349 | no problem exactly when every override is well formed and all ids are distinct |
| `Validation.DryRunProblems` | internal/remoteconfig/parse.go:352-373 | no problem exactly when every patch, applied alone, decodes, passes the validators and names a known default server |
| `Validation.Parse` | internal/remoteconfig/parse.go:36-67 | no problem exactly for input within the cap that decodes to an accepted document, which it then returns |
| `Effective.Match` | internal/remoteconfig/match.go:29-68 | the key-by-key test with its flag selects exactly the hosts that match every list present, one list at least |
| `Effective.Effective` | internal/remoteconfig/match.go:170-202 | the loop is the fold of the overrides that apply, in list order, with their ids |
| `Effective.FoldIsPatchAll` | internal/remoteconfig/match.go:170-202 | where no patch fails, the fold applies exactly the matching overrides' patches and reports exactly their ids |
| `Effective.ResolveSite` | internal/remoteconfig/match.go:149-164 | for every iteration order: a matching site with its chain, or the default server when none matches |
| `EffectiveMeaning.SelectsExactly` | internal/remoteconfig/match.go:29-68 | a selector selects a host exactly by equal names up to case, equal DC names up to DNS suffix and case, and addresses in subnets, list by list |
| `EffectiveMeaning.AppliedExactly` | internal/remoteconfig/match.go:127-202 | on an accepted document the applied ids are, in list order, those of the overrides whose time limit is absent, unreadable or not past, whose selector hits and whose exception does not |
| `EffectiveMeaning.DocumentExactly` | internal/remoteconfig/match.go:170-202 | its document is what the patches of exactly those overrides, each applied to the result of the one before, leave of the original |
| `EffectiveMeaning.ResolvesExactly` | internal/remoteconfig/match.go:84-164 | a site is an enabled one with the DC name and an address of the host; its chain is the base server and then the backups, and without any site the default server |
| `OverrideTheorems.LeafOrigin` | internal/remoteconfig/mergepatch.go:56-82 | a leaf after a patch is the old leaf, the leaf the dry run produced, or absent |
| `OverrideTheorems.PatchKeepsOtherChecks` | internal/remoteconfig/parse.go:352-373 | a patch that passed alone keeps every check but resolver attempts, on every document where they hold |
| `OverrideTheorems.ResolverAfterPatch` | internal/remoteconfig/mergepatch.go:31-50 | what each kind of patch does to the resolver tuning |
| `EffectiveTheorems.SequenceFollows` | internal/remoteconfig/match.go:170-202 | through any sequence of patches that pass alone, none fails, the checks hold and the resolver follows the three-state trail |
| `EffectiveTheorems.NoOverrideSkipped` | internal/remoteconfig/match.go:188-198 | on an accepted document, for every host and clock, no applicable override is skipped by the error branch |
| `EffectiveTheorems.EffectiveValidIff` | internal/remoteconfig/match.go:170-202 | the effective document of an accepted one is valid exactly when the applied patches leave no resolver gap |
| `EffectiveTheorems.NoClearingAlwaysValid` | internal/remoteconfig/parse.go:352-373 | with no override that nulls `updater` or `updater.resolver`, every host gets a valid document |
| `EffectiveTheorems.CheckedAloneIsNotEnough` | internal/remoteconfig/parse.go:248-251 | an accepted document whose effective form the validators reject for every host |
| `SiteTheorems.EffectiveServers` | internal/remoteconfig/parse.go:363-367 | the effective document keeps servers and sites, and its default server is a known name or was blanked by the last patch that names it |
| `SiteTheorems.ChainIsKnownIff` | internal/remoteconfig/match.go:149-164 | every name of the chain is a key of `servers` exactly when a site matched or the patches do not blank the default server |
| `Canonical.PatchIgnoresStamp` | internal/configapi/config.route.go:352-355 | assigning revision and time commutes with every patch |
| `Canonical.StampKeepsAccepted` | internal/configapi/config.route.go:352-355 | an accepted document stays accepted when revision and time are assigned |
| `Canonical.StoredFormParses` | internal/remoteconfig/canonical.go:20-31 | the stamped canonical form, within the cap, parses back to the same document, and the etag of what was read is the etag that was sent |
| `RevisionStore.RevisionTable.AllocateRevision` | internal/configapi/config.route.go:343-350 | the highest number plus one, 1 for an empty table |
| `RevisionStore.RevisionTable.PublishRevision` | internal/configapi/config.route.go:408-421 | supersedes what is published and publishes a draft, or rolls back |
| `RevisionStore.RevisionTable.CreateRevision` | internal/configapi/config.route.go:335-400 | the new table after a create, published or not, and unchanged when validation fails |
| `RevisionStore.RevisionTable.PublishDraft` | internal/configapi/config.route.go:450-493 | publishes a draft as its transaction does, or refuses it; what it comes to is RevisionEffects.PublishHandler |
| `RevisionStore.RevisionTable.CurrentPublished` | internal/configapi/config.route.go:475-481 | finds a published row if there is one |
| `RevisionStore.RevisionTable.RollbackTo` | internal/configapi/config.route.go:531-588 | republishes an old document under a new number above all others, which it returns, or changes nothing |
| `RevisionStore.RevisionTable.DeleteDraft` | internal/configapi/config.route.go:268-297 | removes drafts only |
| `RevisionStore.StepOrderly` | internal/configapi/config.route.go:268-588 | each operation publishes only above everything ever published and keeps all published and superseded rows as they are |
| `RevisionStore.RunOrderly` | internal/configapi/config.route.go:268-588 | over every run: one published row at most, superseded rows below it, none lost, none changed |
| `RevisionStore.StepPrepared` | internal/configapi/config.route.go:352-362 | every stored row was prepared under its own number |
| `RevisionStore.DeleteFreesNumberIff` | internal/configapi/config.route.go:343-350 | deleting a draft frees its number exactly when it is the highest |
| `RevisionEffects.PublishExactly` | internal/configapi/config.route.go:450-493 | a publish takes effect exactly for a draft above every published revision: it is published with its content, what was published is superseded, the rest and every refused publish change nothing |
| `RevisionEffects.CreateExactly` | internal/configapi/config.route.go:335-400 | a create adds the prepared document under the next number, as a draft or published at once, exactly when preparing it succeeds |
| `RevisionEffects.RollbackExactly` | internal/configapi/config.route.go:531-588 | a rollback publishes the old document, prepared anew, under the next number exactly when its revision was published at some time and preparing it succeeds |
| `RevisionEffects.DeleteExactly` | internal/configapi/config.route.go:268-297 | a delete removes exactly the named draft |
| `RevisionEffects.PublishHandler` | internal/configapi/config.route.go:450-493 | the handler reports success exactly for such a draft, with that effect |
| `RevisionEffects.CreateHandler` | internal/configapi/config.route.go:335-400 | the handler returns the next number exactly when preparing succeeds, with that effect |
| `RevisionEffects.RollbackHandler` | internal/configapi/config.route.go:531-588 | the handler returns the next number exactly when the rollback takes effect, with that effect |
| `MirrorReplication.MirrorTable.StoreReplicated` | internal/configmirror/configmirror.go:223-259 | supersedes and stores the row, or nothing when it is current |
| `MirrorReplication.MirrorTable.Receive` | internal/configmirror/configmirror.go:156-201 | a rejected reply changes nothing, an accepted one is stored as it was read, under its revision |
| `MirrorReplication.NextKeeps` | internal/configmirror/configmirror.go:114-259 | every step of every node keeps the cluster invariant and takes nothing back |
| `MirrorReplication.ReplicationIsSafe` | internal/configmirror/configmirror.go:114-259 | in every interleaving on any tree of mirrors: each mirror row is the primary's, one published row at most, never above the upstream, never going down |
| `MirrorReplication.SyncCatchesUpIff` | internal/configmirror/configmirror.go:114-201 | when etags tell revisions apart, an undisturbed poll brings a mirror level exactly when it accepts the upstream's row or was level |
| `MirrorAcceptance.MirrorAcceptsPrepared` | internal/configmirror/configmirror.go:165-191 | a mirror accepts whatever the primary prepares, within the cap, under its own revision and with the same etag |
| `MirrorAcceptance.StoredIff` | internal/configmirror/configmirror.go:156-195 | a reply is stored exactly when it is within the cap, decodes to an accepted document with a readable time, and carries no etag or the hash of that document; what is stored are its bytes, that hash and the document's revision |
| `MirrorAcceptance.WrongTagIsRejected` | internal/configmirror/configmirror.go:173-180 | with an injective hash, a reply with the etag of another document is rejected |
| `MirrorAcceptance.RealReplicationIsSafe` | internal/configmirror/configmirror.go:165-191 | the whole of replication safety, with the real document engine plugged in |
| `MirrorAcceptance.RealTagsTell` | internal/remoteconfig/canonical.go:20-31 | with an injective hash, an etag belongs to one revision |
| `MirrorAcceptance.RealSyncCatchesUpIff` | internal/configmirror/configmirror.go:114-201 | after any run, an undisturbed poll brings a mirror level with its upstream exactly when the body is within the size cap or it was level |
| `MirrorReplication.PollDown` | internal/configmirror/configmirror.go:114-201 | polling down a path of mirrors, every one ends with what the first one got |
| `MirrorAcceptance.RealChainCatchesUpIff` | internal/configmirror/configmirror.go:114-201 | after any run, polling down a path from the primary leaves all of it level with the primary exactly when the body is within the size cap or the first mirror was level |
| `PresenceHub.Hub.Connect` | internal/presencehub/presencehub.go:68-93 | a new generation replaces the entry and closes the old channel |
| `PresenceHub.Hub.Disconnect` | internal/presencehub/presencehub.go:98-121 | arms a timer for the current generation only |
| `PresenceHub.Hub.TimerCallback` | internal/presencehub/presencehub.go:107-121 | removes the entry only if it is the one the timer was armed for |
| `PresenceHub.RunSound` | internal/presencehub/presencehub.go:68-132 | the invariant over entries, tokens and channels holds in every run |
| `PresenceHub.PresenceIsAccurate` | internal/presencehub/presencehub.go:68-132 | in every interleaving: online until a timer of the latest connection fires, no channel closed twice, one live unsuperseded connection at most |
| `PresenceHub.OfflineOnlyByLatestTimer` | internal/presencehub/presencehub.go:98-121 | a client goes offline only by a timer of its latest, ended connection |
| `PresenceHub.StaleTokenIsHarmless` | internal/presencehub/presencehub.go:98-121 | stale, repeated, never-issued and zero tokens change nothing |
| `PresenceHub.OfflineIff` | internal/presencehub/presencehub.go:68-132 | a client that connected is offline exactly when, after its last Connect, that token was disconnected and its timer fired later |
| `PresenceHub.GoesOffline` | internal/presencehub/presencehub.go:98-121 | disconnecting the last connection takes the client offline once the timer fires, whatever happens in between but a new Connect |
| `PresenceHub.StrangersAreOffline` | internal/presencehub/presencehub.go:124-132 | a client that never connected is offline |
| `RateLimiter.RateLimiter.Record` | internal/middleware/ratelimit.ban.go:115-152 | the new visitor and the answer, for the tier of the request |
| `RateLimiter.RateLimiter.Handle` | internal/middleware/ratelimit.ban.go:154-195 | the verdict and the new state of a request, bans included |
| `RateLimiter.RateLimiter.CleanTier` | internal/middleware/ratelimit.ban.go:202-211 | exactly the visitors idle for more than two windows, each by its own clock read, are removed |
| `RateLimiter.RateLimiter.CleanUp` | internal/middleware/ratelimit.ban.go:197-220 | both tiers swept, expired bans removed |
| `RateLimitBounds.TrackRun` | internal/middleware/ratelimit.ban.go:115-220 | the admissions of a run split into the current window's and older ones, which leave room for one window's worth |
| `RateLimitBounds.AtMostTwiceTheLimit` | internal/middleware/ratelimit.ban.go:115-220 | in every run with a monotone clock and cleanups anywhere, at most 2 * maxReqs admissions in any interval of one window length |
| `RateLimitBounds.EachTierItsOwnLimit` | internal/middleware/ratelimit.ban.go:115-127 | authenticated requests are held to the authenticated limit and window, the others to theirs |
| `RateLimitBounds.OneLessWithSharpReads` | internal/middleware/ratelimit.ban.go:129-141 | at most 2 * maxReqs - 1 when no request reads two different times inside one window |
| `RateLimitTightness.TwiceTheLimitIsReached` | internal/middleware/ratelimit.ban.go:129-143 | a run that reaches 2 * maxReqs with one tick between two clock reads, for every limit and every window of two ticks or more |
| `RateLimitTightness.OneLessIsReached` | internal/middleware/ratelimit.ban.go:129-143 | a run with equal clock reads that reaches 2 * maxReqs - 1 |
| `RateLimitSteps.AloneIsHandle` | internal/middleware/ratelimit.ban.go:154-195 | the handler's separate steps, undisturbed, are the one-step handler |
| `RateLimitSteps.InterleavedAtMostTwice` | internal/middleware/ratelimit.ban.go:115-220 | the bound holds in every interleaving of the steps of requests, bans and cleanup |
| `RateLimitSteps.BanStandsIff` | internal/middleware/ratelimit.ban.go:168-187 | a ban is in the table exactly when it was stored and no later step stored or deleted one of its address |
| `RateLimitSteps.DroppedIffBanStands` | internal/middleware/ratelimit.ban.go:168-187 | in every interleaving a request is dropped exactly while such a ban runs |
| `RateLimitRace.StaleDeleteLiftsBan` | internal/middleware/ratelimit.ban.go:168-174 | a run with a clock that never goes back in which deleting an expired ban deletes a newer one, and a request is admitted while that one would run |
| `RateLimitSweeps.InterleavedCleanupIsInvisible` | internal/middleware/ratelimit.ban.go:197-220 | in every interleaving whose cleanup deletes only bans that no longer run, each request comes as far, and with the same verdict, as without the cleanup steps |
| `RateLimitSweeps.DeleteShowsIff` | internal/middleware/ratelimit.ban.go:213-218 | a delete of the pass shows in a later request exactly when the ban it deletes still runs |
| `RateLimitSweeps.UnsafeIffReplaced` | internal/middleware/ratelimit.ban.go:213-218 | that is so exactly when a ban of the address was stored between the look and the delete, stands and still runs |
| `RateLimitCounters.ViolationsAreExactIff` | internal/middleware/ratelimit.ban.go:143-152 | failures = max(0, count - maxReqs) in every run exactly when maxReqs >= 1 |
| `RateLimitCounters.KthRequest` | internal/middleware/ratelimit.ban.go:143-195 | the k-th request of a window is admitted, refused or banned by comparing k with maxReqs and maxReqs + maxFails |
| `RateLimitCounters.DroppedIffBanned` | internal/middleware/ratelimit.ban.go:168-187 | a request is dropped exactly while a ban earned by an earlier request of its address runs, on either tier and through cleanups |
| `RateLimitCounters.PassedIffExempt` | internal/middleware/ratelimit.ban.go:154-166 | exempt requests, and only they, pass unchecked, and leave no trace |
| `RateLimitCounters.RememberedIff` | internal/middleware/ratelimit.ban.go:202-211 | in every run a cleanup pass keeps a visitor exactly if its last counted request is at most two windows of its tier old |
| `RateLimitCounters.CleanupKeeps` | internal/middleware/ratelimit.ban.go:202-220 | a cleanup pass keeps exactly the bans that have not ended, and changes nothing that it keeps |
| `RateLimitCleanup.CleanupIsInvisible` | internal/middleware/ratelimit.ban.go:197-220 | every run has the verdicts of the same run without its cleanup passes, given equal or window-apart clock reads |
| `RateLimitCleanup.ForgettingIsInvisibleIff` | internal/middleware/ratelimit.ban.go:129-141 | forgetting an idle visitor is never noticed exactly when its next request's clock reads are equal or a window apart |
| `ClientUpsert.ClientTable.LookupHwid` | internal/updaterclient/updaterclient.go:476-481 | the one row with this hwid, if any |
| `ClientUpsert.ClientTable.LookupPair` | internal/updaterclient/updaterclient.go:482-488 | the one row with this hostname and domain, if any |
| `ClientUpsert.ClientTable.Upsert` | internal/updaterclient/updaterclient.go:457-540 | an undisturbed call gives the table and the id of the specification, or the database refuses it; what the row then holds is UpsertTheorems.UpsertWrites |
| `ClientUpsert.ParseSession` | internal/updaterclient/updaterclient.go:265-279 | the tidied state if it is a known one, and the parsed time exactly for a disconnected session |
| `ClientUpsert.ReportsNobody` | internal/updaterclient/updaterclient.go:207-213 | silence about the user is an answer exactly from an updater of version 1.6.2 or later |
| `ClientUpsert.WriteKeepsUnique` | internal/updaterclient/updaterclient.go:413-424 | a write keeps both unique keys exactly when it does not collide |
| `UpsertTheorems.UpsertRefusedIff` | internal/updaterclient/updaterclient.go:490-540 | an undisturbed sighting is refused exactly when it has no hostname and another row holds the empty hostname in its domain, and then changes nothing |
| `UpsertTheorems.UpsertSound` | internal/updaterclient/updaterclient.go:457-540 | both unique keys survive every sighting |
| `UpsertTheorems.UpsertEffect` | internal/updaterclient/updaterclient.go:457-540 | after an undisturbed sighting the returned row carries pair and hwid, at most one other row disappears, the rest are unchanged |
| `UpsertTheorems.UpsertWrites` | internal/updaterclient/updaterclient.go:476-540 | the row written is the one with the report's hwid, else with its pair, else a new one; column by column it holds what the report sent, or what it held where nothing was sent, and the session rules, the last report's address and the two times |
| `UpsertTheorems.SupersededByHwid` | internal/updaterclient/updaterclient.go:425-432 | a row disappears only when the hwid identified another row |
| `UpsertTheorems.EveryRunIsSafe` | internal/updaterclient/updaterclient.go:434-435 | after any run of undisturbed sightings both keys are unique and one with a hostname cannot collide |
| `UpsertSteps.AloneIsUpsert` | internal/updaterclient/updaterclient.go:457-540 | the separate statements of a call, undisturbed, are the sighting as one step |
| `UpsertSteps.InterleavedSound` | internal/updaterclient/updaterclient.go:457-540 | both keys are unique in every interleaving of the statements of any calls |
| `UpsertSteps.StatementEffect` | internal/updaterclient/updaterclient.go:490-540 | in every interleaving a call writes one row, with its pair and hwid, and deletes at most one, with its pair and not its target |
| `UpsertSteps.RowStandsIff` | internal/updaterclient/updaterclient.go:490-540 | a row is there exactly when some step wrote it and no later one wrote or deleted under its id |
| `UpsertSteps.TargetLostIff` | internal/updaterclient/updaterclient.go:476-525 | the row to update is gone exactly when another call or route deleted it since it was looked up |
| `UpsertSteps.ReturnedIdIsDeadIff` | internal/updaterclient/updaterclient.go:502-525 | a returned id has no row exactly then |
| `UpsertSteps.InterleavedRefusedIff` | internal/updaterclient/updaterclient.go:476-540 | in every interleaving a sighting is refused exactly when its target was not lost and a standing row was given its pair after its delete or its hwid after its lookup |
| `UpsertSteps.NewMachineRefused` | internal/updaterclient/updaterclient.go:476-539 | a run in which the second of two reports of a new machine is refused |
| `UpsertSteps.BothRowsLost` | internal/updaterclient/updaterclient.go:476-525 | a run in which two machines lose their rows and a call returns the id of a row that is gone |
| `UpsertTheorems.RepeatIsHarmlessIff` | internal/updaterclient/updaterclient.go:502-540 | repeating a sighting changes only timestamps exactly when it is identified and does not contradict itself |
| `UpsertTheorems.RequestsRepeatHarmlessly` | internal/updaterclient/updaterclient.go:207-213 | for identities from requests, a state sent only with a user makes every repeat harmless |
| `UpsertTheorems.NobodyClearsSessionIff` | internal/updaterclient/updaterclient.go:503-508 | "nobody logged on" clears user and state, and the disconnection time exactly when none is sent |
| `UpsertTheorems.NobodyCanKeepTime` | internal/updaterclient/updaterclient.go:200-213 | a request that says nobody is logged on and leaves a disconnection time on the row |
| `EventRollup.EventTables.BeginInsert` | internal/updaterclient/updaterclient.go:379-395 | takes the next id for a row that nobody sees yet |
| `EventRollup.EventTables.CommitInsert` | internal/updaterclient/updaterclient.go:397-410 | row and counter become visible together |
| `EventRollup.EventTables.InsertEvent` | internal/updaterclient/updaterclient.go:378-411 | an undisturbed insert changes row and counter together, or neither and only takes an id |
| `EventRollup.EventTables.DeleteStatsClient` | internal/stats/stats.route.go:346-395 | exactly the client's rows go and are counted; all others and the hourly counters stay |
| `EventRollup.SumsMatchHistory` | internal/updaterclient/updaterclient.go:350-373 | for every choice of buckets, their counters sum to the events ever inserted in them |
| `EventRollup.CountersAreExact` | internal/updaterclient/updaterclient.go:378-411 | over every run, each counter equals the events ever inserted in its bucket |
| `EventQuery.FetchStatsEvents` | internal/stats/stats.route.go:430-456 | rows ordered by bucket, one for each group with a counter in range, holding the group's sum, whatever the order of the counters |
| `EventQuery.ProductMatches` | internal/stats/stats.route.go:50-63 | no product means "emly", "emly" and "updater" filter, anything else filters nothing |
| `EventQuery.AnswerCountsHistory` | internal/stats/stats.route.go:430-456 | each row counts every event ever inserted in its day or hour of the range |
| `EventQuery.RangeCountsHistory` | internal/stats/stats.route.go:438-441 | the range counts the events with floorHour(from) <= created < floorHour(to) + 1h |
| `EventQuery.DefaultIsEmly` | internal/stats/stats.route.go:43-63 | without product and type, the answer counts exactly the "emly" events of the whole hours of the range |
| `EventQuery.DayIsSumOfHours` | internal/stats/stats.route.go:433-438 | a day is the sum of its 24 hours |
| `EventPrune.FirstKept` | internal/eventprune/eventprune.go:111-119 | the boundary: lowest id in the window, else one after the last |
| `EventPrune.RunPrune` | internal/eventprune/eventprune.go:98-154 | terminates under arbitrary beginnings and ends of inserts and client deletions between batches; its steps form a pass whose batches are full but for the last of a completed one; it is interrupted exactly by the failure of the next deletion or a cancellation after the last; the total is theirs |
| `EventPrune.PassRemovesExpiredOrOpen` | internal/eventprune/eventprune.go:98-154 | even an interrupted pass removes only rows that it saw and that had expired, and rows whose insert was open below the boundary |
| `EventPrune.PassRemovesOnlyExpiredIff` | internal/eventprune/eventprune.go:101-119 | no pass removes a row inside the window exactly when no insert of one is open below the boundary as it begins |
| `EventPrune.TotalIsRowsRemoved` | internal/eventprune/eventprune.go:124-141 | the total is the number of distinct rows removed |
| `EventPrune.CompletedLeavesNone` | internal/eventprune/eventprune.go:125-141 | a completed pass leaves no id below the boundary |
| `EventPrune.CompletedPassIsExact` | internal/eventprune/eventprune.go:98-154 | a completed pass keeps exactly the rows at or above the boundary, the window's rows when ids follow it |
| `EventPrune.BoundaryExactIff` | internal/eventprune/eventprune.go:101-119 | the boundary separates expired rows from the rest exactly when no expired id is above an unexpired one |
| `EventPrune.RunIdsBelowNext` | internal/updaterclient/updaterclient.go:385-395 | in every table a run can reach, ids are below the next one and no row is both seen and open |
| `EventPrune.PassAfterAnyRun` | internal/eventprune/eventprune.go:98-154 | after any history, a completed pass among other steps keeps the rows from the boundary on, removed only expired ones, and left the counters exact |
| `TtlCache.Cache.LookUp` | internal/ttlcache/ttlcache.go:75-84 | the locked lookup, whole-map drop included |
| `TtlCache.Get` | internal/ttlcache/ttlcache.go:70-103 | whatever others do before it gets the lock and while it builds: what it reports, the steps it took, and that it goes on waiting only for a held lock; with no positive TTL it builds and leaves the cache alone; when it is served is TtlCacheFreshness.GetAfter |
| `TtlCacheTheorems.RunSound` | internal/ttlcache/ttlcache.go:70-103 | the invariant over map, entries, locks and stored values in every interleaving |
| `TtlCacheTheorems.ServedIsFresh` | internal/ttlcache/ttlcache.go:91-93 | a value served without building came from a successful build of the same key less than one TTL ago |
| `TtlCacheFreshness.FreeIffNotBusy` | internal/ttlcache/ttlcache.go:86-87 | in every run an entry's lock is free exactly while nobody builds on it |
| `TtlCacheFreshness.RunStoresLast` | internal/ttlcache/ttlcache.go:91-101 | in every run an entry holds the value of the last build that finished on it, and none before the first |
| `TtlCacheFreshness.ServedIffFresh` | internal/ttlcache/ttlcache.go:86-102 | in every run a caller entering an entry waits exactly while somebody builds on it, is served exactly when a build on it finished less than one TTL ago, with the value of the last, and else builds |
| `TtlCacheFreshness.ServedIffKeyIsFresh` | internal/ttlcache/ttlcache.go:75-102 | while no lookup finds the map full, the same by key: served exactly when a build of the key finished less than one TTL ago |
| `TtlCacheFreshness.GetAfter` | internal/ttlcache/ttlcache.go:70-103 | what Get returns on a cache with any history: nothing yet while somebody builds on its entry, the value of the last build if fresh, else what its own build returns |
| `TtlCacheTheorems.BuildsExclude` | internal/ttlcache/ttlcache.go:76-87 | callers sharing an entry never build at once, and the map holds at most 512 entries |
| `TtlCacheTheorems.OnlySuccessIsStored` | internal/ttlcache/ttlcache.go:95-101 | every value in an entry was stored by a call that was building on that entry and finished with it, one TTL before it expires |
| `TtlCacheTheorems.FailedIff` | internal/ttlcache/ttlcache.go:95-99 | a call has failed exactly when its own build failed |
| `TtlCacheTheorems.WaiterRebuildsAfterFailure` | internal/ttlcache/ttlcache.go:86-99 | in every run, a caller waiting for an entry whose build fails goes on waiting, can enter at once and builds for itself |
| `TtlCacheTheorems.FailureThenSuccess` | internal/ttlcache/ttlcache.go:86-102 | a run in which one caller fails and the one that waited for it gets its own value |
| `TtlCacheTheorems.JoinsBuildIff` | internal/ttlcache/ttlcache.go:75-84 | a caller joins a running build exactly when the map is not full and still has its entry |
| `TtlCacheTheorems.SingleFlight` | internal/ttlcache/ttlcache.go:75-87 | one build for each key at a time while no lookup finds the map full |
| `TtlCacheTheorems.FullMapBuildsTwice` | internal/ttlcache/ttlcache.go:76-78 | a run in which dropping the full map lets one key be built twice at once |
| `StreamCoalescer.Connection.NoteHubEvent` | internal/stats/stats_stream.route.go:384-413 | the marks of one event are added and nothing else changes |
| `StreamCoalescer.Connection.TakePending` | internal/stats/stats_stream.route.go:419-429 | what was pending is handed out and nothing stays pending |
| `StreamCoalescer.Connection.Upserted` | internal/stats/stats_stream.route.go:452-459 | the delta holds exactly the marked clients in ascending order of id |
| `StreamCoalescer.Connection.Flush` | internal/stats/stats_stream.route.go:433-471 | the messages of a flush with what their queries are asked, and the error message of a failed snapshot |
| `StreamTheorems.PendingIff` | internal/stats/stats_stream.route.go:384-429 | a mark is pending exactly when an event made it and no flush happened since: any event marks the summary, a tick the snapshot, an ingested one its client, and the events channel if its kind, product and time are asked for |
| `StreamTheorems.PendingHolds` | internal/stats/stats_stream.route.go:384-429 | pending shows a mark exactly when it holds one that some step put there |
| `StreamTheorems.EachMarkToOneFlush` | internal/stats/stats_stream.route.go:384-429 | a mark with any flush after it is taken from pending by exactly one flush, and no flush takes one that was not made |
| `StreamTheorems.LatestRowIsPending` | internal/stats/stats_stream.route.go:395-400 | the pending row of a client is that of its latest mark |
| `StreamTheorems.OneMessagePerChannel` | internal/stats/stats_stream.route.go:433-471 | at most one message on each channel, and one for each stale channel whose query succeeds, asked what the subscription asks |
| `StreamReader.CoalescedIsDirect` | internal/stats/stats_stream.route.go:309-471 | since the last snapshot that levelled them, and with nothing dropped or overtaken after it, the reader's rows and what is pending make up the rows of a reader told of every event |
| `StreamReader.CaughtUpAfterFlush` | internal/stats/stats_stream.route.go:433-471 | after a flush both readers then hold the same rows, the online field aside |
| `StreamReader.AgreeIffSettled` | internal/stats/stats_stream.route.go:309-471 | over all sequences of what can happen to one client, the readers agree exactly when the last deciding step settles it |
| `StreamReader.AgreeOnClientIff` | internal/stats/stats_stream.route.go:309-471 | in every run, they agree on a client exactly when it was last marked, sent in a snapshot, answered with nothing owed that the answer lacks, or its lost delta was held already |
| `StreamReader.AgreeIff` | internal/stats/stats_stream.route.go:309-471 | they agree on all rows exactly when every client is settled |
| `StreamReader.FailedSnapshotLosesDelta` | internal/stats/stats_stream.route.go:446-450 | a run in which a tick's failed snapshot loses the delta of its window |
| `StreamReader.OlderRowOvertakes` | internal/stats/stats_stream.route.go:317-319 | a run in which a subscribe's answer is overtaken by an older row |
| `StreamTheorems.RefreshedIffInRange` | internal/stats/stats_stream.route.go:357-368 | a refreshing event is counted by the query; the counted events that do not refresh are exactly those in the partial hours at the ends |
| `StreamTheorems.LiveEventsDoNotRefresh` | internal/stats/stats_stream.route.go:149-156 | events later than the end of the range never refresh the events channel |
| `Releases.ReleaseTable.CreateRelease` | internal/updates/updates.route.go:217-262 | the slots a new release claims are cleared and it is added, or nothing changes |
| `Releases.ReleaseTable.PutRelease` | internal/updates/updates.route.go:497-549 | the same for a replacement; an update that changes nothing is "not found" |
| `Releases.ReleaseTable.PatchRelease` | internal/updates/updates.route.go:572-677 | the same for a partial update |
| `Releases.ReleaseTable.PatchReleaseChannels` | internal/updates/updates.route.go:404-455 | the same for the channel flags |
| `Releases.ReleaseTable.DeleteRelease` | internal/updates/updates.route.go:330-356 | only the named release goes |
| `Releases.ReleaseTable.ClearStableFlag` | internal/updates/updates.route.go:38-42 | no other version stays stable, and nothing else changes |
| `Releases.ReleaseTable.ClearBetaFlag` | internal/updates/updates.route.go:44-48 | no other version stays beta, and nothing else changes |
| `ReleaseTheorems.OthersOnlyLoseSlots` | internal/updates/updates.route.go:34-48 | other releases change only by losing the slots a successful write claims |
| `ReleaseTheorems.ClaimTakesSlot` | internal/updates/updates.route.go:34-48 | a successful write holds every slot it claims |
| `ReleaseEffects.CreateExactly` | internal/updates/updates.route.go:217-262 | the answer of a create, and on success the new row as sent, with every other release giving up the slots it takes |
| `ReleaseEffects.PutExactly` | internal/updates/updates.route.go:497-549 | the answer of a replacement, a write that changes no column being "not found"; on success every column of the row, and what the others give up |
| `ReleaseEffects.PatchExactly` | internal/updates/updates.route.go:572-677 | the same for a partial update: each field sent sets its own column, every other column stays |
| `ReleaseEffects.ChannelsExactly` | internal/updates/updates.route.go:404-455 | the same for the channel flags |
| `ReleaseEffects.DeleteExactly` | internal/updates/updates.route.go:330-356 | the answer of a delete, and that exactly the named release goes |
| `ReleaseTheorems.OneHolderPerSlot` | internal/updates/updates.route.go:217-677 | over every run at most one release is stable, one beta, one critical |
| `ReleaseTheorems.BuildManifest` | internal/updates/updates.route.go:690-747 | the loop gives each slot to its last holder and collects the notes by version |
| `ReleaseTheorems.ManifestIgnoresOrder` | internal/updates/updates.route.go:690-747 | over every run the manifest is the same for every order of the rows |
| `ReleaseEffects.ManifestNamesSlots` | internal/updates/updates.route.go:720-747 | over every run the stable, beta and critical entries, links and minimum version included, are those of the one release that holds the slot, and empty when none does |
| `ReleaseEffects.ManifestListsReleases` | internal/updates/updates.route.go:690-747 | over every run checksums and notes are listed exactly for the releases that have them, detailed notes exactly for those with a severity and in the languages they have, and not at all when there are none |
| `ReleaseTheorems.TwoHoldersDisagree` | internal/updates/updates.route.go:729-735 | with two stable releases the order would show |

## Left out

- SQL text, isolation levels and drivers: tables are maps and a transaction or a statement outside one is one step; the plain read of the current published revision is taken as part of its transaction.
- JSON text syntax, case-insensitive and duplicate keys, float64 rounding and integer widths: the model works on trees with exact keys and mathematical integers, and identifies stored bytes with the tree they spell.
- RFC 3339, CIDR, IP and URL parsing, decimal integers, case folding, regular expressions, dotted versions and SHA-256: parameters that may answer anything.
- Problem messages and list indices in problem paths: a path is a sequence of keys without indices.
- EventPrune.RunPrune: batches are chosen arbitrarily; pauses and their length, a failing boundary query and a deletion whose row count cannot be read are not modelled.
- PresenceHub.PresenceIsAccurate: a timer may fire at any moment after it is armed; the length of the grace period and the wrap-around of the generation counter are not modelled.
- RateLimitTightness.TwiceTheLimitIsReached: a window of a single tick cannot reach the bound, because both bursts need distinct ticks within one window.
- RateLimiter.RateLimiter.Handle: one step for a whole request; the interleavings of its parts are the subject of RateLimitSteps.
- RateLimitCleanup.CleanupIsInvisible: compares runs of the one-step handler; RateLimitSweeps has the interleaved steps.
- MirrorAcceptance.RealSyncCatchesUpIff: assumes an injective hash, which SHA-256 is taken to be.
- StreamReader.CoalescedIsDirect: takes every sent message as delivered.
- StreamCoalescer.Connection.Flush: the subscription is read in the same step as the pending marks; the rows a query returns, other than those of a snapshot, are not carried.
- ClientUpsert.ClientTable.Upsert: one call with no statement of another in between; the interleavings are the subject of UpsertSteps.
- UpsertTheorems.UpsertRefusedIff: for an undisturbed call; see UpsertSteps.InterleavedRefusedIff.
- UpsertTheorems.UpsertEffect: for an undisturbed call; see UpsertSteps.StatementEffect.
- UpsertTheorems.UpsertWrites: for an undisturbed call, which UpsertSteps.AloneIsUpsert takes apart into its statements.
- EventRollup.EventTables.DeleteStatsClient: the foreign-key lock that makes a deletion wait for the client's open inserts is not modelled, so more interleavings are allowed than occur.
- UpsertTheorems.EveryRunIsSafe: for undisturbed calls; compares hwid, hostname and domain by equality; the database's collation is not modelled.
- Unknown-field warnings, etag header parsing, the summary and client list queries: would add only easier members.
- WebSocket, HTTP and S3 transfer, routing, health, telemetry, admin login, sessions, API keys, bans by hwid, bug reports, the migrator: plumbing around libraries and queries.
