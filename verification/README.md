# Pinniped: shared state, leases and rewriting, verified in Dafny

Pinniped is a set of Kubernetes controllers and servers that give users one login for many
clusters. Most of what can go wrong in it is several processes changing shared Kubernetes objects
at once. This project models the parts where that is hard and proves what they promise.

- `ApiServer.dfy` is the common ground: named objects with a uid and a resourceVersion, and create,
  get, update and delete under optimistic concurrency. `Evolves` is what any number of other
  clients may do between two calls.
- `Sessions.dfy` and `SessionSafety.dfy` are the OAuth session protocol: authorize, redeem, refresh,
  replay and sweep, each cut into single API calls, by any number of actors in any order. Every
  theorem is about `Run(actions)` for an arbitrary list of actions, so about every interleaving.
  `SessionProgress.dfy` adds what each of them achieves when nobody interferes.
- `Lifetimes.dfy`, `SessionTiming.dfy`, `SessionTimingSafety.dfy` and `SessionTimingWitness.dfy` put
  a clock to the protocol: lifespans of tokens, deadlines of their records, sweeps that only take up
  what is due, requests that take their time and informer views that lag behind.
- `Crud.dfy`, `AuthorizeCode.dfy` and `GarbageCollector.dfy` are the code behind those steps;
  `Refinement.dfy` shows that the steps of the protocol are the calls of that code.
- `SecretNames.dfy` is how a signature becomes the name of a Secret (sections 4 to 6 of RFC 4648).
- `LeaderElection.dfy` is the lease, the in-memory write flag and the timing constants;
  `LeaderWrites.dfy` joins it with the middleware that asks for the flag.
- `KubeClient.dfy` and `GroupSuffix.dfy` are the client middleware and the API group suffix.
- `Impersonator.dfy` and `ServiceAnnotations.dfy` are the impersonation proxy's server lifecycle
  and the reconciliation of its Service.
- `CredentialCache.dfy` is the credential cache file, proved to refine a map with expiry.
- `JwksWriter.dfy`, `Certificates.dfy`, `FederationDomains.dfy`, `Conditions.dfy`,
  `Strategies.dfy` and `EndpointAddr.dfy` are the remaining controllers and helpers, with
  `Sorting.dfy`, `KeyedLists.dfy` and `Ascii.dfy` behind them.

Where the source works in place (a controller's fields, a file, a list that is edited and sorted),
the model is a class whose methods are proved against functions on values. Protocols of several
processes are state machines with a total step function. A method that talks to the shared store
calls `OthersAct` before each API call, so that its contract holds whatever others do in between.

Six promises turn out to hold only under a condition, which is then proved to be the right one:

- A sweep revokes only the latest upstream token of a session if its informer view is current, and
  an eligible view is current exactly if its Secret is still the one to revoke for
  (`CurrentViewMeansLatest`). No sweep ever revokes an upstream token that a living session still
  uses, if and only if the age of views and the duration of token requests together stay below the
  1 minute and 59 seconds by which a refresh token's record outlives its use
  (`SparesTheLivingExactlyIfFresh`).
- No two processes may write at once exactly if lease writes are answered in less than
  137 - 107 - 26 = 4 seconds and OnStartedLeading is not overtaken by the end of its own election
  (`ExclusiveExactlyWhenSafe`). The comments in the source speak of the constants only.
- Owner references survive the group suffix exactly if none has a group that ends in "." and the
  suffix but not in ".pinniped.dev"; on a subresource such as a status, exactly if none has a group
  that ends in "." and the suffix at all (`RefsSurvive`).
- A successful sync of the impersonation proxy's Service leaves the annotations as its spec asks for,
  and dropped keys gone, exactly if it saw no Service, or what its informer showed was current, or
  nothing was to be done anyway (`SuccessSettlesExactlyIf`).
- A generated certificate is not due for renewal when it is issued exactly if renewBeforeSeconds is
  more than 300, since certificates are backdated by five minutes and the expirer counts from
  NotBefore; smaller values pass validation (`FreshIsNotDueExactlyIf`).
- Distinct signatures have distinct Secret names exactly if they decode differently; canonical ones
  do (`CanonicalNamesAreDistinct`), and a newline after a signature makes no difference to its name
  exactly if some decoder takes the signature (`NonCanonicalSignaturesCollide`).

## Model

| member | source | states |
|---|---|---|
| `ApiServer.VersionPinsContent` | internal/crud/crud.go:96-119 | however others act between a read and a later moment, an object that still has the version that was read is the object that was read |
| `ApiServer.EvolvesTransitive` | internal/crud/crud.go:96-119 | what others may do in two stretches of time is what they may do in one |
| `SessionSafety.RunKeeps` | internal/oidc/kube_storage.go:56-172 | every interleaving of authorize, redeem, refresh, replay and sweep steps keeps the invariant: one holder each of a session's access and refresh right, pinned reads, listed names, access and refresh record in step |
| `SessionSafety.EligibleIsUniqueAndLatest` | internal/controller/supervisorstorage/garbage_collector.go:171-238 | in every interleaving at most one Secret of a session is one whose upstream token would be revoked, and no Secret of that session holds a newer upstream token |
| `SessionTimingSafety.EligibleExactlyIfHolding` | internal/controller/supervisorstorage/garbage_collector.go:171-238 | in every run, a stored Secret is one whose upstream token would be revoked if and only if it holds its session's right to go on |
| `SessionSafety.CurrentViewMeansLatest` | internal/controller/supervisorstorage/garbage_collector.go:130-166 | a sweep's pinned delete goes through exactly if its view is current; an eligible view is current if and only if its Secret is still eligible, and then that is the session's only eligible one, with the newest upstream token |
| `SessionTimingWitness.SparesTheLivingExactlyIfFresh` | internal/oidc/oidc.go:161-190 | no sweep in any run revokes an upstream token that its session still uses, if and only if the age of informer views plus the duration of token requests stays below the margin that the storage lifetimes leave |
| `SessionTimingSafety.FreshViewsSpareTheLiving` | internal/controller/supervisorstorage/garbage_collector.go:106-150 | below that margin, a sweep that is about to revoke never does so for a session that lives on, with any upstream token |
| `SessionTimingWitness.OldViewsHitTheLiving` | internal/controller/supervisorstorage/garbage_collector.go:106-150 | from that margin on there is a run in which a due Secret, replaced by a refresh within the lifespan of its token, is still in the view of a sweep, which revokes the token that the session goes on using |
| `SessionTimingSafety.TimedRunKeeps` | internal/oidc/oidc.go:135-190 | every run with a clock keeps the invariant: codes and tokens are used within their lifespans, sweeps began on due Secrets with fresh enough views, and an eligible Secret was taken over in time unless its session is dead |
| `SessionTimingSafety.LossIsExplained` | internal/oidc/kube_storage.go:127-172 | an eligible Secret is only ever lost to the request that takes its session over, or with its session |
| `SessionTimingSafety.DeadStays` | internal/oidc/kube_storage.go:56-172 | a session that nobody can continue stays so |
| `SessionTiming.ClockedRunsAreRuns` | internal/controller/supervisorstorage/garbage_collector.go:126-129 | every run with a clock is a run of the protocol without one |
| `SessionTimingWitness.RefreshTokenCanBeAlone` | internal/crud/crud.go:128-149 | a refresh that breaks off halfway leaves a refresh token without an access token, in a reachable state |
| `SessionSafety.RefreshTokensAreConserved` | internal/fositestorage/refreshtoken/refreshtoken.go:75-98 | in every interleaving, all stored refresh tokens of a session plus the refreshes that deleted one and have not stored its successor, plus the unredeemed code that may still lead to one, number at most one |
| `SessionSafety.ListingIsSingle` | internal/crud/crud.go:128-149 | in every reachable state, listing a session's access or refresh tokens for deletion lists exactly one |
| `SessionSafety.AuthcodeIsRedeemedAtMostOnce` | internal/fositestorage/authorizationcode/authorizationcode.go:114-129 | of all invalidations of one authcode in any interleaving, at most one succeeds (section 4.1.2 of RFC 6749) |
| `SessionSafety.InvalidatedStaysInactive` | internal/fositestorage/authorizationcode/authorizationcode.go:114-158 | an invalidated authcode is never active again, however the run goes on |
| `SessionSafety.InvalidateHitsActive` | internal/fositestorage/authorizationcode/authorizationcode.go:114-129 | an invalidation that succeeds finds the code exactly as it was read, active and not yet invalidated, and changes nothing but the active flag |
| `SessionSafety.InvalidateKeeps` | internal/fositestorage/authorizationcode/authorizationcode.go:114-129 | the redeemer whose update went through takes over the session's rights from the code |
| `SessionSafety.MintAccessKeeps` | internal/fositestorage/accesstoken/accesstoken.go:74-92 | storing the access token keeps the invariant, in particular that access and refresh record hold the same upstream token |
| `SessionSafety.MintRefreshKeeps` | internal/fositestorage/refreshtoken/refreshtoken.go:84-98 | storing the refresh token keeps the invariant: it takes over the right the minter held |
| `SessionSafety.DeleteRefreshKeeps` | internal/crud/crud.go:128-149 | deleting the refresh token during rotation moves its right to the refresher, and losing the race ends the refresh |
| `SessionProgress.RedeemCompletes` | internal/oidc/kube_storage.go:56-76 | an undisturbed redemption of an active code uses it up and stores an access token, and a refresh token exactly if offline access was granted, and touches nothing else |
| `SessionProgress.RefreshCompletes` | internal/oidc/kube_storage.go:127-192 | from every reachable state an undisturbed refresh replaces both tokens of its session, carrying the new upstream token if there is one, and touches nothing else |
| `SessionProgress.RefreshNeedsAccessToken` | internal/crud/crud.go:128-149 | a refresh that finds no access token to delete fails and changes no Secret |
| `SessionProgress.ReplayRevokesTheSession` | internal/oidc/kube_storage.go:127-172 | presenting a used code again, undisturbed, deletes all access and refresh tokens of its session and nothing else (section 4.1.2 of RFC 6749) |
| `SessionProgress.AuthorizeCompletes` | internal/fositestorage/authorizationcode/authorizationcode.go:71-95 | a login stores an active code with the original upstream token and touches nothing else |
| `SessionProgress.CompanionsComeAndGo` | internal/oidc/kube_storage.go:78-125 | PKCE and OpenID Connect records are stored next to the code; dropping the PKCE record restores the store, and the OpenID Connect record cannot be dropped that way |
| `SessionProgress.SweepDeletesExactlyTheSeenVersion` | internal/controller/supervisorstorage/garbage_collector.go:155-166 | from every reachable state, an undisturbed sweep of any version that was ever stored deletes the Secret if and only if that version is current, and touches nothing else |
| `Crud.OnlyOwnResourceReadsBack` | internal/crud/crud.go:153-225 | a document stored for a resource is read back by that resource, whatever labels were added, and refused by every other |
| `Crud.StoredAs` | internal/crud/crud.go:192-225 | type, version, owners, all labels, and a deadline of whole seconds exactly if there is a lifetime |
| `Crud.ReadExactlyIf` | internal/crud/crud.go:153-179 | any Secret is read if and only if its type, label and version are right; which error it gets otherwise |
| `Crud.SecretsStorage.Create` | internal/crud/crud.go:71-81 | succeeds exactly if the name is free when the call arrives, and then stores the document with its labels and deadline |
| `Crud.SecretsStorage.Get` | internal/crud/crud.go:83-94 | returns version and document of what is stored at that moment, or why it cannot |
| `Crud.SecretsStorage.Update` | internal/crud/crud.go:98-119 | the result is decided by the stored version alone; success replaces exactly the named version, and if that was read before the call, keeps its labels, annotations and owners although they come from another read |
| `Crud.SecretsStorage.DeleteByLabel` | internal/crud/crud.go:128-149 | what is listed is exactly what has both labels; success means that something was listed and that every listed Secret was deleted by this very call; it fails if nothing is listed, and otherwise exactly at a delete that finds its Secret gone, having deleted the ones listed before it |
| `AuthorizeCode.AuthorizeCodeStorage.CreateAuthorizeCodeSession` | internal/fositestorage/authorizationcode/authorizationcode.go:71-95 | stores an active session of the current version exactly if the name is free |
| `AuthorizeCode.AuthorizeCodeStorage.InvalidateAuthorizeCodeSession` | internal/fositestorage/authorizationcode/authorizationcode.go:114-158 | the verdict is decided by what was read and by whether that version is still stored; success means the stored session was active and only its active flag changed |
| `AuthorizeCode.VerdictMeans` | internal/fositestorage/authorizationcode/authorizationcode.go:97-158 | an invalidation succeeds if and only if an active code was read and is still there unchanged; a changed one is a serialization failure, one that is gone a storage failure, and used and missing codes are told apart |
| `Refinement.CreationAgrees` | internal/fositestorage/authorizationcode/authorizationcode.go:71-95 | the Secret that is created for a code stands for the record that the protocol's authorize step stores, with its deadline |
| `Refinement.ReadingAgrees` | internal/fositestorage/authorizationcode/authorizationcode.go:131-158 | the protocol's first redeem step goes on, turns to revocation or gives up exactly as reading the stored session says |
| `Refinement.InvalidationAgrees` | internal/fositestorage/authorizationcode/authorizationcode.go:114-129 | the protocol's last redeem step succeeds if and only if the verdict is that the code was invalidated, and the stores agree again afterwards |
| `Refinement.MetadataReadAgrees` | internal/crud/crud.go:104-107 | the protocol's second redeem step is the update's own read |
| `Refinement.MintingAgrees` | internal/fositestorage/refreshtoken/refreshtoken.go:84-98 | a token Secret with its request ID label stands for the token that the protocol stores |
| `Refinement.ListingAgrees` | internal/crud/crud.go:128-137 | what can be listed by request ID is what the protocol's list step can find, and the other way round |
| `Refinement.RefreshListsAlike` | internal/crud/crud.go:128-141 | an empty listing ends a refresh, any other is deleted |
| `Refinement.ReplayListsAlike` | internal/fositestorage/accesstoken/accesstoken.go:74-76 | a replayed code lists the same way and goes on in either case |
| `Refinement.DeletionAgrees` | internal/crud/crud.go:141-148 | a delete by name goes through exactly if the protocol's does, and the same tokens are left |
| `Refinement.SweepCallsAgree` | internal/controller/supervisorstorage/garbage_collector.go:126-166 | the collector only revokes where the protocol's rule says so, and deletes the version that the protocol's sweep deletes |
| `Refinement.SweepDeletesAlike` | internal/controller/supervisorstorage/garbage_collector.go:155-166 | the protocol's sweep removes the Secret exactly if that pinned delete goes through |
| `GarbageCollector.Controller.FindUpstream` | internal/controller/supervisorstorage/garbage_collector.go:246-258 | returns the first provider with both the name and the UID of the session's, and nothing exactly if none has both |
| `GarbageCollector.TryRevokeMeaning` | internal/controller/supervisorstorage/garbage_collector.go:240-279 | which of a session's tokens are revoked and in which order, that only the last call can have failed, that all is fine exactly if none did, and that a retry is asked for exactly if the failed one asks for it |
| `GarbageCollector.Controller.MaybeRevokeUpstreamOIDCToken` | internal/controller/supervisorstorage/garbage_collector.go:171-238 | computes the calls and the trouble of one Secret, whose meaning the rows below give in terms of labels and fields |
| `GarbageCollector.Controller.Sync` | internal/controller/supervisorstorage/garbage_collector.go:89-169 | a sync sweeps exactly if the last sweep is at least 30 seconds ago, and then makes exactly the specified calls in order |
| `GarbageCollector.DeletedExactlyWhenDueAndNotKept` | internal/controller/supervisorstorage/garbage_collector.go:126-166 | a Secret is submitted for deletion, pinned to the version seen, if and only if its deadline has passed and it is not the case that its provider asks for a retry and the deadline is less than four hours ago |
| `GarbageCollector.RevokedTokensAreEligible` | internal/controller/supervisorstorage/garbage_collector.go:130-150 | every revoked token is one of a Secret past its deadline that is an active authcode, an access token without offline access, or a refresh token |
| `GarbageCollector.EligibleTokensAreRevoked` | internal/controller/supervisorstorage/garbage_collector.go:171-279 | a token of a Secret is revoked if and only if the deadline has passed, the Secret is an active authcode, an access token without offline access or a refresh token, its provider is there, and, for the access token, revoking the refresh token did not fail |
| `GarbageCollector.DeletionComesLast` | internal/controller/supervisorstorage/garbage_collector.go:130-166 | nothing is revoked for a Secret after its deletion |
| `GarbageCollector.SweepsAreSpaced` | internal/controller/supervisorstorage/garbage_collector.go:97-103 | over any sequence of syncs, the i-th and j-th sweep are at least (j - i) times 30 seconds apart |
| `Lifetimes.NeverDueWhileNeeded` | internal/oidc/oidc.go:174-190 | although deadlines are cut to whole seconds, no record is due before the lifespan it must cover has passed, and each is due once its storage lifetime has |
| `Lifetimes.DeadlinesInSeconds` | internal/oidc/oidc.go:161-190 | from which second on each kind of record is due, and for how many seconds each is needed |
| `GarbageCollector.DueWhenRecordIs` | internal/crud/crud.go:204-209 | a Secret with the deadline that its storage gave it is due exactly when its record is |
| `SecretNames.RegroupRoundTrip` | internal/crud/crud.go:181-190 | cutting bytes of any number into groups of n bits and back gives the same bytes, for every n that fits |
| `SecretNames.Lower32Chars` | internal/crud/crud.go:184-190 | the lower-case base32 text is made of a-z and 2-7 only, so it has no "-" |
| `SecretNames.Lower32Injective` | internal/crud/crud.go:184-190 | different bytes have different lower-case base32 texts |
| `SecretNames.Lower32Means` | internal/crud/crud.go:184-190 | the text, read in base 32 by the alphabet of RFC 4648, is the number that the bytes are, followed by fewer than five zero bits |
| `SecretNames.CanonicalDecodes` | internal/crud/crud.go:227-240 | a canonical unpadded URL base64 signature decodes to the bytes that were encoded |
| `SecretNames.RawEncodeMeans` | internal/crud/crud.go:227-240 | the same for base 64 in both alphabets |
| `SecretNames.EveryEncodingDecodes` | internal/crud/crud.go:227-240 | every encoding of any bytes, standard or URL, padded or not, decodes to those bytes |
| `SecretNames.UndecodableIsItself` | internal/crud/crud.go:227-240 | what no decoder takes stands for its own bytes |
| `SecretNames.NameOfEncodedSignature` | internal/crud/crud.go:184-190 | the name of a signature in any of these encodings, in full |
| `SecretNames.NamesAgreeExactlyWhenDecodedAgree` | internal/crud/crud.go:184-190 | two names are equal exactly if the resources are and the decoded signatures are |
| `SecretNames.CanonicalNamesAreDistinct` | internal/crud/crud.go:184-190 | on canonical signatures the name determines resource and bytes |
| `SecretNames.DistinctClientsGetDistinctSecrets` | internal/oidcclientsecretstorage/oidcclientsecretstorage.go:120-127 | different OIDCClient UIDs have different Secrets |
| `SecretNames.NonCanonicalSignaturesCollide` | internal/crud/crud.go:227-240 | a newline after a signature leaves its name the same if and only if some decoder takes the signature |
| `LeaderElection.ExclusiveExactlyWhenSafe` | internal/leaderelection/leaderelection.go:142-158 | no run ever has two processes with the write flag up, if and only if answers take less than 4 seconds and the start callback is not overtaken |
| `LeaderElection.SafeMeansExclusive` | internal/leaderelection/leaderelection.go:174-225 | the safe direction, over every run of every number of processes |
| `LeaderElection.HeldLeaseIsNotTaken` | internal/leaderelection/leaderelection.go:146-150 | when one process's view lets it take the lease, no other leads and no other can still be told that it does |
| `LeaderElection.StoppedMayNotWrite` | internal/leaderelection/leaderelection.go:93-121 | once its controllers have stopped, or it gave up leading, or has just come up, a process may not write, in any continuation of any run, until it is told again that it leads |
| `LeaderElection.LeadersAreToldToWrite` | internal/leaderelection/leaderelection.go:150-155 | a process whose lease write is answered in time leads, and may write once it is told so; one that gets no answer follows again |
| `LeaderElection.LeadingIsLimited` | internal/leaderelection/leaderelection.go:146-150 | in every run, whatever the delays, nobody leads for more than 133 seconds after its last answered renewal, and nobody takes a lease that another holds before having seen it unchanged for 137 seconds |
| `LeaderElection.ReleaseHandsOver` | internal/leaderelection/leaderelection.go:174-225 | a leader that gives up and releases may not write, and another process can lead and write at once |
| `LeaderElection.GivingUpWithoutRelease` | internal/leaderelection/leaderelection.go:150-160 | a leader that gives up without releasing may not write, and leaves the lease alone |
| `LeaderElection.ReleaseKeeps` | internal/leaderelection/leaderelection.go:211-225 | a release keeps the invariant, because the flag went down before it was sent |
| `LeaderElection.SlowAnswersBreakExclusion` | internal/leaderelection/leaderelection.go:146-150 | with answers that may take 4 seconds or more there is a run with two writers |
| `LeaderElection.LateStartsBreakExclusion` | internal/leaderelection/leaderelection.go:150-160 | if the start callback may run after its election was released there is a run with two writers |
| `LeaderWrites.OneWriterExactlyWhenSafe` | internal/leaderelection/leaderelection.go:60-80 | at no moment of any run can two processes get a write past their leader checks, whatever other middlewares there are, if and only if the election is configured safely |
| `LeaderWrites.GoesOutOnlyWithFlag` | internal/leaderelection/leaderelection.go:60-80 | a write that goes out does so from a process whose flag is up |
| `LeaderWrites.NothingGoesOutAfterStop` | internal/leaderelection/leaderelection.go:93-121 | no write gets out of a process whose controllers have stopped, in any continuation, until it leads again |
| `Impersonator.RunKeeps` | internal/controller/impersonatorconfig/impersonator_config.go:383-454 | every interleaving of syncs and server goroutines keeps the relation between worker, channels and goroutines |
| `Impersonator.NoFaults` | internal/controller/impersonatorconfig/impersonator_config.go:383-454 | no channel is ever closed twice, sent on after close, or used when nil |
| `Impersonator.OneServerWithItsOwnChannels` | internal/controller/impersonatorconfig/impersonator_config.go:417-432 | at most one server goroutine is alive, and though it reads the channel fields late, it sees those of its own start |
| `Impersonator.StoppingDoesNotDeadlock` | internal/controller/impersonatorconfig/impersonator_config.go:437-454 | while the worker waits, the goroutine it waits for exists, has been told to stop, nothing but that goroutine's steps changes this, each brings it nearer, and the last frees the worker |
| `Impersonator.StoppingStops` | internal/controller/impersonatorconfig/impersonator_config.go:437-454 | from every reachable state with a server, stopping ends with the goroutine done, both its channels closed, both fields forgotten and the worker idle |
| `Impersonator.WorkerCanBeBlocked` | internal/controller/impersonatorconfig/impersonator_config.go:437-454 | a run in which the worker does wait |
| `Impersonator.DeadServerIsRestarted` | internal/controller/impersonatorconfig/impersonator_config.go:384-405 | a server that died is noticed by the next sync, cleaned up without blocking, and started again by the one after |
| `ServiceAnnotations.Controller.CollectKeys` | internal/controller/impersonatorconfig/impersonator_config.go:555-561 | the recorded keys do not depend on the order of map iteration |
| `ServiceAnnotations.Controller.CreateOrUpdateService` | internal/controller/impersonatorconfig/impersonator_config.go:547-635 | a write goes through exactly if the view is current, and leaves exactly the reconciled Service; no write means none is needed; after a success from no view or a current one the stored fields are those asked for and everything else of the Service is as it was |
| `ServiceAnnotations.SyncFromCurrentView` | internal/controller/impersonatorconfig/impersonator_config.go:547-635 | in every run: a sync that rightly sees no Service creates it as asked for; one that sees the Service as it is leaves the fields asked for, the foreign annotations, the spec's and the rest, and writes nothing if and only if all that was so before |
| `ServiceAnnotations.StoredIsForeignPlusWritten` | internal/controller/impersonatorconfig/impersonator_config.go:547-635 | after any sequence of spec changes, syncs from views of any age, foreign edits to other keys, deletions and creations: exactly the foreign annotations, those of the last spec that was written, and the bookkeeping key if that is not empty |
| `ServiceAnnotations.SuccessSettlesExactlyIf` | internal/controller/impersonatorconfig/impersonator_config.go:571-634 | a sync that reports success leaves exactly the foreign annotations and its spec's, if and only if it saw no Service, or what it saw was current, or the stored Service already had what the spec asks for |
| `ServiceAnnotations.OldViewsLeaveDroppedKeys` | internal/controller/impersonatorconfig/impersonator_config.go:626-629 | a run in which the sync of a spec that dropped a key succeeds from an old view, writes nothing, and leaves the key in place |
| `ServiceAnnotations.SettledMeans` | internal/controller/impersonatorconfig/impersonator_config.go:611-630 | once settled, keys that the spec dropped are gone, its keys have its values, foreign ones are untouched, the bookkeeping key is there exactly if the spec is not empty, and the next sync from a current view writes nothing |
| `ServiceAnnotations.ReconcileReplacesSpec` | internal/controller/impersonatorconfig/impersonator_config.go:590-624 | one sync turns foreign annotations plus the old spec's into the same foreign ones plus the new spec's |
| `KubeClient.Request.Handle` | internal/kubeclient/middleware.go:34-39 | all middlewares contribute, in order |
| `KubeClient.Request.RunAll` | internal/kubeclient/middleware.go:117-127 | every function runs, in order, on what the one before left, and every error is collected |
| `KubeClient.RequestIsBlockedExactlyIf` | internal/kubeclient/middleware.go:106-139 | a request is blocked if and only if its object has no kind, before or after, or some function complains when its turn comes; what passes counts as mutated exactly if it changed or the answer is to be rewritten |
| `KubeClient.ResponseIsBlockedExactlyIf` | internal/kubeclient/middleware.go:141-160 | a response is blocked if and only if some function complains when its turn comes |
| `KubeClient.OnlyTheRequestedKindIsMutated` | internal/kubeclient/roundtrip.go:326-360 | a response of another kind is left alone; a list where none was asked for, and the other way round, is an error |
| `KubeClient.UnhandledRequestsPass` | internal/kubeclient/roundtrip.go:103-125 | what no middleware cares for, and verbs that are not handled, are sent and answered as they are |
| `KubeClient.BodilessTripIs` | internal/kubeclient/roundtrip.go:128-195 | a request without an object goes out under its new kind; a deletion's answer is passed on, a watch's stream and any other answer are fixed |
| `KubeClient.BodilessRequestsMean` | internal/kubeclient/roundtrip.go:128-195 | a request without an object is refused if its kind is unknown or a function complains, and is only sent if the functions change nothing but its kind |
| `KubeClient.Request.MutateListItems` | internal/kubeclient/roundtrip.go:343-360 | a list is rewritten item by item, or not at all |
| `KubeClient.SendWatchEvents` | internal/kubeclient/watch.go:102-145 | the loop computes the event-by-event rewriting of the stream |
| `KubeClient.WatchIsMappedInOrder` | internal/kubeclient/watch.go:102-145 | the client sees the stream in order, each event fixed as a single response would be, up to the first event that cannot be fixed |
| `KubeClient.WritesNeedLeadership` | internal/leaderelection/leaderelection.go:60-80 | for every middleware list and wherever the leader check sits in it: get, list and watch end as without the check; create, update, patch and both deletes end as without the check if the flag was up, and are refused if not |
| `KubeClient.CheckContributes` | internal/leaderelection/leaderelection.go:60-80 | the leader check leaves every other middleware's contribution in place and in order |
| `KubeClient.OneComplaintIsEnough` | internal/kubeclient/middleware.go:117-127 | an error is not forgotten by the functions that run after it |
| `GroupSuffix.ReplaceAndUnreplaceAreInverse` | internal/groupsuffix/groupsuffix.go:162-175 | where Replace is defined Unreplace undoes it, and the other way round, for every suffix |
| `GroupSuffix.ReplaceMeans` | internal/groupsuffix/groupsuffix.go:154-175 | a group is replaced if and only if it is a stem and ".pinniped.dev", and becomes the stem, a dot and the suffix; and the other way round |
| `GroupSuffix.DefaultSuffixChangesNothing` | internal/groupsuffix/groupsuffix.go:26-30 | with the default suffix, or none, every request goes out and is answered as it is |
| `GroupSuffix.AuthenticatorGroupIsRewritten` | internal/groupsuffix/groupsuffix.go:70-112 | a TokenCredentialRequest is sent if and only if its authenticator has a group of ours, and then with that group rewritten |
| `GroupSuffix.MutateOwnerRefs` | internal/groupsuffix/groupsuffix.go:120-152 | the loop rewrites each reference on its own and keeps their order; if none changes, the list is left alone |
| `GroupSuffix.CoreVersions` | internal/groupsuffix/groupsuffix.go:133-142 | a version without a group is read and printed as one of the core group |
| `GroupSuffix.RefSurvivesExactlyIfNotConfusable` | internal/groupsuffix/groupsuffix.go:120-175 | rewriting a reference there and back gives it back if and only if it is not confusable |
| `GroupSuffix.ForeignGroupsCanBeConfusable` | internal/groupsuffix/groupsuffix.go:170-175 | a reference to a foreign group below the suffix comes back as a reference to a group of ours |
| `GroupSuffix.RefUnreplacedExactlyIfSuffixed` | internal/groupsuffix/groupsuffix.go:62-64 | a reference on a subresource, which goes out as it is, comes back changed if and only if its group ends in "." and the suffix, foreign or not |
| `GroupSuffix.RefsSurvive` | internal/groupsuffix/groupsuffix.go:53-152 | the same for whole lists, on objects and on subresources |
| `GroupSuffix.RequestIsRewritten` | internal/groupsuffix/groupsuffix.go:26-118 | the middlewares of New together rewrite kind, authenticator group and, except on a subresource, owner references, and complain exactly about an unacceptable TokenCredentialRequest |
| `GroupSuffix.SuffixIsInvisible` | internal/kubeclient/roundtrip.go:197-388 | create or update of an object or a subresource, against a server that echoes: when it is refused, what the server sees, and what the client gets back, which has its own kind, and its own owner references if and only if each of them returns |
| `GroupSuffix.PathIsRewritten` | internal/kubeclient/roundtrip.go:128-195 | a request without an object has its group rewritten and nothing else |
| `GroupSuffix.ReadsBackWhatWasWritten` | internal/kubeclient/roundtrip.go:283-388 | an object that was written through the suffix is read back as it was written |
| `GroupSuffix.BodilessTrip` | internal/kubeclient/roundtrip.go:128-195 | get, list and patch go out under the rewritten group, and whatever the server answers is fixed |
| `GroupSuffix.DeletionsAreRewritten` | internal/kubeclient/roundtrip.go:183-185 | deletions go out under the rewritten group, and the answer is passed on as it is |
| `GroupSuffix.ListsReadBack` | internal/kubeclient/roundtrip.go:341-360 | a list of objects that were written through the suffix comes back as the kind of list that was asked for, each item with its own owner references, in order |
| `GroupSuffix.WatchReadsBack` | internal/kubeclient/watch.go:102-145 | a watch shows every object that was written through the suffix as it was written, event by event and in order |
| `GroupSuffix.WatchTripReadsBack` | internal/kubeclient/watch.go:24-145 | a whole watch: it goes out under the rewritten group, and its stream shows what was written through the suffix |
| `CredentialCache.Cache.constructor` | internal/execcredcache/cachefile.go:77-83 | an absent file is the empty map |
| `CredentialCache.Cache.Normalized` | internal/execcredcache/cachefile.go:95-126 | keeps keys unique and sorts by creation; what it keeps was alive when it began, what it drops is dead when it ends, though the clock moves all the time |
| `CredentialCache.Cache.Get` | internal/execcredcache/execcredcache.go:53-81 | returns exactly what was last put for the key if that has not expired and its entry is at most an hour old, else nothing; the file still stands for the same map, the entry is marked as used in between and the others are as they were |
| `CredentialCache.Cache.Put` | internal/execcredcache/execcredcache.go:83-112 | afterwards the file stands for the map with the new credential, created anew exactly if the old entry was no longer alive, marked as used in between; the other entries are as they were |
| `CredentialCache.Cache.WriteBack` | internal/execcredcache/execcredcache.go:124-159 | the file written stands for the map, sorted, with unique keys and whole seconds |
| `CredentialCache.HoldsAfterPut` | internal/execcredcache/execcredcache.go:83-112 | replacing or appending one entry is putting into the map |
| `JwksWriter.CheckKeySet` | internal/controller/supervisorconfig/jwks_writer.go:347-367 | the loop with its flag decides whether all keys are public and valid and one has the active key's id |
| `JwksWriter.IsValid` | internal/controller/supervisorconfig/jwks_writer.go:308-368 | true exactly for a private valid signing key with a matching set of public ones |
| `JwksWriter.GeneratedIsUsable` | internal/controller/supervisorconfig/jwks_writer.go:196-248 | what is generated holds exactly the key and its public half, and passes the validity check |
| `JwksWriter.Writer.CreateOrUpdateSecret` | internal/controller/supervisorconfig/jwks_writer.go:250-283 | result and store are decided by the moments of its at most five attempts; success means a usable Secret is stored, failure that somebody interfered; undisturbed it succeeds and does exactly what is wanted; if others only do what writers may do, a usable Secret is not touched and an existing one not replaced |
| `JwksWriter.Writer.TryOnce` | internal/controller/supervisorconfig/jwks_writer.go:255-282 | one attempt: how it ends follows from the store when it read and when its write arrived |
| `JwksWriter.SubmitKeeps` | internal/controller/supervisorconfig/jwks_writer.go:262-281 | a write that goes through replaces exactly the version that was read as unusable, keeps its metadata, and leaves a usable Secret |
| `JwksWriter.Writer.Sync` | internal/controller/supervisorconfig/jwks_writer.go:111-194 | nothing is done exactly if the caches show no domain or a usable Secret, or no key can be generated; otherwise it succeeds exactly if writing the Secret and then the status did, and then a usable Secret was stored and the status names it; undisturbed, where no usable Secret is, the generated key is stored, with the metadata that was there or else its own |
| `JwksWriter.Writer.UpdateFederationDomainStatus` | internal/controller/supervisorconfig/jwks_writer.go:285-305 | result and store are decided by the moments of the last of at most five attempts; success means the status names the Secret and nothing else of what was stored changed |
| `JwksWriter.OnceUsableNeverTouched` | internal/controller/supervisorconfig/jwks_writer.go:250-283 | however it came to be, once the Secret is usable no interleaving of any number of writers, each one API call at a time with whatever it read before, changes its content or version |
| `JwksWriter.OneCreationWins` | internal/controller/supervisorconfig/jwks_writer.go:256-268 | in every interleaving of writers, once the Secret exists it stays the same object with the same metadata |
| `JwksWriter.WritesHitWhatWasRead` | internal/controller/supervisorconfig/jwks_writer.go:262-281 | in every reachable state, foreign writes included, a write that goes through hits exactly the version its writer read as unusable |
| `JwksWriter.RunKeeps` | internal/controller/supervisorconfig/jwks_writer.go:250-283 | in every interleaving, what a writer has read was unusable and is still the content if its version is current |
| `Certificates.DueExactlyFromDueTime` | internal/controller/apicerts/certs_expirer.go:98-111 | for every validated configuration a generated certificate is due exactly from its due time on |
| `Certificates.DueWellBeforeExpiry` | internal/config/concierge/config.go:170-180 | that is issue time plus renewBefore minus five minutes, to the second, and at least five minutes before NotAfter |
| `Certificates.IssuedFor` | internal/certauthority/certauthority.go:205-226 | a certificate is valid from five minutes before its issue until its time is over, in whole seconds |
| `Certificates.FreshIsNotDueExactlyIf` | internal/config/concierge/config.go:170-180 | a certificate is not due for renewal when it is issued, if and only if renewBeforeSeconds is more than 300 |
| `Certificates.FreshCanBeDue` | internal/config/concierge/config.go:170-180 | a configuration that passes validation and whose certificates are due when they are issued |
| `Certificates.Controllers.Expire` | internal/controller/apicerts/certs_expirer.go:75-127 | even from an old view, only the very certificate that was seen is deleted, and only if it is due; one that is due and still there is deleted; a failure means that a due one is no longer what was seen |
| `Certificates.Controllers.Manage` | internal/controller/apicerts/certs_manager.go:83-144 | creates the Secret, with exactly the certificates issued during the call and their private keys, exactly if the cache has none and none is stored, and never touches one that is |
| `FederationDomains.CountIssuers` | internal/controller/supervisorconfig/federation_domain_watcher.go:76-108 | the maps hold, for every key, how many domains have it and which TLS secrets its hostname asks for |
| `FederationDomains.Sync` | internal/controller/supervisorconfig/federation_domain_watcher.go:110-176 | each domain gets the specified status, exactly the good ones whose status was written are served, and an error is returned exactly if a write failed |
| `FederationDomains.KeysMeanSameIssuer` | internal/controller/supervisorconfig/federation_domain_watcher.go:76-82 | two issuers share a key if and only if scheme, path and host up to case are equal |
| `FederationDomains.StatusMeans` | internal/controller/supervisorconfig/federation_domain_watcher.go:110-174 | the status of every domain, in terms of issuers, hostnames and secrets, and which problem is reported first |
| `FederationDomains.ValidMeansFine` | internal/oidc/provider/federation_domain_issuer.go:31-65 | which issuers are accepted |
| `FederationDomains.ServedExactlyIfNoClash` | internal/controller/supervisorconfig/federation_domain_watcher.go:110-174 | a domain is served if and only if its issuer is https without user, query, fragment and trailing slash, no other domain has the same scheme, path and host up to case, its hostname has no two TLS secrets, and its status was written |
| `FederationDomains.ServedDomainsDoNotClash` | internal/controller/supervisorconfig/federation_domain_watcher.go:110-176 | served domains pairwise differ in scheme, path or host up to case, and never have two TLS secrets for one hostname up to case |
| `FederationDomains.OrderDoesNotMatter` | internal/controller/supervisorconfig/federation_domain_watcher.go:71-176 | any permutation of the domains gives the same statuses and serves the same ones |
| `Conditions.Status.MergeCondition` | internal/controller/conditionsutil/conditions_util.go:93-123 | the list stands for the map with this one condition merged, and the result says whether the list changed |
| `Conditions.Status.MergeConfigConditions` | internal/controller/conditionsutil/conditions_util.go:72-90 | from unique types: the list stands for the merged map, types unique and in order; an error is reported exactly if some condition is false |
| `Conditions.OthersAreLeftAlone` | internal/controller/conditionsutil/conditions_util.go:93-123 | no type is lost or made up, and conditions that are not merged stay as they are |
| `Conditions.TransitionTimeMovesWithStatus` | internal/controller/conditionsutil/conditions_util.go:93-123 | the transition time of an existing condition moves exactly when its status changes; all else is as computed |
| `Conditions.MergeIsAFixpoint` | internal/controller/conditionsutil/conditions_util.go:72-123 | merging the same distinct-typed conditions again at any time changes nothing |
| `Conditions.StatusStopsChanging` | internal/controller/conditionsutil/conditions_util.go:72-123 | the second merge leaves the very list the first one left |
| `KeyedLists.CanonicalIsUnique` | internal/controller/conditionsutil/conditions_util.go:85-87 | content determines the canonical list |
| `Sorting.StableSortSorts` | internal/execcredcache/cachefile.go:120-123 | the same elements, in order |
| `Sorting.StableSortIsStable` | internal/execcredcache/cachefile.go:120-123 | elements with equal keys keep their order |
| `Sorting.StringLessMeans` | internal/controller/conditionsutil/conditions_util.go:85-87 | strings are ordered by their first difference, prefixes first |
| `Strategies.Status.MergeStrategy` | internal/controller/issuerconfig/issuerconfig.go:36-59 | the list stands for the merged map, in order of weight and name, and the deprecated field mirrors the last TokenCredentialRequest frontend |
| `Strategies.RepeatedMergeWritesNothing` | internal/controller/issuerconfig/issuerconfig.go:20-59 | merging the same strategy with a later time changes neither list nor mirror, so nothing is written |
| `Strategies.ReportsCommute` | internal/controller/issuerconfig/issuerconfig.go:36-59 | controllers that report different strategies end with the same list in either order, and with the same mirrored field if and only if at most one is mirrored or both say the same |
| `Strategies.PreferredComeFirst` | internal/controller/issuerconfig/issuerconfig.go:61-77 | the list is in the order of preference: the cluster signing certificate, the impersonation proxy, then all others by name |
| `Strategies.ReportIsHeld` | internal/controller/issuerconfig/issuerconfig.go:36-59 | the reported strategy is held as reported, with the time of the last report that said something else; no other is touched; the deprecated field follows the TokenCredentialRequest frontend only |
| `EndpointAddr.SplitUndoesJoin` | internal/endpointaddr/endpointaddr.go:28-30 | splitting undoes joining, with brackets where the host has a colon |
| `EndpointAddr.JoinUndoesSplit` | internal/endpointaddr/endpointaddr.go:42-54 | what splits has plain parts, and joins back up to needless brackets |
| `EndpointAddr.AtoiUndoesItoa` | internal/endpointaddr/endpointaddr.go:56-60 | reading undoes printing of every decimal number |
| `EndpointAddr.ParseUndoesEndpoint` | internal/endpointaddr/endpointaddr.go:28-71 | whatever parses prints to something that parses to the same, with any default port and any notion of a valid host |
| `EndpointAddr.EndpointParsesExactlyIfValid` | internal/endpointaddr/endpointaddr.go:42-71 | a pair survives printing and parsing if and only if its host is valid and its port is 1 to 65535 |
| `EndpointAddr.DefaultPortIsUsed` | internal/endpointaddr/endpointaddr.go:32-49 | names and unbracketed IPv6 addresses get the default port |
| `EndpointAddr.SplitsExactlyIfWritten` | internal/endpointaddr/endpointaddr.go:42-54 | a text splits into a host and a port if and only if it is one of the two ways to write them |
| `EndpointAddr.WrittenParses` | internal/endpointaddr/endpointaddr.go:42-71 | what such a text parses to; a bad port is reported before a bad host |
| `EndpointAddr.NumbersMayBeSigned` | internal/endpointaddr/endpointaddr.go:56-60 | leading zeros and a sign are read |
| `EndpointAddr.OthersAreNoNumbers` | internal/endpointaddr/endpointaddr.go:56-60 | a text with any other character counts as 0, so it is no port |

## Left out

- The bodies of fosite, client-go, the work queue and the informers: the API server, the elector and the order of storage calls are explicit environments.
- TLS, X.509, PEM, JWT, bcrypt and the bytes of JSON and YAML: keys, certificates and documents are values that carry what decoding makes of them.
- Login and other CLI commands, the impersonator's request handling, token exchange and the upstream OIDC, LDAP and Active Directory clients: mostly guards around remote calls.
- Refresh and access token storages as classes of their own: they only add the request ID label and call `Crud`; their steps are in `Sessions`.
- OIDC client secret lists (`Get` and `Set`): they are `Crud` with one label; only the naming is modelled.
- The IDP pair of condition merging: it is the same code on another type.
- Non-resource requests: they bypass the middlewares.
- The URL paths that middleware rewrites: the path is represented by group, version and kind, and the case that it cannot be rewritten.
- Clock skew between processes: leader election and certificate rotation use one clock.
- Unreadable cache files, failing I/O and the cache's file lock: a transaction is one step.
- An update with an empty resourceVersion, which the API takes as unconditional: no caller makes one.
- SessionSafety.EligibleIsUniqueAndLatest: "newest" is among upstream tokens that are stored; two overlapping refreshes may both have rotated the upstream token, and only the one that wins stores it. Signatures and request IDs are taken to be fresh.
- LeaderElection.ExclusiveExactlyWhenSafe: that the elector gives up within RetryPeriod + RenewDeadline of its last acknowledged renewal is part of the environment, as client-go documents it.
- Impersonator.StoppingDoesNotDeadlock: that the server returns once it is told to stop is a step of the environment; the panic handler and the requeueing of the goroutine are not modelled.
- ServiceAnnotations.StoredIsForeignPlusWritten: for foreign edits that leave the bookkeeping key alone; a tampered bookkeeping value counts as absent unless it is a list of keys. A spec may use that key, but its value for it is overwritten, as in the source.
- SessionTimingWitness.SparesTheLivingExactlyIfFresh: that codes and refresh tokens are accepted only within their lifespans, counted from when their record was created, is part of the environment, as the comments on the lifespans say; the rounding of expiry times to seconds in the OAuth library counts as part of the duration of a request.
- GroupSuffix.ListsReadBack: the group inside each item of a list is shown as stored, as in the source, which only restores the kind of the list itself.
- GroupSuffix.SuffixIsInvisible: the authenticator group inside a TokenCredentialRequest is rewritten on the way out and, as in the source, not put back.
- Certificates.Controllers.Expire: the two readings of the clock may differ, so the bound is stated for the clock at the end of the call.
- FederationDomains.StatusMeans: hosts are lower-cased by ASCII letters only, and an issuer is given with the parts that net/url parses it into; which of several problems an issuer without a scheme is refused for is not stated.
- Strategies.Status.MergeStrategy: a TokenCredentialRequest frontend always has its info, which the source dereferences unconditionally.
- EndpointAddr.ParseUndoesEndpoint: the validity of hosts (IP address or RFC 1123 name) is a parameter, since the law holds for every such notion; integers beyond the machine range are not clamped, which makes no difference to which ports are valid.
