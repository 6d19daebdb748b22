# Sync-AI access core: a verified model

This project models the permission, ingestion, identity and token core of the
Sync-AI backend and proves what it keeps. The Python code is imperative, and so
is the model: a service that changes its fields is a class, a loop is a loop
with invariants, and each such method is tied to a function of the old state
about which the properties are proved.

## What is modelled

* **Who gets access.** `Compiler` turns sharing hints, inherited folder rows and
  nested groups into one list of ACL rows. It composes `ContainerService` (the
  ancestor walk and its timed cache, specified in `AncestorWalk`),
  `Inheritance` (nearest allow against nearest deny over several parents),
  `GroupExpansion` (a shared-visited walk over an arbitrary group graph) and
  `DenyOverrides` (the normal form that ends it). The closing theorem,
  `Compiler.CompiledAccess`, says who has a row and at which level. Container
  rows with a deny only suppress the inherited allow of the *same* identity;
  the compiler itself never emits a deny row, and the theorem says so.
* **What gets indexed.** `CrawlModel` and `Sync` are the two-pass, checkpointed
  sync. Every index write, every deleted id and every checkpoint is a point at
  which the run may be killed, refused or told that its cursor is stale; the log
  of a run says what each fault did to it, and any number of such runs, restarted
  from the stored cursor, ends with the index of one undisturbed crawl. `NotificationSync` is the incremental sync, with the
  source changing between any two writes.
* **Who is who.** `IdentityResolution` interleaves any number of `resolve` calls
  over the principal tables. `PendingShares` is the queue of shares waiting for
  a user, and the exact access equation of binding them.
* **Tokens.** `TokenModel` is the life cycle of codes, tokens, revocation and
  signing keys as one state machine, `TokenCalls` what each call answers and
  stores, `TokenSafety` what every run of the machine keeps, `TokenServer` the
  services, each method shown to be a step of it.
  `TenantStore` is the partitioned key-value store underneath.
* **Searching.** `AclTerms` has the index-time generator and the query-time
  reader of ACL terms, `AclFilter` the visibility decision and the OpenSearch
  clause, `OwnerSearch` the owner's search for their own documents, and
  `RowPermissions` the permissions made from ACL rows against the canonical
  check; each says when the sides agree.
* **The rest.** `RateLimit` (fixed windows), `Scim` (user and group feeds),
  `PgConnect` and `PgOutcomes` (the recursive URL chooser and where it ends), with
  `Prelude`, `TextOps`, `Models`, `CanonicalRepo` and `CursorStore` as shared
  vocabulary and tables.

Every theorem is about functions that the methods are shown to compute. So that
it also says something on its own, each function it rests on has a lemma that
spells it out in characters, keys and fields, such as `TextOps.LowerIsSmallForm`,
`Compiler.ResolvedSpelled` or `TokenCalls.ExchangeSpelled`.

## Where the code does not keep what it seems to promise

Each of these is stated exactly, for all inputs, as an if-and-only-if; where a
second name follows, it is a lemma at an input that fails.

* A notification whose pipeline run drops some documents still stores the new
  cursor. The cursor then runs ahead of the index, unless the dropped document
  was already indexed in its present state (`NotificationSync.CursorNotAheadIff`,
  `NotificationSync.DroppedDocument`).
* A restarted sync deletes again before it resumes. If deleted ids are also
  listed, a finished run leaves the index of an undisturbed one exactly when each
  of those listed before the page it began with is listed again from there on
  (`Sync.SyncOrchestrator.RunTwoPassSync`, `CrawlModel.LostOnResume`).
* Updating a folder's parent drops only that folder's cache entry. A cached chain
  stays exact unless its walk looks that folder up and finds another parent
  (`ContainerService.Service.UpsertContainerEdge`).
* A deny row becomes a `user:` term, hence an allow, in the built permissions, and
  rows under another alias of the document do not reach them. Permissions and
  canonical check agree exactly when a principal with a row under the stored id
  has no deny row under any alias, and one without has no access by another alias
  (`RowPermissions.PermissionsDecideAlikeIff`).
* The OpenSearch clause and `document_is_visible` part ways for a caller with a
  blank term or a stray `deny:` term (`AclFilter.DecidersAgreeIff`).
* The generator of terms strips and looks for prefixes where the token reader
  does not (`AclTerms.PrincipalAgreesIff`, `AclTerms.EmailAgreesIff`,
  `AclTerms.GroupAgreesIff`, `AclTerms.MatchesInEveryPartIff`). The owner's
  principal alone still finds the owner's documents unless it is blank, or padded
  in front of `*` or of a `deny:` term (`OwnerSearch.PrincipalIsEnoughIff`).
* Revoking a token under another tenant than its own does nothing to it, then or
  later (`TokenSafety.RevocationLastsIff`, `TokenSafety.RevokedElsewhere`);
  revoking a session does not stop a token without a record, such as one from
  `rotate_refresh_token` (`TokenSafety.SessionStopsIff`,
  `TokenSafety.RotatedOutlivesSession`); and giving a key id a second key orphans
  the tokens signed under it (`TokenSafety.RegisterKeepsIff`).
* A group feed that names two member sets for one id bumps the version on every
  run (`Scim.GroupFeedIdempotentIff`).
* `prepare_database_url` recurses for ever in some environments
  (`PgConnect.TerminatesIff`, `PgOutcomes.NeverEnding`); a remote cloud URL does
  not keep it from ending on a local host (`PgOutcomes.RemoteIff`,
  `PgOutcomes.RemoteCloudIsNotEnough`); and arguments beside the environment can
  make preparing twice differ from preparing once (`PgOutcomes.IdempotentIff`,
  `PgOutcomes.ArgumentsCanDisagree`).

## Model

| member | source | states |
|---|---|---|
| Models.RankOrdersLevels | backend/app/acl/compiler.py:360-369 | the five levels have different ranks, rising from no access to ownership |
| TextOps.LowerIsSmallForm | backend/app/identity/resolver.py:352-365 | lowering a text makes each of A to Z small and leaves every other character |
| TextOps.SameLower | backend/app/storage/canonical_repo.py:372-374 | two texts are one key exactly when they differ at most in the case of letters |
| TextOps.StripSpelled | backend/app/identity/resolver.py:352-365 | stripping takes the white space off both ends, all of it and nothing else |
| DenyOverrides.OneRowPerKey | backend/app/acl/compiler.py:317-358 | the normal form has exactly one row for every (document, principal) of the input and no other |
| DenyOverrides.KeptRowMeaning | backend/app/acl/compiler.py:317-358 | that row is an input row; for a principal it is a deny exactly when some input row of its key is one; and its rank is the maximum over the rows of its key that no deny drops |
| DenyOverrides.OneBestRow | backend/app/acl/compiler.py:317-358 | for each document and principal of the input one row is left, of the highest level among the rows that are no allow of a principal the document denies |
| DenyOverrides.DedupKeepsFirstMax | backend/app/acl/compiler.py:342-356 | of the maximum-rank rows of a key the first is kept |
| DenyOverrides.DedupKeepsOrder | backend/app/acl/compiler.py:342-358 | the kept rows stand in the order in which their keys were first seen |
| DenyOverrides.NormalFormIdempotent | backend/app/acl/compiler.py:317-358 | normalising twice is normalising once, as a list |
| DenyOverrides.NormalFormIgnoresOrder | backend/app/acl/compiler.py:317-358 | permuting the input changes only the order and which equal-rank row is kept |
| DenyOverrides.BestPerKey | backend/app/acl/compiler.py:342-358 | the dict-based deduplication loop computes the specified first-maximum rows |
| DenyOverrides.ApplyDenyOverrides | backend/app/acl/compiler.py:317-358 | the whole method, deny keys first, computes the normal form |
| GroupExpansion.WalkVisitsExactlyTheReachable | backend/app/acl/compiler.py:283-315 | on any group graph, cyclic or not, the walk visits each group reachable from the root once and no other; all of them carry the tenant, and a nested id is visited exactly when the repository holds it under that tenant |
| GroupExpansion.ExpansionIsMembership | backend/app/acl/compiler.py:283-315 | a principal is in the expansion exactly when it is a direct member of some group of the tenant reachable from the root through groups of the tenant |
| GroupExpansion.ExpandGroupMembersSafe | backend/app/acl/compiler.py:283-315 | the recursion with one shared visited set terminates, returns the members of the groups it newly visited, and adds exactly those to the set; begun with an empty set it returns exactly the members the lemma above describes |
| AncestorWalk.WalkCharacterised | backend/app/acl/container_service.py:64-86 | a chain is the walk's result exactly when it follows the parent edges, repeats at most its last element, and stops for lack of a parent, at a repeat, or at the depth bound |
| AncestorWalk.AncestorsAreIterates | backend/app/acl/container_service.py:55-99 | the n-th ancestor is the n-th iterate of the parent map, at most max_depth of them, all but possibly the last distinct from each other and from the start |
| AncestorWalk.WalkIsLocal | backend/app/acl/container_service.py:64-86 | edges of containers the walk does not look up cannot change it |
| AncestorWalk.UpsertChangesChainIff | backend/app/acl/container_service.py:116-141 | a new edge changes a chain exactly when the walk looks the child up and the parent differs |
| ContainerService.Service.GetAncestors | backend/app/acl/container_service.py:38-99 | the answer is the walk over the present edges, or one made less than cache_ttl ago over the edges of that time; it is exact whenever the cached chain was |
| ContainerService.Service.WalkUp | backend/app/acl/container_service.py:64-86 | the loop with its visited set computes the specified walk |
| ContainerService.Service.UpsertContainerEdge | backend/app/acl/container_service.py:116-141 | the child is exact at once, and every other exact cached chain stays exact if and only if its walk does not meet the changed edge |
| ContainerService.Service.InvalidateCache | backend/app/acl/container_service.py:152-160 | exactly one cache entry and its timestamp go, and every remaining entry is still explained by a recorded walk |
| CanonicalRepo.UpsertedOnce | backend/app/storage/canonical_repo.py:510-522 | after an upsert exactly one row names the entry's subject, the entry, and every other row is there as often as before |
| CanonicalRepo.Repo.UpsertContainerAcl | backend/app/storage/canonical_repo.py:510-522 | the list of the container ends with the new row and holds every stored row of another subject as often as before and none of the same subject; the lists of all other containers and tenants are as they were |
| CanonicalRepo.Repo.CreateGroup | backend/app/storage/canonical_repo.py:408-414 | a new group is found by id, by source identity and by its email in any case of letters, and the indexes stay in step |
| Inheritance.SightingsMeaning | backend/app/acl/inheritance.py:42-62 | what the three loops see is each row stored under a container of a chain, with the container's position on the chain as distance, and nothing else |
| Inheritance.ParentAllowIsInherited | backend/app/acl/inheritance.py:24-113 | an allow stored for a parent of the document is inherited, from that parent or another that allows the same identity, unless a parent denies it, whatever the folders farther up say |
| Inheritance.InheritanceRule | backend/app/acl/inheritance.py:42-113 | an identity has an inherited row if and only if it has an allow strictly nearer than every deny it has; the row carries subject and level of the first met of its nearest allows |
| Inheritance.OneEntryPerIdentity | backend/app/acl/inheritance.py:98-113 | every inherited row names someone, and no principal and no group is given two |
| Inheritance.RepeatedContainerIsHarmless | backend/app/acl/inheritance.py:42-113 | the one container a parent cycle may repeat at the end of a chain never changes the result |
| Inheritance.ComputeInheritedEntries | backend/app/acl/inheritance.py:24-113 | the method computes the rule over the chains the service answered, which are the present walks when the cache was exact; whatever the cache held, an allow stored for a parent that no parent denies is among the rows |
| Inheritance.InheritNewRow | backend/app/acl/inheritance.py:24-113 | a row granted on the one parent of a document by the upsert is the row the document then inherits |
| Inheritance.PresentChainsSpelled | backend/app/acl/container_service.py:38-99 | a chain over the present edges is the parent followed by its ancestors, fifty at most |
| Inheritance.NoteContainer | backend/app/acl/inheritance.py:62-96 | the two dicts hold the nearest deny distance and the nearest allow of everything seen so far |
| Inheritance.ApplyDenyOverride | backend/app/acl/inheritance.py:98-113 | the final loop keeps exactly the surviving identities, in the order in which they were first allowed |
| Compiler.GroupHintIsStable | backend/app/acl/compiler.py:179-237 | a hint that names a group names the same group when asked again, whatever the resolver answers and whatever id would be drawn |
| Compiler.ResolvedSpelled | backend/app/acl/compiler.py:179-237 | request by request: outside the mirror sources a hint names a group exactly when its external id starts with group: or its non-empty email, in small letters, is the key of a group of the tenant; it is the group of the source identity, else of the email, else a new one stored under id, source identity and email; any other hint is whomever the resolver answers and stores nothing |
| Compiler.StoredEmailNamesGroup | backend/app/acl/compiler.py:179-237 | once a group is stored, every hint of its tenant with its email in any case names it, unless the source identity of the hint is another group's |
| Compiler.InDirectEntries | backend/app/acl/compiler.py:99-177 | a row is direct exactly when some hint resolved to its subject: an allow of the document at the hint's level, tagged as shared from Drive, as a mailbox, or as direct |
| Compiler.DirectEntriesInOrder | backend/app/acl/compiler.py:99-177 | there is one direct row for each hint that named someone, in the order of the hints |
| Compiler.InExpanded | backend/app/acl/compiler.py:239-281 | the expanded rows are exactly those of members of groups of the tenant that a row grants, alike but for the subject, the tag and the tenant |
| Compiler.CompiledAccess | backend/app/acl/compiler.py:59-97 | p has a row if and only if p has a direct grant, a surviving inherited grant, or is reachable through nested groups of the tenant from a direct or surviving inherited group grant; one row at most, of a granted level, none below any other grant; no row is a deny |
| Compiler.HighestGrant | backend/app/acl/compiler.py:59-97 | the level of p's row is granted and is the maximum over all sources |
| Compiler.OtherTenantsGrantNothing | backend/app/acl/compiler.py:239-315 | a principal that only groups of other tenants list, and to whom nothing is granted by name, has no row |
| Compiler.ACLCompiler.ResolveGroup | backend/app/acl/compiler.py:199-237 | a group is found by source identity, then by email, and created only when both miss |
| Compiler.ACLCompiler.CompileDirectEntries | backend/app/acl/compiler.py:99-177 | the loop over the hints computes the direct rows and the group tables they leave behind, every hint resolved as in ResolvedSpelled against the tables the earlier ones left |
| Compiler.ACLCompiler.ExpandGroupMembership | backend/app/acl/compiler.py:239-281 | the loop over the rows computes the expanded rows, each group walked afresh |
| Compiler.ACLCompiler.Compile | backend/app/acl/compiler.py:59-97 | the composed method computes the rows that CompiledAccess describes, from hints resolved as in ResolvedSpelled and over chains that are recent walks |
| CursorStore.Store.UpdateCursor | backend/app/services/cursor_store.py:104-142 | the cursor of one tenant and source changes and no other |
| CrawlModel.StartIsConsistent | backend/app/services/sync.py:241-250 | an index nothing was crawled into yet agrees with any cursor that names no page, so the first run may start |
| CrawlModel.PartialPageKeeps | backend/app/services/sync.py:285-407 | any part of the page at the cursor may be indexed without breaking the agreement of index and cursor: a kill in mid-page loses nothing |
| CrawlModel.PageAdvances | backend/app/services/sync.py:285-407 | a whole page indexed makes the index agree with the next cursor |
| CrawlModel.ResetKeeps | backend/app/services/sync.py:300-325 | going back to the start after a stale cursor keeps the agreement |
| CrawlModel.DeletionKeeps | backend/app/services/sync.py:251-283 | deleting a deleted id keeps the agreement |
| CrawlModel.ExhaustedIsConsistent | backend/app/services/sync.py:380-407 | once every page is in, the index agrees with any cursor, so a last cursor the source later forgets does no harm |
| CrawlModel.PageAdvancesDeleted | backend/app/services/sync.py:285-407 | and the deleted ids are as the pages read in this run make them |
| CrawlModel.ResumeIsExactIff | backend/app/services/sync.py:251-407 | with every page in and the deletions made before some page, the index is the undisturbed crawl's exactly when each deleted id listed before that page is listed again from it on |
| CrawlModel.ApartIsRelisted | backend/app/services/sync.py:251-407 | which is so from every page where no deleted id is listed |
| CrawlModel.LostOnResume | backend/app/services/sync.py:251-407 | a source on which it is not |
| Sync.SyncOrchestrator.DeletionPass | backend/app/services/sync.py:251-283 | however it is left, index and checkpoint agree; left normally, no deleted id is indexed; it is left early, with the run going on, exactly when a fetch of deleted ids fails otherwise than by an authorisation error, and stopped exactly by a kill, an authorisation error or a failed deletion |
| Sync.SyncOrchestrator.DeltaPass | backend/app/services/sync.py:285-407 | at every fault index and checkpoint agree, a stale cursor is reset once at most, and leaving for want of pages means every page is in, deleted ids are as the pages read make them, and the last page's cursor is stored; leaving early means a page fetch failed, or its cursor was called invalid when there was none or for the second time |
| Sync.SyncOrchestrator.Checkpoint | backend/app/workers/tasks.py:488-499 | the cursor is persisted after its page, and a stop before the write leaves the old one, still agreeing with the index |
| Sync.SyncOrchestrator.RunTwoPassSync | backend/app/services/sync.py:215-423 | a run from any agreeing state that returns with both passes done leaves the undisturbed crawl's index if and only if each deleted id listed before the page it began with is listed again, so always where no deleted id is listed; a run without faults does return so. The log of its steps says how each fault told: what stops it, what each pass is judged by, deletions first, the cursor stored, and the counts |
| Sync.StopsAtFirstFatalFault | backend/app/services/sync.py:251-407 | a run is stopped exactly when a kill, an authorisation error or a failure of a write occurs in it |
| Sync.OnlyDeletionsFailed | backend/app/services/sync.py:251-283 | a run in which nothing but fetches of deleted ids fails still reads every page, and reports the deletions undone |
| Sync.SyncOrchestrator.RunUntilDone | backend/app/services/sync.py:215-423 | any number of killed, refused or reset runs before it, the first run to finish both passes leaves the index of one uninterrupted run, under that condition and no other |
| NotificationSync.WriteKeeps | backend/app/workers/tasks.py:705-737 | a write to an id changed since the stored cursor cannot break the agreement of index, cursor and source |
| NotificationSync.OutcomeAt | backend/app/workers/tasks.py:705-737 | after the writes an id stands as the batch reports it, deletions last, and other ids stand as before |
| NotificationSync.SaveAdvances | backend/app/workers/tasks.py:705-737 | the index agrees with the source at the new cursor on every id not changed since, save those that were behind and not mentioned or whose document was dropped |
| NotificationSync.CursorNotAheadIff | backend/app/workers/tasks.py:705-737 | the stored cursor does not run ahead of the index if and only if each dropped, since unchanged document was already indexed as reported |
| NotificationSync.NothingDropped | backend/app/workers/tasks.py:705-737 | without pipeline failures no id falls behind |
| NotificationSync.CaughtUp | backend/app/workers/tasks.py:705-737 | at the end of the source's history the index is the source |
| NotificationSync.NotificationWorker.ProcessNotification | backend/app/workers/tasks.py:998-1027 | killed anywhere, with the source changing between any two writes, the worker leaves the agreement intact and the cursor where it was; it reports success exactly when some document compiled or none was listed |
| NotificationSync.NotificationWorker.RunUntilCaughtUp | backend/app/workers/tasks.py:705-737 | any number of notifications, killed and interleaved with changes anywhere, that bring the cursor to the end of the history leave the index equal to the source if no document was dropped; once the source is still, as many rounds as changes are left are enough |
| NotificationSync.DroppedDocument | backend/app/workers/tasks.py:705-737 | one dropped document puts the stored cursor ahead of the index |
| IdentityResolution.StepPreserves | backend/app/identity/resolver.py:292-335 | one table operation of one call keeps the two principal tables in step, rebinds no email, and leaves the call's belief true |
| IdentityResolution.StartInvariant | backend/app/identity/resolver.py:51-135 | empty tables and calls that have read nothing, for hints outside the mirror path, are such a state |
| IdentityResolution.NextPreserves | backend/app/identity/resolver.py:51-135 | so does any operation of any call among any number, for all of them |
| IdentityResolution.RunInvariant | backend/app/identity/resolver.py:51-135 | so does every interleaving |
| IdentityResolution.PrincipalIsStable | backend/app/storage/canonical_repo.py:328-374 | between any two states of a run no (tenant, email) changes its principal id and no finished call its answer |
| IdentityResolution.OnePrincipalPerEmail | backend/app/identity/resolver.py:292-335 | in every state of every interleaving there is one principal at most per tenant and email, finished calls return its id, calls of different tenants or emails never share one, and a call fails only without a valid email |
| IdentityResolution.OnePrincipalWhateverTheCase | backend/app/identity/resolver.py:337-365 | in every state of every interleaving two finished calls hold one principal exactly when they are of one tenant and their stripped emails differ at most in the case of letters; the principal is stored for that tenant under the email in small letters |
| IdentityResolution.IdentityResolver.Resolve | backend/app/identity/resolver.py:51-135 | for a hint outside the mirror path the sequential method is a run of the machine's operations; it fails exactly without a valid email, says "email" when the tenant has a principal of that email in any case and "new" otherwise, and answers a principal of the tenant stored under the email in small letters |
| IdentityResolution.IdentityResolver.CreateOrAdopt | backend/app/identity/resolver.py:292-335 | creation under the unique key, or the principal that won the race |
| IdentityResolution.IdentityResolver.UpdateSourceIdentity | backend/app/identity/resolver.py:279-290 | a source is noted once and never overwritten |
| PendingShares.BoundRow | backend/app/storage/canonical_repo.py:772-859 | id by id, whose allow and deny rows exist after a bind |
| PendingShares.BindAccess | backend/app/storage/canonical_repo.py:976-995 | after a bind p reads a document exactly when neither p nor the shadow principal had a deny row on its aliases, and one of them had an allow row there or a share for the email was waiting; the shadow reads nothing and nobody else's access changes |
| PendingShares.CanReadSpelled | backend/app/storage/canonical_repo.py:889-943 | a principal reads a document exactly when rows of it are stored for the tenant under the document's id or an alias, a Drive or Gmail prefix taken off or put on, and none of them denies |
| PendingShares.EveryRowExplained | backend/app/storage/canonical_repo.py:772-859 | after a bind each row was there, or was there as the shadow's, or is the share that waited, ownership of a mailbox document and reading of any other; no row is lost, and every document that waited has an allow row of the principal |
| PendingShares.AffectedSpelled | backend/app/storage/canonical_repo.py:976-995 | the documents reported are those a share waited for and those with a row of the shadow; afterwards no entry of the email waits and the rest of the queue is as it was |
| PendingShares.OneQueueKey | backend/app/storage/canonical_repo.py:683-711 | emails that differ in padding and case are one key of the queue |
| PendingShares.SecondBindIsEmpty | backend/app/storage/canonical_repo.py:976-995 | a second bind affects no document |
| PendingShares.BindTouchesOnlyAffected | backend/app/storage/canonical_repo.py:976-995 | documents outside the affected ones keep their rows |
| PendingShares.ShareRepo.UpsertPendingIdentity | backend/app/storage/canonical_repo.py:683-711 | a queue row is inserted once; a repeated sighting neither duplicates nor reopens it |
| PendingShares.ShareRepo.InsertAclEntry | backend/app/storage/canonical_repo.py:729-741 | a row is appended unless one of the same principal, group and deny flag is there |
| PendingShares.ShareRepo.DrainPendingIdentityQueue | backend/app/storage/canonical_repo.py:772-819 | whatever the order of the queue, exactly the waiting documents of the email are returned, once each, bound and marked |
| PendingShares.ShareRepo.RebindAclPrincipal | backend/app/storage/canonical_repo.py:821-859 | exactly the documents with a row of the old principal are returned, once each, and all its rows move |
| PendingShares.ShareRepo.PrincipalCanReadDocument | backend/app/storage/canonical_repo.py:889-910 | true exactly when some alias has an allow row of the principal and none a deny row |
| PendingShares.ShareRepo.BindPendingDriveShares | backend/app/storage/canonical_repo.py:976-995 | drain and rebind compose to the bound tables, and the affected documents are returned without repeats |
| TokenSafety.StepKeeps | backend/app/services/oauth_service.py:60-278 | every call keeps the machine sound and un-revokes, un-redeems and forgets nothing |
| TokenSafety.RunKeeps | backend/app/services/oauth_service.py:60-278 | so does every run; among other things no code is redeemed twice |
| TokenSafety.CodeIsSingleUse | backend/app/services/oauth_service.py:88-108 | a code presented once, redeemed or not, is refused after any further run (section 4.1.2 of RFC 6749) |
| TokenSafety.OneAcceptablePerFamily | backend/app/services/oauth_service.py:225-278 | of the refresh tokens descending from one code or login at most one is acceptable |
| TokenSafety.ExchangedForSuccessor | backend/app/services/oauth_service.py:225-278 | a successful refresh or rotation revokes the token given and returns one of the same family, subject and tenant that is acceptable at once (section 10.4 of RFC 6749) |
| TokenSafety.RevokedForGood | backend/app/services/revocation.py:31-80 | a revoked token id is never accepted in its tenant again |
| TokenSafety.SessionRevoked | backend/app/services/revocation.py:82-109 | after a session is revoked no refresh token recorded for the user is accepted, then or after any run |
| TokenSafety.SessionStopsIff | backend/app/services/revocation.py:82-109 | revoking a session stops an accepted token exactly when a record of it is stored in that tenant for that user |
| TokenSafety.RotatedOutlivesSession | backend/app/services/token_service.py:186-209 | a refresh token from rotation, which stores no record, survives it |
| TokenSafety.RevocationLastsIff | backend/app/services/revocation.py:31-63 | after revoking an accepted token no state of any run accepts it, if and only if it was revoked under its own tenant |
| TokenSafety.RevokedElsewhere | backend/app/services/revocation.py:31-63 | a signed token revoked under another tenant is still accepted |
| TokenSafety.ValidationIsExact | backend/app/services/token_service.py:211-274 | after every run from the start a signed token, under whatever earlier key, is accepted if and only if it is unexpired, unrevoked in its tenant, and of no older version than stored |
| TokenSafety.RegisterKeepsIff | backend/app/services/token_service.py:80-85 | giving a key id a key keeps all signed tokens checkable exactly when those signed under it were signed with that key |
| TokenCalls.OnlyItsVerifier | backend/app/services/oauth_service.py:37-49 | a challenge made from a verifier, hashed without collisions or as it stands, is answered by that verifier and no other (section 4.6 of RFC 7636) |
| TokenCalls.AcceptsSpelled | backend/app/services/token_service.py:211-274 | a token is accepted exactly when its signature checks with the key its header names, it has not expired, its id is not revoked in its own tenant, and its version is not below the one set for its subject |
| TokenCalls.ExchangeSpelled | backend/app/services/oauth_service.py:155-195 | a code is exchanged exactly while stored and unexpired, for its client and address and against the verifier of its challenge; the pair has the user, tenant and lifetimes it should, its record is stored, and the code is gone either way |
| TokenCalls.RefreshSpelled | backend/app/services/oauth_service.py:225-278 | an accepted refresh token with an unrevoked, unexpired record of its own is exchanged for a pair of the same user and family, revoked and its record marked; any other is refused and changes nothing |
| TokenCalls.RotateSpelled | backend/app/services/token_service.py:186-209 | rotation does so without looking at a record and without storing one |
| TokenCalls.RevokeSessionSpelled | backend/app/services/revocation.py:82-109 | every record of the user in the tenant ends marked, those that were not join the revoked set, and nothing else changes |
| TokenCalls.RevokeTokenSpelled | backend/app/services/revocation.py:31-80 | the id joins the revoked set of the tenant named, the record of a refresh token there is marked, and nothing else changes |
| TokenServer.AuthServer.LoadKeys | backend/app/services/token_service.py:39-78 | keys come from disk once and the active id is registered if it is not |
| TokenServer.AuthServer.RotateSigningKey | backend/app/services/token_service.py:87-95 | the step of the machine, keeping it sound |
| TokenServer.AuthServer.RegisterVerificationKey | backend/app/services/token_service.py:80-85 | the step of the machine, keeping it sound |
| TokenServer.AuthServer.Issue | backend/app/services/token_service.py:97-184 | a token with the claims validation reads is signed with the active key and enters the history |
| TokenServer.AuthServer.ValidateToken | backend/app/services/token_service.py:211-274 | the checks in the code's order accept exactly what the machine accepts |
| TokenServer.AuthServer.RotateRefreshToken | backend/app/services/token_service.py:186-209 | rotation is the machine's step: validated, revoked, reissued |
| TokenServer.AuthServer.CreateAuthorizationCode | backend/app/services/oauth_service.py:60-83 | a drawn code is stored and the machine stays sound |
| TokenServer.AuthServer.ConsumeAuthorizationCode | backend/app/services/oauth_service.py:88-108 | the code is gone whatever comes of it, and its data is returned exactly when it was there and not expired |
| TokenServer.AuthServer.RedeemCode | backend/app/services/oauth_service.py:155-174 | succeeds exactly for a present, fresh code whose client, redirect address and PKCE verifier match (section 4.6 of RFC 7636) |
| TokenServer.AuthServer.ExchangeAuthorizationCode | backend/app/services/oauth_service.py:155-195 | the exchange is the machine's step, for success and for every refusal |
| TokenServer.AuthServer.PersistRefreshToken | backend/app/services/oauth_service.py:110-136 | a record is stored exactly when the token validates |
| TokenServer.AuthServer.RefreshAccessToken | backend/app/services/oauth_service.py:225-278 | the refresh is the machine's step, for success and for every refusal |
| TokenServer.AuthServer.NativeLogin | backend/app/api/v1/auth.py:197-215 | a login issues and stores a pair that starts a family of its own |
| TokenServer.AuthServer.RevokeToken | backend/app/services/revocation.py:31-80 | the step of the machine, keeping it sound |
| TokenServer.AuthServer.RevokeSession | backend/app/services/revocation.py:82-109 | whatever the order of the rows, every unrevoked record of the user ends revoked and in the revoked set |
| TenantStore.PartitionedIff | backend/app/storage/redis_client.py:130-136 | no key of one tenant is a key of another exactly when neither id, closed by its colon, begins the other |
| TenantStore.RevokingOne | backend/app/storage/redis_client.py:208-237 | adding a token id to its own set revokes that id of that tenant and no other, for tenant ids without a colon |
| TenantStore.TenantPartitionedRedisClient.Get | backend/app/storage/redis_client.py:138-148 | a value is read from the tenant's own partition |
| TenantStore.TenantPartitionedRedisClient.Set | backend/app/storage/redis_client.py:150-167 | a tenant reads back what it wrote and no other key, of this tenant or one apart from it, changes |
| TenantStore.TenantPartitionedRedisClient.Delete | backend/app/storage/redis_client.py:169-181 | value and set of the key go, and nothing else |
| TenantStore.TenantPartitionedRedisClient.SAdd | backend/app/storage/redis_client.py:208-225 | the member is in, newly counted or not, and no other set changes |
| TenantStore.TenantPartitionedRedisClient.SIsMember | backend/app/storage/redis_client.py:227-237 | membership is read from the tenant's own partition |
| RateLimit.WindowAdmitsExactly | backend/app/middleware/rate_limit.py:47-69 | in each fixed window a bucket gets exactly min(limit, arrivals) requests through, and all of them where the limit is not positive |
| RateLimit.WindowSpelled | backend/app/middleware/rate_limit.py:50-59 | a window is the sixty seconds from a multiple of sixty |
| RateLimit.AnyMinuteAdmitsAtMostTwice | backend/app/middleware/rate_limit.py:47-69 | any 60 seconds, wherever they start, admit at most twice the limit |
| RateLimit.TwiceIsReached | backend/app/middleware/rate_limit.py:47-69 | twice the limit is reached by a burst on either side of a window's end |
| RateLimit.RateLimiter.Dispatch | backend/app/middleware/rate_limit.py:39-73 | the counter with its 60-second expiry answers as counting the window's arrivals would: expiry never resets it inside its window |
| AclTerms.TermsWellFormed | backend/app/acl/term_generator.py:58-66 | a term list has no repeat, no blank, no wildcard and no padded term |
| AclTerms.GeneratedSpelled | backend/app/acl/term_generator.py:24-92 | a document's terms are exactly the stripped principal, email in small letters and groups, bare and behind their prefix, blanks and "*" excepted |
| AclTerms.HeldSpelled | backend/app/acl/filter.py:87-127 | a caller holds exactly the stripped claimed terms, those of acl_filter_terms only without acl_terms, and the first principal claim, the email in small letters and the groups, bare and behind their prefix |
| AclTerms.DocumentedExample | backend/app/acl/term_generator.py:50-56 | the example of the generator's documentation, in its order |
| AclTerms.GenerateAclTermsForUser | backend/app/acl/term_generator.py:24-92 | the generator computes the terms of principal, email and groups, first occurrences in order |
| AclTerms.AclTermsFromJwt | backend/app/acl/filter.py:87-127 | the reader computes the claimed terms and those of the identity claims, first occurrences in order |
| AclTerms.PrincipalAgreesIff | backend/app/acl/term_generator.py:68-74 | generator and reader make the same terms of a principal exactly when it starts with no space, no user: and no group: |
| AclTerms.EmailAgreesIff | backend/app/acl/term_generator.py:76-81 | they make the same terms of an email exactly when it is not made of spaces only |
| AclTerms.GroupAgreesIff | backend/app/acl/term_generator.py:83-90 | they make the same terms of a group exactly when it starts with no space |
| AclTerms.GeneratorMatchesToken | backend/app/acl/term_generator.py:24-92 | for such an identity and no claimed terms both return the same list |
| AclTerms.MatchesInEveryPartIff | backend/app/acl/term_generator.py:24-92 | the lists match for an identity and for each part of it alone exactly when no value starts with a space, the principal is unprefixed and the email is not all spaces |
| AclTerms.OnePartMasksAnother | backend/app/acl/term_generator.py:24-92 | for the whole alone a match can be an accident of two parts |
| AclTerms.TokenHoldsGenerated | backend/app/acl/filter.py:87-127 | with claimed terms the token still holds every generated term |
| AclTerms.MergeAclTerms | backend/app/acl/term_generator.py:95-122 | merging any number of lists is one pass over their concatenation |
| AclTerms.MergedTerms | backend/app/services/indexer.py:423-436 | well-formed terms of either list survive a merge unchanged and nothing else appears |
| AclFilter.VisibleMeaning | backend/app/acl/filter.py:34-57 | deny wins, and without a term that admits the caller there is no access |
| AclFilter.VisibleSpelled | backend/app/acl/filter.py:24-57 | a caller sees a document exactly when holding "*", or when a term of the document that is no deny: term is the caller's and none of the caller's terms stands there behind deny: |
| AclFilter.ClauseSpelled | backend/app/acl/filter.py:60-76 | what the search clause accepts, spelled in the same way |
| AclFilter.DecidersAgreeIff | backend/app/acl/filter.py:60-76 | the OpenSearch clause accepts exactly the documents the in-process decision shows if and only if the caller is refused, is the wildcard, or has no blank term and no deny: term that does not deny the caller too |
| OwnerSearch.OwnerSeesOwnDocument | backend/app/workers/tasks.py:516-524 | a document indexed with its owner's generated terms, whatever else was merged in and whatever email or groups were given, is visible to any token of the owner's principal exactly when no term denies it, provided the principal is present, unpadded and unprefixed, or its bare form is a term and no deny term |
| OwnerSearch.PrincipalIsEnoughIff | backend/app/services/indexer.py:56-68 | that proviso is exactly what makes the principal enough for all tokens and documents |
| OwnerSearch.OwnerSeesByEmail | backend/app/acl/filter.py:114-117 | the same by an email both sides know, in whatever case or padding |
| OwnerSearch.OwnerSeesByGroup | backend/app/acl/filter.py:119-125 | the same by a group both sides name |
| OwnerSearch.OwnerSeesByIdentity | backend/app/services/indexer.py:56-68 | the same by an identity both sides spell alike, whichever part of it is there |
| RowPermissions.BuildPermissions | backend/app/services/pipeline.py:247-280 | the permissions are the rows' terms without repeats, in any order |
| RowPermissions.PermissionsDecideAlikeIff | backend/app/storage/canonical_repo.py:889-910 | permissions built from the rows under one id show the document to a caller holding p and user:p as `principal_can_read_document` decides for another id exactly when: p has a row under the first id, no deny row under any alias, and an allow row under some alias, which the first id is; or p has no row there and no access by the aliases |
| RowPermissions.StoredIdIsAlias | backend/app/services/pipeline.py:104-105 | the id under which the pipeline stores rows and the id under which the document goes out are aliases of each other |
| Scim.UserFeedIsIdempotent | backend/app/services/scim_sync.py:51-91 | a second run of a user feed changes no row, even with repeated and conflicting ids |
| Scim.RowsStayTrue | backend/app/services/scim_sync.py:51-91 | a run hands no row to another tenant or subject, makes rows only for feed entries of that principal, and keeps email and name those of the stored profile |
| Scim.LastEntryDecides | backend/app/services/scim_sync.py:51-91 | the last entry for a principal decides email and name: its first listed email or none, its display name or else its user name |
| Scim.GroupFeedIdempotentIff | backend/app/services/scim_sync.py:112-158 | a second run of a group feed changes nothing exactly when no id occurs with two member sets |
| Scim.InMemberSet | backend/app/services/scim_sync.py:160-212 | a group's members are the principals of the feed members that carry a value |
| Scim.VersionCountsChanges | backend/app/services/scim_sync.py:112-158 | membership equals the feed's set, a new group has version 1, an existing group's version rises by one exactly when its set changed, and its name stays |
| Scim.UnnamedGroupUntouched | backend/app/services/scim_sync.py:112-158 | a group the feed does not name is left alone |
| Scim.ScimSyncService.SyncUsers | backend/app/services/scim_sync.py:32-91 | the loop computes the feed's effect, fails and leaves the table alone exactly when a named entry has an empty email list, and counts the rows it made |
| Scim.ScimSyncService.UpdateGroupMembership | backend/app/services/scim_sync.py:160-212 | the group's members become the feed's set, no other group's change, and the answer says whether they differed |
| Scim.ScimSyncService.SyncGroups | backend/app/services/scim_sync.py:93-158 | the loop computes the feed's effect over rows and memberships, and its counters are zero exactly when nothing changed |
| PgConnect.TerminatesIff | backend/app/storage/pg_connect.py:84-139 | every call ends exactly in an environment whose pooler URL is no direct host, or whose database URL names a remote pooler host |
| PgConnect.WhereItGoes | backend/app/storage/pg_connect.py:84-139 | which URL a call goes on with: for a local one the first cloud URL of pooler, fallback, control plane and database URL, for a direct one whichever of pooler and fallback first names a pooler host, arguments before environment |
| PgConnect.LocalSpelled | backend/app/storage/pg_connect.py:21-28 | which hosts count as local: up to a % and in any case, four names and what ends in .local |
| PgConnect.DirectSpelled | backend/app/storage/pg_connect.py:22-22 | which hosts count as direct, and the project they name |
| PgConnect.AlwaysConnectable | backend/app/storage/pg_connect.py:141-159 | never a pooler host on port 5432, never localhost or ::1, never an ssl option in the query |
| PgOutcomes.RemoteIff | backend/app/storage/pg_connect.py:112-147 | no URL ends on a local host exactly when the cloud URL is remote and, below the first call, it and whatever a direct URL is sent to end on remote hosts |
| PgOutcomes.RemoteByArgumentsIff | backend/app/core/config.py:737-741 | with the settings given by arguments alone and a remote cloud URL, exactly when the URL a direct host is sent to is remote |
| PgOutcomes.RemoteWhenConfigured | backend/app/storage/pg_connect.py:120-129 | always when the cloud URL is remote with and without the arguments |
| PgOutcomes.RemoteCloudIsNotEnough | backend/app/storage/pg_connect.py:120-140 | a remote cloud URL given by argument beside a local pooler URL in the environment ends on a local host |
| PgConnect.OneUrlThroughout | backend/app/storage/pg_connect.py:84-159 | the result is one of the given or configured URLs made connectable: its own password, path, query less the ssl options, and port or the transaction port of a pooler, and its own host and user unless a direct host is moved to the pooler host under the project's user |
| PgOutcomes.IdempotentIff | backend/app/storage/pg_connect.py:84-159 | for a pooler host that is neither local nor direct, preparing twice is preparing once for every URL exactly when the settings are not torn: a remote pooler URL that names no pooler host beside a fallback that does, with different ends, the first on a direct host or the second on a local one |
| PgOutcomes.PreparingTwice | backend/app/storage/pg_connect.py:84-159 | they are not when left to the environment, for any pooler host that is neither local nor direct |
| PgOutcomes.PreparingTwiceWithPooler | backend/app/storage/pg_connect.py:84-159 | nor whenever the pooler URL is absent, local, or names a pooler host |
| PgOutcomes.ArgumentsCanDisagree | backend/app/storage/pg_connect.py:112-140 | a torn setting, and the URL that shows it |
| PgOutcomes.NeverEnding | backend/app/storage/pg_connect.py:136-140 | an environment in which a call never ends |
| PgConnect.PrepareDatabaseUrl | backend/app/storage/pg_connect.py:84-159 | the recursive method computes the chooser the lemmas are about |
| PgConnect.DirectIsNotPooler | backend/app/storage/pg_connect.py:57-62 | no direct Supabase host is a pooler host |

## Left out

- Routers, telemetry, logging, settings, migrations, the frontend, text extraction and chunking: wiring, or one-branch facts.
- SQL sessions of the repository, the cursor store and SCIM: the in-memory tables with their keys stand for them; transaction, foreign-key and unique-email failures are not modelled.
- Connectors, transforms and search stores: a deterministic chain of pages, a given batch, and a map from id to document. In `Sync` a page is what the connector and the pipeline together make of it, so the fallback from the pipeline to the connector's transform and a partly failed batch are inside the page; `NotificationSync` does model a pipeline that drops documents.
- The start token a Drive sync may be handed in place of the stored cursor, and `run_sync`, the older variant that mixes deletion cursors into the final cursor.
- Cryptography, uuid4, uuid5, base64 and the address validator: a key-pair number stands for a signature, random ids are assumed new, uuid5, the S256 hash and the validator are arbitrary functions.
- Clocks are integers handed to each call; in `RateLimit` the clock is a real that does not run back. The issued-at claim, scopes and the expiry of Redis keys other than rate counters are not modelled.
- A Redis outage in mid-run, when reads and writes may go to different stores; when Redis cannot be reached the rate limiter counts nothing and admits all. OPTIONS requests and exempt paths pass uncounted.
- Two workers on one cursor, and two requests on one refresh token: the code takes no lock, so each service call is one atomic step here. `IdentityResolution` does interleave the table operations of concurrent calls.
- The mirror path of the resolver with its positive and negative email cache, username matching, and the effect of concurrent updates on `source_identities`.
- Aliasing of Python row objects: records are values, so an update replaces the record in its table. The iteration order of dicts and sets is left open wherever the code does not fix it.
- The repository class is split by use into CanonicalRepo.Repo, IdentityResolution.IdentityResolver and PendingShares.ShareRepo, one tenant's or all tenants' tables as the code keys them; `insert_acl_entry` compares no tenant, hence the assumption there that a principal's rows are its tenant's.
- `strip`, `lower` and `startswith` are modelled on ASCII text. Claims and hints are text; a claim of another JSON type is not modelled.
- Client-credential tokens, invitations and password handling.
- URL parsing, percent-encoding and printing in `PgConnect`: a URL is its parts, a blank setting is an absent one.
- Timestamps, display fields and statistics that no decision reads, such as the sync version's update time.
- GroupExpansion.ExpandGroupMembersSafe: says nothing of Python's recursion limit, which a chain of nested groups may reach.
- TokenServer.AuthServer.Issue: leaves out the claims that validation does not read, such as scopes, role and issuer.
- TokenServer.AuthServer.CreateAuthorizationCode: leaves out the copy under the tenant's own partition and the 600-second expiry of the keys; the code's own expiry is there.
