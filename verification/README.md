# Delegated access and authorization: a verified model

This project models the backend that decides who may act for whom, and proves what its parts guarantee together.
`dafny verify dfyconfig.toml` checks everything.

- **Policies** (`Policies`, `PolicyEngine`, `PolicyOrder`, `ReasonCodes`). The permission table; the engine that collects
  reasons against a request, refined to a declarative policy; the order on policies, carried over to decisions.
- **Delegated tokens** (`DelegatedAccess`, `DelegatedAccessProperties`, `TokenBroker`, `ScopeOrder`, `ConnectEnables`,
  `BrokerRuns`, `BrokerAccounting`). Snapshots are mutable objects in a store, one per subject. The token broker is a class
  over them with a cache and counters. `BrokerRuns` is the whole system as a state machine: a retrieval peeks, decides and
  stores in three separate steps, so calls interleave at every await, and any cache entry may be lost at any moment.
- **Relationships** (`Tuples`, `Sync`, `RelationshipModel`, `AccessAcrossEvents`). Lifecycle events become tuple operations
  against a store that can fail, with any error text, before or after it changed; the deployed rewrites give tuples their
  meaning, by derivations of any depth.
- **Explanations** (`DecisionTrace`, `AccessGraph`, `ResourceAccess`, `AccessViewMeaning`, `ResourceGrants`). Layered decisions
  over checks that may answer differently each time, the graph and path drawn from a trace, the access listing of a resource,
  and what these come to under the relationship model.
- **Operations** (`Audit`, `AssistantRuntime`, `AssistantRuns`, `Observability`, `WindowCounters`). The audited operation under
  any failures of the writer, the assistant runtime with its kill switch and registries, fixed-window counters and their alerts.

`Sequences` holds the list operations all parts share.

## Findings

Each of these is a lemma, with the exact condition where the code falls short of what one would expect.

- Nobody can execute an agent action on a store that keeps the model's own type restrictions: executors are agents and
  delegators are users, and both are needed (`NobodyCanExecute`).
- A promotion can end with neither tuple, if writing the admin tuple fails and deleting the member tuple does not; the loop
  carries on after an error (`PromotionUnderFaults`, `PromotionCanLoseTheMember`). The comment on `mapEventToTuples` gives the
  two operations of a promotion in the other order; the model follows the code, which writes the admin tuple first.
- A promotion writes before it deletes and a demotion deletes before it writes, so only a demotion has a moment without
  membership (`PromotedStaysMember`, `DemotionHasAGap`).
- Errors are told apart by their text alone, so one that merely sounds idempotent counts as success: a removal that fails with
  "Store ID not found" is reported as processed while the member stays, and a revocation that reached nothing as done
  (`RetryUntilSuccess`, `LostRemovalReportsSuccess`, `StoreNotFoundSoundsLikeSuccess`).
- A resource grant naming a level other than viewer, editor or owner survives its revocation (`UndoneExactly`). On a resource
  the deployed model does not admit such a level; but an event of this kind may name an organization and the level member,
  which it does admit (`UnrevocableIsNotAdmitted`, `OrganizationGrantSurvivesItsRevocation`).
- A resource revocation reports success although the editor tuple is still there (`RevokedExactly`, `SuccessCanLeaveTheEditor`).
- The service accepts grants that the deployed model refuses: operator for assistants, and every level for organizations
  (`AdmittedExactly`, `UnadmittedGrantsFail`).
- A cached token can name somebody other than who asks: the actor of a request is part of the key, but the record names the
  actor of the context it was issued in (`NamesOfMiss`, `HitCanNameAnother`). Where every request names its own context this
  cannot happen (`HitsNameTheAsker`).
- The inherited search of the trace engine never finds anything while the tuples hold still (`DecisionForStableStore`).
  Its RBAC layer never changes a decision: ABAC and the relationship check alone determine it (`DecisionForAnyAnswers`).
- The decision node of a graph says "Access Denied" where the path says "MFA Required" (`TitlesDifferExactlyWhenMfaBlocks`,
  `MfaIsDrawnAsDenied`), and a denied trace still leads from subject to decision when subject and resource are the same entity
  (`DeniedButConnected`).
- Owners without any other tuple are told that they have no access (`OnlyOwnersGoUnexplained`, `OwnerIsToldNothing`).
- On a store that keeps the deployed type restrictions the access view lists exactly the users with view access. Only off them
  can it mislead: an organization holding viewer or editor would show members as inheriting what the model does not give
  (`InheritedEntryIsRealExactly`, `UnadmittedViewerMisleads`); no deployed store holds such a tuple.
- Nine disabled invocations are the least number that always raises the alert: eight may fall on both sides of a window's end
  (`NineInvocationsFire`, `EightCanStaySilent`). The denied-spike alert reads a counter that none of the service's own signals increments
  (`NoSignalRaisesDeniedSpike`).
- A denied or failed audited operation may have run to its end (`RefusedAlthoughDone`, `FinishedButReportedAsFailed`).

## Model

| member | source | states |
|---|---|---|
| PolicyEngine.EvaluatePermission | packages/authorization/src/engine.ts:465-521 | The decision allows exactly when a role, the actor type, the owner (absent, empty or the subject), every required status, owner and scope list, and step-up hold; a denial reports exactly the codes of the objections that hold, each about the right topic and in the order of the checks, each (code, text) once |
| PolicyEngine.CollectMeetsSpec | packages/authorization/src/engine.ts:150-455 | No reason is collected exactly when the declarative policy allows, for every policy, context and resource |
| PolicyEngine.ReportsExactly | packages/authorization/src/engine.ts:150-455 | A code is among the collected reasons exactly when the objection it stands for holds |
| PolicyEngine.MissingScopesAreNamed | packages/authorization/src/engine.ts:201-435 | A reason about scopes names exactly the scopes its consent, vault, provider or session requirement asks for and the context lacks |
| PolicyEngine.UniqueReasons | packages/authorization/src/engine.ts:99-111 | The loop with its set of joined keys keeps exactly the first reason of each (code, text), in order |
| PolicyEngine.UniqueReportsTheSame | packages/authorization/src/engine.ts:99-147 | Removing repetitions never loses a reported code |
| ReasonCodes.JoinedKeyInjective | packages/authorization/src/engine.ts:103-104 | The joined key `code:message` determines both parts, because no code holds a colon |
| Sequences.FirstByMembers | packages/authorization/src/engine.ts:99-111 | An entry survives de-duplication exactly when no earlier entry shares its key |
| Sequences.FirstByDistinct | packages/authorization/src/engine.ts:99-111 | De-duplication leaves each key exactly once and loses none |
| Sequences.FirstByIdempotent | packages/authorization/src/engine.ts:99-147 | De-duplicating twice is de-duplicating once, and a non-empty list is never emptied |
| Sequences.FirstByGrows | packages/authorization/src/engine.ts:99-111 | The survivors of a prefix of the list are a prefix of the survivors: order is kept |
| PolicyOrder.AllowIsMonotone | packages/authorization/src/engine.ts:465-521 | Adding roles, scopes or step-up never turns allow into deny |
| PolicyOrder.WeakerPolicyAllows | packages/authorization/src/engine.ts:465-521 | If q demands component by component no more than p, q allows whatever p allows |
| PolicyOrder.PolicyOrderIsExact | packages/authorization/src/engine.ts:465-521 | The component order is exact: q allows whatever p allows if and only if q demands no more than p |
| PolicyOrder.SensitiveImpliesDelegated | packages/authorization/src/policies.ts:120-204 | Being allowed sensitive_actions:execute implies delegated_tokens:use and agent_actions:execute |
| PolicyOrder.RolePermissionsAreThePolicies | packages/authorization/src/policies.ts:230-245 | rolePermissions lists a permission for a role exactly when its policy names the role |
| PolicyOrder.AllowedIsGrantedToSomeRole | packages/authorization/src/policies.ts:230-245 | Every allowed permission is in rolePermissions of some role of the actor |
| PolicyOrder.WhoMayAsk | packages/authorization/src/policies.ts:27-228 | Which roles each permission is open to, literally |
| PolicyOrder.WhichActorsMayAsk | packages/authorization/src/policies.ts:27-228 | Which actor types each permission is open to, literally |
| PolicyOrder.WhatIsOwned | packages/authorization/src/policies.ts:27-228 | Exactly the listed permissions ask for ownership, and only sensitive actions for step-up |
| PolicyOrder.WhatIsDelegated | packages/authorization/src/policies.ts:27-228 | Which permissions need a consent, a vault, a provider or a session |
| PolicyOrder.WhichDelegatedScopes | packages/authorization/src/policies.ts:27-228 | Which scopes delegated tokens and sensitive actions need of each |
| DelegatedAccess.DelegatedAccessService.ConnectProvider | services/orchestrator-api/src/application/delegated-access/delegated-access.service.ts:71-167 | Allowed exactly by the policy; the subject's stored snapshot, and no other, gets the new connection, consent and session first and keeps the others |
| DelegatedAccess.DelegatedAccessService.RevokeConnection | services/orchestrator-api/src/application/delegated-access/delegated-access.service.ts:169-242 | Allowed exactly by the policy; only the subject's snapshot changes: the connection and its sessions are revoked, its consents if asked |
| DelegatedAccess.DelegatedAccessService.EnsureSnapshot | services/orchestrator-api/src/application/delegated-access/delegated-access.service.ts:440-450 | A missing snapshot is created once, as a new object no other subject shares; an existing one is returned itself |
| DelegatedAccess.DelegatedAccessService.ResolveDelegatedTokenFoundation | services/orchestrator-api/src/application/delegated-access/delegated-access.service.ts:351-430 | The foundation takes the connection asked for, the consent asked for or of that connection, and that connection's session, or else the first of each, from the subject's own snapshot; its context says what they say; no other snapshot changes |
| DelegatedAccess.SnapshotObject.Connect | services/orchestrator-api/src/application/delegated-access/delegated-access.service.ts:130-143 | The three lists are rewritten in place: the new connection, consent and session first, field by field from context and request, then the entries with other ids in their order |
| DelegatedAccess.SnapshotObject.Revoke | services/orchestrator-api/src/application/delegated-access/delegated-access.service.ts:189-217 | The three lists are rewritten in place: entries of the connection are revoked, its consents exactly if the intent says so, and every entry of another connection stays as it was |
| DelegatedAccessProperties.DefaultIsWellFormed | services/orchestrator-api/src/application/delegated-access/delegated-access.service.ts:452-512 | A default snapshot has unique ids and only references that resolve or are the pending marker |
| DelegatedAccessProperties.DefaultEntries | services/orchestrator-api/src/application/delegated-access/delegated-access.service.ts:452-512 | The entries of a default snapshot, field by field |
| DelegatedAccessProperties.DefaultReflectsContext | services/orchestrator-api/src/application/delegated-access/delegated-access.service.ts:351-512 | The first decision of a subject without a snapshot sees the states and scopes of its own context |
| DelegatedAccessProperties.WhoMayConnect | services/orchestrator-api/src/application/delegated-access/delegated-access.service.ts:71-100 | Connecting is allowed exactly to users who are admins or operators |
| DelegatedAccessProperties.WhoMayRevoke | services/orchestrator-api/src/application/delegated-access/delegated-access.service.ts:169-187 | Revoking is allowed exactly to the same while their context has a connected provider of their own |
| DelegatedAccessProperties.ProvidersHaveOwnIds | services/orchestrator-api/src/application/delegated-access/delegated-access.service.ts:102-128 | Connections, consents and sessions of one subject to different providers never share an id |
| DelegatedAccessProperties.ConnectLists | services/orchestrator-api/src/application/delegated-access/delegated-access.service.ts:130-143 | Connecting lists the new connection and drops none |
| DelegatedAccessProperties.ConnectKeepsWellFormed | services/orchestrator-api/src/application/delegated-access/delegated-access.service.ts:130-143 | Connecting keeps ids unique in all three lists and every reference resolved |
| DelegatedAccessProperties.RevokeKeepsWellFormed | services/orchestrator-api/src/application/delegated-access/delegated-access.service.ts:189-217 | Revoking keeps ids unique and every reference resolved |
| DelegatedAccessProperties.RevokeRevokes | services/orchestrator-api/src/application/delegated-access/delegated-access.service.ts:189-217 | After revoking a listed connection every entry of it is revoked and no session of it is active |
| DelegatedAccessProperties.RevokeKeepsRevoked | services/orchestrator-api/src/application/delegated-access/delegated-access.service.ts:189-217 | Revoking any connection keeps the revoked ones revoked |
| DelegatedAccessProperties.ConnectElsewhereKeepsRevoked | services/orchestrator-api/src/application/delegated-access/delegated-access.service.ts:130-143 | Connecting another provider keeps a revoked connection revoked |
| DelegatedAccessProperties.RevokedResolvesToRevoked | services/orchestrator-api/src/application/delegated-access/delegated-access.service.ts:351-430 | A request naming a revoked connection resolves to a revoked provider connection, whatever else the snapshot holds |
| DelegatedAccessProperties.ConnectResolvesToNew | services/orchestrator-api/src/application/delegated-access/delegated-access.service.ts:351-430 | Right after a connect, a request naming the new connection resolves to the three entries just written |
| ConnectEnables.ConnectEnablesExactlyTheGrant | services/orchestrator-api/src/application/token-broker/token-broker.service.ts:301-323 | Right after an allowed connect, a delegated request by the same context that names the new connection, or leaves it to the context, is authorized exactly when it is for the subject itself and the granted scopes include tokens.delegated, a sensitive one exactly when they include all three sensitive scopes and step-up is satisfied |
| TokenBroker.TokenBrokerService.RetrieveTokenRequest | services/orchestrator-api/src/application/token-broker/token-broker.service.ts:134-205 | A retrieval that nothing interleaves with: what the request names wins over the context and gives its one key; under that key a denial changes nothing, a hit counts and touches the record and answers its metadata as cached, a miss counts and stores and answers a new record; a machine request leaves the snapshots alone |
| TokenBroker.TokenBrokerService.DecideAndCount | services/orchestrator-api/src/application/token-broker/token-broker.service.ts:141-189 | The synchronous middle of a retrieval: the decision in the context rebuilt from the snapshot, one counter, and the record to store |
| TokenBroker.TokenBrokerService.PreviewTokenRequest | services/orchestrator-api/src/application/token-broker/token-broker.service.ts:89-132 | A preview answers allowed exactly when a retrieval would get a token, a hit exactly if the request's key is cached, and step-up exactly for sensitive delegated requests without it; it leaves cache and counters alone |
| TokenBroker.TokenBrokerService.EvaluateRequest | services/orchestrator-api/src/application/token-broker/token-broker.service.ts:301-336 | The decision is about the permission that intent, classification and cache hit select: it allows exactly what that policy allows, and a denial reports exactly its objections |
| TokenBroker.KeyIsAskedFor | services/orchestrator-api/src/application/token-broker/token-broker.service.ts:235-267 | The key of a request: every field it names (actor, subject, connection, grant) is its own, every other the context's, and the scopes are sorted |
| BrokerRuns.RevocationBeatsCache | services/orchestrator-api/src/application/token-broker/token-broker.service.ts:134-165 | In every interleaved run, once a revocation of a listed connection succeeds every later delegated request of that subject naming it is denied, cached record or not, and changes no counter, until a connect rebuilds it |
| BrokerRuns.StepKeepsRevoked | services/orchestrator-api/src/application/delegated-access/delegated-access.service.ts:169-218 | Every step of the whole system except a connect that rebuilds the connection keeps it revoked |
| BrokerRuns.RevokedIsDenied | packages/authorization/src/engine.ts:326-352 | No delegated permission is granted on a revoked connection, whether or not the cache has a record |
| BrokerRuns.NoActiveSessionAfterRevoke | services/orchestrator-api/src/application/delegated-access/delegated-access.service.ts:206-217 | Between a revocation and the connect that rebuilds the connection no session of it is active |
| BrokerRuns.SnapshotsOverRuns | services/orchestrator-api/src/application/delegated-access/delegated-access.service.ts:440-512 | In every reachable state ids are unique and references resolve, and a connection once listed is never dropped |
| BrokerAccounting.Accounting | services/orchestrator-api/src/application/token-broker/token-broker.service.ts:134-189 | In every interleaved run with any evictions: hits + misses is the number of authorized retrievals, stored hit counts sum to at most hits, cached keys are at most misses |
| BrokerAccounting.OnlyAuthorizedRetrievalsCount | services/orchestrator-api/src/application/token-broker/token-broker.service.ts:89-165 | Denied retrievals, previews, connects and revocations change neither cache nor counters |
| BrokerAccounting.SerialAccountingIsExact | services/orchestrator-api/src/application/token-broker/token-broker.service.ts:471-486 | For calls that do not overlap, without eviction, the stored hit counts sum to exactly hits |
| BrokerAccounting.RetrievalIsThreeSteps | services/orchestrator-api/src/application/token-broker/token-broker.service.ts:134-205 | The whole retrieval is its three interleavable stages run in a row |
| BrokerAccounting.KeysAgreeExactly | services/orchestrator-api/src/application/token-broker/token-broker.service.ts:251-267 | Two normalized requests share a key exactly when their fields agree and their scope lists are permutations |
| ScopeOrder.SameFormExactlyForPermutations | services/orchestrator-api/src/application/token-broker/token-broker.service.ts:260 | Sorted scope lists are equal exactly for permutations |
| ScopeOrder.SortSorts | services/orchestrator-api/src/application/token-broker/token-broker.service.ts:260 | The canonical order is sorted |
| ScopeOrder.BelowExactly | services/orchestrator-api/src/application/token-broker/token-broker.service.ts:260 | The order of scopes: a prefix comes first, else the smaller character where two first differ |
| BrokerAccounting.CachedRecordsFit | services/orchestrator-api/src/application/token-broker/token-broker.service.ts:338-391 | In every reachable state a cached record has the audience, intent, classification and scope multiset of any request its key serves, carries that key, and still has the metadata and the 15 minutes of the miss that issued it |
| BrokerAccounting.HitAgreesWithFresh | services/orchestrator-api/src/application/token-broker/token-broker.service.ts:338-419 | A hit and a fresh issue for the same request agree on key, audience, intent, classification, scopes and lifetime, and reuse never extends the expiry; every other field (actor, subject, provider, consent, connection, session, step-up) is answered as by the issuing miss, so actor and subject agree exactly if that miss was the same actor's and subject's |
| BrokerAccounting.HitsNameTheAsker | services/orchestrator-api/src/application/token-broker/token-broker.service.ts:235-249 | In runs where every retrieval names itself, every cached record names the actor and subject of its key, and every hit names who asks |
| BrokerAccounting.NamesOfMiss | services/orchestrator-api/src/application/token-broker/token-broker.service.ts:358-369 | A record names the actor, or the subject, of its key exactly if the miss that issued it named its own |
| BrokerAccounting.HitCanNameAnother | services/orchestrator-api/src/application/token-broker/token-broker.service.ts:241-369 | A concrete pair of retrievals: the first names another actor, that actor then hits, is authorized, and is answered with the first one's identity |
| BrokerAccounting.ReachableIsSound | services/orchestrator-api/src/application/token-broker/token-broker.service.ts:338-391 | The invariant of every reachable state: genuine records in the cache and in every call in flight |
| Sync.TupleSyncService.ProcessEvent | packages/openfga/src/sync/sync-service.ts:52-103 | The store and the result of an event, operation by operation, for errors with any text raised before or after the store changed |
| Sync.TupleSyncService.ProcessBatch | packages/openfga/src/sync/sync-service.ts:105-111 | The store after a batch, and its results event by event, each from the store as it then was |
| Sync.TupleSyncService.ExecuteOne | packages/openfga/src/sync/sync-service.ts:69-92 | One operation: ok, skipped if the text of the error counts as idempotent, else failed |
| Sync.SuccessMeansNoneFailed | packages/openfga/src/sync/sync-service.ts:95 | Success is reported exactly when no operation failed, that is when every error met has a text that counts as idempotent |
| Sync.ResultsExactly | packages/openfga/src/sync/sync-service.ts:69-92 | Each result names its operation and is ok exactly if no error was met and the store needed it, and failed exactly if an error was met whose text does not count as idempotent |
| Sync.IdempotentExactly | packages/openfga/src/sync/sync-service.ts:131-140 | Which texts count as idempotent: "already exists" for writes, "not found" for deletions, and the two refusals for both |
| Sync.RefusalsAreIdempotent | packages/openfga/src/sync/sync-service.ts:131-140 | The store's own refusals count as idempotent |
| Sync.RunIsCleanExactly | packages/openfga/src/sync/sync-service.ts:52-103 | Under any errors a run leaves what a clean run leaves exactly when the last operation on every tuple left it as wanted |
| Sync.LastTouchDecides | packages/openfga/src/sync/sync-service.ts:56-93 | The store after operations is fixed tuple by tuple by the last operation touching it, else by the start |
| Sync.CleanBatch | packages/openfga/src/sync/sync-service.ts:105-111 | A batch without errors runs the concatenated operations |
| Sync.ReplayChangesNothing | packages/openfga/src/sync/sync-service.ts:105-111 | Replaying a whole batch changes nothing |
| Sync.EventsOnDifferentPairsCommute | packages/openfga/src/sync/mapper.ts:22-96 | Events on different subjects or objects commute |
| Sync.RetryUntilSuccess | packages/openfga/src/sync/sync-service.ts:52-103 | After any partial failures, the first attempt that reports success leaves the store one clean run would have left exactly when no operation it skipped, last on its tuple, left the tuple other than it wants it |
| Sync.RetryUntilClean | packages/openfga/src/sync/sync-service.ts:52-103 | In particular when that attempt meets no error at all |
| Sync.LostRemovalReportsSuccess | packages/openfga/src/sync/sync-service.ts:131-140 | A concrete removal whose deletions fail with "Store ID not found": it is reported as processed and the member stays |
| Sync.ReplayIsSkipped | packages/openfga/src/sync/sync-service.ts:73-83 | Replaying a processed event skips every operation as already done |
| AccessAcrossEvents.PromotedStaysMember | packages/openfga/src/sync/mapper.ts:39-44 | Without errors a member being promoted is an effective member after every single operation |
| AccessAcrossEvents.PromotionUnderFaults | packages/openfga/src/sync/sync-service.ts:56-93 | With errors, the promoted member is still a member exactly when the admin tuple is there or the member deletion did not take effect |
| AccessAcrossEvents.PromotionCanLoseTheMember | packages/openfga/src/sync/sync-service.ts:56-93 | A concrete promotion whose first operation fails: no tuple is left |
| AccessAcrossEvents.AccessAfterOrgRemoval | packages/openfga/src/sync/mapper.ts:31-37 | After removal from an organization the remaining view access is exactly what direct tuples or other organizations give |
| AccessAcrossEvents.AccessAfterResourceRevocation | packages/openfga/src/sync/mapper.ts:64-71 | After a resource revocation the remaining view access is exactly what organizations give; other resources are untouched |
| AccessAcrossEvents.UndoneExactly | packages/openfga/src/sync/mapper.ts:53-89 | An event and the event that takes it back come to the second alone exactly when the level given is viewer, editor or owner, or was there before |
| AccessAcrossEvents.UnrevocableIsNotAdmitted | packages/openfga/src/sync/mapper.ts:53-71 | On a resource, a level that would survive its revocation is one the deployed model does not admit |
| AccessAcrossEvents.OrganizationGrantSurvivesItsRevocation | packages/openfga/src/sync/mapper.ts:53-71 | A concrete resource event naming an organization and the level member: an admitted tuple gives membership that the revocation leaves |
| AccessAcrossEvents.GivenAccessHolds | packages/openfga/src/sync/mapper.ts:27-62 | What an event gives is effective membership or view access afterwards |
| AccessAcrossEvents.EventLeavesExactly | packages/openfga/src/sync/mapper.ts:22-96 | For each event type, which relations of its subject to its object it leaves in the store and which out of it; no other tuple is touched |
| AccessAcrossEvents.EventLeavesInTurn | packages/openfga/src/sync/mapper.ts:22-96 | What any first operations of an event leave: which relation each operation touches, and in which order |
| AccessAcrossEvents.DemotedIsMemberOnly | packages/openfga/src/sync/mapper.ts:46-51 | After a demotion the subject is an effective member and no effective admin |
| AccessAcrossEvents.PromotedIsAdmin | packages/openfga/src/sync/mapper.ts:39-44 | After a promotion the subject is an effective admin and still a member |
| AccessAcrossEvents.DemotionHasAGap | packages/openfga/src/sync/mapper.ts:46-51 | Between the two operations of a demotion the subject is a member exactly if it held a member tuple besides |
| RelationshipModel.AccessIsMonotone | packages/openfga/src/scripts/deploy-model.ts:80-226 | More tuples never take effective access away |
| RelationshipModel.EffectiveViewer | packages/openfga/src/scripts/deploy-model.ts:137-149 | A viewer, at any derivation depth, is who holds a viewer, editor or owner tuple or belongs to an organization of the resource |
| RelationshipModel.EffectiveEditor | packages/openfga/src/scripts/deploy-model.ts:122-136 | An editor is who holds an editor or owner tuple or is an admin of an organization of the resource |
| RelationshipModel.EffectiveMember | packages/openfga/src/scripts/deploy-model.ts:92-99 | A member is who holds a member or admin tuple |
| RelationshipModel.AdmittedByHolder | packages/openfga/src/scripts/deploy-model.ts:100-173 | What the type restrictions let each kind of subject hold on resources and organizations |
| RelationshipModel.EffectiveByTuple | packages/openfga/src/scripts/deploy-model.ts:120-180 | Organizations and owners of a resource, and organizations, executors and delegators of an action, are held by tuple alone |
| RelationshipModel.UndefinedIsNeverHeld | packages/openfga/src/scripts/deploy-model.ts:80-226 | Nobody holds a relation that the model does not define for the type |
| RelationshipModel.EffectiveExecute | packages/openfga/src/scripts/deploy-model.ts:181-188 | can_execute is held exactly by who holds both an executor and a delegator tuple |
| RelationshipModel.EffectivePreview | packages/openfga/src/scripts/deploy-model.ts:189-203 | can_preview is held exactly by tuple, by who can execute, or by members of an organization of the action |
| RelationshipModel.AccessLevelsNest | packages/openfga/src/scripts/deploy-model.ts:90-149 | owner within editor within viewer, and admin within member, for every store |
| RelationshipModel.ExecuteImpliesPreview | packages/openfga/src/scripts/deploy-model.ts:178-203 | can_execute needs both executor and delegator and implies can_preview |
| RelationshipModel.NobodyCanExecute | packages/openfga/src/scripts/deploy-model.ts:181-215 | On a store that keeps the type restrictions nobody can execute an action |
| DecisionTrace.Evaluate | services/orchestrator-api/src/application/authz/decision-trace-engine.ts:34-96 | The trace and the checks of one evaluation, short circuits included |
| DecisionTrace.CheckInheritedAccess | services/orchestrator-api/src/application/authz/decision-trace-engine.ts:254-308 | The loop stops at the first organization that grants, at the first error, or at the end |
| DecisionTrace.StepsOfATrace | services/orchestrator-api/src/application/authz/decision-trace-engine.ts:34-243 | Every step of a trace: RBAC allows or skips, ABAC says what the policy engine answered, the first check is of the own tuple (assistants as agents), then what the search found |
| DecisionTrace.SearchAsks | services/orchestrator-api/src/application/authz/decision-trace-engine.ts:254-308 | What the search asks, check by check: each organization in turn for membership, behind a membership the access itself, up to the first grant, error or end; the step found names the last organization asked |
| DecisionTrace.OrgTuplesInOrder | services/orchestrator-api/src/application/authz/decision-trace-engine.ts:263-268 | The organizations asked are those of the tuples, in order and once for each tuple |
| DecisionTrace.DecisionForAnyAnswers | services/orchestrator-api/src/application/authz/decision-trace-engine.ts:34-125 | For arbitrary answers per check: the decision is deny if ABAC denies or no check of the request's own tuple said yes, else require_mfa if ABAC asks, else allow |
| DecisionTrace.DecisionForStableStore | services/orchestrator-api/src/application/authz/decision-trace-engine.ts:34-125 | With the store unchanged the decision is that of the single relationship check, and no inherited step appears |
| DecisionTrace.SearchFindsOnlyGranted | services/orchestrator-api/src/application/authz/decision-trace-engine.ts:254-308 | An inherited step is found exactly when a check of the request's own tuple said yes in the search |
| AccessGraph.BuildAccessGraph | services/orchestrator-api/src/application/authz/graph-builder.ts:41-122 | The loop with its seen set produces the first node of each id wanted, and the edges of the steps in order |
| AccessGraph.AddNode | services/orchestrator-api/src/application/authz/graph-builder.ts:233-237 | A node is added exactly when its id is new |
| AccessGraph.BuildPath | services/orchestrator-api/src/application/authz/graph-builder.ts:124-202 | The path tells the subject, the organization and level of the first inherited step or else the direct action, the first policy step that was not skipped, and the result |
| AccessGraph.GraphIsWellFormed | services/orchestrator-api/src/application/authz/graph-builder.ts:41-122 | For every trace node ids are distinct and every edge joins existing nodes |
| AccessGraph.EdgesExactly | services/orchestrator-api/src/application/authz/graph-builder.ts:64-121 | For every trace, which edges there are, with relation and primary flag |
| AccessGraph.NodesExactly | services/orchestrator-api/src/application/authz/graph-builder.ts:46-112 | For every trace, which nodes there are, with type and title, and who wins a shared id |
| AccessGraph.PathMatchesGraph | services/orchestrator-api/src/application/authz/graph-builder.ts:124-173 | For every trace a permission step is in the path exactly when a primary edge exists |
| AccessGraph.MembershipsAreDrawn | services/orchestrator-api/src/application/authz/graph-builder.ts:134-156 | A membership in the path is drawn as the two edges through that organization |
| AccessGraph.DecisionReachableExactlyWhenNotDenied | services/orchestrator-api/src/application/authz/graph-builder.ts:64-121 | For every evaluated trace, whatever the checks answered, the decision node is reachable from the subject exactly when the decision is not deny or the subject is the resource |
| AccessGraph.NotDeniedMeansPrimaryEdge | services/orchestrator-api/src/application/authz/decision-trace-engine.ts:100-125 | An evaluated trace has a step that draws a primary edge exactly when its decision is not deny |
| AccessGraph.PathShowsThePolicy | services/orchestrator-api/src/application/authz/graph-builder.ts:175-187 | The path of an evaluated trace shows a policy exactly when the policy engine had something to say |
| AccessGraph.TitlesAgreeExactlyWithoutMfa | services/orchestrator-api/src/application/authz/graph-builder.ts:105-199 | For every trace the decision node and the end of the path carry the same title exactly when MFA is not required |
| AccessGraph.TitlesDifferExactlyWhenMfaBlocks | services/orchestrator-api/src/application/authz/graph-builder.ts:105-199 | For evaluated traces the two titles differ exactly when the policy engine asks for MFA and a check of the request's own tuple granted it |
| AccessGraph.MfaIsDrawnAsDenied | services/orchestrator-api/src/application/authz/graph-builder.ts:105-199 | A concrete request: the node says "Access Denied" and the path "MFA Required" |
| AccessGraph.DeniedButConnected | services/orchestrator-api/src/application/authz/graph-builder.ts:114-119 | A concrete request about the subject itself: denied, and still connected to the decision |
| ResourceAccess.GetResourceAccess | services/orchestrator-api/src/application/resource-access/resource-access.service.ts:144-225 | Direct entries in tuple order, then each level a user inherits once, by the nested loops |
| ResourceAccess.ListDirect | services/orchestrator-api/src/application/resource-access/resource-access.service.ts:157-184 | The first loop, with the organization map in insertion order and the last relation of each |
| ResourceAccess.ListedExactly | services/orchestrator-api/src/application/resource-access/resource-access.service.ts:144-225 | A user is listed exactly when a user tuple for it exists on the resource or on an organization holding a tuple on the resource |
| ResourceAccess.InheritedEntriesAreSound | services/orchestrator-api/src/application/resource-access/resource-access.service.ts:186-222 | An inherited entry names an organization that holds that level, of which the user holds a tuple; users with a direct entry get none |
| ResourceAccess.InheritedEntriesAreDistinct | services/orchestrator-api/src/application/resource-access/resource-access.service.ts:202-209 | No two inherited entries share user and level |
| ResourceAccess.InheritedExactly | services/orchestrator-api/src/application/resource-access/resource-access.service.ts:186-222 | Which entries are inherited: the level of an organization that has a tuple of the user, through the first organization that gives this level, for users without a tuple on the resource |
| ResourceAccess.LastLevelIsTheLast | services/orchestrator-api/src/application/resource-access/resource-access.service.ts:184 | An organization has the level of its last tuple |
| ResourceAccess.EntriesFollowTuples | services/orchestrator-api/src/application/resource-access/resource-access.service.ts:157-184 | The direct entries of a type stand for its tuples one for one, in order |
| ResourceAccess.CandidatesInOrder | services/orchestrator-api/src/application/resource-access/resource-access.service.ts:187-222 | Inherited entries come organization by organization |
| ResourceAccess.EntriesMatchTuples | services/orchestrator-api/src/application/resource-access/resource-access.service.ts:157-184 | A direct entry is listed exactly when its tuple exists |
| ResourceAccess.ParseUndoesFormat | services/orchestrator-api/src/application/resource-access/resource-access.service.ts:336-340 | Parsing a formatted subject gives back type and id exactly when the type holds no colon |
| ResourceAccess.FormatUndoesParse | services/orchestrator-api/src/application/resource-access/resource-access.service.ts:336-340 | Formatting a parsed subject gives back the name exactly when it holds a colon; other names have the type "unknown" |
| ResourceAccess.ExplainAccess | services/orchestrator-api/src/application/resource-access/resource-access.service.ts:229-299 | Whatever the store does between the calls, an answer rests on a check that said yes and tuples read after it; with the store still it is the first level that a check and a tuple or membership explain, direct exactly if a tuple says so, and none exactly if no level is explained |
| ResourceAccess.FindInheritedPath | services/orchestrator-api/src/application/resource-access/resource-access.service.ts:303-334 | The path was seen tuple by tuple; with the store still it is through the first organization on the resource the user belongs to, and none exactly if there is no such organization |
| AccessViewMeaning.ViewListsExactlyTheViewers | services/orchestrator-api/src/application/resource-access/resource-access.service.ts:144-225 | On a store that keeps the model's type restrictions the listed users are exactly the effective viewers |
| AccessViewMeaning.OnlyOwnersGoUnexplained | services/orchestrator-api/src/application/resource-access/resource-access.service.ts:229-299 | On such a store a viewer is left without explanation exactly if the access comes from an owner tuple alone |
| AccessViewMeaning.InheritedEntryIsRealExactly | services/orchestrator-api/src/application/resource-access/resource-access.service.ts:186-222 | Without the restrictions an inherited entry is effective view access exactly when the user belongs to an organization with an `org` tuple |
| AccessViewMeaning.InheritedEntryIsRealWhenRestricted | services/orchestrator-api/src/application/resource-access/resource-access.service.ts:186-222 | On a store that keeps the type restrictions every inherited entry is effective view access |
| AccessViewMeaning.UnadmittedViewerMisleads | services/orchestrator-api/src/application/resource-access/resource-access.service.ts:186-222 | A concrete store off the restrictions: a member is listed and has no view access |
| AccessViewMeaning.OwnerIsToldNothing | services/orchestrator-api/src/application/resource-access/resource-access.service.ts:240-298 | A concrete restricted store: an owner has view access, and no level explains it |
| AccessViewMeaning.ViewDecisionUnderModel | services/orchestrator-api/src/application/authz/decision-trace-engine.ts:34-125 | Over the deployed model a view request is allowed exactly when policies let it through and the subject holds a tuple or belongs to an organization of the resource |
| ResourceGrants.RelationshipWriter.Write | packages/openfga/src/client/relationship-writer.ts:28-55 | The store after a write, and the class of its answer for an error with any text |
| ResourceGrants.RelationshipWriter.Delete | packages/openfga/src/client/relationship-writer.ts:57-84 | The store after a delete, and the class of its answer for an error with any text |
| ResourceGrants.RelationshipWriter.Grant | services/orchestrator-api/src/application/resource-access/resource-access.service.ts:51-91 | Exactly viewer and editor (for assistants viewer and operator) are accepted; the tuple, naming an assistant as agent, is written, and success is no error, or one that sounds like "already exists" |
| ResourceGrants.RelationshipWriter.Revoke | services/orchestrator-api/src/application/resource-access/resource-access.service.ts:95-140 | Both deletions, of the same two levels, are sent; success is reported exactly when at least one met no error, or one that sounds like "not found" |
| ResourceGrants.RefusalsAreClassed | packages/openfga/src/client/relationship-writer.ts:139-151 | The store's own refusals are classed as what they are |
| ResourceGrants.ClassedByText | packages/openfga/src/client/relationship-writer.ts:139-151 | Which texts are classed as "already there" and which as "nothing to delete" |
| ResourceGrants.GrantedExactly | packages/openfga/src/client/relationship-writer.ts:28-55 | A grant leaves its tuple exactly when the write reached the store or the tuple was there before |
| ResourceGrants.AdmittedExactly | packages/openfga/src/scripts/deploy-model.ts:150-173 | Of the levels the service accepts, the deployed model admits exactly those of users, and viewer for assistants |
| ResourceGrants.UnadmittedGrantsFail | services/orchestrator-api/src/application/resource-access/resource-access.service.ts:51-91 | On a store that keeps the type restrictions a grant of any other accepted level is never reported as done |
| ResourceGrants.RevokeUndoesGrants | services/orchestrator-api/src/application/resource-access/resource-access.service.ts:51-140 | One clean revocation takes away all that any sequence of valid grants added |
| ResourceGrants.RevokedExactly | services/orchestrator-api/src/application/resource-access/resource-access.service.ts:107-119 | Nothing is left exactly when each deletion reached the store or had nothing to delete |
| ResourceGrants.SuccessCanLeaveTheEditor | services/orchestrator-api/src/application/resource-access/resource-access.service.ts:117-119 | A concrete revocation that reports success and leaves the editor tuple |
| ResourceGrants.StoreNotFoundSoundsLikeSuccess | packages/openfga/src/client/relationship-writer.ts:146-151 | A concrete revocation that reports success although neither deletion reached the store |
| Observability.ObservabilityService.Increment | services/orchestrator-api/src/application/observability/observability.service.ts:60-70 | An increment counts in an open window or starts a new one; other keys are untouched |
| Observability.ObservabilityService.GetCount | services/orchestrator-api/src/application/observability/observability.service.ts:72-78 | The count of a window not older than 60 seconds, else 0 |
| Observability.ObservabilityService.EvaluateAlerts | services/orchestrator-api/src/application/observability/observability.service.ts:202-246 | The alerts logged are exactly those whose counter reaches its threshold |
| Observability.ObservabilityService.Emit | services/orchestrator-api/src/application/observability/observability.service.ts:123-198 | One increment of the signal's counter, then the alerts |
| Observability.ObservabilityService.RecordTiming | services/orchestrator-api/src/application/observability/observability.service.ts:82-119 | The latest 1000 timings are kept; a slow path evaluates the alerts |
| WindowCounters.CountIsBounded | services/orchestrator-api/src/application/observability/observability.service.ts:60-78 | With a non-decreasing clock a count never exceeds the true number of increments in the closed last 60 seconds |
| WindowCounters.AlertsAreJustified | services/orchestrator-api/src/application/observability/observability.service.ts:202-246 | An alert is raised only if at least its threshold of increments really happened in the last 60 seconds |
| WindowCounters.AlertsExactly | services/orchestrator-api/src/application/observability/observability.service.ts:202-246 | Which alerts an event raises, each with its count and threshold, and in which order |
| WindowCounters.NineInvocationsFire | services/orchestrator-api/src/application/observability/observability.service.ts:181-231 | Any nine invocations of one assistant, from first increment to last reading within less than 60 seconds, raise its repeated-invocation alert at least once, whatever is counted in between and whenever the other counters are read |
| WindowCounters.EightPromptInvocationsFire | services/orchestrator-api/src/application/observability/observability.service.ts:181-231 | Eight are enough if the fourth reads the clock at most a millisecond late |
| WindowCounters.EightCanStaySilent | services/orchestrator-api/src/application/observability/observability.service.ts:181-231 | A concrete run of eight invocations within nine milliseconds: no alert on repeated invocations is raised behind any of them |
| WindowCounters.FiveFailuresFire | services/orchestrator-api/src/application/observability/observability.service.ts:163-246 | Five OpenFGA failures within 60 seconds raise the degradation alert at least once |
| WindowCounters.ThreeFirstFailuresFire | services/orchestrator-api/src/application/observability/observability.service.ts:163-246 | Three are enough if none was counted before |
| WindowCounters.ThirtyNineDenialsFire | services/orchestrator-api/src/application/observability/observability.service.ts:202-214 | Thirty-nine increments of the unlabelled denied counter within 60 seconds raise the spike alert |
| WindowCounters.SignalsHaveOwnCounters | services/orchestrator-api/src/application/observability/observability.service.ts:123-198 | No two signals share a counter, and none has the unlabelled one of denials |
| WindowCounters.NoSignalRaisesDeniedSpike | services/orchestrator-api/src/application/observability/observability.service.ts:123-214 | No history of built-in signals ever raises the denied-spike alert |
| WindowCounters.TimingsAreTheLatest | services/orchestrator-api/src/application/observability/observability.service.ts:87-91 | Trimming after every entry keeps exactly the last 1000 of all entries |
| WindowCounters.SlowPathsAre | services/orchestrator-api/src/application/observability/observability.service.ts:93-119 | Which timings are slow: an evaluation above 500 ms, an execution above 2000 ms, and no other |
| Audit.AuditWriter.ExecuteAudited | packages/sdk/src/audit/audited-operation.ts:62-139 | The history, the attempts and the outcome of one call, for any pattern of writer failures |
| Audit.RunsOnceAfterRequested | packages/sdk/src/audit/audited-operation.ts:86-139 | The business function runs at most once, right after its requested event was recorded, and at most one terminal event follows; two attempts to record are made, one if the first fails, three if the completed event does; what the writer throws is let through exactly if the last attempt failed |
| Audit.ResultsAreRecorded | packages/sdk/src/audit/audited-operation.ts:92-139 | Completed is returned exactly when the business returned and both events were recorded; every returned result has its terminal event recorded |
| Audit.ReliableWriter | packages/sdk/src/audit/audited-operation.ts:86-139 | With a reliable writer a call appends exactly requested, the run and the terminal event of its outcome: completed, denied with the same message and codes, or failed with the same message |
| Audit.RefusedAlthoughDone | packages/sdk/src/audit/audited-operation.ts:103-138 | A refusal is reported for an action that ran to its end exactly when its completed event could not be recorded |
| Audit.FinishedButReportedAsFailed | packages/sdk/src/audit/audited-operation.ts:92-138 | A concrete call: the action ends, its completed event is not recorded, and it is reported as failed |
| Audit.RunsAreRequested | packages/sdk/src/audit/audited-operation.ts:86-139 | Over any run of calls every run of a business function stands behind its own requested event, and completed events never outnumber runs |
| AssistantRuntime.AssistantRuntimeService.Execute | services/orchestrator-api/src/application/assistant-runtime/assistant-runtime.service.ts:147-247 | The audited outcome of the checks, and the signals it emits |
| AssistantRuntime.AssistantRuntimeService.DisableAssistant | services/orchestrator-api/src/application/assistant-runtime/assistant-runtime.service.ts:251-280 | The status is disabled even if recording the kill fails; the kill is recorded otherwise; an unknown assistant is reported |
| AssistantRuntime.AssistantRuntimeService.Register | services/orchestrator-api/src/application/assistant-runtime/assistant-runtime.service.ts:288-292 | A tool is replaced in its place, or a new one appended; no other entry moves |
| AssistantRuntime.AssistantRuntimeService.SetAssistantToolAllowlist | services/orchestrator-api/src/application/assistant-runtime/assistant-runtime.service.ts:294-299 | The allowlists after a change |
| AssistantRuns.RegistryIsAMap | services/orchestrator-api/src/application/assistant-runtime/assistant-runtime.service.ts:288-292 | Registering keeps ids unique, makes lookup return the new entry for its id and changes no other lookup |
| AssistantRuns.RunIsLastWrites | services/orchestrator-api/src/application/assistant-runtime/assistant-runtime.service.ts:251-299 | After any run, lookup returns the last entry registered for an id or the default, allowlists are the last set, and an assistant is disabled once killed |
| AssistantRuns.NoObjectionExactly | services/orchestrator-api/src/application/assistant-runtime/assistant-runtime.service.ts:303-395 | The checks raise no objection exactly when active, tenant, delegation, tool and secret conditions hold, the registry possibly read later than the repository |
| AssistantRuns.RefusedForTheFirstLack | services/orchestrator-api/src/application/assistant-runtime/assistant-runtime.service.ts:303-395 | With a writer that records, an execute completes or is denied with the code of the first need, in the order of the checks, that it does not meet |
| AssistantRuns.DefaultToolsMayBeUsed | services/orchestrator-api/src/application/assistant-runtime/assistant-runtime.service.ts:61-98 | The tools nobody registered anew: which need delegation, which is disabled, and that all others are unknown |
| AssistantRuns.CompletesExactly | services/orchestrator-api/src/application/assistant-runtime/assistant-runtime.service.ts:147-187 | Over any reachable state an execute completes exactly when all checks hold and both its events are recorded |
| AssistantRuns.KillSwitchHolds | services/orchestrator-api/src/application/assistant-runtime/assistant-runtime.service.ts:251-316 | Once killed, an assistant's later executes never complete, and are denied as disabled by a writer that records |
| AssistantRuns.DisabledSignals | services/orchestrator-api/src/application/assistant-runtime/assistant-runtime.service.ts:195-226 | A denial as disabled is signalled as a denial and as a disabled invocation, and as nothing else |
| AssistantRuns.SignalsExactly | services/orchestrator-api/src/application/assistant-runtime/assistant-runtime.service.ts:195-240 | What any outcome signals, and in which order |
| AssistantRuns.KilledIsDenied | services/orchestrator-api/src/application/assistant-runtime/assistant-runtime.service.ts:303-316 | An execute begun after the kill and recorded comes out denied as disabled, whatever is done before it finishes |
| AssistantRuns.KilledIsCounted | services/orchestrator-api/src/application/assistant-runtime/assistant-runtime.service.ts:195-214 | Finishing such an execute adds exactly two signals to the run, the second being the disabled invocation |
| AssistantRuns.NineKilledExecutesRaiseTheAlert | services/orchestrator-api/src/application/assistant-runtime/assistant-runtime.service.ts:195-214 | In any run of the service, with executes overlapping operations, each other and other signals, nine executes for an assistant begun after its kill raise its repeated-invocation alert if the last alert is read within 60 seconds of the first count |

## Left out

Assumptions the proofs rest on:

- The hash behind cache keys is injective, and so is JSON text; keys are the canonical records themselves.
- The snapshot store and the relationship store are maps and sets; the cache may lose any entry at any time, expiry included.
- The ABAC policy engine is an arbitrary function of the request: none, allow, deny or require_mfa, with an optional policy name.
- The relationship store refuses only writes of tuples it holds and deletes of tuples it does not hold, with one text each;
  everything else that can go wrong, type restrictions included, is an error with an arbitrary text, raised before or after the
  store changed.
- Reason texts are templates told apart by code, topic, permission and missing scopes; the text itself is an arbitrary function
  of these, so equal texts stay possible.
- Clocks, failures and answers of remote calls are parameters. One synchronous stretch reads the clock once, except that a
  counter and the alert behind it read it separately.
- Names `type:id` are pairs of type and id; `ParseUndoesFormat` says when the text determines the pair.
- Scope strings sort by characters; the order by UTF-16 units differs from it only outside the basic plane, and any total order
  gives the same theorems.
- Table lookups find only own entries: names such as `constructor` that JavaScript objects inherit are not modelled.

Not modelled:

- The user interface, controllers, schemas, token verification, queues, and the clients of Auth0, Redis, Postgres and OpenFGA.
- Fields nothing here reads: resource type tags and the cache key echoed as resource id, display names, request and correlation
  ids, summaries, warnings, todos, purposes and durations.
- Read-only listings of the broker and of snapshots (status, cache summary, connections, sessions) and the consent preview.
- The assistant repository and the policy engine do not throw in the model; a check or a tuple read of the trace engine may.
- `buildSummary` and `buildExplainResult`, which only pick texts from a trace.

Members stated more narrowly than the code they cite:

- TokenBroker.TokenBrokerService.RetrieveTokenRequest: does not model interleaving inside one call, nor the cache status and warnings that go with the answer; `BrokerRuns` models it on values, and `RetrievalIsThreeSteps` connects the two.
- TokenBroker.TokenBrokerService.PreviewTokenRequest: does not model the summary text and cache status that go with the answer.
- AssistantRuntime.AssistantRuntimeService.Execute: does not model state changes while one call waits; `NoObjectionExactly`, `CompletesExactly` and `KillSwitchHolds` allow any operations in between.
- ResourceGrants.RelationshipWriter.Revoke: does not model the two deletions overlapping in time; they are on different tuples, so their order does not show in the result.
- Audit.AuditWriter.ExecuteAudited: does not model what the business function does inside, only that it is called and how it ends; `AssistantRuntime` supplies one.
