# Verified model of the support platform's stateful cores

This project models the parts of the platform whose behaviour depends on state,
concurrency or time, and proves what they promise. Each component has a
specification on values (functions, runs, invariants), theorems about every run of
it, and, where the code works on objects step by step, classes whose methods are
proved to refine that specification.

`dafny verify dfyconfig.toml` checks everything.

| files | component |
|---|---|
| `AuditLog`, `AuditReplay`, `AdminRepository` | The tenant LLM configuration table with its field-level audit log. The log determines the table; row objects are aliased and mutated in place inside a transaction. |
| `Conversations`, `ConversationService` | The conversation state machine with claims, stale two-step transitions and concurrent find-or-create under a partial unique index. |
| `Assignment` | Least-busy routing of escalations and its fairness. |
| `SnapshotCache` | The LRU and TTL cache of budget snapshots. |
| `Budget`, `BudgetAccounting`, `BudgetResolver` | Monthly token budgets, one call after the other: two cache layers, credits, the 429 gate, soft warnings, exact accounting. |
| `BudgetRace`, `BudgetWarning`, `BudgetStaleness` | The same for one tenant and period under concurrency, interleaved wherever the code waits for the database: counts, the soft warning, how current decisions are. |
| `WsClient` | The reconnecting WebSocket client. |
| `RateLimit` | The fixed-window rate limiter. |
| `Words`, `Chunker`, `Documents`, `DocumentChunker` | Splitting documents into overlapping chunks. |
| `Cleanup`, `StringOrder` | Retention of budget snapshots. |
| `Common` | Optional values, minimum, maximum. |

How concurrency is modelled: a repository method is one atomic transaction; a
service call is a sequence of such steps, and a run is any sequence of steps of any
number of calls. A step whose call is not in the phase it needs changes nothing, so
every sequence of labels is a run and theorems quantify over all of them. Failures
are inputs: the step of an admin transaction that fails, whether a post-record's
write succeeds, the batch of a cleanup that fails.

## Where the code and its documentation differ

The model follows the code. Each entry names the theorems that show the difference or
its effect.

- A pre-check can be admitted on a stale decision after a real write, because a load
  in flight puts its older value back after the invalidation
  (`BudgetStaleness.StaleAdmissionAfterWrite`; `budget/precheck_cache.py:1-14` says it
  never is). It cannot exactly when no such load is in flight
  (`BudgetStaleness.InvalidationSufficesIff`), and staleness is bounded by the TTL
  (`BudgetStaleness.BoundedStaleness`).
- The soft warning can fire more than once in a period without any overlap: it is
  counted and logged before it is saved, so one whose write fails leaves no trace
  (`BudgetWarning.WarnsTwice`, `BudgetWarning.FiresIff`; `budget/resolver.py:528-532`).
- The usage endpoint refreshes the snapshot on every read (`admin/api.py:1445`), not only
  on a cache miss as it says (`admin/api.py:1412`), and invalidates neither cache. What
  that does to them is `Budget.RefreshIsCoherentIff` and `Budget.RefreshBreaksCoherence`.
- The rate limiter's window is fixed, not sliding: 59 requests can be admitted within
  two milliseconds (`RateLimit.FiftyNineAtOnce`). A sliding window's 30 are kept exactly
  while the client's key is not about to expire with requests left
  (`RateLimit.SlidingIff`), and at most 59 are ever admitted in 60 seconds
  (`RateLimit.HalfOpenBound`).
- Find-or-create can raise the index conflict without another tenant being involved
  (`Conversations.RefindRaisesIff`, `Conversations.RaisedWithoutCrossTenant`).
- The 429 gate counts a tenant without a hard cap as having none left
  (`BudgetAccounting.UnlimitedTenantIsGated`). A streamed call of such a tenant is not
  recorded and, refreshes of an existing row aside, only enters the count if its usage
  is logged before the key has a row
  (`BudgetAccounting.ExactAccounting`, `BudgetAccounting.UncappedStreamIsCountedLate`).
- A POST that leaves out its fingerprint, which the signature allows, can make the log
  wrong about the key (`AuditReplay.PostKeepsReplayIff`).
- The chunker can emit a last chunk that only repeats words
  (`Chunker.LastWindowIsOverlapIff`). It emits empty chunks for empty blocks, as
  `_chunk_block` says and `ChunkCandidate` denies (`Documents.EmptyChunkIff`,
  `Documents.CodeWithoutText`). Its size guard compares a number of characters with a
  limit documented in bytes, and enforces that limit exactly for lengths over it or at
  most a quarter of it (`Documents.GuardIsRightIff`,
  `Documents.GuardAcceptsFourTimesTheLimit`).
- A retention below `month - 13`, which the setting accepts, selects the wrong months
  (`Cleanup.RetentionIsExactIff`).

## Model

| member | source | states |
|---|---|---|
| AuditReplay.ReplayDeterminesTable | apps/api/src/admin/repository.py:284-357 | Event sourcing: for every run of posts, patches and deletes over all tenants and providers, each of which may fail at any step, folding the log from nothing gives exactly the table: presence, base_url, model, enabled and the key fingerprint. Assumes of each POST only that its caller passed the fingerprint of the key it submits, as the docstring demands. |
| AuditReplay.SidecarReplay | apps/api/src/admin/repository.py:417-478 | The same for presence, base_url, model and enabled with no assumption on the fingerprints the callers passed. |
| AuditReplay.LogIsSufficient | apps/api/src/admin/repository.py:69-175 | Two runs that leave the same log leave the same rows with the same base_url, model and enabled, and keys of the same fingerprint. |
| AuditReplay.PostKeepsReplayIff | apps/api/src/admin/repository.py:125-146 | Exactly when one POST keeps replay right: it passes its own key's fingerprint, or none at all while the stored key already has that fingerprint. A POST without one on a new row or with a new key breaks the fold. |
| AuditReplay.AuditChain | apps/api/src/admin/repository.py:303-337 | Audit chain: on every reachable store, every entry the next transaction appends has the old value that replay shows just before it and a different new value; an entry of a new row starts from nothing (the sentinel for the key), a deletion names the provider of a present row. This although the inner call mutates the fetched row object in place. |
| AuditReplay.LogIsChain | apps/api/src/admin/repository.py:303-337 | Hence every entry of the whole log of every run is such a link, of the transaction that appended it. |
| AuditReplay.OpChain | apps/api/src/admin/repository.py:480-532 | The same for one transaction, from any store its log describes. |
| AuditReplay.LogGrowsIffTableChanges | apps/api/src/admin/repository.py:326-354 | A transaction writes audit rows if and only if it changes what the table shows: re-posting or patching the same values writes none, and so does a failed transaction. |
| AuditReplay.TableEffect | apps/api/src/admin/repository.py:389-443 | What each outcome leaves in the table: a patch keeps the key and every omitted column, null or an empty string clears base_url or model, any other value sent is what the column becomes, and a null enabled changes nothing; a delete removes just its row; any other outcome changes nothing. |
| AuditReplay.Answers | apps/api/src/admin/repository.py:284-357 | What a transaction answers: without a failure, exactly by whether tenant and row are there; it fails exactly when a step it takes fails, writing audit rows being one only if there are any. |
| AuditReplay.EntriesAreSigned | apps/api/src/admin/repository.py:338-353 | The log only grows, and each entry appended is about the row changed and names who changed it. |
| AuditReplay.CreationRecordsAll | apps/api/src/admin/repository.py:151-165 | Creating a row records every column, empty ones too, and the key if its fingerprint was passed. |
| AuditReplay.DiffsShape | apps/api/src/admin/repository.py:115-175 | The audit tuples name each column at most once and in order, never __deleted__, and on an update record the value the snapshot held and a different one. |
| AuditReplay.OpDiffsAreGood | apps/api/src/admin/repository.py:298-316 | On a store its log describes, the old values that a transaction records, the key fingerprint fetched back from the log included, are the ones replay shows. |
| AuditLog.ReplayPost | apps/api/src/admin/repository.py:317-353 | What replay shows after a committed POST, whatever fingerprint it passed: all sidecar columns as posted, and the old fingerprint where the key diff was suppressed. |
| AuditLog.ReplayPatch | apps/api/src/admin/repository.py:399-474 | What replay shows after a committed PATCH: the patched columns, the rest and the fingerprint as they were. |
| AuditLog.LatestIsReplayed | apps/api/src/llm_client/tenant_config_audit_models.py:170-199 | While replay shows a fingerprint for a row, the newest api_key entry is the one that set it, so reading it back is sound although deletions leave older entries behind. |
| AuditLog.TagInjective | apps/api/src/admin/repository.py:125-146 | Tagged fingerprints are equal exactly when the raw ones are, so comparing raw values suppresses the right rows. |
| AdminRepository.DiffUpsert | apps/api/src/admin/repository.py:69-175 | The list built by appending is the specified list of diffs. |
| AdminRepository.Session.Fetch | apps/api/src/llm_client/tenant_config_models.py:88-106 | A fetch loads one object per row and returns that same object ever after. |
| AdminRepository.Session.Upsert | apps/api/src/llm_client/tenant_config_models.py:108-174 | Insert or overwrite: the table row is replaced, and a row already loaded in the session comes back as the same object, overwritten. |
| AdminRepository.Session.Update | apps/api/src/llm_client/tenant_config_models.py:176-232 | Only the columns that are set change, in the table and in the loaded object. |
| AdminRepository.Session.Remove | apps/api/src/llm_client/tenant_config_models.py:234-265 | Removes just that row and says whether there was one. |
| AdminRepository.Session.LatestValue | apps/api/src/llm_client/tenant_config_audit_models.py:170-199 | The new_value of the newest entry for a column of a row. |
| AdminRepository.Session.Commit | apps/api/src/admin/repository.py:354-355 | The session's table and log become the database's. |
| AdminRepository.AdminTenantLLMConfigRepository.UpsertAndDiff | apps/api/src/admin/repository.py:290-337 | Aliasing: although the row that comes back is the object the old row was fetched as, the diffs compare the attributes from before the mutation with those after it. |
| AdminRepository.AdminTenantLLMConfigRepository.UpdateAndDiff | apps/api/src/admin/repository.py:428-458 | The same for a patch; the returned row is the fetched object. |
| AdminRepository.AdminTenantLLMConfigRepository.ReadPatch | apps/api/src/admin/repository.py:389-415 | Tells an omitted column from one sent as null or empty, and turns empty into null. |
| AdminRepository.AdminTenantLLMConfigRepository.Finish | apps/api/src/admin/repository.py:459-478 | Audit rows only if there are diffs, then commit, then refresh: only a failure after the commit leaves an effect. |
| AdminRepository.AdminTenantLLMConfigRepository.Upsert | apps/api/src/admin/repository.py:258-357 | The whole transaction on row objects refines the POST step of the model the theorems are about, for every fault. |
| AdminRepository.AdminTenantLLMConfigRepository.Update | apps/api/src/admin/repository.py:370-478 | The same for PATCH, its 404 included. |
| AdminRepository.AdminTenantLLMConfigRepository.Delete | apps/api/src/admin/repository.py:480-532 | The same for DELETE: idempotent, and one __deleted__ entry exactly when a row went. |
| Conversations.Reachable | apps/api/src/conversation/service.py:243-253 | In every reachable state of every interleaving of stale transitions, claims and inbound calls: ai_handling holds exactly when the status is OPEN, an OPEN conversation has no agent, and no (channel, customer) pair has two conversations that are not closed. |
| Conversations.StepKeepsInv | apps/api/src/conversation/service.py:526-535 | Every atomic step keeps that, a write that the unique index rejects included. |
| Conversations.UpdateKeepsIndex | apps/api/src/conversation/repository.py:131-149 | A full four-column write that the partial unique index accepts leaves at most one conversation that is not closed per pair. |
| Conversations.InsertKeepsIndex | apps/api/src/conversation/models.py:70-77 | So does an insert the index accepts. |
| Conversations.StepChanges | apps/api/src/conversation/service.py:381-400 | By what a step reports, exactly which row it changes and in which columns: a touch only the activity, a claim only agent, flag and activity, a transition its own columns; and no other row. |
| Conversations.BeginAnswers | apps/api/src/conversation/service.py:381-390 | A transition begins if and only if its tenant has the row, and is then about to write what it leaves; a close keeps the agent it read. |
| Conversations.WriteAnswers | apps/api/src/conversation/repository.py:138-149 | The later write is lost if and only if the row is gone, and rejected if and only if another conversation of the pair is not closed and this one would not be. |
| Conversations.InsertAnswers | apps/api/src/conversation/service.py:254-264 | An inbound call that found nothing creates if and only if there still is nothing, and otherwise looks again. |
| Conversations.ForeignIff | apps/api/src/conversation/service.py:227-236 | An inbound call is turned away if and only if the pair has a conversation of another tenant that is not closed. |
| Conversations.OtherCallsStay | apps/api/src/conversation/service.py:402-425 | No step touches a call other than its own. |
| Conversations.ClaimTakesFromQueue | apps/api/src/conversation/service.py:452-490 | A claim succeeds if and only if the conversation is in the tenant's pending-and-unassigned queue at that step, and takes it out of every queue; it is not found if and only if the tenant has no such row. |
| Conversations.ClaimExclusivity | apps/api/src/conversation/service.py:402-500 | Between any two successful claims of one conversation, in any interleaving, lies an escalation write, with no claim and no other transition of it between that and the second claim. |
| Conversations.QueuedByEscalation | apps/api/src/conversation/service.py:502-552 | A conversation that enters the queue during a run was put there by an escalation, which is found. |
| Conversations.OneConversation | apps/api/src/conversation/service.py:223-279 | However many inbound calls of one tenant for one pair interleave, with each other and with anything but a close of the pair, any two answers give the same conversation and only the first can be a creation. |
| Conversations.InboundNeverRaises | apps/api/src/conversation/service.py:254-279 | In those runs the conflict is never re-raised to a caller. |
| Conversations.InboundNeverForeign | apps/api/src/conversation/service.py:227-236 | Nor is any of these calls turned away as probing another tenant; so each that finishes gets the conversation. |
| Conversations.RefindRaisesIff | apps/api/src/conversation/service.py:261-279 | With everything allowed, the re-read after a conflict raises if and only if the pair then has no open conversation of the caller's tenant. |
| Conversations.RaisedWithoutCrossTenant | apps/api/src/conversation/service.py:277-279 | A concrete run of one tenant in which the conflict is raised: a close falls between the insert and the re-read. The comment there, that only another tenant's row leads to it, is not what the code does. |
| ConversationService.ConversationRepository.Create | apps/api/src/conversation/repository.py:45-56 | Inserts unless the index rejects the row. |
| ConversationService.ConversationRepository.FindOpenByChannelCustomer | apps/api/src/conversation/repository.py:63-79 | Finds a conversation of the pair that is not closed, or says truly that there is none. |
| ConversationService.ConversationRepository.Persist | apps/api/src/conversation/repository.py:131-149 | Writes all four columns of a possibly stale object, or nothing when the row is gone or the index rejects it. |
| ConversationService.ConversationRepository.CountOpenPendingPerAgent | apps/api/src/conversation/repository.py:248-288 | Every candidate appears, each with its number of open and pending conversations. |
| ConversationService.Service.Get | apps/api/src/conversation/service.py:321-368 | Found if and only if the row exists, is the tenant's and, for a viewer who is neither admin nor owner, has no agent or that viewer; as an independent copy. |
| ConversationService.Service.AssignToAgent | apps/api/src/conversation/service.py:372-400 | Leaves the conversation PENDING with that agent and nothing else changed, or changes nothing. |
| ConversationService.Service.Claim | apps/api/src/conversation/service.py:402-500 | Taken if and only if in the tenant's queue; not found and not claimable told apart; only agent, flag and activity change. |
| ConversationService.Service.EscalateToHumanQueue | apps/api/src/conversation/service.py:502-612 | Queue first, then route: returns the queueing, leaves the row PENDING with the agent the policy selects or none, nothing else changed, and a failed routing never undoes the escalation. |
| ConversationService.Service.PickAgent | apps/api/src/assignment/service.py:136-163 | The loop over the loads picks the minimum of (load, id) among eligible users, and none unless the policy is on and least_busy. |
| ConversationService.Service.ReturnToAi | apps/api/src/conversation/service.py:614-636 | OPEN, no agent, AI handling, or the index conflict with nothing changed. |
| ConversationService.Service.Close | apps/api/src/conversation/service.py:638-659 | CLOSED with the agent kept. |
| ConversationService.Service.FindOrCreateForInbound | apps/api/src/conversation/service.py:203-279 | For any rows other calls leave between its steps: a hit or a lost race gives an open conversation of the caller's tenant and changes nothing but its activity, a creation happens if and only if nothing was open at the lookup and the insert, another tenant's row is never touched, and it raises only when the re-read finds nothing of its own. |
| Assignment.LeastBusyIsTheMinimum | apps/api/src/assignment/service.py:150-163 | An agent is chosen if and only if it is eligible and has minimum load, with the smallest id among equals; so the order users are listed in does not matter. |
| Assignment.SelectedIff | apps/api/src/assignment/service.py:114-163 | An agent is selected if and only if an enabled least-busy policy has an active agent or supervisor to select, and it is one with the fewest conversations that are not closed. |
| Assignment.TransitionAnswers | apps/api/src/conversation/service.py:381-391 | A transition is not found if and only if the tenant has no such row, and in conflict if and only if it would be open beside another one of its pair. |
| Assignment.LoadAfterWrite | apps/api/src/conversation/repository.py:267-288 | How one row write changes each agent's load. |
| Assignment.EscalationKeepsBalance | apps/api/src/conversation/service.py:526-551 | One escalation, of an already assigned conversation too, keeps loads that differ by at most one that way. |
| Assignment.FairRouting | apps/api/src/conversation/service.py:574-593 | Fairness: so does any run of escalations, failed ones included, with a fixed set of users. |
| Assignment.EscalatedToTheLightest | apps/api/src/assignment/service.py:136-163 | Whoever holds the conversation after an escalation has the least load among eligible agents when that conversation is not counted, with the smallest id on ties. |
| SnapshotCache.EntriesAreLastPuts | apps/api/src/budget/cache.py:42-78 | After any sequence of timed operations the cache has at most maxsize entries with distinct keys, each the last value put since the last invalidate or clear, with its own expiry. |
| SnapshotCache.HitIsFresh | apps/api/src/budget/cache.py:42-58 | A hit returns the last value put since the last invalidate or clear, and it is younger than the TTL. |
| SnapshotCache.LruGuarantee | apps/api/src/budget/cache.py:60-78 | LRU: a key that is unexpired and not invalidated is still served whenever fewer than maxsize distinct other keys were touched since its own last touch. |
| SnapshotCache.RunKeeps | apps/api/src/budget/cache.py:56-70 | The invariant behind it: every entry behind a key in the order was touched since. |
| SnapshotCache.LookupKeeps | apps/api/src/budget/cache.py:49-58 | A lookup hits if and only if the key has an entry that has not expired; a hit becomes the newest entry, an expired one goes, and the others keep their order. |
| SnapshotCache.TenantBudgetSnapshotCache.Get | apps/api/src/budget/cache.py:42-58 | Expired entries go, hits move to the end; the new order and the result are the specified ones. |
| SnapshotCache.TenantBudgetSnapshotCache.Put | apps/api/src/budget/cache.py:60-70 | The eviction loop drops just the oldest entries past maxsize. |
| SnapshotCache.TenantBudgetSnapshotCache.Invalidate | apps/api/src/budget/cache.py:72-74 | Drops just that key. |
| Budget.CachesStayCoherent | apps/api/src/budget/resolver.py:393-439 | Two-layer coherence, over every run of whole calls, grants, clock ticks and usage records: every entry of either cache holds the stored row, and a held cap is at most the effective cap, below it only if a credit was granted since its load began. |
| Budget.CachedDecisionIsSound | apps/api/src/budget/precheck_cache.py:26-46 | After any such run a cached admission is one the uncached check would make, a rejection reports the stored count, and with no grant within the TTL the two decisions coincide. |
| Budget.DecideKeepsCoherence | apps/api/src/budget/resolver.py:424-438 | One decision keeps coherence and reads the stored row. |
| Budget.PostAllKeepsCoherence | apps/api/src/budget/resolver.py:574-592 | Post-records keep it, failed ones too. |
| Budget.PostRecordCaches | apps/api/src/budget/resolver.py:574-592 | A post-record that is written drops its key from both caches and no other; one that fails leaves both as they were. |
| Budget.RefreshIsCoherentIff | apps/api/src/admin/api.py:1441-1447 | The usage endpoint refreshes the row on every read and invalidates neither cache: they stay right if and only if neither holds the key or the total is what the row already had. |
| Budget.RefreshBreaksCoherence | apps/api/src/admin/api.py:1441-1447 | A concrete run of two calls after which its refresh makes the pre-check cache wrong. |
| BudgetAccounting.ExactAccounting | apps/api/src/budget/resolver.py:143-170 | Over every run of calls, grants, ticks and usage records, the count is where it started plus the tokens of all answered calls that a budget covers and whose post-record was written, plus usage logged before the key had a row. |
| BudgetAccounting.CappedAccounting | apps/api/src/budget/resolver.py:388-439 | For a tenant with a hard cap, if usage is logged after the call that incurred it returned, none is logged before there is a row, and the count is exactly the start and the recorded tokens. |
| BudgetAccounting.AdmittedLeavesRow | apps/api/src/budget/resolver.py:399-423 | The reason: an admitted call of such a tenant leaves a row, whatever becomes of it. |
| BudgetAccounting.UncappedStreamIsCountedLate | apps/api/src/budget/resolver.py:210-217 | Without a hard cap: a streamed call leaves no row and is not recorded, its usage is logged, and the next plain call brings it into the count through the refresh. |
| BudgetAccounting.StepTokens | apps/api/src/budget/resolver.py:548-579 | One event adds exactly its own tokens to its own key: those of a written post-record, or of usage logged before there is a row. |
| BudgetAccounting.RefusedCallsCostNothing | apps/api/src/budget/resolver.py:156-164 | A call that is over budget, rate-limited, gated or fails at the provider adds nothing. |
| BudgetAccounting.CapNeverFalls | apps/api/src/budget/credits.py:50-102 | The effective cap never falls. |
| BudgetAccounting.CapWithoutCredits | apps/api/src/budget/resolver.py:459-467 | Without credits for a key its effective cap is the hard cap, none counting as 0. |
| BudgetAccounting.GrantRaisesCap | apps/api/src/budget/credits.py:68-102 | A grant is refused if and only if it is not positive or has no note, and otherwise raises the effective cap of its key by just that, where credits are wired in, and of no other. |
| BudgetAccounting.OverBudgetIff | apps/api/src/budget/resolver.py:430-439 | A call of a tenant with a hard cap answers over-budget if its count has reached the effective cap, and only then unless a credit was granted within the TTL; it is told the count, and a cap the count has reached. |
| BudgetAccounting.CallReports | apps/api/src/budget/resolver.py:140-170 | Any other call reports what became of it: done, a failed post-record, a 429 or the gate, a provider error, a stream broken off; a tenant without a hard cap is never over budget. |
| BudgetAccounting.NoBudgetNothingKept | apps/api/src/budget/resolver.py:140-142 | Nothing is read or written for a tenant without a budget. |
| BudgetAccounting.NothingToRecord | apps/api/src/budget/resolver.py:165-170 | An answer without tokens records nothing. |
| BudgetAccounting.HotCheckIsFree | apps/api/src/budget/precheck_cache.py:32-43 | Until its entry expires a checked key is decided from the cache again, with the same verdict and nothing read; other keys keep their entries. |
| BudgetAccounting.ReadPath | apps/api/src/budget/resolver.py:399-419 | Reading from the database leaves the snapshot cache alone; reading through it leaves the row there. |
| BudgetAccounting.UsageIsRecorded | apps/api/src/budget/repository.py:175-184 | The usage total a refresh sums is what was recorded; no call changes it. |
| BudgetAccounting.Overshoot | apps/api/src/budget/resolver.py:430-439 | Over every run usage never exceeds the larger of where it started, usage logged before there was a row included, and the effective cap, less one, plus the largest single call. |
| BudgetAccounting.UnlimitedTenantIsGated | apps/api/src/budget/resolver.py:459-467 | A consequence of counting an absent hard cap as 0: an unlimited tenant with no credits in the period has every 429 turned into a budget error. |
| BudgetAccounting.WarnsAtThreshold | apps/api/src/budget/resolver.py:550-579 | Over every run, failed writes included, the soft warning is on record if and only if usage has reached its threshold from below it: usage that was there when the row was made never warns. |
| BudgetAccounting.WarningIsDated | apps/api/src/budget/resolver.py:560-579 | A warning put on record is of the key called and carries the time of the call. |
| BudgetRace.NeverOverCounts | apps/api/src/budget/resolver.py:539-579 | In every interleaving of last-writer-wins post-records, refreshes, pre-checks and usage records, the stored count is at most the initial usage plus the tokens of all responses received. |
| BudgetRace.RejectionIsEarned | apps/api/src/budget/resolver.py:424-438 | So whenever a call is rejected, by a cached decision or not, that much had really been consumed as the cap it read. |
| BudgetRace.PostKeepsBound | apps/api/src/budget/resolver.py:520-592 | The invariant: each step of a post-record raises counts by no more than the tokens that step makes counted. |
| BudgetRace.UsageIsExact | apps/api/src/budget/repository.py:175-184 | The usage total is exactly the initial one and the tokens of the responses logged, in every interleaving. |
| BudgetRace.CapIsExact | apps/api/src/budget/resolver.py:443-467 | The effective cap is exactly the hard cap, the initial credits and those granted. |
| BudgetWarning.SerialAccounting | apps/api/src/budget/resolver.py:539-579 | With post-records that do not overlap and no refresh of the row, the count is exactly the initial one and the tokens of the responses saved, whatever comes in between. |
| BudgetWarning.WarningIsSticky | apps/api/src/budget/repository.py:110-128 | In every interleaving a recorded soft warning is never cleared, by a stale write or a refresh. |
| BudgetWarning.FiresIff | apps/api/src/budget/resolver.py:550-573 | In every interleaving the warning fires if and only if the threshold is crossed and no warning has been saved before; so once one is saved none fires again, even if refreshes lower the count and it crosses anew. |
| BudgetWarning.SecondWarningNeedsLoss | apps/api/src/budget/resolver.py:554-579 | With post-records that do not overlap, a warning fires again only if the write of every response it fired for before has failed. |
| BudgetWarning.WarnsOnce | apps/api/src/budget/resolver.py:528-532 | So with post-records that do not overlap at most one fires for a tenant and period, as long as no post-record write fails. |
| BudgetWarning.LostWarningFiresAgain | apps/api/src/budget/resolver.py:562-579 | The converse: after a firing post-record whose write failed, and until a warning is saved, a response fires it again if and only if it crosses the threshold. |
| BudgetWarning.WarnsTwice | apps/api/src/budget/resolver.py:528-532 | A concrete run of two responses, one wholly after the other, in which it fires twice because the first write fails. The docstring says it fires at most once. |
| BudgetStaleness.BoundedStaleness | apps/api/src/budget/precheck_cache.py:32-46 | Reading from the database, every pre-check decides, by comparing them, on a row and a cap that were current less than one TTL before it began, in every interleaving. |
| BudgetStaleness.RunIsDated | apps/api/src/budget/resolver.py:399-412 | The invariant: everything in flight or held was read no earlier than its load began. |
| BudgetStaleness.SnapshotHitIsYoung | apps/api/src/budget/cache.py:111-134 | Reading through the snapshot cache, a check takes its row from there if and only if it has an entry that has not expired, and that was stored less than its TTL ago by a check that had read it. |
| BudgetStaleness.MissFills | apps/api/src/budget/cache.py:126-134 | A check that misses there and reads the row leaves it there. |
| BudgetStaleness.InvalidationSufficesIff | apps/api/src/budget/precheck_cache.py:1-14 | When the docstring is right: after a post-record has invalidated, in any reachable state and for all runs from there, every decision is about a row stored then or later if and only if no check in flight had read an older row; and what the pre-check cache serves is, if and only if no such check is younger than its TTL. |
| BudgetStaleness.DecisionsCurrentIff | apps/api/src/budget/resolver.py:588-592 | The first half from any state whose caches hold nothing for the key, whichever path reads the row. |
| BudgetStaleness.ServedCurrentIff | apps/api/src/budget/precheck_cache.py:32-46 | The second half, reading from the database. |
| BudgetStaleness.RunIsSourced | apps/api/src/budget/precheck_cache.py:32-46 | The invariant: every value held or in flight was the row at some moment of the run, or is too old to be served. |
| BudgetStaleness.StaleAdmissionAfterWrite | apps/api/src/budget/precheck_cache.py:1-14 | A concrete run in which a call is admitted at the cap after the write that reached it was recorded and invalidated: an in-flight load puts its older value back. The docstring says this never happens. |
| BudgetResolver.TenantBudgetSnapshotRepository.SetTokensUsed | apps/api/src/budget/repository.py:90-135 | Writes the count; an absent warning time leaves the stored one alone. |
| BudgetResolver.TenantBudgetSnapshotRepository.Refresh | apps/api/src/budget/repository.py:137-205 | The usage total becomes the count; the warning time stays. |
| BudgetResolver.CreditService.Grant | apps/api/src/budget/credits.py:50-89 | Appends one credit, or refuses a non-positive amount or an empty note. |
| BudgetResolver.CreditService.SumForPeriod | apps/api/src/budget/credits.py:91-102 | The sum of that key's credits, 0 if none. |
| BudgetResolver.PrecheckCache.Fetch | apps/api/src/budget/precheck_cache.py:32-40 | Serves an entry younger than the TTL and drops an older one. |
| BudgetResolver.PrecheckCache.Keep | apps/api/src/budget/precheck_cache.py:41-43 | The entry is dated with the start of its load. |
| BudgetResolver.BudgetResolver.CapDecision | apps/api/src/budget/resolver.py:393-429 | Both cache layers and the stored row, step by step, refine the decision the theorems are about. |
| BudgetResolver.BudgetResolver.Check | apps/api/src/budget/resolver.py:366-439 | Refines the pre-check. |
| BudgetResolver.BudgetResolver.Record | apps/api/src/budget/resolver.py:520-592 | Refines the post-record, whose failure is rolled back before any cache is invalidated. |
| BudgetResolver.BudgetResolver.BudgetGate | apps/api/src/budget/resolver.py:471-516 | Refines the gate. |
| BudgetResolver.BudgetResolver.Ainvoke | apps/api/src/budget/resolver.py:125-170 | The whole call on objects refines the plain-call event. |
| BudgetResolver.BudgetResolver.RecordAll | apps/api/src/budget/resolver.py:221-243 | Each final response of a stream is recorded in turn; a failed one does not stop the rest. |
| BudgetResolver.BudgetResolver.AinvokeStream | apps/api/src/budget/resolver.py:172-274 | The whole stream refines the stream event, one that breaks off with a provider error included. |
| WsClient.RunKeepsInv | apps/web-sdk/src/ws-client.ts:143-241 | In every event sequence whose reconnect() calls happen only while no socket is connecting or open, the client is always in exactly one situation: one socket and no timer; one timer, for the backoff of this attempt, and no socket; given up with its attempts used; or closed with neither. |
| WsClient.StepKeepsInv | apps/web-sdk/src/ws-client.ts:161-213 | Every event keeps that. |
| WsClient.ReconnectMachine | apps/web-sdk/src/ws-client.ts:143-213 | Hence never an open socket beside a pending timer, a heartbeat only while open, at most maxReconnects + 1 connections since the start or the last open, and giving up only after all backoffs. |
| WsClient.ClosedIsAbsorbing | apps/web-sdk/src/ws-client.ts:225-241 | After close() and until reconnect() the status stays closed and no connection starts, whatever events the old socket still delivers. |
| WsClient.CountsFollowEvents | apps/web-sdk/src/ws-client.ts:143-187 | Read off the events: with n connections failed or lost since the start, the last open or reconnect(), the client has made min(n, maxReconnects) attempts, waits the n-th backoff if it waits, and has given up if and only if n exceeds maxReconnects. |
| WsClient.DropAfterOpen | apps/web-sdk/src/ws-client.ts:171-174 | In particular the first drop after an open retries after one second. |
| WsClient.ClosedIff | apps/web-sdk/src/ws-client.ts:203-241 | The client is closed exactly by close() or a listener that closes it, until reconnect(). |
| WsClient.ReconnectSafeIff | apps/web-sdk/src/ws-client.ts:243-259 | reconnect() keeps the invariant if and only if no socket is connecting or open, or its own failure closes the client. |
| WsClient.ReconnectLeaksSocket | apps/web-sdk/src/ws-client.ts:203-212 | A concrete run: reconnect() while open, then the old socket's late close event, leaves two open connections where the client knows one. |
| WsClient.BackoffTotal | apps/web-sdk/src/ws-client.ts:149-153 | n consecutive backoffs sum to 1000 (2^min(n,5) - 1) + 30000 max(0, n - 5) ms. |
| WsClient.GivesUpAfter | apps/web-sdk/src/ws-client.ts:145-148 | With the default limit of 8 a client that has failed has waited 121 seconds since it was last open. |
| WsClient.WsClientObject.DoSchedule | apps/web-sdk/src/ws-client.ts:143-159 | The handler on the closure variables refines the machine. |
| WsClient.WsClientObject.BackoffMs | apps/web-sdk/src/ws-client.ts:149-153 | The doubling capped at 30 seconds. |
| WsClient.WsClientObject.DoConnect | apps/web-sdk/src/ws-client.ts:161-170 | Refines the machine; a constructor that throws schedules a retry. |
| WsClient.WsClientObject.HandleOpen | apps/web-sdk/src/ws-client.ts:171-188 | Refines the machine. |
| WsClient.WsClientObject.HandleClose | apps/web-sdk/src/ws-client.ts:203-212 | Refines the machine, for a listener that closes the client too. |
| WsClient.WsClientObject.HandleTimer | apps/web-sdk/src/ws-client.ts:155-158 | Refines the machine. |
| WsClient.WsClientObject.Close | apps/web-sdk/src/ws-client.ts:225-241 | Refines the machine. |
| WsClient.WsClientObject.ForceReconnect | apps/web-sdk/src/ws-client.ts:243-259 | Refines the machine. |
| WsClient.WsClientObject.Send | apps/web-sdk/src/ws-client.ts:215-223 | True if and only if the socket is open and the send does not throw. |
| RateLimit.RateBound | apps/api/src/auth/rate_limit.py:73-94 | In every interleaving of the two Redis commands, any interval of 60 seconds, end points included, admits at most 60 requests of one client, although rejected ones keep counting. |
| RateLimit.LifetimeBound | apps/api/src/auth/rate_limit.py:79-94 | One key lifetime admits exactly its first 30 requests. |
| RateLimit.ExpiryIsFixed | apps/api/src/auth/rate_limit.py:76-82 | A later request never moves an expiry once set. |
| RateLimit.SixtyInAMinute | apps/api/src/auth/rate_limit.py:73-94 | That bound is attained. |
| RateLimit.HalfOpenBound | apps/api/src/auth/rate_limit.py:73-94 | Without the last instant of the interval the bound is 59, in every interleaving, from any store whose keys have counted a request. |
| RateLimit.FiftyNineAtOnce | apps/api/src/auth/rate_limit.py:1-15 | A concrete run that a sliding window of 30 would refuse: 59 requests admitted within two milliseconds, 29 at the end of one fixed window and 30 at the start of the next. |
| RateLimit.SlidingIff | apps/api/src/auth/rate_limit.py:76-94 | When the docstring's sliding window is kept: over all runs from a moment on, the next 60 seconds admit at most 30 requests of a client if and only if its key is not both below 30 requests and due to expire within them. |
| RateLimit.StraddlingAdmitsMore | apps/api/src/auth/rate_limit.py:76-94 | Otherwise a run admits 60 less the requests already counted. |
| RateLimit.PrefixIsIgnored | apps/api/src/auth/rate_limit.py:36-58 | Entries a client puts in front of what its proxies append to X-Forwarded-For do not change the address it is counted under. |
| RateLimit.HeaderIsIgnored | apps/api/src/auth/rate_limit.py:47-58 | Without a trusted proxy, or without entries, the client is the peer whatever the header says, or unknown without one. |
| RateLimit.LeftmostIsClient | apps/api/src/auth/rate_limit.py:51-57 | With no more entries than trusted proxies it is the leftmost entry. |
| RateLimit.RateLimiter.Check | apps/api/src/auth/rate_limit.py:61-94 | The result, the count and the new key, no other key being touched; without a trusted proxy the key is the peer's; fails open without touching anything. |
| Chunker.GlueWindows | apps/api/src/knowledge/chunker.py:273-299 | Round trip on words: for every word list and valid (size, overlap) the windows, with the overlap dropped from all but the last, give back the word list. |
| Chunker.WindowAt | apps/api/src/knowledge/chunker.py:277-299 | The k-th window starts at word k * (chunk_size - chunk_overlap), all but the last are full, and the last reaches the end. |
| Chunker.SharedOverlap | apps/api/src/knowledge/chunker.py:232-234 | Consecutive windows share exactly the overlap. |
| Chunker.LastWindowIsOverlapIff | apps/api/src/knowledge/chunker.py:294-299 | Exactly when the last window adds no word: there is an overlap, and full windows a stride apart end flush with the text. |
| Words.SplitJoin | apps/api/src/knowledge/chunker.py:265-279 | Splitting a joined window on whitespace gives back its words. |
| Words.SplitAcross | apps/api/src/knowledge/chunker.py:486-503 | Whitespace between two texts keeps their words apart. |
| Words.SplitEmptyIff | apps/api/src/knowledge/chunker.py:262-271 | There are no words exactly when the text is empty or all whitespace. |
| Documents.ChunksAreWindows | apps/api/src/knowledge/chunker.py:280-293 | Every token count is the number of words in its chunk, between 1 and size, and neighbours overlap as configured. |
| Documents.TextRoundTrip | apps/api/src/knowledge/chunker.py:260-301 | Gluing the words of a text's chunks gives the words of the text, and only a blank text has none. |
| Documents.BlockRoundTrip | apps/api/src/knowledge/chunker.py:409-445 | A supported block always has a chunk, even with empty text, and its chunks glue back to the words of its text; any other block has none; no chunk exceeds size. |
| Documents.DocumentRoundTrip | apps/api/src/knowledge/chunker.py:173-203 | Nothing is lost: every supported block and the running text can be read back word for word from the chunks anchored to them. |
| Documents.DocumentAnchors | apps/api/src/knowledge/chunker.py:176-198 | The chunks of a document partition by anchor into exactly those of each block and those of the text. |
| Documents.DocumentInOrder | apps/api/src/knowledge/chunker.py:149-152 | Blocks in order, then text. |
| Documents.UnsupportedIff | apps/api/src/knowledge/chunker.py:366-387 | A block gives no chunk if and only if it is no dict or of another type. |
| Documents.SmallBlocksAreVerbatim | apps/api/src/knowledge/chunker.py:409-423 | A block that fits is one chunk with its text as it is: code verbatim, an image as its description and source. |
| Documents.ImageLayout | apps/api/src/knowledge/chunker.py:460-471 | A caption goes on a line of its own, a blank one nowhere. |
| Documents.TableLayout | apps/api/src/knowledge/chunker.py:486-503 | Cells are apart by tabs and rows by newlines; missing cells, missing rows and blank rows leave nothing. |
| Documents.TextChunksAreNormal | apps/api/src/knowledge/chunker.py:278-293 | A chunk of running text belongs to no block, carries the format, and has its words a single space apart. |
| Documents.EmptyChunkIff | apps/api/src/knowledge/chunker.py:359-361 | A document has an empty chunk if and only if it has a supported block with empty text. |
| Documents.CodeWithoutText | apps/api/src/knowledge/chunker.py:88-93 | Such as a code block without text, whose chunk is empty although the docstring says none is emitted. |
| Documents.GuardCountsCharacters | apps/api/src/knowledge/chunker.py:163-171 | What the size guard rejects is over the limit in bytes, and what it accepts is at most four times it. |
| Documents.GuardIsRightIff | apps/api/src/knowledge/chunker.py:163-171 | The guard enforces the documented byte limit on all texts of a length if and only if that length is over the limit or at most a quarter of it. |
| Documents.GuardAcceptsFourTimesTheLimit | apps/api/src/knowledge/chunker.py:68-75 | A text of four times the documented number of bytes that it accepts. |
| Documents.TableTextHasTheCellWords | apps/api/src/knowledge/chunker.py:486-503 | A table's text has the words of its cells in reading order, missing cells and rows skipped. |
| Documents.ImageTextHasTheCaptionWords | apps/api/src/knowledge/chunker.py:460-471 | An image's text has the words of its description followed by those of its caption; a blank caption adds nothing. |
| Documents.ConfigError | apps/api/src/knowledge/chunker.py:309-330 | An error if and only if not 0 <= overlap < size. |
| DocumentChunker.LinearizeTableRows | apps/api/src/knowledge/chunker.py:486-503 | The loop renders the specified text. |
| DocumentChunker.ChunkText | apps/api/src/knowledge/chunker.py:219-301 | Raises if and only if the configuration is invalid, otherwise distinct new objects holding the specified chunks. |
| DocumentChunker.ChunkWords | apps/api/src/knowledge/chunker.py:273-301 | The window loop ends and yields one candidate per window. |
| DocumentChunker.ChunkBlock | apps/api/src/knowledge/chunker.py:333-445 | One chunk, sub-chunks that keep the block's anchor and type, or none. |
| DocumentChunker.ChunkDocument | apps/api/src/knowledge/chunker.py:125-216 | Raises the first error that applies; otherwise the specified chunks, numbered 0 to n - 1 in place. |
| DocumentChunker.Restamp | apps/api/src/knowledge/chunker.py:200-203 | Stamping mutates each object once and changes nothing else. |
| Cleanup.BorrowedIsSubtraction | apps/api/src/budget/cleanup.py:39-43 | The borrowing loop is subtraction on 12 * year + month, and gives a calendar month unless the month was past December before it. |
| Cleanup.CutoffPeriod | apps/api/src/budget/cleanup.py:31-43 | The loop ends with the specified cutoff. |
| Cleanup.PeriodOrder | apps/api/src/budget/cleanup.py:43-43 | Zero-padded YYYY-MM texts of the years 0 to 9999 are ordered as their months are. |
| Cleanup.CutoffSelectsOldMonths | apps/api/src/budget/cleanup.py:70-82 | Comparing a period with the cutoff as text compares months, for every retention of at least month - 13, cutoffs before year 0 included. |
| Cleanup.RetentionIsExactIff | apps/api/src/core/config.py:218-220 | All stored periods are compared rightly if and only if the retention is at least month - 13; the setting has no lower bound. |
| Cleanup.NegativeRetentionMissesAMonth | apps/api/src/budget/cleanup.py:38-43 | A concrete negative retention: the cutoff is "2026-15", and a month before the one meant is kept. |
| Cleanup.KeptIffRecent | apps/api/src/budget/cleanup.py:46-95 | A row survives the cleanup if and only if its month is within the retention. |
| Cleanup.CleanupIsIdempotent | apps/api/src/budget/cleanup.py:9-11 | A second run finds nothing to delete. |
| Cleanup.RetryFinishes | apps/api/src/budget/cleanup.py:9-11 | After a failed run the retry ends where a run without the failure would have. |
| Cleanup.SnapshotTable.DeleteBatch | apps/api/src/budget/cleanup.py:72-84 | One transaction deletes 10000 expired rows or all that are left, whichever the database picks, and counts them. |
| Cleanup.SnapshotTable.DeleteExpired | apps/api/src/budget/cleanup.py:60-87 | The loop ends with exactly the expired rows gone and their exact number, or, when the transaction of a batch fails, with the full batches before it gone. |
| Cleanup.SnapshotTable.RunBudgetCleanup | apps/api/src/budget/cleanup.py:46-95 | The same with the cutoff of the current month, which the report carries. |

## Left out

- Cut everywhere: HTTP routes, JWT, Pydantic validation, logging, metrics, tracing, providers, embeddings and other foreign calls, and the width of stored integers.
- Concurrent admin transactions on one row: they run one after the other here; SQL isolation levels are not modelled.
- Fernet encryption and SHA-256: ciphertext is opaque, and the fingerprint is any function of the key.
- Audit timestamps: the newest entry is the last one appended; entries with equal `changed_at`, and deletion of a tenant with its rows, are not modelled.
- Fresh identifiers: a new ULID never equals an existing one.
- ConversationService.Service.FindOrCreateForInbound: other calls act only between its three steps and are given by the rows they leave; the returned row object is the conversation's id here.
- Column-level diffing by the ORM: an update writes all four columns of the object it was given.
- Listing and searching of conversations, message paging, ticket links and email threading.
- Conversations.OneConversation: closes of the pair are excluded, since after a close a new conversation is rightly created.
- Assignment.FairRouting: the users and their roles are fixed during the run, and escalations do not overlap.
- ConversationService.Service.PickAgent: the sort before the minimum is left out; by Assignment.LeastBusyIsTheMinimum it does not change the choice. An exception in the policy lookup counts as no choice.
- BudgetResolver.TenantBudgetSnapshotRepository.Refresh: the usage total of a tenant and period is one stored number. The code sums usage from the period's first instant on, with the time zone's offset dropped and no upper end.
- BudgetResolver.CreditService.Grant: the key carries the period, which the code takes from the UTC month whatever the tenant's time zone; the text of the note is reduced to whether it is blank.
- The current period: it is an input everywhere.
- Budgets are fixed during a run, and whether a credit service is wired in is part of the configuration: without one, credits do not raise the cap.
- BudgetAccounting.ExactAccounting: no refresh of an existing row, and calls that do not overlap; under overlap the code is last-writer-wins, and what holds is BudgetRace.NeverOverCounts, and BudgetWarning.SerialAccounting where just the post-records do not overlap.
- BudgetAccounting.Overshoot: the same, and a budget with a hard cap.
- BudgetAccounting.WarnsAtThreshold: the same.
- Budget.CachesStayCoherent: runs without the usage endpoint, whose refresh keeps coherence exactly as Budget.RefreshIsCoherentIff says; BudgetRace has it as an event.
- BudgetStaleness.BoundedStaleness: for reads straight from the database, the default; through the snapshot cache the bound would add that cache's TTL.
- BudgetStaleness.ServedCurrentIff: the same; BudgetStaleness.DecisionsCurrentIff covers both paths.
- BudgetRace.NeverOverCounts: one key; other tenants' keys, and the evictions they cause, are the label Evict. Several final responses of one stream are separate responses.
- The clock advances between calls and once inside each, while the provider answers.
- The breakdown cache per model, which no decision reads, and the synchronous pre-check and cache paths, which defer to the asynchronous ones.
- A failure of `set_tokens_used` after its commit: a failed post-record is one whose write was rolled back.
- WsClient.RunKeepsInv: reconnect() is called only while no socket is connecting or open; the other case is WsClient.ReconnectSafeIff. A listener may close the client, but not call reconnect() or start another client, inside an event.
- The frames a client sends and receives, and the errors listeners see.
- Redis failing between its two commands, and clocks of several Redis nodes.
- RateLimit.RateLimiter.Check: one request whose two commands nothing comes between; the theorems about runs let the commands of other requests come between them.
- DocumentChunker.ChunkBlock: of a chunk's metadata only the source format and block type; language, alt, src, caption and row_count are left out, as are `str()` of values that are not strings and mutation of a candidate by later stages.
- Collation: periods and user ids are compared by code point.
- Cleanup.RetentionIsExactIff: the clock is before the year 9999, since no later period fits the column; Cleanup.CutoffSelectsOldMonths has no such limit.
- Document parsing, retrieval, history mining, the widget's DOM, the admin SPA, migrations and scripts: mostly I/O, with easy claims.
