# Zuul: a verified model of the proxy's state machines

Zuul is a signing and role-based access-control proxy. An agent signs each request; the proxy recovers the signer,
looks its role up on a chain through a cache, forwards what the role allows with the tool's API key, and writes an
encrypted audit entry for every request it could attribute to a contract on the chain. This project models the parts
of it that keep state or decide, and proves what they guarantee together.

## How the model is built

**Objects and loops.** Each object of the source whose methods update its fields is a class here with those fields:
`AuditQueue`, `PermissionCache`, `NonceValidator`, `ToolRegistry`, the request `Context`, and the contracts `RBAC` and
`Audit`. Their methods have the loops and branches of the source and are proved against functions of the old state.

**Interleaving.** JavaScript runs the code between two awaits without interruption. Where several calls overlap on one
object, the overlap is a step machine: a step is one such stretch, a run is any sequence of enabled steps, and the
theorems range over all runs (`Exec(Init(), steps) == Reached(t)`). The machines are `AuditQueueMachine`,
`AuditDrain` (the queue with any number of overlapping drains), `RoleStaleness` and `SignedRequests`, and three that put
requests on top of them: `EndToEnd` (audit queue), `RevokedCalls` (permission cache, chain and clock) and `SignedCalls`
(signature verification). They are tied to the objects as follows.

- `AuditStore.AuditQueue` runs against a `World`: functions that give the result of every write, the jitter of every
  backoff and the calls other tasks make during every await. Each method records the step it takes in a ghost trace,
  and `Valid()` says that the object's fields are those of the state the trace reaches. So what is proved of all runs
  holds of the object, and what the object promises for every `World` holds whatever the surroundings do. Its `Drain`
  also returns, as a ghost result, the run of `AuditDrain` that it is.
- `RoleCache.PermissionCache.Get` is given the calls other tasks make on the cache while it awaits the chain;
  `RoleStaleness.GetOfRun` and `RoleStaleness.FailedGetOfRun` show that the get steps of any run return and leave what
  this method promises for the answers and the calls of that run.
- `SignedRequests.Verified` is the specification of the method `VerifySignedRequest` and is what the machine's
  `Verify` step does; `NonceStore.Unexpired` plays the same part for a cleanup.
- `Pipeline.Handled` is the specification of the method `Handle`, which verifies the request and runs the middleware one
  after the other on one context. It decides what a request does in `EndToEnd`, `RevokedCalls` and `SignedCalls`.
- `AuditPagination.ReadAll` calls the ledger object's queries and `RecordEntry` in turn; it reads what the theorem on
  growing ledgers speaks of.

**History.** The machines keep the history that the theorems speak of: everything enqueued, acknowledged ("the write
returned ok") and pushed back; the chain's events with the times the chain applied them; every role served, with the
chain read it stems from; every acceptance.

**Foreign code** enters as an arbitrary function or value: signer recovery, the hash of a role id, whether encryption
succeeds, whether a write to the chain succeeds, random numbers in [0, 1) and the clock, which only moves forward.

## Where the code does less than one might expect

These follow the code; each has a lemma with a concrete failing case, and where the code holds only under a condition,
the exact condition.

- A drain looks only at the queue (src/audit/store.ts:167). Called on an empty queue while another task's flush is
  writing, it returns at once. This is what happens when a signal arrives: the queue's own handler
  (src/audit/store.ts:38) and the server's (src/api/server.ts:294-301) each drain, the first takes the whole queue, the
  second returns and ends the process: `AuditDrain.SecondDrainReturnsEarly`. The exact condition, for a drain called in
  any state while no other task starts a flush, is `AuditDrain.DrainCompletesIff`. If other tasks may start flushes, one
  can take the queue in a pause of the drain, and only a drain with nothing to do is sure:
  `AuditDrain.UnguardedDrainIff`.
- Invalidating a cache key makes a revocation immediate for that key exactly when the chain has already applied it and
  no get that read the old role is still on its way to the cache: `RoleStaleness.PromptRevocationIff`. The handler
  invalidates after the transaction is sent, not after it is applied (src/api/handlers/admin.ts:376-394). A run from
  the start in which such a get stores the old role again is `RoleStaleness.InFlightOutlivesRevocation`.
- The cache key is the address string exactly as given. An agent cached under another spelling keeps its role until the
  entry expires: `RoleStaleness.OtherSpellingOutlivesRevocation`. The exact condition for an invalidation to make a
  revocation immediate for the agent, under every spelling, is `RoleStaleness.AgentPromptIff`.
- Replay safety rests on two constants in different classes, the 300-second expiry and the 300-second window:
  `SignedRequests.ReplaySafeIffExpiryCoversWindow`.
- A request whose timestamp header is not a number is accepted at any time, once, and its nonce is then refused for ever:
  `SignedRequests.NanAcceptedOnceForEver`. An accepted request is fresh exactly when its timestamp is a number:
  `SignedRequests.FreshIffNumeric`.
- The nonce is stored before the timestamp is checked, so a refused request is stored too, and one dated far in the
  future stays stored until that date is past: `SignedRequests.StoredUntilExpiry`. A stored request is forgotten within
  600 seconds exactly when its timestamp is a number at most 300 seconds ahead: `SignedRequests.ForgottenIff`.
- A nonce containing a newline makes two different requests share one payload: `CanonicalPayload.NewlineInNonceCollides`.
  The exact condition on a nonce is `CanonicalPayload.UnmistakableIff`.
  A nonce that comes in an HTTP header has none, so this concerns other callers of `buildCanonicalPayload`.
- Two tools under one key: a URL of the first is answered with the second: `Registry.DuplicateKeyMisroutes`. The
  configuration schema admits this (src/config/schema.ts:31-32), and the key loader keeps the last tool's API key too
  (src/custody/key-loader.ts:42), so such a URL is sent with the second tool's key. When every tool returned covers its
  target, and when every tool returned is the longest match, is decided by the configuration alone:
  `Registry.RoutedToolCoversIff` and `Registry.RoutedToolIsLongestIff`.
- A base URL is a prefix in characters, not a host: one that ends with its authority, like the first in config.yaml, also
  covers targets whose authority is longer. The exact condition is `Registry.SameAuthorityIff`.
- A tool's handle gives back the tool's own key exactly when the tool's name is non-empty and has no colon:
  `KeyVault.HandleRoundTripIff`; otherwise it can give back another tool's: `KeyVault.ColonInjectsOtherKey`.
- The audited and the returned error type agree on every denial, but not on every failure:
  `Pipeline.ErrorTypesAgreeIff`.
- Requests whose signature fails, requests whose role lookup fails and requests whose response cannot be read again
  (src/api/middleware/audit.ts:146) are answered without an audit entry: `Pipeline.AuditedIff`.
- The comment at src/api/handlers/forward.ts:51 says that auditing has already run when the handler runs. The entry is
  built after the handler returns (src/api/middleware/audit.ts:37-41); the model follows the code.

## Model

| member | source | states |
|---|---|---|
| AuditQueueMachine.EveryRunKeepsInv | src/audit/store.ts:60-146 | In every state that any overlap of enqueues, flushes and failing writes can reach: at most one flush body is active and `isFlushing` says whether one is; the multiset ever enqueued equals queue plus unfinished batch plus acknowledged; every id with a retry count belongs to an entry still queued or in flight |
| AuditQueueMachine.InvStep | src/audit/store.ts:70-146 | One step of any kind keeps that invariant, and held entries change only by the entry enqueued or the entry acknowledged |
| AuditQueueMachine.SuccessKeepsInv | src/audit/store.ts:102-113 | An acknowledged write removes exactly the entry written from what is held, and deleting its retry count leaves no count without an entry |
| AuditQueueMachine.GiveUpKeepsInv | src/audit/store.ts:132-143 | Pushing an entry back after its last attempt neither loses nor duplicates it |
| AuditQueueMachine.RetriesOfOneEntry | src/audit/store.ts:96-143 | An entry waits 100 ms after its first failure and 200 ms after its second, each times the random factor drawn; it is attempted a third time and no more, and is then pushed back to the end of the queue without a wait, its retry count up by three |
| AuditQueueRuns.AcknowledgedOnce | src/audit/store.ts:70-146 | With distinct audit ids, in every reachable state no entry is acknowledged twice, and every enqueued entry is either acknowledged or held, never both |
| AuditQueueRuns.OrderWithoutFailures | src/audit/store.ts:70-113 | In every run in which no write fails, acknowledged, then in flight, then queued is exactly the enqueue order |
| AuditQueueRuns.EveryRunAccounts | src/audit/store.ts:95-146 | In every reachable state, even in the middle of a flush, a held entry's retry count is three for each flush that gave it up plus the failed attempts of the flush now writing it |
| AuditQueueRuns.RetryAccounting | src/audit/store.ts:95-156 | With distinct ids and no flush active, ids have a retry count if and only if they belong to queued entries that have failed, and each count is three times the flushes that gave the entry up |
| AuditQueueRuns.FailedWithinHeld | src/audit/store.ts:151-156 | In every reachable state the failed metric is at most what is queued or in flight, and with no flush active at most what is pending |
| AuditFlush.FlushEffect | src/audit/store.ts:70-146 | Whatever others do meanwhile, a flush of n entries acknowledges a subsequence of its snapshot and pushes the complementary one back, both in snapshot order; what arrived meanwhile keeps its order; it makes n to 3n writes and sleeps at most 300 n ms |
| AuditFlush.FlushProgress | src/audit/store.ts:83-146 | The same part way through, for the settled part of the snapshot, by induction over the run |
| AuditFlush.BackoffWithinBound | src/audit/store.ts:121 | A jittered backoff costs at most 100 ms after the first failure and 200 ms after the second |
| AuditFlush.FlushAllAcknowledged | src/audit/store.ts:78-88 | A flush that gives nothing up acknowledges its whole snapshot in order and leaves exactly what arrived meanwhile |
| AuditFlush.FlushStartsOnce | src/audit/store.ts:70-89 | A flush, however the run continues up to the next one, is exactly one start |
| AuditFlush.FlushCounts | src/audit/store.ts:95-146 | With distinct ids, whatever arrives meanwhile: an entry queued before a flush and still queued after it failed exactly three attempts more, and everything else queued after it arrived during it |
| AuditFlush.RoundsAdd | src/audit/store.ts:95-146 | These counts add up over flushes, because an acknowledged entry is never queued again |
| AuditDrain.EveryRunKeepsInv | src/audit/store.ts:162-182 | Over every overlap of drains, flushes, enqueues and failing writes, the queue keeps its invariant, no drain makes more than ten rounds, and at most one waits for a flush of its own, the active one |
| AuditDrain.DrainCompletesIff | src/audit/store.ts:162-182 | For a drain called in any state, also with a flush active and other drains under way: in every run in which no other task starts a flush, an empty queue once the drain has returned means everything ever enqueued is acknowledged, if and only if the drain was not called on an empty queue with a batch in flight |
| AuditDrain.UnguardedDrainIff | src/audit/store.ts:162-182 | With other tasks free to start flushes at any time, a drain called in any state is sure, over all runs, to return with an empty queue only when everything is acknowledged, if and only if nothing is queued or in flight when it is called |
| AuditDrain.SecondDrainReturnsEarly | src/api/server.ts:294-301 | The failing case, from any state with entries queued and no flush active: of two drains called one after the other the second returns at once, with the whole queue in flight and unacknowledged |
| AuditDrain.RoundIsFlush | src/audit/store.ts:167-169 | A round whose flush starts is that flush, from its first to its last step, whatever others do meanwhile |
| AuditStore.AuditQueue.constructor | src/audit/store.ts:14-24 | The queue starts empty, unguarded and without failures, which is the machine's initial state |
| AuditStore.AuditQueue.Enqueue | src/audit/store.ts:60-63 | The entry goes to the end of the queue, and the object makes the machine's enqueue step |
| AuditStore.AuditQueue.Await | src/audit/store.ts:101-131 | During an await other callers' enqueues append in call order and their flushes are refused, so the running flush's batch and guard are untouched |
| AuditStore.AuditQueue.BackOff | src/audit/store.ts:114-131 | A failed attempt that is not the last makes exactly the machine's failing step with the jitter drawn |
| AuditStore.AuditQueue.PushBack | src/audit/store.ts:114-143 | The last failed attempt makes exactly the machine's giving-up step |
| AuditStore.AuditQueue.Acknowledge | src/audit/store.ts:102-113 | A write that returned ok makes exactly the machine's success step |
| AuditStore.AuditQueue.WriteWithRetry | src/audit/store.ts:95-146 | Every path through the loop settles exactly the head of the batch, by steps that neither start nor end a flush |
| AuditStore.AuditQueue.WriteAll | src/audit/store.ts:83-85 | The loop settles the whole snapshot |
| AuditStore.AuditQueue.Flush | src/audit/store.ts:70-89 | A refused flush changes nothing; any other runs from one start step to one end step, has the effect, order and cost of FlushEffect, resets the guard, and loses nothing that arrives meanwhile |
| AuditStore.AuditQueue.GetMetrics | src/audit/store.ts:151-156 | Returns the queue's length and the number of ids with a retry count, with failed at most pending when no flush is active |
| AuditStore.AuditQueue.Drain | src/audit/store.ts:162-182 | The case of no flush active at the call and no other flush call: the loop is a run of one drain; at most ten flushes, exactly ten if entries remain; an empty queue means everything ever enqueued, arrivals included, is acknowledged; with distinct ids an entry queued at the call and still queued at the end failed exactly three attempts in each round, 30 in all, whatever arrived meanwhile |
| Common.AddressIff | src/auth/guards.ts:6-9 | An address is 0x and forty hexadecimal digits in either letter case, and nothing else is |
| Common.AddressInEitherCase | src/api/handlers/admin.ts:277 | An address stays one when the case of its digits changes |
| RbacContract.ActiveIffLastSet | contracts/RBAC.sol:55-82 | After any history of calls an agent is active if and only if the last event about it set a non-zero role |
| RbacContract.RevokedUntilSet | contracts/RBAC.sol:55-82 | After a revocation an agent is inactive until a non-zero role is set again |
| RbacContract.WordIff | contracts/RBAC.sol:55-82 | The chain holds a word for an agent if and only if the last event about the agent set that word, or the word is zero and the last event revoked the agent or there is none |
| RbacContract.LastEventDecides | contracts/RBAC.sol:55-82 | The word held is the one the last event about the agent set, whatever happened to others |
| RbacContract.RBAC.SetAgentRole | contracts/RBAC.sol:55-58 | Reverts, changing nothing, unless the proxy calls; otherwise the agent's next read is the given word and every other agent's is unchanged, and the event is appended to the history that the mapping agrees with |
| RbacContract.RBAC.EmergencyRevoke | contracts/RBAC.sol:79-82 | The same for a revocation, after which the agent's next read is zero |
| RbacContract.RBAC.GetAgentRole | contracts/RBAC.sol:66-72 | Returns the stored word, which is the one the event history leaves, active if and only if it is not zero |
| Roles.ConvertToRoleWithPermissions | src/rbac/cache.ts:24-38 | The runtime role has the role's id and status, and allows an action on a tool if and only if the last permission on the tool lists it |
| Roles.MapAgreesWithLastMatch | src/rbac/cache.ts:24-38 | Looking an action up in that map decides exactly as a scan for the last permission on the tool |
| Roles.ConfiguredRoleFound | src/chain/hedera.ts:287-321 | If the hash tells the configured ids apart, an agent given a configured role's hash gets that role, active |
| Roles.ActiveIffWordSet | src/chain/hedera.ts:287-321 | The role looked up is active if and only if the chain holds a non-zero word, whether or not a configured role matches |
| Roles.RuntimeStandsForWord | src/chain/hedera.ts:294-321 | The runtime role made of a word is active if and only if the word is not zero; it is the first configured role with that hash, with exactly that role's permissions; and a word that no configured role has allows nothing |
| RoleCache.AnswerIffSomeAttempt | src/rbac/cache.ts:118-149 | There is an answer if and only if one of the attempts succeeded, and it is the first success |
| RoleCache.StoredAnswers | src/rbac/cache.ts:82-100 | A stored role answers gets on its own key until exactly its time to live has passed, and changes no other entry |
| RoleCache.PermissionCache.ReadFromChainWithRetry | src/rbac/cache.ts:118-169 | The retry loop fails, with code -32022 and status 503, if and only if all of three reads fail; otherwise it returns the first successful one, with its id, status and permissions |
| RoleCache.PermissionCache.Get | src/rbac/cache.ts:77-105 | An unexpired entry answers without touching the cache; otherwise the chain's answer, id, status and permissions, is returned and stored, with the expiry counted from the moment of storing, on top of whatever others did to the cache meanwhile; a failure stores nothing |
| RoleCache.PermissionCache.Invalidate | src/rbac/cache.ts:174-177 | Drops exactly the entry under the given string |
| RoleCache.PermissionCache.Clear | src/rbac/cache.ts:182-186 | Drops every entry |
| RoleCache.PermissionCache.PerformEmergencyRevoke | src/api/handlers/admin.ts:276-432 | The entry is dropped if and only if a write went through, directly or by the fallback, only under the string given, and only after the write: what others store while the handler awaits its imports and the writes is dropped too; a malformed address, missing configuration, a failed or a throwing write drop nothing and are answered 400, 500, 503 and 500 |
| RoleStaleness.RunActsByCalls | src/rbac/cache.ts:77-186 | Any run changes the cache as the sequence of its stores, invalidations and clears does |
| RoleStaleness.GetOfRun | src/rbac/cache.ts:77-105 | A get of a run that misses and later stores serves and stores the first successful answer to its reads in that run, on top of what the run did to the cache meanwhile: what the cache object's get promises |
| RoleStaleness.FailedGetOfRun | src/rbac/cache.ts:93-96 | A get of a run whose third read fails serves the 503 error and stores nothing, as the cache object's get promises |
| RoleStaleness.EveryRunKeepsInv | src/rbac/cache.ts:77-105 | Over every interleaving of gets, stores, invalidations, clears, chain calls and time, every role cached, in flight or served is one the chain held at the recorded read, and expires in time |
| RoleStaleness.BoundedStaleness | src/rbac/cache.ts:77-105 | Every role served at time t is one the chain held at some r with r <= t < r + D + TTL, where D bounds the time from chain read to store |
| RoleStaleness.ServedAsConfigured | src/rbac/cache.ts:77-105 | Every role served at time t is, id, status and permissions, what the configuration makes of the word that the last event about the agent had left at some r with r <= t < r + D + TTL |
| RoleStaleness.ConfiguredRoleServed | src/chain/hedera.ts:287-321 | An agent whose last event before the read set a configured role's hash is served exactly that role: active, with its id and permissions |
| RoleStaleness.RevocationBound | contracts/RBAC.sol:55-82 | If the chain applies a revocation at m and sets no non-zero role later, a get that returns an active role for the agent does so before m + D + TTL |
| RoleStaleness.CutOffStays | src/rbac/cache.ts:77-177 | Once the chain holds no role for a key, the cache no active unexpired one and no get has one in flight, no later get on the key is served an active role until a role is set again, whatever else happens |
| RoleStaleness.PromptRevocationIff | src/api/handlers/admin.ts:376-394 | From any state, invalidating a key cuts it off in every continuation that sets no role if and only if the chain has applied the revocation and no get holding an active role can still store it |
| RoleStaleness.InFlightServes | src/rbac/cache.ts:91-104 | A get that read an active role before an invalidation can still store and serve it after |
| RoleStaleness.UnrevokedServes | src/rbac/cache.ts:90-104 | While the chain still holds a role, some later get on the key is served an active role, at the latest when the cached entry has expired |
| RoleStaleness.HitServes | src/rbac/cache.ts:82-86 | An active unexpired entry is served to the next get |
| RoleStaleness.PromptIffCutOff | src/rbac/cache.ts:77-177 | From any state, no continuation that sets no role serves a key an active role if and only if the chain holds none for it, the cache no active unexpired one and no get can still store one |
| RoleStaleness.AgentPromptIff | src/api/handlers/admin.ts:376-394 | From any state, invalidating one spelling of an agent's address cuts the agent off under every spelling, until a role is set again, if and only if the chain has applied the revocation, no get on any spelling can still store an active role, and no other spelling has an active unexpired entry |
| RoleStaleness.InFlightOutlivesRevocation | src/rbac/cache.ts:91-104 | A run from the start in which a get answered before a revocation stores after the invalidation, and later gets are served the old role |
| RoleStaleness.OtherSpellingOutlivesRevocation | src/api/handlers/admin.ts:392 | A run in which the chain has applied the revocation and one spelling of the address is invalidated, and the other spelling is then served the old active role |
| CanonicalPayload.DigitsReadBack | src/auth/signature.ts:40 | Decimal numbers, as a template literal prints them, read back as themselves |
| CanonicalPayload.TimestampReadBack | src/auth/signature.ts:40 | So do all timestamps: safe integers of either sign, and NaN |
| CanonicalPayload.NumbersByExample | src/auth/signature.ts:40 | Timestamps print in plain decimal: 0, 1730, -45 and NaN |
| CanonicalPayload.PayloadIs | src/auth/signature.ts:40 | A payload is method, URL, nonce and timestamp, in this order, with newlines between them |
| CanonicalPayload.ParseBuild | src/auth/signature.ts:34-41 | Parsing inverts building for every URL, newlines included, when method and nonce have none and the timestamp is a safe integer or NaN |
| CanonicalPayload.PayloadInjective | src/auth/signature.ts:34-41 | Two requests with the same payload are the same request |
| CanonicalPayload.NewlineInNonceCollides | src/auth/signature.ts:34-41 | A nonce with a newline shares its payload with a different request |
| CanonicalPayload.UnmistakableIff | src/auth/signature.ts:34-41 | Every request with a given nonce shares its payload with no different request whose nonce has no newline, if and only if the nonce has no newline itself (methods have none) |
| NonceStore.NonceValidator.constructor | src/auth/signature.ts:171-174 | The store starts empty |
| NonceStore.NonceValidator.ValidateAndStore | src/auth/signature.ts:183-204 | Refuses if and only if the flat store has the agent's nonce, and otherwise adds exactly it; no agent is left with no nonces |
| NonceStore.NonceValidator.CleanNonces | src/auth/signature.ts:214-218 | Deleting inside the loop leaves exactly the unexpired nonces; NaN never expires |
| NonceStore.NonceValidator.Cleanup | src/auth/signature.ts:209-223 | The nested loops with deletes leave exactly the flat store filtered by expiry, and no agent without nonces |
| NonceStore.NonceValidator.GetMetrics | src/auth/signature.ts:228-234 | The sum over agents is the size of the flat store, and the agents counted are exactly those in it |
| SignedRequests.VerifySignedRequest | src/auth/signature.ts:107-160 | A request is accepted only for the agent that recovery gives for its payload and signature, which equals the claimed address up to letter case; the decision and the store after it are those that AcceptedIff and RefusedFor characterise |
| SignedRequests.AcceptedIff | src/auth/signature.ts:64-160 | A request is accepted for an agent if and only if recovery from its payload and signature gives the agent, in the form of an address and equal to the claimed one up to letter case, the agent has not used the nonce, and its timestamp is no number or within 300 seconds of the clock, before or after |
| SignedRequests.RefusedFor | src/auth/signature.ts:112-157 | A refused request is refused for the first reason that applies: not signed by the agent it claims, or nonce used, or timestamp; and exactly a signed request with an unused nonce leaves its nonce behind |
| SignedRequests.EveryRunKeepsInv | src/auth/signature.ts:107-223 | Over every run with cleanups and a moving clock, for any window within the expiry: an accepted nonce is remembered until its timestamp is too old to be accepted again, and acceptances of one nonce are ordered |
| SignedRequests.ReplaySafety | src/auth/signature.ts:107-279 | With the source's constants no signed request is ever accepted twice, and two acceptances of one signer and nonce with numeric timestamps have strictly increasing timestamps |
| SignedRequests.NoPayloadTwice | src/auth/signature.ts:107-160 | No payload is accepted twice for one signer, whatever the signature's bytes and the letter case of the claimed address, for nonces without a newline |
| SignedRequests.AcceptedForSigner | src/auth/signature.ts:112-159 | Over every run each acceptance is for the agent whose signature it carries and whose address it claims |
| SignedRequests.NoSignatureTwice | src/auth/signature.ts:107-160 | Over every run no signature over a payload is accepted twice, whatever address is claimed with it |
| SignedCalls.EveryRunKeepsInv | src/api/middleware/signature.ts:105-161 | Over every interleaving of verifications, cleanups and accepted requests that go through the other stages later, each acceptance makes at most one call of the executor |
| SignedCalls.NoPayloadCallsTwice | src/api/middleware/signature.ts:105-161 | Over every such interleaving, two calls of the executor belong to different acceptances; for one signer they are for different payloads, and for any they are not for the same signature over the same payload |
| SignedRequests.ReplaySafeIffExpiryCoversWindow | src/auth/signature.ts:211-265 | For any two limits, no run accepts a request twice if and only if the window is no wider than the expiry |
| SignedRequests.WiderWindowReplays | src/auth/signature.ts:209-265 | With a wider window the run accept, wait, clean up, repeat accepts a request twice |
| SignedRequests.CleanupForgets | src/auth/signature.ts:209-223 | After a cleanup more than 600 s after an acceptance with a numeric timestamp, nothing is stored under its nonce with that timestamp |
| SignedRequests.NanIsNeverForgotten | src/auth/signature.ts:209-223 | A nonce stored with NaN stays stored in every continuation |
| SignedRequests.NanAcceptedOnceForEver | src/auth/signature.ts:144-159 | In any state in which the nonce is unused, a request with a NaN timestamp by a recovered signer is accepted whatever the clock shows, and the nonce is refused to the signer in every continuation |
| SignedRequests.FreshIffNumeric | src/auth/signature.ts:261-279 | Over every run an accepted request is within 300 seconds of its acceptance if and only if its timestamp is a number |
| SignedRequests.StoredUntilExpiry | src/auth/signature.ts:199-217 | A nonce stored with a numeric timestamp stays stored in every continuation until the timestamp is more than 300 seconds old, however far in the future it is |
| SignedRequests.ForgottenIff | src/auth/signature.ts:144-217 | For a request that stores its nonce, accepted or refused: every cleanup more than 600 s later leaves nothing under the nonce with that timestamp if and only if the timestamp is a number at most 300 s ahead of the clock |
| AuditLedger.PositionsExact | contracts/Audit.sol:51-70 | The positions that define a query increase strictly and hold exactly the indices of matching entries |
| AuditLedger.MatchesAtPositions | contracts/Audit.sol:97-160 | A query's entries are the ledger's entries at those positions |
| AuditLedger.MatchesGrow | contracts/Audit.sol:51-70 | Appending to the ledger only appends to the result of any query |
| AuditLedger.IsTimePage | contracts/Audit.sol:124-160 | What a time-range query pages over is exactly the entries with startTime <= timestamp <= endTime, at strictly increasing positions, from the offset on and at most the limit |
| AuditLedger.IsAgentPage | contracts/Audit.sol:97-113 | What an agent query pages over is exactly the entries of the agent, likewise |
| AuditLedger.Audit.IndexExact | contracts/Audit.sol:66-67 | After any sequence of records, an agent's index list increases strictly and holds exactly the positions of its entries |
| AuditLedger.Audit.RecordEntry | contracts/Audit.sol:51-70 | Appends exactly the entry and keeps every agent's index list exact |
| AuditLedger.Audit.GetAgentEntryCount | contracts/Audit.sol:167-169 | The count equals the number of the agent's entries in the ledger |
| AuditLedger.Audit.GetEntriesByAgent | contracts/Audit.sol:97-113 | Reverts if and only if the limit exceeds 100; otherwise the array is the slice [offset, offset + limit) of the agent's entries in ledger order, with no overflow or index error for any 256-bit offset |
| AuditLedger.Audit.CountInRange | contracts/Audit.sol:133-139 | The first pass counts the matching entries |
| AuditLedger.Audit.CollectInRange | contracts/Audit.sol:145-157 | The second pass, despite its early exit, fills every slot of the result with the matches from the offset on |
| AuditLedger.Audit.GetEntriesByTimeRange | contracts/Audit.sol:124-160 | The two-pass scan equals filter, then slice, for any 256-bit arguments, and reverts only for a limit over 100 or an inverted range |
| AuditPagination.ReadIncreasing | contracts/Audit.sol:97-160 | Pages read from a growing ledger never repeat a position or go back |
| AuditPagination.ReadComplete | contracts/Audit.sol:97-160 | Enough pages miss none of the positions there at the start |
| AuditPagination.PaginationCompleteAndStable | contracts/Audit.sol:51-160 | Reading pages 0, L, 2L, ... of either query returns every entry that matched at the start exactly once and in order, even if entries are recorded between reads; anything more was recorded later |
| AuditPagination.ReadAll | contracts/Audit.sol:51-160 | Reading either query page by page from the contract object, while others record entries after each page, returns everything that matched at the start, first and in order, when the pages are enough for it |
| Registry.SortSorts | src/proxy/tool-registry.ts:33 | The sort gives a permutation in descending length |
| Registry.CoversIff | src/proxy/tool-registry.ts:49 | A base URL covers exactly the targets that continue it |
| Registry.KeyOrderByFirstUse | src/proxy/tool-registry.ts:95-97 | Tools are listed in the order in which their keys are first used in the configuration |
| Registry.FirstMatchIsLongest | src/proxy/tool-registry.ts:26-56 | The first match in sorted order is the longest match, the first in configuration order on ties |
| Registry.FindIsLongestPrefix | src/proxy/tool-registry.ts:26-70 | For every configuration the search fails if and only if no base URL is a prefix of the target, and otherwise picks the longest match's key and returns the last tool under it |
| Registry.LongestPrefix | src/proxy/tool-registry.ts:26-70 | With distinct keys the tool returned is the longest match itself |
| Registry.DuplicateKeyMisroutes | src/proxy/tool-registry.ts:27-50 | With one key used twice, a URL is answered with a tool whose base URL does not cover it |
| Registry.RoutedToolCoversIff | src/proxy/tool-registry.ts:26-70 | For every configuration: each tool returned, for any target, has a base URL that covers the target, if and only if, for each tool that is the first with its base URL, the last tool under its key has a base URL that is a prefix of that one |
| Registry.RoutedToolIsLongestIff | src/proxy/tool-registry.ts:26-70 | For every configuration: each tool returned, for any target, is the longest match, if and only if, for each tool that is the first with its base URL, the last tool under its key is the same tool |
| Registry.OwnBaseUrl | src/proxy/tool-registry.ts:26-56 | A target that is a tool's own base URL, the tool being the first with it, is answered with the last tool under its key |
| Registry.SameAuthorityIff | src/proxy/tool-registry.ts:49 | For a base URL with "://", every target it covers has the same authority as the base URL, if and only if the base URL goes on with a slash, a question mark or a number sign after its authority |
| Registry.ToolRegistry.constructor | src/proxy/tool-registry.ts:26-36 | The loop and the sort establish the map, its key order and the sorted list for the given configuration |
| Registry.ToolRegistry.FindTool | src/proxy/tool-registry.ts:44-70 | The loop returns what the specification of the search says |
| Registry.ToolRegistry.ListTools | src/proxy/tool-registry.ts:95-97 | One tool for each key, in the order in which keys were first set |
| KeyVault.InjectOwnHandle | src/custody/key-vault.ts:37-96 | A tool's own handle gives back the key stored under the part of its name before the first colon, or fails |
| KeyVault.HandleRoundTripIff | src/custody/key-vault.ts:37-96 | In every vault with a non-empty key for the tool its handle gives back that key, if and only if the tool's name is non-empty and has no colon |
| KeyVault.InjectIff | src/custody/key-vault.ts:76-96 | A handle gives back a key if and only if it is "vault:" followed by the non-empty name the key is stored under, with or without more after a further colon, and the key is not empty |
| KeyVault.ColonInjectsOtherKey | src/custody/key-vault.ts:55-95 | With a colon in a tool's name the handle gives back another tool's key |
| Pipeline.SignatureMiddleware | src/api/middleware/signature.ts:105-161 | Verification decides on the request built from the headers and updates the nonce store; the recovered address, not the claimed one, and the request reach the context if and only if it accepts; otherwise 401 |
| Pipeline.MethodNames | src/api/middleware/signature.ts:114 | Each method is signed under its own name |
| Pipeline.MethodsHaveOwnPayloads | src/auth/signature.ts:34-41 | A signature for one method covers no other, whatever the URLs, nonces and timestamps |
| Pipeline.SignedAs | src/api/middleware/signature.ts:106-116 | The request verified is the one received: its payload is the method's name, the target URL, the nonce header and the timestamp header, and its signature and claimed address are those of the headers |
| Pipeline.RbacMiddleware | src/api/middleware/rbac.ts:61-211 | The context and the decision to go on are those of the specification: denials are flags and pass on, a missing context answers 500, a failed lookup 503 |
| Pipeline.ForwardHandler | src/api/handlers/forward.ts:21-280 | Flags are answered in precedence order; the executor is called at most once and only when none is set and a key exists; an upstream answer is returned with its status, or nothing is returned for a text or binary one |
| Pipeline.AuditMiddleware | src/api/middleware/audit.ts:27-158 | Runs the handler once and records its final status with the error type the flags and status give |
| Pipeline.Handle | src/api/server.ts:106-112 | The middleware in route order, each updating the shared context, computes the outcome of the specification and leaves the nonce store as verification does; whatever is called or audited has a signature over the request's payload by the agent audited, whose address the request claims up to letter case |
| Pipeline.ExecutorRunsIff | src/api/middleware/rbac.ts:61-211 | The executor runs if and only if the signer was recovered, a tool matched, the role is active and its actions on the tool include Read for GET and HEAD, Create for POST, Update for PUT and PATCH, Delete for DELETE, a key is stored and the body can be read; and then for that tool |
| Pipeline.ReadersOnlyRead | src/proxy/action-mapper.ts:18-36 | A role that only reads on a tool takes only GET and HEAD to the executor |
| Pipeline.OwnKeyInjected | src/api/handlers/forward.ts:126-159 | What is sent carries the matched tool's own key, for tool names without a colon and non-empty keys |
| Pipeline.AuditedIff | src/api/middleware/audit.ts:44-148 | A request is audited if and only if its signer was recovered, its response could be read again, encryption succeeded, and its role lookup succeeded unless no tool matched; whatever reaches the executor is audited under its agent, tool and endpoint, with the status the client is answered or, when the handler returns nothing, the status the audit stage reads |
| Pipeline.DenialsAgree | src/api/handlers/forward.ts:53-121 | Every denial, by unknown tool, inactive role or an action that the method needs and the role lacks, is answered and audited with the same error type, the first that applies, and never calls the executor |
| Pipeline.RecordNames | src/api/middleware/audit.ts:83-94 | For every audited request, denials and unknown tools included, the record has the recovered agent, the URL and method requested, the action that method stands for, the matched tool's key or "unknown", and the status the audit stage read |
| Pipeline.RecordedErrorType | src/api/middleware/audit.ts:54-81 | The recorded error type, by its cause: none for 2xx, then unknown tool, inactive agent, denied action, upstream error from 500 on, and otherwise the status in decimal |
| Pipeline.AnsweredFor | src/api/handlers/forward.ts:35-228 | The answer to the client, by its cause: 401, 500, 404, 503, 403 or 403 before the executor; 500 without a key or a readable body; 502 when the key cannot be injected; 504 for the timeout code and 502 for any other failure; the upstream's own status for an answer that is returned |
| Pipeline.ErrorTypesAgreeIff | src/api/middleware/audit.ts:54-81 | Over all audited requests the two error types agree, except if and only if the proxy failed to prepare an allowed call, the upstream answered outside 2xx, or the handler returned nothing and the framework's answer has another type than the status read by the audit stage stands for |
| Discovery.ListTools | src/api/handlers/rpc.ts:70-125 | The filtering loop computes the list of the specification: nothing without an agent, a role or an active role |
| Discovery.OffersIff | src/api/handlers/rpc.ts:97-111 | The list offers an action on a tool if and only if the tool is registered and the role allows the action |
| Discovery.ListedAsConfigured | src/api/handlers/rpc.ts:83-111 | Each listed tool is listed once, with the base URL and description of the last tool configured under its key and with exactly the role's actions on it, at least one; nothing is listed without an agent, a role or an active role |
| Discovery.DiscoveryAgreesWithEnforcement | src/api/middleware/rbac.ts:155-201 | For the same role, a tool and action are offered if and only if a request for a URL of that tool with a method of that action reaches the executor, a key and a readable body provided |
| EndToEnd.EveryRunKeepsInv | src/api/middleware/audit.ts:37-137 | Over every interleaving of requests and queue steps, enqueued entries correspond one to one to the audited requests whose audit stage has finished, and the queue keeps its own invariant |
| EndToEnd.AuditedForGood | src/api/middleware/audit.ts:37-137 | Once the audit stage of an audited request has finished, denials included, and so for every request that reached the executor with the response readable and encryption succeeding, there is one entry of its recovered agent that, in that and every later state of every continuation, is queued, in flight or acknowledged exactly once and stands for no other request |
| EndToEnd.EntryHolds | src/api/middleware/audit.ts:83-135 | The entry of a request has the recovered agent, the agent's signature from the request, and the encryption and hash of a payload that holds the request's record under the entry's own id and time, with the proxy's signature over that hash or none |
| EndToEnd.FinishedStays | src/api/middleware/audit.ts:37-137 | A request whose audit stage has finished keeps its entry in every continuation |
| EndToEnd.NoEntryWithoutRequest | src/api/middleware/audit.ts:45-137 | Every entry held or written stands for exactly one request |
| RevokedCalls.EveryRunKeepsInv | src/api/middleware/rbac.ts:115-177 | Over every interleaving of requests, gets, chain calls and time, a request goes on with a result that the cache served for its own recovered agent, and with no other |
| RevokedCalls.GoesOnWithServed | src/api/middleware/rbac.ts:115-146 | Over every interleaving a request goes on with exactly the role, or the error, that the cache served for its recovered agent |
| RevokedCalls.RevokedAgentsStopReachingUpstream | src/api/handlers/forward.ts:123-159 | Over every such interleaving, if the chain applied a revocation at m and has set no non-zero role since, every call of the executor for the agent came before m + D + TTL + B, where B bounds the time from the role served to the executor call |

The time to live is assumed positive in the staleness theorems, as the configuration demands
(src/config/schema.ts:64). Tool keys are assumed non-empty where a theorem says `KeysNamed`.

## Left out

- AuditStore.AuditQueue.Drain: the object's method is proved for a call with no flush active and no other flush call
  during it. Drains called during a flush and overlapping drains are proved on the step machine, in
  `AuditDrain.DrainCompletesIff`, `AuditDrain.UnguardedDrainIff` and `AuditDrain.SecondDrainReturnsEarly`. The length of
  the pauses is not counted.
- RoleCache.PermissionCache.Get: what others do to the cache during the read is given as a list of calls, and the
  waiting time between read attempts is not modelled; the bound D in the theorems covers only the time from the chain's
  answer to the store.
- RevokedCalls.RevokedAgentsStopReachingUpstream: B is a parameter. The source bounds neither D nor B: between the role
  and the executor call the handler awaits the request's body (src/api/handlers/forward.ts:155).
- RoleCache.PermissionCache.PerformEmergencyRevoke: the signer key and the contract address are one input, `configured`,
  and a handler set up without a cache is left out.
- SignedRequests.VerifySignedRequest: numbers beyond the safe integers are printed by an arbitrary function, an
  infinite timestamp is left out, and letter case is folded for ASCII only.
- NonceStore.NonceValidator.ValidateAndStore: an agent's inner map is a value written back to the outer map, so
  sharing of the inner map object is not captured.
- AuditLedger.Audit.RecordEntry: a ledger whose length would no longer be a 256-bit word reverts; no chain reaches it.
- Registry.SortSorts: the language's own sort is the stable sort by insertion, a function here.
- Pipeline.SignatureMiddleware: header, path and method checks before verification are left out; they are single
  branches that answer without touching the nonce store.
- Pipeline.AuditMiddleware: of what can throw while an entry is built, reading the response is an input
  (`responseReadable`) and encryption another; signing cannot prevent an entry.
- EndToEnd.AuditedForGood: audit ids are taken to be fresh; they are 32 random bytes in the source.
- Pipeline.ForwardHandler: error codes, messages, data, latencies and body hashes of responses are left out, and so is
  response wrapping. For a text or binary answer the handler returns nothing (src/api/handlers/forward.ts:261-280); what
  the web framework then makes of it is not part of this model, and enters as two independent inputs, the status that
  the audit stage reads and the answer to the client.
- Permission sets are unordered, so the order of `allowed_actions` is not modelled.
- HTTP, streaming, the executor's fetch and timeouts, contract transport and chain drivers' writes: input and output.
- Recovery, hashing and encryption themselves: arbitrary functions and inputs.
- Timers, process signals, `destroy` and logging: a timer's flush or cleanup is a step that may happen at any time, and
  `destroy` ends the run.
- The administrator's audit search, which always asks for the first page, and tools/describe.
