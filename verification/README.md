# CulturaGO: verified model of the chain protocol, the registries and the canonical hash

CulturaGO anchors cultural entities and credentials on Stellar/Soroban. This project models the parts where
correctness is hardest and proves properties of them in Dafny. `dafny verify dfyconfig.toml` checks
everything.

## What is modelled

**The chain-operation protocol** (`Commands`, `Operations`, `Protocol*`, `OperationStore`, `Gateway*`,
`StellarWorker`). An operation goes from a prepared intent to `confirmed` through an outbox with idempotency
keys, write-ahead signed payloads, leases, backoff and a readback of the ledger. `Protocol` is a state
machine: a state is what survives a crash (stored operations by value, and the chain) together with what does
not (calls in flight and the copies each worker has claimed); each stretch of code between two awaits is one
action; time only moves forward. Calls on different operations interleave freely, at most one call is in
flight on any one operation, any call can fail or crash at any await, a failed submission may still have
reached the network, and anyone may submit any other call to the same chain, its ids being bytes and so hex
text there. `ProtocolInvariant` and `ProtocolSteps` prove an invariant of all runs, `ProtocolSafety` the
safety results, `ProtocolOutcomes` how an undisturbed call ends, `ProtocolPolls` what a receipt makes of a
polled operation and that none fails for good without cause, `ProtocolRecovery` and `ProtocolProspects` what a
signed operation can still reach, `ProtocolChain` what runs do to the chain, `ProtocolRuns` runs that lose a
confirmation or miscount an attempt. `OperationStore`, `GatewayCalls` and `StellarWorker` are the same
components as objects with mutable fields; each gateway and worker method is proved to be a run of the state
machine, so every safety result holds of it, and to leave its record as `GatewayOutcomes` says, whichever of
its network and store calls fail. The claims a worker ever processes fit in the attempts that were left and
the number of error handlers the store refused (`StellarWorker.Worker.RunLoop`); with refusals for ever it can
go on for ever (`ProtocolRuns.UncountedForEver`).

**The simulated chain and the two registries** (`SimulatedChain`, `Grants`, `CredentialRegistry`,
`EntityRegistry`, `EntityDomain`, `ChainRefinement`, `Renaming`, `EndToEnd`). The contracts are classes over
their storage entries, proved against specification functions; over those, index invariants, permanence, event
sourcing, what the published events say of public verification and of every call's success, and who holds
which right, and the refinement between the in-memory chain and the contracts, and between entity.ts and the
entity registry. `EndToEnd` joins it to the protocol: what a run confirmed is in the contracts' registries.

**Canonical JSON** (`Unicode`, `CanonicalJson`, `JsonReading`, `CanonicalHash`, `ObjectGraph`,
`GraphCanonicalization`). Text is UTF-16 code units. The printer, a reader that inverts it (RFC 8785, sections
3.2.2 and 3.2.3), UTF-8, the digest input, and the recursion with a mutable `seen` set over a heap of objects
with sharing and cycles.

**Three small algorithms** (`Relationships`, `RateBudget`, `Indexer`).

## Idealisations

- SHA-256 digests are identified with what is digested, so they are collision-free; signatures and envelopes
  are free constructors. A stored command's fingerprint is the command without its client key.
- `CanonicalHash` proves that the bytes digested determine schema and document; `Commands.HashDocument` relies
  on that and keeps only schema and id, as a text of hex digits.
- A number is known by the text ECMAScript prints for it, taken to differ for different numbers; -0 is 0.
- Randomly generated operation ids never repeat. Clocks, network answers, what a signer returns and whether a
  simulation asks for a restore are inputs. Whether a failed submission reached the network is an input.
- At most one call is in flight on any one operation. For workers whose calls end within their leases that
  follows from the store (`OperationStore.LeasedCallsNeverOverlap`); calls made through the API take no lease.
- `maxAttempts` of the worker and of its store query are the same number.

## Where the code and its documentation differ

- The transition table lets `failed_retryable` and `restoring` recover
  (src/domain/operations/operationState.ts:15-18), and the worker reconciles both. `pollAndConfirm` asserts a
  move to `confirming` that the table does not have from either, so they never recover
  (`ProtocolSafety.RetryableNeverConfirms`). One failed poll of a transaction that succeeded is enough to get
  there (`ProtocolRuns.ThrownPollLosesAConfirmation`).
- Saving the signed payload first is meant to let recovery confirm after a crash between submission and saving
  the hash. The resend is accepted by the chain and changes nothing, but closes in a later ledger, so the
  readback of an issue or a revocation fails: no run confirms such an operation
  (`ProtocolRecovery.EffectFirstNeverConfirms`; `ProtocolRuns.CrashedSubmissionEndsFailed` is a run to
  `failed_terminal`). A signed operation can still confirm exactly when the chain accepts its call and does
  not have its effect yet, or it revokes a credential that is not on the chain, which anyone may still issue
  (`ProtocolProspects.SignedCanConfirmExactlyWhen`).
- The worker's `MAX_ATTEMPTS_EXCEEDED` write is not an edge of the table from `signed` or `submitted`
  (`ProtocolOutcomes.HandlerLeavesTheTableExactlyWhen` says on which records it happens).
- A processed claim is meant to count one attempt. It counts two, and at the limit leaves the table, when a
  retry was scheduled and the handler does not find the record signed and backed off: after a recovery whose
  save of `submitted` rejects, however soon the handler comes (`ProtocolRuns.CountedTwiceLeavesTheTable`), or
  when the handler comes after the backoff (`ProtocolOutcomes.LateHandlerLeavesTheTable`). It counts none when
  the failure was not rescheduled and the handler's read or save rejects. Otherwise it counts one or ends the
  operation (`GatewayOutcomes.ClaimCountsOnceExactlyWhen`, `GatewayOutcomes.ClaimLeavesTheTableExactlyWhen`).
- The simulated chain says it mirrors the contracts. It accepts a resend of an existing credential id with
  other fields, which the contract refuses (`ChainRefinement.LooserResendHappens`); that is the only
  difference, and states stay equal (`ChainRefinement.CallAnswersAlike`).
- Registering an entity again compares with version 1 in the contract and with the head in entity.ts
  (`EntityDomain.ReRegistrationAgreesExactlyWhen`).
- `claimBatch` hands out one record for a batch size of 0 (`OperationStore.Store.ClaimBatch`).
- The rate limit holds per fixed window. In every stretch of time as long as the window it holds exactly when
  `limit <= 1 || windowMs <= 1` (`RateBudget.LimitHoldsInEveryStretchExactlyWhen`); otherwise up to twice the
  limit, less one, can pass, and does in some run (`RateBudget.FewerThanTwiceTheLimit`,
  `RateBudget.TheBoundIsMet`).

## Model

| member | source | states |
|---|---|---|
| `ProtocolSafety.ConfirmedIsOnChainForEver` | src/infrastructure/stellar/SorobanStellarGateway.ts:489-561 | In every run (any interleaving of calls, crashes, failed and late network answers, foreign submissions) a confirmed operation has its matching fact on the chain, for issue and revoke written in the operation's own ledger by its own payload; record and fact are unchanged in every later state |
| `ProtocolSafety.ConfirmingSubmissionWroteTheRecord` | src/infrastructure/stellar/SorobanStellarGateway.ts:65-102 | The submission that closed in a confirmed operation's ledger carried exactly its signed payload, and the credential's issued or revoked ledger is that ledger |
| `ProtocolSafety.OneConfirmationPerCredential` | src/infrastructure/stellar/SorobanStellarGateway.ts:522-534 | At most one issue and at most one revoke operation per credential ever confirm, whatever their reasons and client keys |
| `ProtocolSafety.SavedChangesAreLegal` | src/domain/operations/operationState.ts:9-33 | Every saved phase change is an edge of the table or no change, except the worker giving up past the attempt limit; terminal records are never written again; a saved signature, transaction hash, fingerprint and key never change |
| `ProtocolSafety.RecordsMatchTheirPhase` | src/infrastructure/stellar/SorobanStellarGateway.ts:161-269 | The record invariant per phase: a stored payload is signed by the actor and carries the call of the stored command; signed has no hash; submitted, confirming, unknown and confirmed have the hash of the stored payload; confirmed has a ledger |
| `ProtocolSafety.TerminalStays` | src/domain/operations/operationState.ts:36-38 | Confirmed and failed_terminal are absorbing, record and all, over every later run |
| `ProtocolSafety.RetryableNeverConfirms` | src/infrastructure/stellar/SorobanStellarGateway.ts:489-495 | From failed_retryable or restoring no run reaches confirmed, although the table offers recovery from both |
| `ProtocolSafety.SentPayloadsAreStored` | src/infrastructure/stellar/SorobanStellarGateway.ts:184-192 | Whatever the network received for an operation is byte for byte its stored signed payload, then and later, so recovery resends the same bytes |
| `ProtocolSafety.SignedIsSavedBeforeItIsSent` | src/infrastructure/stellar/SorobanStellarGateway.ts:244-257 | A step that hands a payload to the network finds the record already saved as signed with that payload (write-ahead) |
| `ProtocolSafety.OneOperationPerKey` | src/infrastructure/stellar/SorobanStellarGateway.ts:347-362 | Under every interleaving of concurrent prepare calls, two stored operations with the same canonical key are the same operation |
| `ProtocolSafety.ReplayReturnsTheOriginal` | src/infrastructure/stellar/SorobanStellarGateway.ts:351-362 | The lookup finds nothing exactly when no operation has the key, returns the original when the fields agree, rejects a different payload |
| `ProtocolSafety.PrepareStoresWhatTheChainSays` | src/infrastructure/stellar/SorobanStellarGateway.ts:366-460 | A fresh command whose simulation the chain refuses is stored failed_terminal with the chain's error and nothing to sign; any other waits for a signature, or for a restore exactly when one was asked for, with the unsigned envelope of its own call |
| `ProtocolSafety.SignatureIsTakenExactlyWhen` | src/infrastructure/stellar/SorobanStellarGateway.ts:196-246 | A first signature is taken if and only if its signer is the actor and what would be sent is a signed envelope of the command's own call, for a smart wallet as assembled and only with a fee payer; then just that is stored, unsent, and otherwise nothing happens |
| `ProtocolSafety.ResendExactlyWhen` | src/infrastructure/stellar/SorobanStellarGateway.ts:165-183 | After the first signature only a signed operation can be sent, and only by bringing its stored payload and signer |
| `ProtocolSafety.KeyStaysBound` | src/infrastructure/stellar/SorobanStellarGateway.ts:347-362 | In every later state the lookup of a command whose key is taken finds the operation that took it or refuses, and no other operation has the key; if that operation failed for good or is stuck, nothing under the key ever confirms |
| `ProtocolSteps.StepKeeps` | src/infrastructure/stellar/SorobanStellarGateway.ts:161-291 | Every step of gateway, worker, store and chain keeps the protocol invariant |
| `ProtocolSteps.RunKeeps` | src/infrastructure/stellar/StellarWorker.ts:37-74 | Every run keeps the protocol invariant |
| `ProtocolOutcomes.SubmissionConfirmsExactlyWhen` | src/infrastructure/stellar/SorobanStellarGateway.ts:183-268 | A submission that nothing disturbs, first or recovered, ends confirmed if and only if the chain accepts the call and an issue finds no record under its id, a revocation an unrevoked one; otherwise failed_terminal |
| `ProtocolPolls.PollSettles` | src/infrastructure/stellar/SorobanStellarGateway.ts:497-537 | Of a polling call the receipt of its hash decides: none, a pending one or a success without a ledger leaves the record unknown, one attempt further, with a wait; failed, or a success that does not read back, is failed_terminal; a success that reads back is confirmed in its ledger |
| `ProtocolPolls.ReconcileSettles` | src/infrastructure/stellar/SorobanStellarGateway.ts:275-291 | The same of reconciling an idle submitted, confirming or unknown record |
| `ProtocolPolls.NoFailureWithoutCause` | src/infrastructure/stellar/SorobanStellarGateway.ts:504-533 | In every run, an operation with a hash that is failed_terminal, other than by the worker giving up, was polled while its receipt was a failure or read back without a match; a pending transaction never ends one |
| `ProtocolOutcomes.HandlerLeavesTheTableExactlyWhen` | src/infrastructure/stellar/StellarWorker.ts:46-70 | The worker's error handler writes a phase the table does not allow if and only if attempts are used up and the record is submitted, or signed without a pending backoff; or attempts are left and it still awaits a signature |
| `ProtocolOutcomes.LateHandlerLeavesTheTable` | src/infrastructure/stellar/StellarWorker.ts:61-64 | A concrete run in which a late error handler saves failed_terminal over signed |
| `ProtocolRecovery.EffectFirstNeverConfirms` | src/infrastructure/stellar/SorobanStellarGateway.ts:184-192 | Over every run: once an operation's credential is on the chain (for a revocation, revoked) while the operation has no transaction hash, as after a crash between submitting and saving the hash, it never confirms |
| `ProtocolProspects.SignedCanConfirmExactlyWhen` | src/infrastructure/stellar/SorobanStellarGateway.ts:171-192 | In every reachable state an idle signed operation can still confirm in some run if and only if the chain accepts its call and does not have its effect yet, or it revokes a credential that is not on the chain |
| `ProtocolProspects.RefusedNeverConfirms` | src/infrastructure/stellar/InMemoryChainTransport.ts:218-259 | A signed call the chain refuses, other than a revocation of an absent credential, never confirms: not even when its credential id later appears under another business key |
| `ProtocolRuns.CrashedSubmissionEndsFailed` | src/infrastructure/stellar/SorobanStellarGateway.ts:252-268 | A run: prepare, sign, submit, crash before the hash is saved, recover; the credential is on the chain and the operation failed_terminal |
| `ProtocolRuns.ThrownPollLosesAConfirmation` | src/infrastructure/stellar/SorobanStellarGateway.ts:489-498 | A run: the worker's poll throws on a confirming operation whose transaction succeeded; it ends failed_retryable although the stored hash polls as a success and the readback matches, and no later run confirms it |
| `ProtocolRuns.CountedTwiceLeavesTheTable` | src/infrastructure/stellar/StellarWorker.ts:46-70 | A run in which no time passes: the recovery's submission succeeds, the save of its hash rejects, the catch saves the record as submitted with one attempt counted, and the worker's handler at once saves failed_terminal with two, where one is allowed |
| `ProtocolRuns.UncountedForEver` | src/infrastructure/stellar/StellarWorker.ts:62-69 | A reachable confirming record that can be claimed, fail its poll and fail its handler's save any number of times, and be as it was |
| `GatewayCalls.Gateway.Prepare` | src/infrastructure/stellar/SorobanStellarGateway.ts:347-462 | The method returns the original, rejects, refuses a bad hash, or stores the new operation as the chain's answer has it: failed_terminal with its error and nothing prepared if and only if the call is refused; it stores nothing when the store or the network rejects, and is a run of lookup, simulate, create |
| `GatewayCalls.Gateway.SubmitSigned` | src/infrastructure/stellar/SorobanStellarGateway.ts:161-269 | With any of its reads, saves, submissions, polls and readbacks failing, the method is a run of the state machine, and its answer and the stored record are those of the specification function; no other record changes |
| `GatewayCalls.Gateway.PollAndConfirm` | src/infrastructure/stellar/SorobanStellarGateway.ts:489-538 | Whatever fails, a run of the state machine with the specified record; without a failure the receipt of the hash settles the record: unknown and one attempt further while pending, failed or confirmed otherwise |
| `GatewayCalls.Gateway.Reconcile` | src/infrastructure/stellar/SorobanStellarGateway.ts:275-291 | The same; a phase that is not reconcilable is returned as it is |
| `GatewayCalls.Gateway.Send` | src/infrastructure/stellar/SorobanStellarGateway.ts:171-192 | The same from a saved signed payload on; a failing save of the hash is caught and rescheduled in a recovery and thrown in a first submission |
| `GatewayOutcomes.ProcessCounts` | src/infrastructure/stellar/SorobanStellarGateway.ts:161-291 | Every call a worker makes succeeds and ends its operation or counts one attempt, or reschedules it and counts one, or slips and counts none; which, is decided by the record, the failing calls and the poll |
| `GatewayOutcomes.ActionableIsClaimable` | src/infrastructure/stellar/InMemoryOperationStore.ts:68-70 | What the state machine lets a worker claim is what the store would hand out, leases aside |
| `GatewayOutcomes.ClaimCountsOnceExactlyWhen` | src/infrastructure/stellar/StellarWorker.ts:45-71 | A processed claim ends its operation or counts exactly one attempt, within the limit, if and only if it neither counts twice (rescheduled as submitted after a rejected save of the hash, or as signed with a handler past the backoff, and the handler writes) nor is lost (a failure without a retry saved, and the handler's read or save rejects) |
| `GatewayOutcomes.CountedClaimsWait` | src/infrastructure/stellar/StellarWorker.ts:62-69 | A claim that counted an attempt and left its record alive has it wait for the backoff of its attempts, from when it was counted; the handler records the call's error, or that it gave up |
| `GatewayOutcomes.ClaimLeavesTheTableExactlyWhen` | src/infrastructure/stellar/StellarWorker.ts:61-64 | The handler of a claim writes a phase the table does not allow if and only if it counts the failure twice and that passes the limit |
| `StellarWorker.Worker.HandleError` | src/infrastructure/stellar/StellarWorker.ts:46-70 | The handler's write, if there is one and the store takes it, is a run of the state machine and touches only its record; only its read rejects the batch |
| `StellarWorker.Worker.ProcessClaim` | src/infrastructure/stellar/StellarWorker.ts:45-71 | Call and handler together are a run of the state machine, store the record of the specification function and touch no other; the batch rejects exactly when the call fails and the handler's read rejects |
| `StellarWorker.ClaimSpends` | src/infrastructure/stellar/StellarWorker.ts:45-71 | A processed claim takes at least one attempt from the budget unless its failure was lost; attempts pass the limit by one at most, and only on a record given up on |
| `StellarWorker.Worker.RunOneBatch` | src/infrastructure/stellar/StellarWorker.ts:37-74 | The batch is a run of the state machine and leases what the store hands out, all of which is processed unless the claim or a handler's read rejects; attempts left over live operations fall by at least the number of claims processed less those whose failure was lost, each judged in a state the run passes through |
| `StellarWorker.Worker.RunLoop` | src/infrastructure/stellar/StellarWorker.ts:76-85 | The loop runs all its batches unless one rejects; each leases what the store hands out, from the leases the one before left, in a state the run passes through; and all claims ever processed fit in the attempts that were left at the start and the number of error handlers the store refused |
| `OperationStore.Store.Create` | src/infrastructure/stellar/InMemoryOperationStore.ts:40-49 | A bound key is refused and nothing changes; otherwise record and binding are added |
| `OperationStore.Store.SaveRecord` | src/infrastructure/stellar/InMemoryOperationStore.ts:51-56 | A known record is replaced whole; an unknown one is refused |
| `OperationStore.Store.ClaimBatch` | src/infrastructure/stellar/InMemoryOperationStore.ts:58-81 | Hands out records that are live and past signing, with attempts left and neither backed off nor leased, in insertion order, at most the batch size (one for size 0); one it could hand out and does not stands behind a full batch; exactly those are leased |
| `OperationStore.Store.CountByPhase` | src/infrastructure/stellar/InMemoryOperationStore.ts:83-91 | For every phase the number of stored records in it |
| `OperationStore.ClaimablesAre` | src/infrastructure/stellar/InMemoryOperationStore.ts:66-79 | What can be handed out is each stored record with work, attempts left, backoff and lease run out, once, and nothing else |
| `OperationStore.ActionableExactlyWhen` | src/infrastructure/stellar/InMemoryOperationStore.ts:68 | A worker may pick up exactly what is signed or further and not terminal |
| `OperationStore.HandedAreTheFirst` | src/infrastructure/stellar/InMemoryOperationStore.ts:66-79 | Over order, records and leases: what a batch holds, in which order, and that whatever it leaves out is behind a full batch |
| `OperationStore.EmptyExactlyWhenNothingIsClaimable` | src/infrastructure/stellar/InMemoryOperationStore.ts:66-80 | A batch is empty if and only if nothing can be claimed |
| `OperationStore.LeasesExactlyWhatIsHanded` | src/infrastructure/stellar/InMemoryOperationStore.ts:73-76 | The batch leases each record it hands out and leaves every other lease as it is |
| `OperationStore.LeasesExclude` | src/infrastructure/stellar/InMemoryOperationStore.ts:66-80 | In any series of batches, claimed by anyone from stores that change in between, a record handed out by one batch is in no other until its lease runs out |
| `OperationStore.LeasedCallsNeverOverlap` | src/infrastructure/stellar/InMemoryOperationStore.ts:58-81 | Calls on one operation that end within the leases they were handed out under never overlap, whatever batches are claimed by whom |
| `Operations.BackoffSteps` | src/infrastructure/stellar/StellarWorker.ts:119-123 | The waits are 2, 4, 8, 16 and 32 seconds and a minute from the fifth attempt on |
| `Operations.LivePhases` | src/domain/operations/operationState.ts:9-38 | Terminal are exactly the phases no transition leaves; reconcilable every other one past signing |
| `Operations.WhatLeadsTo` | src/domain/operations/operationState.ts:9-33 | The transition table, read by the phases each phase is reached from |
| `Commands.KeyRoundTripsExactlyWhen` | src/app/api/sign/submit/route.ts:29-45 | Parsing a printed key recovers kind, id and reason if and only if the id is free of ':' and the reason is null or non-empty |
| `Commands.HashDocumentIsInjective` | src/infrastructure/stellar/SorobanStellarGateway.ts:717-728 | Subject keys of different schemas or ids differ |
| `Commands.DistinctCommandsHaveDistinctKeys` | src/infrastructure/stellar/SorobanStellarGateway.ts:730-744 | On such commands two keys are equal exactly when kind, id and reason are |
| `Commands.SpecExactlyWhen` | src/infrastructure/stellar/SorobanStellarGateway.ts:649-714 | A command has a call if and only if its metadata hash, or its reason unless null or empty, is 64 lower-case hex digits; the call says field by field what the command says, ids by their digests |
| `Commands.SameRequestExactlyWhen` | src/infrastructure/stellar/SorobanStellarGateway.ts:746-753 | Two commands have one fingerprint if and only if they agree in everything but the client's key |
| `SimulatedChain.ResubmissionIsInert` | src/infrastructure/stellar/InMemoryChainTransport.ts:84-101 | A payload once accepted is accepted at any later time and leaves entities, credentials, tokens and business keys as they are, whatever was submitted in between |
| `SimulatedChain.SubmitExtends` | src/infrastructure/stellar/InMemoryChainTransport.ts:261-315 | One submission, accepted or not, keeps entities, versions, issue fields, revocations and business keys, and never lowers the token counter or the ledger |
| `SimulatedChain.SubmissionLeavesItsReceipt` | src/infrastructure/stellar/InMemoryChainTransport.ts:84-101 | A signed payload is answered with its hash, whose receipt in the new ledger is failed exactly when the call is refused, and pending only when asked to be; a refused call changes nothing else |
| `SimulatedChain.UnsignedLeavesNoTrace` | src/infrastructure/stellar/InMemoryChainTransport.ts:84-92 | A payload that is unsigned or unreadable is refused without a trace |
| `SimulatedChain.Transport.SubmitPayload` | src/infrastructure/stellar/InMemoryChainTransport.ts:84-101 | The method's new state and hash are those of the specification function the other results are about |
| `SimulatedChain.Transport.ApplyCall` | src/infrastructure/stellar/InMemoryChainTransport.ts:261-315 | In-place updates produce the state of the specification function |
| `SimulatedChain.Transport.ValidateCall` | src/infrastructure/stellar/InMemoryChainTransport.ts:218-259 | The checks answer as the specification function does |
| `SimulatedChain.Transport.PollTransaction` | src/infrastructure/stellar/InMemoryChainTransport.ts:103-113 | The status read back for a hash, with the forced missing ledger |
| `ChainRefinement.ChainRefinesContracts` | src/infrastructure/stellar/InMemoryChainTransport.ts:218-315 | From genesis, over any sequence of register, issue and revoke submissions, entities, credentials, token counter and business keys equal those of the two contracts after the same calls by authorised, linked operators; both accept alike except on a looser resend; verify_entity answers alike in every state on the way |
| `ChainRefinement.CallAnswersAlike` | src/infrastructure/stellar/InMemoryChainTransport.ts:218-259 | The contract accepts if and only if the chain does and the call is not a resend of an existing id with other fields |
| `ChainRefinement.LooserResendHappens` | src/infrastructure/stellar/InMemoryChainTransport.ts:238 | With one credential issued on both sides, the chain accepts its id again under another metadata hash, and the contract refuses |
| `ChainRefinement.CallMirrors` | src/infrastructure/stellar/InMemoryChainTransport.ts:261-315 | One call, accepted or refused, keeps the two sides equal |
| `ChainRefinement.KeyTextIsInjective` | src/infrastructure/stellar/InMemoryChainTransport.ts:286 | The chain's business-key text determines issuer, subject, event and type |
| `ChainRefinement.ReadbackAgrees` | src/infrastructure/stellar/InMemoryChainTransport.ts:132-145 | On mirrored states with matching version tables the entity readback answers as the contract's verify_entity for every id, version, hash and schema |
| `Renaming.MovedAs` | src/infrastructure/stellar/InMemoryChainTransport.ts:218-315 | Replacing every id by its digest commutes with a submission, accepted or refused, wherever the digests tell the ids apart |
| `EndToEnd.ConfirmedIsInTheRegistries` | src/infrastructure/stellar/SorobanStellarGateway.ts:489-561 | In every run a confirmed operation is in the two contracts' registries after the calls its network received: the entity's version 1, the credential with every issue field and the operation's ledger, or the revocation with its reason and ledger; the digest need only tell the ids in play apart |
| `CredentialRegistry.ReachableIndexesInStep` | contracts/cultural-credential-registry/src/lib.rs:169-258 | In every reachable state tokens are exactly 1..next-1, token and business-key indexes are bijections onto the records and agree with the records' own fields, and there are next-1 records |
| `CredentialRegistry.ReplayNeverDangles` | contracts/cultural-credential-registry/src/lib.rs:173-186 | The NotFound branch of the replay path is unreachable, and a business key names one credential |
| `CredentialRegistry.BusinessKeyIsInjective` | contracts/cultural-credential-registry/src/lib.rs:492-505 | The fixed-width concatenation, and with it the business key, determines its four parts |
| `CredentialRegistry.IssueSucceedsExactlyWhen` | contracts/cultural-credential-registry/src/lib.rs:152-258 | Issue answers with a token if and only if caller, link, schema and type are right and the business key is free under a free id, or held by a record with the same id, hash and schema |
| `CredentialRegistry.RunKeepsRecords` | contracts/cultural-credential-registry/src/lib.rs:263-310 | Over any run every record keeps its issue fields, and a revocation with ledger and reason is never undone or altered |
| `CredentialRegistry.ExecWritesOneRecord` | contracts/cultural-credential-registry/src/lib.rs:152-310 | A transaction changes at most the one record it names |
| `CredentialRegistry.RevokedNeverVerifies` | contracts/cultural-credential-registry/src/lib.rs:338-356 | A revoked id never verifies again, whatever is asked |
| `CredentialRegistry.VerifiesExactlyWhen` | contracts/cultural-credential-registry/src/lib.rs:340-356 | In every history an id verifies against a hash and a schema if and only if an event published it as issued with exactly these and none as revoked |
| `CredentialRegistry.Contract.VerifyCredential` | contracts/cultural-credential-registry/src/lib.rs:340-356 | The method answers so of its own published events |
| `CredentialRegistry.RightsSinceDeployment` | contracts/cultural-credential-registry/src/lib.rs:361-432 | In every history an account issues or revokes, a schema is allowed, an operator is linked, if and only if the deployment or the admin's own transaction made it so and no later one of the admin undid it |
| `CredentialRegistry.IssuePublishesTheCall` | contracts/cultural-credential-registry/src/lib.rs:202-258 | An issue of a new id publishes the call's own fields, the next token and the ledger |
| `CredentialRegistry.RevokePublishesTheCall` | contracts/cultural-credential-registry/src/lib.rs:292-309 | A first revocation publishes the token, the revoker, the reason and the ledger |
| `CredentialRegistry.RefusalsNameTheirCause` | contracts/cultural-credential-registry/src/lib.rs:152-290 | Each error is answered only where the check it names fails |
| `CredentialRegistry.ReissueIsIdempotent` | contracts/cultural-credential-registry/src/lib.rs:173-200 | Re-issuing the same fields at any later time, while still authorised, returns the original token and writes nothing |
| `CredentialRegistry.FirstRevocationStands` | contracts/cultural-credential-registry/src/lib.rs:263-310 | After a revocation, whatever happens in between, revoking again writes nothing, and is done if and only if the caller may revoke and gives the first reason |
| `CredentialRegistry.ExecPublishesItsEffect` | contracts/cultural-credential-registry/src/lib.rs:173-309 | A call publishes one event exactly when records, tokens or links change, and absorbing it is that change; a refused or aborted call changes nothing |
| `CredentialRegistry.EventsRebuildTheRegistry` | contracts/cultural-credential-registry/src/lib.rs:361-389 | In every history, folding the published events rebuilds records, token index, next token and issuer links |
| `CredentialRegistry.Contract.IssueCredential` | contracts/cultural-credential-registry/src/lib.rs:152-258 | Storage reads and writes in place produce the state and reply of the specification function |
| `CredentialRegistry.Contract.RevokeCredential` | contracts/cultural-credential-registry/src/lib.rs:263-310 | The same for revocation, including the idempotent repeat |
| `CredentialRegistry.Contract.LinkIssuerOperator` | contracts/cultural-credential-registry/src/lib.rs:361-375 | The same for linking an operator; repeating publishes nothing |
| `CredentialRegistry.Contract.UnlinkIssuerOperator` | contracts/cultural-credential-registry/src/lib.rs:377-389 | The same for unlinking |
| `EntityRegistry.HistoryIsDenseAndImmutable` | contracts/cultural-entity-registry/src/lib.rs:119-286 | In every reachable state versions are exactly 1..latest under their own numbers; no later history changes or drops one, and a deactivated head is final |
| `EntityRegistry.VersionConflictsAreFinal` | contracts/cultural-entity-registry/src/lib.rs:182-243 | At most one version_entity call per entity and expected version succeeds in a run, and none after deactivation |
| `EntityRegistry.VerifiesExactlyWhen` | contracts/cultural-entity-registry/src/lib.rs:312-336 | In every history a version verifies against a hash and a schema if and only if an event published it with exactly these and none the entity's deactivation |
| `EntityRegistry.Contract.Verify` | contracts/cultural-entity-registry/src/lib.rs:312-336 | The method answers so of its own published events |
| `EntityRegistry.RegisterSucceedsExactlyWhen` | contracts/cultural-entity-registry/src/lib.rs:119-180 | By the events: registration succeeds if and only if it is authorised under an allowed schema and the entity was never published, or first with the same content; only the former publishes |
| `EntityRegistry.VersionSucceedsExactlyWhen` | contracts/cultural-entity-registry/src/lib.rs:182-243 | By the events: a version succeeds if and only if it is authorised under an allowed schema, expects as many versions as were published, and the entity was not deactivated; it publishes the next one with the call's content |
| `EntityRegistry.DeactivateSucceedsExactlyWhen` | contracts/cultural-entity-registry/src/lib.rs:245-286 | By the events: deactivation succeeds if and only if it is authorised and expects as many versions as were published; a second one publishes nothing |
| `EntityRegistry.RefusalsNameTheirCause` | contracts/cultural-entity-registry/src/lib.rs:119-286 | Each error is answered only where the check it names fails |
| `EntityRegistry.RightsSinceDeployment` | contracts/cultural-entity-registry/src/lib.rs:340-357 | In every history who may write and which schemas are allowed is what the deployment and the admin's own transactions made of it |
| `EntityRegistry.ExecPublishesItsEffect` | contracts/cultural-entity-registry/src/lib.rs:131-178 | A call publishes one event exactly when heads or versions change, and absorbing it is that change; failures change nothing |
| `EntityRegistry.EventsRebuildTheRegistry` | contracts/cultural-entity-registry/src/lib.rs:217-284 | In every history, folding the events rebuilds all heads and all versions |
| `EntityRegistry.Contract.RegisterEntity` | contracts/cultural-entity-registry/src/lib.rs:119-180 | Storage writes in place produce the state and reply of the specification function |
| `EntityRegistry.Contract.VersionEntity` | contracts/cultural-entity-registry/src/lib.rs:182-243 | The same for a new version |
| `EntityRegistry.Contract.DeactivateEntity` | contracts/cultural-entity-registry/src/lib.rs:245-286 | The same for deactivation |
| `EntityDomain.EntityFunctionsSimulateTheContract` | src/domain/entities/entity.ts:40-102 | After a first registration, any versions and deactivations, each in its own ledger by its own caller and author, are accepted and refused alike, with the same error, and leave the same history on both sides after each |
| `EntityDomain.ReRegistrationAgreesExactlyWhen` | src/domain/entities/entity.ts:46-52 | Registering again is answered alike for every content if and only if version 1 and the head carry the same content |
| `EntityDomain.RefusedAsInvalidExactlyWhen` | src/domain/entities/entity.ts:28-38 | Malformed content, and only that, is refused as invalid, before anything else is looked at |
| `EntityDomain.FilesTheInput` | src/domain/entities/entity.ts:53-88 | A first registration and a new version file the input field by field under the next number, with no ledger |
| `JsonReading.CanonicalTextReadsBack` | src/infrastructure/hashing/canonicalize.ts:12-56 | A reader inverts the printer over escapes, nesting and sorted keys: reading the canonical text gives the value's meaning |
| `JsonReading.CanonicalExactlyWhenSame` | src/infrastructure/hashing/canonicalize.ts:12-56 | Two accepted values have the same canonical text if and only if they are equal up to object key order |
| `JsonReading.StringReads` | src/infrastructure/hashing/canonicalize.ts:23-24 | A quoted string is read back exactly, whatever follows it: short escapes, control characters, lone surrogates and pairs |
| `CanonicalJson.SortingIsUnique` | src/infrastructure/hashing/canonicalize.ts:40 | Two orderings by code units of the same keys are the same sequence |
| `CanonicalJson.SortSorts` | src/infrastructure/hashing/canonicalize.ts:40 | Sorting distinct keys yields them in order: of any two, the earlier ends first or has the smaller code unit where they first differ |
| `CanonicalJson.BeforeExactlyWhenPrecedes` | src/infrastructure/hashing/canonicalize.ts:40 | The comparison used is that order, units compared as integers |
| `CanonicalJson.ObjectPrintsInOrder` | src/infrastructure/hashing/canonicalize.ts:40-48 | An object's text has its members in the one code-unit order of its keys there is |
| `CanonicalJson.EscapesExactlyWhen` | src/infrastructure/hashing/canonicalize.ts:23-24 | A unit is printed as itself unless it is a quotation mark, a backslash, a control character or a lone surrogate; these take the two-character escape they have, or six characters with the value in lower-case hex |
| `CanonicalJson.EscapingIsUnitwise` | src/infrastructure/hashing/canonicalize.ts:23-24 | A string is escaped unit by unit, except that a surrogate pair stays together |
| `CanonicalJson.PairsStayTogether` | src/infrastructure/hashing/canonicalize.ts:23-24 | A surrogate pair is printed as it is |
| `CanonicalHash.KnownObject` | tests/infrastructure/canonical-hash.test.ts:23 | An object given as b then a prints as the suite has it, byte for byte |
| `CanonicalHash.KnownArray` | src/infrastructure/hashing/canonicalize.ts:30-37 | An array of the three literals, byte for byte |
| `CanonicalHash.CanonIsWellFormed` | src/infrastructure/hashing/canonicalize.ts:58-61 | The canonical text has no lone surrogate, so encoding it loses nothing |
| `Unicode.Utf8IsInjective` | src/infrastructure/hashing/canonicalize.ts:58-61 | Texts without lone surrogates have different UTF-8 bytes when they differ |
| `Unicode.ShortestForm` | src/infrastructure/hashing/canonicalize.ts:58-61 | A unit takes as few bytes as UTF-8 allows, and a lone surrogate becomes U+FFFD |
| `Unicode.PairsTakeFour` | src/infrastructure/hashing/canonicalize.ts:58-61 | A surrogate pair takes four bytes |
| `CanonicalHash.DigestInputExactlyWhenSame` | src/infrastructure/hashing/canonicalize.ts:58-61 | The digested bytes are equal if and only if the schema ids are and the documents are equal up to key order, for all ids without NUL |
| `CanonicalHash.HashInputExactlyWhenSame` | src/infrastructure/hashing/canonicalHash.ts:8-37 | Hashing succeeds exactly for the known schemas, and there the bytes pin down schema and document |
| `CanonicalHash.DigestedBytes` | src/infrastructure/hashing/canonicalize.ts:58-61 | What is digested, byte for byte: CULTURAGO, NUL, the schema id, NUL, the canonical text in UTF-8, for exactly the three schemas |
| `GraphCanonicalization.CanonicalizeJson` | src/infrastructure/hashing/canonicalize.ts:12-56 | On any finite object graph: ends; fails if and only if a cycle or a forbidden value can be reached (sharing is accepted); otherwise returns the canonical text of the unfolded tree, an object's members behind their keys in code-unit order |
| `GraphCanonicalization.Canonicalize` | src/infrastructure/hashing/canonicalize.ts:25-51 | At any depth, `seen` is restored on both exits, and the outcome is the text of the tree that avoids `seen`, or there is none |
| `ObjectGraph.TreeExactlyWhenClean` | src/infrastructure/hashing/canonicalize.ts:25-51 | A value unfolds to a finite tree exactly when neither a cycle nor a forbidden value is reachable |
| `ObjectGraph.UnfoldingIsUnique` | src/infrastructure/hashing/canonicalize.ts:32-48 | A value unfolds to one tree |
| `ObjectGraph.UnfoldsExactlyWhenAvoids` | src/infrastructure/hashing/canonicalize.ts:26-29 | No finite tree meets an object twice on one path, so looking at `seen` rejects nothing that has a tree |
| `Relationships.CreatesCycle` | src/domain/participation/relationships.ts:104-127 | Ends, and answers true if and only if the type is hierarchical and a path, possibly empty, leads from the target to the source |
| `Relationships.AcyclicExactlyWhen` | src/domain/participation/relationships.ts:100-109 | An added edge leaves the graph acyclic if and only if it was and the target does not lead back to the source |
| `Relationships.AddGuarded` | src/domain/participation/relationships.ts:100-127 | Over any sequence of requests the graph stays acyclic, keeps its edges and gains only requested ones; a request that is not in it closed a cycle with the edges present when it was made |
| `Relationships.RefusedExactlyWhen` | src/domain/participation/relationships.ts:104-127 | A guarded request is added exactly when the graph of that moment stays acyclic with it |
| `RateBudget.FewerThanTwiceTheLimit` | src/infrastructure/perimeter/InMemoryRateBudgetStore.ts:16-34 | In any half-open stretch as long as the window at most 2*limit - 1 hits of a key get through (none for limit 0), whatever other keys and window types do |
| `RateBudget.TheBoundIsMet` | src/infrastructure/perimeter/InMemoryRateBudgetStore.ts:26-33 | For every limit from 1 and window from 2 ticks, a run that lets 2*limit - 1 hits through in one stretch as long as the window |
| `RateBudget.LimitHoldsInEveryStretchExactlyWhen` | src/infrastructure/perimeter/InMemoryRateBudgetStore.ts:16-34 | Every run keeps to the limit in every stretch as long as the window if and only if the limit is at most 1 or the window at most 1 tick |
| `RateBudget.WindowAcceptsTheFirst` | src/infrastructure/perimeter/perimeter.ts:70-74 | Between resets exactly as many hits are let through as the limit allows |
| `RateBudget.OthersAreUntouched` | src/infrastructure/perimeter/InMemoryRateBudgetStore.ts:22-24 | A hit under another key or window type leaves a counter alone |
| `RateBudget.FullKeyIsInjective` | src/infrastructure/perimeter/InMemoryRateBudgetStore.ts:23 | Different keys or window types never share an entry |
| `RateBudget.Store.HitLimit` | src/infrastructure/perimeter/InMemoryRateBudgetStore.ts:16-34 | The returned entry and the new store state |
| `RateBudget.Store.AssertLimit` | src/infrastructure/perimeter/perimeter.ts:76-102 | Accepts if and only if the count after this hit is within the limit; a refused hit still counts |
| `Indexer.ProjectionsDependOnTheEvents` | src/infrastructure/stellar/InMemoryIndexer.ts:19-82 | Two runs given the same events, however batched, repeated or interleaved with processing and rebuilding, hold the same multiset of a contract's events in every projection once both have processed it, when the key determines the event |
| `Indexer.PassportsDependOnTheEvents` | src/infrastructure/stellar/InMemoryIndexer.ts:57-88 | Once every contract is processed, the whole projection under each key is the same multiset in both runs |
| `Indexer.RebuildChangesNothing` | src/infrastructure/stellar/InMemoryIndexer.ts:74-82 | Recomputing the projections at any point of any run yields the projections kept up by processing |
| `Indexer.ProcessDrains` | src/infrastructure/stellar/InMemoryIndexer.ts:34-64 | After processing a contract, every raw event of it is indexed |
| `Indexer.IndexedExactlyOnce` | src/infrastructure/stellar/InMemoryIndexer.ts:34-64 | Once a contract is processed, its indexed events are those it was given, each exactly once |
| `Indexer.KeysTellPlacesApart` | src/infrastructure/stellar/InMemoryIndexer.ts:23 | For networks and contracts free of ':', two events share a key if and only if network, contract, ledger and index agree |
| `Indexer.IndexedSaysWhatWasGiven` | src/infrastructure/stellar/InMemoryIndexer.ts:40-52 | In every run an indexed event says in all its fields what an event that was given says |
| `Indexer.ProcessIndexesExactly` | src/infrastructure/stellar/InMemoryIndexer.ts:34-64 | Processing a contract indexes its raw events, every one and no other contract's, and leaves what is indexed |
| `Indexer.ProjectionIsASelection` | src/infrastructure/stellar/InMemoryIndexer.ts:58-63 | Each projection is the subsequence of the indexed events with its key, in processing order, and there are no others |
| `Indexer.InMemoryIndexer.Ingest` | src/infrastructure/stellar/InMemoryIndexer.ts:19-32 | The new state is the run model's; the two counts add up to the events given |
| `Indexer.InMemoryIndexer.ProcessUnprocessed` | src/infrastructure/stellar/InMemoryIndexer.ts:34-64 | The new index and projections are the run model's; the number returned is how many events it indexed |
| `Indexer.InMemoryIndexer.RebuildProjections` | src/infrastructure/stellar/InMemoryIndexer.ts:74-82 | Clearing and rebuilding finds exactly the projections that were there |
| `Indexer.InMemoryIndexer.GetPassport` | src/infrastructure/stellar/InMemoryIndexer.ts:85-88 | Returns the subsequence of indexed events under the subject and event key |
| `Indexer.PassportExactlyWhen` | src/infrastructure/stellar/InMemoryIndexer.ts:59 | For ids without the separator an event is filed in a passport if and only if it is of that subject and that event, and nothing of the event is lost |

## Left out

- User interface, routes and server actions except the key parser; sessions, WebAuthn, environment and body validation, logging and metrics.
- PostgreSQL adapters and SQL read models; records are stored and handed out by value, as a database row is, while the in-memory store hands out the stored object itself. Store calls that reject are failures of the stretch that waits for them and write nothing.
- The Soroban SDK transport, signers, and the envelope and auth-entry checks at the end of the gateway: what a signature must match is one predicate (`Operations.SignedMatches`).
- AdminStellarService and its intents, PassportService, participation states and the catalog.
- The transaction that restores archived entries inside prepare: a restore only decides whether the new operation starts in `restoring`; one that ends awaiting a signature is the case without a restore, and the failed second simulation, which stores a transaction hash, is not modelled.
- Contract roles as sets: transfer of the admin role, entry lifetimes and archival are host behaviour. Grants and revocations of roles and schemas change those sets and publish nothing here.
- Lower-casing and number coercion of readback values in `credentialRecordMatches`: the simulated chain already returns them in that form.
- The gateway's verifyCredential query, the indexer's cursors and message texts of errors.
- Eventual confirmation: the network may stay silent for ever, and a record that used up its attempts is no longer claimed.
- Dates, sparse arrays, getters and inherited properties of JavaScript objects.
- GatewayCalls.Gateway.SubmitSigned: as an object method it runs without other calls in between and with the clock standing still; interleaving and time are covered by the state machine it is a run of.
- GatewayCalls.Gateway.Prepare: the same, and the ticket it uses in the state machine is free.
- StellarWorker.Worker.RunLoop: one worker with the gateway to itself, between a failed call and its error handler too; the abort signal is a number of batches, and a loop that rejects is not started again.
- StellarWorker.Worker.RunOneBatch: the bound on the budget is an inequality; a claim that counts twice, or ends its operation early, takes more than the one attempt it is charged for.
- ChainRefinement.ChainRefinesContracts: operators hold every role and are linked to every issuer in play, schema 1 is the only one allowed, tokens stay below the u64 bound and ledgers below the u32 bound.
- EndToEnd.ConfirmedIsInTheRegistries: 32-byte digests tell the ids in play apart; hashes and numbers fit the contracts' types; the calls the network received are those of authorised operators linked to every issuer in play, within the ledger bound, and the contracts start where the chain does.
- EntityDomain.EntityFunctionsSimulateTheContract: callers are registrars that authorised the call, and schemas admitted ones, as entity.ts checks neither; registrations after the first are excluded; another theorem says exactly when they agree. Ids are hex in the contract and free text off chain.
- ProtocolSafety.ConfirmedIsOnChainForEver: for a registration the fact is version 1 with the expected hash and schema; the code compares no ledger there.
- Indexer.ProjectionsDependOnTheEvents: order within a projection is processing order and does depend on batching; only the multiset does not.
