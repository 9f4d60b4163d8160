# Threshold-signing wallet: a verified model

This project models the parts of an MPC wallet whose correctness is hard to see by reading one
function, and proves properties of them with Dafny:

- **Same-key share refresh.** Enclaves deal evaluations of zero-constant polynomials, a coordinator
  transposes them, each enclave adds what it receives. Over a prime field (the order `p` is a parameter,
  `2^32 <= p <= 256^32`), every quorum still reconstructs the same secret after any number of epochs.
- **Enclave signing and key-generation sessions**, with the bounded replay cache, in two layers:
  atomic operations for invariants over serialised runs, and lock-level steps for concurrent signing and
  DKG requests. A lock-level request that runs alone is shown to do exactly its atomic operation, and an
  enclave object that serves any requests one by one is shown to follow the run of atomic operations.
- **Intent lifecycle.** Creation, approval, rejection, execution, retry and expiry over a store whose
  writes may fail at any point.
- **Codecs.** The Solana message format with compact lengths, and the hand-written base58 encoder, against
  parsers written as specifications.
- **Listing, quorum collection and signing retries.** In-place bubble sort and pages, the orchestrator's
  two rounds, and the retry loop over a shrinking signer list.

Code that mutates state is modelled by classes and methods with loops; each is proved equal to a step
function on values, and the theorems are about those functions. Random coefficients, cryptographic
results, the clock, disk outcomes, network answers and map iteration order are arguments, so every theorem
holds for all of them.

`dafny verify dfyconfig.toml` checks the whole project.

## What the proofs show about the code

- The refresh coordinator builds its own column of evaluations and never adds it to its share
  (pkg/mpc/node/refresh_orchestrator.go:151-158). A quorum that includes a coordinator which is not its own
  peer still reconstructs the secret if and only if that column sums to zero
  (`CoordinatorShareGoesStale`, `StaleCoordinatorExample`).
- The replay cache evicts its 100 smallest keys, although the comment at cmd/mpc-enclave/src/ipc.rs:130
  says the last 1000 entries are kept. A mark can be evicted by the very call that makes it; `MarkTakesEffect`
  says exactly when and `FullCacheForgets` gives a cache that does it. Serialised runs are therefore protected
  up to 1001 marks and not beyond (`RoundsOnceExactlyUpTo`, `RepeatedRound1`).
- A nonce is derived from session id, message hash and share (cmd/mpc-enclave/src/crypto.rs:258-297), and round 1
  stores it into whatever session is in the slot. Section 5.2 of RFC 9591 asks that a nonce be used at most
  once. One generation call's nonce is (`SignsAtMostOnce`); but two round-1 requests for one session id can,
  under interleaving, lead to two partial signatures from one derivation input. Every interleaving keeps inputs
  apart if and only if no two round-1 requests name the same session id (`NoncesDifferExactlyWhen`,
  `RepeatedIdReusesNonce`).
- DKG parts 1 and 2 also store into whatever session is in the slot. Under interleaving part 3 of one id can
  install a key made from secrets of two other ids (`AnyIdsMix`); exactly when this cannot happen is
  `InstallsPureExactlyWhen`.
- A retried multi-signature intent keeps its old approvals, so one new approver is enough, although the
  comment at pkg/wallet/intent.go:289-290 speaks of re-approval (`ApprovalCountsExact`,
  `OneApproverAfterRetry`).
- The store's retry accepts an intent stuck in "executing", but the retry handler refuses it first, so
  nothing ever moves it on (`StuckForever`); `StuckExactlyWhen` says which executions end there, and
  `StuckExample` is a run that does.
- `selectSigners` tests its bound after adding a peer, so a threshold of zero selects one peer
  (`CollectedQuorumIsExact`, `ZeroThresholdExample`). The aggregating peer is sent one partial signature too
  many unless the coordinator is itself a selected peer (`AggregationEntries`, `ExtraPartialExample`).
- The retry loop finds the failed peer by substring, so "peer 12" also blames peer 1
  (`WrongPeerExcluded`). A missing peer is the one removed if and only if no earlier signer's number is a prefix
  of its own (`MissingPeerRemovedExactlyWhen`). Below a threshold of two a retry can use the same signers
  again; `ShrinksExactlyWhen` gives the exact condition.
- A page request can panic: offset plus limit is 64-bit addition (`PagePanicsExactlyWhen`).

## Model

| member | source | states |
|---|---|---|
| `Polynomials.InterpolatesConstantTerm` | cmd/mpc-enclave/src/crypto.rs:473-510 | Lagrange interpolation at 0, over any set of at least as many distinct residues as a polynomial has coefficients, returns its constant term |
| `Polynomials.BasisSumsToOne` | cmd/mpc-enclave/src/crypto.rs:473-510 | The Lagrange coefficients at 0 of any non-empty set of distinct points add up to 1 modulo p |
| `ShareRefresh.ScalarRoundTrip` | cmd/mpc-enclave/src/crypto.rs:506-539 | Every scalar a dealer sends is accepted as canonical by the receiver and read back unchanged |
| `ShareRefresh.EvaluateAt` | cmd/mpc-enclave/src/crypto.rs:498-504 | The running-power loop computes a_1 x + a_2 x^2 + ... + a_(t-1) x^(t-1) modulo p, stated as a sum of coefficients times powers; equal to a polynomial with constant term 0 at x |
| `ShareRefresh.RefreshGenerateEvaluations` | cmd/mpc-enclave/src/crypto.rs:477-510 | A dealer's output holds for each participant id, and nobody else, 32 bytes that read back as that power sum at the id modulo p |
| `ShareRefresh.EvalIsPowerSum` | cmd/mpc-enclave/src/crypto.rs:498-504 | The dealer's polynomial, evaluated by Horner's rule, is the sum of its coefficients times powers |
| `ShareRefresh.PowerLaw` | cmd/mpc-enclave/src/crypto.rs:499-503 | Powers multiply: x^(m+n) is x^m times x^n |
| `Bytes.LittleEndianByte` | cmd/mpc-enclave/src/crypto.rs:506-506 | Byte k of an encoded scalar is its k-th base-256 digit |
| `ShareRefresh.CollectColumn` | pkg/mpc/node/refresh_orchestrator.go:153-158 | The values addressed to one target, by source, for exactly the sources that sent it one |
| `ShareRefresh.RunRefresh` | pkg/mpc/node/refresh_orchestrator.go:99-169 | In any arrival order the matrix holds exactly the rows of the peers that answered, and every peer is routed exactly its column of it |
| `ShareRefresh.ArrivalOrderIrrelevant` | pkg/mpc/node/refresh_orchestrator.go:134-142 | Two arrival orders of the same answers give the same matrix |
| `ShareRefresh.SumReceived` | cmd/mpc-enclave/src/crypto.rs:531-545 | The accumulation loop returns the sum of all received scalars modulo p, or the error of the first malformed one in ascending source order |
| `ShareRefresh.RefreshApply` | cmd/mpc-enclave/src/crypto.rs:517-568 | Applies exactly when the package is readable and every received value is 32 bytes below p; the new share is the old one plus everything received modulo p and nothing else in the package changes; otherwise the error says why |
| `RefreshProtocol.RoutedShiftIsCommonPolynomial` | pkg/mpc/node/refresh_orchestrator.go:102-188 | Whoever answered, each participant's column has one entry per dealer, all canonical, and sums to the value at its id of one common polynomial |
| `RefreshProtocol.EpochKeepsPolynomial` | cmd/mpc-enclave/src/crypto.rs:477-568 | If every holder applied, the new shares lie on a polynomial of the same degree bound with the same constant term |
| `RefreshProtocol.ReconstructsConstantTerm` | cmd/mpc-enclave/src/crypto.rs:473-510 | Every quorum of at least threshold holders of shares on a polynomial reconstructs its constant term |
| `RefreshProtocol.RefreshKeepsSecret` | cmd/mpc-enclave/src/crypto.rs:473-568 | For every threshold, quorum, sequence of epochs, set of answering dealers and coefficients, reconstruction returns the original secret when every holder applied every epoch |
| `RefreshProtocol.MissedApplyShiftsSecret` | pkg/mpc/node/refresh_orchestrator.go:171-188 | When some quorum members missed the epoch, reconstruction is off by exactly the Lagrange-weighted shifts they did not add |
| `RefreshProtocol.CoordinatorShareGoesStale` | pkg/mpc/node/refresh_orchestrator.go:151-158 | A quorum with a coordinator that is not its own peer reconstructs the secret if and only if the coordinator's unapplied column sums to zero |
| `RefreshProtocol.StaleCoordinatorExample` | pkg/mpc/node/refresh_orchestrator.go:151-158 | A 2-of-3 epoch after which the two peers agree on the secret and the coordinator's quorum does not |
| `RefreshRun.RoundOne` | pkg/mpc/node/refresh_orchestrator.go:99-145 | One answer per peer: a dealer's evaluations, or a failure |
| `RefreshRun.CollectedByCoordinator` | pkg/mpc/node/refresh_orchestrator.go:134-142 | Answers from dealers running the enclave code give exactly the epoch's matrix |
| `RefreshRun.RoundTwo` | pkg/mpc/node/refresh_orchestrator.go:160-188 | The peers reached add their column to their share and keep the rest of their key package; the others keep everything |
| `RefreshRun.RunEpoch` | pkg/mpc/node/refresh_orchestrator.go:71-188 | An epoch executed with the dealing, routing and applying code gives exactly the epoch's share transition |
| `ReplayCache.KeyInjective` | cmd/mpc-enclave/src/ipc.rs:119-126 | Equal key texts come from equal (session id, round, hash) triples, even when ids contain ':' |
| `ReplayCache.KeyExample` | cmd/mpc-enclave/src/ipc.rs:120-120 | The key text of one use, spelled out |
| `ReplayCache.LessMeans` | cmd/mpc-enclave/src/ipc.rs:131-132 | Keys are ordered by proper prefix or by the first character that differs |
| `ReplayCache.AmongSmallest` | cmd/mpc-enclave/src/ipc.rs:131-135 | A key is among the n smallest exactly when fewer than n keys precede it |
| `ReplayCache.CacheBounded` | cmd/mpc-enclave/src/ipc.rs:125-137 | No sequence of marks leaves more than 1000 entries |
| `ReplayCache.MarkLosesOnlySmallest` | cmd/mpc-enclave/src/ipc.rs:125-137 | A mark loses only keys with fewer than 100 keys before them, and only when the map exceeds 1000 |
| `ReplayCache.NeverRejectsUnused` | cmd/mpc-enclave/src/ipc.rs:119-123 | A triple that was never marked passes the check, after any marks |
| `ReplayCache.ExactUntilFull` | cmd/mpc-enclave/src/ipc.rs:119-137 | Up to 1000 distinct marks, the check rejects exactly the marked triples |
| `ReplayCache.MarkTakesEffect` | cmd/mpc-enclave/src/ipc.rs:125-137 | A mark is remembered by the call that makes it unless it overflows the map with fewer than 100 keys before it |
| `EnclaveRuns.StepKeepsShare` | cmd/mpc-enclave/src/ipc.rs:374-957 | No operation clears a key share |
| `EnclaveRuns.StepLog` | cmd/mpc-enclave/src/ipc.rs:498-942 | An operation records at most one success, and none when it fails |
| `EnclaveRuns.StepKeepsInv` | cmd/mpc-enclave/src/ipc.rs:374-957 | Every operation keeps the session, DKG, replay and history invariants together |
| `EnclaveRuns.RunKeepsInv` | cmd/mpc-enclave/src/ipc.rs:374-957 | The invariants hold in every state a serialised run reaches |
| `EnclaveRuns.RoundsAtMostOnce` | cmd/mpc-enclave/src/ipc.rs:793-942 | In every serialised run with at most 1001 marks, a (session id, hash) pair succeeds at most once in round 1 and at most once in round 2, however often the id is restarted |
| `ReplayLimit.FullCacheForgets` | cmd/mpc-enclave/src/ipc.rs:125-137 | A cache of 1000 marks that forgets the next one in the call that makes it |
| `ReplayLimit.RepeatedRound1` | cmd/mpc-enclave/src/ipc.rs:793-856 | A serialised run with 1002 marks in which one pair succeeds twice in round 1 |
| `ReplayLimit.RoundsOnceExactlyUpTo` | cmd/mpc-enclave/src/ipc.rs:119-137 | All runs with at most n marks keep each pair to one success per round if and only if n is at most 1001 |
| `EnclaveRuns.Round2FollowsRound1` | cmd/mpc-enclave/src/ipc.rs:793-942 | Every recorded round-2 success has now <= start + 60 and follows a recorded round-1 success of the same session object, id, hash and start, also with now <= start + 60 |
| `EnclaveRuns.KeyPackageNeedsFullDkg` | cmd/mpc-enclave/src/ipc.rs:498-681 | A key package is present only after an installation, and every installation follows part 1 and then part 2 of the same session object, id and start, all three with now <= start + 600 |
| `EnclaveRuns.OnlyPart3Installs` | cmd/mpc-enclave/src/ipc.rs:602-681 | Only a successful part 3 changes the key package, and it records the installation |
| `EnclaveRuns.RunSessionsConsistent` | cmd/mpc-enclave/src/ipc.rs:374-957 | In every run: phase Signing implies a session, a session implies a share, DKG rounds are 1 or 2, and the round-2 secret is present exactly in round 2 |
| `EnclaveRuns.ShareNeverCleared` | cmd/mpc-enclave/src/ipc.rs:374-957 | A share present at some point of a run is present at every later point |
| `SessionHistory.SigningWindow` | cmd/mpc-enclave/src/ipc.rs:793-893 | A matching round more than 60 seconds after its session's start ends TimedOut with an empty slot and the phase Ready; one within 60 seconds never times out |
| `SessionHistory.DkgWindow` | cmd/mpc-enclave/src/ipc.rs:498-628 | A matching part more than 600 seconds after its session's start ends TimedOut with an empty slot; one within 600 seconds never times out |
| `SessionHistory.StrangersRefused` | cmd/mpc-enclave/src/ipc.rs:498-957 | A request that finds no session, another session or the wrong round is refused for that reason and changes nothing |
| `SessionHistory.UnusedPairSigns` | cmd/mpc-enclave/src/ipc.rs:763-942 | From every reachable state with a share, for a pair not used before: start, round 1 and round 2 all succeed if and only if both rounds come within 60 seconds, and then exactly these successes are recorded and only the slot, phase and cache have moved |
| `SessionHistory.DkgCompletes` | cmd/mpc-enclave/src/ipc.rs:463-681 | From every Ready state: a session and its three parts all succeed if and only if every part comes within 600 seconds, and then the package is the key and the share |
| `SessionHistory.StepFrame` | cmd/mpc-enclave/src/ipc.rs:374-957 | Signing requests leave DKG slot, key package and share alone; the others leave signing slot and replay cache alone |
| `SessionHistory.ReplayAfterStep` | cmd/mpc-enclave/src/ipc.rs:793-942 | The replay cache changes only by the mark of a round that succeeded, under that round's number |
| `SessionHistory.PhaseAfter` | cmd/mpc-enclave/src/ipc.rs:374-957 | The phase after every operation, by what was asked and how it ended |
| `SessionHistory.StartsNeed` | cmd/mpc-enclave/src/ipc.rs:431-791 | When starting a signing session, a DKG session or single-dealer key generation succeeds, and that a refused start still drops the old session |
| `SessionHistory.AbortEnds` | cmd/mpc-enclave/src/ipc.rs:683-957 | An abort ends exactly the session it names and changes nothing else |
| `SessionHistory.RefreshReplacesShare` | cmd/mpc-enclave/src/ipc.rs:743-761 | A refresh succeeds exactly when there is a share and applying works, and then replaces the share by the new package and nothing else |
| `SessionHistory.ShareAfterStep` | cmd/mpc-enclave/src/ipc.rs:374-761 | An operation keeps the share or installs the material it brought |
| `SessionHistory.ShareIsLatest` | cmd/mpc-enclave/src/ipc.rs:374-761 | In every run the share in use is the one the latest successful key operation brought |
| `SessionHistory.SessionHasStart` | cmd/mpc-enclave/src/ipc.rs:763-957 | In every run a session in the slot is the one of the last start request, not aborted since, with exactly the commitments posted since and nonces of a round 1 within 60 seconds |
| `SessionHistory.SignatureHistory` | cmd/mpc-enclave/src/ipc.rs:763-942 | Every successful round 2 of a run comes after the last start request, which names its id, and a later round 1 of that id, both rounds at most 60 seconds after the start, with no abort between |
| `SessionHistory.DkgHasOpening` | cmd/mpc-enclave/src/ipc.rs:463-600 | In every run a DKG session in the slot is the one its opening request made, holding the secrets of the parts that followed it under its id within 600 seconds |
| `SessionHistory.KeyHistory` | cmd/mpc-enclave/src/ipc.rs:463-681 | Every successful part 3 of a run follows an opening, a part 1 and a part 2 under its id, each at most 600 seconds after the opening, with no abort or new start between, and its package becomes the key package |
| `EnclaveObject.FirstKeys` | cmd/mpc-enclave/src/ipc.rs:131-132 | Taking n keys in order yields the n smallest |
| `EnclaveObject.Enclave.CheckReplay` | cmd/mpc-enclave/src/ipc.rs:119-123 | True exactly when the triple's key is absent |
| `EnclaveObject.Enclave.MarkReplayUsed` | cmd/mpc-enclave/src/ipc.rs:125-137 | The insert and eviction loop makes the map the marked map and changes nothing else |
| `EnclaveObject.Enclave.Initialize` | cmd/mpc-enclave/src/ipc.rs:374-403 | Ready in every case; a stored share is loaded only on the first call |
| `EnclaveObject.Enclave.DkgStart` | cmd/mpc-enclave/src/ipc.rs:431-461 | Whole new state of single-dealer key generation, including the phase a failing dealer leaves |
| `EnclaveObject.Enclave.DkgStartSession` | cmd/mpc-enclave/src/ipc.rs:463-496 | Drops the old session even when it then refuses to start |
| `EnclaveObject.Enclave.DkgPart1` | cmd/mpc-enclave/src/ipc.rs:498-555 | Whole new state of part 1 in every branch |
| `EnclaveObject.Enclave.DkgPart2` | cmd/mpc-enclave/src/ipc.rs:557-600 | Whole new state of part 2 in every branch |
| `EnclaveObject.Enclave.DkgPart3` | cmd/mpc-enclave/src/ipc.rs:602-681 | Whole new state of part 3 in every branch |
| `EnclaveObject.Enclave.DkgAbort` | cmd/mpc-enclave/src/ipc.rs:683-696 | Whole new state of an abort in every branch |
| `EnclaveObject.Enclave.RefreshApply` | cmd/mpc-enclave/src/ipc.rs:743-761 | The share is replaced only when there is one and applying succeeds |
| `EnclaveObject.Enclave.SignStartSession` | cmd/mpc-enclave/src/ipc.rs:763-791 | Drops the old session even when there is no share to start with |
| `EnclaveObject.Enclave.SignRound1` | cmd/mpc-enclave/src/ipc.rs:793-856 | Whole new state of round 1 in every branch |
| `EnclaveObject.Enclave.AddCommitment` | cmd/mpc-enclave/src/ipc.rs:858-868 | Adds the commitment to the matching session only |
| `EnclaveObject.Enclave.SignRound2` | cmd/mpc-enclave/src/ipc.rs:870-942 | Whole new state of round 2 in every branch; passing the guard spends the round even if signing fails |
| `EnclaveObject.Enclave.SignAbort` | cmd/mpc-enclave/src/ipc.rs:944-957 | Whole new state of an abort in every branch |
| `EnclaveObject.Enclave.Serve` | cmd/mpc-enclave/src/ipc.rs:374-957 | Every request, served by its method, gives the state and outcome of its atomic operation |
| `EnclaveObject.Enclave.ServeAll` | cmd/mpc-enclave/src/ipc.rs:374-957 | An object that serves any sequence of requests is in the state of that run, with its outcomes; so it keeps the invariants, never loses its share, and up to 1001 marks succeeds once per pair and round |
| `SigningInterleavings.EveryScheduleSafe` | cmd/mpc-enclave/src/ipc.rs:763-957 | Under every schedule of lock-level steps, each guard pass and each generation call's result is in at most one place: the session slot, one request, or spent once |
| `SigningInterleavings.GuardPassedAtMostOnce` | cmd/mpc-enclave/src/ipc.rs:873-893 | Under every interleaving a session object passes the round-2 guard at most once |
| `SigningInterleavings.SignsAtMostOnce` | cmd/mpc-enclave/src/ipc.rs:793-942 | Under every interleaving a session object yields at most one partial signature, and the result of one generation call is consumed by at most one |
| `NonceDerivation.DistinctIdsDistinctNonces` | cmd/mpc-enclave/src/crypto.rs:258-297 | If no two round-1 requests name one session id, then under every interleaving no two partial signatures use nonces with equal derivation inputs |
| `NonceDerivation.RepeatedIdReusesNonce` | cmd/mpc-enclave/src/ipc.rs:793-942 | For any round-1 requests of which two name one id there is a schedule in which two partial signatures of different session objects use nonces with equal derivation inputs |
| `NonceDerivation.NoncesDifferExactlyWhen` | cmd/mpc-enclave/src/crypto.rs:258-297 | For round-1 requests naming given ids, whatever else is requested, every interleaving keeps nonce inputs apart if and only if no id is named twice |
| `DkgInterleavings.InstallsNamed` | cmd/mpc-enclave/src/ipc.rs:498-681 | Under every interleaving the ids behind an installed key package are ids that requests for parts 1, 2 and 3 named |
| `DkgInterleavings.AnyIdsMix` | cmd/mpc-enclave/src/ipc.rs:541-587 | For any three ids there is a schedule in which part 3 of the third installs a key made by part 1 of the first and part 2 of the second |
| `DkgInterleavings.InstallsPureExactlyWhen` | cmd/mpc-enclave/src/ipc.rs:498-681 | Under every interleaving part 3 installs only keys made by parts 1 and 2 of its own id if and only if the requests for the three parts name one id, or some part is never requested |
| `SoloRequests.SoloRequestIsAtomic` | cmd/mpc-enclave/src/ipc.rs:463-957 | A lock-level request that runs without interference ends with the outcome and state of its atomic operation |
| `IntentRuns.LegalWriteProgress` | pkg/wallet/intent.go:177-354 | Every write handlers make keeps the approval invariants and strictly decreases (retries left, status rank, missing approvals) |
| `IntentRuns.StepDecreases` | cmd/wallet-service/main.go:919-1340 | Every handler call leaves a stored intent as it is or strictly decreases its measure; none removes it |
| `IntentRuns.StepKeeps` | cmd/wallet-service/main.go:731-1340 | Every handler call, with any write outcomes, keeps the invariants of the store and of the history |
| `IntentRuns.RunKeeps` | cmd/wallet-service/main.go:731-1340 | The invariants hold after every serialised run of handler calls |
| `IntentRuns.SendsBounded` | cmd/wallet-service/main.go:985-1340 | Broadcast attempts for an intent never exceed RetryCount + 1, which never exceeds MaxRetries + 1 |
| `IntentRuns.SendsJustified` | cmd/wallet-service/main.go:1141-1308 | Every broadcast attempt directly follows a persisted "executing" write of its intent, and no write of "sent", "rejected" or "expired" precedes it |
| `IntentRuns.ApprovalCountsExact` | pkg/wallet/intent.go:177-305 | In every reachable store approvers are distinct and the approval count is exact: R + RetryCount past approval for R > 1, below R (or R + RetryCount - 1 after a retry) in draft, and 1 or 0 for R = 1 |
| `IntentRuns.WritesBounded` | pkg/wallet/intent.go:177-354 | An intent is written at most 5 MaxRetries + RequiredSigs + 6 times in its life |
| `IntentRuns.ExecutingIsStuck` | cmd/wallet-service/main.go:1310-1340 | No handler call changes an intent in "executing" |
| `IntentRuns.StuckForever` | cmd/wallet-service/main.go:985-1340 | Once a call has left an intent in "executing", no continuation of the run changes it |
| `IntentRuns.StuckExactlyWhen` | cmd/wallet-service/main.go:985-1308 | An execution leaves its intent in "executing" if and only if the executing write succeeded and then the send failed on a path that does not record it, or the closing write failed |
| `IntentRuns.StuckExample` | cmd/wallet-service/main.go:1170-1204 | A run that leaves an Ethereum intent in "executing" with no error recorded |
| `IntentRuns.OneApproverAfterRetry` | pkg/wallet/intent.go:266-305 | A run in which a retried two-signature intent is approved again by one new approver |
| `IntentHistory.ExecutionEnds` | cmd/wallet-service/main.go:985-1308 | Where an execution leaves an approved intent, by the outside conditions: sent with its hash if and only if the lock is taken, every condition holds, the executing write, the signer, the send and the closing write succeed; failed exactly in the recorded failures; approvals and retries untouched |
| `IntentHistory.ExecutionSends` | cmd/wallet-service/main.go:985-1308 | An execution broadcasts once if it gets that far, and otherwise not at all |
| `IntentHistory.ExecutionRefused` | cmd/wallet-service/main.go:985-1006 | Only an approved intent is executed; anything else is refused untouched |
| `IntentHistory.RecordedSendIsLast` | cmd/wallet-service/main.go:1108-1123 | After a successful send whose closing write succeeded, every continuation of the run keeps the intent sent with its hash and broadcasts nothing more for it |
| `IntentHistory.ClosedForever` | cmd/wallet-service/main.go:731-1340 | Once sent, rejected or expired, an intent never changes and is never broadcast again |
| `IntentHistory.RejectionEnds` | cmd/wallet-service/main.go:944-983 | A rejection succeeds exactly on a draft or pending intent that can be written, and ends in rejected with the reason |
| `IntentHistory.ApprovalEnds` | pkg/wallet/intent.go:177-206 | An approval succeeds exactly on a draft or pending intent the approver has not approved, is recorded last, and completes the intent at the required number |
| `IntentHistory.RetryEnds` | pkg/wallet/intent.go:266-305 | A retry succeeds exactly on a failed intent with retries left, counts up, clears the error and keeps the approvals |
| `IntentHistory.ExpiryEnds` | pkg/wallet/intent.go:309-354 | An expiry run expires exactly the visited, writable, overdue drafts and approved intents |
| `IntentHistory.ExpiresExactlyWhen` | pkg/wallet/intent.go:309-354 | In every reachable store a visited intent expires if and only if it is a draft or approved and more than its hours (24 by default) have passed since it was created |
| `IntentHistory.CreationEnds` | cmd/wallet-service/main.go:731-850 | When a creation succeeds, and the status and approvals it leaves |
| `IntentHistory.CreationRemembered` | cmd/wallet-service/main.go:731-850 | Every stored intent of a run has the wallet, chain, token, required signatures, retry limit, creation and expiry times that one creation request of the run fixed, with the defaults of 1 signature, 3 retries and 24 hours |
| `IntentHistory.StepRestamps` | pkg/wallet/intent.go:177-354 | Every call leaves an intent alone, or keeps the fields its creation fixed and stamps it with the call's time; a call that names another intent leaves it alone |
| `IntentService.Store.SaveIntent` | pkg/wallet/intent.go:593-605 | A successful write replaces that one intent; a failed one changes nothing |
| `IntentService.Store.ApproveIntent` | pkg/wallet/intent.go:177-206 | Whole new store for every status, repeated approver, and write outcome |
| `IntentService.Store.UpdateIntentStatus` | pkg/wallet/intent.go:209-228 | Whole new store; hash and error are overwritten only by non-empty text |
| `IntentService.Store.RetryIntent` | pkg/wallet/intent.go:266-305 | Whole new store; approvals are kept |
| `IntentService.Store.ExpireIntents` | pkg/wallet/intent.go:309-354 | Whole new store after visiting the files in any order with any write outcomes; the count is the number of successful writes |
| `IntentService.Store.HandleCreateIntent` | cmd/wallet-service/main.go:731-850 | Whole new store for every default, and every combination of failing writes |
| `IntentService.Store.HandleApproveIntent` | cmd/wallet-service/main.go:919-942 | Whole new store; a missing approver is recorded as "unknown" |
| `IntentService.Store.HandleRejectIntent` | cmd/wallet-service/main.go:944-983 | Whole new store; only a draft or pending intent is rejected |
| `IntentService.Store.HandleRetryIntent` | cmd/wallet-service/main.go:1310-1340 | Whole new store; only a failed intent with retries left is retried |
| `IntentService.Store.SendTransaction` | cmd/wallet-service/main.go:1141-1308 | What is recorded after the executing write, per transfer path |
| `IntentService.Store.HandleExecuteIntent` | cmd/wallet-service/main.go:985-1123 | Whole new store of an execution under every outside condition |
| `IntentService.Store.Serve` | cmd/wallet-service/main.go:731-1340 | Every call, served by its handler, gives the store of its step |
| `IntentService.Store.ServeAll` | cmd/wallet-service/main.go:731-1340 | A store that serves any sequence of calls is in the state of that run, so it keeps the invariants; every intent it held is unchanged or has a smaller measure |
| `Base58.AlphabetText` | cmd/wallet-service/main.go:375 | The digit-to-character map is the 58-character alphabet text |
| `Base58.LeadingOnes` | cmd/wallet-service/main.go:374-403 | The output has exactly as many leading '1's as the input has leading zero bytes |
| `Base58.DecodeEncode` | cmd/wallet-service/main.go:374-403 | The standard decoder returns every byte string from its encoding |
| `Base58.EncodeDecode` | cmd/wallet-service/main.go:374-403 | Encoding what a valid text decodes to returns that text |
| `Base58.DecodeInjective` | cmd/wallet-service/main.go:374-403 | Distinct valid texts decode to distinct bytes |
| `Base58.SameNumber` | cmd/wallet-service/main.go:374-403 | The text read in base 58 is the same number as the bytes read in base 256, both most significant digit first |
| `Base58.EncodeExample` | cmd/wallet-service/main.go:374-403 | The encoding of bytes 0, 0, 1, 0 is 115R |
| `Base58.ReverseInPlace` | cmd/wallet-service/main.go:399-401 | The two-index swap loop reverses the buffer |
| `Base58.NumeralOf` | cmd/wallet-service/main.go:387-395 | The division loop yields the base-58 digits, least significant first |
| `Base58.Base58Encode` | cmd/wallet-service/main.go:374-403 | The encoder's loops compute the specified encoding, including the empty input |
| `SolanaWire.CompactRoundTrip` | pkg/blockchain/solana/tx.go:160-182 | Reading an encoded length followed by anything returns the length and the rest |
| `SolanaWire.CompactBytes` | pkg/blockchain/solana/tx.go:160-182 | A length encodes exactly when it is between 0 and 2097151; byte k carries its k-th seven bits and the top bit says that more follow |
| `SolanaWire.CompactMinimal` | pkg/blockchain/solana/tx.go:160-182 | No byte string that reads as a length is shorter than its encoding |
| `SolanaWire.CompactPrefixFree` | pkg/blockchain/solana/tx.go:160-182 | Encodings followed by anything are equal only for equal lengths and equal rests |
| `SolanaWire.SerializeMessage` | pkg/blockchain/solana/tx.go:102-158 | The buffer-appending loops produce the specified bytes, or fail exactly when a part is malformed |
| `SolanaWire.SerializeRoundTrip` | pkg/blockchain/solana/tx.go:102-158 | Parsing a serialised message followed by any suffix returns header, keys, blockhash, instructions and the suffix |
| `SolanaWire.SerializeInjective` | pkg/blockchain/solana/tx.go:102-158 | No two messages share their bytes, whatever follows them |
| `SolanaWire.Key32Means` | pkg/blockchain/solana/tx.go:115-123 | A key is accepted exactly when it is the base58 text of 32 bytes |
| `SolanaWire.MessageLayout` | pkg/blockchain/solana/tx.go:102-158 | The position of every part of a serialised message |
| `SolanaWire.SerializesExactlyWhen` | pkg/blockchain/solana/tx.go:102-158 | A message serialises if and only if keys and blockhash are 32 bytes of base58 and every length is at most 2097151 |
| `SolanaWire.AddSignature` | pkg/blockchain/solana/tx.go:184-207 | Succeeds exactly on 64-byte signatures, with the enclave's broadcast layout |
| `SolanaWire.SerializeWithSignatures` | pkg/blockchain/solana/tx.go:209-233 | Count, signatures and message in order, or failure exactly when one of them is malformed |
| `SolanaWire.OneSignatureLayoutsAgree` | cmd/mpc-enclave/src/ipc.rs:1370-1383 | With one signature, the multi-signature serialiser produces the enclave's broadcast bytes, and fails on any other signature size |
| `SolanaWire.SignedRoundTrip` | pkg/blockchain/solana/tx.go:209-233 | Parsing a signed transaction, with any number of signatures, followed by any suffix returns signatures, message parts and the suffix |
| `SolanaWire.SignedInjective` | pkg/blockchain/solana/tx.go:209-233 | No two signed transactions share their bytes, whatever follows them |
| `SolanaWire.SignedLayout` | pkg/blockchain/solana/tx.go:209-233 | The position of every part of a signed transaction |
| `SolanaWire.TransferBytes` | pkg/blockchain/solana/tx.go:69-158 | All bytes of a native transfer: header 1 0 1, sender, receiver and system program in this order, blockhash, one instruction over accounts 0 and 1 with index 2 and the amount |
| `SolanaWire.TransferReads` | pkg/blockchain/solana/tx.go:69-99 | A reader of the wire finds the sender's key at the debited, signing account, the receiver's at the credited one, the system program, the blockhash, and a transfer of the amount |
| `SolanaWire.TransferDataInjective` | pkg/blockchain/solana/tx.go:93-99 | Distinct 64-bit amounts have distinct instruction data |
| `SolanaWire.TransfersDistinct` | pkg/blockchain/solana/tx.go:69-99 | Transfers with equal bytes agree in sender, receiver, amount and blockhash |
| `SolanaWire.TransferSerializes` | pkg/blockchain/solana/tx.go:69-158 | A transfer serialises if and only if both addresses and the blockhash are 32 bytes of base58 |
| `SolanaWire.SystemProgramKey` | pkg/blockchain/solana/tx.go:69-91 | The system program's address decodes to 32 zero bytes |
| `Listing.StablePermutationIsPermutation` | pkg/wallet/intent.go:536-557 | Keeping the elements of every sort key in order implies being a permutation |
| `Listing.SortedUnique` | pkg/wallet/intent.go:536-557 | There is only one sorted stable permutation of a list |
| `Listing.InsertionSortCorrect` | pkg/wallet/intent.go:536-557 | The reference insertion sort yields a sorted stable permutation |
| `Listing.SortedStableIsInsertionSort` | pkg/wallet/intent.go:536-557 | Every sorted stable permutation is the reference's result |
| `Listing.BubbleSort` | pkg/wallet/intent.go:536-557 | The in-place nested loops leave a sorted stable permutation, in either order and by either time, equal to the reference's result |
| `Listing.ListedCorrect` | pkg/wallet/intent.go:499-557 | The listing is in the requested order, keeps file order among equal times, and holds each intent as often as the files do if it passes the filters and never otherwise |
| `Listing.ListedMembers` | pkg/wallet/intent.go:499-533 | Which intents are listed and how often, by wallet, status, chain and creation times |
| `Listing.ListedOrder` | pkg/wallet/intent.go:536-557 | In what order, by creation or update time, newest first unless asc is asked for |
| `Listing.ListedStable` | pkg/wallet/intent.go:536-557 | Every listed intent is one of the files, no file is listed twice, and equal times keep file order |
| `Listing.ListIntentsFiltered` | pkg/wallet/intent.go:479-572 | The loops return as total the length of that listing and as page its part from the offset on, up to the limit (50 by default) |
| `Listing.ListingDeterministic` | pkg/wallet/intent.go:479-572 | Requests that differ only in offset and limit cut their pages from the same listing, so the total is constant |
| `Listing.PagesCoverList` | pkg/wallet/intent.go:561-569 | The pages at 0, L, 2L, ... put together are exactly the list, for every limit whose sums stay in range |
| `Listing.PagePanicsExactlyWhen` | pkg/wallet/intent.go:561-569 | A page request panics if and only if the offset is negative, or in range with a sum above the largest 64-bit integer |
| `Listing.PagePanicExample` | pkg/wallet/intent.go:561-569 | One intent, offset 1 and the largest limit panic |
| `Quorum.SelectSigners` | pkg/mpc/node/sign_orchestrator.go:145-154 | The first peers in iteration order, as many as the threshold (one for zero), or all if there are fewer |
| `Quorum.Collect` | pkg/mpc/node/sign_orchestrator.go:178-197 | In any completion order the results are exactly the replies of the peers asked |
| `Quorum.ExecuteSignRound1` | pkg/mpc/node/sign_orchestrator.go:156-207 | The replies of the connected signers, if there are at least threshold of them |
| `Quorum.ExecuteSignRound2` | pkg/mpc/node/sign_orchestrator.go:209-261 | The replies of the connected peers with a round-1 result, if there are at least threshold of them |
| `Quorum.SignMessage` | pkg/mpc/node/sign_orchestrator.go:101-131 | For every iteration and completion order the outcome is the one that names neither; every round-1 entry is that peer's first answer and every round-2 entry its second |
| `Quorum.CollectedQuorumIsExact` | pkg/mpc/node/sign_orchestrator.go:101-261 | When both rounds succeed, signers, round-1 responders and round-2 responders are the same threshold-many distinct connected peers, if and only if the threshold is positive or nobody is connected |
| `Quorum.CollectsExactlyWhen` | pkg/mpc/node/sign_orchestrator.go:101-261 | For a positive threshold both rounds succeed if and only if enough peers are connected and every selected one replies twice |
| `Quorum.CollectedPayloads` | pkg/mpc/node/sign_orchestrator.go:101-261 | The collected maps hold each peer's own answer of the round they belong to, and round 2 misses none of them |
| `Quorum.FailureReasons` | pkg/mpc/node/sign_orchestrator.go:101-261 | Too few peers, else a selected peer silent in round 1, else one silent in round 2: which failure is reported |
| `Quorum.AggregationEntries` | pkg/mpc/node/sign_orchestrator.go:263-278 | The aggregating peer gets the quorum's entries plus the coordinator's: threshold + 1 unless the coordinator was selected, and unchanged only if its entry equals the asked peer's |
| `Quorum.ZeroThresholdExample` | pkg/mpc/node/sign_orchestrator.go:145-154 | At threshold zero one peer is selected and both rounds succeed with nobody answering |
| `Quorum.ExtraPartialExample` | pkg/mpc/node/sign_orchestrator.go:263-278 | Two peers with different answers per round sign at threshold two, and the aggregating peer is sent three entries, all of round 2 |
| `SignRetry.ExcludeFailedSigners` | pkg/mpc/node/node.go:540-565 | Removes every occurrence of the first named signer other than the node itself, else the last signer; a single signer stays |
| `SignRetry.ExclusionShrinks` | pkg/mpc/node/node.go:540-565 | The result is a subsequence, shorter exactly when there were two or more signers, and by one when they are distinct |
| `SignRetry.NobodyNamedDropsLast` | pkg/mpc/node/node.go:563-564 | An error that names no other signer drops the last one |
| `SignRetry.FirstNamedDropped` | pkg/mpc/node/node.go:547-561 | The first signer named is dropped, and everybody else kept as often as before |
| `Texts.DecimalMeans` | pkg/mpc/node/node.go:551-551 | Peer numbers are written in decimal, most significant digit first |
| `SignRetry.PrefixTakesTheBlame` | pkg/mpc/node/node.go:547-561 | If an earlier signer's number is a prefix of the failed peer's, the failed peer stays |
| `SignRetry.RemovedExactlyWhenFirstNamed` | pkg/mpc/node/node.go:540-565 | For any error text, a named signer is removed if and only if there are two or more signers and no earlier one is named |
| `SignRetry.MissingPeerRemovedExactlyWhen` | pkg/mpc/node/node.go:540-586 | A peer reported as not found is removed if and only if there are two or more signers and no earlier one, other than the node itself, has a number that is a prefix of its own |
| `SignRetry.WrongPeerExcluded` | pkg/mpc/node/node.go:547-561 | Peer 12 is reported missing and peer 1 is removed |
| `SignRetry.MpcNode.Sign` | pkg/mpc/node/node.go:502-538 | At most three attempts; a signature exactly when the last attempt gave one, and then that one; the last error after three failures; the node's state as it was; and exactly the specified attempts and result |
| `SignRetry.LoopResult` | pkg/mpc/node/node.go:502-538 | The loop starts with the given list, goes on with the exclusion of each failure, and returns the first signature, the last error, or the number of signers that was too small |
| `SignRetry.EveryAttemptGood` | pkg/mpc/node/node.go:502-565 | Every attempt uses a subsequence of the given signers with at least threshold members, distinct if they were, and the next list is shorter exactly when this one has two or more |
| `SignRetry.AttemptsBounded` | pkg/mpc/node/node.go:502-565 | For a threshold of at least two the lists shrink strictly and there are at most min(3, n - t + 1) attempts |
| `SignRetry.ShrinksExactlyWhen` | pkg/mpc/node/node.go:502-565 | For distinct signers the lists shrink in every run if and only if the threshold is at least two, or there are at least three signers, or too few to start |
| `SignRetry.LoneSignerRepeats` | pkg/mpc/node/node.go:502-565 | A lone signer at threshold one is tried three times |

## Left out

- Polynomials.InterpolatesConstantTerm: the repository leaves interpolation to the FROST library; it is defined here from section 4.2 and appendix C.1 of RFC 9591.
- RefreshProtocol.RefreshKeepsSecret: requires every share holder to be a peer that applied every epoch, because the coordinator's own share is not updated and failed applies are only logged; the exact effect of a missed apply is MissedApplyShiftsSecret.
- ShareRefresh.RefreshGenerateEvaluations: requires a threshold of at least one, because the source computes threshold - 1 on an unsigned integer.
- EnclaveRuns.RoundsAtMostOnce: is about serialised operations; under concurrency the guarantee is per session object and per generation call (SigningInterleavings.SignsAtMostOnce), and per derivation input under the condition of NonceDerivation.NoncesDifferExactlyWhen.
- NonceDerivation.NoncesDifferExactlyWhen: compares what nonces are derived from; collisions of the hash that seeds the generator are not modelled.
- SigningInterleavings.EveryScheduleSafe: splits signing and DKG session requests at their lock acquisitions; single-dealer key generation, refresh, initialisation and commitments are one step each.
- IntentRuns.SendsBounded: assumes serialised handlers, as the per-wallet lock is meant to give; the result of LoadOrStore is not consulted by the source and interleaved handlers are not modelled.
- IntentService.Store.SaveIntent: a failed write leaves the stored intent as it was; a truncated file is not modelled.
- Listing.PagesCoverList: covers limits for which list length plus limit stays within 64 bits, or one page holds everything; PagePanicsExactlyWhen describes the rest.
- Base58.DecodeEncode: the decoder used by the transaction builder is a library; the standard decoder is written out here.
- FROST, curve, AES-GCM, Argon2 and SHA internals, and the DKG, sign and aggregate wrappers around them: calls into libraries, modelled as results that may fail.
- Agreement of a node's verifying share with its refreshed signing share: the source copies the old one.
- Enclave fields that only record output: public key package, DKG output, epoch, participants of a DKG session and the completed flags.
- Node-level dispatch of refresh and orchestrator messages, and the JSON encoding between nodes: peers are modelled as direct enclave calls.
- Error texts: outcomes distinguish the branch that failed, not its wording, except where the retry loop reads the text.
- Solana token, Ethereum and ERC-20 transaction building, amount parsing in floating point, fees, balances and transfer limits: only whether they succeed matters to the intent lifecycle.
- Identifier generation: UUIDs are assumed new, so a create never reuses an id.
- gRPC and HTTP plumbing, RPC clients, configuration, CLIs, key and share file encryption, identity and attestation, the policy engine and the user interfaces.
