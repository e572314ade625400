# go-foundation: protocol proofs

A Dafny model of the parts of go-foundation whose correctness is not visible in any one function: the
idempotency reservation protocol, refresh-token rotation, keyset pagination, the error-detail rewrite and
the stored password format. `dafny verify dfyconfig.toml` checks everything.

| file | models |
|---|---|
| `Prelude.dfy` | shared vocabulary: options, integer time, identifiers, bytes, text, statement faults |
| `ApiError.dfy` | `apierror.Ensure`, the rewrite every error undergoes before it reaches a client |
| `IdempotencyStore.dfy` | the SQL statements on `idempotency_records` as functions on a table, and the store that issues them |
| `IdempotencyProtocol.dfy` | any number of requests through the idempotency and audit interceptors, one statement per step, freely interleaved |
| `IdempotencyInvariant.dfy` | the invariant of every reachable state |
| `IdempotencyTheorems.dfy` | replay fidelity, fencing, frozen results, documented answers, no stuck keys |
| `IdempotencyRefinement.dfy` | exactly when the multi-statement `Acquire` refines an atomic one |
| `IdempotencyAdmission.dfy`, `IdempotencyTiming.dfy` | who may run a handler; exactly-once execution |
| `IdempotencyLimits.dfy` | the timing assumptions are exact: for every choice of bounds, the promise holds if and only if they fit the configuration |
| `IdempotencyAudit.dfy` | one audit attempt per execution; what the client of a replay sees |
| `Sessions.dfy`, `SessionProtocol.dfy` | the session repository; interleaved logins, refreshes, logouts and revocations |
| `Pagination.dfy` | the keyset query, the two list services, and whole walks over their pages |
| `Password.dfy` | unpadded base64, decimal scanning, and the printed password hash |

## How the protocol is modelled

A request of the idempotency protocol is a program counter with the values the interceptor computed for it
(`Req`). One `Action` of one request is one SQL statement, the handler's return, or the audit attempt. A run
(`IsRun`) is any sequence of enabled actions from an empty table: requests interleave at will, each has its
own clock reading, and every statement may succeed, fail without effect, or take effect although its caller
sees an error. Owner tokens name requests, so the history (`log`) says who ran, who was audited and whose
result was stored. `State.clock` is read by no request; only the timing assumptions mention it.

The foreign calls are parameters, and what is assumed of them has a name:

- `IdempotencyProtocol.Invertible`: protobuf marshalling is undone by unmarshalling, and only the zero status has an empty encoding.
- `Prelude.Injective`: SHA-256 does not collide.
- `Enabled` in both protocols: UUIDs and random tokens are new. In the idempotency protocol it also says that handlers return errors with a non-OK code and messages with a name (`Proper`) and that the shared clock does not run backwards.
- Statement isolation, built into both protocols: a statement sees and changes one version of the table. Postgres at READ COMMITTED grants less in one case: the cleanup's `DELETE ... WHERE id IN (SELECT ...)` may wait for a concurrent takeover of a selected row and then delete the refreshed row. That interleaving is not in the model.
- `ValidTiming`: `0 < LockTimeout < TTL`, which the configuration enforces. The invariant, replay fidelity, fencing and progress do not need it.
- `IdempotencyRefinement.ClocksClose`: clock readings of requests that are in `Acquire` together, for the same scope, differ by less than a given gap.
- `IdempotencyTiming.Synced`, `Punctual`: no request's clock is more than a given skew ahead of the shared one; whoever acquired a key lets go of it within a given time of its own reading.
- `Pagination.TokensRoundTrip`: a page token decodes to the cursor it encodes unless the cursor carries the zero time; no token is empty. `Stamped`: rows carry a non-zero time, as both inserts write the current time.
- `Password.HonoursLength`: the key derivation returns as many bytes as it is asked for. `Argon2id` panics for zero iterations or zero parallelism; `Verify` has no answer for a stored string that names them (`Panics`).

## Findings

- `Ensure` is documented to attach an ErrorInfo and the request id to every error. It does so exactly if the request id is valid UTF-8. The id is copied from the caller's `x-request-id` header, and an id that is not valid UTF-8 makes both encoding attempts fail (`EnsureCarriesRequestId`). Likewise the law that a later `Ensure` overrides an earlier one holds for all errors exactly if the later id is valid UTF-8 (`EnsureLastWins`).
- After a failed takeover, `Acquire` answers from the record it reads next without testing again whether that record is stale. `Acquire` is atomic exactly where this does not happen: a step of a run fails to be atomic if and only if it is a second lookup that answers from a row stale by the request's own clock (`AtomicUnlessAstray`). In terms of clocks, every answer is the atomic one at some moment of the call, in all runs whose clocks are less than a gap apart, if and only if the gap is at most the lock timeout (`AtomicityLaw`).
- Exactly-once rests on time. In all runs whose clocks run ahead by at most `skew` and whose holders keep a key for less than `hold`, a key has one holder at a time, from acquiring to settling, and none while its stored result lives, if and only if `skew + hold` is at most the lock timeout and at most the TTL; the same bound is exact for the weaker promise that handlers do not overlap (`LeaseLaw`). So in a valid configuration a handler one instant late, or a clock one instant ahead, is enough for an overlap (`NoSlack`), and the configuration check `LockTimeout < TTL` is needed except at equality (`TtlMustCoverLock`). Whatever the timing, an overlap means that one of the two has lost its reservation (`OverlapMeansLost`), so its result is never stored (`Fencing`).
- A page token for a row with the zero time is issued but refused when it comes back (`TokenRefusedIffUnstamped`).
- The user search passes its text into an ILIKE pattern unescaped. It finds exactly the values that contain the text if and only if the text has no percent sign, underscore or backslash (`SearchIsContainment`).
- `Verify` never looks at the first three parts of the stored string (empty, algorithm, version): whatever they are, its answer is the same (`VerifyIgnoresAlgorithmAndVersion`).

## Model

| member | source | states |
|---|---|---|
| `ApiError.Ensure` | internal/transport/grpc/apierror/error.go:56-110 | the in-place loop over the cloned details computes the specified rewrite, including its encoding failures |
| `ApiError.EnsureConverts` | internal/transport/grpc/apierror/error.go:57-69 | no error stays none; a context error is treated as a status of its code and text, any other plain error as Internal with a fixed text |
| `ApiError.EnsureHidesPlainErrors` | internal/transport/grpc/apierror/error.go:53-68 | the text of a plain error has no influence on what the client is shown |
| `ApiError.EnsureDetailsAre` | internal/transport/grpc/apierror/error.go:70-137 | the result for every status, in plain values: code, message, each detail, the added ErrorInfo with the default reason of the code |
| `ApiError.EnsurePreserves` | internal/transport/grpc/apierror/error.go:56-110 | code and message survive; other details keep place and content; ErrorInfo entries keep everything but the request id |
| `ApiError.EnsureCarriesRequestId` | internal/transport/grpc/apierror/error.go:53-107 | an ErrorInfo is present and all decodable ones carry the request id, if and only if the id is valid UTF-8 |
| `ApiError.EnsureLastWins` | internal/transport/grpc/apierror/error.go:72-109 | Ensure(Ensure(e, r1), r2) = Ensure(e, r2) for all e and r1, if and only if the non-empty r2 is valid UTF-8 |
| `ApiError.EnsureKeepsReason` | internal/transport/grpc/apierror/error.go:73-137 | for every error and request id: the first reason a client reads is the old one; if there was none, the code's default, or none at all if the id does not encode |
| `IdempotencyStatements.CleanupIsInvisible` | internal/infrastructure/persistence/postgres/idempotency_store.go:22-77 | deleting any expired rows first changes neither the disposition nor the resulting row of the scope |
| `IdempotencyStatements.CleanupSparesLiveRows` | internal/infrastructure/persistence/postgres/idempotency_store.go:120-126 | cleanup never removes a row that is unexpired or whose lock is live |
| `IdempotencyStore.SelectExpired` | internal/infrastructure/persistence/postgres/idempotency_store.go:122-125 | picks at most 100 expired rows, none younger than one left behind, and all of them if there are no more |
| `IdempotencyStore.Store.CleanupExpired` | internal/infrastructure/persistence/postgres/idempotency_store.go:120-126 | returns what it removed: at most 100 expired rows, oldest first; after a cleanup below that limit no expired row is left, and no unexpired row is ever touched |
| `IdempotencyStore.Store.FindRecord` | internal/infrastructure/persistence/postgres/idempotency_store.go:105-118 | finds the one row of the scope, if any |
| `IdempotencyStore.Store.Acquire` | internal/infrastructure/persistence/postgres/idempotency_store.go:21-78 | uninterrupted, the statements make the atomic decision on the cleaned table, which with a new id has the disposition of the uncleaned one, and keep one row per scope |
| `IdempotencyStore.Store.Complete` | internal/infrastructure/persistence/postgres/idempotency_store.go:80-95 | succeeds exactly for the owner of an in-progress row, keeps the expiry; otherwise the table is unchanged |
| `IdempotencyStore.Store.Release` | internal/infrastructure/persistence/postgres/idempotency_store.go:97-103 | deletes exactly the owner's in-progress row |
| `IdempotencyProtocol.EncodeReplayRoundTrip` | internal/transport/grpc/interceptor/idempotency.go:163-196 | exactly the messages and statuses that marshal are stored; replaying one gives it back; exactly one of response type and status payload is set |
| `IdempotencyProtocol.UnreadableResultsFail` | internal/transport/grpc/interceptor/idempotency.go:180-196 | a stored result that cannot be read is replayed as an internal error with its own reason |
| `IdempotencyProtocol.StepShape` | internal/infrastructure/persistence/postgres/idempotency_store.go:24-103 | what each step of a request may do to the table, and that it moves no other request |
| `IdempotencyInvariant.StepKeepsGood` | internal/transport/grpc/interceptor/idempotency.go:37-121 | every step of every interleaving keeps the invariant tying rows to the requests whose tokens they bear |
| `IdempotencyInvariant.RunsAreGood` | internal/transport/grpc/interceptor/idempotency.go:37-121 | the invariant holds in every state of every run |
| `IdempotencyTheorems.ReachableTables` | migrations/000006_create_idempotency_records.up.sql:1-18 | one row per scope; in-progress rows have a lock ending before their expiry and no result; completed rows have exactly one result and no lock |
| `IdempotencyTheorems.ReplayFidelity` | internal/transport/grpc/interceptor/idempotency.go:85-119 | a replayed result is what the completing request's handler returned, for the same actor, method, key and body |
| `IdempotencyTheorems.ReplaysAgree` | internal/transport/grpc/interceptor/idempotency.go:85-88 | all replays of one reservation give the same result |
| `IdempotencyTheorems.WhatLosesAReservation` | internal/infrastructure/persistence/postgres/idempotency_store.go:47-60 | a holder loses its row to another request's step exactly by a takeover of that stale row or a cleanup that selects it |
| `IdempotencyTheorems.Fencing` | internal/infrastructure/persistence/postgres/idempotency_store.go:80-103 | once a reservation is lost it stays lost, and the old owner's Complete or Release changes neither table nor history |
| `IdempotencyTheorems.CompletedRowsAreFrozen` | internal/infrastructure/persistence/postgres/idempotency_store.go:47-58 | over any stretch of a run in which no request in Acquire has a clock at or past the expiry, a completed row is unchanged |
| `IdempotencyTheorems.Solo` | internal/infrastructure/persistence/postgres/idempotency_store.go:21-78 | from any state a request's own steps alone realise the atomic decision |
| `IdempotencyTheorems.NoKeyGetsStuck` | internal/infrastructure/persistence/postgres/idempotency_store.go:47-60 | from every reachable state an undisturbed request acquires exactly if no row of its scope is in force |
| `IdempotencyTheorems.SettlingDecidesTheRow` | internal/transport/grpc/interceptor/idempotency.go:104-119 | for every kind of result: a message or lasting error that marshals is stored in the owner's row and replays to itself, a transient code frees the key, anything else leaves the row reserved; the client gets the handler's result in any case |
| `IdempotencyTheorems.HandlersRunThrough` | internal/transport/grpc/interceptor/idempotency.go:103-119 | a handler that runs on a row its request owns, undisturbed, ends with its own answer and with its result settled as that result calls for |
| `IdempotencyTheorems.UnkeyedHandlersRunThrough` | internal/transport/grpc/interceptor/idempotency.go:39-45 | a call without a reservation ends with its handler's answer and never touches the table |
| `IdempotencyTheorems.ReleaseFreesTheScope` | internal/transport/grpc/interceptor/idempotency.go:104-108 | after a failure with one of seven codes, or without a status, an effective release leaves no row for the scope |
| `IdempotencyTheorems.StoreErrorsSurface` | internal/infrastructure/persistence/postgres/idempotency_store.go:40-69 | a statement of Acquire is answered as a store error exactly if it fails, a lookup finds nothing or an insert violates the primary key; a refused one changes nothing |
| `IdempotencyTheorems.CleanupIsBounded` | internal/infrastructure/persistence/postgres/idempotency_store.go:120-126 | a cleanup between any other statements removes at most 100 rows, all expired by its request's clock, oldest first |
| `IdempotencyTheorems.RepeatedRequests` | internal/infrastructure/persistence/postgres/idempotency_store.go:71-77 | while a row is in force: different body, key reused; unfinished, still running; finished, the owner's own result |
| `IdempotencyRefinement.DecisionIsAtomic` | internal/infrastructure/persistence/postgres/idempotency_store.go:24-77 | the statement that ends Acquire without an error is the atomic decision on the table it sees, if and only if it is not a second lookup finding a stale row |
| `IdempotencyRefinement.AtomicUnlessAstray` | internal/infrastructure/persistence/postgres/idempotency_store.go:21-78 | with no clock assumption, a step of a run is a step of the atomic machine or invisible, and an answer is the atomic decision, if and only if the step is not a second lookup answering from a stale row |
| `IdempotencyRefinement.AcquireRefinesAtomic` | internal/infrastructure/persistence/postgres/idempotency_store.go:21-78 | with clocks of one scope closer than the lock timeout and the TTL no step goes astray: every run refines the atomic machine |
| `IdempotencyAdmission.RunsAdmit` | internal/transport/grpc/interceptor/idempotency.go:39-60 | denied calls and malformed keys are rejected; keyed calls run only on a reservation; other calls never touch the store |
| `IdempotencyAdmission.ArrivalDecides` | internal/transport/grpc/interceptor/idempotency.go:37-60 | exactly which calls are refused on arrival, which run without a reservation and which go on to acquire one |
| `IdempotencyTiming.OverlapMeansLost` | internal/transport/grpc/interceptor/idempotency.go:67-119 | with no timing assumption, if two requests for one actor, method and key are both between acquiring and settling, one has lost its reservation |
| `IdempotencyTiming.OneHolderAtATime` | internal/transport/grpc/interceptor/idempotency.go:67-119 | in runs whose skew and hold fit into lock timeout and TTL, no two requests for one actor, method and key are between acquiring and settling at once |
| `IdempotencyTiming.HandlersNeverOverlap` | internal/transport/grpc/interceptor/idempotency.go:67-119 | where a key has one holder at a time, two handler runs for it never overlap |
| `IdempotencyTiming.NothingHoldsWhileAResultLives` | internal/transport/grpc/interceptor/idempotency.go:67-119 | in runs that fit, no request for the same key is between acquiring and settling from the moment a result is stored to its expiry by the fastest clock |
| `IdempotencyLimits.LeaseLaw` | internal/infrastructure/persistence/postgres/idempotency_store.go:47-60 | for all skews and holds: in all runs within these bounds a key has one holder at a time and none while its result lives, if and only if the sum is at most the lock timeout and the TTL; and likewise that handlers never overlap |
| `IdempotencyLimits.TtlMustCoverLock` | internal/infrastructure/config/config.go:119 | with synchronised clocks and punctual handlers execution is exactly-once, and handlers never overlap, if and only if the lock timeout is at most the TTL |
| `IdempotencyLimits.NoSlack` | internal/infrastructure/persistence/postgres/idempotency_store.go:47-60 | in every valid configuration, holding a key one instant too long or reading a clock one instant ahead lets handlers overlap |
| `IdempotencyLimits.ApartClocksBreakAtomicity` | internal/infrastructure/persistence/postgres/idempotency_store.go:62-77 | for every gap above the lock timeout, a run with all clocks of a scope closer than it and every holder punctual, with an answer no atomic decision gives at any moment of the call |
| `IdempotencyLimits.AtomicityLaw` | internal/infrastructure/persistence/postgres/idempotency_store.go:21-78 | for all gaps: every answer of every run with clocks closer than the gap is atomic at some moment of the call, if and only if the gap is at most the lock timeout |
| `IdempotencyAudit.OneExecutionOneAudit` | internal/transport/grpc/interceptor/audit.go:27-109 | an answered request ran at most once and, for the six mutations only, attempted exactly one audit record; the record has the action, resource and related id of the method, the code and first ErrorInfo reason of that run, and the caller's identity and origin; replays, conflicts, rejections and store errors leave no trace |
| `IdempotencyAudit.KeyedMethodsAreAudited` | internal/transport/grpc/interceptor/idempotency.go:123-135 | the methods that take idempotency keys are exactly the six audited ones |
| `IdempotencyAudit.StoresAtMostOnce` | internal/infrastructure/persistence/postgres/idempotency_store.go:80-95 | no owner token stores two results in any run |
| `IdempotencyAudit.AuditConservation` | cmd/server/main.go:126-141 | over every run executions of audited methods equal audit attempts plus those between return and attempt |
| `IdempotencyAudit.ReplayedErrorIsRestamped` | internal/transport/grpc/interceptor/errors.go:10-15 | a replayed error has the code and message the original caller saw; the same reason, exactly unless the stored error has none and just one of the two ids encodes; and the replaying request's id if that is valid UTF-8 |
| `SessionStatements.ListingAgreesWithRefreshing` | internal/infrastructure/persistence/postgres/session_repository.go:34-116 | a session is listed exactly if its current token would be found and rotated |
| `SessionRepository.Repository.Create` | internal/infrastructure/persistence/postgres/session_repository.go:20-32 | inserts unless the id or the token hash is taken |
| `SessionRepository.Repository.FindActiveByTokenHash` | internal/infrastructure/persistence/postgres/session_repository.go:34-52 | finds the unrevoked, unexpired session of the hash |
| `SessionRepository.Repository.RotateToken` | internal/infrastructure/persistence/postgres/session_repository.go:54-68 | compare-and-swap: succeeds exactly if session, old hash, revocation and expiry agree; the old hash is then gone |
| `SessionRepository.Repository.RevokeByTokenHash` | internal/infrastructure/persistence/postgres/session_repository.go:70-76 | afterwards the hash is active at no time |
| `SessionRepository.Repository.Revoke` | internal/infrastructure/persistence/postgres/session_repository.go:78-87 | revokes exactly an unrevoked session of that user, which is then active at no time, and touches no other |
| `SessionRepository.Repository.ListActiveByUser` | internal/infrastructure/persistence/postgres/session_repository.go:89-116 | exactly the user's active sessions, without duplicates, newest first |
| `SessionTheorems.StepKeepsGood` | internal/application/auth/service.go:53-147 | every step of every interleaving keeps the invariant tying rows, token chains and rotations together |
| `SessionTheorems.RotationsAreSingleUse` | internal/infrastructure/persistence/postgres/session_repository.go:54-68 | no two rotations that took effect, acknowledged or not, consumed the same token |
| `SessionTheorems.TokensAreSingleUse` | internal/application/auth/service.go:93-133 | in every run no two successful refreshes presented the same token |
| `SessionTheorems.RefreshSucceeds` | internal/application/auth/service.go:93-133 | from every reachable state, an undisturbed refresh with the last token of a live session is granted a new one, which then opens that session until its end, and the old one opens nothing |
| `SessionTheorems.RefreshRefused` | internal/application/auth/service.go:93-102 | in every reachable state a token is refused at once exactly if it is the last of no live session |
| `SessionTheorems.RotationDecides` | internal/application/auth/service.go:116-133 | what a rotation does and answers in any interleaving: granted exactly if it took effect and was acknowledged, invalid exactly if the session no longer carries the token |
| `SessionTheorems.LosersAreRefused` | internal/application/auth/service.go:124-129 | a request about to rotate with a token that was exchanged meanwhile is told it is invalid and changes nothing |
| `SessionTheorems.LoginOpensASession` | internal/application/auth/service.go:53-83 | an effective login opens a session of that user, found under the new token until now plus the TTL |
| `SessionTheorems.OneLinearChain` | internal/application/auth/service.go:93-133 | a session's tokens form one chain without repetition; each was presented by a request whose rotation took effect and produced the next; only the last can be found |
| `SessionTheorems.LifetimesAreAbsolute` | internal/application/auth/service.go:69-82 | expiry is creation plus TTL after any number of rotations, and every committed rotation precedes it |
| `SessionTheorems.RevocationIsFinal` | internal/infrastructure/persistence/postgres/session_repository.go:54-87 | a revoked row never changes again and no later rotation on it commits |
| `SessionTheorems.RevocationDecides` | internal/application/auth/service.go:145-147 | a revocation touches exactly the named session, if it is the user's and not yet revoked |
| `SessionTheorems.RevocationEndsTheSession` | internal/application/auth/service.go:145-147 | after its user's effective revocation no later state of the run finds the session, by any token at any clock |
| `SessionTheorems.LogoutRevokes` | internal/application/auth/service.go:135-139 | an effective logout leaves the presented token unfindable at every clock, whatever it is; no other session changes, and nothing else shows |
| `SessionTheorems.LogoutKillsTheToken` | internal/application/auth/service.go:135-139 | after an effective logout with a token some session has or had, no later state of the run finds it at any clock |
| `SessionTheorems.ReachableListings` | internal/infrastructure/persistence/postgres/session_repository.go:34-116 | in every reachable state hashes are unique and listing agrees with refreshing |
| `Keyset.ListingIsUnique` | internal/infrastructure/persistence/postgres/audit_repository.go:51-53 | a set of rows has only one strictly descending listing |
| `Keyset.Repository.Insert` | internal/infrastructure/persistence/postgres/audit_repository.go:18-39 | appends unless the primary key is taken |
| `Keyset.Repository.List` | internal/infrastructure/persistence/postgres/audit_repository.go:41-82 | the first rows, up to the limit, of those matching the filter, later time first and higher id first at equal times, all strictly before the cursor |
| `Pagination.ListPage` | internal/application/audit/service.go:37-71 | decodes the token, looks one row ahead, cuts it off and names the last row kept; a page with a successor has exactly the clamped size; malformed tokens and ids that are no UUID are errors |
| `Pagination.ListAuditEvents` | internal/application/audit/service.go:37-71 | the audit service: default 50, maximum 100, four trimmed equality filters |
| `Pagination.AuditFilterMatches` | internal/infrastructure/persistence/postgres/audit_repository.go:47-50 | a row matches exactly if each column with a filter value has that value |
| `Pagination.ListUsers` | internal/application/user/service.go:68-96 | the user service: default 20, maximum 100, a trimmed search in name and email |
| `Pagination.SearchIsContainment` | internal/infrastructure/persistence/postgres/user_repository.go:48 | a search finds exactly the values that contain its text, if and only if the text has no percent sign, underscore or backslash |
| `Pagination.UserFilterMatches` | internal/infrastructure/persistence/postgres/user_repository.go:48 | a plain search matches exactly the users whose name or email contains it, up to case; an empty one matches everybody |
| `Pagination.LikeMeans` | internal/infrastructure/persistence/postgres/user_repository.go:48 | what any other pattern matches: underscores one character, percent signs any stretch, a backslash takes the next character as it is |
| `Pagination.PageCovers` | internal/application/audit/service.go:52-70 | a page holds every candidate down to its last row, and has a token exactly if a candidate is left |
| `Pagination.GrowthIsHarmless` | internal/application/audit/service.go:52-69 | under arbitrary inserts between requests no row is returned twice and an ended walk returned every matching row present at its start |
| `Pagination.WalksAreComplete` | internal/application/user/service.go:68-96 | on a fixed table an ended walk, with any page sizes, is exactly the ordered listing of the matching rows |
| `Pagination.WalksEndOnTime` | internal/application/audit/service.go:38-69 | with one page size an ended walk over n rows has max(1, ceil(n / size)) pages, the size being the default, the one asked for, or 100 |
| `Pagination.WalksTerminate` | internal/application/audit/service.go:64-69 | with any page sizes a walk has at most one page per matching row |
| `Pagination.TokenRefusedIffUnstamped` | internal/application/audit/service.go:78-88 | a token is refused on its return exactly if its row carries the zero time |
| `Base64.RoundTrip` | internal/infrastructure/auth/local/password.go:38-45 | decoding undoes encoding for every byte string |
| `Base64.EncodeIsClean` | internal/infrastructure/auth/local/password.go:26 | an encoding contains no separator and no line break |
| `Base64.EncodeMeans` | internal/infrastructure/auth/local/password.go:26 | an encoding is as short as possible and its groups of four digits denote the groups of three bytes |
| `Base64.DecodeDigitsMeans` | internal/infrastructure/auth/local/password.go:38-45 | exactly the strings of digits not one over a multiple of four decode, to the whole bytes their groups denote |
| `Decimal.ScanPrint` | internal/infrastructure/auth/local/password.go:35 | scanning a printed number gives it back and leaves the rest, exactly if it is in range |
| `Decimal.ScanMeans` | internal/infrastructure/auth/local/password.go:35 | after blanks scanning takes all digits, and fails exactly if there are none or their value is out of range |
| `Password.ParamsRoundTrip` | internal/infrastructure/auth/local/password.go:26-37 | the parameter block parses back exactly if all values are in range |
| `Password.BlockParses` | internal/infrastructure/auth/local/password.go:33-37 | three labelled numbers in range parse, whatever non-digit follows |
| `Password.ParsedIsBlock` | internal/infrastructure/auth/local/password.go:33-37 | whatever parses starts with three labelled numbers in range |
| `Password.PrintSplits` | internal/infrastructure/auth/local/password.go:26-32 | the printed string splits into six parts |
| `Password.PrintParseRoundTrip` | internal/infrastructure/auth/local/password.go:26-45 | parsing recovers salt, digest and parameters exactly |
| `Password.VerifyDecidesTheDigest` | internal/infrastructure/auth/local/password.go:15-48 | a stored password verifies, and any attempt verifies exactly if it has the stored digest |
| `Password.VerifyUsesStoredParameters` | internal/infrastructure/auth/local/password.go:28-48 | an attempt against any printed hash is derived with that hash's own salt, parameters and digest length |
| `Password.VerifyChecksTheParts` | internal/infrastructure/auth/local/password.go:28-48 | for every string of six parts, the answer in terms of the last three |
| `Password.WrongPartsAreMalformed` | internal/infrastructure/auth/local/password.go:29-32 | a string without exactly five separators is malformed |
| `Password.VerifyIgnoresAlgorithmAndVersion` | internal/infrastructure/auth/local/password.go:28-48 | for every string, replacing its first three parts changes no answer |

## Left out

- JWT, OIDC, SHA-256, Argon2id, protobuf and JSON internals: foreign calls, kept as parameters with the assumptions above.
- RBAC storage and policies, request validation, configuration parsing, metrics, logging and server start-up: no algorithm that spans operations. Authorization is a yes-or-no input of a call.
- Generated code, the HTTP gateway and the in-memory repositories: plumbing and test doubles.
- `created_at` and `updated_at` of idempotency records: written but never read. (Sessions and users are listed by creation time, which is modelled.)
- Process crashes: a request may fail at any statement but does not vanish between two of them.
- Deletion of users, which would cascade to their sessions: the repository has no such operation.
- IdempotencyAudit.OneExecutionOneAudit: the audit record's own random id and timestamp are not modelled, being randomness and clock.
- Pagination.ListUsers: lower-casing is a parameter, because the collation belongs to the database.
- SessionRepository.Repository.ListActiveByUser: the order among sessions created at the same instant is left open, as the query leaves it.
