# Verified model of the authentication plugin

A Dafny model of the plugin's authentication state machine, of the two stores beneath it and of the codecs and
arithmetic it depends on, with proofs of the properties the plugin is for. `dafny verify dfyconfig.toml` checks
everything.

## How it is built

- **Stores.** `StoreContract` says what each `Store` operation does to an immutable state, and `StoreCalls` makes one
  call a value so that runs can be quantified over. `MemoryStores.MemoryStore` and `JsonStores.JsonStore` are the two
  implementations as classes with the original fields, loops and early returns; every method is proved to do exactly
  what the contract says. `JsonContract` adds what only the durable store has: a disk image, replaced whole or not at
  all at the end of a call, a failure of that write at any call, and restarts that reload memory from the image.
- **Runs of the stores.** `StoreReads` says what reads answer after writes. `StoreInvariant`, `SessionHistory` and
  `PasskeyCounter` are about any sequence of calls on the memory store; `JsonInvariant`, `CrashSafety`,
  `FailedRevocations`, `DurableCounter` and `Simulation` are about any sequence of calls, failed writes and restarts of
  the durable store. Both stores hold a mutex in every method, so these are also the interleavings of concurrent callers.
- **Slices.** `SliceStores` is the memory store one level down, with byte slices as heap arrays. `SliceCallers` is
  everybody who uses it, keeps every slice passed in or handed out and writes to them at will.
- **Handlers.** `Handlers` gives each HTTP handler as a function on one world of store, challenges and limiter
  buckets; `AuthService.Auth` is the object that runs them step by step against the three in-memory objects, proved to
  compute exactly those functions, for one request and for a sequence of them. `HandlerFrames` says which parts of the
  world each handler may change. `PasswordOutcomes`, `SecondFactorOutcomes`, `PasskeyOutcomes`, `CodeOutcomes`,
  `SessionOutcomes` and `Routes` say for every handler exactly when it succeeds and everything it then stores, in terms
  of the store's maps (`Outcomes`) and not of the handlers' own functions, and carry that over whole runs.
  `Provenance`, `DummyPassword`, `DisabledUsers`, `HandlerInvariant`, `SecondFactorGate`,
  `ChallengeRuns`, `CodeRuns`, `LimitedRuns`, `Eviction`, `Indistinguishable` and `Enrollment` are about whole runs of
  requests with arbitrary cookies, over whatever store the application hands in: any users, with or without passwords,
  verified or disabled, any credentials, sessions and codes. Of that store the theorems ask at most that users, sessions
  and codes are filed under their own ids and users under their identifiers, which any sequence of `Store` calls gives
  (`Provenance.CallsLeaveFiled`); `HandlerInvariant` asks for the whole store invariant and keeps it. In these runs each
  request is one atomic step.
- **Bounded resources, codecs, arithmetic.** `Limiter`, `Challenges`, `Totp`, `Argon2id`, `CodeText`, `RateKeys`,
  `Decimal`, `Base64`, `Base32`, `Rfc4648`, `Bits`, `ClientPasskeys`.

## What is assumed

- HMAC-SHA-1, HMAC-SHA-256, Argon2id and AES-GCM are arbitrary functions. Of them only this is used: a SHA-1 digest has
  20 bytes, a derived key has the length asked for, and opening undoes sealing under the same label.
- Random ids are non-empty, not in use in the store handed in and never drawn twice in a run; statements about single
  calls do not need this. In `FailedRevocations` no session is created under the id of a revoked one.
- No two recovery codes of a user have the same stored proof, where a lemma says so (`Enrollment.DistinctProofs`,
  `Enrollment.DistinctEntries`).
- HMAC has no collisions, only in `CodeText.ProofsAgreeIff`. The WebAuthn library gives a clone warning unless the
  asserted counter is larger than the stored one or both are zero, only in `PasskeyOutcomes.CounterNeverFalls` and
  `PasskeyOutcomes.CounterAcceptedOnce`.
- The clock is set (later than Go's zero time) and does not run backwards, where a lemma says so.
- Options lie in the ranges that `options.go:60-161` accepts, where a lemma needs them; `AuthService.NormalizeOptions`
  and `AuthService.Register` give exactly those. Only where a lemma says so: the hasher verifies the hash it made of the
  dummy text, which `DummyPassword.DefaultHasherVerifiesDummy` proves of the default one.
- A request is an operation with its decoded input, the session id in its cookie or none, an address and a user agent.
  Whether decoding worked, what policies, the messenger, the cookie store, the hasher and the WebAuthn library answered,
  and what was drawn at random are arbitrary inputs of each step.
- Times are whole nanoseconds as unbounded integers; TOTP counters, the modulus and the parsed Argon2id parameters
  carry their 64, 32 and 8 bit widths explicitly.

## Findings

- `limiter.go:23-34`: a window opens with the first request after the last one ended, so an interval as long as the
  window admits at most `2 * limit - 1` requests, one fewer than two full windows (`Limiter.IntervalBound`); the bound
  is reached (`Limiter.BoundIsReached`).
- `handlers_password.go:72`, `handlers_codes.go:31`, `handlers_totp.go:206`: the limiter's key joins address and
  identifier by a colon, which both may contain. Attempts are counted together exactly for the same pair, or when one
  address continues the other with a colon and the other attempt's identifier begins with what continues it
  (`RateKeys.PasswordKeysAgreeIff`, `RateKeys.CodeKeysAgreeIff`, `RateKeys.SecondFactorKeysAgreeIff`);
  `RateKeys.SharedCount` is an input. Identifiers without a colon are always counted apart (`RateKeys.OverlapNeedsColon`).
- `handlers_password.go:81-116`: a user without a password entry, as `Store.CreateUser` makes one, is verified against
  the dummy hash, which `auth.go:28` makes of a fixed text. What a verified login checked is the user's stored password
  exactly if there is an entry (`DummyPassword.VerifiedStoredPasswordIff`). Such a user is logged in exactly if the dummy
  hash verifies the typed text, and the hash of that text is then stored as the user's password exactly if the hasher
  renews the empty hash and can hash (`DummyPassword.LoginWithoutEntryIff`); the default hasher does renew it
  (`DummyPassword.DefaultHasherRenewsNoEntry`). `DummyPassword.DummyTextLogsIn` is an input, and
  `DummyPassword.DummyTextBecomesPassword` says what it leaves behind. Users made by the handlers always have an entry
  (`Provenance.RunKeepsRegistered`, `DummyPassword.DummyOnlyForHandedIn`).
- `memory_store.go:256-266`: an attempt returns the store's own proof slice exactly when the code stays live
  (`SliceCallers.Caller.AttemptCode`); `SliceCallers.AttemptHandsOutStoredProof` is an input. No other slice that
  enters or leaves the user, passkey, TOTP, recovery and code operations is shared.
- `demo/jsonstore/sessions.go:35-51`: a revocation that returned an error has changed memory only. The session comes
  back exactly at a restart that comes before any successful write (`FailedRevocations.SessionReturnsIff`);
  `FailedRevocations.UnpersistedRevocationIsUndone` is such a history. A revocation that returned without error is final
  (`CrashSafety.RevokedUserSessionsNeverReturn`).
- `demo/jsonstore/credentials.go:44-45`: a passkey update whose write failed has changed memory all the same, and the
  stored counter falls exactly at a restart that comes before any successful write
  (`DurableCounter.CounterFallsIff`); `DurableCounter.FailedUpdateIsUndone` is an input. Updates that returned without
  error are not affected (`DurableCounter.AcknowledgedNeverSharePrevious`).
- `handlers_codes.go:113-118`: the verified flag is set on the callee's copy of the user, so the answer to an account
  verification shows the user as now stored exactly if the account was verified already
  (`CodeRuns.VerificationAnswerIsCurrentIff`); `CodeRuns.FirstVerificationAnswersUnverified` is an input.
- `models.go:9`: users returned by the durable store lack their WebAuthn id, which is excluded from JSON. This is the
  only difference from the memory store that a caller can see while writes succeed
  (`JsonContract.UsersLackWebAuthnID`, `Simulation.JsonStoreSimulatesMemoryStore`).

## Model

| member | source | states |
|---|---|---|
| CrashSafety.CodeUsedAtMostOnce | demo/jsonstore/codes.go:21-47 | over every history of calls, failed writes and restarts, a code saved under a fresh id gets at most its maximum of answered comparisons and at most one match |
| CrashSafety.MatchedCodeIsGone | demo/jsonstore/codes.go:33-46 | after a match was answered the code is in neither memory nor image, so no later restart brings it back |
| CrashSafety.AnswerIsPersisted | demo/jsonstore/codes.go:38-46 | an attempt is answered exactly when it compared a live code and its new image was written; an answer means the image already counts it |
| CrashSafety.RecoveryCodeUsedAtMostOnce | demo/jsonstore/credentials.go:99-110 | over every history, a recovery code listed once is reported as used without error at most once between two replacements of its user's set |
| CrashSafety.HistoryKeepsRecoveryInvariant | demo/jsonstore/credentials.go:89-110 | a proof listed at most k times is used at most k times between replacements: uses plus remaining unused entries, in memory and in the image, never exceed k |
| CrashSafety.ZeroTimeUseLeavesCode | demo/jsonstore/credentials.go:103-106 | why a set clock is assumed: a use recorded at Go's zero time leaves the code redeemable |
| CrashSafety.RevokedUserSessionsNeverReturn | demo/jsonstore/sessions.go:42-51 | once revoking a user's sessions returned without error, no lookup after any further calls, failures and restarts finds one of them, unless that very session is created again |
| CrashSafety.RevokedSessionNeverReturns | demo/jsonstore/sessions.go:35-40 | the same for one session id: not found until a session is created under it |
| CrashSafety.StoredOnlyIfCreated | demo/jsonstore/sessions.go:10-33 | whatever follows, a session in memory or image was there at the start or was created since |
| FailedRevocations.SessionReturnsIff | demo/jsonstore/store.go:32-46 | the error return matters: over every history of calls, failed writes and restarts, a session that memory no longer holds comes back at an event if and only if that event is a restart while a removal that was not written is pending, with no successful write or restart since, and it comes back unchanged |
| FailedRevocations.OnlyInImageIffPending | demo/jsonstore/sessions.go:35-51 | the image alone still holds a session exactly while such a removal is pending |
| FailedRevocations.FailedRevocationIsRemoval | demo/jsonstore/sessions.go:35-51 | revoking a session, or all sessions of its user, without being able to write returns an error and is such a removal |
| FailedRevocations.UnpersistedRevocationIsUndone | demo/jsonstore/sessions.go:42-51 | such a history: after a revocation of a user's sessions whose write failed a session of that user is not found, and after calls that write nothing and a restart it is found again until it expires |
| JsonInvariant.RollbackExactIff | demo/jsonstore/users.go:39-49 | undoing a creation gives back the state before it if and only if the new id had no password entry |
| JsonInvariant.FailedCreateChangesNothing | demo/jsonstore/users.go:22-51 | in every reachable model a creation whose write fails leaves memory and image equal to what they were |
| JsonInvariant.CallKeepsModelWellFormed | demo/jsonstore/store.go:88-118 | every call, with its write succeeding or failing, keeps the store invariant in memory and in the image |
| JsonInvariant.ReachableModelIsWellFormed | demo/jsonstore/store.go:32-46 | so the invariant holds in every model reached by calls, failed writes and restarts |
| JsonContract.CallStepShape | demo/jsonstore/store.go:88-118 | a call changes codes, sessions or recovery codes only if it is a call on them, and leaves the image as it was or equal to memory |
| JsonContract.RunFromConcat | demo/jsonstore/store.go:26-46 | histories compose: running one after another is running their concatenation |
| JsonContract.AcknowledgedIsWritten | demo/jsonstore/store.go:88-118 | whatever a call changed and did not report an error for is in the image, so a restart brings it back |
| JsonContract.UsersLackWebAuthnID | models.go:9 | users in the durable store's answers and image have no WebAuthn id and are otherwise the stored ones |
| JsonStores.CreateCallStep | demo/jsonstore/users.go:22-51 | the three outcomes of a creation: conflict without change, user in memory and image, or persistence error with the rollback applied |
| Simulation.JsonStoreSimulatesMemoryStore | demo/jsonstore/store.go:32-46 | when writes succeed, any sequence of calls with restarts anywhere between them gets the memory store's replies, up to the WebAuthn id of returned users |
| Simulation.StepSimulates | demo/jsonstore/users.go:22-111 | each call on agreeing states gives agreeing states and equal replies up to that field |
| Simulation.CreateUserSimulates | demo/jsonstore/users.go:22-38 | the two stores check for conflicts in different orders and by different index keys, yet accept and refuse the same users |
| Simulation.KeyIsInjective | demo/jsonstore/store.go:120-122 | different WebAuthn ids have different index keys |
| StoreInvariant.StepKeepsWellFormed | memory_store.go:31-273 | every operation keeps both indexes in one-to-one correspondence with the users, credentials only for existing users, passkey ids unique across users, and codes and sessions filed under their own ids |
| StoreInvariant.ReachableIsWellFormed | memory_store.go:23-29 | every state reachable from the empty one has the invariant, and each user is indexed by its own WebAuthn id |
| StoreInvariant.StepKeepsIndexedByOwnID | memory_store.go:48-63 | no operation lets the WebAuthn index disagree with the ids stored in users |
| StoreInvariant.DeletePasskeyKeepsUnique | memory_store.go:170-180 | removing by closing the gap keeps passkey ids unique |
| StoreInvariant.UpdatePasskeyKeepsUnique | memory_store.go:155-168 | replacing in place keeps passkey ids unique |
| StoreInvariant.SavePasskeyKeepsUnique | memory_store.go:127-142 | the conflict scan over all users is what keeps passkey ids unique across them |
| StoreReads.CreatedIsFound | memory_store.go:48-63 | a created user is found by id, identifier and WebAuthn id, and nobody else is affected |
| StoreReads.CreationIff | memory_store.go:48-63 | a creation is refused exactly for an empty or used id, identifier or WebAuthn id |
| StoreReads.VerifiedReadsBack | memory_store.go:95-105 | the verified flag reads back as set, the rest of the user as before |
| StoreReads.PasswordReadsBack | memory_store.go:107-115 | a password reads back as set, for existing users only |
| StoreReads.TOTPReadsBack | memory_store.go:182-211 | a TOTP credential reads back as set, until it is deleted |
| StoreReads.SavedPasskeyReadsBack | memory_store.go:127-142 | a saved passkey is the last of its user's and found under its id; it is refused exactly for an unknown user or an id somebody has |
| StoreReads.DeletedPasskeyIsGone | memory_store.go:170-180 | a deleted passkey is gone and all others stay |
| StoreReads.RecoverySetIsReplaced | memory_store.go:211-219 | a recovery set is replaced as a whole, for its user only |
| StoreReads.DeletedCodeIsGone | memory_store.go:269-274 | a deleted code is not found and every other one answers as before |
| SessionHistory.LookupFollowsHistory | memory_session.go:8-48 | under a clock that never runs backwards a lookup finds a session exactly when the history accepted it, nothing later revoked it by id or by user or replaced it, and it has not expired |
| SessionHistory.HistoryAgrees | memory_session.go:18-30 | lazily evicting expired entries never makes the map disagree with the history |
| SessionHistory.RunKeepsSessionHistory | memory_session.go:8-48 | in a run of the whole store the session map is what its own calls alone make of it |
| PasskeyCounter.StepOnCounter | memory_store.go:155-168 | one call against one credential: an update succeeds exactly when it names the stored counter and then stores its credential; every other call leaves the credential as it was |
| PasskeyCounter.UpdateKeepsIDs | memory_store.go:155-168 | updates, failed or not, keep every user's sequence of credential ids, and failed ones change nothing |
| PasskeyCounter.CounterNeverFalls | memory_store.go:155-168 | in the memory store, if every update of a kept credential asks for a larger counter, the stored counter never falls along a run |
| PasskeyCounter.SuccessRaisesCounter | memory_store.go:155-168 | each success replaces exactly the counter it named by a larger one |
| PasskeyCounter.SuccessesNeverSharePrevious | memory_store.go:155-168 | along a run no two successes name the same previous counter |
| DurableCounter.AcknowledgedNeverSharePrevious | demo/jsonstore/credentials.go:34-48 | over every history of calls, failed writes and restarts in which updates ask for larger counters, two updates that returned without error never name the same previous counter: each one's new counter is at most the later one's previous |
| DurableCounter.CounterFallsIff | demo/jsonstore/store.go:32-46 | along such a history the counter falls at an event if and only if that event is a restart while an update whose write failed is pending, with no successful write or restart since |
| DurableCounter.AheadIffUnwritten | demo/jsonstore/credentials.go:44-45 | memory runs ahead of the image exactly while such an update is pending, and the image never runs ahead of memory |
| DurableCounter.FailedUpdateIsUndone | demo/jsonstore/credentials.go:44-45 | an input where it falls: an update whose write fails, then a restart |
| DurableCounter.FailedUpdateChangesMemory | demo/jsonstore/credentials.go:34-48 | a conflict changes nothing, while an update that could not be written returns an error and has changed memory |
| DurableCounter.EventOnCounters | demo/jsonstore/credentials.go:34-48 | what any single event does to the counters in memory and image |
| DurableCounter.AcknowledgedSaveIsKept | demo/jsonstore/credentials.go:11-26 | a save that returned without error puts the credential in memory and image with its counter |
| PasswordOutcomes.RegistrationIff | handlers_password.go:19-59 | 201 exactly for a decoded, allowed and hashed registration with an identifier nobody has and a password of at least the minimum characters and at most 1024 bytes; then exactly the new unverified, enabled user, its two index entries and the hash are stored, and otherwise nothing |
| PasswordOutcomes.LoginIff | handlers_password.go:61-115 | for a login that names a user: 200 with cookie exactly if the user is enabled, the stored hash (or dummy hash without an entry) verifies, limit and policy let it through and a session can be opened; then that session, ending a session lifetime later, and the renewed hash are all that is stored and the answer tells whether a second factor is due; a login not accepted stores nothing |
| PasswordOutcomes.DisabledIsRefused | handlers_password.go:96 | a disabled user is never logged in by a password: no cookie, no change of the store, and within the limit the answer for a wrong password |
| PasswordOutcomes.UnknownIsRefused | handlers_password.go:81-99 | a login that names no user sets no cookie and changes no store |
| PasswordOutcomes.RegisteredLogsIn | handlers_password.go:19-116 | over whole runs: whoever registered logs in at any later step with the same identifier and password while the hash made then is stored, if the hasher verifies its own hash and neither limit nor policy refuses |
| PasswordOutcomes.HandleKeepsUsers | auth.go:45-75 | no handler renames, disables or removes a user or takes an identifier away |
| PasswordOutcomes.ByteLengthOfChar | handlers_password.go:26 | a character counts one to four bytes, at the boundaries of UTF-8 |
| PasswordOutcomes.ByteLengthOfConcat | handlers_password.go:26 | the bytes of a text are those of its parts |
| DisabledUsers.HandleOnlyForEnabled | auth.go:45-75 | every handler: a session is only ever made for an enabled user |
| DisabledUsers.DisabledStaysOut | session.go:38-65 | from when a user is disabled no step of any run makes a session of that user or lets one through |
| SessionOutcomes.ProtectedIff | session.go:67-81 | the protected handler runs exactly for a live session of an enabled user that is not waiting for a second factor, and otherwise the answer is AUTH_REQUIRED |
| SessionOutcomes.ProtectedEffect | session.go:38-65 | it ends an expired session and one of a disabled user, and changes nothing else |
| SessionOutcomes.LogoutEnds | session.go:109-118 | the cookie's session goes and every other one stays, also when the cookie itself cannot be deleted |
| SessionOutcomes.RevokeAllEnds | session.go:132-137 | exactly the user's sessions go; without a user id nothing happens |
| SessionOutcomes.LoggedOutStaysOut | session.go:109-118 | over whole runs: after a logout its cookie names no session again and never gets past a protected handler |
| SessionOutcomes.RevokedStayOut | session.go:132-137 | the same for every session of a user whose sessions were revoked |
| SessionOutcomes.EndedStaysEnded | session.go:14-36 | the same for a session that any step ended |
| Outcomes.LogInIs | session.go:14-36 | a login stores exactly one session, with the drawn id, the user, the level, the current time and an end one session lifetime later, in place of the request's own, or fails and stores none |
| CodeOutcomes.RequestIff | handlers_codes.go:21-77 | 202 exactly for a decoded request of a known purpose within limit and policy; the stored code has the enabled addressee, recipient, purpose, proof, lifetime and attempts, and is kept unless it is for a user and could not be delivered |
| CodeOutcomes.VerificationIff | handlers_codes.go:79-104 | a verification that is not accepted counts its attempt, uses the code up at a match or at its last attempt, and does nothing else |
| CodeOutcomes.CodeLoginIff | handlers_codes.go:108-112 | login codes: 200 exactly for a live code of an enabled user, typed with its proof, when a session can be opened; that session is all that is stored and the code is gone |
| CodeOutcomes.AccountVerificationIff | handlers_codes.go:113-118 | account codes: 200 exactly for such a code, and exactly its user is verified |
| CodeOutcomes.ResetIff | handlers_codes.go:119-129 | reset codes: 200 exactly for such a code and a password within the bounds; then the user's hash is the new one, exactly the user's sessions are gone and all others stay |
| CodeOutcomes.ResetEndsSessions | handlers_codes.go:129 | over whole runs: after a reset no earlier session of its user is found again or gets past a protected handler |
| SecondFactorOutcomes.SetupIff | handlers_totp.go:16-37 | 200 exactly for a full session and a willing policy; the new secret, sealed under the user's label, is stored unconfirmed |
| SecondFactorOutcomes.ConfirmIff | handlers_totp.go:39-69 | 200 exactly for a live session whose unconfirmed credential the code fits and ten drawn codes; the credential is confirmed and the recovery set becomes the proofs of the shown codes |
| SecondFactorOutcomes.TOTPLoginIff | handlers_totp.go:71-105 | 200 exactly for a live password session within its limit, a code that fits the confirmed credential, a willing policy and a session that can be opened, and that MFA session is all that is stored |
| SecondFactorOutcomes.RecoveryLoginSucceeds | handlers_totp.go:107-139 | with an unused code the first such entry is marked and then the MFA session opened if it can be |
| SecondFactorOutcomes.RecoveryLoginFails | handlers_totp.go:107-139 | in no other case does anybody log in or the recovery set change |
| PasskeyOutcomes.BeginLoginIff | handlers_passkey.go:102-114 | a challenge of nobody is issued exactly when one can be, lasting five minutes or as long as the library says |
| PasskeyOutcomes.BeginRegistrationIff | handlers_passkey.go:20-51 | one of the caller is issued exactly for a full session and a known attachment |
| PasskeyOutcomes.FinishRegistrationIff | handlers_passkey.go:70-100 | 204 exactly for a full session, a live challenge of its user, a credential the library vouches for and nobody has, and a willing policy; the whole credential is appended, created now |
| PasskeyOutcomes.FinishLoginIff | handlers_passkey.go:116-161 | 200 exactly for a live login challenge, an asserted credential of an enabled user without clone warning, a willing policy and a session that can be opened; the asserted credential with its new counter is stored in its old place under its old name and creation time; the challenge is used up whatever happens |
| PasskeyOutcomes.StepOnStored | handlers_passkey.go:138-151 | only a login with a stored credential changes it, and stores the asserted counter and flags |
| PasskeyOutcomes.CounterNeverFalls | handlers_passkey.go:138-151 | along every run of the handlers in which the library reports smaller counters as clones, a stored credential stays and its counter never falls |
| PasskeyOutcomes.CounterAcceptedOnce | handlers_passkey.go:138-151 | of two logins of a run with the same credential the later one carries a larger counter, unless both are zero |
| RateKeys.PasswordKeysAgreeIff | handlers_password.go:72 | password attempts are counted together exactly for the same address and identifier, or when one address continues the other with a colon and the other's identifier begins with what continues it |
| RateKeys.SecondFactorKeysAgreeIff | handlers_totp.go:205-216 | the same for second-factor attempts and user ids |
| RateKeys.CodeKeysAgreeIff | handlers_codes.go:31 | the same for code requests, which are always counted apart by purpose |
| RateKeys.OverlapNeedsColon | handlers_password.go:72 | only an identifier with a colon can be counted together with another |
| RateKeys.SharedCount | handlers_password.go:72 | an input: two identifiers from two addresses with one count |
| RateKeys.KindsAreApart | handlers_codes.go:31 | the three kinds of attempt are never counted together |
| Routes.RouteIff | auth.go:45-75 | an operation is answered with 404 exactly while its method is not enabled, and then nothing happens |
| Routes.DefaultsAre | options.go:60-161 | options left at zero become a day, twelve characters, six digits every thirty seconds, ten minutes and five attempts, each only for its enabled method |
| Routes.RangesAre | options.go:60-161 | the accepted ranges in nanoseconds, characters, digits and attempts |
| Routes.DefaultsAreInRange | options.go:60-161 | zero options with a long enough secret and some method are accepted |
| Provenance.HandleEffect | session.go:14-36 | every handler, on any store whose users are filed under their ids and identifiers: a session appears only together with the response's cookie and only for the reason its level requires; all other sessions stay or go, nobody loses a password entry and a new user has one |
| Provenance.EveryLoginIsJustified | session.go:14-36 | in every run, over any such store handed in, a response that sets a cookie follows a password verified against the user's hash or, without an entry, the dummy hash, a second factor on a live password session of the same user, an asserted passkey or a matched login code |
| Provenance.SessionProvenance | session.go:14-36 | in every reachable world each stored session was in the store handed in or traces back to the step that drew its id and was entitled to its user and level |
| Provenance.UpgradeFollowsPassword | handlers_totp.go:71-139 | an MFA session follows a matched TOTP code or a consumed recovery code and a live password session of the same user, which was handed in with the store or issued by an earlier step that verified that user's password |
| Provenance.UpgradeSpendsCookie | session.go:24-26 | after an upgrade the replaced cookie never names a session again |
| Provenance.UpgradesUseDistinctLogins | session.go:24-29 | two upgrades never use the same password session, so MFA sessions map injectively to the password sessions handed in and the password logins |
| Provenance.GoneStaysGone | session.go:14-36 | a session id that was handed in or drawn and is gone never comes back |
| Provenance.RunKeepsRegistered | handlers_password.go:49 | in every run users stay filed under ids and identifiers, nobody loses a password entry, and a user without one was handed in without one |
| Provenance.CallsLeaveFiled | options.go:64 | what the runs ask of the store handed in holds after any sequence of Store calls |
| HandlerInvariant.RunKeepsWellFormed | handlers_password.go:25-116 | over any well-formed store handed in every run keeps the whole store invariant: both indexes, owners of credentials, unique passkey ids, codes and sessions filed |
| HandlerInvariant.HandleKeepsWellFormed | auth.go:45-75 | each handler keeps it |
| HandlerFrames.HandleOnlyWrites | auth.go:45-75 | for every part of the state, the handlers that may change it |
| DummyPassword.VerifiedStoredPasswordIff | handlers_password.go:81-99 | what a verified login checked was the user's stored password if and only if the user has one |
| DummyPassword.DummyOnlyForHandedIn | handlers_password.go:81-99 | in every run only a user handed in without a password entry is ever checked against the dummy hash |
| DummyPassword.UserWithoutPasswordVerifiesIff | handlers_password.go:82-96 | for a user just created without a password entry a login verifies exactly when the dummy hash verifies the typed password |
| DummyPassword.DummyTextLogsIn | auth.go:27-32 | an input where no stored password was verified: the fixed text behind the dummy hash gives an enabled user without a password entry a 200 answer and a password session |
| DummyPassword.LoginWithoutEntryIff | handlers_password.go:81-116 | an enabled user without a password entry is logged in if and only if the dummy hash verifies the typed text; then the text's new hash is stored for the user exactly when the hasher renews the empty hash and can hash, and otherwise nothing is |
| DummyPassword.DummyTextBecomesPassword | handlers_password.go:103-108 | after such a login with the fixed text the same text verifies against the user's own stored hash |
| DummyPassword.DefaultHasherRenewsNoEntry | password.go:61-64 | the default hasher renews the empty hash, which is what a missing entry reads as |
| DummyPassword.DefaultHasherVerifiesDummy | auth.go:28 | the hash the default hasher makes of the fixed text verifies that text, for any in-range parameters and salt |
| SecondFactorGate.CurrentUserIff | session.go:38-65 | a current user is reported if and only if the cookie names a live session of an existing, enabled user that completes authentication |
| SecondFactorGate.RequireUserIff | session.go:67-81 | the protected handler runs exactly then, and sees that session's user, level and time |
| SecondFactorGate.NoPasswordPrincipal | session.go:83-89 | with TOTP enabled, a user with a confirmed credential is never a password-level principal |
| SecondFactorGate.FactorsNeedStrongSession | handlers_totp.go:155-165 | whatever the request, changing a confirmed user's TOTP credential or passkey list, replacing a recovery code or making a used one unused needs a live session of that user above password level |
| SecondFactorGate.FactorsNeedStrongOrigin | handlers_totp.go:16-69 | in every run that session was handed in with the store or traces back to a step entitled to its level |
| Eviction.HandleSame | session.go:120-130 | on worlds that differ only in expired sessions every handler answers the same and leaves worlds that differ only in expired sessions |
| Eviction.SweepsAreInvisible | memory_session.go:24-28 | deleting any expired sessions, handed in or made since, before any steps of any run changes no response: evicted and expired cannot be told apart through the handlers |
| Eviction.CurrentUserSame | session.go:38-65 | the current user is the same for an expired session as for one already evicted |
| ChallengeRuns.SavedPasskeyTookChallenge | handlers_passkey.go:70-100 | every passkey saved for a user used up a live registration challenge issued to that same user by an earlier step, no older than five minutes |
| ChallengeRuns.PasskeyLoginTookChallenge | handlers_passkey.go:116-161 | every passkey session used up a live login challenge issued by an earlier step |
| ChallengeRuns.ChallengeTakenAtMostOnce | challenge.go:29-42 | no two steps of a run take the same challenge |
| ChallengeRuns.ChallengeProvenance | handlers_passkey.go:168-182 | every stored challenge was issued by a begin step, to its kind and user |
| ChallengeRuns.IssuedHasDrawnID | handlers_passkey.go:177-181 | an issued challenge expires within five minutes and not after the library's own expiry |
| ChallengeRuns.TakenWasIssued | handlers_passkey.go:184-197 | a taken challenge was issued earlier for the wanted kind and user and had not expired |
| CodeRuns.CodeSessionWasRequested | handlers_codes.go:79-104 | every code-level session follows a login code of that same user, handed in with the store or requested earlier, typed so that its proof is the stored one, within its lifetime |
| CodeRuns.PasswordChangeIsJustified | handlers_codes.go:106-132 | a step that changes an existing user's password either verified the old one, or the dummy hash if there was none, or used up a reset code of that same user, handed in or requested earlier |
| CodeRuns.CodeMatchesOnce | handlers_codes.go:86-90 | no two steps of a run match the same code |
| CodeRuns.ComparisonsAreBounded | handlers_codes.go:86-90 | in every run a code is compared at most MaxAttempts times, and one that was handed in at most as often as its own limit had left |
| CodeRuns.CodeProvenance | handlers_codes.go:61-62 | every stored code is, attempts aside, one that was handed in or exactly what an earlier request step issued |
| CodeRuns.DeliveredCodeLogsIn | handlers_codes.go:21-104 | a delivered login code, typed with any separators or ASCII case within its lifetime, logs its user in and is used up |
| CodeRuns.VerificationAnswerIsCurrentIff | handlers_codes.go:98-103 | a successful account verification marks exactly the code's user, and its answer shows that user as now stored if and only if the account was verified already |
| CodeRuns.MarkedAnswerIsCurrentIff | handlers_codes.go:113-118 | the same for applying the code alone, for every stored user |
| CodeRuns.FirstVerificationAnswersUnverified | handlers_codes.go:113-118 | an input where they differ, in a store the theorem covers: the first verification stores a verified user and answers with an unverified one |
| LimitedRuns.AttemptsAreBounded | handlers_totp.go:205-216 | in every run of the handlers any stretch as long as a key's window lets through at most 19 password logins, 19 second-factor attempts or 9 code requests under that key |
| LimitedRuns.RunFollowsLimiter | limiter.go:23-34 | the handlers' buckets are those of the limiter after the calls the run made, and requests are refused exactly when the limiter says so |
| LimitedRuns.HandleAsks | handlers_password.go:72-80 | each handler asks the limiter once or never, with the limit and window of its kind, and answers RATE_LIMITED if and only if refused |
| Indistinguishable.ProbesCannotTell | handlers_codes.go:21-77 | any sequence of code requests and non-verifying logins gets the same answers from any two worlds with equal limiter state, whoever is registered or disabled and whatever was delivered |
| Indistinguishable.RequestCodeSame | handlers_codes.go:21-77 | registered, disabled and unknown identifiers are answered alike, delivered or not |
| Indistinguishable.FailedLoginSame | handlers_password.go:61-115 | a login that does not verify is answered alike in any two stores and changes neither |
| Indistinguishable.RejectionIff | handlers_password.go:95-99 | within the limit a login is rejected if and only if it does not verify, so the answer reveals nothing else |
| Enrollment.ConfirmAnswers | handlers_totp.go:39-69 | the confirming handler enables TOTP exactly when the code is the RFC 6238 value of the drawn key at the previous, current or next counter, and otherwise answers INVALID_CODE and changes nothing |
| Enrollment.SetupThenConfirm | handlers_totp.go:16-69 | setup followed by confirming with such a code answers 200 with the ten drawn codes, confirms the credential and leaves every one of the codes redeemable |
| Enrollment.ShownCodeLogsInOnce | handlers_totp.go:107-139 | typing a shown code in any accepted spelling, from a live password session within its limit, logs in at MFA level if and only if that code is still unused, and leaves all other codes as they were |
| Enrollment.RecoveryCodeLogsInOnce | handlers_totp.go:107-139 | two steps of a run that use up recovery codes of the same user, with no enrolment of that user in between, use different codes, whatever the other steps are |
| Enrollment.UsedCodeStaysRefused | handlers_totp.go:107-139 | a shown code that is used is refused by every later step of the run, in every accepted spelling, until its user is enrolled again |
| Enrollment.RunOnlyMarks | memory_store.go:221-232 | between two enrolments of a user no step adds, drops or exchanges a recovery code or makes a used one unused |
| Enrollment.HandleOnlyMarks | handlers_totp.go:48-69 | only a confirmation that shows new codes to this user replaces the set |
| Enrollment.RedeemsIfRemaining | memory_store.go:221-232 | a typed code redeems exactly if it is unused, and then it alone becomes used |
| Enrollment.ConfirmationIsExact | totp.go:39-53 | against the shown secret a code verifies exactly when it is the RFC 6238 value of the drawn key at the previous, current or next counter |
| Enrollment.SetupStoresSecret | handlers_totp.go:16-37 | after setup the stored unconfirmed credential opens to the secret that was shown |
| Enrollment.ShownSecretIsKey | crypto.go:59-65 | the shown secret decodes to exactly the drawn 20 bytes |
| Enrollment.ShownCodeRedeems | handlers_totp.go:185-198 | every shown recovery code, typed with any separators or ASCII case, redeems one entry and leaves the others as they were |
| Enrollment.EnableStoresShownCodes | handlers_totp.go:58-68 | confirming stores the proofs of exactly the codes it shows and keeps the sealed secret |
| Enrollment.StoredProofIs | handlers_totp.go:192-195 | the stored proof is that of the code's 16 base32 characters, unused |
| Limiter.AdmittedIffAmongFirst | limiter.go:23-34 | a request is admitted exactly when it is among the first `limit` of its fixed window, windows being defined by request times alone |
| Limiter.IntervalBound | limiter.go:23-34 | any half-open interval as long as the window admits at most 2 * limit - 1 requests of a key |
| Limiter.BoundIsReached | limiter.go:23-34 | and that many are admitted by some run, so the bound is exact |
| Limiter.OtherKeysUnaffected | limiter.go:26-33 | requests under other keys change neither a key's bucket nor its admissions |
| Limiter.BucketFollowsWindow | limiter.go:27-31 | the stored bucket resets when the reference window ends and counts exactly its requests |
| Limiter.MemoryRateLimiter.Allow | limiter.go:23-34 | the new buckets and the answer are those of the limiter function the lemmas are about |
| Limiter.MemoryRateLimiter.constructor | limiter.go:19-21 | starts without buckets |
| Base64.DecodeEncode | demo/jsonstore/store.go:120-122 | decoding undoes raw base64 encoding for every byte sequence and either alphabet |
| Base64.EncodeInjective | demo/jsonstore/store.go:120-122 | different byte sequences have different texts |
| Base64.EncodeLength | client/passkeys.js:5 | the encoded length is never 1 modulo 4 |
| Base64.StrictDecodeEncode | password.go:94-101 | Go's strict decoder accepts every encoder output and gives the bytes back |
| ClientPasskeys.EncodeBytes | client/passkeys.js:8-13 | the loop over bytes builds the text of the encoding function |
| ClientPasskeys.ClientAgreesWithServer | client/passkeys.js:8-13 | the client's text is exactly the server's raw base64url text |
| ClientPasskeys.ClientRoundTrip | client/passkeys.js:3-13 | decode(encode(b)) is b for every byte sequence, with the padding recomputed from a length that is never 1 modulo 4 |
| Base32.DecodeEncode | crypto.go:59-65 | decoding undoes unpadded base32 encoding for every byte sequence |
| Base32.EncodeLength | crypto.go:59-65 | the length is that of ceil(8n / 5) characters and never one the decoder would cut |
| Rfc4648.Base32Number | crypto.go:59-65 | the text is written in the alphabet of section 6 of RFC 4648, and its digits spell the bytes' number shifted by the fill bits |
| Rfc4648.Base32Only | crypto.go:59-65 | and no other text of that alphabet does |
| Rfc4648.Base64Number | demo/jsonstore/store.go:120-122 | the same for base64 in the standard and the URL alphabet |
| Rfc4648.Base64Only | demo/jsonstore/store.go:120-122 | and no other text does |
| Bits.Regroup | crypto.go:59-65 | regrouping words into smaller groups, zero-filled, and back loses nothing |
| Decimal.ParsePrint | password.go:80 | parsing a printed unsigned 32-bit number gives it back |
| Decimal.PaddedIsLowDigits | totp.go:36 | zero-padded printing of a number below 10^d is its d low decimal digits |
| Totp.GenerateTOTP | totp.go:15-37 | the loop over the modulus and the byte arithmetic compute the code function, with each error case |
| Totp.VerifyTOTP | totp.go:39-53 | the early-returning loop over the window accepts exactly the codes generated one period before, at, or one period after now |
| Totp.VerifyIsExact | totp.go:39-53 | for whole-second periods, from one period after 1970, a code is accepted if and only if it is the RFC value at counter T-1, T or T+1 |
| Totp.CodeIsHOTP | totp.go:28-36 | a printed code is the value of section 5.3 of RFC 4226 digit for digit |
| Totp.Rfc4226Example | totp.go:30-31 | the truncation example of section 5.4 of RFC 4226 gives 872921 |
| Totp.EpochIs | totp.go:24 | seconds are counted from 1970, 1969 Gregorian years after Go's zero time |
| Totp.ModulusIsPowerOfTen | totp.go:32-35 | up to nine digits the 32-bit product never wraps, so the modulus is the power of ten |
| Totp.GenuineCodeParses | totp.go:40-45 | the pre-checks on length and digits never reject a genuine code |
| Totp.CountersAround | totp.go:20-26 | moving the clock by one period moves the counter by exactly one |
| Totp.FromToBigEndian | totp.go:25-27 | the eight message bytes determine the counter |
| Argon2id.ParseArgon2id | password.go:66-108 | the loop over settings computes the parse function, rejecting at the same places |
| Argon2id.NewArgon2idHasher | password.go:36-41 | a hasher is made if and only if all five parameters are within bounds |
| Argon2id.Argon2idHasher.Hash | password.go:43-50 | the encoded hash of the key derived with the hasher's own parameters |
| Argon2id.Argon2idHasher.Verify | password.go:52-59 | an error for what does not parse, otherwise whether the key re-derived with the parsed parameters is the stored one |
| Argon2id.Argon2idHasher.NeedsRehash | password.go:61-64 | true for what does not parse or was made with other parameters |
| Argon2id.ParseEncoded | password.go:49 | for all in-range parameters parsing a printed hash returns exactly the parameters, salt and key printed |
| Argon2id.AcceptedIsInBounds | password.go:102-106 | every accepted string carries parameters a hasher could be built with, and matching lengths |
| Argon2id.VerifyOfHash | password.go:43-59 | a fresh hash verifies its own password, and another password exactly when the derived keys collide |
| Argon2id.HashVerifiesIff | password.go:43-59 | a hash of a password is verified by exactly the texts from which argon2 derives the same key with the same salt, passes, memory, lanes and length |
| Argon2id.EncodedIs | password.go:43-50 | the text of a hash, field by field |
| Argon2id.BoundsAre | password.go:36-41 | the accepted parameters, among them the default ones |
| Argon2id.AcceptedNamesVersion | password.go:66-108 | only texts of six parts that name argon2id and version 19 are accepted |
| Argon2id.RehashIffParamsDiffer | password.go:61-64 | a hasher asks to rehash a fresh hash if and only if it was made with different parameters |
| Argon2id.SettingsRead | password.go:73-92 | the settings are read back as printed, in their printed order |
| Argon2id.SplitJoin | password.go:67 | splitting joined parts gives them back when none holds the separator |
| CodeText.CleanedDisplay | handlers_totp.go:189-195 | cleaning the dashed form of any 10-byte code gives back its 16 base32 characters |
| CodeText.CleanedIgnoresSeparators | crypto.go:52-57 | a hyphen or space inserted anywhere leaves the cleaned code unchanged |
| CodeText.CleanedIgnoresCase | crypto.go:52-57 | so does changing the case of ASCII letters |
| CodeText.RandomNumericCode | crypto.go:67-77 | one digit for each drawn number, in order; cleaning leaves the code as it is |
| CodeText.LabelsAreDistinct | crypto.go:14-18 | labels for TOTP, recovery and one-time codes are jointly injective in kind, user, id and valid purpose, whatever the ids contain |
| CodeText.ProofsAgreeIff | crypto.go:52-57 | if HMAC has no collisions, two proofs agree exactly for the same label and the same cleaned code |
| CodeText.LastColonSplits | handlers_codes.go:138-140 | id and purpose of a label are determined by its text, because no valid purpose holds a colon |
| Challenges.MemoryChallengeStore.constructor | challenge.go:14-16 | starts empty |
| Challenges.MemoryChallengeStore.Put | challenge.go:18-27 | adds the challenge, or refuses an id in use and changes nothing |
| Challenges.MemoryChallengeStore.Take | challenge.go:29-42 | removes the challenge whether or not it expired, and returns it only if live |
| MemoryStores.MemoryStore.constructor | memory_store.go:23-29 | starts in the empty state of the contract |
| MemoryStores.MemoryStore.CreateUser | memory_store.go:48-63 | all three maps gain the user or nothing changes; refused exactly when an id is empty, an index key is taken or the user exists |
| MemoryStores.MemoryStore.CreatePasswordUser | memory_store.go:37-46 | the same together with the password entry |
| MemoryStores.MemoryStore.UserByID | memory_store.go:65-73 | the stored user or not found |
| MemoryStores.MemoryStore.UserByIdentifier | memory_store.go:75-83 | the indexed user, or not found |
| MemoryStores.MemoryStore.UserByWebAuthnID | memory_store.go:85-93 | the user indexed by the raw bytes, or not found |
| MemoryStores.MemoryStore.SetUserVerified | memory_store.go:95-105 | changes only that flag of that user |
| MemoryStores.MemoryStore.SetPassword | memory_store.go:107-115 | replaces the entry of an existing user only |
| MemoryStores.MemoryStore.Password | memory_store.go:117-125 | the entry or not found |
| MemoryStores.MemoryStore.SavePasskey | memory_store.go:127-142 | the scan in arbitrary map order appends the credential exactly when no user has its id |
| MemoryStores.MemoryStore.Passkeys | memory_store.go:144-153 | the loop returns all of the user's credentials in order |
| MemoryStores.MemoryStore.UpdatePasskey | memory_store.go:155-168 | the search replaces the first credential with the id exactly when its counter is the named one |
| MemoryStores.MemoryStore.DeletePasskey | memory_store.go:170-180 | the search removes exactly the first credential with the id and keeps the order of the rest |
| MemoryStores.MemoryStore.SetTOTP | memory_store.go:182-191 | replaces the credential of an existing user only |
| MemoryStores.MemoryStore.TOTP | memory_store.go:193-202 | the credential or not found |
| MemoryStores.MemoryStore.DeleteTOTP | memory_store.go:204-209 | removes that user's entry and no other |
| MemoryStores.MemoryStore.SetRecoveryCodes | memory_store.go:211-219 | replaces the whole set of an existing user only |
| MemoryStores.MemoryStore.ConsumeRecoveryCode | memory_store.go:221-232 | the search marks exactly the first unused entry with the proof, and reports whether there was one |
| MemoryStores.MemoryStore.SaveCode | memory_store.go:234-243 | adds the code, or refuses an id in use |
| MemoryStores.MemoryStore.AttemptCode | memory_store.go:245-267 | expired codes go; otherwise the attempt is counted, and the code goes when it matches or its attempts are used up |
| MemoryStores.MemoryStore.DeleteCode | memory_store.go:269-274 | removes that code and no other |
| MemoryStores.MemoryStore.CreateSession | memory_session.go:8-16 | adds the session, or refuses an id in use |
| MemoryStores.MemoryStore.SessionByID | memory_session.go:18-30 | a live session and no change, or the eviction of an expired one |
| MemoryStores.MemoryStore.RevokeSession | memory_session.go:32-37 | removes that session and no other |
| MemoryStores.MemoryStore.RevokeUserSessions | memory_session.go:39-48 | the deleting loop removes exactly the user's sessions |
| JsonStores.JsonStore.constructor | demo/jsonstore/store.go:48-55 | memory holds the given image or nothing |
| JsonStores.JsonStore.PersistLocked | demo/jsonstore/store.go:88-118 | the image becomes memory without the WebAuthn ids of users, or stays and an error is returned |
| JsonStores.JsonStore.CreateUserLocked | demo/jsonstore/users.go:22-51 | conflict, creation in memory and image, or error with four entries deleted again |
| JsonStores.JsonStore.CreateUser | demo/jsonstore/users.go:10-14 | a creation without a password entry |
| JsonStores.JsonStore.CreatePasswordUser | demo/jsonstore/users.go:16-20 | a creation with one |
| JsonStores.JsonStore.UserByID | demo/jsonstore/users.go:53-61 | the user without its WebAuthn id; memory and image unchanged |
| JsonStores.JsonStore.UserByIdentifier | demo/jsonstore/users.go:63-71 | the indexed user without its WebAuthn id, or not found; memory and image unchanged |
| JsonStores.JsonStore.UserByWebAuthnID | demo/jsonstore/users.go:73-81 | the user under the base64url key, without its WebAuthn id; memory and image unchanged |
| JsonStores.JsonStore.SetUserVerified | demo/jsonstore/users.go:83-93 | memory changes even when the write fails and an error is returned |
| JsonStores.JsonStore.SetPassword | demo/jsonstore/users.go:95-103 | the entry of an existing user changes even when the write fails and an error is returned |
| JsonStores.JsonStore.Password | demo/jsonstore/users.go:105-113 | the entry or not found; nothing changes |
| JsonStores.JsonStore.SavePasskey | demo/jsonstore/credentials.go:11-26 | appends exactly when no user has the id; then the outcome of the write |
| JsonStores.JsonStore.Passkeys | demo/jsonstore/credentials.go:28-32 | the user's credentials in order |
| JsonStores.JsonStore.UpdatePasskey | demo/jsonstore/credentials.go:34-48 | compare and swap on the counter, then the outcome of the write |
| JsonStores.JsonStore.DeletePasskey | demo/jsonstore/credentials.go:50-60 | removes exactly the first credential with the id, then the outcome of the write |
| JsonStores.JsonStore.SetTOTP | demo/jsonstore/credentials.go:62-70 | replaces an existing user's credential, then the outcome of the write |
| JsonStores.JsonStore.TOTP | demo/jsonstore/credentials.go:72-80 | the credential or not found |
| JsonStores.JsonStore.DeleteTOTP | demo/jsonstore/credentials.go:82-87 | removes the entry, then the outcome of the write |
| JsonStores.JsonStore.SetRecoveryCodes | demo/jsonstore/credentials.go:89-97 | replaces an existing user's set, then the outcome of the write |
| JsonStores.JsonStore.ConsumeRecoveryCode | demo/jsonstore/credentials.go:99-110 | the first unused entry is marked; a failed write is reported beside the match |
| JsonStores.JsonStore.SaveCode | demo/jsonstore/codes.go:11-19 | adds a code under a new id, then the outcome of the write |
| JsonStores.JsonStore.AttemptCode | demo/jsonstore/codes.go:21-47 | the counted attempt is answered only if the write worked; expiry is answered in any case |
| JsonStores.JsonStore.DeleteCode | demo/jsonstore/codes.go:49-54 | removes the code, then the outcome of the write |
| JsonStores.JsonStore.CreateSession | demo/jsonstore/sessions.go:10-18 | adds a session under a new id, then the outcome of the write |
| JsonStores.JsonStore.SessionByID | demo/jsonstore/sessions.go:20-33 | a live session without a write; an expired one is evicted whatever the write does |
| JsonStores.JsonStore.RevokeSession | demo/jsonstore/sessions.go:35-40 | removes the session, then the outcome of the write |
| JsonStores.JsonStore.RevokeUserSessions | demo/jsonstore/sessions.go:42-51 | the loop removes exactly the user's sessions, then the outcome of the write |
| JsonStores.Open | demo/jsonstore/store.go:32-46 | an unreadable file gives no store and an error; a missing one gives an empty store, with the error of the first write beside it if that failed; a written image is loaded |
| SliceStores.SliceStore.Insert | memory_store.go:59-63 | the new user holds a fresh copy of the id, and the result another one |
| SliceStores.SliceStore.CreateUser | memory_store.go:48-63 | the contract's creation on the values the slices hold; only fresh slices enter, and the result's slice is fresh and not owned |
| SliceStores.SliceStore.CreatePasswordUser | memory_store.go:37-46 | the same together with the password entry |
| SliceStores.SliceStore.SetUserVerified | memory_store.go:95-105 | changes the flag and takes in no slice |
| SliceStores.SliceStore.SetTOTP | memory_store.go:182-191 | the stored secret is a fresh copy of the argument's value |
| SliceStores.SliceStore.DeleteTOTP | memory_store.go:204-209 | removes the entry and takes in no slice |
| SliceStores.SliceStore.SetRecoveryCodes | memory_store.go:211-219 | the whole recovery map becomes the contract's, with fresh copies of the given proofs |
| SliceStores.SliceStore.ConsumeRecoveryCode | memory_store.go:221-232 | the whole recovery map becomes the contract's, marked in place; no slice enters |
| SliceStores.SliceStore.IsTaken | memory_store.go:133-139 | the scan answers whether any user's credential has these id bytes |
| SliceStores.SliceStore.SavePasskey | memory_store.go:127-142 | the whole passkey map becomes the contract's, with a credential of fresh slices |
| SliceStores.SliceStore.UpdatePasskey | memory_store.go:155-168 | the whole passkey map becomes the contract's; a successful update swaps in fresh copies |
| SliceStores.SliceStore.DeletePasskey | memory_store.go:170-180 | the whole passkey map becomes the contract's and no slice enters |
| SliceStores.SliceStore.SaveCode | memory_store.go:234-243 | the stored proof is a fresh copy |
| SliceStores.SliceStore.DeleteCode | memory_store.go:269-274 | removes the code and takes in no slice |
| SliceStores.SliceStore.UserByID | memory_store.go:65-73 | the result holds the stored value in a fresh slice |
| SliceStores.SliceStore.UserByIdentifier | memory_store.go:75-83 | the contract's user, or its zero user, in a fresh slice |
| SliceStores.SliceStore.UserByWebAuthnID | memory_store.go:85-93 | the same, found by the bytes of the given slice |
| SliceStores.SliceStore.TOTP | memory_store.go:193-202 | the stored credential with its secret in a fresh slice, or not found |
| SliceStores.SliceStore.PasskeyList | memory_store.go:144-153 | the copying loop returns the stored values, all in fresh slices |
| SliceStores.SliceStore.AttemptCode | memory_store.go:245-267 | the contract's attempt with all its outcomes; the entry of a live code keeps its proof slice, which the returned code shares |
| SliceStores.SliceStore.AllKept | memory_clone.go:3-23 | writing to slices the store does not own changes none of its contents |
| SliceStores.ClonePasskey | memory_clone.go:8-14 | four fresh slices with equal contents |
| SliceStores.CloneRecovery | memory_clone.go:16-23 | the filling loop gives equal codes with fresh proof slices |
| SliceCallers.Caller.Scribble | memory_clone.go:3-23 | a write to any slice in callers' hands changes no contents of the store, and callers still hold none of its slices |
| SliceCallers.Caller.ScribbleAll | memory_clone.go:3-23 | nor does any sequence of such writes |
| SliceCallers.Caller.Make | memory_clone.go:3-23 | a slice a caller makes is not the store's |
| SliceCallers.Caller.CreateUser | memory_store.go:48-63 | after any earlier calls and writes the contents become the contract's for the values passed, and neither the passed nor the returned slice is the store's |
| SliceCallers.Caller.CreatePasswordUser | memory_store.go:37-46 | the same for a creation with a password entry, which holds no slice |
| SliceCallers.Caller.SetUserVerified | memory_store.go:95-105 | the contents become the contract's |
| SliceCallers.Caller.SetTOTP | memory_store.go:182-191 | the contents become the contract's, and the passed secret stays the caller's alone |
| SliceCallers.Caller.DeleteTOTP | memory_store.go:204-209 | the contents lose the entry |
| SliceCallers.Caller.SetRecoveryCodes | memory_store.go:211-219 | the contents become the contract's, and the passed proofs stay the caller's alone |
| SliceCallers.Caller.ConsumeRecoveryCode | memory_store.go:221-232 | the contents become the contract's |
| SliceCallers.Caller.SavePasskey | memory_store.go:127-142 | the contents become the contract's, and the four passed slices stay the caller's alone |
| SliceCallers.Caller.UpdatePasskey | memory_store.go:155-168 | the contents become the contract's, and the four slices of the replacing credential stay the caller's alone |
| SliceCallers.Caller.DeletePasskey | memory_store.go:170-180 | the contents become the contract's |
| SliceCallers.Caller.SaveCode | memory_store.go:234-243 | the contents become the contract's, and the passed proof stays the caller's alone |
| SliceCallers.Caller.DeleteCode | memory_store.go:269-274 | the contents lose the code |
| SliceCallers.Caller.AttemptCode | memory_store.go:256-266 | the returned proof slice is the store's own if and only if the attempt neither matched nor used up the attempts |
| SliceCallers.Caller.UserByID | memory_store.go:65-73 | the contract's answer for the contents, in a slice that is not the store's |
| SliceCallers.Caller.UserByIdentifier | memory_store.go:75-83 | the same by identifier |
| SliceCallers.Caller.UserByWebAuthnID | memory_store.go:85-93 | the same by WebAuthn id |
| SliceCallers.Caller.TOTP | memory_store.go:193-202 | the contract's credential for the contents, its secret in a slice that is not the store's |
| SliceCallers.Caller.Passkeys | memory_store.go:144-153 | the contract's credentials for the contents, in slices that are not the store's |
| SliceCallers.CallerOverwritesSlices | memory_store.go:182-202 | whatever is written to the slice that was stored, to one read back and to any others held, the stored secret is answered unchanged |
| SliceCallers.AttemptHandsOutStoredProof | memory_store.go:256-266 | the exception at an input: a write through the proof slice of a live attempt changes the stored proof |
| AuthService.Auth.constructor | auth.go:26 | the service works on the store handed in, as it finds it, with an empty challenge store and limiter |
| AuthService.Auth.CreateSession | session.go:14-36 | the replaced cookie's session goes, the new one is stored; if the cookie cannot be set the new one goes too |
| AuthService.Auth.FinishLogin | handlers_password.go:109-114 | a login answers with the new session's cookie exactly when session and cookie could be made, otherwise with an error |
| AuthService.Auth.CurrentSession | session.go:120-130 | the live session of the cookie; an expired one is evicted |
| AuthService.Auth.SessionCompletesAuthentication | session.go:83-89 | false exactly for a password session of a user with confirmed TOTP while TOTP is enabled |
| AuthService.Auth.User | session.go:38-65 | the user of a complete session; a disabled user's session is revoked |
| AuthService.Auth.RequireUser | session.go:67-81 | the two lookups agree, so the principal is that of the user found first |
| AuthService.Auth.Logout | session.go:109-118 | the cookie's session goes even when the cookie cannot be deleted |
| AuthService.Auth.RevokeAll | session.go:132-137 | removes exactly the user's sessions; an empty id is an error |
| AuthService.Auth.SessionUser | handlers_totp.go:141-153 | user and session of the cookie, refused for a missing or disabled user |
| AuthService.Auth.AuthenticatedSessionUser | handlers_totp.go:155-165 | the same, refused unless the session completes authentication |
| AuthService.Auth.RegisterPassword | handlers_password.go:19-59 | the whole handler, in its order of checks, takes the world where its function says |
| AuthService.Auth.LoginPassword | handlers_password.go:61-115 | the whole handler takes the world where its function says: limiter, lookup, verification, policy, rehash, session |
| AuthService.Auth.VerifiedUser | handlers_password.go:81-99 | verification runs whether or not there is a user, and succeeds exactly for an enabled one |
| AuthService.Auth.Rehash | handlers_password.go:103-108 | renews the entry exactly when the stored hash asks for it and hashing works |
| AuthService.Auth.SetupTOTP | handlers_totp.go:16-37 | replaces the credential by an unconfirmed one holding the sealed secret |
| AuthService.Auth.OpenTOTP | handlers_totp.go:167-183 | the opened secret of a credential in the wanted state, or the answer refusing it |
| AuthService.Auth.ConfirmTOTP | handlers_totp.go:39-69 | confirms and replaces the recovery set only for a valid code of an unconfirmed credential |
| AuthService.Auth.Enable | handlers_totp.go:54-68 | the credential stays confirmed even when the recovery codes cannot be made |
| AuthService.Auth.NewRecoveryCodes | handlers_totp.go:185-198 | the loop shows one dashed code per draw and stores the proof of each |
| AuthService.Auth.BeginSecondFactor | handlers_totp.go:72-82 | a live password session first, then the limiter |
| AuthService.Auth.LoginTOTP | handlers_totp.go:71-105 | an MFA session for a code valid against the confirmed credential |
| AuthService.Auth.LoginRecovery | handlers_totp.go:107-139 | the code is used up before the session is made, and stays used when that fails |
| AuthService.Auth.SavePasskeyChallenge | handlers_passkey.go:168-182 | stores a challenge expiring in five minutes or with the library, whichever is earlier |
| AuthService.Auth.TakeChallenge | handlers_passkey.go:184-197 | uses the challenge up even when kind or user is wrong |
| AuthService.Auth.BeginPasskeyRegistration | handlers_passkey.go:20-51 | issues a challenge to a fully authenticated user for a known attachment |
| AuthService.Auth.FinishPasskeyRegistration | handlers_passkey.go:70-100 | saves the library's credential for the challenge's user |
| AuthService.Auth.BeginPasskeyLogin | handlers_passkey.go:102-114 | issues a challenge to nobody in particular |
| AuthService.Auth.FindAsserted | handlers_passkey.go:122-130 | the enabled user with the asserted handle |
| AuthService.Auth.FindPasskey | handlers_passkey.go:199-210 | the search finds the first credential with the id |
| AuthService.Auth.FinishPasskeyLogin | handlers_passkey.go:116-161 | updates the counter against the one re-read after verification, then makes the session |
| AuthService.Auth.RequestCode | handlers_codes.go:21-77 | the same answer with or without an addressee |
| AuthService.Auth.IssueCode | handlers_codes.go:61-76 | an undeliverable code is deleted again behind the same answer |
| AuthService.Auth.VerifyCode | handlers_codes.go:79-104 | the attempt is counted first; purpose, user and policy are checked only on a match |
| AuthService.Auth.ApplyCode | handlers_codes.go:106-132 | session, verified flag or new password by purpose; the answered user is the one read before |
| AuthService.Auth.Reset | handlers_codes.go:121-129 | a new password ends every session of the user |
| AuthService.Auth.Serve | auth.go:45-75 | one request through the routes of the enabled methods is one step of the handler functions |
| AuthService.Auth.ServeAll | auth.go:45-75 | serving requests one after another over whatever the store held leaves exactly the world of the run the handler lemmas are about, and gives its responses |
| AuthService.NormalizeOptions | options.go:60-161 | the options with defaults if every enabled method is in range, otherwise an error |
| AuthService.Register | auth.go:21-43 | there is a service exactly for a store and options in range whose hasher hashed the dummy text when passwords are enabled; its dummy hash is that one, its store the one given, unchanged, and its world the start of a run |

## Left out

- HTTP and JSON decoding and encoding, routing paths, cookie encryption, redirect targets (`safeNext`) and the otpauth URI: inputs and answers are modelled after decoding and before encoding.
- Observers and audit events: they change no state.
- `RequireLevel`: it compares the level of the cookie's session and nothing else.
- Handlers running concurrently, or over a store whose calls fail: they make several store calls without an outer lock, so every claim about handlers is for requests handled one at a time by the in-memory store.
- Failures of the random source: they end a handler with an internal error before anything is stored, except for recovery codes, whose failure is modelled.
- The WebAuthn library: its verdicts, session data and credential records are arbitrary inputs, and the mapping from its credential type is the identity.
- File-system steps inside `persistLocked`: the image is replaced in one step or not at all.
- Text outside ASCII: upper-casing is modelled for ASCII letters only, and strings that are not valid UTF-8 are not modelled.
- TOTP periods with a fraction of a second: the exactness theorem is for whole seconds, where step and divisor agree; `Totp.VerifyTOTP` itself is for all periods.
- Reuse of a TOTP code inside its window: the code keeps no last counter, so nothing is claimed.
- Passkey logins interleaved inside one another: the expected count is re-read after verification, so the statements about the counter are for requests handled one at a time and for single store calls.
- Printing after parsing Argon2id strings: settings in another order, repeated settings and the narrowing of `p` make it false.
- The base32 decoder's treatment of byte 0xFF and of padding characters: no encoder here produces them.
- Demo pages, styles, browser tests and `demo/main.go`.
- AuthService.Register: base path, relying-party names and origins, TOTP issuer, messenger and session store are not among the modelled options; the challenge store and limiter are always the in-memory ones.
- JsonStores.Open: an image with some maps missing counts as one a store did not write, so `fillMissingMaps` is not part of this model.
- SliceCallers.Caller: passwords and sessions hold no slices, so their operations are not repeated there.
- SliceStores.SliceStore: the outer slices, a user's lists of passkeys and of recovery codes, are values there; only the byte slices inside their elements are heap arrays.
- Store calls that the application makes itself between two requests, other than `RevokeAll`: what it stored before handing the store over is covered, later calls are not steps of a run.
