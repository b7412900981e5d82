/** One `Store` call as a value, so that whole runs of calls can be stated and reasoned about. */
module StoreCalls {
  import opened Models
  import opened Contract = StoreContract

  // Calls are grouped by the part of the state they work on.

  datatype UserCall =
    | CreateUser(input: NewUser, now: Time)
    | CreatePasswordUser(input: NewUser, password: PasswordCredential, now: Time)
    | UserByID(id: string)
    | UserByIdentifier(identifier: string)
    | UserByWebAuthnID(webAuthnID: Bytes)
    | SetUserVerified(userID: string, verified: bool)

  datatype PasswordCall =
    | SetPassword(userID: string, credential: PasswordCredential)
    | Password(userID: string)

  datatype PasskeyCall =
    | SavePasskey(userID: string, credential: PasskeyCredential)
    | Passkeys(userID: string)
    | UpdatePasskey(userID: string, credential: PasskeyCredential, previous: nat)
    | DeletePasskey(userID: string, id: Bytes)

  datatype TOTPCall =
    | SetTOTP(userID: string, credential: TOTPCredential)
    | TOTP(userID: string)
    | DeleteTOTP(userID: string)

  datatype RecoveryCall =
    | SetRecoveryCodes(userID: string, codes: seq<RecoveryCode>)
    | ConsumeRecoveryCode(userID: string, proof: Bytes, now: Time)

  datatype CodeCall =
    | SaveCode(code: OneTimeCode)
    | AttemptCode(id: string, proof: Bytes, now: Time)
    | DeleteCode(id: string)

  datatype SessionCall =
    | CreateSession(session: Session)
    | SessionByID(id: string, now: Time)
    | RevokeSession(id: string)
    | RevokeUserSessions(userID: string)

  datatype Call =
    | OnUsers(user: UserCall)
    | OnPasswords(password: PasswordCall)
    | OnPasskeys(passkey: PasskeyCall)
    | OnTOTP(totp: TOTPCall)
    | OnRecovery(recovery: RecoveryCall)
    | OnCodes(code: CodeCall)
    | OnSessions(session: SessionCall)

  datatype Reply =
    | Done
    | Failed(error: Error)
    | TheUser(user: User)
    | ThePassword(password: PasswordCredential)
    | ThePasskeys(passkeys: seq<PasskeyCredential>)
    | TheTOTP(totp: TOTPCredential)
    | Consumed(matched: bool, failure: Option<Error>)
    | Attempted(attempt: Attempt)
    | TheSession(session: Session)

  function OfUnit(r: Result<()>): Reply { if r.Ok? then Done else Failed(r.error) }
  function OfUser(r: Result<User>): Reply { if r.Ok? then TheUser(r.value) else Failed(r.error) }
  function OfPassword(r: Result<PasswordCredential>): Reply { if r.Ok? then ThePassword(r.value) else Failed(r.error) }
  function OfTOTP(r: Result<TOTPCredential>): Reply { if r.Ok? then TheTOTP(r.value) else Failed(r.error) }
  function OfAttempt(r: Result<Attempt>): Reply { if r.Ok? then Attempted(r.value) else Failed(r.error) }
  function OfSession(r: Result<Session>): Reply { if r.Ok? then TheSession(r.value) else Failed(r.error) }

  function StepUsers<K(==)>(s: State<K>, call: UserCall, key: Bytes -> K): (r: (State<K>, Reply))
    ensures r.0 == s.(users := r.0.users, identifiers := r.0.identifiers,
                      webAuthnIDs := r.0.webAuthnIDs, passwords := r.0.passwords)
  {
    match call
    case CreateUser(input, now) =>
      var (t, r) := Contract.CreateUser(s, input, key(input.webAuthnID), now); (t, OfUser(r))
    case CreatePasswordUser(input, password, now) =>
      var (t, r) := Contract.CreatePasswordUser(s, input, key(input.webAuthnID), password, now); (t, OfUser(r))
    case UserByID(id) => (s, OfUser(Contract.UserByID(s, id)))
    case UserByIdentifier(identifier) => (s, OfUser(Contract.UserByIdentifier(s, identifier)))
    case UserByWebAuthnID(webAuthnID) => (s, OfUser(Contract.UserByWebAuthnID(s, key(webAuthnID))))
    case SetUserVerified(userID, verified) =>
      var (t, r) := Contract.SetUserVerified(s, userID, verified); (t, OfUnit(r))
  }

  function StepPasswords(users: set<string>, passwords: Passwords, call: PasswordCall): (Passwords, Reply) {
    match call
    case SetPassword(userID, credential) =>
      var (t, r) := Contract.SetPassword(users, passwords, userID, credential); (t, OfUnit(r))
    case Password(userID) => (passwords, OfPassword(Contract.Password(passwords, userID)))
  }

  function StepPasskeys(users: set<string>, passkeys: Passkeys, call: PasskeyCall): (Passkeys, Reply) {
    match call
    case SavePasskey(userID, credential) =>
      var (t, r) := Contract.SavePasskey(users, passkeys, userID, credential); (t, OfUnit(r))
    case Passkeys(userID) => (passkeys, ThePasskeys(PasskeysOf(passkeys, userID)))
    case UpdatePasskey(userID, credential, previous) =>
      var (t, r) := Contract.UpdatePasskey(passkeys, userID, credential, previous); (t, OfUnit(r))
    case DeletePasskey(userID, id) =>
      var (t, r) := Contract.DeletePasskey(passkeys, userID, id); (t, OfUnit(r))
  }

  function StepTOTP(users: set<string>, totp: TOTPs, call: TOTPCall): (TOTPs, Reply) {
    match call
    case SetTOTP(userID, credential) =>
      var (t, r) := Contract.SetTOTP(users, totp, userID, credential); (t, OfUnit(r))
    case TOTP(userID) => (totp, OfTOTP(Contract.TOTP(totp, userID)))
    case DeleteTOTP(userID) => (totp - {userID}, Done)
  }

  function StepRecovery(users: set<string>, recovery: Recovery, call: RecoveryCall): (Recovery, Reply) {
    match call
    case SetRecoveryCodes(userID, codes) =>
      var (t, r) := Contract.SetRecoveryCodes(users, recovery, userID, codes); (t, OfUnit(r))
    case ConsumeRecoveryCode(userID, proof, now) =>
      var (t, matched) := Contract.ConsumeRecoveryCode(recovery, userID, proof, now); (t, Consumed(matched, None))
  }

  function StepCodes(codes: Codes, call: CodeCall): (Codes, Reply) {
    match call
    case SaveCode(code) => var (t, r) := Contract.SaveCode(codes, code); (t, OfUnit(r))
    case AttemptCode(id, proof, now) =>
      var (t, r) := Contract.AttemptCode(codes, id, proof, now); (t, OfAttempt(r))
    case DeleteCode(id) => (codes - {id}, Done)
  }

  function StepSessions(sessions: Sessions, call: SessionCall): (Sessions, Reply) {
    match call
    case CreateSession(session) => var (t, r) := Contract.CreateSession(sessions, session); (t, OfUnit(r))
    case SessionByID(id, now) => var (t, r) := Contract.SessionByID(sessions, id, now); (t, OfSession(r))
    case RevokeSession(id) => (sessions - {id}, Done)
    case RevokeUserSessions(userID) => (Contract.RevokeUserSessions(sessions, userID), Done)
  }

  /** What the contract says one call does; `key` turns a WebAuthn id into an index key. */
  function Step<K(==)>(s: State<K>, call: Call, key: Bytes -> K): (State<K>, Reply) {
    match call
    case OnUsers(c) => StepUsers(s, c, key)
    case OnPasswords(c) => var (t, r) := StepPasswords(s.users.Keys, s.passwords, c); (s.(passwords := t), r)
    case OnPasskeys(c) => var (t, r) := StepPasskeys(s.users.Keys, s.passkeys, c); (s.(passkeys := t), r)
    case OnTOTP(c) => var (t, r) := StepTOTP(s.users.Keys, s.totp, c); (s.(totp := t), r)
    case OnRecovery(c) => var (t, r) := StepRecovery(s.users.Keys, s.recovery, c); (s.(recovery := t), r)
    case OnCodes(c) => var (t, r) := StepCodes(s.codes, c); (s.(codes := t), r)
    case OnSessions(c) => var (t, r) := StepSessions(s.sessions, c); (s.(sessions := t), r)
  }

  /** The state after a sequence of calls. */
  function Run<K(==)>(s: State<K>, calls: seq<Call>, key: Bytes -> K): State<K> {
    if calls == [] then s
    else Step(Run(s, calls[..|calls| - 1], key), calls[|calls| - 1], key).0
  }

  /** The memory store indexes WebAuthn ids by their raw bytes. */
  function Raw(id: Bytes): Bytes { id }
}
