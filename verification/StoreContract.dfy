/**
 The contract of the `Store` interface, as functions on an immutable state.

 Both `MemoryStore` and the JSON store are verified against these functions. `K` is the key type of the
 WebAuthn index: raw bytes in memory, base64url text in the JSON store.
 */
module StoreContract {
  import opened Models

  type Passwords = map<string, PasswordCredential>
  type Passkeys = map<string, seq<PasskeyCredential>>
  type TOTPs = map<string, TOTPCredential>
  type Recovery = map<string, seq<RecoveryCode>>
  type Codes = map<string, OneTimeCode>
  type Sessions = map<string, Session>

  datatype State<K> = State(
    users: map<string, User>,
    identifiers: map<string, string>,
    webAuthnIDs: map<K, string>,
    passwords: Passwords,
    passkeys: Passkeys,
    totp: TOTPs,
    recovery: Recovery,
    codes: Codes,
    sessions: Sessions)

  function Empty<K>(): State<K> {
    State(map[], map[], map[], map[], map[], map[], map[], map[], map[])
  }

  // ---------------------------------------------------------------- users

  predicate CanCreate<K(==)>(s: State<K>, input: NewUser, key: K) {
    && input.id != "" && input.identifier != "" && input.webAuthnID != []
    && input.id !in s.users
    && input.identifier !in s.identifiers
    && key !in s.webAuthnIDs
  }

  function UserFrom(input: NewUser, now: Time): User {
    User(input.id, input.identifier, input.displayName, input.webAuthnID, false, false, now)
  }

  function CreateUser<K(==)>(s: State<K>, input: NewUser, key: K, now: Time): (State<K>, Result<User>) {
    if CanCreate(s, input, key) then
      (s.(users := s.users[input.id := UserFrom(input, now)],
          identifiers := s.identifiers[input.identifier := input.id],
          webAuthnIDs := s.webAuthnIDs[key := input.id]),
       Ok(UserFrom(input, now)))
    else
      (s, Err(ErrConflict))
  }

  function CreatePasswordUser<K(==)>(
    s: State<K>, input: NewUser, key: K, password: PasswordCredential, now: Time): (State<K>, Result<User>)
  {
    var (created, result) := CreateUser(s, input, key, now);
    if result.Ok? then (created.(passwords := s.passwords[input.id := password]), result)
    else (created, result)
  }

  function UserByID<K>(s: State<K>, id: string): Result<User> {
    if id in s.users then Ok(s.users[id]) else Err(ErrNotFound)
  }

  /** The zero `User` that Go's map lookup yields for a missing key. */
  const NO_USER := User("", "", "", [], false, false, ZERO_TIME)

  function UserOrZero<K>(s: State<K>, id: string): User {
    if id in s.users then s.users[id] else NO_USER
  }

  function UserByIdentifier<K>(s: State<K>, identifier: string): Result<User> {
    if identifier in s.identifiers then Ok(UserOrZero(s, s.identifiers[identifier])) else Err(ErrNotFound)
  }

  function UserByWebAuthnID<K(==)>(s: State<K>, key: K): Result<User> {
    if key in s.webAuthnIDs then Ok(UserOrZero(s, s.webAuthnIDs[key])) else Err(ErrNotFound)
  }

  function SetUserVerified<K>(s: State<K>, userID: string, verified: bool): (State<K>, Result<()>) {
    if userID in s.users then
      (s.(users := s.users[userID := s.users[userID].(verified := verified)]), Ok(()))
    else
      (s, Err(ErrNotFound))
  }

  // The remaining operations work on one part of the state; `users` says which users exist.

  // ---------------------------------------------------------------- passwords

  function SetPassword(users: set<string>, passwords: Passwords, userID: string, credential: PasswordCredential)
    : (Passwords, Result<()>)
  {
    if userID in users then (passwords[userID := credential], Ok(())) else (passwords, Err(ErrNotFound))
  }

  function Password(passwords: Passwords, userID: string): Result<PasswordCredential> {
    if userID in passwords then Ok(passwords[userID]) else Err(ErrNotFound)
  }

  // ---------------------------------------------------------------- passkeys

  /** A user's passkeys; like a Go map of slices, a missing user has none. */
  function PasskeysOf(passkeys: Passkeys, userID: string): seq<PasskeyCredential> {
    if userID in passkeys then passkeys[userID] else []
  }

  /** Position of the first credential with this id, or the length when there is none. */
  function PasskeyIndex(list: seq<PasskeyCredential>, id: Bytes): (i: nat)
    ensures i <= |list|
    ensures forall j :: 0 <= j < i ==> list[j].id != id
    ensures i < |list| ==> list[i].id == id
  {
    if list == [] || list[0].id == id then 0 else 1 + PasskeyIndex(list[1..], id)
  }

  predicate HasPasskey(list: seq<PasskeyCredential>, id: Bytes) {
    exists i :: 0 <= i < |list| && list[i].id == id
  }

  predicate PasskeyTaken(passkeys: Passkeys, id: Bytes) {
    exists u :: u in passkeys && HasPasskey(passkeys[u], id)
  }

  function SavePasskey(users: set<string>, passkeys: Passkeys, userID: string, credential: PasskeyCredential)
    : (Passkeys, Result<()>)
  {
    if userID !in users then (passkeys, Err(ErrNotFound))
    else if PasskeyTaken(passkeys, credential.id) then (passkeys, Err(ErrConflict))
    else (passkeys[userID := PasskeysOf(passkeys, userID) + [credential]], Ok(()))
  }

  function UpdatePasskey(passkeys: Passkeys, userID: string, credential: PasskeyCredential, previous: nat)
    : (Passkeys, Result<()>)
  {
    var list := PasskeysOf(passkeys, userID);
    var i := PasskeyIndex(list, credential.id);
    if i == |list| then (passkeys, Err(ErrNotFound))
    else if list[i].signCount != previous then (passkeys, Err(ErrConflict))
    else (passkeys[userID := list[i := credential]], Ok(()))
  }

  function DeletePasskey(passkeys: Passkeys, userID: string, id: Bytes): (Passkeys, Result<()>) {
    var list := PasskeysOf(passkeys, userID);
    var i := PasskeyIndex(list, id);
    if i == |list| then (passkeys, Err(ErrNotFound))
    else (passkeys[userID := list[..i] + list[i + 1..]], Ok(()))
  }

  // ---------------------------------------------------------------- second factor

  function SetTOTP(users: set<string>, totp: TOTPs, userID: string, credential: TOTPCredential)
    : (TOTPs, Result<()>)
  {
    if userID in users then (totp[userID := credential], Ok(())) else (totp, Err(ErrNotFound))
  }

  function TOTP(totp: TOTPs, userID: string): Result<TOTPCredential> {
    if userID in totp then Ok(totp[userID]) else Err(ErrNotFound)
  }

  function SetRecoveryCodes(users: set<string>, recovery: Recovery, userID: string, codes: seq<RecoveryCode>)
    : (Recovery, Result<()>)
  {
    if userID in users then (recovery[userID := codes], Ok(())) else (recovery, Err(ErrNotFound))
  }

  function RecoveryOf(recovery: Recovery, userID: string): seq<RecoveryCode> {
    if userID in recovery then recovery[userID] else []
  }

  predicate Redeems(code: RecoveryCode, proof: Bytes) {
    code.usedAt == ZERO_TIME && code.proof == proof
  }

  /** Position of the first unused code with this proof, or the length when there is none. */
  function RecoveryIndex(list: seq<RecoveryCode>, proof: Bytes): (i: nat)
    ensures i <= |list|
    ensures forall j :: 0 <= j < i ==> !Redeems(list[j], proof)
    ensures i < |list| ==> Redeems(list[i], proof)
  {
    if list == [] || Redeems(list[0], proof) then 0 else 1 + RecoveryIndex(list[1..], proof)
  }

  function ConsumeRecoveryCode(recovery: Recovery, userID: string, proof: Bytes, now: Time): (Recovery, bool) {
    var list := RecoveryOf(recovery, userID);
    var i := RecoveryIndex(list, proof);
    if i == |list| then (recovery, false)
    else (recovery[userID := list[i := list[i].(usedAt := now)]], true)
  }

  // ---------------------------------------------------------------- one-time codes

  function SaveCode(codes: Codes, code: OneTimeCode): (Codes, Result<()>) {
    if code.id in codes then (codes, Err(ErrConflict)) else (codes[code.id := code], Ok(()))
  }

  /** What an attempt tells its caller once a live code was compared. */
  datatype Attempt = Attempt(code: OneTimeCode, matched: bool, exceeded: bool)

  function AttemptCode(codes: Codes, id: string, proof: Bytes, now: Time): (Codes, Result<Attempt>) {
    if id !in codes then (codes, Err(ErrNotFound))
    else if codes[id].expiresAt <= now then (codes - {id}, Err(ErrExpired))
    else
      var code := codes[id].(attempts := codes[id].attempts + 1);
      var matched := code.proof == proof;
      var spent := code.attempts >= code.maxAttempts;
      (if matched || spent then codes - {id} else codes[id := code],
       Ok(Attempt(code, matched, !matched && spent)))
  }

  // ---------------------------------------------------------------- sessions

  function CreateSession(sessions: Sessions, session: Session): (Sessions, Result<()>) {
    if session.id in sessions then (sessions, Err(ErrConflict)) else (sessions[session.id := session], Ok(()))
  }

  function SessionByID(sessions: Sessions, id: string, now: Time): (Sessions, Result<Session>) {
    if id !in sessions then (sessions, Err(ErrNotFound))
    else if sessions[id].expiresAt <= now then (sessions - {id}, Err(ErrExpired))
    else (sessions, Ok(sessions[id]))
  }

  function RevokeUserSessions(sessions: Sessions, userID: string): Sessions {
    map id | id in sessions && sessions[id].userID != userID :: sessions[id]
  }
}
