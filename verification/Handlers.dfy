/**
 The HTTP handlers as functions on one world: store, challenges and rate-limit buckets. A request carries a
 session id (or none) in its cookie; everything a handler draws or asks from outside arrives in `Env`.
 */
module Handlers {
  import opened Models
  import opened Contract = StoreContract
  import opened Challenges
  import opened CodeText
  import Limiter
  import Totp
  import Base32

  type Store = State<Bytes>

  datatype World = World(store: Store, challenges: ChallengeMap, buckets: Limiter.Buckets)

  /** The cryptographic functions, uninterpreted. */
  datatype Crypto = Crypto(
    hmac: Hmac,
    mac: Totp.Mac,
    seal: (string, Bytes, string) -> Bytes, // label, nonce, plaintext
    open: (string, Bytes) -> Option<string>, // label, ciphertext
    verifyPassword: (string, string) -> Result<bool>, // hash, password
    needsRehash: string -> bool)

  datatype Config = Config(
    crypto: Crypto, secret: Bytes, dummyHash: string, normalize: string -> Option<string>,
    passwordEnabled: bool, minimumLength: int,
    totpEnabled: bool, totp: Totp.TOTPOptions,
    passkeysEnabled: bool,
    codesEnabled: bool, codeLifetime: int, maxAttempts: int,
    sessionLifetime: int)

  /** Opening undoes sealing under the same label. */
  ghost predicate OpensSealed(crypto: Crypto) {
    forall tag, nonce, text :: crypto.open(tag, crypto.seal(tag, nonce, text)) == Some(text)
  }

  const HOUR: int := 60 * MINUTE
  const DAY: int := 24 * HOUR

  /** The options of each enabled method lie in their ranges. */
  predicate InRange(cfg: Config) {
    && |cfg.secret| >= 32
    && (cfg.passwordEnabled || cfg.passkeysEnabled || cfg.codesEnabled)
    && MINUTE <= cfg.sessionLifetime <= 365 * DAY
    && (cfg.passwordEnabled ==> 8 <= cfg.minimumLength <= 128)
    && (cfg.totpEnabled ==> Totp.ValidOptions(cfg.totp))
    && (cfg.codesEnabled ==> MINUTE <= cfg.codeLifetime <= HOUR && 3 <= cfg.maxAttempts <= 10)
  }

  /** What `normalizeOptions` guarantees, and that opening undoes sealing. */
  ghost predicate ValidConfig(cfg: Config) {
    InRange(cfg) && OpensSealed(cfg.crypto)
  }

  /** An option left at zero takes its default. */
  function OrDefault(n: int, default: int): int { if n == 0 then default else n }

  /** The defaults of every enabled method. */
  function WithDefaults(o: Config): Config {
    o.(sessionLifetime := OrDefault(o.sessionLifetime, 24 * HOUR),
       minimumLength := if o.passwordEnabled && o.minimumLength == 0 then 12 else o.minimumLength,
       totp := if !o.totpEnabled then o.totp
               else Totp.TOTPOptions(if o.totp.digits == 0 then 6 else o.totp.digits,
                                     OrDefault(o.totp.period, 30 * SECOND)),
       codeLifetime := if o.codesEnabled then OrDefault(o.codeLifetime, 10 * MINUTE) else o.codeLifetime,
       maxAttempts := if o.codesEnabled then OrDefault(o.maxAttempts, 5) else o.maxAttempts)
  }

  /** The text whose hash a login is checked against when there is no user or no password. */
  const DUMMY_PASSWORD := "dreego-auth-dummy-password"

  datatype Op =
    | RegisterPassword(identifier: string, displayName: string, password: string)
    | LoginPassword(identifier: string, password: string)
    | SetupTOTP
    | ConfirmTOTP(code: string)
    | LoginTOTP(code: string)
    | LoginRecovery(code: string)
    | BeginPasskeyRegistration(attachment: string)
    | FinishPasskeyRegistration(challengeID: string)
    | BeginPasskeyLogin
    | FinishPasskeyLogin(challengeID: string)
    | RequestCode(identifier: string, purpose: string)
    | VerifyCode(id: string, code: string, purpose: string, password: string)
    | Logout
    | Protected // any handler behind RequireUser
    | RevokeAll(userID: string)

  datatype Request = Request(op: Op, cookie: string, ip: string, userAgent: string)

  /** What the authenticator and library report about a discoverable login. */
  datatype Assertion = Assertion(userHandle: Bytes, credential: PasskeyCredential)

  /** Clock, randomness and the answers of policies, hasher, messenger, cookie store and WebAuthn library. */
  datatype Env = Env(
    now: Time, id: string, bytes: Bytes, nonce: Bytes, plainCode: string, recoveryBytes: seq<Bytes>,
    decoded: bool, policy: bool, hashed: Option<string>, cookieSet: bool, delivered: bool,
    payload: Option<Bytes>, libraryExpires: Time,
    registered: Option<PasskeyCredential>, asserted: Option<Assertion>)

  datatype Principal = Principal(userID: string, level: AuthLevel, authenticatedAt: Time)

  datatype Body =
    | NoBody
    | UserBody(user: User)
    | LoginBody(user: User, secondFactorRequired: bool)
    | SecretBody(secret: string)
    | RecoveryBody(codes: seq<string>)
    | ChallengeBody(id: string)
    | CodeBody(id: string, expiresAt: Time)
    | PrincipalBody(principal: Principal) // what the protected handler sees

  /** `cookie` is the session id the response sets, if it sets one. */
  datatype Response = Response(status: nat, code: string, body: Body, cookie: Option<string>)

  function Problem(status: nat, code: string): Response { Response(status, code, NoBody, None) }

  const INTERNAL := Problem(500, "INTERNAL_ERROR")
  const INVALID_REQUEST := Problem(400, "INVALID_REQUEST")
  const AUTH_REQUIRED := Problem(401, "AUTH_REQUIRED")
  const AUTH_DENIED := Problem(403, "AUTH_DENIED")
  const RATE_LIMITED := Problem(429, "RATE_LIMITED")
  const INVALID_CODE := Problem(401, "INVALID_CODE")
  const INVALID_LOGIN := Problem(401, "INVALID_CREDENTIALS")
  const INVALID_CHALLENGE := Problem(401, "INVALID_CHALLENGE")
  const INVALID_PASSKEY := Problem(401, "INVALID_PASSKEY")
  const PASSKEY_CONFLICT := Problem(409, "PASSKEY_CONFLICT")

  // What the limiter counts by: each kind of attempt has its own prefix.

  function PasswordKey(ip: string, identifier: string): string { "password:" + ip + ":" + identifier }

  function SecondFactorKey(ip: string, userID: string): string { "second-factor:" + ip + ":" + userID }

  function CodeKey(ip: string, recipient: string, purpose: string): string {
    "code:" + ip + ":" + recipient + ":" + purpose
  }

  // ------------------------------------------------------------ sessions

  function NewSession(cfg: Config, req: Request, env: Env, user: User, level: AuthLevel): Session {
    Session(env.id, user.id, level, env.now, env.now + cfg.sessionLifetime, env.now, req.userAgent, req.ip)
  }

  /** The sessions after `createSession`, and whether it succeeded. */
  function CreateSessionFor(cfg: Config, sessions: Sessions, req: Request, env: Env, user: User, level: AuthLevel)
    : (Sessions, bool)
  {
    var rotated := if req.cookie != "" then sessions - {req.cookie} else sessions;
    var (created, r) := Contract.CreateSession(rotated, NewSession(cfg, req, env, user, level));
    if r.Err? then (created, false)
    else if !env.cookieSet then (created - {env.id}, false)
    else (created, true)
  }

  /** Finish a login: create the session, set the cookie and answer, or fail. */
  function LogIn(cfg: Config, w: World, req: Request, env: Env, user: User, level: AuthLevel, body: Body)
    : (World, Response)
  {
    var (sessions, ok) := CreateSessionFor(cfg, w.store.sessions, req, env, user, level);
    (w.(store := w.store.(sessions := sessions)),
     if ok then Response(200, "", body, Some(env.id)) else INTERNAL)
  }

  /** `Auth.Session`: the session named by the cookie, if it is live; an expired one is evicted. */
  function CurrentSession(sessions: Sessions, req: Request, env: Env): (Sessions, Option<Session>) {
    if req.cookie == "" then (sessions, None)
    else
      var (t, r) := Contract.SessionByID(sessions, req.cookie, env.now);
      (t, if r.Ok? then Some(r.value) else None)
  }

  /** `sessionCompletesAuthentication`. */
  predicate CompletesAuthentication(cfg: Config, totp: TOTPs, userID: string, session: Session) {
    || session.level != LevelPassword
    || !cfg.totpEnabled
    || userID !in totp
    || !totp[userID].confirmed
  }

  datatype Who = Refused(response: Response) | Known(user: User, session: Session)

  /** `sessionUser`: the live session of the cookie and its user, who must exist and be enabled. */
  function SessionUser(store: Store, req: Request, env: Env): (Store, Who) {
    var (sessions, found) := CurrentSession(store.sessions, req, env);
    var t := store.(sessions := sessions);
    if found.None? then (t, Refused(AUTH_REQUIRED))
    else
      var user := Contract.UserByID(store, found.value.userID);
      if user.Err? || user.value.disabled then (t, Refused(AUTH_REQUIRED)) else (t, Known(user.value, found.value))
  }

  /** `authenticatedSessionUser`: the same, and the session must complete authentication. */
  function AuthenticatedSessionUser(cfg: Config, store: Store, req: Request, env: Env): (Store, Who) {
    var (t, who) := SessionUser(store, req, env);
    if who.Known? && !CompletesAuthentication(cfg, t.totp, who.user.id, who.session) then
      (t, Refused(Problem(401, "SECOND_FACTOR_REQUIRED")))
    else (t, who)
  }

  /** `Auth.User`: the current user, if authentication is complete; a disabled user's session is revoked. */
  function CurrentUser(cfg: Config, store: Store, req: Request, env: Env): (Store, Option<User>) {
    var (sessions, found) := CurrentSession(store.sessions, req, env);
    var t := store.(sessions := sessions);
    if found.None? then (t, None)
    else
      var user := Contract.UserByID(store, found.value.userID);
      if user.Err? then (t, None)
      else if user.value.disabled then (t.(sessions := sessions - {req.cookie}), None)
      else if !CompletesAuthentication(cfg, t.totp, user.value.id, found.value) then (t, None)
      else (t, Some(user.value))
  }

  /** `RequireUser`: next runs only with a current user and a current session. */
  function RequireUser(cfg: Config, w: World, req: Request, env: Env): (World, Response) {
    var (t, user) := CurrentUser(cfg, w.store, req, env);
    if user.None? then (w.(store := t), AUTH_REQUIRED)
    else
      var (sessions, found) := CurrentSession(t.sessions, req, env);
      var u := t.(sessions := sessions);
      if found.None? then (w.(store := u), AUTH_REQUIRED)
      else
        (w.(store := u),
         Response(200, "", PrincipalBody(Principal(user.value.id, found.value.level, found.value.authenticatedAt)),
                  None))
  }

  function LogoutStep(w: World, req: Request, env: Env): (World, Response) {
    var sessions := if req.cookie != "" then w.store.sessions - {req.cookie} else w.store.sessions;
    (w.(store := w.store.(sessions := sessions)), if env.cookieSet then Problem(204, "") else INTERNAL)
  }

  /** `RevokeAll`, called by the application. */
  function RevokeAllStep(w: World, userID: string): (World, Response) {
    if userID == "" then (w, INTERNAL)
    else (w.(store := w.store.(sessions := Contract.RevokeUserSessions(w.store.sessions, userID))), Problem(204, ""))
  }

  // ------------------------------------------------------------ passwords

  /** Bytes of a string in UTF-8; `|s|` counts its runes. */
  function ByteLength(s: string): (n: nat)
    ensures n >= |s|
  {
    if s == [] then 0
    else
      (if s[0] < 128 as char then 1 else if s[0] < 2048 as char then 2 else if s[0] < 65536 as char then 3 else 4)
      + ByteLength(s[1..])
  }

  predicate AcceptablePassword(cfg: Config, password: string) {
    |password| >= cfg.minimumLength && ByteLength(password) <= 1024
  }

  function RegisterPasswordStep(
    cfg: Config, w: World, env: Env, identifier: string, displayName: string, password: string): (World, Response)
  {
    var normalized := cfg.normalize(identifier);
    if !env.decoded then (w, INVALID_REQUEST)
    else if normalized.None? || !AcceptablePassword(cfg, password) then (w, Problem(422, "INVALID_REGISTRATION"))
    else if !env.policy then (w, AUTH_DENIED)
    else if env.hashed.None? then (w, INTERNAL)
    else
      var input := NewUser(env.id, normalized.value, displayName, env.bytes);
      var (t, r) := Contract.CreatePasswordUser(
        w.store, input, env.bytes, PasswordCredential(env.hashed.value, env.now), env.now);
      (w.(store := t),
       if r.Err? then Problem(409, "REGISTRATION_FAILED") else Response(201, "", UserBody(r.value), None))
  }

  /** The hash a login is checked against: the user's own, or the dummy when there is none. */
  function HashFor(cfg: Config, store: Store, user: Result<User>): string {
    if user.Ok? && user.value.id in store.passwords then store.passwords[user.value.id].hash else cfg.dummyHash
  }

  predicate Verifies(cfg: Config, store: Store, identifier: string, password: string) {
    var user := Contract.UserByIdentifier(store, identifier);
    && user.Ok? && !user.value.disabled
    && cfg.crypto.verifyPassword(HashFor(cfg, store, user), password) == Ok(true)
  }

  /** A successful login renews a hash made with other parameters, if hashing works. */
  function Rehashed(cfg: Config, store: Store, env: Env, userID: string): Passwords {
    var stored := Contract.Password(store.passwords, userID);
    var hash := if stored.Ok? then stored.value.hash else "";
    if cfg.crypto.needsRehash(hash) && env.hashed.Some? then
      Contract.SetPassword(store.users.Keys, store.passwords, userID, PasswordCredential(env.hashed.value, env.now)).0
    else store.passwords
  }

  predicate ConfirmedTOTP(totp: TOTPs, userID: string) {
    userID in totp && totp[userID].confirmed
  }

  function LoginPasswordStep(
    cfg: Config, w: World, req: Request, env: Env, identifier: string, password: string): (World, Response)
  {
    var normalized := cfg.normalize(identifier);
    if !env.decoded then (w, INVALID_REQUEST)
    else if normalized.None? || ByteLength(password) > 1024 then (w, INVALID_LOGIN)
    else
      var (buckets, allowed) := Limiter.AllowRequest(
        w.buckets, PasswordKey(req.ip, normalized.value), 10, 15 * MINUTE, env.now);
      var v := w.(buckets := buckets);
      if !allowed then (v, RATE_LIMITED)
      else if !Verifies(cfg, w.store, normalized.value, password) then (v, INVALID_LOGIN)
      else if !env.policy then (v, AUTH_DENIED)
      else
        var user := Contract.UserByIdentifier(w.store, normalized.value).value;
        var store := w.store.(passwords := Rehashed(cfg, w.store, env, user.id));
        LogIn(cfg, v.(store := store), req, env, user, LevelPassword,
              LoginBody(user, ConfirmedTOTP(store.totp, user.id)))
  }

  // ------------------------------------------------------------ TOTP and recovery codes

  function SetupTOTPStep(cfg: Config, w: World, req: Request, env: Env): (World, Response) {
    var (t, who) := AuthenticatedSessionUser(cfg, w.store, req, env);
    var v := w.(store := t);
    if who.Refused? then (v, who.response)
    else if !env.policy then (v, AUTH_DENIED)
    else
      var secret := Base32.Encode(env.bytes);
      var sealed := cfg.crypto.seal(LabelText(TOTPLabel(who.user.id)), env.nonce, secret);
      var (totp, r) := Contract.SetTOTP(t.users.Keys, t.totp, who.user.id, TOTPCredential(sealed, false, env.now));
      if r.Err? then (v, INTERNAL)
      else (w.(store := t.(totp := totp)), Response(200, "", SecretBody(secret), None))
  }

  /** `totpCredential`: the stored credential in the wanted state, with its secret opened. */
  function TOTPSecret(cfg: Config, totp: TOTPs, userID: string, confirmed: bool): Option<string> {
    if userID !in totp || totp[userID].confirmed != confirmed then None
    else cfg.crypto.open(LabelText(TOTPLabel(userID)), totp[userID].encryptedSecret)
  }

  function TOTPProblem(totp: TOTPs, userID: string, confirmed: bool): Response {
    if userID !in totp || totp[userID].confirmed != confirmed then Problem(409, "TOTP_UNAVAILABLE") else INTERNAL
  }

  predicate VerifiesTOTP(cfg: Config, secret: string, code: string, now: Time) {
    Totp.Modulus(cfg.totp.digits) != 0 && Totp.Verify(cfg.crypto.mac, secret, code, now, cfg.totp)
  }

  /** The codes `newRecoveryCodes` shows, one for each drawn 10-byte value. */
  function RecoveryTexts(drawn: seq<Bytes>): (codes: seq<string>)
    requires forall i :: 0 <= i < |drawn| ==> |drawn[i]| == 10
    ensures |codes| == |drawn|
  {
    seq(|drawn|, i requires 0 <= i < |drawn| =>
      Base32.EncodeLength(drawn[i]);
      Display(ToUpper(Base32.Encode(drawn[i]))))
  }

  function RecoveryProof(cfg: Config, userID: string, code: string): Bytes {
    CodeProof(cfg.crypto.hmac, cfg.secret, LabelText(RecoveryLabel(userID)), code)
  }

  /** And the proofs it stores for them, all unused. */
  function RecoveryProofs(cfg: Config, userID: string, codes: seq<string>): (stored: seq<RecoveryCode>)
    ensures |stored| == |codes|
  {
    seq(|codes|, i requires 0 <= i < |codes| => RecoveryCode(RecoveryProof(cfg, userID, codes[i]), ZERO_TIME))
  }

  predicate DrewRecoveryCodes(env: Env) {
    |env.recoveryBytes| == 10 && forall i :: 0 <= i < 10 ==> |env.recoveryBytes[i]| == 10
  }

  function ConfirmTOTPStep(cfg: Config, w: World, req: Request, env: Env, code: string): (World, Response) {
    var (t, who) := SessionUser(w.store, req, env);
    var v := w.(store := t);
    if who.Refused? then (v, who.response)
    else if !env.decoded then (v, INVALID_REQUEST)
    else
      var secret := TOTPSecret(cfg, t.totp, who.user.id, false);
      if secret.None? then (v, TOTPProblem(t.totp, who.user.id, false))
      else if !VerifiesTOTP(cfg, secret.value, code, env.now) then (v, INVALID_CODE)
      else EnableTOTP(cfg, v, env, who.user.id)
  }

  /** Marks the credential as confirmed, then replaces the recovery codes; an error leaves what was done. */
  function EnabledFactors(cfg: Config, users: set<string>, totp: TOTPs, recovery: Recovery, env: Env, userID: string)
    : (out: (TOTPs, Recovery, Response))
    requires userID in totp
    ensures out.2.cookie.None?
  {
    var (confirmed, r) := Contract.SetTOTP(users, totp, userID, totp[userID].(confirmed := true));
    if r.Err? then (totp, recovery, INTERNAL)
    else if !DrewRecoveryCodes(env) then (confirmed, recovery, INTERNAL)
    else
      var codes := RecoveryTexts(env.recoveryBytes);
      var (replaced, q) := Contract.SetRecoveryCodes(users, recovery, userID, RecoveryProofs(cfg, userID, codes));
      (confirmed, replaced, if q.Err? then INTERNAL else Response(200, "", RecoveryBody(codes), None))
  }

  function EnableTOTP(cfg: Config, w: World, env: Env, userID: string): (out: (World, Response))
    requires userID in w.store.totp
    ensures out.0 == w.(store := w.store.(totp := out.0.store.totp, recovery := out.0.store.recovery))
    ensures out.1.cookie.None?
  {
    var t := w.store;
    var (totp, recovery, r) := EnabledFactors(cfg, t.users.Keys, t.totp, t.recovery, env, userID);
    (w.(store := t.(totp := totp, recovery := recovery)), r)
  }

  /** What both second-factor logins check first: a live password session, within the rate limit. */
  function BeginSecondFactor(w: World, req: Request, env: Env): (World, Who) {
    var (t, who) := SessionUser(w.store, req, env);
    var v := w.(store := t);
    if who.Refused? then (v, who)
    else if who.session.level != LevelPassword then (v, Refused(Problem(409, "INVALID_AUTH_STATE")))
    else
      var (buckets, allowed) := Limiter.AllowRequest(
        w.buckets, SecondFactorKey(req.ip, who.user.id), 10, 5 * MINUTE, env.now);
      (v.(buckets := buckets), if allowed then who else Refused(RATE_LIMITED))
  }

  function LoginTOTPStep(cfg: Config, w: World, req: Request, env: Env, code: string): (World, Response) {
    var (v, who) := BeginSecondFactor(w, req, env);
    if who.Refused? then (v, who.response)
    else if !env.decoded then (v, INVALID_REQUEST)
    else
      var secret := TOTPSecret(cfg, v.store.totp, who.user.id, true);
      if secret.None? then (v, TOTPProblem(v.store.totp, who.user.id, true))
      else if !VerifiesTOTP(cfg, secret.value, code, env.now) then (v, INVALID_CODE)
      else if !env.policy then (v, AUTH_DENIED)
      else LogIn(cfg, v, req, env, who.user, LevelMFA, UserBody(who.user))
  }

  function LoginRecoveryStep(cfg: Config, w: World, req: Request, env: Env, code: string): (World, Response) {
    var (v, who) := BeginSecondFactor(w, req, env);
    if who.Refused? then (v, who.response)
    else if !env.decoded then (v, INVALID_REQUEST)
    else if !env.policy then (v, AUTH_DENIED)
    else
      var (recovery, matched) := Contract.ConsumeRecoveryCode(
        v.store.recovery, who.user.id, RecoveryProof(cfg, who.user.id, code), env.now);
      var u := v.(store := v.store.(recovery := recovery));
      if !matched then (u, INVALID_CODE)
      else LogIn(cfg, u, req, env, who.user, LevelMFA, UserBody(who.user))
  }

  // ------------------------------------------------------------ passkeys

  const REGISTRATION := "passkey.registration"
  const LOGIN := "passkey.login"
  const CHALLENGE_LIFETIME: int := 5 * MINUTE

  /** Five minutes from now, or the library's own expiry when that is earlier. */
  function ChallengeExpiry(env: Env): Time {
    var expires := env.now + CHALLENGE_LIFETIME;
    if env.libraryExpires != ZERO_TIME && env.libraryExpires < expires then env.libraryExpires else expires
  }

  /** `savePasskeyChallenge`, for a library that produced session data. */
  function SaveChallenge(w: World, env: Env, kind: string, userID: string): (World, Response) {
    if env.payload.None? then (w, Problem(500, "PASSKEY_FAILED"))
    else
      var (challenges, r) := PutChallenge(
        w.challenges, Challenge(env.id, kind, userID, env.payload.value, ChallengeExpiry(env)));
      (w.(challenges := challenges),
       if r.Err? then INTERNAL else Response(200, "", ChallengeBody(env.id), None))
  }

  /** `takePasskeyChallenge`: a challenge of another kind or user is used up and refused. */
  function TakePasskeyChallenge(challenges: ChallengeMap, id: string, now: Time, kind: string, userID: string)
    : (ChallengeMap, bool)
  {
    var (t, r) := TakeChallenge(challenges, id, now);
    (t, r.Ok? && r.value.kind == kind && r.value.userID == userID)
  }

  function BeginPasskeyRegistrationStep(cfg: Config, w: World, req: Request, env: Env, attachment: string)
    : (World, Response)
  {
    var (t, who) := AuthenticatedSessionUser(cfg, w.store, req, env);
    var v := w.(store := t);
    if who.Refused? then (v, who.response)
    else if !env.decoded then (v, INVALID_REQUEST)
    else if attachment !in {"", "platform", "cross-platform"} then (v, Problem(422, "INVALID_AUTHENTICATOR"))
    else SaveChallenge(v, env, REGISTRATION, who.user.id)
  }

  function FinishPasskeyRegistrationStep(cfg: Config, w: World, req: Request, env: Env, challengeID: string)
    : (World, Response)
  {
    var (t, who) := AuthenticatedSessionUser(cfg, w.store, req, env);
    if who.Refused? then (w.(store := t), who.response)
    else
      var (challenges, ok) := TakePasskeyChallenge(w.challenges, challengeID, env.now, REGISTRATION, who.user.id);
      var v := w.(store := t, challenges := challenges);
      if !ok then (v, INVALID_CHALLENGE)
      else if env.registered.None? then (v, INVALID_PASSKEY)
      else if !env.policy then (v, AUTH_DENIED)
      else
        var stored := env.registered.value.(createdAt := env.now);
        var (passkeys, r) := Contract.SavePasskey(t.users.Keys, t.passkeys, who.user.id, stored);
        (v.(store := t.(passkeys := passkeys)), if r.Err? then INTERNAL else Problem(204, ""))
  }

  function BeginPasskeyLoginStep(w: World, env: Env): (World, Response) {
    SaveChallenge(w, env, LOGIN, "")
  }

  /** The user the library was given for the assertion's handle, if any. */
  function AssertedUser(store: Store, asserted: Option<Assertion>): Option<User> {
    if asserted.None? then None
    else
      var user := Contract.UserByWebAuthnID(store, asserted.value.userHandle);
      if user.Err? || user.value.disabled || user.value.id == "" then None else Some(user.value)
  }

  function FinishPasskeyLoginStep(cfg: Config, w: World, req: Request, env: Env, challengeID: string)
    : (World, Response)
  {
    var (challenges, ok) := TakePasskeyChallenge(w.challenges, challengeID, env.now, LOGIN, "");
    var v := w.(challenges := challenges);
    if !ok then (v, INVALID_CHALLENGE)
    else
      var found := AssertedUser(w.store, env.asserted);
      if found.None? then (v, INVALID_PASSKEY)
      else if !env.policy then (v, AUTH_DENIED)
      else if env.asserted.value.credential.cloneWarning then (v, INVALID_PASSKEY)
      else
        var list := PasskeysOf(w.store.passkeys, found.value.id);
        var i := PasskeyIndex(list, env.asserted.value.credential.id);
        if i == |list| then (v, INVALID_PASSKEY)
        else
          var updated := env.asserted.value.credential.(name := list[i].name, createdAt := list[i].createdAt);
          var (passkeys, r) := Contract.UpdatePasskey(w.store.passkeys, found.value.id, updated, list[i].signCount);
          if r.Err? then (v, PASSKEY_CONFLICT)
          else LogIn(cfg, v.(store := w.store.(passkeys := passkeys)), req, env, found.value, LevelPasskey,
                     UserBody(found.value))
  }

  // ------------------------------------------------------------ one-time codes

  function OneTimeProof(cfg: Config, id: string, purpose: string, code: string): Bytes {
    CodeProof(cfg.crypto.hmac, cfg.secret, LabelText(CodeLabel(id, purpose)), code)
  }

  /** Who a code is for: an enabled user with this identifier, or nobody. */
  function Addressee(store: Store, identifier: string): string {
    var user := Contract.UserByIdentifier(store, identifier);
    if user.Ok? && !user.value.disabled then user.value.id else ""
  }

  function IssuedCode(cfg: Config, env: Env, userID: string, recipient: string, purpose: string): OneTimeCode {
    OneTimeCode(env.id, userID, recipient, purpose, OneTimeProof(cfg, env.id, purpose, env.plainCode),
                env.now + cfg.codeLifetime, 0, cfg.maxAttempts)
  }

  /** A code that cannot be delivered to its user is deleted again; the answer is the same. */
  function SendCode(cfg: Config, w: World, env: Env, userID: string, recipient: string, purpose: string)
    : (World, Response)
  {
    var (codes, r) := Contract.SaveCode(w.store.codes, IssuedCode(cfg, env, userID, recipient, purpose));
    if r.Err? then (w, INTERNAL)
    else
      var kept := if userID != "" && !env.delivered then codes - {env.id} else codes;
      (w.(store := w.store.(codes := kept)), Response(202, "", CodeBody(env.id, env.now + cfg.codeLifetime), None))
  }

  /** The normalized identifier, or a fixed word when it has none. */
  function Recipient(cfg: Config, identifier: string): string {
    var normalized := cfg.normalize(identifier);
    if normalized.Some? then normalized.value else "invalid"
  }

  function RequestCodeStep(cfg: Config, w: World, req: Request, env: Env, identifier: string, purpose: string)
    : (World, Response)
  {
    if !env.decoded || !ValidCodePurpose(purpose) then (w, INVALID_REQUEST)
    else
      var recipient := Recipient(cfg, identifier);
      var (buckets, allowed) := Limiter.AllowRequest(
        w.buckets, CodeKey(req.ip, recipient, purpose), 5, cfg.codeLifetime, env.now);
      var v := w.(buckets := buckets);
      if !allowed then (v, RATE_LIMITED)
      else if !env.policy then (v, AUTH_DENIED)
      else SendCode(cfg, v, env, Addressee(w.store, recipient), recipient, purpose)
  }

  function VerifyCodeStep(
    cfg: Config, w: World, req: Request, env: Env, id: string, code: string, purpose: string, password: string)
    : (World, Response)
  {
    if !env.decoded || id == "" || !ValidCodePurpose(purpose) then (w, INVALID_REQUEST)
    else
      var (codes, r) := Contract.AttemptCode(w.store.codes, id, OneTimeProof(cfg, id, purpose, code), env.now);
      var t := w.store.(codes := codes);
      var v := w.(store := t);
      if r.Err? || !r.value.matched || r.value.code.userID == "" || r.value.code.purpose != purpose then
        (v, INVALID_CODE)
      else
        var user := Contract.UserByID(t, r.value.code.userID);
        if user.Err? || user.value.disabled then (v, INVALID_CODE)
        else if !env.policy then (v, AUTH_DENIED)
        else ApplyVerifiedCode(cfg, v, req, env, user.value, purpose, password)
  }

  /** The answer shows the user as read before the update: `applyVerifiedCode` marks only its own copy. */
  function MarkVerified(w: World, user: User): (World, Response) {
    var (t, r) := Contract.SetUserVerified(w.store, user.id, true);
    (w.(store := t), if r.Err? then INTERNAL else Response(200, "", UserBody(user), None))
  }

  /** A reset password ends every session of the user. */
  function ResetPassword(cfg: Config, w: World, env: Env, user: User, password: string): (World, Response) {
    if !cfg.passwordEnabled || !AcceptablePassword(cfg, password) then (w, Problem(422, "INVALID_PASSWORD"))
    else if env.hashed.None? then (w, INTERNAL)
    else
      var (passwords, r) := Contract.SetPassword(
        w.store.users.Keys, w.store.passwords, user.id, PasswordCredential(env.hashed.value, env.now));
      if r.Err? then (w, INTERNAL)
      else
        (w.(store := w.store.(passwords := passwords,
                              sessions := Contract.RevokeUserSessions(w.store.sessions, user.id))),
         Response(200, "", UserBody(user), None))
  }

  function ApplyVerifiedCode(
    cfg: Config, w: World, req: Request, env: Env, user: User, purpose: string, password: string): (World, Response)
  {
    if purpose == PURPOSE_LOGIN_CODE then LogIn(cfg, w, req, env, user, LevelCode, UserBody(user))
    else if purpose == PURPOSE_VERIFY_ACCOUNT then MarkVerified(w, user)
    else ResetPassword(cfg, w, env, user, password)
  }

  // ------------------------------------------------------------ dispatch

  const NO_ROUTE := Problem(404, "")

  /** Only the routes of enabled methods exist. */
  predicate RouteEnabled(cfg: Config, op: Op) {
    match op
    case RegisterPassword(_, _, _) => cfg.passwordEnabled
    case LoginPassword(_, _) => cfg.passwordEnabled
    case SetupTOTP => cfg.totpEnabled
    case ConfirmTOTP(_) => cfg.totpEnabled
    case LoginTOTP(_) => cfg.totpEnabled
    case LoginRecovery(_) => cfg.totpEnabled
    case BeginPasskeyRegistration(_) => cfg.passkeysEnabled
    case FinishPasskeyRegistration(_) => cfg.passkeysEnabled
    case BeginPasskeyLogin => cfg.passkeysEnabled
    case FinishPasskeyLogin(_) => cfg.passkeysEnabled
    case RequestCode(_, _) => cfg.codesEnabled
    case VerifyCode(_, _, _, _) => cfg.codesEnabled
    case _ => true
  }

  function Handle(cfg: Config, w: World, req: Request, env: Env): (World, Response) {
    if !RouteEnabled(cfg, req.op) then (w, NO_ROUTE)
    else
      match req.op
      case RegisterPassword(identifier, displayName, password) =>
        RegisterPasswordStep(cfg, w, env, identifier, displayName, password)
      case LoginPassword(identifier, password) => LoginPasswordStep(cfg, w, req, env, identifier, password)
      case SetupTOTP => SetupTOTPStep(cfg, w, req, env)
      case ConfirmTOTP(code) => ConfirmTOTPStep(cfg, w, req, env, code)
      case LoginTOTP(code) => LoginTOTPStep(cfg, w, req, env, code)
      case LoginRecovery(code) => LoginRecoveryStep(cfg, w, req, env, code)
      case BeginPasskeyRegistration(attachment) => BeginPasskeyRegistrationStep(cfg, w, req, env, attachment)
      case FinishPasskeyRegistration(challengeID) => FinishPasskeyRegistrationStep(cfg, w, req, env, challengeID)
      case BeginPasskeyLogin => BeginPasskeyLoginStep(w, env)
      case FinishPasskeyLogin(challengeID) => FinishPasskeyLoginStep(cfg, w, req, env, challengeID)
      case RequestCode(identifier, purpose) => RequestCodeStep(cfg, w, req, env, identifier, purpose)
      case VerifyCode(id, code, purpose, password) => VerifyCodeStep(cfg, w, req, env, id, code, purpose, password)
      case Logout => LogoutStep(w, req, env)
      case Protected => RequireUser(cfg, w, req, env)
      case RevokeAll(userID) => RevokeAllStep(w, userID)
  }
}
