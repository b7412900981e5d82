/**
 The handlers as the program runs them: methods of one object that call the store, the challenge store and the
 limiter step by step. Each is proved to take the world to exactly where its function in `Handlers` says.
 */
module AuthService {
  import opened Models
  import opened Handlers
  import opened CodeText
  import Base32
  import Challenges
  import Contract = StoreContract
  import Limiter
  import MemoryStores
  import Provenance
  import Totp

  lemma TOTPModulusIsUsable(cfg: Config)
    requires Totp.ValidOptions(cfg.totp)
    ensures Totp.Modulus(cfg.totp.digits) != 0
  {
    Totp.ModulusIsPowerOfTen(cfg.totp.digits);
  }

  class Auth {
    const cfg: Config
    const store: MemoryStores.MemoryStore
    const challenges: Challenges.MemoryChallengeStore
    const limiter: Limiter.MemoryRateLimiter

    ghost function State(): World
      reads store, challenges, limiter
    {
      World(store.State(), challenges.challenges, limiter.buckets)
    }

    constructor (cfg: Config, store: MemoryStores.MemoryStore)
      ensures this.cfg == cfg && this.store == store
      ensures State() == Provenance.Start(store.State())
      ensures fresh(challenges) && fresh(limiter)
    {
      this.cfg := cfg;
      this.store := store;
      challenges := new Challenges.MemoryChallengeStore();
      limiter := new Limiter.MemoryRateLimiter();
    }

    // ---------------------------------------------------------- sessions

    method CreateSession(req: Request, env: Env, user: User, level: AuthLevel) returns (ok: bool)
      modifies store`sessions
      ensures (store.sessions, ok) == CreateSessionFor(cfg, old(store.sessions), req, env, user, level)
    {
      var session := Session(
        env.id, user.id, level, env.now, env.now + cfg.sessionLifetime, env.now, req.userAgent, req.ip);
      if req.cookie != "" {
        store.RevokeSession(req.cookie);
      }
      var r := store.CreateSession(session);
      if r.Err? {
        return false;
      }
      if !env.cookieSet {
        store.RevokeSession(env.id);
        return false;
      }
      return true;
    }

    method FinishLogin(req: Request, env: Env, user: User, level: AuthLevel, body: Body) returns (r: Response)
      modifies store`sessions
      ensures (State(), r) == LogIn(cfg, old(State()), req, env, user, level, body)
    {
      var ok := CreateSession(req, env, user, level);
      if !ok {
        return INTERNAL;
      }
      return Response(200, "", body, Some(env.id));
    }

    method CurrentSession(req: Request, env: Env) returns (found: Option<Session>)
      modifies store`sessions
      ensures (store.sessions, found) == Handlers.CurrentSession(old(store.sessions), req, env)
    {
      if req.cookie == "" {
        return None;
      }
      var r := store.SessionByID(req.cookie, env.now);
      if r.Err? {
        return None;
      }
      return Some(r.value);
    }

    method SessionCompletesAuthentication(user: User, session: Session) returns (completes: bool)
      ensures completes == CompletesAuthentication(cfg, store.totp, user.id, session)
    {
      if session.level != LevelPassword || !cfg.totpEnabled {
        return true;
      }
      var credential := store.TOTP(user.id);
      return credential == Err(ErrNotFound) || (credential.Ok? && !credential.value.confirmed);
    }

    method User(req: Request, env: Env) returns (found: Option<User>)
      modifies store`sessions
      ensures (store.State(), found) == CurrentUser(cfg, old(store.State()), req, env)
    {
      var session := CurrentSession(req, env);
      if session.None? {
        return None;
      }
      var user := store.UserByID(session.value.userID);
      if user.Err? {
        return None;
      }
      if user.value.disabled {
        store.RevokeSession(req.cookie);
        return None;
      }
      var completes := SessionCompletesAuthentication(user.value, session.value);
      if !completes {
        return None;
      }
      return Some(user.value);
    }

    method RequireUser(req: Request, env: Env) returns (r: Response)
      modifies store`sessions
      ensures (State(), r) == Handlers.RequireUser(cfg, old(State()), req, env)
    {
      var user := User(req, env);
      if user.None? {
        return AUTH_REQUIRED;
      }
      var session := CurrentSession(req, env);
      if session.None? {
        return AUTH_REQUIRED;
      }
      var principal := Principal(user.value.id, session.value.level, session.value.authenticatedAt);
      return Response(200, "", PrincipalBody(principal), None);
    }

    method Logout(req: Request, env: Env) returns (r: Response)
      modifies store`sessions
      ensures (State(), r) == LogoutStep(old(State()), req, env)
    {
      if req.cookie != "" {
        store.RevokeSession(req.cookie);
      }
      if !env.cookieSet {
        return INTERNAL;
      }
      return Problem(204, "");
    }

    method RevokeAll(userID: string) returns (r: Response)
      modifies store`sessions
      ensures (State(), r) == RevokeAllStep(old(State()), userID)
    {
      if userID == "" {
        return INTERNAL;
      }
      store.RevokeUserSessions(userID);
      return Problem(204, "");
    }

    method SessionUser(req: Request, env: Env) returns (who: Who)
      modifies store`sessions
      ensures (store.State(), who) == Handlers.SessionUser(old(store.State()), req, env)
    {
      var session := CurrentSession(req, env);
      if session.None? {
        return Refused(AUTH_REQUIRED);
      }
      var user := store.UserByID(session.value.userID);
      if user.Err? || user.value.disabled {
        return Refused(AUTH_REQUIRED);
      }
      return Known(user.value, session.value);
    }

    method AuthenticatedSessionUser(req: Request, env: Env) returns (who: Who)
      modifies store`sessions
      ensures (store.State(), who) == Handlers.AuthenticatedSessionUser(cfg, old(store.State()), req, env)
    {
      who := SessionUser(req, env);
      if who.Refused? {
        return;
      }
      var completes := SessionCompletesAuthentication(who.user, who.session);
      if !completes {
        return Refused(Problem(401, "SECOND_FACTOR_REQUIRED"));
      }
    }

    // ---------------------------------------------------------- passwords

    method RegisterPassword(env: Env, identifier: string, displayName: string, password: string) returns (r: Response)
      modifies store
      ensures (State(), r) == RegisterPasswordStep(cfg, old(State()), env, identifier, displayName, password)
    {
      if !env.decoded {
        return INVALID_REQUEST;
      }
      var normalized := cfg.normalize(identifier);
      if normalized.None? || |password| < cfg.minimumLength || ByteLength(password) > 1024 {
        return Problem(422, "INVALID_REGISTRATION");
      }
      if !env.policy {
        return AUTH_DENIED;
      }
      if env.hashed.None? {
        return INTERNAL;
      }
      var input := NewUser(env.id, normalized.value, displayName, env.bytes);
      var user := store.CreatePasswordUser(input, PasswordCredential(env.hashed.value, env.now), env.now);
      if user.Err? {
        return Problem(409, "REGISTRATION_FAILED");
      }
      return Response(201, "", UserBody(user.value), None);
    }

    method LoginPassword(req: Request, env: Env, identifier: string, password: string) returns (r: Response)
      modifies store, limiter
      ensures (State(), r) == LoginPasswordStep(cfg, old(State()), req, env, identifier, password)
    {
      if !env.decoded {
        return INVALID_REQUEST;
      }
      var normalized := cfg.normalize(identifier);
      if normalized.None? || ByteLength(password) > 1024 {
        return INVALID_LOGIN;
      }
      var allowed := limiter.Allow(PasswordKey(req.ip, normalized.value), 10, 15 * MINUTE, env.now);
      if !allowed {
        return RATE_LIMITED;
      }
      var user := VerifiedUser(normalized.value, password);
      if user.None? {
        return INVALID_LOGIN;
      }
      if !env.policy {
        return AUTH_DENIED;
      }
      Rehash(env, user.value.id);
      var credential := store.TOTP(user.value.id);
      var required := credential.Ok? && credential.value.confirmed;
      r := FinishLogin(req, env, user.value, LevelPassword, LoginBody(user.value, required));
    }

    /** Checks the password whether or not there is a user, then requires an enabled one. */
    method VerifiedUser(identifier: string, password: string) returns (found: Option<User>)
      ensures found == if Verifies(cfg, store.State(), identifier, password)
                       then Some(Contract.UserByIdentifier(store.State(), identifier).value) else None
    {
      var user := store.UserByIdentifier(identifier);
      var hash := cfg.dummyHash;
      if user.Ok? {
        var credential := store.Password(user.value.id);
        if credential.Ok? {
          hash := credential.value.hash;
        }
      }
      var valid := cfg.crypto.verifyPassword(hash, password);
      if valid != Ok(true) || user.Err? || user.value.disabled {
        return None;
      }
      return Some(user.value);
    }

    method Rehash(env: Env, userID: string)
      modifies store`passwords
      ensures store.passwords == Rehashed(cfg, old(store.State()), env, userID)
    {
      var stored := store.Password(userID);
      var hash := if stored.Ok? then stored.value.hash else "";
      if cfg.crypto.needsRehash(hash) && env.hashed.Some? {
        var ignored := store.SetPassword(userID, PasswordCredential(env.hashed.value, env.now));
      }
    }

    // ---------------------------------------------------------- TOTP and recovery codes

    method SetupTOTP(req: Request, env: Env) returns (r: Response)
      modifies store
      ensures (State(), r) == SetupTOTPStep(cfg, old(State()), req, env)
    {
      var who := AuthenticatedSessionUser(req, env);
      if who.Refused? {
        return who.response;
      }
      if !env.policy {
        return AUTH_DENIED;
      }
      var secret := Base32.Encode(env.bytes);
      var sealed := cfg.crypto.seal(LabelText(TOTPLabel(who.user.id)), env.nonce, secret);
      var saved := store.SetTOTP(who.user.id, TOTPCredential(sealed, false, env.now));
      if saved.Err? {
        return INTERNAL;
      }
      return Response(200, "", SecretBody(secret), None);
    }

    /** The stored credential in the wanted state and its opened secret, or the answer refusing it. */
    method OpenTOTP(userID: string, confirmed: bool) returns (secret: Option<string>, problem: Response)
      ensures secret == TOTPSecret(cfg, store.totp, userID, confirmed)
      ensures problem == TOTPProblem(store.totp, userID, confirmed)
    {
      var credential := store.TOTP(userID);
      if credential.Err? || credential.value.confirmed != confirmed {
        return None, Problem(409, "TOTP_UNAVAILABLE");
      }
      return cfg.crypto.open(LabelText(TOTPLabel(userID)), credential.value.encryptedSecret), INTERNAL;
    }

    method ConfirmTOTP(req: Request, env: Env, code: string) returns (r: Response)
      requires Totp.ValidOptions(cfg.totp)
      modifies store
      ensures (State(), r) == ConfirmTOTPStep(cfg, old(State()), req, env, code)
    {
      var who := SessionUser(req, env);
      if who.Refused? {
        return who.response;
      }
      if !env.decoded {
        return INVALID_REQUEST;
      }
      var secret, problem := OpenTOTP(who.user.id, false);
      if secret.None? {
        return problem;
      }
      TOTPModulusIsUsable(cfg);
      var valid := Totp.VerifyTOTP(cfg.crypto.mac, secret.value, code, env.now, cfg.totp);
      if !valid {
        return INVALID_CODE;
      }
      r := Enable(env, who.user.id);
    }

    method Enable(env: Env, userID: string) returns (r: Response)
      requires userID in store.totp
      modifies store`totp, store`recovery
      ensures (State(), r) == EnableTOTP(cfg, old(State()), env, userID)
    {
      var credential := store.totp[userID].(confirmed := true);
      var saved := store.SetTOTP(userID, credential);
      if saved.Err? {
        return INTERNAL;
      }
      if |env.recoveryBytes| != 10 || exists i :: 0 <= i < 10 && |env.recoveryBytes[i]| != 10 {
        return INTERNAL;
      }
      var plain, stored := NewRecoveryCodes(env.recoveryBytes, userID);
      var replaced := store.SetRecoveryCodes(userID, stored);
      if replaced.Err? {
        return INTERNAL;
      }
      return Response(200, "", RecoveryBody(plain), None);
    }

    method NewRecoveryCodes(drawn: seq<Bytes>, userID: string)
      returns (plain: seq<string>, stored: seq<RecoveryCode>)
      requires forall i :: 0 <= i < |drawn| ==> |drawn[i]| == 10
      ensures plain == RecoveryTexts(drawn) && stored == RecoveryProofs(cfg, userID, plain)
    {
      hide RecoveryProof, Base32.Encode, ToUpper;
      plain, stored := [], [];
      for i := 0 to |drawn|
        invariant plain == RecoveryTexts(drawn)[..i] && stored == RecoveryProofs(cfg, userID, plain)
      {
        var raw := ToUpper(Base32.Encode(drawn[i]));
        Base32.EncodeLength(drawn[i]);
        var shown := raw[..4] + "-" + raw[4..8] + "-" + raw[8..12] + "-" + raw[12..];
        plain := plain + [shown];
        stored := stored + [RecoveryCode(RecoveryProof(cfg, userID, shown), ZERO_TIME)];
      }
    }

    method BeginSecondFactor(req: Request, env: Env) returns (who: Who)
      modifies store`sessions, limiter
      ensures (State(), who) == Handlers.BeginSecondFactor(old(State()), req, env)
    {
      who := SessionUser(req, env);
      if who.Refused? {
        return;
      }
      if who.session.level != LevelPassword {
        return Refused(Problem(409, "INVALID_AUTH_STATE"));
      }
      var allowed := limiter.Allow(SecondFactorKey(req.ip, who.user.id), 10, 5 * MINUTE, env.now);
      if !allowed {
        return Refused(RATE_LIMITED);
      }
    }

    method LoginTOTP(req: Request, env: Env, code: string) returns (r: Response)
      requires Totp.ValidOptions(cfg.totp)
      modifies store`sessions, limiter
      ensures (State(), r) == LoginTOTPStep(cfg, old(State()), req, env, code)
    {
      var who := BeginSecondFactor(req, env);
      if who.Refused? {
        return who.response;
      }
      if !env.decoded {
        return INVALID_REQUEST;
      }
      var secret, problem := OpenTOTP(who.user.id, true);
      if secret.None? {
        return problem;
      }
      TOTPModulusIsUsable(cfg);
      var valid := Totp.VerifyTOTP(cfg.crypto.mac, secret.value, code, env.now, cfg.totp);
      if !valid {
        return INVALID_CODE;
      }
      if !env.policy {
        return AUTH_DENIED;
      }
      r := FinishLogin(req, env, who.user, LevelMFA, UserBody(who.user));
    }

    method LoginRecovery(req: Request, env: Env, code: string) returns (r: Response)
      modifies store`sessions, store`recovery, limiter
      ensures (State(), r) == LoginRecoveryStep(cfg, old(State()), req, env, code)
    {
      var who := BeginSecondFactor(req, env);
      if who.Refused? {
        return who.response;
      }
      if !env.decoded {
        return INVALID_REQUEST;
      }
      if !env.policy {
        return AUTH_DENIED;
      }
      var proof := RecoveryProof(cfg, who.user.id, code);
      var matched := store.ConsumeRecoveryCode(who.user.id, proof, env.now);
      if !matched {
        return INVALID_CODE;
      }
      r := FinishLogin(req, env, who.user, LevelMFA, UserBody(who.user));
    }

    // ---------------------------------------------------------- passkeys

    method SavePasskeyChallenge(env: Env, kind: string, userID: string) returns (r: Response)
      modifies challenges
      ensures (State(), r) == SaveChallenge(old(State()), env, kind, userID)
    {
      if env.payload.None? {
        return Problem(500, "PASSKEY_FAILED");
      }
      var expires := env.now + CHALLENGE_LIFETIME;
      if env.libraryExpires != ZERO_TIME && env.libraryExpires < expires {
        expires := env.libraryExpires;
      }
      var put := challenges.Put(Challenge(env.id, kind, userID, env.payload.value, expires));
      if put.Err? {
        return INTERNAL;
      }
      return Response(200, "", ChallengeBody(env.id), None);
    }

    method TakeChallenge(id: string, now: Time, kind: string, userID: string) returns (ok: bool)
      modifies challenges
      ensures (challenges.challenges, ok) == TakePasskeyChallenge(old(challenges.challenges), id, now, kind, userID)
    {
      var challenge := challenges.Take(id, now);
      return challenge.Ok? && challenge.value.kind == kind && challenge.value.userID == userID;
    }

    method BeginPasskeyRegistration(req: Request, env: Env, attachment: string) returns (r: Response)
      modifies store`sessions, challenges
      ensures (State(), r) == BeginPasskeyRegistrationStep(cfg, old(State()), req, env, attachment)
    {
      var who := AuthenticatedSessionUser(req, env);
      if who.Refused? {
        return who.response;
      }
      if !env.decoded {
        return INVALID_REQUEST;
      }
      if attachment != "" && attachment != "platform" && attachment != "cross-platform" {
        return Problem(422, "INVALID_AUTHENTICATOR");
      }
      r := SavePasskeyChallenge(env, REGISTRATION, who.user.id);
    }

    method FinishPasskeyRegistration(req: Request, env: Env, challengeID: string) returns (r: Response)
      modifies store`sessions, store`passkeys, challenges
      ensures (State(), r) == FinishPasskeyRegistrationStep(cfg, old(State()), req, env, challengeID)
    {
      var who := AuthenticatedSessionUser(req, env);
      if who.Refused? {
        return who.response;
      }
      var ok := TakeChallenge(challengeID, env.now, REGISTRATION, who.user.id);
      if !ok {
        return INVALID_CHALLENGE;
      }
      if env.registered.None? {
        return INVALID_PASSKEY;
      }
      if !env.policy {
        return AUTH_DENIED;
      }
      var stored := env.registered.value.(createdAt := env.now);
      var saved := store.SavePasskey(who.user.id, stored);
      if saved.Err? {
        return INTERNAL;
      }
      return Problem(204, "");
    }

    method BeginPasskeyLogin(env: Env) returns (r: Response)
      modifies challenges
      ensures (State(), r) == BeginPasskeyLoginStep(old(State()), env)
    {
      r := SavePasskeyChallenge(env, LOGIN, "");
    }

    /** The user lookup the library calls back for the assertion's handle. */
    method FindAsserted(asserted: Option<Assertion>) returns (found: Option<User>)
      ensures found == AssertedUser(store.State(), asserted)
    {
      if asserted.None? {
        return None;
      }
      var user := store.UserByWebAuthnID(asserted.value.userHandle);
      if user.Err? || user.value.disabled || user.value.id == "" {
        return None;
      }
      return Some(user.value);
    }

    /** Linear search; the position of the first match, or the length. */
    method FindPasskey(userID: string, id: Bytes) returns (credentials: seq<PasskeyCredential>, i: nat)
      ensures credentials == Contract.PasskeysOf(store.passkeys, userID)
      ensures i == Contract.PasskeyIndex(credentials, id)
    {
      credentials := store.Passkeys(userID);
      i := 0;
      while i < |credentials|
        invariant i <= Contract.PasskeyIndex(credentials, id)
      {
        if credentials[i].id == id {
          return;
        }
        i := i + 1;
      }
    }

    method FinishPasskeyLogin(req: Request, env: Env, challengeID: string) returns (r: Response)
      modifies store`sessions, store`passkeys, challenges
      ensures (State(), r) == FinishPasskeyLoginStep(cfg, old(State()), req, env, challengeID)
    {
      var ok := TakeChallenge(challengeID, env.now, LOGIN, "");
      if !ok {
        return INVALID_CHALLENGE;
      }
      var found := FindAsserted(env.asserted);
      if found.None? {
        return INVALID_PASSKEY;
      }
      if !env.policy {
        return AUTH_DENIED;
      }
      var updated := env.asserted.value.credential;
      if updated.cloneWarning {
        return INVALID_PASSKEY;
      }
      var credentials, i := FindPasskey(found.value.id, updated.id);
      if i == |credentials| {
        return INVALID_PASSKEY;
      }
      updated := updated.(name := credentials[i].name, createdAt := credentials[i].createdAt);
      var saved := store.UpdatePasskey(found.value.id, updated, credentials[i].signCount);
      if saved.Err? {
        return PASSKEY_CONFLICT;
      }
      r := FinishLogin(req, env, found.value, LevelPasskey, UserBody(found.value));
    }

    // ---------------------------------------------------------- one-time codes

    method RequestCode(req: Request, env: Env, identifier: string, purpose: string) returns (r: Response)
      modifies store`codes, limiter
      ensures (State(), r) == RequestCodeStep(cfg, old(State()), req, env, identifier, purpose)
    {
      if !env.decoded || !ValidCodePurpose(purpose) {
        return INVALID_REQUEST;
      }
      var normalized := cfg.normalize(identifier);
      var recipient := if normalized.Some? then normalized.value else "invalid";
      var allowed := limiter.Allow(
        CodeKey(req.ip, recipient, purpose), 5, cfg.codeLifetime, env.now);
      if !allowed {
        return RATE_LIMITED;
      }
      var user := store.UserByIdentifier(recipient);
      var userID := "";
      if user.Ok? && !user.value.disabled {
        userID := user.value.id;
      }
      if !env.policy {
        return AUTH_DENIED;
      }
      r := IssueCode(env, userID, recipient, purpose);
    }

    /** Saves the code, then deletes it again when it cannot be delivered; the answer is the same. */
    method IssueCode(env: Env, userID: string, recipient: string, purpose: string) returns (r: Response)
      modifies store`codes
      ensures (State(), r) == SendCode(cfg, old(State()), env, userID, recipient, purpose)
    {
      var expires := env.now + cfg.codeLifetime;
      var proof := OneTimeProof(cfg, env.id, purpose, env.plainCode);
      var saved := store.SaveCode(
        OneTimeCode(env.id, userID, recipient, purpose, proof, expires, 0, cfg.maxAttempts));
      if saved.Err? {
        return INTERNAL;
      }
      if userID != "" && !env.delivered {
        store.DeleteCode(env.id);
      }
      return Response(202, "", CodeBody(env.id, expires), None);
    }

    method VerifyCode(req: Request, env: Env, id: string, code: string, purpose: string, password: string)
      returns (r: Response)
      modifies store
      ensures (State(), r) == VerifyCodeStep(cfg, old(State()), req, env, id, code, purpose, password)
    {
      if !env.decoded || id == "" || !ValidCodePurpose(purpose) {
        return INVALID_REQUEST;
      }
      var proof := OneTimeProof(cfg, id, purpose, code);
      var attempt := store.AttemptCode(id, proof, env.now);
      if attempt.Err? || !attempt.value.matched || attempt.value.code.userID == ""
         || attempt.value.code.purpose != purpose {
        return INVALID_CODE;
      }
      var user := store.UserByID(attempt.value.code.userID);
      if user.Err? || user.value.disabled {
        return INVALID_CODE;
      }
      if !env.policy {
        return AUTH_DENIED;
      }
      r := ApplyCode(req, env, user.value, purpose, password);
    }

    method ApplyCode(req: Request, env: Env, user: User, purpose: string, password: string) returns (r: Response)
      modifies store
      ensures (State(), r) == ApplyVerifiedCode(cfg, old(State()), req, env, user, purpose, password)
    {
      if purpose == PURPOSE_LOGIN_CODE {
        r := FinishLogin(req, env, user, LevelCode, UserBody(user));
      } else if purpose == PURPOSE_VERIFY_ACCOUNT {
        var marked := store.SetUserVerified(user.id, true);
        r := if marked.Err? then INTERNAL else Response(200, "", UserBody(user), None);
      } else {
        r := Reset(env, user, password);
      }
    }

    method Reset(env: Env, user: User, password: string) returns (r: Response)
      modifies store`passwords, store`sessions
      ensures (State(), r) == ResetPassword(cfg, old(State()), env, user, password)
    {
      if !cfg.passwordEnabled || |password| < cfg.minimumLength || ByteLength(password) > 1024 {
        return Problem(422, "INVALID_PASSWORD");
      }
      if env.hashed.None? {
        return INTERNAL;
      }
      var saved := store.SetPassword(user.id, PasswordCredential(env.hashed.value, env.now));
      if saved.Err? {
        return INTERNAL;
      }
      store.RevokeUserSessions(user.id);
      return Response(200, "", UserBody(user), None);
    }

    // ---------------------------------------------------------- dispatch

    method Serve(req: Request, env: Env) returns (r: Response)
      requires cfg.totpEnabled ==> Totp.ValidOptions(cfg.totp)
      modifies store, challenges, limiter
      ensures (State(), r) == Handle(cfg, old(State()), req, env)
    {
      hide Totp.ValidOptions;
      hide RegisterPasswordStep, LoginPasswordStep, SetupTOTPStep, ConfirmTOTPStep, LoginTOTPStep, LoginRecoveryStep;
      hide BeginPasskeyRegistrationStep, FinishPasskeyRegistrationStep, FinishPasskeyLoginStep, RequestCodeStep;
      hide VerifyCodeStep, LogoutStep, Handlers.RequireUser, RevokeAllStep;
      if !RouteEnabled(cfg, req.op) {
        return NO_ROUTE;
      }
      match req.op
      case RegisterPassword(identifier, displayName, password) =>
        r := RegisterPassword(env, identifier, displayName, password);
      case LoginPassword(identifier, password) =>
        r := LoginPassword(req, env, identifier, password);
      case SetupTOTP =>
        r := SetupTOTP(req, env);
      case ConfirmTOTP(code) =>
        r := ConfirmTOTP(req, env, code);
      case LoginTOTP(code) =>
        r := LoginTOTP(req, env, code);
      case LoginRecovery(code) =>
        r := LoginRecovery(req, env, code);
      case BeginPasskeyRegistration(attachment) =>
        r := BeginPasskeyRegistration(req, env, attachment);
      case FinishPasskeyRegistration(challengeID) =>
        r := FinishPasskeyRegistration(req, env, challengeID);
      case BeginPasskeyLogin =>
        r := BeginPasskeyLogin(env);
      case FinishPasskeyLogin(challengeID) =>
        r := FinishPasskeyLogin(req, env, challengeID);
      case RequestCode(identifier, purpose) =>
        r := RequestCode(req, env, identifier, purpose);
      case VerifyCode(id, code, purpose, password) =>
        r := VerifyCode(req, env, id, code, purpose, password);
      case Logout =>
        r := Logout(req, env);
      case Protected =>
        r := RequireUser(req, env);
      case RevokeAll(userID) =>
        r := RevokeAll(userID);
    }

    /** Serving requests one after another, from the start, is the run that the handler lemmas are about. */
    method ServeAll(steps: seq<Provenance.Step>) returns (responses: seq<Response>)
      requires cfg.totpEnabled ==> Totp.ValidOptions(cfg.totp)
      requires State() == Provenance.Start(store.State())
      modifies store, challenges, limiter
      ensures State() == Provenance.After(cfg, old(store.State()), steps)
      ensures |responses| == |steps|
      ensures forall i :: 0 <= i < |steps| ==>
                responses[i] == Provenance.ResponseTo(cfg, old(store.State()), steps, i)
    {
      ghost var start := store.State();
      responses := [];
      assert Provenance.After(cfg, start, steps[..0]) == Provenance.Start(start);
      hide Provenance.After, Provenance.ResponseTo, Handle;
      for i := 0 to |steps|
        invariant State() == Provenance.After(cfg, start, steps[..i])
        invariant |responses| == i
        invariant forall j :: 0 <= j < i ==> responses[j] == Provenance.ResponseTo(cfg, start, steps, j)
      {
        var r := Serve(steps[i].req, steps[i].env);
        Provenance.AfterStep(cfg, start, steps, i);
        responses := responses + [r];
      }
      assert steps[..|steps|] == steps;
    }
  }

  // ------------------------------------------------------------ registration

  /** The options with defaults filled in, or nothing when one is out of range. */
  method NormalizeOptions(options: Config) returns (r: Option<Config>)
    ensures r == if InRange(WithDefaults(options)) then Some(WithDefaults(options)) else None
  {
    if |options.secret| < 32 || (!options.passwordEnabled && !options.passkeysEnabled && !options.codesEnabled) {
      return None;
    }
    var sessionLifetime := if options.sessionLifetime == 0 then 24 * HOUR else options.sessionLifetime;
    if sessionLifetime < MINUTE || sessionLifetime > 365 * DAY {
      return None;
    }
    var minimumLength := options.minimumLength;
    if options.passwordEnabled {
      minimumLength := if minimumLength == 0 then 12 else minimumLength;
      if minimumLength < 8 || minimumLength > 128 {
        return None;
      }
    }
    var totp := options.totp;
    if options.totpEnabled {
      totp := Totp.TOTPOptions(
        if totp.digits == 0 then 6 else totp.digits, if totp.period == 0 then 30 * SECOND else totp.period);
      if (totp.digits != 6 && totp.digits != 8) || totp.period < 15 * SECOND || totp.period > MINUTE {
        return None;
      }
    }
    var codeLifetime, maxAttempts := options.codeLifetime, options.maxAttempts;
    if options.codesEnabled {
      codeLifetime := if codeLifetime == 0 then 10 * MINUTE else codeLifetime;
      maxAttempts := if maxAttempts == 0 then 5 else maxAttempts;
      if codeLifetime < MINUTE || codeLifetime > HOUR || maxAttempts < 3 || maxAttempts > 10 {
        return None;
      }
    }
    return Some(options.(sessionLifetime := sessionLifetime, minimumLength := minimumLength, totp := totp,
                         codeLifetime := codeLifetime, maxAttempts := maxAttempts));
  }

  /**
   Options out of range, no store, or a hasher that cannot hash the dummy password, give no service. `hashed` is the
   hasher's answer for that fixed text. The service works on the store it was given, as it finds it.
   */
  method Register(options: Config, store: MemoryStores.MemoryStore?, hashed: Option<string>)
    returns (auth: Option<Auth>)
    ensures auth.Some? <==>
            store != null && InRange(WithDefaults(options)) && (options.passwordEnabled ==> hashed.Some?)
    ensures auth.Some? ==>
              && fresh(auth.value) && fresh(auth.value.challenges) && fresh(auth.value.limiter)
              && auth.value.store == store
              && auth.value.cfg == WithDefaults(options).(
                   dummyHash := if options.passwordEnabled then hashed.value else "")
              && InRange(auth.value.cfg) && auth.value.State() == Provenance.Start(store.State())
  {
    if store == null {
      return None;
    }
    var normalized := NormalizeOptions(options);
    if normalized.None? {
      return None;
    }
    var dummyHash := "";
    if options.passwordEnabled {
      if hashed.None? {
        return None;
      }
      dummyHash := hashed.value;
    }
    var made := new Auth(normalized.value.(dummyHash := dummyHash), store);
    return Some(made);
  }
}
