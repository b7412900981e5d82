/**
 Where sessions come from, in every run of the handlers over whatever store the application hands in. Each step is one
 request with whatever cookie its sender chose, handled atomically; the ids drawn by different steps are different.
 */
module Provenance {
  import opened Models
  import opened Contract = StoreContract
  import opened Challenges
  import opened HandlerFrames
  import opened Handlers
  import opened StoreInvariant
  import opened StoreCalls
  import CodeText
  import Limiter

  // ------------------------------------------------------------ runs

  datatype Step = Step(req: Request, env: Env)

  /** The world in which the service begins: the store handed in, no challenges and no counted requests. */
  function Start(start: Store): World { World(start, map[], map[]) }

  function After(cfg: Config, start: Store, steps: seq<Step>): World {
    if steps == [] then Start(start)
    else
      var last := steps[|steps| - 1];
      Handle(cfg, After(cfg, start, steps[..|steps| - 1]), last.req, last.env).0
  }

  /** The world before step i and the answer to it. */
  function Before(cfg: Config, start: Store, steps: seq<Step>, i: nat): World
    requires i < |steps|
  {
    After(cfg, start, steps[..i])
  }

  function ResponseTo(cfg: Config, start: Store, steps: seq<Step>, i: nat): Response
    requires i < |steps|
  {
    Handle(cfg, Before(cfg, start, steps, i), steps[i].req, steps[i].env).1
  }

  /** Random ids are non-empty, not in use in the store handed in, and never drawn twice. */
  ghost predicate FreshIDs(start: Store, steps: seq<Step>) {
    && (forall i :: 0 <= i < |steps| ==>
          steps[i].env.id != "" && steps[i].env.id !in start.sessions && steps[i].env.id !in start.codes)
    && (forall i, j :: 0 <= i < j < |steps| ==> steps[i].env.id != steps[j].env.id)
  }

  // ------------------------------------------------------------ the store handed in

  /** Users are filed under their own ids and identifiers. */
  ghost predicate Registered(store: Store) {
    IdentifiersMatch(store.users, store.identifiers)
  }

  /** And sessions and codes under theirs. */
  ghost predicate Filed(store: Store) {
    Registered(store) && SessionsFiled(store.sessions) && CodesFiled(store.codes)
  }

  /** That is all the runs ask of the store, and any sequence of `Store` calls leaves one like that. */
  lemma CallsLeaveFiled(calls: seq<Call>)
    ensures Filed(Run(Empty(), calls, Raw))
  {
    ReachableIsWellFormed(calls);
    hide Run;
  }

  // ------------------------------------------------------------ what justifies a session

  /** The request's cookie names a live password session of this user. */
  predicate HoldsPasswordSession(w: World, req: Request, env: Env, userID: string) {
    && req.cookie != "" && req.cookie in w.store.sessions
    && var s := w.store.sessions[req.cookie];
       s.level == LevelPassword && s.userID == userID && s.expiresAt > env.now
  }

  /** The login's identifier is this user's. */
  predicate Identified(cfg: Config, w: World, op: Op, userID: string)
    requires op.LoginPassword?
  {
    var identifier := cfg.normalize(op.identifier);
    identifier.Some? && identifier.value in w.store.identifiers && w.store.identifiers[identifier.value] == userID
  }

  /** The stored hash, or the dummy hash when there is no entry. */
  function HashOf(cfg: Config, s: Store, userID: string): string {
    if userID in s.passwords then s.passwords[userID].hash else cfg.dummyHash
  }

  /** The login's password was verified against the hash stored for this user, or the dummy hash if there is none. */
  predicate PasswordVerified(cfg: Config, w: World, req: Request, userID: string) {
    && req.op.LoginPassword? && Identified(cfg, w, req.op, userID)
    && cfg.crypto.verifyPassword(HashOf(cfg, w.store, userID), req.op.password) == Ok(true)
  }

  /** It was verified against the stored hash. */
  predicate StoredPasswordVerified(cfg: Config, w: World, req: Request, userID: string) {
    && req.op.LoginPassword? && Identified(cfg, w, req.op, userID)
    && userID in w.store.passwords
    && cfg.crypto.verifyPassword(w.store.passwords[userID].hash, req.op.password) == Ok(true)
  }

  /** The code matches the user's confirmed TOTP credential. */
  predicate TOTPMatched(cfg: Config, w: World, req: Request, env: Env, userID: string) {
    && req.op.LoginTOTP?
    && var secret := TOTPSecret(cfg, w.store.totp, userID, true);
       secret.Some? && VerifiesTOTP(cfg, secret.value, req.op.code, env.now)
  }

  /** The code redeems an unused recovery code of the user, which the step marks as used. */
  predicate RecoveryConsumed(cfg: Config, w: World, req: Request, env: Env, v: World, userID: string) {
    && req.op.LoginRecovery?
    && (v.store.recovery, true) == Contract.ConsumeRecoveryCode(
         w.store.recovery, userID, RecoveryProof(cfg, userID, req.op.code), env.now)
  }

  /** A live login challenge was taken and the library vouched for a passkey of the user. */
  predicate PasskeyAsserted(w: World, req: Request, env: Env, v: World, userID: string) {
    && req.op.FinishPasskeyLogin?
    && (v.challenges, true) == TakePasskeyChallenge(w.challenges, req.op.challengeID, env.now, LOGIN, "")
    && env.asserted.Some?
    && var handle := env.asserted.value.userHandle;
       handle in w.store.webAuthnIDs && w.store.webAuthnIDs[handle] == userID
       && HasPasskey(PasskeysOf(w.store.passkeys, userID), env.asserted.value.credential.id)
  }

  /** A login code issued to the user was matched and used up. */
  predicate CodeMatched(cfg: Config, w: World, req: Request, env: Env, userID: string) {
    && req.op.VerifyCode? && req.op.purpose == PURPOSE_LOGIN_CODE
    && var r := Contract.AttemptCode(
         w.store.codes, req.op.id, OneTimeProof(cfg, req.op.id, req.op.purpose, req.op.code), env.now).1;
       r.Ok? && r.value.matched && r.value.code.userID == userID && r.value.code.purpose == PURPOSE_LOGIN_CODE
  }

  /** Why the step from w to v may have created a session of this level for this user. */
  predicate Justified(cfg: Config, w: World, req: Request, env: Env, v: World, userID: string, level: AuthLevel) {
    match level
    case LevelPassword => PasswordVerified(cfg, w, req, userID)
    case LevelMFA =>
      && HoldsPasswordSession(w, req, env, userID)
      && (TOTPMatched(cfg, w, req, env, userID) || RecoveryConsumed(cfg, w, req, env, v, userID))
    case LevelPasskey => PasskeyAsserted(w, req, env, v, userID)
    case LevelCode => CodeMatched(cfg, w, req, env, userID)
  }

  // ------------------------------------------------------------ the effect of one step on sessions

  predicate OnlyRemoves(before: Sessions, after: Sessions) {
    forall id :: id in after ==> id in before && after[id] == before[id]
  }

  /** The response set a cookie, and its session is the one new entry; the cookie it replaces is gone. */
  predicate Rotates(before: Sessions, after: Sessions, req: Request, session: Session) {
    && session.id in after && after[session.id] == session
    && (req.cookie != "" && req.cookie != session.id ==> req.cookie !in after)
    && (forall id :: id in after && id != session.id ==> id in before && after[id] == before[id])
  }

  /** A step either logs somebody in, for a reason, or adds no session. */
  predicate SessionEffect(cfg: Config, w: World, req: Request, env: Env, v: World, r: Response) {
    match r.cookie
    case None => OnlyRemoves(w.store.sessions, v.store.sessions)
    case Some(id) =>
      && id == env.id
      && id in v.store.sessions
      && var s := v.store.sessions[id];
         && s.id == id
         && Rotates(w.store.sessions, v.store.sessions, req, s)
         && Justified(cfg, w, req, env, v, s.userID, s.level)
  }

  lemma LogInEffect(cfg: Config, w: World, req: Request, env: Env, user: User, level: AuthLevel, body: Body)
    requires env.id != ""
    ensures var (v, r) := LogIn(cfg, w, req, env, user, level, body);
            && v == w.(store := w.store.(sessions := v.store.sessions)) && KeepsAccounts(w, v)
            && (r.cookie.None? ==> OnlyRemoves(w.store.sessions, v.store.sessions))
            && (r.cookie.Some? ==>
                  && r.cookie.value == env.id
                  && Rotates(w.store.sessions, v.store.sessions, req, NewSession(cfg, req, env, user, level)))
  {
  }

  lemma NewSessionIsStored(cfg: Config, sessions: Sessions, req: Request, env: Env, user: User, level: AuthLevel)
    requires env.cookieSet && env.id !in sessions
    ensures var (t, ok) := CreateSessionFor(cfg, sessions, req, env, user, level);
            ok && env.id in t && t[env.id] == NewSession(cfg, req, env, user, level)
  {
  }

  lemma CurrentSessionEffect(sessions: Sessions, req: Request, env: Env)
    ensures var (t, found) := CurrentSession(sessions, req, env);
            && OnlyRemoves(sessions, t)
            && (found.Some? <==> req.cookie != "" && req.cookie in sessions && sessions[req.cookie].expiresAt > env.now)
            && (found.Some? ==> t == sessions && sessions[req.cookie] == found.value)
  {
  }

  lemma SessionUserEffect(store: Store, req: Request, env: Env)
    ensures var (t, who) := SessionUser(store, req, env);
            && t == store.(sessions := t.sessions)
            && OnlyRemoves(store.sessions, t.sessions)
            && (who.Refused? ==> who.response.cookie.None?)
            && (who.Known? ==>
                  && req.cookie != "" && req.cookie in store.sessions && store.sessions[req.cookie] == who.session
                  && who.session.expiresAt > env.now
                  && who.session.userID in store.users && store.users[who.session.userID] == who.user
                  && t == store)
  {
    CurrentSessionEffect(store.sessions, req, env);
  }

  lemma AuthenticatedSessionUserEffect(cfg: Config, store: Store, req: Request, env: Env)
    ensures var (t, who) := AuthenticatedSessionUser(cfg, store, req, env);
            && t == store.(sessions := t.sessions)
            && OnlyRemoves(store.sessions, t.sessions)
            && (who.Refused? ==> who.response.cookie.None?)
            && (who.Known? ==>
                  && SessionUser(store, req, env) == (store, who)
                  && CompletesAuthentication(cfg, store.totp, who.user.id, who.session)
                  && t == store)
  {
    SessionUserEffect(store, req, env);
  }

  // ------------------------------------------------------------ handlers that log nobody in

  /** Accounts stay as they are, but for renewed passwords. */
  predicate KeepsAccounts(w: World, v: World) {
    && v.store.users == w.store.users
    && v.store.identifiers == w.store.identifiers
    && v.store.webAuthnIDs == w.store.webAuthnIDs
    && w.store.passwords.Keys <= v.store.passwords.Keys
  }

  /** No cookie is set and no session added. */
  predicate Quiet(w: World, v: World, r: Response) {
    r.cookie.None? && OnlyRemoves(w.store.sessions, v.store.sessions)
  }

  lemma SetupTOTPIsQuiet(cfg: Config, w: World, req: Request, env: Env)
    ensures var (v, r) := SetupTOTPStep(cfg, w, req, env); Quiet(w, v, r)
  {
    AuthenticatedSessionUserEffect(cfg, w.store, req, env);
    hide AuthenticatedSessionUser, Contract.SetTOTP, CodeText.LabelText;
  }

  lemma EnableTOTPIsQuiet(cfg: Config, w: World, env: Env, userID: string)
    requires userID in w.store.totp
    ensures var (v, r) := EnableTOTP(cfg, w, env, userID); Quiet(w, v, r) && v.store.sessions == w.store.sessions
  {
    hide EnableTOTP;
  }

  lemma ConfirmTOTPIsQuiet(cfg: Config, w: World, req: Request, env: Env, code: string)
    ensures var (v, r) := ConfirmTOTPStep(cfg, w, req, env, code); Quiet(w, v, r)
  {
    SessionUserEffect(w.store, req, env);
    var (t, who) := SessionUser(w.store, req, env);
    if who.Known? && who.user.id in t.totp {
      EnableTOTPIsQuiet(cfg, w.(store := t), env, who.user.id);
    }
    hide SessionUser, VerifiesTOTP, EnableTOTP;
  }

  lemma BeginRegistrationIsQuiet(cfg: Config, w: World, req: Request, env: Env, attachment: string)
    ensures var (v, r) := BeginPasskeyRegistrationStep(cfg, w, req, env, attachment); Quiet(w, v, r)
  {
    AuthenticatedSessionUserEffect(cfg, w.store, req, env);
    hide AuthenticatedSessionUser, PutChallenge;
  }

  lemma FinishRegistrationIsQuiet(cfg: Config, w: World, req: Request, env: Env, challengeID: string)
    ensures var (v, r) := FinishPasskeyRegistrationStep(cfg, w, req, env, challengeID); Quiet(w, v, r)
  {
    hide AuthenticatedSessionUser, TakePasskeyChallenge, Contract.SavePasskey, OnlyRemoves;
    AuthenticatedSessionUserEffect(cfg, w.store, req, env);
  }

  lemma BeginLoginIsQuiet(w: World, env: Env)
    ensures var (v, r) := BeginPasskeyLoginStep(w, env); Quiet(w, v, r)
  {
    hide PutChallenge;
  }

  lemma RequestCodeIsQuiet(cfg: Config, w: World, req: Request, env: Env, identifier: string, purpose: string)
    ensures var (v, r) := RequestCodeStep(cfg, w, req, env, identifier, purpose); Quiet(w, v, r)
  {
    hide Limiter.AllowRequest, Contract.SaveCode, OneTimeProof, CodeText.ValidCodePurpose, Addressee;
  }

  lemma ResetPasswordIsQuiet(cfg: Config, w: World, env: Env, user: User, password: string)
    ensures var (v, r) := ResetPassword(cfg, w, env, user, password); Quiet(w, v, r) && KeepsAccounts(w, v)
  {
    hide AcceptablePassword;
  }

  lemma CurrentUserEffect(cfg: Config, store: Store, req: Request, env: Env)
    ensures var (t, user) := CurrentUser(cfg, store, req, env);
            && t == store.(sessions := t.sessions)
            && OnlyRemoves(store.sessions, t.sessions)
            && (user.Some? ==>
                  && t == store
                  && SessionUser(store, req, env).1.Known?
                  && var who := SessionUser(store, req, env).1;
                     who.user == user.value && CompletesAuthentication(cfg, store.totp, who.user.id, who.session))
  {
    CurrentSessionEffect(store.sessions, req, env);
    hide CompletesAuthentication;
  }

  /** The second session lookup finds the store as the first one left it. */
  lemma RequireUserStore(cfg: Config, w: World, req: Request, env: Env)
    ensures RequireUser(cfg, w, req, env).0 == w.(store := CurrentUser(cfg, w.store, req, env).0)
    ensures RequireUser(cfg, w, req, env).1.cookie.None?
  {
    CurrentUserEffect(cfg, w.store, req, env);
    var (t, user) := CurrentUser(cfg, w.store, req, env);
    if user.Some? {
      assert t == w.store;
      CurrentSessionEffect(t.sessions, req, env);
      assert t.(sessions := CurrentSession(t.sessions, req, env).0) == t;
    }
    hide CurrentUser, CurrentSession, SessionUser, CompletesAuthentication;
  }

  lemma RequireUserIsQuiet(cfg: Config, w: World, req: Request, env: Env)
    ensures var (v, r) := RequireUser(cfg, w, req, env); Quiet(w, v, r)
  {
    RequireUserStore(cfg, w, req, env);
    CurrentUserEffect(cfg, w.store, req, env);
    hide RequireUser, CurrentUser, SessionUser, CompletesAuthentication;
  }

  lemma RevokingHandlersAreQuiet(w: World, req: Request, env: Env, userID: string)
    ensures var (v, r) := LogoutStep(w, req, env); Quiet(w, v, r)
    ensures var (v, r) := RevokeAllStep(w, userID); Quiet(w, v, r)
  {
  }

  // ------------------------------------------------------------ handlers that may log in

  /** Nobody loses a password entry, and a new user has one. */
  predicate KeepsPasswords(s: Store, t: Store) {
    s.passwords.Keys <= t.passwords.Keys && t.users.Keys <= s.users.Keys + t.passwords.Keys
  }

  lemma LoginPasswordEffect(cfg: Config, w: World, req: Request, env: Env)
    requires req.op.LoginPassword? && env.id != "" && Registered(w.store)
    ensures var (v, r) := LoginPasswordStep(cfg, w, req, env, req.op.identifier, req.op.password);
            SessionEffect(cfg, w, req, env, v, r) && KeepsAccounts(w, v)
  {
    var identifier := cfg.normalize(req.op.identifier);
    if identifier.Some? && Verifies(cfg, w.store, identifier.value, req.op.password) {
      var user := Contract.UserByIdentifier(w.store, identifier.value).value;
      var store := w.store.(passwords := Rehashed(cfg, w.store, env, user.id));
      var buckets := Limiter.AllowRequest(
        w.buckets, PasswordKey(req.ip, identifier.value), 10, 15 * MINUTE, env.now).0;
      LogInEffect(cfg, w.(buckets := buckets, store := store), req, env, user, LevelPassword,
                  LoginBody(user, ConfirmedTOTP(store.totp, user.id)));
      assert w.store.identifiers[identifier.value] == user.id;
    }
    hide LogIn, Rehashed, Limiter.AllowRequest;
  }

  lemma BeginSecondFactorEffect(w: World, req: Request, env: Env)
    requires Registered(w.store)
    ensures var (v, who) := BeginSecondFactor(w, req, env);
            && v.challenges == w.challenges
            && OnlyRemoves(w.store.sessions, v.store.sessions) && KeepsAccounts(w, v)
            && (who.Refused? ==> who.response.cookie.None?)
            && (who.Known? ==> v.store == w.store && HoldsPasswordSession(w, req, env, who.user.id)
                               && who.user.id == who.session.userID)
  {
    SessionUserEffect(w.store, req, env);
    hide SessionUser, Limiter.AllowRequest;
  }

  lemma LoginTOTPEffect(cfg: Config, w: World, req: Request, env: Env)
    requires req.op.LoginTOTP? && env.id != "" && Registered(w.store)
    ensures var (v, r) := LoginTOTPStep(cfg, w, req, env, req.op.code);
            SessionEffect(cfg, w, req, env, v, r) && KeepsAccounts(w, v)
  {
    BeginSecondFactorEffect(w, req, env);
    var (v, who) := BeginSecondFactor(w, req, env);
    if who.Known? {
      LogInEffect(cfg, v, req, env, who.user, LevelMFA, UserBody(who.user));
    }
    hide BeginSecondFactor, LogIn, TOTPSecret, VerifiesTOTP;
  }

  lemma LoginRecoveryEffect(cfg: Config, w: World, req: Request, env: Env)
    requires req.op.LoginRecovery? && env.id != "" && Registered(w.store)
    ensures var (v, r) := LoginRecoveryStep(cfg, w, req, env, req.op.code);
            SessionEffect(cfg, w, req, env, v, r) && KeepsAccounts(w, v)
  {
    BeginSecondFactorEffect(w, req, env);
    var (v, who) := BeginSecondFactor(w, req, env);
    if who.Known? {
      var recovery := Contract.ConsumeRecoveryCode(
        v.store.recovery, who.user.id, RecoveryProof(cfg, who.user.id, req.op.code), env.now).0;
      LogInEffect(cfg, v.(store := v.store.(recovery := recovery)), req, env, who.user, LevelMFA, UserBody(who.user));
    }
    hide BeginSecondFactor, LogIn, Contract.ConsumeRecoveryCode, RecoveryProof;
  }

  lemma FinishPasskeyLoginEffect(cfg: Config, w: World, req: Request, env: Env)
    requires req.op.FinishPasskeyLogin? && env.id != "" && Registered(w.store)
    ensures var (v, r) := FinishPasskeyLoginStep(cfg, w, req, env, req.op.challengeID);
            SessionEffect(cfg, w, req, env, v, r) && KeepsAccounts(w, v)
  {
    var found := AssertedUser(w.store, env.asserted);
    if found.Some? {
      var list := PasskeysOf(w.store.passkeys, found.value.id);
      var i := PasskeyIndex(list, env.asserted.value.credential.id);
      if i < |list| {
        assert HasPasskey(list, env.asserted.value.credential.id);
        var updated := env.asserted.value.credential.(name := list[i].name, createdAt := list[i].createdAt);
        var passkeys := Contract.UpdatePasskey(w.store.passkeys, found.value.id, updated, list[i].signCount).0;
        var challenges := TakePasskeyChallenge(w.challenges, req.op.challengeID, env.now, LOGIN, "").0;
        LogInEffect(cfg, w.(challenges := challenges, store := w.store.(passkeys := passkeys)), req, env,
                    found.value, LevelPasskey, UserBody(found.value));
      }
    }
    hide LogIn, Contract.UpdatePasskey, TakePasskeyChallenge;
  }

  lemma MarkVerifiedIsQuiet(w: World, user: User)
    ensures var (v, r) := MarkVerified(w, user);
            && r.cookie.None? && v.store.sessions == w.store.sessions && KeepsPasswords(w.store, v.store)
            && (Registered(w.store) ==> Registered(v.store))
  {
  }

  lemma ApplyVerifiedCodeEffect(
    cfg: Config, w: World, req: Request, env: Env, user: User, purpose: string, password: string)
    requires env.id != ""
    ensures var (v, r) := ApplyVerifiedCode(cfg, w, req, env, user, purpose, password);
            && (Registered(w.store) ==> Registered(v.store)) && KeepsPasswords(w.store, v.store)
            && (r.cookie.None? ==> OnlyRemoves(w.store.sessions, v.store.sessions))
            && (r.cookie.Some? ==>
                  && r.cookie.value == env.id && purpose == PURPOSE_LOGIN_CODE
                  && Rotates(w.store.sessions, v.store.sessions, req, NewSession(cfg, req, env, user, LevelCode)))
  {
    LogInEffect(cfg, w, req, env, user, LevelCode, UserBody(user));
    ResetPasswordIsQuiet(cfg, w, env, user, password);
    MarkVerifiedIsQuiet(w, user);
    assert forall v: World :: KeepsAccounts(w, v) ==>
        (Registered(w.store) ==> Registered(v.store)) && KeepsPasswords(w.store, v.store);
    hide LogIn, ResetPassword, MarkVerified, Rotates, Registered, KeepsAccounts, KeepsPasswords;
  }

  lemma VerifyCodeEffect(cfg: Config, w: World, req: Request, env: Env)
    requires req.op.VerifyCode? && env.id != "" && Registered(w.store)
    ensures var (v, r) := VerifyCodeStep(cfg, w, req, env, req.op.id, req.op.code, req.op.purpose, req.op.password);
            SessionEffect(cfg, w, req, env, v, r) && Registered(v.store) && KeepsPasswords(w.store, v.store)
  {
    var proof := OneTimeProof(cfg, req.op.id, req.op.purpose, req.op.code);
    var (codes, r) := Contract.AttemptCode(w.store.codes, req.op.id, proof, env.now);
    if r.Ok? && r.value.code.userID in w.store.users {
      var user := w.store.users[r.value.code.userID];
      ApplyVerifiedCodeEffect(
        cfg, w.(store := w.store.(codes := codes)), req, env, user, req.op.purpose, req.op.password);
    }
    hide ApplyVerifiedCode, Contract.AttemptCode, OneTimeProof, CodeText.ValidCodePurpose;
  }

  lemma CreateKeepsRegistered(store: Store, input: NewUser, password: PasswordCredential, now: Time)
    requires Registered(store)
    ensures var t := Contract.CreatePasswordUser(store, input, input.webAuthnID, password, now).0;
            Registered(t) && KeepsPasswords(store, t)
  {
  }

  lemma RegisterEffect(
    cfg: Config, w: World, env: Env, identifier: string, displayName: string, password: string)
    requires Registered(w.store)
    ensures var (v, r) := RegisterPasswordStep(cfg, w, env, identifier, displayName, password);
            && r.cookie.None? && v.store.sessions == w.store.sessions
            && Registered(v.store) && KeepsPasswords(w.store, v.store)
  {
    var normalized := cfg.normalize(identifier);
    if normalized.Some? && env.hashed.Some? {
      CreateKeepsRegistered(w.store, NewUser(env.id, normalized.value, displayName, env.bytes),
                            PasswordCredential(env.hashed.value, env.now), env.now);
    }
    hide AcceptablePassword, Registered;
  }

  lemma QuietKeepsRegistered(w: World, v: World)
    requires Registered(w.store) && KeepsAccounts(w, v)
    ensures Registered(v.store) && KeepsPasswords(w.store, v.store)
  {
  }

  lemma QuietHandlers(cfg: Config, w: World, req: Request, env: Env)
    requires !(req.op.LoginPassword? || req.op.LoginTOTP? || req.op.LoginRecovery? || req.op.FinishPasskeyLogin?
               || req.op.VerifyCode? || req.op.RegisterPassword?)
    ensures var (v, r) := Handle(cfg, w, req, env); Quiet(w, v, r) && KeepsAccounts(w, v)
  {
    HandleOnlyWrites(cfg, w, req, env);
    match req.op
    case SetupTOTP => SetupTOTPIsQuiet(cfg, w, req, env);
    case ConfirmTOTP(code) => ConfirmTOTPIsQuiet(cfg, w, req, env, code);
    case RequestCode(identifier, purpose) => RequestCodeIsQuiet(cfg, w, req, env, identifier, purpose);
    case BeginPasskeyRegistration(attachment) => BeginRegistrationIsQuiet(cfg, w, req, env, attachment);
    case FinishPasskeyRegistration(id) => FinishRegistrationIsQuiet(cfg, w, req, env, id);
    case BeginPasskeyLogin => BeginLoginIsQuiet(w, env);
    case Protected => RequireUserIsQuiet(cfg, w, req, env);
    case Logout => RevokingHandlersAreQuiet(w, req, env, "");
    case RevokeAll(userID) => RevokingHandlersAreQuiet(w, req, env, userID);
    hide SetupTOTPStep, ConfirmTOTPStep, RequestCodeStep, BeginPasskeyRegistrationStep, FinishPasskeyRegistrationStep,
      BeginPasskeyLoginStep, RequireUser, LogoutStep, RevokeAllStep;
  }

  /** Every handler: a session appears only with the response's cookie and only for its reason. */
  lemma HandleEffect(cfg: Config, w: World, req: Request, env: Env)
    requires env.id != "" && Registered(w.store)
    ensures var (v, r) := Handle(cfg, w, req, env);
            SessionEffect(cfg, w, req, env, v, r) && Registered(v.store) && KeepsPasswords(w.store, v.store)
  {
    var v := Handle(cfg, w, req, env).0;
    if RouteEnabled(cfg, req.op) {
      match req.op
      case LoginPassword(_, _) =>
        LoginPasswordEffect(cfg, w, req, env);
        QuietKeepsRegistered(w, v);
      case LoginTOTP(_) =>
        LoginTOTPEffect(cfg, w, req, env);
        QuietKeepsRegistered(w, v);
      case LoginRecovery(_) =>
        LoginRecoveryEffect(cfg, w, req, env);
        QuietKeepsRegistered(w, v);
      case FinishPasskeyLogin(_) =>
        FinishPasskeyLoginEffect(cfg, w, req, env);
        QuietKeepsRegistered(w, v);
      case VerifyCode(_, _, _, _) => VerifyCodeEffect(cfg, w, req, env);
      case RegisterPassword(identifier, displayName, password) =>
        RegisterEffect(cfg, w, env, identifier, displayName, password);
      case _ =>
        QuietHandlers(cfg, w, req, env);
        QuietKeepsRegistered(w, v);
    }
    hide LoginPasswordStep, LoginTOTPStep, LoginRecoveryStep, FinishPasskeyLoginStep, VerifyCodeStep, Registered,
      RegisterPasswordStep, Justified;
  }

  // ------------------------------------------------------------ whole runs

  /** Users stay filed, nobody loses a password entry, and a user without one was handed in without one. */
  lemma {:induction false} RunKeepsRegistered(cfg: Config, start: Store, steps: seq<Step>)
    requires Registered(start) && FreshIDs(start, steps)
    ensures Registered(After(cfg, start, steps).store)
    ensures KeepsPasswords(start, After(cfg, start, steps).store)
  {
    if steps != [] {
      var last := steps[|steps| - 1];
      RunKeepsRegistered(cfg, start, steps[..|steps| - 1]);
      HandleEffect(cfg, After(cfg, start, steps[..|steps| - 1]), last.req, last.env);
    }
    hide Handle, SessionEffect, Registered;
  }

  lemma AfterStep(cfg: Config, start: Store, steps: seq<Step>, i: nat)
    requires i < |steps|
    ensures Handle(cfg, Before(cfg, start, steps, i), steps[i].req, steps[i].env)
            == (After(cfg, start, steps[..i + 1]), ResponseTo(cfg, start, steps, i))
  {
    assert steps[..i + 1][..i] == steps[..i];
    hide Handle;
  }

  /** Whenever a response sets a cookie, its session is new, and justified by that very step. */
  lemma EveryLoginIsJustified(cfg: Config, start: Store, steps: seq<Step>, i: nat)
    requires Registered(start) && FreshIDs(start, steps) && i < |steps|
    ensures SessionEffect(cfg, Before(cfg, start, steps, i), steps[i].req, steps[i].env,
                          After(cfg, start, steps[..i + 1]), ResponseTo(cfg, start, steps, i))
  {
    AfterStep(cfg, start, steps, i);
    RunKeepsRegistered(cfg, start, steps[..i]);
    HandleEffect(cfg, Before(cfg, start, steps, i), steps[i].req, steps[i].env);
    hide Handle, SessionEffect, Registered;
  }

  /** The session was in the store when it was handed in. */
  predicate HandedIn(start: Store, session: Session) {
    session.id in start.sessions && start.sessions[session.id] == session
  }

  /** Step k drew this session id, set it as the cookie, and was entitled to a session of this user and level. */
  ghost predicate Origin(cfg: Config, start: Store, steps: seq<Step>, k: nat, session: Session) {
    && k < |steps|
    && steps[k].env.id == session.id
    && ResponseTo(cfg, start, steps, k).cookie == Some(session.id)
    && Justified(cfg, Before(cfg, start, steps, k), steps[k].req, steps[k].env, After(cfg, start, steps[..k + 1]),
                 session.userID, session.level)
  }

  lemma OriginInLonger(cfg: Config, start: Store, steps: seq<Step>, n: nat, k: nat, session: Session)
    requires n <= |steps| && Origin(cfg, start, steps[..n], k, session)
    ensures Origin(cfg, start, steps, k, session)
  {
    assert steps[..n][..k] == steps[..k] && steps[..n][..k + 1] == steps[..k + 1] && steps[..n][k] == steps[k];
    hide Justified, Handle;
  }

  /** Every session of every reachable world was handed in with the store or has an origin. */
  lemma {:induction false} SessionProvenance(cfg: Config, start: Store, steps: seq<Step>, id: string)
    requires Filed(start) && FreshIDs(start, steps) && id in After(cfg, start, steps).store.sessions
    ensures var session := After(cfg, start, steps).store.sessions[id];
            session.id == id
            && (HandedIn(start, session) || exists k: nat :: Origin(cfg, start, steps, k, session))
  {
    if steps != [] {
      var n := |steps| - 1;
      var session := After(cfg, start, steps).store.sessions[id];
      assert steps[..n + 1] == steps;
      EveryLoginIsJustified(cfg, start, steps, n);
      if ResponseTo(cfg, start, steps, n).cookie == Some(id) {
        assert Origin(cfg, start, steps, n, session);
      } else {
        assert id in Before(cfg, start, steps, n).store.sessions;
        assert Before(cfg, start, steps, n).store.sessions[id] == session;
        SessionProvenance(cfg, start, steps[..n], id);
        if !HandedIn(start, session) {
          var k: nat :| Origin(cfg, start, steps[..n], k, session);
          OriginInLonger(cfg, start, steps, n, k, session);
        }
      }
    }
    hide Handle, Justified, Registered;
  }

  /** In particular the session a request's cookie names. */
  lemma CookieOrigin(cfg: Config, start: Store, steps: seq<Step>, i: nat, id: string)
    requires Filed(start) && FreshIDs(start, steps) && i < |steps|
    requires id in Before(cfg, start, steps, i).store.sessions
    ensures var session := Before(cfg, start, steps, i).store.sessions[id];
            session.id == id
            && (HandedIn(start, session) || exists k: nat :: k < i && Origin(cfg, start, steps, k, session))
  {
    SessionProvenance(cfg, start, steps[..i], id);
    var session := Before(cfg, start, steps, i).store.sessions[id];
    if !HandedIn(start, session) {
      var k: nat :| Origin(cfg, start, steps[..i], k, session);
      OriginInLonger(cfg, start, steps, i, k, session);
    }
    hide Handle, Justified, Filed;
  }

  // ------------------------------------------------------------ second-factor upgrades

  /** Step i turned a password session into an MFA session. */
  predicate Upgrades(cfg: Config, start: Store, steps: seq<Step>, i: nat)
    requires i < |steps|
  {
    && ResponseTo(cfg, start, steps, i).cookie == Some(steps[i].env.id)
    && steps[i].env.id in After(cfg, start, steps[..i + 1]).store.sessions
    && After(cfg, start, steps[..i + 1]).store.sessions[steps[i].env.id].level == LevelMFA
  }

  /** Step k verified this user's password and issued exactly this session id. */
  predicate IssuedByPassword(cfg: Config, start: Store, steps: seq<Step>, k: nat, userID: string, id: string)
    requires k < |steps|
  {
    && steps[k].env.id == id
    && ResponseTo(cfg, start, steps, k).cookie == Some(id)
    && PasswordVerified(cfg, Before(cfg, start, steps, k), steps[k].req, userID)
  }

  /**
   An upgrade matched a TOTP code or consumed a recovery code of its user, and the cookie it came with names a password
   session that was handed in or was issued earlier by a step that verified that user's password.
   */
  lemma UpgradeFollowsPassword(cfg: Config, start: Store, steps: seq<Step>, i: nat)
    requires Filed(start) && FreshIDs(start, steps) && i < |steps| && Upgrades(cfg, start, steps, i)
    ensures var w, v := Before(cfg, start, steps, i), After(cfg, start, steps[..i + 1]);
            var userID := v.store.sessions[steps[i].env.id].userID;
            var cookie := steps[i].req.cookie;
            && HoldsPasswordSession(w, steps[i].req, steps[i].env, userID)
            && (TOTPMatched(cfg, w, steps[i].req, steps[i].env, userID)
                || RecoveryConsumed(cfg, w, steps[i].req, steps[i].env, v, userID))
            && (HandedIn(start, w.store.sessions[cookie])
                || exists k: nat :: k < i && IssuedByPassword(cfg, start, steps, k, userID, cookie))
  {
    EveryLoginIsJustified(cfg, start, steps, i);
    hide Handle, After, Registered;
    var id := steps[i].req.cookie;
    CookieOrigin(cfg, start, steps, i, id);
    var session := Before(cfg, start, steps, i).store.sessions[id];
    if !HandedIn(start, session) {
      var k: nat :| k < i && Origin(cfg, start, steps, k, session);
      assert IssuedByPassword(cfg, start, steps, k, session.userID, id);
    }
  }

  lemma NotReissued(cfg: Config, start: Store, steps: seq<Step>, m: nat, id: string)
    requires Registered(start) && FreshIDs(start, steps) && m < |steps| && steps[m].env.id != id
    requires id !in After(cfg, start, steps[..m]).store.sessions
    ensures id !in After(cfg, start, steps[..m + 1]).store.sessions
  {
    EveryLoginIsJustified(cfg, start, steps, m);
    hide Handle, Justified, Registered;
  }

  /** The id was in use before step n: in the store handed in, or drawn by an earlier step. */
  ghost predicate UsedBefore(start: Store, steps: seq<Step>, id: string, n: nat) {
    id in start.sessions || exists k :: 0 <= k < n && k < |steps| && steps[k].env.id == id
  }

  lemma StoredIsUsed(cfg: Config, start: Store, steps: seq<Step>, id: string, n: nat)
    requires Filed(start) && FreshIDs(start, steps) && n <= |steps|
    requires id in After(cfg, start, steps[..n]).store.sessions
    ensures UsedBefore(start, steps, id, n)
  {
    SessionProvenance(cfg, start, steps[..n], id);
    var session := After(cfg, start, steps[..n]).store.sessions[id];
    if !HandedIn(start, session) {
      var k: nat :| Origin(cfg, start, steps[..n], k, session);
      assert steps[k].env.id == id;
    }
    hide Handle, Justified, Filed;
  }

  /** A session id that was in use and is gone never comes back. */
  lemma {:induction false} GoneStaysGone(
    cfg: Config, start: Store, steps: seq<Step>, id: string, n: nat, m: nat)
    requires Registered(start) && FreshIDs(start, steps) && n <= m <= |steps| && UsedBefore(start, steps, id, n)
    requires id !in After(cfg, start, steps[..n]).store.sessions
    ensures id !in After(cfg, start, steps[..m]).store.sessions
    decreases m
  {
    hide After, Registered;
    if n < m {
      GoneStaysGone(cfg, start, steps, id, n, m - 1);
      NotReissued(cfg, start, steps, m - 1, id);
    }
  }

  lemma UpgradeRemovesCookie(cfg: Config, start: Store, steps: seq<Step>, i: nat)
    requires Filed(start) && FreshIDs(start, steps) && i < |steps| && Upgrades(cfg, start, steps, i)
    ensures steps[i].req.cookie !in After(cfg, start, steps[..i + 1]).store.sessions
    ensures UsedBefore(start, steps, steps[i].req.cookie, i)
  {
    EveryLoginIsJustified(cfg, start, steps, i);
    hide Handle, Registered, After;
    StoredIsUsed(cfg, start, steps, steps[i].req.cookie, i);
  }

  /** The upgrade uses up its password session: that cookie never names a session again. */
  lemma UpgradeSpendsCookie(cfg: Config, start: Store, steps: seq<Step>, i: nat, m: nat)
    requires Filed(start) && FreshIDs(start, steps) && i < m <= |steps| && Upgrades(cfg, start, steps, i)
    ensures steps[i].req.cookie !in After(cfg, start, steps[..m]).store.sessions
  {
    hide After, Handle;
    UpgradeRemovesCookie(cfg, start, steps, i);
    GoneStaysGone(cfg, start, steps, steps[i].req.cookie, i + 1, m);
  }

  /**
   So two upgrades never share a password session: MFA sessions map injectively to the password sessions handed in and
   the password logins.
   */
  lemma UpgradesUseDistinctLogins(cfg: Config, start: Store, steps: seq<Step>, i: nat, j: nat)
    requires Filed(start) && FreshIDs(start, steps) && i < j < |steps|
    requires Upgrades(cfg, start, steps, i) && Upgrades(cfg, start, steps, j)
    ensures steps[i].req.cookie != steps[j].req.cookie
    ensures steps[i].req.cookie !in start.sessions && steps[j].req.cookie !in start.sessions ==>
              exists k: nat, l: nat :: k < i && l < j && k != l
                && steps[k].env.id == steps[i].req.cookie && steps[k].req.op.LoginPassword?
                && steps[l].env.id == steps[j].req.cookie && steps[l].req.op.LoginPassword?
  {
    UpgradeFollowsPassword(cfg, start, steps, i);
    UpgradeFollowsPassword(cfg, start, steps, j);
    UpgradeSpendsCookie(cfg, start, steps, i, j);
    hide Handle, Filed, After;
    if steps[i].req.cookie !in start.sessions && steps[j].req.cookie !in start.sessions {
      var k := LoginBehind(cfg, start, steps, i);
      var l := LoginBehind(cfg, start, steps, j);
    }
  }

  lemma LoginBehind(cfg: Config, start: Store, steps: seq<Step>, i: nat) returns (k: nat)
    requires Filed(start) && FreshIDs(start, steps) && i < |steps| && Upgrades(cfg, start, steps, i)
    requires steps[i].req.cookie !in start.sessions
    ensures k < i && steps[k].env.id == steps[i].req.cookie && steps[k].req.op.LoginPassword?
  {
    UpgradeFollowsPassword(cfg, start, steps, i);
    var userID := After(cfg, start, steps[..i + 1]).store.sessions[steps[i].env.id].userID;
    CookieOrigin(cfg, start, steps, i, steps[i].req.cookie);
    k :| k < i && IssuedByPassword(cfg, start, steps, k, userID, steps[i].req.cookie);
    hide Handle, Filed;
  }
}
