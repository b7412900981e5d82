/** What a password session cannot do once its user has a confirmed TOTP credential. */
module SecondFactorGate {
  import opened Models
  import opened Contract = StoreContract
  import opened Handlers
  import opened HandlerFrames
  import opened StoreInvariant
  import opened Provenance
  import PasskeyCounter
  import CodeText
  import Limiter

  // ------------------------------------------------------------ protected handlers

  /** The cookie names a live session of an existing, enabled user that completes authentication. */
  predicate Authenticates(cfg: Config, store: Store, req: Request, env: Env) {
    && req.cookie != "" && req.cookie in store.sessions
    && var s := store.sessions[req.cookie];
       && s.expiresAt > env.now
       && s.userID in store.users
       && var user := store.users[s.userID];
          !user.disabled && CompletesAuthentication(cfg, store.totp, user.id, s)
  }

  lemma CurrentUserIff(cfg: Config, store: Store, req: Request, env: Env)
    ensures var (t, user) := CurrentUser(cfg, store, req, env);
            && (user.Some? <==> Authenticates(cfg, store, req, env))
            && (user.Some? ==> t == store && user.value == store.users[store.sessions[req.cookie].userID])
  {
    CurrentSessionEffect(store.sessions, req, env);
    hide CompletesAuthentication;
  }

  /** `RequireUser` lets a request through exactly then, and passes on the user and level of that session. */
  lemma RequireUserIff(cfg: Config, w: World, req: Request, env: Env)
    ensures var r := RequireUser(cfg, w, req, env).1;
            && (r.body.PrincipalBody? <==> Authenticates(cfg, w.store, req, env))
            && (r.body.PrincipalBody? ==>
                  var s := w.store.sessions[req.cookie];
                  r.body.principal == Principal(w.store.users[s.userID].id, s.level, s.authenticatedAt))
  {
    CurrentUserIff(cfg, w.store, req, env);
    var (t, user) := CurrentUser(cfg, w.store, req, env);
    if user.Some? {
      assert t == w.store;
      CurrentSessionEffect(w.store.sessions, req, env);
    }
    hide CurrentUser, CompletesAuthentication;
  }

  /** While TOTP is enabled and confirmed for a user, next never runs with a password-level principal of that user. */
  lemma NoPasswordPrincipal(cfg: Config, w: World, req: Request, env: Env)
    requires cfg.totpEnabled
    ensures var r := RequireUser(cfg, w, req, env).1;
            r.body.PrincipalBody? && r.body.principal.level == LevelPassword
            ==> !ConfirmedTOTP(w.store.totp, r.body.principal.userID)
  {
    RequireUserIff(cfg, w, req, env);
    hide RequireUser;
  }

  // ------------------------------------------------------------ changes to second factors

  /** The same recovery codes, of which some unused ones may have been marked as used. */
  predicate OnlyMarked(before: seq<RecoveryCode>, after: seq<RecoveryCode>) {
    && |after| == |before|
    && forall i :: 0 <= i < |before| ==>
         && after[i].proof == before[i].proof
         && (after[i].usedAt == before[i].usedAt || before[i].usedAt == ZERO_TIME)
  }

  /** The user's TOTP credential, recovery set and passkeys are the same; no used recovery code became unused. */
  predicate KeepsFactors(w: World, v: World, userID: string) {
    && (userID in w.store.totp ==> userID in v.store.totp && v.store.totp[userID] == w.store.totp[userID])
    && OnlyMarked(RecoveryOf(w.store.recovery, userID), RecoveryOf(v.store.recovery, userID))
    && PasskeyCounter.IDs(PasskeysOf(v.store.passkeys, userID))
       == PasskeyCounter.IDs(PasskeysOf(w.store.passkeys, userID))
  }

  /** The request came with a live session of this user above password level. */
  predicate HoldsStrongSession(w: World, req: Request, env: Env, userID: string) {
    && req.cookie in w.store.sessions
    && var s := w.store.sessions[req.cookie];
       s.userID == userID && s.level != LevelPassword && s.expiresAt > env.now
  }

  predicate SameFactors(w: World, v: World) {
    v.store.totp == w.store.totp && v.store.recovery == w.store.recovery && v.store.passkeys == w.store.passkeys
  }

  lemma LogInKeepsFactors(cfg: Config, w: World, req: Request, env: Env, user: User, level: AuthLevel, body: Body)
    ensures SameFactors(w, LogIn(cfg, w, req, env, user, level, body).0)
  {
    hide CreateSessionFor;
  }

  lemma SameKeepsFactors(w: World, v: World, userID: string)
    requires SameFactors(w, v)
    ensures KeepsFactors(w, v, userID)
  {
  }

  lemma SetupTOTPGate(cfg: Config, w: World, req: Request, env: Env, userID: string)
    requires cfg.totpEnabled && IdentifiersMatch(w.store.users, w.store.identifiers)
    requires ConfirmedTOTP(w.store.totp, userID)
    ensures KeepsFactors(w, SetupTOTPStep(cfg, w, req, env).0, userID) || HoldsStrongSession(w, req, env, userID)
  {
    AuthenticatedSessionUserEffect(cfg, w.store, req, env);
    SessionUserEffect(w.store, req, env);
    var who := AuthenticatedSessionUser(cfg, w.store, req, env).1;
    if who.Known? {
      assert who.user.id == who.session.userID;
    }
    hide AuthenticatedSessionUser, CodeText.LabelText;
  }

  lemma FinishRegistrationGate(cfg: Config, w: World, req: Request, env: Env, userID: string, challengeID: string)
    requires cfg.totpEnabled && IdentifiersMatch(w.store.users, w.store.identifiers)
    requires ConfirmedTOTP(w.store.totp, userID)
    ensures KeepsFactors(w, FinishPasskeyRegistrationStep(cfg, w, req, env, challengeID).0, userID)
            || HoldsStrongSession(w, req, env, userID)
  {
    AuthenticatedSessionUserEffect(cfg, w.store, req, env);
    SessionUserEffect(w.store, req, env);
    var who := AuthenticatedSessionUser(cfg, w.store, req, env).1;
    if who.Known? {
      assert who.user.id == who.session.userID;
    }
    hide AuthenticatedSessionUser, TakePasskeyChallenge, PasskeyTaken;
  }

  lemma EnableTOTPWrites(cfg: Config, w: World, env: Env, enabled: string)
    requires enabled in w.store.totp
    ensures var v := EnableTOTP(cfg, w, env, enabled).0;
            var confirmed := w.store.totp[enabled := w.store.totp[enabled].(confirmed := true)];
            || v == w
            || v.store == w.store.(totp := confirmed)
            || (enabled in v.store.recovery
                && v.store == w.store.(
                     totp := confirmed, recovery := w.store.recovery[enabled := v.store.recovery[enabled]]))
  {
    hide RecoveryTexts, RecoveryProofs;
    if enabled in w.store.users && DrewRecoveryCodes(env) {
      var codes := RecoveryProofs(cfg, enabled, RecoveryTexts(env.recoveryBytes));
      assert EnableTOTP(cfg, w, env, enabled).0.store.recovery == w.store.recovery[enabled := codes];
    }
  }

  lemma EnableTOTPGate(cfg: Config, w: World, env: Env, enabled: string, userID: string)
    requires enabled in w.store.totp && !w.store.totp[enabled].confirmed && ConfirmedTOTP(w.store.totp, userID)
    ensures KeepsFactors(w, EnableTOTP(cfg, w, env, enabled).0, userID)
  {
    assert enabled != userID;
    EnableTOTPWrites(cfg, w, env, enabled);
    var v := EnableTOTP(cfg, w, env, enabled).0;
    hide EnableTOTP, PasskeyCounter.IDs;
    assert RecoveryOf(v.store.recovery, userID) == RecoveryOf(w.store.recovery, userID);
  }

  lemma ConfirmTOTPGate(cfg: Config, w: World, req: Request, env: Env, userID: string, code: string)
    requires ConfirmedTOTP(w.store.totp, userID)
    ensures KeepsFactors(w, ConfirmTOTPStep(cfg, w, req, env, code).0, userID)
  {
    SessionUserEffect(w.store, req, env);
    var (t, who) := SessionUser(w.store, req, env);
    if who.Known? && who.user.id in t.totp && !t.totp[who.user.id].confirmed {
      EnableTOTPGate(cfg, w.(store := t), env, who.user.id, userID);
    }
    hide SessionUser, VerifiesTOTP, EnableTOTP;
  }

  lemma ConsumeOnlyMarks(recovery: Recovery, userID: string, proof: Bytes, now: Time, other: string)
    ensures OnlyMarked(RecoveryOf(recovery, other),
                       RecoveryOf(Contract.ConsumeRecoveryCode(recovery, userID, proof, now).0, other))
  {
  }

  lemma LoginRecoveryGate(cfg: Config, w: World, req: Request, env: Env, userID: string, code: string)
    ensures KeepsFactors(w, LoginRecoveryStep(cfg, w, req, env, code).0, userID)
  {
    BeginSecondFactorKeepsFactors(w, req, env);
    var (v, who) := BeginSecondFactor(w, req, env);
    if who.Known? {
      var proof := RecoveryProof(cfg, who.user.id, code);
      ConsumeOnlyMarks(v.store.recovery, who.user.id, proof, env.now, userID);
      var recovery := Contract.ConsumeRecoveryCode(v.store.recovery, who.user.id, proof, env.now).0;
      LogInKeepsFactors(cfg, v.(store := v.store.(recovery := recovery)), req, env, who.user, LevelMFA,
                        UserBody(who.user));
    }
    hide BeginSecondFactor, LogIn, Contract.ConsumeRecoveryCode, RecoveryProof;
  }

  lemma BeginSecondFactorKeepsFactors(w: World, req: Request, env: Env)
    ensures SameFactors(w, BeginSecondFactor(w, req, env).0)
  {
    SessionUserEffect(w.store, req, env);
    hide SessionUser, Limiter.AllowRequest;
  }

  lemma FinishPasskeyLoginGate(cfg: Config, w: World, req: Request, env: Env, userID: string, challengeID: string)
    ensures KeepsFactors(w, FinishPasskeyLoginStep(cfg, w, req, env, challengeID).0, userID)
  {
    var found := AssertedUser(w.store, env.asserted);
    if found.Some? {
      var list := PasskeysOf(w.store.passkeys, found.value.id);
      var i := PasskeyIndex(list, env.asserted.value.credential.id);
      if i < |list| {
        var updated := env.asserted.value.credential.(name := list[i].name, createdAt := list[i].createdAt);
        PasskeyCounter.UpdateKeepsIDs(w.store.passkeys, found.value.id, updated, list[i].signCount, userID);
        var passkeys := Contract.UpdatePasskey(w.store.passkeys, found.value.id, updated, list[i].signCount).0;
        var challenges := TakePasskeyChallenge(w.challenges, challengeID, env.now, LOGIN, "").0;
        LogInKeepsFactors(cfg, w.(challenges := challenges, store := w.store.(passkeys := passkeys)), req, env,
                          found.value, LevelPasskey, UserBody(found.value));
      }
    }
    hide LogIn, Contract.UpdatePasskey, TakePasskeyChallenge, AssertedUser;
  }

  predicate TouchesFactors(op: Op) {
    || op.SetupTOTP? || op.ConfirmTOTP? || op.LoginRecovery? || op.FinishPasskeyRegistration? || op.FinishPasskeyLogin?
  }

  lemma OtherHandlersKeepFactors(cfg: Config, w: World, req: Request, env: Env)
    requires !TouchesFactors(req.op)
    ensures SameFactors(w, Handle(cfg, w, req, env).0)
  {
    hide Handle;
    HandleOnlyWrites(cfg, w, req, env);
  }

  /**
   Whatever the request: if it changes the TOTP credential, the recovery set or the passkeys of a user whose TOTP is
   confirmed, it came with a live session of that same user above password level.
   */
  lemma FactorsNeedStrongSession(cfg: Config, w: World, req: Request, env: Env, userID: string)
    requires cfg.totpEnabled && IdentifiersMatch(w.store.users, w.store.identifiers)
    requires ConfirmedTOTP(w.store.totp, userID)
    ensures KeepsFactors(w, Handle(cfg, w, req, env).0, userID) || HoldsStrongSession(w, req, env, userID)
  {
    SameKeepsFactors(w, w, userID);
    match req.op
    case SetupTOTP => SetupTOTPGate(cfg, w, req, env, userID);
    case ConfirmTOTP(code) => ConfirmTOTPGate(cfg, w, req, env, userID, code);
    case LoginRecovery(code) => LoginRecoveryGate(cfg, w, req, env, userID, code);
    case FinishPasskeyRegistration(id) => FinishRegistrationGate(cfg, w, req, env, userID, id);
    case FinishPasskeyLogin(id) => FinishPasskeyLoginGate(cfg, w, req, env, userID, id);
    case _ =>
      OtherHandlersKeepFactors(cfg, w, req, env);
      SameKeepsFactors(w, Handle(cfg, w, req, env).0, userID);
    hide SetupTOTPStep, ConfirmTOTPStep, LoginRecoveryStep, FinishPasskeyRegistrationStep, FinishPasskeyLoginStep,
      KeepsFactors, HoldsStrongSession;
  }

  /** In every run, and the session that was needed was handed in above password level or has an origin there. */
  lemma FactorsNeedStrongOrigin(cfg: Config, start: Store, steps: seq<Step>, i: nat, userID: string)
    requires Filed(start) && FreshIDs(start, steps) && i < |steps| && cfg.totpEnabled
    requires ConfirmedTOTP(Before(cfg, start, steps, i).store.totp, userID)
    requires !KeepsFactors(Before(cfg, start, steps, i), After(cfg, start, steps[..i + 1]), userID)
    ensures HoldsStrongSession(Before(cfg, start, steps, i), steps[i].req, steps[i].env, userID)
    ensures var session := Before(cfg, start, steps, i).store.sessions[steps[i].req.cookie];
            HandedIn(start, session) || exists k: nat :: k < i && Origin(cfg, start, steps, k, session)
  {
    var w := Before(cfg, start, steps, i);
    RunKeepsRegistered(cfg, start, steps[..i]);
    AfterStep(cfg, start, steps, i);
    FactorsNeedStrongSession(cfg, w, steps[i].req, steps[i].env, userID);
    hide Handle, KeepsFactors, Justified, CompletesAuthentication;
    CookieOrigin(cfg, start, steps, i, steps[i].req.cookie);
  }
}
