/** Which parts of the world each handler may write. Everything it does not name stays as it was. */
module HandlerFrames {
  import opened Models
  import opened Contract = StoreContract
  import opened Handlers
  import Challenges
  import CodeText
  import Limiter

  predicate OnlyWrites(op: Op, w: World, v: World) {
    && (v.store.users == w.store.users || op.RegisterPassword? || op.VerifyCode?)
    && (v.store.identifiers == w.store.identifiers || op.RegisterPassword?)
    && (v.store.webAuthnIDs == w.store.webAuthnIDs || op.RegisterPassword?)
    && (v.store.passwords == w.store.passwords || op.RegisterPassword? || op.LoginPassword? || op.VerifyCode?)
    && (v.store.passkeys == w.store.passkeys || op.FinishPasskeyRegistration? || op.FinishPasskeyLogin?)
    && (v.store.totp == w.store.totp || op.SetupTOTP? || op.ConfirmTOTP?)
    && (v.store.recovery == w.store.recovery || op.ConfirmTOTP? || op.LoginRecovery?)
    && (v.store.codes == w.store.codes || op.RequestCode? || op.VerifyCode?)
    && (op.RegisterPassword? || op.RequestCode? || op.BeginPasskeyLogin? ==> v.store.sessions == w.store.sessions)
    && (v.challenges == w.challenges || op.BeginPasskeyRegistration? || op.FinishPasskeyRegistration?
        || op.BeginPasskeyLogin? || op.FinishPasskeyLogin?)
    && (v.buckets == w.buckets || op.LoginPassword? || op.LoginTOTP? || op.LoginRecovery? || op.RequestCode?)
  }

  // ------------------------------------------------------------ what handlers are made of

  lemma LogInWrites(cfg: Config, w: World, req: Request, env: Env, user: User, level: AuthLevel, body: Body)
    ensures var v := LogIn(cfg, w, req, env, user, level, body).0;
            v == w.(store := w.store.(sessions := v.store.sessions))
  {
    hide CreateSessionFor;
  }

  lemma SessionUserWrites(store: Store, req: Request, env: Env)
    ensures var t := SessionUser(store, req, env).0; t == store.(sessions := t.sessions)
  {
    hide CurrentSession, Contract.UserByID;
  }

  lemma LookupsWrite(cfg: Config, store: Store, req: Request, env: Env)
    ensures var t := SessionUser(store, req, env).0; t == store.(sessions := t.sessions)
    ensures var t := AuthenticatedSessionUser(cfg, store, req, env).0; t == store.(sessions := t.sessions)
  {
    hide SessionUser, CompletesAuthentication;
    SessionUserWrites(store, req, env);
  }

  lemma CurrentUserWrites(cfg: Config, store: Store, req: Request, env: Env)
    ensures var t := CurrentUser(cfg, store, req, env).0; t == store.(sessions := t.sessions)
  {
    hide CurrentSession, CompletesAuthentication, Contract.UserByID;
    var sessions := CurrentSession(store.sessions, req, env).0;
    var evicted := sessions - {req.cookie};
    assert store.(sessions := sessions).(sessions := evicted) == store.(sessions := evicted);
  }

  lemma BeginSecondFactorWrites(w: World, req: Request, env: Env)
    ensures var v := BeginSecondFactor(w, req, env).0;
            v == w.(buckets := v.buckets, store := w.store.(sessions := v.store.sessions))
  {
    hide CurrentSession, Limiter.AllowRequest;
  }

  // ------------------------------------------------------------ one handler at a time

  lemma CreateWrites(s: Store, input: NewUser, password: PasswordCredential, now: Time)
    ensures var t := Contract.CreatePasswordUser(s, input, input.webAuthnID, password, now).0;
            t == s.(users := t.users, identifiers := t.identifiers, webAuthnIDs := t.webAuthnIDs,
                    passwords := t.passwords)
  {
    hide CanCreate;
  }

  lemma RegisterWrites(cfg: Config, w: World, env: Env, identifier: string, displayName: string, password: string)
    ensures var v := RegisterPasswordStep(cfg, w, env, identifier, displayName, password).0;
            v == w.(store := w.store.(users := v.store.users, identifiers := v.store.identifiers,
                                      webAuthnIDs := v.store.webAuthnIDs, passwords := v.store.passwords))
  {
    hide AcceptablePassword, Contract.CreatePasswordUser;
    var normalized := cfg.normalize(identifier);
    if normalized.Some? && env.hashed.Some? {
      CreateWrites(w.store, NewUser(env.id, normalized.value, displayName, env.bytes),
                   PasswordCredential(env.hashed.value, env.now), env.now);
    }
  }

  lemma LoginPasswordWrites(cfg: Config, w: World, req: Request, env: Env, identifier: string, password: string)
    ensures var v := LoginPasswordStep(cfg, w, req, env, identifier, password).0;
            v == w.(buckets := v.buckets,
                    store := w.store.(passwords := v.store.passwords, sessions := v.store.sessions))
  {
    hide Limiter.AllowRequest, Verifies, Rehashed, CreateSessionFor, ConfirmedTOTP;
  }

  lemma SetupTOTPWrites(cfg: Config, w: World, req: Request, env: Env)
    ensures var v := SetupTOTPStep(cfg, w, req, env).0;
            v == w.(store := w.store.(totp := v.store.totp, sessions := v.store.sessions))
  {
    hide AuthenticatedSessionUser, Contract.SetTOTP, CodeText.LabelText;
    LookupsWrite(cfg, w.store, req, env);
  }

  lemma ConfirmTOTPWrites(cfg: Config, w: World, req: Request, env: Env, code: string)
    ensures var v := ConfirmTOTPStep(cfg, w, req, env, code).0;
            v == w.(store := w.store.(totp := v.store.totp, recovery := v.store.recovery,
                                      sessions := v.store.sessions))
  {
    hide SessionUser, VerifiesTOTP, TOTPSecret, TOTPProblem, EnableTOTP;
    SessionUserWrites(w.store, req, env);
  }

  lemma SecondFactorWrites(cfg: Config, w: World, req: Request, env: Env, code: string)
    ensures var v := LoginTOTPStep(cfg, w, req, env, code).0;
            v == w.(buckets := v.buckets, store := w.store.(sessions := v.store.sessions))
    ensures var v := LoginRecoveryStep(cfg, w, req, env, code).0;
            v == w.(buckets := v.buckets,
                    store := w.store.(recovery := v.store.recovery, sessions := v.store.sessions))
  {
    hide BeginSecondFactor, CreateSessionFor, VerifiesTOTP, TOTPSecret, Contract.ConsumeRecoveryCode, RecoveryProof;
    BeginSecondFactorWrites(w, req, env);
  }

  lemma BeginPasskeyWrites(cfg: Config, w: World, req: Request, env: Env, attachment: string)
    ensures var v := BeginPasskeyRegistrationStep(cfg, w, req, env, attachment).0;
            v == w.(challenges := v.challenges, store := w.store.(sessions := v.store.sessions))
    ensures var v := BeginPasskeyLoginStep(w, env).0; v == w.(challenges := v.challenges)
  {
    hide AuthenticatedSessionUser, Challenges.PutChallenge;
    LookupsWrite(cfg, w.store, req, env);
  }

  lemma FinishRegistrationWrites(cfg: Config, w: World, req: Request, env: Env, challengeID: string)
    ensures var v := FinishPasskeyRegistrationStep(cfg, w, req, env, challengeID).0;
            v == w.(challenges := v.challenges,
                    store := w.store.(passkeys := v.store.passkeys, sessions := v.store.sessions))
  {
    hide AuthenticatedSessionUser, TakePasskeyChallenge, Contract.SavePasskey;
    LookupsWrite(cfg, w.store, req, env);
  }

  lemma FinishLoginWrites(cfg: Config, w: World, req: Request, env: Env, challengeID: string)
    ensures var v := FinishPasskeyLoginStep(cfg, w, req, env, challengeID).0;
            v == w.(challenges := v.challenges,
                    store := w.store.(passkeys := v.store.passkeys, sessions := v.store.sessions))
  {
    hide TakePasskeyChallenge, Contract.UpdatePasskey, AssertedUser, CreateSessionFor, PasskeyIndex;
  }

  lemma RequestCodeWrites(cfg: Config, w: World, req: Request, env: Env, identifier: string, purpose: string)
    ensures var v := RequestCodeStep(cfg, w, req, env, identifier, purpose).0;
            v == w.(buckets := v.buckets, store := w.store.(codes := v.store.codes))
  {
    hide Limiter.AllowRequest, Contract.SaveCode, OneTimeProof, CodeText.ValidCodePurpose, Addressee;
  }

  lemma ResetWrites(cfg: Config, w: World, env: Env, user: User, password: string)
    ensures var v := ResetPassword(cfg, w, env, user, password).0;
            v == w.(store := w.store.(passwords := v.store.passwords, sessions := v.store.sessions))
  {
    hide AcceptablePassword, Contract.SetPassword, Contract.RevokeUserSessions;
  }

  lemma MarkWrites(w: World, user: User)
    ensures var v := MarkVerified(w, user).0; v == w.(store := w.store.(users := v.store.users))
  {
  }

  lemma ApplyWrites(
    cfg: Config, w: World, req: Request, env: Env, user: User, purpose: string, password: string)
    ensures var v := ApplyVerifiedCode(cfg, w, req, env, user, purpose, password).0;
            v == w.(store := w.store.(users := v.store.users, passwords := v.store.passwords,
                                      sessions := v.store.sessions))
  {
    hide LogIn, ResetPassword, MarkVerified;
    if purpose == PURPOSE_LOGIN_CODE {
      LogInWrites(cfg, w, req, env, user, LevelCode, UserBody(user));
    } else if purpose == PURPOSE_VERIFY_ACCOUNT {
      MarkWrites(w, user);
    } else {
      ResetWrites(cfg, w, env, user, password);
    }
  }

  /** A verification does nothing, counts an attempt, or counts it and applies the code. */
  lemma VerifyCodeShape(
    cfg: Config, w: World, req: Request, env: Env, id: string, code: string, purpose: string, password: string)
    ensures var (codes, r) := Contract.AttemptCode(w.store.codes, id, OneTimeProof(cfg, id, purpose, code), env.now);
            var u, v := w.(store := w.store.(codes := codes)),
                        VerifyCodeStep(cfg, w, req, env, id, code, purpose, password).0;
            || v == w || v == u
            || (&& r.Ok? && r.value.code.userID in w.store.users
                && v == ApplyVerifiedCode(
                          cfg, u, req, env, w.store.users[r.value.code.userID], purpose, password).0)
  {
    hide ApplyVerifiedCode, Contract.AttemptCode, OneTimeProof, CodeText.ValidCodePurpose;
    var (codes, r) := Contract.AttemptCode(w.store.codes, id, OneTimeProof(cfg, id, purpose, code), env.now);
    var u := w.(store := w.store.(codes := codes));
    if r.Ok? && r.value.code.userID in w.store.users {
      assert Contract.UserByID(u.store, r.value.code.userID) == Ok(w.store.users[r.value.code.userID]);
    }
  }

  lemma VerifyCodeWrites(
    cfg: Config, w: World, req: Request, env: Env, id: string, code: string, purpose: string, password: string)
    ensures var v := VerifyCodeStep(cfg, w, req, env, id, code, purpose, password).0;
            v == w.(store := w.store.(users := v.store.users, passwords := v.store.passwords,
                                      codes := v.store.codes, sessions := v.store.sessions))
  {
    hide VerifyCodeStep, ApplyVerifiedCode, Contract.AttemptCode, OneTimeProof;
    VerifyCodeShape(cfg, w, req, env, id, code, purpose, password);
    var (codes, r) := Contract.AttemptCode(w.store.codes, id, OneTimeProof(cfg, id, purpose, code), env.now);
    if r.Ok? && r.value.code.userID in w.store.users {
      ApplyWrites(cfg, w.(store := w.store.(codes := codes)), req, env, w.store.users[r.value.code.userID], purpose,
                  password);
    }
  }

  lemma RequireUserWrites(cfg: Config, w: World, req: Request, env: Env)
    ensures var v := RequireUser(cfg, w, req, env).0; v == w.(store := w.store.(sessions := v.store.sessions))
  {
    hide CurrentUser, CurrentSession;
    CurrentUserWrites(cfg, w.store, req, env);
    var t := CurrentUser(cfg, w.store, req, env).0;
    assert t.(sessions := CurrentSession(t.sessions, req, env).0)
        == w.store.(sessions := CurrentSession(t.sessions, req, env).0);
  }

  lemma RevokingHandlersWrite(w: World, req: Request, env: Env, userID: string)
    ensures var v := LogoutStep(w, req, env).0; v == w.(store := w.store.(sessions := v.store.sessions))
    ensures var v := RevokeAllStep(w, userID).0; v == w.(store := w.store.(sessions := v.store.sessions))
  {
    hide Contract.RevokeUserSessions;
  }

  /** Every handler stays within its part. */
  lemma HandleOnlyWrites(cfg: Config, w: World, req: Request, env: Env)
    ensures OnlyWrites(req.op, w, Handle(cfg, w, req, env).0)
  {
    hide RegisterPasswordStep, LoginPasswordStep, SetupTOTPStep, ConfirmTOTPStep, LoginTOTPStep, LoginRecoveryStep,
      BeginPasskeyRegistrationStep, FinishPasskeyRegistrationStep, BeginPasskeyLoginStep, FinishPasskeyLoginStep,
      RequestCodeStep, VerifyCodeStep, RequireUser, LogoutStep, RevokeAllStep, RouteEnabled;
    match req.op
    case RegisterPassword(identifier, displayName, password) =>
      RegisterWrites(cfg, w, env, identifier, displayName, password);
    case LoginPassword(identifier, password) => LoginPasswordWrites(cfg, w, req, env, identifier, password);
    case SetupTOTP => SetupTOTPWrites(cfg, w, req, env);
    case ConfirmTOTP(code) => ConfirmTOTPWrites(cfg, w, req, env, code);
    case LoginTOTP(code) => SecondFactorWrites(cfg, w, req, env, code);
    case LoginRecovery(code) => SecondFactorWrites(cfg, w, req, env, code);
    case BeginPasskeyRegistration(attachment) => BeginPasskeyWrites(cfg, w, req, env, attachment);
    case FinishPasskeyRegistration(id) => FinishRegistrationWrites(cfg, w, req, env, id);
    case BeginPasskeyLogin => BeginPasskeyWrites(cfg, w, req, env, "");
    case FinishPasskeyLogin(id) => FinishLoginWrites(cfg, w, req, env, id);
    case RequestCode(identifier, purpose) => RequestCodeWrites(cfg, w, req, env, identifier, purpose);
    case VerifyCode(id, code, purpose, password) => VerifyCodeWrites(cfg, w, req, env, id, code, purpose, password);
    case Logout => RevokingHandlersWrite(w, req, env, "");
    case Protected => RequireUserWrites(cfg, w, req, env);
    case RevokeAll(userID) => RevokingHandlersWrite(w, req, env, userID);
  }
}
