/** The store invariant under the handlers: over any well-formed store handed in, every run keeps it well formed. */
module HandlerInvariant {
  import opened Models
  import opened Contract = StoreContract
  import opened StoreCalls
  import opened StoreInvariant
  import opened HandlerFrames
  import opened Handlers
  import opened Provenance
  import opened CodeRuns
  import CodeText
  import Limiter

  /** Users and indexes agree, and passwords belong to users. */
  ghost predicate AccountsFit(
    users: map<string, User>, identifiers: map<string, string>, index: map<Bytes, string>, passwords: Passwords)
  {
    && IdentifiersMatch(users, identifiers)
    && IndexIsBijection(users.Keys, index)
    && IndexedByOwnID(users, index)
    && passwords.Keys <= users.Keys
  }

  ghost predicate Fits(s: Store) { AccountsFit(s.users, s.identifiers, s.webAuthnIDs, s.passwords) }

  /** The other credentials belong to users, and passkey ids are unique. */
  ghost predicate CredentialsFit(s: Store) {
    && s.passkeys.Keys <= s.users.Keys && PasskeysUnique(s.passkeys)
    && s.totp.Keys <= s.users.Keys && s.recovery.Keys <= s.users.Keys
  }

  lemma FitIsWellFormed(s: Store)
    ensures WellFormed(s) && IndexedByOwnID(s.users, s.webAuthnIDs)
            <==> Fits(s) && CredentialsFit(s) && SessionsFiled(s.sessions) && CodesFiled(s.codes)
  {
    hide IdentifiersMatch, IndexIsBijection, IndexedByOwnID, PasskeysUnique, SessionsFiled, CodesFiled;
  }

  // ------------------------------------------------------------ accounts

  lemma RegisterKeepsFit(
    cfg: Config, w: World, env: Env, identifier: string, displayName: string, password: string)
    requires WellFormed(w.store) && IndexedByOwnID(w.store.users, w.store.webAuthnIDs)
    ensures var t := RegisterPasswordStep(cfg, w, env, identifier, displayName, password).0.store;
            WellFormed(t) && IndexedByOwnID(t.users, t.webAuthnIDs)
  {
    hide AcceptablePassword, WellFormed, IndexedByOwnID, CanCreate;
    var normalized := cfg.normalize(identifier);
    if normalized.Some? && env.hashed.Some? {
      var call := UserCall.CreatePasswordUser(
        NewUser(env.id, normalized.value, displayName, env.bytes), PasswordCredential(env.hashed.value, env.now),
        env.now);
      UserStepKeepsWellFormed(w.store, call, Raw);
      UserStepKeepsIndexedByOwnID(w.store, call);
    }
  }

  lemma LoginKeepsOwners(cfg: Config, w: World, req: Request, env: Env, identifier: string, password: string)
    requires w.store.passwords.Keys <= w.store.users.Keys
    ensures LoginPasswordStep(cfg, w, req, env, identifier, password).0.store.passwords.Keys <= w.store.users.Keys
  {
    hide Limiter.AllowRequest, CreateSessionFor, Verifies, ConfirmedTOTP;
  }

  lemma LoginKeepsFit(cfg: Config, w: World, req: Request, env: Env, identifier: string, password: string)
    requires Fits(w.store)
    ensures Fits(LoginPasswordStep(cfg, w, req, env, identifier, password).0.store)
  {
    hide LoginPasswordStep, IdentifiersMatch, IndexIsBijection, IndexedByOwnID;
    LoginKeepsOwners(cfg, w, req, env, identifier, password);
    LoginPasswordWrites(cfg, w, req, env, identifier, password);
  }

  /** Marking a user and resetting a password leave the indexes right. */
  lemma ApplyKeepsFit(
    cfg: Config, w: World, req: Request, env: Env, user: User, purpose: string, password: string)
    requires Fits(w.store)
    ensures var t := ApplyVerifiedCode(cfg, w, req, env, user, purpose, password).0.store;
            Fits(t) && t.users.Keys == w.store.users.Keys
  {
    if purpose == PURPOSE_LOGIN_CODE {
      LogInWrites(cfg, w, req, env, user, LevelCode, UserBody(user));
    } else if purpose == PURPOSE_VERIFY_ACCOUNT {
      MarkKeepsFit(w, user);
    } else {
      ResetKeepsFit(cfg, w, env, user, password);
    }
    hide LogIn, MarkVerified, ResetPassword;
  }

  lemma MarkKeepsFit(w: World, user: User)
    requires Fits(w.store)
    ensures var t := MarkVerified(w, user).0.store; Fits(t) && t.users.Keys == w.store.users.Keys
  {
    hide IdentifiersMatch, IndexIsBijection, IndexedByOwnID;
    if user.id in w.store.users {
      MarkedMatch(w.store.users, w.store.identifiers, w.store.webAuthnIDs, user.id);
    }
  }

  lemma MarkedMatch(
    users: map<string, User>, identifiers: map<string, string>, index: map<Bytes, string>, id: string)
    requires id in users && IdentifiersMatch(users, identifiers) && IndexedByOwnID(users, index)
    ensures var marked := users[id := users[id].(verified := true)];
            marked.Keys == users.Keys && IdentifiersMatch(marked, identifiers) && IndexedByOwnID(marked, index)
  {
    assert users[id := users[id].(verified := true)].Keys == users.Keys;
  }

  lemma ResetKeepsFit(cfg: Config, w: World, env: Env, user: User, password: string)
    requires Fits(w.store)
    ensures var t := ResetPassword(cfg, w, env, user, password).0.store;
            Fits(t) && t.users.Keys == w.store.users.Keys
  {
    hide AcceptablePassword, Contract.RevokeUserSessions, IdentifiersMatch, IndexIsBijection, IndexedByOwnID;
  }

  lemma VerifyCodeKeepsFit(
    cfg: Config, w: World, req: Request, env: Env, id: string, code: string, purpose: string, password: string)
    requires Fits(w.store)
    ensures var t := VerifyCodeStep(cfg, w, req, env, id, code, purpose, password).0.store;
            Fits(t) && t.users.Keys == w.store.users.Keys
  {
    hide VerifyCodeStep, ApplyVerifiedCode, Contract.AttemptCode, OneTimeProof, AccountsFit;
    VerifyCodeShape(cfg, w, req, env, id, code, purpose, password);
    var (codes, r) := Contract.AttemptCode(w.store.codes, id, OneTimeProof(cfg, id, purpose, code), env.now);
    if r.Ok? && r.value.code.userID in w.store.users {
      ApplyKeepsFit(cfg, w.(store := w.store.(codes := codes)), req, env, w.store.users[r.value.code.userID], purpose,
                    password);
    }
  }

  lemma RegisterKeepsUsers(
    cfg: Config, w: World, env: Env, identifier: string, displayName: string, password: string)
    ensures w.store.users.Keys
            <= RegisterPasswordStep(cfg, w, env, identifier, displayName, password).0.store.users.Keys
  {
    hide AcceptablePassword, CanCreate;
  }

  /** A registration keeps the accounts part, and removes no user. */
  lemma RegisterKeepsAccounts(
    cfg: Config, w: World, env: Env, identifier: string, displayName: string, password: string)
    requires WellFormed(w.store) && IndexedByOwnID(w.store.users, w.store.webAuthnIDs)
    ensures var t := RegisterPasswordStep(cfg, w, env, identifier, displayName, password).0.store;
            Fits(t) && w.store.users.Keys <= t.users.Keys
  {
    hide RegisterPasswordStep, WellFormed, IndexedByOwnID, AccountsFit, CredentialsFit;
    RegisterKeepsFit(cfg, w, env, identifier, displayName, password);
    FitIsWellFormed(RegisterPasswordStep(cfg, w, env, identifier, displayName, password).0.store);
    RegisterKeepsUsers(cfg, w, env, identifier, displayName, password);
  }

  /** So does every other handler. */
  lemma HandleKeepsAccounts(cfg: Config, w: World, req: Request, env: Env)
    requires WellFormed(w.store) && IndexedByOwnID(w.store.users, w.store.webAuthnIDs)
    ensures var t := Handle(cfg, w, req, env).0.store; Fits(t) && w.store.users.Keys <= t.users.Keys
  {
    hide RegisterPasswordStep, LoginPasswordStep, VerifyCodeStep, CredentialsFit, WellFormed, IndexedByOwnID,
      AccountsFit;
    FitIsWellFormed(w.store);
    HandleOnlyWrites(cfg, w, req, env);
    match req.op
    case RegisterPassword(identifier, displayName, password) =>
      RegisterKeepsAccounts(cfg, w, env, identifier, displayName, password);
    case LoginPassword(identifier, password) => LoginKeepsFit(cfg, w, req, env, identifier, password);
    case VerifyCode(id, code, purpose, password) => VerifyCodeKeepsFit(cfg, w, req, env, id, code, purpose, password);
    case _ => hide Handle;
  }

  // ------------------------------------------------------------ credentials

  lemma SetupKeepsOwners(cfg: Config, w: World, req: Request, env: Env)
    requires w.store.totp.Keys <= w.store.users.Keys
    ensures SetupTOTPStep(cfg, w, req, env).0.store.totp.Keys <= w.store.users.Keys
  {
    hide AuthenticatedSessionUser, CodeText.LabelText;
    LookupsWrite(cfg, w.store, req, env);
  }

  lemma ConfirmKeepsOwners(cfg: Config, w: World, req: Request, env: Env, code: string)
    requires w.store.totp.Keys <= w.store.users.Keys && w.store.recovery.Keys <= w.store.users.Keys
    ensures var t := ConfirmTOTPStep(cfg, w, req, env, code).0.store;
            t.totp.Keys <= w.store.users.Keys && t.recovery.Keys <= w.store.users.Keys
  {
    hide SessionUser, VerifiesTOTP, RecoveryTexts, RecoveryProofs, DrewRecoveryCodes;
    LookupsWrite(cfg, w.store, req, env);
  }

  lemma LoginRecoveryKeepsOwners(cfg: Config, w: World, req: Request, env: Env, code: string)
    requires w.store.recovery.Keys <= w.store.users.Keys
    ensures LoginRecoveryStep(cfg, w, req, env, code).0.store.recovery.Keys <= w.store.users.Keys
  {
    hide BeginSecondFactor, LogIn, RecoveryProof, Contract.ConsumeRecoveryCode;
    BeginSecondFactorWrites(w, req, env);
    var (v, who) := BeginSecondFactor(w, req, env);
    if who.Known? {
      var proof := RecoveryProof(cfg, who.user.id, code);
      var recovery := Contract.ConsumeRecoveryCode(v.store.recovery, who.user.id, proof, env.now).0;
      RecoveryStepKeepsOwners(w.store.users.Keys, w.store.recovery,
                              ConsumeRecoveryCode(who.user.id, proof, env.now));
      LogInWrites(cfg, v.(store := v.store.(recovery := recovery)), req, env, who.user, LevelMFA, UserBody(who.user));
    }
  }

  lemma FinishRegistrationKeepsPasskeys(cfg: Config, w: World, req: Request, env: Env, id: string)
    requires PasskeysUnique(w.store.passkeys) && w.store.passkeys.Keys <= w.store.users.Keys
    ensures var t := FinishPasskeyRegistrationStep(cfg, w, req, env, id).0.store;
            PasskeysUnique(t.passkeys) && t.passkeys.Keys <= w.store.users.Keys
  {
    hide AuthenticatedSessionUser, TakePasskeyChallenge, Contract.SavePasskey, PasskeysUnique;
    LookupsWrite(cfg, w.store, req, env);
    var (t, who) := AuthenticatedSessionUser(cfg, w.store, req, env);
    if who.Known? && env.registered.Some? {
      var call := SavePasskey(who.user.id, env.registered.value.(createdAt := env.now));
      PasskeyStepKeepsUnique(t.users.Keys, t.passkeys, call);
    }
  }

  lemma FinishLoginKeepsPasskeys(cfg: Config, w: World, req: Request, env: Env, id: string)
    requires PasskeysUnique(w.store.passkeys) && w.store.passkeys.Keys <= w.store.users.Keys
    ensures var t := FinishPasskeyLoginStep(cfg, w, req, env, id).0.store;
            PasskeysUnique(t.passkeys) && t.passkeys.Keys <= w.store.users.Keys
  {
    hide TakePasskeyChallenge, LogIn, Contract.UpdatePasskey, PasskeysUnique, Contract.UserByWebAuthnID;
    var found := AssertedUser(w.store, env.asserted);
    if found.Some? {
      var list := PasskeysOf(w.store.passkeys, found.value.id);
      var i := PasskeyIndex(list, env.asserted.value.credential.id);
      if i < |list| {
        var updated := env.asserted.value.credential.(name := list[i].name, createdAt := list[i].createdAt);
        PasskeyStepKeepsUnique(w.store.users.Keys, w.store.passkeys,
                               UpdatePasskey(found.value.id, updated, list[i].signCount));
        var passkeys := Contract.UpdatePasskey(w.store.passkeys, found.value.id, updated, list[i].signCount).0;
        var challenges := TakePasskeyChallenge(w.challenges, id, env.now, LOGIN, "").0;
        LogInWrites(cfg, w.(challenges := challenges, store := w.store.(passkeys := passkeys)), req, env, found.value,
                    LevelPasskey, UserBody(found.value));
      }
    }
  }

  lemma HandleKeepsCredentials(cfg: Config, w: World, req: Request, env: Env)
    requires CredentialsFit(w.store)
    ensures var t := Handle(cfg, w, req, env).0.store; t.users.Keys >= w.store.users.Keys ==> CredentialsFit(t)
  {
    hide SetupTOTPStep, ConfirmTOTPStep, LoginRecoveryStep, FinishPasskeyRegistrationStep, FinishPasskeyLoginStep,
      PasskeysUnique;
    HandleOnlyWrites(cfg, w, req, env);
    match req.op
    case SetupTOTP => SetupKeepsOwners(cfg, w, req, env);
    case ConfirmTOTP(code) => ConfirmKeepsOwners(cfg, w, req, env, code);
    case LoginRecovery(code) => LoginRecoveryKeepsOwners(cfg, w, req, env, code);
    case FinishPasskeyRegistration(id) => FinishRegistrationKeepsPasskeys(cfg, w, req, env, id);
    case FinishPasskeyLogin(id) => FinishLoginKeepsPasskeys(cfg, w, req, env, id);
    case _ => hide Handle;
  }

  // ------------------------------------------------------------ sessions and codes

  lemma EffectKeepsFiled(cfg: Config, w: World, req: Request, env: Env, v: World, r: Response)
    requires SessionEffect(cfg, w, req, env, v, r) && CodeEffect(cfg, w, req, env, v)
    requires SessionsFiled(w.store.sessions) && CodesFiled(w.store.codes)
    ensures SessionsFiled(v.store.sessions) && CodesFiled(v.store.codes)
  {
    hide Justified, Compares, OneTimeProof, Addressee, Recipient;
  }

  // ------------------------------------------------------------ the whole invariant

  /** Every handler keeps the store well formed. */
  lemma HandleKeepsWellFormed(cfg: Config, w: World, req: Request, env: Env)
    requires env.id != "" && WellFormed(w.store) && IndexedByOwnID(w.store.users, w.store.webAuthnIDs)
    ensures var t := Handle(cfg, w, req, env).0.store; WellFormed(t) && IndexedByOwnID(t.users, t.webAuthnIDs)
  {
    var (v, r) := Handle(cfg, w, req, env);
    HandleEffect(cfg, w, req, env);
    HandleCodeEffect(cfg, w, req, env);
    EffectKeepsFiled(cfg, w, req, env, v, r);
    FitIsWellFormed(w.store);
    HandleKeepsAccounts(cfg, w, req, env);
    HandleKeepsCredentials(cfg, w, req, env);
    FitIsWellFormed(v.store);
    hide Handle, SessionEffect, CodeEffect, AccountsFit, CredentialsFit, IndexedByOwnID;
  }

  /** So does every run, over any well-formed store handed in. */
  lemma {:induction false} RunKeepsWellFormed(cfg: Config, start: Store, steps: seq<Step>)
    requires WellFormed(start) && IndexedByOwnID(start.users, start.webAuthnIDs) && FreshIDs(start, steps)
    ensures var s := After(cfg, start, steps).store; WellFormed(s) && IndexedByOwnID(s.users, s.webAuthnIDs)
  {
    hide Handle, WellFormed, IndexedByOwnID;
    if steps != [] {
      var last := steps[|steps| - 1];
      RunKeepsWellFormed(cfg, start, steps[..|steps| - 1]);
      HandleKeepsWellFormed(cfg, After(cfg, start, steps[..|steps| - 1]), last.req, last.env);
    }
  }
}
