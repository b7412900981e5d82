/** A disabled user is shut out of every handler: no session is made for them and none of theirs gets through. */
module DisabledUsers {
  import opened Models
  import opened Contract = StoreContract
  import opened CodeOutcomes
  import opened Handlers
  import opened Outcomes
  import opened PasskeyOutcomes
  import opened PasswordOutcomes
  import opened Provenance
  import opened SecondFactorOutcomes
  import opened SessionOutcomes

  /** The id is that of an existing, enabled user. */
  predicate Enabled(s: Store, userID: string) {
    userID in s.users && !s.users[userID].disabled
  }

  /** If the response sets a cookie, its session is of a user who was enabled before the step. */
  predicate OnlyForEnabled(w: World, v: World, r: Response) {
    r.cookie.Some? ==> r.cookie.value in v.store.sessions && Enabled(w.store, v.store.sessions[r.cookie.value].userID)
  }

  lemma OpenedHas(cfg: Config, sessions: Sessions, req: Request, env: Env, userID: string, level: AuthLevel)
    ensures var t := Opened(cfg, sessions, req, env, userID, level); env.id in t && t[env.id].userID == userID
  {
  }

  lemma PasswordLoginOnlyForEnabled(cfg: Config, w: World, req: Request, env: Env)
    requires Registered(w.store) && req.op.LoginPassword?
    ensures var (v, r) := Handle(cfg, w, req, env); OnlyForEnabled(w, v, r)
  {
    hide Handle, Opens, Opened, AfterRehash, Rotated, Registered;
    if userID :| userID in w.store.users && Identified(cfg, w, req.op, userID) {
      LoginIff(cfg, w, req, env, userID);
      OpenedHas(cfg, w.store.sessions, req, env, userID, LevelPassword);
      hide WithinPasswordLimit, HashOf, Identified;
    } else {
      UnknownIsRefused(cfg, w, req, env);
    }
  }

  lemma SecondFactorOnlyForEnabled(cfg: Config, w: World, req: Request, env: Env)
    requires Registered(w.store) && (req.op.LoginTOTP? || req.op.LoginRecovery?)
    ensures var (v, r) := Handle(cfg, w, req, env); OnlyForEnabled(w, v, r)
  {
    hide Handle, Opens, Opened, Rotated, Registered, CodeFits, RecoveryProofOf;
    var userID := Caller(w.store, req);
    OpenedHas(cfg, w.store.sessions, req, env, userID, LevelMFA);
    if req.op.LoginTOTP? {
      TOTPLoginIff(cfg, w, req, env);
    } else if k: nat :| StepUp(cfg, w, req, env, userID) && env.decoded && env.policy && userID in w.store.recovery
                        && Unused(w.store.recovery[userID], k, RecoveryProofOf(cfg, userID, req.op.code)) {
      RecoveryLoginSucceeds(cfg, w, req, env, k);
    } else {
      RecoveryLoginFails(cfg, w, req, env);
    }
  }

  lemma PasskeyLoginOnlyForEnabled(cfg: Config, w: World, req: Request, env: Env)
    requires Registered(w.store) && req.op.FinishPasskeyLogin?
    ensures var (v, r) := Handle(cfg, w, req, env); OnlyForEnabled(w, v, r)
  {
    hide Handle, Opens, Opened, Rotated, Registered, Refreshed, Live, Asserted;
    FinishLoginIff(cfg, w, req, env);
    OpenedHas(cfg, w.store.sessions, req, env, Asserted(w.store, env), LevelPasskey);
  }

  lemma VerificationOnlyForEnabled(cfg: Config, w: World, req: Request, env: Env)
    requires Registered(w.store) && req.op.VerifyCode?
    ensures var (v, r) := Handle(cfg, w, req, env); OnlyForEnabled(w, v, r)
  {
    hide Handle, Opens, Opened, Rotated, Registered, ProofOf, ApplyVerifiedCode, CodesAfter;
    VerificationIff(cfg, w, req, env);
    var userID := CodeUser(w.store, req);
    OpenedHas(cfg, w.store.sessions, req, env, userID, LevelCode);
    if VerificationAccepted(cfg, w.store, req, env, userID) {
      if req.op.purpose == "login_code" {
        CodeLoginIff(cfg, w, req, env);
      } else if req.op.purpose == "verify_account" {
        AccountVerificationIff(cfg, w, req, env);
      } else {
        ResetIff(cfg, w, req, env);
      }
    }
  }

  /** Every handler logs in enabled users only. */
  lemma HandleOnlyForEnabled(cfg: Config, w: World, req: Request, env: Env)
    requires Registered(w.store) && env.id != ""
    ensures var (v, r) := Handle(cfg, w, req, env); OnlyForEnabled(w, v, r)
  {
    hide Handle, OnlyForEnabled, Registered;
    match req.op
    case LoginPassword(_, _) => PasswordLoginOnlyForEnabled(cfg, w, req, env);
    case LoginTOTP(_) => SecondFactorOnlyForEnabled(cfg, w, req, env);
    case LoginRecovery(_) => SecondFactorOnlyForEnabled(cfg, w, req, env);
    case FinishPasskeyLogin(_) => PasskeyLoginOnlyForEnabled(cfg, w, req, env);
    case VerifyCode(_, _, _, _) => VerificationOnlyForEnabled(cfg, w, req, env);
    case _ => OthersSetNoCookie(cfg, w, req, env);
  }

  lemma OthersSetNoCookie(cfg: Config, w: World, req: Request, env: Env)
    requires !(req.op.LoginPassword? || req.op.LoginTOTP? || req.op.LoginRecovery? || req.op.FinishPasskeyLogin?
               || req.op.VerifyCode?)
    ensures var (v, r) := Handle(cfg, w, req, env); OnlyForEnabled(w, v, r)
  {
    hide Enabled;
    if req.op.RegisterPassword? {
      RegistrationSetsNoCookie(cfg, w, req, env);
    } else {
      QuietHandlers(cfg, w, req, env);
    }
    hide Handle;
  }

  lemma RegistrationSetsNoCookie(cfg: Config, w: World, req: Request, env: Env)
    requires req.op.RegisterPassword?
    ensures Handle(cfg, w, req, env).1.cookie.None?
  {
    hide AcceptablePassword, Contract.CreatePasswordUser;
  }

  // ------------------------------------------------------------ whole runs

  lemma DisabledStays(cfg: Config, start: Store, steps: seq<Step>, i: nat, j: nat, userID: string)
    requires Registered(start) && FreshIDs(start, steps) && i <= j <= |steps|
    requires var s := After(cfg, start, steps[..i]).store; userID in s.users && s.users[userID].disabled
    ensures !Enabled(After(cfg, start, steps[..j]).store, userID)
  {
    hide After, Registered;
    RunKeepsUsers(cfg, start, steps, i, j);
  }

  /** From when a user is disabled, no step of a run makes a session of that user or lets one through. */
  lemma DisabledStaysOut(cfg: Config, start: Store, steps: seq<Step>, i: nat, j: nat, userID: string)
    requires Registered(start) && FreshIDs(start, steps) && i <= j < |steps|
    requires var s := After(cfg, start, steps[..i]).store; userID in s.users && s.users[userID].disabled
    ensures var v, r := After(cfg, start, steps[..j + 1]), ResponseTo(cfg, start, steps, j);
            && (r.cookie.Some? ==>
                  r.cookie.value in v.store.sessions && v.store.sessions[r.cookie.value].userID != userID)
            && (steps[j].req.op.Protected? && r.body.PrincipalBody? ==> r.body.principal.userID != userID)
  {
    hide After, Handle, Registered;
    var w := Before(cfg, start, steps, j);
    RunKeepsRegistered(cfg, start, steps[..j]);
    DisabledStays(cfg, start, steps, i, j, userID);
    AfterStep(cfg, start, steps, j);
    HandleOnlyForEnabled(cfg, w, steps[j].req, steps[j].env);
    if steps[j].req.op.Protected? {
      ProtectedIff(cfg, w, steps[j].req, steps[j].env);
    }
  }
}
