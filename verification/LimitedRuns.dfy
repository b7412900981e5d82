/** The rate limit over whole runs of the handlers: how many attempts any stretch of time lets through. */
module LimitedRuns {
  import opened Models
  import opened Contract = StoreContract
  import opened Handlers
  import opened Provenance
  import CodeText
  import Limiter

  // ------------------------------------------------------------ what a step asks the limiter

  /** The limiter call a request leads to, if it gets that far. */
  function Ask(cfg: Config, w: World, req: Request, env: Env): Option<Limiter.Request> {
    if !RouteEnabled(cfg, req.op) then None
    else
      match req.op
      case LoginPassword(identifier, password) =>
        var normalized := cfg.normalize(identifier);
        if !env.decoded || normalized.None? || ByteLength(password) > 1024 then None
        else Some(Limiter.Request(PasswordKey(req.ip, normalized.value), 10, 15 * MINUTE, env.now))
      case LoginTOTP(_) => AskSecondFactor(w, req, env)
      case LoginRecovery(_) => AskSecondFactor(w, req, env)
      case RequestCode(identifier, purpose) =>
        if !env.decoded || !CodeText.ValidCodePurpose(purpose) then None
        else Some(Limiter.Request(CodeKey(req.ip, Recipient(cfg, identifier), purpose), 5, cfg.codeLifetime, env.now))
      case _ => None
  }

  function AskSecondFactor(w: World, req: Request, env: Env): Option<Limiter.Request> {
    var who := SessionUser(w.store, req, env).1;
    if who.Refused? || who.session.level != LevelPassword then None
    else Some(Limiter.Request(SecondFactorKey(req.ip, who.user.id), 10, 5 * MINUTE, env.now))
  }

  /** The buckets change by exactly this call, and the answer is the refusal exactly when it was not allowed. */
  predicate FollowsLimiter(buckets: Limiter.Buckets, ask: Option<Limiter.Request>, v: World, r: Response) {
    match ask
    case None => v.buckets == buckets && r != RATE_LIMITED
    case Some(q) =>
      var (counted, allowed) := Limiter.AllowRequest(buckets, q.key, q.limit, q.window, q.now);
      v.buckets == counted && (r == RATE_LIMITED <==> !allowed)
  }

  lemma LoginPasswordAsks(cfg: Config, w: World, req: Request, env: Env)
    requires req.op.LoginPassword?
    ensures var (v, r) := Handle(cfg, w, req, env); FollowsLimiter(w.buckets, Ask(cfg, w, req, env), v, r)
  {
    hide Limiter.AllowRequest, Verifies, Rehashed, CreateSessionFor, ConfirmedTOTP;
  }

  lemma BeginSecondFactorAsks(w: World, req: Request, env: Env)
    ensures var (v, who) := BeginSecondFactor(w, req, env);
            match AskSecondFactor(w, req, env)
            case None => v.buckets == w.buckets && who.Refused? && who.response != RATE_LIMITED
            case Some(q) =>
              var (counted, allowed) := Limiter.AllowRequest(w.buckets, q.key, q.limit, q.window, q.now);
              && v.buckets == counted && (allowed <==> who.Known?)
              && (!allowed ==> who == Refused(RATE_LIMITED))
  {
    SessionUserRefusal(w.store, req, env);
    hide SessionUser, Limiter.AllowRequest;
  }

  lemma SessionUserRefusal(store: Store, req: Request, env: Env)
    ensures var who := SessionUser(store, req, env).1; who.Refused? ==> who.response == AUTH_REQUIRED
  {
    hide CurrentSession;
  }

  lemma SecondFactorAsks(cfg: Config, w: World, req: Request, env: Env)
    requires req.op.LoginTOTP? || req.op.LoginRecovery?
    ensures var (v, r) := Handle(cfg, w, req, env); FollowsLimiter(w.buckets, Ask(cfg, w, req, env), v, r)
  {
    BeginSecondFactorAsks(w, req, env);
    hide BeginSecondFactor, AskSecondFactor, Limiter.AllowRequest, CreateSessionFor, VerifiesTOTP, TOTPSecret,
      Contract.ConsumeRecoveryCode, RecoveryProof;
  }

  lemma RequestCodeAsks(cfg: Config, w: World, req: Request, env: Env)
    requires req.op.RequestCode?
    ensures var (v, r) := Handle(cfg, w, req, env); FollowsLimiter(w.buckets, Ask(cfg, w, req, env), v, r)
  {
    hide Limiter.AllowRequest, Addressee, Recipient, IssuedCode, Contract.SaveCode, CodeText.ValidCodePurpose;
  }

  // Handlers that never ask.

  predicate Unlimited(w: World, out: (World, Response)) {
    out.0.buckets == w.buckets && out.1 != RATE_LIMITED
  }

  lemma EnrolmentIsUnlimited(cfg: Config, w: World, req: Request, env: Env, code: string)
    ensures Unlimited(w, SetupTOTPStep(cfg, w, req, env))
    ensures Unlimited(w, ConfirmTOTPStep(cfg, w, req, env, code))
  {
    SessionUserRefusal(w.store, req, env);
    hide SessionUser, CompletesAuthentication, VerifiesTOTP, EnabledFactors, Contract.SetTOTP, CodeText.LabelText;
    EnableIsUnlimited(cfg, env);
  }

  lemma EnableIsUnlimited(cfg: Config, env: Env)
    ensures forall users, totp, recovery, userID :: userID in totp ==>
              EnabledFactors(cfg, users, totp, recovery, env, userID).2 != RATE_LIMITED
  {
    hide RecoveryTexts, RecoveryProofs, Contract.SetTOTP, Contract.SetRecoveryCodes;
  }

  lemma PasskeyHandlersAreUnlimited(cfg: Config, w: World, req: Request, env: Env, text: string)
    ensures Unlimited(w, BeginPasskeyRegistrationStep(cfg, w, req, env, text))
    ensures Unlimited(w, FinishPasskeyRegistrationStep(cfg, w, req, env, text))
    ensures Unlimited(w, BeginPasskeyLoginStep(w, env))
  {
    SessionUserRefusal(w.store, req, env);
    hide SessionUser, CompletesAuthentication, TakePasskeyChallenge, Contract.SavePasskey, ChallengeExpiry;
  }

  lemma PasskeyLoginIsUnlimited(cfg: Config, w: World, req: Request, env: Env, id: string)
    ensures Unlimited(w, FinishPasskeyLoginStep(cfg, w, req, env, id))
  {
    hide TakePasskeyChallenge, AssertedUser, PasskeyIndex, Contract.UpdatePasskey, CreateSessionFor;
  }

  lemma OpenHandlersAreUnlimited(cfg: Config, w: World, req: Request, env: Env)
    requires req.op.RegisterPassword? || req.op.VerifyCode?
    ensures Unlimited(w, Handle(cfg, w, req, env))
  {
    hide AcceptablePassword, Contract.CreatePasswordUser, Contract.AttemptCode, OneTimeProof, CreateSessionFor,
      CodeText.ValidCodePurpose, Contract.SetUserVerified, Contract.SetPassword, Contract.RevokeUserSessions;
  }

  lemma SessionHandlersAreUnlimited(cfg: Config, w: World, req: Request, env: Env, userID: string)
    ensures Unlimited(w, RequireUser(cfg, w, req, env))
    ensures Unlimited(w, LogoutStep(w, req, env))
    ensures Unlimited(w, RevokeAllStep(w, userID))
  {
    hide CurrentUser, CurrentSession, Contract.RevokeUserSessions;
  }

  lemma HandleAsks(cfg: Config, w: World, req: Request, env: Env)
    ensures var (v, r) := Handle(cfg, w, req, env); FollowsLimiter(w.buckets, Ask(cfg, w, req, env), v, r)
  {
    hide SetupTOTPStep, ConfirmTOTPStep, BeginPasskeyRegistrationStep, FinishPasskeyRegistrationStep,
      BeginPasskeyLoginStep, FinishPasskeyLoginStep, RequireUser, LogoutStep, RevokeAllStep, RegisterPasswordStep,
      VerifyCodeStep, LoginPasswordStep, LoginTOTPStep, LoginRecoveryStep, RequestCodeStep;
    match req.op
    case LoginPassword(_, _) => LoginPasswordAsks(cfg, w, req, env);
    case LoginTOTP(_) => SecondFactorAsks(cfg, w, req, env);
    case LoginRecovery(_) => SecondFactorAsks(cfg, w, req, env);
    case RequestCode(_, _) => RequestCodeAsks(cfg, w, req, env);
    case SetupTOTP => EnrolmentIsUnlimited(cfg, w, req, env, "");
    case ConfirmTOTP(code) => EnrolmentIsUnlimited(cfg, w, req, env, code);
    case BeginPasskeyRegistration(text) => PasskeyHandlersAreUnlimited(cfg, w, req, env, text);
    case FinishPasskeyRegistration(text) => PasskeyHandlersAreUnlimited(cfg, w, req, env, text);
    case BeginPasskeyLogin => PasskeyHandlersAreUnlimited(cfg, w, req, env, "");
    case FinishPasskeyLogin(id) => PasskeyLoginIsUnlimited(cfg, w, req, env, id);
    case RegisterPassword(_, _, _) => OpenHandlersAreUnlimited(cfg, w, req, env);
    case VerifyCode(_, _, _, _) => OpenHandlersAreUnlimited(cfg, w, req, env);
    case Protected => SessionHandlersAreUnlimited(cfg, w, req, env, "");
    case Logout => SessionHandlersAreUnlimited(cfg, w, req, env, "");
    case RevokeAll(userID) => SessionHandlersAreUnlimited(cfg, w, req, env, userID);
  }

  // ------------------------------------------------------------ runs

  /** The limiter calls of a run, in order. */
  function Asked(cfg: Config, start: Store, steps: seq<Step>): seq<Limiter.Request> {
    if steps == [] then []
    else
      var n := |steps| - 1;
      var ask := Ask(cfg, After(cfg, start, steps[..n]), steps[n].req, steps[n].env);
      Asked(cfg, start, steps[..n]) + if ask.Some? then [ask.value] else []
  }

  /** How many requests asked under this key at or after `from` and before `to`, and were not refused. */
  function LetThrough(cfg: Config, start: Store, steps: seq<Step>, key: string, from: Time, to: Time): nat {
    if steps == [] then 0
    else
      var n := |steps| - 1;
      var ask := Ask(cfg, After(cfg, start, steps[..n]), steps[n].req, steps[n].env);
      LetThrough(cfg, start, steps[..n], key, from, to)
      + if ask.Some? && ask.value.key == key && from <= steps[n].env.now < to
           && ResponseTo(cfg, start, steps, n) != RATE_LIMITED then 1 else 0
  }

  /** The handlers' buckets are those of the limiter after the calls, and count the same admissions. */
  lemma {:induction false} RunFollowsLimiter(
    cfg: Config, start: Store, steps: seq<Step>, key: string, from: Time, to: Time)
    ensures After(cfg, start, steps).buckets == Limiter.After(Asked(cfg, start, steps))
    ensures LetThrough(cfg, start, steps, key, from, to) == Limiter.AdmittedIn(Asked(cfg, start, steps), key, from, to)
  {
    hide Handle, Ask, Limiter.AllowRequest;
    if steps != [] {
      var n := |steps| - 1;
      var w := After(cfg, start, steps[..n]);
      RunFollowsLimiter(cfg, start, steps[..n], key, from, to);
      HandleAsks(cfg, w, steps[n].req, steps[n].env);
      AskIsNow(cfg, w, steps[n].req, steps[n].env);
      var ask := Ask(cfg, w, steps[n].req, steps[n].env);
      if ask.Some? {
        var asked := Asked(cfg, start, steps);
        assert asked[..|asked| - 1] == Asked(cfg, start, steps[..n]) && asked[|asked| - 1] == ask.value;
      } else {
        assert Asked(cfg, start, steps) == Asked(cfg, start, steps[..n]);
      }
    }
  }

  /** Limit and window of a key; the first character tells the three kinds of key apart. */
  function LimitOf(cfg: Config, key: string): (int, int) {
    if key != "" && key[0] == 'p' then (10, 15 * MINUTE)
    else if key != "" && key[0] == 's' then (10, 5 * MINUTE)
    else (5, cfg.codeLifetime)
  }

  lemma AskIsNow(cfg: Config, w: World, req: Request, env: Env)
    ensures var ask := Ask(cfg, w, req, env);
            ask.Some? ==> ask.value.now == env.now && (ask.value.limit, ask.value.window) == LimitOf(cfg, ask.value.key)
  {
    hide SessionUser, CodeText.ValidCodePurpose, Recipient;
  }

  /** A clock that is set and never runs backwards. */
  ghost predicate ClockIsSet(steps: seq<Step>) {
    && (forall i :: 0 <= i < |steps| ==> steps[i].env.now > ZERO_TIME)
    && (forall i, j :: 0 <= i < j < |steps| ==> steps[i].env.now <= steps[j].env.now)
  }

  lemma {:induction false} AskedIsRegular(cfg: Config, start: Store, steps: seq<Step>, key: string)
    requires ClockIsSet(steps) && LimitOf(cfg, key).1 > 0
    ensures var (limit, window) := LimitOf(cfg, key); Limiter.Regular(Asked(cfg, start, steps), key, limit, window)
    ensures forall i :: 0 <= i < |Asked(cfg, start, steps)| && steps != [] ==>
              Asked(cfg, start, steps)[i].now <= steps[|steps| - 1].env.now
  {
    hide Handle, Ask, After;
    if steps != [] {
      var n := |steps| - 1;
      AskedIsRegular(cfg, start, steps[..n], key);
      AskIsNow(cfg, After(cfg, start, steps[..n]), steps[n].req, steps[n].env);
    }
  }

  lemma {:induction false} NoneInEmptyInterval(
    cfg: Config, start: Store, steps: seq<Step>, key: string, from: Time, to: Time)
    requires to <= from
    ensures LetThrough(cfg, start, steps, key, from, to) == 0
  {
    hide Handle, Ask, After;
    if steps != [] {
      NoneInEmptyInterval(cfg, start, steps[..|steps| - 1], key, from, to);
    }
  }

  /**
   In every run, any stretch of time as long as a key's window lets through at most 2 * limit - 1 requests under that
   key: 19 password logins per address and identifier in 15 minutes, 19 second-factor attempts per address and user
   in 5 minutes, 9 code requests per address, recipient and purpose in the code lifetime.
   */
  lemma AttemptsAreBounded(cfg: Config, start: Store, steps: seq<Step>, key: string, t: Time)
    requires ClockIsSet(steps)
    ensures var (limit, window) := LimitOf(cfg, key);
            LetThrough(cfg, start, steps, key, t, t + window) <= 2 * limit - 1
  {
    var (limit, window) := LimitOf(cfg, key);
    hide Handle, After;
    if window <= 0 {
      NoneInEmptyInterval(cfg, start, steps, key, t, t + window);
    } else {
      RunFollowsLimiter(cfg, start, steps, key, t, t + window);
      AskedIsRegular(cfg, start, steps, key);
      hide Asked, LetThrough, Limiter.Regular;
      Limiter.IntervalBound(Asked(cfg, start, steps), key, limit, window, t);
    }
  }
}
