/** Which routes there are: each method's handlers answer exactly while the method is enabled. */
module Routes {
  import opened Contract = StoreContract
  import opened Handlers
  import CodeText
  import Limiter

  /** The methods that must be enabled for the operation to have a route. */
  predicate Offered(cfg: Config, op: Op) {
    if op.RegisterPassword? || op.LoginPassword? then cfg.passwordEnabled
    else if op.SetupTOTP? || op.ConfirmTOTP? || op.LoginTOTP? || op.LoginRecovery? then cfg.totpEnabled
    else if op.BeginPasskeyRegistration? || op.FinishPasskeyRegistration? then cfg.passkeysEnabled
    else if op.BeginPasskeyLogin? || op.FinishPasskeyLogin? then cfg.passkeysEnabled
    else if op.RequestCode? || op.VerifyCode? then cfg.codesEnabled
    else true
  }

  lemma PasswordsAnswer(cfg: Config, w: World, req: Request, env: Env)
    requires req.op.RegisterPassword? || req.op.LoginPassword? || req.op.RequestCode?
    ensures RouteEnabled(cfg, req.op) ==> Handle(cfg, w, req, env).1.status != 404
  {
    hide AcceptablePassword, Contract.CreatePasswordUser, Limiter.AllowRequest, Verifies, Rehashed, CreateSessionFor,
      ConfirmedTOTP, Addressee, Recipient, IssuedCode, Contract.SaveCode, CodeText.ValidCodePurpose;
  }

  lemma VerificationsAnswer(cfg: Config, w: World, req: Request, env: Env)
    requires req.op.VerifyCode?
    ensures RouteEnabled(cfg, req.op) ==> Handle(cfg, w, req, env).1.status != 404
  {
    hide AcceptablePassword, Contract.AttemptCode, OneTimeProof, CreateSessionFor, CodeText.ValidCodePurpose,
      Contract.SetUserVerified, Contract.SetPassword, Contract.RevokeUserSessions;
  }

  lemma FactorsAnswer(cfg: Config, w: World, req: Request, env: Env)
    requires req.op.SetupTOTP? || req.op.ConfirmTOTP? || req.op.LoginTOTP? || req.op.LoginRecovery?
    ensures RouteEnabled(cfg, req.op) ==> Handle(cfg, w, req, env).1.status != 404
  {
    hide CurrentSession, CompletesAuthentication, VerifiesTOTP, Contract.SetTOTP, CodeText.LabelText, CreateSessionFor,
      Contract.SetRecoveryCodes, RecoveryTexts, RecoveryProofs, DrewRecoveryCodes, Limiter.AllowRequest,
      Contract.ConsumeRecoveryCode, RecoveryProof, TOTPSecret;
  }

  lemma PasskeysAnswer(cfg: Config, w: World, req: Request, env: Env)
    requires req.op.BeginPasskeyRegistration? || req.op.FinishPasskeyRegistration? || req.op.BeginPasskeyLogin?
             || req.op.FinishPasskeyLogin?
    ensures RouteEnabled(cfg, req.op) ==> Handle(cfg, w, req, env).1.status != 404
  {
    hide CurrentSession, CompletesAuthentication, TakePasskeyChallenge, Contract.SavePasskey, ChallengeExpiry,
      AssertedUser, PasskeyIndex, Contract.UpdatePasskey, CreateSessionFor;
  }

  /** An operation is answered with 404 exactly while it is not offered, and then nothing happens. */
  lemma RouteIff(cfg: Config, w: World, req: Request, env: Env)
    ensures var (v, r) := Handle(cfg, w, req, env);
            && (r.status == 404 <==> !Offered(cfg, req.op))
            && (r.status == 404 ==> v == w && r.cookie.None?)
  {
    hide RegisterPasswordStep, LoginPasswordStep, SetupTOTPStep, ConfirmTOTPStep, LoginTOTPStep, LoginRecoveryStep,
      BeginPasskeyRegistrationStep, FinishPasskeyRegistrationStep, BeginPasskeyLoginStep, FinishPasskeyLoginStep,
      RequestCodeStep, VerifyCodeStep, CurrentUser, CurrentSession;
    match req.op
    case RegisterPassword(_, _, _) => PasswordsAnswer(cfg, w, req, env);
    case LoginPassword(_, _) => PasswordsAnswer(cfg, w, req, env);
    case RequestCode(_, _) => PasswordsAnswer(cfg, w, req, env);
    case VerifyCode(_, _, _, _) => VerificationsAnswer(cfg, w, req, env);
    case SetupTOTP => FactorsAnswer(cfg, w, req, env);
    case ConfirmTOTP(_) => FactorsAnswer(cfg, w, req, env);
    case LoginTOTP(_) => FactorsAnswer(cfg, w, req, env);
    case LoginRecovery(_) => FactorsAnswer(cfg, w, req, env);
    case BeginPasskeyRegistration(_) => PasskeysAnswer(cfg, w, req, env);
    case FinishPasskeyRegistration(_) => PasskeysAnswer(cfg, w, req, env);
    case BeginPasskeyLogin => PasskeysAnswer(cfg, w, req, env);
    case FinishPasskeyLogin(_) => PasskeysAnswer(cfg, w, req, env);
    case Logout =>
    case Protected =>
    case RevokeAll(_) =>
  }

  // ------------------------------------------------------------ the options a service runs with

  /** Options left at zero: a day, twelve characters, six digits every thirty seconds, ten minutes and five attempts. */
  lemma DefaultsAre(o: Config)
    ensures var d := WithDefaults(o);
            && d.sessionLifetime == (if o.sessionLifetime == 0 then 86_400_000_000_000 else o.sessionLifetime)
            && (o.passwordEnabled ==> d.minimumLength == if o.minimumLength == 0 then 12 else o.minimumLength)
            && (o.totpEnabled ==>
                  && d.totp.digits == (if o.totp.digits == 0 then 6 else o.totp.digits)
                  && d.totp.period == (if o.totp.period == 0 then 30_000_000_000 else o.totp.period))
            && (o.codesEnabled ==>
                  && d.codeLifetime == (if o.codeLifetime == 0 then 600_000_000_000 else o.codeLifetime)
                  && d.maxAttempts == (if o.maxAttempts == 0 then 5 else o.maxAttempts))
            && d == o.(sessionLifetime := d.sessionLifetime, minimumLength := d.minimumLength, totp := d.totp,
                       codeLifetime := d.codeLifetime, maxAttempts := d.maxAttempts)
  {
  }

  /** The accepted ranges, in nanoseconds, of the methods that are enabled; the others may hold anything. */
  lemma RangesAre(o: Config)
    ensures InRange(o) <==>
            && |o.secret| >= 32 && (o.passwordEnabled || o.passkeysEnabled || o.codesEnabled)
            && 60_000_000_000 <= o.sessionLifetime <= 31_536_000_000_000_000
            && (o.passwordEnabled ==> 8 <= o.minimumLength <= 128)
            && (o.totpEnabled ==>
                  (o.totp.digits == 6 || o.totp.digits == 8) && 15_000_000_000 <= o.totp.period <= 60_000_000_000)
            && (o.codesEnabled ==>
                  60_000_000_000 <= o.codeLifetime <= 3_600_000_000_000 && 3 <= o.maxAttempts <= 10)
  {
  }

  /** Zero options with a long enough secret and some method give a service. */
  lemma DefaultsAreInRange(o: Config)
    requires |o.secret| >= 32 && (o.passwordEnabled || o.passkeysEnabled || o.codesEnabled)
    requires o.sessionLifetime == o.minimumLength == o.codeLifetime == o.maxAttempts == 0
    requires o.totp.digits == 0 && o.totp.period == 0
    ensures InRange(WithDefaults(o))
  {
    DefaultsAre(o);
    RangesAre(WithDefaults(o));
  }
}
