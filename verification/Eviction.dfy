/**
 Expired sessions are removed lazily, by whichever lookup finds them. No handler's answer depends on whether that
 has happened yet: deleting expired sessions at any time, in any run, changes no response.
 */
module Eviction {
  import opened Models
  import opened Contract = StoreContract
  import opened Handlers
  import opened Provenance
  import Challenges
  import CodeText
  import Limiter

  /** The second map is the first without some of its expired sessions. */
  predicate Prunes(a: Sessions, b: Sessions, now: Time) {
    && (forall id :: id in b ==> id in a && b[id] == a[id])
    && (forall id :: id in a && a[id].expiresAt > now ==> id in b)
  }

  predicate StorePruned(s: Store, t: Store, now: Time) {
    t == s.(sessions := t.sessions) && Prunes(s.sessions, t.sessions, now)
  }

  predicate Pruned(w: World, v: World, now: Time) {
    v == w.(store := v.store) && StorePruned(w.store, v.store, now)
  }

  /** The same answer, and worlds that again differ only in expired sessions. */
  predicate Same(a: (World, Response), b: (World, Response), now: Time) {
    a.1 == b.1 && Pruned(a.0, b.0, now)
  }

  // ------------------------------------------------------------ sessions

  lemma CurrentSessionSame(a: Sessions, b: Sessions, req: Request, env: Env)
    requires Prunes(a, b, env.now)
    ensures var (s, found) := CurrentSession(a, req, env);
            var (t, other) := CurrentSession(b, req, env);
            found == other && Prunes(s, t, env.now)
  {
  }

  lemma CreateSessionSame(
    cfg: Config, a: Sessions, b: Sessions, req: Request, env: Env, user: User, level: AuthLevel)
    requires Prunes(a, b, env.now) && env.id !in a
    ensures var (s, ok) := CreateSessionFor(cfg, a, req, env, user, level);
            var (t, other) := CreateSessionFor(cfg, b, req, env, user, level);
            ok == other && Prunes(s, t, env.now)
  {
    assert Prunes(a - {req.cookie}, b - {req.cookie}, env.now);
  }

  lemma RemovedSame(a: Sessions, b: Sessions, id: string, now: Time)
    requires Prunes(a, b, now)
    ensures Prunes(a - {id}, b - {id}, now)
  {
  }

  lemma RevokeSame(a: Sessions, b: Sessions, userID: string, now: Time)
    requires Prunes(a, b, now)
    ensures Prunes(Contract.RevokeUserSessions(a, userID), Contract.RevokeUserSessions(b, userID), now)
  {
  }

  /** Who a current session belongs to, told from it and the users alone. */
  function BelongsTo(users: map<string, User>, found: Option<Session>): Who {
    if found.None? || found.value.userID !in users || users[found.value.userID].disabled then Refused(AUTH_REQUIRED)
    else Known(users[found.value.userID], found.value)
  }

  lemma SessionUserShape(s: Store, req: Request, env: Env)
    ensures var (a, found) := CurrentSession(s.sessions, req, env);
            SessionUser(s, req, env) == (s.(sessions := a), BelongsTo(s.users, found))
  {
  }

  lemma SessionUserSame(s: Store, t: Store, req: Request, env: Env)
    requires StorePruned(s, t, env.now)
    ensures var (s', who) := SessionUser(s, req, env);
            var (t', other) := SessionUser(t, req, env);
            who == other && StorePruned(s', t', env.now)
  {
    hide SessionUser, CurrentSession, BelongsTo, Prunes;
    CurrentSessionSame(s.sessions, t.sessions, req, env);
    SessionUserShape(s, req, env);
    SessionUserShape(t, req, env);
  }

  lemma AuthenticatedSessionUserSame(cfg: Config, s: Store, t: Store, req: Request, env: Env)
    requires StorePruned(s, t, env.now)
    ensures var (s', who) := AuthenticatedSessionUser(cfg, s, req, env);
            var (t', other) := AuthenticatedSessionUser(cfg, t, req, env);
            who == other && StorePruned(s', t', env.now)
  {
    SessionUserSame(s, t, req, env);
    hide SessionUser, Prunes;
  }

  /** Whom a current session stands for, told from it, the users and their TOTP credentials alone. */
  function StandsFor(cfg: Config, users: map<string, User>, totp: TOTPs, found: Option<Session>): Option<User> {
    if found.None? || found.value.userID !in users then None
    else
      var user := users[found.value.userID];
      if user.disabled || !CompletesAuthentication(cfg, totp, user.id, found.value) then None else Some(user)
  }

  /** The session is revoked as well when its user is disabled. */
  predicate IsDisabled(users: map<string, User>, found: Option<Session>) {
    found.Some? && found.value.userID in users && users[found.value.userID].disabled
  }

  lemma CurrentUserShape(cfg: Config, s: Store, req: Request, env: Env)
    ensures var (a, found) := CurrentSession(s.sessions, req, env);
            CurrentUser(cfg, s, req, env) ==
            (s.(sessions := if IsDisabled(s.users, found) then a - {req.cookie} else a),
             StandsFor(cfg, s.users, s.totp, found))
  {
  }

  /** `Auth.User` gives the same user for an expired session as for one already evicted: none. */
  lemma CurrentUserSame(cfg: Config, s: Store, t: Store, req: Request, env: Env)
    requires StorePruned(s, t, env.now)
    ensures var (s', user) := CurrentUser(cfg, s, req, env);
            var (t', other) := CurrentUser(cfg, t, req, env);
            user == other && StorePruned(s', t', env.now)
  {
    hide CurrentUser, CurrentSession, StandsFor, IsDisabled, Prunes;
    CurrentSessionSame(s.sessions, t.sessions, req, env);
    RemovedSame(CurrentSession(s.sessions, req, env).0, CurrentSession(t.sessions, req, env).0, req.cookie, env.now);
    CurrentUserShape(cfg, s, req, env);
    CurrentUserShape(cfg, t, req, env);
  }

  lemma RequireUserSame(cfg: Config, w: World, v: World, req: Request, env: Env)
    requires Pruned(w, v, env.now)
    ensures Same(RequireUser(cfg, w, req, env), RequireUser(cfg, v, req, env), env.now)
  {
    CurrentUserSame(cfg, w.store, v.store, req, env);
    CurrentSessionSame(CurrentUser(cfg, w.store, req, env).0.sessions, CurrentUser(cfg, v.store, req, env).0.sessions,
                       req, env);
    hide CurrentUser, CurrentSession, Prunes;
  }

  // ------------------------------------------------------------ handlers

  lemma LogInSame(
    cfg: Config, w: World, v: World, req: Request, env: Env, user: User, level: AuthLevel, body: Body)
    requires Pruned(w, v, env.now) && env.id !in w.store.sessions
    ensures Same(LogIn(cfg, w, req, env, user, level, body), LogIn(cfg, v, req, env, user, level, body), env.now)
  {
    CreateSessionSame(cfg, w.store.sessions, v.store.sessions, req, env, user, level);
    hide CreateSessionFor, Prunes;
  }

  lemma LoginPasswordSame(
    cfg: Config, w: World, v: World, req: Request, env: Env, identifier: string, password: string)
    requires Pruned(w, v, env.now) && env.id !in w.store.sessions
    ensures Same(LoginPasswordStep(cfg, w, req, env, identifier, password),
                 LoginPasswordStep(cfg, v, req, env, identifier, password), env.now)
  {
    var normalized := cfg.normalize(identifier);
    assert normalized.Some? ==>
        Verifies(cfg, w.store, normalized.value, password) == Verifies(cfg, v.store, normalized.value, password);
    if normalized.Some? && Verifies(cfg, w.store, normalized.value, password) {
      var user := Contract.UserByIdentifier(w.store, normalized.value).value;
      assert Contract.UserByIdentifier(v.store, normalized.value).value == user;
      var passwords := Rehashed(cfg, w.store, env, user.id);
      assert Rehashed(cfg, v.store, env, user.id) == passwords;
      var buckets := Limiter.AllowRequest(
        w.buckets, PasswordKey(req.ip, normalized.value), 10, 15 * MINUTE, env.now).0;
      LogInSame(cfg, w.(buckets := buckets, store := w.store.(passwords := passwords)),
                v.(buckets := buckets, store := v.store.(passwords := passwords)), req, env, user, LevelPassword,
                LoginBody(user, ConfirmedTOTP(w.store.totp, user.id)));
    }
    hide LogIn, Prunes, Limiter.AllowRequest, Verifies, Rehashed, Contract.UserByIdentifier, ConfirmedTOTP;
  }

  lemma CreateSame(s: Store, t: Store, input: NewUser, password: PasswordCredential, now: Time, at: Time)
    requires StorePruned(s, t, at)
    ensures var (s', r) := Contract.CreatePasswordUser(s, input, input.webAuthnID, password, now);
            var (t', q) := Contract.CreatePasswordUser(t, input, input.webAuthnID, password, now);
            r == q && StorePruned(s', t', at)
  {
    assert CanCreate(s, input, input.webAuthnID) == CanCreate(t, input, input.webAuthnID);
    hide CanCreate, Prunes;
  }

  lemma RegisterSame(
    cfg: Config, w: World, v: World, env: Env, identifier: string, displayName: string, password: string)
    requires Pruned(w, v, env.now)
    ensures Same(RegisterPasswordStep(cfg, w, env, identifier, displayName, password),
                 RegisterPasswordStep(cfg, v, env, identifier, displayName, password), env.now)
  {
    var normalized := cfg.normalize(identifier);
    if normalized.Some? && env.hashed.Some? {
      CreateSame(w.store, v.store, NewUser(env.id, normalized.value, displayName, env.bytes),
                 PasswordCredential(env.hashed.value, env.now), env.now, env.now);
    }
    hide Prunes, AcceptablePassword, Contract.CreatePasswordUser;
  }

  lemma SetupTOTPSame(cfg: Config, w: World, v: World, req: Request, env: Env)
    requires Pruned(w, v, env.now)
    ensures Same(SetupTOTPStep(cfg, w, req, env), SetupTOTPStep(cfg, v, req, env), env.now)
  {
    AuthenticatedSessionUserSame(cfg, w.store, v.store, req, env);
    hide AuthenticatedSessionUser, Prunes, CodeText.LabelText, Contract.SetTOTP;
  }

  lemma EnableTOTPSame(cfg: Config, w: World, v: World, env: Env, userID: string)
    requires Pruned(w, v, env.now) && userID in w.store.totp
    ensures Same(EnableTOTP(cfg, w, env, userID), EnableTOTP(cfg, v, env, userID), env.now)
  {
    hide Prunes, EnabledFactors;
  }

  lemma ConfirmTOTPSame(cfg: Config, w: World, v: World, req: Request, env: Env, code: string)
    requires Pruned(w, v, env.now)
    ensures Same(ConfirmTOTPStep(cfg, w, req, env, code), ConfirmTOTPStep(cfg, v, req, env, code), env.now)
  {
    SessionUserSame(w.store, v.store, req, env);
    var (s, who) := SessionUser(w.store, req, env);
    var t := SessionUser(v.store, req, env).0;
    if who.Known? && who.user.id in s.totp {
      EnableTOTPSame(cfg, w.(store := s), v.(store := t), env, who.user.id);
    }
    hide SessionUser, EnableTOTP, Prunes, VerifiesTOTP;
  }

  lemma BeginSecondFactorSame(w: World, v: World, req: Request, env: Env)
    requires Pruned(w, v, env.now)
    ensures var (w', who) := BeginSecondFactor(w, req, env);
            var (v', other) := BeginSecondFactor(v, req, env);
            && who == other && Pruned(w', v', env.now)
            && w'.store.sessions.Keys <= w.store.sessions.Keys
  {
    SessionUserSame(w.store, v.store, req, env);
    SessionUserEffect(w.store, req, env);
    hide SessionUser, Prunes, Limiter.AllowRequest;
  }

  lemma LoginTOTPSame(cfg: Config, w: World, v: World, req: Request, env: Env, code: string)
    requires Pruned(w, v, env.now) && env.id !in w.store.sessions
    ensures Same(LoginTOTPStep(cfg, w, req, env, code), LoginTOTPStep(cfg, v, req, env, code), env.now)
  {
    BeginSecondFactorSame(w, v, req, env);
    var (w', who) := BeginSecondFactor(w, req, env);
    if who.Known? {
      LogInSame(cfg, w', BeginSecondFactor(v, req, env).0, req, env, who.user, LevelMFA, UserBody(who.user));
    }
    hide BeginSecondFactor, LogIn, Prunes, VerifiesTOTP, TOTPSecret;
    assert BeginSecondFactor(v, req, env).0.store.totp == w'.store.totp;
  }

  lemma LoginRecoverySame(cfg: Config, w: World, v: World, req: Request, env: Env, code: string)
    requires Pruned(w, v, env.now) && env.id !in w.store.sessions
    ensures Same(LoginRecoveryStep(cfg, w, req, env, code), LoginRecoveryStep(cfg, v, req, env, code), env.now)
  {
    BeginSecondFactorSame(w, v, req, env);
    var (w', who) := BeginSecondFactor(w, req, env);
    var v' := BeginSecondFactor(v, req, env).0;
    if who.Known? {
      var recovery := Contract.ConsumeRecoveryCode(
        w'.store.recovery, who.user.id, RecoveryProof(cfg, who.user.id, code), env.now).0;
      LogInSame(cfg, w'.(store := w'.store.(recovery := recovery)), v'.(store := v'.store.(recovery := recovery)), req,
                env, who.user, LevelMFA, UserBody(who.user));
    }
    hide BeginSecondFactor, LogIn, Prunes, Contract.ConsumeRecoveryCode, RecoveryProof;
  }

  lemma SaveChallengeSame(w: World, v: World, env: Env, kind: string, userID: string)
    requires Pruned(w, v, env.now)
    ensures Same(SaveChallenge(w, env, kind, userID), SaveChallenge(v, env, kind, userID), env.now)
  {
    hide Prunes, Challenges.PutChallenge, ChallengeExpiry;
  }

  lemma BeginRegistrationSame(cfg: Config, w: World, v: World, req: Request, env: Env, attachment: string)
    requires Pruned(w, v, env.now)
    ensures Same(BeginPasskeyRegistrationStep(cfg, w, req, env, attachment),
                 BeginPasskeyRegistrationStep(cfg, v, req, env, attachment), env.now)
  {
    AuthenticatedSessionUserSame(cfg, w.store, v.store, req, env);
    var (s, who) := AuthenticatedSessionUser(cfg, w.store, req, env);
    if who.Known? {
      SaveChallengeSame(w.(store := s), v.(store := AuthenticatedSessionUser(cfg, v.store, req, env).0), env,
                        REGISTRATION, who.user.id);
    }
    hide AuthenticatedSessionUser, Prunes, SaveChallenge;
  }

  lemma FinishRegistrationSame(cfg: Config, w: World, v: World, req: Request, env: Env, id: string)
    requires Pruned(w, v, env.now)
    ensures Same(FinishPasskeyRegistrationStep(cfg, w, req, env, id),
                 FinishPasskeyRegistrationStep(cfg, v, req, env, id), env.now)
  {
    AuthenticatedSessionUserSame(cfg, w.store, v.store, req, env);
    hide AuthenticatedSessionUser, Prunes, TakePasskeyChallenge, Contract.SavePasskey;
  }

  lemma FinishLoginSame(cfg: Config, w: World, v: World, req: Request, env: Env, id: string)
    requires Pruned(w, v, env.now) && env.id !in w.store.sessions
    ensures Same(FinishPasskeyLoginStep(cfg, w, req, env, id), FinishPasskeyLoginStep(cfg, v, req, env, id), env.now)
  {
    var found := AssertedUser(w.store, env.asserted);
    assert AssertedUser(v.store, env.asserted) == found;
    if found.Some? {
      CreateSessionSame(cfg, w.store.sessions, v.store.sessions, req, env, found.value, LevelPasskey);
    }
    hide AssertedUser, CreateSessionFor, Prunes, TakePasskeyChallenge, Contract.UpdatePasskey, PasskeyIndex;
  }

  lemma RequestCodeSame(cfg: Config, w: World, v: World, req: Request, env: Env, identifier: string, purpose: string)
    requires Pruned(w, v, env.now)
    ensures Same(RequestCodeStep(cfg, w, req, env, identifier, purpose),
                 RequestCodeStep(cfg, v, req, env, identifier, purpose), env.now)
  {
    assert Addressee(w.store, Recipient(cfg, identifier)) == Addressee(v.store, Recipient(cfg, identifier));
    hide Prunes, Limiter.AllowRequest, Addressee, Recipient, IssuedCode, Contract.SaveCode, CodeText.ValidCodePurpose;
  }

  lemma ResetSame(cfg: Config, w: World, v: World, env: Env, user: User, password: string)
    requires Pruned(w, v, env.now)
    ensures Same(ResetPassword(cfg, w, env, user, password), ResetPassword(cfg, v, env, user, password), env.now)
  {
    RevokeSame(w.store.sessions, v.store.sessions, user.id, env.now);
    hide Contract.RevokeUserSessions, Prunes, AcceptablePassword, Contract.SetPassword;
  }

  lemma ApplySame(
    cfg: Config, w: World, v: World, req: Request, env: Env, user: User, purpose: string, password: string)
    requires Pruned(w, v, env.now) && env.id !in w.store.sessions
    ensures Same(ApplyVerifiedCode(cfg, w, req, env, user, purpose, password),
                 ApplyVerifiedCode(cfg, v, req, env, user, purpose, password), env.now)
  {
    LogInSame(cfg, w, v, req, env, user, LevelCode, UserBody(user));
    ResetSame(cfg, w, v, env, user, password);
    hide LogIn, ResetPassword, Prunes;
  }

  lemma VerifyCodeSame(
    cfg: Config, w: World, v: World, req: Request, env: Env, id: string, code: string, purpose: string,
    password: string)
    requires Pruned(w, v, env.now) && env.id !in w.store.sessions
    ensures Same(VerifyCodeStep(cfg, w, req, env, id, code, purpose, password),
                 VerifyCodeStep(cfg, v, req, env, id, code, purpose, password), env.now)
  {
    var (codes, r) := Contract.AttemptCode(w.store.codes, id, OneTimeProof(cfg, id, purpose, code), env.now);
    if r.Ok? && r.value.code.userID in w.store.users {
      ApplySame(cfg, w.(store := w.store.(codes := codes)), v.(store := v.store.(codes := codes)), req, env,
                w.store.users[r.value.code.userID], purpose, password);
    }
    hide ApplyVerifiedCode, Contract.AttemptCode, OneTimeProof, CodeText.ValidCodePurpose, Prunes;
  }

  lemma RevokingHandlersSame(w: World, v: World, req: Request, env: Env, userID: string)
    requires Pruned(w, v, env.now)
    ensures Same(LogoutStep(w, req, env), LogoutStep(v, req, env), env.now)
    ensures Same(RevokeAllStep(w, userID), RevokeAllStep(v, userID), env.now)
  {
    RevokeSame(w.store.sessions, v.store.sessions, userID, env.now);
    hide Contract.RevokeUserSessions;
  }

  lemma LoginHandlersSame(cfg: Config, w: World, v: World, req: Request, env: Env)
    requires Pruned(w, v, env.now) && env.id !in w.store.sessions
    requires req.op.LoginPassword? || req.op.LoginTOTP? || req.op.LoginRecovery? || req.op.FinishPasskeyLogin?
             || req.op.VerifyCode?
    ensures Same(Handle(cfg, w, req, env), Handle(cfg, v, req, env), env.now)
  {
    match req.op
    case LoginPassword(identifier, password) => LoginPasswordSame(cfg, w, v, req, env, identifier, password);
    case LoginTOTP(code) => LoginTOTPSame(cfg, w, v, req, env, code);
    case LoginRecovery(code) => LoginRecoverySame(cfg, w, v, req, env, code);
    case FinishPasskeyLogin(id) => FinishLoginSame(cfg, w, v, req, env, id);
    case VerifyCode(id, code, purpose, password) =>
      VerifyCodeSame(cfg, w, v, req, env, id, code, purpose, password);
    hide LoginPasswordStep, LoginTOTPStep, LoginRecoveryStep, FinishPasskeyLoginStep, VerifyCodeStep, Pruned;
  }

  lemma EnrolmentHandlersSame(cfg: Config, w: World, v: World, req: Request, env: Env)
    requires Pruned(w, v, env.now)
    requires req.op.SetupTOTP? || req.op.ConfirmTOTP? || req.op.BeginPasskeyRegistration?
             || req.op.FinishPasskeyRegistration?
    ensures Same(Handle(cfg, w, req, env), Handle(cfg, v, req, env), env.now)
  {
    match req.op
    case SetupTOTP => SetupTOTPSame(cfg, w, v, req, env);
    case ConfirmTOTP(code) => ConfirmTOTPSame(cfg, w, v, req, env, code);
    case BeginPasskeyRegistration(text) => BeginRegistrationSame(cfg, w, v, req, env, text);
    case FinishPasskeyRegistration(id) => FinishRegistrationSame(cfg, w, v, req, env, id);
    hide SetupTOTPStep, ConfirmTOTPStep, BeginPasskeyRegistrationStep, FinishPasskeyRegistrationStep, Pruned;
  }

  /** Every handler answers the same and leaves worlds that again differ only in expired sessions. */
  lemma HandleSame(cfg: Config, w: World, v: World, req: Request, env: Env)
    requires Pruned(w, v, env.now) && env.id !in w.store.sessions
    ensures Same(Handle(cfg, w, req, env), Handle(cfg, v, req, env), env.now)
  {
    hide SetupTOTPStep, ConfirmTOTPStep, BeginPasskeyRegistrationStep, FinishPasskeyRegistrationStep;
    hide LoginPasswordStep, LoginTOTPStep, LoginRecoveryStep, FinishPasskeyLoginStep, VerifyCodeStep;
    hide RegisterPasswordStep, SaveChallenge, RequestCodeStep, LogoutStep, RequireUser, RevokeAllStep, Pruned;
    match req.op
    case RegisterPassword(identifier, name, password) => RegisterSame(cfg, w, v, env, identifier, name, password);
    case BeginPasskeyLogin => SaveChallengeSame(w, v, env, LOGIN, "");
    case RequestCode(identifier, purpose) => RequestCodeSame(cfg, w, v, req, env, identifier, purpose);
    case Logout => RevokingHandlersSame(w, v, req, env, "");
    case Protected => RequireUserSame(cfg, w, v, req, env);
    case RevokeAll(userID) => RevokingHandlersSame(w, v, req, env, userID);
    case SetupTOTP => EnrolmentHandlersSame(cfg, w, v, req, env);
    case ConfirmTOTP(_) => EnrolmentHandlersSame(cfg, w, v, req, env);
    case BeginPasskeyRegistration(_) => EnrolmentHandlersSame(cfg, w, v, req, env);
    case FinishPasskeyRegistration(_) => EnrolmentHandlersSame(cfg, w, v, req, env);
    case _ => LoginHandlersSame(cfg, w, v, req, env);
  }

  // ------------------------------------------------------------ runs with sweeps

  /** Deletes those of the named sessions that have expired. */
  function Sweep(w: World, ids: set<string>, now: Time): World {
    w.(store := w.store.(sessions :=
      map id | id in w.store.sessions && !(id in ids && w.store.sessions[id].expiresAt <= now) :: w.store.sessions[id]))
  }

  /** The run with a sweep before each step; the last step not yet taken, and taken. */
  function SweptBefore(cfg: Config, start: Store, steps: seq<Step>, sweeps: seq<set<string>>): World
    requires |sweeps| == |steps| > 0
    decreases |steps|, 0
  {
    var n := |steps| - 1;
    Sweep(SweptAfter(cfg, start, steps[..n], sweeps[..n]), sweeps[n], steps[n].env.now)
  }

  function SweptAfter(cfg: Config, start: Store, steps: seq<Step>, sweeps: seq<set<string>>): World
    requires |sweeps| == |steps|
    decreases |steps|, 1
  {
    if steps == [] then Start(start)
    else
      var last := steps[|steps| - 1];
      Handle(cfg, SweptBefore(cfg, start, steps, sweeps), last.req, last.env).0
  }

  lemma PrunedSelf(w: World, now: Time)
    ensures Pruned(w, w, now)
  {
  }

  lemma PrunedLater(w: World, v: World, now: Time, later: Time)
    requires Pruned(w, v, now) && now <= later
    ensures Pruned(w, v, later)
  {
  }

  ghost predicate ClockAdvances(steps: seq<Step>) {
    forall i, j :: 0 <= i < j < |steps| ==> steps[i].env.now <= steps[j].env.now
  }

  lemma SweepPrunes(w: World, v: World, ids: set<string>, earlier: Time, now: Time)
    requires Pruned(w, v, earlier) && earlier <= now
    ensures Pruned(w, Sweep(v, ids, now), now)
  {
  }

  lemma NewIDIsUnknown(cfg: Config, start: Store, steps: seq<Step>, n: nat)
    requires Filed(start) && FreshIDs(start, steps) && n < |steps|
    ensures steps[n].env.id !in After(cfg, start, steps[..n]).store.sessions
  {
    hide Handle, After, Filed;
    if steps[n].env.id in After(cfg, start, steps[..n]).store.sessions {
      StoredIsUsed(cfg, start, steps, steps[n].env.id, n);
    }
  }

  lemma {:induction false} SweptRunPruned(
    cfg: Config, start: Store, steps: seq<Step>, sweeps: seq<set<string>>, last: Time)
    requires Filed(start) && |sweeps| == |steps| && FreshIDs(start, steps) && ClockAdvances(steps)
    requires forall i :: 0 <= i < |steps| ==> steps[i].env.now <= last
    ensures Pruned(After(cfg, start, steps), SweptAfter(cfg, start, steps, sweeps), last)
    ensures steps != [] ==>
              SweptResponse(cfg, start, steps, sweeps, |steps| - 1) == ResponseTo(cfg, start, steps, |steps| - 1)
  {
    hide Handle, Pruned, Sweep, Filed;
    if steps == [] {
      PrunedSelf(Start(start), last);
    } else {
      var n := |steps| - 1;
      assert steps[..n + 1] == steps && sweeps[..n + 1] == sweeps;
      var w, v := After(cfg, start, steps[..n]), SweptAfter(cfg, start, steps[..n], sweeps[..n]);
      SweptRunPruned(cfg, start, steps[..n], sweeps[..n], steps[n].env.now);
      SweepPrunes(w, v, sweeps[n], steps[n].env.now, steps[n].env.now);
      NewIDIsUnknown(cfg, start, steps, n);
      HandleSame(cfg, w, SweptBefore(cfg, start, steps, sweeps), steps[n].req, steps[n].env);
      PrunedLater(After(cfg, start, steps), SweptAfter(cfg, start, steps, sweeps), steps[n].env.now, last);
    }
  }

  /** The answer to step i of the run with sweeps. */
  function SweptResponse(cfg: Config, start: Store, steps: seq<Step>, sweeps: seq<set<string>>, i: nat): Response
    requires i < |steps| == |sweeps|
  {
    Handle(cfg, SweptBefore(cfg, start, steps[..i + 1], sweeps[..i + 1]), steps[i].req, steps[i].env).1
  }

  /** Sweeping away expired sessions before any steps of a run changes no response of it. */
  lemma SweepsAreInvisible(cfg: Config, start: Store, steps: seq<Step>, sweeps: seq<set<string>>, i: nat)
    requires i < |steps| == |sweeps| && Filed(start) && FreshIDs(start, steps) && ClockAdvances(steps)
    ensures SweptResponse(cfg, start, steps, sweeps, i) == ResponseTo(cfg, start, steps, i)
  {
    hide Handle;
    var before, sets := steps[..i + 1], sweeps[..i + 1];
    assert before[..i] == steps[..i] && before[..i + 1] == before && sets[..i + 1] == sets && before[i] == steps[i];
    hide SweptAfter, SweptBefore, After;
    SweptRunPruned(cfg, start, before, sets, steps[i].env.now);
  }
}
