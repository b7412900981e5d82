/** Exactly when code requests and verifications succeed, and everything they store. */
module CodeOutcomes {
  import opened Models
  import opened Contract = StoreContract
  import opened CodeText
  import opened Handlers
  import opened Outcomes
  import opened Provenance
  import opened SessionOutcomes
  import Limiter

  // ------------------------------------------------------------ requests

  /** The proof of a typed code: keyed by the service secret, the code's id and its purpose. */
  function ProofOf(cfg: Config, id: string, purpose: string, code: string): Bytes {
    cfg.crypto.hmac(cfg.crypto.hmac(cfg.secret, "dreego-plugin-auth:one-time:" + id + ":" + purpose), Cleaned(code))
  }

  lemma ProofIs(cfg: Config, id: string, purpose: string, code: string)
    ensures OneTimeProof(cfg, id, purpose, code) == ProofOf(cfg, id, purpose, code)
  {
    assert "dreego-plugin-auth:" + ("one-time:" + id + ":" + purpose)
        == "dreego-plugin-auth:one-time:" + id + ":" + purpose;
  }

  /** Whom the code is for: the normalized identifier, or a fixed word for one that cannot be normalized. */
  function RecipientOf(cfg: Config, req: Request): string
    requires req.op.RequestCode?
  {
    var identifier := cfg.normalize(req.op.identifier);
    if identifier.Some? then identifier.value else "invalid"
  }

  /** The enabled user with that identifier, or nobody. */
  function AddresseeOf(s: Store, recipient: string): string {
    if recipient in s.identifiers && s.identifiers[recipient] in s.users && !s.users[s.identifiers[recipient]].disabled
    then s.identifiers[recipient] else ""
  }

  predicate RequestAccepted(cfg: Config, w: World, req: Request, env: Env) {
    && cfg.codesEnabled && req.op.RequestCode? && env.decoded && env.policy
    && req.op.purpose in {"login_code", "verify_account", "password_reset"}
    && Limiter.AllowRequest(w.buckets, "code:" + req.ip + ":" + RecipientOf(cfg, req) + ":" + req.op.purpose, 5,
                            cfg.codeLifetime, env.now).1
    && env.id !in w.store.codes
  }

  /** The code stored under the drawn id: its addressee, purpose, proof, lifetime and attempts. */
  function NewCode(cfg: Config, s: Store, req: Request, env: Env): OneTimeCode
    requires req.op.RequestCode?
  {
    var recipient := RecipientOf(cfg, req);
    OneTimeCode(env.id, AddresseeOf(s, recipient), recipient, req.op.purpose,
                ProofOf(cfg, env.id, req.op.purpose, env.plainCode), env.now + cfg.codeLifetime, 0, cfg.maxAttempts)
  }

  lemma AddresseeIs(s: Store, recipient: string)
    requires Registered(s)
    ensures Addressee(s, recipient) == AddresseeOf(s, recipient)
  {
  }

  lemma SentCode(cfg: Config, w: World, env: Env, code: OneTimeCode)
    requires code == IssuedCode(cfg, env, code.userID, code.recipient, code.purpose)
    ensures SendCode(cfg, w, env, code.userID, code.recipient, code.purpose) ==
            if env.id in w.store.codes then (w, Problem(500, "INTERNAL_ERROR"))
            else
              (w.(store := w.store.(codes :=
                 if code.userID != "" && !env.delivered then w.store.codes else w.store.codes[env.id := code])),
               Response(202, "", CodeBody(env.id, env.now + cfg.codeLifetime), None))
  {
    hide OneTimeProof;
    assert code.id == env.id;
    hide IssuedCode;
    if env.id !in w.store.codes {
      assert w.store.codes[env.id := code] - {env.id} == w.store.codes;
    }
  }

  lemma SendIs(cfg: Config, w: World, req: Request, env: Env, recipient: string)
    requires req.op.RequestCode? && recipient == RecipientOf(cfg, req)
    ensures var code := NewCode(cfg, w.store, req, env);
            SendCode(cfg, w, env, AddresseeOf(w.store, recipient), recipient, req.op.purpose) ==
            if env.id in w.store.codes then (w, Problem(500, "INTERNAL_ERROR"))
            else
              (w.(store := w.store.(codes :=
                 if code.userID != "" && !env.delivered then w.store.codes else w.store.codes[env.id := code])),
               Response(202, "", CodeBody(env.id, code.expiresAt), None))
  {
    hide SendCode, OneTimeProof, ProofOf, AddresseeOf, RecipientOf;
    ProofIs(cfg, env.id, req.op.purpose, env.plainCode);
    SentCode(cfg, w, env, NewCode(cfg, w.store, req, env));
  }

  /**
   A code request is answered with 202 exactly when it is accepted. The code is then stored, unless it is for a user and
   could not be delivered, and nothing else changes in the store.
   */
  lemma RequestIff(cfg: Config, w: World, req: Request, env: Env)
    requires Registered(w.store) && req.op.RequestCode?
    ensures var (v, r) := Handle(cfg, w, req, env);
            if !RequestAccepted(cfg, w, req, env) then v.store == w.store && r.status != 202 && r.cookie.None?
            else
              var code := NewCode(cfg, w.store, req, env);
              && r == Response(202, "", CodeBody(env.id, code.expiresAt), None)
              && v.store == w.store.(codes :=
                   if code.userID != "" && !env.delivered then w.store.codes else w.store.codes[env.id := code])
  {
    hide SendCode, ProofOf, Addressee, AddresseeOf, Limiter.AllowRequest, Registered;
    var recipient := RecipientOf(cfg, req);
    AddresseeIs(w.store, recipient);
    var buckets := Limiter.AllowRequest(
      w.buckets, CodeKey(req.ip, recipient, req.op.purpose), 5, cfg.codeLifetime, env.now).0;
    SendIs(cfg, w.(buckets := buckets), req, env, recipient);
  }

  // ------------------------------------------------------------ verifications

  /** The codes after an attempt: an expired or matched code goes, and so does one whose last attempt this was. */
  function CodesAfter(codes: Codes, id: string, proof: Bytes, now: Time): Codes {
    if id !in codes then codes
    else
      var c := codes[id];
      if c.expiresAt <= now || c.proof == proof || c.attempts + 1 >= c.maxAttempts then codes - {id}
      else codes[id := c.(attempts := c.attempts + 1)]
  }

  /** The request is well formed and names a purpose there is. */
  predicate VerificationRead(cfg: Config, req: Request, env: Env) {
    && cfg.codesEnabled && req.op.VerifyCode? && env.decoded && req.op.id != ""
    && req.op.purpose in {"login_code", "verify_account", "password_reset"}
  }

  /** It names a live code of this enabled user and this purpose, typed so that its proof is the stored one. */
  predicate VerificationAccepted(cfg: Config, s: Store, req: Request, env: Env, userID: string) {
    && VerificationRead(cfg, req, env) && req.op.id in s.codes
    && var c := s.codes[req.op.id];
       && c.expiresAt > env.now && c.proof == ProofOf(cfg, req.op.id, req.op.purpose, req.op.code)
       && c.userID == userID && userID != "" && c.purpose == req.op.purpose
       && userID in s.users && !s.users[userID].disabled && env.policy
  }

  function CodeUser(s: Store, req: Request): string
    requires req.op.VerifyCode?
  {
    if req.op.id in s.codes then s.codes[req.op.id].userID else ""
  }

  /** The reset is offered and the new password is within the bounds and hashed. */
  predicate ResetAccepted(cfg: Config, req: Request, env: Env)
    requires req.op.VerifyCode?
  {
    && cfg.passwordEnabled && cfg.minimumLength <= |req.op.password| && ByteLength(req.op.password) <= 1024
    && env.hashed.Some?
  }

  lemma AttemptIs(codes: Codes, id: string, proof: Bytes, now: Time)
    ensures var (t, r) := Contract.AttemptCode(codes, id, proof, now);
            && t == CodesAfter(codes, id, proof, now)
            && (r.Ok? <==> id in codes && codes[id].expiresAt > now)
            && (r.Ok? ==> && r.value.matched == (codes[id].proof == proof)
                          && r.value.code == codes[id].(attempts := codes[id].attempts + 1))
  {
    if id !in codes {
      assert codes - {id} == codes;
    }
  }

  /** A verification that is not accepted counts its attempt, and does nothing else. */
  lemma VerificationIff(cfg: Config, w: World, req: Request, env: Env)
    requires Registered(w.store) && req.op.VerifyCode?
    ensures var (v, r) := Handle(cfg, w, req, env);
            var userID := CodeUser(w.store, req);
            var counted := w.(store := w.store.(
              codes := CodesAfter(w.store.codes, req.op.id,
                                  ProofOf(cfg, req.op.id, req.op.purpose, req.op.code), env.now)));
            if VerificationAccepted(cfg, w.store, req, env, userID) then
              (v, r) == ApplyVerifiedCode(
                          cfg, counted, req, env, w.store.users[userID], req.op.purpose, req.op.password)
            else r.status != 200 && r.cookie.None? && v == if VerificationRead(cfg, req, env) then counted else w
  {
    var op := req.op;
    ProofIs(cfg, op.id, op.purpose, op.code);
    AttemptIs(w.store.codes, op.id, ProofOf(cfg, op.id, op.purpose, op.code), env.now);
    hide OneTimeProof, ProofOf, Contract.AttemptCode, CodesAfter, ApplyVerifiedCode;
  }

  /** Login codes: 200 exactly when the code is accepted and a session can be opened, and that session is stored. */
  lemma CodeLoginIff(cfg: Config, w: World, req: Request, env: Env)
    requires Registered(w.store) && req.op.VerifyCode? && req.op.purpose == "login_code"
    ensures var (v, r) := Handle(cfg, w, req, env);
            var userID := CodeUser(w.store, req);
            && (r.status == 200 <==>
                VerificationAccepted(cfg, w.store, req, env, userID) && Opens(w.store.sessions, req, env))
            && (r.status == 200 ==>
                  && r == Response(200, "", UserBody(w.store.users[userID]), Some(env.id))
                  && v == w.(store := w.store.(
                       codes := w.store.codes - {req.op.id},
                       sessions := Opened(cfg, w.store.sessions, req, env, userID, LevelCode))))
            && (r.status != 200 ==> r.cookie.None?)
  {
    hide Handle, ApplyVerifiedCode, ProofOf, LogIn, Opens, Opened;
    VerificationIff(cfg, w, req, env);
    var userID := CodeUser(w.store, req);
    if VerificationAccepted(cfg, w.store, req, env, userID) {
      var counted := w.(store := w.store.(codes := w.store.codes - {req.op.id}));
      LoginCodeLogsIn(cfg, counted, req, env, w.store.users[userID], req.op.password);
      LogInIs(cfg, counted, req, env, w.store.users[userID], LevelCode, UserBody(w.store.users[userID]));
    }
  }

  lemma LoginCodeLogsIn(cfg: Config, w: World, req: Request, env: Env, user: User, password: string)
    ensures ApplyVerifiedCode(cfg, w, req, env, user, "login_code", password)
            == LogIn(cfg, w, req, env, user, LevelCode, UserBody(user))
  {
    hide LogIn;
  }

  /** Account codes: 200 exactly when the code is accepted, and its user is then verified. */
  lemma AccountVerificationIff(cfg: Config, w: World, req: Request, env: Env)
    requires Registered(w.store) && req.op.VerifyCode? && req.op.purpose == "verify_account"
    ensures var (v, r) := Handle(cfg, w, req, env);
            var userID := CodeUser(w.store, req);
            && (r.status == 200 <==> VerificationAccepted(cfg, w.store, req, env, userID))
            && r.cookie.None?
            && (r.status == 200 ==>
                  && v == w.(store := w.store.(
                       codes := w.store.codes - {req.op.id},
                       users := w.store.users[userID := w.store.users[userID].(verified := true)])))
  {
    hide Handle, ApplyVerifiedCode, ProofOf;
    VerificationIff(cfg, w, req, env);
    var userID := CodeUser(w.store, req);
    if VerificationAccepted(cfg, w.store, req, env, userID) {
      var counted := w.(store := w.store.(codes := w.store.codes - {req.op.id}));
      AccountCodeVerifies(cfg, counted, req, env, w.store.users[userID], req.op.password);
    }
  }

  lemma AccountCodeVerifies(cfg: Config, w: World, req: Request, env: Env, user: User, password: string)
    requires user.id in w.store.users && w.store.users[user.id] == user
    ensures var (v, r) := ApplyVerifiedCode(cfg, w, req, env, user, "verify_account", password);
            && r == Response(200, "", UserBody(user), None)
            && v == w.(store := w.store.(users := w.store.users[user.id := user.(verified := true)]))
  {
    hide LogIn, ResetPassword;
  }

  /**
   Reset codes: 200 exactly when the code is accepted and the new password can be set. Its hash is then stored for the
   code's user, and every session of that user is gone while all others stay.
   */
  lemma ResetIff(cfg: Config, w: World, req: Request, env: Env)
    requires Registered(w.store) && req.op.VerifyCode? && req.op.purpose == "password_reset"
    ensures var (v, r) := Handle(cfg, w, req, env);
            var userID := CodeUser(w.store, req);
            && (r.status == 200 <==>
                VerificationAccepted(cfg, w.store, req, env, userID) && ResetAccepted(cfg, req, env))
            && (r.status == 200 ==>
                  && r == Response(200, "", UserBody(w.store.users[userID]), None)
                  && v == w.(store := w.store.(
                       codes := w.store.codes - {req.op.id},
                       passwords := w.store.passwords[userID := PasswordCredential(env.hashed.value, env.now)],
                       sessions := v.store.sessions))
                  && (forall s :: s in v.store.sessions <==>
                        s in w.store.sessions && w.store.sessions[s].userID != userID)
                  && (forall s :: s in v.store.sessions ==> v.store.sessions[s] == w.store.sessions[s]))
            && (r.status != 200 ==>
                  r.cookie.None? && v.store.passwords == w.store.passwords && v.store.sessions == w.store.sessions)
  {
    hide Handle, ApplyVerifiedCode, ProofOf, ByteLength;
    VerificationIff(cfg, w, req, env);
    var userID := CodeUser(w.store, req);
    if VerificationAccepted(cfg, w.store, req, env, userID) {
      var counted := w.(store := w.store.(codes := w.store.codes - {req.op.id}));
      ResetCodeResets(cfg, counted, req, env, w.store.users[userID]);
    }
  }

  lemma ResetCodeResets(cfg: Config, w: World, req: Request, env: Env, user: User)
    requires req.op.VerifyCode? && user.id in w.store.users
    ensures var (v, r) := ApplyVerifiedCode(cfg, w, req, env, user, "password_reset", req.op.password);
            if ResetAccepted(cfg, req, env) then
              && r == Response(200, "", UserBody(user), None)
              && v == w.(store := w.store.(
                   passwords := w.store.passwords[user.id := PasswordCredential(env.hashed.value, env.now)],
                   sessions := v.store.sessions))
              && (forall s :: s in v.store.sessions <==>
                    s in w.store.sessions && w.store.sessions[s].userID != user.id)
              && (forall s :: s in v.store.sessions ==> v.store.sessions[s] == w.store.sessions[s])
            else v == w && r.status != 200 && r.cookie.None?
  {
    hide LogIn, MarkVerified, ByteLength;
  }

  /** After a reset no earlier session of its user is ever found again in the run. */
  lemma ResetEndsSessions(cfg: Config, start: Store, steps: seq<Step>, i: nat, m: nat, id: string)
    requires Filed(start) && FreshIDs(start, steps) && i < m <= |steps|
    requires steps[i].req.op.VerifyCode? && steps[i].req.op.purpose == "password_reset"
    requires ResponseTo(cfg, start, steps, i).status == 200
    requires var s := Before(cfg, start, steps, i).store;
             id in s.sessions && s.sessions[id].userID == CodeUser(s, steps[i].req)
    ensures id !in After(cfg, start, steps[..m]).store.sessions
    ensures m < |steps| && steps[m].req.op.Protected? && steps[m].req.cookie == id ==>
              ResponseTo(cfg, start, steps, m) == Problem(401, "AUTH_REQUIRED")
  {
    hide After, Handle, Filed, Registered, VerificationAccepted, ResetAccepted;
    assert Registered(start) by { FiledIsRegistered(start); }
    RunKeepsRegistered(cfg, start, steps[..i]);
    AfterStep(cfg, start, steps, i);
    ResetIff(cfg, Before(cfg, start, steps, i), steps[i].req, steps[i].env);
    EndedStaysEnded(cfg, start, steps, i, m, id);
  }

  lemma FiledIsRegistered(start: Store)
    requires Filed(start)
    ensures Registered(start)
  {
  }
}
