/** Exactly when registrations and password logins succeed, and everything they store. */
module PasswordOutcomes {
  import opened Models
  import opened Contract = StoreContract
  import opened HandlerFrames
  import opened Handlers
  import opened Outcomes
  import opened Provenance
  import Limiter

  // ------------------------------------------------------------ lengths

  /** A text has as many bytes as its parts together. */
  lemma {:induction false} ByteLengthOfConcat(a: string, b: string)
    ensures ByteLength(a + b) == ByteLength(a) + ByteLength(b)
  {
    if a == [] {
      assert a + b == b;
    } else {
      assert (a + b)[0] == a[0] && (a + b)[1..] == a[1..] + b;
      ByteLengthOfConcat(a[1..], b);
    }
  }

  /** And one character has as many as UTF-8 (section 3 of RFC 3629) gives it. */
  lemma ByteLengthOfChar(c: char)
    ensures var n := ByteLength([c]);
            && (n == 1 <==> c as int <= 0x7F)
            && (n == 2 <==> 0x80 <= c as int <= 0x7FF)
            && (n == 3 <==> 0x800 <= c as int <= 0xFFFF)
            && (n == 4 <==> 0x10000 <= c as int)
  {
    assert [c][1..] == [];
  }

  // ------------------------------------------------------------ registration

  /** The registration is decoded, within the bounds, allowed by policy, hashed, and collides with nobody. */
  predicate RegistrationAccepted(cfg: Config, s: Store, req: Request, env: Env) {
    && cfg.passwordEnabled && req.op.RegisterPassword? && env.decoded && env.policy
    && cfg.minimumLength <= |req.op.password| && ByteLength(req.op.password) <= 1024
    && env.hashed.Some? && env.id != "" && env.id !in s.users && env.bytes != [] && env.bytes !in s.webAuthnIDs
    && var identifier := cfg.normalize(req.op.identifier);
       identifier.Some? && identifier.value != "" && identifier.value !in s.identifiers
  }

  /**
   A registration is answered with 201 exactly then: a new enabled, unverified user is stored under the drawn ids and
   the normalized identifier, with the hash and not the password. Otherwise nothing is stored.
   */
  lemma RegistrationIff(cfg: Config, w: World, req: Request, env: Env)
    requires req.op.RegisterPassword?
    ensures var (v, r) := Handle(cfg, w, req, env);
            if RegistrationAccepted(cfg, w.store, req, env) then
              var identifier := cfg.normalize(req.op.identifier).value;
              var user := User(env.id, identifier, req.op.displayName, env.bytes, false, false, env.now);
              && r == Response(201, "", UserBody(user), None)
              && v == w.(store := w.store.(
                   users := w.store.users[env.id := user],
                   identifiers := w.store.identifiers[identifier := env.id],
                   webAuthnIDs := w.store.webAuthnIDs[env.bytes := env.id],
                   passwords := w.store.passwords[env.id := PasswordCredential(env.hashed.value, env.now)]))
            else r.status != 201 && v == w
  {
    hide ByteLength;
    assert w.(store := w.store) == w;
  }

  // ------------------------------------------------------------ login

  /** The limiter lets the attempt through, counted for the address and the normalized identifier. */
  predicate WithinPasswordLimit(cfg: Config, w: World, req: Request, env: Env) {
    && req.op.LoginPassword?
    && var identifier := cfg.normalize(req.op.identifier);
       && identifier.Some?
       && Limiter.AllowRequest(w.buckets, "password:" + req.ip + ":" + identifier.value, 10, 15 * MINUTE, env.now).1
  }

  /** The login names this existing, enabled user, its password verifies, and neither limit nor policy refuses it. */
  predicate LoginAccepted(cfg: Config, w: World, req: Request, env: Env, userID: string) {
    && cfg.passwordEnabled && req.op.LoginPassword? && env.decoded && ByteLength(req.op.password) <= 1024
    && Identified(cfg, w, req.op, userID) && userID in w.store.users && !w.store.users[userID].disabled
    && cfg.crypto.verifyPassword(HashOf(cfg, w.store, userID), req.op.password) == Ok(true)
    && WithinPasswordLimit(cfg, w, req, env) && env.policy
  }

  /** A hash that the hasher wants renewed, or a missing one if it wants that, is replaced by that of the typed text. */
  function AfterRehash(cfg: Config, s: Store, env: Env, userID: string): Passwords {
    if cfg.crypto.needsRehash(if userID in s.passwords then s.passwords[userID].hash else "") && env.hashed.Some? then
      s.passwords[userID := PasswordCredential(env.hashed.value, env.now)]
    else s.passwords
  }

  function SecondFactorAsked(s: Store, userID: string): bool {
    userID in s.totp && s.totp[userID].confirmed
  }

  lemma AcceptedVerifies(cfg: Config, s: Store, identifier: string, password: string)
    requires Registered(s)
    ensures Verifies(cfg, s, identifier, password)
            <==> && identifier in s.identifiers && s.identifiers[identifier] in s.users
                 && !s.users[s.identifiers[identifier]].disabled
                 && cfg.crypto.verifyPassword(HashOf(cfg, s, s.identifiers[identifier]), password) == Ok(true)
  {
  }

  lemma RehashIs(cfg: Config, s: Store, env: Env, userID: string)
    requires userID in s.users
    ensures Rehashed(cfg, s, env, userID) == AfterRehash(cfg, s, env, userID)
  {
  }

  /**
   A login is answered with 200 exactly when it is accepted and a session can be opened: then the store has that session
   and the renewed hash, and nothing else changes. A login that is not accepted changes no store and sets no cookie.
   */
  lemma LoginIff(cfg: Config, w: World, req: Request, env: Env, userID: string)
    requires Registered(w.store) && req.op.LoginPassword? && Identified(cfg, w, req.op, userID)
    ensures var (v, r) := Handle(cfg, w, req, env);
            if !LoginAccepted(cfg, w, req, env, userID) then v.store == w.store && r.cookie.None? && r.status != 200
            else
              var s := w.store.(passwords := AfterRehash(cfg, w.store, env, userID));
              && v.challenges == w.challenges
              && if Opens(w.store.sessions, req, env) then
                   && r == Response(200, "", LoginBody(w.store.users[userID], SecondFactorAsked(w.store, userID)),
                                    Some(env.id))
                   && v.store == s.(sessions := Opened(cfg, w.store.sessions, req, env, userID, LevelPassword))
                 else r.status == 500 && r.cookie.None? && v.store == s.(sessions := Rotated(w.store.sessions, req))
  {
    var identifier := cfg.normalize(req.op.identifier).value;
    AcceptedVerifies(cfg, w.store, identifier, req.op.password);
    if userID in w.store.users {
      RehashIs(cfg, w.store, env, userID);
      var user := w.store.users[userID];
      var buckets := Limiter.AllowRequest(w.buckets, PasswordKey(req.ip, identifier), 10, 15 * MINUTE, env.now).0;
      var t := w.store.(passwords := AfterRehash(cfg, w.store, env, userID));
      LogInIs(cfg, w.(buckets := buckets, store := t), req, env, user, LevelPassword,
              LoginBody(user, SecondFactorAsked(w.store, userID)));
    }
    hide Limiter.AllowRequest, ByteLength, Verifies, Rehashed, AfterRehash, LogIn, Opens, Opened, Rotated, HashOf;
  }

  /** A login that names nobody is refused and changes no store. */
  lemma UnknownIsRefused(cfg: Config, w: World, req: Request, env: Env)
    requires req.op.LoginPassword?
    requires forall userID :: userID in w.store.users ==> !Identified(cfg, w, req.op, userID)
    requires Registered(w.store)
    ensures var (v, r) := Handle(cfg, w, req, env); v.store == w.store && r.cookie.None? && r.status != 200
  {
    hide Limiter.AllowRequest, ByteLength, Rehashed, LogIn;
  }

  /** Nor is a disabled user logged in, whatever the password; within the limit the answer is that of a wrong one. */
  lemma DisabledIsRefused(cfg: Config, w: World, req: Request, env: Env, userID: string)
    requires Registered(w.store) && req.op.LoginPassword? && Identified(cfg, w, req.op, userID)
    requires userID in w.store.users && w.store.users[userID].disabled
    ensures var (v, r) := Handle(cfg, w, req, env);
            && v.store == w.store && r.cookie.None?
            && var checked := cfg.passwordEnabled && env.decoded && ByteLength(req.op.password) <= 1024;
               checked && WithinPasswordLimit(cfg, w, req, env) ==> r == Problem(401, "INVALID_CREDENTIALS")
  {
    hide Limiter.AllowRequest, ByteLength, Rehashed, LogIn;
  }

  // ------------------------------------------------------------ registering and logging in

  /** Users are neither renamed, disabled nor removed, and keep their identifiers. */
  predicate KeepsUsers(s: Store, t: Store) {
    && (forall u :: u in s.users ==> u in t.users && t.users[u] == s.users[u].(verified := t.users[u].verified))
    && (forall i :: i in s.identifiers ==> i in t.identifiers && t.identifiers[i] == s.identifiers[i])
  }

  lemma VerifyCodeKeepsUsers(cfg: Config, w: World, req: Request, env: Env)
    requires req.op.VerifyCode?
    ensures KeepsUsers(w.store, Handle(cfg, w, req, env).0.store)
  {
    hide VerifyCodeStep, ApplyVerifiedCode, Contract.AttemptCode, OneTimeProof;
    var op := req.op;
    VerifyCodeShape(cfg, w, req, env, op.id, op.code, op.purpose, op.password);
    var (codes, r) := Contract.AttemptCode(
      w.store.codes, op.id, OneTimeProof(cfg, op.id, op.purpose, op.code), env.now);
    if r.Ok? && r.value.code.userID in w.store.users {
      ApplyKeepsUsers(cfg, w.(store := w.store.(codes := codes)), req, env, w.store.users[r.value.code.userID],
                      op.purpose, op.password);
    }
  }

  lemma ApplyKeepsUsers(
    cfg: Config, w: World, req: Request, env: Env, user: User, purpose: string, password: string)
    ensures KeepsUsers(w.store, ApplyVerifiedCode(cfg, w, req, env, user, purpose, password).0.store)
  {
    hide LogIn, ResetPassword;
    if purpose == PURPOSE_LOGIN_CODE {
      LogInWrites(cfg, w, req, env, user, LevelCode, UserBody(user));
    } else if purpose != PURPOSE_VERIFY_ACCOUNT {
      ResetWrites(cfg, w, env, user, password);
    }
  }

  /** No handler changes a user, but for the verified flag. */
  lemma HandleKeepsUsers(cfg: Config, w: World, req: Request, env: Env)
    requires Registered(w.store)
    ensures KeepsUsers(w.store, Handle(cfg, w, req, env).0.store)
  {
    hide Handle, RegistrationAccepted;
    if req.op.RegisterPassword? {
      RegistrationIff(cfg, w, req, env);
      if RegistrationAccepted(cfg, w.store, req, env) {
        RegistrationIsNew(cfg, w.store, req, env);
      }
    } else if req.op.VerifyCode? {
      VerifyCodeKeepsUsers(cfg, w, req, env);
    } else {
      HandleOnlyWrites(cfg, w, req, env);
    }
  }

  lemma RegistrationIsNew(cfg: Config, s: Store, req: Request, env: Env)
    requires RegistrationAccepted(cfg, s, req, env)
    ensures env.id !in s.users && cfg.normalize(req.op.identifier).value !in s.identifiers
  {
  }

  lemma {:induction false} RunKeepsUsers(cfg: Config, start: Store, steps: seq<Step>, i: nat, j: nat)
    requires Registered(start) && FreshIDs(start, steps) && i <= j <= |steps|
    ensures KeepsUsers(After(cfg, start, steps[..i]).store, After(cfg, start, steps[..j]).store)
    decreases j
  {
    hide After, Handle, Registered;
    if i < j {
      RunKeepsUsers(cfg, start, steps, i, j - 1);
      RunKeepsRegistered(cfg, start, steps[..j - 1]);
      HandleKeepsUsers(cfg, Before(cfg, start, steps, j - 1), steps[j - 1].req, steps[j - 1].env);
      AfterStep(cfg, start, steps, j - 1);
    }
  }

  lemma RegisteredStays(cfg: Config, start: Store, steps: seq<Step>, i: nat, j: nat)
    requires Registered(start) && FreshIDs(start, steps) && i < j < |steps|
    requires steps[i].req.op.RegisterPassword? && ResponseTo(cfg, start, steps, i).status == 201
    ensures var s, env := Before(cfg, start, steps, j).store, steps[i].env;
            var identifier := cfg.normalize(steps[i].req.op.identifier);
            && cfg.passwordEnabled && ByteLength(steps[i].req.op.password) <= 1024
            && identifier.Some? && identifier.value in s.identifiers && s.identifiers[identifier.value] == env.id
            && env.id in s.users && !s.users[env.id].disabled
  {
    hide After, Handle, Registered, ByteLength;
    RunKeepsRegistered(cfg, start, steps[..i]);
    AfterStep(cfg, start, steps, i);
    RegistrationIff(cfg, Before(cfg, start, steps, i), steps[i].req, steps[i].env);
    RunKeepsUsers(cfg, start, steps, i + 1, j);
  }

  /**
   Whoever registered can log in: after a registration that was answered with 201, at any later step of the run at which
   the stored hash is still the one made then, a login with the same identifier and password is accepted if the hasher
   verifies its own hash and neither limit nor policy refuses it.
   */
  lemma RegisteredLogsIn(cfg: Config, start: Store, steps: seq<Step>, i: nat, j: nat)
    requires Registered(start) && FreshIDs(start, steps) && i < j < |steps|
    requires steps[i].req.op.RegisterPassword? && ResponseTo(cfg, start, steps, i).status == 201
    requires steps[j].req.op.LoginPassword? && steps[j].req.op.password == steps[i].req.op.password
    requires cfg.normalize(steps[j].req.op.identifier) == cfg.normalize(steps[i].req.op.identifier)
    requires steps[j].env.decoded && steps[j].env.policy
    requires var w, env := Before(cfg, start, steps, j), steps[i].env;
             && WithinPasswordLimit(cfg, w, steps[j].req, steps[j].env) && env.hashed.Some?
             && env.id in w.store.passwords && w.store.passwords[env.id].hash == env.hashed.value
             && cfg.crypto.verifyPassword(env.hashed.value, steps[i].req.op.password) == Ok(true)
             && Opens(w.store.sessions, steps[j].req, steps[j].env)
    ensures var r, id := ResponseTo(cfg, start, steps, j), steps[j].env.id;
            && r.status == 200 && r.cookie == Some(id)
            && var sessions := After(cfg, start, steps[..j + 1]).store.sessions;
               id in sessions && sessions[id].userID == steps[i].env.id && sessions[id].level == LevelPassword
  {
    hide After, Handle, Registered, WithinPasswordLimit, ByteLength, AfterRehash, Opens;
    RunKeepsRegistered(cfg, start, steps[..j]);
    RegisteredStays(cfg, start, steps, i, j);
    LoginIff(cfg, Before(cfg, start, steps, j), steps[j].req, steps[j].env, steps[i].env.id);
    AfterStep(cfg, start, steps, j);
  }
}
