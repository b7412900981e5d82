/** Password logins of users without a password entry: what they are checked against, and what they leave behind. */
module DummyPassword {
  import opened Models
  import opened Contract = StoreContract
  import opened Handlers
  import opened Outcomes
  import opened PasswordOutcomes
  import opened Provenance
  import Argon2id
  import Limiter

  // ------------------------------------------------------------ which hash a login is checked against

  /**
   In any store with matching identifiers, what a verified login verified is the user's stored password exactly when
   the user has one. Users made by `CreateUser` alone have none and are checked against the dummy hash.
   */
  lemma VerifiedStoredPasswordIff(cfg: Config, w: World, req: Request, identifier: string)
    requires req.op.LoginPassword? && cfg.normalize(req.op.identifier) == Some(identifier)
    requires Registered(w.store) && Verifies(cfg, w.store, identifier, req.op.password)
    ensures var userID := w.store.identifiers[identifier];
            && PasswordVerified(cfg, w, req, userID)
            && (StoredPasswordVerified(cfg, w, req, userID) <==> userID in w.store.passwords)
  {
  }

  /** In a run only a user handed in without a password entry is ever checked against the dummy hash. */
  lemma DummyOnlyForHandedIn(cfg: Config, start: Store, steps: seq<Step>, i: nat, userID: string)
    requires Registered(start) && FreshIDs(start, steps) && i < |steps|
    requires PasswordVerified(cfg, Before(cfg, start, steps, i), steps[i].req, userID)
    ensures StoredPasswordVerified(cfg, Before(cfg, start, steps, i), steps[i].req, userID)
            || (userID in start.users && userID !in start.passwords)
  {
    RunKeepsRegistered(cfg, start, steps[..i]);
    hide Handle, After;
  }

  /** A user just made by `CreateUser` verifies exactly when the dummy hash does. */
  lemma UserWithoutPasswordVerifiesIff(cfg: Config, input: NewUser, password: string, now: Time)
    requires CanCreate(Empty(), input, input.webAuthnID)
    ensures var store := Contract.CreateUser(Empty(), input, input.webAuthnID, now).0;
            && input.id !in store.passwords
            && (Verifies(cfg, store, input.identifier, password)
                <==> cfg.crypto.verifyPassword(cfg.dummyHash, password) == Ok(true))
  {
  }

  // ------------------------------------------------------------ the handler

  /** The login names this enabled user, is within its limit, and no policy refuses it. */
  predicate Reaches(cfg: Config, w: World, req: Request, env: Env, userID: string) {
    && req.op.LoginPassword? && env.decoded && env.policy && ByteLength(req.op.password) <= 1024
    && Identified(cfg, w, req.op, userID)
    && userID in w.store.users && !w.store.users[userID].disabled && WithinPasswordLimit(cfg, w, req, env)
  }

  /**
   A user without a password entry is logged in if and only if the dummy hash verifies the typed text, and then that
   text's new hash, if the hasher makes one, is stored as the user's password.
   */
  lemma LoginWithoutEntryIff(cfg: Config, w: World, req: Request, env: Env, userID: string)
    requires Registered(w.store) && Reaches(cfg, w, req, env, userID) && userID !in w.store.passwords
    requires Opens(w.store.sessions, req, env)
    ensures var (v, r) := LoginPasswordStep(cfg, w, req, env, req.op.identifier, req.op.password);
            if cfg.crypto.verifyPassword(cfg.dummyHash, req.op.password) == Ok(true) then
              && r.status == 200 && r.cookie == Some(env.id)
              && v.store.sessions == Opened(cfg, w.store.sessions, req, env, userID, LevelPassword)
              && v.store.passwords == AfterRehash(cfg, w.store, env, userID)
              && !StoredPasswordVerified(cfg, w, req, userID)
            else r == INVALID_LOGIN && v.store == w.store
  {
    var user := w.store.users[userID];
    var buckets := Limiter.AllowRequest(
      w.buckets, PasswordKey(req.ip, cfg.normalize(req.op.identifier).value), 10, 15 * MINUTE, env.now).0;
    var t := w.store.(passwords := AfterRehash(cfg, w.store, env, userID));
    LogInIs(cfg, w.(buckets := buckets, store := t), req, env, user, LevelPassword,
            LoginBody(user, ConfirmedTOTP(w.store.totp, userID)));
    VerifiesIff(cfg, w, req, userID);
    RehashIs(cfg, w.store, env, userID);
    hide ByteLength, Limiter.AllowRequest, Rehashed, AfterRehash, LogIn, Opens, Opened, Rotated, Verifies,
      ConfirmedTOTP;
  }

  lemma VerifiesIff(cfg: Config, w: World, req: Request, userID: string)
    requires Registered(w.store) && req.op.LoginPassword? && Identified(cfg, w, req.op, userID)
    requires userID in w.store.users && !w.store.users[userID].disabled && userID !in w.store.passwords
    ensures Verifies(cfg, w.store, cfg.normalize(req.op.identifier).value, req.op.password)
            <==> cfg.crypto.verifyPassword(cfg.dummyHash, req.op.password) == Ok(true)
  {
  }

  // ------------------------------------------------------------ the fixed text

  /** The hash made of the dummy text when the service starts verifies that text, as every hasher's own hash must. */
  predicate DummyHashIsMade(cfg: Config) {
    cfg.crypto.verifyPassword(cfg.dummyHash, DUMMY_PASSWORD) == Ok(true)
  }

  /** The default hasher meets this, whatever its parameters and salt. */
  lemma DefaultHasherVerifiesDummy(kdf: Argon2id.KDF, p: Argon2id.Argon2idParams, salt: Bytes)
    requires Argon2id.InBounds(p) && Argon2id.Sizes(kdf) && |salt| == p.saltLength
    ensures var hash := Argon2id.Encoded(p, salt, Argon2id.DeriveKey(kdf, DUMMY_PASSWORD, salt, p));
            Argon2id.VerifyHash(kdf, hash, DUMMY_PASSWORD) == Ok(true)
  {
    Argon2id.VerifyOfHash(kdf, p, salt, DUMMY_PASSWORD, DUMMY_PASSWORD);
  }

  /** And it asks for renewal of the empty hash, which is what a missing entry reads as. */
  lemma DefaultHasherRenewsNoEntry(params: Argon2id.Argon2idParams)
    ensures Argon2id.Rehashes(params, "")
  {
    assert Argon2id.Split("", '$') == [""];
  }

  /** A text within the length limit that the dummy hash verifies exists: the fixed one behind it. */
  lemma DummyTextLogsIn(cfg: Config, w: World, req: Request, env: Env, identifier: string, userID: string)
    requires DummyHashIsMade(cfg) && Registered(w.store)
    requires req.op == LoginPassword(identifier, DUMMY_PASSWORD) && Identified(cfg, w, req.op, userID)
    requires WithinPasswordLimit(cfg, w, req, env)
    requires userID in w.store.users && !w.store.users[userID].disabled && userID !in w.store.passwords
    requires env.decoded && env.policy && Opens(w.store.sessions, req, env)
    ensures var (v, r) := LoginPasswordStep(cfg, w, req, env, identifier, DUMMY_PASSWORD);
            && r.status == 200 && r.cookie == Some(env.id)
            && v.store.sessions == Opened(cfg, w.store.sessions, req, env, userID, LevelPassword)
            && v.store.passwords == AfterRehash(cfg, w.store, env, userID)
            && !StoredPasswordVerified(cfg, w, req, userID)
  {
    DummyTextIsShort();
    hide LoginPasswordStep, AfterRehash, ByteLength, Limiter.AllowRequest, Registered;
    LoginWithoutEntryIff(cfg, w, req, env, userID);
  }

  /**
   When the hasher's answer verifies the text it was made of, the fixed text is the user's own stored password from
   that login on.
   */
  lemma DummyTextBecomesPassword(cfg: Config, w: World, req: Request, env: Env, identifier: string, userID: string)
    requires DummyHashIsMade(cfg) && Registered(w.store)
    requires req.op == LoginPassword(identifier, DUMMY_PASSWORD) && Identified(cfg, w, req.op, userID)
    requires WithinPasswordLimit(cfg, w, req, env)
    requires userID in w.store.users && !w.store.users[userID].disabled && userID !in w.store.passwords
    requires env.decoded && env.policy && Opens(w.store.sessions, req, env)
    requires cfg.crypto.needsRehash("") && env.hashed.Some?
    requires cfg.crypto.verifyPassword(env.hashed.value, DUMMY_PASSWORD) == Ok(true)
    ensures var v := LoginPasswordStep(cfg, w, req, env, identifier, DUMMY_PASSWORD).0;
            && userID in v.store.passwords && v.store.passwords[userID].hash == env.hashed.value
            && StoredPasswordVerified(cfg, v, req, userID)
  {
    DummyTextLogsIn(cfg, w, req, env, identifier, userID);
    KeepsIdentifiers(cfg, w, req, env, identifier, DUMMY_PASSWORD);
    hide LoginPasswordStep, Limiter.AllowRequest, Registered;
  }

  lemma KeepsIdentifiers(cfg: Config, w: World, req: Request, env: Env, identifier: string, password: string)
    ensures LoginPasswordStep(cfg, w, req, env, identifier, password).0.store.identifiers == w.store.identifiers
  {
    hide Limiter.AllowRequest, Rehashed, CreateSessionFor, Verifies, ConfirmedTOTP;
  }

  lemma {:induction false} AtMostFourBytes(s: string)
    ensures ByteLength(s) <= 4 * |s|
  {
    if s != [] {
      AtMostFourBytes(s[1..]);
    }
  }

  lemma DummyTextIsShort()
    ensures ByteLength(DUMMY_PASSWORD) <= 1024
  {
    hide ByteLength;
    AtMostFourBytes(DUMMY_PASSWORD);
    assert |DUMMY_PASSWORD| == 26;
  }
}
