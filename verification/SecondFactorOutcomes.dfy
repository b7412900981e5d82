/** Exactly when enrolment and second-factor logins succeed, and everything they store. */
module SecondFactorOutcomes {
  import opened Models
  import opened Contract = StoreContract
  import opened CodeText
  import opened Handlers
  import opened Outcomes
  import opened Provenance
  import Base32
  import Limiter
  import Totp

  /** The user's stored TOTP credential in the wanted state, opened under the user's own label. */
  function SecretOf(cfg: Config, s: Store, userID: string, confirmed: bool): Option<string> {
    if userID in s.totp && s.totp[userID].confirmed == confirmed then
      cfg.crypto.open("totp:" + userID, s.totp[userID].encryptedSecret)
    else None
  }

  /** The typed code verifies against that secret now. */
  predicate CodeFits(cfg: Config, s: Store, userID: string, confirmed: bool, code: string, now: Time) {
    var secret := SecretOf(cfg, s, userID, confirmed);
    secret.Some? && Totp.Modulus(cfg.totp.digits) != 0 && Totp.Verify(cfg.crypto.mac, secret.value, code, now, cfg.totp)
  }

  // ------------------------------------------------------------ enrolment

  /** Setup: 200 exactly for a full session and a willing policy; then the sealed new secret is stored, unconfirmed. */
  lemma SetupIff(cfg: Config, w: World, req: Request, env: Env)
    requires Registered(w.store) && req.op.SetupTOTP?
    ensures var (v, r) := Handle(cfg, w, req, env);
            var userID := Caller(w.store, req);
            if cfg.totpEnabled && FullSessionOf(cfg, w.store, req, env, userID) && env.policy then
              var secret := Base32.Encode(env.bytes);
              var sealed := cfg.crypto.seal("totp:" + userID, env.nonce, secret);
              && r == Response(200, "", SecretBody(secret), None)
              && v == w.(store := w.store.(totp := w.store.totp[userID := TOTPCredential(sealed, false, env.now)]))
            else r.status != 200 && r.cookie.None? && v.store.totp == w.store.totp
  {
    FullSessionUserIs(cfg, w.store, req, env);
    AuthenticatedSessionUserEffect(cfg, w.store, req, env);
    hide AuthenticatedSessionUser, Base32.Encode, FullSessionOf;
    FullSessionIsOfUser(cfg, w.store, req, env);
  }

  /** The recovery codes shown for the drawn values, and the unused proofs stored for them. */
  function ShownCodes(drawn: seq<Bytes>): seq<string>
    requires forall i :: 0 <= i < |drawn| ==> |drawn[i]| == 10
  {
    seq(|drawn|, i requires 0 <= i < |drawn| =>
      Base32.EncodeLength(drawn[i]);
      var raw := Base32.Encode(drawn[i]);
      raw[..4] + "-" + raw[4..8] + "-" + raw[8..12] + "-" + raw[12..])
  }

  function RecoveryProofOf(cfg: Config, userID: string, code: string): Bytes {
    cfg.crypto.hmac(cfg.crypto.hmac(cfg.secret, "dreego-plugin-auth:recovery:" + userID), Cleaned(code))
  }

  function StoredCodes(cfg: Config, userID: string, codes: seq<string>): seq<RecoveryCode> {
    seq(|codes|, i requires 0 <= i < |codes| => RecoveryCode(RecoveryProofOf(cfg, userID, codes[i]), ZERO_TIME))
  }

  predicate TenDrawn(env: Env) {
    |env.recoveryBytes| == 10 && forall i :: 0 <= i < 10 ==> |env.recoveryBytes[i]| == 10
  }

  lemma ShownIs(drawn: seq<Bytes>)
    requires forall i :: 0 <= i < |drawn| ==> |drawn[i]| == 10
    ensures RecoveryTexts(drawn) == ShownCodes(drawn)
  {
    forall i | 0 <= i < |drawn|
      ensures RecoveryTexts(drawn)[i] == ShownCodes(drawn)[i]
    {
      Base32.EncodeLength(drawn[i]);
      Base32.EncodeUsesAlphabet(drawn[i]);
      Base32IsPlain(Base32.Encode(drawn[i]));
    }
  }

  lemma RecoveryProofIs(cfg: Config, userID: string, code: string)
    ensures RecoveryProof(cfg, userID, code) == RecoveryProofOf(cfg, userID, code)
  {
    assert "dreego-plugin-auth:" + ("recovery:" + userID) == "dreego-plugin-auth:recovery:" + userID;
  }

  lemma StoredIs(cfg: Config, userID: string, codes: seq<string>)
    ensures RecoveryProofs(cfg, userID, codes) == StoredCodes(cfg, userID, codes)
  {
    forall i | 0 <= i < |codes|
      ensures RecoveryProofs(cfg, userID, codes)[i] == StoredCodes(cfg, userID, codes)[i]
    {
      RecoveryProofIs(cfg, userID, codes[i]);
    }
  }

  /** A confirmation by a live session's user, whose unconfirmed credential the code fits. */
  predicate ConfirmationFits(cfg: Config, s: Store, req: Request, env: Env, userID: string) {
    && cfg.totpEnabled && req.op.ConfirmTOTP? && env.decoded && SessionOf(s, req, env, userID)
    && CodeFits(cfg, s, userID, false, req.op.code, env.now)
  }

  /**
   Confirmation: 200 exactly when it fits and ten codes can be drawn; then the credential is confirmed, the codes are
   shown and their proofs replace the user's recovery set. Without the codes it stays confirmed.
   */
  lemma ConfirmIff(cfg: Config, w: World, req: Request, env: Env)
    requires Registered(w.store) && req.op.ConfirmTOTP?
    ensures var (v, r) := Handle(cfg, w, req, env);
            var userID := Caller(w.store, req);
            if !ConfirmationFits(cfg, w.store, req, env, userID) then
              r.status != 200 && r.cookie.None? && v.store.totp == w.store.totp && v.store.recovery == w.store.recovery
            else
              var confirmed := w.store.totp[userID := w.store.totp[userID].(confirmed := true)];
              if TenDrawn(env) then
                var codes := ShownCodes(env.recoveryBytes);
                && r == Response(200, "", RecoveryBody(codes), None)
                && v == w.(store := w.store.(
                     totp := confirmed, recovery := w.store.recovery[userID := StoredCodes(cfg, userID, codes)]))
              else r.status == 500 && v == w.(store := w.store.(totp := confirmed))
  {
    var userID := Caller(w.store, req);
    SessionUserIs(w.store, req, env);
    SessionUserEffect(w.store, req, env);
    if SessionOf(w.store, req, env, userID) {
      assert w.store.users[userID].id == userID;
      if userID in w.store.totp {
        EnableIs(cfg, w, env, userID);
      }
    }
    hide SessionUser, EnableTOTP, Totp.Verify, Totp.Modulus, ShownCodes, StoredCodes, SessionOf, TenDrawn;
    SessionIsOfUser(w.store, req, env);
  }

  lemma EnableIs(cfg: Config, w: World, env: Env, userID: string)
    requires userID in w.store.totp && userID in w.store.users
    ensures var (v, r) := EnableTOTP(cfg, w, env, userID);
            var confirmed := w.store.totp[userID := w.store.totp[userID].(confirmed := true)];
            if TenDrawn(env) then
              var codes := ShownCodes(env.recoveryBytes);
              && r == Response(200, "", RecoveryBody(codes), None)
              && v == w.(store := w.store.(
                   totp := confirmed, recovery := w.store.recovery[userID := StoredCodes(cfg, userID, codes)]))
            else r == Problem(500, "INTERNAL_ERROR") && v == w.(store := w.store.(totp := confirmed))
  {
    if TenDrawn(env) {
      ShownIs(env.recoveryBytes);
      StoredIs(cfg, userID, ShownCodes(env.recoveryBytes));
    }
    hide RecoveryTexts, RecoveryProofs, ShownCodes, StoredCodes;
    if !TenDrawn(env) {
      assert w.store.(totp := w.store.totp[userID := w.store.totp[userID].(confirmed := true)],
                      recovery := w.store.recovery)
          == w.store.(totp := w.store.totp[userID := w.store.totp[userID].(confirmed := true)]);
    }
  }

  // ------------------------------------------------------------ logins

  /** A live password session whose user is within the second-factor limit at this address. */
  predicate StepUp(cfg: Config, w: World, req: Request, env: Env, userID: string) {
    && cfg.totpEnabled && SessionOf(w.store, req, env, userID)
    && w.store.sessions[req.cookie].level == LevelPassword
    && Limiter.AllowRequest(w.buckets, "second-factor:" + req.ip + ":" + userID, 10, 5 * MINUTE, env.now).1
  }

  lemma StepUpIs(cfg: Config, w: World, req: Request, env: Env)
    requires Registered(w.store) && cfg.totpEnabled
    ensures var (v, who) := BeginSecondFactor(w, req, env);
            var userID := Caller(w.store, req);
            && v.challenges == w.challenges
            && if StepUp(cfg, w, req, env, userID) then
                 && who == Known(w.store.users[userID], w.store.sessions[req.cookie])
                 && w.store.users[userID].id == userID && v.store == w.store
               else
                 && who.Refused? && who.response.status != 200 && who.response.cookie.None?
                 && v.store == w.store.(sessions := v.store.sessions)
  {
    SessionUserIs(w.store, req, env);
    SessionUserEffect(w.store, req, env);
    hide SessionUser, Limiter.AllowRequest;
  }

  /** TOTP logins: 200 exactly when the code fits the confirmed credential, within limit and policy. */
  lemma TOTPLoginIff(cfg: Config, w: World, req: Request, env: Env)
    requires Registered(w.store) && req.op.LoginTOTP?
    ensures var (v, r) := Handle(cfg, w, req, env);
            var userID := Caller(w.store, req);
            && (r.status == 200 <==>
                && StepUp(cfg, w, req, env, userID) && env.decoded && env.policy
                && CodeFits(cfg, w.store, userID, true, req.op.code, env.now)
                && Opens(w.store.sessions, req, env))
            && (r.status == 200 ==>
                  && r == Response(200, "", UserBody(w.store.users[userID]), Some(env.id))
                  && v.store == w.store.(sessions := Opened(cfg, w.store.sessions, req, env, userID, LevelMFA)))
            && (r.status != 200 ==> r.cookie.None?)
  {
    if cfg.totpEnabled {
      StepUpIs(cfg, w, req, env);
      var (v, who) := BeginSecondFactor(w, req, env);
      if who.Known? {
        LogInIs(cfg, v, req, env, who.user, LevelMFA, UserBody(who.user));
      }
    }
    hide BeginSecondFactor, StepUp, LogIn, Totp.Verify, Totp.Modulus, Opens, Opened, Rotated;
  }

  /** Entry k is the first unused one with this proof. */
  predicate Unused(list: seq<RecoveryCode>, k: nat, proof: Bytes) {
    && k < |list| && list[k].proof == proof && list[k].usedAt == ZERO_TIME
    && forall l :: 0 <= l < k ==> list[l].proof != proof || list[l].usedAt != ZERO_TIME
  }

  lemma ConsumeIs(recovery: Recovery, userID: string, proof: Bytes, now: Time, k: nat)
    requires userID in recovery && Unused(recovery[userID], k, proof)
    ensures Contract.ConsumeRecoveryCode(recovery, userID, proof, now)
            == (recovery[userID := recovery[userID][k := RecoveryCode(proof, now)]], true)
  {
    var list := recovery[userID];
    var i := RecoveryIndex(list, proof);
    assert Redeems(list[k], proof);
    assert i == k;
    assert list[k].(usedAt := now) == RecoveryCode(proof, now);
  }

  /** A code is consumed only if there is such an entry, and otherwise nothing changes. */
  lemma ConsumedWasUnused(recovery: Recovery, userID: string, proof: Bytes, now: Time)
    ensures var (t, matched) := Contract.ConsumeRecoveryCode(recovery, userID, proof, now);
            if matched then userID in recovery && exists k: nat :: Unused(recovery[userID], k, proof)
            else t == recovery
  {
    var list := RecoveryOf(recovery, userID);
    var i := RecoveryIndex(list, proof);
    if i < |list| {
      assert Redeems(list[i], proof);
      assert forall l :: 0 <= l < i ==> !Redeems(list[l], proof);
      assert Unused(recovery[userID], i, proof);
    }
  }

  /** Recovery logins: with an unused code the code is marked and a session opened if it can be; marking comes first. */
  lemma RecoveryLoginSucceeds(cfg: Config, w: World, req: Request, env: Env, k: nat)
    requires Registered(w.store) && req.op.LoginRecovery?
    requires var userID := Caller(w.store, req);
             && StepUp(cfg, w, req, env, userID) && env.decoded && env.policy
             && userID in w.store.recovery
             && Unused(w.store.recovery[userID], k, RecoveryProofOf(cfg, userID, req.op.code))
    ensures var (v, r) := Handle(cfg, w, req, env);
            var userID := Caller(w.store, req);
            var used := RecoveryCode(RecoveryProofOf(cfg, userID, req.op.code), env.now);
            var s := w.store.(recovery := w.store.recovery[userID := w.store.recovery[userID][k := used]]);
            if Opens(w.store.sessions, req, env) then
              && r == Response(200, "", UserBody(w.store.users[userID]), Some(env.id))
              && v.store == s.(sessions := Opened(cfg, w.store.sessions, req, env, userID, LevelMFA))
            else r.status == 500 && r.cookie.None? && v.store == s.(sessions := Rotated(w.store.sessions, req))
  {
    var userID := Caller(w.store, req);
    StepUpIs(cfg, w, req, env);
    RecoveryProofIs(cfg, userID, req.op.code);
    var proof := RecoveryProofOf(cfg, userID, req.op.code);
    ConsumeIs(w.store.recovery, userID, proof, env.now, k);
    var v := BeginSecondFactor(w, req, env).0;
    var recovery := w.store.recovery[userID := w.store.recovery[userID][k := RecoveryCode(proof, env.now)]];
    LogInIs(cfg, v.(store := v.store.(recovery := recovery)), req, env, w.store.users[userID], LevelMFA,
            UserBody(w.store.users[userID]));
    hide BeginSecondFactor, LogIn, RecoveryProof, RecoveryProofOf, Contract.ConsumeRecoveryCode, Opens, Opened, Rotated,
      Unused;
  }

  /** And in no other case does anybody log in or does the recovery set change. */
  lemma RecoveryLoginFails(cfg: Config, w: World, req: Request, env: Env)
    requires Registered(w.store) && req.op.LoginRecovery?
    requires var userID := Caller(w.store, req);
             StepUp(cfg, w, req, env, userID) && env.decoded && env.policy && userID in w.store.recovery ==>
               forall k: nat :: !Unused(w.store.recovery[userID], k, RecoveryProofOf(cfg, userID, req.op.code))
    ensures var (v, r) := Handle(cfg, w, req, env);
            r.status != 200 && r.cookie.None? && v.store.recovery == w.store.recovery
  {
    var userID := Caller(w.store, req);
    if cfg.totpEnabled {
      StepUpIs(cfg, w, req, env);
      RecoveryProofIs(cfg, userID, req.op.code);
      ConsumedWasUnused(w.store.recovery, userID, RecoveryProofOf(cfg, userID, req.op.code), env.now);
    }
    hide BeginSecondFactor, LogIn, RecoveryProof, RecoveryProofOf, Contract.ConsumeRecoveryCode, Unused;
  }
}
