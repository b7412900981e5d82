/**
 Enrolment and what it gives: after setup an RFC value of the drawn key confirms, and each recovery code then shown
 logs in once, whatever the steps in between, until the next enrolment of that user.
 */
module Enrollment {
  import opened Models
  import opened Contract = StoreContract
  import opened CodeText
  import opened HandlerFrames
  import opened Handlers
  import opened Provenance
  import opened SecondFactorGate
  import Base32
  import Limiter
  import Totp

  // ------------------------------------------------------------ TOTP

  /** The secret shown by setup stands for exactly the drawn bytes. */
  lemma ShownSecretIsKey(bytes: Bytes)
    requires |bytes| == 20
    ensures Totp.KeyOf(Base32.Encode(bytes)) == Some(bytes)
  {
    Base32.DecodeEncode(bytes);
    Base32.EncodeUsesAlphabet(bytes);
    Base32IsPlain(Base32.Encode(bytes));
  }

  /** After a successful setup the stored credential is unconfirmed and opens to the secret that was shown. */
  lemma SetupStoresSecret(cfg: Config, w: World, req: Request, env: Env, userID: string)
    requires ValidConfig(cfg)
    requires var who := AuthenticatedSessionUser(cfg, w.store, req, env).1; who.Known? && who.user.id == userID
    requires SetupTOTPStep(cfg, w, req, env).1.body.SecretBody?
    ensures var (v, r) := SetupTOTPStep(cfg, w, req, env);
            && r.body.secret == Base32.Encode(env.bytes)
            && TOTPSecret(cfg, v.store.totp, userID, false) == Some(Base32.Encode(env.bytes))
  {
    hide AuthenticatedSessionUser, LabelText, Base32.Encode;
  }

  /**
   So a confirmation code verifies exactly when it is the RFC value of the drawn key at the current counter or one
   beside it.
   */
  lemma ConfirmationIsExact(cfg: Config, env: Env, bytes: Bytes, code: string, seconds: int, t: nat)
    requires ValidConfig(cfg) && cfg.totpEnabled && |bytes| == 20 && cfg.totp.period == seconds * SECOND
    requires seconds > 0 && seconds <= Totp.Unix(env.now) < Totp.TWO_TO_63 - seconds
    requires t == Totp.Unix(env.now) / seconds
    ensures t >= 1
    ensures VerifiesTOTP(cfg, Base32.Encode(bytes), code, env.now)
            <==> Totp.IsNearby(cfg.crypto.mac, bytes, t, cfg.totp.digits, code)
  {
    ShownSecretIsKey(bytes);
    Totp.VerifyIsExact(cfg.crypto.mac, Base32.Encode(bytes), bytes, code, env.now, cfg.totp, seconds, t);
    hide Totp.Verify, Totp.IsNearby, Totp.KeyOf, Base32.Encode;
  }

  // ------------------------------------------------------------ recovery codes

  /** The stored proof of a shown code is that of its 16 base32 characters. */
  lemma StoredProofIs(cfg: Config, userID: string, drawn: seq<Bytes>, i: nat)
    requires i < |drawn| && forall j :: 0 <= j < |drawn| ==> |drawn[j]| == 10
    ensures var stored := RecoveryProofs(cfg, userID, RecoveryTexts(drawn));
            && |stored| == |drawn| && stored[i].usedAt == ZERO_TIME
            && stored[i].proof == RecoveryProof(cfg, userID, Base32.Encode(drawn[i]))
  {
    CleanedDisplay(drawn[i]);
    Base32.EncodeUsesAlphabet(drawn[i]);
    Base32IsPlain(Base32.Encode(drawn[i]));
  }

  /** Anything typed that cleans to the same 16 characters has the same proof. */
  lemma TypedProofIs(cfg: Config, userID: string, bytes: Bytes, typed: string)
    requires Cleaned(typed) == Base32.Encode(bytes)
    ensures RecoveryProof(cfg, userID, typed) == RecoveryProof(cfg, userID, Base32.Encode(bytes))
  {
    Base32.EncodeUsesAlphabet(bytes);
    Base32IsPlain(Base32.Encode(bytes));
  }

  /**
   Right after enrolment every shown code, typed with any separators or ASCII case, redeems an unused entry; marking
   it used leaves the other entries alone.
   */
  lemma ShownCodeRedeems(
    cfg: Config, recovery: Recovery, userID: string, drawn: seq<Bytes>, i: nat, typed: string, now: Time)
    requires i < |drawn| && forall j :: 0 <= j < |drawn| ==> |drawn[j]| == 10
    requires userID in recovery && recovery[userID] == RecoveryProofs(cfg, userID, RecoveryTexts(drawn))
    requires Cleaned(typed) == Base32.Encode(drawn[i])
    ensures var proof := RecoveryProof(cfg, userID, typed);
            var (t, matched) := Contract.ConsumeRecoveryCode(recovery, userID, proof, now);
            && matched
            && exists k :: 0 <= k < |drawn| && recovery[userID][k].proof == proof
                 && t == recovery[userID := recovery[userID][k := recovery[userID][k].(usedAt := now)]]
  {
    StoredProofIs(cfg, userID, drawn, i);
    TypedProofIs(cfg, userID, drawn[i], typed);
    var list := recovery[userID];
    var proof := RecoveryProof(cfg, userID, typed);
    assert Redeems(list[i], proof);
    var k := RecoveryIndex(list, proof);
    assert list[k].proof == proof;
    hide RecoveryTexts, RecoveryProofs, RecoveryProof, Cleaned, Base32.Encode;
  }

  /** Confirming shows the codes whose proofs it stores, and keeps the sealed secret. */
  lemma EnableStoresShownCodes(cfg: Config, w: World, env: Env, userID: string)
    requires userID in w.store.totp && EnableTOTP(cfg, w, env, userID).1.body.RecoveryBody?
    ensures var (v, r) := EnableTOTP(cfg, w, env, userID);
            && DrewRecoveryCodes(env) && r.body.codes == RecoveryTexts(env.recoveryBytes)
            && userID in v.store.recovery && v.store.recovery[userID] == RecoveryProofs(cfg, userID, r.body.codes)
            && userID in v.store.totp && v.store.totp[userID] == w.store.totp[userID].(confirmed := true)
  {
    hide RecoveryTexts, RecoveryProofs;
  }

  // ------------------------------------------------------------ the handlers one after the other

  /**
   For a session of a user whose unconfirmed credential holds this key, the confirming handler enables TOTP exactly
   when the code is the RFC value at the current counter or one beside it, and otherwise changes nothing.
   */
  lemma ConfirmAnswers(
    cfg: Config, w: World, req: Request, env: Env, code: string, userID: string, bytes: Bytes, seconds: int, t: nat)
    requires ValidConfig(cfg) && cfg.totpEnabled && |bytes| == 20 && cfg.totp.period == seconds * SECOND
    requires seconds > 0 && seconds <= Totp.Unix(env.now) < Totp.TWO_TO_63 - seconds
    requires t == Totp.Unix(env.now) / seconds
    requires var who := SessionUser(w.store, req, env).1; who.Known? && who.user.id == userID
    requires env.decoded && TOTPSecret(cfg, w.store.totp, userID, false) == Some(Base32.Encode(bytes))
    ensures t >= 1
    ensures ConfirmTOTPStep(cfg, w, req, env, code) ==
            if Totp.IsNearby(cfg.crypto.mac, bytes, t, cfg.totp.digits, code) then EnableTOTP(cfg, w, env, userID)
            else (w, INVALID_CODE)
  {
    ConfirmationIsExact(cfg, env, bytes, code, seconds, t);
    SessionUserEffect(w.store, req, env);
    hide SessionUser, VerifiesTOTP, EnableTOTP, Totp.IsNearby, Base32.Encode;
    assert w.(store := w.store) == w;
  }

  /** Enabling for an existing user, with ten codes drawn, confirms the credential and stores what it shows. */
  lemma EnableSucceeds(cfg: Config, w: World, env: Env, userID: string)
    requires userID in w.store.totp && userID in w.store.users && DrewRecoveryCodes(env)
    ensures EnableTOTP(cfg, w, env, userID) ==
            (w.(store := w.store.(
               totp := w.store.totp[userID := w.store.totp[userID].(confirmed := true)],
               recovery := w.store.recovery[userID := RecoveryProofs(cfg, userID, RecoveryTexts(env.recoveryBytes))])),
             Response(200, "", RecoveryBody(RecoveryTexts(env.recoveryBytes)), None))
  {
    hide RecoveryTexts, RecoveryProofs;
  }

  /** No two drawn codes have the same proof. */
  ghost predicate DistinctProofs(cfg: Config, userID: string, drawn: seq<Bytes>) {
    forall i, j :: 0 <= i < j < |drawn| ==>
      RecoveryProof(cfg, userID, Base32.Encode(drawn[i])) != RecoveryProof(cfg, userID, Base32.Encode(drawn[j]))
  }

  /** The stored set, in which the named codes and no others are still unused. */
  ghost predicate Remaining(cfg: Config, userID: string, drawn: seq<Bytes>, list: seq<RecoveryCode>, unused: set<nat>) {
    && |list| == |drawn|
    && forall i :: 0 <= i < |drawn| ==>
         && list[i].proof == RecoveryProof(cfg, userID, Base32.Encode(drawn[i]))
         && (list[i].usedAt == ZERO_TIME <==> i in unused)
  }

  function UpTo(n: nat): (s: set<nat>)
    ensures forall i: nat :: i in s <==> i < n
  {
    if n == 0 then {} else UpTo(n - 1) + {n - 1}
  }

  /** Right after enrolment every code is unused. */
  lemma AllRemain(cfg: Config, userID: string, drawn: seq<Bytes>)
    requires forall j :: 0 <= j < |drawn| ==> |drawn[j]| == 10
    ensures Remaining(cfg, userID, drawn, RecoveryProofs(cfg, userID, RecoveryTexts(drawn)),
                      UpTo(|drawn|))
  {
    forall i: nat | i < |drawn|
      ensures var stored := RecoveryProofs(cfg, userID, RecoveryTexts(drawn));
              |stored| == |drawn| && stored[i].usedAt == ZERO_TIME
              && stored[i].proof == RecoveryProof(cfg, userID, Base32.Encode(drawn[i]))
    {
      StoredProofIs(cfg, userID, drawn, i);
    }
    hide RecoveryTexts, RecoveryProofs, RecoveryProof, Base32.Encode;
  }

  /** Confirming shows ten recovery codes, all unused, whose proofs it stores. */
  lemma ConfirmSucceeds(
    cfg: Config, w: World, req: Request, env: Env, code: string, userID: string, bytes: Bytes, seconds: int, t: nat)
    requires ValidConfig(cfg) && cfg.totpEnabled && |bytes| == 20 && cfg.totp.period == seconds * SECOND
    requires seconds > 0 && seconds <= Totp.Unix(env.now) < Totp.TWO_TO_63 - seconds
    requires t == Totp.Unix(env.now) / seconds && t >= 1
    requires var who := SessionUser(w.store, req, env).1; who.Known? && who.user.id == userID
    requires userID in w.store.users && userID in w.store.totp
    requires env.decoded && DrewRecoveryCodes(env)
    requires TOTPSecret(cfg, w.store.totp, userID, false) == Some(Base32.Encode(bytes))
    requires Totp.IsNearby(cfg.crypto.mac, bytes, t, cfg.totp.digits, code)
    ensures Enrolled(cfg, w, ConfirmTOTPStep(cfg, w, req, env, code), userID, env.recoveryBytes)
  {
    hide ConfirmTOTPStep, EnableTOTP, Enrolled, SessionUser, Totp.IsNearby, Base32.Encode, TOTPSecret;
    ConfirmAnswers(cfg, w, req, env, code, userID, bytes, seconds, t);
    EnableEnrols(cfg, w, env, userID);
  }

  lemma EnableEnrols(cfg: Config, w: World, env: Env, userID: string)
    requires userID in w.store.totp && userID in w.store.users && DrewRecoveryCodes(env)
    ensures Enrolled(cfg, w, EnableTOTP(cfg, w, env, userID), userID, env.recoveryBytes)
  {
    hide EnableTOTP, Remaining, UpTo, RecoveryTexts, RecoveryProofs;
    EnableSucceeds(cfg, w, env, userID);
    AllRemain(cfg, userID, env.recoveryBytes);
  }

  /** The answer shows the drawn codes; the credential is confirmed and every one of the codes can be redeemed. */
  ghost predicate Enrolled(cfg: Config, w: World, out: (World, Response), userID: string, drawn: seq<Bytes>)
    requires forall i :: 0 <= i < |drawn| ==> |drawn[i]| == 10
  {
    && out.1 == Response(200, "", RecoveryBody(RecoveryTexts(drawn)), None)
    && ConfirmedTOTP(out.0.store.totp, userID)
    && userID in out.0.store.recovery
    && Remaining(cfg, userID, drawn, out.0.store.recovery[userID], UpTo(|drawn|))
    && out.0.store.sessions == w.store.sessions && out.0.store.users == w.store.users
  }

  /** After setup, confirming with an RFC value of the drawn key enrols the user. */
  lemma SetupThenConfirm(
    cfg: Config, w: World, req: Request, env: Env, req': Request, env': Env, code: string, userID: string,
    seconds: int, t: nat)
    requires ValidConfig(cfg) && cfg.totpEnabled && |env.bytes| == 20 && cfg.totp.period == seconds * SECOND
    requires seconds > 0 && seconds <= Totp.Unix(env'.now) < Totp.TWO_TO_63 - seconds
    requires t == Totp.Unix(env'.now) / seconds && t >= 1
    requires Registered(w.store)
    requires var who := AuthenticatedSessionUser(cfg, w.store, req, env).1; who.Known? && who.user.id == userID
    requires env.policy && env'.decoded && DrewRecoveryCodes(env')
    requires var v := SetupTOTPStep(cfg, w, req, env).0;
             var who := SessionUser(v.store, req', env').1; who.Known? && who.user.id == userID
    requires Totp.IsNearby(cfg.crypto.mac, env.bytes, t, cfg.totp.digits, code)
    ensures SetupTOTPStep(cfg, w, req, env).1 == Response(200, "", SecretBody(Base32.Encode(env.bytes)), None)
    ensures var v := SetupTOTPStep(cfg, w, req, env).0;
            Enrolled(cfg, v, ConfirmTOTPStep(cfg, v, req', env', code), userID, env'.recoveryBytes)
  {
    SetupSucceeds(cfg, w, req, env, userID);
    hide SetupTOTPStep, AuthenticatedSessionUser, SessionUser, ConfirmTOTPStep, Totp.IsNearby, Base32.Encode,
      TOTPSecret, Enrolled;
    ConfirmSucceeds(cfg, SetupTOTPStep(cfg, w, req, env).0, req', env', code, userID, env.bytes, seconds, t);
  }

  lemma SetupSucceeds(cfg: Config, w: World, req: Request, env: Env, userID: string)
    requires ValidConfig(cfg) && Registered(w.store) && env.policy
    requires var who := AuthenticatedSessionUser(cfg, w.store, req, env).1; who.Known? && who.user.id == userID
    ensures var (v, r) := SetupTOTPStep(cfg, w, req, env);
            && r == Response(200, "", SecretBody(Base32.Encode(env.bytes)), None)
            && v.store.users == w.store.users && userID in v.store.users && userID in v.store.totp
            && TOTPSecret(cfg, v.store.totp, userID, false) == Some(Base32.Encode(env.bytes))
  {
    AuthenticatedSessionUserEffect(cfg, w.store, req, env);
    SessionUserEffect(w.store, req, env);
    hide AuthenticatedSessionUser, SessionUser, LabelText, Base32.Encode;
  }

  /** A shown code, typed in any accepted spelling, redeems exactly if it is unused, and then it alone is used. */
  lemma RedeemsIfRemaining(
    cfg: Config, recovery: Recovery, userID: string, drawn: seq<Bytes>, unused: set<nat>, i: nat, typed: string,
    now: Time)
    requires userID in recovery && Remaining(cfg, userID, drawn, recovery[userID], unused)
    requires DistinctProofs(cfg, userID, drawn) && i < |drawn| && Cleaned(typed) == Base32.Encode(drawn[i])
    requires now != ZERO_TIME
    ensures var (t, matched) := Contract.ConsumeRecoveryCode(
              recovery, userID, RecoveryProof(cfg, userID, typed), now);
            && matched == (i in unused)
            && userID in t && Remaining(cfg, userID, drawn, t[userID], unused - {i})
  {
    TypedProofIs(cfg, userID, drawn[i], typed);
    var list, proof := recovery[userID], RecoveryProof(cfg, userID, typed);
    hide RecoveryProof, Base32.Encode, Cleaned;
    var k := RecoveryIndex(list, proof);
    forall j | 0 <= j < |drawn|
      ensures list[j].proof == proof <==> j == i
    {
    }
    if i in unused {
      assert Redeems(list[i], proof);
      assert k == i;
    } else {
      assert k < |list| ==> Redeems(list[k], proof);
      assert unused - {i} == unused;
    }
  }

  /**
   From a live password session of an enrolled user, within its rate limit, typing a shown code logs in at MFA level
   if and only if the code is unused, and leaves all other codes as they were: each shown code logs in once.
   */
  lemma ShownCodeLogsInOnce(
    cfg: Config, w: World, req: Request, env: Env, userID: string, drawn: seq<Bytes>, unused: set<nat>, i: nat,
    typed: string)
    requires Registered(w.store) && HoldsPasswordSession(w, req, env, userID) && req.cookie != ""
    requires userID in w.store.users && !w.store.users[userID].disabled
    requires userID in w.store.recovery && Remaining(cfg, userID, drawn, w.store.recovery[userID], unused)
    requires DistinctProofs(cfg, userID, drawn) && i < |drawn| && Cleaned(typed) == Base32.Encode(drawn[i])
    requires Limiter.AllowRequest(w.buckets, SecondFactorKey(req.ip, userID), 10, 5 * MINUTE, env.now).1
    requires env.decoded && env.policy && env.cookieSet && env.id !in w.store.sessions && env.now != ZERO_TIME
    ensures var (v, r) := LoginRecoveryStep(cfg, w, req, env, typed);
            && r == (if i in unused then Response(200, "", UserBody(w.store.users[userID]), Some(env.id))
                     else INVALID_CODE)
            && (i in unused ==>
                  && env.id in v.store.sessions
                  && v.store.sessions[env.id] == NewSession(cfg, req, env, w.store.users[userID], LevelMFA))
            && userID in v.store.recovery && Remaining(cfg, userID, drawn, v.store.recovery[userID], unused - {i})
  {
    RedeemsIfRemaining(cfg, w.store.recovery, userID, drawn, unused, i, typed, env.now);
    CurrentSessionEffect(w.store.sessions, req, env);
    assert w.store.users[userID].id == userID;
    hide Limiter.AllowRequest, RecoveryProof, Contract.ConsumeRecoveryCode, Remaining, DistinctProofs, Cleaned,
      Base32.Encode;
    assert SessionUser(w.store, req, env) == (w.store, Known(w.store.users[userID], w.store.sessions[req.cookie]));
  }

  // ------------------------------------------------------------ whole runs

  /** The step enrols this user: it confirms the credential and shows a new set of recovery codes. */
  predicate Enrols(cfg: Config, w: World, req: Request, env: Env, userID: string) {
    && req.op.ConfirmTOTP? && Handle(cfg, w, req, env).1.body.RecoveryBody?
    && var who := SessionUser(w.store, req, env).1;
       who.Known? && who.user.id == userID
  }

  /** Some step from i on and before j enrols this user. */
  ghost predicate EnrolsBetween(cfg: Config, start: Store, steps: seq<Step>, i: nat, j: nat, userID: string)
    requires j <= |steps|
  {
    exists m :: i <= m < j && Enrols(cfg, Before(cfg, start, steps, m), steps[m].req, steps[m].env, userID)
  }

  /** Enabling replaces the recovery set of its own user, and only if it shows the new codes. */
  lemma EnableReplaces(cfg: Config, w: World, env: Env, enabled: string, userID: string)
    requires enabled in w.store.totp
    ensures var (v, r) := EnableTOTP(cfg, w, env, enabled);
            || RecoveryOf(v.store.recovery, userID) == RecoveryOf(w.store.recovery, userID)
            || (enabled == userID && r.body.RecoveryBody?)
  {
    hide RecoveryTexts, RecoveryProofs;
  }

  lemma ConfirmOnlyMarks(cfg: Config, w: World, req: Request, env: Env, userID: string)
    requires req.op.ConfirmTOTP? && RouteEnabled(cfg, req.op) && !Enrols(cfg, w, req, env, userID)
    ensures RecoveryOf(Handle(cfg, w, req, env).0.store.recovery, userID) == RecoveryOf(w.store.recovery, userID)
  {
    SessionUserEffect(w.store, req, env);
    var (t, who) := SessionUser(w.store, req, env);
    if who.Known? && who.user.id in t.totp {
      EnableReplaces(cfg, w.(store := t), env, who.user.id, userID);
    }
    hide SessionUser, VerifiesTOTP, EnableTOTP;
  }

  /** Any step but an enrolment of the user leaves the recovery set as it is, or marks an unused code as used. */
  lemma HandleOnlyMarks(cfg: Config, w: World, req: Request, env: Env, userID: string)
    requires !Enrols(cfg, w, req, env, userID)
    ensures OnlyMarked(RecoveryOf(w.store.recovery, userID),
                       RecoveryOf(Handle(cfg, w, req, env).0.store.recovery, userID))
  {
    if req.op.ConfirmTOTP? && RouteEnabled(cfg, req.op) {
      ConfirmOnlyMarks(cfg, w, req, env, userID);
      hide Handle, Enrols;
    } else if req.op.LoginRecovery? {
      LoginRecoveryGate(cfg, w, req, env, userID, req.op.code);
      hide LoginRecoveryStep;
    } else if !req.op.ConfirmTOTP? {
      HandleOnlyWrites(cfg, w, req, env);
      hide Handle, Enrols;
    }
  }

  lemma OnlyMarkedTwice(a: seq<RecoveryCode>, b: seq<RecoveryCode>, c: seq<RecoveryCode>)
    requires OnlyMarked(a, b) && OnlyMarked(b, c)
    ensures OnlyMarked(a, c)
  {
  }

  /** So between two enrolments a used code never becomes unused, and no code is added or exchanged. */
  lemma {:induction false} RunOnlyMarks(
    cfg: Config, start: Store, steps: seq<Step>, i: nat, j: nat, userID: string)
    requires i <= j <= |steps| && !EnrolsBetween(cfg, start, steps, i, j, userID)
    ensures OnlyMarked(RecoveryOf(After(cfg, start, steps[..i]).store.recovery, userID),
                       RecoveryOf(After(cfg, start, steps[..j]).store.recovery, userID))
    decreases j
  {
    hide Enrols, After, Handle;
    if i < j {
      RunOnlyMarks(cfg, start, steps, i, j - 1, userID);
      HandleOnlyMarks(cfg, Before(cfg, start, steps, j - 1), steps[j - 1].req, steps[j - 1].env, userID);
      AfterStep(cfg, start, steps, j - 1);
      OnlyMarkedTwice(RecoveryOf(After(cfg, start, steps[..i]).store.recovery, userID),
                      RecoveryOf(After(cfg, start, steps[..j - 1]).store.recovery, userID),
                      RecoveryOf(After(cfg, start, steps[..j]).store.recovery, userID));
    }
  }

  /** No entry of the list can be redeemed with this proof. */
  predicate Refused(list: seq<RecoveryCode>, proof: Bytes) {
    forall k :: 0 <= k < |list| ==> !Redeems(list[k], proof)
  }

  lemma MarkingKeepsRefused(before: seq<RecoveryCode>, after: seq<RecoveryCode>, proof: Bytes)
    requires OnlyMarked(before, after) && Refused(before, proof)
    ensures Refused(after, proof)
  {
  }

  ghost predicate DistinctEntries(list: seq<RecoveryCode>) {
    forall k, l :: 0 <= k < l < |list| ==> list[k].proof != list[l].proof
  }

  /** Redeeming at a set clock leaves no entry that the same proof could redeem. */
  lemma RedeemedIsRefused(recovery: Recovery, userID: string, proof: Bytes, now: Time)
    requires now != ZERO_TIME && DistinctEntries(RecoveryOf(recovery, userID))
    requires Contract.ConsumeRecoveryCode(recovery, userID, proof, now).1
    ensures Refused(RecoveryOf(Contract.ConsumeRecoveryCode(recovery, userID, proof, now).0, userID), proof)
  {
    var list := RecoveryOf(recovery, userID);
    var k := RecoveryIndex(list, proof);
    assert forall l :: 0 <= l < |list| && l != k ==> list[l].proof != list[k].proof;
  }

  lemma RefusedIsNotConsumed(cfg: Config, w: World, req: Request, env: Env, v: World, userID: string)
    requires req.op.LoginRecovery?
    requires Refused(RecoveryOf(w.store.recovery, userID), RecoveryProof(cfg, userID, req.op.code))
    ensures !RecoveryConsumed(cfg, w, req, env, v, userID)
  {
    hide RecoveryProof;
  }

  /**
   Two steps of a run that use up recovery codes of the same user, with no enrolment of that user in between, use
   different codes: a code works once, whatever else happens.
   */
  lemma RecoveryCodeLogsInOnce(cfg: Config, start: Store, steps: seq<Step>, i: nat, j: nat, userID: string)
    requires i < j < |steps| && steps[i].env.now != ZERO_TIME
    requires DistinctEntries(RecoveryOf(Before(cfg, start, steps, i).store.recovery, userID))
    requires RecoveryConsumed(cfg, Before(cfg, start, steps, i), steps[i].req, steps[i].env,
                              After(cfg, start, steps[..i + 1]), userID)
    requires RecoveryConsumed(cfg, Before(cfg, start, steps, j), steps[j].req, steps[j].env,
                              After(cfg, start, steps[..j + 1]), userID)
    requires !EnrolsBetween(cfg, start, steps, i + 1, j, userID)
    ensures RecoveryProof(cfg, userID, steps[i].req.op.code) != RecoveryProof(cfg, userID, steps[j].req.op.code)
    ensures Cleaned(steps[i].req.op.code) != Cleaned(steps[j].req.op.code)
  {
    hide After, Handle, EnrolsBetween, Contract.ConsumeRecoveryCode, Refused, Cleaned;
    var w := Before(cfg, start, steps, i);
    var proof := RecoveryProof(cfg, userID, steps[i].req.op.code);
    RedeemedIsRefused(w.store.recovery, userID, proof, steps[i].env.now);
    StaysRefused(cfg, start, steps, i + 1, j, userID, proof);
    if RecoveryProof(cfg, userID, steps[j].req.op.code) == proof {
      RefusedIsNotConsumed(cfg, Before(cfg, start, steps, j), steps[j].req, steps[j].env,
                           After(cfg, start, steps[..j + 1]), userID);
    }
  }

  lemma StaysRefused(cfg: Config, start: Store, steps: seq<Step>, i: nat, j: nat, userID: string, proof: Bytes)
    requires i <= j <= |steps| && !EnrolsBetween(cfg, start, steps, i, j, userID)
    requires Refused(RecoveryOf(After(cfg, start, steps[..i]).store.recovery, userID), proof)
    ensures Refused(RecoveryOf(After(cfg, start, steps[..j]).store.recovery, userID), proof)
  {
    hide After, EnrolsBetween, OnlyMarked, Refused;
    RunOnlyMarks(cfg, start, steps, i, j, userID);
    MarkingKeepsRefused(RecoveryOf(After(cfg, start, steps[..i]).store.recovery, userID),
                        RecoveryOf(After(cfg, start, steps[..j]).store.recovery, userID), proof);
  }

  lemma UsedIsRefused(
    cfg: Config, userID: string, drawn: seq<Bytes>, list: seq<RecoveryCode>, unused: set<nat>, c: nat)
    requires Remaining(cfg, userID, drawn, list, unused) && DistinctProofs(cfg, userID, drawn)
    requires c < |drawn| && c !in unused
    ensures Refused(list, RecoveryProof(cfg, userID, Base32.Encode(drawn[c])))
  {
    hide RecoveryProof, Base32.Encode;
  }

  /**
   A shown code that is used before step i is refused at every later step, in every accepted spelling and whatever
   happens in between, until its user is enrolled again.
   */
  lemma UsedCodeStaysRefused(
    cfg: Config, start: Store, steps: seq<Step>, i: nat, j: nat, userID: string, drawn: seq<Bytes>, unused: set<nat>,
    c: nat)
    requires i <= j < |steps| && !EnrolsBetween(cfg, start, steps, i, j, userID)
    requires Remaining(cfg, userID, drawn, RecoveryOf(Before(cfg, start, steps, i).store.recovery, userID), unused)
    requires DistinctProofs(cfg, userID, drawn) && c < |drawn| && c !in unused
    requires steps[j].req.op.LoginRecovery? && Cleaned(steps[j].req.op.code) == Base32.Encode(drawn[c])
    ensures !RecoveryConsumed(cfg, Before(cfg, start, steps, j), steps[j].req, steps[j].env,
                              After(cfg, start, steps[..j + 1]), userID)
  {
    TypedProofIs(cfg, userID, drawn[c], steps[j].req.op.code);
    hide After, Handle, EnrolsBetween, RecoveryConsumed, RecoveryProof, Base32.Encode, Cleaned, Remaining,
      DistinctProofs, Refused;
    var proof := RecoveryProof(cfg, userID, steps[j].req.op.code);
    UsedIsRefused(cfg, userID, drawn, RecoveryOf(Before(cfg, start, steps, i).store.recovery, userID), unused, c);
    StaysRefused(cfg, start, steps, i, j, userID, proof);
    RefusedIsNotConsumed(cfg, Before(cfg, start, steps, j), steps[j].req, steps[j].env,
                         After(cfg, start, steps[..j + 1]), userID);
  }
}
