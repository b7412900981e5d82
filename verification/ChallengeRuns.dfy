/** Passkey challenges over whole runs: where they come from, and that each is used at most once. */
module ChallengeRuns {
  import opened Models
  import opened Contract = StoreContract
  import opened Challenges
  import opened Handlers
  import opened HandlerFrames
  import opened Provenance
  import opened SecondFactorGate
  import PasskeyCounter

  // ------------------------------------------------------------ one step

  /** Challenges stay, go, or are added under the id this step drew. */
  predicate ChallengesFrom(w: World, v: World, env: Env) {
    forall id :: id in v.challenges && id != env.id ==> id in w.challenges && v.challenges[id] == w.challenges[id]
  }

  /** Why the step from w may have added this challenge. */
  predicate MayIssue(cfg: Config, w: World, req: Request, env: Env, c: Challenge) {
    && c.id == env.id && c.expiresAt == ChallengeExpiry(env)
    && (|| (&& req.op.BeginPasskeyLogin? && c.kind == LOGIN && c.userID == "")
        || (&& req.op.BeginPasskeyRegistration? && c.kind == REGISTRATION
            && var who := AuthenticatedSessionUser(cfg, w.store, req, env).1;
               who.Known? && who.user.id == c.userID))
  }

  predicate ChallengeEffect(cfg: Config, w: World, req: Request, env: Env, v: World) {
    && ChallengesFrom(w, v, env)
    && (env.id in v.challenges && !(env.id in w.challenges && v.challenges[env.id] == w.challenges[env.id])
        ==> MayIssue(cfg, w, req, env, v.challenges[env.id]))
  }

  lemma BeginRegistrationIssues(cfg: Config, w: World, req: Request, env: Env, attachment: string)
    requires req.op == BeginPasskeyRegistration(attachment)
    ensures ChallengeEffect(cfg, w, req, env, BeginPasskeyRegistrationStep(cfg, w, req, env, attachment).0)
  {
    hide AuthenticatedSessionUser, ChallengeExpiry;
  }

  lemma BeginLoginIssues(cfg: Config, w: World, req: Request, env: Env)
    requires req.op.BeginPasskeyLogin?
    ensures ChallengeEffect(cfg, w, req, env, BeginPasskeyLoginStep(w, env).0)
  {
    hide ChallengeExpiry;
  }

  lemma FinishHandlersIssueNothing(cfg: Config, w: World, req: Request, env: Env, id: string)
    ensures ChallengeEffect(cfg, w, req, env, FinishPasskeyRegistrationStep(cfg, w, req, env, id).0)
    ensures ChallengeEffect(cfg, w, req, env, FinishPasskeyLoginStep(cfg, w, req, env, id).0)
  {
    hide AuthenticatedSessionUser, Contract.SavePasskey, Contract.UpdatePasskey, CreateSessionFor, AssertedUser,
      MayIssue;
  }

  predicate UsesChallenges(op: Op) {
    || op.BeginPasskeyRegistration? || op.BeginPasskeyLogin? || op.FinishPasskeyRegistration? || op.FinishPasskeyLogin?
  }

  lemma OtherHandlersKeepChallenges(cfg: Config, w: World, req: Request, env: Env)
    requires !UsesChallenges(req.op)
    ensures Handle(cfg, w, req, env).0.challenges == w.challenges
  {
    hide Handle;
    HandleOnlyWrites(cfg, w, req, env);
  }

  lemma HandleChallengeEffect(cfg: Config, w: World, req: Request, env: Env)
    ensures ChallengeEffect(cfg, w, req, env, Handle(cfg, w, req, env).0)
  {
    if RouteEnabled(cfg, req.op) && UsesChallenges(req.op) {
      match req.op
      case BeginPasskeyRegistration(attachment) => BeginRegistrationIssues(cfg, w, req, env, attachment);
      case BeginPasskeyLogin => BeginLoginIssues(cfg, w, req, env);
      case FinishPasskeyRegistration(id) => FinishHandlersIssueNothing(cfg, w, req, env, id);
      case FinishPasskeyLogin(id) => FinishHandlersIssueNothing(cfg, w, req, env, id);
      hide BeginPasskeyRegistrationStep, BeginPasskeyLoginStep, FinishPasskeyRegistrationStep, FinishPasskeyLoginStep,
        ChallengeEffect;
    } else {
      if !UsesChallenges(req.op) {
        OtherHandlersKeepChallenges(cfg, w, req, env);
      }
      assert Handle(cfg, w, req, env).0.challenges == w.challenges;
      hide Handle, MayIssue;
    }
  }

  // ------------------------------------------------------------ provenance

  /** Step k issued exactly this challenge. */
  ghost predicate IssuedAt(cfg: Config, start: Store, steps: seq<Step>, k: nat, c: Challenge) {
    k < |steps| && MayIssue(cfg, Before(cfg, start, steps, k), steps[k].req, steps[k].env, c)
  }

  lemma {:induction false} ChallengeProvenance(cfg: Config, start: Store, steps: seq<Step>, id: string)
    requires id in After(cfg, start, steps).challenges
    ensures After(cfg, start, steps).challenges[id].id == id
    ensures exists k: nat :: IssuedAt(cfg, start, steps, k, After(cfg, start, steps).challenges[id])
  {
    if steps != [] {
      var n := |steps| - 1;
      var c := After(cfg, start, steps).challenges[id];
      HandleChallengeEffect(cfg, Before(cfg, start, steps, n), steps[n].req, steps[n].env);
      hide Handle, MayIssue;
      if id in Before(cfg, start, steps, n).challenges && Before(cfg, start, steps, n).challenges[id] == c {
        ChallengeProvenance(cfg, start, steps[..n], id);
        var k: nat :| IssuedAt(cfg, start, steps[..n], k, c);
        assert steps[..n][..k] == steps[..k] && steps[..n][k] == steps[k];
        assert IssuedAt(cfg, start, steps, k, c);
      } else {
        assert IssuedAt(cfg, start, steps, n, c);
        IssuedHasDrawnID(cfg, start, steps, n, c);
      }
    }
  }

  lemma IssuedHasDrawnID(cfg: Config, start: Store, steps: seq<Step>, k: nat, c: Challenge)
    requires IssuedAt(cfg, start, steps, k, c)
    ensures c.id == steps[k].env.id && c.expiresAt <= steps[k].env.now + CHALLENGE_LIFETIME
    ensures steps[k].env.libraryExpires != ZERO_TIME ==> c.expiresAt <= steps[k].env.libraryExpires
    ensures c.kind == REGISTRATION ==> steps[k].req.op.BeginPasskeyRegistration?
    ensures c.kind == LOGIN ==> steps[k].req.op.BeginPasskeyLogin?
  {
    hide AuthenticatedSessionUser, Handle;
  }

  // ------------------------------------------------------------ effects

  function ChallengeOf(op: Op): string
    requires op.FinishPasskeyRegistration? || op.FinishPasskeyLogin?
  {
    op.challengeID
  }

  /** The step takes a live challenge of this kind and user out of the store. */
  predicate Takes(cfg: Config, start: Store, steps: seq<Step>, i: nat, kind: string, userID: string)
    requires i < |steps|
  {
    var op := steps[i].req.op;
    && (op.FinishPasskeyRegistration? || op.FinishPasskeyLogin?)
    && (After(cfg, start, steps[..i + 1]).challenges, true)
       == TakePasskeyChallenge(Before(cfg, start, steps, i).challenges, ChallengeOf(op), steps[i].env.now, kind, userID)
  }

  /** The step changed which passkeys this user has. */
  predicate SavesPasskey(cfg: Config, start: Store, steps: seq<Step>, i: nat, userID: string)
    requires i < |steps|
  {
    PasskeyCounter.IDs(PasskeysOf(After(cfg, start, steps[..i + 1]).store.passkeys, userID))
    != PasskeyCounter.IDs(PasskeysOf(Before(cfg, start, steps, i).store.passkeys, userID))
  }

  /** The step created a passkey session. */
  predicate LogsInByPasskey(cfg: Config, start: Store, steps: seq<Step>, i: nat)
    requires i < |steps|
  {
    && ResponseTo(cfg, start, steps, i).cookie == Some(steps[i].env.id)
    && steps[i].env.id in After(cfg, start, steps[..i + 1]).store.sessions
    && After(cfg, start, steps[..i + 1]).store.sessions[steps[i].env.id].level == LevelPasskey
  }

  /** A finished registration saves a passkey only for the session's user, after taking that user's challenge. */
  lemma RegistrationTakes(cfg: Config, w: World, req: Request, env: Env, userID: string, challengeID: string)
    requires PasskeysOf(FinishPasskeyRegistrationStep(cfg, w, req, env, challengeID).0.store.passkeys, userID)
             != PasskeysOf(w.store.passkeys, userID)
    ensures (FinishPasskeyRegistrationStep(cfg, w, req, env, challengeID).0.challenges, true)
            == TakePasskeyChallenge(w.challenges, challengeID, env.now, REGISTRATION, userID)
    ensures var who := AuthenticatedSessionUser(cfg, w.store, req, env).1; who.Known? && who.user.id == userID
  {
    AuthenticatedSessionUserEffect(cfg, w.store, req, env);
    hide AuthenticatedSessionUser, TakePasskeyChallenge, PasskeyTaken;
  }

  lemma OnlyRegistrationSaves(cfg: Config, w: World, req: Request, env: Env, userID: string)
    requires PasskeyCounter.IDs(PasskeysOf(Handle(cfg, w, req, env).0.store.passkeys, userID))
             != PasskeyCounter.IDs(PasskeysOf(w.store.passkeys, userID))
    ensures req.op.FinishPasskeyRegistration?
    ensures (Handle(cfg, w, req, env).0.challenges, true)
            == TakePasskeyChallenge(w.challenges, req.op.challengeID, env.now, REGISTRATION, userID)
  {
    hide FinishPasskeyLoginStep, FinishPasskeyRegistrationStep, TakePasskeyChallenge;
    match req.op
    case FinishPasskeyLogin(id) => FinishPasskeyLoginGate(cfg, w, req, env, userID, id);
    case FinishPasskeyRegistration(id) => RegistrationTakes(cfg, w, req, env, userID, id);
    case _ =>
      HandleOnlyWrites(cfg, w, req, env);
      hide Handle;
  }

  /** A taken challenge was issued earlier, for this kind and user, and had not expired. */
  lemma TakenWasIssued(cfg: Config, start: Store, steps: seq<Step>, i: nat, kind: string, userID: string)
    requires i < |steps| && Takes(cfg, start, steps, i, kind, userID)
    ensures var id := ChallengeOf(steps[i].req.op);
            exists k: nat, c: Challenge :: k < i && IssuedAt(cfg, start, steps, k, c)
              && c.id == id == steps[k].env.id && c.kind == kind && c.userID == userID
              && steps[i].env.now < c.expiresAt <= steps[k].env.now + CHALLENGE_LIFETIME
  {
    var id := ChallengeOf(steps[i].req.op);
    var c := Before(cfg, start, steps, i).challenges[id];
    ChallengeProvenance(cfg, start, steps[..i], id);
    hide Handle, MayIssue;
    var k: nat :| IssuedAt(cfg, start, steps[..i], k, c);
    assert steps[..i][..k] == steps[..k] && steps[..i][k] == steps[k];
    assert IssuedAt(cfg, start, steps, k, c);
    IssuedHasDrawnID(cfg, start, steps, k, c);
  }

  /**
   Every passkey saved for a user used up a live registration challenge issued to that same user by an earlier
   request, at most five minutes before and not after the library's own expiry.
   */
  lemma SavedPasskeyTookChallenge(cfg: Config, start: Store, steps: seq<Step>, i: nat, userID: string)
    requires i < |steps| && SavesPasskey(cfg, start, steps, i, userID)
    ensures steps[i].req.op.FinishPasskeyRegistration? && Takes(cfg, start, steps, i, REGISTRATION, userID)
    ensures exists k: nat, c: Challenge :: k < i && IssuedAt(cfg, start, steps, k, c)
              && c.id == steps[i].req.op.challengeID == steps[k].env.id
              && c.kind == REGISTRATION && c.userID == userID
              && steps[i].env.now < c.expiresAt <= steps[k].env.now + CHALLENGE_LIFETIME
  {
    AfterStep(cfg, start, steps, i);
    OnlyRegistrationSaves(cfg, Before(cfg, start, steps, i), steps[i].req, steps[i].env, userID);
    hide Handle, TakePasskeyChallenge, After;
    TakenWasIssued(cfg, start, steps, i, REGISTRATION, userID);
  }

  /** Every passkey session used up a live login challenge issued by an earlier request. */
  lemma PasskeyLoginTookChallenge(cfg: Config, start: Store, steps: seq<Step>, i: nat)
    requires Registered(start) && FreshIDs(start, steps) && i < |steps| && LogsInByPasskey(cfg, start, steps, i)
    ensures steps[i].req.op.FinishPasskeyLogin? && Takes(cfg, start, steps, i, LOGIN, "")
    ensures exists k: nat, c: Challenge :: k < i && IssuedAt(cfg, start, steps, k, c)
              && c.id == steps[i].req.op.challengeID == steps[k].env.id && c.kind == LOGIN
              && steps[i].env.now < c.expiresAt <= steps[k].env.now + CHALLENGE_LIFETIME
  {
    EveryLoginIsJustified(cfg, start, steps, i);
    assert Takes(cfg, start, steps, i, LOGIN, "") by {
      hide Handle, TakePasskeyChallenge, After;
    }
    hide Handle, TakePasskeyChallenge, After;
    TakenWasIssued(cfg, start, steps, i, LOGIN, "");
  }

  // ------------------------------------------------------------ at most once

  lemma NotIssuedAgain(cfg: Config, start: Store, steps: seq<Step>, m: nat, id: string)
    requires m < |steps| && steps[m].env.id != id && id !in Before(cfg, start, steps, m).challenges
    ensures id !in After(cfg, start, steps[..m + 1]).challenges
  {
    AfterStep(cfg, start, steps, m);
    HandleChallengeEffect(cfg, Before(cfg, start, steps, m), steps[m].req, steps[m].env);
    hide Handle, MayIssue, After;
  }

  lemma {:induction false} TakenStaysGone(cfg: Config, start: Store, steps: seq<Step>, k: nat, n: nat, m: nat)
    requires FreshIDs(start, steps) && k < n <= m <= |steps|
    requires steps[k].env.id !in After(cfg, start, steps[..n]).challenges
    ensures steps[k].env.id !in After(cfg, start, steps[..m]).challenges
    decreases m
  {
    hide Handle, After;
    if n < m {
      TakenStaysGone(cfg, start, steps, k, n, m - 1);
      NotIssuedAgain(cfg, start, steps, m - 1, steps[k].env.id);
    }
  }

  lemma TakenWasDrawn(cfg: Config, start: Store, steps: seq<Step>, i: nat, kind: string, userID: string)
    returns (k: nat)
    requires i < |steps| && Takes(cfg, start, steps, i, kind, userID)
    ensures k < i && steps[k].env.id == ChallengeOf(steps[i].req.op)
    ensures ChallengeOf(steps[i].req.op) in Before(cfg, start, steps, i).challenges
    ensures ChallengeOf(steps[i].req.op) !in After(cfg, start, steps[..i + 1]).challenges
  {
    TakenWasIssued(cfg, start, steps, i, kind, userID);
    var c: Challenge;
    k, c :| k < i && IssuedAt(cfg, start, steps, k, c) && c.id == ChallengeOf(steps[i].req.op) == steps[k].env.id;
    hide Handle, IssuedAt, After;
  }

  /** No two steps of a run take the same challenge, so each issued challenge leads to at most one effect. */
  lemma ChallengeTakenAtMostOnce(
    cfg: Config, start: Store, steps: seq<Step>, i: nat, j: nat, kind: string, userID: string, kind': string,
    userID': string)
    requires FreshIDs(start, steps) && i < j < |steps|
    requires Takes(cfg, start, steps, i, kind, userID) && Takes(cfg, start, steps, j, kind', userID')
    ensures ChallengeOf(steps[i].req.op) != ChallengeOf(steps[j].req.op)
  {
    var k := TakenWasDrawn(cfg, start, steps, i, kind, userID);
    var l := TakenWasDrawn(cfg, start, steps, j, kind', userID');
    hide Handle, After, Takes;
    TakenStaysGone(cfg, start, steps, k, i + 1, j);
  }
}
