/** Exactly when the passkey handlers succeed, everything they store, and what that does to the signature counter. */
module PasskeyOutcomes {
  import opened Models
  import opened Contract = StoreContract
  import opened Challenges
  import opened HandlerFrames
  import opened Handlers
  import opened Outcomes
  import opened Provenance
  import PasskeyCounter

  // ------------------------------------------------------------ challenges

  /** The challenge stored under the drawn id: five minutes long, or shorter if the library says so. */
  function NewChallenge(env: Env, kind: string, userID: string): Challenge
    requires env.payload.Some?
  {
    var latest := env.now + 5 * MINUTE;
    Challenge(env.id, kind, userID, env.payload.value,
              if env.libraryExpires == ZERO_TIME || env.libraryExpires >= latest then latest else env.libraryExpires)
  }

  /** The library made session data and the drawn id is new. */
  predicate CanIssue(challenges: ChallengeMap, env: Env) {
    env.payload.Some? && env.id !in challenges
  }

  lemma IssueIs(w: World, env: Env, kind: string, userID: string)
    ensures var (v, r) := SaveChallenge(w, env, kind, userID);
            if CanIssue(w.challenges, env) then
              && r == Response(200, "", ChallengeBody(env.id), None)
              && v == w.(challenges := w.challenges[env.id := NewChallenge(env, kind, userID)])
            else r.status == 500 && r.cookie.None? && v == w
  {
    assert w.(challenges := w.challenges) == w;
  }

  /** Beginning a login issues a challenge of nobody exactly when one can be issued. */
  lemma BeginLoginIff(cfg: Config, w: World, req: Request, env: Env)
    requires req.op.BeginPasskeyLogin?
    ensures var (v, r) := Handle(cfg, w, req, env);
            if cfg.passkeysEnabled && CanIssue(w.challenges, env) then
              && r == Response(200, "", ChallengeBody(env.id), None)
              && v == w.(challenges := w.challenges[env.id := NewChallenge(env, "passkey.login", "")])
            else r.status != 200 && v == w
  {
    IssueIs(w, env, LOGIN, "");
    hide SaveChallenge;
  }

  predicate BeginsRegistration(cfg: Config, w: World, req: Request, env: Env, userID: string) {
    && cfg.passkeysEnabled && req.op.BeginPasskeyRegistration? && env.decoded
    && FullSessionOf(cfg, w.store, req, env, userID)
    && req.op.attachment in {"", "platform", "cross-platform"} && CanIssue(w.challenges, env)
  }

  /** Beginning a registration issues one of the caller, for a full session and a known attachment. */
  lemma BeginRegistrationIff(cfg: Config, w: World, req: Request, env: Env)
    requires Registered(w.store) && req.op.BeginPasskeyRegistration?
    ensures var (v, r) := Handle(cfg, w, req, env);
            var userID := Caller(w.store, req);
            if BeginsRegistration(cfg, w, req, env, userID) then
              && r == Response(200, "", ChallengeBody(env.id), None)
              && v == w.(challenges := w.challenges[env.id := NewChallenge(env, "passkey.registration", userID)])
            else r.status != 200 && r.cookie.None? && v.challenges == w.challenges
  {
    var userID := Caller(w.store, req);
    FullSessionUserIs(cfg, w.store, req, env);
    IssueIs(w, env, REGISTRATION, userID);
    IssueIs(w.(store := AuthenticatedSessionUser(cfg, w.store, req, env).0), env, REGISTRATION, userID);
    hide AuthenticatedSessionUser, SaveChallenge, NewChallenge;
  }

  /** A live challenge of this kind and user. */
  predicate Live(challenges: ChallengeMap, id: string, now: Time, kind: string, userID: string) {
    && id in challenges && challenges[id].expiresAt > now
    && challenges[id].kind == kind && challenges[id].userID == userID
  }

  /** Taking uses up whatever is stored under the id. */
  lemma TakeIs(challenges: ChallengeMap, id: string, now: Time, kind: string, userID: string)
    ensures TakePasskeyChallenge(challenges, id, now, kind, userID)
            == (challenges - {id}, Live(challenges, id, now, kind, userID))
  {
    if id !in challenges {
      assert challenges - {id} == challenges;
    }
  }

  // ------------------------------------------------------------ registration

  predicate RegistrationFits(cfg: Config, w: World, req: Request, env: Env, userID: string) {
    && cfg.passkeysEnabled && req.op.FinishPasskeyRegistration? && FullSessionOf(cfg, w.store, req, env, userID)
    && Live(w.challenges, req.op.challengeID, env.now, "passkey.registration", userID)
    && env.registered.Some? && env.policy
    && forall u, i :: u in w.store.passkeys && 0 <= i < |w.store.passkeys[u]| ==>
         w.store.passkeys[u][i].id != env.registered.value.id
  }

  /**
   Finishing a registration: 204 exactly for a full session with a live challenge of its user, a credential the library
   vouches for and nobody has, and a willing policy. Then the whole credential is added to the user's, created now. A
   full session uses the challenge up whatever happens.
   */
  lemma FinishRegistrationIff(cfg: Config, w: World, req: Request, env: Env)
    requires Registered(w.store) && req.op.FinishPasskeyRegistration?
    ensures var (v, r) := Handle(cfg, w, req, env);
            var userID := Caller(w.store, req);
            if RegistrationFits(cfg, w, req, env, userID) then
              var saved := env.registered.value.(createdAt := env.now);
              && r == Problem(204, "")
              && v == w.(challenges := w.challenges - {req.op.challengeID},
                         store := w.store.(passkeys := w.store.passkeys[
                           userID := PasskeysOf(w.store.passkeys, userID) + [saved]]))
            else
              && r.status != 204 && r.cookie.None? && v.store.passkeys == w.store.passkeys
              && v.challenges == if cfg.passkeysEnabled && FullSessionOf(cfg, w.store, req, env, userID)
                                 then w.challenges - {req.op.challengeID} else w.challenges
  {
    var userID := Caller(w.store, req);
    FullSessionUserIs(cfg, w.store, req, env);
    AuthenticatedSessionUserEffect(cfg, w.store, req, env);
    TakeIs(w.challenges, req.op.challengeID, env.now, REGISTRATION, userID);
    if env.registered.Some? {
      TakenIff(w.store.passkeys, env.registered.value.id);
    }
    FullSessionIsOfUser(cfg, w.store, req, env);
    hide AuthenticatedSessionUser, TakePasskeyChallenge, FullSessionOf, Live, PasskeyTaken;
  }

  lemma TakenIff(passkeys: Passkeys, id: Bytes)
    ensures PasskeyTaken(passkeys, id)
            <==> exists u, i :: u in passkeys && 0 <= i < |passkeys[u]| && passkeys[u][i].id == id
  {
    if u, i :| u in passkeys && 0 <= i < |passkeys[u]| && passkeys[u][i].id == id {
      assert HasPasskey(passkeys[u], id);
    }
  }

  // ------------------------------------------------------------ login

  /** The enabled user whose WebAuthn id the assertion carries. */
  function Asserted(s: Store, env: Env): string {
    if env.asserted.Some? && env.asserted.value.userHandle in s.webAuthnIDs
    then s.webAuthnIDs[env.asserted.value.userHandle] else ""
  }

  /** A live login challenge, and an assertion without clone warning of a credential that this enabled user has. */
  predicate LoginFits(cfg: Config, w: World, req: Request, env: Env, userID: string) {
    && cfg.passkeysEnabled && req.op.FinishPasskeyLogin?
    && Live(w.challenges, req.op.challengeID, env.now, "passkey.login", "")
    && env.asserted.Some? && env.asserted.value.userHandle in w.store.webAuthnIDs && userID != ""
    && userID in w.store.users && !w.store.users[userID].disabled
    && env.policy && !env.asserted.value.credential.cloneWarning
    && PasskeyCounter.Find(PasskeysOf(w.store.passkeys, userID), env.asserted.value.credential.id).Some?
  }

  /** What a login stores: the asserted credential under its old name and creation time, in its old place. */
  function Refreshed(s: Store, env: Env, userID: string): Passkeys
    requires env.asserted.Some?
    requires PasskeyCounter.Find(PasskeysOf(s.passkeys, userID), env.asserted.value.credential.id).Some?
  {
    var list, c := PasskeysOf(s.passkeys, userID), env.asserted.value.credential;
    var i := PasskeyIndex(list, c.id);
    s.passkeys[userID := list[i := c.(name := list[i].name, createdAt := list[i].createdAt)]]
  }

  lemma UpdateIs(s: Store, env: Env, userID: string)
    requires env.asserted.Some?
    requires PasskeyCounter.Find(PasskeysOf(s.passkeys, userID), env.asserted.value.credential.id).Some?
    ensures var list, c := PasskeysOf(s.passkeys, userID), env.asserted.value.credential;
            var i := PasskeyIndex(list, c.id);
            Contract.UpdatePasskey(s.passkeys, userID, c.(name := list[i].name, createdAt := list[i].createdAt),
                                   list[i].signCount) == (Refreshed(s, env, userID), Ok(()))
  {
  }

  lemma AssertedIs(s: Store, env: Env)
    requires Registered(s)
    ensures var userID := Asserted(s, env);
            AssertedUser(s, env.asserted) ==
            if env.asserted.Some? && env.asserted.value.userHandle in s.webAuthnIDs && userID != ""
               && userID in s.users && !s.users[userID].disabled
            then Some(s.users[userID]) else None
  {
  }

  /**
   Finishing a login: 200 exactly when it fits and a session can be opened. The asserted credential, with its new
   counter and flags, is stored in any case that fits; a clone warning or any other misfit stores nothing. The challenge
   is used up whatever happens.
   */
  lemma FinishLoginIff(cfg: Config, w: World, req: Request, env: Env)
    requires Registered(w.store) && req.op.FinishPasskeyLogin?
    ensures var (v, r) := Handle(cfg, w, req, env);
            var userID := Asserted(w.store, env);
            && (cfg.passkeysEnabled ==> v.challenges == w.challenges - {req.op.challengeID})
            && if !LoginFits(cfg, w, req, env, userID) then r.status != 200 && r.cookie.None? && v.store == w.store
               else
                 var s := w.store.(passkeys := Refreshed(w.store, env, userID));
                 if Opens(w.store.sessions, req, env) then
                   && r == Response(200, "", UserBody(w.store.users[userID]), Some(env.id))
                   && v.store == s.(sessions := Opened(cfg, w.store.sessions, req, env, userID, LevelPasskey))
                 else r.status == 500 && r.cookie.None? && v.store == s.(sessions := Rotated(w.store.sessions, req))
  {
    var userID := Asserted(w.store, env);
    TakeIs(w.challenges, req.op.challengeID, env.now, LOGIN, "");
    AssertedIs(w.store, env);
    if LoginFits(cfg, w, req, env, userID) {
      UpdateIs(w.store, env, userID);
      LogInIs(cfg, w.(challenges := w.challenges - {req.op.challengeID},
                      store := w.store.(passkeys := Refreshed(w.store, env, userID))),
              req, env, w.store.users[userID], LevelPasskey, UserBody(w.store.users[userID]));
    }
    hide TakePasskeyChallenge, AssertedUser, Contract.UpdatePasskey, LogIn, Opens, Opened, Rotated, Live, Refreshed;
  }

  // ------------------------------------------------------------ the counter over whole runs

  /** The step is a login with this credential of this user that fits. */
  predicate Uses(cfg: Config, w: World, req: Request, env: Env, userID: string, id: Bytes) {
    LoginFits(cfg, w, req, env, userID) && Asserted(w.store, env) == userID && env.asserted.value.credential.id == id
  }

  function Stored(w: World, userID: string, id: Bytes): Option<PasskeyCredential> {
    PasskeyCounter.Find(PasskeysOf(w.store.passkeys, userID), id)
  }

  /** A registration of another credential leaves this one where it is. */
  lemma RegistrationKeeps(cfg: Config, w: World, req: Request, env: Env, userID: string, id: Bytes)
    requires Registered(w.store) && req.op.FinishPasskeyRegistration? && Stored(w, userID, id).Some?
    ensures Stored(Handle(cfg, w, req, env).0, userID, id) == Stored(w, userID, id)
  {
    FinishRegistrationIff(cfg, w, req, env);
    hide Handle, RegistrationFits;
    if RegistrationFits(cfg, w, req, env, Caller(w.store, req)) {
      RegisteredCredential(cfg, w, req, env);
      PasskeyCounter.FindAfterAppend(
        PasskeysOf(w.store.passkeys, userID), env.registered.value.(createdAt := env.now), id);
    }
  }

  lemma RegisteredCredential(cfg: Config, w: World, req: Request, env: Env)
    requires RegistrationFits(cfg, w, req, env, Caller(w.store, req))
    ensures env.registered.Some?
  {
  }

  lemma LoginRefreshes(cfg: Config, w: World, req: Request, env: Env, userID: string, id: Bytes)
    requires Registered(w.store) && req.op.FinishPasskeyLogin? && Stored(w, userID, id).Some?
    ensures var kept := Stored(w, userID, id).value;
            Stored(Handle(cfg, w, req, env).0, userID, id) ==
            if Uses(cfg, w, req, env, userID, id) then
              Some(env.asserted.value.credential.(name := kept.name, createdAt := kept.createdAt))
            else Some(kept)
  {
    FinishLoginIff(cfg, w, req, env);
    var u := Asserted(w.store, env);
    hide Handle, Asserted, Opens, Opened, Rotated;
    if LoginFits(cfg, w, req, env, u) {
      var list, c := PasskeysOf(w.store.passkeys, u), env.asserted.value.credential;
      var i := PasskeyIndex(list, c.id);
      var stored := c.(name := list[i].name, createdAt := list[i].createdAt);
      assert Refreshed(w.store, env, u)[u] == list[PasskeyIndex(list, stored.id) := stored];
      if u == userID {
        PasskeyCounter.FindAfterUpdate(list, stored, id);
      }
    }
  }

  /** A login with a stored credential stores the asserted one, and no other step touches it. */
  lemma StepOnStored(cfg: Config, w: World, req: Request, env: Env, userID: string, id: Bytes)
    requires Registered(w.store) && Stored(w, userID, id).Some?
    ensures var kept := Stored(w, userID, id).value;
            Stored(Handle(cfg, w, req, env).0, userID, id) ==
            if Uses(cfg, w, req, env, userID, id) then
              Some(env.asserted.value.credential.(name := kept.name, createdAt := kept.createdAt))
            else Some(kept)
  {
    hide Handle, LoginFits;
    if req.op.FinishPasskeyLogin? {
      LoginRefreshes(cfg, w, req, env, userID, id);
    } else {
      OnlyLoginsFit(cfg, w, req, env, userID);
      if req.op.FinishPasskeyRegistration? {
        RegistrationKeeps(cfg, w, req, env, userID, id);
      } else {
        HandleOnlyWrites(cfg, w, req, env);
      }
    }
  }

  lemma OnlyLoginsFit(cfg: Config, w: World, req: Request, env: Env, userID: string)
    ensures LoginFits(cfg, w, req, env, userID) ==> req.op.FinishPasskeyLogin?
  {
  }

  /** The library's check of the step: without a clone warning the counter is larger, or both are zero. */
  predicate Checked(w: World, env: Env, userID: string, id: Bytes) {
    var stored := Stored(w, userID, id);
    stored.Some? && env.asserted.Some? && env.asserted.value.credential.id == id && Asserted(w.store, env) == userID
    && !env.asserted.value.credential.cloneWarning ==>
      || env.asserted.value.credential.signCount > stored.value.signCount
      || env.asserted.value.credential.signCount == stored.value.signCount == 0
  }

  ghost predicate AllChecked(cfg: Config, start: Store, steps: seq<Step>, userID: string, id: Bytes) {
    forall i :: 0 <= i < |steps| ==> Checked(Before(cfg, start, steps, i), steps[i].env, userID, id)
  }

  lemma StepNeverLowers(cfg: Config, w: World, req: Request, env: Env, userID: string, id: Bytes)
    requires Registered(w.store) && Stored(w, userID, id).Some? && Checked(w, env, userID, id)
    ensures var before, after := Stored(w, userID, id), Stored(Handle(cfg, w, req, env).0, userID, id);
            after.Some? && before.value.signCount <= after.value.signCount
  {
    StepOnStored(cfg, w, req, env, userID, id);
    hide Handle;
  }

  /** Along every run a stored credential stays, and its counter never falls. */
  lemma {:induction false} CounterNeverFalls(
    cfg: Config, start: Store, steps: seq<Step>, n: nat, m: nat, userID: string, id: Bytes)
    requires Registered(start) && FreshIDs(start, steps) && n <= m <= |steps|
    requires AllChecked(cfg, start, steps, userID, id)
    requires Stored(After(cfg, start, steps[..n]), userID, id).Some?
    ensures var before, after := Stored(After(cfg, start, steps[..n]), userID, id),
                                 Stored(After(cfg, start, steps[..m]), userID, id);
            after.Some? && before.value.signCount <= after.value.signCount
    decreases m
  {
    hide After, Handle, Registered, Stored, Checked;
    if n < m {
      CounterNeverFalls(cfg, start, steps, n, m - 1, userID, id);
      RunKeepsRegistered(cfg, start, steps[..m - 1]);
      StepNeverLowers(cfg, Before(cfg, start, steps, m - 1), steps[m - 1].req, steps[m - 1].env, userID, id);
      AfterStep(cfg, start, steps, m - 1);
    }
  }

  /**
   No counter is accepted twice: of two logins of a run with the same credential the later one carries a larger counter,
   unless the authenticator does not count and both are zero.
   */
  lemma CounterAcceptedOnce(
    cfg: Config, start: Store, steps: seq<Step>, i: nat, j: nat, userID: string, id: Bytes)
    requires Registered(start) && FreshIDs(start, steps) && i < j < |steps|
    requires AllChecked(cfg, start, steps, userID, id)
    requires Uses(cfg, Before(cfg, start, steps, i), steps[i].req, steps[i].env, userID, id)
    requires Uses(cfg, Before(cfg, start, steps, j), steps[j].req, steps[j].env, userID, id)
    ensures var c, d := steps[i].env.asserted.value.credential, steps[j].env.asserted.value.credential;
            c.signCount < d.signCount || c.signCount == d.signCount == 0
  {
    hide After, Handle, Registered;
    RunKeepsRegistered(cfg, start, steps[..i]);
    UsedIsStored(cfg, Before(cfg, start, steps, i), steps[i].req, steps[i].env, userID, id);
    UsedIsStored(cfg, Before(cfg, start, steps, j), steps[j].req, steps[j].env, userID, id);
    StepOnStored(cfg, Before(cfg, start, steps, i), steps[i].req, steps[i].env, userID, id);
    AfterStep(cfg, start, steps, i);
    CounterNeverFalls(cfg, start, steps, i + 1, j, userID, id);
    assert Checked(Before(cfg, start, steps, j), steps[j].env, userID, id);
    hide Stored, LoginFits;
  }

  lemma UsedIsStored(cfg: Config, w: World, req: Request, env: Env, userID: string, id: Bytes)
    requires Uses(cfg, w, req, env, userID, id)
    ensures Stored(w, userID, id).Some? && env.asserted.Some? && !env.asserted.value.credential.cloneWarning
  {
  }
}
