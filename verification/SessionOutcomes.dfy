/** Who gets past a protected handler, and that whatever ends a session ends it for good. */
module SessionOutcomes {
  import opened Models
  import opened Handlers
  import opened Outcomes
  import opened Provenance
  import SecondFactorGate

  // ------------------------------------------------------------ protected handlers and routes

  /** A protected handler runs exactly for a full session, and sees its user, level and time. */
  lemma ProtectedIff(cfg: Config, w: World, req: Request, env: Env)
    requires Registered(w.store) && req.op.Protected?
    ensures var r := Handle(cfg, w, req, env).1;
            var userID := Caller(w.store, req);
            if FullSessionOf(cfg, w.store, req, env, userID) then
              var s := w.store.sessions[req.cookie];
              r == Response(200, "", PrincipalBody(Principal(userID, s.level, s.authenticatedAt)), None)
            else r == Problem(401, "AUTH_REQUIRED")
  {
    RequireUserAnswers(cfg, w, req, env);
    SecondFactorGate.RequireUserIff(cfg, w, req, env);
    hide RequireUser;
  }

  lemma RequireUserAnswers(cfg: Config, w: World, req: Request, env: Env)
    ensures var r := RequireUser(cfg, w, req, env).1;
            if r.body.PrincipalBody? then r == Response(200, "", r.body, None) else r == Problem(401, "AUTH_REQUIRED")
  {
    hide CurrentUser, CurrentSession;
  }

  /** It ends an expired session and one of a disabled user, and changes nothing else. */
  lemma ProtectedEffect(cfg: Config, w: World, req: Request, env: Env)
    requires Registered(w.store) && req.op.Protected?
    ensures var v := Handle(cfg, w, req, env).0;
            var userID := Caller(w.store, req);
            v == w.(store := w.store.(sessions :=
              if req.cookie != "" && req.cookie in w.store.sessions
                 && (w.store.sessions[req.cookie].expiresAt <= env.now
                     || (userID in w.store.users && w.store.users[userID].disabled))
              then w.store.sessions - {req.cookie} else w.store.sessions))
  {
    RequireUserStore(cfg, w, req, env);
    EvictedIs(w.store.sessions, req, env);
    CurrentSessionEffect(w.store.sessions, req, env);
    CurrentUserIs(cfg, w.store, req, env);
    hide RequireUser, CurrentUser;
  }

  lemma CurrentUserIs(cfg: Config, s: Store, req: Request, env: Env)
    requires Registered(s)
    ensures var t := CurrentUser(cfg, s, req, env).0;
            var userID := Caller(s, req);
            t == s.(sessions :=
              if req.cookie != "" && req.cookie in s.sessions
                 && (s.sessions[req.cookie].expiresAt <= env.now || (userID in s.users && s.users[userID].disabled))
              then s.sessions - {req.cookie} else s.sessions)
  {
    EvictedIs(s.sessions, req, env);
    CurrentSessionEffect(s.sessions, req, env);
    hide CurrentSession, CompletesAuthentication;
  }

  // ------------------------------------------------------------ the ends of sessions

  /** Logging out removes the cookie's session and no other, also when the cookie itself cannot be deleted. */
  lemma LogoutEnds(cfg: Config, w: World, req: Request, env: Env)
    requires req.op.Logout?
    ensures var (v, r) := Handle(cfg, w, req, env);
            && v == w.(store := w.store.(sessions := v.store.sessions))
            && (forall id :: id in v.store.sessions <==>
                  id in w.store.sessions && !(id == req.cookie && req.cookie != ""))
            && (forall id :: id in v.store.sessions ==> v.store.sessions[id] == w.store.sessions[id])
            && r == (if env.cookieSet then Problem(204, "") else Problem(500, "INTERNAL_ERROR"))
  {
  }

  /** Revoking a user's sessions removes exactly those; without a user id nothing happens. */
  lemma RevokeAllEnds(cfg: Config, w: World, req: Request, env: Env)
    requires req.op.RevokeAll?
    ensures var (v, r) := Handle(cfg, w, req, env);
            && v == w.(store := w.store.(sessions := v.store.sessions))
            && (forall id :: id in v.store.sessions <==>
                  id in w.store.sessions && (req.op.userID == "" || w.store.sessions[id].userID != req.op.userID))
            && (forall id :: id in v.store.sessions ==> v.store.sessions[id] == w.store.sessions[id])
            && r == (if req.op.userID == "" then Problem(500, "INTERNAL_ERROR") else Problem(204, ""))
  {
    if req.op.userID == "" {
      assert w.(store := w.store.(sessions := w.store.sessions)) == w;
    }
  }

  /** A session that a step ended is never found again, and its cookie never gets past a protected handler. */
  lemma EndedStaysEnded(cfg: Config, start: Store, steps: seq<Step>, i: nat, m: nat, id: string)
    requires Filed(start) && FreshIDs(start, steps) && i < m <= |steps|
    requires id in Before(cfg, start, steps, i).store.sessions
    requires id !in After(cfg, start, steps[..i + 1]).store.sessions
    ensures id !in After(cfg, start, steps[..m]).store.sessions
    ensures m < |steps| && steps[m].req.op.Protected? && steps[m].req.cookie == id ==>
              ResponseTo(cfg, start, steps, m) == Problem(401, "AUTH_REQUIRED")
  {
    hide After, Handle, Registered;
    StoredIsUsed(cfg, start, steps, id, i);
    GoneStaysGone(cfg, start, steps, id, i + 1, m);
    if m < |steps| && steps[m].req.op.Protected? {
      RunKeepsRegistered(cfg, start, steps[..m]);
      ProtectedIff(cfg, Before(cfg, start, steps, m), steps[m].req, steps[m].env);
    }
  }

  /** After a logout its cookie names no session in any later world of the run. */
  lemma LoggedOutStaysOut(cfg: Config, start: Store, steps: seq<Step>, i: nat, m: nat)
    requires Filed(start) && FreshIDs(start, steps) && i < m <= |steps|
    requires steps[i].req.op.Logout? && steps[i].req.cookie != ""
    requires steps[i].req.cookie in Before(cfg, start, steps, i).store.sessions
    ensures steps[i].req.cookie !in After(cfg, start, steps[..m]).store.sessions
    ensures m < |steps| && steps[m].req.op.Protected? && steps[m].req.cookie == steps[i].req.cookie ==>
              ResponseTo(cfg, start, steps, m) == Problem(401, "AUTH_REQUIRED")
  {
    hide After, Handle, Filed;
    AfterStep(cfg, start, steps, i);
    LogoutEnds(cfg, Before(cfg, start, steps, i), steps[i].req, steps[i].env);
    EndedStaysEnded(cfg, start, steps, i, m, steps[i].req.cookie);
  }

  /** After the sessions of a user were revoked, none of those is ever found again. */
  lemma RevokedStayOut(cfg: Config, start: Store, steps: seq<Step>, i: nat, m: nat, id: string)
    requires Filed(start) && FreshIDs(start, steps) && i < m <= |steps|
    requires steps[i].req.op.RevokeAll? && steps[i].req.op.userID != ""
    requires var sessions := Before(cfg, start, steps, i).store.sessions;
             id in sessions && sessions[id].userID == steps[i].req.op.userID
    ensures id !in After(cfg, start, steps[..m]).store.sessions
    ensures m < |steps| && steps[m].req.op.Protected? && steps[m].req.cookie == id ==>
              ResponseTo(cfg, start, steps, m) == Problem(401, "AUTH_REQUIRED")
  {
    hide After, Handle, Filed;
    AfterStep(cfg, start, steps, i);
    RevokeAllEnds(cfg, Before(cfg, start, steps, i), steps[i].req, steps[i].env);
    EndedStaysEnded(cfg, start, steps, i, m, id);
  }
}
