/**
 What handler answers mean, in terms of the maps of the store alone: who a request comes from, when a session can be
 opened, and which session that is.
 */
module Outcomes {
  import opened Models
  import opened Contract = StoreContract
  import opened Handlers
  import opened Provenance

  /** The cookie names a live session of this existing, enabled user. */
  predicate SessionOf(store: Store, req: Request, env: Env, userID: string) {
    && req.cookie != "" && req.cookie in store.sessions
    && store.sessions[req.cookie].userID == userID && store.sessions[req.cookie].expiresAt > env.now
    && userID in store.users && !store.users[userID].disabled
  }

  /** It is a password session, and the user has confirmed a second factor that the service asks for. */
  predicate LacksSecondFactor(cfg: Config, store: Store, req: Request, userID: string)
    requires req.cookie in store.sessions
  {
    && store.sessions[req.cookie].level == LevelPassword
    && cfg.totpEnabled && userID in store.totp && store.totp[userID].confirmed
  }

  /** The session of a fully authenticated user. */
  predicate FullSessionOf(cfg: Config, store: Store, req: Request, env: Env, userID: string) {
    SessionOf(store, req, env, userID) && !LacksSecondFactor(cfg, store, req, userID)
  }

  /** The sessions without the one the request came with. */
  function Rotated(sessions: Sessions, req: Request): Sessions {
    if req.cookie == "" then sessions else sessions - {req.cookie}
  }

  /** A new session can be stored under the drawn id and its cookie set. */
  predicate Opens(sessions: Sessions, req: Request, env: Env) {
    env.cookieSet && env.id !in Rotated(sessions, req)
  }

  /** The sessions after a login: the request's own goes, one that ends a session lifetime from now is added. */
  function Opened(cfg: Config, sessions: Sessions, req: Request, env: Env, userID: string, level: AuthLevel): Sessions {
    Rotated(sessions, req)[env.id :=
      Session(env.id, userID, level, env.now, env.now + cfg.sessionLifetime, env.now, req.userAgent, req.ip)]
  }

  /** A login ends with that session and its cookie, or with an error and no session. */
  lemma LogInIs(cfg: Config, w: World, req: Request, env: Env, user: User, level: AuthLevel, body: Body)
    ensures LogIn(cfg, w, req, env, user, level, body) ==
            if Opens(w.store.sessions, req, env) then
              (w.(store := w.store.(sessions := Opened(cfg, w.store.sessions, req, env, user.id, level))),
               Response(200, "", body, Some(env.id)))
            else (w.(store := w.store.(sessions := Rotated(w.store.sessions, req))), Problem(500, "INTERNAL_ERROR"))
  {
    var kept := Rotated(w.store.sessions, req);
    if env.id !in kept {
      assert kept[env.id := NewSession(cfg, req, env, user, level)] - {env.id} == kept;
    }
  }

  /** The user id that the request's session names. */
  function Caller(store: Store, req: Request): string {
    if req.cookie in store.sessions then store.sessions[req.cookie].userID else ""
  }

  /** The sessions after a lookup: the request's own is evicted if it has expired. */
  function Evicted(sessions: Sessions, req: Request, env: Env): Sessions {
    if req.cookie != "" && req.cookie in sessions && sessions[req.cookie].expiresAt <= env.now
    then sessions - {req.cookie} else sessions
  }

  lemma EvictedIs(sessions: Sessions, req: Request, env: Env)
    ensures CurrentSession(sessions, req, env).0 == Evicted(sessions, req, env)
  {
  }

  /** Who a request comes from; the lookup changes nothing but that eviction. */
  lemma SessionUserIs(store: Store, req: Request, env: Env)
    requires Registered(store)
    ensures var (t, who) := SessionUser(store, req, env);
            var userID := Caller(store, req);
            && t == store.(sessions := Evicted(store.sessions, req, env))
            && if SessionOf(store, req, env, userID) then
                 t == store && who == Known(store.users[userID], store.sessions[req.cookie])
               else who == Refused(Problem(401, "AUTH_REQUIRED"))
  {
    EvictedIs(store.sessions, req, env);
    SessionUserEffect(store, req, env);
    CurrentSessionEffect(store.sessions, req, env);
    hide CurrentSession;
  }

  lemma FullSessionUserIs(cfg: Config, store: Store, req: Request, env: Env)
    requires Registered(store)
    ensures var (t, who) := AuthenticatedSessionUser(cfg, store, req, env);
            var userID := Caller(store, req);
            && t == store.(sessions := Evicted(store.sessions, req, env))
            && if FullSessionOf(cfg, store, req, env, userID) then
                 t == store && who == Known(store.users[userID], store.sessions[req.cookie])
               else who.Refused? && who.response.status == 401 && who.response.cookie.None?
  {
    SessionUserIs(store, req, env);
    hide SessionUser;
  }

  lemma SessionIsOfUser(s: Store, req: Request, env: Env)
    requires Registered(s)
    ensures var userID := Caller(s, req);
            SessionOf(s, req, env, userID) ==> userID in s.users && s.users[userID].id == userID
  {
  }

  lemma FullSessionIsOfUser(cfg: Config, s: Store, req: Request, env: Env)
    requires Registered(s)
    ensures var userID := Caller(s, req);
            FullSessionOf(cfg, s, req, env, userID) ==>
              SessionOf(s, req, env, userID) && userID in s.users && s.users[userID].id == userID
  {
  }
}
