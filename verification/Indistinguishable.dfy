/**
 Two runs an outside observer cannot tell apart: code requests and failing logins against any two stores, with the
 same randomness, clock, limiter state and policy answers. Whether messages were delivered may differ.
 */
module Indistinguishable {
  import opened Models
  import opened Handlers
  import CodeText
  import Limiter

  datatype Probe = Probe(req: Request, env: Env)

  function After(cfg: Config, w: World, probes: seq<Probe>): World {
    if probes == [] then w
    else
      var last := probes[|probes| - 1];
      Handle(cfg, After(cfg, w, probes[..|probes| - 1]), last.req, last.env).0
  }

  function Answers(cfg: Config, w: World, probes: seq<Probe>): seq<Response> {
    if probes == [] then []
    else
      var before, last := probes[..|probes| - 1], probes[|probes| - 1];
      Answers(cfg, w, before) + [Handle(cfg, After(cfg, w, before), last.req, last.env).1]
  }

  /** A code request, or a password login that does not verify in this store. */
  predicate Harmless(cfg: Config, s: Store, op: Op) {
    || op.RequestCode?
    || (op.LoginPassword? &&
        var identifier := cfg.normalize(op.identifier);
        identifier.None? || !Verifies(cfg, s, identifier.value, op.password))
  }

  /** The drawn code ids are new to the store and differ from each other. */
  ghost predicate FreshFor(s: Store, probes: seq<Probe>) {
    && (forall i :: 0 <= i < |probes| ==> probes[i].env.id !in s.codes)
    && (forall i, j :: 0 <= i < j < |probes| ==> probes[i].env.id != probes[j].env.id)
  }

  /** The same requests under the same circumstances, but for delivery. */
  ghost predicate SameProbes(a: seq<Probe>, b: seq<Probe>) {
    && |a| == |b|
    && forall i :: 0 <= i < |a| ==> a[i].req == b[i].req && a[i].env.(delivered := b[i].env.delivered) == b[i].env
  }

  /** What probing leaves as it was. */
  predicate KeepsLogins(s: Store, t: Store) {
    t.users == s.users && t.identifiers == s.identifiers && t.passwords == s.passwords
  }

  // ------------------------------------------------------------ one probe

  /** For registered, disabled and unknown identifiers alike, delivered or not, the answer is the same. */
  lemma RequestCodeSame(
    cfg: Config, w1: World, w2: World, req: Request, env1: Env, env2: Env, identifier: string, purpose: string)
    requires w1.buckets == w2.buckets && env1.(delivered := env2.delivered) == env2
    requires env1.id !in w1.store.codes && env1.id !in w2.store.codes
    ensures var (v1, r1) := RequestCodeStep(cfg, w1, req, env1, identifier, purpose);
            var (v2, r2) := RequestCodeStep(cfg, w2, req, env2, identifier, purpose);
            r1 == r2 && v1.buckets == v2.buckets
  {
    hide Limiter.AllowRequest, Addressee, OneTimeProof, CodeText.ValidCodePurpose;
  }

  lemma RequestCodeWrites(cfg: Config, w: World, req: Request, env: Env, identifier: string, purpose: string)
    ensures var v := RequestCodeStep(cfg, w, req, env, identifier, purpose).0;
            KeepsLogins(w.store, v.store) && v.store.codes.Keys <= w.store.codes.Keys + {env.id}
  {
    hide Limiter.AllowRequest, Addressee, OneTimeProof, CodeText.ValidCodePurpose;
  }

  /** A login that does not verify is answered the same in any two stores, and only counts against the limiter. */
  lemma FailedLoginSame(
    cfg: Config, w1: World, w2: World, req: Request, env: Env, identifier: string, password: string)
    requires w1.buckets == w2.buckets
    requires Harmless(cfg, w1.store, LoginPassword(identifier, password))
    requires Harmless(cfg, w2.store, LoginPassword(identifier, password))
    ensures var (v1, r1) := LoginPasswordStep(cfg, w1, req, env, identifier, password);
            var (v2, r2) := LoginPasswordStep(cfg, w2, req, env, identifier, password);
            r1 == r2 && v1.buckets == v2.buckets && v1.store == w1.store && v2.store == w2.store
  {
    hide Limiter.AllowRequest, Verifies, Rehashed, LogIn;
  }

  /** Login answers depend on the store only through whether the login verifies. */
  lemma RejectionIff(cfg: Config, w: World, req: Request, env: Env, identifier: string, password: string)
    requires env.decoded && cfg.normalize(identifier).Some? && ByteLength(password) <= 1024
    requires Limiter.AllowRequest(w.buckets, PasswordKey(req.ip, cfg.normalize(identifier).value), 10,
                                  15 * MINUTE, env.now).1
    ensures LoginPasswordStep(cfg, w, req, env, identifier, password).1 == INVALID_LOGIN
            <==> !Verifies(cfg, w.store, cfg.normalize(identifier).value, password)
  {
    hide Limiter.AllowRequest, Verifies, Rehashed, CreateSessionFor;
  }

  lemma ProbeSame(cfg: Config, w1: World, w2: World, req: Request, env1: Env, env2: Env)
    requires w1.buckets == w2.buckets && env1.(delivered := env2.delivered) == env2
    requires env1.id !in w1.store.codes && env1.id !in w2.store.codes
    requires Harmless(cfg, w1.store, req.op) && Harmless(cfg, w2.store, req.op)
    ensures var (v1, r1) := Handle(cfg, w1, req, env1);
            var (v2, r2) := Handle(cfg, w2, req, env2);
            r1 == r2 && v1.buckets == v2.buckets
    ensures KeepsLogins(w1.store, Handle(cfg, w1, req, env1).0.store)
    ensures KeepsLogins(w2.store, Handle(cfg, w2, req, env2).0.store)
    ensures Handle(cfg, w1, req, env1).0.store.codes.Keys <= w1.store.codes.Keys + {env1.id}
    ensures Handle(cfg, w2, req, env2).0.store.codes.Keys <= w2.store.codes.Keys + {env2.id}
  {
    match req.op
    case RequestCode(identifier, purpose) =>
      RequestCodeSame(cfg, w1, w2, req, env1, env2, identifier, purpose);
      RequestCodeWrites(cfg, w1, req, env1, identifier, purpose);
      RequestCodeWrites(cfg, w2, req, env2, identifier, purpose);
    case LoginPassword(identifier, password) =>
      DeliveryIsNotUsed(cfg, w2, req, env1, env2, identifier, password);
      FailedLoginSame(cfg, w1, w2, req, env1, identifier, password);
    hide RequestCodeStep, LoginPasswordStep, Harmless;
  }

  lemma DeliveryIsNotUsed(
    cfg: Config, w: World, req: Request, env1: Env, env2: Env, identifier: string, password: string)
    requires env1.(delivered := env2.delivered) == env2
    ensures LoginPasswordStep(cfg, w, req, env1, identifier, password)
            == LoginPasswordStep(cfg, w, req, env2, identifier, password)
  {
    hide Limiter.AllowRequest, Verifies;
  }

  lemma HarmlessKept(cfg: Config, s: Store, t: Store, op: Op)
    requires KeepsLogins(s, t)
    ensures Harmless(cfg, s, op) == Harmless(cfg, t, op)
  {
  }

  // ------------------------------------------------------------ any number of probes

  function DrawnIDs(probes: seq<Probe>): set<string> {
    set i | 0 <= i < |probes| :: probes[i].env.id
  }

  ghost predicate AllHarmless(cfg: Config, s: Store, probes: seq<Probe>) {
    forall i :: 0 <= i < |probes| ==> Harmless(cfg, s, probes[i].req.op)
  }

  /** What holds of the two worlds after the same probes. */
  predicate StillAlike(w1: World, w2: World, v1: World, v2: World, a: seq<Probe>, b: seq<Probe>) {
    && v1.buckets == v2.buckets
    && KeepsLogins(w1.store, v1.store) && KeepsLogins(w2.store, v2.store)
    && v1.store.codes.Keys <= w1.store.codes.Keys + DrawnIDs(a)
    && v2.store.codes.Keys <= w2.store.codes.Keys + DrawnIDs(b)
  }

  lemma OneMoreProbe(
    cfg: Config, w1: World, w2: World, v1: World, v2: World, a: seq<Probe>, b: seq<Probe>, p: Probe, q: Probe)
    requires StillAlike(w1, w2, v1, v2, a, b)
    requires p.req == q.req && p.env.(delivered := q.env.delivered) == q.env
    requires p.env.id !in w1.store.codes.Keys + DrawnIDs(a) && q.env.id !in w2.store.codes.Keys + DrawnIDs(b)
    requires Harmless(cfg, w1.store, p.req.op) && Harmless(cfg, w2.store, q.req.op)
    ensures Handle(cfg, v1, p.req, p.env).1 == Handle(cfg, v2, q.req, q.env).1
    ensures StillAlike(w1, w2, Handle(cfg, v1, p.req, p.env).0, Handle(cfg, v2, q.req, q.env).0, a + [p], b + [q])
  {
    HarmlessKept(cfg, w1.store, v1.store, p.req.op);
    HarmlessKept(cfg, w2.store, v2.store, q.req.op);
    hide Harmless, Handle;
    ProbeSame(cfg, v1, v2, p.req, p.env, q.env);
    DrawnMore(a, p);
    DrawnMore(b, q);
  }

  lemma DrawnMore(a: seq<Probe>, p: Probe)
    ensures DrawnIDs(a) + {p.env.id} <= DrawnIDs(a + [p])
  {
    forall id | id in DrawnIDs(a) + {p.env.id}
      ensures id in DrawnIDs(a + [p])
    {
      if id in DrawnIDs(a) {
        var i :| 0 <= i < |a| && a[i].env.id == id;
        assert (a + [p])[i].env.id == id;
      } else {
        assert (a + [p])[|a|].env.id == id;
      }
    }
  }

  /** The last probe meets the conditions of one more probe, and the others those of the run before. */
  lemma LastProbe(cfg: Config, w: World, a: seq<Probe>)
    requires a != [] && FreshFor(w.store, a) && AllHarmless(cfg, w.store, a)
    ensures var n := |a| - 1;
            && FreshFor(w.store, a[..n]) && AllHarmless(cfg, w.store, a[..n])
            && a[n].env.id !in w.store.codes.Keys + DrawnIDs(a[..n]) && Harmless(cfg, w.store, a[n].req.op)
            && a == a[..n] + [a[n]]
  {
    hide Harmless;
    var n := |a| - 1;
    forall i | 0 <= i < n
      ensures a[..n][i].env.id != a[n].env.id
    {
    }
  }

  /**
   Any sequence of code requests and failing logins gets the same answers from any two worlds with equal limiter
   state, whoever is registered or disabled in either and whatever is delivered.
   */
  lemma {:induction false} ProbesCannotTell(cfg: Config, w1: World, w2: World, a: seq<Probe>, b: seq<Probe>)
    requires w1.buckets == w2.buckets && SameProbes(a, b)
    requires FreshFor(w1.store, a) && FreshFor(w2.store, b)
    requires AllHarmless(cfg, w1.store, a) && AllHarmless(cfg, w2.store, b)
    ensures Answers(cfg, w1, a) == Answers(cfg, w2, b)
    ensures StillAlike(w1, w2, After(cfg, w1, a), After(cfg, w2, b), a, b)
  {
    if a != [] {
      var n := |a| - 1;
      LastProbe(cfg, w1, a);
      LastProbe(cfg, w2, b);
      hide FreshFor, AllHarmless, DrawnIDs, Handle, Harmless, StillAlike;
      ProbesCannotTell(cfg, w1, w2, a[..n], b[..n]);
      OneMoreProbe(cfg, w1, w2, After(cfg, w1, a[..n]), After(cfg, w2, b[..n]), a[..n], b[..n], a[n], b[n]);
    }
  }
}
