/**
 One-time codes over whole runs of the handlers: what a matched code was issued for, that it matches once, and how often
 it is compared.
 */
module CodeRuns {
  import opened Models
  import opened Contract = StoreContract
  import opened Handlers
  import opened HandlerFrames
  import opened Provenance
  import opened CodeText
  import opened StoreInvariant
  import Limiter

  // ------------------------------------------------------------ one step

  /** The same code, however often it was attempted. */
  predicate SameCode(c: OneTimeCode, d: OneTimeCode) {
    c == d.(attempts := c.attempts)
  }

  /** The code this step issues, if it is a code request that gets that far. */
  predicate MayIssueCode(cfg: Config, w: World, req: Request, env: Env, c: OneTimeCode) {
    && req.op.RequestCode? && ValidCodePurpose(req.op.purpose)
    && var recipient := Recipient(cfg, req.op.identifier);
       c == IssuedCode(cfg, env, Addressee(w.store, recipient), recipient, req.op.purpose)
  }

  /** The verification request gets as far as comparing this live code. */
  predicate Compares(cfg: Config, w: World, req: Request, env: Env, id: string) {
    && RouteEnabled(cfg, req.op) && req.op.VerifyCode? && env.decoded
    && req.op.id != "" && req.op.id == id && ValidCodePurpose(req.op.purpose)
    && Contract.AttemptCode(w.store.codes, id, OneTimeProof(cfg, id, req.op.purpose, req.op.code), env.now).1.Ok?
  }

  /** A compared code is counted, and kept only below its limit. */
  predicate Counts(before: Codes, id: string, c: OneTimeCode) {
    && id in before && c == before[id].(attempts := before[id].attempts + 1)
    && c.attempts < c.maxAttempts
  }

  /** Every stored code was stored before, with one attempt less if this step compared it, or is issued by this step. */
  predicate CodeEffect(cfg: Config, w: World, req: Request, env: Env, v: World) {
    forall id :: id in v.store.codes ==>
      if Compares(cfg, w, req, env, id) then Counts(w.store.codes, id, v.store.codes[id])
      else
        || (id in w.store.codes && v.store.codes[id] == w.store.codes[id])
        || (id == env.id && MayIssueCode(cfg, w, req, env, v.store.codes[id]))
  }

  lemma RequestCodeIssues(cfg: Config, w: World, req: Request, env: Env)
    requires req.op.RequestCode?
    ensures CodeEffect(cfg, w, req, env, RequestCodeStep(cfg, w, req, env, req.op.identifier, req.op.purpose).0)
  {
    hide Limiter.AllowRequest, Addressee, OneTimeProof, ValidCodePurpose, Recipient;
  }

  /** A verified code is applied without touching the codes; only a reset touches passwords, and only its user's. */
  lemma ApplyKeepsCodes(
    cfg: Config, w: World, req: Request, env: Env, user: User, purpose: string, password: string, userID: string)
    ensures var v := ApplyVerifiedCode(cfg, w, req, env, user, purpose, password).0;
            && v.store.codes == w.store.codes
            && (Contract.Password(v.store.passwords, userID) == Contract.Password(w.store.passwords, userID)
                || (purpose != PURPOSE_LOGIN_CODE && purpose != PURPOSE_VERIFY_ACCOUNT && user.id == userID))
  {
    LogInWrites(cfg, w, req, env, user, LevelCode, UserBody(user));
    ResetKeepsCodes(cfg, w, env, user, password, userID);
    hide LogIn, ResetPassword;
  }

  lemma ResetKeepsCodes(cfg: Config, w: World, env: Env, user: User, password: string, userID: string)
    ensures var v := ResetPassword(cfg, w, env, user, password).0;
            && v.store.codes == w.store.codes
            && (Contract.Password(v.store.passwords, userID) == Contract.Password(w.store.passwords, userID)
                || user.id == userID)
  {
    hide AcceptablePassword, Contract.RevokeUserSessions;
  }

  /** The codes after a verification are those after its attempt. */
  lemma VerifyCodeCodes(
    cfg: Config, w: World, req: Request, env: Env, id: string, code: string, purpose: string, password: string)
    ensures VerifyCodeStep(cfg, w, req, env, id, code, purpose, password).0.store.codes
            == if !env.decoded || id == "" || !ValidCodePurpose(purpose) then w.store.codes
               else Contract.AttemptCode(w.store.codes, id, OneTimeProof(cfg, id, purpose, code), env.now).0
  {
    var (codes, r) := Contract.AttemptCode(w.store.codes, id, OneTimeProof(cfg, id, purpose, code), env.now);
    if r.Ok? && r.value.code.userID in w.store.users {
      ApplyKeepsCodes(cfg, w.(store := w.store.(codes := codes)), req, env, w.store.users[r.value.code.userID],
                      purpose, password, "");
    }
    hide ApplyVerifiedCode, Contract.AttemptCode, OneTimeProof, ValidCodePurpose;
  }

  lemma VerifyCodeCounts(cfg: Config, w: World, req: Request, env: Env)
    requires req.op.VerifyCode? && RouteEnabled(cfg, req.op)
    ensures CodeEffect(
              cfg, w, req, env,
              VerifyCodeStep(cfg, w, req, env, req.op.id, req.op.code, req.op.purpose, req.op.password).0)
  {
    hide VerifyCodeStep, MayIssueCode, OneTimeProof, ValidCodePurpose;
    VerifyCodeCodes(cfg, w, req, env, req.op.id, req.op.code, req.op.purpose, req.op.password);
  }

  lemma HandleCodeEffect(cfg: Config, w: World, req: Request, env: Env)
    ensures CodeEffect(cfg, w, req, env, Handle(cfg, w, req, env).0)
  {
    if req.op.RequestCode? {
      RequestCodeIssues(cfg, w, req, env);
    } else if req.op.VerifyCode? {
      if RouteEnabled(cfg, req.op) {
        VerifyCodeCounts(cfg, w, req, env);
      }
    } else {
      hide Handle;
      HandleOnlyWrites(cfg, w, req, env);
    }
    hide RequestCodeStep, VerifyCodeStep, MayIssueCode, OneTimeProof, ValidCodePurpose;
  }

  // ------------------------------------------------------------ provenance

  /** The code was in the store when it was handed in, and has been attempted any number of times since. */
  predicate CodeHandedIn(start: Store, c: OneTimeCode) {
    c.id in start.codes && SameCode(c, start.codes[c.id])
  }

  /** A stored code was stored before, attempts aside, or is new and issued by this step. */
  lemma StoredBeforeOrIssued(cfg: Config, w: World, req: Request, env: Env, v: World, id: string)
    requires CodeEffect(cfg, w, req, env, v) && id in v.store.codes
    ensures var c := v.store.codes[id];
            || (id in w.store.codes && SameCode(c, w.store.codes[id]))
            || (c.id == id && c.(attempts := 0) == c && MayIssueCode(cfg, w, req, env, c))
  {
    hide Compares, OneTimeProof, Addressee, Recipient, ValidCodePurpose;
  }

  /** Step k issued this code, which has been attempted any number of times since. */
  ghost predicate CodeIssuedAt(cfg: Config, start: Store, steps: seq<Step>, k: nat, c: OneTimeCode) {
    k < |steps| && MayIssueCode(cfg, Before(cfg, start, steps, k), steps[k].req, steps[k].env, c.(attempts := 0))
  }

  lemma {:induction false} CodeProvenance(cfg: Config, start: Store, steps: seq<Step>, id: string)
    requires CodesFiled(start.codes) && id in After(cfg, start, steps).store.codes
    ensures var c := After(cfg, start, steps).store.codes[id];
            && c.id == id
            && (CodeHandedIn(start, c) || exists k: nat :: CodeIssuedAt(cfg, start, steps, k, c))
  {
    if steps != [] {
      var n := |steps| - 1;
      hide Handle, MayIssueCode, CodeEffect;
      var w, c := Before(cfg, start, steps, n), After(cfg, start, steps).store.codes[id];
      HandleCodeEffect(cfg, w, steps[n].req, steps[n].env);
      StoredBeforeOrIssued(cfg, w, steps[n].req, steps[n].env, After(cfg, start, steps), id);
      if id in w.store.codes && SameCode(c, w.store.codes[id]) {
        CodeProvenance(cfg, start, steps[..n], id);
        if !CodeHandedIn(start, w.store.codes[id]) {
          var k: nat :| CodeIssuedAt(cfg, start, steps[..n], k, w.store.codes[id]);
          assert steps[..n][..k] == steps[..k] && steps[..n][k] == steps[k];
          assert CodeIssuedAt(cfg, start, steps, k, c);
        }
      } else {
        assert CodeIssuedAt(cfg, start, steps, n, c);
      }
    }
  }

  lemma IssuedIsUnattempted(cfg: Config, w: World, req: Request, env: Env, c: OneTimeCode)
    requires MayIssueCode(cfg, w, req, env, c)
    ensures c.attempts == 0 && c.(attempts := 0) == c && c.id == env.id && c.maxAttempts == cfg.maxAttempts
  {
  }

  /** Step i compared a live code and it matched. */
  predicate CodeMatchesAt(cfg: Config, start: Store, steps: seq<Step>, i: nat)
    requires i < |steps|
  {
    && steps[i].req.op.VerifyCode?
    && var w, op := Before(cfg, start, steps, i), steps[i].req.op;
       && Compares(cfg, w, steps[i].req, steps[i].env, op.id)
       && Contract.AttemptCode(w.store.codes, op.id, OneTimeProof(cfg, op.id, op.purpose, op.code),
                               steps[i].env.now).1.value.matched
  }

  /** Step k was asked for this code: same id, purpose and proof, issued to this user and still in its lifetime. */
  predicate Requested(
    cfg: Config, start: Store, steps: seq<Step>, k: nat, i: nat, userID: string, purpose: string)
    requires k < i < |steps|
  {
    && steps[k].req.op.RequestCode? && steps[k].req.op.purpose == purpose
    && steps[i].req.op.VerifyCode? && steps[i].req.op.id == steps[k].env.id
    && Addressee(Before(cfg, start, steps, k).store, Recipient(cfg, steps[k].req.op.identifier)) == userID
    && OneTimeProof(cfg, steps[k].env.id, steps[i].req.op.purpose, steps[i].req.op.code)
       == OneTimeProof(cfg, steps[k].env.id, purpose, steps[k].env.plainCode)
    && steps[i].env.now < steps[k].env.now + cfg.codeLifetime
  }

  /** The code was handed in with the store: same id, purpose and proof, for this user and still in its lifetime. */
  predicate HandedInFor(cfg: Config, start: Store, steps: seq<Step>, i: nat, userID: string, purpose: string)
    requires i < |steps|
  {
    var op := steps[i].req.op;
    && op.VerifyCode? && op.id in start.codes
    && var c := start.codes[op.id];
       && c.userID == userID && c.purpose == purpose && steps[i].env.now < c.expiresAt
       && c.proof == OneTimeProof(cfg, op.id, op.purpose, op.code)
  }

  lemma MatchedHasOrigin(cfg: Config, start: Store, steps: seq<Step>, i: nat)
    requires CodesFiled(start.codes) && i < |steps| && CodeMatchesAt(cfg, start, steps, i)
    ensures var id := steps[i].req.op.id;
            && id in Before(cfg, start, steps, i).store.codes
            && var c := Before(cfg, start, steps, i).store.codes[id];
               || HandedInFor(cfg, start, steps, i, c.userID, c.purpose)
               || exists k: nat :: k < i && Requested(cfg, start, steps, k, i, c.userID, c.purpose)
  {
    hide Handle, After, OneTimeProof, Addressee, Recipient, ValidCodePurpose;
    var op := steps[i].req.op;
    var c := Before(cfg, start, steps, i).store.codes[op.id];
    CodeProvenance(cfg, start, steps[..i], op.id);
    if !CodeHandedIn(start, c) {
      var k: nat :| CodeIssuedAt(cfg, start, steps[..i], k, c);
      assert steps[..i][..k] == steps[..k] && steps[..i][k] == steps[k];
      assert MayIssueCode(cfg, Before(cfg, start, steps, k), steps[k].req, steps[k].env, c.(attempts := 0));
      assert Requested(cfg, start, steps, k, i, c.userID, c.purpose);
    }
  }

  /**
   Every code-level session follows a login code that was handed in for that user or that an earlier request issued to
   that same user, typed so that its proof is the stored one, within the code's lifetime.
   */
  lemma CodeSessionWasRequested(cfg: Config, start: Store, steps: seq<Step>, i: nat)
    requires Filed(start) && FreshIDs(start, steps) && i < |steps|
    requires ResponseTo(cfg, start, steps, i).cookie == Some(steps[i].env.id)
    requires var s := After(cfg, start, steps[..i + 1]).store.sessions;
             steps[i].env.id in s && s[steps[i].env.id].level == LevelCode
    ensures var userID := After(cfg, start, steps[..i + 1]).store.sessions[steps[i].env.id].userID;
            || HandedInFor(cfg, start, steps, i, userID, PURPOSE_LOGIN_CODE)
            || exists k: nat :: k < i && Requested(cfg, start, steps, k, i, userID, PURPOSE_LOGIN_CODE)
  {
    EveryLoginIsJustified(cfg, start, steps, i);
    VerifiedLoginMatches(cfg, start, steps, i);
    hide Handle, After, Requested, HandedInFor, OneTimeProof, Compares, Registered;
    MatchedHasOrigin(cfg, start, steps, i);
  }

  /** A verification that set a cookie got as far as comparing the code. */
  lemma VerifiedLoginMatches(cfg: Config, start: Store, steps: seq<Step>, i: nat)
    requires i < |steps| && steps[i].req.op.VerifyCode? && ResponseTo(cfg, start, steps, i).cookie.Some?
    ensures CodeMatchesAt(cfg, start, steps, i)
  {
    hide After, ApplyVerifiedCode, Contract.AttemptCode, OneTimeProof, ValidCodePurpose;
  }

  // ------------------------------------------------------------ changed passwords

  /** The step gave this existing user another password. */
  predicate ChangesPassword(cfg: Config, start: Store, steps: seq<Step>, i: nat, userID: string)
    requires i < |steps|
  {
    && userID in Before(cfg, start, steps, i).store.users
    && Contract.Password(After(cfg, start, steps[..i + 1]).store.passwords, userID)
       != Contract.Password(Before(cfg, start, steps, i).store.passwords, userID)
  }

  /** A verification changes only the password of the user its code names, and only for a reset code. */
  lemma VerifyChangesOwnPassword(
    cfg: Config, w: World, req: Request, env: Env, id: string, code: string, purpose: string, password: string,
    userID: string)
    requires Registered(w.store)
    requires Contract.Password(VerifyCodeStep(cfg, w, req, env, id, code, purpose, password).0.store.passwords, userID)
             != Contract.Password(w.store.passwords, userID)
    ensures env.decoded && id != "" && ValidCodePurpose(purpose) && purpose == PURPOSE_PASSWORD_RESET
    ensures var r := Contract.AttemptCode(w.store.codes, id, OneTimeProof(cfg, id, purpose, code), env.now).1;
            r.Ok? && r.value.matched && r.value.code.userID == userID && r.value.code.purpose == purpose
  {
    var (codes, r) := Contract.AttemptCode(w.store.codes, id, OneTimeProof(cfg, id, purpose, code), env.now);
    if r.Ok? && r.value.code.userID in w.store.users {
      ApplyKeepsCodes(cfg, w.(store := w.store.(codes := codes)), req, env,
                      w.store.users[r.value.code.userID], purpose, password, userID);
    }
    hide ApplyVerifiedCode, Contract.AttemptCode, OneTimeProof;
  }

  lemma LoginChangesOwnPassword(cfg: Config, w: World, req: Request, env: Env, userID: string)
    requires Registered(w.store) && req.op.LoginPassword?
    requires var v := LoginPasswordStep(cfg, w, req, env, req.op.identifier, req.op.password).0;
             Contract.Password(v.store.passwords, userID) != Contract.Password(w.store.passwords, userID)
    ensures PasswordVerified(cfg, w, req, userID)
  {
    hide Limiter.AllowRequest, CreateSessionFor;
  }

  lemma RegisterKeepsPasswords(
    cfg: Config, w: World, env: Env, identifier: string, displayName: string, password: string, userID: string)
    requires userID in w.store.users
    ensures var v := RegisterPasswordStep(cfg, w, env, identifier, displayName, password).0;
            Contract.Password(v.store.passwords, userID) == Contract.Password(w.store.passwords, userID)
  {
    hide AcceptablePassword;
  }

  /** The request matched and used up a reset code of this user. */
  predicate ResetMatched(cfg: Config, w: World, req: Request, env: Env, userID: string) {
    && RouteEnabled(cfg, req.op) && req.op.VerifyCode? && env.decoded && req.op.id != ""
    && req.op.purpose == PURPOSE_PASSWORD_RESET
    && var r := Contract.AttemptCode(w.store.codes, req.op.id,
                                     OneTimeProof(cfg, req.op.id, req.op.purpose, req.op.code), env.now).1;
       r.Ok? && r.value.matched && r.value.code.userID == userID && r.value.code.purpose == req.op.purpose
  }

  /** Why a step may change the password of an existing user. */
  lemma PasswordChangeEffect(cfg: Config, w: World, req: Request, env: Env, userID: string)
    requires Registered(w.store) && userID in w.store.users
    requires Contract.Password(Handle(cfg, w, req, env).0.store.passwords, userID)
             != Contract.Password(w.store.passwords, userID)
    ensures PasswordVerified(cfg, w, req, userID) || ResetMatched(cfg, w, req, env, userID)
  {
    hide RegisterPasswordStep, LoginPasswordStep, VerifyCodeStep, OneTimeProof, PasswordVerified, Contract.AttemptCode,
      ValidCodePurpose;
    match req.op
    case RegisterPassword(identifier, name, password) =>
      RegisterKeepsPasswords(cfg, w, env, identifier, name, password, userID);
    case LoginPassword(_, _) => LoginChangesOwnPassword(cfg, w, req, env, userID);
    case VerifyCode(id, code, purpose, password) =>
      VerifyChangesOwnPassword(cfg, w, req, env, id, code, purpose, password, userID);
    case _ =>
      HandleOnlyWrites(cfg, w, req, env);
      hide Handle;
  }

  /**
   A step that changes an existing user's password either verified that user's old one, or used up a reset code that
   was handed in for that user or that an earlier request issued to that same user, within its lifetime.
   */
  lemma PasswordChangeIsJustified(cfg: Config, start: Store, steps: seq<Step>, i: nat, userID: string)
    requires Filed(start) && FreshIDs(start, steps) && i < |steps|
    requires ChangesPassword(cfg, start, steps, i, userID)
    ensures || PasswordVerified(cfg, Before(cfg, start, steps, i), steps[i].req, userID)
            || HandedInFor(cfg, start, steps, i, userID, PURPOSE_PASSWORD_RESET)
            || exists k: nat :: k < i && Requested(cfg, start, steps, k, i, userID, PURPOSE_PASSWORD_RESET)
  {
    var w, req := Before(cfg, start, steps, i), steps[i].req;
    RunKeepsRegistered(cfg, start, steps[..i]);
    AfterStep(cfg, start, steps, i);
    PasswordChangeEffect(cfg, w, req, steps[i].env, userID);
    hide Handle, After, Requested, HandedInFor, PasswordVerified, ResetMatched, Filed;
    if ResetMatched(cfg, w, req, steps[i].env, userID) {
      ResetHasOrigin(cfg, start, steps, i, userID);
    }
  }

  lemma ResetHasOrigin(cfg: Config, start: Store, steps: seq<Step>, i: nat, userID: string)
    requires Filed(start) && i < |steps|
    requires ResetMatched(cfg, Before(cfg, start, steps, i), steps[i].req, steps[i].env, userID)
    ensures || HandedInFor(cfg, start, steps, i, userID, PURPOSE_PASSWORD_RESET)
            || exists k: nat :: k < i && Requested(cfg, start, steps, k, i, userID, PURPOSE_PASSWORD_RESET)
  {
    hide Handle, After, Requested, HandedInFor, OneTimeProof, Registered;
    assert CodeMatchesAt(cfg, start, steps, i);
    MatchedHasOrigin(cfg, start, steps, i);
  }

  // ------------------------------------------------------------ at most once

  /** The id was in use before step n: in the store handed in, or drawn by an earlier step. */
  ghost predicate CodeUsedBefore(start: Store, steps: seq<Step>, id: string, n: nat) {
    id in start.codes || exists k :: 0 <= k < n && k < |steps| && steps[k].env.id == id
  }

  lemma NotSentAgain(cfg: Config, start: Store, steps: seq<Step>, m: nat, id: string)
    requires m < |steps| && steps[m].env.id != id && id !in After(cfg, start, steps[..m]).store.codes
    ensures id !in After(cfg, start, steps[..m + 1]).store.codes
  {
    AfterStep(cfg, start, steps, m);
    HandleCodeEffect(cfg, Before(cfg, start, steps, m), steps[m].req, steps[m].env);
    hide Handle, MayIssueCode, Compares, After;
  }

  lemma {:induction false} GoneCodeStaysGone(
    cfg: Config, start: Store, steps: seq<Step>, id: string, n: nat, m: nat)
    requires FreshIDs(start, steps) && n <= m <= |steps| && CodeUsedBefore(start, steps, id, n)
    requires id !in After(cfg, start, steps[..n]).store.codes
    ensures id !in After(cfg, start, steps[..m]).store.codes
    decreases m
  {
    hide After;
    if n < m {
      GoneCodeStaysGone(cfg, start, steps, id, n, m - 1);
      NotSentAgain(cfg, start, steps, m - 1, id);
    }
  }

  lemma MatchRemoves(cfg: Config, start: Store, steps: seq<Step>, i: nat)
    requires i < |steps| && CodeMatchesAt(cfg, start, steps, i)
    ensures steps[i].req.op.id in Before(cfg, start, steps, i).store.codes
    ensures steps[i].req.op.id !in After(cfg, start, steps[..i + 1]).store.codes
  {
    var op := steps[i].req.op;
    AfterStep(cfg, start, steps, i);
    VerifyCodeCodes(cfg, Before(cfg, start, steps, i), steps[i].req, steps[i].env, op.id, op.code, op.purpose,
                    op.password);
    hide VerifyCodeStep, After, OneTimeProof, ValidCodePurpose;
  }

  lemma MatchedCodeStaysGone(cfg: Config, start: Store, steps: seq<Step>, i: nat, j: nat)
    requires CodesFiled(start.codes) && FreshIDs(start, steps) && i < j <= |steps|
    requires CodeMatchesAt(cfg, start, steps, i)
    ensures steps[i].req.op.id !in After(cfg, start, steps[..j]).store.codes
  {
    hide After, Before, Handle, OneTimeProof, Compares;
    MatchedHasOrigin(cfg, start, steps, i);
    MatchRemoves(cfg, start, steps, i);
    GoneCodeStaysGone(cfg, start, steps, steps[i].req.op.id, i + 1, j);
  }

  /** No two steps of a run match the same code. */
  lemma CodeMatchesOnce(cfg: Config, start: Store, steps: seq<Step>, i: nat, j: nat)
    requires CodesFiled(start.codes) && FreshIDs(start, steps) && i < j < |steps|
    requires CodeMatchesAt(cfg, start, steps, i) && CodeMatchesAt(cfg, start, steps, j)
    ensures steps[i].req.op.id != steps[j].req.op.id
  {
    MatchedCodeStaysGone(cfg, start, steps, i, j);
    MatchRemoves(cfg, start, steps, j);
    hide After, CodeMatchesAt;
  }

  // ------------------------------------------------------------ how often a code is compared

  /** How many steps of the run compared this code, matching or not. */
  function Comparisons(cfg: Config, start: Store, steps: seq<Step>, id: string): nat {
    if steps == [] then 0
    else
      var n := |steps| - 1;
      Comparisons(cfg, start, steps[..n], id)
      + if Compares(cfg, After(cfg, start, steps[..n]), steps[n].req, steps[n].env, id) then 1 else 0
  }

  /** How often a code may still be compared; the attempt that finds the limit passed is one more. */
  function Left(c: OneTimeCode): int {
    if c.maxAttempts - c.attempts < 1 then 1 else c.maxAttempts - c.attempts
  }

  /** What a code of the store handed in has left, or a new one has in all. */
  function Allowance(cfg: Config, start: Store, id: string): int {
    if id in start.codes then Left(start.codes[id]) else if cfg.maxAttempts < 1 then 1 else cfg.maxAttempts
  }

  ghost predicate Counted(cfg: Config, start: Store, steps: seq<Step>, id: string) {
    var codes, n := After(cfg, start, steps).store.codes, Comparisons(cfg, start, steps, id);
    && n <= Allowance(cfg, start, id)
    && (id in codes ==> n + Left(codes[id]) <= Allowance(cfg, start, id))
    && (!CodeUsedBefore(start, steps, id, |steps|) ==> n == 0 && id !in codes)
  }

  lemma UsedLater(start: Store, steps: seq<Step>, id: string)
    requires steps != [] && FreshIDs(start, steps)
    ensures var n := |steps| - 1;
            && (CodeUsedBefore(start, steps[..n], id, n) || steps[n].env.id == id
                ==> CodeUsedBefore(start, steps, id, |steps|))
            && (steps[n].env.id == id ==> !CodeUsedBefore(start, steps[..n], id, n) && id !in start.codes)
  {
  }

  lemma {:induction false} RunKeepsCounted(cfg: Config, start: Store, steps: seq<Step>, id: string)
    requires FreshIDs(start, steps)
    ensures Counted(cfg, start, steps, id)
  {
    if steps != [] {
      var n := |steps| - 1;
      hide Handle, MayIssueCode;
      var before, w := steps[..n], After(cfg, start, steps[..n]);
      RunKeepsCounted(cfg, start, before, id);
      HandleCodeEffect(cfg, w, steps[n].req, steps[n].env);
      if Compares(cfg, w, steps[n].req, steps[n].env, id) {
        ComparesStored(cfg, w, steps[n].req, steps[n].env, id);
      }
      hide Compares;
      var v := After(cfg, start, steps);
      UsedLater(start, steps, id);
      if id in v.store.codes && MayIssueCode(cfg, w, steps[n].req, steps[n].env, v.store.codes[id]) {
        IssuedIsUnattempted(cfg, w, steps[n].req, steps[n].env, v.store.codes[id]);
      }
      hide CodeUsedBefore;
    }
  }

  lemma ComparesStored(cfg: Config, w: World, req: Request, env: Env, id: string)
    requires Compares(cfg, w, req, env, id)
    ensures id in w.store.codes
  {
  }

  /**
   In every run no code is compared more often than its limit: `MaxAttempts` times for a code of the run, and what was
   left of its own limit for one that was handed in.
   */
  lemma ComparisonsAreBounded(cfg: Config, start: Store, steps: seq<Step>, id: string)
    requires FreshIDs(start, steps)
    ensures Comparisons(cfg, start, steps, id) <= Allowance(cfg, start, id)
    ensures id !in start.codes && InRange(cfg) && cfg.codesEnabled ==>
              Comparisons(cfg, start, steps, id) <= cfg.maxAttempts
  {
    RunKeepsCounted(cfg, start, steps, id);
    hide Comparisons, After;
  }

  // ------------------------------------------------------------ round trip

  /** A delivered login code, typed with any separators or ASCII case within its lifetime, logs its user in. */
  lemma DeliveredCodeLogsIn(
    cfg: Config, w: World, req: Request, env: Env, identifier: string, userID: string,
    req': Request, env': Env, typed: string, password: string)
    requires Registered(w.store) && env.id != ""
    requires RequestCodeStep(cfg, w, req, env, identifier, PURPOSE_LOGIN_CODE).1.status == 202
    requires userID != "" && Addressee(w.store, Recipient(cfg, identifier)) == userID && env.delivered
    requires env'.now < env.now + cfg.codeLifetime && Cleaned(typed) == Cleaned(env.plainCode)
    requires env'.decoded && env'.policy && env'.cookieSet && env'.id !in w.store.sessions
    ensures var v := RequestCodeStep(cfg, w, req, env, identifier, PURPOSE_LOGIN_CODE).0;
            var (u, r) := VerifyCodeStep(cfg, v, req', env', env.id, typed, PURPOSE_LOGIN_CODE, password);
            && userID in w.store.users
            && r == Response(200, "", UserBody(w.store.users[userID]), Some(env'.id))
            && env'.id in u.store.sessions
            && u.store.sessions[env'.id] == NewSession(cfg, req', env', w.store.users[userID], LevelCode)
            && env.id !in u.store.codes
  {
    RequestStoresCode(cfg, w, req, env, identifier, userID);
    TypedProofIs(cfg, env.id, PURPOSE_LOGIN_CODE, typed, env.plainCode);
    hide RequestCodeStep, Cleaned, Recipient, VerifyCodeStep, OneTimeProof;
    MatchingCodeLogsIn(cfg, RequestCodeStep(cfg, w, req, env, identifier, PURPOSE_LOGIN_CODE).0, req', env', env.id,
                       typed, password);
  }

  lemma TypedProofIs(cfg: Config, id: string, purpose: string, typed: string, plain: string)
    requires Cleaned(typed) == Cleaned(plain)
    ensures OneTimeProof(cfg, id, purpose, typed) == OneTimeProof(cfg, id, purpose, plain)
  {
  }

  /** A live login code with the typed proof, for an enabled user, is used up and logs that user in. */
  lemma MatchingCodeLogsIn(
    cfg: Config, w: World, req: Request, env: Env, id: string, typed: string, password: string)
    requires id != "" && id in w.store.codes
    requires var c := w.store.codes[id];
             && c.proof == OneTimeProof(cfg, id, PURPOSE_LOGIN_CODE, typed) && c.purpose == PURPOSE_LOGIN_CODE
             && c.expiresAt > env.now && c.userID != "" && c.userID in w.store.users
             && !w.store.users[c.userID].disabled && w.store.users[c.userID].id == c.userID
    requires env.decoded && env.policy && env.cookieSet && env.id !in w.store.sessions
    ensures var user := w.store.users[w.store.codes[id].userID];
            var (u, r) := VerifyCodeStep(cfg, w, req, env, id, typed, PURPOSE_LOGIN_CODE, password);
            && r == Response(200, "", UserBody(user), Some(env.id))
            && env.id in u.store.sessions
            && u.store.sessions[env.id] == NewSession(cfg, req, env, user, LevelCode)
            && id !in u.store.codes
  {
    hide OneTimeProof, CreateSessionFor;
    var c := w.store.codes[id];
    var codes := w.store.codes - {id};
    assert Contract.AttemptCode(w.store.codes, id, OneTimeProof(cfg, id, PURPOSE_LOGIN_CODE, typed), env.now)
        == (codes, Ok(Attempt(c.(attempts := c.attempts + 1), true, false)));
    hide Contract.AttemptCode;
    var user := w.store.users[c.userID];
    NewSessionIsStored(cfg, w.store.sessions, req, env, user, LevelCode);
    assert VerifyCodeStep(cfg, w, req, env, id, typed, PURPOSE_LOGIN_CODE, password)
        == LogIn(cfg, w.(store := w.store.(codes := codes)), req, env, user, LevelCode, UserBody(user));
  }

  lemma RequestStoresCode(cfg: Config, w: World, req: Request, env: Env, identifier: string, userID: string)
    requires RequestCodeStep(cfg, w, req, env, identifier, PURPOSE_LOGIN_CODE).1.status == 202
    requires Addressee(w.store, Recipient(cfg, identifier)) == userID && env.delivered
    ensures var v := RequestCodeStep(cfg, w, req, env, identifier, PURPOSE_LOGIN_CODE).0;
            v.store == w.store.(codes := w.store.codes[env.id :=
              IssuedCode(cfg, env, userID, Recipient(cfg, identifier), PURPOSE_LOGIN_CODE)])
  {
    hide Addressee, Recipient, OneTimeProof, Limiter.AllowRequest;
  }

  // ------------------------------------------------------------ what a verified account's owner is shown

  /** Marking stores a verified user; the answer shows it exactly when the user was verified before. */
  lemma MarkedAnswerIsCurrentIff(w: World, user: User)
    requires user.id in w.store.users && w.store.users[user.id] == user
    ensures var (v, r) := MarkVerified(w, user);
            && v.store.users == w.store.users[user.id := user.(verified := true)]
            && r.status == 200 && r.body.UserBody?
            && (r.body.user == v.store.users[user.id] <==> user.verified)
  {
  }

  /**
   A successful account verification marks exactly the code's user as verified; its answer shows that user as now
   stored if and only if the account was verified already.
   */
  lemma VerificationAnswerIsCurrentIff(
    cfg: Config, w: World, req: Request, env: Env, id: string, code: string, password: string)
    requires Registered(w.store) && id in w.store.codes
    requires VerifyCodeStep(cfg, w, req, env, id, code, PURPOSE_VERIFY_ACCOUNT, password).1.status == 200
    ensures var userID := w.store.codes[id].userID;
            var (v, r) := VerifyCodeStep(cfg, w, req, env, id, code, PURPOSE_VERIFY_ACCOUNT, password);
            && userID in w.store.users && r.body.UserBody?
            && v.store.users == w.store.users[userID := w.store.users[userID].(verified := true)]
            && (r.body.user == v.store.users[userID] <==> w.store.users[userID].verified)
  {
    hide OneTimeProof, MarkVerified;
    var userID := w.store.codes[id].userID;
    if userID in w.store.users {
      var codes := Contract.AttemptCode(
        w.store.codes, id, OneTimeProof(cfg, id, PURPOSE_VERIFY_ACCOUNT, code), env.now).0;
      MarkedAnswerIsCurrentIff(w.(store := w.store.(codes := codes)), w.store.users[userID]);
    }
  }

  /** One new user, and a code issued to verify the account. */
  function Unverified(cfg: Config): World {
    var user := User("u", "ada", "Ada", [1], false, false, 1);
    var code := OneTimeCode("c", "u", "ada", PURPOSE_VERIFY_ACCOUNT,
                            OneTimeProof(cfg, "c", PURPOSE_VERIFY_ACCOUNT, "12345678"), 10, 0, 5);
    World(Empty().(users := map["u" := user], identifiers := map["ada" := "u"], webAuthnIDs := map[[1] := "u"],
                   codes := map["c" := code]), map[], map[])
  }

  /** An input where they differ: the first verification stores a verified user and answers with an unverified one. */
  lemma FirstVerificationAnswersUnverified(cfg: Config, req: Request, env: Env)
    requires env.now == 2 && env.decoded && env.policy
    ensures Filed(Unverified(cfg).store)
    ensures var (v, r) := VerifyCodeStep(
              cfg, Unverified(cfg), req, env, "c", "12345678", PURPOSE_VERIFY_ACCOUNT, "");
            && r.status == 200 && r.body.UserBody?
            && "u" in v.store.users && v.store.users["u"].verified && !r.body.user.verified
  {
    hide OneTimeProof;
  }
}
