/**
 What crashes, restarts and failed writes cannot break in the JSON store. A history is any sequence of calls
 and restarts, each with its own outcome for the write of the disk image, from before the first `Open`.
 */
module CrashSafety {
  import opened Models
  import opened Contract = StoreContract
  import opened StoreCalls
  import opened JsonContract

  // ---------------------------------------------------------------- one-time codes

  /** The event compared a live code `id` and its caller got the outcome, not an error. */
  predicate Answers(m: Model, e: Event, id: string) {
    && e.Invoke? && e.call.OnCodes? && e.call.code.AttemptCode? && e.call.code.id == id
    && CallStep(m, e.call, e.persists).1.Attempted?
  }

  predicate Matches(m: Model, e: Event, id: string) {
    Answers(m, e, id) && CallStep(m, e.call, e.persists).1.attempt.matched
  }

  function CountAnswers(events: seq<Event>, id: string): nat {
    if events == [] then 0
    else
      var before := events[..|events| - 1];
      CountAnswers(before, id) + if Answers(RunFrom(Boot(), before), events[|events| - 1], id) then 1 else 0
  }

  function CountMatches(events: seq<Event>, id: string): nat {
    if events == [] then 0
    else
      var before := events[..|events| - 1];
      CountMatches(before, id) + if Matches(RunFrom(Boot(), before), events[|events| - 1], id) then 1 else 0
  }

  predicate Saves(e: Event, id: string) {
    e.Invoke? && e.call.OnCodes? && e.call.code.SaveCode? && e.call.code.code.id == id
  }

  /** Fresh id: the history saves this code, unattempted, and no other code under its id. */
  ghost predicate SavedAtMostOnce(events: seq<Event>, code: OneTimeCode) {
    && code.attempts == 0
    && (forall i :: 0 <= i < |events| && Saves(events[i], code.id) ==> events[i].call.code.code == code)
    && (forall i, j :: 0 <= i < j < |events| && Saves(events[i], code.id) ==> !Saves(events[j], code.id))
  }

  function Limit(code: OneTimeCode): int {
    if code.maxAttempts < 1 then 1 else code.maxAttempts
  }

  /** A copy of the code kept in one of the two places has already counted every answered attempt. */
  predicate Counted(codes: Codes, code: OneTimeCode, answers: nat, matches: nat) {
    code.id in codes ==>
      var kept := codes[code.id];
      && matches == 0
      && kept == code.(attempts := kept.attempts)
      && answers <= kept.attempts
      && kept.attempts < Limit(code)
  }

  /** Both copies at once, and nothing anywhere before the code was saved. */
  predicate CodeInvariant(m: Model, code: OneTimeCode, answers: nat, matches: nat, saved: bool) {
    && Counted(m.memory.codes, code, answers, matches)
    && (m.disk.Some? ==> Counted(m.disk.value.codes, code, answers, matches))
    && answers <= Limit(code) && matches <= 1
    && (!saved ==> answers == 0 && matches == 0 && code.id !in m.memory.codes
                   && (m.disk.Some? ==> code.id !in m.disk.value.codes))
  }

  lemma AttemptKeepsCounted(
    codes: Codes, code: OneTimeCode, proof: Bytes, now: Time, answers: nat, matches: nat)
    requires Counted(codes, code, answers, matches)
    ensures var (t, r) := Contract.AttemptCode(codes, code.id, proof, now);
            && Counted(t, code, answers, matches)
            && (r.Ok? ==>
                  && matches == 0 && answers < Limit(code)
                  && Counted(t, code, answers + 1, if r.value.matched then 1 else 0))
  {
  }

  lemma AttemptKeepsCodeInvariant(m: Model, e: Event, code: OneTimeCode, answers: nat, matches: nat, saved: bool)
    requires CodeInvariant(m, code, answers, matches, saved)
    requires e.Invoke? && e.call.OnCodes? && e.call.code.AttemptCode? && e.call.code.id == code.id
    ensures CodeInvariant(Next(m, e), code,
                          answers + (if Answers(m, e, code.id) then 1 else 0),
                          matches + (if Matches(m, e, code.id) then 1 else 0), saved)
  {
    AttemptKeepsCounted(m.memory.codes, code, e.call.code.proof, e.call.code.now, answers, matches);
    CallStepShape(m, e.call, e.persists);
    AnswerIsPersisted(m, e.call.code, e.persists);
  }

  /** An attempt is answered exactly when it compared the code and the new image was written. */
  lemma AnswerIsPersisted(m: Model, call: CodeCall, persists: bool)
    requires call.AttemptCode?
    ensures var r := Contract.AttemptCode(m.memory.codes, call.id, call.proof, call.now).1;
            var (n, q) := CallStep(m, OnCodes(call), persists);
            && (q.Attempted? <==> r.Ok? && persists)
            && (q.Attempted? ==> q.attempt == r.value && n.disk == Some(Image(n.memory)))
  {
  }

  /** Only an attempt on the code itself rewrites its entry; only `SaveCode` adds one. */
  lemma CodeCallKeepsEntry(codes: Codes, call: CodeCall, id: string)
    requires !(call.AttemptCode? && call.id == id)
    requires id in StepCodes(codes, call).0
    ensures var kept := StepCodes(codes, call).0[id];
            (id in codes && codes[id] == kept) || (call == CodeCall.SaveCode(kept) && kept.id == id)
  {
  }

  /** The memory's codes become `codes`, and the image's stay or become the same. */
  predicate CodesBecome(m: Model, n: Model, codes: Codes) {
    && n.memory.codes == codes
    && (n.disk == m.disk || (n.disk.Some? && n.disk.value.codes == codes))
  }

  lemma CodeCallKeepsCodeInvariant(
    m: Model, n: Model, call: CodeCall, code: OneTimeCode, answers: nat, matches: nat, saved: bool)
    requires CodeInvariant(m, code, answers, matches, saved) && code.attempts == 0
    requires CodesBecome(m, n, StepCodes(m.memory.codes, call).0)
    requires !(call.AttemptCode? && call.id == code.id)
    requires call.SaveCode? && call.code.id == code.id ==> !saved && call.code == code
    ensures CodeInvariant(n, code, answers, matches, saved || (call.SaveCode? && call.code.id == code.id))
  {
    if code.id in n.memory.codes {
      CodeCallKeepsEntry(m.memory.codes, call, code.id);
    }
  }

  lemma OtherEventKeepsCodeInvariant(
    m: Model, e: Event, code: OneTimeCode, answers: nat, matches: nat, saved: bool)
    requires CodeInvariant(m, code, answers, matches, saved) && (e.Invoke? ==> !e.call.OnCodes?)
    ensures CodeInvariant(Next(m, e), code, answers, matches, saved)
    ensures !Answers(m, e, code.id) && !Matches(m, e, code.id) && !Saves(e, code.id)
  {
    if e.Invoke? {
      CallStepShape(m, e.call, e.persists);
      hide CallStep;
    }
  }

  predicate SavedIn(events: seq<Event>, id: string) {
    exists i :: 0 <= i < |events| && Saves(events[i], id)
  }

  lemma {:induction false} HistoryKeepsCodeInvariant(events: seq<Event>, code: OneTimeCode)
    requires SavedAtMostOnce(events, code)
    ensures CodeInvariant(RunFrom(Boot(), events), code, CountAnswers(events, code.id),
                          CountMatches(events, code.id), SavedIn(events, code.id))
  {
    if events != [] {
      var before, e := events[..|events| - 1], events[|events| - 1];
      HistoryKeepsCodeInvariant(before, code);
      var m := RunFrom(Boot(), before);
      var answers, matches := CountAnswers(before, code.id), CountMatches(before, code.id);
      var saved := SavedIn(before, code.id);
      assert events == before + [e];
      assert SavedIn(events, code.id) == (saved || Saves(e, code.id));
      if e.Invoke? && e.call.OnCodes? {
        if e.call.code.AttemptCode? && e.call.code.id == code.id {
          AttemptKeepsCodeInvariant(m, e, code, answers, matches, saved);
        } else {
          CallStepShape(m, e.call, e.persists);
          CodeCallKeepsCodeInvariant(m, Next(m, e), e.call.code, code, answers, matches, saved);
        }
      } else {
        OtherEventKeepsCodeInvariant(m, e, code, answers, matches, saved);
      }
      hide CodeInvariant, CallStep;
    }
  }

  /** Over every history, a code gets at most `maxAttempts` answered comparisons and at most one match. */
  lemma CodeUsedAtMostOnce(events: seq<Event>, code: OneTimeCode)
    requires SavedAtMostOnce(events, code)
    requires code.maxAttempts >= 1
    ensures CountAnswers(events, code.id) <= code.maxAttempts
    ensures CountMatches(events, code.id) <= 1
  {
    HistoryKeepsCodeInvariant(events, code);
  }

  /** Once matched, the code is gone from memory and from the image, so no later restart brings it back. */
  lemma MatchedCodeIsGone(events: seq<Event>, code: OneTimeCode)
    requires SavedAtMostOnce(events, code) && CountMatches(events, code.id) == 1
    ensures var m := RunFrom(Boot(), events);
            code.id !in m.memory.codes && (m.disk.Some? ==> code.id !in m.disk.value.codes)
  {
    HistoryKeepsCodeInvariant(events, code);
  }

  // ---------------------------------------------------------------- recovery codes

  /** How many entries of the list this proof could still redeem. */
  function CountUnused(list: seq<RecoveryCode>, proof: Bytes): nat {
    if list == [] then 0 else (if Redeems(list[0], proof) then 1 else 0) + CountUnused(list[1..], proof)
  }

  lemma {:induction false} UseLowersCount(list: seq<RecoveryCode>, proof: Bytes, used: Bytes, now: Time)
    requires now != ZERO_TIME && RecoveryIndex(list, used) < |list|
    ensures var i := RecoveryIndex(list, used);
            CountUnused(list[i := list[i].(usedAt := now)], proof)
            == CountUnused(list, proof) - if proof == used then 1 else 0
  {
    var i := RecoveryIndex(list, used);
    if i > 0 {
      UseLowersCount(list[1..], proof, used, now);
      assert list[i := list[i].(usedAt := now)][1..] == list[1..][i - 1 := list[1..][i - 1].(usedAt := now)];
    } else {
      assert list[0 := list[0].(usedAt := now)][1..] == list[1..];
    }
  }

  /** The event redeemed this user's code and its caller was told so without an error. */
  predicate Redeemed(m: Model, e: Event, userID: string, proof: Bytes) {
    && e.Invoke? && e.call.OnRecovery? && e.call.recovery.ConsumeRecoveryCode?
    && e.call.recovery.userID == userID && e.call.recovery.proof == proof
    && CallStep(m, e.call, e.persists).1 == Consumed(true, None)
  }

  predicate Replaces(e: Event, userID: string) {
    e.Invoke? && e.call.OnRecovery? && e.call.recovery.SetRecoveryCodes? && e.call.recovery.userID == userID
  }

  /** Successful uses since the last `SetRecoveryCodes` call for the user. */
  function CountUses(events: seq<Event>, userID: string, proof: Bytes): nat {
    if events == [] then 0
    else
      var before, e := events[..|events| - 1], events[|events| - 1];
      if Replaces(e, userID) then 0
      else CountUses(before, userID, proof) + if Redeemed(RunFrom(Boot(), before), e, userID, proof) then 1 else 0
  }

  /** Every set stored for the user lists the proof at most k times, and the clock is never Go's zero time. */
  ghost predicate ListsAtMost(events: seq<Event>, userID: string, proof: Bytes, k: nat) {
    forall i :: 0 <= i < |events| && events[i].Invoke? && events[i].call.OnRecovery? ==>
      match events[i].call.recovery
      case SetRecoveryCodes(u, codes) => u == userID ==> CountUnused(codes, proof) <= k
      case ConsumeRecoveryCode(_, _, now) => now != ZERO_TIME
  }

  predicate RecoveryInvariant(m: Model, userID: string, proof: Bytes, uses: nat, k: nat) {
    && uses + CountUnused(RecoveryOf(m.memory.recovery, userID), proof) <= k
    && (m.disk.Some? ==> uses + CountUnused(RecoveryOf(m.disk.value.recovery, userID), proof) <= k)
  }

  lemma ConsumeKeepsRecoveryInvariant(m: Model, e: Event, userID: string, proof: Bytes, uses: nat, k: nat)
    requires RecoveryInvariant(m, userID, proof, uses, k) && uses <= k
    requires e.Invoke? && e.call.OnRecovery? && e.call.recovery.ConsumeRecoveryCode?
    requires e.call.recovery.now != ZERO_TIME
    ensures RecoveryInvariant(Next(m, e), userID, proof,
                              uses + (if Redeemed(m, e, userID, proof) then 1 else 0), k)
  {
    var call := e.call.recovery;
    var list := RecoveryOf(m.memory.recovery, call.userID);
    var i := RecoveryIndex(list, call.proof);
    if i < |list| {
      UseLowersCount(list, proof, call.proof, call.now);
      assert call.userID in m.memory.recovery;
      var n := Next(m, e);
      assert n.memory.recovery == m.memory.recovery[call.userID := list[i := list[i].(usedAt := call.now)]];
    }
  }

  lemma OtherEventKeepsRecoveryInvariant(m: Model, n: Model, userID: string, proof: Bytes, uses: nat, k: nat)
    requires RecoveryInvariant(m, userID, proof, uses, k)
    requires RecoveryOf(n.memory.recovery, userID) == RecoveryOf(m.memory.recovery, userID)
    requires n.disk == m.disk || n.disk == Some(Image(n.memory))
    ensures RecoveryInvariant(n, userID, proof, uses, k)
  {
  }

  lemma ReplaceKeepsRecoveryInvariant(m: Model, e: Event, userID: string, proof: Bytes, uses: nat, k: nat)
    requires RecoveryInvariant(m, userID, proof, uses, k)
    requires Replaces(e, userID) && CountUnused(e.call.recovery.codes, proof) <= k
    ensures RecoveryInvariant(Next(m, e), userID, proof, 0, k)
  {
  }

  lemma {:induction false} HistoryKeepsRecoveryInvariant(events: seq<Event>, userID: string, proof: Bytes, k: nat)
    requires ListsAtMost(events, userID, proof, k)
    ensures RecoveryInvariant(RunFrom(Boot(), events), userID, proof, CountUses(events, userID, proof), k)
    ensures CountUses(events, userID, proof) <= k
  {
    if events != [] {
      var before, e := events[..|events| - 1], events[|events| - 1];
      HistoryKeepsRecoveryInvariant(before, userID, proof, k);
      var m, uses := RunFrom(Boot(), before), CountUses(before, userID, proof);
      if e.Invoke? && e.call.OnRecovery? && e.call.recovery.ConsumeRecoveryCode? {
        ConsumeKeepsRecoveryInvariant(m, e, userID, proof, uses, k);
      } else if Replaces(e, userID) {
        ReplaceKeepsRecoveryInvariant(m, e, userID, proof, uses, k);
      } else if e.Invoke? {
        CallStepShape(m, e.call, e.persists);
        OtherEventKeepsRecoveryInvariant(m, Next(m, e), userID, proof, uses, k);
      }
    }
  }

  /** Over every history, a recovery code listed once is redeemed at most once between two replacements. */
  lemma RecoveryCodeUsedAtMostOnce(events: seq<Event>, userID: string, proof: Bytes)
    requires ListsAtMost(events, userID, proof, 1)
    ensures CountUses(events, userID, proof) <= 1
  {
    HistoryKeepsRecoveryInvariant(events, userID, proof, 1);
  }

  /** The clock condition is needed: a use recorded at Go's zero time leaves the code as it was. */
  lemma ZeroTimeUseLeavesCode(recovery: Recovery, userID: string, proof: Bytes)
    requires RecoveryIndex(RecoveryOf(recovery, userID), proof) < |RecoveryOf(recovery, userID)|
    ensures Contract.ConsumeRecoveryCode(recovery, userID, proof, ZERO_TIME) == (recovery, true)
  {
    var list := RecoveryOf(recovery, userID);
    var i := RecoveryIndex(list, proof);
    assert list[i := list[i].(usedAt := ZERO_TIME)] == list;
    assert recovery[userID := list] == recovery;
  }

  // ---------------------------------------------------------------- revoked sessions

  /** The session is kept in memory or in the image. */
  predicate Stored(m: Model, id: string, session: Session) {
    || (id in m.memory.sessions && m.memory.sessions[id] == session)
    || (m.disk.Some? && id in m.disk.value.sessions && m.disk.value.sessions[id] == session)
  }

  predicate Creates(e: Event, session: Session) {
    e.Invoke? && e.call == OnSessions(SessionCall.CreateSession(session))
  }

  predicate CreatedIn(events: seq<Event>, session: Session) {
    exists i :: 0 <= i < |events| && Creates(events[i], session)
  }

  lemma SessionCallAddsOnlyCreated(sessions: Sessions, call: SessionCall, id: string)
    requires var t := StepSessions(sessions, call).0; id in t
    ensures var t := StepSessions(sessions, call).0;
            || (id in sessions && t[id] == sessions[id])
            || (call == SessionCall.CreateSession(t[id]) && id == t[id].id)
  {
  }

  lemma CallStoresOnlyCreated(m: Model, n: Model, call: SessionCall, id: string, session: Session)
    requires n.memory.sessions == StepSessions(m.memory.sessions, call).0
    requires n.disk == m.disk || n.disk == Some(Image(n.memory))
    requires Stored(n, id, session)
    ensures Stored(m, id, session) || (call == SessionCall.CreateSession(session) && id == session.id)
  {
    if id in n.memory.sessions {
      SessionCallAddsOnlyCreated(m.memory.sessions, call, id);
    }
  }

  lemma StepStoresOnlyCreated(m: Model, e: Event, id: string, session: Session)
    requires Stored(Next(m, e), id, session)
    ensures Stored(m, id, session) || (Creates(e, session) && id == session.id)
  {
    if e.Invoke? {
      CallStepShape(m, e.call, e.persists);
      if e.call.OnSessions? {
        CallStoresOnlyCreated(m, Next(m, e), e.call.session, id, session);
      }
    }
  }

  /** Whatever the history after m, a stored session was stored in m or created since. */
  lemma {:induction false} StoredOnlyIfCreated(m: Model, events: seq<Event>, id: string, session: Session)
    requires Stored(RunFrom(m, events), id, session)
    ensures Stored(m, id, session) || (CreatedIn(events, session) && id == session.id)
  {
    if events != [] {
      var before, e := events[..|events| - 1], events[|events| - 1];
      StepStoresOnlyCreated(RunFrom(m, before), e, id, session);
      if Stored(RunFrom(m, before), id, session) {
        StoredOnlyIfCreated(m, before, id, session);
        if CreatedIn(before, session) {
          var i :| 0 <= i < |before| && Creates(before[i], session);
          assert Creates(events[i], session);
        }
      } else {
        assert Creates(events[|events| - 1], session);
      }
    }
  }

  /**
   A session of a user whose sessions were revoked without an error is never found again, whatever calls,
   failures and restarts follow, unless that very session is created anew.
   */
  lemma RevokedUserSessionsNeverReturn(
    m: Model, userID: string, persists: bool, after: seq<Event>, id: string, now: Time, p: bool)
    requires CallStep(m, OnSessions(SessionCall.RevokeUserSessions(userID)), persists).1 == Done
    ensures var revoked := CallStep(m, OnSessions(SessionCall.RevokeUserSessions(userID)), persists).0;
            var reply := CallStep(RunFrom(revoked, after), OnSessions(SessionCall.SessionByID(id, now)), p).1;
            reply.TheSession? && reply.session.userID == userID ==> CreatedIn(after, reply.session)
  {
    var revoked := CallStep(m, OnSessions(SessionCall.RevokeUserSessions(userID)), persists).0;
    var end := RunFrom(revoked, after);
    var reply := CallStep(end, OnSessions(SessionCall.SessionByID(id, now)), p).1;
    if reply.TheSession? && reply.session.userID == userID {
      StoredOnlyIfCreated(revoked, after, id, reply.session);
    }
  }

  /** The same for one session: after its revocation its id is unknown until a session is created under it. */
  lemma RevokedSessionNeverReturns(
    m: Model, id: string, persists: bool, after: seq<Event>, now: Time, p: bool)
    requires CallStep(m, OnSessions(SessionCall.RevokeSession(id)), persists).1 == Done
    requires forall s: Session :: s.id == id ==> !CreatedIn(after, s)
    ensures var revoked := CallStep(m, OnSessions(SessionCall.RevokeSession(id)), persists).0;
            CallStep(RunFrom(revoked, after), OnSessions(SessionCall.SessionByID(id, now)), p).1 == Failed(ErrNotFound)
  {
    var revoked := CallStep(m, OnSessions(SessionCall.RevokeSession(id)), persists).0;
    var end := RunFrom(revoked, after);
    if id in end.memory.sessions {
      StoredOnlyIfCreated(revoked, after, id, end.memory.sessions[id]);
    }
  }
}
