/** The lazily evicting session map agrees with the history of calls made on it. */
module SessionHistory {
  import opened Models
  import opened Contract = StoreContract
  import opened StoreCalls

  function After(calls: seq<SessionCall>): Sessions {
    if calls == [] then map[] else StepSessions(After(calls[..|calls| - 1]), calls[|calls| - 1]).0
  }

  function ReplyTo(calls: seq<SessionCall>, i: nat): Reply
    requires i < |calls|
  {
    StepSessions(After(calls[..i]), calls[i]).1
  }

  // ------------------------------------------------------------ what the history says, eviction aside

  /** Call i created the session, and the store accepted it. */
  predicate CreatesAt(calls: seq<SessionCall>, i: nat, session: Session)
    requires i < |calls|
  {
    calls[i] == SessionCall.CreateSession(session) && ReplyTo(calls, i) == Done
  }

  predicate Revokes(call: SessionCall, session: Session) {
    || call == SessionCall.RevokeSession(session.id)
    || call == SessionCall.RevokeUserSessions(session.userID)
  }

  /** The session was accepted at some call; no later call revoked it or was accepted under its id. */
  ghost predicate Granted(calls: seq<SessionCall>, session: Session) {
    exists i: nat :: i < |calls| && CreatesAt(calls, i, session) && StandsSince(calls, i, session)
  }

  ghost predicate StandsSince(calls: seq<SessionCall>, i: nat, session: Session) {
    forall j: nat :: i < j < |calls| ==>
      && !Revokes(calls[j], session)
      && !(calls[j].CreateSession? && calls[j].session.id == session.id && ReplyTo(calls, j) == Done)
  }

  /** The clock never runs backwards, and `now` is not before any earlier lookup. */
  ghost predicate ClockAdvances(calls: seq<SessionCall>, now: Time) {
    && (forall i, j :: 0 <= i < j < |calls| && calls[i].SessionByID? && calls[j].SessionByID? ==>
          calls[i].now <= calls[j].now)
    && (forall i :: 0 <= i < |calls| && calls[i].SessionByID? ==> calls[i].now <= now)
  }

  // ------------------------------------------------------------ one more call

  lemma RepliesKept(before: seq<SessionCall>, call: SessionCall)
    ensures After(before + [call]) == StepSessions(After(before), call).0
    ensures ReplyTo(before + [call], |before|) == StepSessions(After(before), call).1
    ensures forall i: nat :: i < |before| ==> ReplyTo(before + [call], i) == ReplyTo(before, i)
  {
    var calls := before + [call];
    assert calls[..|calls| - 1] == before && calls[..|before|] == before;
    forall i: nat | i < |before|
      ensures ReplyTo(calls, i) == ReplyTo(before, i)
    {
      assert calls[..i] == before[..i];
    }
  }

  /** A grant survives a call that neither revokes nor replaces it. */
  lemma GrantKept(before: seq<SessionCall>, call: SessionCall, session: Session)
    requires Granted(before, session) && !Revokes(call, session)
    requires call.CreateSession? && call.session.id == session.id ==> StepSessions(After(before), call).1 != Done
    ensures Granted(before + [call], session)
  {
    RepliesKept(before, call);
    var i: nat :| i < |before| && CreatesAt(before, i, session) && StandsSince(before, i, session);
    assert CreatesAt(before + [call], i, session);
    forall j: nat | i < j < |before + [call]|
      ensures !Revokes((before + [call])[j], session)
      ensures !((before + [call])[j].CreateSession? && (before + [call])[j].session.id == session.id
                && ReplyTo(before + [call], j) == Done)
    {
      if j < |before| {
        assert (before + [call])[j] == before[j];
      }
    }
  }

  /** And a grant after a call was there before, or is this call's own. */
  lemma GrantFrom(before: seq<SessionCall>, call: SessionCall, session: Session)
    requires Granted(before + [call], session)
    ensures (call == SessionCall.CreateSession(session) && StepSessions(After(before), call).1 == Done)
            || (Granted(before, session) && !Revokes(call, session)
                && !(call.CreateSession? && call.session.id == session.id
                     && StepSessions(After(before), call).1 == Done))
  {
    RepliesKept(before, call);
    var calls := before + [call];
    var i: nat :| i < |calls| && CreatesAt(calls, i, session) && StandsSince(calls, i, session);
    if i < |before| {
      assert CreatesAt(before, i, session);
      forall j: nat | i < j < |before|
        ensures !Revokes(before[j], session)
        ensures !(before[j].CreateSession? && before[j].session.id == session.id && ReplyTo(before, j) == Done)
      {
        assert calls[j] == before[j] && ReplyTo(calls, j) == ReplyTo(before, j);
      }
      assert StandsSince(before, i, session);
      assert calls[|before|] == call;
    }
  }

  lemma GrantNew(before: seq<SessionCall>, session: Session)
    requires StepSessions(After(before), SessionCall.CreateSession(session)).1 == Done
    ensures Granted(before + [SessionCall.CreateSession(session)], session)
  {
    var call := SessionCall.CreateSession(session);
    RepliesKept(before, call);
    assert CreatesAt(before + [call], |before|, session);
    assert StandsSince(before + [call], |before|, session);
  }

  // ------------------------------------------------------------ agreement

  /** What is stored was granted, and what was granted and has not expired is stored. */
  ghost predicate MapAgrees(calls: seq<SessionCall>, id: string, now: Time) {
    var stored := After(calls);
    && (id in stored ==> stored[id].id == id && Granted(calls, stored[id]))
    && (forall s: Session :: Granted(calls, s) && s.id == id && now < s.expiresAt ==> id in stored && stored[id] == s)
  }

  lemma LookupCallKeepsAgreement(before: seq<SessionCall>, call: SessionCall, id: string, now: Time)
    requires call.SessionByID? && call.now <= now && MapAgrees(before, id, now)
    ensures MapAgrees(before + [call], id, now)
  {
    RepliesKept(before, call);
    var stored := After(before + [call]);
    if id in stored {
      GrantKept(before, call, stored[id]);
    }
    forall s: Session | Granted(before + [call], s) && s.id == id && now < s.expiresAt
      ensures id in stored && stored[id] == s
    {
      GrantFrom(before, call, s);
    }
  }

  lemma CreateCallKeepsAgreement(before: seq<SessionCall>, call: SessionCall, id: string, now: Time)
    requires call.CreateSession? && MapAgrees(before, id, now)
    ensures MapAgrees(before + [call], id, now)
  {
    RepliesKept(before, call);
    var stored := After(before + [call]);
    if call.session.id == id && StepSessions(After(before), call).1 == Done {
      GrantNew(before, call.session);
    } else if id in stored {
      GrantKept(before, call, stored[id]);
    }
    forall s: Session | Granted(before + [call], s) && s.id == id && now < s.expiresAt
      ensures id in stored && stored[id] == s
    {
      GrantFrom(before, call, s);
    }
  }

  lemma RevokeCallKeepsAgreement(before: seq<SessionCall>, call: SessionCall, id: string, now: Time)
    requires (call.RevokeSession? || call.RevokeUserSessions?) && MapAgrees(before, id, now)
    ensures MapAgrees(before + [call], id, now)
  {
    RepliesKept(before, call);
    var stored := After(before + [call]);
    if id in stored {
      GrantKept(before, call, stored[id]);
    }
    forall s: Session | Granted(before + [call], s) && s.id == id && now < s.expiresAt
      ensures id in stored && stored[id] == s
    {
      GrantFrom(before, call, s);
    }
  }

  lemma {:induction false} HistoryAgrees(calls: seq<SessionCall>, id: string, now: Time)
    requires ClockAdvances(calls, now)
    ensures MapAgrees(calls, id, now)
  {
    if calls != [] {
      var before, call := calls[..|calls| - 1], calls[|calls| - 1];
      HistoryAgrees(before, id, now);
      assert calls == before + [call];
      match call
      case SessionByID(_, _) => LookupCallKeepsAgreement(before, call, id, now);
      case CreateSession(_) => CreateCallKeepsAgreement(before, call, id, now);
      case _ => RevokeCallKeepsAgreement(before, call, id, now);
    }
  }

  /**
   Under an advancing clock a lookup finds a session exactly when the history granted it and it has not expired;
   evicting expired entries on earlier lookups never shows.
   */
  lemma LookupFollowsHistory(calls: seq<SessionCall>, id: string, now: Time, session: Session)
    requires ClockAdvances(calls, now)
    ensures Contract.SessionByID(After(calls), id, now).1 == Ok(session)
            <==> Granted(calls, session) && session.id == id && now < session.expiresAt
  {
    HistoryAgrees(calls, id, now);
  }

  // ------------------------------------------------------------ inside a run of the whole store

  function SessionCalls(calls: seq<Call>): seq<SessionCall> {
    if calls == [] then []
    else
      SessionCalls(calls[..|calls| - 1]) +
      (if calls[|calls| - 1].OnSessions? then [calls[|calls| - 1].session] else [])
  }

  /** Calls on other parts of the store leave the session map alone, so its history is that of its own calls. */
  lemma {:induction false} RunKeepsSessionHistory<K>(calls: seq<Call>, key: Bytes -> K)
    ensures Run(Empty<K>(), calls, key).sessions == After(SessionCalls(calls))
  {
    hide StepUsers, StepPasswords, StepPasskeys, StepTOTP, StepRecovery, StepCodes, StepSessions;
    if calls != [] {
      var before, call := calls[..|calls| - 1], calls[|calls| - 1];
      RunKeepsSessionHistory(before, key);
      if call.OnSessions? {
        RepliesKept(SessionCalls(before), call.session);
      } else {
        assert SessionCalls(calls) == SessionCalls(before);
      }
    }
  }
}
