/**
 Revocations whose write failed, over every history of calls, failed writes and restarts: exactly when a session that
 was taken away comes back.
 */
module FailedRevocations {
  import opened Models
  import opened Contract = StoreContract
  import opened StoreCalls
  import opened JsonContract

  /** Memory and image hold the same session under this id. */
  predicate Agree(m: Model, id: string) {
    && id in m.memory.sessions && m.disk.Some? && id in m.disk.value.sessions
    && m.disk.value.sessions[id] == m.memory.sessions[id]
  }

  predicate CreatesUnder(e: Event, id: string) {
    e.Invoke? && e.call.OnSessions? && e.call.session.CreateSession? && e.call.session.session.id == id
  }

  /** Ids are never used again. */
  ghost predicate NeverCreated(events: seq<Event>, id: string) {
    forall i :: 0 <= i < |events| ==> !CreatesUnder(events[i], id)
  }

  /** The call took the session from memory, and the image was not written. */
  predicate UnwrittenRemoval(m: Model, e: Event, id: string) {
    e.Invoke? && !Writes(m, e) && id in m.memory.sessions && id !in Next(m, e).memory.sessions
  }

  /** Some call did that; nothing wrote or reloaded the image since. */
  ghost predicate RemovalPending(m: Model, events: seq<Event>, id: string) {
    exists i :: 0 <= i < |events| && UnwrittenRemoval(RunFrom(m, events[..i]), events[i], id)
                && UntouchedSince(m, events, i)
  }

  // ------------------------------------------------------------ one event

  /** Revoking a session or its user's sessions without being able to write is reported, and is such a removal. */
  lemma FailedRevocationIsRemoval(m: Model, call: SessionCall, id: string)
    requires id in m.memory.sessions
    requires call == RevokeSession(id) || call == RevokeUserSessions(m.memory.sessions[id].userID)
    ensures CallStep(m, OnSessions(call), false).1 == Failed(ErrPersist)
    ensures UnwrittenRemoval(m, Invoke(OnSessions(call), false), id)
  {
  }

  /** A call that creates nothing under the id can only take its session away; the image is copied or stays. */
  lemma CallOnSession(m: Model, call: Call, persists: bool, id: string)
    requires !CreatesUnder(Invoke(call, persists), id)
    ensures var n := CallStep(m, call, persists).0;
            && (id in n.memory.sessions ==>
                  id in m.memory.sessions && n.memory.sessions[id] == m.memory.sessions[id])
            && (if Writes(m, Invoke(call, persists)) then n.disk == Some(Image(n.memory)) else n.disk == m.disk)
  {
    CallStepShape(m, call, persists);
  }

  lemma Lookup(m: Model, id: string, now: Time, persists: bool)
    ensures var reply := CallStep(m, OnSessions(SessionByID(id, now)), persists).1;
            && (id !in m.memory.sessions ==> reply == Failed(ErrNotFound))
            && (id in m.memory.sessions && now < m.memory.sessions[id].expiresAt ==>
                  reply == TheSession(m.memory.sessions[id]))
  {
  }

  // ------------------------------------------------------------ whole histories

  lemma PendingAfter(m: Model, before: seq<Event>, e: Event, id: string)
    ensures RemovalPending(m, before + [e], id)
            <==> UnwrittenRemoval(RunFrom(m, before), e, id)
                 || (e.Invoke? && !Writes(RunFrom(m, before), e) && RemovalPending(m, before, id))
  {
    hide UnwrittenRemoval, Writes, RunFrom;
    var events, n := before + [e], |before|;
    assert events[..n] == before && events[n] == e && UntouchedSince(m, events, n);
    hide UntouchedSince;
    forall i | 0 <= i < n
      ensures UnwrittenRemoval(RunFrom(m, events[..i]), events[i], id) && UntouchedSince(m, events, i)
              <==> UnwrittenRemoval(RunFrom(m, before[..i]), before[i], id) && UntouchedSince(m, before, i)
                   && e.Invoke? && !Writes(RunFrom(m, before), e)
    {
      assert events[..i] == before[..i] && events[i] == before[i];
      UntouchedAfter(m, before, e, i);
    }
  }

  /** What is kept of the session: memory's copy is also the image's, and the image's is the one it started with. */
  predicate Kept(m: Model, n: Model, id: string)
    requires id in m.memory.sessions
  {
    && n.disk.Some?
    && (id in n.memory.sessions ==> id in n.disk.value.sessions)
    && (id in n.memory.sessions ==> n.memory.sessions[id] == m.memory.sessions[id])
    && (id in n.disk.value.sessions ==> n.disk.value.sessions[id] == m.memory.sessions[id])
  }

  lemma EventKeeps(m: Model, n: Model, e: Event, id: string)
    requires id in m.memory.sessions && Kept(m, n, id) && !CreatesUnder(e, id)
    ensures Kept(m, Next(n, e), id)
    ensures var v := Next(n, e);
            id in v.disk.value.sessions && id !in v.memory.sessions <==>
            || UnwrittenRemoval(n, e, id)
            || (e.Invoke? && !Writes(n, e) && id in n.disk.value.sessions && id !in n.memory.sessions)
  {
    if e.Invoke? {
      CallOnSession(n, e.call, e.persists, id);
    }
    hide CallStep, Writes;
  }

  /** Only the image still holds the session exactly while its unwritten removal is pending. */
  lemma {:induction false} OnlyInImageIffPending(m: Model, events: seq<Event>, id: string)
    requires Agree(m, id) && NeverCreated(events, id)
    ensures var n := RunFrom(m, events);
            && Kept(m, n, id)
            && (id in n.disk.value.sessions && id !in n.memory.sessions <==> RemovalPending(m, events, id))
  {
    hide Next, Writes, UnwrittenRemoval;
    if events != [] {
      var before, e := events[..|events| - 1], events[|events| - 1];
      OnlyInImageIffPending(m, before, id);
      EventKeeps(m, RunFrom(m, before), e, id);
      PendingAfter(m, before, e, id);
      assert events == before + [e];
      hide RemovalPending;
    }
  }

  /**
   A session that memory no longer holds comes back at an event if and only if that event is a restart while a removal
   that was not written is pending: no successful write and no other restart came in between. It comes back unchanged.
   */
  lemma SessionReturnsIff(m: Model, events: seq<Event>, e: Event, id: string)
    requires Agree(m, id) && NeverCreated(events, id) && !CreatesUnder(e, id)
    ensures var n := RunFrom(m, events);
            && (id !in n.memory.sessions && id in Next(n, e).memory.sessions
                <==> e.Restart? && RemovalPending(m, events, id))
            && (id in Next(n, e).memory.sessions ==> Next(n, e).memory.sessions[id] == m.memory.sessions[id])
  {
    var n := RunFrom(m, events);
    OnlyInImageIffPending(m, events, id);
    EventKeeps(m, n, e, id);
    if e.Invoke? {
      CallOnSession(n, e.call, e.persists, id);
    }
    hide CallStep, Writes, RemovalPending, UnwrittenRemoval;
  }

  /**
   Such a history: the revocation of a user's sessions returns an error, the session is not found any more, calls that
   write nothing follow, and after a restart the session is found again until it expires.
   */
  lemma UnpersistedRevocationIsUndone(m: Model, events: seq<Event>, id: string, now: Time, p: bool, q: bool)
    requires Agree(m, id) && NeverCreated(events, id) && now < m.memory.sessions[id].expiresAt
    requires var revoke := OnSessions(RevokeUserSessions(m.memory.sessions[id].userID));
             UntouchedSince(m, [Invoke(revoke, false)] + events, 0)
    ensures var revoke := OnSessions(RevokeUserSessions(m.memory.sessions[id].userID));
            var (failed, reply) := CallStep(m, revoke, false);
            var restarted := Next(RunFrom(m, [Invoke(revoke, false)] + events), Restart(p));
            && reply == Failed(ErrPersist)
            && CallStep(failed, OnSessions(SessionByID(id, now)), q).1 == Failed(ErrNotFound)
            && CallStep(restarted, OnSessions(SessionByID(id, now)), q).1 == TheSession(m.memory.sessions[id])
  {
    var call := RevokeUserSessions(m.memory.sessions[id].userID);
    var history := [Invoke(OnSessions(call), false)] + events;
    FailedRevocationIsRemoval(m, call, id);
    assert history[..0] == [] && UnwrittenRemoval(RunFrom(m, history[..0]), history[0], id);
    assert RemovalPending(m, history, id);
    hide RunFrom, RemovalPending, UntouchedSince, CallStep, Next, Contract.RevokeUserSessions;
    SessionReturnsIff(m, history, Restart(p), id);
    Lookup(CallStep(m, OnSessions(call), false).0, id, now, q);
    Lookup(Next(RunFrom(m, history), Restart(p)), id, now, q);
  }
}
