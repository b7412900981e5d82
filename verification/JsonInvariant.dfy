/** The store invariant through failed writes, rollbacks and restarts, and when a rollback is exact. */
module JsonInvariant {
  import opened Models
  import opened Contract = StoreContract
  import opened StoreCalls
  import opened StoreInvariant
  import opened JsonContract

  ghost predicate ModelWellFormed(m: Model) {
    WellFormed(m.memory) && (m.disk.Some? ==> WellFormed(m.disk.value))
  }

  lemma ImageKeepsWellFormed(s: JState)
    requires WellFormed(s)
    ensures WellFormed(Image(s))
  {
    assert Image(s).users.Keys == s.users.Keys;
  }

  /**
   Undoing a creation restores the state exactly when the new user's id had no password entry before: the
   rollback deletes that entry in any case.
   */
  lemma RollbackExactIff(s: JState, input: NewUser, password: Option<PasswordCredential>, now: Time)
    requires CanCreate(s, input, WebAuthnKey(input.webAuthnID))
    ensures var key := WebAuthnKey(input.webAuthnID);
            var created := if password.None? then Contract.CreateUser(s, input, key, now).0
                           else Contract.CreatePasswordUser(s, input, key, password.value, now).0;
            RollBack(created, input) == s <==> input.id !in s.passwords
  {
    var key := WebAuthnKey(input.webAuthnID);
    assert s.users[input.id := UserFrom(input, now)] - {input.id} == s.users;
    assert s.identifiers[input.identifier := input.id] - {input.identifier} == s.identifiers;
    assert s.webAuthnIDs[key := input.id] - {key} == s.webAuthnIDs;
    if password.Some? {
      assert s.passwords[input.id := password.value] - {input.id} == s.passwords - {input.id};
    }
    assert s.passwords - {input.id} == s.passwords <==> input.id !in s.passwords;
  }

  lemma FailedCreateRestores(m: Model, call: UserCall)
    requires WellFormed(m.memory) && (call.CreateUser? || call.CreatePasswordUser?)
    requires CallStep(m, OnUsers(call), false).1 == Failed(ErrPersist)
    ensures CallStep(m, OnUsers(call), false).0 == m
  {
    match call
    case CreateUser(input, now) => RollbackExactIff(m.memory, input, None, now);
    case CreatePasswordUser(input, password, now) => RollbackExactIff(m.memory, input, Some(password), now);
  }

  lemma CallKeepsModelWellFormed(m: Model, call: Call, persists: bool)
    requires ModelWellFormed(m)
    ensures ModelWellFormed(CallStep(m, call, persists).0)
  {
    var (t, r) := Step(m.memory, call, WebAuthnKey);
    StepKeepsWellFormed(m.memory, call, WebAuthnKey);
    ImageKeepsWellFormed(t);
    if call.OnUsers? && (call.user.CreateUser? || call.user.CreatePasswordUser?) && Persists(call, r) && !persists {
      FailedCreateRestores(m, call.user);
    } else {
      assert AfterPersistFailure(call, t) == t || !Persists(call, r) || persists;
    }
  }

  lemma EmptyIsWellFormed()
    ensures WellFormed(Empty<string>()) && Image(Empty()) == Empty()
  {
  }

  /** Every model the JSON store can reach, through any calls, failures and restarts, is well formed. */
  lemma {:induction false} ReachableModelIsWellFormed(events: seq<Event>)
    ensures ModelWellFormed(RunFrom(Boot(), events))
  {
    EmptyIsWellFormed();
    if events != [] {
      var m, e := RunFrom(Boot(), events[..|events| - 1]), events[|events| - 1];
      ReachableModelIsWellFormed(events[..|events| - 1]);
      match e
      case Invoke(call, persists) => CallKeepsModelWellFormed(m, call, persists);
      case Restart(_) =>
    }
  }

  /** In every reachable model a creation whose write fails leaves memory and image as they were. */
  lemma FailedCreateChangesNothing(events: seq<Event>, call: UserCall)
    requires call.CreateUser? || call.CreatePasswordUser?
    requires CallStep(RunFrom(Boot(), events), OnUsers(call), false).1 == Failed(ErrPersist)
    ensures CallStep(RunFrom(Boot(), events), OnUsers(call), false).0 == RunFrom(Boot(), events)
  {
    ReachableModelIsWellFormed(events);
    FailedCreateRestores(RunFrom(Boot(), events), call);
  }
}
