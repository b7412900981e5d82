/** What every store operation keeps: the indexes and the users map describe the same set of users. */
module StoreInvariant {
  import opened Models
  import opened Contract = StoreContract
  import opened StoreCalls

  /** Each user has its identifier indexed, and each indexed identifier belongs to the user it names. */
  ghost predicate IdentifiersMatch(users: map<string, User>, identifiers: map<string, string>) {
    && (forall u :: u in users ==>
          users[u].id == u && users[u].identifier in identifiers && identifiers[users[u].identifier] == u)
    && (forall i :: i in identifiers ==>
          identifiers[i] in users && users[identifiers[i]].identifier == i)
  }

  /** Index keys and users correspond one to one. */
  ghost predicate IndexIsBijection<K(!new)>(users: set<string>, index: map<K, string>) {
    && (forall k :: k in index ==> index[k] in users)
    && (forall k, l :: k in index && l in index && index[k] == index[l] ==> k == l)
    && (forall u :: u in users ==> exists k :: k in index && index[k] == u)
  }

  /** No two stored passkeys share an id, whoever owns them. */
  ghost predicate PasskeysUnique(passkeys: Passkeys) {
    forall u, v, i, j ::
      (&& u in passkeys && 0 <= i < |passkeys[u]|
       && v in passkeys && 0 <= j < |passkeys[v]|
       && passkeys[u][i].id == passkeys[v][j].id) ==> u == v && i == j
  }

  /** Codes and sessions are stored under their own ids. */
  ghost predicate CodesFiled(codes: map<string, OneTimeCode>) {
    forall id :: id in codes ==> codes[id].id == id
  }

  ghost predicate SessionsFiled(sessions: map<string, Session>) {
    forall id :: id in sessions ==> sessions[id].id == id
  }

  /** The whole invariant; credentials are only kept for users that exist. */
  ghost predicate WellFormed<K(!new)>(s: State<K>) {
    && IdentifiersMatch(s.users, s.identifiers)
    && IndexIsBijection(s.users.Keys, s.webAuthnIDs)
    && s.passwords.Keys <= s.users.Keys
    && s.passkeys.Keys <= s.users.Keys
    && s.totp.Keys <= s.users.Keys
    && s.recovery.Keys <= s.users.Keys
    && PasskeysUnique(s.passkeys)
    && CodesFiled(s.codes)
    && SessionsFiled(s.sessions)
  }

  /** In the memory store the index key of a user is that user's own WebAuthn id. */
  ghost predicate IndexedByOwnID(users: map<string, User>, index: map<Bytes, string>) {
    && (forall u :: u in users ==> users[u].webAuthnID in index && index[users[u].webAuthnID] == u)
    && (forall k :: k in index ==> index[k] in users && users[index[k]].webAuthnID == k)
  }

  lemma InsertKeepsBijection<K(!new)>(users: set<string>, index: map<K, string>, u: string, key: K)
    requires IndexIsBijection(users, index) && u !in users && key !in index
    ensures IndexIsBijection(users + {u}, index[key := u])
  {
    var t := index[key := u];
    forall v | v in users + {u}
      ensures exists k :: k in t && t[k] == v
    {
      if v == u {
        assert key in t && t[key] == v;
      } else {
        var k :| k in index && index[k] == v;
        assert k in t && t[k] == v;
      }
    }
  }

  lemma CreateUserKeepsWellFormed<K(!new)>(s: State<K>, input: NewUser, key: K, now: Time)
    requires WellFormed(s)
    ensures WellFormed(Contract.CreateUser(s, input, key, now).0)
  {
    if CanCreate(s, input, key) {
      var t := Contract.CreateUser(s, input, key, now).0;
      assert t.users.Keys == s.users.Keys + {input.id};
      InsertKeepsBijection(s.users.Keys, s.webAuthnIDs, input.id, key);
      assert IdentifiersMatch(t.users, t.identifiers);
    }
  }

  lemma SetUserVerifiedKeepsWellFormed<K(!new)>(s: State<K>, userID: string, verified: bool)
    requires WellFormed(s)
    ensures WellFormed(Contract.SetUserVerified(s, userID, verified).0)
  {
    assert Contract.SetUserVerified(s, userID, verified).0.users.Keys == s.users.Keys;
  }

  lemma UserStepKeepsWellFormed<K(!new)>(s: State<K>, call: UserCall, key: Bytes -> K)
    requires WellFormed(s)
    ensures WellFormed(StepUsers(s, call, key).0)
  {
    match call
    case CreateUser(input, now) => CreateUserKeepsWellFormed(s, input, key(input.webAuthnID), now);
    case CreatePasswordUser(input, password, now) =>
      CreateUserKeepsWellFormed(s, input, key(input.webAuthnID), now);
    case SetUserVerified(userID, verified) => SetUserVerifiedKeepsWellFormed(s, userID, verified);
    case _ =>
  }

  lemma SavePasskeyKeepsUnique(users: set<string>, passkeys: Passkeys, userID: string, credential: PasskeyCredential)
    requires PasskeysUnique(passkeys)
    ensures PasskeysUnique(Contract.SavePasskey(users, passkeys, userID, credential).0)
  {
    if userID in users && !PasskeyTaken(passkeys, credential.id) {
      forall u, i | u in passkeys && 0 <= i < |passkeys[u]|
        ensures passkeys[u][i].id != credential.id
      {
        assert !HasPasskey(passkeys[u], credential.id);
      }
    }
  }

  lemma UpdatePasskeyKeepsUnique(passkeys: Passkeys, userID: string, credential: PasskeyCredential, previous: nat)
    requires PasskeysUnique(passkeys)
    ensures PasskeysUnique(Contract.UpdatePasskey(passkeys, userID, credential, previous).0)
  {
    var list := PasskeysOf(passkeys, userID);
    var d := PasskeyIndex(list, credential.id);
    if d < |list| {
      forall i | 0 <= i < |list|
        ensures list[d := credential][i].id == list[i].id
      {
      }
    }
  }

  lemma DeletePasskeyKeepsUnique(passkeys: Passkeys, userID: string, id: Bytes)
    requires PasskeysUnique(passkeys)
    ensures PasskeysUnique(Contract.DeletePasskey(passkeys, userID, id).0)
  {
    var list := PasskeysOf(passkeys, userID);
    var d := PasskeyIndex(list, id);
    if d < |list| {
      var t := Contract.DeletePasskey(passkeys, userID, id).0;
      forall i | 0 <= i < |t[userID]|
        ensures t[userID][i] == list[if i < d then i else i + 1]
      {
      }
    }
  }

  lemma PasskeyStepKeepsUnique(users: set<string>, passkeys: Passkeys, call: PasskeyCall)
    requires PasskeysUnique(passkeys) && passkeys.Keys <= users
    ensures var t := StepPasskeys(users, passkeys, call).0; PasskeysUnique(t) && t.Keys <= users
  {
    match call
    case SavePasskey(userID, credential) => SavePasskeyKeepsUnique(users, passkeys, userID, credential);
    case UpdatePasskey(userID, credential, previous) =>
      UpdatePasskeyKeepsUnique(passkeys, userID, credential, previous);
    case DeletePasskey(userID, id) => DeletePasskeyKeepsUnique(passkeys, userID, id);
    case Passkeys(_) =>
  }

  lemma CodeStepKeepsFiled(codes: Codes, call: CodeCall)
    requires CodesFiled(codes)
    ensures CodesFiled(StepCodes(codes, call).0)
  {
  }

  lemma SessionStepKeepsFiled(sessions: Sessions, call: SessionCall)
    requires SessionsFiled(sessions)
    ensures SessionsFiled(StepSessions(sessions, call).0)
  {
  }

  lemma RecoveryStepKeepsOwners(users: set<string>, recovery: Recovery, call: RecoveryCall)
    requires recovery.Keys <= users
    ensures StepRecovery(users, recovery, call).0.Keys <= users
  {
  }

  /** Every operation of the contract keeps the invariant, for either index key. */
  lemma StepKeepsWellFormed<K(!new)>(s: State<K>, call: Call, key: Bytes -> K)
    requires WellFormed(s)
    ensures WellFormed(Step(s, call, key).0)
  {
    match call
    case OnUsers(c) => UserStepKeepsWellFormed(s, c, key);
    case OnPasskeys(c) => PasskeyStepKeepsUnique(s.users.Keys, s.passkeys, c);
    case OnCodes(c) => CodeStepKeepsFiled(s.codes, c);
    case OnSessions(c) => SessionStepKeepsFiled(s.sessions, c);
    case OnRecovery(c) => RecoveryStepKeepsOwners(s.users.Keys, s.recovery, c);
    case OnPasswords(c) =>
    case OnTOTP(c) =>
  }

  lemma UserStepKeepsIndexedByOwnID(s: State<Bytes>, call: UserCall)
    requires IndexedByOwnID(s.users, s.webAuthnIDs)
    ensures var t := StepUsers(s, call, Raw).0; IndexedByOwnID(t.users, t.webAuthnIDs)
  {
  }

  lemma StepKeepsIndexedByOwnID(s: State<Bytes>, call: Call)
    requires IndexedByOwnID(s.users, s.webAuthnIDs)
    ensures var t := Step(s, call, Raw).0; IndexedByOwnID(t.users, t.webAuthnIDs)
  {
    match call
    case OnUsers(c) => UserStepKeepsIndexedByOwnID(s, c);
    case _ =>
  }

  /** Every state the memory store can reach, from empty and by any calls, satisfies the whole invariant. */
  lemma {:induction false} ReachableIsWellFormed(calls: seq<Call>)
    ensures var s := Run(Empty<Bytes>(), calls, Raw);
            WellFormed(s) && IndexedByOwnID(s.users, s.webAuthnIDs)
  {
    if calls != [] {
      var before := Run(Empty<Bytes>(), calls[..|calls| - 1], Raw);
      ReachableIsWellFormed(calls[..|calls| - 1]);
      StepKeepsWellFormed(before, calls[|calls| - 1], Raw);
      StepKeepsIndexedByOwnID(before, calls[|calls| - 1]);
    }
  }
}
