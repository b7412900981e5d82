/** The JSON file store: one state value in memory and its image on disk. */
module JsonStores {
  import opened Models
  import opened StoreCalls
  import opened JsonContract
  import Contract = StoreContract

  function CreateCall(input: NewUser, password: Option<PasswordCredential>, now: Time): Call {
    if password.Some? then OnUsers(UserCall.CreatePasswordUser(input, password.value, now))
    else OnUsers(UserCall.CreateUser(input, now))
  }

  /** What `CallStep` comes to for the two creating calls. */
  lemma CreateCallStep(
    m: JsonContract.Model, input: NewUser, password: Option<PasswordCredential>, now: Time, persists: bool)
    ensures var call := CreateCall(input, password, now);
            var t := Step(m.memory, call, WebAuthnKey).0;
            CallStep(m, call, persists) ==
            if !Contract.CanCreate(m.memory, input, WebAuthnKey(input.webAuthnID)) then (m, Failed(ErrConflict))
            else if persists then
              (JsonContract.Model(t, Some(Image(t))), TheUser(CloneUser(Contract.UserFrom(input, now))))
            else (m.(memory := RollBack(t, input)), Failed(ErrPersist))
  {
  }

  class JsonStore {
    var state: JState
    var disk: Option<JState>

    ghost function Model(): JsonContract.Model
      reads this
    {
      JsonContract.Model(state, disk)
    }

    constructor (image: Option<JState>)
      ensures Model() == JsonContract.Model(if image.Some? then image.value else Contract.Empty(), image)
    {
      state := if image.Some? then image.value else Contract.Empty();
      disk := image;
    }

    /** Replaces the image in one step, or leaves it alone and reports an error. */
    method PersistLocked(persists: bool) returns (failure: Option<Error>)
      modifies this`disk
      ensures disk == if persists then Some(Image(state)) else old(disk)
      ensures failure == if persists then None else Some(ErrPersist)
    {
      if !persists {
        return Some(ErrPersist);
      }
      disk := Some(Image(state));
      return None;
    }

    method Persisted(persists: bool) returns (r: Result<()>)
      modifies this`disk
      ensures disk == if persists then Some(Image(state)) else old(disk)
      ensures r == if persists then Ok(()) else Err(ErrPersist)
    {
      var failure := PersistLocked(persists);
      return if failure.None? then Ok(()) else Err(failure.value);
    }

    // -------------------------------------------------------------- users

    method CreateUserLocked(input: NewUser, password: Option<PasswordCredential>, now: Time, persists: bool)
      returns (r: Result<User>)
      modifies this
      ensures (Model(), OfUser(r)) == CallStep(old(Model()), CreateCall(input, password, now), persists)
    {
      CreateCallStep(Model(), input, password, now, persists);
      if input.id == "" || input.identifier == "" || |input.webAuthnID| == 0 {
        return Err(ErrConflict);
      }
      if input.id in state.users {
        return Err(ErrConflict);
      }
      if input.identifier in state.identifiers {
        return Err(ErrConflict);
      }
      var key := WebAuthnKey(input.webAuthnID);
      if key in state.webAuthnIDs {
        return Err(ErrConflict);
      }
      var user := User(input.id, input.identifier, input.displayName, input.webAuthnID, false, false, now);
      state := state.(users := state.users[user.id := user]);
      state := state.(identifiers := state.identifiers[user.identifier := user.id]);
      state := state.(webAuthnIDs := state.webAuthnIDs[key := user.id]);
      if password.Some? {
        state := state.(passwords := state.passwords[user.id := password.value]);
      }
      assert state == Step(old(state), CreateCall(input, password, now), WebAuthnKey).0;
      var failure := PersistLocked(persists);
      if failure.Some? {
        state := state.(users := state.users - {user.id});
        state := state.(identifiers := state.identifiers - {user.identifier});
        state := state.(webAuthnIDs := state.webAuthnIDs - {key});
        state := state.(passwords := state.passwords - {user.id});
        return Err(failure.value);
      }
      return Ok(CloneUser(user));
    }

    method CreateUser(input: NewUser, now: Time, persists: bool) returns (r: Result<User>)
      modifies this
      ensures (Model(), OfUser(r)) == CallStep(old(Model()), OnUsers(UserCall.CreateUser(input, now)), persists)
    {
      r := CreateUserLocked(input, None, now, persists);
    }

    method CreatePasswordUser(input: NewUser, password: PasswordCredential, now: Time, persists: bool)
      returns (r: Result<User>)
      modifies this
      ensures (Model(), OfUser(r)) ==
              CallStep(old(Model()), OnUsers(UserCall.CreatePasswordUser(input, password, now)), persists)
    {
      r := CreateUserLocked(input, Some(password), now, persists);
    }

    method UserByID(id: string) returns (r: Result<User>)
      ensures forall p :: (Model(), OfUser(r)) == CallStep(Model(), OnUsers(UserCall.UserByID(id)), p)
    {
      if id !in state.users {
        return Err(ErrNotFound);
      }
      return Ok(CloneUser(state.users[id]));
    }

    method UserByIdentifier(identifier: string) returns (r: Result<User>)
      ensures forall p :: (Model(), OfUser(r)) == CallStep(Model(), OnUsers(UserCall.UserByIdentifier(identifier)), p)
    {
      if identifier !in state.identifiers {
        return Err(ErrNotFound);
      }
      return Ok(CloneUser(Contract.UserOrZero(state, state.identifiers[identifier])));
    }

    method UserByWebAuthnID(webAuthnID: Bytes) returns (r: Result<User>)
      ensures forall p :: (Model(), OfUser(r)) == CallStep(Model(), OnUsers(UserCall.UserByWebAuthnID(webAuthnID)), p)
    {
      var key := WebAuthnKey(webAuthnID);
      if key !in state.webAuthnIDs {
        return Err(ErrNotFound);
      }
      return Ok(CloneUser(Contract.UserOrZero(state, state.webAuthnIDs[key])));
    }

    method SetUserVerified(userID: string, verified: bool, persists: bool) returns (r: Result<()>)
      modifies this
      ensures (Model(), OfUnit(r)) ==
              CallStep(old(Model()), OnUsers(UserCall.SetUserVerified(userID, verified)), persists)
    {
      if userID !in state.users {
        return Err(ErrNotFound);
      }
      var user := state.users[userID].(verified := verified);
      state := state.(users := state.users[userID := user]);
      r := Persisted(persists);
    }

    method SetPassword(userID: string, credential: PasswordCredential, persists: bool) returns (r: Result<()>)
      modifies this
      ensures (Model(), OfUnit(r)) ==
              CallStep(old(Model()), OnPasswords(PasswordCall.SetPassword(userID, credential)), persists)
    {
      if userID !in state.users {
        return Err(ErrNotFound);
      }
      state := state.(passwords := state.passwords[userID := credential]);
      r := Persisted(persists);
    }

    method Password(userID: string) returns (r: Result<PasswordCredential>)
      ensures forall p :: (Model(), OfPassword(r)) == CallStep(Model(), OnPasswords(PasswordCall.Password(userID)), p)
    {
      if userID !in state.passwords {
        return Err(ErrNotFound);
      }
      return Ok(state.passwords[userID]);
    }

    // -------------------------------------------------------------- credentials

    method SavePasskey(userID: string, credential: PasskeyCredential, persists: bool) returns (r: Result<()>)
      modifies this
      ensures (Model(), OfUnit(r)) ==
              CallStep(old(Model()), OnPasskeys(PasskeyCall.SavePasskey(userID, credential)), persists)
    {
      if userID !in state.users {
        return Err(ErrNotFound);
      }
      var remaining := state.passkeys.Keys;
      while remaining != {}
        invariant remaining <= state.passkeys.Keys
        invariant forall u :: u in state.passkeys && u !in remaining ==>
                    !Contract.HasPasskey(state.passkeys[u], credential.id)
        invariant Model() == old(Model())
        decreases remaining
      {
        var u :| u in remaining;
        var credentials := state.passkeys[u];
        for i := 0 to |credentials|
          invariant forall j :: 0 <= j < i ==> credentials[j].id != credential.id
          invariant Model() == old(Model())
        {
          if credentials[i].id == credential.id {
            assert Contract.HasPasskey(state.passkeys[u], credential.id);
            return Err(ErrConflict);
          }
        }
        remaining := remaining - {u};
      }
      var items := if userID in state.passkeys then state.passkeys[userID] else [];
      state := state.(passkeys := state.passkeys[userID := items + [credential]]);
      r := Persisted(persists);
    }

    method Passkeys(userID: string) returns (r: seq<PasskeyCredential>)
      ensures forall p :: (Model(), ThePasskeys(r)) == CallStep(Model(), OnPasskeys(PasskeyCall.Passkeys(userID)), p)
    {
      return if userID in state.passkeys then state.passkeys[userID] else [];
    }

    method UpdatePasskey(userID: string, credential: PasskeyCredential, previous: nat, persists: bool)
      returns (r: Result<()>)
      modifies this
      ensures (Model(), OfUnit(r)) ==
              CallStep(old(Model()), OnPasskeys(PasskeyCall.UpdatePasskey(userID, credential, previous)), persists)
    {
      var items := if userID in state.passkeys then state.passkeys[userID] else [];
      for i := 0 to |items|
        invariant forall j :: 0 <= j < i ==> items[j].id != credential.id
        invariant Model() == old(Model())
      {
        if items[i].id == credential.id {
          if items[i].signCount != previous {
            return Err(ErrConflict);
          }
          state := state.(passkeys := state.passkeys[userID := items[i := credential]]);
          r := Persisted(persists);
          return;
        }
      }
      return Err(ErrNotFound);
    }

    method DeletePasskey(userID: string, id: Bytes, persists: bool) returns (r: Result<()>)
      modifies this
      ensures (Model(), OfUnit(r)) ==
              CallStep(old(Model()), OnPasskeys(PasskeyCall.DeletePasskey(userID, id)), persists)
    {
      var items := if userID in state.passkeys then state.passkeys[userID] else [];
      for i := 0 to |items|
        invariant forall j :: 0 <= j < i ==> items[j].id != id
        invariant Model() == old(Model())
      {
        if items[i].id == id {
          state := state.(passkeys := state.passkeys[userID := items[..i] + items[i + 1..]]);
          r := Persisted(persists);
          return;
        }
      }
      return Err(ErrNotFound);
    }

    method SetTOTP(userID: string, credential: TOTPCredential, persists: bool) returns (r: Result<()>)
      modifies this
      ensures (Model(), OfUnit(r)) == CallStep(old(Model()), OnTOTP(TOTPCall.SetTOTP(userID, credential)), persists)
    {
      if userID !in state.users {
        return Err(ErrNotFound);
      }
      state := state.(totp := state.totp[userID := credential]);
      r := Persisted(persists);
    }

    method TOTP(userID: string) returns (r: Result<TOTPCredential>)
      ensures forall p :: (Model(), OfTOTP(r)) == CallStep(Model(), OnTOTP(TOTPCall.TOTP(userID)), p)
    {
      if userID !in state.totp {
        return Err(ErrNotFound);
      }
      return Ok(state.totp[userID]);
    }

    method DeleteTOTP(userID: string, persists: bool) returns (r: Result<()>)
      modifies this
      ensures (Model(), OfUnit(r)) == CallStep(old(Model()), OnTOTP(TOTPCall.DeleteTOTP(userID)), persists)
    {
      state := state.(totp := state.totp - {userID});
      r := Persisted(persists);
    }

    method SetRecoveryCodes(userID: string, codes: seq<RecoveryCode>, persists: bool) returns (r: Result<()>)
      modifies this
      ensures (Model(), OfUnit(r)) ==
              CallStep(old(Model()), OnRecovery(RecoveryCall.SetRecoveryCodes(userID, codes)), persists)
    {
      if userID !in state.users {
        return Err(ErrNotFound);
      }
      state := state.(recovery := state.recovery[userID := codes]);
      r := Persisted(persists);
    }

    /** A code is reported as matched even when its use could not be persisted; the caller sees both. */
    method ConsumeRecoveryCode(userID: string, proof: Bytes, now: Time, persists: bool)
      returns (matched: bool, failure: Option<Error>)
      modifies this
      ensures (Model(), Consumed(matched, failure)) ==
              CallStep(old(Model()), OnRecovery(RecoveryCall.ConsumeRecoveryCode(userID, proof, now)), persists)
    {
      var items := if userID in state.recovery then state.recovery[userID] else [];
      for i := 0 to |items|
        invariant forall j :: 0 <= j < i ==> !Contract.Redeems(items[j], proof)
        invariant Model() == old(Model())
      {
        if items[i].usedAt == ZERO_TIME && items[i].proof == proof {
          state := state.(recovery := state.recovery[userID := items[i := items[i].(usedAt := now)]]);
          matched := true;
          failure := PersistLocked(persists);
          return;
        }
      }
      return false, None;
    }

    // -------------------------------------------------------------- one-time codes

    method SaveCode(code: OneTimeCode, persists: bool) returns (r: Result<()>)
      modifies this
      ensures (Model(), OfUnit(r)) == CallStep(old(Model()), OnCodes(CodeCall.SaveCode(code)), persists)
    {
      if code.id in state.codes {
        return Err(ErrConflict);
      }
      state := state.(codes := state.codes[code.id := code]);
      r := Persisted(persists);
    }

    method AttemptCode(id: string, proof: Bytes, now: Time, persists: bool) returns (r: Result<Contract.Attempt>)
      modifies this
      ensures (Model(), OfAttempt(r)) ==
              CallStep(old(Model()), OnCodes(CodeCall.AttemptCode(id, proof, now)), persists)
    {
      if id !in state.codes {
        return Err(ErrNotFound);
      }
      var code := state.codes[id];
      if code.expiresAt <= now {
        state := state.(codes := state.codes - {id});
        var _ := PersistLocked(persists);
        return Err(ErrExpired);
      }
      code := code.(attempts := code.attempts + 1);
      var matched := code.proof == proof;
      if matched || code.attempts >= code.maxAttempts {
        state := state.(codes := state.codes - {id});
      } else {
        state := state.(codes := state.codes[id := code]);
      }
      var failure := PersistLocked(persists);
      if failure.Some? {
        return Err(failure.value);
      }
      if !matched && code.attempts >= code.maxAttempts {
        return Ok(Contract.Attempt(code, false, true));
      }
      return Ok(Contract.Attempt(code, matched, false));
    }

    method DeleteCode(id: string, persists: bool) returns (r: Result<()>)
      modifies this
      ensures (Model(), OfUnit(r)) == CallStep(old(Model()), OnCodes(CodeCall.DeleteCode(id)), persists)
    {
      state := state.(codes := state.codes - {id});
      r := Persisted(persists);
    }

    // -------------------------------------------------------------- sessions

    method CreateSession(session: Session, persists: bool) returns (r: Result<()>)
      modifies this
      ensures (Model(), OfUnit(r)) == CallStep(old(Model()), OnSessions(SessionCall.CreateSession(session)), persists)
    {
      if session.id in state.sessions {
        return Err(ErrConflict);
      }
      state := state.(sessions := state.sessions[session.id := session]);
      r := Persisted(persists);
    }

    method SessionByID(id: string, now: Time, persists: bool) returns (r: Result<Session>)
      modifies this
      ensures (Model(), OfSession(r)) == CallStep(old(Model()), OnSessions(SessionCall.SessionByID(id, now)), persists)
    {
      if id !in state.sessions {
        return Err(ErrNotFound);
      }
      var session := state.sessions[id];
      if session.expiresAt <= now {
        state := state.(sessions := state.sessions - {id});
        var _ := PersistLocked(persists);
        return Err(ErrExpired);
      }
      return Ok(session);
    }

    method RevokeSession(id: string, persists: bool) returns (r: Result<()>)
      modifies this
      ensures (Model(), OfUnit(r)) == CallStep(old(Model()), OnSessions(SessionCall.RevokeSession(id)), persists)
    {
      state := state.(sessions := state.sessions - {id});
      r := Persisted(persists);
    }

    method RevokeUserSessions(userID: string, persists: bool) returns (r: Result<()>)
      modifies this
      ensures (Model(), OfUnit(r)) ==
              CallStep(old(Model()), OnSessions(SessionCall.RevokeUserSessions(userID)), persists)
    {
      var remaining := state.sessions.Keys;
      while remaining != {}
        invariant remaining <= old(state).sessions.Keys
        invariant state.sessions ==
                  map id | id in old(state).sessions
                           && (id in remaining || old(state).sessions[id].userID != userID)
                    :: old(state).sessions[id]
        invariant state == old(state).(sessions := state.sessions) && disk == old(disk)
        decreases remaining
      {
        var id :| id in remaining;
        if state.sessions[id].userID == userID {
          state := state.(sessions := state.sessions - {id});
        }
        remaining := remaining - {id};
      }
      assert state.sessions == Contract.RevokeUserSessions(old(state).sessions, userID);
      r := Persisted(persists);
    }
  }

  /** What `Open` finds at its path: nothing, something it cannot read or parse, or an image a store wrote. */
  datatype File = Missing | Unreadable | Written(image: JState)

  /**
   `Open`: an unreadable file gives no store. Otherwise there is one, and for a missing file the error of the first
   write, if it failed, comes beside it.
   */
  method Open(file: File, persists: bool) returns (store: Option<JsonStore>, failure: Option<Error>)
    ensures file.Unreadable? <==> store.None?
    ensures failure == if file.Unreadable? then Some(ErrRead)
                       else if file.Missing? && !persists then Some(ErrPersist)
                       else None
    ensures store.Some? ==>
              && fresh(store.value)
              && store.value.Model() == Reopen(if file.Written? then Some(file.image) else None, persists)
  {
    match file
    case Missing =>
      var made := new JsonStore(None);
      failure := made.PersistLocked(persists);
      store := Some(made);
    case Unreadable =>
      return None, Some(ErrRead);
    case Written(image) =>
      var made := new JsonStore(Some(image));
      return Some(made), None;
  }
}
