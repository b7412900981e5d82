/** The in-memory store: nine map fields, updated in place by one locked method at a time. */
module MemoryStores {
  import opened Models
  import Contract = StoreContract

  class MemoryStore {
    var users: map<string, User>
    var identifiers: map<string, string>
    var webAuthnIDs: map<Bytes, string>
    var passwords: map<string, PasswordCredential>
    var passkeys: map<string, seq<PasskeyCredential>>
    var totp: map<string, TOTPCredential>
    var recovery: map<string, seq<RecoveryCode>>
    var codes: map<string, OneTimeCode>
    var sessions: map<string, Session>

    /** The contract state these fields stand for. */
    ghost function State(): Contract.State<Bytes>
      reads this
    {
      Contract.State(users, identifiers, webAuthnIDs, passwords, passkeys, totp, recovery, codes, sessions)
    }

    constructor ()
      ensures State() == Contract.Empty()
    {
      users, identifiers, webAuthnIDs := map[], map[], map[];
      passwords, passkeys, totp, recovery := map[], map[], map[], map[];
      codes, sessions := map[], map[];
    }

    method CreateUser(input: NewUser, now: Time) returns (r: Result<User>)
      modifies this
      ensures (State(), r) == Contract.CreateUser(old(State()), input, input.webAuthnID, now)
    {
      if input.identifier in identifiers {
        return Err(ErrConflict);
      }
      if input.id in users || input.id == "" || input.identifier == "" || |input.webAuthnID| == 0 {
        return Err(ErrConflict);
      }
      if input.webAuthnID in webAuthnIDs {
        return Err(ErrConflict);
      }
      var user := User(input.id, input.identifier, input.displayName, input.webAuthnID, false, false, now);
      users := users[user.id := user];
      identifiers := identifiers[user.identifier := user.id];
      webAuthnIDs := webAuthnIDs[user.webAuthnID := user.id];
      return Ok(user);
    }

    method CreatePasswordUser(input: NewUser, password: PasswordCredential, now: Time) returns (r: Result<User>)
      modifies this
      ensures (State(), r) == Contract.CreatePasswordUser(old(State()), input, input.webAuthnID, password, now)
    {
      r := CreateUser(input, now);
      if r.Ok? {
        passwords := passwords[r.value.id := password];
      }
    }

    method UserByID(id: string) returns (r: Result<User>)
      ensures r == Contract.UserByID(State(), id)
    {
      if id !in users {
        return Err(ErrNotFound);
      }
      return Ok(users[id]);
    }

    method UserByIdentifier(identifier: string) returns (r: Result<User>)
      ensures r == Contract.UserByIdentifier(State(), identifier)
    {
      if identifier !in identifiers {
        return Err(ErrNotFound);
      }
      var id := identifiers[identifier];
      return Ok(if id in users then users[id] else Contract.NO_USER);
    }

    method UserByWebAuthnID(webAuthnID: Bytes) returns (r: Result<User>)
      ensures r == Contract.UserByWebAuthnID(State(), webAuthnID)
    {
      if webAuthnID !in webAuthnIDs {
        return Err(ErrNotFound);
      }
      var id := webAuthnIDs[webAuthnID];
      return Ok(if id in users then users[id] else Contract.NO_USER);
    }

    method SetUserVerified(userID: string, verified: bool) returns (r: Result<()>)
      modifies this
      ensures (State(), r) == Contract.SetUserVerified(old(State()), userID, verified)
    {
      if userID !in users {
        return Err(ErrNotFound);
      }
      var user := users[userID].(verified := verified);
      users := users[userID := user];
      return Ok(());
    }

    method SetPassword(userID: string, credential: PasswordCredential) returns (r: Result<()>)
      modifies this`passwords
      ensures (passwords, r) == Contract.SetPassword(users.Keys, old(passwords), userID, credential)
    {
      if userID !in users {
        return Err(ErrNotFound);
      }
      passwords := passwords[userID := credential];
      return Ok(());
    }

    method Password(userID: string) returns (r: Result<PasswordCredential>)
      ensures r == Contract.Password(passwords, userID)
    {
      if userID !in passwords {
        return Err(ErrNotFound);
      }
      return Ok(passwords[userID]);
    }

    /** Scans every user's credentials; the order of a Go map scan is arbitrary, and so is the choice here. */
    method SavePasskey(userID: string, credential: PasskeyCredential) returns (r: Result<()>)
      modifies this`passkeys
      ensures (passkeys, r) == Contract.SavePasskey(users.Keys, old(passkeys), userID, credential)
    {
      if userID !in users {
        return Err(ErrNotFound);
      }
      var remaining := passkeys.Keys;
      while remaining != {}
        invariant remaining <= passkeys.Keys
        invariant forall u :: u in passkeys && u !in remaining ==> !Contract.HasPasskey(passkeys[u], credential.id)
        invariant passkeys == old(passkeys)
        decreases remaining
      {
        var u :| u in remaining;
        var credentials := passkeys[u];
        for i := 0 to |credentials|
          invariant forall j :: 0 <= j < i ==> credentials[j].id != credential.id
          invariant passkeys == old(passkeys)
        {
          if credentials[i].id == credential.id {
            assert Contract.HasPasskey(passkeys[u], credential.id);
            return Err(ErrConflict);
          }
        }
        remaining := remaining - {u};
      }
      var items := if userID in passkeys then passkeys[userID] else [];
      passkeys := passkeys[userID := items + [credential]];
      return Ok(());
    }

    method Passkeys(userID: string) returns (r: seq<PasskeyCredential>)
      ensures r == Contract.PasskeysOf(passkeys, userID)
    {
      var items := if userID in passkeys then passkeys[userID] else [];
      r := [];
      for i := 0 to |items|
        invariant r == items[..i]
      {
        r := r + [items[i]];
      }
    }

    method UpdatePasskey(userID: string, credential: PasskeyCredential, previous: nat) returns (r: Result<()>)
      modifies this`passkeys
      ensures (passkeys, r) == Contract.UpdatePasskey(old(passkeys), userID, credential, previous)
    {
      var items := if userID in passkeys then passkeys[userID] else [];
      for i := 0 to |items|
        invariant forall j :: 0 <= j < i ==> items[j].id != credential.id
        invariant passkeys == old(passkeys)
      {
        if items[i].id == credential.id {
          if items[i].signCount != previous {
            return Err(ErrConflict);
          }
          passkeys := passkeys[userID := items[i := credential]];
          return Ok(());
        }
      }
      return Err(ErrNotFound);
    }

    method DeletePasskey(userID: string, id: Bytes) returns (r: Result<()>)
      modifies this`passkeys
      ensures (passkeys, r) == Contract.DeletePasskey(old(passkeys), userID, id)
    {
      var items := if userID in passkeys then passkeys[userID] else [];
      for i := 0 to |items|
        invariant forall j :: 0 <= j < i ==> items[j].id != id
        invariant passkeys == old(passkeys)
      {
        if items[i].id == id {
          passkeys := passkeys[userID := items[..i] + items[i + 1..]];
          return Ok(());
        }
      }
      return Err(ErrNotFound);
    }

    method SetTOTP(userID: string, credential: TOTPCredential) returns (r: Result<()>)
      modifies this`totp
      ensures (totp, r) == Contract.SetTOTP(users.Keys, old(totp), userID, credential)
    {
      if userID !in users {
        return Err(ErrNotFound);
      }
      totp := totp[userID := credential];
      return Ok(());
    }

    method TOTP(userID: string) returns (r: Result<TOTPCredential>)
      ensures r == Contract.TOTP(totp, userID)
    {
      if userID !in totp {
        return Err(ErrNotFound);
      }
      return Ok(totp[userID]);
    }

    method DeleteTOTP(userID: string)
      modifies this`totp
      ensures totp == old(totp) - {userID}
    {
      totp := totp - {userID};
    }

    method SetRecoveryCodes(userID: string, codes: seq<RecoveryCode>) returns (r: Result<()>)
      modifies this`recovery
      ensures (recovery, r) == Contract.SetRecoveryCodes(users.Keys, old(recovery), userID, codes)
    {
      if userID !in users {
        return Err(ErrNotFound);
      }
      recovery := recovery[userID := codes];
      return Ok(());
    }

    method ConsumeRecoveryCode(userID: string, proof: Bytes, now: Time) returns (matched: bool)
      modifies this`recovery
      ensures (recovery, matched) == Contract.ConsumeRecoveryCode(old(recovery), userID, proof, now)
    {
      var items := if userID in recovery then recovery[userID] else [];
      for i := 0 to |items|
        invariant forall j :: 0 <= j < i ==> !Contract.Redeems(items[j], proof)
        invariant recovery == old(recovery)
      {
        if items[i].usedAt == ZERO_TIME && items[i].proof == proof {
          recovery := recovery[userID := items[i := items[i].(usedAt := now)]];
          return true;
        }
      }
      return false;
    }

    method SaveCode(code: OneTimeCode) returns (r: Result<()>)
      modifies this`codes
      ensures (codes, r) == Contract.SaveCode(old(codes), code)
    {
      if code.id in codes {
        return Err(ErrConflict);
      }
      codes := codes[code.id := code];
      return Ok(());
    }

    method AttemptCode(id: string, proof: Bytes, now: Time) returns (r: Result<Contract.Attempt>)
      modifies this`codes
      ensures (codes, r) == Contract.AttemptCode(old(codes), id, proof, now)
    {
      if id !in codes {
        return Err(ErrNotFound);
      }
      var code := codes[id];
      if code.expiresAt <= now {
        codes := codes - {id};
        return Err(ErrExpired);
      }
      code := code.(attempts := code.attempts + 1);
      var matched := code.proof == proof;
      if matched || code.attempts >= code.maxAttempts {
        codes := codes - {id};
      } else {
        codes := codes[id := code];
      }
      if !matched && code.attempts >= code.maxAttempts {
        return Ok(Contract.Attempt(code, false, true));
      }
      return Ok(Contract.Attempt(code, matched, false));
    }

    method DeleteCode(id: string)
      modifies this`codes
      ensures codes == old(codes) - {id}
    {
      codes := codes - {id};
    }

    method CreateSession(session: Session) returns (r: Result<()>)
      modifies this`sessions
      ensures (sessions, r) == Contract.CreateSession(old(sessions), session)
    {
      if session.id in sessions {
        return Err(ErrConflict);
      }
      sessions := sessions[session.id := session];
      return Ok(());
    }

    method SessionByID(id: string, now: Time) returns (r: Result<Session>)
      modifies this`sessions
      ensures (sessions, r) == Contract.SessionByID(old(sessions), id, now)
    {
      if id !in sessions {
        return Err(ErrNotFound);
      }
      var session := sessions[id];
      if session.expiresAt <= now {
        sessions := sessions - {id};
        return Err(ErrExpired);
      }
      return Ok(session);
    }

    method RevokeSession(id: string)
      modifies this`sessions
      ensures sessions == old(sessions) - {id}
    {
      sessions := sessions - {id};
    }

    method RevokeUserSessions(userID: string)
      modifies this`sessions
      ensures sessions == Contract.RevokeUserSessions(old(sessions), userID)
    {
      var remaining := sessions.Keys;
      while remaining != {}
        invariant remaining <= old(sessions).Keys
        invariant sessions == map id | id in old(sessions) && (id in remaining || old(sessions)[id].userID != userID)
                                :: old(sessions)[id]
        decreases remaining
      {
        var id :| id in remaining;
        if sessions[id].userID == userID {
          sessions := sessions - {id};
        }
        remaining := remaining - {id};
      }
    }
  }
}
