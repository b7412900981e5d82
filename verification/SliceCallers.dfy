/**
 Callers of the memory store who keep every slice they pass in or get back, and write to them whenever they like. In
 any sequence of these calls and writes no write ever changes what the store answers, with one exception: the proof
 slice that an attempt at a code returns is the store's own exactly while the code stays live.
 */
module SliceCallers {
  import opened Models
  import opened SliceStores
  import Contract = StoreContract

  /** Creating a user neither reads nor changes the other parts of the state. */
  lemma CreateLeavesRest(s: Contract.State<Bytes>, t: Contract.State<Bytes>, input: NewUser, key: Bytes, now: Time)
    requires t == s.(passkeys := t.passkeys, totp := t.totp, recovery := t.recovery, codes := t.codes)
    ensures var (u, r) := Contract.CreateUser(s, input, key, now);
            Contract.CreateUser(t, input, key, now)
            == (u.(passkeys := t.passkeys, totp := t.totp, recovery := t.recovery, codes := t.codes), r)
  {
    assert Contract.CanCreate(s, input, key) == Contract.CanCreate(t, input, key);
    hide Contract.CanCreate;
  }

  datatype Write = Write(slice: array<Byte>, index: nat, value: Byte)

  class Caller {
    const store: SliceStore
    /** The slices in callers' hands. */
    ghost var held: set<object>

    ghost predicate Valid()
      reads this, store
    {
      held !! store.Owned() && this !in store.Owned() && store.ProofsSeparate()
    }

    ghost function Contents(): Contract.State<Bytes>
      reads store, store.Owned()
    {
      store.Contents()
    }

    constructor (store: SliceStore)
      requires store.ProofsSeparate()
      ensures this.store == store && held == {} && Valid()
    {
      this.store := store;
      held := {};
    }

    /** Only fresh slices entered the store, and none of them as a code's proof. */
    twostate lemma StillValid()
      requires old(Valid()) && held == old(held) && store.codes == old(store.codes)
      requires fresh(store.OtherSlices() - old(store.OtherSlices()))
      ensures Valid()
    {
    }

    /** Slices that are not the store's come into callers' hands. */
    ghost method Take(slices: set<object>)
      requires Valid() && slices !! store.Owned()
      modifies this`held
      ensures Valid() && held == old(held) + slices
      ensures Contents() == old(Contents()) && store.Owned() == old(store.Owned())
    {
      held := held + slices;
      store.AllKept();
    }

    // What callers do with slices: make one, and write to any they hold.

    method Make<T(0)>(n: nat) returns (a: array<T>)
      requires Valid()
      modifies this`held
      ensures Valid() && fresh(a) && a.Length == n && held == old(held) + {a}
      ensures Contents() == old(Contents())
    {
      a := new T[n];
      store.AllKept();
      Take({a});
    }

    method Scribble<T>(a: array<T>, i: nat, v: T)
      requires Valid() && a in held && i < a.Length
      modifies a
      ensures Valid() && held == old(held) && a[..] == old(a[..])[i := v]
      ensures Contents() == old(Contents())
    {
      a[i] := v;
    }

    /** Any sequence of writes to held slices. */
    method ScribbleAll(writes: seq<Write>)
      requires Valid() && forall w :: w in writes ==> w.slice in held && w.index < w.slice.Length
      modifies set w | w in writes :: w.slice
      ensures Valid() && held == old(held)
      ensures Contents() == old(Contents())
    {
      for k := 0 to |writes|
        invariant Valid() && held == old(held) && Contents() == old(Contents())
      {
        assert writes[k] in writes;
        Scribble(writes[k].slice, writes[k].index, writes[k].value);
      }
    }

    // One method for each operation that takes or returns slices.

    method CreateUser(input: NewUserCell, now: Time) returns (r: Result<UserCell>)
      requires Valid() && input.webAuthnID in held
      modifies store`users, store`identifiers, store`webAuthnIDs, this`held
      ensures Valid() && held == old(held) + if r.Ok? then {r.value.webAuthnID} else {}
      ensures var (s, q) := Contract.CreateUser(
                old(Contents()), old(NewUserValue(input)), old(input.webAuthnID[..]), now);
              Contents() == s && if q.Err? then r == Err(q.error) else r.Ok? && UserValue(r.value) == q.value
    {
      hide Contract.CreateUser, SliceStore.Accounts, SliceStore.Passkeys, SliceStore.TOTPs,
        SliceStore.Recoveries, SliceStore.Codes;
      CreateLeavesRest(store.Accounts(), store.Contents(), NewUserValue(input), input.webAuthnID[..], now);
      r := store.CreateUser(input, now);
      store.OnlyAccounts();
      Take(if r.Ok? then {r.value.webAuthnID} else {});
    }

    method CreatePasswordUser(input: NewUserCell, password: PasswordCredential, now: Time)
      returns (r: Result<UserCell>)
      requires Valid() && input.webAuthnID in held
      modifies store`users, store`identifiers, store`webAuthnIDs, store`passwords, this`held
      ensures Valid() && held == old(held) + if r.Ok? then {r.value.webAuthnID} else {}
      ensures var (s, q) := Contract.CreatePasswordUser(
                old(Contents()), old(NewUserValue(input)), old(input.webAuthnID[..]), password, now);
              Contents() == s && if q.Err? then r == Err(q.error) else r.Ok? && UserValue(r.value) == q.value
    {
      hide Contract.CreateUser, SliceStore.Accounts, SliceStore.Passkeys, SliceStore.TOTPs,
        SliceStore.Recoveries, SliceStore.Codes;
      CreateLeavesRest(store.Accounts(), store.Contents(), NewUserValue(input), input.webAuthnID[..], now);
      r := MakePasswordUser(input, password, now);
      Take(if r.Ok? then {r.value.webAuthnID} else {});
    }

    /** The store's part: the contents change, and no slice in callers' hands becomes the store's. */
    method MakePasswordUser(input: NewUserCell, password: PasswordCredential, now: Time)
      returns (r: Result<UserCell>)
      requires Valid() && input.webAuthnID in held
      modifies store`users, store`identifiers, store`webAuthnIDs, store`passwords
      ensures Valid() && (r.Ok? ==> r.value.webAuthnID !in store.Owned())
      ensures Contents() == old(Contents()).(
                users := store.Accounts().users, identifiers := store.Accounts().identifiers,
                webAuthnIDs := store.Accounts().webAuthnIDs, passwords := store.Accounts().passwords)
      ensures store.Accounts() == Contract.CreatePasswordUser(
                old(store.Accounts()), old(NewUserValue(input)), old(input.webAuthnID[..]), password, now).0
      ensures var q := Contract.CreatePasswordUser(
                old(store.Accounts()), old(NewUserValue(input)), old(input.webAuthnID[..]), password, now).1;
              if q.Err? then r == Err(q.error) else r.Ok? && UserValue(r.value) == q.value
    {
      hide Contract.CreatePasswordUser, SliceStore.Accounts, SliceStore.Passkeys, SliceStore.TOTPs,
        SliceStore.Recoveries, SliceStore.Codes;
      r := store.CreatePasswordUser(input, password, now);
      store.OnlyAccounts();
    }

    method SetUserVerified(userID: string, verified: bool) returns (r: Result<()>)
      requires Valid()
      modifies store`users
      ensures Valid() && held == old(held)
      ensures (Contents(), r) == Contract.SetUserVerified(old(Contents()), userID, verified)
    {
      hide SliceStore.Accounts, SliceStore.Passkeys, SliceStore.TOTPs, SliceStore.Recoveries,
        SliceStore.Codes;
      r := store.SetUserVerified(userID, verified);
      store.OnlyAccounts();
    }

    method SetTOTP(userID: string, credential: TOTPCell) returns (r: Result<()>)
      requires Valid() && credential.secret in held
      modifies store`totp
      ensures Valid() && held == old(held)
      ensures var (t, q) := Contract.SetTOTP(
                old(Contents()).users.Keys, old(Contents()).totp, userID, old(TOTPValue(credential)));
              Contents() == old(Contents()).(totp := t) && r == q
    {
      hide Separate, SliceStore.Recoveries, SliceStore.Passkeys, SliceStore.Codes;
      r := store.SetTOTP(userID, credential);
      store.OnlyTOTPs();
      StillValid();
    }

    method DeleteTOTP(userID: string)
      requires Valid()
      modifies store`totp
      ensures Valid() && held == old(held)
      ensures Contents() == old(Contents()).(totp := old(Contents()).totp - {userID})
    {
      store.DeleteTOTP(userID);
      store.OnlyTOTPs();
    }

    method SetRecoveryCodes(userID: string, list: seq<RecoveryCell>) returns (r: Result<()>)
      requires Valid() && RecoveryListSlices(list) <= held
      modifies store`recovery
      ensures Valid() && held == old(held)
      ensures var (t, q) := Contract.SetRecoveryCodes(
                old(Contents()).users.Keys, old(Contents()).recovery, userID, old(RecoveryValues(list)));
              Contents() == old(Contents()).(recovery := t) && r == q
    {
      hide Separate, RecoveryValues, SliceStore.Passkeys, SliceStore.TOTPs, SliceStore.Codes;
      r := store.SetRecoveryCodes(userID, list);
      store.OnlyRecoveries();
      StillValid();
    }

    method ConsumeRecoveryCode(userID: string, proof: array<Byte>, now: Time) returns (matched: bool)
      requires Valid() && proof in held
      modifies store`recovery
      ensures Valid() && held == old(held)
      ensures var (t, q) := Contract.ConsumeRecoveryCode(old(Contents()).recovery, userID, old(proof[..]), now);
              Contents() == old(Contents()).(recovery := t) && matched == q
    {
      hide SliceStore.Accounts, SliceStore.Passkeys, SliceStore.TOTPs, SliceStore.Recoveries,
        SliceStore.Codes;
      hide Contract.ConsumeRecoveryCode;
      matched := store.ConsumeRecoveryCode(userID, proof, now);
      store.OnlyRecoveries();
    }

    method SavePasskey(userID: string, credential: PasskeyCell) returns (r: Result<()>)
      requires Valid() && PasskeySlices(credential) <= held
      modifies store`passkeys
      ensures Valid() && held == old(held)
      ensures var (t, q) := Contract.SavePasskey(
                old(Contents()).users.Keys, old(Contents()).passkeys, userID, old(PasskeyValue(credential)));
              Contents() == old(Contents()).(passkeys := t) && r == q
    {
      hide Contract.PasskeyTaken, Separate;
      r := store.SavePasskey(userID, credential);
      store.OnlyPasskeys();
      StillValid();
    }

    method UpdatePasskey(userID: string, credential: PasskeyCell, previous: nat) returns (r: Result<()>)
      requires Valid() && PasskeySlices(credential) <= held
      modifies store`passkeys
      ensures Valid() && held == old(held)
      ensures var (t, q) := Contract.UpdatePasskey(
                old(Contents()).passkeys, userID, old(PasskeyValue(credential)), previous);
              Contents() == old(Contents()).(passkeys := t) && r == q
    {
      hide Contract.UpdatePasskey, Separate;
      r := store.UpdatePasskey(userID, credential, previous);
      store.OnlyPasskeys();
      StillValid();
    }

    method DeletePasskey(userID: string, id: array<Byte>) returns (r: Result<()>)
      requires Valid() && id in held
      modifies store`passkeys
      ensures Valid() && held == old(held)
      ensures var (t, q) := Contract.DeletePasskey(old(Contents()).passkeys, userID, old(id[..]));
              Contents() == old(Contents()).(passkeys := t) && r == q
    {
      hide SliceStore.Accounts, SliceStore.Passkeys, SliceStore.TOTPs, SliceStore.Recoveries,
        SliceStore.Codes;
      hide Contract.DeletePasskey;
      r := store.DeletePasskey(userID, id);
      store.OnlyPasskeys();
    }

    method SaveCode(code: CodeCell) returns (r: Result<()>)
      requires Valid() && code.proof in held
      modifies store`codes
      ensures Valid() && held == old(held)
      ensures var (t, q) := Contract.SaveCode(old(Contents()).codes, old(CodeValue(code)));
              Contents() == old(Contents()).(codes := t) && r == q
    {
      hide Contract.SaveCode, SliceStore.Accounts, SliceStore.Passkeys, SliceStore.TOTPs, SliceStore.Recoveries,
        SliceStore.Codes;
      ghost var kept, others := store.codes, store.OtherSlices();
      r := store.SaveCode(code);
      store.OnlyCodes();
      if store.codes != kept {
        AddedProof(kept, others, code.rest.id, store.codes[code.rest.id]);
      }
    }

    method DeleteCode(id: string)
      requires Valid()
      modifies store`codes
      ensures Valid() && held == old(held)
      ensures Contents() == old(Contents()).(codes := old(Contents()).codes - {id})
    {
      store.DeleteCode(id);
      store.OnlyCodes();
    }

    /**
     The slice of the returned code is the store's own exactly when the attempt neither matched nor used up the
     attempts; only otherwise may the caller hold it.
     */
    method AttemptCode(id: string, proof: array<Byte>, now: Time) returns (r: Result<AttemptCell>)
      requires Valid() && proof in held
      modifies store`codes, this`held
      ensures Valid()
      ensures r.Ok? ==> (r.value.code.proof in store.Owned() <==> StaysLive(r.value))
      ensures held == old(held) + if r.Ok? && r.value.code.proof !in store.Owned() then {r.value.code.proof} else {}
      ensures var (t, q) := Contract.AttemptCode(old(Contents()).codes, id, old(proof[..]), now);
              && Contents() == old(Contents()).(codes := t)
              && if q.Err? then r == Err(q.error) else r.Ok? && AttemptValue(r.value) == q.value
    {
      hide SliceStore.Accounts, SliceStore.Passkeys, SliceStore.TOTPs, SliceStore.Recoveries, SliceStore.Codes;
      hide Contract.AttemptCode;
      ghost var kept, others := store.codes, store.OtherSlices();
      r := Attempted(id, proof, now);
      RemovedProof(kept, others, id);
      if r.Ok? {
        AttemptedProof(kept, others, id, r.value.code);
      }
      hide Separate, ProofsOf;
      Take(if r.Ok? && !StaysLive(r.value) then {r.value.code.proof} else {});
    }

    /** The store's part: only the entry changes, and keeps its proof slice while it stays live. */
    method Attempted(id: string, proof: array<Byte>, now: Time) returns (r: Result<AttemptCell>)
      requires Valid() && proof in held
      modifies store`codes
      ensures store.OtherSlices() == old(store.OtherSlices())
      ensures r.Ok? ==> id in old(store.codes) && r.value.code.proof == old(store.codes)[id].proof
      ensures store.codes == if r.Ok? && StaysLive(r.value) then old(store.codes)[id := r.value.code]
                             else old(store.codes) - {id}
      ensures var (t, q) := Contract.AttemptCode(old(Contents()).codes, id, old(proof[..]), now);
              && Contents() == old(Contents()).(codes := t)
              && if q.Err? then r == Err(q.error) else r.Ok? && AttemptValue(r.value) == q.value
    {
      hide SliceStore.Accounts, SliceStore.Passkeys, SliceStore.TOTPs, SliceStore.Recoveries, SliceStore.Codes;
      hide Contract.AttemptCode, Separate;
      r := store.AttemptCode(id, proof, now);
      store.OnlyCodes();
    }

    method UserByID(id: string) returns (found: Option<UserCell>)
      requires Valid()
      modifies this`held
      ensures Valid() && held == old(held) + if found.Some? then {found.value.webAuthnID} else {}
      ensures found.Some? ==> fresh(found.value.webAuthnID)
      ensures Contents() == old(Contents())
      ensures var q := Contract.UserByID(Contents(), id);
              if q.Err? then found.None? else found.Some? && UserValue(found.value) == q.value
    {
      found := store.UserByID(id);
      store.AllKept();
      Take(if found.Some? then {found.value.webAuthnID} else {});
    }

    method UserByIdentifier(identifier: string) returns (found: Option<UserCell>)
      requires Valid()
      modifies this`held
      ensures Valid() && held == old(held) + if found.Some? then {found.value.webAuthnID} else {}
      ensures found.Some? ==> fresh(found.value.webAuthnID)
      ensures Contents() == old(Contents())
      ensures var q := Contract.UserByIdentifier(Contents(), identifier);
              if q.Err? then found.None? else found.Some? && UserValue(found.value) == q.value
    {
      found := store.UserByIdentifier(identifier);
      store.AllKept();
      Take(if found.Some? then {found.value.webAuthnID} else {});
    }

    method UserByWebAuthnID(webAuthnID: array<Byte>) returns (found: Option<UserCell>)
      requires Valid() && webAuthnID in held
      modifies this`held
      ensures Valid() && held == old(held) + if found.Some? then {found.value.webAuthnID} else {}
      ensures found.Some? ==> fresh(found.value.webAuthnID)
      ensures Contents() == old(Contents())
      ensures var q := Contract.UserByWebAuthnID(Contents(), old(webAuthnID[..]));
              if q.Err? then found.None? else found.Some? && UserValue(found.value) == q.value
    {
      found := store.UserByWebAuthnID(webAuthnID);
      store.AllKept();
      Take(if found.Some? then {found.value.webAuthnID} else {});
    }

    method TOTP(userID: string) returns (found: Option<TOTPCell>)
      requires Valid()
      modifies this`held
      ensures Valid() && held == old(held) + if found.Some? then {found.value.secret} else {}
      ensures found.Some? ==> fresh(found.value.secret)
      ensures Contents() == old(Contents())
      ensures var q := Contract.TOTP(Contents().totp, userID);
              if q.Err? then found.None? else found.Some? && TOTPValue(found.value) == q.value
    {
      found := store.TOTP(userID);
      store.AllKept();
      Take(if found.Some? then {found.value.secret} else {});
    }

    method Passkeys(userID: string) returns (result: seq<PasskeyCell>)
      requires Valid()
      modifies this`held
      ensures Valid() && held == old(held) + PasskeyListSlices(result)
      ensures fresh(PasskeyListSlices(result))
      ensures Contents() == old(Contents())
      ensures PasskeyValues(result) == Contract.PasskeysOf(Contents().passkeys, userID)
    {
      hide PasskeyValues, SliceStore.Accounts, SliceStore.TOTPs, SliceStore.Recoveries, SliceStore.Codes;
      result := store.PasskeyList(userID);
      store.AllKept();
      Take(PasskeyListSlices(result));
    }
  }

  /** Whatever is written to the slice that was stored, to one read back and to any others, the secret stays. */
  method CallerOverwritesSlices(
    c: Caller, userID: string, credential: TOTPCell, writes: seq<Write>, index: nat, b: Byte)
    returns (found: Option<TOTPCell>)
    requires c.Valid() && userID in c.store.users && credential.secret in c.held
    requires forall w :: w in writes ==> w.slice in c.held && w.index < w.slice.Length
    modifies c`held, c.store`totp, set w | w in writes :: w.slice
    ensures c.Valid() && found.Some? && TOTPValue(found.value) == old(TOTPValue(credential))
  {
    assert userID in c.Contents().users;
    var r := c.SetTOTP(userID, credential);
    c.ScribbleAll(writes);
    found := c.TOTP(userID);
    if index < found.value.secret.Length {
      c.Scribble(found.value.secret, index, b);
    }
    found := c.TOTP(userID);
  }

  /** The exception at an input: through a live attempt's proof slice a write does reach the stored proof. */
  method AttemptHandsOutStoredProof(c: Caller, id: string, wrong: array<Byte>, now: Time, b: Byte)
    requires c.Valid() && wrong in c.held && id in c.store.codes && wrong[..] != c.store.codes[id].proof[..]
    requires c.store.codes[id].rest.expiresAt > now && c.store.codes[id].proof.Length > 0
    requires c.store.codes[id].rest.attempts + 1 < c.store.codes[id].rest.maxAttempts
    modifies c`held, c.store`codes, c.store.codes[id].proof
    ensures id in c.store.Codes() && c.store.Codes()[id].proof == old(c.store.Codes()[id].proof)[0 := b]
  {
    assert id in c.store.Codes() && c.store.Codes()[id] == CodeValue(c.store.codes[id]);
    var r := c.store.AttemptCode(id, wrong, now);
    assert id in c.store.Codes() && id in c.store.codes;
    r.value.code.proof[0] := b;
  }
}
