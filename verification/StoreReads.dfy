/** What the read operations of a store answer after its writes. */
module StoreReads {
  import opened Models
  import opened Contract = StoreContract
  import opened StoreCalls
  import opened StoreInvariant
  import PasskeyCounter

  /** A created user is found by id, identifier and index key, enabled and unverified; nobody else is affected. */
  lemma CreatedIsFound<K(!new)>(s: State<K>, input: NewUser, now: Time, key: Bytes -> K, other: string)
    requires other != input.id
    ensures var (t, r) := Step(s, OnUsers(CreateUser(input, now)), key);
            var user := User(input.id, input.identifier, input.displayName, input.webAuthnID, false, false, now);
            && (r == TheUser(user) || (r == Failed(ErrConflict) && t == s))
            && (r == TheUser(user) ==>
                  && Step(t, OnUsers(UserByID(input.id)), key) == (t, TheUser(user))
                  && Step(t, OnUsers(UserByIdentifier(input.identifier)), key) == (t, TheUser(user))
                  && Step(t, OnUsers(UserByWebAuthnID(input.webAuthnID)), key) == (t, TheUser(user)))
            && Step(t, OnUsers(UserByID(other)), key).1 == Step(s, OnUsers(UserByID(other)), key).1
  {
  }

  /** A creation is refused exactly for an empty or used id, identifier or WebAuthn id. */
  lemma CreationIff<K(!new)>(s: State<K>, input: NewUser, now: Time, key: Bytes -> K)
    ensures Step(s, OnUsers(CreateUser(input, now)), key).1 == Failed(ErrConflict)
            <==> input.id == "" || input.identifier == "" || input.webAuthnID == [] || input.id in s.users
                 || input.identifier in s.identifiers || key(input.webAuthnID) in s.webAuthnIDs
  {
  }

  /** The verified flag is what was last set, and the rest of the user as before. */
  lemma VerifiedReadsBack<K(!new)>(s: State<K>, userID: string, verified: bool, key: Bytes -> K, id: string)
    ensures var (t, r) := Step(s, OnUsers(SetUserVerified(userID, verified)), key);
            && r == (if userID in s.users then Done else Failed(ErrNotFound))
            && Step(t, OnUsers(UserByID(id)), key).1 ==
               if id !in s.users then Failed(ErrNotFound)
               else TheUser(if id == userID then s.users[id].(verified := verified) else s.users[id])
  {
  }

  /** A password reads back as set, for existing users only; others keep theirs. */
  lemma PasswordReadsBack<K(!new)>(s: State<K>, userID: string, c: PasswordCredential, key: Bytes -> K, id: string)
    ensures var (t, r) := Step(s, OnPasswords(SetPassword(userID, c)), key);
            && r == (if userID in s.users then Done else Failed(ErrNotFound))
            && Step(t, OnPasswords(Password(id)), key).1 ==
               if id == userID && userID in s.users then ThePassword(c)
               else Step(s, OnPasswords(Password(id)), key).1
  {
  }

  /** So does a TOTP credential, until it is deleted. */
  lemma TOTPReadsBack<K(!new)>(s: State<K>, userID: string, c: TOTPCredential, key: Bytes -> K, id: string)
    ensures var (t, r) := Step(s, OnTOTP(SetTOTP(userID, c)), key);
            && r == (if userID in s.users then Done else Failed(ErrNotFound))
            && Step(t, OnTOTP(TOTP(id)), key).1 ==
               if id == userID && userID in s.users then TheTOTP(c) else Step(s, OnTOTP(TOTP(id)), key).1
    ensures var (t, r) := Step(s, OnTOTP(DeleteTOTP(userID)), key);
            && r == Done
            && Step(t, OnTOTP(TOTP(id)), key).1 ==
               if id == userID then Failed(ErrNotFound) else Step(s, OnTOTP(TOTP(id)), key).1
  {
  }

  /** What a user's list holds under an id. */
  function Held<K>(s: State<K>, userID: string, id: Bytes): Option<PasskeyCredential> {
    PasskeyCounter.Find(PasskeysOf(s.passkeys, userID), id)
  }

  /** A saved passkey is the last of its user's, and the first with its id; no list loses anything. */
  lemma SavedPasskeyReadsBack<K(!new)>(
    s: State<K>, userID: string, c: PasskeyCredential, key: Bytes -> K, other: string)
    ensures var (t, r) := Step(s, OnPasskeys(SavePasskey(userID, c)), key);
            var list := PasskeysOf(s.passkeys, other);
            && Step(t, OnPasskeys(Passkeys(other)), key).1 ==
               ThePasskeys(if r == Done && other == userID then list + [c] else list)
            && (r == Done ==> Held(t, userID, c.id) == Some(c))
            && (r == Done || r == Failed(ErrNotFound) || r == Failed(ErrConflict))
            && (r == Failed(ErrNotFound) <==> userID !in s.users)
            && (r == Failed(ErrConflict)
                <==> userID in s.users && exists u :: u in s.passkeys && Held(s, u, c.id).Some?)
  {
    TakenIffHeld(s, c.id);
    var list := PasskeysOf(s.passkeys, userID);
    if userID in s.users && !PasskeyTaken(s.passkeys, c.id) {
      assert Held(s, userID, c.id).None?;
      PasskeyCounter.IndexIs(list + [c], c.id, |list|);
    }
  }

  lemma TakenIffHeld<K(!new)>(s: State<K>, id: Bytes)
    ensures PasskeyTaken(s.passkeys, id) <==> exists u :: u in s.passkeys && Held(s, u, id).Some?
  {
    if u :| u in s.passkeys && HasPasskey(s.passkeys[u], id) {
      assert Held(s, u, id).Some?;
    }
    if u :| u in s.passkeys && Held(s, u, id).Some? {
      assert HasPasskey(s.passkeys[u], id);
    }
  }

  lemma WithoutOne(list: seq<PasskeyCredential>, d: nat, other: Bytes)
    requires d < |list| && list[d].id != other
    requires forall i, j :: 0 <= i < j < |list| ==> list[i].id != list[j].id
    ensures PasskeyCounter.Find(list[..d] + list[d + 1..], list[d].id).None?
    ensures PasskeyCounter.Find(list[..d] + list[d + 1..], other) == PasskeyCounter.Find(list, other)
  {
    var rest := list[..d] + list[d + 1..];
    forall i | 0 <= i < |rest|
      ensures rest[i].id != list[d].id && (PasskeyCounter.Find(list, other).None? ==> rest[i].id != other)
    {
      assert rest[i] == list[if i < d then i else i + 1];
    }
    if PasskeyCounter.Find(list, other).Some? {
      PasskeyCounter.FindAfterRemove(list, d, other);
    }
  }

  /** A deleted passkey is gone, all others of its user stay, and nobody else's list changes. */
  lemma DeletedPasskeyIsGone<K(!new)>(s: State<K>, userID: string, id: Bytes, key: Bytes -> K, other: Bytes)
    requires PasskeysUnique(s.passkeys) && other != id
    ensures var (t, r) := Step(s, OnPasskeys(DeletePasskey(userID, id)), key);
            && r == (if Held(s, userID, id).Some? then Done else Failed(ErrNotFound))
            && Held(t, userID, id).None?
            && Held(t, userID, other) == Held(s, userID, other)
            && forall u :: u != userID ==> PasskeysOf(t.passkeys, u) == PasskeysOf(s.passkeys, u)
  {
    var list := PasskeysOf(s.passkeys, userID);
    var d := PasskeyIndex(list, id);
    if d < |list| {
      WithoutOne(list, d, other);
    }
  }

  /** A replaced recovery set is the one that is then consumed from; nobody else's changes. */
  lemma RecoverySetIsReplaced<K(!new)>(
    s: State<K>, userID: string, codes: seq<RecoveryCode>, key: Bytes -> K, other: string)
    ensures var (t, r) := Step(s, OnRecovery(SetRecoveryCodes(userID, codes)), key);
            && r == (if userID in s.users then Done else Failed(ErrNotFound))
            && RecoveryOf(t.recovery, other) ==
               if userID in s.users && other == userID then codes else RecoveryOf(s.recovery, other)
  {
  }

  /** A deleted code is not found any more, and every other code answers as before. */
  lemma DeletedCodeIsGone<K(!new)>(
    s: State<K>, id: string, key: Bytes -> K, other: string, proof: Bytes, now: Time)
    ensures var t := Step(s, OnCodes(DeleteCode(id)), key).0;
            Step(t, OnCodes(AttemptCode(other, proof, now)), key).1 ==
            if other == id then Failed(ErrNotFound) else Step(s, OnCodes(AttemptCode(other, proof, now)), key).1
  {
  }
}
