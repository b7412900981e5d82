/**
 The memory store one level down, where byte slices are arrays on the heap: which operations copy, and that a
 caller who keeps or receives a slice therefore cannot change what the store answers later.
 */
module SliceStores {
  import opened Models
  import Contract = StoreContract

  datatype UserCell = UserCell(webAuthnID: array<Byte>, rest: User)
  datatype NewUserCell = NewUserCell(id: string, identifier: string, displayName: string, webAuthnID: array<Byte>)
  datatype TOTPCell = TOTPCell(secret: array<Byte>, confirmed: bool, createdAt: Time)
  datatype RecoveryCell = RecoveryCell(proof: array<Byte>, usedAt: Time)
  datatype CodeCell = CodeCell(proof: array<Byte>, rest: OneTimeCode)
  datatype AttemptCell = AttemptCell(code: CodeCell, matched: bool, exceeded: bool)
  datatype PasskeyCell = PasskeyCell(
    id: array<Byte>, publicKey: array<Byte>, transports: array<string>, aaguid: array<Byte>, rest: PasskeyCredential)

  function UserValue(c: UserCell): User
    reads c.webAuthnID
  {
    c.rest.(webAuthnID := c.webAuthnID[..])
  }

  function NewUserValue(c: NewUserCell): NewUser
    reads c.webAuthnID
  {
    NewUser(c.id, c.identifier, c.displayName, c.webAuthnID[..])
  }

  function TOTPValue(c: TOTPCell): TOTPCredential
    reads c.secret
  {
    TOTPCredential(c.secret[..], c.confirmed, c.createdAt)
  }

  function RecoveryValue(c: RecoveryCell): RecoveryCode
    reads c.proof
  {
    RecoveryCode(c.proof[..], c.usedAt)
  }

  function CodeValue(c: CodeCell): OneTimeCode
    reads c.proof
  {
    c.rest.(proof := c.proof[..])
  }

  function AttemptValue(a: AttemptCell): Contract.Attempt
    reads a.code.proof
  {
    Contract.Attempt(CodeValue(a.code), a.matched, a.exceeded)
  }

  /** The attempt neither matched nor used up the attempts. */
  predicate StaysLive(a: AttemptCell) {
    !a.matched && a.code.rest.attempts < a.code.rest.maxAttempts
  }

  function PasskeyValue(c: PasskeyCell): PasskeyCredential
    reads c.id, c.publicKey, c.transports, c.aaguid
  {
    c.rest.(id := c.id[..], publicKey := c.publicKey[..], transports := c.transports[..], aaguid := c.aaguid[..])
  }

  function PasskeySlices(c: PasskeyCell): set<object> {
    {c.id as object, c.publicKey as object, c.transports as object, c.aaguid as object}
  }

  function PasskeyListSlices(cells: seq<PasskeyCell>): set<object> {
    set c, o | c in cells && o in PasskeySlices(c) :: o
  }

  function RecoveryValues(cells: seq<RecoveryCell>): (values: seq<RecoveryCode>)
    reads RecoveryListSlices(cells)
    ensures |values| == |cells| && forall i :: 0 <= i < |cells| ==> values[i] == RecoveryValue(cells[i])
  {
    if cells == [] then [] else [RecoveryValue(cells[0])] + RecoveryValues(cells[1..])
  }

  function PasskeyValues(cells: seq<PasskeyCell>): (values: seq<PasskeyCredential>)
    reads PasskeyListSlices(cells)
    ensures |values| == |cells| && forall i :: 0 <= i < |cells| ==> values[i] == PasskeyValue(cells[i])
  {
    if cells == [] then []
    else
      assert PasskeySlices(cells[0]) <= PasskeyListSlices(cells);
      [PasskeyValue(cells[0])] + PasskeyValues(cells[1..])
  }

  /** `append([]byte(nil), a...)` */
  method Copied<T(0)>(a: array<T>) returns (b: array<T>)
    ensures fresh(b) && b[..] == a[..]
  {
    b := new T[a.Length];
    for i := 0 to a.Length
      invariant b[..i] == a[..i]
    {
      b[i] := a[i];
    }
  }

  method ClonePasskey(c: PasskeyCell) returns (d: PasskeyCell)
    ensures fresh(PasskeySlices(d)) && PasskeyValue(d) == PasskeyValue(c)
  {
    var id := Copied(c.id);
    var publicKey := Copied(c.publicKey);
    var transports := Copied(c.transports);
    var aaguid := Copied(c.aaguid);
    return PasskeyCell(id, publicKey, transports, aaguid, c.rest);
  }

  method CloneRecovery(codes: seq<RecoveryCell>) returns (result: seq<RecoveryCell>)
    ensures |result| == |codes| && RecoveryValues(result) == old(RecoveryValues(codes))
    ensures forall i :: 0 <= i < |result| ==> fresh(result[i].proof)
  {
    result := [];
    for i := 0 to |codes|
      invariant |result| == i
      invariant forall j :: 0 <= j < i ==> fresh(result[j].proof) && RecoveryValue(result[j]) == RecoveryValue(codes[j])
    {
      var proof := Copied(codes[i].proof);
      result := result + [codes[i].(proof := proof)];
    }
  }

  function RecoveryListSlices(cells: seq<RecoveryCell>): set<object> {
    set c | c in cells :: c.proof as object
  }

  lemma SameProofSlices(cells: seq<RecoveryCell>, i: nat, now: Time)
    requires i < |cells|
    ensures RecoveryListSlices(cells[i := cells[i].(usedAt := now)]) == RecoveryListSlices(cells)
  {
    var used := cells[i := cells[i].(usedAt := now)];
    forall o
      ensures o in RecoveryListSlices(used) <==> o in RecoveryListSlices(cells)
    {
      if o in RecoveryListSlices(cells) {
        var j :| 0 <= j < |cells| && cells[j].proof as object == o;
        assert used[j] in used && used[j].proof as object == o;
      }
      if o in RecoveryListSlices(used) {
        var j :| 0 <= j < |used| && used[j].proof as object == o;
        assert cells[j] in cells && cells[j].proof as object == o;
      }
    }
  }

  /** The slices of every user's list. */
  function AllSlices(passkeys: map<string, seq<PasskeyCell>>): set<object> {
    set u, o | u in passkeys && o in PasskeyListSlices(passkeys[u]) :: o
  }

  lemma AllSlicesAfter(passkeys: map<string, seq<PasskeyCell>>, u: string, cells: seq<PasskeyCell>)
    ensures AllSlices(passkeys[u := cells]) <= AllSlices(passkeys) + PasskeyListSlices(cells)
    ensures PasskeyListSlices(if u in passkeys then passkeys[u] else []) <= AllSlices(passkeys)
  {
  }

  lemma AppendedCells(cells: seq<PasskeyCell>, c: PasskeyCell)
    ensures PasskeyValues(cells + [c]) == PasskeyValues(cells) + [PasskeyValue(c)]
    ensures PasskeyListSlices(cells + [c]) <= PasskeyListSlices(cells) + PasskeySlices(c)
  {
    assert (cells + [c])[|cells|] == c;
  }

  lemma ReplacedCell(cells: seq<PasskeyCell>, i: nat, c: PasskeyCell)
    requires i < |cells|
    ensures PasskeyValues(cells[i := c]) == PasskeyValues(cells)[i := PasskeyValue(c)]
    ensures PasskeyListSlices(cells[i := c]) <= PasskeyListSlices(cells) + PasskeySlices(c)
  {
  }

  lemma RemovedCell(cells: seq<PasskeyCell>, i: nat)
    requires i < |cells|
    ensures PasskeyValues(cells[..i] + cells[i + 1..]) == PasskeyValues(cells)[..i] + PasskeyValues(cells)[i + 1..]
    ensures PasskeyListSlices(cells[..i] + cells[i + 1..]) <= PasskeyListSlices(cells)
  {
    hide PasskeyValue, PasskeyValues, PasskeySlices;
    var rest := cells[..i] + cells[i + 1..];
    forall o | o in PasskeyListSlices(rest)
      ensures o in PasskeyListSlices(cells)
    {
      var c :| c in rest && o in PasskeySlices(c);
      assert c in cells;
    }
    var values := PasskeyValues(rest);
    forall j | 0 <= j < |rest|
      ensures values[j] == (PasskeyValues(cells)[..i] + PasskeyValues(cells)[i + 1..])[j]
    {
      assert values[j] == PasskeyValue(rest[j]);
      assert rest[j] == if j < i then cells[j] else cells[j + 1];
    }
  }

  /** No two codes share a proof slice, nor does a code share it with another part. */
  ghost predicate Separate(codes: map<string, CodeCell>, others: set<object>) {
    && (forall i, j :: i in codes && j in codes && codes[i].proof == codes[j].proof ==> i == j)
    && (forall i :: i in codes ==> codes[i].proof !in others)
  }

  lemma AddedProof(codes: map<string, CodeCell>, others: set<object>, id: string, cell: CodeCell)
    requires Separate(codes, others) && cell.proof !in others
    requires forall i :: i in codes && i != id ==> codes[i].proof != cell.proof
    ensures Separate(codes[id := cell], others)
  {
  }

  function ProofsOf(codes: map<string, CodeCell>): set<object> {
    set id | id in codes :: codes[id].proof as object
  }

  lemma RemovedProof(codes: map<string, CodeCell>, others: set<object>, id: string)
    requires Separate(codes, others)
    ensures Separate(codes - {id}, others)
  {
  }

  /** The proof of an attempted code is still the store's exactly if its entry is. */
  lemma AttemptedProof(codes: map<string, CodeCell>, others: set<object>, id: string, cell: CodeCell)
    requires Separate(codes, others) && id in codes && cell.proof == codes[id].proof
    ensures Separate(codes[id := cell], others)
    ensures cell.proof in ProofsOf(codes[id := cell])
    ensures cell.proof !in others + ProofsOf(codes - {id})
  {
    assert codes[id := cell][id] == cell;
  }

  class SliceStore {
    var users: map<string, UserCell>
    var identifiers: map<string, string>
    var webAuthnIDs: map<Bytes, string>
    var passwords: map<string, PasswordCredential>
    var totp: map<string, TOTPCell>
    var recovery: map<string, seq<RecoveryCell>>
    var passkeys: map<string, seq<PasskeyCell>>
    var codes: map<string, CodeCell>

    // The slices each part owns, and the contract values they hold.

    ghost function UserSlices(): set<object>
      reads this`users
    {
      set u | u in users :: users[u].webAuthnID
    }

    /** Users, their indexes and passwords; the other parts of the contract's state are left empty. */
    ghost function Accounts(): Contract.State<Bytes>
      reads this`users, this`identifiers, this`webAuthnIDs, this`passwords, UserSlices()
    {
      Contract.State(map u | u in users :: UserValue(users[u]), identifiers, webAuthnIDs, passwords,
                     map[], map[], map[], map[], map[])
    }

    ghost function TOTPSlices(): set<object>
      reads this`totp
    {
      set u | u in totp :: totp[u].secret
    }

    ghost function TOTPs(): Contract.TOTPs
      reads this`totp, TOTPSlices()
    {
      map u | u in totp :: TOTPValue(totp[u])
    }

    ghost function RecoverySlices(): set<object>
      reads this`recovery
    {
      set u, o | u in recovery && o in RecoveryListSlices(recovery[u]) :: o
    }

    ghost function Recoveries(): Contract.Recovery
      reads this`recovery, RecoverySlices()
    {
      map u | u in recovery :: RecoveryValues(recovery[u])
    }

    ghost function AllPasskeySlices(): set<object>
      reads this`passkeys
    {
      AllSlices(passkeys)
    }

    function CodesOf(userID: string): seq<RecoveryCell>
      reads this`recovery
    {
      if userID in recovery then recovery[userID] else []
    }

    function CellsOf(userID: string): seq<PasskeyCell>
      reads this`passkeys
    {
      if userID in passkeys then passkeys[userID] else []
    }

    ghost function Passkeys(): Contract.Passkeys
      reads this`passkeys, AllPasskeySlices()
    {
      map u | u in passkeys :: PasskeyValues(passkeys[u])
    }

    ghost function CodeSlices(): set<object>
      reads this`codes
    {
      ProofsOf(codes)
    }

    ghost function Codes(): Contract.Codes
      reads this`codes, CodeSlices()
    {
      map id | id in codes :: CodeValue(codes[id])
    }

    // Replacing one user's list leaves the values of all others, whose slices are not written.

    twostate lemma RecoveryListReplaced(userID: string)
      requires userID in recovery && recovery == old(recovery)[userID := recovery[userID]]
      requires unchanged(old(RecoverySlices()))
      ensures Recoveries() == old(Recoveries())[userID := RecoveryValues(recovery[userID])]
    {
    }

    twostate lemma PasskeyListReplaced(userID: string)
      requires userID in passkeys && passkeys == old(passkeys)[userID := passkeys[userID]]
      requires unchanged(old(AllPasskeySlices()))
      ensures Passkeys() == old(Passkeys())[userID := PasskeyValues(passkeys[userID])]
    {
    }

    // Writers: what enters the store is fresh, so it is not a slice any caller holds.

    method Insert(input: NewUserCell, now: Time) returns (shown: UserCell)
      modifies this`users, this`identifiers, this`webAuthnIDs
      ensures Accounts().users == old(Accounts().users)[input.id := Contract.UserFrom(old(NewUserValue(input)), now)]
      ensures identifiers == old(identifiers)[input.identifier := input.id]
      ensures webAuthnIDs == old(webAuthnIDs)[old(input.webAuthnID[..]) := input.id]
      ensures UserValue(shown) == Contract.UserFrom(old(NewUserValue(input)), now)
      ensures fresh(UserSlices() - old(UserSlices()))
      ensures fresh(shown.webAuthnID) && shown.webAuthnID !in UserSlices()
    {
      var kept := Copied(input.webAuthnID);
      var user := UserCell(kept, User(input.id, input.identifier, input.displayName, [], false, false, now));
      users := users[input.id := user];
      identifiers := identifiers[input.identifier := input.id];
      webAuthnIDs := webAuthnIDs[kept[..] := input.id];
      assert Accounts().users == old(Accounts()).users[input.id := UserValue(user)];
      var copy := Copied(kept);
      return user.(webAuthnID := copy);
    }

    method CreateUser(input: NewUserCell, now: Time) returns (r: Result<UserCell>)
      modifies this`users, this`identifiers, this`webAuthnIDs
      ensures Accounts()
              == Contract.CreateUser(old(Accounts()), old(NewUserValue(input)), old(input.webAuthnID[..]), now).0
      ensures var s := Contract.CreateUser(old(Accounts()), old(NewUserValue(input)), old(input.webAuthnID[..]), now).1;
              if s.Err? then r == Err(s.error) else r.Ok? && UserValue(r.value) == s.value
      ensures fresh(UserSlices() - old(UserSlices()))
      ensures r.Ok? ==> fresh(r.value.webAuthnID) && r.value.webAuthnID !in UserSlices()
    {
      if input.identifier in identifiers {
        return Err(ErrConflict);
      }
      if input.id in users || input.id == "" || input.identifier == "" || input.webAuthnID.Length == 0 {
        return Err(ErrConflict);
      }
      if input.webAuthnID[..] in webAuthnIDs {
        return Err(ErrConflict);
      }
      hide UserValue;
      var user := Insert(input, now);
      return Ok(user);
    }

    method CreatePasswordUser(input: NewUserCell, password: PasswordCredential, now: Time)
      returns (r: Result<UserCell>)
      modifies this`users, this`identifiers, this`webAuthnIDs, this`passwords
      ensures Accounts() == Contract.CreatePasswordUser(
                old(Accounts()), old(NewUserValue(input)), old(input.webAuthnID[..]), password, now).0
      ensures var s := Contract.CreatePasswordUser(
                old(Accounts()), old(NewUserValue(input)), old(input.webAuthnID[..]), password, now).1;
              if s.Err? then r == Err(s.error) else r.Ok? && UserValue(r.value) == s.value
      ensures fresh(UserSlices() - old(UserSlices()))
      ensures r.Ok? ==> fresh(r.value.webAuthnID) && r.value.webAuthnID !in UserSlices()
    {
      r := CreateUser(input, now);
      if r.Ok? {
        passwords := passwords[input.id := password];
      }
    }

    /** Rewrites the entry in place, keeping its slice. */
    method SetUserVerified(userID: string, verified: bool) returns (r: Result<()>)
      modifies this`users
      ensures Accounts() == Contract.SetUserVerified(old(Accounts()), userID, verified).0
      ensures r == Contract.SetUserVerified(old(Accounts()), userID, verified).1
      ensures UserSlices() <= old(UserSlices())
    {
      if userID !in users {
        return Err(ErrNotFound);
      }
      var user := users[userID].(rest := users[userID].rest.(verified := verified));
      users := users[userID := user];
      assert Accounts().users == old(Accounts()).users[userID := UserValue(user)];
      return Ok(());
    }

    method SetTOTP(userID: string, credential: TOTPCell) returns (r: Result<()>)
      modifies this`totp
      ensures (TOTPs(), r) == Contract.SetTOTP(users.Keys, old(TOTPs()), userID, old(TOTPValue(credential)))
      ensures fresh(TOTPSlices() - old(TOTPSlices()))
    {
      if userID !in users {
        return Err(ErrNotFound);
      }
      var secret := Copied(credential.secret);
      totp := totp[userID := credential.(secret := secret)];
      assert TOTPs() == old(TOTPs())[userID := old(TOTPValue(credential))];
      return Ok(());
    }

    method DeleteTOTP(userID: string)
      modifies this`totp
      ensures TOTPs() == old(TOTPs()) - {userID}
      ensures TOTPSlices() <= old(TOTPSlices())
    {
      totp := totp - {userID};
    }

    method PutRecovery(userID: string, cells: seq<RecoveryCell>)
      modifies this`recovery
      ensures Recoveries() == old(Recoveries())[userID := old(RecoveryValues(cells))]
      ensures RecoverySlices() <= old(RecoverySlices()) + RecoveryListSlices(cells)
    {
      hide RecoveryValues;
      recovery := recovery[userID := cells];
      forall u, o | u in recovery && o in RecoveryListSlices(recovery[u])
        ensures o in old(RecoverySlices()) || o in RecoveryListSlices(cells)
      {
        assert u == userID || (u in old(recovery) && recovery[u] == old(recovery)[u]);
      }
      RecoveryListReplaced(userID);
    }

    method SetRecoveryCodes(userID: string, list: seq<RecoveryCell>) returns (r: Result<()>)
      modifies this`recovery
      ensures (Recoveries(), r)
              == Contract.SetRecoveryCodes(users.Keys, old(Recoveries()), userID, old(RecoveryValues(list)))
      ensures fresh(RecoverySlices() - old(RecoverySlices()))
    {
      if userID !in users {
        return Err(ErrNotFound);
      }
      ghost var stored, values := Recoveries(), RecoveryValues(list);
      var copied := CloneRecovery(list);
      RecoveriesKept();
      assert Recoveries() == stored && RecoveryValues(copied) == values;
      PutRecovery(userID, copied);
      return Ok(());
    }

    /** Marks a code as used in place; no slice enters or leaves. */
    method ConsumeRecoveryCode(userID: string, proof: array<Byte>, now: Time) returns (matched: bool)
      modifies this`recovery
      ensures (Recoveries(), matched)
              == Contract.ConsumeRecoveryCode(old(Recoveries()), userID, old(proof[..]), now)
      ensures RecoverySlices() <= old(RecoverySlices())
    {
      var items := CodesOf(userID);
      ghost var list := RecoveryValues(items);
      assert list == Contract.RecoveryOf(Recoveries(), userID);
      ghost var k := Contract.RecoveryIndex(list, proof[..]);
      for i := 0 to |items|
        invariant i <= k
        invariant recovery == old(recovery)
      {
        assert list[i] == RecoveryValue(items[i]);
        if items[i].usedAt == ZERO_TIME && items[i].proof[..] == proof[..] {
          assert k == i;
          var used := items[i := items[i].(usedAt := now)];
          assert RecoveryValues(used) == list[i := list[i].(usedAt := now)];
          SameProofSlices(items, i, now);
          PutRecovery(userID, used);
          return true;
        }
      }
      return false;
    }

    /** The conflict scan over every user's passkeys. */
    method IsTaken(id: array<Byte>) returns (taken: bool)
      ensures taken == Contract.PasskeyTaken(old(Passkeys()), old(id[..]))
      ensures Passkeys() == old(Passkeys())
    {
      var remaining := passkeys.Keys;
      ghost var stored, wanted := Passkeys(), id[..];
      while remaining != {}
        invariant remaining <= passkeys.Keys
        invariant forall u :: u in passkeys && u !in remaining ==> !Contract.HasPasskey(stored[u], wanted)
        decreases remaining
      {
        var u :| u in remaining;
        for i := 0 to |passkeys[u]|
          invariant forall j :: 0 <= j < i ==> stored[u][j].id != wanted
        {
          assert stored[u][i] == PasskeyValue(passkeys[u][i]);
          if passkeys[u][i].id[..] == id[..] {
            assert Contract.HasPasskey(stored[u], wanted);
            return true;
          }
        }
        remaining := remaining - {u};
      }
      return false;
    }

    method PutPasskeys(userID: string, cells: seq<PasskeyCell>)
      modifies this`passkeys
      ensures Passkeys() == old(Passkeys())[userID := old(PasskeyValues(cells))]
      ensures AllPasskeySlices() <= old(AllPasskeySlices()) + PasskeyListSlices(cells)
    {
      hide PasskeyValues;
      AllSlicesAfter(passkeys, userID, cells);
      passkeys := passkeys[userID := cells];
      PasskeyListReplaced(userID);
    }

    method Append(userID: string, credential: PasskeyCell)
      modifies this`passkeys
      ensures Passkeys() == old(Passkeys())[userID :=
                Contract.PasskeysOf(old(Passkeys()), userID) + [old(PasskeyValue(credential))]]
      ensures fresh(AllPasskeySlices() - old(AllPasskeySlices()))
    {
      hide PasskeyValues;
      var items := CellsOf(userID);
      ghost var stored, value := Passkeys(), PasskeyValue(credential);
      ghost var list := PasskeyValues(items);
      AllSlicesAfter(passkeys, userID, items);
      var copied := ClonePasskey(credential);
      assert Passkeys() == stored && PasskeyValues(items) == list;
      hide PasskeyValue, AllSlices;
      AppendedCells(items, copied);
      PutPasskeys(userID, items + [copied]);
    }

    method Replace(userID: string, i: nat, credential: PasskeyCell)
      requires i < |CellsOf(userID)|
      modifies this`passkeys
      ensures i < |Contract.PasskeysOf(old(Passkeys()), userID)|
      ensures Passkeys() == old(Passkeys())[userID :=
                Contract.PasskeysOf(old(Passkeys()), userID)[i := old(PasskeyValue(credential))]]
      ensures fresh(AllPasskeySlices() - old(AllPasskeySlices()))
    {
      hide PasskeyValues;
      var items := CellsOf(userID);
      ghost var stored, value := Passkeys(), PasskeyValue(credential);
      ghost var list := PasskeyValues(items);
      AllSlicesAfter(passkeys, userID, items);
      var copied := ClonePasskey(credential);
      assert Passkeys() == stored && PasskeyValues(items) == list;
      hide PasskeyValue, AllSlices;
      ReplacedCell(items, i, copied);
      PutPasskeys(userID, items[i := copied]);
    }

    method SavePasskey(userID: string, credential: PasskeyCell) returns (r: Result<()>)
      modifies this`passkeys
      ensures (Passkeys(), r)
              == Contract.SavePasskey(users.Keys, old(Passkeys()), userID, old(PasskeyValue(credential)))
      ensures fresh(AllPasskeySlices() - old(AllPasskeySlices()))
    {
      hide PasskeyValues, Contract.PasskeyTaken;
      if userID !in users {
        return Err(ErrNotFound);
      }
      ghost var stored, value := Passkeys(), PasskeyValue(credential);
      var taken := IsTaken(credential.id);
      assert Passkeys() == stored && PasskeyValue(credential) == value;
      if taken {
        return Err(ErrConflict);
      }
      Append(userID, credential);
      return Ok(());
    }

    /** A successful update puts a fresh copy in the place of the old credential. */
    method UpdatePasskey(userID: string, credential: PasskeyCell, previous: nat) returns (r: Result<()>)
      modifies this`passkeys
      ensures (Passkeys(), r)
              == Contract.UpdatePasskey(old(Passkeys()), userID, old(PasskeyValue(credential)), previous)
      ensures fresh(AllPasskeySlices() - old(AllPasskeySlices()))
    {
      var items := CellsOf(userID);
      ghost var list := PasskeyValues(items);
      ghost var k := Contract.PasskeyIndex(list, credential.id[..]);
      for i := 0 to |items|
        invariant i <= k
        invariant passkeys == old(passkeys)
      {
        assert list[i] == PasskeyValue(items[i]);
        if items[i].id[..] == credential.id[..] {
          if items[i].rest.signCount != previous {
            return Err(ErrConflict);
          }
          hide PasskeyListSlices, AllSlices, Contract.PasskeyIndex;
          assert k == i;
          Replace(userID, i, credential);
          return Ok(());
        }
      }
      return Err(ErrNotFound);
    }

    method DeletePasskey(userID: string, id: array<Byte>) returns (r: Result<()>)
      modifies this`passkeys
      ensures (Passkeys(), r) == Contract.DeletePasskey(old(Passkeys()), userID, old(id[..]))
      ensures AllPasskeySlices() <= old(AllPasskeySlices())
    {
      var items := CellsOf(userID);
      ghost var list := PasskeyValues(items);
      ghost var k := Contract.PasskeyIndex(list, id[..]);
      for i := 0 to |items|
        invariant i <= k
        invariant passkeys == old(passkeys)
      {
        assert list[i] == PasskeyValue(items[i]);
        if items[i].id[..] == id[..] {
          RemovedCell(items, i);
          AllSlicesAfter(passkeys, userID, items[..i] + items[i + 1..]);
          hide PasskeyValues, PasskeyListSlices, AllSlices, Contract.PasskeyIndex;
          assert k == i && PasskeyValues(items[..i] + items[i + 1..]) == list[..k] + list[k + 1..];
          PutPasskeys(userID, items[..i] + items[i + 1..]);
          return Ok(());
        }
      }
      return Err(ErrNotFound);
    }

    method SaveCode(code: CodeCell) returns (r: Result<()>)
      modifies this`codes
      ensures (Codes(), r) == Contract.SaveCode(old(Codes()), old(CodeValue(code)))
      ensures fresh(CodeSlices() - old(CodeSlices()))
      ensures codes == old(codes)
              || (code.rest.id in codes && fresh(codes[code.rest.id].proof)
                  && codes == old(codes)[code.rest.id := codes[code.rest.id]])
    {
      if code.rest.id in codes {
        return Err(ErrConflict);
      }
      var proof := Copied(code.proof);
      codes := codes[code.rest.id := code.(proof := proof)];
      assert Codes() == old(Codes())[code.rest.id := old(CodeValue(code))];
      return Ok(());
    }

    // Readers: what leaves the store is fresh, so it is not a slice the store holds.

    method UserByID(id: string) returns (found: Option<UserCell>)
      ensures found.None? <==> Contract.UserByID(Accounts(), id) == Err(ErrNotFound)
      ensures found.Some? ==> Contract.UserByID(Accounts(), id) == Ok(UserValue(found.value))
      ensures found.Some? ==> fresh(found.value.webAuthnID)
    {
      if id !in users {
        return None;
      }
      var shown := Shown(id);
      return Some(shown);
    }

    /** `cloneUser` of a map entry; a missing one is the zero user with an empty slice. */
    method Shown(id: string) returns (shown: UserCell)
      ensures UserValue(shown) == Contract.UserOrZero(Accounts(), id)
      ensures fresh(shown.webAuthnID)
    {
      if id !in users {
        var empty := new Byte[0];
        return UserCell(empty, Contract.NO_USER);
      }
      var webAuthnID := Copied(users[id].webAuthnID);
      return users[id].(webAuthnID := webAuthnID);
    }

    method UserByIdentifier(identifier: string) returns (found: Option<UserCell>)
      ensures found.None? <==> Contract.UserByIdentifier(Accounts(), identifier) == Err(ErrNotFound)
      ensures found.Some? ==> Contract.UserByIdentifier(Accounts(), identifier) == Ok(UserValue(found.value))
      ensures found.Some? ==> fresh(found.value.webAuthnID)
    {
      if identifier !in identifiers {
        return None;
      }
      var shown := Shown(identifiers[identifier]);
      return Some(shown);
    }

    method UserByWebAuthnID(webAuthnID: array<Byte>) returns (found: Option<UserCell>)
      ensures found.None? <==> Contract.UserByWebAuthnID(Accounts(), webAuthnID[..]) == Err(ErrNotFound)
      ensures found.Some? ==> Contract.UserByWebAuthnID(Accounts(), webAuthnID[..]) == Ok(UserValue(found.value))
      ensures found.Some? ==> fresh(found.value.webAuthnID)
    {
      if webAuthnID[..] !in webAuthnIDs {
        return None;
      }
      var shown := Shown(webAuthnIDs[webAuthnID[..]]);
      return Some(shown);
    }

    method TOTP(userID: string) returns (found: Option<TOTPCell>)
      ensures found.None? <==> Contract.TOTP(TOTPs(), userID) == Err(ErrNotFound)
      ensures found.Some? ==> Contract.TOTP(TOTPs(), userID) == Ok(TOTPValue(found.value))
      ensures found.Some? ==> fresh(found.value.secret)
    {
      if userID !in totp {
        return None;
      }
      var secret := Copied(totp[userID].secret);
      return Some(totp[userID].(secret := secret));
    }

    method PasskeyList(userID: string) returns (result: seq<PasskeyCell>)
      ensures PasskeyValues(result) == Contract.PasskeysOf(Passkeys(), userID)
      ensures fresh(PasskeyListSlices(result))
    {
      var items := CellsOf(userID);
      result := [];
      for i := 0 to |items|
        invariant |result| == i
        invariant forall j :: 0 <= j < i ==>
                    fresh(PasskeySlices(result[j])) && PasskeyValue(result[j]) == PasskeyValue(items[j])
      {
        var copied := ClonePasskey(items[i]);
        result := result + [copied];
      }
      assert PasskeyValues(result) == PasskeyValues(items);
    }

    method DeleteCode(id: string)
      modifies this`codes
      ensures Codes() == old(Codes()) - {id}
      ensures codes == old(codes) - {id}
    {
      codes := codes - {id};
    }

    /** The exception: the proof slice of a code that stays live is handed out as it is. */
    method AttemptCode(id: string, proof: array<Byte>, now: Time) returns (r: Result<AttemptCell>)
      modifies this`codes
      ensures Codes() == Contract.AttemptCode(old(Codes()), id, old(proof[..]), now).0
      ensures var s := Contract.AttemptCode(old(Codes()), id, old(proof[..]), now).1;
              if s.Err? then r == Err(s.error) else r.Ok? && AttemptValue(r.value) == s.value
      ensures r.Ok? ==> id in old(codes) && r.value.code.proof == old(codes)[id].proof
      ensures codes == if r.Ok? && StaysLive(r.value) then old(codes)[id := r.value.code] else old(codes) - {id}
    {
      if id !in codes {
        assert codes - {id} == codes;
        return Err(ErrNotFound);
      }
      var code := codes[id];
      if code.rest.expiresAt <= now {
        codes := codes - {id};
        return Err(ErrExpired);
      }
      code := code.(rest := code.rest.(attempts := code.rest.attempts + 1));
      var matched := code.proof[..] == proof[..];
      if matched || code.rest.attempts >= code.rest.maxAttempts {
        codes := codes - {id};
      } else {
        codes := codes[id := code];
      }
      if !matched && code.rest.attempts >= code.rest.maxAttempts {
        return Ok(AttemptCell(code, false, true));
      }
      return Ok(AttemptCell(code, matched, false));
    }

    /** The slices of all parts but the one-time codes. */
    ghost function OtherSlices(): set<object>
      reads this`users, this`totp, this`recovery, this`passkeys
    {
      UserSlices() + TOTPSlices() + RecoverySlices() + AllPasskeySlices()
    }

    // A part whose field and slices are not written keeps its values.

    twostate lemma AccountsKept()
      requires unchanged(`users, `identifiers, `webAuthnIDs, `passwords) && unchanged(old(UserSlices()))
      ensures Accounts() == old(Accounts()) && UserSlices() == old(UserSlices())
    {
    }

    twostate lemma TOTPsKept()
      requires unchanged(`totp) && unchanged(old(TOTPSlices()))
      ensures TOTPs() == old(TOTPs()) && TOTPSlices() == old(TOTPSlices())
    {
    }

    twostate lemma RecoveriesKept()
      requires unchanged(`recovery) && unchanged(old(RecoverySlices()))
      ensures Recoveries() == old(Recoveries()) && RecoverySlices() == old(RecoverySlices())
    {
    }

    twostate lemma PasskeysKept()
      requires unchanged(`passkeys) && unchanged(old(AllPasskeySlices()))
      ensures Passkeys() == old(Passkeys()) && AllPasskeySlices() == old(AllPasskeySlices())
    {
    }

    twostate lemma CodesKept()
      requires unchanged(`codes) && unchanged(old(CodeSlices()))
      ensures Codes() == old(Codes()) && CodeSlices() == old(CodeSlices())
    {
    }

    /** Every slice the store's answers depend on. */
    ghost function Owned(): set<object>
      reads this`users, this`totp, this`recovery, this`passkeys, this`codes
    {
      OtherSlices() + CodeSlices()
    }

    ghost predicate ProofsSeparate()
      reads this`users, this`totp, this`recovery, this`passkeys, this`codes
    {
      Separate(codes, OtherSlices())
    }

    /** Writing to slices the store does not own changes none of its contents, and so none of its later answers. */
    twostate lemma AllKept()
      requires unchanged(this) && unchanged(old(Owned()))
      ensures Contents() == old(Contents()) && Owned() == old(Owned()) && ProofsSeparate() == old(ProofsSeparate())
    {
    }

    /** The whole state of the contract; sessions hold no slices and are not kept here. */
    ghost function Contents(): Contract.State<Bytes>
      reads this, Owned()
    {
      Accounts().(passkeys := Passkeys(), totp := TOTPs(), recovery := Recoveries(), codes := Codes())
    }

    // An operation on one part writes no old slice of another part, and leaves the other parts.

    twostate lemma OnlyAccounts()
      requires unchanged(`totp, `recovery, `passkeys, `codes) && unchanged(old(Owned()))
      ensures Contents() ==
              old(Contents()).(users := Accounts().users, identifiers := Accounts().identifiers,
                               webAuthnIDs := Accounts().webAuthnIDs, passwords := Accounts().passwords)
      ensures TOTPSlices() == old(TOTPSlices()) && RecoverySlices() == old(RecoverySlices())
              && AllPasskeySlices() == old(AllPasskeySlices()) && CodeSlices() == old(CodeSlices())
    {
      TOTPsKept();
      RecoveriesKept();
      PasskeysKept();
      CodesKept();
    }

    twostate lemma OnlyTOTPs()
      requires unchanged(`users, `identifiers, `webAuthnIDs, `passwords, `recovery, `passkeys, `codes)
      requires unchanged(old(Owned()))
      ensures Contents() == old(Contents()).(totp := TOTPs())
      ensures UserSlices() == old(UserSlices()) && RecoverySlices() == old(RecoverySlices())
              && AllPasskeySlices() == old(AllPasskeySlices()) && CodeSlices() == old(CodeSlices())
    {
      AccountsKept();
      RecoveriesKept();
      PasskeysKept();
      CodesKept();
    }

    twostate lemma OnlyRecoveries()
      requires unchanged(`users, `identifiers, `webAuthnIDs, `passwords, `totp, `passkeys, `codes)
      requires unchanged(old(UserSlices())) && unchanged(old(TOTPSlices()))
      requires unchanged(old(AllPasskeySlices())) && unchanged(old(CodeSlices()))
      ensures Contents() == old(Contents()).(recovery := Recoveries())
      ensures UserSlices() == old(UserSlices()) && TOTPSlices() == old(TOTPSlices())
              && AllPasskeySlices() == old(AllPasskeySlices()) && CodeSlices() == old(CodeSlices())
    {
      AccountsKept();
      TOTPsKept();
      PasskeysKept();
      CodesKept();
    }

    twostate lemma OnlyPasskeys()
      requires unchanged(`users, `identifiers, `webAuthnIDs, `passwords, `totp, `recovery, `codes)
      requires unchanged(old(UserSlices())) && unchanged(old(TOTPSlices()))
      requires unchanged(old(RecoverySlices())) && unchanged(old(CodeSlices()))
      ensures Contents() == old(Contents()).(passkeys := Passkeys())
      ensures UserSlices() == old(UserSlices()) && TOTPSlices() == old(TOTPSlices())
              && RecoverySlices() == old(RecoverySlices()) && CodeSlices() == old(CodeSlices())
    {
      AccountsKept();
      TOTPsKept();
      RecoveriesKept();
      CodesKept();
    }

    twostate lemma OnlyCodes()
      requires unchanged(`users, `identifiers, `webAuthnIDs, `passwords, `totp, `recovery, `passkeys)
      requires unchanged(old(Owned()))
      ensures Contents() == old(Contents()).(codes := Codes())
      ensures UserSlices() == old(UserSlices()) && TOTPSlices() == old(TOTPSlices())
              && RecoverySlices() == old(RecoverySlices()) && AllPasskeySlices() == old(AllPasskeySlices())
    {
      AccountsKept();
      TOTPsKept();
      RecoveriesKept();
      PasskeysKept();
    }
  }
}
