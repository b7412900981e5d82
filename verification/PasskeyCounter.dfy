/** The passkey signature counter as a compare-and-swap cell, over whole runs of passkey calls. */
module PasskeyCounter {
  import opened Models
  import opened Contract = StoreContract
  import opened StoreCalls

  function After(users: set<string>, passkeys: Passkeys, calls: seq<PasskeyCall>): Passkeys {
    if calls == [] then passkeys
    else StepPasskeys(users, After(users, passkeys, calls[..|calls| - 1]), calls[|calls| - 1]).0
  }

  /** The first credential with this id in a user's list. */
  function Find(list: seq<PasskeyCredential>, id: Bytes): (r: Option<PasskeyCredential>)
    ensures r.Some? <==> HasPasskey(list, id)
    ensures r.Some? ==> r.value.id == id
    ensures var i := PasskeyIndex(list, id); r == if i < |list| then Some(list[i]) else None
  {
    if PasskeyIndex(list, id) < |list| then
      assert HasPasskey(list, id);
      Some(list[PasskeyIndex(list, id)])
    else None
  }

  function IDs(list: seq<PasskeyCredential>): (ids: seq<Bytes>)
    ensures |ids| == |list|
  {
    seq(|list|, i requires 0 <= i < |list| => list[i].id)
  }

  predicate Updates(call: PasskeyCall, userID: string, id: Bytes) {
    call.UpdatePasskey? && call.userID == userID && call.credential.id == id
  }

  lemma IndexIs(list: seq<PasskeyCredential>, id: Bytes, i: nat)
    requires i < |list| && list[i].id == id && forall j :: 0 <= j < i ==> list[j].id != id
    ensures PasskeyIndex(list, id) == i
  {
  }

  lemma FindAfterAppend(list: seq<PasskeyCredential>, c: PasskeyCredential, id: Bytes)
    requires Find(list, id).Some?
    ensures Find(list + [c], id) == Find(list, id)
  {
    IndexIs(list + [c], id, PasskeyIndex(list, id));
  }

  lemma FindAfterRemove(list: seq<PasskeyCredential>, k: nat, id: Bytes)
    requires k < |list| && list[k].id != id && Find(list, id).Some?
    ensures Find(list[..k] + list[k + 1..], id) == Find(list, id)
  {
    var i := PasskeyIndex(list, id);
    IndexIs(list[..k] + list[k + 1..], id, if k < i then i - 1 else i);
  }

  lemma FindAfterUpdate(list: seq<PasskeyCredential>, c: PasskeyCredential, id: Bytes)
    requires PasskeyIndex(list, c.id) < |list| && Find(list, id).Some?
    ensures Find(list[PasskeyIndex(list, c.id) := c], id) == if id == c.id then Some(c) else Find(list, id)
  {
    var k := PasskeyIndex(list, c.id);
    var i := PasskeyIndex(list, id);
    var t := list[k := c];
    forall j | 0 <= j < |list|
      ensures t[j].id == list[j].id
    {
    }
    IndexIs(t, id, i);
  }

  /** What one call does to a credential that it does not delete. */
  lemma StepOnCounter(users: set<string>, passkeys: Passkeys, call: PasskeyCall, userID: string, id: Bytes)
    requires Find(PasskeysOf(passkeys, userID), id).Some?
    requires call != PasskeyCall.DeletePasskey(userID, id)
    ensures var found := Find(PasskeysOf(passkeys, userID), id).value;
            var (t, r) := StepPasskeys(users, passkeys, call);
            var next := Find(PasskeysOf(t, userID), id);
            if Updates(call, userID, id) then
              if found.signCount == call.previous then r == Done && next == Some(call.credential)
              else r == Failed(ErrConflict) && t == passkeys
            else next == Some(found)
  {
    var list := PasskeysOf(passkeys, userID);
    match call
    case SavePasskey(u, c) => FindAfterAppend(list, c, id);
    case UpdatePasskey(u, c, previous) =>
      if PasskeyIndex(list, c.id) < |list| {
        FindAfterUpdate(list, c, id);
      }
    case DeletePasskey(u, d) =>
      if PasskeyIndex(list, d) < |list| && d != id {
        FindAfterRemove(list, PasskeyIndex(list, d), id);
      }
    case Passkeys(_) =>
  }

  /** Updates, whether they succeed or fail, keep every user's credential ids in place. */
  lemma UpdateKeepsIDs(passkeys: Passkeys, userID: string, credential: PasskeyCredential, previous: nat, other: string)
    ensures var (t, r) := Contract.UpdatePasskey(passkeys, userID, credential, previous);
            && IDs(PasskeysOf(t, other)) == IDs(PasskeysOf(passkeys, other))
            && (r.Err? ==> t == passkeys)
  {
  }

  /** The credential is kept through the run, and every update of it asks for a larger counter. */
  predicate Rising(calls: seq<PasskeyCall>, userID: string, id: Bytes) {
    forall i :: 0 <= i < |calls| ==>
      && calls[i] != PasskeyCall.DeletePasskey(userID, id)
      && (Updates(calls[i], userID, id) ==> calls[i].credential.signCount > calls[i].previous)
  }

  /** Call i updated the credential and reported success. */
  predicate Succeeds(users: set<string>, passkeys: Passkeys, calls: seq<PasskeyCall>, i: nat, userID: string, id: Bytes)
    requires i < |calls|
  {
    && Updates(calls[i], userID, id)
    && StepPasskeys(users, After(users, passkeys, calls[..i]), calls[i]).1 == Done
  }

  function Counter(passkeys: Passkeys, userID: string, id: Bytes): nat
    requires Find(PasskeysOf(passkeys, userID), id).Some?
  {
    Find(PasskeysOf(passkeys, userID), id).value.signCount
  }

  lemma StepNeverLowers(users: set<string>, passkeys: Passkeys, call: PasskeyCall, userID: string, id: Bytes)
    requires Find(PasskeysOf(passkeys, userID), id).Some?
    requires call != PasskeyCall.DeletePasskey(userID, id)
    requires Updates(call, userID, id) ==> call.credential.signCount > call.previous
    ensures var t := StepPasskeys(users, passkeys, call).0;
            Find(PasskeysOf(t, userID), id).Some? && Counter(passkeys, userID, id) <= Counter(t, userID, id)
  {
    StepOnCounter(users, passkeys, call, userID, id);
  }

  /** Through a run the credential stays and its counter never falls. */
  lemma {:induction false} CounterNeverFalls(
    users: set<string>, passkeys: Passkeys, calls: seq<PasskeyCall>, userID: string, id: Bytes)
    requires Rising(calls, userID, id) && Find(PasskeysOf(passkeys, userID), id).Some?
    ensures var end := After(users, passkeys, calls);
            Find(PasskeysOf(end, userID), id).Some? && Counter(passkeys, userID, id) <= Counter(end, userID, id)
  {
    if calls != [] {
      CounterNeverFalls(users, passkeys, calls[..|calls| - 1], userID, id);
      StepNeverLowers(users, After(users, passkeys, calls[..|calls| - 1]), calls[|calls| - 1], userID, id);
    }
  }

  lemma {:induction false} AfterConcat(
    users: set<string>, passkeys: Passkeys, a: seq<PasskeyCall>, b: seq<PasskeyCall>)
    ensures After(users, passkeys, a + b) == After(users, After(users, passkeys, a), b)
  {
    if b == [] {
      assert a + b == a;
    } else {
      assert (a + b)[..|a + b| - 1] == a + b[..|b| - 1];
      AfterConcat(users, passkeys, a, b[..|b| - 1]);
    }
  }

  /** A success replaces exactly the counter it named, by a larger one. */
  lemma SuccessRaisesCounter(
    users: set<string>, passkeys: Passkeys, calls: seq<PasskeyCall>, i: nat, userID: string, id: Bytes)
    requires i < |calls| && Rising(calls, userID, id) && Succeeds(users, passkeys, calls, i, userID, id)
    requires Find(PasskeysOf(passkeys, userID), id).Some?
    ensures Find(PasskeysOf(After(users, passkeys, calls[..i]), userID), id).Some?
    ensures Find(PasskeysOf(After(users, passkeys, calls[..i + 1]), userID), id) == Some(calls[i].credential)
    ensures Counter(After(users, passkeys, calls[..i]), userID, id) == calls[i].previous
    ensures calls[i].previous < calls[i].credential.signCount
  {
    CounterNeverFalls(users, passkeys, calls[..i], userID, id);
    assert calls[..i + 1][..i] == calls[..i];
    StepOnCounter(users, After(users, passkeys, calls[..i]), calls[i], userID, id);
  }

  /** So along a run the `previous` values of successful updates strictly increase: no two share one. */
  lemma SuccessesNeverSharePrevious(
    users: set<string>, passkeys: Passkeys, calls: seq<PasskeyCall>, i: nat, j: nat, userID: string, id: Bytes)
    requires i < j < |calls| && Rising(calls, userID, id)
    requires Succeeds(users, passkeys, calls, i, userID, id) && Succeeds(users, passkeys, calls, j, userID, id)
    requires Find(PasskeysOf(passkeys, userID), id).Some?
    ensures calls[i].previous < calls[i].credential.signCount <= calls[j].previous
  {
    hide After, StepPasskeys, Succeeds;
    SuccessRaisesCounter(users, passkeys, calls, i, userID, id);
    SuccessRaisesCounter(users, passkeys, calls, j, userID, id);
    assert calls[..i + 1] + calls[i + 1..j] == calls[..j];
    AfterConcat(users, passkeys, calls[..i + 1], calls[i + 1..j]);
    CounterNeverFalls(users, After(users, passkeys, calls[..i + 1]), calls[i + 1..j], userID, id);
  }
}
