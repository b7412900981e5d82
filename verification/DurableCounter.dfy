/**
 The passkey counter in the durable store, over every history of calls, failed writes and restarts: what a success
 still promises, and exactly when the stored counter falls.
 */
module DurableCounter {
  import opened Models
  import opened Contract = StoreContract
  import opened StoreCalls
  import opened JsonContract
  import opened PasskeyCounter

  /** The credential is kept in memory and in the image. */
  predicate Kept(m: Model, userID: string, id: Bytes) {
    && Find(PasskeysOf(m.memory.passkeys, userID), id).Some?
    && m.disk.Some? && Find(PasskeysOf(m.disk.value.passkeys, userID), id).Some?
  }

  function InMemory(m: Model, userID: string, id: Bytes): nat
    requires Kept(m, userID, id)
  {
    Counter(m.memory.passkeys, userID, id)
  }

  function InImage(m: Model, userID: string, id: Bytes): nat
    requires Kept(m, userID, id)
  {
    Counter(m.disk.value.passkeys, userID, id)
  }

  /** The event does not delete the credential, and an update of it asks for a larger counter. */
  predicate Rises(e: Event, userID: string, id: Bytes) {
    e.Invoke? && e.call.OnPasskeys? ==>
      && e.call.passkey != PasskeyCall.DeletePasskey(userID, id)
      && (Updates(e.call.passkey, userID, id) ==> e.call.passkey.credential.signCount > e.call.passkey.previous)
  }

  ghost predicate AllRise(events: seq<Event>, userID: string, id: Bytes) {
    forall i :: 0 <= i < |events| ==> Rises(events[i], userID, id)
  }

  /** The event is an update of the credential. */
  predicate IsUpdate(e: Event, userID: string, id: Bytes) {
    e.Invoke? && e.call.OnPasskeys? && Updates(e.call.passkey, userID, id)
  }

  // ------------------------------------------------------------ one event

  /** A call touches passkeys only if it is one on them; the image stays or becomes a copy of memory. */
  lemma PasskeyShape(m: Model, call: Call, persists: bool)
    ensures var n := CallStep(m, call, persists).0;
            && n.memory.passkeys ==
               (if call.OnPasskeys? then StepPasskeys(m.memory.users.Keys, m.memory.passkeys, call.passkey).0
                else m.memory.passkeys)
            && (n.disk == m.disk || (n.disk.Some? && n.disk.value.passkeys == n.memory.passkeys))
  {
  }

  /**
   What an update of a kept credential does: refused unless it names the counter in memory; otherwise memory takes
   the new credential whether or not the write works, and only the reply and the image tell.
   */
  lemma UpdateOutcome(m: Model, call: PasskeyCall, persists: bool, userID: string, id: Bytes)
    requires Kept(m, userID, id) && Updates(call, userID, id)
    ensures var (n, r) := CallStep(m, OnPasskeys(call), persists);
            if call.previous != InMemory(m, userID, id) then n == m && r == Failed(ErrConflict)
            else
              && Find(PasskeysOf(n.memory.passkeys, userID), id) == Some(call.credential)
              && r == (if persists then Done else Failed(ErrPersist))
              && n.disk == (if persists then Some(Image(n.memory)) else m.disk)
  {
    StepOnCounter(m.memory.users.Keys, m.memory.passkeys, call, userID, id);
    if call.previous != InMemory(m, userID, id) {
      assert m.memory.(passkeys := m.memory.passkeys) == m.memory;
    }
  }

  /** The update found the counter it named, changed memory, and could not be written. */
  predicate FailedUpdate(m: Model, e: Event, userID: string, id: Bytes) {
    && IsUpdate(e, userID, id) && !e.persists
    && CallStep(m, e.call, e.persists).1 == Failed(ErrPersist)
  }

  /** What any event does to the two counters. */
  lemma EventOnCounters(m: Model, e: Event, userID: string, id: Bytes)
    requires Kept(m, userID, id) && Rises(e, userID, id) && InImage(m, userID, id) <= InMemory(m, userID, id)
    ensures var n := Next(m, e);
            && Kept(n, userID, id)
            && InImage(m, userID, id) <= InImage(n, userID, id) <= InMemory(n, userID, id)
            && (e.Restart? ==> InMemory(n, userID, id) == InImage(n, userID, id) == InImage(m, userID, id))
            && (e.Invoke? ==> InMemory(m, userID, id) <= InMemory(n, userID, id))
            && (Writes(m, e) ==> InMemory(n, userID, id) == InImage(n, userID, id))
            && (FailedUpdate(m, e, userID, id) ==>
                  InImage(n, userID, id) == InImage(m, userID, id) < InMemory(n, userID, id))
            && (e.Invoke? && !Writes(m, e) && !FailedUpdate(m, e, userID, id) ==>
                  && InMemory(n, userID, id) == InMemory(m, userID, id)
                  && InImage(n, userID, id) == InImage(m, userID, id))
  {
    if e.Invoke? {
      PasskeyShape(m, e.call, e.persists);
      WrittenImage(m, e.call, e.persists);
      if e.call.OnPasskeys? {
        StepOnCounter(m.memory.users.Keys, m.memory.passkeys, e.call.passkey, userID, id);
        if Updates(e.call.passkey, userID, id) {
          UpdateOutcome(m, e.call.passkey, e.persists, userID, id);
        }
      }
    }
    hide CallStep, Step, StepPasskeys, Image, Find, Persists;
  }

  lemma WrittenImage(m: Model, call: Call, persists: bool)
    ensures var n := CallStep(m, call, persists).0;
            if Writes(m, Invoke(call, persists)) then n.disk.Some? && n.disk.value.passkeys == n.memory.passkeys
            else n.disk == m.disk
  {
  }

  lemma UntakenIsNew(passkeys: Passkeys, userID: string, id: Bytes)
    ensures !PasskeyTaken(passkeys, id) ==> !HasPasskey(PasskeysOf(passkeys, userID), id)
  {
  }

  /** Where such histories start: an acknowledged save puts the credential in memory and image alike. */
  lemma AcknowledgedSaveIsKept(m: Model, userID: string, credential: PasskeyCredential, persists: bool)
    requires CallStep(m, OnPasskeys(SavePasskey(userID, credential)), persists).1 == Done
    ensures var n := CallStep(m, OnPasskeys(SavePasskey(userID, credential)), persists).0;
            && Kept(n, userID, credential.id)
            && InImage(n, userID, credential.id) == InMemory(n, userID, credential.id) == credential.signCount
  {
    var list := PasskeysOf(m.memory.passkeys, userID);
    UntakenIsNew(m.memory.passkeys, userID, credential.id);
    IndexIs(list + [credential], credential.id, |list|);
  }

  // ------------------------------------------------------------ whole histories

  /** From a model whose memory and image agree on the credential, the image never runs ahead of memory. */
  lemma {:induction false} CountersOrdered(m: Model, events: seq<Event>, userID: string, id: Bytes)
    requires Kept(m, userID, id) && AllRise(events, userID, id) && InImage(m, userID, id) <= InMemory(m, userID, id)
    ensures var n := RunFrom(m, events);
            && Kept(n, userID, id)
            && InImage(m, userID, id) <= InImage(n, userID, id) <= InMemory(n, userID, id)
  {
    hide Next, Kept, InMemory, InImage;
    if events != [] {
      var before := events[..|events| - 1];
      CountersOrdered(m, before, userID, id);
      EventOnCounters(RunFrom(m, before), events[|events| - 1], userID, id);
    }
  }

  /** Event i updated the credential and its caller was told so without an error. */
  predicate Acknowledged(m: Model, events: seq<Event>, i: nat, userID: string, id: Bytes)
    requires i < |events|
  {
    && IsUpdate(events[i], userID, id)
    && CallStep(RunFrom(m, events[..i]), events[i].call, events[i].persists).1 == Done
  }

  lemma PrefixRises(events: seq<Event>, i: nat, j: nat, userID: string, id: Bytes)
    requires i <= j <= |events| && AllRise(events, userID, id)
    ensures AllRise(events[i..j], userID, id)
  {
    forall k | 0 <= k < j - i
      ensures Rises(events[i..j][k], userID, id)
    {
      assert events[i..j][k] == events[i + k];
    }
  }

  /** An acknowledged update named the counter in memory, and left its own in memory and image. */
  lemma AcknowledgedStep(m: Model, e: Event, userID: string, id: Bytes)
    requires Kept(m, userID, id) && InImage(m, userID, id) <= InMemory(m, userID, id)
    requires IsUpdate(e, userID, id) && Rises(e, userID, id) && CallStep(m, e.call, e.persists).1 == Done
    ensures var n := Next(m, e);
            && InMemory(m, userID, id) == e.call.passkey.previous < e.call.passkey.credential.signCount
            && Kept(n, userID, id)
            && InImage(n, userID, id) == InMemory(n, userID, id) == e.call.passkey.credential.signCount
  {
    UpdateOutcome(m, e.call.passkey, e.persists, userID, id);
    EventOnCounters(m, e, userID, id);
  }

  lemma AcknowledgedOutcome(m: Model, events: seq<Event>, i: nat, userID: string, id: Bytes)
    requires i < |events| && AllRise(events, userID, id) && Acknowledged(m, events, i, userID, id)
    requires Kept(m, userID, id) && InImage(m, userID, id) <= InMemory(m, userID, id)
    ensures var w, n := RunFrom(m, events[..i]), RunFrom(m, events[..i + 1]);
            && Kept(w, userID, id) && InMemory(w, userID, id) == events[i].call.passkey.previous
            && Kept(n, userID, id)
            && InImage(n, userID, id) == InMemory(n, userID, id) == events[i].call.passkey.credential.signCount
            && events[i].call.passkey.previous < events[i].call.passkey.credential.signCount
  {
    hide Kept, InMemory, InImage, CallStep, Next;
    assert events[0..i] == events[..i] && events[..i + 1][..i] == events[..i] && events[..i + 1][i] == events[i];
    PrefixRises(events, 0, i, userID, id);
    CountersOrdered(m, events[..i], userID, id);
    assert Rises(events[i], userID, id);
    AcknowledgedStep(RunFrom(m, events[..i]), events[i], userID, id);
  }

  /**
   Over every history of calls, failed writes and restarts in which updates ask for larger counters, the acknowledged
   ones do increase the counter, and no two of them name the same previous one.
   */
  lemma AcknowledgedNeverSharePrevious(m: Model, events: seq<Event>, i: nat, j: nat, userID: string, id: Bytes)
    requires i < j < |events| && AllRise(events, userID, id)
    requires Kept(m, userID, id) && InImage(m, userID, id) <= InMemory(m, userID, id)
    requires Acknowledged(m, events, i, userID, id) && Acknowledged(m, events, j, userID, id)
    ensures events[i].call.passkey.previous
            < events[i].call.passkey.credential.signCount
            <= events[j].call.passkey.previous
  {
    hide *;
    AcknowledgedOutcome(m, events, i, userID, id);
    AcknowledgedOutcome(m, events, j, userID, id);
    assert events[..i + 1] + events[i + 1..j] == events[..j];
    RunFromConcat(m, events[..i + 1], events[i + 1..j]);
    PrefixRises(events, i + 1, j, userID, id);
    CountersOrdered(RunFrom(m, events[..i + 1]), events[i + 1..j], userID, id);
  }

  // ------------------------------------------------------------ when the counter falls

  /** Some update of the credential changed memory without being written; nothing wrote or reloaded the image since. */
  ghost predicate Unwritten(m: Model, events: seq<Event>, userID: string, id: Bytes) {
    exists i :: 0 <= i < |events| && FailedUpdate(RunFrom(m, events[..i]), events[i], userID, id)
                && UntouchedSince(m, events, i)
  }

  lemma UnwrittenAfter(m: Model, before: seq<Event>, e: Event, userID: string, id: Bytes)
    ensures Unwritten(m, before + [e], userID, id)
            <==> FailedUpdate(RunFrom(m, before), e, userID, id)
                 || (e.Invoke? && !Writes(RunFrom(m, before), e) && Unwritten(m, before, userID, id))
  {
    hide FailedUpdate, Writes, RunFrom;
    var events, n := before + [e], |before|;
    assert events[..n] == before && events[n] == e && UntouchedSince(m, events, n);
    hide UntouchedSince;
    forall i | 0 <= i < n
      ensures FailedUpdate(RunFrom(m, events[..i]), events[i], userID, id) && UntouchedSince(m, events, i)
              <==> FailedUpdate(RunFrom(m, before[..i]), before[i], userID, id) && UntouchedSince(m, before, i)
                   && e.Invoke? && !Writes(RunFrom(m, before), e)
    {
      assert events[..i] == before[..i] && events[i] == before[i];
      UntouchedAfter(m, before, e, i);
    }
  }

  /** Memory runs ahead of the image exactly while such an update is pending. */
  lemma {:induction false} AheadIffUnwritten(m: Model, events: seq<Event>, userID: string, id: Bytes)
    requires Kept(m, userID, id) && AllRise(events, userID, id) && InImage(m, userID, id) == InMemory(m, userID, id)
    ensures var n := RunFrom(m, events);
            && Kept(n, userID, id) && InImage(n, userID, id) <= InMemory(n, userID, id)
            && (InImage(n, userID, id) < InMemory(n, userID, id) <==> Unwritten(m, events, userID, id))
  {
    hide Next, Kept, InMemory, InImage, FailedUpdate, Writes;
    if events != [] {
      var before, e := events[..|events| - 1], events[|events| - 1];
      AheadIffUnwritten(m, before, userID, id);
      EventOnCounters(RunFrom(m, before), e, userID, id);
      UnwrittenAfter(m, before, e, userID, id);
      FailedIsNotWritten(RunFrom(m, before), e, userID, id);
      assert events == before + [e];
      hide Unwritten;
    }
  }

  lemma FailedIsNotWritten(m: Model, e: Event, userID: string, id: Bytes)
    ensures FailedUpdate(m, e, userID, id) ==> e.Invoke? && !Writes(m, e)
  {
  }

  /**
   Along such a history the stored counter falls at an event if and only if that event is a restart while an update
   whose write failed is pending: no successful write and no other restart came in between.
   */
  lemma CounterFallsIff(m: Model, events: seq<Event>, e: Event, userID: string, id: Bytes)
    requires Kept(m, userID, id) && InImage(m, userID, id) == InMemory(m, userID, id)
    requires AllRise(events, userID, id) && Rises(e, userID, id)
    ensures var n := RunFrom(m, events);
            && Kept(n, userID, id) && Kept(Next(n, e), userID, id)
            && (InMemory(Next(n, e), userID, id) < InMemory(n, userID, id)
                <==> e.Restart? && Unwritten(m, events, userID, id))
  {
    AheadIffUnwritten(m, events, userID, id);
    EventOnCounters(RunFrom(m, events), e, userID, id);
    hide Next, Kept, InMemory, InImage, FailedUpdate, Writes, Unwritten;
  }

  /** An input: from a written model, an update whose write fails, then a restart, bring the old counter back. */
  lemma FailedUpdateIsUndone(m: Model, userID: string, credential: PasskeyCredential, p: bool)
    requires m.disk == Some(Image(m.memory)) && Find(PasskeysOf(m.memory.passkeys, userID), credential.id).Some?
    requires InMemory(m, userID, credential.id) < credential.signCount
    ensures var update := OnPasskeys(UpdatePasskey(userID, credential, InMemory(m, userID, credential.id)));
            var failed := Next(m, Invoke(update, false));
            && CallStep(m, update, false).1 == Failed(ErrPersist)
            && Find(PasskeysOf(failed.memory.passkeys, userID), credential.id) == Some(credential)
            && Next(failed, Restart(p)).memory.passkeys == m.memory.passkeys
  {
    var id := credential.id;
    UpdateOutcome(m, UpdatePasskey(userID, credential, InMemory(m, userID, id)), false, userID, id);
  }

  /** A conflict changes nothing; an update that could not be written is an error, but has changed memory. */
  lemma FailedUpdateChangesMemory(m: Model, call: PasskeyCall, persists: bool, userID: string, id: Bytes)
    requires Kept(m, userID, id) && Updates(call, userID, id)
    ensures var (n, r) := CallStep(m, OnPasskeys(call), persists);
            && (r == Failed(ErrConflict) <==> call.previous != InMemory(m, userID, id))
            && (r == Failed(ErrConflict) ==> n == m)
            && (r == Failed(ErrPersist) <==> call.previous == InMemory(m, userID, id) && !persists)
            && (r == Failed(ErrPersist) ==>
                  Find(PasskeysOf(n.memory.passkeys, userID), id) == Some(call.credential) && n.disk == m.disk)
  {
    UpdateOutcome(m, call, persists, userID, id);
    hide CallStep, Find;
  }
}
