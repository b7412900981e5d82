/** When writes succeed, the JSON store answers like the memory store, restarts included. */
module Simulation {
  import opened Models
  import opened Contract = StoreContract
  import opened StoreCalls
  import opened JsonContract
  import Base64

  lemma KeyIsInjective()
    ensures forall b, c :: WebAuthnKey(b) == WebAuthnKey(c) ==> b == c
  {
    forall b: Bytes, c: Bytes | WebAuthnKey(b) == WebAuthnKey(c)
      ensures b == c
    {
      Base64.EncodeInjective(Base64.URL, b, c);
    }
  }

  function EncodeIndex(index: map<Bytes, string>): (r: map<string, string>)
    ensures forall b :: b in index ==> WebAuthnKey(b) in r && r[WebAuthnKey(b)] == index[b]
    ensures forall b :: WebAuthnKey(b) in r ==> b in index
  {
    KeyIsInjective();
    map b | b in index :: WebAuthnKey(b) := index[b]
  }

  /** The simulation relation: equal up to index keys and the WebAuthn id in users. */
  predicate Agrees(s: State<Bytes>, j: JState) {
    && CloneUsers(s.users) == CloneUsers(j.users)
    && s.identifiers == j.identifiers
    && EncodeIndex(s.webAuthnIDs) == j.webAuthnIDs
    && s.passwords == j.passwords && s.passkeys == j.passkeys && s.totp == j.totp
    && s.recovery == j.recovery && s.codes == j.codes && s.sessions == j.sessions
  }

  lemma AgreeingUsers(s: State<Bytes>, j: JState)
    requires Agrees(s, j)
    ensures s.users.Keys == j.users.Keys
    ensures forall u :: u in s.users ==> CloneUser(s.users[u]) == CloneUser(j.users[u])
    ensures s.identifiers == j.identifiers && EncodeIndex(s.webAuthnIDs) == j.webAuthnIDs
  {
    assert CloneUsers(s.users) == CloneUsers(j.users);
    assert CloneUsers(s.users).Keys == s.users.Keys && CloneUsers(j.users).Keys == j.users.Keys;
    forall u | u in s.users
      ensures CloneUser(s.users[u]) == CloneUser(j.users[u])
    {
      assert CloneUsers(s.users)[u] == CloneUsers(j.users)[u];
    }
  }

  lemma SetCloned(users: map<string, User>, id: string, user: User)
    ensures CloneUsers(users[id := user]) == CloneUsers(users)[id := CloneUser(user)]
  {
  }

  lemma SetIndexed(index: map<Bytes, string>, key: Bytes, id: string)
    ensures EncodeIndex(index[key := id]) == EncodeIndex(index)[WebAuthnKey(key) := id]
  {
    hide WebAuthnKey;
    KeyIsInjective();
  }

  lemma CreateUserSimulates(s: State<Bytes>, j: JState, input: NewUser, now: Time)
    requires Agrees(s, j)
    ensures CanCreate(s, input, input.webAuthnID) <==> CanCreate(j, input, WebAuthnKey(input.webAuthnID))
    ensures var (t, r) := Contract.CreateUser(s, input, input.webAuthnID, now);
            var (k, q) := Contract.CreateUser(j, input, WebAuthnKey(input.webAuthnID), now);
            Agrees(t, k) && r == q
  {
    AgreeingUsers(s, j);
    var user := UserFrom(input, now);
    SetCloned(s.users, input.id, user);
    SetCloned(j.users, input.id, user);
    SetIndexed(s.webAuthnIDs, input.webAuthnID, input.id);
  }

  lemma CreatePasswordUserSimulates(
    s: State<Bytes>, j: JState, input: NewUser, password: PasswordCredential, now: Time)
    requires Agrees(s, j)
    ensures var (t, r) := Contract.CreatePasswordUser(s, input, input.webAuthnID, password, now);
            var (k, q) := Contract.CreatePasswordUser(j, input, WebAuthnKey(input.webAuthnID), password, now);
            Agrees(t, k) && r == q
  {
    CreateUserSimulates(s, j, input, now);
  }

  lemma SetVerifiedSimulates(s: State<Bytes>, j: JState, userID: string, verified: bool)
    requires Agrees(s, j)
    ensures var (t, r) := Contract.SetUserVerified(s, userID, verified);
            var (k, q) := Contract.SetUserVerified(j, userID, verified);
            Agrees(t, k) && r == q
  {
    AgreeingUsers(s, j);
    if userID in s.users {
      SetCloned(s.users, userID, s.users[userID].(verified := verified));
      SetCloned(j.users, userID, j.users[userID].(verified := verified));
    }
  }

  lemma OrZeroSimulates(s: State<Bytes>, j: JState, id: string)
    requires Agrees(s, j)
    ensures CloneUser(UserOrZero(s, id)) == CloneUser(UserOrZero(j, id))
  {
    AgreeingUsers(s, j);
  }

  lemma LookupSimulates(s: State<Bytes>, j: JState, identifier: string, webAuthnID: Bytes)
    requires Agrees(s, j)
    ensures CloneReply(OfUser(Contract.UserByIdentifier(s, identifier)))
            == CloneReply(OfUser(Contract.UserByIdentifier(j, identifier)))
    ensures CloneReply(OfUser(Contract.UserByWebAuthnID(s, webAuthnID)))
            == CloneReply(OfUser(Contract.UserByWebAuthnID(j, WebAuthnKey(webAuthnID))))
  {
    AgreeingUsers(s, j);
    hide UserOrZero;
    if identifier in s.identifiers {
      OrZeroSimulates(s, j, s.identifiers[identifier]);
    }
    if webAuthnID in s.webAuthnIDs {
      OrZeroSimulates(s, j, s.webAuthnIDs[webAuthnID]);
    }
  }

  lemma ByIDSimulates(s: State<Bytes>, j: JState, id: string)
    requires Agrees(s, j)
    ensures CloneReply(OfUser(Contract.UserByID(s, id))) == CloneReply(OfUser(Contract.UserByID(j, id)))
  {
    AgreeingUsers(s, j);
  }

  lemma UserStepSimulates(s: State<Bytes>, j: JState, call: UserCall)
    requires Agrees(s, j)
    ensures var (t, r) := StepUsers(s, call, Raw);
            var (k, q) := StepUsers(j, call, WebAuthnKey);
            Agrees(t, k) && CloneReply(r) == CloneReply(q)
  {
    hide Agrees;
    match call
    case CreateUser(input, now) => CreateUserSimulates(s, j, input, now);
    case CreatePasswordUser(input, password, now) => CreatePasswordUserSimulates(s, j, input, password, now);
    case SetUserVerified(userID, verified) => SetVerifiedSimulates(s, j, userID, verified);
    case UserByID(id) => ByIDSimulates(s, j, id);
    case UserByIdentifier(identifier) => LookupSimulates(s, j, identifier, []);
    case UserByWebAuthnID(webAuthnID) => LookupSimulates(s, j, "", webAuthnID);
  }

  lemma StepSimulates(s: State<Bytes>, j: JState, call: Call)
    requires Agrees(s, j)
    ensures var (t, r) := Step(s, call, Raw);
            var (k, q) := Step(j, call, WebAuthnKey);
            Agrees(t, k) && CloneReply(r) == CloneReply(q)
  {
    AgreeingUsers(s, j);
    match call
    case OnUsers(c) => UserStepSimulates(s, j, c);
    case _ => // every other group depends only on its own part of the state and on which users exist
  }

  /** Replies to the calls of a history, restarts left out. */
  function JsonReplies(events: seq<Event>): seq<Reply> {
    if events == [] then []
    else
      var before, e := events[..|events| - 1], events[|events| - 1];
      JsonReplies(before) +
      (if e.Invoke? then [CallStep(RunFrom(Opened(), before), e.call, e.persists).1] else [])
  }

  /** A store opened where no file was, with its first write successful. */
  function Opened(): Model { Reopen(None, true) }

  function CallsOf(events: seq<Event>): seq<Call> {
    if events == [] then []
    else CallsOf(events[..|events| - 1]) + (if events[|events| - 1].Invoke? then [events[|events| - 1].call] else [])
  }

  function MemoryReplies(calls: seq<Call>): seq<Reply> {
    if calls == [] then []
    else
      var before := calls[..|calls| - 1];
      MemoryReplies(before) + [Step(Run(Empty<Bytes>(), before, Raw), calls[|calls| - 1], Raw).1]
  }

  function CloneReplies(replies: seq<Reply>): (r: seq<Reply>)
    ensures |r| == |replies|
  {
    seq(|replies|, i requires 0 <= i < |replies| => CloneReply(replies[i]))
  }

  predicate AlwaysPersists(events: seq<Event>) {
    forall i :: 0 <= i < |events| ==> events[i].persists
  }

  lemma CallStepSimulates(s: State<Bytes>, m: Model, call: Call)
    requires Agrees(s, m.memory) && m.disk == Some(Image(m.memory))
    ensures var (n, q) := CallStep(m, call, true);
            && Agrees(Step(s, call, Raw).0, n.memory) && n.disk == Some(Image(n.memory))
            && q == CloneReply(Step(s, call, Raw).1)
  {
    StepSimulates(s, m.memory, call);
    if !Persists(call, Step(m.memory, call, WebAuthnKey).1) {
      UnwrittenCallReads(m.memory, call);
    }
  }

  ghost predicate Simulated(events: seq<Event>) {
    var m := RunFrom(Opened(), events);
    && m.disk == Some(Image(m.memory))
    && Agrees(Run(Empty<Bytes>(), CallsOf(events), Raw), m.memory)
    && JsonReplies(events) == CloneReplies(MemoryReplies(CallsOf(events)))
  }

  lemma EmptySimulated()
    ensures Simulated([])
  {
    assert EncodeIndex(map[]) == map[] && CloneUsers(map[]) == map[];
    assert JsonReplies([]) == [] && MemoryReplies([]) == [];
  }

  lemma CallKeepsSimulated(before: seq<Event>, call: Call)
    requires Simulated(before)
    ensures Simulated(before + [Invoke(call, true)])
  {
    var events := before + [Invoke(call, true)];
    assert events[..|events| - 1] == before;
    var calls := CallsOf(events);
    assert calls[..|calls| - 1] == CallsOf(before) && calls[|calls| - 1] == call;
    CallStepSimulates(Run(Empty<Bytes>(), CallsOf(before), Raw), RunFrom(Opened(), before), call);
  }

  lemma ImageAgrees(s: State<Bytes>, j: JState)
    requires Agrees(s, j)
    ensures Agrees(s, Image(j)) && Image(Image(j)) == Image(j)
  {
    assert CloneUsers(CloneUsers(j.users)) == CloneUsers(j.users);
  }

  lemma RestartKeepsSimulated(before: seq<Event>)
    requires Simulated(before)
    ensures Simulated(before + [Restart(true)])
  {
    var events := before + [Restart(true)];
    assert events[..|events| - 1] == before;
    assert CallsOf(events) == CallsOf(before) && JsonReplies(events) == JsonReplies(before);
    ImageAgrees(Run(Empty<Bytes>(), CallsOf(before), Raw), RunFrom(Opened(), before).memory);
  }

  /**
   Any sequence of calls, with a restart inserted anywhere, gets the memory store's replies, up to the WebAuthn
   id in returned users.
   */
  lemma {:induction false} JsonStoreSimulatesMemoryStore(events: seq<Event>)
    requires AlwaysPersists(events)
    ensures JsonReplies(events) == CloneReplies(MemoryReplies(CallsOf(events)))
    ensures Simulated(events)
  {
    if events == [] {
      EmptySimulated();
    } else {
      var before, e := events[..|events| - 1], events[|events| - 1];
      JsonStoreSimulatesMemoryStore(before);
      assert events == before + [e];
      match e
      case Invoke(call, _) => CallKeepsSimulated(before, call);
      case Restart(_) => RestartKeepsSimulated(before);
    }
  }
}
