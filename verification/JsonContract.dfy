/**
 The durable store as a state machine over (memory, disk). Each call may change memory and then replaces
 the disk image in one step that succeeds or fails; a restart reloads memory from the image.
 */
module JsonContract {
  import opened Models
  import opened Contract = StoreContract
  import opened StoreCalls
  import Base64

  type JState = State<string>

  /** `disk` is `None` until the first image is written. */
  datatype Model = Model(memory: JState, disk: Option<JState>)

  /** The index key of a WebAuthn id: raw base64url text. */
  function WebAuthnKey(value: Bytes): string {
    Base64.Encode(Base64.URL, value)
  }

  /** A user as JSON carries it: the WebAuthn id is tagged out. */
  function CloneUser(u: User): User { u.(webAuthnID := []) }

  function CloneUsers(users: map<string, User>): map<string, User> {
    map u | u in users :: CloneUser(users[u])
  }

  /** What `persistLocked` writes, and so what a reload finds. */
  function Image(s: JState): JState {
    s.(users := CloneUsers(s.users))
  }

  /** Replies carry cloned users. */
  function CloneReply(r: Reply): Reply {
    if r.TheUser? then TheUser(CloneUser(r.user)) else r
  }

  /** Whether a call that got this reply from the in-memory state went on to `persistLocked`. */
  predicate Persists(call: Call, reply: Reply) {
    match call
    case OnUsers(CreateUser(_, _)) => reply.TheUser?
    case OnUsers(CreatePasswordUser(_, _, _)) => reply.TheUser?
    case OnRecovery(ConsumeRecoveryCode(_, _, _)) => reply == Consumed(true, None)
    case OnCodes(AttemptCode(_, _, _)) => reply != Failed(ErrNotFound)
    case OnSessions(SessionByID(_, _)) => reply == Failed(ErrExpired)
    case _ => reply == Done
  }

  /** What the caller is told when the image could not be replaced; expiry ignores the failure. */
  function PersistFailureReply(call: Call, reply: Reply): Reply {
    if reply == Failed(ErrExpired) then reply
    else if reply.Consumed? then Consumed(true, Some(ErrPersist))
    else Failed(ErrPersist)
  }

  /** `createUserLocked` undoes its four map entries; no other call undoes anything. */
  function RollBack(s: JState, input: NewUser): JState {
    s.(users := s.users - {input.id},
       identifiers := s.identifiers - {input.identifier},
       webAuthnIDs := s.webAuthnIDs - {WebAuthnKey(input.webAuthnID)},
       passwords := s.passwords - {input.id})
  }

  function AfterPersistFailure(call: Call, s: JState): JState {
    match call
    case OnUsers(CreateUser(input, _)) => RollBack(s, input)
    case OnUsers(CreatePasswordUser(input, _, _)) => RollBack(s, input)
    case _ => s
  }

  /** One locked call, with `persists` saying whether replacing the image works this time. */
  function CallStep(m: Model, call: Call, persists: bool): (Model, Reply) {
    var (t, r) := Step(m.memory, call, WebAuthnKey);
    if !Persists(call, r) then (m.(memory := t), CloneReply(r))
    else if persists then (Model(t, Some(Image(t))), CloneReply(r))
    else (m.(memory := AfterPersistFailure(call, t)), PersistFailureReply(call, r))
  }

  /** `Open`: load the image, or start empty and try to write a first image. */
  function Reopen(disk: Option<JState>, persists: bool): Model {
    match disk
    case Some(image) => Model(image, disk)
    case None => Model(Empty(), if persists then Some(Image(Empty())) else None)
  }

  datatype Event =
    | Invoke(call: Call, persists: bool)
    | Restart(persists: bool)

  function Next(m: Model, e: Event): Model {
    match e
    case Invoke(call, persists) => CallStep(m, call, persists).0
    case Restart(persists) => Reopen(m.disk, persists)
  }

  /** The model after a history of events. */
  function RunFrom(m: Model, events: seq<Event>): Model {
    if events == [] then m else Next(RunFrom(m, events[..|events| - 1]), events[|events| - 1])
  }

  /** The event wrote the image. */
  predicate Writes(m: Model, e: Event) {
    e.Invoke? && e.persists && Persists(e.call, Step(m.memory, e.call, WebAuthnKey).1)
  }

  /** Every event after the i-th is a call that writes nothing. */
  ghost predicate UntouchedSince(m: Model, events: seq<Event>, i: nat) {
    forall j :: i < j < |events| ==> events[j].Invoke? && !Writes(RunFrom(m, events[..j]), events[j])
  }

  /** A user in the durable store's answers or image has no WebAuthn id, and is otherwise the stored one. */
  lemma UsersLackWebAuthnID(m: Model, call: Call, persists: bool, id: string)
    ensures var r := CallStep(m, call, persists).1;
            r.TheUser? ==>
              var kept := Step(m.memory, call, WebAuthnKey).1;
              kept.TheUser? && r.user == kept.user.(webAuthnID := [])
    ensures var image := Image(m.memory);
            && image == m.memory.(users := image.users) && image.users.Keys == m.memory.users.Keys
            && (id in image.users ==> image.users[id] == m.memory.users[id].(webAuthnID := []))
  {
  }

  /** The reply reports no error. */
  predicate Acknowledges(reply: Reply) {
    !reply.Failed? && !(reply.Consumed? && reply.failure.Some?)
  }

  /** Whatever a call changed and acknowledged is in the image, so a restart right after it brings it back. */
  lemma AcknowledgedIsWritten(m: Model, call: Call, persists: bool, p: bool)
    ensures var (n, r) := CallStep(m, call, persists);
            Acknowledges(r) && n.memory != m.memory ==>
              n.disk == Some(Image(n.memory)) && Next(n, Restart(p)).memory == Image(n.memory)
  {
    if !Persists(call, Step(m.memory, call, WebAuthnKey).1) {
      UnwrittenCallReads(m.memory, call);
    }
  }

  /** A call that does not write the image has not changed memory either. */
  lemma UnwrittenCallReads(j: JState, call: Call)
    requires !Persists(call, Step(j, call, WebAuthnKey).1)
    ensures Step(j, call, WebAuthnKey).0 == j
  {
  }

  lemma UntouchedAfter(m: Model, before: seq<Event>, e: Event, i: nat)
    requires i < |before|
    ensures UntouchedSince(m, before + [e], i)
            <==> UntouchedSince(m, before, i) && e.Invoke? && !Writes(RunFrom(m, before), e)
  {
    hide Writes, RunFrom;
    var events, n := before + [e], |before|;
    assert forall j :: 0 <= j <= n ==> events[..j] == before[..j];
    assert before[..n] == before && events[n] == e;
    if UntouchedSince(m, events, i) {
      assert events[n].Invoke? && !Writes(RunFrom(m, events[..n]), events[n]);
      forall j | i < j < n
        ensures before[j].Invoke? && !Writes(RunFrom(m, before[..j]), before[j])
      {
        assert events[j] == before[j];
      }
    }
  }

  /** Before the first `Open` there is neither memory nor image. */
  function Boot(): Model { Model(Empty(), None) }

  lemma {:induction false} RunFromConcat(m: Model, a: seq<Event>, b: seq<Event>)
    ensures RunFrom(m, a + b) == RunFrom(RunFrom(m, a), b)
  {
    if b == [] {
      assert a + b == a;
    } else {
      assert (a + b)[..|a + b| - 1] == a + b[..|b| - 1];
      RunFromConcat(m, a, b[..|b| - 1]);
    }
  }

  /** A call changes only its own part of memory, and the image is the old one or a copy of memory. */
  lemma CallStepShape(m: Model, call: Call, persists: bool)
    ensures var n := CallStep(m, call, persists).0;
            && n.memory.codes == (if call.OnCodes? then StepCodes(m.memory.codes, call.code).0 else m.memory.codes)
            && n.memory.sessions ==
               (if call.OnSessions? then StepSessions(m.memory.sessions, call.session).0 else m.memory.sessions)
            && n.memory.recovery ==
               (if call.OnRecovery? then StepRecovery(m.memory.users.Keys, m.memory.recovery, call.recovery).0
                else m.memory.recovery)
            && (n.disk == m.disk || n.disk == Some(Image(n.memory)))
  {
  }
}
