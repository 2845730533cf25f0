/**
 * The generic session domain: commands, events, session states and the reducer.
 * The reducer is given twice: as a function on values (clones, snapshots, replays)
 * and as the class whose fields it updates in place; the class is proved against the
 * function.
 */
module Domain {
  import opened Base

  type SessionId = string
  type ParticipantId = string
  type MessageId = string
  type ActivityId = string
  type EventId = string

  /** A structured payload; its numbers are the integers. */
  datatype Value =
    | Null
    | Bool(flag: bool)
    | Number(n: int)
    | Text(text: string)
    | Array(items: seq<Value>)
    | Object(fields: map<string, Value>)

  datatype Lifecycle = Uninitialized | Open | Active | Completed | Closed

  datatype Participant = Participant(id: ParticipantId, displayName: string)

  datatype ActivityDescriptor = ActivityDescriptor(activityId: ActivityId, version: string)

  datatype ActiveActivity = ActiveActivity(descriptor: ActivityDescriptor, revision: u64, state: Value)

  datatype ActivityCommandEnvelope =
    ActivityCommandEnvelope(descriptor: ActivityDescriptor, commandType: string, payload: Value)

  datatype ActivityEventEnvelope =
    ActivityEventEnvelope(descriptor: ActivityDescriptor, activitySequence: u64, eventType: string,
                          payload: Value, resultingState: Value)

  datatype SessionState =
    SessionState(sessionId: SessionId, lifecycle: Lifecycle,
                 participants: map<ParticipantId, Participant>, authority: Option<ParticipantId>,
                 activity: Option<ActiveActivity>, revision: u64)

  datatype SessionCommand =
    | CreateSession(displayName: string)
    | Join(displayName: string)
    | StartActivity(descriptor: ActivityDescriptor)
    | StopActivity
    | TransferAuthority(to: ParticipantId)

  datatype Command =
    | SessionScope(command: SessionCommand)
    | ActivityScope(envelope: ActivityCommandEnvelope)

  datatype CommandRequest =
    CommandRequest(messageId: MessageId, actor: ParticipantId, expectedRevision: u64, command: Command)

  datatype SessionEventKind =
    | SessionCreated(creator: ParticipantId, displayName: string)
    | ParticipantJoined(participant: ParticipantId, displayName: string)
    | ActivityStarted(descriptor: ActivityDescriptor, initialState: Value)
    | ActivityStopped(descriptor: ActivityDescriptor)
    | AuthorityTransferred(from: ParticipantId, to: ParticipantId)

  datatype EventKind =
    | SessionFact(fact: SessionEventKind)
    | ActivityFact(envelope: ActivityEventEnvelope)

  datatype SessionEvent =
    SessionEvent(eventId: EventId, sequence: u64, causationId: MessageId, actor: ParticipantId,
                 kind: EventKind)

  datatype ApplyError =
    | UnexpectedSequence(expected: u64, actual: u64)
    | UnexpectedActivitySequence(expected: u64, actual: u64)
    | InvalidEvent(reason: string)
    | RevisionOverflow
    | ActivityRevisionOverflow

  function UninitializedSession(sessionId: SessionId): SessionState {
    SessionState(sessionId, Uninitialized, map[], None, None, 0)
  }

  /** The state after exactly the next event, or why the event is refused. */
  function Apply(s: SessionState, e: SessionEvent): Result<SessionState, ApplyError> {
    if s.revision == U64_MAX then
      Err(RevisionOverflow)
    else if e.sequence != s.revision + 1 then
      Err(UnexpectedSequence(s.revision + 1, e.sequence))
    else
      var next :- match e.kind
                  case SessionFact(fact) => ApplySessionFact(s, e.actor, fact)
                  case ActivityFact(envelope) => ApplyActivityFact(s, e.actor, envelope);
      Ok(next.(revision := e.sequence))
  }

  function ApplySessionFact(s: SessionState, actor: ParticipantId, fact: SessionEventKind)
    : Result<SessionState, ApplyError>
  {
    match fact
    case SessionCreated(creator, displayName) =>
      if !s.lifecycle.Uninitialized? then
        Err(InvalidEvent("session already initialized"))
      else if actor != creator then
        Err(InvalidEvent("session creator must be the event actor"))
      else
        Ok(s.(participants := s.participants[creator := Participant(creator, displayName)],
              authority := Some(creator),
              lifecycle := Open))
    case ParticipantJoined(participant, displayName) =>
      if !s.lifecycle.Open? then
        Err(InvalidEvent("participants may join only an open session"))
      else if participant in s.participants then
        Err(InvalidEvent("participant already exists"))
      else
        Ok(s.(participants := s.participants[participant := Participant(participant, displayName)]))
    case ActivityStarted(descriptor, initialState) =>
      if s.authority != Some(actor) then
        Err(InvalidEvent("event actor must hold authority"))
      else if !s.lifecycle.Open? then
        Err(InvalidEvent("activity may start only in an open session"))
      else
        Ok(s.(activity := Some(ActiveActivity(descriptor, 0, initialState)), lifecycle := Active))
    case ActivityStopped(descriptor) =>
      if s.authority != Some(actor) then
        Err(InvalidEvent("event actor must hold authority"))
      else if s.activity.None? then
        Err(InvalidEvent("activity is missing"))
      else if s.activity.value.descriptor != descriptor then
        Err(InvalidEvent("activity descriptor mismatch"))
      else
        Ok(s.(activity := None, lifecycle := Open))
    case AuthorityTransferred(from, to) =>
      if s.authority != Some(from) || actor != from then
        Err(InvalidEvent("authority transfer actor must hold authority"))
      else if from == to || to !in s.participants then
        Err(InvalidEvent("authority target must be another existing participant"))
      else
        Ok(s.(authority := Some(to)))
  }

  function ApplyActivityFact(s: SessionState, actor: ParticipantId, e: ActivityEventEnvelope)
    : Result<SessionState, ApplyError>
  {
    if actor !in s.participants then
      Err(InvalidEvent("activity actor must be an existing participant"))
    else if s.activity.None? then
      Err(InvalidEvent("activity is missing"))
    else
      var active := s.activity.value;
      if active.descriptor != e.descriptor then
        Err(InvalidEvent("activity descriptor mismatch"))
      else if active.revision == U64_MAX then
        Err(ActivityRevisionOverflow)
      else if e.activitySequence != active.revision + 1 then
        Err(UnexpectedActivitySequence(active.revision + 1, e.activitySequence))
      else
        Ok(s.(activity := Some(active.(revision := e.activitySequence, state := e.resultingState))))
  }

  /** A session state that is updated in place. */
  class LiveSession {
    var sessionId: SessionId
    var lifecycle: Lifecycle
    var participants: map<ParticipantId, Participant>
    var authority: Option<ParticipantId>
    var activity: Option<ActiveActivity>
    var revision: u64

    /** The value of all fields: what a clone or a snapshot captures. */
    function Current(): SessionState
      reads this
    {
      SessionState(sessionId, lifecycle, participants, authority, activity, revision)
    }

    constructor Clone(s: SessionState)
      ensures Current() == s
    {
      sessionId, lifecycle, participants := s.sessionId, s.lifecycle, s.participants;
      authority, activity, revision := s.authority, s.activity, s.revision;
    }

    method Assign(s: SessionState)
      modifies this
      ensures Current() == s
    {
      sessionId, lifecycle, participants := s.sessionId, s.lifecycle, s.participants;
      authority, activity, revision := s.authority, s.activity, s.revision;
    }

    /** Applies exactly the next event; a refused event leaves every field as it was. */
    method ApplyEvent(e: SessionEvent) returns (r: Result<(), ApplyError>)
      modifies this
      ensures match Apply(old(Current()), e)
              case Ok(next) => r.Ok? && Current() == next
              case Err(error) => r == Err(error) && Current() == old(Current())
    {
      var expected := CheckedAdd(revision, 1);
      if expected.None? {
        return Err(RevisionOverflow);
      }
      if e.sequence != expected.value {
        return Err(UnexpectedSequence(expected.value, e.sequence));
      }
      match e.kind {
        case SessionFact(fact) =>
          r := ApplyInSession(e.actor, fact);
        case ActivityFact(envelope) =>
          r := ApplyInActivity(e.actor, envelope);
      }
      if r.Ok? {
        revision := e.sequence;
      }
    }

    method ApplyInSession(actor: ParticipantId, fact: SessionEventKind) returns (r: Result<(), ApplyError>)
      modifies this
      ensures match ApplySessionFact(old(Current()), actor, fact)
              case Ok(next) => r.Ok? && Current() == next
              case Err(error) => r == Err(error) && Current() == old(Current())
    {
      match fact {
        case SessionCreated(creator, displayName) =>
          if lifecycle != Uninitialized {
            return Err(InvalidEvent("session already initialized"));
          }
          if actor != creator {
            return Err(InvalidEvent("session creator must be the event actor"));
          }
          participants := participants[creator := Participant(creator, displayName)];
          authority := Some(creator);
          lifecycle := Open;
        case ParticipantJoined(participant, displayName) =>
          if lifecycle != Open {
            return Err(InvalidEvent("participants may join only an open session"));
          }
          if participant in participants {
            return Err(InvalidEvent("participant already exists"));
          }
          participants := participants[participant := Participant(participant, displayName)];
        case ActivityStarted(descriptor, initialState) =>
          if authority != Some(actor) {
            return Err(InvalidEvent("event actor must hold authority"));
          }
          if lifecycle != Open {
            return Err(InvalidEvent("activity may start only in an open session"));
          }
          activity := Some(ActiveActivity(descriptor, 0, initialState));
          lifecycle := Active;
        case ActivityStopped(descriptor) =>
          if authority != Some(actor) {
            return Err(InvalidEvent("event actor must hold authority"));
          }
          if activity == None {
            return Err(InvalidEvent("activity is missing"));
          }
          if activity.value.descriptor != descriptor {
            return Err(InvalidEvent("activity descriptor mismatch"));
          }
          activity := None;
          lifecycle := Open;
        case AuthorityTransferred(from, to) =>
          if authority != Some(from) || actor != from {
            return Err(InvalidEvent("authority transfer actor must hold authority"));
          }
          if from == to || to !in participants {
            return Err(InvalidEvent("authority target must be another existing participant"));
          }
          authority := Some(to);
      }
      return Ok(());
    }

    method ApplyInActivity(actor: ParticipantId, e: ActivityEventEnvelope) returns (r: Result<(), ApplyError>)
      modifies this
      ensures match ApplyActivityFact(old(Current()), actor, e)
              case Ok(next) => r.Ok? && Current() == next
              case Err(error) => r == Err(error) && Current() == old(Current())
    {
      if actor !in participants {
        return Err(InvalidEvent("activity actor must be an existing participant"));
      }
      if activity == None {
        return Err(InvalidEvent("activity is missing"));
      }
      var active := activity.value;
      if active.descriptor != e.descriptor {
        return Err(InvalidEvent("activity descriptor mismatch"));
      }
      var expected := CheckedAdd(active.revision, 1);
      if expected.None? {
        return Err(ActivityRevisionOverflow);
      }
      if e.activitySequence != expected.value {
        return Err(UnexpectedActivitySequence(expected.value, e.activitySequence));
      }
      activity := Some(active.(revision := e.activitySequence, state := e.resultingState));
      return Ok(());
    }
  }
}
