/** Versioned boundary documents: the event log and the snapshot, and their validation. */
module Protocol {
  import opened Base
  import opened Domain
  import T = Text

  const PROTOCOL_FAMILY := "sytog"
  const PROTOCOL_VERSION: nat := 1
  const EVENT_LOG_SCHEMA_VERSION: nat := 1
  const SNAPSHOT_SCHEMA_VERSION: nat := 1

  datatype EventLog =
    EventLog(family: string, protocolVersion: nat, schemaVersion: nat, sessionId: SessionId,
             baseRevision: u64, events: seq<SessionEvent>)

  datatype Snapshot =
    Snapshot(family: string, protocolVersion: nat, schemaVersion: nat, sessionId: SessionId,
             revision: u64, state: SessionState)

  datatype ProtocolError =
    | UnknownFamily(family: string)
    | UnsupportedVersion(version: nat)
    | EmptyIdentifier(field: string)
    | UnsupportedEventLogSchema(version: nat)
    | UnsupportedSnapshotSchema(version: nat)
    | UnexpectedEventSequence(expected: u64, actual: u64)
    | DuplicateEventId(eventId: EventId)
    | SequenceOverflow
    | SnapshotIdentityMismatch

  function ValidateHeader(family: string, version: nat): Result<(), ProtocolError> {
    if family != PROTOCOL_FAMILY then Err(UnknownFamily(family))
    else if version != PROTOCOL_VERSION then Err(UnsupportedVersion(version))
    else Ok(())
  }

  function ValidateIdentifier(value: string, field: string): Result<(), ProtocolError> {
    if T.Blank(value) then Err(EmptyIdentifier(field)) else Ok(())
  }

  /** The log this program writes for a session: current family and versions. */
  function CurrentLog(sessionId: SessionId, baseRevision: u64, events: seq<SessionEvent>): EventLog {
    EventLog(PROTOCOL_FAMILY, PROTOCOL_VERSION, EVENT_LOG_SCHEMA_VERSION, sessionId, baseRevision, events)
  }

  function CurrentSnapshot(state: SessionState): Snapshot {
    Snapshot(PROTOCOL_FAMILY, PROTOCOL_VERSION, SNAPSHOT_SCHEMA_VERSION, state.sessionId, state.revision, state)
  }

  // ---- What a valid log is -------------------------------------------------------------------

  ghost predicate HasIdentifiers(e: SessionEvent) {
    !T.Blank(e.eventId) && !T.Blank(e.causationId) && !T.Blank(e.actor)
  }

  /** Event `i` carries sequence `base + i + 1`. */
  ghost predicate Contiguous(base: nat, events: seq<SessionEvent>) {
    forall i | 0 <= i < |events| :: events[i].sequence == base + i + 1
  }

  ghost predicate DistinctIds(events: seq<SessionEvent>) {
    forall i, j | 0 <= i < j < |events| :: events[i].eventId != events[j].eventId
  }

  ghost predicate AllIdentified(events: seq<SessionEvent>) {
    forall i | 0 <= i < |events| :: HasIdentifiers(events[i])
  }

  ghost predicate ValidEvents(base: nat, events: seq<SessionEvent>) {
    AllIdentified(events) && Contiguous(base, events) && DistinctIds(events)
  }

  ghost predicate ValidLog(log: EventLog) {
    && log.family == PROTOCOL_FAMILY
    && log.protocolVersion == PROTOCOL_VERSION
    && log.schemaVersion == EVENT_LOG_SCHEMA_VERSION
    && !T.Blank(log.sessionId)
    && ValidEvents(log.baseRevision, log.events)
  }

  // ---- What validation answers ---------------------------------------------------------------

  /** The first complaint about event `i`, given the events before it. */
  function EventDefect(log: EventLog, i: nat): Result<(), ProtocolError>
    requires i < |log.events|
  {
    var e := log.events[i];
    var _ :- ValidateIdentifier(e.eventId, "event_id");
    var _ :- ValidateIdentifier(e.causationId, "causation_id");
    var _ :- ValidateIdentifier(e.actor, "actor");
    if log.baseRevision + i + 1 > U64_MAX then
      Err(SequenceOverflow)
    else if e.sequence != log.baseRevision + i + 1 then
      Err(UnexpectedEventSequence(log.baseRevision + i + 1, e.sequence))
    else if exists j | 0 <= j < i :: log.events[j].eventId == e.eventId then
      Err(DuplicateEventId(e.eventId))
    else
      Ok(())
  }

  /** The complaint about the earliest faulty event from `i` on. */
  function FirstDefect(log: EventLog, i: nat): Result<(), ProtocolError>
    requires i <= |log.events|
    decreases |log.events| - i
  {
    if i == |log.events| then
      Ok(())
    else
      var _ :- EventDefect(log, i);
      FirstDefect(log, i + 1)
  }

  function Validate(log: EventLog): Result<(), ProtocolError> {
    var _ :- ValidateHeader(log.family, log.protocolVersion);
    if log.schemaVersion != EVENT_LOG_SCHEMA_VERSION then
      Err(UnsupportedEventLogSchema(log.schemaVersion))
    else
      var _ :- ValidateIdentifier(log.sessionId, "session_id");
      FirstDefect(log, 0)
  }

  /** The validation loop, with the set of event ids it has seen. */
  method ValidateLog(log: EventLog) returns (r: Result<(), ProtocolError>)
    ensures r == Validate(log)
    ensures r.Ok? <==> ValidLog(log)
  {
    ValidateDecides(log);
    var _ :- ValidateHeader(log.family, log.protocolVersion);
    if log.schemaVersion != EVENT_LOG_SCHEMA_VERSION {
      return Err(UnsupportedEventLogSchema(log.schemaVersion));
    }
    var _ :- ValidateIdentifier(log.sessionId, "session_id");
    var eventIds: set<EventId> := {};
    var index := 0;
    while index < |log.events|
      invariant 0 <= index <= |log.events|
      invariant eventIds == set j | 0 <= j < index :: log.events[j].eventId
      invariant FirstDefect(log, 0) == FirstDefect(log, index)
    {
      var event := log.events[index];
      assert EventDefect(log, index).Err? ==> FirstDefect(log, index) == EventDefect(log, index);
      var _ :- ValidateIdentifier(event.eventId, "event_id");
      var _ :- ValidateIdentifier(event.causationId, "causation_id");
      var _ :- ValidateIdentifier(event.actor, "actor");
      var expected := CheckedAdd(log.baseRevision, index + 1);
      if expected.None? {
        return Err(SequenceOverflow);
      }
      if event.sequence != expected.value {
        return Err(UnexpectedEventSequence(expected.value, event.sequence));
      }
      if event.eventId in eventIds {
        return Err(DuplicateEventId(event.eventId));
      }
      eventIds := eventIds + {event.eventId};
      index := index + 1;
    }
    return Ok(());
  }

  lemma {:induction false} FirstDefectDecides(log: EventLog, i: nat)
    requires i <= |log.events|
    ensures FirstDefect(log, i).Ok? <==> forall k | i <= k < |log.events| :: EventDefect(log, k).Ok?
    decreases |log.events| - i
  {
    hide EventDefect;
    if i < |log.events| {
      FirstDefectDecides(log, i + 1);
    }
  }

  /** Validation accepts exactly the valid logs. */
  lemma {:induction false} ValidateDecides(log: EventLog)
    ensures Validate(log).Ok? <==> ValidLog(log)
  {
    FirstDefectDecides(log, 0);
    if ValidLog(log) {
      forall k | 0 <= k < |log.events|
        ensures EventDefect(log, k).Ok?
      {
        assert HasIdentifiers(log.events[k]);
      }
    }
    if Validate(log).Ok? {
      forall k | 0 <= k < |log.events|
        ensures HasIdentifiers(log.events[k]) && log.events[k].sequence == log.baseRevision + k + 1
        ensures forall j | 0 <= j < k :: log.events[j].eventId != log.events[k].eventId
      {
        assert EventDefect(log, k).Ok?;
      }
    }
  }

  /** What a complaint about event `i` says of it. */
  ghost predicate SaysOf(log: EventLog, i: nat, defect: ProtocolError)
    requires i < |log.events|
  {
    var e, expected := log.events[i], log.baseRevision + i + 1;
    match defect
    case EmptyIdentifier(field) =>
      || (field == "event_id" && T.Blank(e.eventId))
      || (field == "causation_id" && T.Blank(e.causationId))
      || (field == "actor" && T.Blank(e.actor))
    case SequenceOverflow => expected > U64_MAX
    case UnexpectedEventSequence(wanted, actual) => wanted == expected && actual == e.sequence && actual != wanted
    case DuplicateEventId(id) => id == e.eventId && exists j | 0 <= j < i :: log.events[j].eventId == id
    case _ => false
  }

  lemma {:induction false} FirstDefectIsTrue(log: EventLog, i: nat)
    requires i <= |log.events| && FirstDefect(log, i).Err?
    ensures exists k: nat | i <= k < |log.events| ::
              SaysOf(log, k, FirstDefect(log, i).error) && forall j | i <= j < k :: EventDefect(log, j).Ok?
    decreases |log.events| - i
  {
    if EventDefect(log, i).Ok? {
      FirstDefectIsTrue(log, i + 1);
      var k: nat :| i + 1 <= k < |log.events| && SaysOf(log, k, FirstDefect(log, i + 1).error)
                    && forall j | i + 1 <= j < k :: EventDefect(log, j).Ok?;
      assert SaysOf(log, k, FirstDefect(log, i).error);
    } else {
      assert SaysOf(log, i, FirstDefect(log, i).error);
    }
  }

  /** A refusal names what is wrong: with the document, or with the first event that no valid log can have there. */
  lemma {:induction false} DefectIsTrue(log: EventLog)
    requires Validate(log).Err?
    ensures match Validate(log).error
            case UnknownFamily(family) => family == log.family && family != "sytog"
            case UnsupportedVersion(version) => version == log.protocolVersion && version != 1
            case UnsupportedEventLogSchema(version) => version == log.schemaVersion && version != 1
            case defect =>
              || (T.Blank(log.sessionId) && defect == EmptyIdentifier("session_id"))
              || exists k: nat | k < |log.events| ::
                   SaysOf(log, k, defect) && ValidEvents(log.baseRevision, log.events[..k])
  {
    hide EventDefect, T.Blank;
    if FirstDefect(log, 0).Err? {
      FirstDefectIsTrue(log, 0);
      var k: nat :| k < |log.events| && SaysOf(log, k, FirstDefect(log, 0).error)
                    && forall j | 0 <= j < k :: EventDefect(log, j).Ok?;
      SoundSoFar(log, k);
    }
  }

  lemma SoundSoFar(log: EventLog, k: nat)
    requires k <= |log.events| && forall j | 0 <= j < k :: EventDefect(log, j).Ok?
    ensures ValidEvents(log.baseRevision, log.events[..k])
  {
    hide T.Blank;
    forall j | 0 <= j < k
      ensures HasIdentifiers(log.events[j]) && log.events[j].sequence == log.baseRevision + j + 1
      ensures forall l | 0 <= l < j :: log.events[l].eventId != log.events[j].eventId
    {
      assert EventDefect(log, j).Ok?;
    }
  }

  function ValidateSnapshot(snapshot: Snapshot): Result<(), ProtocolError> {
    var _ :- ValidateHeader(snapshot.family, snapshot.protocolVersion);
    if snapshot.schemaVersion != SNAPSHOT_SCHEMA_VERSION then
      Err(UnsupportedSnapshotSchema(snapshot.schemaVersion))
    else
      var _ :- ValidateIdentifier(snapshot.sessionId, "session_id");
      if snapshot.state.sessionId != snapshot.sessionId || snapshot.state.revision != snapshot.revision then
        Err(SnapshotIdentityMismatch)
      else
        Ok(())
  }

  /** A snapshot of the current versions whose session and revision are those of its state. */
  ghost predicate ValidSnapshot(snapshot: Snapshot) {
    && snapshot.family == "sytog" && snapshot.protocolVersion == 1 && snapshot.schemaVersion == 1
    && !T.Blank(snapshot.sessionId)
    && snapshot.state.sessionId == snapshot.sessionId && snapshot.state.revision == snapshot.revision
  }

  lemma {:induction false} SnapshotDecides(snapshot: Snapshot)
    ensures ValidateSnapshot(snapshot).Ok? <==> ValidSnapshot(snapshot)
  {
    hide T.Blank;
  }

  // ---- Splitting and extending valid logs ----------------------------------------------------

  /** A concatenation is valid exactly when both parts are, each on its base, and share no id. */
  lemma {:induction false} ValidEventsConcat(base: nat, a: seq<SessionEvent>, b: seq<SessionEvent>)
    ensures ValidEvents(base, a + b) <==>
            && ValidEvents(base, a)
            && ValidEvents(base + |a|, b)
            && forall i, j | 0 <= i < |a| && 0 <= j < |b| :: a[i].eventId != b[j].eventId
  {
    var c := a + b;
    assert forall i | 0 <= i < |a| :: c[i] == a[i];
    assert forall j | 0 <= j < |b| :: b[j] == c[|a| + j];
    if ValidEvents(base, c) {
      forall i, j | 0 <= i < |a| && 0 <= j < |b|
        ensures a[i].eventId != b[j].eventId
      {
        assert c[i].eventId != c[|a| + j].eventId;
      }
    }
  }
}
