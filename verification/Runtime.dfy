/** Deciding commands, applying decisions atomically, replaying logs. */
module Runtime {
  import opened Base
  import opened Domain
  import opened Protocol
  import T = Text

  datatype RequestedEffect = BroadcastEvent(sequence: u64) | PersistEvent(sequence: u64)

  datatype Decision = Decision(events: seq<SessionEvent>, effects: seq<RequestedEffect>)

  datatype ActivityTransition = ActivityTransition(eventType: string, payload: Value, resultingState: Value)

  datatype ActivityRejection = ActivityRejection(code: string)

  /** An activity adapter: deterministic, and seen only through these three members. */
  datatype Engine =
    Engine(descriptor: ActivityDescriptor, initialState: Value,
           decide: (ParticipantId, ActiveActivity, ActivityCommandEnvelope) ->
             Result<ActivityTransition, ActivityRejection>)

  datatype Rejection =
    | RevisionConflict(expected: u64, actual: u64)
    | AlreadyInitialized
    | NotInitialized
    | SessionNotOpen
    | ParticipantAlreadyJoined
    | UnknownParticipant(participant: ParticipantId)
    | NotAuthority
    | AuthorityAlreadyHeld
    | ActivityNotActive
    | ActivityDescriptorMismatch
    | ActivityEngineUnavailable
    | ActivityRejected(reason: ActivityRejection)
    | EmptyField(field: string)
    | RevisionOverflow
    | ActivityRevisionOverflow

  datatype RuntimeError = Rejected(rejection: Rejection) | NotApplied(error: ApplyError)

  datatype ReplayError =
    | InvalidLog(error: ProtocolError)
    | SessionMismatch
    | BaseRevisionMismatch(expected: u64, actual: u64)
    | ReplayStopped(reason: ApplyError)

  // ---- Deciding ------------------------------------------------------------------------------

  function RequireInitialized(s: SessionState): Result<(), Rejection> {
    if s.lifecycle.Uninitialized? then Err(NotInitialized) else Ok(())
  }

  function RequireParticipant(s: SessionState, p: ParticipantId): Result<(), Rejection> {
    if p in s.participants then Ok(()) else Err(UnknownParticipant(p))
  }

  function RequireAuthority(s: SessionState, p: ParticipantId): Result<(), Rejection> {
    var _ :- RequireParticipant(s, p);
    if s.authority == Some(p) then Ok(()) else Err(NotAuthority)
  }

  function RequiredText(value: string, field: string): Result<string, Rejection> {
    var trimmed := T.Trim(value);
    if trimmed == [] then Err(EmptyField(field)) else Ok(trimmed)
  }

  function MatchingEngine(engine: Option<Engine>, descriptor: ActivityDescriptor): Result<Engine, Rejection> {
    if engine.Some? && engine.value.descriptor == descriptor then Ok(engine.value)
    else Err(ActivityEngineUnavailable)
  }

  function DecideSession(s: SessionState, request: CommandRequest, command: SessionCommand,
                         engine: Option<Engine>): Result<EventKind, Rejection>
  {
    match command
    case CreateSession(displayName) =>
      if !s.lifecycle.Uninitialized? then
        Err(AlreadyInitialized)
      else
        var name :- RequiredText(displayName, "display_name");
        Ok(SessionFact(SessionCreated(request.actor, name)))
    case Join(displayName) =>
      var _ :- RequireInitialized(s);
      if !s.lifecycle.Open? then
        Err(SessionNotOpen)
      else if request.actor in s.participants then
        Err(ParticipantAlreadyJoined)
      else
        var name :- RequiredText(displayName, "display_name");
        Ok(SessionFact(ParticipantJoined(request.actor, name)))
    case StartActivity(descriptor) =>
      var _ :- RequireAuthority(s, request.actor);
      if !s.lifecycle.Open? then
        Err(SessionNotOpen)
      else
        var matching :- MatchingEngine(engine, descriptor);
        Ok(SessionFact(ActivityStarted(descriptor, matching.initialState)))
    case StopActivity =>
      var _ :- RequireAuthority(s, request.actor);
      if s.activity.None? then
        Err(ActivityNotActive)
      else
        Ok(SessionFact(ActivityStopped(s.activity.value.descriptor)))
    case TransferAuthority(to) =>
      var _ :- RequireAuthority(s, request.actor);
      var _ :- RequireParticipant(s, to);
      if to == request.actor then
        Err(AuthorityAlreadyHeld)
      else
        Ok(SessionFact(AuthorityTransferred(request.actor, to)))
  }

  function DecideActivity(s: SessionState, request: CommandRequest, command: ActivityCommandEnvelope,
                          engine: Option<Engine>): Result<EventKind, Rejection>
  {
    var _ :- RequireParticipant(s, request.actor);
    if s.activity.None? then
      Err(ActivityNotActive)
    else
      var active := s.activity.value;
      if active.descriptor != command.descriptor then
        Err(ActivityDescriptorMismatch)
      else
        var matching :- MatchingEngine(engine, active.descriptor);
        match matching.decide(request.actor, active, command)
        case Err(reason) => Err(ActivityRejected(reason))
        case Ok(transition) =>
          if active.revision == U64_MAX then
            Err(Rejection.ActivityRevisionOverflow)
          else
            Ok(ActivityFact(ActivityEventEnvelope(active.descriptor, active.revision + 1, transition.eventType,
                                                  transition.payload, transition.resultingState)))
  }

  /** The accepted facts of a command, or its rejection. */
  function Decide(s: SessionState, request: CommandRequest, engine: Option<Engine>): Result<Decision, Rejection> {
    if request.expectedRevision != s.revision then
      Err(RevisionConflict(s.revision, request.expectedRevision))
    else
      var kind :- match request.command
                  case SessionScope(command) => DecideSession(s, request, command, engine)
                  case ActivityScope(command) => DecideActivity(s, request, command, engine);
      if s.revision == U64_MAX then
        Err(Rejection.RevisionOverflow)
      else
        Ok(Decision([EventFor(s, request, kind)],
                    [PersistEvent(s.revision + 1), BroadcastEvent(s.revision + 1)]))
  }

  /** The event that records `kind` as the outcome of `request`. */
  function EventFor(s: SessionState, request: CommandRequest, kind: EventKind): SessionEvent
    requires s.revision < U64_MAX
  {
    SessionEvent(T.FromCausation(request.messageId, 0), s.revision + 1, request.messageId, request.actor, kind)
  }

  // ---- Decider and reducer agree -------------------------------------------------------------

  /**
   * Whatever `Decide` accepts, the reducer accepts, one revision further, in every state; and the decision
   * asks for durability of exactly that event before its broadcast.
   */
  lemma {:induction false} DecisionApplies(s: SessionState, request: CommandRequest, engine: Option<Engine>)
    requires Decide(s, request, engine).Ok?
    ensures var d := Decide(s, request, engine).value;
            && s.revision < U64_MAX
            && |d.events| == 1
            && d.events[0].eventId == T.FromCausation(request.messageId, 0)
            && d.events[0].causationId == request.messageId
            && d.events[0].actor == request.actor
            && d.events[0].sequence == s.revision + 1
            && Replay(s, d.events).Ok?
            && Replay(s, d.events).value.revision == s.revision + 1
            && Apply(s, d.events[0]) == Replay(s, d.events)
            && d.effects == [PersistEvent(d.events[0].sequence), BroadcastEvent(d.events[0].sequence)]
  {
    var d := Decide(s, request, engine).value;
    ReplayOne(s, d.events[0]);
  }

  /** What a command asks to record, read without looking at permissions or lifecycle. */
  function Proposal(s: SessionState, request: CommandRequest, engine: Option<Engine>): Option<EventKind> {
    match request.command
    case SessionScope(CreateSession(name)) =>
      if T.Blank(name) then None else Some(SessionFact(SessionCreated(request.actor, T.Trim(name))))
    case SessionScope(Join(name)) =>
      if T.Blank(name) then None else Some(SessionFact(ParticipantJoined(request.actor, T.Trim(name))))
    case SessionScope(StartActivity(descriptor)) =>
      if engine.Some? && engine.value.descriptor == descriptor
      then Some(SessionFact(ActivityStarted(descriptor, engine.value.initialState))) else None
    case SessionScope(StopActivity) =>
      if s.activity.Some? then Some(SessionFact(ActivityStopped(s.activity.value.descriptor))) else None
    case SessionScope(TransferAuthority(to)) =>
      Some(SessionFact(AuthorityTransferred(request.actor, to)))
    case ActivityScope(command) =>
      if s.activity.Some? && engine.Some? && engine.value.descriptor == s.activity.value.descriptor
         && s.activity.value.revision < U64_MAX
      then match engine.value.decide(request.actor, s.activity.value, command)
           case Err(_) => None
           case Ok(t) => Some(ActivityFact(ActivityEventEnvelope(command.descriptor, s.activity.value.revision + 1,
                                                                 t.eventType, t.payload, t.resultingState)))
      else None
  }

  /** What `Decide` and the reducer must agree on for one command. */
  ghost predicate DecidesAsReduced(s: SessionState, request: CommandRequest, engine: Option<Engine>) {
    var decided, proposal := Decide(s, request, engine), Proposal(s, request, engine);
    && (decided.Ok? <==>
          && request.expectedRevision == s.revision
          && s.revision < U64_MAX
          && proposal.Some?
          && Apply(s, EventFor(s, request, proposal.value)).Ok?)
    && (decided.Ok? ==> decided.value.events == [EventFor(s, request, proposal.value)])
  }

  lemma ActivityMeetsReducer(s: SessionState, request: CommandRequest, engine: Option<Engine>)
    requires request.command.ActivityScope?
    ensures DecidesAsReduced(s, request, engine)
  {
  }

  lemma SessionMeetsReducer(s: SessionState, request: CommandRequest, engine: Option<Engine>)
    requires s.authority.Some? ==> s.authority.value in s.participants
    requires request.command.SessionScope?
    ensures DecidesAsReduced(s, request, engine)
  {
    hide DecideActivity, ApplyActivityFact, T.Trim, T.TrimEnd, T.TrimStart, T.FromCausation;
  }

  /**
   * Where the authority is a participant, `Decide` accepts a command exactly when its revision is
   * current, it proposes an event, and the reducer accepts that event; the decision is that event.
   */
  lemma {:induction false} DecideMeetsReducer(s: SessionState, request: CommandRequest, engine: Option<Engine>)
    requires s.authority.Some? ==> s.authority.value in s.participants
    ensures Decide(s, request, engine).Ok? <==>
            && request.expectedRevision == s.revision
            && s.revision < U64_MAX
            && Proposal(s, request, engine).Some?
            && Apply(s, EventFor(s, request, Proposal(s, request, engine).value)).Ok?
    ensures Decide(s, request, engine).Ok? ==>
              Decide(s, request, engine).value.events
              == [EventFor(s, request, Proposal(s, request, engine).value)]
  {
    hide Decide, Apply, Proposal;
    if request.command.ActivityScope? {
      ActivityMeetsReducer(s, request, engine);
    } else {
      SessionMeetsReducer(s, request, engine);
    }
  }

  /** Every rejection is true: what it says about the state and the request is so. */
  lemma {:induction false} RejectionIsTrue(s: SessionState, request: CommandRequest, engine: Option<Engine>)
    requires Decide(s, request, engine).Err?
    ensures match Decide(s, request, engine).error
            case RevisionConflict(expected, actual) =>
              expected == s.revision && actual == request.expectedRevision && expected != actual
            case AlreadyInitialized =>
              request.command.SessionScope? && request.command.command.CreateSession? && !s.lifecycle.Uninitialized?
            case NotInitialized =>
              request.command.SessionScope? && request.command.command.Join? && s.lifecycle.Uninitialized?
            case SessionNotOpen => request.command.SessionScope? && !s.lifecycle.Open?
            case ParticipantAlreadyJoined =>
              request.command.SessionScope? && request.command.command.Join? && request.actor in s.participants
            case UnknownParticipant(p) =>
              && p !in s.participants
              && (|| p == request.actor
                  || (request.command.SessionScope? && request.command.command == TransferAuthority(p)))
            case NotAuthority =>
              request.command.SessionScope? && request.actor in s.participants && s.authority != Some(request.actor)
            case AuthorityAlreadyHeld =>
              request.command == SessionScope(TransferAuthority(request.actor)) && s.authority == Some(request.actor)
            case ActivityNotActive => s.activity.None?
            case ActivityDescriptorMismatch =>
              && request.command.ActivityScope? && s.activity.Some?
              && s.activity.value.descriptor != request.command.envelope.descriptor
            case ActivityEngineUnavailable =>
              || engine.None?
              || (match request.command
                  case SessionScope(StartActivity(descriptor)) => engine.value.descriptor != descriptor
                  case SessionScope(_) => false
                  case ActivityScope(_) => s.activity.Some? && engine.value.descriptor != s.activity.value.descriptor)
            case ActivityRejected(reason) =>
              && request.command.ActivityScope? && s.activity.Some? && engine.Some?
              && engine.value.decide(request.actor, s.activity.value, request.command.envelope) == Err(reason)
            case EmptyField(_) =>
              && request.command.SessionScope?
              && (|| (request.command.command.CreateSession? && T.Blank(request.command.command.displayName))
                  || (request.command.command.Join? && T.Blank(request.command.command.displayName)))
            case RevisionOverflow => s.revision == U64_MAX
            case ActivityRevisionOverflow => s.activity.Some? && s.activity.value.revision == U64_MAX
  {
    hide T.TrimStart, T.TrimEnd;
  }

  // ---- Applying decisions --------------------------------------------------------------------

  /** Applies every event to a copy and keeps the copy only if all of them apply. */
  method ApplyDecisionAtomically(session: LiveSession, decision: Decision) returns (r: Result<(), ApplyError>)
    modifies session
    ensures match Replay(old(session.Current()), decision.events)
            case Ok(next) => r.Ok? && session.Current() == next
            case Err(error) => r == Err(error) && session.Current() == old(session.Current())
  {
    var candidate := new LiveSession.Clone(session.Current());
    var i := 0;
    while i < |decision.events|
      invariant 0 <= i <= |decision.events|
      invariant session.Current() == old(session.Current())
      invariant Replay(old(session.Current()), decision.events) ==
                Replay(candidate.Current(), decision.events[i..])
    {
      assert decision.events[i..][1..] == decision.events[i + 1..];
      var _ :- candidate.ApplyEvent(decision.events[i]);
      i := i + 1;
    }
    session.Assign(candidate.Current());
    return Ok(());
  }

  /** Decides and applies; every failure leaves the session as it was. */
  method Execute(session: LiveSession, request: CommandRequest, engine: Option<Engine>)
    returns (r: Result<Decision, RuntimeError>)
    modifies session
    ensures match Decide(old(session.Current()), request, engine)
            case Err(rejection) => r == Err(Rejected(rejection)) && session.Current() == old(session.Current())
            case Ok(decision) =>
              && r == Ok(decision)
              && Replay(old(session.Current()), decision.events) == Ok(session.Current())
              && session.revision == old(session.revision) + 1
  {
    match Decide(session.Current(), request, engine) {
      case Err(rejection) =>
        return Err(Rejected(rejection));
      case Ok(decision) =>
        DecisionApplies(session.Current(), request, engine);
        var applied := ApplyDecisionAtomically(session, decision);
        match applied {
          case Err(error) =>
            return Err(NotApplied(error));
          case Ok(_) =>
            return Ok(decision);
        }
    }
  }

  // ---- Replaying -----------------------------------------------------------------------------

  /** Folds the reducer over an ordered suffix, stopping at the first refused event. */
  function Replay(s: SessionState, events: seq<SessionEvent>): Result<SessionState, ApplyError>
    decreases |events|
  {
    if events == [] then
      Ok(s)
    else
      var next :- Apply(s, events[0]);
      Replay(next, events[1..])
  }

  function ReplayLog(initial: SessionState, log: EventLog): Result<SessionState, ReplayError> {
    match Validate(log)
    case Err(error) => Err(InvalidLog(error))
    case Ok(_) =>
      if initial.sessionId != log.sessionId then
        Err(SessionMismatch)
      else if initial.revision != log.baseRevision then
        Err(BaseRevisionMismatch(initial.revision, log.baseRevision))
      else
        match Replay(initial, log.events)
        case Err(error) => Err(ReplayStopped(error))
        case Ok(s) => Ok(s)
  }

  /** A log replays on a state exactly when it is valid, made for that session and revision, and every event applies. */
  lemma {:induction false} ReplayLogExactly(initial: SessionState, log: EventLog)
    ensures ReplayLog(initial, log).Ok? <==>
            && ValidLog(log)
            && log.sessionId == initial.sessionId && log.baseRevision == initial.revision
            && Replay(initial, log.events).Ok?
    ensures ReplayLog(initial, log).Ok? ==> Ok(ReplayLog(initial, log).value) == Replay(initial, log.events)
    ensures ReplayLog(initial, log).Err? ==>
              match ReplayLog(initial, log).error
              case InvalidLog(_) => !ValidLog(log)
              case SessionMismatch => ValidLog(log) && log.sessionId != initial.sessionId
              case BaseRevisionMismatch(expected, actual) =>
                ValidLog(log) && expected == initial.revision && actual == log.baseRevision && expected != actual
              case ReplayStopped(error) => ValidLog(log) && Replay(initial, log.events) == Err(error)
  {
    ValidateDecides(log);
    hide ValidLog, Validate, Replay;
  }

  lemma ReplayOne(s: SessionState, e: SessionEvent)
    ensures Replay(s, [e]) == Apply(s, e)
  {
    assert [e][1..] == [];
    if Apply(s, e).Ok? {
      assert Replay(Apply(s, e).value, []) == Apply(s, e);
    }
  }

  lemma {:induction false} ReplayConcat(s: SessionState, a: seq<SessionEvent>, b: seq<SessionEvent>)
    ensures Replay(s, a + b) ==
            match Replay(s, a)
            case Err(error) => Err(error)
            case Ok(middle) => Replay(middle, b)
    decreases |a|
  {
    if a == [] {
      assert a + b == b;
    } else {
      assert (a + b)[0] == a[0] && (a + b)[1..] == a[1..] + b;
      if Apply(s, a[0]).Ok? {
        ReplayConcat(Apply(s, a[0]).value, a[1..], b);
      }
    }
  }

  /** A successful replay counts its events, stays in its session, and saw contiguous sequences. */
  lemma {:induction false} ReplayAdvances(s: SessionState, events: seq<SessionEvent>)
    requires Replay(s, events).Ok?
    ensures var t := Replay(s, events).value;
            t.revision == s.revision + |events| && t.sessionId == s.sessionId
    ensures Contiguous(s.revision, events)
    decreases |events|
  {
    if events != [] {
      var next := Apply(s, events[0]).value;
      assert next.revision == s.revision + 1 && next.sessionId == s.sessionId && events[0].sequence == s.revision + 1;
      hide Apply;
      ReplayAdvances(next, events[1..]);
      assert forall i | 1 <= i < |events| :: events[i] == events[1..][i - 1];
    }
  }

  lemma ReplayPrefix(s: SessionState, events: seq<SessionEvent>, k: nat)
    requires Replay(s, events).Ok? && k <= |events|
    ensures Replay(s, events[..k]).Ok?
    ensures Replay(Replay(s, events[..k]).value, events[k..]) == Replay(s, events)
  {
    ReplayConcat(s, events[..k], events[k..]);
    assert events[..k] + events[k..] == events;
  }

  function LogPrefix(log: EventLog, k: nat): EventLog
    requires k <= |log.events|
  {
    log.(events := log.events[..k])
  }

  function LogSuffix(log: EventLog, k: nat): EventLog
    requires k <= |log.events| && log.baseRevision + k <= U64_MAX
  {
    log.(baseRevision := log.baseRevision + k, events := log.events[k..])
  }

  lemma CutIsValid(log: EventLog, k: nat)
    requires ValidLog(log) && k <= |log.events|
    ensures log.baseRevision + k <= U64_MAX
    ensures ValidLog(LogPrefix(log, k)) && ValidLog(LogSuffix(log, k))
  {
    assert log.events[..k] + log.events[k..] == log.events;
    ValidEventsConcat(log.baseRevision, log.events[..k], log.events[k..]);
    if k > 0 {
      assert log.events[k - 1].sequence == log.baseRevision + k;
    }
  }

  /**
   * Cutting a valid log anywhere leaves two valid logs, and replaying the suffix on the state of the
   * prefix succeeds with the same state, or fails with the same error, as replaying the whole log.
   */
  lemma {:induction false} SnapshotPlusSuffix(initial: SessionState, log: EventLog, k: nat)
    requires ValidLog(log) && k <= |log.events|
    ensures log.baseRevision + k <= U64_MAX
    ensures ValidLog(LogPrefix(log, k)) && ValidLog(LogSuffix(log, k))
    ensures ReplayLog(initial, log) ==
            match ReplayLog(initial, LogPrefix(log, k))
            case Err(error) => Err(error)
            case Ok(middle) => ReplayLog(middle, LogSuffix(log, k))
  {
    hide Replay, Validate, ValidLog;
    CutIsValid(log, k);
    ValidateDecides(log);
    ValidateDecides(LogPrefix(log, k));
    ValidateDecides(LogSuffix(log, k));
    assert log.events[..k] + log.events[k..] == log.events;
    ReplayConcat(initial, log.events[..k], log.events[k..]);
    if ReplayLog(initial, LogPrefix(log, k)).Ok? {
      ReplayAdvances(initial, log.events[..k]);
    }
  }
}
