/**
 * The authoritative host: it turns one request at a time into events, makes them durable, and only
 * then commits them to memory and broadcasts them. `Plan...` say what a call decides from the
 * canonical session alone; the class carries the plan out against journal and channel.
 */
module Host {
  import opened Base
  import opened Domain
  import opened Protocol
  import opened Runtime
  import opened Journal
  import opened Channels
  import T = Text

  const HOST_ID := "host"
  const BOOTSTRAP_ID := "bootstrap"
  const BOOTSTRAP_NAME := "SYTOG Host"
  const AUTO_START := "auto-start:"
  const CHANNEL_CAPACITY: nat := 256

  datatype RejectionCode =
    | CommandIdCollision
    | JournalInvariantFailed(defect: ProtocolError)
    | PersistenceFailed
    | ApplyFailed(error: ApplyError)
    | RuntimeRejection(rejection: Rejection)

  datatype HostRejection = HostRejection(code: RejectionCode, currentRevision: u64)

  datatype Submission = Submission(events: seq<SessionEvent>, duplicate: bool)

  /** The session as the host holds it in memory under its lock. */
  datatype Canonical =
    Canonical(state: SessionState, events: seq<SessionEvent>, receipts: map<MessageId, AcceptedCommand>)

  /** What a call comes to: a refusal, an answer that changes nothing, or a receipt to commit. */
  datatype Plan =
    | Refuse(rejection: HostRejection)
    | Reply(submission: Submission)
    | Commit(candidate: SessionState, command: AcceptedCommand)

  /** A candidate state and the events that lead to it. */
  datatype Draft = Draft(candidate: SessionState, events: seq<SessionEvent>)

  // ---- Planning ------------------------------------------------------------------------------

  /** One decision, applied to a copy of the state. */
  function DraftDecision(state: SessionState, request: CommandRequest, engine: Option<Engine>)
    : Result<Draft, RejectionCode>
  {
    match Decide(state, request, engine)
    case Err(rejection) => Err(RuntimeRejection(rejection))
    case Ok(decision) =>
      match Replay(state, decision.events)
      case Err(error) => Err(ApplyFailed(error))
      case Ok(candidate) => Ok(Draft(candidate, decision.events))
  }

  function AutoStartRequest(state: SessionState, request: CommandRequest, engine: Engine): CommandRequest {
    CommandRequest(AUTO_START + request.messageId, HOST_ID, state.revision,
                   SessionScope(StartActivity(engine.descriptor)))
  }

  /** Two decisions for one request: the host starts the activity, then the command runs in it. */
  function DraftAutoStart(state: SessionState, request: CommandRequest, engine: Engine): Result<Draft, RejectionCode> {
    var started :- DraftDecision(state, AutoStartRequest(state, request, engine), Some(engine));
    var adjusted := request.(expectedRevision := started.candidate.revision);
    var done :- DraftDecision(started.candidate, adjusted, Some(engine));
    Ok(Draft(done.candidate, started.events + done.events))
  }

  predicate NeedsAutoStart(state: SessionState, request: CommandRequest) {
    request.command.ActivityScope? && state.activity.None?
  }

  function DraftSubmission(state: SessionState, request: CommandRequest, engine: Engine): Result<Draft, RejectionCode> {
    if NeedsAutoStart(state, request)
    then DraftAutoStart(state, request, engine)
    else DraftDecision(state, request, Some(engine))
  }

  function PlanCommit(sessionId: SessionId, c: Canonical, candidate: SessionState, command: AcceptedCommand): Plan {
    if command.request.messageId in c.receipts then
      Refuse(HostRejection(CommandIdCollision, c.state.revision))
    else
      match Validate(CurrentLog(sessionId, 0, c.events + command.events))
      case Err(defect) => Refuse(HostRejection(JournalInvariantFailed(defect), c.state.revision))
      case Ok(_) => Commit(candidate, command)
  }

  function PlanDraft(sessionId: SessionId, c: Canonical, request: CommandRequest, draft: Result<Draft, RejectionCode>)
    : Plan
  {
    match draft
    case Err(code) => Refuse(HostRejection(code, c.state.revision))
    case Ok(d) => PlanCommit(sessionId, c, d.candidate, AcceptedCommand(request, d.events))
  }

  function JoinRequest(c: Canonical, participant: ParticipantId, displayName: string, messageId: MessageId)
    : CommandRequest
  {
    CommandRequest(messageId, participant, c.state.revision, SessionScope(Join(displayName)))
  }

  function PlanJoin(sessionId: SessionId, c: Canonical, participant: ParticipantId, displayName: string,
                    messageId: MessageId): Plan
  {
    if participant in c.state.participants then
      Reply(Submission([], false))
    else
      var request := JoinRequest(c, participant, displayName, messageId);
      PlanDraft(sessionId, c, request, DraftDecision(c.state, request, None))
  }

  function PlanSubmit(sessionId: SessionId, engine: Engine, c: Canonical, request: CommandRequest): Plan {
    if request.messageId in c.receipts then
      var accepted := c.receipts[request.messageId];
      if accepted.request == request
      then Reply(Submission(accepted.events, true))
      else Refuse(HostRejection(CommandIdCollision, c.state.revision))
    else if request.expectedRevision != c.state.revision then
      Refuse(HostRejection(RuntimeRejection(RevisionConflict(c.state.revision, request.expectedRevision)),
                           c.state.revision))
    else
      PlanDraft(sessionId, c, request, DraftSubmission(c.state, request, engine))
  }

  /** The canonical session with one more receipt. */
  function Committed(c: Canonical, candidate: SessionState, command: AcceptedCommand): Canonical {
    Canonical(candidate, c.events + command.events, c.receipts[command.request.messageId := command])
  }

  // ---- What plans commit ---------------------------------------------------------------------

  /** A receipt that may follow the canonical session `c`. */
  ghost predicate MayFollow(sessionId: SessionId, c: Canonical, candidate: SessionState, command: AcceptedCommand) {
    && command.request.messageId !in c.receipts
    && SoundReceipt(command)
    && ValidLog(CurrentLog(sessionId, 0, c.events + command.events))
    && Replay(c.state, command.events) == Ok(candidate)
  }

  /** Drafted events apply, advance the revision by their number, and name their message. */
  lemma DraftApplies(state: SessionState, request: CommandRequest, engine: Option<Engine>)
    requires DraftDecision(state, request, engine).Ok?
    ensures var d := DraftDecision(state, request, engine).value;
            && Replay(state, d.events) == Ok(d.candidate)
            && d.candidate.revision == state.revision + 1
            && |d.events| == 1
            && d.events[0].eventId == T.FromCausation(request.messageId, 0)
            && d.events[0].causationId == request.messageId
            && d.events[0].actor == request.actor
            && d.events[0].sequence == state.revision + 1
            && Decide(state, request, engine).Ok?
            && d.events == Decide(state, request, engine).value.events
  {
    DecisionApplies(state, request, engine);
  }

  /**
   * An auto-start is exactly two events: the host's `ActivityStarted` at the next revision and the
   * command's activity fact at the one after. If either decision fails there is no draft at all.
   */
  lemma {:induction false} AutoStartApplies(state: SessionState, request: CommandRequest, engine: Engine)
    requires request.command.ActivityScope? && DraftAutoStart(state, request, engine).Ok?
    ensures var d := DraftAutoStart(state, request, engine).value;
            && Replay(state, d.events) == Ok(d.candidate)
            && d.candidate.revision == state.revision + 2
            && |d.events| == 2
            && d.events[0].kind == SessionFact(ActivityStarted(engine.descriptor, engine.initialState))
            && d.events[0].actor == HOST_ID
            && d.events[0].causationId == AUTO_START + request.messageId
            && d.events[0].eventId == T.FromCausation(d.events[0].causationId, 0)
            && d.events[0].sequence == state.revision + 1
            && d.events[1].kind.ActivityFact?
            && d.events[1].kind.envelope.activitySequence == 1
            && d.events[1].actor == request.actor
            && d.events[1].causationId == request.messageId
            && d.events[1].eventId == T.FromCausation(request.messageId, 0)
            && d.events[1].sequence == state.revision + 2
  {
    var start := AutoStartRequest(state, request, engine);
    DraftApplies(state, start, Some(engine));
    var started := DraftDecision(state, start, Some(engine)).value;
    var adjusted := request.(expectedRevision := started.candidate.revision);
    DraftApplies(started.candidate, adjusted, Some(engine));
    var done := DraftDecision(started.candidate, adjusted, Some(engine)).value;
    ReplayConcat(state, started.events, done.events);
    ReplayOne(state, started.events[0]);
    assert started.events == [started.events[0]];
    assert (started.events + done.events)[0] == started.events[0];
    assert (started.events + done.events)[1] == done.events[0];
  }

  lemma SubmissionApplies(state: SessionState, request: CommandRequest, engine: Engine)
    requires DraftSubmission(state, request, engine).Ok?
    ensures var d := DraftSubmission(state, request, engine).value;
            && Replay(state, d.events) == Ok(d.candidate)
            && SoundReceipt(AcceptedCommand(request, d.events))
            && d.candidate.revision == state.revision + |d.events|
  {
    var d := DraftSubmission(state, request, engine).value;
    if NeedsAutoStart(state, request) {
      AutoStartApplies(state, request, engine);
      assert d.events[1].causationId == request.messageId;
    } else {
      DraftApplies(state, request, Some(engine));
      assert d.events[0].causationId == request.messageId;
    }
  }

  lemma CommitMayFollow(sessionId: SessionId, c: Canonical, candidate: SessionState, command: AcceptedCommand)
    requires SoundReceipt(command) && Replay(c.state, command.events) == Ok(candidate)
    ensures PlanCommit(sessionId, c, candidate, command).Commit? <==> MayFollow(sessionId, c, candidate, command)
    ensures PlanCommit(sessionId, c, candidate, command).Commit? ==>
              PlanCommit(sessionId, c, candidate, command) == Commit(candidate, command)
  {
    ValidateDecides(CurrentLog(sessionId, 0, c.events + command.events));
  }

  /** Whatever `submit` commits may follow the session, and records the request as it was sent. */
  lemma {:induction false} SubmitCommits(sessionId: SessionId, engine: Engine, c: Canonical, request: CommandRequest)
    requires PlanSubmit(sessionId, engine, c, request).Commit?
    ensures DraftSubmission(c.state, request, engine).Ok?
    ensures var plan := PlanSubmit(sessionId, engine, c, request);
            && plan.command.request == request
            && MayFollow(sessionId, c, plan.candidate, plan.command)
            && Draft(plan.candidate, plan.command.events) == DraftSubmission(c.state, request, engine).value
  {
    SubmissionApplies(c.state, request, engine);
    var d := DraftSubmission(c.state, request, engine).value;
    CommitMayFollow(sessionId, c, d.candidate, AcceptedCommand(request, d.events));
  }

  lemma {:induction false} JoinCommits(sessionId: SessionId, c: Canonical, participant: ParticipantId,
                                       displayName: string, messageId: MessageId)
    requires PlanJoin(sessionId, c, participant, displayName, messageId).Commit?
    ensures var plan := PlanJoin(sessionId, c, participant, displayName, messageId);
            && plan.command.request == JoinRequest(c, participant, displayName, messageId)
            && MayFollow(sessionId, c, plan.candidate, plan.command)
            && DraftDecision(c.state, plan.command.request, None).Ok?
            && plan.command.events == DraftDecision(c.state, plan.command.request, None).value.events
  {
    var request := JoinRequest(c, participant, displayName, messageId);
    DraftApplies(c.state, request, None);
    var d := DraftDecision(c.state, request, None).value;
    assert d.events[0].causationId == messageId;
    CommitMayFollow(sessionId, c, d.candidate, AcceptedCommand(request, d.events));
  }

  /** An answer without a commit repeats a receipt, and a receipted id gets nothing else. */
  lemma {:induction false} RepliesRepeatReceipts(sessionId: SessionId, engine: Engine, c: Canonical,
                                                 request: CommandRequest)
    ensures var plan := PlanSubmit(sessionId, engine, c, request);
            plan.Reply? <==> request.messageId in c.receipts && c.receipts[request.messageId].request == request
    ensures request.messageId in c.receipts ==>
              PlanSubmit(sessionId, engine, c, request) ==
              if c.receipts[request.messageId].request == request
              then Reply(Submission(c.receipts[request.messageId].events, true))
              else Refuse(HostRejection(CommandIdCollision, c.state.revision))
  {
    hide DraftSubmission, Validate;
  }

  // ---- What calls answer ---------------------------------------------------------------------

  /** The events a request comes to: those of its decision, or of the host's start and then its own decision. */
  ghost predicate Proposes(state: SessionState, request: CommandRequest, engine: Engine, events: seq<SessionEvent>) {
    if request.command.ActivityScope? && state.activity.None? then
      var start := Decide(state, HostStart(state, request, engine), Some(engine));
      && start.Ok? && |start.value.events| == 1
      && var started := Apply(state, start.value.events[0]);
         && started.Ok?
         && var own := Decide(started.value, request.(expectedRevision := started.value.revision), Some(engine));
            own.Ok? && events == start.value.events + own.value.events
    else
      Decide(state, request, Some(engine)).Ok? && events == Decide(state, request, Some(engine)).value.events
  }

  /** The rejection of the first of these decisions that is not accepted. */
  ghost predicate Rejects(state: SessionState, request: CommandRequest, engine: Engine, rejection: Rejection) {
    if request.command.ActivityScope? && state.activity.None? then
      var start := Decide(state, HostStart(state, request, engine), Some(engine));
      || start == Err(rejection)
      || (&& start.Ok? && |start.value.events| == 1
          && var started := Apply(state, start.value.events[0]);
             && started.Ok?
             && Decide(started.value, request.(expectedRevision := started.value.revision), Some(engine))
                == Err(rejection))
    else
      Decide(state, request, Some(engine)) == Err(rejection)
  }

  ghost function HostStart(state: SessionState, request: CommandRequest, engine: Engine): CommandRequest {
    CommandRequest("auto-start:" + request.messageId, "host", state.revision,
                   SessionScope(StartActivity(engine.descriptor)))
  }

  /** The log with more events after it, in the current versions, is valid. */
  ghost predicate ContinuesValidly(sessionId: SessionId, log: seq<SessionEvent>, events: seq<SessionEvent>) {
    ValidLog(CurrentLog(sessionId, 0, log + events))
  }

  lemma DecisionIsDraft(state: SessionState, request: CommandRequest, engine: Option<Engine>)
    ensures match Decide(state, request, engine)
            case Err(rejection) => DraftDecision(state, request, engine) == Err(RuntimeRejection(rejection))
            case Ok(decision) =>
              && |decision.events| == 1 && Apply(state, decision.events[0]).Ok?
              && DraftDecision(state, request, engine)
                 == Ok(Draft(Apply(state, decision.events[0]).value, decision.events))
  {
    if Decide(state, request, engine).Ok? {
      DecisionApplies(state, request, engine);
    }
  }

  lemma DraftIsProposal(state: SessionState, request: CommandRequest, engine: Engine)
    ensures match DraftSubmission(state, request, engine)
            case Ok(d) =>
              forall events :: Proposes(state, request, engine, events) <==> events == d.events
            case Err(code) =>
              && code.RuntimeRejection? && Rejects(state, request, engine, code.rejection)
              && forall events :: !Proposes(state, request, engine, events)
  {
    hide Decide, Apply, DraftDecision;
    if NeedsAutoStart(state, request) {
      var start := HostStart(state, request, engine);
      DecisionIsDraft(state, start, Some(engine));
      if Decide(state, start, Some(engine)).Ok? {
        var started := Apply(state, Decide(state, start, Some(engine)).value.events[0]).value;
        DecisionIsDraft(started, request.(expectedRevision := started.revision), Some(engine));
      }
    } else {
      DecisionIsDraft(state, request, Some(engine));
    }
  }

  /**
   * What a submission is answered, for every session and request. A repeated request gets its receipt and
   * another request under its id is refused; a stale request is refused with both revisions; of the others
   * exactly those are committed whose one or two decisions are accepted and continue the log validly, and
   * a refusal carries the first rejection, or what is wrong with the continued log.
   */
  lemma {:induction false} SubmitAnswersExactly(sessionId: SessionId, engine: Engine, c: Canonical,
                                                request: CommandRequest)
    ensures PlanSubmit(sessionId, engine, c, request).Commit? <==>
            && request.messageId !in c.receipts
            && request.expectedRevision == c.state.revision
            && exists events ::
                 Proposes(c.state, request, engine, events) && ContinuesValidly(sessionId, c.events, events)
    ensures var plan, now := PlanSubmit(sessionId, engine, c, request), c.state.revision;
            if request.messageId in c.receipts then
              var receipt := c.receipts[request.messageId];
              plan == if receipt.request == request then Reply(Submission(receipt.events, true))
                      else Refuse(HostRejection(CommandIdCollision, now))
            else if request.expectedRevision != now then
              plan == Refuse(HostRejection(RuntimeRejection(RevisionConflict(now, request.expectedRevision)), now))
            else
              match plan
              case Commit(candidate, command) =>
                && command.request == request && Proposes(c.state, request, engine, command.events)
                && Replay(c.state, command.events) == Ok(candidate)
              case Refuse(HostRejection(RuntimeRejection(rejection), revision)) =>
                revision == now && Rejects(c.state, request, engine, rejection)
              case Refuse(HostRejection(JournalInvariantFailed(defect), revision)) =>
                && revision == now
                && exists events :: Proposes(c.state, request, engine, events)
                                    && Validate(CurrentLog(sessionId, 0, c.events + events)) == Err(defect)
              case _ => false
  {
    DraftIsProposal(c.state, request, engine);
    if DraftSubmission(c.state, request, engine).Ok? {
      SubmissionApplies(c.state, request, engine);
      var d := DraftSubmission(c.state, request, engine).value;
      ValidateDecides(CurrentLog(sessionId, 0, c.events + d.events));
      assert Proposes(c.state, request, engine, d.events);
    }
    hide DraftSubmission, Proposes, Rejects, Validate, ValidLog, Replay;
  }

  /** The event a join is recorded as. */
  ghost function JoinedEvent(state: SessionState, participant: ParticipantId, displayName: string, messageId: MessageId)
    : SessionEvent
    requires state.revision < U64_MAX
  {
    SessionEvent(T.FromCausation(messageId, 0), state.revision + 1, messageId, participant,
                 SessionFact(ParticipantJoined(participant, T.Trim(displayName))))
  }

  ghost predicate CanJoin(state: SessionState, displayName: string) {
    state.lifecycle.Open? && !T.Blank(displayName) && state.revision < U64_MAX
  }

  lemma JoinIsDecided(state: SessionState, request: CommandRequest)
    requires request.actor !in state.participants && request.expectedRevision == state.revision
    requires request.command.SessionScope? && request.command.command.Join?
    ensures var displayName := request.command.command.displayName;
            if CanJoin(state, displayName) then
              var e := JoinedEvent(state, request.actor, displayName, request.messageId);
              && Decide(state, request, None).Ok? && Decide(state, request, None).value.events == [e]
              && DraftDecision(state, request, None)
                 == Ok(Draft(state.(participants := state.participants[request.actor :=
                                      Participant(request.actor, T.Trim(displayName))],
                                    revision := state.revision + 1), [e]))
            else
              && Decide(state, request, None).Err?
              && DraftDecision(state, request, None) == Err(RuntimeRejection(Decide(state, request, None).error))
  {
    hide T.Trim, T.FromCausation;
    DecisionIsDraft(state, request, None);
  }

  /**
   * What a join is answered, for every session: a participant is welcomed without an event; anyone else
   * joins exactly when the session is open, the name is not blank, the message id has no receipt and the
   * log with the join is valid.
   */
  lemma {:induction false} JoinAnswersExactly(sessionId: SessionId, c: Canonical, participant: ParticipantId,
                                              displayName: string, messageId: MessageId)
    ensures var plan, now := PlanJoin(sessionId, c, participant, displayName, messageId), c.state.revision;
            var request := CommandRequest(messageId, participant, now, SessionScope(Join(displayName)));
            && (plan.Reply? <==> participant in c.state.participants)
            && (plan.Reply? <==> plan == Reply(Submission([], false)))
            && (plan.Commit? <==>
                  && participant !in c.state.participants && messageId !in c.receipts
                  && CanJoin(c.state, displayName)
                  && ContinuesValidly(sessionId, c.events, [JoinedEvent(c.state, participant, displayName, messageId)]))
            && (plan.Commit? ==>
                  && plan.command
                     == AcceptedCommand(request, [JoinedEvent(c.state, participant, displayName, messageId)])
                  && plan.candidate
                     == c.state.(participants := c.state.participants[participant :=
                                   Participant(participant, T.Trim(displayName))],
                                 revision := now + 1))
            && (plan.Refuse? ==>
                  && plan.rejection.currentRevision == now
                  && match plan.rejection.code
                     case RuntimeRejection(rejection) => Decide(c.state, request, None) == Err(rejection)
                     case CommandIdCollision => messageId in c.receipts
                     case JournalInvariantFailed(defect) =>
                       && CanJoin(c.state, displayName)
                       && !ContinuesValidly(sessionId, c.events,
                                            [JoinedEvent(c.state, participant, displayName, messageId)])
                     case _ => false)
  {
    if participant !in c.state.participants {
      var request := JoinRequest(c, participant, displayName, messageId);
      JoinIsDecided(c.state, request);
      if CanJoin(c.state, displayName) {
        var e := JoinedEvent(c.state, participant, displayName, messageId);
        ValidateDecides(CurrentLog(sessionId, 0, c.events + [e]));
      }
    }
    hide DraftDecision, Decide, JoinedEvent, Validate, ValidLog, CanJoin;
  }

  /** The defensive `apply_failed` answers are unreachable. */
  lemma {:induction false} NothingFailsToApply(sessionId: SessionId, engine: Engine, c: Canonical,
                                               request: CommandRequest, displayName: string)
    ensures var plan := PlanSubmit(sessionId, engine, c, request);
            plan.Refuse? ==> !plan.rejection.code.ApplyFailed?
    ensures var plan := PlanJoin(sessionId, c, request.actor, displayName, request.messageId);
            plan.Refuse? ==> !plan.rejection.code.ApplyFailed?
  {
    var join := JoinRequest(c, request.actor, displayName, request.messageId);
    NeverApplyFailed(c.state, join, None);
    NeverApplyFailed(c.state, request, Some(engine));
    var start := AutoStartRequest(c.state, request, engine);
    NeverApplyFailed(c.state, start, Some(engine));
    if DraftDecision(c.state, start, Some(engine)).Ok? {
      var candidate := DraftDecision(c.state, start, Some(engine)).value.candidate;
      NeverApplyFailed(candidate, request.(expectedRevision := candidate.revision), Some(engine));
    }
  }

  lemma NeverApplyFailed(state: SessionState, request: CommandRequest, engine: Option<Engine>)
    ensures match DraftDecision(state, request, engine)
            case Ok(_) => Decide(state, request, engine).Ok?
            case Err(code) => Decide(state, request, engine).Err? && !code.ApplyFailed?
  {
    if Decide(state, request, engine).Ok? {
      DecisionApplies(state, request, engine);
    }
  }

  // ---- Prospective validation ----------------------------------------------------------------

  /** Every event id is derived from its causation with ordinal zero, as `Decide` derives it. */
  ghost predicate HostMade(events: seq<SessionEvent>) {
    forall i | 0 <= i < |events| :: events[i].eventId == T.FromCausation(events[i].causationId, 0)
  }

  /** The message id already caused an event. */
  ghost predicate Caused(events: seq<SessionEvent>, m: MessageId) {
    exists i | 0 <= i < |events| :: events[i].causationId == m
  }

  /** For events made by this host, distinct ids and distinct causations are the same thing. */
  lemma HostMadeIdsAreCausations(a: SessionEvent, b: SessionEvent)
    requires a.eventId == T.FromCausation(a.causationId, 0) && b.eventId == T.FromCausation(b.causationId, 0)
    ensures a.eventId == b.eventId <==> a.causationId == b.causationId
  {
    if a.eventId == b.eventId {
      T.FromCausationInjective(a.causationId, 0, b.causationId, 0);
    }
  }

  lemma OneMoreEvent(base: nat, events: seq<SessionEvent>, e: SessionEvent)
    requires ValidEvents(base, events) && HostMade(events)
    requires e.eventId == T.FromCausation(e.causationId, 0) && e.sequence == base + |events| + 1
    ensures HostMade(events + [e])
    ensures ValidEvents(base, events + [e]) <==>
            !T.Blank(e.causationId) && !T.Blank(e.actor) && !Caused(events, e.causationId)
  {
    T.FromCausationNotBlank(e.causationId, 0);
    ValidEventsConcat(base, events, [e]);
    forall i | 0 <= i < |events|
      ensures events[i].eventId == e.eventId <==> events[i].causationId == e.causationId
    {
      HostMadeIdsAreCausations(events[i], e);
    }
    assert AllIdentified([e]) <==> HasIdentifiers([e][0]);
  }

  lemma AutoStartIdIsVisible(m: MessageId)
    ensures !T.Blank(AUTO_START + m) && !T.Blank(HOST_ID) && AUTO_START + m != m
  {
    assert (AUTO_START + m)[0] == 'a' && HOST_ID[0] == 'h';
    T.NotBlankWith(AUTO_START + m, 0);
    T.NotBlankWith(HOST_ID, 0);
    assert |AUTO_START + m| > |m|;
  }

  /**
   * Prospective validation is exact. Over a log this host made, a decidable and unreceipted submission
   * is refused as `journal_invariant_failed` exactly when its message id or actor is blank, or its
   * message id, or the id derived for its auto-start, has already caused an event.
   */
  lemma {:induction false} JournalInvariantFailsExactly(sessionId: SessionId, engine: Engine, c: Canonical,
                                                        request: CommandRequest)
    requires !T.Blank(sessionId) && ValidEvents(0, c.events) && HostMade(c.events)
    requires c.state.revision == |c.events|
    ensures var plan := PlanSubmit(sessionId, engine, c, request);
            (plan.Refuse? && plan.rejection.code.JournalInvariantFailed?) <==>
              && request.messageId !in c.receipts
              && request.expectedRevision == c.state.revision
              && DraftSubmission(c.state, request, engine).Ok?
              && (|| T.Blank(request.messageId)
                  || T.Blank(request.actor)
                  || Caused(c.events, request.messageId)
                  || (NeedsAutoStart(c.state, request) && Caused(c.events, AUTO_START + request.messageId)))
  {
    if request.messageId !in c.receipts && request.expectedRevision == c.state.revision {
      NothingFailsToApply(sessionId, engine, c, request, "");
      hide DraftSubmission, Validate;
      if DraftSubmission(c.state, request, engine).Ok? {
        ProspectiveEvents(c, request, engine);
        ValidateDecides(CurrentLog(sessionId, 0, c.events + DraftSubmission(c.state, request, engine).value.events));
      }
    }
  }

  /** When the log with the drafted events of a submission is valid. */
  lemma ProspectiveEvents(c: Canonical, request: CommandRequest, engine: Engine)
    requires ValidEvents(0, c.events) && HostMade(c.events) && c.state.revision == |c.events|
    requires DraftSubmission(c.state, request, engine).Ok?
    ensures ValidEvents(0, c.events + DraftSubmission(c.state, request, engine).value.events) <==>
              && !T.Blank(request.messageId) && !T.Blank(request.actor) && !Caused(c.events, request.messageId)
              && (NeedsAutoStart(c.state, request) ==> !Caused(c.events, AUTO_START + request.messageId))
  {
    hide ValidEvents, HostMade, Caused, DraftDecision, DraftAutoStart;
    var d := DraftSubmission(c.state, request, engine).value;
    if NeedsAutoStart(c.state, request) {
      AutoStartApplies(c.state, request, engine);
      AutoStartIdIsVisible(request.messageId);
      var start, fact := d.events[0], d.events[1];
      assert c.events + d.events == (c.events + [start]) + [fact];
      OneMoreEvent(0, c.events, start);
      if Caused(c.events, start.causationId) {
        ValidEventsConcat(0, c.events + [start], [fact]);
      } else {
        OneMoreEvent(0, c.events + [start], fact);
        CausedByOneMore(c.events, start, request.messageId);
      }
    } else {
      DraftApplies(c.state, request, Some(engine));
      assert d.events == [d.events[0]];
      OneMoreEvent(0, c.events, d.events[0]);
    }
  }

  /** The same for a join: refused exactly for a blank id or name of the participant, or a used message id. */
  lemma {:induction false} JoinInvariantFailsExactly(sessionId: SessionId, c: Canonical, participant: ParticipantId,
                                                     displayName: string, messageId: MessageId)
    requires !T.Blank(sessionId) && ValidEvents(0, c.events) && HostMade(c.events)
    requires c.state.revision == |c.events|
    ensures var plan := PlanJoin(sessionId, c, participant, displayName, messageId);
            (plan.Refuse? && plan.rejection.code.JournalInvariantFailed?) <==>
              && participant !in c.state.participants
              && messageId !in c.receipts
              && DraftDecision(c.state, JoinRequest(c, participant, displayName, messageId), None).Ok?
              && (T.Blank(messageId) || T.Blank(participant) || Caused(c.events, messageId))
  {
    var request := JoinRequest(c, participant, displayName, messageId);
    NeverApplyFailed(c.state, request, None);
    if DraftDecision(c.state, request, None).Ok? {
      var d := DraftDecision(c.state, request, None).value;
      hide DraftDecision, Validate;
      DraftApplies(c.state, request, None);
      assert d.events == [d.events[0]];
      OneMoreEvent(0, c.events, d.events[0]);
      ValidateDecides(CurrentLog(sessionId, 0, c.events + d.events));
    }
  }

  /**
   * An auto-start is all or nothing: when the start or the command in the started activity is rejected,
   * the submission is refused with that rejection and there is nothing to commit.
   */
  lemma {:induction false} AutoStartFailsWhole(sessionId: SessionId, engine: Engine, c: Canonical,
                                               request: CommandRequest)
    requires request.messageId !in c.receipts && request.expectedRevision == c.state.revision
    requires NeedsAutoStart(c.state, request)
    ensures var start := Decide(c.state, AutoStartRequest(c.state, request, engine), Some(engine));
            var plan := PlanSubmit(sessionId, engine, c, request);
            match start
            case Err(rejection) => plan == Refuse(HostRejection(RuntimeRejection(rejection), c.state.revision))
            case Ok(decision) =>
              && Replay(c.state, decision.events).Ok?
              && var started := Replay(c.state, decision.events).value;
                 match Decide(started, request.(expectedRevision := started.revision), Some(engine))
                 case Err(rejection) => plan == Refuse(HostRejection(RuntimeRejection(rejection), c.state.revision))
                 case Ok(_) => DraftSubmission(c.state, request, engine).Ok?
  {
    var start := AutoStartRequest(c.state, request, engine);
    hide Decide, Replay, Validate;
    NeverApplyFailed(c.state, start, Some(engine));
    if DraftDecision(c.state, start, Some(engine)).Ok? {
      var started := DraftDecision(c.state, start, Some(engine)).value.candidate;
      NeverApplyFailed(started, request.(expectedRevision := started.revision), Some(engine));
    }
  }

  lemma CausedByOneMore(events: seq<SessionEvent>, e: SessionEvent, m: MessageId)
    ensures Caused(events + [e], m) <==> Caused(events, m) || e.causationId == m
  {
    var longer := events + [e];
    assert longer[|events|] == e;
    assert forall i | 0 <= i < |events| :: longer[i] == events[i];
  }

  // ---- Memory and journal agree --------------------------------------------------------------

  /**
   * The journal on disk determines the session in memory: its lines read back as exactly the event list
   * and the receipt index, and replaying them from nothing gives exactly the state.
   */
  ghost predicate Consistent(codec: Codec, sessionId: SessionId, c: Canonical, journal: seq<byte>) {
    && Terminated(journal)
    && ReadLines(codec, journal) == Ok(Contents(c.events, c.receipts))
    && ValidLog(CurrentLog(sessionId, 0, c.events))
    && Replay(UninitializedSession(sessionId), c.events) == Ok(c.state)
    && c.events != []
  }

  /** Committing a receipt to journal and memory keeps them in agreement. */
  lemma {:induction false} CommitKeepsConsistent(codec: Codec, sessionId: SessionId, c: Canonical, journal: seq<byte>,
                              candidate: SessionState, command: AcceptedCommand)
    requires Lawful(codec)
    requires Consistent(codec, sessionId, c, journal)
    requires MayFollow(sessionId, c, candidate, command)
    ensures Consistent(codec, sessionId, Committed(c, candidate, command), journal + BatchLine(codec, [command]))
  {
    ReadAppended(codec, journal, [command]);
    var before := Contents(c.events, c.receipts);
    assert AbsorbCommands(before, [command]) == AbsorbCommand(before, command) by {
      assert [command][1..] == [];
    }
    ReplayConcat(UninitializedSession(sessionId), c.events, command.events);
  }

  // ---- Starting ------------------------------------------------------------------------------

  datatype StartError =
    | JournalFailed(error: JournalError)
    | JournalNotReplayable(cause: ReplayError)

  /** How a start ended, and the journal it left. */
  datatype Started = Started(outcome: Result<Canonical, StartError>, journal: seq<byte>)

  const BOOTSTRAP_REQUEST :=
    CommandRequest(BOOTSTRAP_ID, HOST_ID, 0, SessionScope(CreateSession(BOOTSTRAP_NAME)))

  const BOOTSTRAP_EVENT :=
    SessionEvent(T.FromCausation(BOOTSTRAP_ID, 0), 1, BOOTSTRAP_ID, HOST_ID,
                 SessionFact(SessionCreated(HOST_ID, BOOTSTRAP_NAME)))

  const BOOTSTRAP := AcceptedCommand(BOOTSTRAP_REQUEST, [BOOTSTRAP_EVENT])

  function BootstrapState(sessionId: SessionId): SessionState {
    SessionState(sessionId, Open, map[HOST_ID := Participant(HOST_ID, BOOTSTRAP_NAME)], Some(HOST_ID), None, 1)
  }

  function Bootstrapped(sessionId: SessionId): Canonical {
    Canonical(BootstrapState(sessionId), [BOOTSTRAP_EVENT], map[BOOTSTRAP_ID := BOOTSTRAP])
  }

  function SafePrefix(journal: seq<byte>): (safe: seq<byte>)
    ensures Terminated(safe)
  {
    journal[..SafeLength(journal)]
  }

  function Startup(codec: Codec, sessionId: SessionId, journal: seq<byte>, disk: Disk): Started {
    match Load(codec, journal)
    case Err(error) => Started(Err(JournalFailed(error)), journal)
    case Ok(loaded) =>
      if loaded.contents.events == [] then
        Started(if disk.Synced? then Ok(Bootstrapped(sessionId)) else Err(JournalFailed(WriteFailed)),
                SafePrefix(journal) + Written(BatchLine(codec, [BOOTSTRAP]), disk))
      else
        match ReplayLog(UninitializedSession(sessionId), CurrentLog(sessionId, 0, loaded.contents.events))
        case Err(cause) => Started(Err(JournalNotReplayable(cause)), journal)
        case Ok(state) =>
          Started(Ok(Canonical(state, loaded.contents.events, loaded.contents.receipts)), SafePrefix(journal))
  }

  /** The decision on the bootstrap request is the one bootstrap event, and it opens the session. */
  lemma {:induction false} BootstrapDecides(sessionId: SessionId)
    ensures Decide(UninitializedSession(sessionId), BOOTSTRAP_REQUEST, None).Ok?
    ensures Decide(UninitializedSession(sessionId), BOOTSTRAP_REQUEST, None).value.events == [BOOTSTRAP_EVENT]
    ensures Replay(UninitializedSession(sessionId), [BOOTSTRAP_EVENT]) == Ok(BootstrapState(sessionId))
  {
    assert T.TrimStart(BOOTSTRAP_NAME) == BOOTSTRAP_NAME;
    assert BOOTSTRAP_NAME[|BOOTSTRAP_NAME| - 1] == 't';
    assert T.TrimEnd(BOOTSTRAP_NAME) == BOOTSTRAP_NAME;
    ReplayOne(UninitializedSession(sessionId), BOOTSTRAP_EVENT);
  }

  lemma BootstrapIsValid(sessionId: SessionId)
    ensures ValidEvents(0, [BOOTSTRAP_EVENT]) && SoundReceipt(BOOTSTRAP)
    ensures ValidLog(CurrentLog(sessionId, 0, [BOOTSTRAP_EVENT])) <==> !T.Blank(sessionId)
  {
    T.FromCausationNotBlank(BOOTSTRAP_ID, 0);
    assert BOOTSTRAP_ID[0] == 'b' && HOST_ID[0] == 'h';
    T.NotBlankWith(BOOTSTRAP_ID, 0);
    T.NotBlankWith(HOST_ID, 0);
    assert BOOTSTRAP.events[0].causationId == BOOTSTRAP_ID;
  }

  /** What a journal is worth: the session its terminated lines determine, if they determine one. */
  ghost function Recovered(codec: Codec, sessionId: SessionId, journal: seq<byte>): Option<Canonical> {
    match ReadLines(codec, SafePrefix(journal))
    case Err(_) => None
    case Ok(contents) =>
      if contents.events == [] then None
      else
        match ReplayLog(UninitializedSession(sessionId), CurrentLog(sessionId, 0, contents.events))
        case Err(_) => None
        case Ok(state) => Some(Canonical(state, contents.events, contents.receipts))
  }

  lemma SafePrefixOfTerminated(journal: seq<byte>)
    requires Terminated(journal)
    ensures SafePrefix(journal) == journal
  {
  }

  /** A journal is worth `c` exactly when its terminated part and `c` are in agreement. */
  lemma RecoveredIsConsistent(codec: Codec, sessionId: SessionId, c: Canonical, journal: seq<byte>)
    ensures Recovered(codec, sessionId, journal) == Some(c) <==>
            Consistent(codec, sessionId, c, SafePrefix(journal))
  {
    match ReadLines(codec, SafePrefix(journal))
    case Err(_) =>
    case Ok(contents) =>
      ValidateDecides(CurrentLog(sessionId, 0, contents.events));
  }

  /** Restarting on the journal of a running host gives back exactly the session it had in memory. */
  lemma {:induction false} RestartRefinesMemory(codec: Codec, sessionId: SessionId, c: Canonical, journal: seq<byte>,
                                                disk: Disk)
    requires Consistent(codec, sessionId, c, journal)
    ensures Startup(codec, sessionId, journal, disk) == Started(Ok(c), journal)
  {
    SafePrefixOfTerminated(journal);
    RecoveredIsConsistent(codec, sessionId, c, journal);
  }

  /**
   * Crash atomicity: if the process stops after any number of bytes of the line, the next start yields
   * the session from before the receipt, or from after it when the whole line was written.
   */
  lemma {:induction false} CrashAtomicity(codec: Codec, sessionId: SessionId, c: Canonical, journal: seq<byte>,
                       candidate: SessionState, command: AcceptedCommand, crash: Disk, disk: Disk)
    requires Lawful(codec)
    requires Consistent(codec, sessionId, c, journal)
    requires MayFollow(sessionId, c, candidate, command)
    ensures var line := BatchLine(codec, [command]);
            var left := journal + Written(line, crash);
            Startup(codec, sessionId, left, disk) ==
            if Written(line, crash) == line
            then Started(Ok(Committed(c, candidate, command)), journal + line)
            else Started(Ok(c), journal)
  {
    TornAppend(codec, journal, [command], crash);
    var line := BatchLine(codec, [command]);
    var left := journal + Written(line, crash);
    if Written(line, crash) == line {
      CommitKeepsConsistent(codec, sessionId, c, journal, candidate, command);
      RestartRefinesMemory(codec, sessionId, Committed(c, candidate, command), journal + line, disk);
    } else {
      assert SafePrefix(left) == journal;
      RestartRefinesMemory(codec, sessionId, c, journal, disk);
      RecoveredIsConsistent(codec, sessionId, c, left);
    }
  }

  /** The bootstrap line after lines without events reads back as the bootstrap receipt alone. */
  lemma BootstrapReadsBack(codec: Codec, safe: seq<byte>)
    requires Lawful(codec) && Terminated(safe)
    requires ReadLines(codec, safe).Ok? && ReadLines(codec, safe).value.events == []
    ensures Terminated(safe + BatchLine(codec, [BOOTSTRAP]))
    ensures ReadLines(codec, safe + BatchLine(codec, [BOOTSTRAP]))
         == Ok(Contents([BOOTSTRAP_EVENT], map[BOOTSTRAP_ID := BOOTSTRAP]))
  {
    var contents := ReadLines(codec, safe).value;
    ReadLinesTells(codec, safe);
    NoReceiptWithoutEvents(contents.receipts, History(codec, safe));
    assert contents == NOTHING;
    ReadAppended(codec, safe, [BOOTSTRAP]);
    BootstrapIsValid("");
    assert [BOOTSTRAP][1..] == [] && [] + [BOOTSTRAP_EVENT] == [BOOTSTRAP_EVENT];
    var absorbed := AbsorbCommand(NOTHING, BOOTSTRAP);
    assert absorbed == Ok(Contents([BOOTSTRAP_EVENT], map[BOOTSTRAP_ID := BOOTSTRAP]));
    assert AbsorbCommands(absorbed.value, []) == absorbed;
    assert AbsorbCommands(NOTHING, [BOOTSTRAP]) == absorbed;
  }

  lemma BootstrapEstablishes(codec: Codec, sessionId: SessionId, safe: seq<byte>)
    requires Lawful(codec) && !T.Blank(sessionId) && Terminated(safe)
    requires ReadLines(codec, safe).Ok? && ReadLines(codec, safe).value.events == []
    ensures Consistent(codec, sessionId, Bootstrapped(sessionId), safe + BatchLine(codec, [BOOTSTRAP]))
  {
    BootstrapReadsBack(codec, safe);
    BootstrapDecides(sessionId);
    BootstrapIsValid(sessionId);
  }

  /** A successful start puts memory and journal in agreement, whatever the journal held. */
  lemma {:induction false} StartupEstablishes(codec: Codec, sessionId: SessionId, journal: seq<byte>, disk: Disk)
    requires Lawful(codec) && !T.Blank(sessionId)
    requires Startup(codec, sessionId, journal, disk).outcome.Ok?
    ensures var started := Startup(codec, sessionId, journal, disk);
            Consistent(codec, sessionId, started.outcome.value, started.journal)
  {
    var started := Startup(codec, sessionId, journal, disk);
    var safe := SafePrefix(journal);
    var contents := ReadLines(codec, safe).value;
    if contents.events == [] {
      BootstrapEstablishes(codec, sessionId, safe);
    } else {
      RecoveredIsConsistent(codec, sessionId, started.outcome.value, journal);
    }
  }

  /** A journal without events indexes no receipts. */
  lemma NoReceiptWithoutEvents(receipts: map<MessageId, AcceptedCommand>, history: seq<Entry>)
    requires Indexes(receipts, history) && EventsOf(history) == []
    ensures receipts == map[]
  {
    if m :| m in receipts {
      assert Receipt(receipts[m]) in history;
      var i :| 0 <= i < |history| && history[i] == Receipt(receipts[m]);
      ReceiptsAreContiguous(history, i);
    }
  }

  /** Recovery keeps every terminated line and cuts exactly after the last newline. */
  ghost predicate CutAtLastNewline(journal: seq<byte>, repaired: seq<byte>) {
    && repaired <= journal
    && Terminated(repaired)
    && NEWLINE !in journal[|repaired|..]
  }

  /** The events a journal's terminated lines spell out, in order. */
  ghost function EventsIn(codec: Codec, journal: seq<byte>): seq<SessionEvent> {
    EventsOf(History(codec, SafePrefix(journal)))
  }

  /** The events can be the canonical log of the session: valid, and replayable from nothing. */
  ghost predicate Replayable(sessionId: SessionId, events: seq<SessionEvent>) {
    ValidLog(CurrentLog(sessionId, 0, events)) && Replay(UninitializedSession(sessionId), events).Ok?
  }

  lemma LoadTells(codec: Codec, journal: seq<byte>)
    ensures ReadLines(codec, SafePrefix(journal)).Ok? <==> AllLoadable(codec, journal, 0)
    ensures ReadLines(codec, SafePrefix(journal)).Ok? ==>
              ReadLines(codec, SafePrefix(journal)).value.events == EventsIn(codec, journal)
    ensures ReadLines(codec, SafePrefix(journal)).Err? ==>
              FirstFault(codec, journal, 0, ReadLines(codec, SafePrefix(journal)).error)
  {
    LoadAcceptsExactly(codec, journal);
    hide AllLoadable, FirstFault, ReadLines;
    if ReadLines(codec, SafePrefix(journal)).Ok? {
      ReadLinesTells(codec, SafePrefix(journal));
    }
  }

  /**
   * Starting is fail-closed and idempotent. A start fails exactly when a terminated line cannot be loaded,
   * with the error of the first such line, or when the lines' events are not a valid replayable log; the
   * bytes are then untouched. Otherwise the journal is cut exactly after its last newline (and gets the
   * bootstrap line if it held no event), and starting again finds the same session, with nothing left to
   * repair.
   */
  lemma {:induction false} StartupIsFailClosed(codec: Codec, sessionId: SessionId, journal: seq<byte>, again: Disk)
    requires Lawful(codec) && !T.Blank(sessionId)
    ensures var started, events := Startup(codec, sessionId, journal, Synced), EventsIn(codec, journal);
            && (started.outcome.Ok? <==>
                 AllLoadable(codec, journal, 0) && (events != [] ==> Replayable(sessionId, events)))
            && (started.outcome.Ok? ==>
                 started.outcome.value.events == if events == [] then [BOOTSTRAP_EVENT] else events)
            && (started.outcome.Err? ==>
                 && started.journal == journal
                 && match started.outcome.error
                    case JournalFailed(error) => FirstFault(codec, journal, 0, error)
                    case JournalNotReplayable(_) => AllLoadable(codec, journal, 0) && !Replayable(sessionId, events))
            && (started.outcome.Ok? ==>
                 && (if events != []
                     then CutAtLastNewline(journal, started.journal)
                     else exists kept :: CutAtLastNewline(journal, kept)
                                         && started.journal == kept + BatchLine(codec, [BOOTSTRAP]))
                 && Startup(codec, sessionId, started.journal, again) == Started(started.outcome, started.journal))
  {
    var started := Startup(codec, sessionId, journal, Synced);
    LoadTells(codec, journal);
    hide AllLoadable, FirstFault, EventsIn, ReadLines, Validate, ValidLog, Replay;
    ValidateDecides(CurrentLog(sessionId, 0, EventsIn(codec, journal)));
    if started.outcome.Ok? {
      StartupEstablishes(codec, sessionId, journal, Synced);
      RestartRefinesMemory(codec, sessionId, started.outcome.value, started.journal, again);
      assert CutAtLastNewline(journal, SafePrefix(journal));
    }
  }

  /** One bad terminated line stops every start, whatever comes before or after it and whatever the disk does. */
  lemma {:induction false} BadLineStopsStart(codec: Codec, sessionId: SessionId, journal: seq<byte>, disk: Disk,
                                             a: nat, n: nat)
    requires LineAt(journal, a, n) && !Loadable(codec, journal[a..n], NamesBefore(codec, journal, a))
    ensures var started := Startup(codec, sessionId, journal, disk);
            && started.journal == journal
            && started.outcome.Err? && started.outcome.error.JournalFailed?
            && FirstFault(codec, journal, 0, started.outcome.error.error)
  {
    LoadTells(codec, journal);
    assert !AllLoadable(codec, journal, 0);
  }

  /** The bootstrap line is not validated before it is written: with a blank session id the next start fails. */
  lemma {:induction false} BlankSessionNeverRestarts(codec: Codec, sessionId: SessionId, disk: Disk)
    requires Lawful(codec)
    ensures var first := Startup(codec, sessionId, [], Synced);
            && first.outcome == Ok(Bootstrapped(sessionId))
            && (Startup(codec, sessionId, first.journal, disk).outcome.Ok? <==> !T.Blank(sessionId))
  {
    var line := BatchLine(codec, [BOOTSTRAP]);
    assert SafePrefix([]) == [] && [] + line == line;
    BootstrapReadsBack(codec, []);
    SafePrefixOfTerminated(line);
    BootstrapDecides(sessionId);
    BootstrapIsValid(sessionId);
    ValidateDecides(CurrentLog(sessionId, 0, [BOOTSTRAP_EVENT]));
  }

  // ---- The running host ----------------------------------------------------------------------

  class RunningHost {
    const sessionId: SessionId
    const engine: Engine
    const journal: JournalStore
    var state: SessionState
    var events: seq<SessionEvent>
    var acceptedCommands: map<MessageId, AcceptedCommand>
    var channel: Channel

    function Session(): Canonical
      reads this
    {
      Canonical(state, events, acceptedCommands)
    }

    constructor (sessionId: SessionId, engine: Engine, journal: JournalStore, c: Canonical)
      ensures this.sessionId == sessionId && this.engine == engine && this.journal == journal
      ensures Session() == c && channel == NewChannel(CHANNEL_CAPACITY)
    {
      this.sessionId, this.engine, this.journal := sessionId, engine, journal;
      state, events, acceptedCommands := c.state, c.events, c.receipts;
      channel := NewChannel(CHANNEL_CAPACITY);
    }

    /** What a plan leads to: the answer, the session, the journal and the channel after it. */
    twostate predicate Carried(plan: Plan, disk: Disk, new r: Result<Submission, HostRejection>)
      reads this, journal
    {
      match plan
      case Refuse(rejection) =>
        r == Err(rejection) && unchanged(this) && unchanged(journal)
      case Reply(submission) =>
        r == Ok(submission) && unchanged(this) && unchanged(journal)
      case Commit(candidate, command) =>
        && journal.bytes == old(journal.bytes) + Written(BatchLine(journal.codec, [command]), disk)
        && if disk.Synced? then
             && r == Ok(Submission(command.events, false))
             && Session() == Committed(old(Session()), candidate, command)
             && channel == Send(old(channel), command.events)
           else
             && r == Err(HostRejection(PersistenceFailed, old(state.revision)))
             && unchanged(this)
    }

    /** Loads the journal or bootstraps the session; nothing is cut before the prefix has replayed. */
    static method LoadOrCreate(journal: JournalStore, sessionId: SessionId, engine: Engine, disk: Disk)
      returns (r: Result<RunningHost, StartError>)
      modifies journal
      ensures var started := Startup(journal.codec, sessionId, old(journal.bytes), disk);
              && journal.bytes == started.journal
              && match started.outcome
                 case Err(error) => r == Err(error)
                 case Ok(c) =>
                   && r.Ok? && fresh(r.value)
                   && r.value.sessionId == sessionId && r.value.engine == engine && r.value.journal == journal
                   && r.value.Session() == c && r.value.channel == NewChannel(CHANNEL_CAPACITY)
    {
      hide ReadLines, Decide, Replay, ReplayLog, BatchLine, Written;
      var read := journal.LoadJournal();
      if read.Err? {
        return Err(JournalFailed(read.error));
      }
      var loaded := read.value;
      if loaded.contents.events == [] {
        if loaded.recovery.Some? {
          var repaired := journal.ApplyRecovery(loaded.recovery.value);
          assert repaired.Ok?;  // nothing else wrote to the journal since it was read
        }
        BootstrapDecides(sessionId);
        var live := new LiveSession.Clone(UninitializedSession(sessionId));
        var executed := Execute(live, BOOTSTRAP_REQUEST, None);
        assert executed.Ok?;  // an uninitialized session accepts the bootstrap request
        var accepted := AcceptedCommand(BOOTSTRAP_REQUEST, executed.value.events);
        var appended := journal.AppendAccepted([accepted], disk);
        if appended.Err? {
          return Err(JournalFailed(appended.error));
        }
        var c := Canonical(live.Current(), executed.value.events, map[accepted.request.messageId := accepted]);
        var host := new RunningHost(sessionId, engine, journal, c);
        return Ok(host);
      }
      var log := CurrentLog(sessionId, 0, loaded.contents.events);
      var replayed := ReplayLog(UninitializedSession(sessionId), log);
      if replayed.Err? {
        return Err(JournalNotReplayable(replayed.error));
      }
      if loaded.recovery.Some? {
        var repaired := journal.ApplyRecovery(loaded.recovery.value);
        assert repaired.Ok?;  // nothing else wrote to the journal since it was read
      }
      var c := Canonical(replayed.value, loaded.contents.events, loaded.contents.receipts);
      var host := new RunningHost(sessionId, engine, journal, c);
      return Ok(host);
    }

    /** A participant already present is welcomed again without a new event. */
    method JoinSession(participant: ParticipantId, displayName: string, messageId: MessageId, disk: Disk)
      returns (r: Result<Submission, HostRejection>)
      modifies this, journal
      ensures Carried(PlanJoin(sessionId, old(Session()), participant, displayName, messageId), disk, r)
    {
      if participant in state.participants {
        return Ok(Submission([], false));
      }
      var request := CommandRequest(messageId, participant, state.revision, SessionScope(Join(displayName)));
      r := Accept(request, None, disk);
    }

    method Submit(request: CommandRequest, disk: Disk) returns (r: Result<Submission, HostRejection>)
      modifies this, journal
      ensures Carried(PlanSubmit(sessionId, engine, old(Session()), request), disk, r)
    {
      if request.messageId in acceptedCommands {
        var accepted := acceptedCommands[request.messageId];
        if accepted.request == request {
          return Ok(Submission(accepted.events, true));
        }
        return Err(HostRejection(CommandIdCollision, state.revision));
      }
      if request.expectedRevision != state.revision {
        return Err(HostRejection(RuntimeRejection(RevisionConflict(state.revision, request.expectedRevision)),
                                 state.revision));
      }
      if request.command.ActivityScope? && state.activity == None {
        var start := CommandRequest(AUTO_START + request.messageId, HOST_ID, state.revision,
                                    SessionScope(StartActivity(engine.descriptor)));
        var candidate := new LiveSession.Clone(state);
        var startDecision := Decide(candidate.Current(), start, Some(engine));
        if startDecision.Err? {
          return Err(HostRejection(RuntimeRejection(startDecision.error), state.revision));
        }
        var applied := ApplyDecisionAtomically(candidate, startDecision.value);
        if applied.Err? {
          return Err(HostRejection(ApplyFailed(applied.error), state.revision));
        }
        var adjusted := request.(expectedRevision := candidate.revision);
        var decision := Decide(candidate.Current(), adjusted, Some(engine));
        if decision.Err? {
          return Err(HostRejection(RuntimeRejection(decision.error), state.revision));
        }
        applied := ApplyDecisionAtomically(candidate, decision.value);
        if applied.Err? {
          return Err(HostRejection(ApplyFailed(applied.error), state.revision));
        }
        r := CommitAccepted(candidate.Current(),
                            AcceptedCommand(request, startDecision.value.events + decision.value.events), disk);
        return;
      }
      r := Accept(request, Some(engine), disk);
    }

    method Accept(request: CommandRequest, activity: Option<Engine>, disk: Disk)
      returns (r: Result<Submission, HostRejection>)
      modifies this, journal
      ensures Carried(PlanDraft(sessionId, old(Session()), request, DraftDecision(old(state), request, activity)),
                      disk, r)
    {
      var decision := Decide(state, request, activity);
      if decision.Err? {
        return Err(HostRejection(RuntimeRejection(decision.error), state.revision));
      }
      var candidate := new LiveSession.Clone(state);
      var applied := ApplyDecisionAtomically(candidate, decision.value);
      if applied.Err? {
        return Err(HostRejection(ApplyFailed(applied.error), state.revision));
      }
      r := CommitAccepted(candidate.Current(), AcceptedCommand(request, decision.value.events), disk);
    }

    /** Validates the prospective journal, appends, and only after a synchronized append commits and sends. */
    method CommitAccepted(candidate: SessionState, accepted: AcceptedCommand, disk: Disk)
      returns (r: Result<Submission, HostRejection>)
      modifies this, journal
      ensures Carried(PlanCommit(sessionId, old(Session()), candidate, accepted), disk, r)
    {
      if accepted.request.messageId in acceptedCommands {
        return Err(HostRejection(CommandIdCollision, state.revision));
      }
      var validated := ValidateLog(CurrentLog(sessionId, 0, events + accepted.events));
      if validated.Err? {
        return Err(HostRejection(JournalInvariantFailed(validated.error), state.revision));
      }
      var appended := journal.AppendAccepted([accepted], disk);
      if appended.Err? {
        return Err(HostRejection(PersistenceFailed, state.revision));
      }
      state := candidate;
      events := events + accepted.events;
      acceptedCommands := acceptedCommands[accepted.request.messageId := accepted];
      channel := Send(channel, accepted.events);
      return Ok(Submission(accepted.events, false));
    }
  }
}
