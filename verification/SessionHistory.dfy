/**
 * What every replayable log says about its session, including logs that `Decide` never made.
 * Each part of the state is read off the log on its own, from the last event that concerns it,
 * and the replayed state is proved to be exactly these parts.
 */
module SessionHistory {
  import opened Base
  import opened Domain
  import opened Runtime

  function DropLast(log: seq<SessionEvent>): seq<SessionEvent>
    requires log != []
  {
    log[..|log| - 1]
  }

  function Last(log: seq<SessionEvent>): EventKind
    requires log != []
  {
    log[|log| - 1].kind
  }

  /** Everyone who created or joined, under their latest display name. */
  function MembersOf(log: seq<SessionEvent>): map<ParticipantId, Participant> {
    if log == [] then
      map[]
    else
      var before := MembersOf(DropLast(log));
      match Last(log)
      case SessionFact(SessionCreated(p, name)) => before[p := Participant(p, name)]
      case SessionFact(ParticipantJoined(p, name)) => before[p := Participant(p, name)]
      case _ => before
  }

  /** The last one to whom authority was given. */
  function HolderOf(log: seq<SessionEvent>): Option<ParticipantId> {
    if log == [] then
      None
    else
      match Last(log)
      case SessionFact(SessionCreated(p, _)) => Some(p)
      case SessionFact(AuthorityTransferred(_, p)) => Some(p)
      case _ => HolderOf(DropLast(log))
  }

  datatype Running = Running(descriptor: ActivityDescriptor, facts: nat, state: Value)

  /** The activity started last and not stopped: its latest state and how many facts it has. */
  function RunningOf(log: seq<SessionEvent>): Option<Running> {
    if log == [] then
      None
    else
      match Last(log)
      case SessionFact(ActivityStarted(descriptor, initial)) => Some(Running(descriptor, 0, initial))
      case SessionFact(ActivityStopped(_)) => None
      case ActivityFact(e) =>
        var before := RunningOf(DropLast(log));
        if before.None? then None
        else Some(before.value.(facts := before.value.facts + 1, state := e.resultingState))
      case _ => RunningOf(DropLast(log))
  }

  function LifecycleOf(log: seq<SessionEvent>): Lifecycle {
    if log == [] then Uninitialized else if RunningOf(log).Some? then Active else Open
  }

  ghost predicate IsCreation(e: SessionEvent) {
    e.kind.SessionFact? && e.kind.fact.SessionCreated?
  }

  ghost predicate SameActivity(active: Option<ActiveActivity>, running: Option<Running>) {
    match running
    case None => active.None?
    case Some(r) =>
      active.Some? && active.value.descriptor == r.descriptor
      && active.value.revision == r.facts && active.value.state == r.state
  }

  /** The whole state, part by part, as the log tells it. */
  ghost predicate ToldBy(s: SessionState, sessionId: SessionId, log: seq<SessionEvent>) {
    && s.sessionId == sessionId
    && s.revision == |log|
    && s.lifecycle == LifecycleOf(log)
    && s.participants == MembersOf(log)
    && s.authority == HolderOf(log)
    && SameActivity(s.activity, RunningOf(log))
  }

  /** What the parts of one log have to do with each other. */
  ghost predicate Coherent(log: seq<SessionEvent>) {
    && (forall i | 0 <= i < |log| :: IsCreation(log[i]) <==> i == 0)
    && (forall p | p in MembersOf(log) :: MembersOf(log)[p].id == p)
    && (log != [] ==> HolderOf(log).Some? && HolderOf(log).value in MembersOf(log))
  }

  /** A replayed state is exactly what its log tells, and the log is coherent. */
  lemma {:induction false} ReplayTellsTheLog(sessionId: SessionId, log: seq<SessionEvent>)
    requires Replay(UninitializedSession(sessionId), log).Ok?
    ensures ToldBy(Replay(UninitializedSession(sessionId), log).value, sessionId, log)
    ensures Coherent(log)
    decreases |log|
  {
    if log != [] {
      var start, before, last := UninitializedSession(sessionId), DropLast(log), log[|log| - 1];
      assert log[|log| - 1..] == [last];
      ReplayPrefix(start, log, |log| - 1);
      ReplayTellsTheLog(sessionId, before);
      var s := Replay(start, before).value;
      ReplayOne(s, last);
      assert Apply(s, last).Ok?;
      StepTellsTheLog(s, sessionId, before, last);
      assert before + [last] == log;
    }
  }

  lemma StepTellsTheLog(s: SessionState, sessionId: SessionId, log: seq<SessionEvent>, e: SessionEvent)
    requires ToldBy(s, sessionId, log) && Coherent(log) && Apply(s, e).Ok?
    ensures ToldBy(Apply(s, e).value, sessionId, log + [e])
    ensures Coherent(log + [e])
  {
    StepToldBy(s, sessionId, log, e);
    StepIsCoherent(s, sessionId, log, e);
  }

  lemma StepToldBy(s: SessionState, sessionId: SessionId, log: seq<SessionEvent>, e: SessionEvent)
    requires ToldBy(s, sessionId, log) && Apply(s, e).Ok?
    ensures ToldBy(Apply(s, e).value, sessionId, log + [e])
  {
    var longer := log + [e];
    assert DropLast(longer) == log && Last(longer) == e.kind;
  }

  lemma StepIsCoherent(s: SessionState, sessionId: SessionId, log: seq<SessionEvent>, e: SessionEvent)
    requires ToldBy(s, sessionId, log) && Coherent(log) && Apply(s, e).Ok?
    ensures Coherent(log + [e])
  {
    var longer := log + [e];
    hide RunningOf;
    assert DropLast(longer) == log && Last(longer) == e.kind;
    assert forall i | 0 <= i < |log| :: longer[i] == log[i];
  }

  /**
   * The session invariant of every replayable log: revision counts events, the first event and no
   * other creates the session, the authority is a participant, an activity is present exactly while
   * the session is active, participants are keyed by their ids, and no other lifecycle is reached.
   */
  lemma {:induction false} SessionInvariant(sessionId: SessionId, log: seq<SessionEvent>)
    requires Replay(UninitializedSession(sessionId), log).Ok?
    ensures var s := Replay(UninitializedSession(sessionId), log).value;
            && s.revision == |log|
            && (s.lifecycle.Uninitialized? <==> log == [])
            && (s.lifecycle.Active? <==> s.activity.Some?)
            && !s.lifecycle.Completed? && !s.lifecycle.Closed?
            && (s.authority.Some? <==> log != [])
            && (s.authority.Some? ==> s.authority.value in s.participants)
            && (forall p | p in s.participants :: s.participants[p].id == p)
    ensures forall i | 0 <= i < |log| :: IsCreation(log[i]) <==> i == 0
  {
    ReplayTellsTheLog(sessionId, log);
  }

  /** What the log so far permits to be recorded next, and by whom. */
  ghost predicate Permits(log: seq<SessionEvent>, e: SessionEvent) {
    && e.sequence == |log| + 1
    && match e.kind
       case SessionFact(SessionCreated(p, _)) => log == [] && e.actor == p
       case SessionFact(ParticipantJoined(p, _)) => log != [] && RunningOf(log).None? && p !in MembersOf(log)
       case SessionFact(ActivityStarted(_, _)) => HolderOf(log) == Some(e.actor) && RunningOf(log).None?
       case SessionFact(ActivityStopped(descriptor)) =>
         && HolderOf(log) == Some(e.actor)
         && RunningOf(log).Some? && RunningOf(log).value.descriptor == descriptor
       case SessionFact(AuthorityTransferred(from, to)) =>
         HolderOf(log) == Some(from) && e.actor == from && to in MembersOf(log) && to != from
       case ActivityFact(fact) =>
         && e.actor in MembersOf(log)
         && RunningOf(log).Some? && RunningOf(log).value.descriptor == fact.descriptor
         && fact.activitySequence == RunningOf(log).value.facts + 1
  }

  lemma StepIsPermitted(s: SessionState, sessionId: SessionId, log: seq<SessionEvent>, e: SessionEvent)
    requires ToldBy(s, sessionId, log) && Coherent(log)
    ensures Apply(s, e).Ok? <==> Permits(log, e)
  {
  }

  ghost predicate AllPermitted(log: seq<SessionEvent>) {
    forall i | 0 <= i < |log| :: Permits(log[..i], log[i])
  }

  lemma AllPermittedStep(log: seq<SessionEvent>, e: SessionEvent)
    ensures AllPermitted(log + [e]) <==> AllPermitted(log) && Permits(log, e)
  {
    hide Permits;
    var longer := log + [e];
    assert longer[..|log|] == log && longer[|log|] == e;
    assert forall i | 0 <= i < |log| :: longer[..i] == log[..i] && longer[i] == log[i];
  }

  /** A log replays exactly when each of its events is permitted by what the events before it tell. */
  lemma {:induction false} ReplaysExactly(sessionId: SessionId, log: seq<SessionEvent>)
    ensures Replay(UninitializedSession(sessionId), log).Ok? <==> AllPermitted(log)
    decreases |log|
  {
    if log != [] {
      hide Permits, Apply, ToldBy, Coherent, Replay, AllPermitted;
      var start, before, last := UninitializedSession(sessionId), DropLast(log), log[|log| - 1];
      assert before + [last] == log;
      ReplaysExactly(sessionId, before);
      AllPermittedStep(before, last);
      ReplayConcat(start, before, [last]);
      if Replay(start, before).Ok? {
        ReplayTellsTheLog(sessionId, before);
        ReplayOne(Replay(start, before).value, last);
        StepIsPermitted(Replay(start, before).value, sessionId, before, last);
      }
    }
  }

  /** Every sequence error is true: it carries the sequence the log calls for and the one the event has. */
  lemma {:induction false} ApplyErrorIsTrue(sessionId: SessionId, log: seq<SessionEvent>, e: SessionEvent)
    requires Replay(UninitializedSession(sessionId), log).Ok?
    requires Apply(Replay(UninitializedSession(sessionId), log).value, e).Err?
    ensures match Apply(Replay(UninitializedSession(sessionId), log).value, e).error
            case UnexpectedSequence(expected, actual) =>
              expected == |log| + 1 && actual == e.sequence && actual != expected
            case UnexpectedActivitySequence(expected, actual) =>
              && e.sequence == |log| + 1 && e.kind.ActivityFact? && RunningOf(log).Some?
              && expected == RunningOf(log).value.facts + 1
              && actual == e.kind.envelope.activitySequence && actual != expected
            case RevisionOverflow => |log| == U64_MAX
            case ActivityRevisionOverflow => RunningOf(log).Some? && RunningOf(log).value.facts == U64_MAX
            case InvalidEvent(_) => e.sequence == |log| + 1 && !Permits(log, e)
  {
    hide *;
    ReplayTellsTheLog(sessionId, log);
    var s := Replay(UninitializedSession(sessionId), log).value;
    StepIsPermitted(s, sessionId, log, e);
    StepErrorIsTrue(s, sessionId, log, e);
  }

  lemma StepErrorIsTrue(s: SessionState, sessionId: SessionId, log: seq<SessionEvent>, e: SessionEvent)
    requires ToldBy(s, sessionId, log) && Apply(s, e).Err?
    ensures match Apply(s, e).error
            case UnexpectedSequence(expected, actual) =>
              expected == |log| + 1 && actual == e.sequence && actual != expected
            case UnexpectedActivitySequence(expected, actual) =>
              && e.sequence == |log| + 1 && e.kind.ActivityFact? && RunningOf(log).Some?
              && expected == RunningOf(log).value.facts + 1
              && actual == e.kind.envelope.activitySequence && actual != expected
            case RevisionOverflow => |log| == U64_MAX
            case ActivityRevisionOverflow => RunningOf(log).Some? && RunningOf(log).value.facts == U64_MAX
            case InvalidEvent(_) => e.sequence == |log| + 1
  {
    hide Apply, RunningOf, MembersOf, HolderOf, LifecycleOf;
    ErrorOfState(s, e);
  }

  lemma ErrorOfState(s: SessionState, e: SessionEvent)
    requires Apply(s, e).Err?
    ensures match Apply(s, e).error
            case UnexpectedSequence(expected, actual) =>
              expected == s.revision + 1 && actual == e.sequence && actual != expected
            case UnexpectedActivitySequence(expected, actual) =>
              && e.sequence == s.revision + 1 && e.kind.ActivityFact? && s.activity.Some?
              && expected == s.activity.value.revision + 1
              && actual == e.kind.envelope.activitySequence && actual != expected
            case RevisionOverflow => s.revision == U64_MAX
            case ActivityRevisionOverflow => s.activity.Some? && s.activity.value.revision == U64_MAX
            case InvalidEvent(_) => e.sequence == s.revision + 1
  {
    hide ApplySessionFact;
    if e.kind.SessionFact? {
      SessionFactErrors(s, e.actor, e.kind.fact);
    }
  }

  lemma SessionFactErrors(s: SessionState, actor: ParticipantId, fact: SessionEventKind)
    ensures ApplySessionFact(s, actor, fact).Err? ==> ApplySessionFact(s, actor, fact).error.InvalidEvent?
  {
  }

  /** Whoever is a participant at some point of a replayable log stays one, unchanged. */
  lemma {:induction false} ParticipantsNeverLeave(s: SessionState, log: seq<SessionEvent>, p: ParticipantId)
    requires !s.lifecycle.Uninitialized? && p in s.participants && Replay(s, log).Ok?
    ensures var t := Replay(s, log).value; p in t.participants && t.participants[p] == s.participants[p]
    decreases |log|
  {
    if log != [] {
      ParticipantsNeverLeave(Apply(s, log[0]).value, log[1..], p);
    }
  }
}
