/**
 * The vote activity as a concrete engine: opening a vote, casting ballots, closing with a tally. Its
 * conservation law is carried through the host to every reachable state of the system.
 */
module Vote {
  import opened Base
  import opened Domain
  import opened Runtime
  import Txt = Text

  const DESCRIPTOR := ActivityDescriptor("demo.vote", "1.0.0")

  datatype VotePhase = Draft | Open | Closed

  datatype VoteState =
    VoteState(phase: VotePhase, moderator: Option<ParticipantId>, options: seq<string>,
              votes: map<ParticipantId, string>, result: Option<map<string, u32>>)

  datatype VoteCommand = OpenVote(options: seq<string>) | SubmitChoice(choice: string) | CloseVote

  datatype VoteEvent =
    | Opened(moderator: ParticipantId, options: seq<string>)
    | ChoiceSubmitted(participant: ParticipantId, choice: string)
    | VoteClosed(result: map<string, u32>)

  const DRAFT := VoteState(Draft, None, [], map[], None)

  // ---- The rules -----------------------------------------------------------------------------

  type Outcome = Result<(VoteState, VoteEvent), ActivityRejection>

  /** Trimmed options in order; blank or repeated ones are refused. */
  function Normalize(options: seq<string>, normalized: seq<string>): Result<seq<string>, ActivityRejection>
    decreases |options|
  {
    if options == [] then
      Ok(normalized)
    else
      var option := Txt.Trim(options[0]);
      if option == [] || option in normalized
      then Err(ActivityRejection("invalid_options"))
      else Normalize(options[1..], normalized + [option])
  }

  function Opening(actor: ParticipantId, s: VoteState, options: seq<string>): Outcome {
    if s.phase != Draft then
      Err(ActivityRejection("already_opened"))
    else
      var normalized :- Normalize(options, []);
      if |normalized| < 2
      then Err(ActivityRejection("invalid_options"))
      else Ok((s.(phase := VotePhase.Open, moderator := Some(actor), options := normalized), Opened(actor, normalized)))
  }

  function Casting(actor: ParticipantId, s: VoteState, choice: string): Outcome {
    if s.phase != VotePhase.Open then
      Err(ActivityRejection("vote_not_open"))
    else if choice !in s.options then
      Err(ActivityRejection("unknown_choice"))
    else if actor in s.votes then
      Err(ActivityRejection("already_voted"))
    else
      Ok((s.(votes := s.votes[actor := choice]), ChoiceSubmitted(actor, choice)))
  }

  function VotersOf(votes: map<ParticipantId, string>, option: string): set<ParticipantId> {
    set p | p in votes && votes[p] == option
  }

  /** A 32-bit counter that wraps around. */
  function Wrap(n: nat): u32 {
    n % (U32_MAX + 1)
  }

  lemma WrapOneMore(n: nat)
    ensures Wrap(Wrap(n) + 1) == Wrap(n + 1)
  {
  }

  /** What the counters hold after the ballots of `voters`. */
  function Counted(options: seq<string>, votes: map<ParticipantId, string>, voters: set<ParticipantId>)
    : map<string, u32>
  {
    map option | option in options :: Counter(votes, option, voters)
  }

  function Tally(options: seq<string>, votes: map<ParticipantId, string>): map<string, u32> {
    Counted(options, votes, votes.Keys)
  }

  function Closing(actor: ParticipantId, s: VoteState): Outcome {
    if s.phase != VotePhase.Open then
      Err(ActivityRejection("vote_not_open"))
    else if s.moderator != Some(actor) then
      Err(ActivityRejection("not_moderator"))
    else
      var result := Tally(s.options, s.votes);
      Ok((s.(phase := VotePhase.Closed, result := Some(result)), VoteClosed(result)))
  }

  function Rule(actor: ParticipantId, s: VoteState, command: VoteCommand): Outcome {
    match command
    case OpenVote(options) => Opening(actor, s, options)
    case SubmitChoice(choice) => Casting(actor, s, choice)
    case CloseVote => Closing(actor, s)
  }

  /** The vote state that a command updates in place. */
  class VoteBooth {
    var phase: VotePhase
    var moderator: Option<ParticipantId>
    var options: seq<string>
    var votes: map<ParticipantId, string>
    var result: Option<map<string, u32>>

    function Current(): VoteState
      reads this
    {
      VoteState(phase, moderator, options, votes, result)
    }

    constructor (s: VoteState)
      ensures Current() == s
    {
      phase, moderator, options, votes, result := s.phase, s.moderator, s.options, s.votes, s.result;
    }

    /** The rule was followed, or the booth is as it was. */
    twostate predicate Follows(rule: Outcome, new r: Result<VoteEvent, ActivityRejection>)
      reads this
    {
      match rule
      case Err(reason) => r == Err(reason) && Current() == old(Current())
      case Ok((next, event)) => r == Ok(event) && Current() == next
    }

    method Open(actor: ParticipantId, proposed: seq<string>) returns (r: Result<VoteEvent, ActivityRejection>)
      modifies this
      ensures Follows(Opening(actor, old(Current()), proposed), r)
    {
      if phase != VotePhase.Draft {
        return Err(ActivityRejection("already_opened"));
      }
      var normalized: seq<string> := [];
      for i := 0 to |proposed|
        invariant Normalize(proposed, []) == Normalize(proposed[i..], normalized)
        invariant unchanged(this)
      {
        assert proposed[i..][1..] == proposed[i + 1..];
        var option := Txt.Trim(proposed[i]);
        if option == [] || option in normalized {
          return Err(ActivityRejection("invalid_options"));
        }
        normalized := normalized + [option];
      }
      if |normalized| < 2 {
        return Err(ActivityRejection("invalid_options"));
      }
      phase := VotePhase.Open;
      moderator := Some(actor);
      options := normalized;
      return Ok(Opened(actor, normalized));
    }

    method Submit(actor: ParticipantId, choice: string) returns (r: Result<VoteEvent, ActivityRejection>)
      modifies this
      ensures Follows(Casting(actor, old(Current()), choice), r)
    {
      if phase != VotePhase.Open {
        return Err(ActivityRejection("vote_not_open"));
      }
      if choice !in options {
        return Err(ActivityRejection("unknown_choice"));
      }
      if actor in votes {
        return Err(ActivityRejection("already_voted"));
      }
      votes := votes[actor := choice];
      return Ok(ChoiceSubmitted(actor, choice));
    }

    /** Counts the ballots one by one, in any order of the voters. */
    static method CountBallots(options: seq<string>, votes: map<ParticipantId, string>)
      returns (counts: map<string, u32>)
      ensures counts == Tally(options, votes)
    {
      hide Counter, Wrap;
      counts := map option | option in options :: 0;
      NothingCounted(options, votes);
      var left := votes.Keys;
      ghost var counted: set<ParticipantId> := {};
      while left != {}
        invariant left == votes.Keys - counted && counted <= votes.Keys
        invariant counts == Counted(options, votes, counted)
        decreases |left|
      {
        var voter :| voter in left;
        CountedOneMore(options, votes, counted, voter);
        var choice := votes[voter];
        if choice in counts {
          counts := counts[choice := Wrap(counts[choice] as nat + 1)];
        }
        counted := counted + {voter};
        left := left - {voter};
      }
      assert counted == votes.Keys;
    }

    method Close(actor: ParticipantId) returns (r: Result<VoteEvent, ActivityRejection>)
      modifies this
      ensures Follows(Closing(actor, old(Current())), r)
    {
      if phase != VotePhase.Open {
        return Err(ActivityRejection("vote_not_open"));
      }
      if moderator != Some(actor) {
        return Err(ActivityRejection("not_moderator"));
      }
      var counts := CountBallots(options, votes);
      phase := VotePhase.Closed;
      result := Some(counts);
      return Ok(VoteClosed(counts));
    }
  }

  lemma NothingCounted(options: seq<string>, votes: map<ParticipantId, string>)
    ensures Counted(options, votes, {}) == map option | option in options :: 0
  {
    forall option | option in options
      ensures Counter(votes, option, {}) == 0
    {
      assert VotersOf(votes, option) * {} == {};
    }
  }

  lemma OneMoreVoter(votes: map<ParticipantId, string>, option: string, counted: set<ParticipantId>,
                     voter: ParticipantId)
    requires voter in votes && voter !in counted
    ensures |VotersOf(votes, option) * (counted + {voter})|
         == |VotersOf(votes, option) * counted| + if votes[voter] == option then 1 else 0
  {
    var mine := VotersOf(votes, option);
    if votes[voter] == option {
      assert mine * (counted + {voter}) == (mine * counted) + {voter};
    } else {
      assert mine * (counted + {voter}) == mine * counted;
    }
  }

  function Counter(votes: map<ParticipantId, string>, option: string, voters: set<ParticipantId>): u32 {
    Wrap(|VotersOf(votes, option) * voters|)
  }

  lemma CounterOneMore(votes: map<ParticipantId, string>, option: string, counted: set<ParticipantId>,
                       voter: ParticipantId)
    requires voter in votes && voter !in counted
    ensures Counter(votes, option, counted + {voter})
         == if votes[voter] == option then Wrap(Counter(votes, option, counted) as nat + 1)
            else Counter(votes, option, counted)
  {
    OneMoreVoter(votes, option, counted, voter);
    WrapOneMore(|VotersOf(votes, option) * counted|);
  }

  /** One more ballot raises its option's counter by one and no other. */
  lemma CountedOneMore(options: seq<string>, votes: map<ParticipantId, string>, counted: set<ParticipantId>,
                       voter: ParticipantId)
    requires voter in votes && voter !in counted
    ensures var before, after := Counted(options, votes, counted), Counted(options, votes, counted + {voter});
            after == if votes[voter] in before
                     then before[votes[voter] := Wrap(before[votes[voter]] as nat + 1)] else before
  {
    hide Counter, Wrap;
    forall option | option in options
      ensures Counter(votes, option, counted + {voter})
           == if votes[voter] == option then Wrap(Counter(votes, option, counted) as nat + 1)
              else Counter(votes, option, counted)
    {
      CounterOneMore(votes, option, counted, voter);
    }
  }

  // ---- Payloads ------------------------------------------------------------------------------

  function Texts(items: seq<string>): seq<Value> {
    seq(|items|, i requires 0 <= i < |items| => Value.Text(items[i]))
  }

  function FromTexts(items: seq<Value>): Option<seq<string>> {
    if forall i | 0 <= i < |items| :: items[i].Text?
    then Some(seq(|items|, i requires 0 <= i < |items| && items[i].Text? => items[i].text))
    else None
  }

  function FromTextMap(fields: map<string, Value>): Option<map<string, string>> {
    if forall k | k in fields :: fields[k].Text? then Some(map k | k in fields :: fields[k].text) else None
  }

  function FromCountMap(fields: map<string, Value>): Option<map<string, u32>> {
    if forall k | k in fields :: fields[k].Number? && 0 <= fields[k].n <= U32_MAX
    then Some(map k | k in fields :: fields[k].n as u32) else None
  }

  function PhaseName(phase: VotePhase): string {
    match phase case Draft => "draft" case Open => "open" case Closed => "closed"
  }

  function PhaseNamed(name: string): Option<VotePhase> {
    if name == "draft" then Some(Draft)
    else if name == "open" then Some(VotePhase.Open)
    else if name == "closed" then Some(VotePhase.Closed)
    else None
  }

  function Counts(result: map<string, u32>): Value {
    Object(map k | k in result :: Number(result[k]))
  }

  function Ballots(votes: map<ParticipantId, string>): Value {
    Object(map p | p in votes :: Value.Text(votes[p]))
  }

  function Encode(s: VoteState): Value {
    Object(map["phase" := Value.Text(PhaseName(s.phase)),
               "moderator" := if s.moderator.None? then Null else Value.Text(s.moderator.value),
               "options" := Array(Texts(s.options)),
               "votes" := Ballots(s.votes),
               "result" := if s.result.None? then Null else Counts(s.result.value)])
  }

  /** An optional field may be absent or null. */
  function OptionalField(fields: map<string, Value>, name: string): Value {
    if name in fields then fields[name] else Null
  }

  function Decode(value: Value): Option<VoteState> {
    if !value.Object? || !({"phase", "options", "votes"} <= value.fields.Keys) then None
    else
      var f := value.fields;
      var moderator, result := OptionalField(f, "moderator"), OptionalField(f, "result");
      if !f["phase"].Text? || !f["options"].Array? || !f["votes"].Object? then None
      else if !(moderator.Null? || moderator.Text?) || !(result.Null? || result.Object?) then None
      else
        var phase, options := PhaseNamed(f["phase"].text), FromTexts(f["options"].items);
        var votes := FromTextMap(f["votes"].fields);
        var counts := if result.Null? then Some(map[]) else FromCountMap(result.fields);
        if phase.None? || options.None? || votes.None? || counts.None? then None
        else Some(VoteState(phase.value, if moderator.Null? then None else Some(moderator.text), options.value,
                            votes.value, if result.Null? then None else Some(counts.value)))
  }

  /** Two documents agree on a field if it is in both and equal, or null in one and missing from the other. */
  ghost predicate AgreesOn(value: Value, encoded: Value, field: string)
    requires encoded.Object? && field in encoded.fields
  {
    && value.Object?
    && if field in value.fields then value.fields[field] == encoded.fields[field] else encoded.fields[field].Null?
  }

  lemma TextsRoundTrip(items: seq<string>, values: seq<Value>)
    ensures FromTexts(values) == Some(items) <==> values == Texts(items)
  {
    assert FromTexts(Texts(items)).value == items;
    if FromTexts(values) == Some(items) {
      assert values == Texts(items);
    }
  }

  lemma TextMapRoundTrip(texts: map<string, string>, fields: map<string, Value>)
    ensures FromTextMap(fields) == Some(texts) <==> Object(fields) == Ballots(texts)
  {
    var back := Ballots(texts).fields;
    assert FromTextMap(back).value == texts;
    if FromTextMap(fields) == Some(texts) {
      assert fields == back;
    }
  }

  lemma CountMapRoundTrip(counts: map<string, u32>, fields: map<string, Value>)
    ensures FromCountMap(fields) == Some(counts) <==> Object(fields) == Counts(counts)
  {
    var back := Counts(counts).fields;
    assert FromCountMap(back).value == counts;
    if FromCountMap(fields) == Some(counts) {
      assert fields == back;
    }
  }

  lemma PhaseIsNamed(phase: VotePhase)
    ensures forall name :: PhaseNamed(name) == Some(phase) <==> name == PhaseName(phase)
  {
  }

  /** A document is read as a vote state exactly when it agrees field by field with how that state is written. */
  lemma {:induction false} DecodesExactly(value: Value, s: VoteState)
    ensures Decode(value) == Some(s) <==>
            && AgreesOn(value, Encode(s), "phase") && AgreesOn(value, Encode(s), "moderator")
            && AgreesOn(value, Encode(s), "options") && AgreesOn(value, Encode(s), "votes")
            && AgreesOn(value, Encode(s), "result")
  {
    PhaseIsNamed(s.phase);
    hide PhaseName, PhaseNamed, FromTexts, FromTextMap, FromCountMap, Texts;
    if value.Object? && {"phase", "options", "votes"} <= value.fields.Keys {
      var f := value.fields;
      if f["options"].Array? { TextsRoundTrip(s.options, f["options"].items); }
      if f["votes"].Object? { TextMapRoundTrip(s.votes, f["votes"].fields); }
      if s.result.Some? && "result" in f && f["result"].Object? {
        CountMapRoundTrip(s.result.value, f["result"].fields);
      }
    }
  }

  /** A vote state survives being stored in the session and read back. */
  lemma {:induction false} DecodeEncode(s: VoteState)
    ensures Decode(Encode(s)) == Some(s)
  {
    DecodesExactly(Encode(s), s);
    hide Decode;
  }

  /** How a client writes a command. */
  function CommandPayload(command: VoteCommand): Value {
    match command
    case OpenVote(options) => Object(map["type" := Value.Text("open"), "options" := Array(Texts(options))])
    case SubmitChoice(choice) => Object(map["type" := Value.Text("submit_choice"), "choice" := Value.Text(choice)])
    case CloseVote => Object(map["type" := Value.Text("close")])
  }

  function DecodeCommand(value: Value): Option<VoteCommand> {
    if !value.Object? || "type" !in value.fields || !value.fields["type"].Text? then None
    else
      var f, kind := value.fields, value.fields["type"].text;
      if kind == "open" && "options" in f && f["options"].Array? then
        var options := FromTexts(f["options"].items);
        if options.None? then None else Some(OpenVote(options.value))
      else if kind == "submit_choice" && "choice" in f && f["choice"].Text? then
        Some(SubmitChoice(f["choice"].text))
      else if kind == "close" then
        Some(CloseVote)
      else
        None
  }

  /** A payload is read as a command exactly when it has every field that a client writes for it. */
  lemma {:induction false} CommandDecodesExactly(value: Value, command: VoteCommand)
    ensures DecodeCommand(value) == Some(command) <==>
            && value.Object?
            && forall field | field in CommandPayload(command).fields ::
                 field in value.fields && value.fields[field] == CommandPayload(command).fields[field]
  {
    hide FromTexts, Texts;
    if command.OpenVote? && value.Object? && "options" in value.fields && value.fields["options"].Array? {
      TextsRoundTrip(command.options, value.fields["options"].items);
    }
    assert "type" in CommandPayload(command).fields;
  }

  function EventType(event: VoteEvent): string {
    match event
    case Opened(_, _) => "opened"
    case ChoiceSubmitted(_, _) => "choice_submitted"
    case VoteClosed(_) => "closed"
  }

  function EncodeEvent(event: VoteEvent): Value {
    match event
    case Opened(moderator, options) =>
      Object(map["type" := Value.Text("opened"), "moderator" := Value.Text(moderator),
                 "options" := Array(Texts(options))])
    case ChoiceSubmitted(participant, choice) =>
      Object(map["type" := Value.Text("choice_submitted"), "participant" := Value.Text(participant),
                 "choice" := Value.Text(choice)])
    case VoteClosed(result) =>
      Object(map["type" := Value.Text("closed"), "result" := Counts(result)])
  }

  // ---- The engine ----------------------------------------------------------------------------

  function DecideVote(actor: ParticipantId, current: ActiveActivity, envelope: ActivityCommandEnvelope)
    : Result<ActivityTransition, ActivityRejection>
  {
    var command, s := DecodeCommand(envelope.payload), Decode(current.state);
    if command.None? then
      Err(ActivityRejection("invalid_payload"))
    else if s.None? then
      Err(ActivityRejection("invalid_state"))
    else
      var (next, event) :- Rule(actor, s.value, command.value);
      Ok(ActivityTransition(EventType(event), EncodeEvent(event), Encode(next)))
  }

  const ENGINE: Engine :=
    Engine(DESCRIPTOR, Encode(DRAFT),
           (actor: ParticipantId, current: ActiveActivity, envelope: ActivityCommandEnvelope) =>
             DecideVote(actor, current, envelope))

  /** The engine's `decide`: decode, run the rule on a booth, encode the state it leaves. */
  method DecideInBooth(actor: ParticipantId, current: ActiveActivity, envelope: ActivityCommandEnvelope)
    returns (r: Result<ActivityTransition, ActivityRejection>)
    ensures r == DecideVote(actor, current, envelope)
  {
    var command := DecodeCommand(envelope.payload);
    if command.None? {
      return Err(ActivityRejection("invalid_payload"));
    }
    var decoded := Decode(current.state);
    if decoded.None? {
      return Err(ActivityRejection("invalid_state"));
    }
    var booth := new VoteBooth(decoded.value);
    var event: Result<VoteEvent, ActivityRejection>;
    match command.value {
      case OpenVote(options) =>
        event := booth.Open(actor, options);
      case SubmitChoice(choice) =>
        event := booth.Submit(actor, choice);
      case CloseVote =>
        event := booth.Close(actor);
    }
    if event.Err? {
      return Err(event.error);
    }
    return Ok(ActivityTransition(EventType(event.value), EncodeEvent(event.value), Encode(booth.Current())));
  }

  /**
   * An accepted command is recorded as what it changed: the event names itself in its payload, and the other
   * fields of the payload are those of the resulting state, or the actor and the ballot that was added.
   */
  lemma {:induction false} TransitionTellsChange(actor: ParticipantId, current: ActiveActivity,
                                                 envelope: ActivityCommandEnvelope)
    requires DecideVote(actor, current, envelope).Ok?
    ensures var t := DecideVote(actor, current, envelope).value;
            && Decode(current.state).Some? && DecodeCommand(envelope.payload).Some? && Decode(t.resultingState).Some?
            && var before, after := Decode(current.state).value, Decode(t.resultingState).value;
            && t.payload.Object? && t.resultingState.Object?
            && t.resultingState == Encode(after)
            && match DecodeCommand(envelope.payload).value
               case OpenVote(_) =>
                 && t.eventType == "opened" && after.moderator == Some(actor)
                 && t.payload.fields == map["type" := Value.Text("opened"), "moderator" := Value.Text(actor),
                                            "options" := Array(Texts(after.options))]
               case SubmitChoice(choice) =>
                 && t.eventType == "choice_submitted" && after.votes == before.votes[actor := choice]
                 && t.payload.fields == map["type" := Value.Text("choice_submitted"),
                                            "participant" := Value.Text(actor), "choice" := Value.Text(choice)]
               case CloseVote =>
                 && t.eventType == "closed" && after.result.Some?
                 && t.payload.fields == map["type" := Value.Text("closed"), "result" := Counts(after.result.value)]
  {
    var v, command := Decode(current.state).value, DecodeCommand(envelope.payload).value;
    DecodeEncode(Rule(actor, v, command).value.0);
    hide Decode, Encode, DecodeCommand, Normalize, Tally, Texts, Counts;
  }

  /** Every refusal is true: its code says which condition does not hold. */
  lemma {:induction false} RefusalIsTrue(actor: ParticipantId, current: ActiveActivity,
                                         envelope: ActivityCommandEnvelope)
    requires DecideVote(actor, current, envelope).Err?
    ensures var code, v, command := DecideVote(actor, current, envelope).error.code, Decode(current.state),
                                    DecodeCommand(envelope.payload);
            if command.None? then code == "invalid_payload"
            else if v.None? then code == "invalid_state"
            else
              match command.value
              case OpenVote(options) =>
                if v.value.phase != Draft then code == "already_opened"
                else code == "invalid_options" && !(|options| >= 2 && Proper(Trimmed(options)))
              case SubmitChoice(choice) =>
                if v.value.phase != VotePhase.Open then code == "vote_not_open"
                else if choice !in v.value.options then code == "unknown_choice"
                else code == "already_voted" && actor in v.value.votes
              case CloseVote =>
                if v.value.phase != VotePhase.Open then code == "vote_not_open"
                else code == "not_moderator" && v.value.moderator != Some(actor)
  {
    var v, command := Decode(current.state), DecodeCommand(envelope.payload);
    if v.Some? && command.Some? {
      RuleAcceptsExactly(actor, v.value, command.value);
    }
    hide Decode, DecodeCommand, Proper, Trimmed, Tally;
    if v.Some? && command.Some? && command.value.OpenVote? {
      NormalizeRefuses(command.value.options, []);
    }
  }

  lemma {:induction false} NormalizeRefuses(options: seq<string>, normalized: seq<string>)
    ensures Normalize(options, normalized).Err? ==> Normalize(options, normalized).error.code == "invalid_options"
    decreases |options|
  {
    if options != [] {
      NormalizeRefuses(options[1..], normalized + [Txt.Trim(options[0])]);
    }
  }

  // ---- Conservation --------------------------------------------------------------------------

  /** Options are distinct and none is empty. */
  ghost predicate Proper(options: seq<string>) {
    && (forall i, j | 0 <= i < j < |options| :: options[i] != options[j])
    && "" !in options
  }

  /** Every ballot is a participant's, for a listed option. */
  ghost predicate BallotsListed(v: VoteState, members: set<ParticipantId>) {
    forall p | p in v.votes :: p in members && v.votes[p] in v.options
  }

  function Sum(options: seq<string>, counts: map<string, u32>): nat
    requires forall option | option in options :: option in counts
  {
    if options == [] then 0 else counts[options[0]] + Sum(options[1..], counts)
  }

  /** The tally has exactly the options as keys; while ballots fit in 32 bits it counts and sums them exactly. */
  ghost predicate TallyExact(v: VoteState, counts: map<string, u32>) {
    && counts.Keys == (set option | option in v.options)
    && (|v.votes| <= U32_MAX ==>
          && (forall option | option in v.options :: counts[option] == |VotersOf(v.votes, option)|)
          && Sum(v.options, counts) == |v.votes|)
  }

  /** A vote in a session with these members, after this many activity events. */
  ghost predicate SoundVote(v: VoteState, members: set<ParticipantId>, revision: nat) {
    && Proper(v.options)
    && BallotsListed(v, members)
    && match v.phase
       case Draft => v == DRAFT && revision == 0
       case Open =>
         && v.moderator.Some? && v.moderator.value in members && |v.options| >= 2
         && v.result.None? && revision == 1 + |v.votes|
       case Closed =>
         && v.moderator.Some? && v.moderator.value in members && |v.options| >= 2
         && v.result.Some? && TallyExact(v, v.result.value) && revision == 2 + |v.votes|
  }

  /** The session runs no activity, or a sound vote. */
  ghost predicate RunsSoundVote(s: SessionState) {
    s.activity.Some? ==>
      && s.activity.value.descriptor == DESCRIPTOR
      && Decode(s.activity.value.state).Some?
      && SoundVote(Decode(s.activity.value.state).value, s.participants.Keys, s.activity.value.revision)
  }

  function Trimmed(options: seq<string>): seq<string> {
    seq(|options|, i requires 0 <= i < |options| => Txt.Trim(options[i]))
  }

  /** Options are accepted exactly when, trimmed, they are distinct and none is empty; they are kept trimmed. */
  lemma {:induction false} NormalizeMeaning(options: seq<string>, normalized: seq<string>)
    requires Proper(normalized)
    ensures Normalize(options, normalized).Ok? <==> Proper(normalized + Trimmed(options))
    ensures Normalize(options, normalized).Ok? ==>
              Normalize(options, normalized).value == normalized + Trimmed(options)
    decreases |options|
  {
    if options == [] {
      assert normalized + Trimmed(options) == normalized;
    } else {
      var option := Txt.Trim(options[0]);
      var all := normalized + Trimmed(options);
      assert all == normalized + [option] + Trimmed(options[1..]);
      assert all[|normalized|] == option;
      if option == [] || option in normalized {
        if k :| 0 <= k < |normalized| && normalized[k] == option {
          assert all[k] == all[|normalized|];
        }
      } else {
        NormalizeMeaning(options[1..], normalized + [option]);
      }
    }
  }

  lemma NormalizeAll(options: seq<string>)
    ensures Normalize(options, []).Ok? <==> Proper(Trimmed(options))
    ensures Normalize(options, []).Ok? ==> Normalize(options, []).value == Trimmed(options)
    ensures |Trimmed(options)| == |options|
  {
    NormalizeMeaning(options, []);
    assert [] + Trimmed(options) == Trimmed(options);
  }

  /** The result lists exactly the options, each with the number of its voters in a 32-bit counter. */
  ghost predicate IsTally(v: VoteState, result: Option<map<string, u32>>) {
    && result.Some?
    && result.value.Keys == (set option | option in v.options)
    && forall option | option in v.options ::
         result.value[option] == |set p | p in v.votes && v.votes[p] == option| % 0x1_0000_0000
  }

  lemma TallyCounts(v: VoteState)
    ensures IsTally(v, Some(Tally(v.options, v.votes)))
  {
    forall option | option in v.options
      ensures Tally(v.options, v.votes)[option] == |set p | p in v.votes && v.votes[p] == option| % 0x1_0000_0000
    {
      assert VotersOf(v.votes, option) * v.votes.Keys == set p | p in v.votes && v.votes[p] == option;
    }
  }

  /** Which commands a vote accepts, and what an accepted one changes. */
  lemma {:induction false} RuleAcceptsExactly(actor: ParticipantId, v: VoteState, command: VoteCommand)
    ensures Rule(actor, v, command).Ok? <==>
            match command
            case OpenVote(options) => v.phase == Draft && |options| >= 2 && Proper(Trimmed(options))
            case SubmitChoice(choice) => v.phase == VotePhase.Open && choice in v.options && actor !in v.votes
            case CloseVote => v.phase == VotePhase.Open && v.moderator == Some(actor)
    ensures Rule(actor, v, command).Ok? ==>
            var next := Rule(actor, v, command).value.0;
            match command
            case OpenVote(options) =>
              next.phase == VotePhase.Open && next.moderator == Some(actor) && next.options == Trimmed(options)
              && next.votes == v.votes && next.result == v.result
            case SubmitChoice(choice) =>
              next.votes.Keys == v.votes.Keys + {actor} && next.votes[actor] == choice
              && (forall p | p in v.votes :: next.votes[p] == v.votes[p]) && next.phase == VotePhase.Open
              && next.options == v.options && next.moderator == v.moderator && next.result == v.result
            case CloseVote =>
              next.phase == VotePhase.Closed && next.votes == v.votes && next.options == v.options
              && next.moderator == v.moderator && IsTally(v, next.result)
  {
    hide Normalize, Tally, Proper, IsTally, Trimmed;
    match command {
      case OpenVote(options) =>
        NormalizeAll(options);
      case SubmitChoice(_) =>
      case CloseVote =>
        TallyCounts(v);
    }
  }

  /** Ballots for listed options, counted option by option, are all the ballots. */
  lemma {:induction false} BallotsAddUp(options: seq<string>, votes: map<ParticipantId, string>,
                                        counts: map<string, u32>)
    requires Proper(options)
    requires forall option | option in options :: option in counts && counts[option] == |VotersOf(votes, option)|
    ensures Sum(options, counts) == |set p | p in votes && votes[p] in options|
    decreases |options|
  {
    var all := set p | p in votes && votes[p] in options;
    if options == [] {
      assert all == {};
    } else {
      BallotsAddUp(options[1..], votes, counts);
      var first, others := VotersOf(votes, options[0]), set p | p in votes && votes[p] in options[1..];
      assert all == first + others;
      assert first !! others by {
        assert options[0] !in options[1..];
      }
    }
  }

  lemma FullCounter(votes: map<ParticipantId, string>, option: string)
    requires |votes| <= U32_MAX
    ensures Counter(votes, option, votes.Keys) == |VotersOf(votes, option)|
  {
    var mine := VotersOf(votes, option);
    assert mine * votes.Keys == mine;
    SubsetIsSmaller(mine, votes.Keys);
    assert |votes.Keys| == |votes|;
  }

  lemma {:induction false} TallyIsExact(v: VoteState, members: set<ParticipantId>)
    requires Proper(v.options) && BallotsListed(v, members)
    ensures TallyExact(v, Tally(v.options, v.votes))
  {
    hide Counter, Wrap, VotersOf;
    var counts := Tally(v.options, v.votes);
    if |v.votes| <= U32_MAX {
      forall option | option in v.options
        ensures counts[option] == |VotersOf(v.votes, option)|
      {
        FullCounter(v.votes, option);
      }
      BallotsAddUp(v.options, v.votes, counts);
      assert (set p | p in v.votes && v.votes[p] in v.options) == v.votes.Keys;
    }
  }

  lemma {:induction false} SubsetIsSmaller<X>(a: set<X>, b: set<X>)
    requires a <= b
    ensures |a| <= |b|
    decreases |a|
  {
    if a != {} {
      var x :| x in a;
      SubsetIsSmaller(a - {x}, b - {x});
    }
  }

  /** Every accepted vote command, from a participant, leaves a sound vote one activity event further. */
  lemma {:induction false} RuleKeepsSound(actor: ParticipantId, v: VoteState, command: VoteCommand,
                                          members: set<ParticipantId>, revision: nat)
    requires SoundVote(v, members, revision) && actor in members && Rule(actor, v, command).Ok?
    ensures SoundVote(Rule(actor, v, command).value.0, members, revision + 1)
  {
    match command {
      case OpenVote(options) =>
        NormalizeMeaning(options, []);
        assert [] + Trimmed(options) == Trimmed(options);
      case SubmitChoice(choice) =>
        var cast := v.votes[actor := choice];
        assert cast.Keys == v.votes.Keys + {actor};
        assert |cast| == |cast.Keys| && |v.votes| == |v.votes.Keys|;
      case CloseVote =>
        TallyIsExact(v, members);
    }
  }

  /** A larger session does not hurt a vote. */
  lemma MoreMembersKeepSound(v: VoteState, members: set<ParticipantId>, more: set<ParticipantId>, revision: nat)
    requires SoundVote(v, members, revision) && members <= more
    ensures SoundVote(v, more, revision)
  {
  }

  lemma SessionFactKeepsVote(s: SessionState, request: CommandRequest, command: SessionCommand, engine: Option<Engine>)
    requires RunsSoundVote(s) && (engine.Some? ==> engine.value == ENGINE)
    requires DecideSession(s, request, command, engine).Ok?
    ensures var fact := DecideSession(s, request, command, engine).value.fact;
            && ApplySessionFact(s, request.actor, fact).Ok?
            && RunsSoundVote(ApplySessionFact(s, request.actor, fact).value)
  {
    hide SoundVote, Decode, Encode;
    var t := ApplySessionFact(s, request.actor, DecideSession(s, request, command, engine).value.fact).value;
    if command.StartActivity? {
      DecodeEncode(DRAFT);
      DraftIsSound(t.participants.Keys);
    } else if t.activity.Some? {
      MoreMembersKeepSound(Decode(s.activity.value.state).value, s.participants.Keys, t.participants.Keys,
                           s.activity.value.revision);
    }
  }

  lemma ActivityFactKeepsVote(s: SessionState, request: CommandRequest, command: ActivityCommandEnvelope,
                              engine: Option<Engine>)
    requires RunsSoundVote(s) && (engine.Some? ==> engine.value == ENGINE)
    requires DecideActivity(s, request, command, engine).Ok?
    ensures var fact := DecideActivity(s, request, command, engine).value.envelope;
            && ApplyActivityFact(s, request.actor, fact).Ok?
            && RunsSoundVote(ApplyActivityFact(s, request.actor, fact).value)
  {
    hide SoundVote, Decode, Encode, Rule, DecodeCommand;
    var current := s.activity.value;
    assert DecideVote(request.actor, current, command).Ok?;
    var v, c := Decode(current.state).value, DecodeCommand(command.payload).value;
    RuleKeepsSound(request.actor, v, c, s.participants.Keys, current.revision);
    DecodeEncode(Rule(request.actor, v, c).value.0);
  }

  /** Whatever the session decides, with the vote engine or with none, keeps its vote sound. */
  lemma {:induction false} DecisionKeepsVote(s: SessionState, request: CommandRequest, engine: Option<Engine>)
    requires RunsSoundVote(s) && (engine.Some? ==> engine.value == ENGINE)
    requires Decide(s, request, engine).Ok?
    ensures var e := Decide(s, request, engine).value.events[0];
            Apply(s, e).Ok? && RunsSoundVote(Apply(s, e).value)
  {
    hide SoundVote, Decode, DecideSession, DecideActivity, ApplySessionFact, ApplyActivityFact, Replay;
    match request.command {
      case SessionScope(command) =>
        SessionFactKeepsVote(s, request, command, engine);
        KindOfSession(s, request, command, engine);
      case ActivityScope(command) =>
        ActivityFactKeepsVote(s, request, command, engine);
        KindOfActivity(s, request, command, engine);
    }
  }

  lemma KindOfSession(s: SessionState, request: CommandRequest, command: SessionCommand, engine: Option<Engine>)
    requires DecideSession(s, request, command, engine).Ok?
    ensures DecideSession(s, request, command, engine).value.SessionFact?
  {
  }

  lemma KindOfActivity(s: SessionState, request: CommandRequest, command: ActivityCommandEnvelope,
                       engine: Option<Engine>)
    requires DecideActivity(s, request, command, engine).Ok?
    ensures DecideActivity(s, request, command, engine).value.ActivityFact?
  {
  }

  lemma DraftIsSound(members: set<ParticipantId>)
    ensures SoundVote(DRAFT, members, 0)
  {
  }
}

/** The vote's conservation law in every reachable state of the whole system. */
module VoteSafety {
  import opened Base
  import opened Domain
  import opened Protocol
  import opened Runtime
  import opened Journal
  import opened Host
  import opened World
  import Vote

  lemma DraftKeepsVote(s: SessionState, request: CommandRequest, engine: Option<Engine>)
    requires Vote.RunsSoundVote(s) && (engine.Some? ==> engine.value == Vote.ENGINE)
    requires DraftDecision(s, request, engine).Ok?
    ensures Vote.RunsSoundVote(DraftDecision(s, request, engine).value.candidate)
  {
    hide Vote.RunsSoundVote, Apply, Decide;
    DraftApplies(s, request, engine);
    Vote.DecisionKeepsVote(s, request, engine);
    DecisionApplies(s, request, engine);
  }

  lemma SubmissionKeepsVote(s: SessionState, request: CommandRequest)
    requires Vote.RunsSoundVote(s) && DraftSubmission(s, request, Vote.ENGINE).Ok?
    ensures Vote.RunsSoundVote(DraftSubmission(s, request, Vote.ENGINE).value.candidate)
  {
    hide Vote.RunsSoundVote, DraftDecision;
    if NeedsAutoStart(s, request) {
      var start := AutoStartRequest(s, request, Vote.ENGINE);
      DraftKeepsVote(s, start, Some(Vote.ENGINE));
      var started := DraftDecision(s, start, Some(Vote.ENGINE)).value.candidate;
      DraftKeepsVote(started, request.(expectedRevision := started.revision), Some(Vote.ENGINE));
    } else {
      DraftKeepsVote(s, request, Some(Vote.ENGINE));
    }
  }

  lemma PlannedKeepsVote(setting: Setting, c: Canonical, plan: Plan)
    requires setting.engine == Vote.ENGINE && Vote.RunsSoundVote(c.state) && Planned(setting, c, plan)
    ensures Vote.RunsSoundVote(plan.candidate)
  {
    hide Vote.RunsSoundVote, PlanSubmit, PlanJoin, DraftSubmission, DraftDecision, MayFollow;
    if request :| plan == PlanSubmit(setting.sessionId, setting.engine, c, request) {
      SubmitCommits(setting.sessionId, setting.engine, c, request);
      SubmissionKeepsVote(c.state, request);
    } else {
      var participant, displayName, messageId :|
        plan == PlanJoin(setting.sessionId, c, participant, displayName, messageId);
      JoinKeepsVote(setting.sessionId, c, participant, displayName, messageId);
    }
  }

  lemma JoinKeepsVote(sessionId: SessionId, c: Canonical, participant: ParticipantId, displayName: string,
                      messageId: MessageId)
    requires Vote.RunsSoundVote(c.state)
    requires PlanJoin(sessionId, c, participant, displayName, messageId).Commit?
    ensures Vote.RunsSoundVote(PlanJoin(sessionId, c, participant, displayName, messageId).candidate)
  {
    hide Vote.RunsSoundVote, DraftDecision, Validate;
    DraftKeepsVote(c.state, JoinRequest(c, participant, displayName, messageId), None);
  }

  ghost predicate RecoversSoundVote(setting: Setting, journal: seq<byte>) {
    var recovered := Recovered(setting.codec, setting.sessionId, journal);
    recovered.Some? ==> Vote.RunsSoundVote(recovered.value.state)
  }

  /**
   * Vote conservation: along every run of the system with the vote engine, from an empty journal or any
   * other sound one, the session a host holds, and the one its journal is worth, runs no activity or a
   * vote whose ballots are participants' and for listed distinct options, whose activity revision counts
   * its ballots, and whose tally, once closed, has the options as keys and adds up to the ballots.
   */
  lemma {:induction false} VoteIsConserved(setting: Setting, w: World, steps: seq<Step>)
    requires Proper(setting) && setting.engine == Vote.ENGINE
    requires Inv(setting, w) && RecoversSoundVote(setting, w.journal)
    ensures var end := Run(setting, w, steps);
            && RecoversSoundVote(setting, end.journal)
            && (end.process.Up? ==> Vote.RunsSoundVote(end.process.session.state))
    decreases |steps|
  {
    hide Inv, Vote.RunsSoundVote, Recovered, Next;
    if steps == [] {
      if w.process.Up? {
        UpIsRecovered(setting, w);
      }
    } else {
      var next := Next(setting, w, steps[0]);
      NextKeepsInv(setting, w, steps[0]);
      GrowthKeepsVote(setting, Recovered(setting.codec, setting.sessionId, w.journal),
                      Recovered(setting.codec, setting.sessionId, next.journal));
      VoteIsConserved(setting, next, steps[1..]);
    }
  }

  /** The same from the very beginning: no journal, no host, clients that know nothing. */
  lemma {:induction false} VoteIsConservedFromTheStart(setting: Setting, w: World, steps: seq<Step>)
    requires Proper(setting) && setting.engine == Vote.ENGINE
    requires Initial(setting, w) && w.journal == []
    ensures var end := Run(setting, w, steps);
            end.process.Up? ==> Vote.RunsSoundVote(end.process.session.state)
  {
    EmptyIsUnrecoverable(setting);
    InitialIsInv(setting, w);
    VoteIsConserved(setting, w, steps);
  }

  lemma GrowthKeepsVote(setting: Setting, before: Option<Canonical>, after: Option<Canonical>)
    requires setting.engine == Vote.ENGINE && Grows(setting, before, after)
    requires before.Some? ==> Vote.RunsSoundVote(before.value.state)
    ensures after.Some? ==> Vote.RunsSoundVote(after.value.state)
  {
    if before.Some? && after != before {
      hide Vote.RunsSoundVote, Planned;
      var plan :| Planned(setting, before.value, plan)
                  && after == Some(Committed(before.value, plan.candidate, plan.command));
      PlannedKeepsVote(setting, before.value, plan);
    }
  }
}
