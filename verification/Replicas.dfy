/**
 * The client replica: a reduced state with the identity of every event behind it. It takes events as
 * the network brings them, refuses collisions, notices gaps, and is saved and loaded as a document.
 */
module Replicas {
  import opened Base
  import opened Domain
  import opened Protocol
  import opened Runtime
  import opened Channels
  import T = Text

  const CLIENT_REPLICA_SCHEMA_VERSION: nat := 1

  datatype Replica = Replica(state: SessionState, base: u64, events: map<u64, SessionEvent>)

  datatype ReceivedEvent = Applied | AlreadySeen | Gap

  datatype ReplicaError =
    | EventHistoryUnavailable(sequence: u64)
    | EventIdCollision(eventId: EventId, knownSequence: u64, incomingSequence: u64)
    | EventSequenceCollision(sequence: u64, knownEventId: EventId, incomingEventId: EventId)
    | ClientHistoryOverflow
    | EventRefused(refusal: ApplyError)
    | UnsupportedClientReplicaSchema(version: nat)
    | StoredDocumentInvalid(defect: ProtocolError)
    | ClientHistoryRevisionMismatch(expected: u64, actual: u64)
    | ForeignSession(session: SessionId)

  /** The document a client keeps between runs. */
  datatype StoredReplica =
    StoredReplica(schemaVersion: nat, historyBaseRevision: u64, snapshot: Snapshot, events: seq<SessionEvent>)

  function UninitializedReplica(sessionId: SessionId): Replica {
    Replica(UninitializedSession(sessionId), 0, map[])
  }

  function FromSnapshot(snapshot: Snapshot): Replica {
    Replica(snapshot.state, snapshot.revision, map[])
  }

  // ---- Key order -----------------------------------------------------------------------------

  lemma {:induction false} LeastExists(keys: set<u64>) returns (k: u64)
    requires keys != {}
    ensures k in keys && forall j | j in keys :: k <= j
    decreases |keys|
  {
    k :| k in keys;
    var others := keys - {k};
    assert forall j | j in keys :: j == k || j in others;
    if others != {} {
      var l := LeastExists(others);
      k := if k <= l then k else l;
    }
  }

  function Least(keys: set<u64>): (k: u64)
    requires keys != {}
    ensures k in keys && forall j | j in keys :: k <= j
  {
    assert exists k :: k in keys && forall j | j in keys :: k <= j by {
      var _ := LeastExists(keys);
    }
    var k :| k in keys && forall j | j in keys :: k <= j;
    k
  }

  /** The keys of a map in the order it is traversed. */
  function Ascending(keys: set<u64>): (order: seq<u64>)
    ensures forall i | 0 <= i < |order| :: order[i] in keys
    decreases |keys|
  {
    if keys == {} then [] else var k := Least(keys); [k] + Ascending(keys - {k})
  }

  function InKeyOrder(events: map<u64, SessionEvent>): seq<SessionEvent> {
    var order := Ascending(events.Keys);
    seq(|order|, i requires 0 <= i < |order| => events[order[i]])
  }

  lemma {:induction false} AscendingRange(keys: set<u64>, lo: nat, n: nat)
    requires forall k: u64 :: k in keys <==> lo < k <= lo + n
    requires lo + n <= U64_MAX
    ensures |Ascending(keys)| == n
    ensures forall i | 0 <= i < n :: Ascending(keys)[i] == lo + 1 + i
    decreases n
  {
    if n == 0 {
      if k :| k in keys {
      }
    } else {
      var first: u64 := lo + 1;
      assert first in keys && Least(keys) == first;
      AscendingRange(keys - {first}, lo + 1, n - 1);
    }
  }

  function FindEvent(events: seq<SessionEvent>, eventId: EventId): Option<SessionEvent> {
    if events == [] then None
    else if events[0].eventId == eventId then Some(events[0])
    else FindEvent(events[1..], eventId)
  }

  lemma {:induction false} FindEventFinds(events: seq<SessionEvent>, eventId: EventId)
    ensures FindEvent(events, eventId).Some? <==> exists i | 0 <= i < |events| :: events[i].eventId == eventId
  {
    if events != [] && events[0].eventId != eventId {
      FindEventFinds(events[1..], eventId);
      if i :| 0 <= i < |events| && events[i].eventId == eventId {
        assert events[1..][i - 1].eventId == eventId;
      }
      if i :| 0 <= i < |events[1..]| && events[1..][i].eventId == eventId {
        assert events[i + 1].eventId == eventId;
      }
    }
  }

  // ---- Receiving -----------------------------------------------------------------------------

  /** What one received event does to a replica: the outcome, and the replica after it. */
  function Receive(r: Replica, e: SessionEvent): Result<(Replica, ReceivedEvent), ReplicaError> {
    if e.sequence <= r.base then
      Err(EventHistoryUnavailable(e.sequence))
    else if e.sequence in r.events then
      var known := r.events[e.sequence];
      if known == e then
        Ok((r, AlreadySeen))
      else if known.eventId == e.eventId then
        Err(EventIdCollision(e.eventId, known.sequence, e.sequence))
      else
        Err(EventSequenceCollision(e.sequence, known.eventId, e.eventId))
    else
      match FindEvent(InKeyOrder(r.events), e.eventId)
      case Some(known) => Err(EventIdCollision(e.eventId, known.sequence, e.sequence))
      case None =>
        if r.state.revision == U64_MAX then
          Err(ClientHistoryOverflow)
        else if e.sequence != r.state.revision + 1 then
          Ok((r, Gap))
        else
          match Apply(r.state, e)
          case Err(error) => Err(EventRefused(error))
          case Ok(state) => Ok((Replica(state, r.base, r.events[e.sequence := e]), Applied))
  }

  /** A replica after a batch: whether it met a gap, or which error stopped the client. */
  datatype Fed = Fed(replica: Replica, outcome: Result<bool, ReplicaError>)

  /** The events of a batch are received in order; a gap drops the rest of the batch. */
  function ReceiveBatch(r: Replica, batch: EventBatch): Fed
    decreases |batch|
  {
    if batch == [] then
      Fed(r, Ok(false))
    else
      match Receive(r, batch[0])
      case Err(error) => Fed(r, Err(error))
      case Ok((_, Gap)) => Fed(r, Ok(true))
      case Ok((next, _)) => ReceiveBatch(next, batch[1..])
  }

  /** Batches one after the other, until one stops the client. */
  function ReceiveAll(r: Replica, batches: seq<EventBatch>): Fed
    decreases |batches|
  {
    if batches == [] then
      Fed(r, Ok(false))
    else
      var fed := ReceiveBatch(r, batches[0]);
      match fed.outcome
      case Err(error) => fed
      case Ok(gap) =>
        var rest := ReceiveAll(fed.replica, batches[1..]);
        if rest.outcome.Ok? then Fed(rest.replica, Ok(gap || rest.outcome.value)) else rest
  }

  // ---- The replica invariant and persistence -------------------------------------------------

  /** Every replica holds exactly the events after its base, keyed by sequence, under distinct ids. */
  ghost predicate Sound(r: Replica) {
    && r.base <= r.state.revision
    && (forall k: u64 :: k in r.events <==> r.base < k <= r.state.revision)
    && (forall k | k in r.events :: r.events[k].sequence == k)
    && (forall j, k | j in r.events && k in r.events && j != k :: r.events[j].eventId != r.events[k].eventId)
  }

  lemma InKeyOrderOfSound(r: Replica)
    requires Sound(r)
    ensures var n := r.state.revision - r.base;
            && |InKeyOrder(r.events)| == n
            && forall i | 0 <= i < n ::
                 r.base + 1 + i in r.events && InKeyOrder(r.events)[i] == r.events[r.base + 1 + i]
  {
    AscendingRange(r.events.Keys, r.base, r.state.revision - r.base);
  }

  lemma KnownIdIsFound(r: Replica, eventId: EventId)
    requires Sound(r)
    ensures FindEvent(InKeyOrder(r.events), eventId).Some? <==>
            exists k | k in r.events :: r.events[k].eventId == eventId
  {
    InKeyOrderOfSound(r);
    FindEventFinds(InKeyOrder(r.events), eventId);
    if k :| k in r.events && r.events[k].eventId == eventId {
      assert InKeyOrder(r.events)[k - r.base - 1] == r.events[k];
    }
  }

  /** Any event at all, canonical or not, leaves a sound replica sound, or stops the client. */
  lemma {:induction false} ReceiveKeepsSound(r: Replica, e: SessionEvent)
    requires Sound(r) && Receive(r, e).Ok?
    ensures Sound(Receive(r, e).value.0)
    ensures Receive(r, e).value.0.base == r.base && Receive(r, e).value.0.state.sessionId == r.state.sessionId
  {
    KnownIdIsFound(r, e.eventId);
    if Receive(r, e).value.1.Applied? {
      ReplayOne(r.state, e);
      ReplayAdvances(r.state, [e]);
    }
  }

  ghost predicate HoldsId(r: Replica, eventId: EventId) {
    exists k | k in r.events :: r.events[k].eventId == eventId
  }

  /**
   * What a replica answers to any event at all, told by where its sequence stands: up to the base the
   * history is unavailable; up to the revision the event is known exactly if it equals the stored one, and
   * else a collision; beyond the revision a stored id is a collision, the next event is applied if the
   * reducer takes it, and a later one is a gap. Only an applied event changes the replica.
   */
  lemma {:induction false} ReceiveAnswersExactly(r: Replica, e: SessionEvent)
    requires Sound(r)
    ensures e.sequence <= r.base ==> Receive(r, e) == Err(EventHistoryUnavailable(e.sequence))
    ensures r.base < e.sequence <= r.state.revision ==>
              && e.sequence in r.events
              && var known := r.events[e.sequence];
                 && (Receive(r, e) == Ok((r, AlreadySeen)) <==> known == e)
                 && (known != e ==>
                       Receive(r, e) == Err(if known.eventId == e.eventId
                                            then EventIdCollision(e.eventId, e.sequence, e.sequence)
                                            else EventSequenceCollision(e.sequence, known.eventId, e.eventId)))
    ensures r.state.revision < e.sequence ==>
              if HoldsId(r, e.eventId) then
                exists k: u64 | k in r.events && r.events[k].eventId == e.eventId ::
                  Receive(r, e) == Err(EventIdCollision(e.eventId, k, e.sequence))
              else if e.sequence > r.state.revision + 1 then
                Receive(r, e) == Ok((r, Gap))
              else
                match Apply(r.state, e)
                case Err(refusal) => Receive(r, e) == Err(EventRefused(refusal))
                case Ok(next) => Receive(r, e) == Ok((Replica(next, r.base, r.events[e.sequence := e]), Applied))
  {
    hide Apply;
    if r.state.revision < e.sequence {
      KnownIdIsFound(r, e.eventId);
      FoundIsKnown(r, e.eventId);
      hide FindEvent, InKeyOrder;
    }
  }

  lemma {:induction false} FindEventIsMember(events: seq<SessionEvent>, eventId: EventId)
    ensures var found := FindEvent(events, eventId);
            found.Some? ==> found.value.eventId == eventId && found.value in events
  {
    if events != [] && events[0].eventId != eventId {
      FindEventIsMember(events[1..], eventId);
    }
  }

  lemma FoundIsKnown(r: Replica, eventId: EventId)
    requires Sound(r)
    ensures var found := FindEvent(InKeyOrder(r.events), eventId);
            found.Some? ==>
              found.value.eventId == eventId
              && found.value.sequence in r.events && r.events[found.value.sequence] == found.value
  {
    InKeyOrderOfSound(r);
    FindEventIsMember(InKeyOrder(r.events), eventId);
  }

  /** An event that cannot stand beside what the replica holds: another one at its sequence, or under its id. */
  ghost predicate Contradicts(r: Replica, e: SessionEvent) {
    || (e.sequence in r.events && r.events[e.sequence] != e)
    || (exists k | k in r.events :: k != e.sequence && r.events[k].eventId == e.eventId)
  }

  /** One event: whatever was held stays held, a taken event is held, and a contradiction is an error. */
  lemma ReceiveHolds(r: Replica, e: SessionEvent)
    requires Sound(r)
    ensures Contradicts(r, e) ==> Receive(r, e).Err?
    ensures Receive(r, e).Ok? ==>
              var (next, outcome) := Receive(r, e).value;
              && Holds(next, r)
              && (!outcome.Gap? ==> e.sequence in next.events && next.events[e.sequence] == e)
  {
    ReceiveAnswersExactly(r, e);
    hide Receive, Apply;
  }

  /** Everything the earlier replica holds, the later one holds unchanged. */
  ghost predicate Holds(later: Replica, earlier: Replica) {
    && later.base == earlier.base
    && earlier.state.revision <= later.state.revision
    && forall k | k in earlier.events :: k in later.events && later.events[k] == earlier.events[k]
  }

  /**
   * A client never goes on past an event that contradicts what it holds. Whatever a batch brings, nothing
   * held is lost or replaced; a batch taken to its end is held event by event; and one that contradicts
   * what was held before it, in any place, stops the client there unless a gap already dropped that part.
   */
  lemma {:induction false} BatchNeverContradicts(r: Replica, batch: EventBatch)
    requires Sound(r)
    ensures var fed := ReceiveBatch(r, batch);
            && Holds(fed.replica, r)
            && (fed.outcome == Ok(false) ==>
                  forall i | 0 <= i < |batch| ::
                    batch[i].sequence in fed.replica.events && fed.replica.events[batch[i].sequence] == batch[i])
            && (forall i | 0 <= i < |batch| && Contradicts(r, batch[i]) ::
                  fed.outcome != Ok(false) && fed.replica == ReceiveBatch(r, batch[..i]).replica)
            && (batch != [] && Contradicts(r, batch[0]) ==> fed.outcome.Err? && fed.replica == r)
    decreases |batch|
  {
    hide Receive, Sound;
    if batch != [] {
      ReceiveHolds(r, batch[0]);
      if Receive(r, batch[0]).Ok? && !Receive(r, batch[0]).value.1.Gap? {
        var next := Receive(r, batch[0]).value.0;
        ReceiveKeepsSound(r, batch[0]);
        BatchNeverContradicts(next, batch[1..]);
        assert forall i | 1 <= i < |batch| :: batch[i] == batch[1..][i - 1];
        forall i | 0 <= i < |batch| && Contradicts(r, batch[i])
          ensures ReceiveBatch(r, batch).outcome != Ok(false)
               && ReceiveBatch(r, batch).replica == ReceiveBatch(r, batch[..i]).replica
        {
          assert i > 0 && Contradicts(next, batch[1..][i - 1]);
          assert batch[..i][0] == batch[0] && batch[..i][1..] == batch[1..][..i - 1];
        }
      }
    }
  }

  lemma {:induction false} BatchKeepsSound(r: Replica, batch: EventBatch)
    requires Sound(r)
    ensures Sound(ReceiveBatch(r, batch).replica)
    ensures ReceiveBatch(r, batch).replica.state.sessionId == r.state.sessionId
    decreases |batch|
  {
    if batch != [] && Receive(r, batch[0]).Ok? {
      ReceiveKeepsSound(r, batch[0]);
      if !Receive(r, batch[0]).value.1.Gap? {
        BatchKeepsSound(Receive(r, batch[0]).value.0, batch[1..]);
      }
    }
  }

  /** A feed taken without a gap or an error is held event by event, whatever it was. */
  lemma {:induction false} FeedIsHeld(r: Replica, batches: seq<EventBatch>)
    requires Sound(r)
    ensures var fed := ReceiveAll(r, batches);
            && Holds(fed.replica, r)
            && (fed.outcome == Ok(false) ==>
                  forall e | e in Flatten(batches) ::
                    e.sequence in fed.replica.events && fed.replica.events[e.sequence] == e)
    decreases |batches|
  {
    hide ReceiveBatch, Sound;
    if batches != [] {
      var fed := ReceiveBatch(r, batches[0]);
      BatchNeverContradicts(r, batches[0]);
      if fed.outcome.Ok? {
        BatchKeepsSound(r, batches[0]);
        FeedIsHeld(fed.replica, batches[1..]);
      }
    }
  }

  function Save(r: Replica): StoredReplica {
    StoredReplica(CLIENT_REPLICA_SCHEMA_VERSION, r.base, CurrentSnapshot(r.state), InKeyOrder(r.events))
  }

  function IndexBySequence(events: seq<SessionEvent>): map<u64, SessionEvent> {
    if events == [] then map[]
    else IndexBySequence(events[..|events| - 1])[events[|events| - 1].sequence := events[|events| - 1]]
  }

  function FromV1(stored: StoredReplica): Result<Replica, ReplicaError> {
    if stored.schemaVersion != CLIENT_REPLICA_SCHEMA_VERSION then
      Err(UnsupportedClientReplicaSchema(stored.schemaVersion))
    else
      match ValidateSnapshot(stored.snapshot)
      case Err(defect) => Err(StoredDocumentInvalid(defect))
      case Ok(_) =>
        match Validate(CurrentLog(stored.snapshot.sessionId, stored.historyBaseRevision, stored.events))
        case Err(defect) => Err(StoredDocumentInvalid(defect))
        case Ok(_) =>
          var expected := CheckedAdd(stored.historyBaseRevision, |stored.events|);
          if expected.None? then
            Err(ClientHistoryOverflow)
          else if expected.value != stored.snapshot.revision then
            Err(ClientHistoryRevisionMismatch(stored.snapshot.revision, expected.value))
          else
            Ok(Replica(stored.snapshot.state, stored.historyBaseRevision, IndexBySequence(stored.events)))
  }

  /** What a client finds when it starts: nothing yet, its document, or a bare snapshot from before. */
  datatype ClientFile = NoFile | V1(stored: StoredReplica) | BareSnapshot(snapshot: Snapshot)

  function LoadReplica(sessionId: SessionId, file: ClientFile): Result<Replica, ReplicaError> {
    match file
    case NoFile => Ok(UninitializedReplica(sessionId))
    case V1(stored) =>
      var r :- FromV1(stored);
      if r.state.sessionId == sessionId then Ok(r) else Err(ForeignSession(r.state.sessionId))
    case BareSnapshot(snapshot) =>
      match ValidateSnapshot(snapshot)
      case Err(defect) => Err(StoredDocumentInvalid(defect))
      case Ok(_) =>
        if snapshot.state.sessionId == sessionId then Ok(FromSnapshot(snapshot))
        else Err(ForeignSession(snapshot.state.sessionId))
  }

  /** Whatever a client starts from, it starts with a sound replica. */
  lemma {:induction false} LoadedIsSound(sessionId: SessionId, file: ClientFile)
    requires LoadReplica(sessionId, file).Ok?
    ensures Sound(LoadReplica(sessionId, file).value)
    ensures LoadReplica(sessionId, file).value.state.sessionId == sessionId
  {
    if file.V1? {
      FromV1IsSound(file.stored);
    }
  }

  /** Which documents load, and as what: the current schema, a valid snapshot, and a valid history up to it. */
  lemma {:induction false} FromV1LoadsExactly(stored: StoredReplica)
    ensures FromV1(stored).Ok? <==>
            && stored.schemaVersion == 1
            && ValidSnapshot(stored.snapshot)
            && ValidLog(CurrentLog(stored.snapshot.sessionId, stored.historyBaseRevision, stored.events))
            && stored.historyBaseRevision + |stored.events| == stored.snapshot.revision
    ensures FromV1(stored).Ok? ==>
              var r := FromV1(stored).value;
              && r.state == stored.snapshot.state && r.base == stored.historyBaseRevision
              && (forall k: u64 :: k in r.events <==> r.base < k <= r.state.revision)
              && forall i | 0 <= i < |stored.events| :: r.events[r.base + 1 + i] == stored.events[i]
  {
    hide ValidateSnapshot, Validate, IndexBySequence, AllIdentified, DistinctIds;
    SnapshotDecides(stored.snapshot);
    ValidateDecides(CurrentLog(stored.snapshot.sessionId, stored.historyBaseRevision, stored.events));
    if Contiguous(stored.historyBaseRevision, stored.events) {
      IndexBySequenceOfContiguous(stored.historyBaseRevision, stored.events);
    }
  }

  /** What a client starts with, for each file it may find; a document of another session is refused. */
  lemma {:induction false} LoadsExactly(sessionId: SessionId, file: ClientFile)
    ensures LoadReplica(sessionId, file).Ok? <==>
            match file
            case NoFile => true
            case V1(stored) => FromV1(stored).Ok? && stored.snapshot.state.sessionId == sessionId
            case BareSnapshot(snapshot) => ValidSnapshot(snapshot) && snapshot.state.sessionId == sessionId
    ensures LoadReplica(sessionId, file).Ok? ==>
              var r := LoadReplica(sessionId, file).value;
              match file
              case NoFile => r == Replica(UninitializedSession(sessionId), 0, map[])
              case V1(stored) => FromV1(stored) == Ok(r)
              case BareSnapshot(snapshot) => r == Replica(snapshot.state, snapshot.state.revision, map[])
  {
    match file {
      case NoFile =>
      case V1(stored) => FromV1LoadsExactly(stored);
      case BareSnapshot(snapshot) => SnapshotDecides(snapshot);
    }
    hide FromV1, ValidateSnapshot;
  }

  lemma {:induction false} IndexBySequenceOfContiguous(base: nat, events: seq<SessionEvent>)
    requires Contiguous(base, events)
    ensures forall k: u64 :: k in IndexBySequence(events) <==> base < k <= base + |events|
    ensures forall i | 0 <= i < |events| :: IndexBySequence(events)[events[i].sequence] == events[i]
  {
    if events != [] {
      IndexBySequenceOfContiguous(base, events[..|events| - 1]);
    }
  }

  lemma {:induction false} BatchesKeepSound(r: Replica, batches: seq<EventBatch>)
    requires Sound(r)
    ensures Sound(ReceiveAll(r, batches).replica)
    decreases |batches|
  {
    hide Sound, ReceiveBatch;
    if batches != [] {
      BatchKeepsSound(r, batches[0]);
      BatchesKeepSound(ReceiveBatch(r, batches[0]).replica, batches[1..]);
    }
  }

  /** Every identifier a stored document is checked for. */
  ghost predicate Identified(r: Replica) {
    !T.Blank(r.state.sessionId) && forall k | k in r.events :: HasIdentifiers(r.events[k])
  }

  lemma SavedLogIsValid(r: Replica)
    requires Sound(r)
    ensures |InKeyOrder(r.events)| == r.state.revision - r.base
    ensures Contiguous(r.base, InKeyOrder(r.events))
    ensures ValidLog(CurrentLog(r.state.sessionId, r.base, InKeyOrder(r.events))) <==> Identified(r)
  {
    InKeyOrderOfSound(r);
    var events := InKeyOrder(r.events);
    forall i, j | 0 <= i < j < |events|
      ensures events[i].eventId != events[j].eventId
    {
      assert events[i] == r.events[r.base + 1 + i] && events[j] == r.events[r.base + 1 + j];
    }
    if AllIdentified(events) {
      forall k | k in r.events
        ensures HasIdentifiers(r.events[k])
      {
        assert events[k - r.base - 1] == r.events[k];
      }
    }
  }

  lemma SavedIndexIsSame(r: Replica)
    requires Sound(r)
    ensures IndexBySequence(InKeyOrder(r.events)) == r.events
  {
    InKeyOrderOfSound(r);
    var events := InKeyOrder(r.events);
    IndexBySequenceOfContiguous(r.base, events);
    forall k | k in r.events
      ensures IndexBySequence(events)[k] == r.events[k]
    {
      assert events[k - r.base - 1] == r.events[k];
    }
  }

  /**
   * A replica comes back from its saved document unchanged exactly when its session id and all
   * identifiers of its events are non-blank; otherwise the document is refused.
   */
  lemma {:induction false} SaveLoadRoundTrip(r: Replica)
    requires Sound(r)
    ensures FromV1(Save(r)) == Ok(r) <==> Identified(r)
    ensures FromV1(Save(r)).Err? <==> !Identified(r)
  {
    SavedLogIsValid(r);
    SavedIndexIsSame(r);
    ValidateDecides(CurrentLog(r.state.sessionId, r.base, InKeyOrder(r.events)));
  }

  /**
   * The round trip for every replica a client can get to: from nothing, a document or a bare snapshot,
   * through any batches whatever, canonical or not.
   */
  lemma {:induction false} ReachableReplicaRoundTrip(sessionId: SessionId, file: ClientFile, batches: seq<EventBatch>)
    requires LoadReplica(sessionId, file).Ok?
    ensures var r := ReceiveAll(LoadReplica(sessionId, file).value, batches).replica;
            && (FromV1(Save(r)) == Ok(r) <==> Identified(r))
            && (FromV1(Save(r)).Err? <==> !Identified(r))
  {
    LoadedIsSound(sessionId, file);
    BatchesKeepSound(LoadReplica(sessionId, file).value, batches);
    SaveLoadRoundTrip(ReceiveAll(LoadReplica(sessionId, file).value, batches).replica);
  }

  /** Every loadable document gives a sound replica, identified and one event per revision after its base. */
  lemma FromV1IsSound(stored: StoredReplica)
    requires FromV1(stored).Ok?
    ensures Sound(FromV1(stored).value) && Identified(FromV1(stored).value)
  {
    var r := FromV1(stored).value;
    ValidateDecides(CurrentLog(stored.snapshot.sessionId, stored.historyBaseRevision, stored.events));
    IndexBySequenceOfContiguous(stored.historyBaseRevision, stored.events);
    forall k | k in r.events
      ensures 0 <= k - r.base - 1 < |stored.events| && r.events[k] == stored.events[k - r.base - 1]
    {
      assert stored.events[k - r.base - 1].sequence == k;
    }
  }

  // ---- Canonical replicas --------------------------------------------------------------------

  /** A log that validates and replays: what a host's event list always is. */
  ghost predicate GoodLog(sessionId: SessionId, log: seq<SessionEvent>) {
    ValidEvents(0, log) && Replay(UninitializedSession(sessionId), log).Ok?
  }

  ghost function StateOf(sessionId: SessionId, log: seq<SessionEvent>): SessionState
    requires Replay(UninitializedSession(sessionId), log).Ok?
  {
    Replay(UninitializedSession(sessionId), log).value
  }

  /** The replica holds exactly the events of the log from its base up to its revision, and the state they replay to. */
  ghost predicate Follows(r: Replica, sessionId: SessionId, log: seq<SessionEvent>) {
    && r.base <= r.state.revision <= |log|
    && (forall k: u64 :: k in r.events <==> r.base < k <= r.state.revision)
    && (forall k | k in r.events :: r.events[k] == log[k - 1])
    && Replay(UninitializedSession(sessionId), log[..r.state.revision]) == Ok(r.state)
  }

  /** The same from the very first event on. */
  ghost predicate PrefixOf(r: Replica, sessionId: SessionId, log: seq<SessionEvent>) {
    r.base == 0 && Follows(r, sessionId, log)
  }

  lemma FreshReplicaIsPrefix(sessionId: SessionId, log: seq<SessionEvent>)
    ensures PrefixOf(UninitializedReplica(sessionId), sessionId, log)
  {
    assert log[..0] == [];
  }

  lemma PrefixIsSound(r: Replica, sessionId: SessionId, log: seq<SessionEvent>)
    requires GoodLog(sessionId, log) && PrefixOf(r, sessionId, log)
    ensures Sound(r)
    ensures !T.Blank(sessionId) ==> Identified(r)
    ensures r.state.sessionId == sessionId
  {
    ReplayAdvances(UninitializedSession(sessionId), log[..r.state.revision]);
  }

  /** A prefix of a log is a prefix of every longer log. */
  lemma PrefixOfLonger(r: Replica, sessionId: SessionId, log: seq<SessionEvent>, longer: seq<SessionEvent>)
    requires PrefixOf(r, sessionId, log) && log <= longer
    ensures PrefixOf(r, sessionId, longer)
  {
    assert longer[..r.state.revision] == log[..r.state.revision];
  }

  lemma CanonicalIdIsNew(r: Replica, sessionId: SessionId, log: seq<SessionEvent>, i: nat)
    requires GoodLog(sessionId, log) && PrefixOf(r, sessionId, log) && r.state.revision <= i < |log|
    ensures FindEvent(InKeyOrder(r.events), log[i].eventId).None?
  {
    PrefixIsSound(r, sessionId, log);
    KnownIdIsFound(r, log[i].eventId);
    assert forall k | k in r.events :: log[k - 1].eventId != log[i].eventId;
  }

  lemma NextCanonicalApplies(r: Replica, sessionId: SessionId, log: seq<SessionEvent>)
    requires Replay(UninitializedSession(sessionId), log).Ok? && Follows(r, sessionId, log)
    requires r.state.revision < |log|
    ensures Apply(r.state, log[r.state.revision]).Ok?
    ensures Apply(r.state, log[r.state.revision])
         == Replay(UninitializedSession(sessionId), log[..r.state.revision + 1])
    ensures Apply(r.state, log[r.state.revision]).value.revision == r.state.revision + 1
  {
    hide Apply;
    var start := UninitializedSession(sessionId);
    var i: nat := r.state.revision;
    assert log[..i + 1] == log[..i] + [log[i]];
    ReplayPrefix(start, log, i + 1);
    ReplayConcat(start, log[..i], [log[i]]);
    ReplayOne(r.state, log[i]);
    ReplayAdvances(start, log[..i + 1]);
  }

  lemma ReceiveNext(r: Replica, sessionId: SessionId, log: seq<SessionEvent>)
    requires GoodLog(sessionId, log) && PrefixOf(r, sessionId, log) && r.state.revision < |log|
    ensures var e := log[r.state.revision];
            && Apply(r.state, e).Ok?
            && Receive(r, e) == Ok((Replica(Apply(r.state, e).value, r.base, r.events[e.sequence := e]), Applied))
  {
    hide Apply, Replay, FindEvent, InKeyOrder;
    CanonicalIdIsNew(r, sessionId, log, r.state.revision);
    NextCanonicalApplies(r, sessionId, log);
    assert log[r.state.revision].sequence == r.state.revision + 1;
  }

  /** A canonical event is applied, known, or ahead, as its sequence says; it never raises an error. */
  lemma {:induction false} ReceiveCanonical(r: Replica, sessionId: SessionId, log: seq<SessionEvent>, i: nat)
    requires GoodLog(sessionId, log) && PrefixOf(r, sessionId, log) && i < |log|
    ensures Receive(r, log[i]).Ok?
    ensures var (next, outcome) := Receive(r, log[i]).value;
            && PrefixOf(next, sessionId, log)
            && outcome == (if i < r.state.revision then AlreadySeen
                           else if i == r.state.revision then Applied else Gap)
            && next.state.revision == (if i == r.state.revision then i + 1 else r.state.revision)
            && (!outcome.Applied? ==> next == r)
  {
    hide Apply, Replay, FindEvent, InKeyOrder, HasIdentifiers, DistinctIds;
    var e := log[i];
    assert e.sequence == i + 1;
    if i == r.state.revision {
      hide Receive;
      ReceiveNext(r, sessionId, log);
      NextCanonicalApplies(r, sessionId, log);
      var next := Receive(r, e).value.0;
      assert forall k | k in next.events :: next.events[k] == log[k - 1];
    } else if i > r.state.revision {
      CanonicalIdIsNew(r, sessionId, log, i);
    }
  }

  /** Where each event of a batch stands in the log. */
  ghost predicate Canonical(batch: EventBatch, log: seq<SessionEvent>) {
    forall i | 0 <= i < |batch| :: 1 <= batch[i].sequence <= |log| && batch[i] == log[batch[i].sequence - 1]
  }

  /** Canonical events in any order, with any loss or repetition, never stop or mislead a client. */
  lemma {:induction false} BatchOfCanonical(r: Replica, sessionId: SessionId, log: seq<SessionEvent>,
                                            batch: EventBatch)
    requires GoodLog(sessionId, log) && PrefixOf(r, sessionId, log) && Canonical(batch, log)
    ensures var fed := ReceiveBatch(r, batch);
            && fed.outcome.Ok?
            && PrefixOf(fed.replica, sessionId, log)
            && r.state.revision <= fed.replica.state.revision
    decreases |batch|
  {
    hide Receive, GoodLog, PrefixOf;
    if batch != [] {
      ReceiveCanonical(r, sessionId, log, batch[0].sequence - 1);
      var (next, outcome) := Receive(r, batch[0]).value;
      if !outcome.Gap? {
        BatchOfCanonical(next, sessionId, log, batch[1..]);
      }
    }
  }

  /** A slice of the log moves the replica to the slice's end, unless it starts beyond the next event. */
  lemma {:induction false} BatchOfSlice(r: Replica, sessionId: SessionId, log: seq<SessionEvent>, a: nat, b: nat)
    requires GoodLog(sessionId, log) && PrefixOf(r, sessionId, log) && a < b <= |log|
    ensures var fed := ReceiveBatch(r, log[a..b]);
            && fed.outcome == Ok(a > r.state.revision)
            && PrefixOf(fed.replica, sessionId, log)
            && fed.replica.state.revision == (if a > r.state.revision || b <= r.state.revision
                                              then r.state.revision else b)
    decreases b - a
  {
    ReceiveCanonical(r, sessionId, log, a);
    var (next, outcome) := Receive(r, log[a]).value;
    assert log[a..b][0] == log[a] && log[a..b][1..] == log[a + 1..b];
    if !outcome.Gap? {
      if a + 1 < b {
        BatchOfSlice(next, sessionId, log, a + 1, b);
      } else {
        assert log[a + 1..b] == [];
      }
    }
  }

  /** After a full suffix from its own revision the client's state is the host's, whatever it missed before. */
  lemma CatchUpConverges(r: Replica, sessionId: SessionId, log: seq<SessionEvent>)
    requires GoodLog(sessionId, log) && PrefixOf(r, sessionId, log)
    ensures var fed := ReceiveBatch(r, log[r.state.revision..]);
            && fed.outcome == Ok(false)
            && fed.replica.state == StateOf(sessionId, log)
            && fed.replica.state.revision == |log|
  {
    var n := r.state.revision;
    if n < |log| {
      BatchOfSlice(r, sessionId, log, n, |log|);
    }
    assert log[..|log|] == log;
    ReplayAdvances(UninitializedSession(sessionId), log);
  }

  /**
   * A gap is met exactly when the client is behind, and one answered catch-up then closes the distance
   * to the host, even if the host moved on in between.
   */
  lemma {:induction false} GapIsClosedByOneCatchUp(r: Replica, sessionId: SessionId, log: seq<SessionEvent>, i: nat,
                                later: seq<SessionEvent>)
    requires GoodLog(sessionId, log) && PrefixOf(r, sessionId, log) && i < |log|
    requires GoodLog(sessionId, later) && log <= later
    requires Receive(r, log[i]).Ok? && Receive(r, log[i]).value.1.Gap?
    ensures r.state.revision < |log|
    ensures var fed := ReceiveBatch(r, later[r.state.revision..]);
            && fed.outcome == Ok(false)
            && fed.replica.state == StateOf(sessionId, later)
            && |later| - fed.replica.state.revision < |later| - r.state.revision
  {
    ReceiveCanonical(r, sessionId, log, i);
    PrefixOfLonger(r, sessionId, log, later);
    CatchUpConverges(r, sessionId, later);
  }

  ghost predicate Preceded(feed: seq<SessionEvent>, q: nat)
    requires q < |feed|
  {
    exists p | 0 <= p < q :: feed[p].sequence == feed[q].sequence - 1
  }

  /** Every event further ahead than the next one comes after its predecessor. */
  ghost predicate Causal(feed: seq<SessionEvent>, revision: nat) {
    forall q: nat | q < |feed| && feed[q].sequence > revision + 1 :: Preceded(feed, q)
  }

  ghost predicate Brings(feed: seq<SessionEvent>, n: nat) {
    exists q | 0 <= q < |feed| :: feed[q].sequence == n
  }

  /** Every event the client still misses is somewhere in the feed. */
  ghost predicate Covers(feed: seq<SessionEvent>, revision: nat, end: nat) {
    forall n: nat | revision < n <= end :: Brings(feed, n)
  }

  /** Part of a feed that begins after `done` of its events, at a client that has seen them all. */
  ghost predicate Seen(feed: seq<SessionEvent>, done: nat, revision: nat) {
    forall q | 0 <= q < done && q < |feed| :: feed[q].sequence <= revision
  }

  lemma NoGapAhead(feed: seq<SessionEvent>, start: nat, done: nat, revision: nat)
    requires Causal(feed, start) && Seen(feed, done, revision) && start <= revision && done < |feed|
    ensures feed[done].sequence <= revision + 1
  {
    if feed[done].sequence > start + 1 {
      assert Preceded(feed, done);
    }
  }

  lemma {:induction false} BatchOfCausal(r: Replica, sessionId: SessionId, log: seq<SessionEvent>,
                                         feed: seq<SessionEvent>, start: nat, done: nat, end: nat)
    requires GoodLog(sessionId, log) && PrefixOf(r, sessionId, log) && Canonical(feed, log)
    requires done <= end <= |feed| && start <= r.state.revision
    requires Causal(feed, start) && Seen(feed, done, r.state.revision)
    ensures var fed := ReceiveBatch(r, feed[done..end]);
            && fed.outcome == Ok(false)
            && PrefixOf(fed.replica, sessionId, log)
            && r.state.revision <= fed.replica.state.revision
            && Seen(feed, end, fed.replica.state.revision)
    decreases end - done
  {
    hide Receive, GoodLog, PrefixOf, Causal;
    if done == end {
      assert feed[done..end] == [];
    } else {
      var e := feed[done];
      assert feed[done..end][0] == e && feed[done..end][1..] == feed[done + 1..end];
      ReceiveCanonical(r, sessionId, log, e.sequence - 1);
      var (next, outcome) := Receive(r, e).value;
      NoGapAhead(feed, start, done, r.state.revision);
      BatchOfCausal(next, sessionId, log, feed, start, done + 1, end);
    }
  }

  lemma {:induction false} BatchesOfCausal(r: Replica, sessionId: SessionId, log: seq<SessionEvent>,
                                           before: seq<SessionEvent>, batches: seq<EventBatch>, start: nat)
    requires GoodLog(sessionId, log) && PrefixOf(r, sessionId, log)
    requires start <= r.state.revision
    requires var feed := before + Flatten(batches);
             Canonical(feed, log) && Causal(feed, start) && Seen(feed, |before|, r.state.revision)
    ensures var feed, fed := before + Flatten(batches), ReceiveAll(r, batches);
            && fed.outcome == Ok(false)
            && PrefixOf(fed.replica, sessionId, log)
            && Seen(feed, |feed|, fed.replica.state.revision)
    decreases |batches|
  {
    if batches != [] {
      var feed := before + Flatten(batches);
      var further := before + batches[0];
      assert feed == further + Flatten(batches[1..]);
      assert feed[|before|..|further|] == batches[0];
      BatchOfCausal(r, sessionId, log, feed, start, |before|, |further|);
      var fed := ReceiveBatch(r, batches[0]);
      BatchesOfCausal(fed.replica, sessionId, log, further, batches[1..], start);
    }
  }

  /**
   * Catch-up convergence: canonical events cut into batches in any way, with any repetitions mixed in,
   * as long as nothing missing comes before its predecessor, bring a prefix replica to the state of the
   * whole log without a gap, a collision or an error.
   */
  lemma {:induction false} FeedConverges(r: Replica, sessionId: SessionId, log: seq<SessionEvent>,
                                         batches: seq<EventBatch>)
    requires GoodLog(sessionId, log) && PrefixOf(r, sessionId, log)
    requires Canonical(Flatten(batches), log)
    requires Causal(Flatten(batches), r.state.revision) && Covers(Flatten(batches), r.state.revision, |log|)
    ensures var fed := ReceiveAll(r, batches);
            && fed.outcome == Ok(false)
            && fed.replica.state == StateOf(sessionId, log)
            && PrefixOf(fed.replica, sessionId, log)
  {
    hide ReceiveAll, GoodLog, Canonical, Causal, Contiguous, Replay, Apply, Flatten;
    assert [] + Flatten(batches) == Flatten(batches);
    BatchesOfCausal(r, sessionId, log, [], batches, r.state.revision);
    var fed := ReceiveAll(r, batches);
    if r.state.revision < |log| {
      assert Brings(Flatten(batches), |log|);
      var q :| 0 <= q < |Flatten(batches)| && Flatten(batches)[q].sequence == |log|;
      assert |log| <= fed.replica.state.revision;
    } else {
      ReceiveAllNeverRetreats(r, sessionId, log, batches);
    }
    assert log[..|log|] == log;
  }

  lemma {:induction false} ReceiveAllNeverRetreats(r: Replica, sessionId: SessionId, log: seq<SessionEvent>,
                                                   batches: seq<EventBatch>)
    requires GoodLog(sessionId, log) && PrefixOf(r, sessionId, log) && Canonical(Flatten(batches), log)
    ensures var fed := ReceiveAll(r, batches);
            && fed.outcome.Ok? && PrefixOf(fed.replica, sessionId, log)
            && r.state.revision <= fed.replica.state.revision
    decreases |batches|
  {
    hide ReceiveBatch, GoodLog, PrefixOf;
    if batches != [] {
      var all := Flatten(batches);
      assert batches[0] == all[..|batches[0]|] && Flatten(batches[1..]) == all[|batches[0]|..];
      BatchOfCanonical(r, sessionId, log, batches[0]);
      ReceiveAllNeverRetreats(ReceiveBatch(r, batches[0]).replica, sessionId, log, batches[1..]);
    }
  }

  // ---- Replicas that start from a snapshot ---------------------------------------------------

  lemma FollowerIsSound(r: Replica, sessionId: SessionId, log: seq<SessionEvent>)
    requires GoodLog(sessionId, log) && Follows(r, sessionId, log)
    ensures Sound(r)
  {
  }

  /** The snapshot of the state after the first `n` events, as a client takes it up. */
  lemma SnapshotFollows(sessionId: SessionId, log: seq<SessionEvent>, n: nat)
    requires GoodLog(sessionId, log) && n <= |log|
    ensures Replay(UninitializedSession(sessionId), log[..n]).Ok?
    ensures var s := StateOf(sessionId, log[..n]);
            s.revision == n && Follows(FromSnapshot(CurrentSnapshot(s)), sessionId, log)
  {
    ReplayPrefix(UninitializedSession(sessionId), log, n);
    ReplayAdvances(UninitializedSession(sessionId), log[..n]);
  }

  /**
   * A canonical event at a replica with any base: below the base it stops the client, at the next place it
   * is applied, in between it is known, and further ahead it is a gap.
   */
  lemma {:induction false} ReceiveFollowing(r: Replica, sessionId: SessionId, log: seq<SessionEvent>, i: nat)
    requires GoodLog(sessionId, log) && Follows(r, sessionId, log) && i < |log|
    ensures match Receive(r, log[i])
            case Err(error) => i < r.base && error == EventHistoryUnavailable(log[i].sequence)
            case Ok((next, outcome)) =>
              && r.base <= i
              && Follows(next, sessionId, log) && next.base == r.base
              && outcome == (if i < r.state.revision then AlreadySeen
                             else if i == r.state.revision then Applied else Gap)
              && next.state.revision == (if i == r.state.revision then i + 1 else r.state.revision)
  {
    hide Receive, Apply, Replay, Sound, HoldsId, AllIdentified, DistinctIds;
    FollowerIsSound(r, sessionId, log);
    ReceiveAnswersExactly(r, log[i]);
    assert log[i].sequence == i + 1;
    if i >= r.state.revision {
      FollowerLacksId(r, sessionId, log, i);
    }
    if i == r.state.revision {
      NextCanonicalApplies(r, sessionId, log);
    }
  }

  lemma FollowerLacksId(r: Replica, sessionId: SessionId, log: seq<SessionEvent>, i: nat)
    requires GoodLog(sessionId, log) && Follows(r, sessionId, log) && r.state.revision <= i < |log|
    ensures !HoldsId(r, log[i].eventId)
  {
    hide Replay;
    assert forall k | k in r.events :: log[k - 1].eventId != log[i].eventId;
  }

  /**
   * Snapshot plus suffix at the client: taking up the snapshot of any prefix of the log, or any replica
   * that followed the log since one, and receiving the rest ends in the state of the whole log, without a
   * gap or an error.
   */
  lemma {:induction false} SnapshotClientConverges(r: Replica, sessionId: SessionId, log: seq<SessionEvent>)
    requires GoodLog(sessionId, log) && Follows(r, sessionId, log)
    ensures var fed := ReceiveBatch(r, log[r.state.revision..]);
            && fed.outcome == Ok(false)
            && fed.replica.base == r.base
            && fed.replica.state == StateOf(sessionId, log)
    decreases |log| - r.state.revision
  {
    var n := r.state.revision;
    if n == |log| {
      assert log[..n] == log && log[n..] == [];
    } else {
      hide Receive, Follows, GoodLog;
      assert n < |log| by { FollowerIsShort(r, sessionId, log); }
      ReceiveFollowing(r, sessionId, log, n);
      assert r.base <= n by { FollowerIsShort(r, sessionId, log); }
      assert log[n..][0] == log[n] && log[n..][1..] == log[n + 1..];
      SnapshotClientConverges(Receive(r, log[n]).value.0, sessionId, log);
    }
  }

  lemma FollowerIsShort(r: Replica, sessionId: SessionId, log: seq<SessionEvent>)
    requires Follows(r, sessionId, log)
    ensures r.base <= r.state.revision <= |log|
  {
  }

  // ---- The live replica ----------------------------------------------------------------------

  class ClientReplica {
    const state: LiveSession
    var historyBaseRevision: u64
    var events: map<u64, SessionEvent>

    function Current(): Replica
      reads this, state
    {
      Replica(state.Current(), historyBaseRevision, events)
    }

    constructor (r: Replica)
      ensures Current() == r && fresh(state)
    {
      state := new LiveSession.Clone(r.state);
      historyBaseRevision, events := r.base, r.events;
    }

    method ApplyReceivedEvent(e: SessionEvent) returns (r: Result<ReceivedEvent, ReplicaError>)
      modifies this, state
      ensures match Receive(old(Current()), e)
              case Err(error) => r == Err(error) && Current() == old(Current())
              case Ok((next, outcome)) => r == Ok(outcome) && Current() == next
    {
      if e.sequence <= historyBaseRevision {
        return Err(EventHistoryUnavailable(e.sequence));
      }
      if e.sequence in events {
        var known := events[e.sequence];
        if known == e {
          return Ok(AlreadySeen);
        }
        if known.eventId == e.eventId {
          return Err(EventIdCollision(e.eventId, known.sequence, e.sequence));
        }
        return Err(EventSequenceCollision(e.sequence, known.eventId, e.eventId));
      }
      var found := FindEvent(InKeyOrder(events), e.eventId);
      if found.Some? {
        return Err(EventIdCollision(e.eventId, found.value.sequence, e.sequence));
      }
      var expected := CheckedAdd(state.revision, 1);
      if expected.None? {
        return Err(ClientHistoryOverflow);
      }
      if e.sequence != expected.value {
        return Ok(Gap);
      }
      var applied := state.ApplyEvent(e);
      if applied.Err? {
        return Err(EventRefused(applied.error));
      }
      events := events[e.sequence := e];
      return Ok(Applied);
    }

    /** The client's loop over one received batch. */
    method ApplyBatch(batch: EventBatch) returns (r: Result<bool, ReplicaError>)
      modifies this, state
      ensures ReceiveBatch(old(Current()), batch) == Fed(Current(), r)
    {
      var i := 0;
      while i < |batch|
        invariant 0 <= i <= |batch|
        invariant ReceiveBatch(old(Current()), batch) == ReceiveBatch(Current(), batch[i..])
      {
        assert batch[i..][1..] == batch[i + 1..];
        var outcome := ApplyReceivedEvent(batch[i]);
        if outcome.Err? {
          return Err(outcome.error);
        }
        if outcome.value == Gap {
          return Ok(true);
        }
        i := i + 1;
      }
      return Ok(false);
    }
  }
}
