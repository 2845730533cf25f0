/**
 * Validation of V2 transport messages: catch-up pages, live batches and resynchronization notices, and
 * what chains of accepted pages deliver.
 */
module Paging {
  import opened Base
  import opened Domain
  import opened Protocol

  datatype PageMetadata =
    PageMetadata(earliestAvailableSequence: u64, fromSequence: u64, throughSequence: u64, currentSequence: u64,
                 snapshotRevision: Option<u64>, terminal: bool)

  datatype CatchUpPage = CatchUpPage(metadata: PageMetadata, events: seq<SessionEvent>)

  datatype PageError =
    | EmptyPage
    | ZeroSequence
    | Inverted(from: u64, through: u64)
    | EarliestAfterStart(earliest: u64, from: u64)
    | BeyondCurrent(through: u64, current: u64)
    | TerminalMismatch(terminal: bool, through: u64, current: u64)
    | SnapshotBoundary(snapshotRevision: u64, from: u64)
    | EmptyEventRange
    | NonContiguous(expected: u64, actual: u64)
    | RangeEndMismatch(expected: u64, actual: u64)
    | PageOverflow

  /** The part of the V2 messages that carries sequence bounds; the others are always accepted. */
  datatype Message =
    | EventBatchMessage(from: u64, through: u64, batch: seq<SessionEvent>)
    | PageMessage(page: CatchUpPage)
    | ResyncRequired(earliest: u64, current: u64, snapshot: Option<u64>)
    | SnapshotMessage(document: Snapshot)
    | Unbounded

  datatype MessageError =
    | InvalidCatchUpPage(error: PageError)
    | InvalidRecoveryBounds(earliest: u64, current: u64)
    | SnapshotAfterCurrent(snapshot: u64, current: u64)
    | SnapshotBeforeAvailable(snapshot: u64, earliest: u64)
    | InvalidSnapshot(defect: ProtocolError)
    | MessageOverflow

  // ---- Validation ----------------------------------------------------------------------------

  /** The first event from index `i` on that is not where the range says. */
  function CheckRange(from: u64, events: seq<SessionEvent>, i: nat): Result<(), PageError>
    requires i <= |events|
    decreases |events| - i
  {
    if i == |events| then
      Ok(())
    else
      var expected := CheckedAdd(from, i);
      if expected.None? then Err(PageOverflow)
      else if events[i].sequence != expected.value then Err(NonContiguous(expected.value, events[i].sequence))
      else CheckRange(from, events, i + 1)
  }

  function ValidateRange(from: u64, through: u64, events: seq<SessionEvent>): Result<(), PageError> {
    if events == [] then
      Err(EmptyEventRange)
    else
      var _ :- CheckRange(from, events, 0);
      var actual := events[|events| - 1].sequence;
      if actual != through then Err(RangeEndMismatch(through, actual)) else Ok(())
  }

  function ValidatePage(page: CatchUpPage): Result<(), PageError> {
    var m := page.metadata;
    if page.events == [] then
      Err(EmptyPage)
    else if m.earliestAvailableSequence == 0 || m.fromSequence == 0 then
      Err(ZeroSequence)
    else if m.fromSequence > m.throughSequence then
      Err(Inverted(m.fromSequence, m.throughSequence))
    else if m.earliestAvailableSequence > m.fromSequence then
      Err(EarliestAfterStart(m.earliestAvailableSequence, m.fromSequence))
    else if m.throughSequence > m.currentSequence then
      Err(BeyondCurrent(m.throughSequence, m.currentSequence))
    else if m.terminal != (m.throughSequence == m.currentSequence) then
      Err(TerminalMismatch(m.terminal, m.throughSequence, m.currentSequence))
    else
      var _ :- if m.snapshotRevision.None? then Ok(())
               else
                 var expected := CheckedAdd(m.snapshotRevision.value, 1);
                 if expected.None? then Err(PageOverflow)
                 else if m.fromSequence != expected.value
                 then Err(SnapshotBoundary(m.snapshotRevision.value, m.fromSequence))
                 else Ok(());
      ValidateRange(m.fromSequence, m.throughSequence, page.events)
  }

  function ValidateMessage(message: Message): Result<(), MessageError> {
    match message
    case Unbounded => Ok(())
    case EventBatchMessage(from, through, batch) =>
      (match ValidateRange(from, through, batch) case Err(error) => Err(InvalidCatchUpPage(error)) case Ok(_) => Ok(()))
    case PageMessage(page) =>
      (match ValidatePage(page) case Err(error) => Err(InvalidCatchUpPage(error)) case Ok(_) => Ok(()))
    case SnapshotMessage(document) =>
      (match ValidateSnapshot(document) case Err(defect) => Err(InvalidSnapshot(defect)) case Ok(_) => Ok(()))
    case ResyncRequired(earliest, current, snapshot) =>
      if current == U64_MAX then
        Err(MessageOverflow)
      else if earliest == 0 || earliest > current + 1 then
        Err(InvalidRecoveryBounds(earliest, current))
      else if snapshot.None? then
        Ok(())
      else if snapshot.value > current then
        Err(SnapshotAfterCurrent(snapshot.value, current))
      else if snapshot.value + 1 < earliest then
        Err(SnapshotBeforeAvailable(snapshot.value, earliest))
      else
        Ok(())
  }

  // ---- What is accepted ----------------------------------------------------------------------

  /** The events are exactly those numbered `from` through `through`. */
  ghost predicate IsRange(events: seq<SessionEvent>, from: nat, through: int) {
    && |events| == through - from + 1
    && forall i | 0 <= i < |events| :: events[i].sequence == from + i
  }

  lemma {:induction false} CheckRangeMeaning(from: u64, events: seq<SessionEvent>, i: nat)
    requires i <= |events|
    ensures CheckRange(from, events, i).Ok? <==> forall k | i <= k < |events| :: events[k].sequence == from + k
    decreases |events| - i
  {
    if i < |events| {
      var here: u64 := events[i].sequence;
      CheckRangeMeaning(from, events, i + 1);
      assert here == from + i ==> CheckedAdd(from, i) == Some(here);
    }
  }

  /** A range is accepted exactly when it is non-empty and numbers its events from `from` through `through`. */
  lemma {:induction false} RangeMeaning(from: u64, through: u64, events: seq<SessionEvent>)
    ensures ValidateRange(from, through, events).Ok? <==> from <= through && IsRange(events, from, through)
  {
    CheckRangeMeaning(from, events, 0);
  }

  /** A page is accepted exactly when it is this range, within what is available, and says so itself. */
  lemma {:induction false} PageMeaning(page: CatchUpPage)
    ensures var m := page.metadata;
            ValidatePage(page).Ok? <==>
              && 1 <= m.earliestAvailableSequence <= m.fromSequence <= m.throughSequence <= m.currentSequence
              && (m.terminal <==> m.throughSequence == m.currentSequence)
              && (m.snapshotRevision.Some? ==> m.snapshotRevision.value + 1 == m.fromSequence)
              && IsRange(page.events, m.fromSequence, m.throughSequence)
  {
    RangeMeaning(page.metadata.fromSequence, page.metadata.throughSequence, page.events);
  }

  function Contents(pages: seq<CatchUpPage>): seq<SessionEvent> {
    if pages == [] then [] else pages[0].events + Contents(pages[1..])
  }

  /** Accepted pages, each starting right after the one before it, about the same current sequence. */
  ghost predicate Chained(pages: seq<CatchUpPage>, current: u64) {
    && (forall i | 0 <= i < |pages| ::
          ValidatePage(pages[i]).Ok? && pages[i].metadata.currentSequence == current)
    && (forall i | 0 < i < |pages| ::
          pages[i].metadata.fromSequence == pages[i - 1].metadata.throughSequence + 1)
  }

  lemma {:induction false} RangesJoin(a: seq<SessionEvent>, b: seq<SessionEvent>, from: nat, middle: nat, through: int)
    requires IsRange(a, from, middle) && IsRange(b, middle + 1, through)
    ensures IsRange(a + b, from, through)
  {
  }

  lemma {:induction false} ChainTail(pages: seq<CatchUpPage>, current: u64)
    requires |pages| > 1 && Chained(pages, current)
    ensures Chained(pages[1..], current)
    ensures ValidatePage(pages[0]).Ok?
    ensures pages[1..][0].metadata.fromSequence == pages[0].metadata.throughSequence + 1
  {
    var rest := pages[1..];
    assert forall i | 0 <= i < |rest| :: rest[i] == pages[i + 1];
    assert pages[1].metadata.fromSequence == pages[1 - 1].metadata.throughSequence + 1;
  }

  lemma {:induction false} ChainIsRange(pages: seq<CatchUpPage>, current: u64)
    requires pages != [] && Chained(pages, current)
    ensures IsRange(Contents(pages), pages[0].metadata.fromSequence, pages[|pages| - 1].metadata.throughSequence)
    decreases |pages|
  {
    hide ValidatePage, IsRange;
    PageMeaning(pages[0]);
    if |pages| == 1 {
      assert pages[1..] == [] && Contents(pages) == pages[0].events;
    } else {
      hide Chained;
      ChainTail(pages, current);
      ChainIsRange(pages[1..], current);
      RangesJoin(pages[0].events, Contents(pages[1..]), pages[0].metadata.fromSequence,
                 pages[0].metadata.throughSequence, pages[|pages| - 1].metadata.throughSequence);
    }
  }

  /**
   * Page chaining: accepted pages that follow one another about the same current sequence, the last of them
   * terminal, concatenate to exactly the range from the first page's start up to the current sequence, and
   * no page before the last one is terminal.
   */
  lemma {:induction false} PagesDeliverExactlyTheRange(pages: seq<CatchUpPage>, current: u64)
    requires pages != [] && Chained(pages, current) && pages[|pages| - 1].metadata.terminal
    ensures IsRange(Contents(pages), pages[0].metadata.fromSequence, current)
    ensures forall i | 0 <= i < |pages| - 1 :: !pages[i].metadata.terminal
  {
    ChainIsRange(pages, current);
    PageMeaning(pages[|pages| - 1]);
    forall i | 0 <= i < |pages| - 1
      ensures !pages[i].metadata.terminal
    {
      PageMeaning(pages[i]);
      PageMeaning(pages[i + 1]);
      assert pages[i + 1].metadata.fromSequence == pages[i + 1 - 1].metadata.throughSequence + 1;
    }
  }

  ghost predicate Holds(events: seq<SessionEvent>, n: nat) {
    exists i | 0 <= i < |events| :: events[i].sequence == n
  }

  lemma RangeHolds(events: seq<SessionEvent>, from: nat, through: int, n: nat)
    requires IsRange(events, from, through)
    ensures Holds(events, n) <==> from <= n <= through
  {
    if from <= n <= through {
      assert events[n - from].sequence == n;
    }
  }

  /** A catch-up from a snapshot: its pages hold every sequence after the snapshot, and no other. */
  lemma {:induction false} PagesContinueTheirSnapshot(pages: seq<CatchUpPage>, current: u64, n: nat)
    requires pages != [] && Chained(pages, current) && pages[|pages| - 1].metadata.terminal
    requires pages[0].metadata.snapshotRevision.Some?
    ensures Holds(Contents(pages), n) <==> pages[0].metadata.snapshotRevision.value < n <= current
  {
    PagesDeliverExactlyTheRange(pages, current);
    PageMeaning(pages[0]);
    RangeHolds(Contents(pages), pages[0].metadata.fromSequence, current, n);
  }

  /** Which messages are accepted, kind by kind. */
  lemma {:induction false} MessageMeaning(message: Message)
    ensures ValidateMessage(message).Ok? <==>
            match message
            case EventBatchMessage(from, through, batch) => from <= through && IsRange(batch, from, through)
            case PageMessage(page) => ValidatePage(page).Ok?
            case SnapshotMessage(document) => ValidSnapshot(document)
            case ResyncRequired(earliest, current, snapshot) =>
              && current < U64_MAX && 1 <= earliest <= current + 1
              && (snapshot.Some? ==> earliest - 1 <= snapshot.value <= current)
            case Unbounded => true
  {
    match message {
      case EventBatchMessage(from, through, batch) => RangeMeaning(from, through, batch);
      case SnapshotMessage(document) => SnapshotDecides(document);
      case _ =>
    }
    hide ValidateRange, ValidatePage, ValidateSnapshot, ValidSnapshot, IsRange;
  }

  lemma {:induction false} CheckRangeIsTrue(from: u64, events: seq<SessionEvent>, i: nat)
    requires i <= |events| && CheckRange(from, events, i).Err?
    ensures match CheckRange(from, events, i).error
            case NonContiguous(expected, actual) =>
              && i <= expected - from < |events|
              && events[expected - from].sequence == actual && actual != expected
              && forall k | i <= k < expected - from :: events[k].sequence == from + k
            case PageOverflow => from + |events| > U64_MAX
            case _ => false
    decreases |events| - i
  {
    if i < |events| && from + i <= U64_MAX && events[i].sequence == from + i {
      CheckRangeIsTrue(from, events, i + 1);
    }
  }

  /** Every refusal of a page is true of it. */
  lemma {:induction false} PageRefusalIsTrue(page: CatchUpPage)
    requires ValidatePage(page).Err?
    ensures var m, events := page.metadata, page.events;
            match ValidatePage(page).error
            case EmptyPage => events == []
            case ZeroSequence => m.earliestAvailableSequence == 0 || m.fromSequence == 0
            case Inverted(from, through) => from == m.fromSequence && through == m.throughSequence && from > through
            case EarliestAfterStart(earliest, from) =>
              earliest == m.earliestAvailableSequence && from == m.fromSequence && earliest > from
            case BeyondCurrent(through, current) =>
              through == m.throughSequence && current == m.currentSequence && through > current
            case TerminalMismatch(terminal, through, current) =>
              && terminal == m.terminal && through == m.throughSequence && current == m.currentSequence
              && terminal != (through == current)
            case SnapshotBoundary(snapshot, from) =>
              m.snapshotRevision == Some(snapshot) && from == m.fromSequence && from != snapshot + 1
            case NonContiguous(expected, actual) =>
              && m.fromSequence <= expected < m.fromSequence + |events|
              && events[expected - m.fromSequence].sequence == actual && actual != expected
            case RangeEndMismatch(expected, actual) =>
              && expected == m.throughSequence && actual != expected
              && IsRange(events, m.fromSequence, actual)
            case PageOverflow => m.snapshotRevision == Some(U64_MAX) || m.fromSequence + |events| > U64_MAX
            case EmptyEventRange => false
  {
    var m := page.metadata;
    CheckRangeMeaning(m.fromSequence, page.events, 0);
    if CheckRange(m.fromSequence, page.events, 0).Err? {
      CheckRangeIsTrue(m.fromSequence, page.events, 0);
    }
    hide CheckRange;
  }

  /** Every refusal of a resynchronization notice is true of it. */
  lemma {:induction false} ResyncRefusalIsTrue(earliest: u64, current: u64, snapshot: Option<u64>)
    requires ValidateMessage(ResyncRequired(earliest, current, snapshot)).Err?
    ensures match ValidateMessage(ResyncRequired(earliest, current, snapshot)).error
            case MessageOverflow => current == U64_MAX
            case InvalidRecoveryBounds(e, c) => e == earliest && c == current && !(1 <= e <= c + 1)
            case SnapshotAfterCurrent(s, c) => snapshot == Some(s) && c == current && s > c
            case SnapshotBeforeAvailable(s, e) => snapshot == Some(s) && e == earliest && s + 1 < e
            case _ => false
  {
  }

  ghost predicate Retained(earliest: u64, current: u64, n: nat) {
    earliest <= n <= current
  }

  /**
   * A resynchronization notice with a snapshot is accepted exactly when some sequence can still follow the
   * current one, the retained range is proper, the snapshot is not newer than the current sequence, and
   * every sequence after the snapshot up to the current one is retained.
   */
  lemma {:induction false} ResyncLeavesNothingUncovered(earliest: u64, current: u64, snapshot: u64)
    ensures ValidateMessage(ResyncRequired(earliest, current, Some(snapshot))).Ok? <==>
              && current < U64_MAX
              && 1 <= earliest <= current + 1
              && snapshot <= current
              && forall n: nat | snapshot < n <= current :: Retained(earliest, current, n)
  {
    var next: nat := snapshot + 1;
    if next <= current && earliest > next {
      assert !Retained(earliest, current, next);
    }
  }
}
