/**
 * One connection of the host: its subscription to the channel, its cursor `sent`, and what it sends
 * in answer to a hello, a catch-up request, a repeated command, or a receive from the channel.
 */
module Delivery {
  import opened Base
  import opened Domain
  import opened Protocol
  import opened Channels
  import opened Journal
  import opened Host

  /** A connection's position: the next channel batch, and the last sequence it sent. */
  datatype Cursor = Cursor(next: nat, sent: u64)

  /** A message with events, as it leaves the host. */
  datatype Outgoing = Outgoing(fromSequence: u64, events: EventBatch)

  function EventsAfter(events: seq<SessionEvent>, sequence: u64): (after: seq<SessionEvent>)
    ensures forall i | 0 <= i < |after| :: after[i].sequence > sequence
  {
    if events == [] then []
    else (if events[0].sequence > sequence then [events[0]] else []) + EventsAfter(events[1..], sequence)
  }

  /** Of a contiguous run, the events after a sequence are its tail. */
  lemma {:induction false} EventsAfterIsTail(base: nat, events: seq<SessionEvent>, sequence: u64)
    requires Contiguous(base, events)
    ensures EventsAfter(events, sequence) ==
            if sequence <= base then events
            else if sequence <= base + |events| then events[sequence - base..]
            else []
    decreases |events|
  {
    if events != [] {
      assert Contiguous(base + 1, events[1..]);
      EventsAfterIsTail(base + 1, events[1..], sequence);
    }
  }

  function SentBy(events: EventBatch, sent: u64): u64 {
    if events == [] then sent else events[|events| - 1].sequence
  }

  /** The suffix a client asked for, headed by the sequence after the one it named. */
  function Suffix(log: seq<SessionEvent>, after: u64): Option<Outgoing> {
    var batch := EventsAfter(log, after);
    if batch == [] then None
    else assert batch[0].sequence > after; Some(Outgoing(after + 1, batch))
  }

  /** A hello moves the cursor to the announced sequence, and past whatever it is answered with. */
  function Greet(log: seq<SessionEvent>, cursor: Cursor, last: u64): (Cursor, Option<Outgoing>) {
    (cursor.(sent := SentBy(EventsAfter(log, last), last)), Suffix(log, last))
  }

  /** A catch-up request moves the cursor only if there is something to send. */
  function CatchUp(log: seq<SessionEvent>, cursor: Cursor, after: u64): (Cursor, Option<Outgoing>) {
    (cursor.(sent := SentBy(EventsAfter(log, after), cursor.sent)), Suffix(log, after))
  }

  /** A receive from the channel: live events beyond the cursor, or everything beyond it after a lag. */
  function Forward(log: seq<SessionEvent>, channel: Channel, cursor: Cursor): (Cursor, Option<Outgoing>) {
    var (received, next) := Poll(channel, cursor.next);
    match received
    case Nothing => (cursor, None)
    case Lagged => Live(EventsAfter(log, cursor.sent), next, cursor)
    case Batch(events) => Live(events, next, cursor)
  }

  function Live(events: EventBatch, next: nat, cursor: Cursor): (Cursor, Option<Outgoing>) {
    var unsent := EventsAfter(events, cursor.sent);
    (Cursor(next, SentBy(unsent, cursor.sent)),
     if unsent == [] then None else Some(Outgoing(unsent[0].sequence, unsent)))
  }

  // ---- Nothing is skipped --------------------------------------------------------------------

  /** The channel retains the newest batches of the log, none of them empty. */
  ghost predicate HoldsTail(channel: Channel, log: seq<SessionEvent>) {
    && (forall i | 0 <= i < |channel.retained| :: channel.retained[i] != [])
    && |Flatten(channel.retained)| <= |log|
    && Flatten(channel.retained) == log[|log| - |Flatten(channel.retained)|..]
  }

  /** What a receiver at `next` can still get from the channel. */
  ghost function Backlog(channel: Channel, next: nat): seq<SessionEvent>
    requires channel.evicted <= next <= channel.Total()
  {
    Flatten(channel.retained[next - channel.evicted..])
  }

  /**
   * The cursor is not beyond the log, and every committed event beyond the cursor is in the backlog of
   * its receiver, unless a lag is pending that will make the connection ask the log itself.
   */
  ghost predicate Tracks(channel: Channel, log: seq<SessionEvent>, cursor: Cursor) {
    && cursor.sent <= |log|
    && cursor.next <= channel.Total()
    && (cursor.next < channel.evicted || |log| - |Backlog(channel, cursor.next)| <= cursor.sent)
  }

  /** A message is the slice of the log from `fromSequence` through `through`. */
  ghost predicate IsSlice(out: Outgoing, log: seq<SessionEvent>, through: nat) {
    && 1 <= out.fromSequence <= through <= |log|
    && out.events == log[out.fromSequence - 1..through]
  }

  lemma NewChannelHoldsTail(capacity: nat, log: seq<SessionEvent>)
    ensures HoldsTail(NewChannel(capacity), log)
  {
  }

  lemma TailAndMore(log: seq<SessionEvent>, tail: seq<SessionEvent>, more: seq<SessionEvent>)
    requires |tail| <= |log| && tail == log[|log| - |tail|..]
    ensures tail + more == (log + more)[|log + more| - |tail + more|..]
  {
  }

  lemma TailOfTail(log: seq<SessionEvent>, a: seq<SessionEvent>, b: seq<SessionEvent>)
    requires |a + b| <= |log| && a + b == log[|log| - |a + b|..]
    ensures b == log[|log| - |b|..]
  {
    assert b == (a + b)[|a|..];
  }

  /** Committing a batch: the channel still holds the tail of the log, whether or not it evicted. */
  lemma {:induction false} SendHoldsTail(channel: Channel, log: seq<SessionEvent>, batch: EventBatch)
    requires HoldsTail(channel, log) && batch != []
    ensures HoldsTail(Send(channel, batch), log + batch)
  {
    var all := channel.retained + [batch];
    hide Flatten;
    FlattenConcat(channel.retained, [batch]);
    FlattenOne(batch);
    TailAndMore(log, Flatten(channel.retained), batch);
    if |all| > channel.capacity {
      assert all == [all[0]] + all[1..];
      FlattenConcat([all[0]], all[1..]);
      FlattenOne(all[0]);
      TailOfTail(log + batch, all[0], Flatten(all[1..]));
    }
  }

  lemma BacklogAfterSend(channel: Channel, batch: EventBatch, next: nat)
    requires channel.evicted <= next <= channel.Total()
    ensures next <= Send(channel, batch).Total()
    ensures Send(channel, batch).evicted <= next ==>
              Backlog(Send(channel, batch), next) == Backlog(channel, next) + batch
  {
    var rest := channel.retained[next - channel.evicted..];
    FlattenConcat(rest, [batch]);
    FlattenOne(batch);
    var sent := Send(channel, batch);
    if sent.evicted <= next {
      assert sent.retained[next - sent.evicted..] == rest + [batch];
    }
  }

  /** A commit loses nothing for a connection that tracks, even when its batches are evicted. */
  lemma {:induction false} CommitKeepsTracking(channel: Channel, log: seq<SessionEvent>, cursor: Cursor,
                                               batch: EventBatch)
    requires Tracks(channel, log, cursor)
    ensures Tracks(Send(channel, batch), log + batch, cursor)
  {
    if channel.evicted <= cursor.next {
      BacklogAfterSend(channel, batch, cursor.next);
    }
  }

  lemma EventsAfterOfSlice(log: seq<SessionEvent>, a: nat, b: nat, sequence: u64)
    requires Contiguous(0, log) && a <= b <= |log| && a <= sequence
    ensures EventsAfter(log[a..b], sequence) == if sequence < b then log[sequence..b] else []
  {
    assert Contiguous(a, log[a..b]);
    EventsAfterIsTail(a, log[a..b], sequence);
    hide EventsAfter, Contiguous;
    if sequence < b {
      assert log[a..b][sequence - a..] == log[sequence..b];
    }
  }

  /** A slice sent under its first sequence leaves the cursor at its last. */
  lemma SendsSlice(log: seq<SessionEvent>, a: u64, b: nat)
    requires Contiguous(0, log) && a < b <= |log|
    ensures var batch := log[a..b];
            && batch != [] && batch[0].sequence == a + 1 && SentBy(batch, a) == b
            && IsSlice(Outgoing(a + 1, batch), log, b)
    ensures forall sent: u64 :: SentBy(log[a..b], sent) == b
  {
    assert log[a..b][0] == log[a] && log[a..b][b - a - 1] == log[b - 1];
  }

  /** The answer to a request for a suffix is the slice from there to the end of the log. */
  lemma {:induction false} SuffixIsSlice(log: seq<SessionEvent>, after: u64)
    requires Contiguous(0, log) && |log| <= U64_MAX
    ensures Suffix(log, after).Some? <==> after < |log|
    ensures after < |log| ==>
              IsSlice(Suffix(log, after).value, log, |log|) && Suffix(log, after).value.fromSequence == after + 1
    ensures forall sent: u64 :: SentBy(EventsAfter(log, after), sent) == if after < |log| then |log| else sent
  {
    hide EventsAfter, Contiguous, IsSlice;
    assert log[0..|log|] == log;
    EventsAfterOfSlice(log, 0, |log|, after);
    if after < |log| {
      SendsSlice(log, after, |log|);
    }
  }

  /**
   * After a hello the connection tracks exactly when the announced sequence is not beyond the log, and
   * then it has been sent everything.
   */
  lemma {:induction false} HelloTracksExactly(channel: Channel, log: seq<SessionEvent>, cursor: Cursor, last: u64)
    requires Contiguous(0, log) && |log| <= U64_MAX && cursor.next <= channel.Total()
    ensures var (after, out) := Greet(log, cursor, last);
            && (Tracks(channel, log, after) <==> last <= |log|)
            && (last <= |log| ==> after.sent == |log| && (out.None? <==> last == |log|))
            && (out.Some? ==> IsSlice(out.value, log, |log|) && out.value.fromSequence == last + 1)
  {
    SuffixIsSlice(log, last);
  }

  lemma ContiguousParts(log: seq<SessionEvent>, batch: EventBatch)
    requires Contiguous(0, log + batch)
    ensures Contiguous(0, log) && Contiguous(|log|, batch)
  {
    assert forall i | 0 <= i < |log| :: log[i] == (log + batch)[i];
    assert forall i | 0 <= i < |batch| :: batch[i] == (log + batch)[|log| + i];
  }

  lemma NothingAfter(base: nat, events: seq<SessionEvent>, sequence: u64)
    requires Contiguous(base, events) && base + |events| <= sequence
    ensures EventsAfter(events, sequence) == []
  {
    EventsAfterIsTail(base, events, sequence);
    if sequence <= base {
      assert events == [];
    } else if sequence <= base + |events| {
      assert events[sequence - base..] == [];
    }
  }

  /** A receiver that is up to date gets the next batch sent. */
  lemma NewestIsReceived(channel: Channel, batch: EventBatch)
    requires channel.capacity > 0
    ensures Poll(Send(channel, batch), channel.Total()) == (Received.Batch(batch), channel.Total() + 1)
  {
  }

  /** A hello beyond the log does skip: the events up to the announced sequence are consumed unsent. */
  lemma {:induction false} HelloBeyondLogSkips(channel: Channel, log: seq<SessionEvent>, next: nat, last: u64,
                                               batch: EventBatch)
    requires Contiguous(0, log + batch) && |log + batch| <= last && batch != []
    requires next == channel.Total() && channel.capacity > 0
    ensures var (after, _) := Greet(log, Cursor(next, 0), last);
            Forward(log + batch, Send(channel, batch), after) == (Cursor(next + 1, last), None)
  {
    hide EventsAfter, Contiguous, Send, Poll, Suffix;
    ContiguousParts(log, batch);
    NothingAfter(0, log, last);
    NothingAfter(|log|, batch, last);
    NewestIsReceived(channel, batch);
    assert Greet(log, Cursor(next, 0), last).0 == Cursor(next, last);
  }

  /** A catch-up request keeps tracking, whatever sequence it names, and its answer starts right after it. */
  lemma {:induction false} CatchUpKeepsTracking(channel: Channel, log: seq<SessionEvent>, cursor: Cursor, after: u64)
    requires Contiguous(0, log) && |log| <= U64_MAX && Tracks(channel, log, cursor)
    ensures var (moved, out) := CatchUp(log, cursor, after);
            && Tracks(channel, log, moved)
            && (out.Some? <==> after < |log|)
            && (out.Some? ==> moved.sent == |log| && IsSlice(out.value, log, |log|)
                              && out.value.fromSequence == after + 1)
            && (out.None? ==> moved == cursor)
  {
    SuffixIsSlice(log, after);
  }

  /** The events beyond the cursor in a slice of the log that reaches back to the cursor. */
  lemma {:induction false} LiveSlice(log: seq<SessionEvent>, a: nat, b: nat, next: nat, cursor: Cursor)
    requires Contiguous(0, log) && |log| <= U64_MAX && a <= b <= |log| && a <= cursor.sent <= |log|
    ensures var (moved, out) := Live(log[a..b], next, cursor);
            && moved == Cursor(next, if b <= cursor.sent then cursor.sent else b)
            && (out.Some? <==> cursor.sent < b)
            && (out.Some? ==> IsSlice(out.value, log, b) && out.value.fromSequence == cursor.sent + 1)
  {
    hide EventsAfter, Contiguous, IsSlice;
    EventsAfterOfSlice(log, a, b, cursor.sent);
    if cursor.sent < b {
      SendsSlice(log, cursor.sent, b);
    }
  }

  /** The next retained batch is the slice of the log that the backlog begins with. */
  lemma NextBatchIsSlice(channel: Channel, log: seq<SessionEvent>, next: nat)
    requires HoldsTail(channel, log) && channel.evicted <= next < channel.Total()
    ensures var batch := channel.retained[next - channel.evicted];
            var a := |log| - |Backlog(channel, next)|;
            && 0 <= a && a + |batch| <= |log|
            && batch == log[a..a + |batch|]
            && |Backlog(channel, next + 1)| == |Backlog(channel, next)| - |batch|
  {
    var k := next - channel.evicted;
    var before, rest := channel.retained[..k], channel.retained[k..];
    assert channel.retained == before + rest;
    FlattenConcat(before, rest);
    assert rest[1..] == channel.retained[k + 1..];
    var all := Flatten(channel.retained);
    assert Flatten(rest) == all[|Flatten(before)|..];
    assert Flatten(rest) == rest[0] + Flatten(rest[1..]);
    assert rest[0] == Flatten(rest)[..|rest[0]|];
  }

  /** What forwarding owes a connection that tracks. */
  ghost predicate Continues(log: seq<SessionEvent>, cursor: Cursor, moved: Cursor, out: Option<Outgoing>) {
    && cursor.sent <= moved.sent
    && (out.Some? <==> cursor.sent < moved.sent)
    && (out.Some? ==> IsSlice(out.value, log, moved.sent) && out.value.fromSequence == cursor.sent + 1)
  }

  lemma LaggedSkipsNothing(channel: Channel, log: seq<SessionEvent>, cursor: Cursor)
    requires Contiguous(0, log) && |log| <= U64_MAX
    requires HoldsTail(channel, log) && Tracks(channel, log, cursor) && cursor.next < channel.evicted
    ensures var (moved, out) := Forward(log, channel, cursor);
            Tracks(channel, log, moved) && Continues(log, cursor, moved, out)
  {
    hide HoldsTail, EventsAfter, Live, SentBy, Contiguous, IsSlice, Flatten;
    EventsAfterIsTail(0, log, cursor.sent);
    LiveSlice(log, cursor.sent, |log|, channel.evicted, cursor);
    assert EventsAfter(log, cursor.sent) == log[cursor.sent..|log|];
  }

  lemma BatchSkipsNothing(channel: Channel, log: seq<SessionEvent>, cursor: Cursor)
    requires Contiguous(0, log) && |log| <= U64_MAX
    requires HoldsTail(channel, log) && Tracks(channel, log, cursor)
    requires channel.evicted <= cursor.next < channel.Total()
    ensures var (moved, out) := Forward(log, channel, cursor);
            Tracks(channel, log, moved) && Continues(log, cursor, moved, out)
  {
    hide HoldsTail, EventsAfter, Live, SentBy, Contiguous, IsSlice, Flatten, Backlog;
    NextBatchIsSlice(channel, log, cursor.next);
    var batch := channel.retained[cursor.next - channel.evicted];
    var a := |log| - |Backlog(channel, cursor.next)|;
    LiveSlice(log, a, a + |batch|, cursor.next + 1, cursor);
    assert Forward(log, channel, cursor) == Live(batch, cursor.next + 1, cursor);
  }

  /**
   * No skipped range: whatever was committed, evicted, caught up or repeated in between, what a tracking
   * connection forwards next is a slice of the log that begins exactly one after its cursor, and it goes
   * on tracking.
   */
  lemma {:induction false} ForwardSkipsNothing(channel: Channel, log: seq<SessionEvent>, cursor: Cursor)
    requires Contiguous(0, log) && |log| <= U64_MAX
    requires HoldsTail(channel, log) && Tracks(channel, log, cursor)
    ensures var (moved, out) := Forward(log, channel, cursor);
            && Tracks(channel, log, moved)
            && cursor.sent <= moved.sent
            && (out.Some? <==> cursor.sent < moved.sent)
            && (out.Some? ==> IsSlice(out.value, log, moved.sent) && out.value.fromSequence == cursor.sent + 1)
  {
    if cursor.next < channel.evicted {
      LaggedSkipsNothing(channel, log, cursor);
    } else if cursor.next < channel.Total() {
      BatchSkipsNothing(channel, log, cursor);
    }
  }

  /** A tracking connection with nothing left to receive has sent the whole log. */
  lemma {:induction false} DrainedHasSentAll(channel: Channel, log: seq<SessionEvent>, cursor: Cursor)
    requires Tracks(channel, log, cursor) && Poll(channel, cursor.next).0.Nothing?
    ensures cursor.sent == |log|
  {
    assert channel.retained[cursor.next - channel.evicted..] == [];
  }

  // ---- The connection ------------------------------------------------------------------------

  datatype Answer = Silence | Events(out: Outgoing) | Rejection(reason: HostRejection) | SenderMismatch(revision: u64)

  function Answering(out: Option<Outgoing>): Answer {
    if out.None? then Silence else Events(out.value)
  }

  /** The host's state machine for one connection. */
  class Connection {
    const host: RunningHost
    var participant: Option<ParticipantId>
    var sentSequence: u64
    var next: nat

    function Position(): Cursor
      reads this
    {
      Cursor(next, sentSequence)
    }

    /** Subscribes: batches sent from now on will be received. */
    constructor (host: RunningHost)
      ensures this.host == host && participant == None
      ensures Position() == Cursor(host.channel.Total(), 0)
    {
      this.host := host;
      participant, sentSequence, next := None, 0, host.channel.Total();
    }

    method OnHello(lastSequence: u64) returns (answer: Answer)
      modifies this`sentSequence
      ensures var (moved, out) := Greet(host.events, old(Position()), lastSequence);
              Position() == moved && answer == Answering(out)
    {
      sentSequence := lastSequence;
      var batch := EventsAfter(host.events, lastSequence);
      if batch == [] {
        return Silence;
      }
      assert batch[0].sequence > lastSequence;
      sentSequence := batch[|batch| - 1].sequence;
      return Events(Outgoing(lastSequence + 1, batch));
    }

    method OnCatchUpRequest(afterSequence: u64) returns (answer: Answer)
      modifies this`sentSequence
      ensures var (moved, out) := CatchUp(host.events, old(Position()), afterSequence);
              Position() == moved && answer == Answering(out)
    {
      var batch := EventsAfter(host.events, afterSequence);
      if batch == [] {
        return Silence;
      }
      assert batch[0].sequence > afterSequence;
      sentSequence := batch[|batch| - 1].sequence;
      return Events(Outgoing(afterSequence + 1, batch));
    }

    method OnBroadcast() returns (answer: Answer)
      modifies this`sentSequence, this`next
      ensures var (moved, out) := Forward(host.events, host.channel, old(Position()));
              Position() == moved && answer == Answering(out)
    {
      var (received, following) := Poll(host.channel, next);
      var events: EventBatch := [];
      match received {
        case Nothing =>
          return Silence;
        case Lagged =>
          events := EventsAfter(host.events, sentSequence);
        case Batch(batch) =>
          events := batch;
      }
      next := following;
      events := EventsAfter(events, sentSequence);
      if events == [] {
        return Silence;
      }
      sentSequence := events[|events| - 1].sequence;
      return Events(Outgoing(events[0].sequence, events));
    }

    /** A repeated command is answered with its events, and the cursor stays where it was. */
    method OnSubmit(sender: ParticipantId, request: CommandRequest, disk: Disk) returns (answer: Answer)
      modifies host, host.journal
      ensures Position() == old(Position())
      ensures if participant != Some(sender) || request.actor != sender
              then answer == SenderMismatch(old(host.state.revision)) && unchanged(host) && unchanged(host.journal)
              else exists r :: host.Carried(PlanSubmit(host.sessionId, host.engine, old(host.Session()), request),
                                            disk, r)
                            && answer == match r
                                         case Err(rejection) => Rejection(rejection)
                                         case Ok(submission) =>
                                           if submission.duplicate && submission.events != []
                                           then Events(Outgoing(submission.events[0].sequence, submission.events))
                                           else Silence
    {
      if participant != Some(sender) || request.actor != sender {
        return SenderMismatch(host.state.revision);
      }
      var r := host.Submit(request, disk);
      match r {
        case Err(rejection) =>
          answer := Rejection(rejection);
        case Ok(submission) =>
          answer := if submission.duplicate && submission.events != []
                    then Events(Outgoing(submission.events[0].sequence, submission.events))
                    else Silence;
      }
    }

    method OnJoin(sender: ParticipantId, displayName: string, messageId: MessageId, disk: Disk)
      returns (answer: Answer)
      modifies this`participant, host, host.journal
      ensures Position() == old(Position()) && participant == Some(sender)
      ensures exists r :: host.Carried(PlanJoin(host.sessionId, old(host.Session()), sender, displayName, messageId),
                                       disk, r)
                       && answer == match r case Err(rejection) => Rejection(rejection) case Ok(_) => Silence
    {
      participant := Some(sender);
      var r := host.JoinSession(sender, displayName, messageId, disk);
      assert host.Carried(PlanJoin(host.sessionId, old(host.Session()), sender, displayName, messageId), disk, r);
      answer := match r case Err(rejection) => Rejection(rejection) case Ok(_) => Silence;
    }
  }
}
