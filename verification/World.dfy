/**
 * The whole system as one state machine: a host process that may crash at any byte of an append and
 * restart, its journal on disk, its channel and connections, clients that save and reload, and a
 * network that may also lose, repeat and reorder anything the host ever sent. The invariant below
 * holds in every reachable state.
 */
module World {
  import opened Base
  import opened Domain
  import opened Protocol
  import opened Runtime
  import opened Journal
  import opened Channels
  import opened Host
  import opened Delivery
  import opened Replicas
  import T = Text
  import SessionHistory

  type ClientId = string
  type ConnectionId = nat

  /** What does not change during a run. */
  datatype Setting = Setting(codec: Codec, sessionId: SessionId, engine: Engine, capacity: nat)

  datatype Process = Down | Up(session: Canonical, channel: Channel)

  /** A client between two batches: its replica and the document it saved last. */
  datatype Client = Client(replica: Replica, file: ClientFile)

  /**
   * A connection of one client: the host's cursor, whether the hello has been handled and what it
   * announced, the catch-up requests under way, and the batches under way to the client, in order.
   */
  datatype Link =
    Link(client: ClientId, cursor: Cursor, greeted: bool, hello: u64, asks: set<u64>, pipe: seq<EventBatch>)

  datatype World =
    World(journal: seq<byte>, process: Process, links: map<ConnectionId, Link>, wire: set<EventBatch>,
          clients: map<ClientId, Client>, failed: bool)

  datatype Step =
    | StartHost(disk: Disk)
    | CrashHost
    | JoinHost(participant: ParticipantId, displayName: string, messageId: MessageId, disk: Disk)
    | SubmitToHost(link: ConnectionId, request: CommandRequest, disk: Disk)
    | Dial(link: ConnectionId, client: ClientId)
    | HandleHello(link: ConnectionId)
    | AskCatchUp(link: ConnectionId)
    | HandleCatchUp(link: ConnectionId, after: u64)
    | ForwardBroadcast(link: ConnectionId)
    | Consume(link: ConnectionId)
    | Stray(client: ClientId, batch: EventBatch)
    | HangUp(link: ConnectionId)
    | RestartClient(client: ClientId)

  // ---- Steps ---------------------------------------------------------------------------------

  /** A plan carried out; a torn append is a crash of the process. */
  function CarryOut(setting: Setting, w: World, plan: Plan, disk: Disk): World
    requires w.process.Up?
  {
    match plan
    case Refuse(_) => w
    case Reply(_) => w
    case Commit(candidate, command) =>
      var journal := w.journal + Written(BatchLine(setting.codec, [command]), disk);
      if disk.Synced? then
        w.(journal := journal,
           process := Up(Committed(w.process.session, candidate, command),
                         Channels.Send(w.process.channel, command.events)))
      else
        w.(journal := journal, process := Down, links := map[])
  }

  /** The host sends a batch on a link, and moves the link's cursor. */
  function Emit(w: World, id: ConnectionId, link: Link, cursor: Cursor, out: Option<Outgoing>): World {
    match out
    case None => w.(links := w.links[id := link.(cursor := cursor)])
    case Some(message) =>
      w.(links := w.links[id := link.(cursor := cursor, pipe := link.pipe + [message.events])],
         wire := w.wire + {message.events})
  }

  /** A client takes a batch and saves; an error stops it, which is recorded. */
  function Take(w: World, id: ClientId, batch: EventBatch): World
    requires id in w.clients
  {
    var fed := ReceiveBatch(w.clients[id].replica, batch);
    if fed.outcome.Err?
    then w.(failed := true)
    else w.(clients := w.clients[id := Client(fed.replica, V1(Save(fed.replica)))])
  }

  function Start(setting: Setting, w: World, disk: Disk): World {
    var started := Startup(setting.codec, setting.sessionId, w.journal, disk);
    w.(journal := started.journal,
       process := if started.outcome.Err? then Down else Up(started.outcome.value, NewChannel(setting.capacity)))
  }

  /** A submission on a link: a repeated command is answered on that link, anything else is carried out. */
  function Submitted(setting: Setting, w: World, id: ConnectionId, request: CommandRequest, disk: Disk): World
    requires w.process.Up? && id in w.links
  {
    var plan := PlanSubmit(setting.sessionId, setting.engine, w.process.session, request);
    if plan.Reply? && plan.submission.duplicate && plan.submission.events != []
    then Emit(w, id, w.links[id], w.links[id].cursor,
              Some(Outgoing(plan.submission.events[0].sequence, plan.submission.events)))
    else CarryOut(setting, w, plan, disk)
  }

  /** The links of everyone but one client. */
  function LinksWithout(links: map<ConnectionId, Link>, client: ClientId): map<ConnectionId, Link> {
    map id | id in links && links[id].client != client :: links[id]
  }

  /** One step; a step that is not possible in `w` leaves it as it is. */
  function Next(setting: Setting, w: World, step: Step): World {
    match step
    case StartHost(disk) =>
      if w.process.Up? then w else Start(setting, w, disk)
    case CrashHost =>
      w.(process := Down, links := map[])
    case JoinHost(participant, displayName, messageId, disk) =>
      if w.process.Down? then w
      else
        var plan := PlanJoin(setting.sessionId, w.process.session, participant, displayName, messageId);
        CarryOut(setting, w, plan, disk)
    case SubmitToHost(id, request, disk) =>
      if w.process.Down? || id !in w.links then w
      else Submitted(setting, w, id, request, disk)
    case Dial(id, client) =>
      if w.process.Down? || id in w.links || client !in w.clients then w
      else w.(links := w.links[id := Link(client, Cursor(w.process.channel.Total(), 0), false,
                                          w.clients[client].replica.state.revision, {}, [])])
    case HandleHello(id) =>
      if w.process.Down? || id !in w.links || w.links[id].greeted then w
      else
        var link := w.links[id];
        var (cursor, out) := Greet(w.process.session.events, link.cursor, link.hello);
        Emit(w, id, link.(greeted := true), cursor, out)
    case AskCatchUp(id) =>
      if id !in w.links || w.links[id].client !in w.clients then w
      else
        var link := w.links[id];
        w.(links := w.links[id := link.(asks := link.asks + {w.clients[link.client].replica.state.revision})])
    case HandleCatchUp(id, after) =>
      if w.process.Down? || id !in w.links || !w.links[id].greeted || after !in w.links[id].asks then w
      else
        var link := w.links[id];
        var (cursor, out) := CatchUp(w.process.session.events, link.cursor, after);
        Emit(w, id, link.(asks := link.asks - {after}), cursor, out)
    case ForwardBroadcast(id) =>
      if w.process.Down? || id !in w.links then w
      else
        var link := w.links[id];
        var (cursor, out) := Forward(w.process.session.events, w.process.channel, link.cursor);
        Emit(w, id, link, cursor, out)
    case Consume(id) =>
      if id !in w.links || w.links[id].pipe == [] || w.links[id].client !in w.clients then w
      else
        var link := w.links[id];
        Take(w.(links := w.links[id := link.(pipe := link.pipe[1..])]), link.client, link.pipe[0])
    case Stray(client, batch) =>
      if client !in w.clients || batch !in w.wire then w else Take(w, client, batch)
    case HangUp(id) =>
      w.(links := w.links - {id})
    case RestartClient(client) =>
      if client !in w.clients then w
      else
        var loaded := LoadReplica(setting.sessionId, w.clients[client].file);
        if loaded.Err? then w.(failed := true)
        else w.(clients := w.clients[client := w.clients[client].(replica := loaded.value)],
                links := LinksWithout(w.links, client))
  }

  function Run(setting: Setting, w: World, steps: seq<Step>): World
    decreases |steps|
  {
    if steps == [] then w else Run(setting, Next(setting, w, steps[0]), steps[1..])
  }

  /** Before anything happened: any journal, no host, and clients that know nothing. */
  ghost predicate Initial(setting: Setting, w: World) {
    && w.process.Down? && w.links == map[] && w.wire == {} && !w.failed
    && forall id | id in w.clients :: w.clients[id] == Client(UninitializedReplica(setting.sessionId), NoFile)
  }

  // ---- The invariant -------------------------------------------------------------------------

  /** The canonical log: the events the journal on disk is worth. */
  ghost function Log(setting: Setting, journal: seq<byte>): seq<SessionEvent> {
    match Recovered(setting.codec, setting.sessionId, journal)
    case None => []
    case Some(c) => c.events
  }

  /** A contiguous, non-empty piece of the log, where its sequences say it is. */
  ghost predicate PieceOf(batch: EventBatch, log: seq<SessionEvent>) {
    && batch != []
    && 1 <= batch[0].sequence
    && batch[0].sequence - 1 + |batch| <= |log|
    && batch == log[batch[0].sequence - 1..batch[0].sequence - 1 + |batch|]
  }

  ghost predicate FileIsPrefix(file: ClientFile, sessionId: SessionId, log: seq<SessionEvent>) {
    LoadReplica(sessionId, file).Ok? && PrefixOf(LoadReplica(sessionId, file).value, sessionId, log)
  }

  ghost predicate ClientsArePrefixes(clients: map<ClientId, Client>, sessionId: SessionId, log: seq<SessionEvent>) {
    forall id | id in clients ::
      PrefixOf(clients[id].replica, sessionId, log) && FileIsPrefix(clients[id].file, sessionId, log)
  }

  ghost predicate WireIsCanonical(wire: set<EventBatch>, log: seq<SessionEvent>) {
    forall batch | batch in wire :: PieceOf(batch, log)
  }

  /** The revision a client will have reached when it has consumed a pipe of pieces. */
  function Reach(revision: nat, pipe: seq<EventBatch>): nat
    decreases |pipe|
  {
    if pipe == [] then revision else Reach(ReachOne(revision, pipe[0]), pipe[1..])
  }

  function ReachOne(revision: nat, batch: EventBatch): nat {
    if batch == [] || batch[0].sequence > revision + 1 || batch[0].sequence - 1 + |batch| <= revision
    then revision else batch[0].sequence - 1 + |batch|
  }

  /** What a link owes: its cursor misses nothing, and its client will have what the cursor passed. */
  ghost predicate LinkDelivers(link: Link, wire: set<EventBatch>, clients: map<ClientId, Client>, channel: Channel,
                               log: seq<SessionEvent>)
  {
    && link.client in clients
    && var revision := clients[link.client].replica.state.revision;
    && link.cursor.next <= channel.Total()
    && link.hello <= revision
    && (forall a | a in link.asks :: a <= revision)
    && (forall i | 0 <= i < |link.pipe| :: link.pipe[i] in wire)
    && (link.greeted ==> Tracks(channel, log, link.cursor) && link.cursor.sent <= Reach(revision, link.pipe))
  }

  ghost predicate HostIsConsistent(setting: Setting, w: World) {
    match w.process
    case Down => w.links == map[]
    case Up(session, channel) =>
      && Consistent(setting.codec, setting.sessionId, session, w.journal)
      && HoldsTail(channel, session.events)
      && forall id | id in w.links :: LinkDelivers(w.links[id], w.wire, w.clients, channel, session.events)
  }

  /** The system invariant. */
  ghost predicate Inv(setting: Setting, w: World) {
    var log := Log(setting, w.journal);
    && !w.failed
    && GoodLog(setting.sessionId, log)
    && HostIsConsistent(setting, w)
    && WireIsCanonical(w.wire, log)
    && ClientsArePrefixes(w.clients, setting.sessionId, log)
  }

  ghost predicate Proper(setting: Setting) {
    Lawful(setting.codec) && !T.Blank(setting.sessionId)
  }

  // ---- The log only grows --------------------------------------------------------------------

  lemma LogIsGood(setting: Setting, journal: seq<byte>)
    ensures GoodLog(setting.sessionId, Log(setting, journal))
  {
    if Recovered(setting.codec, setting.sessionId, journal).Some? {
      RecoveredIsConsistent(setting.codec, setting.sessionId,
                            Recovered(setting.codec, setting.sessionId, journal).value, journal);
    }
  }

  lemma ConsistentLog(setting: Setting, c: Canonical, journal: seq<byte>)
    requires Consistent(setting.codec, setting.sessionId, c, journal)
    ensures Recovered(setting.codec, setting.sessionId, journal) == Some(c)
    ensures Log(setting, journal) == c.events
    ensures GoodLog(setting.sessionId, c.events) && |c.events| <= U64_MAX
  {
    SafePrefixOfTerminated(journal);
    RecoveredIsConsistent(setting.codec, setting.sessionId, c, journal);
    assert c.events[|c.events| - 1].sequence == |c.events|;
  }

  lemma PieceOfLonger(batch: EventBatch, log: seq<SessionEvent>, longer: seq<SessionEvent>)
    requires PieceOf(batch, log) && log <= longer
    ensures PieceOf(batch, longer)
  {
  }

  lemma WireOfLonger(wire: set<EventBatch>, log: seq<SessionEvent>, longer: seq<SessionEvent>)
    requires WireIsCanonical(wire, log) && log <= longer
    ensures WireIsCanonical(wire, longer)
  {
    forall batch | batch in wire
      ensures PieceOf(batch, longer)
    {
      PieceOfLonger(batch, log, longer);
    }
  }

  lemma ClientsOfLonger(clients: map<ClientId, Client>, sessionId: SessionId, log: seq<SessionEvent>,
                        longer: seq<SessionEvent>)
    requires ClientsArePrefixes(clients, sessionId, log) && log <= longer
    ensures ClientsArePrefixes(clients, sessionId, longer)
  {
    hide PrefixOf, LoadReplica;
    forall id | id in clients
      ensures PrefixOf(clients[id].replica, sessionId, longer) && FileIsPrefix(clients[id].file, sessionId, longer)
    {
      PrefixOfLonger(clients[id].replica, sessionId, log, longer);
      PrefixOfLonger(LoadReplica(sessionId, clients[id].file).value, sessionId, log, longer);
    }
  }

  /** What one step may do to the recoverable session: nothing, the bootstrap, or one planned receipt. */
  ghost predicate Grows(setting: Setting, before: Option<Canonical>, after: Option<Canonical>) {
    || after == before
    || (before.None? && after == Some(Bootstrapped(setting.sessionId)))
    || (before.Some? && exists plan ::
          && Planned(setting, before.value, plan)
          && after == Some(Committed(before.value, plan.candidate, plan.command)))
  }

  /** A commit that some call to the host plans in session `c`. */
  ghost predicate Planned(setting: Setting, c: Canonical, plan: Plan) {
    && plan.Commit?
    && (|| (exists request :: plan == PlanSubmit(setting.sessionId, setting.engine, c, request))
        || (exists participant, displayName, messageId ::
              plan == PlanJoin(setting.sessionId, c, participant, displayName, messageId)))
  }

  lemma PlannedMayFollow(setting: Setting, c: Canonical, plan: Plan)
    requires Planned(setting, c, plan)
    ensures MayFollow(setting.sessionId, c, plan.candidate, plan.command)
  {
    hide MayFollow, PlanSubmit, PlanJoin;
    if request :| plan == PlanSubmit(setting.sessionId, setting.engine, c, request) {
      SubmitCommits(setting.sessionId, setting.engine, c, request);
    } else {
      var participant, displayName, messageId :|
        plan == PlanJoin(setting.sessionId, c, participant, displayName, messageId);
      JoinCommits(setting.sessionId, c, participant, displayName, messageId);
    }
  }

  // ---- Each step keeps the invariant ---------------------------------------------------------

  /** A start brings up exactly what the journal is worth, or bootstraps, or fails. */
  lemma {:induction false} StartRecovers(setting: Setting, w: World, disk: Disk)
    requires Proper(setting)
    ensures var next := Start(setting, w, disk);
            var before := Recovered(setting.codec, setting.sessionId, w.journal);
            var after := Recovered(setting.codec, setting.sessionId, next.journal);
            && (after == before || (before.None? && after == Some(Bootstrapped(setting.sessionId))))
            && (next.process.Up? ==> Consistent(setting.codec, setting.sessionId, next.process.session, next.journal))
  {
    hide Consistent, Replay, Decide, ReplayLog, BatchLine, Bootstrapped;
    var codec, sessionId := setting.codec, setting.sessionId;
    var started := Startup(codec, sessionId, w.journal, disk);
    var safe := SafePrefix(w.journal);
    if started.outcome.Ok? {
      StartupEstablishes(codec, sessionId, w.journal, disk);
      ConsistentIsRecovered(codec, sessionId, started.outcome.value, started.journal);
    } else if ReadLines(codec, safe).Ok? && ReadLines(codec, safe).value.events == [] {
      TornAppend(codec, safe, [BOOTSTRAP], disk);
      var left := safe + Written(BatchLine(codec, [BOOTSTRAP]), disk);
      if Written(BatchLine(codec, [BOOTSTRAP]), disk) == BatchLine(codec, [BOOTSTRAP]) {
        BootstrapEstablishes(codec, sessionId, safe);
        ConsistentIsRecovered(codec, sessionId, Bootstrapped(sessionId), left);
      } else {
        assert SafePrefix(left) == safe;
      }
    }
  }

  lemma ConsistentIsRecovered(codec: Codec, sessionId: SessionId, c: Canonical, journal: seq<byte>)
    requires Consistent(codec, sessionId, c, journal)
    ensures Recovered(codec, sessionId, journal) == Some(c)
  {
    SafePrefixOfTerminated(journal);
    RecoveredIsConsistent(codec, sessionId, c, journal);
  }

  /** Carrying out a planned commit, durably or torn, extends what the journal is worth by it or not at all. */
  lemma {:induction false} CommitRecovers(setting: Setting, c: Canonical, journal: seq<byte>, plan: Plan, disk: Disk)
    requires Proper(setting)
    requires Consistent(setting.codec, setting.sessionId, c, journal) && Planned(setting, c, plan)
    ensures var line := BatchLine(setting.codec, [plan.command]);
            var left := journal + Written(line, disk);
            var next := Committed(c, plan.candidate, plan.command);
            && (disk.Synced? ==> Consistent(setting.codec, setting.sessionId, next, left))
            && Recovered(setting.codec, setting.sessionId, left)
               == Some(if Written(line, disk) == line then next else c)
  {
    hide Consistent;
    PlannedMayFollow(setting, c, plan);
    var codec, sessionId := setting.codec, setting.sessionId;
    var line := BatchLine(codec, [plan.command]);
    var left := journal + Written(line, disk);
    CommitKeepsConsistent(codec, sessionId, c, journal, plan.candidate, plan.command);
    if Written(line, disk) == line {
      ConsistentIsRecovered(codec, sessionId, Committed(c, plan.candidate, plan.command), left);
    } else {
      assert Terminated(journal) by { ConsistentIsTerminated(codec, sessionId, c, journal); }
      TornAppend(codec, journal, [plan.command], disk);
      assert SafePrefix(left) == journal;
      RecoveredIsConsistent(codec, sessionId, c, left);
    }
  }

  lemma ConsistentIsTerminated(codec: Codec, sessionId: SessionId, c: Canonical, journal: seq<byte>)
    requires Consistent(codec, sessionId, c, journal)
    ensures Terminated(journal)
  {
  }

  // ---- Pieces and pipes ----------------------------------------------------------------------

  lemma SliceIsPiece(out: Outgoing, log: seq<SessionEvent>, through: nat)
    requires Contiguous(0, log) && IsSlice(out, log, through)
    ensures PieceOf(out.events, log)
    ensures out.events[0].sequence == out.fromSequence && |out.events| == through - out.fromSequence + 1
  {
    assert out.events[0] == log[out.fromSequence - 1];
  }

  lemma StretchIsPiece(log: seq<SessionEvent>, from: nat, to: nat)
    requires Contiguous(0, log) && from < to <= |log|
    ensures PieceOf(log[from..to], log)
  {
    assert log[from..to][0] == log[from];
  }

  /** The live part of any slice of the log is nothing or a piece of it. */
  lemma LivePiece(log: seq<SessionEvent>, a: nat, b: nat, next: nat, cursor: Cursor)
    requires Contiguous(0, log) && a <= b <= |log|
    ensures var (moved, out) := Live(log[a..b], next, cursor);
            moved.next == next && (out.Some? ==> PieceOf(out.value.events, log))
  {
    hide PieceOf, EventsAfter;
    assert Contiguous(a, log[a..b]);
    EventsAfterIsTail(a, log[a..b], cursor.sent);
    var from := if cursor.sent <= a then a else cursor.sent;
    if from < b {
      assert log[a..b][from - a..] == log[from..b];
      StretchIsPiece(log, from, b);
    }
  }

  lemma ForwardEmitsPiece(channel: Channel, log: seq<SessionEvent>, cursor: Cursor)
    requires Contiguous(0, log) && HoldsTail(channel, log) && cursor.next <= channel.Total()
    ensures var (moved, out) := Forward(log, channel, cursor);
            moved.next <= channel.Total() && (out.Some? ==> PieceOf(out.value.events, log))
  {
    hide HoldsTail, EventsAfter, Live, Contiguous, PieceOf, Flatten, Backlog;
    if cursor.next < channel.evicted {
      EventsAfterIsTail(0, log, cursor.sent);
      var from := if cursor.sent <= |log| then cursor.sent else |log|;
      assert EventsAfter(log, cursor.sent) == log[from..|log|];
      LivePiece(log, from, |log|, channel.evicted, cursor);
    } else if cursor.next < channel.Total() {
      NextBatchIsSlice(channel, log, cursor.next);
      var batch := channel.retained[cursor.next - channel.evicted];
      var a := |log| - |Backlog(channel, cursor.next)|;
      LivePiece(log, a, a + |batch|, cursor.next + 1, cursor);
      assert Forward(log, channel, cursor) == Live(batch, cursor.next + 1, cursor);
    }
  }

  lemma {:induction false} ReachMonotone(low: nat, high: nat, pipe: seq<EventBatch>)
    requires low <= high
    ensures low <= Reach(low, pipe) <= Reach(high, pipe)
    decreases |pipe|
  {
    if pipe != [] {
      ReachMonotone(ReachOne(low, pipe[0]), ReachOne(high, pipe[0]), pipe[1..]);
    }
  }

  lemma {:induction false} ReachAppend(revision: nat, pipe: seq<EventBatch>, batch: EventBatch)
    ensures Reach(revision, pipe + [batch]) == ReachOne(Reach(revision, pipe), batch)
    decreases |pipe|
  {
    if pipe == [] {
      assert pipe + [batch] == [batch];
      assert [batch][1..] == [];
    } else {
      assert (pipe + [batch])[0] == pipe[0] && (pipe + [batch])[1..] == pipe[1..] + [batch];
      ReachAppend(ReachOne(revision, pipe[0]), pipe[1..], batch);
    }
  }

  /** A client takes a piece without error and stands exactly where `ReachOne` says. */
  lemma TakePiece(sessionId: SessionId, log: seq<SessionEvent>, r: Replica, batch: EventBatch)
    requires GoodLog(sessionId, log) && PrefixOf(r, sessionId, log) && PieceOf(batch, log)
    ensures var fed := ReceiveBatch(r, batch);
            && fed.outcome.Ok?
            && PrefixOf(fed.replica, sessionId, log)
            && fed.replica.state.revision == ReachOne(r.state.revision, batch)
            && fed.outcome.value == (batch[0].sequence > r.state.revision + 1)
  {
    hide GoodLog, ReceiveBatch;
    var a := batch[0].sequence - 1;
    BatchOfSlice(r, sessionId, log, a, a + |batch|);
  }

  lemma SavedPrefixLoads(sessionId: SessionId, log: seq<SessionEvent>, r: Replica)
    requires !T.Blank(sessionId) && GoodLog(sessionId, log) && PrefixOf(r, sessionId, log)
    ensures LoadReplica(sessionId, V1(Save(r))) == Ok(r)
  {
    hide GoodLog, PrefixOf, Save, FromV1;
    PrefixIsSound(r, sessionId, log);
    SaveLoadRoundTrip(r);
  }

  // ---- Clients -------------------------------------------------------------------------------

  /** A client that takes a piece of the log stays a prefix; its revision moves as `ReachOne` says. */
  lemma TakeKeepsClients(setting: Setting, w: World, id: ClientId, batch: EventBatch, log: seq<SessionEvent>)
    requires Proper(setting) && GoodLog(setting.sessionId, log) && id in w.clients
    requires ClientsArePrefixes(w.clients, setting.sessionId, log) && PieceOf(batch, log)
    ensures var next := Take(w, id, batch);
            && next == w.(clients := next.clients)
            && next.clients.Keys == w.clients.Keys
            && ClientsArePrefixes(next.clients, setting.sessionId, log)
            && (forall other | other in w.clients && other != id :: next.clients[other] == w.clients[other])
            && next.clients[id].replica.state.revision == ReachOne(w.clients[id].replica.state.revision, batch)
            && w.clients[id].replica.state.revision <= next.clients[id].replica.state.revision
  {
    hide GoodLog, PrefixOf, LoadReplica, ReceiveBatch, PieceOf;
    var r := w.clients[id].replica;
    TakePiece(setting.sessionId, log, r, batch);
    SavedPrefixLoads(setting.sessionId, log, ReceiveBatch(r, batch).replica);
  }

  /** Links keep delivering when clients move forward and more has been sent. */
  lemma LinkKeepsDelivering(link: Link, wire: set<EventBatch>, clients: map<ClientId, Client>, channel: Channel,
                            log: seq<SessionEvent>, wire': set<EventBatch>, clients': map<ClientId, Client>)
    requires LinkDelivers(link, wire, clients, channel, log) && wire <= wire'
    requires clients.Keys == clients'.Keys
    requires clients[link.client].replica.state.revision <= clients'[link.client].replica.state.revision
    ensures LinkDelivers(link, wire', clients', channel, log)
  {
    hide Tracks;
    ReachMonotone(clients[link.client].replica.state.revision, clients'[link.client].replica.state.revision, link.pipe);
  }

  lemma StrayKeepsInv(setting: Setting, w: World, id: ClientId, batch: EventBatch)
    requires Proper(setting) && Inv(setting, w) && id in w.clients && batch in w.wire
    ensures Inv(setting, Take(w, id, batch))
  {
    hide GoodLog, PieceOf, Consistent, ClientsArePrefixes, LinkDelivers, HoldsTail;
    var log, next := Log(setting, w.journal), Take(w, id, batch);
    TakeKeepsClients(setting, w, id, batch, log);
    if w.process.Up? {
      ConsistentLog(setting, w.process.session, w.journal);
      forall l | l in w.links
        ensures LinkDelivers(w.links[l], w.wire, next.clients, w.process.channel, log)
      {
        ClientOfLink(w.links[l], w.wire, w.clients, w.process.channel, log);
        LinkKeepsDelivering(w.links[l], w.wire, w.clients, w.process.channel, log, w.wire, next.clients);
      }
    }
  }

  lemma ClientOfLink(link: Link, wire: set<EventBatch>, clients: map<ClientId, Client>, channel: Channel,
                     log: seq<SessionEvent>)
    requires LinkDelivers(link, wire, clients, channel, log)
    ensures link.client in clients
  {
  }

  /** Consuming the oldest batch of a link: what the client gained, the pipe no longer owes. */
  lemma ConsumeKeepsInv(setting: Setting, w: World, id: ConnectionId)
    requires Proper(setting) && Inv(setting, w)
    ensures Inv(setting, Next(setting, w, Consume(id)))
  {
    hide GoodLog, PieceOf, Consistent, ClientsArePrefixes, HoldsTail, Tracks, PrefixOf, Log, ReceiveBatch, Save;
    hide Startup, PlanJoin, Submitted, Recovered, FileIsPrefix, Greet, CatchUp, Forward, CarryOut, LoadReplica;
    if id in w.links && w.links[id].pipe != [] && w.process.Up? {
      var log := Log(setting, w.journal);
      ConsistentLog(setting, w.process.session, w.journal);
      var channel, link := w.process.channel, w.links[id];
      assert LinkDelivers(link, w.wire, w.clients, channel, log);
      var shorter := link.(pipe := link.pipe[1..]);
      var middle := w.(links := w.links[id := shorter]);
      assert link.pipe[0] in w.wire;
      TakeKeepsClients(setting, middle, link.client, link.pipe[0], log);
      var next := Take(middle, link.client, link.pipe[0]);
      forall l | l in next.links
        ensures LinkDelivers(next.links[l], w.wire, next.clients, channel, log)
      {
        if l == id {
          assert forall i | 0 <= i < |shorter.pipe| :: shorter.pipe[i] == link.pipe[i + 1];
        } else {
          LinkKeepsDelivering(w.links[l], w.wire, w.clients, channel, log, w.wire, next.clients);
        }
      }
    }
  }

  lemma RestartClientKeepsInv(setting: Setting, w: World, id: ClientId)
    requires Inv(setting, w)
    ensures Inv(setting, Next(setting, w, RestartClient(id)))
  {
    hide GoodLog, PieceOf, Consistent, HoldsTail, Tracks, PrefixOf, LoadReplica, Reach;
    if id in w.clients && w.process.Up? {
      ConsistentLog(setting, w.process.session, w.journal);
    }
  }

  // ---- The host sends ------------------------------------------------------------------------

  /** Sending a piece on one link, with the cursor moved, concerns no other link. */
  lemma EmitKeepsInv(setting: Setting, w: World, id: ConnectionId, link: Link, cursor: Cursor, out: Option<Outgoing>)
    requires Inv(setting, w) && w.process.Up? && id in w.links
    requires out.Some? ==> PieceOf(out.value.events, w.process.session.events)
    requires var pipe := if out.None? then link.pipe else link.pipe + [out.value.events];
             var wire := if out.None? then w.wire else w.wire + {out.value.events};
             LinkDelivers(link.(cursor := cursor, pipe := pipe), wire, w.clients, w.process.channel,
                          w.process.session.events)
    ensures Inv(setting, Emit(w, id, link, cursor, out))
  {
    hide GoodLog, PieceOf, Consistent, ClientsArePrefixes, LinkDelivers, HoldsTail;
    ConsistentLog(setting, w.process.session, w.journal);
    var next, log := Emit(w, id, link, cursor, out), w.process.session.events;
    forall l | l in next.links
      ensures LinkDelivers(next.links[l], next.wire, w.clients, w.process.channel, log)
    {
      if l != id {
        ClientOfLink(w.links[l], w.wire, w.clients, w.process.channel, log);
        LinkKeepsDelivering(w.links[l], w.wire, w.clients, w.process.channel, log, next.wire, w.clients);
      }
    }
  }

  /** The revision of a link's client, which is never ahead of the log. */
  lemma RevisionOfLink(setting: Setting, w: World, id: ConnectionId)
    requires Inv(setting, w) && w.process.Up? && id in w.links
    ensures LinkDelivers(w.links[id], w.wire, w.clients, w.process.channel, w.process.session.events)
    ensures w.links[id].client in w.clients
    ensures w.clients[w.links[id].client].replica.state.revision <= |w.process.session.events|
    ensures |w.process.session.events| <= U64_MAX && Contiguous(0, w.process.session.events)
    ensures HoldsTail(w.process.channel, w.process.session.events)
    ensures GoodLog(setting.sessionId, w.process.session.events)
  {
    hide PieceOf, Consistent, HoldsTail, Tracks, LoadReplica, Replay;
    ConsistentLog(setting, w.process.session, w.journal);
  }

  /** A slice that starts at or before what the pipe reaches extends the reach to its end. */
  lemma SliceExtendsReach(revision: nat, pipe: seq<EventBatch>, out: Outgoing, log: seq<SessionEvent>, through: nat)
    requires Contiguous(0, log) && IsSlice(out, log, through) && out.fromSequence <= Reach(revision, pipe) + 1
    ensures through <= Reach(revision, pipe + [out.events])
  {
    SliceIsPiece(out, log, through);
    ReachAppend(revision, pipe, out.events);
  }

  lemma HelloKeepsInv(setting: Setting, w: World, id: ConnectionId)
    requires Inv(setting, w)
    ensures Inv(setting, Next(setting, w, HandleHello(id)))
  {
    hide Inv, Tracks, Greet, IsSlice, Contiguous, PieceOf, Reach, HoldsTail, GoodLog;
    if w.process.Up? && id in w.links && !w.links[id].greeted {
      RevisionOfLink(setting, w, id);
      var log, channel, link := w.process.session.events, w.process.channel, w.links[id];
      var revision := w.clients[link.client].replica.state.revision;
      var (cursor, out) := Greet(log, link.cursor, link.hello);
      HelloTracksExactly(channel, log, link.cursor, link.hello);
      GreetKeepsNext(log, link.cursor, link.hello);
      ReachMonotone(revision, revision, link.pipe);
      if out.Some? {
        SliceIsPiece(out.value, log, |log|);
        SliceExtendsReach(revision, link.pipe, out.value, log, |log|);
      }
      EmitKeepsInv(setting, w, id, link.(greeted := true), cursor, out);
    }
  }

  lemma GreetKeepsNext(log: seq<SessionEvent>, cursor: Cursor, last: u64)
    ensures Greet(log, cursor, last).0.next == cursor.next
    ensures CatchUp(log, cursor, last).0.next == cursor.next
  {
  }

  lemma CatchUpKeepsInv(setting: Setting, w: World, id: ConnectionId, after: u64)
    requires Inv(setting, w)
    ensures Inv(setting, Next(setting, w, HandleCatchUp(id, after)))
  {
    hide Inv, Tracks, CatchUp, IsSlice, Contiguous, PieceOf, Reach, HoldsTail, GoodLog;
    if w.process.Up? && id in w.links && w.links[id].greeted && after in w.links[id].asks {
      RevisionOfLink(setting, w, id);
      var log, channel, link := w.process.session.events, w.process.channel, w.links[id];
      var revision := w.clients[link.client].replica.state.revision;
      var (cursor, out) := CatchUp(log, link.cursor, after);
      CatchUpKeepsTracking(channel, log, link.cursor, after);
      GreetKeepsNext(log, link.cursor, after);
      ReachMonotone(revision, revision, link.pipe);
      if out.Some? {
        SliceIsPiece(out.value, log, |log|);
        SliceExtendsReach(revision, link.pipe, out.value, log, |log|);
      }
      EmitKeepsInv(setting, w, id, link.(asks := link.asks - {after}), cursor, out);
    }
  }

  lemma ForwardKeepsInv(setting: Setting, w: World, id: ConnectionId)
    requires Inv(setting, w)
    ensures Inv(setting, Next(setting, w, ForwardBroadcast(id)))
  {
    hide Inv, Tracks, Forward, IsSlice, Contiguous, PieceOf, Reach, HoldsTail, GoodLog;
    if w.process.Up? && id in w.links {
      RevisionOfLink(setting, w, id);
      var log, channel, link := w.process.session.events, w.process.channel, w.links[id];
      var revision := w.clients[link.client].replica.state.revision;
      var (cursor, out) := Forward(log, channel, link.cursor);
      ForwardEmitsPiece(channel, log, link.cursor);
      if link.greeted {
        ForwardSkipsNothing(channel, log, link.cursor);
        if out.Some? {
          SliceExtendsReach(revision, link.pipe, out.value, log, cursor.sent);
        }
      }
      EmitKeepsInv(setting, w, id, link, cursor, out);
    }
  }

  lemma ReachOneNeverRetreats(revision: nat, pipe: seq<EventBatch>, batch: EventBatch)
    ensures Reach(revision, pipe) <= Reach(revision, pipe + [batch])
  {
    ReachAppend(revision, pipe, batch);
  }

  /** The receipts of a history are where its events are. */
  lemma ReceiptStands(c: Contents, history: seq<Entry>, m: MessageId) returns (start: nat)
    requires Tells(c, history) && m in c.receipts
    ensures c.receipts[m].request.messageId == m
    ensures var events := c.receipts[m].events;
            events != [] && start + |events| <= |c.events| && events == c.events[start..start + |events|]
  {
    assert Receipt(c.receipts[m]) in history;
    var i :| 0 <= i < |history| && history[i] == Receipt(c.receipts[m]);
    assert SoundReceipt(history[i].command);
    ReceiptsAreContiguous(history, i);
    start := StartOf(history, i);
  }

  /** A receipt's events are a piece of the log. */
  lemma ReceiptIsPiece(setting: Setting, c: Canonical, journal: seq<byte>, m: MessageId)
    requires Consistent(setting.codec, setting.sessionId, c, journal) && m in c.receipts
    ensures PieceOf(c.receipts[m].events, c.events)
    ensures c.receipts[m].request.messageId == m
  {
    hide Tells, History, PieceOf, ReadLines;
    ReadLinesTells(setting.codec, journal);
    var start := ReceiptStands(Contents(c.events, c.receipts), History(setting.codec, journal), m);
    StretchIsPiece(c.events, start, start + |c.receipts[m].events|);
  }

  lemma PieceIsNotEmpty(batch: EventBatch, log: seq<SessionEvent>)
    requires PieceOf(batch, log)
    ensures batch != []
  {
  }

  lemma UpIsConsistent(setting: Setting, w: World)
    requires Inv(setting, w) && w.process.Up?
    ensures Consistent(setting.codec, setting.sessionId, w.process.session, w.journal)
  {
    hide GoodLog, WireIsCanonical, ClientsArePrefixes, Consistent, LinkDelivers, HoldsTail, Log;
  }

  lemma RepeatKeepsInv(setting: Setting, w: World, id: ConnectionId, m: MessageId)
    requires Inv(setting, w) && w.process.Up? && id in w.links && m in w.process.session.receipts
    ensures var events := w.process.session.receipts[m].events;
            && events != []
            && var message := Outgoing(events[0].sequence, events);
               Inv(setting, Emit(w, id, w.links[id], w.links[id].cursor, Some(message)))
  {
    hide Inv, Tracks, Contiguous, Reach, HoldsTail, GoodLog, PieceOf, Consistent;
    RevisionOfLink(setting, w, id);
    UpIsConsistent(setting, w);
    ReceiptIsPiece(setting, w.process.session, w.journal, m);
    PieceIsNotEmpty(w.process.session.receipts[m].events, w.process.session.events);
    var events, link := w.process.session.receipts[m].events, w.links[id];
    ReachOneNeverRetreats(w.clients[link.client].replica.state.revision, link.pipe, events);
    EmitKeepsInv(setting, w, id, link, link.cursor, Some(Outgoing(events[0].sequence, events)));
  }

  // ---- The host commits ----------------------------------------------------------------------

  lemma LinkAfterCommit(link: Link, wire: set<EventBatch>, clients: map<ClientId, Client>, channel: Channel,
                        log: seq<SessionEvent>, batch: EventBatch)
    requires LinkDelivers(link, wire, clients, channel, log)
    ensures LinkDelivers(link, wire, clients, Channels.Send(channel, batch), log + batch)
  {
    hide Tracks, Reach;
    if link.greeted {
      CommitKeepsTracking(channel, log, link.cursor, batch);
    }
  }

  lemma CarryOutKeepsInv(setting: Setting, w: World, plan: Plan, disk: Disk)
    requires Proper(setting) && Inv(setting, w) && w.process.Up?
    requires plan.Commit? ==> Planned(setting, w.process.session, plan)
    ensures var next := CarryOut(setting, w, plan, disk);
            && Inv(setting, next)
            && Log(setting, w.journal) <= Log(setting, next.journal)
            && Grows(setting, Recovered(setting.codec, setting.sessionId, w.journal),
                     Recovered(setting.codec, setting.sessionId, next.journal))
  {
    hide PieceOf, Consistent, ClientsArePrefixes, LinkDelivers, HoldsTail, GoodLog, WireIsCanonical, Recovered, Planned;
    if plan.Commit? {
      var c, next := w.process.session, CarryOut(setting, w, plan, disk);
      var log, longer := c.events, c.events + plan.command.events;
      ConsistentLog(setting, c, w.journal);
      CommitRecovers(setting, c, w.journal, plan, disk);
      LogIsGood(setting, next.journal);
      PlannedMayFollow(setting, c, plan);
      var after := Log(setting, next.journal);
      assert log <= after;
      WireOfLonger(w.wire, log, after);
      ClientsOfLonger(w.clients, setting.sessionId, log, after);
      if disk.Synced? {
        SendHoldsTail(w.process.channel, log, plan.command.events);
        forall l | l in w.links
          ensures LinkDelivers(w.links[l], w.wire, w.clients, next.process.channel, longer)
        {
          LinkAfterCommit(w.links[l], w.wire, w.clients, w.process.channel, log, plan.command.events);
        }
      }
    }
  }

  lemma StartKeepsInv(setting: Setting, w: World, disk: Disk)
    requires Proper(setting) && Inv(setting, w) && w.process.Down?
    ensures var next := Start(setting, w, disk);
            && Inv(setting, next)
            && Log(setting, w.journal) <= Log(setting, next.journal)
            && Grows(setting, Recovered(setting.codec, setting.sessionId, w.journal),
                     Recovered(setting.codec, setting.sessionId, next.journal))
  {
    hide PieceOf, Consistent, ClientsArePrefixes, LinkDelivers, HoldsTail, GoodLog, WireIsCanonical, Recovered;
    var next := Start(setting, w, disk);
    StartRecovers(setting, w, disk);
    LogIsGood(setting, next.journal);
    WireOfLonger(w.wire, Log(setting, w.journal), Log(setting, next.journal));
    ClientsOfLonger(w.clients, setting.sessionId, Log(setting, w.journal), Log(setting, next.journal));
    if next.process.Up? {
      NewChannelHoldsTail(setting.capacity, next.process.session.events);
    }
  }

  // ---- Every step, every run -----------------------------------------------------------------

  lemma QuietStepKeepsInv(setting: Setting, w: World, step: Step)
    requires Inv(setting, w)
    requires step.CrashHost? || step.Dial? || step.AskCatchUp? || step.HangUp?
    ensures Inv(setting, Next(setting, w, step))
  {
    hide GoodLog, PieceOf, Consistent, PrefixOf, Follows, LoadReplica, HoldsTail, Tracks, Reach, ReceiveBatch, Save;
    hide Startup, PlanJoin, Submitted, Recovered, FileIsPrefix, Greet, CatchUp, Forward, Take, CarryOut;
    if w.process.Up? {
      ConsistentLog(setting, w.process.session, w.journal);
    }
  }

  lemma SubmitKeepsInv(setting: Setting, w: World, id: ConnectionId, request: CommandRequest, disk: Disk)
    requires Proper(setting) && Inv(setting, w) && w.process.Up? && id in w.links
    ensures var next := Submitted(setting, w, id, request, disk);
            && Inv(setting, next)
            && Log(setting, w.journal) <= Log(setting, next.journal)
            && Grows(setting, Recovered(setting.codec, setting.sessionId, w.journal),
                     Recovered(setting.codec, setting.sessionId, next.journal))
  {
    hide Inv, Recovered, Log, PlanSubmit, CarryOut;
    RepliesRepeatReceipts(setting.sessionId, setting.engine, w.process.session, request);
    var plan := PlanSubmit(setting.sessionId, setting.engine, w.process.session, request);
    if plan.Reply? && plan.submission.duplicate {
      RepeatKeepsInv(setting, w, id, request.messageId);
    } else {
      CarryOutKeepsInv(setting, w, plan, disk);
    }
  }

  /**
   * Every step keeps the invariant, and what the journal is worth only grows, by the bootstrap or by one
   * planned receipt at a time. A crash loses nothing that was recoverable before it.
   */
  lemma {:induction false} NextKeepsInv(setting: Setting, w: World, step: Step)
    requires Proper(setting) && Inv(setting, w)
    ensures var next := Next(setting, w, step);
            && Inv(setting, next)
            && Log(setting, w.journal) <= Log(setting, next.journal)
            && Grows(setting, Recovered(setting.codec, setting.sessionId, w.journal),
                     Recovered(setting.codec, setting.sessionId, next.journal))
  {
    hide Inv, Log, Recovered, Submitted, PlanJoin, CarryOut, Start, Greet, CatchUp, Forward, LoadReplica, ReceiveBatch;
    match step {
      case StartHost(disk) =>
        if w.process.Down? { StartKeepsInv(setting, w, disk); }
      case JoinHost(participant, displayName, messageId, disk) =>
        if w.process.Up? {
          var plan := PlanJoin(setting.sessionId, w.process.session, participant, displayName, messageId);
          CarryOutKeepsInv(setting, w, plan, disk);
        }
      case SubmitToHost(id, request, disk) =>
        if w.process.Up? && id in w.links { SubmitKeepsInv(setting, w, id, request, disk); }
      case HandleHello(id) => HelloKeepsInv(setting, w, id);
      case HandleCatchUp(id, after) => CatchUpKeepsInv(setting, w, id, after);
      case ForwardBroadcast(id) => ForwardKeepsInv(setting, w, id);
      case Consume(id) => ConsumeKeepsInv(setting, w, id);
      case Stray(client, batch) =>
        if client in w.clients && batch in w.wire { StrayKeepsInv(setting, w, client, batch); }
      case RestartClient(client) => RestartClientKeepsInv(setting, w, client);
      case _ => QuietStepKeepsInv(setting, w, step);
    }
  }

  lemma InitialIsInv(setting: Setting, w: World)
    requires Initial(setting, w)
    ensures Inv(setting, w)
  {
    var log := Log(setting, w.journal);
    LogIsGood(setting, w.journal);
    FreshReplicaIsPrefix(setting.sessionId, log);
  }

  /**
   * System-wide prefix safety. From any journal, after any steps whatever, every client holds exactly the
   * first events of the log the journal is worth, with the state they replay to, and so does the document
   * it saved; no client was ever stopped by a collision or an error; a running host's memory is exactly
   * what its journal is worth.
   */
  lemma {:induction false} PrefixSafety(setting: Setting, w: World, steps: seq<Step>)
    requires Proper(setting) && Initial(setting, w)
    ensures var end := Run(setting, w, steps);
            var log := Log(setting, end.journal);
            && !end.failed
            && (forall id | id in end.clients ::
                  && PrefixOf(end.clients[id].replica, setting.sessionId, log)
                  && FileIsPrefix(end.clients[id].file, setting.sessionId, log))
            && (end.process.Up? ==>
                  && Consistent(setting.codec, setting.sessionId, end.process.session, end.journal)
                  && end.process.session.events == log)
  {
    InitialIsInv(setting, w);
    RunKeepsInv(setting, w, steps);
    var end := Run(setting, w, steps);
    if end.process.Up? {
      ConsistentLog(setting, end.process.session, end.journal);
    }
  }

  /** Along every run the invariant holds and the recoverable session only gains events and receipts. */
  lemma {:induction false} RunKeepsInv(setting: Setting, w: World, steps: seq<Step>)
    requires Proper(setting) && Inv(setting, w)
    ensures var end := Run(setting, w, steps);
            && Inv(setting, end)
            && Log(setting, w.journal) <= Log(setting, end.journal)
            && Extends(Recovered(setting.codec, setting.sessionId, w.journal),
                       Recovered(setting.codec, setting.sessionId, end.journal))
    decreases |steps|
  {
    hide Inv, Next, Log, Recovered;
    if steps != [] {
      var next := Next(setting, w, steps[0]);
      NextKeepsInv(setting, w, steps[0]);
      GrowthExtends(setting, Recovered(setting.codec, setting.sessionId, w.journal),
                    Recovered(setting.codec, setting.sessionId, next.journal));
      RunKeepsInv(setting, next, steps[1..]);
    }
  }

  /** No receipt changes or vanishes, and no event moves. */
  ghost predicate Extends(before: Option<Canonical>, after: Option<Canonical>) {
    before.Some? ==>
      && after.Some?
      && before.value.events <= after.value.events
      && forall m | m in before.value.receipts ::
           m in after.value.receipts && after.value.receipts[m] == before.value.receipts[m]
  }

  lemma GrowthExtends(setting: Setting, before: Option<Canonical>, after: Option<Canonical>)
    requires Grows(setting, before, after)
    ensures Extends(before, after)
  {
    if before.Some? && after != before {
      var plan :| Planned(setting, before.value, plan)
                  && after == Some(Committed(before.value, plan.candidate, plan.command));
      PlannedMayFollow(setting, before.value, plan);
    }
  }

  // ---- What every reachable state guarantees -------------------------------------------------

  /**
   * Exactly-once commands, across crashes and restarts: once a request has a receipt, it has that receipt
   * for ever; sending the same request again is answered with the original events, sending another under
   * the same id is refused, and neither touches journal, log, state or receipts.
   */
  lemma {:induction false} ExactlyOnce(setting: Setting, w: World, c: Canonical, steps: seq<Step>,
                                       request: CommandRequest, id: ConnectionId, disk: Disk)
    requires Proper(setting) && Inv(setting, w)
    requires Recovered(setting.codec, setting.sessionId, w.journal) == Some(c) && request.messageId in c.receipts
    ensures var receipt := c.receipts[request.messageId];
            var end := Run(setting, w, steps);
            && Recovered(setting.codec, setting.sessionId, end.journal).Some?
            && var d := Recovered(setting.codec, setting.sessionId, end.journal).value;
            && c.events <= d.events
            && request.messageId in d.receipts && d.receipts[request.messageId] == receipt
            && (end.process.Up? ==>
                  && end.process.session == d
                  && PlanSubmit(setting.sessionId, setting.engine, d, request)
                     == (if receipt.request == request
                         then Reply(Submission(receipt.events, true))
                         else Refuse(HostRejection(CommandIdCollision, d.state.revision)))
                  && var next := Next(setting, end, SubmitToHost(id, request, disk));
                     next.journal == end.journal && next.process == end.process && next.clients == end.clients)
  {
    hide Inv, Recovered, Run, Next, PlanSubmit, Log;
    RunKeepsInv(setting, w, steps);
    var end := Run(setting, w, steps);
    if end.process.Up? {
      UpIsRecovered(setting, end);
      RepeatChangesNothing(setting, end, request, id, disk);
    }
  }

  lemma UpIsRecovered(setting: Setting, w: World)
    requires Inv(setting, w) && w.process.Up?
    ensures Consistent(setting.codec, setting.sessionId, w.process.session, w.journal)
    ensures Recovered(setting.codec, setting.sessionId, w.journal) == Some(w.process.session)
  {
    hide GoodLog, WireIsCanonical, ClientsArePrefixes, Consistent, LinkDelivers, HoldsTail, Recovered;
    ConsistentIsRecovered(setting.codec, setting.sessionId, w.process.session, w.journal);
  }

  lemma RepeatChangesNothing(setting: Setting, w: World, request: CommandRequest, id: ConnectionId, disk: Disk)
    requires Inv(setting, w) && w.process.Up? && request.messageId in w.process.session.receipts
    ensures var c := w.process.session;
            PlanSubmit(setting.sessionId, setting.engine, c, request)
            == (if c.receipts[request.messageId].request == request
                then Reply(Submission(c.receipts[request.messageId].events, true))
                else Refuse(HostRejection(CommandIdCollision, c.state.revision)))
    ensures var next := Next(setting, w, SubmitToHost(id, request, disk));
            next.journal == w.journal && next.process == w.process && next.clients == w.clients
  {
    hide Inv, PlanSubmit;
    RepliesRepeatReceipts(setting.sessionId, setting.engine, w.process.session, request);
  }

  /** A request without a receipt that expects another revision than the current one changes nothing at all. */
  lemma {:induction false} StaleChangesNothing(setting: Setting, w: World, id: ConnectionId, request: CommandRequest,
                                               disk: Disk)
    requires w.process.Up?
    requires request.messageId !in w.process.session.receipts
    requires request.expectedRevision != w.process.session.state.revision
    ensures PlanSubmit(setting.sessionId, setting.engine, w.process.session, request)
         == Refuse(HostRejection(RuntimeRejection(RevisionConflict(w.process.session.state.revision,
                                                                   request.expectedRevision)),
                                 w.process.session.state.revision))
    ensures Next(setting, w, SubmitToHost(id, request, disk)) == w
  {
    SubmitAnswersExactly(setting.sessionId, setting.engine, w.process.session, request);
    hide PlanSubmit;
  }

  /** Every receipt's events come right after the revision its request expected. */
  ghost predicate Timely(recovered: Option<Canonical>) {
    recovered.Some? ==>
      forall m | m in recovered.value.receipts ::
        var receipt := recovered.value.receipts[m];
        receipt.events != [] && receipt.events[0].sequence == receipt.request.expectedRevision + 1
  }

  lemma PlannedIsTimely(setting: Setting, c: Canonical, plan: Plan)
    requires Planned(setting, c, plan)
    ensures plan.command.events != []
    ensures plan.command.events[0].sequence == plan.command.request.expectedRevision + 1
  {
    PlannedMayFollow(setting, c, plan);
    ReplayAdvances(c.state, plan.command.events);
    PlannedExpectsNow(setting, c, plan);
    hide Planned, Replay, ValidLog;
  }

  lemma PlannedExpectsNow(setting: Setting, c: Canonical, plan: Plan)
    requires Planned(setting, c, plan)
    ensures plan.command.request.expectedRevision == c.state.revision
  {
    hide PlanSubmit, PlanJoin, Proposes, Rejects, ContinuesValidly;
    if request :| plan == PlanSubmit(setting.sessionId, setting.engine, c, request) {
      SubmitAnswersExactly(setting.sessionId, setting.engine, c, request);
    } else {
      var participant, displayName, messageId :|
        plan == PlanJoin(setting.sessionId, c, participant, displayName, messageId);
      JoinAnswersExactly(setting.sessionId, c, participant, displayName, messageId);
    }
  }

  lemma GrowthIsTimely(setting: Setting, before: Option<Canonical>, after: Option<Canonical>)
    requires Grows(setting, before, after) && Timely(before)
    ensures Timely(after)
  {
    if before.Some? && after != before {
      var plan :| Planned(setting, before.value, plan)
                  && after == Some(Committed(before.value, plan.candidate, plan.command));
      hide Planned;
      PlannedIsTimely(setting, before.value, plan);
    }
  }

  lemma {:induction false} TimelyRun(setting: Setting, w: World, steps: seq<Step>)
    requires Proper(setting) && Inv(setting, w) && Timely(Recovered(setting.codec, setting.sessionId, w.journal))
    ensures Timely(Recovered(setting.codec, setting.sessionId, Run(setting, w, steps).journal))
    decreases |steps|
  {
    hide Inv, Next, Recovered, Timely;
    if steps != [] {
      var next := Next(setting, w, steps[0]);
      NextKeepsInv(setting, w, steps[0]);
      GrowthIsTimely(setting, Recovered(setting.codec, setting.sessionId, w.journal),
                     Recovered(setting.codec, setting.sessionId, next.journal));
      TimelyRun(setting, next, steps[1..]);
    }
  }

  /**
   * No commit from a stale revision, ever: in every state reached from an empty journal, the events of every
   * receipt on disk stand right after the revision that its request expected.
   */
  lemma {:induction false} NoStaleCommit(setting: Setting, w: World, steps: seq<Step>)
    requires Proper(setting) && Initial(setting, w) && w.journal == []
    ensures var end := Run(setting, w, steps);
            && Timely(Recovered(setting.codec, setting.sessionId, end.journal))
            && (end.process.Up? ==> Timely(Some(end.process.session)))
  {
    EmptyIsUnrecoverable(setting);
    InitialIsInv(setting, w);
    hide Inv, Next, Recovered, Run;
    RunKeepsInv(setting, w, steps);
    TimelyRun(setting, w, steps);
    if Run(setting, w, steps).process.Up? {
      UpIsRecovered(setting, Run(setting, w, steps));
    }
  }

  lemma RecoveredReplays(setting: Setting, journal: seq<byte>, c: Canonical)
    requires Recovered(setting.codec, setting.sessionId, journal) == Some(c)
    ensures Replay(UninitializedSession(setting.sessionId), c.events) == Ok(c.state) && c.events != []
  {
    hide Recovered, Replay;
    RecoveredIsConsistent(setting.codec, setting.sessionId, c, journal);
  }

  /** Whoever is a participant of a longer log's beginning is a participant at its end, unchanged. */
  lemma MembersOfLonger(sessionId: SessionId, s: SessionState, t: SessionState, log: seq<SessionEvent>,
                        longer: seq<SessionEvent>, p: ParticipantId)
    requires Replay(UninitializedSession(sessionId), log) == Ok(s) && log != [] && log <= longer
    requires Replay(UninitializedSession(sessionId), longer) == Ok(t) && p in s.participants
    ensures p in t.participants && t.participants[p] == s.participants[p]
  {
    hide Replay;
    SessionHistory.SessionInvariant(sessionId, log);
    ReplayPrefix(UninitializedSession(sessionId), longer, |log|);
    assert longer[..|log|] == log;
    SessionHistory.ParticipantsNeverLeave(s, longer[|log|..], p);
  }

  /** A participant of the recoverable session is welcome for ever: every later join succeeds and changes nothing. */
  lemma {:induction false} MembersStayWelcome(setting: Setting, w: World, c: Canonical, steps: seq<Step>,
                                              p: ParticipantId, displayName: string, messageId: MessageId, disk: Disk)
    requires Proper(setting) && Inv(setting, w)
    requires Recovered(setting.codec, setting.sessionId, w.journal) == Some(c) && p in c.state.participants
    ensures var end := Run(setting, w, steps);
            end.process.Up? ==>
              && p in end.process.session.state.participants
              && end.process.session.state.participants[p] == c.state.participants[p]
              && PlanJoin(setting.sessionId, end.process.session, p, displayName, messageId)
                 == Reply(Submission([], false))
              && Next(setting, end, JoinHost(p, displayName, messageId, disk)) == end
  {
    hide Inv, Run, Recovered, PlanJoin, Replay, Log;
    RunKeepsInv(setting, w, steps);
    var end := Run(setting, w, steps);
    if end.process.Up? {
      UpIsRecovered(setting, end);
      RecoveredReplays(setting, w.journal, c);
      RecoveredReplays(setting, end.journal, end.process.session);
      MembersOfLonger(setting.sessionId, c.state, end.process.session.state, c.events, end.process.session.events, p);
      JoinAnswersExactly(setting.sessionId, end.process.session, p, displayName, messageId);
    }
  }

  /**
   * A join is for good: after it was committed, every further join of that participant, under any name and
   * message id, after any steps, crashes and restarts included, is answered with success and changes nothing.
   */
  lemma {:induction false} JoinIsForGood(setting: Setting, w: World, p: ParticipantId, displayName: string,
                                         messageId: MessageId, steps: seq<Step>, later: string, laterId: MessageId,
                                         disk: Disk)
    requires Proper(setting) && Inv(setting, w) && w.process.Up?
    requires PlanJoin(setting.sessionId, w.process.session, p, displayName, messageId).Commit?
    ensures var joined := Next(setting, w, JoinHost(p, displayName, messageId, Synced));
            var end := Run(setting, joined, steps);
            && joined.process.Up? && p in joined.process.session.state.participants
            && (end.process.Up? ==>
                  && PlanJoin(setting.sessionId, end.process.session, p, later, laterId) == Reply(Submission([], false))
                  && Next(setting, end, JoinHost(p, later, laterId, disk)) == end)
  {
    hide Inv, Run, Recovered, PlanJoin, Log;
    var joined := Next(setting, w, JoinHost(p, displayName, messageId, Synced));
    JoinAnswersExactly(setting.sessionId, w.process.session, p, displayName, messageId);
    NextKeepsInv(setting, w, JoinHost(p, displayName, messageId, Synced));
    UpIsRecovered(setting, joined);
    hide Next;
    MembersStayWelcome(setting, joined, joined.process.session, steps, p, later, laterId, disk);
  }

  /**
   * Linear history: the session in memory is told by the journal alone, receipt by receipt and legacy line
   * by line in journal order; no two receipts share a message id, and the events of each receipt stand
   * together where its place in that order puts them.
   */
  lemma {:induction false} LinearHistory(setting: Setting, w: World, i: nat)
    requires Inv(setting, w) && w.process.Up?
    ensures Terminated(w.journal)
    ensures var history, c := History(setting.codec, w.journal), w.process.session;
            && Tells(Contents(c.events, c.receipts), history)
            && (i < |history| && history[i].Receipt? ==>
                  var start, events := StartOf(history, i), history[i].command.events;
                  start + |events| <= |c.events| && c.events[start..start + |events|] == events)
  {
    hide GoodLog, WireIsCanonical, ClientsArePrefixes, LinkDelivers, HoldsTail, Log, ReadLines, ValidLog, Replay;
    hide Indexes, History, StartOf;
    ReadLinesTells(setting.codec, w.journal);
    var history := History(setting.codec, w.journal);
    if i < |history| && history[i].Receipt? {
      ReceiptsAreContiguous(history, i);
    }
  }

  /** A commit adds exactly one receipt at the end of the history, its events at the end of the log. */
  lemma {:induction false} CommitAppendsHistory(setting: Setting, w: World, plan: Plan)
    requires Proper(setting) && Inv(setting, w) && w.process.Up? && plan.Commit?
    requires Planned(setting, w.process.session, plan)
    ensures var next := CarryOut(setting, w, plan, Synced);
            && next.process.Up?
            && Terminated(w.journal) && Terminated(next.journal)
            && History(setting.codec, next.journal) == History(setting.codec, w.journal) + [Receipt(plan.command)]
            && next.process.session.events == w.process.session.events + plan.command.events
            && next.process.session.state.revision == w.process.session.state.revision + |plan.command.events|
  {
    HistoryAppended(setting.codec, w.journal, [plan.command]);
    assert ReceiptsIn([plan.command]) == [Receipt(plan.command)];
    PlannedMayFollow(setting, w.process.session, plan);
    hide History, Consistent, LinkDelivers;
    ReplayAdvances(w.process.session.state, plan.command.events);
  }

  /** In every reachable state a greeted link forwards the log without a hole. */
  lemma {:induction false} LinkSkipsNothing(setting: Setting, w: World, id: ConnectionId)
    requires Inv(setting, w) && w.process.Up? && id in w.links && w.links[id].greeted
    ensures var log, cursor := w.process.session.events, w.links[id].cursor;
            var (moved, out) := Forward(log, w.process.channel, cursor);
            && cursor.sent <= moved.sent <= |log|
            && (out.Some? <==> cursor.sent < moved.sent)
            && (out.Some? ==> IsSlice(out.value, log, moved.sent) && out.value.fromSequence == cursor.sent + 1)
  {
    RevisionOfLink(setting, w, id);
    hide Inv, HoldsTail, Forward, IsSlice, Backlog;
    ForwardSkipsNothing(w.process.channel, w.process.session.events, w.links[id].cursor);
  }

  /** A client's hello and catch-up cursors are never beyond the log, so the connection always tracks. */
  lemma {:induction false} HonestCursors(setting: Setting, w: World, id: ConnectionId, after: u64)
    requires Inv(setting, w) && w.process.Up? && id in w.links
    ensures w.links[id].hello <= |w.process.session.events|
    ensures after in w.links[id].asks ==> after <= |w.process.session.events|
  {
    RevisionOfLink(setting, w, id);
  }

  /**
   * Convergence of a quiet link: when nothing is left to receive from the channel and nothing is under way,
   * the client's state is the host's state, whatever was evicted, repeated, lost elsewhere or restarted.
   */
  lemma {:induction false} QuietLinkHasConverged(setting: Setting, w: World, id: ConnectionId)
    requires Inv(setting, w) && w.process.Up? && id in w.links && w.links[id].greeted
    requires w.links[id].pipe == [] && Poll(w.process.channel, w.links[id].cursor.next).0.Nothing?
    ensures w.links[id].client in w.clients
    ensures w.clients[w.links[id].client].replica.state == w.process.session.state
  {
    RevisionOfLink(setting, w, id);
    ConsistentLog(setting, w.process.session, w.journal);
    var log, link := w.process.session.events, w.links[id];
    DrainedHasSentAll(w.process.channel, log, link.cursor);
    var r := w.clients[link.client].replica;
    assert PrefixOf(r, setting.sessionId, log);
    hide LinkDelivers, Tracks, HoldsTail, GoodLog, WireIsCanonical, FileIsPrefix, Replay;
    assert r.state.revision == |log|;
    assert log[..|log|] == log;
  }

  /** In a run from an empty journal every event id is derived from its message, and no message causes two events. */
  lemma {:induction false} FreshRunIsHostMade(setting: Setting, w: World, steps: seq<Step>)
    requires Proper(setting) && Inv(setting, w) && HostMade(Log(setting, w.journal))
    ensures var log := Log(setting, Run(setting, w, steps).journal);
            && HostMade(log)
            && forall i, j | 0 <= i < j < |log| :: log[i].causationId != log[j].causationId
    decreases |steps|
  {
    hide Inv, Recovered, GoodLog;
    if steps == [] {
      var log := Log(setting, w.journal);
      LogIsGood(setting, w.journal);
      forall i, j | 0 <= i < j < |log|
        ensures log[i].causationId != log[j].causationId
      {
        DistinctIdsOfGood(setting.sessionId, log, i, j);
        HostMadeIdsAreCausations(log[i], log[j]);
      }
    } else {
      NextKeepsInv(setting, w, steps[0]);
      GrowthIsHostMade(setting, Recovered(setting.codec, setting.sessionId, w.journal),
                       Recovered(setting.codec, setting.sessionId, Next(setting, w, steps[0]).journal));
      FreshRunIsHostMade(setting, Next(setting, w, steps[0]), steps[1..]);
    }
  }

  lemma EmptyIsUnrecoverable(setting: Setting)
    ensures Recovered(setting.codec, setting.sessionId, []).None?
  {
    assert SafePrefix([]) == [];
    assert Lines([]) == [];
  }

  /**
   * In every state reached from an empty journal, a submission is refused by prospective validation exactly
   * when it is decidable and unreceipted, and its message id or actor is blank or its message id, or its
   * auto-start id, has already caused an event.
   */
  lemma {:induction false} FreshRunValidatesExactly(setting: Setting, w: World, steps: seq<Step>,
                                                    request: CommandRequest)
    requires Proper(setting) && Initial(setting, w) && w.journal == []
    requires Run(setting, w, steps).process.Up?
    ensures var c := Run(setting, w, steps).process.session;
            var plan := PlanSubmit(setting.sessionId, setting.engine, c, request);
            (plan.Refuse? && plan.rejection.code.JournalInvariantFailed?) <==>
              && request.messageId !in c.receipts
              && request.expectedRevision == c.state.revision
              && DraftSubmission(c.state, request, setting.engine).Ok?
              && (|| T.Blank(request.messageId)
                  || T.Blank(request.actor)
                  || Caused(c.events, request.messageId)
                  || (NeedsAutoStart(c.state, request) && Caused(c.events, AUTO_START + request.messageId)))
  {
    hide Inv, Recovered, Run, PlanSubmit, DraftSubmission, Consistent;
    EmptyIsUnrecoverable(setting);
    InitialIsInv(setting, w);
    RunKeepsInv(setting, w, steps);
    FreshRunIsHostMade(setting, w, steps);
    var end := Run(setting, w, steps);
    UpIsRecovered(setting, end);
    ConsistentLog(setting, end.process.session, end.journal);
    ConsistentCounts(setting, end.process.session, end.journal);
    JournalInvariantFailsExactly(setting.sessionId, setting.engine, end.process.session, request);
  }

  lemma ConsistentCounts(setting: Setting, c: Canonical, journal: seq<byte>)
    requires Consistent(setting.codec, setting.sessionId, c, journal)
    ensures c.state.revision == |c.events|
  {
    ReplayAdvances(UninitializedSession(setting.sessionId), c.events);
  }

  lemma DistinctIdsOfGood(sessionId: SessionId, log: seq<SessionEvent>, i: nat, j: nat)
    requires GoodLog(sessionId, log) && i < j < |log|
    ensures log[i].eventId != log[j].eventId
  {
  }

  lemma GrowthIsHostMade(setting: Setting, before: Option<Canonical>, after: Option<Canonical>)
    requires Grows(setting, before, after)
    requires before.Some? ==> HostMade(before.value.events)
    ensures after.Some? && (before.Some? || after != before) ==> HostMade(after.value.events)
  {
    if before.Some? && after != before {
      var c := before.value;
      var plan :| Planned(setting, c, plan) && after == Some(Committed(c, plan.candidate, plan.command));
      PlannedIsHostMade(setting, c, plan);
    }
  }

  lemma PlannedIsHostMade(setting: Setting, c: Canonical, plan: Plan)
    requires Planned(setting, c, plan)
    ensures HostMade(plan.command.events)
  {
    hide MayFollow, PlanSubmit, PlanJoin, DraftDecision, DraftAutoStart;
    if request :| plan == PlanSubmit(setting.sessionId, setting.engine, c, request) {
      SubmitCommits(setting.sessionId, setting.engine, c, request);
      if NeedsAutoStart(c.state, request) {
        AutoStartApplies(c.state, request, setting.engine);
      } else {
        DraftApplies(c.state, request, Some(setting.engine));
      }
    } else {
      var participant, displayName, messageId :|
        plan == PlanJoin(setting.sessionId, c, participant, displayName, messageId);
      JoinCommits(setting.sessionId, c, participant, displayName, messageId);
      JoinIsHostMade(setting.sessionId, c, participant, displayName, messageId);
    }
  }

  lemma JoinIsHostMade(sessionId: SessionId, c: Canonical, participant: ParticipantId, displayName: string,
                       messageId: MessageId)
    requires PlanJoin(sessionId, c, participant, displayName, messageId).Commit?
    ensures HostMade(PlanJoin(sessionId, c, participant, displayName, messageId).command.events)
  {
    JoinCommits(sessionId, c, participant, displayName, messageId);
    DraftApplies(c.state, JoinRequest(c, participant, displayName, messageId), None);
  }
}
