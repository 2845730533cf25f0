# SYTOG: the single-authority replicated log, verified in Dafny

SYTOG runs a session under one authority. A host turns each command into events, appends them with the
request as a receipt to a JSONL journal, and only after the synchronized append commits them to memory and
broadcasts them to client replicas, which catch up by sequence number. This project models that pipeline as
one system and proves what holds in every reachable state of it, for any interleaving of commands, commits,
evictions, crashes at any byte of an append, restarts, repeated, lost and reordered batches, catch-ups,
client saves and client restarts.

| file | models |
|---|---|
| `Base.dfy` | results, checked 64-bit sums, trimming, blank identifiers, derived event ids |
| `Domain.dfy` | events, session states, the reducer (as a function, and as the class updated in place) |
| `Protocol.dfy` | the event log and snapshot documents and their validation |
| `Runtime.dfy` | deciding commands, atomic application, replay |
| `SessionHistory.dfy` | what any replayable log says about its session |
| `Journal.dfy` | the journal file: lines, torn appends, recovery, receipts, history |
| `Host.dfy` | planning and committing commands, auto-start, bootstrap, restart |
| `Channels.dfy`, `Delivery.dfy` | the bounded channel with eviction; one connection's cursor |
| `Replicas.dfy` | the client replica: receiving, gaps, saving, loading, convergence |
| `World.dfy` | the whole system as a step machine, its invariant and its theorems |
| `Vote.dfy` | the vote activity, and its conservation law in every reachable system state |
| `Ranking.dfy` | capability matching, scores, and the order of results |
| `Paging.dfy` | V2 page and resynchronization validation |

How the model relates to the code:

* Code that updates fields or loops is a class or a method proved against a function on values; theorems are
  about those functions. `Host.RunningHost`, `Journal.JournalStore`, `Delivery.Connection`,
  `Replicas.ClientReplica`, `Domain.LiveSession` and `Vote.VoteBooth` are the classes.
* `World.Next` is one atomic step: a call that runs under the host's lock, a channel receive, the arrival of a
  message at one end, a crash, a start. It contains every behaviour of the code and a few more: any request
  may come in on any link, and the network may deliver to a client any batch the host ever sent.
* The JSON encoding of journal lines is a parameter (`Journal.Codec`) of which three laws are assumed
  (`Journal.Lawful`): decoding inverts encoding of a batch, an encoded batch contains no newline byte, and it
  is not all white space. The activity is a parameter (`Runtime.Engine`), deterministic by being a function.
* A failed append is a crash: any prefix of the line may be on disk, and the host comes back only through a
  start (`Journal.Disk`). A file that does not exist is an empty one.
* Sequences and revisions are bounded to 64 bits and every overflow check of the code is kept. The vote's
  tally counts with wrapping 32-bit counters, as a release build does.
* The session id is assumed non-blank where journals are restarted: the bootstrap line is written without
  being validated, and `Host.BlankSessionNeverRestarts` shows exactly what happens otherwise.
* `docs/network/v0.2.en.md:98-99` says that a partially written final line is not recovered; the code does
  recover it (`crates/sytog-node/src/lib.rs:751-766`), and the model follows the code.

## Model

| member | source | states |
|---|---|---|
| Text.BlankMeansOnlySpaces | crates/sytog-protocol/src/lib.rs:124-130 | an identifier is refused as blank exactly when all its characters are white space |
| Text.FromCausationInjective | crates/sytog-domain/src/lib.rs:34-36 | derived event ids are equal only for the same message and the same ordinal |
| Domain.LiveSession.ApplyEvent | crates/sytog-domain/src/lib.rs:112-132 | in-place application yields the reducer's state, or its error with every field unchanged |
| Domain.LiveSession.ApplyInSession | crates/sytog-domain/src/lib.rs:134-226 | the session part of the same, all checks before any update |
| Domain.LiveSession.ApplyInActivity | crates/sytog-domain/src/lib.rs:228-258 | the activity part of the same |
| Protocol.ValidateLog | crates/sytog-protocol/src/lib.rs:50-80 | the loop accepts exactly the valid logs and otherwise reports the first defect of the earliest faulty event |
| Protocol.ValidateDecides | crates/sytog-protocol/src/lib.rs:50-80 | accepted means: current versions, non-blank identifiers, sequence base+i+1 at index i, pairwise distinct event ids |
| Protocol.DefectIsTrue | crates/sytog-protocol/src/lib.rs:50-80 | a refusal names what is wrong with the document, or with the first event that no valid log can have in that place |
| Protocol.ValidEventsConcat | crates/sytog-protocol/src/lib.rs:58-78 | a concatenation is valid exactly when both parts are on their own bases and share no event id |
| Protocol.SnapshotDecides | crates/sytog-protocol/src/lib.rs:93-111 | a snapshot is accepted exactly in the current versions, with a non-blank session id, and the session and revision of its state |
| Runtime.DecisionApplies | crates/sytog-runtime/src/lib.rs:57-91 | whatever is decided, in any state, applies and advances the revision by exactly one; persistence is asked for before broadcast |
| Runtime.DecideMeetsReducer | crates/sytog-runtime/src/lib.rs:93-187 | a command is accepted if and only if its revision is current and the reducer accepts the event it proposes |
| Runtime.RejectionIsTrue | crates/sytog-runtime/src/lib.rs:57-187 | every rejection a decision can give is true of the state and the request it was given for |
| Runtime.ApplyDecisionAtomically | crates/sytog-runtime/src/lib.rs:222-232 | all events of a decision are applied, or none and the first error is returned |
| Runtime.Execute | crates/sytog-runtime/src/lib.rs:207-215 | success moves the session to the replay of the decision, one revision further; every failure leaves it unchanged |
| Runtime.ReplayAdvances | crates/sytog-runtime/src/lib.rs:239-244 | a successful replay stays in its session, counts its events and saw contiguous sequences |
| Runtime.ReplayLogExactly | crates/sytog-runtime/src/lib.rs:252-264 | a log replays exactly when it is valid, of that session and revision, and every event applies; each error says which of these fails |
| Runtime.SnapshotPlusSuffix | crates/sytog-runtime/src/lib.rs:252-264 | cutting a valid log anywhere leaves two valid logs whose consecutive replays succeed with the same state or fail with the same error as the whole |
| SessionHistory.ReplayTellsTheLog | crates/sytog-domain/src/lib.rs:94-267 | a replayed state is exactly what its log tells part by part: members, authority, lifecycle, activity with its count of facts and latest state |
| SessionHistory.SessionInvariant | crates/sytog-domain/src/lib.rs:134-226 | revision counts events, only the first event creates, the authority is a participant, an activity exists exactly while active, other lifecycles are unreachable, keys match ids |
| SessionHistory.ReplaysExactly | crates/sytog-domain/src/lib.rs:112-258 | any log at all replays if and only if each event is permitted, as to kind, actor, activity and sequence, by what the events before it tell |
| SessionHistory.ApplyErrorIsTrue | crates/sytog-domain/src/lib.rs:112-258 | after any replayable log, a sequence error carries what the log calls for and what the event has, and an invalid event is one the log does not permit |
| SessionHistory.ParticipantsNeverLeave | crates/sytog-domain/src/lib.rs:143-180 | once in an initialized session a participant stays, unchanged, through every replay |
| Journal.JournalStore.LoadJournal | crates/sytog-node/src/lib.rs:739-838 | the reading loop ends with the contents and the repair, or the error, that Journal.LoadAcceptsExactly and Journal.LoadOneMoreLine characterize, and writes nothing |
| Journal.LoadAcceptsExactly | crates/sytog-node/src/lib.rs:767-832 | a load succeeds if and only if every newline-terminated line is blank, a bare event, or a current non-empty batch whose receipts have events, their own causation and ids used nowhere else in the file; else it fails with the fault of the first other line, and its byte offset |
| Journal.LoadOneMoreLine | crates/sytog-node/src/lib.rs:769-832 | a file with one more line loads to exactly its event, or its receipts and their events, more than the file without it |
| Journal.JournalStore.CollectReceipts | crates/sytog-node/src/lib.rs:804-823 | a batch's receipts are added in order, or refused without events, without own causation, or for a repeated message id |
| Journal.JournalStore.ApplyRecovery | crates/sytog-node/src/lib.rs:840-859 | truncation to the safe offset, refused without change if the length differs from the one inspected |
| Journal.JournalStore.AppendAccepted | crates/sytog-node/src/lib.rs:861-877 | one encoded line is appended, or any prefix of it with an error |
| Journal.SafeLengthUnique | crates/sytog-node/src/lib.rs:751-766 | the safe length is the one cut with a terminated text before it and no newline after it |
| Journal.ReadAppended | crates/sytog-node/src/lib.rs:767-832 | a journal with a batch appended reads back as its old contents plus the batch's receipts |
| Journal.TornAppend | crates/sytog-node/src/lib.rs:751-766 | after a torn append the safe prefix is the old journal, unless the whole line was written |
| Journal.ReadLinesTells | crates/sytog-node/src/lib.rs:767-832 | the loaded events and index are exactly the history the lines spell out, one receipt per message id |
| Journal.HistoryAppended | crates/sytog-node/src/lib.rs:861-877 | an append adds its receipts at the end of the history and changes nothing before them |
| Journal.ReceiptsAreContiguous | crates/sytog-node/src/lib.rs:816-822 | the events of each receipt stand together at the place its journal order gives them |
| Host.AutoStartApplies | crates/sytog-node/src/lib.rs:588-617 | an auto-start receipt is exactly the host's start event and the command's activity event at the next two revisions |
| Host.AutoStartFailsWhole | crates/sytog-node/src/lib.rs:598-611 | if either decision of an auto-start is rejected, the submission is refused with that rejection and nothing is committed |
| Host.SubmitCommits | crates/sytog-node/src/lib.rs:559-641 | what a submission commits records the request as sent, is fresh, valid as the log's continuation, and leads to the candidate state |
| Host.SubmitAnswersExactly | crates/sytog-node/src/lib.rs:559-641 | a submission is committed if and only if its id has no receipt, its revision is current, its one or two decisions are accepted and the extended log is valid; every other answer is determined: receipt, id collision, conflict with both revisions, first rejection, or the defect |
| Host.JoinCommits | crates/sytog-node/src/lib.rs:540-557 | what a join commits is fresh, valid as the log's continuation, and decided in the current state |
| Host.JoinAnswersExactly | crates/sytog-node/src/lib.rs:540-557 | a join is welcomed without an event if and only if the participant is present, and committed, as one joined event, if and only if absent, unreceipted, in an open session, under a non-blank name, and valid in the log; refusals carry the rejection |
| Host.RepliesRepeatReceipts | crates/sytog-node/src/lib.rs:559-576 | only an identical receipted request is answered without a commit, with its original events; other content under its id is refused |
| Host.NothingFailsToApply | crates/sytog-node/src/lib.rs:601-632 | the defensive apply-failed answers are unreachable |
| Host.JournalInvariantFailsExactly | crates/sytog-node/src/lib.rs:668-685 | over a host-made log, prospective validation refuses a submission exactly for a blank message id or actor, or a message id or auto-start id that already caused an event |
| Host.JoinInvariantFailsExactly | crates/sytog-node/src/lib.rs:668-685 | the same for joins |
| Host.CommitKeepsConsistent | crates/sytog-node/src/lib.rs:643-710 | after a commit the journal still reads back as the memory's events and receipts and replays to its state |
| Host.RestartRefinesMemory | crates/sytog-node/src/lib.rs:511-537 | restarting on a running host's journal gives exactly the session it had in memory |
| Host.CrashAtomicity | crates/sytog-node/src/lib.rs:739-838 | after a stop at any byte of a receipt's line, the next start yields the session before it or, if the line is whole, after it |
| Host.StartupEstablishes | crates/sytog-node/src/lib.rs:479-538 | a successful start, from any bytes, puts memory and journal in agreement |
| Host.StartupIsFailClosed | crates/sytog-node/src/lib.rs:479-538 | a start fails exactly if a terminated line cannot be loaded (with the first one's error) or the lines' events are not a valid replayable log, and leaves the bytes; succeeding it cuts after the last newline, and a second start finds the same with nothing to repair |
| Host.BadLineStopsStart | crates/sytog-node/src/lib.rs:780-832 | one line that cannot be loaded, anywhere before the last newline, stops every start with the bytes unchanged |
| Host.BlankSessionNeverRestarts | crates/sytog-node/src/lib.rs:485-505 | a freshly bootstrapped session restarts if and only if its session id is not blank |
| Host.BootstrapDecides | crates/sytog-node/src/lib.rs:489-498 | the bootstrap request is always accepted and opens the session with the host as authority |
| Host.RunningHost.LoadOrCreate | crates/sytog-node/src/lib.rs:479-538 | the start procedure ends, and leaves the journal, as the start function says |
| Host.RunningHost.JoinSession | crates/sytog-node/src/lib.rs:540-557 | the call carries out the join plan that Host.JoinAnswersExactly determines: answered with nothing changed, or appended, then committed and sent |
| Host.RunningHost.Submit | crates/sytog-node/src/lib.rs:559-619 | the call carries out the submission plan that Host.SubmitAnswersExactly determines, auto-start included |
| Host.RunningHost.Accept | crates/sytog-node/src/lib.rs:621-641 | one decision on a copy, then commit |
| Host.RunningHost.CommitAccepted | crates/sytog-node/src/lib.rs:643-710 | collision and validation first; memory and channel change only after a synchronized append |
| Delivery.EventsAfterIsTail | crates/sytog-node/src/lib.rs:712-721 | of a contiguous log the events after a sequence are exactly its tail |
| Delivery.SendHoldsTail | crates/sytog-node/src/lib.rs:705 | with or without eviction the channel retains the newest part of the log |
| Delivery.CommitKeepsTracking | crates/sytog-node/src/lib.rs:447-457 | a commit loses nothing for a connection: what lies beyond its cursor is in its backlog, or a lag is pending |
| Delivery.HelloTracksExactly | crates/sytog-node/src/lib.rs:357-372 | after a hello the connection misses nothing if and only if the announced sequence is not beyond the log; the answer is the suffix from there |
| Delivery.HelloBeyondLogSkips | crates/sytog-node/src/lib.rs:357-361 | a hello beyond the log does make the connection consume committed events unsent |
| Delivery.CatchUpKeepsTracking | crates/sytog-node/src/lib.rs:425-439 | a catch-up answer is the suffix after the named sequence, which never breaks tracking |
| Delivery.ForwardSkipsNothing | crates/sytog-node/src/lib.rs:447-473 | every live batch is contiguous and starts exactly one after the cursor, lagged or not |
| Delivery.DrainedHasSentAll | crates/sytog-node/src/lib.rs:447-461 | with nothing left to receive, the cursor is at the end of the log |
| Delivery.Connection.OnHello | crates/sytog-node/src/lib.rs:357-372 | the handler moves the cursor and answers as specified; the following sequence never overflows |
| Delivery.Connection.OnCatchUpRequest | crates/sytog-node/src/lib.rs:425-439 | the same for catch-up requests |
| Delivery.Connection.OnBroadcast | crates/sytog-node/src/lib.rs:447-473 | the same for receives from the channel |
| Delivery.Connection.OnSubmit | crates/sytog-node/src/lib.rs:386-424 | sender mismatch changes nothing; otherwise the host's plan is carried out, a repeat is answered with its events, and the cursor does not move |
| Delivery.Connection.OnJoin | crates/sytog-node/src/lib.rs:373-385 | the sender becomes the connection's participant and the join plan is carried out |
| Replicas.ClientReplica.ApplyReceivedEvent | crates/sytog-node/src/lib.rs:965-1008 | the call gives the answer that Replicas.ReceiveAnswersExactly determines; every error leaves the replica unchanged |
| Replicas.ReceiveAnswersExactly | crates/sytog-node/src/lib.rs:965-1008 | of any event at a sound replica: already seen if and only if it equals the stored one; another event at a stored sequence, or a stored id at another sequence, is the matching collision; up to the base history is unavailable; the next event is applied if the reducer takes it, a later one is a gap |
| Replicas.ClientReplica.ApplyBatch | crates/sytog-node/src/lib.rs:264-280 | the batch loop stops at the first gap or error, keeping what it applied before |
| Replicas.BatchNeverContradicts | crates/sytog-node/src/lib.rs:264-280 | of any batch: nothing held is lost or replaced, a batch taken to its end is held event by event, and an event contradicting what is held stops the client before it |
| Replicas.FeedIsHeld | crates/sytog-node/src/lib.rs:264-294 | of any batches: a feed taken without gap or error is held event by event |
| Replicas.ReceiveCanonical | crates/sytog-node/src/lib.rs:965-1008 | a canonical event is already seen, applied or a gap exactly as its sequence stands to the revision, and never an error |
| Replicas.BatchOfCanonical | crates/sytog-node/src/lib.rs:264-280 | canonical events in any order with any loss keep the replica a prefix of the log and never stop the client |
| Replicas.BatchOfSlice | crates/sytog-node/src/lib.rs:264-280 | a slice of the log moves the replica to its end, unless it starts beyond the next event, which is the only gap |
| Replicas.GapIsClosedByOneCatchUp | crates/sytog-node/src/lib.rs:282-293 | a gap means the client is behind, and one answered catch-up makes its state the host's |
| Replicas.FeedConverges | crates/sytog-node/src/lib.rs:965-1008 | any batching of the missing suffix with repetitions mixed in ends in the host's state without gap, collision or error |
| Replicas.ReceiveFollowing | crates/sytog-node/src/lib.rs:965-1008 | the same for a replica that started from a snapshot: canonical events up to its base stop it, the others are known, applied or gaps |
| Replicas.SnapshotFollows | crates/sytog-node/src/lib.rs:918-924 | taking up the snapshot of any prefix of the log gives a replica that follows the log from there |
| Replicas.SnapshotClientConverges | crates/sytog-node/src/lib.rs:295-301 | a replica that follows the log from any snapshot, fed the rest, ends in the host's state without gap or error |
| Replicas.ReceiveKeepsSound | crates/sytog-node/src/lib.rs:965-1008 | any event, canonical or not, leaves one event per revision after the base under distinct ids |
| Replicas.SaveLoadRoundTrip | crates/sytog-node/src/lib.rs:926-963 | a saved replica loads unchanged if and only if its session id and event identifiers are non-blank |
| Replicas.ReachableReplicaRoundTrip | crates/sytog-node/src/lib.rs:1019-1056 | the same for every replica a client can reach from any start through any batches |
| Replicas.FromV1IsSound | crates/sytog-node/src/lib.rs:926-963 | every document that loads gives a sound, identified replica |
| Replicas.FromV1LoadsExactly | crates/sytog-node/src/lib.rs:926-963 | a document loads if and only if it has the current schema, a valid snapshot and a valid history from the base to the snapshot's revision, and it loads as exactly that |
| Replicas.LoadsExactly | crates/sytog-node/src/lib.rs:1019-1034 | what a client starts with for no file, a document, or a bare snapshot; another session's is refused |
| Replicas.LoadedIsSound | crates/sytog-node/src/lib.rs:1019-1034 | whatever a client starts from is sound and of its own session |
| World.NextKeepsInv | crates/sytog-node/src/lib.rs:338-476 | every step keeps the system invariant; the recoverable session grows by the bootstrap or one planned receipt, and the log only gets longer |
| World.PrefixSafety | crates/sytog-node/src/lib.rs:686-705 | after any run, crashes included, every replica and saved document is an exact prefix of the log on disk, no client was ever stopped, and memory is what the journal is worth |
| World.RunKeepsInv | crates/sytog-node/src/lib.rs:479-538 | along every run no event moves and no receipt changes or vanishes |
| World.StartRecovers | crates/sytog-node/src/lib.rs:479-538 | a start, torn bootstrap included, brings up what the journal is worth, or bootstraps, or fails without loss |
| World.CommitRecovers | crates/sytog-node/src/lib.rs:686-710 | a commit, durable or torn at any byte, leaves a journal worth the session before or after it |
| World.ExactlyOnce | crates/sytog-node/src/lib.rs:559-576 | a receipted request keeps its receipt through every run; repeating it returns the original events, altering it is refused, and neither changes journal, memory or clients |
| World.StaleChangesNothing | crates/sytog-node/src/lib.rs:577-586 | an unreceipted request with another revision is refused with exactly the current and the sent revision, and changes nothing in the system |
| World.NoStaleCommit | crates/sytog-node/src/lib.rs:577-586 | in every state reached from an empty journal the events of every receipt stand right after the revision its request expected |
| World.MembersStayWelcome | crates/sytog-node/src/lib.rs:547-549 | a participant of the recoverable session stays one through every run, and each later join succeeds and changes nothing |
| World.JoinIsForGood | crates/sytog-node/src/lib.rs:540-557 | after a committed join every later join of that participant, across crashes and restarts, succeeds and changes nothing |
| World.LinearHistory | crates/sytog-node/src/lib.rs:767-832 | the session in memory is told by the journal entry by entry, one receipt per message id, each contiguous |
| World.CommitAppendsHistory | crates/sytog-node/src/lib.rs:664-701 | a commit adds exactly one receipt to the history and its events to the end of the log |
| World.LinkSkipsNothing | crates/sytog-node/src/lib.rs:447-473 | in every reachable state a greeted connection forwards the log without a hole |
| World.HonestCursors | crates/sytog-node/src/lib.rs:191-200 | the cursors clients announce are never beyond the host's log |
| World.QuietLinkHasConverged | crates/sytog-node/src/lib.rs:264-294 | when a connection has nothing left to receive or deliver, its client's state is the host's state |
| World.FreshRunIsHostMade | crates/sytog-runtime/src/lib.rs:79-81 | in a run from an empty journal event ids are derived from their messages and no message causes two events |
| World.FreshRunValidatesExactly | crates/sytog-node/src/lib.rs:668-685 | in every state reached from an empty journal prospective validation refuses exactly as stated for host-made logs |
| Vote.VoteBooth.Open | crates/sytog-demo-vote/src/lib.rs:146-178 | the loop over proposed options opens the vote or leaves the booth unchanged, as the rule says |
| Vote.VoteBooth.Submit | crates/sytog-demo-vote/src/lib.rs:180-202 | the ballot is added or the booth is unchanged, as the rule says |
| Vote.VoteBooth.Close | crates/sytog-demo-vote/src/lib.rs:204-231 | the vote is closed with its tally or unchanged, as the rule says |
| Vote.VoteBooth.CountBallots | crates/sytog-demo-vote/src/lib.rs:217-227 | counting the ballots one by one in any order gives the number of voters of each option |
| Vote.RuleAcceptsExactly | crates/sytog-demo-vote/src/lib.rs:146-231 | when each command is accepted, and what it changes and keeps |
| Vote.TallyIsExact | crates/sytog-demo-vote/src/lib.rs:217-230 | the tally's keys are the options; while ballots fit in 32 bits it counts each option and sums to the ballots |
| Vote.DecodeEncode | crates/sytog-demo-vote/src/lib.rs:116-126 | a vote state stored in the session reads back unchanged |
| Vote.DecodesExactly | crates/sytog-demo-vote/src/lib.rs:118-119 | a value is read as a vote state exactly when it agrees with how that state is written, field by field, a missing optional field being null |
| Vote.CommandDecodesExactly | crates/sytog-demo-vote/src/lib.rs:116-117 | a payload is read as a command exactly when it has every field a client writes for it |
| Vote.TransitionTellsChange | crates/sytog-demo-vote/src/lib.rs:121-142 | the recorded event names itself and tells what changed between the decoded states before and after |
| Vote.RefusalIsTrue | crates/sytog-demo-vote/src/lib.rs:116-216 | each refusal code says which condition fails, the first in order |
| Vote.DecideInBooth | crates/sytog-demo-vote/src/lib.rs:116-143 | decoding, running the command in place and encoding is the engine's decision |
| Vote.RuleKeepsSound | crates/sytog-demo-vote/src/lib.rs:146-231 | an accepted command keeps ballots with participants and listed options, and counts one activity event |
| Vote.DecisionKeepsVote | crates/sytog-runtime/src/lib.rs:158-187 | no session decision breaks a running vote |
| VoteSafety.VoteIsConserved | crates/sytog-demo-vote/src/lib.rs:146-231 | vote conservation along every run of the whole system |
| VoteSafety.VoteIsConservedFromTheStart | crates/sytog-demo-vote/src/lib.rs:106-114 | the same from an empty journal, with no assumption on the vote |
| Ranking.RankNodes | crates/sytog-capabilities/src/lib.rs:273-289 | the loop collects every result and returns the ranking that Ranking.RankHoldsEveryOfferOnce and Ranking.RankPutsBetterFirst determine |
| Ranking.ValidateNode | crates/sytog-capabilities/src/lib.rs:212-250 | accepts exactly the nodes with named, distinct, usable offers and no dangling reference |
| Ranking.ValidateNodes | crates/sytog-capabilities/src/lib.rs:258-270 | accepts exactly lists of valid nodes with distinct ids |
| Ranking.StatusMeaning | crates/sytog-capabilities/src/lib.rs:292-388 | rejected, unavailable and compatible mean exactly which hard constraints hold; only compatible results are scored |
| Ranking.ScoresAreUnit | crates/sytog-capabilities/src/lib.rs:347-367 | every score and the weighted total lie between 0 and 1 |
| Ranking.ScoreMeaning | crates/sytog-capabilities/src/lib.rs:334-363 | the parts are the share of successes, 1000 ms over 1000 ms plus the least successful latency, and the share of the limit left over; the final score is their weighted sum, rounded once |
| Ranking.RoundScoreIsNearest | crates/sytog-capabilities/src/lib.rs:600-602 | rounding gives a multiple of a ten-thousandth, at most half of one away |
| Ranking.CompareIsTotal | crates/sytog-capabilities/src/lib.rs:571-584 | the comparison is antisymmetric and calls equal only results about the same offer of the same node |
| Ranking.CompareIsTransitive | crates/sytog-capabilities/src/lib.rs:571-584 | and transitive |
| Ranking.SortSorts | crates/sytog-capabilities/src/lib.rs:287 | sorting results about different offers gives a strictly sorted permutation |
| Ranking.RankHoldsEveryOfferOnce | crates/sytog-capabilities/src/lib.rs:273-286 | exactly one result per matching offer, one missing-capability result per node without any, nothing else |
| Ranking.CompareIsDictionary | crates/sytog-capabilities/src/lib.rs:582-583 | names compare by the first difference, or a proper prefix comes first |
| Ranking.RankPutsBetterFirst | crates/sytog-capabilities/src/lib.rs:571-592 | nothing but compatible stands before compatible, no rejected before unavailable, no lower score before a higher one, and equals are in dictionary order of node and then offer |
| Ranking.RankIgnoresOrder | crates/sytog-capabilities/src/lib.rs:273-289 | any permutation of nodes, of their offers and of their observations gives the identical ranking |
| Paging.RangeMeaning | crates/sytog-transport/src/lib.rs:229-260 | a range is accepted exactly when it numbers its events from its start through its end |
| Paging.PageMeaning | crates/sytog-transport/src/lib.rs:146-196 | a page is accepted exactly when its bounds are ordered, its terminal flag and snapshot boundary are right and its events are that range |
| Paging.PageRefusalIsTrue | crates/sytog-transport/src/lib.rs:146-260 | each refusal of a page is true of its bounds, or of the first event out of place |
| Paging.PagesDeliverExactlyTheRange | crates/sytog-transport/src/lib.rs:146-196 | chained accepted pages up to a terminal one concatenate to exactly the range up to current, and only the last is terminal |
| Paging.PagesContinueTheirSnapshot | crates/sytog-transport/src/lib.rs:180-190 | pages that continue a snapshot hold every sequence after it and no other |
| Paging.ResyncLeavesNothingUncovered | crates/sytog-transport/src/lib.rs:340-375 | a notice with a snapshot is accepted exactly when every sequence between snapshot and current is retained and the bounds are proper |
| Paging.ResyncRefusalIsTrue | crates/sytog-transport/src/lib.rs:340-375 | each refusal of a resynchronization notice is true of its bounds |
| Paging.MessageMeaning | crates/sytog-transport/src/lib.rs:329-386 | which messages are accepted, kind by kind: live batches, pages, snapshots, and notices with or without a snapshot |

## Left out

- Host.RunningHost.CommitAccepted: takes one receipt; the original takes a list, of which both callers pass one.
- World.Next: any request may arrive on any link, so the sender check of a connection is proved only for `Delivery.Connection.OnSubmit`; this adds behaviours and removes none.
- Delivery.HelloTracksExactly: speaks of one connection; that real clients announce only reachable sequences is `World.HonestCursors`.
- Ranking.ScoreMeaning: the success rate is stated while at most 2^32 - 1 observations concern the offer; beyond, both counts saturate as in the code.
- Ranking.ScoresAreUnit: scores are exact reals; the rounding errors of floating point are not modelled, only the explicit rounding to four decimals.
- Ranking.SortSorts: the library's stable sort is modelled as insertion; the order of results is what is proved, not the algorithm.
- Journal.Lawful: JSON itself, and numbers that are not integers, are not modelled; a concrete codec is not given.
- A host that goes on serving after a failed or unsynchronized append.
- `metadata.json`, `snapshot.json` of the host and the temporary-file renames: written, never read back by the host.
- Read errors, missing permissions and byte offsets beyond 64 bits.
- WebSocket and TCP plumbing, task scheduling, the interactive loop, the command line, the Wasm façade.
- The counter demo, envelope labels, reason-code tables and human-readable error texts.
- Fairness, timing and authentication: nothing is claimed about them.
- Bounded queues, admission, version negotiation and retention: described in documents, without code.
