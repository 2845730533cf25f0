/**
 * The append-only JSONL journal: one record per line, `\n` as the commit mark of a line, recovery
 * from an unterminated suffix, and the history of receipts the lines spell out.
 */
module Journal {
  import opened Base
  import opened Domain

  newtype byte = b: int | 0 <= b < 256

  const NEWLINE: byte := 10
  const ACCEPTED_COMMANDS := "accepted_commands"
  const ACCEPTED_BATCH_SCHEMA_VERSION: nat := 1

  /** A receipt: the accepted request and exactly the events it was answered with. */
  datatype AcceptedCommand = AcceptedCommand(request: CommandRequest, events: seq<SessionEvent>)

  /** One journal line: a versioned batch of receipts, or a bare event from before receipts existed. */
  datatype Record =
    | Batch(recordType: string, schemaVersion: nat, commands: seq<AcceptedCommand>)
    | BareEvent(event: SessionEvent)

  /** The text encoding of records, known only through the laws below. */
  datatype Codec = Codec(encode: Record -> seq<byte>, decode: seq<byte> -> Option<Record>)

  predicate IsAsciiSpace(b: byte) {
    b == 9 || b == 10 || b == 12 || b == 13 || b == 32
  }

  predicate AllSpace(content: seq<byte>) {
    forall i | 0 <= i < |content| :: IsAsciiSpace(content[i])
  }

  /** Decoding inverts encoding, and an encoded batch is one visible line. */
  ghost predicate Lawful(codec: Codec) {
    forall r: Record | r.Batch? ::
      && codec.decode(codec.encode(r)) == Some(r)
      && NEWLINE !in codec.encode(r)
      && !AllSpace(codec.encode(r))
  }

  datatype JournalError =
    | InvalidJournalLine(offset: nat)
    | UnknownJournalRecord(recordType: string)
    | UnsupportedAcceptedBatchSchema(version: nat)
    | EmptyAcceptedBatch
    | AcceptedCommandWithoutEvents(messageId: MessageId)
    | AcceptedCommandMissingCausation(messageId: MessageId)
    | DuplicateAcceptedCommand(messageId: MessageId)
    | JournalChangedDuringRecovery(expected: nat, actual: nat)
    | WriteFailed

  datatype Contents = Contents(events: seq<SessionEvent>, receipts: map<MessageId, AcceptedCommand>)

  const NOTHING := Contents([], map[])

  datatype Recovery = Recovery(safeOffset: nat, originalLength: nat)

  datatype Loaded = Loaded(contents: Contents, recovery: Option<Recovery>)

  /** How an append ended: on stable storage, or stopped after some bytes of the line. */
  datatype Disk = Synced | Torn(written: nat)

  // ---- Lines ---------------------------------------------------------------------------------

  predicate Terminated(bytes: seq<byte>) {
    bytes == [] || bytes[|bytes| - 1] == NEWLINE
  }

  /** The length of the longest terminated prefix. */
  function SafeLength(bytes: seq<byte>): (n: nat)
    ensures n <= |bytes| && Terminated(bytes[..n])
    ensures forall i | n <= i < |bytes| :: bytes[i] != NEWLINE
  {
    if Terminated(bytes) then |bytes| else SafeLength(bytes[..|bytes| - 1])
  }

  /** The length of the first line, its newline included. */
  function FirstLine(bytes: seq<byte>): (n: nat)
    requires bytes != [] && Terminated(bytes)
    ensures 1 <= n <= |bytes| && bytes[n - 1] == NEWLINE
    ensures forall i | 0 <= i < n - 1 :: bytes[i] != NEWLINE
  {
    if bytes[0] == NEWLINE then
      1
    else
      var n := FirstLine(bytes[1..]);
      assert forall i | 1 <= i < n :: bytes[i] == bytes[1..][i - 1];
      1 + n
  }

  /** The safe length is determined by the cut: terminated before it, no newline after it. */
  lemma {:induction false} SafeLengthUnique(a: seq<byte>, tail: seq<byte>)
    requires Terminated(a) && NEWLINE !in tail
    ensures SafeLength(a + tail) == |a|
  {
    var bytes := a + tail;
    var n := SafeLength(bytes);
    assert forall i | |a| <= i < |bytes| :: bytes[i] == tail[i - |a|];
    assert n == 0 || bytes[..n][n - 1] == bytes[n - 1];
    assert a == [] || bytes[|a| - 1] == NEWLINE;
  }

  /** The first line ends at the first newline, whatever follows. */
  lemma FirstLineEndsAt(bytes: seq<byte>, n: nat)
    requires bytes != [] && Terminated(bytes)
    requires 1 <= n <= |bytes| && bytes[n - 1] == NEWLINE
    requires forall i | 0 <= i < n - 1 :: bytes[i] != NEWLINE
    ensures FirstLine(bytes) == n
  {
    var m := FirstLine(bytes);
    assert bytes[m - 1] == NEWLINE;
  }

  lemma TerminatedConcat(a: seq<byte>, b: seq<byte>)
    requires Terminated(a) && Terminated(b)
    ensures Terminated(a + b)
  {
    if b == [] {
      assert a + b == a;
    }
  }

  /** More lines after a terminated text leave its first line alone. */
  lemma FirstLineOfConcat(a: seq<byte>, b: seq<byte>)
    requires a != [] && Terminated(a) && Terminated(b)
    ensures Terminated(a + b)
    ensures var n := FirstLine(a);
            && FirstLine(a + b) == n
            && (a + b)[..n - 1] == a[..n - 1]
            && (a + b)[n..] == a[n..] + b
  {
    TerminatedConcat(a, b);
    var n := FirstLine(a);
    assert forall i | 0 <= i < n :: (a + b)[i] == a[i];
    FirstLineEndsAt(a + b, n);
  }

  /** A line written on its own is its own first line. */
  lemma FirstLineOfOne(content: seq<byte>)
    requires NEWLINE !in content
    ensures Terminated(content + [NEWLINE])
    ensures FirstLine(content + [NEWLINE]) == |content| + 1
    ensures (content + [NEWLINE])[..|content|] == content
    ensures (content + [NEWLINE])[|content| + 1..] == []
  {
    FirstLineEndsAt(content + [NEWLINE], |content| + 1);
  }

  /** The contents of the lines of a terminated text, without their newlines. */
  function Lines(bytes: seq<byte>): seq<seq<byte>>
    requires Terminated(bytes)
    decreases |bytes|
  {
    if bytes == [] then
      []
    else
      var n := FirstLine(bytes);
      [bytes[..n - 1]] + Lines(bytes[n..])
  }

  lemma {:induction false} LinesConcat(a: seq<byte>, b: seq<byte>)
    requires Terminated(a) && Terminated(b)
    ensures Terminated(a + b)
    ensures Lines(a + b) == Lines(a) + Lines(b)
    decreases |a|
  {
    if a == [] {
      assert a + b == b;
    } else {
      FirstLineOfConcat(a, b);
      var n := FirstLine(a);
      LinesConcat(a[n..], b);
      ConcatAssociates([a[..n - 1]], Lines(a[n..]), Lines(b));
    }
  }

  lemma LinesOfOne(content: seq<byte>)
    requires NEWLINE !in content
    ensures Terminated(content + [NEWLINE])
    ensures Lines(content + [NEWLINE]) == [content]
  {
    FirstLineOfOne(content);
    assert Lines([]) == [];
  }

  lemma ConcatAssociates<T>(a: seq<T>, b: seq<T>, c: seq<T>)
    ensures (a + b) + c == a + (b + c)
  {
  }

  // ---- Reading -------------------------------------------------------------------------------

  function AbsorbCommand(c: Contents, accepted: AcceptedCommand): Result<Contents, JournalError> {
    var messageId := accepted.request.messageId;
    if accepted.events == [] then
      Err(AcceptedCommandWithoutEvents(messageId))
    else if !HasOwnCausation(accepted) then
      Err(AcceptedCommandMissingCausation(messageId))
    else if messageId in c.receipts then
      Err(DuplicateAcceptedCommand(messageId))
    else
      Ok(Contents(c.events + accepted.events, c.receipts[messageId := accepted]))
  }

  predicate HasOwnCausation(accepted: AcceptedCommand) {
    exists i | 0 <= i < |accepted.events| :: accepted.events[i].causationId == accepted.request.messageId
  }

  function AbsorbCommands(c: Contents, commands: seq<AcceptedCommand>): Result<Contents, JournalError>
    decreases |commands|
  {
    if commands == [] then
      Ok(c)
    else
      var next :- AbsorbCommand(c, commands[0]);
      AbsorbCommands(next, commands[1..])
  }

  function AbsorbAfter(read: Result<Contents, JournalError>, commands: seq<AcceptedCommand>)
    : Result<Contents, JournalError>
  {
    var c :- read;
    AbsorbCommands(c, commands)
  }

  function AbsorbLine(codec: Codec, content: seq<byte>, offset: nat, c: Contents): Result<Contents, JournalError> {
    if AllSpace(content) then
      Ok(c)
    else
      match codec.decode(content)
      case None => Err(InvalidJournalLine(offset))
      case Some(BareEvent(event)) => Ok(c.(events := c.events + [event]))
      case Some(Batch(recordType, schemaVersion, commands)) =>
        if recordType != ACCEPTED_COMMANDS then
          Err(UnknownJournalRecord(recordType))
        else if schemaVersion != ACCEPTED_BATCH_SCHEMA_VERSION then
          Err(UnsupportedAcceptedBatchSchema(schemaVersion))
        else if commands == [] then
          Err(EmptyAcceptedBatch)
        else
          AbsorbCommands(c, commands)
  }

  type LineReader = (seq<byte>, nat, Contents) -> Result<Contents, JournalError>

  function ReaderOf(codec: Codec): LineReader {
    (line: seq<byte>, at: nat, contents: Contents) => AbsorbLine(codec, line, at, contents)
  }

  /** Hands every line to `reader`, with its byte offset, until one fails. */
  function FoldLines(reader: LineReader, lines: seq<seq<byte>>, offset: nat, c: Contents)
    : Result<Contents, JournalError>
    decreases |lines|
  {
    if lines == [] then
      Ok(c)
    else
      var next :- reader(lines[0], offset, c);
      FoldLines(reader, lines[1..], offset + |lines[0]| + 1, next)
  }

  lemma FoldLinesStep(codec: Codec, line: seq<byte>, rest: seq<seq<byte>>, offset: nat, c: Contents)
    ensures FoldLines(ReaderOf(codec), [line] + rest, offset, c) ==
            match AbsorbLine(codec, line, offset, c)
            case Err(error) => Err(error)
            case Ok(next) => FoldLines(ReaderOf(codec), rest, offset + |line| + 1, next)
  {
    assert ([line] + rest)[1..] == rest;
  }

  function ReadLines(codec: Codec, bytes: seq<byte>): Result<Contents, JournalError>
    requires Terminated(bytes)
  {
    FoldLines(ReaderOf(codec), Lines(bytes), 0, NOTHING)
  }

  function Load(codec: Codec, bytes: seq<byte>): Result<Loaded, JournalError> {
    var safe := SafeLength(bytes);
    var contents :- ReadLines(codec, bytes[..safe]);
    Ok(Loaded(contents, if safe == |bytes| then None else Some(Recovery(safe, |bytes|))))
  }

  /** The line an append writes for a batch of receipts. */
  function BatchLine(codec: Codec, commands: seq<AcceptedCommand>): seq<byte> {
    codec.encode(Batch(ACCEPTED_COMMANDS, ACCEPTED_BATCH_SCHEMA_VERSION, commands)) + [NEWLINE]
  }

  function Written(line: seq<byte>, disk: Disk): seq<byte> {
    match disk
    case Synced => line
    case Torn(k) => if k < |line| then line[..k] else line
  }

  /** Reading lines is reading some and then, where that ended, the others. */
  lemma {:induction false} FoldLinesConcat(reader: LineReader, a: seq<seq<byte>>, b: seq<seq<byte>>, offset: nat,
                                           c: Contents) returns (end: nat)
    ensures FoldLines(reader, a + b, offset, c) ==
            match FoldLines(reader, a, offset, c)
            case Err(error) => Err(error)
            case Ok(middle) => FoldLines(reader, b, end, middle)
    decreases |a|
  {
    end := offset;
    if a == [] {
      assert a + b == b;
    } else {
      assert (a + b)[0] == a[0] && (a + b)[1..] == a[1..] + b;
      var absorbed := reader(a[0], offset, c);
      if absorbed.Ok? {
        end := FoldLinesConcat(reader, a[1..], b, offset + |a[0]| + 1, absorbed.value);
      }
    }
  }

  /** A journal that loads, with a batch after it, loads as the same contents plus the batch. */
  lemma {:induction false} ReadAppended(codec: Codec, bytes: seq<byte>, commands: seq<AcceptedCommand>)
    requires Lawful(codec) && Terminated(bytes) && commands != []
    ensures Terminated(bytes + BatchLine(codec, commands))
    ensures ReadLines(codec, bytes + BatchLine(codec, commands)) == AbsorbAfter(ReadLines(codec, bytes), commands)
  {
    var r := Batch(ACCEPTED_COMMANDS, ACCEPTED_BATCH_SCHEMA_VERSION, commands);
    var content, line := codec.encode(r), BatchLine(codec, commands);
    LinesOfOne(content);
    LinesConcat(bytes, line);
    var end := FoldLinesConcat(ReaderOf(codec), Lines(bytes), [content], 0, NOTHING);
    if ReadLines(codec, bytes).Ok? {
      var c := ReadLines(codec, bytes).value;
      assert codec.decode(content) == Some(r);
      assert [content][1..] == [];
      assert FoldLines(ReaderOf(codec), [content], end, c) == AbsorbCommands(c, commands);
    }
  }

  /**
   * The bytes left by an append that stopped anywhere: cut back to the last newline they are the
   * journal from before the append, unless every byte of the line was written.
   */
  lemma {:induction false} TornAppend(codec: Codec, bytes: seq<byte>, commands: seq<AcceptedCommand>, disk: Disk)
    requires Lawful(codec) && Terminated(bytes)
    ensures var line := BatchLine(codec, commands);
            var left := bytes + Written(line, disk);
            if Written(line, disk) == line
            then SafeLength(left) == |left|
            else SafeLength(left) == |bytes| && left[..|bytes|] == bytes
  {
    var r := Batch(ACCEPTED_COMMANDS, ACCEPTED_BATCH_SCHEMA_VERSION, commands);
    var line := BatchLine(codec, commands);
    assert NEWLINE !in codec.encode(r);
    if Written(line, disk) == line {
      SafeLengthUnique(bytes + line, []);
      assert bytes + line + [] == bytes + line;
    } else {
      var k := disk.written;
      assert line[..k] == codec.encode(r)[..k];
      SafeLengthUnique(bytes, line[..k]);
    }
  }

  // ---- What can be loaded --------------------------------------------------------------------

  /** The bytes from `a` up to the newline at `n` are one line of the file. */
  ghost predicate LineAt(bytes: seq<byte>, a: nat, n: nat): (found: bool)
    ensures found ==> a <= n < |bytes|
  {
    && a <= n < |bytes| && bytes[n] == NEWLINE
    && (a == 0 || bytes[a - 1] == NEWLINE)
    && forall i | a <= i < n :: bytes[i] != NEWLINE
  }

  /** The receipts a line carries, whether or not it may. */
  function CommandsIn(codec: Codec, content: seq<byte>): seq<AcceptedCommand> {
    if AllSpace(content) then
      []
    else
      match codec.decode(content)
      case Some(Batch(_, _, commands)) => commands
      case _ => []
  }

  ghost predicate NamedIn(commands: seq<AcceptedCommand>, m: MessageId) {
    exists k | 0 <= k < |commands| :: commands[k].request.messageId == m
  }

  /** A line that starts before position `a` carries a receipt for `m`. */
  ghost predicate NamedBefore(codec: Codec, bytes: seq<byte>, a: nat, m: MessageId) {
    exists b: nat, n: nat | LineAt(bytes, b, n) && b < a :: NamedIn(CommandsIn(codec, bytes[b..n]), m)
  }

  ghost function NamesBefore(codec: Codec, bytes: seq<byte>, a: nat): iset<MessageId> {
    iset m | NamedBefore(codec, bytes, a, m)
  }

  ghost function Taken(c: Contents): iset<MessageId> {
    iset m | m in c.receipts
  }

  ghost predicate SoundReceipt(command: AcceptedCommand) {
    && command.events != []
    && exists i | 0 <= i < |command.events| :: command.events[i].causationId == command.request.messageId
  }

  /** Receipt `k` of a batch has events, its own causation, and an id that is not taken. */
  ghost predicate Admissible(commands: seq<AcceptedCommand>, k: nat, taken: iset<MessageId>)
    requires k < |commands|
  {
    && SoundReceipt(commands[k])
    && commands[k].request.messageId !in taken
    && !NamedIn(commands[..k], commands[k].request.messageId)
  }

  /** A line the journal may hold where the message ids in `taken` have receipts already. */
  ghost predicate Loadable(codec: Codec, content: seq<byte>, taken: iset<MessageId>) {
    || (forall i | 0 <= i < |content| :: content[i] in {9, 10, 12, 13, 32})
    || match codec.decode(content)
       case None => false
       case Some(BareEvent(_)) => true
       case Some(Batch(recordType, schemaVersion, commands)) =>
         && recordType == "accepted_commands" && schemaVersion == 1 && commands != []
         && forall k | 0 <= k < |commands| :: Admissible(commands, k, taken)
  }

  /** What is wrong with receipt `k`, the first one of its batch that cannot be admitted. */
  ghost predicate ReceiptFault(commands: seq<AcceptedCommand>, k: nat, taken: iset<MessageId>, error: JournalError)
    requires k < |commands|
  {
    var m := commands[k].request.messageId;
    && !Admissible(commands, k, taken)
    && (forall l | 0 <= l < k :: Admissible(commands, l, taken))
    && error == if commands[k].events == [] then AcceptedCommandWithoutEvents(m)
                else if !SoundReceipt(commands[k]) then AcceptedCommandMissingCausation(m)
                else DuplicateAcceptedCommand(m)
  }

  /** What is wrong with a line that starts at `offset` and cannot be loaded. */
  ghost predicate LineFault(codec: Codec, content: seq<byte>, offset: nat, taken: iset<MessageId>,
                            error: JournalError)
  {
    && !Loadable(codec, content, taken)
    && match codec.decode(content)
       case Some(Batch(recordType, schemaVersion, commands)) =>
         if recordType != "accepted_commands" then error == UnknownJournalRecord(recordType)
         else if schemaVersion != 1 then error == UnsupportedAcceptedBatchSchema(schemaVersion)
         else if commands == [] then error == EmptyAcceptedBatch
         else exists k: nat | k < |commands| :: ReceiptFault(commands, k, taken, error)
       case _ => error == InvalidJournalLine(offset)
  }

  /** From position `a` on, every line can be loaded after the ones before it. */
  ghost predicate AllLoadable(codec: Codec, bytes: seq<byte>, a: nat) {
    forall b: nat, n: nat | LineAt(bytes, b, n) && a <= b :: Loadable(codec, bytes[b..n], NamesBefore(codec, bytes, b))
  }

  /** The first line from position `a` on that cannot be loaded fails with this error. */
  ghost predicate FirstFault(codec: Codec, bytes: seq<byte>, a: nat, error: JournalError) {
    exists b: nat, n: nat | LineAt(bytes, b, n) && a <= b ::
      && LineFault(codec, bytes[b..n], b, NamesBefore(codec, bytes, b), error)
      && forall c: nat, m: nat | LineAt(bytes, c, m) && a <= c < b ::
           Loadable(codec, bytes[c..m], NamesBefore(codec, bytes, c))
  }

  /** Receipts are absorbed one by one up to the first that cannot be admitted. */
  lemma {:induction false} AbsorbCommandsMeaning(start: Contents, c: Contents, commands: seq<AcceptedCommand>, k: nat)
    requires k <= |commands|
    requires forall l | 0 <= l < k :: Admissible(commands, l, Taken(start))
    requires forall m :: m in c.receipts <==> m in start.receipts || NamedIn(commands[..k], m)
    ensures var taken, r := Taken(start), AbsorbCommands(c, commands[k..]);
            && (r.Ok? <==> forall l | 0 <= l < |commands| :: Admissible(commands, l, taken))
            && (r.Ok? ==> forall m :: m in r.value.receipts <==> m in start.receipts || NamedIn(commands, m))
            && (r.Err? ==> exists l: nat | l < |commands| :: ReceiptFault(commands, l, taken, r.error))
    decreases |commands| - k
  {
    hide SoundReceipt;
    var taken := Taken(start);
    if k == |commands| {
      assert commands[..k] == commands;
    } else {
      var accepted := commands[k];
      SoundReceiptIsChecked(accepted);
      assert commands[k..][0] == accepted && commands[k..][1..] == commands[k + 1..];
      var absorbed := AbsorbCommand(c, accepted);
      if absorbed.Ok? {
        assert Admissible(commands, k, taken);
        forall m
          ensures NamedIn(commands[..k + 1], m) <==> NamedIn(commands[..k], m) || m == accepted.request.messageId
        {
          NamedInOneMore(commands, k, m);
        }
        AbsorbCommandsMeaning(start, absorbed.value, commands, k + 1);
      } else {
        assert !Admissible(commands, k, taken);
        assert ReceiptFault(commands, k, taken, absorbed.error);
      }
    }
  }

  lemma SoundReceiptIsChecked(accepted: AcceptedCommand)
    ensures SoundReceipt(accepted) <==> accepted.events != [] && HasOwnCausation(accepted)
  {
  }

  lemma NamedInOneMore(commands: seq<AcceptedCommand>, k: nat, m: MessageId)
    requires k < |commands|
    ensures NamedIn(commands[..k + 1], m) <==> NamedIn(commands[..k], m) || m == commands[k].request.messageId
  {
    assert commands[..k + 1][k] == commands[k];
    assert forall l | 0 <= l < k :: commands[..k + 1][l] == commands[..k][l];
  }

  lemma AbsorbLineMeaning(codec: Codec, content: seq<byte>, offset: nat, c: Contents)
    ensures var taken, r := Taken(c), AbsorbLine(codec, content, offset, c);
            && (r.Ok? <==> Loadable(codec, content, taken))
            && (r.Ok? ==>
                  forall m :: m in r.value.receipts <==> m in c.receipts || NamedIn(CommandsIn(codec, content), m))
            && (r.Err? ==> LineFault(codec, content, offset, taken, r.error))
  {
    assert AllSpace(content) <==> forall i | 0 <= i < |content| :: content[i] in {9, 10, 12, 13, 32};
    if !AllSpace(content) && codec.decode(content).Some? && codec.decode(content).value.Batch? {
      var commands := codec.decode(content).value.commands;
      hide Admissible, ReceiptFault;
      AbsorbCommandsMeaning(c, c, commands, 0);
      assert commands[0..] == commands;
    }
  }

  /** No other line starts within a line. */
  lemma LinesDoNotOverlap(bytes: seq<byte>, a: nat, n: nat, b: nat, m: nat)
    requires LineAt(bytes, a, n) && LineAt(bytes, b, m) && a <= b
    ensures (b == a && m == n) || n + 1 <= b
  {
  }

  lemma LinesStep(bytes: seq<byte>)
    requires bytes != [] && Terminated(bytes)
    ensures var n := FirstLine(bytes); Terminated(bytes[n..]) && Lines(bytes) == [bytes[..n - 1]] + Lines(bytes[n..])
  {
  }

  /** The first line of what is left from `a` on, and where the next one starts. */
  lemma NextLine(bytes: seq<byte>, safe: nat, a: nat) returns (n: nat)
    requires a < safe <= |bytes| && bytes[safe - 1] == NEWLINE && (a == 0 || bytes[a - 1] == NEWLINE)
    ensures n < safe && LineAt(bytes, a, n)
    ensures Terminated(bytes[a..safe]) && Terminated(bytes[n + 1..safe])
    ensures Lines(bytes[a..safe]) == [bytes[a..n]] + Lines(bytes[n + 1..safe])
  {
    hide *;
    StretchIsTerminated(bytes, safe, a);
    LinesStep(bytes[a..safe]);
    var first := FirstLine(bytes[a..safe]);
    FirstOfStretch(bytes, safe, a, first);
    SliceOfSlice(bytes, a, safe, first - 1);
    SliceOfSlice(bytes, a, safe, first);
    n := a + first - 1;
  }

  lemma SliceOfSlice(bytes: seq<byte>, a: nat, safe: nat, k: nat)
    requires a + k <= safe <= |bytes|
    ensures bytes[a..safe][..k] == bytes[a..a + k] && bytes[a..safe][k..] == bytes[a + k..safe]
  {
  }

  lemma StretchIsTerminated(bytes: seq<byte>, safe: nat, a: nat)
    requires a <= safe <= |bytes| && (safe > 0 ==> bytes[safe - 1] == NEWLINE)
    ensures Terminated(bytes[a..safe])
  {
  }

  lemma FirstOfStretch(bytes: seq<byte>, safe: nat, a: nat, first: nat)
    requires a < safe <= |bytes| && (a == 0 || bytes[a - 1] == NEWLINE)
    requires 1 <= first <= safe - a && bytes[a..safe][first - 1] == NEWLINE
    requires forall i | 0 <= i < first - 1 :: bytes[a..safe][i] != NEWLINE
    ensures LineAt(bytes, a, a + first - 1)
  {
    var rest := bytes[a..safe];
    forall i | a <= i < a + first - 1
      ensures bytes[i] != NEWLINE
    {
      assert rest[i - a] != NEWLINE;
    }
  }

  lemma NamesAfterLine(codec: Codec, bytes: seq<byte>, a: nat, n: nat, m: MessageId)
    requires LineAt(bytes, a, n)
    ensures NamedBefore(codec, bytes, n + 1, m) <==>
            NamedBefore(codec, bytes, a, m) || NamedIn(CommandsIn(codec, bytes[a..n]), m)
  {
    hide LineAt, NamedIn, CommandsIn;
    if NamedBefore(codec, bytes, n + 1, m) {
      var b: nat, k: nat :| LineAt(bytes, b, k) && b < n + 1 && NamedIn(CommandsIn(codec, bytes[b..k]), m);
      if a <= b {
        LinesDoNotOverlap(bytes, a, n, b, k);
      }
    }
  }

  /** What can be loaded from a line on is that line and what can be loaded after it. */
  lemma AllLoadableStep(codec: Codec, bytes: seq<byte>, a: nat, n: nat)
    requires LineAt(bytes, a, n)
    ensures AllLoadable(codec, bytes, a) <==>
            Loadable(codec, bytes[a..n], NamesBefore(codec, bytes, a)) && AllLoadable(codec, bytes, n + 1)
  {
    hide LineAt, Loadable, NamesBefore;
    forall b: nat, m: nat | LineAt(bytes, b, m) && a <= b
      ensures (b == a && m == n) || n + 1 <= b
    {
      LinesDoNotOverlap(bytes, a, n, b, m);
    }
  }

  lemma FirstFaultStep(codec: Codec, bytes: seq<byte>, a: nat, n: nat, error: JournalError)
    requires LineAt(bytes, a, n)
    requires if Loadable(codec, bytes[a..n], NamesBefore(codec, bytes, a))
             then FirstFault(codec, bytes, n + 1, error)
             else LineFault(codec, bytes[a..n], a, NamesBefore(codec, bytes, a), error)
    ensures FirstFault(codec, bytes, a, error)
  {
    hide LineAt, Loadable, LineFault, NamesBefore;
    forall b: nat, m: nat | LineAt(bytes, b, m) && a <= b
      ensures (b == a && m == n) || n + 1 <= b
    {
      LinesDoNotOverlap(bytes, a, n, b, m);
    }
  }

  function ReadFrom(codec: Codec, bytes: seq<byte>, offset: nat, c: Contents): Result<Contents, JournalError>
    requires Terminated(bytes)
  {
    FoldLines(ReaderOf(codec), Lines(bytes), offset, c)
  }

  lemma ReadFromStep(codec: Codec, bytes: seq<byte>, safe: nat, a: nat, n: nat, c: Contents)
    requires a <= n < safe <= |bytes|
    requires Terminated(bytes[a..safe]) && Terminated(bytes[n + 1..safe])
    requires Lines(bytes[a..safe]) == [bytes[a..n]] + Lines(bytes[n + 1..safe])
    ensures ReadFrom(codec, bytes[a..safe], a, c) ==
            match AbsorbLine(codec, bytes[a..n], a, c)
            case Err(error) => Err(error)
            case Ok(next) => ReadFrom(codec, bytes[n + 1..safe], n + 1, next)
  {
    hide Lines, AbsorbLine;
    FoldLinesStep(codec, bytes[a..n], Lines(bytes[n + 1..safe]), a, c);
  }

  /** Reading from position `a` on gets to the end, or to the first line that cannot be loaded. */
  lemma {:induction false} FoldLinesMeaning(codec: Codec, bytes: seq<byte>, safe: nat, a: nat, c: Contents)
    requires a <= safe <= |bytes| && (safe > 0 ==> bytes[safe - 1] == NEWLINE) && (a == 0 || bytes[a - 1] == NEWLINE)
    requires forall i | safe <= i < |bytes| :: bytes[i] != NEWLINE
    requires Taken(c) == NamesBefore(codec, bytes, a)
    ensures Terminated(bytes[a..safe])
    ensures var r := ReadFrom(codec, bytes[a..safe], a, c);
            && (r.Ok? <==> AllLoadable(codec, bytes, a))
            && (r.Err? ==> FirstFault(codec, bytes, a, r.error))
    decreases safe - a
  {
    hide *;
    StretchIsTerminated(bytes, safe, a);
    if a == safe {
      NothingFromEnd(codec, bytes, safe, c);
    } else {
      var n := NextLine(bytes, safe, a);
      LineEnds(bytes, a, n);
      AbsorbLineMeaning(codec, bytes[a..n], a, c);
      ReadFromStep(codec, bytes, safe, a, n, c);
      AllLoadableStep(codec, bytes, a, n);
      var absorbed := AbsorbLine(codec, bytes[a..n], a, c);
      if absorbed.Ok? {
        TakenAfterLine(codec, bytes, a, n, c);
        FoldLinesMeaning(codec, bytes, safe, n + 1, absorbed.value);
      }
      if ReadFrom(codec, bytes[a..safe], a, c).Err? {
        FirstFaultStep(codec, bytes, a, n, ReadFrom(codec, bytes[a..safe], a, c).error);
      }
    }
  }

  lemma NothingFromEnd(codec: Codec, bytes: seq<byte>, safe: nat, c: Contents)
    requires safe <= |bytes| && forall i | safe <= i < |bytes| :: bytes[i] != NEWLINE
    ensures AllLoadable(codec, bytes, safe)
    ensures Terminated(bytes[safe..safe]) && ReadFrom(codec, bytes[safe..safe], safe, c) == Ok(c)
  {
  }

  lemma LineEnds(bytes: seq<byte>, a: nat, n: nat)
    requires LineAt(bytes, a, n)
    ensures bytes[n] == NEWLINE
  {
  }

  lemma TakenAfterLine(codec: Codec, bytes: seq<byte>, a: nat, n: nat, c: Contents)
    requires LineAt(bytes, a, n) && Taken(c) == NamesBefore(codec, bytes, a)
    requires AbsorbLine(codec, bytes[a..n], a, c).Ok?
    ensures Taken(AbsorbLine(codec, bytes[a..n], a, c).value) == NamesBefore(codec, bytes, n + 1)
  {
    hide LineAt, AbsorbLine, CommandsIn, NamedIn, NamedBefore, Loadable;
    AbsorbLineMeaning(codec, bytes[a..n], a, c);
    var after := AbsorbLine(codec, bytes[a..n], a, c).value;
    forall m
      ensures m in Taken(after) <==> m in NamesBefore(codec, bytes, n + 1)
    {
      NamesAfterLine(codec, bytes, a, n, m);
      assert m in Taken(c) <==> m in NamesBefore(codec, bytes, a);
    }
  }

  /**
   * Loading is fail-closed, line by line. It succeeds exactly when every line of the file that ends in a
   * newline is blank, a bare event, or a current batch of receipts that each have events, their own
   * causation, and an id no other receipt of the file has. Otherwise the error is that of the first line
   * for which this fails.
   */
  lemma {:induction false} LoadAcceptsExactly(codec: Codec, bytes: seq<byte>)
    ensures Load(codec, bytes).Ok? <==> AllLoadable(codec, bytes, 0)
    ensures Load(codec, bytes).Err? ==> FirstFault(codec, bytes, 0, Load(codec, bytes).error)
  {
    var safe := SafeLength(bytes);
    assert bytes[0..safe] == bytes[..safe];
    FoldLinesMeaning(codec, bytes, safe, 0, NOTHING);
  }

  // ---- History -------------------------------------------------------------------------------

  datatype Entry = Receipt(command: AcceptedCommand) | Legacy(event: SessionEvent)

  function ReceiptsIn(commands: seq<AcceptedCommand>): seq<Entry> {
    seq(|commands|, i requires 0 <= i < |commands| => Receipt(commands[i]))
  }

  function LineEntries(codec: Codec, content: seq<byte>): seq<Entry> {
    if AllSpace(content) then
      []
    else
      match codec.decode(content)
      case None => []
      case Some(BareEvent(event)) => [Legacy(event)]
      case Some(Batch(_, _, commands)) => ReceiptsIn(commands)
  }

  /** The receipts and bare events of some lines, in order. */
  function EntriesOf(codec: Codec, lines: seq<seq<byte>>): seq<Entry> {
    if lines == [] then [] else LineEntries(codec, lines[0]) + EntriesOf(codec, lines[1..])
  }

  /** The history a journal spells out. */
  function History(codec: Codec, bytes: seq<byte>): seq<Entry>
    requires Terminated(bytes)
  {
    EntriesOf(codec, Lines(bytes))
  }

  function EventsOf(history: seq<Entry>): seq<SessionEvent> {
    if history == [] then
      []
    else
      (match history[0]
       case Receipt(command) => command.events
       case Legacy(event) => [event])
      + EventsOf(history[1..])
  }

  /** `receipts` indexes exactly the receipts of the history, of which no two share a message id. */
  ghost predicate Indexes(receipts: map<MessageId, AcceptedCommand>, history: seq<Entry>) {
    && (forall i | 0 <= i < |history| && history[i].Receipt? ::
          && SoundReceipt(history[i].command)
          && history[i].command.request.messageId in receipts
          && receipts[history[i].command.request.messageId] == history[i].command)
    && (forall m | m in receipts ::
          receipts[m].request.messageId == m && Receipt(receipts[m]) in history)
    && (forall i, j | 0 <= i < j < |history| && history[i].Receipt? && history[j].Receipt? ::
          history[i].command.request.messageId != history[j].command.request.messageId)
  }

  /** Contents tell a history: its events in order, and the index of its receipts. */
  ghost predicate Tells(c: Contents, history: seq<Entry>) {
    c.events == EventsOf(history) && Indexes(c.receipts, history)
  }

  lemma {:induction false} EventsOfConcat(a: seq<Entry>, b: seq<Entry>)
    ensures EventsOf(a + b) == EventsOf(a) + EventsOf(b)
  {
    if a == [] {
      assert a + b == b;
    } else {
      assert (a + b)[0] == a[0] && (a + b)[1..] == a[1..] + b;
      EventsOfConcat(a[1..], b);
    }
  }

  lemma EventsOfOne(entry: Entry)
    ensures EventsOf([entry]) == match entry case Receipt(command) => command.events case Legacy(e) => [e]
  {
    assert EventsOf([entry][1..]) == [];
  }

  lemma AbsorbCommandTells(c: Contents, accepted: AcceptedCommand, history: seq<Entry>)
    requires Tells(c, history) && AbsorbCommand(c, accepted).Ok?
    ensures Tells(AbsorbCommand(c, accepted).value, history + [Receipt(accepted)])
  {
    var longer := history + [Receipt(accepted)];
    EventsOfConcat(history, [Receipt(accepted)]);
    EventsOfOne(Receipt(accepted));
    var d := AbsorbCommand(c, accepted).value;
    assert longer[|history|] == Receipt(accepted);
    forall m | m in d.receipts
      ensures d.receipts[m].request.messageId == m && Receipt(d.receipts[m]) in longer
    {
      if m != accepted.request.messageId {
        assert Receipt(c.receipts[m]) in history;
      }
    }
    assert forall i | 0 <= i < |history| :: longer[i] == history[i];
  }

  lemma {:induction false} AbsorbCommandsTells(c: Contents, commands: seq<AcceptedCommand>, history: seq<Entry>)
    requires Tells(c, history) && AbsorbCommands(c, commands).Ok?
    ensures Tells(AbsorbCommands(c, commands).value, history + ReceiptsIn(commands))
    decreases |commands|
  {
    hide AbsorbCommand, Tells;
    if commands == [] {
      assert history + ReceiptsIn(commands) == history;
    } else {
      var next := AbsorbCommand(c, commands[0]).value;
      AbsorbCommandTells(c, commands[0], history);
      AbsorbCommandsTells(next, commands[1..], history + [Receipt(commands[0])]);
      assert ReceiptsIn(commands) == [Receipt(commands[0])] + ReceiptsIn(commands[1..]);
      ConcatAssociates(history, [Receipt(commands[0])], ReceiptsIn(commands[1..]));
    }
  }

  lemma AbsorbLineTells(codec: Codec, content: seq<byte>, offset: nat, c: Contents, history: seq<Entry>)
    requires Tells(c, history) && AbsorbLine(codec, content, offset, c).Ok?
    ensures Tells(AbsorbLine(codec, content, offset, c).value, history + LineEntries(codec, content))
  {
    if AllSpace(content) {
      assert history + [] == history;
    } else {
      match codec.decode(content).value {
        case Batch(_, _, commands) =>
          AbsorbCommandsTells(c, commands, history);
        case BareEvent(event) =>
          var longer := history + [Legacy(event)];
          EventsOfConcat(history, [Legacy(event)]);
          EventsOfOne(Legacy(event));
          forall m | m in c.receipts
            ensures Receipt(c.receipts[m]) in longer
          {
            assert Receipt(c.receipts[m]) in history;
          }
      }
    }
  }

  lemma {:induction false} FoldLinesTells(codec: Codec, lines: seq<seq<byte>>, offset: nat, c: Contents,
                                          history: seq<Entry>)
    requires Tells(c, history) && FoldLines(ReaderOf(codec), lines, offset, c).Ok?
    ensures Tells(FoldLines(ReaderOf(codec), lines, offset, c).value, history + EntriesOf(codec, lines))
    decreases |lines|
  {
    if lines == [] {
      assert history + [] == history;
    } else {
      AbsorbLineTells(codec, lines[0], offset, c, history);
      var next := AbsorbLine(codec, lines[0], offset, c).value;
      FoldLinesTells(codec, lines[1..], offset + |lines[0]| + 1, next, history + LineEntries(codec, lines[0]));
      ConcatAssociates(history, LineEntries(codec, lines[0]), EntriesOf(codec, lines[1..]));
    }
  }

  /** Whatever a journal is read into is exactly the history its lines spell out. */
  lemma {:induction false} ReadLinesTells(codec: Codec, bytes: seq<byte>)
    requires Terminated(bytes) && ReadLines(codec, bytes).Ok?
    ensures Tells(ReadLines(codec, bytes).value, History(codec, bytes))
  {
    FoldLinesTells(codec, Lines(bytes), 0, NOTHING, []);
    assert [] + History(codec, bytes) == History(codec, bytes);
  }

  /** What one more line adds to the contents before it: nothing, its event, or its receipts and their events. */
  ghost predicate Adds(codec: Codec, content: seq<byte>, before: Contents, after: Contents) {
    if forall i | 0 <= i < |content| :: content[i] in {9, 10, 12, 13, 32} then
      after == before
    else
      match codec.decode(content)
      case Some(BareEvent(event)) => after == before.(events := before.events + [event])
      case Some(Batch(_, _, commands)) =>
        && after.events == before.events + EventsOf(ReceiptsIn(commands))
        && (forall m :: m in after.receipts <==> m in before.receipts || NamedIn(commands, m))
        && (forall m | m in before.receipts :: m in after.receipts && after.receipts[m] == before.receipts[m])
        && (forall k | 0 <= k < |commands| ::
              var m := commands[k].request.messageId; m in after.receipts && after.receipts[m] == commands[k])
      case None => false
  }

  /** Line by line: a file with one more line loads only if it loads without it, and to exactly that much more. */
  lemma {:induction false} LoadOneMoreLine(codec: Codec, bytes: seq<byte>, content: seq<byte>)
    requires Terminated(bytes) && NEWLINE !in content
    ensures Load(codec, []) == Ok(Loaded(Contents([], map[]), None))
    ensures var whole := Load(codec, bytes + content + [NEWLINE]);
            whole.Ok? ==>
              && whole.value.recovery.None?
              && Load(codec, bytes).Ok?
              && Adds(codec, content, Load(codec, bytes).value.contents, whole.value.contents)
  {
    hide *;
    var line := content + [NEWLINE];
    assert bytes + content + [NEWLINE] == bytes + line;
    var end := ReadOneMoreLine(codec, bytes, content);
    TerminatedLoads(codec, bytes);
    TerminatedLoads(codec, bytes + line);
    NothingLoads(codec);
    if ReadLines(codec, bytes + line).Ok? {
      ReadLinesTells(codec, bytes);
      AbsorbLineAdds(codec, content, end, ReadLines(codec, bytes).value, History(codec, bytes));
    }
  }

  lemma NothingLoads(codec: Codec)
    ensures Load(codec, []) == Ok(Loaded(Contents([], map[]), None))
  {
    assert Lines([]) == [];
  }

  lemma ReadOneMoreLine(codec: Codec, bytes: seq<byte>, content: seq<byte>) returns (end: nat)
    requires Terminated(bytes) && NEWLINE !in content
    ensures Terminated(bytes + (content + [NEWLINE]))
    ensures ReadLines(codec, bytes + (content + [NEWLINE])) ==
            match ReadLines(codec, bytes)
            case Err(error) => Err(error)
            case Ok(before) => AbsorbLine(codec, content, end, before)
  {
    hide Terminated, Lines, AbsorbLine;
    LinesOfOne(content);
    LinesConcat(bytes, content + [NEWLINE]);
    end := FoldLinesConcat(ReaderOf(codec), Lines(bytes), [content], 0, NOTHING);
    if ReadLines(codec, bytes).Ok? {
      assert [content] + [] == [content];
      FoldLinesStep(codec, content, [], end, ReadLines(codec, bytes).value);
    }
  }

  lemma TerminatedLoads(codec: Codec, bytes: seq<byte>)
    requires Terminated(bytes)
    ensures Load(codec, bytes) == match ReadLines(codec, bytes)
                                  case Err(error) => Err(error)
                                  case Ok(contents) => Ok(Loaded(contents, None))
  {
    assert bytes[..|bytes|] == bytes;
  }

  lemma AbsorbLineAdds(codec: Codec, content: seq<byte>, offset: nat, c: Contents, history: seq<Entry>)
    requires Tells(c, history) && AbsorbLine(codec, content, offset, c).Ok?
    ensures Adds(codec, content, c, AbsorbLine(codec, content, offset, c).value)
  {
    AbsorbLineMeaning(codec, content, offset, c);
    assert AllSpace(content) <==> forall i | 0 <= i < |content| :: content[i] in {9, 10, 12, 13, 32};
    if !AllSpace(content) && codec.decode(content).value.Batch? {
      var commands := codec.decode(content).value.commands;
      AbsorbCommandsTells(c, commands, history);
      var after, longer := AbsorbCommands(c, commands).value, history + ReceiptsIn(commands);
      EventsOfConcat(history, ReceiptsIn(commands));
      forall k | 0 <= k < |commands|
        ensures commands[k].request.messageId in after.receipts
             && after.receipts[commands[k].request.messageId] == commands[k]
      {
        assert longer[|history| + k] == Receipt(commands[k]);
      }
      forall m | m in c.receipts
        ensures m in after.receipts && after.receipts[m] == c.receipts[m]
      {
        assert Receipt(c.receipts[m]) in history;
        var i :| 0 <= i < |history| && history[i] == Receipt(c.receipts[m]);
        assert longer[i] == history[i];
      }
    }
  }

  lemma {:induction false} EntriesOfConcat(codec: Codec, a: seq<seq<byte>>, b: seq<seq<byte>>)
    ensures EntriesOf(codec, a + b) == EntriesOf(codec, a) + EntriesOf(codec, b)
  {
    if a == [] {
      assert a + b == b;
    } else {
      assert (a + b)[0] == a[0] && (a + b)[1..] == a[1..] + b;
      EntriesOfConcat(codec, a[1..], b);
    }
  }

  /** Appending a batch appends its receipts to the history and changes nothing before them. */
  lemma {:induction false} HistoryAppended(codec: Codec, bytes: seq<byte>, commands: seq<AcceptedCommand>)
    requires Lawful(codec) && Terminated(bytes)
    ensures var whole := bytes + BatchLine(codec, commands);
            && Terminated(whole)
            && History(codec, whole) == History(codec, bytes) + ReceiptsIn(commands)
  {
    var r := Batch(ACCEPTED_COMMANDS, ACCEPTED_BATCH_SCHEMA_VERSION, commands);
    var content := codec.encode(r);
    hide Lines, AllSpace;
    LinesOfOne(content);
    LinesConcat(bytes, BatchLine(codec, commands));
    EntriesOfConcat(codec, Lines(bytes), [content]);
    assert codec.decode(content) == Some(r);
    assert [content][1..] == [];
  }

  /** Where the events of entry `i` begin in the event list. */
  function StartOf(history: seq<Entry>, i: nat): nat
    requires i <= |history|
  {
    |EventsOf(history[..i])|
  }

  /** Every receipt is a contiguous slice of the event list, at the place its journal order gives it. */
  lemma {:induction false} ReceiptsAreContiguous(history: seq<Entry>, i: nat)
    requires i < |history| && history[i].Receipt?
    ensures var start, events := StartOf(history, i), history[i].command.events;
            && start + |events| <= |EventsOf(history)|
            && EventsOf(history)[start..start + |events|] == events
            && StartOf(history, i + 1) == start + |events|
  {
    assert history == history[..i] + history[i..];
    assert history[i..] == [history[i]] + history[i + 1..];
    assert history[..i + 1] == history[..i] + [history[i]];
    EventsOfConcat(history[..i], history[i..]);
    EventsOfConcat([history[i]], history[i + 1..]);
    EventsOfConcat(history[..i], [history[i]]);
    EventsOfOne(history[i]);
  }

  // ---- The store -----------------------------------------------------------------------------

  /** The journal file. A file that does not exist yet is an empty one. */
  class JournalStore {
    const codec: Codec
    var bytes: seq<byte>

    constructor (codec: Codec, bytes: seq<byte>)
      ensures this.codec == codec && this.bytes == bytes
    {
      this.codec, this.bytes := codec, bytes;
    }

    /** Adds the receipts of one batch to what has been read so far. */
    static method CollectReceipts(c: Contents, commands: seq<AcceptedCommand>)
      returns (r: Result<Contents, JournalError>)
      ensures r == AbsorbCommands(c, commands)
    {
      var events, acceptedCommands := c.events, c.receipts;
      var i := 0;
      while i < |commands|
        invariant 0 <= i <= |commands|
        invariant AbsorbCommands(c, commands) == AbsorbCommands(Contents(events, acceptedCommands), commands[i..])
      {
        var accepted := commands[i];
        assert commands[i..][1..] == commands[i + 1..];
        var messageId := accepted.request.messageId;
        if accepted.events == [] {
          return Err(AcceptedCommandWithoutEvents(messageId));
        }
        if !HasOwnCausation(accepted) {
          return Err(AcceptedCommandMissingCausation(messageId));
        }
        if messageId in acceptedCommands {
          return Err(DuplicateAcceptedCommand(messageId));
        }
        acceptedCommands := acceptedCommands[messageId := accepted];
        events := events + accepted.events;
        i := i + 1;
      }
      return Ok(Contents(events, acceptedCommands));
    }

    /** Rebuilds the event list and the receipt index from the terminated lines; writes nothing. */
    method LoadJournal() returns (r: Result<Loaded, JournalError>)
      ensures r == Load(codec, bytes)
    {
      var safeLength := SafeLength(bytes);
      var complete := bytes[..safeLength];
      var recovery := if Terminated(bytes) then None else Some(Recovery(safeLength, |bytes|));
      var events: seq<SessionEvent> := [];
      var acceptedCommands: map<MessageId, AcceptedCommand> := map[];
      var lineOffset: nat := 0;
      var lines := Lines(complete);
      for i := 0 to |lines|
        invariant ReadLines(codec, complete) ==
                  FoldLines(ReaderOf(codec), lines[i..], lineOffset, Contents(events, acceptedCommands))
      {
        var content := lines[i];
        assert lines[i..] == [content] + lines[i + 1..];
        FoldLinesStep(codec, content, lines[i + 1..], lineOffset, Contents(events, acceptedCommands));
        var currentOffset := lineOffset;
        lineOffset := lineOffset + |content| + 1;
        if AllSpace(content) {
          continue;
        }
        var record := codec.decode(content);
        match record {
          case None =>
            return Err(InvalidJournalLine(currentOffset));
          case Some(BareEvent(event)) =>
            events := events + [event];
          case Some(Batch(recordType, schemaVersion, commands)) =>
            if recordType != ACCEPTED_COMMANDS {
              return Err(UnknownJournalRecord(recordType));
            }
            if schemaVersion != ACCEPTED_BATCH_SCHEMA_VERSION {
              return Err(UnsupportedAcceptedBatchSchema(schemaVersion));
            }
            if commands == [] {
              return Err(EmptyAcceptedBatch);
            }
            var absorbed :- CollectReceipts(Contents(events, acceptedCommands), commands);
            events, acceptedCommands := absorbed.events, absorbed.receipts;
        }
      }
      return Ok(Loaded(Contents(events, acceptedCommands), recovery));
    }

    /** Cuts the file back to the safe offset, unless it changed since it was inspected. */
    method ApplyRecovery(recovery: Recovery) returns (r: Result<(), JournalError>)
      requires recovery.safeOffset <= recovery.originalLength
      modifies this
      ensures if |old(bytes)| == recovery.originalLength
              then r.Ok? && bytes == old(bytes)[..recovery.safeOffset]
              else r == Err(JournalChangedDuringRecovery(recovery.originalLength, |old(bytes)|)) && bytes == old(bytes)
    {
      var actualLength := |bytes|;
      if actualLength != recovery.originalLength {
        return Err(JournalChangedDuringRecovery(recovery.originalLength, actualLength));
      }
      bytes := bytes[..recovery.safeOffset];
      return Ok(());
    }

    /** Appends one line for the batch; only a synchronized append reports success. */
    method AppendAccepted(commands: seq<AcceptedCommand>, disk: Disk) returns (r: Result<(), JournalError>)
      modifies this
      ensures bytes == old(bytes) + Written(BatchLine(codec, commands), disk)
      ensures r == if disk.Synced? then Ok(()) else Err(WriteFailed)
    {
      var line := codec.encode(Batch(ACCEPTED_COMMANDS, ACCEPTED_BATCH_SCHEMA_VERSION, commands));
      line := line + [NEWLINE];
      bytes := bytes + Written(line, disk);
      return if disk.Synced? then Ok(()) else Err(WriteFailed);
    }
  }
}
