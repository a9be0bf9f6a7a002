/**
 Turn boundaries read from a JSONL transcript that grows while it is read.

 Decoding one line of JSON is a parameter; a line that is no JSON object
 decodes to None.
 */
module Transcript {
  import opened Wrappers
  import opened PyText

  const MAX_TRANSCRIPT_LINE := 4 * 1024 * 1024
  const MAX_PARTIAL_LINE := MAX_TRANSCRIPT_LINE
  const DEFAULT_TAIL_BYTES := 16 * 1024 * 1024
  const NEWLINE: Byte := 10

  newtype Byte = b: int | 0 <= b < 256
  type Bytes = seq<Byte>

  datatype BlockType = TextBlock | ImageBlock | DocumentBlock | OtherBlock
  datatype Content = Plain(text: string) | Blocks(types: seq<BlockType>) | NoContent
  datatype Role = UserRole | AssistantRole | OtherRole
  datatype Message = Message(role: Role, endTurn: bool, content: Content)
  datatype RowType = UserRow | AssistantRow | OtherRow
  datatype Row = Row(rowType: RowType, isSidechain: bool, isMeta: bool, uuid: Option<string>, message: Option<Message>)
  datatype Uid = Uid(text: string)
  datatype Event = Started(id: Uid) | Completed(id: Uid)
  datatype Lifecycle = Lifecycle(started: seq<Uid>, completed: seq<Uid>, ordered: seq<Event>, partial: Bytes)

  // ---------- one row ----------

  const META_USER_PREFIXES: seq<string> := [
    "This session is being continued from a previous conversation",
    "<command-name>", "<command-message>", "<command-args>", "<local-command-stdout>", "<local-command-stderr>"]

  function WireId(value: Option<string>): Option<Uid> {
    if value.None? || value.value == "" || |value.value| > 256 then None
    else if exists c | c in value.value :: c < ' ' then None
    else Some(Uid(value.value))
  }

  predicate IsRealUserMessage(row: Row, message: Message) {
    && !row.isSidechain && !row.isMeta && message.role == UserRole
    && match message.content
       case Plain(text) =>
         var shown := TrimLeft(text);
         shown != "" && forall p | p in META_USER_PREFIXES :: !(p <= shown)
       case Blocks(types) => TextBlock in types || ImageBlock in types || DocumentBlock in types
       case NoContent => false
  }

  function RowEvent(row: Row): Option<Event> {
    if row.isSidechain || row.message.None? then None
    else
      var message, uid := row.message.value, WireId(row.uuid);
      if uid.None? then None
      else if row.rowType == UserRow && IsRealUserMessage(row, message) then Some(Started(uid.value))
      else if row.rowType == AssistantRow && message.role == AssistantRole && message.endTurn then
        Some(Completed(uid.value))
      else None
  }

  function LineEvents(raw: Bytes, decode: Bytes -> Option<Row>): seq<Event> {
    if raw == [] || |raw| > MAX_TRANSCRIPT_LINE then []
    else
      var row := decode(raw);
      if row.None? || RowEvent(row.value).None? then [] else [RowEvent(row.value).value]
  }

  /** What each line gives, in order. */
  function Gather(lines: seq<Bytes>, give: Bytes -> seq<Event>): seq<Event> {
    if lines == [] then [] else Gather(lines[..|lines| - 1], give) + give(lines[|lines| - 1])
  }

  function Events(lines: seq<Bytes>, decode: Bytes -> Option<Row>): seq<Event> {
    Gather(lines, raw => LineEvents(raw, decode))
  }

  function StartedIds(events: seq<Event>): seq<Uid> {
    if events == [] then []
    else
      StartedIds(events[..|events| - 1]) +
      match events[|events| - 1] case Started(id) => [id] case Completed(_) => []
  }

  function CompletedIds(events: seq<Event>): seq<Uid> {
    if events == [] then []
    else
      CompletedIds(events[..|events| - 1]) +
      match events[|events| - 1] case Completed(id) => [id] case Started(_) => []
  }

  // ---------- splitting ----------

  /** The finished lines of `blob` and what follows the last newline. */
  function Split(blob: Bytes): (seq<Bytes>, Bytes) {
    if blob == [] then ([], [])
    else
      var (lines, tail) := Split(blob[..|blob| - 1]);
      var b := blob[|blob| - 1];
      if b == NEWLINE then (lines + [tail], []) else (lines, tail + [b])
  }

  function Join(lines: seq<Bytes>): Bytes {
    if lines == [] then [] else Join(lines[..|lines| - 1]) + lines[|lines| - 1] + [NEWLINE]
  }

  /** Splitting loses nothing, and no piece holds a newline. */
  lemma {:induction false} SplitJoins(blob: Bytes)
    ensures var (lines, tail) := Split(blob);
            Join(lines) + tail == blob && NEWLINE !in tail && forall l | l in lines :: NEWLINE !in l
  {
    if blob != [] {
      var front := blob[..|blob| - 1];
      SplitJoins(front);
      var (lines, tail) := Split(front);
      assert (lines + [tail])[..|lines|] == lines;
      assert blob == front + [blob[|blob| - 1]];
    }
  }

  lemma {:induction false} SplitOpen(tail: Bytes)
    requires NEWLINE !in tail
    ensures Split(tail) == ([], tail)
  {
    if tail != [] {
      var last := tail[|tail| - 1];
      assert last in tail && tail == tail[..|tail| - 1] + [last];
      SplitOpen(tail[..|tail| - 1]);
    }
  }

  /** Splitting can stop anywhere and go on from the open line. */
  lemma {:induction false} SplitResumes(a: Bytes, b: Bytes)
    ensures var (before, open) := Split(a);
            var (after, tail) := Split(open + b);
            Split(a + b) == (before + after, tail)
  {
    var (before, open) := Split(a);
    if b == [] {
      SplitJoins(a);
      SplitOpen(open);
      assert a + b == a && open + b == open && before + [] == before;
    } else {
      var front := b[..|b| - 1];
      SplitResumes(a, front);
      assert (a + b)[..|a + b| - 1] == a + front;
      assert (open + b)[..|open + b| - 1] == open + front;
      var (after, tail) := Split(open + front);
      assert before + (after + [tail]) == (before + after) + [tail];
    }
  }

  // ---------- parsing ----------

  function Trailing(tail: Bytes): Bytes {
    if |tail| > MAX_PARTIAL_LINE then [] else tail
  }

  function FromEvents(ordered: seq<Event>, partial: Bytes): Lifecycle {
    Lifecycle(StartedIds(ordered), CompletedIds(ordered), ordered, partial)
  }

  function Parsed(data: Bytes, partial: Bytes, decode: Bytes -> Option<Row>): Lifecycle {
    var (lines, tail) := Split(partial + data);
    FromEvents(Events(lines, decode), Trailing(tail))
  }

  lemma {:induction false} EventsStep(pieces: seq<Bytes>, i: nat, decode: Bytes -> Option<Row>)
    requires i < |pieces|
    ensures var e := LineEvents(pieces[i], decode);
            Events(pieces[..i + 1], decode) == if e == [] then Events(pieces[..i], decode)
                else Events(pieces[..i], decode) + e
  {
    assert pieces[..i + 1][..i] == pieces[..i];
  }

  lemma {:induction false} IdsSnoc(events: seq<Event>, e: Event)
    ensures StartedIds(events + [e]) == if e.Started? then StartedIds(events) + [e.id] else StartedIds(events)
    ensures CompletedIds(events + [e]) == if e.Completed? then CompletedIds(events) + [e.id] else CompletedIds(events)
  {
    assert (events + [e])[..|events|] == events;
  }

  method ParseLifecycle(data: Bytes, partial: Bytes, decode: Bytes -> Option<Row>) returns (r: Lifecycle)
    ensures r == Parsed(data, partial, decode)
  {
    var (pieces, tail) := Split(partial + data);
    var trailing := if |tail| > MAX_PARTIAL_LINE then [] else tail;
    var started: seq<Uid>, completed: seq<Uid>, ordered: seq<Event> := [], [], [];
    for i := 0 to |pieces|
      invariant ordered == Events(pieces[..i], decode)
      invariant started == StartedIds(ordered) && completed == CompletedIds(ordered)
    {
      EventsStep(pieces, i, decode);
      var raw := pieces[i];
      if raw == [] || |raw| > MAX_TRANSCRIPT_LINE { continue; }
      var row := decode(raw);
      if row.None? { continue; }
      var event := RowEvent(row.value);
      if event.None? { continue; }
      IdsSnoc(ordered, event.value);
      match event.value {
        case Started(id) => started := started + [id];
        case Completed(id) => completed := completed + [id];
      }
      ordered := ordered + [event.value];
    }
    assert pieces[..|pieces|] == pieces;
    return Lifecycle(started, completed, ordered, trailing);
  }

  lemma {:induction false} GatherPlus(a: seq<Bytes>, b: seq<Bytes>, give: Bytes -> seq<Event>)
    ensures Gather(a + b, give) == Gather(a, give) + Gather(b, give)
  {
    if b == [] {
      assert a + b == a;
    } else {
      GatherPlus(a, b[..|b| - 1], give);
      assert (a + b)[..|a + b| - 1] == a + b[..|b| - 1];
    }
  }

  lemma {:induction false} EventsPlus(a: seq<Bytes>, b: seq<Bytes>, decode: Bytes -> Option<Row>)
    ensures Events(a + b, decode) == Events(a, decode) + Events(b, decode)
  {
    GatherPlus(a, b, raw => LineEvents(raw, decode));
  }

  /** What a reader has after one more chunk; ids are derived from the events. */
  function Fed(before: Lifecycle, chunk: Bytes, decode: Bytes -> Option<Row>): Lifecycle {
    var next := Parsed(chunk, before.partial, decode);
    Lifecycle(before.started + next.started, before.completed + next.completed, before.ordered + next.ordered,
        next.partial)
  }

  function FedAll(chunks: seq<Bytes>, decode: Bytes -> Option<Row>): Lifecycle {
    if chunks == [] then Lifecycle([], [], [], [])
    else Fed(FedAll(chunks[..|chunks| - 1], decode), chunks[|chunks| - 1], decode)
  }

  function Flat(chunks: seq<Bytes>): Bytes {
    if chunks == [] then [] else Flat(chunks[..|chunks| - 1]) + chunks[|chunks| - 1]
  }

  /** At every chunk boundary before the last the open line is within the limit. */
  ghost predicate OpenLinesFit(chunks: seq<Bytes>) {
    forall n | 0 <= n < |chunks| :: OpenLineFits(chunks[..n])
  }

  predicate OpenLineFits(chunks: seq<Bytes>) {
    |Split(Flat(chunks)).1| <= MAX_PARTIAL_LINE
  }

  lemma {:induction false} StartedPlus(a: seq<Event>, b: seq<Event>)
    ensures StartedIds(a + b) == StartedIds(a) + StartedIds(b)
  {
    if b == [] {
      assert a + b == a;
    } else {
      StartedPlus(a, b[..|b| - 1]);
      assert (a + b)[..|a + b| - 1] == a + b[..|b| - 1];
    }
  }

  lemma {:induction false} CompletedPlus(a: seq<Event>, b: seq<Event>)
    ensures CompletedIds(a + b) == CompletedIds(a) + CompletedIds(b)
  {
    if b == [] {
      assert a + b == a;
    } else {
      CompletedPlus(a, b[..|b| - 1]);
      assert (a + b)[..|a + b| - 1] == a + b[..|b| - 1];
    }
  }

  lemma {:induction false} FedFlat(a: Bytes, last: Bytes, decode: Bytes -> Option<Row>)
    requires |Split(a).1| <= MAX_PARTIAL_LINE
    ensures Fed(Parsed(a, [], decode), last, decode) == Parsed(a + last, [], decode)
  {
    var (before, open) := Split(a);
    assert [] + a == a && [] + (a + last) == a + last;
    SplitResumes(a, last);
    var (after, tail) := Split(open + last);
    EventsPlus(before, after, decode);
    StartedPlus(Events(before, decode), Events(after, decode));
    CompletedPlus(Events(before, decode), Events(after, decode));
  }

  /** However the bytes are cut into chunks, the events and the final partial line are the same. */
  lemma {:induction false} ChunkingDoesNotMatter(chunks: seq<Bytes>, decode: Bytes -> Option<Row>)
    requires OpenLinesFit(chunks)
    ensures FedAll(chunks, decode) == Parsed(Flat(chunks), [], decode)
  {
    if chunks == [] {
      assert [] + Flat(chunks) == [];
    } else {
      var front, last := chunks[..|chunks| - 1], chunks[|chunks| - 1];
      assert forall n | 0 <= n < |front| :: front[..n] == chunks[..n];
      ChunkingDoesNotMatter(front, decode);
      assert OpenLineFits(chunks[..|chunks| - 1]);
      FedFlat(Flat(front), last, decode);
    }
  }

  lemma {:induction false} FlatPrefix(chunks: seq<Bytes>, n: nat)
    requires n <= |chunks|
    ensures Flat(chunks[..n]) <= Flat(chunks)
  {
    if n < |chunks| {
      FlatPrefix(chunks[..|chunks| - 1], n);
      assert chunks[..|chunks| - 1][..n] == chunks[..n];
    } else {
      assert chunks[..n] == chunks;
    }
  }

  lemma {:induction false} OpenLineGrows(open: Bytes, b: Bytes)
    requires NEWLINE !in open
    ensures var (lines, tail) := Split(open + b);
            |open| <= |if lines == [] then tail else lines[0]|
  {
    if b == [] {
      SplitOpen(open);
      assert open + b == open;
    } else {
      OpenLineGrows(open, b[..|b| - 1]);
      assert (open + b)[..|open + b| - 1] == open + b[..|b| - 1];
    }
  }

  /** In particular when no line of the whole text, nor its last open line, is too long. */
  lemma {:induction false} ShortLinesFit(chunks: seq<Bytes>)
    requires var (lines, tail) := Split(Flat(chunks));
             |tail| <= MAX_PARTIAL_LINE && forall l | l in lines :: |l| <= MAX_TRANSCRIPT_LINE
    ensures OpenLinesFit(chunks)
  {
    forall n | 0 <= n < |chunks| ensures OpenLineFits(chunks[..n]) {
      FlatPrefix(chunks, n);
      var a, b := Flat(chunks[..n]), Flat(chunks)[|Flat(chunks[..n])|..];
      assert Flat(chunks) == a + b;
      var (before, open) := Split(a);
      SplitJoins(a);
      SplitResumes(a, b);
      OpenLineGrows(open, b);
      var (after, tail) := Split(open + b);
      if after != [] { assert after[0] in before + after; }
    }
  }

  lemma {:induction false} SingleEvents(line: Bytes, decode: Bytes -> Option<Row>)
    ensures Events([line], decode) == LineEvents(line, decode)
  {
    assert [line][..0] == [] && [line][..1] == [line] && Events([], decode) == [];
    EventsStep([line], 0, decode);
    assert [] + LineEvents(line, decode) == LineEvents(line, decode);
  }

  lemma {:induction false} OneLine(line: Bytes, decode: Bytes -> Option<Row>)
    requires NEWLINE !in line
    ensures Parsed(line + [NEWLINE], [], decode).ordered == LineEvents(line, decode)
    ensures Parsed(line, [], decode).ordered == [] && Parsed(line, [], decode).partial == Trailing(line)
  {
    SplitOpen(line);
    assert [] + line == line && [] + (line + [NEWLINE]) == line + [NEWLINE];
    assert (line + [NEWLINE])[..|line|] == line;
    assert Split(line + [NEWLINE]).0 == [line];
    SingleEvents(line, decode);
  }

  lemma {:induction false} FedOne(chunk: Bytes, decode: Bytes -> Option<Row>)
    ensures FedAll([chunk], decode) == Parsed(chunk, [], decode)
  {
    assert [chunk][..0] == [];
    assert FedAll([], decode) == Lifecycle([], [], [], []);
  }

  lemma {:induction false} FedTwo(a: Bytes, b: Bytes, decode: Bytes -> Option<Row>)
    ensures FedAll([a, b], decode) == Fed(FedAll([a], decode), b, decode)
  {
    assert [a, b][..1] == [a];
  }

  lemma {:induction false} FedNothing(before: Lifecycle, chunk: Bytes, decode: Bytes -> Option<Row>)
    requires before.ordered == [] && before.partial == []
    ensures Fed(before, chunk, decode).ordered == Parsed(chunk, [], decode).ordered
  {
  }

  lemma {:induction false} LongLineHasNoEvent(long: Bytes, line: Bytes, decode: Bytes -> Option<Row>)
    requires |long| > MAX_PARTIAL_LINE && NEWLINE !in long && NEWLINE !in line
    ensures Parsed(long + (line + [NEWLINE]), [], decode).ordered == []
  {
    OneLine(long + line, decode);
    assert long + (line + [NEWLINE]) == (long + line) + [NEWLINE];
  }

  /** A too long open line is forgotten at a chunk boundary: what follows then reads as a line of its own. */
  lemma {:induction false} OversizedPartialIsForgotten(long: Bytes, line: Bytes, decode: Bytes -> Option<Row>)
    requires |long| > MAX_PARTIAL_LINE && NEWLINE !in long && NEWLINE !in line
    ensures FedAll([long, line + [NEWLINE]], decode).ordered == LineEvents(line, decode)
    ensures Parsed(Flat([long, line + [NEWLINE]]), [], decode).ordered == []
  {
    var rest := line + [NEWLINE];
    OneLine(long, decode);
    OneLine(line, decode);
    LongLineHasNoEvent(long, line, decode);
    FlatTwo(long, rest);
    FedOne(long, decode);
    FedTwo(long, rest, decode);
    FedNothing(FedAll([long], decode), rest, decode);
  }

  // ---------- any chunks, exactly ----------

  /** What stands before the first newline, or everything. */
  function FirstPiece(b: Bytes): Bytes {
    var (lines, tail) := Split(b);
    if lines == [] then tail else lines[0]
  }

  /** A line that is read as nothing, whatever it decodes to. */
  predicate Skipped(line: Bytes) {
    line == [] || |line| > MAX_TRANSCRIPT_LINE
  }

  /** Reading the chunks gives what reading the whole text at once gives. */
  predicate ReadsAlike(chunks: seq<Bytes>, decode: Bytes -> Option<Row>) {
    FedAll(chunks, decode) == Parsed(Flat(chunks), [], decode)
  }

  /** The partial line a reader holds after the chunks, whatever it decodes. */
  function Carried(chunks: seq<Bytes>): Bytes {
    if chunks == [] then [] else Trailing(Split(Carried(chunks[..|chunks| - 1]) + chunks[|chunks| - 1]).1)
  }

  function OpenLine(chunks: seq<Bytes>): Bytes {
    Split(Flat(chunks)).1
  }

  /** An open line put in front only makes the first piece longer. */
  lemma {:induction false} SplitBehind(open: Bytes, b: Bytes)
    requires NEWLINE !in open
    ensures var (lines, tail) := Split(b);
            Split(open + b) == if lines == [] then ([], open + tail) else ([open + lines[0]] + lines[1..], tail)
  {
    if b == [] {
      assert open + b == open;
      SplitOpen(open);
    } else {
      var front, last := b[..|b| - 1], b[|b| - 1];
      SplitBehind(open, front);
      assert (open + b)[..|open + b| - 1] == open + front;
      var (lines, tail) := Split(front);
      if last == NEWLINE {
        if lines == [] {
          assert ([tail])[1..] == [] && [open + tail] + [] == [open + tail] && [] + [open + tail] == [open + tail];
        } else {
          assert (lines + [tail])[1..] == lines[1..] + [tail];
          assert ([open + lines[0]] + lines[1..]) + [tail] == [open + lines[0]] + (lines[1..] + [tail]);
        }
      } else if lines == [] {
        assert open + (tail + [last]) == (open + tail) + [last];
      }
    }
  }

  lemma {:induction false} EventsFirst(lines: seq<Bytes>, decode: Bytes -> Option<Row>)
    requires lines != []
    ensures Events(lines, decode) == LineEvents(lines[0], decode) + Events(lines[1..], decode)
  {
    assert lines == [lines[0]] + lines[1..];
    EventsPlus([lines[0]], lines[1..], decode);
    SingleEvents(lines[0], decode);
  }

  /** What a reader carries is the open line, or part of one that is too long. */
  lemma {:induction false} CarriedIs(chunks: seq<Bytes>)
    ensures NEWLINE !in Carried(chunks) && NEWLINE !in OpenLine(chunks)
    ensures Carried(chunks) == OpenLine(chunks) || |OpenLine(chunks)| > MAX_PARTIAL_LINE
  {
    SplitJoins(Flat(chunks));
    if chunks != [] {
      var front, last := chunks[..|chunks| - 1], chunks[|chunks| - 1];
      CarriedIs(front);
      SplitJoins(last);
      SplitJoins(Carried(front) + last);
      SplitResumes(Flat(front), last);
      SplitBehind(Carried(front), last);
      SplitBehind(OpenLine(front), last);
    }
  }

  /** The event of the line that the first newline of `b` ends. */
  function Across(open: Bytes, b: Bytes, decode: Bytes -> Option<Row>): (e: seq<Event>)
    ensures |e| <= 1
  {
    if Split(b).0 == [] then [] else LineEvents(open + Split(b).0[0], decode)
  }

  /** The events of the records behind the first newline of `b`. */
  function Later(b: Bytes, decode: Bytes -> Option<Row>): seq<Event> {
    if Split(b).0 == [] then [] else Events(Split(b).0[1..], decode)
  }

  lemma {:induction false} LinesBehind(open: Bytes, b: Bytes, decode: Bytes -> Option<Row>)
    requires NEWLINE !in open
    ensures Events(Split(open + b).0, decode) == Across(open, b, decode) + Later(b, decode)
  {
    var lines := Split(b).0;
    SplitBehind(open, b);
    if lines != [] {
      EventsFirst([open + lines[0]] + lines[1..], decode);
      assert ([open + lines[0]] + lines[1..])[1..] == lines[1..];
    }
  }

  lemma {:induction false} FedIsEvents(chunks: seq<Bytes>, decode: Bytes -> Option<Row>)
    ensures FedAll(chunks, decode) == FromEvents(FedAll(chunks, decode).ordered, Carried(chunks))
  {
    if chunks != [] {
      var front, last := chunks[..|chunks| - 1], chunks[|chunks| - 1];
      FedIsEvents(front, decode);
      var more := Events(Split(Carried(front) + last).0, decode);
      StartedPlus(FedAll(front, decode).ordered, more);
      CompletedPlus(FedAll(front, decode).ordered, more);
    }
  }

  lemma {:induction false} WholeMore(text: Bytes, b: Bytes, decode: Bytes -> Option<Row>)
    ensures Parsed(text + b, [], decode).ordered ==
            Parsed(text, [], decode).ordered + (Across(Split(text).1, b, decode) + Later(b, decode))
    ensures Parsed(text + b, [], decode).partial == Trailing(Split(Split(text).1 + b).1)
  {
    var (before, open) := Split(text);
    assert [] + text == text && [] + (text + b) == text + b;
    SplitResumes(text, b);
    EventsPlus(before, Split(open + b).0, decode);
    SplitJoins(text);
    LinesBehind(open, b, decode);
  }

  /**
   Every record behind the first newline of the next chunk is read as in the whole
   text, and the same partial line is carried on; the readings differ in the one
   line across the cut, at most.
   */
  lemma {:induction false} LaterRecordsAreRead(chunks: seq<Bytes>, b: Bytes, decode: Bytes -> Option<Row>)
    ensures FedAll(chunks + [b], decode).ordered ==
            FedAll(chunks, decode).ordered + (Across(Carried(chunks), b, decode) + Later(b, decode))
    ensures Parsed(Flat(chunks + [b]), [], decode).ordered ==
            Parsed(Flat(chunks), [], decode).ordered + (Across(OpenLine(chunks), b, decode) + Later(b, decode))
    ensures NEWLINE in b ==>
              FedAll(chunks + [b], decode).partial == Parsed(Flat(chunks + [b]), [], decode).partial
              == Trailing(Split(b).1)
  {
    assert (chunks + [b])[..|chunks|] == chunks;
    CarriedIs(chunks);
    FedIsEvents(chunks, decode);
    LinesBehind(Carried(chunks), b, decode);
    WholeMore(Flat(chunks), b, decode);
    SplitJoins(b);
    if NEWLINE in b {
      assert Split(b).0 == [] ==> [] + Split(b).1 == b;
      SplitBehind(Carried(chunks), b);
      SplitBehind(OpenLine(chunks), b);
    }
  }

  /** The events that only the reader of the chunks gets, out of remainders of too long lines. */
  function Extra(chunks: seq<Bytes>, decode: Bytes -> Option<Row>): nat {
    if chunks == [] then 0
    else
      var front, last := chunks[..|chunks| - 1], chunks[|chunks| - 1];
      Extra(front, decode) +
      if Carried(front) == OpenLine(front) then 0 else |Across(Carried(front), last, decode)|
  }

  lemma {:induction false} ExtraCounts(chunks: seq<Bytes>, decode: Bytes -> Option<Row>)
    ensures |FedAll(chunks, decode).ordered| == |Parsed(Flat(chunks), [], decode).ordered| + Extra(chunks, decode)
    ensures Extra(chunks, decode) == 0 ==>
              FedAll(chunks, decode).ordered == Parsed(Flat(chunks), [], decode).ordered
  {
    if chunks == [] {
      assert [] + Flat(chunks) == [];
    } else {
      var front, last := chunks[..|chunks| - 1], chunks[|chunks| - 1];
      assert chunks == front + [last];
      ExtraCounts(front, decode);
      LaterRecordsAreRead(front, last, decode);
      CarriedIs(front);
    }
  }

  /** Nothing comes of the line across this boundary: it was carried whole, goes on, or its remainder is skipped. */
  predicate QuietCut(chunks: seq<Bytes>, n: nat)
    requires n < |chunks|
  {
    var carried := Carried(chunks[..n]);
    || carried == OpenLine(chunks[..n])
    || NEWLINE !in chunks[n]
    || Skipped(carried + FirstPiece(chunks[n]))
  }

  predicate QuietCuts(chunks: seq<Bytes>) {
    forall n | 0 <= n < |chunks| :: QuietCut(chunks, n)
  }

  /** It reads an event out of every line that is not skipped. */
  const LOUD: Bytes -> Option<Row> :=
    raw => Some(Row(AssistantRow, false, false, Some("id"), Some(Message(AssistantRole, true, NoContent))))

  lemma {:induction false} LoudReads(line: Bytes)
    ensures LineEvents(line, LOUD) == [] <==> Skipped(line)
  {
    assert WireId(Some("id")).Some?;
  }

  lemma {:induction false} QuietStep(chunks: seq<Bytes>)
    requires chunks != []
    ensures QuietCuts(chunks) <==> QuietCuts(chunks[..|chunks| - 1]) && QuietCut(chunks, |chunks| - 1)
  {
    var front := chunks[..|chunks| - 1];
    assert forall n | 0 <= n < |front| :: front[..n] == chunks[..n] && front[n] == chunks[n];
    forall n | 0 <= n < |front| ensures QuietCut(front, n) <==> QuietCut(chunks, n) {
    }
  }

  lemma {:induction false} ExtraIff(chunks: seq<Bytes>, decode: Bytes -> Option<Row>)
    ensures QuietCuts(chunks) ==> Extra(chunks, decode) == 0
    ensures Extra(chunks, LOUD) == 0 ==> QuietCuts(chunks)
  {
    if chunks != [] {
      var front, last := chunks[..|chunks| - 1], chunks[|chunks| - 1];
      ExtraIff(front, decode);
      QuietStep(chunks);
      SplitJoins(last);
      assert Split(last).0 == [] ==> [] + Split(last).1 == last;
      LoudReads(Carried(front) + FirstPiece(last));
    }
  }

  /**
   Reading in chunks gives what one read gives, whatever the lines decode to,
   exactly when every boundary is quiet and the last partial line is that of the
   whole text.
   */
  lemma {:induction false} ChunksAgreeIff(chunks: seq<Bytes>)
    ensures (forall decode: Bytes -> Option<Row> :: ReadsAlike(chunks, decode)) <==>
            QuietCuts(chunks) && Carried(chunks) == Trailing(OpenLine(chunks))
  {
    forall decode: Bytes -> Option<Row>
      ensures ReadsAlike(chunks, decode) <==>
              Extra(chunks, decode) == 0 && Carried(chunks) == Trailing(OpenLine(chunks))
    {
      FedIsEvents(chunks, decode);
      ExtraCounts(chunks, decode);
      assert [] + Flat(chunks) == Flat(chunks);
    }
    forall decode: Bytes -> Option<Row> ensures QuietCuts(chunks) ==> Extra(chunks, decode) == 0 {
      ExtraIff(chunks, decode);
    }
    ExtraIff(chunks, LOUD);
    assert ReadsAlike(chunks, LOUD) ==> Extra(chunks, LOUD) == 0;
  }

  /** For one cut: the line across it can be carried, or what the second chunk adds to it is skipped too. */
  lemma {:induction false} CutAgreesIff(a: Bytes, b: Bytes)
    ensures (forall decode: Bytes -> Option<Row> :: ReadsAlike([a, b], decode)) <==>
            |Split(a).1| <= MAX_PARTIAL_LINE || Skipped(FirstPiece(b))
  {
    ChunksAgreeIff([a, b]);
    CarriedOne(a);
    FlatTwo(a, b);
    assert [a, b][..1] == [a] && [a, b][..0] == [];
    assert QuietCuts([a, b]) <==> QuietCut([a, b], 0) && QuietCut([a, b], 1);
    SplitJoins(a);
    SplitJoins(b);
    assert Split(b).0 == [] ==> [] + Split(b).1 == b;
    SplitResumes(a, b);
    SplitBehind(Split(a).1, b);
    SplitBehind(Carried([a]), b);
    assert Carried([a]) == [] ==> Carried([a]) + FirstPiece(b) == FirstPiece(b);
  }

  lemma {:induction false} CarriedOne(a: Bytes)
    ensures Carried([a]) == Trailing(Split(a).1) && OpenLine([a]) == Split(a).1
  {
    assert [a][..0] == [] && [] + a == a;
    assert Carried([]) == [] && Flat([]) == [] && [a][|[a]| - 1] == a;
  }

  lemma {:induction false} FlatTwo(a: Bytes, b: Bytes)
    ensures Flat([a, b]) == a + b
  {
    assert [a, b][..1] == [a] && [a][..0] == [];
    assert Flat([a]) == a;
  }

  // ---------- the tail of a long transcript ----------

  predicate Active(events: seq<Event>) {
    events != [] && events[|events| - 1].Started?
  }

  method AfterFirstNewline(data: Bytes) returns (found: bool, rest: Bytes)
    ensures found == (NEWLINE in data)
    ensures found ==>
              exists k :: 0 <= k < |data| && data[k] == NEWLINE && NEWLINE !in data[..k] && rest == data[k + 1..]
  {
    for k := 0 to |data|
      invariant NEWLINE !in data[..k]
    {
      if data[k] == NEWLINE { return true, data[k + 1..]; }
    }
    return false, [];
  }

  /** The state of the newest turn, from the last `maxBytes` bytes of the file. */
  method TailState(file: Bytes, maxBytes: nat, decode: Bytes -> Option<Row>) returns (active: bool, partial: Bytes)
    requires 1 <= maxBytes <= DEFAULT_TAIL_BYTES
    ensures |file| <= maxBytes ==>
              active == Active(Parsed(file, [], decode).ordered) && partial == Parsed(file, [], decode).partial
    ensures |file| > maxBytes ==>
              var kept := file[|file| - maxBytes..];
              if NEWLINE !in kept then !active && partial == []
              else exists k :: && 0 <= k < |kept| && kept[k] == NEWLINE && NEWLINE !in kept[..k]
                               && active == Active(Parsed(kept[k + 1..], [], decode).ordered)
                               && partial == Parsed(kept[k + 1..], [], decode).partial
  {
    var data := file;
    if |file| > maxBytes {
      data := file[|file| - maxBytes..];
      var found;
      found, data := AfterFirstNewline(data);
      if !found { return false, []; }
    }
    var parsed := ParseLifecycle(data, [], decode);
    active := false;
    for i := 0 to |parsed.ordered|
      invariant active == Active(parsed.ordered[..i])
    {
      active := parsed.ordered[i].Started?;
    }
    assert parsed.ordered[..|parsed.ordered|] == parsed.ordered;
    return active, parsed.partial;
  }

  /** Reading on from a line start gives the newest events of the whole file, in order. */
  lemma {:induction false} TailIsSuffix(before: Bytes, rest: Bytes, decode: Bytes -> Option<Row>)
    requires before != [] && before[|before| - 1] == NEWLINE
    ensures var whole, tail := Parsed(before + rest, [], decode), Parsed(rest, [], decode);
            && whole.ordered == Parsed(before, [], decode).ordered + tail.ordered
            && whole.partial == tail.partial
            && (tail.ordered != [] ==> Active(whole.ordered) == Active(tail.ordered))
  {
    SplitResumes(before, rest);
    assert Split(before).1 == [] && [] + rest == rest && [] + before == before && [] + (before + rest) == before + rest;
    EventsPlus(Split(before).0, Split(rest).0, decode);
  }
}
