/**
 * The telemetry exporter (src/telemetry/export/files.ts): names to files, files to session
 * streams, and the merge of the streams. `localeCompare` is modelled as code-unit order.
 */
module Export {
  import opened Basics
  import opened Text
  import opened Calendar
  import opened FileNames
  import opened WireFormat
  import opened TelemetryFiles
  import opened DateRanges

  // ----- one file -----

  /** What one file yields: the events before its first bad line, and whether there was one. */
  datatype FileRead = FileRead(events: seq<TelemetryEvent>, failed: bool)

  function ReadLines(instant: Instant, header: Option<Header>, lines: seq<TextLine>): FileRead
    decreases |lines|
  {
    if lines == [] then FileRead([], false)
    else
      match lines[0].content
      case Blank => ReadLines(instant, header, lines[1..])
      case Malformed => FileRead([], true)
      case _ =>
        var (next, parsed) := ParseLine(instant, header, lines[0].content.json);
        match parsed
        case Err(_) => FileRead([], true)
        case Ok(None) => ReadLines(instant, next, lines[1..])
        case Ok(Some(e)) =>
          var rest := ReadLines(instant, next, lines[1..]);
          rest.(events := [e] + rest.events)
  }

  function Keep(instant: Instant, r: DateRange, events: seq<TelemetryEvent>): seq<TelemetryEvent> {
    if events == [] then []
    else
      var ms := instant(events[0].timestamp);
      (if ms.Some? && InRange(ms.value, r) then [events[0]] else []) + Keep(instant, r, events[1..])
  }

  lemma {:induction false} KeepAppend(instant: Instant, r: DateRange, a: seq<TelemetryEvent>, b: seq<TelemetryEvent>)
    ensures Keep(instant, r, a + b) == Keep(instant, r, a) + Keep(instant, r, b)
  {
    if a == [] {
      assert a + b == b;
    } else {
      assert (a + b)[1..] == a[1..] + b && (a + b)[0] == a[0];
      KeepAppend(instant, r, a[1..], b);
    }
  }

  predicate Stamped(instant: Instant, events: seq<TelemetryEvent>) {
    forall i :: 0 <= i < |events| ==> instant(events[i].timestamp).Some?
  }

  lemma {:induction false} ReadLinesStamped(instant: Instant, header: Option<Header>, lines: seq<TextLine>)
    ensures Stamped(instant, ReadLines(instant, header, lines).events)
    decreases |lines|
  {
    if lines != [] {
      var content := lines[0].content;
      if content.Blank? {
        ReadLinesStamped(instant, header, lines[1..]);
      } else if !content.Malformed? {
        var (next, parsed) := ParseLine(instant, header, content.json);
        ReadLinesStamped(instant, next, lines[1..]);
      }
    }
  }

  /** Reading on from line `i` with the header read so far completes the whole read. */
  predicate ReadSoFar(instant: Instant, lines: seq<TextLine>, i: nat, header: Option<Header>, seen: seq<TelemetryEvent>)
    requires i <= |lines|
  {
    var rest := ReadLines(instant, header, lines[i..]);
    ReadLines(instant, None, lines) == FileRead(seen + rest.events, rest.failed)
  }

  lemma ReadOneLine(instant: Instant, lines: seq<TextLine>, i: nat, header: Option<Header>, seen: seq<TelemetryEvent>)
    requires i < |lines| && ReadSoFar(instant, lines, i, header, seen)
    ensures var content := lines[i].content;
            if content.Blank? then ReadSoFar(instant, lines, i + 1, header, seen)
            else if content.Malformed? then ReadLines(instant, None, lines) == FileRead(seen, true)
            else
              var (next, parsed) := ParseLine(instant, header, content.json);
              if parsed.Err? then ReadLines(instant, None, lines) == FileRead(seen, true)
              else ReadSoFar(instant, lines, i + 1, next, seen + (if parsed.value.Some? then [parsed.value.value] else []))
  {
    assert lines[i..][1..] == lines[i + 1..];
    var content := lines[i].content;
    assert seen + [] == seen;
    if !content.Blank? && !content.Malformed? {
      var (next, parsed) := ParseLine(instant, header, content.json);
      if parsed.Ok? && parsed.value.Some? {
        ConcatAssoc(seen, [parsed.value.value], ReadLines(instant, next, lines[i + 1..]).events);
      }
    }
  }

  /** The same for a line that went through the parser. */
  lemma ReadParsedLine(instant: Instant, lines: seq<TextLine>, i: nat, header: Option<Header>, seen: seq<TelemetryEvent>,
                       ok: bool, next: Option<Header>, event: seq<TelemetryEvent>)
    requires i < |lines| && !lines[i].content.Blank? && ReadSoFar(instant, lines, i, header, seen)
    requires lines[i].content.Malformed? ==> !ok
    requires !lines[i].content.Malformed? ==>
               var (after, parsed) := ParseLine(instant, header, lines[i].content.json);
               ok == parsed.Ok? && next == after && event == if ok && parsed.value.Some? then [parsed.value.value] else []
    ensures if ok then ReadSoFar(instant, lines, i + 1, next, seen + event)
            else ReadLines(instant, None, lines) == FileRead(seen, true)
  {
    ReadOneLine(instant, lines, i, header, seen);
  }

  /** The read failed with the events seen, or is still to be completed from line `i` on. */
  predicate Stands(instant: Instant, lines: seq<TextLine>, i: nat, header: Option<Header>, seen: seq<TelemetryEvent>,
                   failed: bool)
    requires i <= |lines|
  {
    if failed then ReadLines(instant, None, lines) == FileRead(seen, true) else ReadSoFar(instant, lines, i, header, seen)
  }

  lemma ReadStarts(instant: Instant, lines: seq<TextLine>)
    ensures Stands(instant, lines, 0, None, [], false)
  {
    assert lines[0..] == lines;
    var read := ReadLines(instant, None, lines);
    assert [] + read.events == read.events;
  }

  lemma ReadToEnd(instant: Instant, lines: seq<TextLine>, header: Option<Header>, seen: seq<TelemetryEvent>)
    requires ReadSoFar(instant, lines, |lines|, header, seen)
    ensures ReadLines(instant, None, lines) == FileRead(seen, false)
  {
    assert lines[|lines|..] == [];
    assert seen + [] == seen;
  }

  /** One non-blank line through the parser: the event it holds joins the output if in range. */
  method StreamLine(parser: TelemetryFileParser, content: Line, range: DateRange, events: seq<TelemetryEvent>)
    returns (ok: bool, events': seq<TelemetryEvent>, ghost event: seq<TelemetryEvent>)
    requires parser.Valid() && !content.Blank?
    modifies parser
    ensures parser.Valid() && (content.Malformed? ==> !ok) && (!ok ==> events' == events)
    ensures events' == events + Keep(parser.instant, range, event)
    ensures !content.Malformed? ==>
              var (next, parsed) := ParseLine(parser.instant, old(parser.header), content.json);
              ok == parsed.Ok? && parser.header == next
              && event == if ok && parsed.value.Some? then [parsed.value.value] else []
  {
    ok, events', event := false, events, [];
    if content.Malformed? { return; }
    var r := parser.Parse(content.json);
    ok := r.Ok?;
    if ok && r.value.Some? {
      var e := r.value.value;
      event := [e];
      var ms := parser.instant(e.timestamp);
      if ms.Some? && InRange(ms.value, range) {
        events' := events + [e];
      }
    }
  }

  /** One turn of the loop: a blank line is passed over, any other goes through the parser. */
  method StreamNext(parser: TelemetryFileParser, lines: seq<TextLine>, i: nat, range: DateRange,
                    events: seq<TelemetryEvent>, ghost seen: seq<TelemetryEvent>)
    returns (ok: bool, events': seq<TelemetryEvent>, ghost seen': seq<TelemetryEvent>)
    requires parser.Valid() && i < |lines| && events == Keep(parser.instant, range, seen)
    requires ReadSoFar(parser.instant, lines, i, parser.header, seen)
    modifies parser
    ensures parser.Valid() && events' == Keep(parser.instant, range, seen')
    ensures Stands(parser.instant, lines, i + 1, parser.header, seen', !ok)
  {
    if lines[i].content.Blank? {
      ReadOneLine(parser.instant, lines, i, parser.header, seen);
      return true, events, seen;
    }
    ghost var event, header := [], parser.header;
    ok, events', event := StreamLine(parser, lines[i].content, range, events);
    ReadParsedLine(parser.instant, lines, i, header, seen, ok, parser.header, event);
    KeepAppend(parser.instant, range, seen, event);
    seen' := if ok then seen + event else seen;
  }

  /** The loop over the lines of one file, with its parser object. */
  method StreamFile(instant: Instant, lines: seq<TextLine>, range: DateRange)
    returns (events: seq<TelemetryEvent>, failed: bool)
    ensures var read := ReadLines(instant, None, lines);
            events == Keep(instant, range, read.events) && failed == read.failed
  {
    var parser := new TelemetryFileParser(instant);
    events, failed := [], false;
    var i := 0;
    ghost var seen: seq<TelemetryEvent> := [];
    ReadStarts(instant, lines);
    while i < |lines| && !failed
      invariant 0 <= i <= |lines| && parser.Valid() && parser.instant == instant && fresh(parser)
      invariant events == Keep(instant, range, seen) && Stands(instant, lines, i, parser.header, seen, failed)
    {
      var ok;
      ok, events, seen := StreamNext(parser, lines, i, range, events, seen);
      i, failed := i + 1, !ok;
    }
    if !failed {
      assert i == |lines|;
      ReadToEnd(instant, lines, parser.header, seen);
    }
  }

  // ----- names to session groups -----

  datatype LogFile = LogFile(name: string, date: string, session: string, part: nat)

  function ParseLogFile(name: string): Option<LogFile> {
    var p := ParseFileName(name);
    if p.None? then None else Some(LogFile(name, p.value.date, p.value.session, p.value.part))
  }

  /** `listTelemetryFilesForRange` before the sort: names that parse and whose date the range can contain. */
  function Listed(names: seq<string>, r: DateRange): seq<LogFile>
    requires HasDates(r)
  {
    if names == [] then []
    else
      var f := ParseLogFile(names[0]);
      (if f.Some? && FileDateCanContain(f.value.date, r) then [f.value] else []) + Listed(names[1..], r)
  }

  /** `compareLogFiles(a, b) <= 0`. */
  predicate LogLe(a: LogFile, b: LogFile) {
    if a.date != b.date then LexLe(a.date, b.date)
    else if a.session != b.session then LexLe(a.session, b.session)
    else a.part <= b.part
  }

  lemma LogTransitive(a: LogFile, b: LogFile, c: LogFile)
    requires LogLe(a, b) && LogLe(b, c)
    ensures LogLe(a, c)
  {
    if a.date != b.date && b.date != c.date {
      LexTransitive(a.date, b.date, c.date);
      if a.date == c.date { LexAntisymmetric(a.date, b.date); }
    } else if a.date == b.date && b.date == c.date {
      if a.session != b.session && b.session != c.session {
        LexTransitive(a.session, b.session, c.session);
        if a.session == c.session { LexAntisymmetric(a.session, b.session); }
      }
    }
  }

  lemma LogOrder()
    ensures TotalPreorder(LogLe)
  {
    forall a, b ensures LogLe(a, b) || LogLe(b, a) {
      LexTotal(a.date, b.date);
      LexTotal(a.session, b.session);
    }
    forall a, b, c | LogLe(a, b) && LogLe(b, c) ensures LogLe(a, c) { LogTransitive(a, b, c); }
  }

  /** `files.sort(compareLogFiles)`. */
  function SortLogs(files: seq<LogFile>): seq<LogFile> {
    SortBy(LogLe, files)
  }

  function OfSession(files: seq<LogFile>, session: string): seq<LogFile> {
    if files == [] then []
    else (if files[0].session == session then [files[0]] else []) + OfSession(files[1..], session)
  }

  /** The sessions of the files, each once, in order of first appearance: the keys of `Map.groupBy`. */
  function Sessions(files: seq<LogFile>): (r: seq<string>)
    ensures Distinct(r)
    ensures forall s :: s in r <==> exists i :: 0 <= i < |files| && files[i].session == s
  {
    if files == [] then []
    else
      var last := files[|files| - 1].session;
      var before := Sessions(files[..|files| - 1]);
      if last in before then before else before + [last]
  }

  /** `groupFilesBySession`. */
  function GroupBySession(files: seq<LogFile>): seq<seq<LogFile>> {
    var sorted := SortLogs(files);
    var sessions := Sessions(sorted);
    seq(|sessions|, i requires 0 <= i < |sessions| => OfSession(sorted, sessions[i]))
  }

  // ----- the merge -----

  /** An emitted event, with the number of the stream it came from. */
  datatype Emitted = Emitted(event: TelemetryEvent, stream: nat)

  datatype Cursor = Cursor(event: TelemetryEvent, timestampMs: int, stream: nat)

  function Ms(instant: Instant, e: TelemetryEvent): int {
    var ms := instant(e.timestamp);
    if ms.Some? then ms.value else 0
  }

  /** Order by timestamp, then by session id. */
  predicate EventLe(instant: Instant, a: TelemetryEvent, b: TelemetryEvent) {
    if Ms(instant, a) != Ms(instant, b) then Ms(instant, a) < Ms(instant, b)
    else LexLe(a.context.session.sessionId, b.context.session.sessionId)
  }

  lemma EventTotal(instant: Instant, a: TelemetryEvent, b: TelemetryEvent)
    ensures EventLe(instant, a, b) || EventLe(instant, b, a)
  {
    LexTotal(a.context.session.sessionId, b.context.session.sessionId);
  }

  lemma EventTransitive(instant: Instant, a: TelemetryEvent, b: TelemetryEvent, c: TelemetryEvent)
    requires EventLe(instant, a, b) && EventLe(instant, b, c)
    ensures EventLe(instant, a, c)
  {
    if Ms(instant, a) == Ms(instant, b) == Ms(instant, c) {
      LexTransitive(a.context.session.sessionId, b.context.session.sessionId, c.context.session.sessionId);
    }
  }

  predicate SortedEvents(instant: Instant, events: seq<TelemetryEvent>) {
    forall i, j :: 0 <= i < j < |events| ==> EventLe(instant, events[i], events[j])
  }

  predicate SortedOutput(instant: Instant, out: seq<Emitted>) {
    forall i, j :: 0 <= i < j < |out| ==> EventLe(instant, out[i].event, out[j].event)
  }

  /** The events that came from stream `k`, in output order. */
  function Project(out: seq<Emitted>, k: nat): seq<TelemetryEvent> {
    if out == [] then []
    else
      var last := out[|out| - 1];
      Project(out[..|out| - 1], k) + (if last.stream == k then [last.event] else [])
  }

  lemma ProjectSnoc(out: seq<Emitted>, e: Emitted, k: nat)
    ensures Project(out + [e], k) == Project(out, k) + (if e.stream == k then [e.event] else [])
  {
    assert (out + [e])[..|out|] == out;
  }

  /** Every event of every stream is emitted exactly once, and each stream keeps its own order. */
  predicate IsMerge(streams: seq<seq<TelemetryEvent>>, out: seq<Emitted>) {
    && (forall i :: 0 <= i < |out| ==> out[i].stream < |streams|)
    && (forall k :: 0 <= k < |streams| ==> Project(out, k) == streams[k])
  }

  /** With `out` emitted, the event comes no later than what any stream has next. */
  predicate LeastNow(instant: Instant, streams: seq<seq<TelemetryEvent>>, out: seq<Emitted>, e: TelemetryEvent) {
    forall k :: 0 <= k < |streams| && |Project(out, k)| < |streams[k]| ==> EventLe(instant, e, streams[k][|Project(out, k)|])
  }

  /** Each event was a least one of those next in their streams when it was emitted. */
  predicate Greedy(instant: Instant, streams: seq<seq<TelemetryEvent>>, out: seq<Emitted>) {
    forall i :: 0 <= i < |out| ==> LeastNow(instant, streams, out[..i], out[i].event)
  }

  lemma GreedySnoc(instant: Instant, streams: seq<seq<TelemetryEvent>>, out: seq<Emitted>, e: Emitted)
    requires LeastNow(instant, streams, out, e.event)
    ensures Greedy(instant, streams, out) ==> Greedy(instant, streams, out + [e])
  {
    var next := out + [e];
    assert next[..|out|] == out;
    forall i | 0 <= i < |out| ensures next[..i] == out[..i] {}
  }

  predicate InFrontier(frontier: seq<Cursor>, k: nat) {
    exists i :: 0 <= i < |frontier| && frontier[i].stream == k
  }

  /**
   * The books of the merge: `pos[k]` events of stream `k` have been taken, `done[k]` emitted;
   * the difference is the one in the frontier.
   */
  predicate Merging(streams: seq<seq<TelemetryEvent>>, pos: seq<nat>, done: seq<nat>, out: seq<Emitted>) {
    && |pos| == |done| == |streams|
    && (forall k :: 0 <= k < |streams| ==> done[k] <= pos[k] <= |streams[k]| && pos[k] <= done[k] + 1)
    && (forall i :: 0 <= i < |out| ==> out[i].stream < |streams|)
    && (forall k :: 0 <= k < |streams| ==> Project(out, k) == streams[k][..done[k]])
  }

  predicate Frontier(instant: Instant, streams: seq<seq<TelemetryEvent>>, pos: seq<nat>, done: seq<nat>,
                     frontier: seq<Cursor>)
    requires |pos| == |done| == |streams|
  {
    && (forall i :: 0 <= i < |frontier| ==>
          && frontier[i].stream < |streams|
          && pos[frontier[i].stream] == done[frontier[i].stream] + 1 <= |streams[frontier[i].stream]|
          && frontier[i].event == streams[frontier[i].stream][done[frontier[i].stream]]
          && frontier[i].timestampMs == Ms(instant, frontier[i].event))
    && (forall i, j :: 0 <= i < j < |frontier| ==> frontier[i].stream != frontier[j].stream)
    && (forall k :: 0 <= k < |streams| && pos[k] == done[k] + 1 ==> InFrontier(frontier, k))
  }

  function Remaining(streams: seq<seq<TelemetryEvent>>, pos: seq<nat>): int
    requires |pos| == |streams|
  {
    if pos == [] then 0 else |streams[0]| - pos[0] + Remaining(streams[1..], pos[1..])
  }

  lemma {:induction false} RemainingStep(streams: seq<seq<TelemetryEvent>>, pos: seq<nat>, k: nat)
    requires |pos| == |streams| && k < |pos|
    ensures Remaining(streams, pos[k := pos[k] + 1]) == Remaining(streams, pos) - 1
  {
    var next := pos[k := pos[k] + 1];
    if k == 0 {
      assert next[1..] == pos[1..];
    } else {
      assert next[1..] == pos[1..][k - 1 := pos[k] + 1];
      RemainingStep(streams[1..], pos[1..], k - 1);
    }
  }

  lemma {:induction false} RemainingNonNegative(streams: seq<seq<TelemetryEvent>>, pos: seq<nat>)
    requires |pos| == |streams| && forall k :: 0 <= k < |streams| ==> pos[k] <= |streams[k]|
    ensures Remaining(streams, pos) >= 0
  {
    if pos != [] { RemainingNonNegative(streams[1..], pos[1..]); }
  }

  /** The cursor for event `n` of stream `k`, if there is one. */
  function Refill(instant: Instant, events: seq<TelemetryEvent>, n: nat, k: nat): seq<Cursor> {
    if n < |events| then [Cursor(events[n], Ms(instant, events[n]), k)] else []
  }

  /** `advanceCursor`: the stream's next event, if any, joins the frontier. */
  method AdvanceCursor(instant: Instant, streams: seq<seq<TelemetryEvent>>, pos: seq<nat>, frontier: seq<Cursor>, k: nat,
                       ghost done: seq<nat>)
    returns (pos': seq<nat>, frontier': seq<Cursor>)
    requires |pos| == |done| == |streams| && k < |streams| && pos[k] == done[k] <= |streams[k]|
    requires Frontier(instant, streams, pos, done, frontier)
    ensures |pos'| == |streams| && Frontier(instant, streams, pos', done, frontier')
    ensures pos' == if pos[k] < |streams[k]| then pos[k := pos[k] + 1] else pos
    ensures frontier' == frontier + Refill(instant, streams[k], pos[k], k)
  {
    pos', frontier' := pos, frontier;
    if pos[k] < |streams[k]| {
      var e := streams[k][pos[k]];
      pos' := pos[k := pos[k] + 1];
      frontier' := frontier + [Cursor(e, Ms(instant, e), k)];
      AdvancedFrontier(instant, streams, pos, done, frontier, k);
    }
  }

  lemma JoinsFrontier(frontier: seq<Cursor>, cursor: Cursor, j: nat)
    ensures InFrontier(frontier, j) || cursor.stream == j ==> InFrontier(frontier + [cursor], j)
  {
    var next := frontier + [cursor];
    assert next[|frontier|] == cursor;
    if InFrontier(frontier, j) {
      var i :| 0 <= i < |frontier| && frontier[i].stream == j;
      assert next[i].stream == j;
    }
  }

  lemma AdvancedFrontier(instant: Instant, streams: seq<seq<TelemetryEvent>>, pos: seq<nat>, done: seq<nat>,
                         frontier: seq<Cursor>, k: nat)
    requires |pos| == |done| == |streams| && k < |streams| && pos[k] == done[k] < |streams[k]|
    requires Frontier(instant, streams, pos, done, frontier)
    ensures var e := streams[k][pos[k]];
            Frontier(instant, streams, pos[k := pos[k] + 1], done, frontier + [Cursor(e, Ms(instant, e), k)])
  {
    var e := streams[k][pos[k]];
    var cursor, next := Cursor(e, Ms(instant, e), k), pos[k := pos[k] + 1];
    forall j | 0 <= j < |streams| && next[j] == done[j] + 1 ensures InFrontier(frontier + [cursor], j) {
      JoinsFrontier(frontier, cursor, j);
    }
  }

  /** `compareCursors(a, b) < 0`. */
  predicate CursorLt(a: Cursor, b: Cursor) {
    if a.timestampMs != b.timestampMs then a.timestampMs < b.timestampMs
    else LexLt(a.event.context.session.sessionId, b.event.context.session.sessionId)
  }

  /** `takeNextCursor`: removes a least cursor from the frontier. */
  method TakeNextCursor(instant: Instant, frontier: seq<Cursor>) returns (cursor: Cursor, rest: seq<Cursor>, ghost at: nat)
    requires frontier != [] && forall i :: 0 <= i < |frontier| ==> frontier[i].timestampMs == Ms(instant, frontier[i].event)
    ensures at < |frontier| && cursor == frontier[at] && rest == frontier[..at] + frontier[at + 1..]
    ensures forall i :: 0 <= i < |frontier| ==> EventLe(instant, cursor.event, frontier[i].event)
  {
    var nextIndex := 0;
    LexTotal(frontier[0].event.context.session.sessionId, frontier[0].event.context.session.sessionId);
    for i := 1 to |frontier|
      invariant 0 <= nextIndex < |frontier|
      invariant forall j :: 0 <= j < i ==> EventLe(instant, frontier[nextIndex].event, frontier[j].event)
    {
      ghost var least := frontier[nextIndex].event;
      EventTotal(instant, least, frontier[i].event);
      if CursorLt(frontier[i], frontier[nextIndex]) {
        forall j | 0 <= j < i ensures EventLe(instant, frontier[i].event, frontier[j].event) {
          EventTransitive(instant, frontier[i].event, least, frontier[j].event);
        }
        LexTotal(frontier[i].event.context.session.sessionId, frontier[i].event.context.session.sessionId);
        nextIndex := i;
      } else {
        var a, b := frontier[i].event.context.session.sessionId, least.context.session.sessionId;
        LexTotal(a, b);
      }
    }
    cursor := frontier[nextIndex];
    rest := frontier[..nextIndex] + frontier[nextIndex + 1..];
    at := nextIndex;
  }

  /** Without the taken cursor, the frontier fits the emitted counts after it. */
  lemma TakenFrontier(instant: Instant, streams: seq<seq<TelemetryEvent>>, pos: seq<nat>, done: seq<nat>,
                      frontier: seq<Cursor>, at: nat)
    requires |pos| == |done| == |streams| && Frontier(instant, streams, pos, done, frontier) && at < |frontier|
    ensures var k := frontier[at].stream;
            Frontier(instant, streams, pos, done[k := done[k] + 1], frontier[..at] + frontier[at + 1..])
  {
    var c := frontier[at].stream;
    var rest := frontier[..at] + frontier[at + 1..];
    forall i | 0 <= i < |rest| ensures rest[i] == frontier[if i < at then i else i + 1] && rest[i].stream != c {}
    forall k | 0 <= k < |streams| && k != c && InFrontier(frontier, k) ensures InFrontier(rest, k) {
      StaysInFrontier(frontier, at, k);
    }
  }

  lemma StaysInFrontier(frontier: seq<Cursor>, at: nat, k: nat)
    requires at < |frontier| && InFrontier(frontier, k) && frontier[at].stream != k
    ensures InFrontier(frontier[..at] + frontier[at + 1..], k)
  {
    var i :| 0 <= i < |frontier| && frontier[i].stream == k;
    var rest := frontier[..at] + frontier[at + 1..];
    assert rest[if i < at then i else i - 1] == frontier[i];
  }

  /** Emitting the next event of a stream keeps the books. */
  lemma EmittedMerging(streams: seq<seq<TelemetryEvent>>, pos: seq<nat>, done: seq<nat>, out: seq<Emitted>, c: nat)
    requires Merging(streams, pos, done, out) && c < |streams| && pos[c] == done[c] + 1
    ensures Merging(streams, pos, done[c := pos[c]], out + [Emitted(streams[c][done[c]], c)])
  {
    var e := Emitted(streams[c][done[c]], c);
    forall k | 0 <= k < |streams| ensures Project(out + [e], k) == streams[k][..done[c := pos[c]][k]] {
      ProjectSnoc(out, e, k);
      if k == c { assert streams[k][..pos[k]] == streams[k][..done[k]] + [streams[k][done[k]]]; }
    }
  }

  /** The output so far comes before everything in the frontier. */
  predicate Behind(instant: Instant, out: seq<Emitted>, frontier: seq<Cursor>) {
    forall i, j :: 0 <= i < |out| && 0 <= j < |frontier| ==> EventLe(instant, out[i].event, frontier[j].event)
  }

  predicate Ordered(instant: Instant, out: seq<Emitted>, frontier: seq<Cursor>) {
    SortedOutput(instant, out) && Behind(instant, out, frontier)
  }

  /** Emitting a least cursor and refilling from its stream keeps the output ordered. */
  lemma EmittedOrdered(instant: Instant, out: seq<Emitted>, frontier: seq<Cursor>, at: nat, refill: seq<Cursor>)
    requires Ordered(instant, out, frontier) && at < |frontier|
    requires forall i :: 0 <= i < |frontier| ==> EventLe(instant, frontier[at].event, frontier[i].event)
    requires forall i :: 0 <= i < |refill| ==> EventLe(instant, frontier[at].event, refill[i].event)
    ensures Ordered(instant, out + [Emitted(frontier[at].event, frontier[at].stream)],
                    frontier[..at] + frontier[at + 1..] + refill)
  {
    var c := frontier[at];
    var next := frontier[..at] + frontier[at + 1..] + refill;
    forall j | 0 <= j < |next| ensures EventLe(instant, c.event, next[j].event) {
      assert next[j] == if j < at then frontier[j] else if j < |frontier| - 1 then frontier[j + 1] else refill[j - (|frontier| - 1)];
    }
    forall i, j | 0 <= i < |out| && 0 <= j < |next| ensures EventLe(instant, out[i].event, next[j].event) {
      EventTransitive(instant, out[i].event, c.event, next[j].event);
    }
  }

  predicate Exhausted(streams: seq<seq<TelemetryEvent>>, pos: seq<nat>, done: seq<nat>)
    requires |pos| == |done| == |streams|
  {
    forall k :: 0 <= k < |streams| && pos[k] == done[k] ==> pos[k] == |streams[k]|
  }

  /** The same for every stream but `c`. */
  predicate ExhaustedBut(streams: seq<seq<TelemetryEvent>>, pos: seq<nat>, done: seq<nat>, c: nat)
    requires |pos| == |done| == |streams|
  {
    forall k :: 0 <= k < |streams| && k != c && pos[k] == done[k] ==> pos[k] == |streams[k]|
  }

  predicate AllSorted(instant: Instant, streams: seq<seq<TelemetryEvent>>) {
    forall k :: 0 <= k < |streams| ==> SortedEvents(instant, streams[k])
  }

  /** A least cursor of the frontier is a least of what the streams have next. */
  lemma LeastOfHeads(instant: Instant, streams: seq<seq<TelemetryEvent>>, pos: seq<nat>, done: seq<nat>,
                     frontier: seq<Cursor>, out: seq<Emitted>, e: TelemetryEvent)
    requires Merging(streams, pos, done, out) && Frontier(instant, streams, pos, done, frontier)
    requires Exhausted(streams, pos, done)
    requires forall i :: 0 <= i < |frontier| ==> EventLe(instant, e, frontier[i].event)
    ensures LeastNow(instant, streams, out, e)
  {
    forall k | 0 <= k < |streams| && |Project(out, k)| < |streams[k]|
      ensures EventLe(instant, e, streams[k][|Project(out, k)|])
    {
      assert |Project(out, k)| == done[k] && InFrontier(frontier, k);
      var i :| 0 <= i < |frontier| && frontier[i].stream == k;
    }
  }

  /** The first loop: one cursor per non-empty stream. */
  method OpenStreams(instant: Instant, streams: seq<seq<TelemetryEvent>>)
    returns (pos: seq<nat>, frontier: seq<Cursor>, ghost done: seq<nat>)
    ensures Merging(streams, pos, done, []) && Frontier(instant, streams, pos, done, frontier)
    ensures Exhausted(streams, pos, done)
    ensures forall k :: 0 <= k < |streams| ==> pos[k] == if streams[k] != [] then 1 else 0
    ensures forall i :: 0 <= i < |frontier| ==> frontier[i].stream < |streams| && [frontier[i].event] <= streams[frontier[i].stream]
  {
    pos, frontier, done := seq(|streams|, _ => 0), [], seq(|streams|, _ => 0);
    for k := 0 to |streams|
      invariant |pos| == |done| == |streams|
      invariant forall j :: 0 <= j < |streams| ==> done[j] == 0 && pos[j] == if j < k && streams[j] != [] then 1 else 0
      invariant Frontier(instant, streams, pos, done, frontier)
    {
      pos, frontier := AdvanceCursor(instant, streams, pos, frontier, k, done);
    }
  }

  /** One turn of the second loop: take the least cursor, emit it, advance its stream. */
  method EmitNext(instant: Instant, streams: seq<seq<TelemetryEvent>>, pos: seq<nat>, frontier: seq<Cursor>,
                  out: seq<Emitted>, ghost done: seq<nat>)
    returns (pos': seq<nat>, frontier': seq<Cursor>, out': seq<Emitted>, ghost done': seq<nat>)
    requires Merging(streams, pos, done, out) && Frontier(instant, streams, pos, done, frontier)
    requires Exhausted(streams, pos, done) && frontier != []
    ensures Merging(streams, pos', done', out') && Frontier(instant, streams, pos', done', frontier')
    ensures Exhausted(streams, pos', done')
    ensures Remaining(streams, done') == Remaining(streams, done) - 1
    ensures AllSorted(instant, streams) && Ordered(instant, out, frontier) ==> Ordered(instant, out', frontier')
    ensures Greedy(instant, streams, out) ==> Greedy(instant, streams, out')
  {
    var cursor, rest;
    ghost var at;
    cursor, rest, out', done', at := EmitLeast(instant, streams, pos, frontier, out, done);
    var c := cursor.stream;
    pos', frontier' := RefillFrom(instant, streams, pos, rest, c, done', out');
    StaysOrdered(instant, streams, c, done[c], out, frontier, at);
    LeastOfHeads(instant, streams, pos, done, frontier, out, cursor.event);
    GreedySnoc(instant, streams, out, Emitted(cursor.event, cursor.stream));
  }

  /** The stream whose event was emitted is advanced. */
  method RefillFrom(instant: Instant, streams: seq<seq<TelemetryEvent>>, pos: seq<nat>, rest: seq<Cursor>, c: nat,
                    ghost done: seq<nat>, ghost out: seq<Emitted>)
    returns (pos': seq<nat>, frontier': seq<Cursor>)
    requires Merging(streams, pos, done, out) && Frontier(instant, streams, pos, done, rest)
    requires c < |streams| && pos[c] == done[c] && ExhaustedBut(streams, pos, done, c)
    ensures Merging(streams, pos', done, out) && Frontier(instant, streams, pos', done, frontier')
    ensures Exhausted(streams, pos', done)
    ensures frontier' == rest + Refill(instant, streams[c], pos[c], c)
  {
    pos', frontier' := AdvanceCursor(instant, streams, pos, rest, c, done);
    AdvancedMerging(streams, pos, done, out, c, pos');
  }

  /** The least cursor leaves the frontier and its event is emitted. */
  method EmitLeast(instant: Instant, streams: seq<seq<TelemetryEvent>>, pos: seq<nat>, frontier: seq<Cursor>,
                   out: seq<Emitted>, ghost done: seq<nat>)
    returns (cursor: Cursor, rest: seq<Cursor>, out': seq<Emitted>, ghost done': seq<nat>, ghost at: nat)
    requires Merging(streams, pos, done, out) && Frontier(instant, streams, pos, done, frontier)
    requires Exhausted(streams, pos, done) && frontier != []
    ensures at < |frontier| && cursor == frontier[at] && rest == frontier[..at] + frontier[at + 1..]
    ensures forall i :: 0 <= i < |frontier| ==> EventLe(instant, cursor.event, frontier[i].event)
    ensures out' == out + [Emitted(cursor.event, cursor.stream)]
    ensures cursor.stream < |streams| && pos[cursor.stream] == done[cursor.stream] + 1 <= |streams[cursor.stream]|
    ensures cursor.event == streams[cursor.stream][done[cursor.stream]]
    ensures done' == done[cursor.stream := pos[cursor.stream]] && Remaining(streams, done') == Remaining(streams, done) - 1
    ensures Merging(streams, pos, done', out') && Frontier(instant, streams, pos, done', rest)
    ensures ExhaustedBut(streams, pos, done', cursor.stream)
  {
    cursor, rest, at := TakeNextCursor(instant, frontier);
    ghost var c := cursor.stream;
    done' := done[c := pos[c]];
    out' := out + [Emitted(cursor.event, cursor.stream)];
    EmittedMerging(streams, pos, done, out, c);
    TakenFrontier(instant, streams, pos, done, frontier, at);
    RemainingStep(streams, done, c);
  }

  /** Emitting a least event and refilling from its stream keeps the order, when each stream is sorted. */
  lemma StaysOrdered(instant: Instant, streams: seq<seq<TelemetryEvent>>, c: nat, n: nat, out: seq<Emitted>,
                     frontier: seq<Cursor>, at: nat)
    requires at < |frontier| && frontier[at].stream == c
    requires forall i :: 0 <= i < |frontier| ==> EventLe(instant, frontier[at].event, frontier[i].event)
    requires c < |streams| && n < |streams[c]| && frontier[at].event == streams[c][n]
    ensures AllSorted(instant, streams) && Ordered(instant, out, frontier) ==>
      Ordered(instant, out + [Emitted(frontier[at].event, c)],
              frontier[..at] + frontier[at + 1..] + Refill(instant, streams[c], n + 1, c))
  {
    if AllSorted(instant, streams) && Ordered(instant, out, frontier) {
      var events := streams[c];
      assert SortedEvents(instant, events);
      assert n + 1 < |events| ==> EventLe(instant, events[n], events[n + 1]);
      EmittedOrdered(instant, out, frontier, at, Refill(instant, events, n + 1, c));
    }
  }

  /** Advancing stream `c` after its event was emitted keeps the books. */
  lemma AdvancedMerging(streams: seq<seq<TelemetryEvent>>, pos: seq<nat>, done: seq<nat>, out: seq<Emitted>, c: nat,
                        pos': seq<nat>)
    requires Merging(streams, pos, done, out) && c < |streams| && pos[c] == done[c]
    requires ExhaustedBut(streams, pos, done, c)
    requires pos' == if pos[c] < |streams[c]| then pos[c := pos[c] + 1] else pos
    ensures Merging(streams, pos', done, out) && Exhausted(streams, pos', done)
  {
  }

  /**
   * `streamTelemetryEventsSorted` after the streams are set up. It terminates, emits every
   * event of every stream exactly once in the stream's own order, whatever the clocks did, each
   * a least one of those next, and its output is sorted by (timestamp, session id) when each
   * stream is.
   */
  method MergeStreams(instant: Instant, streams: seq<seq<TelemetryEvent>>) returns (out: seq<Emitted>)
    ensures IsMerge(streams, out) && Greedy(instant, streams, out)
    ensures AllSorted(instant, streams) ==> SortedOutput(instant, out)
  {
    out := [];
    ghost var done;
    var pos, frontier;
    pos, frontier, done := OpenStreams(instant, streams);
    RemainingNonNegative(streams, done);
    while frontier != []
      invariant Merging(streams, pos, done, out) && Frontier(instant, streams, pos, done, frontier)
      invariant Exhausted(streams, pos, done)
      invariant AllSorted(instant, streams) ==> Ordered(instant, out, frontier)
      invariant Greedy(instant, streams, out)
      invariant Remaining(streams, done) >= 0
      decreases Remaining(streams, done)
    {
      pos, frontier, out, done := EmitNext(instant, streams, pos, frontier, out, done);
      RemainingNonNegative(streams, done);
    }
    MergeComplete(instant, streams, pos, done, out);
  }

  lemma MergeComplete(instant: Instant, streams: seq<seq<TelemetryEvent>>, pos: seq<nat>, done: seq<nat>, out: seq<Emitted>)
    requires Merging(streams, pos, done, out) && Frontier(instant, streams, pos, done, []) && Exhausted(streams, pos, done)
    ensures IsMerge(streams, out)
  {
    forall k | 0 <= k < |streams| ensures Project(out, k) == streams[k] {
      assert !InFrontier([], k);
      assert streams[k][..done[k]] == streams[k];
    }
  }

  // ----- time order -----

  /** The order of the merge, exactly: by instant, then by session id. */
  lemma OrderExactly(instant: Instant, a: TelemetryEvent, b: TelemetryEvent)
    requires instant(a.timestamp).Some? && instant(b.timestamp).Some?
    ensures var s, t := instant(a.timestamp).value, instant(b.timestamp).value;
            EventLe(instant, a, b) <==> s < t || (s == t && LexLe(a.context.session.sessionId, b.context.session.sessionId))
  {
  }

  /** Every timestamp reads as an instant, and none is before an earlier one. */
  predicate TimesRise(instant: Instant, events: seq<TelemetryEvent>) {
    && Stamped(instant, events)
    && forall i, j :: 0 <= i < j < |events| ==> instant(events[i].timestamp).value <= instant(events[j].timestamp).value
  }

  predicate MsRise(instant: Instant, events: seq<TelemetryEvent>) {
    forall i, j :: 0 <= i < j < |events| ==> Ms(instant, events[i]) <= Ms(instant, events[j])
  }

  function EventsOf(out: seq<Emitted>): (events: seq<TelemetryEvent>)
    ensures |events| == |out| && forall i :: 0 <= i < |out| ==> events[i] == out[i].event
  {
    seq(|out|, i requires 0 <= i < |out| => out[i].event)
  }

  lemma {:induction false} ProjectPrefix(out: seq<Emitted>, n: nat, k: nat)
    requires n <= |out|
    ensures Project(out[..n], k) <= Project(out, k)
    decreases |out| - n
  {
    if n == |out| {
      assert out[..n] == out;
    } else {
      ProjectPrefix(out, n + 1, k);
      ProjectSnoc(out[..n], out[n], k);
      assert out[..n + 1] == out[..n] + [out[n]];
    }
  }

  /** Two events emitted in a row are in time order if each stream's are. */
  lemma NextInTime(instant: Instant, streams: seq<seq<TelemetryEvent>>, out: seq<Emitted>, i: nat)
    requires IsMerge(streams, out) && Greedy(instant, streams, out) && i + 1 < |out|
    requires forall k :: 0 <= k < |streams| ==> MsRise(instant, streams[k])
    ensures Ms(instant, out[i].event) <= Ms(instant, out[i + 1].event)
  {
    var k, before := out[i + 1].stream, out[..i];
    var n := |Project(before, k)|;
    assert out[..i + 1] == before + [out[i]] && out[..i + 2] == out[..i + 1] + [out[i + 1]];
    ProjectSnoc(before, out[i], k);
    ProjectSnoc(out[..i + 1], out[i + 1], k);
    ProjectPrefix(out, i + 2, k);
    assert Project(out, k) == streams[k];
    if out[i].stream == k {
      assert streams[k][n] == out[i].event && streams[k][n + 1] == out[i + 1].event;
      assert MsRise(instant, streams[k]);
    } else {
      assert streams[k][n] == out[i + 1].event;
      assert LeastNow(instant, streams, before, out[i].event);
    }
  }

  lemma {:induction false} RowInTime(instant: Instant, streams: seq<seq<TelemetryEvent>>, out: seq<Emitted>, i: nat, j: nat)
    requires IsMerge(streams, out) && Greedy(instant, streams, out) && i <= j < |out|
    requires forall k :: 0 <= k < |streams| ==> MsRise(instant, streams[k])
    ensures Ms(instant, out[i].event) <= Ms(instant, out[j].event)
    decreases j
  {
    if i < j {
      RowInTime(instant, streams, out, i, j - 1);
      NextInTime(instant, streams, out, j - 1);
    }
  }

  lemma EmittedStamped(instant: Instant, streams: seq<seq<TelemetryEvent>>, out: seq<Emitted>, i: nat)
    requires IsMerge(streams, out) && i < |out|
    requires forall k :: 0 <= k < |streams| ==> Stamped(instant, streams[k])
    ensures instant(out[i].event.timestamp).Some?
  {
    var k := out[i].stream;
    var n := |Project(out[..i], k)|;
    assert out[..i + 1] == out[..i] + [out[i]];
    ProjectSnoc(out[..i], out[i], k);
    ProjectPrefix(out, i + 1, k);
    assert Project(out, k) == streams[k] && streams[k][n] == out[i].event;
  }

  /** While no session's clock goes back, neither does the merged export. */
  lemma MergedTimesRise(instant: Instant, streams: seq<seq<TelemetryEvent>>, out: seq<Emitted>)
    requires IsMerge(streams, out) && Greedy(instant, streams, out)
    requires forall k :: 0 <= k < |streams| ==> TimesRise(instant, streams[k])
    ensures TimesRise(instant, EventsOf(out))
  {
    forall k | 0 <= k < |streams| ensures MsRise(instant, streams[k]) && Stamped(instant, streams[k]) {
      assert TimesRise(instant, streams[k]);
    }
    forall i | 0 <= i < |out| ensures instant(out[i].event.timestamp).Some? { EmittedStamped(instant, streams, out, i); }
    forall i, j | 0 <= i < j < |out| ensures Ms(instant, out[i].event) <= Ms(instant, out[j].event) {
      RowInTime(instant, streams, out, i, j);
    }
  }

  // ----- which lines are read -----

  /** Blank lines are passed over, wherever they stand. */
  lemma {:induction false} BlankLinesSkipped(instant: Instant, header: Option<Header>, lines: seq<TextLine>,
                                             blank: TextLine, rest: seq<TextLine>)
    requires blank.content.Blank?
    ensures ReadLines(instant, header, lines + [blank] + rest) == ReadLines(instant, header, lines + rest)
    decreases |lines|
  {
    var all, without := lines + [blank] + rest, lines + rest;
    if lines == [] {
      assert all[0] == blank && all[1..] == rest && without == rest;
    } else {
      assert all[0] == lines[0] && all[1..] == lines[1..] + [blank] + rest;
      assert without[0] == lines[0] && without[1..] == lines[1..] + rest;
      BlankLinesSkipped(instant, header, lines[1..], blank, rest);
      if lines[0].content.Opening? || lines[0].content.Entry? {
        var (next, parsed) := ParseLine(instant, header, lines[0].content.json);
        BlankLinesSkipped(instant, next, lines[1..], blank, rest);
      }
    }
  }

  /** A line that is no JSON ends the file with an error; what was read before it stays read. */
  lemma {:induction false} MalformedLineEndsFile(instant: Instant, header: Option<Header>, lines: seq<TextLine>,
                                                 bad: TextLine, rest: seq<TextLine>)
    requires bad.content.Malformed?
    ensures ReadLines(instant, header, lines + [bad] + rest) == FileRead(ReadLines(instant, header, lines).events, true)
    decreases |lines|
  {
    var all := lines + [bad] + rest;
    if lines == [] {
      assert all[0] == bad;
    } else {
      assert all[0] == lines[0] && all[1..] == lines[1..] + [bad] + rest;
      MalformedLineEndsFile(instant, header, lines[1..], bad, rest);
      if lines[0].content.Opening? || lines[0].content.Entry? {
        var (next, parsed) := ParseLine(instant, header, lines[0].content.json);
        MalformedLineEndsFile(instant, next, lines[1..], bad, rest);
      }
    }
  }

  /** A selection keeps exactly the events whose timestamp lies in the range. */
  lemma {:induction false} KeepExactly(instant: Instant, r: DateRange, events: seq<TelemetryEvent>)
    ensures forall e :: e in Keep(instant, r, events) <==>
              e in events && instant(e.timestamp).Some? && InRange(instant(e.timestamp).value, r)
    ensures (forall e :: e in events ==> instant(e.timestamp).Some? && InRange(instant(e.timestamp).value, r))
        ==> Keep(instant, r, events) == events
  {
    if events != [] {
      KeepExactly(instant, r, events[1..]);
      assert events == [events[0]] + events[1..];
    }
  }
}
