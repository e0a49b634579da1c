/**
 * What the sink wrote is what the exporter reads. The sink's protocol state and the
 * directory it writes to are related by `Holds`; the exporter sees only a listing of names
 * and the lines behind each name.
 */
module EndToEnd {
  import opened Basics
  import opened Text
  import opened Calendar
  import opened FileNames
  import opened WireFormat
  import opened TelemetryFiles
  import opened DateRanges
  import opened Export
  import opened SinkProtocol
  import opened SinkTheorems
  import opened LocalJsonlSinks

  type Files = map<string, seq<TextLine>>

  // ----- the export, as one function of the directory -----

  /** A file that has disappeared since the listing has nothing to read. */
  function LinesOf(files: Files, name: string): seq<TextLine> {
    if name in files then files[name] else []
  }

  /** The stream of one session: its files in turn, cut at bad lines and filtered by range. */
  function StreamOf(instant: Instant, files: Files, group: seq<LogFile>, r: DateRange): seq<TelemetryEvent> {
    if group == [] then []
    else
      Keep(instant, r, ReadLines(instant, None, LinesOf(files, group[0].name)).events)
      + StreamOf(instant, files, group[1..], r)
  }

  method StreamSession(instant: Instant, files: Files, group: seq<LogFile>, r: DateRange)
    returns (events: seq<TelemetryEvent>)
    ensures events == StreamOf(instant, files, group, r)
  {
    events := [];
    for i := 0 to |group|
      invariant events + StreamOf(instant, files, group[i..], r) == StreamOf(instant, files, group, r)
    {
      var next, failed := StreamFile(instant, LinesOf(files, group[i].name), r);
      assert group[i..][1..] == group[i + 1..];
      ConcatAssoc(events, next, StreamOf(instant, files, group[i + 1..], r));
      events := events + next;
    }
  }

  ghost predicate IsListing(names: seq<string>, files: Files) {
    Distinct(names) && forall name :: name in names <==> name in files
  }

  lemma {:induction false} ListedMembers(names: seq<string>, r: DateRange, f: LogFile)
    requires HasDates(r)
    ensures f in Listed(names, r) <==> f.name in names && ParseLogFile(f.name) == Some(f) && FileDateCanContain(f.date, r)
  {
    if names != [] { ListedMembers(names[1..], r, f); }
  }

  lemma {:induction false} ListedDistinct(names: seq<string>, r: DateRange)
    requires HasDates(r) && Distinct(names)
    ensures Distinct(Listed(names, r))
  {
    if names != [] {
      ListedDistinct(names[1..], r);
      var f := ParseLogFile(names[0]);
      if f.Some? { ListedMembers(names[1..], r, f.value); }
    }
  }

  lemma {:induction false} OfSessionMembers(files: seq<LogFile>, session: string)
    ensures forall f :: f in OfSession(files, session) <==> f in files && f.session == session
  {
    if files != [] {
      OfSessionMembers(files[1..], session);
      assert files == [files[0]] + files[1..];
    }
  }

  lemma {:induction false} OfSessionSorted(le: (LogFile, LogFile) -> bool, files: seq<LogFile>, session: string)
    requires SortedBy(le, files) && Distinct(files)
    ensures SortedBy(le, OfSession(files, session)) && Distinct(OfSession(files, session))
  {
    if files != [] {
      OfSessionSorted(le, files[1..], session);
      OfSessionMembers(files[1..], session);
      var rest := OfSession(files[1..], session);
      forall j | 0 <= j < |rest| ensures le(files[0], rest[j]) && files[0] != rest[j] {
        assert rest[j] in files[1..];
        var i :| 0 <= i < |files[1..]| && files[1..][i] == rest[j];
        assert files[i + 1] == rest[j];
      }
    }
  }

  /** The session's group as the exporter forms it, from any listing order. */
  function GroupOf(names: seq<string>, r: DateRange, slug: string): seq<LogFile>
    requires HasDates(r)
  {
    OfSession(SortLogs(Listed(names, r)), slug)
  }

  lemma GroupFacts(names: seq<string>, r: DateRange, slug: string)
    requires HasDates(r) && Distinct(names)
    ensures SortedBy(LogLe, GroupOf(names, r, slug)) && Distinct(GroupOf(names, r, slug))
    ensures forall f :: f in GroupOf(names, r, slug) <==>
              f.name in names && ParseLogFile(f.name) == Some(f) && FileDateCanContain(f.date, r) && f.session == slug
  {
    var listed := Listed(names, r);
    LogOrder();
    SortBySorts(LogLe, listed);
    ListedDistinct(names, r);
    DistinctMultiset(listed, SortLogs(listed));
    OfSessionSorted(LogLe, SortLogs(listed), slug);
    OfSessionMembers(SortLogs(listed), slug);
    forall f ensures f in SortLogs(listed) <==> f in listed {
      assert f in multiset(SortLogs(listed)) <==> f in multiset(listed);
    }
    forall f ensures f in listed <==>
        f.name in names && ParseLogFile(f.name) == Some(f) && FileDateCanContain(f.date, r)
    {
      ListedMembers(names, r, f);
    }
  }

  // ----- the session's files, in the order the exporter reads them -----

  function LogOf(slug: string, f: SessionFile): LogFile {
    LogFile(Path(slug, f.key), DateText(f.key.day), slug, f.key.segment)
  }

  /** The layout's files whose date the range can contain. */
  function Canonical(slug: string, layout: seq<SessionFile>, r: DateRange): seq<LogFile>
    requires HasDates(r)
  {
    if layout == [] then []
    else
      (if FileDateCanContain(DateText(layout[0].key.day), r) then [LogOf(slug, layout[0])] else [])
      + Canonical(slug, layout[1..], r)
  }

  lemma LogOfParses(slug: string, f: SessionFile)
    requires IsSlug(slug)
    ensures ParseLogFile(Path(slug, f.key)) == Some(LogOf(slug, f))
  {
    PathReadsBack(slug, f.key);
  }

  lemma LogOfOrder(slug: string, a: SessionFile, b: SessionFile)
    requires KeyLt(a.key, b.key)
    ensures LogLe(LogOf(slug, a), LogOf(slug, b)) && !LogLe(LogOf(slug, b), LogOf(slug, a))
  {
    var x, y := LogOf(slug, a), LogOf(slug, b);
    if a.key.day < b.key.day {
      DateTextOrder(a.key.day, b.key.day);
      if LexLe(y.date, x.date) { LexAntisymmetric(x.date, y.date); }
    }
  }

  /** File `i` of the layout is in the range and has the name. */
  predicate LogAt(slug: string, layout: seq<SessionFile>, r: DateRange, f: LogFile, i: int)
    requires HasDates(r)
  {
    0 <= i < |layout| && f == LogOf(slug, layout[i]) && FileDateCanContain(DateText(layout[i].key.day), r)
  }

  lemma {:induction false} CanonicalMembers(slug: string, layout: seq<SessionFile>, r: DateRange, f: LogFile)
    requires HasDates(r)
    ensures f in Canonical(slug, layout, r) <==> exists i :: LogAt(slug, layout, r, f, i)
  {
    if layout != [] {
      var rest := layout[1..];
      CanonicalMembers(slug, rest, r, f);
      forall i ensures LogAt(slug, layout, r, f, i + 1) <== LogAt(slug, rest, r, f, i) {}
      forall i | LogAt(slug, layout, r, f, i) ensures i == 0 || LogAt(slug, rest, r, f, i - 1) {}
      assert f in Canonical(slug, layout, r) <==> LogAt(slug, layout, r, f, 0) || f in Canonical(slug, rest, r);
    }
  }

  predicate Strictly(le: (LogFile, LogFile) -> bool, files: seq<LogFile>) {
    forall i, j :: 0 <= i < j < |files| ==> le(files[i], files[j]) && !le(files[j], files[i])
  }

  lemma CanonicalAfter(slug: string, layout: seq<SessionFile>, r: DateRange, f: LogFile)
    requires HasDates(r) && Increasing(layout) && layout != [] && f in Canonical(slug, layout[1..], r)
    ensures LogLe(LogOf(slug, layout[0]), f) && !LogLe(f, LogOf(slug, layout[0]))
  {
    CanonicalMembers(slug, layout[1..], r, f);
    var i :| LogAt(slug, layout[1..], r, f, i);
    LogOfOrder(slug, layout[0], layout[i + 1]);
  }

  lemma {:induction false} CanonicalOrder(slug: string, layout: seq<SessionFile>, r: DateRange)
    requires HasDates(r) && Increasing(layout)
    ensures Strictly(LogLe, Canonical(slug, layout, r))
  {
    if layout != [] {
      var rest := Canonical(slug, layout[1..], r);
      CanonicalOrder(slug, layout[1..], r);
      forall f | f in rest ensures LogLe(LogOf(slug, layout[0]), f) && !LogLe(f, LogOf(slug, layout[0])) {
        CanonicalAfter(slug, layout, r, f);
      }
      StrictlyCons(LogLe, LogOf(slug, layout[0]), rest);
    }
  }

  lemma StrictlyCons(le: (LogFile, LogFile) -> bool, first: LogFile, rest: seq<LogFile>)
    requires Strictly(le, rest) && forall f :: f in rest ==> le(first, f) && !le(f, first)
    ensures Strictly(le, [first] + rest)
  {
  }

  /** Elements of a strictly sorted listing are told apart by the comparison. */
  lemma StrictlyTells(le: (LogFile, LogFile) -> bool, files: seq<LogFile>)
    requires Strictly(le, files) && forall x :: le(x, x)
    ensures SortedBy(le, files) && Distinct(files)
    ensures forall x, y :: x in files && y in files && le(x, y) && le(y, x) ==> x == y
  {
    forall x, y | x in files && y in files && le(x, y) && le(y, x) ensures x == y {
      var i :| 0 <= i < |files| && files[i] == x;
      var j :| 0 <= j < |files| && files[j] == y;
    }
  }

  // ----- the directory and the protocol agree on the session's files -----

  /** No other session uses the slug, and the session's names are the ones the sink prints. */
  ghost predicate OwnNames(files: Files, slug: string) {
    forall name :: name in files && ParseLogFile(name).Some? && ParseLogFile(name).value.session == slug
      ==> exists key: Key :: name == Path(slug, key)
  }

  ghost predicate Agree(s: State, files: Files, slug: string) {
    Filed(s) && IsSlug(slug) && Holds(FileName(slug), files, s.disk) && OwnNames(files, slug)
  }

  lemma NameInLayout(s: State, files: Files, slug: string, name: string) returns (i: nat)
    requires Agree(s, files, slug) && name in files
    requires ParseLogFile(name).Some? && ParseLogFile(name).value.session == slug
    ensures i < |s.layout| && name == Path(slug, s.layout[i].key) && ParseLogFile(name) == Some(LogOf(slug, s.layout[i]))
  {
    var key: Key :| name == Path(slug, key);
    assert FileName(slug)(key) in files;
    i := FiledKey(s, key);
    LogOfParses(slug, s.layout[i]);
  }

  lemma LayoutInFiles(s: State, files: Files, slug: string, i: nat)
    requires Agree(s, files, slug) && i < |s.layout|
    ensures Path(slug, s.layout[i].key) in files && files[Path(slug, s.layout[i].key)] == s.layout[i].lines
  {
    assert s.layout[i] in s.layout;
    assert s.layout[i].key in s.disk;
    assert FileName(slug)(s.layout[i].key) in files;
  }

  lemma GroupMember(s: State, files: Files, slug: string, names: seq<string>, r: DateRange, f: LogFile)
    requires Agree(s, files, slug) && IsListing(names, files) && HasDates(r)
    ensures f.name in names && ParseLogFile(f.name) == Some(f) && FileDateCanContain(f.date, r) && f.session == slug
       <==> f in Canonical(slug, s.layout, r)
  {
    CanonicalMembers(slug, s.layout, r, f);
    if f.name in names && ParseLogFile(f.name) == Some(f) && f.session == slug {
      var i := NameInLayout(s, files, slug, f.name);
      assert FileDateCanContain(f.date, r) ==> LogAt(slug, s.layout, r, f, i);
    }
    if f in Canonical(slug, s.layout, r) {
      var i :| LogAt(slug, s.layout, r, f, i);
      LayoutInFiles(s, files, slug, i);
      LogOfParses(slug, s.layout[i]);
    }
  }

  /** From whatever order the directory is listed in, the session's group is its layout in order. */
  lemma GroupIsCanonical(s: State, files: Files, slug: string, names: seq<string>, r: DateRange)
    requires Agree(s, files, slug) && IsListing(names, files) && HasDates(r)
    ensures GroupOf(names, r, slug) == Canonical(slug, s.layout, r)
  {
    var group, canonical := GroupOf(names, r, slug), Canonical(slug, s.layout, r);
    GroupFacts(names, r, slug);
    CanonicalOrder(slug, s.layout, r);
    LogOrder();
    StrictlyTells(LogLe, canonical);
    forall f ensures f in canonical <==> f in group {
      GroupMember(s, files, slug, names, r, f);
    }
    SortedUnique(LogLe, canonical, group);
  }

  // ----- what the lines say -----

  ghost predicate IsSessionHeader(instant: Instant, c: SessionContext, t: TextLine) {
    exists now :: instant(now).Some? && t.content == Opening(HeaderLine(c, now))
  }

  /** The line is the row of the event, an event of this session. */
  predicate Encodes(c: SessionContext, t: TextLine, e: TelemetryEvent) {
    && t.content == Entry(EventLine(e))
    && e.context.session == c && e.schemaVersion == CURRENT_TELEMETRY_SCHEMA_VERSION
  }

  predicate Encoded(c: SessionContext, rows: seq<TextLine>, events: seq<TelemetryEvent>) {
    |rows| == |events| && forall i :: 0 <= i < |rows| ==> Encodes(c, rows[i], events[i])
  }

  predicate AllRepresentable(instant: Instant, events: seq<TelemetryEvent>) {
    forall i :: 0 <= i < |events| ==> Representable(instant, events[i])
  }

  /** The events before the first one that has no wire form. */
  function Readable(instant: Instant, events: seq<TelemetryEvent>): seq<TelemetryEvent> {
    if events == [] || !Representable(instant, events[0]) then []
    else [events[0]] + Readable(instant, events[1..])
  }

  lemma {:induction false} ReadableLength(instant: Instant, events: seq<TelemetryEvent>)
    ensures |Readable(instant, events)| <= |events|
    ensures |Readable(instant, events)| == |events| <==> AllRepresentable(instant, events)
    ensures AllRepresentable(instant, events) ==> Readable(instant, events) == events
  {
    if events != [] {
      ReadableLength(instant, events[1..]);
      assert events == [events[0]] + events[1..];
    }
  }

  /** The first event decides, then the others. */
  lemma ReadableFirst(instant: Instant, events: seq<TelemetryEvent>)
    requires events != []
    ensures AllRepresentable(instant, events)
       <==> Representable(instant, events[0]) && AllRepresentable(instant, events[1..])
    ensures events == [events[0]] + events[1..]
  {
  }

  lemma EncodedTail(c: SessionContext, rows: seq<TextLine>, events: seq<TelemetryEvent>)
    requires Encoded(c, rows, events) && rows != []
    ensures Encodes(c, rows[0], events[0]) && Encoded(c, rows[1..], events[1..])
  {
  }

  /** Rows read back as their events up to the first event that has no wire form; there the read fails. */
  lemma {:induction false} RowsReadBack(instant: Instant, header: Header, rows: seq<TextLine>, events: seq<TelemetryEvent>)
    requires header.schemaVersion == CURRENT_TELEMETRY_SCHEMA_VERSION
    requires Encoded(header.context, rows, events)
    ensures ReadLines(instant, Some(header), rows)
         == FileRead(Readable(instant, events), !AllRepresentable(instant, events))
    decreases |rows|
  {
    if rows != [] {
      var more, later := rows[1..], events[1..];
      EncodedTail(header.context, rows, events);
      RowsReadBack(instant, header, more, later);
      ReadFirstRow(instant, header, rows, events[0], FileRead(Readable(instant, later), !AllRepresentable(instant, later)));
      ReadableFirst(instant, events);
    }
  }

  /** A row that is read leaves the rest to be read; one that is not ends the file. */
  lemma {:induction false} ReadFirstRow(instant: Instant, header: Header, rows: seq<TextLine>, e: TelemetryEvent,
                                        rest: FileRead)
    requires header.schemaVersion == CURRENT_TELEMETRY_SCHEMA_VERSION
    requires rows != [] && Encodes(header.context, rows[0], e)
    requires rest == ReadLines(instant, Some(header), rows[1..])
    ensures ReadLines(instant, Some(header), rows)
         == if Representable(instant, e) then FileRead([e] + rest.events, rest.failed) else FileRead([], true)
  {
    RowReadsBackExactly(instant, header, e);
    if Representable(instant, e) {
      ReadEntry(instant, header, rows, e);
    } else {
      ReadBadEntry(instant, header, rows);
    }
  }

  lemma ReadEntry(instant: Instant, header: Header, rows: seq<TextLine>, e: TelemetryEvent)
    requires rows != [] && rows[0].content.Entry?
    requires ParseLine(instant, Some(header), rows[0].content.json) == (Some(header), Ok(Some(e)))
    ensures var rest := ReadLines(instant, Some(header), rows[1..]);
            ReadLines(instant, Some(header), rows) == FileRead([e] + rest.events, rest.failed)
  {
  }

  lemma ReadBadEntry(instant: Instant, header: Header, rows: seq<TextLine>)
    requires rows != [] && rows[0].content.Entry? && ParseLine(instant, Some(header), rows[0].content.json).1.Err?
    ensures ReadLines(instant, Some(header), rows) == FileRead([], true)
  {
  }

  /**
   * One row of an event without a wire form takes the rest of its file with it, whatever the
   * rest is: what is read are the events before it.
   */
  lemma {:induction false} BadRowEndsFile(instant: Instant, header: Header, good: seq<TextLine>, events: seq<TelemetryEvent>,
                                          bad: TextLine, e: TelemetryEvent, rest: seq<TextLine>)
    requires header.schemaVersion == CURRENT_TELEMETRY_SCHEMA_VERSION
    requires Encoded(header.context, good, events) && AllRepresentable(instant, events)
    requires Encodes(header.context, bad, e) && !Representable(instant, e)
    ensures ReadLines(instant, Some(header), good + [bad] + rest) == FileRead(events, true)
    decreases |good|
  {
    var rows := good + [bad] + rest;
    if good == [] {
      ReadFirstRow(instant, header, rows, e, ReadLines(instant, Some(header), rows[1..]));
    } else {
      assert rows[1..] == good[1..] + [bad] + rest;
      EncodedTail(header.context, good, events);
      ReadableFirst(instant, events);
      BadRowEndsFile(instant, header, good[1..], events[1..], bad, e, rest);
      ReadFirstRow(instant, header, rows, events[0], FileRead(events[1..], true));
    }
  }

  /** A session file reads back as the events of its rows up to the first without a wire form. */
  lemma FileReadsBack(instant: Instant, c: SessionContext, f: SessionFile, events: seq<TelemetryEvent>)
    requires f.lines != [] && IsSessionHeader(instant, c, f.lines[0]) && Encoded(c, RowsOf(f), events)
    ensures ReadLines(instant, None, f.lines) == FileRead(Readable(instant, events), !AllRepresentable(instant, events))
  {
    var now :| instant(now).Some? && f.lines[0].content == Opening(HeaderLine(c, now));
    HeaderReadsBack(instant, c, now);
    RowsReadBack(instant, Header(CURRENT_TELEMETRY_SCHEMA_VERSION, now, c), f.lines[1..], events);
  }

  // ----- what the files say -----

  /** What each file of the layout reads as. */
  function ReadsOf(instant: Instant, layout: seq<SessionFile>): seq<seq<TelemetryEvent>> {
    if layout == [] then [] else [ReadOf(instant, layout[0])] + ReadsOf(instant, layout[1..])
  }

  function ReadOf(instant: Instant, f: SessionFile): seq<TelemetryEvent> {
    ReadLines(instant, None, f.lines).events
  }

  /** A file that the range skips reads as nothing the range accepts. */
  predicate SkipsEmpty(instant: Instant, f: SessionFile, r: DateRange)
    requires HasDates(r)
  {
    !FileDateCanContain(DateText(f.key.day), r) ==> Keep(instant, r, ReadOf(instant, f)) == []
  }

  predicate SkipsNothing(instant: Instant, layout: seq<SessionFile>, r: DateRange)
    requires HasDates(r)
  {
    forall f :: f in layout ==> SkipsEmpty(instant, f, r)
  }

  ghost predicate Backed(files: Files, slug: string, layout: seq<SessionFile>) {
    forall i :: 0 <= i < |layout| ==> Path(slug, layout[i].key) in files && files[Path(slug, layout[i].key)] == layout[i].lines
  }

  lemma StreamOfCons(instant: Instant, files: Files, f: LogFile, group: seq<LogFile>, r: DateRange)
    ensures StreamOf(instant, files, [f] + group, r)
         == Keep(instant, r, ReadLines(instant, None, LinesOf(files, f.name)).events) + StreamOf(instant, files, group, r)
  {
  }

  lemma FlattenCons<T>(first: seq<T>, rest: seq<seq<T>>)
    ensures Flatten([first] + rest) == first + Flatten(rest)
  {
    assert ([first] + rest)[1..] == rest;
  }

  lemma {:induction false} CanonicalStream(instant: Instant, files: Files, slug: string, layout: seq<SessionFile>,
                                           r: DateRange)
    requires HasDates(r) && Backed(files, slug, layout) && SkipsNothing(instant, layout, r)
    ensures StreamOf(instant, files, Canonical(slug, layout, r), r) == Keep(instant, r, Flatten(ReadsOf(instant, layout)))
    decreases |layout|
  {
    if layout != [] {
      var f, rest := layout[0], layout[1..];
      assert f in layout && SkipsEmpty(instant, f, r);
      CanonicalStream(instant, files, slug, rest, r);
      var first, more := ReadOf(instant, f), Flatten(ReadsOf(instant, rest));
      FlattenCons(first, ReadsOf(instant, rest));
      KeepAppend(instant, r, first, more);
      StreamOneMore(instant, files, slug, f, Canonical(slug, rest, r), first, r);
      assert Canonical(slug, layout, r)
          == (if FileDateCanContain(DateText(f.key.day), r) then [LogOf(slug, f)] else []) + Canonical(slug, rest, r);
    }
  }

  lemma StreamOneMore(instant: Instant, files: Files, slug: string, f: SessionFile, group: seq<LogFile>,
                      read: seq<TelemetryEvent>, r: DateRange)
    requires HasDates(r) && Path(slug, f.key) in files && files[Path(slug, f.key)] == f.lines
    requires read == ReadOf(instant, f)
    requires !FileDateCanContain(DateText(f.key.day), r) ==> Keep(instant, r, read) == []
    ensures StreamOf(instant, files, (if FileDateCanContain(DateText(f.key.day), r) then [LogOf(slug, f)] else []) + group, r)
         == Keep(instant, r, read) + StreamOf(instant, files, group, r)
  {
    if FileDateCanContain(DateText(f.key.day), r) {
      StreamOfCons(instant, files, LogOf(slug, f), group, r);
    } else {
      assert [] + group == group;
    }
  }

  /** `contents[i]` are the events written to file `i`. */
  ghost predicate Contains(instant: Instant, c: SessionContext, layout: seq<SessionFile>, contents: seq<seq<TelemetryEvent>>) {
    && |contents| == |layout|
    && forall i :: 0 <= i < |layout| ==>
         layout[i].lines != [] && IsSessionHeader(instant, c, layout[i].lines[0])
         && Encoded(c, RowsOf(layout[i]), contents[i])
  }

  /** Each file's events up to its first one that has no wire form. */
  function ReadableParts(instant: Instant, contents: seq<seq<TelemetryEvent>>): seq<seq<TelemetryEvent>> {
    if contents == [] then [] else [Readable(instant, contents[0])] + ReadableParts(instant, contents[1..])
  }

  lemma ContainsTail(instant: Instant, c: SessionContext, layout: seq<SessionFile>, contents: seq<seq<TelemetryEvent>>)
    requires Contains(instant, c, layout, contents) && layout != []
    ensures Contains(instant, c, layout[1..], contents[1..])
    ensures layout[0].lines != [] && IsSessionHeader(instant, c, layout[0].lines[0]) && Encoded(c, RowsOf(layout[0]), contents[0])
  {
  }

  lemma {:induction false} ContentsRead(instant: Instant, c: SessionContext, layout: seq<SessionFile>,
                                        contents: seq<seq<TelemetryEvent>>)
    requires Contains(instant, c, layout, contents)
    ensures ReadsOf(instant, layout) == ReadableParts(instant, contents)
    decreases |layout|
  {
    if layout != [] {
      ContainsTail(instant, c, layout, contents);
      FileReadsBack(instant, c, layout[0], contents[0]);
      ContentsRead(instant, c, layout[1..], contents[1..]);
    }
  }

  lemma AllRepresentableAppend(instant: Instant, a: seq<TelemetryEvent>, b: seq<TelemetryEvent>)
    ensures AllRepresentable(instant, a + b) <==> AllRepresentable(instant, a) && AllRepresentable(instant, b)
  {
    if AllRepresentable(instant, a + b) {
      forall i | 0 <= i < |a| ensures Representable(instant, a[i]) { assert (a + b)[i] == a[i]; }
      forall i | 0 <= i < |b| ensures Representable(instant, b[i]) { assert (a + b)[|a| + i] == b[i]; }
    }
  }

  lemma {:induction false} PartsLength(instant: Instant, contents: seq<seq<TelemetryEvent>>)
    ensures |Flatten(ReadableParts(instant, contents))| <= |Flatten(contents)|
    ensures |Flatten(ReadableParts(instant, contents))| == |Flatten(contents)| <==> AllRepresentable(instant, Flatten(contents))
    ensures AllRepresentable(instant, Flatten(contents)) ==> Flatten(ReadableParts(instant, contents)) == Flatten(contents)
  {
    if contents != [] {
      FlattenCons(Readable(instant, contents[0]), ReadableParts(instant, contents[1..]));
      PartsLength(instant, contents[1..]);
      ReadableLength(instant, contents[0]);
      AllRepresentableAppend(instant, contents[0], Flatten(contents[1..]));
    }
  }

  /** Nothing is lost on the way out exactly when every event has a wire form. */
  lemma PartsComplete(instant: Instant, contents: seq<seq<TelemetryEvent>>)
    ensures Flatten(ReadableParts(instant, contents)) == Flatten(contents)
       <==> AllRepresentable(instant, Flatten(contents))
  {
    PartsLength(instant, contents);
  }

  // ----- from the lines that were written to the contents of the files -----

  predicate Paired<A, B>(rel: (A, B) -> bool, xs: seq<A>, ys: seq<B>) {
    |xs| == |ys| && forall i :: 0 <= i < |xs| ==> rel(xs[i], ys[i])
  }

  /** What is paired with a concatenation can be dealt out to its pieces. */
  lemma {:induction false} DealOut<A, B>(rel: (A, B) -> bool, pieces: seq<seq<A>>, ys: seq<B>) returns (parts: seq<seq<B>>)
    requires Paired(rel, Flatten(pieces), ys)
    ensures |parts| == |pieces| && Flatten(parts) == ys
    ensures forall i :: 0 <= i < |pieces| ==> Paired(rel, pieces[i], parts[i])
  {
    if pieces == [] {
      parts := [];
    } else {
      var n := |pieces[0]|;
      PairedSplit(rel, pieces[0], Flatten(pieces[1..]), ys);
      var rest := DealOut(rel, pieces[1..], ys[n..]);
      parts := [ys[..n]] + rest;
      assert parts[1..] == rest && ys == ys[..n] + ys[n..];
    }
  }

  lemma PairedSplit<A, B>(rel: (A, B) -> bool, a: seq<A>, b: seq<A>, ys: seq<B>)
    requires Paired(rel, a + b, ys)
    ensures Paired(rel, a, ys[..|a|]) && Paired(rel, b, ys[|a|..])
  {
    forall i | 0 <= i < |a| ensures rel(a[i], ys[i]) {
      assert (a + b)[i] == a[i];
    }
    forall i | 0 <= i < |b| ensures rel(b[i], ys[|a|..][i]) {
      assert (a + b)[|a| + i] == b[i];
    }
  }

  function RowLists(layout: seq<SessionFile>): (lists: seq<seq<TextLine>>)
    ensures |lists| == |layout| && forall i :: 0 <= i < |layout| ==> lists[i] == RowsOf(layout[i])
  {
    seq(|layout|, i requires 0 <= i < |layout| => RowsOf(layout[i]))
  }

  lemma RowListsSnoc(front: seq<SessionFile>, last: SessionFile)
    ensures RowLists(front + [last]) == RowLists(front) + [RowsOf(last)]
  {
  }

  lemma {:induction false} RowsFlatten(layout: seq<SessionFile>)
    ensures Flatten(RowLists(layout)) == AllRows(layout)
    decreases |layout|
  {
    if layout != [] {
      var front, last := layout[..|layout| - 1], layout[|layout| - 1];
      RowsFlatten(front);
      assert layout == front + [last];
      RowListsSnoc(front, last);
      FlattenSnoc(RowLists(front), RowsOf(last));
    }
  }

  /** Everything the session's files carry is a header of the session. */
  ghost predicate HeadersOf(instant: Instant, c: SessionContext, s: State) {
    forall t :: t in Heads(s.layout) + {s.header} ==> IsSessionHeader(instant, c, t)
  }

  /** The stream the exporter forms for a session, from a listing in any order. */
  function SessionStream(instant: Instant, files: Files, names: seq<string>, slug: string, r: DateRange): seq<TelemetryEvent>
    requires HasDates(r)
  {
    StreamOf(instant, files, GroupOf(names, r, slug), r)
  }

  lemma LayoutBacked(s: State, files: Files, slug: string)
    requires Agree(s, files, slug)
    ensures Backed(files, slug, s.layout)
  {
    forall i | 0 <= i < |s.layout|
      ensures Path(slug, s.layout[i].key) in files && files[Path(slug, s.layout[i].key)] == s.layout[i].lines
    {
      LayoutInFiles(s, files, slug, i);
    }
  }

  /**
   * The session's stream is the range's selection of what its files read as, provided the
   * files the range skips hold nothing the range accepts.
   */
  lemma StreamIsContents(instant: Instant, s: State, files: Files, names: seq<string>, slug: string, r: DateRange)
    requires Agree(s, files, slug) && IsListing(names, files) && HasDates(r)
    requires SkipsNothing(instant, s.layout, r)
    ensures SessionStream(instant, files, names, slug, r) == Keep(instant, r, Flatten(ReadsOf(instant, s.layout)))
  {
    GroupIsCanonical(s, files, slug, names, r);
    LayoutBacked(s, files, slug);
    CanonicalStream(instant, files, slug, s.layout, r);
  }

  lemma {:induction false} ReadsStamped(instant: Instant, layout: seq<SessionFile>)
    ensures Stamped(instant, Flatten(ReadsOf(instant, layout)))
    decreases |layout|
  {
    if layout != [] {
      var first, rest := ReadOf(instant, layout[0]), ReadsOf(instant, layout[1..]);
      ReadLinesStamped(instant, None, layout[0].lines);
      ReadsStamped(instant, layout[1..]);
      FlattenCons(first, rest);
    }
  }

  /** All time skips nothing and keeps everything. */
  lemma AllTimeStream(instant: Instant, s: State, files: Files, names: seq<string>, slug: string)
    requires Agree(s, files, slug) && IsListing(names, files)
    ensures SessionStream(instant, files, names, slug, ALL_TIME) == Flatten(ReadsOf(instant, s.layout))
  {
    StreamIsContents(instant, s, files, names, slug, ALL_TIME);
    ReadsStamped(instant, s.layout);
    KeepAll(instant, Flatten(ReadsOf(instant, s.layout)));
  }

  lemma {:induction false} KeepAll(instant: Instant, events: seq<TelemetryEvent>)
    requires Stamped(instant, events)
    ensures Keep(instant, ALL_TIME, events) == events
  {
    if events != [] {
      KeepAll(instant, events[1..]);
      assert events == [events[0]] + events[1..];
    }
  }

  lemma ContentsOfRun(instant: Instant, c: SessionContext, s: State, steps: seq<Event>, events: seq<TelemetryEvent>)
    returns (contents: seq<seq<TelemetryEvent>>)
    requires Filed(s) && BatchNonEmpty(s) && Orderly(s, steps) && HeadersOf(instant, c, s)
    requires Encoded(c, AllRows(Run(s, steps).layout), events)
    ensures Contains(instant, c, Run(s, steps).layout, contents) && Flatten(contents) == events
  {
    var t := Run(s, steps);
    RunFiled(s, steps);
    RunHeads(s, steps);
    RowsFlatten(t.layout);
    contents := DealOut((row, e) => Encodes(c, row, e), RowLists(t.layout), events);
    FilesBeginWithHeaders(instant, c, s, t.layout);
  }

  /** Files whose first lines are headers of the session or were there before. */
  lemma FilesBeginWithHeaders(instant: Instant, c: SessionContext, s: State, layout: seq<SessionFile>)
    requires HeadersOf(instant, c, s) && Heads(layout) <= Heads(s.layout) + {s.header}
    requires forall f :: f in layout ==> OneHeader(f)
    ensures forall i :: 0 <= i < |layout| ==>
              layout[i].lines != [] && IsSessionHeader(instant, c, layout[i].lines[0])
  {
    forall i | 0 <= i < |layout| ensures layout[i].lines != [] && IsSessionHeader(instant, c, layout[i].lines[0]) {
      assert layout[i] in layout;
      assert layout[i].lines[0] in Heads(layout);
    }
  }

  lemma EncodedAppend(c: SessionContext, r1: seq<TextLine>, e1: seq<TelemetryEvent>,
                      r2: seq<TextLine>, e2: seq<TelemetryEvent>)
    requires Encoded(c, r1, e1) && Encoded(c, r2, e2)
    ensures Encoded(c, r1 + r2, e1 + e2)
  {
  }

  /** The directory, in some listing, is what an orderly run left; `before` was in it at the start. */
  ghost predicate LeftBehind(instant: Instant, c: SessionContext, s: State, steps: seq<Event>, files: Files,
                             names: seq<string>, before: seq<TelemetryEvent>) {
    && Filed(s) && BatchNonEmpty(s) && Orderly(s, steps) && HeadersOf(instant, c, s)
    && Agree(Run(s, steps), files, ToSessionSlug(c.sessionId)) && IsListing(names, files)
    && Encoded(c, Run(s, steps).prior, before)
  }

  /** The all-time stream of a session whose files hold `events`, dealt out as `contents`. */
  ghost predicate ExportedUpToBadRows(instant: Instant, c: SessionContext, s: State, stream: seq<TelemetryEvent>,
                                      contents: seq<seq<TelemetryEvent>>, events: seq<TelemetryEvent>) {
    && Contains(instant, c, s.layout, contents) && Flatten(contents) == events
    && stream == Flatten(ReadableParts(instant, contents))
    && (stream == events <==> AllRepresentable(instant, events))
  }

  /**
   * End to end. Start from any state of the session's files (`before` are the events already
   * in them), let the sink run any orderly sequence of writes, flushes, failures, day changes
   * and configuration changes, and export all time from any listing of the directory. The
   * files then hold the earlier events followed by the stored ones, in write order, and the
   * session's stream is each file's events up to its first one without a wire form: all of
   * them if and only if every event has a wire form.
   */
  lemma StoredIsExported(instant: Instant, c: SessionContext, s: State, steps: seq<Event>, files: Files, names: seq<string>,
                         before: seq<TelemetryEvent>, stored: seq<TelemetryEvent>)
    returns (contents: seq<seq<TelemetryEvent>>)
    requires LeftBehind(instant, c, s, steps, files, names, before)
    requires Encoded(c, OfFate(Run(s, steps).past, Stored), stored)
    ensures ExportedUpToBadRows(instant, c, Run(s, steps),
              SessionStream(instant, files, names, ToSessionSlug(c.sessionId), ALL_TIME), contents, before + stored)
  {
    var t := Run(s, steps);
    EncodedAppend(c, t.prior, before, OfFate(t.past, Stored), stored);
    RunFiled(s, steps);
    contents := ContentsOfRun(instant, c, s, steps, before + stored);
    AllTimeStream(instant, t, files, names, ToSessionSlug(c.sessionId));
    ContentsRead(instant, c, t.layout, contents);
    PartsComplete(instant, contents);
  }

  /** Nothing was dropped or discarded, and nothing is still on its way. */
  predicate NothingLost(s: State) {
    && s.buffer == [] && s.phase.Idle? && s.lost == []
    && Count(s.past, Dropped) == 0 && Count(s.past, Discarded) == 0
  }

  /** That is so if and only if the run was undisturbed and its last flush has settled. */
  lemma NothingLostExactly(s: State, steps: seq<Event>)
    requires Gone(s) == 0
    ensures var t := Run(s, steps);
            NothingLost(t) <==> t.buffer == [] && t.phase.Idle? && Undisturbed(s, steps)
  {
    LosesNothingExactly(s, steps);
  }

  /** With no overflow and every flush successful, what was written is what is exported. */
  lemma WrittenIsExported(instant: Instant, c: SessionContext, s: State, steps: seq<Event>, files: Files, names: seq<string>,
                          before: seq<TelemetryEvent>, written: seq<TelemetryEvent>)
    returns (contents: seq<seq<TelemetryEvent>>)
    requires LeftBehind(instant, c, s, steps, files, names, before) && Accounted(s)
    requires Encoded(c, Run(s, steps).accepted, written) && NothingLost(Run(s, steps))
    ensures ExportedUpToBadRows(instant, c, Run(s, steps),
              SessionStream(instant, files, names, ToSessionSlug(c.sessionId), ALL_TIME), contents, before + written)
  {
    var t := Run(s, steps);
    RunAccounted(s, steps);
    OnlyStored(t.past);
    assert t.accepted == OfFate(t.past, Stored);
    contents := StoredIsExported(instant, c, s, steps, files, names, before, written);
  }

  // ----- several sessions -----

  /** One stream per session that has a listed file. */
  function ExportStreams(instant: Instant, files: Files, names: seq<string>, r: DateRange): seq<seq<TelemetryEvent>>
    requires HasDates(r)
  {
    var sessions := Sessions(SortLogs(Listed(names, r)));
    seq(|sessions|, i requires 0 <= i < |sessions| => SessionStream(instant, files, names, sessions[i], r))
  }

  method StreamSessions(instant: Instant, files: Files, groups: seq<seq<LogFile>>, r: DateRange)
    returns (streams: seq<seq<TelemetryEvent>>)
    ensures |streams| == |groups|
    ensures forall i :: 0 <= i < |groups| ==> streams[i] == StreamOf(instant, files, groups[i], r)
  {
    streams := [];
    for i := 0 to |groups|
      invariant |streams| == i && forall j :: 0 <= j < i ==> streams[j] == StreamOf(instant, files, groups[j], r)
    {
      var stream := StreamSession(instant, files, groups[i], r);
      streams := streams + [stream];
    }
  }

  /** List, sort, group by session, stream each group, and merge: the whole export of a range. */
  method ExportEvents(instant: Instant, files: Files, names: seq<string>, r: DateRange) returns (out: seq<Emitted>)
    requires HasDates(r)
    ensures IsMerge(ExportStreams(instant, files, names, r), out)
    ensures Greedy(instant, ExportStreams(instant, files, names, r), out)
    ensures AllSorted(instant, ExportStreams(instant, files, names, r)) ==> SortedOutput(instant, out)
  {
    var listed := SortLogs(Listed(names, r));
    LogOrder();
    SortBySorts(LogLe, Listed(names, r));
    SortedUnchanged(LogLe, listed);
    var streams := StreamSessions(instant, files, GroupBySession(listed), r);
    assert streams == ExportStreams(instant, files, names, r);
    out := MergeStreams(instant, streams);
  }

  /**
   * In the merged export of all sessions, the events that come from this session's stream are
   * the written ones in write order, each file's up to its first one without a wire form,
   * whatever other sessions contribute.
   */
  lemma WrittenIsMerged(instant: Instant, c: SessionContext, s: State, steps: seq<Event>, files: Files, names: seq<string>,
                        before: seq<TelemetryEvent>, written: seq<TelemetryEvent>, out: seq<Emitted>)
    returns (k: nat, contents: seq<seq<TelemetryEvent>>)
    requires LeftBehind(instant, c, s, steps, files, names, before) && Accounted(s)
    requires Encoded(c, Run(s, steps).accepted, written) && NothingLost(Run(s, steps))
    requires before + written != [] && IsMerge(ExportStreams(instant, files, names, ALL_TIME), out)
    ensures ExportedUpToBadRows(instant, c, Run(s, steps), Project(out, k), contents, before + written)
  {
    var t, slug := Run(s, steps), ToSessionSlug(c.sessionId);
    contents := WrittenIsExported(instant, c, s, steps, files, names, before, written);
    assert contents != [];
    GroupIsCanonical(t, files, slug, names, ALL_TIME);
    CanonicalMembers(slug, t.layout, ALL_TIME, LogOf(slug, t.layout[0]));
    assert LogAt(slug, t.layout, ALL_TIME, LogOf(slug, t.layout[0]), 0);
    k := SessionListed(names, files, slug, ALL_TIME);
    assert ExportStreams(instant, files, names, ALL_TIME)[k] == SessionStream(instant, files, names, slug, ALL_TIME);
  }

  /** A session with a listed file has a stream of its own. */
  lemma SessionListed(names: seq<string>, files: Files, slug: string, r: DateRange) returns (k: nat)
    requires HasDates(r) && IsListing(names, files) && GroupOf(names, r, slug) != []
    ensures k < |Sessions(SortLogs(Listed(names, r)))| && Sessions(SortLogs(Listed(names, r)))[k] == slug
  {
    var sorted := SortLogs(Listed(names, r));
    var group := GroupOf(names, r, slug);
    OfSessionMembers(sorted, slug);
    assert group[0] in group;
    var j :| 0 <= j < |sorted| && sorted[j] == group[0];
    assert slug in Sessions(sorted);
    k :| 0 <= k < |Sessions(sorted)| && Sessions(sorted)[k] == slug;
  }

  // ----- pruning -----

  /** Every event a file reads as happened on the file's date. */
  predicate DatedLikeTheirFiles(instant: Instant, layout: seq<SessionFile>) {
    forall f :: f in layout ==> AllOnDay(instant, f.key.day, ReadOf(instant, f))
  }

  predicate AllOnDay(instant: Instant, day: int, events: seq<TelemetryEvent>) {
    forall j :: 0 <= j < |events| ==>
      instant(events[j].timestamp).Some? && UtcDay(instant(events[j].timestamp).value) == day
  }

  lemma {:induction false} SkippedHoldsNothing(instant: Instant, day: Day, events: seq<TelemetryEvent>, r: DateRange)
    requires HasDates(r) && !FileDateCanContain(DateText(day), r) && AllOnDay(instant, day, events)
    ensures Keep(instant, r, events) == []
  {
    if events != [] {
      SkippedHoldsNothing(instant, day, events[1..], r);
      PruningSafeExactly(day, instant(events[0].timestamp).value);
    }
  }

  /** Skipping files by their date then loses nothing: the pruned export is the filtered full export. */
  lemma PrunedIsFilteredFull(instant: Instant, s: State, files: Files, names: seq<string>, slug: string, r: DateRange)
    requires Agree(s, files, slug) && IsListing(names, files) && HasDates(r)
    requires DatedLikeTheirFiles(instant, s.layout)
    ensures SessionStream(instant, files, names, slug, r)
         == Keep(instant, r, SessionStream(instant, files, names, slug, ALL_TIME))
  {
    forall f | f in s.layout ensures SkipsEmpty(instant, f, r) {
      if !FileDateCanContain(DateText(f.key.day), r) { SkippedHoldsNothing(instant, f.key.day, ReadOf(instant, f), r); }
    }
    StreamIsContents(instant, s, files, names, slug, r);
    AllTimeStream(instant, s, files, names, slug);
  }
}
