/**
 * What the exporter makes of a first flush that strays: an activation that finds its day rolled
 * over (src/telemetry/sinks/localJsonlSink.ts) either opens the existing segment 1 a second
 * time or appends to segment 0, depending on the room there.
 */
module StraySegments {
  import opened Basics
  import opened Text
  import opened Calendar
  import opened FileNames
  import opened WireFormat
  import opened TelemetryFiles
  import opened DateRanges
  import opened Export
  import opened SinkProtocol
  import opened LocalJsonlSinks
  import opened EndToEnd

  // ----- a second header ends what a file reads as -----

  lemma HeaderStays(instant: Instant, header: Header, line: Json)
    ensures ParseLine(instant, Some(header), line).0 == Some(header)
    ensures ParseLine(instant, Some(header), line).1 != Ok(None)
  {
  }

  /** Whatever comes before it and after it, the second header is where the reading stops. */
  lemma {:induction false} SecondHeaderEndsFile(instant: Instant, header: Header, lines: seq<TextLine>,
                                                c: SessionContext, second: TextLine, rest: seq<TextLine>)
    requires IsSessionHeader(instant, c, second)
    ensures ReadLines(instant, Some(header), lines + [second] + rest)
         == FileRead(ReadLines(instant, Some(header), lines).events, true)
    decreases |lines|
  {
    var all := lines + [second] + rest;
    if lines == [] {
      var now :| instant(now).Some? && second.content == Opening(HeaderLine(c, now));
      SecondHeaderRejected(instant, header, c, now);
      assert all[0] == second;
    } else {
      assert all[0] == lines[0] && all[1..] == lines[1..] + [second] + rest;
      SecondHeaderEndsFile(instant, header, lines[1..], c, second, rest);
      if lines[0].content.Opening? || lines[0].content.Entry? {
        HeaderStays(instant, header, lines[0].content.json);
      }
    }
  }

  /** The line is a header that the parser takes as the file's. */
  predicate Opens(instant: Instant, line: TextLine, header: Header) {
    line.content.Opening? && ParseLine(instant, None, line.content.json) == (Some(header), Ok(None))
  }

  lemma SessionHeaderOpens(instant: Instant, c: SessionContext, line: TextLine) returns (header: Header)
    requires IsSessionHeader(instant, c, line)
    ensures Opens(instant, line, header)
  {
    var now :| instant(now).Some? && line.content == Opening(HeaderLine(c, now));
    header := Header(CURRENT_TELEMETRY_SCHEMA_VERSION, now, c);
    HeaderReadsBack(instant, c, now);
  }

  lemma ReadOpened(instant: Instant, lines: seq<TextLine>, header: Header)
    requires lines != [] && Opens(instant, lines[0], header)
    ensures ReadLines(instant, None, lines) == ReadLines(instant, Some(header), lines[1..])
  {
  }

  lemma RestOfLines(lines: seq<TextLine>, second: TextLine, rest: seq<TextLine>)
    requires lines != []
    ensures var all := lines + [second] + rest; all[0] == lines[0] && all[1..] == lines[1..] + [second] + rest
  {
  }

  /** A file with a header reads the same, up to the failure, once a second header was appended. */
  lemma StrayReadsSame(instant: Instant, c: SessionContext, lines: seq<TextLine>, second: TextLine, rest: seq<TextLine>)
    requires lines != [] && IsSessionHeader(instant, c, lines[0]) && IsSessionHeader(instant, c, second)
    ensures ReadLines(instant, None, lines + [second] + rest) == FileRead(ReadLines(instant, None, lines).events, true)
  {
    var header := SessionHeaderOpens(instant, c, lines[0]);
    RestOfLines(lines, second, rest);
    ReadOpened(instant, lines, header);
    ReadOpened(instant, lines + [second] + rest, header);
    SecondHeaderEndsFile(instant, header, lines[1..], c, second, rest);
  }

  ghost predicate ReadAlike(instant: Instant, files: Files, after: Files) {
    forall name :: ReadLines(instant, None, LinesOf(files, name)).events == ReadLines(instant, None, LinesOf(after, name)).events
  }

  lemma OneReadsAlike(instant: Instant, files: Files, name: string, lines: seq<TextLine>)
    requires ReadLines(instant, None, lines).events == ReadLines(instant, None, LinesOf(files, name)).events
    ensures ReadAlike(instant, files, files[name := lines])
  {
  }

  lemma {:induction false} StreamsAlike(instant: Instant, files: Files, after: Files, group: seq<LogFile>, r: DateRange)
    requires ReadAlike(instant, files, after)
    ensures StreamOf(instant, files, group, r) == StreamOf(instant, after, group, r)
  {
    if group != [] { StreamsAlike(instant, files, after, group[1..], r); }
  }

  lemma ExportsAlike(instant: Instant, files: Files, after: Files, names: seq<string>, r: DateRange)
    requires HasDates(r) && ReadAlike(instant, files, after)
    ensures ExportStreams(instant, files, names, r) == ExportStreams(instant, after, names, r)
  {
    var sessions := Sessions(SortLogs(Listed(names, r)));
    forall k | 0 <= k < |sessions|
      ensures ExportStreams(instant, files, names, r)[k] == ExportStreams(instant, after, names, r)[k]
    {
      StreamsAlike(instant, files, after, GroupOf(names, r, sessions[k]), r);
    }
  }

  // ----- the two ways a first flush strays -----

  /** A new activation is about to write its first batch on a day whose segments 0 and 1 exist. */
  ghost predicate FirstOnRolledOver(instant: Instant, c: SessionContext, s: State, files: Files, day: Day) {
    && Agree(s, files, ToSessionSlug(c.sessionId)) && HeadersOf(instant, c, s)
    && s.current.None? && s.phase.Starting? && s.phase.batch != []
    && Key(day, 0) in s.disk && Key(day, 1) in s.disk
  }

  /** The day's segment 0 has no room for the batch. */
  predicate Full(s: State, day: Day)
    requires s.phase.Starting?
  {
    Bytes(FileLines(s.disk, Key(day, 0))) + Bytes(s.phase.batch) > s.config.maxFileBytes
  }

  lemma SegmentHasBytes(s: State, key: Key) returns (i: nat)
    requires Filed(s) && key in s.disk
    ensures i < |s.layout| && s.layout[i].key == key && s.layout[i].lines == s.disk[key]
    ensures s.disk[key] != [] && Bytes(s.disk[key]) > 0
  {
    i := FiledKey(s, key);
    assert s.layout[i] in s.layout;
    assert OneHeader(s.layout[i]) && OnDisk(s.disk, s.layout[i]);
  }

  lemma StrayTarget(instant: Instant, c: SessionContext, s: State, files: Files, day: Day)
    requires FirstOnRolledOver(instant, c, s, files, day)
    ensures NextFile(s, day, Bytes(s.phase.batch))
         == if Full(s, day) then CurrentFile(Key(day, 1), 0)
            else CurrentFile(Key(day, 0), Bytes(s.disk[Key(day, 0)]))
  {
    var i := SegmentHasBytes(s, Key(day, 0));
  }

  /** What the flush stores, and where. */
  lemma StrayFlush(instant: Instant, c: SessionContext, s: State, files: Files, day: Day)
    requires FirstOnRolledOver(instant, c, s, files, day)
    ensures var t, key := FlushBatch(s, day), if Full(s, day) then Key(day, 1) else Key(day, 0);
            && t.disk == s.disk[key := s.disk[key] + ((if Full(s, day) then [s.header] else []) + s.phase.batch)]
            && OfFate(t.past, Stored) == OfFate(s.past, Stored) + s.phase.batch
  {
    var i := SegmentHasBytes(s, Key(day, 0));
    StrayTarget(instant, c, s, files, day);
    StoredAfter(s.past, s.phase.batch, Stored);
  }

  /** The directory once the flush has written to that segment, and `more` was appended later. */
  function AfterFlush(files: Files, slug: string, s: State, key: Key, day: Day, more: seq<TextLine>): Files {
    files[Path(slug, key) := FileLines(FlushBatch(s, day).disk, key) + more]
  }

  /**
   * With segment 0 full, the batch is stored behind a second header in segment 1, and nobody
   * will ever see it: over any range the export yields what it yielded before the flush, and
   * that stays so whatever is appended to the file later.
   */
  lemma StrayFlushInvisible(instant: Instant, c: SessionContext, s: State, files: Files, day: Day, more: seq<TextLine>,
                            after: Files, names: seq<string>, r: DateRange)
    requires FirstOnRolledOver(instant, c, s, files, day) && Full(s, day) && HasDates(r)
    requires after == AfterFlush(files, ToSessionSlug(c.sessionId), s, Key(day, 1), day, more)
    ensures OfFate(FlushBatch(s, day).past, Stored) == OfFate(s.past, Stored) + s.phase.batch
    ensures ExportStreams(instant, after, names, r) == ExportStreams(instant, files, names, r)
  {
    var key, slug := Key(day, 1), ToSessionSlug(c.sessionId);
    var lines, batch := s.disk[key], s.phase.batch;
    var i := SegmentHasBytes(s, key);
    StrayFlush(instant, c, s, files, day);
    LayoutInFiles(s, files, slug, i);
    HeadOfFile(instant, c, s, i);
    StrayReadsSame(instant, c, lines, s.header, batch + more);
    AppendedLines(lines, s.header, batch, more);
    OneReadsAlike(instant, files, Path(slug, key), lines + [s.header] + (batch + more));
    ExportsAlike(instant, files, after, names, r);
  }

  lemma AppendedLines(lines: seq<TextLine>, header: TextLine, batch: seq<TextLine>, more: seq<TextLine>)
    ensures lines + ([header] + batch) + more == lines + [header] + (batch + more)
  {
  }

  lemma HeadOfFile(instant: Instant, c: SessionContext, s: State, i: nat)
    requires HeadersOf(instant, c, s) && i < |s.layout| && s.layout[i].lines != []
    ensures IsSessionHeader(instant, c, s.layout[i].lines[0]) && IsSessionHeader(instant, c, s.header)
  {
    assert s.layout[i] in s.layout;
    assert s.layout[i].lines[0] in Heads(s.layout);
  }

  // ----- the other way: into segment 0 -----

  lemma {:induction false} CanonicalByKeys(slug: string, a: seq<SessionFile>, b: seq<SessionFile>, r: DateRange)
    requires HasDates(r) && |a| == |b| && forall i :: 0 <= i < |a| ==> a[i].key == b[i].key
    ensures Canonical(slug, a, r) == Canonical(slug, b, r)
  {
    if a != [] { CanonicalByKeys(slug, a[1..], b[1..], r); }
  }

  /** The layout with more rows in one of its files. */
  function Grown(layout: seq<SessionFile>, i: nat, rows: seq<TextLine>): seq<SessionFile>
    requires i < |layout|
  {
    layout[i := layout[i].(lines := layout[i].lines + rows)]
  }

  lemma GrownBacked(s: State, files: Files, slug: string, i: nat, rows: seq<TextLine>, after: Files)
    requires Agree(s, files, slug) && i < |s.layout|
    requires after == files[Path(slug, s.layout[i].key) := s.layout[i].lines + rows]
    ensures Backed(after, slug, Grown(s.layout, i, rows))
  {
    LayoutBacked(s, files, slug);
    forall j | 0 <= j < |s.layout| && j != i ensures Path(slug, s.layout[j].key) != Path(slug, s.layout[i].key) {
      if Path(slug, s.layout[j].key) == Path(slug, s.layout[i].key) { PathInjective(slug, s.layout[j].key, s.layout[i].key); }
    }
  }

  lemma GrownFile(c: SessionContext, f: SessionFile, contents: seq<TelemetryEvent>, rows: seq<TextLine>,
                  events: seq<TelemetryEvent>)
    requires f.lines != [] && Encoded(c, RowsOf(f), contents) && Encoded(c, rows, events)
    ensures var g := f.(lines := f.lines + rows); g.lines[0] == f.lines[0] && Encoded(c, RowsOf(g), contents + events)
  {
    assert RowsOf(f.(lines := f.lines + rows)) == RowsOf(f) + rows;
    EncodedAppend(c, RowsOf(f), contents, rows, events);
  }

  lemma GrownContains(instant: Instant, c: SessionContext, layout: seq<SessionFile>, contents: seq<seq<TelemetryEvent>>,
                      i: nat, rows: seq<TextLine>, events: seq<TelemetryEvent>)
    requires Contains(instant, c, layout, contents) && i < |layout| && Encoded(c, rows, events)
    ensures Contains(instant, c, Grown(layout, i, rows), contents[i := contents[i] + events])
  {
    GrownFile(c, layout[i], contents[i], rows, events);
  }

  lemma GrownReads(instant: Instant, s: State, files: Files, names: seq<string>, slug: string, i: nat, rows: seq<TextLine>,
                   after: Files)
    requires Agree(s, files, slug) && IsListing(names, files) && i < |s.layout|
    requires after == files[Path(slug, s.layout[i].key) := s.layout[i].lines + rows]
    ensures SessionStream(instant, after, names, slug, ALL_TIME) == Flatten(ReadsOf(instant, Grown(s.layout, i, rows)))
  {
    var layout := Grown(s.layout, i, rows);
    GroupIsCanonical(s, files, slug, names, ALL_TIME);
    CanonicalByKeys(slug, s.layout, layout, ALL_TIME);
    GrownBacked(s, files, slug, i, rows, after);
    CanonicalStream(instant, after, slug, layout, ALL_TIME);
    ReadsStamped(instant, layout);
    KeepAll(instant, Flatten(ReadsOf(instant, layout)));
  }

  lemma GrownStream(instant: Instant, c: SessionContext, s: State, files: Files, names: seq<string>, slug: string,
                    contents: seq<seq<TelemetryEvent>>, i: nat, rows: seq<TextLine>, events: seq<TelemetryEvent>, after: Files)
    requires Agree(s, files, slug) && IsListing(names, files) && i < |s.layout|
    requires Contains(instant, c, s.layout, contents) && Encoded(c, rows, events)
    requires after == files[Path(slug, s.layout[i].key) := s.layout[i].lines + rows]
    ensures SessionStream(instant, after, names, slug, ALL_TIME)
         == Flatten(ReadableParts(instant, contents[i := contents[i] + events]))
  {
    GrownReads(instant, s, files, names, slug, i, rows, after);
    GrownContains(instant, c, s.layout, contents, i, rows, events);
    ContentsRead(instant, c, Grown(s.layout, i, rows), contents[i := contents[i] + events]);
  }

  lemma NothingElse(lines: seq<TextLine>, rows: seq<TextLine>)
    ensures lines + ([] + rows) + [] == lines + rows
  {
  }

  lemma EarlyAfter(instant: Instant, c: SessionContext, s: State, files: Files, day: Day, after: Files) returns (i: nat)
    requires FirstOnRolledOver(instant, c, s, files, day) && !Full(s, day)
    requires after == AfterFlush(files, ToSessionSlug(c.sessionId), s, Key(day, 0), day, [])
    ensures i < |s.layout| && s.layout[i].key == Key(day, 0)
    ensures after == files[Path(ToSessionSlug(c.sessionId), s.layout[i].key) := s.layout[i].lines + s.phase.batch]
  {
    i := SegmentHasBytes(s, Key(day, 0));
    StrayFlush(instant, c, s, files, day);
    NothingElse(s.layout[i].lines, s.phase.batch);
  }

  /**
   * With room in segment 0, the batch is read right behind that segment's rows, so before every
   * row of the day's later segments, although it was written after them.
   */
  lemma StrayFlushReadEarly(instant: Instant, c: SessionContext, s: State, files: Files, day: Day, after: Files,
                            names: seq<string>, contents: seq<seq<TelemetryEvent>>, events: seq<TelemetryEvent>)
    returns (i: nat)
    requires FirstOnRolledOver(instant, c, s, files, day) && !Full(s, day) && IsListing(names, files)
    requires Contains(instant, c, s.layout, contents) && Encoded(c, s.phase.batch, events)
    requires after == AfterFlush(files, ToSessionSlug(c.sessionId), s, Key(day, 0), day, [])
    ensures i < |contents| && i < |s.layout| && s.layout[i].key == Key(day, 0)
    ensures SessionStream(instant, after, names, ToSessionSlug(c.sessionId), ALL_TIME)
         == Flatten(ReadableParts(instant, contents[i := contents[i] + events]))
  {
    i := EarlyAfter(instant, c, s, files, day, after);
    GrownStream(instant, c, s, files, names, ToSessionSlug(c.sessionId), contents, i, s.phase.batch, events, after);
  }
}
