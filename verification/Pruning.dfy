/**
 * The whole export of a range (src/telemetry/export/files.ts) against the export of all time:
 * skipping files by their date before streaming them, over an arbitrary directory.
 */
module Pruning {
  import opened Basics
  import opened Text
  import opened Calendar
  import opened FileNames
  import opened WireFormat
  import opened TelemetryFiles
  import opened DateRanges
  import opened Export
  import opened EndToEnd

  // ----- skipping files commutes with sorting and grouping -----

  /** The files whose date the range can contain. */
  function InDates(files: seq<LogFile>, r: DateRange): seq<LogFile>
    requires HasDates(r)
  {
    if files == [] then []
    else (if FileDateCanContain(files[0].date, r) then [files[0]] else []) + InDates(files[1..], r)
  }

  lemma InDatesCons(f: LogFile, files: seq<LogFile>, r: DateRange)
    requires HasDates(r)
    ensures InDates([f] + files, r) == (if FileDateCanContain(f.date, r) then [f] else []) + InDates(files, r)
  {
  }

  lemma {:induction false} InDatesMembers(files: seq<LogFile>, r: DateRange)
    requires HasDates(r)
    ensures forall f :: f in InDates(files, r) ==> f in files
  {
    if files != [] {
      InDatesMembers(files[1..], r);
      assert files == [files[0]] + files[1..];
    }
  }

  lemma {:induction false} ListedInDates(names: seq<string>, r: DateRange)
    requires HasDates(r)
    ensures Listed(names, r) == InDates(Listed(names, ALL_TIME), r)
  {
    if names != [] {
      var f, rest := ParseLogFile(names[0]), Listed(names[1..], ALL_TIME);
      ListedInDates(names[1..], r);
      if f.Some? {
        assert Listed(names, ALL_TIME) == [f.value] + rest;
        InDatesCons(f.value, rest, r);
      } else {
        assert Listed(names, ALL_TIME) == [] + rest == rest;
      }
    }
  }

  lemma InsertFirst(f: LogFile, files: seq<LogFile>)
    requires forall g :: g in files ==> LogLe(f, g)
    ensures InsertBy(LogLe, f, files) == [f] + files
  {
  }

  lemma LeastOfSorted(f: LogFile, sorted: seq<LogFile>)
    requires TotalPreorder(LogLe) && SortedBy(LogLe, sorted) && sorted != [] && LogLe(f, sorted[0])
    ensures forall g :: g in sorted ==> LogLe(f, g)
  {
    forall g | g in sorted ensures LogLe(f, g) {
      var i :| 0 <= i < |sorted| && sorted[i] == g;
      assert i > 0 ==> LogLe(sorted[0], g);
    }
  }

  lemma {:induction false} InsertInDates(f: LogFile, sorted: seq<LogFile>, r: DateRange)
    requires HasDates(r) && TotalPreorder(LogLe) && SortedBy(LogLe, sorted)
    ensures InDates(InsertBy(LogLe, f, sorted), r)
         == if FileDateCanContain(f.date, r) then InsertBy(LogLe, f, InDates(sorted, r)) else InDates(sorted, r)
  {
    if sorted == [] || LogLe(f, sorted[0]) {
      if sorted != [] { LeastOfSorted(f, sorted); }
      InDatesMembers(sorted, r);
      InsertFirst(f, InDates(sorted, r));
      assert InsertBy(LogLe, f, sorted) == [f] + sorted;
      InDatesCons(f, sorted, r);
      assert [] + InDates(sorted, r) == InDates(sorted, r);
    } else {
      var g, rest := sorted[0], sorted[1..];
      InsertInDates(f, rest, r);
      InDatesCons(g, InsertBy(LogLe, f, rest), r);
      InsertLater(f, g, InDates(rest, r));
    }
  }

  lemma InsertLater(f: LogFile, g: LogFile, rest: seq<LogFile>)
    requires !LogLe(f, g)
    ensures InsertBy(LogLe, f, [g] + rest) == [g] + InsertBy(LogLe, f, rest)
    ensures [] + InsertBy(LogLe, f, rest) == InsertBy(LogLe, f, rest) && [] + rest == rest
  {
    assert ([g] + rest)[1..] == rest;
  }

  /** The sort is stable, so files left out before it or after it make no difference. */
  lemma {:induction false} SortInDates(files: seq<LogFile>, r: DateRange)
    requires HasDates(r)
    ensures SortLogs(InDates(files, r)) == InDates(SortLogs(files), r)
  {
    if files != [] {
      var f, rest := files[0], files[1..];
      LogOrder();
      SortBySorts(LogLe, rest);
      SortInDates(rest, r);
      InsertInDates(f, SortLogs(rest), r);
      if FileDateCanContain(f.date, r) {
        assert InDates(files, r)[1..] == InDates(rest, r);
      } else {
        assert InDates(files, r) == InDates(rest, r);
      }
    }
  }

  lemma {:induction false} OfSessionInDates(files: seq<LogFile>, slug: string, r: DateRange)
    requires HasDates(r)
    ensures OfSession(InDates(files, r), slug) == InDates(OfSession(files, slug), r)
  {
    if files != [] {
      var f, rest := files[0], files[1..];
      OfSessionInDates(rest, slug, r);
      OfSessionCons(f, InDates(rest, r), slug);
      InDatesCons(f, OfSession(rest, slug), r);
      assert InDates(files, r) == if FileDateCanContain(f.date, r) then [f] + InDates(rest, r) else InDates(rest, r);
      assert OfSession(files, slug) == if f.session == slug then [f] + OfSession(rest, slug) else OfSession(rest, slug);
    }
  }

  lemma OfSessionCons(f: LogFile, files: seq<LogFile>, slug: string)
    ensures OfSession([f] + files, slug) == (if f.session == slug then [f] else []) + OfSession(files, slug)
  {
    assert ([f] + files)[1..] == files;
  }

  /** A session's group under a range is its group of all time without the skipped files. */
  lemma GroupInDates(names: seq<string>, r: DateRange, slug: string)
    requires HasDates(r)
    ensures GroupOf(names, r, slug) == InDates(GroupOf(names, ALL_TIME, slug), r)
  {
    ListedInDates(names, r);
    SortInDates(Listed(names, ALL_TIME), r);
    OfSessionInDates(SortLogs(Listed(names, ALL_TIME)), slug, r);
  }

  // ----- one session -----

  function ReadFile(instant: Instant, files: Files, f: LogFile): seq<TelemetryEvent> {
    ReadLines(instant, None, LinesOf(files, f.name)).events
  }

  /** The range skips the file although it reads an event that the range accepts. */
  predicate LosesFile(instant: Instant, files: Files, f: LogFile, r: DateRange)
    requires HasDates(r)
  {
    !FileDateCanContain(f.date, r) && Keep(instant, r, ReadFile(instant, files, f)) != []
  }

  predicate LosesNone(instant: Instant, files: Files, group: seq<LogFile>, r: DateRange)
    requires HasDates(r)
  {
    forall f :: f in group ==> !LosesFile(instant, files, f, r)
  }

  lemma FullStreamCons(instant: Instant, files: Files, f: LogFile, rest: seq<LogFile>, r: DateRange)
    ensures Keep(instant, r, StreamOf(instant, files, [f] + rest, ALL_TIME))
         == Keep(instant, r, ReadFile(instant, files, f)) + Keep(instant, r, StreamOf(instant, files, rest, ALL_TIME))
  {
    var read := ReadFile(instant, files, f);
    StreamOfCons(instant, files, f, rest, ALL_TIME);
    ReadLinesStamped(instant, None, LinesOf(files, f.name));
    KeepAll(instant, read);
    KeepAppend(instant, r, read, StreamOf(instant, files, rest, ALL_TIME));
  }

  lemma {:induction false} GroupPruned(instant: Instant, files: Files, group: seq<LogFile>, r: DateRange)
    requires HasDates(r)
    ensures var pruned := StreamOf(instant, files, InDates(group, r), r);
            var full := Keep(instant, r, StreamOf(instant, files, group, ALL_TIME));
            && |pruned| <= |full|
            && (|pruned| == |full| <==> LosesNone(instant, files, group, r))
            && (LosesNone(instant, files, group, r) ==> pruned == full)
  {
    if group != [] {
      var f, rest := group[0], group[1..];
      assert group == [f] + rest;
      GroupPruned(instant, files, rest, r);
      FullStreamCons(instant, files, f, rest, r);
      LosesNoneCons(instant, files, f, rest, r);
      PrunedStreamCons(instant, files, f, rest, r);
    }
  }

  lemma LosesNoneCons(instant: Instant, files: Files, f: LogFile, rest: seq<LogFile>, r: DateRange)
    requires HasDates(r)
    ensures LosesNone(instant, files, [f] + rest, r)
       <==> !LosesFile(instant, files, f, r) && LosesNone(instant, files, rest, r)
  {
    assert f in [f] + rest && forall g :: g in rest ==> g in [f] + rest;
  }

  lemma PrunedStreamCons(instant: Instant, files: Files, f: LogFile, rest: seq<LogFile>, r: DateRange)
    requires HasDates(r)
    ensures var more := StreamOf(instant, files, InDates(rest, r), r);
            StreamOf(instant, files, InDates([f] + rest, r), r)
            == if FileDateCanContain(f.date, r) then Keep(instant, r, ReadFile(instant, files, f)) + more else more
  {
    InDatesCons(f, rest, r);
    if FileDateCanContain(f.date, r) {
      StreamOfCons(instant, files, f, InDates(rest, r), r);
    } else {
      assert [] + InDates(rest, r) == InDates(rest, r);
    }
  }

  /** A session's stream is the range's selection of its full stream exactly if no file of it is lost. */
  lemma SessionPrunedExactly(instant: Instant, files: Files, names: seq<string>, slug: string, r: DateRange)
    requires HasDates(r)
    ensures SessionStream(instant, files, names, slug, r)
         == Keep(instant, r, SessionStream(instant, files, names, slug, ALL_TIME))
       <==> LosesNone(instant, files, GroupOf(names, ALL_TIME, slug), r)
  {
    GroupInDates(names, r, slug);
    GroupPruned(instant, files, GroupOf(names, ALL_TIME, slug), r);
  }

  // ----- the whole export -----

  function SessionsOf(names: seq<string>, r: DateRange): (sessions: seq<string>)
    requires HasDates(r)
    ensures Distinct(sessions)
  {
    Sessions(SortLogs(Listed(names, r)))
  }

  /** The events of one session in the output, in output order. */
  function OutputOf(out: seq<Emitted>, sessions: seq<string>, slug: string): seq<TelemetryEvent> {
    if out == [] then []
    else
      var last := out[|out| - 1];
      OutputOf(out[..|out| - 1], sessions, slug)
      + (if last.stream < |sessions| && sessions[last.stream] == slug then [last.event] else [])
  }

  lemma {:induction false} OutputIsProject(out: seq<Emitted>, sessions: seq<string>, k: nat)
    requires Distinct(sessions) && k < |sessions|
    ensures OutputOf(out, sessions, sessions[k]) == Project(out, k)
    decreases |out|
  {
    if out != [] { OutputIsProject(out[..|out| - 1], sessions, k); }
  }

  lemma {:induction false} NoOutputOf(out: seq<Emitted>, sessions: seq<string>, slug: string)
    requires slug !in sessions
    ensures OutputOf(out, sessions, slug) == []
    decreases |out|
  {
    if out != [] { NoOutputOf(out[..|out| - 1], sessions, slug); }
  }

  lemma LogMembers(names: seq<string>, r: DateRange, slug: string, f: LogFile)
    requires HasDates(r)
    ensures f in GroupOf(names, r, slug) <==> f in Listed(names, r) && f.session == slug
  {
    var listed := Listed(names, r);
    LogOrder();
    SortBySorts(LogLe, listed);
    OfSessionMembers(SortLogs(listed), slug);
    assert f in multiset(SortLogs(listed)) <==> f in multiset(listed);
  }

  lemma NoGroup(names: seq<string>, r: DateRange, slug: string)
    requires HasDates(r) && slug !in SessionsOf(names, r)
    ensures GroupOf(names, r, slug) == []
  {
    NoneOfSession(SortLogs(Listed(names, r)), slug);
  }

  lemma {:induction false} NoneOfSession(files: seq<LogFile>, slug: string)
    requires forall i :: 0 <= i < |files| ==> files[i].session != slug
    ensures OfSession(files, slug) == []
  {
    if files != [] { NoneOfSession(files[1..], slug); }
  }

  /** The merged output shows each session's stream; a session without a listed file has none. */
  lemma OutputIsStream(instant: Instant, files: Files, names: seq<string>, r: DateRange, out: seq<Emitted>, slug: string)
    requires HasDates(r) && IsMerge(ExportStreams(instant, files, names, r), out)
    ensures OutputOf(out, SessionsOf(names, r), slug) == SessionStream(instant, files, names, slug, r)
  {
    var sessions := SessionsOf(names, r);
    if slug in sessions {
      var k :| 0 <= k < |sessions| && sessions[k] == slug;
      OutputIsProject(out, sessions, k);
      assert ExportStreams(instant, files, names, r)[k] == SessionStream(instant, files, names, sessions[k], r);
    } else {
      NoOutputOf(out, sessions, slug);
      NoGroup(names, r, slug);
    }
  }

  /** In the export of the range, each session shows the range's selection of what all time shows. */
  ghost predicate SelectsFrom(instant: Instant, names: seq<string>, r: DateRange, out: seq<Emitted>, full: seq<Emitted>)
    requires HasDates(r)
  {
    forall slug :: OutputOf(out, SessionsOf(names, r), slug)
                == Keep(instant, r, OutputOf(full, SessionsOf(names, ALL_TIME), slug))
  }

  /**
   * Whatever the directory holds, the export of a range is the full export with the events
   * outside the range left out, session by session, if and only if no skipped file reads an
   * event of the range.
   */
  lemma PrunedExportExactly(instant: Instant, files: Files, names: seq<string>, r: DateRange,
                            out: seq<Emitted>, full: seq<Emitted>)
    requires HasDates(r)
    requires IsMerge(ExportStreams(instant, files, names, r), out)
    requires IsMerge(ExportStreams(instant, files, names, ALL_TIME), full)
    ensures SelectsFrom(instant, names, r, out, full) <==> LosesNone(instant, files, Listed(names, ALL_TIME), r)
  {
    forall slug
      ensures OutputOf(out, SessionsOf(names, r), slug) == Keep(instant, r, OutputOf(full, SessionsOf(names, ALL_TIME), slug))
         <==> LosesNone(instant, files, GroupOf(names, ALL_TIME, slug), r)
    {
      OutputIsStream(instant, files, names, r, out, slug);
      OutputIsStream(instant, files, names, ALL_TIME, full, slug);
      SessionPrunedExactly(instant, files, names, slug, r);
    }
    forall f, slug ensures f in GroupOf(names, ALL_TIME, slug) <==> f in Listed(names, ALL_TIME) && f.session == slug {
      LogMembers(names, ALL_TIME, slug, f);
    }
    if SelectsFrom(instant, names, r, out, full) {
      forall f | f in Listed(names, ALL_TIME) ensures !LosesFile(instant, files, f, r) {
        assert f in GroupOf(names, ALL_TIME, f.session);
        assert LosesNone(instant, files, GroupOf(names, ALL_TIME, f.session), r);
      }
    }
  }

  /** The events happened on the date that the file's name gives. */
  predicate OnItsDate(instant: Instant, date: string, events: seq<TelemetryEvent>) {
    forall e :: e in events ==>
      var ms := instant(e.timestamp);
      ms.Some? && HasText(UtcDay(ms.value)) && date == DateText(UtcDay(ms.value))
  }

  lemma {:induction false} SkippedByDate(instant: Instant, date: string, events: seq<TelemetryEvent>, r: DateRange)
    requires HasDates(r) && !FileDateCanContain(date, r) && OnItsDate(instant, date, events)
    ensures Keep(instant, r, events) == []
  {
    if events != [] {
      assert events[0] in events;
      var ms := instant(events[0].timestamp).value;
      PruningSafeExactly(UtcDay(ms), ms);
      assert !InRange(ms, r);
      SkippedByDate(instant, date, events[1..], r);
    }
  }

  /** So it is when every file reads only events of the date in its name. */
  lemma DatedFilesAreNotLost(instant: Instant, files: Files, names: seq<string>, r: DateRange)
    requires HasDates(r)
    requires forall f :: f in Listed(names, ALL_TIME) ==> OnItsDate(instant, f.date, ReadFile(instant, files, f))
    ensures LosesNone(instant, files, Listed(names, ALL_TIME), r)
  {
    forall f | f in Listed(names, ALL_TIME) ensures !LosesFile(instant, files, f, r) {
      if !FileDateCanContain(f.date, r) { SkippedByDate(instant, f.date, ReadFile(instant, files, f), r); }
    }
  }

  lemma {:induction false} KeepMembers(instant: Instant, r: DateRange, events: seq<TelemetryEvent>)
    ensures forall e :: e in Keep(instant, r, events) ==> e in events
  {
    if events != [] {
      KeepMembers(instant, r, events[1..]);
      assert events == [events[0]] + events[1..];
    }
  }

  lemma {:induction false} KeepSorted(instant: Instant, r: DateRange, events: seq<TelemetryEvent>)
    requires SortedEvents(instant, events)
    ensures SortedEvents(instant, Keep(instant, r, events))
  {
    if events != [] {
      KeepSorted(instant, r, events[1..]);
      var rest := Keep(instant, r, events[1..]);
      KeepMembers(instant, r, events[1..]);
      forall j | 0 <= j < |rest| ensures EventLe(instant, events[0], rest[j]) {
        assert rest[j] in events[1..];
        var i :| 0 <= i < |events[1..]| && events[1..][i] == rest[j];
        assert events[i + 1] == rest[j];
      }
    }
  }

  lemma StreamOfSession(instant: Instant, files: Files, names: seq<string>, slug: string, r: DateRange) returns (k: nat)
    requires HasDates(r) && slug in SessionsOf(names, r)
    ensures k < |ExportStreams(instant, files, names, r)|
    ensures ExportStreams(instant, files, names, r)[k] == SessionStream(instant, files, names, slug, r)
  {
    k :| 0 <= k < |SessionsOf(names, r)| && SessionsOf(names, r)[k] == slug;
  }

  /** If the full streams are sorted, those of the range are too, and then so is its output. */
  lemma PrunedStaysSorted(instant: Instant, files: Files, names: seq<string>, r: DateRange)
    requires HasDates(r) && LosesNone(instant, files, Listed(names, ALL_TIME), r)
    requires AllSorted(instant, ExportStreams(instant, files, names, ALL_TIME))
    ensures AllSorted(instant, ExportStreams(instant, files, names, r))
  {
    var sessions := SessionsOf(names, r);
    forall k | 0 <= k < |sessions| ensures SortedEvents(instant, ExportStreams(instant, files, names, r)[k]) {
      var slug := sessions[k];
      forall f | f in GroupOf(names, ALL_TIME, slug) ensures !LosesFile(instant, files, f, r) {
        LogMembers(names, ALL_TIME, slug, f);
      }
      SessionPrunedExactly(instant, files, names, slug, r);
      FullStreamSorted(instant, files, names, slug);
      KeepSorted(instant, r, SessionStream(instant, files, names, slug, ALL_TIME));
    }
  }

  lemma FullStreamSorted(instant: Instant, files: Files, names: seq<string>, slug: string)
    requires AllSorted(instant, ExportStreams(instant, files, names, ALL_TIME))
    ensures SortedEvents(instant, SessionStream(instant, files, names, slug, ALL_TIME))
  {
    if slug in SessionsOf(names, ALL_TIME) {
      var k := StreamOfSession(instant, files, names, slug, ALL_TIME);
    } else {
      NoGroup(names, ALL_TIME, slug);
    }
  }
}
