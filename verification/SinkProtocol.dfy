/**
 * The local telemetry sink as a transition system (src/telemetry/sinks/localJsonlSink.ts).
 * A step is what happens between two awaits. Fields from `accepted` on are history.
 */
module SinkProtocol {
  import opened Basics
  import opened TelemetryFiles

  datatype Config = Config(flushBatchSize: nat, bufferLimit: nat, maxFileBytes: nat)

  datatype CurrentFile = CurrentFile(key: Key, size: nat)

  /** Where the running flush stands: none, before its `mkdir` returns, before its append returns. */
  datatype Phase =
    | Idle
    | Starting(batch: seq<TextLine>)
    | Appending(batch: seq<TextLine>, target: CurrentFile)

  datatype Fate = Stored | Dropped | Discarded

  datatype State = State(
    header: TextLine, config: Config,
    buffer: seq<TextLine>, current: Option<CurrentFile>, phase: Phase,
    hasQueued: bool, unstarted: nat, disposed: bool,
    disk: map<Key, seq<TextLine>>,   // this session's files
    accepted: seq<TextLine>,              // every line `write` has pushed
    past: seq<(TextLine, Fate)>,          // what became of the settled ones, in order
    lost: seq<TextLine>,                  // dropped by overflow since the last capture
    started: nat, settled: nat,      // flush runs
    prior: seq<TextLine>,            // rows that were on disk before this activation
    layout: seq<SessionFile>)        // this session's files, in key order

  datatype Event =
    | Write(line: TextLine)
    | Flush
    | Begin
    | Choose(day: Day, mkdirOk: bool)
    | Append(ok: bool)
    | Configure(config: Config)
    | Dispose

  function Batch(p: Phase): seq<TextLine> {
    if p.Idle? then [] else p.batch
  }

  function Tag(lines: seq<TextLine>, fate: Fate): seq<(TextLine, Fate)> {
    seq(|lines|, i requires 0 <= i < |lines| => (lines[i], fate))
  }

  /** `flush()`: while a run is queued, callers share its promise. */
  function Request(s: State): State {
    if s.hasQueued then s else s.(hasQueued := true, unstarted := s.unstarted + 1)
  }

  /** The number of the run whose promise `flush()` returns. */
  function Ticket(s: State): nat {
    s.started + (if s.hasQueued && s.unstarted > 0 then s.unstarted - 1 else s.unstarted)
  }

  function Overage(s: State): nat {
    if |s.buffer| <= s.config.bufferLimit then 0 else |s.buffer| - s.config.bufferLimit
  }

  /** `#enforceBufferLimit`: the oldest lines go. */
  function DropOldest(s: State): State {
    s.(buffer := s.buffer[Overage(s)..], lost := s.lost + s.buffer[..Overage(s)])
  }

  function WriteLine(s: State, line: TextLine): State {
    if s.disposed then s
    else
      var t := DropOldest(s.(buffer := s.buffer + [line], accepted := s.accepted + [line]));
      if |t.buffer| >= t.config.flushBatchSize then Request(t) else t
  }

  /** A queued run starts: it captures the buffer, or settles at once when there is nothing. */
  function BeginRun(s: State): State {
    if !s.phase.Idle? || s.unstarted == 0 then s
    else
      var t := s.(hasQueued := false, unstarted := s.unstarted - 1, started := s.started + 1);
      if s.buffer == [] then t.(settled := s.settled + 1)
      else t.(phase := Starting(s.buffer), buffer := [], past := s.past + Tag(s.lost, Dropped), lost := [])
  }

  function Fail(s: State): State {
    s.(phase := Idle, settled := s.settled + 1, past := s.past + Tag(Batch(s.phase), Discarded))
  }

  function FileLines(disk: map<Key, seq<TextLine>>, key: Key): seq<TextLine> {
    if key in disk then disk[key] else []
  }

  /** `#seedFromDisk`, which looks at segment 0 only. */
  function Seeded(s: State, day: Day): CurrentFile {
    if s.current.Some? && s.current.value.key.day == day then s.current.value
    else CurrentFile(Key(day, 0), Bytes(FileLines(s.disk, Key(day, 0))))
  }

  function NextFile(s: State, day: Day, payload: nat): CurrentFile {
    var seeded := Seeded(s, day);
    if seeded.size > 0 && seeded.size + payload > s.config.maxFileBytes
    then CurrentFile(Key(day, seeded.key.segment + 1), 0)
    else seeded
  }

  function ChooseFile(s: State, day: Day, mkdirOk: bool): State {
    if !s.phase.Starting? then s
    else if !mkdirOk then Fail(s)
    else s.(phase := Appending(s.phase.batch, NextFile(s, day, Bytes(s.phase.batch))))
  }

  /** What one append writes: the header too when the target has no bytes yet. */
  function Data(header: TextLine, batch: seq<TextLine>, target: CurrentFile): seq<TextLine> {
    (if target.size == 0 then [header] else []) + batch
  }

  /** The byte count the sink keeps for that: header bytes plus payload bytes. */
  function DataBytes(header: TextLine, batch: seq<TextLine>, target: CurrentFile): nat {
    (if target.size == 0 then header.length + 1 else 0) + Bytes(batch)
  }

  lemma DataBytesTrue(header: TextLine, batch: seq<TextLine>, target: CurrentFile)
    ensures Bytes(Data(header, batch, target)) == DataBytes(header, batch, target)
  {
    BytesAppend(if target.size == 0 then [header] else [], batch);
    assert Bytes([header]) == header.length + 1;
  }

  /** The session's files after an append: a new last file, or a longer last file. */
  function Extend(layout: seq<SessionFile>, target: CurrentFile, data: seq<TextLine>): seq<SessionFile> {
    if target.size == 0 || layout == [] then layout + [SessionFile(target.key, data, Bytes(data))]
    else
      var last := layout[|layout| - 1];
      layout[..|layout| - 1] + [last.(lines := last.lines + data)]
  }

  function FinishAppend(s: State, ok: bool): State {
    if !s.phase.Appending? then s
    else if !ok then Fail(s)
    else
      var target := s.phase.target;
      var data := Data(s.header, s.phase.batch, target);
      s.(disk := s.disk[target.key := FileLines(s.disk, target.key) + data],
         current := Some(target.(size := target.size + DataBytes(s.header, s.phase.batch, target))),
         layout := Extend(s.layout, target, data),
         phase := Idle, settled := s.settled + 1, past := s.past + Tag(s.phase.batch, Stored))
  }

  function DisposeStep(s: State): State {
    if s.disposed then s else Request(s.(disposed := true))
  }

  function Step(s: State, e: Event): State {
    match e
    case Write(line) => WriteLine(s, line)
    case Flush => Request(s)
    case Begin => BeginRun(s)
    case Choose(day, ok) => ChooseFile(s, day, ok)
    case Append(ok) => FinishAppend(s, ok)
    case Configure(c) => s.(config := c)
    case Dispose => DisposeStep(s)
  }

  function Run(s: State, events: seq<Event>): State
    decreases |events|
  {
    if events == [] then s else Run(Step(s, events[0]), events[1..])
  }

  // ----- where every line is -----

  function Lines(past: seq<(TextLine, Fate)>): seq<TextLine> {
    seq(|past|, i requires 0 <= i < |past| => past[i].0)
  }

  function OfFate(past: seq<(TextLine, Fate)>, fate: Fate): seq<TextLine> {
    if past == [] then []
    else (if past[0].1 == fate then [past[0].0] else []) + OfFate(past[1..], fate)
  }

  /** The books balance, one run is in progress at most, and one unstarted run is queued at most. */
  predicate Accounted(s: State) {
    && s.accepted == Lines(s.past) + Batch(s.phase) + s.lost + s.buffer
    && s.started == s.settled + (if s.phase.Idle? then 0 else 1)
    && s.unstarted == (if s.hasQueued then 1 else 0)
  }

  /** Dropping the oldest `k` lines of the buffer moves them to what is lost. */
  lemma OldestMoves(settled: seq<TextLine>, lost: seq<TextLine>, buffer: seq<TextLine>, k: nat)
    requires k <= |buffer|
    ensures settled + (lost + buffer[..k]) + buffer[k..] == settled + lost + buffer
  {
    assert buffer == buffer[..k] + buffer[k..];
  }

  lemma WriteAccounted(s: State, line: TextLine)
    requires Accounted(s)
    ensures Accounted(WriteLine(s, line))
  {
    if !s.disposed {
      var b := s.buffer + [line];
      var k := Overage(s.(buffer := b));
      OldestMoves(Lines(s.past) + Batch(s.phase), s.lost, b, k);
      ConcatAssoc(Lines(s.past) + Batch(s.phase) + s.lost, s.buffer, [line]);
    }
  }

  lemma StepAccounted(s: State, e: Event)
    requires Accounted(s)
    ensures Accounted(Step(s, e))
  {
    match e
    case Write(line) => WriteAccounted(s, line);
    case Begin => BeginAccounted(s);
    case Choose(day, ok) => ChooseAccounted(s, day, ok);
    case Append(ok) => AppendAccounted(s, ok);
    case _ =>
  }

  lemma BeginAccounted(s: State)
    requires Accounted(s)
    ensures Accounted(BeginRun(s))
  {
    LinesTag(s.past, s.lost, Dropped);
  }

  lemma ChooseAccounted(s: State, day: Day, ok: bool)
    requires Accounted(s)
    ensures Accounted(ChooseFile(s, day, ok))
  {
    if s.phase.Starting? {
      LinesTag(s.past, s.phase.batch, Discarded);
      assert Lines(s.past) + s.phase.batch + [] == Lines(s.past) + s.phase.batch;
    }
  }

  lemma AppendAccounted(s: State, ok: bool)
    requires Accounted(s)
    ensures Accounted(FinishAppend(s, ok))
  {
    if s.phase.Appending? {
      LinesTag(s.past, s.phase.batch, if ok then Stored else Discarded);
      assert Lines(s.past) + s.phase.batch + [] == Lines(s.past) + s.phase.batch;
    }
  }

  lemma LinesTag(past: seq<(TextLine, Fate)>, lines: seq<TextLine>, fate: Fate)
    ensures Lines(past + Tag(lines, fate)) == Lines(past) + lines
  {
  }

  lemma {:induction false} RunAccounted(s: State, events: seq<Event>)
    requires Accounted(s)
    ensures Accounted(Run(s, events))
    decreases |events|
  {
    if events != [] {
      StepAccounted(s, events[0]);
      RunAccounted(Step(s, events[0]), events[1..]);
    }
  }

  function Count(past: seq<(TextLine, Fate)>, fate: Fate): nat {
    |OfFate(past, fate)|
  }

  lemma {:induction false} FatesPartition(past: seq<(TextLine, Fate)>)
    ensures |past| == Count(past, Stored) + Count(past, Dropped) + Count(past, Discarded)
  {
    if past != [] { FatesPartition(past[1..]); }
  }

  /**
   * Conservation over whole runs: every accepted line is on disk, in the batch being flushed,
   * in the buffer, dropped by overflow, or discarded by a failed flush.
   */
  lemma Conservation(s: State, events: seq<Event>)
    requires Accounted(s)
    ensures var t := Run(s, events);
            |t.accepted| == Count(t.past, Stored) + |Batch(t.phase)| + |t.buffer|
                          + (Count(t.past, Dropped) + |t.lost|) + Count(t.past, Discarded)
    ensures var t := Run(s, events); t.started - t.settled <= 1 && t.unstarted <= 1
  {
    RunAccounted(s, events);
    FatesPartition(Run(s, events).past);
  }

  /** The elements at the marked positions, in order. */
  function Select<T>(items: seq<T>, keep: seq<bool>): seq<T>
    requires |items| == |keep|
  {
    if items == [] then [] else (if keep[0] then [items[0]] else []) + Select(items[1..], keep[1..])
  }

  lemma {:induction false} SelectAppend<T>(a: seq<T>, ka: seq<bool>, b: seq<T>, kb: seq<bool>)
    requires |a| == |ka| && |b| == |kb|
    ensures Select(a + b, ka + kb) == Select(a, ka) + Select(b, kb)
  {
    if a == [] {
      assert a + b == b && ka + kb == kb;
    } else {
      assert (a + b)[1..] == a[1..] + b && (ka + kb)[1..] == ka[1..] + kb;
      SelectAppend(a[1..], ka[1..], b, kb);
      ConcatAssoc(if ka[0] then [a[0]] else [], Select(a[1..], ka[1..]), Select(b, kb));
    }
  }

  function Marks(n: nat, keep: bool): (marks: seq<bool>)
    ensures |marks| == n
  {
    if n == 0 then [] else [keep] + Marks(n - 1, keep)
  }

  lemma {:induction false} SelectAll<T>(a: seq<T>, keep: bool)
    ensures Select(a, Marks(|a|, keep)) == if keep then a else []
  {
    if a != [] { SelectAll(a[1..], keep); }
  }

  function StoredMarks(past: seq<(TextLine, Fate)>): seq<bool> {
    seq(|past|, i requires 0 <= i < |past| => past[i].1 == Stored)
  }

  lemma {:induction false} SelectStored(past: seq<(TextLine, Fate)>)
    ensures Select(Lines(past), StoredMarks(past)) == OfFate(past, Stored)
  {
    if past != [] {
      assert Lines(past)[1..] == Lines(past[1..]) && StoredMarks(past)[1..] == StoredMarks(past[1..]);
      SelectStored(past[1..]);
    }
  }

  /** Disk, then batch, then buffer: an in-order subsequence of what was accepted. */
  lemma KeptInOrder(s: State, events: seq<Event>) returns (keep: seq<bool>)
    requires Accounted(s)
    ensures var t := Run(s, events);
            |keep| == |t.accepted| &&
            Select(t.accepted, keep) == OfFate(t.past, Stored) + Batch(t.phase) + t.buffer
  {
    var t := Run(s, events);
    RunAccounted(s, events);
    SelectStored(t.past);
    keep := SelectParts(Lines(t.past), StoredMarks(t.past), Batch(t.phase), t.lost, t.buffer);
  }

  lemma SelectMore<T>(a: seq<T>, ka: seq<bool>, b: seq<T>, keep: bool)
    requires |a| == |ka|
    ensures Select(a + b, ka + Marks(|b|, keep)) == Select(a, ka) + if keep then b else []
  {
    SelectAppend(a, ka, b, Marks(|b|, keep));
    SelectAll(b, keep);
  }

  lemma SelectParts<T>(a: seq<T>, ka: seq<bool>, b: seq<T>, dropped: seq<T>, c: seq<T>) returns (keep: seq<bool>)
    requires |a| == |ka|
    ensures |keep| == |a + b + dropped + c| && Select(a + b + dropped + c, keep) == Select(a, ka) + b + c
  {
    var k1 := ka + Marks(|b|, true);
    var k2 := k1 + Marks(|dropped|, false);
    keep := k2 + Marks(|c|, true);
    SelectMore(a, ka, b, true);
    SelectMore(a + b, k1, dropped, false);
    assert Select(a + b, k1) + [] == Select(a + b, k1);
    SelectMore(a + b + dropped, k2, c, true);
  }

  /** Right after a write the buffer is within its limit. */
  lemma BufferWithinLimit(s: State, line: TextLine)
    requires !s.disposed
    ensures |Step(s, Write(line)).buffer| <= s.config.bufferLimit
  {
  }

  // ----- what a settled flush promises -----

  /** How many accepted lines have left the buffer. */
  function Taken(s: State): int {
    |s.accepted| - |s.buffer|
  }

  predicate Promise(s: State, ticket: nat, n: nat) {
    && Accounted(s)
    && n <= |s.accepted|
    && (s.started > ticket ==> n <= Taken(s))
  }

  lemma StepPromise(s: State, e: Event, ticket: nat, n: nat)
    requires Promise(s, ticket, n)
    ensures Promise(Step(s, e), ticket, n)
  {
    StepAccounted(s, e);
  }

  lemma {:induction false} RunPromise(s: State, events: seq<Event>, ticket: nat, n: nat)
    requires Promise(s, ticket, n)
    ensures Promise(Run(s, events), ticket, n)
    decreases |events|
  {
    if events != [] {
      StepPromise(s, events[0], ticket, n);
      RunPromise(Step(s, events[0]), events[1..], ticket, n);
    }
  }

  /**
   * When the promise of a `flush()` settles, nothing that was buffered at the call is still
   * buffered: whatever is in the buffer was accepted after the call.
   */
  lemma FlushSettles(s: State, events: seq<Event>)
    requires Accounted(s)
    ensures var t := Run(Step(s, Flush), events);
            Ticket(s) < t.settled ==> |s.accepted| <= Taken(t) && t.buffer == t.accepted[Taken(t)..]
  {
    var t := Run(Step(s, Flush), events);
    StepAccounted(s, Flush);
    RunPromise(Step(s, Flush), events, Ticket(s), |s.accepted|);
    RunAccounted(Step(s, Flush), events);
  }

  // ----- files -----

  /** A file of the session opens with a header and holds no other. */
  predicate OneHeader(f: SessionFile) {
    f.lines != [] && IsHeader(f.lines[0]) && forall i :: 1 <= i < |f.lines| ==> !IsHeader(f.lines[i])
  }

  predicate OnDisk(disk: map<Key, seq<TextLine>>, f: SessionFile) {
    f.key in disk && disk[f.key] == f.lines
  }

  function RowsOf(f: SessionFile): seq<TextLine> {
    if f.lines == [] then [] else f.lines[1..]
  }

  function AllRows(layout: seq<SessionFile>): seq<TextLine> {
    if layout == [] then [] else AllRows(layout[..|layout| - 1]) + RowsOf(layout[|layout| - 1])
  }

  predicate AtEnd(layout: seq<SessionFile>, target: CurrentFile) {
    && layout != []
    && layout[|layout| - 1].key == target.key
    && Bytes(layout[|layout| - 1].lines) == target.size
  }

  predicate Beyond(layout: seq<SessionFile>, key: Key) {
    forall i :: 0 <= i < |layout| ==> KeyLt(layout[i].key, key)
  }

  /** A target is the session's last file, with its true size, or a new file after the last. */
  predicate TargetOk(s: State, target: CurrentFile) {
    if target.size == 0 then Beyond(s.layout, target.key) else AtEnd(s.layout, target)
  }

  /** The files on disk are exactly the layout, in order, each with one header. */
  ghost predicate Filed(s: State) {
    && IsHeader(s.header) && Headerless(s.buffer) && Headerless(Batch(s.phase))
    && Increasing(s.layout)
    && (forall f :: f in s.layout ==> OneHeader(f) && OnDisk(s.disk, f))
    && (forall key :: key in s.disk ==> exists f :: f in s.layout && f.key == key)
    && (s.current.Some? ==> s.current.value.size > 0 && AtEnd(s.layout, s.current.value))
    && (s.phase.Appending? ==> TargetOk(s, s.phase.target))
    && AllRows(s.layout) == s.prior + OfFate(s.past, Stored)
  }

  /** The clock is not behind any file of the session. */
  predicate ClockOk(s: State, day: int) {
    forall i :: 0 <= i < |s.layout| ==> s.layout[i].key.day <= day
  }

  /** On the day of its first append the sink finds no numbered segment left by an earlier activation. */
  predicate NotRolledOver(s: State, day: int) {
    s.current.None? ==> forall i :: 0 <= i < |s.layout| && s.layout[i].key.day == day ==> s.layout[i].key.segment == 0
  }

  /** What the sink relies on: lines written are rows, the clock, and a day not rolled over before. */
  predicate StepOk(s: State, e: Event) {
    && (e.Write? ==> !IsHeader(e.line))
    && (e.Choose? && s.phase.Starting? ==> ClockOk(s, e.day) && NotRolledOver(s, e.day))
  }

  ghost predicate Orderly(s: State, events: seq<Event>)
    decreases |events|
  {
    events == [] || (StepOk(s, events[0]) && Orderly(Step(s, events[0]), events[1..]))
  }

  lemma {:induction false} OfFateAppend(a: seq<(TextLine, Fate)>, b: seq<(TextLine, Fate)>, fate: Fate)
    ensures OfFate(a + b, fate) == OfFate(a, fate) + OfFate(b, fate)
  {
    if a == [] {
      assert a + b == b;
    } else {
      assert (a + b)[1..] == a[1..] + b;
      OfFateAppend(a[1..], b, fate);
      ConcatAssoc(if a[0].1 == fate then [a[0].0] else [], OfFate(a[1..], fate), OfFate(b, fate));
    }
  }

  lemma {:induction false} OfFateTag(lines: seq<TextLine>, tag: Fate, fate: Fate)
    ensures OfFate(Tag(lines, tag), fate) == if tag == fate then lines else []
  {
    if lines != [] {
      assert Tag(lines, tag)[1..] == Tag(lines[1..], tag);
      OfFateTag(lines[1..], tag, fate);
    }
  }

  lemma StoredAfter(past: seq<(TextLine, Fate)>, lines: seq<TextLine>, tag: Fate)
    ensures OfFate(past + Tag(lines, tag), Stored) == OfFate(past, Stored) + if tag == Stored then lines else []
  {
    OfFateAppend(past, Tag(lines, tag), Stored);
    OfFateTag(lines, tag, Stored);
  }

  lemma FiledKey(s: State, key: Key) returns (i: nat)
    requires Filed(s) && key in s.disk
    ensures i < |s.layout| && s.layout[i].key == key && s.disk[key] == s.layout[i].lines
  {
    var f :| f in s.layout && f.key == key;
    i :| 0 <= i < |s.layout| && s.layout[i] == f;
  }

  /** The first append of an activation: segment 0 of the day is the last file or there is none. */
  lemma SeededOk(s: State, day: Day)
    requires Filed(s) && ClockOk(s, day) && NotRolledOver(s, day)
    ensures TargetOk(s, Seeded(s, day))
  {
    var key := Key(day, 0);
    if s.current.Some? && s.current.value.key.day == day {
    } else if key in s.disk {
      SeedPresent(s, key);
    } else {
      SeedAbsent(s, key);
    }
  }

  /** Segment 0 of the latest day, with no later segment, is the last file. */
  lemma SeedPresent(s: State, key: Key)
    requires Filed(s) && ClockOk(s, key.day) && key.segment == 0 && key in s.disk
    requires forall i :: 0 <= i < |s.layout| && s.layout[i].key.day == key.day ==> s.layout[i].key.segment == 0
    ensures Bytes(s.disk[key]) > 0 && AtEnd(s.layout, CurrentFile(key, Bytes(s.disk[key])))
  {
    var i := FiledKey(s, key);
    assert s.layout[i] in s.layout;
    BytesPositive(s.layout[i].lines);
    var last := s.layout[|s.layout| - 1];
    assert i < |s.layout| - 1 ==> KeyLt(key, last.key);
  }

  lemma SeedAbsent(s: State, key: Key)
    requires Filed(s) && ClockOk(s, key.day) && key.segment == 0 && key !in s.disk
    requires forall i :: 0 <= i < |s.layout| && s.layout[i].key.day == key.day ==> s.layout[i].key.segment == 0
    ensures Beyond(s.layout, key)
  {
    forall i | 0 <= i < |s.layout| ensures KeyLt(s.layout[i].key, key) {
      assert s.layout[i] in s.layout;
    }
  }

  lemma ChooseFiled(s: State, day: Day, mkdirOk: bool)
    requires Filed(s) && StepOk(s, Choose(day, mkdirOk))
    ensures Filed(ChooseFile(s, day, mkdirOk))
  {
    if s.phase.Starting? {
      if !mkdirOk {
        FailFiled(s);
      } else {
        SeededOk(s, day);
        var seeded := Seeded(s, day);
        assert seeded.size > 0 ==> Beyond(s.layout, Key(day, seeded.key.segment + 1));
      }
    }
  }

  lemma AllRowsSnoc(layout: seq<SessionFile>, f: SessionFile)
    ensures AllRows(layout + [f]) == AllRows(layout) + RowsOf(f)
  {
    assert (layout + [f])[..|layout|] == layout;
  }

  /** `written` is the file an append leaves behind, `front` the files before it. */
  ghost predicate Extends(s: State, front: seq<SessionFile>, written: SessionFile)
    requires s.phase.Appending?
  {
    var target := s.phase.target;
    var data := Data(s.header, s.phase.batch, target);
    && Extend(s.layout, target, data) == front + [written]
    && written.key == target.key
    && written.lines == FileLines(s.disk, target.key) + data
    && Bytes(written.lines) == target.size + Bytes(data)
    && (target.size == 0 ==> written.first == Bytes(data))
    && (target.size > 0 ==> s.layout != [] && written.first == s.layout[|s.layout| - 1].first)
    && OneHeader(written)
    && front <= s.layout && Beyond(front, target.key)
    && AllRows(front) + RowsOf(written) == AllRows(s.layout) + s.phase.batch
    && (s.layout == front
        || (s.layout == front + s.layout[|front|..] && |s.layout| == |front| + 1 && s.layout[|front|].key == target.key))
  }

  lemma LongerKeepsHeader(f: SessionFile, rows: seq<TextLine>)
    requires OneHeader(f) && Headerless(rows)
    ensures OneHeader(f.(lines := f.lines + rows))
    ensures RowsOf(f.(lines := f.lines + rows)) == RowsOf(f) + rows
  {
    var lines := f.lines + rows;
    forall i | |f.lines| <= i < |lines| ensures !IsHeader(lines[i]) {
      assert !IsHeader(rows[i - |f.lines|]);
    }
  }

  lemma NewFile(s: State) returns (written: SessionFile, front: seq<SessionFile>)
    requires Filed(s) && s.phase.Appending? && s.phase.target.size == 0
    ensures Extends(s, front, written)
  {
    var target := s.phase.target;
    var data := Data(s.header, s.phase.batch, target);
    front := s.layout;
    written := SessionFile(target.key, data, Bytes(data));
    if target.key in s.disk { var i := FiledKey(s, target.key); }
    assert data == [s.header] + s.phase.batch;
    assert RowsOf(written) == s.phase.batch;
  }

  lemma LastOnDisk(s: State, target: CurrentFile) returns (front: seq<SessionFile>, last: SessionFile)
    requires Filed(s) && AtEnd(s.layout, target)
    ensures s.layout == front + [last] && last.key == target.key && Bytes(last.lines) == target.size
    ensures OneHeader(last) && FileLines(s.disk, last.key) == last.lines
  {
    var n := |s.layout| - 1;
    front, last := s.layout[..n], s.layout[n];
    assert last in s.layout;
  }

  lemma LongerFile(s: State) returns (written: SessionFile, front: seq<SessionFile>)
    requires Filed(s) && s.phase.Appending? && s.phase.target.size > 0
    ensures Extends(s, front, written)
  {
    var last;
    front, last := LastOnDisk(s, s.phase.target);
    written := last.(lines := last.lines + s.phase.batch);
    LongerExtends(s, front, last);
  }

  lemma LongerExtends(s: State, front: seq<SessionFile>, last: SessionFile)
    requires s.phase.Appending? && s.phase.target.size == Bytes(last.lines) > 0 && s.phase.target.key == last.key
    requires s.layout == front + [last] && Increasing(s.layout) && OneHeader(last)
    requires FileLines(s.disk, last.key) == last.lines && Headerless(s.phase.batch)
    ensures Extends(s, front, last.(lines := last.lines + s.phase.batch))
  {
    assert Data(s.header, s.phase.batch, s.phase.target) == s.phase.batch;
    assert s.layout[|front|] == last && s.layout[..|front|] == front;
    BytesAppend(last.lines, s.phase.batch);
    LongerRows(front, last, s.phase.batch);
  }

  lemma LongerRows(front: seq<SessionFile>, last: SessionFile, batch: seq<TextLine>)
    requires OneHeader(last) && Headerless(batch)
    ensures AllRows(front) + RowsOf(last.(lines := last.lines + batch)) == AllRows(front + [last]) + batch
    ensures OneHeader(last.(lines := last.lines + batch))
  {
    AllRowsSnoc(front, last);
    LongerKeepsHeader(last, batch);
    ConcatAssoc(AllRows(front), RowsOf(last), batch);
  }

  lemma ExtendedFile(s: State) returns (written: SessionFile, front: seq<SessionFile>)
    requires Filed(s) && s.phase.Appending?
    ensures Extends(s, front, written)
  {
    if s.phase.target.size == 0 { written, front := NewFile(s); } else { written, front := LongerFile(s); }
  }

  lemma AppendFiled(s: State)
    requires Filed(s) && s.phase.Appending? && s.phase.batch != []
    ensures Filed(FinishAppend(s, true))
  {
    var written, front := ExtendedFile(s);
    AppendedState(s, front, written);
    AppendedRows(s, front, written);
    FrontStaysOnDisk(s, front);
    KeysStayFiled(s, front, written);
    FiledFromParts(FinishAppend(s, true), front, written);
  }

  lemma AppendedState(s: State, front: seq<SessionFile>, written: SessionFile)
    requires Increasing(s.layout) && s.phase.Appending? && Extends(s, front, written)
    ensures var t := FinishAppend(s, true);
            && t.header == s.header && t.buffer == s.buffer && t.phase.Idle? && t.layout == front + [written]
            && OnDisk(t.disk, written) && t.current == Some(CurrentFile(written.key, Bytes(written.lines)))
    ensures Increasing(front) && Beyond(front, written.key) && Bytes(written.lines) > 0
  {
    BytesPositive(written.lines);
    DataBytesTrue(s.header, s.phase.batch, s.phase.target);
  }

  lemma AppendedRows(s: State, front: seq<SessionFile>, written: SessionFile)
    requires Filed(s) && s.phase.Appending? && Extends(s, front, written)
    ensures var t := FinishAppend(s, true); AllRows(t.layout) == t.prior + OfFate(t.past, Stored)
  {
    var t := FinishAppend(s, true);
    assert t.layout == front + [written];
    AllRowsSnoc(front, written);
    StoredAfter(s.past, s.phase.batch, Stored);
    ConcatAssoc(s.prior, OfFate(s.past, Stored), s.phase.batch);
  }

  /** Appending to one file leaves the files before it as they were. */
  lemma FrontStaysOnDisk(s: State, front: seq<SessionFile>)
    requires Filed(s) && s.phase.Appending? && front <= s.layout && Beyond(front, s.phase.target.key)
    ensures forall f :: f in front ==> OneHeader(f) && OnDisk(FinishAppend(s, true).disk, f)
  {
    forall f | f in front ensures f in s.layout && f.key != s.phase.target.key {
      var i :| 0 <= i < |front| && front[i] == f;
      assert s.layout[i] == f && KeyLt(front[i].key, s.phase.target.key);
    }
  }

  lemma KeysStayFiled(s: State, front: seq<SessionFile>, written: SessionFile)
    requires Filed(s) && s.phase.Appending? && Extends(s, front, written)
    ensures forall key :: key in FinishAppend(s, true).disk ==> exists f :: f in front + [written] && f.key == key
  {
    var files := front + [written];
    forall key | key in FinishAppend(s, true).disk ensures exists f :: f in files && f.key == key {
      if key == written.key {
        assert files[|front|] == written;
      } else {
        var i := FiledKey(s, key);
        assert i < |front|;
        assert files[i] == s.layout[i];
      }
    }
  }

  lemma FiledFromParts(t: State, front: seq<SessionFile>, written: SessionFile)
    requires IsHeader(t.header) && t.phase.Idle? && Headerless(t.buffer) && t.layout == front + [written]
    requires Increasing(front) && Beyond(front, written.key)
    requires forall f :: f in front ==> OneHeader(f) && OnDisk(t.disk, f)
    requires OneHeader(written) && OnDisk(t.disk, written)
    requires forall key :: key in t.disk ==> exists f :: f in t.layout && f.key == key
    requires t.current.Some? && t.current.value == CurrentFile(written.key, Bytes(written.lines))
    requires t.current.value.size > 0 && AllRows(t.layout) == t.prior + OfFate(t.past, Stored)
    ensures Filed(t)
  {
  }

  predicate BatchNonEmpty(s: State) {
    !s.phase.Idle? ==> s.phase.batch != []
  }

  /** Steps that touch neither the files nor what is stored. */
  lemma FiledFrame(s: State, t: State)
    requires Filed(s) && Headerless(t.buffer) && Headerless(Batch(t.phase))
    requires t.header == s.header && t.disk == s.disk && t.layout == s.layout
    requires t.current == s.current && t.prior == s.prior && OfFate(t.past, Stored) == OfFate(s.past, Stored)
    requires t.phase.Appending? ==> t.phase == s.phase
    ensures Filed(t)
  {
  }

  lemma StepFiled(s: State, e: Event)
    requires Filed(s) && BatchNonEmpty(s) && StepOk(s, e)
    ensures Filed(Step(s, e)) && BatchNonEmpty(Step(s, e))
  {
    match e
    case Begin => BeginFiled(s);
    case Choose(day, ok) => ChooseFiled(s, day, ok);
    case Append(ok) => if s.phase.Appending? { if ok { AppendFiled(s); } else { FailFiled(s); } }
    case Write(line) => WriteFiled(s, line);
    case _ => FiledFrame(s, Step(s, e));
  }

  /** A starting run leaves the files alone; lines move from the buffer to the batch. */
  lemma BeginFrame(s: State, t: State)
    requires t == BeginRun(s)
    ensures t.header == s.header && t.disk == s.disk && t.layout == s.layout && t.current == s.current && t.prior == s.prior
    ensures t.buffer == s.buffer || t.buffer == []
    ensures t.phase == s.phase || t.phase == Starting(s.buffer)
    ensures OfFate(t.past, Stored) == OfFate(s.past, Stored)
  {
    StoredAfter(s.past, s.lost, Dropped);
  }

  lemma BeginFiled(s: State)
    requires Filed(s)
    ensures Filed(BeginRun(s))
  {
    var t := BeginRun(s);
    BeginFrame(s, t);
    FiledFrame(s, t);
  }

  lemma FailFiled(s: State)
    requires Filed(s)
    ensures Filed(Fail(s))
  {
    StoredAfter(s.past, Batch(s.phase), Discarded);
    FiledFrame(s, Fail(s));
  }

  lemma WriteFiled(s: State, line: TextLine)
    requires Filed(s) && !IsHeader(line)
    ensures Filed(WriteLine(s, line)) && WriteLine(s, line).phase == s.phase
  {
    var t := WriteLine(s, line);
    assert Headerless(s.buffer + [line]);
    assert Headerless(t.buffer);
    FiledFrame(s, t);
  }

  /**
   * Over every orderly run, across rollovers, day changes and failed appends: each file of
   * the session starts with its header and contains no second one, the tracked size is the
   * size on disk, and the rows on disk, in file order, are the rows that were there before
   * followed by the stored lines in the order they were accepted.
   */
  lemma {:induction false} RunFiled(s: State, events: seq<Event>)
    requires Filed(s) && BatchNonEmpty(s) && Orderly(s, events)
    ensures Filed(Run(s, events)) && BatchNonEmpty(Run(s, events))
    decreases |events|
  {
    if events != [] {
      StepFiled(s, events[0]);
      RunFiled(Step(s, events[0]), events[1..]);
    }
  }

  // ----- file sizes -----

  /** No file outgrows the limit, unless its first append already did. */
  predicate Bounded(s: State) {
    && (forall f :: f in s.layout ==> Bytes(f.lines) <= Max(s.config.maxFileBytes, f.first))
    && (s.phase.Appending? && s.phase.target.size > 0 ==>
          s.phase.target.size + Bytes(s.phase.batch) <= s.config.maxFileBytes)
  }

  predicate KeepsLimit(s: State, e: Event) {
    e.Configure? ==> e.config.maxFileBytes == s.config.maxFileBytes
  }

  /** Every step but an append leaves the files as they are. */
  lemma LayoutStays(s: State, e: Event)
    requires !e.Append?
    ensures Step(s, e).layout == s.layout && Step(s, e).header == s.header
    ensures KeepsLimit(s, e) ==> Step(s, e).config.maxFileBytes == s.config.maxFileBytes
    ensures Step(s, e).phase == s.phase || Step(s, e).phase.Starting? || e.Choose?
  {
  }

  lemma ChooseBounded(s: State, day: Day, ok: bool)
    requires Bounded(s)
    ensures Bounded(ChooseFile(s, day, ok))
  {
  }

  lemma StepBounded(s: State, e: Event)
    requires Filed(s) && BatchNonEmpty(s) && Bounded(s) && StepOk(s, e) && KeepsLimit(s, e)
    ensures Bounded(Step(s, e)) && Step(s, e).config.maxFileBytes == s.config.maxFileBytes
  {
    match e
    case Append(ok) => if ok && s.phase.Appending? { AppendBounded(s); }
    case Choose(day, ok) => ChooseBounded(s, day, ok);
    case _ => LayoutStays(s, e);
  }

  lemma AppendBounded(s: State)
    requires Filed(s) && Bounded(s) && s.phase.Appending?
    ensures Bounded(FinishAppend(s, true))
  {
    var written, front := ExtendedFile(s);
    WrittenBounded(s, front, written);
    AppendedState(s, front, written);
    FrontBounded(s, front);
    BoundedParts(FinishAppend(s, true), front, written);
  }

  lemma BoundedParts(t: State, front: seq<SessionFile>, written: SessionFile)
    requires t.layout == front + [written] && t.phase.Idle?
    requires forall f :: f in front ==> Bytes(f.lines) <= Max(t.config.maxFileBytes, f.first)
    requires Bytes(written.lines) <= Max(t.config.maxFileBytes, written.first)
    ensures Bounded(t)
  {
  }

  lemma FrontBounded(s: State, front: seq<SessionFile>)
    requires Bounded(s) && front <= s.layout
    ensures forall f :: f in front ==> Bytes(f.lines) <= Max(s.config.maxFileBytes, f.first)
  {
    forall f | f in front ensures f in s.layout {}
  }

  lemma WrittenBounded(s: State, front: seq<SessionFile>, written: SessionFile)
    requires Bounded(s) && s.phase.Appending? && Extends(s, front, written)
    ensures Bytes(written.lines) <= Max(s.config.maxFileBytes, written.first)
  {
    if s.phase.target.size > 0 {
      assert Data(s.header, s.phase.batch, s.phase.target) == s.phase.batch;
    }
  }

  /**
   * With a fixed limit, a file that reaches the disk is never larger than the limit or, when
   * one batch alone exceeds it, than its first append: the header and that batch.
   */
  lemma {:induction false} RunBounded(s: State, events: seq<Event>)
    requires Filed(s) && BatchNonEmpty(s) && Bounded(s) && Orderly(s, events)
    requires forall i :: 0 <= i < |events| && events[i].Configure? ==> events[i].config.maxFileBytes == s.config.maxFileBytes
    ensures Bounded(Run(s, events)) && Run(s, events).config.maxFileBytes == s.config.maxFileBytes
    decreases |events|
  {
    if events != [] {
      StepFiled(s, events[0]);
      StepBounded(s, events[0]);
      RunBounded(Step(s, events[0]), events[1..]);
    }
  }

  // ----- whose headers the files carry -----

  ghost function Heads(layout: seq<SessionFile>): set<TextLine> {
    set f | f in layout && f.lines != [] :: f.lines[0]
  }

  lemma StepHeads(s: State, e: Event)
    requires Filed(s) && BatchNonEmpty(s) && StepOk(s, e)
    ensures Heads(Step(s, e).layout) <= Heads(s.layout) + {s.header} && Step(s, e).header == s.header
  {
    match e
    case Append(ok) => if ok && s.phase.Appending? { AppendHeads(s); }
    case _ => LayoutStays(s, e);
  }

  lemma HeadsOfParts(front: seq<SessionFile>, written: SessionFile, heads: set<TextLine>)
    requires Heads(front) <= heads && (written.lines != [] ==> written.lines[0] in heads)
    ensures Heads(front + [written]) <= heads
  {
    forall f | f in front + [written] && f.lines != [] ensures f.lines[0] in heads {
      if f in front { assert f.lines[0] in Heads(front); }
    }
  }

  lemma HeadsOfFront(front: seq<SessionFile>, layout: seq<SessionFile>)
    requires front <= layout
    ensures Heads(front) <= Heads(layout)
  {
    forall f | f in front ensures f in layout {}
  }

  lemma AppendHeads(s: State)
    requires Filed(s) && s.phase.Appending?
    ensures Heads(FinishAppend(s, true).layout) <= Heads(s.layout) + {s.header}
  {
    var written, front := ExtendedFile(s);
    WrittenHead(s, front, written);
    HeadsOfFront(front, s.layout);
    HeadsOfParts(front, written, Heads(s.layout) + {s.header});
  }

  lemma WrittenHead(s: State, front: seq<SessionFile>, written: SessionFile)
    requires Filed(s) && s.phase.Appending? && Extends(s, front, written)
    ensures written.lines != [] && written.lines[0] in Heads(s.layout) + {s.header}
  {
    if s.phase.target.key in s.disk {
      var i := FiledKey(s, s.phase.target.key);
      assert s.layout[i] in s.layout;
      assert written.lines[0] == s.layout[i].lines[0];
    }
  }

  /** Files carry this activation's header, or one that was there before. */
  lemma {:induction false} RunHeads(s: State, events: seq<Event>)
    requires Filed(s) && BatchNonEmpty(s) && Orderly(s, events)
    ensures Heads(Run(s, events).layout) <= Heads(s.layout) + {s.header}
    decreases |events|
  {
    if events != [] {
      StepFiled(s, events[0]);
      StepHeads(s, events[0]);
      RunHeads(Step(s, events[0]), events[1..]);
    }
  }

  // ----- when the day was rolled over before -----

  /** The batch ended up behind everything the session had on disk, in a file with one header. */
  ghost predicate LandedInOrder(s: State, t: State) {
    && t.current.Some? && t.current.value.key in t.disk
    && var key := t.current.value.key;
       && (forall k :: k in s.disk && k != key ==> KeyLt(k, key))
       && (forall i :: 1 <= i < |t.disk[key]| ==> !IsHeader(t.disk[key][i]))
  }

  /** One successful flush of the captured batch. */
  function FlushBatch(s: State, day: Day): State {
    FinishAppend(ChooseFile(s, day, true), true)
  }

  /**
   * Picking up after an earlier activation, exactly: the first flush lands in order, under one
   * header, if and only if the earlier activation left no numbered segment for the day.
   * Otherwise it goes to segment 0, before the rows of the later segments, or it opens the
   * existing segment 1 a second time and writes another header into it.
   */
  lemma FirstFlushInOrderExactly(s: State, day: Day)
    requires Filed(s) && s.current.None? && s.phase.Starting? && s.phase.batch != [] && ClockOk(s, day)
    ensures LandedInOrder(s, FlushBatch(s, day)) <==> NotRolledOver(s, day)
  {
    if NotRolledOver(s, day) {
      FreshFlushLands(s, day);
    } else {
      RolledOverFlushStrays(s, day);
    }
  }

  lemma FreshFlushLands(s: State, day: Day)
    requires Filed(s) && s.phase.Starting? && s.phase.batch != [] && ClockOk(s, day) && NotRolledOver(s, day)
    ensures LandedInOrder(s, FlushBatch(s, day))
  {
    var u := ChooseFile(s, day, true);
    ChooseFiled(s, day, true);
    AppendFiled(u);
    LastIsCurrent(FinishAppend(u, true));
  }

  lemma LastIsCurrent(t: State)
    requires Filed(t) && t.current.Some?
    ensures var key := t.current.value.key;
            && key in t.disk
            && (forall k :: k in t.disk && k != key ==> KeyLt(k, key))
            && (forall i :: 1 <= i < |t.disk[key]| ==> !IsHeader(t.disk[key][i]))
  {
    var last := t.layout[|t.layout| - 1];
    assert last in t.layout;
    forall k | k in t.disk && k != last.key ensures KeyLt(k, last.key) {
      var i := FiledKey(t, k);
    }
  }

  /** A first flush knows of the day's segment 0 only, so it ends in that segment or the next. */
  lemma FirstFlushTarget(s: State, day: Day) returns (key: Key)
    requires s.current.None? && s.phase.Starting?
    ensures key.day == day && key.segment <= 1
    ensures var t := FlushBatch(s, day);
            t.current.Some? && t.current.value.key == key && key in t.disk && FileLines(s.disk, key) <= t.disk[key]
    ensures key.segment == 1 ==> FlushBatch(s, day).disk[key] == FileLines(s.disk, key) + ([s.header] + s.phase.batch)
  {
    key := FlushBatch(s, day).current.value.key;
  }

  lemma RolledOverFlushStrays(s: State, day: Day)
    requires Filed(s) && s.current.None? && s.phase.Starting? && s.phase.batch != []
    requires !NotRolledOver(s, day)
    ensures !LandedInOrder(s, FlushBatch(s, day))
  {
    var i :| 0 <= i < |s.layout| && s.layout[i].key.day == day && s.layout[i].key.segment > 0;
    var f, t := s.layout[i], FlushBatch(s, day);
    assert f in s.layout && OnDisk(s.disk, f) && OneHeader(f);
    var key := FirstFlushTarget(s, day);
    if f.key == key {
      // Segment 1 is opened again although it has lines.
      assert IsHeader(t.disk[key][|f.lines|]);
    }
  }

  /** Over any run whatsoever, orderly or not, files only grow: what is on disk stays where it is. */
  lemma {:induction false} FilesOnlyGrow(s: State, events: seq<Event>, key: Key)
    requires key in s.disk
    ensures key in Run(s, events).disk && s.disk[key] <= Run(s, events).disk[key]
    decreases |events|
  {
    if events != [] {
      var t := Step(s, events[0]);
      assert key in t.disk && s.disk[key] <= t.disk[key];
      FilesOnlyGrow(t, events[1..], key);
    }
  }

  /** The extension host restarts within the session: only the files survive. */
  function Restart(s: State, header: TextLine): State {
    s.(header := header, buffer := [], current := None, phase := Idle, hasQueued := false, unstarted := 0,
       disposed := false, accepted := [], past := [], lost := [], started := 0, settled := 0,
       prior := AllRows(s.layout))
  }

  lemma RestartFiled(s: State, header: TextLine)
    requires Filed(s) && IsHeader(header)
    ensures Filed(Restart(s, header)) && Accounted(Restart(s, header)) && BatchNonEmpty(Restart(s, header))
    ensures Restart(s, header).header == header && Restart(s, header).layout == s.layout
  {
  }

  /**
   * A restart on the day of the last append is safe exactly when that append was still in the
   * day's first segment: with a higher segment the next flush strays.
   */
  lemma RestartSafeExactly(s: State, header: TextLine)
    requires Filed(s) && IsHeader(header) && s.current.Some?
    ensures NotRolledOver(Restart(s, header), s.current.value.key.day) <==> s.current.value.key.segment == 0
  {
    var last := s.layout[|s.layout| - 1];
    assert last.key == s.current.value.key;
  }

  // ----- a run that rolls the day over -----

  /** The limits the settings reader can hand over: smaller values give the defaults instead. */
  predicate FromSettings(c: Config) {
    c.flushBatchSize >= 1 && c.bufferLimit >= 10 && c.maxFileBytes >= 4096
  }

  /** A line written and flushed. */
  function Round(line: TextLine, day: Day): seq<Event> {
    [Write(line), Flush, Begin, Choose(day, true), Append(true)]
  }

  /** Nothing under way. */
  predicate Settled(s: State) {
    && s.phase.Idle? && s.buffer == [] && !s.hasQueued && s.unstarted == 0 && !s.disposed
    && FromSettings(s.config)
  }

  lemma RunCons(s: State, e: Event, rest: seq<Event>)
    ensures Run(s, [e] + rest) == Run(Step(s, e), rest)
  {
    assert ([e] + rest)[1..] == rest;
  }

  lemma RunFour(s: State, a: Event, b: Event, c: Event, d: Event)
    ensures Run(s, [a, b, c, d]) == Step(Step(Step(Step(s, a), b), c), d)
  {
    assert [a, b, c, d] == [a] + ([b] + ([c] + ([d] + [])));
    RunCons(s, a, [b] + ([c] + ([d] + [])));
    RunCons(Step(s, a), b, [c] + ([d] + []));
    RunCons(Step(Step(s, a), b), c, [d] + []);
    RunCons(Step(Step(Step(s, a), b), c), d, []);
  }

  lemma RunFive(s: State, a: Event, b: Event, c: Event, d: Event, e: Event)
    ensures Run(s, [a, b, c, d, e]) == Step(Step(Step(Step(Step(s, a), b), c), d), e)
  {
    assert [a, b, c, d, e] == [a] + [b, c, d, e];
    RunCons(s, a, [b, c, d, e]);
    RunFour(Step(s, a), b, c, d, e);
  }

  /** The run that takes a line just written. */
  function Picked(s: State, line: TextLine): State {
    BeginRun(Request(WriteLine(s, line)))
  }

  lemma RoundStarts(s: State, line: TextLine)
    requires Settled(s)
    ensures var b := Picked(s, line);
            && b.phase == Starting([line]) && b.buffer == [] && !b.hasQueued && b.unstarted == 0 && !b.disposed
            && b.header == s.header && b.config == s.config
            && b.disk == s.disk && b.current == s.current && b.layout == s.layout
  {
    assert s.buffer + [line] == [line] && [line][0..] == [line];
  }

  lemma RoundEnds(s: State, b: State, line: TextLine, day: Day)
    requires b.phase == Starting([line]) && b.header == s.header && b.config == s.config
    requires b.disk == s.disk && b.current == s.current && b.layout == s.layout
    ensures var t, target := FlushBatch(b, day), NextFile(s, day, Bytes([line]));
            && t.current == Some(target.(size := target.size + DataBytes(s.header, [line], target)))
            && t.layout == Extend(s.layout, target, Data(s.header, [line], target))
    ensures var t := FlushBatch(b, day);
            && t.phase.Idle? && t.buffer == b.buffer && t.hasQueued == b.hasQueued && t.unstarted == b.unstarted
            && t.disposed == b.disposed && t.header == b.header && t.config == b.config
  {
    assert NextFile(b, day, Bytes([line])) == NextFile(s, day, Bytes([line]));
  }

  lemma RoundRuns(s: State, line: TextLine, day: Day)
    ensures Run(s, Round(line, day)) == FlushBatch(Picked(s, line), day)
  {
    RunFive(s, Write(line), Flush, Begin, Choose(day, true), Append(true));
  }

  lemma RoundTaken(s: State, line: TextLine, day: Day)
    requires Settled(s)
    ensures var t, target := Run(s, Round(line, day)), NextFile(s, day, Bytes([line]));
            && Settled(t) && t.header == s.header && t.config == s.config
            && t.current == Some(target.(size := target.size + DataBytes(s.header, [line], target)))
            && t.layout == Extend(s.layout, target, Data(s.header, [line], target))
  {
    RoundRuns(s, line, day);
    RoundStarts(s, line);
    RoundEnds(s, Picked(s, line), line, day);
  }

  /** The sink as it is first activated. */
  function FirstActivation(header: TextLine, config: Config): State {
    State(header, config, [], None, Idle, false, 0, false, map[], [], [], [], 0, 0, [], [])
  }

  lemma PickedFiled(s: State, line: TextLine)
    requires Filed(s) && !IsHeader(line)
    ensures Filed(Picked(s, line))
  {
    WriteFiled(s, line);
    FiledFrame(WriteLine(s, line), Request(WriteLine(s, line)));
    BeginFiled(Request(WriteLine(s, line)));
  }

  lemma FlushFiled(b: State, day: Day)
    requires Filed(b) && b.phase.Starting? && b.phase.batch != [] && ClockOk(b, day) && NotRolledOver(b, day)
    ensures Filed(FlushBatch(b, day))
  {
    ChooseFiled(b, day, true);
    AppendFiled(ChooseFile(b, day, true));
  }

  lemma RoundFiled(s: State, line: TextLine, day: Day)
    requires Settled(s) && Filed(s) && ClockOk(s, day) && NotRolledOver(s, day) && !IsHeader(line)
    ensures Filed(Run(s, Round(line, day)))
  {
    RoundRuns(s, line, day);
    PickedFiled(s, line);
    RoundStarts(s, line);
    FlushFiled(Picked(s, line), day);
  }

  lemma FirstIsFiled(header: TextLine, config: Config)
    requires IsHeader(header) && FromSettings(config)
    ensures Filed(FirstActivation(header, config)) && Settled(FirstActivation(header, config))
  {
  }

  lemma FirstTarget(header: TextLine, config: Config, line: TextLine, day: Day)
    ensures NextFile(FirstActivation(header, config), day, Bytes([line])) == CurrentFile(Key(day, 0), 0)
    ensures DataBytes(header, [line], CurrentFile(Key(day, 0), 0)) == Bytes([header]) + Bytes([line])
  {
    assert Bytes([header]) == header.length + 1;
  }

  /** A file has no room for the line twice, below the header. */
  predicate Outgrows(header: TextLine, line: TextLine, config: Config) {
    Bytes([header]) + 2 * Bytes([line]) > config.maxFileBytes
  }

  /** The first round makes segment 0. */
  lemma OneRound(header: TextLine, config: Config, line: TextLine, day: Day) returns (t: State)
    requires IsHeader(header) && !IsHeader(line) && FromSettings(config)
    ensures t == Run(FirstActivation(header, config), Round(line, day)) && Filed(t) && Settled(t) && t.config == config
    ensures t.current == Some(CurrentFile(Key(day, 0), Bytes([header]) + Bytes([line])))
    ensures |t.layout| == 1 && t.layout[0].key == Key(day, 0)
  {
    var s := FirstActivation(header, config);
    FirstIsFiled(header, config);
    FirstTarget(header, config, line, day);
    RoundTaken(s, line, day);
    RoundFiled(s, line, day);
    t := Run(s, Round(line, day));
  }

  /** The second outgrows it and makes segment 1. */
  lemma TwoRounds(header: TextLine, config: Config, line: TextLine, day: Day) returns (t: State)
    requires IsHeader(header) && !IsHeader(line) && FromSettings(config) && Outgrows(header, line, config)
    ensures t == Run(Run(FirstActivation(header, config), Round(line, day)), Round(line, day))
    ensures Filed(t) && Settled(t) && |t.layout| == 2 && t.layout[1].key == Key(day, 1)
  {
    var first := OneRound(header, config, line, day);
    RoundTaken(first, line, day);
    assert NextFile(first, day, Bytes([line])) == CurrentFile(Key(day, 1), 0);
    RoundFiled(first, line, day);
    t := Run(first, Round(line, day));
  }

  /**
   * Under any limits the settings can give: two flushed writes of a line long enough fill
   * segments 0 and 1 of the day; after a restart the first flush of another line strays.
   */
  lemma RolledOverExample(header: TextLine, config: Config, line: TextLine, day: Day)
    requires IsHeader(header) && !IsHeader(line) && FromSettings(config) && Outgrows(header, line, config)
    ensures var t := Run(Run(FirstActivation(header, config), Round(line, day)), Round(line, day));
            var u := Picked(Restart(t, header), line);
            u.phase == Starting([line]) && !LandedInOrder(u, FlushBatch(u, day))
  {
    var t := TwoRounds(header, config, line, day);
    var r := Restart(t, header);
    RestartFiled(t, header);
    PickedFiled(r, line);
    RoundStarts(r, line);
    var u := Picked(r, line);
    assert u.layout[1].key == Key(day, 1) && !NotRolledOver(u, day);
    RolledOverFlushStrays(u, day);
  }
}
