/**
 * What the telemetry sink owes its callers over whole runs: what is accepted, what may be lost,
 * when a flush is queued, what a disposal leaves behind, and when a file is rolled over.
 */
module SinkTheorems {
  import opened Basics
  import opened TelemetryFiles
  import opened SinkProtocol

  // ----- what is accepted -----

  /** The lines written before a disposal. */
  function Writes(events: seq<Event>): seq<TextLine> {
    if events == [] || events[0].Dispose? then []
    else (if events[0].Write? then [events[0].line] else []) + Writes(events[1..])
  }

  /** A live sink accepts every line written to it, in order; a disposed one accepts none. */
  lemma {:induction false} AcceptedExactly(s: State, events: seq<Event>)
    ensures Run(s, events).accepted == s.accepted + if s.disposed then [] else Writes(events)
    decreases |events|
  {
    if events != [] {
      var t, first := Step(s, events[0]), if events[0].Write? then [events[0].line] else [];
      StepAccepts(s, events[0]);
      AcceptedExactly(t, events[1..]);
      ConcatAssoc(s.accepted, first, Writes(events[1..]));
    }
  }

  lemma StepAccepts(s: State, e: Event)
    ensures Step(s, e).accepted == s.accepted + if e.Write? && !s.disposed then [e.line] else []
    ensures Step(s, e).disposed <==> s.disposed || e.Dispose?
  {
  }

  /** The limits set last. */
  function Limits(config: Config, events: seq<Event>): Config
    decreases |events|
  {
    if events == [] then config
    else Limits(if events[0].Configure? then events[0].config else config, events[1..])
  }

  lemma StepLimits(s: State, e: Event)
    ensures Step(s, e).config == if e.Configure? then e.config else s.config
    ensures Step(s, e).header == s.header
  {
  }

  /** A configuration change is in force from the next step on, and the header never changes. */
  lemma {:induction false} LimitsAreTheLastSet(s: State, events: seq<Event>)
    ensures Run(s, events).config == Limits(s.config, events) && Run(s, events).header == s.header
    decreases |events|
  {
    if events != [] {
      StepLimits(s, events[0]);
      LimitsAreTheLastSet(Step(s, events[0]), events[1..]);
    }
  }

  // ----- what may be lost -----

  /** The lines that were dropped or discarded. */
  function Gone(s: State): nat {
    Count(s.past, Dropped) + Count(s.past, Discarded) + |s.lost|
  }

  /** A write loses what exceeds the buffer's limit, a failed flush its batch, and nothing else loses anything. */
  function LossOf(s: State, e: Event): nat {
    if e.Write? && !s.disposed && |s.buffer| >= s.config.bufferLimit then |s.buffer| + 1 - s.config.bufferLimit
    else if e.Choose? && !e.mkdirOk && s.phase.Starting? then |s.phase.batch|
    else if e.Append? && !e.ok && s.phase.Appending? then |s.phase.batch|
    else 0
  }

  lemma FatesAfter(past: seq<(TextLine, Fate)>, lines: seq<TextLine>, tag: Fate, fate: Fate)
    ensures Count(past + Tag(lines, tag), fate) == Count(past, fate) + if tag == fate then |lines| else 0
  {
    OfFateAppend(past, Tag(lines, tag), fate);
    OfFateTag(lines, tag, fate);
  }

  lemma StepLosesExactly(s: State, e: Event)
    ensures Gone(Step(s, e)) == Gone(s) + LossOf(s, e)
  {
    match e
    case Begin =>
      FatesAfter(s.past, s.lost, Dropped, Dropped);
      FatesAfter(s.past, s.lost, Dropped, Discarded);
    case Choose(day, ok) => FailGone(s);
    case Append(ok) =>
      FailGone(s);
      FatesAfter(s.past, Batch(s.phase), Stored, Dropped);
      FatesAfter(s.past, Batch(s.phase), Stored, Discarded);
    case _ =>
  }

  lemma FailGone(s: State)
    ensures Gone(Fail(s)) == Gone(s) + |Batch(s.phase)|
  {
    FatesAfter(s.past, Batch(s.phase), Discarded, Dropped);
    FatesAfter(s.past, Batch(s.phase), Discarded, Discarded);
  }

  /** No write meets a full buffer, and no flush of a batch fails. */
  predicate Undisturbed(s: State, events: seq<Event>)
    decreases |events|
  {
    events == [] || (LossOf(s, events[0]) == 0 && Undisturbed(Step(s, events[0]), events[1..]))
  }

  /** A run loses a line if and only if one of its writes met a full buffer or one of its flushes failed. */
  lemma {:induction false} LosesNothingExactly(s: State, events: seq<Event>)
    ensures Gone(Run(s, events)) >= Gone(s)
    ensures Gone(Run(s, events)) == Gone(s) <==> Undisturbed(s, events)
    decreases |events|
  {
    if events != [] {
      StepLosesExactly(s, events[0]);
      LosesNothingExactly(Step(s, events[0]), events[1..]);
    }
  }

  // ----- when a flush is queued -----

  /** After a write by a live sink a flush is queued if and only if one was or the batch is full. */
  lemma WriteQueuesExactly(s: State, line: TextLine)
    requires Accounted(s) && !s.disposed
    ensures var t := Step(s, Write(line));
            && (t.unstarted == 1 <==> s.unstarted == 1 || |t.buffer| >= s.config.flushBatchSize)
            && (|t.buffer| < s.config.flushBatchSize || t.unstarted == 1)
  {
  }

  predicate KeepsBatchSize(e: Event, n: nat) {
    e.Configure? ==> e.config.flushBatchSize == n
  }

  predicate NoFullBatchWaits(s: State) {
    s.disposed || s.unstarted > 0 || |s.buffer| < s.config.flushBatchSize
  }

  lemma StepQueues(s: State, e: Event)
    requires Accounted(s) && NoFullBatchWaits(s) && s.config.flushBatchSize > 0
    requires KeepsBatchSize(e, s.config.flushBatchSize)
    ensures NoFullBatchWaits(Step(s, e)) && Step(s, e).config.flushBatchSize == s.config.flushBatchSize
  {
    if e.Write? && !s.disposed { WriteQueuesExactly(s, e.line); }
  }

  /** With a fixed batch size, no full batch of a live sink ever waits for the timer. */
  lemma {:induction false} FullBatchIsQueued(s: State, events: seq<Event>)
    requires Accounted(s) && NoFullBatchWaits(s) && s.config.flushBatchSize > 0
    requires forall i :: 0 <= i < |events| ==> KeepsBatchSize(events[i], s.config.flushBatchSize)
    ensures NoFullBatchWaits(Run(s, events))
    decreases |events|
  {
    if events != [] {
      StepQueues(s, events[0]);
      StepAccounted(s, events[0]);
      FullBatchIsQueued(Step(s, events[0]), events[1..]);
    }
  }

  lemma StepRuns(s: State, e: Event)
    requires Accounted(s)
    ensures Step(s, e).started + Step(s, e).unstarted >= s.started + s.unstarted
  {
  }

  lemma {:induction false} RunRuns(s: State, events: seq<Event>)
    requires Accounted(s)
    ensures Run(s, events).started + Run(s, events).unstarted >= s.started + s.unstarted
    decreases |events|
  {
    if events != [] {
      StepRuns(s, events[0]);
      StepAccounted(s, events[0]);
      RunRuns(Step(s, events[0]), events[1..]);
    }
  }

  /** The run that the promise of a `flush()` stands for is queued, running or settled ever after. */
  lemma FlushIsRun(s: State, events: seq<Event>)
    requires Accounted(s)
    ensures var t := Run(Step(s, Flush), events); Ticket(s) < t.started + t.unstarted
  {
    StepAccounted(s, Flush);
    RunRuns(Step(s, Flush), events);
  }

  // ----- a queued flush gets everything out -----

  /** The running flush ends well, then the queued one. */
  function Finish(day: Day): seq<Event> {
    [Choose(day, true), Append(true), Begin, Choose(day, true), Append(true)]
  }

  /** From wherever it is suspended the flush in progress stores its batch. */
  lemma FlushEnds(s: State, day: Day)
    ensures var t := FlushBatch(s, day);
            && t.phase.Idle? && t.buffer == s.buffer && t.unstarted == s.unstarted
            && t.past == s.past + Tag(Batch(s.phase), Stored)
  {
    assert Tag([], Stored) == [] && s.past + [] == s.past;
  }

  lemma FinishRuns(s: State, day: Day)
    ensures Run(s, Finish(day)) == FlushBatch(BeginRun(FlushBatch(s, day)), day)
  {
    RunFive(s, Choose(day, true), Append(true), Begin, Choose(day, true), Append(true));
  }

  /** After a flush request, what is in the batch and in the buffer is stored, in that order, if nothing fails. */
  lemma FlushStores(s: State, day: Day)
    requires Accounted(s)
    ensures var t := Run(Step(s, Flush), Finish(day));
            && t.phase.Idle? && t.unstarted == 0 && t.buffer == []
            && OfFate(t.past, Stored) == OfFate(s.past, Stored) + Batch(s.phase) + s.buffer
  {
    var r := Request(s);
    FinishRuns(r, day);
    RequestStores(r, day);
  }

  lemma RequestStores(r: State, day: Day)
    requires r.unstarted == 1
    ensures var t := FlushBatch(BeginRun(FlushBatch(r, day)), day);
            && t.phase.Idle? && t.unstarted == 0 && t.buffer == []
            && OfFate(t.past, Stored) == OfFate(r.past, Stored) + Batch(r.phase) + r.buffer
  {
    var u := FlushBatch(r, day);
    var b := BeginRun(u);
    FlushEnds(r, day);
    StoredAfter(r.past, Batch(r.phase), Stored);
    BeginTakes(u);
    FlushEnds(b, day);
    StoredAfter(b.past, Batch(b.phase), Stored);
  }

  /** A queued run starts once nothing is in progress, and takes the whole buffer. */
  lemma BeginTakes(u: State)
    requires u.phase.Idle? && u.unstarted == 1
    ensures var b := BeginRun(u);
            Batch(b.phase) == u.buffer && b.buffer == [] && b.unstarted == 0 && OfFate(b.past, Stored) == OfFate(u.past, Stored)
  {
    StoredAfter(u.past, u.lost, Dropped);
  }

  /** A disposal requests such a flush: everything the sink still holds can reach the disk. */
  lemma DisposalStores(s: State, day: Day)
    requires Accounted(s) && !s.disposed
    ensures var t := Run(Step(s, Dispose), Finish(day));
            && t.disposed && t.phase.Idle? && t.unstarted == 0 && t.buffer == []
            && OfFate(t.past, Stored) == OfFate(s.past, Stored) + Batch(s.phase) + s.buffer
  {
    var r := Step(s, Dispose);
    FinishRuns(r, day);
    RequestStores(r, day);
    RunDisposed(r, Finish(day));
  }

  /** Disposing again does nothing, a later write neither. */
  lemma DisposedOnce(s: State, line: TextLine)
    requires s.disposed
    ensures Step(s, Dispose) == s && Step(s, Write(line)) == s
  {
  }

  /** Nothing is left behind: disposed, and either a run is queued or the buffer is empty. */
  predicate LeavesNothing(s: State) {
    s.disposed && (s.unstarted > 0 || s.buffer == [])
  }

  lemma {:induction false} RunDisposed(s: State, events: seq<Event>)
    requires LeavesNothing(s)
    ensures LeavesNothing(Run(s, events))
    decreases |events|
  {
    if events != [] { RunDisposed(Step(s, events[0]), events[1..]); }
  }

  /** Whatever happens after a disposal, once the queued runs are used up nothing is left unflushed. */
  lemma DisposalFlushesAll(s: State, events: seq<Event>)
    requires Accounted(s) && !s.disposed
    ensures var t := Run(Step(s, Dispose), events);
            && t.disposed && t.accepted == s.accepted
            && (t.unstarted == 0 ==> t.buffer == [])
  {
    RunDisposed(Step(s, Dispose), events);
    AcceptedExactly(Step(s, Dispose), events);
    assert s.accepted + [] == s.accepted;
  }

  /** Every accepted line has settled one way or another. */
  predicate AllSettled(s: State) {
    s.buffer == [] && s.phase.Idle? && s.unstarted == 0
  }

  lemma {:induction false} OnlyStored(past: seq<(TextLine, Fate)>)
    requires Count(past, Dropped) == 0 && Count(past, Discarded) == 0
    ensures OfFate(past, Stored) == Lines(past)
  {
    if past != [] {
      OnlyStored(past[1..]);
      assert Lines(past) == [past[0].0] + Lines(past[1..]);
    }
  }

  /**
   * From the first write to the last flush: a sink that is disposed after `events` and whose
   * queued runs are used up after `more` has stored every line ever written to it, in order,
   * if and only if no write met a full buffer and no flush failed.
   */
  lemma ShutdownStoresAllExactly(s: State, events: seq<Event>, more: seq<Event>)
    requires Accounted(s) && s.accepted == [] && !s.disposed && Gone(s) == 0
    requires AllSettled(Run(s, events + [Dispose] + more))
    ensures OfFate(Run(s, events + [Dispose] + more).past, Stored) == Writes(events + [Dispose] + more)
       <==> Undisturbed(s, events + [Dispose] + more)
  {
    var all := events + [Dispose] + more;
    RunAccounted(s, all);
    AcceptedExactly(s, all);
    LosesNothingExactly(s, all);
    StoresAllExactly(Run(s, all));
    assert s.accepted + Writes(all) == Writes(all);
  }

  lemma StoresAllExactly(t: State)
    requires Accounted(t) && AllSettled(t)
    ensures OfFate(t.past, Stored) == t.accepted <==> Gone(t) == 0
  {
    assert t.accepted == Lines(t.past) + t.lost;
    FatesPartition(t.past);
    if Gone(t) == 0 { OnlyStored(t.past); }
  }

  // ----- when a file is rolled over -----

  /**
   * A new file of the day is the next segment, and it is begun because the last one has no
   * room for the batch; the first file of a day is segment 0.
   */
  predicate Justified(max: nat, before: seq<SessionFile>, key: Key, payload: nat) {
    if before != [] && before[|before| - 1].key.day == key.day then
      && key.segment == before[|before| - 1].key.segment + 1
      && Bytes(before[|before| - 1].lines) + payload > max
    else key.segment == 0
  }

  /** File `i` was begun for that reason. */
  predicate JustifiedAt(max: nat, headerBytes: nat, layout: seq<SessionFile>, i: nat)
    requires i < |layout|
  {
    && layout[i].first >= headerBytes
    && Justified(max, layout[..i], layout[i].key, layout[i].first - headerBytes)
  }

  /** Every file from number `base` on was. */
  predicate AllJustified(s: State, base: nat) {
    forall i :: base <= i < |s.layout| ==> JustifiedAt(s.config.maxFileBytes, Bytes([s.header]), s.layout, i)
  }

  predicate TargetJustified(s: State) {
    s.phase.Appending? && s.phase.target.size == 0 ==>
      Justified(s.config.maxFileBytes, s.layout, s.phase.target.key, Bytes(s.phase.batch))
  }

  lemma ChooseJustified(s: State, day: Day)
    requires Filed(s) && s.phase.Starting? && ClockOk(s, day) && NotRolledOver(s, day)
    ensures TargetJustified(ChooseFile(s, day, true))
  {
    var seeded := Seeded(s, day);
    SeededLast(s, day, seeded);
    NextJustified(s, day, seeded);
  }

  /** The seeded file is the last one, or the day has none yet and it is segment 0. */
  lemma SeededLast(s: State, day: Day, seeded: CurrentFile)
    requires Filed(s) && ClockOk(s, day) && NotRolledOver(s, day) && seeded == Seeded(s, day)
    ensures seeded.key.day == day
    ensures if seeded.size > 0 then AtEnd(s.layout, seeded)
            else seeded.key.segment == 0 && (s.layout != [] ==> s.layout[|s.layout| - 1].key.day != day)
  {
    var key := Key(day, 0);
    if s.current.Some? && s.current.value.key.day == day {
      assert AtEnd(s.layout, s.current.value);
    } else if key in s.disk {
      SeedPresent(s, key);
    } else {
      NoFileOfDay(s, day);
    }
  }

  lemma NextJustified(s: State, day: Day, seeded: CurrentFile)
    requires s.phase.Starting? && seeded == Seeded(s, day) && seeded.key.day == day
    requires if seeded.size > 0 then AtEnd(s.layout, seeded)
             else seeded.key.segment == 0 && (s.layout != [] ==> s.layout[|s.layout| - 1].key.day != day)
    ensures TargetJustified(ChooseFile(s, day, true))
  {
  }

  lemma NoFileOfDay(s: State, day: Day)
    requires Filed(s) && ClockOk(s, day) && NotRolledOver(s, day) && Key(day, 0) !in s.disk
    requires s.current.Some? ==> s.current.value.key.day != day
    ensures s.layout != [] ==> s.layout[|s.layout| - 1].key.day != day
  {
    if s.layout != [] && s.current.None? { assert s.layout[|s.layout| - 1] in s.layout; }
  }

  lemma AppendJustified(s: State, base: nat)
    requires Filed(s) && s.phase.Appending? && s.phase.batch != [] && base <= |s.layout|
    requires AllJustified(s, base) && TargetJustified(s)
    ensures AllJustified(FinishAppend(s, true), base)
  {
    var t, target := FinishAppend(s, true), s.phase.target;
    BytesAppend([s.header], s.phase.batch);
    if target.size == 0 {
      NewestJustified(s, t, base);
    } else {
      LongestJustified(s, t, base);
    }
  }

  lemma NewestJustified(s: State, t: State, base: nat)
    requires s.phase.Appending? && s.phase.target.size == 0 && base <= |s.layout|
    requires AllJustified(s, base) && TargetJustified(s) && t.config == s.config && t.header == s.header
    requires Bytes([s.header] + s.phase.batch) == Bytes([s.header]) + Bytes(s.phase.batch)
    requires t.layout == Extend(s.layout, s.phase.target, Data(s.header, s.phase.batch, s.phase.target))
    ensures AllJustified(t, base)
  {
    var n := |s.layout|;
    var written := t.layout[n];
    assert t.layout == s.layout + [written] && written.key == s.phase.target.key;
    assert t.layout[..n] == s.layout;
    forall i | base <= i < n ensures JustifiedAt(s.config.maxFileBytes, Bytes([s.header]), t.layout, i) {
      assert JustifiedAt(s.config.maxFileBytes, Bytes([s.header]), s.layout, i);
      SamePrefix(s.layout, [written], [], i);
    }
  }

  lemma SamePrefix(front: seq<SessionFile>, a: seq<SessionFile>, b: seq<SessionFile>, i: nat)
    requires i <= |front|
    ensures (front + a)[..i] == (front + b)[..i] && front + [] == front
  {
  }

  lemma LongestJustified(s: State, t: State, base: nat)
    requires s.phase.Appending? && AtEnd(s.layout, s.phase.target) && s.phase.target.size > 0
    requires AllJustified(s, base) && t.config == s.config && t.header == s.header
    requires t.layout == Extend(s.layout, s.phase.target, Data(s.header, s.phase.batch, s.phase.target))
    ensures AllJustified(t, base)
  {
    var n := |s.layout| - 1;
    var front, last, longer := s.layout[..n], s.layout[n], t.layout[n];
    assert s.layout == front + [last] && t.layout == front + [longer];
    assert longer.key == last.key && longer.first == last.first;
    forall i | base <= i < n + 1 ensures JustifiedAt(s.config.maxFileBytes, Bytes([s.header]), t.layout, i) {
      assert JustifiedAt(s.config.maxFileBytes, Bytes([s.header]), s.layout, i);
      SamePrefix(front, [last], [longer], i);
    }
  }

  predicate RolledSoFar(s: State, base: nat) {
    base <= |s.layout| && AllJustified(s, base) && TargetJustified(s)
  }

  lemma StepJustified(s: State, e: Event, base: nat)
    requires Filed(s) && BatchNonEmpty(s) && StepOk(s, e) && KeepsLimit(s, e) && RolledSoFar(s, base)
    ensures RolledSoFar(Step(s, e), base) && Step(s, e).config.maxFileBytes == s.config.maxFileBytes
  {
    match e
    case Append(ok) => if ok && s.phase.Appending? { AppendJustified(s, base); }
    case Choose(day, ok) => ChooseRolled(s, day, ok, base);
    case _ => LayoutStays(s, e);
  }

  lemma ChooseRolled(s: State, day: Day, ok: bool, base: nat)
    requires Filed(s) && StepOk(s, Choose(day, ok)) && RolledSoFar(s, base)
    ensures RolledSoFar(ChooseFile(s, day, ok), base) && ChooseFile(s, day, ok).config == s.config
  {
    if s.phase.Starting? && ok { ChooseJustified(s, day); }
  }

  /**
   * Over every orderly run with a fixed limit: the files a sink begins are segment 0 of a new
   * day or the next segment of the day, and the next segment only if the batch it begins with
   * would have taken the file before it over the limit.
   */
  lemma {:induction false} RolledOverOnlyWhenFull(s: State, events: seq<Event>, base: nat)
    requires Filed(s) && BatchNonEmpty(s) && Orderly(s, events) && RolledSoFar(s, base)
    requires forall i :: 0 <= i < |events| && events[i].Configure? ==> events[i].config.maxFileBytes == s.config.maxFileBytes
    ensures AllJustified(Run(s, events), base) && Run(s, events).config.maxFileBytes == s.config.maxFileBytes
    decreases |events|
  {
    if events != [] {
      StepFiled(s, events[0]);
      StepJustified(s, events[0], base);
      RolledOverOnlyWhenFull(Step(s, events[0]), events[1..], base);
    }
  }
}
