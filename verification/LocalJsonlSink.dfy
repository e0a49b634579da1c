/**
 * The sink object (src/telemetry/sinks/localJsonlSink.ts), one method per stretch of code
 * between two awaits. Each method moves `model`, the protocol state, by the step of the same
 * name, and `Valid` keeps the object's own fields and the directory equal to it.
 */
module LocalJsonlSinks {
  import opened Basics
  import opened TelemetryFiles
  import opened SinkProtocol

  /** The telemetry directory: file names to lines. Several sessions share it. */
  class Directory {
    var files: map<string, seq<TextLine>>

    constructor ()
      ensures files == map[]
    {
      files := map[];
    }

    /** `fs.appendFile`: creates the file when it is missing. */
    method AppendFile(name: string, data: seq<TextLine>)
      modifies this
      ensures files == old(files)[name := (if name in old(files) then old(files)[name] else []) + data]
    {
      files := files[name := (if name in files then files[name] else []) + data];
    }
  }

  /** The session's part of the directory is what the protocol calls its disk. */
  ghost predicate Holds(name: Key -> string, files: map<string, seq<TextLine>>, disk: map<Key, seq<TextLine>>) {
    && (forall key: Key :: key in disk ==> name(key) in files && files[name(key)] == disk[key])
    && (forall key: Key :: name(key) in files ==> key in disk)
  }

  ghost predicate OthersUnchanged(path: string, before: map<string, seq<TextLine>>, after: map<string, seq<TextLine>>) {
    forall name :: name in before && name != path ==> name in after && after[name] == before[name]
  }

  ghost predicate Injective(name: Key -> string) {
    forall a: Key, b: Key :: name(a) == name(b) ==> a == b
  }

  /** Appending to one file of the session changes that key and no other. */
  lemma HoldsAfterAppend(name: Key -> string, files: map<string, seq<TextLine>>, disk: map<Key, seq<TextLine>>,
                         key: Key, data: seq<TextLine>)
    requires Injective(name) && Holds(name, files, disk)
    ensures Holds(name, files[name(key) := (if name(key) in files then files[name(key)] else []) + data],
                  disk[key := FileLines(disk, key) + data])
  {
    assert key in disk <==> name(key) in files;
  }

  function FileName(slug: string): Key -> string {
    key => Path(slug, key)
  }

  lemma FileNamesDiffer(slug: string)
    requires IsSlug(slug)
    ensures Injective(FileName(slug))
  {
    forall a: Key, b: Key | FileName(slug)(a) == FileName(slug)(b) ensures a == b {
      PathInjective(slug, a, b);
    }
  }

  class LocalJsonlSink {
    const directory: Directory
    const sessionSlug: string
    const fileName: Key -> string
    const headerLine: TextLine
    var config: Config
    var buffer: seq<TextLine>
    var current: Option<CurrentFile>
    var hasQueued: bool
    var flushChain: nat        // runs appended to the promise chain and not started
    var running: Phase         // the run in progress, at the await it is suspended on
    var disposed: bool
    ghost var model: State

    ghost predicate Valid()
      reads this, directory
    {
      Mirrors() && Holds(fileName, directory.files, model.disk)
    }

    /** The fields are the protocol's state, the disk apart. */
    ghost predicate Mirrors()
      reads this
    {
      && fileName == FileName(sessionSlug) && IsSlug(sessionSlug)
      && headerLine == model.header && config == model.config && buffer == model.buffer
      && current == model.current && hasQueued == model.hasQueued && flushChain == model.unstarted
      && running == model.phase && disposed == model.disposed
    }

    /** A fresh activation over the session's files, which `layout` lists. */
    constructor (directory: Directory, sessionId: string, headerLine: TextLine, config: Config,
                 ghost disk: map<Key, seq<TextLine>>, ghost layout: seq<SessionFile>)
      requires Holds(FileName(ToSessionSlug(sessionId)), directory.files, disk)
      ensures Valid() && this.directory == directory && sessionSlug == ToSessionSlug(sessionId)
      ensures model == State(headerLine, config, [], None, Idle, false, 0, false, disk,
                             [], [], [], 0, 0, AllRows(layout), layout)
    {
      SlugFitsFileName(sessionId);
      this.fileName := FileName(ToSessionSlug(sessionId));
      this.directory := directory;
      this.sessionSlug := ToSessionSlug(sessionId);
      this.headerLine := headerLine;
      this.config := config;
      buffer, current, running := [], None, Idle;
      hasQueued, flushChain, disposed := false, 0, false;
      model := State(headerLine, config, [], None, Idle, false, 0, false, disk,
                     [], [], [], 0, 0, AllRows(layout), layout);
    }

    /** `line` is `None` when the event could not be serialized. */
    method Write(line: Option<TextLine>)
      requires Valid()
      modifies this
      ensures Valid()
      ensures model == if line.Some? then WriteLine(old(model), line.value) else old(model)
      ensures line.Some? && !old(disposed) ==> |buffer| <= config.bufferLimit
    {
      if disposed || line.None? { return; }
      model := WriteLine(model, line.value);
      buffer := buffer + [line.value];
      EnforceBufferLimit();
      if |buffer| >= config.flushBatchSize {
        Enqueue();
      }
    }

    method EnforceBufferLimit()
      modifies this`buffer
      ensures if |old(buffer)| <= config.bufferLimit then buffer == old(buffer)
              else buffer == old(buffer)[|old(buffer)| - config.bufferLimit..]
    {
      var overage := |buffer| - config.bufferLimit;
      if overage <= 0 { return; }
      buffer := buffer[overage..];
    }

    /** The part of `flush` that touches the chain. */
    method Enqueue()
      modifies this`hasQueued, this`flushChain
      ensures hasQueued
      ensures flushChain == old(flushChain) + if old(hasQueued) then 0 else 1
    {
      if hasQueued { return; }
      hasQueued := true;
      flushChain := flushChain + 1;
    }

    /** Returns the number of the run the caller's promise stands for. */
    method Flush() returns (ghost ticket: nat)
      requires Valid()
      modifies this
      ensures Valid()
      ensures model == Request(old(model)) && ticket == Ticket(old(model))
    {
      ticket := Ticket(model);
      model := Request(model);
      Enqueue();
    }

    /** The chain starts its next run: `run` up to the first await of `#append`. */
    method StartRun()
      requires Valid() && running.Idle? && flushChain > 0
      modifies this
      ensures Valid() && model == BeginRun(old(model))
    {
      model := BeginRun(model);
      hasQueued := false;
      flushChain := flushChain - 1;
      if |buffer| == 0 { return; }
      var lines := buffer;
      buffer := [];
      running := Starting(lines);
    }

    /** `mkdir` has returned: `#nextFile` picks the target, reading the disk for a new day. */
    method ChooseTarget(today: Day, mkdirOk: bool)
      requires Valid() && running.Starting?
      modifies this
      ensures Valid() && model == ChooseFile(old(model), today, mkdirOk)
    {
      model := ChooseFile(model, today, mkdirOk);
      if !mkdirOk {
        running := Idle;
        return;
      }
      var payload := Bytes(running.batch);
      var seeded: CurrentFile;
      if current.Some? && current.value.key.day == today {
        seeded := current.value;
      } else {
        seeded := SeedFromDisk(today);
      }
      var target := seeded;
      if seeded.size > 0 && seeded.size + payload > config.maxFileBytes {
        target := CurrentFile(Key(today, seeded.key.segment + 1), 0);
      }
      running := Appending(running.batch, target);
    }

    method SeedFromDisk(today: Day) returns (file: CurrentFile)
      requires Holds(fileName, directory.files, model.disk)
      ensures file == CurrentFile(Key(today, 0), Bytes(FileLines(model.disk, Key(today, 0))))
    {
      var name := fileName(Key(today, 0));
      var size := if name in directory.files then Bytes(directory.files[name]) else 0;
      file := CurrentFile(Key(today, 0), size);
    }

    /** `appendFile` rejected, having written nothing: the batch is discarded. */
    method AppendFailed()
      requires Valid() && running.Appending?
      modifies this
      ensures Valid() && model == FinishAppend(old(model), false)
    {
      model := FinishAppend(model, false);
      running := Idle;
    }

    /** `appendFile` runs and resolves; no other file of the directory changes. */
    method AppendSucceeds()
      requires Valid() && running.Appending?
      modifies this, directory
      ensures Valid() && model == FinishAppend(old(model), true)
      ensures OthersUnchanged(fileName(old(running).target.key), old(directory.files), directory.files)
    {
      var lines, next := running.batch, running.target;
      ghost var after := FinishAppend(model, true);
      assert after.disk == model.disk[next.key := FileLines(model.disk, next.key) + Data(headerLine, lines, next)];
      AppendToFile(lines, next);
      RecordAppend(lines, next, after);
    }

    method RecordAppend(lines: seq<TextLine>, next: CurrentFile, ghost after: State)
      requires Mirrors() && running == Appending(lines, next) && after == FinishAppend(model, true)
      modifies this
      ensures Mirrors() && model == after
    {
      model := after;
      running := Idle;
      current := Some(CurrentFile(next.key, next.size + DataBytes(headerLine, lines, next)));
    }

    lemma AppendHolds(next: CurrentFile, data: seq<TextLine>)
      requires Valid()
      ensures var name := fileName(next.key);
              Holds(fileName, directory.files[name := (if name in directory.files then directory.files[name] else []) + data],
                    model.disk[next.key := FileLines(model.disk, next.key) + data])
    {
      FileNamesDiffer(sessionSlug);
      HoldsAfterAppend(fileName, directory.files, model.disk, next.key, data);
    }

    /** The append itself: the header goes in the same write as a file's first batch. */
    method AppendToFile(lines: seq<TextLine>, next: CurrentFile)
      requires Valid()
      modifies directory
      ensures Holds(fileName, directory.files,
                    model.disk[next.key := FileLines(model.disk, next.key) + Data(headerLine, lines, next)])
      ensures OthersUnchanged(fileName(next.key), old(directory.files), directory.files)
    {
      var withHeader := next.size == 0;
      var data := (if withHeader then [headerLine] else []) + lines;
      AppendHolds(next, data);
      directory.AppendFile(fileName(next.key), data);
    }

    method Configure(next: Config)
      requires Valid()
      modifies this
      ensures Valid() && model == old(model).(config := next)
    {
      model := model.(config := next);
      config := next;
    }

    method Dispose()
      requires Valid()
      modifies this
      ensures Valid() && model == DisposeStep(old(model))
    {
      model := DisposeStep(model);
      if disposed { return; }
      disposed := true;
      Enqueue();
    }
  }
}
