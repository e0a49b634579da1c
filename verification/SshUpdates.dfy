/**
 * What a host gets from an SSH config whose block of a deployment has been replaced in place:
 * the update of src/remote/sshConfig.ts read back by src/remote/sshSupport.ts.
 */
module SshUpdates {
  import opened Basics
  import opened Text
  import opened Substrings
  import opened SshMerge
  import opened SshBlocks
  import opened SshConfigs
  import opened SshProperties

  /** The block between `p` and `s` shares no line with them. */
  predicate OwnLines(p: string, s: string) {
    (p != "" ==> p[|p| - 1] == '\n') && (s != "" ==> s[0] == '\n')
  }

  /** The value that `key` is given last before the first Host line. */
  function Loose(lines: seq<string>, key: string): Option<string> {
    if lines == [] then None
    else
      var line := Trim(lines[0]);
      if line == "" || "#" <= KeyOf(line) then Loose(lines[1..], key)
      else if KeyOf(line) == "Host" then None
      else
        var later := Loose(lines[1..], key);
        if later.Some? then later
        else if KeyOf(line) == key then Some(ValueIn(line))
        else None
  }

  // ----- reading on after other blocks -----

  function Prefixed(a: seq<HostConfig>, r: Reading): Reading {
    r.(configs := a + r.configs)
  }

  lemma LinePrefixed(a: seq<HostConfig>, r: Reading, rawLine: string)
    ensures ReadLine(Prefixed(a, r), rawLine) == Prefixed(a, ReadLine(r, rawLine))
  {
    if r.current.Some? { ConcatAssoc(a, r.configs, [r.current.value]); }
  }

  /** What was read before stays in front and decides nothing. */
  lemma {:induction false} ReadPrefixed(a: seq<HostConfig>, r: Reading, lines: seq<string>)
    ensures ReadAll(Prefixed(a, r), lines) == Prefixed(a, ReadAll(r, lines))
    decreases |lines|
  {
    if lines != [] {
      LinePrefixed(a, r, lines[0]);
      ReadPrefixed(a, ReadLine(r, lines[0]), lines[1..]);
    }
  }

  lemma FinishedPrefixed(a: seq<HostConfig>, r: Reading)
    ensures Finished(Prefixed(a, r)) == a + Finished(r)
  {
    if r.current.Some? { ConcatAssoc(a, r.configs, [r.current.value]); }
  }

  function ReadFrom(current: Option<HostConfig>, lines: seq<string>): seq<HostConfig> {
    Finished(ReadAll(Reading([], current), lines))
  }

  lemma ReadFromCons(current: Option<HostConfig>, line: string, rest: seq<string>)
    ensures ReadFrom(current, [line] + rest) == Finished(ReadAll(ReadLine(Reading([], current), line), rest))
  {
    assert ([line] + rest)[1..] == rest;
  }

  /** Options before the first Host line belong to the block that is open; the rest is read as ever. */
  lemma {:induction false} LooseReads(c: HostConfig, lines: seq<string>, key: string) returns (own: HostConfig)
    ensures ReadFrom(Some(c), lines) == [own] + ReadFrom(None, lines) && own.host == c.host
    ensures Get(own.properties, key) == if Loose(lines, key).Some? then Loose(lines, key) else Get(c.properties, key)
    decreases |lines|
  {
    own := c;
    if lines != [] {
      var line, rest := Trim(lines[0]), lines[1..];
      assert lines == [lines[0]] + rest;
      ReadFromCons(Some(c), lines[0], rest);
      ReadFromCons(None, lines[0], rest);
      if line == "" || "#" <= KeyOf(line) {
        own := LooseReads(c, rest, key);
      } else if KeyOf(line) == "Host" {
        HostOpens(c, lines[0], rest);
      } else {
        PutGets(c.properties, KeyOf(line), ValueIn(line), key);
        own := LooseReads(c.(properties := Put(c.properties, KeyOf(line), ValueIn(line))), rest, key);
      }
    }
  }

  lemma HostOpens(c: HostConfig, rawLine: string, rest: seq<string>)
    requires Trim(rawLine) != "" && KeyOf(Trim(rawLine)) == "Host"
    ensures ReadFrom(Some(c), [rawLine] + rest) == [c] + ReadFrom(None, [rawLine] + rest)
  {
    var next := Reading([], Some(HostConfig(ValueIn(Trim(rawLine)), [])));
    ReadFromCons(Some(c), rawLine, rest);
    ReadFromCons(None, rawLine, rest);
    HostLine(c, rawLine, next);
    ReadPrefixed([c], next, rest);
    FinishedPrefixed([c], ReadAll(next, rest));
  }

  lemma HostLine(c: HostConfig, rawLine: string, next: Reading)
    requires Trim(rawLine) != "" && KeyOf(Trim(rawLine)) == "Host"
    requires next == Reading([], Some(HostConfig(ValueIn(Trim(rawLine)), [])))
    ensures ReadLine(Reading([], Some(c)), rawLine) == Prefixed([c], next)
    ensures ReadLine(Reading([], None), rawLine) == next
  {
  }

  // ----- the text around a block -----

  lemma ReadBefore(r: Reading, p: string, rest: string)
    requires p != "" ==> p[|p| - 1] == '\n'
    ensures ReadAll(r, Split(p + rest, "\n")) == ReadAll(ReadAll(r, Split(p, "\n")), Split(rest, "\n"))
  {
    if p == "" {
      SplitLackingChar("", '\n');
      ReadOneLine(r, "");
      assert p + rest == rest;
    } else {
      var front := p[..|p| - 1];
      assert p == front + ['\n'] && p + rest == front + "\n" + rest;
      SplitLines(front, rest);
      SplitEnding(front);
      ReadAppend(r, Split(front, "\n"), Split(rest, "\n"));
      ReadSnoc(r, Split(front, "\n"), "");
    }
  }

  lemma ReadAfter(r: Reading, block: string, s: string)
    requires s != "" ==> s[0] == '\n'
    ensures ReadAll(r, Split(block + s, "\n")) == ReadAll(ReadAll(r, Split(block, "\n")), Split(s, "\n"))
  {
    var t := ReadAll(r, Split(block, "\n"));
    if s == "" {
      SplitLackingChar("", '\n');
      ReadOneLine(t, "");
      assert block + s == block;
    } else {
      var tail := s[1..];
      assert s == "" + ['\n'] + tail && block + s == block + "\n" + tail;
      SplitLines(block, tail);
      SplitAtChar("", '\n', tail);
      ReadAppend(r, Split(block, "\n"), Split(tail, "\n"));
      ReadAppend(t, [""], Split(tail, "\n"));
      ReadOneLine(t, "");
    }
  }

  predicate Writable(h: string, values: SshValues, overrides: Record) {
    SafeHost(h) && PrintableValue(values.host) && Printable(Merge(values.others, overrides))
  }

  /** What the block gives: options the user put below it, else the merged value if it is not empty. */
  function BlockValue(values: SshValues, overrides: Record, s: string, key: string): Option<string> {
    var loose := Loose(Split(s, "\n"), key);
    if loose.Some? then loose else NonEmpty(Get(Merge(values.others, overrides), key))
  }

  /** The Host blocks of the text before, the written one, and those of the text after. */
  lemma ReplacedConfigs(p: string, h: string, values: SshValues, overrides: Record, s: string, key: string)
    returns (own: HostConfig)
    requires Writable(h, values, overrides) && OwnLines(p, s)
    ensures HostConfigs(p + BuildBlock(h, values, overrides) + s) == HostConfigs(p) + ([own] + HostConfigs(s))
    ensures own.host == values.host && Get(own.properties, key) == BlockValue(values, overrides, s, key)
  {
    var block, start := BuildBlock(h, values, overrides), Reading([], None);
    var before, c := ReadAll(start, Split(p, "\n")), BlockConfig(values, overrides);
    ConcatAssoc(p, block, s);
    ReadBefore(start, p, block + s);
    ReadAfter(before, block, s);
    BuiltBlockReads(before, h, values, overrides);
    assert Reading(Finished(before), Some(c)) == Prefixed(Finished(before), Reading([], Some(c)));
    ReadPrefixed(Finished(before), Reading([], Some(c)), Split(s, "\n"));
    FinishedPrefixed(Finished(before), ReadAll(Reading([], Some(c)), Split(s, "\n")));
    PropertiesGet(Merge(values.others, overrides), key);
    own := LooseReads(c, Split(s, "\n"), key);
  }

  /** The value a host gets from three parts, the earliest that defines it deciding. */
  lemma ThreeParts(a: seq<HostConfig>, own: HostConfig, b: seq<HostConfig>, host: string, key: string)
    ensures var earlier, value := FirstDefining(a, host, key), Get(own.properties, key);
            FirstDefining(a + ([own] + b), host, key)
            == if earlier.Some? then earlier
               else if Matches(own.host, host) && value.Some? then value
               else FirstDefining(b, host, key)
  {
    FirstDefiningAppend(a, [own] + b, host, key);
    assert ([own] + b)[1..] == b;
  }

  /**
   * What a later update does to a host, the block being replaced where it stands: earlier
   * matching blocks of the user's go first, then the new block, with the options the user has
   * put between it and the next Host line, then the later blocks.
   */
  lemma ReplacedBlockApplies(raw: string, h: string, values: SshValues, overrides: Record, host: string, key: string)
    requires Writable(h, values, overrides) && Plain(BuildBlock(h, values, overrides))
    requires GetBlock(raw, h).Ok? && GetBlock(raw, h).value.Some?
    requires OwnLines(Placement(raw, h).0, Placement(raw, h).1)
    ensures Update(raw, h, BuildBlock(h, values, overrides)).Ok?
    ensures var updated := Update(raw, h, BuildBlock(h, values, overrides)).value;
            var (p, s) := Placement(raw, h);
            var earlier := FirstDefining(HostConfigs(p), host, key);
            var own := BlockValue(values, overrides, s, key);
            Get(Effective(HostConfigs(updated), host), key)
            == if earlier.Some? then earlier
               else if Matches(values.host, host) && own.Some? then own
               else FirstDefining(HostConfigs(s), host, key)
  {
    var block := BuildBlock(h, values, overrides);
    var (p, s) := Placement(raw, h);
    UpdateRewrites(raw, h, block);
    var own := ReplacedConfigs(p, h, values, overrides, s, key);
    EarliestBlockWins(host, p + block + s, key);
    ThreeParts(HostConfigs(p), own, HostConfigs(s), host, key);
  }

  /** An appended block comes after exactly one blank line, and white space at the end of the text goes. */
  lemma AppendLines(raw: string, block: string)
    ensures Split(Append(raw, block), "\n")
         == if raw == "" then Split(block, "\n") else Split(TrimEnd(raw), "\n") + [""] + Split(block, "\n")
  {
    if raw != "" {
      var front := TrimEnd(raw) + "\n";
      assert Append(raw, block) == front + "\n" + block;
      SplitLines(front, block);
      assert front == TrimEnd(raw) + ['\n'];
      SplitEnding(TrimEnd(raw));
    }
  }

  // ----- the extension's own blocks stand on lines of their own -----

  lemma StaysAt(p: string, st: string, body: string, en: string, s: string)
    requires IsPair(st, en) && Lacks(p, st, en) && Lacks(s, st, en) && Lacks(body, st, en)
    ensures BlockBetween(p + Block(st, body, en) + s, st, en) == Ok(Some(Block(st, body, en)))
    ensures Around(p + Block(st, body, en) + s, st, en) == (p, s)
  {
    var raw, block := p + Block(st, body, en) + s, Block(st, body, en);
    BlockFoundExactly(p, st, body, en, s);
    AroundBlock(raw, st, en);
    BlockSits(p, st, body, en, s);
    FoundOnce(raw, st, en, block);
    OnlyMarker(raw, st);
    Outside(p, block, s);
  }

  lemma Outside(p: string, b: string, s: string)
    ensures (p + b + s)[..|p|] == p && (p + b + s)[|p| + |b|..] == s
  {
  }

  /**
   * An update leaves its block on lines of its own, whether it appended it or replaced one that
   * stood so, and at the same place: the next update finds it there.
   */
  lemma OwnLinesStay(raw: string, h: string, body: string)
    requires SafeHost(h) && GetBlock(raw, h).Ok? && Verbatim(raw, h, Block(Start(h), body, End(h)))
    requires Lacks(body, Start(h), End(h))
    requires GetBlock(raw, h).value.Some? ==> OwnLines(Placement(raw, h).0, Placement(raw, h).1)
    ensures var block := Block(Start(h), body, End(h)); var updated := Update(raw, h, block).value;
            && GetBlock(updated, h) == Ok(Some(block))
            && Placement(updated, h) == Placement(raw, h)
            && OwnLines(Placement(updated, h).0, Placement(updated, h).1)
  {
    var (p, s) := Placement(raw, h);
    ArePair(h);
    UpdateRewrites(raw, h, Block(Start(h), body, End(h)));
    PlacementLacks(raw, h);
    StaysAt(p, Start(h), body, End(h), s);
  }
}
