/**
 * The effective properties of a host under an SSH config (src/remote/sshSupport.ts), and the
 * round trip with the block the extension writes. Host patterns are read with `*`, `?` and
 * literal characters; other regular-expression metacharacters are not part of this model.
 */
module SshProperties {
  import opened Basics
  import opened Text
  import opened SshMerge
  import opened SshBlocks
  import opened SshConfigs

  // ----- one line -----

  predicate Separates(c: char) {
    c == '=' || IsSpace(c)
  }

  function WordLength(s: string): (n: nat)
    ensures n <= |s| && forall i :: 0 <= i < n ==> !Separates(s[i])
    ensures n < |s| ==> Separates(s[n])
  {
    if s == "" || Separates(s[0]) then 0 else 1 + WordLength(s[1..])
  }

  function SpaceLength(s: string): (n: nat)
    ensures n <= |s| && forall i :: 0 <= i < n ==> IsSpace(s[i])
    ensures n < |s| ==> !IsSpace(s[n])
  {
    if s == "" || !IsSpace(s[0]) then 0 else 1 + SpaceLength(s[1..])
  }

  /** The length of the separator at the start of `s`: a run of white space, or one `=`. */
  function SeparatorLength(s: string): (n: nat)
    requires s != "" && Separates(s[0])
    ensures 1 <= n <= |s|
  {
    if s[0] == '=' then 1 else SpaceLength(s)
  }

  /** `line.split(/(\s+|=)/)`: words and, between them, the separators. */
  function Pieces(line: string): (pieces: seq<string>)
    ensures |pieces| == 1 || |pieces| >= 3
    decreases |line|
  {
    var n := WordLength(line);
    if n == |line| then [line]
    else
      var m := SeparatorLength(line[n..]);
      [line[..n], line[n..n + m]] + Pieces(line[n + m..])
  }

  /** Nothing is lost: the words and separators make up the line. */
  lemma {:induction false} PiecesMakeUp(line: string)
    ensures Flatten(Pieces(line)) == line
    decreases |line|
  {
    var n := WordLength(line);
    if n == |line| {
      assert Flatten([line]) == line + Flatten<char>([]);
    } else {
      var m := SeparatorLength(line[n..]);
      PiecesMakeUp(line[n + m..]);
      FlattenAppend([line[..n], line[n..n + m]], Pieces(line[n + m..]));
      FlattenTwo(line[..n], line[n..n + m]);
      CutTwice(line, n, n + m);
    }
  }

  lemma FlattenTwo(a: string, b: string)
    ensures Flatten([a, b]) == a + b
  {
    assert [a, b][1..] == [b] && Flatten([b]) == b + Flatten<char>([]);
  }

  function KeyOf(line: string): string {
    Pieces(line)[0]
  }

  function ValueIn(line: string): string {
    if |Pieces(line)| < 3 then "" else Flatten(Pieces(line)[2..])
  }

  /** The value is what follows the first separator, whatever it contains. */
  lemma KeyAndValue(key: string, value: string)
    requires key != "" && forall i :: 0 <= i < |key| ==> !Separates(key[i])
    requires value != "" && !IsSpace(value[0])
    ensures KeyOf(key + " " + value) == key && ValueIn(key + " " + value) == value
  {
    var line := key + " " + value;
    WordEnds(key, " " + value);
    assert key + (" " + value) == line;
    assert line[|key|..] == " " + value;
    SpaceEnds(" ", value);
    assert line[|key| + 1..] == value;
    PiecesMakeUp(value);
    assert Pieces(line)[2..] == Pieces(value);
  }

  lemma {:induction false} WordEnds(word: string, rest: string)
    requires forall i :: 0 <= i < |word| ==> !Separates(word[i])
    requires rest != "" && Separates(rest[0])
    ensures WordLength(word + rest) == |word|
  {
    if word == "" {
      assert word + rest == rest;
    } else {
      assert (word + rest)[1..] == word[1..] + rest;
      WordEnds(word[1..], rest);
    }
  }

  lemma {:induction false} SpaceEnds(spaces: string, rest: string)
    requires forall i :: 0 <= i < |spaces| ==> IsSpace(spaces[i])
    requires rest != "" && !IsSpace(rest[0])
    ensures SpaceLength(spaces + rest) == |spaces|
  {
    if spaces == "" {
      assert spaces + rest == rest;
    } else {
      assert (spaces + rest)[1..] == spaces[1..] + rest;
      SpaceEnds(spaces[1..], rest);
    }
  }

  // ----- host patterns -----

  /** What `.` matches: anything but a line terminator. */
  predicate IsDot(c: char) {
    c != '\n' && c != '\r' && c as int != 0x2028 && c as int != 0x2029
  }

  predicate Matches(pattern: string, host: string)
    decreases |pattern| + |host|
  {
    if pattern == "" then host == ""
    else if pattern[0] == '*' then
      Matches(pattern[1..], host) || (host != "" && IsDot(host[0]) && Matches(pattern, host[1..]))
    else if pattern[0] == '?' then host != "" && IsDot(host[0]) && Matches(pattern[1..], host[1..])
    else host != "" && host[0] == pattern[0] && Matches(pattern[1..], host[1..])
  }

  predicate AllDots(s: string) {
    forall i :: 0 <= i < |s| ==> IsDot(s[i])
  }

  lemma {:induction false} StarMatches(host: string)
    ensures Matches("*", host) <==> AllDots(host)
  {
    assert "*"[1..] == "";
    if host != "" { StarMatches(host[1..]); }
  }

  /** A pattern `prefix*`, as the extension writes it, matches exactly the hosts with the prefix. */
  lemma {:induction false} PrefixPattern(prefix: string, host: string)
    requires '*' !in prefix && '?' !in prefix
    ensures Matches(prefix + "*", host) <==> prefix <= host && AllDots(host[|prefix|..])
  {
    if prefix == "" {
      assert prefix + "*" == "*";
      StarMatches(host);
    } else {
      assert (prefix + "*")[1..] == prefix[1..] + "*";
      if host != "" {
        PrefixPattern(prefix[1..], host[1..]);
        assert prefix <= host <==> prefix[0] == host[0] && prefix[1..] <= host[1..];
        if prefix <= host { assert host[1..][|prefix[1..]|..] == host[|prefix|..]; }
      }
    }
  }

  // ----- the Host blocks of a config -----

  datatype HostConfig = HostConfig(host: string, properties: Record)

  datatype Reading = Reading(configs: seq<HostConfig>, current: Option<HostConfig>)

  function ReadLine(r: Reading, rawLine: string): Reading {
    var line := Trim(rawLine);
    if line == "" then r
    else
      var key, value := KeyOf(line), ValueIn(line);
      if "#" <= key then r
      else if key == "Host" then
        Reading(if r.current.Some? then r.configs + [r.current.value] else r.configs, Some(HostConfig(value, [])))
      else if r.current.None? then r
      else r.(current := Some(r.current.value.(properties := Put(r.current.value.properties, key, value))))
  }

  function ReadAll(r: Reading, lines: seq<string>): Reading
    decreases |lines|
  {
    if lines == [] then r else ReadAll(ReadLine(r, lines[0]), lines[1..])
  }

  function Finished(r: Reading): seq<HostConfig> {
    if r.current.Some? then r.configs + [r.current.value] else r.configs
  }

  /** All Host blocks of the text, in order. */
  function HostConfigs(config: string): seq<HostConfig> {
    Finished(ReadAll(Reading([], None), Split(config, "\n")))
  }

  /** `Object.assign(r, more)`. */
  function Assign(r: Record, more: Record): Record
    decreases |more|
  {
    if more == [] then r else Assign(Put(r, more[0].key, more[0].value), more[1..])
  }

  /** Later blocks first, so that earlier ones overwrite. */
  function Effective(configs: seq<HostConfig>, host: string): Record {
    if configs == [] then []
    else
      var later := Effective(configs[1..], host);
      if Matches(configs[0].host, host) then Assign(later, configs[0].properties) else later
  }

  method ComputeSshProperties(host: string, config: string) returns (merged: Record)
    ensures merged == Effective(HostConfigs(config), host)
  {
    var lines := Split(config, "\n");
    var currentConfig: Option<HostConfig> := None;
    var configs: seq<HostConfig> := [];
    for i := 0 to |lines|
      invariant ReadAll(Reading(configs, currentConfig), lines[i..]) == ReadAll(Reading([], None), lines)
    {
      assert lines[i..][1..] == lines[i + 1..];
      configs, currentConfig := ReadOne(configs, currentConfig, lines[i]);
    }
    if currentConfig.Some? {
      configs := configs + [currentConfig.value];
    }
    merged := [];
    for i := |configs| downto 0
      invariant merged == Effective(configs[i..], host)
    {
      assert configs[i..][1..] == configs[i + 1..];
      if Matches(configs[i].host, host) {
        merged := Assign(merged, configs[i].properties);
      }
    }
    assert configs[0..] == configs;
  }

  /** The body of the loop over the lines. */
  method ReadOne(configs: seq<HostConfig>, current: Option<HostConfig>, rawLine: string)
    returns (configs': seq<HostConfig>, current': Option<HostConfig>)
    ensures Reading(configs', current') == ReadLine(Reading(configs, current), rawLine)
  {
    configs', current' := configs, current;
    var line := Trim(rawLine);
    if line == "" { return; }
    var key, value := KeyOf(line), ValueIn(line);
    if "#" <= key { return; }
    if key == "Host" {
      if current.Some? {
        configs' := configs + [current.value];
      }
      current' := Some(HostConfig(value, []));
      return;
    }
    if current.None? { return; }
    current' := Some(current.value.(properties := Put(current.value.properties, key, value)));
  }

  // ----- the earliest matching block wins -----

  function FirstDefining(configs: seq<HostConfig>, host: string, key: string): Option<string> {
    if configs == [] then None
    else if Matches(configs[0].host, host) && Get(configs[0].properties, key).Some? then Get(configs[0].properties, key)
    else FirstDefining(configs[1..], host, key)
  }

  lemma {:induction false} AssignGets(r: Record, more: Record, key: string)
    requires IsRecord(more)
    ensures Get(Assign(r, more), key) == if Get(more, key).Some? then Get(more, key) else Get(r, key)
    decreases |more|
  {
    if more != [] {
      PutGets(r, more[0].key, more[0].value, key);
      AssignGets(Put(r, more[0].key, more[0].value), more[1..], key);
      GetMember(more[1..], more[0].key);
    }
  }

  predicate AllRecords(configs: seq<HostConfig>) {
    forall c :: c in configs ==> IsRecord(c.properties)
  }

  lemma {:induction false} ReadAllRecords(r: Reading, lines: seq<string>)
    requires AllRecords(Finished(r))
    ensures AllRecords(Finished(ReadAll(r, lines)))
    decreases |lines|
  {
    if lines != [] {
      ReadLineRecords(r, lines[0]);
      ReadAllRecords(ReadLine(r, lines[0]), lines[1..]);
    }
  }

  lemma ReadLineRecords(r: Reading, rawLine: string)
    requires AllRecords(Finished(r))
    ensures AllRecords(Finished(ReadLine(r, rawLine)))
  {
    var line := Trim(rawLine);
    if r.current.Some? {
      var c := r.current.value;
      assert c in Finished(r);
      forall d | d in r.configs ensures IsRecord(d.properties) {
        assert d in Finished(r);
      }
      if line != "" { PutMembers(c.properties, KeyOf(line), ValueIn(line)); }
    }
  }

  lemma {:induction false} EffectiveGets(configs: seq<HostConfig>, host: string, key: string)
    requires AllRecords(configs)
    ensures Get(Effective(configs, host), key) == FirstDefining(configs, host, key)
  {
    if configs != [] {
      EffectiveGets(configs[1..], host, key);
      assert configs[0] in configs;
      AssignGets(Effective(configs[1..], host), configs[0].properties, key);
    }
  }

  /** On a whole config each key's value comes from the earliest matching Host block that defines it. */
  lemma EarliestBlockWins(host: string, config: string, key: string)
    ensures Get(Effective(HostConfigs(config), host), key) == FirstDefining(HostConfigs(config), host, key)
  {
    ReadAllRecords(Reading([], None), Split(config, "\n"));
    EffectiveGets(HostConfigs(config), host, key);
  }

  // ----- the round trip with the block the extension writes -----

  /** A key that survives being written as the first word of a line. */
  predicate PrintableKey(key: string) {
    && key != "" && key != "Host" && key[0] != '#'
    && forall i :: 0 <= i < |key| ==> !Separates(key[i])
  }

  /** A value that survives being written as the rest of a line. */
  predicate PrintableValue(value: string) {
    value != "" && '\n' !in value && !IsSpace(value[0]) && !IsSpace(value[|value| - 1])
  }

  predicate Printable(r: Record) {
    IsRecord(r) && forall e :: e in r && e.value != "" ==> PrintableKey(e.key) && PrintableValue(e.value)
  }

  lemma {:induction false} SplitJoined(lines: seq<string>)
    requires lines != [] && forall i :: 0 <= i < |lines| ==> '\n' !in lines[i]
    ensures Split(Join(lines, "\n"), "\n") == lines
  {
    if |lines| == 1 {
      SplitLackingChar(lines[0], '\n');
    } else {
      SplitJoined(lines[1..]);
      SplitAtChar(lines[0], '\n', Join(lines[1..], "\n"));
      assert lines == [lines[0]] + lines[1..];
    }
  }

  lemma TrimKeeps(s: string)
    requires s != "" && !IsSpace(s[0]) && !IsSpace(s[|s| - 1])
    ensures Trim(s) == s
  {
  }

  lemma TrimIndented(s: string)
    requires s != "" && !IsSpace(s[0]) && !IsSpace(s[|s| - 1])
    ensures Trim("  " + s) == s
  {
    assert ("  " + s)[1..] == " " + s && (" " + s)[1..] == s;
    assert TrimStart(" " + s) == TrimStart(s);
  }

  predicate IsComment(line: string) {
    line != "" && line[0] == '#' && !IsSpace(line[|line| - 1]) && '\n' !in line
  }

  lemma CommentIgnored(r: Reading, line: string)
    requires IsComment(line)
    ensures ReadLine(r, line) == r
  {
    TrimKeeps(line);
    var n := WordLength(line);
    assert n > 0 && KeyOf(line) == line[..n];
    assert line[..n][..1] == "#";
  }

  lemma OptionRead(r: Reading, key: string, value: string)
    requires r.current.Some? && PrintableKey(key) && PrintableValue(value)
    ensures ReadLine(r, "  " + key + " " + value)
         == r.(current := Some(r.current.value.(properties := Put(r.current.value.properties, key, value))))
  {
    var line := key + " " + value;
    assert "  " + key + " " + value == "  " + line;
    assert line[|line| - 1] == value[|value| - 1] && line[0] == key[0];
    TrimIndented(line);
    KeyAndValue(key, value);
  }

  lemma HostRead(r: Reading, host: string)
    requires PrintableValue(host)
    ensures ReadLine(r, "Host " + host) == Reading(Finished(r), Some(HostConfig(host, [])))
  {
    var line := "Host " + host;
    assert line == "Host" + " " + host;
    assert line[|line| - 1] == host[|host| - 1];
    TrimKeeps(line);
    KeyAndValue("Host", host);
  }

  /** The entries that are printed: those with a value. */
  function Printed(r: Record): Record {
    if r == [] then [] else (if r[0].value == "" then [] else [r[0]]) + Printed(r[1..])
  }

  lemma {:induction false} OptionsRead(before: seq<HostConfig>, host: string, properties: Record, r: Record)
    requires forall e :: e in r && e.value != "" ==> PrintableKey(e.key) && PrintableValue(e.value)
    ensures ReadAll(Reading(before, Some(HostConfig(host, properties))), OptionLines(r))
         == Reading(before, Some(HostConfig(host, Assign(properties, Printed(r)))))
    decreases |r|
  {
    if r != [] {
      var e, rest := r[0], r[1..];
      if e.value == "" {
        OptionsRead(before, host, properties, rest);
        assert OptionLines(r) == OptionLines(rest) && Printed(r) == Printed(rest);
      } else {
        OptionsRead(before, host, Put(properties, e.key, e.value), rest);
        FirstOptionRead(before, host, properties, e, OptionLines(rest));
        assert (([e] + Printed(rest))[1..]) == Printed(rest);
      }
    }
  }

  lemma FirstOptionRead(before: seq<HostConfig>, host: string, properties: Record, e: Entry, rest: seq<string>)
    requires PrintableKey(e.key) && PrintableValue(e.value)
    ensures ReadAll(Reading(before, Some(HostConfig(host, properties))), ["  " + e.key + " " + e.value] + rest)
         == ReadAll(Reading(before, Some(HostConfig(host, Put(properties, e.key, e.value)))), rest)
  {
    OptionRead(Reading(before, Some(HostConfig(host, properties))), e.key, e.value);
    assert (["  " + e.key + " " + e.value] + rest)[1..] == rest;
  }

  lemma {:induction false} ReadAppend(r: Reading, a: seq<string>, b: seq<string>)
    ensures ReadAll(r, a + b) == ReadAll(ReadAll(r, a), b)
    decreases |a|
  {
    if a == [] {
      assert a + b == b;
    } else {
      assert (a + b)[1..] == a[1..] + b;
      ReadAppend(ReadLine(r, a[0]), a[1..], b);
    }
  }

  lemma ReadOneLine(r: Reading, line: string)
    ensures ReadAll(r, [line]) == ReadLine(r, line)
  {
    assert [line][1..] == [];
  }

  lemma NoticeIsComment()
    ensures IsComment(NOTICE)
  {
    assert NOTICE[|NOTICE| - 1] == '.';
  }

  lemma WarningIsComment()
    ensures IsComment(WARNING)
  {
    assert WARNING[|WARNING| - 1] == '.';
  }

  lemma MarkersAreComments(h: string)
    requires SafeHost(h)
    ensures IsComment(Start(h)) && IsComment(End(h))
  {
    AreMarkers(h);
  }

  lemma {:induction false} OptionLinesBreakFree(r: Record)
    requires forall e :: e in r && e.value != "" ==> PrintableKey(e.key) && PrintableValue(e.value)
    ensures forall i :: 0 <= i < |OptionLines(r)| ==> '\n' !in OptionLines(r)[i]
  {
    if r != [] {
      OptionLinesBreakFree(r[1..]);
      if r[0].value != "" {
        assert r[0] in r;
        assert forall i :: 0 <= i < |r[0].key| ==> r[0].key[i] != '\n';
      }
    }
  }

  /** Three comments, a Host line, options and a comment read as one more Host block with the printed entries. */
  lemma BlockReads(start: Reading, c1: string, c2: string, c3: string, host: string, r: Record, c4: string)
    requires IsComment(c1) && IsComment(c2) && IsComment(c3) && IsComment(c4) && PrintableValue(host)
    requires forall e :: e in r && e.value != "" ==> PrintableKey(e.key) && PrintableValue(e.value)
    ensures ReadAll(start, [c1, c2, c3, "Host " + host] + OptionLines(r) + [c4])
         == Reading(Finished(start), Some(HostConfig(host, Assign([], Printed(r)))))
  {
    var last := Reading(Finished(start), Some(HostConfig(host, Assign([], Printed(r)))));
    var head := [c1, c2, c3, "Host " + host];
    HeadReads(start, c1, c2, c3, host);
    OptionsRead(Finished(start), host, [], r);
    CommentIgnored(last, c4);
    ReadOneLine(last, c4);
    ReadAppend(start, head, OptionLines(r));
    ReadAppend(start, head + OptionLines(r), [c4]);
  }

  lemma HeadReads(start: Reading, c1: string, c2: string, c3: string, host: string)
    requires IsComment(c1) && IsComment(c2) && IsComment(c3) && PrintableValue(host)
    ensures ReadAll(start, [c1, c2, c3, "Host " + host]) == Reading(Finished(start), Some(HostConfig(host, [])))
  {
    var hostLine := "Host " + host;
    CommentIgnored(start, c1);
    CommentIgnored(start, c2);
    CommentIgnored(start, c3);
    HostRead(start, host);
    FourLines(start, c1, c2, c3, hostLine);
  }

  lemma FourLines(r: Reading, a: string, b: string, c: string, d: string)
    ensures ReadAll(r, [a, b, c, d]) == ReadLine(ReadLine(ReadLine(ReadLine(r, a), b), c), d)
  {
    assert [a, b, c, d] == [a] + [b] + [c] + [d];
    ReadAppend(r, [a] + [b] + [c], [d]);
    ReadAppend(r, [a] + [b], [c]);
    ReadAppend(r, [a], [b]);
    ReadOneLine(r, a);
    ReadOneLine(ReadLine(r, a), b);
    ReadOneLine(ReadLine(ReadLine(r, a), b), c);
    ReadOneLine(ReadLine(ReadLine(ReadLine(r, a), b), c), d);
  }

  // ----- the properties that are read back -----

  lemma {:induction false} InsertRecord(e: Entry, r: Record)
    requires IsRecord(r) && forall x :: x in r ==> x.key != e.key
    ensures IsRecord(InsertBy(KeyLe, e, r))
  {
    if r != [] && !KeyLe(e, r[0]) {
      InsertRecord(e, r[1..]);
      InsertByMembers(KeyLe, e, r[1..]);
      var rest := InsertBy(KeyLe, e, r[1..]);
      forall j | 0 <= j < |rest| ensures rest[j].key != r[0].key {
        assert rest[j] in rest;
      }
    }
  }

  /** Sorting by key keeps the record. */
  lemma {:induction false} SortedRecord(r: Record)
    requires IsRecord(r)
    ensures IsRecord(Sorted(r)) && forall e :: e in Sorted(r) <==> e in r
  {
    if r != [] {
      SortedRecord(r[1..]);
      InsertByMembers(KeyLe, r[0], Sorted(r[1..]));
      InsertRecord(r[0], Sorted(r[1..]));
      assert r == [r[0]] + r[1..];
    }
  }

  lemma SameMembersSameGets(a: Record, b: Record, key: string)
    requires IsRecord(a) && IsRecord(b) && forall e :: e in a <==> e in b
    ensures Get(a, key) == Get(b, key)
  {
    GetMember(a, key);
    GetMember(b, key);
    if Get(a, key).Some? { MemberGets(b, Entry(key, Get(a, key).value)); }
  }

  lemma {:induction false} PrintedMembers(r: Record)
    requires IsRecord(r)
    ensures IsRecord(Printed(r)) && forall e :: e in Printed(r) ==> e in r
  {
    if r != [] {
      PrintedMembers(r[1..]);
      var rest := Printed(r[1..]);
      forall j | 0 <= j < |rest| ensures rest[j].key != r[0].key {
        assert rest[j] in rest && rest[j] in r[1..];
      }
      if r[0].value == "" { assert Printed(r) == rest; } else { assert Printed(r) == [r[0]] + rest; }
    }
  }

  lemma {:induction false} PrintedGets(r: Record, key: string)
    requires IsRecord(r)
    ensures Get(Printed(r), key) == NonEmpty(Get(r, key))
  {
    if r != [] {
      PrintedGets(r[1..], key);
      GetMember(r[1..], r[0].key);
      if r[0].value == "" {
        assert Printed(r) == Printed(r[1..]);
      } else {
        assert Printed(r)[1..] == Printed(r[1..]);
      }
    }
  }

  lemma {:induction false} AssignRecord(r: Record, more: Record)
    requires IsRecord(r)
    ensures IsRecord(Assign(r, more))
    decreases |more|
  {
    if more != [] {
      PutMembers(r, more[0].key, more[0].value);
      AssignRecord(Put(r, more[0].key, more[0].value), more[1..]);
    }
  }

  function NonEmpty(value: Option<string>): Option<string> {
    if value.Some? && value.value != "" then value else None
  }

  /** The properties that the printed entries of `r` are read back as. */
  lemma PropertiesGet(r: Record, key: string)
    requires IsRecord(r)
    ensures var properties := Assign([], Printed(Sorted(r)));
            IsRecord(properties) && Get(properties, key) == NonEmpty(Get(r, key))
  {
    var printed := Printed(Sorted(r));
    SortedRecord(r);
    SameMembersSameGets(Sorted(r), r, key);
    PrintedGets(Sorted(r), key);
    PrintedMembers(Sorted(r));
    AssignRecord([], printed);
    AssignGets([], printed, key);
  }

  /** What one block with the printed entries of `r` gives a host. */
  lemma OneBlockGives(pattern: string, r: Record, host: string, key: string)
    requires IsRecord(r)
    ensures var block := HostConfig(pattern, Assign([], Printed(Sorted(r))));
            IsRecord(block.properties)
            && FirstDefining([block], host, key) == if Matches(pattern, host) then NonEmpty(Get(r, key)) else None
  {
    PropertiesGet(r, key);
    assert [HostConfig(pattern, Assign([], Printed(Sorted(r))))][1..] == [];
  }

  lemma {:induction false} FirstDefiningAppend(a: seq<HostConfig>, b: seq<HostConfig>, host: string, key: string)
    ensures FirstDefining(a + b, host, key)
         == if FirstDefining(a, host, key).Some? then FirstDefining(a, host, key) else FirstDefining(b, host, key)
  {
    if a == [] {
      assert a + b == b;
    } else {
      assert (a + b)[1..] == a[1..] + b && (a + b)[0] == a[0];
      FirstDefiningAppend(a[1..], b, host, key);
    }
  }

  lemma LinesBreakFree(h: string, host: string, r: Record)
    requires SafeHost(h) && PrintableValue(host)
    requires forall e :: e in r && e.value != "" ==> PrintableKey(e.key) && PrintableValue(e.value)
    ensures forall line :: line in [Start(h)] + ([NOTICE, WARNING, "Host " + host] + OptionLines(r)) + [End(h)] ==> '\n' !in line
  {
    MarkersAreComments(h);
    NoticeIsComment();
    WarningIsComment();
    OptionLinesBreakFree(r);
    HostLineBreakFree(host);
  }

  lemma HostLineBreakFree(host: string)
    requires '\n' !in host
    ensures '\n' !in "Host " + host
  {
  }

  function BlockConfig(values: SshValues, overrides: Record): HostConfig {
    HostConfig(values.host, Assign([], Printed(Sorted(Merge(values.others, overrides)))))
  }

  lemma BuiltBlockReads(start: Reading, h: string, values: SshValues, overrides: Record)
    requires SafeHost(h) && PrintableValue(values.host) && Printable(Merge(values.others, overrides))
    ensures ReadAll(start, Split(BuildBlock(h, values, overrides), "\n"))
         == Reading(Finished(start), Some(BlockConfig(values, overrides)))
  {
    var r := Sorted(Merge(values.others, overrides));
    SortedRecord(Merge(values.others, overrides));
    LinesBreakFree(h, values.host, r);
    var lines := [Start(h)] + BodyLines(values, overrides) + [End(h)];
    SplitJoined(lines);
    BlockLinesRead(start, h, values.host, r);
  }

  lemma BlockLinesRead(start: Reading, h: string, host: string, r: Record)
    requires SafeHost(h) && PrintableValue(host)
    requires forall e :: e in r && e.value != "" ==> PrintableKey(e.key) && PrintableValue(e.value)
    ensures ReadAll(start, [Start(h)] + ([NOTICE, WARNING, "Host " + host] + OptionLines(r)) + [End(h)])
         == Reading(Finished(start), Some(HostConfig(host, Assign([], Printed(r)))))
  {
    MarkersAreComments(h);
    NoticeIsComment();
    WarningIsComment();
    BlockReads(start, Start(h), NOTICE, WARNING, host, r, End(h));
    FourFirst(Start(h), NOTICE, WARNING, "Host " + host, OptionLines(r), End(h));
  }

  lemma FourFirst(a: string, b: string, c: string, d: string, rest: seq<string>, last: string)
    ensures [a] + ([b, c, d] + rest) + [last] == [a, b, c, d] + rest + [last]
  {
  }

  lemma CutAtBreak(a: string, i: nat, b: string)
    requires i < |a| && a[i] == '\n'
    ensures a + "\n" + b == a[..i] + "\n" + (a[i + 1..] + "\n" + b)
  {
    assert a == a[..i] + "\n" + a[i + 1..];
    ConcatAssoc(a[..i] + "\n", a[i + 1..], "\n" + b);
    ConcatAssoc(a, "\n", b);
    ConcatAssoc(a[i + 1..], "\n", b);
  }

  lemma FirstBreak(a: string)
    ensures var i := IndexOf(a, "\n", 0);
            if i == -1 then '\n' !in a else a[i] == '\n' && '\n' !in a[..i]
  {
    forall k | 0 <= k < |a| ensures MatchesAt(a, "\n", k) <==> a[k] == '\n' { MatchOne(a, '\n', k); }
  }

  /** Lines of a text that ends in a line break, and then those of what follows. */
  lemma {:induction false} SplitLines(a: string, b: string)
    ensures Split(a + "\n" + b, "\n") == Split(a, "\n") + Split(b, "\n")
    decreases |a|
  {
    var i := IndexOf(a, "\n", 0);
    FirstBreak(a);
    if i == -1 {
      SplitAtChar(a, '\n', b);
    } else {
      var tail := a[i + 1..];
      SplitLines(tail, b);
      CutAtBreak(a, i, b);
      SplitAtChar(a[..i], '\n', tail + "\n" + b);
      ConcatAssoc([a[..i]], Split(tail, "\n"), Split(b, "\n"));
    }
  }

  /** The Host blocks of a text followed by a built block: those of the text, then the block's. */
  lemma BlockAfterText(before: string, h: string, values: SshValues, overrides: Record)
    requires SafeHost(h) && PrintableValue(values.host) && Printable(Merge(values.others, overrides))
    ensures HostConfigs(before + "\n" + BuildBlock(h, values, overrides))
         == HostConfigs(before) + [BlockConfig(values, overrides)]
  {
    var start := ReadAll(Reading([], None), Split(before, "\n"));
    SplitLines(before, BuildBlock(h, values, overrides));
    ReadAppend(Reading([], None), Split(before, "\n"), Split(BuildBlock(h, values, overrides), "\n"));
    BuiltBlockReads(start, h, values, overrides);
  }

  /**
   * Printing and reading back: from the text of a built block, every host that matches its
   * pattern gets exactly the merged values that are not empty, and other hosts get nothing.
   */
  lemma BlockRoundTrip(h: string, values: SshValues, overrides: Record, host: string, key: string)
    requires SafeHost(h) && PrintableValue(values.host) && Printable(Merge(values.others, overrides))
    ensures Get(Effective(HostConfigs(BuildBlock(h, values, overrides)), host), key)
         == if Matches(values.host, host) then NonEmpty(Get(Merge(values.others, overrides), key)) else None
  {
    BuiltBlockReads(Reading([], None), h, values, overrides);
    EarliestBlockWins(host, BuildBlock(h, values, overrides), key);
    OneBlockGives(values.host, Merge(values.others, overrides), host, key);
  }

  // ----- white space at the end of a text holds no line -----

  lemma {:induction false} TrimStartSnoc(s: string, c: char)
    requires IsSpace(c)
    ensures TrimStart(s + [c]) == if TrimStart(s) == "" then "" else TrimStart(s) + [c]
  {
    if s == "" {
      assert TrimStart([c]) == TrimStart([c][1..]);
    } else if IsSpace(s[0]) {
      assert (s + [c])[1..] == s[1..] + [c];
      TrimStartSnoc(s[1..], c);
    }
  }

  lemma TrimSnoc(s: string, c: char)
    requires IsSpace(c)
    ensures Trim(s + [c]) == Trim(s)
  {
    TrimStartSnoc(s, c);
    var t := TrimStart(s);
    assert (t + [c])[..|t|] == t;
  }

  /** A character that is no line break joins the last line. */
  lemma {:induction false} SplitSnoc(t: string, c: char)
    requires c != '\n'
    ensures Split(t + [c], "\n") == LastLonger(Split(t, "\n"), c)
    decreases |t|
  {
    var i := IndexOf(t, "\n", 0);
    FirstBreak(t);
    if i == -1 {
      SplitLackingChar(t, '\n');
      SplitLackingChar(t + [c], '\n');
    } else {
      var first, rest := t[..i], t[i + 1..];
      assert t == first + ['\n'] + rest;
      ConcatAssoc(first + ['\n'], rest, [c]);
      SplitSnoc(rest, c);
      SplitAtChar(first, '\n', rest);
      SplitAtChar(first, '\n', rest + [c]);
      LastOfMore(first, Split(rest, "\n"), c);
    }
  }

  function LastLonger(lines: seq<string>, c: char): seq<string>
    requires lines != []
  {
    lines[..|lines| - 1] + [lines[|lines| - 1] + [c]]
  }

  lemma LastOfMore(first: string, rest: seq<string>, c: char)
    requires rest != []
    ensures LastLonger([first] + rest, c) == [first] + LastLonger(rest, c)
  {
  }

  lemma ReadSnoc(r: Reading, lines: seq<string>, last: string)
    ensures ReadAll(r, lines + [last]) == ReadLine(ReadAll(r, lines), last)
  {
    ReadAppend(r, lines, [last]);
    ReadOneLine(ReadAll(r, lines), last);
  }

  lemma SameTrimmed(r: Reading, a: string, b: string)
    requires Trim(a) == Trim(b)
    ensures ReadLine(r, a) == ReadLine(r, b)
  {
  }

  lemma LastLineTrimmed(r: Reading, lines: seq<string>, last: string, c: char)
    requires IsSpace(c)
    ensures ReadAll(r, lines + [last + [c]]) == ReadAll(r, lines + [last])
  {
    TrimSnoc(last, c);
    ReadSnoc(r, lines, last);
    ReadSnoc(r, lines, last + [c]);
    SameTrimmed(ReadAll(r, lines), last, last + [c]);
  }

  lemma BlankLine(r: Reading)
    ensures ReadLine(r, "") == r
  {
  }

  lemma SplitEnding(t: string)
    ensures Split(t + ['\n'], "\n") == Split(t, "\n") + [""]
  {
    SplitLines(t, "");
    SplitLackingChar("", '\n');
    assert t + "\n" + "" == t + ['\n'];
  }

  lemma ReadSpace(t: string, c: char)
    requires IsSpace(c)
    ensures HostConfigs(t + [c]) == HostConfigs(t)
  {
    var start, lines := Reading([], None), Split(t, "\n");
    if c == '\n' {
      SplitEnding(t);
      ReadSnoc(start, lines, "");
      BlankLine(ReadAll(start, lines));
    } else {
      var front, last := lines[..|lines| - 1], lines[|lines| - 1];
      SplitSnoc(t, c);
      assert lines == front + [last];
      LastLineTrimmed(start, front, last, c);
    }
  }

  lemma {:induction false} TrimmedReadsSame(raw: string)
    ensures HostConfigs(TrimEnd(raw)) == HostConfigs(raw)
  {
    if raw != "" && IsSpace(raw[|raw| - 1]) {
      var front := raw[..|raw| - 1];
      TrimmedReadsSame(front);
      ReadSpace(front, raw[|raw| - 1]);
      assert front + [raw[|raw| - 1]] == raw;
    }
  }

  /** The Host blocks of a config after an append: its own, then the block's. */
  lemma AppendedConfigs(raw: string, h: string, values: SshValues, overrides: Record)
    requires SafeHost(h) && PrintableValue(values.host) && Printable(Merge(values.others, overrides))
    ensures HostConfigs(Append(raw, BuildBlock(h, values, overrides)))
         == HostConfigs(raw) + [BlockConfig(values, overrides)]
  {
    var block := BuildBlock(h, values, overrides);
    if raw == "" {
      NoConfigs();
      BuiltBlockReads(Reading([], None), h, values, overrides);
    } else {
      var before := TrimEnd(raw) + "\n";
      assert Append(raw, block) == before + "\n" + block;
      BlockAfterText(before, h, values, overrides);
      ReadSpace(TrimEnd(raw), '\n');
      TrimmedReadsSame(raw);
    }
  }

  lemma NoConfigs()
    ensures HostConfigs("") == []
  {
    SplitLackingChar("", '\n');
    ReadOneLine(Reading([], None), "");
  }

  /**
   * What a first update does to a host: the block appended to the config gives it the merged
   * values, except for keys that an earlier matching block of the user's already defines.
   */
  lemma AppendedBlockApplies(raw: string, h: string, values: SshValues, overrides: Record, host: string, key: string)
    requires SafeHost(h) && PrintableValue(values.host) && Printable(Merge(values.others, overrides))
    ensures var earlier := FirstDefining(HostConfigs(raw), host, key);
            Get(Effective(HostConfigs(Append(raw, BuildBlock(h, values, overrides))), host), key)
            == if earlier.Some? then earlier
               else if Matches(values.host, host) then NonEmpty(Get(Merge(values.others, overrides), key))
               else None
  {
    var appended := Append(raw, BuildBlock(h, values, overrides));
    AppendedConfigs(raw, h, values, overrides);
    EarliestBlockWins(host, appended, key);
    FirstDefiningAppend(HostConfigs(raw), [BlockConfig(values, overrides)], host, key);
    OneBlockGives(values.host, Merge(values.others, overrides), host, key);
  }
}
