/**
 * What a Host pattern matches, and what a line of an SSH config says, without following how
 * src/remote/sshSupport.ts goes about it.
 */
module SshPatterns {
  import opened Basics
  import opened Text
  import opened SshMerge
  import opened SshConfigs
  import opened SshProperties

  // ----- patterns -----

  /** What one character of a pattern can stand for. */
  predicate StandsFor(p: char, cut: string) {
    if p == '*' then AllDots(cut)
    else if p == '?' then |cut| == 1 && IsDot(cut[0])
    else cut == [p]
  }

  /** The host cut up into one piece for each character of the pattern. */
  predicate CutsUp(pattern: string, host: string, cuts: seq<string>) {
    && |cuts| == |pattern| && Flatten(cuts) == host
    && forall i :: 0 <= i < |pattern| ==> StandsFor(pattern[i], cuts[i])
  }

  lemma FlattenCons(first: string, rest: seq<string>)
    ensures Flatten([first] + rest) == first + Flatten(rest)
  {
    assert ([first] + rest)[1..] == rest;
  }

  lemma CutsCons(pattern: string, first: string, rest: seq<string>, host: string)
    requires pattern != "" && StandsFor(pattern[0], first) && CutsUp(pattern[1..], host, rest)
    ensures CutsUp(pattern, first + host, [first] + rest)
  {
    FlattenCons(first, rest);
  }

  lemma CutsTail(pattern: string, host: string, cuts: seq<string>)
    requires pattern != "" && CutsUp(pattern, host, cuts)
    ensures host == cuts[0] + Flatten(cuts[1..]) && StandsFor(pattern[0], cuts[0])
    ensures CutsUp(pattern[1..], Flatten(cuts[1..]), cuts[1..])
  {
  }

  lemma {:induction false} MatchCuts(pattern: string, host: string) returns (cuts: seq<string>)
    requires Matches(pattern, host)
    ensures CutsUp(pattern, host, cuts)
    decreases |pattern| + |host|
  {
    if pattern == "" {
      cuts := [];
    } else if pattern[0] == '*' && Matches(pattern[1..], host) {
      var rest := MatchCuts(pattern[1..], host);
      CutsCons(pattern, "", rest, host);
      assert "" + host == host;
      cuts := [""] + rest;
    } else if pattern[0] == '*' {
      var longer := MatchCuts(pattern, host[1..]);
      CutsTail(pattern, host[1..], longer);
      var first := [host[0]] + longer[0];
      CutsCons(pattern, first, longer[1..], Flatten(longer[1..]));
      assert first + Flatten(longer[1..]) == [host[0]] + host[1..] == host;
      cuts := [first] + longer[1..];
    } else {
      var rest := MatchCuts(pattern[1..], host[1..]);
      CutsCons(pattern, [host[0]], rest, host[1..]);
      assert [host[0]] + host[1..] == host;
      cuts := [[host[0]]] + rest;
    }
  }

  lemma {:induction false} CutsMatch(pattern: string, host: string, cuts: seq<string>)
    requires CutsUp(pattern, host, cuts)
    ensures Matches(pattern, host)
    decreases |pattern| + |host|
  {
    if pattern != "" {
      CutsTail(pattern, host, cuts);
      var first, rest := cuts[0], Flatten(cuts[1..]);
      if pattern[0] == '*' && first != "" {
        assert host[1..] == first[1..] + rest;
        CutsCons(pattern, first[1..], cuts[1..], rest);
        CutsMatch(pattern, host[1..], [first[1..]] + cuts[1..]);
      } else if pattern[0] == '*' {
        assert host == rest;
        CutsMatch(pattern[1..], host, cuts[1..]);
      } else {
        assert host[1..] == rest;
        CutsMatch(pattern[1..], host[1..], cuts[1..]);
      }
    }
  }

  /**
   * A pattern matches a host if and only if the host can be cut up into one piece for each of
   * its characters: any text without line breaks for `*`, one such character for `?`, and the
   * character itself for every other.
   */
  lemma MatchesExactly(pattern: string, host: string)
    ensures Matches(pattern, host) <==> exists cuts :: CutsUp(pattern, host, cuts)
  {
    if Matches(pattern, host) {
      var cuts := MatchCuts(pattern, host);
    }
    forall cuts | CutsUp(pattern, host, cuts) ensures Matches(pattern, host) { CutsMatch(pattern, host, cuts); }
  }

  predicate IsLiteral(s: string) {
    '*' !in s && '?' !in s
  }

  /** A pattern without wildcards matches itself only. */
  lemma {:induction false} LiteralPattern(pattern: string, host: string)
    requires IsLiteral(pattern)
    ensures Matches(pattern, host) <==> host == pattern
  {
    if pattern != "" {
      assert pattern == [pattern[0]] + pattern[1..];
      if host != "" {
        LiteralPattern(pattern[1..], host[1..]);
        assert host == [host[0]] + host[1..];
      }
    }
  }

  /** A pattern `*suffix` matches exactly the hosts that end in the suffix. */
  lemma {:induction false} SuffixPattern(suffix: string, host: string)
    requires IsLiteral(suffix)
    ensures Matches("*" + suffix, host)
       <==> |suffix| <= |host| && host[|host| - |suffix|..] == suffix && AllDots(host[..|host| - |suffix|])
  {
    var n := |host| - |suffix|;
    assert ("*" + suffix)[1..] == suffix;
    LiteralPattern(suffix, host);
    if host != "" {
      SuffixPattern(suffix, host[1..]);
      if n > 0 {
        assert host[1..][n - 1..] == host[n..] && host[1..][..n - 1] == host[..n][1..];
        assert host[..n] == [host[0]] + host[..n][1..];
      }
    }
  }

  /** A pattern `?` matches exactly the hosts of one character. */
  lemma QuestionPattern(host: string)
    ensures Matches("?", host) <==> |host| == 1 && IsDot(host[0])
  {
    assert "?"[1..] == "";
  }

  /** `*` and `?` mean the same wherever they stand: between two literals a star takes what is between them. */
  lemma InnerStar(before: string, between: string, after: string)
    requires IsLiteral(before) && IsLiteral(after) && AllDots(between)
    ensures Matches(before + "*" + after, before + between + after)
  {
    var tail := "*" + after;
    assert before + "*" + after == before + tail && before + between + after == before + (between + after);
    SuffixPattern(after, between + after);
    assert (between + after)[|between|..] == after && (between + after)[..|between|] == between;
    LiteralThen(before, tail, between + after);
  }

  lemma {:induction false} LiteralThen(literal: string, pattern: string, host: string)
    requires IsLiteral(literal) && Matches(pattern, host)
    ensures Matches(literal + pattern, literal + host)
  {
    if literal == "" {
      assert literal + pattern == pattern && literal + host == host;
    } else {
      assert (literal + pattern)[1..] == literal[1..] + pattern && (literal + host)[1..] == literal[1..] + host;
      LiteralThen(literal[1..], pattern, host);
    }
  }

  // ----- one line -----

  /** A separator: one equals sign, or white space up to the next character that is none. */
  predicate IsSeparator(sep: string, rest: string) {
    sep == "=" || (sep != "" && (forall i :: 0 <= i < |sep| ==> IsSpace(sep[i])) && (rest == "" || !IsSpace(rest[0])))
  }

  predicate IsWord(key: string) {
    forall i :: 0 <= i < |key| ==> !Separates(key[i])
  }

  lemma SeparatorEnds(sep: string, rest: string)
    requires IsSeparator(sep, rest)
    ensures Separates((sep + rest)[0]) && SeparatorLength(sep + rest) == |sep|
  {
    if sep != "=" {
      if rest == "" { AllSpaces(sep); assert sep + rest == sep; } else { SpaceEnds(sep, rest); }
      assert (sep + rest)[0] == sep[0];
    }
  }

  lemma {:induction false} AllSpaces(s: string)
    requires forall i :: 0 <= i < |s| ==> IsSpace(s[i])
    ensures SpaceLength(s) == |s|
  {
    if s != "" { AllSpaces(s[1..]); }
  }

  lemma KeyAndRest(line: string, key: string, sep: string, rest: seq<string>)
    requires Pieces(line) == [key, sep] + rest && rest != []
    ensures KeyOf(line) == key && ValueIn(line) == Flatten(rest)
  {
    assert ([key, sep] + rest)[2..] == rest;
  }

  /**
   * A line is read as its first word and what follows the first separator, whichever kind that
   * is and whatever comes after it, further separators included.
   */
  lemma KeyAndValueExactly(key: string, sep: string, rest: string)
    requires IsWord(key) && IsSeparator(sep, rest)
    ensures KeyOf(key + sep + rest) == key && ValueIn(key + sep + rest) == rest
  {
    var line := key + sep + rest;
    var n, m := |key|, |sep|;
    assert line == key + (sep + rest);
    SeparatorEnds(sep, rest);
    WordEnds(key, sep + rest);
    assert line[n..] == sep + rest;
    assert line[..n] == key && line[n + m..] == rest;
    assert Pieces(line) == [key, line[n..n + m]] + Pieces(rest);
    KeyAndRest(line, key, line[n..n + m], Pieces(rest));
    PiecesMakeUp(rest);
  }

  /** A line of one word has that word for its key and no value. */
  lemma WordAlone(key: string)
    requires IsWord(key)
    ensures KeyOf(key) == key && ValueIn(key) == ""
  {
    assert WordLength(key) == |key|;
  }

  // ----- the options of a built block -----

  lemma KeyOrder()
    ensures TotalPreorder(KeyLe)
  {
    forall a, b ensures KeyLe(a, b) || KeyLe(b, a) { LexTotal(a.key, b.key); }
    forall a, b, c | KeyLe(a, b) && KeyLe(b, c) ensures KeyLe(a, c) { LexTransitive(a.key, b.key, c.key); }
  }

  lemma {:induction false} PrintedSorted(r: Record)
    requires SortedBy(KeyLe, r)
    ensures SortedBy(KeyLe, Printed(r)) && forall e :: e in Printed(r) <==> e in r && e.value != ""
  {
    if r != [] {
      PrintedSorted(r[1..]);
      var rest := Printed(r[1..]);
      assert r == [r[0]] + r[1..];
      forall j | 0 <= j < |rest| ensures KeyLe(r[0], rest[j]) {
        assert rest[j] in r[1..];
        var i :| 0 <= i < |r[1..]| && r[1..][i] == rest[j];
        assert r[i + 1] == rest[j];
      }
    }
  }

  lemma {:induction false} LinesOfPrinted(r: Record)
    ensures |OptionLines(r)| == |Printed(r)|
    ensures forall i :: 0 <= i < |Printed(r)| ==> OptionLines(r)[i] == "  " + Printed(r)[i].key + " " + Printed(r)[i].value
  {
    if r != [] { LinesOfPrinted(r[1..]); }
  }

  /**
   * The option lines of a block: one for each entry with a value, indented, key before value,
   * in the order of the keys.
   */
  lemma OptionLinesInKeyOrder(r: Record) returns (entries: Record)
    ensures multiset(entries) <= multiset(r) && forall e :: e in entries <==> e in r && e.value != ""
    ensures forall i, j :: 0 <= i < j < |entries| ==> LexLe(entries[i].key, entries[j].key)
    ensures |OptionLines(Sorted(r))| == |entries|
    ensures forall i :: 0 <= i < |entries| ==> OptionLines(Sorted(r))[i] == "  " + entries[i].key + " " + entries[i].value
  {
    KeyOrder();
    SortBySorts(KeyLe, r);
    entries := Printed(Sorted(r));
    PrintedSorted(Sorted(r));
    LinesOfPrinted(Sorted(r));
    PrintedCounts(Sorted(r));
    forall e ensures e in Sorted(r) <==> e in r { assert e in multiset(Sorted(r)) <==> e in multiset(r); }
    forall i, j | 0 <= i < j < |entries| ensures LexLe(entries[i].key, entries[j].key) { assert KeyLe(entries[i], entries[j]); }
  }

  lemma {:induction false} PrintedCounts(r: Record)
    ensures multiset(Printed(r)) <= multiset(r)
  {
    if r != [] {
      PrintedCounts(r[1..]);
      assert r == [r[0]] + r[1..];
    }
  }
}
