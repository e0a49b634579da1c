/**
 * The string operations of the host language that the modelled code relies on:
 * searching, splitting, joining and counting, over strings of UTF-16 code units.
 */
module Text {
  predicate MatchesAt(s: string, needle: string, i: int) {
    0 <= i && i + |needle| <= |s| && s[i..i + |needle|] == needle
  }

  predicate Has(s: string, needle: string) {
    exists i :: 0 <= i <= |s| && MatchesAt(s, needle, i)
  }

  lemma MatchOne(s: string, c: char, i: int)
    ensures MatchesAt(s, [c], i) <==> 0 <= i < |s| && s[i] == c
  {
    if 0 <= i < |s| {
      assert s[i..i + |[c]|] == [s[i]];
    }
  }

  lemma MatchTwo(s: string, c: char, d: char, i: int)
    ensures MatchesAt(s, [c, d], i) <==> 0 <= i < |s| - 1 && s[i] == c && s[i + 1] == d
  {
    if 0 <= i < |s| - 1 {
      assert s[i..i + |[c, d]|] == [s[i], s[i + 1]];
    }
  }

  /** The first occurrence of `needle` at or after `from`, or -1. */
  function IndexOf(s: string, needle: string, from: nat): (r: int)
    requires needle != ""
    ensures r == -1 || (from <= r && MatchesAt(s, needle, r))
    ensures forall i :: from <= i && (r == -1 || i < r) ==> !MatchesAt(s, needle, i)
    decreases |s| - from
  {
    if |s| < from + |needle| then -1
    else if MatchesAt(s, needle, from) then from
    else IndexOf(s, needle, from + 1)
  }

  lemma IndexOfIs(s: string, needle: string, from: nat, at: nat)
    requires needle != "" && from <= at && MatchesAt(s, needle, at)
    requires forall i :: from <= i < at ==> !MatchesAt(s, needle, i)
    ensures IndexOf(s, needle, from) == at
  {
    var r := IndexOf(s, needle, from);
    assert r != -1;
    assert !(r < at) && !(at < r);
  }

  /** `s.split(sep)`: cut at the leftmost separator, again and again. */
  function Split(s: string, sep: string): (parts: seq<string>)
    requires sep != ""
    ensures |parts| >= 1
    decreases |s|
  {
    var i := IndexOf(s, sep, 0);
    if i == -1 then [s] else [s[..i]] + Split(s[i + |sep|..], sep)
  }

  /** `parts.join(sep)`. */
  function Join(parts: seq<string>, sep: string): string {
    if parts == [] then ""
    else if |parts| == 1 then parts[0]
    else parts[0] + sep + Join(parts[1..], sep)
  }

  lemma {:induction false} JoinSplit(s: string, sep: string)
    requires sep != ""
    ensures Join(Split(s, sep), sep) == s
    decreases |s|
  {
    var i := IndexOf(s, sep, 0);
    if i != -1 {
      JoinSplit(s[i + |sep|..], sep);
      assert Split(s, sep)[1..] == Split(s[i + |sep|..], sep);
      assert s == s[..i] + s[i..i + |sep|] + s[i + |sep|..];
    }
  }

  lemma {:induction false} JoinAppend(a: seq<string>, b: seq<string>, sep: string)
    requires a != [] && b != []
    ensures Join(a + b, sep) == Join(a, sep) + sep + Join(b, sep)
  {
    if |a| == 1 {
      assert (a + b)[1..] == b;
    } else {
      JoinAppend(a[1..], b, sep);
      assert (a + b)[1..] == a[1..] + b;
      assert (a + b)[0] == a[0];
      calc {
        Join(a + b, sep);
        a[0] + sep + (Join(a[1..], sep) + sep + Join(b, sep));
        Join(a, sep) + sep + Join(b, sep);
      }
    }
  }

  lemma PrefixLacks(s: string, sep: string, i: nat)
    requires sep != "" && i == IndexOf(s, sep, 0)
    ensures !Has(s[..i], sep)
  {
    forall j ensures !MatchesAt(s[..i], sep, j) {
      if 0 <= j && j + |sep| <= i {
        assert !MatchesAt(s, sep, j);
        assert s[..i][j..j + |sep|] == s[j..j + |sep|];
      }
    }
  }

  /** No piece of a split contains the separator. */
  lemma {:induction false} SplitPiecesLackSeparator(s: string, sep: string, k: nat)
    requires sep != "" && k < |Split(s, sep)|
    ensures !Has(Split(s, sep)[k], sep)
    decreases |s|
  {
    var i := IndexOf(s, sep, 0);
    if i == -1 {
    } else if k == 0 {
      PrefixLacks(s, sep, i);
    } else {
      SplitPiecesLackSeparator(s[i + |sep|..], sep, k - 1);
    }
  }

  /** A split at one character leaves pieces without that character. */
  lemma SplitCharPieces(s: string, c: char, k: nat)
    requires k < |Split(s, [c])|
    ensures c !in Split(s, [c])[k]
  {
    var piece := Split(s, [c])[k];
    SplitPiecesLackSeparator(s, [c], k);
    forall j | 0 <= j < |piece| ensures piece[j] != c {
      MatchOne(piece, c, j);
      assert !MatchesAt(piece, [c], j);
    }
  }

  /** The leftmost occurrence of a character cuts off the first piece. */
  lemma SplitAtChar(a: string, c: char, rest: string)
    requires c !in a
    ensures Split(a + [c] + rest, [c]) == [a] + Split(rest, [c])
  {
    var s := a + [c] + rest;
    forall j | 0 <= j <= |a| ensures MatchesAt(s, [c], j) <==> j == |a| { MatchOne(s, c, j); }
    IndexOfIs(s, [c], 0, |a|);
    assert s[..|a|] == a && s[|a| + 1..] == rest;
  }

  lemma SplitLackingChar(s: string, c: char)
    requires c !in s
    ensures Split(s, [c]) == [s]
  {
    forall j ensures !MatchesAt(s, [c], j) { MatchOne(s, c, j); }
  }

  /** A string that lacks the separator is one piece. */
  lemma SplitWhole(s: string, sep: string)
    requires sep != "" && !Has(s, sep)
    ensures Split(s, sep) == [s]
  {
  }

  /** How often `c` occurs in `s`. */
  function CountChar(s: string, c: char): nat {
    if s == "" then 0 else (if s[0] == c then 1 else 0) + CountChar(s[1..], c)
  }

  lemma {:induction false} CountCharAppend(a: string, b: string, c: char)
    ensures CountChar(a + b, c) == CountChar(a, c) + CountChar(b, c)
  {
    if a == "" {
      assert a + b == b;
    } else {
      CountCharAppend(a[1..], b, c);
      assert (a + b)[1..] == a[1..] + b;
    }
  }

  lemma {:induction false} CountCharZero(s: string, c: char)
    ensures CountChar(s, c) == 0 <==> c !in s
  {
    if s != "" {
      CountCharZero(s[1..], c);
      assert s == [s[0]] + s[1..];
    }
  }

  /** Splitting at a one-character separator gives one piece more than it has occurrences. */
  lemma {:induction false} SplitCharCount(s: string, c: char)
    ensures |Split(s, [c])| == CountChar(s, c) + 1
    decreases |s|
  {
    var i := IndexOf(s, [c], 0);
    CountCharZero(s, c);
    if i == -1 {
      forall k | 0 <= k < |s| ensures s[k] != c { MatchOne(s, c, k); }
    } else {
      assert s == s[..i] + [c] + s[i + 1..];
      CountCharAppend(s[..i] + [c], s[i + 1..], c);
      CountCharAppend(s[..i], [c], c);
      CountCharZero(s[..i], c);
      MatchOne(s, c, i);
      forall k | 0 <= k < i ensures s[k] != c { MatchOne(s, c, k); }
      SplitCharCount(s[i + 1..], c);
    }
  }

  /** White space as `trim` and `\s` know it. */
  predicate IsSpace(c: char) {
    var n := c as int;
    || 9 <= n <= 13 || n == 32 || n == 160 || n == 5760 || 8192 <= n <= 8202
    || n == 8232 || n == 8233 || n == 8239 || n == 8287 || n == 12288 || n == 65279
  }

  function TrimEnd(s: string): (r: string)
    ensures r <= s
  {
    if s != "" && IsSpace(s[|s| - 1]) then TrimEnd(s[..|s| - 1]) else s
  }

  function TrimStart(s: string): string {
    if s != "" && IsSpace(s[0]) then TrimStart(s[1..]) else s
  }

  function Trim(s: string): string {
    TrimEnd(TrimStart(s))
  }

  /** `s.trimEnd()` cuts off white space and nothing else. */
  lemma {:induction false} TrimEndCuts(s: string)
    ensures forall k :: |TrimEnd(s)| <= k < |s| ==> IsSpace(s[k])
  {
    if s != "" && IsSpace(s[|s| - 1]) { TrimEndCuts(s[..|s| - 1]); }
  }

  /** Code-unit order on strings, as `<=` compares them. */
  predicate LexLe(a: string, b: string) {
    a == "" || (b != "" && (a[0] < b[0] || (a[0] == b[0] && LexLe(a[1..], b[1..]))))
  }

  predicate LexLt(a: string, b: string) {
    LexLe(a, b) && a != b
  }

  lemma {:induction false} LexTotal(a: string, b: string)
    ensures LexLe(a, b) || LexLe(b, a)
  {
    if a != "" && b != "" && a[0] == b[0] {
      LexTotal(a[1..], b[1..]);
    }
  }

  lemma {:induction false} LexTransitive(a: string, b: string, c: string)
    requires LexLe(a, b) && LexLe(b, c)
    ensures LexLe(a, c)
  {
    if a != "" && a[0] == b[0] && b[0] == c[0] {
      LexTransitive(a[1..], b[1..], c[1..]);
    }
  }

  lemma {:induction false} LexAntisymmetric(a: string, b: string)
    requires LexLe(a, b) && LexLe(b, a)
    ensures a == b
  {
    if a != "" {
      LexAntisymmetric(a[1..], b[1..]);
      assert a == [a[0]] + a[1..] && b == [b[0]] + b[1..];
    }
  }
}
