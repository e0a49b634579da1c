/**
 * Counting, finding and replacing substrings, as `countSubstring` (src/util.ts) and the
 * string operations of the host language do it.
 */
module Substrings {
  import opened Basics
  import opened Text

  /** `countSubstring`'s count: occurrences taken from the left, none overlapping the last. */
  function CountFrom(s: string, needle: string, from: nat): nat
    requires needle != ""
    decreases |s| - from
  {
    var i := IndexOf(s, needle, from);
    if i == -1 then 0 else 1 + CountFrom(s, needle, i + |needle|)
  }

  /** The number of positions from `from` on where `needle` matches. */
  function Occurrences(s: string, needle: string, from: nat): nat
    decreases |s| - from
  {
    if from >= |s| then 0 else (if MatchesAt(s, needle, from) then 1 else 0) + Occurrences(s, needle, from + 1)
  }

  method CountSubstring(needle: string, haystack: string) returns (count: nat)
    ensures needle == "" ==> count == 0
    ensures needle != "" ==> count == CountFrom(haystack, needle, 0)
  {
    if |needle| < 1 || |haystack| < 1 { return 0; }
    count := 0;
    var pos := IndexOf(haystack, needle, 0);
    while pos != -1
      invariant -1 <= pos < |haystack|
      invariant CountFrom(haystack, needle, 0) == count + CountAt(haystack, needle, pos)
      decreases if pos == -1 then 0 else |haystack| - pos
    {
      count := count + 1;
      pos := IndexOf(haystack, needle, pos + |needle|);
    }
  }

  /** What is still to be counted when the search has stopped at `pos`. */
  function CountAt(s: string, needle: string, pos: int): nat
    requires needle != "" && pos >= -1
  {
    if pos == -1 then 0 else 1 + CountFrom(s, needle, pos + |needle|)
  }

  /** The needle's first character occurs in it only once, so its occurrences never overlap. */
  predicate StartsOnce(needle: string) {
    needle != "" && forall k :: 0 < k < |needle| ==> needle[k] != needle[0]
  }

  lemma {:induction false} SkipMisses(s: string, needle: string, a: nat, b: nat)
    requires a <= b && forall k :: a <= k < b ==> !MatchesAt(s, needle, k)
    ensures Occurrences(s, needle, a) == Occurrences(s, needle, b)
    decreases b - a
  {
    if a < b {
      SkipMisses(s, needle, a + 1, b);
      if a >= |s| { assert Occurrences(s, needle, b) == 0; }
    }
  }

  lemma ApartBy(s: string, needle: string, i: nat, k: nat)
    requires StartsOnce(needle) && MatchesAt(s, needle, i) && i < k < i + |needle|
    ensures !MatchesAt(s, needle, k)
  {
    MatchChar(s, needle, i, k - i);
    MatchChar(s, needle, k, 0);
  }

  lemma MatchChar(s: string, needle: string, i: int, j: int)
    ensures MatchesAt(s, needle, i) && 0 <= j < |needle| ==> s[i + j] == needle[j]
  {
    assert MatchesAt(s, needle, i) && 0 <= j < |needle| ==> s[i..i + |needle|][j] == s[i + j];
  }

  /** From one occurrence on there is no other before its end. */
  lemma OneThenRest(s: string, needle: string, i: nat)
    requires StartsOnce(needle) && MatchesAt(s, needle, i)
    ensures Occurrences(s, needle, i) == 1 + Occurrences(s, needle, i + |needle|)
  {
    forall k | i + 1 <= k < i + |needle| ensures !MatchesAt(s, needle, k) { ApartBy(s, needle, i, k); }
    SkipMisses(s, needle, i + 1, i + |needle|);
  }

  lemma FirstThenRest(s: string, needle: string, from: nat, i: nat)
    requires StartsOnce(needle) && i == IndexOf(s, needle, from)
    ensures i + |needle| <= |s| && from <= i
    ensures Occurrences(s, needle, from) == 1 + Occurrences(s, needle, i + |needle|)
  {
    SkipMisses(s, needle, from, i);
    OneThenRest(s, needle, i);
  }

  lemma NoneLeft(s: string, needle: string, from: nat)
    requires needle != "" && IndexOf(s, needle, from) == -1
    ensures Occurrences(s, needle, from) == 0
  {
    NoOccurrence(s, needle, from);
  }

  /** Then what `countSubstring` counts is every occurrence. */
  lemma {:induction false} CountsEveryOccurrence(s: string, needle: string, from: nat)
    requires StartsOnce(needle)
    ensures CountFrom(s, needle, from) == Occurrences(s, needle, from)
    decreases |s| - from
  {
    var i := IndexOf(s, needle, from);
    if i == -1 {
      NoneLeft(s, needle, from);
    } else {
      FirstThenRest(s, needle, from, i);
      CountsEveryOccurrence(s, needle, i + |needle|);
    }
  }

  lemma {:induction false} NoOccurrence(s: string, needle: string, from: nat)
    requires needle != ""
    ensures Occurrences(s, needle, from) == 0 <==> forall k :: from <= k ==> !MatchesAt(s, needle, k)
    decreases |s| - from
  {
    if from < |s| { NoOccurrence(s, needle, from + 1); }
  }

  /** A match is the only one if there is one occurrence. */
  lemma {:induction false} OnlyOccurrence(s: string, needle: string, from: nat, i: nat)
    requires needle != "" && from <= i && MatchesAt(s, needle, i)
    ensures Occurrences(s, needle, from) >= 1
    ensures Occurrences(s, needle, from) == 1 ==> forall k :: from <= k && MatchesAt(s, needle, k) ==> k == i
    decreases i - from
  {
    if from < i { OnlyOccurrence(s, needle, from + 1, i); }
    NoOccurrence(s, needle, from + 1);
  }

  /** No occurrence of the needle begins in `a` and ends in `b`. */
  ghost predicate NoStraddle(a: string, b: string, needle: string) {
    forall k :: 0 <= k < |a| < k + |needle| ==> !MatchesAt(a + b, needle, k)
  }

  lemma MatchLeft(a: string, b: string, needle: string, k: int)
    requires 0 <= k && k + |needle| <= |a|
    ensures MatchesAt(a + b, needle, k) <==> MatchesAt(a, needle, k)
  {
    assert (a + b)[k..k + |needle|] == a[k..k + |needle|];
  }

  lemma MatchRight(a: string, b: string, needle: string, k: nat)
    ensures MatchesAt(a + b, needle, |a| + k) <==> MatchesAt(b, needle, k)
  {
    if k + |needle| <= |b| {
      assert (a + b)[|a| + k..|a| + k + |needle|] == b[k..k + |needle|];
    }
  }

  lemma {:induction false} OccurrencesRight(a: string, b: string, needle: string, k: nat)
    ensures Occurrences(a + b, needle, |a| + k) == Occurrences(b, needle, k)
    decreases |b| - k
  {
    if k < |b| {
      MatchRight(a, b, needle, k);
      OccurrencesRight(a, b, needle, k + 1);
    }
  }

  lemma {:induction false} OccurrencesLeft(a: string, b: string, needle: string, k: nat)
    requires needle != "" && NoStraddle(a, b, needle) && k <= |a|
    ensures Occurrences(a + b, needle, k) == Occurrences(a, needle, k) + Occurrences(b, needle, 0)
    decreases |a| - k
  {
    if k == |a| {
      OccurrencesRight(a, b, needle, 0);
    } else {
      OccurrencesLeft(a, b, needle, k + 1);
      if k + |needle| <= |a| { MatchLeft(a, b, needle, k); }
    }
  }

  lemma OccurrencesAdd(a: string, b: string, needle: string)
    requires needle != "" && NoStraddle(a, b, needle)
    ensures Occurrences(a + b, needle, 0) == Occurrences(a, needle, 0) + Occurrences(b, needle, 0)
  {
    OccurrencesLeft(a, b, needle, 0);
  }

  // ----- replacing -----

  /** GetSubstitution, section 22.1.3.19.1 of ECMA-262, for a string pattern (no captures). */
  function Expand(template: string, matched: string, before: string, after: string): string {
    if |template| < 2 then template
    else if template[0] == '$' && template[1] == '$' then "$" + Expand(template[2..], matched, before, after)
    else if template[0] == '$' && template[1] == '&' then matched + Expand(template[2..], matched, before, after)
    else if template[0] == '$' && template[1] == '`' then before + Expand(template[2..], matched, before, after)
    else if template[0] == '$' && template[1] == '\'' then after + Expand(template[2..], matched, before, after)
    else [template[0]] + Expand(template[1..], matched, before, after)
  }

  /** `s.replace(pattern, template)` with a string pattern: the first occurrence only. */
  function Replace(s: string, pattern: string, template: string): string
    requires pattern != ""
  {
    var i := IndexOf(s, pattern, 0);
    if i == -1 then s
    else s[..i] + Expand(template, pattern, s[..i], s[i + |pattern|..]) + s[i + |pattern|..]
  }

  predicate IsReference(template: string, i: int) {
    0 <= i < |template| - 1 && template[i] == '$' && template[i + 1] in {'$', '&', '`', '\''}
  }

  predicate Plain(template: string) {
    forall i :: 0 <= i < |template| ==> !IsReference(template, i)
  }

  lemma {:induction false} PlainExpands(template: string, matched: string, before: string, after: string)
    requires Plain(template)
    ensures Expand(template, matched, before, after) == template
  {
    if |template| >= 2 {
      assert !IsReference(template, 0);
      forall i | 0 <= i < |template[1..]| ensures !IsReference(template[1..], i) {
        assert !IsReference(template, i + 1);
      }
      PlainExpands(template[1..], matched, before, after);
      assert template == [template[0]] + template[1..];
    }
  }

  /** A reference to the match, with nothing before or after it, shrinks or outgrows the template. */
  lemma {:induction false} ReferenceShows(template: string, matched: string)
    ensures |Expand(template, matched, "", "")| <= |template| || |Expand(template, matched, "", "")| >= |matched|
    ensures !Plain(template) ==>
      |Expand(template, matched, "", "")| < |template| || |Expand(template, matched, "", "")| >= |matched|
  {
    if |template| >= 2 {
      if IsReference(template, 0) {
        ReferenceShows(template[2..], matched);
      } else {
        ReferenceShows(template[1..], matched);
        if !Plain(template) {
          var i :| 0 <= i < |template| && IsReference(template, i);
          assert IsReference(template[1..], i - 1);
        }
      }
    }
  }

  /** Letters, none of them a `$` or a `#`. */
  function Letters(n: nat): (s: string)
    ensures |s| == n && forall k :: 0 <= k < n ==> s[k] == 'x'
  {
    if n == 0 then "" else "x" + Letters(n - 1)
  }

  /** A replacement goes in as it stands, whatever text it replaces, exactly if it holds no `$` reference. */
  lemma VerbatimExactly(template: string)
    ensures (forall matched, before, after :: matched != "" ==> Expand(template, matched, before, after) == template)
       <==> Plain(template)
  {
    if Plain(template) {
      forall matched, before, after ensures Expand(template, matched, before, after) == template {
        PlainExpands(template, matched, before, after);
      }
    } else {
      var matched := Letters(|template| + 1);
      ReferenceShows(template, matched);
      assert matched != "" && Expand(template, matched, "", "") != template;
    }
  }

  function Escape(c: char): string {
    if c == '$' then "$$" else [c]
  }

  /** The text with every `$` doubled. */
  function Escaped(text: string): string {
    if text == "" then ""
    else Escape(text[0]) + Escaped(text[1..])
  }

  /** A doubled `$` stands for one, and everything else that is no reference for itself. */
  lemma {:induction false} EscapedExpands(text: string, rest: string, matched: string, before: string, after: string)
    ensures Expand(Escaped(text) + rest, matched, before, after) == text + Expand(rest, matched, before, after)
    decreases |text|
  {
    var e := Expand(rest, matched, before, after);
    if text == "" {
      assert Escaped(text) + rest == rest && text + e == e;
    } else {
      var c, t := text[0], text[1..];
      var tail := Escaped(t) + rest;
      EscapedExpands(t, rest, matched, before, after);
      FirstExpands(c, tail, matched, before, after);
      FirstEscaped(text, rest, tail);
      ConcatAssoc([c], t, e);
      assert text == [c] + t;
    }
  }

  lemma FirstEscaped(text: string, rest: string, tail: string)
    requires text != "" && tail == Escaped(text[1..]) + rest
    ensures Escaped(text) + rest == Escape(text[0]) + tail
  {
  }

  lemma FirstExpands(c: char, tail: string, matched: string, before: string, after: string)
    ensures Expand(Escape(c) + tail, matched, before, after) == [c] + Expand(tail, matched, before, after)
  {
    if c == '$' {
      DollarsExpand(tail, matched, before, after);
    } else {
      OrdinaryExpands(c, tail, matched, before, after);
    }
  }

  lemma DollarsExpand(tail: string, matched: string, before: string, after: string)
    ensures Expand("$$" + tail, matched, before, after) == "$" + Expand(tail, matched, before, after)
  {
    assert ("$$" + tail)[2..] == tail;
  }

  lemma OrdinaryExpands(c: char, tail: string, matched: string, before: string, after: string)
    requires c != '$'
    ensures Expand([c] + tail, matched, before, after) == [c] + Expand(tail, matched, before, after)
  {
    var template := [c] + tail;
    assert template[1..] == tail;
    if tail == "" { assert template == [c]; }
  }

  /**
   * What the references stand for, between texts that hold none: the match, what is before it,
   * what is after it.
   */
  lemma ReferencesExpand(head: string, tail: string, matched: string, before: string, after: string)
    ensures Expand(Escaped(head) + ("$&" + Escaped(tail)), matched, before, after) == head + (matched + tail)
    ensures Expand(Escaped(head) + ("$`" + Escaped(tail)), matched, before, after) == head + (before + tail)
    ensures Expand(Escaped(head) + ("$'" + Escaped(tail)), matched, before, after) == head + (after + tail)
  {
    EscapedExpands(tail, "", matched, before, after);
    assert Escaped(tail) + "" == Escaped(tail) && tail + "" == tail;
    EscapedExpands(head, "$&" + Escaped(tail), matched, before, after);
    EscapedExpands(head, "$`" + Escaped(tail), matched, before, after);
    EscapedExpands(head, "$'" + Escaped(tail), matched, before, after);
    assert ("$&" + Escaped(tail))[2..] == Escaped(tail);
    assert ("$`" + Escaped(tail))[2..] == Escaped(tail);
    assert ("$'" + Escaped(tail))[2..] == Escaped(tail);
  }
}
