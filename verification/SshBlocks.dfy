/**
 * The block of a deployment inside the user's SSH config (src/remote/sshConfig.ts): found by
 * its two markers, replaced in place or appended, in arbitrary surrounding text.
 */
module SshBlocks {
  import opened Basics
  import opened Text
  import opened Substrings

  datatype BadFormat = Unterminated | Repeated(count: nat) | EndBeforeStart

  function Start(safeHostname: string): string {
    "# --- START CODER VSCODE " + safeHostname + " ---"
  }

  function End(safeHostname: string): string {
    "# --- END CODER VSCODE " + safeHostname + " ---"
  }

  /** `getBlock`: a thrown error is `Err`, no block `Ok(None)`. */
  function GetBlock(raw: string, h: string): (r: Result<Option<string>, BadFormat>)
    ensures r.Ok? && r.value.Some? ==> r.value.value != ""
  {
    BlockBetween(raw, Start(h), End(h))
  }

  function BlockBetween(raw: string, st: string, en: string): (r: Result<Option<string>, BadFormat>)
    requires st != "" && en != ""
    ensures r.Ok? && r.value.Some? ==> r.value.value != ""
  {
    Decide(raw, CountFrom(raw, st, 0), CountFrom(raw, en, 0), IndexOf(raw, st, 0), IndexOf(raw, en, 0), |en|)
  }

  function Decide(raw: string, starts: nat, ends: nat, i: int, j: int, length: nat)
    : (r: Result<Option<string>, BadFormat>)
    requires i >= -1 && (j == -1 || 0 <= j <= j + length <= |raw|) && length > 0
    ensures r.Ok? && r.value.Some? ==> r.value.value != ""
  {
    if starts != ends then Err(Unterminated)
    else if starts > 1 then Err(Repeated(starts))
    else if i == -1 || j == -1 then Ok(None)
    else if j < i then Err(EndBeforeStart)
    else Ok(Some(raw[i..j + length]))
  }

  function Append(raw: string, block: string): string {
    if raw == "" then block else TrimEnd(raw) + "\n\n" + block
  }

  /** What `update` leaves in `raw`. */
  function Update(raw: string, h: string, block: string): Result<string, BadFormat> {
    var found := GetBlock(raw, h);
    if found.Err? then Err(found.error)
    else if found.value.None? then Ok(Append(raw, block))
    else Ok(Replace(raw, found.value.value, block))
  }

  // ----- markers -----

  predicate SafeHost(h: string) {
    '#' !in h && ' ' !in h && '\n' !in h
  }

  /** A hash at the start and nowhere else, a dash at the end, and no line break. */
  predicate IsMarker(m: string) {
    && StartsOnce(m) && m[0] == '#' && m[|m| - 1] == '-' && '\n' !in m
  }

  /** Neither is a proper beginning of the other. */
  predicate Apart(m: string, n: string) {
    (m <= n || n <= m) ==> m == n
  }

  lemma MarkerShape(head: string, h: string)
    requires SafeHost(h) && |head| > 0 && head[0] == '#' && '\n' !in head
    requires forall k :: 0 < k < |head| ==> head[k] != '#'
    ensures IsMarker(head + h + " ---")
  {
  }

  lemma AreMarkers(h: string)
    requires SafeHost(h)
    ensures IsMarker(Start(h)) && IsMarker(End(h))
  {
    MarkerShape("# --- START CODER VSCODE ", h);
    MarkerShape("# --- END CODER VSCODE ", h);
  }

  lemma SameHeadApart(head: string, h1: string, h2: string)
    requires SafeHost(h1) && SafeHost(h2)
    ensures Apart(head + h1 + " ---", head + h2 + " ---")
    ensures head + h1 + " ---" == head + h2 + " ---" ==> h1 == h2
  {
    var m, n := head + h1 + " ---", head + h2 + " ---";
    assert m[|head| + |h1|] == ' ' && n[|head| + |h2|] == ' ';
    assert forall k :: 0 <= k < |h1| ==> m[|head| + k] == h1[k];
    assert forall k :: 0 <= k < |h2| ==> n[|head| + k] == h2[k];
  }

  lemma StartEndApart(h1: string, h2: string)
    ensures Apart(Start(h1), End(h2)) && Start(h1) != End(h2)
  {
    assert Start(h1)[6] == 'S' && End(h2)[6] == 'E';
  }

  lemma MarkersApart(h1: string, h2: string)
    requires SafeHost(h1) && SafeHost(h2)
    ensures Apart(Start(h1), Start(h2)) && Apart(End(h1), End(h2))
    ensures Apart(Start(h1), End(h2)) && Apart(End(h1), Start(h2))
    ensures h1 != h2 ==> Start(h1) != Start(h2) && End(h1) != End(h2)
    ensures Start(h1) != End(h2) && End(h1) != Start(h2)
  {
    SameHeadApart("# --- START CODER VSCODE ", h1, h2);
    SameHeadApart("# --- END CODER VSCODE ", h1, h2);
    StartEndApart(h1, h2);
    StartEndApart(h2, h1);
  }

  // ----- no marker begins in one part and ends in the next -----

  lemma HashJunction(a: string, b: string, n: string)
    requires IsMarker(n) && b != "" && b[0] == '#'
    ensures NoStraddle(a, b, n)
  {
    forall k | 0 <= k < |a| < k + |n| ensures !MatchesAt(a + b, n, k) {
      MatchChar(a + b, n, k, |a| - k);
      assert (a + b)[|a|] == '#';
    }
  }

  lemma MatchesPrefix(s: string, m: string, n: string, k: int)
    requires MatchesAt(s, m, k) && |m| <= |n|
    ensures MatchesAt(s, n, k) ==> m <= n
  {
    if MatchesAt(s, n, k) { assert s[k..k + |n|][..|m|] == s[k..k + |m|]; }
  }

  lemma MarkerJunction(x: string, m: string, y: string, n: string)
    requires IsMarker(m) && IsMarker(n) && Apart(m, n)
    ensures NoStraddle(x + m, y, n)
  {
    var s := x + m + y;
    forall k | 0 <= k < |x + m| < k + |n| ensures !MatchesAt(s, n, k) {
      if k < |x| {
        MatchChar(s, n, k, |x| - k);
        assert s[|x|] == '#';
      } else if k == |x| {
        assert s[k..k + |m|] == m;
        MatchesPrefix(s, m, n, k);
      } else {
        MatchChar(s, n, k, 0);
        assert s[k] == m[k - |x|] != '#';
      }
    }
  }

  lemma MarkerInMarker(m: string, n: string)
    requires IsMarker(m) && IsMarker(n) && Apart(m, n)
    ensures Occurrences(m, n, 0) == if m == n then 1 else 0
  {
    forall k | 1 <= k ensures !MatchesAt(m, n, k) { MatchChar(m, n, k, 0); }
    NoOccurrence(m, n, 1);
    assert MatchesAt(m, n, 0) <==> m == n;
  }

  function Block(st: string, body: string, en: string): string {
    st + body + en
  }

  /** Between any two texts, a block adds the markers of its body and its own two. */
  lemma BlockCounts(p: string, st: string, body: string, en: string, s: string, n: string)
    requires IsMarker(st) && IsMarker(en) && IsMarker(n) && Apart(st, n) && Apart(en, n)
    ensures Occurrences(Block(st, body, en), n, 0)
         == (if st == n then 1 else 0) + Occurrences(body, n, 0) + (if en == n then 1 else 0)
    ensures NoStraddle(p, Block(st, body, en), n) && NoStraddle(p + Block(st, body, en), s, n)
    ensures Occurrences(p + Block(st, body, en) + s, n, 0)
         == Occurrences(p, n, 0) + Occurrences(Block(st, body, en), n, 0) + Occurrences(s, n, 0)
  {
    BlockAlone(st, body, en, n);
    var b := Block(st, body, en);
    HashJunction(p, b, n);
    OccurrencesAdd(p, b, n);
    MarkerJunction(p + (st + body), en, s, n);
    assert p + b == p + (st + body) + en;
    OccurrencesAdd(p + b, s, n);
  }

  lemma BlockAlone(st: string, body: string, en: string, n: string)
    requires IsMarker(st) && IsMarker(en) && IsMarker(n) && Apart(st, n) && Apart(en, n)
    ensures Occurrences(Block(st, body, en), n, 0)
         == (if st == n then 1 else 0) + Occurrences(body, n, 0) + (if en == n then 1 else 0)
  {
    MarkerJunction("", st, body, n);
    assert "" + st == st;
    OccurrencesAdd(st, body, n);
    HashJunction(st + body, en, n);
    OccurrencesAdd(st + body, en, n);
    MarkerInMarker(st, n);
    MarkerInMarker(en, n);
  }

  // ----- finding a block -----

  /** Neither marker occurs in the text. */
  predicate Lacks(text: string, st: string, en: string) {
    Occurrences(text, st, 0) == 0 && Occurrences(text, en, 0) == 0
  }

  predicate IsPair(st: string, en: string) {
    IsMarker(st) && IsMarker(en) && Apart(st, en) && st != en
  }

  lemma ArePair(h: string)
    requires SafeHost(h)
    ensures IsPair(Start(h), End(h))
  {
    AreMarkers(h);
    MarkersApart(h, h);
  }

  lemma UniqueIndex(s: string, needle: string, i: nat)
    requires needle != "" && MatchesAt(s, needle, i) && Occurrences(s, needle, 0) == 1
    ensures IndexOf(s, needle, 0) == i
  {
    OnlyOccurrence(s, needle, 0, i);
  }

  lemma FoundAt(raw: string, st: string, en: string, i: nat, j: nat)
    requires st != "" && en != "" && i <= j && MatchesAt(raw, st, i) && MatchesAt(raw, en, j)
    requires CountFrom(raw, st, 0) == Occurrences(raw, st, 0) == 1
    requires CountFrom(raw, en, 0) == Occurrences(raw, en, 0) == 1
    ensures BlockBetween(raw, st, en) == Ok(Some(raw[i..j + |en|]))
  {
    UniqueIndex(raw, st, i);
    UniqueIndex(raw, en, j);
  }

  lemma BlockSits(p: string, st: string, body: string, en: string, s: string)
    ensures var raw := p + Block(st, body, en) + s;
            var i, j := |p|, |p| + |st| + |body|;
            MatchesAt(raw, st, i) && MatchesAt(raw, en, j) && raw[i..j + |en|] == Block(st, body, en)
  {
    var raw := p + Block(st, body, en) + s;
    var i, j := |p|, |p| + |st| + |body|;
    assert raw[i..i + |st|] == st && raw[j..j + |en|] == en;
  }

  lemma BlockFound(p: string, st: string, body: string, en: string, s: string)
    requires IsPair(st, en)
    requires var raw := p + Block(st, body, en) + s;
             && CountFrom(raw, st, 0) == Occurrences(raw, st, 0) == 1
             && CountFrom(raw, en, 0) == Occurrences(raw, en, 0) == 1
    ensures BlockBetween(p + Block(st, body, en) + s, st, en) == Ok(Some(Block(st, body, en)))
  {
    BlockSits(p, st, body, en, s);
    FoundAt(p + Block(st, body, en) + s, st, en, |p|, |p| + |st| + |body|);
  }

  lemma FoundOnce(raw: string, st: string, en: string, block: string)
    requires st != "" && en != "" && BlockBetween(raw, st, en) == Ok(Some(block))
    ensures CountFrom(raw, st, 0) <= 1 && CountFrom(raw, en, 0) <= 1
  {
  }

  /** A block between texts without its markers is found exactly if its body has none either. */
  lemma BlockFoundExactly(p: string, st: string, body: string, en: string, s: string)
    requires IsPair(st, en) && Lacks(p, st, en) && Lacks(s, st, en)
    ensures BlockBetween(p + Block(st, body, en) + s, st, en) == Ok(Some(Block(st, body, en))) <==> Lacks(body, st, en)
  {
    var raw, block := p + Block(st, body, en) + s, Block(st, body, en);
    BlockCounts(p, st, body, en, s, st);
    BlockCounts(p, st, body, en, s, en);
    CountsEveryOccurrence(raw, st, 0);
    CountsEveryOccurrence(raw, en, 0);
    if Lacks(body, st, en) {
      BlockFound(p, st, body, en, s);
    }
    if BlockBetween(raw, st, en) == Ok(Some(block)) {
      FoundOnce(raw, st, en, block);
    }
  }

  /**
   * What looking for a block answers, by how often its markers occur: an error if unequally
   * often, or more than once, or the end before the start; nothing if they do not occur; and
   * otherwise what is between and including them.
   */
  lemma BlockDecidedExactly(raw: string, st: string, en: string)
    requires IsPair(st, en)
    ensures var starts, ends, r := Occurrences(raw, st, 0), Occurrences(raw, en, 0), BlockBetween(raw, st, en);
            && (r == Err(Unterminated) <==> starts != ends)
            && (forall n: nat :: r == Err(Repeated(n)) <==> starts == ends == n && n > 1)
            && (r == Err(EndBeforeStart) <==> starts == ends == 1 && IndexOf(raw, en, 0) < IndexOf(raw, st, 0))
            && (r == Ok(None) <==> starts == ends == 0)
            && (r.Ok? && r.value.Some? <==> starts == ends == 1 && IndexOf(raw, st, 0) <= IndexOf(raw, en, 0))
  {
    CountsEveryOccurrence(raw, st, 0);
    CountsEveryOccurrence(raw, en, 0);
    OccursSomewhere(raw, st);
    OccursSomewhere(raw, en);
  }

  lemma OccursSomewhere(raw: string, n: string)
    requires n != ""
    ensures Occurrences(raw, n, 0) == 0 <==> IndexOf(raw, n, 0) == -1
  {
    NoOccurrence(raw, n, 0);
  }

  /** A marker of a found block is the only one of its kind. */
  lemma OnlyMarker(raw: string, n: string)
    requires StartsOnce(n) && CountFrom(raw, n, 0) <= 1 && IndexOf(raw, n, 0) != -1
    ensures forall k :: MatchesAt(raw, n, k) ==> k == IndexOf(raw, n, 0)
  {
    CountsEveryOccurrence(raw, n, 0);
    OnlyOccurrence(raw, n, 0, IndexOf(raw, n, 0));
  }

  lemma BlockParts(raw: string, st: string, en: string) returns (i: nat, j: nat)
    requires IsPair(st, en) && BlockBetween(raw, st, en).Ok? && BlockBetween(raw, st, en).value.Some?
    ensures i == IndexOf(raw, st, 0) && j == IndexOf(raw, en, 0)
    ensures i + |st| <= j && MatchesAt(raw, st, i) && MatchesAt(raw, en, j)
    ensures BlockBetween(raw, st, en).value.value == raw[i..j + |en|] == Block(st, raw[i + |st|..j], en)
  {
    i, j := IndexOf(raw, st, 0), IndexOf(raw, en, 0);
    BetweenMarkers(raw, st, en, i, j);
    MarkersDisjoint(raw, st, en, i, j);
    ThreeSlices(raw, i, i + |st|, j, j + |en|);
  }

  lemma BetweenMarkers(raw: string, st: string, en: string, i: int, j: int)
    requires st != "" && en != "" && i == IndexOf(raw, st, 0) && j == IndexOf(raw, en, 0)
    requires BlockBetween(raw, st, en).Ok? && BlockBetween(raw, st, en).value.Some?
    ensures 0 <= i <= j && MatchesAt(raw, st, i) && MatchesAt(raw, en, j)
    ensures BlockBetween(raw, st, en).value.value == raw[i..j + |en|]
  {
  }

  lemma ThreeSlices(s: string, i: nat, j: nat, k: nat, l: nat)
    requires i <= j <= k <= l <= |s|
    ensures s[i..l] == s[i..j] + s[j..k] + s[k..l]
  {
  }

  lemma MarkersDisjoint(raw: string, st: string, en: string, i: nat, j: nat)
    requires IsPair(st, en) && MatchesAt(raw, st, i) && MatchesAt(raw, en, j) && i <= j
    ensures i + |st| <= j
  {
    if i == j {
      MatchesPrefix(raw, st, en, i);
      MatchesPrefix(raw, en, st, i);
    } else {
      MatchChar(raw, st, i, j - i);
      MatchChar(raw, en, j, 0);
    }
  }

  lemma CutLacks(raw: string, n: string, i: nat, j: nat)
    requires n != "" && i <= j <= |raw|
    requires forall k :: MatchesAt(raw, n, k) ==> i <= k < j
    ensures Occurrences(raw[..i], n, 0) == 0 && Occurrences(raw[j..], n, 0) == 0
  {
    assert raw[..i] + raw[i..] == raw && raw[..j] + raw[j..] == raw;
    HeadLacks(raw[..i], raw[i..], n);
    TailLacks(raw[..j], raw[j..], n);
  }

  lemma HeadLacks(a: string, b: string, n: string)
    requires n != "" && forall k :: MatchesAt(a + b, n, k) ==> |a| <= k
    ensures Occurrences(a, n, 0) == 0
  {
    forall k ensures !MatchesAt(a, n, k) {
      if 0 <= k && k + |n| <= |a| { MatchLeft(a, b, n, k); }
    }
    NoOccurrence(a, n, 0);
  }

  lemma TailLacks(a: string, b: string, n: string)
    requires n != "" && forall k :: MatchesAt(a + b, n, k) ==> k < |a|
    ensures Occurrences(b, n, 0) == 0
  {
    forall k: nat ensures !MatchesAt(b, n, k) { MatchRight(a, b, n, k); }
    NoOccurrence(b, n, 0);
  }

  lemma BlockIndex(raw: string, st: string, b: string, i: nat)
    requires st != "" && st <= b && MatchesAt(raw, b, i) && forall k :: MatchesAt(raw, st, k) ==> k == i
    ensures IndexOf(raw, b, 0) == i
  {
    forall k | 0 <= k < i ensures !MatchesAt(raw, b, k) { MatchesPrefixOf(raw, st, b, k); }
    IndexOfIs(raw, b, 0, i);
  }

  lemma MatchesPrefixOf(s: string, m: string, n: string, k: int)
    requires m <= n
    ensures MatchesAt(s, n, k) ==> MatchesAt(s, m, k)
  {
    if MatchesAt(s, n, k) { assert s[k..k + |m|] == s[k..k + |n|][..|m|]; }
  }

  /** The text before and after a block that was found. */
  function Around(raw: string, st: string, en: string): (string, string)
    requires st != "" && en != "" && BlockBetween(raw, st, en).Ok? && BlockBetween(raw, st, en).value.Some?
  {
    (raw[..IndexOf(raw, st, 0)], raw[IndexOf(raw, en, 0) + |en|..])
  }

  lemma AroundBlock(raw: string, st: string, en: string)
    requires IsPair(st, en) && BlockBetween(raw, st, en).Ok? && BlockBetween(raw, st, en).value.Some?
    ensures var (p, s) := Around(raw, st, en); var b := BlockBetween(raw, st, en).value.value;
            && raw == p + b + s && Lacks(p, st, en) && Lacks(s, st, en)
            && IndexOf(raw, b, 0) == |p| && raw[|p| + |b|..] == s
  {
    var b := BlockBetween(raw, st, en).value.value;
    var i, j := BlockParts(raw, st, en);
    FoundOnce(raw, st, en, b);
    CutTwice(raw, i, j + |en|);
    OnlyMarker(raw, st);
    BlockIndex(raw, st, b, i);
    CutLacks(raw, st, i, j + |en|);
    OnlyMarker(raw, en);
    CutLacks(raw, en, i, j + |en|);
  }

  lemma CutTwice(s: string, i: nat, j: nat)
    requires i <= j <= |s|
    ensures s == s[..i] + s[i..j] + s[j..]
  {
  }

  /** Trimming and appending line breaks neither makes nor destroys a marker. */
  lemma TrimKeepsMarkers(raw: string, n: string, tail: string)
    requires IsMarker(n) && (tail == "" || tail[0] == '\n')
    ensures NoStraddle(TrimEnd(raw), tail, n) && NoStraddle(TrimEnd(raw), raw[|TrimEnd(raw)|..], n)
  {
    var t := TrimEnd(raw);
    TrimEndCuts(raw);
    forall k | 0 <= k < |t| < k + |n| ensures !MatchesAt(t + tail, n, k) {
      if tail != "" {
        MatchChar(t + tail, n, k, |t| - k);
        assert (t + tail)[|t|] == '\n';
      }
    }
    assert t + raw[|t|..] == raw;
    forall k | 0 <= k < |t| < k + |n| ensures !MatchesAt(raw, n, k) {
      MatchChar(raw, n, k, |n| - 1);
    }
  }

  // ----- the update -----

  /** The text before and after the block that `update` writes. */
  function Placement(raw: string, h: string): (string, string)
    requires GetBlock(raw, h).Ok?
  {
    if GetBlock(raw, h).value.None? then (Append(raw, ""), "") else Around(raw, Start(h), End(h))
  }

  lemma AppendLacks(raw: string, n: string)
    requires IsMarker(n) && Occurrences(raw, n, 0) == 0
    ensures Occurrences(Append(raw, ""), n, 0) == 0
  {
    var t := TrimEnd(raw);
    TrimKeepsMarkers(raw, n, "\n\n");
    TrimKeepsMarkers(raw, n, "");
    OccurrencesAdd(t, raw[|t|..], n);
    OccurrencesAdd(t, "\n\n", n);
    forall k ensures !MatchesAt("\n\n", n, k) { MatchChar("\n\n", n, k, 0); }
    NoOccurrence("\n\n", n, 0);
    assert t + raw[|t|..] == raw && t + "\n\n" + "" == t + "\n\n";
  }

  lemma NoneLacks(raw: string, st: string, en: string)
    requires IsPair(st, en) && BlockBetween(raw, st, en) == Ok(None)
    ensures Lacks(raw, st, en)
  {
    CountsEveryOccurrence(raw, st, 0);
    CountsEveryOccurrence(raw, en, 0);
  }

  lemma PlacementLacks(raw: string, h: string)
    requires SafeHost(h) && GetBlock(raw, h).Ok?
    ensures Lacks(Placement(raw, h).0, Start(h), End(h)) && Lacks(Placement(raw, h).1, Start(h), End(h))
  {
    ArePair(h);
    if GetBlock(raw, h).value.None? {
      NoneLacks(raw, Start(h), End(h));
      AppendLacks(raw, Start(h));
      AppendLacks(raw, End(h));
    } else {
      AroundBlock(raw, Start(h), End(h));
    }
  }

  /** The block goes in as it stands: it is appended, or it holds no `$` reference. */
  predicate Verbatim(raw: string, h: string, block: string) {
    GetBlock(raw, h) == Ok(None) || Plain(block)
  }

  /**
   * `update` rewrites text + old block + text to text + new block + text, or appends after
   * trimming, as long as a new block that replaces one holds no `$` reference. An error
   * changes nothing.
   */
  lemma UpdateRewrites(raw: string, h: string, block: string)
    requires SafeHost(h) && GetBlock(raw, h).Ok? && Verbatim(raw, h, block)
    ensures var (p, s) := Placement(raw, h);
            && Update(raw, h, block) == Ok(p + block + s)
            && (GetBlock(raw, h).value.Some? ==> raw == p + GetBlock(raw, h).value.value + s)
            && (GetBlock(raw, h).value.None? ==> p == Append(raw, "") && s == "")
  {
    var (p, s) := Placement(raw, h);
    if GetBlock(raw, h).value.None? {
      assert TrimEnd(raw) + "\n\n" + "" + block + "" == TrimEnd(raw) + "\n\n" + block;
      assert "" + block + "" == block;
    } else {
      var b := GetBlock(raw, h).value.value;
      ArePair(h);
      AroundBlock(raw, Start(h), End(h));
      assert raw[..|p|] == p;
      PlainExpands(block, b, p, s);
    }
  }

  /** A file that is nothing but the host's block, with a body of letters. */
  function LettersBlock(h: string, n: nat): string {
    Block(Start(h), Letters(n), End(h))
  }

  lemma LettersBlockFound(h: string, n: nat)
    requires SafeHost(h)
    ensures GetBlock(LettersBlock(h, n), h) == Ok(Some(LettersBlock(h, n)))
  {
    ArePair(h);
    forall k ensures !MatchesAt(Letters(n), Start(h), k) { MatchChar(Letters(n), Start(h), k, 0); }
    forall k ensures !MatchesAt(Letters(n), End(h), k) { MatchChar(Letters(n), End(h), k, 0); }
    NoOccurrence(Letters(n), Start(h), 0);
    NoOccurrence(Letters(n), End(h), 0);
    BlockFoundExactly("", Start(h), Letters(n), End(h), "");
    assert "" + LettersBlock(h, n) + "" == LettersBlock(h, n);
  }

  lemma ReplaceWhole(raw: string, block: string)
    requires raw != ""
    ensures Replace(raw, raw, block) == Expand(block, raw, "", "")
  {
    assert raw[0..0 + |raw|] == raw;
    IndexOfIs(raw, raw, 0, 0);
    var e := Expand(block, raw, "", "");
    assert raw[..0] == "" && raw[|raw|..] == "" && "" + e + "" == e;
  }

  lemma NothingAround(raw: string, h: string)
    requires SafeHost(h) && GetBlock(raw, h) == Ok(Some(raw))
    ensures Placement(raw, h) == ("", "")
  {
    ArePair(h);
    AroundBlock(raw, Start(h), End(h));
    var (p, s) := Around(raw, Start(h), End(h));
    assert |raw| == |p| + |raw| + |s|;
  }

  /** Over such a file `update` leaves the expansion of the new block's references. */
  lemma LettersReplaced(h: string, n: nat, block: string)
    requires SafeHost(h)
    ensures Update(LettersBlock(h, n), h, block) == Ok(Expand(block, LettersBlock(h, n), "", ""))
    ensures Placement(LettersBlock(h, n), h) == ("", "")
  {
    LettersBlockFound(h, n);
    ReplaceWhole(LettersBlock(h, n), block);
    NothingAround(LettersBlock(h, n), h);
  }

  /** `update` puts the block in as it stands. */
  predicate PutsIn(raw: string, h: string, block: string) {
    GetBlock(raw, h).Ok? ==> Update(raw, h, block) == Ok(Placement(raw, h).0 + block + Placement(raw, h).1)
  }

  /** A block with a reference is not put in as it stands where there is a block to replace. */
  lemma ReferenceNotPutIn(h: string, block: string) returns (raw: string)
    requires SafeHost(h) && !Plain(block)
    ensures GetBlock(raw, h) == Ok(Some(raw)) && Update(raw, h, block) != Ok(block) && !PutsIn(raw, h, block)
  {
    var n := |block| + 1;
    raw := LettersBlock(h, n);
    LettersBlockFound(h, n);
    LettersReplaced(h, n, block);
    LongerThanLetters(h, n);
    ReferenceShows(block, raw);
    NotPutIn(raw, h, block, Expand(block, raw, "", ""));
  }

  lemma LongerThanLetters(h: string, n: nat)
    ensures |LettersBlock(h, n)| >= n
  {
  }

  lemma NotPutIn(raw: string, h: string, block: string, written: string)
    requires GetBlock(raw, h).Ok? && Update(raw, h, block) == Ok(written) && Placement(raw, h) == ("", "")
    requires |written| != |block|
    ensures Update(raw, h, block) != Ok(block) && !PutsIn(raw, h, block)
  {
    assert "" + block + "" == block;
  }

  /**
   * A block goes into every config as it stands if and only if it holds no `$` reference:
   * with one, a config that already has a block of the host is rewritten to something else.
   */
  lemma UpdateVerbatimExactly(h: string, block: string)
    requires SafeHost(h)
    ensures (forall raw :: PutsIn(raw, h, block)) <==> Plain(block)
  {
    if Plain(block) {
      forall raw ensures PutsIn(raw, h, block) {
        if GetBlock(raw, h).Ok? { UpdateRewrites(raw, h, block); }
      }
    } else {
      var raw := ReferenceNotPutIn(h, block);
    }
  }

  /** Afterwards the host's markers are those of the new block: once each exactly if its body has none. */
  lemma MarkersOnceExactly(raw: string, h: string, body: string)
    requires SafeHost(h) && GetBlock(raw, h).Ok? && Verbatim(raw, h, Block(Start(h), body, End(h)))
    ensures var block := Block(Start(h), body, End(h)); var updated := Update(raw, h, block).value;
            && CountFrom(updated, Start(h), 0) == 1 + CountFrom(body, Start(h), 0)
            && CountFrom(updated, End(h), 0) == 1 + CountFrom(body, End(h), 0)
            && (GetBlock(updated, h) == Ok(Some(block)) <==> Lacks(body, Start(h), End(h)))
  {
    var st, en := Start(h), End(h);
    ArePair(h);
    UpdateRewrites(raw, h, Block(st, body, en));
    PlacementLacks(raw, h);
    var (p, s) := Placement(raw, h);
    PlacedCounts(p, st, body, en, s);
    BlockFoundExactly(p, st, body, en, s);
  }

  lemma PlacedCounts(p: string, st: string, body: string, en: string, s: string)
    requires IsPair(st, en) && Lacks(p, st, en) && Lacks(s, st, en)
    ensures CountFrom(p + Block(st, body, en) + s, st, 0) == 1 + CountFrom(body, st, 0)
    ensures CountFrom(p + Block(st, body, en) + s, en, 0) == 1 + CountFrom(body, en, 0)
  {
    var text := p + Block(st, body, en) + s;
    BlockCounts(p, st, body, en, s, st);
    BlockCounts(p, st, body, en, s, en);
    CountsEveryOccurrence(text, st, 0);
    CountsEveryOccurrence(text, en, 0);
    CountsEveryOccurrence(body, st, 0);
    CountsEveryOccurrence(body, en, 0);
  }

  lemma MarkedBodyFails(text: string, st: string, en: string, body: string)
    requires st != "" && en != "" && StartsOnce(st) && StartsOnce(en) && !Lacks(body, st, en)
    requires CountFrom(text, st, 0) == 1 + CountFrom(body, st, 0) && CountFrom(text, en, 0) == 1 + CountFrom(body, en, 0)
    ensures BlockBetween(text, st, en).Err?
  {
    CountsEveryOccurrence(body, st, 0);
    CountsEveryOccurrence(body, en, 0);
  }

  /** Writing the same block again changes nothing, unless its body holds a marker: then it fails. */
  lemma UpdateIdempotentExactly(raw: string, h: string, body: string)
    requires SafeHost(h) && GetBlock(raw, h).Ok? && Plain(Block(Start(h), body, End(h)))
    ensures var block := Block(Start(h), body, End(h));
            Update(Update(raw, h, block).value, h, block) == Update(raw, h, block) <==> Lacks(body, Start(h), End(h))
  {
    var block := Block(Start(h), body, End(h));
    UpdateRewrites(raw, h, block);
    MarkersOnceExactly(raw, h, body);
    var updated := Update(raw, h, block).value;
    if Lacks(body, Start(h), End(h)) {
      WrittenAgain(raw, h, body);
    } else {
      ArePair(h);
      MarkedBodyFails(updated, Start(h), End(h), body);
    }
  }

  lemma WrittenAgain(raw: string, h: string, body: string)
    requires SafeHost(h) && GetBlock(raw, h).Ok? && Plain(Block(Start(h), body, End(h))) && Lacks(body, Start(h), End(h))
    ensures var block := Block(Start(h), body, End(h));
            Update(Update(raw, h, block).value, h, block) == Update(raw, h, block)
  {
    var block := Block(Start(h), body, End(h));
    UpdateRewrites(raw, h, block);
    MarkersOnceExactly(raw, h, body);
    UpdateRewrites(Update(raw, h, block).value, h, block);
  }

  // ----- other hosts' blocks -----

  lemma FirstInTwo(a: string, b: string, n: string)
    requires n != "" && NoStraddle(a, b, n)
    ensures IndexOf(a + b, n, 0)
         == if IndexOf(a, n, 0) != -1 then IndexOf(a, n, 0)
            else if IndexOf(b, n, 0) != -1 then |a| + IndexOf(b, n, 0) else -1
  {
    var i, j := IndexOf(a, n, 0), IndexOf(b, n, 0);
    forall k | 0 <= k < |a| ensures MatchesAt(a + b, n, k) ==> MatchesAt(a, n, k) {
      if k + |n| <= |a| { MatchLeft(a, b, n, k); }
    }
    forall k: nat ensures MatchesAt(a + b, n, |a| + k) <==> MatchesAt(b, n, k) { MatchRight(a, b, n, k); }
    if i != -1 {
      MatchLeft(a, b, n, i);
      IndexOfIs(a + b, n, 0, i);
    } else if j != -1 {
      forall k | |a| <= k < |a| + j ensures !MatchesAt(a + b, n, k) { assert !MatchesAt(b, n, k - |a|); }
      IndexOfIs(a + b, n, 0, |a| + j);
    } else {
      forall k | 0 <= k ensures !MatchesAt(a + b, n, k) {
        if k >= |a| { assert !MatchesAt(b, n, k - |a|); }
      }
    }
  }

  /** No occurrence of the needle touches the middle part. */
  ghost predicate Hole(p: string, b: string, s: string, n: string) {
    n != "" && NoStraddle(p, b, n) && NoStraddle(p + b, s, n) && Occurrences(b, n, 0) == 0
  }

  lemma HoleFacts(p: string, b: string, s: string, n: string)
    requires Hole(p, b, s, n) && StartsOnce(n)
    ensures CountFrom(p + b + s, n, 0) == CountFrom(p, n, 0) + CountFrom(s, n, 0)
    ensures IndexOf(p + b + s, n, 0)
         == Seen(IndexOf(p, n, 0), IndexOf(s, n, 0), |p + b|)
  {
    OccurrencesAdd(p, b, n);
    OccurrencesAdd(p + b, s, n);
    CountsEveryOccurrence(p + b + s, n, 0);
    CountsEveryOccurrence(p, n, 0);
    CountsEveryOccurrence(s, n, 0);
    NoOccurrence(b, n, 0);
    FirstInTwo(p, b, n);
    FirstInTwo(p + b, s, n);
  }

  /** Where something first found at `x` in the text before or at `y` in the text after is in the whole. */
  function Seen(x: int, y: int, offset: nat): int {
    if x != -1 then x else if y != -1 then offset + y else -1
  }

  /** What is found does not depend on the middle part, unless the markers enclose it. */
  lemma DecideAround(p: string, b1: string, b2: string, s: string, starts: nat, ends: nat,
                     i: int, j: int, k: int, l: int, length: nat)
    requires -1 <= i && -1 <= k && length > 0
    requires (j == -1 || 0 <= j <= j + length <= |p|) && (l == -1 || 0 <= l <= l + length <= |s|)
    requires starts == ends == 1 ==> !(i != -1 && j == -1 && l != -1)
    requires starts == 0 ==> i == -1 && k == -1
    ensures Decide(p + b1 + s, starts, ends, Seen(i, k, |p + b1|), Seen(j, l, |p + b1|), length)
         == Decide(p + b2 + s, starts, ends, Seen(i, k, |p + b2|), Seen(j, l, |p + b2|), length)
  {
    if starts == ends == 1 {
      if 0 <= i <= j {
        SliceLeft(p, b1, s, i, j + length);
        SliceLeft(p, b2, s, i, j + length);
      } else if i == -1 && j == -1 && 0 <= k <= l {
        SliceRight(p + b1, s, k, l + length);
        SliceRight(p + b2, s, k, l + length);
      }
    }
  }

  lemma SliceLeft(p: string, b: string, s: string, i: nat, j: nat)
    requires i <= j <= |p|
    ensures (p + b + s)[i..j] == p[i..j]
  {
  }

  lemma SliceRight(a: string, s: string, i: nat, j: nat)
    requires i <= j <= |s|
    ensures (a + s)[|a| + i..|a| + j] == s[i..j]
  {
  }

  /** The text holds one of each marker, the first before the middle part and the second after it. */
  predicate Encloses(p: string, s: string, st: string, en: string)
    requires st != "" && en != ""
  {
    && CountFrom(p, st, 0) + CountFrom(s, st, 0) == CountFrom(p, en, 0) + CountFrom(s, en, 0) == 1
    && IndexOf(p, st, 0) != -1 && IndexOf(p, en, 0) == -1 && IndexOf(s, en, 0) != -1
  }

  lemma SameAround(p: string, b1: string, b2: string, s: string, st: string, en: string)
    requires StartsOnce(st) && StartsOnce(en) && !Encloses(p, s, st, en)
    requires Hole(p, b1, s, st) && Hole(p, b1, s, en) && Hole(p, b2, s, st) && Hole(p, b2, s, en)
    ensures BlockBetween(p + b1 + s, st, en) == BlockBetween(p + b2 + s, st, en)
  {
    HoleFacts(p, b1, s, st);
    HoleFacts(p, b1, s, en);
    HoleFacts(p, b2, s, st);
    HoleFacts(p, b2, s, en);
    DecideAround(p, b1, b2, s, CountFrom(p, st, 0) + CountFrom(s, st, 0), CountFrom(p, en, 0) + CountFrom(s, en, 0),
                 IndexOf(p, st, 0), IndexOf(p, en, 0), IndexOf(s, st, 0), IndexOf(s, en, 0), |en|);
  }

  /** A block of one host is a hole in the search for another host's markers. */
  lemma BlockIsHole(p: string, st: string, body: string, en: string, s: string, n: string)
    requires IsMarker(st) && IsMarker(en) && IsMarker(n) && Apart(st, n) && Apart(en, n) && st != n && en != n
    requires Occurrences(body, n, 0) == 0
    ensures Hole(p, Block(st, body, en), s, n)
  {
    BlockCounts(p, st, body, en, s, n);
  }

  lemma BodyLacks(st: string, body: string, en: string, n: string)
    requires IsMarker(st) && IsMarker(en) && IsMarker(n) && Apart(st, n) && Apart(en, n) && st != n && en != n
    ensures Occurrences(Block(st, body, en), n, 0) == Occurrences(body, n, 0)
  {
    BlockAlone(st, body, en, n);
  }

  /** The two hosts' blocks lie apart: neither contains a marker of the other. */
  predicate BlocksApart(raw: string, h1: string, h2: string) {
    var one, two := GetBlock(raw, h1), GetBlock(raw, h2);
    && (one.Ok? && one.value.Some? ==> Lacks(one.value.value, Start(h2), End(h2)))
    && (two.Ok? && two.value.Some? ==> Lacks(two.value.value, Start(h1), End(h1)))
  }

  lemma EnclosingHolds(p: string, b: string, s: string, st: string, en: string, m: string) returns (found: string)
    requires StartsOnce(st) && StartsOnce(en) && Hole(p, b, s, st) && Hole(p, b, s, en)
    requires Encloses(p, s, st, en) && m != "" && m <= b
    ensures BlockBetween(p + b + s, st, en) == Ok(Some(found)) && Occurrences(found, m, 0) > 0
  {
    HoleFacts(p, b, s, st);
    HoleFacts(p, b, s, en);
    found := EnclosingFound(p, b, s, st, en, m, IndexOf(p, st, 0), IndexOf(s, en, 0));
  }

  lemma EnclosingFound(p: string, b: string, s: string, st: string, en: string, m: string, i: nat, l: nat)
    returns (found: string)
    requires st != "" && en != "" && MatchesAt(p, st, i) && MatchesAt(s, en, l) && m != "" && m <= b
    requires IndexOf(p + b + s, st, 0) == i && IndexOf(p + b + s, en, 0) == |p + b| + l
    requires CountFrom(p + b + s, st, 0) == 1 && CountFrom(p + b + s, en, 0) == 1
    ensures BlockBetween(p + b + s, st, en) == Ok(Some(found)) && Occurrences(found, m, 0) > 0
  {
    var raw, j := p + b + s, |p + b| + l;
    BetweenIs(raw, st, en, i, j);
    found := raw[i..j + |en|];
    SpanHolds(p, b, s, i, l + |en|, m, found);
  }

  lemma SpanHolds(p: string, b: string, s: string, i: nat, l: nat, m: string, found: string)
    requires i <= |p| && l <= |s| && m != "" && m <= b && found == (p + b + s)[i..|p + b| + l]
    ensures Occurrences(found, m, 0) > 0
  {
    EnclosedAt(p, b, s, i, l, m);
  }

  lemma BetweenIs(raw: string, st: string, en: string, i: nat, j: nat)
    requires st != "" && en != "" && i <= j && IndexOf(raw, st, 0) == i && IndexOf(raw, en, 0) == j
    requires CountFrom(raw, st, 0) == 1 && CountFrom(raw, en, 0) == 1
    ensures j + |en| <= |raw| && BlockBetween(raw, st, en) == Ok(Some(raw[i..j + |en|]))
  {
  }

  lemma EnclosedAt(p: string, b: string, s: string, i: nat, l: nat, m: string)
    requires i <= |p| && l <= |s| && m != "" && m <= b
    ensures Occurrences((p + b + s)[i..|p + b| + l], m, 0) > 0
  {
    var text := (p + b + s)[i..|p + b| + l];
    assert text == p[i..] + b + s[..l];
    assert b[..|m|] == m;
    SliceRight(p[i..], b, 0, |m|);
    SliceLeft(p[i..] + b, s[..l], "", |p| - i, |p| - i + |m|);
    assert p[i..] + b + s[..l] + "" == text;
    OnlyOccurrence(text, m, 0, |p| - i);
  }

  /** Replacing a block between two texts leaves what is found for another host. */
  lemma ReplacedElsewhere(p: string, s: string, h1: string, old1: string, new1: string, h2: string)
    requires SafeHost(h1) && SafeHost(h2) && h1 != h2
    requires Lacks(old1, Start(h2), End(h2)) && Lacks(new1, Start(h2), End(h2))
    requires var found := GetBlock(p + Block(Start(h1), old1, End(h1)) + s, h2);
             found.Ok? && found.value.Some? ==> Lacks(found.value.value, Start(h1), End(h1))
    ensures GetBlock(p + Block(Start(h1), new1, End(h1)) + s, h2) == GetBlock(p + Block(Start(h1), old1, End(h1)) + s, h2)
  {
    var st1, en1, st2, en2 := Start(h1), End(h1), Start(h2), End(h2);
    AreMarkers(h1);
    ArePair(h2);
    MarkersApart(h1, h2);
    BlockIsHole(p, st1, old1, en1, s, st2);
    BlockIsHole(p, st1, old1, en1, s, en2);
    BlockIsHole(p, st1, new1, en1, s, st2);
    BlockIsHole(p, st1, new1, en1, s, en2);
    var b := Block(st1, old1, en1);
    if Encloses(p, s, st2, en2) {
      StartsBlock(st1, old1, en1);
      var found := EnclosingHolds(p, b, s, st2, en2, st1);
      assert false;
    }
    SameAround(p, b, Block(st1, new1, en1), s, st2, en2);
  }

  lemma StartsBlock(st: string, body: string, en: string)
    ensures st <= Block(st, body, en)
  {
  }

  /** Appending a block after trimming leaves what is found for another host. */
  lemma AppendedElsewhere(raw: string, h1: string, body: string, h2: string)
    requires SafeHost(h1) && SafeHost(h2) && h1 != h2 && Lacks(body, Start(h2), End(h2))
    ensures GetBlock(Append(raw, Block(Start(h1), body, End(h1))), h2) == GetBlock(raw, h2)
  {
    var st2, en2 := Start(h2), End(h2);
    ArePair(h2);
    var block := Block(Start(h1), body, End(h1));
    var t := TrimEnd(raw);
    var tail := if raw == "" then block else "\n\n" + block;
    TailIsHole(raw, h1, body, st2, h2);
    TailIsHole(raw, h1, body, en2, h2);
    SameAround(t, raw[|t|..], tail, "", st2, en2);
    AppendSplits(raw, block);
  }

  lemma AppendSplits(raw: string, block: string)
    ensures TrimEnd(raw) + raw[|TrimEnd(raw)|..] + "" == raw
    ensures TrimEnd(raw) + (if raw == "" then block else "\n\n" + block) + "" == Append(raw, block)
  {
  }

  lemma TailIsHole(raw: string, h1: string, body: string, n: string, h2: string)
    requires SafeHost(h1) && SafeHost(h2) && h1 != h2 && (n == Start(h2) || n == End(h2)) && Occurrences(body, n, 0) == 0
    ensures var t := TrimEnd(raw);
            var block := Block(Start(h1), body, End(h1));
            && Hole(t, raw[|t|..], "", n)
            && Hole(t, if raw == "" then block else "\n\n" + block, "", n)
  {
    var t := TrimEnd(raw);
    var block := Block(Start(h1), body, End(h1));
    AreMarkers(h1);
    AreMarkers(h2);
    MarkersApart(h1, h2);
    BlockIsHole("\n\n", Start(h1), body, End(h1), "", n);
    OccurrencesAdd("\n\n", block, n);
    forall k ensures !MatchesAt("\n\n", n, k) { MatchChar("\n\n", n, k, 0); }
    NoOccurrence("\n\n", n, 0);
    TrimKeepsMarkers(raw, n, "\n\n" + block);
    TrimEndCuts(raw);
    SpacesLackMarker(raw[|t|..], n);
  }

  lemma SpacesLackMarker(spaces: string, n: string)
    requires IsMarker(n) && forall k :: 0 <= k < |spaces| ==> IsSpace(spaces[k])
    ensures Occurrences(spaces, n, 0) == 0
  {
    forall k ensures !MatchesAt(spaces, n, k) { MatchChar(spaces, n, k, 0); }
    NoOccurrence(spaces, n, 0);
  }

  /**
   * Updating one host's block leaves another host's disjoint block as it was; so too the
   * absence of one, and the errors.
   */
  lemma OtherBlockUnchanged(raw: string, h1: string, body: string, h2: string)
    requires SafeHost(h1) && SafeHost(h2) && h1 != h2 && GetBlock(raw, h1).Ok?
    requires Verbatim(raw, h1, Block(Start(h1), body, End(h1)))
    requires Lacks(body, Start(h2), End(h2)) && BlocksApart(raw, h1, h2)
    ensures GetBlock(Update(raw, h1, Block(Start(h1), body, End(h1))).value, h2) == GetBlock(raw, h2)
  {
    var st1, en1 := Start(h1), End(h1);
    UpdateRewrites(raw, h1, Block(st1, body, en1));
    if GetBlock(raw, h1).value.None? {
      AppendedElsewhere(raw, h1, body, h2);
      var (p, s) := Placement(raw, h1);
    } else {
      ArePair(h1);
      AreMarkers(h2);
      MarkersApart(h1, h2);
      var (p, s) := Placement(raw, h1);
      var i, j := BlockParts(raw, st1, en1);
      BodyLacks(st1, raw[i + |st1|..j], en1, Start(h2));
      BodyLacks(st1, raw[i + |st1|..j], en1, End(h2));
      ReplacedElsewhere(p, s, h1, raw[i + |st1|..j], body, h2);
    }
  }
}
