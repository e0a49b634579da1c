/** Which old telemetry files the sink deletes (`selectByAgeAndSize` and the name filter before it). */
module Retention {
  import opened Basics
  import opened Text
  import opened Calendar
  import opened FileNames
  import opened TelemetryFiles

  datatype Candidate = Candidate(name: string, mtime: int, size: nat)

  predicate TooOld(f: Candidate, maxAgeMs: int, now: int) {
    now - f.mtime > maxAgeMs
  }

  function Expired(files: seq<Candidate>, maxAgeMs: int, now: int): seq<Candidate> {
    if files == [] then []
    else (if TooOld(files[0], maxAgeMs, now) then [files[0]] else []) + Expired(files[1..], maxAgeMs, now)
  }

  function Survivors(files: seq<Candidate>, maxAgeMs: int, now: int): seq<Candidate> {
    if files == [] then []
    else (if TooOld(files[0], maxAgeMs, now) then [] else [files[0]]) + Survivors(files[1..], maxAgeMs, now)
  }

  function Total(files: seq<Candidate>): nat {
    if files == [] then 0 else files[0].size + Total(files[1..])
  }

  predicate NotNewer(a: Candidate, b: Candidate) {
    a.mtime <= b.mtime
  }

  function OldestFirst(files: seq<Candidate>): seq<Candidate> {
    SortBy(NotNewer, files)
  }

  function Names(files: seq<Candidate>): seq<string> {
    seq(|files|, i requires 0 <= i < |files| => files[i].name)
  }

  /** `k` files suffice to bring the rest within the limit, and no fewer do. */
  predicate LeastPrefix(sorted: seq<Candidate>, maxTotalBytes: nat, k: int) {
    && 0 <= k <= |sorted| && Total(sorted[k..]) <= maxTotalBytes
    && (k > 0 ==> Total(sorted[k - 1..]) > maxTotalBytes)
  }

  lemma {:induction false} TotalSnoc(files: seq<Candidate>, f: Candidate)
    ensures Total(files + [f]) == Total(files) + f.size
  {
    if files == [] {
      assert files + [f] == [f];
    } else {
      assert (files + [f])[1..] == files[1..] + [f];
      TotalSnoc(files[1..], f);
    }
  }

  lemma NamesSnoc(files: seq<Candidate>, f: Candidate)
    ensures Names(files + [f]) == Names(files) + [f.name]
  {
  }

  lemma {:induction false} SplitSnoc(files: seq<Candidate>, f: Candidate, maxAgeMs: int, now: int)
    ensures Expired(files + [f], maxAgeMs, now)
         == Expired(files, maxAgeMs, now) + if TooOld(f, maxAgeMs, now) then [f] else []
    ensures Survivors(files + [f], maxAgeMs, now)
         == Survivors(files, maxAgeMs, now) + if TooOld(f, maxAgeMs, now) then [] else [f]
  {
    if files == [] {
      assert files + [f] == [f] && [f][1..] == [];
    } else {
      var first, rest := files[0], files[1..];
      assert (files + [f])[1..] == rest + [f];
      SplitSnoc(rest, f, maxAgeMs, now);
      var gone := TooOld(first, maxAgeMs, now);
      ConcatAssoc(if gone then [first] else [], Expired(rest, maxAgeMs, now), if TooOld(f, maxAgeMs, now) then [f] else []);
      ConcatAssoc(if gone then [] else [first], Survivors(rest, maxAgeMs, now), if TooOld(f, maxAgeMs, now) then [] else [f]);
    }
  }

  lemma {:induction false} InsertTotal(f: Candidate, files: seq<Candidate>)
    ensures Total(InsertBy(NotNewer, f, files)) == f.size + Total(files)
  {
    if files != [] && !NotNewer(f, files[0]) { InsertTotal(f, files[1..]); }
  }

  lemma {:induction false} SortTotal(files: seq<Candidate>)
    ensures Total(OldestFirst(files)) == Total(files)
  {
    if files != [] {
      SortTotal(files[1..]);
      InsertTotal(files[0], OldestFirst(files[1..]));
    }
  }

  lemma OldestFirstFacts(files: seq<Candidate>)
    ensures SortedBy(NotNewer, OldestFirst(files)) && multiset(OldestFirst(files)) == multiset(files)
    ensures Total(OldestFirst(files)) == Total(files)
  {
    assert TotalPreorder(NotNewer);
    SortBySorts(NotNewer, files);
    SortTotal(files);
  }

  /** The second loop: evict from the oldest end until the rest fits; `k` says how many went. */
  method EvictOldest(sorted: seq<Candidate>, total: nat, maxTotalBytes: nat) returns (evicted: seq<string>, k: nat)
    requires total == Total(sorted)
    ensures LeastPrefix(sorted, maxTotalBytes, k) && evicted == Names(sorted[..k])
  {
    evicted := [];
    var totalBytes := total;
    k := 0;
    assert sorted[0..] == sorted;
    for i := 0 to |sorted|
      invariant k == i && totalBytes == Total(sorted[i..]) && evicted == Names(sorted[..i])
      invariant i > 0 ==> Total(sorted[i - 1..]) > maxTotalBytes
    {
      if totalBytes <= maxTotalBytes { break; }
      assert sorted[i..][1..] == sorted[i + 1..];
      assert sorted[..i + 1] == sorted[..i] + [sorted[i]];
      NamesSnoc(sorted[..i], sorted[i]);
      evicted := evicted + [sorted[i].name];
      totalBytes := totalBytes - sorted[i].size;
      k := i + 1;
    }
  }

  /** The first loop: what is past the age limit goes, the rest is totalled. */
  method SplitByAge(maxAgeMs: int, files: seq<Candidate>, now: int)
    returns (toDelete: seq<string>, survivors: seq<Candidate>, totalBytes: nat)
    ensures toDelete == Names(Expired(files, maxAgeMs, now))
    ensures survivors == Survivors(files, maxAgeMs, now) && totalBytes == Total(survivors)
  {
    toDelete, survivors, totalBytes := [], [], 0;
    for i := 0 to |files|
      invariant toDelete == Names(Expired(files[..i], maxAgeMs, now))
      invariant survivors == Survivors(files[..i], maxAgeMs, now) && totalBytes == Total(survivors)
    {
      assert files[..i + 1] == files[..i] + [files[i]];
      SplitSnoc(files[..i], files[i], maxAgeMs, now);
      TotalSnoc(survivors, files[i]);
      NamesSnoc(Expired(files[..i], maxAgeMs, now), files[i]);
      if now - files[i].mtime > maxAgeMs {
        toDelete := toDelete + [files[i].name];
      } else {
        survivors := survivors + [files[i]];
        totalBytes := totalBytes + files[i].size;
      }
    }
    assert files[..|files|] == files;
  }

  /**
   * The names to delete: everything past the age limit, then the oldest survivors, as few as
   * bring the rest within the total.
   */
  method SelectByAgeAndSize(maxAgeMs: int, maxTotalBytes: nat, files: seq<Candidate>, now: int)
    returns (toDelete: seq<string>)
    ensures exists k :: LeastPrefix(OldestFirst(Survivors(files, maxAgeMs, now)), maxTotalBytes, k)
              && toDelete == Names(Expired(files, maxAgeMs, now))
                           + Names(OldestFirst(Survivors(files, maxAgeMs, now))[..k])
  {
    var expired, survivors, totalBytes := SplitByAge(maxAgeMs, files, now);
    OldestFirstFacts(survivors);
    var evicted, k := EvictOldest(OldestFirst(survivors), totalBytes, maxTotalBytes);
    toDelete := expired + evicted;
  }

  lemma {:induction false} SuffixTotal(files: seq<Candidate>, j: nat, k: nat)
    requires j <= k <= |files|
    ensures Total(files[k..]) <= Total(files[j..])
    decreases k - j
  {
    if j < k {
      SuffixTotal(files, j + 1, k);
      assert files[j..][1..] == files[j + 1..];
    }
  }

  lemma {:induction false} SplitMembers(files: seq<Candidate>, maxAgeMs: int, now: int)
    ensures multiset(Expired(files, maxAgeMs, now)) + multiset(Survivors(files, maxAgeMs, now)) == multiset(files)
    ensures forall f :: f in Expired(files, maxAgeMs, now) ==> TooOld(f, maxAgeMs, now)
    ensures forall f :: f in Survivors(files, maxAgeMs, now) ==> !TooOld(f, maxAgeMs, now)
  {
    if files != [] {
      SplitMembers(files[1..], maxAgeMs, now);
      assert files == [files[0]] + files[1..];
    }
  }

  /**
   * What retention leaves: with `k` evicted for size, every file is expired, evicted or kept;
   * the kept ones are within the age limit and the total; nothing evicted is newer than
   * anything kept; and any oldest-first prefix that brings the rest within the limit evicts
   * at least as much.
   */
  lemma RetentionKeeps(maxAgeMs: int, maxTotalBytes: nat, files: seq<Candidate>, now: int, k: int)
    requires LeastPrefix(OldestFirst(Survivors(files, maxAgeMs, now)), maxTotalBytes, k)
    ensures var sorted := OldestFirst(Survivors(files, maxAgeMs, now));
            var evicted, kept := sorted[..k], sorted[k..];
            && multiset(Expired(files, maxAgeMs, now)) + multiset(evicted) + multiset(kept) == multiset(files)
            && Total(kept) <= maxTotalBytes
            && (forall f :: f in Expired(files, maxAgeMs, now) ==> now - f.mtime > maxAgeMs)
            && (forall f :: f in evicted || f in kept ==> now - f.mtime <= maxAgeMs)
            && (forall e, f :: e in evicted && f in kept ==> e.mtime <= f.mtime)
            && (forall j :: 0 <= j <= |sorted| && Total(sorted[j..]) <= maxTotalBytes ==> k <= j)
  {
    var survivors := Survivors(files, maxAgeMs, now);
    var sorted := OldestFirst(survivors);
    SplitMembers(files, maxAgeMs, now);
    OldestFirstFacts(survivors);
    CutCounts(sorted, k);
    forall f | f in sorted[..k] || f in sorted[k..] ensures now - f.mtime <= maxAgeMs {
      assert f in sorted;
      SameMembers(sorted, survivors, f);
    }
    CutOrdered(sorted, k);
    LeastPrefixIsLeast(sorted, maxTotalBytes, k);
  }

  lemma CutCounts(files: seq<Candidate>, k: nat)
    requires k <= |files|
    ensures multiset(files[..k]) + multiset(files[k..]) == multiset(files)
  {
    assert files == files[..k] + files[k..];
  }

  lemma SameMembers(a: seq<Candidate>, b: seq<Candidate>, f: Candidate)
    requires multiset(a) == multiset(b) && f in a
    ensures f in b
  {
    assert f in multiset(a);
  }

  lemma CutOrdered(sorted: seq<Candidate>, k: nat)
    requires SortedBy(NotNewer, sorted) && k <= |sorted|
    ensures forall e, f :: e in sorted[..k] && f in sorted[k..] ==> e.mtime <= f.mtime
  {
    forall e, f | e in sorted[..k] && f in sorted[k..] ensures e.mtime <= f.mtime {
      var i :| 0 <= i < k && sorted[..k][i] == e;
      var j :| 0 <= j < |sorted| - k && sorted[k..][j] == f;
      assert NotNewer(sorted[i], sorted[k + j]);
    }
  }

  lemma LeastPrefixIsLeast(sorted: seq<Candidate>, maxTotalBytes: nat, k: int)
    requires LeastPrefix(sorted, maxTotalBytes, k)
    ensures forall j :: 0 <= j <= |sorted| && Total(sorted[j..]) <= maxTotalBytes ==> k <= j
  {
    forall j | 0 <= j <= |sorted| && Total(sorted[j..]) <= maxTotalBytes ensures k <= j {
      if j < k { SuffixTotal(sorted, j, k - 1); }
    }
  }

  // ----- the name filter: never a file of the running session -----

  predicate IsCandidateName(slug: string, name: string) {
    IsFileName(name) && !Has(name, "-" + slug)
  }

  /** Whatever the run has rolled over to, its own files are not offered for deletion. */
  lemma OwnFilesAreSpared(slug: string, key: Key)
    requires IsSlug(slug)
    ensures !IsCandidateName(slug, Path(slug, key))
  {
    var head, mark, tail := PREFIX + DateText(key.day), "-" + slug, PartSuffix(key.segment) + SUFFIX;
    assert Path(slug, key) == head + mark + tail;
    HasMiddle(head, mark, tail);
  }

  lemma HasMiddle(head: string, mark: string, tail: string)
    ensures Has(head + mark + tail, mark)
  {
    assert (head + mark + tail)[|head|..|head| + |mark|] == mark;
    assert MatchesAt(head + mark + tail, mark, |head|);
  }

  /** The dashes of another session's file name stand around its date only. */
  lemma DashesOfName(date: string, other: string, part: nat, i: nat)
    requires IsDate(date) && AllAlphanumeric(other) && i < |FormatFileName(date, other, part)|
    ensures FormatFileName(date, other, part)[i] == '-' <==> i in {9, 14, 17, 20}
  {
    var name := FormatFileName(date, other, part);
    var ext := PartSuffix(part) + SUFFIX;
    Regrouped(PREFIX + date + "-", other, PartSuffix(part), SUFFIX);
    assert name == PREFIX + (date + ("-" + (other + ext)));
    if 10 <= i < 20 { assert name[i] == date[i - 10]; }
    if i > 20 { assert name[i] == (other + ext)[i - 21]; }
    ExtensionLetters(part);
  }

  lemma ExtensionLetters(part: nat)
    ensures var ext := PartSuffix(part) + SUFFIX; ext[0] == '.' && forall k :: 0 <= k < |ext| ==> ext[k] != '-'
  {
  }

  /** A whole slug stands in such a name only behind the date. */
  lemma SlugStandsLast(date: string, slug: string, other: string, part: nat, i: nat)
    requires IsDate(date) && AllAlphanumeric(slug) && |slug| == 8 && AllAlphanumeric(other)
    requires MatchesAt(FormatFileName(date, other, part), "-" + slug, i)
    ensures i == 20
  {
    var name := FormatFileName(date, other, part);
    assert name[i] == ("-" + slug)[0];
    forall m | i < m <= i + 8 ensures name[m] != '-' {
      assert name[m] == ("-" + slug)[m - i] == slug[m - i - 1];
    }
    DashesOfName(date, other, part, i);
    DashesOfName(date, other, part, 14);
    DashesOfName(date, other, part, 17);
    DashesOfName(date, other, part, 20);
  }

  /**
   * Which files of other sessions are offered for deletion, exactly: with a slug of eight
   * letters and digits, as session ids give them, all but those whose slug begins with it.
   */
  lemma OthersOfferedExactly(slug: string, other: string, key: Key)
    requires AllAlphanumeric(slug) && |slug| == 8 && AllAlphanumeric(other) && other != ""
    ensures IsCandidateName(slug, Path(other, key)) <==> !(slug <= other)
  {
    var name, tail := Path(other, key), other + (PartSuffix(key.segment) + SUFFIX);
    PathReadsBack(other, key);
    NameTail(DateText(key.day), other, key.segment);
    if Has(name, "-" + slug) {
      var i :| 0 <= i <= |name| && MatchesAt(name, "-" + slug, i);
      SlugStandsLast(DateText(key.day), slug, other, key.segment, i);
      ExtensionLetters(key.segment);
      SlugAtFront(slug, other, tail, name[20..]);
    }
    if slug <= other { FrontMatches(name, slug, tail); }
  }

  lemma NameTail(date: string, other: string, part: nat)
    requires IsDate(date)
    ensures var name := FormatFileName(date, other, part);
            |name| > 20 && name[20..] == "-" + (other + (PartSuffix(part) + SUFFIX))
  {
    Regrouped(PREFIX + date + "-", other, PartSuffix(part), SUFFIX);
    var head, tail := PREFIX + date, other + (PartSuffix(part) + SUFFIX);
    assert |head| == 20 && FormatFileName(date, other, part) == head + ("-" + tail);
  }

  lemma FrontMatches(name: string, slug: string, tail: string)
    requires |name| > 20 && name[20..] == "-" + tail && slug <= tail
    ensures Has(name, "-" + slug)
  {
    var n := |slug| + 1;
    assert name[20..20 + n] == name[20..][..n] == "-" + slug;
    assert MatchesAt(name, "-" + slug, 20);
  }

  lemma SlugAtFront(slug: string, other: string, tail: string, rest: string)
    requires AllAlphanumeric(slug) && |slug| == 8 && other <= tail && |tail| > |other| && tail[|other|] == '.'
    requires rest == "-" + tail && |rest| >= 9 && rest[..9] == "-" + slug
    ensures slug <= other
  {
    assert tail[..8] == rest[1..9] == slug;
    assert forall m :: 0 <= m < 8 ==> tail[m] == slug[m];
  }
}
