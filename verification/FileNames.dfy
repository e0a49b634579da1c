/** Telemetry file names (src/telemetry/localJsonlFiles.ts): printed by the sink, parsed by the exporter. */
module FileNames {
  import opened Basics
  import opened Text
  import opened Calendar

  datatype ParsedFileName = ParsedFileName(date: string, session: string, part: nat)

  const PREFIX := "telemetry-"
  const SUFFIX := ".jsonl"

  /** Decimal text without leading zeros. */
  function Decimal(n: nat): (s: string)
    ensures s != "" && AllDigits(s)
  {
    if n < 10 then [Digit(n)] else Decimal(n / 10) + [Digit(n % 10)]
  }

  function PartSuffix(part: nat): string {
    if part > 0 then "." + Decimal(part) else ""
  }

  function FormatFileName(date: string, session: string, part: nat): string {
    PREFIX + date + "-" + session + PartSuffix(part) + SUFFIX
  }

  /** What follows the session: `.jsonl`, or a dot, digits and `.jsonl`. */
  function ParseExtension(ext: string): Option<nat> {
    if ext == SUFFIX then Some(0)
    else if |ext| > 1 + |SUFFIX| && ext[0] == '.' && ext[|ext| - |SUFFIX|..] == SUFFIX
            && AllDigits(ext[1..|ext| - |SUFFIX|])
    then Some(Number(ext[1..|ext| - |SUFFIX|]))
    else None
  }

  /** The pattern's session is dot-free, so it reaches up to the first dot. */
  function ParseFileName(name: string): (r: Option<ParsedFileName>)
    ensures r.Some? ==> IsDate(r.value.date) && r.value.session != "" && '.' !in r.value.session
  {
    if !(PREFIX <= name) || |name| <= 21 || !IsDate(name[10..20]) || name[20] != '-' then None
    else ParseTail(name[10..20], name[21..])
  }

  function ParseTail(date: string, tail: string): (r: Option<ParsedFileName>)
    ensures r.Some? ==> r.value.date == date && r.value.session != "" && '.' !in r.value.session
  {
    var dot := IndexOf(tail, ".", 0);
    if dot <= 0 then None
    else
      var part := ParseExtension(tail[dot..]);
      if part.None? then None
      else
        UpToDot(tail, dot);
        Some(ParsedFileName(date, tail[..dot], part.value))
  }

  lemma UpToDot(s: string, dot: nat)
    requires dot == IndexOf(s, ".", 0)
    ensures '.' !in s[..dot]
  {
    forall i | 0 <= i < dot ensures s[i] != '.' { MatchOne(s, '.', i); }
  }

  predicate IsFileName(name: string) {
    ParseFileName(name).Some?
  }

  lemma {:induction false} DecimalReadsBack(n: nat)
    ensures Number(Decimal(n)) == n
    ensures Decimal(n)[0] == '0' <==> n == 0
  {
    var s := Decimal(n);
    if n >= 10 {
      DecimalReadsBack(n / 10);
      assert s[..|s| - 1] == Decimal(n / 10);
    } else {
      assert s[..0] == "";
    }
  }

  lemma {:induction false} NumberPrintsBack(s: string)
    requires AllDigits(s) && s != "" && s[0] != '0'
    ensures Decimal(Number(s)) == s && Number(s) > 0
  {
    var n := |s| - 1;
    var front, last := s[..n], DigitValue(s[n]);
    assert s == front + [Digit(last)];
    if front != "" {
      NumberPrintsBack(front);
      assert Number(s) / 10 == Number(front) && Number(s) % 10 == last;
    }
  }

  lemma ExtensionReadsBack(part: nat)
    ensures ParseExtension(PartSuffix(part) + SUFFIX) == Some(part)
  {
    if part > 0 {
      var digits := Decimal(part);
      var ext := "." + digits + SUFFIX;
      assert ext[1..|ext| - |SUFFIX|] == digits;
      assert ext[|ext| - |SUFFIX|..] == SUFFIX;
      assert |ext| > |SUFFIX|;
      DecimalReadsBack(part);
    }
  }

  lemma FormatReadsBack(date: string, session: string, part: nat)
    requires IsDate(date) && session != "" && '.' !in session
    ensures ParseFileName(FormatFileName(date, session, part)) == Some(ParsedFileName(date, session, part))
  {
    Regrouped(PREFIX + date + "-", session, PartSuffix(part), SUFFIX);
    NamedTail(date, session + (PartSuffix(part) + SUFFIX));
    TailReadsBack(date, session, part);
  }

  lemma Regrouped(a: string, b: string, c: string, d: string)
    ensures a + b + c + d == a + (b + (c + d))
  {
  }

  lemma NamedTail(date: string, tail: string)
    requires IsDate(date) && tail != ""
    ensures ParseFileName(PREFIX + date + "-" + tail) == ParseTail(date, tail)
  {
    var name := PREFIX + date + "-" + tail;
    assert name[10..20] == date && name[20] == '-' && name[21..] == tail;
  }

  lemma TailReadsBack(date: string, session: string, part: nat)
    requires session != "" && '.' !in session
    ensures ParseTail(date, session + (PartSuffix(part) + SUFFIX)) == Some(ParsedFileName(date, session, part))
  {
    FirstDot(session, PartSuffix(part) + SUFFIX);
    ExtensionReadsBack(part);
  }

  lemma FirstDot(session: string, ext: string)
    requires '.' !in session && ext != "" && ext[0] == '.'
    ensures IndexOf(session + ext, ".", 0) == |session|
    ensures (session + ext)[..|session|] == session && (session + ext)[|session|..] == ext
  {
    var tail := session + ext;
    forall j | 0 <= j <= |session| ensures MatchesAt(tail, ".", j) <==> j == |session| { MatchOne(tail, '.', j); }
    IndexOfIs(tail, ".", 0, |session|);
  }

  /**
   * The printed name reads back if and only if the date has the ISO shape and the session is
   * a non-empty dot-free string.
   */
  lemma FormatReadsBackExactly(date: string, session: string, part: nat)
    ensures ParseFileName(FormatFileName(date, session, part)) == Some(ParsedFileName(date, session, part))
       <==> IsDate(date) && session != "" && '.' !in session
  {
    if IsDate(date) && session != "" && '.' !in session {
      FormatReadsBack(date, session, part);
    }
  }

  /** The digits between the session and the extension, as they stand in the name. */
  function PartText(name: string): string {
    if ParseFileName(name).None? then ""
    else
      var ext := name[21 + |ParseFileName(name).value.session|..];
      if ext == SUFFIX then "" else ext[1..|ext| - |SUFFIX|]
  }

  /** A parsed name is the printed form of what was parsed, unless its part has a leading zero. */
  lemma ParsePrintsBackExactly(name: string)
    requires IsFileName(name)
    ensures var p := ParseFileName(name).value;
            FormatFileName(p.date, p.session, p.part) == name <==> !("0" <= PartText(name))
  {
    var p := ParseFileName(name).value;
    var ext := ParsedShape(name);
    var printed := PREFIX + p.date + "-" + p.session;
    var suffix := PartSuffix(p.part) + SUFFIX;
    SameHead(printed, ext, suffix);
    ConcatAssoc(printed, PartSuffix(p.part), SUFFIX);
    ExtensionPrintsBack(ext);
  }

  lemma ParsedShape(name: string) returns (ext: string)
    requires IsFileName(name)
    ensures var p := ParseFileName(name).value;
      && name == PREFIX + p.date + "-" + p.session + ext
      && ParseExtension(ext) == Some(p.part)
      && PartText(name) == if ext == SUFFIX then "" else ext[1..|ext| - |SUFFIX|]
  {
    var p := ParseFileName(name).value;
    ext := name[21..][|p.session|..];
    assert name[..10] == PREFIX;
    CutName(name, PREFIX, p.date, p.session, ext);
    assert ext == name[21 + |p.session|..];
  }

  lemma CutName(name: string, prefix: string, date: string, session: string, ext: string)
    requires |name| > 21 && name[..10] == prefix && name[10..20] == date && name[20] == '-'
    requires session <= name[21..] && ext == name[21..][|session|..]
    ensures name == prefix + date + "-" + session + ext
  {
    assert name == name[..10] + name[10..20] + [name[20]] + name[21..];
    assert name[21..] == session + ext;
  }

  lemma SameHead(head: string, x: string, y: string)
    ensures head + x == head + y <==> x == y
  {
    assert (head + x)[|head|..] == x && (head + y)[|head|..] == y;
  }

  lemma ExtensionPrintsBack(ext: string)
    requires ParseExtension(ext).Some?
    ensures PartSuffix(ParseExtension(ext).value) + SUFFIX == ext <==> (ext == SUFFIX || ext[1] != '0')
  {
    if ext != SUFFIX {
      var digits := ext[1..|ext| - |SUFFIX|];
      var part := Number(digits);
      assert ext == "." + digits + SUFFIX;
      DecimalReadsBack(part);
      if digits[0] != '0' {
        NumberPrintsBack(digits);
      } else if part > 0 {
        assert (PartSuffix(part) + SUFFIX)[1] == Decimal(part)[0];
      }
    }
  }
}
