/** Telemetry files as sequences of lines: what the sink appends and the exporter reads. */
module TelemetryFiles {
  import opened Basics
  import opened Calendar
  import opened FileNames
  import opened WireFormat

  /**
   * A line of a file: blank, not readable as JSON, or a JSON value. A value with a `kind` key
   * opens a file; event rows have none.
   */
  datatype Line = Blank | Malformed | Opening(json: Json) | Entry(json: Json)

  /** A newline-terminated line; `length` counts the bytes before the newline. */
  datatype TextLine = TextLine(content: Line, length: nat)

  predicate IsHeader(t: TextLine) {
    t.content.Opening?
  }

  predicate Headerless(lines: seq<TextLine>) {
    forall i :: 0 <= i < |lines| ==> !IsHeader(lines[i])
  }

  type Day = d: int | HasText(d) witness 0

  function Bytes(lines: seq<TextLine>): nat {
    if lines == [] then 0 else lines[0].length + 1 + Bytes(lines[1..])
  }

  lemma {:induction false} BytesAppend(a: seq<TextLine>, b: seq<TextLine>)
    ensures Bytes(a + b) == Bytes(a) + Bytes(b)
  {
    if a == [] {
      assert a + b == b;
    } else {
      assert (a + b)[1..] == a[1..] + b;
      BytesAppend(a[1..], b);
    }
  }

  lemma BytesOne(line: TextLine)
    ensures Bytes([line]) == line.length + 1
  {
  }

  lemma BytesPositive(lines: seq<TextLine>)
    ensures Bytes(lines) == 0 <==> lines == []
  {
  }

  /** A file of a session: its date and its size segment. */
  datatype Key = Key(day: Day, segment: nat)

  predicate KeyLt(a: Key, b: Key) {
    a.day < b.day || (a.day == b.day && a.segment < b.segment)
  }

  /** One file with its lines. `first` is the size it had after its first append. */
  datatype SessionFile = SessionFile(key: Key, lines: seq<TextLine>, first: nat)

  predicate Increasing(files: seq<SessionFile>) {
    forall i, j :: 0 <= i < j < |files| ==> KeyLt(files[i].key, files[j].key)
  }

  function Path(slug: string, key: Key): string {
    FormatFileName(DateText(key.day), slug, key.segment)
  }

  predicate IsSlug(slug: string) {
    slug != "" && '.' !in slug
  }

  lemma PathReadsBack(slug: string, key: Key)
    requires IsSlug(slug)
    ensures ParseFileName(Path(slug, key)) == Some(ParsedFileName(DateText(key.day), slug, key.segment))
  {
    FormatReadsBackExactly(DateText(key.day), slug, key.segment);
  }

  lemma PathInjective(slug: string, a: Key, b: Key)
    requires IsSlug(slug) && Path(slug, a) == Path(slug, b)
    ensures a == b
  {
    PathReadsBack(slug, a);
    PathReadsBack(slug, b);
    DateTextInjective(a.day, b.day);
  }

  predicate IsAlphanumeric(c: char) {
    'a' <= c <= 'z' || 'A' <= c <= 'Z' || '0' <= c <= '9'
  }

  function Alphanumerics(s: string): string {
    if s == "" then "" else (if IsAlphanumeric(s[0]) then [s[0]] else "") + Alphanumerics(s[1..])
  }

  /** `toSessionSlug`: at most eight letters and digits of the session id. */
  function ToSessionSlug(sessionId: string): string {
    var cleaned := Alphanumerics(sessionId);
    var short := if |cleaned| <= 8 then cleaned else cleaned[..8];
    if short == "" then "anon0000" else short
  }

  lemma {:induction false} AlphanumericsOnly(s: string)
    ensures forall i :: 0 <= i < |Alphanumerics(s)| ==> IsAlphanumeric(Alphanumerics(s)[i])
  {
    if s != "" { AlphanumericsOnly(s[1..]); }
  }

  /** A slug is fit for a file name: non-empty, at most eight characters, no dot. */
  lemma SlugFitsFileName(sessionId: string)
    ensures IsSlug(ToSessionSlug(sessionId)) && |ToSessionSlug(sessionId)| <= 8
  {
    AlphanumericsOnly(sessionId);
    var slug := ToSessionSlug(sessionId);
    forall i | 0 <= i < |slug| ensures slug[i] != '.' {
      assert IsAlphanumeric(slug[i]) || slug == "anon0000";
    }
  }

  predicate AllAlphanumeric(s: string) {
    forall i :: 0 <= i < |s| ==> IsAlphanumeric(s[i])
  }

  predicate NoneAlphanumeric(s: string) {
    forall i :: 0 <= i < |s| ==> !IsAlphanumeric(s[i])
  }

  lemma {:induction false} AlphanumericsAppend(a: string, b: string)
    ensures Alphanumerics(a + b) == Alphanumerics(a) + Alphanumerics(b)
  {
    if a == "" {
      assert a + b == b;
    } else {
      assert (a + b)[0] == a[0] && (a + b)[1..] == a[1..] + b;
      AlphanumericsAppend(a[1..], b);
      ConcatAssoc(if IsAlphanumeric(a[0]) then [a[0]] else "", Alphanumerics(a[1..]), Alphanumerics(b));
    }
  }

  lemma {:induction false} AlphanumericsOf(s: string)
    ensures AllAlphanumeric(s) ==> Alphanumerics(s) == s
    ensures NoneAlphanumeric(s) ==> Alphanumerics(s) == ""
  {
    if s != "" {
      AlphanumericsOf(s[1..]);
      assert s == [s[0]] + s[1..];
    }
  }

  /**
   * The slug, exactly: characters that are no letters or digits are skipped, the first eight
   * of the others are kept as they are, and an id without any gets a fixed slug.
   */
  lemma SlugExactly(a: string, skipped: string, b: string)
    requires AllAlphanumeric(a) && NoneAlphanumeric(skipped)
    ensures ToSessionSlug(a + skipped + b) == ToSessionSlug(a + b)
    ensures |a| >= 8 ==> ToSessionSlug(a + b) == a[..8]
    ensures 0 < |a| < 8 ==> ToSessionSlug(a + skipped) == a
    ensures ToSessionSlug(skipped) == "anon0000"
  {
    AlphanumericsOf(a);
    AlphanumericsOf(skipped);
    AlphanumericsAppend(a + skipped, b);
    AlphanumericsAppend(a, skipped);
    AlphanumericsAppend(a, b);
    assert a + "" == a;
    if |a| >= 8 { assert (a + Alphanumerics(b))[..8] == a[..8]; }
  }
}
