/**
 * The telemetry wire format (src/telemetry/wireFormat.ts) at the level of JSON values:
 * events and headers are written with snake_case keys and read back through a key renaming
 * and a schema check. `instant` stands for reading an ISO timestamp; it is a parameter.
 */
module WireFormat {
  import opened Basics

  /** A parsed JSON value; objects keep their entries in insertion order. */
  datatype Json =
    | JNull
    | JBool(b: bool)
    | JNumber(n: real)
    | JString(s: string)
    | JArray(items: seq<Json>)
    | JObject(fields: seq<(string, Json)>)

  /** A number of the host language; JSON has no text for the ones that are not finite. */
  datatype Num = Finite(v: real) | NotFinite

  datatype SessionContext = SessionContext(
    extensionVersion: string, machineId: string, sessionId: string, osType: string,
    osVersion: string, hostArch: string, platformName: string, platformVersion: string)

  datatype TelemetryContext = TelemetryContext(session: SessionContext, deploymentUrl: string)

  datatype ErrorInfo = ErrorInfo(message: string, kind: Option<string>, code: Option<string>)

  datatype TelemetryEvent = TelemetryEvent(
    eventId: string, eventName: string, timestamp: string, eventSequence: Num,
    properties: seq<(string, string)>, measurements: seq<(string, Num)>,
    traceId: Option<string>, parentEventId: Option<string>, error: Option<ErrorInfo>,
    schemaVersion: int, context: TelemetryContext)

  datatype Header = Header(schemaVersion: int, timestamp: string, context: SessionContext)

  datatype ParseError = NotAnObject | UnknownKind | SecondHeader | BadHeader | NoHeader | BadRow

  type Instant = string -> Option<int>

  const CURRENT_TELEMETRY_SCHEMA_VERSION := 1

  // ----- writing -----

  function NumToJson(n: Num): Json {
    match n
    case Finite(v) => JNumber(v)
    case NotFinite => JNull
  }

  function Strings(entries: seq<(string, string)>): seq<(string, Json)> {
    seq(|entries|, i requires 0 <= i < |entries| => (entries[i].0, JString(entries[i].1)))
  }

  function Numbers(entries: seq<(string, Num)>): seq<(string, Json)> {
    seq(|entries|, i requires 0 <= i < |entries| => (entries[i].0, NumToJson(entries[i].1)))
  }

  /** An optional key: left out when undefined. */
  function Opt(key: string, value: Option<Json>): seq<(string, Json)> {
    if value.Some? then [(key, value.value)] else []
  }

  function OptString(value: Option<string>): Option<Json> {
    if value.Some? then Some(JString(value.value)) else None
  }

  function ErrorToJson(e: ErrorInfo): Json {
    JObject([("message", JString(e.message))] + Opt("type", OptString(e.kind)) + Opt("code", OptString(e.code)))
  }

  function OptError(error: Option<ErrorInfo>): Option<Json> {
    if error.Some? then Some(ErrorToJson(error.value)) else None
  }

  /** The keys of an event row: snake_case as written, or camelCase as the reader sees them. */
  datatype RowKeys = RowKeys(
    eventId: string, eventName: string, timestamp: string, eventSequence: string, properties: string,
    measurements: string, traceId: string, parentEventId: string, error: string, deploymentUrl: string)

  const SNAKE := RowKeys("event_id", "event_name", "timestamp", "event_sequence", "properties",
                         "measurements", "trace_id", "parent_event_id", "error", "deployment_url")
  const CAMEL := RowKeys("eventId", "eventName", "timestamp", "eventSequence", "properties",
                         "measurements", "traceId", "parentEventId", "error", "deploymentUrl")

  function RequiredFields(e: TelemetryEvent, k: RowKeys): seq<(string, Json)> {
    [ (k.eventId, JString(e.eventId)),
      (k.eventName, JString(e.eventName)),
      (k.timestamp, JString(e.timestamp)),
      (k.eventSequence, NumToJson(e.eventSequence)),
      (k.properties, JObject(Strings(e.properties))),
      (k.measurements, JObject(Numbers(e.measurements))) ]
  }

  function RowFields(e: TelemetryEvent, k: RowKeys): seq<(string, Json)> {
    RequiredFields(e, k)
    + Opt(k.traceId, OptString(e.traceId))
    + Opt(k.parentEventId, OptString(e.parentEventId))
    + Opt(k.error, OptError(e.error))
    + [(k.deploymentUrl, JString(e.context.deploymentUrl))]
  }

  /** `serializeTelemetryEventLine`, before the text encoding. */
  function EventLine(e: TelemetryEvent): Json {
    JObject(RowFields(e, SNAKE))
  }

  datatype SessionKeys = SessionKeys(
    extensionVersion: string, machineId: string, sessionId: string, osType: string,
    osVersion: string, hostArch: string, platformName: string, platformVersion: string)

  const SNAKE_SESSION := SessionKeys("extension_version", "machine_id", "session_id", "os_type",
                                     "os_version", "host_arch", "platform_name", "platform_version")
  const CAMEL_SESSION := SessionKeys("extensionVersion", "machineId", "sessionId", "osType",
                                     "osVersion", "hostArch", "platformName", "platformVersion")

  function SessionFields(c: SessionContext, k: SessionKeys): seq<(string, Json)> {
    [ (k.extensionVersion, JString(c.extensionVersion)), (k.machineId, JString(c.machineId)),
      (k.sessionId, JString(c.sessionId)), (k.osType, JString(c.osType)),
      (k.osVersion, JString(c.osVersion)), (k.hostArch, JString(c.hostArch)),
      (k.platformName, JString(c.platformName)), (k.platformVersion, JString(c.platformVersion)) ]
  }

  datatype HeaderKeys = HeaderKeys(kind: string, schemaVersion: string, timestamp: string, context: string)

  const SNAKE_HEADER := HeaderKeys("kind", "schema_version", "timestamp", "context")
  const CAMEL_HEADER := HeaderKeys("kind", "schemaVersion", "timestamp", "context")

  function HeaderFields(c: SessionContext, now: string, k: HeaderKeys): seq<(string, Json)> {
    [ (k.kind, JString("header")),
      (k.schemaVersion, JNumber(CURRENT_TELEMETRY_SCHEMA_VERSION as real)),
      (k.timestamp, JString(now)),
      (k.context, JObject(SessionFields(c, SNAKE_SESSION))) ]
  }

  /** `serializeTelemetryFileHeaderLine`; `now` is the sink's start time. */
  function HeaderLine(c: SessionContext, now: string): Json {
    JObject(HeaderFields(c, now, SNAKE_HEADER))
  }

  // ----- reading -----

  function Upper(c: char): char
    requires 'a' <= c <= 'z'
  {
    (c as int - 32) as char
  }

  /** `key.replace(/_([a-z])/g, upper)`. */
  function ToCamel(key: string): string {
    if |key| >= 2 && key[0] == '_' && 'a' <= key[1] <= 'z' then [Upper(key[1])] + ToCamel(key[2..])
    else if key == "" then ""
    else [key[0]] + ToCamel(key[1..])
  }

  function Renamed(fields: seq<(string, Json)>): seq<(string, Json)> {
    seq(|fields|, i requires 0 <= i < |fields| => (ToCamel(fields[i].0), fields[i].1))
  }

  /** Property lookup: the last entry with the key wins. */
  function Field(fields: seq<(string, Json)>, key: string): Option<Json> {
    if fields == [] then None
    else if fields[|fields| - 1].0 == key then Some(fields[|fields| - 1].1)
    else Field(fields[..|fields| - 1], key)
  }

  /** `renameKeys` fills a fresh record entry by entry; lookups in it are lookups in `Renamed`. */
  method RenameKeys(fields: seq<(string, Json)>) returns (out: map<string, Json>)
    ensures forall key :: Field(Renamed(fields), key) == if key in out then Some(out[key]) else None
  {
    out := map[];
    assert Renamed([]) == [];
    for i := 0 to |fields|
      invariant forall key :: Field(Renamed(fields[..i]), key) == if key in out then Some(out[key]) else None
    {
      var (key, value) := fields[i];
      ghost var next := Renamed(fields[..i + 1]);
      assert next[..i] == Renamed(fields[..i]);
      assert next[i] == (ToCamel(key), value);
      out := out[ToCamel(key) := value];
    }
    assert fields[..|fields|] == fields;
  }

  function StringField(fields: seq<(string, Json)>, key: string): Option<string> {
    match Field(fields, key)
    case Some(JString(s)) => Some(s)
    case _ => None
  }

  /** `z.string().optional()`: absent is fine, anything but a string is not. */
  predicate OptionalOk(fields: seq<(string, Json)>, key: string) {
    Field(fields, key).None? || StringField(fields, key).Some?
  }

  predicate AllStrings(fields: seq<(string, Json)>) {
    forall i :: 0 <= i < |fields| ==> fields[i].1.JString?
  }

  predicate AllNumbers(fields: seq<(string, Json)>) {
    forall i :: 0 <= i < |fields| ==> fields[i].1.JNumber?
  }

  function ReadStrings(fields: seq<(string, Json)>): seq<(string, string)>
    requires AllStrings(fields)
  {
    seq(|fields|, i requires 0 <= i < |fields| => (fields[i].0, fields[i].1.s))
  }

  function ReadNumbers(fields: seq<(string, Json)>): seq<(string, Num)>
    requires AllNumbers(fields)
  {
    seq(|fields|, i requires 0 <= i < |fields| => (fields[i].0, Finite(fields[i].1.n)))
  }

  function ReadError(fields: seq<(string, Json)>): Option<Option<ErrorInfo>> {
    match Field(fields, "error")
    case None => Some(None)
    case Some(JObject(inner)) =>
      if StringField(inner, "message").Some? && OptionalOk(inner, "type") && OptionalOk(inner, "code")
      then Some(Some(ErrorInfo(StringField(inner, "message").value, StringField(inner, "type"), StringField(inner, "code"))))
      else None
    case _ => None
  }

  /** The row schema together with what the header contributes. */
  function ReadRow(instant: Instant, header: Header, f: seq<(string, Json)>): Option<TelemetryEvent> {
    var properties, measurements := Field(f, "properties"), Field(f, "measurements");
    var sequence, error := Field(f, "eventSequence"), ReadError(f);
    if && StringField(f, "eventId").Some? && StringField(f, "eventName").Some?
       && StringField(f, "timestamp").Some? && instant(StringField(f, "timestamp").value).Some?
       && sequence.Some? && sequence.value.JNumber?
       && properties.Some? && properties.value.JObject? && AllStrings(properties.value.fields)
       && measurements.Some? && measurements.value.JObject? && AllNumbers(measurements.value.fields)
       && OptionalOk(f, "traceId") && OptionalOk(f, "parentEventId") && error.Some?
       && StringField(f, "deploymentUrl").Some?
    then
      Some(TelemetryEvent(
        StringField(f, "eventId").value, StringField(f, "eventName").value, StringField(f, "timestamp").value,
        Finite(sequence.value.n), ReadStrings(properties.value.fields), ReadNumbers(measurements.value.fields),
        StringField(f, "traceId"), StringField(f, "parentEventId"), error.value,
        header.schemaVersion, TelemetryContext(header.context, StringField(f, "deploymentUrl").value)))
    else None
  }

  function ReadContext(c: seq<(string, Json)>): Option<SessionContext> {
    if && StringField(c, "extensionVersion").Some? && StringField(c, "machineId").Some?
       && StringField(c, "sessionId").Some? && StringField(c, "osType").Some?
       && StringField(c, "osVersion").Some? && StringField(c, "hostArch").Some?
       && StringField(c, "platformName").Some? && StringField(c, "platformVersion").Some?
    then
      Some(SessionContext(
        StringField(c, "extensionVersion").value, StringField(c, "machineId").value,
        StringField(c, "sessionId").value, StringField(c, "osType").value,
        StringField(c, "osVersion").value, StringField(c, "hostArch").value,
        StringField(c, "platformName").value, StringField(c, "platformVersion").value))
    else None
  }

  function ReadHeader(instant: Instant, f: seq<(string, Json)>): Option<Header> {
    var version, time, context := Field(f, "schemaVersion"), StringField(f, "timestamp"), Field(f, "context");
    if && version.Some? && version.value.JNumber?
       && version.value.n > 0.0 && version.value.n.Floor as real == version.value.n
       && time.Some? && instant(time.value).Some?
       && context.Some? && context.value.JObject? && ReadContext(Renamed(context.value.fields)).Some?
    then Some(Header(version.value.n.Floor, time.value, ReadContext(Renamed(context.value.fields)).value))
    else None
  }

  /** One line against the header read so far: the next header, and the event if the line is a row. */
  function ParseLine(instant: Instant, header: Option<Header>, line: Json)
    : (Option<Header>, Result<Option<TelemetryEvent>, ParseError>)
  {
    if !line.JObject? then (header, Err(NotAnObject))
    else
      var f := Renamed(line.fields);
      var kind := Field(f, "kind");
      if kind.Some? then
        if kind.value != JString("header") then (header, Err(UnknownKind))
        else if header.Some? then (header, Err(SecondHeader))
        else
          var h := ReadHeader(instant, f);
          if h.None? then (header, Err(BadHeader)) else (h, Ok(None))
      else if header.None? then (header, Err(NoHeader))
      else
        var e := ReadRow(instant, header.value, f);
        if e.None? then (header, Err(BadRow)) else (header, Ok(e))
  }

  /** The parser object: the header once seen, and the context shared by a run of rows. */
  class TelemetryFileParser {
    const instant: Instant
    var header: Option<Header>
    var context: Option<TelemetryContext>

    ghost predicate Valid()
      reads this
    {
      context.Some? ==> header.Some? && context.value.session == header.value.context
    }

    constructor (instant: Instant)
      ensures Valid() && header == None && this.instant == instant
    {
      this.instant := instant;
      header, context := None, None;
    }

    method Parse(line: Json) returns (r: Result<Option<TelemetryEvent>, ParseError>)
      requires Valid()
      modifies this
      ensures Valid()
      ensures (header, r) == ParseLine(instant, old(header), line)
    {
      if !line.JObject? { return Err(NotAnObject); }
      var f := Renamed(line.fields);
      var kind := Field(f, "kind");
      if kind.Some? {
        if kind.value != JString("header") { return Err(UnknownKind); }
        if header.Some? { return Err(SecondHeader); }
        var h := ReadHeader(instant, f);
        if h.None? { return Err(BadHeader); }
        header := h;
        return Ok(None);
      }
      if header.None? { return Err(NoHeader); }
      var row := ReadRow(instant, header.value, f);
      if row.None? { return Err(BadRow); }
      // One context per run of rows with the same deployment URL.
      var deploymentUrl := row.value.context.deploymentUrl;
      if context.None? || context.value.deploymentUrl != deploymentUrl {
        context := Some(TelemetryContext(header.value.context, deploymentUrl));
      }
      return Ok(Some(row.value.(context := context.value)));
    }
  }

  // ----- the round trip -----

  predicate DistinctKeys(fields: seq<(string, Json)>) {
    forall i, j :: 0 <= i < j < |fields| ==> fields[i].0 != fields[j].0
  }

  lemma {:induction false} FieldFound(fields: seq<(string, Json)>, i: nat)
    requires DistinctKeys(fields) && i < |fields|
    ensures Field(fields, fields[i].0) == Some(fields[i].1)
  {
    if i < |fields| - 1 {
      var front := fields[..|fields| - 1];
      FieldFound(front, i);
      assert front[i] == fields[i];
    }
  }

  lemma {:induction false} FieldAbsent(fields: seq<(string, Json)>, key: string)
    requires forall i :: 0 <= i < |fields| ==> fields[i].0 != key
    ensures Field(fields, key) == None
  {
    if fields != [] { FieldAbsent(fields[..|fields| - 1], key); }
  }

  lemma {:induction false} CamelPlain(word: string)
    requires '_' !in word
    ensures ToCamel(word) == word
  {
    if word != "" {
      CamelPlain(word[1..]);
      assert word == [word[0]] + word[1..];
    }
  }

  lemma {:induction false} CamelJoin(word: string, c: char, rest: string)
    requires '_' !in word && 'a' <= c <= 'z'
    ensures ToCamel(word + ['_', c] + rest) == word + [Upper(c)] + ToCamel(rest)
  {
    var key := word + ['_', c] + rest;
    if word == "" {
      assert key[2..] == rest;
    } else {
      CamelJoin(word[1..], c, rest);
      assert key[1..] == word[1..] + ['_', c] + rest;
      assert word == [word[0]] + word[1..];
    }
  }

  /** Two words: `word_cRest` becomes `wordCRest`. */
  lemma CamelTwo(key: string, word: string, c: char, rest: string, camel: string)
    requires '_' !in word && 'a' <= c <= 'z' && '_' !in rest
    requires key == word + ['_', c] + rest && camel == word + [Upper(c)] + rest
    ensures ToCamel(key) == camel
  {
    CamelJoin(word, c, rest);
    CamelPlain(rest);
  }

  // The solver unrolls `ToCamel` on every literal it sees, so each key has a lemma of its own.

  lemma CamelEventId()
    ensures ToCamel(SNAKE.eventId) == CAMEL.eventId
  {
    CamelTwo(SNAKE.eventId, "event", 'i', "d", CAMEL.eventId);
  }

  lemma CamelEventName()
    ensures ToCamel(SNAKE.eventName) == CAMEL.eventName
  {
    CamelTwo(SNAKE.eventName, "event", 'n', "ame", CAMEL.eventName);
  }

  lemma CamelEventSequence()
    ensures ToCamel(SNAKE.eventSequence) == CAMEL.eventSequence
  {
    CamelTwo(SNAKE.eventSequence, "event", 's', "equence", CAMEL.eventSequence);
  }

  lemma CamelTraceId()
    ensures ToCamel(SNAKE.traceId) == CAMEL.traceId
  {
    CamelTwo(SNAKE.traceId, "trace", 'i', "d", CAMEL.traceId);
  }

  lemma CamelDeploymentUrl()
    ensures ToCamel(SNAKE.deploymentUrl) == CAMEL.deploymentUrl
  {
    CamelTwo(SNAKE.deploymentUrl, "deployment", 'u', "rl", CAMEL.deploymentUrl);
  }

  lemma CamelParentEventId()
    ensures ToCamel(SNAKE.parentEventId) == CAMEL.parentEventId
  {
    ParentWords();
    CamelThree(SNAKE.parentEventId, "parent", 'e', "vent", 'i', "d", CAMEL.parentEventId);
  }

  lemma CamelThree(key: string, word: string, c: char, middle: string, d: char, rest: string, camel: string)
    requires '_' !in word && 'a' <= c <= 'z' && '_' !in middle && 'a' <= d <= 'z' && '_' !in rest
    requires key == word + ['_', c] + (middle + ['_', d] + rest)
    requires camel == word + [Upper(c)] + (middle + [Upper(d)] + rest)
    ensures ToCamel(key) == camel
  {
    CamelJoin(word, c, middle + ['_', d] + rest);
    CamelTwo(middle + ['_', d] + rest, middle, d, rest, middle + [Upper(d)] + rest);
  }

  lemma ParentWords()
    ensures SNAKE.parentEventId == "parent" + ['_', 'e'] + ("vent" + ['_', 'i'] + "d")
    ensures CAMEL.parentEventId == "parent" + ['E'] + ("vent" + ['I'] + "d")
  {
  }

  lemma CamelTimestamp()
    ensures ToCamel("timestamp") == "timestamp"
  {
    CamelPlain("timestamp");
  }

  lemma CamelProperties()
    ensures ToCamel("properties") == "properties"
  {
    CamelPlain("properties");
  }

  lemma CamelMeasurements()
    ensures ToCamel("measurements") == "measurements"
  {
    CamelPlain("measurements");
  }

  lemma CamelError()
    ensures ToCamel("error") == "error"
  {
    CamelPlain("error");
  }

  predicate RenamesTo(s: RowKeys, c: RowKeys) {
    && ToCamel(s.eventId) == c.eventId && ToCamel(s.eventName) == c.eventName && ToCamel(s.timestamp) == c.timestamp
    && ToCamel(s.eventSequence) == c.eventSequence && ToCamel(s.properties) == c.properties
    && ToCamel(s.measurements) == c.measurements && ToCamel(s.traceId) == c.traceId
    && ToCamel(s.parentEventId) == c.parentEventId && ToCamel(s.error) == c.error
    && ToCamel(s.deploymentUrl) == c.deploymentUrl
  }

  lemma SnakeRenamesToCamel()
    ensures RenamesTo(SNAKE, CAMEL)
  {
    CamelEventId();
    CamelEventName();
    CamelEventSequence();
    CamelTraceId();
    CamelParentEventId();
    CamelDeploymentUrl();
    CamelTimestamp();
    CamelProperties();
    CamelMeasurements();
    CamelError();
  }

  lemma RenamedAppend(a: seq<(string, Json)>, b: seq<(string, Json)>)
    ensures Renamed(a + b) == Renamed(a) + Renamed(b)
  {
  }

  lemma RenamedRequired(e: TelemetryEvent, s: RowKeys, c: RowKeys)
    requires RenamesTo(s, c)
    ensures Renamed(RequiredFields(e, s)) == RequiredFields(e, c)
  {
  }

  lemma RenamedOpt(key: string, value: Option<Json>)
    ensures Renamed(Opt(key, value)) == Opt(ToCamel(key), value)
  {
  }

  lemma RenamedRow(e: TelemetryEvent, s: RowKeys, c: RowKeys)
    requires RenamesTo(s, c)
    ensures Renamed(RowFields(e, s)) == RowFields(e, c)
  {
    RenamedRequired(e, s, c);
    RenamedOpt(s.traceId, OptString(e.traceId));
    RenamedOpt(s.parentEventId, OptString(e.parentEventId));
    RenamedOpt(s.error, OptError(e.error));
    RenamedOpt(s.deploymentUrl, Some(JString(e.context.deploymentUrl)));
    RenamedPieces(RequiredFields(e, s), Opt(s.traceId, OptString(e.traceId)), Opt(s.parentEventId, OptString(e.parentEventId)),
      Opt(s.error, OptError(e.error)), [(s.deploymentUrl, JString(e.context.deploymentUrl))]);
  }

  lemma RenamedPieces(a: seq<(string, Json)>, b: seq<(string, Json)>, c: seq<(string, Json)>,
                      d: seq<(string, Json)>, e: seq<(string, Json)>)
    ensures Renamed(a + b + c + d + e) == Renamed(a) + Renamed(b) + Renamed(c) + Renamed(d) + Renamed(e)
  {
    RenamedAppend(a + b + c + d, e);
    RenamedAppend(a + b + c, d);
    RenamedAppend(a + b, c);
    RenamedAppend(a, b);
  }

  lemma RowKeysDistinct(e: TelemetryEvent)
    ensures DistinctKeys(RowFields(e, CAMEL))
  {
  }

  lemma RowHasNoKind(e: TelemetryEvent)
    ensures Field(RowFields(e, CAMEL), "kind") == None
  {
    FieldAbsent(RowFields(e, CAMEL), "kind");
  }

  lemma FieldIs(fields: seq<(string, Json)>, key: string, value: Json)
    requires DistinctKeys(fields) && (key, value) in fields
    ensures Field(fields, key) == Some(value)
  {
    var i :| 0 <= i < |fields| && fields[i] == (key, value);
    FieldFound(fields, i);
  }

  /** An optional entry is found when it was written and absent when it was not. */
  lemma OptionalFound(f: seq<(string, Json)>, key: string, value: Option<Json>)
    requires DistinctKeys(f)
    requires value.Some? ==> (key, value.value) in f
    requires value.None? ==> forall i :: 0 <= i < |f| ==> f[i].0 != key
    ensures Field(f, key) == value
  {
    if value.Some? { FieldIs(f, key, value.value); } else { FieldAbsent(f, key); }
  }

  lemma OptionalFields(e: TelemetryEvent)
    ensures Field(RowFields(e, CAMEL), "traceId") == OptString(e.traceId)
    ensures Field(RowFields(e, CAMEL), "parentEventId") == OptString(e.parentEventId)
    ensures Field(RowFields(e, CAMEL), "error") == OptError(e.error)
  {
    var f := RowFields(e, CAMEL);
    RowKeysDistinct(e);
    OptionalFound(f, "traceId", OptString(e.traceId));
    OptionalFound(f, "parentEventId", OptString(e.parentEventId));
    OptionalFound(f, "error", OptError(e.error));
  }

  lemma RequiredFieldsFound(e: TelemetryEvent)
    ensures var f := RowFields(e, CAMEL);
      && Field(f, "eventId") == Some(JString(e.eventId))
      && Field(f, "eventName") == Some(JString(e.eventName))
      && Field(f, "timestamp") == Some(JString(e.timestamp))
      && Field(f, "eventSequence") == Some(NumToJson(e.eventSequence))
      && Field(f, "properties") == Some(JObject(Strings(e.properties)))
      && Field(f, "measurements") == Some(JObject(Numbers(e.measurements)))
      && Field(f, "deploymentUrl") == Some(JString(e.context.deploymentUrl))
      && Field(f, "kind") == None
  {
    var f := RowFields(e, CAMEL);
    RowKeysDistinct(e);
    assert RequiredFields(e, CAMEL) <= f;
    FieldFound(f, 0);
    FieldFound(f, 1);
    FieldFound(f, 2);
    FieldFound(f, 3);
    FieldFound(f, 4);
    FieldFound(f, 5);
    FieldFound(f, |f| - 1);
    RowHasNoKind(e);
  }

  lemma ErrorReadsBack(e: TelemetryEvent)
    ensures ReadError(RowFields(e, CAMEL)) == Some(e.error)
  {
    OptionalFields(e);
    if e.error.Some? {
      ErrorFieldsReadBack(e.error.value);
    }
  }

  lemma ErrorFieldsReadBack(err: ErrorInfo)
    ensures var inner := ErrorToJson(err).fields;
      && StringField(inner, "message") == Some(err.message)
      && Field(inner, "type") == OptString(err.kind)
      && Field(inner, "code") == OptString(err.code)
  {
    var inner := ErrorToJson(err).fields;
    assert DistinctKeys(inner);
    FieldFound(inner, 0);
    if err.kind.Some? { FieldFound(inner, 1); } else { FieldAbsent(inner, "type"); }
    if err.code.Some? { FieldFound(inner, |inner| - 1); } else { FieldAbsent(inner, "code"); }
  }

  /** Every number the event carries has JSON text, and its timestamp reads as an instant. */
  predicate Representable(instant: Instant, e: TelemetryEvent) {
    && instant(e.timestamp).Some?
    && e.eventSequence.Finite?
    && forall i :: 0 <= i < |e.measurements| ==> e.measurements[i].1.Finite?
  }

  lemma NumbersReadBack(entries: seq<(string, Num)>)
    ensures AllNumbers(Numbers(entries)) <==> forall i :: 0 <= i < |entries| ==> entries[i].1.Finite?
    ensures AllNumbers(Numbers(entries)) ==> ReadNumbers(Numbers(entries)) == entries
  {
    forall i | 0 <= i < |entries| ensures Numbers(entries)[i].1.JNumber? <==> entries[i].1.Finite? {
    }
  }

  /**
   * Row round trip, exactly: under a header of the event's own session and schema version the
   * row an event is written as reads back as that event if and only if the event is
   * representable; otherwise the line is a parse error. One NaN measurement is enough.
   */
  lemma RowReadsBackExactly(instant: Instant, header: Header, e: TelemetryEvent)
    requires header.context == e.context.session && header.schemaVersion == e.schemaVersion
    ensures ParseLine(instant, Some(header), EventLine(e))
         == (Some(header), if Representable(instant, e) then Ok(Some(e)) else Err(BadRow))
  {
    SnakeRenamesToCamel();
    RenamedRow(e, SNAKE, CAMEL);
    RequiredFieldsFound(e);
    CamelRowReads(instant, header, e, RowFields(e, CAMEL));
  }

  lemma CamelRowReads(instant: Instant, header: Header, e: TelemetryEvent, f: seq<(string, Json)>)
    requires f == RowFields(e, CAMEL)
    requires header.context == e.context.session && header.schemaVersion == e.schemaVersion
    ensures ReadRow(instant, header, f) == if Representable(instant, e) then Some(e) else None
  {
    RequiredFieldsFound(e);
    OptionalFields(e);
    ErrorReadsBack(e);
    NumbersReadBack(e.measurements);
    StringsReadBack(e.properties);
    FoundRowReads(instant, header, e, f);
  }

  lemma StringsReadBack(entries: seq<(string, string)>)
    ensures AllStrings(Strings(entries)) && ReadStrings(Strings(entries)) == entries
  {
  }

  /** A row whose fields are those of the event is read as the event. */
  lemma FoundRowReads(instant: Instant, header: Header, e: TelemetryEvent, f: seq<(string, Json)>)
    requires StringField(f, "eventId") == Some(e.eventId) && StringField(f, "eventName") == Some(e.eventName)
    requires StringField(f, "timestamp") == Some(e.timestamp) && Field(f, "eventSequence") == Some(NumToJson(e.eventSequence))
    requires Field(f, "properties") == Some(JObject(Strings(e.properties)))
    requires Field(f, "measurements") == Some(JObject(Numbers(e.measurements)))
    requires Field(f, "traceId") == OptString(e.traceId) && Field(f, "parentEventId") == OptString(e.parentEventId)
    requires ReadError(f) == Some(e.error) && StringField(f, "deploymentUrl") == Some(e.context.deploymentUrl)
    requires AllStrings(Strings(e.properties)) && ReadStrings(Strings(e.properties)) == e.properties
    requires AllNumbers(Numbers(e.measurements)) <==> forall i :: 0 <= i < |e.measurements| ==> e.measurements[i].1.Finite?
    requires AllNumbers(Numbers(e.measurements)) ==> ReadNumbers(Numbers(e.measurements)) == e.measurements
    requires header.context == e.context.session && header.schemaVersion == e.schemaVersion
    ensures ReadRow(instant, header, f) == if Representable(instant, e) then Some(e) else None
  {
  }

  lemma CamelKind()
    ensures ToCamel("kind") == "kind"
  {
    CamelPlain("kind");
  }

  lemma CamelContext()
    ensures ToCamel("context") == "context"
  {
    CamelPlain("context");
  }

  lemma CamelSchemaVersion()
    ensures ToCamel("schema_version") == "schemaVersion"
  {
    CamelTwo("schema_version", "schema", 'v', "ersion", "schemaVersion");
  }

  lemma CamelExtensionVersion()
    ensures ToCamel(SNAKE_SESSION.extensionVersion) == CAMEL_SESSION.extensionVersion
  {
    CamelTwo(SNAKE_SESSION.extensionVersion, "extension", 'v', "ersion", CAMEL_SESSION.extensionVersion);
  }

  lemma CamelMachineId()
    ensures ToCamel(SNAKE_SESSION.machineId) == CAMEL_SESSION.machineId
  {
    CamelTwo(SNAKE_SESSION.machineId, "machine", 'i', "d", CAMEL_SESSION.machineId);
  }

  lemma CamelSessionId()
    ensures ToCamel(SNAKE_SESSION.sessionId) == CAMEL_SESSION.sessionId
  {
    CamelTwo(SNAKE_SESSION.sessionId, "session", 'i', "d", CAMEL_SESSION.sessionId);
  }

  lemma CamelOsType()
    ensures ToCamel(SNAKE_SESSION.osType) == CAMEL_SESSION.osType
  {
    CamelTwo(SNAKE_SESSION.osType, "os", 't', "ype", CAMEL_SESSION.osType);
  }

  lemma CamelOsVersion()
    ensures ToCamel(SNAKE_SESSION.osVersion) == CAMEL_SESSION.osVersion
  {
    CamelTwo(SNAKE_SESSION.osVersion, "os", 'v', "ersion", CAMEL_SESSION.osVersion);
  }

  lemma CamelHostArch()
    ensures ToCamel(SNAKE_SESSION.hostArch) == CAMEL_SESSION.hostArch
  {
    CamelTwo(SNAKE_SESSION.hostArch, "host", 'a', "rch", CAMEL_SESSION.hostArch);
  }

  lemma CamelPlatformName()
    ensures ToCamel(SNAKE_SESSION.platformName) == CAMEL_SESSION.platformName
  {
    CamelTwo(SNAKE_SESSION.platformName, "platform", 'n', "ame", CAMEL_SESSION.platformName);
  }

  lemma CamelPlatformVersion()
    ensures ToCamel(SNAKE_SESSION.platformVersion) == CAMEL_SESSION.platformVersion
  {
    CamelTwo(SNAKE_SESSION.platformVersion, "platform", 'v', "ersion", CAMEL_SESSION.platformVersion);
  }

  predicate SessionRenamesTo(s: SessionKeys, c: SessionKeys) {
    && ToCamel(s.extensionVersion) == c.extensionVersion && ToCamel(s.machineId) == c.machineId
    && ToCamel(s.sessionId) == c.sessionId && ToCamel(s.osType) == c.osType
    && ToCamel(s.osVersion) == c.osVersion && ToCamel(s.hostArch) == c.hostArch
    && ToCamel(s.platformName) == c.platformName && ToCamel(s.platformVersion) == c.platformVersion
  }

  lemma SnakeSessionRenames()
    ensures SessionRenamesTo(SNAKE_SESSION, CAMEL_SESSION)
  {
    CamelExtensionVersion();
    CamelMachineId();
    CamelSessionId();
    CamelOsType();
    CamelOsVersion();
    CamelHostArch();
    CamelPlatformName();
    CamelPlatformVersion();
  }

  lemma RenamedSession(c: SessionContext, s: SessionKeys, k: SessionKeys)
    requires SessionRenamesTo(s, k)
    ensures Renamed(SessionFields(c, s)) == SessionFields(c, k)
  {
  }

  lemma SessionReadsBack(c: SessionContext)
    ensures ReadContext(Renamed(SessionFields(c, SNAKE_SESSION))) == Some(c)
  {
    SnakeSessionRenames();
    RenamedSession(c, SNAKE_SESSION, CAMEL_SESSION);
    SessionFieldsFound(c, SessionFields(c, CAMEL_SESSION));
  }

  lemma SessionFieldsFound(c: SessionContext, f: seq<(string, Json)>)
    requires f == SessionFields(c, CAMEL_SESSION)
    ensures ReadContext(f) == Some(c)
  {
    SessionKeysDistinct(c);
    assert |f| == 8;
    FieldFound(f, 0);
    FieldFound(f, 1);
    FieldFound(f, 2);
    FieldFound(f, 3);
    FieldFound(f, 4);
    FieldFound(f, 5);
    FieldFound(f, 6);
    FieldFound(f, 7);
  }

  lemma SessionKeysDistinct(c: SessionContext)
    ensures DistinctKeys(SessionFields(c, CAMEL_SESSION))
  {
  }

  predicate HeaderRenamesTo(s: HeaderKeys, c: HeaderKeys) {
    && ToCamel(s.kind) == c.kind && ToCamel(s.schemaVersion) == c.schemaVersion
    && ToCamel(s.timestamp) == c.timestamp && ToCamel(s.context) == c.context
  }

  lemma RenamedHeader(c: SessionContext, now: string, s: HeaderKeys, k: HeaderKeys)
    requires HeaderRenamesTo(s, k)
    ensures Renamed(HeaderFields(c, now, s)) == HeaderFields(c, now, k)
  {
  }

  lemma HeaderFieldsFound(c: SessionContext, now: string)
    ensures var f := Renamed(HeaderLine(c, now).fields);
      && Field(f, "kind") == Some(JString("header"))
      && Field(f, "schemaVersion") == Some(JNumber(CURRENT_TELEMETRY_SCHEMA_VERSION as real))
      && Field(f, "timestamp") == Some(JString(now))
      && Field(f, "context") == Some(JObject(SessionFields(c, SNAKE_SESSION)))
  {
    SnakeHeaderRenames();
    RenamedHeader(c, now, SNAKE_HEADER, CAMEL_HEADER);
    CamelHeaderFound(c, now, HeaderFields(c, now, CAMEL_HEADER));
  }

  lemma SnakeHeaderRenames()
    ensures HeaderRenamesTo(SNAKE_HEADER, CAMEL_HEADER)
  {
    CamelKind();
    CamelTimestamp();
    CamelContext();
    CamelSchemaVersion();
  }

  lemma CamelHeaderFound(c: SessionContext, now: string, f: seq<(string, Json)>)
    requires f == HeaderFields(c, now, CAMEL_HEADER)
    ensures Field(f, "kind") == Some(JString("header"))
    ensures Field(f, "schemaVersion") == Some(JNumber(CURRENT_TELEMETRY_SCHEMA_VERSION as real))
    ensures Field(f, "timestamp") == Some(JString(now))
    ensures Field(f, "context") == Some(JObject(SessionFields(c, SNAKE_SESSION)))
  {
    assert DistinctKeys(f);
    FieldFound(f, 0);
    FieldFound(f, 1);
    FieldFound(f, 2);
    FieldFound(f, 3);
  }

  /** The header of a file reads back as the session it was written for, whenever its time reads. */
  lemma HeaderReadsBack(instant: Instant, c: SessionContext, now: string)
    requires instant(now).Some?
    ensures ParseLine(instant, None, HeaderLine(c, now))
         == (Some(Header(CURRENT_TELEMETRY_SCHEMA_VERSION, now, c)), Ok(None))
  {
    var f := Renamed(HeaderLine(c, now).fields);
    HeaderFieldsFound(c, now);
    SessionReadsBack(c);
    HeaderSchemaReads(instant, f, c, now, SessionFields(c, SNAKE_SESSION));
  }

  lemma HeaderSchemaReads(instant: Instant, f: seq<(string, Json)>, c: SessionContext, now: string,
                          context: seq<(string, Json)>)
    requires instant(now).Some? && ReadContext(Renamed(context)) == Some(c)
    requires Field(f, "schemaVersion") == Some(JNumber(CURRENT_TELEMETRY_SCHEMA_VERSION as real))
    requires Field(f, "timestamp") == Some(JString(now)) && Field(f, "context") == Some(JObject(context))
    ensures ReadHeader(instant, f) == Some(Header(CURRENT_TELEMETRY_SCHEMA_VERSION, now, c))
  {
    assert StringField(f, "timestamp") == Some(now);
  }

  /** A second header is an error that leaves the first one in force. */
  lemma SecondHeaderRejected(instant: Instant, header: Header, c: SessionContext, now: string)
    ensures ParseLine(instant, Some(header), HeaderLine(c, now)) == (Some(header), Err(SecondHeader))
  {
    HeaderFieldsFound(c, now);
  }
}
