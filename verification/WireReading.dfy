/**
 * Which lines the telemetry parser accepts (src/telemetry/wireFormat.ts, `TelemetryFileParser`),
 * whoever wrote them: a line reads as an event, or as a header, if and only if it carries
 * every field of it the way the writer would have written that field. Key order, further
 * keys and repeated keys are all the freedom a line has.
 */
module WireReading {
  import opened Basics
  import opened WireFormat

  /** The error of an event: absent, or an object with the message and the optional texts. */
  predicate CarriesError(f: seq<(string, Json)>, error: Option<ErrorInfo>) {
    var found := Field(f, "error");
    if error.None? then found.None?
    else
      && found.Some? && found.value.JObject?
      && Field(found.value.fields, "message") == Some(JString(error.value.message))
      && Field(found.value.fields, "type") == OptString(error.value.kind)
      && Field(found.value.fields, "code") == OptString(error.value.code)
  }

  /** Every one of the given fields is found as it is given. */
  predicate Carries(f: seq<(string, Json)>, fields: seq<(string, Json)>) {
    forall i :: 0 <= i < |fields| ==> Field(f, fields[i].0) == Some(fields[i].1)
  }

  /** The fields of the event as the writer gives them, under the keys the reader sees. */
  predicate CarriesRow(f: seq<(string, Json)>, e: TelemetryEvent) {
    && Field(f, "kind") == None
    && Carries(f, RequiredFields(e, CAMEL))
    && Field(f, "traceId") == OptString(e.traceId)
    && Field(f, "parentEventId") == OptString(e.parentEventId)
    && CarriesError(f, e.error)
    && Field(f, "deploymentUrl") == Some(JString(e.context.deploymentUrl))
  }

  /** The fields of a header as the writer gives them; its session's keys are renamed as well. */
  predicate CarriesHeader(f: seq<(string, Json)>, h: Header) {
    var context := Field(f, "context");
    && Field(f, "kind") == Some(JString("header"))
    && Field(f, "schemaVersion") == Some(JNumber(h.schemaVersion as real))
    && Field(f, "timestamp") == Some(JString(h.timestamp))
    && context.Some? && context.value.JObject?
    && Carries(Renamed(context.value.fields), SessionFields(h.context, CAMEL_SESSION))
  }

  // ----- rows -----

  lemma RequiredCarried(f: seq<(string, Json)>, e: TelemetryEvent)
    ensures Carries(f, RequiredFields(e, CAMEL)) <==>
            && Field(f, "eventId") == Some(JString(e.eventId))
            && Field(f, "eventName") == Some(JString(e.eventName))
            && Field(f, "timestamp") == Some(JString(e.timestamp))
            && Field(f, "eventSequence") == Some(NumToJson(e.eventSequence))
            && Field(f, "properties") == Some(JObject(Strings(e.properties)))
            && Field(f, "measurements") == Some(JObject(Numbers(e.measurements)))
  {
    var required := RequiredFields(e, CAMEL);
    assert required[0].0 == "eventId" && required[1].0 == "eventName" && required[2].0 == "timestamp";
    assert required[3].0 == "eventSequence" && required[4].0 == "properties" && required[5].0 == "measurements";
  }

  lemma StringsWriteBack(fields: seq<(string, Json)>)
    requires AllStrings(fields)
    ensures Strings(ReadStrings(fields)) == fields
  {
  }

  lemma NumbersWriteBack(fields: seq<(string, Json)>)
    requires AllNumbers(fields)
    ensures Numbers(ReadNumbers(fields)) == fields
  {
  }

  lemma ErrorReadExactly(f: seq<(string, Json)>, error: Option<ErrorInfo>)
    ensures ReadError(f) == Some(error) <==> CarriesError(f, error)
  {
  }

  lemma CarriedIsRead(instant: Instant, h: Header, f: seq<(string, Json)>, e: TelemetryEvent)
    requires CarriesRow(f, e) && Representable(instant, e)
    requires e.schemaVersion == h.schemaVersion && e.context.session == h.context
    ensures ReadRow(instant, h, f) == Some(e)
  {
    RequiredCarried(f, e);
    ErrorReadExactly(f, e.error);
    NumbersReadBack(e.measurements);
    StringsReadBack(e.properties);
    FoundRowReads(instant, h, e, f);
  }

  lemma ReadIsCarried(instant: Instant, h: Header, f: seq<(string, Json)>)
    requires ReadRow(instant, h, f).Some? && Field(f, "kind") == None
    ensures var e := ReadRow(instant, h, f).value;
      CarriesRow(f, e) && Representable(instant, e) && e.schemaVersion == h.schemaVersion && e.context.session == h.context
  {
    var e := ReadRow(instant, h, f).value;
    StringsWriteBack(Field(f, "properties").value.fields);
    NumbersWriteBack(Field(f, "measurements").value.fields);
    RequiredCarried(f, e);
    ErrorReadExactly(f, e.error);
  }

  /**
   * Rows, exactly: under a header an object reads as an event if and only if it carries the
   * event's fields, the event is representable and takes its version and session from the header.
   */
  lemma RowReadExactly(instant: Instant, h: Header, line: Json, e: TelemetryEvent)
    ensures ParseLine(instant, Some(h), line).1 == Ok(Some(e)) <==>
            && line.JObject? && CarriesRow(Renamed(line.fields), e) && Representable(instant, e)
            && e.schemaVersion == h.schemaVersion && e.context.session == h.context
  {
    if line.JObject? {
      var f := Renamed(line.fields);
      if Field(f, "kind") == None && ReadRow(instant, h, f).Some? { ReadIsCarried(instant, h, f); }
      if CarriesRow(f, e) && Representable(instant, e) && e.schemaVersion == h.schemaVersion
         && e.context.session == h.context
      {
        CarriedIsRead(instant, h, f, e);
      }
    }
  }

  // ----- headers -----

  lemma SessionCarried(c: seq<(string, Json)>, session: SessionContext)
    ensures Carries(c, SessionFields(session, CAMEL_SESSION)) <==>
            && Field(c, "extensionVersion") == Some(JString(session.extensionVersion))
            && Field(c, "machineId") == Some(JString(session.machineId))
            && Field(c, "sessionId") == Some(JString(session.sessionId))
            && Field(c, "osType") == Some(JString(session.osType))
            && Field(c, "osVersion") == Some(JString(session.osVersion))
            && Field(c, "hostArch") == Some(JString(session.hostArch))
            && Field(c, "platformName") == Some(JString(session.platformName))
            && Field(c, "platformVersion") == Some(JString(session.platformVersion))
  {
    var fields := SessionFields(session, CAMEL_SESSION);
    assert fields[0].0 == "extensionVersion" && fields[1].0 == "machineId" && fields[2].0 == "sessionId";
    assert fields[3].0 == "osType" && fields[4].0 == "osVersion" && fields[5].0 == "hostArch";
    assert fields[6].0 == "platformName" && fields[7].0 == "platformVersion";
  }

  /** A text is found as a text, whatever else may stand under a key. */
  lemma StringFound(f: seq<(string, Json)>, key: string, text: string)
    ensures StringField(f, key) == Some(text) <==> Field(f, key) == Some(JString(text))
  {
  }

  lemma ContextReadExactly(c: seq<(string, Json)>, session: SessionContext)
    ensures ReadContext(c) == Some(session) <==> Carries(c, SessionFields(session, CAMEL_SESSION))
  {
    SessionCarried(c, session);
    StringFound(c, "extensionVersion", session.extensionVersion);
    StringFound(c, "machineId", session.machineId);
    StringFound(c, "sessionId", session.sessionId);
    StringFound(c, "osType", session.osType);
    StringFound(c, "osVersion", session.osVersion);
    StringFound(c, "hostArch", session.hostArch);
    StringFound(c, "platformName", session.platformName);
    StringFound(c, "platformVersion", session.platformVersion);
  }

  lemma CarriedHeaderIsRead(instant: Instant, f: seq<(string, Json)>, h: Header)
    requires CarriesHeader(f, h) && h.schemaVersion > 0 && instant(h.timestamp).Some?
    ensures ReadHeader(instant, f) == Some(h)
  {
    ContextReadExactly(Renamed(Field(f, "context").value.fields), h.context);
    StringFound(f, "timestamp", h.timestamp);
  }

  lemma ReadHeaderIsCarried(instant: Instant, f: seq<(string, Json)>, h: Header)
    requires ReadHeader(instant, f) == Some(h) && Field(f, "kind") == Some(JString("header"))
    ensures CarriesHeader(f, h) && h.schemaVersion > 0 && instant(h.timestamp).Some?
  {
    ContextReadExactly(Renamed(Field(f, "context").value.fields), h.context);
    StringFound(f, "timestamp", h.timestamp);
  }

  /**
   * Headers, exactly: as the first line an object reads as a header if and only if it carries
   * the header's fields, a positive version and a timestamp that reads as an instant.
   */
  lemma HeaderReadExactly(instant: Instant, line: Json, h: Header)
    ensures ParseLine(instant, None, line) == (Some(h), Ok(None)) <==>
            && line.JObject? && CarriesHeader(Renamed(line.fields), h)
            && h.schemaVersion > 0 && instant(h.timestamp).Some?
  {
    if line.JObject? {
      var f := Renamed(line.fields);
      if ParseLine(instant, None, line) == (Some(h), Ok(None)) { ReadHeaderIsCarried(instant, f, h); }
      if CarriesHeader(f, h) && h.schemaVersion > 0 && instant(h.timestamp).Some? { CarriedHeaderIsRead(instant, f, h); }
    }
  }

  // ----- every line -----

  /**
   * A line that is no error is a header before any other header, or a row after one; the header
   * in force changes with the former alone. What is wrong with any other line is told apart.
   */
  lemma LineDecidedExactly(instant: Instant, header: Option<Header>, line: Json)
    ensures var (next, r) := ParseLine(instant, header, line);
      var kind := if line.JObject? then Field(Renamed(line.fields), "kind") else None;
      && (r.Ok? ==> next.Some? && (r.value.None? <==> header.None?))
      && (next != header <==> r == Ok(None))
      && (r == Err(NotAnObject) <==> !line.JObject?)
      && (r == Err(UnknownKind) <==> kind.Some? && kind != Some(JString("header")))
      && (r == Err(SecondHeader) <==> header.Some? && kind == Some(JString("header")))
      && (r == Err(NoHeader) <==> line.JObject? && header.None? && kind.None?)
  {
  }

  // ----- keys -----

  lemma UnderscoreFirst(rest: string)
    ensures ToCamel("_" + rest)
         == if rest != "" && 'a' <= rest[0] <= 'z' then [Upper(rest[0])] + ToCamel(rest[1..]) else "_" + ToCamel(rest)
  {
    var key := "_" + rest;
    assert key[1..] == rest;
    if rest != "" { assert key[2..] == rest[1..]; }
  }

  lemma FirstStays(word: string, rest: string)
    requires word != "" && word[0] != '_'
    ensures ToCamel(word + "_" + rest) == [word[0]] + ToCamel(word[1..] + "_" + rest)
  {
    var key := word + "_" + rest;
    assert key[1..] == word[1..] + "_" + rest;
  }

  /** Up to the first underscore a key stays; a small letter behind it goes up and takes its place. */
  lemma {:induction false} CamelExactly(word: string, rest: string)
    requires '_' !in word
    ensures ToCamel(word) == word
    ensures ToCamel(word + "_" + rest)
         == if rest != "" && 'a' <= rest[0] <= 'z' then word + [Upper(rest[0])] + ToCamel(rest[1..])
            else word + "_" + ToCamel(rest)
  {
    CamelPlain(word);
    if word == "" {
      UnderscoreFirst(rest);
      assert word + "_" + rest == "_" + rest;
    } else {
      CamelExactly(word[1..], rest);
      FirstStays(word, rest);
    }
  }
}
