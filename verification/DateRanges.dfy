/** Telemetry date ranges (src/telemetry/export/range.ts): half-open windows of UTC milliseconds. */
module DateRanges {
  import opened Basics
  import opened Text
  import opened Calendar

  datatype DateRange = DateRange(startMs: Option<int>, endMs: Option<int>)

  datatype RangeError = InvalidDate(error: DateError) | EndBeforeStart

  const ALL_TIME := DateRange(None, None)

  /** `createCustomDateRange`. */
  function CustomRange(startDate: string, endDate: string): Result<DateRange, RangeError> {
    var start, end := ParseUtcDate(startDate), ParseUtcDate(endDate);
    if start.Err? then Err(InvalidDate(start.error))
    else if end.Err? then Err(InvalidDate(end.error))
    else if end.value < start.value then Err(EndBeforeStart)
    else Ok(DateRange(Some(start.value), Some(end.value + DAY_MS)))
  }

  predicate InRange(ms: int, r: DateRange) {
    (r.startMs.None? || ms >= r.startMs.value) && (r.endMs.None? || ms < r.endMs.value)
  }

  /** Both bounds fall on dates that have a text. */
  predicate HasDates(r: DateRange) {
    && (r.startMs.Some? ==> HasText(UtcDay(r.startMs.value)))
    && (r.endMs.Some? ==> HasText(UtcDay(r.endMs.value - 1)))
  }

  /** The coarse filter on file dates; it compares date texts. */
  predicate FileDateCanContain(date: string, r: DateRange)
    requires HasDates(r)
  {
    && (r.startMs.None? || LexLe(DateText(UtcDay(r.startMs.value)), date))
    && (r.endMs.None? || LexLe(date, DateText(UtcDay(r.endMs.value - 1))))
  }

  lemma DateTextLe(a: int, b: int)
    requires HasText(a) && HasText(b)
    ensures LexLe(DateText(a), DateText(b)) <==> a <= b
  {
    if a < b {
      DateTextOrder(a, b);
    } else if b < a {
      DateTextOrder(b, a);
      if LexLe(DateText(a), DateText(b)) { LexAntisymmetric(DateText(a), DateText(b)); }
    } else {
      LexTotal(DateText(a), DateText(b));
    }
  }

  lemma TextBetween(a: int, day: int, b: int)
    requires HasText(a) && HasText(b) && a <= day <= b
    ensures HasText(day)
  {
    if a < day { CivilIncreases(a, day); }
    if day < b { CivilIncreases(day, b); }
  }

  /** A date from the year 100 on, so one that `Date.UTC` takes as it is written. */
  predicate ReadsAsWritten(date: string) {
    ParseUtcDate(date).Ok? && ReadCivil(date).year >= 100
  }

  /** The range of whole days from `start` to `end`. */
  function DaysFrom(start: int, end: int): DateRange {
    DateRange(Some(start * DAY_MS), Some(end * DAY_MS + DAY_MS))
  }

  lemma DaysFromExactly(start: int, end: int, ms: int)
    ensures InRange(ms, DaysFrom(start, end)) <==> start <= UtcDay(ms) <= end
    ensures UtcDay(DaysFrom(start, end).startMs.value) == start && UtcDay(DaysFrom(start, end).endMs.value - 1) == end
  {
  }

  /** Whole days take in an instant if and only if its date's text lies between theirs. */
  lemma DaysAsTexts(start: int, end: int, day: int)
    requires HasText(start) && HasText(end)
    ensures start <= day <= end
       <==> HasText(day) && LexLe(DateText(start), DateText(day)) && LexLe(DateText(day), DateText(end))
  {
    if start <= day <= end { TextBetween(start, day, end); }
    if HasText(day) {
      DateTextLe(start, day);
      DateTextLe(day, end);
    }
  }

  /** The text of `day`, read as its midnight. */
  predicate IsTextOf(date: string, day: int) {
    HasText(day) && DateText(day) == date && ParseUtcDate(date) == Ok(day * DAY_MS)
  }

  lemma RangeOfTexts(startDate: string, endDate: string, start: int, end: int)
    requires IsTextOf(startDate, start) && IsTextOf(endDate, end)
    ensures CustomRange(startDate, endDate).Ok? <==> start <= end
    ensures start <= end ==> CustomRange(startDate, endDate) == Ok(DaysFrom(start, end))
  {
  }

  /**
   * A custom range exists if and only if its dates are in order, and it accepts an instant if
   * and only if the text of the instant's UTC date lies between the two dates as written.
   */
  lemma CustomRangeExactly(startDate: string, endDate: string, ms: int)
    requires ReadsAsWritten(startDate) && ReadsAsWritten(endDate)
    ensures CustomRange(startDate, endDate).Ok? <==> LexLe(startDate, endDate)
    ensures CustomRange(startDate, endDate).Ok? ==>
      (InRange(ms, CustomRange(startDate, endDate).value)
       <==> HasText(UtcDay(ms)) && LexLe(startDate, DateText(UtcDay(ms))) && LexLe(DateText(UtcDay(ms)), endDate))
    ensures CustomRange(startDate, endDate).Ok? ==> HasDates(CustomRange(startDate, endDate).value)
  {
    ParsedDateIsADay(startDate);
    ParsedDateIsADay(endDate);
    CustomRangeOfDays(startDate, endDate, DayNumber(ReadCivil(startDate)), DayNumber(ReadCivil(endDate)), ms);
  }

  lemma CustomRangeOfDays(startDate: string, endDate: string, start: int, end: int, ms: int)
    requires IsTextOf(startDate, start) && IsTextOf(endDate, end)
    ensures CustomRange(startDate, endDate).Ok? <==> LexLe(startDate, endDate)
    ensures CustomRange(startDate, endDate).Ok? ==>
      (InRange(ms, CustomRange(startDate, endDate).value)
       <==> HasText(UtcDay(ms)) && LexLe(startDate, DateText(UtcDay(ms))) && LexLe(DateText(UtcDay(ms)), endDate))
    ensures CustomRange(startDate, endDate).Ok? ==> HasDates(CustomRange(startDate, endDate).value)
  {
    RangeOfTexts(startDate, endDate, start, end);
    DateTextLe(start, end);
    DaysFromExactly(start, end, ms);
    DaysAsTexts(start, end, UtcDay(ms));
  }

  /** The filter on dates is the filter on day numbers. */
  lemma CanContainDays(day: int, r: DateRange)
    requires HasText(day) && HasDates(r)
    ensures FileDateCanContain(DateText(day), r)
       <==> (r.startMs.Some? ==> UtcDay(r.startMs.value) <= day) && (r.endMs.Some? ==> day <= UtcDay(r.endMs.value - 1))
  {
    if r.startMs.Some? {
      var first := UtcDay(r.startMs.value);
      DateTextLe(first, day);
    }
    if r.endMs.Some? {
      var last := UtcDay(r.endMs.value - 1);
      DateTextLe(day, last);
    }
  }

  /** No range that accepts the instant skips a file of that date. */
  ghost predicate NeverSkipped(day: int, ms: int)
    requires HasText(day)
  {
    forall r :: HasDates(r) && InRange(ms, r) ==> FileDateCanContain(DateText(day), r)
  }

  /**
   * Pruning by file date, exactly: an event in a file dated `day` is safe from every range
   * that accepts it if and only if the event's own UTC date is the file's date. The sink dates
   * files when it flushes, so an event buffered across midnight is not safe.
   */
  lemma PruningSafeExactly(day: int, ms: int)
    requires HasText(day) && HasText(UtcDay(ms))
    ensures NeverSkipped(day, ms) <==> UtcDay(ms) == day
  {
    if UtcDay(ms) == day {
      forall r | HasDates(r) && InRange(ms, r) ensures FileDateCanContain(DateText(day), r) {
        CanContainDays(day, r);
      }
    } else {
      var own := UtcDay(ms);
      DaysFromExactly(own, own, ms);
      CanContainDays(day, DaysFrom(own, own));
    }
  }
}
