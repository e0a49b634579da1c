/**
 * UTC dates (src/util/date.ts). A date is a day number relative to 1970-01-01; its text is
 * the first ten characters of the ISO form. Printing and reading back are inverse, and
 * string order on the texts is day order.
 */
module Calendar {
  import opened Basics
  import opened Text

  const DAY_MS := 86_400_000

  /** The UTC date of an instant. */
  function UtcDay(ms: int): int {
    ms / DAY_MS
  }

  /** A day lasts from its midnight to the next, 24 hours later, before 1970 too. */
  lemma DayExactly(ms: int, day: int)
    ensures UtcDay(ms) == day <==> day * (24 * 60 * 60 * 1000) <= ms < (day + 1) * (24 * 60 * 60 * 1000)
  {
  }

  /** A date of the proleptic Gregorian calendar. */
  datatype Civil = Civil(year: int, month: nat, day: nat)

  predicate IsLeap(year: int) {
    year % 4 == 0 && (year % 100 != 0 || year % 400 == 0)
  }

  function DaysIn(year: int, month: nat): nat {
    if month == 2 then (if IsLeap(year) then 29 else 28)
    else if month in {4, 6, 9, 11} then 30
    else 31
  }

  predicate IsCivil(c: Civil) {
    1 <= c.month <= 12 && 1 <= c.day <= DaysIn(c.year, c.month)
  }

  function NextDate(c: Civil): Civil {
    if c.day < DaysIn(c.year, c.month) then c.(day := c.day + 1)
    else if c.month < 12 then Civil(c.year, c.month + 1, 1)
    else Civil(c.year + 1, 1, 1)
  }

  function PreviousDate(c: Civil): Civil
    requires IsCivil(c)
  {
    if c.day > 1 then c.(day := c.day - 1)
    else if c.month > 1 then Civil(c.year, c.month - 1, DaysIn(c.year, c.month - 1))
    else Civil(c.year - 1, 12, 31)
  }

  function CivilOf(day: int): (c: Civil)
    ensures IsCivil(c)
    decreases if day < 0 then -day else day
  {
    if day == 0 then Civil(1970, 1, 1)
    else if day > 0 then NextDate(CivilOf(day - 1))
    else PreviousDate(CivilOf(day + 1))
  }

  predicate Earlier(a: Civil, b: Civil) {
    a.year < b.year || (a.year == b.year && (a.month < b.month || (a.month == b.month && a.day < b.day)))
  }

  lemma NextOfPrevious(c: Civil)
    requires IsCivil(c)
    ensures NextDate(PreviousDate(c)) == c
  {
  }

  lemma NextDay(day: int)
    ensures CivilOf(day + 1) == NextDate(CivilOf(day))
  {
    if day < 0 { NextOfPrevious(CivilOf(day + 1)); }
  }

  lemma NextIsLater(c: Civil)
    requires IsCivil(c)
    ensures Earlier(c, NextDate(c))
  {
  }

  function DaysInYear(year: int): nat {
    if IsLeap(year) then 366 else 365
  }

  /** The days from the first of January 1970 to that of `year`. */
  function YearStart(year: int): int
    decreases if year < 1970 then 1970 - year else year - 1970
  {
    if year == 1970 then 0
    else if year > 1970 then YearStart(year - 1) + DaysInYear(year - 1)
    else YearStart(year + 1) - DaysInYear(year)
  }

  /** The leap days before the first of January of a year, counted from the year 1. */
  function LeapDays(year: int): int {
    (year - 1) / 4 - (year - 1) / 100 + (year - 1) / 400
  }

  lemma QuotientStep(n: int, d: int)
    requires d > 0
    ensures n / d == (n - 1) / d + (if n % d == 0 then 1 else 0)
  {
    var q, r := (n - 1) / d, (n - 1) % d;
    assert n == q * d + (r + 1) && 0 <= r < d;
    if r + 1 == d {
      QuotientIs(n, d, q + 1, 0);
    } else {
      QuotientIs(n, d, q, r + 1);
    }
  }

  lemma QuotientIs(n: int, d: int, q: int, r: int)
    requires d > 0 && n == q * d + r && 0 <= r < d
    ensures n / d == q && n % d == r
  {
    var x := n / d - q;
    assert n == (n / d) * d + n % d;
    assert x * d == r - n % d;
    MultipleIsLarge(x, d);
  }

  lemma MultipleIsLarge(x: int, d: int)
    requires d > 0
    ensures (x > 0 ==> x * d >= d) && (x < 0 ==> x * d <= -d)
  {
  }

  lemma LeapDayOfYear(year: int)
    ensures LeapDays(year + 1) == LeapDays(year) + (if IsLeap(year) then 1 else 0)
  {
    QuotientStep(year, 4);
    QuotientStep(year, 100);
    QuotientStep(year, 400);
    MultiplesNest(year);
  }

  lemma MultiplesNest(year: int)
    ensures (year % 400 == 0 ==> year % 100 == 0) && (year % 100 == 0 ==> year % 4 == 0)
  {
    if year % 400 == 0 { QuotientIs(year, 100, 4 * (year / 400), 0); }
    if year % 100 == 0 { QuotientIs(year, 4, 25 * (year / 100), 0); }
  }

  lemma LeapDaysIn400(year: int)
    ensures LeapDays(year + 400) == LeapDays(year) + 97
  {
    var n := year - 1;
    assert (n + 400) / 4 == n / 4 + 100;
    assert (n + 400) / 100 == n / 100 + 4;
    assert (n + 400) / 400 == n / 400 + 1;
  }

  /** The years as the Gregorian rule counts them: 365 days each and 97 leap days in 400 years. */
  lemma YearStartCounts(year: int)
    ensures YearStart(year) == 365 * (year - 1970) + LeapDays(year) - LeapDays(1970)
    ensures YearStart(year + 400) == YearStart(year) + 146097
  {
    var later := year + 400;
    YearStartIs(year);
    YearStartIs(later);
    LeapDaysIn400(year);
  }

  lemma {:induction false} YearStartIs(year: int)
    ensures YearStart(year) == 365 * (year - 1970) + LeapDays(year) - LeapDays(1970)
    decreases if year < 1970 then 1970 - year else year - 1970
  {
    if year > 1970 {
      LeapDayOfYear(year - 1);
      YearStartIs(year - 1);
    } else if year < 1970 {
      LeapDayOfYear(year);
      YearStartIs(year + 1);
    }
  }

  function MonthStart(year: int, month: nat): nat {
    if month <= 1 then 0 else MonthStart(year, month - 1) + DaysIn(year, month - 1)
  }

  /** The day number of a date; a day past the end of its month counts on into the next. */
  function DayNumber(c: Civil): int {
    YearStart(c.year) + MonthStart(c.year, c.month) + c.day - 1
  }

  lemma MonthsOfYear(year: int)
    ensures MonthStart(year, 12) + 31 == DaysInYear(year)
  {
    var feb := DaysIn(year, 2);
    assert MonthStart(year, 2) == 31;
    assert MonthStart(year, 3) == 31 + feb;
    assert MonthStart(year, 5) == 92 + feb;
    assert MonthStart(year, 7) == 153 + feb;
    assert MonthStart(year, 9) == 215 + feb;
    assert MonthStart(year, 11) == 276 + feb;
  }

  lemma NextYear(year: int)
    ensures YearStart(year + 1) == YearStart(year) + DaysInYear(year)
  {
  }

  lemma NextDayNumber(c: Civil)
    requires IsCivil(c)
    ensures DayNumber(NextDate(c)) == DayNumber(c) + 1
  {
    if c.month == 12 {
      MonthsOfYear(c.year);
      NextYear(c.year);
      assert MonthStart(c.year + 1, 1) == 0;
    } else {
      assert MonthStart(c.year, c.month + 1) == MonthStart(c.year, c.month) + DaysIn(c.year, c.month);
    }
  }

  /** The count of days and the arithmetic of dates agree. */
  lemma {:induction false} DayNumberOfCivil(day: int)
    ensures DayNumber(CivilOf(day)) == day
    decreases if day < 0 then -day else day
  {
    if day > 0 {
      DayNumberOfCivil(day - 1);
      NextDayNumber(CivilOf(day - 1));
    } else if day < 0 {
      DayNumberOfCivil(day + 1);
      NextDay(day);
      NextDayNumber(CivilOf(day));
    }
  }

  lemma {:induction false} CivilIncreases(a: int, b: int)
    requires a < b
    ensures Earlier(CivilOf(a), CivilOf(b))
    decreases b - a
  {
    NextDay(b - 1);
    NextIsLater(CivilOf(b - 1));
    if a < b - 1 { CivilIncreases(a, b - 1); }
  }

  lemma {:induction false} MonthsOrdered(year: int, m: nat, n: nat)
    requires 1 <= m < n
    ensures MonthStart(year, m) + DaysIn(year, m) <= MonthStart(year, n)
  {
    if m < n - 1 { MonthsOrdered(year, m, n - 1); }
  }

  lemma {:induction false} YearsOrdered(x: int, y: int)
    requires x < y
    ensures YearStart(x) + DaysInYear(x) <= YearStart(y)
    decreases y - x
  {
    NextYear(y - 1);
    if x < y - 1 { YearsOrdered(x, y - 1); }
  }

  /** A later date has the greater number, so two dates never share one. */
  lemma DayNumberIncreases(a: Civil, b: Civil)
    requires IsCivil(a) && IsCivil(b) && Earlier(a, b)
    ensures DayNumber(a) < DayNumber(b)
  {
    if a.year < b.year {
      MonthsOfYear(a.year);
      YearsOrdered(a.year, b.year);
      if a.month < 12 { MonthsOrdered(a.year, a.month, 12); }
    } else if a.month < b.month {
      MonthsOrdered(a.year, a.month, b.month);
    }
  }

  lemma CivilOfDayNumber(c: Civil)
    requires IsCivil(c)
    ensures CivilOf(DayNumber(c)) == c
  {
    var back := CivilOf(DayNumber(c));
    DayNumberOfCivil(DayNumber(c));
    if Earlier(back, c) { DayNumberIncreases(back, c); }
    if Earlier(c, back) { DayNumberIncreases(c, back); }
  }

  /** The days before a month as a formula: 31 and 28, then 153 in every five months, and the leap day. */
  function MonthDays(year: int, month: int): int {
    if month <= 2 then 31 * (month - 1)
    else 59 + (153 * (month - 3) + 2) / 5 + (if IsLeap(year) then 1 else 0)
  }

  lemma {:induction false} MonthStartIs(year: int, month: nat)
    requires 1 <= month <= 12
    ensures MonthStart(year, month) == MonthDays(year, month)
  {
    if month > 1 { MonthStartIs(year, month - 1); }
  }

  /** Dates, exactly: the date of a day is the one whose place in the Gregorian calendar, by formula, is that day. */
  lemma DatesCountedExactly(c: Civil)
    requires IsCivil(c)
    ensures CivilOf(365 * (c.year - 1970) + LeapDays(c.year) - LeapDays(1970) + MonthDays(c.year, c.month) + c.day - 1) == c
  {
    YearStartCounts(c.year);
    MonthStartIs(c.year, c.month);
    CivilOfDayNumber(c);
  }

  /** Dates whose ISO text has a four-digit year. */
  predicate HasText(day: int) {
    0 <= CivilOf(day).year <= 9999
  }

  function Digit(n: nat): char
    requires n < 10
  {
    "0123456789"[n]
  }

  predicate IsDigit(c: char) {
    '0' <= c <= '9'
  }

  predicate AllDigits(s: string) {
    forall i :: 0 <= i < |s| ==> IsDigit(s[i])
  }

  function DigitValue(c: char): nat
    requires IsDigit(c)
  {
    c as nat - '0' as nat
  }

  function Number(s: string): nat
    requires AllDigits(s)
  {
    if s == "" then 0 else 10 * Number(s[..|s| - 1]) + DigitValue(s[|s| - 1])
  }

  function Pow10(w: nat): nat {
    if w == 0 then 1 else 10 * Pow10(w - 1)
  }

  /** The last `width` decimal digits of `n`. */
  function Pad(n: nat, width: nat): (s: string)
    ensures |s| == width && AllDigits(s)
  {
    if width == 0 then "" else Pad(n / 10, width - 1) + [Digit(n % 10)]
  }

  predicate IsDate(s: string) {
    && |s| == 10 && s[4] == '-' && s[7] == '-'
    && forall i :: 0 <= i < 10 && i != 4 && i != 7 ==> IsDigit(s[i])
  }

  /** `toISOString().split("T")[0]`. */
  function DateText(day: int): (s: string)
    requires HasText(day)
    ensures IsDate(s)
  {
    var c := CivilOf(day);
    Pad(c.year, 4) + "-" + Pad(c.month, 2) + "-" + Pad(c.day, 2)
  }

  lemma {:induction false} LexAppend(a: string, b: string, x: string, y: string)
    requires |a| == |b|
    ensures LexLe(a + x, b + y) <==> if a == b then LexLe(x, y) else LexLe(a, b)
  {
    if a == "" {
      assert a + x == x && b + y == y;
    } else {
      assert (a + x)[1..] == a[1..] + x && (b + y)[1..] == b[1..] + y;
      LexAppend(a[1..], b[1..], x, y);
      assert a == [a[0]] + a[1..] && b == [b[0]] + b[1..];
    }
  }

  lemma {:induction false} PadOrder(n: nat, m: nat, width: nat)
    requires n < m < Pow10(width)
    ensures LexLt(Pad(n, width), Pad(m, width))
  {
    if width > 0 {
      var a, b := Pad(n / 10, width - 1), Pad(m / 10, width - 1);
      LexAppend(a, b, [Digit(n % 10)], [Digit(m % 10)]);
      if n / 10 < m / 10 {
        PadOrder(n / 10, m / 10, width - 1);
        AppendDiffer(a, b, Digit(n % 10), Digit(m % 10));
      } else {
        AppendDiffer(a, b, Digit(n % 10), Digit(m % 10));
      }
    }
  }

  lemma AppendDiffer(a: string, b: string, x: char, y: char)
    requires a != b || x != y
    ensures a + [x] != b + [y]
  {
    var s, t := a + [x], b + [y];
    assert s[..|s| - 1] == a && s[|s| - 1] == x;
    assert t[..|t| - 1] == b && t[|t| - 1] == y;
  }

  lemma PowersOfTen()
    ensures Pow10(2) == 100 && Pow10(4) == 10000
  {
    assert Pow10(1) == 10;
    assert Pow10(3) == 1000;
  }

  /** Three dashed fields of equal widths compare field by field. */
  lemma LexFields(y1: string, m1: string, d1: string, y2: string, m2: string, d2: string)
    requires |y1| == |y2| && |m1| == |m2|
    ensures LexLe(y1 + "-" + m1 + "-" + d1, y2 + "-" + m2 + "-" + d2)
       <==> if y1 != y2 then LexLe(y1, y2) else if m1 != m2 then LexLe(m1, m2) else LexLe(d1, d2)
  {
    assert y1 + "-" + m1 + "-" + d1 == y1 + ("-" + (m1 + ("-" + d1)));
    assert y2 + "-" + m2 + "-" + d2 == y2 + ("-" + (m2 + ("-" + d2)));
    LexAppend(y1, y2, "-" + (m1 + ("-" + d1)), "-" + (m2 + ("-" + d2)));
    LexAppend("-", "-", m1 + ("-" + d1), m2 + ("-" + d2));
    LexAppend(m1, m2, "-" + d1, "-" + d2);
    LexAppend("-", "-", d1, d2);
  }

  /** String order on dates is day order. */
  lemma DateTextOrder(a: int, b: int)
    requires HasText(a) && HasText(b) && a < b
    ensures LexLt(DateText(a), DateText(b))
  {
    CivilIncreases(a, b);
    PowersOfTen();
    var x, y := CivilOf(a), CivilOf(b);
    if x.year < y.year { PadOrder(x.year, y.year, 4); }
    if x.month < y.month { PadOrder(x.month, y.month, 2); }
    if x.day < y.day { PadOrder(x.day, y.day, 2); }
    LexFields(Pad(x.year, 4), Pad(x.month, 2), Pad(x.day, 2), Pad(y.year, 4), Pad(y.month, 2), Pad(y.day, 2));
    DateFields(a);
    DateFields(b);
  }

  lemma DateFields(a: int)
    requires HasText(a)
    ensures var c := CivilOf(a);
            DateText(a)[..4] == Pad(c.year, 4) && DateText(a)[5..7] == Pad(c.month, 2) && DateText(a)[8..] == Pad(c.day, 2)
  {
  }

  lemma DateTextInjective(a: int, b: int)
    requires HasText(a) && HasText(b) && DateText(a) == DateText(b)
    ensures a == b
  {
    if a < b { DateTextOrder(a, b); }
    if b < a { DateTextOrder(b, a); }
  }

  // ----- reading a date -----

  lemma {:induction false} PadReadsBack(n: nat, width: nat)
    requires n < Pow10(width)
    ensures Number(Pad(n, width)) == n
  {
    if width > 0 {
      DroppedDigit(n, Pow10(width - 1));
      PadReadsBack(n / 10, width - 1);
      LastDigit(n, Pad(n / 10, width - 1));
    }
  }

  lemma LastDigit(n: nat, front: string)
    requires AllDigits(front) && Number(front) == n / 10
    ensures AllDigits(front + [Digit(n % 10)]) && Number(front + [Digit(n % 10)]) == n
  {
    DigitReadsBack(n % 10);
    NumberSnoc(front, Digit(n % 10));
  }

  lemma DigitReadsBack(n: nat)
    requires n < 10
    ensures IsDigit(Digit(n)) && DigitValue(Digit(n)) == n
  {
  }

  lemma DroppedDigit(n: nat, p: nat)
    requires n < 10 * p
    ensures n / 10 < p
  {
  }

  lemma NumberSnoc(s: string, c: char)
    requires AllDigits(s) && IsDigit(c)
    ensures Number(s + [c]) == 10 * Number(s) + DigitValue(c)
  {
    assert (s + [c])[..|s|] == s;
  }

  lemma {:induction false} NumberPads(s: string)
    requires AllDigits(s)
    ensures Number(s) < Pow10(|s|) && Pad(Number(s), |s|) == s
  {
    if s != "" {
      var front, last := s[..|s| - 1], s[|s| - 1];
      NumberPads(front);
      assert Number(s) / 10 == Number(front) && Number(s) % 10 == DigitValue(last);
      assert s == front + [Digit(DigitValue(last))];
    }
  }

  datatype DateError = UseDashedDigits | NotACalendarDate

  /** The three numbers of a dashed text. */
  function ReadCivil(s: string): Civil
    requires IsDate(s)
  {
    Civil(Number(s[..4]), Number(s[5..7]), Number(s[8..]))
  }

  /** `Date.UTC`, which takes the years 0 to 99 for 1900 to 1999. */
  function DateUtc(c: Civil): int {
    DayNumber(if 0 <= c.year <= 99 then c.(year := 1900 + c.year) else c) * DAY_MS
  }

  /** `parseUtcDate`. */
  function ParseUtcDate(s: string): Result<int, DateError> {
    if !IsDate(s) then Err(UseDashedDigits)
    else if !IsCivil(ReadCivil(s)) then Err(NotACalendarDate)
    else Ok(DateUtc(ReadCivil(s)))
  }

  lemma TextOfCivil(day: int)
    requires HasText(day)
    ensures ReadCivil(DateText(day)) == CivilOf(day)
  {
    var c := CivilOf(day);
    DateFields(day);
    PowersOfTen();
    PadReadsBack(c.year, 4);
    PadReadsBack(c.month, 2);
    PadReadsBack(c.day, 2);
  }

  /**
   * A date that is printed reads back as its midnight if and only if its year is at least
   * 100; one of an earlier year reads back as the same date of the 1900s.
   */
  lemma DateTextReadsBackExactly(day: int)
    requires HasText(day)
    ensures ParseUtcDate(DateText(day)).Ok?
    ensures ParseUtcDate(DateText(day)).value == day * DAY_MS <==> CivilOf(day).year >= 100
    ensures CivilOf(day).year < 100 ==>
      ParseUtcDate(DateText(day)).value == DayNumber(CivilOf(day).(year := 1900 + CivilOf(day).year)) * DAY_MS
  {
    TextOfCivil(day);
    DayNumberOfCivil(day);
    var c := CivilOf(day);
    if c.year <= 99 { CenturiesApart(c); }
  }

  lemma CenturiesApart(c: Civil)
    requires IsCivil(c) && 0 <= c.year
    ensures DayNumber(c) < DayNumber(c.(year := 1900 + c.year))
  {
    MonthsOfYear(c.year);
    YearsOrdered(c.year, 1900 + c.year);
    if c.month < 12 { MonthsOrdered(c.year, c.month, 12); }
  }

  lemma JoinsFields(s: string)
    requires IsDate(s)
    ensures s == s[..4] + "-" + s[5..7] + "-" + s[8..]
  {
  }

  lemma FieldsPrintBack(s: string)
    requires IsDate(s)
    ensures s == Pad(ReadCivil(s).year, 4) + "-" + Pad(ReadCivil(s).month, 2) + "-" + Pad(ReadCivil(s).day, 2)
    ensures 0 <= ReadCivil(s).year <= 9999
  {
    var y, m, d := s[..4], s[5..7], s[8..];
    JoinsFields(s);
    NumberPads(y);
    NumberPads(m);
    NumberPads(d);
    PowersOfTen();
  }

  /** A text that is read is the text of a day, from the year 100 on the one whose midnight is read. */
  lemma ParsedDateIsADay(s: string)
    requires ParseUtcDate(s).Ok?
    ensures var day := DayNumber(ReadCivil(s)); HasText(day) && DateText(day) == s
    ensures ReadCivil(s).year >= 100 ==> ParseUtcDate(s) == Ok(DayNumber(ReadCivil(s)) * DAY_MS)
  {
    var c := ReadCivil(s);
    FieldsPrintBack(s);
    CivilOfDayNumber(c);
  }

  /** What `parseUtcDate` accepts is exactly what `toUtcDateString` prints. */
  lemma ParsesExactly(s: string)
    ensures ParseUtcDate(s).Ok? <==> exists day :: HasText(day) && DateText(day) == s
  {
    if ParseUtcDate(s).Ok? { ParsedDateIsADay(s); }
    if day :| HasText(day) && DateText(day) == s { DateTextReadsBackExactly(day); }
  }
}
