/**
 * Calendar dates of the daily statistics: a proleptic Gregorian calendar,
 * the previous-day step that replaces the calendar library's
 * `addDays(-1)`, and the two text forms dates take: the store's
 * `yyyy-MM-dd` and the form `formatCalendarDate` produces.
 */
module Dates {
  import opened Tokens

  const Dash: char := '-'

  datatype Date = Date(year: nat, month: nat, day: nat)

  predicate IsLeapYear(y: nat)
  {
    y % 4 == 0 && (y % 100 != 0 || y % 400 == 0)
  }

  function DaysInMonth(y: nat, m: nat): (n: nat)
    requires 1 <= m <= 12
    ensures 28 <= n <= 31
    ensures n == 29 <==> m == 2 && IsLeapYear(y)
  {
    if m == 2 then (if IsLeapYear(y) then 29 else 28)
    else if m == 4 || m == 6 || m == 9 || m == 11 then 30
    else 31
  }

  /** A day that exists in the calendar. */
  predicate Valid(d: Date)
  {
    1 <= d.month <= 12 && 1 <= d.day <= DaysInMonth(d.year, d.month)
  }

  /** The calendar of the model starts on 0000-01-01, the one valid day without a predecessor. */
  predicate HasPrevDay(d: Date)
  {
    Valid(d) && !(d.year == 0 && d.month == 1 && d.day == 1)
  }

  /** Chronological order: `a` is an earlier day than `b`. */
  predicate Before(a: Date, b: Date)
  {
    a.year < b.year
    || (a.year == b.year && a.month < b.month)
    || (a.year == b.year && a.month == b.month && a.day < b.day)
  }

  function NextDay(d: Date): (r: Date)
    requires Valid(d)
    ensures HasPrevDay(r) && Before(d, r)
  {
    if d.day < DaysInMonth(d.year, d.month) then Date(d.year, d.month, d.day + 1)
    else if d.month < 12 then Date(d.year, d.month + 1, 1)
    else Date(d.year + 1, 1, 1)
  }

  /** The day before `d`: `addDays(-1)` of the calendar library. */
  function PrevDay(d: Date): (r: Date)
    requires HasPrevDay(d)
    ensures Valid(r) && Before(r, d)
    ensures NextDay(r) == d
  {
    if d.day > 1 then Date(d.year, d.month, d.day - 1)
    else if d.month > 1 then Date(d.year, d.month - 1, DaysInMonth(d.year, d.month - 1))
    else Date(d.year - 1, 12, 31)
  }

  /** Stepping forward and back again returns to the same day. */
  lemma PrevOfNext(d: Date)
    requires Valid(d)
    ensures PrevDay(NextDay(d)) == d
  {
  }

  /** No valid day lies strictly between PrevDay(d) and d: it is the previous Gregorian day. */
  lemma PrevDayIsLatestEarlier(d: Date, x: Date)
    requires HasPrevDay(d) && Valid(x) && Before(x, d)
    ensures x == PrevDay(d) || Before(x, PrevDay(d))
  {
  }

  lemma BeforeTransitive(a: Date, b: Date, c: Date)
    requires Before(a, b) && Before(b, c)
    ensures Before(a, c)
  {
  }

  // ---------------------------------------------------------------
  // Text forms of a date
  // ---------------------------------------------------------------

  /** The day field of formatCalendarDate: padded to two digits. */
  function DayText(day: nat): string
  {
    if day < 10 then "0" + NatToString(day) else NatToString(day)
  }

  /**
   * formatCalendarDate: year and month as plain decimals (the month is
   * NOT zero-padded), the day padded to two digits.
   */
  function FormatCalendarDate(d: Date): string
  {
    NatToString(d.year) + [Dash] + NatToString(d.month) + [Dash] + DayText(d.day)
  }

  /**
   * SimpleDateFormat("yyyy-MM-dd"), the form in which the recorder writes
   * today's date into the store: year of at least four digits, month and
   * day of two.
   */
  function IsoFormat(d: Date): string
  {
    PadLeft(NatToString(d.year), 4) + [Dash] + PadLeft(NatToString(d.month), 2) + [Dash]
      + PadLeft(NatToString(d.day), 2)
  }

  /** getPrevDate's reading of a date: the first three dash-separated fields as integers. */
  function ParseDate(s: string): Date
    requires |Split(s, Dash)| >= 3
  {
    var t := Split(s, Dash);
    Date(ParseInt(t[0]), ParseInt(t[1]), ParseInt(t[2]))
  }

  /** A text getPrevDate can step back from. */
  predicate IsDateText(s: string)
  {
    |Split(s, Dash)| >= 3 && HasPrevDay(ParseDate(s))
  }

  /**
   * getPrevDate: the day before the date `s` denotes, in the form of
   * formatCalendarDate. A text that is not a date of the calendar is
   * returned unchanged.
   */
  function PrevDate(s: string): string
  {
    if IsDateText(s) then FormatCalendarDate(PrevDay(ParseDate(s))) else s
  }

  /** The previous-day step in the store's own `yyyy-MM-dd` form. */
  function PrevIsoDate(s: string): string
  {
    if IsDateText(s) then IsoFormat(PrevDay(ParseDate(s))) else s
  }

  // ---------------------------------------------------------------
  // Round trips
  // ---------------------------------------------------------------

  /** Splitting "a-b-c" made of three digit strings gives the three back. */
  lemma SplitThree(a: string, b: string, c: string)
    requires IsDigits(a) && IsDigits(b) && IsDigits(c)
    ensures Split(a + [Dash] + b + [Dash] + c, Dash) == [a, b, c]
  {
    DigitsExclude(a, Dash);
    DigitsExclude(b, Dash);
    DigitsExclude(c, Dash);
    JoinThree(a, b, c, Dash);
    SplitJoin([a, b, c], Dash);
  }

  lemma DayTextValue(day: nat)
    ensures IsDigits(DayText(day)) && ParseInt(DayText(day)) == day
  {
    ParseNatToString(day);
    if day < 10 {
      LeadingZero(NatToString(day));
    }
  }

  /** getPrevDate reads back exactly the date formatCalendarDate wrote. */
  lemma {:induction false} ParseFormattedDate(d: Date)
    ensures |Split(FormatCalendarDate(d), Dash)| >= 3 && ParseDate(FormatCalendarDate(d)) == d
  {
    DayTextValue(d.day);
    SplitThree(NatToString(d.year), NatToString(d.month), DayText(d.day));
    ParseNatToString(d.year);
    ParseNatToString(d.month);
  }

  /** getPrevDate reads back exactly the date the store's `yyyy-MM-dd` text denotes. */
  lemma {:induction false} ParseIsoDate(d: Date)
    ensures |Split(IsoFormat(d), Dash)| >= 3 && ParseDate(IsoFormat(d)) == d
  {
    PaddedValue(NatToString(d.year), 4);
    PaddedValue(NatToString(d.month), 2);
    PaddedValue(NatToString(d.day), 2);
    SplitThree(PadLeft(NatToString(d.year), 4), PadLeft(NatToString(d.month), 2),
               PadLeft(NatToString(d.day), 2));
    ParsePadded(d.year, 4);
    ParsePadded(d.month, 2);
    ParsePadded(d.day, 2);
  }

  /** getPrevDate steps back exactly one calendar day, whichever of the two forms the date is in. */
  lemma {:induction false} PrevDateSteps(d: Date)
    requires HasPrevDay(d)
    ensures PrevDate(FormatCalendarDate(d)) == FormatCalendarDate(PrevDay(d))
    ensures PrevDate(IsoFormat(d)) == FormatCalendarDate(PrevDay(d))
  {
    ParseFormattedDate(d);
    ParseIsoDate(d);
  }

  /** The corrected step stays in the store's form: from the text of day d to the text of the day before. */
  lemma {:induction false} PrevIsoDateSteps(d: Date)
    requires HasPrevDay(d)
    ensures PrevIsoDate(IsoFormat(d)) == IsoFormat(PrevDay(d))
  {
    ParseIsoDate(d);
  }

  /** Different days have different `yyyy-MM-dd` texts. */
  lemma IsoFormatInjective(a: Date, b: Date)
    requires IsoFormat(a) == IsoFormat(b)
    ensures a == b
  {
    ParseIsoDate(a);
    ParseIsoDate(b);
  }

  /**
   * A text produced by formatCalendarDate never equals the store's text of
   * a day in January to September: the month field is "9" in one and "09"
   * in the other.
   */
  lemma {:induction false} CalendarTextIsNotStoreText(x: Date, e: Date)
    requires e.month < 10
    ensures FormatCalendarDate(x) != IsoFormat(e)
  {
    DayTextValue(x.day);
    SplitThree(NatToString(x.year), NatToString(x.month), DayText(x.day));
    PaddedValue(NatToString(e.year), 4);
    PaddedValue(NatToString(e.month), 2);
    PaddedValue(NatToString(e.day), 2);
    SplitThree(PadLeft(NatToString(e.year), 4), PadLeft(NatToString(e.month), 2),
               PadLeft(NatToString(e.day), 2));
    var m := NatToString(x.month);
    var pm := PadLeft(NatToString(e.month), 2);
    assert pm == "0" + NatToString(e.month);
  }

  /** The day `j` days before `d`, stopping at the first day of the calendar. */
  function DaysBack(d: Date, j: nat): Date
    decreases j
  {
    if j == 0 || !HasPrevDay(d) then d else DaysBack(PrevDay(d), j - 1)
  }

  /** getPrevDate on its own output: one day back, or the text unchanged on the first day of the calendar. */
  lemma PrevDateOfCalendarText(x: Date)
    ensures PrevDate(FormatCalendarDate(x)) == FormatCalendarDate(if HasPrevDay(x) then PrevDay(x) else x)
  {
    ParseFormattedDate(x);
  }

  /** getPrevDate on the store's text of a day: one day back, in the unpadded form. */
  lemma PrevDateOfIsoText(x: Date)
    ensures PrevDate(IsoFormat(x)) == if HasPrevDay(x) then FormatCalendarDate(PrevDay(x)) else IsoFormat(x)
  {
    ParseIsoDate(x);
  }

  /** The corrected step on the store's text of a day: one day back, in the same form. */
  lemma PrevIsoDateOfIsoText(x: Date)
    ensures PrevIsoDate(IsoFormat(x)) == IsoFormat(if HasPrevDay(x) then PrevDay(x) else x)
  {
    ParseIsoDate(x);
  }

  /** The month is left unpadded: the day before 2016-10-01 comes out as "2016-9-30", not "2016-09-30". */
  lemma PrevDateExample()
    ensures PrevDate("2016-10-01") == "2016-9-30"
    ensures PrevIsoDate("2016-10-01") == "2016-09-30"
  {
    ExampleDates();
    PrevDateSteps(Date(2016, 10, 1));
    PrevIsoDateSteps(Date(2016, 10, 1));
  }

  /** The texts of 2016-10-01 and of the day before it. */
  lemma ExampleDates()
    ensures IsoFormat(Date(2016, 10, 1)) == "2016-10-01"
    ensures IsoFormat(Date(2016, 9, 30)) == "2016-09-30"
    ensures FormatCalendarDate(Date(2016, 9, 30)) == "2016-9-30"
    ensures HasPrevDay(Date(2016, 10, 1)) && PrevDay(Date(2016, 10, 1)) == Date(2016, 9, 30)
  {
    assert NatToString(2016) == "2016";
    assert NatToString(10) == "10";
    assert NatToString(1) == "1";
    assert NatToString(30) == "30";
    assert NatToString(9) == "9";
  }
}
