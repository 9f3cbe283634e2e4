/** Python's `datetime.date` and `datetime.datetime`, reduced to what the model needs:
    validity of a calendar day, the two textual forms the code reads and writes
    (`strptime(s, "%d.%m.%Y")` and `isoformat()`/`fromisoformat()`), and a
    microsecond timeline on which two datetimes can be subtracted exactly. */
module Calendar {
  import opened Common
  import opened PyText

  const MIN_YEAR := 1
  const MAX_YEAR := 9999
  const MICROS_PER_SECOND := 1_000_000
  const MICROS_PER_DAY := 86_400_000_000

  datatype CalendarDate = CalendarDate(year: int, month: int, day: int)

  predicate IsLeapYear(y: int)
  {
    y % 4 == 0 && (y % 100 != 0 || y % 400 == 0)
  }

  function DaysInMonth(y: int, m: int): (n: int)
    requires 1 <= m <= 12
    ensures 28 <= n <= 31
  {
    if m == 2 then (if IsLeapYear(y) then 29 else 28)
    else if m == 4 || m == 6 || m == 9 || m == 11 then 30
    else 31
  }

  predicate ValidDate(d: CalendarDate)
  {
    MIN_YEAR <= d.year <= MAX_YEAR && 1 <= d.month <= 12 && 1 <= d.day <= DaysInMonth(d.year, d.month)
  }

  /** A `datetime.date`: a real day of the proleptic Gregorian calendar, years 1 to 9999. */
  type Date = d: CalendarDate | ValidDate(d) witness CalendarDate(1, 1, 1)

  datatype Moment = Moment(date: Date, hour: int, minute: int, second: int, microsecond: int)

  predicate ValidClock(t: Moment)
  {
    0 <= t.hour < 24 && 0 <= t.minute < 60 && 0 <= t.second < 60 && 0 <= t.microsecond < MICROS_PER_SECOND
  }

  /** A naive `datetime.datetime`. */
  type DateTime = t: Moment | ValidClock(t) witness Moment(CalendarDate(1, 1, 1), 0, 0, 0, 0)

  // ---------------------------------------------------------------------------
  // The timeline

  /** Days in the years before `y` (Python's `_days_before_year`). */
  function DaysBeforeYear(y: int): int
    requires y >= 1
  {
    var p := y - 1;
    p * 365 + p / 4 - p / 100 + p / 400
  }

  /** Days in the months of year `y` before month `m`. */
  function DaysBeforeMonth(y: int, m: int): int
    requires 1 <= m <= 12
  {
    var common :=
      if m == 1 then 0 else if m == 2 then 31 else if m == 3 then 59 else if m == 4 then 90
      else if m == 5 then 120 else if m == 6 then 151 else if m == 7 then 181 else if m == 8 then 212
      else if m == 9 then 243 else if m == 10 then 273 else if m == 11 then 304 else 334;
    common + (if m > 2 && IsLeapYear(y) then 1 else 0)
  }

  /** `date.toordinal()`: 1 for 0001-01-01, one more for each following day. */
  function Ordinal(d: Date): int
  {
    DaysBeforeYear(d.year) + DaysBeforeMonth(d.year, d.month) + d.day
  }

  function TimeOfDay(t: DateTime): (us: int)
    ensures 0 <= us < MICROS_PER_DAY
  {
    ((t.hour * 60 + t.minute) * 60 + t.second) * MICROS_PER_SECOND + t.microsecond
  }

  /** Microseconds since the start of day 0: `a - b` between datetimes is
      `Timestamp(a) - Timestamp(b)` microseconds. */
  function Timestamp(t: DateTime): int
  {
    Ordinal(t.date) * MICROS_PER_DAY + TimeOfDay(t)
  }

  /** The following calendar day, or `None` after 9999-12-31. */
  function NextDay(d: Date): (r: Option<Date>)
    ensures r.Some? ==> Ordinal(r.value) == Ordinal(d) + 1
    ensures r.None? <==> d == CalendarDate(MAX_YEAR, 12, 31)
  {
    if d.day < DaysInMonth(d.year, d.month) then
      Some(CalendarDate(d.year, d.month, d.day + 1))
    else if d.month < 12 then
      Some(CalendarDate(d.year, d.month + 1, 1))
    else if d.year < MAX_YEAR then
      YearStep(d.year);
      Some(CalendarDate(d.year + 1, 1, 1))
    else
      None
  }

  /** A year holds 365 days, 366 in a leap year. */
  lemma YearStep(y: int)
    requires y >= 1
    ensures DaysBeforeYear(y + 1) == DaysBeforeYear(y) + DaysBeforeMonth(y, 12) + 31
  {
    var p := y - 1;
    assert y / 4 == p / 4 + (if y % 4 == 0 then 1 else 0);
    assert y / 100 == p / 100 + (if y % 100 == 0 then 1 else 0);
    assert y / 400 == p / 400 + (if y % 400 == 0 then 1 else 0);
  }

  // ---------------------------------------------------------------------------
  // "%d.%m.%Y", the date form of the exchange's spreadsheets

  /** The text before the first '.' and the text after it. */
  function SplitAtDot(s: string): (r: Option<(string, string)>)
    ensures r.Some? ==> s == r.value.0 + "." + r.value.1 && '.' !in r.value.0
    ensures r.None? ==> '.' !in s
  {
    if s == [] then None
    else if s[0] == '.' then Some(([], s[1..]))
    else match SplitAtDot(s[1..])
      case None => None
      case Some((before, after)) => Some(([s[0]] + before, after))
  }

  /** What `%d` accepts (`3[01]|[12]\d|0[1-9]|[1-9]| [1-9]`), with its value. */
  function DayField(t: string): Option<int>
  {
    if |t| == 2 && AllDigits(t) && 1 <= DigitsValue(t) <= 31 then Some(DigitsValue(t))
    else if |t| == 1 && IsDigit(t[0]) && t[0] != '0' then Some(DigitValue(t[0]))
    else if |t| == 2 && t[0] == ' ' && IsDigit(t[1]) && t[1] != '0' then Some(DigitValue(t[1]))
    else None
  }

  /** What `%m` accepts (`1[0-2]|0[1-9]|[1-9]`), with its value. */
  function MonthField(t: string): Option<int>
  {
    if |t| == 2 && AllDigits(t) && 1 <= DigitsValue(t) <= 12 then Some(DigitsValue(t))
    else if |t| == 1 && IsDigit(t[0]) && t[0] != '0' then Some(DigitValue(t[0]))
    else None
  }

  /** `datetime.strptime(s, "%d.%m.%Y").date()`: day and month fields as `%d`/`%m`
      accept them, exactly four year digits, nothing left over, and a real date. */
  function ParseDayFirst(s: string): (r: Result<Date>)
    ensures r.Ok? ==> |s| >= 8
  {
    match SplitAtDot(s)
    case None => Err(ValueError)
    case Some((dayText, rest)) =>
      match SplitAtDot(rest)
      case None => Err(ValueError)
      case Some((monthText, yearText)) =>
        if DayField(dayText).Some? && MonthField(monthText).Some? && |yearText| == 4 && AllDigits(yearText) then
          var d := CalendarDate(DigitsValue(yearText), MonthField(monthText).value, DayField(dayText).value);
          if ValidDate(d) then Ok(d) else Err(ValueError)
        else
          Err(ValueError)
  }

  /** The date written as dd.mm.yyyy. */
  function FormatDayFirst(d: Date): (s: string)
    ensures |s| == 10
  {
    Padded(d.day, 2) + "." + Padded(d.month, 2) + "." + Padded(d.year, 4)
  }

  lemma {:induction false} SplitAtDotOf(a: string, b: string)
    requires '.' !in a
    ensures SplitAtDot(a + "." + b) == Some((a, b))
  {
    if a == [] {
      assert (a + "." + b)[1..] == b;
    } else {
      assert (a + "." + b)[1..] == a[1..] + "." + b;
      SplitAtDotOf(a[1..], b);
      assert [a[0]] + a[1..] == a;
    }
  }

  /** Every date written as dd.mm.yyyy is read back as itself. */
  lemma DayFirstRoundTrip(d: Date)
    ensures ParseDayFirst(FormatDayFirst(d)) == Ok(d)
  {
    var dd, mm, yy := Padded(d.day, 2), Padded(d.month, 2), Padded(d.year, 4);
    PaddedValue(d.day, 2);
    PaddedValue(d.month, 2);
    PaddedValue(d.year, 4);
    assert '.' !in dd by { assert forall i :: 0 <= i < |dd| ==> IsDigit(dd[i]); }
    assert '.' !in mm by { assert forall i :: 0 <= i < |mm| ==> IsDigit(mm[i]); }
    SplitAtDotOf(dd, mm + "." + yy);
    assert FormatDayFirst(d) == dd + "." + (mm + "." + yy);
    SplitAtDotOf(mm, yy);
    assert DayField(dd) == Some(d.day);
    assert MonthField(mm) == Some(d.month);
  }

  // ---------------------------------------------------------------------------
  // ISO 8601 calendar dates (the full-date form of section 5.6 of RFC 3339)

  /** `d.isoformat()`: YYYY-MM-DD. */
  function IsoFormat(d: Date): (s: string)
    ensures |s| == 10
  {
    Padded(d.year, 4) + "-" + Padded(d.month, 2) + "-" + Padded(d.day, 2)
  }

  /** `date.fromisoformat(s)` for the YYYY-MM-DD form. */
  function FromIsoFormat(s: string): (r: Result<Date>)
    ensures r.Ok? ==> |s| == 10 && ValidDate(r.value)
    ensures r.Err? ==> r.error == ValueError
  {
    if |s| == 10 && s[4] == '-' && s[7] == '-' && AllDigits(s[..4]) && AllDigits(s[5..7]) && AllDigits(s[8..]) then
      var d := CalendarDate(DigitsValue(s[..4]), DigitsValue(s[5..7]), DigitsValue(s[8..]));
      if ValidDate(d) then Ok(d) else Err(ValueError)
    else
      Err(ValueError)
  }

  /** `fromisoformat(d.isoformat()) == d`. */
  lemma IsoRoundTrip(d: Date)
    ensures FromIsoFormat(IsoFormat(d)) == Ok(d)
  {
    var s := IsoFormat(d);
    assert s[..4] == Padded(d.year, 4);
    assert s[5..7] == Padded(d.month, 2);
    assert s[8..] == Padded(d.day, 2);
    PaddedValue(d.year, 4);
    PaddedValue(d.month, 2);
    PaddedValue(d.day, 2);
  }

  /** `fromisoformat` accepts only the text `isoformat` writes: a date has one ISO form. */
  lemma IsoCanonical(s: string)
    requires FromIsoFormat(s).Ok?
    ensures IsoFormat(FromIsoFormat(s).value) == s
  {
    PaddedOfDigits(s[..4]);
    PaddedOfDigits(s[5..7]);
    PaddedOfDigits(s[8..]);
    assert s == s[..4] + "-" + s[5..7] + "-" + s[8..];
  }
}
