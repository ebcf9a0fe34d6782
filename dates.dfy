/**
 * Calendar dates and instants as Python's `datetime` module treats them:
 * proleptic Gregorian dates, day arithmetic through `timedelta(days=n)`,
 * ISO rendering (`str(date)`, `strftime('%Y-%m-%d')`), Django's `parse_date`,
 * and instants on a one-second grid for `timezone.now()` and `timedelta(hours=1)`.
 */
module Dates {
  import opened Common

  datatype Ymd = Ymd(year: int, month: int, day: int)

  predicate IsLeapYear(y: int) {
    y % 4 == 0 && (y % 100 != 0 || y % 400 == 0)
  }

  function DaysInMonth(y: int, m: int): (n: int)
    requires 1 <= m <= 12
    ensures 28 <= n <= 31
  {
    if m == 2 then (if IsLeapYear(y) then 29 else 28)
    else if m == 4 || m == 6 || m == 9 || m == 11 then 30
    else 31
  }

  predicate IsValidYmd(d: Ymd) {
    1 <= d.month <= 12 && 1 <= d.day <= DaysInMonth(d.year, d.month)
  }

  /** A `datetime.date`: a year, month and day that exist in the Gregorian calendar. */
  type Date = d: Ymd | IsValidYmd(d) witness Ymd(1970, 1, 1)

  /** `datetime.MINYEAR` and `datetime.MAXYEAR`. */
  const MinYear := 1
  const MaxYear := 9999

  predicate InPythonRange(d: Date) {
    MinYear <= d.year <= MaxYear
  }

  // ---------------------------------------------------------------------------
  // Day numbers: the position of a date on the time line
  // ---------------------------------------------------------------------------

  function DaysBeforeYear(y: int): int {
    var p := y - 1;
    365 * p + p / 4 - p / 100 + p / 400
  }

  function DaysBeforeMonth(y: int, m: int): int
    requires 1 <= m <= 12
  {
    var leap := if IsLeapYear(y) then 1 else 0;
    if m == 1 then 0
    else if m == 2 then 31
    else if m == 3 then 59 + leap
    else if m == 4 then 90 + leap
    else if m == 5 then 120 + leap
    else if m == 6 then 151 + leap
    else if m == 7 then 181 + leap
    else if m == 8 then 212 + leap
    else if m == 9 then 243 + leap
    else if m == 10 then 273 + leap
    else if m == 11 then 304 + leap
    else 334 + leap
  }

  /** `date.toordinal() - 1`: 0001-01-01 is day 0. */
  function DayNumber(d: Date): int {
    DaysBeforeYear(d.year) + DaysBeforeMonth(d.year, d.month) + d.day - 1
  }

  lemma DivisibleStep(y: int)
    ensures y / 4 - (y - 1) / 4 == (if y % 4 == 0 then 1 else 0)
    ensures y / 100 - (y - 1) / 100 == (if y % 100 == 0 then 1 else 0)
    ensures y / 400 - (y - 1) / 400 == (if y % 400 == 0 then 1 else 0)
    ensures y % 400 == 0 ==> y % 100 == 0
    ensures y % 100 == 0 ==> y % 4 == 0
  {
  }

  /** A year is 366 days long exactly when it is a leap year. */
  lemma YearLength(y: int)
    ensures DaysBeforeYear(y + 1) == DaysBeforeYear(y) + (if IsLeapYear(y) then 366 else 365)
  {
    DivisibleStep(y);
  }

  lemma YearOrderFollowsDayNumber(a: Date, b: Date)
    requires a.year < b.year
    ensures DayNumber(a) < DayNumber(b)
  {
    DaysBeforeYearMonotone(a.year + 1, b.year);
    DayNumberWithinYear(a);
    DayNumberWithinYear(b);
  }

  lemma DaysBeforeYearMonotone(y1: int, y2: int)
    requires y1 <= y2
    ensures DaysBeforeYear(y1) <= DaysBeforeYear(y2)
  {
  }

  lemma DayNumberWithinYear(d: Date)
    ensures DaysBeforeYear(d.year) <= DayNumber(d) < DaysBeforeYear(d.year + 1)
  {
    YearLength(d.year);
  }

  /** Different dates have different day numbers: `toordinal` is one-to-one. */
  lemma DayNumberDeterminesDate(a: Date, b: Date)
    requires DayNumber(a) == DayNumber(b)
    ensures a == b
  {
    if a.year != b.year {
      if a.year < b.year {
        YearOrderFollowsDayNumber(a, b);
      } else {
        YearOrderFollowsDayNumber(b, a);
      }
    } else if a.month != b.month {
      MonthOrderFollowsDayNumber(a, b);
    }
  }

  lemma MonthOrderFollowsDayNumber(a: Date, b: Date)
    requires a.year == b.year && a.month != b.month
    ensures DayNumber(a) != DayNumber(b)
  {
    var lo, hi := if a.month < b.month then a else b, if a.month < b.month then b else a;
    DaysBeforeMonthStep(lo.year, lo.month, hi.month);
  }

  lemma DaysBeforeMonthStep(y: int, m1: int, m2: int)
    requires 1 <= m1 < m2 <= 12
    ensures DaysBeforeMonth(y, m1) + DaysInMonth(y, m1) <= DaysBeforeMonth(y, m2)
    decreases m2 - m1
  {
    if m1 + 1 < m2 {
      DaysBeforeMonthStep(y, m1 + 1, m2);
    }
  }

  // ---------------------------------------------------------------------------
  // The day after and the day before
  // ---------------------------------------------------------------------------

  function Succ(d: Date): Date {
    if d.day < DaysInMonth(d.year, d.month) then Ymd(d.year, d.month, d.day + 1)
    else if d.month < 12 then Ymd(d.year, d.month + 1, 1)
    else Ymd(d.year + 1, 1, 1)
  }

  function Pred(d: Date): Date {
    if d.day > 1 then Ymd(d.year, d.month, d.day - 1)
    else if d.month > 1 then Ymd(d.year, d.month - 1, DaysInMonth(d.year, d.month - 1))
    else Ymd(d.year - 1, 12, 31)
  }

  lemma SuccIsNextDay(d: Date)
    ensures DayNumber(Succ(d)) == DayNumber(d) + 1
  {
    if d.day == DaysInMonth(d.year, d.month) && d.month == 12 {
      YearLength(d.year);
    }
  }

  lemma PredIsPreviousDay(d: Date)
    ensures DayNumber(Pred(d)) == DayNumber(d) - 1
    ensures Succ(Pred(d)) == d
  {
    if d.day == 1 && d.month == 1 {
      YearLength(d.year - 1);
    }
  }

  /** `d + timedelta(days=n)`. */
  function AddDays(d: Date, n: nat): Date
    decreases n
  {
    if n == 0 then d else Succ(AddDays(d, n - 1))
  }

  /** `d - timedelta(days=n)`. */
  function SubDays(d: Date, n: nat): Date
    decreases n
  {
    if n == 0 then d else Pred(SubDays(d, n - 1))
  }

  /** Adding `n` days moves `n` places forward on the time line. */
  lemma {:induction false} AddDaysNumber(d: Date, n: nat)
    ensures DayNumber(AddDays(d, n)) == DayNumber(d) + n
    decreases n
  {
    if n > 0 {
      AddDaysNumber(d, n - 1);
      SuccIsNextDay(AddDays(d, n - 1));
    }
  }

  /** Subtracting `n` days moves `n` places back on the time line. */
  lemma {:induction false} SubDaysNumber(d: Date, n: nat)
    ensures DayNumber(SubDays(d, n)) == DayNumber(d) - n
    decreases n
  {
    if n > 0 {
      SubDaysNumber(d, n - 1);
      PredIsPreviousDay(SubDays(d, n - 1));
    }
  }

  /** Distinct offsets back from one date give distinct dates. */
  lemma SubDaysDistinct(d: Date, i: nat, j: nat)
    requires i != j
    ensures SubDays(d, i) != SubDays(d, j)
  {
    SubDaysNumber(d, i);
    SubDaysNumber(d, j);
  }

  lemma {:induction false} AddDaysCompose(d: Date, a: nat, b: nat)
    ensures AddDays(AddDays(d, a), b) == AddDays(d, a + b)
    decreases b
  {
    if b > 0 {
      AddDaysCompose(d, a, b - 1);
    }
  }

  /** Within a month, adding days only moves the day of the month. */
  lemma {:induction false} AddDaysWithinMonth(y: int, m: int, k: nat)
    requires 1 <= m <= 12 && k < DaysInMonth(y, m)
    ensures AddDays(Ymd(y, m, 1), k) == Ymd(y, m, 1 + k)
    decreases k
  {
    if k > 0 {
      AddDaysWithinMonth(y, m, k - 1);
    }
  }

  // ---------------------------------------------------------------------------
  // Month navigation on first days of months
  // ---------------------------------------------------------------------------

  function NextMonthYm(y: int, m: int): (int, int)
    requires 1 <= m <= 12
  {
    if m == 12 then (y + 1, 1) else (y, m + 1)
  }

  function PrevMonthYm(y: int, m: int): (int, int)
    requires 1 <= m <= 12
  {
    if m == 1 then (y - 1, 12) else (y, m - 1)
  }

  /**
   * `(datetime(y, m, 1) + timedelta(days=32)).replace(day=1)` is the first
   * day of the following month: every month is 28 to 31 days long, so 32 days
   * on lands 1 to 4 days into the next month.
   */
  lemma ThirtyTwoDaysLandInNextMonth(y: int, m: int)
    requires 1 <= m <= 12
    ensures AddDays(Ymd(y, m, 1), 32).year == NextMonthYm(y, m).0
    ensures AddDays(Ymd(y, m, 1), 32).month == NextMonthYm(y, m).1
  {
    var len := DaysInMonth(y, m);
    var (ny, nm) := NextMonthYm(y, m);
    AddDaysWithinMonth(y, m, len - 1);
    assert AddDays(Ymd(y, m, 1), len) == Ymd(ny, nm, 1);
    AddDaysWithinMonth(ny, nm, 32 - len);
    AddDaysCompose(Ymd(y, m, 1), len, 32 - len);
  }

  /** `(datetime(y, m, 1) - timedelta(days=1)).replace(day=1)` is the first day of the month before. */
  lemma DayBeforeFirstIsInPreviousMonth(y: int, m: int)
    requires 1 <= m <= 12
    ensures SubDays(Ymd(y, m, 1), 1).year == PrevMonthYm(y, m).0
    ensures SubDays(Ymd(y, m, 1), 1).month == PrevMonthYm(y, m).1
  {
  }

  // ---------------------------------------------------------------------------
  // ISO rendering and parsing
  // ---------------------------------------------------------------------------

  /** `str(d)` / `d.strftime('%Y-%m-%d')`: YYYY-MM-DD with zero padding. */
  function FormatDate(d: Date): string {
    (if d.year < 0 then "-" + ZeroPad(-d.year, 4) else ZeroPad(d.year, 4))
      + "-" + ZeroPad(d.month, 2) + "-" + ZeroPad(d.day, 2)
  }

  /** What Django's `parse_date` does with a string. */
  datatype DateParse =
    | NoMatch              // neither fromisoformat nor the pattern accepts the text: `None`
    | OutOfRange           // the pattern matches but names no date: `ValueError`
    | Parsed(date: Date)

  /**
   * `django.utils.dateparse.parse_date`: `datetime.date.fromisoformat` first;
   * when that raises, the pattern `\d{4}-\d{1,2}-\d{1,2}$` anchored at the
   * start, then `datetime.date(year, month, day)`, which raises for a year,
   * month or day out of range.
   */
  function ParseDate(s: string): (r: DateParse)
    ensures r.Parsed? ==> InPythonRange(r.date)
  {
    match FromIsoFormat(s)
    case Some(d) => Parsed(d)
    case None => MatchDatePattern(s)
  }

  /** `date_re.match(s)`: the `$` of the pattern also matches just before one final newline. */
  function MatchDatePattern(s: string): (r: DateParse)
    ensures r.Parsed? ==> InPythonRange(r.date)
  {
    if s != [] && s[|s| - 1] == '\n' then MatchDateText(s[..|s| - 1]) else MatchDateText(s)
  }

  /** The pattern against the whole text: four digits, '-', one or two digits, '-', one or two digits. */
  function MatchDateText(s: string): (r: DateParse)
    ensures r.Parsed? ==> InPythonRange(r.date)
  {
    if |s| < 8 || !AllDigits(s[..4]) || s[4] != '-' then NoMatch
    else
      var rest := s[5..];
      if IsDigit(rest[0]) && rest[1] == '-' then
        ParseDayPart(DigitsValue(s[..4]), DigitsValue(rest[..1]), rest[2..])
      else if |rest| >= 3 && AllDigits(rest[..2]) && rest[2] == '-' then
        ParseDayPart(DigitsValue(s[..4]), DigitsValue(rest[..2]), rest[3..])
      else NoMatch
  }

  function ParseDayPart(year: int, month: int, dayText: string): (r: DateParse)
    ensures r.Parsed? ==> r.date == Ymd(year, month, r.date.day)
  {
    if |dayText| < 1 || |dayText| > 2 || !AllDigits(dayText) then NoMatch
    else
      var candidate := Ymd(year, month, DigitsValue(dayText));
      if MinYear <= year <= MaxYear && IsValidYmd(candidate) then Parsed(candidate)
      else OutOfRange
  }

  /** The layout of a rendered date: four digits, '-', two digits, '-', two digits. */
  predicate IsoShaped(s: string) {
    |s| == 10 && AllDigits(s[..4]) && s[4] == '-' && AllDigits(s[5..7]) && s[7] == '-' && AllDigits(s[8..])
  }

  /** A rendered date of years 1 to 9999 is ISO shaped, and its three fields read back. */
  lemma FormatDateShape(d: Date)
    requires InPythonRange(d)
    ensures var s := FormatDate(d);
      && IsoShaped(s)
      && DigitsValue(s[..4]) == d.year && DigitsValue(s[5..7]) == d.month && DigitsValue(s[8..]) == d.day
  {
    var y, m, dd := ZeroPad(d.year, 4), ZeroPad(d.month, 2), ZeroPad(d.day, 2);
    ZeroPadRoundTrip(d.year, 4);
    ZeroPadRoundTrip(d.month, 2);
    ZeroPadRoundTrip(d.day, 2);
    assert Pow10(2) == 100 && Pow10(4) == 10000;
    NatDigitsBound(d.year, 4);
    NatDigitsBound(d.month, 2);
    NatDigitsBound(d.day, 2);
    var s := FormatDate(d);
    assert s == y + "-" + m + "-" + dd;
    assert s[..4] == y;
    assert s[5..7] == m;
    assert s[8..] == dd;
  }

  /** Parsing a rendered date gives the date back, for every year Python can represent. */
  lemma ParseFormatRoundTrip(d: Date)
    requires InPythonRange(d)
    ensures ParseDate(FormatDate(d)) == Parsed(d)
  {
    FromIsoFormatRoundTrip(d);
  }

  /** Whatever fromisoformat accepts, the pattern reads as the same date, so trying it first changes no answer here. */
  lemma IsoFormatAgreesWithPattern(s: string)
    requires FromIsoFormat(s).Some?
    ensures MatchDateText(s) == Parsed(FromIsoFormat(s).value)
  {
    var rest := s[5..];
    assert rest[..2] == s[5..7];
    assert rest[2] == '-' && IsDigit(rest[1]);
    assert rest[3..] == s[8..];
    DigitsValueBelow(s[..4]);
    assert Pow10(4) == 10000;
  }

  /** One newline after the text changes nothing: `$` matches just before it. */
  lemma ParseDateIgnoresFinalNewline(s: string)
    requires s == [] || s[|s| - 1] != '\n'
    ensures ParseDate(s + "\n") == ParseDate(s)
  {
    var t := s + "\n";
    assert t[|t| - 1] == '\n' && !IsDigit(t[|t| - 1]);
    if |t| == 10 {
      assert t[8..][1] == t[9];
    }
    assert FromIsoFormat(t).None?;
    assert t[..|t| - 1] == s;
    if FromIsoFormat(s).Some? {
      IsoFormatAgreesWithPattern(s);
    }
  }

  /** A rendered date followed by a newline still parses as that date. */
  lemma ParseFormatWithNewline(d: Date)
    requires InPythonRange(d)
    ensures ParseDate(FormatDate(d) + "\n") == Parsed(d)
  {
    FormatDateShape(d);
    var s := FormatDate(d);
    assert IsDigit(s[8..][1]);
    ParseDateIgnoresFinalNewline(s);
    ParseFormatRoundTrip(d);
  }

  /**
   * `datetime.fromisoformat(s).date()` on a date alone: exactly YYYY-MM-DD,
   * zero padded, naming a date of years 1 to 9999; anything else raises
   * ValueError (here: None).
   */
  function FromIsoFormat(s: string): (r: Option<Date>)
    ensures r.Some? ==> IsoShaped(s) && InPythonRange(r.value)
    ensures r.Some? ==> r.value.year == DigitsValue(s[..4]) && r.value.month == DigitsValue(s[5..7])
                        && r.value.day == DigitsValue(s[8..])
  {
    if !IsoShaped(s) then None
    else
      DigitsValueBelow(s[..4]);
      assert Pow10(4) == 10000;
      var candidate := Ymd(DigitsValue(s[..4]), DigitsValue(s[5..7]), DigitsValue(s[8..]));
      if MinYear <= candidate.year && IsValidYmd(candidate) then
        var date: Date := candidate;
        Some(date)
      else None
  }

  /** `date.fromisoformat(str(d)) == d`. */
  lemma FromIsoFormatRoundTrip(d: Date)
    requires InPythonRange(d)
    ensures FromIsoFormat(FormatDate(d)) == Some(d)
  {
    FormatDateShape(d);
  }

  /** What `datetime.strptime(s, '%Y-%m-%d').date()` gives: the date, or the message of the ValueError raised. */
  datatype StrptimeResult = StrptimeDate(date: Date) | StrptimeError(message: string)

  predicate IsNonZeroDigit(c: char) {
    '1' <= c <= '9'
  }

  /**
   * The `%m` field at position 5 with the '-' after it: `1[0-2]`, `0[1-9]`
   * or a single `[1-9]`, tried in that order; the month, and the position
   * where the day field starts.
   */
  function MonthField(s: string): (r: Option<(int, nat)>)
    requires |s| >= 5
    ensures r.Some? ==> 1 <= r.value.0 <= 12 && r.value.1 <= |s|
  {
    if |s| >= 8 && ((s[5] == '1' && '0' <= s[6] <= '2') || (s[5] == '0' && IsNonZeroDigit(s[6]))) && s[7] == '-' then
      Some((DigitValue(s[5]) * 10 + DigitValue(s[6]), 8))
    else if |s| >= 7 && IsNonZeroDigit(s[5]) && s[6] == '-' then
      Some((DigitValue(s[5]), 7))
    else None
  }

  /**
   * The `%d` field at position `k`: `3[01]`, `[12]\d`, `0[1-9]`, a single
   * `[1-9]`, or a blank and `[1-9]`, the first that matches; the day, and
   * the position where the match ends.
   */
  function DayField(s: string, k: nat): (r: Option<(int, nat)>)
    ensures r.Some? ==> 1 <= r.value.0 <= 31 && k < r.value.1 <= |s|
  {
    if k + 1 < |s| && s[k] == '3' && (s[k + 1] == '0' || s[k + 1] == '1') then
      Some((30 + DigitValue(s[k + 1]), k + 2))
    else if k + 1 < |s| && (s[k] == '1' || s[k] == '2') && IsDigit(s[k + 1]) then
      Some((DigitValue(s[k]) * 10 + DigitValue(s[k + 1]), k + 2))
    else if k + 1 < |s| && s[k] == '0' && IsNonZeroDigit(s[k + 1]) then
      Some((DigitValue(s[k + 1]), k + 2))
    else if k < |s| && IsNonZeroDigit(s[k]) then
      Some((DigitValue(s[k]), k + 1))
    else if k + 1 < |s| && s[k] == ' ' && IsNonZeroDigit(s[k + 1]) then
      Some((DigitValue(s[k + 1]), k + 2))
    else None
  }

  function StrptimeNoMatch(s: string): string {
    "time data '" + s + "' does not match format '%Y-%m-%d'"
  }

  /**
   * `datetime.strptime(s, '%Y-%m-%d').date()`: the pattern `\d\d\d\d-`, the
   * month and day fields matched from the start; text left over after the
   * day, year 0 and a day past the end of the month each raise with their
   * own message.
   */
  function Strptime(s: string): (r: StrptimeResult)
    ensures r.StrptimeDate? ==> InPythonRange(r.date)
  {
    if |s| < 5 || !AllDigits(s[..4]) || s[4] != '-' then StrptimeError(StrptimeNoMatch(s))
    else
      match MonthField(s)
      case None => StrptimeError(StrptimeNoMatch(s))
      case Some((month, k)) =>
        match DayField(s, k)
        case None => StrptimeError(StrptimeNoMatch(s))
        case Some((day, end)) =>
          DigitsValueBelow(s[..4]);
          assert Pow10(4) == 10000;
          var year := DigitsValue(s[..4]);
          if end < |s| then StrptimeError("unconverted data remains: " + s[end..])
          else if year < MinYear then StrptimeError("year 0 is out of range")
          else if day > DaysInMonth(year, month) then StrptimeError("day is out of range for month")
          else StrptimeDate(Ymd(year, month, day))
  }

  /**
   * On zero-padded YYYY-MM-DD text, `strptime` and `fromisoformat` accept
   * the same strings and read the same date.
   */
  lemma StrptimeAgreesWithIsoFormat(s: string)
    requires IsoShaped(s)
    ensures FromIsoFormat(s).Some? <==> Strptime(s).StrptimeDate?
    ensures FromIsoFormat(s).Some? ==> Strptime(s).date == FromIsoFormat(s).value
  {
    TwoDigitsValue(s[5..7]);
    TwoDigitsValue(s[8..]);
  }

  /** `datetime.strptime(str(d), '%Y-%m-%d').date() == d`. */
  lemma StrptimeFormatRoundTrip(d: Date)
    requires InPythonRange(d)
    ensures Strptime(FormatDate(d)) == StrptimeDate(d)
  {
    FormatDateShape(d);
    FromIsoFormatRoundTrip(d);
    StrptimeAgreesWithIsoFormat(FormatDate(d));
  }

  /** YYYY-M-D without zero padding. */
  function UnpaddedDate(d: Date): string
    requires InPythonRange(d) && d.month < 10 && d.day < 10
  {
    ZeroPad(d.year, 4) + "-" + [DigitChar(d.month)] + "-" + [DigitChar(d.day)]
  }

  /**
   * A one-digit month and day need no zero padding for `strptime`, while
   * `fromisoformat` refuses that text.
   */
  lemma UnpaddedDateOnlyForStrptime(d: Date)
    requires InPythonRange(d) && d.month < 10 && d.day < 10
    ensures Strptime(UnpaddedDate(d)) == StrptimeDate(d)
    ensures FromIsoFormat(UnpaddedDate(d)) == None
  {
    ZeroPadRoundTrip(d.year, 4);
    assert Pow10(4) == 10000;
    NatDigitsBound(d.year, 4);
    var s := UnpaddedDate(d);
    assert s[..4] == ZeroPad(d.year, 4);
    assert s[4] == '-' && s[5] == DigitChar(d.month) && s[6] == '-' && s[7] == DigitChar(d.day);
    assert |s| == 8;
  }

  /** `parse_date` falls back to its pattern for YYYY-M-D, which fromisoformat refuses, and reads the date. */
  lemma UnpaddedDateParsedByPattern(d: Date)
    requires InPythonRange(d) && d.month < 10 && d.day < 10
    ensures FromIsoFormat(UnpaddedDate(d)) == None && ParseDate(UnpaddedDate(d)) == Parsed(d)
  {
    UnpaddedDateOnlyForStrptime(d);
    ZeroPadRoundTrip(d.year, 4);
    var s := UnpaddedDate(d);
    assert s[..4] == ZeroPad(d.year, 4);
    assert s[4] == '-' && s[5] == DigitChar(d.month) && s[6] == '-' && s[7] == DigitChar(d.day);
    assert |s| == 8 && s[|s| - 1] != '\n';
    var rest := s[5..];
    assert rest[..1] == [DigitChar(d.month)] && rest[2..] == [DigitChar(d.day)];
    assert DigitsValue(s[..4]) == d.year;
    assert DigitsValue([DigitChar(d.month)]) == d.month by {
      assert [DigitChar(d.month)][..0] == [];
    }
    assert DigitsValue([DigitChar(d.day)]) == d.day by {
      assert [DigitChar(d.day)][..0] == [];
    }
    assert Ymd(d.year, d.month, d.day) == d;
    assert MatchDateText(s) == Parsed(d);
  }

  /** February 30th matches the pattern, and `date()` then refuses the day. */
  lemma StrptimeDayOutOfRange()
    ensures Strptime("2024-02-30") == StrptimeError("day is out of range for month")
  {
    var s := "2024-02-30";
    assert s[..4] == "2024";
    assert DigitsValue("2024") == 2024 by {
      assert "2024"[..3] == "202";
      assert "202"[..2] == "20";
      assert "20"[..1] == "2";
    }
  }

  /** A day of 32 matches as the day 3, leaving the 2 over. */
  lemma StrptimeLeavesUnconvertedData()
    ensures Strptime("2024-01-32") == StrptimeError("unconverted data remains: 2")
  {
    var s := "2024-01-32";
    assert s[..4] == "2024";
    assert s[9..] == "2";
  }

  /** A number below 10^w has at most `w` digits. */
  lemma {:induction false} NatDigitsBound(n: nat, w: nat)
    requires 1 <= w && n < Pow10(w)
    ensures |NatToString(n)| <= w
    decreases w
  {
    if n >= 10 {
      NatDigitsBound(n / 10, w - 1);
    }
  }

  // ---------------------------------------------------------------------------
  // Instants
  // ---------------------------------------------------------------------------

  const SecondsPerDay := 86400
  const SecondsPerHour := 3600

  datatype Moment = Moment(date: Date, second: int)

  predicate IsValidMoment(t: Moment) {
    0 <= t.second < SecondsPerDay
  }

  /** A `datetime` in UTC, to the second. */
  type Instant = t: Moment | IsValidMoment(t) witness Moment(Ymd(1970, 1, 1), 0)

  /** Seconds since 0001-01-01 00:00:00. */
  function EpochSeconds(t: Instant): int {
    DayNumber(t.date) * SecondsPerDay + t.second
  }

  /** `a < b` on datetimes. */
  predicate Earlier(a: Instant, b: Instant) {
    EpochSeconds(a) < EpochSeconds(b)
  }

  /** `t - timedelta(days=n)`. */
  function MinusDays(t: Instant, n: nat): (r: Instant)
    ensures EpochSeconds(r) == EpochSeconds(t) - n * SecondsPerDay
  {
    SubDaysNumber(t.date, n);
    Moment(SubDays(t.date, n), t.second)
  }

  /** `t - timedelta(hours=1)`. */
  function MinusOneHour(t: Instant): (r: Instant)
    ensures EpochSeconds(r) == EpochSeconds(t) - SecondsPerHour
  {
    if t.second >= SecondsPerHour then Moment(t.date, t.second - SecondsPerHour)
    else
      PredIsPreviousDay(t.date);
      Moment(Pred(t.date), t.second + SecondsPerDay - SecondsPerHour)
  }

  /** `t.strftime('%Y-%m-%d %H:%M:%S')`. */
  function FormatInstant(t: Instant): string {
    FormatDate(t.date) + " " + ZeroPad(t.second / 3600, 2) + ":"
      + ZeroPad(t.second % 3600 / 60, 2) + ":" + ZeroPad(t.second % 60, 2)
  }
}
