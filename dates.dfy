/**
 * The date utility: `validate_date_format` accepts a `YYYY-MM-DD` calendar
 * date, `calculate_days_open` counts the whole days from that date to today.
 * The current moment is a parameter: `today` is the proleptic Gregorian
 * ordinal of the current local date (0001-01-01 is day 1, as in Python's
 * `date.toordinal`).
 */
module Dates {
  import opened Wrappers

  datatype Date = Date(year: int, month: int, day: int)

  predicate IsLeapYear(y: int)
  {
    y % 4 == 0 && (y % 100 != 0 || y % 400 == 0)
  }

  function DaysInMonth(y: int, m: int): (n: int)
    requires 1 <= m <= 12
    ensures 28 <= n <= 31
  {
    if m == 2 then (if IsLeapYear(y) then 29 else 28)
    else if m == 4 || m == 6 || m == 9 || m == 11 then 30
    else 31
  }

  /** A real calendar date in the years `datetime` supports (1 to 9999). */
  predicate ValidDate(d: Date)
  {
    1 <= d.year <= 9999 && 1 <= d.month <= 12 && 1 <= d.day <= DaysInMonth(d.year, d.month)
  }

  // ---- Fixed-width decimal fields ----

  predicate IsDigit(c: char)
  {
    '0' <= c <= '9'
  }

  predicate AllDigits(s: string)
  {
    forall i :: 0 <= i < |s| ==> IsDigit(s[i])
  }

  function Pow10(n: nat): (p: nat)
    ensures p >= 1
  {
    if n == 0 then 1 else 10 * Pow10(n - 1)
  }

  /** The value of a string of decimal digits, most significant first. */
  function Number(s: string): nat
    requires AllDigits(s)
  {
    if s == [] then 0 else 10 * Number(s[..|s| - 1]) + (s[|s| - 1] as int - '0' as int)
  }

  /** `n` written with exactly `width` digits, zero-padded (`%0*d`). */
  function Padded(n: nat, width: nat): (s: string)
    ensures |s| == width && AllDigits(s)
  {
    if width == 0 then [] else Padded(n / 10, width - 1) + [('0' as int + n % 10) as char]
  }

  lemma {:induction false} NumberOfPadded(n: nat, width: nat)
    requires n < Pow10(width)
    ensures Number(Padded(n, width)) == n
  {
    if width > 0 {
      NumberOfPadded(n / 10, width - 1);
      var s := Padded(n, width);
      assert s[..width - 1] == Padded(n / 10, width - 1);
    }
  }

  lemma {:induction false} PaddedOfNumber(s: string)
    requires AllDigits(s)
    ensures Number(s) < Pow10(|s|)
    ensures Padded(Number(s), |s|) == s
  {
    if s != [] {
      var init := s[..|s| - 1];
      PaddedOfNumber(init);
      var v := s[|s| - 1] as int - '0' as int;
      assert Number(s) / 10 == Number(init) && Number(s) % 10 == v;
      assert s == init + [s[|s| - 1]];
    }
  }

  // ---- Parsing and formatting ----

  /** `datetime.strptime(s, "%Y-%m-%d")` restricted to the zero-padded form. */
  function ParseDate(s: string): (r: Option<Date>)
    ensures r.Some? ==> ValidDate(r.value)
    ensures r.Some? ==> |s| == 10 && s[4] == '-' && s[7] == '-'
  {
    if |s| == 10 && s[4] == '-' && s[7] == '-'
      && AllDigits(s[..4]) && AllDigits(s[5..7]) && AllDigits(s[8..])
    then
      var d := Date(Number(s[..4]), Number(s[5..7]), Number(s[8..]));
      if ValidDate(d) then Some(d) else None
    else None
  }

  /** The canonical zero-padded `YYYY-MM-DD` spelling of a date. */
  function FormatDate(d: Date): (s: string)
    requires ValidDate(d)
    ensures |s| == 10
  {
    Padded(d.year, 4) + "-" + Padded(d.month, 2) + "-" + Padded(d.day, 2)
  }

  /** Formatting a valid date and parsing it back gives the date again. */
  lemma ParseFormat(d: Date)
    requires ValidDate(d)
    ensures ParseDate(FormatDate(d)) == Some(d)
  {
    var s := FormatDate(d);
    assert s[..4] == Padded(d.year, 4);
    assert s[5..7] == Padded(d.month, 2);
    assert s[8..] == Padded(d.day, 2);
    NumberOfPadded(d.year, 4);
    NumberOfPadded(d.month, 2);
    NumberOfPadded(d.day, 2);
  }

  /** A string is accepted only in its one canonical spelling. */
  lemma FormatParse(s: string, d: Date)
    requires ParseDate(s) == Some(d)
    ensures FormatDate(d) == s
  {
    PaddedOfNumber(s[..4]);
    PaddedOfNumber(s[5..7]);
    PaddedOfNumber(s[8..]);
    assert s == s[..4] + "-" + s[5..7] + "-" + s[8..];
  }

  /** `validate_date_format`: a string that parses; null (`None`) raises TypeError and is rejected. */
  predicate ValidateDateFormat(v: Option<string>)
    ensures v == None || v == Some("") ==> !ValidateDateFormat(v)
    ensures ValidateDateFormat(v) ==> |v.value| == 10 && v.value[4] == '-' && v.value[7] == '-'
  {
    v.Some? && ParseDate(v.value).Some?
  }

  /** The accepted inputs are exactly the canonical spellings of the valid dates. */
  lemma ValidateDateFormatIff(v: Option<string>)
    ensures ValidateDateFormat(v) <==> exists d :: ValidDate(d) && v == Some(FormatDate(d))
  {
    if ValidateDateFormat(v) {
      var d := ParseDate(v.value).value;
      FormatParse(v.value, d);
    }
    if exists d :: ValidDate(d) && v == Some(FormatDate(d)) {
      var d :| ValidDate(d) && v == Some(FormatDate(d));
      ParseFormat(d);
    }
  }

  // ---- Day ordinals ----

  /** Python's `_days_before_year`. */
  function DaysBeforeYear(y: int): int
  {
    var p := y - 1;
    365 * p + p / 4 - p / 100 + p / 400
  }

  /** Python's `_days_before_month`. */
  function DaysBeforeMonth(y: int, m: int): int
    requires 1 <= m <= 12
  {
    [0, 31, 59, 90, 120, 151, 181, 212, 243, 273, 304, 334][m - 1]
      + (if m > 2 && IsLeapYear(y) then 1 else 0)
  }

  /** `date.toordinal()`. */
  function DayOrdinal(d: Date): int
    requires ValidDate(d)
  {
    DaysBeforeYear(d.year) + DaysBeforeMonth(d.year, d.month) + d.day
  }

  /** The calendar's successor of `d`. */
  function NextDay(d: Date): (r: Date)
    requires ValidDate(d)
    ensures d.year < 9999 || d.month < 12 || d.day < 31 ==> ValidDate(r)
  {
    if d.day < DaysInMonth(d.year, d.month) then Date(d.year, d.month, d.day + 1)
    else if d.month < 12 then Date(d.year, d.month + 1, 1)
    else Date(d.year + 1, 1, 1)
  }

  /** Stepping the dividend by one moves the quotient exactly at multiples of `k`. */
  lemma QuotientStep(y: int, k: int)
    requires k == 4 || k == 100 || k == 400
    ensures y / k - (y - 1) / k == if y % k == 0 then 1 else 0
  {
    var q, r := (y - 1) / k, (y - 1) % k;
    assert y - 1 == k * q + r && 0 <= r < k;
    if r == k - 1 {
      assert y == k * (q + 1);
    } else {
      assert y == k * q + (r + 1);
    }
  }

  lemma YearLength(y: int)
    ensures DaysBeforeYear(y + 1) - DaysBeforeYear(y) == if IsLeapYear(y) then 366 else 365
  {
    QuotientStep(y, 4);
    QuotientStep(y, 100);
    QuotientStep(y, 400);
  }

  /** The ordinal counts days: the next calendar day has the next ordinal. */
  lemma NextDayOrdinal(d: Date)
    requires ValidDate(d) && ValidDate(NextDay(d))
    ensures DayOrdinal(NextDay(d)) == DayOrdinal(d) + 1
  {
    if d.day == DaysInMonth(d.year, d.month) && d.month == 12 {
      YearLength(d.year);
    }
  }

  /** `calculate_days_open`: -1 for a rejected date, else the whole days from it to today. */
  function CalculateDaysOpen(created: Option<string>, today: int): (days: int)
    ensures !ValidateDateFormat(created) ==> days == -1
    ensures ValidateDateFormat(created) ==>
      ParseDate(created.value).Some? && days == today - DayOrdinal(ParseDate(created.value).value)
  {
    if !ValidateDateFormat(created) then -1
    else today - DayOrdinal(ParseDate(created.value).value)
  }
}
