/**
 * `getRandomFutureDates`: a check-in date 1 to 100 days after today, picked
 * from the millisecond clock, and the day after it, both written as M/D/YYYY.
 * Today's civil date and the clock reading are parameters.
 */
module DateRandom {
  import opened Wrappers
  import opened JsText

  /** A date of the proleptic Gregorian calendar; `month` is 1-based. */
  datatype Date = Date(year: int, month: int, day: int)

  predicate IsLeapYear(y: int)
  {
    y % 4 == 0 && (y % 100 != 0 || y % 400 == 0)
  }

  function DaysInMonth(y: int, m: int): (n: int)
    requires 1 <= m <= 12
    ensures 28 <= n <= 31
  {
    if m == 2 then (if IsLeapYear(y) then 29 else 28)
    else if m == 4 || m == 6 || m == 9 || m == 11 then 30
    else 31
  }

  predicate ValidDate(d: Date)
  {
    1 <= d.month <= 12 && 1 <= d.day <= DaysInMonth(d.year, d.month)
  }

  /** The number of days from 1 January of year 0 to 1 January of year `y`. */
  function DaysBeforeYear(y: int): int
  {
    365 * y + (y + 3) / 4 - (y + 99) / 100 + (y + 399) / 400
  }

  /** The number of days from 1 January to the first of month `m` in year `y`. */
  function DaysBeforeMonth(y: int, m: int): int
    requires 1 <= m <= 12
  {
    (if m > 2 && IsLeapYear(y) then 1 else 0) +
    (match m
     case 1 => 0 case 2 => 31 case 3 => 59 case 4 => 90 case 5 => 120 case 6 => 151
     case 7 => 181 case 8 => 212 case 9 => 243 case 10 => 273 case 11 => 304 case _ => 334)
  }

  /** The date's position on a count of days: consecutive days have consecutive numbers. */
  function DayNumber(d: Date): int
    requires 1 <= d.month <= 12
  {
    DaysBeforeYear(d.year) + DaysBeforeMonth(d.year, d.month) + d.day - 1
  }

  /** A year adds 366 days to the count when it is a leap year, and 365 otherwise. */
  lemma YearLength(y: int)
    ensures DaysBeforeYear(y + 1) == DaysBeforeYear(y) + (if IsLeapYear(y) then 366 else 365)
  {
    MultiplesUpTo(y, 4);
    MultiplesUpTo(y, 100);
    MultiplesUpTo(y, 400);
    DivisorChain(y);
  }

  /** A multiple of 400 is a multiple of 100, and a multiple of 100 one of 4. */
  lemma DivisorChain(y: int)
    ensures y % 400 == 0 ==> y % 100 == 0
    ensures y % 100 == 0 ==> y % 4 == 0
  {
  }

  /**
   * Each count `(y + k - 1) / k` of `DaysBeforeYear` (leap years, centuries,
   * quadricentennials) grows by one exactly after a multiple of `k`.
   */
  lemma MultiplesUpTo(y: int, k: int)
    requires k == 4 || k == 100 || k == 400
    ensures (y + k) / k == (y + k - 1) / k + (if y % k == 0 then 1 else 0)
  {
    if k == 4 {
      assert (y + 4) / 4 == (y + 3) / 4 + (if y % 4 == 0 then 1 else 0);
    } else if k == 100 {
      assert (y + 100) / 100 == (y + 99) / 100 + (if y % 100 == 0 then 1 else 0);
    } else {
      assert (y + 400) / 400 == (y + 399) / 400 + (if y % 400 == 0 then 1 else 0);
    }
  }

  /** The day after `d`, rolling over month and year ends. */
  function NextDay(d: Date): (r: Date)
    requires ValidDate(d)
    ensures ValidDate(r) && DayNumber(r) == DayNumber(d) + 1
  {
    if d.day < DaysInMonth(d.year, d.month) then Date(d.year, d.month, d.day + 1)
    else if d.month < 12 then Date(d.year, d.month + 1, 1)
    else
      YearLength(d.year);
      Date(d.year + 1, 1, 1)
  }

  /** The day before `d`, rolling back over month and year starts. */
  function PrevDay(d: Date): (r: Date)
    requires ValidDate(d)
    ensures ValidDate(r) && DayNumber(r) == DayNumber(d) - 1
  {
    if d.day > 1 then Date(d.year, d.month, d.day - 1)
    else if d.month > 1 then Date(d.year, d.month - 1, DaysInMonth(d.year, d.month - 1))
    else
      YearLength(d.year - 1);
      Date(d.year - 1, 12, 31)
  }

  /** `d` moved by `n` calendar days, as setting the day of the month to today's plus `n` does. */
  function AddDays(d: Date, n: int): (r: Date)
    requires ValidDate(d)
    ensures ValidDate(r) && DayNumber(r) == DayNumber(d) + n
    decreases if n < 0 then -n else n
  {
    if n == 0 then d
    else if n > 0 then AddDays(NextDay(d), n - 1)
    else AddDays(PrevDay(d), n + 1)
  }

  /** The quotient of `a` by `b` truncated toward zero. */
  function TruncatedQuotient(a: int, b: int): int
    requires b > 0
  {
    if a >= 0 then a / b else -((-a) / b)
  }

  /** JavaScript's `a % b`: the remainder takes the sign of `a`. */
  function JsRemainder(a: int, b: int): (r: int)
    requires b > 0
    ensures a >= 0 ==> 0 <= r < b
    ensures a < 0 ==> -b < r <= 0
    ensures a == TruncatedQuotient(a, b) * b + r
  {
    if a >= 0 then a % b else -((-a) % b)
  }

  /** The day offset: the clock reading's JavaScript remainder by 100, plus one. */
  function Offset(now: int): (offset: int)
    ensures now >= 0 ==> 1 <= offset <= 100
    ensures now < 0 ==> -98 <= offset <= 1
  {
    JsRemainder(now, 100) + 1
  }

  /** Month (1-based), day and full year as decimal numerals joined by slashes, without zero padding. */
  function Format(d: Date): string
  {
    IntToDecimal(d.month) + "/" + IntToDecimal(d.day) + "/" + IntToDecimal(d.year)
  }

  /** Check-in and check-out dates before formatting. */
  function FutureDates(today: Date, now: int): (dates: (Date, Date))
    requires ValidDate(today)
    ensures ValidDate(dates.0) && ValidDate(dates.1)
    ensures DayNumber(dates.0) == DayNumber(today) + Offset(now)
    ensures DayNumber(dates.1) == DayNumber(dates.0) + 1
  {
    var checkin := AddDays(today, Offset(now));
    (checkin, AddDays(checkin, 1))
  }

  /** `getRandomFutureDates`: the check-in and check-out texts. */
  function RandomFutureDates(today: Date, now: int): (string, string)
    requires ValidDate(today)
  {
    var (checkin, checkout) := FutureDates(today, now);
    (Format(checkin), Format(checkout))
  }

  /**
   * With a clock at or after the epoch, check-in is 1 to 100 days after
   * today and check-out the day after check-in; both are strictly later
   * than today.
   */
  lemma FutureDatesAreLater(today: Date, now: int)
    requires ValidDate(today) && now >= 0
    ensures var (checkin, checkout) := FutureDates(today, now);
      DayNumber(today) + 1 <= DayNumber(checkin) <= DayNumber(today) + 100 &&
      DayNumber(checkout) == DayNumber(checkin) + 1 &&
      checkout == NextDay(checkin)
  {
    var checkin := AddDays(today, Offset(now));
    assert AddDays(checkin, 1) == AddDays(NextDay(checkin), 0);
  }

  /**
   * Each text of `getRandomFutureDates` reads back as a valid date: check-in
   * lies `Offset(now)` days after today and check-out one day after check-in.
   */
  lemma RandomFutureDatesReadBack(today: Date, now: int)
    requires ValidDate(today)
    ensures var (checkinText, checkoutText) := RandomFutureDates(today, now);
      match (ParseDate(checkinText), ParseDate(checkoutText))
      case (Some(checkin), Some(checkout)) =>
        DayNumber(checkin) == DayNumber(today) + Offset(now) &&
        DayNumber(checkout) == DayNumber(checkin) + 1
      case _ => false
  {
    var (checkin, checkout) := FutureDates(today, now);
    FormatRoundTrip(checkin);
    FormatRoundTrip(checkout);
  }

  /** The text before the first `sep` of `s`, and the text after it when there is one. */
  function SplitFirst(s: string, sep: char): (string, Option<string>)
  {
    if s == [] then ([], None)
    else if s[0] == sep then ([], Some(s[1..]))
    else
      var (head, tail) := SplitFirst(s[1..], sep);
      ([s[0]] + head, tail)
  }

  lemma {:induction false} SplitFirstAt(a: string, sep: char, b: Option<string>)
    requires sep !in a
    ensures SplitFirst(a + (if b.Some? then [sep] + b.value else []), sep) == (a, b)
  {
    var s := a + (if b.Some? then [sep] + b.value else []);
    if a == [] {
      assert s == (if b.Some? then [sep] + b.value else []);
      if b.Some? { assert s[1..] == b.value; }
    } else {
      assert s[0] == a[0] && a[0] != sep;
      assert s[1..] == a[1..] + (if b.Some? then [sep] + b.value else []);
      SplitFirstAt(a[1..], sep, b);
      assert [a[0]] + a[1..] == a;
    }
  }

  /** Reads an M/D/YYYY text back into a date; `None` when it is not one. */
  function ParseDate(s: string): Option<Date>
  {
    var (m, rest) := SplitFirst(s, '/');
    if rest.None? then None
    else
      var (d, y) := SplitFirst(rest.value, '/');
      if y.None? then None
      else
        match (ParseInt(m), ParseInt(d), ParseInt(y.value))
        case (Num(mm), Num(dd), Num(yy)) =>
          if ValidDate(Date(yy, mm, dd)) then Some(Date(yy, mm, dd)) else None
        case _ => None
  }

  /** A numeral has no slash in it. */
  lemma NoSlashInNumeral(n: int)
    ensures '/' !in IntToDecimal(n)
  {
  }

  /** Text joined with two slashes splits back into its three fields. */
  lemma SplitThreeFields(m: string, dd: string, y: string)
    requires '/' !in m && '/' !in dd
    ensures SplitFirst(m + "/" + dd + "/" + y, '/') == (m, Some(dd + "/" + y))
    ensures SplitFirst(dd + "/" + y, '/') == (dd, Some(y))
  {
    SplitFirstAt(dd, '/', Some(y));
    assert dd + "/" + y == dd + ([('/')] + y);
    SplitFirstAt(m, '/', Some(dd + "/" + y));
    assert m + "/" + dd + "/" + y == m + ([('/')] + (dd + "/" + y));
  }

  /** The formatted date reads back as the same date, so no two dates share a text. */
  lemma FormatRoundTrip(d: Date)
    requires ValidDate(d)
    ensures ParseDate(Format(d)) == Some(d)
  {
    NoSlashInNumeral(d.month);
    NoSlashInNumeral(d.day);
    SplitThreeFields(IntToDecimal(d.month), IntToDecimal(d.day), IntToDecimal(d.year));
    ParseIntRoundTrip(d.month);
    ParseIntRoundTrip(d.day);
    ParseIntRoundTrip(d.year);
  }

  /** Rollover at the end of a leap February and of a year. */
  lemma RolloverExamples()
    ensures NextDay(Date(2024, 2, 28)) == Date(2024, 2, 29)
    ensures NextDay(Date(2024, 2, 29)) == Date(2024, 3, 1)
    ensures NextDay(Date(2025, 12, 31)) == Date(2026, 1, 1)
  {
  }

  /** 5 March 2026 is written without padding. */
  lemma FormatExample()
    ensures Format(Date(2026, 3, 5)) == "3/5/2026"
  {
    assert NatToDecimal(2) == "2";
    assert NatToDecimal(20) == "20";
    assert NatToDecimal(202) == "202";
    assert NatToDecimal(2026) == "2026";
    assert IntToDecimal(3) == "3" && IntToDecimal(5) == "5";
  }

  /** Month and day are written without leading zeros: 1 to 9 take one character. */
  lemma FormatUnpadded(d: Date)
    requires ValidDate(d)
    ensures IntToDecimal(d.month)[0] != '0' && IntToDecimal(d.day)[0] != '0'
    ensures d.month < 10 ==> |IntToDecimal(d.month)| == 1
    ensures d.day < 10 ==> |IntToDecimal(d.day)| == 1
  {
  }
}
