/**
 * UTC calendar arithmetic as the system performs it with JavaScript `Date`
 * objects: the day before and after a date (`setUTCDate(d ± 1)`), the
 * `YYYY-MM-DD` rendering with two-digit month and day, and the reading of
 * `date + "T00:00:00Z"` back into a date.
 */
module Calendar {
  import opened Wrappers
  import opened Text

  /** A proleptic Gregorian calendar date, as JavaScript's UTC getters report it. */
  datatype Date = Date(year: int, month: int, day: int)

  predicate IsLeapYear(y: int) {
    y % 4 == 0 && (y % 100 != 0 || y % 400 == 0)
  }

  function DaysInMonth(y: int, m: int): (r: int)
    requires 1 <= m <= 12
    ensures 28 <= r <= 31
    ensures r == 29 <==> m == 2 && IsLeapYear(y)
  {
    if m == 2 then (if IsLeapYear(y) then 29 else 28)
    else if m == 4 || m == 6 || m == 9 || m == 11 then 30
    else 31
  }

  predicate ValidDate(d: Date) {
    1 <= d.month <= 12 && 1 <= d.day <= DaysInMonth(d.year, d.month)
  }

  /** A date that exists in the calendar; the clock only ever yields these. */
  type CalendarDate = d: Date | ValidDate(d) witness Date(1970, 1, 1)

  /** Chronological order of dates. */
  predicate Before(d: Date, e: Date) {
    d.year < e.year
    || (d.year == e.year && d.month < e.month)
    || (d.year == e.year && d.month == e.month && d.day < e.day)
  }

  /** The following calendar day: later than `d`, and no date lies in between. */
  function NextDay(d: CalendarDate): (r: CalendarDate)
    ensures Before(d, r)
    ensures forall e: CalendarDate :: Before(d, e) ==> r == e || Before(r, e)
  {
    if d.day < DaysInMonth(d.year, d.month) then Date(d.year, d.month, d.day + 1)
    else if d.month < 12 then Date(d.year, d.month + 1, 1)
    else Date(d.year + 1, 1, 1)
  }

  /** The preceding calendar day: the one whose next day is `d`. */
  function PrevDay(d: CalendarDate): (r: CalendarDate)
    ensures NextDay(r) == d
    ensures Before(r, d)
  {
    if d.day > 1 then Date(d.year, d.month, d.day - 1)
    else if d.month > 1 then Date(d.year, d.month - 1, DaysInMonth(d.year, d.month - 1))
    else Date(d.year - 1, 12, 31)
  }

  lemma PrevOfNext(d: CalendarDate)
    ensures PrevDay(NextDay(d)) == d
  {
  }

  // ---------------------------------------------------------------------------
  // Rendering: `${y}-${pad(m)}-${pad(d)}` with pad = padStart(2, "0")
  // ---------------------------------------------------------------------------

  /** `n.toString().padStart(2, "0")`. */
  function Pad2(n: nat): (r: string)
    requires n < 100
    ensures |r| == 2 && AllDigits(r)
  {
    if n < 10 then "0" + NatToString(n)
    else
      assert |NatToString(n / 10)| == 1;
      NatToString(n)
  }

  /** The `YYYY-MM-DD` text the system writes for a date (the year is not padded). */
  function Format(d: CalendarDate): string {
    IntToString(d.year) + "-" + Pad2(d.month) + "-" + Pad2(d.day)
  }

  /** What JavaScript renders for an invalid `Date`. */
  const INVALID_DATE_TEXT := "NaN-NaN-NaN"

  // ---------------------------------------------------------------------------
  // Reading: `new Date(s + "T00:00:00Z")`
  // ---------------------------------------------------------------------------

  /**
   * The date denoted by `s` in the date forms of the ECMAScript date-time
   * format (`YYYY`, `YYYY-MM`, `YYYY-MM-DD`), or None for an invalid date.
   */
  function Parse(s: string): (r: Option<CalendarDate>)
    ensures r.Some? ==> 0 <= r.value.year <= 9999
  {
    if |s| < 4 || !AllDigits(s[..4]) then None
    else
      var y := DigitsValue(s[..4]);
      DigitsBelow(s[..4]);
      if |s| == 4 then Some(Date(y, 1, 1))
      else if |s| < 7 || s[4] != '-' || !AllDigits(s[5..7]) then None
      else
        var m := DigitsValue(s[5..7]);
        if m < 1 || m > 12 then None
        else if |s| == 7 then Some(Date(y, m, 1))
        else if |s| != 10 || s[7] != '-' || !AllDigits(s[8..10]) then None
        else
          var day := DigitsValue(s[8..10]);
          if 1 <= day <= DaysInMonth(y, m) then Some(Date(y, m, day)) else None
  }

  lemma DigitsBelow(s: string)
    requires AllDigits(s) && |s| == 4
    ensures DigitsValue(s) <= 9999
  {
    var a, b, c := s[..3], s[..2], s[..1];
    assert a[..2] == b && b[..1] == c && c[..0] == [];
    assert DigitsValue(c) <= 9;
    assert DigitsValue(b) <= 99;
    assert DigitsValue(a) <= 999;
  }

  /** `getNextDay(date)`: the following day rendered, or the invalid-date text. */
  function NextDayText(date: string): (r: string)
    ensures Parse(date).None? ==> r == INVALID_DATE_TEXT
    ensures Parse(date).Some? ==> r == Format(NextDay(Parse(date).value))
  {
    match Parse(date)
    case Some(d) => Format(NextDay(d))
    case None => INVALID_DATE_TEXT
  }

  /** Two-digit rendering reads back as the number. */
  lemma Pad2RoundTrip(n: nat)
    requires n < 100
    ensures DigitsValue(Pad2(n)) == n
  {
    if n < 10 {
      var p := Pad2(n);
      assert p == ['0', DigitChar(n)];
      assert p[..1] == ['0'] && p[..1][..0] == [];
      assert DigitsValue(p[..1]) == 0;
    } else {
      DigitsValueOfNatToString(n);
    }
  }

  /** Reading two digits and padding them back gives the same two digits. */
  lemma Pad2OfDigits(s: string)
    requires |s| == 2 && AllDigits(s)
    ensures DigitsValue(s) < 100 && Pad2(DigitsValue(s)) == s
  {
    assert s[..1][..0] == [];
    var v := DigitsValue(s);
    if s[0] == '0' {
      assert s[..1] == ['0'];
      assert DigitsValue(s[..1]) == 0;
      assert v == s[1] as int - '0' as int;
      assert [DigitChar(v)] == [s[1]];
      assert s == ['0', s[1]];
    } else {
      NatToStringOfDigitsValue(s);
    }
  }

  /** A rendered date with a four-digit year reads back as the same date. */
  lemma {:induction false} ParseFormat(d: CalendarDate)
    requires 1000 <= d.year <= 9999
    ensures Parse(Format(d)) == Some(d)
  {
    var ys := NatToString(d.year);
    var ms, ds := Pad2(d.month), Pad2(d.day);
    var s := Format(d);
    assert |ys| == 4 by { NatToStringLength4(d.year); }
    assert s == ys + "-" + ms + "-" + ds;
    assert s[..4] == ys;
    assert s[5..7] == ms;
    assert s[8..10] == ds;
    DigitsValueOfNatToString(d.year);
    Pad2RoundTrip(d.month);
    Pad2RoundTrip(d.day);
  }

  lemma NatToStringLength4(n: nat)
    requires 1000 <= n <= 9999
    ensures |NatToString(n)| == 4
  {
    var a := n / 10;
    var b := a / 10;
    var c := b / 10;
    assert 1 <= c < 10;
    assert |NatToString(b)| == 2;
    assert |NatToString(a)| == 3;
  }

  /** A full `YYYY-MM-DD` date with a year from 1000 on renders back to its own text. */
  lemma {:induction false} FormatParse(s: string)
    requires |s| == 10 && Parse(s).Some? && s[0] != '0'
    ensures Format(Parse(s).value) == s
  {
    var d := Parse(s).value;
    NatToStringOfDigitsValue(s[..4]);
    Pad2OfDigits(s[5..7]);
    Pad2OfDigits(s[8..10]);
    assert s == s[..4] + "-" + s[5..7] + "-" + s[8..10];
  }

  /**
   * The day before `today`, rendered `YYYY-MM-DD`: the gateway's default
   * business day (`toDateString(calcBusinessDay(new Date()))`) and the
   * audit's date (`getYesterdayDate()`), both taken in UTC.
   */
  function Yesterday(today: CalendarDate): string {
    Format(PrevDay(today))
  }

  /** Yesterday's text reads back as the date whose next day is today. */
  lemma YesterdayIsDayBefore(today: CalendarDate)
    requires 1001 <= today.year <= 9999
    ensures Parse(Yesterday(today)).Some?
    ensures NextDay(Parse(Yesterday(today)).value) == today
  {
    ParseFormat(PrevDay(today));
  }

  /** The year 2024 is written with its four digits. */
  lemma Year2024Text()
    ensures IntToString(2024) == "2024"
  {
    assert NatToString(2) == "2";
    assert NatToString(20) == "20";
    assert NatToString(202) == "202";
  }

  /** Yesterday across a month end. */
  lemma YesterdayAcrossMonthEnd()
    ensures Yesterday(Date(2024, 3, 1)) == "2024-02-29"
  {
    Year2024Text();
    assert PrevDay(Date(2024, 3, 1)) == Date(2024, 2, 29);
  }

  /** Yesterday within a month. */
  lemma YesterdayWithinMonth()
    ensures Yesterday(Date(2024, 3, 2)) == "2024-03-01"
  {
    Year2024Text();
    assert PrevDay(Date(2024, 3, 2)) == Date(2024, 3, 1);
  }

  /** Yesterday across a year end. */
  lemma YesterdayAcrossYearEnd()
    ensures Yesterday(Date(2025, 1, 1)) == "2024-12-31"
  {
    Year2024Text();
    assert PrevDay(Date(2025, 1, 1)) == Date(2024, 12, 31);
  }
}
