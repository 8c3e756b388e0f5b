/**
 * Calendar dates written as eight ASCII digits YYYYMMDD, the ISO 8601 basic
 * calendar-date format (section 4.1.2.2 of ISO 8601:2004), in the proleptic
 * Gregorian calendar. This is what datetime.strptime(token, '%Y%m%d') accepts
 * on an eight-digit token: the format regex forces a 4-2-2 split, and the
 * date object rejects year 0, months outside 1..12 and days outside the month.
 */
module Calendar {
  import opened Wrappers

  datatype Date = Date(year: int, month: int, day: int)

  predicate IsLeapYear(y: int)
  {
    y % 4 == 0 && (y % 100 != 0 || y % 400 == 0)
  }

  function DaysInMonth(y: int, m: int): (n: int)
    requires 1 <= m <= 12
    ensures 28 <= n <= 31
    ensures m == 2 ==> (n == 29 <==> IsLeapYear(y))
    ensures m != 2 ==> (n == 30 <==> m in {4, 6, 9, 11})
    ensures m in {1, 3, 5, 7, 8, 10, 12} ==> n == 31
    ensures m == 2 && !IsLeapYear(y) ==> n == 28
  {
    if m == 2 then (if IsLeapYear(y) then 29 else 28)
    else if m in {4, 6, 9, 11} then 30
    else 31
  }

  /** A date Python's datetime can hold (MINYEAR 1 to MAXYEAR 9999). */
  predicate ValidDate(d: Date)
  {
    1 <= d.year <= 9999 && 1 <= d.month <= 12 && 1 <= d.day <= DaysInMonth(d.year, d.month)
  }

  predicate IsDigit(c: char)
  {
    '0' <= c <= '9'
  }

  predicate AllDigits(s: string)
  {
    forall i :: 0 <= i < |s| ==> IsDigit(s[i])
  }

  function DigitChar(n: int): (c: char)
    requires 0 <= n <= 9
    ensures IsDigit(c) && c as int - '0' as int == n
  {
    ('0' as int + n) as char
  }

  function Pow10(n: nat): (p: nat)
    ensures p >= 1
  {
    if n == 0 then 1 else 10 * Pow10(n - 1)
  }

  /** The decimal value of a string of digits. */
  function Number(s: string): (n: nat)
    requires AllDigits(s)
    ensures n < Pow10(|s|)
  {
    if s == [] then 0
    else 10 * Number(s[..|s| - 1]) + (s[|s| - 1] as int - '0' as int)
  }

  /** n written with exactly `width` digits, zero-padded (Python's %0<width>d for n < 10^width). */
  function Digits(n: nat, width: nat): (s: string)
    ensures |s| == width && AllDigits(s)
  {
    if width == 0 then [] else Digits(n / 10, width - 1) + [DigitChar(n % 10)]
  }

  lemma {:induction false} NumberOfDigits(n: nat, width: nat)
    requires n < Pow10(width)
    ensures Number(Digits(n, width)) == n
  {
    if width > 0 {
      NumberOfDigits(n / 10, width - 1);
      var s := Digits(n, width);
      assert s[..|s| - 1] == Digits(n / 10, width - 1);
    }
  }

  lemma {:induction false} DigitsOfNumber(s: string)
    requires AllDigits(s)
    ensures Digits(Number(s), |s|) == s
  {
    if s != [] {
      var p := s[..|s| - 1];
      DigitsOfNumber(p);
      assert Number(s) / 10 == Number(p);
      assert s == p + [s[|s| - 1]];
    }
  }

  /** The year, month and day fields of an eight-digit token. */
  function Fields(token: string): Date
    requires |token| == 8 && AllDigits(token)
  {
    Date(Number(token[..4]), Number(token[4..6]), Number(token[6..]))
  }

  /** datetime.strptime(token, '%Y%m%d'), None standing for the ValueError. */
  function ParseDate(token: string): (r: Option<Date>)
    ensures r.Some? ==> ValidDate(r.value)
  {
    if |token| == 8 && AllDigits(token) && ValidDate(Fields(token)) then Some(Fields(token))
    else None
  }

  /** date.strftime('%Y%m%d') for a valid date. */
  function Format(d: Date): (s: string)
    requires ValidDate(d)
    ensures |s| == 8 && AllDigits(s)
  {
    Digits(d.year, 4) + Digits(d.month, 2) + Digits(d.day, 2)
  }

  /** Every valid date is accepted back from its own eight-digit form. */
  lemma ParseFormat(d: Date)
    requires ValidDate(d)
    ensures ParseDate(Format(d)) == Some(d)
  {
    var s := Format(d);
    assert s[..4] == Digits(d.year, 4);
    assert s[4..6] == Digits(d.month, 2);
    assert s[6..] == Digits(d.day, 2);
    NumberOfDigits(d.year, 4);
    NumberOfDigits(d.month, 2);
    NumberOfDigits(d.day, 2);
  }

  /** Every accepted token is the eight-digit form of the date parsed from it. */
  lemma FormatParse(token: string)
    requires ParseDate(token).Some?
    ensures Format(ParseDate(token).value) == token
  {
    DigitsOfNumber(token[..4]);
    DigitsOfNumber(token[4..6]);
    DigitsOfNumber(token[6..]);
    assert token == token[..4] + token[4..6] + token[6..];
  }

  /** The sort key of a date; for valid dates it is the integer YYYYMMDD. */
  function DateKey(d: Date): int
  {
    d.year * 10000 + d.month * 100 + d.day
  }

  /** Chronological order of dates, as datetime compares them. */
  predicate NotAfter(a: Date, b: Date)
  {
    a.year < b.year || (a.year == b.year && (a.month < b.month || (a.month == b.month && a.day <= b.day)))
  }

  /** Ordering by DateKey is chronological order, and equal keys mean equal dates. */
  lemma DateKeyOrder(a: Date, b: Date)
    requires ValidDate(a) && ValidDate(b)
    ensures DateKey(a) <= DateKey(b) <==> NotAfter(a, b)
    ensures DateKey(a) == DateKey(b) <==> a == b
  {
  }

}
