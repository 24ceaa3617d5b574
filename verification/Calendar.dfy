/**
 The proleptic Gregorian calendar in UTC that `bucket_start` reads years, months and
 weekdays from, and the text form that the SQLite store compares. Days are counted
 from 1970-01-01, which was a Thursday.
 */
module Calendar {

  // ---------------------------------------------------------------------
  // Years
  // ---------------------------------------------------------------------

  predicate Leap(y: int) {
    y % 4 == 0 && (y % 100 != 0 || y % 400 == 0)
  }

  /** Leap days before a year. */
  function LeapDays(y: int): int {
    (y - 1) / 4 - (y - 1) / 100 + (y - 1) / 400
  }

  /** The first day of a year. */
  function YearStart(y: int): int {
    365 * (y - 1970) + LeapDays(y) - LeapDays(1970)
  }

  lemma Carry(y: int, k: int)
    requires k == 4 || k == 100 || k == 400
    ensures y / k - (y - 1) / k == if y % k == 0 then 1 else 0
  {
  }

  lemma Centuries(y: int)
    ensures y % 400 == 0 ==> y % 100 == 0
    ensures y % 100 == 0 ==> y % 4 == 0
  {
  }

  lemma LeapDaysStep(y: int)
    ensures LeapDays(y + 1) - LeapDays(y) == if Leap(y) then 1 else 0
  {
    Carry(y, 4);
    Carry(y, 100);
    Carry(y, 400);
    Centuries(y);
    LeapDaysOf(y);
  }

  lemma LeapDaysOf(y: int)
    ensures LeapDays(y + 1) == y / 4 - y / 100 + y / 400
  {
  }

  lemma YearLength(y: int)
    ensures YearStart(y + 1) == YearStart(y) + 365 + if Leap(y) then 1 else 0
  {
    hide Leap;
    LeapDaysStep(y);
  }

  lemma {:induction false} YearsGrow(a: int, b: int)
    requires a <= b
    ensures YearStart(a) <= YearStart(b)
    decreases b - a
  {
    hide YearStart;
    if a < b {
      YearsGrow(a, b - 1);
      YearLength(b - 1);
    }
  }

  predicate InYear(day: int, y: int) {
    YearStart(y) <= day < YearStart(y + 1)
  }

  function YearUp(day: int, y: int): (r: int)
    requires YearStart(y) <= day
    ensures InYear(day, r)
    decreases day - YearStart(y)
  {
    YearLength(y);
    if day < YearStart(y + 1) then y else YearUp(day, y + 1)
  }

  function YearDown(day: int, y: int): (r: int)
    requires day < YearStart(y + 1)
    ensures InYear(day, r)
    decreases YearStart(y + 1) - day
  {
    YearLength(y);
    if YearStart(y) <= day then y else YearDown(day, y - 1)
  }

  function YearOf(day: int): (y: int)
    ensures InYear(day, y)
  {
    if day >= 0 then YearUp(day, 1970) else YearDown(day, 1969)
  }

  // ---------------------------------------------------------------------
  // Months
  // ---------------------------------------------------------------------

  type Month = m: int | 1 <= m <= 12 witness 1

  /** Days of the year before a month; the thirteenth closes the year. */
  function MonthStart(leap: bool, m: int): int
    requires 1 <= m <= 13
  {
    [0, 31, 59, 90, 120, 151, 181, 212, 243, 273, 304, 334, 365][m - 1] + if leap && m > 2 then 1 else 0
  }

  /** The latest month up to `m` that has begun by the n-th day of the year. */
  function MonthUpTo(leap: bool, n: nat, m: Month): (r: Month)
    requires n < MonthStart(leap, m + 1)
    ensures MonthStart(leap, r) <= n < MonthStart(leap, r + 1)
    decreases m
  {
    if m == 1 || n >= MonthStart(leap, m) then m else MonthUpTo(leap, n, m - 1)
  }

  datatype Date = Date(year: int, month: Month, day: int)

  predicate IsDate(d: Date) {
    1 <= d.day <= MonthStart(Leap(d.year), d.month + 1) - MonthStart(Leap(d.year), d.month)
  }

  function DayNumber(d: Date): int {
    YearStart(d.year) + MonthStart(Leap(d.year), d.month) + d.day - 1
  }

  function DateOf(day: int): (d: Date)
    ensures IsDate(d) && DayNumber(d) == day
  {
    var y := YearOf(day);
    YearLength(y);
    var n := day - YearStart(y);
    var m := MonthUpTo(Leap(y), n, 12);
    Date(y, m, n - MonthStart(Leap(y), m) + 1)
  }

  /** Order of dates, field by field. */
  predicate Earlier(a: Date, b: Date) {
    a.year < b.year || (a.year == b.year && (a.month < b.month || (a.month == b.month && a.day < b.day)))
  }

  lemma {:induction false} MonthsGrow(leap: bool, m: int, n: int)
    requires 1 <= m <= n <= 13
    ensures MonthStart(leap, m) <= MonthStart(leap, n)
    decreases n - m
  {
    if m < n {
      MonthsGrow(leap, m, n - 1);
    }
  }

  lemma WithinYear(d: Date)
    requires IsDate(d)
    ensures InYear(DayNumber(d), d.year)
  {
    hide YearStart;
    YearLength(d.year);
    MonthsGrow(Leap(d.year), d.month + 1, 13);
    MonthsGrow(Leap(d.year), 1, d.month);
  }

  /** Counting days keeps the order of dates. */
  lemma DaysKeepOrder(a: Date, b: Date)
    requires IsDate(a) && IsDate(b)
    ensures Earlier(a, b) ==> DayNumber(a) < DayNumber(b)
  {
    hide YearStart, Leap, MonthStart;
    if a.year < b.year {
      WithinYear(a);
      WithinYear(b);
      YearsGrow(a.year + 1, b.year);
    } else if a.year == b.year && a.month < b.month {
      MonthsGrow(Leap(a.year), a.month + 1, b.month);
    }
  }

  /** And is therefore reversible: a day has one date. */
  lemma OneDate(d: Date)
    requires IsDate(d)
    ensures DateOf(DayNumber(d)) == d
  {
    hide DateOf, DayNumber;
    DaysKeepOrder(d, DateOf(DayNumber(d)));
    DaysKeepOrder(DateOf(DayNumber(d)), d);
  }

  lemma EarlierIff(a: int, b: int)
    ensures Earlier(DateOf(a), DateOf(b)) <==> a < b
  {
    hide DateOf, DayNumber;
    DaysKeepOrder(DateOf(a), DateOf(b));
    DaysKeepOrder(DateOf(b), DateOf(a));
  }

  // ---------------------------------------------------------------------
  // Dates as text
  // ---------------------------------------------------------------------

  /** Text order, character by character. */
  predicate TextLess(a: string, b: string) {
    b != "" && (a == "" || a[0] < b[0] || (a[0] == b[0] && TextLess(a[1..], b[1..])))
  }

  function Digit(n: nat): char
    requires n < 10
  {
    (n + '0' as int) as char
  }

  /** A number written with so many digits. */
  function Padded(n: nat, width: nat): (r: string)
    ensures |r| == width
  {
    if width == 0 then "" else Padded(n / 10, width - 1) + [Digit(n % 10)]
  }

  function Tens(width: nat): nat {
    if width == 0 then 1 else 10 * Tens(width - 1)
  }

  lemma {:induction false} LessFieldwise(p: string, q: string, x: string, y: string)
    requires |p| == |q|
    ensures TextLess(p + x, q + y) <==> TextLess(p, q) || (p == q && TextLess(x, y))
    decreases |p|
  {
    if p == [] {
      assert p + x == x && q + y == y;
    } else {
      LessFieldwise(p[1..], q[1..], x, y);
      assert (p + x)[1..] == p[1..] + x;
      assert (q + y)[1..] == q[1..] + y;
      assert p == q <==> p[0] == q[0] && p[1..] == q[1..];
    }
  }

  lemma {:induction false} PaddedOrder(n: nat, m: nat, width: nat)
    requires n < Tens(width) && m < Tens(width)
    ensures TextLess(Padded(n, width), Padded(m, width)) <==> n < m
    ensures Padded(n, width) == Padded(m, width) <==> n == m
    decreases width
  {
    if width > 0 {
      PaddedOrder(n / 10, m / 10, width - 1);
      var a, b := [Digit(n % 10)], [Digit(m % 10)];
      LessFieldwise(Padded(n / 10, width - 1), Padded(m / 10, width - 1), a, b);
      assert TextLess(a, b) <==> n % 10 < m % 10;
      assert Padded(n, width)[..width - 1] == Padded(n / 10, width - 1);
      assert Padded(m, width)[..width - 1] == Padded(m / 10, width - 1);
      assert Padded(n, width)[width - 1] == a[0] && Padded(m, width)[width - 1] == b[0];
    }
  }

  const AT_MIDNIGHT := "T00:00:00+00:00"

  /** `to_rfc3339` of a UTC midnight, for the years written with four digits. */
  function DateText(d: Date): string
    requires 0 <= d.year <= 9999 && 0 <= d.day <= 99
  {
    Padded(d.year, 4) + ("-" + (Padded(d.month, 2) + ("-" + (Padded(d.day, 2) + AT_MIDNIGHT))))
  }

  lemma {:induction false} NotLessItself(s: string)
    ensures !TextLess(s, s)
  {
    if s != "" {
      NotLessItself(s[1..]);
    }
  }

  /** In the years 0 to 9999 text order is the order of dates. */
  lemma DateTextOrder(a: Date, b: Date)
    requires 0 <= a.year <= 9999 && 0 <= a.day <= 99
    requires 0 <= b.year <= 9999 && 0 <= b.day <= 99
    ensures TextLess(DateText(a), DateText(b)) <==> Earlier(a, b)
  {
    hide TextLess, Padded;
    assert Tens(2) == 100;
    assert Tens(4) == 10000;
    PaddedOrder(a.year, b.year, 4);
    PaddedOrder(a.month, b.month, 2);
    PaddedOrder(a.day, b.day, 2);
    NotLessItself(AT_MIDNIGHT);
    NotLessItself("-");
    var a1, b1 := Padded(a.day, 2) + AT_MIDNIGHT, Padded(b.day, 2) + AT_MIDNIGHT;
    var a2, b2 := Padded(a.month, 2) + ("-" + a1), Padded(b.month, 2) + ("-" + b1);
    LessFieldwise(Padded(a.day, 2), Padded(b.day, 2), AT_MIDNIGHT, AT_MIDNIGHT);
    LessFieldwise("-", "-", a1, b1);
    LessFieldwise(Padded(a.month, 2), Padded(b.month, 2), "-" + a1, "-" + b1);
    LessFieldwise("-", "-", a2, b2);
    LessFieldwise(Padded(a.year, 4), Padded(b.year, 4), "-" + a2, "-" + b2);
  }
}
