/**
 The calendar told day by day, and the periods of spend it gives (yb-core/src/spend.rs): where
 days, weeks and months begin, in days of the Gregorian calendar and in nanoseconds.
 */
module CalendarDays {
  import opened Calendar
  import opened Spend

  /** Thirty days hath September. */
  ghost predicate LastOfMonth(d: Date) {
    if d.month == 2 then
      d.day == if d.year % 400 == 0 || (d.year % 4 == 0 && d.year % 100 != 0) then 29 else 28
    else d.day == if d.month in {4, 6, 9, 11} then 30 else 31
  }

  ghost predicate NextDate(d: Date, e: Date) {
    if !LastOfMonth(d) then e == Date(d.year, d.month, d.day + 1)
    else if d.month < 12 then e == Date(d.year, d.month + 1, 1)
    else e == Date(d.year + 1, 1, 1)
  }

  lemma MonthLength(y: int, m: Month, day: int)
    ensures LastOfMonth(Date(y, m, day)) <==> day == MonthStart(Leap(y), m + 1) - MonthStart(Leap(y), m)
  {
    Centuries(y);
  }

  lemma Epoch()
    ensures DateOf(0) == Date(1970, 1, 1)
  {
    hide DateOf;
    OneDate(Date(1970, 1, 1));
  }

  /** Day 0 is 1970-01-01, and each day's date follows the one before. */
  lemma DatesFollow(day: int)
    ensures DateOf(0) == Date(1970, 1, 1)
    ensures NextDate(DateOf(day), DateOf(day + 1))
  {
    hide DateOf, MonthStart, LastOfMonth, YearStart, Leap;
    Epoch();
    var d := DateOf(day);
    MonthLength(d.year, d.month, d.day);
    var e := if !LastOfMonth(d) then Date(d.year, d.month, d.day + 1)
             else if d.month < 12 then Date(d.year, d.month + 1, 1) else Date(d.year + 1, 1, 1);
    FirstIsDate(d.year, if d.month < 12 then d.month + 1 else 12);
    FirstIsDate(d.year + 1, 1);
    YearLength(d.year);
    YearEnds(d.year);
    assert DayNumber(e) == day + 1;
    OneDate(e);
  }

  lemma FirstIsDate(y: int, m: Month)
    ensures IsDate(Date(y, m, 1))
  {
  }

  lemma YearEnds(y: int)
    ensures MonthStart(Leap(y), 13) == 365 + (if Leap(y) then 1 else 0) && MonthStart(Leap(y + 1), 1) == 0
  {
  }

  const A_DAY := 24 * 60 * 60 * 1_000_000_000

  /** 1970-01-05 was a Monday, and so is every seventh day from it. */
  function Monday(week: int): int {
    4 + 7 * week
  }

  /** The day's bucket is its midnight; the week's is that of the Monday at most six days back; the
      month's is that of its first; and the total's is the beginning of 1970. */
  lemma PeriodsBegin(at: int)
    ensures BucketStart(Day, at) % A_DAY == 0 && BucketStart(Day, at) <= at < BucketStart(Day, at) + A_DAY
    ensures exists week :: BucketStart(Week, at) == Monday(week) * A_DAY
    ensures BucketStart(Week, at) <= at < BucketStart(Week, at) + 7 * A_DAY
    ensures BucketStart(Month, at) % A_DAY == 0 && BucketStart(Month, at) <= at
    ensures var (d, e) := (DateOf(BucketStart(Month, at) / A_DAY), DateOf(BucketStart(Day, at) / A_DAY));
            d == Date(e.year, e.month, 1)
    ensures BucketStart(Total, at) == 0
  {
    hide DateOf, DayNumber;
    var day := DayIndex(at);
    DayContains(at);
    MidnightDay(day);
    MonthFirst(day);
    MidnightDay(PeriodDay(Month, day));
    WeekdayIs(day);
    assert PeriodDay(Week, day) == Monday((day - Weekday(day) - 4) / 7);
  }

  lemma WeekdayIs(day: int)
    ensures (day - Weekday(day) - 4) % 7 == 0
  {
  }

  /** What decimal digits say. */
  function Number(s: string): int {
    if s == "" then 0 else 10 * Number(s[..|s| - 1]) + (s[|s| - 1] as int - 48)
  }

  ghost predicate Writes(s: string, n: int) {
    Number(s) == n && forall i :: 0 <= i < |s| ==> '0' <= s[i] <= '9'
  }

  lemma {:induction false} PaddedWrites(n: nat, width: nat)
    requires n < Tens(width)
    ensures Writes(Padded(n, width), n)
    decreases width
  {
    if width > 0 {
      var all := Padded(n, width);
      PaddedWrites(n / 10, width - 1);
      assert all[..width - 1] == Padded(n / 10, width - 1);
      assert forall i :: 0 <= i < width - 1 ==> all[i] == all[..width - 1][i];
    }
  }

  /** Four digits of the year, two of the month and two of the day, and midnight in UTC. */
  lemma TextIs(d: Date)
    requires 0 <= d.year <= 9999 && 0 <= d.day <= 99
    ensures var t := DateText(d);
            && |t| == 25 && t[4] == '-' && t[7] == '-' && t[10..] == "T00:00:00+00:00"
            && Writes(t[..4], d.year) && Writes(t[5..7], d.month) && Writes(t[8..10], d.day)
  {
    hide Padded, Writes;
    assert Tens(2) == 100;
    assert Tens(4) == 10000;
    PaddedWrites(d.year, 4);
    PaddedWrites(d.month, 2);
    PaddedWrites(d.day, 2);
    var t := DateText(d);
    assert t[..4] == Padded(d.year, 4) && t[5..7] == Padded(d.month, 2) && t[8..10] == Padded(d.day, 2);
  }
}
