/**
 Spend by day (yb-core/src/spend.rs, the rollups of yb-gateway/src/service.rs and the
 spend tables of yb-store/src/sqlite.rs): each finished turn is added to one row a day
 for every subject it belongs to, and a period's spend is read off the rows since the
 period began. Times are nanoseconds since 1970-01-01 00:00 UTC.
 */
module Spend {
  import opened Prelude
  import opened Calendar

  datatype Period = Day | Week | Month | Total

  datatype SubjectType = Key | User | Team

  datatype Subject = Subject(kind: SubjectType, id: string)

  const DAY_LENGTH := 86_400_000_000_000

  /** The day a time falls on. */
  function DayIndex(at: int): int {
    at / DAY_LENGTH
  }

  /** 0 for Monday. */
  function Weekday(day: int): (w: int)
    ensures 0 <= w < 7
  {
    (day + 3) % 7
  }

  /** The first day of the period. */
  function PeriodDay(p: Period, day: int): int {
    match p
    case Day => var d := DateOf(day); DayNumber(d)
    case Week => var d := DateOf(day); DayNumber(d) - Weekday(day)
    case Month => var d := DateOf(day); DayNumber(d.(day := 1))
    case Total => 0
  }

  function BucketStart(p: Period, at: int): int {
    DAY_LENGTH * PeriodDay(p, DayIndex(at))
  }

  // ---------------------------------------------------------------------
  // Buckets
  // ---------------------------------------------------------------------

  lemma MonthFirst(day: int)
    ensures var d := DateOf(day);
            IsDate(d.(day := 1)) && PeriodDay(Month, day) <= day && DateOf(PeriodDay(Month, day)) == d.(day := 1)
  {
    hide DateOf;
    var d := DateOf(day);
    OneDate(d.(day := 1));
  }

  /** A period begins on or before each of its days. */
  lemma PeriodBegins(p: Period, day: int)
    requires p == Total ==> day >= 0
    ensures PeriodDay(p, day) <= day
  {
    hide DateOf, DayNumber;
    if p == Month {
      MonthFirst(day);
    }
  }

  lemma PeriodDayIdempotent(p: Period, day: int)
    ensures PeriodDay(p, PeriodDay(p, day)) == PeriodDay(p, day)
  {
    hide DateOf, DayNumber;
    if p == Month {
      MonthFirst(day);
    }
  }

  lemma PeriodDayMonotone(p: Period, a: int, b: int)
    requires a <= b
    ensures PeriodDay(p, a) <= PeriodDay(p, b)
  {
    hide DateOf, DayNumber;
    if p == Month {
      MonthFirst(a);
      MonthFirst(b);
      EarlierIff(b, a);
      EarlierIff(PeriodDay(Month, b), PeriodDay(Month, a));
    }
  }

  lemma MidnightDay(day: int)
    ensures DayIndex(DAY_LENGTH * day) == day
  {
  }

  lemma DayIndexMonotone(a: int, b: int)
    requires a <= b
    ensures DayIndex(a) <= DayIndex(b)
  {
  }

  /** Every bucket starts at a UTC midnight, and bucketing is monotone and idempotent. */
  lemma BucketLaws(p: Period, a: int, b: int)
    requires a <= b
    ensures BucketStart(p, a) % DAY_LENGTH == 0
    ensures BucketStart(p, a) <= BucketStart(p, b)
    ensures BucketStart(p, BucketStart(p, a)) == BucketStart(p, a)
    ensures (p == Total ==> a >= 0) ==> BucketStart(p, a) <= a
  {
    hide PeriodDay, DayIndex;
    DayIndexMonotone(a, b);
    PeriodDayMonotone(p, DayIndex(a), DayIndex(b));
    MidnightDay(PeriodDay(p, DayIndex(a)));
    PeriodDayIdempotent(p, DayIndex(a));
    DayContains(a);
    if p == Total ==> a >= 0 {
      PeriodBegins(p, DayIndex(a));
    }
  }

  lemma DayContains(at: int)
    ensures DAY_LENGTH * DayIndex(at) <= at < DAY_LENGTH * (DayIndex(at) + 1)
  {
  }

  /** A week is bucketed to a Monday at most six days back, a month to the first of the same month. */
  lemma BucketsAreWhatTheySay(at: int)
    ensures Weekday(DayIndex(BucketStart(Week, at))) == 0
    ensures BucketStart(Week, at) <= at < BucketStart(Week, at) + 7 * DAY_LENGTH
    ensures DateOf(DayIndex(BucketStart(Month, at))) == DateOf(DayIndex(at)).(day := 1)
  {
    hide DateOf, DayNumber, DayIndex;
    DayContains(at);
    MidnightDay(PeriodDay(Week, DayIndex(at)));
    MidnightDay(PeriodDay(Month, DayIndex(at)));
    MonthFirst(DayIndex(at));
  }

  /** A day's bucket is at or after a midnight exactly when its times are. */
  lemma MidnightsSplitDays(at: int, day: int)
    ensures BucketStart(Day, at) >= DAY_LENGTH * day <==> at >= DAY_LENGTH * day
  {
    hide DateOf, DayNumber;
    DayContains(at);
  }

  // ---------------------------------------------------------------------
  // Rollup rows
  // ---------------------------------------------------------------------

  datatype Totals = Totals(spend: int, requests: int, input: int, output: int) {
    function Plus(o: Totals): Totals {
      Totals(spend + o.spend, requests + o.requests, input + o.input, output + o.output)
    }
  }

  const NOTHING := Totals(0, 0, 0, 0)

  datatype Row = Row(subject: Subject, start: int, totals: Totals)

  predicate SameKey(a: Row, b: Row) {
    a.subject == b.subject && a.start == b.start
  }

  /** The primary key of the table. */
  predicate KeysDiffer(rows: seq<Row>) {
    forall i, j :: 0 <= i < j < |rows| ==> !SameKey(rows[i], rows[j])
  }

  function Share(r: Row, subject: Subject, since: int): Totals {
    if r.subject == subject && r.start >= since then r.totals else NOTHING
  }

  /** The sum over a subject's rows that start at or after a time. */
  function SumSince(rows: seq<Row>, subject: Subject, since: int): Totals {
    if rows == [] then NOTHING
    else SumSince(rows[..|rows| - 1], subject, since).Plus(Share(rows[|rows| - 1], subject, since))
  }

  lemma {:induction false} SumConcat(a: seq<Row>, b: seq<Row>, subject: Subject, since: int)
    ensures SumSince(a + b, subject, since) == SumSince(a, subject, since).Plus(SumSince(b, subject, since))
    decreases |b|
  {
    if b == [] {
      assert a + b == a;
    } else {
      var n := |b| - 1;
      SumConcat(a, b[..n], subject, since);
      assert (a + b)[..|a + b| - 1] == a + b[..n];
    }
  }

  lemma {:induction false} SumChanged(rows: seq<Row>, i: nat, d: Row, subject: Subject, since: int)
    requires i < |rows| && SameKey(rows[i], d)
    ensures SumSince(rows[i := rows[i].(totals := rows[i].totals.Plus(d.totals))], subject, since) ==
            SumSince(rows, subject, since).Plus(Share(d, subject, since))
  {
    hide SumSince;
    var row := rows[i].(totals := rows[i].totals.Plus(d.totals));
    var before, after := rows[..i], rows[i + 1..];
    assert rows == (before + [rows[i]]) + after;
    assert rows[i := row] == (before + [row]) + after;
    SumConcat(before + [rows[i]], after, subject, since);
    SumConcat(before + [row], after, subject, since);
    SumConcat(before, [rows[i]], subject, since);
    SumConcat(before, [row], subject, since);
    SumOne(rows[i], subject, since);
    SumOne(row, subject, since);
  }

  lemma SumNone(subject: Subject, since: int)
    ensures SumSince([], subject, since) == NOTHING
  {
  }

  lemma SumOne(r: Row, subject: Subject, since: int)
    ensures SumSince([r], subject, since) == Share(r, subject, since)
  {
    assert [r][..0] == [];
  }

  // ---------------------------------------------------------------------
  // Turns
  // ---------------------------------------------------------------------

  datatype Turn = Turn(at: int, key: Option<string>, user: Option<string>, team: Option<string>, totals: Totals)

  predicate BelongsTo(t: Turn, s: Subject) {
    match s.kind
    case Key => t.key == Some(s.id)
    case User => t.user == Some(s.id)
    case Team => t.team == Some(s.id)
  }

  /** What a subject's turns at or after a time came to. */
  function History(turns: seq<Turn>, subject: Subject, since: int): Totals {
    if turns == [] then NOTHING
    else
      var t := turns[|turns| - 1];
      History(turns[..|turns| - 1], subject, since).Plus(
        if BelongsTo(t, subject) && t.at >= since then t.totals else NOTHING)
  }

  /** One turn counts for its key, its user and its team, from its time on. */
  lemma HistoryOfOne(t: Turn, subject: Subject, since: int)
    ensures History([t], subject, since) ==
            if && t.at >= since
               && (|| (subject.kind == Key && t.key == Some(subject.id))
                   || (subject.kind == User && t.user == Some(subject.id))
                   || (subject.kind == Team && t.team == Some(subject.id)))
            then t.totals else Totals(0, 0, 0, 0)
  {
    hide *;
    HistorySnoc([], t, subject, since);
    NoHistory(subject, since);
    assert [] + [t] == [t];
    BelongsByKind(t, subject);
    NothingTwice();
    NothingFirst(t.totals);
  }

  lemma NoHistory(subject: Subject, since: int)
    ensures History([], subject, since) == NOTHING == Totals(0, 0, 0, 0)
  {
  }

  lemma HistorySnoc(turns: seq<Turn>, t: Turn, subject: Subject, since: int)
    ensures History(turns + [t], subject, since) ==
            History(turns, subject, since).Plus(if BelongsTo(t, subject) && t.at >= since then t.totals else NOTHING)
  {
    hide BelongsTo;
    assert (turns + [t])[..|turns|] == turns;
  }

  /** Turns add up, each number by itself. */
  lemma {:induction false} HistoryAdds(turns: seq<Turn>, more: seq<Turn>, subject: Subject, since: int)
    ensures var (all, a, b) :=
              (History(turns + more, subject, since), History(turns, subject, since), History(more, subject, since));
            && all.spend == a.spend + b.spend && all.requests == a.requests + b.requests
            && all.input == a.input + b.input && all.output == a.output + b.output
    decreases |more|
  {
    hide BelongsTo;
    if more == [] {
      assert turns + more == turns;
    } else {
      var n := |more| - 1;
      assert (turns + more)[..|turns + more| - 1] == turns + more[..n];
      HistoryAdds(turns, more[..n], subject, since);
    }
  }

  /** The rows that one turn adds to. */
  function Deltas(t: Turn): seq<Row> {
    var start := BucketStart(Day, t.at);
    Delta(Key, t.key, start, t.totals) + Delta(User, t.user, start, t.totals) + Delta(Team, t.team, start, t.totals)
  }

  function Delta(kind: SubjectType, id: Option<string>, start: int, totals: Totals): seq<Row> {
    if id.Some? then [Row(Subject(kind, id.value), start, totals)] else []
  }

  lemma DeltasSum(t: Turn, subject: Subject, since: int)
    ensures var start := BucketStart(Day, t.at);
            SumSince(Deltas(t), subject, since) ==
            SumSince(Delta(Key, t.key, start, t.totals), subject, since)
              .Plus(SumSince(Delta(User, t.user, start, t.totals), subject, since))
              .Plus(SumSince(Delta(Team, t.team, start, t.totals), subject, since))
  {
    hide BucketStart, SumSince, Delta;
    var start := BucketStart(Day, t.at);
    var k := Delta(Key, t.key, start, t.totals);
    var u := Delta(User, t.user, start, t.totals);
    var m := Delta(Team, t.team, start, t.totals);
    SumConcat(k + u, m, subject, since);
    SumConcat(k, u, subject, since);
  }

  lemma DeltasShare(t: Turn, subject: Subject, since: int)
    ensures SumSince(Deltas(t), subject, since) ==
            if BelongsTo(t, subject) && BucketStart(Day, t.at) >= since then t.totals else NOTHING
  {
    hide *;
    var start := BucketStart(Day, t.at);
    DeltasSum(t, subject, since);
    DeltaShare(Key, t.key, start, t.totals, subject, since);
    DeltaShare(User, t.user, start, t.totals, subject, since);
    DeltaShare(Team, t.team, start, t.totals, subject, since);
    BelongsByKind(t, subject);
    NothingTwice();
    NothingFirst(t.totals);
    NothingLast(t.totals);
  }

  lemma BelongsByKind(t: Turn, s: Subject)
    ensures s.kind == Key ==> (BelongsTo(t, s) <==> t.key == Some(s.id))
    ensures s.kind == User ==> (BelongsTo(t, s) <==> t.user == Some(s.id))
    ensures s.kind == Team ==> (BelongsTo(t, s) <==> t.team == Some(s.id))
  {
  }

  lemma NothingTwice()
    ensures NOTHING.Plus(NOTHING) == NOTHING
  {
  }

  lemma NothingFirst(x: Totals)
    ensures NOTHING.Plus(x) == x
  {
  }

  lemma NothingLast(x: Totals)
    ensures x.Plus(NOTHING) == x
  {
  }

  lemma DeltaShare(kind: SubjectType, id: Option<string>, start: int, totals: Totals, subject: Subject, since: int)
    ensures SumSince(Delta(kind, id, start, totals), subject, since) ==
            if subject.kind == kind && id == Some(subject.id) && start >= since then totals else NOTHING
  {
    hide SumSince;
    if id.Some? {
      var row := Row(Subject(kind, id.value), start, totals);
      SumOne(row, subject, since);
      assert Delta(kind, id, start, totals) == [row];
    } else {
      SumNone(subject, since);
      assert Delta(kind, id, start, totals) == [];
    }
  }

  /** At any midnight the rows say what the turns came to. */
  ghost predicate Agrees(rows: seq<Row>, turns: seq<Turn>) {
    forall subject, day :: SumSince(rows, subject, DAY_LENGTH * day) == History(turns, subject, DAY_LENGTH * day)
  }

  /** The spend tables, with the turns finished so far as their history. */
  class Ledger {
    var rows: seq<Row>
    ghost var turns: seq<Turn>

    ghost predicate Valid()
      reads this
    {
      KeysDiffer(rows) && Agrees(rows, turns)
    }

    constructor ()
      ensures Valid() && rows == [] && turns == []
    {
      rows := [];
      turns := [];
    }

    /** Adds to the row of the delta's key, or inserts it. */
    method UpsertRollup(delta: Row)
      requires KeysDiffer(rows)
      modifies this`rows
      ensures KeysDiffer(rows)
      ensures forall subject, since ::
                SumSince(rows, subject, since) == old(SumSince(rows, subject, since)).Plus(Share(delta, subject, since))
    {
      hide SumSince, Share;
      var i := 0;
      while i < |rows| && !SameKey(rows[i], delta)
        invariant 0 <= i <= |rows|
        invariant forall k :: 0 <= k < i ==> !SameKey(rows[k], delta)
      {
        i := i + 1;
      }
      if i < |rows| {
        forall subject, since
          ensures SumSince(rows[i := rows[i].(totals := rows[i].totals.Plus(delta.totals))], subject, since) ==
                  SumSince(rows, subject, since).Plus(Share(delta, subject, since))
        {
          SumChanged(rows, i, delta, subject, since);
        }
        rows := rows[i := rows[i].(totals := rows[i].totals.Plus(delta.totals))];
      } else {
        forall subject, since
          ensures SumSince(rows + [delta], subject, since) ==
                  SumSince(rows, subject, since).Plus(Share(delta, subject, since))
        {
          SumConcat(rows, [delta], subject, since);
          SumOne(delta, subject, since);
        }
        rows := rows + [delta];
      }
    }

    /** A finished turn goes to its key, its user and its team. */
    method FinishTurn(t: Turn)
      requires Valid()
      modifies this
      ensures Valid() && turns == old(turns) + [t]
    {
      hide SumSince, Share, BucketStart, Agrees;
      var dayStart := BucketStart(Day, t.at);
      var subjects: seq<Subject> := [];
      if t.key.Some? { subjects := subjects + [Subject(Key, t.key.value)]; }
      if t.user.Some? { subjects := subjects + [Subject(User, t.user.value)]; }
      if t.team.Some? { subjects := subjects + [Subject(Team, t.team.value)]; }
      ghost var deltas := seq(|subjects|, k requires 0 <= k < |subjects| => Row(subjects[k], dayStart, t.totals));
      assert deltas == Deltas(t);
      ghost var before := rows;
      SumsAddNothing(before, deltas);
      for i := 0 to |subjects|
        invariant KeysDiffer(rows) && turns == old(turns)
        invariant SumsAdd(before, deltas[..i], rows)
      {
        ghost var was := rows;
        UpsertRollup(Row(subjects[i], dayStart, t.totals));
        SumsAddOne(before, deltas, i, was, rows);
      }
      assert deltas[..|subjects|] == deltas;
      TurnAgrees(before, turns, t, rows);
      turns := turns + [t];
    }

    /** `period_spend`: the rows since the period began say what the turns since then came to. */
    method PeriodSpend(subject: Subject, p: Period, at: int) returns (sum: int)
      requires Valid()
      ensures sum == History(turns, subject, BucketStart(p, at)).spend
    {
      hide BucketStart, History, Agrees;
      var since := BucketStart(p, at);
      sum := 0;
      for i := 0 to |rows|
        invariant sum == SumSince(rows[..i], subject, since).spend
      {
        assert rows[..i + 1][..i] == rows[..i];
        if rows[i].subject == subject && rows[i].start >= since {
          sum := sum + rows[i].totals.spend;
        }
      }
      assert rows[..|rows|] == rows;
      PeriodAgrees(rows, turns, subject, p, at);
    }

    /** Blocked exactly when some blocking budget's turns since its period began came to its limit. */
    method EnforceBudgets(budgets: seq<Budget>, at: int) returns (blocked: bool)
      requires Valid()
      ensures blocked <==> exists b ::
                && b in budgets && b.enabled && b.blocks
                && History(turns, b.subject, BucketStart(b.period, at)).spend >= b.hardLimit
    {
      hide BucketStart, Valid, History;
      for i := 0 to |budgets|
        invariant forall k :: 0 <= k < i ==> !Exhausts(turns, budgets[k], at)
      {
        var b := budgets[i];
        if !b.enabled || !b.blocks {
          continue;
        }
        var start := BucketStart(b.period, at);
        var spent := PeriodSpend(b.subject, b.period, start);
        BucketLaws(b.period, at, at);
        if spent >= b.hardLimit {
          assert b in budgets && Exhausts(turns, b, at);
          return true;
        }
      }
      return false;
    }
  }

  /** A budget that blocks and whose turns since its period began came to its limit. */
  predicate Exhausts(turns: seq<Turn>, b: Budget, at: int) {
    b.enabled && b.blocks && History(turns, b.subject, BucketStart(b.period, at)).spend >= b.hardLimit
  }

  datatype Budget = Budget(subject: Subject, period: Period, hardLimit: int, enabled: bool, blocks: bool)

  ghost predicate SumsAdd(before: seq<Row>, deltas: seq<Row>, after: seq<Row>) {
    forall subject, since ::
      SumSince(after, subject, since) == SumSince(before, subject, since).Plus(SumSince(deltas, subject, since))
  }

  lemma SumsAddNothing(rows: seq<Row>, deltas: seq<Row>)
    ensures SumsAdd(rows, deltas[..0], rows)
  {
    assert deltas[..0] == [];
  }

  lemma SumsAddOne(before: seq<Row>, deltas: seq<Row>, i: nat, was: seq<Row>, rows: seq<Row>)
    requires i < |deltas| && SumsAdd(before, deltas[..i], was)
    requires forall subject, since ::
               SumSince(rows, subject, since) == SumSince(was, subject, since).Plus(Share(deltas[i], subject, since))
    ensures SumsAdd(before, deltas[..i + 1], rows)
  {
    hide Share;
    assert deltas[..i + 1][..i] == deltas[..i];
  }

  lemma TurnAgrees(before: seq<Row>, turns: seq<Turn>, t: Turn, rows: seq<Row>)
    requires Agrees(before, turns) && SumsAdd(before, Deltas(t), rows)
    ensures Agrees(rows, turns + [t])
  {
    hide BucketStart, Deltas, SumSince;
    assert (turns + [t])[..|turns|] == turns;
    forall subject, day
      ensures SumSince(rows, subject, DAY_LENGTH * day) == History(turns + [t], subject, DAY_LENGTH * day)
    {
      var since := DAY_LENGTH * day;
      assert SumSince(before, subject, DAY_LENGTH * day) == History(turns, subject, DAY_LENGTH * day);
      DeltasShare(t, subject, since);
      MidnightsSplitDays(t.at, day);
    }
  }

  /**
   The spend reported for a subject and a period, however often the start is bucketed,
   is the sum over its turns at or after the period's start.
   */
  lemma PeriodAgrees(rows: seq<Row>, turns: seq<Turn>, subject: Subject, p: Period, at: int)
    requires Agrees(rows, turns)
    ensures BucketStart(p, BucketStart(p, at)) == BucketStart(p, at)
    ensures SumSince(rows, subject, BucketStart(p, at)) == History(turns, subject, BucketStart(p, at))
  {
    hide SumSince, History;
    BucketLaws(p, at, at);
    assert BucketStart(p, at) == DAY_LENGTH * PeriodDay(p, DayIndex(at));
  }

  /** Turns from 1970 on all count towards the total. */
  lemma {:induction false} TotalIsLifetime(turns: seq<Turn>, subject: Subject, at: int, since: int)
    requires forall i :: 0 <= i < |turns| ==> 0 <= turns[i].at && since <= turns[i].at
    ensures History(turns, subject, BucketStart(Total, at)) == History(turns, subject, since)
    decreases |turns|
  {
    if turns != [] {
      TotalIsLifetime(turns[..|turns| - 1], subject, at, since);
    }
  }

  // ---------------------------------------------------------------------
  // Starts kept as text
  // ---------------------------------------------------------------------

  predicate FourDigitYear(at: int) {
    0 <= DateOf(DayIndex(at)).year <= 9999
  }

  function StartText(at: int): string
    requires FourDigitYear(at)
  {
    DateText(DateOf(DayIndex(at)))
  }

  /** The SQLite store compares starts as text, which for four-digit years is comparing times. */
  lemma TextOrderIsTimeOrder(a: int, b: int)
    requires FourDigitYear(a) && FourDigitYear(b) && a % DAY_LENGTH == 0 && b % DAY_LENGTH == 0
    ensures !TextLess(StartText(a), StartText(b)) <==> a >= b
    ensures StartText(a) == StartText(b) <==> a == b
  {
    hide DateOf, DateText, DayNumber;
    DateTextOrder(DateOf(DayIndex(a)), DateOf(DayIndex(b)));
    DateTextOrder(DateOf(DayIndex(b)), DateOf(DayIndex(a)));
    EarlierIff(DayIndex(a), DayIndex(b));
    EarlierIff(DayIndex(b), DayIndex(a));
    NotLessItself(StartText(a));
  }
}
