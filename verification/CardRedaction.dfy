/**
 Payment card numbers in a run of digit groups (yb-redact/src/lib.rs): windows of
 whole groups that have a card's shape and pass the Luhn check are joined into
 spans, stretched over phone numbers they cut into, and spliced out. The phone
 pattern is foreign code and enters as what it finds.
 */
module CardRedaction {
  import opened Prelude

  datatype Span = Span(from: nat, to: nat)

  predicate IsDigit(c: char) {
    '0' <= c <= '9'
  }

  // ---------------------------------------------------------------------
  // The Luhn check (Annex B of ISO/IEC 7812-1)
  // ---------------------------------------------------------------------

  type Digit = d: int | 0 <= d <= 9

  function DigitsOf(s: string): seq<Digit> {
    if s == [] then []
    else
      var n := |s| - 1;
      DigitsOf(s[..n]) + if IsDigit(s[n]) then [(s[n] as int) - ('0' as int)] else []
  }

  /** A digit's part of the sum; every second one from the right is doubled. */
  function Part(d: Digit, doubled: bool): Digit {
    if !doubled then d else if 2 * d > 9 then 2 * d - 9 else 2 * d
  }

  function LuhnSum(ds: seq<Digit>, doubled: bool): nat {
    if ds == [] then 0 else Part(ds[|ds| - 1], doubled) + LuhnSum(ds[..|ds| - 1], !doubled)
  }

  predicate Luhn(s: string) {
    13 <= |DigitsOf(s)| <= 19 && LuhnSum(DigitsOf(s), false) % 10 == 0
  }

  lemma {:induction false} SumOfChanged(ds: seq<Digit>, i: nat, x: Digit, doubled: bool) returns (flipped: bool)
    requires i < |ds|
    ensures LuhnSum(ds[i := x], doubled) - LuhnSum(ds, doubled) == Part(x, flipped) - Part(ds[i], flipped)
    decreases |ds|
  {
    var n := |ds| - 1;
    if i == n {
      assert ds[i := x][..n] == ds[..n];
      flipped := doubled;
    } else {
      assert ds[i := x][..n] == ds[..n][i := x];
      flipped := SumOfChanged(ds[..n], i, x, !doubled);
    }
  }

  lemma PartIsInjective(a: Digit, b: Digit, doubled: bool)
    requires a != b
    ensures Part(a, doubled) != Part(b, doubled)
  {
  }

  /** The check catches any one wrong digit: no two numbers that differ in one digit both pass. */
  lemma OneWrongDigitFails(ds: seq<Digit>, i: nat, x: Digit)
    requires i < |ds| && x != ds[i]
    requires LuhnSum(ds, false) % 10 == 0
    ensures LuhnSum(ds[i := x], false) % 10 != 0
  {
    hide LuhnSum, Part;
    var flipped := SumOfChanged(ds, i, x, false);
    PartIsInjective(x, ds[i], flipped);
    var off := Part(x, flipped) - Part(ds[i], flipped);
    assert -9 <= off <= 9;
  }

  // ---------------------------------------------------------------------
  // Digit groups
  // ---------------------------------------------------------------------

  predicate Inside(g: Span, p: int) {
    g.from <= p < g.to
  }

  predicate InGroup(groups: seq<Span>, p: int) {
    exists i :: 0 <= i < |groups| && Inside(groups[i], p)
  }

  lemma OneGroupMore(found: string, groups: seq<Span>, group: Span)
    ensures forall p :: InGroup(groups, p) || Inside(group, p) ==> InGroup(groups + [group], p)
  {
    var more := groups + [group];
    forall p | InGroup(groups, p) || Inside(group, p)
      ensures InGroup(more, p)
    {
      if Inside(group, p) {
        assert Inside(more[|groups|], p);
      } else {
        var i :| 0 <= i < |groups| && Inside(groups[i], p);
        assert Inside(more[i], p);
      }
    }
  }

  /** The maximal runs of digits, in order. */
  ghost predicate AreGroups(found: string, groups: seq<Span>) {
    && (forall i :: 0 <= i < |groups| ==> groups[i].from < groups[i].to <= |found|)
    && (forall i, j :: 0 <= i < j < |groups| ==> groups[i].to < groups[j].from)
    && (forall i, p :: 0 <= i < |groups| && Inside(groups[i], p) ==> IsDigit(found[p]))
    && (forall p :: 0 <= p < |found| && IsDigit(found[p]) ==> InGroup(groups, p))
  }

  method DigitGroups(found: string) returns (groups: seq<Span>)
    ensures AreGroups(found, groups)
  {
    hide InGroup;
    groups := [];
    var start: Option<nat> := None;
    for i := 0 to |found| + 1
      invariant start.Some? ==> start.value < i && (i <= |found|)
      invariant start.Some? ==> forall p :: start.value <= p < i ==> IsDigit(found[p])
      invariant forall k :: 0 <= k < |groups| ==> groups[k].from < groups[k].to <= |found|
      invariant forall k :: 0 <= k < |groups| ==> groups[k].to < if start.Some? then start.value else i
      invariant forall j, k :: 0 <= j < k < |groups| ==> groups[j].to < groups[k].from
      invariant forall k, p :: 0 <= k < |groups| && Inside(groups[k], p) ==> IsDigit(found[p])
      invariant forall p :: 0 <= p < i && p < |found| && IsDigit(found[p]) ==>
                  (start.Some? && start.value <= p) || InGroup(groups, p)
    {
      var digit := i < |found| && IsDigit(found[i]);
      if digit && start == None {
        start := Some(i);
      } else if !digit && start.Some? {
        var group := Span(start.value, i);
        OneGroupMore(found, groups, group);
        groups := groups + [group];
        start := None;
      }
    }
  }

  // ---------------------------------------------------------------------
  // Windows that are cards
  // ---------------------------------------------------------------------

  function Lengths(groups: seq<Span>): (r: seq<int>)
    ensures |r| == |groups|
  {
    seq(|groups|, i requires 0 <= i < |groups| => groups[i].to - groups[i].from)
  }

  predicate Shaped(lengths: seq<int>) {
    || (|lengths| == 1 && 13 <= lengths[0] <= 19)
    || lengths == [4, 6, 4] || lengths == [4, 6, 5]
    || (|lengths| == 4 && lengths[..3] == [4, 4, 4] && 1 <= lengths[3] <= 4)
    || (|lengths| == 5 && lengths[..4] == [4, 4, 4, 4] && 1 <= lengths[4] <= 4)
  }

  function Total(groups: seq<Span>): int {
    if groups == [] then 0
    else Total(groups[..|groups| - 1]) + groups[|groups| - 1].to - groups[|groups| - 1].from
  }

  /** The groups from `first` to `last` make a card number. */
  predicate IsCard(found: string, groups: seq<Span>, first: nat, last: nat)
    requires first <= last < |groups|
  {
    var window := groups[first..last + 1];
    && Shaped(Lengths(window))
    && 13 <= Total(window) <= 19
    && groups[first].from <= groups[last].to <= |found|
    && Luhn(found[groups[first].from..groups[last].to])
  }

  // ---------------------------------------------------------------------
  // The windows the comment speaks of
  // ---------------------------------------------------------------------

  /** Several groups of 3 to 6 digits. */
  predicate Documented(lengths: seq<int>) {
    |lengths| >= 2 && forall i :: 0 <= i < |lengths| ==> 3 <= lengths[i] <= 6
  }

  function Sum(lengths: seq<int>): int {
    if lengths == [] then 0 else Sum(lengths[..|lengths| - 1]) + lengths[|lengths| - 1]
  }

  lemma {:induction false} TotalIsSum(groups: seq<Span>)
    ensures Total(groups) == Sum(Lengths(groups))
  {
    if groups != [] {
      var n := |groups| - 1;
      TotalIsSum(groups[..n]);
      assert Lengths(groups)[..n] == Lengths(groups[..n]);
    }
  }

  lemma SumOfThree(a: int, b: int, c: int)
    ensures Sum([a, b, c]) == a + b + c
  {
    assert [a, b, c][..2] == [a, b] && [a, b][..1] == [a] && [a][..0] == [];
    assert Sum([a]) == a && Sum([a, b]) == a + b;
  }

  lemma SumOfFive(a: int, b: int, c: int, d: int, e: int)
    ensures Sum([a, b, c, d]) == a + b + c + d && Sum([a, b, c, d, e]) == a + b + c + d + e
  {
    SumOfThree(a, b, c);
    assert [a, b, c, d, e][..4] == [a, b, c, d] && [a, b, c, d][..3] == [a, b, c];
  }

  /** Those of several groups of 3 to 6 digits that have a card's shape and length. */
  predicate TakenShape(lengths: seq<int>) {
    || lengths == [4, 6, 4] || lengths == [4, 6, 5]
    || lengths == [4, 4, 4, 3] || lengths == [4, 4, 4, 4] || lengths == [4, 4, 4, 4, 3]
  }

  lemma TakenShapeIff(lengths: seq<int>)
    requires Documented(lengths)
    ensures Shaped(lengths) && 13 <= Sum(lengths) <= 19 <==> TakenShape(lengths)
  {
    hide Sum;
    SumOfThree(4, 6, 4);
    SumOfThree(4, 6, 5);
    if |lengths| == 4 && lengths[..3] == [4, 4, 4] {
      assert lengths == [4, 4, 4] + [lengths[3]];
      assert lengths == [4, 4, 4, lengths[3]];
      SumOfFive(4, 4, 4, lengths[3], 0);
    }
    if |lengths| == 5 && lengths[..4] == [4, 4, 4, 4] {
      assert lengths == [4, 4, 4, 4] + [lengths[4]];
      assert lengths == [4, 4, 4, 4, lengths[4]];
      SumOfFive(4, 4, 4, 4, lengths[4]);
    }
  }

  /** Of the windows of several groups of 3 to 6 digits that pass the check, those of five shapes
      are taken, and no others. */
  lemma DocumentedTakenIff(found: string, groups: seq<Span>, first: nat, last: nat)
    requires AreGroups(found, groups) && first <= last < |groups|
    requires Documented(Lengths(groups[first..last + 1]))
    ensures groups[first].from <= groups[last].to <= |found|
    ensures IsCard(found, groups, first, last) <==>
            TakenShape(Lengths(groups[first..last + 1])) && Luhn(found[groups[first].from..groups[last].to])
  {
    hide Shaped, Luhn, Sum, Total, TakenShape, Documented;
    var window := groups[first..last + 1];
    TotalIsSum(window);
    TakenShapeIff(Lengths(window));
  }

  function Zeros(n: nat): string {
    seq(n, _ => '0')
  }

  function DigitOf(c: char): seq<Digit> {
    if IsDigit(c) then [(c as int) - ('0' as int)] else []
  }

  lemma DigitsSnoc(s: string, c: char)
    ensures DigitsOf(s + [c]) == DigitsOf(s) + DigitOf(c)
  {
    assert (s + [c])[..|s|] == s;
  }

  lemma {:induction false} DigitsConcat(s: string, t: string)
    ensures DigitsOf(s + t) == DigitsOf(s) + DigitsOf(t)
    decreases |t|
  {
    if t == [] {
      assert s + t == s;
    } else {
      hide DigitsOf, DigitOf;
      var n := |t| - 1;
      DigitsConcat(s, t[..n]);
      assert t == t[..n] + [t[n]];
      assert s + t == (s + t[..n]) + [t[n]];
      DigitsSnoc(t[..n], t[n]);
      DigitsSnoc(s + t[..n], t[n]);
    }
  }

  lemma {:induction false} ZeroDigits(n: nat)
    ensures DigitsOf(Zeros(n)) == seq(n, _ => 0)
  {
    if n > 0 {
      ZeroDigits(n - 1);
      assert Zeros(n)[..n - 1] == Zeros(n - 1);
    }
  }

  lemma {:induction false} ZeroSum(ds: seq<Digit>, doubled: bool)
    requires forall i :: 0 <= i < |ds| ==> ds[i] == 0
    ensures LuhnSum(ds, doubled) == 0
    decreases |ds|
  {
    if ds != [] {
      ZeroSum(ds[..|ds| - 1], !doubled);
    }
  }

  /** Thirteen zeros in groups of 3, 5 and 5. */
  const THIRTEEN := Zeros(3) + " " + Zeros(5) + " " + Zeros(5)

  lemma ThirteenPass()
    ensures Luhn(THIRTEEN)
  {
    hide Zeros;
    DigitsConcat(Zeros(3) + " " + Zeros(5) + " ", Zeros(5));
    DigitsConcat(Zeros(3) + " " + Zeros(5), " ");
    DigitsConcat(Zeros(3) + " ", Zeros(5));
    DigitsConcat(Zeros(3), " ");
    ZeroDigits(3);
    ZeroDigits(5);
    assert " "[..0] == "" && DigitsOf(" ") == [];
    ZeroSum(DigitsOf(THIRTEEN), false);
  }

  /** A number in groups of 3 to 6 digits that passes the check and is not taken. */
  lemma ACardThatIsNotTaken()
    ensures var groups := [Span(0, 3), Span(4, 9), Span(10, 15)];
            && AreGroups(THIRTEEN, groups)
            && Documented(Lengths(groups[0..3])) && 13 <= Total(groups) <= 19 && Luhn(THIRTEEN[0..15])
            && !IsCard(THIRTEEN, groups, 0, 2)
  {
    var groups := [Span(0, 3), Span(4, 9), Span(10, 15)];
    ThirteenGroups(groups);
    ThirteenPass();
    assert groups[0..3] == groups && Lengths(groups) == [3, 5, 5];
    assert THIRTEEN[0..15] == THIRTEEN;
    TotalIsSum(groups);
    SumOfThree(3, 5, 5);
    hide Luhn, Sum, Total;
    DocumentedTakenIff(THIRTEEN, groups, 0, 2);
  }

  lemma ThirteenGroups(groups: seq<Span>)
    requires groups == [Span(0, 3), Span(4, 9), Span(10, 15)]
    ensures |THIRTEEN| == 15 && AreGroups(THIRTEEN, groups)
  {
    assert THIRTEEN[3] == ' ' && THIRTEEN[9] == ' ';
    forall p | 0 <= p < 15 && IsDigit(THIRTEEN[p])
      ensures InGroup(groups, p)
    {
      assert p != 3 && p != 9;
      assert Inside(groups[if p < 3 then 0 else if p < 9 then 1 else 2], p);
    }
  }

  predicate Covers(spans: seq<Span>, from: nat, to: nat) {
    exists i :: 0 <= i < |spans| && spans[i].from <= from && to <= spans[i].to
  }

  /** In range, in order and strictly apart. */
  predicate Apart(spans: seq<Span>, limit: nat) {
    && (forall i :: 0 <= i < |spans| ==> spans[i].from < spans[i].to <= limit)
    && (forall i, j :: 0 <= i < j < |spans| ==> spans[i].to < spans[j].from)
  }

  /** The position lies in some window that is a card. */
  ghost predicate InCard(found: string, groups: seq<Span>, p: int) {
    exists f, l :: 0 <= f <= l < |groups| && IsCard(found, groups, f, l) && groups[f].from <= p < groups[l].to
  }

  ghost predicate OnlyCards(found: string, groups: seq<Span>, spans: seq<Span>) {
    forall p :: Taken(spans, p) ==> InCard(found, groups, p)
  }

  /** Every card window before (first, last), in the order the search visits them, is covered. */
  ghost predicate CardsCovered(found: string, groups: seq<Span>, spans: seq<Span>, first: nat, last: nat) {
    forall f, l :: 0 <= f <= l < |groups| && (f < first || (f == first && l < last)) && IsCard(found, groups, f, l) ==>
      Covers(spans, groups[f].from, groups[l].to)
  }

  lemma CoversJoined(spans: seq<Span>, joined: seq<Span>, from: nat, to: nat)
    requires Covers(spans, from, to)
    requires forall i :: 0 <= i < |spans| ==> Covers(joined, spans[i].from, spans[i].to)
    ensures Covers(joined, from, to)
  {
    var i :| 0 <= i < |spans| && spans[i].from <= from && to <= spans[i].to;
    var j :| 0 <= j < |joined| && joined[j].from <= spans[i].from && spans[i].to <= joined[j].to;
  }

  lemma CoversAt(spans: seq<Span>, i: nat, from: nat, to: nat)
    requires i < |spans| && spans[i].from <= from && to <= spans[i].to
    ensures Covers(spans, from, to)
  {
  }

  /** Each span lies in the one that took its place. */
  lemma CoversEach(spans: seq<Span>, wider: seq<Span>)
    requires |spans| <= |wider|
    requires forall i :: 0 <= i < |spans| ==> wider[i].from <= spans[i].from && spans[i].to <= wider[i].to
    ensures forall i :: 0 <= i < |spans| ==> Covers(wider, spans[i].from, spans[i].to)
  {
    hide Covers;
    forall i | 0 <= i < |spans|
      ensures Covers(wider, spans[i].from, spans[i].to)
    {
      CoversAt(wider, i, spans[i].from, spans[i].to);
    }
  }

  predicate Taken(spans: seq<Span>, p: int) {
    exists i :: 0 <= i < |spans| && Inside(spans[i], p)
  }

  /** Each position of `joined` comes from `spans` or lies in the window. */
  ghost predicate AddsOnly(spans: seq<Span>, joined: seq<Span>, from: nat, to: nat) {
    forall p :: Taken(joined, p) ==> Taken(spans, p) || from <= p < to
  }

  lemma JoinAddsOnly(spans: seq<Span>, joined: seq<Span>, from: nat, to: nat)
    requires (|joined| == |spans| + 1 && joined == spans + [Span(from, to)]) ||
             (|joined| == |spans| > 0 && var n := |spans| - 1;
              from <= spans[n].to && joined[..n] == spans[..n] && joined[n].from == spans[n].from &&
              joined[n].to == if spans[n].to < to then to else spans[n].to)
    ensures AddsOnly(spans, joined, from, to)
  {
    forall p | Taken(joined, p)
      ensures Taken(spans, p) || from <= p < to
    {
      var i :| 0 <= i < |joined| && Inside(joined[i], p);
      if i < |joined| - 1 {
        assert joined[i] == joined[..|joined| - 1][i];
        assert Inside(spans[i], p);
      } else if i < |spans| && p < spans[i].to {
        assert Inside(spans[i], p);
      }
    }
  }

  /** Adds a window to the spans found so far, joining it to the last where they touch. */
  method Join(spans: seq<Span>, from: nat, to: nat, limit: nat) returns (joined: seq<Span>)
    requires Apart(spans, limit) && from < to <= limit
    requires forall i :: 0 <= i < |spans| ==> spans[i].from <= from
    ensures Apart(joined, limit)
    ensures forall i :: 0 <= i < |joined| ==> joined[i].from <= from
    ensures Covers(joined, from, to)
    ensures forall i :: 0 <= i < |spans| ==> Covers(joined, spans[i].from, spans[i].to)
    ensures AddsOnly(spans, joined, from, to)
    ensures forall i :: 0 <= i < |joined| ==> joined[i].from == from || (i < |spans| && joined[i].from == spans[i].from)
  {
    hide Covers, AddsOnly, Apart;
    var n := |spans| - 1;
    if spans != [] && from <= spans[n].to {
      joined := spans[n := Span(spans[n].from, if spans[n].to < to then to else spans[n].to)];
      CoversAt(joined, n, from, to);
    } else {
      joined := spans + [Span(from, to)];
      CoversAt(joined, |spans|, from, to);
    }
    StillApart(spans, joined, from, to, limit);
    CoversEach(spans, joined);
    JoinAddsOnly(spans, joined, from, to);
  }

  lemma StillApart(spans: seq<Span>, joined: seq<Span>, from: nat, to: nat, limit: nat)
    requires Apart(spans, limit) && from < to <= limit
    requires forall i :: 0 <= i < |spans| ==> spans[i].from <= from
    requires if spans != [] && from <= spans[|spans| - 1].to
             then var n := |spans| - 1; joined == spans[n := Span(spans[n].from, if spans[n].to < to then to else spans[n].to)]
             else joined == spans + [Span(from, to)]
    ensures Apart(joined, limit)
  {
  }

  lemma {:induction false} TotalGrows(groups: seq<Span>, found: string, first: nat, last: nat, l: nat)
    requires AreGroups(found, groups)
    requires first <= last <= l < |groups|
    ensures Total(groups[first..last + 1]) <= Total(groups[first..l + 1])
    decreases l
  {
    if last < l {
      TotalGrows(groups, found, first, last, l - 1);
      assert groups[first..l + 1][..l - first] == groups[first..l];
    }
  }

  /** The search over all windows of whole groups. */
  method FindCards(found: string, groups: seq<Span>) returns (spans: seq<Span>)
    requires AreGroups(found, groups)
    ensures Apart(spans, |found|)
    ensures forall f, l :: 0 <= f <= l < |groups| && IsCard(found, groups, f, l) ==>
              Covers(spans, groups[f].from, groups[l].to)
    ensures OnlyCards(found, groups, spans)
  {
    hide IsCard;
    spans := [];
    for first := 0 to |groups|
      invariant Apart(spans, |found|)
      invariant forall i :: 0 <= i < |spans| && first < |groups| ==> spans[i].from <= groups[first].from
      invariant CardsCovered(found, groups, spans, first, first)
      invariant OnlyCards(found, groups, spans)
    {
      spans := FindFrom(found, groups, first, spans);
    }
  }

  /** The windows that start at one group; past 19 digits none can be a card. */
  method FindFrom(found: string, groups: seq<Span>, first: nat, before: seq<Span>) returns (spans: seq<Span>)
    requires AreGroups(found, groups) && first < |groups|
    requires Apart(before, |found|)
    requires forall i :: 0 <= i < |before| ==> before[i].from <= groups[first].from
    requires CardsCovered(found, groups, before, first, first) && OnlyCards(found, groups, before)
    ensures Apart(spans, |found|)
    ensures forall i :: 0 <= i < |spans| ==> spans[i].from <= groups[first].from
    ensures CardsCovered(found, groups, spans, first + 1, first + 1) && OnlyCards(found, groups, spans)
  {
    hide IsCard, OnlyCards, AddsOnly, Covers, AreGroups, Apart, CardsCovered, Total;
    spans := before;
    NoGroups(groups, first);
    var digits := 0;
    var last := first;
    while last < |groups|
      invariant first <= last <= |groups|
      invariant digits == Total(groups[first..last])
      invariant Apart(spans, |found|)
      invariant forall i :: 0 <= i < |spans| ==> spans[i].from <= groups[first].from
      invariant CardsCovered(found, groups, spans, first, last) && OnlyCards(found, groups, spans)
    {
      GroupsTotal(found, groups, first, last);
      digits := digits + (groups[last].to - groups[last].from);
      if digits > 19 {
        NoCardPast(found, groups, first, last);
        NoneFrom(found, groups, spans, first, last);
        return;
      }
      if IsCard(found, groups, first, last) {
        var joined := Join(spans, groups[first].from, groups[last].to, |found|);
        StillCovered(found, groups, spans, joined, first, last);
        StillOnlyCards(found, groups, spans, joined, first, last);
        spans := joined;
      } else {
        NotOne(found, groups, spans, first, last);
      }
      last := last + 1;
    }
    NoneFrom(found, groups, spans, first, last);
  }

  lemma NoGroups(groups: seq<Span>, first: nat)
    requires first <= |groups|
    ensures Total(groups[first..first]) == 0
  {
  }

  /** One more group, and that a window is not empty. */
  lemma GroupsTotal(found: string, groups: seq<Span>, first: nat, last: nat)
    requires AreGroups(found, groups) && first <= last < |groups|
    ensures Total(groups[first..last + 1]) == Total(groups[first..last]) + (groups[last].to - groups[last].from)
    ensures groups[first].from < groups[last].to <= |found|
  {
    assert groups[first..last + 1][..last - first] == groups[first..last];
  }

  lemma NotOne(found: string, groups: seq<Span>, spans: seq<Span>, first: nat, last: nat)
    requires first <= last < |groups| && !IsCard(found, groups, first, last)
    requires CardsCovered(found, groups, spans, first, last)
    ensures CardsCovered(found, groups, spans, first, last + 1)
  {
    hide IsCard, Covers;
  }

  lemma NoneFrom(found: string, groups: seq<Span>, spans: seq<Span>, first: nat, last: nat)
    requires first <= last <= |groups| && forall l :: last <= l < |groups| ==> !IsCard(found, groups, first, l)
    requires CardsCovered(found, groups, spans, first, last)
    ensures CardsCovered(found, groups, spans, first + 1, first + 1)
  {
    hide IsCard, Covers;
  }

  lemma NoCardPast(found: string, groups: seq<Span>, first: nat, last: nat)
    requires AreGroups(found, groups) && first <= last < |groups|
    requires Total(groups[first..last + 1]) > 19
    ensures forall l :: last <= l < |groups| ==> !IsCard(found, groups, first, l)
  {
    hide Luhn, Shaped, Total;
    forall l | last <= l < |groups|
      ensures !IsCard(found, groups, first, l)
    {
      TotalGrows(groups, found, first, last, l);
    }
  }

  lemma StillOnlyCards(found: string, groups: seq<Span>, spans: seq<Span>, joined: seq<Span>, first: nat, last: nat)
    requires first <= last < |groups| && IsCard(found, groups, first, last)
    requires OnlyCards(found, groups, spans)
    requires AddsOnly(spans, joined, groups[first].from, groups[last].to)
    ensures OnlyCards(found, groups, joined)
  {
    hide IsCard, Taken;
  }

  lemma StillCovered(found: string, groups: seq<Span>, spans: seq<Span>, joined: seq<Span>, first: nat, last: nat)
    requires first <= last < |groups|
    requires CardsCovered(found, groups, spans, first, last)
    requires Covers(joined, groups[first].from, groups[last].to)
    requires forall i :: 0 <= i < |spans| ==> Covers(joined, spans[i].from, spans[i].to)
    ensures CardsCovered(found, groups, joined, first, last + 1)
  {
    hide IsCard, Covers;
    forall f, l | 0 <= f <= l < |groups| && (f < first || (f == first && l < last + 1)) && IsCard(found, groups, f, l)
      ensures Covers(joined, groups[f].from, groups[l].to)
    {
      if f < first || l < last {
        CoversJoined(spans, joined, groups[f].from, groups[l].to);
      }
    }
  }

  // ---------------------------------------------------------------------
  // Phone numbers a span cuts into
  // ---------------------------------------------------------------------

  /** What the phone pattern finds: the end of a match starting just there, and
      the successive matches over the whole run. */
  datatype Phones = Phones(at: nat -> Option<nat>, all: seq<Span>)

  ghost predicate Sensible(ph: Phones, limit: nat) {
    && (forall p: nat :: ph.at(p).Some? ==> p < ph.at(p).value <= limit)
    && (forall i :: 0 <= i < |ph.all| ==> ph.all[i].from < ph.all[i].to <= limit)
    && (forall i, j :: 0 <= i < j < |ph.all| ==> ph.all[i].to <= ph.all[j].from)
  }

  /** No phone number starting at a group after `from` and before `to` reaches past `to`. */
  ghost predicate NoneSticksOut(ph: Phones, groups: seq<Span>, from: nat, to: nat) {
    forall i :: 0 <= i < |groups| && from < groups[i].from < to && ph.at(groups[i].from).Some? ==>
      ph.at(groups[i].from).value <= to
  }

  /** The position lies in a phone number that was found. */
  ghost predicate InPhone(ph: Phones, groups: seq<Span>, p: int) {
    || (exists i :: 0 <= i < |groups| && ph.at(groups[i].from).Some? && groups[i].from <= p < ph.at(groups[i].from).value)
    || Taken(ph.all, p)
  }

  /** The least end at or after the span's own that no phone number sticks out of. */
  ghost predicate IsLeastEnd(ph: Phones, groups: seq<Span>, span: Span, to: nat) {
    && span.to <= to && NoneSticksOut(ph, groups, span.from, to)
    && forall e: nat :: span.to <= e && NoneSticksOut(ph, groups, span.from, e) ==> to <= e
  }

  /** The span's own start, or that of the phone number it cuts. */
  ghost predicate IsWholeStart(ph: Phones, span: Span, from: nat) {
    && (forall i :: 0 <= i < |ph.all| && ph.all[i].from < span.from < ph.all[i].to ==> from == ph.all[i].from)
    && (from == span.from || exists i :: 0 <= i < |ph.all| && ph.all[i].from < span.from < ph.all[i].to)
  }

  /** One ascending pass over the groups is enough, though it moves the end it tests against. */
  method StretchEnd(ph: Phones, groups: seq<Span>, span: Span, limit: nat) returns (to: nat)
    requires Sensible(ph, limit) && span.from < span.to <= limit
    requires forall i, j :: 0 <= i < j < |groups| ==> groups[i].from < groups[j].from
    ensures span.to <= to <= limit
    ensures IsLeastEnd(ph, groups, span, to)
    ensures forall p :: span.to <= p < to ==> InPhone(ph, groups, p)
  {
    to := span.to;
    for k := 0 to |groups|
      invariant span.to <= to <= limit
      invariant forall i :: 0 <= i < k && span.from < groups[i].from < to && ph.at(groups[i].from).Some? ==>
                  ph.at(groups[i].from).value <= to
      invariant k > 0 && to <= groups[k - 1].from ==> forall i :: k <= i < |groups| ==> to <= groups[i].from
      invariant forall p :: span.to <= p < to ==> InPhone(ph, groups, p)
      invariant forall e: nat :: span.to <= e && NoneSticksOut(ph, groups, span.from, e) ==> to <= e
    {
      var at := groups[k].from;
      if span.from < at < to && ph.at(at).Some? && to < ph.at(at).value {
        assert forall p :: at <= p < ph.at(at).value ==> InPhone(ph, groups, p);
        to := ph.at(at).value;
      }
    }
  }

  /** No phone number that was found begins before the position and runs past it. */
  predicate CutsNone(ph: Phones, at: nat) {
    forall i :: 0 <= i < |ph.all| ==> !(ph.all[i].from < at < ph.all[i].to)
  }

  /** Takes in a phone number that starts before the span and runs into it. */
  method StretchStart(ph: Phones, span: Span, limit: nat) returns (from: nat)
    requires Sensible(ph, limit)
    ensures from <= span.from
    ensures CutsNone(ph, from) && IsWholeStart(ph, span, from)
    ensures forall p :: from <= p < span.from ==> Taken(ph.all, p)
  {
    from := span.from;
    for k := 0 to |ph.all|
      invariant from <= span.from
      invariant forall i :: 0 <= i < k ==> !(ph.all[i].from < from < ph.all[i].to)
      invariant from == span.from || exists i :: 0 <= i < k && ph.all[i].from == from && from < span.from < ph.all[i].to
      invariant forall i :: 0 <= i < k && ph.all[i].from < span.from < ph.all[i].to ==> from == ph.all[i].from
      invariant forall p :: from <= p < span.from ==> Taken(ph.all, p)
    {
      var p := ph.all[k];
      if p.from < from < p.to {
        assert forall q :: Inside(p, q) ==> Taken(ph.all, q);
        assert forall q :: p.from <= q < from ==> Inside(p, q);
        from := p.from;
      }
    }
  }

  // ---------------------------------------------------------------------
  // Sorting and joining what remains
  // ---------------------------------------------------------------------

  predicate Before(a: Span, b: Span) {
    a.from < b.from || (a.from == b.from && a.to <= b.to)
  }

  function Inserted(s: Span, sorted: seq<Span>): seq<Span> {
    if sorted == [] || Before(sorted[|sorted| - 1], s) then sorted + [s]
    else Inserted(s, sorted[..|sorted| - 1]) + [sorted[|sorted| - 1]]
  }

  predicate InOrder(spans: seq<Span>) {
    forall i, j :: 0 <= i < j < |spans| ==> Before(spans[i], spans[j])
  }

  lemma {:induction false} InsertedFacts(s: Span, sorted: seq<Span>)
    requires InOrder(sorted)
    ensures InOrder(Inserted(s, sorted))
    ensures forall x :: x in Inserted(s, sorted) <==> x in sorted || x == s
    decreases |sorted|
  {
    if sorted != [] && !Before(sorted[|sorted| - 1], s) {
      var n := |sorted| - 1;
      InsertedFacts(s, sorted[..n]);
      var r := Inserted(s, sorted[..n]);
      assert forall x :: x in sorted <==> x in sorted[..n] || x == sorted[n];
      forall k | 0 <= k < |r|
        ensures Before(r[k], sorted[n])
      {
        assert r[k] in r;
      }
    }
  }

  method Sort(spans: seq<Span>) returns (sorted: seq<Span>)
    ensures InOrder(sorted)
    ensures forall x :: x in sorted <==> x in spans
  {
    sorted := [];
    for i := 0 to |spans|
      invariant InOrder(sorted)
      invariant forall x :: x in sorted <==> x in spans[..i]
    {
      InsertedFacts(spans[i], sorted);
      sorted := Inserted(spans[i], sorted);
      assert forall x :: x in spans[..i + 1] <==> x in spans[..i] || x == spans[i];
    }
    assert spans[..|spans|] == spans;
  }

  /** Every span begins where one of those given does. */
  predicate StartsAmong(spans: seq<Span>, given: seq<Span>) {
    forall i :: 0 <= i < |spans| ==> exists j :: 0 <= j < |given| && given[j].from == spans[i].from
  }

  /** Joins sorted spans that touch. */
  method Dedup(sorted: seq<Span>, limit: nat) returns (spans: seq<Span>)
    requires InOrder(sorted)
    requires forall i :: 0 <= i < |sorted| ==> sorted[i].from < sorted[i].to <= limit
    ensures Apart(spans, limit)
    ensures forall i :: 0 <= i < |sorted| ==> Covers(spans, sorted[i].from, sorted[i].to)
    ensures forall p :: Taken(spans, p) ==> Taken(sorted, p)
    ensures StartsAmong(spans, sorted)
  {
    hide Covers;
    spans := [];
    for k := 0 to |sorted|
      invariant Apart(spans, limit)
      invariant forall i :: 0 <= i < |spans| && k < |sorted| ==> spans[i].from <= sorted[k].from
      invariant forall i :: 0 <= i < k ==> Covers(spans, sorted[i].from, sorted[i].to)
      invariant forall p :: Taken(spans, p) ==> Taken(sorted, p)
      invariant StartsAmong(spans, sorted)
    {
      ghost var was := spans;
      spans := Join(spans, sorted[k].from, sorted[k].to, limit);
      assert forall p :: sorted[k].from <= p < sorted[k].to ==> Inside(sorted[k], p);
      forall i | 0 <= i < k
        ensures Covers(spans, sorted[i].from, sorted[i].to)
      {
        CoversJoined(was, spans, sorted[i].from, sorted[i].to);
      }
    }
  }

  /** Widens every span over the phone numbers it cuts into. */
  method StretchAll(ph: Phones, groups: seq<Span>, spans: seq<Span>, limit: nat) returns (wide: seq<Span>)
    requires Sensible(ph, limit) && Apart(spans, limit)
    requires forall i, j :: 0 <= i < j < |groups| ==> groups[i].from < groups[j].from
    ensures |wide| == |spans|
    ensures forall i :: 0 <= i < |spans| ==> wide[i].from <= spans[i].from && spans[i].to <= wide[i].to <= limit
    ensures forall i :: 0 <= i < |spans| ==>
              IsLeastEnd(ph, groups, spans[i], wide[i].to) && IsWholeStart(ph, spans[i], wide[i].from)
    ensures forall i, p :: 0 <= i < |spans| && Inside(wide[i], p) ==> Inside(spans[i], p) || InPhone(ph, groups, p)
    ensures forall i :: 0 <= i < |spans| ==> CutsNone(ph, wide[i].from)
  {
    hide IsLeastEnd, IsWholeStart;
    wide := [];
    for i := 0 to |spans|
      invariant |wide| == i
      invariant forall k :: 0 <= k < i ==> wide[k].from <= spans[k].from && spans[k].to <= wide[k].to <= limit
      invariant forall k :: 0 <= k < i ==>
                  IsLeastEnd(ph, groups, spans[k], wide[k].to) && IsWholeStart(ph, spans[k], wide[k].from)
      invariant forall k, p :: 0 <= k < i && Inside(wide[k], p) ==> Inside(spans[k], p) || InPhone(ph, groups, p)
      invariant forall k :: 0 <= k < i ==> CutsNone(ph, wide[k].from)
    {
      var to := StretchEnd(ph, groups, spans[i], limit);
      var from := StretchStart(ph, spans[i], limit);
      wide := wide + [Span(from, to)];
    }
  }

  lemma TakenFrom(found: string, ph: Phones, groups: seq<Span>, cards: seq<Span>, wide: seq<Span>, sorted: seq<Span>)
    requires |wide| == |cards| && OnlyCards(found, groups, cards)
    requires forall x :: x in sorted <==> x in wide
    requires forall i, p :: 0 <= i < |cards| && Inside(wide[i], p) ==> Inside(cards[i], p) || InPhone(ph, groups, p)
    ensures forall p :: Taken(sorted, p) ==> InCard(found, groups, p) || InPhone(ph, groups, p)
  {
    hide InCard, InPhone;
    forall p | Taken(sorted, p)
      ensures InCard(found, groups, p) || InPhone(ph, groups, p)
    {
      var k :| 0 <= k < |sorted| && Inside(sorted[k], p);
      assert sorted[k] in wide;
      var i :| 0 <= i < |wide| && wide[i] == sorted[k];
      if Inside(cards[i], p) {
        assert Taken(cards, p);
      }
    }
  }

  lemma SameTaken(sorted: seq<Span>, wide: seq<Span>)
    requires forall x :: x in sorted <==> x in wide
    ensures forall p :: Taken(sorted, p) ==> Taken(wide, p)
  {
    forall p | Taken(sorted, p)
      ensures Taken(wide, p)
    {
      var k :| 0 <= k < |sorted| && Inside(sorted[k], p);
      assert sorted[k] in wide;
      var i :| 0 <= i < |wide| && wide[i] == sorted[k];
    }
  }

  lemma StartsCutNone(ph: Phones, spans: seq<Span>, sorted: seq<Span>, wide: seq<Span>)
    requires StartsAmong(spans, sorted) && forall x :: x in sorted <==> x in wide
    requires forall i :: 0 <= i < |wide| ==> CutsNone(ph, wide[i].from)
    ensures forall i :: 0 <= i < |spans| ==> CutsNone(ph, spans[i].from)
  {
    hide CutsNone;
    forall i | 0 <= i < |spans|
      ensures CutsNone(ph, spans[i].from)
    {
      var j :| 0 <= j < |sorted| && sorted[j].from == spans[i].from;
      assert sorted[j] in wide;
    }
  }

  /**
   The spans to take out of a run. They are in range, in order and strictly apart;
   every window of whole groups that is a card lies inside one; and each of the
   joined windows `cards`, which hold nothing but such windows, is stretched to the least
   end past which no phone number sticks out that starts at a group after the card's
   start, and back to the start of a phone number it cuts. The spans take just the
   positions of these, so each lies in a card window or in a phone number.
   */
  method Card(found: string, ph: Phones)
    returns (spans: seq<Span>, groups: seq<Span>, ghost cards: seq<Span>, ghost wide: seq<Span>)
    requires Sensible(ph, |found|)
    ensures AreGroups(found, groups) && Apart(spans, |found|)
    ensures forall f, l :: 0 <= f <= l < |groups| && IsCard(found, groups, f, l) ==>
              Covers(cards, groups[f].from, groups[l].to) && Covers(spans, groups[f].from, groups[l].to)
    ensures |wide| == |cards|
    ensures forall i :: 0 <= i < |cards| ==>
              && wide[i].from <= cards[i].from && cards[i].to <= wide[i].to
              && Covers(spans, wide[i].from, wide[i].to)
              && IsLeastEnd(ph, groups, cards[i], wide[i].to) && IsWholeStart(ph, cards[i], wide[i].from)
    ensures OnlyCards(found, groups, cards)
    ensures forall p :: Taken(spans, p) ==> Taken(wide, p)
    ensures forall p :: Taken(spans, p) ==> InCard(found, groups, p) || InPhone(ph, groups, p)
    ensures forall i :: 0 <= i < |spans| ==> CutsNone(ph, spans[i].from)
  {
    hide Covers, IsLeastEnd, IsWholeStart, IsCard, InCard, InPhone, CutsNone, StartsAmong;
    groups := DigitGroups(found);
    var windows := FindCards(found, groups);
    var stretched := StretchAll(ph, groups, windows, |found|);
    cards, wide := windows, stretched;
    var sorted := Sort(stretched);
    forall i | 0 <= i < |sorted|
      ensures sorted[i].from < sorted[i].to <= |found|
    {
      assert sorted[i] in wide;
    }
    spans := Dedup(sorted, |found|);
    TakenFrom(found, ph, groups, cards, wide, sorted);
    SameTaken(sorted, wide);
    StartsCutNone(ph, spans, sorted, wide);
    forall i | 0 <= i < |wide|
      ensures Covers(spans, wide[i].from, wide[i].to)
    {
      assert wide[i] in sorted;
    }
    CoversEach(cards, wide);
    forall f, l | 0 <= f <= l < |groups| && IsCard(found, groups, f, l)
      ensures Covers(spans, groups[f].from, groups[l].to)
    {
      CoversJoined(cards, wide, groups[f].from, groups[l].to);
      CoversJoined(wide, spans, groups[f].from, groups[l].to);
    }
  }

  // ---------------------------------------------------------------------
  // Splicing
  // ---------------------------------------------------------------------

  predicate Starts(spans: seq<Span>, p: nat) {
    exists i :: 0 <= i < |spans| && spans[i].from == p
  }

  /** Position by position: a span's first gives the marker, its others nothing, and
      every position outside gives its own character. */
  function Masked(text: string, spans: seq<Span>, marker: string, upto: nat): string
    requires upto <= |text|
  {
    if upto == 0 then ""
    else
      var p := upto - 1;
      Masked(text, spans, marker, p) +
      if Starts(spans, p) then marker else if Taken(spans, p) then "" else [text[p]]
  }

  lemma {:induction false} MaskedOutside(text: string, spans: seq<Span>, marker: string, a: nat, b: nat)
    requires a <= b <= |text|
    requires forall p :: a <= p < b ==> !Starts(spans, p) && !Taken(spans, p)
    ensures Masked(text, spans, marker, b) == Masked(text, spans, marker, a) + text[a..b]
    decreases b
  {
    if a < b {
      MaskedOutside(text, spans, marker, a, b - 1);
      assert text[a..b] == text[a..b - 1] + [text[b - 1]];
    } else {
      assert text[a..b] == [];
    }
  }

  lemma {:induction false} MaskedInside(text: string, spans: seq<Span>, marker: string, i: nat, b: nat)
    requires Apart(spans, |text|) && i < |spans| && spans[i].from < b <= spans[i].to
    ensures Masked(text, spans, marker, b) == Masked(text, spans, marker, spans[i].from) + marker
    decreases b
  {
    var p := b - 1;
    if p == spans[i].from {
      assert Starts(spans, p);
    } else {
      MaskedInside(text, spans, marker, i, p);
      assert Inside(spans[i], p) && Taken(spans, p);
      forall j | 0 <= j < |spans|
        ensures spans[j].from != p
      {
        if j < i {
          assert spans[j].to < spans[i].from;
        } else if i < j {
          assert spans[i].to < spans[j].from;
        }
      }
    }
  }

  /** One turn of the splice: the gap before a span, then the marker. */
  lemma MaskedStep(text: string, spans: seq<Span>, marker: string, i: nat)
    requires Apart(spans, |text|) && i < |spans|
    ensures var kept := if i == 0 then 0 else spans[i - 1].to;
            kept <= spans[i].from &&
            Masked(text, spans, marker, spans[i].to) == Masked(text, spans, marker, kept) + text[kept..spans[i].from] + marker
  {
    hide Masked, Starts, Taken;
    var kept := if i == 0 then 0 else spans[i - 1].to;
    GapIsOutside(text, spans, i);
    MaskedOutside(text, spans, marker, kept, spans[i].from);
    MaskedInside(text, spans, marker, i, spans[i].to);
  }

  /** Exactly the text outside the spans is kept, in order, with one marker for each span. */
  method Splice(text: string, spans: seq<Span>, marker: string) returns (out: string)
    requires Apart(spans, |text|)
    ensures out == Masked(text, spans, marker, |text|)
  {
    hide Starts, Taken;
    out := "";
    var kept := 0;
    for i := 0 to |spans|
      invariant kept == if i == 0 then 0 else spans[i - 1].to
      invariant kept <= |text|
      invariant out == Masked(text, spans, marker, kept)
    {
      MaskedStep(text, spans, marker, i);
      out := out + text[kept..spans[i].from];
      out := out + marker;
      kept := spans[i].to;
    }
    GapIsOutside(text, spans, |spans|);
    MaskedOutside(text, spans, marker, kept, |text|);
    out := out + text[kept..];
  }

  lemma GapIsOutside(text: string, spans: seq<Span>, i: nat)
    requires Apart(spans, |text|) && i <= |spans|
    ensures var a := if i == 0 then 0 else spans[i - 1].to;
            var b := if i == |spans| then |text| else spans[i].from;
            forall p :: a <= p < b ==> !Starts(spans, p) && !Taken(spans, p)
  {
  }

  /** What takes the place of a run: no position of a card window gives its own character,
      and each one that neither a card window nor a phone number holds is kept. */
  method RedactRun(found: string, ph: Phones, marker: string) returns (out: string, spans: seq<Span>, groups: seq<Span>)
    requires Sensible(ph, |found|)
    ensures AreGroups(found, groups) && Apart(spans, |found|)
    ensures out == Masked(found, spans, marker, |found|)
    ensures forall p :: InCard(found, groups, p) ==> Taken(spans, p)
    ensures forall p :: Taken(spans, p) ==> InCard(found, groups, p) || InPhone(ph, groups, p)
  {
    hide IsCard, InPhone, Masked;
    ghost var cards, wide;
    spans, groups, cards, wide := Card(found, ph);
    out := Splice(found, spans, marker);
    forall p | InCard(found, groups, p)
      ensures Taken(spans, p)
    {
      var f, l :| 0 <= f <= l < |groups| && IsCard(found, groups, f, l) && groups[f].from <= p < groups[l].to;
      var i :| 0 <= i < |spans| && spans[i].from <= groups[f].from && groups[l].to <= spans[i].to;
      assert Inside(spans[i], p);
    }
  }
}
