/**
 Which windows are payment cards (yb-redact/src/lib.rs), said in digits, places and
 group lengths alone, with a card that is taken.
 */
module CardNumbers {
  import opened CardRedaction

  // ---------------------------------------------------------------------
  // The check, place by place
  // ---------------------------------------------------------------------

  /** The digits of the text, in order. */
  ghost predicate Reads(s: string, ds: seq<Digit>) {
    if s == "" then ds == []
    else if '0' <= s[0] <= '9' then ds != [] && ds[0] == s[0] as int - 48 && Reads(s[1..], ds[1..])
    else Reads(s[1..], ds)
  }

  lemma {:induction false} ReadsIs(s: string, ds: seq<Digit>)
    requires Reads(s, ds)
    ensures DigitsOf(s) == ds
    decreases |s|
  {
    if s != "" {
      assert [s[0]] + s[1..] == s;
      DigitsConcat([s[0]], s[1..]);
      DigitsSnoc([], s[0]);
      assert [] + [s[0]] == [s[0]];
      if '0' <= s[0] <= '9' {
        ReadsIs(s[1..], ds[1..]);
        assert [ds[0]] + ds[1..] == ds;
      } else {
        ReadsIs(s[1..], ds);
      }
    }
  }

  /** What the last n digits add up to: place i from the right counts as it stands when i + shift
      is even, and doubled, less nine when over nine, when it is odd. */
  function FromRight(ds: seq<Digit>, n: nat, shift: nat): nat
    requires n <= |ds|
  {
    if n == 0 then 0
    else
      var d: int := ds[|ds| - n];
      FromRight(ds, n - 1, shift) +
      if (n - 1 + shift) % 2 == 0 then d else if 2 * d > 9 then 2 * d - 9 else 2 * d
  }

  lemma Odd(k: nat)
    ensures (k + 1) % 2 == 1 <==> k % 2 != 1
    ensures k % 2 == 0 <==> k % 2 != 1
  {
  }

  lemma {:induction false} SumFromRight(ds: seq<Digit>, n: nat, shift: nat)
    requires n <= |ds|
    ensures LuhnSum(ds, shift % 2 == 1) == FromRight(ds, n, shift) + LuhnSum(ds[..|ds| - n], (n + shift) % 2 == 1)
    decreases n
  {
    if n == 0 {
      assert ds[..|ds|] == ds;
    } else {
      SumFromRight(ds, n - 1, shift);
      var rest, k := ds[..|ds| - n + 1], n - 1 + shift;
      assert rest[..|ds| - n] == ds[..|ds| - n];
      Odd(k);
      SumOfLast(rest, k % 2 == 1);
      assert k + 1 == n + shift;
      hide LuhnSum;
    }
  }

  lemma SumOfLast(ds: seq<Digit>, doubled: bool)
    requires ds != []
    ensures var d: int := ds[|ds| - 1];
            LuhnSum(ds, doubled) ==
            (if !doubled then d else if 2 * d > 9 then 2 * d - 9 else 2 * d) + LuhnSum(ds[..|ds| - 1], !doubled)
  {
  }

  /** A text passes if and only if it has 13 to 19 digits and ten divides their sum, every second
      one from the right doubled, the last as it stands. */
  lemma LuhnIff(s: string, ds: seq<Digit>)
    requires Reads(s, ds)
    ensures Luhn(s) <==> 13 <= |ds| <= 19 && FromRight(ds, |ds|, 0) % 10 == 0
  {
    ReadsIs(s, ds);
    SumFromRight(ds, |ds|, 0);
    assert ds[..0] == [];
  }

  lemma {:induction false} LastStands(p: seq<Digit>, x: Digit, n: nat)
    requires n <= |p|
    ensures FromRight(p + [x], n + 1, 0) == x + FromRight(p, n, 1)
    decreases n
  {
    if n > 0 {
      LastStands(p, x, n - 1);
      assert (p + [x])[|p| - n] == p[|p| - n];
    } else {
      assert FromRight(p + [x], 0, 0) == 0;
    }
  }

  /** Of the ten texts that complete a payload, the one with this check digit passes. */
  lemma CheckDigit(s: string, p: seq<Digit>, x: Digit)
    requires 12 <= |p| <= 18 && Reads(s, p + [x])
    ensures Luhn(s) <==> x == (10 - FromRight(p, |p|, 1) % 10) % 10
  {
    hide Reads, Luhn, FromRight;
    LuhnIff(s, p + [x]);
    LastStands(p, x, |p|);
  }

  /** No two texts that differ in one digit both pass. */
  lemma OneWrongDigit(s: string, p: nat, c: char)
    requires p < |s| && IsDigit(s[p]) && IsDigit(c) && c != s[p] && Luhn(s)
    ensures !Luhn(s[p := c])
  {
    var ds, i := DigitsOf(s), |DigitsOf(s[..p])|;
    Replaced(s, p, c);
    OneWrongDigitFails(ds, i, c as int - 48);
  }

  lemma Replaced(s: string, p: nat, c: char)
    requires p < |s| && IsDigit(s[p]) && IsDigit(c)
    ensures var (ds, i) := (DigitsOf(s), |DigitsOf(s[..p])|);
            i < |ds| && ds[i] == s[p] as int - 48 && DigitsOf(s[p := c]) == ds[i := c as int - 48]
  {
    hide DigitsOf;
    SplitAt(s, p);
    SplitAt(s[p := c], p);
    assert s[p := c][..p] == s[..p] && s[p := c][p + 1..] == s[p + 1..];
  }

  lemma SplitAt(s: string, p: nat)
    requires p < |s|
    ensures DigitsOf(s) == DigitsOf(s[..p]) + DigitOf(s[p]) + DigitsOf(s[p + 1..])
  {
    hide DigitsOf;
    assert s == (s[..p] + [s[p]]) + s[p + 1..];
    DigitsConcat(s[..p] + [s[p]], s[p + 1..]);
    DigitsSnoc(s[..p], s[p]);
  }

  // ---------------------------------------------------------------------
  // The windows that are taken
  // ---------------------------------------------------------------------

  ghost predicate LengthsAre(groups: seq<Span>, first: nat, last: nat, lengths: seq<int>)
    requires first <= last < |groups|
  {
    && |lengths| == last - first + 1
    && forall i :: 0 <= i < |lengths| ==> lengths[i] == groups[first + i].to - groups[first + i].from
  }

  /** One group of 13 to 19 digits, 4-6-4, 4-6-5, or three or four groups of four and a last one
      of at most four, 19 digits in all. */
  ghost predicate CardLengths(lengths: seq<int>) {
    || (exists n :: 13 <= n <= 19 && lengths == [n])
    || lengths == [4, 6, 4] || lengths == [4, 6, 5]
    || (exists n :: 1 <= n <= 4 && lengths == [4, 4, 4, n])
    || (exists n :: 1 <= n <= 3 && lengths == [4, 4, 4, 4, n])
  }

  lemma CardLengthsIff(lengths: seq<int>)
    ensures Shaped(lengths) && 13 <= Sum(lengths) <= 19 <==> CardLengths(lengths)
  {
    hide Sum;
    SumOfThree(4, 6, 4);
    SumOfThree(4, 6, 5);
    if |lengths| == 1 {
      assert lengths == [lengths[0]];
      SumOfOne(lengths[0]);
    }
    if |lengths| == 4 && lengths[..3] == [4, 4, 4] {
      assert lengths == [4, 4, 4] + [lengths[3]];
      assert lengths == [4, 4, 4, lengths[3]];
      SumOfFive(4, 4, 4, lengths[3], 0);
    }
    if |lengths| == 5 && lengths[..4] == [4, 4, 4, 4] {
      assert lengths == [4, 4, 4, 4] + [lengths[4]];
      assert lengths == [4, 4, 4, 4, lengths[4]];
      SumOfFive(4, 4, 4, 4, lengths[4]);
    }
  }

  lemma SumOfOne(a: int)
    ensures Sum([a]) == a
  {
    assert [a][..0] == [];
  }

  /** A window of whole groups is taken if and only if it has a card's lengths and passes. */
  lemma TakenIff(found: string, groups: seq<Span>, first: nat, last: nat, lengths: seq<int>)
    requires AreGroups(found, groups) && first <= last < |groups| && LengthsAre(groups, first, last, lengths)
    ensures groups[first].from <= groups[last].to <= |found|
    ensures IsCard(found, groups, first, last) <==>
            CardLengths(lengths) && Luhn(found[groups[first].from..groups[last].to])
  {
    hide Luhn, Shaped, Sum, Total, CardLengths;
    var window := groups[first..last + 1];
    assert Lengths(window) == lengths;
    TotalIsSum(window);
    CardLengthsIff(lengths);
  }

  // ---------------------------------------------------------------------
  // A card that is taken
  // ---------------------------------------------------------------------

  const A_CARD := "4111" + " " + "1111" + " " + "1111" + " " + "1111"
  const ITS_DIGITS: seq<Digit> := [4, 1, 1, 1, 1, 1, 1, 1, 1, 1, 1, 1, 1, 1, 1, 1]

  lemma FourDigits(a: char, b: char, c: char, d: char)
    requires IsDigit(a) && IsDigit(b) && IsDigit(c) && IsDigit(d)
    ensures DigitsOf([a, b, c, d]) == [a as int - 48, b as int - 48, c as int - 48, d as int - 48]
  {
    DigitsSnoc([], a);
    DigitsSnoc([a], b);
    DigitsSnoc([a, b], c);
    DigitsSnoc([a, b, c], d);
    assert [] + [a] == [a] && [a] + [b] == [a, b] && [a, b] + [c] == [a, b, c] && [a, b, c] + [d] == [a, b, c, d];
  }

  lemma CardDigits()
    ensures DigitsOf(A_CARD) == ITS_DIGITS
  {
    hide DigitsOf;
    FourDigits('4', '1', '1', '1');
    FourDigits('1', '1', '1', '1');
    DigitsConcat("4111" + " " + "1111" + " " + "1111" + " ", "1111");
    DigitsSnoc("4111" + " " + "1111" + " " + "1111", ' ');
    DigitsConcat("4111" + " " + "1111" + " ", "1111");
    DigitsSnoc("4111" + " " + "1111", ' ');
    DigitsConcat("4111" + " ", "1111");
    DigitsSnoc("4111", ' ');
  }

  lemma Half(n: nat)
    requires n > 0
    ensures n / 2 == (n - 1) / 2 + if (n - 1) % 2 == 0 then 0 else 1
  {
  }

  lemma {:induction false} OnesSum(ds: seq<Digit>, n: nat)
    requires n <= |ds| && forall i :: |ds| - n <= i < |ds| ==> ds[i] == 1
    ensures FromRight(ds, n, 0) == n + n / 2
  {
    if n > 0 {
      var before, d: int := FromRight(ds, n - 1, 0), ds[|ds| - n];
      OnesSum(ds, n - 1);
      Half(n);
      assert FromRight(ds, n, 0) == before + if (n - 1 + 0) % 2 == 0 then d else 2 * d;
      hide FromRight;
    }
  }

  /** A four and fifteen ones: the four is doubled, and so is every second one. */
  lemma FourThenOnes(ds: seq<Digit>)
    requires |ds| == 16 && ds[0] == 4 && forall i :: 1 <= i < 16 ==> ds[i] == 1
    ensures FromRight(ds, |ds|, 0) == 15 + 7 + 8
  {
    var n := |ds| - 1;
    OnesSum(ds, n);
  }

  lemma CardPasses()
    ensures Luhn(A_CARD)
  {
    hide FromRight, LuhnSum, DigitsOf;
    var ds := DigitsOf(A_CARD);
    CardDigits();
    FourThenOnes(ds);
    SumFromRight(ds, |ds|, 0);
    assert ds[..0] == [];
    NoSum(false);
  }

  lemma NoSum(doubled: bool)
    ensures LuhnSum([], doubled) == 0
  {
  }

  const ITS_GROUPS := [Span(0, 4), Span(5, 9), Span(10, 14), Span(15, 19)]

  lemma CardGroups()
    ensures |A_CARD| == 19 && AreGroups(A_CARD, ITS_GROUPS)
  {
    var found := A_CARD;
    assert found[4] == ' ' && found[9] == ' ' && found[14] == ' ';
    forall p | 0 <= p < 19 && IsDigit(found[p])
      ensures InGroup(ITS_GROUPS, p)
    {
      assert p != 4 && p != 9 && p != 14;
      assert Inside(ITS_GROUPS[p / 5], p);
    }
  }

  /** 4111 1111 1111 1111 is a card. */
  lemma ACardThatIsTaken()
    ensures |A_CARD| == 19 && AreGroups(A_CARD, ITS_GROUPS)
    ensures IsCard(A_CARD, ITS_GROUPS, 0, 3)
  {
    hide Luhn, AreGroups;
    CardGroups();
    CardPasses();
    assert A_CARD[0..19] == A_CARD;
    var lengths := [4, 4, 4, 4];
    assert CardLengths(lengths);
    assert LengthsAre(ITS_GROUPS, 0, 3, lengths);
    TakenIff(A_CARD, ITS_GROUPS, 0, 3, lengths);
  }

  /** A run of digits that no other digit touches. */
  ghost predicate IsRun(found: string, a: nat, b: nat) {
    && a < b <= |found| && (forall p :: a <= p < b ==> IsDigit(found[p]))
    && (a > 0 ==> !IsDigit(found[a - 1])) && (b < |found| ==> !IsDigit(found[b]))
  }

  /** The groups are the runs of digits and nothing else. */
  lemma GroupIsRun(found: string, groups: seq<Span>, a: nat, b: nat)
    requires AreGroups(found, groups)
    ensures Span(a, b) in groups <==> IsRun(found, a, b)
  {
    if IsRun(found, a, b) {
      assert InGroup(groups, a);
      var i :| 0 <= i < |groups| && Inside(groups[i], a);
      assert groups[i].from == a by {
        assert forall p :: groups[i].from <= p < groups[i].to ==> Inside(groups[i], p);
      }
      assert groups[i].to == b by {
        assert b < groups[i].to ==> Inside(groups[i], b);
        if groups[i].to < |found| { NotGrouped(found, groups, i, groups[i].to); }
      }
      assert groups[i] == Span(a, b);
    } else if i :| 0 <= i < |groups| && groups[i] == Span(a, b) {
      forall p | a <= p < b ensures IsDigit(found[p]) { assert Inside(groups[i], p); }
      if a > 0 { NotGrouped(found, groups, i, a - 1); }
      if b < |found| { NotGrouped(found, groups, i, b); }
    }
  }

  /** Just outside a group is no digit. */
  lemma NotGrouped(found: string, groups: seq<Span>, i: nat, p: nat)
    requires AreGroups(found, groups) && i < |groups| && p < |found|
    requires p == groups[i].to || p + 1 == groups[i].from
    ensures !IsDigit(found[p])
  {
    assert forall j :: 0 <= j < |groups| ==> !Inside(groups[j], p);
  }

  predicate Ordered(groups: seq<Span>) {
    forall i, j :: 0 <= i < j < |groups| ==> groups[i].from < groups[j].from
  }

  lemma SameMembers(found: string, g: seq<Span>, h: seq<Span>)
    requires AreGroups(found, g) && AreGroups(found, h)
    ensures Ordered(g) && Ordered(h) && forall x :: x in g <==> x in h
  {
    forall x ensures x in g <==> x in h {
      GroupIsRun(found, g, x.from, x.to);
      GroupIsRun(found, h, x.from, x.to);
    }
  }

  lemma {:induction false} SameOrdered(g: seq<Span>, h: seq<Span>, n: nat)
    requires Ordered(g) && Ordered(h) && (forall x :: x in g <==> x in h) && n <= |g|
    ensures n <= |h| && forall k :: 0 <= k < n ==> g[k] == h[k]
  {
    if n > 0 {
      SameOrdered(g, h, n - 1);
      assert g[n - 1] in h;
      var j :| 0 <= j < |h| && h[j] == g[n - 1];
      assert h[n - 1] in g;
      var i :| 0 <= i < |g| && g[i] == h[n - 1];
      assert i >= n - 1 && j >= n - 1;
    }
  }

  /** A text has one list of groups. */
  lemma SameGroups(found: string, g: seq<Span>, h: seq<Span>)
    requires AreGroups(found, g) && AreGroups(found, h)
    ensures g == h
  {
    hide AreGroups, Ordered;
    SameMembers(found, g, h);
    SameOrdered(g, h, |g|);
    SameOrdered(h, g, |h|);
  }

  /** A text that is taken whole becomes one marker. */
  lemma AllMasked(text: string, spans: seq<Span>, marker: string)
    requires Apart(spans, |text|) && text != "" && forall p :: 0 <= p < |text| ==> Taken(spans, p)
    ensures Masked(text, spans, marker, |text|) == marker
  {
    hide Masked;
    assert Taken(spans, 0);
    var i :| 0 <= i < |spans| && Inside(spans[i], 0);
    assert spans[i].to < |text| ==> Taken(spans, spans[i].to);
    MaskedInside(text, spans, marker, i, |text|);
    NothingMasked(text, spans, marker);
  }

  lemma NothingMasked(text: string, spans: seq<Span>, marker: string)
    ensures Masked(text, spans, marker, 0) == ""
  {
  }

  /** Whatever the phone pattern finds, the card is replaced by the marker and none of it is left. */
  method RedactACard(ph: Phones, marker: string) returns (out: string)
    requires Sensible(ph, |A_CARD|)
    ensures out == marker
  {
    hide IsCard, InPhone, Masked, AreGroups, Apart, Taken, Sensible;
    var spans, groups;
    out, spans, groups := RedactRun(A_CARD, ph, marker);
    ACardThatIsTaken();
    SameGroups(A_CARD, groups, ITS_GROUPS);
    forall p | 0 <= p < |A_CARD| ensures Taken(spans, p) {
      assert IsCard(A_CARD, groups, 0, 3) && groups[0].from <= p < groups[3].to;
      assert InCard(A_CARD, groups, p);
    }
    AllMasked(A_CARD, spans, marker);
  }
}
