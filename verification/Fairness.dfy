/**
 The strategies that spread turns over a model's surviving deployments
 (yb-gateway/src/router.rs): round robin and least busy.
 */
module Fairness {

  /** The survivor, of `n`, the counter points at. */
  function Lead(n: nat, c: nat): (k: nat)
    requires n > 0
    ensures k < n
  {
    c % n
  }

  lemma MulGrows(n: int, d: int)
    requires n > 0 && (d >= 1 || d <= -1)
    ensures n * d >= n || n * d <= -n
  {
    if d >= 1 {
      assert n * d == n + n * (d - 1) && n * (d - 1) >= 0;
    } else {
      assert n * d == -n + n * (d + 1) && n * (d + 1) <= 0;
    }
  }

  lemma LeadIs(n: nat, c: nat, q: nat, r: nat)
    requires n > 0 && r < n && c == n * q + r
    ensures Lead(n, c) == r
  {
    var d := c / n - q;
    assert c == n * (c / n) + c % n;
    assert n * d == r - c % n;
    if d != 0 {
      MulGrows(n, d);
    }
  }

  lemma Rounds(n: nat, c: nat) returns (q: nat)
    requires n > 0
    ensures c == n * q + Lead(n, c)
  {
    q := c / n;
  }

  lemma Difference(n: int, x: int, y: int)
    ensures n * (x - y) == n * x - n * y
  {
  }

  lemma RoundsGrow(n: int, x: int, y: int)
    requires n > 0
    ensures x < y ==> n * x + n <= n * y
  {
    if x < y {
      Difference(n, y, x);
      Distributes(n, y - x - 1, 1);
      assert n * (y - x - 1) >= 0;
    }
  }

  lemma Distributes(n: int, x: int, y: int)
    ensures n * (x + y) == n * x + n * y
  {
  }

  /** Two counters point at the same survivor when they are a whole number of rounds apart. */
  lemma LeadSame(n: nat, a: nat, b: nat)
    requires n > 0 && a <= b
    ensures Lead(n, a) == Lead(n, b) <==> Lead(n, b - a) == 0
  {
    hide Lead;
    var qa := Rounds(n, a);
    var qb := Rounds(n, b);
    var q := Rounds(n, b - a);
    if Lead(n, b - a) == 0 {
      Distributes(n, qa, q);
      LeadIs(n, b, qa + q, Lead(n, a));
    }
    if Lead(n, a) == Lead(n, b) {
      Difference(n, qb, qa);
      RoundsGrow(n, qb, qa);
      assert qb >= qa;
      LeadIs(n, b - a, qb - qa, 0);
    }
  }

  // ---------------------------------------------------------------------
  // Round robin
  // ---------------------------------------------------------------------

  function Rotation<T>(survivors: seq<T>, counter: nat): seq<T>
    requires survivors != []
  {
    var start := Lead(|survivors|, counter);
    survivors[start..] + survivors[..start]
  }

  method RoundRobin<T>(survivors: seq<T>, counter: nat) returns (out: seq<T>)
    requires survivors != []
    ensures out == Rotation(survivors, counter)
  {
    hide Lead;
    var n := |survivors|;
    var start := Lead(n, counter);
    out := [];
    for k := 0 to n
      invariant out == (survivors[start..] + survivors[..start])[..k]
    {
      out := out + [survivors[if start + k < n then start + k else start + k - n]];
    }
  }

  /** A rotation is an order of the survivors with the one pointed at in front and the
      others after it in a circle. */
  lemma RotationLeads<T>(survivors: seq<T>, counter: nat)
    requires survivors != []
    ensures Rotation(survivors, counter)[0] == survivors[Lead(|survivors|, counter)]
    ensures multiset(Rotation(survivors, counter)) == multiset(survivors)
    ensures var n, start := |survivors|, Lead(|survivors|, counter);
            && |Rotation(survivors, counter)| == n
            && forall k :: 0 <= k < n ==>
                 Rotation(survivors, counter)[k] == survivors[if start + k < n then start + k else start + k - n]
  {
    hide Lead;
    var start := Lead(|survivors|, counter);
    assert survivors == survivors[..start] + survivors[start..];
  }

  /** The counter after `j` resolves that each move it by `k`. */
  function Moved(c: nat, k: nat, j: nat): nat {
    c + j * k
  }

  lemma MovedNone(c: nat, k: nat)
    ensures Moved(c, k, 0) == c
  {
  }

  lemma MovedOn(c: nat, k: nat, j: nat, l: nat)
    ensures Moved(c, k, j + l) == Moved(Moved(c, k, j), k, l) == Moved(c, k, j) + Moved(0, k, l)
  {
    assert (j + l) * k == j * k + l * k;
  }

  /** How many of `m` resolves from counter `c`, each moving it by `k`, put survivor `i` of `n` first. */
  function Firsts(n: nat, i: nat, c: nat, k: nat, m: nat): nat
    requires i < n
  {
    if m == 0 then 0 else Firsts(n, i, c, k, m - 1) + if Lead(n, Moved(c, k, m - 1)) == i then 1 else 0
  }

  /** No part of a round of `n` is a whole number of rounds when the counter moves by `k`. */
  predicate Coprime(n: nat, k: nat) {
    forall j :: 0 < j < n ==> Lead(n, Moved(0, k, j)) != 0
  }

  lemma LeadOfRounds(n: nat, q: nat)
    requires n > 0
    ensures Lead(n, n * q) == 0
  {
    LeadIs(n, n * q, q, 0);
  }

  lemma Divided(n: nat, d: nat)
    requires d > 0 && n % d == 0
    ensures n == d * (n / d)
  {
  }

  lemma PartOfRound(n: nat, d: nat, j: nat)
    requires n > 0 && d > 1 && n == d * j
    ensures 0 < j < n
  {
    assert d * 0 == 0;
    RoundsGrow(j, 1, d);
  }

  lemma Swapped(a: int, b: int, c: int)
    ensures a * (b * c) == (b * a) * c
  {
  }

  lemma MovedIs(k: nat, j: nat)
    ensures Moved(0, k, j) == j * k
  {
  }

  /** A common divisor makes some part of a round whole. */
  lemma CommonDivisorReturns(n: nat, k: nat, d: nat)
    requires n > 0 && d > 1 && n % d == 0 && k % d == 0
    ensures 0 < n / d < n && Lead(n, Moved(0, k, n / d)) == 0
  {
    hide Lead, Moved;
    var j, q := n / d, k / d;
    Divided(n, d);
    Divided(k, d);
    PartOfRound(n, d, j);
    MovedIs(k, j);
    Swapped(j, d, q);
    LeadOfRounds(n, q);
  }

  /** The first part of a round that is whole. */
  lemma {:induction false} FirstReturn(n: nat, k: nat, j: nat) returns (first: nat)
    requires 0 < j && n > 0 && Lead(n, Moved(0, k, j)) == 0
    ensures 0 < first <= j && Lead(n, Moved(0, k, first)) == 0
    ensures forall i :: 0 < i < first ==> Lead(n, Moved(0, k, i)) != 0
    decreases j
  {
    hide Lead, Moved;
    if i :| 0 < i < j && Lead(n, Moved(0, k, i)) == 0 {
      first := FirstReturn(n, k, i);
    } else {
      first := j;
    }
  }

  /** Taking whole rounds away leaves whole rounds. */
  lemma LessIsWhole(n: nat, a: nat, b: nat)
    requires n > 0 && a <= b && Lead(n, a) == 0 && Lead(n, b) == 0
    ensures Lead(n, b - a) == 0
  {
    hide Lead;
    LeadSame(n, a, b);
  }

  lemma {:induction false} MultipleIsWhole(n: nat, a: nat, q: nat)
    requires n > 0 && Lead(n, a) == 0
    ensures Lead(n, a * q) == 0
  {
    hide Lead;
    var r := Rounds(n, a);
    assert a * q == n * (r * q);
    LeadOfRounds(n, r * q);
  }

  /** The first return divides the round. */
  lemma FirstReturnDivides(n: nat, k: nat, first: nat)
    requires n > 0 && 0 < first && Lead(n, Moved(0, k, first)) == 0
    requires forall i :: 0 < i < first ==> Lead(n, Moved(0, k, i)) != 0
    ensures n % first == 0
  {
    hide Lead, Moved;
    var q, r := n / first, n % first;
    Quotient(n, first);
    var whole, part := Moved(0, k, n), Moved(0, k, first * q);
    MovedIs(k, n);
    MovedIs(k, first);
    MovedIs(k, first * q);
    Reordered(first, q, k);
    MovedOn(0, k, first * q, r);
    LeadOfRounds(n, k);
    MultipleIsWhole(n, first * k, q);
    LessIsWhole(n, part, whole);
  }

  lemma Quotient(n: nat, j: nat)
    requires j > 0
    ensures n == j * (n / j) + n % j && 0 <= n % j < j && n / j >= 0 && j * (n / j) >= 0
  {
  }

  lemma Reordered(a: int, b: int, c: int)
    ensures (a * b) * c == (a * c) * b
  {
  }

  /** What `j` tries bring back to the start, `n / j` divides. */
  lemma ReturnDivides(n: nat, k: nat, j: nat)
    requires n > 0 && 0 < j < n && n % j == 0 && Lead(n, Moved(0, k, j)) == 0
    ensures n / j > 1 && n % (n / j) == 0 && k % (n / j) == 0
  {
    hide Lead, Moved;
    var d := n / j;
    Divided(n, j);
    BiggerPart(n, j, d);
    DivisorOf(n, d, j);
    var q := Rounds(n, Moved(0, k, j));
    MovedIs(k, j);
    Reordered(j, d, q);
    Swapped(j, d, q);
    Commutes(j, d);
    Cancels(j, k, d * q);
    DivisorOf(k, d, q);
  }

  lemma BiggerPart(n: nat, j: nat, d: nat)
    requires 0 < j < n && n == j * d
    ensures d > 1
  {
    assert j * 0 == 0 && j * 1 == j;
  }

  lemma Commutes(a: int, b: int)
    ensures a * b == b * a
  {
  }

  lemma DivisorOf(x: nat, d: nat, q: nat)
    requires d > 0 && x == d * q
    ensures x % d == 0
  {
    hide Lead;
    LeadOfRounds(d, q);
    LeadIsRest(d, x);
  }

  lemma LeadIsRest(d: nat, x: nat)
    requires d > 0
    ensures Lead(d, x) == x % d
  {
  }

  lemma Cancels(j: nat, x: nat, y: nat)
    requires j > 0 && j * x == j * y
    ensures x == y
  {
    RoundsGrow(j, x, y);
    RoundsGrow(j, y, x);
  }

  /** That is to have no divisor in common. */
  lemma CoprimeIff(n: nat, k: nat)
    requires n > 0
    ensures Coprime(n, k) <==> forall d :: d > 1 && n % d == 0 ==> k % d != 0
  {
    hide Lead, Moved;
    if Coprime(n, k) {
      forall d | d > 1 && n % d == 0
        ensures k % d != 0
      {
        if k % d == 0 {
          CommonDivisorReturns(n, k, d);
        }
      }
    } else {
      var j :| 0 < j < n && Lead(n, Moved(0, k, j)) == 0;
      var first := FirstReturn(n, k, j);
      FirstReturnDivides(n, k, first);
      ReturnDivides(n, k, first);
    }
  }

  lemma CoprimeToOne(n: nat)
    ensures Coprime(n, 1)
  {
    forall j | 0 < j < n
      ensures Lead(n, Moved(0, 1, j)) != 0
    {
      LeadIs(n, j, 0, j);
    }
  }

  lemma {:induction false} FirstsSplit(n: nat, i: nat, c: nat, k: nat, a: nat, b: nat)
    requires i < n
    ensures Firsts(n, i, c, k, a + b) == Firsts(n, i, c, k, a) + Firsts(n, i, Moved(c, k, a), k, b)
    decreases b
  {
    hide Lead, Moved;
    if b > 0 {
      FirstsSplit(n, i, c, k, a, b - 1);
      MovedOn(c, k, a, b - 1);
    }
  }

  /** A survivor that led did so at some resolve. */
  lemma {:induction false} LedAt(n: nat, i: nat, c: nat, k: nat, m: nat) returns (j: nat)
    requires i < n && Firsts(n, i, c, k, m) > 0
    ensures j < m && Lead(n, Moved(c, k, j)) == i
    decreases m
  {
    hide Lead, Moved;
    if Lead(n, Moved(c, k, m - 1)) == i {
      j := m - 1;
    } else {
      j := LedAt(n, i, c, k, m - 1);
    }
  }

  lemma SameLeadApart(n: nat, c: nat, k: nat, j: nat, l: nat)
    requires n > 0 && j <= l
    ensures Lead(n, Moved(c, k, j)) == Lead(n, Moved(c, k, l)) <==> Lead(n, Moved(0, k, l - j)) == 0
  {
    hide Lead, Moved;
    MovedOn(c, k, j, l - j);
    LeadSame(n, Moved(c, k, j), Moved(c, k, l));
  }

  lemma {:induction false} AtMostOnce(n: nat, i: nat, c: nat, k: nat, m: nat)
    requires i < n && m <= n && Coprime(n, k)
    ensures Firsts(n, i, c, k, m) <= 1
    decreases m
  {
    hide Lead, Moved;
    if m > 0 {
      AtMostOnce(n, i, c, k, m - 1);
      if Firsts(n, i, c, k, m - 1) == 1 {
        var j := LedAt(n, i, c, k, m - 1);
        SameLeadApart(n, c, k, j, m - 1);
        assert Lead(n, Moved(0, k, m - 1 - j)) != 0;
      }
    }
  }

  /** The first `upto` survivors' leads together. */
  function Leads(n: nat, c: nat, k: nat, m: nat, upto: nat): nat
    requires upto <= n
  {
    if upto == 0 then 0 else Leads(n, c, k, m, upto - 1) + Firsts(n, upto - 1, c, k, m)
  }

  lemma {:induction false} OneMoreLead(n: nat, c: nat, k: nat, m: nat, upto: nat)
    requires n > 0 && m > 0 && upto <= n
    ensures Leads(n, c, k, m, upto) == Leads(n, c, k, m - 1, upto) + if Lead(n, Moved(c, k, m - 1)) < upto then 1 else 0
    decreases upto
  {
    hide Lead, Moved;
    if upto > 0 {
      OneMoreLead(n, c, k, m, upto - 1);
    }
  }

  lemma {:induction false} NoLeads(n: nat, c: nat, k: nat, upto: nat)
    requires upto <= n
    ensures Leads(n, c, k, 0, upto) == 0
  {
    if upto > 0 {
      NoLeads(n, c, k, upto - 1);
    }
  }

  /** Every resolve has one lead. */
  lemma {:induction false} LeadsAreResolves(n: nat, c: nat, k: nat, m: nat)
    requires n > 0
    ensures Leads(n, c, k, m, n) == m
    decreases m
  {
    hide Leads, Lead, Moved;
    if m == 0 {
      NoLeads(n, c, k, n);
    } else {
      LeadsAreResolves(n, c, k, m - 1);
      OneMoreLead(n, c, k, m, n);
    }
  }

  /** When none leads twice, one that does not lead is missing from the sum. */
  lemma {:induction false} LeadsMiss(n: nat, c: nat, k: nat, m: nat, upto: nat, i: nat)
    requires i < n && upto <= n && m <= n && Coprime(n, k)
    ensures Leads(n, c, k, m, upto) <= upto - if i < upto && Firsts(n, i, c, k, m) == 0 then 1 else 0
    decreases upto
  {
    hide Firsts, Coprime, Moved;
    if upto > 0 {
      LeadsMiss(n, c, k, m, upto - 1, i);
      AtMostOnce(n, upto - 1, c, k, m);
    }
  }

  /** In a whole round each survivor leads once. */
  lemma OncePerRound(n: nat, i: nat, c: nat, k: nat)
    requires i < n && Coprime(n, k)
    ensures Firsts(n, i, c, k, n) == 1
  {
    hide Firsts, Leads, Coprime, Moved;
    LeadsAreResolves(n, c, k, n);
    LeadsMiss(n, c, k, n, n, i);
    AtMostOnce(n, i, c, k, n);
  }

  /** The floor or the ceiling of `m / n`: the two whole numbers less than one away from it. */
  predicate FairShare(n: nat, m: nat, leads: nat) {
    n * leads < m + n && m < n * leads + n
  }

  lemma {:induction false} CounterIsFair(n: nat, i: nat, c: nat, k: nat, m: nat)
    requires i < n && Coprime(n, k)
    ensures FairShare(n, m, Firsts(n, i, c, k, m))
    decreases m
  {
    hide Firsts, Coprime, Moved;
    if m < n {
      AtMostOnce(n, i, c, k, m);
      NeedsAResolve(n, i, c, k, m);
      assert n * 0 == 0 && n * 1 == n;
    } else {
      FirstsSplit(n, i, c, k, n, m - n);
      OncePerRound(n, i, c, k);
      CounterIsFair(n, i, Moved(c, k, n), k, m - n);
      var rest := Firsts(n, i, Moved(c, k, n), k, m - n);
      assert n * (1 + rest) == n + n * rest;
    }
  }

  lemma NeedsAResolve(n: nat, i: nat, c: nat, k: nat, m: nat)
    requires i < n
    ensures m == 0 ==> Firsts(n, i, c, k, m) == 0
  {
  }

  lemma {:induction false} FirstsGrow(n: nat, i: nat, c: nat, k: nat, m: nat, more: nat)
    requires i < n && m <= more
    ensures Firsts(n, i, c, k, m) <= Firsts(n, i, c, k, more)
    decreases more
  {
    if m < more {
      FirstsGrow(n, i, c, k, m, more - 1);
    }
  }

  /** Otherwise one that leads leads again before the round is over, and some other never does. */
  lemma LeadsTwice(n: nat, c: nat, k: nat)
    requires n > 0 && !Coprime(n, k)
    ensures Firsts(n, Lead(n, c), c, k, n) >= 2
  {
    hide Lead, Moved;
    var j :| 0 < j < n && Lead(n, Moved(0, k, j)) == 0;
    var i := Lead(n, c);
    SameLeadApart(n, c, k, 0, j);
    MovedNone(c, k);
    assert Firsts(n, i, c, k, 0) == 0 && Firsts(n, i, c, k, 1) == 1;
    FirstsGrow(n, i, c, k, 1, j);
    assert Firsts(n, i, c, k, j + 1) == Firsts(n, i, c, k, j) + 1;
    FirstsGrow(n, i, c, k, j + 1, n);
  }

  lemma CounterIsUnfair(n: nat, c: nat, k: nat)
    requires n > 0 && !Coprime(n, k)
    ensures !FairShare(n, n, Firsts(n, Lead(n, c), c, k, n))
  {
    hide Lead, Firsts, Coprime, Moved;
    LeadsTwice(n, c, k);
    TwiceIsTooMany(n, Firsts(n, Lead(n, c), c, k, n));
  }

  lemma TwiceIsTooMany(n: nat, leads: nat)
    requires n > 0 && leads >= 2
    ensures !FairShare(n, n, leads)
  {
    Distributes(n, 2, leads - 2);
    assert n * (leads - 2) >= 0;
  }

  // ---------------------------------------------------------------------
  // Least busy
  // ---------------------------------------------------------------------

  /** A stable insertion by load. */
  function Inserted(loads: seq<nat>, sorted: seq<nat>, i: nat): (r: seq<nat>)
    requires i < |loads| && forall k :: 0 <= k < |sorted| ==> sorted[k] < |loads|
    ensures |r| == |sorted| + 1
    ensures forall k :: 0 <= k < |r| ==> r[k] < |loads|
  {
    var n := |sorted| - 1;
    if sorted == [] then [i]
    else if loads[sorted[n]] <= loads[i] then sorted + [i]
    else Inserted(loads, sorted[..n], i) + [sorted[n]]
  }

  lemma {:induction false} InsertedPermutes(loads: seq<nat>, sorted: seq<nat>, i: nat)
    requires i < |loads| && forall k :: 0 <= k < |sorted| ==> sorted[k] < |loads|
    ensures multiset(Inserted(loads, sorted, i)) == multiset(sorted) + multiset{i}
    decreases |sorted|
  {
    var n := |sorted| - 1;
    if sorted == [] {
      assert Inserted(loads, sorted, i) == [i];
    } else if loads[sorted[n]] <= loads[i] {
      assert Inserted(loads, sorted, i) == sorted + [i];
    } else {
      InsertedPermutes(loads, sorted[..n], i);
      var rest := Inserted(loads, sorted[..n], i);
      assert Inserted(loads, sorted, i) == rest + [sorted[n]];
      hide Inserted;
      assert multiset(rest + [sorted[n]]) == multiset(rest) + multiset{sorted[n]};
      assert sorted == sorted[..n] + [sorted[n]];
    }
  }

  /** The positions, least loaded first, ties in the order given. */
  function ByLoad(loads: seq<nat>, idx: seq<nat>): (r: seq<nat>)
    requires forall k :: 0 <= k < |idx| ==> idx[k] < |loads|
    ensures |r| == |idx|
    ensures forall k :: 0 <= k < |r| ==> r[k] < |loads|
  {
    if idx == [] then [] else Inserted(loads, ByLoad(loads, idx[..|idx| - 1]), idx[|idx| - 1])
  }

  predicate Sorted(loads: seq<nat>, idx: seq<nat>)
    requires forall k :: 0 <= k < |idx| ==> idx[k] < |loads|
  {
    forall j, k :: 0 <= j < k < |idx| ==> loads[idx[j]] <= loads[idx[k]]
  }

  predicate AtMost(loads: seq<nat>, idx: seq<nat>, bound: nat)
    requires forall k :: 0 <= k < |idx| ==> idx[k] < |loads|
  {
    forall k :: 0 <= k < |idx| ==> loads[idx[k]] <= bound
  }

  lemma SortedSnoc(loads: seq<nat>, idx: seq<nat>, i: nat)
    requires i < |loads| && forall k :: 0 <= k < |idx| ==> idx[k] < |loads|
    requires Sorted(loads, idx) && AtMost(loads, idx, loads[i])
    ensures Sorted(loads, idx + [i])
  {
  }

  lemma SortedBound(loads: seq<nat>, idx: seq<nat>)
    requires idx != [] && forall k :: 0 <= k < |idx| ==> idx[k] < |loads|
    requires Sorted(loads, idx)
    ensures AtMost(loads, idx, loads[idx[|idx| - 1]])
    ensures Sorted(loads, idx[..|idx| - 1])
    ensures AtMost(loads, idx[..|idx| - 1], loads[idx[|idx| - 1]])
  {
  }

  lemma {:induction false} InsertedIsSorted(loads: seq<nat>, sorted: seq<nat>, i: nat, bound: nat)
    requires i < |loads| && forall k :: 0 <= k < |sorted| ==> sorted[k] < |loads|
    requires Sorted(loads, sorted)
    requires loads[i] <= bound && AtMost(loads, sorted, bound)
    ensures Sorted(loads, Inserted(loads, sorted, i))
    ensures AtMost(loads, Inserted(loads, sorted, i), bound)
    decreases |sorted|
  {
    if sorted != [] {
      hide Sorted;
      var n := |sorted| - 1;
      SortedBound(loads, sorted);
      if loads[sorted[n]] <= loads[i] {
        assert AtMost(loads, sorted, loads[i]);
        SortedSnoc(loads, sorted, i);
      } else {
        InsertedIsSorted(loads, sorted[..n], i, loads[sorted[n]]);
        SortedSnoc(loads, Inserted(loads, sorted[..n], i), sorted[n]);
      }
    }
  }

  function Highest(loads: seq<nat>): nat {
    if loads == [] then 0
    else
      var rest := Highest(loads[..|loads| - 1]);
      if rest < loads[|loads| - 1] then loads[|loads| - 1] else rest
  }

  lemma {:induction false} HighestBounds(loads: seq<nat>)
    ensures forall k :: 0 <= k < |loads| ==> loads[k] <= Highest(loads)
  {
    if loads != [] {
      HighestBounds(loads[..|loads| - 1]);
    }
  }

  /** The order is sorted by load. */
  lemma {:induction false} ByLoadSorts(loads: seq<nat>, idx: seq<nat>)
    requires forall k :: 0 <= k < |idx| ==> idx[k] < |loads|
    ensures Sorted(loads, ByLoad(loads, idx))
    decreases |idx|
  {
    hide Sorted, AtMost, Inserted;
    if idx == [] {
      SortedNone(loads);
    } else {
      var n := |idx| - 1;
      ByLoadSorts(loads, idx[..n]);
      HighestAtMost(loads, ByLoad(loads, idx[..n]), idx[n]);
      InsertedIsSorted(loads, ByLoad(loads, idx[..n]), idx[n], Highest(loads));
    }
  }

  lemma SortedNone(loads: seq<nat>)
    ensures Sorted(loads, [])
  {
  }

  lemma HighestAtMost(loads: seq<nat>, idx: seq<nat>, i: nat)
    requires i < |loads| && forall k :: 0 <= k < |idx| ==> idx[k] < |loads|
    ensures AtMost(loads, idx, Highest(loads)) && loads[i] <= Highest(loads)
  {
    HighestBounds(loads);
  }

  /** The order holds each position as often as it was given. */
  lemma {:induction false} ByLoadPermutes(loads: seq<nat>, idx: seq<nat>)
    requires forall k :: 0 <= k < |idx| ==> idx[k] < |loads|
    ensures multiset(ByLoad(loads, idx)) == multiset(idx)
    decreases |idx|
  {
    hide Inserted;
    if idx != [] {
      var n := |idx| - 1;
      ByLoadPermutes(loads, idx[..n]);
      InsertedPermutes(loads, ByLoad(loads, idx[..n]), idx[n]);
      assert idx == idx[..n] + [idx[n]];
    }
  }

  /** Less loaded, or equally loaded and earlier in the table. */
  predicate GoesBefore(loads: seq<nat>, a: nat, b: nat)
    requires a < |loads| && b < |loads|
  {
    loads[a] < loads[b] || (loads[a] == loads[b] && a < b)
  }

  predicate Ranked(loads: seq<nat>, idx: seq<nat>)
    requires forall k :: 0 <= k < |idx| ==> idx[k] < |loads|
  {
    forall j, k :: 0 <= j < k < |idx| ==> GoesBefore(loads, idx[j], idx[k])
  }

  lemma RankedSnoc(loads: seq<nat>, idx: seq<nat>, i: nat)
    requires i < |loads| && forall k :: 0 <= k < |idx| ==> idx[k] < |loads|
    requires Ranked(loads, idx) && forall k :: 0 <= k < |idx| ==> GoesBefore(loads, idx[k], i)
    ensures Ranked(loads, idx + [i])
  {
    hide GoesBefore;
  }

  lemma RankedInit(loads: seq<nat>, idx: seq<nat>)
    requires idx != [] && forall k :: 0 <= k < |idx| ==> idx[k] < |loads|
    requires Ranked(loads, idx)
    ensures Ranked(loads, idx[..|idx| - 1])
    ensures forall k :: 0 <= k < |idx| - 1 ==> GoesBefore(loads, idx[k], idx[|idx| - 1])
  {
    hide GoesBefore;
  }

  lemma InsertedMembers(loads: seq<nat>, sorted: seq<nat>, i: nat)
    requires i < |loads| && forall k :: 0 <= k < |sorted| ==> sorted[k] < |loads|
    ensures forall x :: x in Inserted(loads, sorted, i) <==> x in sorted || x == i
  {
    InsertedPermutes(loads, sorted, i);
    hide Inserted;
    var r := Inserted(loads, sorted, i);
    forall x ensures x in r <==> x in sorted || x == i {
      assert x in r <==> x in multiset(r);
      assert x in sorted <==> x in multiset(sorted);
    }
  }

  lemma {:induction false} InsertedIsRanked(loads: seq<nat>, sorted: seq<nat>, i: nat)
    requires i < |loads| && forall k :: 0 <= k < |sorted| ==> sorted[k] < i
    requires Ranked(loads, sorted)
    ensures Ranked(loads, Inserted(loads, sorted, i))
    decreases |sorted|
  {
    if sorted != [] {
      hide Ranked;
      var n := |sorted| - 1;
      RankedInit(loads, sorted);
      if loads[sorted[n]] <= loads[i] {
        RankedSnoc(loads, sorted, i);
      } else {
        var r := Inserted(loads, sorted[..n], i);
        InsertedIsRanked(loads, sorted[..n], i);
        InsertedMembers(loads, sorted[..n], i);
        forall k | 0 <= k < |r|
          ensures GoesBefore(loads, r[k], sorted[n])
        {
          assert r[k] in r;
        }
        RankedSnoc(loads, r, sorted[n]);
      }
    }
  }

  /** The order is stable: survivors come from the table in its order, and ties keep it. */
  lemma {:induction false} ByLoadIsStable(loads: seq<nat>, idx: seq<nat>)
    requires forall k :: 0 <= k < |idx| ==> idx[k] < |loads|
    requires forall j, k :: 0 <= j < k < |idx| ==> idx[j] < idx[k]
    ensures Ranked(loads, ByLoad(loads, idx))
    decreases |idx|
  {
    hide Ranked, Inserted;
    if idx == [] {
      RankedNone(loads);
    } else {
      var n := |idx| - 1;
      ByLoadIsStable(loads, idx[..n]);
      var before := ByLoad(loads, idx[..n]);
      ByLoadPermutes(loads, idx[..n]);
      forall k | 0 <= k < n
        ensures before[k] < idx[n]
      {
        assert before[k] in multiset(before);
        var j :| 0 <= j < n && idx[..n][j] == before[k];
        assert idx[j] == before[k];
      }
      InsertedIsRanked(loads, before, idx[n]);
    }
  }

  lemma RankedNone(loads: seq<nat>)
    ensures Ranked(loads, [])
  {
  }

  predicate Level(loads: seq<nat>, idx: seq<nat>)
    requires forall k :: 0 <= k < |idx| ==> idx[k] < |loads|
  {
    forall j, k :: 0 <= j < |idx| && 0 <= k < |idx| ==> loads[idx[j]] <= loads[idx[k]] + 1
  }

  /** The head of the order is one of the positions, and none of them has less load. */
  lemma HeadIsLeast(loads: seq<nat>, idx: seq<nat>)
    requires idx != [] && forall k :: 0 <= k < |idx| ==> idx[k] < |loads|
    ensures ByLoad(loads, idx)[0] in idx
    ensures forall k :: 0 <= k < |idx| ==> loads[ByLoad(loads, idx)[0]] <= loads[idx[k]]
  {
    hide ByLoad;
    ByLoadSorts(loads, idx);
    ByLoadPermutes(loads, idx);
    var r := ByLoad(loads, idx);
    assert r[0] in multiset(r);
    forall k | 0 <= k < |idx|
      ensures loads[r[0]] <= loads[idx[k]]
    {
      assert idx[k] in multiset(idx);
      assert idx[k] in multiset(r);
      var j :| 0 <= j < |r| && r[j] == idx[k];
    }
  }

  /** Counting one more on the least loaded of level positions leaves them level. */
  lemma LeastKeepsLevel(loads: seq<nat>, idx: seq<nat>)
    requires idx != [] && (forall k :: 0 <= k < |idx| ==> idx[k] < |loads|) && Level(loads, idx)
    ensures var first := ByLoad(loads, idx)[0];
            Level(loads[first := loads[first] + 1], idx)
  {
    hide ByLoad;
    HeadIsLeast(loads, idx);
  }
}
