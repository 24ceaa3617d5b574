/** Where one sequence stands inside another. */
module Search {

  predicate OccursAt<T(==)>(hay: seq<T>, needle: seq<T>, p: nat) {
    p + |needle| <= |hay| && hay[p..p + |needle|] == needle
  }

  predicate Contains<T(==)>(hay: seq<T>, needle: seq<T>) {
    exists p :: 0 <= p <= |hay| && OccursAt(hay, needle, p)
  }

  lemma OccursWithin<T>(hay: seq<T>, needle: seq<T>, p: nat)
    requires OccursAt(hay, needle, p)
    ensures p + |needle| <= |hay|
  {
  }

  /** Nothing that holds an element the needle lacks can be part of one. */
  lemma NotAcross<T>(hay: seq<T>, needle: seq<T>, q: nat, i: nat)
    requires q <= i < q + |needle| && i < |hay|
    requires hay[i] !in needle
    ensures !OccursAt(hay, needle, q)
  {
    if q + |needle| <= |hay| {
      assert hay[q..q + |needle|][i - q] == hay[i];
    }
  }

  lemma ContainsAt<T>(hay: seq<T>, needle: seq<T>, p: nat)
    requires OccursAt(hay, needle, p)
    ensures Contains(hay, needle)
  {
  }

  lemma {:induction false} OccursInLeft<T>(a: seq<T>, b: seq<T>, needle: seq<T>, p: nat)
    requires p + |needle| <= |a|
    ensures OccursAt(a + b, needle, p) == OccursAt(a, needle, p)
  {
    assert (a + b)[p..p + |needle|] == a[p..p + |needle|];
  }

  lemma {:induction false} OccursInRight<T>(a: seq<T>, b: seq<T>, needle: seq<T>, p: nat)
    ensures OccursAt(a + b, needle, |a| + p) == OccursAt(b, needle, p)
  {
    if p + |needle| <= |b| {
      assert (a + b)[|a| + p..|a| + p + |needle|] == b[p..p + |needle|];
    }
  }

  /** What either half contains the whole contains. */
  lemma ContainsMore<T>(a: seq<T>, b: seq<T>, needle: seq<T>)
    ensures Contains(a, needle) || Contains(b, needle) ==> Contains(a + b, needle)
  {
    hide OccursAt;
    if Contains(a, needle) {
      var p :| 0 <= p <= |a| && OccursAt(a, needle, p);
      OccursWithin(a, needle, p);
      OccursInLeft(a, b, needle, p);
      ContainsAt(a + b, needle, p);
    }
    if Contains(b, needle) {
      var p :| 0 <= p <= |b| && OccursAt(b, needle, p);
      OccursInRight(a, b, needle, p);
      ContainsAt(a + b, needle, |a| + p);
    }
  }

  /** A seam that the needle cannot cross. */
  ghost predicate Seam<T>(a: seq<T>, b: seq<T>, needle: seq<T>) {
    a == [] || b == [] || a[|a| - 1] !in needle || b[0] !in needle
  }

  lemma ContainsJoined<T>(a: seq<T>, b: seq<T>, needle: seq<T>)
    requires needle != [] && Seam(a, b, needle)
    ensures Contains(a + b, needle) <==> Contains(a, needle) || Contains(b, needle)
  {
    hide OccursAt;
    ContainsMore(a, b, needle);
    if Contains(a + b, needle) {
      var p :| 0 <= p <= |a + b| && OccursAt(a + b, needle, p);
      OccursWithin(a + b, needle, p);
      if p + |needle| <= |a| {
        OccursInLeft(a, b, needle, p);
        ContainsAt(a, needle, p);
      } else if p >= |a| {
        OccursInRight(a, b, needle, p - |a|);
        ContainsAt(b, needle, p - |a|);
      } else {
        assert (a + b)[|a| - 1] == a[|a| - 1] && (a + b)[|a|] == b[0];
        if a[|a| - 1] !in needle {
          NotAcross(a + b, needle, p, |a| - 1);
        } else {
          NotAcross(a + b, needle, p, |a|);
        }
        assert false;
      }
    }
  }

  /** The needle is at the head or further on. */
  lemma ContainsFront<T>(s: seq<T>, needle: seq<T>)
    requires s != []
    ensures Contains(s, needle) <==> needle <= s || Contains(s[1..], needle)
  {
    hide OccursAt;
    assert s == [s[0]] + s[1..];
    AtHead(s, needle);
    ContainsMore([s[0]], s[1..], needle);
    if Contains(s, needle) {
      var p :| 0 <= p <= |s| && OccursAt(s, needle, p);
      if p > 0 {
        OccursInRight([s[0]], s[1..], needle, p - 1);
        ContainsAt(s[1..], needle, p - 1);
      }
    }
    if needle <= s {
      ContainsAt(s, needle, 0);
    }
  }

  lemma AtHead<T>(s: seq<T>, needle: seq<T>)
    ensures OccursAt(s, needle, 0) <==> needle <= s
  {
  }

  /** A sequence without the needle's first element, or too short, does not contain it. */
  lemma ContainsNot<T>(s: seq<T>, needle: seq<T>)
    requires needle != [] && (needle[0] !in s || |s| < |needle|)
    ensures !Contains(s, needle)
  {
    forall p: nat | p + |needle| <= |s|
      ensures !OccursAt(s, needle, p)
    {
      assert s[p..p + |needle|][0] == s[p];
    }
  }

  /** Nor does one that lacks some element of it. */
  lemma ContainsLacks<T>(s: seq<T>, needle: seq<T>, x: T)
    requires x in needle && x !in s
    ensures !Contains(s, needle)
  {
    var k :| 0 <= k < |needle| && needle[k] == x;
    forall p: nat | p + |needle| <= |s|
      ensures !OccursAt(s, needle, p)
    {
      assert s[p..p + |needle|][k] == s[p + k];
    }
  }

  lemma NowhereIn<T>(hay: seq<T>, needle: seq<T>, p: nat)
    requires !Contains(hay, needle)
    ensures !OccursAt(hay, needle, p)
  {
  }
}
