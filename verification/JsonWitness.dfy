/**
 A codec that is `Lawful` and `Plain`, so that what is proved of such codecs is
 proved of something: values are written over the digits 0 to 6, words as they stand
 and other characters in digits, so that no value's text begins another's.
 */
module JsonWitness {
  import opened Prelude
  import opened Search
  import opened Json

  function Unary(n: nat): string {
    if n == 0 then "0" else "1" + Unary(n - 1)
  }

  function CharText(c: char): string {
    if IsWordChar(c) then [c] else Unary(c as int)
  }

  function Text(s: string): string {
    if s == "" then "2" else CharText(s[0]) + Text(s[1..])
  }

  function Tag(v: Value): char {
    match v
    case Null => '0'
    case Bool(_) => '1'
    case Int(_) => '2'
    case Float(_) => '3'
    case Str(_) => '4'
    case Arr(_) => '5'
    case Obj(_) => '6'
  }

  ghost function Pick(keys: set<string>): (k: string)
    requires keys != {}
    ensures k in keys
  {
    var k :| k in keys;
    k
  }

  ghost function Show(v: Value): string
    decreases v, 1, 0
  {
    [Tag(v)] +
    match v
    case Null => ""
    case Bool(b) => if b then "1" else "0"
    case Int(n) => if n < 0 then "1" + Unary(-n) else "0" + Unary(n)
    case Float(literal) => Text(literal)
    case Str(s) => Text(s)
    case Arr(_) => Items(v, 0)
    case Obj(fields) => Fields(v, fields.Keys)
  }

  ghost function Items(v: Value, i: nat): string
    requires v.Arr? && i <= |v.items|
    decreases v, 0, |v.items| - i
  {
    if i == |v.items| then "0" else "1" + (Show(v.items[i]) + Items(v, i + 1))
  }

  ghost function Fields(v: Value, keys: set<string>): string
    requires v.Obj? && keys <= v.fields.Keys
    decreases v, 0, |keys|
  {
    if keys == {} then "0"
    else
      var k := Pick(keys);
      "1" + (Text(k) + (Show(v.fields[k]) + Fields(v, keys - {k})))
  }

  // ---------------------------------------------------------------------
  // No text begins another
  // ---------------------------------------------------------------------

  lemma SameHead(a: string, b: string, x: string, y: string)
    requires |a| == |b| == 1 && a + x == b + y
    ensures a == b && x == y
  {
    assert (a + x)[0] == a[0] && (b + y)[0] == b[0];
    assert (a + x)[1..] == x && (b + y)[1..] == y;
  }

  lemma {:induction false} UnaryPrefix(n: nat, m: nat, x: string, y: string)
    requires Unary(n) + x == Unary(m) + y
    ensures n == m && x == y
  {
    var a, p := if n == 0 then "0" else "1", if n == 0 then "" else Unary(n - 1);
    var b, q := if m == 0 then "0" else "1", if m == 0 then "" else Unary(m - 1);
    assert Unary(n) == a + p && Unary(m) == b + q;
    ConcatAssoc(a, p, x);
    ConcatAssoc(b, q, y);
    SameHead(a, b, p + x, q + y);
    if n > 0 {
      UnaryPrefix(n - 1, m - 1, x, y);
    } else {
      assert p + x == x && q + y == y;
    }
  }

  lemma UnaryHead(n: nat)
    ensures Unary(n) != "" && (Unary(n)[0] == '0' || Unary(n)[0] == '1')
  {
  }

  /** A character's text tells it from every other, and from the end of a text. */
  lemma CharPrefix(c: char, d: char, x: string, y: string)
    requires CharText(c) + x == CharText(d) + y
    ensures c == d && x == y
  {
    hide Unary;
    UnaryHead(c as int);
    UnaryHead(d as int);
    assert (CharText(c) + x)[0] == CharText(c)[0] && (CharText(d) + y)[0] == CharText(d)[0];
    if IsWordChar(c) {
      SameHead([c], [d], x, y);
    } else {
      UnaryPrefix(c as int, d as int, x, y);
    }
  }

  lemma TextHead(s: string)
    ensures Text(s) != "" && (s == "" <==> Text(s)[0] == '2')
  {
    if s != "" {
      UnaryHead(s[0] as int);
      assert Text(s)[0] == CharText(s[0])[0];
    }
  }

  lemma {:induction false} TextPrefix(s: string, t: string, x: string, y: string)
    requires Text(s) + x == Text(t) + y
    ensures s == t && x == y
    decreases |s|
  {
    hide Unary, CharText;
    TextHead(s);
    TextHead(t);
    assert (Text(s) + x)[0] == Text(s)[0] && (Text(t) + y)[0] == Text(t)[0];
    if s == "" {
      SameHead("2", "2", x, y);
    } else {
      ConcatAssoc(CharText(s[0]), Text(s[1..]), x);
      ConcatAssoc(CharText(t[0]), Text(t[1..]), y);
      CharPrefix(s[0], t[0], Text(s[1..]) + x, Text(t[1..]) + y);
      TextPrefix(s[1..], t[1..], x, y);
      assert s == [s[0]] + s[1..] && t == [t[0]] + t[1..];
    }
  }

  /** The text after the tag. */
  ghost function Body(v: Value): string {
    Show(v)[1..]
  }

  lemma ShowIsTagged(v: Value)
    ensures Show(v) == [Tag(v)] + Body(v)
  {
  }

  lemma {:induction false} ShowPrefix(v: Value, w: Value, x: string, y: string)
    requires Show(v) + x == Show(w) + y
    ensures v == w && x == y
    decreases v, 1, 0
  {
    hide Unary, Text, Items, Fields;
    ShowIsTagged(v);
    ShowIsTagged(w);
    ConcatAssoc([Tag(v)], Body(v), x);
    ConcatAssoc([Tag(w)], Body(w), y);
    SameHead([Tag(v)], [Tag(w)], Body(v) + x, Body(w) + y);
    match v
    case Null =>
      assert Body(v) + x == x && Body(w) + y == y;
    case Bool(b) =>
      SameHead(Body(v), Body(w), x, y);
    case Int(n) =>
      IntPrefix(n, w.n, x, y);
    case Float(literal) =>
      TextPrefix(literal, w.literal, x, y);
    case Str(s) =>
      TextPrefix(s, w.s, x, y);
    case Arr(items) =>
      ItemsPrefix(v, 0, w, 0, x, y);
      assert v.items[0..] == v.items && w.items[0..] == w.items;
    case Obj(fields) =>
      FieldsPrefix(v, fields.Keys, w, w.fields.Keys, x, y);
      assert v.fields == w.fields;
  }

  lemma IntPrefix(n: int, m: int, x: string, y: string)
    requires (if n < 0 then "1" + Unary(-n) else "0" + Unary(n)) + x == (if m < 0 then "1" + Unary(-m) else "0" + Unary(m)) + y
    ensures n == m && x == y
  {
    hide Unary;
    var a, p := if n < 0 then "1" else "0", if n < 0 then -n else n;
    var b, q := if m < 0 then "1" else "0", if m < 0 then -m else m;
    ConcatAssoc(a, Unary(p), x);
    ConcatAssoc(b, Unary(q), y);
    SameHead(a, b, Unary(p) + x, Unary(q) + y);
    UnaryPrefix(p, q, x, y);
  }

  lemma {:induction false} ItemsPrefix(v: Value, i: nat, w: Value, j: nat, x: string, y: string)
    requires v.Arr? && i <= |v.items| && w.Arr? && j <= |w.items|
    requires Items(v, i) + x == Items(w, j) + y
    ensures v.items[i..] == w.items[j..] && x == y
    decreases v, 0, |v.items| - i
  {
    hide Show;
    var more, less := i < |v.items|, j < |w.items|;
    var a, p := if more then "1" else "0", if more then Show(v.items[i]) + Items(v, i + 1) else "";
    var b, q := if less then "1" else "0", if less then Show(w.items[j]) + Items(w, j + 1) else "";
    assert Items(v, i) == a + p && Items(w, j) == b + q;
    ConcatAssoc(a, p, x);
    ConcatAssoc(b, q, y);
    SameHead(a, b, p + x, q + y);
    if more {
      ConcatAssoc(Show(v.items[i]), Items(v, i + 1), x);
      ConcatAssoc(Show(w.items[j]), Items(w, j + 1), y);
      ShowPrefix(v.items[i], w.items[j], Items(v, i + 1) + x, Items(w, j + 1) + y);
      ItemsPrefix(v, i + 1, w, j + 1, x, y);
      assert v.items[i..] == [v.items[i]] + v.items[i + 1..];
      assert w.items[j..] == [w.items[j]] + w.items[j + 1..];
    } else {
      assert p + x == x && q + y == y;
    }
  }

  lemma {:induction false} FieldsPrefix(v: Value, ks: set<string>, w: Value, ls: set<string>, x: string, y: string)
    requires v.Obj? && ks <= v.fields.Keys && w.Obj? && ls <= w.fields.Keys
    requires Fields(v, ks) + x == Fields(w, ls) + y
    ensures ks == ls && x == y
    ensures forall k :: k in ks ==> v.fields[k] == w.fields[k]
    decreases v, 0, |ks|
  {
    hide Show, Text, Fields, FieldsTail;
    var more, less := ks != {}, ls != {};
    var a, b := if more then "1" else "0", if less then "1" else "0";
    var p, q := FieldsTail(v, ks), FieldsTail(w, ls);
    FieldsParts(v, ks);
    FieldsParts(w, ls);
    ConcatAssoc(a, p, x);
    ConcatAssoc(b, q, y);
    SameHead(a, b, p + x, q + y);
    if more {
      var k, l := Pick(ks), Pick(ls);
      TailParts(v, ks, x);
      TailParts(w, ls, y);
      TextPrefix(k, l, Show(v.fields[k]) + (Fields(v, ks - {k}) + x), Show(w.fields[l]) + (Fields(w, ls - {l}) + y));
      ShowPrefix(v.fields[k], w.fields[l], Fields(v, ks - {k}) + x, Fields(w, ls - {l}) + y);
      FieldsPrefix(v, ks - {k}, w, ls - {l}, x, y);
      assert ks == (ks - {k}) + {k} && ls == (ls - {l}) + {l};
    } else {
      NoTail(v, ks);
      NoTail(w, ls);
      assert p + x == x && q + y == y;
    }
  }

  lemma NoTail(v: Value, keys: set<string>)
    requires v.Obj? && keys <= v.fields.Keys && keys == {}
    ensures FieldsTail(v, keys) == ""
  {
  }

  lemma FieldsParts(v: Value, keys: set<string>)
    requires v.Obj? && keys <= v.fields.Keys
    ensures Fields(v, keys) == (if keys != {} then "1" else "0") + FieldsTail(v, keys)
  {
    hide Show, Text;
  }

  ghost function FieldsTail(v: Value, keys: set<string>): string
    requires v.Obj? && keys <= v.fields.Keys
  {
    if keys == {} then ""
    else
      var k := Pick(keys);
      Text(k) + (Show(v.fields[k]) + Fields(v, keys - {k}))
  }

  lemma TailParts(v: Value, keys: set<string>, x: string)
    requires v.Obj? && keys <= v.fields.Keys && keys != {}
    ensures var k := Pick(keys);
            FieldsTail(v, keys) + x == Text(k) + (Show(v.fields[k]) + (Fields(v, keys - {k}) + x))
  {
    hide Show, Text, Fields;
    var k := Pick(keys);
    ConcatAssoc(Text(k), Show(v.fields[k]) + Fields(v, keys - {k}), x);
    ConcatAssoc(Show(v.fields[k]), Fields(v, keys - {k}), x);
  }

  // ---------------------------------------------------------------------
  // Digits and words only
  // ---------------------------------------------------------------------

  predicate Tidy(s: string) {
    forall i :: 0 <= i < |s| ==> '0' <= s[i] <= '6' || IsWordChar(s[i])
  }

  lemma {:induction false} UnaryDigits(n: nat)
    ensures forall i :: 0 <= i < |Unary(n)| ==> Unary(n)[i] == '0' || Unary(n)[i] == '1'
  {
    if n > 0 {
      UnaryDigits(n - 1);
    }
  }

  lemma {:induction false} TextTidy(s: string)
    ensures Tidy(Text(s)) && Text(s)[|Text(s)| - 1] == '2'
  {
    if s != "" {
      UnaryDigits(s[0] as int);
      TextTidy(s[1..]);
    }
  }

  lemma {:induction false} ShowTidy(v: Value)
    ensures Tidy(Show(v)) && '0' <= Show(v)[|Show(v)| - 1] <= '6'
    decreases v, 1, 0
  {
    hide Unary, Text, Items, Fields;
    match v
    case Null =>
    case Bool(_) =>
    case Int(n) => UnaryDigits(if n < 0 then -n else n);
    case Float(literal) => TextTidy(literal);
    case Str(s) => TextTidy(s);
    case Arr(_) => ItemsTidy(v, 0);
    case Obj(fields) => FieldsTidy(v, fields.Keys);
  }

  lemma {:induction false} ItemsTidy(v: Value, i: nat)
    requires v.Arr? && i <= |v.items|
    ensures Tidy(Items(v, i)) && Items(v, i) != "" && '0' <= Items(v, i)[|Items(v, i)| - 1] <= '6'
    decreases v, 0, |v.items| - i
  {
    if i < |v.items| {
      ShowTidy(v.items[i]);
      ItemsTidy(v, i + 1);
    }
  }

  lemma {:induction false} FieldsTidy(v: Value, keys: set<string>)
    requires v.Obj? && keys <= v.fields.Keys
    ensures Tidy(Fields(v, keys)) && Fields(v, keys) != ""
            && '0' <= Fields(v, keys)[|Fields(v, keys)| - 1] <= '6'
    decreases v, 0, |keys|
  {
    if keys != {} {
      var k := Pick(keys);
      TextTidy(k);
      ShowTidy(v.fields[k]);
      FieldsTidy(v, keys - {k});
    }
  }

  // ---------------------------------------------------------------------
  // Words stand as they are
  // ---------------------------------------------------------------------

  predicate AllWord(w: string) {
    w != "" && forall i :: 0 <= i < |w| ==> IsWordChar(w[i])
  }

  predicate NoWord(s: string) {
    forall i :: 0 <= i < |s| ==> !IsWordChar(s[i])
  }

  lemma NoWordContains(s: string, w: string)
    requires NoWord(s) && AllWord(w)
    ensures !Contains(s, w)
  {
    ContainsNot(s, w);
  }

  lemma {:induction false} TextBegins(s: string, w: string)
    requires forall i :: 0 <= i < |w| ==> IsWordChar(w[i])
    ensures w <= Text(s) <==> w <= s
    decreases |w|
  {
    TextHead(s);
    assert w != "" && w <= Text(s) ==> w[0] == Text(s)[0];
    if w != "" && s != "" {
      UnaryHead(s[0] as int);
      assert Text(s)[0] == CharText(s[0])[0];
      assert w <= s ==> w[0] == s[0];
      if IsWordChar(s[0]) {
        TextBegins(s[1..], w[1..]);
        assert Text(s)[1..] == Text(s[1..]);
        assert w == [w[0]] + w[1..];
        assert w <= Text(s) <==> w[0] == Text(s)[0] && w[1..] <= Text(s)[1..];
        assert w <= s <==> w[0] == s[0] && w[1..] <= s[1..];
      }
    }
  }

  lemma {:induction false} TextContains(s: string, w: string)
    requires AllWord(w)
    ensures Contains(Text(s), w) <==> Contains(s, w)
    decreases |s|
  {
    if s == "" {
      NoWordContains("2", w);
      NoWordContains("", w);
    } else {
      TextContains(s[1..], w);
      ContainsFront(s, w);
      if IsWordChar(s[0]) {
        ContainsFront(Text(s), w);
        TextBegins(s, w);
        assert Text(s)[1..] == Text(s[1..]);
      } else {
        UnaryDigits(s[0] as int);
        NoWordContains(Unary(s[0] as int), w);
        ContainsJoined(Unary(s[0] as int), Text(s[1..]), w);
      }
    }
  }

  lemma DigitJoined(a: string, b: string, w: string)
    requires AllWord(w) && |a| == 1 && !IsWordChar(a[0])
    ensures Contains(a + b, w) <==> Contains(b, w)
  {
    NoWordContains(a, w);
    ContainsJoined(a, b, w);
  }

  lemma {:induction false} ShowContains(v: Value, w: string)
    requires AllWord(w)
    ensures Contains(Show(v), w) <==> Mentions(v, w)
    decreases v, 1, 0
  {
    hide Unary, Text, Items, Fields;
    ShowIsTagged(v);
    DigitJoined([Tag(v)], Body(v), w);
    match v
    case Null => NoWordContains(Body(v), w);
    case Bool(_) => NoWordContains(Body(v), w);
    case Int(n) =>
      UnaryDigits(if n < 0 then -n else n);
      NoWordContains(Body(v), w);
    case Float(literal) => TextContains(literal, w);
    case Str(s) => TextContains(s, w);
    case Arr(_) => ItemsContain(v, 0, w);
    case Obj(fields) => FieldsContain(v, fields.Keys, w);
  }

  lemma {:induction false} ItemsContain(v: Value, i: nat, w: string)
    requires v.Arr? && i <= |v.items| && AllWord(w)
    ensures Contains(Items(v, i), w) <==> exists j :: i <= j < |v.items| && Mentions(v.items[j], w)
    decreases v, 0, |v.items| - i
  {
    hide Show, Contains, Mentions;
    if i == |v.items| {
      NoWordContains("0", w);
    } else {
      ShowContains(v.items[i], w);
      ItemsContain(v, i + 1, w);
      ShowTidy(v.items[i]);
      DigitJoined("1", Show(v.items[i]) + Items(v, i + 1), w);
      ContainsJoined(Show(v.items[i]), Items(v, i + 1), w);
    }
  }

  lemma {:induction false} FieldsContain(v: Value, keys: set<string>, w: string)
    requires v.Obj? && keys <= v.fields.Keys && AllWord(w)
    ensures Contains(Fields(v, keys), w) <==> exists k :: k in keys && (Contains(k, w) || Mentions(v.fields[k], w))
    decreases v, 0, |keys|
  {
    hide Show, Contains, Mentions, Text;
    if keys == {} {
      NoWordContains("0", w);
    } else {
      var k := Pick(keys);
      var rest := Fields(v, keys - {k});
      TextContains(k, w);
      ShowContains(v.fields[k], w);
      FieldsContain(v, keys - {k}, w);
      TextTidy(k);
      ShowTidy(v.fields[k]);
      DigitJoined("1", Text(k) + (Show(v.fields[k]) + rest), w);
      ContainsJoined(Text(k), Show(v.fields[k]) + rest, w);
      ContainsJoined(Show(v.fields[k]), rest, w);
      assert forall l :: l in keys <==> l == k || l in keys - {k};
    }
  }

  // ---------------------------------------------------------------------
  // The codec
  // ---------------------------------------------------------------------

  ghost function Parse(s: string): Option<Value> {
    if exists v :: Show(v) == s then
      var v :| Show(v) == s;
      Some(v)
    else None
  }

  lemma ParseShown(v: Value)
    ensures Parse(Show(v)) == Some(v)
  {
    hide Show;
    var w := Parse(Show(v)).value;
    assert Show(w) + "" == Show(v) + "";
    ShowPrefix(w, v, "", "");
  }

  lemma ShownIsOneLine(v: Value)
    ensures OneLine(Show(v)) && !Blank(Show(v))
  {
    ShowTidy(v);
    var s := Show(v);
    assert |s| > 0 && !IsSpace(s[0]) && !IsSpace(s[|s| - 1]);
  }

  lemma LawfulCodecExists() returns (c: Codec)
    ensures Lawful(c) && Plain(c)
  {
    hide Show, Contains, Mentions;
    c := Codec((v: Value) => Show(v), (s: string) => Parse(s));
    forall v
      ensures c.parse(c.show(v)) == Some(v) && OneLine(c.show(v))
    {
      ParseShown(v);
      ShownIsOneLine(v);
    }
    forall s | Blank(s)
      ensures c.parse(s) == None
    {
      if Parse(s).Some? {
        ShownIsOneLine(Parse(s).value);
      }
    }
    forall v, w | IsWord(w)
      ensures Contains(c.show(v), w) <==> Mentions(v, w)
    {
      ShowContains(v, w);
    }
  }
}
