/** Text as bytes, in the encoding of section 3 of RFC 3629. */
module Utf8 {
  import opened Prelude

  type Byte = b: int | 0 <= b < 256

  function EncodeChar(c: char): (r: seq<Byte>)
    ensures 1 <= |r| <= 4
    ensures forall i :: 0 <= i < |r| && r[i] < 0x80 ==> |r| == 1 && r[i] == c as int
  {
    var n := c as int;
    if n < 0x80 then [n]
    else if n < 0x800 then [0xC0 + n / 64, 0x80 + n % 64]
    else if n < 0x1_0000 then [0xE0 + n / 64 / 64, 0x80 + n / 64 % 64, 0x80 + n % 64]
    else [0xF0 + n / 64 / 64 / 64, 0x80 + n / 64 / 64 % 64, 0x80 + n / 64 % 64, 0x80 + n % 64]
  }

  function Encode(s: string): seq<Byte> {
    if s == [] then [] else EncodeChar(s[0]) + Encode(s[1..])
  }

  /** `String::from_utf8`: only what encodes some text can be read. */
  ghost function Decode(b: seq<Byte>): Option<string> {
    if exists s :: Encode(s) == b then
      var s :| Encode(s) == b;
      Some(s)
    else None
  }

  lemma SameParts(n: nat, m: nat)
    requires n / 64 == m / 64 && n % 64 == m % 64
    ensures n == m
  {
  }

  lemma CharIsPrefixFree(c: char, d: char)
    requires EncodeChar(c) <= EncodeChar(d)
    ensures c == d
  {
    assert EncodeChar(c)[0] == EncodeChar(d)[0];
    assert |EncodeChar(c)| == |EncodeChar(d)|;
    assert forall i :: 0 <= i < |EncodeChar(c)| ==> EncodeChar(c)[i] == EncodeChar(d)[i];
    var n, m := c as int, d as int;
    var k := |EncodeChar(c)|;
    if k == 2 {
      assert EncodeChar(c)[1] == EncodeChar(d)[1];
    } else if k == 3 {
      assert EncodeChar(c)[1] == EncodeChar(d)[1] && EncodeChar(c)[2] == EncodeChar(d)[2];
      SameParts(n / 64, m / 64);
    } else if k == 4 {
      assert EncodeChar(c)[1] == EncodeChar(d)[1] && EncodeChar(c)[2] == EncodeChar(d)[2];
      assert EncodeChar(c)[3] == EncodeChar(d)[3];
      SameParts(n / 64 / 64, m / 64 / 64);
      SameParts(n / 64, m / 64);
    }
    if k > 1 {
      SameParts(n, m);
    }
  }

  lemma {:induction false} EncodeInjective(s: string, t: string)
    requires Encode(s) == Encode(t)
    ensures s == t
    decreases |s|
  {
    if s != [] && t != [] {
      var c, d := EncodeChar(s[0]), EncodeChar(t[0]);
      if |c| <= |d| {
        assert c == Encode(s)[..|c|] && d == Encode(t)[..|d|];
        assert c <= d;
        CharIsPrefixFree(s[0], t[0]);
      } else {
        assert c == Encode(s)[..|c|] && d == Encode(t)[..|d|];
        assert d <= c;
        CharIsPrefixFree(t[0], s[0]);
      }
      assert Encode(s[1..]) == Encode(s)[|c|..];
      assert Encode(t[1..]) == Encode(t)[|d|..];
      EncodeInjective(s[1..], t[1..]);
      assert s == [s[0]] + s[1..] && t == [t[0]] + t[1..];
    }
  }

  lemma {:induction false} EncodeConcat(s: string, t: string)
    ensures Encode(s + t) == Encode(s) + Encode(t)
    decreases |s|
  {
    if s == [] {
      assert s + t == t;
    } else {
      assert (s + t)[1..] == s[1..] + t;
      EncodeConcat(s[1..], t);
    }
  }

  lemma DecodeEncoded(s: string)
    ensures Decode(Encode(s)) == Some(s)
  {
    var d := Decode(Encode(s));
    assert Encode(d.value) == Encode(s);
    EncodeInjective(d.value, s);
  }

  /** A byte below 0x80 stands for itself and for nothing else. */
  lemma {:induction false} AsciiBytes(s: string, b: Byte)
    requires b in Encode(s) && b < 0x80
    ensures b as char in s
  {
    if s != [] {
      if b in EncodeChar(s[0]) {
        var i :| 0 <= i < |EncodeChar(s[0])| && EncodeChar(s[0])[i] == b;
        assert s[0] == b as char;
      } else {
        AsciiBytes(s[1..], b);
      }
    }
  }
}
