/**
 The headers that name a form's field (yb-wire/src/media.rs; RFC 7578 section 4.2), as
 clients write them, and the bytes of text (RFC 3629 section 3).
 */
module FormNames {
  import opened Prelude
  import opened Utf8
  import opened Multipart

  /** A part's headers: a line break, and one line with the name in quotes. */
  function Quoted(before: string, x: string): string {
    "\r\n" + (before + (";" + (" " + ("name=\"" + x + "\""))))
  }

  lemma FirstLineEmpty(line: string)
    requires OneLine(line) && line != ""
    ensures TextLines("\r\n" + line) == ["", line]
  {
    var all := "\r\n" + line;
    assert all == "\r" + ['\n'] + line;
    SplitOnce("\r", line, '\n');
    assert MapSeq(DropReturn, ["\r", line]) == [DropReturn("\r"), DropReturn(line)];
    assert "\r"[..0] == "";
    assert line[|line| - 1] in line;
  }

  lemma SecondIs(line: string)
    requires StartsWith(Lower(line), "content-disposition")
    ensures Disposition(["", line]) == line
  {
    assert Lower("") == "" && ["", line][1..] == [line];
    assert |"content-disposition"| == 19;
  }

  lemma Untrimmed(s: string)
    requires s != "" && !IsSpace(s[0]) && !IsSpace(s[|s| - 1])
    ensures Trim(s) == s && Trim(" " + s) == s
  {
    assert (" " + s)[1..] == s;
    assert IsSpace(' ');
  }

  /** Such headers name that field, and no other but the one whose name has quotes of its own. */
  lemma QuotedNames(before: string, x: string, name: string)
    requires OneLine(before) && OneLine(x) && ';' !in before && ';' !in x
    requires before != "" && before[0] != 'n' && !IsSpace(before[0]) && StartsWith(Lower(before), "content-disposition")
    ensures Names(Quoted(before, x), name) <==> name == x || name == "\"" + x + "\""
  {
    hide Split, Lower, TextLines, Disposition, TrimStart, TrimEnd, Trim, StartsWith, IsSpace;
    var value := "name=\"" + x + "\"";
    var line := before + (";" + (" " + value));
    LineOf(before, x);
    FirstLineEmpty(line);
    LowerStarts(before, ";" + (" " + value));
    SecondIs(line);
    var second := " " + value;
    assert line == before + [';'] + second;
    SplitOnce(before, second, ';');
    NoSpaces();
    Untrimmed(value);
    TrimKeepsHead(before);
    PartIs(x, name);
    var parts := [before, second];
    assert Split(Disposition(TextLines(Quoted(before, x))), ';') == parts;
    assert parts[1] == second;
    FirstDiffers(Trim(before), name);
  }

  lemma NoSpaces()
    ensures !IsSpace('n') && !IsSpace('"') && !IsSpace('C')
  {
  }

  lemma LineOf(before: string, x: string)
    requires OneLine(before) && OneLine(x) && ';' !in before && ';' !in x
    ensures var value := "name=\"" + x + "\"";
            OneLine(before + (";" + (" " + value))) && ';' !in " " + value
            && value[0] == 'n' && value[|value| - 1] == '"' && "name=" <= value
  {
  }

  lemma LowerStarts(s: string, t: string)
    requires StartsWith(Lower(s), "content-disposition")
    ensures StartsWith(Lower(s + t), "content-disposition")
  {
    MapSeqConcat(LowerChar, s, t);
  }

  lemma TrimKeepsHead(s: string)
    requires s != "" && !IsSpace(s[0])
    ensures Trim(s) == "" || Trim(s)[0] == s[0]
  {
  }

  lemma FirstDiffers(s: string, name: string)
    requires s == "" || s[0] != 'n'
    ensures s != "name=\"" + name + "\"" && s != "name=" + name
  {
    assert ("name=\"" + name + "\"")[0] == 'n' && ("name=" + name)[0] == 'n';
  }

  lemma PartIs(x: string, name: string)
    ensures "name=\"" + x + "\"" == "name=\"" + name + "\"" <==> name == x
    ensures "name=\"" + x + "\"" == "name=" + name <==> name == "\"" + x + "\""
  {
    var v, w, u := "name=\"" + x + "\"", "name=\"" + name + "\"", "name=" + name;
    assert v[6..|v| - 1] == x && w[6..|w| - 1] == name;
    assert v[5..] == "\"" + x + "\"" && u[5..] == name;
    if name == "\"" + x + "\"" {
      assert v == "name=" + ("\"" + x + "\"");
    }
  }

  const FORM_DATA := "Content-Disposition:" + " form-data"

  lemma FormDataIs()
    ensures OneLine(FORM_DATA) && ';' !in FORM_DATA && FORM_DATA != "" && FORM_DATA[0] == 'C'
  {
  }

  lemma FormDataLower()
    ensures StartsWith(Lower(FORM_DATA), "content-disposition")
  {
    var low := Lower(FORM_DATA);
    assert |low| == |FORM_DATA|;
    assert low[..19] == "content-disposition";
  }

  /** The headers browsers send. */
  lemma AFormField(x: string, name: string)
    requires OneLine(x) && ';' !in x
    ensures Names(Quoted(FORM_DATA, x), name) <==> name == x || name == "\"" + x + "\""
  {
    hide Names, Quoted, OneLine, StartsWith, Lower;
    FormDataIs();
    FormDataLower();
    NoSpaces();
    QuotedNames(FORM_DATA, x, name);
  }

  /** The six bits of a byte that follows a lead byte, or the bits of a lead byte above its mark. */
  function Bits(b: Byte, mark: int): int {
    b - mark
  }

  predicate Follows(b: Byte) {
    0x80 <= b <= 0xBF
  }

  /** The bytes stand for the number: the lead byte says how many follow, each of those carries six
      bits, and no number is written longer than it need be. */
  predicate StandsFor(b: seq<Byte>, n: int) {
    || (|b| == 1 && n == b[0] as int && n <= 0x7F)
    || (|b| == 2 && 0xC0 <= b[0] <= 0xDF && Follows(b[1]) && 0x80 <= n && n == Bits(b[0], 0xC0) * 64 + Bits(b[1], 0x80))
    || (|b| == 3 && 0xE0 <= b[0] <= 0xEF && Follows(b[1]) && Follows(b[2]) && 0x800 <= n
        && n == (Bits(b[0], 0xE0) * 64 + Bits(b[1], 0x80)) * 64 + Bits(b[2], 0x80))
    || (|b| == 4 && 0xF0 <= b[0] <= 0xF7 && Follows(b[1]) && Follows(b[2]) && Follows(b[3]) && 0x1_0000 <= n
        && n == ((Bits(b[0], 0xF0) * 64 + Bits(b[1], 0x80)) * 64 + Bits(b[2], 0x80)) * 64 + Bits(b[3], 0x80))
  }

  lemma BytesStand(c: char)
    ensures StandsFor(EncodeChar(c), c as int)
  {
  }

  lemma SixBits(p: int, x: int, q: int, y: int)
    requires 0 <= x < 64 && 0 <= y < 64 && p * 64 + x == q * 64 + y
    ensures p == q && x == y
  {
  }

  lemma SameLength(a: seq<Byte>, b: seq<Byte>, n: int)
    requires StandsFor(a, n) && StandsFor(b, n)
    ensures |a| == |b|
  {
  }

  lemma OneWay(a: seq<Byte>, b: seq<Byte>, n: int)
    requires StandsFor(a, n) && StandsFor(b, n) && |a| == |b|
    ensures a == b
  {
    if |a| == 2 {
      SixBits(Bits(a[0], 0xC0), Bits(a[1], 0x80), Bits(b[0], 0xC0), Bits(b[1], 0x80));
    } else if |a| == 3 {
      var p, q := Bits(a[0], 0xE0) * 64 + Bits(a[1], 0x80), Bits(b[0], 0xE0) * 64 + Bits(b[1], 0x80);
      SixBits(p, Bits(a[2], 0x80), q, Bits(b[2], 0x80));
      SixBits(Bits(a[0], 0xE0), Bits(a[1], 0x80), Bits(b[0], 0xE0), Bits(b[1], 0x80));
    } else if |a| == 4 {
      var p, q := Bits(a[0], 0xF0) * 64 + Bits(a[1], 0x80), Bits(b[0], 0xF0) * 64 + Bits(b[1], 0x80);
      SixBits(p * 64 + Bits(a[2], 0x80), Bits(a[3], 0x80), q * 64 + Bits(b[2], 0x80), Bits(b[3], 0x80));
      SixBits(p, Bits(a[2], 0x80), q, Bits(b[2], 0x80));
      SixBits(Bits(a[0], 0xF0), Bits(a[1], 0x80), Bits(b[0], 0xF0), Bits(b[1], 0x80));
    }
  }

  /** A character's bytes are the ones that stand for its number. */
  lemma BytesIff(c: char, b: seq<Byte>)
    ensures EncodeChar(c) == b <==> StandsFor(b, c as int)
  {
    hide StandsFor, EncodeChar;
    BytesStand(c);
    if StandsFor(b, c as int) {
      SameLength(b, EncodeChar(c), c as int);
      OneWay(b, EncodeChar(c), c as int);
    }
  }
}
