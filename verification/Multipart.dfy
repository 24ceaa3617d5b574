/**
 One field of a multipart form (yb-wire/src/media.rs; RFC 7578 sections 4.1 and 4.2,
 RFC 2046 section 5.1.1): the walk from part to part that finds it, reading its value
 and putting another in its place. How bytes that are not UTF-8 show in header text
 is foreign code and enters as the function `lossy`.
 */
module Multipart {
  import opened Prelude
  import opened Search
  import opened Utf8

  // ---------------------------------------------------------------------
  // Searching
  // ---------------------------------------------------------------------

  /** The first place at or after `from` where the needle stands, or none when it stands nowhere. */
  ghost predicate IsFirst(hay: seq<Byte>, needle: seq<Byte>, from: nat, r: Option<nat>) {
    && (r.Some? ==> OccursAt(hay, needle, r.value))
    && (forall q :: from <= q && (r.Some? ==> q < r.value) ==> !OccursAt(hay, needle, q))
  }

  function Find(hay: seq<Byte>, needle: seq<Byte>, from: nat): (r: Option<nat>)
    ensures r.Some? ==> from <= r.value && r.value + |needle| <= |hay|
    ensures IsFirst(hay, needle, from, r)
    decreases |hay| - from
  {
    if from + |needle| > |hay| then None
    else if hay[from..from + |needle|] == needle then Some(from)
    else Find(hay, needle, from + 1)
  }

  lemma FirstIs(hay: seq<Byte>, needle: seq<Byte>, from: nat, p: nat)
    requires from <= p && OccursAt(hay, needle, p)
    requires forall q :: from <= q < p ==> !OccursAt(hay, needle, q)
    ensures Find(hay, needle, from) == Some(p)
  {
  }

  lemma SliceWithin(a: seq<Byte>, i: nat, j: nat, s: nat, e: nat)
    requires i <= s <= e <= j <= |a|
    ensures a[s..e] == a[i..j][s - i..e - i]
  {
    forall k | 0 <= k < e - s
      ensures a[s..e][k] == a[i..j][s - i..e - i][k]
    {
      assert a[i..j][s - i + k] == a[s + k];
    }
  }

  lemma OccursInPrefix(a: seq<Byte>, b: seq<Byte>, needle: seq<Byte>, end: nat, q: nat)
    requires q + |needle| <= end <= |a| && end <= |b| && a[..end] == b[..end]
    ensures OccursAt(a, needle, q) == OccursAt(b, needle, q)
  {
    assert a[q..q + |needle|] == a[..end][q..q + |needle|];
    assert b[q..q + |needle|] == b[..end][q..q + |needle|];
  }

  /** The search sees no further than the end of what it finds. */
  lemma FindInPrefix(a: seq<Byte>, b: seq<Byte>, needle: seq<Byte>, from: nat)
    requires var r := Find(a, needle, from);
             r.Some? && var end := r.value + |needle|; end <= |b| && a[..end] == b[..end]
    ensures Find(b, needle, from) == Find(a, needle, from)
  {
    hide OccursAt, Find;
    var p := Find(a, needle, from).value;
    forall q | from <= q <= p
      ensures OccursAt(a, needle, q) == OccursAt(b, needle, q)
    {
      OccursInPrefix(a, b, needle, p + |needle|, q);
    }
    FirstIs(b, needle, from, p);
  }

  /** Nor does it look back. */
  lemma {:induction false} FindInSuffix(a: seq<Byte>, b: seq<Byte>, needle: seq<Byte>, i: nat, j: nat)
    requires i <= |a| && j <= |b| && a[i..] == b[j..]
    ensures Find(a, needle, i).Some? == Find(b, needle, j).Some?
    ensures Find(a, needle, i).Some? ==> Find(a, needle, i).value - i == Find(b, needle, j).value - j
    decreases |a| - i
  {
    assert |a| - i == |b| - j;
    if i + |needle| <= |a| {
      assert a[i..i + |needle|] == a[i..][..|needle|];
      assert b[j..j + |needle|] == b[j..][..|needle|];
      if i < |a| {
        assert a[i + 1..] == a[i..][1..];
        assert b[j + 1..] == b[j..][1..];
        FindInSuffix(a, b, needle, i + 1, j + 1);
      }
    }
  }

  // ---------------------------------------------------------------------
  // Header text
  // ---------------------------------------------------------------------

  function Split(s: string, c: char): (r: seq<string>)
    ensures r != []
    ensures forall i :: 0 <= i < |r| ==> c !in r[i]
  {
    if s == [] then [""]
    else
      var rest := Split(s[1..], c);
      if s[0] == c then [""] + rest else [[s[0]] + rest[0]] + rest[1..]
  }

  /** `str::lines`: a last line feed ends the last line and begins none. */
  function TextLines(s: string): seq<string> {
    var all := Split(s, '\n');
    var kept := if all[|all| - 1] == "" then all[..|all| - 1] else all;
    MapSeq(DropReturn, kept)
  }

  function DropReturn(line: string): string {
    if line != "" && line[|line| - 1] == '\r' then line[..|line| - 1] else line
  }

  /** The first line that begins a content disposition, or nothing. */
  function Disposition(lines: seq<string>): string {
    if lines == [] then ""
    else if StartsWith(Lower(lines[0]), "content-disposition") then lines[0]
    else Disposition(lines[1..])
  }

  predicate Names(headers: string, name: string) {
    var parts := Split(Disposition(TextLines(headers)), ';');
    exists i :: 0 <= i < |parts| &&
      (Trim(parts[i]) == "name=\"" + name + "\"" || Trim(parts[i]) == "name=" + name)
  }

  // ---------------------------------------------------------------------
  // The walk over parts
  // ---------------------------------------------------------------------

  type Lossy = seq<Byte> -> string

  /** A part: where its headers begin, their blank line, and the next delimiter. */
  datatype Part = Part(headers: nat, blank: nat, next: nat) {
    function ValueStart(): nat {
      blank + 4
    }

    function ValueEnd(): nat {
      if next - 2 < blank + 4 then blank + 4 else next - 2
    }
  }

  const BLANK_LINE: seq<Byte> := [13, 10, 13, 10]
  const LINE_BREAK: seq<Byte> := [13, 10]

  function Delimiter(boundary: string): (d: seq<Byte>)
    ensures |d| >= 2 && d[0] == 45
  {
    assert Encode("--" + boundary) == EncodeChar('-') + (EncodeChar('-') + Encode(boundary)) by {
      assert ("--" + boundary)[1..] == "-" + boundary;
      assert ("-" + boundary)[1..] == boundary;
    }
    Encode("--" + boundary)
  }

  /** What holds of a part found at or after the delimiter at `at`. */
  ghost predicate Found(lossy: Lossy, body: seq<Byte>, delim: seq<Byte>, name: string, at: nat, p: Part) {
    && at + |delim| <= p.headers <= p.blank
    && Find(body, delim, p.headers) == Some(p.next)
    && Find(body, BLANK_LINE, p.headers) == Some(p.blank)
    && p.blank < p.next
    && p.blank + 4 <= |body| && p.next <= |body|
    && Names(lossy(body[p.headers..p.blank]), name)
  }

  /** The part just after the delimiter at `at`, when it has headers and ends. */
  function PartAt(body: seq<Byte>, delim: seq<Byte>, at: nat): (r: Option<Part>)
    ensures r.Some? ==>
              && r.value.headers == at + |delim|
              && Find(body, delim, r.value.headers) == Some(r.value.next)
              && Find(body, BLANK_LINE, r.value.headers) == Some(r.value.blank)
              && r.value.headers <= r.value.blank < r.value.next && r.value.blank + 4 <= |body|
              && r.value.next + |delim| <= |body|
  {
    var headers := at + |delim|;
    var next := Find(body, delim, headers);
    var blank := Find(body, BLANK_LINE, headers);
    if next.Some? && blank.Some? && blank.value < next.value then Some(Part(headers, blank.value, next.value)) else None
  }

  /** The first part from there on that names the field. */
  function PartFrom(lossy: Lossy, body: seq<Byte>, delim: seq<Byte>, name: string, at: nat): (r: Option<Part>)
    requires |delim| > 0
    ensures r.Some? ==> Found(lossy, body, delim, name, at, r.value)
    decreases |body| - at
  {
    match PartAt(body, delim, at)
    case None => None
    case Some(p) =>
      if Names(lossy(body[p.headers..p.blank]), name) then Some(p)
      else PartFrom(lossy, body, delim, name, p.next)
  }

  function FieldPart(lossy: Lossy, body: seq<Byte>, boundary: string, name: string): Option<Part> {
    match Find(body, Delimiter(boundary), 0)
    case None => None
    case Some(at) => PartFrom(lossy, body, Delimiter(boundary), name, at)
  }

  lemma PartFromStep(lossy: Lossy, body: seq<Byte>, delim: seq<Byte>, name: string, at: nat)
    requires |delim| > 0
    ensures PartFrom(lossy, body, delim, name, at) ==
            match PartAt(body, delim, at)
            case None => None
            case Some(p) =>
              if Names(lossy(body[p.headers..p.blank]), name) then Some(p) else PartFrom(lossy, body, delim, name, p.next)
  {
  }

  lemma FieldPartStarts(lossy: Lossy, body: seq<Byte>, boundary: string, name: string)
    ensures var at := Find(body, Delimiter(boundary), 0);
            FieldPart(lossy, body, boundary, name) ==
            if at.Some? then PartFrom(lossy, body, Delimiter(boundary), name, at.value) else None
  {
  }

  /** The walk itself: each turn starts at a later delimiter, so it ends. */
  method MultipartSpan(lossy: Lossy, body: seq<Byte>, boundary: string, name: string) returns (r: Option<(nat, nat)>)
    ensures r == match FieldPart(lossy, body, boundary, name)
                 case None => None
                 case Some(p) => Some((p.ValueStart(), p.ValueEnd()))
    ensures r.Some? ==> r.value.0 <= r.value.1 <= |body|
  {
    hide Names, Find, IsFirst, Delimiter, Found, FieldPart, PartFrom;
    var delim := Delimiter(boundary);
    FieldPartStarts(lossy, body, boundary, name);
    var first := Find(body, delim, 0);
    if first == None {
      return None;
    }
    var at := first.value;
    ghost var goal := FieldPart(lossy, body, boundary, name);
    while true
      invariant goal == FieldPart(lossy, body, boundary, name) == PartFrom(lossy, body, delim, name, at)
      decreases |body| - at
    {
      PartFromStep(lossy, body, delim, name, at);
      var headers := at + |delim|;
      var next := Find(body, delim, headers);
      if next == None {
        return None;
      }
      var blank := Find(body, BLANK_LINE, headers);
      if blank == None || blank.value >= next.value {
        return None;
      }
      if Names(lossy(body[headers..blank.value]), name) {
        var start := blank.value + 4;
        return Some((start, if next.value - 2 < start then start else next.value - 2));
      }
      at := next.value;
    }
  }

  /** `multipart_field` */
  ghost function Field(lossy: Lossy, body: seq<Byte>, boundary: string, name: string): Option<string> {
    match FieldPart(lossy, body, boundary, name)
    case None => None
    case Some(p) => ValueText(body[p.ValueStart()..p.ValueEnd()])
  }

  ghost function ValueText(value: seq<Byte>): Option<string> {
    match Decode(value)
    case None => None
    case Some(s) => if Trim(s) == "" then None else Some(Trim(s))
  }

  /** `replace_multipart_field` */
  method ReplaceField(lossy: Lossy, body: seq<Byte>, boundary: string, name: string, value: string)
    returns (out: seq<Byte>)
    ensures out == Replaced(lossy, body, boundary, name, value)
  {
    hide Encode, FieldPart;
    var span := MultipartSpan(lossy, body, boundary, name);
    if span == None {
      return body;
    }
    out := [];
    out := out + body[..span.value.0];
    out := out + Encode(value);
    out := out + body[span.value.1..];
  }

  function Replaced(lossy: Lossy, body: seq<Byte>, boundary: string, name: string, value: string): seq<Byte> {
    match FieldPart(lossy, body, boundary, name)
    case None => body
    case Some(p) => Spliced(body, p, Encode(value))
  }

  function Spliced(body: seq<Byte>, p: Part, v: seq<Byte>): seq<Byte>
    requires p.blank + 4 <= |body| && p.next <= |body|
  {
    body[..p.ValueStart()] + v + body[p.ValueEnd()..]
  }

  // ---------------------------------------------------------------------
  // Reading back what was put in
  // ---------------------------------------------------------------------

  predicate OneLine(boundary: string) {
    '\r' !in boundary && '\n' !in boundary
  }

  /** The value is closed by a line break of its own before the next delimiter. */
  predicate Closed(body: seq<Byte>, p: Part) {
    p.blank + 6 <= p.next <= |body| && body[p.next - 2..p.next] == LINE_BREAK
  }

  lemma DelimiterIsOneLine(boundary: string)
    requires OneLine(boundary)
    ensures 13 !in Delimiter(boundary) && 10 !in Delimiter(boundary)
  {
    if 13 in Delimiter(boundary) {
      AsciiBytes("--" + boundary, 13);
    }
    if 10 in Delimiter(boundary) {
      AsciiBytes("--" + boundary, 10);
    }
  }

  /** The bytes just around the new value. */
  lemma AroundValue(body: seq<Byte>, p: Part, v: seq<Byte>)
    requires OccursAt(body, BLANK_LINE, p.blank) && Closed(body, p)
    ensures var start, other := p.ValueStart(), Spliced(body, p, v);
            && |other| == start + |v| + 2 + |body| - p.next
            && other[..start] == body[..start] && other[start..start + |v|] == v
            && other[start - 1] == 10 && other[start + |v|] == 13 && other[start + |v| + 1] == 10
            && other[start + |v| + 2..] == body[p.next..]
  {
    assert body[p.blank..p.blank + 4][3] == 10;
    assert body[p.next - 2..p.next][0] == 13;
    assert body[p.next - 2..p.next][1] == 10;
  }

  /** Where the delimiter stands in the new body, up to the one that closed the old value. */
  lemma DelimitersAfter(body: seq<Byte>, delim: seq<Byte>, p: Part, v: seq<Byte>, q: nat)
    requires |delim| > 0 && 13 !in delim && 10 !in delim
    requires p.headers <= p.blank && OccursAt(body, BLANK_LINE, p.blank)
    requires Find(body, delim, p.headers) == Some(p.next) && Closed(body, p)
    requires p.headers <= q <= p.ValueStart() + |v| + 2
    ensures OccursAt(Spliced(body, p, v), delim, q) <==>
              (q >= p.ValueStart() && OccursAt(v, delim, q - p.ValueStart())) || q == p.ValueStart() + |v| + 2
  {
    hide OccursAt, Find, Spliced;
    var other := Spliced(body, p, v);
    var start := p.ValueStart();
    AroundValue(body, p, v);
    assert !OccursAt(body, delim, q) || q >= p.next;
    if q < start {
      if q + |delim| <= start {
        OccursInPrefix(body, other, delim, start, q);
      } else {
        NotAcross(other, delim, q, start - 1);
      }
    } else if q < start + |v| + 2 {
      InValue(other, delim, start, v, q);
    } else {
      OccursInSuffix(body, other, delim, p.next, q);
    }
  }

  lemma OccursInSuffix(a: seq<Byte>, b: seq<Byte>, needle: seq<Byte>, i: nat, j: nat)
    requires i <= |a| && j <= |b| && a[i..] == b[j..]
    requires OccursAt(a, needle, i)
    ensures OccursAt(b, needle, j)
  {
    assert |a[i..]| == |b[j..]|;
    assert a[i..i + |needle|] == a[i..][..|needle|];
    assert b[j..j + |needle|] == b[j..][..|needle|];
  }

  lemma InValue(other: seq<Byte>, delim: seq<Byte>, start: nat, v: seq<Byte>, q: nat)
    requires |delim| > 0 && 13 !in delim && 10 !in delim
    requires start <= q < start + |v| + 2 <= |other|
    requires other[start..start + |v|] == v && other[start + |v|] == 13 && other[start + |v| + 1] == 10
    ensures OccursAt(other, delim, q) <==> OccursAt(v, delim, q - start)
  {
    if q + |delim| <= start + |v| {
      SliceWithin(other, start, start + |v|, q, q + |delim|);
    } else if q <= start + |v| {
      NotAcross(other, delim, q, start + |v|);
    } else {
      NotAcross(other, delim, q, start + |v| + 1);
    }
  }

  /** One part, when its headers are unchanged: only its end can differ. */
  lemma SameHeaders(body: seq<Byte>, other: seq<Byte>, delim: seq<Byte>, at: nat, here: Part, next: nat)
    requires PartAt(body, delim, at) == Some(here)
    requires here.blank + 4 <= |other| && body[..here.blank + 4] == other[..here.blank + 4]
    requires Find(other, delim, here.headers) == Some(next) && here.blank < next
    ensures PartAt(other, delim, at) == Some(here.(next := next))
    ensures body[here.headers..here.blank] == other[here.headers..here.blank]
  {
    hide Find, IsFirst;
    FindInPrefix(body, other, BLANK_LINE, here.headers);
    assert body[here.headers..here.blank] == body[..here.blank + 4][here.headers..here.blank];
    assert other[here.headers..here.blank] == other[..here.blank + 4][here.headers..here.blank];
  }

  /** A part that lies before `cut` stays as it is when nothing before `cut` changes. */
  lemma WholePart(body: seq<Byte>, other: seq<Byte>, delim: seq<Byte>, at: nat, here: Part, cut: nat)
    requires PartAt(body, delim, at) == Some(here)
    requires here.next + |delim| <= cut && here.blank + 4 <= cut
    requires cut <= |body| && cut <= |other| && body[..cut] == other[..cut]
    ensures PartAt(other, delim, at) == Some(here)
    ensures body[here.headers..here.blank] == other[here.headers..here.blank]
  {
    hide Find, PartAt, IsFirst;
    PrefixOfPrefix(body, other, here.next + |delim|, cut);
    FindInPrefix(body, other, delim, here.headers);
    PrefixOfPrefix(body, other, here.blank + 4, cut);
    SameHeaders(body, other, delim, at, here, here.next);
  }

  lemma BlankBeforeNext(body: seq<Byte>, delim: seq<Byte>, at: nat, here: Part)
    requires PartAt(body, delim, at) == Some(here)
    requires |delim| > 0 && delim[0] == 45
    ensures here.blank + 4 <= here.next
  {
    var blank := body[here.blank..here.blank + 4];
    assert blank == BLANK_LINE;
    assert blank[1] == body[here.blank + 1] && blank[2] == body[here.blank + 2] && blank[3] == body[here.blank + 3];
    assert body[here.next] == body[here.next..here.next + |delim|][0];
  }

  /** The walk reaches the same part as long as all it saw of it is unchanged. */
  lemma {:induction false} SamePart(
    lossy: Lossy, body: seq<Byte>, other: seq<Byte>, delim: seq<Byte>, name: string, at: nat, p: Part, next: nat)
    requires |delim| > 0 && delim[0] == 45
    requires PartFrom(lossy, body, delim, name, at) == Some(p)
    requires p.blank + 4 <= |other| && body[..p.blank + 4] == other[..p.blank + 4]
    requires Find(other, delim, p.headers) == Some(next) && p.blank < next
    ensures PartFrom(lossy, other, delim, name, at) == Some(p.(next := next))
    decreases |body| - at
  {
    hide Names, Find, PartAt, OccursAt, IsFirst;
    var here := PartAt(body, delim, at).value;
    if here == p {
      SameHeaders(body, other, delim, at, p, next);
    } else {
      assert Found(lossy, body, delim, name, here.next, p);
      BlankBeforeNext(body, delim, at, here);
      WholePart(body, other, delim, at, here, p.blank + 4);
      SamePart(lossy, body, other, delim, name, here.next, p, next);
    }
  }

  lemma PrefixOfPrefix(a: seq<Byte>, b: seq<Byte>, short: nat, long: nat)
    requires short <= long <= |a| && long <= |b| && a[..long] == b[..long]
    ensures a[..short] == b[..short]
  {
    assert a[..short] == a[..long][..short];
    assert b[..short] == b[..long][..short];
  }

  /** Where the field stands after the splice: the same part, up to the first delimiter past its headers. */
  lemma PartAfter(lossy: Lossy, body: seq<Byte>, boundary: string, name: string, v: seq<Byte>, next: nat)
    requires FieldPart(lossy, body, boundary, name).Some?
    requires var p := FieldPart(lossy, body, boundary, name).value;
             Find(Spliced(body, p, v), Delimiter(boundary), p.headers) == Some(next) && p.blank < next
    ensures FieldPart(lossy, Spliced(body, FieldPart(lossy, body, boundary, name).value, v), boundary, name) ==
              Some(FieldPart(lossy, body, boundary, name).value.(next := next))
  {
    hide Names, Find, OccursAt, Delimiter, PartFrom, IsFirst;
    var delim := Delimiter(boundary);
    var p := FieldPart(lossy, body, boundary, name).value;
    var other := Spliced(body, p, v);
    var at := Find(body, delim, 0).value;
    assert body[..p.blank + 4] == other[..p.blank + 4];
    assert Found(lossy, body, delim, name, at, p);
    PrefixOfPrefix(body, other, at + |delim|, p.blank + 4);
    FindInPrefix(body, other, delim, 0);
    SamePart(lossy, body, other, delim, name, at, p, next);
  }

  lemma {:induction false} TrimIsInside(s: string) returns (before: string, after: string)
    ensures s == before + Trim(s) + after
  {
    hide IsSpace, TrimStart, TrimEnd;
    var t := TrimStart(s);
    before := s[..|s| - |t|];
    after := t[|Trim(s)|..];
    assert t == Trim(s) + after;
  }

  /** A shorter slice cannot read as the same text. */
  lemma ShorterReadsOtherwise(v: string, u: seq<Byte>)
    requires |u| < |Encode(v)|
    ensures ValueText(u) != Some(v)
  {
    if Decode(u).Some? {
      var w := Decode(u).value;
      assert Encode(w) == u;
      var before, after := TrimIsInside(w);
      EncodeConcat(before + Trim(w), after);
      EncodeConcat(before, Trim(w));
    }
  }

  lemma ReadsItself(v: string)
    requires Trim(v) == v && v != ""
    ensures ValueText(Encode(v)) == Some(v)
  {
    DecodeEncoded(v);
  }

  lemma FieldIsFound(lossy: Lossy, body: seq<Byte>, boundary: string, name: string)
    requires FieldPart(lossy, body, boundary, name).Some?
    ensures var p := FieldPart(lossy, body, boundary, name).value;
            Find(body, Delimiter(boundary), 0).Some? &&
            Found(lossy, body, Delimiter(boundary), name, Find(body, Delimiter(boundary), 0).value, p)
            && OccursAt(body, BLANK_LINE, p.blank) && p.headers <= p.blank
  {
  }

  /** The delimiter that closed the old value closes the new one. */
  lemma ClosedBySameDelimiter(lossy: Lossy, body: seq<Byte>, boundary: string, name: string, v: seq<Byte>)
    requires FieldPart(lossy, body, boundary, name).Some? && Closed(body, FieldPart(lossy, body, boundary, name).value)
    requires OneLine(boundary) && !Contains(v, Delimiter(boundary))
    ensures var p := FieldPart(lossy, body, boundary, name).value;
            var next := p.ValueStart() + |v| + 2;
            var other := Spliced(body, p, v);
            Find(other, Delimiter(boundary), p.headers) == Some(next) && next <= |other| && body[p.next..] == other[next..]
  {
    hide Names, Find, PartFrom, Delimiter, OccursAt, IsFirst;
    var delim := Delimiter(boundary);
    var p := FieldPart(lossy, body, boundary, name).value;
    var other := Spliced(body, p, v);
    var next := p.ValueStart() + |v| + 2;
    DelimiterIsOneLine(boundary);
    FieldIsFound(lossy, body, boundary, name);
    forall q | p.headers <= q <= next
      ensures OccursAt(other, delim, q) <==> q == next
    {
      DelimitersAfter(body, delim, p, v, q);
      if q >= p.ValueStart() && OccursAt(v, delim, q - p.ValueStart()) {
        OccursWithin(v, delim, q - p.ValueStart());
        assert false;
      }
    }
    FirstIs(other, delim, p.headers, next);
  }

  /** A value that holds the delimiter is cut at it. */
  lemma CutAtDelimiter(lossy: Lossy, body: seq<Byte>, boundary: string, name: string, v: seq<Byte>) returns (end: nat)
    requires FieldPart(lossy, body, boundary, name).Some? && Closed(body, FieldPart(lossy, body, boundary, name).value)
    requires OneLine(boundary) && Contains(v, Delimiter(boundary))
    ensures var p := FieldPart(lossy, body, boundary, name).value;
            var other := Spliced(body, p, v);
            var q := FieldPart(lossy, other, boundary, name);
            q.Some? && q.value.ValueStart() == p.ValueStart() && q.value.ValueEnd() == end < p.ValueStart() + |v|
  {
    hide Names, Find, PartFrom, Delimiter, OccursAt, Spliced;
    var delim := Delimiter(boundary);
    var p := FieldPart(lossy, body, boundary, name).value;
    var other := Spliced(body, p, v);
    var start := p.ValueStart();
    DelimiterIsOneLine(boundary);
    FieldIsFound(lossy, body, boundary, name);
    var o :| 0 <= o <= |v| && OccursAt(v, delim, o);
    OccursWithin(v, delim, o);
    DelimitersAfter(body, delim, p, v, start + o);
    var next := Find(other, delim, p.headers).value;
    DelimitersAfter(body, delim, p, v, next);
    PartAfter(lossy, body, boundary, name, v, next);
    end := p.(next := next).ValueEnd();
  }

  /**
   A trimmed, non-empty text put in place of the value reads back as itself exactly
   when it does not hold the delimiter.
   */
  lemma ReadsBackIff(lossy: Lossy, body: seq<Byte>, boundary: string, name: string, value: string)
    requires FieldPart(lossy, body, boundary, name).Some? && Closed(body, FieldPart(lossy, body, boundary, name).value)
    requires OneLine(boundary) && Trim(value) == value && value != ""
    ensures Field(lossy, Replaced(lossy, body, boundary, name, value), boundary, name) == Some(value)
            <==> !Contains(Encode(value), Delimiter(boundary))
  {
    hide FieldPart, ValueText, Encode, Contains, Trim, IsFirst, Find, Delimiter;
    var v := Encode(value);
    var p := FieldPart(lossy, body, boundary, name).value;
    var other := Spliced(body, p, v);
    var start := p.ValueStart();
    if Contains(v, Delimiter(boundary)) {
      var end := CutAtDelimiter(lossy, body, boundary, name, v);
      ShorterReadsOtherwise(value, other[start..end]);
    } else {
      ClosedBySameDelimiter(lossy, body, boundary, name, v);
      PartAfter(lossy, body, boundary, name, v, start + |v| + 2);
      assert other[start..start + |v|] == v;
      ReadsItself(value);
    }
  }

  // ---------------------------------------------------------------------
  // The other fields
  // ---------------------------------------------------------------------

  ghost function ValueBytes(body: seq<Byte>, p: Option<Part>): Option<seq<Byte>>
    requires p.Some? ==> p.value.blank + 4 <= |body| && p.value.next <= |body|
  {
    if p.Some? then Some(body[p.value.ValueStart()..p.value.ValueEnd()]) else None
  }

  lemma SliceOfSuffix(a: seq<Byte>, b: seq<Byte>, i: nat, j: nat, s: nat, e: nat)
    requires i <= s <= e <= |a| && j <= |b| && a[i..] == b[j..]
    ensures s - i + j <= e - i + j <= |b|
    ensures a[s..e] == b[s - i + j..e - i + j]
  {
    assert |a[i..]| == |b[j..]|;
    assert a[i..] == a[i..|a|] && b[j..] == b[j..|b|];
    SliceWithin(a, i, |a|, s, e);
    SliceWithin(b, j, |b|, s - i + j, e - i + j);
  }

  /** One part among bytes that moved as a whole. */
  lemma MovedPart(body: seq<Byte>, other: seq<Byte>, delim: seq<Byte>, i: nat, j: nat)
    requires i + |delim| <= |body| && j <= |other| && body[i..] == other[j..]
    ensures PartAt(body, delim, i).Some? == PartAt(other, delim, j).Some?
    ensures PartAt(body, delim, i).Some? ==>
              var p, q := PartAt(body, delim, i).value, PartAt(other, delim, j).value;
              q.headers - j == p.headers - i && q.blank - j == p.blank - i && q.next - j == p.next - i
  {
    hide Find, OccursAt, IsFirst;
    var hi, hj := i + |delim|, j + |delim|;
    assert |body| - i == |other| - j;
    assert body[hi..] == body[i..][|delim|..];
    assert other[hj..] == other[j..][|delim|..];
    FindInSuffix(body, other, delim, hi, hj);
    FindInSuffix(body, other, BLANK_LINE, hi, hj);
  }

  /** A walk over them finds the same value. */
  lemma {:induction false} MovedWalk(
    lossy: Lossy, body: seq<Byte>, other: seq<Byte>, delim: seq<Byte>, name: string, i: nat, j: nat)
    requires |delim| > 0
    requires i + |delim| <= |body| && j <= |other| && body[i..] == other[j..]
    ensures ValueBytes(body, PartFrom(lossy, body, delim, name, i)) == ValueBytes(other, PartFrom(lossy, other, delim, name, j))
    decreases |body| - i
  {
    hide Names, Find, PartAt, OccursAt, IsFirst, PartFrom, Found;
    PartFromStep(lossy, body, delim, name, i);
    PartFromStep(lossy, other, delim, name, j);
    MovedPart(body, other, delim, i, j);
    if PartAt(body, delim, i).Some? {
      var p, q := PartAt(body, delim, i).value, PartAt(other, delim, j).value;
      SliceOfSuffix(body, other, i, j, p.headers, p.blank);
      if Names(lossy(body[p.headers..p.blank]), name) {
        SliceOfSuffix(body, other, i, j, p.ValueStart(), p.ValueEnd());
      } else {
        SliceOfSuffix(body, other, i, j, p.next, |body|);
        assert body[p.next..] == body[p.next..|body|];
        assert other[q.next..] == other[q.next..|other|];
        MovedWalk(lossy, body, other, delim, name, p.next, q.next);
      }
    }
  }

  /** A walk for another name passes the changed part and finds the same value. */
  lemma {:induction false} OtherWalk(
    lossy: Lossy, body: seq<Byte>, other: seq<Byte>, delim: seq<Byte>, name: string, another: string,
    at: nat, p: Part, next: nat)
    requires |delim| > 0 && delim[0] == 45
    requires PartFrom(lossy, body, delim, name, at) == Some(p)
    requires !Names(lossy(body[p.headers..p.blank]), another)
    requires p.blank + 4 <= |other| && body[..p.blank + 4] == other[..p.blank + 4]
    requires Find(other, delim, p.headers) == Some(next) && p.blank < next <= |other|
    requires body[p.next..] == other[next..]
    ensures ValueBytes(body, PartFrom(lossy, body, delim, another, at)) ==
            ValueBytes(other, PartFrom(lossy, other, delim, another, at))
    decreases |body| - at
  {
    hide Names, Find, PartAt, OccursAt, IsFirst;
    var here := PartAt(body, delim, at).value;
    if here == p {
      SameHeaders(body, other, delim, at, p, next);
      MovedWalk(lossy, body, other, delim, another, p.next, next);
    } else {
      assert Found(lossy, body, delim, name, here.next, p);
      BlankBeforeNext(body, delim, at, here);
      WholePart(body, other, delim, at, here, p.blank + 4);
      if Names(lossy(body[here.headers..here.blank]), another) {
        var s, e := here.ValueStart(), here.ValueEnd();
        assert body[s..e] == body[..p.blank + 4][s..e];
        assert other[s..e] == other[..p.blank + 4][s..e];
      } else {
        OtherWalk(lossy, body, other, delim, name, another, here.next, p, next);
      }
    }
  }

  /** Every field that the changed part does not name reads as before. */
  lemma OtherFieldsKept(lossy: Lossy, body: seq<Byte>, boundary: string, name: string, value: string, another: string)
    requires FieldPart(lossy, body, boundary, name).Some? && Closed(body, FieldPart(lossy, body, boundary, name).value)
    requires OneLine(boundary) && !Contains(Encode(value), Delimiter(boundary))
    requires var p := FieldPart(lossy, body, boundary, name).value;
             !Names(lossy(body[p.headers..p.blank]), another)
    ensures Field(lossy, Replaced(lossy, body, boundary, name, value), boundary, another) ==
            Field(lossy, body, boundary, another)
  {
    hide Names, Find, PartFrom, Delimiter, OccursAt, IsFirst, Encode, Decode, ValueText;
    var delim, v := Delimiter(boundary), Encode(value);
    var p := FieldPart(lossy, body, boundary, name).value;
    var other := Spliced(body, p, v);
    var at := Find(body, delim, 0).value;
    ClosedBySameDelimiter(lossy, body, boundary, name, v);
    FieldIsFound(lossy, body, boundary, name);
    assert body[..p.blank + 4] == other[..p.blank + 4];
    PrefixOfPrefix(body, other, at + |delim|, p.blank + 4);
    FindInPrefix(body, other, delim, 0);
    OtherWalk(lossy, body, other, delim, name, another, at, p, p.ValueStart() + |v| + 2);
  }

  // ---------------------------------------------------------------------
  // A form of one part
  // ---------------------------------------------------------------------

  /** A delimiter, one header line, a blank line, the value, and the closing delimiter. */
  function OnePart(boundary: string, header: string, v: seq<Byte>): seq<Byte> {
    Delimiter(boundary) + (Encode(header) + (BLANK_LINE + (v + (LINE_BREAK + Delimiter(boundary)))))
  }

  function PlaceIn(boundary: string, header: string, v: seq<Byte>): Part {
    var h, b := |Delimiter(boundary)|, |Delimiter(boundary)| + |Encode(header)|;
    Part(h, b, b + 4 + |v| + 2)
  }

  /** The pieces of five joined ones. */
  lemma Pieces(a: seq<Byte>, b: seq<Byte>, c: seq<Byte>, d: seq<Byte>, e: seq<Byte>)
    ensures var body := a + (b + (c + (d + e)));
            var i, j, k := |a| + |b|, |a| + |b| + |c|, |a| + |b| + |c| + |d|;
            && |body| == k + |e|
            && body[..|a|] == a && body[|a|..i] == b && body[i..j] == c && body[j..k] == d && body[k..] == e
  {
    var t3 := d + e;
    var t2 := c + t3;
    var t1 := b + t2;
    Halves(d, e);
    Halves(c, t3);
    Halves(b, t2);
    Halves(a, t1);
    var body := a + t1;
    var i, j, k := |a| + |b|, |a| + |b| + |c|, |a| + |b| + |c| + |d|;
    assert body[|a|..i] == body[|a|..][..|b|];
    assert body[i..] == body[|a|..][|b|..];
    assert body[i..j] == body[i..][..|c|];
    assert body[j..] == body[i..][|c|..];
    assert body[j..k] == body[j..][..|d|];
    assert body[k..] == body[j..][|d|..];
  }

  lemma Halves(a: seq<Byte>, b: seq<Byte>)
    ensures (a + b)[..|a|] == a && (a + b)[|a|..] == b
  {
  }

  lemma OnePartBytes(boundary: string, header: string, v: seq<Byte>)
    ensures var body, p, d := OnePart(boundary, header, v), PlaceIn(boundary, header, v), Delimiter(boundary);
            && |body| == p.next + |d|
            && body[..p.headers] == d && body[p.headers..p.blank] == Encode(header)
            && body[p.blank..p.blank + 4] == BLANK_LINE
            && body[p.blank + 4..p.next - 2] == v
            && body[p.next - 2] == 13 && body[p.next - 1] == 10
            && body[p.next..] == d
  {
    hide Delimiter, Encode;
    var d, h := Delimiter(boundary), Encode(header);
    var end := LINE_BREAK + d;
    var body := d + (h + (BLANK_LINE + (v + end)));
    Pieces(d, h, BLANK_LINE, v, end);
    EndBytes(body, |d| + |h| + 4 + |v|, d);
  }

  lemma EndBytes(body: seq<Byte>, k: nat, d: seq<Byte>)
    requires k <= |body| && body[k..] == LINE_BREAK + d
    ensures k + 2 <= |body| && body[k] == 13 && body[k + 1] == 10 && body[k + 2..] == d
  {
    var end := body[k..];
    assert |end| == |body| - k == 2 + |d|;
    Halves(LINE_BREAK, d);
    assert end[0] == body[k] && end[1] == body[k + 1];
    assert body[k + 2..] == end[2..];
  }

  lemma NoneInHeader(boundary: string, header: string, v: seq<Byte>, q: nat)
    requires OneLine(boundary) && !Contains(Encode(header), Delimiter(boundary))
    requires var p := PlaceIn(boundary, header, v); p.headers <= q < p.blank + 4
    ensures !OccursAt(OnePart(boundary, header, v), Delimiter(boundary), q)
  {
    hide OnePart, Delimiter, Encode;
    var body, p, d := OnePart(boundary, header, v), PlaceIn(boundary, header, v), Delimiter(boundary);
    OnePartBytes(boundary, header, v);
    DelimiterIsOneLine(boundary);
    assert body[p.blank..p.blank + 4][0] == body[p.blank];
    if q + |d| <= p.blank {
      SliceWithin(body, p.headers, p.blank, q, q + |d|);
      assert !OccursAt(Encode(header), d, q - p.headers);
    } else if q < p.blank {
      NotAcross(body, d, q, p.blank);
    } else {
      assert body[p.blank..p.blank + 4][q - p.blank] == body[q];
      NotAcross(body, d, q, q);
    }
  }

  lemma NoneInValue(boundary: string, header: string, v: seq<Byte>, q: nat)
    requires OneLine(boundary) && !Contains(v, Delimiter(boundary))
    requires var p := PlaceIn(boundary, header, v); p.blank + 4 <= q < p.next
    ensures !OccursAt(OnePart(boundary, header, v), Delimiter(boundary), q)
  {
    hide OnePart, Delimiter, Encode, OccursAt;
    var body, p, d := OnePart(boundary, header, v), PlaceIn(boundary, header, v), Delimiter(boundary);
    OnePartBytes(boundary, header, v);
    DelimiterIsOneLine(boundary);
    InValue(body, d, p.blank + 4, v, q);
    NowhereIn(v, d, q - p.blank - 4);
  }

  lemma BlankIsFirst(boundary: string, header: string, v: seq<Byte>)
    requires OneLine(header)
    ensures var body, p := OnePart(boundary, header, v), PlaceIn(boundary, header, v);
            Find(body, BLANK_LINE, p.headers) == Some(p.blank)
  {
    hide OnePart, Delimiter, Encode, Find;
    var body, p := OnePart(boundary, header, v), PlaceIn(boundary, header, v);
    OnePartBytes(boundary, header, v);
    EncodedLine(header);
    forall q | p.headers <= q < p.blank
      ensures !OccursAt(body, BLANK_LINE, q)
    {
      assert body[q] == Encode(header)[q - p.headers];
      NotAcross(body, BLANK_LINE, q, q);
    }
    FirstIs(body, BLANK_LINE, p.headers, p.blank);
  }

  lemma EncodedLine(s: string)
    requires OneLine(s)
    ensures 13 !in Encode(s) && 10 !in Encode(s)
  {
    if 13 in Encode(s) {
      AsciiBytes(s, 13);
    }
    if 10 in Encode(s) {
      AsciiBytes(s, 10);
    }
  }

  lemma DelimiterIsNext(boundary: string, header: string, v: seq<Byte>)
    requires OneLine(boundary)
    requires !Contains(Encode(header), Delimiter(boundary)) && !Contains(v, Delimiter(boundary))
    ensures var body, p := OnePart(boundary, header, v), PlaceIn(boundary, header, v);
            Find(body, Delimiter(boundary), 0) == Some(0) && Find(body, Delimiter(boundary), p.headers) == Some(p.next)
  {
    hide OnePart, Delimiter, Encode, Find, Contains;
    var body, p, d := OnePart(boundary, header, v), PlaceIn(boundary, header, v), Delimiter(boundary);
    OnePartBytes(boundary, header, v);
    assert body[0..|d|] == body[..|d|];
    FirstIs(body, d, 0, 0);
    assert body[p.next..p.next + |d|] == body[p.next..];
    forall q | p.headers <= q < p.next
      ensures !OccursAt(body, d, q)
    {
      if q < p.blank + 4 {
        NoneInHeader(boundary, header, v, q);
      } else {
        NoneInValue(boundary, header, v, q);
      }
    }
    FirstIs(body, d, p.headers, p.next);
  }

  /** In a form of one part the walk finds it, closed, wherever the delimiter is not. */
  lemma OnePartFound(lossy: Lossy, boundary: string, header: string, v: seq<Byte>, name: string)
    requires OneLine(boundary) && OneLine(header) && lossy(Encode(header)) == header && Names(header, name)
    requires !Contains(Encode(header), Delimiter(boundary)) && !Contains(v, Delimiter(boundary))
    ensures var body, p := OnePart(boundary, header, v), PlaceIn(boundary, header, v);
            FieldPart(lossy, body, boundary, name) == Some(p) && Closed(body, p) && body[p.ValueStart()..p.ValueEnd()] == v
  {
    hide OnePart, Delimiter, Encode, Find, Contains, IsFirst, Names;
    var body, p := OnePart(boundary, header, v), PlaceIn(boundary, header, v);
    OnePartBytes(boundary, header, v);
    BlankIsFirst(boundary, header, v);
    DelimiterIsNext(boundary, header, v);
    assert body[p.next - 2..p.next] == LINE_BREAK;
    assert PartAt(body, Delimiter(boundary), 0) == Some(p);
  }

  // ---------------------------------------------------------------------
  // For one: a value that is cut
  // ---------------------------------------------------------------------

  lemma {:induction false} SplitNone(s: string, c: char)
    requires c !in s
    ensures Split(s, c) == [s]
  {
    if s != "" {
      SplitNone(s[1..], c);
      assert [s[0]] + s[1..] == s;
    }
  }

  lemma {:induction false} SplitOnce(p: string, q: string, c: char)
    requires c !in p && c !in q
    ensures Split(p + [c] + q, c) == [p, q]
    decreases |p|
  {
    var s := p + [c] + q;
    if p == "" {
      assert s[1..] == q;
      SplitNone(q, c);
    } else {
      assert s[1..] == p[1..] + [c] + q;
      SplitOnce(p[1..], q, c);
      assert [p[0]] + p[1..] == p;
    }
  }

  lemma LowerOf(s: string)
    requires forall i :: 0 <= i < |s| ==> s[i] < 'A' || 'Z' < s[i]
    ensures Lower(s) == s
  {
  }

  lemma TrimOf(s: string)
    requires s != "" && !IsSpace(s[0]) && !IsSpace(s[|s| - 1])
    ensures Trim(s) == s
  {
  }

  const DISPOSITION := "content-disposition"
  const HEADER := DISPOSITION + [';'] + "name=m"

  /** A one-line disposition of two parts names what its second part says. */
  lemma SecondNames(first: string, second: string, name: string)
    requires ';' !in first && ';' !in second && OneLine(first) && OneLine(second)
    requires StartsWith(Lower(first + [';'] + second), "content-disposition")
    requires Trim(second) == "name=" + name
    ensures Names(first + [';'] + second, name)
  {
    hide Split, Lower, Trim, StartsWith;
    var header := first + [';'] + second;
    SplitNone(header, '\n');
    assert '\r' !in header;
    assert MapSeq(DropReturn, [header]) == [header];
    assert Disposition([header]) == header;
    SplitOnce(first, second, ';');
    assert Trim([first, second][1]) == "name=" + name;
  }

  lemma HeaderIsLower()
    ensures StartsWith(Lower(HEADER), DISPOSITION)
  {
    LowerOf(HEADER);
    assert HEADER[..|DISPOSITION|] == DISPOSITION;
  }

  lemma HeaderNames()
    ensures Names(HEADER, "m") && OneLine(HEADER)
  {
    hide Names, Split, Lower, Trim, StartsWith;
    HeaderIsLower();
    TrimOf("name=m");
    assert "name=" + "m" == "name=m";
    SecondNames(DISPOSITION, "name=m", "m");
  }

  lemma LacksB(s: string)
    requires 'b' !in s
    ensures !Contains(Encode(s), Delimiter("b"))
  {
    if 98 in Encode(s) {
      AsciiBytes(s, 98);
    }
    EncodeConcat("--", "b");
    assert Encode("b") == [98] by {
      assert "b"[1..] == "";
    }
    assert Delimiter("b")[|Encode("--")|] == 98;
    ContainsLacks(Encode(s), Delimiter("b"), 98);
  }

  /** In a form whose field holds "v" under the boundary "b", the value "x--bx" does not read back. */
  lemma AValueThatIsCut(lossy: Lossy)
    requires lossy(Encode(HEADER)) == HEADER
    ensures var body := OnePart("b", HEADER, Encode("v"));
            && Field(lossy, body, "b", "m") == Some("v")
            && Field(lossy, Replaced(lossy, body, "b", "m", "x--bx"), "b", "m") != Some("x--bx")
  {
    hide OnePart, Delimiter, Encode, FieldPart, Names, Contains, OneLine, ValueText, Trim;
    var body := OnePart("b", HEADER, Encode("v"));
    HeaderNames();
    LacksB(HEADER);
    LacksB("v");
    PlainBoundary();
    OnePartFound(lossy, "b", HEADER, Encode("v"), "m");
    TrimOf("v");
    ReadsItself("v");
    TrimOf("x--bx");
    HoldsDelimiter();
    ReadsBackIff(lossy, body, "b", "m", "x--bx");
  }

  lemma PlainBoundary()
    ensures OneLine("b")
  {
  }

  lemma HoldsDelimiter()
    ensures Contains(Encode("x--bx"), Delimiter("b"))
  {
    hide Encode, Contains;
    assert "x--bx" == "x" + ("--b" + "x");
    EncodeConcat("x", "--b" + "x");
    EncodeConcat("--b", "x");
    assert "--" + "b" == "--b";
    ContainsSelf(Delimiter("b"));
    ContainsMore(Delimiter("b"), Encode("x"), Delimiter("b"));
    ContainsMore(Encode("x"), Delimiter("b") + Encode("x"), Delimiter("b"));
  }

  lemma ContainsSelf(s: seq<Byte>)
    ensures Contains(s, s)
  {
    assert s[0..|s|] == s;
    ContainsAt(s, s, 0);
  }
}
