/**
 JSON values as the translators see them. Printing and parsing are foreign code
 (serde_json), so they enter as a `Codec` the theorems quantify over; `Lawful`
 and, for what a text quotes, `Plain` state what is used of it, and
 `JsonWitness.LawfulCodecExists` shows some codec has both.
 */
module Json {
  import opened Prelude
  import opened Search

  /** A number that is not a whole one is held as its literal. */
  datatype Value =
    | Null
    | Bool(b: bool)
    | Int(n: int)
    | Float(literal: string)
    | Str(s: string)
    | Arr(items: seq<Value>)
    | Obj(fields: map<string, Value>)

  const EMPTY_OBJECT := Obj(map[])

  type U32 = n: int | 0 <= n < 0x1_0000_0000

  function Get(v: Value, key: string): Option<Value> {
    if v.Obj? && key in v.fields then Some(v.fields[key]) else None
  }

  /** `v.get(key).unwrap_or(&Value::Null)` */
  function GetOrNull(v: Value, key: string): Value {
    if v.Obj? && key in v.fields then v.fields[key] else Null
  }

  function OptStr(v: Value, key: string): Option<string> {
    var field := GetOrNull(v, key);
    if field.Str? then Some(field.s) else None
  }

  /** A string field, or the empty string when absent or of another type. */
  function StrOrEmpty(v: Value, key: string): string {
    var field := GetOrNull(v, key);
    if field.Str? then field.s else ""
  }

  function OptArr(v: Value, key: string): Option<seq<Value>> {
    var field := GetOrNull(v, key);
    if field.Arr? then Some(field.items) else None
  }

  /** `as_u64` followed by a truncating cast to 32 bits; zero when absent. */
  function U32OrZero(v: Value, key: string): U32 {
    var field := GetOrNull(v, key);
    if field.Int? && 0 <= field.n < 0x1_0000_0000_0000_0000 then field.n % 0x1_0000_0000 else 0
  }

  datatype Codec = Codec(show: Value -> string, parse: string -> Option<Value>)

  ghost predicate Lawful(c: Codec) {
    && (forall v :: c.parse(c.show(v)) == Some(v))
    && (forall v :: OneLine(c.show(v)))
    && (forall s :: Blank(s) ==> c.parse(s) == None)
  }

  /** No line break, and nothing for `trim_end` to take. */
  predicate OneLine(s: string) {
    '\n' !in s && '\r' !in s && (s != [] ==> !IsSpace(s[|s| - 1]))
  }

  /** A word of small letters and underscores that starts with a letter JSON writes
      only inside strings: not in a literal, an exponent or an escape. */
  predicate IsWord(w: string) {
    && w != ""
    && (forall i :: 0 <= i < |w| ==> IsWordChar(w[i]))
    && w[0] !in "abcdeflnrstu"
  }

  predicate IsWordChar(c: char) {
    'a' <= c <= 'z' || c == '_'
  }

  /** Some string, key or number literal of the value holds the word. */
  ghost predicate Mentions(v: Value, word: string) {
    match v
    case Str(s) => Contains(s, word)
    case Float(literal) => Contains(literal, word)
    case Arr(items) => exists i :: 0 <= i < |items| && Mentions(items[i], word)
    case Obj(fields) => exists k :: k in fields && (Contains(k, word) || Mentions(fields[k], word))
    case _ => false
  }

  /** Words are printed as they stand, and nothing else spells one. */
  ghost predicate Plain(c: Codec) {
    forall v, w :: IsWord(w) ==> (Contains(c.show(v), w) <==> Mentions(v, w))
  }

  lemma PrintedIsNotBlank(c: Codec, v: Value)
    requires Lawful(c)
    ensures !Blank(c.show(v))
  {
    assert c.parse(c.show(v)) == Some(v);
  }

  /** `from_str(..).unwrap_or({})` */
  function ParseOrEmpty(c: Codec, text: string): Value {
    c.parse(text).GetOr(EMPTY_OBJECT)
  }
}
