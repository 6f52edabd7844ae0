/** Round trip and injectivity of the canonical serialiser. */
module CanonicalJsonProofs {
  import opened Sorting
  import opened CanonicalJson

  // ----- numbers -----

  predicate AllDigits(ds: string) {
    forall i :: 0 <= i < |ds| ==> IsDigit(ds[i])
  }

  lemma {:induction false} DigitsShape(n: nat)
    ensures AllDigits(Digits(n)) && Digits(n) != ""
    ensures n > 0 ==> Digits(n)[0] != '0'
    ensures n < 10 ==> |Digits(n)| == 1
  {
    if n >= 10 {
      DigitsShape(n / 10);
    }
  }

  lemma {:induction false} DigitCharValue(d: nat)
    requires d < 10
    ensures IsDigit(DigitChar(d)) && DigitValue(DigitChar(d)) == d
  {
    assert DigitChar(d) == "0123456789"[d];
  }

  lemma {:induction false} ValueOfSnoc(ds: string, c: char)
    requires AllDigits(ds) && IsDigit(c)
    ensures AllDigits(ds + [c]) && ValueOf(ds + [c]) == 10 * ValueOf(ds) + DigitValue(c)
  {
    assert (ds + [c])[..|ds|] == ds;
  }

  lemma {:induction false} DigitsValue(n: nat)
    ensures AllDigits(Digits(n)) && ValueOf(Digits(n)) == n
  {
    DigitCharValue(n % 10);
    if n < 10 {
      ValueOfSnoc("", DigitChar(n));
      assert "" + [DigitChar(n)] == [DigitChar(n)];
    } else {
      DigitsValue(n / 10);
      ValueOfSnoc(Digits(n / 10), DigitChar(n % 10));
    }
  }

  predicate NoDigitAhead(rest: string) {
    rest == "" || !IsDigit(rest[0])
  }

  lemma {:induction false} DigitRunOf(ds: string, rest: string)
    requires AllDigits(ds) && NoDigitAhead(rest)
    ensures DigitRun(ds + rest) == |ds|
  {
    if ds == "" {
      assert ds + rest == rest;
    } else {
      assert (ds + rest)[1..] == ds[1..] + rest;
      DigitRunOf(ds[1..], rest);
    }
  }

  lemma {:induction false} ParseDigits(n: nat, rest: string)
    requires NoDigitAhead(rest)
    ensures ParseNat(Digits(n) + rest) == Ok(n, rest)
  {
    var ds := Digits(n);
    DigitsShape(n);
    DigitsValue(n);
    DigitRunOf(ds, rest);
    assert (ds + rest)[..|ds|] == ds && (ds + rest)[|ds|..] == rest;
  }

  lemma {:induction false} PrintedNumStarts(n: int)
    ensures PrintNum(n) != "" && (PrintNum(n)[0] == '-' || IsDigit(PrintNum(n)[0]))
  {
    if n >= 0 {
      DigitsShape(n);
    }
  }

  lemma {:induction false} ParsePrintedNat(n: nat, rest: string)
    requires NoDigitAhead(rest)
    ensures ParseNum(Digits(n) + rest) == Ok(JNum(n), rest)
  {
    var s := Digits(n) + rest;
    DigitsShape(n);
    assert s[0] == Digits(n)[0];
    ParseDigits(n, rest);
  }

  lemma {:induction false} ParseNegative(s: string, m: nat, rest: string)
    requires ParseNat(s) == Ok(m, rest)
    ensures ParseNum("-" + s) == Ok(JNum(0 - m), rest)
  {
    assert ("-" + s)[1..] == s;
  }

  lemma {:induction false} ParsePrintedNum(n: int, rest: string)
    requires NoDigitAhead(rest)
    ensures ParseNum(PrintNum(n) + rest) == Ok(JNum(n), rest)
  {
    if n < 0 {
      ParseDigits(-n, rest);
      ParseNegative(Digits(-n) + rest, -n, rest);
      assert PrintNum(n) + rest == "-" + (Digits(-n) + rest);
    } else {
      ParsePrintedNat(n, rest);
    }
  }

  // ----- strings -----

  lemma {:induction false} HexDigits(k: nat)
    requires k < 16
    ensures HexValue(HEX[k]) == k
  {
    if k < 10 {
      assert HEX[k] == "0123456789"[k];
    }
  }

  lemma {:induction false} ParseControl(c: char, tail: string)
    requires c as int < 32
    ensures ParseHex4("00" + [HEX[c as int / 16], HEX[c as int % 16]] + tail) == Ok(c, tail)
  {
    var s := "00" + [HEX[c as int / 16], HEX[c as int % 16]] + tail;
    HexDigits(c as int / 16);
    HexDigits(c as int % 16);
    HexDigits(0);
    assert s[0] == HEX[0] && s[1] == HEX[0] && s[4..] == tail;
  }

  /** Reading one character and then the rest of a string. */
  function Prepend(c: char, p: Parsed<string>): Parsed<string> {
    match p case Fail => Fail case Ok(t, rest) => Ok([c] + t, rest)
  }

  lemma {:induction false} ParseAfterBackslash(escape: string, c: char, tail: string)
    requires ParseEscape(escape + tail) == Ok(c, tail)
    ensures ParseString("\\" + escape + tail) == Prepend(c, ParseString(tail))
  {
    assert ("\\" + escape + tail)[1..] == escape + tail;
  }

  lemma {:induction false} ParseShortEscape(letter: char, c: char, tail: string)
    requires letter != 'u' && ParseEscape([letter]) == Ok(c, "")
    ensures ParseString("\\" + [letter] + tail) == Prepend(c, ParseString(tail))
  {
    assert ([letter] + tail)[1..] == tail;
    ParseAfterBackslash([letter], c, tail);
  }

  lemma {:induction false} ParseLongEscape(c: char, tail: string)
    requires c as int < 32
    ensures ParseString("\\u00" + [HEX[c as int / 16], HEX[c as int % 16]] + tail) == Prepend(c, ParseString(tail))
  {
    var hex := "00" + [HEX[c as int / 16], HEX[c as int % 16]];
    ParseControl(c, tail);
    assert ("u" + hex + tail)[1..] == hex + tail;
    ParseAfterBackslash("u" + hex, c, tail);
    assert "\\u00" + [HEX[c as int / 16], HEX[c as int % 16]] == "\\" + ("u" + hex);
  }

  lemma {:induction false} ParsePlainChar(c: char, tail: string)
    requires c as int >= 32 && c != '"' && c != '\\'
    ensures ParseString([c] + tail) == Prepend(c, ParseString(tail))
  {
    assert ([c] + tail)[1..] == tail;
  }

  /** The second character of a two-character escape names the escaped character. */
  lemma {:induction false} ShortEscape(c: char)
    requires |EscapeChar(c)| == 2
    ensures EscapeChar(c) == "\\" + [EscapeChar(c)[1]] && EscapeChar(c)[1] != 'u'
    ensures ParseEscape([EscapeChar(c)[1]]) == Ok(c, "")
  {}

  lemma {:induction false} EscapeForms(c: char)
    ensures |EscapeChar(c)| == 1 ==> EscapeChar(c) == [c] && c as int >= 32 && c != '"' && c != '\\'
    ensures |EscapeChar(c)| != 1 && |EscapeChar(c)| != 2
      ==> c as int < 32 && EscapeChar(c) == "\\u00" + [HEX[c as int / 16], HEX[c as int % 16]]
  {}

  /** One escaped character is read back as that character. */
  lemma {:induction false} ParseEscapedChar(c: char, tail: string)
    ensures ParseString(EscapeChar(c) + tail) == Prepend(c, ParseString(tail))
  {
    EscapeForms(c);
    if |EscapeChar(c)| == 1 {
      ParsePlainChar(c, tail);
    } else if |EscapeChar(c)| == 2 {
      ShortEscape(c);
      ParseShortEscape(EscapeChar(c)[1], c, tail);
    } else {
      ParseLongEscape(c, tail);
    }
  }

  lemma {:induction false} ParseEscaped(s: string, rest: string)
    ensures ParseString(Escape(s) + "\"" + rest) == Ok(s, rest)
  {
    if s == "" {
      assert (Escape(s) + "\"" + rest)[1..] == rest;
    } else {
      var tail := Escape(s[1..]) + "\"" + rest;
      assert Escape(s) + "\"" + rest == EscapeChar(s[0]) + tail;
      ParseEscaped(s[1..], rest);
      ParseEscapedChar(s[0], tail);
      assert [s[0]] + s[1..] == s;
    }
  }

  // ----- entries -----

  lemma {:induction false} KeyLessIsTotal(fs: seq<Field>)
    requires DistinctKeys(fs)
    ensures OrderOn(fs, KeyLess) && Distinct(fs)
  {
    forall a | a in fs
      ensures !KeyLess(a, a)
    {
      StringLessTotal(a.key, a.key);
    }
    forall a, b | a in fs && b in fs && a != b
      ensures KeyLess(a, b) || KeyLess(b, a)
    {
      var i :| 0 <= i < |fs| && fs[i] == a;
      var j :| 0 <= j < |fs| && fs[j] == b;
      assert i < j || j < i;
      StringLessTotal(a.key, b.key);
    }
    forall a, b, c | a in fs && b in fs && c in fs && KeyLess(a, b) && KeyLess(b, c)
      ensures KeyLess(a, c)
    {
      StringLessTransitive(a.key, b.key, c.key);
    }
  }

  lemma {:induction false} DefinedDistinct(fs: seq<Field>)
    requires DistinctKeys(fs)
    ensures DistinctKeys(Defined(fs))
  {
    if fs != [] {
      DefinedDistinct(fs[1..]);
      forall f | f in fs[1..]
        ensures f.key != fs[0].key
      {
        var i :| 0 <= i < |fs[1..]| && fs[1..][i] == f;
        assert fs[i + 1] == f;
      }
    }
  }

  lemma {:induction false} EntriesAscend(fs: seq<Field>)
    requires DistinctKeys(fs)
    ensures Ascending(Entries(fs), KeyLess) && DistinctKeys(Entries(fs))
  {
    DefinedDistinct(fs);
    KeyLessIsTotal(Defined(fs));
    SortAscends(Defined(fs), Defined(fs), KeyLess);
    var es := Entries(fs);
    forall i, j | 0 <= i < j < |es|
      ensures es[i].key != es[j].key
    {
      StringLessTotal(es[i].key, es[j].key);
      assert KeyLess(es[i], es[j]);
    }
  }

  /** A member record is determined by its defined fields, whatever their order. */
  lemma {:induction false} MembersAre(fs: seq<Field>)
    requires DistinctKeys(fs)
    ensures forall k :: k in MeaningOf(fs) ==> exists f :: f in fs && !f.val.Undefined? && f.key == k
    ensures forall f :: f in fs && !f.val.Undefined? ==> f.key in MeaningOf(fs) && MeaningOf(fs)[f.key] == Meaning(f.val)
  {
    if fs != [] {
      MembersAre(fs[1..]);
      forall f | f in fs[1..]
        ensures f.key != fs[0].key
      {
        var i :| 0 <= i < |fs[1..]| && fs[1..][i] == f;
        assert fs[i + 1] == f;
      }
      forall f | f in fs && !f.val.Undefined?
        ensures f.key in MeaningOf(fs) && MeaningOf(fs)[f.key] == Meaning(f.val)
      {
        if f != fs[0] {
          assert f in fs[1..];
        } else {
          forall k | k in MeaningOf(fs[1..])
            ensures k != f.key
          {
            var g :| g in fs[1..] && g.key == k;
          }
        }
      }
      forall k | k in MeaningOf(fs)
        ensures exists f :: f in fs && !f.val.Undefined? && f.key == k
      {
        if k in MeaningOf(fs[1..]) {
          var g :| g in fs[1..] && !g.val.Undefined? && g.key == k;
          assert g in fs;
        } else {
          assert fs[0] in fs;
        }
      }
    }
  }

  lemma {:induction false} EntriesKeepMeaning(fs: seq<Field>)
    requires DistinctKeys(fs)
    ensures MeaningOf(Entries(fs)) == MeaningOf(fs)
  {
    var es := Entries(fs);
    EntriesAscend(fs);
    MembersAre(fs);
    MembersAre(es);
    forall k
      ensures k in MeaningOf(es) <==> k in MeaningOf(fs)
      ensures k in MeaningOf(es) && k in MeaningOf(fs) ==> MeaningOf(es)[k] == MeaningOf(fs)[k]
    {
      if k in MeaningOf(fs) {
        var f :| f in fs && !f.val.Undefined? && f.key == k;
        assert f in es;
      }
      if k in MeaningOf(es) {
        var f :| f in es && !f.val.Undefined? && f.key == k;
        assert f in fs;
      }
    }
  }

  // ----- one step of the parser at a time -----

  /** What a printed value, or the inside of a printed list, begins with. */
  predicate Starts(s: string) {
    s != "" && !IsSpace(s[0]) && s[0] != ']' && s[0] != '}' && s[0] != ','
  }

  lemma {:induction false} ParseStringValue(s: string)
    requires s != "" && s[0] == '"'
    ensures ParseValue(s) == match ParseString(s[1..]) case Fail => Fail case Ok(t, rest) => Ok(JStr(t), rest)
  {}

  lemma {:induction false} ParseNumValue(s: string)
    requires s != "" && (s[0] == '-' || IsDigit(s[0]))
    ensures ParseValue(s) == ParseNum(s)
  {}

  lemma {:induction false} ParseEmptyArray(rest: string)
    ensures ParseValue("[" + ("]" + rest)) == Ok(JArr([]), rest)
  {
    var s := "[" + ("]" + rest);
    assert s[1..] == "]" + rest && ("]" + rest)[1..] == rest;
  }

  lemma {:induction false} ParseArrayValue(inner: string)
    requires Starts(inner)
    ensures ParseValue("[" + inner) == match ParseElements(inner) case Fail => Fail case Ok(es, rest) => Ok(JArr(es), rest)
  {
    assert ("[" + inner)[1..] == inner;
  }

  lemma {:induction false} ParseEmptyObject(rest: string)
    ensures ParseValue("{" + ("}" + rest)) == Ok(JObj(map[]), rest)
  {
    var s := "{" + ("}" + rest);
    assert s[1..] == "}" + rest && ("}" + rest)[1..] == rest;
  }

  lemma {:induction false} ParseObjectValue(inner: string)
    requires Starts(inner)
    ensures ParseValue("{" + inner) == match ParseMembers(inner) case Fail => Fail case Ok(ms, rest) => Ok(JObj(ms), rest)
  {
    assert ("{" + inner)[1..] == inner;
  }

  lemma {:induction false} ParseLastElement(text: string, v: Json, rest: string)
    requires ParseValue(text) == Ok(v, "]" + rest)
    ensures ParseElements(text) == Ok([v], rest)
  {
    assert ("]" + rest)[1..] == rest;
  }

  lemma {:induction false} ParseNextElement(text: string, v: Json, more: string)
    requires ParseValue(text) == Ok(v, "," + more)
    ensures ParseElements(text) == match ParseElements(more) case Fail => Fail case Ok(vs, rest) => Ok([v] + vs, rest)
  {
    assert ("," + more)[1..] == more;
  }

  lemma {:induction false} ParseOneMember(k: string, valueText: string, v: Json, after: string)
    requires ParseValue(valueText) == Ok(v, after)
    ensures ParseMember(Quote(k) + (":" + valueText)) == Ok(Named(k, v), after)
  {
    var text := Quote(k) + (":" + valueText);
    QuotedHead(k, ":" + valueText);
    ParseEscaped(k, ":" + valueText);
    MemberFrom(text, k, valueText);
  }

  lemma {:induction false} QuotedHead(k: string, after: string)
    ensures (Quote(k) + after)[0] == '"' && (Quote(k) + after)[1..] == Escape(k) + "\"" + after
  {}

  /** A member from its key: what follows the colon is its value. */
  lemma {:induction false} MemberFrom(text: string, k: string, valueText: string)
    requires text != "" && text[0] == '"' && ParseString(text[1..]) == Ok(k, ":" + valueText)
    ensures ParseMember(text) == match ParseValue(valueText) case Fail => Fail case Ok(v, rest) => Ok(Named(k, v), rest)
  {
    assert (":" + valueText)[1..] == valueText;
  }

  lemma {:induction false} ParseLastMember(text: string, m: Named, rest: string)
    requires ParseMember(text) == Ok(m, "}" + rest)
    ensures ParseMembers(text) == Ok(map[m.key := m.val], rest)
  {
    assert ("}" + rest)[1..] == rest;
  }

  lemma {:induction false} ParseNextMember(text: string, m: Named, more: string, ms: map<string, Json>, rest: string)
    requires ParseMember(text) == Ok(m, "," + more)
    requires ParseMembers(more) == Ok(ms, rest)
    ensures ParseMembers(text) == Ok(map[m.key := m.val] + ms, rest)
  {
    assert ("," + more)[1..] == more;
  }

  // ----- the text reads back -----

  function ElementTexts(es: seq<Value>): seq<string> {
    seq(|es|, i requires 0 <= i < |es| => CanonicalStringify(es[i]))
  }

  function MemberText(f: Field): string {
    Quote(f.key) + ":" + CanonicalStringify(f.val)
  }

  function MemberTexts(es: seq<Field>): seq<string> {
    seq(|es|, i requires 0 <= i < |es| => MemberText(es[i]))
  }

  lemma {:induction false} ObjectText(fs: seq<Field>)
    ensures CanonicalStringify(Obj(fs)) == "{" + Join(MemberTexts(Entries(fs))) + "}"
  {
    var es := Entries(fs);
    assert MemberTexts(es) == seq(|es|, i requires 0 <= i < |es| =>
      assert es[i] in fs; Quote(es[i].key) + ":" + CanonicalStringify(es[i].val));
  }

  lemma {:induction false} TextStarts(v: Value)
    ensures Starts(CanonicalStringify(v))
  {
    match v
    case Num(n) => PrintedNumStarts(n);
    case Obj(fs) => ObjectText(fs);
    case _ =>
  }

  lemma {:induction false} JoinStep(parts: seq<string>, close: string)
    requires parts != []
    ensures Join(parts) + close == parts[0] + (if |parts| == 1 then close else "," + (Join(parts[1..]) + close))
  {
    if |parts| > 1 {
      assert Join(parts) + close == parts[0] + ("," + (Join(parts[1..]) + close));
    }
  }

  lemma {:induction false} ParseLiteral(v: Value, rest: string)
    requires v.Undefined? || v.Null? || v.Bool?
    ensures ParseValue(CanonicalStringify(v) + rest) == Ok(Meaning(v), rest)
  {
    var text := CanonicalStringify(v);
    var s := text + rest;
    assert text <= s && s[|text|..] == rest;
  }

  /** Parsing the printed value, whatever follows it, gives back its meaning and leaves what follows. */
  lemma {:induction false} ParsePrinted(v: Value, rest: string)
    requires WellFormed(v) && NoDigitAhead(rest)
    ensures ParseValue(CanonicalStringify(v) + rest) == Ok(Meaning(v), rest)
    decreases v, 1, 0
  {
    match v {
      case Num(n) =>
        ParsePrintedNum(n, rest);
        PrintedNumStarts(n);
        ParseNumValue(PrintNum(n) + rest);
      case Str(t) =>
        QuotedHead(t, rest);
        ParseEscaped(t, rest);
        ParseStringValue(Quote(t) + rest);
      case Arr(es) => ParsePrintedArray(v, es, rest);
      case Obj(fs) => ParsePrintedObject(v, fs, rest);
      case _ => ParseLiteral(v, rest);
    }
  }

  lemma {:induction false} ParsePrintedArray(v: Value, es: seq<Value>, rest: string)
    requires v == Arr(es) && WellFormed(v) && NoDigitAhead(rest)
    ensures ParseValue(CanonicalStringify(v) + rest) == Ok(Meaning(v), rest)
    decreases v, 0, |es| + 1
  {
    var inner := Join(ElementTexts(es)) + ("]" + rest);
    assert CanonicalStringify(v) + rest == "[" + inner;
    assert Meaning(v).elems == Meanings(es);
    if es == [] {
      assert inner == "]" + rest;
      ParseEmptyArray(rest);
    } else {
      TextStarts(es[0]);
      JoinStep(ElementTexts(es), "]" + rest);
      assert inner[0] == CanonicalStringify(es[0])[0];
      ParseArrayValue(inner);
      ParsePrintedElements(v, es, rest);
    }
  }

  lemma {:induction false} ParsePrintedElements(v: Value, es: seq<Value>, rest: string)
    requires es != [] && forall i :: 0 <= i < |es| ==> es[i] < v && WellFormed(es[i])
    ensures ParseElements(Join(ElementTexts(es)) + ("]" + rest)) == Ok(Meanings(es), rest)
    decreases v, 0, |es|
  {
    assert ElementTexts(es)[1..] == ElementTexts(es[1..]);
    JoinStep(ElementTexts(es), "]" + rest);
    if |es| == 1 {
      ParsePrinted(es[0], "]" + rest);
      ParseLastElement(CanonicalStringify(es[0]) + ("]" + rest), Meaning(es[0]), rest);
    } else {
      var more := Join(ElementTexts(es[1..])) + ("]" + rest);
      ParsePrinted(es[0], "," + more);
      ParsePrintedElements(v, es[1..], rest);
      ParseNextElement(CanonicalStringify(es[0]) + ("," + more), Meaning(es[0]), more);
    }
    MeaningsSplit(es);
  }

  lemma {:induction false} MeaningsSplit(es: seq<Value>)
    requires es != []
    ensures Meanings(es) == [Meaning(es[0])] + Meanings(es[1..])
    ensures |es| == 1 ==> Meanings(es) == [Meaning(es[0])]
  {}

  function Meanings(es: seq<Value>): seq<Json> {
    seq(|es|, i requires 0 <= i < |es| => Meaning(es[i]))
  }

  lemma {:induction false} EntriesBelow(v: Value, fs: seq<Field>)
    requires v == Obj(fs) && WellFormed(v)
    ensures forall i :: 0 <= i < |Entries(fs)| ==>
      Entries(fs)[i].val < v && WellFormed(Entries(fs)[i].val) && !Entries(fs)[i].val.Undefined?
  {
    var es := Entries(fs);
    forall i | 0 <= i < |es|
      ensures es[i].val < v && WellFormed(es[i].val) && !es[i].val.Undefined?
    {
      assert es[i] in es && es[i] in fs;
    }
  }

  lemma {:induction false} ObjectTextSplit(fs: seq<Field>, rest: string)
    ensures CanonicalStringify(Obj(fs)) + rest == "{" + (Join(MemberTexts(Entries(fs))) + ("}" + rest))
  {
    ObjectText(fs);
    Regroup("{", Join(MemberTexts(Entries(fs))), "}", rest);
  }

  lemma {:induction false} Regroup(a: string, b: string, c: string, d: string)
    ensures a + b + c + d == a + (b + (c + d))
  {}

  lemma {:induction false} MembersStart(es: seq<Field>, after: string)
    requires es != []
    ensures Starts(Join(MemberTexts(es)) + after)
  {
    JoinStep(MemberTexts(es), after);
    assert MemberText(es[0])[0] == '"';
    assert (Join(MemberTexts(es)) + after)[0] == MemberText(es[0])[0];
  }

  lemma {:induction false} ParsePrintedObject(v: Value, fs: seq<Field>, rest: string)
    requires v == Obj(fs) && WellFormed(v) && NoDigitAhead(rest)
    ensures ParseValue(CanonicalStringify(v) + rest) == Ok(Meaning(v), rest)
    decreases v, 0, |Entries(fs)| + 1
  {
    ObjectTextSplit(fs, rest);
    EntriesKeepMeaning(fs);
    if Entries(fs) == [] {
      assert Join(MemberTexts([])) == "";
      assert "" + ("}" + rest) == "}" + rest;
      ParseEmptyObject(rest);
    } else {
      MembersStart(Entries(fs), "}" + rest);
      EntriesBelow(v, fs);
      ParsePrintedMembers(v, Entries(fs), rest);
      ParseObjectValue(Join(MemberTexts(Entries(fs))) + ("}" + rest));
    }
  }

  lemma {:induction false} MemberTextParses(f: Field, after: string)
    requires ParseValue(CanonicalStringify(f.val) + after) == Ok(Meaning(f.val), after)
    ensures ParseMember(MemberText(f) + after) == Ok(Named(f.key, Meaning(f.val)), after)
  {
    Regroup(Quote(f.key), ":", CanonicalStringify(f.val), after);
    ParseOneMember(f.key, CanonicalStringify(f.val) + after, Meaning(f.val), after);
  }

  lemma {:induction false} ParsePrintedMembers(v: Value, es: seq<Field>, rest: string)
    requires es != []
    requires forall i :: 0 <= i < |es| ==> es[i].val < v && WellFormed(es[i].val) && !es[i].val.Undefined?
    ensures ParseMembers(Join(MemberTexts(es)) + ("}" + rest)) == Ok(MeaningOf(es), rest)
    decreases v, 0, |es|
  {
    assert MemberTexts(es)[1..] == MemberTexts(es[1..]);
    JoinStep(MemberTexts(es), "}" + rest);
    if |es| == 1 {
      ParsePrinted(es[0].val, "}" + rest);
      MemberTextParses(es[0], "}" + rest);
      ParseLastMember(MemberText(es[0]) + ("}" + rest), Named(es[0].key, Meaning(es[0].val)), rest);
      assert es[1..] == [] && MeaningOf([]) == map[];
      assert MeaningOf(es) == map[es[0].key := Meaning(es[0].val)] + map[] == map[es[0].key := Meaning(es[0].val)];
    } else {
      var more := Join(MemberTexts(es[1..])) + ("}" + rest);
      ParsePrinted(es[0].val, "," + more);
      ParsePrintedMembers(v, es[1..], rest);
      MemberTextParses(es[0], "," + more);
      ParseNextMember(MemberText(es[0]) + ("," + more), Named(es[0].key, Meaning(es[0].val)), more, MeaningOf(es[1..]), rest);
    }
  }

  /** The canonical text is JSON and denotes the value. */
  lemma {:induction false} CanonicalTextParses(v: Value)
    requires WellFormed(v)
    ensures Parse(CanonicalStringify(v)) == Ok(Meaning(v), "")
  {
    assert CanonicalStringify(v) + "" == CanonicalStringify(v);
    ParsePrinted(v, "");
  }

  // ----- the text depends on the meaning alone -----

  lemma {:induction false} HeadIsNew(es: seq<Field>)
    requires es != [] && DistinctKeys(es)
    ensures es[0].key !in MeaningOf(es[1..])
  {
    MembersAre(es[1..]);
    forall f | f in es[1..]
      ensures f.key != es[0].key
    {
      var i :| 0 <= i < |es[1..]| && es[1..][i] == f;
      assert es[i + 1] == f;
    }
  }

  lemma {:induction false} MemberCount(es: seq<Field>)
    requires DistinctKeys(es) && forall i :: 0 <= i < |es| ==> !es[i].val.Undefined?
    ensures |MeaningOf(es)| == |es|
  {
    if es != [] {
      MemberCount(es[1..]);
      HeadIsNew(es);
      assert MeaningOf(es).Keys == {es[0].key} + MeaningOf(es[1..]).Keys;
    }
  }

  function Keys(es: seq<Field>): seq<string> {
    seq(|es|, i requires 0 <= i < |es| => es[i].key)
  }

  /** `ks` lists the keys of `m` in ascending order, each once. */
  ghost predicate ListsKeys(ks: seq<string>, m: map<string, Json>) {
    && |ks| == |m| && Ascending(ks, StringLess) && OrderOn(ks, StringLess)
    && forall k :: k in ks <==> k in m
  }

  lemma {:induction false} KeyListUnique(ks: seq<string>, ls: seq<string>, m: map<string, Json>)
    requires ListsKeys(ks, m) && ListsKeys(ls, m)
    ensures ks == ls
  {
    AscendingUnique(ks, ls, StringLess);
  }

  lemma {:induction false} EntriesDefined(fs: seq<Field>)
    ensures forall i :: 0 <= i < |Entries(fs)| ==> Entries(fs)[i] in fs && !Entries(fs)[i].val.Undefined?
  {
    assert forall i :: 0 <= i < |Entries(fs)| ==> Entries(fs)[i] in Entries(fs);
  }

  /** The sorted entries of an object list its members' keys. */
  lemma {:induction false} EntriesAre(fs: seq<Field>)
    requires DistinctKeys(fs)
    ensures ListsKeys(Keys(Entries(fs)), MeaningOf(fs))
  {
    EntriesAscend(fs);
    EntriesKeepMeaning(fs);
    EntriesDefined(fs);
    MemberCount(Entries(fs));
    KeysAre(Entries(fs));
    KeysOrdered(Entries(fs));
  }

  /** The entries carry the members' values. */
  lemma {:induction false} EntryValues(fs: seq<Field>, i: nat)
    requires DistinctKeys(fs) && i < |Entries(fs)|
    ensures Entries(fs)[i].key in MeaningOf(fs) && Meaning(Entries(fs)[i].val) == MeaningOf(fs)[Entries(fs)[i].key]
  {
    EntriesDefined(fs);
    MembersAre(fs);
  }

  lemma {:induction false} KeysAre(es: seq<Field>)
    requires DistinctKeys(es) && forall i :: 0 <= i < |es| ==> !es[i].val.Undefined?
    ensures forall k :: k in Keys(es) <==> k in MeaningOf(es)
  {
    MembersAre(es);
    forall k | k in MeaningOf(es)
      ensures k in Keys(es)
    {
      var f :| f in es && f.key == k;
      var i :| 0 <= i < |es| && es[i] == f;
      assert Keys(es)[i] == k;
    }
    forall k | k in Keys(es)
      ensures k in MeaningOf(es)
    {
      var i :| 0 <= i < |es| && Keys(es)[i] == k;
      assert es[i] in es;
    }
  }

  lemma {:induction false} KeysOrdered(es: seq<Field>)
    requires Ascending(es, KeyLess)
    ensures Ascending(Keys(es), StringLess) && OrderOn(Keys(es), StringLess)
  {
    forall a, b
      ensures !StringLess(a, a)
      ensures a != b ==> StringLess(a, b) || StringLess(b, a)
    {
      StringLessTotal(a, b);
    }
    forall a, b, c | StringLess(a, b) && StringLess(b, c)
      ensures StringLess(a, c)
    {
      StringLessTransitive(a, b, c);
    }
    forall i, j | 0 <= i < j < |es|
      ensures StringLess(es[i].key, es[j].key)
    {
      assert KeyLess(es[i], es[j]);
    }
  }

  lemma {:induction false} SameMeaningSameText(v: Value, w: Value)
    requires WellFormed(v) && WellFormed(w) && Meaning(v) == Meaning(w)
    ensures CanonicalStringify(v) == CanonicalStringify(w)
    decreases v
  {
    match v
    case Arr(es) =>
      var hs := w.elems;
      assert Meaning(v).elems == Meanings(es) && Meaning(w).elems == Meanings(hs);
      assert |es| == |hs|;
      forall i | 0 <= i < |es|
        ensures CanonicalStringify(es[i]) == CanonicalStringify(hs[i])
      {
        assert Meanings(es)[i] == Meanings(hs)[i];
        SameMeaningSameText(es[i], hs[i]);
      }
      assert ElementTexts(es) == ElementTexts(hs);
    case Obj(fs) =>
      var es, hs := Entries(fs), Entries(w.fields);
      SameKeys(fs, w.fields);
      forall i | 0 <= i < |es|
        ensures MemberText(es[i]) == MemberText(hs[i])
      {
        assert Keys(es)[i] == Keys(hs)[i];
        EntryValues(fs, i);
        EntryValues(w.fields, i);
        EntriesDefined(fs);
        EntriesDefined(w.fields);
        SameMeaningSameText(es[i].val, hs[i].val);
      }
      SameMemberTexts(es, hs);
      ObjectText(fs);
      ObjectText(w.fields);
    case _ =>
  }

  lemma {:induction false} SameKeys(fs: seq<Field>, gs: seq<Field>)
    requires DistinctKeys(fs) && DistinctKeys(gs) && MeaningOf(fs) == MeaningOf(gs)
    ensures |Entries(fs)| == |Entries(gs)| && Keys(Entries(fs)) == Keys(Entries(gs))
  {
    EntriesAre(fs);
    EntriesAre(gs);
    KeyListUnique(Keys(Entries(fs)), Keys(Entries(gs)), MeaningOf(fs));
    assert |Entries(fs)| == |Keys(Entries(fs))|;
  }

  lemma {:induction false} SameMemberTexts(es: seq<Field>, hs: seq<Field>)
    requires |es| == |hs| && forall i :: 0 <= i < |es| ==> MemberText(es[i]) == MemberText(hs[i])
    ensures MemberTexts(es) == MemberTexts(hs)
  {}

  /**
   The canonical text, and so any injective hash of it, agrees for two values exactly when they are the same JSON
   value: equal up to key order, dropped undefined fields, and undefined standing for null elsewhere.
   */
  lemma {:induction false} CanonicalExactly(v: Value, w: Value)
    requires WellFormed(v) && WellFormed(w)
    ensures CanonicalStringify(v) == CanonicalStringify(w) <==> Meaning(v) == Meaning(w)
  {
    if Meaning(v) == Meaning(w) {
      SameMeaningSameText(v, w);
    }
    CanonicalTextParses(v);
    CanonicalTextParses(w);
  }

  /** However a store orders the keys of what it reads back from the text, printing again gives the same text. */
  lemma {:induction false} ReprintingIsStable(v: Value, reread: Value)
    requires WellFormed(v) && WellFormed(reread) && Parse(CanonicalStringify(v)) == Ok(Meaning(reread), "")
    ensures CanonicalStringify(reread) == CanonicalStringify(v)
  {
    CanonicalTextParses(v);
    CanonicalExactly(v, reread);
  }
}
