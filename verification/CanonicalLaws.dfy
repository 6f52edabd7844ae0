/** What the canonical text looks like: the order of the keys at every depth, and the characters of each kind of value. */
module CanonicalLaws {
  import opened Sorting
  import opened CanonicalJson
  import opened CanonicalJsonProofs

  // ----- order of keys -----

  /** Plain printing: fields in the order they are listed, nothing dropped. */
  function PlainText(v: Value): string {
    match v
    case Arr(es) => "[" + Join(seq(|es|, i requires 0 <= i < |es| => PlainText(es[i]))) + "]"
    case Obj(fs) => "{" + Join(seq(|fs|, i requires 0 <= i < |fs| => Quote(fs[i].key) + ":" + PlainText(fs[i].val))) + "}"
    case _ => CanonicalStringify(v)
  }

  /** In every object, at every depth, each key is smaller than the next: they agree up to some place, and there it ends or has the smaller character. */
  ghost predicate KeysAscend(v: Value) {
    match v
    case Arr(es) => forall i :: 0 <= i < |es| ==> KeysAscend(es[i])
    case Obj(fs) =>
      && (forall i, j :: 0 <= i < j < |fs| && j == i + 1 ==> Smaller(fs[i].key, fs[j].key))
      && (forall i :: 0 <= i < |fs| ==> KeysAscend(fs[i].val))
    case _ => true
  }

  /** No undefined anywhere but at the top. */
  predicate NothingUndefined(v: Value) {
    match v
    case Arr(es) => forall i :: 0 <= i < |es| ==> !es[i].Undefined? && NothingUndefined(es[i])
    case Obj(fs) => forall i :: 0 <= i < |fs| ==> !fs[i].val.Undefined? && NothingUndefined(fs[i].val)
    case _ => true
  }

  /** The value with every object's entries in printing order, dropped fields gone and other undefineds null. */
  function Arranged(v: Value): Value {
    match v
    case Arr(es) => Arr(seq(|es|, i requires 0 <= i < |es| => if es[i].Undefined? then Null else Arranged(es[i])))
    case Obj(fs) =>
      var es := Entries(fs);
      Obj(seq(|es|, i requires 0 <= i < |es| => assert es[i] in fs; Field(es[i].key, Arranged(es[i].val))))
    case _ => v
  }

  /**
   The canonical text is what plain printing gives for a value whose keys ascend at every depth, and that value is the
   same JSON value.
   */
  lemma {:induction false} CanonicalIsPlainInOrder(v: Value)
    requires WellFormed(v)
    ensures CanonicalStringify(v) == PlainText(Arranged(v))
    ensures KeysAscend(Arranged(v)) && NothingUndefined(Arranged(v))
    ensures Meaning(Arranged(v)) == Meaning(v)
    decreases v
  {
    match v
    case Arr(es) =>
      forall i | 0 <= i < |es|
        ensures CanonicalStringify(es[i]) == PlainText(Arranged(v).elems[i])
        ensures KeysAscend(Arranged(v).elems[i]) && NothingUndefined(Arranged(v).elems[i]) && !Arranged(v).elems[i].Undefined?
        ensures Meaning(Arranged(v).elems[i]) == Meaning(es[i])
      {
        CanonicalIsPlainInOrder(es[i]);
      }
      ArrayTexts(es, Arranged(v).elems);
    case Obj(fs) =>
      var hs := Arranged(v).fields;
      forall i | 0 <= i < |hs|
        ensures SameField(Entries(fs)[i], hs[i])
      {
        EntriesBelow(v, fs);
        CanonicalIsPlainInOrder(Entries(fs)[i].val);
      }
      ObjectTexts(fs, hs);
      ObjectAscends(fs, hs);
      EntriesKeepMeaning(fs);
      SameMembers(Entries(fs), hs);
    case _ =>
  }

  /** `h` is the printed form of the entry `f`. */
  ghost predicate SameField(f: Field, h: Field) {
    && h.key == f.key && !f.val.Undefined? && !h.val.Undefined?
    && CanonicalStringify(f.val) == PlainText(h.val) && Meaning(h.val) == Meaning(f.val)
    && KeysAscend(h.val) && NothingUndefined(h.val)
  }

  lemma {:induction false} ArrayTexts(es: seq<Value>, hs: seq<Value>)
    requires |es| == |hs| && forall i :: 0 <= i < |es| ==> CanonicalStringify(es[i]) == PlainText(hs[i]) && Meaning(hs[i]) == Meaning(es[i])
    ensures CanonicalStringify(Arr(es)) == PlainText(Arr(hs)) && Meaning(Arr(hs)) == Meaning(Arr(es))
  {
    assert seq(|es|, i requires 0 <= i < |es| => CanonicalStringify(es[i])) == seq(|hs|, i requires 0 <= i < |hs| => PlainText(hs[i]));
    assert Meanings(es) == Meanings(hs);
    assert Meaning(Arr(es)).elems == Meanings(es) && Meaning(Arr(hs)).elems == Meanings(hs);
  }

  lemma {:induction false} ObjectTexts(fs: seq<Field>, hs: seq<Field>)
    requires |hs| == |Entries(fs)| && forall i :: 0 <= i < |hs| ==> SameField(Entries(fs)[i], hs[i])
    ensures CanonicalStringify(Obj(fs)) == PlainText(Obj(hs))
  {
    ObjectText(fs);
    assert MemberTexts(Entries(fs)) == seq(|hs|, i requires 0 <= i < |hs| => Quote(hs[i].key) + ":" + PlainText(hs[i].val));
  }

  lemma {:induction false} ObjectAscends(fs: seq<Field>, hs: seq<Field>)
    requires DistinctKeys(fs)
    requires |hs| == |Entries(fs)| && forall i :: 0 <= i < |hs| ==> SameField(Entries(fs)[i], hs[i])
    ensures KeysAscend(Obj(hs)) && NothingUndefined(Obj(hs))
  {
    EntriesAscend(fs);
    forall i, j | 0 <= i < j < |hs|
      ensures Smaller(hs[i].key, hs[j].key)
    {
      assert KeyLess(Entries(fs)[i], Entries(fs)[j]);
      StringLessExactly(hs[i].key, hs[j].key);
    }
  }

  lemma {:induction false} SameMembers(es: seq<Field>, hs: seq<Field>)
    requires |es| == |hs| && forall i :: 0 <= i < |es| ==> SameField(es[i], hs[i])
    ensures MeaningOf(es) == MeaningOf(hs)
  {
    if es != [] {
      assert SameField(es[0], hs[0]);
      assert forall i :: 0 <= i < |es[1..]| ==> es[1..][i] == es[i + 1] && hs[1..][i] == hs[i + 1];
      SameMembers(es[1..], hs[1..]);
    }
  }

  // ----- the characters -----

  /** What JSON.stringify writes for each character of a string. */
  lemma {:induction false} EscapeTable(c: char)
    ensures c == '"' ==> EscapeChar(c) == "\\\""
    ensures c == '\\' ==> EscapeChar(c) == "\\\\"
    ensures c == '\n' ==> EscapeChar(c) == "\\n"
    ensures c == '\r' ==> EscapeChar(c) == "\\r"
    ensures c == '\t' ==> EscapeChar(c) == "\\t"
    ensures c as int == 8 ==> EscapeChar(c) == "\\b"
    ensures c as int == 12 ==> EscapeChar(c) == "\\f"
    ensures c as int == 0 ==> EscapeChar(c) == "\\u0000"
    ensures c as int == 31 ==> EscapeChar(c) == "\\u001f"
    ensures c as int >= 32 && c != '"' && c != '\\' ==> EscapeChar(c) == [c]
  {
    assert HEX[0] == '0' && HEX[1] == '1' && HEX[15] == 'f';
  }

  /** Scalars and empty containers. */
  lemma {:induction false} ScalarTexts(b: bool, s: string)
    ensures CanonicalStringify(Null) == "null" && CanonicalStringify(Undefined) == "null"
    ensures CanonicalStringify(Bool(b)) == if b then "true" else "false"
    ensures CanonicalStringify(Str(s)) == "\"" + Escape(s) + "\""
    ensures CanonicalStringify(Arr([])) == "[]" && CanonicalStringify(Obj([])) == "{}"
  {
    assert Entries([]) == [];
    ObjectText([]);
  }

  /** The text of a digit. */
  lemma {:induction false} DigitTexts(n: nat)
    requires n < 10
    ensures CanonicalStringify(Num(n)) == ["0", "1", "2", "3", "4", "5", "6", "7", "8", "9"][n]
  {
    assert DigitChar(n) == "0123456789"[n];
  }

  /** The last digit of a longer number comes last, and a minus sign first. */
  lemma {:induction false} NumberTexts(n: nat)
    ensures n >= 10 ==> CanonicalStringify(Num(n)) == CanonicalStringify(Num(n / 10)) + CanonicalStringify(Num(n % 10))
    ensures n > 0 ==> CanonicalStringify(Num(0 - n)) == "-" + CanonicalStringify(Num(n))
  {
    assert Digits(n % 10) == [DigitChar(n % 10)];
  }

  lemma {:induction false} TwoElements(v: Value, w: Value)
    ensures CanonicalStringify(Arr([v, w])) == "[" + (CanonicalStringify(v) + "," + CanonicalStringify(w)) + "]"
  {
    var es := [v, w];
    assert seq(|es|, i requires 0 <= i < |es| => CanonicalStringify(es[i])) == [CanonicalStringify(v), CanonicalStringify(w)];
    JoinTwo(CanonicalStringify(v), CanonicalStringify(w));
  }

  lemma {:induction false} JoinTwo(a: string, b: string)
    ensures Join([a, b]) == a + "," + b
  {
    assert [a, b][1..] == [b];
  }

  /** Two fields, in either order of enumeration: the smaller key is printed first. */
  lemma {:induction false} TwoKeys(f: Field, g: Field)
    requires Smaller(f.key, g.key) && !f.val.Undefined? && !g.val.Undefined?
    ensures CanonicalStringify(Obj([f, g])) == CanonicalStringify(Obj([g, f]))
      == "{" + (MemberText(f) + "," + MemberText(g)) + "}"
  {
    TwoEntries(f, g);
    ObjectText([f, g]);
    ObjectText([g, f]);
    assert MemberTexts([f, g]) == [MemberText(f), MemberText(g)];
    JoinTwo(MemberText(f), MemberText(g));
  }

  lemma {:induction false} FieldText(f: Field)
    ensures MemberText(f) == "\"" + Escape(f.key) + "\":" + CanonicalStringify(f.val)
  {}

  lemma {:induction false} TwoEntries(f: Field, g: Field)
    requires Smaller(f.key, g.key) && !f.val.Undefined? && !g.val.Undefined?
    ensures Entries([f, g]) == Entries([g, f]) == [f, g]
  {
    StringLessExactly(f.key, g.key);
    StringLessTotal(f.key, g.key);
    assert [f, g][1..] == [g] && [g, f][1..] == [f] && [f][1..] == [] && [g][1..] == [];
    assert Defined([f]) == [f] && Defined([g]) == [g];
    assert [f] + [g] == [f, g] && [g] + [f] == [g, f];
    assert Defined([f, g]) == [f, g] && Defined([g, f]) == [g, f];
    assert Sort([g], KeyLess) == [g] && Sort([f], KeyLess) == [f];
  }

  /** A field that is undefined is not printed. */
  lemma {:induction false} UndefinedFieldDropped(f: Field, fs: seq<Field>)
    requires f.val.Undefined?
    ensures CanonicalStringify(Obj([f] + fs)) == CanonicalStringify(Obj(fs))
  {
    assert ([f] + fs)[1..] == fs;
    assert Defined([f] + fs) == Defined(fs);
    ObjectText([f] + fs);
    ObjectText(fs);
  }

  /** Keys by code point, a prefix first. */
  lemma {:induction false} KeyOrderExamples()
    ensures Smaller("a", "b") && Smaller("a", "aa") && Smaller("aa", "b") && Smaller("", "a") && Smaller("Z", "a") && Smaller("10", "9")
  {
    assert SmallerAt("a", "b", 0) && SmallerAt("a", "aa", 1) && SmallerAt("aa", "b", 0) && SmallerAt("", "a", 0);
    assert SmallerAt("Z", "a", 0) && SmallerAt("10", "9", 0);
  }
}
