/** What suggest rules mean to their author: laws of the verdict stated on the rule, the recorded value and the path as written. */
module SuggestLaws {
  import opened Wrappers
  import opened FactPaths
  import opened Suggest

  // ----- rules and nodes -----

  function OneLeaf(leaf: Leaf): Rule {
    Rule(Some([Pred(leaf)]), None, None)
  }

  lemma {:induction false} KleeneMeaning(vs: seq<Tri>)
    ensures KleeneAll(vs) == Yes <==> forall i :: 0 <= i < |vs| ==> vs[i] == Yes
    ensures KleeneAll(vs) == No <==> exists i :: 0 <= i < |vs| && vs[i] == No
    ensures KleeneAny(vs) == Yes <==> exists i :: 0 <= i < |vs| && vs[i] == Yes
    ensures KleeneAny(vs) == No <==> forall i :: 0 <= i < |vs| ==> vs[i] == No
  {
    assert No in vs <==> exists i :: 0 <= i < |vs| && vs[i] == No;
    assert Unknown in vs <==> exists i :: 0 <= i < |vs| && vs[i] == Unknown;
    assert Yes in vs <==> exists i :: 0 <= i < |vs| && vs[i] == Yes;
  }

  /** The connectives, member by member. */
  lemma {:induction false} AllMeaning(ctx: Context, ns: seq<Node>)
    ensures EvaluateNodeTri(ctx, All(ns)) == Yes <==> forall i :: 0 <= i < |ns| ==> EvaluateNodeTri(ctx, ns[i]) == Yes
    ensures EvaluateNodeTri(ctx, All(ns)) == No <==> exists i :: 0 <= i < |ns| && EvaluateNodeTri(ctx, ns[i]) == No
  {
    var vs := seq(|ns|, i requires 0 <= i < |ns| => EvaluateNodeTri(ctx, ns[i]));
    assert EvaluateNodeTri(ctx, All(ns)) == KleeneAll(vs);
    KleeneMeaning(vs);
    assert forall i :: 0 <= i < |ns| ==> EvaluateNodeTri(ctx, ns[i]) == vs[i];
    if i :| 0 <= i < |vs| && vs[i] == No {
      assert EvaluateNodeTri(ctx, ns[i]) == No;
    }
  }

  lemma {:induction false} AnyMeaning(ctx: Context, ns: seq<Node>)
    ensures EvaluateNodeTri(ctx, Any(ns)) == Yes <==> exists i :: 0 <= i < |ns| && EvaluateNodeTri(ctx, ns[i]) == Yes
    ensures EvaluateNodeTri(ctx, Any(ns)) == No <==> forall i :: 0 <= i < |ns| ==> EvaluateNodeTri(ctx, ns[i]) == No
  {
    var vs := seq(|ns|, i requires 0 <= i < |ns| => EvaluateNodeTri(ctx, ns[i]));
    assert EvaluateNodeTri(ctx, Any(ns)) == KleeneAny(vs);
    KleeneMeaning(vs);
    assert forall i :: 0 <= i < |ns| ==> EvaluateNodeTri(ctx, ns[i]) == vs[i];
    if i :| 0 <= i < |vs| && vs[i] == Yes {
      assert EvaluateNodeTri(ctx, ns[i]) == Yes;
    }
  }

  lemma {:induction false} NotMeaning(ctx: Context, n: Node)
    ensures EvaluateNodeTri(ctx, Not(n)) == Yes <==> EvaluateNodeTri(ctx, n) == No
    ensures EvaluateNodeTri(ctx, Not(n)) == No <==> EvaluateNodeTri(ctx, n) == Yes
  {}

  /** A rule matches when every clause it has does, is excluded when one of them fails or it has none, and is open otherwise. */
  lemma {:induction false} RuleMeaning(ctx: Context, rule: Rule)
    ensures StatusOf(RuleVerdict(ctx, rule)) == Matched <==>
      && (rule.all.Some? || rule.any.Some? || rule.not.Some?)
      && (rule.all.Some? ==> EvaluateNodeTri(ctx, All(rule.all.value)) == Yes)
      && (rule.any.Some? ==> EvaluateNodeTri(ctx, Any(rule.any.value)) == Yes)
      && (rule.not.Some? ==> EvaluateNodeTri(ctx, rule.not.value) == No)
    ensures StatusOf(RuleVerdict(ctx, rule)) == Excluded <==>
      || (rule.all.None? && rule.any.None? && rule.not.None?)
      || (rule.all.Some? && EvaluateNodeTri(ctx, All(rule.all.value)) == No)
      || (rule.any.Some? && EvaluateNodeTri(ctx, Any(rule.any.value)) == No)
      || (rule.not.Some? && EvaluateNodeTri(ctx, rule.not.value) == Yes)
  {
    var nodes := Clauses(rule);
    AllMeaning(ctx, nodes);
    if rule.not.Some? {
      NotMeaning(ctx, rule.not.value);
    }
    ClausesAre(rule);
  }

  lemma {:induction false} ClausesAre(rule: Rule)
    ensures Clauses(rule) == [] <==> rule.all.None? && rule.any.None? && rule.not.None?
    ensures forall i :: 0 <= i < |Clauses(rule)| ==>
      || (rule.all.Some? && Clauses(rule)[i] == All(rule.all.value))
      || (rule.any.Some? && Clauses(rule)[i] == Any(rule.any.value))
      || (rule.not.Some? && Clauses(rule)[i] == Not(rule.not.value))
    ensures rule.all.Some? ==> exists i :: 0 <= i < |Clauses(rule)| && Clauses(rule)[i] == All(rule.all.value)
    ensures rule.any.Some? ==> exists i :: 0 <= i < |Clauses(rule)| && Clauses(rule)[i] == Any(rule.any.value)
    ensures rule.not.Some? ==> exists i :: 0 <= i < |Clauses(rule)| && Clauses(rule)[i] == Not(rule.not.value)
  {
    var n := if rule.all.Some? then 1 else 0;
    var m := n + if rule.any.Some? then 1 else 0;
    assert rule.all.Some? ==> Clauses(rule)[0] == All(rule.all.value);
    assert rule.any.Some? ==> Clauses(rule)[n] == Any(rule.any.value);
    assert rule.not.Some? ==> Clauses(rule)[m] == Not(rule.not.value);
  }

  lemma {:induction false} OneLeafStatus(ctx: Context, leaf: Leaf)
    ensures StatusOf(RuleVerdict(ctx, OneLeaf(leaf))) == Matched <==> EvaluateLeafTri(ctx, leaf) == Yes
    ensures StatusOf(RuleVerdict(ctx, OneLeaf(leaf))) == Excluded <==> EvaluateLeafTri(ctx, leaf) == No
  {
    RuleMeaning(ctx, OneLeaf(leaf));
    AllMeaning(ctx, [Pred(leaf)]);
    assert [Pred(leaf)][0] == Pred(leaf);
  }

  // ----- one recorded value -----

  /** The leaf reads this one value: a profile field, or a fact path without a selector. */
  predicate Reads(ctx: Context, leaf: Leaf, v: Value) {
    if "facts." <= leaf.field then ctx.facts.Some? && Resolve(ctx.facts.value, leaf.field[6..]) == Single(v)
    else ctx.profile(leaf.field) == v
  }

  /** A number against a number: the four comparisons are those of the real numbers. */
  lemma {:induction false} ComparisonStatus(ctx: Context, leaf: Leaf, a: real, b: real)
    requires Reads(ctx, leaf, Num(a)) && leaf.bound == Some(b)
    ensures leaf.op == Gt ==> StatusOf(RuleVerdict(ctx, OneLeaf(leaf))) == if a > b then Matched else Excluded
    ensures leaf.op == Gte ==> StatusOf(RuleVerdict(ctx, OneLeaf(leaf))) == if a >= b then Matched else Excluded
    ensures leaf.op == Lt ==> StatusOf(RuleVerdict(ctx, OneLeaf(leaf))) == if a < b then Matched else Excluded
    ensures leaf.op == Lte ==> StatusOf(RuleVerdict(ctx, OneLeaf(leaf))) == if a <= b then Matched else Excluded
  {
    OneLeafStatus(ctx, leaf);
  }

  /** Anything else never compares. */
  lemma {:induction false} IncomparableStatus(ctx: Context, leaf: Leaf, v: Value)
    requires Reads(ctx, leaf, v) && (!v.Num? || leaf.bound.None?) && leaf.op in {Gt, Gte, Lt, Lte}
    ensures StatusOf(RuleVerdict(ctx, OneLeaf(leaf))) == Excluded
  {
    OneLeafStatus(ctx, leaf);
  }

  /** Equality is that of scalars; arrays and objects equal nothing; `ne` is the complement, and `in` is equality with a member. */
  lemma {:induction false} EqualityStatus(ctx: Context, leaf: Leaf, v: Value)
    requires Reads(ctx, leaf, v)
    ensures leaf.op == Eq ==>
      (StatusOf(RuleVerdict(ctx, OneLeaf(leaf))) == if v == leaf.value && !v.Arr? && !v.Obj? then Matched else Excluded)
    ensures leaf.op == Ne ==>
      (StatusOf(RuleVerdict(ctx, OneLeaf(leaf))) == if v == leaf.value && !v.Arr? && !v.Obj? then Excluded else Matched)
    ensures leaf.op == In ==>
      (StatusOf(RuleVerdict(ctx, OneLeaf(leaf))) == if leaf.value.Arr? && v in leaf.value.elems && !v.Arr? && !v.Obj? then Matched else Excluded)
    ensures leaf.op == Exists ==>
      (StatusOf(RuleVerdict(ctx, OneLeaf(leaf))) == if v == Undefined || v == Null then Excluded else Matched)
  {
    OneLeafStatus(ctx, leaf);
  }

  /** Without a snapshot, or on a path that is broken or null anywhere, a facts leaf is left to confirm, whatever its test. */
  lemma {:induction false} AbsentFactStatus(ctx: Context, leaf: Leaf)
    requires "facts." <= leaf.field
    requires ctx.facts.Some? ==> Resolve(ctx.facts.value, leaf.field[6..]) == Missing
    ensures StatusOf(RuleVerdict(ctx, OneLeaf(leaf))) == ToConfirm
  {
    OneLeafStatus(ctx, leaf);
  }

  // ----- the values behind a selector -----

  /** The same test on the one value `v`, as a profile field. */
  function Alone(v: Value): Context {
    Context((f: string) => v, None)
  }

  /** Some element suffices; if none does, missing elements leave it open, and a complete list decides it. */
  lemma {:induction false} SelectorStatus(ctx: Context, leaf: Leaf, vs: seq<Value>, missing: bool)
    requires "facts." <= leaf.field && ctx.facts.Some? && Resolve(ctx.facts.value, leaf.field[6..]) == Many(vs, missing)
    ensures
      var some := exists i :: 0 <= i < |vs| && StatusOf(RuleVerdict(Alone(vs[i]), OneLeaf(leaf.(field := "x")))) == Matched;
      StatusOf(RuleVerdict(ctx, OneLeaf(leaf))) == if some then Matched else if missing then ToConfirm else Excluded
  {
    OneLeafStatus(ctx, leaf);
    forall i | 0 <= i < |vs|
      ensures StatusOf(RuleVerdict(Alone(vs[i]), OneLeaf(leaf.(field := "x")))) == Matched <==> ApplyOp(vs[i], leaf)
    {
      SameTest(vs[i], leaf);
    }
  }

  lemma {:induction false} SameTest(v: Value, leaf: Leaf)
    ensures StatusOf(RuleVerdict(Alone(v), OneLeaf(leaf.(field := "x")))) == Matched <==> ApplyOp(v, leaf)
  {
    var plain := leaf.(field := "x");
    OneLeafStatus(Alone(v), plain);
    assert !IsFact(plain) && Alone(v).profile(plain.field) == v;
    assert ApplyOp(v, plain) == ApplyOp(v, leaf);
  }

  // ----- paths as written -----

  /** The parts of a path hold no dot, and put together with dots they are the path. */
  lemma {:induction false} SplitLaw(key: string, rest: string)
    requires '.' !in key
    ensures Split(key) == [key]
    ensures Split(key + "." + rest) == [key] + Split(rest)
  {
    if key == "" {
      assert (key + "." + rest)[1..] == rest;
    } else {
      SplitLaw(key[1..], rest);
      assert (key + "." + rest)[1..] == key[1..] + "." + rest;
      assert [key[0]] + key[1..] == key;
    }
  }

  /** A key as an author writes it: not empty, no dot, no selector at its end. */
  ghost predicate Plain(key: string) {
    key != "" && '.' !in key && !(exists k: string :: key == k + "[]")
  }

  lemma {:induction false} SelectorSyntax(key: string)
    ensures IsSelector(key + "[]") && KeyOf(key + "[]") == key
    ensures Plain(key) ==> !IsSelector(key)
  {
    var seg := key + "[]";
    assert seg[|seg| - 2..] == "[]" && seg[..|seg| - 2] == key;
    if IsSelector(key) {
      assert key == key[..|key| - 2] + "[]";
    }
  }

  /** What the object holds under the key, if it is neither absent nor null. */
  function Held(facts: map<string, Value>, key: string): Option<Value> {
    if key in facts && facts[key] != Undefined && facts[key] != Null then Some(facts[key]) else None
  }

  /** One key without a selector, and what is read along the rest of the path. */
  lemma {:induction false} FollowKey(facts: map<string, Value>, key: string, after: seq<string>)
    requires Plain(key)
    ensures Follow(Obj(facts), [key] + after) == match Held(facts, key) case None => DEAD case Some(v) => Follow(v, after)
  {
    SelectorSyntax(key);
    assert ([key] + after)[1..] == after;
  }

  lemma {:induction false} FollowSelector(facts: map<string, Value>, key: string, after: seq<string>)
    ensures Follow(Obj(facts), [key + "[]"] + after)
      == match Held(facts, key) case Some(Arr(vs)) => FollowAll(vs, after).(selected := true) case _ => DEAD
  {
    SelectorSyntax(key);
    assert ([key + "[]"] + after)[1..] == after;
  }

  /** `key` reads what is recorded under it. */
  lemma {:induction false} PlainPath(facts: map<string, Value>, key: string)
    requires Plain(key)
    ensures Resolve(facts, key) == match Held(facts, key) case None => Missing case Some(v) => Single(v)
  {
    SplitLaw(key, "");
    FollowKey(facts, key, []);
    assert [key] + [] == [key];
  }

  /** `key.rest` is `rest` inside the object recorded under the key; anything else there is a miss. */
  lemma {:induction false} DottedPath(facts: map<string, Value>, key: string, rest: string)
    requires Plain(key)
    ensures Resolve(facts, key + "." + rest) ==
      match Held(facts, key) case Some(Obj(inner)) => Resolve(inner, rest) case _ => Missing
  {
    SplitLaw(key, rest);
    FollowKey(facts, key, Split(rest));
    assert "" in [key] + Split(rest) <==> "" in Split(rest);
  }

  /** `key[]` reads the elements of a recorded array, even of an empty one; anything else there is a miss. */
  lemma {:induction false} SelectorPath(facts: map<string, Value>, key: string)
    requires '.' !in key
    ensures Resolve(facts, key + "[]") == match Held(facts, key) case Some(Arr(vs)) => Many(vs, false) case _ => Missing
  {
    SplitLaw(key + "[]", "");
    FollowSelector(facts, key, []);
    assert [key + "[]"] + [] == [key + "[]"];
    if key in facts && facts[key].Arr? {
      FollowAllNoSegments(facts[key].elems);
    }
  }

  /** What one element adds to a selection along `rest`: its values, and whether something was missing in it. */
  function Found(v: Value, rest: string): (seq<Value>, bool) {
    if v.Obj? then
      match Resolve(v.fields, rest)
      case Missing => ([], true)
      case Single(w) => ([w], false)
      case Many(ws, missing) => (ws, missing)
    else ([], true)
  }

  function FoundAll(vs: seq<Value>, rest: string): (seq<Value>, bool) {
    if vs == [] then ([], false)
    else (Found(vs[0], rest).0 + FoundAll(vs[1..], rest).0, Found(vs[0], rest).1 || FoundAll(vs[1..], rest).1)
  }

  /** `key[].rest` collects `rest` from every element of a recorded array, and notes whether it was missing in any. */
  lemma {:induction false} SelectorDottedPath(facts: map<string, Value>, key: string, rest: string)
    requires '.' !in key && "" !in Split(rest)
    ensures Resolve(facts, key + "[]." + rest) ==
      match Held(facts, key)
      case Some(Arr(vs)) => Many(FoundAll(vs, rest).0, FoundAll(vs, rest).1)
      case _ => Missing
  {
    assert key + "[]." + rest == (key + "[]") + "." + rest;
    SplitLaw(key + "[]", rest);
    FollowSelector(facts, key, Split(rest));
    assert "" in [key + "[]"] + Split(rest) <==> "" in Split(rest);
    if key in facts && facts[key].Arr? {
      FoundAllIs(facts[key].elems, rest);
    }
  }

  lemma {:induction false} FoundIs(v: Value, rest: string)
    requires "" !in Split(rest)
    ensures Found(v, rest) == (Follow(v, Split(rest)).values, Follow(v, Split(rest)).missing)
  {
    UnselectedIsSingle(v, Split(rest));
    if v.Obj? {
      assert Obj(v.fields) == v;
      var r := Follow(v, Split(rest));
      assert !r.selected && r.values != [] ==> r.values == [r.values[0]];
    }
  }

  lemma {:induction false} FoundAllIs(vs: seq<Value>, rest: string)
    requires "" !in Split(rest)
    ensures FoundAll(vs, rest) == (FollowAll(vs, Split(rest)).values, FollowAll(vs, Split(rest)).missing)
  {
    if vs != [] {
      FoundIs(vs[0], rest);
      FoundAllIs(vs[1..], rest);
    }
  }

  // ----- the wording of the explanation -----

  /** The author's label wins; otherwise field, test and value, with "not: " in front of a negated one. */
  lemma {:induction false} WordingLaw(leaf: Leaf, negated: bool)
    ensures leaf.caption != "" ==> DescribeLeaf(leaf, negated) == leaf.caption
    ensures leaf.caption == "" && negated ==> DescribeLeaf(leaf, negated) == "not: " + DescribeLeaf(leaf, false)
    ensures leaf.caption == "" && !negated ==>
      && (leaf.op == Eq ==> DescribeLeaf(leaf, negated) == leaf.field + " is " + leaf.valueText)
      && (leaf.op == Ne ==> DescribeLeaf(leaf, negated) == leaf.field + " is not " + leaf.valueText)
      && (leaf.op == Gt ==> DescribeLeaf(leaf, negated) == leaf.field + " > " + leaf.valueText)
      && (leaf.op == Gte ==> DescribeLeaf(leaf, negated) == leaf.field + " \U{2265} " + leaf.valueText)
      && (leaf.op == Lt ==> DescribeLeaf(leaf, negated) == leaf.field + " < " + leaf.valueText)
      && (leaf.op == Lte ==> DescribeLeaf(leaf, negated) == leaf.field + " \U{2264} " + leaf.valueText)
      && (leaf.op == In ==> DescribeLeaf(leaf, negated) == leaf.field + " is one of " + leaf.valueText)
      && (leaf.op == Exists ==> DescribeLeaf(leaf, negated) == leaf.field + " is on file")
  {
    if leaf.caption == "" {
      Join3(leaf.field, " ", OpText(leaf.op), " ", leaf.valueText);
    }
  }

  lemma {:induction false} Join3(field: string, a: string, op: string, b: string, value: string)
    ensures field + a + op + (b + value) == field + (a + op + b) + value
  {}
}
