/**
 The declarative suggest rules of suggest.ts: the legacy two-valued evaluator, the three-valued evaluator over
 fact snapshots, and the polarity walk that explains a verdict.
 */
module Suggest {
  import opened Wrappers
  import opened FactPaths

  // ----- predicates -----

  datatype Op = Eq | Ne | Gt | Gte | Lt | Lte | In | Exists

  /**
   One predicate. `bound` is the number `value` converts to in a comparison (None for NaN), `valueText` its
   rendering and `caption` the author's label; both conversions are the language's own and any choice of them is allowed.
   */
  datatype Leaf = Leaf(field: string, op: Op, value: Value, bound: Option<real>, valueText: string, caption: string)

  datatype Node =
    | Pred(leaf: Leaf)
    | All(kids: seq<Node>)
    | Any(kids: seq<Node>)
    | Not(kid: Node)

  datatype Rule = Rule(all: Option<seq<Node>>, any: Option<seq<Node>>, not: Option<Node>)

  /** `facts` is None when the plan has no snapshot; `profile` reads one profile field. */
  datatype Context = Context(profile: string -> Value, facts: Option<map<string, Value>>)

  /** `===` between a recorded value and a value written in a rule: arrays and objects are never the same reference. */
  predicate StrictEq(a: Value, b: Value) {
    !a.Arr? && !a.Obj? && a == b
  }

  predicate ApplyOp(actual: Value, leaf: Leaf) {
    match leaf.op
    case Exists => !Nullish(actual)
    case Eq => StrictEq(actual, leaf.value)
    case Ne => !StrictEq(actual, leaf.value)
    case Gt => actual.Num? && leaf.bound.Some? && actual.n > leaf.bound.value
    case Gte => actual.Num? && leaf.bound.Some? && actual.n >= leaf.bound.value
    case Lt => actual.Num? && leaf.bound.Some? && actual.n < leaf.bound.value
    case Lte => actual.Num? && leaf.bound.Some? && actual.n <= leaf.bound.value
    case In => leaf.value.Arr? && exists i :: 0 <= i < |leaf.value.elems| && StrictEq(actual, leaf.value.elems[i])
  }

  predicate EvaluateNode(profile: string -> Value, node: Node) {
    match node
    case Pred(l) => ApplyOp(profile(l.field), l)
    case All(ns) => forall i :: 0 <= i < |ns| ==> EvaluateNode(profile, ns[i])
    case Any(ns) => exists i :: 0 <= i < |ns| && EvaluateNode(profile, ns[i])
    case Not(n) => !EvaluateNode(profile, n)
  }

  /** The clauses of a rule, in the order both evaluators visit them. */
  function Clauses(rule: Rule): seq<Node> {
    (if rule.all.Some? then [All(rule.all.value)] else [])
    + (if rule.any.Some? then [Any(rule.any.value)] else [])
    + (if rule.not.Some? then [Not(rule.not.value)] else [])
  }

  predicate EvaluateSuggestRule(profile: string -> Value, rule: Rule) {
    var nodes := Clauses(rule);
    |nodes| > 0 && forall i :: 0 <= i < |nodes| ==> EvaluateNode(profile, nodes[i])
  }

  // ----- three values -----

  datatype Tri = Yes | No | Unknown

  function FromBool(b: bool): Tri {
    if b then Yes else No
  }

  function KleeneNot(v: Tri): Tri {
    match v case Yes => No case No => Yes case Unknown => Unknown
  }

  function KleeneAll(vs: seq<Tri>): Tri {
    if No in vs then No else if Unknown in vs then Unknown else Yes
  }

  function KleeneAny(vs: seq<Tri>): Tri {
    if Yes in vs then Yes else if Unknown in vs then Unknown else No
  }

  const FACTS_PREFIX := "facts."

  predicate IsFact(leaf: Leaf) {
    FACTS_PREFIX <= leaf.field
  }

  function PathOf(leaf: Leaf): string
    requires IsFact(leaf)
  {
    leaf.field[|FACTS_PREFIX|..]
  }

  function EvaluateLeafTri(ctx: Context, leaf: Leaf): Tri {
    if !IsFact(leaf) then FromBool(ApplyOp(ctx.profile(leaf.field), leaf))
    else if ctx.facts.None? then Unknown
    else
      match Resolve(ctx.facts.value, PathOf(leaf))
      case Missing => Unknown
      case Single(v) => FromBool(ApplyOp(v, leaf))
      case Many(vs, anyMissing) =>
        if exists i :: 0 <= i < |vs| && ApplyOp(vs[i], leaf) then Yes
        else if anyMissing then Unknown
        else No
  }

  function EvaluateNodeTri(ctx: Context, node: Node): Tri {
    match node
    case Pred(l) => EvaluateLeafTri(ctx, l)
    case All(ns) => KleeneAll(seq(|ns|, i requires 0 <= i < |ns| => EvaluateNodeTri(ctx, ns[i])))
    case Any(ns) => KleeneAny(seq(|ns|, i requires 0 <= i < |ns| => EvaluateNodeTri(ctx, ns[i])))
    case Not(n) => KleeneNot(EvaluateNodeTri(ctx, n))
  }

  function RuleVerdict(ctx: Context, rule: Rule): Tri {
    var nodes := Clauses(rule);
    if |nodes| == 0 then No else EvaluateNodeTri(ctx, All(nodes))
  }

  // ----- a definite verdict survives every completion of the facts -----

  /** The information order: unknown may become anything, a definite value stays. */
  predicate Leq(a: Tri, b: Tri) {
    a == Unknown || a == b
  }

  /** A snapshot completes another; any snapshot completes the absent one. */
  ghost predicate Completes(facts: Option<map<string, Value>>, facts': Option<map<string, Value>>) {
    facts.Some? ==> facts'.Some? && Fills(Obj(facts.value), Obj(facts'.value))
  }

  function ResolvedValues(facts: map<string, Value>, path: string): seq<Value> {
    match Resolve(facts, path)
    case Missing => []
    case Single(v) => [v]
    case Many(vs, _) => vs
  }

  ghost predicate NoNullResolved(facts: map<string, Value>, path: string) {
    forall i :: 0 <= i < |ResolvedValues(facts, path)| ==> !Nullish(ResolvedValues(facts, path)[i])
  }

  lemma {:induction false} ApplyOpFills(v: Value, w: Value, leaf: Leaf)
    requires Fills(v, w) && !Nullish(v)
    ensures ApplyOp(v, leaf) == ApplyOp(w, leaf)
  {
    if !v.Arr? && !v.Obj? {
      assert v == w;
    }
  }

  lemma {:induction false} LeafKeepsVerdict(ctx: Context, facts': Option<map<string, Value>>, leaf: Leaf)
    requires Completes(ctx.facts, facts')
    requires IsFact(leaf) && ctx.facts.Some? ==> NoNullResolved(ctx.facts.value, PathOf(leaf))
    ensures Leq(EvaluateLeafTri(ctx, leaf), EvaluateLeafTri(ctx.(facts := facts'), leaf))
  {
    if IsFact(leaf) && ctx.facts.Some? && EvaluateLeafTri(ctx, leaf) != Unknown {
      var f, f' := Obj(ctx.facts.value), Obj(facts'.value);
      var segs := Split(PathOf(leaf));
      var r, r' := Follow(f, segs), Follow(f', segs);
      FollowFills(f, f', segs);
      if !r.selected {
        UnselectedIsSingle(f, segs);
        assert !Nullish(ResolvedValues(ctx.facts.value, PathOf(leaf))[0]);
        ApplyOpFills(r.values[0], r'.values[0], leaf);
      } else if i :| 0 <= i < |r.values| && ApplyOp(r.values[i], leaf) {
        assert Covered(r.values[i], r'.values);
        var j :| 0 <= j < |r'.values| && Fills(r.values[i], r'.values[j]);
        assert !Nullish(ResolvedValues(ctx.facts.value, PathOf(leaf))[i]);
        ApplyOpFills(r.values[i], r'.values[j], leaf);
      } else {
        forall j | 0 <= j < |r'.values|
          ensures !ApplyOp(r'.values[j], leaf)
        {
          assert !Nullish(ResolvedValues(ctx.facts.value, PathOf(leaf))[j]);
          ApplyOpFills(r.values[j], r'.values[j], leaf);
        }
      }
    }
  }

  /** Any composition of all/any/not is monotone in the information order. */
  lemma {:induction false} NodeKeepsVerdict(ctx: Context, facts': Option<map<string, Value>>, node: Node)
    requires Completes(ctx.facts, facts')
    requires ctx.facts.Some? ==> NoNullElements(Obj(ctx.facts.value))
    ensures Leq(EvaluateNodeTri(ctx, node), EvaluateNodeTri(ctx.(facts := facts'), node))
  {
    var ctx' := ctx.(facts := facts');
    match node
    case Pred(l) =>
      if IsFact(l) && ctx.facts.Some? {
        FollowNoNull(Obj(ctx.facts.value), Split(PathOf(l)));
      }
      LeafKeepsVerdict(ctx, facts', l);
    case Not(n) =>
      NodeKeepsVerdict(ctx, facts', n);
    case _ =>
      var ns := node.kids;
      var vs := seq(|ns|, i requires 0 <= i < |ns| => EvaluateNodeTri(ctx, ns[i]));
      var ws := seq(|ns|, i requires 0 <= i < |ns| => EvaluateNodeTri(ctx', ns[i]));
      forall i | 0 <= i < |ns|
        ensures Leq(vs[i], ws[i])
      {
        if ctx.facts.Some? {
          assert ns[i] in ns;
        }
        NodeKeepsVerdict(ctx, facts', ns[i]);
      }
      KleeneMonotone(vs, ws);
  }

  lemma {:induction false} KleeneMonotone(vs: seq<Tri>, ws: seq<Tri>)
    requires |vs| == |ws| && forall i :: 0 <= i < |vs| ==> Leq(vs[i], ws[i])
    ensures Leq(KleeneAll(vs), KleeneAll(ws))
    ensures Leq(KleeneAny(vs), KleeneAny(ws))
  {
    forall i | 0 <= i < |vs|
      ensures vs[i] in vs && ws[i] in ws
    {}
  }

  /** A suggestion reported as matched or as excluded is still so reported once the missing facts are supplied. */
  lemma {:induction false} DefiniteStatusSurvivesCompletion(ctx: Context, facts': Option<map<string, Value>>, rule: Rule)
    requires Completes(ctx.facts, facts')
    requires ctx.facts.Some? ==> NoNullElements(Obj(ctx.facts.value))
    ensures StatusOf(RuleVerdict(ctx, rule)) != ToConfirm
      ==> StatusOf(RuleVerdict(ctx.(facts := facts'), rule)) == StatusOf(RuleVerdict(ctx, rule))
  {
    if Clauses(rule) != [] {
      NodeKeepsVerdict(ctx, facts', All(Clauses(rule)));
    }
  }

  /** No completion of the facts ever changes a definite verdict of a leaf on this path. */
  ghost predicate PathStable(ctx: Context, path: string) {
    forall leaf: Leaf, facts': Option<map<string, Value>> ::
      IsFact(leaf) && PathOf(leaf) == path && Completes(ctx.facts, facts')
      ==> Leq(EvaluateLeafTri(ctx, leaf), EvaluateLeafTri(ctx.(facts := facts'), leaf))
  }

  /** Without the schema's invariant: a path is stable exactly when it resolves to no null. */
  lemma {:induction false} StablePathExactly(ctx: Context, path: string)
    requires ctx.facts.Some?
    ensures PathStable(ctx, path) <==> NoNullResolved(ctx.facts.value, path)
  {
    var vs := ResolvedValues(ctx.facts.value, path);
    if NoNullResolved(ctx.facts.value, path) {
      forall leaf: Leaf, facts': Option<map<string, Value>> | IsFact(leaf) && PathOf(leaf) == path && Completes(ctx.facts, facts') {
        LeafKeepsVerdict(ctx, facts', leaf);
      }
    } else {
      var i :| 0 <= i < |vs| && Nullish(vs[i]);
      NullResolvedIsUnstable(ctx, path, i);
    }
  }

  /** The witness: `eq null` holds now, and no longer once every null has been filled in. */
  lemma {:induction false} NullResolvedIsUnstable(ctx: Context, path: string, i: nat)
    requires ctx.facts.Some?
    requires i < |ResolvedValues(ctx.facts.value, path)| && Nullish(ResolvedValues(ctx.facts.value, path)[i])
    ensures !PathStable(ctx, path)
  {
    var v := ResolvedValues(ctx.facts.value, path)[i];
    var leaf := Leaf(FACTS_PREFIX + path, Eq, v, None, "", "");
    assert PathOf(leaf) == path;
    assert ApplyOp(v, leaf);
    var filled := FillAll(Obj(ctx.facts.value));
    var ctx' := ctx.(facts := Some(filled.fields));
    assert Completes(ctx.facts, ctx'.facts);
    FollowNoNull(filled, Split(path));
    assert EvaluateLeafTri(ctx, leaf) == Yes;
    assert EvaluateLeafTri(ctx', leaf) != Yes;
  }

  // ----- the polarity walk -----

  function OpText(op: Op): string {
    match op
    case Eq => "is"
    case Ne => "is not"
    case Gt => ">"
    case Gte => "\U{2265}"
    case Lt => "<"
    case Lte => "\U{2264}"
    case In => "is one of"
    case Exists => "is on file"
  }

  /** The English rendering of one predicate; the author's label wins. */
  function DescribeLeaf(leaf: Leaf, negated: bool): string {
    if leaf.caption != "" then leaf.caption
    else
      var base := leaf.field + " " + OpText(leaf.op) + (if leaf.op.Exists? then "" else " " + leaf.valueText);
      if negated then "not: " + base else base
  }

  /** A leaf as the walk meets it: under an odd number of `not`s, or not. */
  datatype Occurrence = Occurrence(leaf: Leaf, negated: bool)

  function Occurrences(node: Node, negated: bool): seq<Occurrence>
    decreases node, 1
  {
    match node
    case Pred(l) => [Occurrence(l, negated)]
    case All(ns) => OccurrencesOf(ns, negated)
    case Any(ns) => OccurrencesOf(ns, negated)
    case Not(n) => Occurrences(n, !negated)
  }

  function OccurrencesOf(nodes: seq<Node>, negated: bool): seq<Occurrence>
    decreases nodes, 0
  {
    if nodes == [] then [] else Occurrences(nodes[0], negated) + OccurrencesOf(nodes[1..], negated)
  }

  function Effective(v: Tri, negated: bool): Tri {
    if negated then KleeneNot(v) else v
  }

  function OccurrenceValue(ctx: Context, o: Occurrence): Tri {
    Effective(EvaluateLeafTri(ctx, o.leaf), o.negated)
  }

  /** What one occurrence adds to the list of value `v`. */
  function Entry(ctx: Context, o: Occurrence, v: Tri): seq<string> {
    if OccurrenceValue(ctx, o) == v then [DescribeLeaf(o.leaf, o.negated)] else []
  }

  /** The renderings of exactly the occurrences whose effective value is `v`, in order. */
  function Rendered(ctx: Context, os: seq<Occurrence>, v: Tri): seq<string> {
    if os == [] then [] else Entry(ctx, os[0], v) + Rendered(ctx, os[1..], v)
  }

  lemma {:induction false} RenderedAppend(ctx: Context, a: seq<Occurrence>, b: seq<Occurrence>, v: Tri)
    ensures Rendered(ctx, a + b, v) == Rendered(ctx, a, v) + Rendered(ctx, b, v)
  {
    if a == [] {
      assert a + b == b;
    } else {
      assert (a + b)[1..] == a[1..] + b;
      RenderedAppend(ctx, a[1..], b, v);
      var x, y, z := Entry(ctx, a[0], v), Rendered(ctx, a[1..], v), Rendered(ctx, b, v);
      assert x + (y + z) == (x + y) + z;
    }
  }

  datatype Listing = Listing(matched: seq<string>, toConfirm: seq<string>, excluded: seq<string>)

  /** The lists after the occurrences `os` have been filed, each under its effective value. */
  function Extended(ctx: Context, l: Listing, os: seq<Occurrence>): Listing {
    Listing(l.matched + Rendered(ctx, os, Yes), l.toConfirm + Rendered(ctx, os, Unknown), l.excluded + Rendered(ctx, os, No))
  }

  lemma {:induction false} ExtendedAppend(ctx: Context, l: Listing, a: seq<Occurrence>, b: seq<Occurrence>)
    ensures Extended(ctx, Extended(ctx, l, a), b) == Extended(ctx, l, a + b)
  {
    RenderedAfter(ctx, l.matched, a, b, Yes);
    RenderedAfter(ctx, l.toConfirm, a, b, Unknown);
    RenderedAfter(ctx, l.excluded, a, b, No);
  }

  lemma {:induction false} RenderedAfter(ctx: Context, l: seq<string>, a: seq<Occurrence>, b: seq<Occurrence>, v: Tri)
    ensures (l + Rendered(ctx, a, v)) + Rendered(ctx, b, v) == l + Rendered(ctx, a + b, v)
  {
    RenderedAppend(ctx, a, b, v);
    Associative(l, Rendered(ctx, a, v), Rendered(ctx, b, v));
  }

  lemma {:induction false} Associative<T>(x: seq<T>, y: seq<T>, z: seq<T>)
    ensures (x + y) + z == x + (y + z)
  {}

  lemma {:induction false} RenderedOne(ctx: Context, o: Occurrence, v: Tri)
    ensures Rendered(ctx, [o], v) == Entry(ctx, o, v)
  {
    assert [o][1..] == [];
    assert Entry(ctx, o, v) + [] == Entry(ctx, o, v);
  }

  /** The three growing lists of the walk. */
  class Explanation {
    var matched: seq<string>
    var toConfirm: seq<string>
    var excluded: seq<string>

    ghost function Lists(): Listing
      reads this
    {
      Listing(matched, toConfirm, excluded)
    }

    constructor ()
      ensures Lists() == Listing([], [], [])
    {
      matched, toConfirm, excluded := [], [], [];
    }

    method Collect(ctx: Context, node: Node, negated: bool)
      modifies this
      ensures Lists() == Extended(ctx, old(Lists()), Occurrences(node, negated))
      decreases node, 1
    {
      match node {
        case All(ns) => CollectAll(ctx, ns, negated);
        case Any(ns) => CollectAll(ctx, ns, negated);
        case Not(n) => Collect(ctx, n, !negated);
        case Pred(l) =>
          var raw := EvaluateLeafTri(ctx, l);
          var eff := if negated then KleeneNot(raw) else raw;
          var desc := DescribeLeaf(l, negated);
          ghost var o := Occurrence(l, negated);
          RenderedOne(ctx, o, Yes);
          RenderedOne(ctx, o, Unknown);
          RenderedOne(ctx, o, No);
          if eff == Yes {
            matched := matched + [desc];
          } else if eff == Unknown {
            toConfirm := toConfirm + [desc];
          } else {
            excluded := excluded + [desc];
          }
      }
    }

    method CollectAll(ctx: Context, nodes: seq<Node>, negated: bool)
      modifies this
      ensures Lists() == Extended(ctx, old(Lists()), OccurrencesOf(nodes, negated))
      decreases nodes, 0
    {
      if nodes != [] {
        ExtendedAppend(ctx, Lists(), Occurrences(nodes[0], negated), OccurrencesOf(nodes[1..], negated));
        Collect(ctx, nodes[0], negated);
        CollectAll(ctx, nodes[1..], negated);
      }
    }
  }

  datatype Status = Matched | ToConfirm | Excluded

  function StatusOf(v: Tri): Status {
    match v case Yes => Matched case Unknown => ToConfirm case No => Excluded
  }

  datatype Evaluation = Evaluation(status: Status, matched: seq<string>, toConfirm: seq<string>, excluded: seq<string>)

  method EvaluateSuggestRuleTri(ctx: Context, rule: Rule) returns (e: Evaluation)
    ensures e.status == StatusOf(RuleVerdict(ctx, rule))
    ensures e.matched == Rendered(ctx, OccurrencesOf(Clauses(rule), false), Yes)
    ensures e.toConfirm == Rendered(ctx, OccurrencesOf(Clauses(rule), false), Unknown)
    ensures e.excluded == Rendered(ctx, OccurrencesOf(Clauses(rule), false), No)
  {
    var nodes := Clauses(rule);
    var walk := new Explanation();
    walk.CollectAll(ctx, nodes, false);
    var overall := if |nodes| == 0 then No else KleeneAll(seq(|nodes|, i requires 0 <= i < |nodes| => EvaluateNodeTri(ctx, nodes[i])));
    return Evaluation(StatusOf(overall), walk.matched, walk.toConfirm, walk.excluded);
  }

  /** Every occurrence is reported in exactly one list: the three lists account for all of them. */
  lemma {:induction false} EachOccurrenceListedOnce(ctx: Context, os: seq<Occurrence>)
    ensures |Rendered(ctx, os, Yes)| + |Rendered(ctx, os, Unknown)| + |Rendered(ctx, os, No)| == |os|
    ensures forall o :: o in os ==> DescribeLeaf(o.leaf, o.negated) in Rendered(ctx, os, OccurrenceValue(ctx, o))
  {
    if os != [] {
      EachOccurrenceListedOnce(ctx, os[1..]);
    }
  }

  // ----- the walk agrees with the verdict -----

  /**
   The negation-normal reading of a node: `not` is pushed to the leaves, and an unknown occurrence at position `at`
   is settled by `sigma`, independently of every other occurrence.
   */
  ghost predicate Settle(ctx: Context, node: Node, negated: bool, at: seq<nat>, sigma: seq<nat> -> bool) {
    match node
    case Pred(l) =>
      var eff := OccurrenceValue(ctx, Occurrence(l, negated));
      eff == Yes || (eff == Unknown && sigma(at))
    case All(ns) =>
      if !negated then forall i :: 0 <= i < |ns| ==> Settle(ctx, ns[i], negated, at + [i], sigma)
      else exists i :: 0 <= i < |ns| && Settle(ctx, ns[i], negated, at + [i], sigma)
    case Any(ns) =>
      if !negated then exists i :: 0 <= i < |ns| && Settle(ctx, ns[i], negated, at + [i], sigma)
      else forall i :: 0 <= i < |ns| ==> Settle(ctx, ns[i], negated, at + [i], sigma)
    case Not(n) => Settle(ctx, n, !negated, at, sigma)
  }

  ghost function Uniform(favour: bool): seq<nat> -> bool {
    (p: seq<nat>) => favour
  }

  lemma {:induction false} SettleMonotone(ctx: Context, node: Node, negated: bool, at: seq<nat>, sigma: seq<nat> -> bool)
    ensures Settle(ctx, node, negated, at, Uniform(false)) ==> Settle(ctx, node, negated, at, sigma)
    ensures Settle(ctx, node, negated, at, sigma) ==> Settle(ctx, node, negated, at, Uniform(true))
  {
    match node
    case Pred(l) =>
    case Not(n) => SettleMonotone(ctx, n, !negated, at, sigma);
    case _ =>
      forall i | 0 <= i < |node.kids| {
        SettleMonotone(ctx, node.kids[i], negated, at + [i], sigma);
      }
  }

  /** The Kleene verdict is the negation-normal reading with every unknown unfavourable, resp. favourable. */
  lemma {:induction false} VerdictBySettling(ctx: Context, node: Node, negated: bool, at: seq<nat>)
    ensures Effective(EvaluateNodeTri(ctx, node), negated)
      == Between(Settle(ctx, node, negated, at, Uniform(false)), Settle(ctx, node, negated, at, Uniform(true)))
    decreases node, 1
  {
    match node
    case Pred(l) =>
    case Not(n) =>
      VerdictBySettling(ctx, n, !negated, at);
    case _ => SettlingGroup(ctx, node, negated, at);
  }

  /** The group case: the members are bracketed one by one, and Kleene's connectives keep the brackets. */
  lemma {:induction false} SettlingGroup(ctx: Context, node: Node, negated: bool, at: seq<nat>)
    requires node.All? || node.Any?
    ensures Effective(EvaluateNodeTri(ctx, node), negated)
      == Between(Settle(ctx, node, negated, at, Uniform(false)), Settle(ctx, node, negated, at, Uniform(true)))
    decreases node, 0
  {
    var ns := node.kids;
    var vs := seq(|ns|, i requires 0 <= i < |ns| => EvaluateNodeTri(ctx, ns[i]));
    var lows := SettledKids(ctx, ns, negated, at, Uniform(false));
    var highs := SettledKids(ctx, ns, negated, at, Uniform(true));
    forall i | 0 <= i < |ns|
      ensures Effective(vs[i], negated) == Between(lows[i], highs[i]) && (lows[i] ==> highs[i])
    {
      VerdictBySettling(ctx, ns[i], negated, at + [i]);
      SettleMonotone(ctx, ns[i], negated, at + [i], Uniform(true));
    }
    KleeneBetween(vs, lows, highs, negated);
    SettleGroup(ctx, node, negated, at, Uniform(false));
    SettleGroup(ctx, node, negated, at, Uniform(true));
  }

  ghost function SettledKids(ctx: Context, ns: seq<Node>, negated: bool, at: seq<nat>, sigma: seq<nat> -> bool): (bs: seq<bool>)
    ensures |bs| == |ns|
    ensures forall i :: 0 <= i < |ns| ==> bs[i] == Settle(ctx, ns[i], negated, at + [i], sigma)
  {
    seq(|ns|, i requires 0 <= i < |ns| => Settle(ctx, ns[i], negated, at + [i], sigma))
  }

  lemma {:induction false} SettleGroup(ctx: Context, node: Node, negated: bool, at: seq<nat>, sigma: seq<nat> -> bool)
    requires node.All? || node.Any?
    ensures Settle(ctx, node, negated, at, sigma)
      == (if node.All? != negated then AllOf(SettledKids(ctx, node.kids, negated, at, sigma)) else AnyOf(SettledKids(ctx, node.kids, negated, at, sigma)))
  {
    var bs := SettledKids(ctx, node.kids, negated, at, sigma);
    if node.All? != negated {
      assert AllOf(bs) <==> forall i :: 0 <= i < |node.kids| ==> Settle(ctx, node.kids[i], negated, at + [i], sigma);
    } else {
      assert AnyOf(bs) <==> exists i :: 0 <= i < |node.kids| && Settle(ctx, node.kids[i], negated, at + [i], sigma);
    }
  }

  function Between(low: bool, high: bool): Tri {
    if low then Yes else if high then Unknown else No
  }

  predicate AllOf(bs: seq<bool>) {
    forall i :: 0 <= i < |bs| ==> bs[i]
  }

  predicate AnyOf(bs: seq<bool>) {
    exists i :: 0 <= i < |bs| && bs[i]
  }

  /** Kleene conjunction and disjunction, and their duals under negation, on bracketed members. */
  lemma {:induction false} KleeneBetween(vs: seq<Tri>, lows: seq<bool>, highs: seq<bool>, negated: bool)
    requires |vs| == |lows| == |highs|
    requires forall i :: 0 <= i < |vs| ==> Effective(vs[i], negated) == Between(lows[i], highs[i]) && (lows[i] ==> highs[i])
    ensures Effective(KleeneAll(vs), negated) == if negated then Between(AnyOf(lows), AnyOf(highs)) else Between(AllOf(lows), AllOf(highs))
    ensures Effective(KleeneAny(vs), negated) == if negated then Between(AllOf(lows), AllOf(highs)) else Between(AnyOf(lows), AnyOf(highs))
  {
    forall i | 0 <= i < |vs|
      ensures vs[i] in vs
    {}
  }

  /**
   "Unknown" is tight. A node is a definite yes exactly when every independent way to settle the unknown occurrences
   gives true, a definite no exactly when none does, and unknown exactly when they disagree.
   */
  lemma {:induction false} UnknownIsTight(ctx: Context, node: Node)
    ensures EvaluateNodeTri(ctx, node) == Yes <==> forall sigma :: Settle(ctx, node, false, [], sigma)
    ensures EvaluateNodeTri(ctx, node) == No <==> forall sigma :: !Settle(ctx, node, false, [], sigma)
    ensures EvaluateNodeTri(ctx, node) == Unknown <==>
      Settle(ctx, node, false, [], Uniform(true)) && !Settle(ctx, node, false, [], Uniform(false))
  {
    VerdictBySettling(ctx, node, false, []);
    forall sigma: seq<nat> -> bool {
      SettleMonotone(ctx, node, false, [], sigma);
    }
  }

  /** The authored shape: no empty all/any list anywhere. */
  predicate NonEmptyLists(node: Node) {
    match node
    case Pred(_) => true
    case Not(n) => NonEmptyLists(n)
    case _ => |node.kids| > 0 && forall i :: 0 <= i < |node.kids| ==> NonEmptyLists(node.kids[i])
  }

  lemma {:induction false} OccurrencesOfContains(nodes: seq<Node>, negated: bool, i: nat)
    requires i < |nodes|
    ensures forall o :: o in Occurrences(nodes[i], negated) ==> o in OccurrencesOf(nodes, negated)
  {
    if i > 0 {
      OccurrencesOfContains(nodes[1..], negated, i - 1);
    }
  }

  ghost predicate HasOccurrence(ctx: Context, os: seq<Occurrence>, v: Tri) {
    exists o :: o in os && OccurrenceValue(ctx, o) == v
  }

  /** Every verdict has evidence: some occurrence has, effectively, the value of the whole node. */
  lemma {:induction false} VerdictHasEvidence(ctx: Context, node: Node, negated: bool)
    requires NonEmptyLists(node)
    ensures HasOccurrence(ctx, Occurrences(node, negated), Effective(EvaluateNodeTri(ctx, node), negated))
  {
    match node
    case Pred(l) =>
      assert Occurrence(l, negated) in Occurrences(node, negated);
    case Not(n) =>
      VerdictHasEvidence(ctx, n, !negated);
    case _ =>
      var ns := node.kids;
      var vs := seq(|ns|, i requires 0 <= i < |ns| => EvaluateNodeTri(ctx, ns[i]));
      assert vs[0] in vs;
      var i :| 0 <= i < |ns| && vs[i] == EvaluateNodeTri(ctx, node);
      VerdictHasEvidence(ctx, ns[i], negated);
      OccurrencesOfContains(ns, negated, i);
  }

  lemma {:induction false} RenderedNonEmpty(ctx: Context, os: seq<Occurrence>, o: Occurrence)
    requires o in os
    ensures Rendered(ctx, os, OccurrenceValue(ctx, o)) != []
  {
    if o != os[0] {
      RenderedNonEmpty(ctx, os[1..], o);
    }
  }

  /** An authored rule with some clause: the list that belongs to its status is never empty. */
  lemma {:induction false} StatusHasNonEmptyList(ctx: Context, rule: Rule)
    requires Clauses(rule) != [] && NonEmptyLists(All(Clauses(rule)))
    ensures Rendered(ctx, OccurrencesOf(Clauses(rule), false), RuleVerdict(ctx, rule)) != []
  {
    VerdictHasEvidence(ctx, All(Clauses(rule)), false);
    var o :| o in OccurrencesOf(Clauses(rule), false) && OccurrenceValue(ctx, o) == RuleVerdict(ctx, rule);
    RenderedNonEmpty(ctx, OccurrencesOf(Clauses(rule), false), o);
  }

  /** With nothing to confirm the verdict is definite. */
  lemma {:induction false} NothingToConfirmIsDefinite(ctx: Context, rule: Rule)
    requires NonEmptyLists(All(Clauses(rule))) || Clauses(rule) == []
    ensures Rendered(ctx, OccurrencesOf(Clauses(rule), false), Unknown) == [] ==> RuleVerdict(ctx, rule) != Unknown
  {
    if Clauses(rule) != [] {
      StatusHasNonEmptyList(ctx, rule);
    }
  }

  // ----- agreement with the legacy evaluator -----

  predicate ProfileOnly(node: Node) {
    match node
    case Pred(l) => !IsFact(l)
    case Not(n) => ProfileOnly(n)
    case _ => forall i :: 0 <= i < |node.kids| ==> ProfileOnly(node.kids[i])
  }

  lemma {:induction false} NodeAgreesWithLegacy(ctx: Context, node: Node)
    requires ProfileOnly(node)
    ensures EvaluateNodeTri(ctx, node) == FromBool(EvaluateNode(ctx.profile, node))
  {
    match node
    case Pred(l) =>
    case Not(n) =>
      NodeAgreesWithLegacy(ctx, n);
    case _ =>
      var ns := node.kids;
      var vs := seq(|ns|, i requires 0 <= i < |ns| => EvaluateNodeTri(ctx, ns[i]));
      forall i | 0 <= i < |ns|
        ensures vs[i] == FromBool(EvaluateNode(ctx.profile, ns[i])) && vs[i] in vs
      {
        NodeAgreesWithLegacy(ctx, ns[i]);
      }
  }

  /** For every rule with no facts leaf, empty lists and clause-free rules included: matched exactly as before, never to confirm. */
  lemma {:induction false} RuleAgreesWithLegacy(ctx: Context, rule: Rule)
    requires forall i :: 0 <= i < |Clauses(rule)| ==> ProfileOnly(Clauses(rule)[i])
    ensures RuleVerdict(ctx, rule) == FromBool(EvaluateSuggestRule(ctx.profile, rule))
  {
    NodeAgreesWithLegacy(ctx, All(Clauses(rule)));
  }
}
