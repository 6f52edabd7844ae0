/** Fact snapshots, the completion order on them, and the path resolver of suggest.ts. */
module FactPaths {
  import opened Wrappers

  /** A JSON-like run-time value. Object identity is not represented: see Predicates.StrictEq. */
  datatype Value =
    | Undefined
    | Null
    | Bool(b: bool)
    | Num(n: real)
    | Str(s: string)
    | Arr(elems: seq<Value>)
    | Obj(fields: map<string, Value>)

  predicate Nullish(v: Value) {
    v.Undefined? || v.Null?
  }

  /** Own-property read; an absent key reads as undefined. */
  function Member(v: Value, key: string): Value
    requires v.Obj?
  {
    if key in v.fields then v.fields[key] else Undefined
  }

  // ----- path syntax -----

  /** `path.split('.')` */
  function Split(s: string): (parts: seq<string>)
    ensures |parts| >= 1
  {
    if s == "" then [""]
    else
      var rest := Split(s[1..]);
      if s[0] == '.' then [""] + rest else [[s[0]] + rest[0]] + rest[1..]
  }

  predicate IsSelector(seg: string) {
    |seg| >= 2 && seg[|seg| - 2..] == "[]"
  }

  function KeyOf(seg: string): string {
    if IsSelector(seg) then seg[..|seg| - 2] else seg
  }

  datatype FactResolution =
    | Missing
    | Single(value: Value)
    | Many(values: seq<Value>, anyMissing: bool)

  // ----- reference meaning: walk one branch at a time, depth first -----

  /** What one branch reaches: the values, whether some sub-branch was dead, and whether a selector fanned out. */
  datatype Reach = Reach(values: seq<Value>, missing: bool, selected: bool)

  const DEAD := Reach([], true, false)
  const NOTHING := Reach([], false, false)

  function Merge(a: Reach, b: Reach): Reach {
    Reach(a.values + b.values, a.missing || b.missing, a.selected || b.selected)
  }

  function Follow(v: Value, segs: seq<string>): Reach
    decreases |segs|, 0
  {
    if segs == [] then Reach([v], false, false)
    else if !v.Obj? then DEAD
    else
      var child := Member(v, KeyOf(segs[0]));
      if Nullish(child) then DEAD
      else if !IsSelector(segs[0]) then Follow(child, segs[1..])
      else if child.Arr? then FollowAll(child.elems, segs[1..]).(selected := true)
      else DEAD
  }

  function FollowAll(vs: seq<Value>, segs: seq<string>): Reach
    decreases |segs|, |vs| + 1
  {
    if vs == [] then NOTHING else Merge(Follow(vs[0], segs), FollowAll(vs[1..], segs))
  }

  /** What the depth-first walk says a path resolves to. */
  function Resolve(facts: map<string, Value>, path: string): FactResolution {
    var segs := Split(path);
    if "" in segs then Missing
    else
      var r := Follow(Obj(facts), segs);
      if r.selected then Many(r.values, r.missing)
      else if r.values == [] then Missing
      else Single(r.values[0])
  }

  // ----- the breadth-first loop of the source -----

  lemma {:induction false} FollowAllAppend(a: seq<Value>, b: seq<Value>, segs: seq<string>)
    ensures FollowAll(a + b, segs) == Merge(FollowAll(a, segs), FollowAll(b, segs))
    decreases |a|
  {
    if a == [] {
      assert a + b == b;
    } else {
      assert (a + b)[1..] == a[1..] + b;
      FollowAllAppend(a[1..], b, segs);
      var x, y, z := Follow(a[0], segs), FollowAll(a[1..], segs), FollowAll(b, segs);
      assert x.values + (y.values + z.values) == (x.values + y.values) + z.values;
    }
  }

  /** What the rest of the path still yields while one segment is being expanded: flags so far, the next frontier, the values left. */
  function Pending(missing: bool, selected: bool, next: seq<Value>, left: seq<Value>, segs: seq<string>): Reach
    requires segs != []
  {
    Merge(Merge(Reach([], missing, selected), FollowAll(next, segs[1..])), FollowAll(left, segs))
  }

  lemma {:induction false} MergeAssoc(a: Reach, b: Reach, c: Reach)
    ensures Merge(Merge(a, b), c) == Merge(a, Merge(b, c))
  {
    assert (a.values + b.values) + c.values == a.values + (b.values + c.values);
  }

  /** A value whose branch ends here only raises the missing flag. */
  lemma {:induction false} DeadStep(missing: bool, selected: bool, next: seq<Value>, left: seq<Value>, segs: seq<string>)
    requires segs != [] && left != [] && Follow(left[0], segs) == DEAD
    ensures Pending(missing, selected, next, left, segs) == Pending(true, selected, next, left[1..], segs)
  {
    var soFar := Merge(Reach([], missing, selected), FollowAll(next, segs[1..]));
    MergeAssoc(soFar, DEAD, FollowAll(left[1..], segs));
    assert soFar.values + [] == soFar.values;
  }

  /** A value whose branch lives on passes its children to the next frontier. */
  lemma {:induction false} LiveStep(missing: bool, selected: bool, next: seq<Value>, left: seq<Value>, segs: seq<string>, fan: bool, kids: seq<Value>)
    requires segs != [] && left != []
    requires Follow(left[0], segs) == Merge(Reach([], false, fan), FollowAll(kids, segs[1..]))
    ensures Pending(missing, selected, next, left, segs) == Pending(missing, selected || fan, next + kids, left[1..], segs)
  {
    var after := segs[1..];
    var soFar := Merge(Reach([], missing, selected), FollowAll(next, after));
    MergeAssoc(soFar, Follow(left[0], segs), FollowAll(left[1..], segs));
    FollowAllAppend(next, kids, after);
    assert Merge(soFar, Follow(left[0], segs)) == Merge(Reach([], missing, selected || fan), FollowAll(next + kids, after)) by {
      assert [] + FollowAll(kids, after).values == FollowAll(kids, after).values;
      assert [] + FollowAll(next, after).values == FollowAll(next, after).values;
      assert [] + FollowAll(next + kids, after).values == FollowAll(next + kids, after).values;
    }
  }

  lemma {:induction false} FollowAllOne(v: Value, segs: seq<string>)
    ensures FollowAll([v], segs) == Follow(v, segs)
  {
    assert [v][1..] == [];
    assert Follow(v, segs).values + [] == Follow(v, segs).values;
  }

  lemma {:induction false} MergeNothing(r: Reach)
    ensures Merge(NOTHING, r) == r
    ensures Merge(r, NOTHING) == r
  {
    assert [] + r.values == r.values;
    assert r.values + [] == r.values;
  }

  /** The inner loop: one segment applied to the whole frontier. */
  method ExpandSegment(values: seq<Value>, segs: seq<string>, sawBefore: bool, missingBefore: bool)
    returns (next: seq<Value>, sawSelector: bool, anyMissing: bool)
    requires segs != []
    ensures Merge(Reach([], anyMissing, sawSelector), FollowAll(next, segs[1..]))
      == Merge(Reach([], missingBefore, sawBefore), FollowAll(values, segs))
  {
    var isSelector := IsSelector(segs[0]);
    var key := KeyOf(segs[0]);
    next, sawSelector, anyMissing := [], sawBefore, missingBefore;
    ghost var start := Pending(anyMissing, sawSelector, next, values, segs);
    assert start == Merge(Reach([], missingBefore, sawBefore), FollowAll(values, segs)) by {
      MergeNothing(Reach([], missingBefore, sawBefore));
    }
    assert values[0..] == values;
    for j := 0 to |values|
      invariant start == Pending(anyMissing, sawSelector, next, values[j..], segs)
    {
      var v := values[j];
      assert values[j..][0] == v && values[j..][1..] == values[j + 1..];
      if !v.Obj? {
        DeadStep(anyMissing, sawSelector, next, values[j..], segs);
        anyMissing := true;
        continue;
      }
      var child := Member(v, key);
      if Nullish(child) {
        DeadStep(anyMissing, sawSelector, next, values[j..], segs);
        anyMissing := true;
        continue;
      }
      if isSelector {
        if !child.Arr? {
          DeadStep(anyMissing, sawSelector, next, values[j..], segs);
          anyMissing := true;
          continue;
        }
        assert [] + FollowAll(child.elems, segs[1..]).values == FollowAll(child.elems, segs[1..]).values;
        LiveStep(anyMissing, sawSelector, next, values[j..], segs, true, child.elems);
        sawSelector := true;
        next := next + child.elems;
      } else {
        FollowAllOne(child, segs[1..]);
        MergeNothing(Follow(child, segs[1..]));
        LiveStep(anyMissing, sawSelector, next, values[j..], segs, false, [child]);
        next := next + [child];
      }
    }
    MergeNothing(Merge(Reach([], anyMissing, sawSelector), FollowAll(next, segs[1..])));
  }

  /** The walk so far, with the frontier still to be followed along `left`, accounts for the whole path. */
  ghost predicate Accounts(facts: map<string, Value>, segs: seq<string>, values: seq<Value>, left: seq<string>, saw: bool, missing: bool) {
    Follow(Obj(facts), segs) == Merge(Reach([], missing, saw), FollowAll(values, left))
  }

  lemma {:induction false} AccountsInitially(facts: map<string, Value>, segs: seq<string>)
    ensures Accounts(facts, segs, [Obj(facts)], segs, false, false)
  {
    FollowAllOne(Obj(facts), segs);
    MergeNothing(Follow(Obj(facts), segs));
  }

  /** With no frontier left and no selector seen, the path is a plain miss. */
  lemma {:induction false} DeadFrontier(facts: map<string, Value>, path: string, left: seq<string>, missing: bool)
    requires Accounts(facts, Split(path), [], left, false, missing)
    ensures Resolve(facts, path) == Missing
  {}

  lemma {:induction false} WholePath(facts: map<string, Value>, path: string, values: seq<Value>, saw: bool, missing: bool)
    requires "" !in Split(path)
    requires Accounts(facts, Split(path), values, [], saw, missing)
    ensures Resolve(facts, path)
      == if saw then Many(values, missing) else if values == [] then Missing else Single(values[0])
  {
    FollowAllNoSegments(values);
    assert [] + values == values;
  }

  lemma {:induction false} OneSegmentOff(segs: seq<string>, i: nat)
    requires i < |segs|
    ensures segs[i..][1..] == segs[i + 1..]
  {}

  method ResolveFactPath(facts: map<string, Value>, path: string) returns (res: FactResolution)
    ensures res == Resolve(facts, path)
  {
    var segs := Split(path);
    var values := [Obj(facts)];
    var sawSelector, anyMissing := false, false;
    AccountsInitially(facts, segs);
    assert segs[0..] == segs;
    for i := 0 to |segs|
      invariant forall k :: 0 <= k < i ==> segs[k] != ""
      invariant Accounts(facts, segs, values, segs[i..], sawSelector, anyMissing)
    {
      if segs[i] == "" {
        return Missing;
      }
      OneSegmentOff(segs, i);
      values, sawSelector, anyMissing := ExpandSegment(values, segs[i..], sawSelector, anyMissing);
      if values == [] && !sawSelector {
        DeadFrontier(facts, path, segs[i + 1..], anyMissing);
        return Missing;
      }
    }
    assert segs[|segs|..] == [];
    WholePath(facts, path, values, sawSelector, anyMissing);
    if !sawSelector {
      return if values == [] then Missing else Single(values[0]);
    }
    return Many(values, anyMissing);
  }

  lemma {:induction false} FollowAllNoSegments(vs: seq<Value>)
    ensures FollowAll(vs, []) == Reach(vs, false, false)
  {
    if vs != [] {
      FollowAllNoSegments(vs[1..]);
      assert [vs[0]] + vs[1..] == vs;
    }
  }

  // ----- completions -----

  /** `w` is `v` with absent, undefined or null parts filled in; array lengths are kept. */
  ghost predicate Fills(v: Value, w: Value)
    decreases v
  {
    match v
    case Undefined => true
    case Null => true
    case Arr(xs) => w.Arr? && |w.elems| == |xs| && forall i :: 0 <= i < |xs| ==> Fills(xs[i], w.elems[i])
    case Obj(f) => w.Obj? && forall k :: k in f ==> Fills(f[k], Member(w, k))
    case _ => w == v
  }

  /** The snapshot invariant of the fact schema: null never sits directly inside an array. */
  ghost predicate NoNullElements(v: Value)
    decreases v
  {
    match v
    case Arr(xs) => forall i :: 0 <= i < |xs| ==> !Nullish(xs[i]) && NoNullElements(xs[i])
    case Obj(f) => forall k :: k in f ==> NoNullElements(f[k])
    case _ => true
  }

  /** The completion that replaces every missing part that is written down by `true`. */
  ghost function FillAll(v: Value): (w: Value)
    ensures !Nullish(w)
    ensures Fills(v, w)
    ensures NoNullElements(w)
    decreases v
  {
    match v
    case Undefined => Bool(true)
    case Null => Bool(true)
    case Arr(xs) => Arr(seq(|xs|, i requires 0 <= i < |xs| => FillAll(xs[i])))
    case Obj(f) => Obj(map k | k in f :: FillAll(f[k]))
    case _ => v
  }

  ghost predicate Covered(v: Value, ws: seq<Value>) {
    exists j :: 0 <= j < |ws| && Fills(v, ws[j])
  }

  ghost predicate AllCovered(vs: seq<Value>, ws: seq<Value>) {
    forall i :: 0 <= i < |vs| ==> Covered(vs[i], ws)
  }

  ghost predicate Aligned(vs: seq<Value>, ws: seq<Value>) {
    |vs| == |ws| && forall i :: 0 <= i < |vs| ==> Fills(vs[i], ws[i])
  }

  /** What a completion may do to a reach: keep every value up to filling, and keep "nothing was missing" exactly. */
  ghost predicate ReachFills(a: Reach, b: Reach) {
    && AllCovered(a.values, b.values)
    && (a.selected ==> b.selected)
    && (!a.missing ==> !b.missing && a.selected == b.selected && Aligned(a.values, b.values))
  }

  lemma {:induction false} CoveredLeft(v: Value, a: seq<Value>, b: seq<Value>)
    requires Covered(v, a)
    ensures Covered(v, a + b)
  {
    var j :| 0 <= j < |a| && Fills(v, a[j]);
    assert (a + b)[j] == a[j];
  }

  lemma {:induction false} CoveredRight(v: Value, a: seq<Value>, b: seq<Value>)
    requires Covered(v, b)
    ensures Covered(v, a + b)
  {
    var j :| 0 <= j < |b| && Fills(v, b[j]);
    assert (a + b)[|a| + j] == b[j];
  }

  lemma {:induction false} CoveredAppend(a: seq<Value>, a': seq<Value>, b: seq<Value>, b': seq<Value>)
    requires AllCovered(a, a') && AllCovered(b, b')
    ensures AllCovered(a + b, a' + b')
  {
    forall i | 0 <= i < |a + b|
      ensures Covered((a + b)[i], a' + b')
    {
      if i < |a| {
        CoveredLeft(a[i], a', b');
      } else {
        CoveredRight(b[i - |a|], a', b');
      }
    }
  }

  lemma {:induction false} AlignedAppend(a: seq<Value>, a': seq<Value>, b: seq<Value>, b': seq<Value>)
    requires Aligned(a, a') && Aligned(b, b')
    ensures Aligned(a + b, a' + b')
  {}

  lemma {:induction false} MergeFills(a: Reach, a': Reach, b: Reach, b': Reach)
    requires ReachFills(a, a') && ReachFills(b, b')
    ensures ReachFills(Merge(a, b), Merge(a', b'))
  {
    CoveredAppend(a.values, a'.values, b.values, b'.values);
    if !a.missing && !b.missing {
      AlignedAppend(a.values, a'.values, b.values, b'.values);
    }
  }

  lemma {:induction false} FollowFills(v: Value, w: Value, segs: seq<string>)
    requires Fills(v, w)
    ensures ReachFills(Follow(v, segs), Follow(w, segs))
    decreases |segs|, 0
  {
    if segs == [] {
      assert Fills([v][0], [w][0]);
    } else if v.Obj? {
      var key := KeyOf(segs[0]);
      var child, child' := Member(v, key), Member(w, key);
      if !Nullish(child) {
        assert Fills(child, child');
        if !IsSelector(segs[0]) {
          FollowFills(child, child', segs[1..]);
        } else if child.Arr? {
          FollowAllFills(child.elems, child'.elems, segs[1..]);
        }
      }
    }
  }

  lemma {:induction false} FollowAllFills(vs: seq<Value>, ws: seq<Value>, segs: seq<string>)
    requires |vs| == |ws| && forall i :: 0 <= i < |vs| ==> Fills(vs[i], ws[i])
    ensures ReachFills(FollowAll(vs, segs), FollowAll(ws, segs))
    decreases |segs|, |vs| + 1
  {
    if vs != [] {
      FollowFills(vs[0], ws[0], segs);
      FollowAllFills(vs[1..], ws[1..], segs);
      MergeFills(Follow(vs[0], segs), Follow(ws[0], segs), FollowAll(vs[1..], segs), FollowAll(ws[1..], segs));
    }
  }

  /** Without a selector a branch is one live value or one dead end. */
  lemma {:induction false} UnselectedIsSingle(v: Value, segs: seq<string>)
    ensures !Follow(v, segs).selected ==>
      (Follow(v, segs) == DEAD || (|Follow(v, segs).values| == 1 && !Follow(v, segs).missing))
    decreases |segs|
  {
    if segs != [] && v.Obj? && !IsSelector(segs[0]) {
      UnselectedIsSingle(Member(v, segs[0]), segs[1..]);
    }
  }

  lemma {:induction false} FollowNoNull(v: Value, segs: seq<string>)
    requires !Nullish(v) && NoNullElements(v)
    ensures forall i :: 0 <= i < |Follow(v, segs).values| ==> !Nullish(Follow(v, segs).values[i])
    decreases |segs|, 0
  {
    if segs != [] && v.Obj? {
      var child := Member(v, KeyOf(segs[0]));
      if !Nullish(child) {
        if !IsSelector(segs[0]) {
          FollowNoNull(child, segs[1..]);
        } else if child.Arr? {
          FollowAllNoNull(child.elems, segs[1..]);
        }
      }
    }
  }

  lemma {:induction false} FollowAllNoNull(vs: seq<Value>, segs: seq<string>)
    requires forall i :: 0 <= i < |vs| ==> !Nullish(vs[i]) && NoNullElements(vs[i])
    ensures forall i :: 0 <= i < |FollowAll(vs, segs).values| ==> !Nullish(FollowAll(vs, segs).values[i])
    decreases |segs|, |vs| + 1
  {
    if vs != [] {
      FollowNoNull(vs[0], segs);
      FollowAllNoNull(vs[1..], segs);
    }
  }
}
