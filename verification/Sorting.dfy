/** Stable comparison sort, and why its result does not depend on the input order when no two elements tie. */
module Sorting {
  function Insert<T>(x: T, ys: seq<T>, less: (T, T) -> bool): (r: seq<T>)
    ensures |r| == |ys| + 1
    ensures x in r && (forall y :: y in r ==> y == x || y in ys) && (forall y :: y in ys ==> y in r)
  {
    if ys == [] || !less(ys[0], x) then [x] + ys else [ys[0]] + Insert(x, ys[1..], less)
  }

  function Sort<T>(xs: seq<T>, less: (T, T) -> bool): (r: seq<T>)
    ensures |r| == |xs|
    ensures (forall y :: y in r ==> y in xs) && (forall y :: y in xs ==> y in r)
  {
    if xs == [] then [] else Insert(xs[0], Sort(xs[1..], less), less)
  }

  /** `less` is a strict total order on the members of `dom`. */
  ghost predicate OrderOn<T>(dom: seq<T>, less: (T, T) -> bool) {
    && (forall x :: x in dom ==> !less(x, x))
    && (forall x, y :: x in dom && y in dom && x != y ==> less(x, y) || less(y, x))
    && (forall x, y, z :: x in dom && y in dom && z in dom && less(x, y) && less(y, z) ==> less(x, z))
  }

  ghost predicate Ascending<T>(xs: seq<T>, less: (T, T) -> bool) {
    forall i, j :: 0 <= i < j < |xs| ==> less(xs[i], xs[j])
  }

  ghost predicate Distinct<T>(xs: seq<T>) {
    forall i, j :: 0 <= i < j < |xs| ==> xs[i] != xs[j]
  }

  ghost predicate SameMembers<T>(a: seq<T>, b: seq<T>) {
    |a| == |b| && (forall x :: x in a ==> x in b) && (forall x :: x in b ==> x in a)
  }

  lemma {:induction false} InsertAscends<T>(x: T, ys: seq<T>, dom: seq<T>, less: (T, T) -> bool)
    requires OrderOn(dom, less) && x in dom && x !in ys && (forall y :: y in ys ==> y in dom)
    requires Ascending(ys, less)
    ensures Ascending(Insert(x, ys, less), less)
  {
    if ys != [] {
      if less(ys[0], x) {
        InsertAscends(x, ys[1..], dom, less);
        var rest := Insert(x, ys[1..], less);
        forall i | 0 <= i < |rest|
          ensures less(ys[0], rest[i])
        {
          if rest[i] != x {
            assert rest[i] in ys[1..];
          }
        }
      } else {
        assert less(x, ys[0]);
        forall i | 0 <= i < |ys|
          ensures less(x, ys[i])
        {
          assert i > 0 ==> less(ys[0], ys[i]);
        }
      }
    }
  }

  lemma {:induction false} SortAscends<T>(xs: seq<T>, dom: seq<T>, less: (T, T) -> bool)
    requires OrderOn(dom, less) && Distinct(xs) && (forall y :: y in xs ==> y in dom)
    ensures Ascending(Sort(xs, less), less)
  {
    if xs != [] {
      SortAscends(xs[1..], dom, less);
      InsertAscends(xs[0], Sort(xs[1..], less), dom, less);
    }
  }

  lemma {:induction false} LeastIsFirst<T>(a: seq<T>, b: seq<T>, less: (T, T) -> bool)
    requires a != [] && b != [] && SameMembers(a, b) && OrderOn(a, less)
    requires Ascending(a, less) && Ascending(b, less)
    ensures a[0] == b[0]
  {
    assert a[0] in b && b[0] in a;
    var i :| 0 <= i < |b| && b[i] == a[0];
    var j :| 0 <= j < |a| && a[j] == b[0];
  }

  lemma {:induction false} TailMembers<T>(a: seq<T>, less: (T, T) -> bool)
    requires a != [] && OrderOn(a, less) && Ascending(a, less)
    ensures forall x :: x in a[1..] <==> x in a && x != a[0]
  {
    forall x | x in a && x != a[0]
      ensures x in a[1..]
    {
      var i :| 0 <= i < |a| && a[i] == x;
      assert a[1..][i - 1] == x;
    }
    forall x | x in a[1..]
      ensures x != a[0] && x in a
    {
      var i :| 0 <= i < |a[1..]| && a[1..][i] == x;
      assert less(a[0], a[i + 1]);
    }
  }

  /** Two ascending arrangements of the same members are the same sequence. */
  lemma {:induction false} AscendingUnique<T>(a: seq<T>, b: seq<T>, less: (T, T) -> bool)
    requires SameMembers(a, b) && OrderOn(a, less)
    requires Ascending(a, less) && Ascending(b, less)
    ensures a == b
  {
    if a != [] {
      LeastIsFirst(a, b, less);
      TailMembers(a, less);
      TailMembers(b, less);
      AscendingUnique(a[1..], b[1..], less);
    }
  }

  /** Any arrangement of the same members sorts to the same sequence, the only ascending one. */
  lemma {:induction false} SortCanonical<T>(a: seq<T>, b: seq<T>, less: (T, T) -> bool)
    requires SameMembers(a, b) && Distinct(a) && Distinct(b) && OrderOn(a, less)
    ensures Ascending(Sort(a, less), less)
    ensures Sort(a, less) == Sort(b, less)
  {
    SortAscends(a, a, less);
    SortAscends(b, a, less);
    AscendingUnique(Sort(a, less), Sort(b, less), less);
  }

  lemma {:induction false} DistinctCount<T>(a: seq<T>, x: T)
    requires Distinct(a)
    ensures multiset(a)[x] <= 1
  {
    if a != [] {
      DistinctCount(a[1..], x);
      assert a == [a[0]] + a[1..];
      assert forall i :: 0 <= i < |a[1..]| ==> a[1..][i] == a[i + 1] != a[0];
      assert a[0] !in multiset(a[1..]);
    }
  }

  /** A rearrangement of distinct elements has the same members and is distinct. */
  lemma {:induction false} PermutationKeepsDistinct<T>(a: seq<T>, b: seq<T>)
    requires Distinct(a) && multiset(a) == multiset(b)
    ensures Distinct(b) && SameMembers(a, b)
  {
    assert |a| == |multiset(a)| == |b|;
    forall x
      ensures x in a <==> x in b
    {
      assert x in multiset(a) <==> x in multiset(b);
    }
    forall i, j | 0 <= i < j < |b|
      ensures b[i] != b[j]
    {
      DistinctCount(a, b[i]);
      assert b == b[..j] + b[j..];
    }
  }

  // ----- the order on strings -----

  predicate StringLess(a: string, b: string) {
    if b == "" then false
    else if a == "" then true
    else a[0] < b[0] || (a[0] == b[0] && StringLess(a[1..], b[1..]))
  }

  lemma {:induction false} StringLessTotal(a: string, b: string)
    ensures a != b ==> StringLess(a, b) || StringLess(b, a)
    ensures !(StringLess(a, b) && StringLess(b, a))
    ensures !StringLess(a, a)
    decreases |a| + |b|
  {
    if a != "" {
      StringLessTotal(a[1..], if b == "" then "" else b[1..]);
      if b != "" && a[0] == b[0] {
        assert a == [a[0]] + a[1..] && b == [b[0]] + b[1..];
      }
    }
  }

  lemma {:induction false} StringLessTransitive(a: string, b: string, c: string)
    requires StringLess(a, b) && StringLess(b, c)
    ensures StringLess(a, c)
  {
    if a != "" && a[0] == b[0] && b[0] == c[0] {
      StringLessTransitive(a[1..], b[1..], c[1..]);
    }
  }

  /** `a` and `b` agree up to `q`, where `a` ends or has the smaller character. */
  predicate SmallerAt(a: string, b: string, q: nat) {
    && q <= |a| && q < |b|
    && (forall i :: 0 <= i < q ==> a[i] == b[i])
    && (q < |a| ==> a[q] < b[q])
  }

  ghost predicate Smaller(a: string, b: string) {
    exists q: nat :: SmallerAt(a, b, q)
  }

  /** StringLess is lexicographic order by character. */
  lemma {:induction false} StringLessExactly(a: string, b: string)
    ensures StringLess(a, b) <==> Smaller(a, b)
  {
    if StringLess(a, b) {
      var q := SmallerPlace(a, b);
    }
    if q: nat :| SmallerAt(a, b, q) {
      SmallerIsLess(a, b, q);
    }
  }

  lemma {:induction false} SmallerPlace(a: string, b: string) returns (q: nat)
    requires StringLess(a, b)
    ensures SmallerAt(a, b, q)
    decreases |a|
  {
    if a != "" && a[0] == b[0] {
      q := SmallerPlace(a[1..], b[1..]);
      q := q + 1;
      assert forall i :: 0 < i < q ==> a[i] == a[1..][i - 1] && b[i] == b[1..][i - 1];
    } else {
      q := 0;
    }
  }

  lemma {:induction false} SmallerIsLess(a: string, b: string, q: nat)
    requires SmallerAt(a, b, q)
    ensures StringLess(a, b)
  {
    if q > 0 {
      assert forall i :: 0 <= i < q - 1 ==> a[1..][i] == a[i + 1] && b[1..][i] == b[i + 1];
      SmallerIsLess(a[1..], b[1..], q - 1);
      assert a[0] == b[0];
    }
  }
}
