/** Rounded pro-rata shares: `Math.round(amount * weight / total)`, and how far they drift from exact. */
module ProRata {
  import opened Money

  function ShareOf(amount: int, weight: int, total: int): int
    requires total > 0
  {
    Round((amount * weight) as real / total as real)
  }

  ghost function ExactShare(amount: int, weight: int, total: int): real
    requires total > 0
  {
    amount as real * weight as real / total as real
  }

  lemma {:induction false} ExactShareAdd(amount: int, a: int, b: int, total: int)
    requires total > 0
    ensures ExactShare(amount, a + b, total) == ExactShare(amount, a, total) + ExactShare(amount, b, total)
  {
    assert amount as real * (a + b) as real == amount as real * a as real + amount as real * b as real;
  }

  lemma {:induction false} ExactShareOfTotal(amount: int, total: int)
    requires total > 0
    ensures ExactShare(amount, total, total) == amount as real
  {}

  lemma {:induction false} ExactShareSign(amount: int, weight: int, total: int)
    requires amount > 0 && weight >= 0 && total > 0
    ensures ExactShare(amount, weight, total) >= 0.0
    ensures weight > 0 ==> ExactShare(amount, weight, total) > 0.0
  {
    if weight > 0 {
      assert amount as real * weight as real > 0.0;
    }
  }

  lemma {:induction false} ShareWithinHalfCent(amount: int, weight: int, total: int)
    requires total > 0
    ensures ExactShare(amount, weight, total) - 0.5 < ShareOf(amount, weight, total) as real <= ExactShare(amount, weight, total) + 0.5
    ensures weight == 0 ==> ShareOf(amount, weight, total) == 0
  {
    assert (amount * weight) as real == amount as real * weight as real;
  }

  function Sum(ws: seq<int>): int {
    if ws == [] then 0 else ws[0] + Sum(ws[1..])
  }

  function Recipients(ws: seq<int>): nat {
    if ws == [] then 0 else (if ws[0] != 0 then 1 else 0) + Recipients(ws[1..])
  }

  function Shares(amount: int, ws: seq<int>, total: int): seq<int>
    requires total > 0
  {
    seq(|ws|, i requires 0 <= i < |ws| => ShareOf(amount, ws[i], total))
  }

  /** Without a residual, the shares of an amount drift from it by at most half a cent per recipient. */
  lemma {:induction false} SharesDrift(amount: int, ws: seq<int>)
    requires Sum(ws) > 0
    ensures AbsReal((Sum(Shares(amount, ws, Sum(ws))) - amount) as real) <= 0.5 * Recipients(ws) as real
  {
    PartialDrift(amount, ws, Sum(ws));
    ExactShareOfTotal(amount, Sum(ws));
  }

  lemma {:induction false} PartialDrift(amount: int, ws: seq<int>, total: int)
    requires total > 0
    ensures AbsReal(Sum(Shares(amount, ws, total)) as real - ExactShare(amount, Sum(ws), total)) <= 0.5 * Recipients(ws) as real
  {
    if ws != [] {
      PartialDrift(amount, ws[1..], total);
      assert Shares(amount, ws, total)[1..] == Shares(amount, ws[1..], total);
      ExactShareAdd(amount, ws[0], Sum(ws[1..]), total);
      ShareWithinHalfCent(amount, ws[0], total);
    }
  }
}
