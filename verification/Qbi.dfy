/** The section 199A deduction of qbi.ts. All cents. */
module Qbi {
  import opened Money

  datatype QbiBusiness = QbiBusiness(qbi: int, w2Wages: int, sstb: bool)

  /** The qbi group of the table set, read at the return's filing status. */
  datatype QbiTable = QbiTable(rate: real, threshold: real, phaseInRange: real, minAmount: real, qbiFloor: real)

  /** 0 below the threshold, 1 at the top of the phase-in range. */
  function PhaseRatio(taxableIncomeBeforeQbi: int, t: QbiTable): (ratio: real)
    ensures ratio <= 1.0
    ensures Dollars(t.phaseInRange) >= 0 ==> 0.0 <= ratio
  {
    var range := Dollars(t.phaseInRange);
    var over := ClampMin0(taxableIncomeBeforeQbi - Dollars(t.threshold));
    if range == 0 then 1.0 else MinReal(1.0, over as real / range as real)
  }

  function Tentative(b: QbiBusiness, ratio: real, rate: real): int {
    MulRate(Counted(b.qbi, b.sstb, ratio), rate)
  }

  /** What still counts of an amount: a specified service business's amounts phase out with the ratio. */
  function Counted(amount: int, sstb: bool, ratio: real): int {
    if sstb then Round(amount as real * (1.0 - ratio)) else amount
  }

  function WageLimit(b: QbiBusiness, ratio: real): int {
    MulRate(Counted(b.w2Wages, b.sstb, ratio), 0.5)
  }

  /** What one business adds to the combined amount. */
  function Component(b: QbiBusiness, ratio: real, rate: real): int {
    if b.qbi <= 0 then MulRate(b.qbi, rate)
    else if b.sstb && ratio >= 1.0 then 0
    else if ratio <= 0.0 then Tentative(b, ratio, rate)
    else
      Limited(Tentative(b, ratio, rate), WageLimit(b, ratio), ratio)
  }

  /** The tentative amount less the phased-in part of its excess over the wage limit. */
  function Limited(tentative: int, limit: int, ratio: real): int {
    tentative - Round(ClampMin0(tentative - limit) as real * ratio)
  }

  /**
   The wage limit phases in: never below the limited amount, never above the tentative one, no limit at ratio 0, and
   fully limited at ratio 1, where a specified service business gets nothing at all.
   */
  lemma {:induction false} WageLimitPhasesIn(b: QbiBusiness, ratio: real, rate: real)
    requires b.qbi > 0 && 0.0 <= ratio <= 1.0
    ensures b.sstb && ratio == 1.0 ==> Component(b, ratio, rate) == 0
    ensures !(b.sstb && ratio == 1.0) ==>
      Min(Tentative(b, ratio, rate), WageLimit(b, ratio)) <= Component(b, ratio, rate) <= Tentative(b, ratio, rate)
    ensures ratio == 0.0 ==> Component(b, ratio, rate) == MulRate(b.qbi, rate)
    ensures ratio == 1.0 && !b.sstb ==> Component(b, ratio, rate) == Min(Tentative(b, ratio, rate), WageLimit(b, ratio))
  {
    if ratio == 0.0 {
      ComponentBelowRange(b, rate);
    } else if b.sstb && ratio == 1.0 {
      assert Component(b, ratio, rate) == 0;
    } else {
      ComponentInRange(b, ratio, rate);
      LimitedBetween(Tentative(b, ratio, rate), WageLimit(b, ratio), ratio);
    }
  }

  lemma {:induction false} ComponentInRange(b: QbiBusiness, ratio: real, rate: real)
    requires b.qbi > 0 && 0.0 < ratio && !(b.sstb && ratio >= 1.0)
    ensures Component(b, ratio, rate) == Limited(Tentative(b, ratio, rate), WageLimit(b, ratio), ratio)
  {}

  lemma {:induction false} ComponentBelowRange(b: QbiBusiness, rate: real)
    requires b.qbi > 0
    ensures Component(b, 0.0, rate) == Tentative(b, 0.0, rate) == MulRate(b.qbi, rate)
  {
    assert b.qbi as real * (1.0 - 0.0) == b.qbi as real;
    assert Round(b.qbi as real) == b.qbi;
  }

  lemma {:induction false} LimitedBetween(tentative: int, limit: int, ratio: real)
    requires 0.0 <= ratio <= 1.0
    ensures Min(tentative, limit) <= Limited(tentative, limit, ratio) <= tentative
    ensures ratio == 1.0 ==> Limited(tentative, limit, ratio) == Min(tentative, limit)
  {
    RoundPart(ClampMin0(tentative - limit), ratio);
  }

  lemma {:induction false} RoundPart(n: int, ratio: real)
    requires n >= 0 && 0.0 <= ratio <= 1.0
    ensures 0 <= Round(n as real * ratio) <= n
    ensures ratio == 1.0 ==> Round(n as real * ratio) == n
  {
    var x := n as real;
    ProductNonNegative(x, ratio);
    ProductNonNegative(x, 1.0 - ratio);
    assert x * (1.0 - ratio) == x - x * ratio;
  }

  lemma {:induction false} ProductNonNegative(x: real, y: real)
    requires x >= 0.0 && y >= 0.0
    ensures x * y >= 0.0
  {}

  function Combined(bs: seq<QbiBusiness>, ratio: real, rate: real): int {
    if bs == [] then 0 else Component(bs[0], ratio, rate) + Combined(bs[1..], ratio, rate)
  }

  function AggregateQbi(bs: seq<QbiBusiness>): int {
    if bs == [] then 0 else bs[0].qbi + AggregateQbi(bs[1..])
  }

  function OverallCap(taxableIncomeBeforeQbi: int, netCapitalGain: int, t: QbiTable): int {
    MulRate(ClampMin0(taxableIncomeBeforeQbi - netCapitalGain), t.rate)
  }

  /** The deduction stated by what limits it: the combined amount, the minimum deduction, and the overall cap over both. */
  function Deduction(bs: seq<QbiBusiness>, taxableIncomeBeforeQbi: int, netCapitalGain: int, t: QbiTable): int {
    if bs == [] then 0
    else
      var combined := Combined(bs, PhaseRatio(taxableIncomeBeforeQbi, t), t.rate);
      var cap := OverallCap(taxableIncomeBeforeQbi, netCapitalGain, t);
      var clearsFloor := AggregateQbi(bs) >= Dollars(t.qbiFloor);
      if combined <= 0 && !clearsFloor then 0
      else if combined <= 0 then Min(Dollars(t.minAmount), cap)
      else if clearsFloor then Min(Max(combined, Dollars(t.minAmount)), cap)
      else Min(combined, cap)
  }

  /** The deduction stays within [0, overall cap], hence within what pre-QBI income leaves above net capital gain. */
  lemma {:induction false} DeductionWithinCap(bs: seq<QbiBusiness>, taxableIncomeBeforeQbi: int, netCapitalGain: int, t: QbiTable)
    requires 0.0 <= t.rate <= 1.0 && Dollars(t.minAmount) >= 0
    ensures 0 <= Deduction(bs, taxableIncomeBeforeQbi, netCapitalGain, t) <= OverallCap(taxableIncomeBeforeQbi, netCapitalGain, t)
    ensures Deduction(bs, taxableIncomeBeforeQbi, netCapitalGain, t) <= Max(0, taxableIncomeBeforeQbi - netCapitalGain)
  {
    MulRateBounds(ClampMin0(taxableIncomeBeforeQbi - netCapitalGain), t.rate);
  }

  method ComputeQbiDeduction(bs: seq<QbiBusiness>, taxableIncomeBeforeQbi: int, netCapitalGain: int, t: QbiTable)
    returns (deduction: int)
    ensures deduction == Deduction(bs, taxableIncomeBeforeQbi, netCapitalGain, t)
  {
    if |bs| == 0 {
      return 0;
    }
    var phaseRatio := PhaseRatio(taxableIncomeBeforeQbi, t);
    var combined, aggregateQbi := 0, 0;
    assert bs[0..] == bs;
    for i := 0 to |bs|
      invariant combined + Combined(bs[i..], phaseRatio, t.rate) == Combined(bs, phaseRatio, t.rate)
      invariant aggregateQbi + AggregateQbi(bs[i..]) == AggregateQbi(bs)
    {
      var b := bs[i];
      assert bs[i..][0] == b && bs[i..][1..] == bs[i + 1..];
      aggregateQbi := aggregateQbi + b.qbi;
      combined := combined + Component(b, phaseRatio, t.rate);
    }

    var overallCap := OverallCap(taxableIncomeBeforeQbi, netCapitalGain, t);
    if combined <= 0 {
      if aggregateQbi >= Dollars(t.qbiFloor) {
        return Min(Dollars(t.minAmount), overallCap);
      }
      return 0;
    }
    deduction := Min(combined, overallCap);
    if aggregateQbi >= Dollars(t.qbiFloor) {
      deduction := Max(deduction, Min(Dollars(t.minAmount), overallCap));
    }
  }
}
