/** How a computed year answers its inputs: laws of the flows, AGI, deductions, QBI, tax lines and carry, line by line. */
module YearLaws {
  import opened Wrappers
  import opened Money
  import opened ComputeYear
  import opened Capital
  import Brackets
  import Flows
  import Passive
  import ProRata
  import Qbi
  import TaxLaws

  // ----- entity flows -----

  function PositiveWages(bs: seq<Flows.Business>): seq<int> {
    seq(|bs|, j requires 0 <= j < |bs| => Max(0, Dollars(bs[j].ownerWages)))
  }

  /** Profit, for an S corporation after its owner's wages, less the entity's part of the employer half to the nearest cent. */
  lemma {:induction false} FicaLaw(bs: seq<Flows.Business>, half: int, i: nat)
    requires i < |bs|
    ensures
      var wages, total := Dollars(bs[i].ownerWages), ProRata.Sum(PositiveWages(bs));
      var base := Dollars(bs[i].netProfit) - (if bs[i].kind == Flows.SCorp then wages else 0);
      var borne := base - Flows.FlowsAfterFica(bs, half)[i];
      && (half <= 0 || total <= 0 || wages <= 0 ==> borne == 0)
      && (half > 0 && total > 0 && wages > 0 ==> -total <= 2 * (half * wages - borne * total) < total)
  {
    assert PositiveWages(bs) == Flows.WageWeights(bs);
    var total := ProRata.Sum(PositiveWages(bs));
    if half > 0 && total > 0 {
      Flows.FicaShare(bs, half, total, i);
      TaxLaws.NearestShare(half, Dollars(bs[i].ownerWages), total);
    }
  }

  function PassThroughGains(bs: seq<Flows.Business>, flows: seq<int>): seq<int>
    requires |flows| == |bs|
  {
    seq(|bs|, j requires 0 <= j < |bs| => if bs[j].kind == Flows.ScheduleC then 0 else Max(0, flows[j]))
  }

  /** In a profitable year each pass-through entity with a gain bears its part of the PTET to the nearest cent, nobody else anything. */
  lemma {:induction false} PtetLaw(bs: seq<Flows.Business>, flows: seq<int>, paid: int, i: nat)
    requires |flows| == |bs| && i < |bs|
    ensures
      var total := ProRata.Sum(PassThroughGains(bs, flows));
      var borne := flows[i] - Flows.FlowsAfterPtet(bs, flows, paid)[i];
      && (paid <= 0 ==> borne == 0)
      && (paid > 0 && total > 0 && (bs[i].kind == Flows.ScheduleC || flows[i] <= 0) ==> borne == 0)
      && (paid > 0 && total > 0 && bs[i].kind != Flows.ScheduleC && flows[i] > 0 ==> -total <= 2 * (paid * flows[i] - borne * total) < total)
  {
    assert PassThroughGains(bs, flows) == Flows.PtetWeights(bs, flows);
    var total := ProRata.Sum(PassThroughGains(bs, flows));
    if paid > 0 && total > 0 {
      Flows.PtetShare(bs, flows, paid, total, i);
      TaxLaws.NearestShare(paid, flows[i], total);
    }
  }

  predicate FirstOf(bs: seq<Flows.Business>, kind: Flows.Kind, i: nat) {
    i < |bs| && bs[i].kind == kind && forall j :: 0 <= j < i ==> bs[j].kind != kind
  }

  predicate Nowhere(bs: seq<Flows.Business>, kind: Flows.Kind) {
    forall j :: 0 <= j < |bs| ==> bs[j].kind != kind
  }

  /** In a loss year the first S corporation, else the first partnership, bears all of it; without either nobody does. */
  lemma {:induction false} PtetLossLaw(bs: seq<Flows.Business>, flows: seq<int>, paid: int, i: nat)
    requires |flows| == |bs| && paid > 0 && ProRata.Sum(PassThroughGains(bs, flows)) <= 0
    ensures FirstOf(bs, Flows.SCorp, i) ==> Flows.FlowsAfterPtet(bs, flows, paid) == flows[i := flows[i] - paid]
    ensures Nowhere(bs, Flows.SCorp) && FirstOf(bs, Flows.Partnership, i) ==> Flows.FlowsAfterPtet(bs, flows, paid) == flows[i := flows[i] - paid]
    ensures Nowhere(bs, Flows.SCorp) && Nowhere(bs, Flows.Partnership) ==> Flows.FlowsAfterPtet(bs, flows, paid) == flows
  {
    assert PassThroughGains(bs, flows) == Flows.PtetWeights(bs, flows);
  }

  /** Sums, term by term. */
  lemma {:induction false} SumLaw(x: int, xs: seq<int>, b: Flows.Business, bs: seq<Flows.Business>)
    requires |xs| == |bs|
    ensures ProRata.Sum([]) == 0 && ProRata.Sum([x] + xs) == x + ProRata.Sum(xs)
    ensures Flows.OwnerWagesTotal([]) == 0 && Flows.OwnerWagesTotal([b] + bs) == Dollars(b.ownerWages) + Flows.OwnerWagesTotal(bs)
    ensures SeIncome([], []) == 0
    ensures SeIncome([b] + bs, [x] + xs) == (if b.kind == Flows.SCorp then 0 else x) + SeIncome(bs, xs)
  {
    assert ([x] + xs)[1..] == xs && ([b] + bs)[1..] == bs;
  }

  // ----- payroll -----

  /** `half` is half of the exact payroll tax, within a cent: social security on `taxable`, Medicare on `earnings`. */
  ghost predicate NearHalf(half: int, taxable: int, earnings: int, t: SeTable) {
    WithinOneOfHalf(half, taxable as real * t.ssRate + earnings as real * t.medicareRate)
  }

  predicate WithinOneOfHalf(half: int, exact: real) {
    exact / 2.0 - 1.0 <= half as real <= exact / 2.0 + 1.0
  }

  lemma {:induction false} HalfOfTwo(a: int, b: int, x: real, y: real)
    requires x - 0.5 <= a as real <= x + 0.5 && y - 0.5 <= b as real <= y + 0.5
    ensures WithinOneOfHalf(Round((a + b) as real / 2.0), x + y)
  {}

  lemma {:induction false} HalfPayrollLaw(taxable: int, earnings: int, t: SeTable)
    ensures NearHalf(HalfPayroll(taxable, earnings, t), taxable, earnings, t)
  {
    TaxLaws.NearRate(taxable, t.ssRate);
    TaxLaws.NearRate(earnings, t.medicareRate);
    HalfOfTwo(MulRate(taxable, t.ssRate), MulRate(earnings, t.medicareRate), taxable as real * t.ssRate, earnings as real * t.medicareRate);
  }

  /**
   The employer half is half the payroll tax on the owners' wages, within a cent, social security only on what the wage
   base leaves over other wages; there is none without wages.
   */
  lemma {:induction false} EmployerHalfLaw(p: Profile, t: SeTable)
    ensures
      var wages := Flows.OwnerWagesTotal(p.businesses);
      && (wages <= 0 ==> EmployerHalf(p, t) == 0)
      && (wages > 0 ==> NearHalf(EmployerHalf(p, t), Min(wages, Max(0, 100 * t.ssWageBase - Dollars(p.wages))), wages, t))
  {
    var wages := Flows.OwnerWagesTotal(p.businesses);
    HalfPayrollLaw(Min(wages, Max(0, 100 * t.ssWageBase - Dollars(p.wages))), wages, t);
  }

  /** The deduction is half the self-employment tax on the net earnings, in the same way; there is none without positive income. */
  lemma {:induction false} SeDeductionLaw(seIncome: int, w2Wages: int, t: SeTable)
    ensures
      var earnings := MulRate(seIncome, t.netEarningsFactor);
      && (seIncome <= 0 ==> SeDeduction(seIncome, w2Wages, t) == 0)
      && (seIncome > 0 ==> NearHalf(SeDeduction(seIncome, w2Wages, t), Min(earnings, Max(0, 100 * t.ssWageBase - w2Wages)), earnings, t))
  {
    var earnings := MulRate(seIncome, t.netEarningsFactor);
    HalfPayrollLaw(Min(earnings, Max(0, 100 * t.ssWageBase - w2Wages)), earnings, t);
  }

  /** A year's flows are those of its businesses after both splits; the deduction is taken of the self-employed ones. */
  lemma {:induction false} YearFlows(p: Profile, t: TableSet)
    ensures FlowsOf(p, t)
      == Flows.FlowsAfterPtet(p.businesses, Flows.FlowsAfterFica(p.businesses, EmployerHalf(p, t.seTax)), Dollars(p.ptetPaid))
    ensures SeDeductionOf(p, t)
      == SeDeduction(SeIncome(p.businesses, FlowsOf(p, t)), Dollars(p.wages) + Flows.OwnerWagesTotal(p.businesses), t.seTax)
  {}

  // ----- adjusted gross income -----

  function NoRentals(p: Profile): Profile {
    p.(rentals := [])
  }

  function NoPassiveCarry(c: Carry): Carry {
    Carry(map[], c.capitalLossCarryforward)
  }

  /** AGI is AGI without rentals and without suspended losses, plus what the passive rules include at that income. */
  lemma {:induction false} RentalsEnterAgi(p: Profile, t: TableSet, c: Carry)
    ensures
      var without := YearOf(NoRentals(p), t, NoPassiveCarry(c)).agi;
      YearOf(p, t, c).agi == without
        + Passive.IncludedIncome(p.rentals, map k | k in c.passiveByActivity :: 100 * c.passiveByActivity[k], without, t.passive)
  {
    var without := MagiExPassive(p, t, c);
    SameBeforeRentals(p, t, c);
    NothingIncluded(without, t.passive);
    CarryInCents(c.passiveByActivity);
  }

  lemma {:induction false} NothingIncluded(magi: int, t: Passive.PassiveTable)
    ensures Passive.IncludedIncome([], map[], magi, t) == 0
  {}

  lemma {:induction false} SameBeforeRentals(p: Profile, t: TableSet, c: Carry)
    ensures MagiExPassive(NoRentals(p), t, NoPassiveCarry(c)) == MagiExPassive(p, t, c)
    ensures YearOf(NoRentals(p), t, NoPassiveCarry(c)).agi == MagiExPassive(p, t, c)
  {
    assert InCents(map[]) == map[];
    NothingIncluded(MagiExPassive(p, t, c), t.passive);
  }

  lemma {:induction false} CarryInCents(m: map<string, int>)
    ensures InCents(m) == map k | k in m :: 100 * m[k]
  {
    forall k | k in m
      ensures InCents(m)[k] == 100 * m[k]
    {
      TaxLaws.DollarLaw(m[k], 0.0);
    }
  }

  /**
   Without rentals: wages, owners' wages, flows, investment and other income and what capital netting recognises, less
   the self-employment deduction and the four other items above the line.
   */
  lemma {:induction false} AgiLaw(p: Profile, t: TableSet, c: Carry)
    ensures
      var gains := NetCapital(Dollars(p.shortTermCapGain), Dollars(p.longTermCapGain), 100 * c.capitalLossCarryforward);
      YearOf(NoRentals(p), t, NoPassiveCarry(c)).agi ==
        Dollars(p.wages) + Flows.OwnerWagesTotal(p.businesses) + ProRata.Sum(FlowsOf(p, t))
        + Dollars(p.interestIncome) + Dollars(p.ordinaryDividends) + Dollars(p.qualifiedDividends) + Dollars(p.otherIncome)
        + gains.ordinaryComponent + gains.preferentialGain
        - SeDeductionOf(p, t)
        - Dollars(p.adjustments) - Dollars(p.seHealthInsurance) - Dollars(p.retirementContributions) - Dollars(p.hsaContribution)
  {
    SameBeforeRentals(p, t, c);
    TaxLaws.DollarLaw(c.capitalLossCarryforward, 0.0);
  }

  lemma {:induction false} SameEntities(p: Profile, q: Profile, t: TableSet, c: Carry)
    requires q.businesses == p.businesses && q.wages == p.wages && q.ptetPaid == p.ptetPaid
    requires q.shortTermCapGain == p.shortTermCapGain && q.longTermCapGain == p.longTermCapGain
    ensures FlowsOf(q, t) == FlowsOf(p, t) && SeDeductionOf(q, t) == SeDeductionOf(p, t) && W2Wages(q) == W2Wages(p)
    ensures CapitalOf(q, c) == CapitalOf(p, c)
  {}

  /** One more cent of other income is one more cent of AGI before rentals. */
  lemma {:induction false} CentsOfOtherIncome(p: Profile, t: TableSet, c: Carry, n: int)
    ensures
      var q := p.(otherIncome := p.otherIncome + n as real / 100.0);
      MagiExPassive(q, t, c) == MagiExPassive(p, t, c) + n
  {
    SameEntities(p, p.(otherIncome := p.otherIncome + n as real / 100.0), t, c);
    TaxLaws.DollarLaw(n, p.otherIncome);
  }

  /** So is one more cent of interest. */
  lemma {:induction false} CentsOfInterest(p: Profile, t: TableSet, c: Carry, n: int)
    ensures
      var q := p.(interestIncome := p.interestIncome + n as real / 100.0);
      MagiExPassive(q, t, c) == MagiExPassive(p, t, c) + n
  {
    SameEntities(p, p.(interestIncome := p.interestIncome + n as real / 100.0), t, c);
    TaxLaws.DollarLaw(n, p.interestIncome);
  }

  /** And of ordinary dividends. */
  lemma {:induction false} CentsOfDividends(p: Profile, t: TableSet, c: Carry, n: int)
    ensures
      var q := p.(ordinaryDividends := p.ordinaryDividends + n as real / 100.0);
      MagiExPassive(q, t, c) == MagiExPassive(p, t, c) + n
  {
    SameEntities(p, p.(ordinaryDividends := p.ordinaryDividends + n as real / 100.0), t, c);
    TaxLaws.DollarLaw(n, p.ordinaryDividends);
  }

  /** One more cent of adjustments is one cent less. */
  lemma {:induction false} CentsOfAdjustments(p: Profile, t: TableSet, c: Carry, n: int)
    ensures
      var q := p.(adjustments := p.adjustments + n as real / 100.0);
      MagiExPassive(q, t, c) == MagiExPassive(p, t, c) - n
  {
    SameEntities(p, p.(adjustments := p.adjustments + n as real / 100.0), t, c);
    TaxLaws.DollarLaw(n, p.adjustments);
  }

  /** So is one more cent of HSA contributions. */
  lemma {:induction false} CentsOfHsa(p: Profile, t: TableSet, c: Carry, n: int)
    ensures
      var q := p.(hsaContribution := p.hsaContribution + n as real / 100.0);
      MagiExPassive(q, t, c) == MagiExPassive(p, t, c) - n
  {
    SameEntities(p, p.(hsaContribution := p.hsaContribution + n as real / 100.0), t, c);
    TaxLaws.DollarLaw(n, p.hsaContribution);
  }

  // ----- deductions and taxable income -----

  /** The cap on state and local tax: whole up to the threshold, then reduced at the rate to the nearest cent, never below the floor. */
  lemma {:induction false} SaltLaw(magi: int, t: SaltTable)
    ensures
      var over := Max(0, magi - Dollars(t.magiThreshold));
      var cap, floor := SaltCap(magi, t), Dollars(t.floor);
      && cap >= floor
      && (over == 0 ==> cap == Max(floor, Dollars(t.cap)))
      && (cap > floor ==> -0.5 <= (Dollars(t.cap) - cap) as real - over as real * t.reductionRate <= 0.5)
  {
    var over := Max(0, magi - Dollars(t.magiThreshold));
    TaxLaws.RateLaw(over, t.reductionRate, 0);
    assert over == 0 ==> over as real * t.reductionRate == 0.0;
  }

  /** AGI less the larger of the standard and the itemized deduction, never below zero. */
  function BeforeQbi(p: Profile, t: TableSet, agi: int): int {
    var salt := Min(Max(0, Dollars(p.itemized.stateLocalTaxesPaid)), SaltCap(agi, t.salt));
    var itemized := salt + Max(0, Dollars(p.itemized.mortgageInterest)) + Max(0, Dollars(p.itemized.charitable)) + Max(0, Dollars(p.itemized.other));
    Max(0, agi - Max(itemized, Dollars(t.standardDeduction)))
  }

  lemma {:induction false} BeforeQbiIs(p: Profile, t: TableSet, c: Carry)
    ensures IncomeBeforeQbi(p, t, c) == BeforeQbi(p, t, Agi(p, t, c))
  {}

  lemma {:induction false} PoolIs(p: Profile, c: Carry)
    ensures
      var gains := NetCapital(Dollars(p.shortTermCapGain), Dollars(p.longTermCapGain), 100 * c.capitalLossCarryforward);
      CapitalOf(p, c) == gains && PreferentialPool(p, c) == gains.preferentialGain + Dollars(p.qualifiedDividends)
  {
    TaxLaws.DollarLaw(c.capitalLossCarryforward, 0.0);
  }

  /** The QBI deduction and taxable income of a year, from its AGI. */
  lemma {:induction false} TaxableLaw(p: Profile, t: TableSet, c: Carry)
    ensures
      var y := YearOf(p, t, c);
      var gains := NetCapital(Dollars(p.shortTermCapGain), Dollars(p.longTermCapGain), 100 * c.capitalLossCarryforward);
      && y.qbiDeduction
        == Qbi.Deduction(QbiBusinesses(p, t), BeforeQbi(p, t, y.agi), gains.preferentialGain + Dollars(p.qualifiedDividends), t.qbi)
      && y.taxableIncome == Max(0, BeforeQbi(p, t, y.agi) - y.qbiDeduction)
  {
    BeforeQbiIs(p, t, c);
    PoolIs(p, c);
  }

  /** What is preferential is the net long-term gain and qualified dividends, as far as taxable income goes; the rest is ordinary and taxed first. */
  lemma {:induction false} TaxLineLaw(p: Profile, t: TableSet, c: Carry)
    ensures
      var y := YearOf(p, t, c);
      var gains := NetCapital(Dollars(p.shortTermCapGain), Dollars(p.longTermCapGain), 100 * c.capitalLossCarryforward);
      var preferential := Min(gains.preferentialGain + Dollars(p.qualifiedDividends), y.taxableIncome);
      var ordinary := y.taxableIncome - preferential;
      && ordinary >= 0
      && y.ordinaryTax == Brackets.TaxOf(Brackets.Layers(Brackets.TableInCents(t.brackets), 0, ordinary))
      && y.capitalGainsTax == Brackets.TaxOf(Brackets.Layers(Brackets.TableInCents(t.capitalGainsBrackets), ordinary, y.taxableIncome))
  {
    PoolIs(p, c);
  }

  // ----- the section 199A list -----

  /** Only eligible businesses count, each with its flow and all wages it paid; reductions come off self-employed gains only. */
  lemma {:induction false} QbiListLaw(b: Flows.Business, bs: seq<Flows.Business>, flow: int, flows: seq<int>, reductions: int, total: int)
    requires |flows| == |bs|
    ensures QbiList([], [], reductions, total) == []
    ensures
      var rest := QbiList(bs, flows, reductions, total);
      var all := QbiList([b] + bs, [flow] + flows, reductions, total);
      && (!b.qbiEligible ==> all == rest)
      && (b.qbiEligible ==>
            && |all| == |rest| + 1 && all[1..] == rest
            && all[0].w2Wages == Dollars(b.employeeWages) + Dollars(b.ownerWages) && all[0].sstb == b.sstb
            && (b.kind == Flows.SCorp || flow <= 0 || reductions <= 0 || total <= 0 ==> all[0].qbi == flow)
            && (b.kind != Flows.SCorp && flow > 0 && reductions > 0 && total > 0 ==>
                  -total <= 2 * (reductions * flow - (flow - all[0].qbi) * total) < total))
    ensures SeFlowTotal([], []) == 0
    ensures SeFlowTotal([b] + bs, [flow] + flows)
      == SeFlowTotal(bs, flows) + (if b.qbiEligible && b.kind != Flows.SCorp && flow > 0 then flow else 0)
  {
    assert ([b] + bs)[1..] == bs && ([flow] + flows)[1..] == flows;
    if total > 0 {
      TaxLaws.NearestShare(reductions, flow, total);
    }
  }

  function TotalQbi(list: seq<Qbi.QbiBusiness>): int {
    if list == [] then 0 else list[0].qbi + TotalQbi(list[1..])
  }

  /** The eligible flows that bear reductions, and all eligible flows. */
  function Bearing(bs: seq<Flows.Business>, flows: seq<int>): seq<int>
    requires |flows| == |bs|
  {
    seq(|bs|, j requires 0 <= j < |bs| => if bs[j].qbiEligible && bs[j].kind != Flows.SCorp then Max(0, flows[j]) else 0)
  }

  function EligibleTotal(bs: seq<Flows.Business>, flows: seq<int>): int
    requires |flows| == |bs|
  {
    if bs == [] then 0 else (if bs[0].qbiEligible then flows[0] else 0) + EligibleTotal(bs[1..], flows[1..])
  }

  lemma {:induction false} ReductionsByShares(bs: seq<Flows.Business>, flows: seq<int>, reductions: int, total: int)
    requires |flows| == |bs| && reductions > 0 && total > 0
    ensures TotalQbi(QbiList(bs, flows, reductions, total)) == EligibleTotal(bs, flows) - ProRata.Sum(ProRata.Shares(reductions, Bearing(bs, flows), total))
    ensures SeFlowTotal(bs, flows) == ProRata.Sum(Bearing(bs, flows))
  {
    if bs != [] {
      ReductionsByShares(bs[1..], flows[1..], reductions, total);
      var ws := Bearing(bs, flows);
      assert ws[1..] == Bearing(bs[1..], flows[1..]);
      assert ProRata.Shares(reductions, ws, total)[1..] == ProRata.Shares(reductions, ws[1..], total);
      ProRata.ShareWithinHalfCent(reductions, ws[0], total);
      OneListed(bs, flows, reductions, total);
    }
  }

  lemma {:induction false} OneListed(bs: seq<Flows.Business>, flows: seq<int>, reductions: int, total: int)
    requires |flows| == |bs| && bs != []
    ensures TotalQbi(QbiList(bs, flows, reductions, total))
      == (if bs[0].qbiEligible then QbiOf(bs[0], flows[0], reductions, total) else 0) + TotalQbi(QbiList(bs[1..], flows[1..], reductions, total))
  {
    var rest := QbiList(bs[1..], flows[1..], reductions, total);
    if bs[0].qbiEligible {
      assert QbiList(bs, flows, reductions, total)[1..] == rest;
    } else {
      assert [] + rest == rest;
    }
  }

  /** Reductions are taken from the eligible self-employed gains, in total, within half a cent a business. */
  lemma {:induction false} ReductionsTaken(bs: seq<Flows.Business>, flows: seq<int>, reductions: int)
    requires |flows| == |bs| && reductions > 0 && ProRata.Sum(Bearing(bs, flows)) > 0
    ensures
      var taken := EligibleTotal(bs, flows) - TotalQbi(QbiList(bs, flows, reductions, SeFlowTotal(bs, flows)));
      AbsReal((taken - reductions) as real) <= 0.5 * ProRata.Recipients(Bearing(bs, flows)) as real
  {
    ReductionsByShares(bs, flows, reductions, ProRata.Sum(Bearing(bs, flows)));
    ProRata.SharesDrift(reductions, Bearing(bs, flows));
  }

  /** The list a year uses: self-employment deduction, health insurance and retirement come off, then the reduction hook. */
  lemma {:induction false} YearQbiList(p: Profile, t: TableSet)
    ensures
      var reductions := SeDeductionOf(p, t) + Dollars(p.seHealthInsurance) + Dollars(p.retirementContributions);
      QbiBusinesses(p, t)
        == ReduceLargest(QbiList(p.businesses, FlowsOf(p, t), reductions, SeFlowTotal(p.businesses, FlowsOf(p, t))), Dollars(p.qbiReduction))
  {}

  /** The hook takes its amount off the first largest component, whose QBI may turn negative. */
  lemma {:induction false} HookLaw(list: seq<Qbi.QbiBusiness>, reduction: int)
    ensures list == [] ==> ReduceLargest(list, reduction) == []
    ensures list != [] ==>
      ReduceLargest(list, reduction) == list[Largest(list) := list[Largest(list)].(qbi := list[Largest(list)].qbi - reduction)]
  {
    if list != [] && reduction == 0 {
      assert list[Largest(list) := list[Largest(list)]] == list;
    }
  }

  // ----- the carry out -----

  /** Positive suspensions are carried in whole dollars, the others are not; the capital loss is carried in whole dollars. */
  lemma {:induction false} CarryOutLaw(p: Profile, t: TableSet, c: Carry)
    ensures
      var without := YearOf(NoRentals(p), t, NoPassiveCarry(c)).agi;
      var out := Passive.SuspendedOut(p.rentals, map k | k in c.passiveByActivity :: 100 * c.passiveByActivity[k], without, t.passive);
      var carried := YearOf(p, t, c).carryOut;
      && (forall k :: k in carried.passiveByActivity <==> k in out && out[k] > 0)
      && (forall k :: k in carried.passiveByActivity ==> carried.passiveByActivity[k] == ToDollars(out[k]))
      && carried.capitalLossCarryforward
        == ToDollars(NetCapital(Dollars(p.shortTermCapGain), Dollars(p.longTermCapGain), 100 * c.capitalLossCarryforward).carryforwardOut)
  {
    SameBeforeRentals(p, t, c);
    CarryInCents(c.passiveByActivity);
    TaxLaws.DollarLaw(c.capitalLossCarryforward, 0.0);
  }
}
