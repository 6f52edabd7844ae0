/**
 The year orchestrator of compute-year.ts, from flow-through to income tax before credits and the carry out.
 Everything is integer cents; only the carry crosses the year boundary in whole dollars.
 */
module ComputeYear {
  import opened Wrappers
  import opened Money
  import opened Totals
  import opened Capital
  import opened Brackets
  import Flows
  import Passive
  import ProRata
  import Qbi

  datatype Itemized = Itemized(stateLocalTaxesPaid: real, mortgageInterest: real, charitable: real, other: real)

  datatype Profile = Profile(
    wages: real,
    businesses: seq<Flows.Business>,
    rentals: seq<Passive.Rental>,
    interestIncome: real,
    ordinaryDividends: real,
    qualifiedDividends: real,
    shortTermCapGain: real,
    longTermCapGain: real,
    otherIncome: real,
    adjustments: real,
    seHealthInsurance: real,
    retirementContributions: real,
    hsaContribution: real,
    itemized: Itemized,
    withholding: real,
    estimatedPayments: real,
    qbiReduction: real,
    ptetPaid: real)

  datatype SeTable = SeTable(ssWageBase: int, ssRate: real, medicareRate: real, netEarningsFactor: real)

  datatype SaltTable = SaltTable(cap: real, magiThreshold: real, reductionRate: real, floor: real)

  /** The table set, read at the return's filing status. */
  datatype TableSet = TableSet(
    brackets: seq<BracketRow>,
    capitalGainsBrackets: seq<BracketRow>,
    standardDeduction: real,
    seTax: SeTable,
    qbi: Qbi.QbiTable,
    salt: SaltTable,
    passive: Passive.PassiveTable)

  /** The documented shape of the bracket tables. */
  predicate WellFormed(t: TableSet) {
    Ascending(TableInCents(t.brackets), 0) && Ascending(TableInCents(t.capitalGainsBrackets), 0)
  }

  /** What one year hands to the next, in whole dollars. */
  datatype Carry = Carry(passiveByActivity: map<string, int>, capitalLossCarryforward: int)

  const EMPTY_CARRY := Carry(map[], 0)

  // ----- flow-through and payroll -----

  function OwnerWagesTotal(p: Profile): int {
    Flows.OwnerWagesTotal(p.businesses)
  }

  function W2Wages(p: Profile): int {
    Dollars(p.wages) + OwnerWagesTotal(p)
  }

  function EmployerHalf(p: Profile, t: SeTable): int {
    if OwnerWagesTotal(p) <= 0 then 0
    else
      HalfPayroll(Min(OwnerWagesTotal(p), ClampMin0(100 * t.ssWageBase - Dollars(p.wages))), OwnerWagesTotal(p), t)
  }

  /** Half of social security on the part below the wage base plus Medicare on all of it. */
  function HalfPayroll(taxable: int, earnings: int, t: SeTable): int {
    Round((MulRate(taxable, t.ssRate) + MulRate(earnings, t.medicareRate)) as real / 2.0)
  }

  function FlowsOf(p: Profile, t: TableSet): (flows: seq<int>)
    ensures |flows| == |p.businesses|
  {
    Flows.FlowsAfterPtet(p.businesses, Flows.FlowsAfterFica(p.businesses, EmployerHalf(p, t.seTax)), Dollars(p.ptetPaid))
  }

  predicate SelfEmployed(b: Flows.Business) {
    b.kind == Flows.ScheduleC || b.kind == Flows.Partnership
  }

  function SeIncome(bs: seq<Flows.Business>, flows: seq<int>): int
    requires |flows| == |bs|
  {
    if bs == [] then 0 else (if SelfEmployed(bs[0]) then flows[0] else 0) + SeIncome(bs[1..], flows[1..])
  }

  /** Half of the self-employment tax, deducted above the line. */
  function SeDeduction(seIncome: int, w2Wages: int, t: SeTable): int {
    if seIncome <= 0 then 0
    else
      var netEarnings := MulRate(seIncome, t.netEarningsFactor);
      HalfPayroll(Min(netEarnings, ClampMin0(100 * t.ssWageBase - w2Wages)), netEarnings, t)
  }

  function SeDeductionOf(p: Profile, t: TableSet): int {
    SeDeduction(SeIncome(p.businesses, FlowsOf(p, t)), W2Wages(p), t.seTax)
  }

  // ----- income, passive losses, AGI -----

  function CapitalOf(p: Profile, carryIn: Carry): CapitalResult {
    YearNetting(Gains(p.shortTermCapGain, p.longTermCapGain), carryIn.capitalLossCarryforward)
  }

  function IncomeExPassive(p: Profile, t: TableSet, carryIn: Carry): int {
    W2Wages(p) + ProRata.Sum(FlowsOf(p, t))
    + (Dollars(p.interestIncome) + Dollars(p.ordinaryDividends) + Dollars(p.qualifiedDividends))
    + CapitalOf(p, carryIn).ordinaryComponent + CapitalOf(p, carryIn).preferentialGain
    + Dollars(p.otherIncome)
  }

  function AboveTheLine(p: Profile, t: TableSet): int {
    SeDeductionOf(p, t) + Dollars(p.adjustments) + Dollars(p.seHealthInsurance)
    + Dollars(p.retirementContributions) + Dollars(p.hsaContribution)
  }

  function MagiExPassive(p: Profile, t: TableSet, carryIn: Carry): int {
    IncomeExPassive(p, t, carryIn) - AboveTheLine(p, t)
  }

  /** A whole-dollar carry record in cents. */
  function InCents(m: map<string, int>): map<string, int> {
    map k | k in m :: Dollars(m[k] as real)
  }

  function IncludedRental(p: Profile, t: TableSet, carryIn: Carry): int {
    Passive.IncludedIncome(p.rentals, InCents(carryIn.passiveByActivity), MagiExPassive(p, t, carryIn), t.passive)
  }

  /** The suspended losses going forward, in cents. */
  function SuspendedOut(p: Profile, t: TableSet, carryIn: Carry): map<string, int> {
    Passive.SuspendedOut(p.rentals, InCents(carryIn.passiveByActivity), MagiExPassive(p, t, carryIn), t.passive)
  }

  function Agi(p: Profile, t: TableSet, carryIn: Carry): int {
    MagiExPassive(p, t, carryIn) + IncludedRental(p, t, carryIn)
  }

  // ----- deductions -----

  function SaltCap(magi: int, t: SaltTable): int {
    Max(Dollars(t.floor), Dollars(t.cap) - MulRate(ClampMin0(magi - Dollars(t.magiThreshold)), t.reductionRate))
  }

  function DeductionAmount(p: Profile, magi: int, t: TableSet): int {
    var salt := Min(ClampMin0(Dollars(p.itemized.stateLocalTaxesPaid)), SaltCap(magi, t.salt));
    var itemizedTotal := salt + ClampMin0(Dollars(p.itemized.mortgageInterest))
      + ClampMin0(Dollars(p.itemized.charitable)) + ClampMin0(Dollars(p.itemized.other));
    Max(itemizedTotal, Dollars(t.standardDeduction))
  }

  function IncomeBeforeQbi(p: Profile, t: TableSet, carryIn: Carry): int {
    ClampMin0(Agi(p, t, carryIn) - DeductionAmount(p, Agi(p, t, carryIn), t))
  }

  // ----- section 199A -----

  /** Total positive flow of the self-employed businesses that are eligible. */
  function SeFlowTotal(bs: seq<Flows.Business>, flows: seq<int>): int
    requires |flows| == |bs|
  {
    if bs == [] then 0
    else (if bs[0].qbiEligible && SelfEmployed(bs[0]) then ClampMin0(flows[0]) else 0) + SeFlowTotal(bs[1..], flows[1..])
  }

  /** SE-level reductions are borne pro rata by the self-employed businesses with positive flow. */
  function QbiOf(b: Flows.Business, flow: int, reductions: int, seFlowTotal: int): int {
    if flow > 0 && reductions > 0 && SelfEmployed(b) && seFlowTotal > 0
    then flow - ProRata.ShareOf(reductions, flow, seFlowTotal)
    else flow
  }

  function QbiList(bs: seq<Flows.Business>, flows: seq<int>, reductions: int, seFlowTotal: int): seq<Qbi.QbiBusiness>
    requires |flows| == |bs|
  {
    if bs == [] then []
    else
      (if bs[0].qbiEligible
       then [Qbi.QbiBusiness(QbiOf(bs[0], flows[0], reductions, seFlowTotal), Dollars(bs[0].employeeWages) + Dollars(bs[0].ownerWages), bs[0].sstb)]
       else [])
      + QbiList(bs[1..], flows[1..], reductions, seFlowTotal)
  }

  /** The first business whose QBI is largest. */
  function Largest(bs: seq<Qbi.QbiBusiness>): (i: nat)
    requires bs != []
    ensures i < |bs|
    ensures forall j :: 0 <= j < |bs| ==> bs[j].qbi <= bs[i].qbi
    ensures forall j :: 0 <= j < i ==> bs[j].qbi < bs[i].qbi
  {
    if |bs| == 1 then 0
    else
      var i := Largest(bs[..|bs| - 1]);
      if bs[|bs| - 1].qbi > bs[i].qbi then |bs| - 1 else i
  }

  function ReduceLargest(bs: seq<Qbi.QbiBusiness>, reduction: int): seq<Qbi.QbiBusiness> {
    if bs == [] || reduction == 0 then bs
    else
      var i := Largest(bs);
      bs[i := bs[i].(qbi := bs[i].qbi - reduction)]
  }

  function QbiBusinesses(p: Profile, t: TableSet): seq<Qbi.QbiBusiness> {
    var flows := FlowsOf(p, t);
    var reductions := SeDeductionOf(p, t) + Dollars(p.seHealthInsurance) + Dollars(p.retirementContributions);
    ReduceLargest(
      QbiList(p.businesses, flows, reductions, SeFlowTotal(p.businesses, flows)),
      Dollars(p.qbiReduction))
  }

  /** Net long-term gain plus qualified dividends: the income taxed at preferential rates. */
  function PreferentialPool(p: Profile, carryIn: Carry): int {
    CapitalOf(p, carryIn).preferentialGain + Dollars(p.qualifiedDividends)
  }

  function QbiDeductionOf(p: Profile, t: TableSet, carryIn: Carry): int {
    Qbi.Deduction(QbiBusinesses(p, t), IncomeBeforeQbi(p, t, carryIn), PreferentialPool(p, carryIn), t.qbi)
  }

  function TaxableIncome(p: Profile, t: TableSet, carryIn: Carry): int {
    ClampMin0(IncomeBeforeQbi(p, t, carryIn) - QbiDeductionOf(p, t, carryIn))
  }

  // ----- the carry out -----

  function CarriedDollars(suspendedOut: map<string, int>): map<string, int> {
    map k | k in suspendedOut && suspendedOut[k] > 0 :: ToDollars(suspendedOut[k])
  }

  function CarryOut(p: Profile, t: TableSet, carryIn: Carry): Carry {
    Carry(CarriedDollars(SuspendedOut(p, t, carryIn)), ToDollars(CapitalOf(p, carryIn).carryforwardOut))
  }

  /** The lines of one computed year that this model follows. */
  datatype Year = Year(
    agi: int,
    qbiDeduction: int,
    taxableIncome: int,
    ordinaryTax: int,
    capitalGainsTax: int,
    carryOut: Carry)

  ghost function YearOf(p: Profile, t: TableSet, carryIn: Carry): Year {
    var taxable := TaxableIncome(p, t, carryIn);
    var pref := Min(PreferentialPool(p, carryIn), taxable);
    Year(
      Agi(p, t, carryIn),
      QbiDeductionOf(p, t, carryIn),
      taxable,
      TaxOf(Layers(TableInCents(t.brackets), 0, taxable - pref)),
      TaxOf(Layers(TableInCents(t.capitalGainsBrackets), ClampMin0(taxable - pref), taxable)),
      CarryOut(p, t, carryIn))
  }

  /** The reduction hook lands in place on the largest component. */
  method LandReduction(bs: seq<Qbi.QbiBusiness>, reduction: int) returns (businesses: seq<Qbi.QbiBusiness>)
    ensures businesses == ReduceLargest(bs, reduction)
  {
    businesses := bs;
    if reduction != 0 && |businesses| > 0 {
      var target := Largest(businesses);
      businesses := businesses[target := businesses[target].(qbi := businesses[target].qbi - reduction)];
    }
  }

  /** The section 199A lines. */
  method QbiLines(p: Profile, t: TableSet, carryIn: Carry, flows: seq<int>, seDeduction: int, tiBeforeQbi: int, pool: int)
    returns (deduction: int)
    requires flows == FlowsOf(p, t) && seDeduction == SeDeductionOf(p, t)
    requires tiBeforeQbi == IncomeBeforeQbi(p, t, carryIn) && pool == PreferentialPool(p, carryIn)
    ensures deduction == QbiDeductionOf(p, t, carryIn)
  {
    var reductions := seDeduction + Dollars(p.seHealthInsurance) + Dollars(p.retirementContributions);
    var businesses := QbiList(p.businesses, flows, reductions, SeFlowTotal(p.businesses, flows));
    businesses := LandReduction(businesses, Dollars(p.qbiReduction));
    assert businesses == QbiBusinesses(p, t);
    deduction := Qbi.ComputeQbiDeduction(businesses, tiBeforeQbi, pool, t.qbi);
  }

  /** The two income-tax lines: ordinary income first, preferential income stacked on top. */
  method TaxLines(taxableIncome: int, pool: int, t: TableSet) returns (ordinaryTax: int, capitalGainsTax: int)
    requires WellFormed(t)
    ensures
      var ordinary := taxableIncome - Min(pool, taxableIncome);
      && ordinaryTax == TaxOf(Layers(TableInCents(t.brackets), 0, ordinary))
      && capitalGainsTax == TaxOf(Layers(TableInCents(t.capitalGainsBrackets), ClampMin0(ordinary), taxableIncome))
  {
    var preferentialIncome := Min(pool, taxableIncome);
    var ordinaryTaxable := taxableIncome - preferentialIncome;
    ordinaryTax := TaxFromBrackets(ordinaryTaxable, t.brackets);
    AscendingLastOpen(TableInCents(t.capitalGainsBrackets), 0);
    capitalGainsTax := TaxPreferential(preferentialIncome, ordinaryTaxable, t.capitalGainsBrackets);
  }

  /** Income before rentals, less the above-the-line items. */
  method IncomeLines(p: Profile, t: TableSet, carryIn: Carry, flows: seq<int>, seDeduction: int) returns (magiExPassive: int)
    requires flows == FlowsOf(p, t) && seDeduction == SeDeductionOf(p, t)
    ensures magiExPassive == MagiExPassive(p, t, carryIn)
  {
    var capital := CapitalOf(p, carryIn);
    var incomeExPassive := W2Wages(p) + ProRata.Sum(flows)
      + (Dollars(p.interestIncome) + Dollars(p.ordinaryDividends) + Dollars(p.qualifiedDividends))
      + capital.ordinaryComponent + capital.preferentialGain + Dollars(p.otherIncome);
    var aboveTheLine := seDeduction + Dollars(p.adjustments) + Dollars(p.seHealthInsurance)
      + Dollars(p.retirementContributions) + Dollars(p.hsaContribution);
    magiExPassive := incomeExPassive - aboveTheLine;
  }

  /** The section 469 lines; the carry comes in as whole dollars. */
  method PassiveLines(p: Profile, t: TableSet, carryIn: Carry, magiExPassive: int) returns (included: int, suspendedOut: map<string, int>)
    requires magiExPassive == MagiExPassive(p, t, carryIn)
    ensures included == IncludedRental(p, t, carryIn) && suspendedOut == SuspendedOut(p, t, carryIn)
  {
    var passive := Passive.ComputePassive(p.rentals, InCents(carryIn.passiveByActivity), magiExPassive, t.passive);
    return passive.includedIncome, passive.suspendedOut;
  }

  method ComputeYear(p: Profile, t: TableSet, carryIn: Carry) returns (y: Year)
    requires WellFormed(t)
    ensures y == YearOf(p, t, carryIn)
  {
    var flows := Flows.AllocateFlows(p.businesses, EmployerHalf(p, t.seTax), Dollars(p.ptetPaid));
    var seDeduction := SeDeduction(SeIncome(p.businesses, flows), W2Wages(p), t.seTax);
    var capital := CapitalOf(p, carryIn);
    var magiExPassive := IncomeLines(p, t, carryIn, flows, seDeduction);
    var includedRental, suspendedOut := PassiveLines(p, t, carryIn, magiExPassive);
    var agi := magiExPassive + includedRental;
    var tiBeforeQbi := ClampMin0(agi - DeductionAmount(p, agi, t));

    // section 199A, taxable income, tax
    var pool := capital.preferentialGain + Dollars(p.qualifiedDividends);
    var qbiDeduction := QbiLines(p, t, carryIn, flows, seDeduction, tiBeforeQbi, pool);
    var taxableIncome := ClampMin0(tiBeforeQbi - qbiDeduction);
    var ordinaryTax, capitalGainsTax := TaxLines(taxableIncome, pool, t);

    return Year(agi, qbiDeduction, taxableIncome, ordinaryTax, capitalGainsTax,
      Carry(CarriedDollars(suspendedOut), ToDollars(capital.carryforwardOut)));
  }

  // ----- the deduction comes only out of ordinary income -----

  /**
   Taxable income is exactly pre-QBI income less the deduction (the clamp never bites), and the deduction leaves the
   preferentially taxed part of income whole.
   */
  lemma {:induction false} QbiComesOutOfOrdinaryIncome(p: Profile, t: TableSet, carryIn: Carry)
    requires 0.0 <= t.qbi.rate <= 1.0 && Dollars(t.qbi.minAmount) >= 0 && Dollars(p.qualifiedDividends) >= 0
    ensures TaxableIncome(p, t, carryIn) == IncomeBeforeQbi(p, t, carryIn) - QbiDeductionOf(p, t, carryIn)
    ensures Min(PreferentialPool(p, carryIn), TaxableIncome(p, t, carryIn))
      == Min(PreferentialPool(p, carryIn), IncomeBeforeQbi(p, t, carryIn))
  {
    Qbi.DeductionWithinCap(QbiBusinesses(p, t), IncomeBeforeQbi(p, t, carryIn), PreferentialPool(p, carryIn), t.qbi);
  }

  lemma {:induction false} TablesEndOpen(t: TableSet)
    requires WellFormed(t)
    ensures LastRowOpen(TableInCents(t.brackets)) && LastRowOpen(TableInCents(t.capitalGainsBrackets))
  {
    AscendingLastOpen(TableInCents(t.brackets), 0);
    AscendingLastOpen(TableInCents(t.capitalGainsBrackets), 0);
  }

  /** Exact tax of the two lines: ordinary cents at the ordinary table, the cents above them at the gains table. */
  ghost function ExactLines(t: TableSet, ordinary: int, taxable: int): real
    requires WellFormed(t)
  {
    TablesEndOpen(t);
    ExactTax(TableInCents(t.brackets), 0, ordinary) + ExactTax(TableInCents(t.capitalGainsBrackets), ordinary, taxable)
  }

  /**
   The two tax lines together tax every cent of taxable income once, each at its own table's marginal rate, within
   half a cent per table row.
   */
  lemma {:induction false} TaxLinesWithinHalfCentPerRow(p: Profile, t: TableSet, carryIn: Carry)
    requires WellFormed(t)
    ensures
      var y := YearOf(p, t, carryIn);
      var ordinary := y.taxableIncome - Min(PreferentialPool(p, carryIn), y.taxableIncome);
      AbsReal((y.ordinaryTax + y.capitalGainsTax) as real - ExactLines(t, ordinary, y.taxableIncome))
        <= 0.5 * (|t.brackets| + |t.capitalGainsBrackets|) as real
  {
    var taxable := TaxableIncome(p, t, carryIn);
    TaxLinesAre(p, t, carryIn);
    TaxLinesBound(taxable, taxable - Min(PreferentialPool(p, carryIn), taxable), t);
  }

  lemma {:induction false} TaxLinesAre(p: Profile, t: TableSet, carryIn: Carry)
    ensures
      var y, taxable := YearOf(p, t, carryIn), TaxableIncome(p, t, carryIn);
      var ordinary := taxable - Min(PreferentialPool(p, carryIn), taxable);
      && y.taxableIncome == taxable >= 0
      && y.ordinaryTax == TaxOf(Layers(TableInCents(t.brackets), 0, ordinary))
      && y.capitalGainsTax == TaxOf(Layers(TableInCents(t.capitalGainsBrackets), ClampMin0(ordinary), taxable))
  {}

  lemma {:induction false} TaxLinesBound(taxable: int, ordinary: int, t: TableSet)
    requires WellFormed(t) && ordinary >= 0
    ensures
      var tax := TaxOf(Layers(TableInCents(t.brackets), 0, ordinary))
        + TaxOf(Layers(TableInCents(t.capitalGainsBrackets), ClampMin0(ordinary), taxable));
      AbsReal(tax as real - ExactLines(t, ordinary, taxable)) <= 0.5 * (|t.brackets| + |t.capitalGainsBrackets|) as real
  {
    TablesEndOpen(t);
    LayerTaxBound(TableInCents(t.brackets), 0, ordinary);
    LayerTaxBound(TableInCents(t.capitalGainsBrackets), ordinary, taxable);
  }

  // ----- what the whole-dollar carry loses -----

  /** The entries that the carry drops because they are below zero, as magnitudes. */
  function Dropped(m: map<string, int>): map<string, int> {
    map k | k in m && m[k] < 0 :: -m[k]
  }

  lemma {:induction false} CarriedWithout(m: map<string, int>, k: string)
    requires k in m
    ensures SumOf(CarriedDollars(m)) == SumOf(CarriedDollars(m - {k})) + (if m[k] > 0 then ToDollars(m[k]) else 0)
    ensures |CarriedDollars(m)| == |CarriedDollars(m - {k})| + (if m[k] > 0 then 1 else 0)
  {
    var all, rest := CarriedDollars(m), CarriedDollars(m - {k});
    if m[k] > 0 {
      assert all - {k} == rest;
      SumRemove(all, k);
      SizeWithout(all, k);
    } else {
      assert all == rest;
    }
  }

  lemma {:induction false} SizeWithout(m: map<string, int>, k: string)
    requires k in m
    ensures |m| == |m - {k}| + 1
  {
    assert m.Keys == (m - {k}).Keys + {k};
  }

  lemma {:induction false} DroppedWithout(m: map<string, int>, k: string)
    requires k in m
    ensures SumOf(Dropped(m)) == SumOf(Dropped(m - {k})) + Max(0, -m[k])
  {
    if m[k] < 0 {
      assert Dropped(m) - {k} == Dropped(m - {k});
      SumRemove(Dropped(m), k);
    } else {
      assert Dropped(m) == Dropped(m - {k});
    }
  }

  lemma {:induction false} CarryStep(sum: int, dropped: int, carried: int, n: int, v: int)
    requires Abs(sum + dropped - 100 * carried) <= 50 * n
    ensures Abs((sum + v) + (dropped + Max(0, -v)) - 100 * (carried + (if v > 0 then ToDollars(v) else 0)))
      <= 50 * (n + (if v > 0 then 1 else 0))
  {}

  lemma {:induction false} CarryRoundingStep(m: map<string, int>, k: string)
    requires k in m && CarryBalanced(m - {k})
    ensures CarryBalanced(m)
  {
    var rest := m - {k};
    SumRemove(m, k);
    CarriedWithout(m, k);
    DroppedWithout(m, k);
    CarryStep(SumOf(rest), SumOf(Dropped(rest)), SumOf(CarriedDollars(rest)), |CarriedDollars(rest)|, m[k]);
  }

  /** Rounding to whole dollars moves the total by at most 50 cents per carried activity, plus what is dropped. */
  ghost predicate CarryBalanced(m: map<string, int>) {
    Abs(SumOf(m) + SumOf(Dropped(m)) - 100 * SumOf(CarriedDollars(m))) <= 50 * |CarriedDollars(m)|
  }

  lemma {:induction false} CarryRounding(m: map<string, int>)
    ensures CarryBalanced(m)
    decreases |m|
  {
    if m == map[] {
      assert Dropped(m) == map[] && CarriedDollars(m) == map[];
    } else {
      var k :| k in m;
      CarryRounding(m - {k});
      CarryRoundingStep(m, k);
    }
  }

  lemma {:induction false} InCentsTotal(m: map<string, int>)
    ensures SumOf(InCents(m)) == 100 * SumOf(m)
    ensures Passive.NonNegative(m) ==> Passive.NonNegative(InCents(m))
    decreases |m|
  {
    forall k | k in m
      ensures InCents(m)[k] == 100 * m[k]
    {
      WholeDollarsRoundTrip(m[k]);
    }
    if m == map[] {
      assert InCents(m) == map[];
    } else {
      var k :| k in m;
      InCentsTotal(m - {k});
      SumRemove(m, k);
      SumRemove(InCents(m), k);
      assert InCents(m) - {k} == InCents(m - {k});
    }
  }

  /** All shares but the last are non-negative, so at most the last loss activity can end below zero, and not by much. */
  lemma {:induction false} AllocatedNonNegative(m: map<string, int>, ls: seq<Passive.Activity>, newly: int, n: nat)
    requires n < |ls| && newly > 0 && Passive.NonNegative(m)
    requires Passive.Magnitude(ls) > 0 && forall i :: 0 <= i < |ls| ==> Passive.IsLoss(ls[i])
    ensures Passive.NonNegative(Passive.Allocated(m, ls, newly, n))
  {
    if n > 0 {
      AllocatedNonNegative(m, ls, newly, n - 1);
      ProRata.ShareWithinHalfCent(newly, -ls[n - 1].amount, Passive.Magnitude(ls));
      ProRata.ExactShareSign(newly, -ls[n - 1].amount, Passive.Magnitude(ls));
    }
  }

  lemma {:induction false} OneNegative(m: map<string, int>, id: string)
    requires forall k :: k in m && k != id ==> m[k] >= 0
    ensures SumOf(Dropped(m)) == Max(0, -Get(m, id))
  {
    if id in m && m[id] < 0 {
      SumRemove(Dropped(m), id);
      assert Dropped(m) - {id} == map[];
    } else {
      assert Dropped(m) == map[];
    }
  }

  lemma {:induction false} AllocationDrops(m: map<string, int>, ls: seq<Passive.Activity>, newly: int)
    requires Passive.NonNegative(m)
    requires forall i :: 0 <= i < |ls| ==> Passive.IsLoss(ls[i])
    ensures 0 <= 2 * SumOf(Dropped(Passive.Suspended(m, ls, newly))) <= Max(0, |ls| - 2)
  {
    if newly > 0 && ls != [] {
      Passive.ProRataBounds(ls, newly, m);
      LastShareDrops(m, ls, newly);
    } else {
      assert Passive.Magnitude([]) == 0;
      assert Dropped(m) == map[];
    }
  }

  lemma {:induction false} LastShareDrops(m: map<string, int>, ls: seq<Passive.Activity>, newly: int)
    requires Passive.NonNegative(m) && newly > 0 && ls != [] && Passive.Magnitude(ls) > 0
    requires forall i :: 0 <= i < |ls| ==> Passive.IsLoss(ls[i])
    requires Passive.Share(ls, newly, |ls| - 1) as real > -0.5 * (|ls| - 1) as real
    ensures 0 <= 2 * SumOf(Dropped(Passive.Allocated(m, ls, newly, |ls|))) <= Max(0, |ls| - 2)
  {
    var n := |ls| - 1;
    AllocatedNonNegative(m, ls, newly, n);
    var before, share := Passive.Allocated(m, ls, newly, n), Passive.Share(ls, newly, n);
    assert 2 * share > -n;
    OneNegative(before[ls[n].id := Get(before, ls[n].id) + share], ls[n].id);
  }

  lemma {:induction false} DroppedResidual(rentals: seq<Passive.Rental>, suspendedIn: map<string, int>, magi: int, t: Passive.PassiveTable)
    requires Passive.NonNegative(suspendedIn)
    ensures
      var k := |Passive.Losses(Passive.Activities(rentals, suspendedIn))|;
      var dropped := SumOf(Dropped(Passive.SuspendedOut(rentals, suspendedIn, magi, t)));
      0 <= 2 * dropped <= Max(0, k - 2)
  {
    var es, remaining := Passive.Activities(rentals, suspendedIn), Passive.Remaining(rentals, suspendedIn);
    Passive.ReleaseKeepsNonNegative(rentals, suspendedIn);
    AllocationDrops(remaining, Passive.Losses(es), Passive.NewlySuspended(es, magi, t));
  }

  /** How far a year departs from conservation, with both carries in whole dollars. */
  ghost function Departure(included: int, out: map<string, int>, net: int, carried: map<string, int>): int {
    (included - 100 * SumOf(out)) - (net - 100 * SumOf(carried))
  }

  /** Twice the departure a year may show: 50 cents per carried activity and less than half a cent per loss beyond two. */
  function Slack(out: map<string, int>, lossCount: nat): nat {
    100 * |out| + Max(0, lossCount - 2)
  }

  /** A year keeps the passive books balanced up to the whole-dollar carry. */
  lemma {:induction false} PassiveDrift(rentals: seq<Passive.Rental>, carried: map<string, int>, magi: int, t: Passive.PassiveTable)
    requires Passive.NonNegative(carried)
    ensures
      var suspendedIn := InCents(carried);
      var out := CarriedDollars(Passive.SuspendedOut(rentals, suspendedIn, magi, t));
      2 * Abs(Departure(Passive.IncludedIncome(rentals, suspendedIn, magi, t), out, Passive.NetIncome(rentals), carried))
        <= Slack(out, |Passive.Losses(Passive.Activities(rentals, suspendedIn))|)
  {
    var suspendedIn := InCents(carried);
    Passive.PassiveConserves(rentals, suspendedIn, magi, t);
    InCentsTotal(carried);
    DroppedResidual(rentals, suspendedIn, magi, t);
    DriftFromParts(
      Passive.IncludedIncome(rentals, suspendedIn, magi, t), Passive.SuspendedOut(rentals, suspendedIn, magi, t),
      Passive.NetIncome(rentals), carried, |Passive.Losses(Passive.Activities(rentals, suspendedIn))|);
  }

  lemma {:induction false} DriftFromParts(included: int, suspendedOut: map<string, int>, net: int, carried: map<string, int>, lossCount: nat)
    requires included - SumOf(suspendedOut) == net - 100 * SumOf(carried)
    requires 0 <= 2 * SumOf(Dropped(suspendedOut)) <= Max(0, lossCount - 2)
    ensures 2 * Abs(Departure(included, CarriedDollars(suspendedOut), net, carried)) <= Slack(CarriedDollars(suspendedOut), lossCount)
  {
    CarryRounding(suspendedOut);
    DepartureBound(included, SumOf(suspendedOut), net, SumOf(carried), SumOf(Dropped(suspendedOut)),
      SumOf(CarriedDollars(suspendedOut)), |CarriedDollars(suspendedOut)|, Max(0, lossCount - 2));
  }

  lemma {:induction false} DepartureBound(included: int, suspendedOut: int, net: int, carriedIn: int, dropped: int, carriedOut: int, n: nat, residual: nat)
    requires included - suspendedOut == net - 100 * carriedIn
    requires Abs(suspendedOut + dropped - 100 * carriedOut) <= 50 * n
    requires 0 <= 2 * dropped <= residual
    ensures 2 * Abs((included - 100 * carriedOut) - (net - 100 * carriedIn)) <= 100 * n + residual
  {}

  lemma {:induction false} CarryStaysNonNegative(suspendedOut: map<string, int>)
    ensures Passive.NonNegative(CarriedDollars(suspendedOut))
  {
    forall k | k in CarriedDollars(suspendedOut)
      ensures CarriedDollars(suspendedOut)[k] >= 0
    {
      ToDollarsMonotone(0, suspendedOut[k]);
      WholeDollarsRoundTrip(0);
    }
  }

  ghost function YearDeparture(p: Profile, t: TableSet, carryIn: Carry): int {
    Departure(IncludedRental(p, t, carryIn), CarryOut(p, t, carryIn).passiveByActivity, Passive.NetIncome(p.rentals), carryIn.passiveByActivity)
  }

  ghost function YearSlack(p: Profile, t: TableSet, carryIn: Carry): nat {
    Slack(CarryOut(p, t, carryIn).passiveByActivity, |Passive.Losses(Passive.Activities(p.rentals, InCents(carryIn.passiveByActivity)))|)
  }

  /** PassiveDrift for the year's own carry in and carry out. */
  lemma {:induction false} YearPassiveDrift(p: Profile, t: TableSet, carryIn: Carry)
    requires Passive.NonNegative(carryIn.passiveByActivity)
    ensures 2 * Abs(YearDeparture(p, t, carryIn)) <= YearSlack(p, t, carryIn)
  {
    PassiveDrift(p.rentals, carryIn.passiveByActivity, MagiExPassive(p, t, carryIn), t.passive);
  }
}
