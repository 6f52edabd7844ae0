/** How a scenario runs: which transform sees whose work, and what the years before the transforms look like. */
module ScenarioLaws {
  import opened Money
  import opened ComputeYear
  import opened Sorting
  import opened Scenario
  import opened Strategies
  import Flows
  import Passive

  // ----- the order of the transforms -----

  /** applyOrder never falls, and within one applyOrder strategy ids never fall lexicographically. */
  ghost predicate InOrder(ts: seq<Transform>) {
    forall i, j :: 0 <= i < j < |ts| ==> NotAfter(ts[i], ts[j])
  }

  ghost predicate NotAfter(a: Transform, b: Transform) {
    a.applyOrder < b.applyOrder || (a.applyOrder == b.applyOrder && !Smaller(b.strategyId, a.strategyId))
  }

  lemma {:induction false} NotAfterExactly(a: Transform, b: Transform)
    ensures NotAfter(a, b) <==> !Before(b, a)
  {
    StringLessExactly(b.strategyId, a.strategyId);
  }

  lemma {:induction false} NotAfterTransitive(a: Transform, b: Transform, c: Transform)
    requires !Before(b, a) && !Before(c, b)
    ensures !Before(c, a)
  {
    var x, y, z := a.strategyId, b.strategyId, c.strategyId;
    StringLessTotal(x, y);
    StringLessTotal(y, z);
    if StringLess(z, x) && x != y && StringLess(x, y) {
      StringLessTransitive(z, x, y);
    }
  }

  ghost predicate NoneBefore(ts: seq<Transform>) {
    forall i, j :: 0 <= i < j < |ts| ==> !Before(ts[j], ts[i])
  }

  lemma {:induction false} InsertInOrder(x: Transform, ys: seq<Transform>)
    requires NoneBefore(ys)
    ensures NoneBefore(Insert(x, ys, Before))
  {
    if ys != [] {
      if Before(ys[0], x) {
        InsertInOrder(x, ys[1..]);
        var rest := Insert(x, ys[1..], Before);
        forall j | 0 <= j < |rest|
          ensures !Before(rest[j], ys[0])
        {
          if rest[j] == x {
            StringLessTotal(x.strategyId, ys[0].strategyId);
          } else {
            assert rest[j] in ys[1..];
          }
        }
      } else {
        forall j | 0 <= j < |ys|
          ensures !Before(ys[j], x)
        {
          if j > 0 {
            NotAfterTransitive(x, ys[0], ys[j]);
          }
        }
      }
    }
  }

  lemma {:induction false} SortInOrder(ts: seq<Transform>)
    ensures NoneBefore(Sort(ts, Before))
  {
    if ts != [] {
      SortInOrder(ts[1..]);
      InsertInOrder(ts[0], Sort(ts[1..], Before));
    }
  }

  lemma {:induction false} SortPermutes(ts: seq<Transform>)
    ensures multiset(Sort(ts, Before)) == multiset(ts)
  {
    if ts != [] {
      SortPermutes(ts[1..]);
      InsertPermutes(ts[0], Sort(ts[1..], Before));
      FirstOut(ts);
    }
  }

  lemma {:induction false} FirstOut(ts: seq<Transform>)
    requires ts != []
    ensures multiset(ts) == multiset{ts[0]} + multiset(ts[1..])
  {
    assert ts == [ts[0]] + ts[1..];
  }

  lemma {:induction false} InsertPermutes(x: Transform, ys: seq<Transform>)
    ensures multiset(Insert(x, ys, Before)) == multiset{x} + multiset(ys)
  {
    if ys != [] && Before(ys[0], x) {
      InsertPermutes(x, ys[1..]);
      FirstOut(ys);
    }
  }

  /**
   The years run on a permutation of the transforms in ascending applyOrder, ids breaking ties. So what the k-th one
   receives has passed through every transform with a smaller applyOrder and through none with a larger one.
   */
  lemma {:induction false} RunsInOrder(plan: Plan, transforms: seq<Transform>, years: nat) returns (ordered: seq<Transform>)
    ensures multiset(ordered) == multiset(transforms) && InOrder(ordered)
    ensures Scenario.Scenario(plan, transforms, years) == Project(SetupOf(plan), ordered, years)
    ensures forall i, k :: 0 <= i < |ordered| && 0 <= k < |ordered| ==>
      && (ordered[i].applyOrder < ordered[k].applyOrder ==> i < k)
      && (ordered[i].applyOrder > ordered[k].applyOrder ==> i > k)
  {
    ordered := Sort(transforms, Before);
    SortInOrder(transforms);
    SortPermutes(transforms);
    forall i, j | 0 <= i < j < |ordered|
      ensures NotAfter(ordered[i], ordered[j])
    {
      NotAfterExactly(ordered[i], ordered[j]);
    }
  }

  /** The first year of two transforms, handed over in either order: the later one works on what the earlier one made. */
  lemma {:induction false} FirstYearOfTwo(plan: Plan, a: Transform, b: Transform)
    requires a.applyOrder < b.applyOrder && a.strategyId != b.strategyId
    ensures
      var afterA := a.apply(Context(YearProfile(plan, 0), a.params, plan.tableSet, plan.startYear, 0, map[]));
      var afterB := b.apply(Context(afterA.profile, b.params, plan.tableSet, plan.startYear, 0, map[]));
      Scenario.Scenario(plan, [a, b], 1).profiles == Scenario.Scenario(plan, [b, a], 1).profiles == [afterB.profile]
  {
    SortTwo(a, b);
    ProfileOfTwo(SetupOf(plan), a, b);
  }

  lemma {:induction false} SortTwo(a: Transform, b: Transform)
    requires a.applyOrder < b.applyOrder
    ensures Sort([a, b], Before) == Sort([b, a], Before) == [a, b]
  {
    assert [a, b][1..] == [b] && [b, a][1..] == [a] && [a][1..] == [] && [b][1..] == [];
    assert Sort([a], Before) == [a] && Sort([b], Before) == [b];
  }

  lemma {:induction false} ProfileOfTwo(setup: Setup, a: Transform, b: Transform)
    requires a.strategyId != b.strategyId
    ensures
      var afterA := a.apply(Context(setup.yearProfile(0), a.params, setup.tableSet, setup.startYear + 0, 0, map[]));
      var afterB := b.apply(Context(afterA.profile, b.params, setup.tableSet, setup.startYear + 0, 0, map[]));
      Project(setup, [a, b], 1).profiles == [afterB.profile]
  {
    var st := YearStart(setup, [a, b], 0);
    var mid := ApplyOne(a, st, setup, 0);
    assert [a, b][1..] == [b] && [b][1..] == [];
    assert ApplyAll([b], mid, setup, 0) == ApplyOne(b, mid, setup, 0);
    assert Project(setup, [a, b], 1) == AddYear(setup, [a, b], Project(setup, [a, b], 0), 0);
    assert [] + [ApplyOne(b, mid, setup, 0).profile] == [ApplyOne(b, mid, setup, 0).profile];
  }

  // ----- the year loop -----

  /** Each year computes on the profile its transforms made and on the carry of the year before, and hands its own carry on. */
  lemma {:induction false} YearLoopLaw(setup: Setup, ts: seq<Transform>, y: nat)
    ensures
      var before, now := Project(setup, ts, y), Project(setup, ts, y + 1);
      var made := ApplyAll(ts, Thread(setup.yearProfile(y), before.notes, before.carry), setup, y);
      var computed := setup.engine(made.profile, before.engineCarry);
      && now.profiles == before.profiles + [made.profile] && now.years == before.years + [computed]
      && now.engineCarry == computed.carryOut && now.notes == made.notes && now.carry == made.carry
    ensures Project(setup, ts, 0) == Projection([], [], [], Carry(map[], 0), map[])
  {}

  /** One transform: it is given its own record only, its patch is merged into that record, its notes are appended. */
  lemma {:induction false} TransformLaw(t: Transform, st: Thread, setup: Setup, y: nat, id: string)
    ensures
      var own := if t.strategyId in st.carry then st.carry[t.strategyId] else map[];
      var out := t.apply(Context(st.profile, t.params, setup.tableSet, setup.startYear + y, y, own));
      var after := ApplyOne(t, st, setup, y);
      && after.profile == out.profile
      && |after.notes| == |st.notes| + |out.notes| && st.notes <= after.notes
      && (forall i :: 0 <= i < |out.notes| ==> after.notes[|st.notes| + i] == Note(t.strategyId, y + 1, out.notes[i]))
      && Own(after.carry, t.strategyId) == own + out.carryPatch
      && (id != t.strategyId ==> Own(after.carry, id) == Own(st.carry, id))
  {}

  // ----- the years before the transforms -----

  /** `r` is the nearest whole dollar, ties up. */
  predicate Nearest(r: real, exact: real) {
    r == r.Floor as real && exact - 0.5 < r <= exact + 0.5
  }

  /** The growth factor compounds. */
  lemma {:induction false} GrowthCompounds(x: real, n: nat)
    ensures Pow(x, 0) == 1.0 && Pow(x, n + 1) == Pow(x, n) * x
  {}

  lemma {:induction false} GrownIsNearest(d: real, f: real)
    ensures Nearest(Grown(d, f), d * f)
  {}

  ghost function FactorOf(plan: Plan, y: nat): real {
    Pow(1.0 + plan.growthPct / 100.0, y)
  }

  /** Wages, investment and other income grow, each to the nearest dollar. */
  lemma {:induction false} GrowthOfLines(plan: Plan, y: nat)
    ensures
      var p, q, f := plan.baseline, YearProfile(plan, y), FactorOf(plan, y);
      && Nearest(q.wages, p.wages * f) && Nearest(q.interestIncome, p.interestIncome * f)
      && Nearest(q.ordinaryDividends, p.ordinaryDividends * f) && Nearest(q.qualifiedDividends, p.qualifiedDividends * f)
      && Nearest(q.shortTermCapGain, p.shortTermCapGain * f) && Nearest(q.longTermCapGain, p.longTermCapGain * f)
      && Nearest(q.otherIncome, p.otherIncome * f)
  {
    var p, f := plan.baseline, FactorOf(plan, y);
    GrownIsNearest(p.wages, f);
    GrownIsNearest(p.interestIncome, f);
    GrownIsNearest(p.ordinaryDividends, f);
    GrownIsNearest(p.qualifiedDividends, f);
    GrownIsNearest(p.shortTermCapGain, f);
    GrownIsNearest(p.longTermCapGain, f);
    GrownIsNearest(p.otherIncome, f);
  }

  /** Deductions do not grow, and projection years know nothing about payments. */
  lemma {:induction false} GrowthKeeps(plan: Plan, y: nat)
    ensures
      var p, q := plan.baseline, YearProfile(plan, y);
      && q.adjustments == p.adjustments && q.seHealthInsurance == p.seHealthInsurance && q.hsaContribution == p.hsaContribution
      && q.retirementContributions == p.retirementContributions && q.itemized == p.itemized
      && q.qbiReduction == p.qbiReduction && q.ptetPaid == p.ptetPaid
      && (y == 0 ==> q.withholding == p.withholding && q.estimatedPayments == p.estimatedPayments)
      && (y > 0 ==> q.withholding == 0.0 && q.estimatedPayments == 0.0)
  {}

  lemma {:induction false} GrownBusiness(plan: Plan, y: nat, i: nat)
    requires i < |plan.baseline.businesses|
    ensures |YearProfile(plan, y).businesses| == |plan.baseline.businesses|
    ensures
      var b, f := plan.baseline.businesses[i], FactorOf(plan, y);
      YearProfile(plan, y).businesses[i]
        == b.(netProfit := Grown(b.netProfit, f), employeeWages := Grown(b.employeeWages, f), ownerWages := Grown(b.ownerWages, f))
  {}

  /** Results and wages of businesses grow, their nature does not. */
  lemma {:induction false} GrowthOfBusiness(plan: Plan, y: nat, i: nat)
    requires i < |plan.baseline.businesses|
    ensures |YearProfile(plan, y).businesses| == |plan.baseline.businesses|
    ensures
      var b, c, f := plan.baseline.businesses[i], YearProfile(plan, y).businesses[i], FactorOf(plan, y);
      && Nearest(c.netProfit, b.netProfit * f) && Nearest(c.employeeWages, b.employeeWages * f) && Nearest(c.ownerWages, b.ownerWages * f)
      && c.kind == b.kind && c.sstb == b.sstb && c.qbiEligible == b.qbiEligible
  {
    var b, f := plan.baseline.businesses[i], FactorOf(plan, y);
    GrownBusiness(plan, y, i);
    GrownIsNearest(b.netProfit, f);
    GrownIsNearest(b.employeeWages, f);
    GrownIsNearest(b.ownerWages, f);
  }

  lemma {:induction false} GrowthOfRental(plan: Plan, y: nat, i: nat)
    requires i < |plan.baseline.rentals|
    ensures |YearProfile(plan, y).rentals| == |plan.baseline.rentals|
    ensures
      var r, g, f := plan.baseline.rentals[i], YearProfile(plan, y).rentals[i], FactorOf(plan, y);
      Nearest(g.netIncome, r.netIncome * f) && g.id == r.id && g.activeParticipant == r.activeParticipant
  {
    GrownIsNearest(plan.baseline.rentals[i].netIncome, FactorOf(plan, y));
  }

  // ----- what each strategy does in a year -----

  /** The first year of an installment sale: all but one tranche is deferred, as far as there is gain on hand. */
  lemma {:induction false} InstallmentFirstYear(ctx: Context)
    requires ctx.yearIndex == 0
    ensures
      var gain := if "totalGain" in ctx.params then ctx.params["totalGain"] else 0.0;
      var asked := if "termYears" in ctx.params then ctx.params["termYears"].Floor else 5;
      var term := if asked < 2 then 2 else if asked > 30 then 30 else asked;
      var out := InstallmentSpread(ctx);
      var deferred := ctx.profile.longTermCapGain - out.profile.longTermCapGain;
      && out.profile == ctx.profile.(longTermCapGain := out.profile.longTermCapGain)
      && (gain <= 0.0 ==> out.profile == ctx.profile && out.carryPatch == map[])
      && (gain > 0.0 ==>
            && "tranche" in out.carryPatch && Nearest(out.carryPatch["tranche"], gain / term as real)
            && deferred == (if ctx.profile.longTermCapGain <= 0.0 then MinReal(gain - out.carryPatch["tranche"], 0.0)
                            else MinReal(gain - out.carryPatch["tranche"], ctx.profile.longTermCapGain))
            && "remaining" in out.carryPatch && out.carryPatch["remaining"] == deferred)
  {
    var tranche := Tranche(ctx.params);
    assert tranche == tranche.Floor as real;
  }

  /** A later year brings one tranche back, or what is left. */
  lemma {:induction false} InstallmentLaterYear(ctx: Context, remaining: real, tranche: real)
    requires ctx.yearIndex > 0 && "totalGain" in ctx.params && ctx.params["totalGain"] > 0.0
    requires remaining >= 0.0 && tranche >= 0.0
    requires "remaining" in ctx.carry && ctx.carry["remaining"] == remaining && "tranche" in ctx.carry && ctx.carry["tranche"] == tranche
    ensures InstallmentSpread(ctx).profile
      == ctx.profile.(longTermCapGain := ctx.profile.longTermCapGain + (if tranche <= remaining then tranche else remaining))
  {}

  /** Bracket management: last year's move arrives, and what was asked for leaves, as far as there is income to defer. */
  lemma {:induction false} BracketYear(ctx: Context, asked: real, arrived: real)
    requires asked == (if "deferAmount" in ctx.params then ctx.params["deferAmount"] else 0.0)
    requires arrived == (if "deferredIn" in ctx.carry then ctx.carry["deferredIn"] else 0.0)
    ensures
      var income := ctx.profile.otherIncome + arrived;
      var moved := if asked < 0.0 then asked else if income <= 0.0 then 0.0 else if asked <= income then asked else income;
      && BracketManagement(ctx).profile == ctx.profile.(otherIncome := income - moved)
      && Num(ctx.carry + BracketManagement(ctx).carryPatch, "deferredIn", 0.0) == moved
  {}

  /** NOL planning deducts the balance, up to 80% of the income estimate to the nearest dollar, and never a negative amount. */
  lemma {:induction false} NolYearExactly(ctx: Context, opening: real)
    requires opening >= 0.0
    requires ctx.yearIndex == 0 ==> "nolCarryforward" in ctx.params && ctx.params["nolCarryforward"] == opening
    requires ctx.yearIndex > 0 ==> "remaining" in ctx.carry && ctx.carry["remaining"] == opening
    ensures
      var cap := ((IncomeEstimate(ctx.profile) * 0.8) + 0.5).Floor as real;
      var deducted := if cap <= 0.0 then 0.0 else if opening <= cap then opening else cap;
      && NolPlanning(ctx).profile == ctx.profile.(adjustments := ctx.profile.adjustments + deducted)
      && Num(ctx.carry + NolPlanning(ctx).carryPatch, "remaining", 0.0) == opening - deducted
  {}

  /** The income the limit is taken of: positive parts only, an S corporation's profit after its owner's wages. */
  lemma {:induction false} IncomeEstimateParts(p: Profile, b: Flows.Business)
    ensures IncomeEstimate(p.(businesses := p.businesses)) == IncomeEstimate(p)
    ensures IncomeEstimate(p.(businesses := [b] + p.businesses)) - IncomeEstimate(p)
      == MaxReal(0.0, b.netProfit - (if b.kind == Flows.SCorp then b.ownerWages else 0.0))
    ensures IncomeEstimate(p.(businesses := [])) ==
      MaxReal(p.wages, 0.0) + MaxReal(p.interestIncome, 0.0) + MaxReal(p.ordinaryDividends + p.qualifiedDividends, 0.0)
      + MaxReal(p.shortTermCapGain + p.longTermCapGain, 0.0) + MaxReal(p.otherIncome, 0.0)
  {
    assert ([b] + p.businesses)[1..] == p.businesses;
  }

  /** Deferring first leaves less income for the NOL: $50,000 deferred of $100,000, then 80% of the rest deducted. */
  lemma {:induction false} DeferralThenNol(setup: Setup, p: Profile)
    requires setup.yearProfile(0) == p && p.otherIncome == 100000.0 && p.businesses == [] && p.wages == 0.0 && p.interestIncome == 0.0
    requires p.ordinaryDividends == 0.0 && p.qualifiedDividends == 0.0 && p.shortTermCapGain == 0.0 && p.longTermCapGain == 0.0
    ensures
      var bracket, nol := Bracket(62, map["deferAmount" := 50000.0]), Nol(64, map["nolCarryforward" := 100000.0]);
      Project(setup, Sort([nol, bracket], Before), 1).profiles == [p.(otherIncome := 50000.0, adjustments := p.adjustments + 40000.0)]
  {
    var bracket, nol := Bracket(62, map["deferAmount" := 50000.0]), Nol(64, map["nolCarryforward" := 100000.0]);
    DeferHalf(p, setup.tableSet, setup.startYear + 0);
    DeductRest(p.(otherIncome := 50000.0), setup.tableSet, setup.startYear + 0);
    SortTwo(bracket, nol);
    ProfileOfTwo(setup, bracket, nol);
  }

  lemma {:induction false} DeferHalf(p: Profile, t: TableSet, year: int)
    requires p.otherIncome == 100000.0
    ensures BracketManagement(Context(p, map["deferAmount" := 50000.0], t, year, 0, map[])).profile == p.(otherIncome := 50000.0)
  {
    BracketYear(Context(p, map["deferAmount" := 50000.0], t, year, 0, map[]), 50000.0, 0.0);
  }

  lemma {:induction false} DeductRest(q: Profile, t: TableSet, year: int)
    requires q.otherIncome == 50000.0 && q.businesses == [] && q.wages == 0.0 && q.interestIncome == 0.0
    requires q.ordinaryDividends == 0.0 && q.qualifiedDividends == 0.0 && q.shortTermCapGain == 0.0 && q.longTermCapGain == 0.0
    ensures NolPlanning(Context(q, map["nolCarryforward" := 100000.0], t, year, 0, map[])).profile
      == q.(adjustments := q.adjustments + 40000.0)
  {
    assert IncomeEstimate(q) == 50000.0;
    NolYearExactly(Context(q, map["nolCarryforward" := 100000.0], t, year, 0, map[]), 100000.0);
  }
}
