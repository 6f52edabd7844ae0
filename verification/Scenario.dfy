/** Scenario composition of scenario.ts: transform order, the year loop, and the two carries threaded through it. */
module Scenario {
  import opened Money
  import opened ComputeYear
  import opened Sorting
  import Capital
  import Passive
  import Totals

  /** What a strategy transform sees. `params` and `carry` hold the finite numbers on file. */
  datatype Context = Context(
    profile: Profile,
    params: map<string, real>,
    tableSet: TableSet,
    year: int,
    yearIndex: nat,
    carry: map<string, real>)

  /** What it returns; an absent carry patch is the empty one. */
  datatype Outcome = Outcome(profile: Profile, notes: seq<string>, carryPatch: map<string, real>)

  datatype Transform = Transform(strategyId: string, applyOrder: int, params: map<string, real>, apply: Context -> Outcome)

  datatype Note = Note(strategyId: string, year: nat, text: string)

  /** The inputs of a composition other than its transforms and its length. */
  datatype Plan = Plan(baseline: Profile, growthPct: real, tableSet: TableSet, startYear: int)

  // ----- order -----

  /** applyOrder first, then strategy id. */
  predicate Before(a: Transform, b: Transform) {
    a.applyOrder < b.applyOrder || (a.applyOrder == b.applyOrder && StringLess(a.strategyId, b.strategyId))
  }

  ghost predicate DistinctKeys(ts: seq<Transform>) {
    forall i, j :: 0 <= i < j < |ts| ==> ts[i].applyOrder != ts[j].applyOrder || ts[i].strategyId != ts[j].strategyId
  }

  lemma {:induction false} BeforeIsTotal(ts: seq<Transform>)
    requires DistinctKeys(ts)
    ensures OrderOn(ts, Before) && Distinct(ts)
  {
    forall a | a in ts
      ensures !Before(a, a)
    {
      StringLessTotal(a.strategyId, a.strategyId);
    }
    forall a, b | a in ts && b in ts && a != b
      ensures Before(a, b) || Before(b, a)
    {
      var i :| 0 <= i < |ts| && ts[i] == a;
      var j :| 0 <= j < |ts| && ts[j] == b;
      assert i < j || j < i;
      StringLessTotal(a.strategyId, b.strategyId);
    }
    forall a, b, c | a in ts && b in ts && c in ts && Before(a, b) && Before(b, c)
      ensures Before(a, c)
    {
      if a.applyOrder == c.applyOrder {
        StringLessTransitive(a.strategyId, b.strategyId, c.strategyId);
      }
    }
  }

  // ----- one year -----

  function Pow(b: real, n: nat): real {
    if n == 0 then 1.0 else b * Pow(b, n - 1)
  }

  function Grown(d: real, factor: real): real {
    Round(d * factor) as real
  }

  function GrowProfile(p: Profile, factor: real): Profile {
    p.(wages := Grown(p.wages, factor),
       businesses := seq(|p.businesses|, i requires 0 <= i < |p.businesses| =>
         p.businesses[i].(netProfit := Grown(p.businesses[i].netProfit, factor),
                          employeeWages := Grown(p.businesses[i].employeeWages, factor),
                          ownerWages := Grown(p.businesses[i].ownerWages, factor))),
       rentals := seq(|p.rentals|, i requires 0 <= i < |p.rentals| =>
         p.rentals[i].(netIncome := Grown(p.rentals[i].netIncome, factor))),
       interestIncome := Grown(p.interestIncome, factor),
       ordinaryDividends := Grown(p.ordinaryDividends, factor),
       qualifiedDividends := Grown(p.qualifiedDividends, factor),
       shortTermCapGain := Grown(p.shortTermCapGain, factor),
       longTermCapGain := Grown(p.longTermCapGain, factor),
       otherIncome := Grown(p.otherIncome, factor))
  }

  function YearProfile(plan: Plan, yearIndex: nat): Profile {
    var grown := GrowProfile(plan.baseline, Pow(1.0 + plan.growthPct / 100.0, yearIndex));
    if yearIndex > 0 then grown.(withholding := 0.0, estimatedPayments := 0.0) else grown
  }

  /**
   What a projection runs on: the untransformed profile of each year and the engine. Composition itself is proved for
   any choice of the two; SetupOf is the one the source uses.
   */
  datatype Setup = Setup(tableSet: TableSet, startYear: int, yearProfile: nat -> Profile, engine: (Profile, Carry) -> Year)

  ghost function SetupOf(plan: Plan): Setup {
    Setup(plan.tableSet, plan.startYear, (y: nat) => YearProfile(plan, y), (p: Profile, c: Carry) => YearOf(p, plan.tableSet, c))
  }

  type StrategyCarry = map<string, map<string, real>>

  /** The carry a strategy sees: its own entries only. */
  function Own(carry: StrategyCarry, id: string): map<string, real> {
    if id in carry then carry[id] else map[]
  }

  /** What runs through the transforms of one year. */
  datatype Thread = Thread(profile: Profile, notes: seq<Note>, carry: StrategyCarry)

  function ContextFor(t: Transform, st: Thread, setup: Setup, yearIndex: nat): Context {
    Context(st.profile, t.params, setup.tableSet, setup.startYear + yearIndex, yearIndex, Own(st.carry, t.strategyId))
  }

  function Tagged(id: string, yearIndex: nat, texts: seq<string>): seq<Note> {
    seq(|texts|, i requires 0 <= i < |texts| => Note(id, yearIndex + 1, texts[i]))
  }

  function ApplyOne(t: Transform, st: Thread, setup: Setup, yearIndex: nat): Thread {
    var out := t.apply(ContextFor(t, st, setup, yearIndex));
    Thread(
      out.profile,
      st.notes + Tagged(t.strategyId, yearIndex, out.notes),
      st.carry[t.strategyId := Own(st.carry, t.strategyId) + out.carryPatch])
  }

  function ApplyAll(ts: seq<Transform>, st: Thread, setup: Setup, yearIndex: nat): Thread {
    if ts == [] then st else ApplyAll(ts[1..], ApplyOne(ts[0], st, setup, yearIndex), setup, yearIndex)
  }

  // ----- the projection -----

  /** Everything after some number of years; `profiles` are the transformed profiles the engine computed on. */
  datatype Projection = Projection(
    profiles: seq<Profile>,
    years: seq<Year>,
    notes: seq<Note>,
    engineCarry: Carry,
    carry: StrategyCarry)

  ghost function AddYear(setup: Setup, ts: seq<Transform>, prev: Projection, yearIndex: nat): Projection {
    var st := ApplyAll(ts, Thread(setup.yearProfile(yearIndex), prev.notes, prev.carry), setup, yearIndex);
    var y := setup.engine(st.profile, prev.engineCarry);
    Projection(prev.profiles + [st.profile], prev.years + [y], st.notes, y.carryOut, st.carry)
  }

  ghost function Project(setup: Setup, ts: seq<Transform>, years: nat): (r: Projection)
    ensures |r.profiles| == |r.years| == years
  {
    if years == 0 then Projection([], [], [], EMPTY_CARRY, map[])
    else AddYear(setup, ts, Project(setup, ts, years - 1), years - 1)
  }

  ghost function Scenario(plan: Plan, transforms: seq<Transform>, years: nat): Projection {
    Project(SetupOf(plan), Sort(transforms, Before), years)
  }

  lemma {:induction false} ApplyAllStep(ordered: seq<Transform>, k: nat, st: Thread, setup: Setup, yearIndex: nat)
    requires k < |ordered|
    ensures ApplyAll(ordered[k..], st, setup, yearIndex)
      == ApplyAll(ordered[k + 1..], ApplyOne(ordered[k], st, setup, yearIndex), setup, yearIndex)
  {
    assert ordered[k..][0] == ordered[k] && ordered[k..][1..] == ordered[k + 1..];
  }

  /** One transform: it sees only its own carry, and merges its patch into it. */
  method ApplyTransform(t: Transform, before: Profile, notesIn: seq<Note>, carryIn: StrategyCarry, plan: Plan, yearIndex: nat)
    returns (profile: Profile, notes: seq<Note>, strategyCarry: StrategyCarry)
    ensures Thread(profile, notes, strategyCarry) == ApplyOne(t, Thread(before, notesIn, carryIn), SetupOf(plan), yearIndex)
  {
    var own := Own(carryIn, t.strategyId);
    var out := t.apply(Context(before, t.params, plan.tableSet, plan.startYear + yearIndex, yearIndex, own));
    return out.profile, notesIn + Tagged(t.strategyId, yearIndex, out.notes), carryIn[t.strategyId := own + out.carryPatch];
  }

  /** The inner loop: one year's profile through the ordered transforms. */
  method TransformYear(ordered: seq<Transform>, start: Profile, notesIn: seq<Note>, carryIn: StrategyCarry, plan: Plan, yearIndex: nat)
    returns (profile: Profile, notes: seq<Note>, strategyCarry: StrategyCarry)
    ensures Thread(profile, notes, strategyCarry)
      == ApplyAll(ordered, Thread(start, notesIn, carryIn), SetupOf(plan), yearIndex)
  {
    profile, notes, strategyCarry := start, notesIn, carryIn;
    ghost var setup := SetupOf(plan);
    ghost var whole := ApplyAll(ordered, Thread(start, notesIn, carryIn), setup, yearIndex);
    assert ordered[0..] == ordered;
    for k := 0 to |ordered|
      invariant whole == ApplyAll(ordered[k..], Thread(profile, notes, strategyCarry), setup, yearIndex)
    {
      var t := ordered[k];
      ApplyAllStep(ordered, k, Thread(profile, notes, strategyCarry), setup, yearIndex);
      profile, notes, strategyCarry := ApplyTransform(t, profile, notes, strategyCarry, plan, yearIndex);
    }
    assert ordered[|ordered|..] == [];
  }

  method ComposeScenario(plan: Plan, transforms: seq<Transform>, years: int) returns (results: seq<Year>, notes: seq<Note>)
    requires WellFormed(plan.tableSet)
    ensures results == Scenario(plan, transforms, Max(0, years)).years
    ensures notes == Scenario(plan, transforms, Max(0, years)).notes
  {
    var ordered := Sort(transforms, Before);
    results, notes := [], [];
    var engineCarry := EMPTY_CARRY;
    var strategyCarry: StrategyCarry := map[];
    ghost var setup := SetupOf(plan);
    ghost var run := Project(setup, ordered, 0);
    for yearIndex := 0 to Max(0, years)
      invariant run == Project(setup, ordered, yearIndex)
      invariant results == run.years && notes == run.notes
      invariant engineCarry == run.engineCarry && strategyCarry == run.carry
    {
      var profile;
      profile, notes, strategyCarry :=
        TransformYear(ordered, YearProfile(plan, yearIndex), notes, strategyCarry, plan, yearIndex);
      var year := ComputeYear.ComputeYear(profile, plan.tableSet, engineCarry);
      run := AddYear(setup, ordered, run, yearIndex);
      engineCarry := year.carryOut;
      results := results + [year];
    }
  }

  /**
   The order in which transforms are handed over never matters, for arbitrary transform functions: same years, same
   notes, same carries, over any number of years.
   */
  lemma {:induction false} OrderNeverMatters(plan: Plan, transforms: seq<Transform>, permuted: seq<Transform>, years: nat)
    requires multiset(transforms) == multiset(permuted) && DistinctKeys(transforms)
    ensures Scenario(plan, permuted, years) == Scenario(plan, transforms, years)
  {
    BeforeIsTotal(transforms);
    PermutationKeepsDistinct(transforms, permuted);
    SortCanonical(transforms, permuted, Before);
  }

  // ----- the engine carry over the years -----

  ghost function GainsOf(profiles: seq<Profile>): seq<Capital.Gains> {
    seq(|profiles|, i requires 0 <= i < |profiles| => Capital.Gains(profiles[i].shortTermCapGain, profiles[i].longTermCapGain))
  }

  /** An engine whose capital carry is year-by-year netting, as computeYear's is. */
  ghost predicate NetsCapital(setup: Setup) {
    forall p, c :: setup.engine(p, c).carryOut.capitalLossCarryforward
      == ToDollars(Capital.YearNetting(Capital.Gains(p.shortTermCapGain, p.longTermCapGain), c.capitalLossCarryforward).carryforwardOut)
  }

  lemma {:induction false} CapitalCarryThreads(setup: Setup, ts: seq<Transform>, years: nat)
    requires NetsCapital(setup)
    ensures Project(setup, ts, years).engineCarry.capitalLossCarryforward == Capital.CarryAfter(GainsOf(Project(setup, ts, years).profiles), 0)
  {
    if years > 0 {
      CapitalCarryThreads(setup, ts, years - 1);
      var prev, now := Project(setup, ts, years - 1), Project(setup, ts, years);
      var g := GainsOf(now.profiles)[years - 1];
      assert GainsOf(now.profiles) == GainsOf(prev.profiles) + [g];
      Capital.CarryAfterLast(GainsOf(prev.profiles), g, 0);
    }
  }

  /** Over a whole scenario with whole-dollar gains: what was recognised, less the final carryforward, is all the gains there were. */
  lemma {:induction false} CapitalTelescopesOverScenario(plan: Plan, transforms: seq<Transform>, years: nat)
    requires
      forall i :: 0 <= i < years ==>
        var p := Scenario(plan, transforms, years).profiles[i];
        Capital.WholeDollars(p.shortTermCapGain) && Capital.WholeDollars(p.longTermCapGain)
    ensures
      var run := Scenario(plan, transforms, years);
      Capital.Recognised(GainsOf(run.profiles), 0) - 100 * run.engineCarry.capitalLossCarryforward
        == Capital.TotalGains(GainsOf(run.profiles))
  {
    CapitalCarryThreads(SetupOf(plan), Sort(transforms, Before), years);
    Capital.CapitalTelescopes(GainsOf(Scenario(plan, transforms, years).profiles), 0);
  }

  /** The suspended passive losses carried between years are never negative, so YearPassiveDrift applies to every year. */
  lemma {:induction false} PassiveCarryNonNegative(plan: Plan, ts: seq<Transform>, years: nat)
    ensures Passive.NonNegative(Project(SetupOf(plan), ts, years).engineCarry.passiveByActivity)
  {
    if years > 0 {
      var prev, now := Project(SetupOf(plan), ts, years - 1), Project(SetupOf(plan), ts, years);
      CarryStaysNonNegative(ComputeYear.SuspendedOut(now.profiles[years - 1], plan.tableSet, prev.engineCarry));
    }
  }

  /** One year of the passive books: rental income included, net rental income, and how far the two may drift apart. */
  datatype Books = Books(included: int, net: int, slack: nat)

  /** The books of a projection, under any view of a single year's books. */
  ghost function BooksOf(setup: Setup, ts: seq<Transform>, years: nat, view: (Profile, Carry) -> Books): Books {
    if years == 0 then Books(0, 0, 0)
    else
      var prev := BooksOf(setup, ts, years - 1, view);
      var now := view(Project(setup, ts, years).profiles[years - 1], Project(setup, ts, years - 1).engineCarry);
      Books(prev.included + now.included, prev.net + now.net, prev.slack + now.slack)
  }

  /** `included` less the suspension carried out is `net` less the suspension carried in, up to half the slack in cents. */
  ghost predicate Balances(b: Books, carriedIn: Carry, carriedOut: Carry) {
    2 * Abs((b.included - 100 * Totals.SumOf(carriedOut.passiveByActivity)) - (b.net - 100 * Totals.SumOf(carriedIn.passiveByActivity)))
      <= b.slack
  }

  /** An engine that keeps the books of every single year, as computeYear does. */
  ghost predicate KeepsBooks(setup: Setup, view: (Profile, Carry) -> Books) {
    forall p: Profile, c: Carry :: Passive.NonNegative(c.passiveByActivity) ==>
      && Passive.NonNegative(setup.engine(p, c).carryOut.passiveByActivity)
      && Balances(view(p, c), c, setup.engine(p, c).carryOut)
  }

  lemma {:induction false} BooksThread(setup: Setup, ts: seq<Transform>, years: nat, view: (Profile, Carry) -> Books)
    requires KeepsBooks(setup, view)
    ensures Passive.NonNegative(Project(setup, ts, years).engineCarry.passiveByActivity)
    ensures Balances(BooksOf(setup, ts, years, view), EMPTY_CARRY, Project(setup, ts, years).engineCarry)
  {
    if years > 0 {
      BooksThread(setup, ts, years - 1, view);
      var prev, p := Project(setup, ts, years - 1), Project(setup, ts, years).profiles[years - 1];
      assert Balances(view(p, prev.engineCarry), prev.engineCarry, setup.engine(p, prev.engineCarry).carryOut);
    }
  }

  /** The books of one computed year. */
  ghost function YearBooks(t: TableSet): (Profile, Carry) -> Books {
    (p: Profile, c: Carry) => Books(IncludedRental(p, t, c), Passive.NetIncome(p.rentals), YearSlack(p, t, c))
  }

  /**
   Over a whole scenario: included rental income less the suspension still carried is all net rental income there was,
   up to the rounding of every year's whole-dollar carry.
   */
  lemma {:induction false} PassiveBooksOverScenario(plan: Plan, transforms: seq<Transform>, years: nat)
    ensures Balances(BooksOf(SetupOf(plan), Sort(transforms, Before), years, YearBooks(plan.tableSet)), EMPTY_CARRY,
                     Scenario(plan, transforms, years).engineCarry)
  {
    EngineKeepsBooks(plan);
    BooksThread(SetupOf(plan), Sort(transforms, Before), years, YearBooks(plan.tableSet));
  }

  lemma {:induction false} EngineKeepsBooks(plan: Plan)
    ensures KeepsBooks(SetupOf(plan), YearBooks(plan.tableSet))
  {
    forall p: Profile, c: Carry | Passive.NonNegative(c.passiveByActivity)
      ensures Passive.NonNegative(CarryOut(p, plan.tableSet, c).passiveByActivity)
      ensures Balances(YearBooks(plan.tableSet)(p, c), c, CarryOut(p, plan.tableSet, c))
    {
      YearPassiveDrift(p, plan.tableSet, c);
      CarryStaysNonNegative(ComputeYear.SuspendedOut(p, plan.tableSet, c));
    }
  }

  // ----- the strategy carry over the years -----

  /** No other transform shares the `k`-th one's strategy id, and with it its carry record. */
  ghost predicate SoleOwner(ts: seq<Transform>, k: nat)
    requires k < |ts|
  {
    forall j :: 0 <= j < |ts| && j != k ==> ts[j].strategyId != ts[k].strategyId
  }

  lemma {:induction false} OthersLeaveCarryAlone(ts: seq<Transform>, st: Thread, setup: Setup, yearIndex: nat, id: string)
    requires forall i :: 0 <= i < |ts| ==> ts[i].strategyId != id
    ensures Own(ApplyAll(ts, st, setup, yearIndex).carry, id) == Own(st.carry, id)
  {
    if ts != [] {
      OthersLeaveCarryAlone(ts[1..], ApplyOne(ts[0], st, setup, yearIndex), setup, yearIndex, id);
    }
  }

  lemma {:induction false} ApplyAllSplit(ts: seq<Transform>, k: nat, st: Thread, setup: Setup, yearIndex: nat)
    requires k <= |ts|
    ensures ApplyAll(ts, st, setup, yearIndex) == ApplyAll(ts[k..], ApplyAll(ts[..k], st, setup, yearIndex), setup, yearIndex)
  {
    if k > 0 {
      assert ts[..k][0] == ts[0] && ts[..k][1..] == ts[1..][..k - 1] && ts[1..][k - 1..] == ts[k..];
      ApplyAllSplit(ts[1..], k - 1, ApplyOne(ts[0], st, setup, yearIndex), setup, yearIndex);
    } else {
      assert ts[0..] == ts;
    }
  }

  /** The profile the `k`-th transform receives this year. */
  ghost function Received(ts: seq<Transform>, k: nat, st: Thread, setup: Setup, yearIndex: nat): Profile
    requires k < |ts|
  {
    ApplyAll(ts[..k], st, setup, yearIndex).profile
  }

  /** Within a year a strategy with an id of its own sees its carry from earlier years and adds its own patch. */
  lemma {:induction false} OwnCarryWithinYear(ts: seq<Transform>, k: nat, st: Thread, setup: Setup, yearIndex: nat)
    requires k < |ts| && SoleOwner(ts, k)
    ensures
      var t := ts[k];
      var own := Own(st.carry, t.strategyId);
      var ctx := Context(Received(ts, k, st, setup, yearIndex), t.params, setup.tableSet, setup.startYear + yearIndex, yearIndex, own);
      Own(ApplyAll(ts, st, setup, yearIndex).carry, t.strategyId) == own + t.apply(ctx).carryPatch
  {
    var t := ts[k];
    var mid := ApplyAll(ts[..k], st, setup, yearIndex);
    ApplyAllSplit(ts, k, st, setup, yearIndex);
    OthersLeaveCarryAlone(ts[..k], st, setup, yearIndex, t.strategyId);
    OthersLeaveCarryAlone(ts[k + 1..], ApplyOne(t, mid, setup, yearIndex), setup, yearIndex, t.strategyId);
  }

  // ----- one strategy by itself -----

  /** The context of `t` in year `yearIndex` given the profile it receives and its own carry. */
  function SoloContext(t: Transform, setup: Setup, received: Profile, yearIndex: nat, carry: map<string, real>): Context {
    Context(received, t.params, setup.tableSet, setup.startYear + yearIndex, yearIndex, carry)
  }

  /** The carry of `t` after it received these profiles, one a year, whatever produced them. */
  ghost function SoloCarry(t: Transform, setup: Setup, received: seq<Profile>): map<string, real> {
    if received == [] then map[]
    else
      var n := |received| - 1;
      var prev := SoloCarry(t, setup, received[..n]);
      prev + t.apply(SoloContext(t, setup, received[n], n, prev)).carryPatch
  }

  /** The profile the `k`-th strategy receives in year `y` of a projection. */
  ghost function ReceivedInYear(setup: Setup, ts: seq<Transform>, k: nat, y: nat): Profile
    requires k < |ts|
  {
    Received(ts, k, YearStart(setup, ts, y), setup, y)
  }

  /** What runs into the first transform in year `y`. */
  ghost function YearStart(setup: Setup, ts: seq<Transform>, y: nat): Thread {
    var before := Project(setup, ts, y);
    Thread(setup.yearProfile(y), before.notes, before.carry)
  }

  /** How much the `k`-th transform changed one line in year `y` of a projection, as the other transforms left it. */
  ghost function ChangeInYear(setup: Setup, ts: seq<Transform>, k: nat, y: nat, line: Profile -> real): real
    requires k < |ts|
  {
    var st := ApplyAll(ts[..k], YearStart(setup, ts, y), setup, y);
    line(ApplyOne(ts[k], st, setup, y).profile) - line(st.profile)
  }

  ghost function ScenarioChange(setup: Setup, ts: seq<Transform>, k: nat, years: nat, line: Profile -> real): real
    requires k < |ts|
  {
    if years == 0 then 0.0
    else ScenarioChange(setup, ts, k, years - 1, line) + ChangeInYear(setup, ts, k, years - 1, line)
  }

  ghost function ReceivedProfiles(setup: Setup, ts: seq<Transform>, k: nat, years: nat): seq<Profile>
    requires k < |ts|
  {
    seq(years, y requires 0 <= y < years => ReceivedInYear(setup, ts, k, y))
  }

  lemma {:induction false} SoloCarryLast(t: Transform, setup: Setup, received: seq<Profile>, last: Profile)
    ensures
      var carry := SoloCarry(t, setup, received);
      SoloCarry(t, setup, received + [last]) == carry + t.apply(SoloContext(t, setup, last, |received|, carry)).carryPatch
  {
    assert (received + [last])[..|received|] == received;
  }

  lemma {:induction false} SoloStep(setup: Setup, ts: seq<Transform>, k: nat, before: Projection, earlier: seq<Profile>)
    requires k < |ts| && SoleOwner(ts, k)
    requires Own(before.carry, ts[k].strategyId) == SoloCarry(ts[k], setup, earlier)
    ensures
      var n := |earlier|;
      var received := Received(ts, k, Thread(setup.yearProfile(n), before.notes, before.carry), setup, n);
      Own(AddYear(setup, ts, before, n).carry, ts[k].strategyId) == SoloCarry(ts[k], setup, earlier + [received])
  {
    var n := |earlier|;
    var st := Thread(setup.yearProfile(n), before.notes, before.carry);
    var received, own := Received(ts, k, st, setup, n), SoloCarry(ts[k], setup, earlier);
    assert AddYear(setup, ts, before, n).carry == ApplyAll(ts, st, setup, n).carry;
    assert Own(ApplyAll(ts, st, setup, n).carry, ts[k].strategyId)
        == own + ts[k].apply(SoloContext(ts[k], setup, received, n, own)).carryPatch by {
      OwnCarryWithinYear(ts, k, st, setup, n);
    }
    SoloCarryLast(ts[k], setup, earlier, received);
  }

  lemma {:induction false} ReceivedOneYearOn(setup: Setup, ts: seq<Transform>, k: nat, years: nat)
    requires k < |ts|
    ensures ReceivedProfiles(setup, ts, k, years + 1) == ReceivedProfiles(setup, ts, k, years) + [ReceivedInYear(setup, ts, k, years)]
  {}

  lemma {:induction false} ProjectOneYearOn(setup: Setup, ts: seq<Transform>, years: nat)
    ensures Project(setup, ts, years + 1) == AddYear(setup, ts, Project(setup, ts, years), years)
  {}

  ghost predicate CarriesSolo(setup: Setup, ts: seq<Transform>, k: nat, years: nat)
    requires k < |ts|
  {
    Own(Project(setup, ts, years).carry, ts[k].strategyId) == SoloCarry(ts[k], setup, ReceivedProfiles(setup, ts, k, years))
  }

  lemma {:induction false} SoloYear(setup: Setup, ts: seq<Transform>, k: nat, years: nat)
    requires k < |ts| && SoleOwner(ts, k) && CarriesSolo(setup, ts, k, years)
    ensures CarriesSolo(setup, ts, k, years + 1)
  {
    ReceivedOneYearOn(setup, ts, k, years);
    ProjectOneYearOn(setup, ts, years);
    SoloStep(setup, ts, k, Project(setup, ts, years), ReceivedProfiles(setup, ts, k, years));
  }

  /** A strategy with an id of its own: its carry is the one it builds, by itself, from the profiles it receives. */
  lemma {:induction false} ScenarioThreadsSolo(setup: Setup, ts: seq<Transform>, k: nat, years: nat)
    requires k < |ts| && SoleOwner(ts, k)
    ensures CarriesSolo(setup, ts, k, years)
  {
    if years > 0 {
      ScenarioThreadsSolo(setup, ts, k, years - 1);
      SoloYear(setup, ts, k, years - 1);
    }
  }
}
