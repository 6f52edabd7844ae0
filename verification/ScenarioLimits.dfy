/**
 Where the laws of scenario composition end. The scenario route accepts the same strategy twice in one scenario; both
 selections then share one carry record and one place in the order. Each law is shown to hold over all transforms and
 runs exactly when the ids, or the order keys, do not repeat.
 */
module ScenarioLimits {
  import opened Money
  import opened ComputeYear
  import opened Sorting
  import opened Scenario
  import opened Strategies

  // ----- id lists -----

  predicate HasIds(ts: seq<Transform>, ids: seq<string>) {
    |ts| == |ids| && forall i :: 0 <= i < |ts| ==> ts[i].strategyId == ids[i]
  }

  predicate OccursOnce(ids: seq<string>, k: nat)
    requires k < |ids|
  {
    forall j :: 0 <= j < |ids| && j != k ==> ids[j] != ids[k]
  }

  /** Over all transforms with these ids and all lengths, the `k`-th one's carry is the one it builds by itself. */
  ghost predicate CarryIsSolo(setup: Setup, ids: seq<string>, k: nat)
    requires k < |ids|
  {
    forall ts: seq<Transform>, years: nat | HasIds(ts, ids) ::
      Own(Project(setup, ts, years).carry, ids[k]) == SoloCarry(ts[k], setup, ReceivedProfiles(setup, ts, k, years))
  }

  /** Over all other transforms, parameters and lengths, an installment sale in place `k` conserves its gain. */
  ghost predicate InstallmentAlwaysBalances(setup: Setup, ids: seq<string>, k: nat)
    requires k < |ids|
  {
    forall ts: seq<Transform>, order: int, params: map<string, real>, years: nat
      | HasIds(ts, ids) && ts[k] == Installment(order, params) :: InstallmentBalances(setup, ts, k, years)
  }

  ghost predicate BracketAlwaysBalances(setup: Setup, ids: seq<string>, k: nat)
    requires k < |ids|
  {
    forall ts: seq<Transform>, order: int, params: map<string, real>, years: nat
      | HasIds(ts, ids) && ts[k] == Bracket(order, params) :: BracketBalances(setup, ts, k, years)
  }

  ghost predicate NolAlwaysBalances(setup: Setup, ids: seq<string>, k: nat)
    requires k < |ids|
  {
    forall ts: seq<Transform>, order: int, params: map<string, real>, years: nat
      | HasIds(ts, ids) && ts[k] == Nol(order, params) && years > 0 :: NolBalances(setup, ts, k, params, years)
  }

  // ----- two transforms with one id -----

  /** What concerns one strategy id: the profile and the carry record of that id. */
  datatype Seat = Seat(profile: Profile, own: map<string, real>)

  function ViewOf(st: Thread, id: string): Seat {
    Seat(st.profile, Own(st.carry, id))
  }

  function Act(t: Transform, v: Seat, setup: Setup, y: nat): Seat {
    var out := t.apply(Context(v.profile, t.params, setup.tableSet, setup.startYear + y, y, v.own));
    Seat(out.profile, v.own + out.carryPatch)
  }

  function StaySame(ctx: Context): Outcome {
    Outcome(ctx.profile, [], map[])
  }

  const PLANTED: map<string, real> := map["remaining" := 1.0, "deferredIn" := 1.0]

  /** A transform that does nothing but write to its carry record. */
  function Plant(ctx: Context): Outcome {
    Outcome(ctx.profile, [], PLANTED)
  }

  function Idle(id: string): Transform {
    Transform(id, 0, map[], StaySame)
  }

  function Planter(id: string): Transform {
    Transform(id, 0, map[], Plant)
  }

  lemma {:induction false} ActIs(t: Transform, st: Thread, setup: Setup, y: nat)
    ensures ViewOf(ApplyOne(t, st, setup, y), t.strategyId) == Act(t, ViewOf(st, t.strategyId), setup, y)
  {}

  lemma {:induction false} IdleKeepsView(ts: seq<Transform>, st: Thread, setup: Setup, y: nat, id: string)
    requires forall i :: 0 <= i < |ts| ==> ts[i] == Idle(ts[i].strategyId)
    ensures ViewOf(ApplyAll(ts, st, setup, y), id) == ViewOf(st, id)
  {
    if ts != [] {
      var next := ApplyOne(ts[0], st, setup, y);
      assert Own(st.carry, ts[0].strategyId) + map[] == Own(st.carry, ts[0].strategyId);
      assert ViewOf(next, id) == ViewOf(st, id);
      IdleKeepsView(ts[1..], next, setup, y, id);
    }
  }

  /** Everything is idle but places `a` and `b`, which share an id. */
  ghost predicate TwoActive(ts: seq<Transform>, a: nat, b: nat, id: string) {
    && a < b < |ts| && ts[a].strategyId == id && ts[b].strategyId == id
    && forall i :: 0 <= i < |ts| && i != a && i != b ==> ts[i] == Idle(ts[i].strategyId)
  }

  lemma {:induction false} ViewBeforeFirst(ts: seq<Transform>, a: nat, b: nat, id: string, st: Thread, setup: Setup, y: nat)
    requires TwoActive(ts, a, b, id)
    ensures ViewOf(ApplyAll(ts[..a], st, setup, y), id) == ViewOf(st, id)
  {
    IdleKeepsView(ts[..a], st, setup, y, id);
  }

  lemma {:induction false} ViewAfterFirst(ts: seq<Transform>, a: nat, b: nat, n: nat, id: string, st: Thread, setup: Setup, y: nat)
    requires TwoActive(ts, a, b, id) && a < n <= b
    ensures ViewOf(ApplyAll(ts[..n], st, setup, y), id) == Act(ts[a], ViewOf(st, id), setup, y)
  {
    var head := ts[..n];
    var mid := ApplyAll(ts[..a], st, setup, y);
    assert head[..a] == ts[..a] && head[a..][1..] == head[a + 1..] && head[a..][0] == ts[a];
    ApplyAllSplit(head, a, st, setup, y);
    ViewBeforeFirst(ts, a, b, id, st, setup, y);
    ActIs(ts[a], mid, setup, y);
    IdleKeepsView(head[a + 1..], ApplyOne(ts[a], mid, setup, y), setup, y, id);
  }

  lemma {:induction false} ViewAfterBoth(ts: seq<Transform>, a: nat, b: nat, id: string, st: Thread, setup: Setup, y: nat)
    requires TwoActive(ts, a, b, id)
    ensures ViewOf(ApplyAll(ts, st, setup, y), id) == Act(ts[b], Act(ts[a], ViewOf(st, id), setup, y), setup, y)
  {
    var mid := ApplyAll(ts[..b], st, setup, y);
    assert ts[b..][1..] == ts[b + 1..] && ts[b..][0] == ts[b];
    ApplyAllSplit(ts, b, st, setup, y);
    ViewAfterFirst(ts, a, b, b, id, st, setup, y);
    ActIs(ts[b], mid, setup, y);
    IdleKeepsView(ts[b + 1..], ApplyOne(ts[b], mid, setup, y), setup, y, id);
  }

  /** The year seen from the shared id: `first` and then `second` act on the carry left by the year before. */
  ghost function AfterYears(setup: Setup, first: Transform, second: Transform, years: nat): map<string, real> {
    if years == 0 then map[]
    else
      var start := Seat(setup.yearProfile(years - 1), AfterYears(setup, first, second, years - 1));
      Act(second, Act(first, start, setup, years - 1), setup, years - 1).own
  }

  lemma {:induction false} CarryAfterYears(setup: Setup, ts: seq<Transform>, a: nat, b: nat, id: string, years: nat)
    requires TwoActive(ts, a, b, id)
    ensures Own(Project(setup, ts, years).carry, id) == AfterYears(setup, ts[a], ts[b], years)
  {
    if years > 0 {
      CarryAfterYears(setup, ts, a, b, id, years - 1);
      ViewAfterBoth(ts, a, b, id, YearStart(setup, ts, years - 1), setup, years - 1);
      assert Project(setup, ts, years) == AddYear(setup, ts, Project(setup, ts, years - 1), years - 1);
    }
  }

  /** What the first, resp. the second, of the two changes in year `y`. */
  lemma {:induction false} ChangeOfFirst(setup: Setup, ts: seq<Transform>, a: nat, b: nat, id: string, y: nat, line: Profile -> real)
    requires TwoActive(ts, a, b, id)
    ensures
      var start := Seat(setup.yearProfile(y), AfterYears(setup, ts[a], ts[b], y));
      ChangeInYear(setup, ts, a, y, line) == line(Act(ts[a], start, setup, y).profile) - line(start.profile)
  {
    CarryAfterYears(setup, ts, a, b, id, y);
    ViewBeforeFirst(ts, a, b, id, YearStart(setup, ts, y), setup, y);
    ActIs(ts[a], ApplyAll(ts[..a], YearStart(setup, ts, y), setup, y), setup, y);
  }

  lemma {:induction false} ChangeOfSecond(setup: Setup, ts: seq<Transform>, a: nat, b: nat, id: string, y: nat, line: Profile -> real)
    requires TwoActive(ts, a, b, id)
    ensures
      var start := Seat(setup.yearProfile(y), AfterYears(setup, ts[a], ts[b], y));
      var mid := Act(ts[a], start, setup, y);
      ChangeInYear(setup, ts, b, y, line) == line(Act(ts[b], mid, setup, y).profile) - line(mid.profile)
  {
    CarryAfterYears(setup, ts, a, b, id, y);
    ViewAfterFirst(ts, a, b, b, id, YearStart(setup, ts, y), setup, y);
    ActIs(ts[b], ApplyAll(ts[..b], YearStart(setup, ts, y), setup, y), setup, y);
  }

  // ----- a planted carry breaks every law -----

  /** `t` in place `k`, a planter in place `j`, idle transforms elsewhere. */
  function Planted(ids: seq<string>, j: nat, k: nat, t: Transform): (ts: seq<Transform>)
    ensures |ts| == |ids|
    ensures forall i :: 0 <= i < |ids| ==> ts[i] == if i == k then t else if i == j then Planter(ids[i]) else Idle(ids[i])
  {
    seq(|ids|, i requires 0 <= i < |ids| => if i == k then t else if i == j then Planter(ids[i]) else Idle(ids[i]))
  }

  lemma {:induction false} PlantedIsActive(ids: seq<string>, j: nat, k: nat, t: Transform)
    requires j < |ids| && k < |ids| && j != k && ids[j] == ids[k] == t.strategyId
    ensures HasIds(Planted(ids, j, k, t), ids)
    ensures TwoActive(Planted(ids, j, k, t), Min(j, k), Max(j, k), ids[k])
  {}

  /** With the planter `first` or not, one year of `t` alone with the planter. */
  lemma {:induction false} OnePlantedYear(setup: Setup, ids: seq<string>, j: nat, k: nat, t: Transform, line: Profile -> real)
    requires j < |ids| && k < |ids| && j != k && ids[j] == ids[k] == t.strategyId
    ensures
      var ts, start := Planted(ids, j, k, t), Seat(setup.yearProfile(0), map[]);
      var seen := if j < k then Act(Planter(ids[k]), start, setup, 0) else start;
      var done := Act(t, seen, setup, 0);
      && ScenarioChange(setup, ts, k, 1, line) == line(done.profile) - line(start.profile)
      && Own(Project(setup, ts, 1).carry, ids[k]) == if j < k then done.own else Act(Planter(ids[k]), done, setup, 0).own
  {
    var ts := Planted(ids, j, k, t);
    PlantedIsActive(ids, j, k, t);
    CarryAfterYears(setup, ts, Min(j, k), Max(j, k), ids[k], 1);
    assert AfterYears(setup, ts[Min(j, k)], ts[Max(j, k)], 0) == map[];
    if j < k {
      ChangeOfSecond(setup, ts, j, k, ids[k], 0, line);
    } else {
      ChangeOfFirst(setup, ts, k, j, ids[k], 0, line);
    }
    assert ScenarioChange(setup, ts, k, 0, line) == 0.0;
  }

  lemma {:induction false} SharedIdBreaksSoloCarry(setup: Setup, ids: seq<string>, j: nat, k: nat)
    requires j < |ids| && k < |ids| && j != k && ids[j] == ids[k]
    ensures !CarryIsSolo(setup, ids, k)
  {
    var t := Idle(ids[k]);
    var ts := Planted(ids, j, k, t);
    PlantedIsActive(ids, j, k, t);
    OnePlantedYear(setup, ids, j, k, t, LongTermGain);
    var received := ReceivedProfiles(setup, ts, k, 1);
    assert received[..0] == [];
    assert SoloCarry(t, setup, received) == map[];
    assert "remaining" in Own(Project(setup, ts, 1).carry, ids[k]);
  }

  /** The `k`-th carry is its solo carry, over all transforms and lengths, exactly when its id occurs once. */
  lemma {:induction false} CarryIsSoloExactly(setup: Setup, ids: seq<string>, k: nat)
    requires k < |ids|
    ensures CarryIsSolo(setup, ids, k) <==> OccursOnce(ids, k)
  {
    if OccursOnce(ids, k) {
      forall ts: seq<Transform>, years: nat | HasIds(ts, ids)
        ensures Own(Project(setup, ts, years).carry, ids[k]) == SoloCarry(ts[k], setup, ReceivedProfiles(setup, ts, k, years))
      {
        ScenarioThreadsSolo(setup, ts, k, years);
      }
    } else {
      var j :| 0 <= j < |ids| && j != k && ids[j] == ids[k];
      SharedIdBreaksSoloCarry(setup, ids, j, k);
    }
  }

  lemma {:induction false} SharedIdBreaksInstallment(setup: Setup, ids: seq<string>, j: nat, k: nat)
    requires j < |ids| && k < |ids| && j != k && ids[j] == ids[k] == Installment(0, map[]).strategyId
    ensures !InstallmentAlwaysBalances(setup, ids, k)
  {
    var t := Installment(0, map[]);
    PlantedIsActive(ids, j, k, t);
    OnePlantedYear(setup, ids, j, k, t, LongTermGain);
    assert !InstallmentBalances(setup, Planted(ids, j, k, t), k, 1);
  }

  /** An installment sale conserves its gain, whatever else is in the scenario, exactly when its id occurs once. */
  lemma {:induction false} InstallmentBalancesExactly(setup: Setup, ids: seq<string>, k: nat)
    requires k < |ids| && ids[k] == Installment(0, map[]).strategyId
    ensures InstallmentAlwaysBalances(setup, ids, k) <==> OccursOnce(ids, k)
  {
    if OccursOnce(ids, k) {
      forall ts: seq<Transform>, order: int, params: map<string, real>, years: nat | HasIds(ts, ids) && ts[k] == Installment(order, params)
        ensures InstallmentBalances(setup, ts, k, years)
      {
        InstallmentConservedInScenario(setup, ts, k, order, params, years);
      }
    } else {
      var j :| 0 <= j < |ids| && j != k && ids[j] == ids[k];
      SharedIdBreaksInstallment(setup, ids, j, k);
    }
  }

  lemma {:induction false} SharedIdBreaksBracket(setup: Setup, ids: seq<string>, j: nat, k: nat)
    requires j < |ids| && k < |ids| && j != k && ids[j] == ids[k] == Bracket(0, map[]).strategyId
    ensures !BracketAlwaysBalances(setup, ids, k)
  {
    var t := Bracket(0, map[]);
    PlantedIsActive(ids, j, k, t);
    OnePlantedYear(setup, ids, j, k, t, OtherIncome);
    assert !BracketBalances(setup, Planted(ids, j, k, t), k, 1);
  }

  lemma {:induction false} BracketBalancesExactly(setup: Setup, ids: seq<string>, k: nat)
    requires k < |ids| && ids[k] == Bracket(0, map[]).strategyId
    ensures BracketAlwaysBalances(setup, ids, k) <==> OccursOnce(ids, k)
  {
    if OccursOnce(ids, k) {
      forall ts: seq<Transform>, order: int, params: map<string, real>, years: nat | HasIds(ts, ids) && ts[k] == Bracket(order, params)
        ensures BracketBalances(setup, ts, k, years)
      {
        BracketConservedInScenario(setup, ts, k, order, params, years);
      }
    } else {
      var j :| 0 <= j < |ids| && j != k && ids[j] == ids[k];
      SharedIdBreaksBracket(setup, ids, j, k);
    }
  }

  const NO_PARAMS: map<string, real> := map[]

  /** One year of NOL planning with no parameters, from the carried balance it sees. */
  lemma {:induction false} NolSeat(v: Seat, setup: Setup, y: nat)
    ensures
      var opening := if y == 0 then 0.0 else Outstanding(v.own);
      var done := Act(Nol(0, NO_PARAMS), v, setup, y);
      && Outstanding(done.own) + (done.profile.adjustments - v.profile.adjustments) == opening
      && done.profile.adjustments >= v.profile.adjustments
  {}

  lemma {:induction false} PlanterSeat(id: string, v: Seat, setup: Setup, y: nat)
    ensures Act(Planter(id), v, setup, y).profile == v.profile && Outstanding(Act(Planter(id), v, setup, y).own) == 1.0
  {}

  /** In every year the NOL strategy changes a line by no less than nothing. */
  lemma {:induction false} NolNeverAdds(setup: Setup, ts: seq<Transform>, k: nat, y: nat)
    requires k < |ts| && ts[k] == Nol(0, NO_PARAMS)
    ensures ChangeInYear(setup, ts, k, y, Adjustments) >= 0.0
  {
    var st := ApplyAll(ts[..k], YearStart(setup, ts, y), setup, y);
    ActIs(ts[k], st, setup, y);
    NolSeat(ViewOf(st, ts[k].strategyId), setup, y);
  }

  /** A planter before it grants the NOL strategy a balance it never opened with. */
  lemma {:induction false} PlantedBeforeNol(setup: Setup, ts: seq<Transform>, a: nat, b: nat, id: string)
    requires TwoActive(ts, a, b, id) && ts[a] == Planter(id) && ts[b] == Nol(0, NO_PARAMS)
    ensures ChangeInYear(setup, ts, b, 1, Adjustments) + Outstanding(Own(Project(setup, ts, 2).carry, id)) == 1.0
  {
    var start := Seat(setup.yearProfile(1), AfterYears(setup, ts[a], ts[b], 1));
    CarryAfterYears(setup, ts, a, b, id, 2);
    ChangeOfSecond(setup, ts, a, b, id, 1, Adjustments);
    PlanterSeat(id, start, setup, 1);
    NolSeat(Act(Planter(id), start, setup, 1), setup, 1);
  }

  /** A planter after it leaves a balance behind. */
  lemma {:induction false} PlantedAfterNol(setup: Setup, ts: seq<Transform>, a: nat, b: nat, id: string)
    requires TwoActive(ts, a, b, id) && ts[b] == Planter(id)
    ensures Outstanding(Own(Project(setup, ts, 2).carry, id)) == 1.0
  {
    var start := Seat(setup.yearProfile(1), AfterYears(setup, ts[a], ts[b], 1));
    CarryAfterYears(setup, ts, a, b, id, 2);
    PlanterSeat(id, Act(ts[a], start, setup, 1), setup, 1);
  }

  lemma {:induction false} TwoYears(setup: Setup, ts: seq<Transform>, k: nat, line: Profile -> real)
    requires k < |ts|
    ensures ScenarioChange(setup, ts, k, 2, line) == ChangeInYear(setup, ts, k, 0, line) + ChangeInYear(setup, ts, k, 1, line)
  {
    assert ScenarioChange(setup, ts, k, 0, line) == 0.0;
    assert ScenarioChange(setup, ts, k, 1, line) == ChangeInYear(setup, ts, k, 0, line);
  }

  lemma {:induction false} SharedIdBreaksNol(setup: Setup, ids: seq<string>, j: nat, k: nat)
    requires j < |ids| && k < |ids| && j != k && ids[j] == ids[k] == Nol(0, NO_PARAMS).strategyId
    ensures !NolAlwaysBalances(setup, ids, k)
  {
    var t := Nol(0, NO_PARAMS);
    var ts := Planted(ids, j, k, t);
    PlantedIsActive(ids, j, k, t);
    if j < k {
      PlantedBeforeNol(setup, ts, j, k, ids[k]);
    } else {
      PlantedAfterNol(setup, ts, k, j, ids[k]);
    }
    NolNeverAdds(setup, ts, k, 0);
    NolNeverAdds(setup, ts, k, 1);
    TwoYears(setup, ts, k, Adjustments);
    assert !NolBalances(setup, ts, k, NO_PARAMS, 2);
  }

  lemma {:induction false} NolBalancesExactly(setup: Setup, ids: seq<string>, k: nat)
    requires k < |ids| && ids[k] == Nol(0, NO_PARAMS).strategyId
    ensures NolAlwaysBalances(setup, ids, k) <==> OccursOnce(ids, k)
  {
    if OccursOnce(ids, k) {
      forall ts: seq<Transform>, order: int, params: map<string, real>, years: nat
        | HasIds(ts, ids) && ts[k] == Nol(order, params) && years > 0
        ensures NolBalances(setup, ts, k, params, years)
      {
        NolConservedInScenario(setup, ts, k, order, params, years);
      }
    } else {
      var j :| 0 <= j < |ids| && j != k && ids[j] == ids[k];
      SharedIdBreaksNol(setup, ids, j, k);
    }
  }

  // ----- the same strategy twice, from the route to the result -----

  function InstallmentParams(gain: real, years: real): map<string, real> {
    map[GAIN_PARAM := gain, YEARS_PARAM := years]
  }

  /** A first year of an installment sale over two years, with enough gain on hand. */
  lemma {:induction false} FirstYearSeat(order: int, gain: real, half: int, v: Seat, setup: Setup)
    requires half > 0 && gain == 2.0 * half as real && v.profile.longTermCapGain >= half as real
    ensures
      var done := Act(Installment(order, InstallmentParams(gain, 2.0)), v, setup, 0);
      && done.profile == v.profile.(longTermCapGain := v.profile.longTermCapGain - half as real)
      && Num(done.own, "remaining", 0.0) == Num(done.own, "tranche", 0.0) == half as real
  {
    SaleTerms(gain, half);
    DeferHalf(Context(v.profile, InstallmentParams(gain, 2.0), setup.tableSet, setup.startYear + 0, 0, v.own), half as real);
  }

  lemma {:induction false} SaleTerms(gain: real, half: int)
    requires half > 0 && gain == 2.0 * half as real
    ensures
      var params := InstallmentParams(gain, 2.0);
      TotalGain(params) == gain && Term(params) == 2 && Tranche(params) == half as real
  {
    SaleParams(gain);
    HalfTranche(InstallmentParams(gain, 2.0), half);
  }

  lemma {:induction false} SaleParams(gain: real)
    requires gain > 0.0
    ensures TotalGain(InstallmentParams(gain, 2.0)) == gain && Term(InstallmentParams(gain, 2.0)) == 2
  {}

  lemma {:induction false} HalfTranche(params: map<string, real>, half: int)
    requires TotalGain(params) == 2.0 * half as real && Term(params) == 2
    ensures Tranche(params) == half as real
  {
    HalfIs(TotalGain(params), half);
  }

  lemma {:induction false} HalfIs(gain: real, half: int)
    requires gain == 2.0 * half as real
    ensures Round(gain / 2 as real) == half
  {}

  lemma {:induction false} DeferHalf(ctx: Context, half: real)
    requires half > 0.0 && ctx.yearIndex == 0 && ctx.profile.longTermCapGain >= half
    requires TotalGain(ctx.params) == 2.0 * half && Tranche(ctx.params) == half
    ensures InstallmentSpread(ctx)
      == Outcome(ctx.profile.(longTermCapGain := ctx.profile.longTermCapGain - half), [], map["remaining" := half, "tranche" := half])
  {}

  /** A later year: whoever comes first recognises the whole carried tranche, and leaves nothing. */
  lemma {:induction false} LaterYearSeat(order: int, gain: real, v: Seat, setup: Setup, tranche: real)
    requires gain > 0.0 && tranche >= 0.0
    requires Num(v.own, "remaining", 0.0) == tranche && Num(v.own, "tranche", 0.0) >= tranche
    ensures
      var done := Act(Installment(order, InstallmentParams(gain, 2.0)), v, setup, 1);
      && done.profile == v.profile.(longTermCapGain := v.profile.longTermCapGain + tranche)
      && Num(done.own, "remaining", 0.0) == 0.0 && Num(done.own, "tranche", 0.0) >= 0.0
  {
    assert TotalGain(InstallmentParams(gain, 2.0)) == gain;
  }

  /** The profile the engine computes on in year `y`. */
  lemma {:induction false} ProfileOfYear(setup: Setup, ts: seq<Transform>, a: nat, b: nat, id: string, y: nat)
    requires TwoActive(ts, a, b, id)
    ensures
      var start := Seat(setup.yearProfile(y), AfterYears(setup, ts[a], ts[b], y));
      Project(setup, ts, y + 1).profiles[y] == Act(ts[b], Act(ts[a], start, setup, y), setup, y).profile
  {
    CarryAfterYears(setup, ts, a, b, id, y);
    ViewAfterBoth(ts, a, b, id, YearStart(setup, ts, y), setup, y);
    assert Project(setup, ts, y + 1) == AddYear(setup, ts, Project(setup, ts, y), y);
  }

  function Sale(order: int, half: int): Transform {
    Installment(order, InstallmentParams(2.0 * half as real, 2.0))
  }

  /** Both sales defer half their gain in the first year, and the second one's carry overwrites the first one's. */
  lemma {:induction false} FirstYearOfSales(setup: Setup, order: int, first: int, second: int, start: Seat)
    requires first > 0 && second > 0 && start.profile.longTermCapGain >= (first + second) as real
    ensures
      var done := Act(Sale(order, second), Act(Sale(order, first), start, setup, 0), setup, 0);
      && done.profile.longTermCapGain == start.profile.longTermCapGain - (first + second) as real
      && Num(done.own, "remaining", 0.0) == Num(done.own, "tranche", 0.0) == second as real
  {
    FirstYearSeat(order, 2.0 * first as real, first, start, setup);
    FirstYearSeat(order, 2.0 * second as real, second, Act(Sale(order, first), start, setup, 0), setup);
  }

  /** The next year recognises what the carry still holds, and only that. */
  lemma {:induction false} LaterYearOfSales(setup: Setup, order: int, first: int, second: int, start: Seat)
    requires first > 0 && second > 0
    requires Num(start.own, "remaining", 0.0) == Num(start.own, "tranche", 0.0) == second as real
    ensures
      var done := Act(Sale(order, second), Act(Sale(order, first), start, setup, 1), setup, 1);
      && done.profile.longTermCapGain == start.profile.longTermCapGain + second as real
      && Num(done.own, "remaining", 0.0) == 0.0
  {
    LaterYearSeat(order, 2.0 * first as real, start, setup, second as real);
    LaterYearSeat(order, 2.0 * second as real, Act(Sale(order, first), start, setup, 1), setup, 0.0);
  }

  /**
   Two installment sales in one scenario: both halves leave the first year, only the second sale's half comes back, and
   nothing is outstanding any more. The first sale's half is lost; handed over the other way round, the other one is.
   */
  lemma {:induction false} TwoSalesLoseOne(setup: Setup, order: int, first: int, second: int)
    requires first > 0 && second > 0 && setup.yearProfile(0).longTermCapGain >= (first + second) as real
    ensures
      var ts := [Sale(order, first), Sale(order, second)];
      && Project(setup, ts, 1).profiles[0].longTermCapGain == setup.yearProfile(0).longTermCapGain - (first + second) as real
      && Project(setup, ts, 2).profiles[1].longTermCapGain == setup.yearProfile(1).longTermCapGain + second as real
      && Outstanding(Own(Project(setup, ts, 2).carry, ts[0].strategyId)) == 0.0
  {
    var ts := [Sale(order, first), Sale(order, second)];
    var id := ts[0].strategyId;
    assert TwoActive(ts, 0, 1, id);
    var start := Seat(setup.yearProfile(0), map[]);
    assert AfterYears(setup, ts[0], ts[1], 0) == map[];
    FirstYearOfSales(setup, order, first, second, start);
    var next := Seat(setup.yearProfile(1), AfterYears(setup, ts[0], ts[1], 1));
    LaterYearOfSales(setup, order, first, second, next);
    ProfileOfYear(setup, ts, 0, 1, id, 0);
    ProfileOfYear(setup, ts, 0, 1, id, 1);
    CarryAfterYears(setup, ts, 0, 1, id, 2);
  }

  /** The $100 and the $10 sale: handed over in the other order, the second year recognises $50 instead of $5. */
  lemma {:induction false} OrderOfTwoSalesMatters(plan: Plan, order: int)
    requires plan.baseline.longTermCapGain == 1000.0
    ensures
      var big, small := Sale(order, 50), Sale(order, 5);
      && Scenario.Scenario(plan, [big, small], 2).profiles[1].longTermCapGain == YearProfile(plan, 1).longTermCapGain + 5.0
      && Scenario.Scenario(plan, [small, big], 2).profiles[1].longTermCapGain == YearProfile(plan, 1).longTermCapGain + 50.0
  {
    SalesStayInOrder(order, 50, 5);
    SalesStayInOrder(order, 5, 50);
    assert YearProfile(plan, 0).longTermCapGain == 1000.0;
    TwoSalesLoseOne(SetupOf(plan), order, 50, 5);
    TwoSalesLoseOne(SetupOf(plan), order, 5, 50);
  }

  lemma {:induction false} SalesStayInOrder(order: int, first: int, second: int)
    ensures Sort([Sale(order, first), Sale(order, second)], Before) == [Sale(order, first), Sale(order, second)]
  {
    var a, b := Sale(order, first), Sale(order, second);
    StringLessTotal(a.strategyId, b.strategyId);
    assert [a, b][1..] == [b] && [b][1..] == [];
    assert Sort([b], Before) == Insert(b, [], Before) == [b];
  }

  // ----- key lists -----

  predicate HasKeys(ts: seq<Transform>, keys: seq<(int, string)>) {
    |ts| == |keys| && forall i :: 0 <= i < |ts| ==> (ts[i].applyOrder, ts[i].strategyId) == keys[i]
  }

  predicate NoRepeats(keys: seq<(int, string)>) {
    forall i, j :: 0 <= i < j < |keys| ==> keys[i] != keys[j]
  }

  /** Over all transforms with these keys, all their permutations and all lengths: same years, same notes. */
  ghost predicate OrderIsFree(plan: Plan, keys: seq<(int, string)>) {
    forall ts: seq<Transform>, permuted: seq<Transform>, years: nat | HasKeys(ts, keys) && multiset(ts) == multiset(permuted) ::
      SameOutput(Scenario.Scenario(plan, ts, years), Scenario.Scenario(plan, permuted, years))
  }

  predicate SameOutput(a: Projection, b: Projection) {
    a.years == b.years && a.notes == b.notes
  }

  /** A transform that only leaves a note, named by its parameters. */
  function Remark(ctx: Context): Outcome {
    Outcome(ctx.profile, TextOf(ctx.params), map[])
  }

  function TextOf(params: map<string, real>): seq<string> {
    if "first" in params then ["first"] else if "second" in params then ["second"] else []
  }

  function Remarker(key: (int, string), params: map<string, real>): Transform {
    Transform(key.1, key.0, params, Remark)
  }

  function NotesOf(ts: seq<Transform>): seq<Note> {
    if ts == [] then [] else NoteOf(ts[0]) + NotesOf(ts[1..])
  }

  function NoteOf(t: Transform): seq<Note> {
    Tagged(t.strategyId, 0, TextOf(t.params))
  }

  ghost predicate AllRemark(ts: seq<Transform>) {
    forall i :: 0 <= i < |ts| ==> ts[i].apply == Remark
  }

  lemma {:induction false} NotesAre(ts: seq<Transform>, st: Thread, setup: Setup)
    requires AllRemark(ts)
    ensures ApplyAll(ts, st, setup, 0).notes == st.notes + NotesOf(ts)
  {
    if ts != [] {
      var next := ApplyOne(ts[0], st, setup, 0);
      NotesAre(ts[1..], next, setup);
      var own := NoteOf(ts[0]);
      assert next.notes == st.notes + own;
      assert (st.notes + own) + NotesOf(ts[1..]) == st.notes + (own + NotesOf(ts[1..]));
    }
  }

  predicate Silent(t: Transform) {
    TextOf(t.params) == []
  }

  lemma {:induction false} NotesFirst(x: Transform, ys: seq<Transform>)
    ensures NotesOf([x] + ys) == NoteOf(x) + NotesOf(ys)
  {
    assert ([x] + ys)[1..] == ys;
  }

  lemma {:induction false} EitherOrder<T>(a: seq<T>, b: seq<T>, c: seq<T>)
    requires a == [] || b == []
    ensures a + (b + c) == b + (a + c)
  {}

  lemma {:induction false} InsertKeepsNotes(x: Transform, ys: seq<Transform>)
    requires Silent(x) || forall y :: y in ys && Before(y, x) ==> Silent(y)
    ensures NotesOf(Insert(x, ys, Before)) == NoteOf(x) + NotesOf(ys)
  {
    if ys == [] || !Before(ys[0], x) {
      NotesFirst(x, ys);
    } else {
      InsertKeepsNotes(x, ys[1..]);
      NotesFirst(ys[0], Insert(x, ys[1..], Before));
      assert Silent(x) || Silent(ys[0]);
      EitherOrder(NoteOf(ys[0]), NoteOf(x), NotesOf(ys[1..]));
    }
  }

  /** Sorting is stable: transforms that tie keep the order of their notes. */
  lemma {:induction false} SortKeepsNotes(ts: seq<Transform>)
    requires forall x, y :: x in ts && y in ts && !Silent(x) && !Silent(y) ==> !Before(x, y)
    ensures NotesOf(Sort(ts, Before)) == NotesOf(ts)
  {
    if ts != [] {
      SortKeepsNotes(ts[1..]);
      InsertKeepsNotes(ts[0], Sort(ts[1..], Before));
    }
  }

  /** Place `i` remarks "first", place `j` remarks "second", the others nothing. */
  function Remarks(keys: seq<(int, string)>, i: nat, j: nat): (ts: seq<Transform>)
    ensures |ts| == |keys|
    ensures forall n :: 0 <= n < |keys| ==>
      ts[n] == Remarker(keys[n], if n == i then map["first" := 0.0] else if n == j then map["second" := 0.0] else map[])
  {
    seq(|keys|, n requires 0 <= n < |keys| =>
      Remarker(keys[n], if n == i then map["first" := 0.0] else if n == j then map["second" := 0.0] else map[]))
  }

  lemma {:induction false} NotesAppend(a: seq<Transform>, b: seq<Transform>)
    ensures NotesOf(a + b) == NotesOf(a) + NotesOf(b)
  {
    if a == [] {
      assert a + b == b;
    } else {
      assert (a + b)[1..] == a[1..] + b;
      NotesAppend(a[1..], b);
      var x, y, z := NoteOf(a[0]), NotesOf(a[1..]), NotesOf(b);
      assert x + (y + z) == (x + y) + z;
    }
  }

  lemma {:induction false} SilentNotes(ts: seq<Transform>)
    requires forall i :: 0 <= i < |ts| ==> Silent(ts[i])
    ensures NotesOf(ts) == []
  {
    if ts != [] {
      SilentNotes(ts[1..]);
    }
  }

  /** The first note comes from the first transform that is not silent. */
  lemma {:induction false} FirstNote(ts: seq<Transform>, a: nat)
    requires a < |ts| && |TextOf(ts[a].params)| == 1 && forall i :: 0 <= i < a ==> Silent(ts[i])
    ensures NotesOf(ts) != [] && NotesOf(ts)[0] == Note(ts[a].strategyId, 1, TextOf(ts[a].params)[0])
  {
    assert ts == ts[..a] + ts[a..];
    NotesAppend(ts[..a], ts[a..]);
    SilentNotes(ts[..a]);
  }

  /** After one year the first note is the one of the place handed over first. */
  lemma {:induction false} FirstNoteOfYear(plan: Plan, keys: seq<(int, string)>, i: nat, j: nat)
    requires i < |keys| && j < |keys| && i != j && keys[i] == keys[j]
    ensures
      var notes := Scenario.Scenario(plan, Remarks(keys, i, j), 1).notes;
      notes != [] && notes[0] == Note(keys[i].1, 1, if i < j then "first" else "second")
  {
    var ts := Remarks(keys, i, j);
    StringLessTotal(keys[i].1, keys[i].1);
    SortKeepsNotes(ts);
    FirstNote(ts, Min(i, j));
    NotesOfYear(plan, ts);
  }

  lemma {:induction false} NotesOfYear(plan: Plan, ts: seq<Transform>)
    requires AllRemark(ts)
    ensures Scenario.Scenario(plan, ts, 1).notes == NotesOf(Sort(ts, Before))
  {
    var ordered, setup := Sort(ts, Before), SetupOf(plan);
    assert AllRemark(ordered) by {
      assert forall n :: 0 <= n < |ordered| ==> ordered[n] in ts;
    }
    NotesAre(ordered, YearStart(setup, ordered, 0), setup);
    assert Project(setup, ordered, 1) == AddYear(setup, ordered, Project(setup, ordered, 0), 0);
    assert [] + NotesOf(ordered) == NotesOf(ordered);
  }

  lemma {:induction false} RemarksPermute(keys: seq<(int, string)>, i: nat, j: nat)
    requires i < j < |keys| && keys[i] == keys[j]
    ensures multiset(Remarks(keys, i, j)) == multiset(Remarks(keys, j, i))
  {
    var ts := Remarks(keys, i, j);
    assert Remarks(keys, j, i) == ts[i := ts[j]][j := ts[i]];
  }

  /** The order in which transforms are handed over never matters, over all transforms, exactly when no key repeats. */
  lemma {:induction false} OrderIsFreeExactly(plan: Plan, keys: seq<(int, string)>)
    ensures OrderIsFree(plan, keys) <==> NoRepeats(keys)
  {
    if NoRepeats(keys) {
      forall ts: seq<Transform>, permuted: seq<Transform>, years: nat | HasKeys(ts, keys) && multiset(ts) == multiset(permuted)
        ensures SameOutput(Scenario.Scenario(plan, ts, years), Scenario.Scenario(plan, permuted, years))
      {
        KeysAreDistinct(ts, keys);
        OrderNeverMatters(plan, ts, permuted, years);
      }
    } else {
      var i, j :| 0 <= i < j < |keys| && keys[i] == keys[j];
      RemarksPermute(keys, i, j);
      FirstNoteOfYear(plan, keys, i, j);
      FirstNoteOfYear(plan, keys, j, i);
      assert HasKeys(Remarks(keys, i, j), keys);
      assert !SameOutput(Scenario.Scenario(plan, Remarks(keys, i, j), 1), Scenario.Scenario(plan, Remarks(keys, j, i), 1));
    }
  }

  lemma {:induction false} KeysAreDistinct(ts: seq<Transform>, keys: seq<(int, string)>)
    requires HasKeys(ts, keys) && NoRepeats(keys)
    ensures DistinctKeys(ts)
  {
    forall i, j | 0 <= i < j < |ts|
      ensures ts[i].applyOrder != ts[j].applyOrder || ts[i].strategyId != ts[j].strategyId
    {
      assert keys[i] != keys[j];
    }
  }
}
