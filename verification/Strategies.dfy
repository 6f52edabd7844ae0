/**
 The carry-threaded timing strategies of factories/index.ts and tp12-modules.ts, and what they conserve over any
 number of projection years. Amounts are dollars and need not be whole.
 */
module Strategies {
  import opened Money
  import opened ComputeYear
  import opened Scenario
  import Flows

  /** `num(...)` of the source: the number on file, or the fallback. */
  function Num(m: map<string, real>, key: string, fallback: real): real {
    if key in m then m[key] else fallback
  }

  // ----- installment sale -----

  const GAIN_PARAM := "totalGain"
  const YEARS_PARAM := "termYears"

  function TotalGain(params: map<string, real>): real {
    MaxReal(Num(params, GAIN_PARAM, 0.0), 0.0)
  }

  function Term(params: map<string, real>): (years: int)
    ensures 2 <= years <= 30
  {
    Min(Max(Num(params, YEARS_PARAM, 5.0).Floor, 2), 30)
  }

  function Tranche(params: map<string, real>): (tranche: real)
    ensures 0.0 <= tranche <= TotalGain(params)
    ensures tranche == tranche.Floor as real
    ensures tranche > 0.0 <==> 2.0 * TotalGain(params) >= Term(params) as real
  {
    Quotient(TotalGain(params), Term(params) as real);
    Round(TotalGain(params) / Term(params) as real) as real
  }

  lemma {:induction false} Quotient(g: real, y: real)
    requires g >= 0.0 && y >= 2.0
    ensures 0.0 <= g / y && 2.0 * (g / y) <= g
    ensures g / y >= 0.5 <==> 2.0 * g >= y
    ensures Round(g / y) > 0 <==> g / y >= 0.5
  {
    var q := g / y;
    assert q * y == g;
    ProductSign(q, y);
    ProductSign(q - 0.5, y);
    assert (q - 0.5) * y == g - 0.5 * y;
    ProductSign(q, y - 2.0);
    assert q * (y - 2.0) == g - 2.0 * q;
  }

  lemma {:induction false} ProductSign(a: real, y: real)
    requires y >= 0.0
    ensures a >= 0.0 ==> a * y >= 0.0
    ensures y > 0.0 && a < 0.0 ==> a * y < 0.0
  {}

  function InstallmentSpread(ctx: Context): Outcome {
    var p := ctx.profile;
    var totalGain := TotalGain(ctx.params);
    if totalGain <= 0.0 then Outcome(p, [], map[])
    else if ctx.yearIndex == 0 then
      var deferred := MinReal(totalGain - Tranche(ctx.params), MaxReal(p.longTermCapGain, 0.0));
      Outcome(p.(longTermCapGain := p.longTermCapGain - deferred), [], map["remaining" := deferred, "tranche" := Tranche(ctx.params)])
    else
      var remaining := MaxReal(Num(ctx.carry, "remaining", 0.0), 0.0);
      var trancheIn := MinReal(MaxReal(Num(ctx.carry, "tranche", 0.0), 0.0), remaining);
      if trancheIn <= 0.0 then Outcome(p, [], map[])
      else
        Outcome(p.(longTermCapGain := p.longTermCapGain + trancheIn), [],
                map["remaining" := remaining - trancheIn, "tranche" := trancheIn])
  }

  function Installment(order: int, params: map<string, real>): Transform {
    Transform("installment-sale-business", order, params, InstallmentSpread)
  }

  // ----- bracket management -----

  function BracketManagement(ctx: Context): Outcome {
    var requested := Num(ctx.params, "deferAmount", 0.0);
    var carriedIn := Num(ctx.carry, "deferredIn", 0.0);
    var withCarry := ctx.profile.(otherIncome := ctx.profile.otherIncome + carriedIn);
    var amount := if requested >= 0.0 then MinReal(requested, MaxReal(withCarry.otherIncome, 0.0)) else requested;
    if amount == 0.0 && carriedIn == 0.0 then Outcome(ctx.profile, [], map[])
    else Outcome(withCarry.(otherIncome := withCarry.otherIncome - amount), [], map["deferredIn" := amount])
  }

  function Bracket(order: int, params: map<string, real>): Transform {
    Transform("bracket-management", order, params, BracketManagement)
  }

  // ----- NOL planning -----

  function BusinessIncome(bs: seq<Flows.Business>): real {
    if bs == [] then 0.0
    else
      MaxReal(if bs[0].kind == Flows.SCorp then bs[0].netProfit - bs[0].ownerWages else bs[0].netProfit, 0.0)
      + BusinessIncome(bs[1..])
  }

  function IncomeEstimate(p: Profile): real {
    MaxReal(p.wages, 0.0) + BusinessIncome(p.businesses) + MaxReal(p.interestIncome, 0.0)
    + MaxReal(p.ordinaryDividends + p.qualifiedDividends, 0.0)
    + MaxReal(p.shortTermCapGain + p.longTermCapGain, 0.0) + MaxReal(p.otherIncome, 0.0)
  }

  function OpeningNol(ctx: Context): real {
    MaxReal(if ctx.yearIndex == 0 then Num(ctx.params, "nolCarryforward", 0.0) else Num(ctx.carry, "remaining", 0.0), 0.0)
  }

  function NolPlanning(ctx: Context): Outcome {
    var p, opening := ctx.profile, OpeningNol(ctx);
    if opening <= 0.0 then Outcome(p, [], map["remaining" := 0.0])
    else
      var allowed := MinReal(opening, Round(IncomeEstimate(p) * 0.8) as real);
      if allowed <= 0.0 then Outcome(p, [], map["remaining" := opening])
      else Outcome(p.(adjustments := p.adjustments + allowed), [], map["remaining" := opening - allowed])
  }

  function Nol(order: int, params: map<string, real>): Transform {
    Transform("nol-planning", order, params, NolPlanning)
  }

  // ----- totals over the years -----

  /** The outcome of year `y` when `t` receives these profiles, one a year. */
  ghost function SoloOutcome(t: Transform, setup: Setup, received: seq<Profile>, y: nat): Outcome
    requires y < |received|
  {
    t.apply(SoloContext(t, setup, received[y], y, SoloCarry(t, setup, received[..y])))
  }

  /** How much the strategy changed one line, summed over the years. */
  ghost function TotalChange(t: Transform, setup: Setup, received: seq<Profile>, line: Profile -> real): real {
    if received == [] then 0.0
    else
      var n := |received| - 1;
      TotalChange(t, setup, received[..n], line) + line(SoloOutcome(t, setup, received, n).profile) - line(received[n])
  }

  function LongTermGain(p: Profile): real { p.longTermCapGain }
  function OtherIncome(p: Profile): real { p.otherIncome }
  function Adjustments(p: Profile): real { p.adjustments }

  function Outstanding(carry: map<string, real>): real {
    MaxReal(Num(carry, "remaining", 0.0), 0.0)
  }

  /** What year one deferred. */
  function Deferred(params: map<string, real>, first: Profile): (d: real)
    ensures d >= 0.0
  {
    MinReal(TotalGain(params) - Tranche(params), MaxReal(first.longTermCapGain, 0.0))
  }

  /** The carry after `n` later years, in closed form. */
  ghost predicate OnSchedule(carry: map<string, real>, deferred: real, tranche: real, n: nat) {
    Scheduled(Num(carry, "remaining", 0.0), Num(carry, "tranche", 0.0), deferred, tranche, n)
  }

  ghost predicate Scheduled(remaining: real, carriedTranche: real, deferred: real, tranche: real, n: nat) {
    && remaining == MaxReal(0.0, deferred - n as real * tranche)
    && (remaining > 0.0 ==> carriedTranche == tranche)
    && carriedTranche >= 0.0
  }

  /** What a later year recognises, from the two carried numbers. */
  function TrancheIn(remaining: real, carriedTranche: real): real {
    MinReal(MaxReal(carriedTranche, 0.0), MaxReal(remaining, 0.0))
  }

  lemma {:induction false} ScheduleAdvances(remaining: real, carriedTranche: real, deferred: real, tranche: real, n: nat)
    requires tranche >= 0.0 && Scheduled(remaining, carriedTranche, deferred, tranche, n)
    ensures
      var now := TrancheIn(remaining, carriedTranche);
      if now <= 0.0 then Scheduled(remaining, carriedTranche, deferred, tranche, n + 1)
      else Scheduled(MaxReal(remaining, 0.0) - now, now, deferred, tranche, n + 1)
  {
    assert (n + 1) as real * tranche == n as real * tranche + tranche;
  }

  lemma {:induction false} ScheduleEnds(remaining: real, carriedTranche: real, deferred: real, tranche: real, n: nat)
    requires Scheduled(remaining, carriedTranche, deferred, tranche, n)
    ensures MaxReal(remaining, 0.0) == 0.0 <==> CoveredBy(deferred, tranche, n)
  {}

  /** A later year in terms of the two carried numbers. */
  lemma {:induction false} LaterYear(ctx: Context)
    requires TotalGain(ctx.params) > 0.0 && ctx.yearIndex > 0
    ensures
      var remaining, carried := Num(ctx.carry, "remaining", 0.0), Num(ctx.carry, "tranche", 0.0);
      var now := TrancheIn(remaining, carried);
      var after := ctx.carry + InstallmentSpread(ctx).carryPatch;
      && Num(after, "remaining", 0.0) == (if now <= 0.0 then remaining else MaxReal(remaining, 0.0) - now)
      && Num(after, "tranche", 0.0) == (if now <= 0.0 then carried else now)
      && InstallmentSpread(ctx).profile.longTermCapGain - ctx.profile.longTermCapGain == MaxReal(now, 0.0)
  {}

  lemma {:induction false} OneTrancheLater(ctx: Context, deferred: real, n: nat)
    requires TotalGain(ctx.params) > 0.0 && ctx.yearIndex > 0 && deferred >= 0.0
    requires OnSchedule(ctx.carry, deferred, Tranche(ctx.params), n)
    ensures OnSchedule(ctx.carry + InstallmentSpread(ctx).carryPatch, deferred, Tranche(ctx.params), n + 1)
    ensures InstallmentSpread(ctx).profile.longTermCapGain - ctx.profile.longTermCapGain
      == Outstanding(ctx.carry) - Outstanding(ctx.carry + InstallmentSpread(ctx).carryPatch)
  {
    LaterYear(ctx);
    ScheduleAdvances(Num(ctx.carry, "remaining", 0.0), Num(ctx.carry, "tranche", 0.0), deferred, Tranche(ctx.params), n);
  }

  /**
   Whatever profiles the strategy receives year after year: the deltas plus the outstanding remainder sum to zero, and
   the remainder is what was deferred less one tranche per later year.
   */
  lemma {:induction false} InstallmentSchedule(order: int, params: map<string, real>, setup: Setup, received: seq<Profile>)
    requires received != [] && TotalGain(params) > 0.0
    ensures
      var t := Installment(order, params);
      var carry := SoloCarry(t, setup, received);
      && OnSchedule(carry, Deferred(params, received[0]), Tranche(params), |received| - 1)
      && TotalChange(t, setup, received, LongTermGain) + Outstanding(carry) == 0.0
  {
    var t, n := Installment(order, params), |received| - 1;
    var before := SoloCarry(t, setup, received[..n]);
    var ctx := SoloContext(t, setup, received[n], n, before);
    if n == 0 {
      assert received[..0] == [];
      assert 0 as real * Tranche(params) == 0.0;
    } else {
      InstallmentSchedule(order, params, setup, received[..n]);
      OneTrancheLater(ctx, Deferred(params, received[0]), n - 1);
    }
  }

  /** Without a gain the strategy does nothing in any year. */
  lemma {:induction false} NoGainNoChange(order: int, params: map<string, real>, setup: Setup, received: seq<Profile>)
    requires TotalGain(params) <= 0.0
    ensures SoloCarry(Installment(order, params), setup, received) == map[]
    ensures TotalChange(Installment(order, params), setup, received, LongTermGain) == 0.0
  {
    if received != [] {
      NoGainNoChange(order, params, setup, received[..|received| - 1]);
    }
  }

  /** `later` tranches cover what was deferred. */
  ghost predicate EndsAfter(params: map<string, real>, first: Profile, later: nat) {
    CoveredBy(Deferred(params, first), Tranche(params), later)
  }

  ghost predicate CoveredBy(deferred: real, tranche: real, later: int) {
    deferred <= later as real * tranche
  }

  /** The deferred gain is fully recognised after `later` further years exactly when that many tranches cover it. */
  lemma {:induction false} FullyRecognisedExactly(order: int, params: map<string, real>, setup: Setup, received: seq<Profile>)
    requires received != [] && TotalGain(params) > 0.0
    ensures Outstanding(SoloCarry(Installment(order, params), setup, received)) == 0.0
      <==> EndsAfter(params, received[0], |received| - 1)
  {
    InstallmentSchedule(order, params, setup, received);
    var carry := SoloCarry(Installment(order, params), setup, received);
    ScheduleEnds(Num(carry, "remaining", 0.0), Num(carry, "tranche", 0.0), Deferred(params, received[0]), Tranche(params), |received| - 1);
  }

  /**
   The note promises that the gain is recognised over the term. It is exactly when so little was deferred that the
   later years' tranches cover it, or the tranches of the term cover the whole gain (rounding did not lose any of it).
   */
  lemma {:induction false} WithinTermExactly(order: int, params: map<string, real>, setup: Setup, received: seq<Profile>)
    requires TotalGain(params) > 0.0 && |received| == Term(params)
    ensures Outstanding(SoloCarry(Installment(order, params), setup, received)) == 0.0 <==> TermSuffices(params, received[0])
  {
    FullyRecognisedExactly(order, params, setup, received);
    TermCovers(params, received[0]);
  }

  lemma {:induction false} TermCovers(params: map<string, real>, first: Profile)
    ensures EndsAfter(params, first, Term(params) - 1) <==> TermSuffices(params, first)
  {
    TermCoversScalar(TotalGain(params), first.longTermCapGain, Tranche(params), Term(params));
  }

  lemma {:induction false} TermCoversScalar(gain: real, onHand: real, tranche: real, years: int)
    requires years >= 1 && tranche >= 0.0
    ensures CoveredBy(MinReal(gain - tranche, MaxReal(onHand, 0.0)), tranche, years - 1)
      <==> CoveredBy(onHand, tranche, years - 1) || CoveredBy(gain, tranche, years)
  {
    OneMoreTranche(years, tranche);
    DeferredFits(gain, onHand, tranche, (years - 1) as real * tranche);
  }

  ghost predicate TermSuffices(params: map<string, real>, first: Profile) {
    || CoveredBy(first.longTermCapGain, Tranche(params), Term(params) - 1)
    || CoveredBy(TotalGain(params), Tranche(params), Term(params))
  }

  lemma {:induction false} DeferredFits(gain: real, onHand: real, tranche: real, later: real)
    requires later >= 0.0
    ensures MinReal(gain - tranche, MaxReal(onHand, 0.0)) <= later <==> onHand <= later || gain <= later + tranche
  {}

  lemma {:induction false} OneMoreTranche(years: int, tranche: real)
    requires years >= 1 && tranche >= 0.0
    ensures years as real * tranche == (years - 1) as real * tranche + tranche
    ensures (years - 1) as real * tranche >= 0.0
  {
    ProductSign((years - 1) as real, tranche);
    assert years as real == (years - 1) as real + 1.0;
  }

  /**
   The deferral ends at all exactly when nothing was deferred or a tranche is at least a dollar, that is when the gain
   is at least half a dollar per year of the term; then it ends within ceil(deferred / tranche) later years.
   */
  lemma {:induction false} DeferralEndsExactly(params: map<string, real>, first: Profile)
    requires TotalGain(params) > 0.0
    ensures (exists later: nat :: EndsAfter(params, first, later))
      <==> Deferred(params, first) == 0.0 || 2.0 * TotalGain(params) >= Term(params) as real
    ensures Tranche(params) > 0.0 ==>
      Deferred(params, first) <= -(-(Deferred(params, first) / Tranche(params))).Floor as real * Tranche(params)
  {
    var d, tranche := Deferred(params, first), Tranche(params);
    if tranche > 0.0 {
      CeilingCovers(d, tranche);
      assert EndsAfter(params, first, -(-(d / tranche)).Floor);
    } else if d == 0.0 {
      assert EndsAfter(params, first, 0);
    } else {
      forall later: nat
        ensures !EndsAfter(params, first, later)
      {
        assert later as real * tranche == 0.0;
      }
    }
  }

  lemma {:induction false} CeilingCovers(d: real, tranche: real)
    requires d >= 0.0 && tranche > 0.0
    ensures 0 <= -(-(d / tranche)).Floor
    ensures d <= -(-(d / tranche)).Floor as real * tranche
  {
    var q := d / tranche;
    assert q * tranche == d;
    ProductSign(q, tranche);
    var later := -(-q).Floor;
    ProductSign(later as real - q, tranche);
    assert (later as real - q) * tranche == later as real * tranche - q * tranche;
  }

  /** The condition can fail: with $7 over 5 years, $2 are still outstanding after the 4 later years. */
  lemma {:induction false} SpreadCanOutliveItsTerm(order: int, setup: Setup, received: seq<Profile>)
    requires |received| == 5 && received[0].longTermCapGain >= 7.0
    ensures
      var params := map[GAIN_PARAM := 7.0, YEARS_PARAM := 5.0];
      Term(params) == 5 && Outstanding(SoloCarry(Installment(order, params), setup, received)) == 2.0
  {
    var params := map[GAIN_PARAM := 7.0, YEARS_PARAM := 5.0];
    assert Tranche(params) == 1.0;
    InstallmentSchedule(order, params, setup, received);
  }

  /** Bracket management: what it moved out over the years is exactly what it still carries. */
  lemma {:induction false} BracketTelescopes(order: int, params: map<string, real>, setup: Setup, received: seq<Profile>)
    ensures
      var t := Bracket(order, params);
      TotalChange(t, setup, received, OtherIncome) == -Num(SoloCarry(t, setup, received), "deferredIn", 0.0)
  {
    if received != [] {
      BracketTelescopes(order, params, setup, received[..|received| - 1]);
    }
  }

  /** One year of NOL planning: what it deducts leaves the opening balance, and is at most 80% of income. */
  lemma {:induction false} NolYear(ctx: Context)
    ensures NolPlanning(ctx).profile.adjustments - ctx.profile.adjustments
      == OpeningNol(ctx) - Num(ctx.carry + NolPlanning(ctx).carryPatch, "remaining", 0.0)
    ensures 0.0 <= Num(ctx.carry + NolPlanning(ctx).carryPatch, "remaining", 0.0)
    ensures NolPlanning(ctx).profile.adjustments - ctx.profile.adjustments
      <= MaxReal(0.0, Round(IncomeEstimate(ctx.profile) * 0.8) as real)
  {}

  /** NOL planning: deducted over the years plus what remains is the opening NOL. */
  lemma {:induction false} NolConserved(order: int, params: map<string, real>, setup: Setup, received: seq<Profile>)
    requires received != []
    ensures
      var t := Nol(order, params);
      var remaining := Num(SoloCarry(t, setup, received), "remaining", 0.0);
      && remaining >= 0.0
      && TotalChange(t, setup, received, Adjustments) + remaining == MaxReal(Num(params, "nolCarryforward", 0.0), 0.0)
  {
    var t, n := Nol(order, params), |received| - 1;
    NolYear(SoloContext(t, setup, received[n], n, SoloCarry(t, setup, received[..n])));
    if n == 0 {
      assert received[..0] == [];
    } else {
      NolConserved(order, params, setup, received[..n]);
    }
  }

  /** With an id of its own, what a strategy changes inside a composition is what it changes by itself. */
  lemma {:induction false} ChangeIsSolo(setup: Setup, ts: seq<Transform>, k: nat, years: nat, line: Profile -> real)
    requires k < |ts| && SoleOwner(ts, k)
    ensures ScenarioChange(setup, ts, k, years, line) == TotalChange(ts[k], setup, ReceivedProfiles(setup, ts, k, years), line)
  {
    if years > 0 {
      var n, received := years - 1, ReceivedProfiles(setup, ts, k, years);
      ChangeIsSolo(setup, ts, k, n, line);
      assert received[..n] == ReceivedProfiles(setup, ts, k, n);
      SoloOutcomeInYear(setup, ts, k, n);
      assert SoloOutcome(ts[k], setup, received, n) == ts[k].apply(SoloContext(ts[k], setup, received[n], n, SoloCarry(ts[k], setup, received[..n])));
    }
  }

  lemma {:induction false} SoloOutcomeInYear(setup: Setup, ts: seq<Transform>, k: nat, y: nat)
    requires k < |ts| && SoleOwner(ts, k)
    ensures
      var st := ApplyAll(ts[..k], YearStart(setup, ts, y), setup, y);
      var carry := SoloCarry(ts[k], setup, ReceivedProfiles(setup, ts, k, y));
      ApplyOne(ts[k], st, setup, y).profile == ts[k].apply(SoloContext(ts[k], setup, ReceivedInYear(setup, ts, k, y), y, carry)).profile
  {
    ScenarioThreadsSolo(setup, ts, k, y);
    OthersLeaveCarryAlone(ts[..k], YearStart(setup, ts, y), setup, y, ts[k].strategyId);
  }

  /**
   Inside any composition in which no other transform has its id, whatever the others do: the installment deltas over
   the projection plus the remainder in the scenario's own carry sum to zero.
   */
  lemma {:induction false} InstallmentConservedInScenario(setup: Setup, ts: seq<Transform>, k: nat, order: int, params: map<string, real>, years: nat)
    requires k < |ts| && SoleOwner(ts, k) && ts[k] == Installment(order, params)
    ensures InstallmentBalances(setup, ts, k, years)
  {
    var received := ReceivedProfiles(setup, ts, k, years);
    ScenarioThreadsSolo(setup, ts, k, years);
    ChangeIsSolo(setup, ts, k, years, LongTermGain);
    if TotalGain(params) <= 0.0 {
      NoGainNoChange(order, params, setup, received);
    } else if years > 0 {
      InstallmentSchedule(order, params, setup, received);
    }
  }

  ghost predicate InstallmentBalances(setup: Setup, ts: seq<Transform>, k: nat, years: nat)
    requires k < |ts|
  {
    ScenarioChange(setup, ts, k, years, LongTermGain) + Outstanding(Own(Project(setup, ts, years).carry, ts[k].strategyId)) == 0.0
  }

  /** The same for bracket management: net income moved out is what the scenario still carries for it. */
  lemma {:induction false} BracketConservedInScenario(setup: Setup, ts: seq<Transform>, k: nat, order: int, params: map<string, real>, years: nat)
    requires k < |ts| && SoleOwner(ts, k) && ts[k] == Bracket(order, params)
    ensures BracketBalances(setup, ts, k, years)
  {
    ScenarioThreadsSolo(setup, ts, k, years);
    ChangeIsSolo(setup, ts, k, years, OtherIncome);
    BracketTelescopes(order, params, setup, ReceivedProfiles(setup, ts, k, years));
  }

  ghost predicate BracketBalances(setup: Setup, ts: seq<Transform>, k: nat, years: nat)
    requires k < |ts|
  {
    ScenarioChange(setup, ts, k, years, OtherIncome) + Num(Own(Project(setup, ts, years).carry, ts[k].strategyId), "deferredIn", 0.0) == 0.0
  }

  /** The same for NOL planning, over at least one year. */
  lemma {:induction false} NolConservedInScenario(setup: Setup, ts: seq<Transform>, k: nat, order: int, params: map<string, real>, years: nat)
    requires k < |ts| && SoleOwner(ts, k) && ts[k] == Nol(order, params) && years > 0
    ensures NolBalances(setup, ts, k, params, years)
  {
    ScenarioThreadsSolo(setup, ts, k, years);
    ChangeIsSolo(setup, ts, k, years, Adjustments);
    NolConserved(order, params, setup, ReceivedProfiles(setup, ts, k, years));
  }

  ghost predicate NolBalances(setup: Setup, ts: seq<Transform>, k: nat, params: map<string, real>, years: nat)
    requires k < |ts|
  {
    ScenarioChange(setup, ts, k, years, Adjustments) + Outstanding(Own(Project(setup, ts, years).carry, ts[k].strategyId))
      == MaxReal(Num(params, "nolCarryforward", 0.0), 0.0)
  }
}
