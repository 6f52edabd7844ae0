/** Capital gain netting with carryforward of capital.ts, and its behaviour over the years of a projection. */
module Capital {
  import opened Money

  datatype CapitalResult = CapitalResult(
    ordinaryComponent: int,
    preferentialGain: int,
    carryforwardOut: int,
    netCapitalGain: int)

  const ORDINARY_LOSS_LIMIT := 3000 * 100

  /** Netting loses nothing: what is recognised minus what is carried out is exactly the net position. */
  function NetCapital(shortTerm: int, longTerm: int, carryforwardIn: int): (r: CapitalResult)
    ensures r.ordinaryComponent + r.preferentialGain - r.carryforwardOut == shortTerm + longTerm - carryforwardIn
    ensures r.preferentialGain >= 0 && r.carryforwardOut >= 0 && r.netCapitalGain == r.preferentialGain
    ensures r.carryforwardOut > 0 <==> shortTerm + longTerm - carryforwardIn < -ORDINARY_LOSS_LIMIT
    ensures r.carryforwardOut > 0 ==> r.ordinaryComponent == -ORDINARY_LOSS_LIMIT && r.preferentialGain == 0
    ensures r.ordinaryComponent >= -ORDINARY_LOSS_LIMIT
    ensures r.preferentialGain <= Max(0, longTerm - carryforwardIn)
    ensures r.ordinaryComponent <= Max(0, shortTerm)
  {
    var lt := longTerm - carryforwardIn;
    var st := shortTerm;
    var total := st + lt;
    if total < 0 then
      var allowed := Max(total, -ORDINARY_LOSS_LIMIT);
      CapitalResult(allowed, 0, -(total - allowed), 0)
    else
      var preferentialGain := Max(0, lt + Min(st, 0));
      CapitalResult(Max(0, st + Min(lt, 0)), preferentialGain, 0, preferentialGain)
  }

  /** One projection year's gains in dollars. */
  datatype Gains = Gains(shortTerm: real, longTerm: real)

  /** The netting of one year; the carry crosses the year boundary in whole dollars. */
  function YearNetting(g: Gains, carryIn: int): CapitalResult {
    NetCapital(Dollars(g.shortTerm), Dollars(g.longTerm), Dollars(carryIn as real))
  }

  function CarryAfter(years: seq<Gains>, carryIn: int): int {
    if years == [] then carryIn
    else CarryAfter(years[1..], ToDollars(YearNetting(years[0], carryIn).carryforwardOut))
  }

  /** Ordinary plus preferential amounts recognised over the years, in cents. */
  function Recognised(years: seq<Gains>, carryIn: int): int {
    if years == [] then 0
    else
      var r := YearNetting(years[0], carryIn);
      r.ordinaryComponent + r.preferentialGain + Recognised(years[1..], ToDollars(r.carryforwardOut))
  }

  function TotalGains(years: seq<Gains>): int {
    if years == [] then 0
    else Dollars(years[0].shortTerm) + Dollars(years[0].longTerm) + TotalGains(years[1..])
  }

  /** One more year at the end nets against the carry so far. */
  lemma {:induction false} CarryAfterLast(years: seq<Gains>, last: Gains, carryIn: int)
    ensures CarryAfter(years + [last], carryIn) == ToDollars(YearNetting(last, CarryAfter(years, carryIn)).carryforwardOut)
  {
    if years == [] {
      assert years + [last] == [last] && [last][1..] == [];
    } else {
      assert (years + [last])[1..] == years[1..] + [last];
      CarryAfterLast(years[1..], last, ToDollars(YearNetting(years[0], carryIn).carryforwardOut));
    }
  }

  /** Over any number of years the books balance up to the whole-dollar carry: at most 50 cents a year. */
  lemma {:induction false} CapitalDrift(years: seq<Gains>, carryIn: int)
    ensures Abs(Recognised(years, carryIn) - 100 * CarryAfter(years, carryIn) - (TotalGains(years) - 100 * carryIn)) <= 50 * |years|
  {
    if years != [] {
      WholeDollarsRoundTrip(carryIn);
      CapitalDrift(years[1..], ToDollars(YearNetting(years[0], carryIn).carryforwardOut));
    }
  }

  predicate WholeDollars(d: real) {
    Dollars(d) % 100 == 0
  }

  /** With whole-dollar gains nothing is lost: recognised amounts minus the final carry telescope to the gains minus the opening carry. */
  lemma {:induction false} CapitalTelescopes(years: seq<Gains>, carryIn: int)
    requires forall i :: 0 <= i < |years| ==> WholeDollars(years[i].shortTerm) && WholeDollars(years[i].longTerm)
    ensures Recognised(years, carryIn) - 100 * CarryAfter(years, carryIn) == TotalGains(years) - 100 * carryIn
  {
    if years != [] {
      WholeDollarsRoundTrip(carryIn);
      var out := YearNetting(years[0], carryIn).carryforwardOut;
      WholeCents(out);
      CapitalTelescopes(years[1..], ToDollars(out));
    }
  }

  lemma {:induction false} WholeCents(c: int)
    requires c % 100 == 0
    ensures 100 * ToDollars(c) == c
  {
    WholeDollarsRoundTrip(c / 100);
  }

  /** Without new net losses the carry shrinks by at least $3,000 a year until it is gone. */
  lemma {:induction false} CarryRunsOut(years: seq<Gains>, carryIn: int)
    requires carryIn >= 0
    requires forall i :: 0 <= i < |years| ==> Dollars(years[i].shortTerm) + Dollars(years[i].longTerm) >= 0
    ensures 0 <= CarryAfter(years, carryIn) <= Max(0, carryIn - 3000 * |years|)
  {
    if years != [] {
      WholeDollarsRoundTrip(carryIn);
      var out := YearNetting(years[0], carryIn).carryforwardOut;
      assert out <= Max(0, 100 * carryIn - ORDINARY_LOSS_LIMIT);
      assert ToDollars(out) <= Max(0, carryIn - 3000) by {
        ToDollarsMonotone(out, Max(0, 100 * (carryIn - 3000)));
        WholeDollarsRoundTrip(Max(0, carryIn - 3000));
      }
      assert ToDollars(out) >= 0;
      CarryRunsOut(years[1..], ToDollars(out));
    }
  }

  lemma {:induction false} ToDollarsMonotone(a: int, b: int)
    requires 0 <= a <= b
    ensures ToDollars(a) <= ToDollars(b)
  {
    RoundMonotone(a as real / 100.0, b as real / 100.0);
  }
}
