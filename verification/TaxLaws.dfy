/** The tax modules from input to result: laws of rounding, brackets, passive losses, capital netting and the QBI deduction. */
module TaxLaws {
  import opened Money
  import opened Brackets
  import opened Wrappers
  import Totals
  import ProRata
  import Passive
  import Capital
  import Qbi

  // ----- rounding -----

  /** A dollar is 100 cents; a tie in converting to cents goes up. */
  lemma {:induction false} DollarLaw(n: int, d: real)
    ensures Dollars(n as real) == 100 * n
    ensures 100.0 * d - 0.5 < Dollars(d) as real <= 100.0 * d + 0.5
    ensures Dollars(d + n as real / 100.0) == Dollars(d) + n
  {
    assert (d + n as real / 100.0) * 100.0 == d * 100.0 + n as real;
  }

  /** Whole-dollar rounding: nearest, ties away from zero, odd under sign change. */
  lemma {:induction false} WholeDollarLaw(n: nat, cents: int)
    ensures ToDollars(100 * n) == n && ToDollars(100 * n + 49) == n && ToDollars(100 * n + 50) == n + 1
    ensures ToDollars(-cents) == -ToDollars(cents)
  {
    assert (-cents) as real / 100.0 == -(cents as real / 100.0);
  }

  /** A rate is taken to the nearest cent, ties away from zero, odd under sign change. */
  lemma {:induction false} RateLaw(cents: int, rate: real, n: nat)
    ensures cents as real * rate - 0.5 <= MulRate(cents, rate) as real <= cents as real * rate + 0.5
    ensures cents as real * rate == n as real + 0.5 ==> MulRate(cents, rate) == n + 1
    ensures MulRate(-cents, rate) == -MulRate(cents, rate)
  {
    var x := cents as real * rate;
    assert (-cents) as real * rate == -x;
    NegatedRounding(x);
  }

  lemma {:induction false} NearRate(cents: int, rate: real)
    ensures cents as real * rate - 0.5 <= MulRate(cents, rate) as real <= cents as real * rate + 0.5
  {}

  lemma {:induction false} NegatedRounding(x: real)
    ensures RoundAway(-x) == -RoundAway(x)
  {}

  // ----- brackets -----

  /** The cent with `c` cents below it is taxed at the rate of the first row whose ceiling, in dollars, lies above it. */
  lemma {:induction false} MarginalRateLaw(rows: seq<BracketRow>, c: int, i: nat)
    requires i < |rows| && LastRowOpen(TableInCents(rows))
    requires forall j :: 0 <= j < i ==> rows[j].upTo.Some? && Dollars(rows[j].upTo.value) <= c
    requires rows[i].upTo.Some? ==> c < Dollars(rows[i].upTo.value)
    ensures MarginalRate(TableInCents(rows), c) == rows[i].rate
    ensures ExactTax(TableInCents(rows), c, c) == 0.0 && ExactTax(TableInCents(rows), c, c + 1) == rows[i].rate
    decreases i
  {
    var table := TableInCents(rows);
    if i > 0 {
      assert table[1..] == TableInCents(rows[1..]);
      MarginalRateLaw(rows[1..], c, i - 1);
    }
    assert ExactTax(table, c + 1, c + 1) == 0.0;
  }

  /** A table of two rows: the first rate up to its ceiling, the second above it. */
  lemma {:induction false} TwoRowLaw(low: real, ceiling: int, high: real, lo: nat, hi: nat)
    requires 0 <= ceiling && lo < hi
    ensures
      var tax := TaxOf(Layers(TableInCents([BracketRow(low, Some(ceiling as real)), BracketRow(high, None)]), lo, hi));
      && (hi <= 100 * ceiling ==> tax == MulRate(hi - lo, low))
      && (100 * ceiling <= lo ==> tax == MulRate(hi - lo, high))
      && (lo < 100 * ceiling < hi ==> tax == MulRate(100 * ceiling - lo, low) + MulRate(hi - 100 * ceiling, high))
  {
    var rows := [BracketRow(low, Some(ceiling as real)), BracketRow(high, None)];
    var table := TableInCents(rows);
    DollarLaw(ceiling, 0.0);
    assert table[0] == Row(low, Some(100 * ceiling)) && table[1..] == [Row(high, None)] && [Row(high, None)][1..] == [];
    LayersStep(table, lo, hi);
    var rest := Max(lo, Below(table[0], hi));
    if rest < hi {
      LayersStep([Row(high, None)], rest, hi);
      assert TaxOf(Layers([], hi, hi)) == 0;
    } else {
      assert Layers([Row(high, None)], rest, hi) == [];
    }
  }

  // ----- passive losses -----

  /** Release: an activity that occurs once takes its positive income out of what it had suspended, as far as that goes. */
  lemma {:induction false} ReleaseLaw(rentals: seq<Passive.Rental>, i: nat, suspension: map<string, int>)
    requires i < |rentals| && forall j :: 0 <= j < |rentals| && j != i ==> rentals[j].id != rentals[i].id
    requires rentals[i].id in suspension && suspension[rentals[i].id] >= 0
    ensures
      var prior, income := suspension[rentals[i].id], Max(0, Dollars(rentals[i].netIncome));
      && |Passive.Activities(rentals, suspension)| == |rentals|
      && Totals.Get(Passive.Remaining(rentals, suspension), rentals[i].id) == Max(0, prior - income)
      && Passive.Activities(rentals, suspension)[i]
        == Passive.Activity(rentals[i].id, Dollars(rentals[i].netIncome) - Min(prior, income), rentals[i].activeParticipant)
  {
    var after := Passive.AfterRelease(rentals[0], suspension);
    ActivityCount(rentals[1..], after);
    if i == 0 {
      forall j | 0 <= j < |rentals[1..]|
        ensures rentals[1..][j].id != rentals[0].id
      {
        assert rentals[1..][j] == rentals[j + 1];
      }
      Passive.ReleaseTouchesOnlyPresent(rentals[1..], after, rentals[0].id);
    } else {
      assert rentals[0].id != rentals[i].id;
      ReleaseLaw(rentals[1..], i - 1, after);
    }
  }

  lemma {:induction false} ActivityCount(rentals: seq<Passive.Rental>, suspension: map<string, int>)
    ensures |Passive.Activities(rentals, suspension)| == |rentals|
  {
    if rentals != [] {
      ActivityCount(rentals[1..], Passive.AfterRelease(rentals[0], suspension));
    }
  }

  /** Totals and losses, activity by activity; only active participation counts towards the allowance. */
  lemma {:induction false} LossLaw(e: Passive.Activity, es: seq<Passive.Activity>)
    ensures Passive.Total([e] + es) == e.amount + Passive.Total(es) && Passive.Total([]) == 0
    ensures Passive.Magnitude(Passive.Losses([e] + es)) == Passive.Magnitude(Passive.Losses(es)) + (if e.amount < 0 then -e.amount else 0)
    ensures Passive.Magnitude(Passive.ActiveLosses([e] + es))
      == Passive.Magnitude(Passive.ActiveLosses(es)) + (if e.amount < 0 && e.active then -e.amount else 0)
    ensures Passive.Magnitude(Passive.Losses([])) == 0 && Passive.Magnitude(Passive.ActiveLosses([])) == 0
  {
    assert ([e] + es)[1..] == es;
    var ls, acts := Passive.Losses(es), Passive.ActiveLosses(es);
    assert ([e] + ls)[1..] == ls && ([e] + acts)[1..] == acts;
    assert [] + ls == ls && [] + acts == acts;
  }

  /** The allowance falls by 50 cents per dollar of income above the start, a half cent of reduction counting whole. */
  lemma {:induction false} PhaseOutLaw(magi: int, t: Passive.PassiveTable)
    ensures
      var over := Max(0, magi - Dollars(t.phaseOutStart));
      Passive.AllowanceCap(magi, t) == Max(0, Dollars(t.rentalLossAllowance) - (over + 1) / 2)
  {
    var over := Max(0, magi - Dollars(t.phaseOutStart));
    assert Round(over as real / 2.0) == (over + 1) / 2 by {
      var half := (over + 1) / 2;
      assert over == 2 * half || over == 2 * half - 1;
    }
  }

  /** Net income is included whole; of a net loss, the least of itself, the active losses and the allowance. */
  lemma {:induction false} IncludedLaw(rentals: seq<Passive.Rental>, suspendedIn: map<string, int>, magi: int, t: Passive.PassiveTable)
    ensures
      var es := Passive.Activities(rentals, suspendedIn);
      var net, active, cap := Passive.Total(es), Passive.Magnitude(Passive.ActiveLosses(es)), Passive.AllowanceCap(magi, t);
      var included := Passive.IncludedIncome(rentals, suspendedIn, magi, t);
      && (net >= 0 ==> included == net)
      && (net < 0 ==> net <= included && -active <= included && -cap <= included && included in {net, -active, -cap})
  {}

  /** Each share but the last is the loss's part of the newly suspended amount, to the nearest cent. */
  lemma {:induction false} ShareLaw(ls: seq<Passive.Activity>, newly: int, i: nat)
    requires i < |ls| - 1 && Passive.Magnitude(ls) > 0
    ensures
      var total := Passive.Magnitude(ls);
      -total <= 2 * (newly * (-ls[i].amount) - Passive.Share(ls, newly, i) * total) < total
  {
    NearestShare(newly, -ls[i].amount, Passive.Magnitude(ls));
  }

  /** Each loss of its own id gets its own share on top of what it had left. */
  lemma {:induction false} AllocationLaw(m: map<string, int>, ls: seq<Passive.Activity>, newly: int, n: nat, i: nat)
    requires i < n <= |ls| && Passive.Magnitude(ls) > 0
    requires forall j :: 0 <= j < |ls| && j != i ==> ls[j].id != ls[i].id
    ensures Totals.Get(Passive.Allocated(m, ls, newly, n), ls[i].id) == Totals.Get(m, ls[i].id) + Passive.Share(ls, newly, i)
  {
    if i == n - 1 {
      Passive.AllocatedTouchesOnlyLosses(m, ls, newly, n - 1, ls[i].id);
    } else {
      AllocationLaw(m, ls, newly, n - 1, i);
    }
  }

  lemma {:induction false} NearestShare(amount: int, weight: int, total: int)
    requires total > 0
    ensures -total <= 2 * (amount * weight - ProRata.ShareOf(amount, weight, total) * total) < total
  {
    var x, share := amount * weight, ProRata.ShareOf(amount, weight, total);
    NearestQuotient(x, share, total);
  }

  lemma {:induction false} NearestQuotient(x: int, share: int, total: int)
    requires total > 0 && share == Round(x as real / total as real)
    ensures -total <= 2 * (x - share * total) < total
  {
    NotAbove(x as real, share as real, total as real);
    NotBelow(x as real, share as real, total as real);
    CastProduct(share, total);
  }

  lemma {:induction false} NotAbove(x: real, s: real, t: real)
    requires t > 0.0 && s <= x / t + 0.5
    ensures s * t <= x + 0.5 * t
  {
    var q := x / t;
    assert q * t == x;
    PlusHalf(q, t);
    Scaled(s, q + 0.5, t);
  }

  lemma {:induction false} NotBelow(x: real, s: real, t: real)
    requires t > 0.0 && x / t + 0.5 < s + 1.0
    ensures x < s * t + 0.5 * t
  {
    var q := x / t;
    assert q * t == x;
    PlusHalf(s, t);
    Scaled(q, s + 0.5, t);
  }

  lemma {:induction false} PlusHalf(a: real, t: real)
    ensures (a + 0.5) * t == a * t + 0.5 * t
  {}

  lemma {:induction false} CastProduct(a: int, b: int)
    ensures (a * b) as real == a as real * b as real
  {}

  lemma {:induction false} Scaled(a: real, b: real, t: real)
    requires t > 0.0
    ensures a < b ==> a * t < b * t
    ensures a <= b ==> a * t <= b * t
  {
    SignLaw(b - a, t);
    assert (b - a) * t == b * t - a * t;
  }

  /** A product with a positive factor has the sign of the other one. */
  lemma {:induction false} SignLaw(a: real, t: real)
    requires t > 0.0
    ensures a > 0.0 ==> a * t > 0.0
    ensures a >= 0.0 ==> a * t >= 0.0
    ensures a < 0.0 ==> a * t < 0.0
  {}

  // ----- capital netting -----

  /**
   The carryforward counts as long-term loss. A net loss is ordinary up to $3,000; gains on both sides keep their kind; a
   loss on one side is netted against the other side's gain, whose kind remains.
   */
  lemma {:induction false} NettingLaw(shortTerm: int, longTerm: int, carryforwardIn: int)
    ensures
      var r, long := Capital.NetCapital(shortTerm, longTerm, carryforwardIn), longTerm - carryforwardIn;
      var net := shortTerm + long;
      && (net < 0 ==> r.preferentialGain == 0 && r.ordinaryComponent == Max(net, -300000) && r.carryforwardOut == Max(0, -net - 300000))
      && (net >= 0 ==> r.carryforwardOut == 0)
      && (net >= 0 && shortTerm >= 0 && long >= 0 ==> r.ordinaryComponent == shortTerm && r.preferentialGain == long)
      && (net >= 0 && shortTerm < 0 ==> r.ordinaryComponent == 0 && r.preferentialGain == net)
      && (net >= 0 && long < 0 ==> r.ordinaryComponent == net && r.preferentialGain == 0)
  {}

  // ----- the QBI deduction -----

  /** The phase-in ratio is 0 up to the threshold, 1 from the top of the range on, and linear in between. */
  lemma {:induction false} PhaseInLaw(income: int, t: Qbi.QbiTable)
    requires Dollars(t.phaseInRange) >= 0
    ensures
      var start, range, ratio := Dollars(t.threshold), Dollars(t.phaseInRange), Qbi.PhaseRatio(income, t);
      && (range == 0 ==> ratio == 1.0)
      && (range > 0 && income <= start ==> ratio == 0.0)
      && (range > 0 && income >= start + range ==> ratio == 1.0)
      && (range > 0 && start <= income <= start + range ==> ratio * range as real == (income - start) as real)
  {
    var start, range := Dollars(t.threshold), Dollars(t.phaseInRange);
    if range > 0 {
      CappedQuotient(Max(0, income - start), range);
    }
  }

  lemma {:induction false} CappedQuotient(over: int, range: int)
    requires over >= 0 && range > 0
    ensures
      var ratio := MinReal(1.0, over as real / range as real);
      && (over == 0 ==> ratio == 0.0) && (over >= range ==> ratio == 1.0) && (over <= range ==> ratio * range as real == over as real)
  {
    var q, x, r := over as real / range as real, over as real, range as real;
    AtLeastOne(q, x, r);
    AtMostOne(q, x, r);
    SignLaw(q, r);
  }

  lemma {:induction false} AtLeastOne(q: real, x: real, r: real)
    requires r > 0.0 && q * r == x
    ensures x >= r ==> q >= 1.0
  {
    Scaled(q, 1.0, r);
    assert 1.0 * r == r;
  }

  lemma {:induction false} AtMostOne(q: real, x: real, r: real)
    requires r > 0.0 && q * r == x
    ensures x <= r ==> q <= 1.0
  {
    Scaled(1.0, q, r);
    assert 1.0 * r == r;
  }

  /** A specified service business's amounts count in the part the ratio leaves, to the nearest cent; others count whole. */
  lemma {:induction false} CountedLaw(amount: int, ratio: real)
    ensures Qbi.Counted(amount, false, ratio) == amount
    ensures amount as real * (1.0 - ratio) - 0.5 < Qbi.Counted(amount, true, ratio) as real <= amount as real * (1.0 - ratio) + 0.5
  {}

  /** The wage limit is half the wages that count, to the nearest cent. */
  lemma {:induction false} WageLimitLaw(b: Qbi.QbiBusiness, ratio: real)
    ensures -1 <= 2 * Qbi.WageLimit(b, ratio) - Qbi.Counted(b.w2Wages, b.sstb, ratio) <= 1
  {
    RateLaw(Qbi.Counted(b.w2Wages, b.sstb, ratio), 0.5, 0);
  }

  /** The tentative amount is the rate times the income that counts; a loss counts whole and at the same rate. */
  lemma {:induction false} TentativeLaw(b: Qbi.QbiBusiness, ratio: real, rate: real)
    ensures Qbi.Tentative(b, ratio, rate) == MulRate(Qbi.Counted(b.qbi, b.sstb, ratio), rate)
    ensures b.qbi <= 0 ==> Qbi.Component(b, ratio, rate) == MulRate(b.qbi, rate)
  {}

  /** Inside the range the shortfall below the wage limit is taken off in the proportion of the ratio, to the nearest cent. */
  lemma {:induction false} ShortfallTaken(tentative: int, limit: int, ratio: real)
    ensures tentative <= limit ==> Qbi.Limited(tentative, limit, ratio) == tentative
    ensures
      var taken := tentative - Qbi.Limited(tentative, limit, ratio);
      tentative > limit ==> (tentative - limit) as real * ratio - 0.5 < taken as real <= (tentative - limit) as real * ratio + 0.5
  {
    assert 0 as real * ratio == 0.0;
  }

  /** Components and QBI add up over the businesses. */
  lemma {:induction false} CombinedLaw(b: Qbi.QbiBusiness, bs: seq<Qbi.QbiBusiness>, ratio: real, rate: real)
    ensures Qbi.Combined([b] + bs, ratio, rate) == Qbi.Component(b, ratio, rate) + Qbi.Combined(bs, ratio, rate) && Qbi.Combined([], ratio, rate) == 0
    ensures Qbi.AggregateQbi([b] + bs) == b.qbi + Qbi.AggregateQbi(bs) && Qbi.AggregateQbi([]) == 0
  {
    assert ([b] + bs)[1..] == bs;
  }

  /**
   The deduction: nothing without businesses; else the combined amount, raised to the minimum once aggregate QBI reaches
   the floor, and never above the rate times what pre-QBI income leaves over net capital gain.
   */
  lemma {:induction false} DeductionLaw(bs: seq<Qbi.QbiBusiness>, income: int, gain: int, t: Qbi.QbiTable)
    ensures
      var combined := Qbi.Combined(bs, Qbi.PhaseRatio(income, t), t.rate);
      var cap, least := MulRate(Max(0, income - gain), t.rate), Dollars(t.minAmount);
      var enough := Qbi.AggregateQbi(bs) >= Dollars(t.qbiFloor);
      var deduction := Qbi.Deduction(bs, income, gain, t);
      && (bs == [] ==> deduction == 0)
      && (bs != [] && combined <= 0 && !enough ==> deduction == 0)
      && (bs != [] && combined <= 0 && enough ==> deduction == Min(least, cap))
      && (bs != [] && combined > 0 && !enough ==> deduction == Min(combined, cap))
      && (bs != [] && combined > 0 && enough ==> deduction == Max(Min(combined, cap), Min(least, cap)))
  {}
}
