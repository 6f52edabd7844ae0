/** Section 469 passive losses of passive.ts: release, netting, allowance, pro-rata suspension. All cents. */
module Passive {
  import opened Money
  import opened ProRata
  import opened Totals

  datatype Rental = Rental(id: string, netIncome: real, activeParticipant: bool)

  datatype PassiveTable = PassiveTable(rentalLossAllowance: real, phaseOutStart: real)

  /** An activity after prior suspension was released against its income. */
  datatype Activity = Activity(id: string, amount: int, active: bool)

  datatype PassiveResult = PassiveResult(
    includedIncome: int,
    allowedLoss: int,
    suspendedOut: map<string, int>,
    totalSuspended: int,
    passiveIncomeForNiit: int)

  function NetIncome(rentals: seq<Rental>): int {
    if rentals == [] then 0 else Dollars(rentals[0].netIncome) + NetIncome(rentals[1..])
  }

  // ----- step 1: release -----

  function ReleaseOf(r: Rental, suspension: map<string, int>): int {
    var cents := Dollars(r.netIncome);
    var prior := Get(suspension, r.id);
    if cents > 0 && prior > 0 then Min(cents, prior) else 0
  }

  function AfterRelease(r: Rental, suspension: map<string, int>): map<string, int> {
    var release := ReleaseOf(r, suspension);
    if release > 0 then suspension[r.id := Get(suspension, r.id) - release] else suspension
  }

  function Activities(rentals: seq<Rental>, suspension: map<string, int>): seq<Activity> {
    if rentals == [] then []
    else
      var r := rentals[0];
      [Activity(r.id, Dollars(r.netIncome) - ReleaseOf(r, suspension), r.activeParticipant)]
      + Activities(rentals[1..], AfterRelease(r, suspension))
  }

  function Remaining(rentals: seq<Rental>, suspension: map<string, int>): map<string, int> {
    if rentals == [] then suspension else Remaining(rentals[1..], AfterRelease(rentals[0], suspension))
  }

  function Total(es: seq<Activity>): int {
    if es == [] then 0 else es[0].amount + Total(es[1..])
  }

  /** What release takes out of income it takes out of the suspension. */
  lemma {:induction false} ReleaseConserves(rentals: seq<Rental>, suspension: map<string, int>)
    ensures Total(Activities(rentals, suspension)) - SumOf(Remaining(rentals, suspension)) == NetIncome(rentals) - SumOf(suspension)
  {
    if rentals != [] {
      var r := rentals[0];
      SumUpdate(suspension, r.id, Get(suspension, r.id) - ReleaseOf(r, suspension));
      ReleaseConserves(rentals[1..], AfterRelease(r, suspension));
      var rest := Activities(rentals[1..], AfterRelease(r, suspension));
      assert Activities(rentals, suspension)[1..] == rest;
    }
  }

  ghost predicate NonNegative(m: map<string, int>) {
    forall k :: k in m ==> m[k] >= 0
  }

  lemma {:induction false} ReleaseKeepsNonNegative(rentals: seq<Rental>, suspension: map<string, int>)
    requires NonNegative(suspension)
    ensures NonNegative(Remaining(rentals, suspension))
  {
    if rentals != [] {
      ReleaseKeepsNonNegative(rentals[1..], AfterRelease(rentals[0], suspension));
    }
  }

  ghost predicate Mentions(rentals: seq<Rental>, id: string) {
    exists i :: 0 <= i < |rentals| && rentals[i].id == id
  }

  lemma {:induction false} ReleaseTouchesOnlyPresent(rentals: seq<Rental>, suspension: map<string, int>, id: string)
    requires !Mentions(rentals, id)
    ensures Get(Remaining(rentals, suspension), id) == Get(suspension, id)
    ensures forall i :: 0 <= i < |Activities(rentals, suspension)| ==> Activities(rentals, suspension)[i].id != id
  {
    if rentals != [] {
      assert rentals[0].id != id;
      ReleaseTouchesOnlyPresent(rentals[1..], AfterRelease(rentals[0], suspension), id);
    }
  }

  // ----- step 2: netting and allowance -----

  predicate IsLoss(e: Activity) {
    e.amount < 0
  }

  function Losses(es: seq<Activity>): (ls: seq<Activity>)
    ensures forall i :: 0 <= i < |ls| ==> IsLoss(ls[i]) && ls[i] in es
  {
    if es == [] then []
    else (if IsLoss(es[0]) then [es[0]] else []) + Losses(es[1..])
  }

  function ActiveLosses(es: seq<Activity>): seq<Activity> {
    if es == [] then []
    else (if IsLoss(es[0]) && es[0].active then [es[0]] else []) + ActiveLosses(es[1..])
  }

  function Magnitude(es: seq<Activity>): int {
    -Total(es)
  }

  function AllowanceCap(magiExPassive: int, t: PassiveTable): (cap: int)
    ensures 0 <= cap
    ensures cap <= Max(0, Dollars(t.rentalLossAllowance))
    ensures magiExPassive <= Dollars(t.phaseOutStart) ==> cap == Max(0, Dollars(t.rentalLossAllowance))
  {
    var over := ClampMin0(magiExPassive - Dollars(t.phaseOutStart));
    assert over == 0 ==> over as real / 2.0 == 0.0;
    var reduction := Round(over as real / 2.0);
    ClampMin0(Dollars(t.rentalLossAllowance) - reduction)
  }

  function AllowanceUsable(es: seq<Activity>, magiExPassive: int, t: PassiveTable): int {
    Min(Min(Magnitude(es), Magnitude(ActiveLosses(es))), AllowanceCap(magiExPassive, t))
  }

  lemma {:induction false} TotalAppend(a: seq<Activity>, b: seq<Activity>)
    ensures Total(a + b) == Total(a) + Total(b)
  {
    if a == [] {
      assert a + b == b;
    } else {
      assert (a + b)[1..] == a[1..] + b;
      TotalAppend(a[1..], b);
    }
  }

  lemma {:induction false} LossesBound(es: seq<Activity>)
    ensures Total(Losses(es)) <= Total(es)
    ensures Total(Losses(es)) <= Total(ActiveLosses(es)) <= 0
  {
    if es != [] {
      LossesBound(es[1..]);
      var a, b := if IsLoss(es[0]) then [es[0]] else [], if IsLoss(es[0]) && es[0].active then [es[0]] else [];
      TotalAppend(a, Losses(es[1..]));
      TotalAppend(b, ActiveLosses(es[1..]));
      assert [es[0]][1..] == [];
      assert Total([es[0]]) == es[0].amount;
    }
  }

  // ----- step 3: pro-rata suspension -----

  /** The sum of the rounded shares of the first `n` losses. */
  function Assigned(ls: seq<Activity>, newly: int, n: nat): int
    requires n <= |ls| && Magnitude(ls) > 0
  {
    if n == 0 then 0 else Assigned(ls, newly, n - 1) + ShareOf(newly, -ls[n - 1].amount, Magnitude(ls))
  }

  /** The share of loss `i`: rounded, except that the last takes the residual. */
  function Share(ls: seq<Activity>, newly: int, i: nat): int
    requires i < |ls| && Magnitude(ls) > 0
  {
    if i == |ls| - 1 then newly - Assigned(ls, newly, i) else ShareOf(newly, -ls[i].amount, Magnitude(ls))
  }

  /** The record after the first `n` shares were added. */
  function Allocated(m: map<string, int>, ls: seq<Activity>, newly: int, n: nat): map<string, int>
    requires n <= |ls| && (n > 0 ==> Magnitude(ls) > 0)
  {
    if n == 0 then m
    else
      var prev := Allocated(m, ls, newly, n - 1);
      prev[ls[n - 1].id := Get(prev, ls[n - 1].id) + Share(ls, newly, n - 1)]
  }

  lemma {:induction false} AllocatedSum(m: map<string, int>, ls: seq<Activity>, newly: int, n: nat)
    requires n <= |ls| && Magnitude(ls) > 0
    ensures SumOf(Allocated(m, ls, newly, n)) == SumOf(m) + (if 0 < n == |ls| then newly else Assigned(ls, newly, n))
  {
    if n > 0 {
      AllocatedSum(m, ls, newly, n - 1);
      var prev := Allocated(m, ls, newly, n - 1);
      SumUpdate(prev, ls[n - 1].id, Get(prev, ls[n - 1].id) + Share(ls, newly, n - 1));
    }
  }

  lemma {:induction false} AllocatedTouchesOnlyLosses(m: map<string, int>, ls: seq<Activity>, newly: int, n: nat, id: string)
    requires n <= |ls| && (n > 0 ==> Magnitude(ls) > 0)
    requires forall i :: 0 <= i < n ==> ls[i].id != id
    ensures Get(Allocated(m, ls, newly, n), id) == Get(m, id)
  {
    if n > 0 {
      AllocatedTouchesOnlyLosses(m, ls, newly, n - 1, id);
    }
  }

  lemma {:induction false} AssignedDrift(ls: seq<Activity>, newly: int, n: nat)
    requires n <= |ls| && Magnitude(ls) > 0
    ensures AbsReal(Assigned(ls, newly, n) as real - ExactShare(newly, Magnitude(ls[..n]), Magnitude(ls))) <= 0.5 * n as real
  {
    if n > 0 {
      AssignedDrift(ls, newly, n - 1);
      assert ls[..n] == ls[..n - 1] + [ls[n - 1]];
      TotalAppend(ls[..n - 1], [ls[n - 1]]);
      assert [ls[n - 1]][1..] == [];
      ExactShareAdd(newly, Magnitude(ls[..n - 1]), -ls[n - 1].amount, Magnitude(ls));
      ShareWithinHalfCent(newly, -ls[n - 1].amount, Magnitude(ls));
    }
  }

  /**
   The shares sum exactly to the newly suspended amount; each but the last is within half a cent of exact; the last
   is above -(k-1)/2 cents for k losses.
   */
  lemma {:induction false} ProRataBounds(ls: seq<Activity>, newly: int, m: map<string, int>)
    requires |ls| > 0 && newly > 0 && forall i :: 0 <= i < |ls| ==> IsLoss(ls[i])
    ensures Magnitude(ls) > 0
    ensures SumOf(Allocated(m, ls, newly, |ls|)) == SumOf(m) + newly
    ensures forall i :: 0 <= i < |ls| - 1 ==>
      AbsReal(Share(ls, newly, i) as real - ExactShare(newly, -ls[i].amount, Magnitude(ls))) <= 0.5
    ensures Share(ls, newly, |ls| - 1) as real > -0.5 * (|ls| - 1) as real
  {
    MagnitudePositive(ls);
    AllocatedSum(m, ls, newly, |ls|);
    var total, last := Magnitude(ls), |ls| - 1;
    forall i | 0 <= i < last
      ensures AbsReal(Share(ls, newly, i) as real - ExactShare(newly, -ls[i].amount, total)) <= 0.5
    {
      ShareWithinHalfCent(newly, -ls[i].amount, total);
    }
    AssignedDrift(ls, newly, last);
    assert ls == ls[..last] + [ls[last]];
    TotalAppend(ls[..last], [ls[last]]);
    assert [ls[last]][1..] == [];
    ExactShareAdd(newly, Magnitude(ls[..last]), -ls[last].amount, total);
    ExactShareOfTotal(newly, total);
    ExactShareSign(newly, -ls[last].amount, total);
  }

  lemma {:induction false} MagnitudePositive(ls: seq<Activity>)
    requires forall i :: 0 <= i < |ls| ==> IsLoss(ls[i])
    ensures Magnitude(ls) >= |ls|
  {
    if ls != [] {
      MagnitudePositive(ls[1..]);
    }
  }

  /** With `k` loss activities, no share ever credits an activity with a negative suspension. */
  ghost predicate NeverNegative(k: nat) {
    forall ls: seq<Activity>, newly: int, i: nat ::
      |ls| == k && newly > 0 && (forall j :: 0 <= j < k ==> IsLoss(ls[j])) && i < k && Magnitude(ls) > 0 ==>
        Share(ls, newly, i) >= 0
  }

  /** The residual convention is safe for up to three loss activities and for no larger number. */
  lemma {:induction false} NeverNegativeExactly(k: nat)
    ensures NeverNegative(k) <==> k <= 3
  {
    if k <= 3 {
      forall ls: seq<Activity>, newly: int, i: nat |
        |ls| == k && newly > 0 && (forall j :: 0 <= j < k ==> IsLoss(ls[j])) && i < k && Magnitude(ls) > 0
        ensures Share(ls, newly, i) >= 0
      {
        ProRataBounds(ls, newly, map[]);
        ExactShareSign(newly, -ls[i].amount, Magnitude(ls));
        ShareWithinHalfCent(newly, -ls[i].amount, Magnitude(ls));
      }
    } else {
      var ls := seq(k, i => Activity("", -1, true));
      var newly := k - 2;
      UnitTotal(ls);
      UnitAssigned(ls, newly, k - 1);
      assert Share(ls, newly, k - 1) < 0;
    }
  }

  lemma {:induction false} UnitTotal(ls: seq<Activity>)
    requires forall i :: 0 <= i < |ls| ==> ls[i].amount == -1
    ensures Magnitude(ls) == |ls|
  {
    if ls != [] {
      UnitTotal(ls[1..]);
    }
  }

  lemma {:induction false} UnitShare(newly: int, total: int)
    requires 0 < total <= 2 * newly < 3 * total
    ensures ShareOf(newly, 1, total) == 1
  {
    assert newly * 1 == newly;
    QuotientBetween(newly as real, total as real);
  }

  lemma {:induction false} QuotientBetween(n: real, k: real)
    requires k > 0.0 && 0.5 * k <= n < 1.5 * k
    ensures 0.5 <= n / k < 1.5
  {
    var q := n / k;
    assert q * k == n;
  }

  lemma {:induction false} UnitAssigned(ls: seq<Activity>, newly: int, n: nat)
    requires n <= |ls| <= 2 * newly < 3 * |ls|
    requires Magnitude(ls) == |ls| && forall i :: 0 <= i < |ls| ==> ls[i].amount == -1
    ensures Assigned(ls, newly, n) == n
  {
    if n > 0 {
      UnitAssigned(ls, newly, n - 1);
      UnitShare(newly, |ls|);
    }
  }

  // ----- the whole computation -----

  /** The record after `newly` was suspended over the losses. */
  function Suspended(remaining: map<string, int>, ls: seq<Activity>, newly: int): map<string, int> {
    if newly > 0 && Magnitude(ls) > 0 then Allocated(remaining, ls, newly, |ls|) else remaining
  }

  function IncludedIncome(rentals: seq<Rental>, suspendedIn: map<string, int>, magiExPassive: int, t: PassiveTable): int {
    var es := Activities(rentals, suspendedIn);
    if Total(es) >= 0 then Total(es) else -AllowanceUsable(es, magiExPassive, t)
  }

  /** What is newly suspended: the net loss beyond the allowance. */
  function NewlySuspended(es: seq<Activity>, magiExPassive: int, t: PassiveTable): int {
    if Total(es) >= 0 then 0 else Magnitude(es) - AllowanceUsable(es, magiExPassive, t)
  }

  function SuspendedOut(rentals: seq<Rental>, suspendedIn: map<string, int>, magiExPassive: int, t: PassiveTable): map<string, int> {
    var es := Activities(rentals, suspendedIn);
    Suspended(Remaining(rentals, suspendedIn), Losses(es), NewlySuspended(es, magiExPassive, t))
  }

  /**
   Conservation, in every branch and exactly in cents: included income minus total suspended out equals net rental
   income minus total suspended in.
   */
  lemma {:induction false} PassiveConserves(rentals: seq<Rental>, suspendedIn: map<string, int>, magiExPassive: int, t: PassiveTable)
    ensures IncludedIncome(rentals, suspendedIn, magiExPassive, t) - SumOf(SuspendedOut(rentals, suspendedIn, magiExPassive, t))
      == NetIncome(rentals) - SumOf(suspendedIn)
  {
    ReleaseConserves(rentals, suspendedIn);
    var es := Activities(rentals, suspendedIn);
    LossesBound(es);
    var newly := NewlySuspended(es, magiExPassive, t);
    if newly > 0 {
      ProRataBounds(Losses(es), newly, Remaining(rentals, suspendedIn));
    }
  }

  // ----- when a suspension goes below zero -----

  /** No year with `k` loss activities that starts from non-negative suspensions leaves a negative one. */
  ghost predicate SuspensionsStayNonNegative(magiExPassive: int, t: PassiveTable, k: nat) {
    forall rentals: seq<Rental>, suspendedIn: map<string, int>
      | NonNegative(suspendedIn) && |Losses(Activities(rentals, suspendedIn))| == k ::
      NonNegative(SuspendedOut(rentals, suspendedIn, magiExPassive, t))
  }

  lemma {:induction false} FewLossesStayNonNegative(m: map<string, int>, ls: seq<Activity>, newly: int, n: nat)
    requires n <= |ls| <= 3 && newly > 0 && NonNegative(m) && Magnitude(ls) > 0
    requires forall i :: 0 <= i < |ls| ==> IsLoss(ls[i])
    ensures NonNegative(Allocated(m, ls, newly, n))
  {
    if n > 0 {
      FewLossesStayNonNegative(m, ls, newly, n - 1);
      NeverNegativeExactly(|ls|);
      assert Share(ls, newly, n - 1) >= 0;
    }
  }

  /** `n` distinct activities that each lost a cent, and one that earned two. */
  function PennyRentals(n: nat): seq<Rental> {
    if n == 0 then [Rental("", 0.02, false)] else [Rental(Name(n), -0.01, false)] + PennyRentals(n - 1)
  }

  function Name(n: nat): (s: string)
    ensures |s| == n
  {
    seq(n, i => 'x')
  }

  function Pennies(n: nat): (es: seq<Activity>)
    ensures |es| == n
    ensures forall i :: 0 <= i < n ==> es[i] == Activity(Name(n - i), -1, false)
  {
    if n == 0 then [] else [Activity(Name(n), -1, false)] + Pennies(n - 1)
  }

  lemma {:induction false} PennyActivities(n: nat)
    ensures Activities(PennyRentals(n), map[]) == Pennies(n) + [Activity("", 2, false)]
    ensures Remaining(PennyRentals(n), map[]) == map[]
  {
    assert Dollars(-0.01) == -1 && Dollars(0.02) == 2;
    if n > 0 {
      PennyActivities(n - 1);
      assert PennyRentals(n)[1..] == PennyRentals(n - 1);
    }
  }

  lemma {:induction false} PennyLosses(n: nat)
    ensures
      var es := Pennies(n) + [Activity("", 2, false)];
      Losses(es) == Pennies(n) && ActiveLosses(es) == [] && Total(es) == 2 - n
  {
    var es := Pennies(n) + [Activity("", 2, false)];
    if n == 0 {
      assert es[1..] == [];
    } else {
      PennyLosses(n - 1);
      assert es[1..] == Pennies(n - 1) + [Activity("", 2, false)];
    }
  }

  /** The net loss of k - 2 cents is suspended whole, since no activity is an active one. */
  lemma {:induction false} PennySuspended(k: nat, magiExPassive: int, t: PassiveTable)
    requires k >= 4
    ensures |Losses(Activities(PennyRentals(k), map[]))| == k
    ensures Magnitude(Pennies(k)) == k
    ensures SuspendedOut(PennyRentals(k), map[], magiExPassive, t) == Allocated(map[], Pennies(k), k - 2, k)
  {
    PennyActivities(k);
    PennyLosses(k);
    UnitTotal(Pennies(k));
    var es := Pennies(k) + [Activity("", 2, false)];
    NothingAllowed(es, magiExPassive, t);
    SuspendedIs(PennyRentals(k), es, Pennies(k), k - 2, magiExPassive, t);
  }

  /** A year in which nothing is released, from its netted activities. */
  lemma {:induction false} SuspendedIs(rentals: seq<Rental>, es: seq<Activity>, ls: seq<Activity>, newly: int, magiExPassive: int, t: PassiveTable)
    requires Activities(rentals, map[]) == es && Remaining(rentals, map[]) == map[] && Losses(es) == ls
    requires NewlySuspended(es, magiExPassive, t) == newly > 0 && Magnitude(ls) > 0
    ensures SuspendedOut(rentals, map[], magiExPassive, t) == Allocated(map[], ls, newly, |ls|)
  {}

  lemma {:induction false} NothingAllowed(es: seq<Activity>, magiExPassive: int, t: PassiveTable)
    requires Total(es) < 0 && ActiveLosses(es) == []
    ensures NewlySuspended(es, magiExPassive, t) == Magnitude(es)
  {
    assert Magnitude([]) == 0;
    assert AllowanceCap(magiExPassive, t) >= 0;
  }

  /** Rounding credits all but the last with a cent each, one cent too much. */
  lemma {:induction false} PennyResidual(k: nat)
    requires k >= 4 && Magnitude(Pennies(k)) == k
    ensures Name(1) in Allocated(map[], Pennies(k), k - 2, k) && Allocated(map[], Pennies(k), k - 2, k)[Name(1)] == -1
  {
    var ls := Pennies(k);
    UnitAssigned(ls, k - 2, k - 1);
    AllocatedTouchesOnlyLosses(map[], ls, k - 2, k - 1, Name(1));
    assert ls[k - 1].id == Name(1);
    assert Share(ls, k - 2, k - 1) == -1;
  }

  /**
   The last loss activity takes the rounding residual. Whatever the table and the income, that never leaves a negative
   suspension with up to three loss activities, and can with any larger number.
   */
  lemma {:induction false} SuspensionNeverNegativeExactly(magiExPassive: int, t: PassiveTable, k: nat)
    ensures SuspensionsStayNonNegative(magiExPassive, t, k) <==> k <= 3
  {
    if k <= 3 {
      forall rentals: seq<Rental>, suspendedIn: map<string, int>
        | NonNegative(suspendedIn) && |Losses(Activities(rentals, suspendedIn))| == k
        ensures NonNegative(SuspendedOut(rentals, suspendedIn, magiExPassive, t))
      {
        ReleaseKeepsNonNegative(rentals, suspendedIn);
        var es := Activities(rentals, suspendedIn);
        var newly := NewlySuspended(es, magiExPassive, t);
        if newly > 0 && Magnitude(Losses(es)) > 0 {
          FewLossesStayNonNegative(Remaining(rentals, suspendedIn), Losses(es), newly, k);
        }
      }
    } else {
      PennySuspended(k, magiExPassive, t);
      PennyResidual(k);
      assert !NonNegative(SuspendedOut(PennyRentals(k), map[], magiExPassive, t));
    }
  }

  /** It happens with whole dollars too: four rentals at -$1 each, deep in the phase-out range of a $25,000 allowance. */
  lemma {:induction false} FourEqualLosses()
    ensures
      var rentals := [Rental("a", -1.0, true), Rental("b", -1.0, true), Rental("c", -1.0, true), Rental("d", -1.0, true)];
      SuspendedOut(rentals, map[], 14999204, PassiveTable(25000.0, 100000.0)) == map["a" := 1, "b" := 1, "c" := 1, "d" := -1]
  {
    var rentals := [Rental("a", -1.0, true), Rental("b", -1.0, true), Rental("c", -1.0, true), Rental("d", -1.0, true)];
    var t := PassiveTable(25000.0, 100000.0);
    var es := [Activity("a", -100, true), Activity("b", -100, true), Activity("c", -100, true), Activity("d", -100, true)];
    FourActivities(rentals, es);
    FourTotals(es);
    SmallAllowance();
    assert NewlySuspended(es, 14999204, t) == 2;
    SuspendedIs(rentals, es, es, 2, 14999204, t);
    FourShares(es);
  }

  lemma {:induction false} SmallAllowance()
    ensures AllowanceCap(14999204, PassiveTable(25000.0, 100000.0)) == 398
  {}

  lemma {:induction false} FourActivities(rentals: seq<Rental>, es: seq<Activity>)
    requires |rentals| == |es|
    requires forall i :: 0 <= i < |es| ==> rentals[i] == Rental(es[i].id, -1.0, true) && es[i].amount == -100 && es[i].active
    ensures Activities(rentals, map[]) == es && Remaining(rentals, map[]) == map[]
  {
    if es != [] {
      FourActivities(rentals[1..], es[1..]);
      assert es == [es[0]] + es[1..];
    }
  }

  lemma {:induction false} FourTotals(es: seq<Activity>)
    requires forall i :: 0 <= i < |es| ==> es[i].amount == -100 && es[i].active
    ensures Losses(es) == es && ActiveLosses(es) == es && Magnitude(es) == 100 * |es|
  {
    if es != [] {
      FourTotals(es[1..]);
      assert es == [es[0]] + es[1..];
    }
  }

  lemma {:induction false} FourShares(es: seq<Activity>)
    requires |es| == 4 && Magnitude(es) == 400
    requires forall i :: 0 <= i < 4 ==> es[i].amount == -100
    requires es[0].id == "a" && es[1].id == "b" && es[2].id == "c" && es[3].id == "d"
    ensures Allocated(map[], es, 2, 4) == map["a" := 1, "b" := 1, "c" := 1, "d" := -1]
  {
    assert ShareOf(2, 100, 400) == 1;
    assert Assigned(es, 2, 0) == 0 && Assigned(es, 2, 1) == 1 && Assigned(es, 2, 2) == 2 && Assigned(es, 2, 3) == 3;
    assert Allocated(map[], es, 2, 1) == map["a" := 1];
    assert Allocated(map[], es, 2, 2) == map["a" := 1, "b" := 1];
    assert Allocated(map[], es, 2, 3) == map["a" := 1, "b" := 1, "c" := 1];
  }

  /** An activity that is absent this year keeps its suspension untouched. */
  lemma {:induction false} AbsentActivitiesUntouched(rentals: seq<Rental>, suspendedIn: map<string, int>, magiExPassive: int, t: PassiveTable, id: string)
    requires !Mentions(rentals, id)
    ensures Get(SuspendedOut(rentals, suspendedIn, magiExPassive, t), id) == Get(suspendedIn, id)
  {
    ReleaseTouchesOnlyPresent(rentals, suspendedIn, id);
    var es := Activities(rentals, suspendedIn);
    var ls := Losses(es);
    if Magnitude(ls) > 0 {
      AllocatedTouchesOnlyLosses(Remaining(rentals, suspendedIn), ls, NewlySuspended(es, magiExPassive, t), |ls|, id);
    }
  }

  /** The first `i` rentals have been released: what the whole list yields is what they did plus what the others will. */
  ghost predicate ReleasedUpTo(rentals: seq<Rental>, suspendedIn: map<string, int>, i: nat, effective: seq<Activity>, remaining: map<string, int>)
    requires i <= |rentals|
  {
    && Activities(rentals, suspendedIn) == effective + Activities(rentals[i..], remaining)
    && Remaining(rentals, suspendedIn) == Remaining(rentals[i..], remaining)
  }

  lemma {:induction false} ReleaseStep(rentals: seq<Rental>, suspendedIn: map<string, int>, i: nat, effective: seq<Activity>, remaining: map<string, int>)
    requires i < |rentals| && ReleasedUpTo(rentals, suspendedIn, i, effective, remaining)
    ensures
      var r := rentals[i];
      var next := Activity(r.id, Dollars(r.netIncome) - ReleaseOf(r, remaining), r.activeParticipant);
      ReleasedUpTo(rentals, suspendedIn, i + 1, effective + [next], AfterRelease(r, remaining))
  {
    var r := rentals[i];
    assert rentals[i..][0] == r && rentals[i..][1..] == rentals[i + 1..];
    var next := Activity(r.id, Dollars(r.netIncome) - ReleaseOf(r, remaining), r.activeParticipant);
    var rest := Activities(rentals[i + 1..], AfterRelease(r, remaining));
    assert effective + ([next] + rest) == (effective + [next]) + rest;
  }

  lemma {:induction false} ReleaseEnd(rentals: seq<Rental>, suspendedIn: map<string, int>, effective: seq<Activity>, remaining: map<string, int>)
    requires ReleasedUpTo(rentals, suspendedIn, |rentals|, effective, remaining)
    ensures effective == Activities(rentals, suspendedIn) && remaining == Remaining(rentals, suspendedIn)
  {
    assert rentals[|rentals|..] == [];
    assert effective + [] == effective;
  }

  /** Step 1 of ComputePassive: the loop over the rentals. */
  method ReleaseSuspension(rentals: seq<Rental>, suspendedIn: map<string, int>)
    returns (effective: seq<Activity>, remaining: map<string, int>)
    ensures effective == Activities(rentals, suspendedIn)
    ensures remaining == Remaining(rentals, suspendedIn)
  {
    effective, remaining := [], suspendedIn;
    assert rentals[0..] == rentals;
    for i := 0 to |rentals|
      invariant ReleasedUpTo(rentals, suspendedIn, i, effective, remaining)
    {
      var r := rentals[i];
      ReleaseStep(rentals, suspendedIn, i, effective, remaining);
      var cents := Dollars(r.netIncome);
      var prior := Get(remaining, r.id);
      if cents > 0 && prior > 0 {
        var release := Min(cents, prior);
        remaining := remaining[r.id := prior - release];
        effective := effective + [Activity(r.id, cents - release, r.activeParticipant)];
      } else {
        effective := effective + [Activity(r.id, cents, r.activeParticipant)];
      }
    }
    ReleaseEnd(rentals, suspendedIn, effective, remaining);
  }

  /** Step 3 of ComputePassive: the loop over the loss activities. */
  method SuspendProRata(remaining: map<string, int>, ls: seq<Activity>, newly: int) returns (out: map<string, int>)
    requires Magnitude(ls) > 0
    ensures out == Allocated(remaining, ls, newly, |ls|)
  {
    out := remaining;
    var handedOut := 0;
    for i := 0 to |ls|
      invariant i < |ls| ==> handedOut == Assigned(ls, newly, i)
      invariant out == Allocated(remaining, ls, newly, i)
    {
      var e := ls[i];
      var share := if i == |ls| - 1 then newly - handedOut else ShareOf(newly, -e.amount, Magnitude(ls));
      out := out[e.id := Get(out, e.id) + share];
      handedOut := handedOut + share;
    }
  }

  method ComputePassive(rentals: seq<Rental>, suspendedIn: map<string, int>, magiExPassive: int, t: PassiveTable)
    returns (r: PassiveResult)
    ensures r.includedIncome == IncludedIncome(rentals, suspendedIn, magiExPassive, t)
    ensures r.suspendedOut == SuspendedOut(rentals, suspendedIn, magiExPassive, t)
    ensures r.includedIncome - r.totalSuspended == NetIncome(rentals) - SumOf(suspendedIn)
    ensures r.totalSuspended == SumOf(r.suspendedOut)
    ensures r.allowedLoss == Max(0, -r.includedIncome) && r.passiveIncomeForNiit == Max(0, r.includedIncome)
    ensures r.allowedLoss <= AllowanceCap(magiExPassive, t)
  {
    PassiveConserves(rentals, suspendedIn, magiExPassive, t);
    if rentals == [] {
      var total := Totals.Total(suspendedIn);
      return PassiveResult(0, 0, suspendedIn, total, 0);
    }

    var effective, remaining := ReleaseSuspension(rentals, suspendedIn);
    var totalEffective := Total(effective);
    if totalEffective >= 0 {
      var total := Totals.Total(remaining);
      return PassiveResult(totalEffective, 0, remaining, total, totalEffective);
    }

    AllowanceUsableBound(effective, magiExPassive, t);
    var allowanceUsable, suspendedOut := SuspendNetLoss(effective, remaining, magiExPassive, t);
    var total := Totals.Total(suspendedOut);
    return PassiveResult(-allowanceUsable, allowanceUsable, suspendedOut, total, 0);
  }

  lemma {:induction false} AllowanceUsableBound(es: seq<Activity>, magiExPassive: int, t: PassiveTable)
    requires Total(es) < 0
    ensures 0 <= AllowanceUsable(es, magiExPassive, t) <= AllowanceCap(magiExPassive, t)
  {
    LossesBound(es);
  }

  /** The net-loss branch: what the allowance absorbs, and the rest suspended. */
  method SuspendNetLoss(effective: seq<Activity>, remaining: map<string, int>, magiExPassive: int, t: PassiveTable)
    returns (allowanceUsable: int, suspendedOut: map<string, int>)
    requires Total(effective) < 0
    ensures allowanceUsable == AllowanceUsable(effective, magiExPassive, t)
    ensures suspendedOut == Suspended(remaining, Losses(effective), NewlySuspended(effective, magiExPassive, t))
  {
    var netLoss := -Total(effective);
    var allowanceCap := AllowanceCap(magiExPassive, t);
    var activeLoss := Magnitude(ActiveLosses(effective));
    allowanceUsable := Min(Min(netLoss, activeLoss), allowanceCap);
    var newlySuspended := netLoss - allowanceUsable;
    var lossActivities := Losses(effective);
    suspendedOut := remaining;
    if newlySuspended > 0 && Magnitude(lossActivities) > 0 {
      suspendedOut := SuspendProRata(remaining, lossActivities, newlySuspended);
    }
  }
}
