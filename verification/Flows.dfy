/** Entity flow-through of compute-year.ts: owner wages, the employer FICA split and the PTET allocation. All cents. */
module Flows {
  import opened Money
  import opened ProRata

  datatype Kind = ScheduleC | SCorp | Partnership

  datatype Business = Business(
    kind: Kind,
    netProfit: real,
    employeeWages: real,
    ownerWages: real,
    sstb: bool,
    qbiEligible: bool)

  function OwnerWages(b: Business): int {
    Dollars(b.ownerWages)
  }

  function OwnerWagesTotal(bs: seq<Business>): int {
    if bs == [] then 0 else OwnerWages(bs[0]) + OwnerWagesTotal(bs[1..])
  }

  /** Flow before any entity-level split: an S corp deducts its owner's wages. */
  function BaseFlow(b: Business): int {
    Dollars(b.netProfit) - (if b.kind == SCorp then OwnerWages(b) else 0)
  }

  function BaseFlows(bs: seq<Business>): seq<int> {
    seq(|bs|, i requires 0 <= i < |bs| => BaseFlow(bs[i]))
  }

  /** The employer half of owner FICA is split over the positive owner wages. */
  function WageWeights(bs: seq<Business>): seq<int> {
    seq(|bs|, i requires 0 <= i < |bs| => ClampMin0(OwnerWages(bs[i])))
  }

  function FlowsAfterFica(bs: seq<Business>, employerHalf: int): (flows: seq<int>)
    ensures |flows| == |bs|
  {
    var ws := WageWeights(bs);
    if employerHalf <= 0 || Sum(ws) <= 0 then BaseFlows(bs)
    else seq(|bs|, i requires 0 <= i < |bs| => BaseFlow(bs[i]) - ShareOf(employerHalf, ws[i], Sum(ws)))
  }

  predicate Electable(b: Business) {
    b.kind == SCorp || b.kind == Partnership
  }

  /** PTET is split over the positive flows of the entities that can elect it. */
  function PtetWeights(bs: seq<Business>, flows: seq<int>): seq<int>
    requires |flows| == |bs|
  {
    seq(|bs|, i requires 0 <= i < |bs| => if Electable(bs[i]) then ClampMin0(flows[i]) else 0)
  }

  function FirstOfKind(bs: seq<Business>, k: Kind): (i: nat)
    ensures i <= |bs|
    ensures i < |bs| ==> bs[i].kind == k
    ensures forall j :: 0 <= j < i ==> bs[j].kind != k
  {
    if bs == [] || bs[0].kind == k then 0 else 1 + FirstOfKind(bs[1..], k)
  }

  /** In a loss year the election deepens one entity's loss: the first S corp, else the first partnership. */
  function LossYearTarget(bs: seq<Business>): nat {
    var s := FirstOfKind(bs, SCorp);
    if s < |bs| then s else FirstOfKind(bs, Partnership)
  }

  function FlowsAfterPtet(bs: seq<Business>, flows: seq<int>, ptetPaid: int): (after: seq<int>)
    requires |flows| == |bs|
    ensures |after| == |bs|
  {
    var ws := PtetWeights(bs, flows);
    if ptetPaid <= 0 then flows
    else if Sum(ws) > 0 then seq(|bs|, i requires 0 <= i < |bs| => flows[i] - ShareOf(ptetPaid, ws[i], Sum(ws)))
    else if LossYearTarget(bs) < |bs| then flows[LossYearTarget(bs) := flows[LossYearTarget(bs)] - ptetPaid]
    else flows
  }

  // ----- what the splits keep -----

  lemma {:induction false} SumOfDifferences(a: seq<int>, b: seq<int>, d: seq<int>)
    requires |a| == |b| == |d| && forall i :: 0 <= i < |a| ==> d[i] == a[i] - b[i]
    ensures Sum(d) == Sum(a) - Sum(b)
  {
    if a != [] {
      SumOfDifferences(a[1..], b[1..], d[1..]);
    }
  }

  lemma {:induction false} SumOfUpdate(a: seq<int>, i: nat, v: int)
    requires i < |a|
    ensures Sum(a[i := v]) == Sum(a) - a[i] + v
  {
    if i == 0 {
      assert a[i := v][1..] == a[1..];
    } else {
      assert a[i := v][1..] == a[1..][i - 1 := v];
      SumOfUpdate(a[1..], i - 1, v);
    }
  }

  /** A Schedule C flow never changes because of somebody else's PTET. */
  lemma {:induction false} PtetNeverTouchesScheduleC(bs: seq<Business>, flows: seq<int>, ptetPaid: int, i: nat)
    requires |flows| == |bs| && i < |bs| && bs[i].kind == ScheduleC
    ensures FlowsAfterPtet(bs, flows, ptetPaid)[i] == flows[i]
  {
    if Sum(PtetWeights(bs, flows)) > 0 {
      ShareWithinHalfCent(ptetPaid, 0, Sum(PtetWeights(bs, flows)));
    }
  }

  function PtetDeducted(bs: seq<Business>, flows: seq<int>, ptetPaid: int): int
    requires |flows| == |bs|
  {
    Sum(flows) - Sum(FlowsAfterPtet(bs, flows, ptetPaid))
  }

  /** In a profitable year the amount paid is deducted, within half a cent per recipient. */
  lemma {:induction false} PtetIsSplit(bs: seq<Business>, flows: seq<int>, ptetPaid: int)
    requires |flows| == |bs| && ptetPaid > 0 && Sum(PtetWeights(bs, flows)) > 0
    ensures AbsReal((PtetDeducted(bs, flows, ptetPaid) - ptetPaid) as real) <= 0.5 * Recipients(PtetWeights(bs, flows)) as real
  {
    var ws := PtetWeights(bs, flows);
    SharesDrift(ptetPaid, ws);
    SumOfDifferences(flows, Shares(ptetPaid, ws, Sum(ws)), FlowsAfterPtet(bs, flows, ptetPaid));
  }

  /** In a loss year the whole amount is deducted exactly when some entity could elect; otherwise nothing is. */
  lemma {:induction false} PtetInLossYear(bs: seq<Business>, flows: seq<int>, ptetPaid: int)
    requires |flows| == |bs| && ptetPaid > 0 && Sum(PtetWeights(bs, flows)) <= 0
    ensures PtetDeducted(bs, flows, ptetPaid) == if exists i :: 0 <= i < |bs| && Electable(bs[i]) then ptetPaid else 0
  {
    var i := LossYearTarget(bs);
    if i < |bs| {
      assert Electable(bs[i]);
      SumOfUpdate(flows, i, flows[i] - ptetPaid);
    }
  }

  /** The employer half is charged to the paying entities, within half a cent per payer. */
  lemma {:induction false} FicaIsCharged(bs: seq<Business>, employerHalf: int)
    requires employerHalf > 0 && Sum(WageWeights(bs)) > 0
    ensures
      AbsReal((Sum(BaseFlows(bs)) - Sum(FlowsAfterFica(bs, employerHalf)) - employerHalf) as real)
        <= 0.5 * Recipients(WageWeights(bs)) as real
  {
    var ws := WageWeights(bs);
    SharesDrift(employerHalf, ws);
    SumOfDifferences(BaseFlows(bs), Shares(employerHalf, ws, Sum(ws)), FlowsAfterFica(bs, employerHalf));
  }

  // ----- the steps of the source -----

  method PositiveTotal(ws: seq<int>) returns (total: int)
    ensures total == Sum(ws)
  {
    total := 0;
    assert ws[0..] == ws;
    for i := 0 to |ws|
      invariant total + Sum(ws[i..]) == Sum(ws)
    {
      assert ws[i..][1..] == ws[i + 1..];
      total := total + ws[i];
    }
  }

  /** What entity `i` bears of the employer half: nothing without owner wages, else its pro-rata share. */
  lemma {:induction false} FicaShare(bs: seq<Business>, employerHalf: int, total: int, i: nat)
    requires i < |bs| && total > 0
    ensures ShareOf(employerHalf, WageWeights(bs)[i], total)
      == if OwnerWages(bs[i]) > 0 then ShareOf(employerHalf, OwnerWages(bs[i]), total) else 0
  {
    ShareWithinHalfCent(employerHalf, WageWeights(bs)[i], total);
  }

  /** `flow` holds one cell per business and is updated in place by the FICA split. */
  method ChargeEmployerFica(bs: seq<Business>, employerHalf: int, flow: array<int>)
    requires flow.Length == |bs| && flow[..] == BaseFlows(bs)
    modifies flow
    ensures flow[..] == FlowsAfterFica(bs, employerHalf)
  {
    var ws := WageWeights(bs);
    var totalOwnerWages := PositiveTotal(ws);
    if employerHalf > 0 && totalOwnerWages > 0 {
      for i := 0 to |bs|
        invariant forall j :: 0 <= j < i ==> flow[j] == BaseFlow(bs[j]) - ShareOf(employerHalf, ws[j], totalOwnerWages)
        invariant forall j :: i <= j < |bs| ==> flow[j] == BaseFlow(bs[j])
      {
        FicaShare(bs, employerHalf, totalOwnerWages, i);
        if OwnerWages(bs[i]) > 0 {
          flow[i] := flow[i] - ShareOf(employerHalf, OwnerWages(bs[i]), totalOwnerWages);
        }
      }
    }
  }

  /** What entity `i` bears: nothing without a positive flow or for a Schedule C, else its pro-rata share. */
  lemma {:induction false} PtetShare(bs: seq<Business>, flows: seq<int>, ptetPaid: int, total: int, i: nat)
    requires |flows| == |bs| && i < |bs| && total > 0
    ensures ShareOf(ptetPaid, PtetWeights(bs, flows)[i], total)
      == if flows[i] <= 0 || bs[i].kind == ScheduleC then 0 else ShareOf(ptetPaid, flows[i], total)
  {
    ShareWithinHalfCent(ptetPaid, PtetWeights(bs, flows)[i], total);
  }

  method AllocatePtet(bs: seq<Business>, preFlow: seq<int>, ptetPaid: int) returns (flows: seq<int>)
    requires |preFlow| == |bs|
    ensures flows == FlowsAfterPtet(bs, preFlow, ptetPaid)
  {
    flows := preFlow;
    var ws := PtetWeights(bs, flows);
    var electablePositiveTotal := PositiveTotal(ws);
    if ptetPaid > 0 {
      if electablePositiveTotal > 0 {
        forall i | 0 <= i < |bs| {
          PtetShare(bs, preFlow, ptetPaid, electablePositiveTotal, i);
        }
        flows := seq(|bs|, i requires 0 <= i < |bs| =>
          if preFlow[i] <= 0 || bs[i].kind == ScheduleC then preFlow[i]
          else preFlow[i] - ShareOf(ptetPaid, preFlow[i], electablePositiveTotal));
      } else {
        var target := LossYearTarget(bs);
        if target < |bs| {
          flows := flows[target := flows[target] - ptetPaid];
        }
      }
    }
  }

  method AllocateFlows(bs: seq<Business>, employerHalf: int, ptetPaid: int) returns (flows: seq<int>)
    ensures flows == FlowsAfterPtet(bs, FlowsAfterFica(bs, employerHalf), ptetPaid)
  {
    var preFlow := new int[|bs|](i requires 0 <= i < |bs| => BaseFlow(bs[i]));
    assert preFlow[..] == BaseFlows(bs);
    ChargeEmployerFica(bs, employerHalf, preFlow);
    flows := AllocatePtet(bs, preFlow[..], ptetPaid);
  }
}
