/** Bracket tax and preferential stacking of brackets.ts. */
module Brackets {
  import opened Wrappers
  import opened Money

  /** A table row: `upTo` is the ceiling in dollars; None is the open last row. */
  datatype BracketRow = BracketRow(rate: real, upTo: Option<real>)

  /** A row with its ceiling in cents. */
  datatype Row = Row(rate: real, ceiling: Option<int>)

  function RowInCents(row: BracketRow): Row {
    Row(row.rate, if row.upTo.None? then None else Some(Dollars(row.upTo.value)))
  }

  function TableInCents(rows: seq<BracketRow>): seq<Row> {
    seq(|rows|, i requires 0 <= i < |rows| => RowInCents(rows[i]))
  }

  /** The part of [0, x] below the ceiling of a row. */
  function Below(row: Row, x: int): int {
    if row.ceiling.None? then x else Min(row.ceiling.value, x)
  }

  predicate Covers(row: Row, x: int) {
    row.ceiling.None? || x < row.ceiling.value
  }

  predicate LastRowOpen(rows: seq<Row>) {
    |rows| > 0 && rows[|rows| - 1].ceiling.None?
  }

  /** The documented table shape: ceilings ascend from zero and only the last row is open. */
  predicate Ascending(rows: seq<Row>, floor: int) {
    if rows == [] then false
    else if rows[0].ceiling.None? then |rows| == 1
    else floor <= rows[0].ceiling.value && Ascending(rows[1..], rows[0].ceiling.value)
  }

  // ----- reference meaning: every cent is taxed at the rate of the first row that covers it -----

  /** Marginal rate of cent number `c`, counted from 0. */
  ghost function MarginalRate(rows: seq<Row>, c: int): real
    requires LastRowOpen(rows)
  {
    if Covers(rows[0], c) then rows[0].rate else MarginalRate(rows[1..], c)
  }

  /** Exact tax on the cents from `lo` up to, not including, `hi`. */
  ghost function ExactTax(rows: seq<Row>, lo: int, hi: int): real
    requires LastRowOpen(rows)
    decreases hi - lo
  {
    if lo >= hi then 0.0 else MarginalRate(rows, lo) + ExactTax(rows, lo + 1, hi)
  }

  lemma {:induction false} ExactTaxSplit(rows: seq<Row>, lo: int, mid: int, hi: int)
    requires LastRowOpen(rows) && lo <= mid <= hi
    ensures ExactTax(rows, lo, hi) == ExactTax(rows, lo, mid) + ExactTax(rows, mid, hi)
    decreases mid - lo
  {
    if lo < mid {
      ExactTaxSplit(rows, lo + 1, mid, hi);
    }
  }

  lemma {:induction false} OneMoreCent(n: int, rate: real)
    ensures (n + 1) as real * rate == rate + n as real * rate
  {
    assert (n + 1) as real == n as real + 1.0;
  }

  lemma {:induction false} ExactTaxInFirstRow(rows: seq<Row>, lo: int, hi: int)
    requires LastRowOpen(rows) && lo <= hi
    requires lo < hi ==> Covers(rows[0], hi - 1)
    ensures ExactTax(rows, lo, hi) == (hi - lo) as real * rows[0].rate
    decreases hi - lo
  {
    if lo < hi {
      ExactTaxInFirstRow(rows, lo + 1, hi);
      OneMoreCent(hi - lo - 1, rows[0].rate);
    }
  }

  lemma {:induction false} ExactTaxSkipRow(rows: seq<Row>, lo: int, hi: int)
    requires LastRowOpen(rows) && !Covers(rows[0], lo)
    ensures ExactTax(rows, lo, hi) == ExactTax(rows[1..], lo, hi)
    decreases hi - lo
  {
    if lo < hi {
      ExactTaxSkipRow(rows, lo + 1, hi);
    }
  }

  // ----- layers -----

  datatype Layer = Layer(width: int, rate: real)

  /** The slices of [lo, hi] that fall to each row, lowest first. */
  function Layers(rows: seq<Row>, lo: int, hi: int): seq<Layer> {
    if rows == [] || lo >= hi then []
    else
      var end := Below(rows[0], hi);
      if end > lo then [Layer(end - lo, rows[0].rate)] + Layers(rows[1..], end, hi)
      else Layers(rows[1..], lo, hi)
  }

  function TotalWidth(layers: seq<Layer>): int {
    if layers == [] then 0 else layers[0].width + TotalWidth(layers[1..])
  }

  /** Tax with each layer rounded to the cent. */
  function TaxOf(layers: seq<Layer>): int {
    if layers == [] then 0 else MulRate(layers[0].width, layers[0].rate) + TaxOf(layers[1..])
  }

  ghost function UnroundedTaxOf(layers: seq<Layer>): real {
    if layers == [] then 0.0 else layers[0].width as real * layers[0].rate + UnroundedTaxOf(layers[1..])
  }

  lemma {:induction false} LayersFirst(l: Layer, rest: seq<Layer>)
    ensures TotalWidth([l] + rest) == l.width + TotalWidth(rest)
    ensures TaxOf([l] + rest) == MulRate(l.width, l.rate) + TaxOf(rest)
    ensures UnroundedTaxOf([l] + rest) == l.width as real * l.rate + UnroundedTaxOf(rest)
  {
    assert ([l] + rest)[1..] == rest;
  }

  /** The layers tile [lo, hi] exactly: widths add up, and unrounded they are the cent-by-cent tax. */
  lemma {:induction false} LayersTile(rows: seq<Row>, lo: int, hi: int)
    requires LastRowOpen(rows) && lo <= hi
    ensures TotalWidth(Layers(rows, lo, hi)) == hi - lo
    ensures UnroundedTaxOf(Layers(rows, lo, hi)) == ExactTax(rows, lo, hi)
    ensures |Layers(rows, lo, hi)| <= |rows|
    ensures forall i :: 0 <= i < |Layers(rows, lo, hi)| ==> Layers(rows, lo, hi)[i].width > 0
  {
    if lo < hi {
      var end := Below(rows[0], hi);
      if end > lo {
        LayersFirst(Layer(end - lo, rows[0].rate), Layers(rows[1..], end, hi));
        ExactTaxSplit(rows, lo, end, hi);
        ExactTaxInFirstRow(rows, lo, end);
        if end < hi {
          LayersTile(rows[1..], end, hi);
          ExactTaxSkipRow(rows, end, hi);
        }
      } else {
        LayersTile(rows[1..], lo, hi);
        ExactTaxSkipRow(rows, lo, hi);
      }
    }
  }

  lemma {:induction false} LayersWithinHalfCent(layers: seq<Layer>)
    ensures AbsReal(TaxOf(layers) as real - UnroundedTaxOf(layers)) <= 0.5 * |layers| as real
  {
    if layers != [] {
      LayersWithinHalfCent(layers[1..]);
    }
  }

  predicate NonNegativeRates(rows: seq<Row>) {
    forall i :: 0 <= i < |rows| ==> rows[i].rate >= 0.0
  }

  /** Rounded bracket tax is exactly monotone: more income never lowers it. */
  lemma {:induction false} LayersMonotone(rows: seq<Row>, lo: int, hi: int, hi': int)
    requires NonNegativeRates(rows) && hi <= hi'
    ensures 0 <= TaxOf(Layers(rows, lo, hi)) <= TaxOf(Layers(rows, lo, hi'))
  {
    if rows != [] && lo < hi' {
      var end, end' := Below(rows[0], hi), Below(rows[0], hi');
      LayersStep(rows, lo, hi');
      RowTaxMonotone(end - lo, end' - lo, rows[0].rate);
      if lo >= hi {
        LayersMonotone(rows[1..], Max(lo, end'), hi', hi');
      } else {
        LayersStep(rows, lo, hi);
        if end == end' {
          LayersMonotone(rows[1..], Max(lo, end), hi, hi');
        } else {
          assert end == hi && Layers(rows[1..], end, hi) == [];
          LayersMonotone(rows[1..], end', hi', hi');
        }
      }
    }
  }

  /** The tax of one row on a width that may be empty. */
  function RowTax(width: int, rate: real): int {
    if width > 0 then MulRate(width, rate) else 0
  }

  lemma {:induction false} RowTaxMonotone(a: int, b: int, rate: real)
    requires a <= b && rate >= 0.0
    ensures 0 <= RowTax(a, rate) <= RowTax(b, rate)
  {
    if b > 0 {
      MulRateMonotone(0, b, rate);
      MulRateMonotone(Max(a, 0), b, rate);
      MulRateMonotone(0, Max(a, 0), rate);
    }
  }

  lemma {:induction false} LayersStep(rows: seq<Row>, lo: int, hi: int)
    requires rows != [] && lo < hi
    ensures TaxOf(Layers(rows, lo, hi))
      == RowTax(Below(rows[0], hi) - lo, rows[0].rate) + TaxOf(Layers(rows[1..], Max(lo, Below(rows[0], hi)), hi))
  {
    var end := Below(rows[0], hi);
    if end > lo {
      LayersFirst(Layer(end - lo, rows[0].rate), Layers(rows[1..], end, hi));
    }
  }

  lemma {:induction false} AscendingLastOpen(rows: seq<Row>, floor: int)
    requires Ascending(rows, floor)
    ensures LastRowOpen(rows)
  {
    if rows[0].ceiling.Some? {
      AscendingLastOpen(rows[1..], rows[0].ceiling.value);
    }
  }

  lemma {:induction false} LayerTaxBound(rows: seq<Row>, lo: int, hi: int)
    requires LastRowOpen(rows)
    ensures AbsReal(TaxOf(Layers(rows, lo, hi)) as real - ExactTax(rows, lo, hi)) <= 0.5 * |rows| as real
  {
    if lo <= hi {
      LayersTile(rows, lo, hi);
      LayersWithinHalfCent(Layers(rows, lo, hi));
    }
  }

  /** Tax an amount through an ascending table. */
  method TaxFromBrackets(taxable: int, rows: seq<BracketRow>) returns (tax: int)
    requires Ascending(TableInCents(rows), 0)
    ensures LastRowOpen(TableInCents(rows))
    ensures tax == TaxOf(Layers(TableInCents(rows), 0, taxable))
    ensures AbsReal(tax as real - ExactTax(TableInCents(rows), 0, taxable)) <= 0.5 * |rows| as real
  {
    ghost var table := TableInCents(rows);
    AscendingLastOpen(table, 0);
    if taxable <= 0 {
      return 0;
    }
    LayerTaxBound(table, 0, taxable);
    tax := 0;
    var lower: Option<int> := Some(0);  // None is +Infinity
    assert table[0..] == table;
    for i := 0 to |rows|
      invariant lower.Some? ==> Ascending(table[i..], lower.value)
      invariant lower.Some? ==> tax + TaxOf(Layers(table[i..], lower.value, taxable)) == TaxOf(Layers(table, 0, taxable))
      invariant lower.None? ==> tax == TaxOf(Layers(table, 0, taxable))
    {
      var upper := RowInCents(rows[i]).ceiling;
      if lower.None? || taxable <= lower.value {
        break;
      }
      assert table[i..][0] == RowInCents(rows[i]) && table[i..][1..] == table[i + 1..];
      var inBracket := Below(RowInCents(rows[i]), taxable) - lower.value;
      LayersFirst(Layer(inBracket, rows[i].rate), Layers(table[i + 1..], lower.value + inBracket, taxable));
      if inBracket > 0 {
        tax := tax + MulRate(inBracket, rows[i].rate);
      }
      lower := upper;
    }
  }

  /** Stacked income is taxed as the exact tax on the whole stack less the exact tax on what lies below it. */
  lemma {:induction false} StackedTaxBound(rows: seq<Row>, ordinary: int, pref: int)
    requires LastRowOpen(rows)
    ensures 0 <= ordinary && 0 <= pref ==>
      AbsReal(TaxOf(Layers(rows, ordinary, ordinary + pref)) as real - (ExactTax(rows, 0, ordinary + pref) - ExactTax(rows, 0, ordinary)))
        <= 0.5 * |rows| as real
  {
    if 0 <= ordinary && 0 <= pref {
      LayerTaxBound(rows, ordinary, ordinary + pref);
      ExactTaxSplit(rows, 0, ordinary, ordinary + pref);
    }
  }

  /** Tax on `prefIncome` stacked on top of `ordinaryTaxable`. */
  method TaxPreferential(prefIncome: int, ordinaryTaxable: int, rows: seq<BracketRow>) returns (tax: int)
    requires LastRowOpen(TableInCents(rows))
    ensures tax == TaxOf(Layers(TableInCents(rows), ClampMin0(ordinaryTaxable), ordinaryTaxable + prefIncome))
    ensures
      var table := TableInCents(rows);
      0 <= ordinaryTaxable && 0 <= prefIncome ==>
        AbsReal(tax as real - (ExactTax(table, 0, ordinaryTaxable + prefIncome) - ExactTax(table, 0, ordinaryTaxable)))
          <= 0.5 * |rows| as real
  {
    ghost var table := TableInCents(rows);
    var top := ordinaryTaxable + prefIncome;
    var layerStart := ClampMin0(ordinaryTaxable);
    StackedTaxBound(table, ordinaryTaxable, prefIncome);
    if prefIncome <= 0 {
      return 0;
    }
    tax := 0;
    assert table[0..] == table;
    ghost var total := TaxOf(Layers(table, layerStart, top));
    for i := 0 to |rows|
      invariant tax + TaxOf(Layers(table[i..], layerStart, top)) == total
    {
      if layerStart >= top {
        break;
      }
      assert table[i..][0] == RowInCents(rows[i]) && table[i..][1..] == table[i + 1..];
      LayersStep(table[i..], layerStart, top);
      var layerEnd := Below(RowInCents(rows[i]), top);
      if layerEnd > layerStart {
        tax := tax + MulRate(layerEnd - layerStart, rows[i].rate);
        layerStart := layerEnd;
      }
    }
  }

  /** The layers of stacked income add up to it exactly when ordinary income is not negative (or there is nothing to stack). */
  lemma {:induction false} StackedWidth(prefIncome: int, ordinaryTaxable: int, rows: seq<Row>)
    requires LastRowOpen(rows) && prefIncome > 0
    ensures TotalWidth(Layers(rows, ClampMin0(ordinaryTaxable), ordinaryTaxable + prefIncome)) == prefIncome <==> ordinaryTaxable >= 0
  {
    var lo, hi := ClampMin0(ordinaryTaxable), ordinaryTaxable + prefIncome;
    if lo <= hi {
      LayersTile(rows, lo, hi);
    }
  }
}
