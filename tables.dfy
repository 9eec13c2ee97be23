/**
 * The three per-period tables the analyzer fills: published metrics, the
 * priority each metric was written with, and the helper amounts. What a
 * matched row writes (priority-aware for metrics, first non-zero for
 * helpers, in the first four periods), how amounts are scaled, and the
 * final derivation of revenue, operating profit and OPM.
 */
module Tables {
  import opened Wrappers
  import opened Decimal
  import opened Metrics
  import opened Rows
  import opened LabelMatcher
  import NumericParser

  /** The priority a metric starts with: worse than any page's (1, 2 or 3). */
  const UNSET: nat := 99

  /** `results`, `found_priority` and `helpers`: one record per period, one field per key. */
  datatype Tables = Tables(
    results: PerPeriod<PerMetric<real>>,
    found: PerPeriod<PerMetric<nat>>,
    helpers: PerPeriod<PerHelper<real>>)
  {
    function Value(p: Period, m: Metric): real { results.Get(p).Get(m) }
    function Prio(p: Period, m: Metric): nat { found.Get(p).Get(m) }
    function Aid(p: Period, h: Helper): real { helpers.Get(p).Get(h) }
  }

  /** The tables as the analyzer is constructed: amounts 0, priorities 99. */
  function Initial(): (t: Tables)
    ensures forall p, m :: t.Value(p, m) == 0.0 && t.Prio(p, m) == UNSET
    ensures forall p, h :: t.Aid(p, h) == 0.0
  {
    var zero := PerMetric(0.0, 0.0, 0.0, 0.0, 0.0, 0.0, 0.0, 0.0);
    var unset := PerMetric(UNSET, UNSET, UNSET, UNSET, UNSET, UNSET, UNSET, UNSET);
    var aids := PerHelper(0.0, 0.0, 0.0, 0.0);
    Tables(PerPeriod(zero, zero, zero, zero), PerPeriod(unset, unset, unset, unset), PerPeriod(aids, aids, aids, aids))
  }

  // ---------------------------------------------------------------------------
  // Scaling

  /** EPS and amounts on a crore page are kept; everything else is divided by 100. */
  function Divisor(key: Target, pageScale: real): real {
    if key == Primary(Eps) || pageScale == 1.0 then 1.0 else 100.0
  }

  /** The amount stored for a parsed value: scaled, then rounded to two decimals. */
  function Scaled(v: real, key: Target, pageScale: real): real {
    Round2(v / Divisor(key, pageScale))
  }

  /** EPS is never rescaled. */
  lemma EpsNeverScaled(v: real, pageScale: real)
    ensures Scaled(v, Primary(Eps), pageScale) == Round2(v)
  {
  }

  /** On a page in lakhs or crores, any other amount is divided by 100 exactly when the page is in lakhs. */
  lemma ScaledByPage(v: real, key: Target, pageScale: real)
    requires key != Primary(Eps) && (pageScale == 1.0 || pageScale == 100.0)
    ensures Scaled(v, key, pageScale) == (if pageScale == 100.0 then Round2(v / 100.0) else Round2(v))
  {
  }

  /** A whole number of lakhs becomes the same number of crores, to the paisa: 150 lakh is 1.50 crore. */
  lemma LakhsToCrores(n: int, key: Target)
    requires key != Primary(Eps)
    ensures Scaled(n as real, key, 100.0) == n as real / 100.0
  {
    Round2Exact(n);
  }

  // ---------------------------------------------------------------------------
  // Writing one value

  /** A metric is overwritten by a better (lower) priority, or by an equal one while it still reads 0. */
  predicate Overwrites(t: Tables, p: Period, m: Metric, prio: nat)
  {
    prio < t.Prio(p, m) || (prio == t.Prio(p, m) && t.Value(p, m) == 0.0)
  }

  /** Filing `v` under `key` in period `p` with the page priority `prio`. */
  function Write(t: Tables, key: Target, p: Period, v: real, prio: nat): (t': Tables)
  {
    match key
    case Aux(h) =>
      if t.Aid(p, h) == 0.0 then t.(helpers := t.helpers.Set(p, t.helpers.Get(p).Set(h, v))) else t
    case Primary(m) =>
      if Overwrites(t, p, m, prio)
      then
        t.(results := t.results.Set(p, t.results.Get(p).Set(m, v)), found := t.found.Set(p, t.found.Get(p).Set(m, prio)))
      else t
  }

  /** How many amounts of a row are used: the first four at most. */
  function Used(n: nat): nat {
    if n < 4 then n else 4
  }

  /** The first `n` values of a row written to the first `n` periods, in column order. */
  function WriteFirst(t: Tables, key: Target, nums: seq<real>, prio: nat, pageScale: real, n: nat): (t': Tables)
    requires n <= |nums| && n <= 4
  {
    if n == 0 then t
    else Write(WriteFirst(t, key, nums, prio, pageScale, n - 1), key, PeriodAt(n - 1), Scaled(nums[n - 1], key, pageScale), prio)
  }

  // ---------------------------------------------------------------------------
  // One row

  /** The values of the cells that parse as numbers, in cell order. */
  function Amounts(cells: seq<Cell>): seq<real> {
    if cells == [] then []
    else
      var init := Amounts(cells[..|cells| - 1]);
      match NumericParser.ParseVal(cells[|cells| - 1].text)
      case Some(v) => init + [v]
      case None => init
  }

  function CellStrings(cells: seq<Cell>): seq<string> {
    if cells == [] then [] else CellStrings(cells[..|cells| - 1]) + [cells[|cells| - 1].text]
  }

  /** The normalized label of a row: its cell texts joined by spaces, cut before the first number. */
  function RowKeyLabel(cells: seq<Cell>): string {
    RowLabel(CellStrings(cells))
  }

  /** The effect of one row of a page: nothing without amounts or a matching label. */
  function RowUpdate(t: Tables, cells: seq<Cell>, prio: nat, pageScale: real): (t': Tables)
  {
    var nums := Amounts(cells);
    if nums == [] then t
    else
      match Match(RowKeyLabel(cells))
      case None => t
      case Some(key) => WriteFirst(t, key, nums, prio, pageScale, Used(|nums|))
  }

  /** Writing to period `p` leaves every other period, and every other key of `p`, as it was. */
  lemma WriteElsewhere(t: Tables, key: Target, p: Period, v: real, prio: nat)
    ensures forall q: Period, m: Metric :: (q != p || key != Primary(m)) ==>
      Write(t, key, p, v, prio).Value(q, m) == t.Value(q, m) && Write(t, key, p, v, prio).Prio(q, m) == t.Prio(q, m)
    ensures forall q: Period, h: Helper :: (q != p || key != Aux(h)) ==>
      Write(t, key, p, v, prio).Aid(q, h) == t.Aid(q, h)
  {
  }

  /**
   * Metric `m` of period `p` after the first `n` values of a row were filed
   * under `key`: the period's own value, scaled, exactly when `m` is the key,
   * the period is among the first `n` columns and the old state let it be
   * overwritten; otherwise the old value and priority.
   */
  predicate MetricAfter(t: Tables, t': Tables, key: Target, nums: seq<real>, prio: nat, pageScale: real, n: nat, p: Period, m: Metric)
    requires n <= |nums|
  {
    if key == Primary(m) && ColumnOf(p) < n && Overwrites(t, p, m, prio)
    then t'.Value(p, m) == Scaled(nums[ColumnOf(p)], key, pageScale) && t'.Prio(p, m) == prio
    else t'.Value(p, m) == t.Value(p, m) && t'.Prio(p, m) == t.Prio(p, m)
  }

  /** Helper `h` of period `p` likewise, under the first-wins rule. */
  predicate HelperAfter(t: Tables, t': Tables, key: Target, nums: seq<real>, pageScale: real, n: nat, p: Period, h: Helper)
    requires n <= |nums|
  {
    if key == Aux(h) && ColumnOf(p) < n && t.Aid(p, h) == 0.0
    then t'.Aid(p, h) == Scaled(nums[ColumnOf(p)], key, pageScale)
    else t'.Aid(p, h) == t.Aid(p, h)
  }

  /** The first `n` writes of a row, taken together, act on each period independently. */
  lemma {:induction false} WriteFirstEffect(t: Tables, key: Target, nums: seq<real>, prio: nat, pageScale: real, n: nat)
    requires n <= |nums| && n <= 4
    ensures forall p, m :: MetricAfter(t, WriteFirst(t, key, nums, prio, pageScale, n), key, nums, prio, pageScale, n, p, m)
    ensures forall p, h :: HelperAfter(t, WriteFirst(t, key, nums, prio, pageScale, n), key, nums, pageScale, n, p, h)
  {
    if n > 0 {
      WriteFirstEffect(t, key, nums, prio, pageScale, n - 1);
      var s := WriteFirst(t, key, nums, prio, pageScale, n - 1);
      var t' := WriteFirst(t, key, nums, prio, pageScale, n);
      var q := PeriodAt(n - 1);
      WriteElsewhere(s, key, q, Scaled(nums[n - 1], key, pageScale), prio);
      ColumnOfPeriodAt(n - 1);
      forall p, m ensures MetricAfter(t, t', key, nums, prio, pageScale, n, p, m) {
        assert MetricAfter(t, s, key, nums, prio, pageScale, n - 1, p, m);
      }
      forall p, h ensures HelperAfter(t, t', key, nums, pageScale, n, p, h) {
        assert HelperAfter(t, s, key, nums, pageScale, n - 1, p, h);
      }
    }
  }

  /**
   * A row writes only under its own key, only in the first min(4, #amounts)
   * periods, and there exactly as the priority rule (metrics) or the
   * first-wins rule (helpers) allows; a row without amounts or without a
   * matching label changes nothing.
   */
  lemma RowEffect(t: Tables, cells: seq<Cell>, prio: nat, pageScale: real)
    ensures Amounts(cells) == [] || Match(RowKeyLabel(cells)).None? ==> RowUpdate(t, cells, prio, pageScale) == t
    ensures Amounts(cells) != [] && Match(RowKeyLabel(cells)).Some? ==>
      forall p, m :: MetricAfter(t, RowUpdate(t, cells, prio, pageScale), Match(RowKeyLabel(cells)).value,
                                 Amounts(cells), prio, pageScale, Used(|Amounts(cells)|), p, m)
    ensures Amounts(cells) != [] && Match(RowKeyLabel(cells)).Some? ==>
      forall p, h :: HelperAfter(t, RowUpdate(t, cells, prio, pageScale), Match(RowKeyLabel(cells)).value,
                                 Amounts(cells), pageScale, Used(|Amounts(cells)|), p, h)
  {
    var nums := Amounts(cells);
    if nums != [] && Match(RowKeyLabel(cells)).Some? {
      WriteFirstEffect(t, Match(RowKeyLabel(cells)).value, nums, prio, pageScale, Used(|nums|));
    }
  }

  /** Priorities never get worse, and a consolidated value is never replaced by a standalone or unclassified row. */
  lemma RowKeepsBetterPriority(t: Tables, cells: seq<Cell>, prio: nat, pageScale: real, p: Period, m: Metric)
    ensures RowUpdate(t, cells, prio, pageScale).Prio(p, m) <= t.Prio(p, m)
    ensures t.Prio(p, m) < prio ==> RowUpdate(t, cells, prio, pageScale).Value(p, m) == t.Value(p, m)
    ensures t.Prio(p, m) == 1 && prio > 1 ==>
      RowUpdate(t, cells, prio, pageScale).Value(p, m) == t.Value(p, m) && RowUpdate(t, cells, prio, pageScale).Prio(p, m) == 1
  {
    RowEffect(t, cells, prio, pageScale);
    if Amounts(cells) != [] && Match(RowKeyLabel(cells)).Some? {
      assert MetricAfter(t, RowUpdate(t, cells, prio, pageScale), Match(RowKeyLabel(cells)).value, Amounts(cells), prio, pageScale, Used(|Amounts(cells)|), p, m);
    }
  }

  /** A helper that already holds a non-zero amount keeps it. */
  lemma RowKeepsHelper(t: Tables, cells: seq<Cell>, prio: nat, pageScale: real, p: Period, h: Helper)
    requires t.Aid(p, h) != 0.0
    ensures RowUpdate(t, cells, prio, pageScale).Aid(p, h) == t.Aid(p, h)
  {
    RowEffect(t, cells, prio, pageScale);
    if Amounts(cells) != [] && Match(RowKeyLabel(cells)).Some? {
      assert HelperAfter(t, RowUpdate(t, cells, prio, pageScale), Match(RowKeyLabel(cells)).value, Amounts(cells), pageScale, Used(|Amounts(cells)|), p, h);
    }
  }

  /** A row filed under a helper never touches the metrics or their priorities. */
  lemma HelperRowLeavesResults(t: Tables, cells: seq<Cell>, prio: nat, pageScale: real)
    requires Match(RowKeyLabel(cells)).Some? && Match(RowKeyLabel(cells)).value.Aux?
    ensures RowUpdate(t, cells, prio, pageScale).results == t.results
    ensures RowUpdate(t, cells, prio, pageScale).found == t.found
  {
    var t' := RowUpdate(t, cells, prio, pageScale);
    forall p: Period, m: Metric
      ensures t'.results.Get(p).Get(m) == t.results.Get(p).Get(m) && t'.found.Get(p).Get(m) == t.found.Get(p).Get(m)
    {
      RowEffect(t, cells, prio, pageScale);
      if Amounts(cells) != [] && Match(RowKeyLabel(cells)).Some? {
        assert MetricAfter(t, RowUpdate(t, cells, prio, pageScale), Match(RowKeyLabel(cells)).value, Amounts(cells), prio, pageScale, Used(|Amounts(cells)|), p, m);
      }
    }
    TablesEqual(t'.results, t.results);
    TablesEqual(t'.found, t.found);
  }

  lemma TablesEqual<V>(a: PerPeriod<PerMetric<V>>, b: PerPeriod<PerMetric<V>>)
    requires forall p, m :: a.Get(p).Get(m) == b.Get(p).Get(m)
    ensures a == b
  {
    forall p ensures a.Get(p) == b.Get(p) {
      PerMetricExt(a.Get(p), b.Get(p));
    }
    PerPeriodExt(a, b);
  }

  /** Operating profit and OPM, which no keyword names, keep their initial 0 and priority. */
  predicate DerivedUntouched(t: Tables)
  {
    forall p: Period ::
      t.Value(p, OperatingProfit) == 0.0 && t.Value(p, Opm) == 0.0
      && t.Prio(p, OperatingProfit) == UNSET && t.Prio(p, Opm) == UNSET
  }

  lemma RowLeavesDerived(t: Tables, cells: seq<Cell>, prio: nat, pageScale: real)
    requires DerivedUntouched(t)
    ensures DerivedUntouched(RowUpdate(t, cells, prio, pageScale))
  {
    var t' := RowUpdate(t, cells, prio, pageScale);
    NeverOperatingProfitOrOpm(RowKeyLabel(cells));
    RowEffect(t, cells, prio, pageScale);
    if Amounts(cells) != [] && Match(RowKeyLabel(cells)).Some? {
      var key := Match(RowKeyLabel(cells)).value;
      var nums := Amounts(cells);
      forall p ensures t'.Value(p, OperatingProfit) == 0.0 && t'.Prio(p, OperatingProfit) == UNSET
        && t'.Value(p, Opm) == 0.0 && t'.Prio(p, Opm) == UNSET
      {
        assert MetricAfter(t, t', key, nums, prio, pageScale, Used(|nums|), p, OperatingProfit);
        assert MetricAfter(t, t', key, nums, prio, pageScale, Used(|nums|), p, Opm);
      }
    }
  }

  // ---------------------------------------------------------------------------
  // Finalization

  /** The revenue of a period after finalization: derived from total income only when it is still 0. */
  function FinalRevenue(t: Tables, p: Period): real
  {
    if t.Value(p, Revenue) == 0.0 && t.Aid(p, TotalInc) != 0.0
    then Round2(t.Aid(p, TotalInc) - t.Value(p, OtherIncome))
    else t.Value(p, Revenue)
  }

  function FinalOperatingProfit(t: Tables, p: Period): real
  {
    if t.Value(p, OperatingProfit) == 0.0 && FinalRevenue(t, p) != 0.0
    then Round2(t.Value(p, Pbt) + t.Aid(p, Dep) + t.Aid(p, Int) - t.Value(p, OtherIncome))
    else t.Value(p, OperatingProfit)
  }

  function FinalOpm(t: Tables, p: Period): real
  {
    if FinalRevenue(t, p) != 0.0
    then Round2(FinalOperatingProfit(t, p) / FinalRevenue(t, p) * 100.0)
    else t.Value(p, Opm)
  }

  /** The finalization of one period: revenue, then operating profit, then OPM. */
  function FinalizePeriod(t: Tables, p: Period): (t': Tables)
  {
    var r := t.results.Get(p).Set(Revenue, FinalRevenue(t, p)).Set(OperatingProfit, FinalOperatingProfit(t, p)).Set(Opm, FinalOpm(t, p));
    t.(results := t.results.Set(p, r))
  }

  /** The finalized record of a period, field by field. */
  lemma FinalizedRecord(t: Tables, p: Period)
    ensures FinalizePeriod(t, p) == t.(results := t.results.Set(p, t.results.Get(p).(
      revenue := FinalRevenue(t, p), operatingProfit := FinalOperatingProfit(t, p), opm := FinalOpm(t, p))))
  {
  }

  /**
   * The post-processing of one period's record: revenue from total income
   * when missing, operating profit from its parts when missing and revenue
   * is known, OPM whenever revenue is known.
   */
  method FinalizeRecord(r0: PerMetric<real>, aids: PerHelper<real>, ghost t: Tables, ghost p: Period) returns (r: PerMetric<real>)
    requires t.results.Get(p) == r0 && t.helpers.Get(p) == aids
    ensures FinalizePeriod(t, p) == t.(results := t.results.Set(p, r))
  {
    r := r0;
    if r.revenue == 0.0 && aids.totalInc != 0.0 {
      r := r.(revenue := Round2(aids.totalInc - r.otherIncome));
    }
    assert r.revenue == FinalRevenue(t, p);
    if r.operatingProfit == 0.0 && r.revenue != 0.0 {
      r := r.(operatingProfit := Round2(r.pbt + aids.dep + aids.interest - r.otherIncome));
    }
    assert r.operatingProfit == FinalOperatingProfit(t, p);
    if r.revenue != 0.0 {
      r := r.(opm := Round2(r.operatingProfit / r.revenue * 100.0));
    }
    assert r.opm == FinalOpm(t, p);
    FinalizedRecord(t, p);
  }

  /** Finalization of the first `n` periods, in column order. */
  function FinalizeFirst(t: Tables, n: nat): (t': Tables)
    requires n <= 4
  {
    if n == 0 then t else FinalizePeriod(FinalizeFirst(t, n - 1), PeriodAt(n - 1))
  }

  /** Finalization touches only revenue, operating profit and OPM of its own period. */
  lemma FinalizePeriodElsewhere(t: Tables, p: Period)
    ensures FinalizePeriod(t, p).found == t.found && FinalizePeriod(t, p).helpers == t.helpers
    ensures forall q: Period, m: Metric :: (q != p || m !in {Revenue, OperatingProfit, Opm}) ==>
      FinalizePeriod(t, p).Value(q, m) == t.Value(q, m)
  {
  }

  lemma {:induction false} FinalizeFirstEffect(t: Tables, n: nat)
    requires n <= 4
    ensures FinalizeFirst(t, n).found == t.found && FinalizeFirst(t, n).helpers == t.helpers
    ensures forall i: nat, m: Metric :: i < 4 ==>
      FinalizeFirst(t, n).Value(PeriodAt(i), m) ==
        if i < n then FinalizePeriod(t, PeriodAt(i)).Value(PeriodAt(i), m) else t.Value(PeriodAt(i), m)
  {
    if n > 0 {
      FinalizeFirstEffect(t, n - 1);
      var s := FinalizeFirst(t, n - 1);
      var p := PeriodAt(n - 1);
      FinalizePeriodElsewhere(s, p);
      forall i: nat | i < 4 && i != n - 1 ensures PeriodAt(i) != p {
        ColumnOfPeriodAt(i);
        ColumnOfPeriodAt(n - 1);
      }
      forall m ensures s.results.Get(p).Get(m) == t.results.Get(p).Get(m) {
        assert s.Value(PeriodAt(n - 1), m) == t.Value(PeriodAt(n - 1), m);
      }
      PerMetricExt(s.results.Get(p), t.results.Get(p));
      FinalizePeriodLocal(s, t, p);
      forall i: nat, m: Metric | i < 4 ensures FinalizeFirst(t, n).Value(PeriodAt(i), m) ==
        if i < n then FinalizePeriod(t, PeriodAt(i)).Value(PeriodAt(i), m) else t.Value(PeriodAt(i), m)
      {
        if i != n - 1 {
          assert PeriodAt(i) != p;
        }
      }
    }
  }

  /** After all four periods are finalized, each period's record is its own finalization. */
  lemma FinalizeAllAt(t: Tables, p: Period)
    ensures FinalizeFirst(t, 4).results.Get(p) == FinalizePeriod(t, p).results.Get(p)
  {
    FinalizeFirstEffect(t, 4);
    var i := ColumnOf(p);
    forall m ensures FinalizeFirst(t, 4).results.Get(p).Get(m) == FinalizePeriod(t, p).results.Get(p).Get(m) {
      assert FinalizeFirst(t, 4).Value(PeriodAt(i), m) == FinalizePeriod(t, PeriodAt(i)).Value(PeriodAt(i), m);
    }
    PerMetricExt(FinalizeFirst(t, 4).results.Get(p), FinalizePeriod(t, p).results.Get(p));
  }

  /** Finalizing a period reads only that period's record and the helpers. */
  lemma FinalizePeriodLocal(s: Tables, t: Tables, p: Period)
    requires s.results.Get(p) == t.results.Get(p) && s.helpers == t.helpers
    ensures FinalizePeriod(s, p).results.Get(p) == FinalizePeriod(t, p).results.Get(p)
  {
  }

  /**
   * After finalization of a period whose operating profit and OPM were
   * never written: with no revenue both stay 0; with revenue, operating
   * profit is pbt + depreciation + interest - other income and OPM is its
   * share of revenue in percent, each rounded to two decimals. Revenue is
   * derived from total income only when it was 0 and total income was not.
   */
  lemma FinalizeDerives(t: Tables, p: Period)
    requires t.Value(p, OperatingProfit) == 0.0 && t.Value(p, Opm) == 0.0
    ensures var r := FinalizePeriod(t, p).results.Get(p);
      (r.Get(Revenue) == 0.0 ==> r.Get(OperatingProfit) == 0.0 && r.Get(Opm) == 0.0)
      && (r.Get(Revenue) != 0.0 ==>
        r.Get(OperatingProfit) == Round2(t.Value(p, Pbt) + t.Aid(p, Dep) + t.Aid(p, Int) - t.Value(p, OtherIncome))
        && r.Get(Opm) == Round2(r.Get(OperatingProfit) / r.Get(Revenue) * 100.0))
      && (r.Get(Revenue) != t.Value(p, Revenue) ==> t.Value(p, Revenue) == 0.0 && t.Aid(p, TotalInc) != 0.0)
  {
  }

  /** OPM never leaves [-100, 100] by more than rounding when operating profit is within revenue. */
  lemma OpmBounded(t: Tables, p: Period)
    requires t.Value(p, OperatingProfit) == 0.0 && t.Value(p, Opm) == 0.0
    requires FinalRevenue(t, p) > 0.0
    requires -FinalRevenue(t, p) <= FinalOperatingProfit(t, p) <= FinalRevenue(t, p)
    ensures -100.0 <= FinalizePeriod(t, p).Value(p, Opm) <= 100.0
  {
    var rev := FinalRevenue(t, p);
    var op := FinalOperatingProfit(t, p);
    var x := op / rev * 100.0;
    assert -100.0 <= x <= 100.0 by {
      RatioBounded(op, rev);
    }
    Round2Bounded(x, 100);
  }

  lemma RatioBounded(a: real, b: real)
    requires b > 0.0 && -b <= a <= b
    ensures -1.0 <= a / b <= 1.0
  {
    assert a / b * b == a;
  }

  lemma Round2Bounded(x: real, b: int)
    requires -(b as real) <= x <= b as real
    ensures -(b as real) <= Round2(x) <= b as real
  {
    var n := RoundHalfEven(x * 100.0);
    assert -(b * 100) as real - 0.5 <= n as real <= (b * 100) as real + 0.5;
    assert -(b * 100) <= n <= b * 100;
  }
}
