/**
 * The names the analyzer files amounts under: four reporting periods, the
 * eight published metrics of each period, and the helper amounts kept only
 * for the derivations.
 */
module Metrics {

  /** "Current", "Prev Qtr", "YoY Qtr", "Year Ended", in column order. */
  datatype Period = Current | PrevQtr | YoyQtr | YearEnded

  const PERIODS: seq<Period> := [Current, PrevQtr, YoyQtr, YearEnded]

  /** Column `i` of a results table (0-based). */
  function PeriodAt(i: nat): (p: Period)
    requires i < 4
    ensures p == PERIODS[i]
  {
    [Current, PrevQtr, YoyQtr, YearEnded][i]
  }

  /** The column a period is read from: the inverse of `PeriodAt`. */
  function ColumnOf(p: Period): (i: nat)
    ensures i < 4 && PeriodAt(i) == p
  {
    match p
    case Current => 0
    case PrevQtr => 1
    case YoyQtr => 2
    case YearEnded => 3
  }

  lemma ColumnOfPeriodAt(i: nat)
    requires i < 4
    ensures ColumnOf(PeriodAt(i)) == i
  {
  }

  /** The keys of each period record, in the order the record lists them. */
  datatype Metric = Revenue | OtherIncome | TotalExpenses | OperatingProfit | Opm | Pbt | NetProfit | Eps

  const METRICS: seq<Metric> := [Revenue, OtherIncome, TotalExpenses, OperatingProfit, Opm, Pbt, NetProfit, Eps]

  /** Where a metric stands in `METRICS`. */
  function IndexOf(m: Metric): (i: nat)
    ensures i < |METRICS| && METRICS[i] == m
  {
    match m
    case Revenue => 0
    case OtherIncome => 1
    case TotalExpenses => 2
    case OperatingProfit => 3
    case Opm => 4
    case Pbt => 5
    case NetProfit => 6
    case Eps => 7
  }

  /** `METRICS` lists each metric once. */
  lemma IndexOfAt(i: nat)
    requires i < |METRICS|
    ensures IndexOf(METRICS[i]) == i
  {
  }

  /** Depreciation, interest (finance cost), "Other" (never written) and total income. */
  datatype Helper = Dep | Int | Other | TotalInc

  /** What a matched row is filed under. */
  datatype Target = Primary(metric: Metric) | Aux(helper: Helper)

  /** A record with one field per metric: a fixed-key dict of the source. */
  datatype PerMetric<T> = PerMetric(revenue: T, otherIncome: T, totalExpenses: T, operatingProfit: T,
                                    opm: T, pbt: T, netProfit: T, eps: T)
  {
    function Get(m: Metric): T {
      match m
      case Revenue => revenue
      case OtherIncome => otherIncome
      case TotalExpenses => totalExpenses
      case OperatingProfit => operatingProfit
      case Opm => opm
      case Pbt => pbt
      case NetProfit => netProfit
      case Eps => eps
    }

    function Set(m: Metric, v: T): (r: PerMetric<T>)
      ensures r.Get(m) == v
      ensures forall n :: n != m ==> r.Get(n) == Get(n)
    {
      match m
      case Revenue => this.(revenue := v)
      case OtherIncome => this.(otherIncome := v)
      case TotalExpenses => this.(totalExpenses := v)
      case OperatingProfit => this.(operatingProfit := v)
      case Opm => this.(opm := v)
      case Pbt => this.(pbt := v)
      case NetProfit => this.(netProfit := v)
      case Eps => this.(eps := v)
    }
  }

  /** A record with one field per helper. */
  datatype PerHelper<T> = PerHelper(dep: T, interest: T, other: T, totalInc: T)
  {
    function Get(h: Helper): T {
      match h
      case Dep => dep
      case Int => interest
      case Other => other
      case TotalInc => totalInc
    }

    function Set(h: Helper, v: T): (r: PerHelper<T>)
      ensures r.Get(h) == v
      ensures forall k :: k != h ==> r.Get(k) == Get(k)
    {
      match h
      case Dep => this.(dep := v)
      case Int => this.(interest := v)
      case Other => this.(other := v)
      case TotalInc => this.(totalInc := v)
    }
  }

  /** A record with one field per period. */
  datatype PerPeriod<T> = PerPeriod(current: T, prevQtr: T, yoyQtr: T, yearEnded: T)
  {
    function Get(p: Period): T {
      match p
      case Current => current
      case PrevQtr => prevQtr
      case YoyQtr => yoyQtr
      case YearEnded => yearEnded
    }

    function Set(p: Period, v: T): (r: PerPeriod<T>)
      ensures r.Get(p) == v
      ensures forall q :: q != p ==> r.Get(q) == Get(q)
    {
      match p
      case Current => this.(current := v)
      case PrevQtr => this.(prevQtr := v)
      case YoyQtr => this.(yoyQtr := v)
      case YearEnded => this.(yearEnded := v)
    }
  }

  /** Two records that agree on every metric are the same record. */
  lemma PerMetricExt<T>(a: PerMetric<T>, b: PerMetric<T>)
    requires forall m :: a.Get(m) == b.Get(m)
    ensures a == b
  {
    assert a.revenue == b.Get(Revenue) && a.otherIncome == b.Get(OtherIncome);
    assert a.totalExpenses == b.Get(TotalExpenses) && a.operatingProfit == b.Get(OperatingProfit);
    assert a.opm == b.Get(Opm) && a.pbt == b.Get(Pbt) && a.netProfit == b.Get(NetProfit) && a.eps == b.Get(Eps);
  }

  lemma PerPeriodExt<T>(a: PerPeriod<T>, b: PerPeriod<T>)
    requires forall p :: a.Get(p) == b.Get(p)
    ensures a == b
  {
    assert a.current == b.Get(Current) && a.prevQtr == b.Get(PrevQtr);
    assert a.yoyQtr == b.Get(YoyQtr) && a.yearEnded == b.Get(YearEnded);
  }
}
