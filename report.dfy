/**
 * The summary built from the four period records (`analyze_results`):
 * quarter-on-quarter and year-on-year growth of every metric, the four
 * observation rules, and the verdict of `generate_recommendation`, which
 * scores the observations and the sign of net profit.
 */
module Report {
  import opened Wrappers
  import opened Strings
  import opened Decimal
  import opened Metrics

  /** A row of the results table: the period's metrics and its name. */
  datatype PeriodRow = PeriodRow(period: Period, values: PerMetric<real>)

  datatype Span = Qoq | Yoy

  /** The growth key `<metric>_qoq` or `<metric>_yoy`. */
  datatype GrowthKey = GrowthKey(metric: Metric, span: Span)

  datatype Recommendation = Recommendation(verdict: string, color: string, reasons: seq<string>)

  /** The summary; `Empty` is the `{}` returned for an empty table. */
  datatype Summary =
    | Empty
    | Summary(tableData: seq<PeriodRow>, growth: map<GrowthKey, real>, observations: seq<string>,
              recommendation: Option<Recommendation>)

  // ---------------------------------------------------------------------------
  // Growth

  /** Percentage change from `base` to `cur`, rounded to two decimals; 0 when the base is 0. */
  function Growth(cur: real, base: real): real {
    if base == 0.0 then 0.0 else Round2((cur - base) / base * 100.0)
  }

  /** A zero base gives 0; any other base the exact percentage change, to within half a hundredth. */
  lemma GrowthMeaning(cur: real, base: real)
    ensures base == 0.0 ==> Growth(cur, base) == 0.0
    ensures base != 0.0 ==> -1.0 / 200.0 <= Growth(cur, base) - (cur - base) / base * 100.0 <= 1.0 / 200.0
  {
    if base != 0.0 {
      Round2Error((cur - base) / base * 100.0);
    }
  }

  /** An unchanged metric shows no growth. */
  lemma NoChangeNoGrowth(x: real)
    ensures Growth(x, x) == 0.0
  {
    if x != 0.0 {
      assert (x - x) / x * 100.0 == 0.0;
      RoundHalfEvenOfInt(0);
    }
  }

  /** The growth entry the summary holds for `key`. */
  function GrowthOf(curr: PerMetric<real>, prev: PerMetric<real>, yoy: PerMetric<real>, key: GrowthKey): real {
    if key.span == Qoq then Growth(curr.Get(key.metric), prev.Get(key.metric))
    else Growth(curr.Get(key.metric), yoy.Get(key.metric))
  }

  // ---------------------------------------------------------------------------
  // Observations

  /** The markers the verdict looks for: a warning sign, a falling chart and a rocket. */
  const WARNING_SIGN: string := "\U{26A0}\U{FE0F}"
  const CHART_DOWN: string := "\U{1F4C9}"
  const ROCKET: string := "\U{1F680}"

  const OPERATING_LOSS: string := "\U{1F6A8} " + "CRITICAL" + " RED FLAG: Operating Loss."
  const MARGIN_COLLAPSE: string := WARNING_SIGN + " Margin Collapse."
  const REVENUE_DECLINE: string := CHART_DOWN + " Significant Revenue decline QoQ."
  const PROFIT_GROWTH: string := ROCKET + " Strong Profit growth YoY."

  /** The four observation rules, in order. */
  function Observations(curr: PerMetric<real>, revenueQoq: real, netProfitYoy: real): seq<string> {
    (if curr.operatingProfit < 0.0 then [OPERATING_LOSS] else [])
    + (if curr.opm < 0.0 then [MARGIN_COLLAPSE] else [])
    + (if revenueQoq < -10.0 then [REVENUE_DECLINE] else [])
    + (if netProfitYoy > 20.0 then [PROFIT_GROWTH] else [])
  }

  // ---------------------------------------------------------------------------
  // Recommendation

  /** What an observation adds to the score: the first marker it carries decides. */
  function Weight(o: string): int {
    if Contains(o, "CRITICAL") then -5
    else if Contains(o, WARNING_SIGN) then -2
    else if Contains(o, CHART_DOWN) then -1
    else if Contains(o, ROCKET) then 2
    else 0
  }

  function ObservationScore(obs: seq<string>): int {
    if obs == [] then 0 else ObservationScore(obs[..|obs| - 1]) + Weight(obs[|obs| - 1])
  }

  function Score(obs: seq<string>, netProfit: real): int {
    ObservationScore(obs) + (if netProfit > 0.0 then 2 else 0)
  }

  const BUY: string := "BUY / ACCUMULATE"
  const HOLD: string := "HOLD / NEUTRAL"
  const SELL: string := "STRONG AVOID / SELL"

  /** The verdict for a score: buy from 2 up, hold above -3, sell otherwise; the observations are the reasons. */
  function Verdict(score: int, obs: seq<string>): Recommendation {
    if score >= 2 then Recommendation(BUY, "green", obs)
    else if score > -3 then Recommendation(HOLD, "orange", obs)
    else Recommendation(SELL, "red", obs)
  }

  function RecommendationFor(data: PerMetric<real>, obs: seq<string>): Recommendation {
    Verdict(Score(obs, data.netProfit), obs)
  }

  /** `generate_recommendation`: the observation loop accumulates the score. */
  method GenerateRecommendation(data: PerMetric<real>, obs: seq<string>) returns (rec: Recommendation)
    ensures rec == RecommendationFor(data, obs)
  {
    var score := 0;
    for i := 0 to |obs|
      invariant score == ObservationScore(obs[..i])
    {
      var o := obs[i];
      assert obs[..i + 1][..i] == obs[..i];
      if Contains(o, "CRITICAL") {
        score := score - 5;
      } else if Contains(o, WARNING_SIGN) {
        score := score - 2;
      } else if Contains(o, CHART_DOWN) {
        score := score - 1;
      } else if Contains(o, ROCKET) {
        score := score + 2;
      }
    }
    assert obs[..|obs|] == obs;
    if data.netProfit > 0.0 {
      score := score + 2;
    }
    if score >= 2 {
      return Recommendation(BUY, "green", obs);
    }
    if score > -3 {
      return Recommendation(HOLD, "orange", obs);
    }
    return Recommendation(SELL, "red", obs);
  }

  /** How favourable a verdict is: sell 0, hold 1, buy 2. */
  function Rank(r: Recommendation): nat {
    if r.verdict == BUY then 2 else if r.verdict == HOLD then 1 else 0
  }

  /** A higher score never yields a less favourable verdict, and the reasons are the observations. */
  lemma VerdictMonotone(s1: int, s2: int, obs1: seq<string>, obs2: seq<string>)
    requires s1 <= s2
    ensures Rank(Verdict(s1, obs1)) <= Rank(Verdict(s2, obs2))
    ensures Verdict(s1, obs1).reasons == obs1
  {
  }

  lemma {:induction false} ObservationScoreAppend(a: seq<string>, b: seq<string>)
    ensures ObservationScore(a + b) == ObservationScore(a) + ObservationScore(b)
    decreases |b|
  {
    if b == [] {
      assert a + b == a;
    } else {
      var init := b[..|b| - 1];
      ObservationScoreAppend(a, init);
      assert (a + b)[..|a + b| - 1] == a + init;
    }
  }

  lemma OccursContains(s: string, t: string, i: nat)
    requires OccursAt(s, t, i)
    ensures Contains(s, t)
  {
    ContainsIffOccurs(s, t);
  }

  // Each fact about a message is its own lemma: stated together, the
  // verifier unrolls `Contains` over the literals and runs out of resources.

  lemma LossMarked()
    ensures Contains(OPERATING_LOSS, "CRITICAL")
  {
    OccursContains("CRITICAL", "CRITICAL", 0);
    ContainsInContext("\U{1F6A8} ", "CRITICAL", " RED FLAG: Operating Loss.", "CRITICAL");
  }

  lemma MarginUncritical()
    ensures !Contains(MARGIN_COLLAPSE, "CRITICAL")
  {
    NotContainsForeignChar(MARGIN_COLLAPSE, "CRITICAL", 1);
  }

  lemma MarginMarked()
    ensures Contains(MARGIN_COLLAPSE, WARNING_SIGN)
  {
    OccursContains(WARNING_SIGN, WARNING_SIGN, 0);
    ContainsInContext("", WARNING_SIGN, " Margin Collapse.", WARNING_SIGN);
    assert "" + WARNING_SIGN + " Margin Collapse." == MARGIN_COLLAPSE;
  }

  lemma DeclineUncritical()
    ensures !Contains(REVENUE_DECLINE, "CRITICAL")
  {
    NotContainsForeignChar(REVENUE_DECLINE, "CRITICAL", 3);
  }

  lemma DeclineUnwarned()
    ensures !Contains(REVENUE_DECLINE, WARNING_SIGN)
  {
    NotContainsForeignChar(REVENUE_DECLINE, WARNING_SIGN, 0);
  }

  lemma DeclineMarked()
    ensures Contains(REVENUE_DECLINE, CHART_DOWN)
  {
    OccursContains(CHART_DOWN, CHART_DOWN, 0);
    ContainsInContext("", CHART_DOWN, " Significant Revenue decline QoQ.", CHART_DOWN);
    assert "" + CHART_DOWN + " Significant Revenue decline QoQ." == REVENUE_DECLINE;
  }

  lemma GrowthUncritical()
    ensures !Contains(PROFIT_GROWTH, "CRITICAL")
  {
    NotContainsForeignChar(PROFIT_GROWTH, "CRITICAL", 0);
  }

  lemma GrowthUnwarned()
    ensures !Contains(PROFIT_GROWTH, WARNING_SIGN)
  {
    NotContainsForeignChar(PROFIT_GROWTH, WARNING_SIGN, 0);
  }

  lemma GrowthNoChart()
    ensures !Contains(PROFIT_GROWTH, CHART_DOWN)
  {
    NotContainsForeignChar(PROFIT_GROWTH, CHART_DOWN, 0);
  }

  lemma GrowthMarked()
    ensures Contains(PROFIT_GROWTH, ROCKET)
  {
    OccursContains(ROCKET, ROCKET, 0);
    ContainsInContext("", ROCKET, " Strong Profit growth YoY.", ROCKET);
    assert "" + ROCKET + " Strong Profit growth YoY." == PROFIT_GROWTH;
  }

  /** The four observations weigh -5, -2, -1 and +2. */
  lemma ObservationWeights()
    ensures Weight(OPERATING_LOSS) == -5
    ensures Weight(MARGIN_COLLAPSE) == -2
    ensures Weight(REVENUE_DECLINE) == -1
    ensures Weight(PROFIT_GROWTH) == 2
  {
    LossMarked();
    MarginUncritical();
    MarginMarked();
    DeclineUncritical();
    DeclineUnwarned();
    DeclineMarked();
    GrowthUncritical();
    GrowthUnwarned();
    GrowthNoChart();
    GrowthMarked();
  }

  lemma Singleton(o: string)
    ensures ObservationScore([o]) == Weight(o)
  {
    assert [o][..0] == [];
  }

  /** The score of the observations the rules produce, rule by rule. */
  lemma StandardScore(curr: PerMetric<real>, revenueQoq: real, netProfitYoy: real)
    ensures ObservationScore(Observations(curr, revenueQoq, netProfitYoy)) ==
      (if curr.operatingProfit < 0.0 then -5 else 0) + (if curr.opm < 0.0 then -2 else 0)
      + (if revenueQoq < -10.0 then -1 else 0) + (if netProfitYoy > 20.0 then 2 else 0)
  {
    ObservationWeights();
    var a := if curr.operatingProfit < 0.0 then [OPERATING_LOSS] else [];
    var b := if curr.opm < 0.0 then [MARGIN_COLLAPSE] else [];
    var c := if revenueQoq < -10.0 then [REVENUE_DECLINE] else [];
    var d := if netProfitYoy > 20.0 then [PROFIT_GROWTH] else [];
    ObservationScoreAppend(a + b + c, d);
    ObservationScoreAppend(a + b, c);
    ObservationScoreAppend(a, b);
    Singleton(OPERATING_LOSS);
    Singleton(MARGIN_COLLAPSE);
    Singleton(REVENUE_DECLINE);
    Singleton(PROFIT_GROWTH);
  }

  /** An operating loss is never a buy; with no net profit either, it is always a sell. */
  lemma OperatingLossVerdict(curr: PerMetric<real>, revenueQoq: real, netProfitYoy: real)
    requires curr.operatingProfit < 0.0
    ensures RecommendationFor(curr, Observations(curr, revenueQoq, netProfitYoy)).verdict != BUY
    ensures curr.netProfit <= 0.0 ==> RecommendationFor(curr, Observations(curr, revenueQoq, netProfitYoy)).verdict == SELL
  {
    StandardScore(curr, revenueQoq, netProfitYoy);
  }

  /** With no observation raised, a profitable quarter is a buy and any other a hold. */
  lemma QuietQuarterVerdict(curr: PerMetric<real>, revenueQoq: real, netProfitYoy: real)
    requires curr.operatingProfit >= 0.0 && curr.opm >= 0.0 && revenueQoq >= -10.0 && netProfitYoy <= 20.0
    ensures Observations(curr, revenueQoq, netProfitYoy) == []
    ensures RecommendationFor(curr, []).verdict == (if curr.netProfit > 0.0 then BUY else HOLD)
  {
  }

  // ---------------------------------------------------------------------------
  // The summary

  /** After the first `i` metrics: both figures of each of them, and nothing else. */
  ghost predicate GrowthUpTo(growth: map<GrowthKey, real>, i: nat, curr: PerMetric<real>, prev: PerMetric<real>, yoy: PerMetric<real>) {
    |growth| == 2 * i
    && (forall key :: key in growth ==> IndexOf(key.metric) < i && growth[key] == GrowthOf(curr, prev, yoy, key))
    && (forall key: GrowthKey :: IndexOf(key.metric) < i ==> key in growth)
  }

  /** Adding the two figures of metric `i` extends the table to the first `i + 1` metrics. */
  lemma GrowthStep(growth: map<GrowthKey, real>, i: nat, curr: PerMetric<real>, prev: PerMetric<real>, yoy: PerMetric<real>)
    requires i < |METRICS| && GrowthUpTo(growth, i, curr, prev, yoy)
    ensures GrowthUpTo(growth[GrowthKey(METRICS[i], Qoq) := GrowthOf(curr, prev, yoy, GrowthKey(METRICS[i], Qoq))]
                             [GrowthKey(METRICS[i], Yoy) := GrowthOf(curr, prev, yoy, GrowthKey(METRICS[i], Yoy))],
                       i + 1, curr, prev, yoy)
  {
    var m := METRICS[i];
    IndexOfAt(i);
    var q, y := GrowthKey(m, Qoq), GrowthKey(m, Yoy);
    assert q !in growth && y !in growth;
    var g1 := growth[q := GrowthOf(curr, prev, yoy, q)];
    assert |g1| == 2 * i + 1;
    var g2 := g1[y := GrowthOf(curr, prev, yoy, y)];
    forall key: GrowthKey | IndexOf(key.metric) == i ensures key in g2 {
      assert key.metric == m;
      if key.span == Qoq {
        assert key == q;
      } else {
        assert key == y;
      }
    }
  }

  /** The growth loop of `analyze_results`: quarter-on-quarter and year-on-year figures for every metric. */
  method GrowthFigures(curr: PerMetric<real>, prev: PerMetric<real>, yoy: PerMetric<real>) returns (growth: map<GrowthKey, real>)
    ensures |growth| == 16
    ensures forall key :: key in growth && growth[key] == GrowthOf(curr, prev, yoy, key)
  {
    growth := map[];
    for i := 0 to |METRICS|
      invariant GrowthUpTo(growth, i, curr, prev, yoy)
    {
      var m := METRICS[i];
      GrowthStep(growth, i, curr, prev, yoy);
      growth := growth[GrowthKey(m, Qoq) := Growth(curr.Get(m), prev.Get(m))];
      growth := growth[GrowthKey(m, Yoy) := Growth(curr.Get(m), yoy.Get(m))];
    }
  }

  /** The observation rules of `analyze_results`, each appending its message when it fires. */
  method RaiseObservations(curr: PerMetric<real>, revenueQoq: real, netProfitYoy: real) returns (observations: seq<string>)
    ensures observations == Observations(curr, revenueQoq, netProfitYoy)
  {
    observations := [];
    if curr.operatingProfit < 0.0 {
      observations := observations + [OPERATING_LOSS];
    }
    if curr.opm < 0.0 {
      observations := observations + [MARGIN_COLLAPSE];
    }
    if revenueQoq < -10.0 {
      observations := observations + [REVENUE_DECLINE];
    }
    if netProfitYoy > 20.0 {
      observations := observations + [PROFIT_GROWTH];
    }
  }

  /**
   * The summary of at least three rows: the rows themselves, the sixteen
   * growth figures of the first row against the next two, the observations
   * if asked for and the recommendation on them if asked for.
   */
  ghost predicate Summarizes(s: Summary, results: seq<PeriodRow>, includeObs: bool, includeRec: bool) {
    s.Summary?
    && |results| >= 3
    && s.tableData == results
    && |s.growth| == 16
    && (forall key :: key in s.growth
          && s.growth[key] == GrowthOf(results[0].values, results[1].values, results[2].values, key))
    && s.observations == (if includeObs then RaisedObservations(results) else [])
    && s.recommendation == (if includeRec then Some(RecommendationFor(results[0].values, s.observations)) else None)
  }

  /**
   * `analyze_results`: `{}` for an empty table, an error for a table with
   * fewer than three rows (the source indexes rows 0 to 2), otherwise the
   * 16 growth figures, the observations if asked for and the verdict if
   * asked for.
   */
  method AnalyzeResults(results: seq<PeriodRow>, includeObs: bool, includeRec: bool) returns (out: Result<Summary>)
    ensures results == [] <==> out == Success(Empty)
    ensures out.Failure? <==> 0 < |results| < 3
    ensures out.Success? && out.value.Summary? ==> Summarizes(out.value, results, includeObs, includeRec)
  {
    if results == [] {
      return Success(Empty);
    }
    if |results| < 3 {
      return Failure("IndexError: list index out of range");
    }
    var curr, prev, yoy := results[0].values, results[1].values, results[2].values;
    var growth := GrowthFigures(curr, prev, yoy);
    var observations: seq<string> := [];
    if includeObs {
      observations := RaiseObservations(curr, growth[GrowthKey(Revenue, Qoq)], growth[GrowthKey(NetProfit, Yoy)]);
    }
    var recommendation: Option<Recommendation> := None;
    if includeRec {
      var rec := GenerateRecommendation(curr, observations);
      recommendation := Some(rec);
    }
    return Success(Summary(results, growth, observations, recommendation));
  }

  /** The observations the rules raise on the first three rows of a table. */
  function RaisedObservations(results: seq<PeriodRow>): seq<string>
    requires |results| >= 3
  {
    var curr, prev, yoy := results[0].values, results[1].values, results[2].values;
    Observations(curr, GrowthOf(curr, prev, yoy, GrowthKey(Revenue, Qoq)), GrowthOf(curr, prev, yoy, GrowthKey(NetProfit, Yoy)))
  }
}
