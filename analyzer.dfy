/**
 * `LocalAnalyzer`: the object that reads a quarterly-results filing page by
 * page, files the amounts of each matched row into its three per-period
 * tables in place, derives the figures no row names, and assembles the
 * report with the identifiers, the corporate actions and the statement type.
 *
 * The methods of the class are proved against folds over the rows and pages
 * of the document; the lemmas after the folds say what the whole document
 * does to the tables.
 */
module Analysis {
  import opened Wrappers
  import opened Strings
  import opened Decimal
  import opened Metrics
  import opened Rows
  import opened LabelMatcher
  import opened PageSelection
  import opened Tables
  import NumericParser
  import Report
  import Identifiers
  import CorporateActions

  // ---------------------------------------------------------------------------
  // The document as a fold of rows and pages

  /** The rows of one page, top to bottom, each filed with the page's priority and scale. */
  function RowsUpdate(t: Tables, rows: seq<seq<Cell>>, prio: nat, pageScale: real): Tables
  {
    if rows == [] then t
    else RowUpdate(RowsUpdate(t, rows[..|rows| - 1], prio, pageScale), rows[|rows| - 1], prio, pageScale)
  }

  /** One selected page: its priority and scale come from its lower-cased text, its rows from its words. */
  function PageUpdate(t: Tables, page: Page, defaultScale: real): Tables
  {
    var txt := Lower(TextOf(page));
    RowsUpdate(t, PageRows(page.words), Priority(txt), PageScale(txt, defaultScale))
  }

  /** The pages at the indices `sel`, in that order. */
  function PagesUpdate(t: Tables, pages: seq<Page>, sel: seq<nat>, defaultScale: real): Tables
    requires forall i :: 0 <= i < |sel| ==> sel[i] < |pages|
  {
    if sel == [] then t
    else PageUpdate(PagesUpdate(t, pages, sel[..|sel| - 1], defaultScale), pages[sel[|sel| - 1]], defaultScale)
  }

  /** The tables after every selected page of the document was read, before finalization. */
  function Collected(t: Tables, pages: seq<Page>): Tables
  {
    PagesUpdate(t, pages, SelectedPages(pages, DocumentStatement(pages)), DocumentScale(pages))
  }

  /** The tables after the whole document was read and the four periods finalized. */
  function Extraction(t: Tables, pages: seq<Page>): Tables
  {
    FinalizeFirst(Collected(t, pages), 4)
  }

  /** `table_data`: one row per period, in column order, labelled with its period. */
  function TableRows(t: Tables): seq<Report.PeriodRow>
  {
    [Report.PeriodRow(Current, t.results.Get(Current)), Report.PeriodRow(PrevQtr, t.results.Get(PrevQtr)),
     Report.PeriodRow(YoyQtr, t.results.Get(YoyQtr)), Report.PeriodRow(YearEnded, t.results.Get(YearEnded))]
  }

  /** `full_text`: the text of every page (none counts as empty), each followed by a newline. */
  function FullText(pages: seq<Page>): string
  {
    if pages == [] then [] else FullText(pages[..|pages| - 1]) + TextOf(pages[|pages| - 1]) + "\n"
  }

  /** The loop that builds `full_text`. */
  method JoinPageTexts(pages: seq<Page>) returns (fullText: string)
    ensures fullText == FullText(pages)
  {
    fullText := "";
    for i := 0 to |pages|
      invariant fullText == FullText(pages[..i])
    {
      assert pages[..i + 1][..i] == pages[..i];
      fullText := fullText + pages[i].text.GetOr("") + "\n";
    }
    assert pages[..|pages|] == pages;
  }

  /** The report `analyze` returns; the debug log is not modelled. */
  datatype Output = Output(
    summary: Report.Summary,
    ids: Identifiers.Identifiers,
    actions: Option<CorporateActions.Actions>,
    resultType: Statement)

  // ---------------------------------------------------------------------------
  // What reading the document does to the tables

  /** Over the rows of a page, no priority ever gets worse. */
  lemma {:induction false} RowsNeverWorsen(t: Tables, rows: seq<seq<Cell>>, prio: nat, pageScale: real, p: Period, m: Metric)
    ensures RowsUpdate(t, rows, prio, pageScale).Prio(p, m) <= t.Prio(p, m)
  {
    if rows != [] {
      var s := RowsUpdate(t, rows[..|rows| - 1], prio, pageScale);
      RowsNeverWorsen(t, rows[..|rows| - 1], prio, pageScale, p, m);
      RowKeepsBetterPriority(s, rows[|rows| - 1], prio, pageScale, p, m);
    }
  }

  /** Over the selected pages, no priority ever gets worse. */
  lemma {:induction false} PagesNeverWorsen(t: Tables, pages: seq<Page>, sel: seq<nat>, defaultScale: real, p: Period, m: Metric)
    requires forall i :: 0 <= i < |sel| ==> sel[i] < |pages|
    ensures PagesUpdate(t, pages, sel, defaultScale).Prio(p, m) <= t.Prio(p, m)
  {
    if sel != [] {
      var s := PagesUpdate(t, pages, sel[..|sel| - 1], defaultScale);
      var page := pages[sel[|sel| - 1]];
      var txt := Lower(TextOf(page));
      PagesNeverWorsen(t, pages, sel[..|sel| - 1], defaultScale, p, m);
      RowsNeverWorsen(s, PageRows(page.words), Priority(txt), PageScale(txt, defaultScale), p, m);
    }
  }

  /** A metric filed from a consolidated page with a non-zero amount. */
  predicate Settled(t: Tables, p: Period, m: Metric)
  {
    t.Prio(p, m) == 1 && t.Value(p, m) != 0.0
  }

  lemma RowKeepsSettled(t: Tables, cells: seq<Cell>, prio: nat, pageScale: real, p: Period, m: Metric)
    requires prio >= 1 && Settled(t, p, m)
    ensures RowUpdate(t, cells, prio, pageScale).Value(p, m) == t.Value(p, m)
    ensures RowUpdate(t, cells, prio, pageScale).Prio(p, m) == 1
  {
    RowEffect(t, cells, prio, pageScale);
    if Amounts(cells) != [] && Match(RowKeyLabel(cells)).Some? {
      assert MetricAfter(t, RowUpdate(t, cells, prio, pageScale), Match(RowKeyLabel(cells)).value,
                         Amounts(cells), prio, pageScale, Used(|Amounts(cells)|), p, m);
    }
  }

  lemma {:induction false} RowsKeepSettled(t: Tables, rows: seq<seq<Cell>>, prio: nat, pageScale: real, p: Period, m: Metric)
    requires prio >= 1 && Settled(t, p, m)
    ensures RowsUpdate(t, rows, prio, pageScale).Value(p, m) == t.Value(p, m)
    ensures Settled(RowsUpdate(t, rows, prio, pageScale), p, m)
  {
    if rows != [] {
      var s := RowsUpdate(t, rows[..|rows| - 1], prio, pageScale);
      RowsKeepSettled(t, rows[..|rows| - 1], prio, pageScale, p, m);
      RowKeepsSettled(s, rows[|rows| - 1], prio, pageScale, p, m);
    }
  }

  /**
   * Once a metric holds a non-zero amount from a consolidated page, no later
   * page changes it: neither a standalone or unclassified page (worse
   * priority) nor another consolidated one (equal priority, but non-zero).
   */
  lemma {:induction false} ConsolidatedValueSticks(t: Tables, pages: seq<Page>, sel: seq<nat>, defaultScale: real, p: Period, m: Metric)
    requires forall i :: 0 <= i < |sel| ==> sel[i] < |pages|
    requires Settled(t, p, m)
    ensures PagesUpdate(t, pages, sel, defaultScale).Value(p, m) == t.Value(p, m)
    ensures Settled(PagesUpdate(t, pages, sel, defaultScale), p, m)
  {
    if sel != [] {
      var s := PagesUpdate(t, pages, sel[..|sel| - 1], defaultScale);
      var page := pages[sel[|sel| - 1]];
      var txt := Lower(TextOf(page));
      ConsolidatedValueSticks(t, pages, sel[..|sel| - 1], defaultScale, p, m);
      RowsKeepSettled(s, PageRows(page.words), Priority(txt), PageScale(txt, defaultScale), p, m);
    }
  }

  lemma {:induction false} RowsKeepHelper(t: Tables, rows: seq<seq<Cell>>, prio: nat, pageScale: real, p: Period, h: Helper)
    requires t.Aid(p, h) != 0.0
    ensures RowsUpdate(t, rows, prio, pageScale).Aid(p, h) == t.Aid(p, h)
  {
    if rows != [] {
      var s := RowsUpdate(t, rows[..|rows| - 1], prio, pageScale);
      RowsKeepHelper(t, rows[..|rows| - 1], prio, pageScale, p, h);
      RowKeepsHelper(s, rows[|rows| - 1], prio, pageScale, p, h);
    }
  }

  /** The first non-zero amount filed under a helper is the one the finalization uses. */
  lemma {:induction false} HelperValueSticks(t: Tables, pages: seq<Page>, sel: seq<nat>, defaultScale: real, p: Period, h: Helper)
    requires forall i :: 0 <= i < |sel| ==> sel[i] < |pages|
    requires t.Aid(p, h) != 0.0
    ensures PagesUpdate(t, pages, sel, defaultScale).Aid(p, h) == t.Aid(p, h)
  {
    if sel != [] {
      var s := PagesUpdate(t, pages, sel[..|sel| - 1], defaultScale);
      var page := pages[sel[|sel| - 1]];
      var txt := Lower(TextOf(page));
      HelperValueSticks(t, pages, sel[..|sel| - 1], defaultScale, p, h);
      RowsKeepHelper(s, PageRows(page.words), Priority(txt), PageScale(txt, defaultScale), p, h);
    }
  }

  /**
   * Every priority is a page priority (1, 2 or 3) or still the initial 99,
   * and a metric still at 99 still reads 0: an amount is only ever
   * non-zero after a page supplied it.
   */
  predicate PrioritiesKnown(t: Tables)
  {
    forall p: Period, m: Metric ::
      (1 <= t.Prio(p, m) <= 3) || (t.Prio(p, m) == UNSET && t.Value(p, m) == 0.0)
  }

  lemma RowKeepsPrioritiesKnown(t: Tables, cells: seq<Cell>, prio: nat, pageScale: real)
    requires 1 <= prio <= 3 && PrioritiesKnown(t)
    ensures PrioritiesKnown(RowUpdate(t, cells, prio, pageScale))
  {
    var t' := RowUpdate(t, cells, prio, pageScale);
    RowEffect(t, cells, prio, pageScale);
    if Amounts(cells) != [] && Match(RowKeyLabel(cells)).Some? {
      forall p: Period, m: Metric ensures (1 <= t'.Prio(p, m) <= 3) || (t'.Prio(p, m) == UNSET && t'.Value(p, m) == 0.0) {
        assert MetricAfter(t, t', Match(RowKeyLabel(cells)).value, Amounts(cells), prio, pageScale, Used(|Amounts(cells)|), p, m);
      }
    }
  }

  lemma {:induction false} RowsKeepPrioritiesKnown(t: Tables, rows: seq<seq<Cell>>, prio: nat, pageScale: real)
    requires 1 <= prio <= 3 && PrioritiesKnown(t)
    ensures PrioritiesKnown(RowsUpdate(t, rows, prio, pageScale))
  {
    if rows != [] {
      RowsKeepPrioritiesKnown(t, rows[..|rows| - 1], prio, pageScale);
      RowKeepsPrioritiesKnown(RowsUpdate(t, rows[..|rows| - 1], prio, pageScale), rows[|rows| - 1], prio, pageScale);
    }
  }

  lemma {:induction false} PagesKeepPrioritiesKnown(t: Tables, pages: seq<Page>, sel: seq<nat>, defaultScale: real)
    requires forall i :: 0 <= i < |sel| ==> sel[i] < |pages|
    requires PrioritiesKnown(t)
    ensures PrioritiesKnown(PagesUpdate(t, pages, sel, defaultScale))
  {
    if sel != [] {
      var s := PagesUpdate(t, pages, sel[..|sel| - 1], defaultScale);
      var page := pages[sel[|sel| - 1]];
      var txt := Lower(TextOf(page));
      PagesKeepPrioritiesKnown(t, pages, sel[..|sel| - 1], defaultScale);
      RowsKeepPrioritiesKnown(s, PageRows(page.words), Priority(txt), PageScale(txt, defaultScale));
    }
  }

  /** A fresh analyzer only ever holds page priorities, or 99 with an amount of 0, before finalization. */
  lemma FreshPrioritiesKnown(pages: seq<Page>)
    ensures PrioritiesKnown(Collected(Initial(), pages))
  {
    PagesKeepPrioritiesKnown(Initial(), pages, SelectedPages(pages, DocumentStatement(pages)), DocumentScale(pages));
  }

  lemma {:induction false} RowsLeaveDerived(t: Tables, rows: seq<seq<Cell>>, prio: nat, pageScale: real)
    requires DerivedUntouched(t)
    ensures DerivedUntouched(RowsUpdate(t, rows, prio, pageScale))
  {
    if rows != [] {
      RowsLeaveDerived(t, rows[..|rows| - 1], prio, pageScale);
      RowLeavesDerived(RowsUpdate(t, rows[..|rows| - 1], prio, pageScale), rows[|rows| - 1], prio, pageScale);
    }
  }

  lemma {:induction false} PagesLeaveDerived(t: Tables, pages: seq<Page>, sel: seq<nat>, defaultScale: real)
    requires forall i :: 0 <= i < |sel| ==> sel[i] < |pages|
    requires DerivedUntouched(t)
    ensures DerivedUntouched(PagesUpdate(t, pages, sel, defaultScale))
  {
    if sel != [] {
      var s := PagesUpdate(t, pages, sel[..|sel| - 1], defaultScale);
      var page := pages[sel[|sel| - 1]];
      var txt := Lower(TextOf(page));
      PagesLeaveDerived(t, pages, sel[..|sel| - 1], defaultScale);
      RowsLeaveDerived(s, PageRows(page.words), Priority(txt), PageScale(txt, defaultScale));
    }
  }

  /** Reading the pages into fresh tables leaves operating profit and OPM unwritten. */
  lemma FreshCollectionUntouched(pages: seq<Page>)
    ensures DerivedUntouched(Collected(Initial(), pages))
  {
    PagesLeaveDerived(Initial(), pages, SelectedPages(pages, DocumentStatement(pages)), DocumentScale(pages));
  }

  /**
   * After finalizing tables whose operating profit and OPM were never
   * written (as `FreshCollectionUntouched` shows of a fresh analyzer), in
   * every period: with no revenue, operating profit and OPM are 0; with
   * revenue, operating profit is pbt + depreciation + interest - other
   * income as read and OPM its share of revenue in percent; and revenue
   * differs from the amount read only when none was read and total income
   * was.
   */
  lemma FinalizedDerivation(c: Tables, p: Period)
    requires DerivedUntouched(c)
    ensures FinalizeFirst(c, 4).Value(p, Revenue) == 0.0 ==>
      FinalizeFirst(c, 4).Value(p, OperatingProfit) == 0.0 && FinalizeFirst(c, 4).Value(p, Opm) == 0.0
    ensures FinalizeFirst(c, 4).Value(p, Revenue) != 0.0 ==>
      FinalizeFirst(c, 4).Value(p, OperatingProfit) == Round2(c.Value(p, Pbt) + c.Aid(p, Dep) + c.Aid(p, Int) - c.Value(p, OtherIncome))
      && FinalizeFirst(c, 4).Value(p, Opm) == Round2(FinalizeFirst(c, 4).Value(p, OperatingProfit) / FinalizeFirst(c, 4).Value(p, Revenue) * 100.0)
    ensures FinalizeFirst(c, 4).Value(p, Revenue) != c.Value(p, Revenue) ==> c.Value(p, Revenue) == 0.0 && c.Aid(p, TotalInc) != 0.0
  {
    FinalizeAllAt(c, p);
    FinalizeDerives(c, p);
  }

  /** Indices below `|pages|` read the same pages after more pages are appended. */
  lemma {:induction false} PagesUpdateExtend(t: Tables, pages: seq<Page>, more: seq<Page>, sel: seq<nat>, defaultScale: real)
    requires forall i :: 0 <= i < |sel| ==> sel[i] < |pages|
    ensures PagesUpdate(t, pages + more, sel, defaultScale) == PagesUpdate(t, pages, sel, defaultScale)
  {
    if sel != [] {
      PagesUpdateExtend(t, pages, more, sel[..|sel| - 1], defaultScale);
      assert (pages + more)[sel[|sel| - 1]] == pages[sel[|sel| - 1]];
    }
  }

  /** A page added at the end is selected after all the others, or not at all. */
  lemma SelectionAppend(pages: seq<Page>, page: Page, target: Statement)
    ensures SelectedPages(pages + [page], target)
      == SelectedPages(pages, target) + (if Selected(page, target) then [|pages|] else [])
  {
    assert (pages + [page])[..|pages|] == pages;
  }

  /** Pages are read in document order: a selected page added at the end is read after all the others. */
  lemma AppendedSelectedPage(t: Tables, pages: seq<Page>, page: Page, target: Statement, defaultScale: real)
    requires Selected(page, target)
    ensures PagesUpdate(t, pages + [page], SelectedPages(pages + [page], target), defaultScale)
      == PageUpdate(PagesUpdate(t, pages, SelectedPages(pages, target), defaultScale), page, defaultScale)
  {
    var sel := SelectedPages(pages, target);
    SelectionAppend(pages, page, target);
    PagesUpdateExtend(t, pages, [page], sel, defaultScale);
    assert (sel + [|pages|])[..|sel|] == sel;
  }

  /** A page that is not selected changes nothing, wherever it stands. */
  lemma AppendedUnselectedPage(t: Tables, pages: seq<Page>, page: Page, target: Statement, defaultScale: real)
    requires !Selected(page, target)
    ensures PagesUpdate(t, pages + [page], SelectedPages(pages + [page], target), defaultScale)
      == PagesUpdate(t, pages, SelectedPages(pages, target), defaultScale)
  {
    var sel := SelectedPages(pages, target);
    SelectionAppend(pages, page, target);
    assert sel + [] == sel;
    assert SelectedPages(pages + [page], target) == sel;
    PagesUpdateExtend(t, pages, [page], sel, defaultScale);
  }

  // ---------------------------------------------------------------------------
  // The analyzer object

  class LocalAnalyzer {
    const includeCorpActions: bool
    const includeObservations: bool
    const includeRecommendations: bool
    var target: Statement
    var results: PerPeriod<PerMetric<real>>
    var found: PerPeriod<PerMetric<nat>>
    var helpers: PerPeriod<PerHelper<real>>

    /** The three tables as a value. */
    function Snapshot(): Tables
      reads this
    {
      Tables(results, found, helpers)
    }

    /** Amounts 0, priorities 99, helpers 0, target Consolidated until `Analyze` decides. */
    constructor(includeCorpActions: bool, includeObservations: bool, includeRecommendations: bool)
      ensures Snapshot() == Initial() && target == Consolidated
      ensures this.includeCorpActions == includeCorpActions
      ensures this.includeObservations == includeObservations
      ensures this.includeRecommendations == includeRecommendations
    {
      this.includeCorpActions := includeCorpActions;
      this.includeObservations := includeObservations;
      this.includeRecommendations := includeRecommendations;
      target := Consolidated;
      var zero := PerMetric(0.0, 0.0, 0.0, 0.0, 0.0, 0.0, 0.0, 0.0);
      var unset := PerMetric(UNSET, UNSET, UNSET, UNSET, UNSET, UNSET, UNSET, UNSET);
      var aids := PerHelper(0.0, 0.0, 0.0, 0.0);
      results := PerPeriod(zero, zero, zero, zero);
      found := PerPeriod(unset, unset, unset, unset);
      helpers := PerPeriod(aids, aids, aids, aids);
    }

    /** The cell loop of a row: the parseable amounts, in order, and every cell's text. */
    static method ReadCells(cells: seq<Cell>) returns (nums: seq<real>, texts: seq<string>)
      ensures nums == Amounts(cells)
      ensures texts == CellStrings(cells)
    {
      nums := [];
      texts := [];
      for i := 0 to |cells|
        invariant nums == Amounts(cells[..i])
        invariant texts == CellStrings(cells[..i])
      {
        assert cells[..i + 1][..i] == cells[..i];
        var v := NumericParser.ParseVal(cells[i].text);
        if v.Some? {
          nums := nums + [v.value];
        }
        texts := texts + [cells[i].text];
      }
      assert cells[..|cells|] == cells;
    }

    /** The first four amounts of a matched row, scaled, filed under `k` period by period. */
    method FileAmounts(k: Target, nums: seq<real>, prio: nat, pageScale: real)
      modifies this
      ensures Snapshot() == WriteFirst(old(Snapshot()), k, nums, prio, pageScale, Used(|nums|))
      ensures target == old(target)
    {
      ghost var t0 := Snapshot();
      var n := if |nums| < 4 then |nums| else 4;
      for i := 0 to n
        invariant Snapshot() == WriteFirst(t0, k, nums, prio, pageScale, i)
        invariant target == old(target)
      {
        var p := PeriodAt(i);
        var divisor := if k == Primary(Eps) || pageScale == 1.0 then 1.0 else 100.0;
        var value := Round2(nums[i] / divisor);
        match k
        case Aux(h) =>
          if helpers.Get(p).Get(h) == 0.0 {
            helpers := helpers.Set(p, helpers.Get(p).Set(h, value));
          }
        case Primary(m) =>
          var current := found.Get(p).Get(m);
          if prio < current || (prio == current && results.Get(p).Get(m) == 0.0) {
            results := results.Set(p, results.Get(p).Set(m, value));
            found := found.Set(p, found.Get(p).Set(m, prio));
          }
      }
    }

    /**
     * One row of a selected page: parse every cell, give up without
     * amounts, match the row label, and file the first four amounts, scaled,
     * under the matched key, period by period.
     */
    method ProcessRow(cells: seq<Cell>, prio: nat, pageScale: real)
      modifies this
      ensures Snapshot() == RowUpdate(old(Snapshot()), cells, prio, pageScale)
      ensures target == old(target)
    {
      var nums, texts := ReadCells(cells);
      if nums == [] {
        return;
      }
      var key := MatchLabel(RowLabel(texts));
      if key.None? {
        return;
      }
      FileAmounts(key.value, nums, prio, pageScale);
    }

    /** The row loop of a page, with the page's priority and unit. */
    method ProcessRows(rows: seq<seq<Cell>>, prio: nat, pageScale: real)
      modifies this
      ensures Snapshot() == RowsUpdate(old(Snapshot()), rows, prio, pageScale)
      ensures target == old(target)
    {
      ghost var t0 := Snapshot();
      for r := 0 to |rows|
        invariant Snapshot() == RowsUpdate(t0, rows[..r], prio, pageScale)
        invariant target == old(target)
      {
        assert rows[..r + 1][..r] == rows[..r];
        ProcessRow(rows[r], prio, pageScale);
      }
      assert rows[..|rows|] == rows;
    }

    /** Every row of a selected page, with the page's priority and unit. */
    method ProcessPage(page: Page, defaultScale: real)
      modifies this
      ensures Snapshot() == PageUpdate(old(Snapshot()), page, defaultScale)
      ensures target == old(target)
    {
      var txt := Lower(TextOf(page));
      var prio := Priority(txt);
      var pageScale := PageScale(txt, defaultScale);
      var rows := GetRows(page.words);
      ProcessRows(rows, prio, pageScale);
    }

    /** The scoring loop: the indices of the pages with text that score at least 100 against the target. */
    method SelectPages(pages: seq<Page>) returns (best: seq<nat>)
      ensures best == SelectedPages(pages, target)
    {
      best := [];
      for i := 0 to |pages|
        invariant best == SelectedPages(pages[..i], target)
      {
        assert pages[..i + 1][..i] == pages[..i];
        var text := pages[i].text;
        if text.Some? && text.value != [] {
          var txt := Lower(text.value);
          var score := 0;
          if Contains(txt, "ended") {
            score := score + 50;
          }
          if Contains(txt, "particulars") {
            score := score + 50;
          }
          if Contains(txt, TargetWord(target)) {
            score := score + 100;
          }
          if score >= 100 {
            best := best + [i];
          }
        }
      }
      assert pages[..|pages|] == pages;
    }

    /** The selected pages, in the order of `best`. */
    method ReadPages(pages: seq<Page>, best: seq<nat>, defaultScale: real)
      requires forall i :: 0 <= i < |best| ==> best[i] < |pages|
      modifies this
      ensures Snapshot() == PagesUpdate(old(Snapshot()), pages, best, defaultScale)
      ensures target == old(target)
    {
      for j := 0 to |best|
        invariant Snapshot() == PagesUpdate(old(Snapshot()), pages, best[..j], defaultScale)
        invariant target == old(target)
      {
        assert best[..j + 1][..j] == best[..j];
        ProcessPage(pages[best[j]], defaultScale);
      }
      assert best[..|best|] == best;
    }

    /** `table_data`: the result record of each period, labelled with the period. */
    method TableData() returns (tableData: seq<Report.PeriodRow>)
      ensures tableData == TableRows(Snapshot())
    {
      tableData := [];
      for i := 0 to 4
        invariant tableData == TableRows(Snapshot())[..i]
      {
        var p := PeriodAt(i);
        tableData := tableData + [Report.PeriodRow(p, results.Get(p))];
      }
    }

    /** Post-processing, period by period, in column order. */
    method Finalize()
      modifies this
      ensures Snapshot() == FinalizeFirst(old(Snapshot()), 4)
      ensures target == old(target)
    {
      for i := 0 to 4
        invariant Snapshot() == FinalizeFirst(old(Snapshot()), i)
        invariant target == old(target)
      {
        var p := PeriodAt(i);
        var r := FinalizeRecord(results.Get(p), helpers.Get(p), Snapshot(), p);
        results := results.Set(p, r);
      }
    }

    /** The table extraction of `analyze`: statement type, document scale, page choice, reading, post-processing. */
    method ExtractTables(pages: seq<Page>)
      requires pages != []
      modifies this
      ensures target == DocumentStatement(pages)
      ensures Snapshot() == Extraction(old(Snapshot()), pages)
    {
      var txtAll := Lower(JoinedText(pages[..if |pages| < 12 then |pages| else 12]));
      target := if Contains(txtAll, "consolidated") then Consolidated else Standalone;
      var globalScale := 1.0;
      if Contains(txtAll, "crore") {
        globalScale := 1.0;
      } else if Contains(txtAll, "lakh") || Contains(txtAll, "lac") || Contains(txtAll, "lacs") {
        globalScale := 100.0;
      }
      assert globalScale == DocumentScale(pages);
      var best := SelectPages(pages);
      ReadPages(pages, best, globalScale);
      Finalize();
    }

    /**
     * `analyze`: fails on a document without pages (the first page is read
     * unconditionally); otherwise decides the statement type and the unit
     * default from the first twelve pages, reads the selected pages in
     * document order, finalizes, and reports the four periods with the
     * identifiers, the corporate actions if asked for and the statement type.
     */
    method Analyze(pages: seq<Page>) returns (out: Result<Output>)
      modifies this
      ensures pages == [] ==> out.Failure? && Snapshot() == old(Snapshot()) && target == old(target)
      ensures pages != [] ==>
        out.Success?
        && target == DocumentStatement(pages)
        && Snapshot() == Extraction(old(Snapshot()), pages)
        && out.value.resultType == target
        && out.value.ids == Identifiers.ExtractIdentifiers(FullText(pages), TextOf(pages[0]))
        && out.value.actions == (if includeCorpActions then Some(CorporateActions.ActionsOf(CorporateActions.SplitLines(FullText(pages)))) else None)
        && Report.Summarizes(out.value.summary, TableRows(Snapshot()), includeObservations, includeRecommendations)
    {
      if pages == [] {
        return Failure("IndexError: list index out of range");
      }
      var firstPageText := TextOf(pages[0]);
      ExtractTables(pages);
      var tableData := TableData();
      var fullText := JoinPageTexts(pages);
      var ids := Identifiers.ExtractIdentifiers(fullText, firstPageText);
      var actions: Option<CorporateActions.Actions> := None;
      if includeCorpActions {
        var a := CorporateActions.ExtractCorporateActions(fullText);
        actions := Some(a);
      }
      var summary := Report.AnalyzeResults(tableData, includeObservations, includeRecommendations);
      return Success(Output(summary.value, ids, actions, target));
    }
  }
}
