# Quarterly-results extraction engine, modelled in Dafny

This project models the local extraction engine of `analyzer.py`. The engine reads a listed company's quarterly-results filing (a PDF), finds the results table and files its amounts into four periods:
- the current quarter;
- the previous quarter;
- the same quarter a year ago;
- the year ended.

It then derives the missing figures and builds a summary. The summary holds growth figures, observations and a buy / hold / sell verdict, together with the company's identifiers and its corporate actions.

The model follows the source's own structure:

- `Strings`, `Decimal`: ASCII character classes, `str.lower`, substring search, Python's `round(x, 2)` (half-to-even, on exact reals) and the value of digit strings.
- `NumericParser`: `parse_val`. The cleaning steps are scrubbing commas, parentheses and quotes, stripping, and collapsing stray dots. A leftmost-number scan stands in for the regular expression.
- `LabelMatcher`: `normalize`, the label text before the first number, and the keyword table with its two exclusion rules. The matching loop is a method proved against a first-match function.
- `Rows`: `get_rows`, as an imperative method proved against its specification:
  - clustering words by rounded top, in dictionary insertion order;
  - ordering the clusters by key;
  - sorting each cluster left to right;
  - merging horizontally adjacent words into cells.
- `PageSelection`: the statement type and the unit default, both taken from the first twelve pages. Also the page score and selection, the page priority, and the page unit found by `in\s*(lakh|lac|crore|million|rs|rupee)`.
- `Tables`: the three per-period tables. It covers:
  - the priority-aware write for metrics and the first-wins write for helpers;
  - scaling;
  - the post-processing that derives revenue, operating profit and OPM.
- `Analysis`: the class `LocalAnalyzer`. Its fields are `target`, `results`, `found` (`found_priority`) and `helpers`. Its methods update those fields in place, row by row and page by page:
  - `ReadCells`, `FileAmounts`, `ProcessRow`, `ProcessRows`, `ProcessPage`;
  - `SelectPages`, `ReadPages`, `Finalize`, `TableData`, `ExtractTables`, `Analyze`.
  Each method is proved against a fold (`RowUpdate`, `RowsUpdate`, `PageUpdate`, `PagesUpdate`, `FinalizeFirst`, `Extraction`). Lemmas about the folds state what a whole document does to the tables.
- `Report`: `analyze_results` and `generate_recommendation`, as methods with loops proved against functions.
- `Identifiers`: `extract_identifiers_and_period`. Each `re.search` is written as a leftmost scan that tries the alternatives in pattern order.
- `CorporateActions`: `extract_corporate_actions`, as a line loop proved against a fold over the lines. `re.findall` is written as a left-to-right, non-overlapping scan.

Inputs from the PDF layer are parameters: a page is its optional text and its positioned words (`text`, `top`, `x0`, `x1`).

## Model

| member | source | states |
|---|---|---|
| Decimal.Round2Error | analyzer.py:162 | `round(x, 2)` is within half a hundredth of `x` |
| Decimal.Round2ZeroIff | analyzer.py:162-169 | a rounded amount reads 0 exactly when the unrounded one is within half a hundredth of 0, so tiny amounts count as missing in the `== 0` tests |
| Decimal.Round2Exact | analyzer.py:162 | an amount with at most two decimals is unchanged by rounding |
| Decimal.Round2Idempotent | analyzer.py:162 | rounding twice is rounding once |
| NumericParser.ParseValNoneIff | analyzer.py:61-71 | `parse_val` gives no value exactly when the cell has no digit |
| NumericParser.CleanKeepsDigits | analyzer.py:63-64 | the replacements and `strip` neither add nor remove digits |
| NumericParser.CollapseKeepsDigits | analyzer.py:65-67 | dropping all dots but the last keeps the digits |
| NumericParser.ParseValDecimal | analyzer.py:61-71 | `d.f` reads as d + 0.f |
| NumericParser.ParseValWhole | analyzer.py:63-70 | `a,b` reads as the whole number `ab` |
| NumericParser.ParseValParenthesized | analyzer.py:63-70 | an amount in parentheses, `(d.f)`, reads as the negative of d.f |
| NumericParser.ParseValParenthesizedThousands | analyzer.py:63-70 | `(a,b.f)` reads as -(ab + 0.f) |
| NumericParser.ParseValStrayDot | analyzer.py:65-70 | with two dots, only the last is kept as the decimal point: `a.b.f` reads as ab + 0.f |
| NumericParser.ParseValRendered | analyzer.py:61-71 | the decimal rendering of any natural number parses back to that number |
| NumericParser.ParseValAccountingExample | analyzer.py:61-71 | "(1,234.5)" reads as -1234.5 |
| NumericParser.ParseValStrayDotExample | analyzer.py:65-70 | "1.234.56" reads as 1234.56 |
| LabelMatcher.NormalizeIsNormal | analyzer.py:12-13 | `normalize` outputs only `[a-z0-9]` |
| LabelMatcher.NormalizeFixesNormal | analyzer.py:12-13 | `normalize` leaves a normalized string unchanged |
| LabelMatcher.NormalizeIdempotent | analyzer.py:12-13 | `normalize` is idempotent |
| LabelMatcher.NormalizeConcat | analyzer.py:12-13 | `normalize` distributes over concatenation |
| LabelMatcher.LabelTextHasNoDigit | analyzer.py:142-144 | the label is a prefix of the row text and holds no digit |
| LabelMatcher.LabelTextOfRow | analyzer.py:142-144 | a caption without digits and not ending in `-`, followed by a number, has exactly that caption as its label |
| LabelMatcher.MatchLabel | analyzer.py:147-154 | the matching loop returns the first key, in table order, whose keywords claim the label |
| LabelMatcher.KeywordsClaim | analyzer.py:149-153 | the keyword loop of one key reports a hit exactly when one of its keywords occurs and neither exclusion rule applies |
| LabelMatcher.FirstMatchIsFirst | analyzer.py:147-154 | no match exactly when no entry claims the label; otherwise the matched key belongs to an entry that claims it, and no earlier entry does |
| LabelMatcher.MatchedEntryClaims | analyzer.py:147-154 | a matched key comes from a table entry that claims the label |
| LabelMatcher.RevenueKeywordsWin | analyzer.py:91-154 | a label holding a revenue keyword is always filed as revenue |
| LabelMatcher.NoInterestForIncome | analyzer.py:151 | a label mentioning "income" is never filed as interest |
| LabelMatcher.NoNetProfitForExcludedLines | analyzer.py:152 | comprehensive-income, minority and equity lines are never filed as net profit |
| LabelMatcher.NeverOperatingProfitOrOpm | analyzer.py:90-100 | no label is ever filed as operating profit or OPM; these are only derived |
| Rows.MergeCells | analyzer.py:50-57 | the merging loop returns the cells `Merge` specifies |
| Rows.GetRows | analyzer.py:36-59 | the imperative `get_rows` (clustering loop, key sort, per-row sort and merge) returns `PageRows(words)` |
| Rows.PlaceHolds | analyzer.py:43-45 | placing a word adds exactly that word to the clusters |
| Rows.ClusterFacts | analyzer.py:39-45 | clustering keeps every word exactly once; every cluster is non-empty and holds only words near its key, and no two keys are near |
| Rows.SortByKeyFacts | analyzer.py:48 | sorting the cluster keys gives strictly ascending keys, the same clusters and the same words |
| Rows.SortByXFacts | analyzer.py:49 | the words of a row are sorted by `x0` and are a permutation of the cluster |
| Rows.MergeKeepsText | analyzer.py:50-57 | the cell texts, concatenated, are the word texts in order |
| Rows.MergeAscending | analyzer.py:52-57 | cells of words sorted by `x0` have ascending left edges |
| Rows.MergeCount | analyzer.py:50-57 | a non-empty row has between one cell and one cell per word; the first cell starts at the first word |
| Rows.NoWordsNoRows | analyzer.py:38 | a page without words has no rows |
| Rows.RowsPartitionWords | analyzer.py:39-48 | the rows partition the words of the page, one row per cluster |
| Rows.RowsAscending | analyzer.py:43-48 | rows come top to bottom by strictly ascending key; each row's key is its first word's rounded top, and every word in it is near that key |
| Rows.RowCells | analyzer.py:47-58 | each row is the merge of its cluster sorted by `x0`: ascending cells whose texts are the words' texts in order |
| PageSelection.LeadingTextHasPage | analyzer.py:77 | a word on any of the first twelve pages occurs in the leading text |
| PageSelection.ConsolidatedMentioned | analyzer.py:77-78 | "consolidated" on any of the first twelve pages makes the document consolidated |
| PageSelection.OnlyLeadingPagesDecide | analyzer.py:77-88 | pages after the twelfth change neither the statement type nor the unit default |
| PageSelection.DocumentScaleChoice | analyzer.py:82-88 | the unit default is 1 or 100: 1 whenever "crore" occurs, and 100 exactly when "crore" does not occur and "lakh" or "lac" does |
| PageSelection.ScoreThreshold | analyzer.py:106-111 | a page scores at least 100 exactly when it names the target, or says both "ended" and "particulars" |
| PageSelection.SelectedPagesFacts | analyzer.py:102-112 | exactly the pages with text that score at least 100 are selected, in ascending page order |
| PageSelection.Priority | analyzer.py:120-121 | the priority is 1 exactly for consolidated pages, 2 exactly for standalone ones that are not consolidated, and otherwise 3 |
| PageSelection.FindUnitNone | analyzer.py:125 | the unit search fails exactly when the pattern matches nowhere |
| PageSelection.FindUnitIsLeftmost | analyzer.py:125 | the unit found is the one at the leftmost match |
| PageSelection.PageScaleChoice | analyzer.py:124-129 | the page scale is the default, 1 or 100, and differs from the default only when the first unit named is crore, lakh or lac |
| PageSelection.FirstUnitDecides | analyzer.py:125-129 | when the first match is `in` followed by "crore" or "lakh", it sets the scale to 1 or 100 |
| Tables.Initial | analyzer.py:23-29 | a fresh analyzer holds amounts of 0, priorities of 99 and helpers of 0 |
| Tables.EpsNeverScaled | analyzer.py:161 | EPS is never divided |
| Tables.ScaledByPage | analyzer.py:161-162 | any other amount is divided by 100 exactly on a lakh page, then rounded |
| Tables.LakhsToCrores | analyzer.py:160-162 | a whole number of lakhs becomes the same number of hundredths of a crore, exactly |
| Tables.WriteElsewhere | analyzer.py:164-171 | one write touches only its own key in its own period |
| Tables.WriteFirstEffect | analyzer.py:158-171 | after a row's first n writes, each metric holds its column's scaled amount exactly when the priority rule let it be overwritten, else its old value and priority; helpers likewise under first-wins |
| Tables.RowEffect | analyzer.py:134-171 | a row without amounts or without a match changes nothing; otherwise it writes only under its key, in the first min(4, #amounts) periods, as the priority or first-wins rule allows |
| Tables.RowKeepsBetterPriority | analyzer.py:168-171 | priorities never get worse; a better-priority value is never replaced; a consolidated value never yields to a standalone or unclassified row |
| Tables.RowKeepsHelper | analyzer.py:164-166 | a helper that already holds a non-zero amount keeps it |
| Tables.HelperRowLeavesResults | analyzer.py:164-166 | a row filed under a helper leaves the metrics and their priorities alone |
| Tables.RowLeavesDerived | analyzer.py:90-171 | no row ever writes operating profit or OPM |
| Tables.FinalizeRecord | analyzer.py:176-186 | the post-processing of one period's record is the finalization `FinalizePeriod` |
| Tables.FinalizePeriodElsewhere | analyzer.py:176-186 | finalizing a period touches only its revenue, operating profit and OPM |
| Tables.FinalizeFirstEffect | analyzer.py:176-186 | finalizing the periods in order treats each period on its own; priorities and helpers stay as they were |
| Tables.FinalizeAllAt | analyzer.py:176-186 | after all four periods are finalized, each period holds its own finalization |
| Tables.FinalizeDerives | analyzer.py:176-186 | with no revenue, operating profit and OPM stay 0; with revenue, operating profit is pbt + depreciation + interest - other income and OPM its rounded share of revenue; revenue changes only when it was 0 and total income was not |
| Tables.OpmBounded | analyzer.py:180-186 | with positive revenue and operating profit within revenue, OPM lies between -100 and 100 |
| Analysis.JoinPageTexts | analyzer.py:194-195 | the loop builds the full text: every page's text (none as empty), each followed by a newline |
| Analysis.RowsNeverWorsen | analyzer.py:134-171 | across the rows of a page, no priority gets worse |
| Analysis.PagesNeverWorsen | analyzer.py:117-171 | across the selected pages, no priority gets worse |
| Analysis.RowsKeepSettled | analyzer.py:168-171 | a non-zero consolidated value survives every later row of a page |
| Analysis.ConsolidatedValueSticks | analyzer.py:117-171 | a non-zero value from a consolidated page survives every later page |
| Analysis.HelperValueSticks | analyzer.py:164-166 | the first non-zero helper amount survives every later page |
| Analysis.PagesKeepPrioritiesKnown | analyzer.py:28-171 | every priority stays a page priority (1 to 3), or 99 with an amount of 0 |
| Analysis.FreshPrioritiesKnown | analyzer.py:23-172 | after a fresh analyzer reads a document, a metric whose priority is still 99 reads 0 |
| Analysis.FreshCollectionUntouched | analyzer.py:90-172 | a fresh analyzer that reads a document leaves operating profit and OPM at 0 |
| Analysis.FinalizedDerivation | analyzer.py:176-186 | after finalizing tables whose derived figures were never written, each period's operating profit and OPM are 0 without revenue, or otherwise derived from pbt, depreciation, interest and other income; revenue changes only when it was missing and total income was not |
| Analysis.PagesUpdateExtend | analyzer.py:117 | appending pages does not change how the already selected pages are read |
| Analysis.SelectionAppend | analyzer.py:103-112 | a page added at the end is selected last, or not at all |
| Analysis.AppendedSelectedPage | analyzer.py:103-119 | pages are read in document order: a selected last page is read after all the others |
| Analysis.AppendedUnselectedPage | analyzer.py:103-117 | a page that is not selected changes nothing |
| Analysis.LocalAnalyzer.constructor | analyzer.py:16-29 | the new object holds the initial tables, target Consolidated and the three options |
| Analysis.LocalAnalyzer.ReadCells | analyzer.py:135-142 | the cell loop collects the values of the cells that parse, in order, and every cell's text |
| Analysis.LocalAnalyzer.FileAmounts | analyzer.py:156-171 | the write loop leaves the tables as `WriteFirst` of the first min(4, #amounts) amounts, and leaves the target alone |
| Analysis.LocalAnalyzer.ProcessRow | analyzer.py:134-171 | processing one row updates the tables exactly as `RowUpdate` (see `Tables.RowEffect`) |
| Analysis.LocalAnalyzer.ProcessRows | analyzer.py:134 | the row loop updates the tables as the fold of `RowUpdate` over the rows |
| Analysis.LocalAnalyzer.ProcessPage | analyzer.py:119-134 | a page is read with the priority and scale of its own lower-cased text, row by row |
| Analysis.LocalAnalyzer.SelectPages | analyzer.py:102-112 | the scoring loop returns `SelectedPages` for the current target |
| Analysis.LocalAnalyzer.ReadPages | analyzer.py:117-119 | the page loop reads the chosen pages in order |
| Analysis.LocalAnalyzer.Finalize | analyzer.py:174-186 | the post-processing loop finalizes the four periods in column order |
| Analysis.LocalAnalyzer.TableData | analyzer.py:188-192 | `table_data` is one row per period, in column order, labelled with its period |
| Analysis.LocalAnalyzer.ExtractTables | analyzer.py:76-186 | the target is the document's statement type, and the tables are the finalized fold of the selected pages over the old tables, with the document's unit default |
| Analysis.LocalAnalyzer.Analyze | analyzer.py:73-207 | fails on a document without pages; otherwise the result type, tables, identifiers, corporate actions (when asked for) and summary are exactly those of the document |
| Report.GrowthMeaning | analyzer.py:251-252 | a growth figure is 0 for a zero base and otherwise the percentage change, to within half a hundredth |
| Report.NoChangeNoGrowth | analyzer.py:251-252 | an unchanged metric shows no growth |
| Report.GrowthFigures | analyzer.py:248-252 | the growth loop yields 16 figures: quarter-on-quarter and year-on-year, for each of the eight metrics |
| Report.RaiseObservations | analyzer.py:254-259 | the observation rules yield `Observations`, in rule order |
| Report.ObservationWeights | analyzer.py:256-278 | the four observations weigh -5, -2, -1 and +2 |
| Report.ObservationScoreAppend | analyzer.py:274-278 | the observation score is additive over concatenation |
| Report.StandardScore | analyzer.py:254-278 | the score of the raised observations is the sum of the weights of the rules that fired |
| Report.GenerateRecommendation | analyzer.py:272-283 | the scoring loop gives `RecommendationFor`: score from the observations plus 2 for a net profit; buy from 2, hold above -3, else sell; the observations are the reasons |
| Report.VerdictMonotone | analyzer.py:281-283 | a higher score never gives a worse verdict |
| Report.OperatingLossVerdict | analyzer.py:256-283 | an operating loss is never a buy, and with no net profit it is always a sell |
| Report.QuietQuarterVerdict | analyzer.py:254-282 | with no rule firing, a profitable quarter is a buy and any other a hold |
| Report.AnalyzeResults | analyzer.py:243-270 | `{}` exactly for an empty table; an error for one or two rows; otherwise the rows, the 16 growth figures of row 0 against rows 1 and 2, the observations if asked for and the verdict if asked for |
| Identifiers.SearchLeftmost | analyzer.py:230-236 | a scan finds nothing exactly when no position matches, and otherwise the leftmost match |
| Identifiers.IdAfterShape | analyzer.py:230 | a scrip code is six digits |
| Identifiers.CodeAfterShape | analyzer.py:232 | a symbol is a non-empty run of letters and digits |
| Identifiers.PeriodAfterShape | analyzer.py:236 | a period match names a month word and a year from 2000 to 2099 |
| Identifiers.CompanyIdShape | analyzer.py:230-231 | the company id found is six digits, taken from the leftmost position where a label and a code match |
| Identifiers.CompanyCodeShape | analyzer.py:232-233 | the company code found is a non-empty alphanumeric run, taken from the leftmost position where a label and a symbol match |
| Identifiers.PeriodShape | analyzer.py:229-240 | the quarter is one of Q1 to Q4, and the year is the default 2025 or one from 2000 to 2099 |
| Identifiers.MonthQuarters | analyzer.py:239 | june and jun give Q1, september and sep Q2, december and dec Q3, march and mar Q4 |
| Identifiers.YearValue | analyzer.py:240 | "20dd" reads as 2000 + 10d + d |
| Identifiers.ScripCodeRead | analyzer.py:230-231 | "Scrip code: dddddd..." yields the six digits, although the longer label "Scrip code no:" is tried first |
| Identifiers.SymbolRead | analyzer.py:232-233 | "Symbol: CODE..." yields the whole alphanumeric run |
| Identifiers.MarchRead | analyzer.py:236 | "march 20dd..." is found, with quarter Q4 and that year |
| Identifiers.MarchReported | analyzer.py:236-240 | text starting "march 20dd" reports Q4 and that year |
| CorporateActions.SplitJoin | analyzer.py:215 | joining the split lines with newlines gives back the text |
| CorporateActions.SplitLinesUnbroken | analyzer.py:215 | no line holds a newline |
| CorporateActions.PlainNumbersFound | analyzer.py:219 | each dividend number found is a run of digits, optionally with one inner decimal point |
| CorporateActions.DigitsFound | analyzer.py:219-222 | no number is found exactly when the line has no digit |
| CorporateActions.AmountOfGroupedNumber | analyzer.py:223 | "a,b.f" reads as ab + 0.f |
| CorporateActions.MaxOf | analyzer.py:223 | the capex is one of the amounts and at least every other |
| CorporateActions.ExtractCorporateActions | analyzer.py:213-226 | the line loop yields the fold of the line rules over `text.split('\n')` |
| CorporateActions.ManagementChangeIff | analyzer.py:224-225 | the management change is "Yes" exactly when some line names a management event, and is otherwise "No" |
| CorporateActions.NoDividendLine | analyzer.py:214-220 | with no dividend line holding numbers, the dividend is "Not mentioned" |
| CorporateActions.DividendFromLastLine | analyzer.py:218-220 | the dividend is the numbers of the last dividend line that holds numbers, joined by ", " |
| CorporateActions.NoCapexLine | analyzer.py:214-223 | with no capex line holding amounts, the capex is not mentioned |
| CorporateActions.CapexFromLastLine | analyzer.py:221-223 | the capex is the largest amount of the last capex line that holds amounts |
| CorporateActions.SpecialNeverSet | analyzer.py:214 | the special announcement is always "Not mentioned" |

## Left out

- PDF access (`pdfplumber`) is not modelled. A page is given as its optional text and its positioned words. `extract_words`' tolerances are the PDF layer's own concern.
- Logging and `debug_logs` are not modelled. `Analysis.Output` has no debug-log field.
- Floating point is not modelled. Amounts are exact reals. `round(x, 2)` is round-half-even on the exact value, and `float(...)` is the exact decimal value. Binary representation error and `inf`/`nan` are not modelled.
- `str.lower`, `\s`, `\d` and `re.I` are modelled on ASCII only. Unicode case mapping, Unicode digits and Unicode whitespace are not modelled.
- Analysis.LocalAnalyzer.Analyze: the output dictionary merged by `output.update(ids)` is modelled as a record with separate fields. `{}` for corporate actions that were not asked for is `None`. Key order is not modelled.
- Report.AnalyzeResults: the `{}` returned for an empty table is the constructor `Summary.Empty`, and the `recommendation` of `{}` left when no recommendation is asked for is `None`. Both stand for the source's empty dictionaries.
- Analysis.LocalAnalyzer.TableData: `row['period'] = p` adds the period to the `results` dictionaries themselves, so `table_data` aliases the analyzer's tables. The model builds separate rows that carry the period.
- CorporateActions.ExtractCorporateActions: a capex of "Not mentioned" is `None`, and a found capex is `Some(amount)`. The source mixes a string and a float in one field.
- CorporateActions.AmountOfGroupedNumber: `AmountValue` is defined on every string. Only its value on numbers the capex pattern finds matters, because `float` never sees anything else.
- Rows.SortByKeyFacts: `sorted` on the cluster keys is modelled as an insertion sort on distinct keys. Keys are always distinct, so stability does not arise.
- Rows.SortByXFacts: the row sort is proved sorted and a permutation. Among words with equal `x0`, the model keeps input order, as Python's stable sort does; this order is not stated as a separate lemma.
- `parse_val(None)` is not modelled: every cell has text.
- The `try`/`except` in `parse_val` is not modelled: the matched text always converts.
- The ranks attached to each keyword (1 to 5) are carried in the table but, as in the source, never consulted.
- `extract_financial_data`, `openai_analyzer.py`, `browser_utils.py`, `database_utils.py`, `app.py`, `config.py` and `static/script.js` are not part of this model.
