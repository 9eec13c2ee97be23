/**
 * The label side of a results row: `normalize`, the label text in front of
 * the first number, and the keyword table that files a row under a metric
 * (first key in table order with a keyword in the label, subject to two
 * exclusion rules).
 */
module LabelMatcher {
  import opened Wrappers
  import opened Strings
  import opened Metrics
  import NumericParser

  function NormalizeChar(c: char): string {
    if IsLowerAlnum(LowerChar(c)) then [LowerChar(c)] else []
  }

  /** `normalize(s)`: lower-case `s`, then drop everything outside `[a-z0-9]`. */
  function Normalize(s: string): string {
    if s == [] then [] else NormalizeChar(s[0]) + Normalize(s[1..])
  }

  predicate IsNormal(s: string) { forall i :: 0 <= i < |s| ==> IsLowerAlnum(s[i]) }

  /** `normalize` only ever outputs `[a-z0-9]`. */
  lemma {:induction false} NormalizeIsNormal(s: string)
    ensures IsNormal(Normalize(s))
  {
    if s != [] {
      NormalizeIsNormal(s[1..]);
      var r := Normalize(s);
      var h := NormalizeChar(s[0]);
      forall i | 0 <= i < |r| ensures IsLowerAlnum(r[i]) {
        if i >= |h| { assert r[i] == Normalize(s[1..])[i - |h|]; }
      }
    }
  }

  /** Text already in `[a-z0-9]` is left as it is. */
  lemma {:induction false} NormalizeFixesNormal(s: string)
    requires IsNormal(s)
    ensures Normalize(s) == s
  {
    if s != [] {
      assert IsLowerAlnum(s[0]);
      NormalizeFixesNormal(s[1..]);
    }
  }

  /** `normalize` is idempotent. */
  lemma NormalizeIdempotent(s: string)
    ensures Normalize(Normalize(s)) == Normalize(s)
  {
    NormalizeIsNormal(s);
    NormalizeFixesNormal(Normalize(s));
  }

  lemma {:induction false} NormalizeConcat(a: string, b: string)
    ensures Normalize(a + b) == Normalize(a) + Normalize(b)
  {
    if a == [] {
      assert a + b == b;
    } else {
      var h := NormalizeChar(a[0]);
      assert Normalize(a + b) == h + Normalize(a[1..] + b) by {
        assert (a + b)[0] == a[0];
        assert (a + b)[1..] == a[1..] + b;
      }
      assert Normalize(a[1..] + b) == Normalize(a[1..]) + Normalize(b) by {
        NormalizeConcat(a[1..], b);
      }
      assert h + (Normalize(a[1..]) + Normalize(b)) == (h + Normalize(a[1..])) + Normalize(b);
    }
  }

  // ---------------------------------------------------------------------------
  // The label of a row

  /** `sep.join(parts)`. */
  function Join(parts: seq<string>, sep: string): string {
    if parts == [] then []
    else if |parts| == 1 then parts[0]
    else parts[0] + sep + Join(parts[1..], sep)
  }

  /** The row text up to the first match of `-?\d` (all of it when there is none). */
  function LabelText(rowText: string): (l: string)
    ensures |l| <= |rowText| && l == rowText[..|l|]
    ensures |l| < |rowText| ==> NumericParser.StartsNumber(rowText, |l|)
    ensures forall j :: 0 <= j < |l| ==> !NumericParser.StartsNumber(rowText, j)
  {
    rowText[..NumericParser.FindNumber(rowText, 0)]
  }

  /** `normalize` of the label of a row whose cells hold `texts`. */
  function RowLabel(texts: seq<string>): string {
    Normalize(LabelText(Join(texts, " ")))
  }

  /** The label is a prefix of the row text and holds no digit. */
  lemma LabelTextHasNoDigit(rowText: string)
    ensures StartsWith(rowText, LabelText(rowText))
    ensures !HasDigit(LabelText(rowText))
  {
    var k := NumericParser.FindNumber(rowText, 0);
    var l := LabelText(rowText);
    if HasDigit(l) {
      var i :| 0 <= i < |l| && IsDigit(l[i]);
      assert rowText[i] == l[i];
      assert NumericParser.StartsNumber(rowText, i);
    }
  }

  /** A label without digits that is followed by an amount is taken whole. */
  lemma LabelTextOfRow(caption: string, amounts: string)
    requires !HasDigit(caption) && (caption == [] || caption[|caption| - 1] != '-')
    requires amounts != [] && IsDigit(amounts[0])
    ensures LabelText(caption + amounts) == caption
  {
    var s := caption + amounts;
    assert NumericParser.StartsNumber(s, |caption|) by { assert s[|caption|] == amounts[0]; }
    forall j | 0 <= j < |caption| ensures !NumericParser.StartsNumber(s, j) {
      assert s[j] == caption[j];
      if j + 1 < |caption| { assert s[j + 1] == caption[j + 1]; }
      else { assert s[j] == caption[|caption| - 1]; }
    }
    assert s[..|caption|] == caption;
  }

  // ---------------------------------------------------------------------------
  // The keyword table

  const REVENUE_KEYWORDS: seq<(string, nat)> := [("revenuefromoperations", 1), ("incomefromoperations", 2), ("netsales", 3)]
  const TOTAL_INCOME_KEYWORDS: seq<(string, nat)> := [("totalincome", 1), ("totalrevenue", 1)]
  const TOTAL_EXPENSES_KEYWORDS: seq<(string, nat)> := [("totalexpenses", 1), ("totalexpenditure", 2)]
  const PBT_KEYWORDS: seq<(string, nat)> :=
    [("profitbeforetax", 1), ("profitlossbeforetax", 2), ("pbt", 3), ("profitbeforeexceptional", 4)]
  const NET_PROFIT_KEYWORDS: seq<(string, nat)> :=
    [("netprofit", 1), ("profitfortheperiod", 1), ("profitaftertax", 3), ("profitfortheyear", 1), ("profi", 5)]
  const EPS_KEYWORDS: seq<(string, nat)> :=
    [("basicearningspershare", 1), ("basiceps", 1), ("earningpershare", 2), ("basic", 3)]
  const DEPRECIATION_KEYWORDS: seq<(string, nat)> := [("depreciation", 1)]
  const INTEREST_KEYWORDS: seq<(string, nat)> := [("financecost", 1), ("interestcost", 1)]
  const OTHER_INCOME_KEYWORDS: seq<(string, nat)> := [("otherincome", 1)]

  /** Keyword table in its source order; the ranks are carried but never consulted. */
  const MAPPING: seq<(Target, seq<(string, nat)>)> := [
    (Primary(Revenue), REVENUE_KEYWORDS),
    (Aux(TotalInc), TOTAL_INCOME_KEYWORDS),
    (Primary(TotalExpenses), TOTAL_EXPENSES_KEYWORDS),
    (Primary(Pbt), PBT_KEYWORDS),
    (Primary(NetProfit), NET_PROFIT_KEYWORDS),
    (Primary(Eps), EPS_KEYWORDS),
    (Aux(Dep), DEPRECIATION_KEYWORDS),
    (Aux(Int), INTEREST_KEYWORDS),
    (Primary(OtherIncome), OTHER_INCOME_KEYWORDS)
  ]

  /** The two exclusion rules: interest income is not a cost; comprehensive income, minority and equity lines are not net profit. */
  predicate Excluded(key: Target, lbl: string) {
    (key == Aux(Int) && Contains(lbl, "income"))
    || (key == Primary(NetProfit)
        && (Contains(lbl, "comprehensive") || Contains(lbl, "minority") || Contains(lbl, "equity")))
  }

  type Entry = (Target, seq<(string, nat)>)

  /** `normalize(kw) in lbl` for one of the keywords. */
  predicate KeywordHit(kws: seq<(string, nat)>, lbl: string) {
    exists j :: 0 <= j < |kws| && Contains(lbl, Normalize(kws[j].0))
  }

  /** A table entry claims the label: one of its keywords occurs and no exclusion applies. */
  predicate Claims(e: Entry, lbl: string) {
    KeywordHit(e.1, lbl) && !Excluded(e.0, lbl)
  }

  /** The key of the first entry of `table` that claims the label. */
  function FirstMatch(table: seq<Entry>, lbl: string): Option<Target> {
    if table == [] then None
    else if Claims(table[0], lbl) then Some(table[0].0)
    else FirstMatch(table[1..], lbl)
  }

  function Match(lbl: string): Option<Target> {
    FirstMatch(MAPPING, lbl)
  }

  /**
   * The matching loop of `analyze`: keys in table order; the first key
   * whose keywords claim the label is the match.
   */
  method MatchLabel(lbl: string) returns (target: Option<Target>)
    ensures target == Match(lbl)
  {
    target := None;
    var k: nat := 0;
    while k < |MAPPING|
      invariant k <= |MAPPING|
      invariant Match(lbl) == FirstMatch(MAPPING[k..], lbl)
    {
      var entry := MAPPING[k];
      assert MAPPING[k..][0] == entry && MAPPING[k..][1..] == MAPPING[k + 1..];
      var hit := KeywordsClaim(entry.0, entry.1, lbl);
      if hit {
        target := Some(entry.0);
        return;
      }
      k := k + 1;
    }
  }

  /**
   * The keyword loop for one key, in list order: an occurring keyword
   * claims the label unless the key's exclusion applies, in which case the
   * loop `continue`s with the next keyword.
   */
  method KeywordsClaim(key: Target, kws: seq<(string, nat)>, lbl: string) returns (hit: bool)
    ensures hit == Claims((key, kws), lbl)
  {
    for j := 0 to |kws|
      invariant Excluded(key, lbl) || !KeywordHit(kws[..j], lbl)
    {
      if Contains(lbl, Normalize(kws[j].0)) {
        if Excluded(key, lbl) {
          continue;
        }
        assert KeywordHit(kws, lbl);
        return true;
      }
      KeywordHitSnoc(kws[..j], kws[j], lbl);
      assert kws[..j + 1] == kws[..j] + [kws[j]];
    }
    assert kws[..|kws|] == kws;
    return false;
  }

  lemma KeywordHitSnoc(kws: seq<(string, nat)>, kw: (string, nat), lbl: string)
    requires !Contains(lbl, Normalize(kw.0))
    ensures KeywordHit(kws + [kw], lbl) == KeywordHit(kws, lbl)
  {
    if KeywordHit(kws + [kw], lbl) {
      var j :| 0 <= j < |kws + [kw]| && Contains(lbl, Normalize((kws + [kw])[j].0));
      assert j < |kws|;
      assert (kws + [kw])[j] == kws[j];
    }
    if KeywordHit(kws, lbl) {
      var j :| 0 <= j < |kws| && Contains(lbl, Normalize(kws[j].0));
      assert (kws + [kw])[j] == kws[j];
    }
  }

  /** The match is the key of the first entry that claims the label, and nothing when none does. */
  lemma {:induction false} FirstMatchIsFirst(table: seq<Entry>, lbl: string)
    ensures FirstMatch(table, lbl).None? <==> forall j :: 0 <= j < |table| ==> !Claims(table[j], lbl)
    ensures FirstMatch(table, lbl).Some? ==>
      exists j :: 0 <= j < |table| && Claims(table[j], lbl) && table[j].0 == FirstMatch(table, lbl).value
        && forall h :: 0 <= h < j ==> !Claims(table[h], lbl)
  {
    if table != [] && !Claims(table[0], lbl) {
      FirstMatchIsFirst(table[1..], lbl);
      if FirstMatch(table, lbl).Some? {
        var j :| 0 <= j < |table[1..]| && Claims(table[1..][j], lbl) && table[1..][j].0 == FirstMatch(table, lbl).value
          && forall h :: 0 <= h < j ==> !Claims(table[1..][h], lbl);
        assert table[j + 1] == table[1..][j];
        forall h | 0 <= h < j + 1 ensures !Claims(table[h], lbl) {
          if h > 0 { assert table[h] == table[1..][h - 1]; }
        }
      } else {
        forall j | 0 <= j < |table| ensures !Claims(table[j], lbl) {
          if j > 0 { assert table[j] == table[1..][j - 1]; }
        }
      }
    } else if table != [] {
      assert Claims(table[0], lbl);
    }
  }

  /** Whatever the match is, the entry it comes from claims the label. */
  lemma {:induction false} MatchedEntryClaims(table: seq<Entry>, lbl: string)
    ensures FirstMatch(table, lbl).Some? ==> exists e :: e in table && e.0 == FirstMatch(table, lbl).value && Claims(e, lbl)
  {
    if table != [] && !Claims(table[0], lbl) {
      MatchedEntryClaims(table[1..], lbl);
      if FirstMatch(table, lbl).Some? {
        var e :| e in table[1..] && e.0 == FirstMatch(table, lbl).value && Claims(e, lbl);
        assert e in table;
      }
    } else if table != [] {
      assert table[0] in table;
    }
  }

  /** The revenue entry heads the table. */
  lemma RevenueEntryFirst()
    ensures MAPPING[0] == (Primary(Revenue), REVENUE_KEYWORDS)
  {
  }

  /** Every key of the table names a metric or helper read from the statement. */
  lemma TableKeysAreRead(e: Entry)
    requires e in MAPPING
    ensures e.0 != Primary(OperatingProfit) && e.0 != Primary(Opm)
  {
  }

  /** A keyword that is already normal hits wherever it occurs verbatim. */
  lemma NormalKeywordHits(kws: seq<(string, nat)>, j: nat, lbl: string)
    requires j < |kws| && IsNormal(kws[j].0) && Contains(lbl, kws[j].0)
    ensures KeywordHit(kws, lbl)
  {
    NormalizeFixesNormal(kws[j].0);
  }

  lemma RevenueKeywordsNormal()
    ensures forall j :: 0 <= j < |REVENUE_KEYWORDS| ==> IsNormal(REVENUE_KEYWORDS[j].0)
  {
    assert IsNormal("revenuefromoperations");
    assert IsNormal("incomefromoperations");
    assert IsNormal("netsales");
  }

  lemma RevenueEntryClaims(lbl: string)
    requires Contains(lbl, "revenuefromoperations") || Contains(lbl, "incomefromoperations") || Contains(lbl, "netsales")
    ensures Claims((Primary(Revenue), REVENUE_KEYWORDS), lbl)
  {
    var kws := REVENUE_KEYWORDS;
    RevenueKeywordsNormal();
    if Contains(lbl, "revenuefromoperations") {
      NormalKeywordHits(kws, 0, lbl);
    } else if Contains(lbl, "incomefromoperations") {
      NormalKeywordHits(kws, 1, lbl);
    } else {
      NormalKeywordHits(kws, 2, lbl);
    }
  }

  /** A label naming revenue from operations, income from operations or net sales is revenue. */
  lemma RevenueKeywordsWin(lbl: string)
    requires Contains(lbl, "revenuefromoperations") || Contains(lbl, "incomefromoperations") || Contains(lbl, "netsales")
    ensures Match(lbl) == Some(Primary(Revenue))
  {
    RevenueEntryFirst();
    RevenueEntryClaims(lbl);
  }

  /** A label mentioning income is never filed as interest cost. */
  lemma NoInterestForIncome(lbl: string)
    requires Contains(lbl, "income")
    ensures Match(lbl) != Some(Aux(Int))
  {
    MatchedEntryClaims(MAPPING, lbl);
  }

  /** Comprehensive income, minority interest and equity lines are never net profit. */
  lemma NoNetProfitForExcludedLines(lbl: string)
    requires Contains(lbl, "comprehensive") || Contains(lbl, "minority") || Contains(lbl, "equity")
    ensures Match(lbl) != Some(Primary(NetProfit))
  {
    MatchedEntryClaims(MAPPING, lbl);
  }

  /** No keyword files a row under operating profit or OPM: both are only ever derived. */
  lemma NeverOperatingProfitOrOpm(lbl: string)
    ensures Match(lbl) != Some(Primary(OperatingProfit)) && Match(lbl) != Some(Primary(Opm))
  {
    MatchedEntryClaims(MAPPING, lbl);
    if Match(lbl).Some? {
      var e :| e in MAPPING && e.0 == Match(lbl).value && Claims(e, lbl);
      TableKeysAreRead(e);
    }
  }
}
