/**
 * `extract_identifiers_and_period`: the exchange scrip code and trading
 * symbol from the first page, and the reporting quarter and year from the
 * start of the whole text. Each `re.search` is written out as a leftmost
 * scan that, at every position, tries the pattern's alternatives in order.
 */
module Identifiers {
  import opened Wrappers
  import opened Strings
  import opened Decimal

  datatype Identifiers = Identifiers(companyId: Option<string>, companyCode: Option<string>, quarter: string, year: int)

  // ---------------------------------------------------------------------------
  // re.search: the leftmost position where the pattern matches

  /** The match at the leftmost position from `i` on where `at` matches, or `None`. */
  function Search<T>(s: string, i: nat, at: (string, nat) -> Option<T>): Option<T>
    requires i <= |s|
    decreases |s| - i
  {
    if at(s, i).Some? then at(s, i)
    else if i == |s| then None
    else Search(s, i + 1, at)
  }

  /** The scan finds nothing exactly when no position matches, and otherwise the leftmost match. */
  lemma {:induction false} SearchLeftmost<T>(s: string, i: nat, at: (string, nat) -> Option<T>)
    requires i <= |s|
    ensures Search(s, i, at).None? <==> forall k :: i <= k <= |s| ==> at(s, k).None?
    ensures Search(s, i, at).Some? ==>
      exists k :: i <= k <= |s| && at(s, k) == Search(s, i, at) && forall h :: i <= h < k ==> at(s, h).None?
    decreases |s| - i
  {
    if at(s, i).None? && i < |s| {
      SearchLeftmost(s, i + 1, at);
      if Search(s, i, at).Some? {
        var k :| i + 1 <= k <= |s| && at(s, k) == Search(s, i, at) && forall h :: i + 1 <= h < k ==> at(s, h).None?;
        assert forall h :: i <= h < k ==> at(s, h).None?;
      }
    }
  }

  /** A match at the start of the scanned range is the one found. */
  lemma SearchAtStart<T>(s: string, i: nat, at: (string, nat) -> Option<T>)
    requires i <= |s| && at(s, i).Some?
    ensures Search(s, i, at) == at(s, i)
  {
  }

  /** `lit` (lower-case) occurs at `i`, compared as `re.I` does. */
  predicate FoldedAt(s: string, i: nat, lit: string) {
    i + |lit| <= |s| && Lower(s[i..i + |lit|]) == lit
  }

  // ---------------------------------------------------------------------------
  // The scrip code: `(?:Scrip code no:|Security Code:|Scrip code:)\s*(\d{6})`

  const ID_LABELS: seq<string> := ["scrip code no:", "security code:", "scrip code:"]

  /** Six digits at `j`. */
  function IdFollowing(s: string, j: nat): Option<string> {
    if j + 6 <= |s| && AllDigits(s[j..j + 6]) then Some(s[j..j + 6]) else None
  }

  /** The code after the first label, in pattern order, that matches at `i` and is followed by whitespace and six digits. */
  function IdAfter(s: string, i: nat, labels: seq<string>): Option<string>
    decreases |labels|
  {
    if labels == [] then None
    else if FoldedAt(s, i, labels[0]) && IdFollowing(s, SkipSpace(s, i + |labels[0]|)).Some?
    then IdFollowing(s, SkipSpace(s, i + |labels[0]|))
    else IdAfter(s, i, labels[1..])
  }

  function IdAt(s: string, i: nat): Option<string> {
    IdAfter(s, i, ID_LABELS)
  }

  /** A scrip code found is six digits. */
  lemma {:induction false} IdAfterShape(s: string, i: nat, labels: seq<string>)
    requires IdAfter(s, i, labels).Some?
    ensures |IdAfter(s, i, labels).value| == 6 && AllDigits(IdAfter(s, i, labels).value)
    decreases |labels|
  {
    if !(FoldedAt(s, i, labels[0]) && IdFollowing(s, SkipSpace(s, i + |labels[0]|)).Some?) {
      IdAfterShape(s, i, labels[1..]);
    }
  }

  // ---------------------------------------------------------------------------
  // The trading symbol: `(?:Symbol:|NSE Symbol :|NSE CODE:)\s*([A-Z0-9]+)`, ignoring case

  const CODE_LABELS: seq<string> := ["symbol:", "nse symbol :", "nse code:"]

  /** `[A-Z0-9]` under `re.I`. */
  predicate IsCodeChar(c: char) { IsDigit(c) || IsUpper(c) || 'a' <= c <= 'z' }

  /** The end of the longest run of code characters from `j`. */
  function CodeEnd(s: string, j: nat): (e: nat)
    requires j <= |s|
    ensures j <= e <= |s|
    ensures forall h :: j <= h < e ==> IsCodeChar(s[h])
    ensures e < |s| ==> !IsCodeChar(s[e])
    decreases |s| - j
  {
    if j < |s| && IsCodeChar(s[j]) then CodeEnd(s, j + 1) else j
  }

  /** The longest non-empty run of code characters at `j`. */
  function CodeFollowing(s: string, j: nat): Option<string> {
    if j <= |s| && CodeEnd(s, j) > j then Some(s[j..CodeEnd(s, j)]) else None
  }

  /** The symbol after the first label, in pattern order, that matches at `i` and is followed by whitespace and a symbol. */
  function CodeAfter(s: string, i: nat, labels: seq<string>): Option<string>
    decreases |labels|
  {
    if labels == [] then None
    else if FoldedAt(s, i, labels[0]) && CodeFollowing(s, SkipSpace(s, i + |labels[0]|)).Some?
    then CodeFollowing(s, SkipSpace(s, i + |labels[0]|))
    else CodeAfter(s, i, labels[1..])
  }

  function CodeAt(s: string, i: nat): Option<string> {
    CodeAfter(s, i, CODE_LABELS)
  }

  /** A symbol is a non-empty run of letters and digits. */
  lemma CodeFollowingShape(s: string, j: nat)
    requires CodeFollowing(s, j).Some?
    ensures CodeFollowing(s, j).value != []
    ensures forall h :: 0 <= h < |CodeFollowing(s, j).value| ==> IsCodeChar(CodeFollowing(s, j).value[h])
  {
    var v := s[j..CodeEnd(s, j)];
    forall h | 0 <= h < |v| ensures IsCodeChar(v[h]) {
      assert v[h] == s[j + h];
    }
  }

  /** A symbol found is a non-empty run of letters and digits. */
  lemma {:induction false} CodeAfterShape(s: string, i: nat, labels: seq<string>)
    requires CodeAfter(s, i, labels).Some?
    ensures CodeAfter(s, i, labels).value != []
    ensures forall h :: 0 <= h < |CodeAfter(s, i, labels).value| ==> IsCodeChar(CodeAfter(s, i, labels).value[h])
    decreases |labels|
  {
    if !(FoldedAt(s, i, labels[0]) && CodeFollowing(s, SkipSpace(s, i + |labels[0]|)).Some?) {
      CodeAfterShape(s, i, labels[1..]);
    } else {
      CodeFollowingShape(s, SkipSpace(s, i + |labels[0]|));
    }
  }

  // ---------------------------------------------------------------------------
  // The period: `(june|september|december|march|jun|sep|dec|mar)[^a-z0-9]*(20\d{2})`

  const MONTHS: seq<string> := ["june", "september", "december", "march", "jun", "sep", "dec", "mar"]

  /** The end of the run of characters outside `[a-z0-9]` from `j`. */
  function SkipSeparators(s: string, j: nat): (e: nat)
    requires j <= |s|
    ensures j <= e <= |s|
    ensures forall h :: j <= h < e ==> !IsLowerAlnum(s[h])
    ensures e < |s| ==> IsLowerAlnum(s[e])
    decreases |s| - j
  {
    if j < |s| && !IsLowerAlnum(s[j]) then SkipSeparators(s, j + 1) else j
  }

  /** "20" and two more digits at `j`. */
  predicate YearAt(s: string, j: nat) {
    j + 4 <= |s| && s[j] == '2' && s[j + 1] == '0' && IsDigit(s[j + 2]) && IsDigit(s[j + 3])
  }

  /** The month word and the year of the first month alternative, in pattern order, that matches at `i`. */
  function PeriodAfter(s: string, i: nat, months: seq<string>): Option<(string, int)>
    decreases |months|
  {
    if months == [] then None
    else if i + |months[0]| <= |s| && s[i..i + |months[0]|] == months[0]
         && YearAt(s, SkipSeparators(s, i + |months[0]|))
    then
      var j := SkipSeparators(s, i + |months[0]|);
      Some((months[0], DigitsValue(s[j..j + 4])))
    else PeriodAfter(s, i, months[1..])
  }

  function PeriodAt(s: string, i: nat): Option<(string, int)> {
    PeriodAfter(s, i, MONTHS)
  }

  const QUARTERS: seq<string> := ["Q1", "Q2", "Q3", "Q4"]

  /** `{"jun": "Q1", "sep": "Q2", "dec": "Q3", "mar": "Q4"}.get(mo[:3], "Q1")`. */
  function Quarter(mo: string): string {
    var key := if |mo| <= 3 then mo else mo[..3];
    if key == "jun" then "Q1"
    else if key == "sep" then "Q2"
    else if key == "dec" then "Q3"
    else if key == "mar" then "Q4"
    else "Q1"
  }

  /** The value of "20" followed by two digits lies in 2000..2099. */
  lemma YearValue(ds: string)
    requires |ds| == 4 && ds[0] == '2' && ds[1] == '0' && IsDigit(ds[2]) && IsDigit(ds[3])
    ensures AllDigits(ds)
    ensures DigitsValue(ds) == 2000 + 10 * DigitValue(ds[2]) + DigitValue(ds[3])
  {
    DigitsValueAppend([], ds[0]);
    assert [] + [ds[0]] == ds[..1];
    DigitsValueAppend(ds[..1], ds[1]);
    assert ds[..1] + [ds[1]] == ds[..2];
    DigitsValueAppend(ds[..2], ds[2]);
    assert ds[..2] + [ds[2]] == ds[..3];
    DigitsValueAppend(ds[..3], ds[3]);
    assert ds[..3] + [ds[3]] == ds;
  }

  /** A period found names one of the month words and a year from 2000 to 2099. */
  lemma {:induction false} PeriodAfterShape(s: string, i: nat, months: seq<string>)
    requires PeriodAfter(s, i, months).Some?
    ensures PeriodAfter(s, i, months).value.0 in months
    ensures 2000 <= PeriodAfter(s, i, months).value.1 <= 2099
    decreases |months|
  {
    if !(i + |months[0]| <= |s| && s[i..i + |months[0]|] == months[0] && YearAt(s, SkipSeparators(s, i + |months[0]|))) {
      PeriodAfterShape(s, i, months[1..]);
    } else {
      var j := SkipSeparators(s, i + |months[0]|);
      YearValue(s[j..j + 4]);
    }
  }

  // ---------------------------------------------------------------------------
  // The whole extraction

  /** The part of the text the period is searched in: `text.lower()[:3000]`. */
  function PeriodWindow(text: string): string {
    var low := Lower(text);
    if |low| <= 3000 then low else low[..3000]
  }

  function ExtractIdentifiers(text: string, firstPage: string): Identifiers {
    var period := Search(PeriodWindow(text), 0, PeriodAt);
    Identifiers(
      Search(firstPage, 0, IdAt),
      Search(firstPage, 0, CodeAt),
      if period.Some? then Quarter(period.value.0) else "Q1",
      if period.Some? then period.value.1 else 2025)
  }

  /** A scrip code found is six digits that follow a label, at the leftmost position where one does. */
  lemma CompanyIdShape(text: string, firstPage: string)
    requires ExtractIdentifiers(text, firstPage).companyId.Some?
    ensures |ExtractIdentifiers(text, firstPage).companyId.value| == 6
    ensures AllDigits(ExtractIdentifiers(text, firstPage).companyId.value)
    ensures exists k :: (0 <= k <= |firstPage| && IdAt(firstPage, k) == ExtractIdentifiers(text, firstPage).companyId
      && forall h :: 0 <= h < k ==> IdAt(firstPage, h).None?)
  {
    SearchLeftmost(firstPage, 0, IdAt);
    var k :| 0 <= k <= |firstPage| && IdAt(firstPage, k) == Search(firstPage, 0, IdAt)
      && forall h :: 0 <= h < k ==> IdAt(firstPage, h).None?;
    IdAfterShape(firstPage, k, ID_LABELS);
  }

  /** A symbol found is a non-empty run of letters and digits that follows a label, at the leftmost position where one does. */
  lemma CompanyCodeShape(text: string, firstPage: string)
    requires ExtractIdentifiers(text, firstPage).companyCode.Some?
    ensures ExtractIdentifiers(text, firstPage).companyCode.value != []
    ensures forall h :: 0 <= h < |ExtractIdentifiers(text, firstPage).companyCode.value| ==>
      IsCodeChar(ExtractIdentifiers(text, firstPage).companyCode.value[h])
    ensures exists k :: (0 <= k <= |firstPage| && CodeAt(firstPage, k) == ExtractIdentifiers(text, firstPage).companyCode
      && forall h :: 0 <= h < k ==> CodeAt(firstPage, h).None?)
  {
    SearchLeftmost(firstPage, 0, CodeAt);
    var k :| 0 <= k <= |firstPage| && CodeAt(firstPage, k) == Search(firstPage, 0, CodeAt)
      && forall h :: 0 <= h < k ==> CodeAt(firstPage, h).None?;
    CodeAfterShape(firstPage, k, CODE_LABELS);
  }

  /** A period found anywhere in the window has a year from 2000 to 2099. */
  lemma PeriodFound(w: string)
    requires Search(w, 0, PeriodAt).Some?
    ensures 2000 <= Search(w, 0, PeriodAt).value.1 <= 2099
  {
    SearchLeftmost(w, 0, PeriodAt);
    var k :| 0 <= k <= |w| && PeriodAt(w, k) == Search(w, 0, PeriodAt)
      && forall h :: 0 <= h < k ==> PeriodAt(w, h).None?;
    PeriodAfterShape(w, k, MONTHS);
  }

  /** The quarter is one of Q1 to Q4, and the year the default 2025 or one from 2000 to 2099. */
  lemma PeriodShape(text: string, firstPage: string)
    ensures ExtractIdentifiers(text, firstPage).quarter in QUARTERS
    ensures ExtractIdentifiers(text, firstPage).year == 2025 || 2000 <= ExtractIdentifiers(text, firstPage).year <= 2099
  {
    var w := PeriodWindow(text);
    if Search(w, 0, PeriodAt).Some? {
      PeriodFound(w);
      QuarterShape(Search(w, 0, PeriodAt).value.0);
    } else {
      assert QUARTERS[0] == "Q1";
    }
  }

  lemma QuarterShape(mo: string)
    ensures Quarter(mo) in QUARTERS
  {
    assert Quarter(mo) == QUARTERS[0] || Quarter(mo) == QUARTERS[1] || Quarter(mo) == QUARTERS[2] || Quarter(mo) == QUARTERS[3];
  }

  /** A label is missed at the start of `s` when one of its characters differs there. */
  lemma LabelMissed(s: string, lit: string, k: nat)
    requires k < |lit| && k < |s| && LowerChar(s[k]) != lit[k]
    ensures !FoldedAt(s, 0, lit)
  {
    if |lit| <= |s| {
      assert Lower(s[0..|lit|])[k] == LowerChar(s[k]);
    }
  }

  lemma MiddleSlice(p: string, d: string, q: string)
    ensures (p + (d + q))[|p|..|p| + |d|] == d
  {
  }

  /** After `p`, one space and then `c`: the whitespace ends after the space, where `c` starts. */
  lemma SpaceThenRun(s: string, p: string, c: string, q: string)
    requires c != [] && !IsSpace(c[0])
    requires s == p + (" " + (c + q))
    ensures SkipSpace(s, |p|) == |p| + 1
    ensures s[|p| + 1..|p| + 1 + |c|] == c
    ensures s == p + " " + c + q
  {
    ConcatAssoc(p, " ", c + q);
    SkipSpaces(p, " ", c + q);
    MiddleSlice(p + " ", c, q);
    ConcatAssoc(p + " ", c, q);
  }

  /** A first page that opens with "Scrip code: " and six digits yields those digits as the scrip code. */
  lemma ScripCodeRead(d: string, q: string)
    requires |d| == 6 && AllDigits(d)
    ensures Search("Scrip code:" + (" " + (d + q)), 0, IdAt) == Some(d)
  {
    ScripCodeAt("Scrip code:" + (" " + (d + q)), d, q);
  }

  lemma ScripCodeAt(s: string, d: string, q: string)
    requires |d| == 6 && AllDigits(d)
    requires s == "Scrip code:" + (" " + (d + q))
    ensures Search(s, 0, IdAt) == Some(d)
  {
    SpaceThenRun(s, "Scrip code:", d, q);
    SplitAt("Scrip code:", " " + (d + q));
    ScripMisses(s);
    ThirdIdLabel(s, d);
    SearchAtStart(s, 0, IdAt);
  }

  /** Text opening with "Scrip code:" matches the third label and neither longer one. */
  lemma ScripMisses(s: string)
    requires |s| >= 11 && s[..11] == "Scrip code:"
    ensures !FoldedAt(s, 0, ID_LABELS[0]) && !FoldedAt(s, 0, ID_LABELS[1]) && FoldedAt(s, 0, ID_LABELS[2])
  {
    LowerCharwise(s[0..11], ID_LABELS[2]);
    assert s[10] == ':' && s[2] == 'r';
    LabelMissed(s, ID_LABELS[0], 10);
    LabelMissed(s, ID_LABELS[1], 2);
  }

  /** Only the third label matching, the code read is the one after it. */
  lemma ThirdIdLabel(s: string, d: string)
    requires !FoldedAt(s, 0, ID_LABELS[0]) && !FoldedAt(s, 0, ID_LABELS[1]) && FoldedAt(s, 0, ID_LABELS[2])
    requires SkipSpace(s, 11) <= |s| && IdFollowing(s, SkipSpace(s, 11)) == Some(d)
    ensures IdAt(s, 0) == Some(d)
  {
    assert ID_LABELS[1..][1..] == [ID_LABELS[2]];
  }

  /** A run of code characters followed by something else ends where the run does. */
  lemma {:induction false} CodeEndRun(p: string, c: string, q: string)
    requires forall h :: 0 <= h < |c| ==> IsCodeChar(c[h])
    requires q == [] || !IsCodeChar(q[0])
    ensures CodeEnd(p + c + q, |p|) == |p| + |c|
    decreases |c|
  {
    var s := p + c + q;
    if c != [] {
      assert s[|p|] == c[0];
      assert p + c + q == (p + [c[0]]) + c[1..] + q;
      CodeEndRun(p + [c[0]], c[1..], q);
    } else if q != [] {
      assert s[|p|] == q[0];
    }
  }

  /** After `p`, one space and then a symbol `c` cut where `q` starts. */
  lemma SymbolAfterSpace(s: string, p: string, c: string, q: string)
    requires c != [] && forall h :: 0 <= h < |c| ==> IsCodeChar(c[h])
    requires q == [] || !IsCodeChar(q[0])
    requires s == p + (" " + (c + q))
    ensures SkipSpace(s, |p|) == |p| + 1
    ensures CodeFollowing(s, |p| + 1) == Some(c)
  {
    SpaceThenRun(s, p, c, q);
    CodeEndRun(p + " ", c, q);
  }

  /** A first page that opens with "Symbol: " and a symbol yields that symbol, cut where its letters and digits end. */
  lemma SymbolRead(c: string, q: string)
    requires c != [] && forall h :: 0 <= h < |c| ==> IsCodeChar(c[h])
    requires q == [] || !IsCodeChar(q[0])
    ensures Search("Symbol:" + (" " + (c + q)), 0, CodeAt) == Some(c)
  {
    SymbolAt("Symbol:" + (" " + (c + q)), c, q);
  }

  lemma SymbolAt(s: string, c: string, q: string)
    requires c != [] && forall h :: 0 <= h < |c| ==> IsCodeChar(c[h])
    requires q == [] || !IsCodeChar(q[0])
    requires s == "Symbol:" + (" " + (c + q))
    ensures Search(s, 0, CodeAt) == Some(c)
  {
    SplitAt("Symbol:", " " + (c + q));
    LowerCharwise(s[0..7], CODE_LABELS[0]);
    SymbolAfterSpace(s, "Symbol:", c, q);
    assert CodeAt(s, 0) == Some(c);
    SearchAtStart(s, 0, CodeAt);
  }

  lemma JuneQuarter()
    ensures Quarter("june") == "Q1" && Quarter("jun") == "Q1"
  {
    assert "june"[..3] == "jun";
  }

  lemma SeptemberQuarter()
    ensures Quarter("september") == "Q2" && Quarter("sep") == "Q2"
  {
    assert "september"[..3] == "sep";
  }

  lemma DecemberQuarter()
    ensures Quarter("december") == "Q3" && Quarter("dec") == "Q3"
  {
    assert "december"[..3] == "dec";
  }

  lemma MarchQuarter()
    ensures Quarter("march") == "Q4" && Quarter("mar") == "Q4"
  {
    assert "march"[..3] == "mar";
  }

  /** The long and the short spelling of a month give the same quarter: jun Q1, sep Q2, dec Q3, mar Q4. */
  lemma MonthQuarters()
    ensures forall k :: 0 <= k < |MONTHS| ==> Quarter(MONTHS[k]) == QUARTERS[k % 4]
  {
    JuneQuarter();
    SeptemberQuarter();
    DecemberQuarter();
    MarchQuarter();
  }

  /** A run of separators followed by a letter or digit ends where the run does. */
  lemma {:induction false} SeparatorsRun(p: string, ws: string, q: string)
    requires forall h :: 0 <= h < |ws| ==> !IsLowerAlnum(ws[h])
    requires q == [] || IsLowerAlnum(q[0])
    ensures SkipSeparators(p + ws + q, |p|) == |p| + |ws|
    decreases |ws|
  {
    var s := p + ws + q;
    if ws != [] {
      assert s[|p|] == ws[0];
      assert p + ws + q == (p + [ws[0]]) + ws[1..] + q;
      SeparatorsRun(p + [ws[0]], ws[1..], q);
    } else if q != [] {
      assert s[|p|] == q[0];
    }
  }

  /** A word is not at the start of `s` when one of its characters differs there. */
  lemma WordMissed(s: string, lit: string, k: nat)
    requires k < |lit| && k < |s| && s[k] != lit[k]
    ensures !(|lit| <= |s| && s[0..|lit|] == lit)
  {
  }

  lemma MarchFollows(y: string, q: string)
    requires |y| == 4 && y[0] == '2' && y[1] == '0' && IsDigit(y[2]) && IsDigit(y[3])
    ensures SkipSeparators("march" + (" " + (y + q)), 5) == 6
    ensures YearAt("march" + (" " + (y + q)), 6)
    ensures "march" + (" " + (y + q)) == "march" + " " + y + q
  {
    var s := "march" + (" " + (y + q));
    assert ("march" + " ") + (y + q) == s;
    SeparatorsRun("march", " ", y + q);
    MiddleSlice("march" + " ", y, q);
    assert s[6..10] == y;
    assert s[6] == y[0] && s[7] == y[1] && s[8] == y[2] && s[9] == y[3];
  }

  /** A text that opens with "march", a space and a year from 2000 to 2099 is read as that year's fourth quarter. */
  lemma MarchRead(y: string, q: string)
    requires |y| == 4 && y[0] == '2' && y[1] == '0' && IsDigit(y[2]) && IsDigit(y[3])
    ensures Search("march" + (" " + (y + q)), 0, PeriodAt).Some?
    ensures Quarter(Search("march" + (" " + (y + q)), 0, PeriodAt).value.0) == "Q4"
    ensures Search("march" + (" " + (y + q)), 0, PeriodAt).value.1 == 2000 + 10 * DigitValue(y[2]) + DigitValue(y[3])
  {
    var s := "march" + (" " + (y + q));
    MarchFollows(y, q);
    MiddleSlice("march" + " ", y, q);
    YearValue(y);
    assert s[0] == 'm';
    WordMissed(s, MONTHS[0], 0);
    WordMissed(s, MONTHS[1], 0);
    WordMissed(s, MONTHS[2], 0);
    assert s[0..5] == "march";
    assert PeriodAfter(s, 0, MONTHS[3..]) == Some(("march", DigitsValue(y)));
    assert PeriodAt(s, 0) == Some(("march", DigitsValue(y)));
    SearchAtStart(s, 0, PeriodAt);
    MonthQuarters();
    assert MONTHS[3] == "march";
  }

  /** Within the first 3000 characters, a text already in lower case is searched as it is. */
  lemma WindowOfLowerText(text: string)
    requires |text| <= 3000 && forall h :: 0 <= h < |text| ==> !IsUpper(text[h])
    ensures PeriodWindow(text) == text
  {
  }

  /** So a short lower-case report dated "march 20xx" is filed as Q4 of that year. */
  lemma MarchReported(y: string, q: string, firstPage: string)
    requires |y| == 4 && y[0] == '2' && y[1] == '0' && IsDigit(y[2]) && IsDigit(y[3])
    requires |q| <= 2990 && forall h :: 0 <= h < |q| ==> !IsUpper(q[h])
    ensures ExtractIdentifiers("march" + (" " + (y + q)), firstPage).quarter == "Q4"
    ensures ExtractIdentifiers("march" + (" " + (y + q)), firstPage).year == 2000 + 10 * DigitValue(y[2]) + DigitValue(y[3])
  {
    var s := "march" + (" " + (y + q));
    forall h | 0 <= h < |s| ensures !IsUpper(s[h]) {
      if h >= 10 {
        assert s[h] == q[h - 10];
      } else if h >= 6 {
        assert s[h] == y[h - 6];
      }
    }
    WindowOfLowerText(s);
    MarchRead(y, q);
  }
}
