/**
 * `extract_corporate_actions`: the text is split into lines and read line
 * by line; the last line that mentions a dividend and holds numbers gives
 * the dividend, the last line that mentions capital expenditure and holds
 * amounts gives the largest of them, and any line naming a management
 * event marks a management change.
 */
module CorporateActions {
  import opened Wrappers
  import opened Strings
  import opened Decimal
  import opened NumericParser

  // ---------------------------------------------------------------------------
  // `text.split('\n')`

  function SplitLines(t: string): (lines: seq<string>)
    ensures |lines| >= 1
  {
    if t == [] then [[]]
    else
      var ls := SplitLines(t[..|t| - 1]);
      if t[|t| - 1] == '\n' then ls + [[]]
      else ls[..|ls| - 1] + [ls[|ls| - 1] + [t[|t| - 1]]]
  }

  /** `'\n'.join(lines)`. */
  function JoinLines(lines: seq<string>): string
    requires |lines| >= 1
  {
    if |lines| == 1 then lines[0] else JoinLines(lines[..|lines| - 1]) + "\n" + lines[|lines| - 1]
  }

  lemma JoinLinesExtend(ls: seq<string>, c: char)
    requires |ls| >= 1
    ensures JoinLines(ls[..|ls| - 1] + [ls[|ls| - 1] + [c]]) == JoinLines(ls) + [c]
  {
    var ls' := ls[..|ls| - 1] + [ls[|ls| - 1] + [c]];
    if |ls| > 1 {
      assert ls'[..|ls'| - 1] == ls[..|ls| - 1];
    }
  }

  lemma JoinLinesBreak(ls: seq<string>)
    requires |ls| >= 1
    ensures JoinLines(ls + [[]]) == JoinLines(ls) + "\n"
  {
    assert (ls + [[]])[..|ls|] == ls;
  }

  /** Joining the lines with line breaks gives back the text. */
  lemma {:induction false} SplitJoin(t: string)
    ensures JoinLines(SplitLines(t)) == t
  {
    if t != [] {
      var init, c := t[..|t| - 1], t[|t| - 1];
      var ls := SplitLines(init);
      SplitJoin(init);
      assert init + [c] == t;
      if c == '\n' {
        assert SplitLines(t) == ls + [[]];
        JoinLinesBreak(ls);
      } else {
        assert SplitLines(t) == ls[..|ls| - 1] + [ls[|ls| - 1] + [c]];
        JoinLinesExtend(ls, c);
      }
    }
  }

  /** No line holds a line break. */
  lemma {:induction false} SplitLinesUnbroken(t: string)
    ensures forall k :: 0 <= k < |SplitLines(t)| ==> '\n' !in SplitLines(t)[k]
  {
    if t != [] {
      SplitLinesUnbroken(t[..|t| - 1]);
    }
  }

  // ---------------------------------------------------------------------------
  // Keywords, looked for in the lower-cased line

  const DIVIDEND_WORDS: seq<string> := ["dividend", "declared"]
  const CAPEX_WORDS: seq<string> := ["capex", "capital expenditure", "expansion"]
  const MANAGEMENT_WORDS: seq<string> := ["appointment", "resignation", "ceo", "cfo", "director"]

  /** `any(k in l for k in words)`. */
  predicate MentionsAny(l: string, words: seq<string>) {
    exists k :: 0 <= k < |words| && Contains(l, words[k])
  }

  // ---------------------------------------------------------------------------
  // `re.findall` for `\d+(?:\.\d+)?` (plain) and `\d+(?:,\d+)*(?:\.\d+)?` (grouped)

  /** After the digits ending at `e`: a point and more digits, if they follow. */
  function FractionEnd(s: string, e: nat): (r: nat)
    requires e <= |s|
    ensures e <= r <= |s|
  {
    if e + 1 < |s| && s[e] == '.' && IsDigit(s[e + 1]) then DigitRunEnd(s, e + 1) else e
  }

  /** After the digits ending at `e`: every following group of a comma and digits. */
  function GroupsEnd(s: string, e: nat): (r: nat)
    requires e <= |s|
    ensures e <= r <= |s|
    decreases |s| - e
  {
    if e + 1 < |s| && s[e] == ',' && IsDigit(s[e + 1]) then GroupsEnd(s, DigitRunEnd(s, e + 1)) else e
  }

  /** The end of the number that starts with the digit at `i`. */
  function NumberEnd(s: string, i: nat, grouped: bool): (e: nat)
    requires i < |s| && IsDigit(s[i])
    ensures i < e <= |s|
  {
    var d := DigitRunEnd(s, i);
    FractionEnd(s, if grouped then GroupsEnd(s, d) else d)
  }

  /** The numbers of `s` from `i` on, left to right and not overlapping. */
  function FindAll(s: string, i: nat, grouped: bool): seq<string>
    decreases |s| - i
  {
    if i >= |s| then []
    else if IsDigit(s[i]) then [s[i..NumberEnd(s, i, grouped)]] + FindAll(s, NumberEnd(s, i, grouped), grouped)
    else FindAll(s, i + 1, grouped)
  }

  /** A number without groups is a run of digits, or two runs around one point. */
  predicate PlainNumber(t: string) {
    (AllDigits(t) && t != [])
    || (exists k :: 0 < k < |t| - 1 && t[k] == '.' && AllDigits(t[..k]) && AllDigits(t[k + 1..]))
  }

  lemma PlainNumberAt(s: string, i: nat)
    requires i < |s| && IsDigit(s[i])
    ensures PlainNumber(s[i..NumberEnd(s, i, false)])
  {
    var d := DigitRunEnd(s, i);
    var e := NumberEnd(s, i, false);
    var t := s[i..e];
    if e > d {
      assert t[d - i] == '.';
      assert t[..d - i] == s[i..d];
      assert t[d - i + 1..] == s[d + 1..e];
    } else {
      assert t == s[i..d];
    }
  }

  /** Every number found without groups is digits, optionally with one decimal point inside. */
  lemma {:induction false} PlainNumbersFound(s: string, i: nat)
    ensures forall k :: 0 <= k < |FindAll(s, i, false)| ==> PlainNumber(FindAll(s, i, false)[k])
    decreases |s| - i
  {
    if i < |s| {
      if IsDigit(s[i]) {
        PlainNumberAt(s, i);
        PlainNumbersFound(s, NumberEnd(s, i, false));
      } else {
        PlainNumbersFound(s, i + 1);
      }
    }
  }

  /** Every digit of `s` from `i` on lies in one of the numbers found. */
  lemma {:induction false} DigitsFound(s: string, i: nat, grouped: bool)
    requires i <= |s|
    ensures (FindAll(s, i, grouped) == []) <==> forall h :: i <= h < |s| ==> !IsDigit(s[h])
    decreases |s| - i
  {
    if i < |s| && !IsDigit(s[i]) {
      DigitsFound(s, i + 1, grouped);
    }
  }

  // ---------------------------------------------------------------------------
  // `float(x.replace(',', ''))` and `max`

  /** The digits of `t` read as one number; commas are skipped. */
  function WholeValue(t: string): nat {
    if t == [] then 0
    else if IsDigit(t[|t| - 1]) then WholeValue(t[..|t| - 1]) * 10 + DigitValue(t[|t| - 1])
    else WholeValue(t[..|t| - 1])
  }

  /** The index of the first point of `t`, or `|t|`. */
  function PointIndex(t: string): (k: nat)
    ensures k <= |t|
    ensures k < |t| ==> t[k] == '.'
    ensures forall h :: 0 <= h < k ==> t[h] != '.'
  {
    if t == [] then 0 else if t[0] == '.' then 0 else 1 + PointIndex(t[1..])
  }

  /** The value of a grouped number with the commas removed. */
  function AmountValue(t: string): real {
    var k := PointIndex(t);
    WholeValue(t[..k]) as real
    + (if k < |t| && AllDigits(t[k + 1..]) then FracValue(t[k + 1..]) else 0.0)
  }

  /** Commas do not change the value of the digits around them. */
  lemma {:induction false} WholeValueSkipsComma(a: string, b: string)
    requires AllDigits(b)
    ensures WholeValue(a + "," + b) == WholeValue(a + b)
    decreases |b|
  {
    if b == [] {
      assert a + "," + b == a + ",";
      assert (a + ",")[..|a|] == a;
      assert (a + ",")[|a|] == ',';
      assert a + b == a;
    } else {
      var init := b[..|b| - 1];
      WholeValueSkipsComma(a, init);
      assert (a + "," + b)[..|a + "," + b| - 1] == a + "," + init;
      assert (a + b)[..|a + b| - 1] == a + init;
    }
  }

  lemma {:induction false} WholeValueOfDigits(d: string)
    requires AllDigits(d)
    ensures WholeValue(d) == DigitsValue(d)
  {
    if d != [] {
      WholeValueOfDigits(d[..|d| - 1]);
    }
  }

  /** "1,234.5" is read as 1234.5: a thousands group and a fraction, commas dropped. */
  lemma AmountOfGroupedNumber(a: string, b: string, f: string)
    requires AllDigits(a) && AllDigits(b) && AllDigits(f)
    ensures AmountValue(a + "," + b + "." + f) == DigitsValue(a + b) as real + FracValue(f)
  {
    var t := a + "," + b + "." + f;
    var k := |a| + 1 + |b|;
    assert t[k] == '.';
    forall h | 0 <= h < k ensures t[h] != '.' {
      if h < |a| {
        assert t[h] == a[h];
      } else if h > |a| {
        assert t[h] == b[h - |a| - 1];
      }
    }
    assert PointIndex(t) == k;
    assert t[..k] == a + "," + b;
    assert t[k + 1..] == f;
    WholeValueSkipsComma(a, b);
    assert AllDigits(a + b);
    WholeValueOfDigits(a + b);
  }

  function MaxOf(xs: seq<real>): (m: real)
    requires xs != []
    ensures m in xs
    ensures forall k :: 0 <= k < |xs| ==> xs[k] <= m
  {
    if |xs| == 1 then xs[0]
    else
      var m' := MaxOf(xs[..|xs| - 1]);
      if xs[|xs| - 1] > m' then xs[|xs| - 1] else m'
  }

  function Amounts(ts: seq<string>): (vs: seq<real>)
    ensures |vs| == |ts|
    ensures forall k :: 0 <= k < |ts| ==> vs[k] == AmountValue(ts[k])
  {
    if ts == [] then [] else Amounts(ts[..|ts| - 1]) + [AmountValue(ts[|ts| - 1])]
  }

  /** `", ".join(ts)`. */
  function JoinComma(ts: seq<string>): string {
    if ts == [] then [] else if |ts| == 1 then ts[0] else JoinComma(ts[..|ts| - 1]) + ", " + ts[|ts| - 1]
  }

  // ---------------------------------------------------------------------------
  // The line loop

  datatype Actions = Actions(dividend: string, capex: Option<real>, managementChange: string, specialAnnouncement: string)

  /** The defaults; a capex of `None` stands for "Not mentioned". */
  const NO_ACTIONS: Actions := Actions("Not mentioned", None, "No", "Not mentioned")

  predicate DividendLine(line: string) {
    MentionsAny(Lower(line), DIVIDEND_WORDS) && FindAll(line, 0, false) != []
  }

  predicate CapexLine(line: string) {
    MentionsAny(Lower(line), CAPEX_WORDS) && FindAll(line, 0, true) != []
  }

  predicate ManagementLine(line: string) {
    MentionsAny(Lower(line), MANAGEMENT_WORDS)
  }

  function LineUpdate(a: Actions, line: string): Actions {
    var a1 := if DividendLine(line) then a.(dividend := JoinComma(FindAll(line, 0, false))) else a;
    var a2 := if CapexLine(line) then a1.(capex := Some(MaxOf(Amounts(FindAll(line, 0, true))))) else a1;
    if ManagementLine(line) then a2.(managementChange := "Yes") else a2
  }

  /** What one line does to each field. */
  lemma LineDividend(a: Actions, line: string)
    ensures LineUpdate(a, line).dividend == if DividendLine(line) then JoinComma(FindAll(line, 0, false)) else a.dividend
  {
  }

  lemma LineCapex(a: Actions, line: string)
    ensures LineUpdate(a, line).capex == if CapexLine(line) then Some(MaxOf(Amounts(FindAll(line, 0, true)))) else a.capex
  {
  }

  lemma LineManagement(a: Actions, line: string)
    ensures LineUpdate(a, line).managementChange == if ManagementLine(line) then "Yes" else a.managementChange
  {
  }

  lemma LineSpecial(a: Actions, line: string)
    ensures LineUpdate(a, line).specialAnnouncement == a.specialAnnouncement
  {
  }

  function ActionsOf(lines: seq<string>): Actions {
    if lines == [] then NO_ACTIONS else LineUpdate(ActionsOf(lines[..|lines| - 1]), lines[|lines| - 1])
  }

  /** `extract_corporate_actions(text)`. */
  method ExtractCorporateActions(text: string) returns (actions: Actions)
    ensures actions == ActionsOf(SplitLines(text))
  {
    var lines := SplitLines(text);
    actions := NO_ACTIONS;
    for n := 0 to |lines|
      invariant actions == ActionsOf(lines[..n])
    {
      var line := lines[n];
      var l := Lower(line);
      assert lines[..n + 1][..n] == lines[..n];
      if MentionsAny(l, DIVIDEND_WORDS) {
        var m := FindAll(line, 0, false);
        if m != [] {
          actions := actions.(dividend := JoinComma(m));
        }
      }
      if MentionsAny(l, CAPEX_WORDS) {
        var m := FindAll(line, 0, true);
        if m != [] {
          actions := actions.(capex := Some(MaxOf(Amounts(m))));
        }
      }
      if MentionsAny(l, MANAGEMENT_WORDS) {
        actions := actions.(managementChange := "Yes");
      }
    }
    assert lines[..|lines|] == lines;
  }

  // ---------------------------------------------------------------------------
  // What the loop promises

  /** A management change is reported exactly when some line names a management event. */
  lemma {:induction false} ManagementChangeIff(lines: seq<string>)
    ensures ActionsOf(lines).managementChange == "Yes" <==> exists k :: 0 <= k < |lines| && ManagementLine(lines[k])
    ensures ActionsOf(lines).managementChange in ["Yes", "No"]
  {
    if lines != [] {
      var init := lines[..|lines| - 1];
      LineManagement(ActionsOf(init), lines[|lines| - 1]);
      ManagementChangeIff(init);
      if exists k :: 0 <= k < |init| && ManagementLine(init[k]) {
        var k :| 0 <= k < |init| && ManagementLine(init[k]);
        assert lines[k] == init[k];
      }
      if exists k :: 0 <= k < |lines| && ManagementLine(lines[k]) {
        var k :| 0 <= k < |lines| && ManagementLine(lines[k]);
        if k < |init| {
          assert init[k] == lines[k];
        }
      }
    }
  }

  /** Without a line that mentions a dividend and holds numbers, the dividend is not mentioned. */
  lemma {:induction false} NoDividendLine(lines: seq<string>)
    requires forall k :: 0 <= k < |lines| ==> !DividendLine(lines[k])
    ensures ActionsOf(lines).dividend == "Not mentioned"
  {
    if lines != [] {
      var init := lines[..|lines| - 1];
      LineDividend(ActionsOf(init), lines[|lines| - 1]);
      assert forall k :: 0 <= k < |init| ==> init[k] == lines[k];
      NoDividendLine(init);
    }
  }

  /** The dividend is the numbers of the last line that mentions one and holds numbers, joined by ", ". */
  lemma {:induction false} DividendFromLastLine(lines: seq<string>, k: nat)
    requires k < |lines| && DividendLine(lines[k])
    requires forall j :: k < j < |lines| ==> !DividendLine(lines[j])
    ensures ActionsOf(lines).dividend == JoinComma(FindAll(lines[k], 0, false))
  {
    var init := lines[..|lines| - 1];
    LineDividend(ActionsOf(init), lines[|lines| - 1]);
    if k < |init| {
      assert init[k] == lines[k];
      assert forall j :: k < j < |init| ==> init[j] == lines[j];
      DividendFromLastLine(init, k);
    }
  }

  /** Without a line that mentions capital expenditure and holds amounts, it is not mentioned. */
  lemma {:induction false} NoCapexLine(lines: seq<string>)
    requires forall k :: 0 <= k < |lines| ==> !CapexLine(lines[k])
    ensures ActionsOf(lines).capex == None
  {
    if lines != [] {
      var init := lines[..|lines| - 1];
      LineCapex(ActionsOf(init), lines[|lines| - 1]);
      assert forall k :: 0 <= k < |init| ==> init[k] == lines[k];
      NoCapexLine(init);
    }
  }

  /** The capital expenditure is the largest amount on the last line that mentions it and holds amounts. */
  lemma {:induction false} CapexFromLastLine(lines: seq<string>, k: nat)
    requires k < |lines| && CapexLine(lines[k])
    requires forall j :: k < j < |lines| ==> !CapexLine(lines[j])
    ensures ActionsOf(lines).capex == Some(MaxOf(Amounts(FindAll(lines[k], 0, true))))
  {
    var init, last := lines[..|lines| - 1], lines[|lines| - 1];
    assert ActionsOf(lines) == LineUpdate(ActionsOf(init), last);
    LineCapex(ActionsOf(init), last);
    if k < |init| {
      assert init[k] == lines[k];
      assert forall j :: k < j < |init| ==> init[j] == lines[j];
      CapexFromLastLine(init, k);
      assert !CapexLine(last);
    } else {
      assert last == lines[k];
    }
  }

  /** No line ever sets the special announcement. */
  lemma {:induction false} SpecialNeverSet(lines: seq<string>)
    ensures ActionsOf(lines).specialAnnouncement == "Not mentioned"
  {
    if lines != [] {
      LineSpecial(ActionsOf(lines[..|lines| - 1]), lines[|lines| - 1]);
      SpecialNeverSet(lines[..|lines| - 1]);
    }
  }
}
