/**
 * `LocalAnalyzer.parse_val`: lenient reading of one table cell as a signed
 * decimal amount. Cleaning drops thousands separators, closing parentheses
 * and quote marks and turns an opening parenthesis into a minus sign; stray
 * dots before the last one are removed; then the first `-?\d+\.?\d*` match
 * is read. A cell without a digit has no value.
 */
module NumericParser {
  import opened Wrappers
  import opened Strings
  import opened Decimal

  /**
   * The four `replace` calls, in one pass. None of them produces a character
   * that a later one rewrites, so doing them per character is the same.
   */
  function ScrubChar(c: char): string {
    if c == ',' || c == ')' || c == '\'' then [] else if c == '(' then ['-'] else [c]
  }

  function Scrub(s: string): string {
    if s == [] then [] else ScrubChar(s[0]) + Scrub(s[1..])
  }

  function StripLeft(s: string): string {
    if s != [] && IsSpace(s[0]) then StripLeft(s[1..]) else s
  }

  function StripRight(s: string): string {
    if s != [] && IsSpace(s[|s| - 1]) then StripRight(s[..|s| - 1]) else s
  }

  /** `s.strip()`. */
  function Strip(s: string): string {
    StripRight(StripLeft(s))
  }

  function Clean(s: string): string {
    Strip(Scrub(s))
  }

  function CountChar(s: string, c: char): nat {
    if s == [] then 0 else (if s[0] == c then 1 else 0) + CountChar(s[1..], c)
  }

  /** `s.rfind(c)` for a character that occurs. */
  function LastIndexOf(s: string, c: char): (i: nat)
    requires CountChar(s, c) > 0
    ensures i < |s| && s[i] == c
    ensures forall j :: i < j < |s| ==> s[j] != c
  {
    if s[|s| - 1] == c then |s| - 1
    else
      CountCharSplit(s[..|s| - 1], [s[|s| - 1]], c);
      assert s[..|s| - 1] + [s[|s| - 1]] == s;
      LastIndexOf(s[..|s| - 1], c)
  }

  /** `s.replace(c, '')`. */
  function RemoveChar(s: string, c: char): string {
    if s == [] then [] else (if s[0] == c then [] else [s[0]]) + RemoveChar(s[1..], c)
  }

  /** More than one dot: every dot but the last is taken for OCR noise and removed. */
  function CollapseDots(s: string): string {
    if CountChar(s, '.') > 1 then
      var idx := LastIndexOf(s, '.');
      RemoveChar(s[..idx], '.') + s[idx..]
    else s
  }

  /** Index `k` is where a match of `-?\d` begins. */
  predicate StartsNumber(s: string, k: nat)
    requires k < |s|
  {
    IsDigit(s[k]) || (s[k] == '-' && k + 1 < |s| && IsDigit(s[k + 1]))
  }

  /** Leftmost match of `-?\d` at or after `i`, or `|s|` when there is none. */
  function FindNumber(s: string, i: nat): (k: nat)
    requires i <= |s|
    ensures i <= k <= |s|
    ensures k < |s| ==> StartsNumber(s, k)
    ensures forall j :: i <= j < k ==> !StartsNumber(s, j)
    decreases |s| - i
  {
    if i == |s| then i else if StartsNumber(s, i) then i else FindNumber(s, i + 1)
  }

  /** End of the maximal digit run that starts at `j` (the greedy `\d*`). */
  function DigitRunEnd(s: string, j: nat): (e: nat)
    requires j <= |s|
    ensures j <= e <= |s| && AllDigits(s[j..e])
    ensures e < |s| ==> !IsDigit(s[e])
    decreases |s| - j
  {
    if j < |s| && IsDigit(s[j]) then DigitRunEnd(s, j + 1) else j
  }

  /** `float(m.group())` for the match `-?\d+\.?\d*` that begins at `k`. */
  function NumberAt(s: string, k: nat): real
    requires k < |s| && StartsNumber(s, k)
  {
    var neg := s[k] == '-';
    var j := if neg then k + 1 else k;
    var e := DigitRunEnd(s, j);
    var whole := DigitsValue(s[j..e]) as real;
    var frac := if e < |s| && s[e] == '.' then FracValue(s[e + 1..DigitRunEnd(s, e + 1)]) else 0.0;
    if neg then -(whole + frac) else whole + frac
  }

  /** `parse_val(s)` for a cell text `s`. */
  function ParseVal(raw: string): Option<real> {
    var s := Clean(raw);
    if !HasDigit(s) then None
    else
      var t := CollapseDots(s);
      var k := FindNumber(t, 0);
      if k < |t| then Some(NumberAt(t, k)) else None
  }

  // ---------------------------------------------------------------------------
  // Facts about the cleaning steps

  lemma {:induction false} CountCharSplit(a: string, b: string, c: char)
    ensures CountChar(a + b, c) == CountChar(a, c) + CountChar(b, c)
  {
    if a != [] {
      CountCharSplit(a[1..], b, c);
      assert (a + b)[1..] == a[1..] + b;
    } else {
      assert a + b == b;
    }
  }

  lemma HasDigitSplit(a: string, b: string)
    ensures HasDigit(a + b) <==> HasDigit(a) || HasDigit(b)
  {
    if HasDigit(a + b) {
      var i :| 0 <= i < |a + b| && IsDigit((a + b)[i]);
      if i >= |a| { assert b[i - |a|] == (a + b)[i]; }
    }
    if HasDigit(a) {
      var i :| 0 <= i < |a| && IsDigit(a[i]);
      assert (a + b)[i] == a[i];
    }
    if HasDigit(b) {
      var i :| 0 <= i < |b| && IsDigit(b[i]);
      assert (a + b)[|a| + i] == b[i];
    }
  }

  lemma {:induction false} ScrubKeepsDigits(s: string)
    ensures HasDigit(Scrub(s)) <==> HasDigit(s)
  {
    if s != [] {
      ScrubKeepsDigits(s[1..]);
      HasDigitSplit(ScrubChar(s[0]), Scrub(s[1..]));
      HasDigitSplit([s[0]], s[1..]);
      assert [s[0]] + s[1..] == s;
    }
  }

  lemma {:induction false} StripLeftKeepsDigits(s: string)
    ensures HasDigit(StripLeft(s)) <==> HasDigit(s)
  {
    if s != [] && IsSpace(s[0]) {
      StripLeftKeepsDigits(s[1..]);
      HasDigitSplit([s[0]], s[1..]);
      assert [s[0]] + s[1..] == s;
    }
  }

  lemma {:induction false} StripRightKeepsDigits(s: string)
    ensures HasDigit(StripRight(s)) <==> HasDigit(s)
  {
    if s != [] && IsSpace(s[|s| - 1]) {
      StripRightKeepsDigits(s[..|s| - 1]);
      HasDigitSplit(s[..|s| - 1], [s[|s| - 1]]);
      assert s[..|s| - 1] + [s[|s| - 1]] == s;
    }
  }

  lemma CleanKeepsDigits(s: string)
    ensures HasDigit(Clean(s)) <==> HasDigit(s)
  {
    ScrubKeepsDigits(s);
    StripLeftKeepsDigits(Scrub(s));
    StripRightKeepsDigits(StripLeft(Scrub(s)));
  }

  lemma {:induction false} RemoveCharKeepsDigits(s: string, c: char)
    requires !IsDigit(c)
    ensures HasDigit(RemoveChar(s, c)) <==> HasDigit(s)
  {
    if s != [] {
      RemoveCharKeepsDigits(s[1..], c);
      HasDigitSplit(if s[0] == c then [] else [s[0]], RemoveChar(s[1..], c));
      HasDigitSplit([s[0]], s[1..]);
      assert [s[0]] + s[1..] == s;
    }
  }

  lemma CollapseKeepsDigits(s: string)
    ensures HasDigit(CollapseDots(s)) <==> HasDigit(s)
  {
    if CountChar(s, '.') > 1 {
      var idx := LastIndexOf(s, '.');
      RemoveCharKeepsDigits(s[..idx], '.');
      HasDigitSplit(RemoveChar(s[..idx], '.'), s[idx..]);
      HasDigitSplit(s[..idx], s[idx..]);
      assert s[..idx] + s[idx..] == s;
    }
  }

  lemma DigitStartsNumber(s: string)
    requires HasDigit(s)
    ensures FindNumber(s, 0) < |s|
  {
    var i :| 0 <= i < |s| && IsDigit(s[i]);
    assert StartsNumber(s, i);
  }

  // ---------------------------------------------------------------------------
  // What parse_val promises

  /** A cell has no value exactly when it holds no digit; otherwise the parse never fails. */
  lemma ParseValNoneIff(raw: string)
    ensures ParseVal(raw).None? <==> !HasDigit(raw)
  {
    CleanKeepsDigits(raw);
    var s := Clean(raw);
    if HasDigit(s) {
      CollapseKeepsDigits(s);
      DigitStartsNumber(CollapseDots(s));
    }
  }

  // ---------------------------------------------------------------------------
  // Reading back amounts written the way filings write them

  /** Characters that cleaning keeps as they are. */
  predicate IsPlain(c: char) { c != ',' && c != ')' && c != '\'' && c != '(' }

  predicate AllPlain(s: string) { forall i :: 0 <= i < |s| ==> IsPlain(s[i]) }

  /** Where the parts of `a + b + c` sit. */
  lemma Pieces(a: string, b: string, c: string)
    ensures (a + b + c)[..|a|] == a
    ensures (a + b + c)[|a|..|a| + |b|] == b
    ensures (a + b + c)[|a| + |b|..] == c
  {
    var s := a + b + c;
    assert s[..|a|] == a;
    assert s[|a|..|a| + |b|] == b;
    assert s[|a| + |b|..] == c;
  }

  lemma {:induction false} ScrubConcat(a: string, b: string)
    ensures Scrub(a + b) == Scrub(a) + Scrub(b)
  {
    if a == [] {
      assert a + b == b;
    } else {
      var ab := a + b;
      assert ab[0] == a[0] && ab[1..] == a[1..] + b;
      ScrubConcat(a[1..], b);
      var x, y, z := ScrubChar(a[0]), Scrub(a[1..]), Scrub(b);
      assert Scrub(ab) == x + (y + z);
      assert x + (y + z) == (x + y) + z;
    }
  }

  lemma {:induction false} ScrubPlain(s: string)
    requires AllPlain(s)
    ensures Scrub(s) == s
  {
    if s != [] {
      assert AllPlain(s[1..]) by {
        forall i | 0 <= i < |s| - 1 ensures IsPlain(s[1..][i]) {
          assert s[1..][i] == s[i + 1];
        }
      }
      ScrubPlain(s[1..]);
    }
  }

  lemma DigitsPlain(d: string)
    requires AllDigits(d)
    ensures AllPlain(d)
  {
  }

  lemma {:induction false} PlainConcat(a: string, b: string)
    requires AllPlain(a) && AllPlain(b)
    ensures AllPlain(a + b)
  {
    forall i | 0 <= i < |a + b| ensures IsPlain((a + b)[i]) {
      if i < |a| {
        assert (a + b)[i] == a[i];
      } else {
        assert (a + b)[i] == b[i - |a|];
      }
    }
  }

  lemma StripNoop(s: string)
    requires s != [] ==> !IsSpace(s[0]) && !IsSpace(s[|s| - 1])
    ensures Strip(s) == s
  {
  }

  lemma {:induction false} NoDotInDigits(d: string)
    requires AllDigits(d)
    ensures CountChar(d, '.') == 0
  {
    if d != [] { NoDotInDigits(d[1..]); }
  }

  lemma {:induction false} RemoveDotFromDigits(d: string)
    requires AllDigits(d)
    ensures RemoveChar(d, '.') == d
  {
    if d != [] { RemoveDotFromDigits(d[1..]); }
  }

  lemma {:induction false} RemoveCharConcat(a: string, b: string, c: char)
    ensures RemoveChar(a + b, c) == RemoveChar(a, c) + RemoveChar(b, c)
  {
    if a == [] {
      assert a + b == b;
    } else {
      var ab := a + b;
      assert ab[0] == a[0] && ab[1..] == a[1..] + b;
      RemoveCharConcat(a[1..], b, c);
      var x, y, z := if a[0] == c then [] else [a[0]], RemoveChar(a[1..], c), RemoveChar(b, c);
      assert RemoveChar(ab, c) == x + (y + z);
      assert x + (y + z) == (x + y) + z;
    }
  }

  lemma {:induction false} DigitRunEndAt(s: string, j: nat, n: nat)
    requires j + n <= |s| && AllDigits(s[j..j + n])
    requires j + n == |s| || !IsDigit(s[j + n])
    ensures DigitRunEnd(s, j) == j + n
    decreases n
  {
    if n > 0 {
      assert s[j..j + n][0] == s[j];
      assert s[j + 1..j + n] == s[j..j + n][1..];
      DigitRunEndAt(s, j + 1, n - 1);
    }
  }

  /** Digits `d` at `j`, then a dot and digits `f` to the end: the greedy runs stop exactly there. */
  lemma DigitsThenFraction(t: string, j: nat, d: string, f: string)
    requires AllDigits(d) && AllDigits(f)
    requires j + |d| <= |t| && t[j..j + |d|] == d && t[j + |d|..] == "." + f
    ensures DigitRunEnd(t, j) == j + |d|
    ensures j + |d| < |t| && t[j + |d|] == '.'
    ensures DigitRunEnd(t, j + |d| + 1) == |t| && t[j + |d| + 1..|t|] == f
  {
    var e := j + |d|;
    var rest := t[e..];
    assert t[e] == rest[0];
    assert t[e + 1..] == rest[1..];
    DigitRunEndAt(t, j, |d|);
    assert t[e + 1..e + 1 + |f|] == f;
    DigitRunEndAt(t, e + 1, |f|);
  }

  /** `d.f`, optionally with a leading minus, is read as plus or minus `d + 0.f`. */
  lemma ReadSignedDecimal(t: string, neg: bool, d: string, f: string)
    requires |d| > 0 && AllDigits(d) && AllDigits(f)
    requires t == (if neg then "-" else "") + d + "." + f
    ensures FindNumber(t, 0) == 0 && StartsNumber(t, 0)
    ensures NumberAt(t, 0) == if neg then -(DigitsValue(d) as real + FracValue(f)) else DigitsValue(d) as real + FracValue(f)
  {
    var sign := if neg then "-" else "";
    var rest := "." + f;
    assert t == sign + d + rest;
    Pieces(sign, d, rest);
    var j := |sign|;
    assert t[j] == t[j..j + |d|][0];
    if neg {
      assert t[0] == t[..1][0];
    }
    DigitsThenFraction(t, j, d, f);
  }

  /** Every character of `[-]d.f` survives cleaning. */
  lemma SignedDecimalPlain(neg: bool, d: string, f: string)
    requires AllDigits(d) && AllDigits(f)
    ensures AllPlain((if neg then "-" else "") + d + "." + f)
  {
    var sign := if neg then "-" else "";
    DigitsPlain(d);
    DigitsPlain(f);
    PlainConcat(sign, d);
    PlainConcat(sign + d, ".");
    PlainConcat(sign + d + ".", f);
  }

  /** `[-]d.f` holds exactly one dot. */
  lemma SignedDecimalDots(neg: bool, d: string, f: string)
    requires AllDigits(d) && AllDigits(f)
    ensures CountChar((if neg then "-" else "") + d + "." + f, '.') == 1
  {
    var sign := if neg then "-" else "";
    NoDotInDigits(d);
    NoDotInDigits(f);
    CountCharSplit(sign, d, '.');
    CountCharSplit(sign + d, ".", '.');
    CountCharSplit(sign + d + ".", f, '.');
  }

  /** `[-]d.f` starts with the sign or a digit and ends with the dot or a digit. */
  lemma SignedDecimalEnds(t: string, neg: bool, d: string, f: string)
    requires |d| > 0 && AllDigits(d) && AllDigits(f)
    requires t == (if neg then "-" else "") + d + "." + f
    ensures !IsSpace(t[0]) && !IsSpace(t[|t| - 1]) && HasDigit(t)
  {
    var sign := if neg then "-" else "";
    var rest := "." + f;
    assert t == sign + d + rest;
    Pieces(sign, d, rest);
    assert t[|sign|] == t[|sign|..|sign| + |d|][0];
    assert t[0] == (if neg then t[..1][0] else t[|sign|]);
    var suffix := t[|sign| + |d|..];
    assert t[|t| - 1] == suffix[|suffix| - 1];
  }

  /** A cell that cleans to a plain signed decimal reads as that decimal. */
  lemma ParseCleaned(raw: string, neg: bool, d: string, f: string)
    requires |d| > 0 && AllDigits(d) && AllDigits(f)
    requires Clean(raw) == (if neg then "-" else "") + d + "." + f
    ensures ParseVal(raw) == Some(if neg then -(DigitsValue(d) as real + FracValue(f)) else DigitsValue(d) as real + FracValue(f))
  {
    var t := Clean(raw);
    SignedDecimalDots(neg, d, f);
    SignedDecimalEnds(t, neg, d, f);
    assert CollapseDots(t) == t;
    ReadSignedDecimal(t, neg, d, f);
  }

  /** A cell whose scrubbing leaves a plain signed decimal reads as that decimal. */
  lemma ParseScrubbed(raw: string, neg: bool, d: string, f: string)
    requires |d| > 0 && AllDigits(d) && AllDigits(f)
    requires Scrub(raw) == (if neg then "-" else "") + d + "." + f
    ensures ParseVal(raw) == Some(if neg then -(DigitsValue(d) as real + FracValue(f)) else DigitsValue(d) as real + FracValue(f))
  {
    SignedDecimalEnds(Scrub(raw), neg, d, f);
    StripNoop(Scrub(raw));
    ParseCleaned(raw, neg, d, f);
  }

  /** An amount written `d.f` reads as `d + 0.f`. */
  lemma ParseValDecimal(d: string, f: string)
    requires |d| > 0 && AllDigits(d) && AllDigits(f)
    ensures ParseVal(d + "." + f) == Some(DigitsValue(d) as real + FracValue(f))
  {
    var t := d + "." + f;
    assert t == "" + d + "." + f;
    SignedDecimalPlain(false, d, f);
    ScrubPlain(t);
    ParseScrubbed(t, false, d, f);
  }

  lemma ScrubPlainSuffix(s: string, d: string)
    requires AllDigits(d)
    ensures Scrub(s + d) == Scrub(s) + d
  {
    DigitsPlain(d);
    ScrubPlain(d);
    ScrubConcat(s, d);
  }

  lemma ScrubCharSuffix(s: string, c: char)
    ensures Scrub(s + [c]) == Scrub(s) + ScrubChar(c)
  {
    ScrubConcat(s, [c]);
    assert [c][1..] == [];
  }

  lemma ScrubOpen()
    ensures Scrub("(") == "-"
  {
    assert "("[1..] == [];
  }

  lemma ScrubParenthesized(d: string, f: string)
    requires AllDigits(d) && AllDigits(f)
    ensures Scrub("(" + d + "." + f + ")") == "-" + d + "." + f
  {
    var s1 := "(" + d;
    var s2 := s1 + ".";
    var s3 := s2 + f;
    ScrubOpen();
    ScrubPlainSuffix("(", d);
    ScrubCharSuffix(s1, '.');
    ScrubPlainSuffix(s2, f);
    ScrubCharSuffix(s3, ')');
    ConcatEmpty("-" + d + "." + f);
  }

  /** Accounting notation: `(d.f)` reads as the negative amount. */
  lemma ParseValParenthesized(d: string, f: string)
    requires |d| > 0 && AllDigits(d) && AllDigits(f)
    ensures ParseVal("(" + d + "." + f + ")") == Some(-(DigitsValue(d) as real + FracValue(f)))
  {
    ScrubParenthesized(d, f);
    ParseScrubbed("(" + d + "." + f + ")", true, d, f);
  }

  /** `rfind` finds the occurrence that no other one follows. */
  lemma LastIndexOfAt(s: string, c: char, i: nat)
    requires i < |s| && s[i] == c && CountChar(s, c) > 0
    requires forall j :: i < j < |s| ==> s[j] != c
    ensures LastIndexOf(s, c) == i
  {
  }

  lemma {:induction false} AllDigitsConcat(a: string, b: string)
    requires AllDigits(a) && AllDigits(b)
    ensures AllDigits(a + b)
  {
    forall i | 0 <= i < |a + b| ensures IsDigit((a + b)[i]) {
      if i >= |a| { assert (a + b)[i] == b[i - |a|]; } else { assert (a + b)[i] == a[i]; }
    }
  }

  /** `a.b.f` holds two dots. */
  lemma StrayDotCount(a: string, b: string, f: string)
    requires AllDigits(a) && AllDigits(b) && AllDigits(f)
    ensures CountChar(a + "." + b + "." + f, '.') == 2
  {
    var p := a + "." + b;
    NoDotInDigits(a);
    NoDotInDigits(b);
    NoDotInDigits(f);
    CountCharSplit(a, ".", '.');
    CountCharSplit(a + ".", b, '.');
    CountCharSplit(p, ".", '.');
    CountCharSplit(p + ".", f, '.');
  }

  /** The last dot of `a.b.f` is the one right before `f`. */
  lemma StrayDotLast(a: string, b: string, f: string)
    requires AllDigits(a) && AllDigits(b) && AllDigits(f)
    ensures CountChar(a + "." + b + "." + f, '.') > 1
    ensures LastIndexOf(a + "." + b + "." + f, '.') == |a + "." + b|
  {
    var p := a + "." + b;
    var rest := "." + f;
    var raw := p + "." + f;
    StrayDotCount(a, b, f);
    ConcatAssoc(p, ".", f);
    SplitAt(p, rest);
    assert raw[|p|] == raw[|p|..][0];
    forall j | |p| < j < |raw| ensures raw[j] != '.' {
      assert raw[j] == rest[j - |p|];
      assert rest[j - |p|] == f[j - |p| - 1];
    }
    LastIndexOfAt(raw, '.', |p|);
  }

  lemma CollapseStrayDot(a: string, b: string, f: string)
    requires AllDigits(a) && AllDigits(b) && AllDigits(f)
    ensures CollapseDots(a + "." + b + "." + f) == a + b + "." + f
  {
    var p := a + "." + b;
    var rest := "." + f;
    var raw := p + "." + f;
    StrayDotLast(a, b, f);
    ConcatAssoc(p, ".", f);
    SplitAt(p, rest);
    assert CollapseDots(raw) == RemoveChar(p, '.') + rest;
    RemoveCharConcat(a + ".", b, '.');
    RemoveCharConcat(a, ".", '.');
    RemoveDotFromDigits(a);
    RemoveDotFromDigits(b);
    assert RemoveChar(".", '.') == [];
    ConcatEmpty(a);
    ConcatAssoc(a + b, ".", f);
  }

  lemma CleanStrayDot(a: string, b: string, f: string)
    requires |a| > 0 && AllDigits(a) && AllDigits(b) && AllDigits(f)
    ensures Clean(a + "." + b + "." + f) == a + "." + b + "." + f
  {
    var p := a + "." + b;
    var raw := p + "." + f;
    DigitsPlain(a);
    DigitsPlain(b);
    DigitsPlain(f);
    PlainConcat(a, ".");
    PlainConcat(a + ".", b);
    PlainConcat(p, ".");
    PlainConcat(p + ".", f);
    ScrubPlain(raw);
    assert raw[0] == a[0];
    var rest := "." + f;
    assert raw == p + rest;
    assert raw[|raw| - 1] == rest[|rest| - 1];
    StripNoop(raw);
  }

  /**
   * Stray dots: `a.b.f` reads as `ab + 0.f`; the dot before the last one is
   * dropped rather than ending the number.
   */
  lemma ParseValStrayDot(a: string, b: string, f: string)
    requires |a| > 0 && AllDigits(a) && AllDigits(b) && AllDigits(f)
    ensures AllDigits(a + b)
    ensures ParseVal(a + "." + b + "." + f) == Some(DigitsValue(a + b) as real + FracValue(f))
  {
    StrayDotAt(a + "." + b + "." + f, a, b, f);
  }

  lemma StrayDotAt(raw: string, a: string, b: string, f: string)
    requires |a| > 0 && AllDigits(a) && AllDigits(b) && AllDigits(f)
    requires raw == a + "." + b + "." + f
    ensures AllDigits(a + b)
    ensures ParseVal(raw) == Some(DigitsValue(a + b) as real + FracValue(f))
  {
    CleanStrayDot(a, b, f);
    CollapseStrayDot(a, b, f);
    AllDigitsConcat(a, b);
    assert HasDigit(raw) by { assert raw[0] == a[0]; }
    var t := a + b + "." + f;
    assert t == "" + (a + b) + "." + f;
    ReadSignedDecimal(t, false, a + b, f);
  }

  lemma ScrubThousands(a: string, b: string)
    requires AllDigits(a) && AllDigits(b)
    ensures Scrub(a + "," + b) == a + b
  {
    DigitsPlain(a);
    ScrubPlain(a);
    ScrubCharSuffix(a, ',');
    ScrubPlainSuffix(a + ",", b);
  }

  /** A cell that cleans to a run of digits reads as that whole number. */
  lemma ParseCleanedWhole(raw: string, d: string)
    requires |d| > 0 && AllDigits(d) && Clean(raw) == d
    ensures ParseVal(raw) == Some(DigitsValue(d) as real)
  {
    NoDotInDigits(d);
    assert CollapseDots(d) == d;
    assert HasDigit(d) && StartsNumber(d, 0);
    DigitRunEndAt(d, 0, |d|);
    assert d[0..|d|] == d;
  }

  /** A whole amount with a thousands separator, `a,b`, reads as the digits `ab`. */
  lemma ParseValWhole(a: string, b: string)
    requires |a| > 0 && AllDigits(a) && AllDigits(b)
    ensures AllDigits(a + b)
    ensures ParseVal(a + "," + b) == Some(DigitsValue(a + b) as real)
  {
    var t := a + b;
    AllDigitsConcat(a, b);
    ScrubThousands(a, b);
    assert t[0] == a[0];
    StripNoop(t);
    ParseCleanedWhole(a + "," + b, t);
  }

  /** Reading back an amount rendered in decimal gives the amount. */
  lemma ParseValRendered(n: nat)
    ensures ParseVal(NatToDigits(n)) == Some(n as real)
  {
    var ds := NatToDigits(n);
    DigitsValueOfNatToDigits(n);
    DigitsPlain(ds);
    ScrubPlain(ds);
    StripNoop(ds);
    ParseCleanedWhole(ds, ds);
  }

  lemma RegroupThousands(m: string, a: string, b: string, dot: string, f: string)
    ensures m + a + [] + b + dot + f + [] == m + (a + b) + dot + f
  {
  }

  lemma ScrubParenthesizedThousands(raw: string, a: string, b: string, f: string)
    requires AllDigits(a) && AllDigits(b) && AllDigits(f)
    requires raw == "(" + a + "," + b + "." + f + ")"
    ensures Scrub(raw) == "-" + (a + b) + "." + f
  {
    var s1 := "(" + a;
    var s2 := s1 + ",";
    var s3 := s2 + b;
    var s4 := s3 + ".";
    var s5 := s4 + f;
    ScrubOpen();
    ScrubPlainSuffix("(", a);
    ScrubCharSuffix(s1, ',');
    ScrubPlainSuffix(s2, b);
    ScrubCharSuffix(s3, '.');
    ScrubPlainSuffix(s4, f);
    ScrubCharSuffix(s5, ')');
    RegroupThousands("-", a, b, ".", f);
  }

  lemma ParseValParenthesizedThousands(a: string, b: string, f: string)
    requires |a| > 0 && AllDigits(a) && AllDigits(b) && AllDigits(f) && AllDigits(a + b)
    ensures ParseVal("(" + a + "," + b + "." + f + ")") == Some(-(DigitsValue(a + b) as real + FracValue(f)))
  {
    ParenthesizedThousandsAt("(" + a + "," + b + "." + f + ")", a, b, f);
  }

  lemma ParenthesizedThousandsAt(raw: string, a: string, b: string, f: string)
    requires |a| > 0 && AllDigits(a) && AllDigits(b) && AllDigits(f) && AllDigits(a + b)
    requires raw == "(" + a + "," + b + "." + f + ")"
    ensures ParseVal(raw) == Some(-(DigitsValue(a + b) as real + FracValue(f)))
  {
    ScrubParenthesizedThousands(raw, a, b, f);
    ParseScrubbed(raw, true, a + b, f);
  }

  lemma DigitsValue1234()
    ensures AllDigits("1234") && DigitsValue("1234") == 1234
  {
    assert "1234"[..3] == "123";
    assert "123"[..2] == "12";
    assert "12"[..1] == "1";
    assert "1"[..0] == "";
  }

  lemma FracValue5()
    ensures FracValue("5") == 0.5
  {
    assert "5"[1..] == "";
  }

  lemma FracValue56()
    ensures FracValue("56") == 0.56
  {
    assert "56"[1..] == "6";
    assert "6"[1..] == "";
  }

  /** "(1,234.5)" reads as -1234.5. */
  lemma ParseValAccountingExample()
    ensures ParseVal("(1,234.5)") == Some(-1234.5)
  {
    DigitsValue1234();
    FracValue5();
    assert "1" + "234" == "1234";
    ParenthesizedThousandsAt("(1,234.5)", "1", "234", "5");
  }

  /** "1.234.56" reads as 1234.56. */
  lemma ParseValStrayDotExample()
    ensures ParseVal("1.234.56") == Some(1234.56)
  {
    DigitsValue1234();
    FracValue56();
    assert "1" + "234" == "1234";
    StrayDotAt("1.234.56", "1", "234", "56");
  }
}
