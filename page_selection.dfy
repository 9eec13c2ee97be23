/**
 * Which pages of a filing are read, in what order, with which priority and
 * in which unit: the target statement type and the unit default come from
 * the first twelve pages, each page with text is scored against the
 * target, and each selected page gets a priority and a unit scale.
 */
module PageSelection {
  import opened Wrappers
  import opened Strings
  import opened Rows

  /** A page as the PDF layer reports it: its text, if any, and its positioned words. */
  datatype Page = Page(text: Option<string>, words: seq<Word>)

  /** The statement type the document is read for. */
  datatype Statement = Consolidated | Standalone

  function TextOf(p: Page): string {
    p.text.GetOr("")
  }

  /** The texts of `pages` joined with nothing between them. */
  function JoinedText(pages: seq<Page>): string {
    if pages == [] then [] else JoinedText(pages[..|pages| - 1]) + TextOf(pages[|pages| - 1])
  }

  /** The lower-cased text of the first (at most) twelve pages. */
  function LeadingText(pages: seq<Page>): string {
    Lower(JoinedText(pages[..if |pages| < 12 then |pages| else 12]))
  }

  /** Consolidated when "consolidated" occurs in the leading text, Standalone otherwise. */
  function DocumentStatement(pages: seq<Page>): Statement {
    if Contains(LeadingText(pages), "consolidated") then Consolidated else Standalone
  }

  /** The unit default: crores (1) as soon as "crore" occurs, lakhs (100) if only "lakh"/"lac"/"lacs" does. */
  function DocumentScale(pages: seq<Page>): real {
    var txt := LeadingText(pages);
    if Contains(txt, "crore") then 1.0
    else if Contains(txt, "lakh") || Contains(txt, "lac") || Contains(txt, "lacs") then 100.0
    else 1.0
  }

  lemma {:induction false} JoinedTextHasPage(pages: seq<Page>, k: nat)
    requires k < |pages|
    ensures exists a, b :: JoinedText(pages) == a + TextOf(pages[k]) + b
  {
    var init := pages[..|pages| - 1];
    if k == |pages| - 1 {
      assert JoinedText(pages) == JoinedText(init) + TextOf(pages[k]) + [];
    } else {
      assert init[k] == pages[k];
      JoinedTextHasPage(init, k);
      var a, b :| JoinedText(init) == a + TextOf(pages[k]) + b;
      assert JoinedText(pages) == a + TextOf(pages[k]) + (b + TextOf(pages[|pages| - 1]));
    }
  }

  /** A word that occurs, in any case, on one of the first twelve pages occurs in the leading text. */
  lemma LeadingTextHasPage(pages: seq<Page>, k: nat, t: string)
    requires k < 12 && k < |pages|
    requires Contains(Lower(TextOf(pages[k])), t)
    ensures Contains(LeadingText(pages), t)
  {
    var lead := pages[..if |pages| < 12 then |pages| else 12];
    assert lead[k] == pages[k];
    JoinedTextHasPage(lead, k);
    var a, b :| JoinedText(lead) == a + TextOf(pages[k]) + b;
    LowerConcat(a + TextOf(pages[k]), b);
    LowerConcat(a, TextOf(pages[k]));
    ContainsInContext(Lower(a), Lower(TextOf(pages[k])), Lower(b), t);
  }

  /** Saying "consolidated" anywhere in the first twelve pages makes the document consolidated. */
  lemma ConsolidatedMentioned(pages: seq<Page>, k: nat)
    requires k < 12 && k < |pages|
    requires Contains(Lower(TextOf(pages[k])), "consolidated")
    ensures DocumentStatement(pages) == Consolidated
  {
    LeadingTextHasPage(pages, k, "consolidated");
  }

  /** Pages after the twelfth never change the statement type or the unit default. */
  lemma OnlyLeadingPagesDecide(pages: seq<Page>, more: seq<Page>)
    requires |pages| >= 12
    ensures DocumentStatement(pages + more) == DocumentStatement(pages)
    ensures DocumentScale(pages + more) == DocumentScale(pages)
  {
    assert (pages + more)[..12] == pages[..12];
  }

  /** The default is crores whenever "crore" occurs, even beside "lakh", and lakhs only without "crore". */
  lemma DocumentScaleChoice(pages: seq<Page>)
    ensures DocumentScale(pages) == 1.0 || DocumentScale(pages) == 100.0
    ensures Contains(LeadingText(pages), "crore") ==> DocumentScale(pages) == 1.0
    ensures DocumentScale(pages) == 100.0 <==>
      !Contains(LeadingText(pages), "crore") && (Contains(LeadingText(pages), "lakh") || Contains(LeadingText(pages), "lac"))
  {
    var txt := LeadingText(pages);
    if Contains(txt, "lacs") {
      ContainsIffOccurs(txt, "lacs");
      var i: nat :| OccursAt(txt, "lacs", i);
      assert txt[i..i + 3] == "lacs"[..3];
      assert OccursAt(txt, "lac", i);
      ContainsIffOccurs(txt, "lac");
    }
  }

  // ---------------------------------------------------------------------------
  // Page scoring

  function TargetWord(t: Statement): string {
    if t == Consolidated then "consolidated" else "standalone"
  }

  /** 50 for "ended", 50 for "particulars", 100 for the target word. */
  function Score(txt: string, t: Statement): (score: nat)
    ensures score <= 200
  {
    (if Contains(txt, "ended") then 50 else 0)
    + (if Contains(txt, "particulars") then 50 else 0)
    + (if Contains(txt, TargetWord(t)) then 100 else 0)
  }

  /** A page with non-empty text is read when its lower-cased text scores at least 100. */
  predicate Selected(p: Page, t: Statement) {
    TextOf(p) != [] && Score(Lower(TextOf(p)), t) >= 100
  }

  /** A page scores 100 exactly when it names the target, or says both "ended" and "particulars". */
  lemma ScoreThreshold(txt: string, t: Statement)
    ensures Score(txt, t) >= 100 <==>
      Contains(txt, TargetWord(t)) || (Contains(txt, "ended") && Contains(txt, "particulars"))
  {
  }

  /** Indices of the selected pages among `pages`, in document order. */
  function SelectedPages(pages: seq<Page>, t: Statement): (sel: seq<nat>)
    ensures forall i :: 0 <= i < |sel| ==> sel[i] < |pages|
  {
    if pages == [] then []
    else
      var n := |pages| - 1;
      SelectedPages(pages[..n], t) + (if Selected(pages[n], t) then [n] else [])
  }

  /** The selection holds exactly the selected pages, each once, in document order. */
  lemma {:induction false} SelectedPagesFacts(pages: seq<Page>, t: Statement)
    ensures forall k: nat :: k in SelectedPages(pages, t) <==> k < |pages| && Selected(pages[k], t)
    ensures forall i, j :: 0 <= i < j < |SelectedPages(pages, t)| ==> SelectedPages(pages, t)[i] < SelectedPages(pages, t)[j]
  {
    if pages != [] {
      var n := |pages| - 1;
      var init := pages[..n];
      SelectedPagesFacts(init, t);
      var sel := SelectedPages(init, t);
      forall k: nat | k < n ensures pages[k] == init[k] { }
      forall i | 0 <= i < |sel| ensures sel[i] < n {
        assert sel[i] in sel;
      }
    }
  }

  /** Priority of a page: 1 when it says consolidated, 2 when it says standalone, 3 otherwise. */
  function Priority(txt: string): (prio: nat)
    ensures 1 <= prio <= 3
    ensures prio == 1 <==> Contains(txt, "consolidated")
    ensures prio == 2 <==> !Contains(txt, "consolidated") && Contains(txt, "standalone")
  {
    if Contains(txt, "consolidated") then 1 else if Contains(txt, "standalone") then 2 else 3
  }

  // ---------------------------------------------------------------------------
  // Page unit: the first `in\s*(lakh|lac|crore|million|rs|rupee)` of the page

  datatype Unit = Lakh | Lac | Crore | Million | Rs | Rupee

  function UnitWord(u: Unit): string {
    match u
    case Lakh => "lakh"
    case Lac => "lac"
    case Crore => "crore"
    case Million => "million"
    case Rs => "rs"
    case Rupee => "rupee"
  }

  /** The unit the alternatives name at `j`, tried in the pattern's order. */
  function UnitNamedAt(s: string, j: nat): (u: Option<Unit>)
    requires j <= |s|
    ensures u.Some? ==> StartsWith(s[j..], UnitWord(u.value))
  {
    var rest := s[j..];
    if StartsWith(rest, "lakh") then Some(Lakh)
    else if StartsWith(rest, "lac") then Some(Lac)
    else if StartsWith(rest, "crore") then Some(Crore)
    else if StartsWith(rest, "million") then Some(Million)
    else if StartsWith(rest, "rs") then Some(Rs)
    else if StartsWith(rest, "rupee") then Some(Rupee)
    else None
  }

  /**
   * A match of the pattern starting at `i`. The whitespace run is taken
   * whole: giving any of it back leaves a space where every alternative
   * needs a letter.
   */
  function UnitAt(s: string, i: nat): Option<Unit>
    requires i <= |s|
  {
    if StartsWith(s[i..], "in") then UnitNamedAt(s, SkipSpace(s, i + 2)) else None
  }

  /** The leftmost match at or after `i`. */
  function FindUnit(s: string, i: nat): Option<Unit>
    requires i <= |s|
    decreases |s| - i
  {
    if i == |s| then None
    else if UnitAt(s, i).Some? then UnitAt(s, i)
    else FindUnit(s, i + 1)
  }

  /** The page scale: crores give 1, lakhs give 100, any other unit or none keeps the default. */
  function PageScale(txt: string, default: real): real {
    match FindUnit(txt, 0)
    case Some(Crore) => 1.0
    case Some(Lakh) => 100.0
    case Some(Lac) => 100.0
    case _ => default
  }

  /** The scan reports nothing exactly when the pattern matches nowhere from `i` on. */
  lemma {:induction false} FindUnitNone(s: string, i: nat)
    requires i <= |s|
    ensures FindUnit(s, i).None? <==> forall k :: i <= k < |s| ==> UnitAt(s, k).None?
    decreases |s| - i
  {
    if i < |s| && UnitAt(s, i).None? {
      FindUnitNone(s, i + 1);
    }
  }

  /** Otherwise it reports the unit of the leftmost match. */
  lemma {:induction false} FindUnitIsLeftmost(s: string, i: nat)
    requires i <= |s| && FindUnit(s, i).Some?
    ensures exists k :: i <= k < |s| && UnitAt(s, k) == FindUnit(s, i) && forall h :: i <= h < k ==> UnitAt(s, h).None?
    decreases |s| - i
  {
    if UnitAt(s, i).None? {
      FindUnitIsLeftmost(s, i + 1);
      var k :| i + 1 <= k < |s| && UnitAt(s, k) == FindUnit(s, i + 1) && forall h :: i + 1 <= h < k ==> UnitAt(s, h).None?;
      assert forall h :: i <= h < k ==> UnitAt(s, h).None?;
    } else {
      assert i < |s|;
    }
  }

  /** The page scale is the default, 1 or 100, and 100 only for a lakh unit. */
  lemma PageScaleChoice(txt: string, default: real)
    ensures PageScale(txt, default) in {default, 1.0, 100.0}
    ensures PageScale(txt, default) != default ==>
      FindUnit(txt, 0) == Some(Crore) || FindUnit(txt, 0) == Some(Lakh) || FindUnit(txt, 0) == Some(Lac)
  {
  }

  /** "in", any whitespace, then "crore", "lakh" or "lac" at `|p|` is a unit match there. */
  lemma UnitStatedAt(p: string, ws: string, u: Unit, q: string)
    requires u in {Crore, Lakh}
    requires forall h :: 0 <= h < |ws| ==> IsSpace(ws[h])
    ensures UnitAt(p + "in" + ws + UnitWord(u) + q, |p|) == Some(u)
  {
    var s := p + "in" + ws + UnitWord(u) + q;
    assert s[|p|..][..2] == "in";
    assert s == (p + "in") + ws + (UnitWord(u) + q);
    SkipSpaces(p + "in", ws, UnitWord(u) + q);
    var j := |p| + 2 + |ws|;
    assert s[j..] == UnitWord(u) + q;
    assert s[j..][..|UnitWord(u)|] == UnitWord(u);
  }

  /**
   * A page whose first unit statement is "in crores" is read in crores, and
   * one whose first is "in lakhs" in lakhs, whatever the document default.
   */
  lemma FirstUnitDecides(p: string, ws: string, u: Unit, q: string, default: real)
    requires u in {Crore, Lakh}
    requires forall h :: 0 <= h < |ws| ==> IsSpace(ws[h])
    requires forall k :: 0 <= k < |p| ==> UnitAt(p + "in" + ws + UnitWord(u) + q, k).None?
    ensures PageScale(p + "in" + ws + UnitWord(u) + q, default) == (if u == Crore then 1.0 else 100.0)
  {
    var s := p + "in" + ws + UnitWord(u) + q;
    UnitStatedAt(p, ws, u, q);
    FindUnitNone(s, 0);
    FindUnitIsLeftmost(s, 0);
    var k :| 0 <= k < |s| && UnitAt(s, k) == FindUnit(s, 0) && forall h :: 0 <= h < k ==> UnitAt(s, h).None?;
    assert k == |p|;
  }
}
