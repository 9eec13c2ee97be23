/**
 * Rebuilding table rows from the positioned words of a page (`get_rows`):
 * words are clustered by their rounded vertical position, clusters are
 * taken top to bottom, and within a cluster the words are sorted left to
 * right and horizontally adjacent words are glued into cells.
 */
module Rows {
  import opened Decimal

  /** A word as the PDF layer reports it: its text, top edge and horizontal extent. */
  datatype Word = Word(text: string, top: real, x0: real, x1: real)

  /** A cell of a rebuilt row: its text and the left edge of its first word. */
  datatype Cell = Cell(text: string, x: real)

  /** A cluster: the rounded top that opened it and its words in arrival order. */
  type Group = (int, seq<Word>)

  /** Vertical tolerance: a rounded top joins a cluster whose key is less than 5 away. */
  predicate Near(y: int, key: int) {
    -5 < y - key < 5
  }

  function RoundedTop(w: Word): int {
    RoundHalfEven(w.top)
  }

  // ---------------------------------------------------------------------------
  // Clustering (the `rows` dict, whose keys keep insertion order)

  /** Index of the first cluster, in insertion order, whose key is near `y`; `|gs|` if none is. */
  function FirstNear(gs: seq<Group>, y: int): (i: nat)
    ensures i <= |gs|
    ensures i < |gs| ==> Near(y, gs[i].0)
    ensures forall h :: 0 <= h < i ==> !Near(y, gs[h].0)
  {
    if gs == [] then 0
    else if Near(y, gs[0].0) then 0
    else 1 + FirstNear(gs[1..], y)
  }

  /** One step of the clustering loop: append to the first near cluster, or open a new one. */
  function Place(gs: seq<Group>, w: Word): seq<Group> {
    var y := RoundedTop(w);
    var i := FirstNear(gs, y);
    if i < |gs| then gs[i := (gs[i].0, gs[i].1 + [w])] else gs + [(y, [w])]
  }

  /** The clusters after the words have been placed one by one. */
  function Cluster(words: seq<Word>): seq<Group> {
    if words == [] then [] else Place(Cluster(words[..|words| - 1]), words[|words| - 1])
  }

  /** All words held by the clusters, counted with multiplicity. */
  function Held(gs: seq<Group>): multiset<Word> {
    if gs == [] then multiset{} else multiset(gs[0].1) + Held(gs[1..])
  }

  /**
   * The shape clustering keeps: every cluster is non-empty and keyed by the
   * rounded top of the word that opened it, its words lie within the
   * tolerance of the key, and no two keys are within the tolerance.
   */
  predicate WellClustered(gs: seq<Group>) {
    (forall i :: 0 <= i < |gs| ==> gs[i].1 != [] && RoundedTop(gs[i].1[0]) == gs[i].0)
    && (forall i, w :: 0 <= i < |gs| && w in gs[i].1 ==> Near(RoundedTop(w), gs[i].0))
    && (forall i, j :: 0 <= i < j < |gs| ==> !Near(gs[i].0, gs[j].0))
  }

  lemma {:induction false} HeldAppend(gs: seq<Group>, hs: seq<Group>)
    ensures Held(gs + hs) == Held(gs) + Held(hs)
  {
    if gs != [] {
      assert (gs + hs)[1..] == gs[1..] + hs;
      HeldAppend(gs[1..], hs);
    } else {
      assert gs + hs == hs;
    }
  }

  lemma {:induction false} HeldUpdate(gs: seq<Group>, i: nat, w: Word)
    requires i < |gs|
    ensures Held(gs[i := (gs[i].0, gs[i].1 + [w])]) == Held(gs) + multiset{w}
  {
    var gs' := gs[i := (gs[i].0, gs[i].1 + [w])];
    if i == 0 {
      assert gs'[1..] == gs[1..];
    } else {
      assert gs'[1..] == gs[1..][i - 1 := (gs[i].0, gs[i].1 + [w])];
      HeldUpdate(gs[1..], i - 1, w);
    }
  }

  lemma PlaceHolds(gs: seq<Group>, w: Word)
    ensures Held(Place(gs, w)) == Held(gs) + multiset{w}
  {
    var i := FirstNear(gs, RoundedTop(w));
    if i < |gs| {
      HeldUpdate(gs, i, w);
    } else {
      HeldAppend(gs, [(RoundedTop(w), [w])]);
      assert [(RoundedTop(w), [w])][1..] == [];
    }
  }

  lemma PlaceKeepsShape(gs: seq<Group>, w: Word)
    requires WellClustered(gs)
    ensures WellClustered(Place(gs, w))
    ensures |Place(gs, w)| >= |gs|
  {
    var y := RoundedTop(w);
    var i := FirstNear(gs, y);
    var gs' := Place(gs, w);
    if i < |gs| {
      forall h, v | 0 <= h < |gs'| && v in gs'[h].1 ensures Near(RoundedTop(v), gs'[h].0) {
        if h == i && v !in gs[h].1 {
          assert v == w;
        }
      }
      forall h | 0 <= h < |gs'| ensures gs'[h].1 != [] && RoundedTop(gs'[h].1[0]) == gs'[h].0 {
        if h == i {
          assert gs'[h].1[0] == gs[h].1[0];
        }
      }
    } else {
      forall h, v | 0 <= h < |gs'| && v in gs'[h].1 ensures Near(RoundedTop(v), gs'[h].0) {
        if h == |gs| {
          assert v == w;
        }
      }
    }
  }

  /** Clustering holds every word exactly once and keeps the cluster shape. */
  lemma {:induction false} ClusterFacts(words: seq<Word>)
    ensures Held(Cluster(words)) == multiset(words)
    ensures WellClustered(Cluster(words))
  {
    if words != [] {
      var init := words[..|words| - 1];
      var w := words[|words| - 1];
      ClusterFacts(init);
      PlaceHolds(Cluster(init), w);
      PlaceKeepsShape(Cluster(init), w);
      assert words == init + [w];
    }
  }

  // ---------------------------------------------------------------------------
  // Ordering clusters by key (`sorted(rows.keys())`)

  predicate StrictlyAscending(gs: seq<Group>) {
    forall i, j :: 0 <= i < j < |gs| ==> gs[i].0 < gs[j].0
  }

  predicate DistinctKeys(gs: seq<Group>) {
    forall i, j :: 0 <= i < j < |gs| ==> gs[i].0 != gs[j].0
  }

  function InsertByKey(g: Group, gs: seq<Group>): seq<Group> {
    if gs == [] || g.0 < gs[0].0 then [g] + gs else [gs[0]] + InsertByKey(g, gs[1..])
  }

  function SortByKey(gs: seq<Group>): seq<Group> {
    if gs == [] then [] else InsertByKey(gs[0], SortByKey(gs[1..]))
  }

  lemma {:induction false} InsertByKeyMembers(g: Group, gs: seq<Group>)
    ensures |InsertByKey(g, gs)| == |gs| + 1
    ensures forall h :: h in InsertByKey(g, gs) <==> h == g || h in gs
    ensures Held(InsertByKey(g, gs)) == Held(gs) + multiset(g.1)
  {
    if !(gs == [] || g.0 < gs[0].0) {
      InsertByKeyMembers(g, gs[1..]);
      var tail := InsertByKey(g, gs[1..]);
      assert ([gs[0]] + tail)[1..] == tail;
      assert gs == [gs[0]] + gs[1..];
    } else {
      assert ([g] + gs)[1..] == gs;
    }
  }

  lemma {:induction false} InsertByKeySorted(g: Group, gs: seq<Group>)
    requires StrictlyAscending(gs)
    requires forall h :: h in gs ==> h.0 != g.0
    ensures StrictlyAscending(InsertByKey(g, gs))
  {
    var r := InsertByKey(g, gs);
    if gs == [] || g.0 < gs[0].0 {
      forall i, j | 0 <= i < j < |r| ensures r[i].0 < r[j].0 {
        assert r[j] == gs[j - 1];
        if i > 0 {
          assert r[i] == gs[i - 1];
        } else {
          assert gs[0].0 <= gs[j - 1].0;
        }
      }
    } else {
      var rest := gs[1..];
      InsertByKeySorted(g, rest);
      InsertByKeyMembers(g, rest);
      var tail := InsertByKey(g, rest);
      assert r == [gs[0]] + tail;
      assert gs[0].0 < g.0 by {
        assert gs[0] in gs;
      }
      forall i, j | 0 <= i < j < |r| ensures r[i].0 < r[j].0 {
        assert r[j] == tail[j - 1];
        if i > 0 {
          assert r[i] == tail[i - 1];
        } else if r[j] != g {
          assert r[j] in rest;
          var m :| 0 <= m < |rest| && rest[m] == r[j];
          assert gs[m + 1] == rest[m];
        }
      }
    }
  }

  /** Sorting distinct keys yields them strictly ascending, with the same clusters. */
  lemma {:induction false} SortByKeyFacts(gs: seq<Group>)
    requires DistinctKeys(gs)
    ensures StrictlyAscending(SortByKey(gs))
    ensures Held(SortByKey(gs)) == Held(gs)
    ensures |SortByKey(gs)| == |gs|
    ensures forall h :: h in SortByKey(gs) <==> h in gs
  {
    if gs != [] {
      var rest := gs[1..];
      assert DistinctKeys(rest) by {
        forall i, j | 0 <= i < j < |rest| ensures rest[i].0 != rest[j].0 {
          assert rest[i] == gs[i + 1] && rest[j] == gs[j + 1];
        }
      }
      SortByKeyFacts(rest);
      forall h | h in SortByKey(rest) ensures h.0 != gs[0].0 {
        var i :| 0 <= i < |rest| && rest[i] == h;
        assert gs[i + 1] == rest[i];
      }
      InsertByKeyMembers(gs[0], SortByKey(rest));
      InsertByKeySorted(gs[0], SortByKey(rest));
      assert gs == [gs[0]] + rest;
    }
  }

  // ---------------------------------------------------------------------------
  // Ordering words left to right (`sorted(rows[y], key=x0)`, stable)

  predicate SortedByX(ws: seq<Word>) {
    forall i, j :: 0 <= i < j < |ws| ==> ws[i].x0 <= ws[j].x0
  }

  /** Inserts `w` before the first word that does not start left of it, keeping earlier arrivals first. */
  function InsertByX(w: Word, ws: seq<Word>): seq<Word> {
    if ws == [] || w.x0 <= ws[0].x0 then [w] + ws else [ws[0]] + InsertByX(w, ws[1..])
  }

  function SortByX(ws: seq<Word>): seq<Word> {
    if ws == [] then [] else InsertByX(ws[0], SortByX(ws[1..]))
  }

  lemma {:induction false} InsertByXMembers(w: Word, ws: seq<Word>)
    ensures multiset(InsertByX(w, ws)) == multiset(ws) + multiset{w}
  {
    if !(ws == [] || w.x0 <= ws[0].x0) {
      InsertByXMembers(w, ws[1..]);
      assert ws == [ws[0]] + ws[1..];
    }
  }

  lemma {:induction false} InsertByXFacts(w: Word, ws: seq<Word>)
    requires SortedByX(ws)
    ensures SortedByX(InsertByX(w, ws))
    ensures multiset(InsertByX(w, ws)) == multiset(ws) + multiset{w}
  {
    InsertByXMembers(w, ws);
    var r := InsertByX(w, ws);
    if ws == [] || w.x0 <= ws[0].x0 {
      forall i, j | 0 <= i < j < |r| ensures r[i].x0 <= r[j].x0 {
        assert r[j] == ws[j - 1];
        if i > 0 {
          assert r[i] == ws[i - 1];
        } else {
          assert ws[0].x0 <= ws[j - 1].x0;
        }
      }
    } else {
      var rest := ws[1..];
      var tail := InsertByX(w, rest);
      InsertByXFacts(w, rest);
      assert r == [ws[0]] + tail;
      forall i, j | 0 <= i < j < |r| ensures r[i].x0 <= r[j].x0 {
        assert r[j] == tail[j - 1];
        if i > 0 {
          assert r[i] == tail[i - 1];
        } else if r[j] != w {
          assert r[j] in multiset(tail);
          assert r[j] in rest;
          var m :| 0 <= m < |rest| && rest[m] == r[j];
          assert ws[m + 1] == r[j];
        }
      }
    }
  }

  /** Sorting by left edge orders the words and keeps every one of them. */
  lemma {:induction false} SortByXFacts(ws: seq<Word>)
    ensures SortedByX(SortByX(ws))
    ensures multiset(SortByX(ws)) == multiset(ws)
  {
    if ws != [] {
      SortByXFacts(ws[1..]);
      InsertByXFacts(ws[0], SortByX(ws[1..]));
      assert ws == [ws[0]] + ws[1..];
    }
  }

  // ---------------------------------------------------------------------------
  // Gluing adjacent words into cells

  /** The loop state of the cell merge: finished cells and the open cell's text, left and right edges. */
  datatype MergeState = MergeState(parts: seq<Cell>, text: string, x0: real, x1: real)

  /** A word starting less than 4 units right of the open cell extends it; otherwise it opens a new cell. */
  function MergeStep(st: MergeState, w: Word): MergeState {
    if w.x0 - st.x1 < 4.0 then MergeState(st.parts, st.text + w.text, st.x0, w.x1)
    else MergeState(st.parts + [Cell(st.text, st.x0)], w.text, w.x0, w.x1)
  }

  function MergeRun(ws: seq<Word>): MergeState
    requires ws != []
  {
    if |ws| == 1 then MergeState([], ws[0].text, ws[0].x0, ws[0].x1)
    else MergeStep(MergeRun(ws[..|ws| - 1]), ws[|ws| - 1])
  }

  /** The cells of a row whose words are given left to right. */
  function Merge(ws: seq<Word>): seq<Cell> {
    if ws == [] then [] else MergeRun(ws).parts + [Cell(MergeRun(ws).text, MergeRun(ws).x0)]
  }

  function WordTexts(ws: seq<Word>): string {
    if ws == [] then [] else WordTexts(ws[..|ws| - 1]) + ws[|ws| - 1].text
  }

  function CellTexts(cs: seq<Cell>): string {
    if cs == [] then [] else CellTexts(cs[..|cs| - 1]) + cs[|cs| - 1].text
  }

  lemma CellTextsSnoc(cs: seq<Cell>, c: Cell)
    ensures CellTexts(cs + [c]) == CellTexts(cs) + c.text
  {
    assert (cs + [c])[..|cs|] == cs;
  }

  lemma MergeStepTexts(st: MergeState, w: Word)
    ensures CellTexts(MergeStep(st, w).parts) + MergeStep(st, w).text == CellTexts(st.parts) + st.text + w.text
  {
    if w.x0 - st.x1 >= 4.0 {
      CellTextsSnoc(st.parts, Cell(st.text, st.x0));
    }
  }

  lemma {:induction false} MergeRunTexts(ws: seq<Word>)
    requires ws != []
    ensures CellTexts(MergeRun(ws).parts) + MergeRun(ws).text == WordTexts(ws)
  {
    if |ws| > 1 {
      var init := ws[..|ws| - 1];
      MergeRunTexts(init);
      MergeStepTexts(MergeRun(init), ws[|ws| - 1]);
    } else {
      assert WordTexts(ws) == WordTexts(ws[..0]) + ws[0].text;
    }
  }

  /** Gluing loses and reorders no text: the cells spell out the words in order. */
  lemma MergeKeepsText(ws: seq<Word>)
    ensures CellTexts(Merge(ws)) == WordTexts(ws)
  {
    if ws != [] {
      MergeRunTexts(ws);
      CellTextsSnoc(MergeRun(ws).parts, Cell(MergeRun(ws).text, MergeRun(ws).x0));
    }
  }

  predicate CellsAscending(cs: seq<Cell>) {
    forall i, j :: 0 <= i < j < |cs| ==> cs[i].x <= cs[j].x
  }

  lemma {:induction false} MergeRunAscending(ws: seq<Word>)
    requires ws != [] && SortedByX(ws)
    ensures CellsAscending(MergeRun(ws).parts)
    ensures forall i :: 0 <= i < |MergeRun(ws).parts| ==> MergeRun(ws).parts[i].x <= MergeRun(ws).x0
    ensures MergeRun(ws).x0 <= ws[|ws| - 1].x0
  {
    if |ws| > 1 {
      var init := ws[..|ws| - 1];
      var w := ws[|ws| - 1];
      MergeRunAscending(init);
      assert init[|init| - 1] == ws[|ws| - 2];
    }
  }

  /** When the words come left to right, so do the cells. */
  lemma MergeAscending(ws: seq<Word>)
    requires SortedByX(ws)
    ensures CellsAscending(Merge(ws))
  {
    if ws != [] {
      MergeRunAscending(ws);
    }
  }

  /** A row of words yields at least one and at most as many cells, the first at the leftmost word. */
  lemma {:induction false} MergeCount(ws: seq<Word>)
    requires ws != []
    ensures 1 <= |Merge(ws)| <= |ws|
    ensures Merge(ws)[0].x == ws[0].x0
  {
    MergeRunCount(ws);
  }

  lemma {:induction false} MergeRunCount(ws: seq<Word>)
    requires ws != []
    ensures |MergeRun(ws).parts| < |ws|
    ensures (if MergeRun(ws).parts == [] then MergeRun(ws).x0 else MergeRun(ws).parts[0].x) == ws[0].x0
  {
    if |ws| > 1 {
      var init := ws[..|ws| - 1];
      MergeRunCount(init);
      assert init[0] == ws[0];
    }
  }

  /** The cell merge loop of `get_rows`. */
  method MergeCells(ws: seq<Word>) returns (parts: seq<Cell>)
    ensures parts == Merge(ws)
  {
    parts := [];
    if |ws| > 0 {
      var text, x0, x1 := ws[0].text, ws[0].x0, ws[0].x1;
      for i := 1 to |ws|
        invariant MergeRun(ws[..i]) == MergeState(parts, text, x0, x1)
      {
        var w := ws[i];
        assert ws[..i + 1][..i] == ws[..i];
        if w.x0 - x1 < 4.0 {
          text := text + w.text;
          x1 := w.x1;
        } else {
          parts := parts + [Cell(text, x0)];
          text, x0, x1 := w.text, w.x0, w.x1;
        }
      }
      assert ws[..|ws|] == ws;
      parts := parts + [Cell(text, x0)];
    }
  }

  // ---------------------------------------------------------------------------
  // The whole of `get_rows`

  /** The rows of a page, top to bottom. */
  function RowsOf(gs: seq<Group>): (rows: seq<seq<Cell>>)
    ensures |rows| == |gs|
  {
    if gs == [] then [] else [Merge(SortByX(gs[0].1))] + RowsOf(gs[1..])
  }

  lemma {:induction false} RowsOfAt(gs: seq<Group>, i: nat)
    requires i < |gs|
    ensures RowsOf(gs)[i] == Merge(SortByX(gs[i].1))
  {
    if i > 0 {
      RowsOfAt(gs[1..], i - 1);
    }
  }

  /** The clusters of a page in the order their rows are emitted. */
  function OrderedGroups(words: seq<Word>): seq<Group> {
    SortByKey(Cluster(words))
  }

  function PageRows(words: seq<Word>): seq<seq<Cell>> {
    RowsOf(OrderedGroups(words))
  }

  /** `get_rows` on the words of a page. */
  method GetRows(words: seq<Word>) returns (res: seq<seq<Cell>>)
    ensures res == PageRows(words)
  {
    if |words| == 0 {
      return [];
    }
    var groups: seq<Group> := [];
    for n := 0 to |words|
      invariant groups == Cluster(words[..n])
    {
      var w := words[n];
      var y := RoundedTop(w);
      var i := 0;
      while i < |groups| && !Near(y, groups[i].0)
        invariant i <= |groups|
        invariant forall h :: 0 <= h < i ==> !Near(y, groups[h].0)
      {
        i := i + 1;
      }
      assert i == FirstNear(groups, y);
      if i < |groups| {
        groups := groups[i := (groups[i].0, groups[i].1 + [w])];
      } else {
        groups := groups + [(y, [w])];
      }
      assert words[..n + 1][..n] == words[..n];
    }
    assert words[..|words|] == words;
    var sorted := SortByKey(groups);
    res := [];
    for r := 0 to |sorted|
      invariant |res| == r
      invariant forall k :: 0 <= k < r ==> res[k] == Merge(SortByX(sorted[k].1))
    {
      var cells := MergeCells(SortByX(sorted[r].1));
      res := res + [cells];
    }
    forall k | 0 <= k < |sorted| ensures res[k] == RowsOf(sorted)[k] {
      RowsOfAt(sorted, k);
    }
  }

  lemma WellClusteredDistinct(gs: seq<Group>)
    requires WellClustered(gs)
    ensures DistinctKeys(gs)
  {
  }

  /** A page without words has no rows. */
  lemma NoWordsNoRows()
    ensures PageRows([]) == []
  {
  }

  /** Every word of the page lands in exactly one row. */
  lemma RowsPartitionWords(words: seq<Word>)
    ensures Held(OrderedGroups(words)) == multiset(words)
    ensures |PageRows(words)| == |OrderedGroups(words)|
  {
    ClusterFacts(words);
    SortByKeyFacts(Cluster(words));
  }

  /**
   * Rows come out by strictly ascending key; each key is the rounded top of
   * the word that opened the row, and every word of the row lies within the
   * tolerance of it.
   */
  lemma RowsAscending(words: seq<Word>)
    ensures StrictlyAscending(OrderedGroups(words))
    ensures forall i :: 0 <= i < |OrderedGroups(words)| ==>
      OrderedGroups(words)[i].1 != [] && RoundedTop(OrderedGroups(words)[i].1[0]) == OrderedGroups(words)[i].0
    ensures forall i, w :: 0 <= i < |OrderedGroups(words)| && w in OrderedGroups(words)[i].1 ==>
      Near(RoundedTop(w), OrderedGroups(words)[i].0)
  {
    var gs := Cluster(words);
    ClusterFacts(words);
    SortByKeyFacts(gs);
    var sorted := SortByKey(gs);
    forall i | 0 <= i < |sorted| ensures sorted[i].1 != [] && RoundedTop(sorted[i].1[0]) == sorted[i].0 {
      assert sorted[i] in gs;
    }
    forall i, w | 0 <= i < |sorted| && w in sorted[i].1 ensures Near(RoundedTop(w), sorted[i].0) {
      assert sorted[i] in gs;
      var m :| 0 <= m < |gs| && gs[m] == sorted[i];
    }
  }

  /**
   * Within a row, cells run left to right, and read together they spell
   * out the row's words in left-to-right order.
   */
  lemma RowCells(words: seq<Word>, i: nat)
    requires i < |PageRows(words)|
    ensures PageRows(words)[i] == Merge(SortByX(OrderedGroups(words)[i].1))
    ensures CellsAscending(PageRows(words)[i])
    ensures CellTexts(PageRows(words)[i]) == WordTexts(SortByX(OrderedGroups(words)[i].1))
    ensures multiset(SortByX(OrderedGroups(words)[i].1)) == multiset(OrderedGroups(words)[i].1)
    ensures SortedByX(SortByX(OrderedGroups(words)[i].1))
  {
    var ws := SortByX(OrderedGroups(words)[i].1);
    RowsOfAt(OrderedGroups(words), i);
    SortByXFacts(OrderedGroups(words)[i].1);
    MergeAscending(ws);
    MergeKeepsText(ws);
  }
}
