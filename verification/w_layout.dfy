/** `WLayout`: a sparse grid of widgets, `map<Index, Widget>`.

    Every read goes through `_getWidgetDict`, which translates the grid so
    that its least row and least column are both 0 and stores the result.
    The translation builds each new key as `LayoutIndex(col - minCol,
    row - minRow)`, which swaps the roles of rows and columns; a grid that is
    already anchored at (0, 0) is returned untouched. Free cells are found by
    scanning ever larger d x d squares from the origin, again through the
    `LayoutIndex(d - col - 1, row)` constructor as written.

    Widgets are compared by identity in the source; here a widget is a
    natural-number identifier, so identity is equality.
 */
module WLayout {
  import opened Errors
  import opened IntSets
  import WriteOnce
  import opened LayoutIndex
  import LR = LayoutRect

  type Widget = nat
  type Grid = map<Index, Widget>

  // ---------------------------------------------------------- normalisation

  function Rows(m: Grid): set<int> { set k | k in m :: k.row }
  function Cols(m: Grid): set<int> { set k | k in m :: k.col }

  lemma NonEmptyAxes(m: Grid)
    requires m.Keys != {}
    ensures Rows(m) != {} && Cols(m) != {}
  {
    if forall k :: k !in m.Keys {
      assert false;
    }
    var k :| k in m.Keys;
    assert k.row in Rows(m) && k.col in Cols(m);
  }

  /** A grid whose least row and least column are both 0 (or which is empty). */
  predicate Anchored(m: Grid) {
    (forall k :: k in m ==> 0 <= k.row && 0 <= k.col) &&
    (m.Keys != {} ==> (exists k :: k in m && k.row == 0) && (exists k :: k in m && k.col == 0))
  }

  /** The new key of `k` when the minima are `minRow` and `minCol`. */
  function Shifted(k: Index, minRow: int, minCol: int): Index {
    Index(k.col - minCol, k.row - minRow)
  }

  /** The loop building `newWidgetDict`; its keys are distinct because the
      shift is injective, so no entry overwrites another. */
  function Translate(m: Grid, minRow: int, minCol: int): Grid {
    map k | k in m :: Shifted(k, minRow, minCol) := m[k]
  }

  /** `_getWidgetDict(_recursion=recursion)`. */
  function WidgetDict(m: Grid, recursion: bool): Result<Grid>
    decreases if recursion then 0 else 1
  {
    if m.Keys == {} then Ok(m)
    else
      NonEmptyAxes(m);
      var minRow := MinOf(Rows(m));
      var minCol := MinOf(Cols(m));
      if minRow * minRow + minCol * minCol == 0 then Ok(m)
      else if recursion then Err(RecursionGuard)
      else WidgetDict(Translate(m, minRow, minCol), true)
  }

  lemma SquaresVanish(a: int, b: int)
    ensures a * a + b * b == 0 <==> a == 0 && b == 0
  {
    if a != 0 {
      assert a * a > 0;
      assert b * b >= 0;
    } else if b != 0 {
      assert b * b > 0;
    }
  }

  /** The minima test of `_getWidgetDict` holds exactly for anchored grids. */
  lemma MinimaZeroIffAnchored(m: Grid)
    requires m.Keys != {}
    ensures Rows(m) != {} && Cols(m) != {}
    ensures MinOf(Rows(m)) == 0 && MinOf(Cols(m)) == 0 <==> Anchored(m)
  {
    NonEmptyAxes(m);
    var minRow, minCol := MinOf(Rows(m)), MinOf(Cols(m));
    if minRow == 0 && minCol == 0 {
      forall k | k in m ensures 0 <= k.row && 0 <= k.col {
        assert k.row in Rows(m) && k.col in Cols(m);
      }
    }
    if Anchored(m) {
      var kr :| kr in m && kr.row == 0;
      var kc :| kc in m && kc.col == 0;
      assert kr.row in Rows(m) && kc.col in Cols(m);
    }
  }

  /** Translating by the minima anchors the grid. */
  lemma TranslateAnchors(m: Grid)
    requires m.Keys != {}
    ensures Rows(m) != {} && Cols(m) != {}
    ensures Anchored(Translate(m, MinOf(Rows(m)), MinOf(Cols(m))))
  {
    NonEmptyAxes(m);
    var minRow, minCol := MinOf(Rows(m)), MinOf(Cols(m));
    var t := Translate(m, minRow, minCol);
    forall k2 | k2 in t ensures 0 <= k2.row && 0 <= k2.col {
      var k :| k in m && Shifted(k, minRow, minCol) == k2;
      assert k.row in Rows(m) && k.col in Cols(m);
    }
    var kr :| kr in m && kr.row == minRow;
    var kc :| kc in m && kc.col == minCol;
    assert Shifted(kc, minRow, minCol) in t && Shifted(kc, minRow, minCol).row == 0;
    assert Shifted(kr, minRow, minCol) in t && Shifted(kr, minRow, minCol).col == 0;
  }

  function ShiftSet(s: set<Index>, minRow: int, minCol: int): set<Index> {
    set k | k in s :: Shifted(k, minRow, minCol)
  }

  lemma {:induction false} ShiftSetSize(s: set<Index>, minRow: int, minCol: int)
    ensures |ShiftSet(s, minRow, minCol)| == |s|
  {
    if s != {} {
      if forall k :: k !in s {
        assert false;
      }
      var x :| x in s;
      var rest := s - {x};
      ShiftSetSize(rest, minRow, minCol);
      assert ShiftSet(s, minRow, minCol) == ShiftSet(rest, minRow, minCol) + {Shifted(x, minRow, minCol)};
      assert Shifted(x, minRow, minCol) !in ShiftSet(rest, minRow, minCol);
    }
  }

  /** Translation keeps the number of keys and the set of widgets. */
  lemma TranslateKeeps(m: Grid, minRow: int, minCol: int)
    ensures |Translate(m, minRow, minCol).Keys| == |m.Keys|
    ensures Translate(m, minRow, minCol).Values == m.Values
  {
    var t := Translate(m, minRow, minCol);
    assert t.Keys == ShiftSet(m.Keys, minRow, minCol);
    ShiftSetSize(m.Keys, minRow, minCol);
    forall w | w in m.Values ensures w in t.Values {
      var k :| k in m && m[k] == w;
      assert Shifted(k, minRow, minCol) in t;
    }
    forall w | w in t.Values ensures w in m.Values {
      var k2 :| k2 in t && t[k2] == w;
      var k :| k in m && Shifted(k, minRow, minCol) == k2;
      assert m[k] == w;
    }
  }

  /** An anchored grid passes the minima test at once, whatever the flag. */
  lemma AnchoredIsKept(m: Grid, recursion: bool)
    requires Anchored(m)
    ensures WidgetDict(m, recursion) == Ok(m)
  {
    if m.Keys != {} {
      MinimaZeroIffAnchored(m);
    }
  }

  /** A grid that is not anchored is translated once, and the recursive call
      returns the translated grid unchanged. */
  lemma UnanchoredIsTranslated(m: Grid)
    requires !Anchored(m)
    ensures m.Keys != {} && Rows(m) != {} && Cols(m) != {}
    ensures WidgetDict(m, false) == Ok(Translate(m, MinOf(Rows(m)), MinOf(Cols(m))))
    ensures Anchored(Translate(m, MinOf(Rows(m)), MinOf(Cols(m))))
  {
    NonEmptyAxes(m);
    var minRow, minCol := MinOf(Rows(m)), MinOf(Cols(m));
    MinimaZeroIffAnchored(m);
    SquaresVanish(minRow, minCol);
    TranslateAnchors(m);
    AnchoredIsKept(Translate(m, minRow, minCol), true);
  }

  /** The grid as every operation reads it: `_getWidgetDict()`, whose
      recursion guard is never reached. The result is anchored, has as many
      keys and the same widgets, is the input itself when that is anchored,
      and reading it again changes nothing. */
  function Normalise(m: Grid): (n: Grid)
    ensures WidgetDict(m, false) == Ok(n)
    ensures WidgetDict(n, false) == Ok(n)
    ensures Anchored(n)
    ensures |n.Keys| == |m.Keys| && n.Values == m.Values
    ensures Anchored(m) ==> n == m
  {
    if Anchored(m) then
      AnchoredIsKept(m, false);
      m
    else
      UnanchoredIsTranslated(m);
      var t := Translate(m, MinOf(Rows(m)), MinOf(Cols(m)));
      TranslateKeeps(m, MinOf(Rows(m)), MinOf(Cols(m)));
      AnchoredIsKept(t, false);
      t
  }

  /** Two widgets in column 0, rows 1 and 2. */
  const TwoRows: Grid := map[Index(1, 0) := 7, Index(2, 0) := 8]

  lemma TwoRowsMinima()
    ensures Rows(TwoRows) == {1, 2} && Cols(TwoRows) == {0}
    ensures MinOf(Rows(TwoRows)) == 1 && MinOf(Cols(TwoRows)) == 0
  {
    assert Index(1, 0) in TwoRows && Index(2, 0) in TwoRows;
  }

  lemma TwoRowsTranslated()
    ensures Translate(TwoRows, 1, 0) == map[Index(0, 0) := 7, Index(0, 1) := 8]
  {
    var t := Translate(TwoRows, 1, 0);
    assert TwoRows.Keys == {Index(1, 0), Index(2, 0)};
    assert Shifted(Index(1, 0), 1, 0) == Index(0, 0) && Shifted(Index(2, 0), 1, 0) == Index(0, 1);
    assert t.Keys == {Index(0, 0), Index(0, 1)};
  }

  /** The translation transposes: a grid of two rows in column 0, starting
      at row 1, becomes two columns in row 0. */
  lemma NormaliseTransposes()
    ensures Normalise(TwoRows) == map[Index(0, 0) := 7, Index(0, 1) := 8]
  {
    TwoRowsMinima();
    TwoRowsTranslated();
    assert !Anchored(TwoRows) by {
      assert forall k :: k in TwoRows ==> k.row != 0;
    }
  }

  // ---------------------------------------------------------- the free scan

  /** The inner loop of `_getEmptyEdges` for one `row`: the unoccupied
      cells among `LayoutIndex(d - col - 1, row)` for `col` from `col` on. */
  function ScanColumn(n: Grid, d: nat, row: nat, col: nat): seq<Index>
    decreases d - col
  {
    if col >= d then []
    else
      var index := Index(d - col - 1, row);
      (if index !in n then [index] else []) + ScanColumn(n, d, row, col + 1)
  }

  /** The outer loop, over `row` from `row` on. */
  function ScanRows(n: Grid, d: nat, row: nat): seq<Index>
    decreases d - row
  {
    if row >= d then []
    else ScanColumn(n, d, row, 0) + ScanRows(n, d, row + 1)
  }

  /** The `emptyEdges` list for radius `d`. */
  function Free(n: Grid, d: nat): seq<Index> {
    ScanRows(n, d, 0)
  }

  lemma {:induction false} ScanColumnMembership(n: Grid, d: nat, row: nat, col: nat, c: Index)
    ensures c in ScanColumn(n, d, row, col) <==> c.col == row && 0 <= c.row < d - col && c !in n
    decreases d - col
  {
    if col < d {
      ScanColumnMembership(n, d, row, col + 1, c);
    }
  }

  lemma {:induction false} ScanRowsMembership(n: Grid, d: nat, row: nat, c: Index)
    ensures c in ScanRows(n, d, row) <==> row <= c.col < d && 0 <= c.row < d && c !in n
    decreases d - row
  {
    if row < d {
      ScanColumnMembership(n, d, row, 0, c);
      ScanRowsMembership(n, d, row + 1, c);
    }
  }

  /** The scan at radius `d` lists exactly the unoccupied cells of the d x d
      square at the origin. */
  lemma FreeMembership(n: Grid, d: nat, c: Index)
    ensures c in Free(n, d) <==> 0 <= c.row < d && 0 <= c.col < d && c !in n
  {
    ScanRowsMembership(n, d, 0, c);
  }

  /** The cells `Index(i, i)` for `i < d`. */
  function Diagonal(d: nat): set<Index> {
    if d == 0 then {} else Diagonal(d - 1) + {Index(d - 1, d - 1)}
  }

  lemma {:induction false} DiagonalSize(d: nat)
    ensures |Diagonal(d)| == d
    ensures forall c :: c in Diagonal(d) ==> c.row == c.col && 0 <= c.row < d
  {
    if d > 0 {
      DiagonalSize(d - 1);
      assert Index(d - 1, d - 1) !in Diagonal(d - 1);
    }
  }

  lemma SubsetSize(a: set<Index>, b: set<Index>)
    requires a <= b
    ensures |a| <= |b|
  {
    assert b == a + (b - a);
  }

  /** A d x d square with no free cell holds at least d keys (its diagonal),
      so the scan finds a free cell once `d` exceeds the number of keys. */
  lemma FullSquareBound(n: Grid, d: nat)
    requires Free(n, d) == []
    ensures d <= |n.Keys|
  {
    DiagonalSize(d);
    forall c | c in Diagonal(d) ensures c in n.Keys {
      FreeMembership(n, d, c);
    }
    SubsetSize(Diagonal(d), n.Keys);
  }

  /** The radius at which `_getEmptyEdges(d)` stops: the least radius from
      `d` on whose square has a free cell. */
  function EdgeRadius(n: Grid, d: nat): (e: nat)
    ensures e >= d && Free(n, e) != []
    ensures forall d' :: d <= d' < e ==> Free(n, d') == []
    decreases |n.Keys| + 1 - d
  {
    if Free(n, d) != [] then d
    else
      FullSquareBound(n, d);
      EdgeRadius(n, d + 1)
  }

  /** `_getEmptyEdges(d)`: the scan at `d`, or, when it is empty, the search
      continued at `d + 1`. */
  function EmptyEdgesFrom(n: Grid, d: nat): (r: seq<Index>)
    ensures r == Free(n, EdgeRadius(n, d))
    decreases |n.Keys| + 1 - d
  {
    var edges := Free(n, d);
    if edges != [] then edges
    else
      FullSquareBound(n, d);
      EmptyEdgesFrom(n, d + 1)
  }

  /** `_getEmptyEdges()`: the search from radius 0 over the normalised
      grid; a non-empty list of unoccupied cells. */
  function EmptyEdges(m: Grid): (r: seq<Index>)
    ensures |r| > 0
    ensures r == Free(Normalise(m), EdgeRadius(Normalise(m), 0))
    ensures forall k :: 0 <= k < |r| ==> r[k] !in Normalise(m)
  {
    var n := Normalise(m);
    var r := EmptyEdgesFrom(n, 0);
    forall k | 0 <= k < |r| ensures r[k] !in n {
      FreeMembership(n, EdgeRadius(n, 0), r[k]);
    }
    r
  }

  /** The empty edges are all the unoccupied cells of the smallest d x d
      square (d >= 1) that has one; every smaller square is full, and d is
      at most one more than the number of keys. */
  lemma EmptyEdgesSmallestSquare(m: Grid, c: Index)
    ensures var e := EdgeRadius(Normalise(m), 0);
      1 <= e <= |Normalise(m).Keys| + 1 &&
      (c in EmptyEdges(m) <==> 0 <= c.row < e && 0 <= c.col < e && c !in Normalise(m)) &&
      (forall d' :: 0 <= d' < e ==> Free(Normalise(m), d') == [])
  {
    var n := Normalise(m);
    var e := EdgeRadius(n, 0);
    assert Free(n, 0) == [];
    assert Free(n, e - 1) == [];
    FullSquareBound(n, e - 1);
    FreeMembership(n, e, c);
  }

  /** `_nextIndex()`: the first free cell of the scan. */
  function NextIndex(m: Grid): (i: Index)
    ensures i !in Normalise(m)
    ensures 0 <= i.row && 0 <= i.col
  {
    var r := EmptyEdges(m);
    EmptyEdgesSmallestSquare(m, r[0]);
    assert r[0] in r;
    r[0]
  }

  // ---------------------------------------------------------------- adding

  /** `_addItem(item, index)`: the normalised grid with `index` mapped to
      `item`, replacing any previous occupant. */
  function AddItem(m: Grid, w: Widget, index: Index): (r: Grid)
    ensures index in r && r[index] == w
    ensures r.Keys == Normalise(m).Keys + {index}
    ensures forall k :: k in Normalise(m) && k != index ==> r[k] == Normalise(m)[k]
  {
    Normalise(m)[index := w]
  }

  /** The loop of `_addItem(item, rect)`: one `_addItem` per cell, each of
      which normalises the grid left by the previous one. */
  function AddCells(m: Grid, w: Widget, cells: seq<Index>): Grid
    decreases |cells|
  {
    if |cells| == 0 then m
    else AddCells(AddItem(m, w, cells[0]), w, cells[1..])
  }

  /** `_addItem(item, rect)`. */
  function AddRect(m: Grid, w: Widget, rect: LR.Rect): Grid {
    AddCells(m, w, LR.Cells(rect))
  }

  /** Adding a non-negative cell keeps a non-empty anchored grid anchored. */
  lemma AddKeepsAnchored(m: Grid, w: Widget, c: Index)
    requires Anchored(m) && m.Keys != {}
    requires 0 <= c.row && 0 <= c.col
    ensures Anchored(m[c := w])
  {
    var kr :| kr in m && kr.row == 0;
    var kc :| kc in m && kc.col == 0;
    assert kr in m[c := w] && kc in m[c := w];
  }

  /** On a non-empty anchored grid no normalisation moves anything, so
      adding non-negative cells maps each of them to the widget and keeps
      every other key. */
  lemma {:induction false} AddCellsAnchored(m: Grid, w: Widget, cells: seq<Index>)
    requires Anchored(m) && m.Keys != {}
    requires forall k :: 0 <= k < |cells| ==> 0 <= cells[k].row && 0 <= cells[k].col
    ensures AddCells(m, w, cells).Keys == m.Keys + (set c | c in cells)
    ensures forall c :: c in cells ==> AddCells(m, w, cells)[c] == w
    ensures forall k :: k in m && k !in cells ==> AddCells(m, w, cells)[k] == m[k]
    decreases |cells|
  {
    if |cells| > 0 {
      var m1 := m[cells[0] := w];
      AddKeepsAnchored(m, w, cells[0]);
      assert AddItem(m, w, cells[0]) == m1;
      assert m1.Keys != {} by { assert cells[0] in m1.Keys; }
      AddCellsAnchored(m1, w, cells[1..]);
      assert forall c :: c in cells <==> c == cells[0] || c in cells[1..];
    }
  }

  /** Adding a rectangle with non-negative top-left to a non-empty anchored
      grid occupies the iterated cells with the widget and keeps every other
      entry. */
  lemma AddRectAnchored(m: Grid, w: Widget, rc: LR.Rect)
    requires Anchored(m) && m.Keys != {}
    requires rc.left >= 0 && rc.top >= 0
    ensures AddRect(m, w, rc).Keys == m.Keys + (set c | c in LR.Cells(rc))
    ensures forall c :: c in LR.Cells(rc) ==> AddRect(m, w, rc)[c] == w
    ensures forall k :: k in m && k !in LR.Cells(rc) ==> AddRect(m, w, rc)[k] == m[k]
  {
    var cells := LR.Cells(rc);
    forall k | 0 <= k < |cells|
      ensures 0 <= cells[k].row && 0 <= cells[k].col
    {
      LR.CellsMembership(rc, cells[k]);
    }
    AddCellsAnchored(m, w, cells);
  }

  /** The cells that adding occupies form the transposed rectangle: rows
      `left .. right`, columns `top .. bottom`. */
  lemma AddRectCovers(m: Grid, w: Widget, rc: LR.Rect, c: Index)
    requires Anchored(m) && m.Keys != {}
    requires rc.left >= 0 && rc.top >= 0
    ensures c in AddRect(m, w, rc) <==> c in m || (rc.left <= c.row <= rc.right && rc.top <= c.col <= rc.bottom)
    ensures c !in m && c in AddRect(m, w, rc) ==> AddRect(m, w, rc)[c] == w
  {
    AddRectAnchored(m, w, rc);
    LR.CellsMembership(rc, c);
  }

  /** `addWidget(widget)` uses the next free index; `addWidget(widget, *args)`
      adds the rectangle `LayoutRect(*args)`, here already constructed. */
  function AddWidget(m: Grid, w: Widget, rect: Option<LR.Rect>): (r: Grid)
    ensures rect.None? ==> r.Keys == Normalise(m).Keys + {NextIndex(m)} && r[NextIndex(m)] == w
    ensures rect.None? ==> |r.Keys| == |m.Keys| + 1
    ensures rect.Some? && Anchored(m) && m.Keys != {} && rect.value.left >= 0 && rect.value.top >= 0 ==>
      r.Keys == m.Keys + (set c | c in LR.Cells(rect.value)) &&
      (forall c :: c in LR.Cells(rect.value) ==> r[c] == w) &&
      (forall k :: k in m && k !in LR.Cells(rect.value) ==> r[k] == m[k])
  {
    match rect
    case None =>
      var i := NextIndex(m);
      var r := AddItem(m, w, i);
      assert r.Keys == Normalise(m).Keys + {i};
      assert i !in Normalise(m).Keys;
      r
    case Some(rc) =>
      if Anchored(m) && m.Keys != {} && rc.left >= 0 && rc.top >= 0 then
        AddRectAnchored(m, w, rc);
        AddRect(m, w, rc)
      else AddRect(m, w, rc)
  }

  /** Three widgets added to an empty layout land on (0, 0), then (1, 0),
      then (1, 1): the second scan starts at `LayoutIndex(d - 1, 0)`. */
  lemma ThreeWidgets()
    ensures NextIndex(map[]) == Index(0, 0)
    ensures NextIndex(map[Index(0, 0) := 1]) == Index(1, 0)
    ensures NextIndex(map[Index(0, 0) := 1, Index(1, 0) := 2]) == Index(1, 1)
  {
    var m0: Grid := map[];
    assert Free(m0, 0) == [];
    assert Free(m0, 1) == [Index(0, 0)];
    var m1: Grid := map[Index(0, 0) := 1];
    assert Anchored(m1);
    assert Free(m1, 1) == [];
    assert Free(m1, 2)[0] == Index(1, 0);
    var m2: Grid := map[Index(0, 0) := 1, Index(1, 0) := 2];
    assert Anchored(m2);
    assert Free(m2, 1) == [];
    assert ScanColumn(m2, 2, 0, 0) == [];
    assert Free(m2, 2)[0] == Index(1, 1);
  }

  // --------------------------------------------------------------- fitting

  /** The sort key of `_fitRect`: `max([r.right, r.bottom])`. */
  function FitKey(r: LR.Rect): int {
    if r.right < r.bottom then r.bottom else r.right
  }

  /** `LRect(edge, rect)` for every empty edge. */
  function Candidates(m: Grid, rect: LR.Rect): (cs: seq<LR.Rect>)
    ensures |cs| == |EmptyEdges(m)| > 0
    ensures forall k :: 0 <= k < |cs| ==> cs[k] == LR.FromIndexRect(EmptyEdges(m)[k], rect)
  {
    var edges := EmptyEdges(m);
    seq(|edges|, k requires 0 <= k < |edges| => LR.FromIndexRect(edges[k], rect))
  }

  /** `sorted(rects, key=FitKey)[0]`: the position of the first candidate
      with the least key; the stable sort keeps the earliest of equal keys. */
  method FirstMinimal(cands: seq<LR.Rect>) returns (k: nat)
    requires |cands| > 0
    ensures k < |cands|
    ensures forall j :: 0 <= j < |cands| ==> FitKey(cands[k]) <= FitKey(cands[j])
    ensures forall j :: 0 <= j < k ==> FitKey(cands[j]) > FitKey(cands[k])
  {
    k := 0;
    var i := 1;
    while i < |cands|
      invariant k < i <= |cands|
      invariant forall j :: 0 <= j < i ==> FitKey(cands[k]) <= FitKey(cands[j])
      invariant forall j :: 0 <= j < k ==> FitKey(cands[j]) > FitKey(cands[k])
    {
      if FitKey(cands[i]) < FitKey(cands[k]) {
        k := i;
      }
      i := i + 1;
    }
  }

  /** `_fitRect(rect)`: among the rectangles of `rect`'s extents anchored at
      each empty edge, the first with the least `max(right, bottom)`. */
  method FitRect(m: Grid, rect: LR.Rect) returns (best: LR.Rect)
    ensures LR.ColSpan(best) == LR.ColSpan(rect) && LR.RowSpan(best) == LR.RowSpan(rect)
    ensures exists k :: (0 <= k < |Candidates(m, rect)| && best == Candidates(m, rect)[k] &&
      (forall j :: 0 <= j < k ==> FitKey(Candidates(m, rect)[j]) > FitKey(best)))
    ensures forall c :: c in Candidates(m, rect) ==> FitKey(best) <= FitKey(c)
  {
    var cands := Candidates(m, rect);
    var k := FirstMinimal(cands);
    best := cands[k];
  }

  // ------------------------------------------------------------- reading

  /** `nCols`: the largest column among the keys, not a count; `max` of an
      empty list raises ValueError. */
  function NCols(m: Grid): (r: Result<int>)
    ensures r.Ok? <==> m.Keys != {}
    ensures r.Err? ==> r.FailsWith(ValueFailure)
    ensures r.Ok? ==> (exists k :: k in Normalise(m) && k.col == r.value)
    ensures r.Ok? ==> forall k :: k in Normalise(m) ==> k.col <= r.value
  {
    var n := Normalise(m);
    if n.Keys == {} then Err(ValueFailure)
    else
      NonEmptyAxes(n);
      var c := MaxOf(Cols(n));
      assert forall k :: k in n ==> k.col in Cols(n);
      Ok(c)
  }

  /** `nRows`: the largest row among the keys. */
  function NRows(m: Grid): (r: Result<int>)
    ensures r.Ok? <==> m.Keys != {}
    ensures r.Err? ==> r.FailsWith(ValueFailure)
    ensures r.Ok? ==> (exists k :: k in Normalise(m) && k.row == r.value)
    ensures r.Ok? ==> forall k :: k in Normalise(m) ==> k.row <= r.value
  {
    var n := Normalise(m);
    if n.Keys == {} then Err(ValueFailure)
    else
      NonEmptyAxes(n);
      var c := MaxOf(Rows(n));
      assert forall k :: k in n ==> k.row in Rows(n);
      Ok(c)
  }

  /** What `__contains__` may be asked about. */
  datatype Query =
    | QIndex(index: Index)        // a LayoutIndex
    | QInt(n: int)                // an int, which LayoutIndex(n) accepts
    | QPair(items: seq<WriteOnce.PyValue>)  // a tuple or list
    | QRect(rect: LR.Rect)        // a LayoutRect
    | QOther                      // anything neither constructor accepts

  /** `_resolveOther` followed by the membership test: an index must be a
      key of the normalised grid; a rectangle needs its `topLeft` and
      `bottomRight` corners to be keys; anything unresolvable is not
      contained. A malformed tuple's ValueError or TypeError escapes. */
  function Contains(m: Grid, q: Query): (r: Result<bool>)
    ensures q.QIndex? ==> r == Ok(q.index in Normalise(m))
    ensures q.QInt? ==> r == Ok(Index(q.n, q.n) in Normalise(m))
    ensures q.QRect? ==> r == Ok(LR.TopLeft(q.rect) in Normalise(m) && LR.BottomRight(q.rect) in Normalise(m))
    ensures q.QOther? ==> r == Ok(false)
    ensures q.QPair? ==> (r.Ok? <==> NewFromSeq(q.items).Ok?)
    ensures q.QPair? ==> (r.Ok? <==> |q.items| == 2 && q.items[0].PyInt? && q.items[1].PyInt?)
    ensures q.QPair? && r.Ok? ==> r.value == (Index(q.items[0].i, q.items[1].i) in Normalise(m))
    ensures q.QPair? && r.Err? ==> r == Err(NewFromSeq(q.items).error)
  {
    var n := Normalise(m);
    match q
    case QIndex(i) => Ok(i in n)
    case QInt(v) => Ok(Value(NewFromInt(v)).value in n)
    case QPair(items) =>
      (match NewFromSeq(items)
       case Err(e) => Err(e)
       case Ok(c) => Ok(Value(c).value in n))
    case QRect(rc) => Ok(LR.TopLeft(rc) in n && LR.BottomRight(rc) in n)
    case QOther => Ok(false)
  }

  /** A pair of ints, an int and an index are three spellings of one
      membership test. */
  lemma {:induction false} ContainsOverloadsAgree(m: Grid, a: int, b: int)
    ensures Contains(m, QPair([WriteOnce.PyInt(a), WriteOnce.PyInt(b)])) == Contains(m, QIndex(Index(a, b)))
    ensures Contains(m, QInt(a)) == Contains(m, QIndex(Index(a, a)))
    ensures Contains(m, QIndex(Index(a, b))) == Ok(Index(a, b) in Normalise(m))
  {
    var items: seq<WriteOnce.PyValue> := [WriteOnce.PyInt(a), WriteOnce.PyInt(b)];
    assert items[0].i == a && items[1].i == b;
  }

  // ------------------------------------------------------------- grouping

  /** The cells mapped to `w`. */
  function CellsOf(n: Grid, w: Widget): set<Index> {
    set k | k in n && n[k] == w
  }

  /** `_getRectWidgets()`: each widget of the grid with the `fromIndices`
      bounding box of all its cells. */
  function RectWidgets(m: Grid): (r: map<Widget, LR.Rect>)
    ensures r.Keys == Normalise(m).Values
    ensures var n := Normalise(m); forall w, k :: w in r && k in n && n[k] == w ==> LR.ContainsIndex(r[w], k)
  {
    BoundsOfWidgets(Normalise(m))
  }

  /** Each widget of an anchored grid with the bounding box of its cells. */
  function BoundsOfWidgets(n: Grid): (r: map<Widget, LR.Rect>)
    ensures r.Keys == n.Values
    ensures forall w :: w in r ==> r[w] == WidgetBounds(n, w)
    ensures forall w, k :: w in r && k in n && n[k] == w ==> LR.ContainsIndex(r[w], k)
  {
    map w | w in n.Values :: WidgetBounds(n, w)
  }

  function WidgetBounds(n: Grid, w: Widget): (b: LR.Rect)
    requires w in n.Values
    ensures forall k :: k in n && n[k] == w ==> LR.ContainsIndex(b, k)
    ensures exists k :: k in n && n[k] == w && k.row == b.top
    ensures exists k :: k in n && n[k] == w && k.row == b.bottom
    ensures exists k :: k in n && n[k] == w && k.col == b.left
    ensures exists k :: k in n && n[k] == w && k.col == b.right
  {
    var k :| k in n && n[k] == w;
    assert k in CellsOf(n, w);
    LR.Bounds(CellsOf(n, w))
  }

  /** Each widget's rectangle is the least one containing all its cells. */
  lemma RectWidgetsAreLeast(m: Grid, w: Widget, t: LR.Rect)
    requires w in RectWidgets(m)
    ensures LR.ContainsRect(t, RectWidgets(m)[w]) <==> forall k :: k in CellsOf(Normalise(m), w) ==> LR.ContainsIndex(t, k)
  {
    var n := Normalise(m);
    var k :| k in n && n[k] == w;
    assert k in CellsOf(n, w);
    LR.BoundsIsLeast(t, CellsOf(n, w));
  }

  /** One `QGridLayout.addWidget(widget, row, col, rowSpan, colSpan)` call. */
  datatype Placement = Placement(row: int, col: int, rowSpan: int, colSpan: int)

  /** Each edge of the placement is reached by a cell of the widget: the
      first and last rows, the first and last columns. */
  predicate PlacementIsTight(n: Grid, w: Widget, p: Placement) {
    (exists k :: k in n && n[k] == w && k.row == p.row) &&
    (exists k :: k in n && n[k] == w && k.row == p.row + p.rowSpan - 1) &&
    (exists k :: k in n && n[k] == w && k.col == p.col) &&
    (exists k :: k in n && n[k] == w && k.col == p.col + p.colSpan - 1)
  }

  /** `build()`: `row, col = rect.top, rect.left` and the spans from
      `height` and `width`, for each widget's rectangle. */
  function Build(m: Grid): (r: map<Widget, Placement>)
    ensures r.Keys == Normalise(m).Values
    ensures forall w, k :: w in r && k in Normalise(m) && Normalise(m)[k] == w ==>
      r[w].row <= k.row < r[w].row + r[w].rowSpan && r[w].col <= k.col < r[w].col + r[w].colSpan
  {
    var rw := RectWidgets(m);
    map w | w in rw :: Placement(rw[w].top, rw[w].left, LR.RowSpan(rw[w]), LR.ColSpan(rw[w]))
  }

  /** No placement is larger than it must be: each of its four edges is
      reached by a cell of its widget. */
  lemma BuildIsTight(m: Grid, w: Widget)
    requires w in Build(m)
    ensures PlacementIsTight(Normalise(m), w, Build(m)[w])
  {
    var n := Normalise(m);
    var b := WidgetBounds(n, w);
    assert RectWidgets(m)[w] == b;
    assert Build(m)[w] == Placement(b.top, b.left, LR.RowSpan(b), LR.ColSpan(b));
  }
}
