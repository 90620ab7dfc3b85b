/** `LayoutRect`: an integer rectangle of grid cells, with inclusive edges.

    Every constructor form leaves all four edges set, so after construction
    the object is frozen: the write-once edge setters always fail, and the
    derived fields are read-only. The value is therefore modelled as the four
    edges; `LegacyLayoutRect` models the write-once mechanics on partially
    set objects.

    Corners, the span and the iterated cells are built with
    `LayoutIndex(a, b)`, which stores `a` as the row, and are passed
    `(col, row)` values: they come out transposed, exactly as in the library.
 */
module LayoutRect {
  import opened Errors
  import opened WriteOnce
  import opened IntSets
  import opened LayoutIndex
  import LayoutSpan
  import Iteration

  datatype Rect = Rect(left: int, top: int, right: int, bottom: int)

  /** The fields one can try to assign. */
  datatype RectField =
    | FLeft | FTop | FRight | FBottom
    | FColSpan | FRowSpan | FTopLeft | FTopRight | FBottomRight | FBottomLeft | FSpan
  {
    predicate IsEdge() { FLeft? || FTop? || FRight? || FBottom? }
  }

  /** The stored value of an edge field. */
  function Edge(r: Rect, f: RectField): int
    requires f.IsEdge()
  {
    match f
    case FLeft => r.left
    case FTop => r.top
    case FRight => r.right
    case FBottom => r.bottom
  }

  /** Assignment to a field of a constructed rectangle: an edge goes through
      its write-once setter, whose slot is already filled; any derived field
      is read-only. */
  function Assign(r: Rect, f: RectField, v: PyValue): (res: Result<Rect>)
    ensures f.IsEdge() ==> res.FailsWith(WriteOnce)
    ensures !f.IsEdge() ==> res.FailsWith(ReadOnly)
  {
    if f.IsEdge() then
      match Write(Stored(Edge(r, f)), v)
      case Ok(_) => Ok(r)
      case Err(e) => Err(e)
    else Err(ReadOnly)
  }

  // --------------------------------------------------------- derived fields

  /** `colSpan` (also `width`). */
  function ColSpan(r: Rect): int { r.right - r.left + 1 }

  /** `rowSpan` (also `height`). */
  function RowSpan(r: Rect): int { r.bottom - r.top + 1 }

  /** `LayoutIndex(left, top)`: row := left, col := top. */
  function TopLeft(r: Rect): Index { Index(r.left, r.top) }
  function TopRight(r: Rect): Index { Index(r.right, r.top) }
  function BottomRight(r: Rect): Index { Index(r.right, r.bottom) }
  function BottomLeft(r: Rect): Index { Index(r.left, r.bottom) }

  /** `LayoutSpan(colSpan, rowSpan)`: nRows := colSpan, nCols := rowSpan. */
  function SpanOf(r: Rect): LayoutSpan.Span {
    LayoutSpan.Span(ColSpan(r), RowSpan(r))
  }

  /** The transposition is visible through the span's accessors. */
  lemma SpanIsTransposed(r: Rect)
    ensures LayoutSpan.NRows(SpanOf(r)) == ColSpan(r)
    ensures LayoutSpan.NCols(SpanOf(r)) == RowSpan(r)
  {
  }

  /** `__len__`: `len(self.span)`, the cell count `colSpan * rowSpan`; it
      fails with `ValueError` when the product is negative and with
      `OverflowError` when it exceeds `sys.maxsize`. */
  function Len(r: Rect): (n: Result<int>)
    ensures n.Ok? <==> 0 <= ColSpan(r) * RowSpan(r) <= LayoutSpan.MaxSize
    ensures n.Ok? ==> n.value == ColSpan(r) * RowSpan(r)
    ensures ColSpan(r) * RowSpan(r) < 0 ==> n.FailsWith(ValueFailure)
    ensures ColSpan(r) * RowSpan(r) > LayoutSpan.MaxSize ==> n.FailsWith(Overflow)
  {
    LayoutSpan.Len(SpanOf(r))
  }

  /** `__abs__`: `abs(self.span)`, the larger absolute extent. */
  function AbsOf(r: Rect): (n: int)
    ensures n >= 0
    ensures n * n == LayoutSpan.Max(ColSpan(r) * ColSpan(r), RowSpan(r) * RowSpan(r))
  {
    LayoutSpan.Abs(SpanOf(r))
  }

  /** `__bool__`: true when the top-left corner is not (0, 0), without
      taking the length; otherwise false exactly when the length is 1, and
      the error of `len` when the length is negative or too large. */
  function Bool(r: Rect): (b: Result<bool>)
    ensures Truthy(TopLeft(r)) ==> b == Ok(true)
    ensures b == Ok(false) <==> r.left == 0 && r.top == 0 && ColSpan(r) * RowSpan(r) == 1
    ensures b.Err? <==> r.left == 0 && r.top == 0 && (ColSpan(r) * RowSpan(r) < 0 || ColSpan(r) * RowSpan(r) > LayoutSpan.MaxSize)
    ensures b.Err? ==> Len(r).Err? && b.error == Len(r).error
  {
    if Truthy(TopLeft(r)) then Ok(true)
    else
      match Len(r)
      case Ok(n) => Ok(n != 1)
      case Err(e) => Err(e)
  }

  /** One column to the left of `left` by one row: `len` raises, and so does
      `bool`, whose corner is (0, 0). */
  lemma MixedExtentsFail()
    ensures ColSpan(Rect(0, 0, -2, 0)) == -1 && RowSpan(Rect(0, 0, -2, 0)) == 1
    ensures Len(Rect(0, 0, -2, 0)).FailsWith(ValueFailure)
    ensures Bool(Rect(0, 0, -2, 0)).FailsWith(ValueFailure)
  {
  }

  /** A length of one needs both extents to be 1, or both to be -1. */
  lemma UnitLength(r: Rect)
    ensures Len(r) == Ok(1) <==> (ColSpan(r) == 1 && RowSpan(r) == 1) || (ColSpan(r) == -1 && RowSpan(r) == -1)
  {
    var c, w := ColSpan(r), RowSpan(r);
    if c * w == 1 && (c > 1 || c < -1) {
      ProductNotOne(c, w);
    }
  }

  lemma ProductNotOne(c: int, w: int)
    requires c > 1 || c < -1
    ensures c * w != 1
  {
    if w > 0 {
      if c > 1 { assert c * w >= 2 * w; } else { assert c * w <= -2 * w; }
    } else if w < 0 {
      if c > 1 { assert c * w <= 2 * w; } else { assert c * w >= -2 * w; }
    }
  }

  // -------------------------------------------------------------- iteration

  /** The number of iterations of `range(n)`. */
  function Count(n: int): nat { if n < 0 then 0 else n }

  /** The inner loop: offsets `j .. n-1` of column offset `i`. */
  function ColumnCells(r: Rect, i: int, j: nat, n: nat): seq<Index>
    decreases n - j
  {
    if j >= n then []
    else [Index(r.left + i, r.top + j)] + ColumnCells(r, i, j + 1, n)
  }

  /** The outer loop: column offsets `i .. m-1`, each with its inner loop. */
  function OffsetCells(r: Rect, i: nat, m: nat, n: nat): seq<Index>
    decreases m - i
  {
    if i >= m then []
    else ColumnCells(r, i, 0, n) + OffsetCells(r, i + 1, m, n)
  }

  /** `__iter__`: column-major, `LayoutIndex(left + i, top + j)`. */
  function Cells(r: Rect): seq<Index> {
    OffsetCells(r, 0, Count(ColSpan(r)), Count(RowSpan(r)))
  }

  lemma {:induction false} ColumnCellsMembership(r: Rect, i: int, j: nat, n: nat, c: Index)
    ensures |ColumnCells(r, i, j, n)| == if j >= n then 0 else n - j
    ensures c in ColumnCells(r, i, j, n) <==> c.row == r.left + i && r.top + j <= c.col < r.top + n
    decreases n - j
  {
    if j < n {
      ColumnCellsMembership(r, i, j + 1, n, c);
    }
  }

  lemma {:induction false} OffsetCellsMembership(r: Rect, i: nat, m: nat, n: nat, c: Index)
    ensures |OffsetCells(r, i, m, n)| == if i >= m then 0 else (m - i) * n
    ensures c in OffsetCells(r, i, m, n) <==> r.left + i <= c.row < r.left + m && r.top <= c.col < r.top + n
    decreases m - i
  {
    if i < m {
      ColumnCellsMembership(r, i, 0, n, c);
      OffsetCellsMembership(r, i + 1, m, n, c);
      assert (m - i) * n == n + (m - i - 1) * n;
    }
  }

  /** Iteration yields `colSpan * rowSpan` cells, none when an extent is not
      positive, and they are exactly the indices whose ROW lies between
      `left` and `right` and whose COLUMN lies between `top` and `bottom`:
      the rectangle seen through the transposed constructor. */
  lemma CellsMembership(r: Rect, c: Index)
    ensures |Cells(r)| == Count(ColSpan(r)) * Count(RowSpan(r))
    ensures ColSpan(r) > 0 && RowSpan(r) > 0 ==>
      (Len(r).Ok? <==> |Cells(r)| <= LayoutSpan.MaxSize) && (Len(r).Ok? ==> Len(r).value == |Cells(r)|)
    ensures c in Cells(r) <==> r.left <= c.row <= r.right && r.top <= c.col <= r.bottom
  {
    OffsetCellsMembership(r, 0, Count(ColSpan(r)), Count(RowSpan(r)), c);
  }

  /** The first cell iterated is `LayoutIndex(left, top)`, the next one moves
      down a row within the first column. */
  lemma CellsStartInFirstColumn(r: Rect)
    requires ColSpan(r) >= 1 && RowSpan(r) >= 2
    ensures |Cells(r)| >= 2
    ensures Cells(r)[0] == Index(r.left, r.top) && Cells(r)[1] == Index(r.left, r.top + 1)
  {
    var m, n := Count(ColSpan(r)), Count(RowSpan(r));
    var first := ColumnCells(r, 0, 0, n);
    assert ColumnCells(r, 0, 1, n) == [Index(r.left, r.top + 1)] + ColumnCells(r, 0, 2, n);
    assert first == [Index(r.left, r.top)] + ColumnCells(r, 0, 1, n);
    assert Cells(r) == first + OffsetCells(r, 1, m, n);
  }

  lemma {:induction false} ColumnCellsAt(r: Rect, i: int, j: nat, n: nat, k: nat)
    requires j <= k < n
    ensures k - j < |ColumnCells(r, i, j, n)|
    ensures ColumnCells(r, i, j, n)[k - j] == Index(r.left + i, r.top + k)
    decreases n - j
  {
    if k > j {
      ColumnCellsAt(r, i, j + 1, n, k);
    }
  }

  /** `k * n` as repeated addition, so that the positional lemma below
      needs no non-linear arithmetic. */
  function Stride(k: nat, n: nat): nat {
    if k == 0 then 0 else n + Stride(k - 1, n)
  }

  lemma {:induction false} StrideIsProduct(k: nat, n: nat)
    ensures Stride(k, n) == k * n
  {
    if k > 0 {
      StrideIsProduct(k - 1, n);
      assert k * n == n + (k - 1) * n;
    }
  }

  lemma {:induction false} OffsetCellsAt(r: Rect, i0: nat, m: nat, n: nat, i: nat, j: nat)
    requires i0 <= i < m && j < n
    ensures Stride(i - i0, n) + j < |OffsetCells(r, i0, m, n)|
    ensures OffsetCells(r, i0, m, n)[Stride(i - i0, n) + j] == Index(r.left + i, r.top + j)
    decreases m - i0
  {
    var column := ColumnCells(r, i0, 0, n);
    assert OffsetCells(r, i0, m, n) == column + OffsetCells(r, i0 + 1, m, n);
    ColumnCellsMembership(r, i0, 0, n, Index(r.left + i, r.top + j));
    if i == i0 {
      ColumnCellsAt(r, i0, 0, n, j);
    } else {
      OffsetCellsAt(r, i0 + 1, m, n, i, j);
    }
  }

  /** Iteration is column-major: the cell at offset `(i, j)` from the
      top-left, for `i` below `colSpan` and `j` below `rowSpan`, is yielded
      at position `i * rowSpan + j`, as `LayoutIndex(left + i, top + j)`. */
  lemma CellsAt(r: Rect, i: nat, j: nat)
    requires i < ColSpan(r) && j < RowSpan(r)
    ensures i * RowSpan(r) + j < |Cells(r)|
    ensures Cells(r)[i * RowSpan(r) + j] == Index(r.left + i, r.top + j)
  {
    OffsetCellsAt(r, 0, Count(ColSpan(r)), Count(RowSpan(r)), i, j);
    StrideIsProduct(i, Count(RowSpan(r)));
  }

  /** `list(rect)`: `__iter__` fills the buffer, then the loop drains it. */
  function Iterate(r: Rect): (cells: Result<seq<Index>>)
    ensures cells == Ok(Cells(r))
  {
    Iteration.DrainYieldsBuffer(Cells(r));
    Iteration.Drain(Some(Cells(r)))
  }

  // ------------------------------------------------------------ containment

  /** `index in rect`: the index's row against top/bottom, its column
      against left/right, edges inclusive. */
  predicate ContainsIndex(r: Rect, i: Index) {
    r.top <= i.row <= r.bottom && r.left <= i.col <= r.right
  }

  /** The `(col, row)` overload of `__contains__`. */
  predicate ContainsColRow(r: Rect, col: int, row: int) {
    !(row < r.top || row > r.bottom) && !(col < r.left || col > r.right)
  }

  /** The rect-in-rect overload of `__contains__`. */
  predicate ContainsRect(r: Rect, o: Rect) {
    !(o.top < r.top || o.bottom > r.bottom) && !(o.left < r.left || o.right > r.right)
  }

  /** The pair overload agrees with the index overload on `Index(row, col)`. */
  lemma ContainsOverloadsAgree(r: Rect, col: int, row: int)
    ensures ContainsColRow(r, col, row) <==> ContainsIndex(r, Index(row, col))
  {
  }

  /** Rect containment is a preorder. */
  lemma ContainsRectPreorder(a: Rect, b: Rect, c: Rect)
    ensures ContainsRect(a, a)
    ensures ContainsRect(a, b) && ContainsRect(b, c) ==> ContainsRect(a, c)
  {
  }

  /** Iterating a rect whose transpose is itself (`left == top`,
      `right == bottom`) yields only cells it contains. */
  lemma SquareCellsContained(r: Rect, c: Index)
    requires r.left == r.top && r.right == r.bottom
    requires c in Cells(r)
    ensures ContainsIndex(r, c)
  {
    CellsMembership(r, c);
  }

  /** For the two-column, one-row rect (0, 0, 1, 0) iteration yields a cell
      the rect does not contain. */
  lemma WideCellNotContained()
    ensures Index(1, 0) in Cells(Rect(0, 0, 1, 0))
    ensures !ContainsIndex(Rect(0, 0, 1, 0), Index(1, 0))
  {
    CellsMembership(Rect(0, 0, 1, 0), Index(1, 0));
  }

  // ----------------------------------------------------------- constructors

  /** `LayoutRect(r0, r1)`: the min/max bounding box of two rects. */
  function FromRects(r0: Rect, r1: Rect): (r: Rect)
    ensures ContainsRect(r, r0) && ContainsRect(r, r1)
  {
    Rect(Min(r0.left, r1.left), Min(r0.top, r1.top), Max(r0.right, r1.right), Max(r0.bottom, r1.bottom))
  }

  /** A rect contains the bounding box exactly when it contains both rects. */
  lemma FromRectsIsLeast(s: Rect, r0: Rect, r1: Rect)
    ensures ContainsRect(s, FromRects(r0, r1)) <==> ContainsRect(s, r0) && ContainsRect(s, r1)
  {
  }

  /** `LayoutRect(r0, index)`: the bounding box of a rect and an index,
      using the index's column horizontally and its row vertically. */
  function FromRectIndex(r0: Rect, i: Index): (r: Rect)
    ensures ContainsRect(r, r0) && ContainsIndex(r, i)
  {
    Rect(Min(r0.left, i.col), Min(r0.top, i.row), Max(r0.right, i.col), Max(r0.bottom, i.row))
  }

  lemma FromRectIndexIsLeast(s: Rect, r0: Rect, i: Index)
    ensures ContainsRect(s, FromRectIndex(r0, i)) <==> ContainsRect(s, r0) && ContainsIndex(s, i)
  {
  }

  /** `LayoutRect(r0, R, B)` builds `LayoutIndex(R, B)`, so `R` is taken as
      a row and `B` as a column of the bounding box. */
  function FromRectInts(r0: Rect, R: int, B: int): (r: Rect)
    ensures ContainsRect(r, r0)
    ensures r.top <= R <= r.bottom && r.left <= B <= r.right
  {
    FromRectIndex(r0, Index(R, B))
  }

  /** `LayoutRect(topLeft, bottomRight)` from two indices. */
  function FromCorners(tl: Index, br: Index): (r: Rect)
    ensures ColSpan(r) == br.col - tl.col + 1 && RowSpan(r) == br.row - tl.row + 1
    ensures ContainsIndex(r, tl) <==> tl.row <= br.row && tl.col <= br.col
    ensures ContainsIndex(r, br) <==> tl.row <= br.row && tl.col <= br.col
  {
    Rect(tl.col, tl.row, br.col, br.row)
  }

  /** `LayoutRect(topLeft, R, B)`: `R` columns and `B` rows from the corner. */
  function FromIndexExtent(tl: Index, R: int, B: int): (r: Rect)
    ensures ColSpan(r) == R && RowSpan(r) == B
    ensures R >= 1 && B >= 1 ==> ContainsIndex(r, tl)
  {
    Rect(tl.col, tl.row, tl.col + R - 1, tl.row + B - 1)
  }

  /** `LayoutRect(L, T, bottomRight)`. */
  function FromIntsIndex(L: int, T: int, br: Index): (r: Rect)
    ensures ColSpan(r) == br.col - L + 1 && RowSpan(r) == br.row - T + 1
    ensures ContainsColRow(r, L, T) <==> L <= br.col && T <= br.row
  {
    Rect(L, T, br.col, br.row)
  }

  /** `LayoutRect(topLeft, rect)`: the other rect's extents from the corner. */
  function FromIndexRect(tl: Index, sp: Rect): (r: Rect)
    ensures ColSpan(r) == ColSpan(sp) && RowSpan(r) == RowSpan(sp)
    ensures r.left == tl.col && r.top == tl.row
  {
    Rect(tl.col, tl.row, tl.col + ColSpan(sp) - 1, tl.row + RowSpan(sp) - 1)
  }

  /** `LayoutRect(L, T, rect)`. */
  function FromIntsRect(L: int, T: int, sp: Rect): (r: Rect)
    ensures ColSpan(r) == ColSpan(sp) && RowSpan(r) == RowSpan(sp)
    ensures ContainsRect(r, sp) <==> r == sp
  {
    Rect(L, T, L + ColSpan(sp) - 1, T + RowSpan(sp) - 1)
  }

  /** `LayoutRect(topLeft, span)`. */
  function FromIndexSpan(tl: Index, sp: LayoutSpan.Span): (r: Rect)
    ensures ColSpan(r) == LayoutSpan.ColSpan(sp) && RowSpan(r) == LayoutSpan.RowSpan(sp)
    ensures r.left == tl.col && r.top == tl.row
  {
    Rect(tl.col, tl.row, tl.col + LayoutSpan.ColSpan(sp) - 1, tl.row + LayoutSpan.RowSpan(sp) - 1)
  }

  /** `LayoutRect(L, T, span)`. */
  function FromIntsSpan(L: int, T: int, sp: LayoutSpan.Span): (r: Rect)
    ensures ColSpan(r) == LayoutSpan.ColSpan(sp) && RowSpan(r) == LayoutSpan.RowSpan(sp)
    ensures LayoutSpan.ColSpan(sp) >= 1 && LayoutSpan.RowSpan(sp) >= 1 ==> ContainsColRow(r, L, T)
  {
    Rect(L, T, L + LayoutSpan.ColSpan(sp) - 1, T + LayoutSpan.RowSpan(sp) - 1)
  }

  /** `LayoutRect(span)`: anchored at (0, 0). */
  function FromSpan(sp: LayoutSpan.Span): (r: Rect)
    ensures ColSpan(r) == LayoutSpan.NCols(sp) && RowSpan(r) == LayoutSpan.NRows(sp)
    ensures r.left == 0 && r.top == 0
  {
    Rect(0, 0, LayoutSpan.NCols(sp) - 1, LayoutSpan.NRows(sp) - 1)
  }

  /** `LayoutRect(a, b)`: the single cell with left `a` and top `b`. */
  function FromPair(a: int, b: int): (r: Rect)
    ensures ColSpan(r) == 1 && RowSpan(r) == 1 && Len(r) == Ok(1)
    ensures ContainsColRow(r, a, b)
  {
    Rect(a, b, a, b)
  }

  /** `LayoutRect(index)`: the single cell holding `index`. */
  function FromIndex(i: Index): (r: Rect)
    ensures ColSpan(r) == 1 && RowSpan(r) == 1 && Len(r) == Ok(1)
    ensures ContainsIndex(r, i)
  {
    FromCorners(i, i)
  }

  /** `LayoutRect(other)`: an equal rectangle. */
  function Copy(o: Rect): (r: Rect)
    ensures ContainsRect(r, o) && ContainsRect(o, r)
  {
    Rect(o.left, o.top, o.right, o.bottom)
  }

  /** `LayoutRect()`: the 1x1 rect at (0, 0), the one falsy rectangle shape
      with non-negative extents. */
  function Default(): (r: Rect)
    ensures Len(r) == Ok(1) && Bool(r) == Ok(false)
    ensures ContainsIndex(r, Index(0, 0))
  {
    Rect(0, 0, 0, 0)
  }

  /** A single-cell rectangle iterates its one cell, transposed. */
  lemma SingleCellIteration(i: Index)
    ensures Cells(FromIndex(i)) == [Index(i.col, i.row)]
    ensures Cells(FromPair(i.row, i.col)) == [i]
  {
  }

  function Min(a: int, b: int): int { if a < b then a else b }
  function Max(a: int, b: int): int { if a < b then b else a }

  // ----------------------------------------------------------- fromIndices

  function Cols(s: set<Index>): set<int> { set i | i in s :: i.col }
  function Rows(s: set<Index>): set<int> { set i | i in s :: i.row }

  /** The min/max bounding box of a non-empty set of indices. */
  function Bounds(s: set<Index>): (r: Rect)
    requires s != {}
    ensures forall i :: i in s ==> ContainsIndex(r, i)
    ensures (exists i :: i in s && i.col == r.left) && (exists i :: i in s && i.col == r.right)
    ensures (exists i :: i in s && i.row == r.top) && (exists i :: i in s && i.row == r.bottom)
  {
    assert exists i :: i in s by {
      if forall i :: i !in s {
        assert false;
      }
    }
    var w :| w in s;
    assert w.col in Cols(s) && w.row in Rows(s);
    var L, R := MinOf(Cols(s)), MaxOf(Cols(s));
    var T, B := MinOf(Rows(s)), MaxOf(Rows(s));
    assert forall i :: i in s ==> i.col in Cols(s) && i.row in Rows(s);
    Rect(L, T, R, B)
  }

  /** `LayoutRect.fromIndices(*indices)`: `min()` of an empty list raises
      ValueError; otherwise the bounding box of the indices. */
  function FromIndices(indices: seq<Index>): (r: Result<Rect>)
    ensures r.Ok? <==> |indices| > 0
    ensures |indices| == 0 ==> r.FailsWith(ValueFailure)
    ensures r.Ok? ==> forall k :: 0 <= k < |indices| ==> ContainsIndex(r.value, indices[k])
    ensures r.Ok? ==> r.value == Bounds(IndexSet(indices))
    ensures r.Ok? ==> (exists k :: 0 <= k < |indices| && indices[k].col == r.value.left) &&
                      (exists k :: 0 <= k < |indices| && indices[k].col == r.value.right) &&
                      (exists k :: 0 <= k < |indices| && indices[k].row == r.value.top) &&
                      (exists k :: 0 <= k < |indices| && indices[k].row == r.value.bottom)
  {
    if |indices| == 0 then Err(ValueFailure)
    else
      Ok(Bounds(IndexSet(indices)))
  }

  /** The indices of a list, as a set. */
  function IndexSet(indices: seq<Index>): (s: set<Index>)
    ensures |indices| > 0 ==> s != {}
    ensures forall i :: i in s <==> i in indices
  {
    var s := set i | i in indices;
    if |indices| > 0 then assert indices[0] in s; s else s
  }

  /** The bounding box is the least rect containing every index. */
  lemma BoundsIsLeast(t: Rect, s: set<Index>)
    requires s != {}
    ensures ContainsRect(t, Bounds(s)) <==> forall i :: i in s ==> ContainsIndex(t, i)
  {
    var b := Bounds(s);
    if forall i :: i in s ==> ContainsIndex(t, i) {
      var il :| il in s && il.col == b.left;
      var ir :| ir in s && ir.col == b.right;
      var it :| it in s && it.row == b.top;
      var ib :| ib in s && ib.row == b.bottom;
      assert ContainsIndex(t, il) && ContainsIndex(t, ir) && ContainsIndex(t, it) && ContainsIndex(t, ib);
    }
  }

  /** `fromIndices` gives the least rect containing all the indices. */
  lemma FromIndicesIsLeast(t: Rect, indices: seq<Index>)
    requires |indices| > 0
    ensures FromIndices(indices).Ok?
    ensures ContainsRect(t, FromIndices(indices).value) <==> forall k :: 0 <= k < |indices| ==> ContainsIndex(t, indices[k])
  {
    var s := IndexSet(indices);
    BoundsIsLeast(t, s);
    assert forall i :: i in s <==> exists k :: 0 <= k < |indices| && indices[k] == i;
  }
}
