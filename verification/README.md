# worQt core, modelled in Dafny

This project models four parts of the worQt widget toolkit as pure Dafny
functions over immutable datatypes, and proves properties of them.

1. **The integer grid-layout engine.**
   - `LayoutIndex` is a write-once (row, col) cell. `LayoutIndex(a, b)` stores `a` as the row, and the model keeps that orientation at every call site.
   - `LayoutSpan` reads the same pair as an extent.
   - `LayoutRect` is a write-once integer rectangle. It has its many constructor forms, a column-major cell iteration and three containment tests.
   - The older write-once rectangle of `widgets/core` is modelled separately as `LegacyLayoutRect`.
   - `WLayout` keeps a sparse grid, a map from cells to widget identities. It normalises the grid to a (0, 0) anchor, searches free cells in growing squares, places spanning rectangles, and groups cells into one bounding rectangle per widget.
2. **The 2-D value algebra over `real`.**
   - `Plane` is the two-component value. `Point` is the same datatype read as x/y.
   - `Vector` adds dot and cross products, the hat vector and projections.
   - `Size` adds absolute dimensions, the aspect ratio and `fit`.
   - `Region` is a min/max-normalised rectangle with union, clip, intersection and containment.
3. **The affine coordinate maps.** `MoveMap` translates, `ScaleMap` scales with non-negative factors, and `RegionMap` maps a source rectangle onto a target rectangle axis by axis.
4. **The version bump of `roll_version.py`.**
   - Selecting the level from the command line.
   - Incrementing that level and resetting the lower ones.
   - Formatting the tag.
   - Rewriting the first `version` line of `pyproject.toml`.

How Python's behaviour is represented:
- Every Python exception is a `Result` error from module `Errors`: WriteOnceError, MissingVariable, TypeError, ValueError, ReadOnlyError, ZeroDivisionError, OverflowError, IndexError, KeyError, AttributeError, RuntimeError, StopIteration, `NotImplemented` and a dispatch failure.
- Each overload of the runtime dispatcher becomes one case of a `New`/`Call` function over an argument datatype.
- Write-once fields are `Slot` values (`Unset`, `Stored(i)` or `Foreign`) in module `WriteOnce`.
- The iterator protocol is module `Iteration`. A buffer is drained by `__next__` until StopIteration. There are two variants: the checking `__next__` and the clearing `__next__`.
- The file reads and writes of `roll_version.py` become parameters and results: the old version record, `sys.argv` and the lines of `pyproject.toml` go in, and the new version, tag and lines come out.

## Model

| member | source | states |
|---|---|---|
| `WriteOnce.SlotOf` | src/worQt/layouts/_layout_index.py:117-121 | an int argument is stored, None leaves the field unset, and anything else is a foreign value |
| `WriteOnce.Read` | src/worQt/layouts/_layout_index.py:40-56 | a getter succeeds exactly when an int is stored and returns it; an unset field raises MissingVariable and a foreign value raises TypeError |
| `WriteOnce.Write` | src/worQt/layouts/_layout_index.py:58-74 | a setter succeeds exactly when the field is unset and the value is an int, and a read then returns that value; a set field raises WriteOnceError; a non-int raises TypeError |
| `WriteOnce.SecondWriteFails` | src/worQt/layouts/_layout_index.py:58-74 | after one successful write every further write raises WriteOnceError and the stored value is still the first one |
| `Iteration.Next` | src/worQt/layouts/_layout_rect.py:193-198 | the checking `__next__` either yields an item and shrinks the buffer, or raises StopIteration and clears it |
| `Iteration.DrainYieldsBuffer` | src/worQt/layouts/_layout_rect.py:182-198 | draining a filled buffer with the checking `__next__` yields exactly the buffer's items, in order |
| `Iteration.NextClearing` | src/worQt/layouts/_layout_index.py:107-115 | the clearing `__next__` shrinks the buffer when it yields; on a cleared buffer it raises AttributeError; on an empty list it raises StopIteration; it never leaves an empty list behind |
| `Iteration.DrainClearingFails` | src/worQt/layouts/_layout_index.py:107-115 | draining a non-empty buffer with the clearing `__next__` ends in AttributeError instead of StopIteration; an empty buffer yields nothing |
| `LayoutIndex.GetRow` | src/worQt/layouts/_layout_index.py:49-56 | `row` succeeds iff an int row is stored; an unset row raises MissingVariable |
| `LayoutIndex.GetCol` | src/worQt/layouts/_layout_index.py:40-47 | `col` succeeds iff an int col is stored; an unset col raises MissingVariable |
| `LayoutIndex.SetRow` | src/worQt/layouts/_layout_index.py:67-74 | the row setter succeeds iff the row is unset and the value is an int (WriteOnceError, TypeError otherwise), then reads back the value and leaves the col untouched |
| `LayoutIndex.SetCol` | src/worQt/layouts/_layout_index.py:58-65 | the col setter succeeds iff the col is unset and the value is an int (WriteOnceError, TypeError otherwise), then reads back the value and leaves the row untouched |
| `LayoutIndex.Value` | src/worQt/layouts/_layout_index.py:40-56 | an index has a value exactly when both getters succeed, and the value agrees with them |
| `LayoutIndex.NewRowCol` | src/worQt/layouts/_layout_index.py:117-121 | `LayoutIndex(a, b)` has row `a` and col `b` |
| `LayoutIndex.NewCopy` | src/worQt/layouts/_layout_index.py:123-127 | the copy constructor succeeds iff the original is fully set, and the copy has the same value |
| `LayoutIndex.NewFromSeq` | src/worQt/layouts/_layout_index.py:129-140 | a tuple or list constructor raises ValueError unless it has two items and TypeError unless both are ints; otherwise row and col are the two items in order |
| `LayoutIndex.NewFromInt` | src/worQt/layouts/_layout_index.py:142-146 | a single int sets both row and col |
| `LayoutIndex.NewDefault` | src/worQt/layouts/_layout_index.py:148-152 | the no-argument form is (0, 0) without keywords; an int `row`/`col` keyword sets that field; a non-int keyword leaves its getter failing |
| `LayoutIndex.Equals` | src/worQt/layouts/_layout_index.py:80-84 | two set indices are equal exactly when their values are equal |
| `LayoutIndex.HashKey` | src/worQt/layouts/_layout_index.py:76-78 | the hash is taken of the (col, row) pair and exists iff the index is set |
| `LayoutIndex.HashAgreesWithEquality` | src/worQt/layouts/_layout_index.py:76-84 | equal indices have equal hash keys and, since the key is the whole value, only equal indices do |
| `LayoutIndex.Bool` | src/worQt/layouts/_layout_index.py:103-105 | a set index is falsy iff row and col are both 0; a non-zero row makes it truthy even when col is unset |
| `LayoutIndex.Items` | src/worQt/layouts/_layout_index.py:98-101 | `__iter__` buffers the row, then the col |
| `LayoutIndex.IterRoundTrip` | src/worQt/layouts/_layout_index.py:98-121 | rebuilding an index from its two buffered items gives back the same value |
| `LayoutIndex.Unpack` | src/worQt/layouts/_layout_index.py:98-115 | unpacking a set index with the clearing `__next__` raises AttributeError; an unset one fails as well |
| `LayoutIndex.UnpackIntended` | src/worQt/layouts/_layout_index.py:98-101 | draining the buffer with a checking `__next__` yields [row, col] |
| `LayoutIndex.ConstructedIsFrozen` | src/worQt/layouts/_layout_index.py:58-74 | an index built from two ints rejects every later row or col assignment with WriteOnceError |
| `LayoutSpan.SpanOfPair` | src/worQt/layouts/_layout_span.py:27-37 | `LayoutSpan(a, b)` has `nRows == rowSpan == a` and `nCols == colSpan == b` |
| `LayoutSpan.Len` | src/worQt/layouts/_layout_span.py:39-41 | `len(span)` is `nRows * nCols` when that product lies between 0 and `sys.maxsize` (64-bit); Python's `len` raises ValueError for a negative product and OverflowError for a larger one |
| `LayoutSpan.LenBySigns` | src/worQt/layouts/_layout_span.py:39-41 | `len(span)` raises ValueError iff one extent is negative and the other positive, and otherwise fails only with OverflowError; it is 0 when an extent is 0, and a unit extent leaves the other extent to `len` |
| `LayoutSpan.LenOverflows` | src/worQt/layouts/_layout_span.py:39-41 | `len(LayoutSpan(2**32, 2**32))` raises OverflowError |
| `LayoutSpan.LenAtMostAbsSquared` | src/worQt/layouts/_layout_span.py:39-45 | whenever `len(span)` succeeds it is at most the square of `abs(span)` |
| `LayoutSpan.Abs` | src/worQt/layouts/_layout_span.py:43-45 | `abs(span)` is the non-negative number whose square is the larger of the two squared extents |
| `LayoutRect.Assign` | src/worQt/layouts/_layout_rect.py:165-180 | on a constructed rect, assigning an edge raises WriteOnceError and assigning a derived field raises ReadOnlyError |
| `LayoutRect.SpanIsTransposed` | src/worQt/layouts/_layout_rect.py:160-163 | `span` is built as `LayoutSpan(colSpan, rowSpan)`, so its `nRows` is the rect's column extent and its `nCols` the row extent |
| `LayoutRect.Len` | src/worQt/layouts/_layout_rect.py:200-202 | `len(rect)` is `colSpan * rowSpan` when that product lies between 0 and `sys.maxsize`, and raises ValueError below that range and OverflowError above it |
| `LayoutRect.AbsOf` | src/worQt/layouts/_layout_rect.py:204-206 | `abs(rect)` is the non-negative root of the larger squared extent |
| `LayoutRect.Bool` | src/worQt/layouts/_layout_rect.py:208-214 | a rect whose top-left corner is truthy is truthy without taking the length; otherwise it is falsy iff its length is 1, and raises the error of `len` iff its length is negative or above `sys.maxsize` |
| `LayoutRect.MixedExtentsFail` | src/worQt/layouts/_layout_rect.py:200-214 | `LayoutRect(0, 0, -2, 0)` has colSpan -1 and rowSpan 1, so both `len` and `bool` raise ValueError |
| `LayoutRect.UnitLength` | src/worQt/layouts/_layout_rect.py:200-214 | `len(rect)` is 1 iff both extents are 1 or both are -1 |
| `LayoutRect.CellsMembership` | src/worQt/layouts/_layout_rect.py:182-191 | iteration yields `colSpan * rowSpan` cells for positive extents (none otherwise), and then `len(rect)` is that count whenever `len` accepts it; a cell is yielded iff its row lies in left..right and its col in top..bottom, because each is built as `LayoutIndex(left + i, top + j)` |
| `LayoutRect.CellsStartInFirstColumn` | src/worQt/layouts/_layout_rect.py:185-189 | iteration is column-major: the first cell is (left, top) and the next one advances `j` within the first column offset |
| `LayoutRect.CellsAt` | src/worQt/layouts/_layout_rect.py:182-191 | iteration is column-major in full: for every `i < colSpan` and `j < rowSpan`, the cell at position `i * rowSpan + j` is `LayoutIndex(left + i, top + j)` |
| `LayoutRect.Iterate` | src/worQt/layouts/_layout_rect.py:182-198 | `list(rect)` with the checking `__next__` runs to StopIteration and yields exactly the buffered cells |
| `LayoutRect.ContainsOverloadsAgree` | src/worQt/layouts/_layout_rect.py:216-232 | `(col, row) in rect` agrees with `LayoutIndex(row, col) in rect` |
| `LayoutRect.ContainsRectPreorder` | src/worQt/layouts/_layout_rect.py:234-241 | rect containment is reflexive and transitive |
| `LayoutRect.SquareCellsContained` | src/worQt/layouts/_layout_rect.py:182-223 | for a square rect anchored on the diagonal, every iterated cell is `in` the rect |
| `LayoutRect.WideCellNotContained` | src/worQt/layouts/_layout_rect.py:182-223 | for the 2x1 rect (0, 0, 1, 0), the iterated cell (1, 0) is not `in` the rect: the transposition is observable |
| `LayoutRect.FromRects` | src/worQt/layouts/_layout_rect.py:245-263 | the two-rect constructor contains both rects |
| `LayoutRect.FromRectsIsLeast` | src/worQt/layouts/_layout_rect.py:245-263 | a rect contains the two-rect bounding box iff it contains both rects, so the box is the least such rect |
| `LayoutRect.FromRectIndex` | src/worQt/layouts/_layout_rect.py:265-280 | the rect-and-index constructor contains the rect and the index |
| `LayoutRect.FromRectIndexIsLeast` | src/worQt/layouts/_layout_rect.py:265-280 | a rect contains that bounding box iff it contains both the rect and the index |
| `LayoutRect.FromRectInts` | src/worQt/layouts/_layout_rect.py:282-287 | the rect-and-two-ints form contains the rect and covers the ints, the first in top..bottom and the second in left..right |
| `LayoutRect.FromCorners` | src/worQt/layouts/_layout_rect.py:297-303 | the corner form has extents measured from the corners' cols and rows, and contains its corners iff they are in order |
| `LayoutRect.FromIndexExtent` | src/worQt/layouts/_layout_rect.py:305-311 | `(index, R, B)` has `colSpan == R` and `rowSpan == B` and contains the index when both are positive |
| `LayoutRect.FromIntsIndex` | src/worQt/layouts/_layout_rect.py:313-319 | `(L, T, index)` has extents from (L, T) to the index and contains (L, T) iff it is not after the index |
| `LayoutRect.FromIndexRect` | src/worQt/layouts/_layout_rect.py:323-329 | `(index, rect)` keeps the rect's extents and anchors at the index's (col, row) |
| `LayoutRect.FromIntsRect` | src/worQt/layouts/_layout_rect.py:331-337 | `(L, T, rect)` keeps the rect's extents and contains the rect only when it is the rect |
| `LayoutRect.FromIndexSpan` | src/worQt/layouts/_layout_rect.py:339-345 | `(index, span)` takes its extents from the span and anchors at the index |
| `LayoutRect.FromIntsSpan` | src/worQt/layouts/_layout_rect.py:347-353 | `(L, T, span)` takes its extents from the span and contains (L, T) when they are positive |
| `LayoutRect.FromSpan` | src/worQt/layouts/_layout_rect.py:355-359 | a span alone anchors at (0, 0) with `colSpan == nCols` and `rowSpan == nRows` |
| `LayoutRect.FromPair` | src/worQt/layouts/_layout_rect.py:363-367 | `(a, b)` is a 1x1 rect containing (col a, row b) |
| `LayoutRect.FromIndex` | src/worQt/layouts/_layout_rect.py:369-373 | an index alone is a 1x1 rect containing it |
| `LayoutRect.Copy` | src/worQt/layouts/_layout_rect.py:375-379 | a copy and its original contain each other |
| `LayoutRect.Default` | src/worQt/layouts/_layout_rect.py:381-385 | the no-argument rect has length 1, is falsy and contains (0, 0) |
| `LayoutRect.SingleCellIteration` | src/worQt/layouts/_layout_rect.py:363-373 | a 1x1 rect iterates one cell, and the index form yields that index transposed |
| `LayoutRect.Bounds` | src/worQt/layouts/_layout_rect.py:387-394 | the min/max box of a non-empty set contains every index, and each of its four edges is attained by some index |
| `LayoutRect.FromIndices` | src/worQt/layouts/_layout_rect.py:387-394 | `fromIndices` fails with ValueError exactly on an empty list; otherwise it is the `Bounds` box of the indices: every input index is `in` it, and each of its four edges is the col or row of some input index |
| `LayoutRect.FromIndicesIsLeast` | src/worQt/layouts/_layout_rect.py:387-394 | a rect contains the `fromIndices` box iff it contains every input index, so the box is the least rect holding them |
| `LayoutRect.BoundsIsLeast` | src/worQt/layouts/_layout_rect.py:387-394 | a rect contains the bounding box iff it contains every index, so the box is the least one |
| `LegacyLayoutRect.New` | src/worQt/widgets/core/_layout_rect.py:54-61 | a fresh rect has no value: its getters raise MissingVariable |
| `LegacyLayoutRect.GetEdge` | src/worQt/widgets/core/_layout_rect.py:54-115 | an edge getter succeeds iff the edge is stored and raises MissingVariable while it is unset |
| `LegacyLayoutRect.Assign` | src/worQt/widgets/core/_layout_rect.py:63-176 | an assignment succeeds iff the field is an edge, it is unset and the value is an int, and then only that edge changes; ReadOnlyError, WriteOnceError or TypeError otherwise |
| `LegacyLayoutRect.FillEdges` | src/worQt/widgets/core/_layout_rect.py:63-124 | setting left, top, right and bottom once each gives that rectangle, after which every edge is frozen |
| `LegacyLayoutRect.Value` | src/worQt/widgets/core/_layout_rect.py:54-115 | the rect has a value iff all four edges are stored, and the value is those edges |
| `LegacyLayoutRect.ColSpan` | src/worQt/widgets/core/_layout_rect.py:126-129 | `colSpan` needs right and left and is `right - left + 1` |
| `LegacyLayoutRect.RowSpan` | src/worQt/widgets/core/_layout_rect.py:131-134 | `rowSpan` needs bottom and top and is `bottom - top + 1` |
| `LegacyLayoutRect.Corner` | src/worQt/widgets/core/_layout_rect.py:136-154 | a corner exists iff its two edges are stored and is `LayoutIndex(x-edge, y-edge)` |
| `LegacyLayoutRect.CornersAgree` | src/worQt/widgets/core/_layout_rect.py:136-154 | on a fully set rect the four corners are the layouts rectangle's corners |
| `LegacyLayoutRect.IterBuffer` | src/worQt/widgets/core/_layout_rect.py:178-187 | the buffer of a set rect holds the same column-major cells as the layouts rectangle, so `LayoutRect.CellsAt` gives each position; it is empty when `colSpan` is not positive and fails when `colSpan` fails |
| `LegacyLayoutRect.Iterate` | src/worQt/widgets/core/_layout_rect.py:178-199 | iterating fails with the buffer's error, yields nothing for an empty buffer, and raises AttributeError for a non-empty one |
| `LegacyLayoutRect.IterationFails` | src/worQt/widgets/core/_layout_rect.py:189-199 | iterating a set rect with at least one cell raises AttributeError, including the 1x1 rect at the origin, where the layouts class yields its cells |
| `LegacyLayoutRect.ContainsIndex` | src/worQt/widgets/core/_layout_rect.py:201-208 | on a set rect this is the inclusive edge test; it fails while top is unset and answers False for a row above top before reading the other edges |
| `LegacyLayoutRect.ContainsColRow` | src/worQt/widgets/core/_layout_rect.py:210-217 | the `(col, row)` test is the inclusive edge test on a set rect, with the same short-circuit on top |
| `LegacyLayoutRect.ContainsRect` | src/worQt/widgets/core/_layout_rect.py:219-226 | rect-in-rect on two set rects is the layouts containment; an unset top of the other rect raises MissingVariable |
| `LegacyLayoutRect.Compare` | src/worQt/widgets/core/_layout_rect.py:219-226 | one edge comparison succeeds iff both edges are stored and compares them strictly in the chosen direction |
| `IntSets.LeastExists` | src/worQt/layouts/_w_layout.py:52-68 | a non-empty finite set of ints has a least element, which is what `min` returns |
| `IntSets.GreatestExists` | src/worQt/layouts/_w_layout.py:128-136 | a non-empty finite set of ints has a greatest element, which is what `max` returns |
| `IntSets.MinOf` | src/worQt/layouts/_w_layout.py:52-68 | `min` of a non-empty set is a member no larger than any other |
| `IntSets.MaxOf` | src/worQt/layouts/_w_layout.py:128-136 | `max` of a non-empty set is a member no smaller than any other |
| `WLayout.NonEmptyAxes` | src/worQt/layouts/_w_layout.py:52-68 | a non-empty grid has rows and cols to take minima over |
| `WLayout.MinimaZeroIffAnchored` | src/worQt/layouts/_w_layout.py:55-58 | the minima are both 0 iff the grid is anchored: the `minRow ** 2 + minCol ** 2` test is an anchor test |
| `WLayout.TranslateAnchors` | src/worQt/layouts/_w_layout.py:63-68 | subtracting the minima leaves a grid anchored at (0, 0) |
| `WLayout.ShiftSetSize` | src/worQt/layouts/_w_layout.py:63-68 | shifting every key by the same offsets keeps the number of keys |
| `WLayout.TranslateKeeps` | src/worQt/layouts/_w_layout.py:63-68 | translation keeps the number of keys and the set of widgets |
| `WLayout.AnchoredIsKept` | src/worQt/layouts/_w_layout.py:52-68 | an anchored or empty grid is returned unchanged |
| `WLayout.UnanchoredIsTranslated` | src/worQt/layouts/_w_layout.py:52-68 | an unanchored grid is translated once and the result is anchored, so the recursion guard is never reached |
| `WLayout.Normalise` | src/worQt/layouts/_w_layout.py:52-68 | `_getWidgetDict` returns an anchored grid with as many keys and the same widgets; it is idempotent and the identity on anchored grids |
| `WLayout.NormaliseTransposes` | src/worQt/layouts/_w_layout.py:63-68 | the translated keys are built as `LayoutIndex(col, row)`: {(1,0):7, (2,0):8} normalises to {(0,0):7, (0,1):8} |
| `WLayout.FreeMembership` | src/worQt/layouts/_w_layout.py:72-82 | one pass of the d x d scan lists exactly the cells of that square absent from the grid |
| `WLayout.DiagonalSize` | src/worQt/layouts/_w_layout.py:72-82 | the d x d square contains d distinct diagonal cells |
| `WLayout.FullSquareBound` | src/worQt/layouts/_w_layout.py:72-82 | a fully occupied d x d square needs at least d keys, which bounds the search |
| `WLayout.EdgeRadius` | src/worQt/layouts/_w_layout.py:72-82 | the square grows from d to the first size that has a free cell, so the search terminates |
| `WLayout.EmptyEdgesFrom` | src/worQt/layouts/_w_layout.py:72-82 | the recursive search returns the free cells of the first square that has any |
| `WLayout.EmptyEdges` | src/worQt/layouts/_w_layout.py:70-82 | `_getEmptyEdges` is non-empty and lists only cells absent from the normalised grid |
| `WLayout.EmptyEdgesSmallestSquare` | src/worQt/layouts/_w_layout.py:70-82 | its cells are exactly the free cells of the smallest d x d square (1 <= d <= keys + 1) that has one |
| `WLayout.NextIndex` | src/worQt/layouts/_w_layout.py:97-99 | `_nextIndex` is an unoccupied cell with non-negative coordinates |
| `WLayout.ThreeWidgets` | src/worQt/layouts/_w_layout.py:97-99 | adding widgets without an index fills (0,0), then (1,0), then (1,1) |
| `WLayout.AddItem` | src/worQt/layouts/_w_layout.py:105-109 | `_addItem(item, index)` maps the index to the item and keeps every other key of the normalised grid |
| `WLayout.AddKeepsAnchored` | src/worQt/layouts/_w_layout.py:105-109 | adding a cell with non-negative coordinates to an anchored grid keeps it anchored |
| `WLayout.AddCellsAnchored` | src/worQt/layouts/_w_layout.py:111-116 | on a non-empty grid with a key in row 0 and a key in column 0, adding cells with non-negative coordinates adds exactly those cells, maps each to the item, and keeps every other key and its item |
| `WLayout.AddRectAnchored` | src/worQt/layouts/_w_layout.py:111-116 | on such a grid the rect overload with a non-negative top-left adds exactly the rect's iterated cells, maps each to the item and keeps every other entry |
| `WLayout.AddRectCovers` | src/worQt/layouts/_w_layout.py:111-116 | on such a grid a cell is a key after adding a rect iff it was one before or its row lies in left..right and its col in top..bottom; a newly added key maps to the item |
| `WLayout.AddWidget` | src/worQt/layouts/_w_layout.py:138-142 | `addWidget` without a rect puts the widget at `_nextIndex` and grows the grid by one key; with a rect whose top-left is non-negative, on a non-empty grid with keys in row 0 and column 0, it adds exactly the rect's iterated cells with the widget and keeps every other entry |
| `WLayout.Candidates` | src/worQt/layouts/_w_layout.py:118-126 | there is one candidate per empty-edge cell: the rect's extents anchored at that cell |
| `WLayout.FirstMinimal` | src/worQt/layouts/_w_layout.py:118-126 | the stable sort's first element is a candidate with the least key, and every earlier candidate has a larger key |
| `WLayout.FitRect` | src/worQt/layouts/_w_layout.py:118-126 | `_fitRect` keeps the rect's extents, returns a candidate minimising `max(right, bottom)`, and on ties returns the earliest one |
| `WLayout.NCols` | src/worQt/layouts/_w_layout.py:128-131 | `nCols` fails with ValueError on an empty grid; otherwise it is the greatest col of the normalised grid |
| `WLayout.NRows` | src/worQt/layouts/_w_layout.py:133-136 | `nRows` fails with ValueError on an empty grid; otherwise it is the greatest row of the normalised grid |
| `WLayout.Contains` | src/worQt/layouts/_w_layout.py:144-190 | `in` tests an index, an int (as a square index), or a rect's two corners against the normalised grid; a pair resolves iff it is two ints, and is then contained iff `LayoutIndex(a, b)` is a key, while a malformed pair raises the constructor's error; anything else is not contained |
| `WLayout.ContainsOverloadsAgree` | src/worQt/layouts/_w_layout.py:144-190 | a pair of ints `(a, b)`, the index `(a, b)` and, for `a == b`, the int `a` all give the same answer: whether that index is a key of the normalised grid |
| `WLayout.RectWidgets` | src/worQt/layouts/_w_layout.py:197-210 | every widget of the normalised grid gets a rectangle, and that rectangle contains every cell holding that widget |
| `WLayout.BoundsOfWidgets` | src/worQt/layouts/_w_layout.py:197-210 | each widget's rectangle is the bounding box of that widget's cells |
| `WLayout.WidgetBounds` | src/worQt/layouts/_w_layout.py:200-210 | the `fromIndices` box of one widget's cells contains each of them, and each of its four edges is reached by one of them |
| `WLayout.RectWidgetsAreLeast` | src/worQt/layouts/_w_layout.py:197-210 | a rect contains a widget's rectangle iff it contains all of that widget's cells |
| `WLayout.Build` | src/worQt/layouts/_w_layout.py:212-228 | `build` places every widget once, at `(top, left)` with its row and col spans, covering each cell the widget occupies |
| `WLayout.BuildIsTight` | src/worQt/layouts/_w_layout.py:212-228 | each placement's first and last row and first and last column are reached by cells of its widget, so with the covering of `Build` a placement is exactly the widget's bounding box |
| `Plane.New` | src/worQt/tools/geometry/_plane.py:57-104 | two numbers give (a, b); a complex gives (re, im); a plane is copied; `Plane(p, q)` is the offset from p to q; the empty form is the zero plane; a lone number or another object fails to dispatch |
| `Plane.PairForms` | src/worQt/tools/geometry/_plane.py:95-100 | a tuple or list of two numbers, even nested once more, gives the same plane as the two numbers |
| `Plane.Resolve` | src/worQt/tools/geometry/_plane.py:173-194 | `_resolveOther` broadcasts a scalar to both components, accepts a sequence of at least two items, and refuses other objects |
| `Plane.Neg` | src/worQt/tools/geometry/_plane.py:196-199 | `p + (-p)` is the zero plane |
| `Plane.Add` | src/worQt/tools/geometry/_plane.py:201-220 | addition succeeds iff the operand resolves (otherwise NotImplemented), and adds the resolved components |
| `Plane.Sub` | src/worQt/tools/geometry/_plane.py:222-228 | `(p - q) + q == p` whenever `q` resolves |
| `Plane.RSub` | src/worQt/tools/geometry/_plane.py:237-243 | `other - p` added to `p` gives `other`, and equals the forward subtraction from the resolved operand |
| `Plane.SubIsAddNeg` | src/worQt/tools/geometry/_plane.py:196-243 | `p - q == p + (-q)`, negation is an involution, and `q.__rsub__(p)` equals `q - p` |
| `Plane.Mul` | src/worQt/tools/geometry/_plane.py:245-265 | only a scalar multiplies (NotImplemented otherwise), and the product is zero iff the scalar or the plane is |
| `Plane.Div` | src/worQt/tools/geometry/_plane.py:267-274 | a zero scalar raises ZeroDivisionError, a non-scalar is NotImplemented, and otherwise multiplying the quotient back gives the plane |
| `Plane.MulDivInverse` | src/worQt/tools/geometry/_plane.py:245-274 | multiplying by a non-zero scalar and dividing by it again is the identity |
| `Plane.RDiv` | src/worQt/tools/geometry/_plane.py:286-293 | `s / p` raises ZeroDivisionError on a zero scalar or component, and otherwise each component times the divisor gives `s` |
| `Plane.Truthy` | src/worQt/tools/geometry/_plane.py:114-116 | a plane is falsy iff both components are zero |
| `Plane.Items` | src/worQt/tools/geometry/_plane.py:110-112 | iteration buffers `len(plane) == 2` items |
| `Plane.UnpackRoundTrip` | src/worQt/tools/geometry/_plane.py:134-144 | iteration yields r0 then r1, and rebuilding from those items gives the plane back |
| `Plane.ParseIndex` | src/worQt/tools/geometry/_plane.py:146-152 | an index of at least 2 raises IndexError; other indices select r0 when even and r1 when odd, negative ones wrapping by 2 |
| `Plane.ParseKey` | src/worQt/tools/geometry/_plane.py:154-160 | a key is accepted iff its lower case is x, r0, y or r1 (KeyError otherwise), and selects r0 exactly for x/r0 |
| `Plane.GetItem` | src/worQt/tools/geometry/_plane.py:162-171 | an int item reads the iterated component at that index (IndexError from 2 up); a string item reads r0 for `x`/`r0` and r1 for `y`/`r1` in any letter case and raises KeyError otherwise; any other item raises TypeError |
| `Plane.KeysIgnoreCase` | src/worQt/tools/geometry/_plane.py:154-171 | string lookup ignores case: `p["X"]` is r0 and `p["R1"]` is r1 |
| `Vector.DotFacts` | src/worQt/tools/geometry/_vector.py:23-31 | the dot product is symmetric, `v * v >= 0`, and `v * v == 0` iff `v` is zero |
| `Vector.CrossFacts` | src/worQt/tools/geometry/_vector.py:33-40 | the cross product is antisymmetric and `v @ v == 0` |
| `Vector.DotMul` | src/worQt/tools/geometry/_vector.py:23-31 | `v * s` is the scaled vector for a scalar, `v * w` is the dot product for a vector-like `w`, and other operands are NotImplemented |
| `Vector.CrossMul` | src/worQt/tools/geometry/_vector.py:33-40 | `v @ s` scales like `v * s`, `v @ w` is the cross product, and other operands are NotImplemented |
| `Vector.Hat` | src/worQt/tools/geometry/_vector.py:42-44 | `~v` is perpendicular to `v` (`v * ~v == 0`) with `v @ ~v == v * v` |
| `Vector.HatTwice` | src/worQt/tools/geometry/_vector.py:42-44 | `~~v == -v`, and the hat preserves dot products |
| `Vector.ProjectIsParallel` | src/worQt/tools/geometry/_vector.py:55 | the projection `((v*u)/(u*u)) * u` is parallel to `u` |
| `Vector.ResidualOfScaled` | src/worQt/tools/geometry/_vector.py:55 | removing `k * u` from `v` lowers `v * u` by `k * (u * u)` |
| `Vector.ResidualIsPerpendicular` | src/worQt/tools/geometry/_vector.py:55 | what remains of `v` after the projection is perpendicular to `u` |
| `Vector.ProjectIsOrthogonal` | src/worQt/tools/geometry/_vector.py:55 | the projection is the orthogonal one: parallel to `u` with a perpendicular residual |
| `Vector.RShift` | src/worQt/tools/geometry/_vector.py:46-55 | `v >> u` is NotImplemented for a scalar or unresolvable operand, raises ZeroDivisionError for a zero `u`, and otherwise is the orthogonal projection of `v` onto `u` |
| `Vector.LShift` | src/worQt/tools/geometry/_vector.py:57-66 | `v << u` is NotImplemented for a scalar or unresolvable operand, raises ZeroDivisionError for a zero `u` or a zero `v`, and otherwise is the orthogonal projection of `u` onto `v` |
| `Vector.RRShift` | src/worQt/tools/geometry/_vector.py:68-70 | `u >> v` from the reflected side projects `u` onto `v`, under the same conditions as `<<` |
| `Vector.RLShift` | src/worQt/tools/geometry/_vector.py:72-74 | `u << v` from the reflected side projects `v` onto `u`, under the same conditions as `>>` |
| `Vector.ShiftsMirror` | src/worQt/tools/geometry/_vector.py:46-66 | `v << u` equals `u >> v` for a non-zero `u`; for a zero `u` and a non-zero `v`, `u >> v` is zero but `v << u` raises |
| `Size.Width` | src/worQt/tools/geometry/_size.py:29-32 | the width is the absolute value of r0 |
| `Size.Height` | src/worQt/tools/geometry/_size.py:34-37 | the height is the absolute value of r1 |
| `Size.AspectRatio` | src/worQt/tools/geometry/_size.py:39-44 | a zero height raises ZeroDivisionError; otherwise the ratio is non-negative and times the height gives the width |
| `Size.Fit` | src/worQt/tools/geometry/_size.py:46-63 | a zero dimension raises ZeroDivisionError; otherwise the height-scaled size is returned when it fits inside `other` (with `<=`), else the width-scaled size when that fits, else RuntimeError; a result is a non-negative uniform scaling that fits |
| `Size.ScaledDimensions` | src/worQt/tools/geometry/_size.py:55-61 | scaling by a non-negative factor scales both dimensions by it |
| `Size.FitSucceeds` | src/worQt/tools/geometry/_size.py:55-63 | with non-zero dimensions `fit` always succeeds, so its RuntimeError branch is unreachable |
| `Size.FitExample` | src/worQt/tools/geometry/_size.py:55-61 | fitting 160x100 into 120x90 gives 120x75 through the width scale |
| `Region.GettersOrdered` | src/worQt/tools/geometry/_region.py:67-93 | `left <= right` and `top <= bottom` whatever the stored order, and the getters return the stored edges, in order |
| `Region.HCenter` | src/worQt/tools/geometry/_region.py:97-101 | the horizontal center lies between left and right, equally far from both |
| `Region.VCenter` | src/worQt/tools/geometry/_region.py:103-107 | the vertical center lies between top and bottom, equally far from both |
| `Region.Width` | src/worQt/tools/geometry/_region.py:136-139 | the width is non-negative and leads from left to right |
| `Region.Height` | src/worQt/tools/geometry/_region.py:141-144 | the height is non-negative and leads from top to bottom |
| `Region.Area` | src/worQt/tools/geometry/_region.py:146-149 | the area is non-negative and zero iff the width or the height is |
| `Region.SizeOf` | src/worQt/tools/geometry/_region.py:160-163 | the size has the region's width and height |
| `Region.Aspect` | src/worQt/tools/geometry/_region.py:151-158 | a zero height raises ZeroDivisionError; otherwise the aspect times the height is the width, it is 0 iff the width is, and it agrees with the size's aspect ratio |
| `Region.TruthyIffArea` | src/worQt/tools/geometry/_region.py:146-167 | a region is falsy exactly when its area is zero |
| `Region.FromPoints` | src/worQt/tools/geometry/_region.py:180-193 | two points give the ordered box whose edges are the points' coordinates |
| `Region.FromPointSize` | src/worQt/tools/geometry/_region.py:203-214 | a point and a size give the region with that top-left and those dimensions |
| `Region.New` | src/worQt/tools/geometry/_region.py:171-279 | four numbers are the edges; two points or a point and a size in either order build as above; a size alone anchors at the origin; a point alone is an empty region there; a region is copied; no argument is the zero region; other shapes fail to dispatch |
| `Region.PairIsPoint` | src/worQt/tools/geometry/_region.py:224-255 | a pair of numbers builds the same region as four numbers repeating it and as the point it denotes |
| `Region.Resolve` | src/worQt/tools/geometry/_region.py:283-291 | `_resolveOther` keeps a region, turns a point into a degenerate region at it, and refuses numbers and other objects |
| `Region.Contains` | src/worQt/tools/geometry/_region.py:293-307 | `in` is False for an unresolvable operand and otherwise the inclusive four-edge test; for a point it is the inclusive coordinate test |
| `Region.WithinPreorder` | src/worQt/tools/geometry/_region.py:293-307 | containment is reflexive and transitive |
| `Region.Union` | src/worQt/tools/geometry/_region.py:309-319 | `a + b` is NotImplemented iff `b` does not resolve, and otherwise contains both regions |
| `Region.UnionIsLeast` | src/worQt/tools/geometry/_region.py:309-319 | a region contains `a + b` iff it contains both, so the union is the least bounding region |
| `Region.Clip` | src/worQt/tools/geometry/_region.py:321-332 | `a - b` keeps `a`'s top-left, lies inside `a`, and each far edge stops at `b`'s near edge or collapses onto `a`'s near edge |
| `Region.ClipIsGreatest` | src/worQt/tools/geometry/_region.py:321-332 | among regions with `a`'s top-left, `a - b` contains exactly those inside `a` whose right edge is at most `b.left` or equals `a.left` and whose bottom edge is at most `b.top` or equals `a.top`: it is the greatest such region |
| `Region.Intersect` | src/worQt/tools/geometry/_region.py:334-345 | `a * b` is never inverted and, when the regions overlap, lies inside both |
| `Region.IntersectIsGreatest` | src/worQt/tools/geometry/_region.py:334-345 | for overlapping regions a region lies inside `a * b` iff it lies inside both, so it is the greatest common part |
| `Region.DisjointIntersectionIsEmpty` | src/worQt/tools/geometry/_region.py:334-345 | the product of regions that do not overlap is an empty (falsy) region |
| `MoveMap.New` | src/worQt/tools/geometry/_move_map.py:84-112 | two numbers are the offsets; one number sets both; a complex gives (re, im); a point gives (x, y); other shapes fail to dispatch |
| `MoveMap.Call` | src/worQt/tools/geometry/_move_map.py:51-81 | a pair, a single number, a complex and a point are translated by (dx, dy); a region keeps its size and has its top-left translated |
| `MoveMap.MoveInverse` | src/worQt/tools/geometry/_move_map.py:51-70 | the map with negated offsets undoes the map on pairs and points |
| `MoveMap.MoveInverseRegion` | src/worQt/tools/geometry/_move_map.py:78-81 | moving a region and moving it back gives the same rectangle |
| `MoveMap.MoveCompose` | src/worQt/tools/geometry/_move_map.py:51-57 | applying two moves in turn is one move by the summed offsets |
| `ScaleMap.Checked` | src/worQt/tools/geometry/_scale_map.py:92-99 | a scale map exists iff both factors are non-negative; ValueError otherwise |
| `ScaleMap.New` | src/worQt/tools/geometry/_scale_map.py:88-135 | every constructor form checks its two factors (one number used twice, a complex as (re, im), a point as (x, y)); other shapes fail to dispatch; every built map is valid |
| `ScaleMap.Call` | src/worQt/tools/geometry/_scale_map.py:51-85 | a pair and a point scale componentwise; a size's dimensions are scaled; a region keeps its top-left and has its width and height scaled |
| `ScaleMap.ScaledSize` | src/worQt/tools/geometry/_scale_map.py:66-71 | under valid factors the scaled size has the scaled dimensions, which are non-negative |
| `ScaleMap.ScaledRegion` | src/worQt/tools/geometry/_scale_map.py:73-85 | under valid factors the scaled region keeps its top-left and scales its width and height |
| `ScaleMap.ScaleInverse` | src/worQt/tools/geometry/_scale_map.py:51-57 | for positive factors the map with reciprocal factors is valid and undoes the map on pairs |
| `RegionMap.OfSize` | src/worQt/tools/geometry/_region_map.py:108-128 | a size given as source or target becomes the origin-anchored region `Region(size)` |
| `RegionMap.NewMap` | src/worQt/tools/geometry/_region_map.py:102-133 | two regions, or a region and a size in either order, set source and target; a region or size alone sets the target over the unit-square source; no argument uses the unit square for both |
| `RegionMap.AxisEnds` | src/worQt/tools/geometry/_region_map.py:63-71 | on each axis the source's low end maps to the target's low end and the high end to the high end |
| `RegionMap.AxisRoundTrip` | src/worQt/tools/geometry/_region_map.py:63-71 | the axis map from source to target followed by the one back is the identity for non-zero extents |
| `RegionMap.MapPoint` | src/worQt/tools/geometry/_region_map.py:63-71 | mapping a point raises ZeroDivisionError exactly when the source has zero width or height |
| `RegionMap.CornersToCorners` | src/worQt/tools/geometry/_region_map.py:63-71 | the source's top-left and bottom-right map exactly to the target's |
| `RegionMap.DefaultIsIdentity` | src/worQt/tools/geometry/_region_map.py:29-53 | `RegionMap()` maps every point to itself |
| `RegionMap.TargetOnlyFromUnitSquare` | src/worQt/tools/geometry/_region_map.py:120-123 | `RegionMap(target)` maps (0, 0) to the target's top-left and (1, 1) to its bottom-right |
| `RegionMap.RoundTrip` | src/worQt/tools/geometry/_region_map.py:63-71 | for non-empty regions A and B, mapping by `RegionMap(A, B)` and then by `RegionMap(B, A)` is the identity on points |
| `RegionMap.Call` | src/worQt/tools/geometry/_region_map.py:56-98 | a point maps as above; a region maps to the box spanned by its mapped corners; two numbers give the tuple, and a complex number the complex, of the mapped point; a zero-area source raises ZeroDivisionError for each of these; anything else fails to dispatch |
| `RegionMap.CallFormsAgree` | src/worQt/tools/geometry/_region_map.py:56-98 | the pair `(x, y)`, the complex `x + yj`, the point `(x, y)` and the tuple holding the pair all map to the same coordinates, each returned in its own kind |
| `RegionMap.SourceToTarget` | src/worQt/tools/geometry/_region_map.py:56-61 | the source region maps onto the target region |
| `RollVersion.SelectLevel` | roll_version.py:46-51 | the level is the first argv entry whose lower case is a level key, kept as typed, and 'dev' when there is none |
| `RollVersion.Bump` | roll_version.py:52-58 | the bump fails with KeyError unless the level is an exact key; otherwise that field goes up by one, fields above it stay, and fields below it reset to 0 |
| `RollVersion.NatStringRoundTrip` | roll_version.py:62-69 | the decimal digits of a natural number parse back to it |
| `RollVersion.IntStringRoundTrip` | roll_version.py:62-69 | `str(n)` of any int parses back to `n` |
| `RollVersion.NegativeRoundTrip` | roll_version.py:62-69 | `str(n)` of a negative int parses back to `n` |
| `RollVersion.SplitAtFirst` | roll_version.py:66-69 | splitting on the first separator peels off the text before it |
| `RollVersion.SplitWhole` | roll_version.py:66-69 | text without a separator splits into itself |
| `RollVersion.SplitJoin` | roll_version.py:66-69 | splitting parts joined by a separator they do not contain gives back the parts |
| `RollVersion.TagFields` | roll_version.py:62-69 | the tag splits at '.' into major, minor and patch, which parse back to the version's fields, followed by `dev<D>` for a dev bump only |
| `RollVersion.FirstVersionLine` | roll_version.py:74-82 | the rewrite target is absent iff no line contains 'version', and otherwise is the first line that does |
| `RollVersion.RewriteVersionLine` | roll_version.py:72-85 | the rewrite raises KeyError iff no line mentions 'version'; otherwise the first such line becomes `version = "<tag>"\n` and the number of lines is kept |
| `RollVersion.RewriteKeepsOtherLines` | roll_version.py:74-82 | every line other than the rewritten one is kept at its position |
| `RollVersion.Increment` | roll_version.py:36-87 | the script fails with KeyError when the selected level is not an exact key, before writing anything; otherwise it writes the bumped version and its tag, and then fails with KeyError iff no line mentions 'version'; on success the first such line is replaced by `version = "<tag>"` and every other line is kept |
| `RollVersion.TypedLevelFails` | roll_version.py:46-52 | `roll_version.py Major` selects "Major", and the bump then raises KeyError |
| `RollVersion.IncrementIntended` | roll_version.py:36-87 | with the level lower-cased before indexing, the bumped version and its tag are always written; the script then succeeds iff a line mentions 'version', replacing the first such line and keeping the others |

## Left out

- RotateMap and RotatePointMap are not part of this model: they rest on atan2, cos and sin, which have no exact counterpart over `real`.
- `Plane.__mod__`, `__abs__`, `__pow__`, `__matmul__`, `__xor__`, `__complex__`, `__str__` and `__repr__` are left out. They involve Python float modulo, square roots, string formatting, or are stubs.
- The in-place operators `+=`, `-=`, `*=`, `/=` are left out. They rebind the same results as the binary operators; `__isub__` skips the NotImplemented check.
- The `Region` stubs `__matmul__`, `__truediv__`, `__floordiv__`, `__mod__`, `__pow__` and its `__str__` are left out; they carry no geometry.
- `WLayout._getOuterEdges` is left out. Nothing calls it, and it recurses without end whenever cell (0, 0) is occupied.
- `WLayout._getOuterMargins` is left out: the getter has only a docstring and returns None.
- `WLayout.build`'s `QGridLayout` calls and `BaseWidget.initUi` are Qt calls. `WLayout.Build` keeps only the `(row, col, rowSpan, colSpan)` placement per widget.
- Widgets are plain identities (`nat`); `_getRectWidgets` groups cells by that identity. Its dict keyed by `LayoutRect` becomes a map from widget to rectangle, because the hash and equality of `LayoutRect` come from an unseen base class.
- The runtime overload dispatcher, the `Field`/`AttriBox` descriptors and `BaseObject` come from an unseen library. The dispatcher is modelled as one case per declared overload, and ints and floats as one `real`/`int` argument each.
- Python floats are idealised as `real`: rounding is not modelled, and `assertAlmostEqual` comparisons become exact identities.
- `Text.Lower` lower-cases ASCII letters only, the part of `str.lower` these keys need.
- `roll_version.py`'s JSON decoding and encoding, and its file reads and writes, are left out. The version record, `sys.argv` and the lines of `pyproject.toml` are parameters, and `_loadFile`'s path checks are not modelled.
- Exception messages and the exception classes' formatting are left out; each exception is an error variant.
- `WLayout.FullSquareBound` bounds the search radius by the key count `d <= |keys|` rather than by `d * d <= |keys|`. This is weaker than the exact bound, but it is enough for termination.
- `Size.Fit` compares with `<=` as the code does, not with the "strictly smaller" of its docstring; `Size.FitExample` shows a result that touches `other`.
- `LayoutRect.Assign` and `LegacyLayoutRect.Assign` assume that the unseen `BaseObject.__setattr__` stores `__set_key__` without calling the override again. Read alone, the override's own `self.__set_key__ = key` re-enters it, so every attribute store, including those of the constructors and of `__iter__`, would end in RecursionError.
- `Plane.ParseIndex` wraps a negative index by recursion, one call per step of 2. The model has no recursion limit, so an index below about -2000, which makes CPython raise RecursionError, is wrapped instead.
- `LegacyLayoutRect.Corner`, `LegacyLayoutRect.CornersAgree` and `LegacyLayoutRect.IterBuffer` build their cells with the `LayoutIndex` and `LayoutSpan` of `worQt.widgets.core`. Those classes are not part of this model; the layouts classes of the same names stand in for them.
- `LayoutSpan.Abs` and `LayoutRect.AbsOf` return the exact integer. The source takes `** 0.5` of an int in floating point, so above 2**53 the result is rounded, and for extents above about 1.3e154 the conversion to float raises OverflowError; neither is modelled.
- `LayoutSpan.Len`, `LayoutRect.Len` and `LayoutRect.Bool` use the `sys.maxsize` of a 64-bit build, 2**63 - 1, as the bound above which `len` raises OverflowError.
- `LayoutRect.FromSpan`, `LayoutRect.FromIndexSpan` and `LayoutRect.FromIntsSpan` assume that the unseen dispatcher picks the most specific overload. `LayoutSpan` subclasses `LayoutIndex`, so `(span)`, `(index, span)` and `(L, T, span)` also match the index overloads, which would give different rects.
- `Region`'s fallback edge values are left out: every constructor stores all four edges, so the fallbacks are never read.

## Findings

| source | as written | input that shows it | evidently intended | confidence | as-written member | corrected member |
|---|---|---|---|---|---|---|
| src/worQt/layouts/_layout_index.py:107-115 | `__next__` sets the buffer to None once the last item is popped, so the following call raises AttributeError on None instead of StopIteration | `row, col = LayoutIndex(1, 2)` | unpacking yields row then col and ends with StopIteration | not executed | `LayoutIndex.Unpack` | `LayoutIndex.UnpackIntended` |
| src/worQt/widgets/core/_layout_rect.py:189-199 | the same clearing `__next__`, so `list(rect)` of any rectangle with a cell raises AttributeError | `list(rect)` of a rect with left = top = right = bottom = 0 set through the setters | iteration yields the buffered cells and stops, as the layouts `LayoutRect.__next__` does | not executed | `LegacyLayoutRect.IterationFails` | `LayoutRect.Iterate` |
| roll_version.py:46-52 | the matching argv entry is stored as typed and then used as a dict key, so a capitalised level raises KeyError | `python roll_version.py Major` | the level is matched case-insensitively and the lower-cased key is bumped | not executed | `RollVersion.TypedLevelFails` | `RollVersion.IncrementIntended` |
