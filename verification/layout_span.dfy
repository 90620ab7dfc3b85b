/** `LayoutSpan`: a `LayoutIndex` read as an extent. It inherits the
    (row, col) constructor, so `LayoutSpan(a, b)` has `a` rows and `b`
    columns.
 */
module LayoutSpan {
  import opened Errors

  datatype Span = Span(row: int, col: int)

  /** `nRows` and `rowSpan` are the same getter. */
  function NRows(s: Span): int { s.row }
  function RowSpan(s: Span): int { s.row }

  /** `nCols` and `colSpan` are the same getter. */
  function NCols(s: Span): int { s.col }
  function ColSpan(s: Span): int { s.col }

  /** `LayoutSpan(a, b)`: `a` rows by `b` columns, whichever accessor is used. */
  lemma SpanOfPair(a: int, b: int)
    ensures NRows(Span(a, b)) == RowSpan(Span(a, b)) == a
    ensures NCols(Span(a, b)) == ColSpan(Span(a, b)) == b
  {
  }

  /** `sys.maxsize` on a 64-bit build: the largest result `len` accepts
      from `__len__`. */
  const MaxSize: int := 0x7FFF_FFFF_FFFF_FFFF

  /** `len(span)`: `__len__` returns the cell count `nRows * nCols`, and
      Python's `len` refuses a negative count with `ValueError` and one
      above `sys.maxsize` with `OverflowError`. */
  function Len(s: Span): (r: Result<int>)
    ensures r.Ok? <==> 0 <= NRows(s) * NCols(s) <= MaxSize
    ensures r.Ok? ==> r.value == NRows(s) * NCols(s)
    ensures NRows(s) * NCols(s) < 0 ==> r.FailsWith(ValueFailure)
    ensures NRows(s) * NCols(s) > MaxSize ==> r.FailsWith(Overflow)
  {
    var n := NRows(s) * NCols(s);
    if n < 0 then Err(ValueFailure)
    else if n > MaxSize then Err(Overflow)
    else Ok(n)
  }

  /** `len` raises `ValueError` exactly when one extent is negative and the
      other is positive; otherwise it counts the cells, and a unit extent
      leaves the other one as the count. */
  lemma {:induction false} LenBySigns(s: Span)
    ensures Len(s).FailsWith(ValueFailure) <==> (NRows(s) < 0 && NCols(s) > 0) || (NRows(s) > 0 && NCols(s) < 0)
    ensures Len(s).Err? ==> Len(s).FailsWith(ValueFailure) || Len(s).FailsWith(Overflow)
    ensures NRows(s) == 0 || NCols(s) == 0 ==> Len(s) == Ok(0)
    ensures NRows(s) == 1 ==> Len(s) == Unit(NCols(s))
    ensures NCols(s) == 1 ==> Len(s) == Unit(NRows(s))
  {
    var a, b := NRows(s), NCols(s);
    ProductSign(a, b);
    if a == 1 { assert a * b == b; }
    if b == 1 { assert a * b == a; }
    if a == 0 || b == 0 { assert a * b == 0; }
  }

  /** What `len` makes of a count `n`. */
  function Unit(n: int): Result<int> {
    if n < 0 then Err(ValueFailure) else if n > MaxSize then Err(Overflow) else Ok(n)
  }

  /** A square of 2**32 by 2**32 cells is too long for `len`. */
  lemma LenOverflows()
    ensures Len(Span(0x1_0000_0000, 0x1_0000_0000)).FailsWith(Overflow)
  {
    assert 0x1_0000_0000 * 0x1_0000_0000 == 0x1_0000_0000_0000_0000;
  }

  /** A product is negative exactly when its factors have strictly opposite
      signs. */
  lemma ProductSign(a: int, b: int)
    ensures a * b < 0 <==> (a < 0 && b > 0) || (a > 0 && b < 0)
  {
    if a < 0 && b > 0 { assert a * b <= -b; }
    else if a > 0 && b < 0 { assert a * b <= -a; }
    else if a <= 0 && b <= 0 { assert a * b == (-a) * (-b); ProductOfNaturals(-a, -b); }
    else { ProductOfNaturals(a, b); }
  }

  lemma ProductOfNaturals(a: nat, b: nat)
    ensures a * b >= 0
  {
  }

  /** The count never exceeds the square of `abs(span)`. */
  lemma {:induction false} LenAtMostAbsSquared(s: Span)
    requires Len(s).Ok?
    ensures Len(s).value <= Abs(s) * Abs(s)
  {
    var a: nat := if NRows(s) < 0 then -NRows(s) else NRows(s);
    var b: nat := if NCols(s) < 0 then -NCols(s) else NCols(s);
    ProductAtMostAbsolutes(NRows(s), NCols(s), a, b);
    if a < b {
      ProductAtMostSquare(a, b);
    } else {
      ProductAtMostSquare(b, a);
      assert b * a == a * b;
    }
  }

  lemma ProductAtMostAbsolutes(x: int, y: int, a: nat, b: nat)
    requires a == (if x < 0 then -x else x) && b == (if y < 0 then -y else y)
    ensures x * y <= a * b
  {
    if x < 0 && y < 0 { assert x * y == a * b; }
    else if x < 0 { ProductSign(x, y); ProductOfNaturals(a, b); }
    else if y < 0 { ProductSign(x, y); ProductOfNaturals(a, b); }
    else { assert x * y == a * b; }
  }

  lemma ProductAtMostSquare(a: nat, b: nat)
    requires a <= b
    ensures a * b <= b * b
  {
  }

  /** `__abs__`: the square root of the larger square of the two extents,
      which for integers is the larger absolute extent. */
  function Abs(s: Span): (r: int)
    ensures r >= 0
    ensures r * r == Max(NRows(s) * NRows(s), NCols(s) * NCols(s))
  {
    var a := if NRows(s) < 0 then -NRows(s) else NRows(s);
    var b := if NCols(s) < 0 then -NCols(s) else NCols(s);
    if a < b then SquareMonotone(a, b); b
    else SquareMonotone(b, a); a
  }

  function Max(x: int, y: int): int { if x < y then y else x }

  lemma SquareMonotone(a: nat, b: nat)
    requires a <= b
    ensures a * a <= b * b
  {
  }
}
