/** The older `LayoutRect` of the widgets package. It has no constructor
    overloads: an object starts with all four edges unset and each edge is
    filled once through its setter. Every derived field reads the edges
    through their getters, so it fails with `MissingVariable` while an edge
    it needs is unset; the getters are read in the order the code reads
    them, and short-circuiting tests skip the ones they do not reach.

    The widgets package's own `LayoutIndex` and `LayoutSpan` are not part of
    this model; the layouts versions, which store the same (row, col) pair,
    stand in for them.
 */
module LegacyLayoutRect {
  import opened Errors
  import opened WriteOnce
  import opened LayoutIndex
  import LR = LayoutRect
  import Iteration

  /** The four private edge attributes. */
  datatype Cell = Cell(lefts: Slot, tops: Slot, rights: Slot, bottoms: Slot)

  /** A freshly created rectangle: nothing is set. */
  function New(): (c: Cell)
    ensures Value(c).FailsWith(MissingVariable)
  {
    Cell(Unset, Unset, Unset, Unset)
  }

  function EdgeSlot(c: Cell, f: LR.RectField): Slot
    requires f.IsEdge()
  {
    match f
    case FLeft => c.lefts
    case FTop => c.tops
    case FRight => c.rights
    case FBottom => c.bottoms
  }

  function WithEdge(c: Cell, f: LR.RectField, s: Slot): Cell
    requires f.IsEdge()
  {
    match f
    case FLeft => c.(lefts := s)
    case FTop => c.(tops := s)
    case FRight => c.(rights := s)
    case FBottom => c.(bottoms := s)
  }

  /** The edge getters. */
  function GetEdge(c: Cell, f: LR.RectField): (r: Result<int>)
    requires f.IsEdge()
    ensures r.Ok? <==> EdgeSlot(c, f).Stored?
    ensures EdgeSlot(c, f).Unset? ==> r.FailsWith(MissingVariable)
  {
    Read(EdgeSlot(c, f))
  }

  /** Assigning a field: an edge goes through its write-once setter, any
      derived field is read-only. A successful write changes that edge only. */
  function Assign(c: Cell, f: LR.RectField, v: PyValue): (r: Result<Cell>)
    ensures r.Ok? <==> f.IsEdge() && EdgeSlot(c, f).Unset? && v.PyInt?
    ensures !f.IsEdge() ==> r.FailsWith(ReadOnly)
    ensures f.IsEdge() && !EdgeSlot(c, f).Unset? ==> r.FailsWith(WriteOnce)
    ensures f.IsEdge() && EdgeSlot(c, f).Unset? && !v.PyInt? ==> r.FailsWith(TypeMismatch)
    ensures r.Ok? ==> GetEdge(r.value, f) == Ok(v.i)
    ensures r.Ok? ==> forall g: LR.RectField :: g.IsEdge() && g != f ==> EdgeSlot(r.value, g) == EdgeSlot(c, g)
  {
    if !f.IsEdge() then Err(ReadOnly)
    else
      match Write(EdgeSlot(c, f), v)
      case Ok(s) => Ok(WithEdge(c, f, s))
      case Err(e) => Err(e)
  }

  /** Setting the four edges of a new rectangle, in any order, gives the
      rectangle with those edges; any further edge assignment fails. */
  lemma FillEdges(L: int, T: int, R: int, B: int, f: LR.RectField, v: PyValue)
    requires f.IsEdge()
    ensures Assign(New(), LR.FLeft, PyInt(L)).Ok?
    ensures var c1 := Assign(New(), LR.FLeft, PyInt(L)).value;
      Assign(c1, LR.FTop, PyInt(T)).Ok? &&
      var c2 := Assign(c1, LR.FTop, PyInt(T)).value;
      Assign(c2, LR.FRight, PyInt(R)).Ok? &&
      var c3 := Assign(c2, LR.FRight, PyInt(R)).value;
      Assign(c3, LR.FBottom, PyInt(B)).Ok? &&
      var c4 := Assign(c3, LR.FBottom, PyInt(B)).value;
      Value(c4) == Ok(LR.Rect(L, T, R, B)) && Assign(c4, f, v).FailsWith(WriteOnce)
  {
  }

  /** All four getters, left first: the value of a fully set rectangle. */
  function Value(c: Cell): (r: Result<LR.Rect>)
    ensures r.Ok? <==> c.lefts.Stored? && c.tops.Stored? && c.rights.Stored? && c.bottoms.Stored?
    ensures c.lefts.Unset? ==> r.FailsWith(MissingVariable)
    ensures r.Ok? ==> r.value == LR.Rect(c.lefts.i, c.tops.i, c.rights.i, c.bottoms.i)
  {
    match GetEdge(c, LR.FLeft)
    case Err(e) => Err(e)
    case Ok(L) =>
      match GetEdge(c, LR.FTop)
      case Err(e) => Err(e)
      case Ok(T) =>
        match GetEdge(c, LR.FRight)
        case Err(e) => Err(e)
        case Ok(R) =>
          match GetEdge(c, LR.FBottom)
          case Err(e) => Err(e)
          case Ok(B) => Ok(LR.Rect(L, T, R, B))
  }

  // --------------------------------------------------------- derived fields

  /** `colSpan`: reads `right`, then `left`. */
  function ColSpan(c: Cell): (r: Result<int>)
    ensures r.Ok? <==> c.rights.Stored? && c.lefts.Stored?
    ensures c.rights.Unset? ==> r.FailsWith(MissingVariable)
    ensures Value(c).Ok? ==> r == Ok(LR.ColSpan(Value(c).value))
  {
    match GetEdge(c, LR.FRight)
    case Err(e) => Err(e)
    case Ok(R) =>
      match GetEdge(c, LR.FLeft)
      case Err(e) => Err(e)
      case Ok(L) => Ok(R - L + 1)
  }

  /** `rowSpan`: reads `bottom`, then `top`. */
  function RowSpan(c: Cell): (r: Result<int>)
    ensures r.Ok? <==> c.bottoms.Stored? && c.tops.Stored?
    ensures c.bottoms.Unset? ==> r.FailsWith(MissingVariable)
    ensures Value(c).Ok? ==> r == Ok(LR.RowSpan(Value(c).value))
  {
    match GetEdge(c, LR.FBottom)
    case Err(e) => Err(e)
    case Ok(B) =>
      match GetEdge(c, LR.FTop)
      case Err(e) => Err(e)
      case Ok(T) => Ok(B - T + 1)
  }

  /** A corner `LayoutIndex(x, y)` read through two edge getters. */
  function Corner(c: Cell, fx: LR.RectField, fy: LR.RectField): (r: Result<Index>)
    requires fx.IsEdge() && fy.IsEdge()
    ensures r.Ok? <==> EdgeSlot(c, fx).Stored? && EdgeSlot(c, fy).Stored?
    ensures r.Ok? ==> r.value == Index(EdgeSlot(c, fx).i, EdgeSlot(c, fy).i)
  {
    match GetEdge(c, fx)
    case Err(e) => Err(e)
    case Ok(x) =>
      match GetEdge(c, fy)
      case Err(e) => Err(e)
      case Ok(y) => Ok(Index(x, y))
  }

  /** The four corners agree with the constructed rectangle's corners. */
  lemma CornersAgree(c: Cell)
    requires Value(c).Ok?
    ensures Corner(c, LR.FLeft, LR.FTop) == Ok(LR.TopLeft(Value(c).value))
    ensures Corner(c, LR.FRight, LR.FTop) == Ok(LR.TopRight(Value(c).value))
    ensures Corner(c, LR.FRight, LR.FBottom) == Ok(LR.BottomRight(Value(c).value))
    ensures Corner(c, LR.FLeft, LR.FBottom) == Ok(LR.BottomLeft(Value(c).value))
  {
  }

  // -------------------------------------------------------------- iteration

  /** `__iter__`'s buffer. `range(colSpan)` is evaluated once; `rowSpan` is
      evaluated only when the outer loop runs, so a rectangle with no columns
      iterates to nothing even when `top` or `bottom` is unset. */
  function IterBuffer(c: Cell): (r: Result<seq<Index>>)
    ensures Value(c).Ok? ==> r == Ok(LR.Cells(Value(c).value))
    ensures ColSpan(c).Err? ==> r.Err?
    ensures ColSpan(c).Ok? && ColSpan(c).value <= 0 ==> r == Ok([])
  {
    match ColSpan(c)
    case Err(e) => Err(e)
    case Ok(cs) =>
      if cs <= 0 then Ok([])
      else
        match RowSpan(c)
        case Err(e) => Err(e)
        case Ok(_) =>
          match Value(c)
          case Err(e) => Err(e)
          case Ok(rect) => Ok(LR.Cells(rect))
  }

  /** `list(rect)`: `__iter__` fills the buffer, then the loop drains it
      with the clearing `__next__`. */
  function Iterate(c: Cell): (r: Result<seq<Index>>)
    ensures IterBuffer(c).Err? ==> r.Err?
    ensures IterBuffer(c) == Ok([]) ==> r == Ok([])
    ensures IterBuffer(c).Ok? && |IterBuffer(c).value| > 0 ==> r.FailsWith(AttributeMissing)
  {
    match IterBuffer(c)
    case Err(e) => Err(e)
    case Ok(buf) =>
      Iteration.DrainClearingFails(buf);
      Iteration.DrainClearing(Some(buf))
  }

  /** Iterating a fully set rectangle with at least one cell fails, where
      the layouts class yields the cells; so does iterating the 1x1
      rectangle at (0, 0). */
  lemma IterationFails(c: Cell)
    requires Value(c).Ok? && LR.ColSpan(Value(c).value) > 0 && LR.RowSpan(Value(c).value) > 0
    ensures Iterate(c).FailsWith(AttributeMissing)
    ensures LR.Iterate(Value(c).value) == Ok(LR.Cells(Value(c).value))
    ensures Iterate(Cell(Stored(0), Stored(0), Stored(0), Stored(0))).FailsWith(AttributeMissing)
  {
    LR.CellsMembership(Value(c).value, LR.TopLeft(Value(c).value));
    LR.SingleCellIteration(Index(0, 0));
  }

  // ------------------------------------------------------------ containment

  /** `index in rect`: `top`, then `bottom` only when the row is not above
      the top, then `left`, then `right` likewise. */
  function ContainsIndex(c: Cell, i: Index): (r: Result<bool>)
    ensures Value(c).Ok? ==> r == Ok(LR.ContainsIndex(Value(c).value, i))
    ensures c.tops.Unset? ==> r.FailsWith(MissingVariable)
    ensures c.tops.Stored? && i.row < c.tops.i ==> r == Ok(false)
  {
    ContainsColRow(c, i.col, i.row)
  }

  /** `(col, row) in rect`: the same reads as the index overload. */
  function ContainsColRow(c: Cell, col: int, row: int): (r: Result<bool>)
    ensures Value(c).Ok? ==> r == Ok(LR.ContainsColRow(Value(c).value, col, row))
    ensures c.tops.Unset? ==> r.FailsWith(MissingVariable)
    ensures c.tops.Stored? && row < c.tops.i ==> r == Ok(false)
  {
    match GetEdge(c, LR.FTop)
    case Err(e) => Err(e)
    case Ok(T) =>
      if row < T then Ok(false)
      else
        match GetEdge(c, LR.FBottom)
        case Err(e) => Err(e)
        case Ok(B) =>
          if row > B then Ok(false)
          else
            match GetEdge(c, LR.FLeft)
            case Err(e) => Err(e)
            case Ok(L) =>
              if col < L then Ok(false)
              else
                match GetEdge(c, LR.FRight)
                case Err(e) => Err(e)
                case Ok(R) => Ok(!(col > R))
  }

  /** `other in rect`: each comparison reads the other rectangle's edge
      first, then this one's. */
  function ContainsRect(c: Cell, o: Cell): (r: Result<bool>)
    ensures Value(c).Ok? && Value(o).Ok? ==> r == Ok(LR.ContainsRect(Value(c).value, Value(o).value))
    ensures o.tops.Unset? ==> r.FailsWith(MissingVariable)
  {
    match Compare(o, c, LR.FTop, false)
    case Err(e) => Err(e)
    case Ok(out) =>
      if out then Ok(false)
      else
        match Compare(o, c, LR.FBottom, true)
        case Err(e) => Err(e)
        case Ok(out) =>
          if out then Ok(false)
          else
            match Compare(o, c, LR.FLeft, false)
            case Err(e) => Err(e)
            case Ok(out) =>
              if out then Ok(false)
              else
                match Compare(o, c, LR.FRight, true)
                case Err(e) => Err(e)
                case Ok(out) => Ok(!out)
  }

  /** Whether `o`'s edge `f` lies outside `c`'s: beyond it when `greater`,
      before it otherwise. */
  function Compare(o: Cell, c: Cell, f: LR.RectField, greater: bool): (r: Result<bool>)
    requires f.IsEdge()
    ensures r.Ok? <==> EdgeSlot(o, f).Stored? && EdgeSlot(c, f).Stored?
    ensures EdgeSlot(o, f).Unset? ==> r.FailsWith(MissingVariable)
    ensures r.Ok? ==> r.value == if greater then EdgeSlot(o, f).i > EdgeSlot(c, f).i else EdgeSlot(o, f).i < EdgeSlot(c, f).i
  {
    match GetEdge(o, f)
    case Err(e) => Err(e)
    case Ok(x) =>
      match GetEdge(c, f)
      case Err(e) => Err(e)
      case Ok(y) => Ok(if greater then x > y else x < y)
  }
}
