/** `LayoutIndex`: a hashable (row, col) grid cell.

    `Index` is the value every other grid module works with. `IndexCell` is
    the object's state as the class keeps it: two write-once backing
    attributes, `__n_rows__` and `__n_cols__`, read and written through the
    `row`/`col` getters and setters.

    The positional constructor `LayoutIndex(a, b)` stores `a` as the ROW and
    `b` as the COLUMN; most callers pass `(col, row)`, and the modules that
    model those callers copy each call as written.
 */
module LayoutIndex {
  import opened Errors
  import opened WriteOnce
  import Iteration

  /** A fully set index. */
  datatype Index = Index(row: int, col: int)

  /** The state of a `LayoutIndex` object. */
  datatype IndexCell = IndexCell(rows: Slot, cols: Slot)

  // ---------------------------------------------------------------- fields

  function GetRow(c: IndexCell): (r: Result<int>)
    ensures r.Ok? <==> c.rows.Stored?
    ensures c.rows.Unset? ==> r.FailsWith(MissingVariable)
  {
    Read(c.rows)
  }

  function GetCol(c: IndexCell): (r: Result<int>)
    ensures r.Ok? <==> c.cols.Stored?
    ensures c.cols.Unset? ==> r.FailsWith(MissingVariable)
  {
    Read(c.cols)
  }

  /** The `row` setter: touches only the row attribute. */
  function SetRow(c: IndexCell, v: PyValue): (r: Result<IndexCell>)
    ensures r.Ok? <==> c.rows.Unset? && v.PyInt?
    ensures c.rows.Stored? || c.rows.Foreign? ==> r.FailsWith(WriteOnce)
    ensures c.rows.Unset? && !v.PyInt? ==> r.FailsWith(TypeMismatch)
    ensures r.Ok? ==> GetRow(r.value) == Ok(v.i) && r.value.cols == c.cols
  {
    match Write(c.rows, v)
    case Ok(s) => Ok(c.(rows := s))
    case Err(e) => Err(e)
  }

  /** The `col` setter: touches only the column attribute. */
  function SetCol(c: IndexCell, v: PyValue): (r: Result<IndexCell>)
    ensures r.Ok? <==> c.cols.Unset? && v.PyInt?
    ensures c.cols.Stored? || c.cols.Foreign? ==> r.FailsWith(WriteOnce)
    ensures c.cols.Unset? && !v.PyInt? ==> r.FailsWith(TypeMismatch)
    ensures r.Ok? ==> GetCol(r.value) == Ok(v.i) && r.value.rows == c.rows
  {
    match Write(c.cols, v)
    case Ok(s) => Ok(c.(cols := s))
    case Err(e) => Err(e)
  }

  /** Both getters, row first; the value view of a cell. */
  function Value(c: IndexCell): (r: Result<Index>)
    ensures r.Ok? <==> c.rows.Stored? && c.cols.Stored?
    ensures r.Ok? ==> GetRow(c) == Ok(r.value.row) && GetCol(c) == Ok(r.value.col)
  {
    match GetRow(c)
    case Err(e) => Err(e)
    case Ok(row) =>
      match GetCol(c)
      case Err(e) => Err(e)
      case Ok(col) => Ok(Index(row, col))
  }

  // ---------------------------------------------------------- constructors

  /** `LayoutIndex(a, b)` with two ints: `a` is the row, `b` the column. */
  function NewRowCol(a: int, b: int): (c: IndexCell)
    ensures GetRow(c) == Ok(a) && GetCol(c) == Ok(b)
    ensures Value(c) == Ok(Index(a, b))
  {
    IndexCell(Stored(a), Stored(b))
  }

  /** `LayoutIndex(other)`: copies through the other's getters. */
  function NewCopy(other: IndexCell): (r: Result<IndexCell>)
    ensures r.Ok? <==> Value(other).Ok?
    ensures r.Ok? ==> Value(r.value) == Value(other)
  {
    match Value(other)
    case Err(e) => Err(e)
    case Ok(i) => Ok(NewRowCol(i.row, i.col))
  }

  /** `LayoutIndex(tuple)` / `LayoutIndex(list)`: exactly two ints, row first. */
  function NewFromSeq(vals: seq<PyValue>): (r: Result<IndexCell>)
    ensures |vals| != 2 ==> r.FailsWith(ValueFailure)
    ensures |vals| == 2 && !(vals[0].PyInt? && vals[1].PyInt?) ==> r.FailsWith(TypeMismatch)
    ensures r.Ok? <==> |vals| == 2 && vals[0].PyInt? && vals[1].PyInt?
    ensures r.Ok? ==> Value(r.value) == Ok(Index(vals[0].i, vals[1].i))
  {
    if |vals| != 2 then Err(ValueFailure)
    else if !vals[0].PyInt? then Err(TypeMismatch)
    else if !vals[1].PyInt? then Err(TypeMismatch)
    else Ok(NewRowCol(vals[0].i, vals[1].i))
  }

  /** `LayoutIndex(n)`: one int sets both coordinates. */
  function NewFromInt(n: int): (c: IndexCell)
    ensures Value(c) == Ok(Index(n, n))
  {
    NewRowCol(n, n)
  }

  /** `LayoutIndex(row=..., col=...)`: a missing keyword defaults to 0, and a
      given value is stored as it is, without the setters' checks. */
  function NewDefault(row: Option<PyValue>, col: Option<PyValue>): (c: IndexCell)
    ensures row.None? && col.None? ==> Value(c) == Ok(Index(0, 0))
    ensures row.Some? && row.value.PyInt? ==> GetRow(c) == Ok(row.value.i)
    ensures col.Some? && col.value.PyInt? ==> GetCol(c) == Ok(col.value.i)
    ensures row.Some? && !row.value.PyInt? ==> GetRow(c).Err?
    ensures col.Some? && !col.value.PyInt? ==> GetCol(c).Err?
  {
    IndexCell(SlotOf(row.GetOr(PyInt(0))), SlotOf(col.GetOr(PyInt(0))))
  }

  // ------------------------------------------------------------- protocols

  /** `__eq__`: compares `col` first and reads the rows only when the
      columns agree, so a missing row goes unnoticed when the columns differ. */
  function Equals(a: IndexCell, b: IndexCell): (r: Result<bool>)
    ensures Value(a).Ok? && Value(b).Ok? ==> r == Ok(Value(a).value == Value(b).value)
  {
    match GetCol(a)
    case Err(e) => Err(e)
    case Ok(ca) =>
      match GetCol(b)
      case Err(e) => Err(e)
      case Ok(cb) =>
        if ca != cb then Ok(false)
        else
          match GetRow(a)
          case Err(e) => Err(e)
          case Ok(ra) =>
            match GetRow(b)
            case Err(e) => Err(e)
            case Ok(rb) => Ok(ra == rb)
  }

  /** `__hash__`: the hash of the tuple `(col, row)`; modelled as that tuple. */
  function HashKey(c: IndexCell): (r: Result<(int, int)>)
    ensures r.Ok? <==> Value(c).Ok?
    ensures r.Ok? ==> r.value == (Value(c).value.col, Value(c).value.row)
  {
    match GetCol(c)
    case Err(e) => Err(e)
    case Ok(col) =>
      match GetRow(c)
      case Err(e) => Err(e)
      case Ok(row) => Ok((col, row))
  }

  /** Equal indices have equal hash keys, and equal hash keys mean equal
      indices, so the class is a sound dictionary key. */
  lemma HashAgreesWithEquality(a: IndexCell, b: IndexCell)
    requires Value(a).Ok? && Value(b).Ok?
    ensures Equals(a, b) == Ok(true) <==> HashKey(a) == HashKey(b)
  {
  }

  /** Truthiness of a fully set index. */
  predicate Truthy(i: Index) {
    i.row != 0 || i.col != 0
  }

  /** `__bool__`: `row or col`; the column is read only when the row is 0. */
  function Bool(c: IndexCell): (r: Result<bool>)
    ensures Value(c).Ok? ==> r == Ok(Truthy(Value(c).value))
    ensures GetRow(c).Ok? && GetRow(c).value != 0 ==> r == Ok(true)
  {
    match GetRow(c)
    case Err(e) => Err(e)
    case Ok(row) =>
      if row != 0 then Ok(true)
      else
        match GetCol(c)
        case Err(e) => Err(e)
        case Ok(col) => Ok(col != 0)
  }

  /** `__iter__`: the row, then the column. */
  function Items(c: IndexCell): (r: Result<seq<int>>)
    ensures r.Ok? <==> Value(c).Ok?
    ensures r.Ok? ==> r.value == [Value(c).value.row, Value(c).value.col]
  {
    match Value(c)
    case Err(e) => Err(e)
    case Ok(i) => Ok([i.row, i.col])
  }

  /** The iteration buffer, passed back to the constructor, rebuilds the
      index. */
  lemma IterRoundTrip(c: IndexCell)
    requires Value(c).Ok?
    ensures Items(c).Ok?
    ensures Value(NewRowCol(Items(c).value[0], Items(c).value[1])) == Value(c)
  {
  }

  /** `[*index]` or `row, col = index`: `__iter__` fills the buffer, then
      the clearing `__next__` drains it, and the call after the column pops
      from the cleared buffer. Every fully set index fails to unpack. */
  function Unpack(c: IndexCell): (r: Result<seq<int>>)
    ensures Value(c).Ok? ==> r.FailsWith(AttributeMissing)
    ensures Value(c).Err? ==> r.Err?
  {
    match Items(c)
    case Err(e) => Err(e)
    case Ok(buf) =>
      Iteration.DrainClearingFails(buf);
      Iteration.DrainClearing(Some(buf))
  }

  /** With the checking `__next__` of the layouts `LayoutRect`, unpacking
      would yield the row, then the column. */
  lemma UnpackIntended(c: IndexCell)
    requires Value(c).Ok?
    ensures Iteration.Drain(Some(Items(c).value)) == Ok([Value(c).value.row, Value(c).value.col])
  {
    Iteration.DrainYieldsBuffer(Items(c).value);
  }

  /** Assigning a field of a constructed index always fails: the positional
      constructors leave no attribute unset. */
  lemma ConstructedIsFrozen(a: int, b: int, v: PyValue)
    ensures SetRow(NewRowCol(a, b), v).FailsWith(WriteOnce)
    ensures SetCol(NewRowCol(a, b), v).FailsWith(WriteOnce)
  {
  }
}
