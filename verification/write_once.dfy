/** The write-once integer field used by `LayoutIndex` and by both
    `LayoutRect` classes.

    Each such field has a private backing attribute that starts out as
    `None`. Its getter raises `MissingVariable` while the attribute is `None`
    and `TypeError` when it holds something other than an int; its setter
    raises `WriteOnceError` once the attribute is no longer `None`, and
    `TypeError` for a non-int value. Constructors bypass the setter and store
    whatever they are given, which is why a slot can hold a foreign object.
 */
module WriteOnce {
  import opened Errors

  /** A Python value handed to a setter or a constructor. */
  datatype PyValue = PyInt(i: int) | PyNone | PyOther

  /** The state of one private backing attribute. */
  datatype Slot = Unset | Stored(i: int) | Foreign

  /** The slot a constructor produces when it stores `v` directly. */
  function SlotOf(v: PyValue): (s: Slot)
    ensures s.Stored? <==> v.PyInt?
    ensures s.Stored? ==> s.i == v.i
    ensures s.Unset? <==> v.PyNone?
  {
    match v
    case PyInt(i) => Stored(i)
    case PyNone => Unset
    case PyOther => Foreign
  }

  /** The field's getter. */
  function Read(s: Slot): (r: Result<int>)
    ensures r.Ok? <==> s.Stored?
    ensures r.Ok? ==> r.value == s.i
    ensures s.Unset? ==> r.FailsWith(MissingVariable)
    ensures s.Foreign? ==> r.FailsWith(TypeMismatch)
  {
    match s
    case Unset => Err(MissingVariable)
    case Stored(i) => Ok(i)
    case Foreign => Err(TypeMismatch)
  }

  /** The field's setter: the write-once check comes before the type check. */
  function Write(s: Slot, v: PyValue): (r: Result<Slot>)
    ensures r.Ok? <==> s.Unset? && v.PyInt?
    ensures r.Ok? ==> Read(r.value) == Ok(v.i)
    ensures !s.Unset? ==> r.FailsWith(WriteOnce)
    ensures s.Unset? && !v.PyInt? ==> r.FailsWith(TypeMismatch)
  {
    if !s.Unset? then Err(WriteOnce)
    else if !v.PyInt? then Err(TypeMismatch)
    else Ok(Stored(v.i))
  }

  /** A successful write can never be followed by a second one. */
  lemma SecondWriteFails(s: Slot, v: PyValue, w: PyValue)
    requires Write(s, v).Ok?
    ensures Write(Write(s, v).value, w).FailsWith(WriteOnce)
    ensures Read(Write(s, v).value) == Ok(v.i)
  {
  }
}
