/** Small wrappers shared by every module, and the mode test both pages use. */
module Common {
  import opened Js

  datatype Option<+T> = None | Some(value: T)

  datatype Result<+T, +E> = Ok(value: T) | Err(error: E)

  /** A page is in edit mode when its `editingId` is truthy: an id that is
      present and not 0 (an id of 0 reads as create mode). */
  predicate IsEditing(editingId: Option<int>)
    ensures IsEditing(editingId) <==> editingId.Some? && Truthy(Num(editingId.value))
  {
    editingId.Some? && editingId.value != 0
  }
}
