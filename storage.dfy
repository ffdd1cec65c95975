/**
 * The persisted slot `expenses` of the browser's local storage. JSON encoding
 * is abstracted: the slot holds either nothing, text that does not parse, a
 * parsed value that is not an array, or a parsed array of expenses.
 */
module Storage {
  import opened Expenses

  datatype Slot = Missing | Unparsable | NotAnArray | ArrayOf(items: seq<Expense>)

  /** `loadExpenses`: the stored array, or the empty list in every other case. */
  function Load(slot: Slot): (r: seq<Expense>)
    ensures slot.ArrayOf? ==> r == slot.items
    ensures !slot.ArrayOf? ==> r == []
  {
    match slot
    case ArrayOf(items) => items
    case _ => []
  }

  /**
   * `saveExpenses`: a successful write replaces the slot with the whole list;
   * a failing write (quota, serialisation) is caught and leaves the slot as it was.
   */
  function Save(slot: Slot, items: seq<Expense>, writable: bool): (r: Slot)
    ensures writable ==> Load(r) == items
    ensures !writable ==> r == slot
  {
    if writable then ArrayOf(items) else slot
  }
}
