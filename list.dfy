/**
 * The expense table's edit mode: a nullable "expense being edited" that the
 * Edit action sets and a submitted edit clears, and the row actions wired to
 * the store's update and delete.
 */
module ExpenseList {
  import opened Wrappers
  import opened Expenses
  import opened ExpenseStore

  /** The `editingExpense` state of the table. */
  class EditState {
    var editing: Option<Expense>

    constructor ()
      ensures editing == None
    {
      editing := None;
    }

    /** `handleEdit`: the table enters edit mode for `e`. */
    method HandleEdit(e: Expense)
      modifies this
      ensures editing == Some(e)
    {
      editing := Some(e);
    }

    /**
     * `handleUpdate`: outside edit mode nothing is sent; in edit mode the
     * form's values are sent under the edited expense's id and edit mode ends.
     */
    method HandleUpdate(data: Draft) returns (sent: Option<Expense>)
      modifies this
      ensures old(editing).None? ==> sent == None
      ensures old(editing).Some? ==> sent == Some(WithId(data, old(editing).value.id))
      ensures sent.Some? ==> sent.value.id == old(editing).value.id && WithoutId(sent.value) == data
      ensures editing == None
    {
      if editing.Some? {
        sent := Some(WithId(data, editing.value.id));
        editing := None;
      } else {
        sent := None;
      }
    }
  }

  /**
   * Editing a row and saving: the store's list keeps its length and ids in
   * order, the edited row's position holds the submitted fields under the
   * old id, and every other row is unchanged.
   */
  method EditAndSave(table: EditState, store: Store, row: Expense, data: Draft, writable: bool)
    requires table != store as object
    modifies table, store
    ensures table.editing == None
    ensures Ids(store.expenses) == Ids(old(store.expenses))
    ensures forall i :: 0 <= i < |store.expenses| ==>
      store.expenses[i] == if old(store.expenses)[i].id == row.id then WithId(data, row.id) else old(store.expenses)[i]
  {
    table.HandleEdit(row);
    var sent := table.HandleUpdate(data);
    store.UpdateExpense(sent.value, writable);
  }

  /** The row's Delete action passes the row's id, which removes that row and keeps every other-id row. */
  lemma DeleteActionRemovesRow(s: seq<Expense>, row: Expense, x: Expense)
    ensures row !in Removed(s, row.id)
    ensures x in s && x.id != row.id ==> x in Removed(s, row.id)
  {
    RemovedKeepsOthers(s, row.id, row);
    RemovedKeepsOthers(s, row.id, x);
  }
}
