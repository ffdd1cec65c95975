/**
 * The expense store (`useExpenses`): the session's list of expenses and the
 * persisted slot. Add, update and delete compute a new list from the current
 * one and hand it to `Sync`, which sets the in-memory list and writes the
 * same list to storage.
 */
module ExpenseStore {
  import opened Expenses
  import opened Seqs
  import Storage

  /** `[...expenses, { ...draft, id }]` */
  function Appended(s: seq<Expense>, draft: Draft, id: string): (r: seq<Expense>)
    ensures |r| == |s| + 1 && r[..|s|] == s
    ensures r[|s|].id == id && WithoutId(r[|s|]) == draft
  {
    s + [WithId(draft, id)]
  }

  /** `expenses.map(x => x.id === e.id ? e : x)` */
  function Replaced(s: seq<Expense>, e: Expense): (r: seq<Expense>)
    ensures |r| == |s| && Ids(r) == Ids(s)
    ensures forall i :: 0 <= i < |s| && s[i].id != e.id ==> r[i] == s[i]
    ensures forall i :: 0 <= i < |s| && s[i].id == e.id ==> r[i] == e
  {
    seq(|s|, i requires 0 <= i < |s| => if s[i].id == e.id then e else s[i])
  }

  /** `expenses.filter(x => x.id !== id)` */
  function Removed(s: seq<Expense>, id: string): seq<Expense> {
    Filter(s, (x: Expense) => x.id != id)
  }

  /** A fresh id keeps the ids unique, and the new entry is the only one carrying it. */
  lemma AppendedFreshId(s: seq<Expense>, draft: Draft, id: string)
    requires id !in Ids(s)
    ensures forall i :: 0 <= i < |s| + 1 ==> (Appended(s, draft, id)[i].id == id <==> i == |s|)
    ensures UniqueIds(s) ==> UniqueIds(Appended(s, draft, id))
  {
    var r := Appended(s, draft, id);
    forall i | 0 <= i < |s| ensures r[i].id != id {
      assert r[i] == s[i];
      assert Ids(s)[i] == s[i].id;
    }
  }

  /** Updating with an id that no entry carries returns the list unchanged. */
  lemma ReplacedAbsentId(s: seq<Expense>, e: Expense)
    requires e.id !in Ids(s)
    ensures Replaced(s, e) == s
  {
    forall i | 0 <= i < |s| ensures s[i].id != e.id {
      assert Ids(s)[i] == s[i].id;
    }
  }

  /** Applying the same update twice is applying it once. */
  lemma ReplacedIdempotent(s: seq<Expense>, e: Expense)
    ensures Replaced(Replaced(s, e), e) == Replaced(s, e)
  {
    var r := Replaced(s, e);
    forall i | 0 <= i < |r| ensures Replaced(r, e)[i] == r[i] {
      if r[i].id == e.id {
        assert Ids(r)[i] == Ids(s)[i];
      }
    }
  }

  /** An update never changes an id, so unique ids stay unique. */
  lemma ReplacedKeepsUniqueIds(s: seq<Expense>, e: Expense)
    requires UniqueIds(s)
    ensures UniqueIds(Replaced(s, e))
  {
    var r := Replaced(s, e);
    forall i, j | 0 <= i < j < |r| ensures r[i].id != r[j].id {
      assert Ids(r)[i] == Ids(s)[i] && Ids(r)[j] == Ids(s)[j];
    }
  }

  /** Deleting an id that no entry carries returns the list unchanged. */
  lemma RemovedAbsentId(s: seq<Expense>, id: string)
    requires id !in Ids(s)
    ensures Removed(s, id) == s
  {
    forall i | 0 <= i < |s| ensures s[i].id != id {
      assert Ids(s)[i] == s[i].id;
    }
    FilterKeepsAll(s, (x: Expense) => x.id != id);
  }

  /** Deleting twice is deleting once. */
  lemma RemovedIdempotent(s: seq<Expense>, id: string)
    ensures Removed(Removed(s, id), id) == Removed(s, id)
  {
    FilterIdempotent(s, (x: Expense) => x.id != id);
  }

  /** Delete keeps every entry with a different id. */
  lemma RemovedKeepsOthers(s: seq<Expense>, id: string, x: Expense)
    ensures x in Removed(s, id) <==> x in s && x.id != id
  {
    FilterMember(s, (x: Expense) => x.id != id, x);
  }

  /** In a list with unique ids, deleting the id at position `i` removes exactly that entry. */
  lemma RemovedUniqueAt(s: seq<Expense>, i: nat)
    requires UniqueIds(s) && i < |s|
    ensures Removed(s, s[i].id) == s[..i] + s[i + 1..]
  {
    var id := s[i].id;
    var p := (x: Expense) => x.id != id;
    forall j | 0 <= j < |s| && j != i ensures p(s[j]) {
      assert s[j].id != s[i].id;
    }
    FilterDropsOnly(s, p, i);
  }

  /** Delete keeps unique ids unique (its result is an order-preserving subsequence). */
  lemma RemovedKeepsUniqueIds(s: seq<Expense>, id: string)
    requires UniqueIds(s)
    ensures UniqueIds(Removed(s, id))
  {
    var p := (x: Expense) => x.id != id;
    var r := Removed(s, id);
    var idx := KeptIndices(s, p);
    forall a, b | 0 <= a < b < |r| ensures r[a].id != r[b].id {
      FilterIsSubsequence(s, p, a);
      FilterIsSubsequence(s, p, b);
    }
  }

  /** The session's list and the persisted slot it is mirrored into. */
  class Store {
    var expenses: seq<Expense>
    var slot: Storage.Slot

    /** A new store starts empty, whatever the slot holds, until it is loaded. */
    constructor (persisted: Storage.Slot)
      ensures expenses == [] && slot == persisted
    {
      expenses := [];
      slot := persisted;
    }

    /** The mount effect: replace the list by what the slot holds (empty when unusable). */
    method LoadPersisted()
      modifies this
      ensures expenses == Storage.Load(slot) && slot == old(slot)
    {
      expenses := Storage.Load(slot);
    }

    /** `syncExpenses`: the list becomes `updated`, and a successful write stores the same list. */
    method Sync(updated: seq<Expense>, writable: bool)
      modifies this
      ensures expenses == updated
      ensures slot == Storage.Save(old(slot), updated, writable)
      ensures writable ==> Storage.Load(slot) == expenses
    {
      expenses := updated;
      slot := Storage.Save(slot, updated, writable);
    }

    /** `addExpense`, with the fresh id supplied by the caller. */
    method AddExpense(draft: Draft, freshId: string, writable: bool)
      modifies this
      ensures expenses == Appended(old(expenses), draft, freshId)
      ensures slot == Storage.Save(old(slot), expenses, writable)
      ensures freshId !in Ids(old(expenses)) && UniqueIds(old(expenses)) ==> UniqueIds(expenses)
    {
      if freshId !in Ids(expenses) {
        AppendedFreshId(expenses, draft, freshId);
      }
      Sync(Appended(expenses, draft, freshId), writable);
    }

    /** `updateExpense` */
    method UpdateExpense(e: Expense, writable: bool)
      modifies this
      ensures expenses == Replaced(old(expenses), e)
      ensures slot == Storage.Save(old(slot), expenses, writable)
      ensures UniqueIds(old(expenses)) ==> UniqueIds(expenses)
      ensures e.id !in Ids(old(expenses)) ==> expenses == old(expenses)
    {
      if UniqueIds(expenses) {
        ReplacedKeepsUniqueIds(expenses, e);
      }
      if e.id !in Ids(expenses) {
        ReplacedAbsentId(expenses, e);
      }
      Sync(Replaced(expenses, e), writable);
    }

    /** `deleteExpense` */
    method DeleteExpense(id: string, writable: bool)
      modifies this
      ensures expenses == Removed(old(expenses), id)
      ensures slot == Storage.Save(old(slot), expenses, writable)
      ensures UniqueIds(old(expenses)) ==> UniqueIds(expenses)
      ensures id !in Ids(old(expenses)) ==> expenses == old(expenses)
    {
      if UniqueIds(expenses) {
        RemovedKeepsUniqueIds(expenses, id);
      }
      if id !in Ids(expenses) {
        RemovedAbsentId(expenses, id);
      }
      Sync(Removed(expenses, id), writable);
    }
  }
}
