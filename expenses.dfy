/**
 * The tracker's one entity. A `Category` is one of six fixed names; an
 * `Expense` is a record whose `date` is the stored ISO-8601 text and whose
 * `amount` is in integer cents. A `Draft` is an expense without its id, as
 * the entry form produces it.
 */
module Expenses {
  import opened Wrappers

  datatype Category = Food | Transportation | Entertainment | Shopping | Bills | Other

  datatype Expense = Expense(id: string, date: string, amount: int, category: Category, description: string)

  datatype Draft = Draft(date: string, amount: int, category: Category, description: string)

  /** The category's name as the source spells it (its string literal type). */
  function CategoryName(c: Category): string {
    match c
    case Food => "Food"
    case Transportation => "Transportation"
    case Entertainment => "Entertainment"
    case Shopping => "Shopping"
    case Bills => "Bills"
    case Other => "Other"
  }

  /** Reads a category name back; anything other than the six names is rejected. */
  function ParseCategory(name: string): (r: Option<Category>)
    ensures r.Some? ==> CategoryName(r.value) == name
  {
    if name == "Food" then Some(Food)
    else if name == "Transportation" then Some(Transportation)
    else if name == "Entertainment" then Some(Entertainment)
    else if name == "Shopping" then Some(Shopping)
    else if name == "Bills" then Some(Bills)
    else if name == "Other" then Some(Other)
    else None
  }

  /** Every category's name parses back to it, so the six names are distinct. */
  lemma ParseCategoryName(c: Category)
    ensures ParseCategory(CategoryName(c)) == Some(c)
  {
  }

  /** `{ ...draft, id }` */
  function WithId(d: Draft, id: string): (e: Expense)
    ensures e.id == id
    ensures e.date == d.date && e.amount == d.amount && e.category == d.category && e.description == d.description
  {
    Expense(id, d.date, d.amount, d.category, d.description)
  }

  /** The fields of an expense other than its id. */
  function WithoutId(e: Expense): (d: Draft)
    ensures d.date == e.date && d.amount == e.amount && d.category == e.category && d.description == e.description
  {
    Draft(e.date, e.amount, e.category, e.description)
  }

  /** Attaching an id and dropping it again are inverse to each other. */
  lemma IdRoundTrip(d: Draft, e: Expense, id: string)
    ensures WithoutId(WithId(d, id)) == d
    ensures WithId(WithoutId(e), e.id) == e
  {
  }

  /** The ids of a list, in order. */
  function Ids(s: seq<Expense>): (ids: seq<string>)
    ensures |ids| == |s|
    ensures forall i :: 0 <= i < |s| ==> ids[i] == s[i].id
  {
    seq(|s|, i requires 0 <= i < |s| => s[i].id)
  }

  /** The store's invariant: no two entries share an id. */
  predicate UniqueIds(s: seq<Expense>) {
    forall i, j :: 0 <= i < j < |s| ==> s[i].id != s[j].id
  }
}
