/**
 * The main page's view of the list: the category-or-"all" plus date-range
 * filter that feeds the dashboard and the expense table, and the rows handed
 * to the CSV download link.
 */
module HomePage {
  import opened Wrappers
  import opened Dates
  import opened Expenses
  import opened Seqs

  /** The category select: "all" or one category. */
  datatype CategoryChoice = All | Only(category: Category)

  /** `{ from?: Date; to?: Date }` as the date pickers set it. */
  datatype DateRange = DateRange(from: Option<Date>, to: Option<Date>)

  /**
   * The page's filter predicate: the category matches (or "all"), and each
   * bound that is set is met inclusively by `new Date(e.date)`.
   */
  predicate PageKeeps(parse: string -> Date, choice: CategoryChoice, range: DateRange, e: Expense) {
    var d := parse(e.date);
    && (choice.All? || e.category == choice.category)
    && (range.from.None? || AtMost(range.from.value, d))
    && (range.to.None? || AtMost(d, range.to.value))
  }

  /** `filteredExpenses` */
  function PageFiltered(s: seq<Expense>, choice: CategoryChoice, range: DateRange, parse: string -> Date): seq<Expense> {
    Filter(s, (e: Expense) => PageKeeps(parse, choice, range, e))
  }

  /**
   * An expense is shown exactly when it is listed, its category matches, its
   * date is not before `from` and not after `to` (both inclusive), and its
   * date is a valid one whenever a bound is set.
   */
  lemma PageFilterKeepsExactly(s: seq<Expense>, choice: CategoryChoice, range: DateRange, parse: string -> Date, e: Expense)
    ensures e in PageFiltered(s, choice, range, parse) <==>
      && e in s
      && (choice.All? || e.category == choice.category)
      && (range.from.Some? ==> parse(e.date).Valid? && range.from.value.Valid? && !Before(parse(e.date), range.from.value))
      && (range.to.Some? ==> parse(e.date).Valid? && range.to.value.Valid? && !Before(range.to.value, parse(e.date)))
  {
    FilterMember(s, (x: Expense) => PageKeeps(parse, choice, range, x), e);
  }

  /** "All categories" and no dates: the page shows the whole list, in order. */
  lemma PageFilterUnrestricted(s: seq<Expense>, parse: string -> Date)
    ensures PageFiltered(s, All, DateRange(None, None), parse) == s
  {
    FilterKeepsAll(s, (e: Expense) => PageKeeps(parse, All, DateRange(None, None), e));
  }

  /**
   * The bounds act independently: filtering with both is filtering with
   * `from` alone and then with `to` alone, each unset bound imposing nothing.
   */
  lemma PageFilterBoundsCompose(s: seq<Expense>, choice: CategoryChoice, from: Date, to: Date, parse: string -> Date)
    ensures PageFiltered(s, choice, DateRange(Some(from), Some(to)), parse)
         == PageFiltered(PageFiltered(s, choice, DateRange(Some(from), None), parse), All, DateRange(None, Some(to)), parse)
  {
    var p := (e: Expense) => PageKeeps(parse, choice, DateRange(Some(from), None), e);
    var q := (e: Expense) => PageKeeps(parse, All, DateRange(None, Some(to)), e);
    var both := (e: Expense) => PageKeeps(parse, choice, DateRange(Some(from), Some(to)), e);
    assert PageFiltered(s, choice, DateRange(Some(from), None), parse) == Filter(s, p);
    assert PageFiltered(Filter(s, p), All, DateRange(None, Some(to)), parse) == Filter(Filter(s, p), q);
    assert PageFiltered(s, choice, DateRange(Some(from), Some(to)), parse) == Filter(s, both);
    FilterCompose(s, p, q, both);
  }

  /** An expense whose date does not parse is dropped as soon as either bound is set. */
  lemma PageFilterDropsInvalidDates(s: seq<Expense>, choice: CategoryChoice, range: DateRange, parse: string -> Date, e: Expense)
    requires parse(e.date).Invalid? && (range.from.Some? || range.to.Some?)
    ensures e !in PageFiltered(s, choice, range, parse)
  {
    FilterMember(s, (x: Expense) => PageKeeps(parse, choice, range, x), e);
    if range.from.Some? {
      InvalidIncomparable(parse(e.date), range.from.value);
    } else {
      InvalidIncomparable(parse(e.date), range.to.value);
    }
  }

  /** `csvData`: the filtered rows with the date shown in the local format, or nothing. */
  function CsvData(filtered: seq<Expense>, localeDate: string -> string): (rows: seq<Expense>)
    ensures |rows| == |filtered|
    ensures forall i :: 0 <= i < |rows| ==>
      && rows[i].date == localeDate(filtered[i].date)
      && rows[i].id == filtered[i].id && rows[i].amount == filtered[i].amount
      && rows[i].category == filtered[i].category && rows[i].description == filtered[i].description
  {
    if |filtered| > 0 then
      seq(|filtered|, i requires 0 <= i < |filtered| => filtered[i].(date := localeDate(filtered[i].date)))
    else []
  }
}
