# Expense tracker core, modelled in Dafny

This project models the list logic of a small client-side expense tracker.

- **The expense store.** The session's list of expenses is mirrored into a persisted slot. Add appends an expense under a fresh id, update replaces entries by id, and delete filters entries out by id.
- **The dashboard.** It computes the total, the current month's total, the spending per category (in first-occurrence order) and the top category.
- **The main page's filter.** One category or "all", plus an optional inclusive from/to date range. It also builds the rows handed to the CSV link.
- **The export dialog.** It has its own filter: a selection of categories, where an empty selection means all, plus optional start and end dates. The dialog also covers the category toggle, the unquoted CSV text, the ten-row preview and the dialog's state across an export.
- **The entry form.** Its validation schema, its default values, and the mapping from accepted values to an id-less draft.
- **The table's edit mode.** It keeps the edited expense's id.

## How the model works

The modules follow the source files.

| module | files | what it holds |
|---|---|---|
| `Expenses` | `expenses.dfy` | the entity types |
| `Dates` | `dates.dfy` | the abstract date |
| `Storage` | `storage.dfy` | the persisted slot |
| `ExpenseStore` | `store.dfy` | the store |
| `Dashboard` | `dashboard.dfy` | the dashboard |
| `HomePage` | `page.dfy` | the main page |
| `ExportDialog` | `export.dfy` | the export dialog |
| `ExpenseForm` | `form.dfy` | the entry form |
| `ExpenseList` | `list.dfy` | the table's edit mode |
| `Seqs` | `seqs.dfy` | filtering, joining and splitting, used by several modules |
| `Scenarios` | `scenarios.dfy` | the three-expense worked example |

### Values and parameters

- **Amounts** are integer cents.
- **Dates.** A browser `Date` is `Valid(year, month, offset)` or `Invalid`.
  - Every comparison involving `Invalid` is false, as it is for a NaN time value.
  - `new Date(text)` is a function parameter `parse`.
  - `toISOString` (`toIso`) and `toLocaleDateString` (`localeDate`) are function parameters too.
  - So are the number-to-text conversion (`amountText`), the current time (`now`) and today's date (`today`).

### State

- **The store** (`ExpenseStore.Store`), **the export dialog** (`ExportDialog.ExportDialogState`) and **the table's edit state** (`ExpenseList.EditState`) are classes whose methods update their fields. Each store method's `ensures` ties the new list to a pure function (`Appended`, `Replaced`, `Removed`), and lemmas prove the properties of those functions. The dialog's selection follows `Toggle` in the same way.
- **The per-category grouping** is a `reduce` into a dictionary. It is the method `Dashboard.BuildCategorySpending`: a loop that fills a `map`, proved against the specification functions `Categories` and `CategorySum`.

### Behaviour worth knowing

- **Ties for the top category.** The code sorts the entries with a stable descending sort and takes the first one. The winner is therefore the earliest maximal category in first-occurrence order: `Dashboard.TopCategoryIsMaximal`.
- **Matching the draft after an add.** An earlier expense may have the same fields as the draft, so after an add several elements can match the draft's fields. Exactly one element carries the fresh id: `ExpenseStore.AppendedFreshId`.
- **Toggling a category twice.** Toggling twice always restores which categories are selected. A category that was not selected is appended and removed again, so the list comes back unchanged. A selected category is removed and then appended at the end: the list comes back unchanged only when it was selected once and in the last place (`ExportDialog.ToggleTwiceLast`), and otherwise it moves to the end (`ExportDialog.ToggleTwiceSelected`).
- **Commas in the CSV.** The CSV rows are not quoted. A comma inside a description therefore adds a column: `ExportDialog.CsvCommaInDescription`.
- **Changes while an export is pending.** The export's callback runs 500 ms after the click and closes over that render's format, filename and filtered expenses. Changing the selection in between does not change what is downloaded: `Scenarios.SelectDuringExport`.

## Model

| member | source | states |
|---|---|---|
| Dates.Before | src/app/components/ExportDialog.tsx:54-55 | the strict `<` between two dates: false whenever either side is unparsable (`InvalidIncomparable`), otherwise the strict part of the date order (`ValidDatesTotallyOrdered`) |
| Dates.AtMost | src/app/page.tsx:27-28 | the inclusive `<=`/`>=` bound: false whenever either side is unparsable (`InvalidIncomparable`), a total order on valid dates (`ValidDatesTotallyOrdered`) |
| Dates.SameMonth | src/app/components/Dashboard.tsx:38-39 | equal local month and year: false whenever either side is unparsable (`InvalidIncomparable`) |
| Dates.ValidDatesTotallyOrdered | src/app/page.tsx:27-28 | valid dates are totally ordered by `AtMost`, antisymmetrically and transitively, and `Before` is its strict part |
| Dates.InvalidIncomparable | src/app/components/ExportDialog.tsx:53-55 | an unparsable date is neither before nor after, neither at most nor at least, nor in the same month as any date |
| Expenses.ParseCategory | src/app/components/ExpenseForm.tsx:35 | a name is accepted only as one of the six category names, and maps back to that name |
| Expenses.ParseCategoryName | src/types/index.ts:2 | each of the six categories' names parses back to that category, so the names are distinct |
| Expenses.WithId | src/hooks/useExpenses.ts:22 | `{ ...draft, id }` carries the draft's four fields and the given id |
| Expenses.WithoutId | src/types/index.ts:4-10 | an expense without its id keeps the other four fields |
| Expenses.IdRoundTrip | src/app/components/ExpenseList.tsx:41 | attaching an id and dropping it again are mutually inverse |
| Expenses.Ids | src/types/index.ts:5 | the list of ids, position by position |
| Storage.Load | src/lib/storage.ts:4-19 | a stored array is returned as is; a missing slot, unparsable text or a non-array all give the empty list |
| Storage.Save | src/lib/storage.ts:21-27 | after a successful write, loading returns exactly the saved list; a failed write leaves the slot as it was |
| ExpenseStore.Appended | src/hooks/useExpenses.ts:21-24 | the old list is an unchanged prefix, followed by exactly one new element: the draft under the given id |
| ExpenseStore.Removed | src/hooks/useExpenses.ts:34 | the list filtered to the entries whose id differs from the deleted one (its members: `RemovedKeepsOthers`) |
| ExpenseStore.Replaced | src/hooks/useExpenses.ts:26-29 | length and ids in order are kept; positions with the updated id hold exactly `e`; every other position is unchanged |
| ExpenseStore.AppendedFreshId | src/hooks/useExpenses.ts:22-23 | with a fresh id, only the new entry carries it, and unique ids stay unique |
| ExpenseStore.ReplacedAbsentId | src/hooks/useExpenses.ts:27-29 | updating with an id no entry carries returns the list unchanged |
| ExpenseStore.ReplacedIdempotent | src/hooks/useExpenses.ts:27-29 | applying the same update twice equals applying it once |
| ExpenseStore.ReplacedKeepsUniqueIds | src/hooks/useExpenses.ts:27-29 | an update keeps unique ids unique |
| ExpenseStore.RemovedAbsentId | src/hooks/useExpenses.ts:34 | deleting an absent id returns the list unchanged |
| ExpenseStore.RemovedIdempotent | src/hooks/useExpenses.ts:34 | deleting twice equals deleting once |
| ExpenseStore.RemovedKeepsOthers | src/hooks/useExpenses.ts:34 | an element remains exactly when it was listed and has a different id |
| ExpenseStore.RemovedUniqueAt | src/hooks/useExpenses.ts:33-35 | with unique ids, deleting the id at position i yields the list with exactly that element cut out, order kept |
| ExpenseStore.RemovedKeepsUniqueIds | src/hooks/useExpenses.ts:33-35 | a delete keeps unique ids unique |
| ExpenseStore.Store.constructor | src/hooks/useExpenses.ts:7 | the store starts with the empty list |
| ExpenseStore.Store.LoadPersisted | src/hooks/useExpenses.ts:9-14 | the mount effect replaces the list by what the slot loads |
| ExpenseStore.Store.Sync | src/hooks/useExpenses.ts:16-19 | the list becomes the given list, and a successful write stores that identical list |
| ExpenseStore.Store.AddExpense | src/hooks/useExpenses.ts:21-24 | the list becomes the old list plus the new entry, and the slot holds the same list; a fresh id keeps ids unique |
| ExpenseStore.Store.UpdateExpense | src/hooks/useExpenses.ts:26-31 | the list becomes the replaced list, mirrored into the slot; unique ids stay unique; an absent id is a no-op |
| ExpenseStore.Store.DeleteExpense | src/hooks/useExpenses.ts:33-36 | the list becomes the filtered list, mirrored into the slot; unique ids stay unique; an absent id is a no-op |
| Dashboard.Total | src/app/components/Dashboard.tsx:27-30 | the total of the empty list is 0 |
| Dashboard.TotalNonNegative | src/app/components/Dashboard.tsx:28 | the total is non-negative when every amount is |
| Dashboard.TotalAppend | src/app/components/Dashboard.tsx:28 | the total of a concatenation is the sum of the two totals |
| Dashboard.TotalRemoveAt | src/app/components/Dashboard.tsx:28 | the total is any one expense's amount plus the total of the list without it |
| Dashboard.TotalPermutation | src/app/components/Dashboard.tsx:28 | the total does not depend on the order of the list |
| Dashboard.TotalPartition | src/app/components/Dashboard.tsx:28 | the totals of the kept and dropped parts of any filter add up to the total |
| Dashboard.InMonthOf | src/app/components/Dashboard.tsx:36-40 | an expense counts toward this month when its parsed date has the month and year of `now`; an unparsable date never does |
| Dashboard.MonthlySpending | src/app/components/Dashboard.tsx:32-43 | the total of the expenses in the current month (bounds: `MonthlyAtMostTotal`) |
| Dashboard.MonthlyAtMostTotal | src/app/components/Dashboard.tsx:32-43 | with non-negative amounts, 0 ≤ this month's spending ≤ the total |
| Dashboard.MonthlyAllCurrent | src/app/components/Dashboard.tsx:34-42 | when every expense falls in the month and year of `now`, this month's spending is the total |
| Dashboard.MonthlyIgnoresInvalid | src/app/components/Dashboard.tsx:36-40 | an expense whose date does not parse adds nothing to this month's spending, wherever it stands in the list |
| Dashboard.CategorySum | src/app/components/Dashboard.tsx:48 | the sum of the amounts of the expenses in one category |
| Dashboard.CategorySumSnoc | src/app/components/Dashboard.tsx:48 | appending an expense adds its amount to its own category's sum only |
| Dashboard.CategorySumAbsent | src/app/components/Dashboard.tsx:56-59 | a category with no expenses sums to 0 |
| Dashboard.CategorySumNonNegative | src/app/components/Dashboard.tsx:56-59 | with non-negative amounts, every category's sum is non-negative |
| Dashboard.Categories | src/app/components/Dashboard.tsx:47-50 | the dictionary's keys: each category present, once, in the order it first occurs |
| Dashboard.CategoriesMember | src/app/components/Dashboard.tsx:56-61 | a category is a key exactly when some expense has it (no zero-filled absent categories) |
| Dashboard.CategoriesDistinct | src/app/components/Dashboard.tsx:56-61 | no category appears twice among the keys |
| Dashboard.CategoriesInFirstOccurrenceOrder | src/app/components/Dashboard.tsx:56-61 | keys appear in the order of each category's first occurrence |
| Dashboard.Tally | src/app/components/Dashboard.tsx:61-64 | one entry per key |
| Dashboard.TallyEntries | src/app/components/Dashboard.tsx:61-64 | entry i holds key i with that category's sum: the entries follow key order |
| Dashboard.TallyAppendKey | src/app/components/Dashboard.tsx:61-64 | a key added at the end adds its category's sum to the tallied values |
| Dashboard.ByCategory | src/app/components/Dashboard.tsx:55-65 | the tally of each present category, in first-occurrence order (its sum: `ByCategorySumsToTotal`) |
| Dashboard.SumValuesAppend | src/app/components/Dashboard.tsx:61-64 | the values of concatenated entry lists add up |
| Dashboard.TallySnoc | src/app/components/Dashboard.tsx:56-59 | over distinct keys, appending an expense adds its amount to the tallied values when its category is a key |
| Dashboard.ByCategorySumsToTotal | src/app/components/Dashboard.tsx:55-65 | the per-category values sum to the total |
| Dashboard.FirstMax | src/app/components/Dashboard.tsx:52 | the chosen entry's value is at least every value, and strictly greater than every earlier one (a stable descending sort's first element) |
| Dashboard.TopOf | src/app/components/Dashboard.tsx:45-53 | there is no top category exactly when the list is empty |
| Dashboard.TopIsEntry | src/app/components/Dashboard.tsx:52 | the top category is the key at the first maximal position, paired with its sum |
| Dashboard.TopCategoryIsMaximal | src/app/components/Dashboard.tsx:47-52 | the top category occurs in the list, its amount is its sum, every category's sum is at most that, and on a tie it is the earliest |
| Dashboard.TopBoundsEveryCategory | src/app/components/Dashboard.tsx:47-52 | with non-negative amounts, the top amount bounds every category's sum, present or not |
| Dashboard.BuildCategorySpending | src/app/components/Dashboard.tsx:56-59 | the loop's dictionary has exactly the categories present, in first-occurrence order, each mapped to its sum |
| Dashboard.AddTo | src/app/components/Dashboard.tsx:47-49 | one reduce step: a new category is appended as a key starting from 0, and the expense's amount is added to its category |
| Dashboard.Accumulate | src/app/components/Dashboard.tsx:56-59 | the reduce as a left fold over the list (its meaning: `AccumulateMeaning`) |
| Dashboard.NewKeySum | src/app/components/Dashboard.tsx:57 | a category that is not yet a key has spent nothing so far, so it starts from 0 |
| Dashboard.AccumulateSnoc | src/app/components/Dashboard.tsx:56-59 | one accumulator step keeps the keys equal to the categories in first-occurrence order and every total equal to its category's sum |
| Dashboard.AccumulateMeaning | src/app/components/Dashboard.tsx:56-59 | after the whole list the dictionary has exactly the categories present, in first-occurrence order, each with its sum |
| Dashboard.EntriesOf | src/app/components/Dashboard.tsx:61 | `Object.entries` lists the keys in insertion order with their values |
| Dashboard.SpendingByCategory | src/app/components/Dashboard.tsx:55-65 | the chart data equals the per-category specification and sums to the total |
| Dashboard.TopCategory | src/app/components/Dashboard.tsx:45-53 | the computed top category equals the specification, and is null exactly for the empty list |
| HomePage.PageKeeps | src/app/page.tsx:24-29 | the category matches or "all" is chosen, and each set bound holds inclusively on the parsed date |
| HomePage.PageFiltered | src/app/page.tsx:22-31 | the expenses the page shows: the list filtered by `PageKeeps`, order kept |
| HomePage.PageFilterKeepsExactly | src/app/page.tsx:22-31 | an expense is shown exactly when it is listed, its category matches or "all" is chosen, and each set bound holds inclusively on a valid date |
| HomePage.PageFilterUnrestricted | src/app/page.tsx:25-28 | "all" with an empty range shows the whole list, in order |
| HomePage.PageFilterBoundsCompose | src/app/page.tsx:27-28 | filtering with both bounds equals filtering by `from` alone and then by `to` alone |
| HomePage.PageFilterDropsInvalidDates | src/app/page.tsx:24-28 | an expense whose date does not parse is dropped whenever a bound is set |
| HomePage.CsvData | src/app/page.tsx:33-41 | one row per filtered expense in order, the date shown locally and every other field kept; no rows when nothing is filtered |
| Seqs.Filter | src/app/page.tsx:23 | a filter result is no longer than its input |
| Seqs.KeptIndices | src/app/page.tsx:23 | the positions a filter keeps are strictly increasing and each passes the predicate |
| Seqs.KeptIndicesCount | src/app/page.tsx:23 | there are as many kept positions as elements in the result |
| Seqs.FilterIsSubsequence | src/app/page.tsx:22-23 | the k-th result element is the input element at the k-th kept position: an order-preserving subsequence |
| Seqs.KeptIndicesComplete | src/app/page.tsx:23 | every position that passes the predicate is kept |
| Seqs.FilterMember | src/app/components/ExportDialog.tsx:52 | an element is in the result exactly when it is listed and passes the predicate |
| Seqs.FilterKeepsAll | src/app/components/ExportDialog.tsx:52 | when every element passes, the result is the input |
| Seqs.FilterDropsAll | src/app/components/Dashboard.tsx:35 | when no element passes, the result is empty |
| Seqs.FilterDropsOnly | src/hooks/useExpenses.ts:34 | when exactly one position fails, the result is the input with that position cut out |
| Seqs.FilterAgree | src/app/components/ExportDialog.tsx:52 | predicates that agree on the list give the same result |
| Seqs.FilterCompose | src/app/page.tsx:23-29 | filtering by p and then q is filtering by their conjunction |
| Seqs.FilterKeepsDistinct | src/app/components/ExportDialog.tsx:172 | filtering a list without duplicates leaves none |
| Seqs.FilterIdempotent | src/hooks/useExpenses.ts:34 | filtering twice by the same predicate is filtering once |
| Seqs.FilterAppend | src/hooks/useExpenses.ts:34 | filtering distributes over concatenation |
| Seqs.Join | src/app/components/ExportDialog.tsx:88-94 | `join` with a one-character separator: the parts with the separator between neighbours (read back by `SplitJoin`) |
| Seqs.JoinMergedField | src/app/components/ExportDialog.tsx:87-91 | a field containing the separator joins to the same text as its two halves as separate fields |
| Seqs.Split | src/app/components/ExportDialog.tsx:88-94 | reading text back by a separator gives at least one field |
| Seqs.SplitAfterField | src/app/components/ExportDialog.tsx:88-94 | a separator-free field followed by the separator reads back as that field first |
| Seqs.SplitNoSeparator | src/app/components/ExportDialog.tsx:88-94 | text without the separator reads back as one field |
| Seqs.SplitJoin | src/app/components/ExportDialog.tsx:88-94 | joining separator-free parts and splitting again gives the parts back |
| Seqs.JoinFree | src/app/components/ExportDialog.tsx:88-94 | joining parts that lack a character (other than the separator) yields text without it |
| ExportDialog.ExportKeeps | src/app/components/ExportDialog.tsx:53-61 | not strictly before the start, not strictly after the end, and selected unless nothing is selected |
| ExportDialog.ExportFiltered | src/app/components/ExportDialog.tsx:51-63 | the dialog's filtered expenses: the list filtered by `ExportKeeps`, order kept |
| ExportDialog.ExportFilterKeepsExactly | src/app/components/ExportDialog.tsx:51-63 | an expense is exported exactly when it is listed, not strictly before the start, not strictly after the end, and selected or nothing is selected |
| ExportDialog.ExportFilterUnrestricted | src/app/components/ExportDialog.tsx:51-63 | no dates and no selection export the whole list, in order |
| ExportDialog.ExportKeepsInvalidDates | src/app/components/ExportDialog.tsx:53-55 | the date bounds never exclude an expense whose date does not parse |
| ExportDialog.AsSelection | src/app/components/ExportDialog.tsx:56-58 | the page's "all" is the empty selection, and one category is the selection holding just it |
| ExportDialog.FiltersAgreeOnValidDates | src/app/components/ExportDialog.tsx:51-63 | on parseable dates and valid bounds, the export filter and the page filter select the same expenses |
| ExportDialog.FiltersDisagreeOnInvalidDate | src/app/components/ExportDialog.tsx:54 | with a start date set, an unparsable date is dropped by the page but kept by the export |
| ExportDialog.Toggle | src/app/components/ExportDialog.tsx:170-175 | a selected category is filtered out; an unselected one is appended (its effect: `ToggleMembers`) |
| ExportDialog.ToggleMembers | src/app/components/ExportDialog.tsx:170-175 | after a toggle, the category is selected exactly when it was not, and every other category keeps its state |
| ExportDialog.ToggleKeepsDistinct | src/app/components/ExportDialog.tsx:171-173 | a duplicate-free selection stays duplicate-free |
| ExportDialog.ToggleTwiceSameMembers | src/app/components/ExportDialog.tsx:171-173 | toggling twice restores which categories are selected |
| ExportDialog.ToggleTwiceUnselected | src/app/components/ExportDialog.tsx:171-173 | toggling an unselected category twice restores the selection exactly |
| ExportDialog.ToggleTwiceSelected | src/app/components/ExportDialog.tsx:171-173 | toggling a selected category twice gives the selection without it, followed by it |
| ExportDialog.ToggleTwiceLast | src/app/components/ExportDialog.tsx:171-173 | a category selected once and in the last place is restored in place by two toggles |
| ExportDialog.ToggleTwiceReorders | src/app/components/ExportDialog.tsx:171-173 | an instance of the reordering: toggling Food twice on `[Food, Bills]` gives `[Bills, Food]` |
| ExportDialog.Preview | src/app/components/ExportDialog.tsx:213 | the preview is the first min(10, n) filtered expenses |
| ExportDialog.Header | src/app/components/ExportDialog.tsx:86 | the four column names joined with commas |
| ExportDialog.RowFields | src/app/components/ExportDialog.tsx:88 | date, category name, amount text and description, in the header's order |
| ExportDialog.CsvRow | src/app/components/ExportDialog.tsx:87-91 | a row's fields joined with commas, unquoted (read back by `CsvRowFields`) |
| ExportDialog.CsvRows | src/app/components/ExportDialog.tsx:87-91 | one row per filtered expense, in order |
| ExportDialog.CsvBody | src/app/components/ExportDialog.tsx:92-94 | the header line and the rows joined with line breaks (read back by `CsvLines`) |
| ExportDialog.CsvUri | src/app/components/ExportDialog.tsx:92-94 | the link starts with the `data:text/csv;charset=utf-8,` prefix |
| ExportDialog.CategoryNamePlain | src/types/index.ts:2 | no category name contains a comma or a line break |
| ExportDialog.CsvRowFields | src/app/components/ExportDialog.tsx:87-91 | a row whose fields have no comma reads back as date, category, amount and description |
| ExportDialog.RowOneLine | src/app/components/ExportDialog.tsx:87-91 | a row whose fields have no line break is a single line |
| ExportDialog.HeaderOneLine | src/app/components/ExportDialog.tsx:86 | the header is a single line |
| ExportDialog.LinesFree | src/app/components/ExportDialog.tsx:86-94 | without line breaks in fields, the header and every row are single lines |
| ExportDialog.CsvLines | src/app/components/ExportDialog.tsx:86-94 | without line breaks in fields, the CSV is the header line followed by one line per expense: n + 1 lines |
| ExportDialog.CsvCommaInDescription | src/app/components/ExportDialog.tsx:87-91 | nothing is quoted: a description `tea, cake` reads back as five columns |
| ExportDialog.ExportOf | src/app/components/ExportDialog.tsx:69-79 | the download's kind is the chosen format, named after `filename` with its extension; the CSV link is the CSV text, the JSON export holds the filtered list, and the PDF has the header names and each expense's row fields |
| ExportDialog.PdfMatchesCsv | src/app/components/ExportDialog.tsx:114-124 | the PDF table's header and rows carry the same cells as the CSV lines |
| ExportDialog.ExportDialogState.constructor | src/app/components/ExportDialog.tsx:43-49 | the dialog starts closed, in CSV format, without dates or categories, named "expenses", not loading |
| ExportDialog.ExportDialogState.SelectCategory | src/app/components/ExportDialog.tsx:170-175 | the selection becomes its toggle, stays duplicate-free, and nothing else changes |
| ExportDialog.ExportDialogState.HandleExport | src/app/components/ExportDialog.tsx:65-68 | the export is marked as loading and the pending callback captures the current format, filename and filtered list; the fields are unchanged |
| ExportDialog.ExportDialogState.CompleteExport | src/app/components/ExportDialog.tsx:68-82 | the download is the export captured at the click, whatever the fields hold now; then loading stops, the dialog closes and nothing is pending |
| ExpenseForm.Message | src/app/components/ExpenseForm.tsx:29-34 | only the description and amount rules carry their own message |
| ExpenseForm.CategoryOf | src/app/components/ExpenseForm.tsx:35 | the chosen category when it is one of the six names, else none |
| ExpenseForm.Issues | src/app/components/ExpenseForm.tsx:28-37 | each rule is broken exactly when its field fails: a description shorter than 2, an amount ≤ 0, a category other than the six, an invalid date |
| ExpenseForm.Validate | src/app/components/ExpenseForm.tsx:28-37 | values are accepted exactly when all four rules hold, and are then carried unchanged; otherwise the failed rules are reported |
| ExpenseForm.Submit | src/app/components/ExpenseForm.tsx:57-61 | the draft carries the description, amount and category unchanged and the date as its ISO text |
| ExpenseForm.Defaults | src/app/components/ExpenseForm.tsx:47-49 | in edit mode the defaults copy the expense's fields, with the date parsed back from its text |
| ExpenseForm.BlankFormRejected | src/app/components/ExpenseForm.tsx:50-54 | a blank form fails on its description, amount and category |
| ExpenseForm.EditUnchangedRoundTrip | src/app/components/ExpenseForm.tsx:47-61 | a valid expense opened for editing and submitted unchanged comes back equal, when its date text survives parsing and re-rendering |
| ExpenseList.EditState.constructor | src/app/components/ExpenseList.tsx:33 | the table starts outside edit mode |
| ExpenseList.EditState.HandleEdit | src/app/components/ExpenseList.tsx:35-37 | the edited expense becomes `e` |
| ExpenseList.EditState.HandleUpdate | src/app/components/ExpenseList.tsx:39-44 | outside edit mode nothing is sent; otherwise the form's fields are sent under the original id and edit mode ends |
| ExpenseList.EditAndSave | src/app/components/ExpenseList.tsx:35-44 | an edit keeps every id in place, replaces the edited row's fields, leaves other rows unchanged and ends edit mode |
| ExpenseList.DeleteActionRemovesRow | src/app/components/ExpenseList.tsx:85 | the delete action removes the row and keeps every row with another id |
| Scenarios.MonthlyExample | src/app/components/Dashboard.tsx:32-43 | in February 2025 the three-expense example spends 130.00 this month |
| Scenarios.ByCategoryExample | src/app/components/Dashboard.tsx:55-65 | the example's chart data is Food 80.00 then Bills 100.00 |
| Scenarios.FoodExample | src/app/components/Dashboard.tsx:56-59 | the example's Food spending is 50.00 + 30.00 |
| Scenarios.BillsExample | src/app/components/Dashboard.tsx:56-59 | the example's Bills spending is 100.00 |
| Scenarios.TopExample | src/app/components/Dashboard.tsx:45-53 | the example's top category is Bills with 100.00 |
| Scenarios.PageFilterExample | src/app/page.tsx:22-31 | Food from 1 February 2025 on is exactly the groceries |
| Scenarios.SelectDuringExport | src/app/components/ExportDialog.tsx:65-82 | selecting Food after the click still exports both expenses, as captured at the click |

## Left out

- **I/O and JSON.** Local storage access and `JSON.parse`/`JSON.stringify` are not modelled. The slot holds an abstract value. A write that throws (quota, serialisation) is the `writable` flag.
- **The window guard.** The `typeof window` check in the load effect concerns server-side rendering and is not modelled. `LoadPersisted` is the effect as it runs in the browser.
- **Persisted items are not checked.** A stored array's elements are taken to be well-formed expenses. The source does not check them either.
- **Numbers.** JavaScript doubles, inexact sums and `toFixed(2)` are not modelled. Amounts are integer cents. The text of an amount in the CSV and PDF is the parameter `amountText`.
- **Dates.** ISO-8601 parsing, time zones, local `getMonth`/`getFullYear`, `toISOString` and `toLocaleDateString` are not modelled. They are the parameters `parse`, `toIso` and `localeDate`. `new Date()` is the parameter `now` or `today`.
- **Id generation.** `crypto.randomUUID` is not modelled. The fresh id is a parameter of `ExpenseStore.Store.AddExpense`.
- ExpenseStore.Store.AddExpense: does not require the id to be fresh. Unique ids are promised only when the supplied id is absent.
- **Export side effects.**
  - The 500 ms `setTimeout` is split into `HandleExport` and `CompleteExport`.
  - `encodeURI` and `encodeURIComponent` are left out: `CsvUri` is the text before encoding.
  - DOM link creation and `click`, jsPDF with autoTable, and the JSON text (`JSON.stringify` with indentation) are left out. `ExportOf` returns what would be downloaded: a name plus the URI, the list, or the table cells.
- **The dialog's plain setters.** The format, filename, date and open-state setters assign a field and are not modelled separately.
- **The export counter.** It shows the filtered list's length, which is `|ExportDialogState.Filtered(...)|` itself.
- **The react-csv link.** Its rendering of `csvData` is not modelled. `HomePage.CsvData` gives the rows it receives.
- **Components without logic.** FilterControls (select and date-picker wiring), CloudExport, MonthlyInsights, Header and the insights page are not part of this model.
- ExpenseForm.Defaults: describes a freshly mounted form. The edit form is rendered without a `key` (src/app/components/ExpenseList.tsx:48-53) and the form library reads `defaultValues` only on mount, so choosing Edit on a second row while the form is open keeps the first row's values; that remount behaviour is not modelled, and `EditUnchangedRoundTrip` likewise assumes a fresh mount.
- **Form handling.** `z.coerce.number` (text-to-number coercion) and `form.reset()` are not modelled. The schema's `min(2)` counts UTF-16 code units; the model counts the characters of the string.
- ExpenseForm.Issues: zod's own messages for the category and date rules are not modelled. Only the two custom messages are given, by `Message`.
- **Rendering.** Markup, charts, tables and formatted currency are not modelled.
