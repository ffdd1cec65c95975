/**
 * The export dialog: its own filter (a set of categories, empty meaning all,
 * and an optional start and end date), the category multi-select, the CSV
 * text, the ten-row preview, and the dialog's state across an export.
 */
module ExportDialog {
  import opened Wrappers
  import opened Dates
  import opened Expenses
  import opened Seqs
  import HomePage

  /**
   * The export filter predicate: not strictly before `start`, not strictly
   * after `end`, and in `selected` unless nothing is selected.
   */
  predicate ExportKeeps(parse: string -> Date, start: Option<Date>, end: Option<Date>, selected: seq<Category>, e: Expense) {
    var d := parse(e.date);
    && !(start.Some? && Before(d, start.value))
    && !(end.Some? && Before(end.value, d))
    && !(|selected| > 0 && e.category !in selected)
  }

  /** `filteredExpenses` of the dialog. */
  function ExportFiltered(s: seq<Expense>, start: Option<Date>, end: Option<Date>, selected: seq<Category>, parse: string -> Date): seq<Expense> {
    Filter(s, (e: Expense) => ExportKeeps(parse, start, end, selected, e))
  }

  /**
   * An expense is exported exactly when it is listed, is not dated strictly
   * before `start` or strictly after `end`, and its category is selected or
   * no category is.
   */
  lemma ExportFilterKeepsExactly(s: seq<Expense>, start: Option<Date>, end: Option<Date>, selected: seq<Category>, parse: string -> Date, e: Expense)
    ensures e in ExportFiltered(s, start, end, selected, parse) <==>
      && e in s
      && (start.Some? ==> !Before(parse(e.date), start.value))
      && (end.Some? ==> !Before(end.value, parse(e.date)))
      && (selected == [] || e.category in selected)
  {
    FilterMember(s, (x: Expense) => ExportKeeps(parse, start, end, selected, x), e);
  }

  /** No dates and no categories selected: every expense is exported, in order. */
  lemma ExportFilterUnrestricted(s: seq<Expense>, parse: string -> Date)
    ensures ExportFiltered(s, None, None, [], parse) == s
  {
    FilterKeepsAll(s, (e: Expense) => ExportKeeps(parse, None, None, [], e));
  }

  /** The date bounds never exclude an expense whose date does not parse. */
  lemma ExportKeepsInvalidDates(s: seq<Expense>, start: Option<Date>, end: Option<Date>, selected: seq<Category>, parse: string -> Date, e: Expense)
    requires e in s && parse(e.date).Invalid?
    ensures e in ExportFiltered(s, start, end, selected, parse) <==> selected == [] || e.category in selected
  {
    ExportFilterKeepsExactly(s, start, end, selected, parse, e);
    if start.Some? {
      InvalidIncomparable(parse(e.date), start.value);
    }
    if end.Some? {
      InvalidIncomparable(parse(e.date), end.value);
    }
  }

  /** The page's category choice as a selection of the dialog: "all" is the empty selection. */
  function AsSelection(choice: HomePage.CategoryChoice): (selected: seq<Category>)
    ensures choice.All? <==> selected == []
    ensures forall c :: c in selected <==> choice.Only? && choice.category == c
  {
    if choice.All? then [] else [choice.category]
  }

  /**
   * On expenses whose dates all parse, and with bounds that are valid dates,
   * the dialog's filter and the page's filter select the same expenses.
   */
  lemma FiltersAgreeOnValidDates(s: seq<Expense>, choice: HomePage.CategoryChoice, range: HomePage.DateRange, parse: string -> Date)
    requires forall i :: 0 <= i < |s| ==> parse(s[i].date).Valid?
    requires range.from.Some? ==> range.from.value.Valid?
    requires range.to.Some? ==> range.to.value.Valid?
    ensures ExportFiltered(s, range.from, range.to, AsSelection(choice), parse) == HomePage.PageFiltered(s, choice, range, parse)
  {
    FilterAgree(s, (e: Expense) => ExportKeeps(parse, range.from, range.to, AsSelection(choice), e),
                   (e: Expense) => HomePage.PageKeeps(parse, choice, range, e));
  }

  /** The two filters part ways on an unparsable date: the page drops it, the export keeps it. */
  lemma FiltersDisagreeOnInvalidDate(e: Expense, from: Date, parse: string -> Date)
    requires parse(e.date).Invalid?
    ensures HomePage.PageFiltered([e], HomePage.All, HomePage.DateRange(Some(from), None), parse) == []
    ensures ExportFiltered([e], Some(from), None, [], parse) == [e]
  {
    HomePage.PageFilterDropsInvalidDates([e], HomePage.All, HomePage.DateRange(Some(from), None), parse, e);
    ExportFilterKeepsExactly([e], Some(from), None, [], parse, e);
  }

  /** The multi-select's `onValueChange`: remove the category if selected, append it otherwise. */
  function Toggle(selected: seq<Category>, c: Category): seq<Category> {
    if c in selected then Filter(selected, (x: Category) => x != c) else selected + [c]
  }

  /** After a toggle the category is selected exactly when it was not; every other category keeps its state. */
  lemma ToggleMembers(selected: seq<Category>, c: Category, x: Category)
    ensures x in Toggle(selected, c) <==> if x == c then c !in selected else x in selected
  {
    if c in selected {
      FilterMember(selected, (y: Category) => y != c, x);
    }
  }

  /** A selection without duplicates stays without duplicates. */
  lemma ToggleKeepsDistinct(selected: seq<Category>, c: Category)
    requires Distinct(selected)
    ensures Distinct(Toggle(selected, c))
  {
    if c in selected {
      FilterKeepsDistinct(selected, (x: Category) => x != c);
    }
  }

  /** Toggling a category twice restores which categories are selected. */
  lemma ToggleTwiceSameMembers(selected: seq<Category>, c: Category, x: Category)
    ensures x in Toggle(Toggle(selected, c), c) <==> x in selected
  {
    ToggleMembers(selected, c, x);
    ToggleMembers(Toggle(selected, c), c, x);
  }

  /** Toggling an unselected category twice restores the selection exactly. */
  lemma ToggleTwiceUnselected(selected: seq<Category>, c: Category)
    requires c !in selected
    ensures Toggle(Toggle(selected, c), c) == selected
  {
    var p := (x: Category) => x != c;
    FilterAppend(selected, [c], p);
    FilterKeepsAll(selected, p);
  }

  /** Toggling a selected category twice removes it and then appends it: it moves to the end. */
  lemma ToggleTwiceSelected(selected: seq<Category>, c: Category)
    requires c in selected
    ensures Toggle(Toggle(selected, c), c) == Filter(selected, (x: Category) => x != c) + [c]
  {
    FilterMember(selected, (x: Category) => x != c, c);
  }

  /** A category selected once, in the last place, comes back where it was after two toggles. */
  lemma ToggleTwiceLast(selected: seq<Category>, c: Category)
    requires Distinct(selected) && selected != [] && selected[|selected| - 1] == c
    ensures Toggle(Toggle(selected, c), c) == selected
  {
    var n := |selected| - 1;
    ToggleTwiceSelected(selected, c);
    FilterDropsOnly(selected, (x: Category) => x != c, n);
    assert selected[..n] + selected[n + 1..] + [c] == selected;
  }

  /** An instance where the order is not restored: `[Food, Bills]` becomes `[Bills, Food]`. */
  lemma ToggleTwiceReorders()
    ensures Toggle(Toggle([Food, Bills], Food), Food) == [Bills, Food]
  {
    ToggleTwiceSelected([Food, Bills], Food);
    assert Filter([Food, Bills], (x: Category) => x != Food) == [Bills] by {
      assert [Food, Bills][1..] == [Bills];
    }
  }

  /** The preview table's row limit. */
  const PreviewLimit := 10

  /** `filteredExpenses.slice(0, 10)` */
  function Preview(filtered: seq<Expense>): (rows: seq<Expense>)
    ensures |rows| == if |filtered| < PreviewLimit then |filtered| else PreviewLimit
    ensures forall i :: 0 <= i < |rows| ==> rows[i] == filtered[i]
  {
    if |filtered| < PreviewLimit then filtered else filtered[..PreviewLimit]
  }

  const HeaderNames: seq<string> := ["Date", "Category", "Amount", "Description"]

  /** `headers.join(",")` */
  function Header(): string {
    Join(HeaderNames, ',')
  }

  /** The fields of one row, in the header's order; the amount rendered by `amountText`. */
  function RowFields(e: Expense, amountText: int -> string): seq<string> {
    [e.date, CategoryName(e.category), amountText(e.amount), e.description]
  }

  /** One CSV row: the four fields joined with commas, with no quoting or escaping. */
  function CsvRow(e: Expense, amountText: int -> string): string {
    Join(RowFields(e, amountText), ',')
  }

  function CsvRows(filtered: seq<Expense>, amountText: int -> string): (rows: seq<string>)
    ensures |rows| == |filtered|
    ensures forall i :: 0 <= i < |rows| ==> rows[i] == CsvRow(filtered[i], amountText)
  {
    seq(|filtered|, i requires 0 <= i < |filtered| => CsvRow(filtered[i], amountText))
  }

  /** `[headers.join(","), ...rows].join("\n")` */
  function CsvBody(filtered: seq<Expense>, amountText: int -> string): string {
    Join([Header()] + CsvRows(filtered, amountText), '\n')
  }

  const CsvUriPrefix := "data:text/csv;charset=utf-8,"

  /** The link target before `encodeURI`. */
  function CsvUri(filtered: seq<Expense>, amountText: int -> string): (uri: string)
    ensures |uri| >= |CsvUriPrefix| && uri[..|CsvUriPrefix|] == CsvUriPrefix
  {
    CsvUriPrefix + CsvBody(filtered, amountText)
  }

  lemma CategoryNamePlain(c: Category)
    ensures ',' !in CategoryName(c) && '\n' !in CategoryName(c)
  {
  }

  /** No field of the row contains `c`. */
  predicate FieldsFree(e: Expense, amountText: int -> string, c: char) {
    c !in e.date && c !in amountText(e.amount) && c !in e.description
  }

  /**
   * A row whose fields contain no comma reads back as exactly its four
   * fields, in the header's order.
   */
  lemma CsvRowFields(e: Expense, amountText: int -> string)
    requires FieldsFree(e, amountText, ',')
    ensures Split(CsvRow(e, amountText), ',') == RowFields(e, amountText)
  {
    CategoryNamePlain(e.category);
    SplitJoin(RowFields(e, amountText), ',');
  }

  /**
   * When no field contains a line break, the CSV text is the header line and
   * then one line per exported expense, in order: n + 1 lines.
   */
  lemma CsvLines(filtered: seq<Expense>, amountText: int -> string)
    requires forall i :: 0 <= i < |filtered| ==> FieldsFree(filtered[i], amountText, '\n')
    ensures Split(CsvBody(filtered, amountText), '\n') == [Header()] + CsvRows(filtered, amountText)
    ensures |Split(CsvBody(filtered, amountText), '\n')| == |filtered| + 1
  {
    var lines := [Header()] + CsvRows(filtered, amountText);
    LinesFree(filtered, amountText);
    SplitJoin(lines, '\n');
  }

  /** The header and every row are single lines. */
  lemma LinesFree(filtered: seq<Expense>, amountText: int -> string)
    requires forall i :: 0 <= i < |filtered| ==> FieldsFree(filtered[i], amountText, '\n')
    ensures forall i :: 0 <= i < |filtered| + 1 ==> '\n' !in ([Header()] + CsvRows(filtered, amountText))[i]
  {
    var rows := CsvRows(filtered, amountText);
    var lines := [Header()] + rows;
    HeaderOneLine();
    forall i | 0 <= i < |lines| ensures '\n' !in lines[i] {
      if i > 0 {
        assert lines[i] == rows[i - 1];
        RowOneLine(filtered[i - 1], amountText);
      }
    }
  }

  lemma HeaderOneLine()
    ensures '\n' !in Header()
  {
    JoinFree(HeaderNames, ',', '\n');
  }

  /** A row whose fields hold no line break is a single line. */
  lemma RowOneLine(e: Expense, amountText: int -> string)
    requires FieldsFree(e, amountText, '\n')
    ensures '\n' !in CsvRow(e, amountText)
  {
    CategoryNamePlain(e.category);
    JoinFree(RowFields(e, amountText), ',', '\n');
  }

  /** Because nothing is quoted, a comma in a description adds a column: the row no longer reads back. */
  lemma CsvCommaInDescription(e: Expense, amountText: int -> string)
    requires e.date == "2025-02-05" && e.category == Food && amountText(e.amount) == "30" && e.description == "tea, cake"
    ensures Split(CsvRow(e, amountText), ',') == ["2025-02-05", "Food", "30", "tea", " cake"]
  {
    var front := ["2025-02-05", "Food", "30"];
    SplitJoin(front + ["tea", " cake"], ',');
    assert RowFields(e, amountText) == front + ["tea, cake"];
    assert "tea" + [','] + " cake" == "tea, cake";
    JoinMergedField(front, "tea", " cake", ',');
  }

  datatype Format = Csv | Json | Pdf

  /** What the export leaves for the browser to download. */
  datatype Download =
    | CsvFile(name: string, uri: string)
    | JsonFile(name: string, items: seq<Expense>)
    | PdfFile(name: string, head: seq<string>, body: seq<seq<string>>)

  /** The export in the chosen format of the filtered expenses, under `filename` with its extension. */
  function ExportOf(format: Format, filename: string, filtered: seq<Expense>, amountText: int -> string): (d: Download)
    ensures d.CsvFile? <==> format == Csv
    ensures d.JsonFile? <==> format == Json
    ensures d.PdfFile? <==> format == Pdf
    ensures d.CsvFile? ==> d.name == filename + ".csv" && d.uri == CsvUri(filtered, amountText)
    ensures d.JsonFile? ==> d.name == filename + ".json" && d.items == filtered
    ensures d.PdfFile? ==> d.name == filename + ".pdf" && d.head == HeaderNames && |d.body| == |filtered|
    ensures d.PdfFile? ==> forall i :: 0 <= i < |filtered| ==> d.body[i] == RowFields(filtered[i], amountText)
  {
    match format
    case Csv => CsvFile(filename + ".csv", CsvUri(filtered, amountText))
    case Json => JsonFile(filename + ".json", filtered)
    case Pdf =>
      PdfFile(filename + ".pdf", HeaderNames,
              seq(|filtered|, i requires 0 <= i < |filtered| => RowFields(filtered[i], amountText)))
  }

  /** The PDF table holds the same cells as the CSV text: its rows joined with commas are the CSV rows. */
  lemma PdfMatchesCsv(filename: string, filtered: seq<Expense>, amountText: int -> string)
    ensures var d := ExportOf(Pdf, filename, filtered, amountText);
      Join(d.head, ',') == Header()
      && forall i :: 0 <= i < |filtered| ==> Join(d.body[i], ',') == CsvRows(filtered, amountText)[i]
  {
  }

  /**
   * What the scheduled callback closes over when Export is clicked: that
   * render's format, filename and filtered expenses.
   */
  datatype PendingExport = PendingExport(format: Format, filename: string, filtered: seq<Expense>)

  /** The dialog's state fields, and the export scheduled but not yet run. */
  class ExportDialogState {
    var isOpen: bool
    var format: Format
    var startDate: Option<Date>
    var endDate: Option<Date>
    var selected: seq<Category>
    var filename: string
    var isLoading: bool
    var pending: Option<PendingExport>

    constructor ()
      ensures !isOpen && format == Csv && startDate == None && endDate == None
      ensures selected == [] && filename == "expenses" && !isLoading && pending == None
    {
      isOpen, format, startDate, endDate := false, Csv, None, None;
      selected, filename, isLoading, pending := [], "expenses", false, None;
    }

    /** The expenses the dialog would export now. */
    function Filtered(expenses: seq<Expense>, parse: string -> Date): seq<Expense>
      reads this
    {
      ExportFiltered(expenses, startDate, endDate, selected, parse)
    }

    /** Choosing a category in the multi-select toggles it; nothing else changes. */
    method SelectCategory(c: Category)
      modifies this
      ensures selected == Toggle(old(selected), c)
      ensures Distinct(old(selected)) ==> Distinct(selected)
      ensures isOpen == old(isOpen) && format == old(format) && filename == old(filename)
      ensures startDate == old(startDate) && endDate == old(endDate) && isLoading == old(isLoading)
      ensures pending == old(pending)
    {
      if Distinct(selected) {
        ToggleKeepsDistinct(selected, c);
      }
      selected := Toggle(selected, c);
    }

    /**
     * `handleExport` (reachable only while not loading, as the button is
     * disabled meanwhile): marks the export as in progress and schedules a
     * callback over this render's format, filename and filtered expenses.
     */
    method HandleExport(expenses: seq<Expense>, parse: string -> Date)
      requires !isLoading
      modifies this
      ensures isLoading
      ensures pending == Some(PendingExport(old(format), old(filename), old(Filtered(expenses, parse))))
      ensures isOpen == old(isOpen) && format == old(format) && filename == old(filename)
      ensures startDate == old(startDate) && endDate == old(endDate) && selected == old(selected)
    {
      pending := Some(PendingExport(format, filename, Filtered(expenses, parse)));
      isLoading := true;
    }

    /**
     * The scheduled callback: produces the download captured at the click,
     * whatever the fields hold now, then stops loading and closes the dialog.
     */
    method CompleteExport(amountText: int -> string) returns (d: Download)
      requires pending.Some?
      modifies this
      ensures d == ExportOf(old(pending).value.format, old(pending).value.filename, old(pending).value.filtered, amountText)
      ensures !isLoading && !isOpen && pending == None
      ensures format == old(format) && filename == old(filename)
      ensures startDate == old(startDate) && endDate == old(endDate) && selected == old(selected)
    {
      var job := pending.value;
      d := ExportOf(job.format, job.filename, job.filtered, amountText);
      isLoading, isOpen, pending := false, false, None;
    }
  }
}
