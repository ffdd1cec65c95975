/**
 * The entry form: the validation schema the submitted values must pass, the
 * mapping from validated values to an id-less draft, and the values the form
 * starts from (blank, or copied from the expense being edited).
 */
module ExpenseForm {
  import opened Wrappers
  import opened Dates
  import opened Expenses

  /** The form's raw values; the category select starts out unset. */
  datatype FormValues = FormValues(description: string, amount: int, category: Option<string>, date: Date)

  /** One failed rule of the schema, in the schema's field order. */
  datatype Issue = DescriptionTooShort | AmountNotPositive | CategoryNotAllowed | DateInvalid

  /** Values that passed the schema: the category is one of the six, the date a real date. */
  datatype Entry = Entry(description: string, amount: int, category: Category, date: Date)

  const MinDescriptionLength := 2

  /** The messages the schema attaches to its two custom rules (the others use the library's default). */
  function Message(issue: Issue): (m: Option<string>)
    ensures m.Some? <==> issue == DescriptionTooShort || issue == AmountNotPositive
  {
    match issue
    case DescriptionTooShort => Some("Description must be at least 2 characters.")
    case AmountNotPositive => Some("Amount must be a positive number.")
    case _ => None
  }

  /** `z.enum([...])`: the category value, when it is one of the six names. */
  function CategoryOf(v: FormValues): Option<Category> {
    if v.category.None? then None else ParseCategory(v.category.value)
  }

  /** Every rule the values break, field by field. */
  function Issues(v: FormValues): (issues: seq<Issue>)
    ensures DescriptionTooShort in issues <==> |v.description| < MinDescriptionLength
    ensures AmountNotPositive in issues <==> v.amount <= 0
    ensures CategoryNotAllowed in issues <==> CategoryOf(v).None?
    ensures DateInvalid in issues <==> v.date.Invalid?
  {
    (if |v.description| < MinDescriptionLength then [DescriptionTooShort] else [])
    + (if v.amount <= 0 then [AmountNotPositive] else [])
    + (if CategoryOf(v).None? then [CategoryNotAllowed] else [])
    + (if v.date.Invalid? then [DateInvalid] else [])
  }

  /**
   * `formSchema` applied to the values: accepted exactly when the description
   * has at least two characters, the amount is positive, the category is one
   * of the six and the date is valid; the accepted values are carried unchanged.
   */
  function Validate(v: FormValues): (r: Result<Entry, seq<Issue>>)
    ensures r.Ok? <==> |v.description| >= 2 && v.amount > 0 && CategoryOf(v).Some? && v.date.Valid?
    ensures r.Ok? ==> r.value.description == v.description && r.value.amount == v.amount
                      && Some(CategoryName(r.value.category)) == v.category && r.value.date == v.date
    ensures r.Err? ==> r.error == Issues(v) && r.error != []
  {
    var issues := Issues(v);
    if issues == [] then Ok(Entry(v.description, v.amount, CategoryOf(v).value, v.date))
    else Err(issues)
  }

  /** `handleSubmit`: the validated values as a draft, the date rendered by `toIso` and no id. */
  function Submit(entry: Entry, toIso: Date -> string): (d: Draft)
    ensures d.description == entry.description && d.amount == entry.amount && d.category == entry.category
    ensures d.date == toIso(entry.date)
  {
    Draft(toIso(entry.date), entry.amount, entry.category, entry.description)
  }

  /**
   * `defaultValues`: in edit mode the expense's fields with its date parsed
   * back by `parse`; otherwise an empty description, a zero amount, no
   * category and `today`.
   */
  function Defaults(editing: Option<Expense>, parse: string -> Date, today: Date): (v: FormValues)
    ensures editing.Some? ==> v == FormValues(editing.value.description, editing.value.amount,
                                              Some(CategoryName(editing.value.category)), parse(editing.value.date))
  {
    match editing
    case Some(e) => FormValues(e.description, e.amount, Some(CategoryName(e.category)), parse(e.date))
    case None => FormValues("", 0, None, today)
  }

  /** A blank form is rejected as it stands: its description, amount and category all fail. */
  lemma BlankFormRejected(parse: string -> Date, today: Date)
    ensures var r := Validate(Defaults(None, parse, today));
      r.Err? && DescriptionTooShort in r.error && AmountNotPositive in r.error && CategoryNotAllowed in r.error
  {
  }

  /**
   * Opening a valid expense for editing and submitting it unchanged gives back
   * the same expense, provided its stored date text survives parsing and
   * re-rendering.
   */
  lemma EditUnchangedRoundTrip(e: Expense, parse: string -> Date, toIso: Date -> string, today: Date)
    requires |e.description| >= MinDescriptionLength && e.amount > 0
    requires parse(e.date).Valid? && toIso(parse(e.date)) == e.date
    ensures Validate(Defaults(Some(e), parse, today)).Ok?
    ensures WithId(Submit(Validate(Defaults(Some(e), parse, today)).value, toIso), e.id) == e
  {
    ParseCategoryName(e.category);
  }
}
