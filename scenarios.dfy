/**
 * A three-expense worked example: two months, two categories; and an export
 * whose category selection changes while it is pending.
 */
module Scenarios {
  import opened Wrappers
  import opened Seqs
  import opened Dates
  import opened Expenses
  import opened Dashboard
  import opened HomePage
  import ExportDialog

  const DayMs := 86_400_000

  /** A date parser that knows the example's three dates (local midnight) and the filter bound. */
  function ExampleParse(text: string): Date {
    if text == "2025-01-10" then Valid(2025, 0, 9 * DayMs)
    else if text == "2025-02-05" then Valid(2025, 1, 4 * DayMs)
    else if text == "2025-02-20" then Valid(2025, 1, 19 * DayMs)
    else Invalid
  }

  const Lunch := Expense("a", "2025-01-10", 5000, Food, "Lunch")
  const Groceries := Expense("b", "2025-02-05", 3000, Food, "Groceries")
  const Power := Expense("c", "2025-02-20", 10000, Bills, "Power")

  /** In February 2025 the month's spending is 130.00: the January lunch does not count. */
  lemma MonthlyExample()
    ensures MonthlySpending([Lunch, Groceries, Power], ExampleParse, Valid(2025, 1, 14 * DayMs)) == 13000
  {
    var s := [Lunch, Groceries, Power];
    var now := Valid(2025, 1, 14 * DayMs);
    var p := (e: Expense) => InMonthOf(ExampleParse, now, e);
    assert Filter([Power], p) == [Power] by {
      assert [Power][1..] == [];
    }
    assert Filter([Groceries, Power], p) == [Groceries, Power] by {
      assert [Groceries, Power][1..] == [Power];
    }
    assert Filter(s, p) == [Groceries, Power] by {
      assert s[1..] == [Groceries, Power];
    }
    assert Total([Groceries, Power]) == 13000 by {
      assert [Groceries, Power][1..] == [Power] && [Power][1..] == [];
    }
  }

  /** The chart's groups: Food (80.00) first, as it occurs first, then Bills (100.00). */
  lemma ByCategoryExample()
    ensures ByCategory([Lunch, Groceries, Power]) == [(Food, 8000), (Bills, 10000)]
  {
    var s := [Lunch, Groceries, Power];
    assert [] + [Lunch] == [Lunch] && [Lunch] + [Groceries] == [Lunch, Groceries] && [Lunch, Groceries] + [Power] == s;
    CategoriesSnoc([], Lunch);
    CategoriesSnoc([Lunch], Groceries);
    CategoriesSnoc([Lunch, Groceries], Power);
    assert Categories(s) == [Food, Bills];
    TallyEntries(Categories(s), s);
    FoodExample();
    BillsExample();
  }

  /** Food: 50.00 + 30.00. */
  lemma FoodExample()
    ensures CategorySum([Lunch, Groceries, Power], Food) == 8000
  {
    assert [] + [Lunch] == [Lunch] && [Lunch] + [Groceries] == [Lunch, Groceries];
    assert [Lunch, Groceries] + [Power] == [Lunch, Groceries, Power];
    assert CategorySum([], Food) == 0;
    CategorySumSnoc([], Lunch, Food);
    CategorySumSnoc([Lunch], Groceries, Food);
    CategorySumSnoc([Lunch, Groceries], Power, Food);
  }

  /** Bills: 100.00. */
  lemma BillsExample()
    ensures CategorySum([Lunch, Groceries, Power], Bills) == 10000
  {
    assert [] + [Lunch] == [Lunch] && [Lunch] + [Groceries] == [Lunch, Groceries];
    assert [Lunch, Groceries] + [Power] == [Lunch, Groceries, Power];
    assert CategorySum([], Bills) == 0;
    CategorySumSnoc([], Lunch, Bills);
    CategorySumSnoc([Lunch], Groceries, Bills);
    CategorySumSnoc([Lunch, Groceries], Power, Bills);
  }

  /** The top category is Bills with 100.00, although Food has more expenses. */
  lemma TopExample()
    ensures TopOf([Lunch, Groceries, Power]) == Some((Bills, 10000))
  {
    ByCategoryExample();
    var entries := [(Food, 8000), (Bills, 10000)];
    assert entries[..1] == [(Food, 8000)];
    assert FirstMax(entries) == 1;
  }

  /** Food from 1 February 2025 onwards is exactly the groceries. */
  lemma PageFilterExample()
    ensures PageFiltered([Lunch, Groceries, Power], Only(Food), DateRange(Some(Valid(2025, 1, 0)), None), ExampleParse)
         == [Groceries]
  {
    var s := [Lunch, Groceries, Power];
    var p := (e: Expense) => PageKeeps(ExampleParse, Only(Food), DateRange(Some(Valid(2025, 1, 0)), None), e);
    assert Filter([Power], p) == [] by {
      assert [Power][1..] == [];
    }
    assert Filter([Groceries, Power], p) == [Groceries] by {
      assert [Groceries, Power][1..] == [Power];
    }
    assert Filter(s, p) == [Groceries] by {
      assert s[1..] == [Groceries, Power];
    }
  }

  /**
   * Export is clicked with nothing selected, then Food is selected before the
   * callback runs: both expenses are still exported, as captured at the click.
   */
  method SelectDuringExport(parse: string -> Date, amountText: int -> string) returns (d: ExportDialog.Download)
    ensures d == ExportDialog.ExportOf(ExportDialog.Csv, "expenses", [Lunch, Power], amountText)
  {
    var dialog := new ExportDialog.ExportDialogState();
    dialog.HandleExport([Lunch, Power], parse);
    dialog.SelectCategory(Food);
    d := dialog.CompleteExport(amountText);
    ExportDialog.ExportFilterUnrestricted([Lunch, Power], parse);
  }
}
