/**
 * The dashboard's four figures over a list of expenses: the total, the
 * current month's total, the spending per category (a dictionary built by a
 * reduce whose keys keep their insertion order), and the top category.
 */
module Dashboard {
  import opened Wrappers
  import opened Dates
  import opened Expenses
  import opened Seqs

  /** `expenses.reduce((acc, e) => acc + e.amount, 0)` */
  function Total(s: seq<Expense>): (t: int)
    ensures s == [] ==> t == 0
  {
    if s == [] then 0 else s[0].amount + Total(s[1..])
  }

  /** With no negative amounts the total is not negative. */
  lemma {:induction false} TotalNonNegative(s: seq<Expense>)
    requires forall i :: 0 <= i < |s| ==> s[i].amount >= 0
    ensures Total(s) >= 0
  {
    if s != [] {
      assert forall i :: 0 <= i < |s| - 1 ==> s[1..][i] == s[i + 1];
      TotalNonNegative(s[1..]);
    }
  }

  lemma {:induction false} TotalAppend(a: seq<Expense>, b: seq<Expense>)
    ensures Total(a + b) == Total(a) + Total(b)
  {
    if a != [] {
      assert (a + b)[0] == a[0] && (a + b)[1..] == a[1..] + b;
      TotalAppend(a[1..], b);
    } else {
      assert a + b == b;
    }
  }

  /** The total does not depend on the order of the list: every element counts exactly once. */
  lemma {:induction false} TotalPermutation(a: seq<Expense>, b: seq<Expense>)
    requires multiset(a) == multiset(b)
    ensures Total(a) == Total(b)
  {
    if a != [] {
      assert a[0] in multiset(b);
      var k :| 0 <= k < |b| && b[k] == a[0];
      var rest := b[..k] + b[k + 1..];
      MultisetRemoveAt(b, k);
      assert a == [a[0]] + a[1..];
      assert multiset(a[1..]) == multiset(a) - multiset{a[0]};
      TotalPermutation(a[1..], rest);
      TotalRemoveAt(b, k);
    }
  }

  /** Cutting out position `k` removes one occurrence of `b[k]`. */
  lemma MultisetRemoveAt(b: seq<Expense>, k: nat)
    requires k < |b|
    ensures multiset(b[..k] + b[k + 1..]) == multiset(b) - multiset{b[k]}
  {
    assert b == b[..k] + [b[k]] + b[k + 1..];
  }

  /** Cutting out position `k` lowers the total by that expense's amount. */
  lemma TotalRemoveAt(b: seq<Expense>, k: nat)
    requires k < |b|
    ensures Total(b) == b[k].amount + Total(b[..k] + b[k + 1..])
  {
    var pre, post := b[..k], b[k + 1..];
    var tail := [b[k]] + post;
    assert b == pre + tail;
    TotalAppend(pre, tail);
    assert tail[1..] == post;
    TotalAppend(pre, post);
  }

  /** Splitting a list by a predicate splits its total. */
  lemma {:induction false} TotalPartition(s: seq<Expense>, p: Expense -> bool)
    ensures Total(Filter(s, p)) + Total(Filter(s, (e: Expense) => !p(e))) == Total(s)
  {
    if s != [] {
      TotalPartition(s[1..], p);
      var q := (e: Expense) => !p(e);
      var head := if p(s[0]) then [s[0]] else [];
      var headNot := if q(s[0]) then [s[0]] else [];
      TotalAppend(head, Filter(s[1..], p));
      TotalAppend(headNot, Filter(s[1..], q));
    }
  }

  /** `new Date(e.date)` falls in the same local month and year as `now`. */
  predicate InMonthOf(parse: string -> Date, now: Date, e: Expense) {
    SameMonth(parse(e.date), now)
  }

  /** The current month's spending: the total over expenses dated in `now`'s month and year. */
  function MonthlySpending(s: seq<Expense>, parse: string -> Date, now: Date): int {
    Total(Filter(s, (e: Expense) => InMonthOf(parse, now, e)))
  }

  /** With no negative amounts, the month's spending never exceeds the total. */
  lemma MonthlyAtMostTotal(s: seq<Expense>, parse: string -> Date, now: Date)
    requires forall i :: 0 <= i < |s| ==> s[i].amount >= 0
    ensures 0 <= MonthlySpending(s, parse, now) <= Total(s)
  {
    var p := (e: Expense) => InMonthOf(parse, now, e);
    var rest := Filter(s, (e: Expense) => !p(e));
    TotalPartition(s, p);
    forall i | 0 <= i < |rest| ensures rest[i].amount >= 0 {
      FilterMember(s, (e: Expense) => !p(e), rest[i]);
    }
    var mine := Filter(s, p);
    forall i | 0 <= i < |mine| ensures mine[i].amount >= 0 {
      FilterMember(s, p, mine[i]);
    }
    TotalNonNegative(rest);
    TotalNonNegative(mine);
  }

  /** When every expense is dated in `now`'s month, the month's spending is the total. */
  lemma MonthlyAllCurrent(s: seq<Expense>, parse: string -> Date, now: Date)
    requires forall i :: 0 <= i < |s| ==> SameMonth(parse(s[i].date), now)
    ensures MonthlySpending(s, parse, now) == Total(s)
  {
    FilterKeepsAll(s, (e: Expense) => InMonthOf(parse, now, e));
  }

  /**
   * An expense whose date does not parse never counts towards the month:
   * wherever it stands in the list, it adds nothing to the month's spending.
   */
  lemma MonthlyIgnoresInvalid(a: seq<Expense>, e: Expense, b: seq<Expense>, parse: string -> Date, now: Date)
    requires parse(e.date).Invalid?
    ensures MonthlySpending(a + [e] + b, parse, now) == MonthlySpending(a + b, parse, now)
  {
    var p := (x: Expense) => InMonthOf(parse, now, x);
    InvalidIncomparable(parse(e.date), now);
    assert Filter([e], p) == [];
    FilterAppend(a + [e], b, p);
    FilterAppend(a, [e], p);
    FilterAppend(a, b, p);
    assert Filter(a, p) + [] == Filter(a, p);
  }

  /** The spending of one category: the total over that category's expenses. */
  function CategorySum(s: seq<Expense>, c: Category): int {
    Total(Filter(s, (e: Expense) => e.category == c))
  }

  lemma CategorySumSnoc(s: seq<Expense>, e: Expense, c: Category)
    ensures CategorySum(s + [e], c) == CategorySum(s, c) + (if e.category == c then e.amount else 0)
  {
    var p := (x: Expense) => x.category == c;
    FilterAppend(s, [e], p);
    TotalAppend(Filter(s, p), Filter([e], p));
  }

  lemma CategorySumAbsent(s: seq<Expense>, c: Category)
    requires forall i :: 0 <= i < |s| ==> s[i].category != c
    ensures CategorySum(s, c) == 0
  {
    FilterDropsAll(s, (e: Expense) => e.category == c);
  }

  lemma CategorySumNonNegative(s: seq<Expense>, c: Category)
    requires forall i :: 0 <= i < |s| ==> s[i].amount >= 0
    ensures CategorySum(s, c) >= 0
  {
    var p := (e: Expense) => e.category == c;
    var f := Filter(s, p);
    forall i | 0 <= i < |f| ensures f[i].amount >= 0 {
      FilterMember(s, p, f[i]);
    }
    TotalNonNegative(f);
  }

  /**
   * The keys of the reduce's dictionary, in insertion order: each category
   * present, once, placed where it first occurs.
   */
  function Categories(s: seq<Expense>): seq<Category> {
    if s == [] then []
    else
      var init := Categories(s[..|s| - 1]);
      var c := s[|s| - 1].category;
      if c in init then init else init + [c]
  }

  lemma CategoriesSnoc(s: seq<Expense>, e: Expense)
    ensures Categories(s + [e])
         == if e.category in Categories(s) then Categories(s) else Categories(s) + [e.category]
  {
    assert (s + [e])[..|s|] == s;
  }

  /** A category is a key exactly when some expense has it. */
  lemma {:induction false} CategoriesMember(s: seq<Expense>, c: Category)
    ensures c in Categories(s) <==> exists i :: 0 <= i < |s| && s[i].category == c
  {
    if s != [] {
      var init := s[..|s| - 1];
      CategoriesMember(init, c);
      if exists i :: 0 <= i < |s| && s[i].category == c {
        var i :| 0 <= i < |s| && s[i].category == c;
        if i < |s| - 1 {
          assert init[i] == s[i];
        }
      }
      if exists i :: 0 <= i < |init| && init[i].category == c {
        var i :| 0 <= i < |init| && init[i].category == c;
        assert s[i] == init[i];
      }
    }
  }

  /** No category is a key twice. */
  lemma {:induction false} CategoriesDistinct(s: seq<Expense>)
    ensures Distinct(Categories(s))
  {
    if s != [] {
      var init := s[..|s| - 1];
      CategoriesDistinct(init);
      assert s == init + [s[|s| - 1]];
      CategoriesSnoc(init, s[|s| - 1]);
    }
  }

  /** Categories are listed in order of first occurrence: an earlier key occurs before any later key does. */
  lemma {:induction false} CategoriesInFirstOccurrenceOrder(s: seq<Expense>, a: nat, b: nat, j: nat)
    requires a < b < |Categories(s)| && j < |s| && s[j].category == Categories(s)[b]
    ensures exists i :: 0 <= i < j && s[i].category == Categories(s)[a]
  {
    var init, e := s[..|s| - 1], s[|s| - 1];
    assert s == init + [e];
    CategoriesSnoc(init, e);
    var keys := Categories(init);
    if b < |keys| {
      if j < |s| - 1 {
        assert init[j] == s[j];
        CategoriesInFirstOccurrenceOrder(init, a, b, j);
        var i :| 0 <= i < j && init[i].category == keys[a];
        assert s[i] == init[i];
      } else {
        assert keys[b] in keys;
        CategoriesMember(init, keys[b]);
        var j' :| 0 <= j' < |init| && init[j'].category == keys[b];
        CategoriesInFirstOccurrenceOrder(init, a, b, j');
        var i :| 0 <= i < j' && init[i].category == keys[a];
        assert s[i] == init[i];
      }
    } else {
      // the last key is new, so it occurs only at the last position
      CategoriesMember(init, e.category);
      assert keys[a] in keys;
      CategoriesMember(init, keys[a]);
      var i :| 0 <= i < |init| && init[i].category == keys[a];
      assert s[i] == init[i];
    }
  }

  /** `Object.entries` of the dictionary: each key with its category's spending, in key order. */
  function Tally(keys: seq<Category>, s: seq<Expense>): (entries: seq<(Category, int)>)
    ensures |entries| == |keys|
  {
    if keys == [] then [] else [(keys[0], CategorySum(s, keys[0]))] + Tally(keys[1..], s)
  }

  /** Entry i pairs key i with that category's spending. */
  lemma {:induction false} TallyEntries(keys: seq<Category>, s: seq<Expense>)
    ensures forall i :: 0 <= i < |keys| ==> Tally(keys, s)[i] == (keys[i], CategorySum(s, keys[i]))
  {
    if keys != [] {
      TallyEntries(keys[1..], s);
    }
  }

  /** `spendingByCategory`: one entry per category present, in first-occurrence order. */
  function ByCategory(s: seq<Expense>): seq<(Category, int)> {
    Tally(Categories(s), s)
  }

  function SumValues(entries: seq<(Category, int)>): int {
    if entries == [] then 0 else entries[0].1 + SumValues(entries[1..])
  }

  lemma {:induction false} SumValuesAppend(a: seq<(Category, int)>, b: seq<(Category, int)>)
    ensures SumValues(a + b) == SumValues(a) + SumValues(b)
  {
    if a != [] {
      assert (a + b)[0] == a[0] && (a + b)[1..] == a[1..] + b;
      SumValuesAppend(a[1..], b);
    } else {
      assert a + b == b;
    }
  }

  lemma SumValuesCons(x: (Category, int), rest: seq<(Category, int)>)
    ensures SumValues([x] + rest) == x.1 + SumValues(rest)
  {
    assert ([x] + rest)[1..] == rest;
  }

  lemma {:induction false} TallySnoc(keys: seq<Category>, s: seq<Expense>, e: Expense)
    requires Distinct(keys)
    ensures SumValues(Tally(keys, s + [e]))
         == SumValues(Tally(keys, s)) + (if e.category in keys then e.amount else 0)
  {
    if keys != [] {
      var k, rest := keys[0], keys[1..];
      DistinctTail(keys);
      TallySnoc(rest, s, e);
      CategorySumSnoc(s, e, k);
      SumValuesCons((k, CategorySum(s + [e], k)), Tally(rest, s + [e]));
      SumValuesCons((k, CategorySum(s, k)), Tally(rest, s));
      assert e.category in keys <==> e.category == k || e.category in rest by {
        assert keys == [k] + rest;
      }
    }
  }

  /** The first key of a duplicate-free sequence does not recur, and the rest is duplicate-free. */
  lemma DistinctTail(keys: seq<Category>)
    requires Distinct(keys) && keys != []
    ensures Distinct(keys[1..]) && keys[0] !in keys[1..]
  {
  }

  /** The per-category entries add up to the total spending. */
  lemma {:induction false} ByCategorySumsToTotal(s: seq<Expense>)
    ensures SumValues(ByCategory(s)) == Total(s)
  {
    if s != [] {
      var init, e := s[..|s| - 1], s[|s| - 1];
      assert s == init + [e];
      ByCategorySumsToTotal(init);
      TotalAppend(init, [e]);
      var keys := Categories(init);
      CategoriesDistinct(init);
      CategoriesSnoc(init, e);
      TallySnoc(keys, init, e);
      if e.category !in keys {
        CategoriesMember(init, e.category);
        CategorySumAbsent(init, e.category);
        CategorySumSnoc(init, e, e.category);
        TallyAppendKey(keys, s, e.category);
      }
    }
  }

  /** A key added at the end contributes its category's spending. */
  lemma TallyAppendKey(keys: seq<Category>, s: seq<Expense>, c: Category)
    ensures SumValues(Tally(keys + [c], s)) == SumValues(Tally(keys, s)) + CategorySum(s, c)
  {
    var last := [(c, CategorySum(s, c))];
    TallyEntries(keys + [c], s);
    TallyEntries(keys, s);
    assert Tally(keys + [c], s) == Tally(keys, s) + last;
    SumValuesAppend(Tally(keys, s), last);
    assert last[1..] == [];
  }

  /**
   * The stable descending sort's first element: the earliest entry whose amount
   * is at least every other amount.
   */
  function FirstMax(entries: seq<(Category, int)>): (j: nat)
    requires |entries| > 0
    ensures j < |entries|
    ensures forall i :: 0 <= i < |entries| ==> entries[i].1 <= entries[j].1
    ensures forall i :: 0 <= i < j ==> entries[i].1 < entries[j].1
  {
    if |entries| == 1 then 0
    else
      var j := FirstMax(entries[..|entries| - 1]);
      assert forall i :: 0 <= i < |entries| - 1 ==> entries[..|entries| - 1][i] == entries[i];
      if entries[|entries| - 1].1 > entries[j].1 then |entries| - 1 else j
  }

  /** `topCategory`: nothing for an empty list, else the head of the entries sorted by descending amount. */
  function TopOf(s: seq<Expense>): (top: Option<(Category, int)>)
    ensures top.None? <==> s == []
  {
    if s == [] then None
    else
      CategoriesMember(s, s[0].category);
      var entries := ByCategory(s);
      Some(entries[FirstMax(entries)])
  }

  /**
   * For a non-empty list the top category is present in the list, carries its
   * spending, and no present category's spending exceeds it; of several
   * maximal categories the one that occurs first wins.
   */
  lemma TopCategoryIsMaximal(s: seq<Expense>)
    requires s != []
    ensures var (c, v) := TopOf(s).value;
      && (exists i :: 0 <= i < |s| && s[i].category == c)
      && v == CategorySum(s, c)
      && (forall k :: 0 <= k < |s| ==> CategorySum(s, s[k].category) <= v)
      && (forall i :: 0 <= i < |Categories(s)| && Categories(s)[i] == c ==>
            forall k :: 0 <= k < i ==> CategorySum(s, Categories(s)[k]) < v)
  {
    var keys := Categories(s);
    var entries := ByCategory(s);
    var j := FirstMax(entries);
    TallyEntries(keys, s);
    TopIsEntry(s);
    var (c, v) := TopOf(s).value;
    CategoriesMember(s, c);
    forall k | 0 <= k < |s| ensures CategorySum(s, s[k].category) <= v {
      CategoriesMember(s, s[k].category);
      var m :| 0 <= m < |keys| && keys[m] == s[k].category;
      assert entries[m].1 <= entries[j].1;
    }
    CategoriesDistinct(s);
  }

  /** The top category is the key at `FirstMax`'s position, with its spending. */
  lemma TopIsEntry(s: seq<Expense>)
    requires s != []
    ensures var j := FirstMax(ByCategory(s));
      j < |Categories(s)| && TopOf(s).value == (Categories(s)[j], CategorySum(s, Categories(s)[j]))
  {
    CategoriesMember(s, s[0].category);
    TallyEntries(Categories(s), s);
  }

  /** With no negative amounts, the top category's spending bounds every category's, present or not. */
  lemma TopBoundsEveryCategory(s: seq<Expense>, c: Category)
    requires s != [] && forall i :: 0 <= i < |s| ==> s[i].amount >= 0
    ensures CategorySum(s, c) <= TopOf(s).value.1
  {
    TopCategoryIsMaximal(s);
    var top := TopOf(s).value;
    CategorySumNonNegative(s, top.0);
    if exists i :: 0 <= i < |s| && s[i].category == c {
      var i :| 0 <= i < |s| && s[i].category == c;
    } else {
      CategorySumAbsent(s, c);
    }
  }

  /**
   * The reduce of `topCategory` and `spendingByCategory`: a dictionary from
   * category to running sum, whose keys remember the order they were added in.
   */
  method BuildCategorySpending(s: seq<Expense>) returns (keys: seq<Category>, totals: map<Category, int>)
    ensures keys == Categories(s)
    ensures forall c :: c in totals <==> c in keys
    ensures forall c :: c in keys ==> totals[c] == CategorySum(s, c)
  {
    keys, totals := [], map[];
    assert s[..0] == [];
    for i := 0 to |s|
      invariant (keys, totals) == Accumulate(s[..i])
    {
      var c := s[i].category;
      var previous := if c in totals then totals[c] else 0;
      if c !in totals {
        keys := keys + [c];
      }
      totals := totals[c := previous + s[i].amount];
      AccumulatePrefix(s, i);
    }
    assert s[..|s|] == s;
    AccumulateMeaning(s);
  }

  /** One step of the reduce: the expense's amount is added under its category, a new key if need be. */
  function AddTo(keys: seq<Category>, totals: map<Category, int>, e: Expense): (seq<Category>, map<Category, int>) {
    var c := e.category;
    (if c in totals then keys else keys + [c], totals[c := (if c in totals then totals[c] else 0) + e.amount])
  }

  /** The reduce as a left fold: the keys (in insertion order) and the dictionary after the whole list. */
  function Accumulate(s: seq<Expense>): (seq<Category>, map<Category, int>) {
    if s == [] then ([], map[])
    else
      var acc := Accumulate(s[..|s| - 1]);
      AddTo(acc.0, acc.1, s[|s| - 1])
  }

  lemma AccumulatePrefix(s: seq<Expense>, i: nat)
    requires i < |s|
    ensures Accumulate(s[..i + 1]) == AddTo(Accumulate(s[..i]).0, Accumulate(s[..i]).1, s[i])
  {
    assert s[..i + 1][..i] == s[..i];
  }

  /**
   * The dictionary after a list: its keys are the categories in
   * first-occurrence order, each holding that category's spending.
   */
  predicate Accumulated(s: seq<Expense>, keys: seq<Category>, totals: map<Category, int>) {
    && keys == Categories(s)
    && (forall c :: c in totals <==> c in keys)
    && (forall c :: c in keys ==> totals[c] == CategorySum(s, c))
  }

  /** A category that is not yet a key has spent nothing so far. */
  lemma NewKeySum(s: seq<Expense>, c: Category)
    requires c !in Categories(s)
    ensures CategorySum(s, c) == 0
  {
    CategoriesMember(s, c);
    CategorySumAbsent(s, c);
  }

  /** What the reduce computes: the categories present, in first-occurrence order, each with its spending. */
  lemma {:induction false} AccumulateMeaning(s: seq<Expense>)
    ensures Accumulated(s, Accumulate(s).0, Accumulate(s).1)
  {
    if s != [] {
      var init, e := s[..|s| - 1], s[|s| - 1];
      AccumulateMeaning(init);
      assert s == init + [e];
      AccumulateSnoc(init, e, Accumulate(init).0, Accumulate(init).1);
    }
  }

  /** Adding one expense keeps the dictionary that of the longer list. */
  lemma AccumulateSnoc(s: seq<Expense>, e: Expense, keys: seq<Category>, totals: map<Category, int>)
    requires Accumulated(s, keys, totals)
    ensures Accumulated(s + [e], AddTo(keys, totals, e).0, AddTo(keys, totals, e).1)
  {
    var (keys', totals') := AddTo(keys, totals, e);
    CategoriesSnoc(s, e);
    if e.category !in totals {
      NewKeySum(s, e.category);
    }
    forall x | x in keys' ensures totals'[x] == CategorySum(s + [e], x) {
      CategorySumSnoc(s, e, x);
    }
  }

  function EntriesOf(keys: seq<Category>, totals: map<Category, int>): (entries: seq<(Category, int)>)
    requires forall c :: c in keys ==> c in totals
    ensures |entries| == |keys| && forall i :: 0 <= i < |keys| ==> entries[i] == (keys[i], totals[keys[i]])
  {
    seq(|keys|, i requires 0 <= i < |keys| => (keys[i], totals[keys[i]]))
  }

  /** `spendingByCategory` as the component computes it. */
  method SpendingByCategory(s: seq<Expense>) returns (entries: seq<(Category, int)>)
    ensures entries == ByCategory(s)
    ensures SumValues(entries) == Total(s)
  {
    var keys, totals := BuildCategorySpending(s);
    entries := EntriesOf(keys, totals);
    TallyEntries(keys, s);
    ByCategorySumsToTotal(s);
  }

  /** `topCategory` as the component computes it: null for no expenses, else the sorted entries' head. */
  method TopCategory(s: seq<Expense>) returns (top: Option<(Category, int)>)
    ensures top == TopOf(s)
    ensures top.None? <==> |s| == 0
  {
    if |s| == 0 {
      return None;
    }
    var entries := SpendingByCategory(s);
    CategoriesMember(s, s[0].category);
    top := Some(entries[FirstMax(entries)]);
  }
}
