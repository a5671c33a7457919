/** The summary of the stored expenses: totals per category in the order
    the categories first appear, the total spent, what is left of the
    budget and how much of it may be spent per remaining day. */
module Summary {
  import opened Wrappers
  import opened ExpenseRecord
  import opened Calendar
  import opened ExpenseFile

  /** The categories named by the expenses. */
  ghost function CategoriesOf(es: seq<Expense>): set<string>
  {
    set i | 0 <= i < |es| :: es[i].category
  }

  /** No category listed twice. */
  predicate Distinct(cs: seq<string>)
  {
    forall i, j :: 0 <= i < j < |cs| ==> cs[i] != cs[j]
  }

  /** The categories in the order in which each first appears: the order in
      which a Python dict keeps its keys. */
  function FirstSeen(es: seq<Expense>): (order: seq<string>)
    ensures Distinct(order)
    ensures forall c :: c in order <==> c in CategoriesOf(es)
  {
    if es == [] then []
    else
      var order := FirstSeen(es[..|es| - 1]);
      var c := es[|es| - 1].category;
      assert CategoriesOf(es) == CategoriesOf(es[..|es| - 1]) + {c};
      if c in order then order else order + [c]
  }

  /** The sum of all amounts, added from the first expense to the last. */
  function Total(es: seq<Expense>): real
  {
    if es == [] then 0.0 else Total(es[..|es| - 1]) + es[|es| - 1].amount
  }

  /** The sum of the amounts of the expenses filed under `c`. */
  function CategoryTotal(es: seq<Expense>, c: string): real
  {
    if es == [] then 0.0
    else
      var last := es[|es| - 1];
      CategoryTotal(es[..|es| - 1], c) + (if last.category == c then last.amount else 0.0)
  }

  /** The category totals of `cs`, added in order. */
  function SumTotals(es: seq<Expense>, cs: seq<string>): real
  {
    if cs == [] then 0.0 else SumTotals(es, cs[..|cs| - 1]) + CategoryTotal(es, cs[|cs| - 1])
  }

  /** The entries of `m` for the keys in `order`, added in order. */
  function SumAt(order: seq<string>, m: map<string, real>): real
    requires forall c :: c in order ==> c in m
  {
    if order == [] then 0.0 else SumAt(order[..|order| - 1], m) + m[order[|order| - 1]]
  }

  /** A category no expense names totals zero. */
  lemma {:induction false} CategoryTotalAbsent(es: seq<Expense>, c: string)
    requires c !in CategoriesOf(es)
    ensures CategoryTotal(es, c) == 0.0
  {
    if es != [] {
      assert CategoriesOf(es[..|es| - 1]) <= CategoriesOf(es) by {
        forall x | x in CategoriesOf(es[..|es| - 1])
          ensures x in CategoriesOf(es)
        {
          var i :| 0 <= i < |es| - 1 && es[..|es| - 1][i].category == x;
          assert es[i].category == x;
        }
      }
      CategoryTotalAbsent(es[..|es| - 1], c);
      assert es[|es| - 1].category in CategoriesOf(es);
    }
  }

  /** The last expense raises the sum over distinct categories by its
      amount exactly when its category is among them. */
  lemma {:induction false} SumTotalsLast(es: seq<Expense>, cs: seq<string>)
    requires es != [] && Distinct(cs)
    ensures var last := es[|es| - 1];
            SumTotals(es, cs) == SumTotals(es[..|es| - 1], cs) + (if last.category in cs then last.amount else 0.0)
  {
    if cs != [] {
      var init := cs[..|cs| - 1];
      assert Distinct(init);
      SumTotalsLast(es, init);
      assert cs == init + [cs[|cs| - 1]];
      assert cs[|cs| - 1] !in init;
    }
  }

  /** The category totals, over the categories in first-seen order, add up
      to the total spent. */
  lemma {:induction false} TotalsAddUp(es: seq<Expense>)
    ensures SumTotals(es, FirstSeen(es)) == Total(es)
  {
    if es != [] {
      var init := es[..|es| - 1];
      var c := es[|es| - 1].category;
      TotalsAddUp(init);
      var order := FirstSeen(init);
      SumTotalsLast(es, order);
      if c !in order {
        var longer := order + [c];
        assert longer[..|longer| - 1] == order;
        assert FirstSeen(es) == longer;
        CategoryTotalAbsent(init, c);
      } else {
        assert FirstSeen(es) == order;
      }
    }
  }

  /** The categories seen among the first `k` expenses lead the first-seen
      order of all of them: a later expense never moves a category
      forward. */
  lemma {:induction false} FirstSeenPrefix(es: seq<Expense>, k: nat)
    requires k <= |es|
    ensures FirstSeen(es[..k]) <= FirstSeen(es)
    decreases |es| - k
  {
    if k < |es| {
      FirstSeenPrefix(es, k + 1);
      assert es[..k + 1][..k] == es[..k];
    } else {
      assert es[..k] == es;
    }
  }

  /** One more expense adds its category to those already seen. */
  lemma CategoriesSnoc(es: seq<Expense>, e: Expense)
    ensures CategoriesOf(es + [e]) == CategoriesOf(es) + {e.category}
  {
    var longer := es + [e];
    forall c | c in CategoriesOf(es)
      ensures c in CategoriesOf(longer)
    {
      var i :| 0 <= i < |es| && es[i].category == c;
      assert longer[i] == es[i];
    }
    assert longer[|es|] == e;
  }

  /** `order` and `m` are the dict `amount_by_category` after the loop has
      visited `es`: its keys in insertion order, and each key's total. */
  ghost predicate Grouped(es: seq<Expense>, order: seq<string>, m: map<string, real>)
  {
    && order == FirstSeen(es)
    && m.Keys == CategoriesOf(es)
    && forall c :: c in m ==> m[c] == CategoryTotal(es, c)
  }

  /** One turn of the grouping loop for a category already in the dict:
      its entry grows by the amount and the key order stays. */
  lemma GroupedAdd(es: seq<Expense>, e: Expense, order: seq<string>, m: map<string, real>)
    requires Grouped(es, order, m) && e.category in m
    ensures Grouped(es + [e], order, m[e.category := m[e.category] + e.amount])
  {
    var longer := es + [e];
    assert longer[..|longer| - 1] == es;
    CategoriesSnoc(es, e);
    assert e.category in FirstSeen(es);
    var m' := m[e.category := m[e.category] + e.amount];
    forall c | c in m'
      ensures m'[c] == CategoryTotal(longer, c)
    {
    }
  }

  /** One turn of the grouping loop for a category not yet in the dict: it
      gets an entry of its own, at the end of the key order. */
  lemma GroupedNew(es: seq<Expense>, e: Expense, order: seq<string>, m: map<string, real>)
    requires Grouped(es, order, m) && e.category !in m
    ensures Grouped(es + [e], order + [e.category], m[e.category := e.amount])
  {
    var longer := es + [e];
    assert longer[..|longer| - 1] == es;
    CategoriesSnoc(es, e);
    CategoryTotalAbsent(es, e.category);
    assert e.category !in FirstSeen(es);
    var m' := m[e.category := e.amount];
    forall c | c in m'
      ensures m'[c] == CategoryTotal(longer, c)
    {
    }
  }

  /** Python's dict grouping loop: each expense adds its amount to its
      category's entry, creating the entry, at the end of the key order,
      the first time the category is met. */
  method GroupByCategory(es: seq<Expense>) returns (order: seq<string>, byCategory: map<string, real>)
    ensures order == FirstSeen(es)
    ensures byCategory.Keys == CategoriesOf(es)
    ensures forall c :: c in byCategory ==> byCategory[c] == CategoryTotal(es, c)
  {
    order := [];
    byCategory := map[];
    for i := 0 to |es|
      invariant Grouped(es[..i], order, byCategory)
    {
      var key := es[i].category;
      assert es[..i + 1] == es[..i] + [es[i]];
      if key in byCategory {
        GroupedAdd(es[..i], es[i], order, byCategory);
        byCategory := byCategory[key := byCategory[key] + es[i].amount];
      } else {
        GroupedNew(es[..i], es[i], order, byCategory);
        order := order + [key];
        byCategory := byCategory[key := es[i].amount];
      }
    }
    assert es[..|es|] == es;
  }

  /** The entries of a map holding the category totals add up like the
      totals themselves. */
  lemma {:induction false} SumAtTotals(es: seq<Expense>, order: seq<string>, m: map<string, real>)
    requires forall c :: c in order ==> c in m && m[c] == CategoryTotal(es, c)
    ensures SumAt(order, m) == SumTotals(es, order)
  {
    if order != [] {
      SumAtTotals(es, order[..|order| - 1], m);
    }
  }

  /** Days left in the month after today. */
  function RemainingDays(now: Date): (days: int)
    requires ValidDate(now)
    ensures 0 <= days <= 30
    ensures days == 0 <==> now.day == DaysInMonth(now.year, now.month)
  {
    DaysInMonth(now.year, now.month) - now.day
  }

  /** Tomorrow, within the same month. */
  function NextDay(now: Date): Date
  {
    Date(now.year, now.month, now.day + 1)
  }

  /** The remaining days count the days of the month still to come: there
      is another day in the month exactly when some remain, and tomorrow
      one fewer remains. */
  lemma RemainingDaysCountDown(now: Date)
    requires ValidDate(now)
    ensures RemainingDays(now) > 0 <==> ValidDate(NextDay(now))
    ensures ValidDate(NextDay(now)) ==> RemainingDays(NextDay(now)) == RemainingDays(now) - 1
  {
  }

  /** The budget per remaining day; there is none on the last day of the
      month. */
  function DailyBudget(remainingBudget: real, remainingDays: int): (daily: Option<real>)
    ensures daily.Some? <==> remainingDays > 0
    ensures daily.Some? ==> daily.value * (remainingDays as real) == remainingBudget
  {
    if remainingDays > 0 then Some(remainingBudget / remainingDays as real) else None
  }

  /** The expense file: absent, or the lines it holds. */
  datatype Store = Missing | Present(lines: seq<string>)

  /** What the summary shows. */
  datatype Report =
    | NoExpensesYet
    | Malformed(error: LoadError)
    | Report(order: seq<string>, byCategory: map<string, real>, totalSpent: real,
             remainingBudget: real, remainingDays: int, dailyBudget: Option<real>)

  /** The summary of a list of expenses. */
  ghost function Summarize(es: seq<Expense>, budget: real, now: Date): Report
    requires ValidDate(now)
  {
    var total := Total(es);
    var days := RemainingDays(now);
    Report(FirstSeen(es), map c | c in CategoriesOf(es) :: CategoryTotal(es, c),
           total, budget - total, days, DailyBudget(budget - total, days))
  }

  /** The summary of the expense file: nothing when the file is absent, the
      first bad line's error, or the summary of all of its expenses. */
  ghost function ExpectedReport(store: Store, budget: real, now: Date, toNumber: string -> Option<real>): Report
    requires ValidDate(now)
  {
    match store
    case Missing => NoExpensesYet
    case Present(lines) =>
      match LoadAll(lines, toNumber)
      case Err(error) => Malformed(error)
      case Ok(es) => Summarize(es, budget, now)
  }

  /** The part of `summarize_expenses` after the file is read: group,
      total, and work out what is left per remaining day of the month. */
  method ReportOn(expenses: seq<Expense>, budget: real, now: Date) returns (report: Report)
    requires ValidDate(now)
    ensures report == Summarize(expenses, budget, now)
  {
    var order, byCategory := GroupByCategory(expenses);
    assert byCategory == map c | c in CategoriesOf(expenses) :: CategoryTotal(expenses, c);
    var totalSpent := Total(expenses);
    var remainingBudget := budget - totalSpent;
    var remainingDays := RemainingDays(now);
    var daily := DailyBudget(remainingBudget, remainingDays);
    report := Report(order, byCategory, totalSpent, remainingBudget, remainingDays, daily);
  }

  /** `summarize_expenses`: read the file, group, total, and work out what
      is left per remaining day of the month. */
  method SummarizeExpenses(store: Store, budget: real, now: Date, toNumber: string -> Option<real>)
    returns (report: Report)
    requires ValidDate(now)
    ensures report == ExpectedReport(store, budget, now, toNumber)
  {
    if store.Missing? {
      return NoExpensesYet;
    }
    var loaded := LoadExpenses(store.lines, Loader(toNumber));
    assert loaded == LoadAll(store.lines, toNumber);
    if loaded.Err? {
      return Malformed(loaded.error);
    }
    report := ReportOn(loaded.value, budget, now);
  }

  /** The per-category entries of a summary add up to its total spent, and
      what remains is the budget less that total. */
  lemma SummaryAddsUp(es: seq<Expense>, budget: real, now: Date)
    requires ValidDate(now)
    ensures var r := Summarize(es, budget, now);
            && (forall c :: c in r.order ==> c in r.byCategory)
            && SumAt(r.order, r.byCategory) == r.totalSpent
            && r.remainingBudget == budget - r.totalSpent
  {
    var r := Summarize(es, budget, now);
    SumAtTotals(es, r.order, r.byCategory);
    TotalsAddUp(es);
  }

  /** An empty file yields no categories, nothing spent and the whole
      budget remaining. */
  lemma EmptyFileSummary(budget: real, now: Date, toNumber: string -> Option<real>)
    requires ValidDate(now)
    ensures var r := ExpectedReport(Present([]), budget, now, toNumber);
            r.Report? && r.order == [] && r.byCategory == map[] &&
            r.totalSpent == 0.0 && r.remainingBudget == budget
  {
    assert LoadAll([], toNumber) == Ok([]);
  }

  /** A daily allowance is reported exactly when today is not the last day
      of the month. */
  lemma DailyBudgetUnlessLastDay(es: seq<Expense>, budget: real, now: Date)
    requires ValidDate(now)
    ensures Summarize(es, budget, now).dailyBudget.Some? <==>
              now.day < DaysInMonth(now.year, now.month)
  {
  }

  /** Two coffees and the rent. */
  const Sample: seq<Expense> :=
    [Expense("Coffee", "Food", 4.5), Expense("Rent", "Home", 1200.0), Expense("Coffee2", "Food", 3.5)]

  /** The grouping loop's first two turns on the sample. */
  lemma SampleFirstTwo()
    ensures Grouped(Sample[..2], ["Food", "Home"], map["Food" := 4.5, "Home" := 1200.0])
  {
    var coffee, rent := Sample[0], Sample[1];
    assert "Food" != "Home" by { assert "Food"[0] != "Home"[0]; }
    assert Grouped([], [], map[]);
    GroupedNew([], coffee, [], map[]);
    assert [] + [coffee] == [coffee];
    GroupedNew([coffee], rent, ["Food"], map["Food" := 4.5]);
    assert [coffee] + [rent] == Sample[..2];
  }

  /** The grouping loop's last turn on the sample adds the second coffee to
      the food entry. */
  lemma SampleGrouped()
    ensures Grouped(Sample, ["Food", "Home"], map["Food" := 8.0, "Home" := 1200.0])
  {
    SampleFirstTwo();
    var m := map["Food" := 4.5, "Home" := 1200.0];
    GroupedAdd(Sample[..2], Sample[2], ["Food", "Home"], m);
    assert Sample[..2] + [Sample[2]] == Sample;
    assert m["Food" := m["Food"] + 3.5] == map["Food" := 8.0, "Home" := 1200.0];
  }

  /** The sample's amounts add up to 1208. */
  lemma SampleTotal()
    ensures Total(Sample) == 1208.0
  {
    var coffee, rent := Sample[0], Sample[1];
    assert Sample[..2] == [coffee, rent] && [coffee, rent][..1] == [coffee] && [coffee][..0] == [];
    assert Total([coffee]) == 4.5;
    assert Total([coffee, rent]) == 1204.5;
  }

  /** The sample against a budget of 2000: 8 on food, 1200 on the home,
      1208 spent and 792 left. */
  lemma CoffeeAndRent(now: Date)
    requires ValidDate(now)
    ensures var r := Summarize(Sample, 2000.0, now);
            && r.order == ["Food", "Home"]
            && r.byCategory == map["Food" := 8.0, "Home" := 1200.0]
            && r.totalSpent == 1208.0 && r.remainingBudget == 792.0
  {
    SampleGrouped();
    SampleTotal();
    var m := map["Food" := 8.0, "Home" := 1200.0];
    assert (map c | c in CategoriesOf(Sample) :: CategoryTotal(Sample, c)) == m;
  }
}
