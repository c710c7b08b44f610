/** Whole-application facts that combine the store with the dashboard's
    derived values. */
module Scenarios {
  import opened Wrappers
  import opened Types
  import Analytics
  import Storage

  /** The five default categories have distinct ids and budgets that total
      1550. */
  lemma DefaultCategoriesFacts()
    ensures |Storage.DefaultCategories| == 5
    ensures Analytics.DistinctIds(Storage.DefaultCategories)
    ensures Analytics.TotalBudget(Storage.DefaultCategories) == 1550.0
  {
  }

  /** Without expenses there is no spend anywhere. */
  lemma NoExpensesNoSpend(cs: seq<Category>)
    ensures Analytics.SpendingByCategory([], cs) == []
    ensures Analytics.BudgetUtilization([], cs) == 0.0
    ensures Analytics.RecentTransactions([]) == []
  {
    var entries := Analytics.SpendEntries([], cs);
    forall i | 0 <= i < |entries| ensures entries[i].value == 0.0 {
      assert Analytics.Select([], Analytics.CategoryOf, {cs[i].id}) == [];
    }
    Analytics.PositiveOnlyNone(entries);
  }

  /** A freshly created account opens on a dashboard with no spend: an empty
      pie chart, 0% utilisation of a 1550 total budget, and no recent
      transactions. */
  lemma {:induction false} NewAccountDashboard(s: Storage.Store, u: User, password: Option<string>)
    requires !Storage.Registered(s, u.email)
    ensures var d := Storage.GetUserData(Storage.CreateUser(s, u, password).0, u.email);
      && Analytics.SpendingByCategory(d.expenses, d.categories) == []
      && Analytics.BudgetUtilization(d.expenses, d.categories) == 0.0
      && Analytics.TotalBudget(d.categories) == 1550.0
      && Analytics.RecentTransactions(d.expenses) == []
  {
    Storage.NewAccountDataset(s, u, password);
    DefaultCategoriesFacts();
    NoExpensesNoSpend(Storage.DefaultCategories);
  }

  /** One category "Food" with a budget of 500 and two expenses of 120 and 450
      filed under it: 570 spent, the category's usage clamped to 100, and
      overall utilisation 114. */
  lemma FoodOverBudget()
    ensures var cs := [Category("1", "Food", 500.0, "#f00")];
      var es := [Expense("a", "", 120.0, 1, "1"), Expense("b", "", 450.0, 2, "1")];
      && Analytics.SpendingByCategory(es, cs) == [Analytics.SpendEntry("Food", 570.0, "#f00", 500.0)]
      && Analytics.BudgetPerformance(es, cs)[0].percentage == 100.0
      && Analytics.Total(es) == 570.0
      && Analytics.TotalBudget(cs) == 500.0
      && Analytics.BudgetUtilization(es, cs) == 114.0
  {
    var cs := [Category("1", "Food", 500.0, "#f00")];
    var es := [Expense("a", "", 120.0, 1, "1"), Expense("b", "", 450.0, 2, "1")];
    assert Analytics.Select(es, Analytics.CategoryOf, {"1"}) == es;
    assert Analytics.Spent(es, "1") == 570.0;
    var entries := Analytics.SpendEntries(es, cs);
    assert entries == [Analytics.SpendEntry("Food", 570.0, "#f00", 500.0)];
    var perf := Analytics.BudgetPerformance(es, cs);
    assert perf[0] in multiset(Analytics.PerfEntries(es, cs));
  }
}
