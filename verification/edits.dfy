/** The dashboard's state updates (components/Dashboard.tsx:110-148) as pure
    transformers of the expense and category lists. The id the dashboard takes
    from `Date.now()`, the colour it draws with `Math.random()` and today's
    date for the reset form are parameters. */
module Edits {
  import opened Wrappers
  import opened Types
  import Seqs
  import Analytics

  // ---------------------------------------------------------------------------
  // Adding an expense (Dashboard.tsx:110-124)
  // ---------------------------------------------------------------------------

  /** The add-expense form. `amount` is `None` while the field is empty; any
      text the field holds, including "0", is present and parsed. */
  datatype ExpenseDraft = ExpenseDraft(description: string, amount: Option<real>, categoryId: string, date: Day)

  /** The form as it is reset after a successful submit. */
  function BlankExpenseDraft(today: Day): ExpenseDraft {
    ExpenseDraft("", None, "", today)
  }

  /** A required field (description, amount or category) is empty. */
  predicate ExpenseDraftIncomplete(d: ExpenseDraft) {
    d.description == "" || d.amount.None? || d.categoryId == ""
  }

  /** Submitting the form: an incomplete form changes nothing; otherwise the
      new expense goes in front of the list and the form is reset. */
  function AddExpense(es: seq<Expense>, d: ExpenseDraft, newId: string, today: Day): (r: (seq<Expense>, ExpenseDraft))
    ensures ExpenseDraftIncomplete(d) ==> r == (es, d)
    ensures !ExpenseDraftIncomplete(d) ==>
      && |r.0| == |es| + 1
      && r.0[1..] == es
      && r.0[0] == Expense(newId, d.description, d.amount.value, d.date, d.categoryId)
      && r.1 == BlankExpenseDraft(today)
  {
    if ExpenseDraftIncomplete(d) then (es, d)
    else ([Expense(newId, d.description, d.amount.value, d.date, d.categoryId)] + es, BlankExpenseDraft(today))
  }

  /** A successful add raises total spend by exactly the new amount. */
  lemma AddExpenseTotal(es: seq<Expense>, d: ExpenseDraft, newId: string, today: Day)
    requires !ExpenseDraftIncomplete(d)
    ensures Analytics.Total(AddExpense(es, d, newId, today).0) == Analytics.Total(es) + d.amount.value
  {
  }

  // ---------------------------------------------------------------------------
  // Deleting an expense (Dashboard.tsx:146-148)
  // ---------------------------------------------------------------------------

  /** `expenses.filter(e => e.id !== id)`. */
  function DeleteExpense(es: seq<Expense>, id: string): (r: seq<Expense>)
    ensures forall e :: e in r <==> e in es && e.id != id
    ensures Seqs.IsSubsequence(r, es)
    ensures |r| <= |es|
    decreases |es|
  {
    if |es| == 0 then []
    else
      var rest := DeleteExpense(es[1..], id);
      assert es == [es[0]] + es[1..];
      if es[0].id != id then [es[0]] + rest else rest
  }

  /** Deleting keeps every copy of an expense with another id and drops every
      copy of the others. */
  lemma {:induction false} DeleteExpenseCounts(es: seq<Expense>, id: string)
    ensures forall e :: multiset(DeleteExpense(es, id))[e] == if e.id != id then multiset(es)[e] else 0
    decreases |es|
  {
    if |es| > 0 {
      DeleteExpenseCounts(es[1..], id);
      assert es == [es[0]] + es[1..];
    }
  }

  /** No two expenses share an id. */
  predicate UniqueIds(es: seq<Expense>) {
    forall i, j :: 0 <= i < j < |es| ==> es[i].id != es[j].id
  }

  /** No expense carries the id. */
  predicate IdAbsent(es: seq<Expense>, id: string) {
    forall i :: 0 <= i < |es| ==> es[i].id != id
  }

  /** Deleting an id no expense carries changes nothing. */
  lemma {:induction false} DeleteAbsent(es: seq<Expense>, id: string)
    requires IdAbsent(es, id)
    ensures DeleteExpense(es, id) == es
    decreases |es|
  {
    if |es| > 0 {
      DeleteAbsent(es[1..], id);
      assert es == [es[0]] + es[1..];
    }
  }

  /** Adding an expense under a fresh id and then deleting that id restores
      the list exactly. */
  lemma DeleteUndoesAdd(es: seq<Expense>, d: ExpenseDraft, newId: string, today: Day)
    requires IdAbsent(es, newId)
    ensures DeleteExpense(AddExpense(es, d, newId, today).0, newId) == es
  {
    if ExpenseDraftIncomplete(d) {
      DeleteAbsent(es, newId);
    } else {
      var added := AddExpense(es, d, newId, today).0;
      assert added[1..] == es;
      DeleteAbsent(es, newId);
    }
  }

  /** With ids unique, deleting the expense at index `k` lowers total spend by
      exactly its amount. */
  lemma {:induction false} DeleteExpenseTotal(es: seq<Expense>, k: nat)
    requires k < |es|
    requires UniqueIds(es)
    ensures Analytics.Total(DeleteExpense(es, es[k].id)) == Analytics.Total(es) - es[k].amount
    decreases |es|
  {
    var id := es[k].id;
    var t := es[1..];
    if k == 0 {
      assert IdAbsent(t, id) by {
        forall i | 0 <= i < |t| ensures t[i].id != id {
          assert t[i] == es[i + 1];
        }
      }
      DeleteAbsent(t, id);
    } else {
      assert t[k - 1] == es[k];
      DeleteExpenseTotal(t, k - 1);
    }
  }

  // ---------------------------------------------------------------------------
  // Adding a category (Dashboard.tsx:126-138)
  // ---------------------------------------------------------------------------

  /** The add-category form; `budget` is `None` while the field is empty. */
  datatype CategoryDraft = CategoryDraft(name: string, budget: Option<real>)

  const BlankCategoryDraft := CategoryDraft("", None)

  predicate CategoryDraftIncomplete(d: CategoryDraft) {
    d.name == "" || d.budget.None?
  }

  /** Submitting the form: an incomplete form changes nothing; otherwise the
      new category goes at the end of the list and the form is reset. */
  function AddCategory(cs: seq<Category>, d: CategoryDraft, newId: string, color: string): (r: (seq<Category>, CategoryDraft))
    ensures CategoryDraftIncomplete(d) ==> r == (cs, d)
    ensures !CategoryDraftIncomplete(d) ==>
      && |r.0| == |cs| + 1
      && r.0[..|cs|] == cs
      && r.0[|cs|] == Category(newId, d.name, d.budget.value, color)
      && r.1 == BlankCategoryDraft
  {
    if CategoryDraftIncomplete(d) then (cs, d)
    else (cs + [Category(newId, d.name, d.budget.value, color)], BlankCategoryDraft)
  }

  /** A successful add raises the total budget by exactly the new budget. */
  lemma AddCategoryTotal(cs: seq<Category>, d: CategoryDraft, newId: string, color: string)
    requires !CategoryDraftIncomplete(d)
    ensures Analytics.TotalBudget(AddCategory(cs, d, newId, color).0)
         == Analytics.TotalBudget(cs) + d.budget.value
  {
    var c := Category(newId, d.name, d.budget.value, color);
    Analytics.TotalBudgetAppend(cs, c);
  }

  // ---------------------------------------------------------------------------
  // Updating a budget (Dashboard.tsx:140-144)
  // ---------------------------------------------------------------------------

  /** Every category with the given id takes the new budget; all other fields
      and all other categories stay as they were. */
  function UpdateBudget(cs: seq<Category>, id: string, budget: real): (r: seq<Category>)
    ensures |r| == |cs|
    ensures forall i :: 0 <= i < |r| ==>
      && r[i].id == cs[i].id && r[i].name == cs[i].name && r[i].color == cs[i].color
      && r[i].budget == (if cs[i].id == id then budget else cs[i].budget)
  {
    seq(|cs|, i requires 0 <= i < |cs| => if cs[i].id == id then cs[i].(budget := budget) else cs[i])
  }

  /** Applying the same update twice is the same as applying it once. */
  lemma UpdateBudgetIdempotent(cs: seq<Category>, id: string, budget: real)
    ensures UpdateBudget(UpdateBudget(cs, id, budget), id, budget) == UpdateBudget(cs, id, budget)
  {
  }

  /** With ids unique, updating the category at index `k` changes the total
      budget by exactly the difference between new and old budget. */
  lemma {:induction false} UpdateBudgetTotal(cs: seq<Category>, k: nat, budget: real)
    requires k < |cs|
    requires Analytics.DistinctIds(cs)
    ensures Analytics.TotalBudget(UpdateBudget(cs, cs[k].id, budget))
         == Analytics.TotalBudget(cs) - cs[k].budget + budget
    decreases |cs|
  {
    var id := cs[k].id;
    var t := cs[1..];
    var r := UpdateBudget(cs, id, budget);
    assert r[1..] == UpdateBudget(t, id, budget);
    if k == 0 {
      assert forall i :: 0 <= i < |t| ==> t[i].id != id by {
        forall i | 0 <= i < |t| ensures t[i].id != id {
          assert t[i] == cs[i + 1];
        }
      }
      UpdateMissing(t, id, budget);
    } else {
      assert t[k - 1] == cs[k];
      assert Analytics.DistinctIds(t) by {
        forall i, j | 0 <= i < j < |t| ensures t[i].id != t[j].id {
          assert t[i] == cs[i + 1] && t[j] == cs[j + 1];
        }
      }
      UpdateBudgetTotal(t, k - 1, budget);
    }
  }

  /** No category carries the id. */
  predicate CategoryAbsent(cs: seq<Category>, id: string) {
    forall i :: 0 <= i < |cs| ==> cs[i].id != id
  }

  /** Updating an id no category carries changes nothing. */
  lemma UpdateMissing(cs: seq<Category>, id: string, budget: real)
    requires CategoryAbsent(cs, id)
    ensures UpdateBudget(cs, id, budget) == cs
  {
  }
}
