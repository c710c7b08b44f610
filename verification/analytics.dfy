/** The derived values the dashboard recomputes from a user's expenses and
    categories (components/Dashboard.tsx): spend per category, budget
    performance, the seven-day activity series, recent transactions, totals
    and utilisation. All are pure functions of the two lists. */
module Analytics {
  import opened Types
  import Seqs
  import Sorting

  // ---------------------------------------------------------------------------
  // Sums and selections
  // ---------------------------------------------------------------------------

  /** `es.reduce((sum, e) => sum + e.amount, 0)`. */
  function Total(es: seq<Expense>): real {
    if |es| == 0 then 0.0 else es[0].amount + Total(es[1..])
  }

  /** The expenses whose `key` lies in `keys`, in list order. */
  function Select<K(==)>(es: seq<Expense>, key: Expense -> K, keys: set<K>): (r: seq<Expense>)
    ensures forall e :: e in r <==> e in es && key(e) in keys
    ensures Seqs.IsSubsequence(r, es)
    decreases |es|
  {
    if |es| == 0 then []
    else
      var rest := Select(es[1..], key, keys);
      assert es == [es[0]] + es[1..];
      if key(es[0]) in keys then [es[0]] + rest else rest
  }

  /** The selection keeps every copy of a selected expense and drops every
      copy of the others. */
  lemma {:induction false} SelectCounts<K>(es: seq<Expense>, key: Expense -> K, keys: set<K>)
    ensures forall e :: multiset(Select(es, key, keys))[e] == if key(e) in keys then multiset(es)[e] else 0
    decreases |es|
  {
    if |es| > 0 {
      SelectCounts(es[1..], key, keys);
      assert es == [es[0]] + es[1..];
    }
  }

  function CategoryOf(e: Expense): string { e.categoryId }

  function DateOf(e: Expense): Day { e.date }

  /** Sum of the amounts of the expenses filed under category `id`. */
  function Spent(es: seq<Expense>, id: string): real {
    Total(Select(es, CategoryOf, {id}))
  }

  predicate NonNegativeAmounts(es: seq<Expense>) {
    forall i :: 0 <= i < |es| ==> es[i].amount >= 0.0
  }

  lemma {:induction false} TotalAppend(a: seq<Expense>, b: seq<Expense>)
    ensures Total(a + b) == Total(a) + Total(b)
    decreases |a|
  {
    if |a| == 0 {
      assert a + b == b;
    } else {
      assert (a + b)[0] == a[0];
      assert (a + b)[1..] == a[1..] + b;
      TotalAppend(a[1..], b);
    }
  }

  lemma {:induction false} TotalNonNegative(es: seq<Expense>)
    requires NonNegativeAmounts(es)
    ensures Total(es) >= 0.0
    decreases |es|
  {
    if |es| > 0 {
      TotalNonNegative(es[1..]);
    }
  }

  /** Taking one expense out of a list takes its amount out of the total. */
  lemma {:induction false} TotalRemove(b: seq<Expense>, j: nat)
    requires j < |b|
    ensures Total(b) == b[j].amount + Total(b[..j] + b[j + 1..])
    decreases j
  {
    if j == 0 {
      assert b[..0] + b[1..] == b[1..];
    } else {
      var t := b[1..];
      TotalRemove(t, j - 1);
      assert b[..j] + b[j + 1..] == [b[0]] + (t[..j - 1] + t[j..]);
    }
  }

  /** The total depends only on which expenses are present, not on their
      order: `totalSpent` is invariant under permuting the list. */
  lemma {:induction false} TotalPermutation(a: seq<Expense>, b: seq<Expense>)
    requires multiset(a) == multiset(b)
    ensures Total(a) == Total(b)
    decreases |a|
  {
    if |a| == 0 {
      assert |b| == |multiset(b)| == 0;
    } else {
      var j := Seqs.MatchHead(a, b);
      TotalRemove(b, j);
      TotalPermutation(a[1..], b[..j] + b[j + 1..]);
    }
  }

  /** Selecting by a set with one more key adds that key's sum. */
  lemma {:induction false} SelectSplit<K>(es: seq<Expense>, key: Expense -> K, keys: set<K>, k: K)
    requires k !in keys
    ensures Total(Select(es, key, keys + {k}))
         == Total(Select(es, key, keys)) + Total(Select(es, key, {k}))
    decreases |es|
  {
    if |es| > 0 {
      SelectSplit(es[1..], key, keys, k);
    }
  }

  /** Selecting by no key at all selects nothing. */
  lemma SelectNothing<K>(es: seq<Expense>, key: Expense -> K)
    ensures Select(es, key, {}) == []
  {
  }

  // ---------------------------------------------------------------------------
  // Spending by category (Dashboard.tsx:69-74)
  // ---------------------------------------------------------------------------

  /** A slice of the spending pie chart. */
  datatype SpendEntry = SpendEntry(name: string, value: real, color: string, budget: real)

  function SpendEntryOf(es: seq<Expense>, c: Category): SpendEntry {
    SpendEntry(c.name, Spent(es, c.id), c.color, c.budget)
  }

  /** One entry per category, before categories with no positive spend are
      dropped. */
  function SpendEntries(es: seq<Expense>, cs: seq<Category>): seq<SpendEntry> {
    seq(|cs|, i requires 0 <= i < |cs| => SpendEntryOf(es, cs[i]))
  }

  /** `.filter(d => d.value > 0)`. */
  function PositiveOnly(s: seq<SpendEntry>): (r: seq<SpendEntry>)
    ensures forall e :: e in r <==> e in s && e.value > 0.0
    ensures Seqs.IsSubsequence(r, s)
    decreases |s|
  {
    if |s| == 0 then []
    else
      var rest := PositiveOnly(s[1..]);
      assert s == [s[0]] + s[1..];
      if s[0].value > 0.0 then [s[0]] + rest else rest
  }

  /** The filter keeps every copy of a positive entry and drops every copy of
      the others. */
  lemma {:induction false} PositiveOnlyCounts(s: seq<SpendEntry>)
    ensures forall e :: multiset(PositiveOnly(s))[e] == if e.value > 0.0 then multiset(s)[e] else 0
    decreases |s|
  {
    if |s| > 0 {
      PositiveOnlyCounts(s[1..]);
      assert s == [s[0]] + s[1..];
    }
  }

  /** With no positive entry there is no slice. */
  lemma {:induction false} PositiveOnlyNone(s: seq<SpendEntry>)
    requires forall i :: 0 <= i < |s| ==> s[i].value <= 0.0
    ensures PositiveOnly(s) == []
    decreases |s|
  {
    if |s| > 0 {
      PositiveOnlyNone(s[1..]);
    }
  }

  /** The pie-chart slices: every category with positive spend, in category
      order, each carrying the sum of its expenses; nothing else. */
  function SpendingByCategory(es: seq<Expense>, cs: seq<Category>): (r: seq<SpendEntry>)
    ensures forall e :: e in r <==> e in SpendEntries(es, cs) && e.value > 0.0
    ensures forall c :: c in cs && Spent(es, c.id) > 0.0 ==> SpendEntryOf(es, c) in r
    ensures Seqs.IsSubsequence(r, SpendEntries(es, cs))
  {
    var entries := SpendEntries(es, cs);
    assert forall c :: c in cs ==> SpendEntryOf(es, c) in entries by {
      forall c | c in cs ensures SpendEntryOf(es, c) in entries {
        var i :| 0 <= i < |cs| && cs[i] == c;
        assert entries[i] == SpendEntryOf(es, c);
      }
    }
    PositiveOnly(entries)
  }

  /** Every positive per-category entry appears as often in the slices as in
      the per-category list, and nothing else does. */
  lemma SpendingByCategoryCounts(es: seq<Expense>, cs: seq<Category>)
    ensures forall e :: (multiset(SpendingByCategory(es, cs))[e] ==
                         if e.value > 0.0 then multiset(SpendEntries(es, cs))[e] else 0)
  {
    PositiveOnlyCounts(SpendEntries(es, cs));
  }

  predicate DistinctIds(cs: seq<Category>) {
    forall i, j :: 0 <= i < j < |cs| ==> cs[i].id != cs[j].id
  }

  /** The ids of the categories. */
  function IdSet(cs: seq<Category>): (ids: set<string>)
    ensures forall i :: 0 <= i < |cs| ==> cs[i].id in ids
    ensures forall x :: x in ids ==> exists i :: 0 <= i < |cs| && cs[i].id == x
    decreases |cs|
  {
    if |cs| == 0 then {}
    else
      var rest := IdSet(cs[1..]);
      assert forall x :: x in rest ==> exists i :: 0 <= i < |cs| && cs[i].id == x by {
        forall x | x in rest ensures exists i :: 0 <= i < |cs| && cs[i].id == x {
          var i :| 0 <= i < |cs[1..]| && cs[1..][i].id == x;
          assert cs[i + 1].id == x;
        }
      }
      {cs[0].id} + rest
  }

  function SumValues(r: seq<SpendEntry>): real {
    if |r| == 0 then 0.0 else r[0].value + SumValues(r[1..])
  }

  /** Dropping slices whose value is not positive loses nothing when no value
      is negative. */
  lemma {:induction false} PositiveOnlyKeepsSum(s: seq<SpendEntry>)
    requires forall i :: 0 <= i < |s| ==> s[i].value >= 0.0
    ensures SumValues(PositiveOnly(s)) == SumValues(s)
    decreases |s|
  {
    if |s| > 0 {
      PositiveOnlyKeepsSum(s[1..]);
    }
  }

  /** With distinct category ids, the per-category sums add up to exactly the
      spend filed under known categories: each such expense is counted once. */
  lemma {:induction false} EntriesCoverKnownCategories(es: seq<Expense>, cs: seq<Category>)
    requires DistinctIds(cs)
    ensures SumValues(SpendEntries(es, cs)) == Total(Select(es, CategoryOf, IdSet(cs)))
    decreases |cs|
  {
    if |cs| == 0 {
      SelectNothing(es, CategoryOf);
    } else {
      var t := cs[1..];
      assert DistinctIds(t) by {
        forall i, j | 0 <= i < j < |t| ensures t[i].id != t[j].id {
          assert t[i] == cs[i + 1] && t[j] == cs[j + 1];
        }
      }
      EntriesCoverKnownCategories(es, t);
      assert SpendEntries(es, cs)[1..] == SpendEntries(es, t);
      assert SpendEntries(es, cs)[0].value == Total(Select(es, CategoryOf, {cs[0].id}));
      assert IdSet(cs) == IdSet(t) + {cs[0].id};
      assert cs[0].id !in IdSet(t);
      SelectSplit(es, CategoryOf, IdSet(t), cs[0].id);
    }
  }

  /** With distinct category ids and non-negative amounts, the pie chart adds
      up to exactly the spend on known categories: expenses filed under an
      unknown id are not counted, and dropping zero slices loses nothing. */
  lemma {:induction false} SpendingCoversKnownCategories(es: seq<Expense>, cs: seq<Category>)
    requires DistinctIds(cs)
    requires NonNegativeAmounts(es)
    ensures SumValues(SpendingByCategory(es, cs)) == Total(Select(es, CategoryOf, IdSet(cs)))
  {
    var entries := SpendEntries(es, cs);
    forall i | 0 <= i < |entries| ensures entries[i].value >= 0.0 {
      var sel := Select(es, CategoryOf, {cs[i].id});
      assert NonNegativeAmounts(sel) by {
        forall k | 0 <= k < |sel| ensures sel[k].amount >= 0.0 {
          assert sel[k] in es;
        }
      }
      TotalNonNegative(sel);
    }
    PositiveOnlyKeepsSum(entries);
    EntriesCoverKnownCategories(es, cs);
  }

  // ---------------------------------------------------------------------------
  // Budget performance (Dashboard.tsx:76-81)
  // ---------------------------------------------------------------------------

  /** One row of the budget-status list. */
  datatype PerfEntry = PerfEntry(name: string, spent: real, budget: real, color: string, percentage: real)

  function Min(a: real, b: real): real { if a <= b then a else b }

  /** `Math.min((spent / budget) * 100, 100)`. A zero budget divides by zero at
      Dashboard.tsx:79: positive spend gives Infinity, clamped to 100 as here; zero or
      negative spend gives NaN or -Infinity, for which this model uses 0. */
  function Percentage(spent: real, budget: real): (p: real)
    ensures p <= 100.0
    ensures budget > 0.0 ==> (p == 100.0 <==> spent >= budget)
    ensures budget > 0.0 && p < 100.0 ==> p * budget == spent * 100.0
  {
    if budget == 0.0 then (if spent > 0.0 then 100.0 else 0.0)
    else Min(spent / budget * 100.0, 100.0)
  }

  function PerfEntryOf(es: seq<Expense>, c: Category): PerfEntry {
    var spent := Spent(es, c.id);
    PerfEntry(c.name, spent, c.budget, c.color, Percentage(spent, c.budget))
  }

  /** The rows before sorting, one per category, in category order. */
  function PerfEntries(es: seq<Expense>, cs: seq<Category>): (r: seq<PerfEntry>)
    ensures |r| == |cs|
  {
    seq(|cs|, i requires 0 <= i < |cs| => PerfEntryOf(es, cs[i]))
  }

  function PercentageOf(p: PerfEntry): real { p.percentage }

  /** The rows sorted by usage, highest first; rows with equal usage stay in
      category order. */
  function BudgetPerformance(es: seq<Expense>, cs: seq<Category>): (r: seq<PerfEntry>)
    ensures |r| == |cs|
    ensures multiset(r) == multiset(PerfEntries(es, cs))
    ensures Sorting.SortedDesc(r, PercentageOf)
    ensures forall k :: Sorting.WithKey(r, PercentageOf, k)
                     == Sorting.WithKey(PerfEntries(es, cs), PercentageOf, k)
    ensures forall i :: 0 <= i < |r| ==> r[i].percentage <= 100.0
  {
    var rows := PerfEntries(es, cs);
    Sorting.SortStableAll(rows, PercentageOf);
    var r := Sorting.SortDesc(rows, PercentageOf);
    assert forall i :: 0 <= i < |r| ==> r[i].percentage <= 100.0 by {
      forall i | 0 <= i < |r| ensures r[i].percentage <= 100.0 {
        assert r[i] in multiset(rows);
      }
    }
    r
  }

  /** The budget rows are the one arrangement that is sorted by usage, holds
      one row per category and keeps equal-usage rows in category order. */
  lemma BudgetPerformanceIsTheStableSort(es: seq<Expense>, cs: seq<Category>, r: seq<PerfEntry>)
    requires multiset(r) == multiset(PerfEntries(es, cs))
    requires Sorting.SortedDesc(r, PercentageOf)
    requires forall k :: Sorting.WithKey(r, PercentageOf, k) == Sorting.WithKey(PerfEntries(es, cs), PercentageOf, k)
    ensures r == BudgetPerformance(es, cs)
  {
    Sorting.IsTheStableSort(PerfEntries(es, cs), r, PercentageOf);
  }

  // ---------------------------------------------------------------------------
  // Seven-day activity (Dashboard.tsx:84-100)
  // ---------------------------------------------------------------------------

  /** The seven days ending with `today`, oldest first. */
  function LastSevenDays(today: Day): (r: seq<Day>)
    ensures |r| == 7
    ensures r[6] == today
    ensures forall i :: 0 < i < |r| ==> r[i] == r[i - 1] + 1
  {
    seq(7, i requires 0 <= i < 7 => today - (6 - i))
  }

  /** One point of the activity chart. */
  datatype ActivityPoint = ActivityPoint(day: Day, amount: real)

  /** For each given day, in order, the sum of the expenses dated that day. */
  function Activity(es: seq<Expense>, days: seq<Day>): (r: seq<ActivityPoint>)
    ensures |r| == |days|
    ensures forall i :: 0 <= i < |r| ==> r[i].day == days[i]
    ensures forall i :: 0 <= i < |r| ==> r[i].amount == Total(Select(es, DateOf, {days[i]}))
  {
    seq(|days|, i requires 0 <= i < |days| => ActivityPoint(days[i], Total(Select(es, DateOf, {days[i]}))))
  }

  function SumAmounts(ps: seq<ActivityPoint>): real {
    if |ps| == 0 then 0.0 else ps[0].amount + SumAmounts(ps[1..])
  }

  /** Over distinct days, the activity points add up to exactly the spend
      dated within those days: each expense in the window is counted once. */
  lemma {:induction false} ActivityCoversDays(es: seq<Expense>, days: seq<Day>)
    requires forall i, j :: 0 <= i < j < |days| ==> days[i] != days[j]
    ensures SumAmounts(Activity(es, days)) == Total(Select(es, DateOf, set d | d in days))
    decreases |days|
  {
    if |days| == 0 {
      assert (set d | d in days) == {};
      SelectNothing(es, DateOf);
    } else {
      var t := days[1..];
      ActivityCoversDays(es, t);
      assert Activity(es, days)[1..] == Activity(es, t);
      assert (set d | d in days) == (set d | d in t) + {days[0]};
      assert days[0] !in (set d | d in t);
      SelectSplit(es, DateOf, (set d | d in t), days[0]);
    }
  }

  /** The days from six days before `today` through `today`. */
  function Week(today: Day): (w: set<Day>)
    ensures forall d :: d in w <==> today - 6 <= d <= today
  {
    var days := LastSevenDays(today);
    assert forall i :: 0 <= i < 7 ==> days[i] == today - (6 - i);
    forall d | today - 6 <= d <= today ensures d in days {
      assert days[d - today + 6] == d;
    }
    set d | d in days
  }

  /** The chart's window: the seven activity points add up to the spend dated
      from six days before `today` through `today`. */
  lemma ActivityCoversWeek(es: seq<Expense>, today: Day)
    ensures SumAmounts(Activity(es, LastSevenDays(today))) == Total(Select(es, DateOf, Week(today)))
  {
    var days := LastSevenDays(today);
    assert forall i :: 0 <= i < 7 ==> days[i] == today - (6 - i);
    ActivityCoversDays(es, days);
    assert (set d | d in days) == Week(today);
  }

  // ---------------------------------------------------------------------------
  // Recent transactions (Dashboard.tsx:102-104)
  // ---------------------------------------------------------------------------

  const RecentLimit: nat := 5

  function DayKey(e: Expense): real { e.date as real }

  /** In a date-sorted arrangement of `es`, the first `n` are drawn from
      `es`, are sorted, and nothing after them is later than any of them. */
  lemma LatestPrefix(es: seq<Expense>, sorted: seq<Expense>, n: nat)
    requires n <= |sorted|
    requires multiset(sorted) == multiset(es)
    requires Sorting.SortedDesc(sorted, DayKey)
    ensures multiset(sorted[..n]) <= multiset(es)
    ensures Sorting.SortedDesc(sorted[..n], DayKey)
    ensures forall x, i :: x in multiset(es) - multiset(sorted[..n]) && 0 <= i < n ==>
      x.date <= sorted[i].date
  {
    var r := sorted[..n];
    assert sorted == r + sorted[n..];
    assert multiset(es) - multiset(r) == multiset(sorted[n..]);
    forall x, i | x in multiset(es) - multiset(r) && 0 <= i < n
      ensures x.date <= sorted[i].date {
      assert x in sorted[n..];
      var j :| n <= j < |sorted| && sorted[j] == x;
      assert DayKey(sorted[i]) >= DayKey(sorted[j]);
    }
    forall i, j | 0 <= i < j < |r| ensures DayKey(r[i]) >= DayKey(r[j]) {
      assert r[i] == sorted[i] && r[j] == sorted[j];
    }
  }

  /** The five latest expenses, newest first; ties keep list order. */
  function RecentTransactions(es: seq<Expense>): (r: seq<Expense>)
    ensures |r| == if |es| < RecentLimit then |es| else RecentLimit
    ensures multiset(r) <= multiset(es)
    ensures Sorting.SortedDesc(r, DayKey)
    ensures forall x, i :: x in multiset(es) - multiset(r) && 0 <= i < |r| ==>
      x.date <= r[i].date
  {
    var n := if |es| < RecentLimit then |es| else RecentLimit;
    var sorted := Sorting.SortDesc(es, DayKey);
    LatestPrefix(es, sorted, n);
    sorted[..n]
  }

  /** The recent transactions are the head of the one stable date-sorted
      arrangement of the list: among expenses of equal date, those earlier in
      the list are shown first and survive the cut. */
  lemma RecentTransactionsIsStablePrefix(es: seq<Expense>, sorted: seq<Expense>)
    requires multiset(sorted) == multiset(es)
    requires Sorting.SortedDesc(sorted, DayKey)
    requires forall k :: Sorting.WithKey(sorted, DayKey, k) == Sorting.WithKey(es, DayKey, k)
    ensures |sorted| == |es|
    ensures RecentTransactions(es) == sorted[..|RecentTransactions(es)|]
  {
    assert |sorted| == |multiset(sorted)| == |multiset(es)| == |es|;
    Sorting.IsTheStableSort(es, sorted, DayKey);
  }

  // ---------------------------------------------------------------------------
  // Totals and utilisation (Dashboard.tsx:106-108)
  // ---------------------------------------------------------------------------

  function TotalBudget(cs: seq<Category>): real {
    if |cs| == 0 then 0.0 else cs[0].budget + TotalBudget(cs[1..])
  }

  /** Adding a category to the end raises the total budget by its budget. */
  lemma {:induction false} TotalBudgetAppend(cs: seq<Category>, c: Category)
    ensures TotalBudget(cs + [c]) == TotalBudget(cs) + c.budget
    decreases |cs|
  {
    if |cs| == 0 {
      assert cs + [c] == [c];
    } else {
      assert (cs + [c])[1..] == cs[1..] + [c];
      TotalBudgetAppend(cs[1..], c);
    }
  }

  /** Total spend as a percentage of total budget; 0 when there is no positive
      total budget. */
  function BudgetUtilization(es: seq<Expense>, cs: seq<Category>): (u: real)
    ensures TotalBudget(cs) <= 0.0 ==> u == 0.0
    ensures TotalBudget(cs) > 0.0 ==> u * TotalBudget(cs) == Total(es) * 100.0
  {
    var budget := TotalBudget(cs);
    if budget > 0.0 then Total(es) / budget * 100.0 else 0.0
  }

  /** With a positive total budget, utilisation is at most 100 exactly when
      total spend is within total budget. */
  lemma UtilizationWithinBudget(es: seq<Expense>, cs: seq<Category>)
    requires TotalBudget(cs) > 0.0
    ensures BudgetUtilization(es, cs) <= 100.0 <==> Total(es) <= TotalBudget(cs)
  {
    RatioAtMostOne(Total(es), TotalBudget(cs));
  }

  lemma RatioAtMostOne(t: real, b: real)
    requires b > 0.0
    ensures t / b * 100.0 <= 100.0 <==> t <= b
  {
    var q := t / b;
    assert q * b == t;
    if q <= 1.0 {
      assert q * b <= 1.0 * b;
    } else {
      assert q * b > 1.0 * b;
    }
  }

  /** Utilisation does not depend on the order of the expense list. */
  lemma UtilizationPermutation(a: seq<Expense>, b: seq<Expense>, cs: seq<Category>)
    requires multiset(a) == multiset(b)
    ensures BudgetUtilization(a, cs) == BudgetUtilization(b, cs)
  {
    TotalPermutation(a, b);
  }
}
