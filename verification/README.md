# TrackIt core, modelled in Dafny

TrackIt is a browser personal-finance tracker: users sign up or log in, record
expenses against budget categories, and read charts derived from those lists.
This project models its logic without the React markup:

- **Dashboard analytics** (`analytics.dfy`, module `Analytics`): spend per
  category, budget performance (clamped usage percentages, stably sorted by
  usage), the seven-day activity series, the five most recent transactions,
  total spend, total budget and budget utilisation.
- **Dashboard edits** (`edits.dfy`, module `Edits`): add expense, delete
  expense, add category and update budget as pure list transformers.
- **Storage** (`storage.dfy`, module `Storage`): the credential registry and
  the per-user datasets over `localStorage`, modelled as a map from key to
  stored value. Covers the default categories, sign-up with e-mail uniqueness,
  credential checking with its no-password bypass, and load/save of a dataset.
- **Screen controller** (`app.dfy`, module `App`): the landing → auth →
  dashboard → landing state machine with the signed-in user and theme flag.
  It includes the reachability invariant that the dashboard is only shown with
  a signed-in user.
- Supporting modules: `Types` (the records of `types.ts`), `Sorting` (a stable
  descending sort with a proof that its result is the only stable outcome),
  `Seqs` (subsequences), `Wrappers` (`Option`, `Result`), and `Scenarios`
  (facts that combine the store with the dashboard).

Modelling choices:

- Amounts and budgets are exact `real`s.
- A date is a day number (`Types.Day`). For well-formed ISO `yyyy-mm-dd`
  strings, string equality and `Date` time order agree with equality and order
  of day numbers.
- The inputs the app draws from the environment become parameters:
  - the `Date.now()` id of a new expense or category;
  - the `Math.random()` colour of a new category;
  - today's date for the activity window and for the form reset.
- The amount and budget fields are `Option`s: `None` is the empty field. The
  text "0" is non-empty in JavaScript, so `Some(0.0)` passes the check, as it
  does in the app. The text fields (description, category, category name) are
  strings, empty when they equal `""`.
- The dashboard's load-on-mount and save-on-change effects are the explicit
  calls `Storage.GetUserData` and `Storage.SaveUserData`.

Facts about the code that the model reflects:

- A category with a zero budget is not guarded. `(spent / 0) * 100` is
  Infinity when spend is positive, and `Math.min` clamps it to 100
  (components/Dashboard.tsx:79), as in the model.
- `Array.prototype.sort` has been stable since ES2019, so recent transactions
  with equal dates keep their list order (components/Dashboard.tsx:103), and so
  do the model's: `Analytics.RecentTransactionsIsStablePrefix` proves they are
  the head of the one stable date-sorted arrangement.
- The pie chart's values add up to the spend on known categories when
  category ids are distinct and no amount is negative. Those are the
  preconditions of `Analytics.SpendingCoversKnownCategories`.

## Model

| member | source | states |
|---|---|---|
| `Analytics.Select` | components/Dashboard.tsx:71 | the filtered list holds the expenses whose key is selected and no other, in list order |
| `Analytics.SelectCounts` | components/Dashboard.tsx:71 | every copy of a selected expense is kept and every copy of another is dropped |
| `Analytics.TotalPermutation` | components/Dashboard.tsx:106 | total spend is the same for any reordering of the expense list |
| `Analytics.SpendingByCategory` | components/Dashboard.tsx:69-74 | the slices are the per-category entries with positive spend and no other, every category with positive spend has its slice, and slices follow category order |
| `Analytics.SpendingByCategoryCounts` | components/Dashboard.tsx:69-74 | each positive per-category entry appears in the slices exactly as often as in the per-category list, and no other entry appears |
| `Analytics.PositiveOnly` | components/Dashboard.tsx:73 | keeps the entries with positive value and no other, in order |
| `Analytics.PositiveOnlyCounts` | components/Dashboard.tsx:73 | every copy of a positive entry is kept and every copy of another is dropped |
| `Analytics.PositiveOnlyNone` | components/Dashboard.tsx:73 | with no positive entry the filter yields no slice |
| `Analytics.EntriesCoverKnownCategories` | components/Dashboard.tsx:70-72 | with distinct category ids, the per-category sums add up to the spend filed under some known category |
| `Analytics.SpendingCoversKnownCategories` | components/Dashboard.tsx:69-74 | with distinct ids and non-negative amounts, the pie chart adds up to the spend on known categories |
| `Analytics.Percentage` | components/Dashboard.tsx:79 | usage is at most 100; with a positive budget it is 100 exactly when spend reaches the budget, and otherwise spend/budget*100 |
| `Analytics.BudgetPerformance` | components/Dashboard.tsx:76-81 | one row per category, a permutation of the mapped rows, sorted non-increasing by usage, equal-usage rows in category order, every usage at most 100 |
| `Analytics.BudgetPerformanceIsTheStableSort` | components/Dashboard.tsx:80 | any sorted, stable permutation of the rows is the model's result |
| `Analytics.LastSevenDays` | components/Dashboard.tsx:85-89 | seven consecutive days ending with today, oldest first |
| `Analytics.Activity` | components/Dashboard.tsx:91-99 | one point per input day, in input order, each summing the expenses dated that day |
| `Analytics.ActivityCoversDays` | components/Dashboard.tsx:91-99 | over distinct days, the points add up to the spend dated on any of those days |
| `Analytics.ActivityCoversWeek` | components/Dashboard.tsx:84-100 | the seven points add up to the spend dated from six days before today through today |
| `Analytics.LatestPrefix` | components/Dashboard.tsx:103 | a prefix of the date-sorted list is sorted, drawn from the expenses, and no expense left out is later than one kept |
| `Analytics.RecentTransactions` | components/Dashboard.tsx:102-104 | min(5, n) expenses from the list, newest first, and no expense left out is later than one shown |
| `Analytics.RecentTransactionsIsStablePrefix` | components/Dashboard.tsx:102-104 | the recent transactions are the head of the stable date-sorted list: among equal dates, list order decides which are shown and in what order |
| `Analytics.BudgetUtilization` | components/Dashboard.tsx:107-108 | 0 when the total budget is not positive, otherwise total spend / total budget * 100 |
| `Analytics.UtilizationWithinBudget` | components/Dashboard.tsx:106-108 | with a positive total budget, utilisation is at most 100 exactly when total spend is within total budget |
| `Analytics.UtilizationPermutation` | components/Dashboard.tsx:106-108 | utilisation does not depend on the order of the expenses |
| `Sorting.Insert` | components/Dashboard.tsx:80 | insertion adds exactly one element and keeps all others |
| `Sorting.InsertSorted` | components/Dashboard.tsx:80 | inserting into a sorted list keeps it sorted |
| `Sorting.SortDesc` | components/Dashboard.tsx:80 | the result is a permutation of the input, sorted non-increasing by key |
| `Sorting.SortStable` | components/Dashboard.tsx:80 | elements with equal keys keep their relative order |
| `Sorting.StableSortUnique` | components/Dashboard.tsx:80 | two sorted, stable arrangements of the same elements are equal |
| `Sorting.IsTheStableSort` | components/Dashboard.tsx:80 | every stable sorted permutation of the input equals the model's sort |
| `Edits.AddExpense` | components/Dashboard.tsx:110-124 | an incomplete form changes nothing; otherwise the new expense is prepended, the old list follows unchanged, and the form is reset |
| `Edits.AddExpenseTotal` | components/Dashboard.tsx:122 | a successful add raises total spend by the new amount |
| `Edits.DeleteExpense` | components/Dashboard.tsx:146-148 | the result holds the expenses with another id and no other, in original order |
| `Edits.DeleteExpenseCounts` | components/Dashboard.tsx:147 | every copy of an expense with another id is kept and every copy with the id is dropped |
| `Edits.DeleteAbsent` | components/Dashboard.tsx:147 | deleting an id no expense carries changes nothing |
| `Edits.DeleteUndoesAdd` | components/Dashboard.tsx:146-148 | adding under a fresh id and deleting that id restores the list |
| `Edits.DeleteExpenseTotal` | components/Dashboard.tsx:146-148 | with unique ids, deleting one expense lowers total spend by its amount |
| `Edits.AddCategory` | components/Dashboard.tsx:126-138 | an incomplete form changes nothing; otherwise the new category is appended after the unchanged list and the form is reset |
| `Edits.AddCategoryTotal` | components/Dashboard.tsx:136 | a successful add raises the total budget by the new budget |
| `Edits.UpdateBudget` | components/Dashboard.tsx:140-144 | same length and order; only the budget of categories with the id changes |
| `Edits.UpdateBudgetIdempotent` | components/Dashboard.tsx:140-144 | applying an update twice equals applying it once |
| `Edits.UpdateMissing` | components/Dashboard.tsx:140-144 | updating an id no category carries changes nothing |
| `Edits.UpdateBudgetTotal` | components/Dashboard.tsx:140-144 | with unique ids, the total budget changes by new minus old budget |
| `Storage.DataKeyDistinct` | services/storage.ts:3-4 | dataset keys never equal the registry key, and distinct e-mails give distinct keys |
| `Storage.GetUsers` | services/storage.ts:18-24 | the stored registry, or the empty list when nothing is stored |
| `Storage.FindUser` | services/storage.ts:48 | finds a record with the e-mail exactly when one exists, and it is the first such record in registry order |
| `Storage.CreateUser` | services/storage.ts:26-44 | a taken e-mail fails and leaves the store unchanged; otherwise exactly one record is appended, the new dataset is the default one, and no other key changes |
| `Storage.CreateUserKeepsEmailsDistinct` | services/storage.ts:26-34 | registry e-mails stay pairwise distinct |
| `Storage.CreateUserTwice` | services/storage.ts:26-30 | a second sign-up with the same e-mail fails without effect |
| `Storage.VerifyCredentials` | services/storage.ts:46-57 | unknown e-mail gives none; a supplied password must equal the stored one; an absent or empty password is accepted; any result is the stored name of the first matching record with the queried e-mail |
| `Storage.SignUpThenLogIn` | services/storage.ts:46-56 | right after sign-up, the chosen password logs the new user in |
| `Storage.FindUserAppend` | services/storage.ts:33 | a record appended under a new e-mail is found by that e-mail |
| `Storage.GetUserData` | services/storage.ts:61-68 | the stored dataset, or no expenses and the default categories when none is stored |
| `Storage.SaveUserData` | services/storage.ts:70-72 | only the e-mail's dataset key changes |
| `Storage.SaveThenLoad` | services/storage.ts:61-72 | loading after saving returns what was saved; other users' datasets and the registry are unchanged |
| `Storage.NewAccountDataset` | services/storage.ts:36-41 | a new account's dataset is no expenses and the default categories |
| `Scenarios.DefaultCategoriesFacts` | services/storage.ts:7-13 | five default categories, distinct ids, budgets totalling 1550 |
| `Scenarios.NewAccountDashboard` | services/storage.ts:36-41 | a new account shows an empty pie chart, 0% utilisation of 1550, and no recent transactions |
| `Scenarios.FoodOverBudget` | components/Dashboard.tsx:69-108 | expenses of 120 and 450 against a 500 budget give spend 570, usage clamped to 100 and utilisation 114 |
| `App.Step` | App.tsx:28-38 | log-in sets the user and shows the dashboard; log-out clears the user and shows the landing page; the theme toggle flips only the theme |
| `App.ToggleTwice` | App.tsx:28 | toggling the theme twice restores the state |
| `App.Render` | App.tsx:42-58 | the landing view renders the landing page, the auth view the auth screen, and the dashboard renders exactly when the view is dashboard and a user is present |
| `App.StepKeepsDashboardHasUser` | App.tsx:28-38 | every handler keeps "dashboard view implies a user" |
| `App.ReachableDashboardHasUser` | App.tsx:51 | after any sequence of handlers, the dashboard view has a user and the screen is never blank |
| `App.InitialDashboardHasUser` | App.tsx:8-10 | from the initial state (landing, no user), every reachable state keeps the invariant |
| `App.Dispatch` | App.tsx:28-56 | through the wired handlers, the dashboard is entered only by logging in from the auth screen, the theme changes only on the dashboard, the landing page never changes the user, and a log-in event on a signed-in dashboard changes nothing; and each wired handler fires: get-started opens auth, back returns to landing, log-in opens the dashboard with the user, sign-out returns to landing with nobody, and the toggle flips the theme; any event with no handler on the current screen (and every event on a blank dashboard) leaves the state unchanged |
| `App.ReachableSignedInOnDashboard` | App.tsx:30-49 | through the screens' own handlers, a user is signed in exactly when the dashboard view is active |
| `App.InitialSignedInOnDashboard` | App.tsx:8-10 | that equivalence holds in every state reachable from the initial state |

## Left out

- `Analytics.Percentage`: for a zero budget with zero or negative spend Dashboard.tsx computes NaN or -Infinity. A NaN row's position after sorting depends on the engine. The model uses 0 for both cases.
- `Analytics.Activity`: the weekday label (`toLocaleDateString`) is left out. Building the window with `new Date()` and `toISOString` is replaced by day arithmetic, so time zones are left out.
- `Storage.GetUsers`: a stored value that is not a registry reads as the empty list. In storage.ts, unreadable JSON gives the empty list, but well-formed JSON of the wrong shape is returned as is.
- `Storage.GetUserData`: a stored value that is not a dataset reads as the default dataset. In storage.ts, unreadable JSON throws.
- `Storage.CreateUser`: storage.ts spreads every field of the user object into the record. The model stores name, e-mail and password only.
- JSON serialisation is left out: a stored value reads back as itself.
- Floating point is left out: `parseFloat`, rounding in sums, and `toFixed` display. A budget edit that leaves the field empty makes `parseFloat` return NaN; this is not modelled.
- `isDataLoaded` gating and the React effects are left out. Loading and saving are explicit calls.
- The system dark-mode preference (`window.matchMedia`) and the document class toggling are left out. The initial theme is light.
- The Auth component's sign-up and log-in modes are not part of this model. `App.Step`'s `LogIn` event takes the user that component hands over.
- The landing page markup and the external advice service are not part of this model.
- The dashboard's tab switching and chart rendering are left out because they hold no logic beyond the derived values above.
