/** The top-level screen controller (App.tsx): which screen is shown, who is
    signed in, and whether the dark theme is on. */
module App {
  import opened Wrappers
  import opened Types

  datatype AppState = AppState(view: ViewState, user: Option<User>, darkMode: bool)

  /** The state on first render: the landing page, nobody signed in, light
      theme. */
  const Initial: AppState := AppState(Landing, None, false)

  /** The handlers App passes to its screens. */
  datatype Event =
    | GetStarted      // landing page: "get started"
    | Back            // auth screen: "back"
    | LogIn(u: User)  // auth screen: sign-up or log-in succeeded
    | LogOut          // dashboard: "sign out"
    | ToggleTheme     // dashboard: theme button

  /** What a handler does to the state. Handlers are unconditional setters. */
  function Step(s: AppState, e: Event): (r: AppState)
    ensures r.darkMode == (if e.ToggleTheme? then !s.darkMode else s.darkMode)
    ensures e.ToggleTheme? ==> r.view == s.view && r.user == s.user
    ensures e.GetStarted? ==> r == s.(view := Auth)
    ensures e.Back? ==> r == s.(view := Landing)
    ensures e.LogIn? ==> r.view == Dashboard && r.user == Some(e.u)
    ensures e.LogOut? ==> r.view == Landing && r.user == None
  {
    match e
    case GetStarted => s.(view := Auth)
    case Back => s.(view := Landing)
    case LogIn(u) => s.(user := Some(u), view := Dashboard)
    case LogOut => s.(user := None, view := Landing)
    case ToggleTheme => s.(darkMode := !s.darkMode)
  }

  /** Toggling the theme twice restores the state. */
  lemma ToggleTwice(s: AppState)
    ensures Step(Step(s, ToggleTheme), ToggleTheme) == s
  {
  }

  /** What is on screen. The dashboard renders only with a signed-in user; a
      dashboard view without one renders nothing. */
  datatype Screen = LandingScreen | AuthScreen | DashboardScreen(user: User) | Blank

  function Render(s: AppState): (r: Screen)
    ensures r.DashboardScreen? <==> s.view == Dashboard && s.user.Some?
    ensures r.DashboardScreen? ==> r.user == s.user.value
    ensures r.Blank? <==> s.view == Dashboard && s.user.None?
    ensures s.view == Landing ==> r == LandingScreen
    ensures s.view == Auth ==> r == AuthScreen
  {
    match s.view
    case Landing => LandingScreen
    case Auth => AuthScreen
    case Dashboard => if s.user.Some? then DashboardScreen(s.user.value) else Blank
  }

  /** The dashboard view always has a signed-in user. */
  predicate DashboardHasUser(s: AppState) {
    s.view == Dashboard ==> s.user.Some?
  }

  /** Every handler keeps `DashboardHasUser`. */
  lemma StepKeepsDashboardHasUser(s: AppState, e: Event)
    requires DashboardHasUser(s)
    ensures DashboardHasUser(Step(s, e))
  {
  }

  /** The state after running the handlers `es` in order from `s`. */
  function Run(s: AppState, es: seq<Event>): AppState
    decreases |es|
  {
    if |es| == 0 then s else Run(Step(s, es[0]), es[1..])
  }

  /** In every state reachable from the initial one, by any sequence of
      handler calls, the dashboard view has a user, so the screen is never
      blank. */
  lemma {:induction false} ReachableDashboardHasUser(s: AppState, es: seq<Event>)
    requires DashboardHasUser(s)
    ensures DashboardHasUser(Run(s, es))
    ensures !Render(Run(s, es)).Blank?
    decreases |es|
  {
    if |es| > 0 {
      StepKeepsDashboardHasUser(s, es[0]);
      ReachableDashboardHasUser(Step(s, es[0]), es[1..]);
    }
  }

  lemma InitialDashboardHasUser(es: seq<Event>)
    ensures DashboardHasUser(Run(Initial, es))
    ensures !Render(Run(Initial, es)).Blank?
  {
    ReachableDashboardHasUser(Initial, es);
  }

  /** Whether the handler is wired to the screen being shown: the landing page
      offers "get started", the auth screen "back" and log-in, the dashboard
      sign-out and the theme toggle. */
  predicate Enabled(s: AppState, e: Event) {
    match Render(s)
    case LandingScreen => e.GetStarted?
    case AuthScreen => e.Back? || e.LogIn?
    case DashboardScreen(_) => e.LogOut? || e.ToggleTheme?
    case Blank => false
  }

  /** A user interaction: only a handler on screen can fire. */
  function Dispatch(s: AppState, e: Event): (r: AppState)
    ensures r.view == Dashboard && s.view != Dashboard ==> s.view == Auth && e.LogIn?
    ensures s.view != Dashboard ==> r.darkMode == s.darkMode
    ensures s.view == Landing ==> r.user == s.user
    ensures s.view == Dashboard && s.user.Some? && e.LogIn? ==> r == s
    ensures s.view == Landing && e.GetStarted? ==> r == s.(view := Auth)
    ensures s.view == Auth && e.Back? ==> r == s.(view := Landing)
    ensures s.view == Auth && e.LogIn? ==> r == s.(view := Dashboard, user := Some(e.u))
    ensures s.view == Dashboard && s.user.Some? && e.LogOut? ==> r == s.(view := Landing, user := None)
    ensures s.view == Dashboard && s.user.Some? && e.ToggleTheme? ==> r == s.(darkMode := !s.darkMode)
    ensures s.view == Landing && !e.GetStarted? ==> r == s
    ensures s.view == Auth && !(e.Back? || e.LogIn?) ==> r == s
    ensures s.view == Dashboard && (s.user.None? || !(e.LogOut? || e.ToggleTheme?)) ==> r == s
  {
    if Enabled(s, e) then Step(s, e) else s
  }

  /** Through the user interface the stronger invariant holds: a user is
      signed in exactly when the dashboard is shown. */
  predicate SignedInOnDashboard(s: AppState) {
    s.user.Some? <==> s.view == Dashboard
  }

  function RunUI(s: AppState, es: seq<Event>): AppState
    decreases |es|
  {
    if |es| == 0 then s else RunUI(Dispatch(s, es[0]), es[1..])
  }

  lemma {:induction false} ReachableSignedInOnDashboard(s: AppState, es: seq<Event>)
    requires SignedInOnDashboard(s)
    ensures SignedInOnDashboard(RunUI(s, es))
    decreases |es|
  {
    if |es| > 0 {
      var e := es[0];
      assert SignedInOnDashboard(Dispatch(s, e));
      ReachableSignedInOnDashboard(Dispatch(s, e), es[1..]);
    }
  }

  lemma InitialSignedInOnDashboard(es: seq<Event>)
    ensures SignedInOnDashboard(RunUI(Initial, es))
  {
    ReachableSignedInOnDashboard(Initial, es);
  }
}
