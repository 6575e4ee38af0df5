/** The route table of the application shell (src/App.tsx) and what a visit to a
    path ends up showing once the gate in front of the dashboard has decided. */
module Routes {
  import opened Wrappers
  import opened AuthTypes
  import AuthGuard
  import Pages
  import ResetPasswordPage

  datatype Screen = Login | Register | ForgotPassword | ResetPassword | Dashboard

  /** What a route renders: a page, a page behind the auth gate, or a redirect;
      `NoRoute` when no route matches, which a table with a catch-all never gives. */
  datatype Element = Page(screen: Screen) | Guarded(screen: Screen) | Redirect(nav: Nav) | NoRoute

  /** A route's path pattern: one exact pathname, or `*`, which matches any. */
  datatype Pattern = Exact(path: string) | CatchAll

  datatype Route = Route(pattern: Pattern, element: Element)

  const ToLogin := Nav("/login", true)

  /** The routes in declaration order. */
  const Table: seq<Route> := [
    Route(Exact("/login"), Page(Login)),
    Route(Exact("/register"), Page(Register)),
    Route(Exact("/forgot-password"), Page(ForgotPassword)),
    Route(Exact("/reset-password"), Page(ResetPassword)),
    Route(Exact("/dashboard"), Guarded(Dashboard)),
    Route(Exact("/"), Redirect(ToLogin)),
    Route(CatchAll, Redirect(ToLogin))
  ]

  /** The element of the first route with pattern `pattern`. */
  function FirstWith(routes: seq<Route>, pattern: Pattern): (e: Option<Element>)
    ensures e.None? <==> forall i :: 0 <= i < |routes| ==> routes[i].pattern != pattern
    ensures e.Some? ==> exists i :: (0 <= i < |routes| && routes[i] == Route(pattern, e.value)
                                      && forall j :: 0 <= j < i ==> routes[j].pattern != pattern)
  {
    if routes == [] then None
    else if routes[0].pattern == pattern then Some(routes[0].element)
    else
      var e := FirstWith(routes[1..], pattern);
      assert forall j :: 0 < j < |routes| ==> routes[j] == routes[1..][j - 1];
      e
  }

  /** The first route with a pattern is the one found. */
  lemma {:induction false} FirstWithWins(routes: seq<Route>, pattern: Pattern, i: nat)
    requires i < |routes| && routes[i].pattern == pattern
    requires forall j :: 0 <= j < i ==> routes[j].pattern != pattern
    ensures FirstWith(routes, pattern) == Some(routes[i].element)
  {
    if i > 0 {
      FirstWithWins(routes[1..], pattern, i - 1);
    }
  }

  /** The element of the route that wins for `path`: an exact pathname ranks above
      the catch-all, so `*` only takes what no exact route claims. */
  function Resolve(path: string): (e: Element)
    ensures forall i :: (0 <= i < |Table| && Table[i].pattern == Exact(path)
                         && forall j :: 0 <= j < i ==> Table[j].pattern != Exact(path))
                        ==> e == Table[i].element
    ensures (forall i :: 0 <= i < |Table| ==> Table[i].pattern != Exact(path)) ==>
      forall i :: (0 <= i < |Table| && Table[i].pattern == CatchAll
                   && forall j :: 0 <= j < i ==> Table[j].pattern != CatchAll)
                  ==> e == Table[i].element
  {
    match FirstWith(Table, Exact(path))
    case Some(e) => e
    case None => FirstWith(Table, CatchAll).GetOr(NoRoute)
  }

  /** The paths the table names exactly. */
  predicate Declared(path: string)
  {
    path in {"/login", "/register", "/forgot-password", "/reset-password", "/dashboard", "/"}
  }

  /** Each public path shows its page; the dashboard is behind the gate; `/` and
      every undeclared path redirect to the login page, replacing the history entry. */
  lemma ResolveTable(path: string)
    ensures path == "/login" ==> Resolve(path) == Page(Login)
    ensures path == "/register" ==> Resolve(path) == Page(Register)
    ensures path == "/forgot-password" ==> Resolve(path) == Page(ForgotPassword)
    ensures path == "/reset-password" ==> Resolve(path) == Page(ResetPassword)
    ensures path == "/dashboard" ==> Resolve(path) == Guarded(Dashboard)
    ensures path == "/" || !Declared(path) ==> Resolve(path) == Redirect(ToLogin)
  {
    if path == "/login" {
      FirstWithWins(Table, Exact(path), 0);
    } else if path == "/register" {
      FirstWithWins(Table, Exact(path), 1);
    } else if path == "/forgot-password" {
      FirstWithWins(Table, Exact(path), 2);
    } else if path == "/reset-password" {
      FirstWithWins(Table, Exact(path), 3);
    } else if path == "/dashboard" {
      FirstWithWins(Table, Exact(path), 4);
    } else if path == "/" {
      FirstWithWins(Table, Exact(path), 5);
    } else {
      FirstWithWins(Table, CatchAll, 6);
    }
  }

  /** The dashboard is the only guarded route, and every redirect in the table goes
      to the login page. */
  lemma GuardAndRedirects(path: string)
    ensures Resolve(path).Guarded? <==> path == "/dashboard"
    ensures Resolve(path).Redirect? ==> Resolve(path).nav == ToLogin
    ensures Resolve(path).Redirect? <==> path == "/" || !Declared(path)
  {
    ResolveTable(path);
  }

  /** What a visitor ends up looking at. */
  datatype Outcome = Shows(screen: Screen) | Loading | Navigates(nav: Nav) | Blank

  /** A visit to `path` with the given session flags: the route's element, with the
      gate deciding for a guarded one. */
  function Visit(path: string, isLoading: bool, isAuthenticated: bool): (o: Outcome)
    ensures Resolve(path).Page? ==> o == Shows(Resolve(path).screen)
    ensures Resolve(path).Redirect? ==> o == Navigates(Resolve(path).nav)
    ensures Resolve(path).Guarded? ==>
      && (o == Loading <==> isLoading)
      && (o == Navigates(AuthGuard.LoginRedirect) <==> !isLoading && !isAuthenticated)
      && (o == Shows(Resolve(path).screen) <==> !isLoading && isAuthenticated)
  {
    match Resolve(path)
    case Page(s) => Shows(s)
    case Redirect(nav) => Navigates(nav)
    case NoRoute => Blank
    case Guarded(s) =>
      match AuthGuard.Decide(isLoading, isAuthenticated)
      case ShowLoading => Loading
      case RedirectTo(nav) => Navigates(nav)
      case RenderChildren => Shows(s)
  }

  /** The dashboard shows exactly for an authenticated, settled session on
      `/dashboard`; nothing else ever shows it. */
  lemma DashboardOnlyWhenAuthenticated(path: string, isLoading: bool, isAuthenticated: bool)
    ensures Visit(path, isLoading, isAuthenticated) == Shows(Dashboard) <==>
      path == "/dashboard" && !isLoading && isAuthenticated
  {
    ResolveTable(path);
  }

  /** Only the dashboard route looks at the session: every other path shows the
      same thing whatever its flags. */
  lemma OnlyDashboardDependsOnSession(path: string, l1: bool, a1: bool, l2: bool, a2: bool)
    requires path != "/dashboard"
    ensures Visit(path, l1, a1) == Visit(path, l2, a2)
  {
    GuardAndRedirects(path);
  }

  /** Every navigation a visit starts leads to the login page, which shows at once:
      no visit bounces through more than one redirect. */
  lemma RedirectsLandOnLogin(path: string, isLoading: bool, isAuthenticated: bool)
    ensures Visit(path, isLoading, isAuthenticated).Navigates? ==>
      && Visit(path, isLoading, isAuthenticated).nav == ToLogin
      && Visit(ToLogin.to, isLoading, isAuthenticated) == Shows(Login)
  {
    ResolveTable(path);
    ResolveTable(ToLogin.to);
  }

  /** A reset link without a token sends the visitor to the forgot-password page. */
  lemma MissingTokenLandsOnForgotPassword(search: string, isLoading: bool, isAuthenticated: bool)
    requires ResetPasswordPage.TokenFrom(search) == ""
    ensures var nav := ResetPasswordPage.RedirectWhenNoToken(ResetPasswordPage.TokenFrom(search));
      && nav.Some?
      && Visit(nav.value.to, isLoading, isAuthenticated) == Shows(ForgotPassword)
  {
    ResolveTable("/forgot-password");
  }

  /** The success panels' button back to login reaches the login route whatever the
      session (the login page's own effect then decides whether to move on). */
  lemma SuccessPanelsReturnToLogin(isLoading: bool, isAuthenticated: bool)
    ensures Visit(Pages.BackToLogin.to, isLoading, isAuthenticated) == Shows(Login)
    ensures !Pages.BackToLogin.replace
  {
    ResolveTable(Pages.BackToLogin.to);
  }

  /** Once the session is authenticated and settled, the redirect the login and
      register pages make shows the dashboard. */
  lemma AuthenticatedVisitorReachesDashboard()
    ensures Pages.RedirectIfAuthenticated(true).Some?
    ensures Visit(Pages.RedirectIfAuthenticated(true).value.to, false, true) == Shows(Dashboard)
  {
    ResolveTable("/dashboard");
  }
}
