/** The client's route table and its two guards. A guard decides from the
    session's `user` and `loading` alone; following the redirects from a path
    ends on the page that is shown. */
module AppRoutes {
  import opened Wrappers
  import opened Js
  import opened AuthContext

  /** What a guard renders: the loading spinner, its child page, or a redirect. */
  datatype Element = Spinner | Children | RedirectTo(path: string)

  const LoginPath := "/login"
  const RegisterPath := "/register"
  const DebugPath := "/debug"
  const DashboardPath := "/dashboard"
  const AdminPath := "/admin"
  const RootPath := "/"

  /** `ProtectedRoute`: the spinner while loading; then the page for a
      signed-in user and a redirect to the login page otherwise. */
  function ProtectedRoute(user: Option<SessionUser>, loading: bool): (e: Element)
    ensures loading ==> e == Spinner
    ensures !loading ==> (e == Children <==> user.Some?)
    ensures !loading && user.None? ==> e == RedirectTo(LoginPath)
  {
    if loading then Spinner
    else if user.Some? then Children
    else RedirectTo(LoginPath)
  }

  /** `AdminRoute`: the spinner while loading; then the page for a signed-in
      admin, and a redirect to the dashboard (not the login page) otherwise. */
  function AdminRoute(user: Option<SessionUser>, loading: bool): (e: Element)
    ensures loading ==> e == Spinner
    ensures !loading ==> (e == Children <==> user.Some? && TruthyInt(user.value.isAdmin))
    ensures !loading && !(user.Some? && TruthyInt(user.value.isAdmin)) ==> e == RedirectTo(DashboardPath)
  {
    if loading then Spinner
    else if user.Some? && TruthyInt(user.value.isAdmin) then Children
    else RedirectTo(DashboardPath)
  }

  datatype Page = LoginPage | RegisterPage | DebugPage | DashboardPage | AdminPanelPage | LoadingPage | NoPage

  /** One rendering of a path: a page, or a navigation to another path. */
  datatype Screen = Show(page: Page) | Go(to: string)

  function Guarded(e: Element, page: Page): Screen {
    match e
    case Spinner => Show(LoadingPage)
    case Children => Show(page)
    case RedirectTo(to) => Go(to)
  }

  /** The route table: three unguarded pages, the dashboard behind
      `ProtectedRoute`, the admin panel behind `AdminRoute`, `/` redirecting to
      the dashboard, and nothing for any other path. */
  function Render(path: string, user: Option<SessionUser>, loading: bool): (r: Screen)
    ensures r.Go? ==> (r.to == DashboardPath || r.to == LoginPath) && Rank(r.to) < Rank(path)
    ensures path == DashboardPath && !loading && user.None? ==> r == Go(LoginPath)
    ensures path == AdminPath && !loading && !(user.Some? && TruthyInt(user.value.isAdmin)) ==> r == Go(DashboardPath)
    ensures r == Show(DashboardPage) <==> path == DashboardPath && !loading && user.Some?
    ensures r == Show(AdminPanelPage) <==> path == AdminPath && !loading && user.Some? && TruthyInt(user.value.isAdmin)
    ensures r == Show(LoadingPage) <==> loading && (path == DashboardPath || path == AdminPath)
    ensures r == Show(NoPage) <==> path !in {LoginPath, RegisterPath, DebugPath, DashboardPath, AdminPath, RootPath}
  {
    if path == LoginPath then Show(LoginPage)
    else if path == RegisterPath then Show(RegisterPage)
    else if path == DebugPath then Show(DebugPage)
    else if path == DashboardPath then Guarded(ProtectedRoute(user, loading), DashboardPage)
    else if path == AdminPath then Guarded(AdminRoute(user, loading), AdminPanelPage)
    else if path == RootPath then Go(DashboardPath)
    else Show(NoPage)
  }

  /** How many redirects a path can still take: every redirect lowers it. */
  function Rank(path: string): nat {
    if path == RootPath || path == AdminPath then 2 else if path == DashboardPath then 1 else 0
  }

  /** Follows redirects from `path`: the page finally shown and the paths
      visited on the way. A guarded page is shown only to a session that
      passes its guard. */
  function Visit(path: string, user: Option<SessionUser>, loading: bool): (r: (Page, seq<string>))
    decreases Rank(path)
    ensures 1 <= |r.1| <= Rank(path) + 1 && r.1[0] == path
    ensures r.0 == DashboardPage ==> !loading && user.Some?
    ensures r.0 == AdminPanelPage ==> !loading && user.Some? && TruthyInt(user.value.isAdmin)
    ensures r.0 == LoadingPage ==> loading
  {
    match Render(path, user, loading)
    case Show(page) => (page, [path])
    case Go(to) =>
      assert Rank(to) < Rank(path);
      var next := Visit(to, user, loading);
      (next.0, [path] + next.1)
  }

  /** The unguarded pages show whatever the session is. */
  lemma UnguardedPagesAlwaysShown(user: Option<SessionUser>, loading: bool)
    ensures Visit(LoginPath, user, loading) == (LoginPage, [LoginPath])
    ensures Visit(RegisterPath, user, loading) == (RegisterPage, [RegisterPath])
    ensures Visit(DebugPath, user, loading) == (DebugPage, [DebugPath])
  {
  }

  /** While the session is loading, every guarded path shows the spinner. */
  lemma LoadingShowsSpinner(user: Option<SessionUser>)
    ensures Visit(DashboardPath, user, true).0 == LoadingPage
    ensures Visit(AdminPath, user, true).0 == LoadingPage
    ensures Visit(RootPath, user, true).0 == LoadingPage
  {
  }

  /** A visitor without a session who opens the admin panel is sent to the
      dashboard and from there to the login page. */
  lemma SignedOutAdminVisitEndsAtLogin()
    ensures Visit(AdminPath, None, false) == (LoginPage, [AdminPath, DashboardPath, LoginPath])
  {
    assert Render(AdminPath, None, false) == Go(DashboardPath);
    assert Render(DashboardPath, None, false) == Go(LoginPath);
    var fromDashboard := Visit(DashboardPath, None, false);
    assert fromDashboard.1 == [DashboardPath] + [LoginPath];
    var trail := Visit(AdminPath, None, false).1;
    assert trail == [AdminPath] + fromDashboard.1;
    var expected := [AdminPath, DashboardPath, LoginPath];
    assert |trail| == 3 && trail[0] == AdminPath && trail[1] == DashboardPath && trail[2] == LoginPath;
    assert forall i | 0 <= i < 3 :: trail[i] == expected[i];
    assert trail == expected;
  }

  /** A signed-in non-admin who opens the admin panel lands on the dashboard. */
  lemma NonAdminAdminVisitEndsAtDashboard(u: SessionUser)
    requires !TruthyInt(u.isAdmin)
    ensures Visit(AdminPath, Some(u), false) == (DashboardPage, [AdminPath, DashboardPath])
  {
    assert Render(AdminPath, Some(u), false) == Go(DashboardPath);
    assert Render(DashboardPath, Some(u), false) == Show(DashboardPage);
    var trail := Visit(AdminPath, Some(u), false).1;
    assert trail == [AdminPath] + [DashboardPath];
    var expected := [AdminPath, DashboardPath];
    assert |trail| == 2 && trail[0] == AdminPath && trail[1] == DashboardPath;
    assert forall i | 0 <= i < 2 :: trail[i] == expected[i];
    assert trail == expected;
  }

  /** `/` always goes to the dashboard first. */
  lemma RootRedirectsToDashboard(user: Option<SessionUser>, loading: bool)
    ensures Render(RootPath, user, loading) == Go(DashboardPath)
    ensures Visit(RootPath, user, loading).1[..2] == [RootPath, DashboardPath]
  {
  }
}
