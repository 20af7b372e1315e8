/**
 * The application shell (src/App.tsx): the `checked` gate, the redirect of
 * "/", and the route table with its guarded and open routes. `checkAuth` and
 * `checked` come from the store, which does not define them; here they are
 * inputs.
 */
module App {
  import opened Wrappers
  import opened ProtectedRoute

  datatype Page = Dashboard | Deposit | Transfer | Profile | Movements | Login | Register | Recovery

  datatype Route = Route(path: string, page: Page, guarded: bool)

  /** The table, in declaration order; "/" is handled before it. */
  const ROUTES: seq<Route> := [
    Route("/dashboard", Dashboard, true),
    Route("/ingresar", Deposit, true),
    Route("/transferir", Transfer, true),
    Route("/profile", Profile, true),
    Route("/movimientos", Movements, true),
    Route("/login", Login, false),
    Route("/register", Register, false),
    Route("/recovery", Recovery, false)
  ]

  /** The first route whose path is `path`. */
  function Lookup(routes: seq<Route>, path: string): (r: Option<Route>)
    ensures r.None? <==> forall i :: 0 <= i < |routes| ==> routes[i].path != path
    ensures r.Some? ==> r.value in routes && r.value.path == path
    ensures r.Some? ==>
      exists i :: 0 <= i < |routes| && routes[i] == r.value && (forall j :: 0 <= j < i ==> routes[j].path != path)
  {
    if routes == [] then None
    else if routes[0].path == path then Some(routes[0])
    else
      var r := Lookup(routes[1..], path);
      if r.Some? then
        var i :| 0 <= i < |routes| - 1 && routes[1..][i] == r.value &&
          forall j :: 0 <= j < i ==> routes[1..][j].path != path;
        assert routes[i + 1] == r.value;
        assert forall j :: 1 <= j < i + 1 ==> routes[j].path == routes[1..][j - 1].path;
        r
      else r
  }

  /** What the shell renders. */
  datatype Screen =
    | AppLoading                            // the "cargando..." paragraph
    | NavigateTo(to: string, replace: bool)
    | GuardedPage(page: Page, guard: Guard)
    | OpenPage(page: Page)
    | NoMatch

  /** The screen for `path` given the store's flags. */
  function Render(path: string, checked: bool, loading: bool, isLogged: bool): (s: Screen)
    ensures !checked ==> s == AppLoading
    ensures checked && path == "/" ==> s == NavigateTo(if isLogged then "/dashboard" else "/login", false)
    ensures s.GuardedPage? ==> s.guard == Decide(loading, isLogged)
    ensures s == NoMatch <==> checked && path != "/" && Lookup(ROUTES, path).None?
  {
    if !checked then AppLoading
    else if path == "/" then NavigateTo(if isLogged then "/dashboard" else "/login", false)
    else match Lookup(ROUTES, path)
      case None => NoMatch
      case Some(r) => if r.guarded then GuardedPage(r.page, Decide(loading, isLogged)) else OpenPage(r.page)
  }

  /** The effects of mounting the shell: `checkAuth()` runs once. */
  datatype Effect = CheckAuth

  function MountEffects(): (e: seq<Effect>)
    ensures |e| == 1 && e[0] == CheckAuth
  {
    [CheckAuth]
  }

  /** No two routes share a path, so the order of the table does not matter. */
  lemma PathsDistinct()
    ensures forall i, j :: 0 <= i < j < |ROUTES| ==> ROUTES[i].path != ROUTES[j].path
  {
  }

  /** In a table without repeated paths, looking up a route's path finds that route. */
  lemma {:induction false} LookupFindsRoute(routes: seq<Route>, i: nat)
    requires forall a, b :: 0 <= a < b < |routes| ==> routes[a].path != routes[b].path
    requires i < |routes|
    ensures Lookup(routes, routes[i].path) == Some(routes[i])
  {
    if i > 0 {
      assert routes[0].path != routes[i].path;
      assert routes[1..][i - 1] == routes[i];
      LookupFindsRoute(routes[1..], i - 1);
    }
  }

  /** "/" is not in the table: the shell redirects it before looking routes up. */
  lemma RootIsNotARoute()
    ensures Lookup(ROUTES, "/") == None
  {
    assert forall i :: 0 <= i < |ROUTES| ==> |ROUTES[i].path| > 1;
  }

  /** Each route of the table renders its own page, behind the guard when it is guarded. */
  lemma RenderRoute(i: nat, loading: bool, isLogged: bool)
    requires i < |ROUTES|
    ensures Render(ROUTES[i].path, true, loading, isLogged) ==
      if ROUTES[i].guarded then GuardedPage(ROUTES[i].page, Decide(loading, isLogged)) else OpenPage(ROUTES[i].page)
  {
    PathsDistinct();
    LookupFindsRoute(ROUTES, i);
    RootIsNotARoute();
  }

  /** The five account pages are guarded; login, registration and recovery are open. */
  lemma RouteTable(loading: bool, isLogged: bool)
    ensures Render("/dashboard", true, loading, isLogged) == GuardedPage(Dashboard, Decide(loading, isLogged))
    ensures Render("/ingresar", true, loading, isLogged) == GuardedPage(Deposit, Decide(loading, isLogged))
    ensures Render("/transferir", true, loading, isLogged) == GuardedPage(Transfer, Decide(loading, isLogged))
    ensures Render("/profile", true, loading, isLogged) == GuardedPage(Profile, Decide(loading, isLogged))
    ensures Render("/movimientos", true, loading, isLogged) == GuardedPage(Movements, Decide(loading, isLogged))
    ensures Render("/login", true, loading, isLogged) == OpenPage(Login)
    ensures Render("/register", true, loading, isLogged) == OpenPage(Register)
    ensures Render("/recovery", true, loading, isLogged) == OpenPage(Recovery)
  {
    RenderRoute(0, loading, isLogged);
    RenderRoute(1, loading, isLogged);
    RenderRoute(2, loading, isLogged);
    RenderRoute(3, loading, isLogged);
    RenderRoute(4, loading, isLogged);
    RenderRoute(5, loading, isLogged);
    RenderRoute(6, loading, isLogged);
    RenderRoute(7, loading, isLogged);
  }

  /** An account page's content renders only when auth is checked, settled and logged in. */
  lemma GuardedContentNeedsLogin(path: string, checked: bool, loading: bool, isLogged: bool, page: Page)
    requires page in {Dashboard, Deposit, Transfer, Profile, Movements}
    ensures Render(path, checked, loading, isLogged) == GuardedPage(page, Children) <==>
      checked && !loading && isLogged && Lookup(ROUTES, path) == Some(Route(path, page, true))
  {
    RootIsNotARoute();
    var found := Lookup(ROUTES, path);
    if checked && found.Some? {
      assert path != "/";
      assert Render(path, checked, loading, isLogged) ==
        if found.value.guarded then GuardedPage(found.value.page, Decide(loading, isLogged)) else OpenPage(found.value.page);
      ChildrenIff(loading, isLogged);
    } else if checked && path != "/" {
      assert Render(path, checked, loading, isLogged) == NoMatch;
    }
  }

  /** An open page renders whatever the flags, once `checked` holds. */
  lemma OpenPagesIgnoreFlags(path: string, loading: bool, isLogged: bool, loading2: bool, isLogged2: bool)
    requires Render(path, true, loading, isLogged).OpenPage?
    ensures Render(path, true, loading2, isLogged2) == Render(path, true, loading, isLogged)
  {
  }
}
