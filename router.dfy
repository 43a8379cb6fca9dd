/**
 * The single-page application's router: its table of paths and the
 * navigation guard that sends visitors without a stored user to the
 * login page.
 *
 * The guard reads the browser's stored `user` entry; here that entry is a
 * parameter (`None` when nothing is stored). The components themselves are
 * named, not modelled.
 */
module Router {
  import opened Common

  datatype Component =
    | Home | Login | Register | Profile | CreateIncident
    | TotalRequestsPerType | TotalRequestsPerDay | MostCommonServicePerZipcode
    | AverageCompletionTimePerRequest | MostCommonServiceInBoundingBox | Top5SSA
    | LicensePlates | SecondMostCommonColor | RodentBaiting | PoliceDistricts
    | SearchIncidents

  /** One entry of the routes table; `name` is the optional route name. */
  datatype Route = Route(path: string, name: Option<string>, component: Component)

  const LoginPath: string := "/login"
  const RegisterPath: string := "/register"

  /** The routes table, in declaration order. */
  const Routes: seq<Route> := [
    Route("/", Some("home"), Home),
    Route("/home", None, Home),
    Route(LoginPath, None, Login),
    Route(RegisterPath, None, Register),
    Route("/profile", Some("profile"), Profile),
    Route("/create-incident", Some("create-incident"), CreateIncident),
    Route("/total-requests-per-type", Some("total-requests-per-type"), TotalRequestsPerType),
    Route("/total-requests-per-day", Some("total-requests-per-day"), TotalRequestsPerDay),
    Route("/most-common-service-per-zipcode", Some("most-common-service-per-zipcode"), MostCommonServicePerZipcode),
    Route("/average-completion-time-per-request", Some("average-completion-time-per-request"), AverageCompletionTimePerRequest),
    Route("/most-common-service-in-bounding-box", Some("most-common-service-in-bounding-box"), MostCommonServiceInBoundingBox),
    Route("/top-5-ssa", Some("top-5-ssa"), Top5SSA),
    Route("/license-plates", Some("license-plates"), LicensePlates),
    Route("/second-most-common-color", Some("second-most-common-color"), SecondMostCommonColor),
    Route("/premises-baited", Some("premises-baited"), RodentBaiting),
    Route("/premises-garbage", Some("premises-garbage"), RodentBaiting),
    Route("/premises-rats", Some("premises-rats"), RodentBaiting),
    Route("/police-districts", Some("police-districts"), PoliceDistricts),
    Route("/search-incidents", Some("search-incidents"), SearchIncidents)
  ]

  /** The component of the first route whose path is exactly `path`. */
  function ResolveIn(routes: seq<Route>, path: string): (r: Option<Component>)
    ensures r.Some? <==> exists i :: 0 <= i < |routes| && routes[i].path == path
    ensures r.Some? ==> exists i :: 0 <= i < |routes| && routes[i].path == path && routes[i].component == r.value
                                    && forall j :: 0 <= j < i ==> routes[j].path != path
  {
    if routes == [] then None
    else if routes[0].path == path then Some(routes[0].component)
    else
      var r := ResolveIn(routes[1..], path);
      FirstMatchShifted(routes, path, r);
      r
  }

  /** The first match in `routes[1..]` is the first match in `routes` when `routes[0]` does not match. */
  lemma FirstMatchShifted(routes: seq<Route>, path: string, r: Option<Component>)
    requires routes != [] && routes[0].path != path
    requires r.Some? <==> exists i :: 0 <= i < |routes[1..]| && routes[1..][i].path == path
    requires r.Some? ==> exists i :: 0 <= i < |routes[1..]| && routes[1..][i].path == path && routes[1..][i].component == r.value
                                     && forall j :: 0 <= j < i ==> routes[1..][j].path != path
    ensures r.Some? <==> exists i :: 0 <= i < |routes| && routes[i].path == path
    ensures r.Some? ==> exists i :: 0 <= i < |routes| && routes[i].path == path && routes[i].component == r.value
                                    && forall j :: 0 <= j < i ==> routes[j].path != path
  {
    if r.Some? {
      var i :| 0 <= i < |routes[1..]| && routes[1..][i].path == path && routes[1..][i].component == r.value
               && forall j :: 0 <= j < i ==> routes[1..][j].path != path;
      assert routes[i + 1].path == path && routes[i + 1].component == r.value;
      forall j | 0 <= j < i + 1 ensures routes[j].path != path {
        if j > 0 { assert routes[j] == routes[1..][j - 1]; }
      }
    } else {
      forall i | 0 <= i < |routes| ensures routes[i].path != path {
        if i > 0 { assert routes[i] == routes[1..][i - 1]; }
      }
    }
  }

  function Resolve(path: string): Option<Component> {
    ResolveIn(Routes, path)
  }

  /** What the guard tells the router: go on, or go to another path instead. */
  datatype Decision = Proceed | Redirect(target: string)

  const PublicPages: seq<string> := [LoginPath, RegisterPath]

  /** The stored `user` entry is truthy: present and not the empty string. */
  predicate LoggedIn(storedUser: Option<string>) {
    storedUser.Some? && storedUser.value != ""
  }

  /**
   * The `beforeEach` guard. Every path but the two public pages needs a
   * stored user; without one the visitor is sent to the login page. The
   * page navigated from plays no part.
   */
  function BeforeEach(toPath: string, fromPath: string, storedUser: Option<string>): (d: Decision)
    ensures d.Redirect? <==> toPath !in PublicPages && !LoggedIn(storedUser)
    ensures d.Redirect? ==> d.target == LoginPath
  {
    var authRequired := toPath !in PublicPages;
    if authRequired && !LoggedIn(storedUser) then Redirect(LoginPath) else Proceed
  }

  /** Navigation to the login or the registration page is never redirected. */
  lemma PublicPagesNeverRedirected(fromPath: string, storedUser: Option<string>)
    ensures BeforeEach(LoginPath, fromPath, storedUser) == Proceed
    ensures BeforeEach(RegisterPath, fromPath, storedUser) == Proceed
  {
  }

  /** Without a stored user, any other path is redirected to the login page. */
  lemma AnonymousRedirectedToLogin(toPath: string, fromPath: string, storedUser: Option<string>)
    requires toPath != LoginPath && toPath != RegisterPath
    requires storedUser.None? || storedUser == Some("")
    ensures BeforeEach(toPath, fromPath, storedUser) == Redirect(LoginPath)
  {
  }

  /** With a stored user, navigation is never redirected. */
  lemma LoggedInNeverRedirected(toPath: string, fromPath: string, user: string)
    requires user != ""
    ensures BeforeEach(toPath, fromPath, Some(user)) == Proceed
  {
  }

  /** The decision depends on the target path and the stored user only. */
  lemma FromPathIgnored(toPath: string, from1: string, from2: string, storedUser: Option<string>)
    ensures BeforeEach(toPath, from1, storedUser) == BeforeEach(toPath, from2, storedUser)
  {
  }

  /**
   * Membership in the public pages is exact string equality: the login
   * path with a trailing slash is guarded like any other page.
   */
  lemma LoginWithTrailingSlashGuarded(fromPath: string)
    ensures BeforeEach("/login/", fromPath, None) == Redirect(LoginPath)
  {
    assert "/login/" != LoginPath by { assert |"/login/"| != |LoginPath|; }
    assert "/login/" != RegisterPath by { assert "/login/"[1] != RegisterPath[1]; }
  }

  /**
   * A redirect never leads to a second one: the login page it targets is a
   * route of the table, and the guard lets every visitor through to it.
   */
  lemma RedirectSettles(toPath: string, fromPath: string, storedUser: Option<string>)
    requires BeforeEach(toPath, fromPath, storedUser).Redirect?
    ensures var target := BeforeEach(toPath, fromPath, storedUser).target;
            && BeforeEach(target, toPath, storedUser) == Proceed
            && Resolve(target) == Some(Login)
  {
    assert Routes[2].path == LoginPath;
    assert Routes[0].path != LoginPath && Routes[1].path != LoginPath by {
      assert |Routes[0].path| != |LoginPath|;
      assert Routes[1].path[1] != LoginPath[1];
    }
  }

  /** The three premises paths all show the rodent-baiting page. */
  lemma PremisesPathsShareComponent()
    ensures Resolve("/premises-baited") == Some(RodentBaiting)
    ensures Resolve("/premises-garbage") == Some(RodentBaiting)
    ensures Resolve("/premises-rats") == Some(RodentBaiting)
  {
    PremisesPathResolves(14, "/premises-baited");
    PremisesPathResolves(15, "/premises-garbage");
    PremisesPathResolves(16, "/premises-rats");
  }

  lemma PremisesPathResolves(k: nat, path: string)
    requires 14 <= k <= 16 && Routes[k].path == path
    ensures Resolve(path) == Some(RodentBaiting)
  {
    RoutePathsDistinct();
    var r := Resolve(path);
    var i :| 0 <= i < |Routes| && Routes[i].path == path && Routes[i].component == r.value
             && forall j :: 0 <= j < i ==> Routes[j].path != path;
    assert i == k;
  }

  /** No two routes of the table share a path. */
  lemma RoutePathsDistinct()
    ensures forall i, j :: 0 <= i < j < |Routes| ==> Routes[i].path != Routes[j].path
  {
  }
}
