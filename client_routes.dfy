/**
 * The browser side's access control: the `ProtectedRoute` guard over
 * `localStorage`, the route table of `App`, and the page each role lands on
 * after logging in. Paths match as React Router's do by default: letter case
 * and trailing slashes are ignored.
 */
module ClientRoutes {
  import opened Wrappers
  import opened Text
  import opened Lists

  /** `localStorage`: keys to string values; a missing key reads as `null`. */
  type Storage = map<string, string>

  const TokenKey: string := "token"
  const RoleKey: string := "role"

  function Get(storage: Storage, key: string): Option<string> {
    if key in storage then Some(storage[key]) else None
  }

  /** `ProtectedRoute`'s test: a non-empty token is stored and the stored role is one of `allowedRoles`. */
  predicate Admits(storage: Storage, allowedRoles: seq<string>)
    ensures allowedRoles == [] ==> !Admits(storage, allowedRoles)
  {
    Truthy(Get(storage, TokenKey)) && Get(storage, RoleKey).Some? && Get(storage, RoleKey).value in allowedRoles
  }

  datatype Page =
    | LoginPage
    | SuperAdminRegisterPage
    | SuperAdminDashboardPage
    | ManageTrainersPage
    | ManageStudentsPage
    | TrainerDashboardPage
    | StudentDashboardPage
    | NotFoundPage

  /** What rendering a path produces: a page, or `<Navigate to=... replace />`. */
  datatype Outcome = Render(page: Page) | Redirect(to: string)

  /** One `<Route>`: its path, its page, and the roles of the `ProtectedRoute` around it, if any. */
  datatype RouteEntry = RouteEntry(path: string, page: Page, guard: Option<seq<string>>)

  const SuperAdminDashboardPath: string := "/superadmin-dashboard"
  const TrainerDashboardPath: string := "/trainer-dashboard"
  const StudentDashboardPath: string := "/student-dashboard"

  /** The `<Routes>` of `App`, before the catch-all `*` route. */
  const Table: seq<RouteEntry> := [
    RouteEntry("/login", LoginPage, None),
    RouteEntry("/register-superadmin", SuperAdminRegisterPage, None),
    RouteEntry(SuperAdminDashboardPath, SuperAdminDashboardPage, Some(["superAdmin"])),
    RouteEntry("/manage-trainer", ManageTrainersPage, Some(["superAdmin"])),
    RouteEntry("/manage-student", ManageStudentsPage, Some(["superAdmin"])),
    RouteEntry(TrainerDashboardPath, TrainerDashboardPage, Some(["trainer"])),
    RouteEntry(StudentDashboardPath, StudentDashboardPage, Some(["student"]))
  ]

  /** A path with its trailing slashes removed and its ASCII letters lower-cased. */
  function Canon(path: string): (c: string)
    ensures |c| <= |path|
    ensures c == Lower(path[..|c|])
    ensures forall k :: |c| <= k < |path| ==> path[k] == '/'
    ensures c == [] || path[|c| - 1] != '/'
    decreases |path|
  {
    if |path| > 0 && path[|path| - 1] == '/' then Canon(path[..|path| - 1]) else Lower(path)
  }

  predicate Matches(entry: RouteEntry, path: string) {
    Canon(entry.path) == Canon(path)
  }

  /** The route element for `path`, or `None` for the catch-all. */
  function Lookup(path: string): (e: Option<RouteEntry>)
    ensures e.Some? ==> e.value in Table && Matches(e.value, path)
    ensures e.None? <==> forall k :: 0 <= k < |Table| ==> !Matches(Table[k], path)
  {
    First(Table, Matcher(path))
  }

  function Matcher(path: string): RouteEntry -> bool {
    (entry: RouteEntry) => Matches(entry, path)
  }

  /** The route found for `path` is the first entry of the table it matches. */
  lemma LookupAt(path: string, i: nat)
    requires i < |Table| && Matches(Table[i], path)
    requires forall j :: 0 <= j < i ==> !Matches(Table[j], path)
    ensures Lookup(path) == Some(Table[i])
  {
    FirstAt(Table, Matcher(path), i);
  }

  /** Paths without a trailing slash and of different lengths never match. */
  lemma NoMatchByLength(a: string, b: string)
    requires |a| > 0 && a[|a| - 1] != '/' && |b| > 0 && b[|b| - 1] != '/'
    requires |a| != |b|
    ensures Canon(a) != Canon(b)
  {
    CanonAt(a);
    CanonAt(b);
  }

  /** What the app renders at `path` with `storage`. */
  function Resolve(path: string, storage: Storage): Outcome {
    Gate(Lookup(path), storage)
  }

  /** The catch-all renders NotFound; a route renders its page unless its guard refuses the storage. */
  function Gate(found: Option<RouteEntry>, storage: Storage): (o: Outcome)
    ensures found.None? ==> o == Render(NotFoundPage)
    ensures o.Redirect? ==> o.to == "/" && found.Some? && found.value.guard.Some?
  {
    match found
    case None => Render(NotFoundPage)
    case Some(entry) =>
      if entry.guard.None? || Admits(storage, entry.guard.value) then Render(entry.page) else Redirect("/")
  }

  /** The guard renders its children exactly when a token is stored and the stored role is allowed. */
  lemma AdmitsIff(storage: Storage, allowedRoles: seq<string>)
    ensures Admits(storage, allowedRoles) <==>
      TokenKey in storage && storage[TokenKey] != "" && RoleKey in storage && storage[RoleKey] in allowedRoles
  {
  }

  /** Without a token, or without a stored role, every guarded route redirects to `/`, whatever is stored. */
  lemma {:induction false} GuardRedirects(path: string, storage: Storage)
    requires TokenKey !in storage || RoleKey !in storage
    ensures Lookup(path).Some? && Lookup(path).value.guard.Some? ==> Resolve(path, storage) == Redirect("/")
  {
  }

  /** Only the token's presence matters: any two non-empty tokens get the same pages. */
  lemma {:induction false} TokenNotInspected(path: string, storage: Storage, t1: string, t2: string)
    requires t1 != "" && t2 != ""
    ensures Resolve(path, storage[TokenKey := t1]) == Resolve(path, storage[TokenKey := t2])
  {
    var s1, s2 := storage[TokenKey := t1], storage[TokenKey := t2];
    assert Get(s1, RoleKey) == Get(s2, RoleKey) by {
      assert RoleKey != TokenKey;
    }
  }

  /** A path that does not end in `/` keeps its length, and each letter is lower-cased. */
  lemma {:induction false} CanonAt(path: string)
    requires |path| > 0 && path[|path| - 1] != '/'
    ensures |Canon(path)| == |path|
    ensures forall i :: 0 <= i < |path| ==> Canon(path)[i] == LowerChar(path[i])
  {
  }

  /** Every table path keeps its length under `Canon`. */
  lemma TableLengths()
    ensures forall k :: 0 <= k < |Table| ==> |Canon(Table[k].path)| == |Table[k].path|
  {
    forall k | 0 <= k < |Table| ensures |Canon(Table[k].path)| == |Table[k].path| {
      CanonAt(Table[k].path);
    }
  }

  /** The login and registration pages have no guard. */
  lemma {:induction false} OpenPaths(storage: Storage)
    ensures Resolve("/login", storage) == Render(LoginPage)
    ensures Resolve("/register-superadmin", storage) == Render(SuperAdminRegisterPage)
  {
    LoginRoute();
    RegisterRoute();
    assert Table[0].guard.None? && Table[1].guard.None?;
  }

  lemma LoginRoute()
    ensures Lookup("/login") == Some(Table[0])
  {
    LookupAt("/login", 0);
  }

  lemma RegisterRoute()
    ensures Lookup("/register-superadmin") == Some(Table[1])
  {
    NoMatchByLength(Table[0].path, "/register-superadmin");
    LookupAt("/register-superadmin", 1);
  }

  /** `/`, where the guard redirects to, has no route of its own and renders NotFound. */
  lemma {:induction false} RootNotFound(storage: Storage)
    ensures Resolve("/", storage) == Render(NotFoundPage)
  {
    TableLengths();
    assert Canon("/") == Lower("") == "";
  }

  /** Every guarded route allows exactly one role. */
  lemma OneRolePerGuard()
    ensures forall k :: 0 <= k < |Table| && Table[k].guard.Some? ==> |Table[k].guard.value| == 1
    ensures forall k :: 0 <= k < |Table| && Table[k].page in {SuperAdminDashboardPage, ManageTrainersPage, ManageStudentsPage} ==>
      Table[k].guard == Some(["superAdmin"])
  {
  }

  /** Every guard lists only schema role names. */
  lemma GuardsListRoles(e: RouteEntry)
    requires e in Table && e.guard.Some?
    ensures forall r :: r in e.guard.value ==> r in ["superAdmin", "trainer", "student"]
  {
  }

  /** `navigate` after a successful login: one dashboard per schema role, none for any other role. */
  function LandingPage(role: string): (path: Option<string>)
    ensures path.Some? <==> role in ["superAdmin", "trainer", "student"]
  {
    if role == "superAdmin" then Some(SuperAdminDashboardPath)
    else if role == "trainer" then Some(TrainerDashboardPath)
    else if role == "student" then Some(StudentDashboardPath)
    else None
  }

  /**
   * Each landing page admits the role that chose it, and only that role: with
   * a token and that role stored the dashboard renders, with any other role
   * stored it redirects to `/`.
   */
  lemma {:induction false} LandingPageAdmits(role: string, storage: Storage)
    requires LandingPage(role).Some?
    requires Truthy(Get(storage, TokenKey)) && RoleKey in storage
    ensures storage[RoleKey] == role ==> Resolve(LandingPage(role).value, storage).Render?
    ensures storage[RoleKey] != role ==> Resolve(LandingPage(role).value, storage) == Redirect("/")
  {
    if role == "superAdmin" {
      SuperAdminLanding();
      GuardedLanding(Table[2], storage);
    } else if role == "trainer" {
      TrainerLanding();
      GuardedLanding(Table[5], storage);
    } else {
      StudentLanding();
      GuardedLanding(Table[6], storage);
    }
  }

  /** A route guarded for one role renders, for a stored token, exactly when that role is stored. */
  lemma GuardedLanding(entry: RouteEntry, storage: Storage)
    requires entry.guard.Some? && |entry.guard.value| == 1
    requires Truthy(Get(storage, TokenKey)) && RoleKey in storage
    ensures storage[RoleKey] == entry.guard.value[0] ==> Gate(Some(entry), storage) == Render(entry.page)
    ensures storage[RoleKey] != entry.guard.value[0] ==> Gate(Some(entry), storage) == Redirect("/")
  {
  }

  /** The route each landing path resolves to. */
  lemma {:induction false} SuperAdminLanding()
    ensures Lookup(SuperAdminDashboardPath) == Some(Table[2])
  {
    NoMatchByLength(Table[0].path, SuperAdminDashboardPath);
    NoMatchByLength(Table[1].path, SuperAdminDashboardPath);
    LookupAt(SuperAdminDashboardPath, 2);
  }

  lemma {:induction false} TrainerLanding()
    ensures Lookup(TrainerDashboardPath) == Some(Table[5])
  {
    ShorterEntries(TrainerDashboardPath);
    LookupAt(TrainerDashboardPath, 5);
  }

  lemma {:induction false} StudentLanding()
    ensures Lookup(StudentDashboardPath) == Some(Table[6])
  {
    ShorterEntries(StudentDashboardPath);
    CanonAt(TrainerDashboardPath);
    CanonAt(StudentDashboardPath);
    assert Canon(TrainerDashboardPath)[1] != Canon(StudentDashboardPath)[1];
    LookupAt(StudentDashboardPath, 6);
  }

  /** The first five entries match no path of eighteen characters. */
  lemma ShorterEntries(path: string)
    requires |path| == 18 && path[17] != '/'
    ensures forall j :: 0 <= j < 5 ==> !Matches(Table[j], path)
  {
    NoMatchByLength(Table[0].path, path);
    NoMatchByLength(Table[1].path, path);
    NoMatchByLength(Table[2].path, path);
    NoMatchByLength(Table[3].path, path);
    NoMatchByLength(Table[4].path, path);
  }
}
