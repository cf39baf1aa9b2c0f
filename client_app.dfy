/** The `App` component: the session it restores from `localStorage` when
    it mounts, logging out, and which page each route shows. */
module ClientApp {
  import opened Wrappers
  import opened NumberText
  import opened Browser

  /** `parseInt(localStorage.getItem('usageCount')) || 0`: a missing key
      reads as `parseInt(null)`, which is `NaN`, so as 0. */
  function StoredUsage(items: map<string, string>): int {
    if "usageCount" in items then ParseIntOrZero(items["usageCount"]) else 0
  }

  /** The user a mount restores: one exists when `userId` and `userEmail`
      are both stored and neither is the empty string. */
  function Restored(items: map<string, string>): Option<SessionUser> {
    if "userId" in items && items["userId"] != "" && "userEmail" in items && items["userEmail"] != "" then
      Some(SessionUser(items["userId"], items["userEmail"], StoredUsage(items)))
    else
      None
  }

  /** The three keys a successful login writes. */
  function SignedIn(items: map<string, string>, id: string, email: string, usage: int): map<string, string> {
    items["userId" := id]["userEmail" := email]["usageCount" := IntToString(usage)]
  }

  /** A login stored by the landing page is restored, count included, by the
      next mount. */
  lemma RestoreAfterLogin(items: map<string, string>, id: string, email: string, usage: int)
    requires id != "" && email != ""
    ensures Restored(SignedIn(items, id, email, usage)) == Some(SessionUser(id, email, usage))
  {
    var m := SignedIn(items, id, email, usage);
    assert m["userId"] == id && m["userEmail"] == email;
    assert m["usageCount"] == IntToString(usage);
    ParseIntRoundTrip(usage);
  }

  /** Only the count changes when the analyze page rewrites it. */
  lemma RestoreAfterCountUpdate(items: map<string, string>, usage: int)
    ensures Restored(items["usageCount" := IntToString(usage)]).Some? <==> Restored(items).Some?
    ensures Restored(items).Some? ==>
      Restored(items["usageCount" := IntToString(usage)]) == Some(Restored(items).value.(usageCount := usage))
  {
    var m := items["usageCount" := IntToString(usage)];
    assert StoredUsage(m) == usage by {
      assert m["usageCount"] == IntToString(usage);
      ParseIntRoundTrip(usage);
    }
    assert "userId" != "usageCount" && "userEmail" != "usageCount";
    assert ("userId" in m <==> "userId" in items) && ("userEmail" in m <==> "userEmail" in items);
    assert "userId" in items ==> m["userId"] == items["userId"];
    assert "userEmail" in items ==> m["userEmail"] == items["userEmail"];
  }

  /** A session is restored exactly when both identity keys hold non-empty
      text, whatever `usageCount` holds. */
  lemma RestoreNeedsIdentity(items: map<string, string>)
    ensures Restored(items).Some? <==>
      ("userId" in items && items["userId"] != "" && "userEmail" in items && items["userEmail"] != "")
    ensures Restored(items).Some? ==>
      Restored(items).value == SessionUser(items["userId"], items["userEmail"], StoredUsage(items))
    ensures "usageCount" !in items ==> StoredUsage(items) == 0
  {
  }

  /** What the app shows. */
  datatype Screen =
    | Loading
    | LandingScreen
    | AnalyzeScreen
    | ResultsScreen(analysisId: string)
    | DashboardScreen
    | PricingScreen
    | RedirectHome

  /** The route table: the analyze, results and dashboard pages need a user
      and send everyone else to `/`. */
  function Route(path: Path, user: Option<SessionUser>): Screen {
    match path
    case Home => LandingScreen
    case PricingRoute => PricingScreen
    case AnalyzeRoute => if user.Some? then AnalyzeScreen else RedirectHome
    case ResultsRoute(id) => if user.Some? then ResultsScreen(id) else RedirectHome
    case DashboardRoute => if user.Some? then DashboardScreen else RedirectHome
  }

  /** Whether a route needs a logged-in user. */
  predicate Protected(path: Path) {
    path.AnalyzeRoute? || path.ResultsRoute? || path.DashboardRoute?
  }

  /** A route redirects to `/` exactly when it is protected and there is no
      user; every other route shows its own page. */
  lemma RouteGuard(path: Path, user: Option<SessionUser>)
    ensures Route(path, user) == RedirectHome <==> Protected(path) && user.None?
    ensures Route(path, user) != Loading
    ensures path.ResultsRoute? && user.Some? ==> Route(path, user) == ResultsScreen(path.analysisId)
  {
  }

  /** The component's state. */
  class AppShell {
    var user: Option<SessionUser>
    var loading: bool
    const storage: Storage

    /** The first render: no user yet, loading. */
    constructor (storage: Storage)
      ensures this.storage == storage
      ensures user.None? && loading
    {
      this.storage := storage;
      user := None;
      loading := true;
    }

    /** The mount effect: the restored user, if any, is set. */
    method Mount()
      modifies this
      ensures user == if Restored(storage.items).Some? then Restored(storage.items) else old(user)
      ensures !loading
    {
      var userId := storage.GetItem("userId");
      var userEmail := storage.GetItem("userEmail");
      var usageCount := storage.GetItem("usageCount");
      if userId.Some? && userId.value != "" && userEmail.Some? && userEmail.value != "" {
        var usage := if usageCount.Some? then ParseIntOrZero(usageCount.value) else 0;
        user := Some(SessionUser(userId.value, userEmail.value, usage));
      }
      loading := false;
    }

    /** `setUser`, as the landing page calls it. */
    method SetUser(u: Option<SessionUser>)
      modifies this
      ensures user == u && loading == old(loading)
    {
      user := u;
    }

    /** `logout`: everything stored is dropped, so the next mount restores
      no one; a second logout finds exactly this state again. */
    method Logout()
      modifies this, storage
      ensures storage.items == map[] && user.None?
      ensures loading == old(loading)
      ensures Restored(storage.items).None?
    {
      storage.Clear();
      user := None;
    }

    /** What the app renders at `path`. */
    function Render(path: Path): Screen
      reads this
    {
      if loading then Loading else Route(path, user)
    }
  }
}
