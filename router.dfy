/**
 * The router: the route table with its `requiresAuth`/`requiresGuest`
 * flags, and the navigation guard run before every navigation, which keeps
 * the `redirectAfterLogin` entry of session storage for a one-shot return
 * to a protected page after login.
 */
module Router {
  import opened Common

  datatype RouteMeta = RouteMeta(requiresAuth: bool, requiresGuest: bool)

  datatype RouteRecord = RouteRecord(path: string, name: string, meta: RouteMeta)

  const LoginPath: string := "/login"
  const HomePath: string := "/"

  const Guest: RouteMeta := RouteMeta(false, true)
  const Protected: RouteMeta := RouteMeta(true, false)

  const Routes: seq<RouteRecord> := [
    RouteRecord(LoginPath, "Login", Guest),
    RouteRecord(HomePath, "Home", Protected),
    RouteRecord("/events", "Events", Protected),
    RouteRecord("/setup", "Setup", Protected),
    RouteRecord("/invite/:inviteCode", "AcceptInvitation", Protected),
    RouteRecord("/settings", "Settings", Protected)
  ]

  /** Only the login page is for guests, every other page needs a user, and none is both. */
  lemma RouteTableFlags()
    ensures forall i :: 0 <= i < |Routes| ==>
      && (Routes[i].meta.requiresGuest <==> Routes[i].path == LoginPath)
      && (Routes[i].meta.requiresAuth <==> Routes[i].path != LoginPath)
      && !(Routes[i].meta.requiresAuth && Routes[i].meta.requiresGuest)
  {
  }

  /** Where the guard sends a navigation: on to its destination, or elsewhere. */
  datatype Target = Proceed | Redirect(path: string)

  /** The guard's outcome and the `redirectAfterLogin` entry afterwards. */
  datatype Decision = Decision(target: Target, stored: Option<string>)

  /**
   * The guard's rule, for a destination with flags `meta` and full path
   * `fullPath`, once the session is known. A stored path that is empty
   * counts as no stored path.
   */
  function Decide(meta: RouteMeta, fullPath: string, signedIn: bool, stored: Option<string>): (d: Decision)
    ensures d.target == Redirect(LoginPath) && d.stored == Some(fullPath) <== meta.requiresAuth && !signedIn
    ensures d.target == Proceed <==> !(meta.requiresAuth && !signedIn) && !(meta.requiresGuest && signedIn)
    ensures d.target == Proceed ==> d.stored == stored
    ensures meta.requiresGuest && signedIn && stored.Some? && stored.value != "" ==>
      d == Decision(Redirect(stored.value), None)
    ensures meta.requiresGuest && signedIn && (stored.None? || stored.value == "") ==>
      d == Decision(Redirect(HomePath), stored)
    ensures d.stored != stored ==> (meta.requiresAuth && !signedIn) || (meta.requiresGuest && signedIn)
  {
    if meta.requiresAuth && !signedIn then
      Decision(Redirect(LoginPath), Some(fullPath))
    else if meta.requiresGuest && signedIn then
      if stored.Some? && stored.value != "" then Decision(Redirect(stored.value), None)
      else Decision(Redirect(HomePath), stored)
    else Decision(Proceed, stored)
  }

  /** The saved path is used once: the visit after it goes to the home page. */
  lemma RedirectIsOneShot(meta: RouteMeta, fullPath1: string, fullPath2: string, saved: string)
    requires meta.requiresGuest && saved != ""
    ensures var first := Decide(meta, fullPath1, true, Some(saved));
      && first.target == Redirect(saved)
      && Decide(meta, fullPath2, true, first.stored).target == Redirect(HomePath)
  {
  }

  /**
   * A visitor sent from a protected page to the login page, whose next
   * navigation while signed in is again to the login page, goes to the saved
   * page instead, and the entry is cleared.
   */
  lemma ReturnAfterLogin(fullPath: string, stored: Option<string>)
    requires fullPath != ""
    ensures var away := Decide(Routes[1].meta, fullPath, false, stored);
      && away.target == Redirect(LoginPath)
      && Decide(Routes[0].meta, LoginPath, true, away.stored) == Decision(Redirect(fullPath), None)
  {
  }

  /**
   * The saved page is only used by a signed-in visit to the login page: a
   * signed-in visit to a protected page after the bounce proceeds and leaves
   * the saved entry stored.
   */
  lemma ProtectedVisitKeepsEntry(fullPath: string, nextPath: string, stored: Option<string>)
    ensures var away := Decide(Routes[1].meta, fullPath, false, stored);
      Decide(Routes[1].meta, nextPath, true, away.stored) == Decision(Proceed, Some(fullPath))
  {
  }

  /** The guard's own redirects settle: a guest may stay on the login page and a user on the home page. */
  lemma RedirectsSettle(stored: Option<string>)
    ensures Routes[0].path == LoginPath && Decide(Routes[0].meta, LoginPath, false, stored) == Decision(Proceed, stored)
    ensures Routes[1].path == HomePath && Decide(Routes[1].meta, HomePath, true, stored) == Decision(Proceed, stored)
  {
  }

  /** What the identity provider has told the app so far: nothing yet, or whether a user is signed in. */
  datatype AuthState = Pending | Resolved(signedIn: bool)

  /** The destination of a navigation: its full path with query and hash, and the flags of the route it matched. */
  datatype Location = Location(fullPath: string, meta: RouteMeta)

  /** The navigation guard with the `redirectAfterLogin` entry of session storage. */
  class NavigationGuard {
    var redirectAfterLogin: Option<string>

    constructor (stored: Option<string>)
      ensures redirectAfterLogin == stored
    {
      redirectAfterLogin := stored;
    }

    /**
     * `beforeEach`: while the session is not yet known the guard waits
     * (no decision, storage untouched); then it applies `Decide` to the
     * destination's route flags.
     */
    method BeforeEach(to: Location, auth: AuthState) returns (next: Option<Target>)
      modifies this
      ensures auth.Pending? ==> next.None? && redirectAfterLogin == old(redirectAfterLogin)
      ensures auth.Resolved? ==>
        var d := Decide(to.meta, to.fullPath, auth.signedIn, old(redirectAfterLogin));
        next == Some(d.target) && redirectAfterLogin == d.stored
    {
      if auth.Pending? {
        return None;
      }
      var d := Decide(to.meta, to.fullPath, auth.signedIn, redirectAfterLogin);
      redirectAfterLogin := d.stored;
      next := Some(d.target);
    }
  }
}
