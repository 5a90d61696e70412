/**
 * client/src/utils/useRole.js, LandingRoute.js and ProtectedRoutes.js: the
 * role checks and redirects of the client's routes, decided on the body of
 * /user/me, together with the route table of client/src/index.js that wires
 * the guards to the pages.
 */
module Roles {
  import opened Wrappers
  import Tables

  /** The parsed /user/me body: null, or an object whose `role` may be missing (an error body has none). */
  datatype Body = Null | Obj(role: Option<string>)

  /** The component's state: still loading, or loaded with the body. A body that is not JSON leaves it loading. */
  datatype Session = Loading | Loaded(user: Body)

  /** The argument of `useRole`: one role or an array of roles. */
  datatype Expected = One(role: string) | AnyOf(roles: seq<string>)

  /** What a route component renders: nothing, the nested page, or a redirect. */
  datatype View = Nothing | Outlet | Redirect(path: string)

  /** `useRole`. */
  function UseRole(s: Session, expected: Expected): (b: bool)
    ensures s.Loading? ==> !b
    ensures s == Loaded(Null) ==> !b
    ensures s.Loaded? && s.user.Obj? && expected.AnyOf? ==>
      (b <==> s.user.role.Some? && s.user.role.value in expected.roles)
    ensures s.Loaded? && s.user.Obj? && expected.One? ==> (b <==> s.user.role == Some(expected.role))
  {
    match s
    case Loading => false
    case Loaded(Null) => false
    case Loaded(Obj(role)) =>
      match expected
      case AnyOf(roles) => role.Some? && role.value in roles
      case One(r) => role == Some(r)
  }

  /** A one-element array and the single role agree. */
  lemma UseRoleSingleton(s: Session, r: string)
    ensures UseRole(s, AnyOf([r])) == UseRole(s, One(r))
  {
  }

  /** The page each seeded role lands on. */
  function LandingPage(role: string): Option<string> {
    if role == "standard_user" then Some("/user-landing")
    else if role == "merchant" then Some("/merchant-landing")
    else if role == "admin" then Some("/admin-dashboard")
    else None
  }

  /** `LandingRoute`. */
  function Landing(s: Session): (v: View)
    ensures s.Loading? ==> v == Nothing
    ensures s.Loaded? ==> v.Redirect?
    ensures s.Loaded? && s.user.Obj? && s.user.role.Some? && LandingPage(s.user.role.value).Some? ==>
      v == Redirect(LandingPage(s.user.role.value).value)
  {
    match s
    case Loading => Nothing
    case Loaded(Null) => Redirect("/login")
    case Loaded(Obj(role)) =>
      if role.Some? && LandingPage(role.value).Some? then Redirect(LandingPage(role.value).value)
      else Redirect("/login")
  }

  /** A loaded user is sent to /login exactly when there is no user or its role is none of the three. */
  lemma LandingLogin(s: Session)
    requires s.Loaded?
    ensures Landing(s) == Redirect("/login") <==>
      s.user.Null? || s.user.role.None? || s.user.role.value !in {"standard_user", "merchant", "admin"}
  {
  }

  /** Every seeded role has its own landing page, and no two share one. */
  lemma SeededRolesLand()
    ensures forall r :: r in Tables.SeedRoles ==> LandingPage(r.roleName).Some?
    ensures forall r1, r2 :: r1 in Tables.SeedRoles && r2 in Tables.SeedRoles && r1.roleName != r2.roleName ==>
      LandingPage(r1.roleName) != LandingPage(r2.roleName)
  {
  }

  /** `ProtectedRoutes` with the `role` property, absent for the guard of /, /login and /register. */
  function Protected(s: Session, required: Option<string>): (v: View)
    ensures s.Loading? ==> v == Nothing
    ensures s == Loaded(Null) ==> v == Redirect("/login")
    ensures s.Loaded? && s.user.Obj? ==> (v == Outlet <==> s.user.role == required)
    ensures s.Loaded? && s.user.Obj? && s.user.role != required ==> v == Redirect("/landing")
  {
    match s
    case Loading => Nothing
    case Loaded(Null) => Redirect("/login")
    case Loaded(Obj(role)) => if role == required then Outlet else Redirect("/landing")
  }

  /** A guard with a role lets in exactly the users `useRole` accepts for that role, once loaded. */
  lemma ProtectedMatchesUseRole(s: Session, r: string)
    requires s.Loaded?
    ensures Protected(s, Some(r)) == Outlet <==> UseRole(s, One(r))
  {
  }

  /** The guard without a role shows the login pages to a role-less body and sends a logged-in user on. */
  lemma LoginGuard(role: string)
    ensures Protected(Loaded(Obj(None)), None) == Outlet
    ensures Protected(Loaded(Obj(Some(role))), None) == Redirect("/landing")
  {
  }

  /** The guard of each path in the route table: none, the guard without a role, or the guard with a role. */
  function Guard(path: string): Option<Option<string>> {
    if path in {"/", "/login", "/register"} then Some(None)
    else if path in {"/user-landing", "/user-settings", "/ai-health-prediction", "/generate-report", "/health-analytics"} then
      Some(Some("standard_user"))
    else if path in {"/merchant-generate-report", "/merchant-landing", "merchant-reports"} then Some(Some("merchant"))
    else if path == "/admin-dashboard" then Some(Some("admin"))
    else None
  }

  /** Where a user ends up on a path after one guard decision: the page, or the guard's redirect. */
  function Visit(s: Session, path: string): View {
    match Guard(path)
    case None => Outlet
    case Some(required) => Protected(s, required)
  }

  /**
   * A user with one of the three roles is sent by /landing to a page whose
   * guard lets that user in.
   */
  lemma LandingPageAdmits(role: string)
    requires LandingPage(role).Some?
    ensures var s := Loaded(Obj(Some(role)));
      Landing(s).Redirect? && Visit(s, Landing(s).path) == Outlet
  {
  }

  /**
   * A logged-in user whose role is none of the three is sent from /landing to
   * /login, and from /login back to /landing, without end.
   */
  lemma UnknownRoleCycles(role: string)
    requires LandingPage(role).None?
    ensures var s := Loaded(Obj(Some(role)));
      Landing(s) == Redirect("/login") && Visit(s, "/login") == Redirect("/landing")
  {
  }
}
