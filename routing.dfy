/** The route protection of src/proxy.ts: from the requested path, the session and
    the session's profile row, the request either passes or is redirected. The role
    comes from the same single-row profile lookup the user actions use. */
module Routing {
  import opened Domain
  import opened Users

  datatype Decision = Pass | Redirect(target: string)

  /** `pathname.startsWith('/admin')`. */
  predicate UnderAdmin(path: string)
  {
    "/admin" <= path
  }

  /** Neither the cashier screen nor the login page is an admin page. */
  lemma PublicPathsAreNotAdmin()
    ensures !UnderAdmin("/") && !UnderAdmin("/login") && UnderAdmin("/admin")
  {
    assert "/login"[1] != "/admin"[1];
  }

  /** The decision of `proxy(request)`, in the order the source takes it. */
  function Route(path: string, session: Session, users: seq<UserRow>): Decision
  {
    if UnderAdmin(path) && session.NoSession? then Redirect("/login")
    else if UnderAdmin(path) && !IsAdmin(ProfileOf(users, session.authId)) then Redirect("/")
    else if path == "/" && session.NoSession? then Redirect("/login")
    else if path == "/login" && session.SignedIn? then
      if IsAdmin(ProfileOf(users, session.authId)) then Redirect("/admin") else Redirect("/")
    else Pass
  }

  /** Admin pages: no session goes to the login page, a signed-in user whose profile
      is missing or not an admin goes to the cashier screen, an admin passes. */
  lemma AdminPagesNeedAdmin(path: string, session: Session, users: seq<UserRow>)
    requires UnderAdmin(path)
    ensures session.NoSession? ==> Route(path, session, users) == Redirect("/login")
    ensures session.SignedIn? && !IsAdmin(ProfileOf(users, session.authId)) ==> Route(path, session, users) == Redirect("/")
    ensures session.SignedIn? && IsAdmin(ProfileOf(users, session.authId)) ==> Route(path, session, users) == Pass
  {
    PublicPathsAreNotAdmin();
  }

  /** The cashier screen needs a session; any signed-in user may see it. */
  lemma HomeNeedsSession(session: Session, users: seq<UserRow>)
    ensures Route("/", session, users) == if session.NoSession? then Redirect("/login") else Pass
  {
    PublicPathsAreNotAdmin();
  }

  /** A signed-in user asking for the login page is sent to their landing page;
      without a session the login page is shown. */
  lemma LoginPageSendsSignedInAway(session: Session, users: seq<UserRow>)
    ensures session.NoSession? ==> Route("/login", session, users) == Pass
    ensures session.SignedIn? ==>
              Route("/login", session, users) == if IsAdmin(ProfileOf(users, session.authId)) then Redirect("/admin") else Redirect("/")
  {
    PublicPathsAreNotAdmin();
  }

  /** The whole table: a request passes exactly when none of the three protected
      cases applies. */
  lemma PassesExactlyWhenAllowed(path: string, session: Session, users: seq<UserRow>)
    ensures Route(path, session, users) == Pass <==>
              (UnderAdmin(path) ==> session.SignedIn? && IsAdmin(ProfileOf(users, session.authId)))
              && (path == "/" ==> session.SignedIn?)
              && (path == "/login" ==> session.NoSession?)
  {
    PublicPathsAreNotAdmin();
  }

  /** Redirects never chain: following one with the same session and profile rows
      reaches a page that passes. */
  lemma {:induction false} RedirectsSettleInOneHop(path: string, session: Session, users: seq<UserRow>)
    requires Route(path, session, users).Redirect?
    ensures Route(Route(path, session, users).target, session, users) == Pass
  {
    PublicPathsAreNotAdmin();
  }
}
