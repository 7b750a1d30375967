/**
 * The two route guards: `src/routes/AdminRoute.jsx`, which lets only
 * authenticated administrators through, and `src/routes/StorefrontRoute.jsx`,
 * which sends administrators away from the shop to their dashboard.
 */
module Routes {
  import opened Wrappers
  import opened Text
  import AuthStore

  /** What a guard renders: a redirect (with `replace`) or its children. */
  datatype Decision = RedirectTo(path: string) | RenderChildren

  /** `user?.role?.toLowerCase() === 'admin'` (also the truthy-role test of AdminRoute). */
  predicate RoleIsAdminIgnoringCase(user: Option<AuthStore.User>) {
    user.Some? && Truthy(user.value.role) && Lower(user.value.role.value) == "admin"
  }

  /** The authentication check comes first, then the role check. */
  function AdminRoute(isAuthenticated: bool, user: Option<AuthStore.User>): Decision {
    if !isAuthenticated then RedirectTo("/login")
    else if !RoleIsAdminIgnoringCase(user) then RedirectTo("/")
    else RenderChildren
  }

  /** Authentication is not consulted: only an administrator's role redirects. */
  function StorefrontRoute(user: Option<AuthStore.User>): Decision {
    if RoleIsAdminIgnoringCase(user) then RedirectTo("/admin") else RenderChildren
  }

  /**
   * The admin area renders exactly for an authenticated user whose role is
   * 'admin' in any letter case; an unauthenticated visitor goes to /login
   * whatever the stored role, and everyone else to /.
   */
  lemma AdminRouteIff(isAuthenticated: bool, user: Option<AuthStore.User>)
    ensures AdminRoute(isAuthenticated, user) == RenderChildren <==> isAuthenticated && RoleIsAdminIgnoringCase(user)
    ensures !isAuthenticated ==> AdminRoute(isAuthenticated, user) == RedirectTo("/login")
    ensures isAuthenticated && !RoleIsAdminIgnoringCase(user) ==> AdminRoute(isAuthenticated, user) == RedirectTo("/")
  {
  }

  /** The storefront renders for visitors, for users without a role and for every other role. */
  lemma StorefrontRouteIff(user: Option<AuthStore.User>)
    ensures StorefrontRoute(user) == RenderChildren <==> !RoleIsAdminIgnoringCase(user)
    ensures user.None? ==> StorefrontRoute(user) == RenderChildren
  {
  }

  lemma LowerCharIs(c: char, lower: char, upper: char)
    requires IsLower(lower) && upper == UpperChar(lower)
    ensures LowerChar(c) == lower <==> c == lower || c == upper
  {
  }

  /** The roles that count as administrator are exactly the 32 letter-case spellings of 'admin'. */
  lemma AdminSpellings(role: string)
    ensures Lower(role) == "admin" <==>
      |role| == 5 && forall i :: 0 <= i < 5 ==> role[i] == "admin"[i] || role[i] == "ADMIN"[i]
  {
    forall i | 0 <= i < 5 && i < |role|
      ensures LowerChar(role[i]) == "admin"[i] <==> role[i] == "admin"[i] || role[i] == "ADMIN"[i]
    {
      LowerCharIs(role[i], "admin"[i], "ADMIN"[i]);
    }
    if |role| == 5 && forall i :: 0 <= i < 5 ==> role[i] == "admin"[i] || role[i] == "ADMIN"[i] {
      assert forall i :: 0 <= i < 5 ==> Lower(role)[i] == "admin"[i];
    }
  }

  /**
   * The guard and the store disagree on case: a user with role 'Admin' is
   * let into the admin area although the store's `isAdmin` is false.
   */
  lemma GuardAndStoreDisagreeOnCase(u: AuthStore.User)
    requires u.role == Some("Admin")
    ensures AdminRoute(true, Some(u)) == RenderChildren
    ensures !AuthStore.IsAdminUser(Some(u))
  {
    AdminSpellings(u.role.value);
    AuthStore.IsAdminIsCaseSensitive(u);
  }

  /** Whoever the admin area admits, the storefront sends to /admin. */
  lemma GuardsAgree(isAuthenticated: bool, user: Option<AuthStore.User>)
    requires AdminRoute(isAuthenticated, user) == RenderChildren
    ensures StorefrontRoute(user) == RedirectTo("/admin")
  {
  }
}
