/**
 * The route guard wrapped around the customer, agent and admin pages: it
 * sends a visitor without a session to the sign-up page, a user of another
 * role to the home page, and renders the page otherwise.
 */
module ProtectedRoute {
  import opened Js
  import opened UserSlice

  /** What the guard renders. */
  datatype Route = RedirectToSignup | RedirectToHome | RenderChildren

  /** The guard's decision for a session and the page's required role (falsy
      when the page is open to every signed-in user). Roles are compared
      exactly. */
  function Decide(isLoggedIn: bool, user: Option<JsObject>, requiredRole: Value): (r: Route)
    ensures r == RedirectToSignup <==> !isLoggedIn || user.None?
    ensures r == RedirectToHome <==>
              isLoggedIn && user.Some? && Truthy(requiredRole) && Get(user.value, "role") != requiredRole
    ensures r == RenderChildren <==>
              isLoggedIn && user.Some? && (!Truthy(requiredRole) || Get(user.value, "role") == requiredRole)
  {
    if !isLoggedIn || user.None? then RedirectToSignup
    else if Truthy(requiredRole) && Get(user.value, "role") != requiredRole then RedirectToHome
    else RenderChildren
  }

  /** The sign-in check comes first: without a session no role, however it
      compares, reaches the role check. */
  lemma SessionCheckFirst(user: Option<JsObject>, role1: Value, role2: Value)
    ensures Decide(false, user, role1) == Decide(false, user, role2) == RedirectToSignup
  {
  }

  /** After a logout every guarded page redirects to sign-up. */
  lemma LoggedOutIsSentToSignup(w: World, requiredRole: Value)
    ensures var s := LogoutWorld(w).session;
            Decide(s.isLoggedIn, s.user, requiredRole) == RedirectToSignup
  {
  }

  /** After a login, a page requiring the payload's role, or no role, renders;
      a page requiring any other role redirects home. */
  lemma LoggedInByRole(w: World, payload: JsObject, stringify: JsObject -> string, requiredRole: Value)
    ensures var s := LoginWorld(w, payload, stringify).session;
            && (Get(payload, "role") == requiredRole || !Truthy(requiredRole) ==>
                  Decide(s.isLoggedIn, s.user, requiredRole) == RenderChildren)
            && (Truthy(requiredRole) && Get(payload, "role") != requiredRole ==>
                  Decide(s.isLoggedIn, s.user, requiredRole) == RedirectToHome)
  {
  }

  /** A session restored from a stored `null` user is flagged as signed in but
      still sent to sign-up. */
  lemma NullUserIsSentToSignup(store: map<string, string>, parse: string -> ParseResult, requiredRole: Value)
    requires "token" in store && store["token"] != ""
    requires "userData" in store && store["userData"] != ""
    requires parse(store["userData"]) == Parsed(None)
    ensures var s := InitialWorld(store, parse).session;
            s.isLoggedIn && Decide(s.isLoggedIn, s.user, requiredRole) == RedirectToSignup
  {
    NullUserIsLoggedInWithoutUser(store, parse);
  }
}
