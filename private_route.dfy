/** The route guard in front of the dashboard pages. */
module PrivateRoute {
  import opened Wrappers

  datatype Decision = RenderChildren | RedirectLogin | RedirectVerify

  /** The signed-in user as the guard sees it: the provider ids listed in
      `providerData` (`None` when the list is missing) and whether the
      email address is verified. */
  datatype User = User(providerIds: Option<seq<string>>, emailVerified: bool)

  const VerifyPath := "/verify-email"

  /** `providerData?.some(p => p.providerId === "password")`; a missing
      list gives `undefined`, which is falsy. */
  predicate IsPasswordUser(u: User) {
    u.providerIds.Some? && "password" in u.providerIds.value
  }

  /** What `PrivateRoute` renders for the auth state and current path. */
  function Decide(loading: bool, user: Option<User>, path: string): (d: Decision)
    ensures loading ==> d == RenderChildren
    ensures d == RedirectLogin <==> !loading && user.None?
    ensures d == RedirectVerify <==>
              !loading && user.Some? && IsPasswordUser(user.value)
              && !user.value.emailVerified && path != VerifyPath
  {
    if loading then RenderChildren
    else if user.None? then RedirectLogin
    else if IsPasswordUser(user.value) && !user.value.emailVerified && path != VerifyPath then RedirectVerify
    else RenderChildren
  }

  /** A user signed in through another provider, or with no provider
      list, is never sent to verification. */
  lemma OtherProvidersNeverVerify(path: string, ids: Option<seq<string>>, verified: bool)
    requires ids.None? || "password" !in ids.value
    ensures Decide(false, Some(User(ids, verified)), path) == RenderChildren
  {
  }

  /** A verified user always sees the page. */
  lemma VerifiedUserRenders(path: string, ids: Option<seq<string>>)
    ensures Decide(false, Some(User(ids, true)), path) == RenderChildren
  {
  }

  /** The guard never redirects a page to itself: on the verification
      page a signed-in user is shown the page, so there is no redirect
      loop. */
  lemma NoRedirectLoop(user: Option<User>)
    requires user.Some?
    ensures Decide(false, user, VerifyPath) == RenderChildren
  {
  }
}
