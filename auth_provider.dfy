/** The sign-in gate of components/auth-provider.tsx: what the provider
    does when the authentication service reports the signed-in user (store
    it, stop loading, maybe redirect), and whether it renders the page.
    The user is represented by an identifier; the authentication service
    and the router are not part of this model. */
module AuthProvider {
  import opened Wrappers

  /** `PUBLIC_PATHS` (line 18). */
  const PublicPaths: seq<string> := ["/auth"]

  const AuthPath := "/auth"
  const HomePath := "/"

  /** The provider's state: the signed-in user, if any, and whether the
      first report is still awaited. */
  datatype AuthState = AuthState(user: Option<string>, loading: bool)

  /** The state before the first report (lines 21-22). */
  const Initial := AuthState(None, true)

  /** `PUBLIC_PATHS.includes(pathname)`. */
  predicate IsPublic(pathname: string) {
    pathname in PublicPaths
  }

  /** The `onAuthStateChanged` callback (lines 27-37): the new state and the
      path it redirects to, if any. */
  function OnAuthStateChanged(state: AuthState, user: Option<string>, pathname: string)
    : (r: (AuthState, Option<string>))
    ensures r.0 == AuthState(user, false)
    ensures user.None? && pathname != AuthPath ==> r.1 == Some(AuthPath)
    ensures user.Some? && pathname == AuthPath ==> r.1 == Some(HomePath)
    ensures r.1.Some? <==> (user.None? <==> pathname != AuthPath)
  {
    var redirect :=
      if user.None? && !IsPublic(pathname) then Some(AuthPath)
      else if user.Some? && IsPublic(pathname) then Some(HomePath)
      else None;
    (AuthState(user, false), redirect)
  }

  /** Whether the provider renders its children (lines 43-56); `false`
      stands for `return null`. */
  function RendersChildren(state: AuthState, pathname: string): (r: bool)
    ensures state.loading ==> !r
    ensures r <==> !state.loading && (state.user.Some? || pathname == AuthPath)
  {
    if state.loading then false
    else if state.user.None? && !IsPublic(pathname) then false
    else true
  }

  /** "/auth" is the only public path. */
  lemma OnlyAuthIsPublic(pathname: string)
    ensures IsPublic(pathname) <==> pathname == "/auth"
  {
  }

  /** Nothing is shown before the first report, wherever the user is. */
  lemma NothingWhileLoading(pathname: string)
    ensures !RendersChildren(Initial, pathname)
  {
  }

  /** A redirect always leads somewhere else, and once it is followed the
      next report for the same user redirects no more: there is no loop. */
  lemma RedirectSettles(state: AuthState, user: Option<string>, pathname: string)
    ensures var (next, redirect) := OnAuthStateChanged(state, user, pathname);
      redirect.Some? ==> redirect.value != pathname &&
                         OnAuthStateChanged(next, user, redirect.value).1.None?
  {
  }

  /** After a report, the page is shown exactly when no redirect was
      issued or the user is signed in; a signed-out user never sees a
      protected page. */
  lemma ShownUnlessSentAway(state: AuthState, user: Option<string>, pathname: string)
    ensures var (next, redirect) := OnAuthStateChanged(state, user, pathname);
      (RendersChildren(next, pathname) <==> redirect.None? || user.Some?) &&
      (user.None? && pathname != AuthPath ==> !RendersChildren(next, pathname))
  {
  }
}
