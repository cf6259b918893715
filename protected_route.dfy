/** `ProtectedRoute`: the guard in front of every signed-in page. */
module ProtectedRoute {
  import opened Wrappers
  import opened SessionCodec
  import opened AuthContext

  const LoginPath: string := "/login"

  /** What the guard renders: the loading placeholder, a redirect, or the
      protected page (`<Outlet />`). */
  datatype View = Loading | Redirect(to: string) | Outlet

  /** The guard's decision on the provider's `isLoading` and `token`. */
  function Guard(isLoading: bool, token: Option<string>): (v: View)
    ensures v == Loading <==> isLoading
    ensures v.Redirect? <==> !isLoading && !Truthy(token)
    ensures v.Redirect? ==> v.to == LoginPath
    ensures v == Outlet <==> !isLoading && Truthy(token)
  {
    if isLoading then Loading
    else if !Truthy(token) then Redirect(LoginPath)
    else Outlet
  }

  function GuardOf(s: Session): View {
    Guard(s.isLoading, s.token)
  }

  /** Before storage has been read, the guard neither redirects nor
      renders; once the init effect completes without throwing, it decides. */
  lemma NoDecisionBeforeInit(storage: map<string, string>)
    ensures GuardOf(Fresh(storage)) == Loading
    ensures !InitThrows(Fresh(storage)) ==> GuardOf(AfterInit(Fresh(storage))) != Loading
  {
  }

  /** Once loading has finished, signing out sends the user to the sign-in page. */
  lemma LogoutRedirects(s: Session)
    requires !s.isLoading
    ensures GuardOf(AfterLogout(s)) == Redirect(LoginPath)
  {
  }

  /** A sign-in with a non-empty token opens the protected pages, now and
      after the page is reloaded. */
  lemma LoginRenders(s: Session, t: string, u: SessionUser)
    requires !s.isLoading && t != ""
    ensures GuardOf(AfterLogin(s, t, u)) == Outlet
    ensures GuardOf(AfterInit(Fresh(AfterLogin(s, t, u).storage))) == Outlet
  {
    LoginThenReload(s, t, u);
  }

  /** A reload after signing out redirects. */
  lemma ReloadAfterLogoutRedirects(s: Session)
    ensures GuardOf(AfterInit(Fresh(AfterLogout(s).storage))) == Redirect(LoginPath)
  {
    LogoutThenReload(s);
  }
}
