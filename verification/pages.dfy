/** What the auth pages have in common: the shape of what they render, and the
    effects the login and register pages share. */
module Pages {
  import opened Wrappers
  import opened AuthTypes

  /** The body of an auth card: the form, or the success panel that replaces it. */
  datatype Content = FormPanel | SuccessPanel

  /** What a page shows: its error banner, its body, and whether the submit button
      is busy (spinner, disabled). */
  datatype View = View(banner: Option<string>, content: Content, busy: bool)

  const DashboardNav := Nav("/dashboard", false)

  /** Where the success panels' "return to login" buttons go (a push, not a replace). */
  const BackToLogin := Nav("/login", false)

  /** The `useEffect` on `isAuthenticated`: navigate to the dashboard once the
      session is authenticated. */
  function RedirectIfAuthenticated(isAuthenticated: bool): (nav: Option<Nav>)
    ensures nav.Some? <==> isAuthenticated
    ensures nav.Some? ==> nav.value == DashboardNav
  {
    if isAuthenticated then Some(DashboardNav) else None
  }

  /** The page's cleanup effect: ask the session store to drop its error. */
  const ClearErrorOnUnmount: seq<SessionAction> := [ClearErrorRequested]

  /** A page that takes its banner and busy flag from the session store. */
  function SessionView(session: AuthState, isSubmitting: bool, isSubmitted: bool): (v: View)
    ensures v.busy <==> session.isLoading || isSubmitting
    ensures v.content == SuccessPanel <==> isSubmitted
    ensures v.banner.Some? <==> session.error.Some? && session.error.value != ""
    ensures v.banner.Some? ==> v.banner == session.error
  {
    View(Banner(session.error), if isSubmitted then SuccessPanel else FormPanel, session.isLoading || isSubmitting)
  }
}
