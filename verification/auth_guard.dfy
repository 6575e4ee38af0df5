/** The gate in front of protected routes (src/components/auth/AuthGuard.tsx). */
module AuthGuard {
  import opened AuthTypes

  /** What the gate renders: the loading screen, a redirect, or its children. */
  datatype Decision = ShowLoading | RedirectTo(nav: Nav) | RenderChildren

  const LoginRedirect := Nav("/login", true)

  /** The gate's decision from the two session flags it reads. */
  function Decide(isLoading: bool, isAuthenticated: bool): (d: Decision)
    ensures d == ShowLoading <==> isLoading
    ensures d == RedirectTo(LoginRedirect) <==> !isLoading && !isAuthenticated
    ensures d == RenderChildren <==> !isLoading && isAuthenticated
  {
    if isLoading then ShowLoading
    else if !isAuthenticated then RedirectTo(LoginRedirect)
    else RenderChildren
  }

  /** The gate as a function of the whole session state. */
  function DecideFor(state: AuthState): (d: Decision)
    ensures d == ShowLoading <==> state.isLoading
    ensures d == RedirectTo(LoginRedirect) <==> !state.isLoading && !state.isAuthenticated
    ensures d == RenderChildren <==> !state.isLoading && state.isAuthenticated
  {
    Decide(state.isLoading, state.isAuthenticated)
  }

  /** The decision reads nothing of the session but its two flags: user, token and
      error never influence it. */
  lemma DecisionDependsOnlyOnFlags(a: AuthState, b: AuthState)
    requires a.isLoading == b.isLoading && a.isAuthenticated == b.isAuthenticated
    ensures DecideFor(a) == DecideFor(b)
  {
  }
}
