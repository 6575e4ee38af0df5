/** The records exchanged between the pages, the session store and the auth service
    (src/types/auth.ts), plus the two effect descriptors the pages emit: navigations
    and session-store actions. */
module AuthTypes {
  import opened Wrappers

  /** An identity record; `avatar` is optional. */
  datatype User = User(id: string, email: string, name: string, avatar: Option<string>)

  /** The process-wide session state. Its reducers live in a slice that is not part
      of this model, so only its shape is declared here. */
  datatype AuthState = AuthState(
    user: Option<User>,
    token: Option<string>,
    isAuthenticated: bool,
    isLoading: bool,
    error: Option<string>)

  datatype LoginRequest = LoginRequest(email: string, password: string)

  datatype RegisterRequest = RegisterRequest(name: string, email: string, password: string)

  datatype ForgotPasswordRequest = ForgotPasswordRequest(email: string)

  datatype ResetPasswordRequest = ResetPasswordRequest(token: string, password: string, confirmPassword: string)

  datatype AuthResponse = AuthResponse(user: User, token: string)

  /** A navigation request: the target path and whether it replaces the current
      history entry (`<Navigate replace>`) or pushes a new one (`navigate(to)`). */
  datatype Nav = Nav(to: string, replace: bool)

  /** An action handed to the session store's `dispatch`. What the store does with it
      is outside this model. */
  datatype SessionAction =
    | LoginRequested(credentials: LoginRequest)
    | RegisterRequested(userData: RegisterRequest)
    | ForgotPasswordRequested(data: ForgotPasswordRequest)
    | LogoutRequested
    | ClearErrorRequested

  /** The error banner of a page is rendered by `{error && ...}`: only a present,
      non-empty message is shown. */
  function Banner(error: Option<string>): (shown: Option<string>)
    ensures shown.Some? <==> error.Some? && error.value != ""
    ensures shown.Some? ==> shown == error
  {
    match error
    case Some(e) => if e != "" then Some(e) else None
    case None => None
  }
}
