/** The mock remote auth service (src/services/auth.ts). Each operation is modelled as
    the value its promise settles to: `Success(v)` when it resolves with `v`,
    `Failure(message)` when it rejects with `new Error(message)`. The artificial
    delay before every answer is not modelled. */
module AuthService {
  import opened Wrappers
  import opened AuthTypes

  /** The fixed identity every successful call is built from. */
  const MockUser := User("1", "john@example.com", "John Doe",
                         Some("https://source.unsplash.com/100x100/?portrait"))

  const MockToken := "mock-jwt-token"

  /** The addresses and token that make the mock calls fail. */
  const FailingLoginEmail := "error@example.com"
  const ExistingEmail := "exists@example.com"
  const UnknownEmail := "nonexistent@example.com"
  const InvalidToken := "invalid-token"

  const ResetEmailSent := "Password reset email sent"
  const PasswordWasReset := "Password has been reset successfully"

  /** `login`: rejects exactly the one failing address, otherwise answers with the
      mock user and token whatever the password. */
  function Login(credentials: LoginRequest): (r: Result<AuthResponse, string>)
    ensures r.Failure? <==> credentials.email == FailingLoginEmail
    ensures r.Failure? ==> r.error == "Invalid credentials"
    ensures r.Success? ==> r.value.user == MockUser && r.value.token == MockToken
  {
    if credentials.email == FailingLoginEmail then Failure("Invalid credentials")
    else Success(AuthResponse(MockUser, MockToken))
  }

  /** `register`: rejects exactly the one existing address, otherwise answers with the
      mock user carrying the requested name and email. */
  function Register(userData: RegisterRequest): (r: Result<AuthResponse, string>)
    ensures r.Failure? <==> userData.email == ExistingEmail
    ensures r.Failure? ==> r.error == "User already exists"
    ensures r.Success? ==>
      && r.value.user.name == userData.name
      && r.value.user.email == userData.email
      && r.value.user.id == MockUser.id
      && r.value.user.avatar == MockUser.avatar
      && r.value.token == MockToken
  {
    if userData.email == ExistingEmail then Failure("User already exists")
    else Success(AuthResponse(MockUser.(name := userData.name, email := userData.email), MockToken))
  }

  /** `forgotPassword`: rejects exactly the one unknown address. */
  function ForgotPassword(data: ForgotPasswordRequest): (r: Result<string, string>)
    ensures r.Failure? <==> data.email == UnknownEmail
    ensures r.Failure? ==> r.error == "User not found"
    ensures r.Success? ==> r.value == ResetEmailSent
  {
    if data.email == UnknownEmail then Failure("User not found")
    else Success(ResetEmailSent)
  }

  /** `resetPassword`: rejects exactly the one invalid token; the passwords are not
      looked at. */
  function ResetPassword(data: ResetPasswordRequest): (r: Result<string, string>)
    ensures r.Failure? <==> data.token == InvalidToken
    ensures r.Failure? ==> r.error == "Invalid or expired token"
    ensures r.Success? ==> r.value == PasswordWasReset
  {
    if data.token == InvalidToken then Failure("Invalid or expired token")
    else Success(PasswordWasReset)
  }

  /** `logout`: always resolves. */
  function Logout(): (r: Result<(), string>)
    ensures r.Success?
  {
    Success(())
  }

  /** The login answer depends on the email only. */
  lemma LoginIgnoresPassword(email: string, p1: string, p2: string)
    ensures Login(LoginRequest(email, p1)) == Login(LoginRequest(email, p2))
  {
  }

  /** The reset answer depends on the token only. */
  lemma ResetPasswordIgnoresPasswords(token: string, p1: string, c1: string, p2: string, c2: string)
    ensures ResetPassword(ResetPasswordRequest(token, p1, c1)) == ResetPassword(ResetPasswordRequest(token, p2, c2))
  {
  }

  /** A successful registration answers with the same identity a login would, apart
      from the requested name and email. */
  lemma RegisterIsLoginWithRequestedIdentity(userData: RegisterRequest, password: string)
    requires userData.email != ExistingEmail
    requires userData.email != FailingLoginEmail
    ensures Register(userData).Success? && Login(LoginRequest(userData.email, password)).Success?
    ensures Register(userData).value
         == Login(LoginRequest(userData.email, password)).value.(user :=
              Login(LoginRequest(userData.email, password)).value.user.(name := userData.name, email := userData.email))
  {
  }
}
