# Authentication UI template: a Dafny model of its core

This project models the core of a React/TypeScript authentication front end:

- the form controller hook `useForm`: change handling, submit with schema validation and the mapping of validation issues to field errors, and reset;
- the zod schemas of the four auth pages and the validation semantics they rely on;
- the mock auth service: `login`, `register`, `forgotPassword`, `resetPassword` and `logout`;
- the `AuthGuard` in front of the dashboard;
- the login, register, forgot-password and reset-password pages: what a submit dispatches or sends, their redirect and cleanup effects, their local state, and what they render (error banner, form or success panel, busy button);
- the route table of `App`, and what a visit to a path ends up showing.

Everything is pure functions over immutable datatypes.

- **Effects as data.** Effects such as navigation, dispatching a session action, or awaiting a promise become values (`Nav`, `SessionAction`, `Settled`) or parameters.
- **Email check.** zod's email check is a parameter `isEmail: string -> bool`. Its regular expression is not modelled.
- **`.min(n)` lengths.** They count UTF-16 code units, like JavaScript's `length` (`Validation.Utf16Len`).

Modules, one per file:

| module | file |
|---|---|
| `Wrappers` | `wrappers.dfy` |
| `AuthTypes` | `auth_types.dfy` |
| `AuthService` | `auth_service.dfy` |
| `AuthGuard` | `auth_guard.dfy` |
| `Validation` | `validation.dfy` |
| `UseForm` | `use_form.dfy` |
| `Query` | `query.dfy` |
| `Pages` | `pages.dfy` |
| `LoginPage` | `login_page.dfy` |
| `RegisterPage` | `register_page.dfy` |
| `ForgotPasswordPage` | `forgot_password_page.dfy` |
| `ResetPasswordPage` | `reset_password_page.dfy` |
| `Routes` | `app_routes.dfy` |

**Validation semantics.** The model assumes zod 3 (the version is not pinned in the sources modelled here).

- A missing key gives the issue "Required", and then no object refinement runs.
- A failed string check does not abort, so the reset page's "passwords match" refinement still runs when a password is too short.
- Unknown keys are stripped from the parsed object.

zod's issue order is treated as unknown. `Validation.Reports` says what any faithful issue list contains, and the page lemmas hold for every issue list that satisfies it. `Validation.Parse` produces one such list.

**Behaviours of the code worth knowing:**

- `handleSubmit` has no guard against a second submit while one is in flight. It raises `isSubmitting` before validating.
- When two issues name the same field, the `reduce` keeps the last message.
- The reset page first renders its form with an empty token and only then redirects from an effect.

## Model

| member | source | states |
|---|---|---|
| AuthTypes.Banner | src/pages/auth/LoginPage.tsx:53-57 | the banner appears exactly when the error is present and non-empty, and then shows that error |
| AuthService.Login | src/services/auth.ts:20-34 | fails exactly for `error@example.com`, with "Invalid credentials"; otherwise answers with the mock user and token |
| AuthService.Register | src/services/auth.ts:39-57 | fails exactly for `exists@example.com`, with "User already exists"; otherwise the user carries the requested name and email and the mock id, avatar and token |
| AuthService.ForgotPassword | src/services/auth.ts:62-75 | fails exactly for `nonexistent@example.com`, with "User not found"; otherwise answers "Password reset email sent" |
| AuthService.ResetPassword | src/services/auth.ts:80-93 | fails exactly for the token `invalid-token`, with "Invalid or expired token"; otherwise answers "Password has been reset successfully" |
| AuthService.Logout | src/services/auth.ts:98-104 | always succeeds |
| AuthService.LoginIgnoresPassword | src/services/auth.ts:25-33 | two logins with the same email and any passwords get the same answer |
| AuthService.ResetPasswordIgnoresPasswords | src/services/auth.ts:85-92 | two resets with the same token get the same answer, whatever the passwords |
| AuthService.RegisterIsLoginWithRequestedIdentity | src/services/auth.ts:49-56 | a successful registration answers what a login would, with the user's name and email replaced by the requested ones |
| AuthGuard.Decide | src/components/auth/AuthGuard.tsx:10-21 | loading screen iff loading; redirect to `/login` (replacing history) iff settled and unauthenticated; children iff settled and authenticated |
| AuthGuard.DecideFor | src/components/auth/AuthGuard.tsx:11-21 | on a whole session state: loading screen iff `isLoading`; redirect to `/login` iff settled and unauthenticated; children iff settled and authenticated |
| AuthGuard.DecisionDependsOnlyOnFlags | src/components/auth/AuthGuard.tsx:11 | two sessions with the same loading and authenticated flags get the same decision, whatever their user, token and error |
| Validation.Utf16Len | src/pages/auth/RegisterPage.tsx:17-19 | a string's UTF-16 length is its character count plus the number of astral characters (two code units each), so between the count and twice it |
| Validation.Utf16LenAppend | src/pages/auth/RegisterPage.tsx:17-19 | the UTF-16 length of a concatenation is the sum of the lengths |
| Validation.Utf16LenOfChar | src/pages/auth/RegisterPage.tsx:17-19 | one character is two code units if astral, else one |
| Validation.Utf16LenOfBmp | src/pages/auth/LoginPage.tsx:18 | for text without astral characters the UTF-16 length is the character count |
| Validation.RuleMessage | src/pages/auth/LoginPage.tsx:16-19 | a plain string check never fails; `min(n)` fails iff the UTF-16 length is below n; `email` fails iff the value is not email-shaped; a failure carries the rule's own message |
| Validation.FieldMessage | src/pages/auth/ResetPasswordPage.tsx:15-18 | a field has no issue iff its key is present and its rule passes; a missing key reads "Required"; otherwise the message is the rule's own |
| Validation.FieldIssues | src/pages/auth/ResetPasswordPage.tsx:15-18 | the per-field issues each name a failing field with its message, every failing field has one, and there are at most as many as fields |
| Validation.FieldIssuesAppend | src/pages/auth/ResetPasswordPage.tsx:15-18 | the fields are checked one after another: the issues of two field lists are those of the first followed by those of the second |
| Validation.FieldIssuesOne | src/pages/auth/ResetPasswordPage.tsx:15-18 | a single field gives exactly one issue, under its name with its message, when it fails, and none when it passes |
| Validation.RefinementIssues | src/pages/auth/ResetPasswordPage.tsx:19-22 | the refinement issues each name a failing refinement under its target path with its message, every failing refinement has one, and there are at most as many as refinements |
| Validation.RefinementIssuesAppend | src/pages/auth/ResetPasswordPage.tsx:19-22 | refinements run one after another: the issues of two lists are those of the first followed by those of the second |
| Validation.RefinementIssuesOne | src/pages/auth/ResetPasswordPage.tsx:19-22 | a single refinement gives exactly one issue, under its target with its message, when it fails, and none when it holds |
| Validation.Output | src/hooks/useForm.ts:43 | the parsed object keeps exactly the schema's keys that are present, each with its submitted value; unknown keys are stripped |
| Validation.Issues | src/pages/auth/ResetPasswordPage.tsx:15-22 | every missing key is reported "Required"; while a key is missing only field issues appear; with all keys present every failing refinement is reported; no more issues than fields and refinements together |
| Validation.Parse | src/hooks/useForm.ts:43 | succeeds iff the values satisfy the schema, and then returns exactly the schema's keys with their values; otherwise throws a non-empty faithful report of the failing constraints |
| Validation.IssuesAreAReport | src/hooks/useForm.ts:43 | the issues parsing computes are a faithful report: each names a failing constraint, and every blamed field has one |
| Validation.IssuesEmptyIffValid | src/hooks/useForm.ts:43 | parsing finds no issue iff the values satisfy the schema |
| Validation.SoleConstraint | src/pages/auth/LoginPage.tsx:16-19 | a field with a unique name and no refinement aimed at it is blamed, and with which message, by its own rule alone |
| Validation.FieldWithRefinement | src/pages/auth/ResetPasswordPage.tsx:15-22 | a field that one refinement targets is blamed iff its rule or that refinement fails, with one of their two messages |
| UseForm.Init | src/hooks/useForm.ts:15-17 | a mounted form holds the initial values, no errors and is not submitting |
| UseForm.Change | src/hooks/useForm.ts:19-34 | the edited field takes the new value and every other field keeps its own; a truthy error on that field is removed and nothing else changes in the errors |
| UseForm.ErrorsOf | src/hooks/useForm.ts:53-57 | a key has an error iff some issue is filed under it, and its message is that of the last such issue |
| UseForm.LastForExtends | src/hooks/useForm.ts:53-57 | adding an issue for one key leaves every other key's last message unchanged |
| UseForm.Submit | src/hooks/useForm.ts:36-66 | `isSubmitting` is raised while awaiting and dropped after; the callback runs iff validation passes, with the parsed values; errors become the issue map on failed validation or a thrown `ZodError`, empty after a resolved callback, and unchanged after any other throw |
| UseForm.Reset | src/hooks/useForm.ts:68-71 | a reset restores the initial values, clears the errors and leaves `isSubmitting` alone |
| UseForm.ChangeAll | src/hooks/useForm.ts:19-34 | a run of edits keeps `isSubmitting` and only ever removes errors |
| UseForm.ChangeAllValues | src/hooks/useForm.ts:21-22 | after a run of edits each field holds the value of its last edit, and untouched fields keep theirs |
| UseForm.EditClearsError | src/hooks/useForm.ts:24-31 | an edit of a field showing an error clears it, and no later edit brings it back |
| UseForm.EditsNeverAddErrors | src/hooks/useForm.ts:19-34 | starting without errors, no run of edits produces one |
| UseForm.NoDoubleSubmitGuard | src/hooks/useForm.ts:36-40 | submitting during a submit behaves exactly like submitting from an idle form |
| UseForm.FailedValidationIgnoresCallback | src/hooks/useForm.ts:41-46 | when validation fails the callback is not invoked, so how it would settle is irrelevant |
| UseForm.FailedValidationErrors | src/hooks/useForm.ts:50-59 | after a failed validation exactly the fields some issue names carry an error, each the last message for it |
| UseForm.ResetForgetsEdits | src/hooks/useForm.ts:68-71 | resetting after any run of edits gives the same state as resetting before them |
| UseForm.ReportedErrors | src/hooks/useForm.ts:50-59 | for any faithful issue order, a field has an error iff the schema blames it, with a message one of its failing constraints reports |
| UseForm.ReportedErrorKeys | src/hooks/useForm.ts:53-57 | errors are only filed under the schema's field names or refinement targets |
| UseForm.SoleFieldError | src/hooks/useForm.ts:53-59 | a field constrained by its own rule alone has an error iff that rule fails, and the error is that rule's message |
| Query.IndexOf | src/pages/auth/ResetPasswordPage.tsx:32 | finds the first occurrence of a character |
| Query.IndexOfAfter | src/pages/auth/ResetPasswordPage.tsx:32 | the first `c` after a `c`-free prefix sits right after that prefix |
| Query.Split | src/pages/auth/ResetPasswordPage.tsx:32 | cutting at a separator gives at least one separator-free piece, and joining the pieces gives the string back |
| Query.SplitJoin | src/pages/auth/ResetPasswordPage.tsx:32 | cutting a join of separator-free pieces gives the pieces back |
| Query.ParsePiece | src/pages/auth/ResetPasswordPage.tsx:32 | a piece without `=` is a name with an empty value; otherwise the name is everything before the first `=` and the value the rest |
| Query.ParsePieces | src/pages/auth/ResetPasswordPage.tsx:32 | never more pairs than pieces; with no empty piece, each piece is read in order into its pair; pieces without `&` give writable pairs |
| Query.ParsePiecesAppend | src/pages/auth/ResetPasswordPage.tsx:32 | the pieces are read one after another: reading two runs of pieces gives the pairs of the first followed by those of the second |
| Query.ParsePiecesOne | src/pages/auth/ResetPasswordPage.tsx:32 | an empty piece gives no pair, and any other piece exactly its own pair |
| Query.ParsePiecesSound | src/pages/auth/ResetPasswordPage.tsx:32 | every pair read comes from a non-empty piece |
| Query.ParsePiecesComplete | src/pages/auth/ResetPasswordPage.tsx:32 | every non-empty piece gives a pair |
| Query.ParseSearch | src/pages/auth/ResetPasswordPage.tsx:32 | the pairs read from any search string can be written back and read again unchanged |
| Query.Get | src/pages/auth/ResetPasswordPage.tsx:33 | `get(name)` is absent iff no pair has that name, and otherwise is the value of the first such pair |
| Query.Pieces | src/pages/auth/ResetPasswordPage.tsx:32 | each pair is written as `name=value`, in order |
| Query.ParseSerialize | src/pages/auth/ResetPasswordPage.tsx:32-33 | reading back a written search string gives exactly the pairs written |
| Query.ParseWrittenPieces | src/pages/auth/ResetPasswordPage.tsx:32 | reading back the written pieces gives exactly the pairs written |
| Pages.RedirectIfAuthenticated | src/pages/auth/LoginPage.tsx:36-41 | navigates (push) to `/dashboard` exactly when authenticated |
| Pages.SessionView | src/pages/auth/LoginPage.tsx:53-110 | the button is busy iff the session is loading or the form submitting; the success panel shows iff submitted; the banner shows the session's non-empty error |
| LoginPage.Mount | src/pages/auth/LoginPage.tsx:25-28 | a fresh form holds exactly the schema's keys, all empty, with no errors and not submitting; the schema rejects it for any email check, so an untouched submit never dispatches |
| LoginPage.Submit | src/pages/auth/LoginPage.tsx:30-34 | the `login` action is dispatched iff the values pass the login schema, with the submitted email and password |
| LoginPage.ValidIff | src/pages/auth/LoginPage.tsx:16-19 | the schema accepts exactly an email-shaped email and a password of at least six UTF-16 code units |
| LoginPage.ErrorFields | src/pages/auth/LoginPage.tsx:16-19 | errors only ever land on `email` and `password` |
| LoginPage.EmailError | src/pages/auth/LoginPage.tsx:17 | `email` has an error iff it is not email-shaped, and then it reads "Please enter a valid email address" |
| LoginPage.PasswordError | src/pages/auth/LoginPage.tsx:18 | `password` has an error iff it is under six code units, and then it reads "Password must be at least 6 characters" |
| LoginPage.RejectedSubmitErrors | src/pages/auth/LoginPage.tsx:30-34 | a rejected submit dispatches nothing and files each failing field's own message under it, and nothing else |
| LoginPage.OnAuthChange | src/pages/auth/LoginPage.tsx:36-41 | once authenticated the page moves on to the dashboard, and not before |
| LoginPage.OnUnmount | src/pages/auth/LoginPage.tsx:43-48 | leaving the page clears the session error |
| LoginPage.ViewOf | src/pages/auth/LoginPage.tsx:53-110 | always the form; busy while the session loads or the form submits; the banner shows the session error |
| RegisterPage.Mount | src/pages/auth/RegisterPage.tsx:27-31 | a fresh form holds exactly the schema's keys, all empty, with no errors and not submitting; the schema rejects it for any email check, so an untouched submit never dispatches |
| RegisterPage.Submit | src/pages/auth/RegisterPage.tsx:32-36 | the `register` action is dispatched iff the values pass the register schema, with the submitted name, email and password |
| RegisterPage.ValidIff | src/pages/auth/RegisterPage.tsx:16-20 | the schema accepts exactly a name of at least two code units, an email-shaped email and a password of at least eight |
| RegisterPage.ErrorFields | src/pages/auth/RegisterPage.tsx:16-20 | errors only ever land on `name`, `email` and `password` |
| RegisterPage.NameError | src/pages/auth/RegisterPage.tsx:17 | `name` has an error iff it is under two code units, with the name message |
| RegisterPage.EmailError | src/pages/auth/RegisterPage.tsx:18 | `email` has an error iff it is not email-shaped, with the email message |
| RegisterPage.PasswordError | src/pages/auth/RegisterPage.tsx:19 | `password` has an error iff it is under eight code units, with the password message |
| RegisterPage.RejectedSubmitErrors | src/pages/auth/RegisterPage.tsx:32-36 | a rejected submit dispatches nothing and files each failing field's own message under it, and nothing else |
| RegisterPage.OnAuthChange | src/pages/auth/RegisterPage.tsx:38-43 | once authenticated the page moves on to the dashboard, and not before |
| RegisterPage.OnUnmount | src/pages/auth/RegisterPage.tsx:45-50 | leaving the page clears the session error |
| RegisterPage.ViewOf | src/pages/auth/RegisterPage.tsx:55-123 | always the form; busy while the session loads or the form submits; the banner shows the session error |
| ForgotPasswordPage.Mount | src/pages/auth/ForgotPasswordPage.tsx:22-26 | a fresh page has an empty email, no errors and nothing submitted |
| ForgotPasswordPage.OnSubmit | src/pages/auth/ForgotPasswordPage.tsx:31-34 | `isSubmitted` is set iff the dispatched action returned (or it was already set), and a throw reaches the form hook unchanged |
| ForgotPasswordPage.Submit | src/pages/auth/ForgotPasswordPage.tsx:28-35 | `forgotPassword` is dispatched iff the email is email-shaped; the page ends up submitted iff it was, or the dispatch went through and returned |
| ForgotPasswordPage.ValidIff | src/pages/auth/ForgotPasswordPage.tsx:15-17 | the schema accepts exactly an email-shaped `email` |
| ForgotPasswordPage.RejectedSubmitErrors | src/pages/auth/ForgotPasswordPage.tsx:28-35 | a rejected email dispatches nothing, leaves `isSubmitted` alone, and leaves exactly the email message under `email` |
| ForgotPasswordPage.OnUnmount | src/pages/auth/ForgotPasswordPage.tsx:37-42 | leaving the page clears the session error |
| ForgotPasswordPage.ViewOf | src/pages/auth/ForgotPasswordPage.tsx:47-92 | the success panel replaces the form iff submitted; busy while the session loads or the form submits; the banner shows the session error |
| ForgotPasswordPage.SuccessPanelStays | src/pages/auth/ForgotPasswordPage.tsx:53 | once the success panel shows, no later submit brings the form back |
| ResetPasswordPage.TokenFrom | src/pages/auth/ResetPasswordPage.tsx:31-33 | the token is empty when the query string has no `token` pair, and otherwise the value of the first one |
| ResetPasswordPage.TokenOfWrittenSearch | src/pages/auth/ResetPasswordPage.tsx:32-33 | for a written query string the token is the first `token` value, or empty when there is none |
| ResetPasswordPage.RedirectWhenNoToken | src/pages/auth/ResetPasswordPage.tsx:58-63 | navigates (push) to `/forgot-password` exactly when the token is empty |
| ResetPasswordPage.OnSubmit | src/pages/auth/ResetPasswordPage.tsx:44-55 | loading and no error while awaiting; afterwards not loading, submitted on success, and on failure the error's message (or "Something went wrong") with `isSubmitted` unchanged |
| ResetPasswordPage.Mount | src/pages/auth/ResetPasswordPage.tsx:27-39 | the form starts with empty passwords and the query string's token; the local state starts idle |
| ResetPasswordPage.Submit | src/pages/auth/ResetPasswordPage.tsx:41-56 | the service is called iff the values pass the schema, with the submitted token and passwords; then the form's errors are cleared and the page is submitted iff the token is not `invalid-token`, whose message shows instead; on a rejected submit the local state is untouched |
| ResetPasswordPage.ViewOf | src/pages/auth/ResetPasswordPage.tsx:68-126 | the success panel replaces the form iff submitted; busy while loading or submitting; the banner shows the page's own error |
| ResetPasswordPage.ValidIff | src/pages/auth/ResetPasswordPage.tsx:15-22 | the schema accepts exactly two equal passwords of at least eight code units, with any token |
| ResetPasswordPage.PasswordAndTokenErrors | src/pages/auth/ResetPasswordPage.tsx:16-18 | `password` has an error iff it is under eight code units, with its length message; `token` never has one |
| ResetPasswordPage.ConfirmationError | src/pages/auth/ResetPasswordPage.tsx:17-22 | `confirmPassword` has an error iff it is too short or differs from `password`; a long enough one that differs reads "Passwords do not match", an equal one that is too short reads "Please confirm your password" |
| ResetPasswordPage.ErrorFields | src/pages/auth/ResetPasswordPage.tsx:15-22 | errors only ever land on `password`, `confirmPassword` and `token` |
| ResetPasswordPage.MismatchErrors | src/pages/auth/ResetPasswordPage.tsx:19-22 | two long enough but different passwords leave "Passwords do not match" on `confirmPassword` as the only error |
| ResetPasswordPage.MismatchIsFiledUnderConfirmation | src/pages/auth/ResetPasswordPage.tsx:41-56 | such a submit never reaches the service and leaves the page's own state untouched |
| ResetPasswordPage.InvalidTokenShowsError | src/pages/auth/ResetPasswordPage.tsx:44-55 | a valid submit with `invalid-token` shows "Invalid or expired token" over the form, not busy |
| ResetPasswordPage.AcceptedTokenShowsSuccess | src/pages/auth/ResetPasswordPage.tsx:74-88 | a valid submit with any other token shows the success panel with no banner, not busy |
| Routes.FirstWith | src/App.tsx:24-41 | finds a route iff one has the pattern, and what it finds is the element of the first such route |
| Routes.FirstWithWins | src/App.tsx:24-41 | the first route with a pattern is the one found |
| Routes.Resolve | src/App.tsx:24-41 | a path gets the element of the first route naming it exactly; when no route names it, the element of the first catch-all route |
| Routes.ResolveTable | src/App.tsx:26-40 | each public path shows its page, `/dashboard` its guarded page, and `/` and every undeclared path redirect to `/login`, replacing history |
| Routes.GuardAndRedirects | src/App.tsx:32-40 | `/dashboard` is the only guarded path; a path redirects iff it is `/` or undeclared, and always to the login page |
| Routes.Visit | src/App.tsx:24-41 | a public route shows its page and a redirect route navigates, whatever the session; a guarded route shows loading iff loading, navigates to `/login` iff settled and unauthenticated, and shows its page iff settled and authenticated |
| Routes.DashboardOnlyWhenAuthenticated | src/App.tsx:32-36 | the dashboard shows exactly for `/dashboard` with an authenticated, settled session |
| Routes.OnlyDashboardDependsOnSession | src/App.tsx:26-40 | every path but `/dashboard` shows the same thing whatever the session flags |
| Routes.RedirectsLandOnLogin | src/App.tsx:39-40 | every navigation a visit starts goes to `/login`, which shows the login page at once |
| Routes.MissingTokenLandsOnForgotPassword | src/pages/auth/ResetPasswordPage.tsx:58-63 | a reset link without a token ends on the forgot-password page |
| Routes.SuccessPanelsReturnToLogin | src/pages/auth/ForgotPasswordPage.tsx:60-66 | the success panel's button pushes `/login`, which shows the login page whatever the session |
| Routes.AuthenticatedVisitorReachesDashboard | src/pages/auth/LoginPage.tsx:36-41 | the redirect an authenticated session triggers on the login page lands on the dashboard, shown |

## Left out

- Delays and timers: the mock service's `delay` is not modelled. Each service call is one step.
- Promises: an awaited call is a value it settled to (`Settled`, `Result`). Interleavings of concurrent submits are not modelled beyond `UseForm.NoDoubleSubmitGuard`.
- The session store: the `authSlice` reducers and thunks, and redux-persist, are not part of this model. `AuthState` has only its shape. Pages emit `SessionAction` descriptors, and what `dispatch` settles to is a parameter. With `createAsyncThunk` the dispatched promise normally resolves even when the thunk fails. In that case the forgot-password page would show its success panel after a failed request. Whether that happens depends on the slice, which is not part of this model.
- React effect scheduling: effects are modelled by what they do once (`OnAuthChange`, `OnUnmount`, `RedirectWhenNoToken`). `useAuth` returns a new `clearError` closure on every render. So on the login, register and forgot-password pages the cleanup of the `[clearError]` effect fires on every re-render, not only on unmount. The re-render that first shows a session error banner can therefore dispatch `clearError` at once and clear the error it is showing. `OnUnmount` models only the cleanup at unmount; these re-render cleanups are not modelled.
- `handleChange` reads the `errors` of the render it was created in. The model uses the current errors, as they are when renders keep up with events.
- JSX and presentation: layouts, cards, icons, social login buttons, the "remember me" checkbox, and links other than the success panels' button. The `PersistGate` and `Suspense` loading screens are not modelled.
- Browser constraint validation: `Input` passes `type` and `required` through to the `<input>` (src/components/ui/Input.tsx:12, 33-46). The email inputs are `type="email"` (for example src/pages/auth/LoginPage.tsx:63), every form field is `required` (src/pages/auth/LoginPage.tsx:69, 82), the terms checkbox is `required` (src/pages/auth/RegisterPage.tsx:100-106), and no form sets `noValidate`. In a browser, a submit with an empty field, an unticked checkbox or an email the browser rejects is blocked before `handleSubmit` runs. The model has no browser: its rejected-submit lemmas (`LoginPage.RejectedSubmitErrors`, `RegisterPage.RejectedSubmitErrors`, `ForgotPasswordPage.RejectedSubmitErrors`) also cover those runs, which a browser never lets through. They are reachable for values that pass the browser but fail the schema, such as a non-empty password shorter than the minimum. The terms checkbox is not part of the form state.
- Validation.RuleMessage: zod's email regular expression is a parameter `isEmail`, not modelled character by character.
- Validation.Parse: the order of the issues zod reports is not fixed. The page lemmas hold for any order that `Validation.Reports` admits.
- The zod version: assumed to be 3, where string-check failures do not abort and object refinements still run.
- Query.ParseSearch: `URLSearchParams` percent-decoding and `+`-as-space decoding are not modelled. Names and values are taken verbatim.
- Routes.Resolve: react-router's case-insensitive and trailing-slash path matching are not modelled; paths match exactly. In the browser `/dashboard/` and `/Dashboard` also reach the guarded dashboard, so `Routes.ResolveTable`, `Routes.GuardAndRedirects`, `Routes.DashboardOnlyWhenAuthenticated` and `Routes.OnlyDashboardDependsOnSession` hold only under exact matching.
- The dashboard page (src/pages/dashboard/DashboardPage.tsx:3-18) is a static placeholder outside the core. No page here calls `logout`, so `AuthService.Logout` (src/services/auth.ts:98-104) is modelled on its own.
