/** The reset-password page (src/pages/auth/ResetPasswordPage.tsx): its schema, the
    token read from the query string, the redirect when there is none, and the local
    `isLoading`/`error`/`isSubmitted` state around the call to the auth service. */
module ResetPasswordPage {
  import opened Wrappers
  import opened AuthTypes
  import opened Validation
  import opened UseForm
  import opened Pages
  import Query
  import AuthService

  const ShortPassword := "Password must be at least 8 characters"
  const ShortConfirmation := "Please confirm your password"
  const Mismatch := "Passwords do not match"

  /** Both passwords at least eight code units, any token, and the two passwords
      equal, a mismatch being filed under `confirmPassword`. */
  const ResetSchema := Schema(
    [Field("password", MinLen(8, ShortPassword)),
     Field("confirmPassword", MinLen(8, ShortConfirmation)),
     Field("token", AnyString)],
    [EqualFields("password", "confirmPassword", "confirmPassword", Mismatch)])

  /** The schema has no email field, so the email predicate it is parsed with is
      never consulted. */
  const Unconsulted: string -> bool := _ => true

  /** `new URLSearchParams(location.search).get('token') || ''`: the value of the
      first `token` pair of the query string, or empty when it has none. */
  function TokenFrom(search: string): (token: string)
    ensures (forall i :: 0 <= i < |Query.ParseSearch(search)| ==> Query.ParseSearch(search)[i].name != "token") ==>
      token == ""
    ensures forall i ::
      (0 <= i < |Query.ParseSearch(search)| && Query.ParseSearch(search)[i].name == "token"
       && forall j :: 0 <= j < i ==> Query.ParseSearch(search)[j].name != "token")
      ==> token == Query.ParseSearch(search)[i].value
  {
    Query.Get(Query.ParseSearch(search), "token").GetOr("")
  }

  /** On a search string written from pairs, the token is the value of the first
      `token` pair, or empty when there is none. */
  lemma TokenOfWrittenSearch(ps: seq<Query.Param>)
    requires Query.Writable(ps)
    ensures (forall i :: 0 <= i < |ps| ==> ps[i].name != "token") ==> TokenFrom(Query.Serialize(ps)) == ""
    ensures forall i :: 0 <= i < |ps| && ps[i].name == "token" && (forall j :: 0 <= j < i ==> ps[j].name != "token") ==>
      TokenFrom(Query.Serialize(ps)) == ps[i].value
  {
    Query.ParseSerialize(ps);
  }

  /** The form starts with both passwords empty and the token from the query string. */
  function InitialValues(token: string): Values
  {
    map["password" := "", "confirmPassword" := "", "token" := token]
  }

  /** The `useEffect` on `token`: with no token, go to the forgot-password page. */
  function RedirectWhenNoToken(token: string): (nav: Option<Nav>)
    ensures nav.Some? <==> token == ""
    ensures nav.Some? ==> nav.value == Nav("/forgot-password", false)
  {
    if token == "" then Some(Nav("/forgot-password", false)) else None
  }

  /** The page's own state beside the form hook's. */
  datatype Local = Local(isLoading: bool, error: Option<string>, isSubmitted: bool)

  /** What the awaited request threw: an `Error` carrying a message, or any other value. */
  datatype Raised = ErrorInstance(message: string) | NonError

  const FallbackMessage := "Something went wrong"

  /** The local state while the request is awaited and after it settled. */
  datatype LocalRun = LocalRun(during: Local, after: Local)

  /** The page's `onSubmit`: raise `isLoading` and clear `error`, await the request,
      then record success or the error's message; `isLoading` drops on both paths.
      It catches everything, so the form hook always sees it resolve. */
  function OnSubmit(l: Local, outcome: Result<string, Raised>): (run: LocalRun)
    ensures run.during == Local(true, None, l.isSubmitted)
    ensures !run.after.isLoading
    ensures outcome.Success? ==> run.after.isSubmitted && run.after.error.None?
    ensures outcome.Failure? ==> run.after.isSubmitted == l.isSubmitted
    ensures outcome == Failure(NonError) ==> run.after.error == Some(FallbackMessage)
    ensures outcome.Failure? && outcome.error.ErrorInstance? ==> run.after.error == Some(outcome.error.message)
  {
    var during := l.(isLoading := true, error := None);
    var after :=
      match outcome
      case Success(_) => during.(isSubmitted := true)
      case Failure(ErrorInstance(m)) => during.(error := Some(m))
      case Failure(NonError) => during.(error := Some(FallbackMessage));
    LocalRun(during, after.(isLoading := false))
  }

  datatype Page = Page(form: FormState, local: Local)

  /** The page as first rendered for a given `location.search`. */
  function Mount(search: string): (p: Page)
    ensures p.form.values == InitialValues(TokenFrom(search))
    ensures p.form.errors == map[] && !p.form.isSubmitting
    ensures p.local == Local(false, None, false)
  {
    Page(Init(InitialValues(TokenFrom(search))), Local(false, None, false))
  }

  /** A submit of the page: the form hook's run, the page afterwards, and the request
      sent to the auth service when validation passed. */
  datatype PageRun = PageRun(form: SubmitRun, after: Page, request: Option<ResetPasswordRequest>)

  function Submit(p: Page): (run: PageRun)
    ensures run.request.Some? <==> Valid(ResetSchema, p.form.values, Unconsulted)
    ensures run.request.Some? ==>
      && "token" in p.form.values && "password" in p.form.values && "confirmPassword" in p.form.values
      && run.request.value == ResetPasswordRequest(
           p.form.values["token"], p.form.values["password"], p.form.values["confirmPassword"])
    ensures run.request.None? ==> run.after.local == p.local
    ensures run.request.Some? ==>
      && !run.after.local.isLoading
      && run.after.form.errors == map[]
      && (run.after.local.isSubmitted <==> p.local.isSubmitted || run.request.value.token != AuthService.InvalidToken)
      && (run.request.value.token == AuthService.InvalidToken ==> run.after.local.error == Some("Invalid or expired token"))
      && (run.request.value.token != AuthService.InvalidToken ==> run.after.local.error.None?)
    ensures run.after.form == run.form.after && !run.after.form.isSubmitting
  {
    var parsed := Parse(ResetSchema, p.form.values, Unconsulted);
    var formRun := UseForm.Submit(p.form, parsed, Resolved);
    match parsed
    case Failure(_) => PageRun(formRun, Page(formRun.after, p.local), None)
    case Success(v) =>
      assert "token" in Names(ResetSchema) && "password" in Names(ResetSchema) && "confirmPassword" in Names(ResetSchema);
      var request := ResetPasswordRequest(v["token"], v["password"], v["confirmPassword"]);
      var outcome :=
        match AuthService.ResetPassword(request)
        case Success(m) => Success(m)
        case Failure(m) => Failure(ErrorInstance(m));
      PageRun(formRun, Page(formRun.after, OnSubmit(p.local, outcome).after), Some(request))
  }

  /** The banner shows the page's own error; the success panel replaces the form
      exactly when `isSubmitted`; the button is busy while the request or the form
      submit is in flight. */
  function ViewOf(p: Page): (v: View)
    ensures v.busy <==> p.local.isLoading || p.form.isSubmitting
    ensures v.content == SuccessPanel <==> p.local.isSubmitted
    ensures v.banner == Banner(p.local.error)
  {
    View(Banner(p.local.error), if p.local.isSubmitted then SuccessPanel else FormPanel,
         p.local.isLoading || p.form.isSubmitting)
  }

  /** The schema accepts exactly two passwords of at least eight code units that are
      equal, with any token. */
  lemma ValidIff(values: Values, isEmail: string -> bool)
    ensures Valid(ResetSchema, values, isEmail) <==>
      && "password" in values && "confirmPassword" in values && "token" in values
      && Utf16Len(values["password"]) >= 8 && Utf16Len(values["confirmPassword"]) >= 8
      && values["password"] == values["confirmPassword"]
  {
    assert ResetSchema.fields[0] in ResetSchema.fields;
    assert ResetSchema.fields[1] in ResetSchema.fields;
    assert ResetSchema.fields[2] in ResetSchema.fields;
    assert ResetSchema.refinements[0] in ResetSchema.refinements;
  }

  /** Whatever order a failed validation lists its issues in, `password` carries the
      length message exactly when it is too short, and `token` never has an error. */
  lemma PasswordAndTokenErrors(values: Values, isEmail: string -> bool, issues: seq<Issue>)
    requires "password" in values && "token" in values
    requires Reports(ResetSchema, values, isEmail, issues)
    ensures "password" in ErrorsOf(issues) <==> Utf16Len(values["password"]) < 8
    ensures "password" in ErrorsOf(issues) ==> ErrorsOf(issues)["password"] == ShortPassword
    ensures "token" !in ErrorsOf(issues)
  {
    SoleFieldError(ResetSchema, values, isEmail, issues, ResetSchema.fields[0]);
    SoleFieldError(ResetSchema, values, isEmail, issues, ResetSchema.fields[2]);
  }

  /** `confirmPassword` has an error exactly when it is too short or differs from
      `password`; a long enough confirmation that differs always reads "Passwords do
      not match", and an equal one that is too short reads the length message. */
  lemma ConfirmationError(values: Values, isEmail: string -> bool, issues: seq<Issue>)
    requires "password" in values && "confirmPassword" in values && "token" in values
    requires Reports(ResetSchema, values, isEmail, issues)
    ensures var errors := ErrorsOf(issues);
      && ("confirmPassword" in errors <==>
            Utf16Len(values["confirmPassword"]) < 8 || values["password"] != values["confirmPassword"])
      && ("confirmPassword" in errors ==>
            errors["confirmPassword"] == ShortConfirmation || errors["confirmPassword"] == Mismatch)
      && ("confirmPassword" in errors && Utf16Len(values["confirmPassword"]) >= 8 ==>
            errors["confirmPassword"] == Mismatch)
      && ("confirmPassword" in errors && values["password"] == values["confirmPassword"] ==>
            errors["confirmPassword"] == ShortConfirmation)
  {
    var f1, r := ResetSchema.fields[1], ResetSchema.refinements[0];
    var pw, confirm := values["password"], values["confirmPassword"];
    assert AllPresent(ResetSchema, values) by {
      forall f | f in ResetSchema.fields ensures f.name in values {
        assert f == ResetSchema.fields[0] || f == f1 || f == ResetSchema.fields[2];
      }
    }
    var out := Output(ResetSchema, values);
    assert "password" in Names(ResetSchema) && "confirmPassword" in Names(ResetSchema) by {
      assert ResetSchema.fields[0] in ResetSchema.fields && f1 in ResetSchema.fields;
    }
    assert RefinementFails(r, out) <==> pw != confirm;
    assert FieldMessage(f1, values, isEmail).Some? <==> Utf16Len(confirm) < 8;
    FieldWithRefinement(ResetSchema, values, isEmail, f1, r);
    ReportedErrors(ResetSchema, values, isEmail, issues, "confirmPassword");
  }

  /** Whatever order a failed validation lists its issues in, errors land only on the
      form's three fields. */
  lemma ErrorFields(values: Values, isEmail: string -> bool, issues: seq<Issue>)
    requires Reports(ResetSchema, values, isEmail, issues)
    ensures forall k :: k in ErrorsOf(issues) ==> k == "password" || k == "confirmPassword" || k == "token"
  {
    var fields, refinements := ResetSchema.fields, ResetSchema.refinements;
    forall f | f in fields ensures f.name == "password" || f.name == "confirmPassword" || f.name == "token" {
      assert f == fields[0] || f == fields[1] || f == fields[2];
    }
    forall r | r in refinements ensures r.attachTo == "confirmPassword" {
      assert r == refinements[0];
    }
    ReportedErrorKeys(ResetSchema, values, isEmail, issues);
  }

  /** With both passwords long enough but different, the only error, in any issue
      order, is "Passwords do not match" on `confirmPassword`. */
  lemma MismatchErrors(values: Values, isEmail: string -> bool, issues: seq<Issue>)
    requires "password" in values && "confirmPassword" in values && "token" in values
    requires Utf16Len(values["password"]) >= 8 && Utf16Len(values["confirmPassword"]) >= 8
    requires values["password"] != values["confirmPassword"]
    requires Reports(ResetSchema, values, isEmail, issues)
    ensures ErrorsOf(issues) == map["confirmPassword" := Mismatch]
  {
    ConfirmationError(values, isEmail, issues);
    PasswordAndTokenErrors(values, isEmail, issues);
    ErrorFields(values, isEmail, issues);
    OnlyError(ErrorsOf(issues), "confirmPassword", Mismatch);
  }

  /** Mismatched passwords of valid length never reach the service: the only error is
      "Passwords do not match", on `confirmPassword`, and the page's own state is
      untouched. */
  lemma MismatchIsFiledUnderConfirmation(p: Page)
    requires "password" in p.form.values && "confirmPassword" in p.form.values && "token" in p.form.values
    requires Utf16Len(p.form.values["password"]) >= 8 && Utf16Len(p.form.values["confirmPassword"]) >= 8
    requires p.form.values["password"] != p.form.values["confirmPassword"]
    ensures var run := Submit(p);
      && run.request.None?
      && run.after.local == p.local
      && run.after.form.errors == map["confirmPassword" := Mismatch]
  {
    ValidIff(p.form.values, Unconsulted);
    var parsed := Parse(ResetSchema, p.form.values, Unconsulted);
    assert Submit(p).after.form.errors == ErrorsOf(parsed.error);
    MismatchErrors(p.form.values, Unconsulted, parsed.error);
  }

  /** A valid submit with the rejected token shows the service's message over the
      form, and the button is no longer busy. */
  lemma InvalidTokenShowsError(p: Page)
    requires Valid(ResetSchema, p.form.values, Unconsulted)
    requires p.form.values["token"] == AuthService.InvalidToken
    requires !p.local.isSubmitted
    ensures ViewOf(Submit(p).after) == View(Some("Invalid or expired token"), FormPanel, false)
  {
  }

  /** A valid submit with any other token shows the success panel with no banner. */
  lemma AcceptedTokenShowsSuccess(p: Page)
    requires Valid(ResetSchema, p.form.values, Unconsulted)
    requires p.form.values["token"] != AuthService.InvalidToken
    ensures ViewOf(Submit(p).after) == View(None, SuccessPanel, false)
  {
  }
}
