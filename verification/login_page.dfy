/** The login page (src/pages/auth/LoginPage.tsx): its schema, what a submit
    dispatches, and its effects. */
module LoginPage {
  import opened Wrappers
  import opened AuthTypes
  import opened Validation
  import opened UseForm
  import opened Pages

  const InvalidEmail := "Please enter a valid email address"
  const ShortPassword := "Password must be at least 6 characters"

  const LoginSchema := Schema(
    [Field("email", EmailShape(InvalidEmail)),
     Field("password", MinLen(6, ShortPassword))],
    [])

  const InitialValues: Values := map["email" := "", "password" := ""]

  /** A freshly mounted form: every field empty, no errors, not submitting. Such a
      form is never accepted as it stands: a submit before any edit is rejected. */
  function Mount(): (f: FormState)
    ensures f.values.Keys == Names(LoginSchema)
    ensures forall k :: k in f.values ==> f.values[k] == ""
    ensures f.errors == map[] && !f.isSubmitting
    ensures forall isEmail: string -> bool :: !Valid(LoginSchema, f.values, isEmail)
  {
    assert LoginSchema.fields[0] in LoginSchema.fields;
    assert LoginSchema.fields[1] in LoginSchema.fields;
    Init(InitialValues)
  }

  /** A submit of the login form: the form hook's run, and the session action handed
      to `dispatch` when the callback ran. `dispatch` is what awaiting that action
      settled to. */
  datatype PageRun = PageRun(form: SubmitRun, dispatched: Option<SessionAction>)

  function Submit(form: FormState, isEmail: string -> bool, dispatch: Settled): (run: PageRun)
    ensures run.dispatched.Some? <==> Valid(LoginSchema, form.values, isEmail)
    ensures run.dispatched.Some? ==>
      && "email" in form.values && "password" in form.values
      && run.dispatched.value == LoginRequested(LoginRequest(form.values["email"], form.values["password"]))
    ensures run.form.during.isSubmitting && !run.form.after.isSubmitting
    ensures run.form.after.values == form.values
  {
    var parsed := Parse(LoginSchema, form.values, isEmail);
    var formRun := UseForm.Submit(form, parsed, dispatch);
    match formRun.invokedWith
    case None => PageRun(formRun, None)
    case Some(v) =>
      assert "email" in Names(LoginSchema) && "password" in Names(LoginSchema);
      PageRun(formRun, Some(LoginRequested(LoginRequest(v["email"], v["password"]))))
  }

  /** The schema accepts exactly an email-shaped `email` and a `password` of at least
      six UTF-16 code units. */
  lemma ValidIff(values: Values, isEmail: string -> bool)
    ensures Valid(LoginSchema, values, isEmail) <==>
      && "email" in values && "password" in values
      && isEmail(values["email"]) && Utf16Len(values["password"]) >= 6
  {
    assert LoginSchema.fields[0] in LoginSchema.fields;
    assert LoginSchema.fields[1] in LoginSchema.fields;
  }

  /** Whatever order a failed validation lists its issues in, errors land only on the
      form's two fields. */
  lemma ErrorFields(values: Values, isEmail: string -> bool, issues: seq<Issue>)
    requires Reports(LoginSchema, values, isEmail, issues)
    ensures forall k :: k in ErrorsOf(issues) ==> k == "email" || k == "password"
  {
    ReportedErrorKeys(LoginSchema, values, isEmail, issues);
    forall k | k in ErrorsOf(issues) ensures k == "email" || k == "password" {
      var f :| f in LoginSchema.fields && f.name == k;
      assert f == LoginSchema.fields[0] || f == LoginSchema.fields[1];
    }
  }

  /** `email` carries the email message exactly when it is not email-shaped. */
  lemma EmailError(values: Values, isEmail: string -> bool, issues: seq<Issue>)
    requires "email" in values
    requires Reports(LoginSchema, values, isEmail, issues)
    ensures "email" in ErrorsOf(issues) <==> !isEmail(values["email"])
    ensures "email" in ErrorsOf(issues) ==> ErrorsOf(issues)["email"] == InvalidEmail
  {
    SoleFieldError(LoginSchema, values, isEmail, issues, LoginSchema.fields[0]);
  }

  /** `password` carries the length message exactly when it is too short. */
  lemma PasswordError(values: Values, isEmail: string -> bool, issues: seq<Issue>)
    requires "password" in values
    requires Reports(LoginSchema, values, isEmail, issues)
    ensures "password" in ErrorsOf(issues) <==> Utf16Len(values["password"]) < 6
    ensures "password" in ErrorsOf(issues) ==> ErrorsOf(issues)["password"] == ShortPassword
  {
    SoleFieldError(LoginSchema, values, isEmail, issues, LoginSchema.fields[1]);
  }

  /** A rejected submit of the filled-in form dispatches nothing and files each
      message under its own field. */
  lemma RejectedSubmitErrors(form: FormState, isEmail: string -> bool, dispatch: Settled)
    requires "email" in form.values && "password" in form.values
    requires !Valid(LoginSchema, form.values, isEmail)
    ensures var run := Submit(form, isEmail, dispatch);
      var errors := run.form.after.errors;
      && run.dispatched.None?
      && (forall k :: k in errors ==> k == "email" || k == "password")
      && ("email" in errors <==> !isEmail(form.values["email"]))
      && ("email" in errors ==> errors["email"] == InvalidEmail)
      && ("password" in errors <==> Utf16Len(form.values["password"]) < 6)
      && ("password" in errors ==> errors["password"] == ShortPassword)
  {
    var parsed := Parse(LoginSchema, form.values, isEmail);
    assert Submit(form, isEmail, dispatch).form.after.errors == ErrorsOf(parsed.error);
    ErrorFields(form.values, isEmail, parsed.error);
    EmailError(form.values, isEmail, parsed.error);
    PasswordError(form.values, isEmail, parsed.error);
  }

  /** Redirect to the dashboard once authenticated. */
  function OnAuthChange(isAuthenticated: bool): (nav: Option<Nav>)
    ensures nav.Some? <==> isAuthenticated
    ensures nav.Some? ==> nav.value == Nav("/dashboard", false)
  {
    RedirectIfAuthenticated(isAuthenticated)
  }

  /** Leaving the page asks the session store to clear its error. */
  function OnUnmount(): (actions: seq<SessionAction>)
    ensures actions == [ClearErrorRequested]
  {
    ClearErrorOnUnmount
  }

  /** The banner shows the session error; the button is busy while the session is
      loading or the form is submitting. */
  function ViewOf(form: FormState, session: AuthState): (v: View)
    ensures v.busy <==> session.isLoading || form.isSubmitting
    ensures v.content == FormPanel
    ensures v.banner == Banner(session.error)
  {
    SessionView(session, form.isSubmitting, false)
  }
}
