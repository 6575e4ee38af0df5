/** The register page (src/pages/auth/RegisterPage.tsx): its schema, what a submit
    dispatches, and its effects. */
module RegisterPage {
  import opened Wrappers
  import opened AuthTypes
  import opened Validation
  import opened UseForm
  import opened Pages

  const ShortName := "Name must be at least 2 characters"
  const InvalidEmail := "Please enter a valid email address"
  const ShortPassword := "Password must be at least 8 characters"

  const RegisterSchema := Schema(
    [Field("name", MinLen(2, ShortName)),
     Field("email", EmailShape(InvalidEmail)),
     Field("password", MinLen(8, ShortPassword))],
    [])

  const InitialValues: Values := map["name" := "", "email" := "", "password" := ""]

  /** A freshly mounted form: every field empty, no errors, not submitting. Such a
      form is never accepted as it stands: a submit before any edit is rejected. */
  function Mount(): (f: FormState)
    ensures f.values.Keys == Names(RegisterSchema)
    ensures forall k :: k in f.values ==> f.values[k] == ""
    ensures f.errors == map[] && !f.isSubmitting
    ensures forall isEmail: string -> bool :: !Valid(RegisterSchema, f.values, isEmail)
  {
    assert RegisterSchema.fields[0] in RegisterSchema.fields;
    assert RegisterSchema.fields[1] in RegisterSchema.fields;
    assert RegisterSchema.fields[2] in RegisterSchema.fields;
    Init(InitialValues)
  }

  /** A submit of the register form: the form hook's run, and the session action
      handed to `dispatch` when the callback ran. `dispatch` is what awaiting that
      action settled to. */
  datatype PageRun = PageRun(form: SubmitRun, dispatched: Option<SessionAction>)

  function Submit(form: FormState, isEmail: string -> bool, dispatch: Settled): (run: PageRun)
    ensures run.dispatched.Some? <==> Valid(RegisterSchema, form.values, isEmail)
    ensures run.dispatched.Some? ==>
      && "name" in form.values && "email" in form.values && "password" in form.values
      && run.dispatched.value == RegisterRequested(
           RegisterRequest(form.values["name"], form.values["email"], form.values["password"]))
    ensures run.form.during.isSubmitting && !run.form.after.isSubmitting
    ensures run.form.after.values == form.values
  {
    var parsed := Parse(RegisterSchema, form.values, isEmail);
    var formRun := UseForm.Submit(form, parsed, dispatch);
    match formRun.invokedWith
    case None => PageRun(formRun, None)
    case Some(v) =>
      assert RegisterSchema.fields[0] in RegisterSchema.fields;
      assert RegisterSchema.fields[1] in RegisterSchema.fields;
      assert RegisterSchema.fields[2] in RegisterSchema.fields;
      PageRun(formRun, Some(RegisterRequested(RegisterRequest(v["name"], v["email"], v["password"]))))
  }

  /** The schema accepts exactly a `name` of at least two UTF-16 code units, an
      email-shaped `email` and a `password` of at least eight. */
  lemma ValidIff(values: Values, isEmail: string -> bool)
    ensures Valid(RegisterSchema, values, isEmail) <==>
      && "name" in values && "email" in values && "password" in values
      && Utf16Len(values["name"]) >= 2 && isEmail(values["email"]) && Utf16Len(values["password"]) >= 8
  {
    assert RegisterSchema.fields[0] in RegisterSchema.fields;
    assert RegisterSchema.fields[1] in RegisterSchema.fields;
    assert RegisterSchema.fields[2] in RegisterSchema.fields;
  }

  /** Whatever order a failed validation lists its issues in, errors land only on the
      form's three fields. */
  lemma ErrorFields(values: Values, isEmail: string -> bool, issues: seq<Issue>)
    requires Reports(RegisterSchema, values, isEmail, issues)
    ensures forall k :: k in ErrorsOf(issues) ==> k == "name" || k == "email" || k == "password"
  {
    ReportedErrorKeys(RegisterSchema, values, isEmail, issues);
    forall k | k in ErrorsOf(issues) ensures k == "name" || k == "email" || k == "password" {
      var f :| f in RegisterSchema.fields && f.name == k;
      assert f == RegisterSchema.fields[0] || f == RegisterSchema.fields[1] || f == RegisterSchema.fields[2];
    }
  }

  /** `name` carries the length message exactly when it is too short. */
  lemma NameError(values: Values, isEmail: string -> bool, issues: seq<Issue>)
    requires "name" in values
    requires Reports(RegisterSchema, values, isEmail, issues)
    ensures "name" in ErrorsOf(issues) <==> Utf16Len(values["name"]) < 2
    ensures "name" in ErrorsOf(issues) ==> ErrorsOf(issues)["name"] == ShortName
  {
    SoleFieldError(RegisterSchema, values, isEmail, issues, RegisterSchema.fields[0]);
  }

  /** `email` carries the email message exactly when it is not email-shaped. */
  lemma EmailError(values: Values, isEmail: string -> bool, issues: seq<Issue>)
    requires "email" in values
    requires Reports(RegisterSchema, values, isEmail, issues)
    ensures "email" in ErrorsOf(issues) <==> !isEmail(values["email"])
    ensures "email" in ErrorsOf(issues) ==> ErrorsOf(issues)["email"] == InvalidEmail
  {
    SoleFieldError(RegisterSchema, values, isEmail, issues, RegisterSchema.fields[1]);
  }

  /** `password` carries the length message exactly when it is too short. */
  lemma PasswordError(values: Values, isEmail: string -> bool, issues: seq<Issue>)
    requires "password" in values
    requires Reports(RegisterSchema, values, isEmail, issues)
    ensures "password" in ErrorsOf(issues) <==> Utf16Len(values["password"]) < 8
    ensures "password" in ErrorsOf(issues) ==> ErrorsOf(issues)["password"] == ShortPassword
  {
    SoleFieldError(RegisterSchema, values, isEmail, issues, RegisterSchema.fields[2]);
  }

  /** A rejected submit of the filled-in form dispatches nothing and files each
      message under its own field. */
  lemma RejectedSubmitErrors(form: FormState, isEmail: string -> bool, dispatch: Settled)
    requires "name" in form.values && "email" in form.values && "password" in form.values
    requires !Valid(RegisterSchema, form.values, isEmail)
    ensures var run := Submit(form, isEmail, dispatch);
      var errors := run.form.after.errors;
      && run.dispatched.None?
      && (forall k :: k in errors ==> k == "name" || k == "email" || k == "password")
      && ("name" in errors <==> Utf16Len(form.values["name"]) < 2)
      && ("name" in errors ==> errors["name"] == ShortName)
      && ("email" in errors <==> !isEmail(form.values["email"]))
      && ("email" in errors ==> errors["email"] == InvalidEmail)
      && ("password" in errors <==> Utf16Len(form.values["password"]) < 8)
      && ("password" in errors ==> errors["password"] == ShortPassword)
  {
    var parsed := Parse(RegisterSchema, form.values, isEmail);
    assert Submit(form, isEmail, dispatch).form.after.errors == ErrorsOf(parsed.error);
    ErrorFields(form.values, isEmail, parsed.error);
    NameError(form.values, isEmail, parsed.error);
    EmailError(form.values, isEmail, parsed.error);
    PasswordError(form.values, isEmail, parsed.error);
  }

  /** Redirect to the dashboard once authenticated. */
  function OnAuthChange(isAuthenticated: bool): (nav: Option<Nav>)
    ensures nav.Some? <==> isAuthenticated
    ensures nav.Some? ==> nav.value == Nav("/dashboard", false)
  {
    RedirectIfAuthenticated(isAuthenticated)
  }

  /** Leaving the page asks the session store to clear its error. */
  function OnUnmount(): (actions: seq<SessionAction>)
    ensures actions == [ClearErrorRequested]
  {
    ClearErrorOnUnmount
  }

  /** The banner shows the session error; the button is busy while the session is
      loading or the form is submitting. */
  function ViewOf(form: FormState, session: AuthState): (v: View)
    ensures v.busy <==> session.isLoading || form.isSubmitting
    ensures v.content == FormPanel
    ensures v.banner == Banner(session.error)
  {
    SessionView(session, form.isSubmitting, false)
  }
}
