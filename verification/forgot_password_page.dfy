/** The forgot-password page (src/pages/auth/ForgotPasswordPage.tsx): its schema, the
    local `isSubmitted` flag and the choice between form and success panel. */
module ForgotPasswordPage {
  import opened Wrappers
  import opened AuthTypes
  import opened Validation
  import opened UseForm
  import opened Pages

  const InvalidEmail := "Please enter a valid email address"

  const ForgotPasswordSchema := Schema([Field("email", EmailShape(InvalidEmail))], [])

  const InitialValues: Values := map["email" := ""]

  /** The page's state: the form hook's and its own `isSubmitted` flag. */
  datatype Page = Page(form: FormState, isSubmitted: bool)

  /** A freshly mounted page: empty email, nothing submitted. */
  function Mount(): (p: Page)
    ensures !p.isSubmitted && !p.form.isSubmitting && p.form.errors == map[]
    ensures p.form.values == InitialValues
  {
    Page(Init(InitialValues), false)
  }

  /** The page's `onSubmit` after the `forgotPassword` action has been dispatched:
      `dispatch` is what awaiting it settled to. Only a dispatch that returns sets
      `isSubmitted`; one that throws leaves it and the exception reaches the form
      hook. */
  datatype CallbackRun = CallbackRun(isSubmitted: bool, settled: Settled)

  function OnSubmit(isSubmitted: bool, dispatch: Settled): (r: CallbackRun)
    ensures r.isSubmitted <==> isSubmitted || dispatch.Resolved?
    ensures r.settled == dispatch
  {
    match dispatch
    case Resolved => CallbackRun(true, Resolved)
    case Rejected(t) => CallbackRun(isSubmitted, Rejected(t))
  }

  /** A submit of the page: the form hook's run, the page afterwards, and the session
      action dispatched when validation passed. */
  datatype PageRun = PageRun(form: SubmitRun, after: Page, dispatched: Option<SessionAction>)

  function Submit(p: Page, isEmail: string -> bool, dispatch: Settled): (run: PageRun)
    ensures run.dispatched.Some? <==> Valid(ForgotPasswordSchema, p.form.values, isEmail)
    ensures run.dispatched.Some? ==>
      "email" in p.form.values && run.dispatched.value == ForgotPasswordRequested(ForgotPasswordRequest(p.form.values["email"]))
    ensures run.after.isSubmitted <==>
      p.isSubmitted || (Valid(ForgotPasswordSchema, p.form.values, isEmail) && dispatch.Resolved?)
    ensures run.after.form == run.form.after && !run.after.form.isSubmitting
  {
    var parsed := Parse(ForgotPasswordSchema, p.form.values, isEmail);
    match parsed
    case Failure(_) =>
      var formRun := UseForm.Submit(p.form, parsed, dispatch);
      PageRun(formRun, Page(formRun.after, p.isSubmitted), None)
    case Success(v) =>
      assert "email" in Names(ForgotPasswordSchema);
      var cb := OnSubmit(p.isSubmitted, dispatch);
      var formRun := UseForm.Submit(p.form, parsed, cb.settled);
      PageRun(formRun, Page(formRun.after, cb.isSubmitted),
              Some(ForgotPasswordRequested(ForgotPasswordRequest(v["email"]))))
  }

  /** The schema asks for nothing but an email-shaped `email`. */
  lemma ValidIff(values: Values, isEmail: string -> bool)
    ensures Valid(ForgotPasswordSchema, values, isEmail) <==> "email" in values && isEmail(values["email"])
  {
    assert ForgotPasswordSchema.fields[0] in ForgotPasswordSchema.fields;
  }

  /** A rejected submit files the email message under `email` and nowhere else. */
  lemma RejectedSubmitErrors(p: Page, isEmail: string -> bool, dispatch: Settled)
    requires "email" in p.form.values && !isEmail(p.form.values["email"])
    ensures var run := Submit(p, isEmail, dispatch);
      && run.dispatched.None?
      && run.after.isSubmitted == p.isSubmitted
      && run.after.form.errors == map["email" := InvalidEmail]
  {
    ValidIff(p.form.values, isEmail);
    var parsed := Parse(ForgotPasswordSchema, p.form.values, isEmail);
    var errors := ErrorsOf(parsed.error);
    assert Submit(p, isEmail, dispatch).after.form.errors == errors;
    SoleFieldError(ForgotPasswordSchema, p.form.values, isEmail, parsed.error, ForgotPasswordSchema.fields[0]);
    ReportedErrorKeys(ForgotPasswordSchema, p.form.values, isEmail, parsed.error);
    forall k | k in errors ensures k == "email" {
      var f :| f in ForgotPasswordSchema.fields && f.name == k;
    }
    assert errors == map["email" := InvalidEmail];
  }

  /** Leaving the page asks the session store to clear its error. */
  function OnUnmount(): (actions: seq<SessionAction>)
    ensures actions == [ClearErrorRequested]
  {
    ClearErrorOnUnmount
  }

  /** The success panel replaces the form exactly when `isSubmitted`; the banner shows
      the session error and the button is busy while the session is loading or the
      form is submitting. */
  function ViewOf(p: Page, session: AuthState): (v: View)
    ensures v.content == SuccessPanel <==> p.isSubmitted
    ensures v.busy <==> session.isLoading || p.form.isSubmitting
    ensures v.banner == Banner(session.error)
  {
    SessionView(session, p.form.isSubmitting, p.isSubmitted)
  }

  /** Once the success panel is shown, no later submit brings the form back. */
  lemma SuccessPanelStays(p: Page, isEmail: string -> bool, dispatch: Settled, session: AuthState)
    requires ViewOf(p, session).content == SuccessPanel
    ensures ViewOf(Submit(p, isEmail, dispatch).after, session).content == SuccessPanel
  {
  }
}
