/** The form controller hook (src/hooks/useForm.ts) as a pure state machine over its
    three pieces of state. */
module UseForm {
  import opened Wrappers
  import opened Validation

  /** Field errors, by field name. */
  type Errors = map<string, string>

  datatype FormState = FormState(values: Values, errors: Errors, isSubmitting: bool)

  /** A field edit from an input's change event: the input's `name` and new `value`. */
  datatype Edit = Edit(name: string, value: string)

  /** What the awaited `onSubmit` callback settled to. The hook's `catch` only tells a
      `ZodError` (with its issues) from anything else that was thrown. */
  datatype Thrown = ZodError(issues: seq<Issue>) | OtherError
  datatype Settled = Resolved | Rejected(thrown: Thrown)

  /** One run of the submit handler: the state while the callback is awaited, the
      values the callback was invoked with (if it was), and the state at the end. */
  datatype SubmitRun = SubmitRun(during: FormState, invokedWith: Option<Values>, after: FormState)

  /** The state of a freshly mounted form. */
  function Init(initialValues: Values): (s: FormState)
    ensures s.values == initialValues && s.errors == map[] && !s.isSubmitting
  {
    FormState(initialValues, map[], false)
  }

  /** `errors[name]` is truthy: present and not the empty string. */
  predicate HasError(errors: Errors, name: string)
  {
    name in errors && errors[name] != ""
  }

  /** `handleChange`: store the new value; when the field shows an error, drop that
      error without validating again. */
  function Change(s: FormState, e: Edit): (r: FormState)
    ensures r.values.Keys == s.values.Keys + {e.name} && r.values[e.name] == e.value
    ensures forall f :: f in s.values && f != e.name ==> r.values[f] == s.values[f]
    ensures HasError(s.errors, e.name) ==> e.name !in r.errors && r.errors.Keys == s.errors.Keys - {e.name}
    ensures !HasError(s.errors, e.name) ==> r.errors == s.errors
    ensures forall f :: f in r.errors ==> f in s.errors && r.errors[f] == s.errors[f]
    ensures r.isSubmitting == s.isSubmitting
  {
    var errors := if HasError(s.errors, e.name) then s.errors - {e.name} else s.errors;
    FormState(s.values[e.name := e.value], errors, s.isSubmitting)
  }

  /** The field an issue is filed under: the first segment of its path. An empty
      path reads `path[0]` as `undefined`, which becomes the key "undefined". */
  function ErrorKey(i: Issue): string
  {
    if |i.path| > 0 then i.path[0] else "undefined"
  }

  /** Message `m` is the message of the last issue filed under key `k`. */
  ghost predicate LastFor(issues: seq<Issue>, k: string, m: string)
  {
    exists i :: 0 <= i < |issues| && ErrorKey(issues[i]) == k && issues[i].message == m
      && forall j :: i < j < |issues| ==> ErrorKey(issues[j]) != k
  }

  /** The `reduce` that turns a `ZodError`'s issues into field errors, starting from
      `{}` and writing each issue's message under its key in turn. Later issues for
      the same field overwrite earlier ones. */
  function ErrorsOf(issues: seq<Issue>): (errors: Errors)
    ensures forall k :: k in errors <==> exists i :: 0 <= i < |issues| && ErrorKey(issues[i]) == k
    ensures forall k :: k in errors ==> LastFor(issues, k, errors[k])
  {
    if issues == [] then map[]
    else
      var n := |issues| - 1;
      var prev := ErrorsOf(issues[..n]);
      LastForExtends(issues, n, prev);
      prev[ErrorKey(issues[n]) := issues[n].message]
  }

  /** Errors with a single key are the one-entry map. */
  lemma OnlyError(errors: Errors, k: string, m: string)
    requires k in errors && errors[k] == m
    requires forall j :: j in errors ==> j == k
    ensures errors == map[k := m]
  {
  }

  /** A key other than the last issue's keeps its last message when the last issue is added. */
  lemma LastForExtends(issues: seq<Issue>, n: nat, prev: Errors)
    requires n == |issues| - 1
    requires forall k :: k in prev ==> LastFor(issues[..n], k, prev[k])
    ensures forall k :: k in prev && k != ErrorKey(issues[n]) ==> LastFor(issues, k, prev[k])
  {
    forall k | k in prev && k != ErrorKey(issues[n])
      ensures LastFor(issues, k, prev[k])
    {
      var i :| 0 <= i < n && ErrorKey(issues[..n][i]) == k && issues[..n][i].message == prev[k]
        && forall j :: i < j < n ==> ErrorKey(issues[..n][j]) != k;
      assert ErrorKey(issues[i]) == k;
    }
  }

  /** `handleSubmit`. `parsed` is what `schema.parse(values)` returned or threw and
      `callback` what the awaited `onSubmit` settled to, which matters only when the
      callback was invoked. There is no guard against a submit while one is already
      in progress, and `isSubmitting` is raised before validation runs. */
  function Submit(s: FormState, parsed: Result<Values, seq<Issue>>, callback: Settled): (run: SubmitRun)
    ensures run.during == s.(isSubmitting := true)
    ensures run.after.values == s.values && !run.after.isSubmitting
    ensures run.invokedWith.Some? <==> parsed.Success?
    ensures parsed.Success? ==> run.invokedWith.value == parsed.value
    ensures parsed.Failure? ==> run.after.errors == ErrorsOf(parsed.error)
    ensures parsed.Success? && callback.Resolved? ==> run.after.errors == map[]
    ensures parsed.Success? && callback == Rejected(OtherError) ==> run.after.errors == s.errors
    ensures parsed.Success? && callback.Rejected? && callback.thrown.ZodError? ==>
      run.after.errors == ErrorsOf(callback.thrown.issues)
  {
    var during := s.(isSubmitting := true);
    match parsed
    case Failure(issues) =>
      SubmitRun(during, None, during.(errors := ErrorsOf(issues), isSubmitting := false))
    case Success(validated) =>
      var errors :=
        match callback
        case Resolved => map[]
        case Rejected(ZodError(issues)) => ErrorsOf(issues)
        case Rejected(OtherError) => s.errors;
      SubmitRun(during, Some(validated), during.(errors := errors, isSubmitting := false))
  }

  /** `resetForm`: back to the initial values with no errors; `isSubmitting` is left alone. */
  function Reset(s: FormState, initialValues: Values): (r: FormState)
    ensures r.values == initialValues && r.errors == map[]
    ensures r.isSubmitting == s.isSubmitting
  {
    s.(values := initialValues, errors := map[])
  }

  /** A sequence of change events applied in the order received. Edits only ever
      remove errors. */
  function ChangeAll(s: FormState, edits: seq<Edit>): (r: FormState)
    ensures r.isSubmitting == s.isSubmitting
    ensures forall f :: f in r.errors ==> f in s.errors && r.errors[f] == s.errors[f]
  {
    if edits == [] then s
    else Change(ChangeAll(s, edits[..|edits| - 1]), edits[|edits| - 1])
  }

  /** After a sequence of edits each edited field holds the value of its last edit
      and every other field keeps its value. */
  lemma {:induction false} ChangeAllValues(s: FormState, edits: seq<Edit>, f: string)
    ensures (exists i :: 0 <= i < |edits| && edits[i].name == f) ==> f in ChangeAll(s, edits).values
    ensures f in s.values ==> f in ChangeAll(s, edits).values
    ensures forall i :: 0 <= i < |edits| && edits[i].name == f && (forall j :: i < j < |edits| ==> edits[j].name != f) ==>
      ChangeAll(s, edits).values[f] == edits[i].value
    ensures f in s.values && (forall i :: 0 <= i < |edits| ==> edits[i].name != f) ==>
      ChangeAll(s, edits).values[f] == s.values[f]
  {
    if edits != [] {
      var n := |edits| - 1;
      ChangeAllValues(s, edits[..n], f);
      assert forall i :: 0 <= i < n ==> edits[..n][i] == edits[i];
    }
  }

  /** An edit of a field that shows an error clears it for good: later edits never
      bring it back. */
  lemma {:induction false} EditClearsError(s: FormState, edits: seq<Edit>, i: nat)
    requires i < |edits|
    requires HasError(ChangeAll(s, edits[..i]).errors, edits[i].name)
    ensures edits[i].name !in ChangeAll(s, edits).errors
  {
    if i < |edits| - 1 {
      var n := |edits| - 1;
      assert edits[..n][..i] == edits[..i];
      EditClearsError(s, edits[..n], i);
    } else {
      assert edits[..|edits| - 1] == edits[..i];
    }
  }

  /** Only submit runs fill `errors`: no sequence of edits adds or rewrites an error. */
  lemma {:induction false} EditsNeverAddErrors(s: FormState, edits: seq<Edit>)
    requires s.errors == map[]
    ensures ChangeAll(s, edits).errors == map[]
  {
    if edits != [] {
      EditsNeverAddErrors(s, edits[..|edits| - 1]);
    }
  }

  /** Submitting while a submit is already in progress behaves exactly as submitting
      from an idle form: the hook has no double-submit guard. */
  lemma NoDoubleSubmitGuard(s: FormState, parsed: Result<Values, seq<Issue>>, callback: Settled)
    requires s.isSubmitting
    ensures Submit(s, parsed, callback) == Submit(s.(isSubmitting := false), parsed, callback)
    ensures Submit(s, parsed, callback).invokedWith.Some? <==> parsed.Success?
  {
  }

  /** When validation fails the callback is never invoked, so how it would have
      settled makes no difference. */
  lemma FailedValidationIgnoresCallback(s: FormState, issues: seq<Issue>, c1: Settled, c2: Settled)
    ensures Submit(s, Failure(issues), c1) == Submit(s, Failure(issues), c2)
    ensures Submit(s, Failure(issues), c1).invokedWith.None?
  {
  }

  /** After a failed validation each field's error is the message of the last issue
      filed under it, and exactly the fields some issue names carry an error. */
  lemma FailedValidationErrors(s: FormState, issues: seq<Issue>, callback: Settled, k: string)
    ensures var errors := Submit(s, Failure(issues), callback).after.errors;
      && (k in errors <==> exists i :: 0 <= i < |issues| && ErrorKey(issues[i]) == k)
      && (k in errors ==> LastFor(issues, k, errors[k]))
  {
  }

  /** A reset forgets every edit made since the last one. */
  lemma {:induction false} ResetForgetsEdits(s: FormState, edits: seq<Edit>, initialValues: Values)
    ensures Reset(ChangeAll(s, edits), initialValues) == Reset(s, initialValues)
  {
  }

  /** Whatever order a schema's issues come in, the errors a failed validation leaves
      are filed under exactly the blamed fields, each with a message that one of that
      field's failing constraints reports. */
  lemma ReportedErrors(schema: Schema, values: Values, isEmail: string -> bool, issues: seq<Issue>, k: string)
    requires Reports(schema, values, isEmail, issues)
    ensures k in ErrorsOf(issues) <==> Blamed(schema, values, isEmail, k)
    ensures k in ErrorsOf(issues) ==> Justified(schema, values, isEmail, k, ErrorsOf(issues)[k])
  {
    var errors := ErrorsOf(issues);
    if k in errors {
      var i :| 0 <= i < |issues| && ErrorKey(issues[i]) == k && issues[i].message == errors[k]
        && forall j :: i < j < |issues| ==> ErrorKey(issues[j]) != k;
      assert issues[i] in issues;
    }
    if Blamed(schema, values, isEmail, k) {
      var x :| x in issues && x.path == [k];
      var i :| 0 <= i < |issues| && issues[i] == x;
      assert ErrorKey(issues[i]) == k;
    }
  }

  /** Only fields and refinement targets of the schema ever carry an error. */
  lemma ReportedErrorKeys(schema: Schema, values: Values, isEmail: string -> bool, issues: seq<Issue>)
    requires Reports(schema, values, isEmail, issues)
    ensures forall k :: k in ErrorsOf(issues) ==>
      (exists f :: f in schema.fields && f.name == k) || (exists r :: r in schema.refinements && r.attachTo == k)
  {
    forall k | k in ErrorsOf(issues)
      ensures (exists f :: f in schema.fields && f.name == k) || (exists r :: r in schema.refinements && r.attachTo == k)
    {
      ReportedErrors(schema, values, isEmail, issues, k);
    }
  }

  /** A field that is the only constraint on its key carries, after a failed
      validation, exactly the message its own rule reports. */
  lemma SoleFieldError(schema: Schema, values: Values, isEmail: string -> bool, issues: seq<Issue>, f: Field)
    requires Reports(schema, values, isEmail, issues)
    requires f in schema.fields
    requires forall g :: g in schema.fields && g.name == f.name ==> g == f
    requires forall r :: r in schema.refinements ==> r.attachTo != f.name
    ensures f.name in ErrorsOf(issues) <==> FieldMessage(f, values, isEmail).Some?
    ensures f.name in ErrorsOf(issues) ==> ErrorsOf(issues)[f.name] == FieldMessage(f, values, isEmail).value
  {
    ReportedErrors(schema, values, isEmail, issues, f.name);
    SoleConstraint(schema, values, isEmail, f);
  }
}
