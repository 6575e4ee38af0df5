/** The schema language of the four auth pages' zod object schemas, as a closed set of
    constraints, and `schema.parse` over a form's string values. */
module Validation {
  import opened Wrappers

  /** A form's field values, by field name. */
  type Values = map<string, string>

  /** One reported violation: zod's issue path and its message. */
  datatype Issue = Issue(path: seq<string>, message: string)

  /** The constraint on one string field. `AnyString` is a bare `z.string()`. */
  datatype Rule = AnyString | MinLen(n: nat, msg: string) | EmailShape(msg: string)

  datatype Field = Field(name: string, rule: Rule)

  /** An object-level `.refine(data => data[a] === data[b], { message, path: [attachTo] })`. */
  datatype Refinement = EqualFields(a: string, b: string, attachTo: string, msg: string)

  datatype Schema = Schema(fields: seq<Field>, refinements: seq<Refinement>)

  /** zod's message for a key that is absent from the parsed object. */
  const RequiredMessage := "Required"

  /** The length JavaScript reports for a string: UTF-16 code units, so a character
      outside the Basic Multilingual Plane counts twice. */
  function Utf16Len(s: string): (n: nat)
    ensures n == |s| + |Astral(s)|
    ensures |s| <= n <= 2 * |s|
  {
    if s == [] then 0
    else
      var m := |s| - 1;
      var prev := Utf16Len(s[..m]);
      assert Astral(s) == Astral(s[..m]) + (if s[m] as int >= 0x1_0000 then {m} else {});
      assert m !in Astral(s[..m]);
      prev + (if s[m] as int >= 0x1_0000 then 2 else 1)
  }

  /** The positions of `s` holding a character outside the Basic Multilingual Plane,
      each of which JavaScript stores as a surrogate pair. */
  ghost function Astral(s: string): set<nat>
  {
    set i: nat | i < |s| && s[i] as int >= 0x1_0000
  }

  /** JavaScript lengths add up under concatenation. */
  lemma {:induction false} Utf16LenAppend(a: string, b: string)
    ensures Utf16Len(a + b) == Utf16Len(a) + Utf16Len(b)
  {
    if b != [] {
      var m := |b| - 1;
      assert (a + b)[..|a + b| - 1] == a + b[..m];
      assert (a + b)[|a + b| - 1] == b[m];
      Utf16LenAppend(a, b[..m]);
    } else {
      assert a + b == a;
    }
  }

  /** One character is one code unit, or two when it lies outside the Basic
      Multilingual Plane. */
  lemma Utf16LenOfChar(c: char)
    ensures Utf16Len([c]) == if c as int >= 0x1_0000 then 2 else 1
  {
    assert [c][..0] == [];
  }

  /** On text without astral characters the JavaScript length is the character count. */
  lemma {:induction false} Utf16LenOfBmp(s: string)
    requires forall i :: 0 <= i < |s| ==> s[i] as int < 0x1_0000
    ensures Utf16Len(s) == |s|
  {
    if s != [] {
      Utf16LenOfBmp(s[..|s| - 1]);
    }
  }

  /** The message a rule reports for value `v`, or `None` when `v` satisfies it.
      Whether a string has the shape of an email address is `isEmail`, an
      uninterpreted predicate standing for zod's pattern. */
  function RuleMessage(rule: Rule, v: string, isEmail: string -> bool): (m: Option<string>)
    ensures rule.AnyString? ==> m.None?
    ensures rule.MinLen? ==> (m.Some? <==> Utf16Len(v) < rule.n)
    ensures rule.EmailShape? ==> (m.Some? <==> !isEmail(v))
    ensures m.Some? ==> m.value == rule.msg
  {
    match rule
    case AnyString => None
    case MinLen(n, msg) => if Utf16Len(v) < n then Some(msg) else None
    case EmailShape(msg) => if isEmail(v) then None else Some(msg)
  }

  /** The message field `f` reports for `values`: a missing key is a type error,
      otherwise the field's rule decides. */
  function FieldMessage(f: Field, values: Values, isEmail: string -> bool): (m: Option<string>)
    ensures m.None? <==> f.name in values && RuleMessage(f.rule, values[f.name], isEmail).None?
    ensures f.name !in values ==> m == Some(RequiredMessage)
    ensures f.name in values && m.Some? ==> !f.rule.AnyString? && m.value == f.rule.msg
  {
    if f.name !in values then Some(RequiredMessage)
    else RuleMessage(f.rule, values[f.name], isEmail)
  }

  function Names(schema: Schema): set<string>
  {
    set f | f in schema.fields :: f.name
  }

  predicate AllPresent(schema: Schema, values: Values)
  {
    forall f :: f in schema.fields ==> f.name in values
  }

  /** The object zod hands back: the schema's keys only, unknown keys stripped. */
  function Output(schema: Schema, values: Values): (out: Values)
    ensures out.Keys == values.Keys * Names(schema)
    ensures forall k :: k in out ==> out[k] == values[k]
  {
    map k | k in values.Keys && k in Names(schema) :: values[k]
  }

  function Lookup(values: Values, k: string): Option<string>
  {
    if k in values then Some(values[k]) else None
  }

  /** A refinement fails when its two fields differ (`===` on the parsed object, where
      an absent key reads as `undefined`). */
  predicate RefinementFails(r: Refinement, out: Values)
  {
    Lookup(out, r.a) != Lookup(out, r.b)
  }

  /** The issues of the per-field checks, in field order. */
  function FieldIssues(fields: seq<Field>, values: Values, isEmail: string -> bool): (issues: seq<Issue>)
    ensures forall i :: i in issues ==>
      |i.path| == 1 && exists f :: f in fields && f.name == i.path[0] && FieldMessage(f, values, isEmail) == Some(i.message)
    ensures forall f :: f in fields && FieldMessage(f, values, isEmail).Some? ==>
      Issue([f.name], FieldMessage(f, values, isEmail).value) in issues
    ensures issues == [] <==> forall f :: f in fields ==> FieldMessage(f, values, isEmail).None?
    ensures |issues| <= |fields|
  {
    if fields == [] then []
    else
      var rest := FieldIssues(fields[1..], values, isEmail);
      match FieldMessage(fields[0], values, isEmail)
      case Some(m) => [Issue([fields[0].name], m)] + rest
      case None => rest
  }

  /** The issues of the object-level refinements, in declaration order. */
  function RefinementIssues(refinements: seq<Refinement>, out: Values): (issues: seq<Issue>)
    ensures forall i :: i in issues ==>
      |i.path| == 1 && exists r :: r in refinements && r.attachTo == i.path[0] && RefinementFails(r, out) && r.msg == i.message
    ensures forall r :: r in refinements && RefinementFails(r, out) ==> Issue([r.attachTo], r.msg) in issues
    ensures issues == [] <==> forall r :: r in refinements ==> !RefinementFails(r, out)
    ensures |issues| <= |refinements|
  {
    if refinements == [] then []
    else
      var rest := RefinementIssues(refinements[1..], out);
      var r := refinements[0];
      if RefinementFails(r, out) then [Issue([r.attachTo], r.msg)] + rest else rest
  }

  /** The field checks run field by field: the issues of two runs of fields are those
      of the first followed by those of the second. */
  lemma {:induction false} FieldIssuesAppend(a: seq<Field>, b: seq<Field>, values: Values, isEmail: string -> bool)
    ensures FieldIssues(a + b, values, isEmail) == FieldIssues(a, values, isEmail) + FieldIssues(b, values, isEmail)
  {
    if a == [] {
      assert a + b == b;
    } else {
      assert (a + b)[0] == a[0];
      assert (a + b)[1..] == a[1..] + b;
      FieldIssuesAppend(a[1..], b, values, isEmail);
    }
  }

  /** A single field reports one issue, under its own name, exactly when it fails. */
  lemma FieldIssuesOne(f: Field, values: Values, isEmail: string -> bool)
    ensures FieldIssues([f], values, isEmail) ==
      if FieldMessage(f, values, isEmail).Some? then [Issue([f.name], FieldMessage(f, values, isEmail).value)] else []
  {
    assert [f][1..] == [];
  }

  /** The refinements run in declaration order: the issues of two runs of refinements
      are those of the first followed by those of the second. */
  lemma {:induction false} RefinementIssuesAppend(a: seq<Refinement>, b: seq<Refinement>, out: Values)
    ensures RefinementIssues(a + b, out) == RefinementIssues(a, out) + RefinementIssues(b, out)
  {
    if a == [] {
      assert a + b == b;
    } else {
      assert (a + b)[0] == a[0];
      assert (a + b)[1..] == a[1..] + b;
      RefinementIssuesAppend(a[1..], b, out);
    }
  }

  /** A single refinement reports one issue, under its target, exactly when it fails. */
  lemma RefinementIssuesOne(r: Refinement, out: Values)
    ensures RefinementIssues([r], out) == if RefinementFails(r, out) then [Issue([r.attachTo], r.msg)] else []
  {
    assert [r][1..] == [];
  }

  /** Every issue `schema.parse` reports. The per-field string checks do not abort
      parsing, so the refinements still run after one of them fails; a missing key
      does abort, and then no refinement runs. */
  function Issues(schema: Schema, values: Values, isEmail: string -> bool): (issues: seq<Issue>)
    ensures forall f :: f in schema.fields && f.name !in values ==> Issue([f.name], RequiredMessage) in issues
    ensures !AllPresent(schema, values) ==> forall i :: i in issues ==>
      exists f :: f in schema.fields && [f.name] == i.path && FieldMessage(f, values, isEmail) == Some(i.message)
    ensures AllPresent(schema, values) ==> forall r :: r in schema.refinements && RefinementFails(r, Output(schema, values)) ==>
      Issue([r.attachTo], r.msg) in issues
    ensures |issues| <= |schema.fields| + |schema.refinements|
  {
    FieldIssues(schema.fields, values, isEmail)
    + (if AllPresent(schema, values) then RefinementIssues(schema.refinements, Output(schema, values)) else [])
  }

  /** The declarative meaning of a schema: every field present and satisfying its
      rule, and every refinement holding on the parsed object. */
  predicate Valid(schema: Schema, values: Values, isEmail: string -> bool)
  {
    && (forall f :: f in schema.fields ==> f.name in values && RuleMessage(f.rule, values[f.name], isEmail).None?)
    && (forall r :: r in schema.refinements ==> !RefinementFails(r, Output(schema, values)))
  }

  /** Field `k` is to blame: a field of that name fails, or (when no key is missing) a
      refinement attached to `k` fails. */
  predicate Blamed(schema: Schema, values: Values, isEmail: string -> bool, k: string)
  {
    || (exists f :: f in schema.fields && f.name == k && FieldMessage(f, values, isEmail).Some?)
    || (AllPresent(schema, values) &&
        exists r :: r in schema.refinements && r.attachTo == k && RefinementFails(r, Output(schema, values)))
  }

  /** Message `m` on field `k` is one that a failing constraint of the schema reports. */
  predicate Justified(schema: Schema, values: Values, isEmail: string -> bool, k: string, m: string)
  {
    || (exists f :: f in schema.fields && f.name == k && FieldMessage(f, values, isEmail) == Some(m))
    || (AllPresent(schema, values) &&
        exists r :: r in schema.refinements && r.attachTo == k && RefinementFails(r, Output(schema, values)) && r.msg == m)
  }

  /** `issues` is a faithful report for `values`, in whatever order it lists them:
      each issue names one field and a message a failing constraint of that field
      reports, and every blamed field has an issue. */
  ghost predicate Reports(schema: Schema, values: Values, isEmail: string -> bool, issues: seq<Issue>)
  {
    && (forall i :: i in issues ==> |i.path| == 1 && Justified(schema, values, isEmail, i.path[0], i.message))
    && (forall k :: Blamed(schema, values, isEmail, k) ==> exists i :: i in issues && i.path == [k])
  }

  /** `schema.parse(values)`: the stripped object when no issue is found, otherwise
      the issues (a thrown `ZodError`). */
  function Parse(schema: Schema, values: Values, isEmail: string -> bool): (r: Result<Values, seq<Issue>>)
    ensures r.Success? <==> Valid(schema, values, isEmail)
    ensures r.Success? ==> r.value.Keys == Names(schema) && forall k :: k in r.value ==> r.value[k] == values[k]
    ensures r.Failure? ==> r.error != [] && Reports(schema, values, isEmail, r.error)
  {
    var issues := Issues(schema, values, isEmail);
    IssuesAreAReport(schema, values, isEmail);
    IssuesEmptyIffValid(schema, values, isEmail);
    if issues == [] then Success(Output(schema, values)) else Failure(issues)
  }

  lemma IssuesAreAReport(schema: Schema, values: Values, isEmail: string -> bool)
    ensures Reports(schema, values, isEmail, Issues(schema, values, isEmail))
  {
    var fi := FieldIssues(schema.fields, values, isEmail);
    var issues := Issues(schema, values, isEmail);
    forall k | Blamed(schema, values, isEmail, k)
      ensures exists i :: i in issues && i.path == [k]
    {
      if f :| f in schema.fields && f.name == k && FieldMessage(f, values, isEmail).Some? {
        assert Issue([k], FieldMessage(f, values, isEmail).value) in issues;
      } else {
        var out := Output(schema, values);
        var r :| r in schema.refinements && r.attachTo == k && RefinementFails(r, out);
        assert Issue([k], r.msg) in RefinementIssues(schema.refinements, out);
        assert Issue([k], r.msg) in issues;
      }
    }
  }

  lemma IssuesEmptyIffValid(schema: Schema, values: Values, isEmail: string -> bool)
    ensures Issues(schema, values, isEmail) == [] <==> Valid(schema, values, isEmail)
  {
    var fi := FieldIssues(schema.fields, values, isEmail);
    var out := Output(schema, values);
    if Valid(schema, values, isEmail) {
      assert AllPresent(schema, values);
      forall f | f in schema.fields ensures FieldMessage(f, values, isEmail).None? { }
    }
  }

  /** For a field no other field shares its name with and no refinement points at,
      blame and messages come from that field's own rule alone. */
  lemma SoleConstraint(schema: Schema, values: Values, isEmail: string -> bool, f: Field)
    requires f in schema.fields
    requires forall g :: g in schema.fields && g.name == f.name ==> g == f
    requires forall r :: r in schema.refinements ==> r.attachTo != f.name
    ensures Blamed(schema, values, isEmail, f.name) <==> FieldMessage(f, values, isEmail).Some?
    ensures forall m :: Justified(schema, values, isEmail, f.name, m) <==> FieldMessage(f, values, isEmail) == Some(m)
  {
  }

  /** For a field no other field shares its name with and exactly one refinement
      points at, when every key is present: the field is blamed when its rule or that
      refinement fails, and its message comes from one of the two. */
  lemma FieldWithRefinement(schema: Schema, values: Values, isEmail: string -> bool, f: Field, r: Refinement)
    requires f in schema.fields && r in schema.refinements && r.attachTo == f.name
    requires forall g :: g in schema.fields && g.name == f.name ==> g == f
    requires forall q :: q in schema.refinements && q.attachTo == f.name ==> q == r
    requires AllPresent(schema, values)
    ensures Blamed(schema, values, isEmail, f.name) <==>
      FieldMessage(f, values, isEmail).Some? || RefinementFails(r, Output(schema, values))
    ensures forall m :: Justified(schema, values, isEmail, f.name, m) <==>
      FieldMessage(f, values, isEmail) == Some(m) || (RefinementFails(r, Output(schema, values)) && r.msg == m)
  {
  }
}
