/**
 * The form of the conversation view: the five required fields with their
 * length bounds, the error map built on submission, the conversation
 * title and first message, the update of one field, and the completion
 * percentage that enables the submit button. The form's contents are a
 * string-to-string record; a missing key reads as "".
 */
module ConversationView {
  import opened Common

  const RequiredFields: seq<string> := ["Goal", "Audience", "Inputs", "Output_Format", "Constraints"]

  /** A field's inclusive length bounds and the message of each failure. */
  datatype Bounds = Bounds(min: nat, max: nat, tooShort: string, tooLong: string)

  /** The bounds of fieldValidation, for the five required fields. */
  function BoundsOf(field: string): Option<Bounds> {
    if field == "Goal" then
      Some(Bounds(10, 500, "Goal must be at least 10 characters", "Goal must be less than 500 characters"))
    else if field == "Audience" then
      Some(Bounds(3, 200, "Audience must be at least 3 characters", "Audience must be less than 200 characters"))
    else if field == "Inputs" then
      Some(Bounds(5, 2000, "Inputs must be at least 5 characters", "Inputs must be less than 2000 characters"))
    else if field == "Output_Format" then
      Some(Bounds(2, 50, "Output format required", "Format must be less than 50 characters"))
    else if field == "Constraints" then
      Some(Bounds(5, 2000, "Constraints must be at least 5 characters", "Constraints must be less than 2000 characters"))
    else None
  }

  lemma RequiredFieldsHaveBounds()
    ensures forall f :: f in RequiredFields <==> BoundsOf(f).Some?
  {
  }

  /** `collected[field] || ""`. */
  function FieldValue(c: map<string, string>, field: string): string {
    if field in c then c[field] else ""
  }

  /** The first issue of a string schema with `.min(...).max(...)`: the
      minimum is checked first. None when the value passes. */
  function Check(b: Bounds, value: string): (r: Option<string>)
    ensures r.None? <==> b.min <= |value| <= b.max
    ensures r.Some? ==> r.value == (if |value| < b.min then b.tooShort else b.tooLong)
  {
    if |value| < b.min then Some(b.tooShort)
    else if |value| > b.max then Some(b.tooLong)
    else None
  }

  function FieldError(c: map<string, string>, field: string): Option<string>
    requires BoundsOf(field).Some?
  {
    Check(BoundsOf(field).value, FieldValue(c, field))
  }

  /** The `errors` record after the forEach has visited `fields`. */
  function ErrorsFrom(c: map<string, string>, fields: seq<string>): map<string, string>
    requires forall f :: f in fields ==> BoundsOf(f).Some?
  {
    if fields == [] then map[]
    else
      var init := fields[..|fields| - 1];
      var f := fields[|fields| - 1];
      var before := ErrorsFrom(c, init);
      var e := FieldError(c, f);
      if e.Some? then before[f := e.value] else before
  }

  /** handleSubmitForm's validation loop over the required fields. */
  method BuildErrors(c: map<string, string>) returns (errors: map<string, string>)
    ensures errors == ErrorsFrom(c, RequiredFields)
  {
    RequiredFieldsHaveBounds();
    errors := map[];
    for k := 0 to |RequiredFields|
      invariant errors == ErrorsFrom(c, RequiredFields[..k])
    {
      var field := RequiredFields[k];
      ErrorsFromSnoc(c, RequiredFields, k);
      var value := if field in c then c[field] else "";
      var issue := Check(BoundsOf(field).value, value);
      if issue.Some? {
        errors := errors[field := issue.value];
      }
    }
    assert RequiredFields[..|RequiredFields|] == RequiredFields;
  }

  lemma ErrorsFromSnoc(c: map<string, string>, fields: seq<string>, k: nat)
    requires k < |fields| && forall f :: f in fields ==> BoundsOf(f).Some?
    ensures var before := ErrorsFrom(c, fields[..k]);
            var e := FieldError(c, fields[k]);
            ErrorsFrom(c, fields[..k + 1]) == if e.Some? then before[fields[k] := e.value] else before
  {
    assert fields[..k + 1][..k] == fields[..k];
  }

  /** The error record holds exactly the visited fields that fail, each with
      its first issue's message. */
  lemma {:induction false} ErrorsExact(c: map<string, string>, fields: seq<string>)
    requires forall f :: f in fields ==> BoundsOf(f).Some?
    ensures forall f :: f in ErrorsFrom(c, fields) <==> f in fields && FieldError(c, f).Some?
    ensures forall f :: f in ErrorsFrom(c, fields) ==> ErrorsFrom(c, fields)[f] == FieldError(c, f).value
  {
    if fields != [] {
      var init := fields[..|fields| - 1];
      assert fields == init + [fields[|fields| - 1]];
      ErrorsExact(c, init);
    }
  }

  /** A field that is absent is read as "" and so always fails: every
      minimum is at least 2. */
  lemma AbsentFieldFails(c: map<string, string>, field: string)
    requires field in RequiredFields && field !in c
    ensures field in ErrorsFrom(c, RequiredFields)
  {
    RequiredFieldsHaveBounds();
    ErrorsExact(c, RequiredFields);
  }

  /** Submission proceeds iff the error record is empty, that is iff every
      required field meets its bounds. */
  predicate MayProceed(c: map<string, string>) {
    RequiredFieldsHaveBounds();
    |ErrorsFrom(c, RequiredFields)| == 0
  }

  lemma ProceedIffAllInBounds(c: map<string, string>)
    ensures MayProceed(c) <==>
              forall f :: f in RequiredFields ==>
                BoundsOf(f).value.min <= |FieldValue(c, f)| <= BoundsOf(f).value.max
  {
    RequiredFieldsHaveBounds();
    ErrorsExact(c, RequiredFields);
    var errors := ErrorsFrom(c, RequiredFields);
    if !MayProceed(c) {
      var f :| f in errors;
    }
  }

  // ---------------------------------------------------------------------------
  // The title and the first message of a new conversation
  // ---------------------------------------------------------------------------

  const TitleLength: nat := 60

  /** `goal.substring(0, 60) + (goal.length > 60 ? '...' : '')`. */
  function Title(goal: string): (r: string)
    ensures |goal| <= TitleLength ==> r == goal
    ensures |goal| > TitleLength ==>
              |r| == TitleLength + 3 && r[..TitleLength] == goal[..TitleLength] && r[TitleLength..] == "..."
  {
    goal[..Min(|goal|, TitleLength)] + (if |goal| > TitleLength then "..." else "")
  }

  /** The first message of a new conversation. Validation has passed, so
      each field is present. */
  function InitialMessage(c: map<string, string>): string {
    ("Goal: " + FieldValue(c, "Goal")) + "\n"
    + (("Audience: " + FieldValue(c, "Audience")) + "\n"
    + (("Inputs: " + FieldValue(c, "Inputs")) + "\n"
    + (("Output Format: " + FieldValue(c, "Output_Format")) + "\n"
    + ("Constraints: " + FieldValue(c, "Constraints")))))
  }

  /** `lines.join("\n")`. */
  function JoinLines(lines: seq<string>): string
    requires |lines| > 0
  {
    if |lines| == 1 then lines[0] else lines[0] + "\n" + JoinLines(lines[1..])
  }

  /** `s.split("\n")`. */
  function SplitLines(s: string): (r: seq<string>)
    ensures |r| > 0
    decreases |s|
  {
    if s == [] then [""]
    else
      var rest := SplitLines(s[1..]);
      if s[0] == '\n' then [""] + rest else [[s[0]] + rest[0]] + rest[1..]
  }

  lemma {:induction false} SplitAfterLine(a: string, t: string)
    requires '\n' !in a
    ensures SplitLines(a + t) == [a + SplitLines(t)[0]] + SplitLines(t)[1..]
    decreases |a|
  {
    if a != [] {
      assert (a + t)[1..] == a[1..] + t;
      SplitAfterLine(a[1..], t);
      assert [a[0]] + (a[1..] + SplitLines(t)[0]) == a + SplitLines(t)[0];
    } else {
      var r := SplitLines(t);
      assert r == [r[0]] + r[1..];
      assert a + t == t && a + r[0] == r[0];
    }
  }

  /** Splitting joined lines that hold no line break gives the lines back. */
  lemma {:induction false} SplitJoin(lines: seq<string>)
    requires |lines| > 0
    requires forall k :: 0 <= k < |lines| ==> '\n' !in lines[k]
    ensures SplitLines(JoinLines(lines)) == lines
  {
    if |lines| == 1 {
      SplitAfterLine(lines[0], "");
      assert lines[0] + "" == lines[0];
    } else {
      SplitJoin(lines[1..]);
      var rest := JoinLines(lines[1..]);
      assert lines[0] + "\n" + rest == lines[0] + ("\n" + rest);
      SplitAfterLine(lines[0], "\n" + rest);
      assert ("\n" + rest)[1..] == rest;
      assert lines[0] + "" == lines[0];
      assert lines == [lines[0]] + lines[1..];
    }
  }

  function Line(c: map<string, string>, k: nat): string
    requires k < |RequiredFields|
  {
    LabelsWithColon[k] + FieldValue(c, RequiredFields[k])
  }

  const LabelsWithColon: seq<string> := ["Goal: ", "Audience: ", "Inputs: ", "Output Format: ", "Constraints: "]

  lemma InitialMessageJoins(c: map<string, string>)
    ensures InitialMessage(c)
            == JoinLines([Line(c, 0), Line(c, 1), Line(c, 2), Line(c, 3), Line(c, 4)])
  {
    var l0, l1, l2, l3, l4 := Line(c, 0), Line(c, 1), Line(c, 2), Line(c, 3), Line(c, 4);
    var ls := [l0, l1, l2, l3, l4];
    assert ls[1..] == [l1, l2, l3, l4];
    assert ls[1..][1..] == [l2, l3, l4];
    assert ls[1..][1..][1..] == [l3, l4];
    assert ls[1..][1..][1..][1..] == [l4];
    assert JoinLines([l3, l4]) == l3 + "\n" + l4;
    assert JoinLines([l2, l3, l4]) == l2 + "\n" + (l3 + "\n" + l4);
    assert JoinLines([l1, l2, l3, l4]) == l1 + "\n" + (l2 + "\n" + (l3 + "\n" + l4));
  }

  /** When no field holds a line break, the first message has one line per
      required field, in the fixed order, each `label: value`. */
  lemma InitialMessageLines(c: map<string, string>)
    requires forall f :: f in RequiredFields ==> '\n' !in FieldValue(c, f)
    ensures var lines := SplitLines(InitialMessage(c));
            |lines| == 5 && forall k :: 0 <= k < 5 ==> lines[k] == LabelsWithColon[k] + FieldValue(c, RequiredFields[k])
  {
    var ls := [Line(c, 0), Line(c, 1), Line(c, 2), Line(c, 3), Line(c, 4)];
    InitialMessageJoins(c);
    forall k | 0 <= k < 5 ensures '\n' !in ls[k] {
      assert '\n' !in LabelsWithColon[k];
      assert RequiredFields[k] in RequiredFields;
    }
    SplitJoin(ls);
  }

  // ---------------------------------------------------------------------------
  // Editing the form
  // ---------------------------------------------------------------------------

  datatype Form = Form(collected: map<string, string>, errors: map<string, string>)

  /** handleFieldUpdate: set the field and delete its error. */
  function UpdateField(form: Form, field: string, value: string): (r: Form)
    ensures r.collected.Keys == form.collected.Keys + {field}
    ensures r.errors.Keys == form.errors.Keys - {field}
  {
    Form(form.collected[field := value], form.errors - {field})
  }

  /** The update sets only the named field and removes only its error. */
  lemma UpdateChangesOnlyField(form: Form, field: string, value: string)
    ensures var r := UpdateField(form, field, value);
            && FieldValue(r.collected, field) == value
            && (forall f :: f != field ==> FieldValue(r.collected, f) == FieldValue(form.collected, f))
            && field !in r.errors
            && (forall f :: f != field && f in form.errors ==> f in r.errors && r.errors[f] == form.errors[f])
  {
  }

  /** A field set to a value within its bounds passes a later validation,
      and the outcome for every other field does not change. */
  lemma UpdateFixesField(form: Form, field: string, value: string)
    requires field in RequiredFields
    requires BoundsOf(field).value.min <= |value| <= BoundsOf(field).value.max
    ensures var after := ErrorsFrom(UpdateField(form, field, value).collected, RequiredFields);
            var before := ErrorsFrom(form.collected, RequiredFields);
            && field !in after
            && forall f :: f != field ==> (f in after <==> f in before) && (f in after ==> after[f] == before[f])
  {
    RequiredFieldsHaveBounds();
    var c := UpdateField(form, field, value).collected;
    ErrorsExact(c, RequiredFields);
    ErrorsExact(form.collected, RequiredFields);
    assert forall f :: f != field ==> FieldValue(c, f) == FieldValue(form.collected, f);
  }

  // ---------------------------------------------------------------------------
  // Completion
  // ---------------------------------------------------------------------------

  const RequiredSet: set<string> := {"Goal", "Audience", "Inputs", "Output_Format", "Constraints"}

  lemma RequiredSetIsFields()
    ensures |RequiredSet| == |RequiredFields|
    ensures forall f :: f in RequiredSet <==> f in RequiredFields
  {
    var s4 := {"Goal", "Audience", "Inputs", "Output_Format"};
    var s3 := {"Goal", "Audience", "Inputs"};
    assert |{"Goal", "Audience"}| == 2;
    assert |s3| == 3;
    assert |s4| == 4;
    assert RequiredSet == s4 + {"Constraints"};
  }

  lemma {:induction false} SubsetSize(a: set<string>, b: set<string>)
    requires a <= b
    ensures |a| <= |b|
    ensures a < b ==> |a| < |b|
    decreases b
  {
    if b != {} {
      var x :| x in b;
      if x in a {
        SubsetSize(a - {x}, b - {x});
        assert a == (a - {x}) + {x};
        assert a < b ==> a - {x} < b - {x};
      } else {
        SubsetSize(a, b - {x});
      }
    }
  }

  /** The keys the completion counts: required fields with a non-empty value. */
  function Filled(c: map<string, string>): set<string> {
    set k | k in c.Keys && k in RequiredSet && c[k] != ""
  }

  /** completionPercentage: round(filled / 5 · 100). */
  function Completion(c: map<string, string>): int {
    Round((|Filled(c)| as real / |RequiredFields| as real) * 100.0)
  }

  /** Each filled field is worth 20 points. */
  lemma CompletionSteps(c: map<string, string>)
    ensures Completion(c) == 20 * |Filled(c)|
    ensures 0 <= Completion(c) <= 100
  {
    RequiredSetIsFields();
    SubsetSize(Filled(c), RequiredSet);
    var k := |Filled(c)|;
    assert (k as real / 5.0) * 100.0 == (20 * k) as real;
    RoundOfInteger(20 * k);
  }

  /** The percentage is 100 iff all five required fields are non-empty. */
  lemma CompletionFullIffAllFilled(c: map<string, string>)
    ensures Completion(c) == 100 <==> forall f :: f in RequiredFields ==> FieldValue(c, f) != ""
  {
    CompletionSteps(c);
    RequiredSetIsFields();
    var all := RequiredSet;
    SubsetSize(Filled(c), all);
    if forall f :: f in RequiredFields ==> FieldValue(c, f) != "" {
      forall f | f in all ensures f in Filled(c) {
        assert FieldValue(c, f) != "";
      }
      assert Filled(c) == all;
    } else {
      var f :| f in RequiredFields && FieldValue(c, f) == "";
      assert f !in Filled(c);
      assert Filled(c) < all;
    }
  }

  /** The submit button: disabled while loading or below 100%. */
  predicate SubmitEnabled(loading: bool, c: map<string, string>) {
    !(loading || Completion(c) != 100)
  }

  /** The button is enabled only when every required field has some text,
      though a field may still be outside its bounds. */
  lemma EnabledMeansFilled(loading: bool, c: map<string, string>)
    ensures SubmitEnabled(loading, c) <==>
              !loading && forall f :: f in RequiredFields ==> FieldValue(c, f) != ""
  {
    CompletionFullIffAllFilled(c);
  }

  /** An enabled button does not mean the form validates: a five-character
      goal fills the field but fails its minimum. */
  lemma EnabledButInvalid()
    ensures var c := map["Goal" := "Short", "Audience" := "devs", "Inputs" := "notes",
                         "Output_Format" := "md", "Constraints" := "brief"];
            SubmitEnabled(false, c) && !MayProceed(c)
  {
    var c := map["Goal" := "Short", "Audience" := "devs", "Inputs" := "notes",
                 "Output_Format" := "md", "Constraints" := "brief"];
    ExampleFilled(c);
    EnabledMeansFilled(false, c);
    ShortGoalFails(c);
  }

  lemma ExampleFilled(c: map<string, string>)
    requires c == map["Goal" := "Short", "Audience" := "devs", "Inputs" := "notes",
                       "Output_Format" := "md", "Constraints" := "brief"]
    ensures forall f :: f in RequiredFields ==> FieldValue(c, f) != ""
  {
  }

  lemma ShortGoalFails(c: map<string, string>)
    requires |FieldValue(c, "Goal")| < 10
    ensures !MayProceed(c)
  {
    RequiredFieldsHaveBounds();
    ErrorsExact(c, RequiredFields);
    assert "Goal" in ErrorsFrom(c, RequiredFields);
  }
}
