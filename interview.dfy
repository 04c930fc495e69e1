/**
 * The interview step of the edge function: which required fields are still
 * missing from the validated `collected` dictionary, the progress text, the
 * priority order in which the interviewer chooses the next focus, and the
 * reply (questions from the AI gateway, or "ready").
 */
module Interview {
  import opened Common
  import opened Json
  import opened Responses
  import Validation

  /** REQUIRED_FIELDS, in their declared order. */
  const RequiredFields: seq<string> :=
    ["Goal", "Audience", "Inputs", "Output_Format", "Constraints",
     "Style", "Guardrails", "Business_Context", "Brand_Voice", "Success_Metrics"]

  /** A field counts as collected when it is present and not blank after
      trimming (`!collected[field] || collected[field].trim() === ''`
      negated). */
  predicate Filled(c: map<string, string>, f: string) {
    f in c && Trim(c[f]) != ""
  }

  /** `!collected.X`: the field is absent or the empty string. */
  predicate Falsy(c: map<string, string>, f: string) {
    f !in c || c[f] == ""
  }

  predicate IsSubsequence(a: seq<string>, b: seq<string>)
    decreases |b|
  {
    if a == [] then true
    else if b == [] then false
    else (a[0] == b[0] && IsSubsequence(a[1..], b[1..])) || IsSubsequence(a, b[1..])
  }

  /** `fields.filter(f => !filled)`: the fields that are not filled, in their
      original order. */
  function MissingOf(fields: seq<string>, c: map<string, string>): (r: seq<string>)
    ensures forall f :: f in r <==> f in fields && !Filled(c, f)
    ensures |r| <= |fields|
    ensures IsSubsequence(r, fields)
  {
    if fields == [] then []
    else
      var rest := MissingOf(fields[1..], c);
      assert forall f :: f in fields <==> f == fields[0] || f in fields[1..];
      if !Filled(c, fields[0]) then
        assert ([fields[0]] + rest)[1..] == rest;
        [fields[0]] + rest
      else
        SubsequenceOfTail(rest, fields);
        rest
  }

  lemma {:induction false} SubsequenceOfTail(a: seq<string>, b: seq<string>)
    requires b != [] && IsSubsequence(a, b[1..])
    ensures IsSubsequence(a, b)
  {
  }

  function Missing(c: map<string, string>): (r: seq<string>)
    ensures forall f :: f in r <==> f in RequiredFields && !Filled(c, f)
    ensures |r| <= |RequiredFields|
    ensures IsSubsequence(r, RequiredFields)
  {
    MissingOf(RequiredFields, c)
  }

  /** The number of required fields that are filled. */
  function FilledCount(fields: seq<string>, c: map<string, string>): (n: nat)
    ensures n <= |fields|
  {
    if fields == [] then 0
    else (if Filled(c, fields[0]) then 1 else 0) + FilledCount(fields[1..], c)
  }

  /** The two counts add up: what is not missing is filled. */
  lemma {:induction false} MissingPlusFilled(fields: seq<string>, c: map<string, string>)
    ensures |MissingOf(fields, c)| + FilledCount(fields, c) == |fields|
  {
    if fields != [] {
      MissingPlusFilled(fields[1..], c);
    }
  }

  /** `${10 - missing.length}/10 fields collected`. */
  function ProgressText(c: map<string, string>): (t: string)
    ensures exists k: nat :: k <= 10 && t == NatToString(k) + "/10 fields collected"
  {
    var k := |RequiredFields| - |Missing(c)|;
    ProgressSuffix();
    var t := NatToString(k) + ("/" + NatToString(|RequiredFields|) + " fields collected");
    assert k <= 10 && t == NatToString(k) + "/10 fields collected";
    t
  }

  /** The text after the count. */
  lemma ProgressSuffix()
    ensures "/" + NatToString(|RequiredFields|) + " fields collected" == "/10 fields collected"
  {
    assert NatToString(1) == "1";
    assert NatToString(10) == "10";
  }

  /** The number in the progress text is the number of filled fields. */
  lemma ProgressCountsFilled(c: map<string, string>)
    ensures ProgressText(c) == NatToString(FilledCount(RequiredFields, c)) + "/10 fields collected"
  {
    MissingPlusFilled(RequiredFields, c);
  }

  lemma MissingEmptyIffAllFilled(c: map<string, string>)
    ensures Missing(c) == [] <==> forall f :: f in RequiredFields ==> Filled(c, f)
  {
    var m := Missing(c);
    if m != [] {
      assert m[0] in m;
    }
  }

  /** The next topic of the interview. */
  datatype Focus =
    | BusinessContext
    | Audience
    | BrandVoice
    | Guardrails
    | SuccessMetrics
    | RemainingDetails(fields: seq<string>)

  /** The field a priority focus is about. */
  function FocusField(f: Focus): string
    requires !f.RemainingDetails?
  {
    match f
    case BusinessContext => "Business_Context"
    case Audience => "Audience"
    case BrandVoice => "Brand_Voice"
    case Guardrails => "Guardrails"
    case SuccessMetrics => "Success_Metrics"
  }

  /** The five fields asked about first, in priority order. */
  const PriorityFields: seq<string> :=
    ["Business_Context", "Audience", "Brand_Voice", "Guardrails", "Success_Metrics"]

  /** The focus: the first priority field that is absent or empty; when all
      five are present, the first three missing fields. */
  function FocusArea(c: map<string, string>, missing: seq<string>): (r: Focus)
    ensures !r.RemainingDetails? ==> Falsy(c, FocusField(r))
    ensures !r.RemainingDetails? ==>
              forall k :: 0 <= k < |PriorityFields| && PriorityFields[k] == FocusField(r) ==>
                forall j :: 0 <= j < k ==> !Falsy(c, PriorityFields[j])
    ensures r.RemainingDetails? <==> forall f :: f in PriorityFields ==> !Falsy(c, f)
    ensures r.RemainingDetails? ==> r.fields == Prefix(missing, 3)
  {
    if Falsy(c, "Business_Context") then BusinessContext
    else if Falsy(c, "Audience") then Audience
    else if Falsy(c, "Brand_Voice") then BrandVoice
    else if Falsy(c, "Guardrails") then Guardrails
    else if Falsy(c, "Success_Metrics") then SuccessMetrics
    else RemainingDetails(Prefix(missing, 3))
  }

  /** Every value of the validated dictionary is trimmed. */
  predicate AllTrimmed(c: map<string, string>) {
    forall k :: k in c ==> Trim(c[k]) == c[k]
  }

  lemma TrimIdempotent(s: string)
    ensures Trim(Trim(s)) == Trim(s)
  {
    var r := Trim(s);
    if r != [] {
      assert !IsWhitespace(r[0]) && !IsWhitespace(r[|r| - 1]);
      assert TrimEnd(r) == r;
    }
  }

  lemma ValidatedIsTrimmed(ms: Members, n: nat)
    requires n <= |ms|
    requires forall i :: 0 <= i < n ==> Validation.ValidMember(ms[i])
    ensures AllTrimmed(Validation.ValidatedPrefix(ms, n))
  {
    var v := Validation.ValidatedPrefix(ms, n);
    forall k | k in v ensures Trim(v[k]) == v[k] {
      Validation.ValidatedPrefixValue(ms, n, k);
      TrimIdempotent(Lookup(ms[..n], k).value.s);
    }
  }

  /** On the dictionary validateCollected produces, "missing" and "falsy"
      agree: the focus is always a missing field, and the remaining details
      are never one of the five priority fields. */
  lemma FocusAgreesWithMissing(c: map<string, string>)
    requires AllTrimmed(c)
    ensures forall f :: f in RequiredFields ==> (f in Missing(c) <==> Falsy(c, f))
    ensures var r := FocusArea(c, Missing(c));
            (!r.RemainingDetails? ==> FocusField(r) in Missing(c))
            && (r.RemainingDetails? ==> forall f :: f in r.fields ==> f in Missing(c) && f !in PriorityFields)
  {
    forall f | f in c ensures (Trim(c[f]) == "") <==> (c[f] == "") {
      assert Trim(c[f]) == c[f];
    }
    var m := Missing(c);
    var r := FocusArea(c, m);
    if r.RemainingDetails? {
      forall f | f in r.fields ensures f in m && f !in PriorityFields {
        assert f in m[..|r.fields|];
      }
    }
  }

  /** On an unvalidated dictionary they do not: a value made only of spaces
      is missing, yet it is not chosen as the focus. */
  lemma BlankValueMissingButNotFocus()
    ensures var c := map["Business_Context" := " "];
            "Business_Context" in Missing(c) && FocusArea(c, Missing(c)) != BusinessContext
  {
    var c := map["Business_Context" := " "];
    assert IsWhitespace(' ');
    assert Trim(" ") == "" by {
      assert TrimEnd("") == "";
      assert " "[1..] == "";
    }
    assert !Filled(c, "Business_Context");
    assert RequiredFields[7] == "Business_Context";
  }

  /** What the AI gateway returned: a non-2xx status, or a body whose
      `choices[0].message` is missing (reading it throws), or one whose
      message has a `content` value (None when that property is absent). */
  datatype Gateway = Failed(status: nat) | NoMessage | Message(content: Option<Json>)

  datatype InterviewReply =
    | Questions(questions: Option<Json>, missing: seq<string>, collected: map<string, string>, progress: string)
    | Ready(collected: map<string, string>)

  /** handleInterview after the user's message is stored: "ready" when
      nothing is missing (the gateway is not asked), otherwise the gateway's
      questions with the missing list, the dictionary as received and the
      progress. The focus only shapes the system prompt sent to the gateway,
      whose text is not modelled; it is not part of the reply. */
  function HandleInterview(c: map<string, string>, reply: Gateway): (r: Outcome<InterviewReply>)
    ensures Missing(c) == [] ==> r == Success(Ready(c))
    ensures Missing(c) != [] && reply.Failed? ==> r == GatewayFailure(reply.status, "AI gateway error")
    ensures Missing(c) != [] && reply.NoMessage? ==> r == Threw(RuntimeTypeError)
    ensures Missing(c) != [] && reply.Message? ==>
              r == Success(Questions(reply.content, Missing(c), c, ProgressText(c)))
  {
    var missing := Missing(c);
    if missing == [] then Success(Ready(c))
    else
      match reply
      case Failed(status) => GatewayFailure(status, "AI gateway error")
      case NoMessage => Threw(RuntimeTypeError)
      case Message(content) =>
        Success(Questions(content, missing, c, ProgressText(c)))
  }

  /** The reply is "ready" exactly when every required field is filled,
      whatever the gateway would have said. */
  lemma ReadyIffComplete(c: map<string, string>, reply: Gateway)
    ensures (HandleInterview(c, reply).Success? && HandleInterview(c, reply).value.Ready?)
            <==> forall f :: f in RequiredFields ==> Filled(c, f)
  {
    MissingEmptyIffAllFilled(c);
  }

  /** Questions always come with a non-empty missing list of at most ten
      fields, each a required field that is not filled, and hand back the
      dictionary the client sent. */
  lemma QuestionsListMissingFields(c: map<string, string>, reply: Gateway)
    requires HandleInterview(c, reply).Success? && HandleInterview(c, reply).value.Questions?
    ensures var q := HandleInterview(c, reply).value;
            0 < |q.missing| <= 10 && q.collected == c
            && forall f :: f in q.missing ==> f in RequiredFields && !Filled(c, f)
  {
  }
}
