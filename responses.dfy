/**
 * What the request handler of the edge function sends back when something
 * goes wrong: a thrown value is classified by the text of its message into a
 * client-facing status and message (the `catch` block of the handler), and an
 * AI-gateway failure becomes either an upstream status passed through
 * unchanged (429, section 4 of RFC 6585; 402) or a thrown error.
 */
module Responses {
  import opened Common

  /** What a `throw` can carry: an `Error` with its message, a runtime
      TypeError raised by the engine (reading a property of `undefined`,
      spreading a non-iterable), or a value that is not an `Error` at all
      (the database client's error object rethrown as it is). A TypeError is
      an `Error` too; its engine-generated message names none of the phrases
      the handler tests for, so it is kept apart and classified as a 500. */
  datatype Thrown = Error(message: string) | RuntimeTypeError | NonError

  /** The outcome of a handler: a success value, a response returned early
      with an upstream status, or a thrown value that reaches the `catch`. */
  datatype Outcome<+T> = Success(value: T) | Upstream(status: nat, message: string) | Threw(thrown: Thrown)

  const RateLimitMessage: string := "Rate limit exceeded. Please try again in a moment."
  const PaymentMessage: string := "Payment required. Please add credits to your Lovable workspace."

  predicate IsAccessDenied(m: string) { Contains(m, "Unauthorized") || Contains(m, "access denied") }
  predicate IsNotFound(m: string) { Contains(m, "not found") }
  predicate IsValidationMessage(m: string) {
    Contains(m, "must be") || Contains(m, "exceeds") || Contains(m, "required")
  }

  /** The statuses and messages the four branches produce; only a
      validation-like message is passed to the client as it is. */
  function Classify(e: Thrown): (r: (nat, string))
    ensures r.0 == 403 <==> e.Error? && IsAccessDenied(e.message)
    ensures r.0 == 404 <==> e.Error? && !IsAccessDenied(e.message) && IsNotFound(e.message)
    ensures r.0 == 400 <==> e.Error? && !IsAccessDenied(e.message) && !IsNotFound(e.message)
                            && IsValidationMessage(e.message)
    ensures r.0 == 500 <==> !(r.0 == 403 || r.0 == 404 || r.0 == 400)
    ensures r.0 == 403 ==> r.1 == "Access denied"
    ensures r.0 == 404 ==> r.1 == "Resource not found"
    ensures r.0 == 400 ==> r.1 == e.message
    ensures r.0 == 500 ==> r.1 == "An error occurred"
  {
    match e
    case Error(m) =>
      if IsAccessDenied(m) then (403, "Access denied")
      else if IsNotFound(m) then (404, "Resource not found")
      else if IsValidationMessage(m) then (400, m)
      else (500, "An error occurred")
    case _ => (500, "An error occurred")
  }

  /** A message that is not a validation message never reaches the client:
      every status other than 400 carries one of three fixed texts. */
  lemma NoDetailLeaks(e: Thrown)
    ensures Classify(e).0 != 400 ==>
              Classify(e).1 in {"Access denied", "Resource not found", "An error occurred"}
  {
  }

  /** A message that holds `phrase` right after `fieldName` and a space. */
  lemma PhraseAfterField(fieldName: string, phrase: string, rest: string)
    ensures OccursAt(fieldName + " " + phrase + rest, phrase, |fieldName| + 1)
  {
    var m := fieldName + " " + phrase + rest;
    assert m[|fieldName| + 1..|fieldName| + 1 + |phrase|] == phrase;
  }

  /** Whatever the field name, the messages of the validators are never
      classified as an internal error (they may still be classified as 403
      or 404 when the field name itself contains those phrases). */
  lemma MustBeIsClientError(fieldName: string, rest: string)
    ensures Classify(Error(fieldName + " " + "must be" + rest)).0 != 500
  {
    PhraseAfterField(fieldName, "must be", rest);
  }

  lemma ExceedsIsClientError(fieldName: string, maxLength: nat)
    ensures Classify(Error(fieldName + " exceeds " + NatToString(maxLength) + " chars")).0 != 500
  {
    var rest := " " + NatToString(maxLength) + " chars";
    PhraseAfterField(fieldName, "exceeds", rest);
    assert fieldName + " exceeds " + NatToString(maxLength) + " chars" == fieldName + " " + "exceeds" + rest;
  }

  lemma RequiredIsClientError(fieldName: string)
    ensures Classify(Error(fieldName + " required")).0 != 500
  {
    PhraseAfterField(fieldName, "required", "");
    assert fieldName + " required" == fieldName + " " + "required" + "";
  }

  /** The order of the branches decides: a collected key named
      "Unauthorized" turns its own validation failure into a 403. */
  lemma FieldNameCanShadowValidation()
    ensures Classify(Error("Unauthorized must be a string")) == (403, "Access denied")
  {
    var m := "Unauthorized must be a string";
    assert m[0..12] == "Unauthorized";
    ContainsAt(m, "Unauthorized", 0);
  }

  /** The three ways a message is classified, one lemma each, so that a
      concrete message is classified from facts about its text alone. */
  lemma ClassifyAccessDenied(m: string)
    requires IsAccessDenied(m)
    ensures Classify(Error(m)) == (403, "Access denied")
  {
  }

  lemma ClassifyClientError(m: string)
    requires !IsAccessDenied(m) && !IsNotFound(m) && IsValidationMessage(m)
    ensures Classify(Error(m)) == (400, m)
  {
  }

  lemma ClassifyInternal(m: string)
    requires !IsAccessDenied(m) && !IsNotFound(m) && !IsValidationMessage(m)
    ensures Classify(Error(m)) == (500, "An error occurred")
  {
  }

  /** The messages the handler throws, classified. */
  lemma UnauthorizedIs403()
    ensures Classify(Error("Unauthorized")) == (403, "Access denied")
  {
    ContainsAt("Unauthorized", "Unauthorized", 0);
    ClassifyAccessDenied("Unauthorized");
  }

  lemma NotOwnedIs403()
    ensures Classify(Error("Conversation not found or access denied")) == (403, "Access denied")
  {
    var m := "Conversation not found or access denied";
    assert m[26..39] == "access denied";
    ContainsAt(m, "access denied", 26);
    ClassifyAccessDenied(m);
  }

  lemma MissingProjectAccessFacts()
    ensures !IsAccessDenied("project_id required") && !IsNotFound("project_id required")
  {
    NoAccessPhrases("project_id required", 'a', 'n');
  }

  lemma MissingProjectIs400()
    ensures Classify(Error("project_id required")) == (400, "project_id required")
  {
    MissingProjectAccessFacts();
    PhraseAfterField("project_id", "required", "");
    assert "project_id" + " " + "required" + "" == "project_id required";
    ClassifyClientError("project_id required");
  }

  /** `m` holds none of the phrases the classification looks for. */
  predicate Unclassified(m: string) {
    !IsAccessDenied(m) && !IsNotFound(m) && !IsValidationMessage(m)
  }

  /** A message that lacks "U" and one character of each of "access denied"
      and "not found" is neither an access nor a lookup failure. */
  lemma NoAccessPhrases(m: string, a: char, n: char)
    requires 'U' !in m
    requires a in "access denied" && a !in m
    requires n in "not found" && n !in m
    ensures !IsAccessDenied(m) && !IsNotFound(m)
  {
    NotContainsChar(m, "Unauthorized", 'U');
    NotContainsChar(m, "access denied", a);
    NotContainsChar(m, "not found", n);
  }

  /** A message that lacks one character of each validation phrase is not a
      validation message. */
  lemma NoValidationPhrases(m: string, b: char, x: char, q: char)
    requires b in "must be" && b !in m
    requires x in "exceeds" && x !in m
    requires q in "required" && q !in m
    ensures !IsValidationMessage(m)
  {
    NotContainsChar(m, "must be", b);
    NotContainsChar(m, "exceeds", x);
    NotContainsChar(m, "required", q);
  }

  lemma InvalidActionFacts()
    ensures Unclassified("Invalid action")
  {
    NoAccessPhrases("Invalid action", 'e', 'u');
    NoValidationPhrases("Invalid action", 'm', 'e', 'e');
  }

  lemma StoreFailureAccessFacts()
    ensures !IsAccessDenied("Failed to save prompt record") && !IsNotFound("Failed to save prompt record")
  {
    NoAccessPhrases("Failed to save prompt record", 'n', 'n');
  }

  lemma StoreFailureValidationFacts()
    ensures !IsValidationMessage("Failed to save prompt record")
  {
    NoValidationPhrases("Failed to save prompt record", 'b', 'x', 'q');
  }

  lemma GatewayErrorAccessFacts()
    ensures !IsAccessDenied("AI gateway error") && !IsNotFound("AI gateway error")
  {
    NoAccessPhrases("AI gateway error", 'c', 'n');
  }

  lemma GatewayErrorValidationFacts()
    ensures !IsValidationMessage("AI gateway error")
  {
    NoValidationPhrases("AI gateway error", 'm', 'x', 'q');
  }

  lemma SynthesisFailedAccessFacts()
    ensures !IsAccessDenied("Synthesis failed") && !IsNotFound("Synthesis failed")
  {
    NoAccessPhrases("Synthesis failed", 'c', 'o');
  }

  lemma SynthesisFailedValidationFacts()
    ensures !IsValidationMessage("Synthesis failed")
  {
    NoValidationPhrases("Synthesis failed", 'm', 'x', 'q');
  }

  /** An unknown action, a failed store and the gateway failures all reach
      the client as a 500 without their text. */
  lemma InternalMessagesAre500(m: string)
    requires m in {"Invalid action", "Failed to save prompt record", "AI gateway error", "Synthesis failed"}
    ensures Classify(Error(m)) == (500, "An error occurred")
  {
    InvalidActionFacts();
    StoreFailureAccessFacts();
    StoreFailureValidationFacts();
    GatewayErrorAccessFacts();
    GatewayErrorValidationFacts();
    SynthesisFailedAccessFacts();
    SynthesisFailedValidationFacts();
    ClassifyInternal(m);
  }

  /** A failed AI-gateway reply: 429 and 402 are returned to the client with
      their own status, anything else is thrown with `failure`. */
  function GatewayFailure<T>(status: nat, failure: string): (r: Outcome<T>)
    ensures status == 429 ==> r == Upstream(429, RateLimitMessage)
    ensures status == 402 ==> r == Upstream(402, PaymentMessage)
    ensures status != 429 && status != 402 ==> r == Threw(Error(failure))
  {
    if status == 429 then Upstream(429, RateLimitMessage)
    else if status == 402 then Upstream(402, PaymentMessage)
    else Threw(Error(failure))
  }

  /** The status the client finally sees for an outcome. */
  function StatusOf<T>(o: Outcome<T>): (s: nat)
    ensures o.Success? ==> s == 200
    ensures o.Upstream? ==> s == o.status
    ensures o.Threw? ==> s == Classify(o.thrown).0
  {
    match o
    case Success(_) => 200
    case Upstream(st, _) => st
    case Threw(e) => Classify(e).0
  }

  /** A gateway failure other than 429 and 402 is always a 500: the messages
      the handler throws for it ("AI gateway error", "Synthesis failed")
      classify as internal errors. */
  lemma GatewayFailureStatus<T>(status: nat, failure: string)
    requires failure == "AI gateway error" || failure == "Synthesis failed"
    ensures StatusOf(GatewayFailure<T>(status, failure)) ==
              (if status == 429 then 429 else if status == 402 then 402 else 500)
  {
    if status != 429 && status != 402 {
      InternalMessagesAre500(failure);
    }
  }
}
