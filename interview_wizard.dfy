/**
 * The interview wizard of the front end: each message the user sends may
 * fill the still-empty required fields whose trigger words it contains,
 * the filled record goes to the server's interview action, and the
 * Generate button appears once the server says the interview is ready or
 * every field has a value.
 */
module InterviewWizard {
  import opened Common
  import ConversationView
  import Interview

  // ---------------------------------------------------------------------------
  // Keyword extraction
  // ---------------------------------------------------------------------------

  /** The words that let a message fill each field, tested on the
      lower-cased message. The Audience trigger "for " ends in a space. */
  function Triggers(field: string): seq<string> {
    if field == "Goal" then ["goal", "want", "need"]
    else if field == "Audience" then ["audience", "for "]
    else if field == "Inputs" then ["input"]
    else if field == "Output_Format" then ["format", "json", "markdown"]
    else if field == "Constraints" then ["constraint"]
    else []
  }

  predicate Triggered(field: string, lower: string) {
    exists k :: 0 <= k < |Triggers(field)| && Contains(lower, Triggers(field)[k])
  }

  /** Extraction fills `field` from `message` when the field is missing or
      empty and the lower-cased message holds one of its trigger words. */
  predicate Fills(collected: map<string, string>, field: string, message: string) {
    ConversationView.FieldValue(collected, field) == "" && Triggered(field, ToLower(message))
  }

  /** One extraction step: the field is set to the message when it is
      falsy in the original record and the message triggers it. */
  function FillIf(r: map<string, string>, collected: map<string, string>, field: string,
                  message: string): map<string, string>
  {
    if Fills(collected, field, message) then r[field := message] else r
  }

  /** The record after the assignments for `fields`, in order. */
  function ExtractedFrom(collected: map<string, string>, message: string, fields: seq<string>): map<string, string> {
    if fields == [] then collected
    else FillIf(ExtractedFrom(collected, message, fields[..|fields| - 1]), collected, fields[|fields| - 1], message)
  }

  /** The record after extraction of all five fields. */
  function Extracted(collected: map<string, string>, message: string): map<string, string> {
    ExtractedFrom(collected, message, ConversationView.RequiredFields)
  }

  /** Every field the visited assignments fill holds the whole message;
      every other key keeps its value or its absence. */
  lemma {:induction false} ExtractedFromExact(collected: map<string, string>, message: string, fields: seq<string>)
    ensures var r := ExtractedFrom(collected, message, fields);
            && (forall f :: f in r <==> f in collected || (f in fields && Fills(collected, f, message)))
            && (forall f :: f in r ==> r[f] == if f in fields && Fills(collected, f, message) then message else collected[f])
  {
    if fields != [] {
      var init := fields[..|fields| - 1];
      assert fields == init + [fields[|fields| - 1]];
      ExtractedFromExact(collected, message, init);
    }
  }

  /** The five assignments in the order handleInterview makes them. */
  lemma ExtractedInOrder(collected: map<string, string>, message: string)
    ensures Extracted(collected, message)
            == FillIf(FillIf(FillIf(FillIf(FillIf(collected, collected, "Goal", message),
                                           collected, "Audience", message),
                                    collected, "Inputs", message),
                             collected, "Output_Format", message),
                      collected, "Constraints", message)
  {
    var fs := ConversationView.RequiredFields;
    var c, m := collected, message;
    assert fs[..1] == ["Goal"] && ["Goal"][..0] == [];
    assert ExtractedFrom(c, m, []) == c;
    var e1 := ExtractedFrom(c, m, fs[..1]);
    assert e1 == FillIf(c, c, "Goal", m);
    assert fs[..2][..1] == fs[..1] && fs[..2][1] == "Audience";
    var e2 := ExtractedFrom(c, m, fs[..2]);
    assert e2 == FillIf(e1, c, "Audience", m);
    assert fs[..3][..2] == fs[..2] && fs[..3][2] == "Inputs";
    var e3 := ExtractedFrom(c, m, fs[..3]);
    assert e3 == FillIf(e2, c, "Inputs", m);
    assert fs[..4][..3] == fs[..3] && fs[..4][3] == "Output_Format";
    var e4 := ExtractedFrom(c, m, fs[..4]);
    assert e4 == FillIf(e3, c, "Output_Format", m);
    assert fs[..4] == fs[..|fs| - 1] && fs[4] == "Constraints";
    assert Extracted(c, m) == FillIf(e4, c, "Constraints", m);
  }

  lemma TriggeredGoal(lower: string)
    ensures Triggered("Goal", lower) <==> Contains(lower, "goal") || Contains(lower, "want") || Contains(lower, "need")
  {
    var ts := Triggers("Goal");
    assert ts[0] == "goal" && ts[1] == "want" && ts[2] == "need";
  }

  lemma TriggeredAudience(lower: string)
    ensures Triggered("Audience", lower) <==> Contains(lower, "audience") || Contains(lower, "for ")
  {
    var ts := Triggers("Audience");
    assert ts[0] == "audience" && ts[1] == "for ";
  }

  lemma TriggeredInputs(lower: string)
    ensures Triggered("Inputs", lower) <==> Contains(lower, "input")
  {
    assert Triggers("Inputs")[0] == "input";
  }

  lemma TriggeredOutputFormat(lower: string)
    ensures Triggered("Output_Format", lower) <==>
              Contains(lower, "format") || Contains(lower, "json") || Contains(lower, "markdown")
  {
    var ts := Triggers("Output_Format");
    assert ts[0] == "format" && ts[1] == "json" && ts[2] == "markdown";
  }

  lemma TriggeredConstraints(lower: string)
    ensures Triggered("Constraints", lower) <==> Contains(lower, "constraint")
  {
    assert Triggers("Constraints")[0] == "constraint";
  }

  /** handleInterview's copy of `collected` and its five conditional
      assignments, each tested against the original record. */
  method Extract(collected: map<string, string>, message: string) returns (r: map<string, string>)
    ensures r == Extracted(collected, message)
  {
    var lower := ToLower(message);
    r := collected;
    if ConversationView.FieldValue(collected, "Goal") == ""
       && (Contains(lower, "goal") || Contains(lower, "want") || Contains(lower, "need")) {
      r := r["Goal" := message];
    }
    assert r == FillIf(collected, collected, "Goal", message) by {
      TriggeredGoal(lower);
    }
    ghost var r1 := r;
    if ConversationView.FieldValue(collected, "Audience") == ""
       && (Contains(lower, "audience") || Contains(lower, "for ")) {
      r := r["Audience" := message];
    }
    assert r == FillIf(r1, collected, "Audience", message) by {
      TriggeredAudience(lower);
    }
    ghost var r2 := r;
    if ConversationView.FieldValue(collected, "Inputs") == "" && Contains(lower, "input") {
      r := r["Inputs" := message];
    }
    assert r == FillIf(r2, collected, "Inputs", message) by {
      TriggeredInputs(lower);
    }
    ghost var r3 := r;
    if ConversationView.FieldValue(collected, "Output_Format") == ""
       && (Contains(lower, "format") || Contains(lower, "json") || Contains(lower, "markdown")) {
      r := r["Output_Format" := message];
    }
    assert r == FillIf(r3, collected, "Output_Format", message) by {
      TriggeredOutputFormat(lower);
    }
    ghost var r4 := r;
    if ConversationView.FieldValue(collected, "Constraints") == "" && Contains(lower, "constraint") {
      r := r["Constraints" := message];
    }
    assert r == FillIf(r4, collected, "Constraints", message) by {
      TriggeredConstraints(lower);
    }
    ExtractedInOrder(collected, message);
  }

  /** A field that already has a value is never overwritten. */
  lemma ExtractionKeepsFilledFields(collected: map<string, string>, message: string, f: string)
    requires ConversationView.FieldValue(collected, f) != ""
    ensures f in Extracted(collected, message) && Extracted(collected, message)[f] == collected[f]
  {
    ExtractedFromExact(collected, message, ConversationView.RequiredFields);
  }

  /** A field the message fills receives the whole message as typed, not
      its lower-cased form. */
  lemma ExtractionFillsWithMessage(collected: map<string, string>, message: string, f: string)
    requires f in ConversationView.RequiredFields && Fills(collected, f, message)
    ensures f in Extracted(collected, message) && Extracted(collected, message)[f] == message
  {
    ExtractedFromExact(collected, message, ConversationView.RequiredFields);
  }

  /** Keys other than the five required fields pass through unchanged. */
  lemma ExtractionKeepsOtherKeys(collected: map<string, string>, message: string, k: string)
    requires k !in ConversationView.RequiredFields
    ensures k in Extracted(collected, message) <==> k in collected
    ensures k in collected ==> Extracted(collected, message)[k] == collected[k]
  {
    ExtractedFromExact(collected, message, ConversationView.RequiredFields);
  }

  /** A field keeps its value, or its absence, unless the message fills it. */
  lemma ExtractionChangesOnlyFilled(collected: map<string, string>, message: string, f: string)
    requires !Fills(collected, f, message)
    ensures f in Extracted(collected, message) <==> f in collected
    ensures f in collected ==> Extracted(collected, message)[f] == collected[f]
  {
    ExtractedFromExact(collected, message, ConversationView.RequiredFields);
  }

  /** One message may fill several fields: "I need JSON" fills both the
      goal and the output format of an empty record. */
  lemma OneMessageFillsSeveral()
    ensures var r := Extracted(map[], "I need JSON");
            "Goal" in r && r["Goal"] == "I need JSON" && "Output_Format" in r && r["Output_Format"] == "I need JSON"
  {
    var m := "I need JSON";
    var lower := ToLower(m);
    assert lower == "i need json";
    assert OccursAt(lower, "need", 2);
    assert OccursAt(lower, "json", 7);
    TriggeredGoal(lower);
    TriggeredOutputFormat(lower);
    ExtractionFillsWithMessage(map[], m, "Goal");
    ExtractionFillsWithMessage(map[], m, "Output_Format");
  }

  /** The wizard fills only the five form fields, while the server's
      interview waits for ten: a record without "Style" never gets
      "ready" from the server, whatever the user types. (The server's
      validation trims the values and keeps the keys.) */
  lemma WizardRecordNeverReady(collected: map<string, string>, message: string, reply: Interview.Gateway)
    requires "Style" !in collected
    ensures var r := Interview.HandleInterview(Extracted(collected, message), reply);
            !(r.Success? && r.value.Ready?)
  {
    ExtractionKeepsOtherKeys(collected, message, "Style");
    assert Interview.RequiredFields[5] == "Style";
    Interview.ReadyIffComplete(Extracted(collected, message), reply);
  }

  // ---------------------------------------------------------------------------
  // The wizard's state
  // ---------------------------------------------------------------------------

  datatype Turn = Turn(role: string, content: string)

  /** What the interview action answered: the `questions` type with the
      server's record, the `ready` type, an answer of another type, or an
      invocation error. */
  datatype Reply =
    | Questions(questions: string, collected: map<string, string>)
    | Ready(message: string)
    | OtherType
    | CallFailed

  /** The Generate button: shown once the server said ready or the
      completion reaches 100%. */
  predicate ShowGenerate(readyToGenerate: bool, collected: map<string, string>) {
    readyToGenerate || ConversationView.Completion(collected) == 100
  }

  /** The button shows iff the server said ready or every required field
      has a non-empty value. */
  lemma ShowGenerateIff(readyToGenerate: bool, collected: map<string, string>)
    ensures ShowGenerate(readyToGenerate, collected) <==>
              readyToGenerate
              || forall f :: f in ConversationView.RequiredFields ==> ConversationView.FieldValue(collected, f) != ""
  {
    ConversationView.CompletionFullIffAllFilled(collected);
  }

  function AssistantTurns(reply: Reply): seq<Turn> {
    match reply
    case Questions(q, _) => [Turn("assistant", q)]
    case Ready(m) => [Turn("assistant", m)]
    case _ => []
  }

  class Wizard {
    var userMessage: string
    var conversation: seq<Turn>
    var collected: map<string, string>
    var readyToGenerate: bool

    constructor()
      ensures userMessage == "" && conversation == [] && collected == map[] && !readyToGenerate
    {
      userMessage := "";
      conversation := [];
      collected := map[];
      readyToGenerate := false;
    }

    /** handleInterview with the server's answer `reply`. A blank message
        changes nothing and calls nothing; otherwise the message is moved
        to the conversation, the extracted record is sent (`sent`), and the
        answer updates the conversation, the record and the ready flag. */
    method HandleInterview(reply: Reply) returns (called: bool, sent: map<string, string>)
      modifies this
      ensures IsBlank(old(userMessage)) ==> !called && unchanged(this)
      ensures !IsBlank(old(userMessage)) ==>
                && called
                && sent == Extracted(old(collected), old(userMessage))
                && userMessage == ""
                && conversation == old(conversation) + [Turn("user", old(userMessage))] + AssistantTurns(reply)
                && collected == (if reply.Questions? then reply.collected else sent)
                && readyToGenerate == (old(readyToGenerate) || reply.Ready?)
    {
      TrimEmptyIffBlank(userMessage);
      if Trim(userMessage) == "" {
        return false, map[];
      }
      var userMsg := userMessage;
      userMessage := "";
      conversation := conversation + [Turn("user", userMsg)];
      var newCollected := Extract(collected, userMsg);
      collected := newCollected;
      called, sent := true, newCollected;
      match reply {
        case Questions(q, serverCollected) =>
          conversation := conversation + [Turn("assistant", q)];
          collected := serverCollected;
        case Ready(m) =>
          conversation := conversation + [Turn("assistant", m)];
          readyToGenerate := true;
        case OtherType =>
        case CallFailed =>
      }
    }
  }
}
