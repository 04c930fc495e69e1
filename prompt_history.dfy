/**
 * The prompt history of the front end: each stored prompt record is shown
 * as a card with a preview, a score badge and a feature count, and
 * selecting a card hands the display a prompt-data object built from the
 * record. Records are the rows the history query returns, as JSON objects.
 */
module PromptHistory {
  import opened Common
  import opened Json
  import PromptDisplay

  /** `record.synthesized_prompt || record.prompt_text`. */
  function PromptText(record: Members): Option<Json> {
    Or(Lookup(record, "synthesized_prompt"), Lookup(record, "prompt_text"))
  }

  // ---------------------------------------------------------------------------
  // handleSelectPrompt
  // ---------------------------------------------------------------------------

  /** The object handleSelectPrompt dispatches. */
  datatype PromptData = PromptData(finalPrompt: Option<Json>, prompt: Option<Json>, scores: Option<Json>,
                                   datasets: Json, usageInstructions: Json)

  /** `record.metadata || {}`. */
  function MetadataOf(record: Members): Json {
    var m := Lookup(record, "metadata");
    if Truthy(m) then m.value else JObj([])
  }

  function DefaultTo(v: Option<Json>, d: Json): (r: Json)
    ensures Truthy(v) ==> r == v.value
    ensures !Truthy(v) ==> r == d
  {
    if Truthy(v) then v.value else d
  }

  function SelectPrompt(record: Members): (d: PromptData)
    ensures d.finalPrompt == d.prompt
  {
    var metadata := MetadataOf(record);
    PromptData(PromptText(record), PromptText(record), Lookup(record, "scores"),
               DefaultTo(Get(Some(metadata), "datasets"), JArr([])),
               DefaultTo(Get(Some(metadata), "usage_instructions"), JStr("")))
  }

  /** Without metadata, or with metadata that lacks them, the datasets are
      [] and the usage instructions ''. */
  lemma SelectDefaults(record: Members)
    requires !Truthy(Get(Some(MetadataOf(record)), "datasets"))
    requires !Truthy(Get(Some(MetadataOf(record)), "usage_instructions"))
    ensures SelectPrompt(record).datasets == JArr([])
    ensures SelectPrompt(record).usageInstructions == JStr("")
  {
  }

  /** The dispatched object as the display holds it; a missing property is
      left out. */
  function DataJson(d: PromptData): Json {
    JObj(Member("final_prompt", d.finalPrompt) + Member("prompt", d.prompt) + Member("scores", d.scores)
         + [("datasets", d.datasets), ("usage_instructions", d.usageInstructions)])
  }

  function Member(key: string, v: Option<Json>): Members {
    if v.Some? then [(key, v.value)] else []
  }

  /** A read of a concatenation finds the key in the later part first. */
  lemma {:induction false} LookupAppend(a: Members, b: Members, k: string)
    ensures Lookup(a + b, k) == if k in Keys(b) then Lookup(b, k) else Lookup(a, k)
    decreases |b|
  {
    if b == [] {
      assert a + b == a;
    } else {
      var init := b[..|b| - 1];
      assert (a + b)[..|a + b| - 1] == a + init;
      assert Keys(b) == Keys(init) + [b[|b| - 1].0];
      LookupAppend(a, init, k);
    }
  }

  /** The object dispatched when a record is selected, read by the display's
      export function, exports `synthesized_prompt || prompt_text`, and
      nothing when both are falsy. The display's listener ignores the event's
      detail, so this describes the dispatched object, not the screen. */
  lemma SelectedPromptExports(record: Members)
    ensures var text := PromptText(record);
            PromptDisplay.ExportText(Some(DataJson(SelectPrompt(record))))
            == if Truthy(text) then text else None
  {
    DataJsonReads(SelectPrompt(record));
  }

  /** The display reads back the prompt and the final prompt the object
      was built with. */
  lemma DataJsonReads(d: PromptData)
    ensures Get(Some(DataJson(d)), "final_prompt") == d.finalPrompt
    ensures Get(Some(DataJson(d)), "prompt") == d.prompt
  {
    var fp := Member("final_prompt", d.finalPrompt);
    var p := Member("prompt", d.prompt);
    var later := Member("scores", d.scores) + [("datasets", d.datasets), ("usage_instructions", d.usageInstructions)];
    assert DataJson(d).members == (fp + p) + later;
    LaterKeys(d.scores, d.datasets, d.usageInstructions);
    LookupAppend(fp + p, later, "prompt");
    LookupAppend(fp + p, later, "final_prompt");
    LookupAppend(fp, p, "prompt");
    LookupAppend(fp, p, "final_prompt");
    LookupMember("final_prompt", d.finalPrompt, "prompt");
    LookupMember("final_prompt", d.finalPrompt, "final_prompt");
    LookupMember("prompt", d.prompt, "prompt");
    LookupMember("prompt", d.prompt, "final_prompt");
  }

  lemma LookupMember(key: string, v: Option<Json>, k: string)
    ensures k in Keys(Member(key, v)) <==> v.Some? && k == key
    ensures Lookup(Member(key, v), k) == if k == key then v else None
  {
    if v.Some? {
      assert Keys(Member(key, v)) == [key];
    } else {
      assert Keys(Member(key, v)) == [];
    }
  }

  lemma LaterKeys(scores: Option<Json>, datasets: Json, usage: Json)
    ensures var later := Member("scores", scores) + [("datasets", datasets), ("usage_instructions", usage)];
            "prompt" !in Keys(later) && "final_prompt" !in Keys(later)
  {
    var later := Member("scores", scores) + [("datasets", datasets), ("usage_instructions", usage)];
    assert Keys(later) == Keys(Member("scores", scores)) + ["datasets", "usage_instructions"];
    LookupMember("scores", scores, "prompt");
    LookupMember("scores", scores, "final_prompt");
  }

  // ---------------------------------------------------------------------------
  // The card
  // ---------------------------------------------------------------------------

  /** `record.scores?.total || record.total_score || 0`. */
  function TotalScore(record: Members): Num {
    var t := Or(Get(Lookup(record, "scores"), "total"), Lookup(record, "total_score"));
    if Truthy(t) then ToNumber(t) else Num(0.0)
  }

  /** `Math.round(totalScore * 100)`. */
  function ScorePercentage(record: Members): Num {
    RoundNum(Scale(TotalScore(record), 100.0))
  }

  /** The badge is the default variant iff the percentage is at least 85. */
  predicate DefaultBadge(record: Members) {
    AtLeast(ScorePercentage(record), 85.0)
  }

  /** The records the server stores carry scores without "total", so the
      card falls back to `total_score`: a positive score c shows the
      default badge iff 100·c is at least 84.5. */
  lemma StoredRecordBadge(record: Members, c: real)
    requires !Truthy(Get(Lookup(record, "scores"), "total"))
    requires Lookup(record, "total_score") == Some(JNum(c)) && c != 0.0
    ensures TotalScore(record) == Num(c)
    ensures DefaultBadge(record) <==> 100.0 * c >= 84.5
  {
    var r := Round(c * 100.0);
    assert (c * 100.0 - 0.5) < r as real <= c * 100.0 + 0.5;
  }

  /** A record with neither a truthy total nor a truthy total_score shows
      0% and the secondary badge. */
  lemma UnscoredRecordShowsZero(record: Members)
    requires !Truthy(Get(Lookup(record, "scores"), "total")) && !Truthy(Lookup(record, "total_score"))
    ensures ScorePercentage(record) == Num(0.0) && !DefaultBadge(record)
  {
    RoundOfInteger(0);
  }

  const PreviewLength: nat := 60

  /** `(synthesized_prompt || prompt_text).substring(0, 60)` followed by
      "...". A value that is not a string has no `substring`: the render
      fails, None here. */
  function Preview(record: Members): (r: Option<string>)
    ensures r.Some? <==> PromptText(record).Some? && PromptText(record).value.JStr?
    ensures r.Some? ==>
              var s := PromptText(record).value.s;
              && |r.value| == Min(|s|, PreviewLength) + 3
              && r.value[..Min(|s|, PreviewLength)] == s[..Min(|s|, PreviewLength)]
              && r.value[Min(|s|, PreviewLength)..] == "..."
  {
    var t := PromptText(record);
    if t.Some? && t.value.JStr? then Some(Prefix(t.value.s, PreviewLength) + "...") else None
  }

  /** The ellipsis is added even when the text is short: a 20-character
      prompt shows all 20 characters and then "...". */
  lemma ShortPromptStillEllipsized(record: Members, s: string)
    requires PromptText(record) == Some(JStr(s)) && |s| <= PreviewLength
    ensures Preview(record) == Some(s + "...")
  {
  }

  /** The features badge: shown iff `features` is truthy with at least one
      key, and then showing the key count. */
  function FeaturesBadge(record: Members): (r: Option<nat>)
    ensures r.Some? ==> r.value > 0
    ensures !Truthy(Lookup(record, "features")) ==> r.None?
  {
    var f := Lookup(record, "features");
    if Truthy(f) && KeyCount(f.value) > 0 then Some(KeyCount(f.value)) else None
  }

  /** The stored records keep the collected fields as their features: a
      record whose features object has n distinct keys, n > 0, shows n. */
  lemma FeaturesCountKeys(record: Members, ms: Members)
    requires Lookup(record, "features") == Some(JObj(ms)) && |Distinct(Keys(ms))| > 0
    ensures FeaturesBadge(record) == Some(|Distinct(Keys(ms))|)
  {
  }

  lemma EmptyFeaturesHidden(record: Members)
    requires Lookup(record, "features") == Some(JObj([]))
    ensures FeaturesBadge(record).None?
  {
    assert Keys([]) == [];
  }
}
