/**
 * The prompt display of the front end: the tier colour of the overall
 * score, the badge variant of each dimension, the overall percentage, the
 * per-dimension grid, and the text that copy and download use. The prompt
 * data is the parsed value the display holds, None before any prompt.
 */
module PromptDisplay {
  import opened Common
  import opened Json

  // ---------------------------------------------------------------------------
  // Score tiers
  // ---------------------------------------------------------------------------

  /** getScoreColor's classes: text-green-600, text-blue-600,
      text-yellow-600 and text-orange-600. */
  datatype ScoreColor = Green | Blue | Yellow | Orange

  /** getScoreBadgeVariant's variants. */
  datatype BadgeVariant = Default | Secondary | Outline

  /** getScoreColor: thresholds 0.9, 0.75 and 0.6, each inclusive; a score
      that is not a number fails every comparison. */
  function GetScoreColor(score: Num): (c: ScoreColor)
    ensures c == Green <==> AtLeast(score, 0.9)
    ensures c == Blue <==> AtLeast(score, 0.75) && !AtLeast(score, 0.9)
    ensures c == Yellow <==> AtLeast(score, 0.6) && !AtLeast(score, 0.75)
    ensures c == Orange <==> !AtLeast(score, 0.6)
  {
    if AtLeast(score, 0.9) then Green
    else if AtLeast(score, 0.75) then Blue
    else if AtLeast(score, 0.6) then Yellow
    else Orange
  }

  /** getScoreBadgeVariant: thresholds 0.9 and 0.75, each inclusive. */
  function GetScoreBadgeVariant(score: Num): (v: BadgeVariant)
    ensures v == Default <==> AtLeast(score, 0.9)
    ensures v == Secondary <==> AtLeast(score, 0.75) && !AtLeast(score, 0.9)
    ensures v == Outline <==> !AtLeast(score, 0.75)
  {
    if AtLeast(score, 0.9) then Default
    else if AtLeast(score, 0.75) then Secondary
    else Outline
  }

  /** The tiers from lowest to highest. */
  function ColorRank(c: ScoreColor): nat {
    match c
    case Orange => 0
    case Yellow => 1
    case Blue => 2
    case Green => 3
  }

  function BadgeRank(v: BadgeVariant): nat {
    match v
    case Outline => 0
    case Secondary => 1
    case Default => 2
  }

  /** A higher score never gets a lower colour or badge. */
  lemma TiersMonotone(a: real, b: real)
    requires a <= b
    ensures ColorRank(GetScoreColor(Num(a))) <= ColorRank(GetScoreColor(Num(b)))
    ensures BadgeRank(GetScoreBadgeVariant(Num(a))) <= BadgeRank(GetScoreBadgeVariant(Num(b)))
  {
  }

  /** The badge and the colour agree above 0.75: the badge tier is the
      colour tier less one, floored at the outline. */
  lemma BadgeFollowsColor(score: Num)
    ensures BadgeRank(GetScoreBadgeVariant(score)) == if ColorRank(GetScoreColor(score)) == 0 then 0 else ColorRank(GetScoreColor(score)) - 1
  {
  }

  // ---------------------------------------------------------------------------
  // The overall score and the grid
  // ---------------------------------------------------------------------------

  /** `promptData.scores || {}`. */
  function ScoresOf(promptData: Json): Json {
    var s := Get(Some(promptData), "scores");
    if Truthy(s) then s.value else JObj([])
  }

  /** `scores.total || 0`. */
  function TotalScore(promptData: Json): Num {
    var t := Get(Some(ScoresOf(promptData)), "total");
    if Truthy(t) then ToNumber(t) else Num(0.0)
  }

  /** `Math.round(totalScore * 100)`. */
  function ScorePercentage(promptData: Json): (p: Num)
    ensures TotalScore(promptData).NaN? <==> p.NaN?
  {
    var t := TotalScore(promptData);
    if t.Num? then Num(Round(t.r * 100.0) as real) else NaN
  }

  /** Without scores, or without a total, the overall score is 0%. */
  lemma MissingTotalIsZero(promptData: Json)
    requires !Truthy(Get(Some(ScoresOf(promptData)), "total"))
    ensures ScorePercentage(promptData) == Num(0.0)
  {
    RoundOfInteger(0);
  }

  /** A numeric total between 0 and 1 gives a percentage between 0 and 100,
      within half a point of 100·total. */
  lemma PercentageBounds(promptData: Json, t: real)
    requires Get(Some(ScoresOf(promptData)), "total") == Some(JNum(t))
    requires 0.0 <= t <= 1.0
    ensures var p := ScorePercentage(promptData);
            p.Num? && 0.0 <= p.r <= 100.0 && 100.0 * t - 0.5 < p.r <= 100.0 * t + 0.5
  {
    if t == 0.0 {
      RoundOfInteger(0);
    } else {
      var r := Round(t * 100.0);
      assert r as real <= 100.5;
      assert -0.5 < r as real;
    }
  }

  /** The grid's entries: `Object.entries(scores)` without the key "total",
      one per distinct key with its last value, in order of first use. */
  function GridEntries(scores: Json): (g: seq<(string, Json)>)
    ensures forall k :: 0 <= k < |g| ==> g[k].0 != "total"
  {
    if scores.JObj? then GridOf(scores.members, Distinct(Keys(scores.members))) else []
  }

  function GridOf(ms: Members, keys: seq<string>): (g: seq<(string, Json)>)
    requires forall k :: k in keys ==> k in Keys(ms)
    ensures forall k :: 0 <= k < |g| ==> g[k].0 != "total"
  {
    if keys == [] then []
    else
      var rest := GridOf(ms, keys[1..]);
      if keys[0] == "total" then rest
      else [(keys[0], Lookup(ms, keys[0]).value)] + rest
  }

  /** Every key of the scores other than "total" has its tile, with the
      value a read of that key gives. */
  lemma {:induction false} GridCoversScores(ms: Members, keys: seq<string>, key: string)
    requires forall k :: k in keys ==> k in Keys(ms)
    requires key in keys && key != "total"
    ensures exists k :: 0 <= k < |GridOf(ms, keys)| && GridOf(ms, keys)[k] == (key, Lookup(ms, key).value)
    decreases |keys|
  {
    var g := GridOf(ms, keys);
    if keys[0] == key {
      assert g[0] == (key, Lookup(ms, key).value);
    } else {
      GridCoversScores(ms, keys[1..], key);
      var rest := GridOf(ms, keys[1..]);
      var k :| 0 <= k < |rest| && rest[k] == (key, Lookup(ms, key).value);
      if keys[0] == "total" {
        assert g == rest;
      } else {
        assert g[k + 1] == rest[k];
      }
    }
  }

  /** `key.replace(/_/g, ' ')`. */
  function SpaceUnderscores(key: string): (r: string)
    ensures |r| == |key| && '_' !in r
    ensures forall i :: 0 <= i < |key| && key[i] != '_' ==> r[i] == key[i]
  {
    if key == [] then [] else [if key[0] == '_' then ' ' else key[0]] + SpaceUnderscores(key[1..])
  }

  /** One tile of the grid: the label, the badge variant and the rounded
      percentage of the entry's value. */
  datatype Tile = Tile(caption: string, variant: BadgeVariant, percent: Num)

  function TileOf(entry: (string, Json)): Tile {
    var v := ToNumber(Some(entry.1));
    Tile(SpaceUnderscores(entry.0), GetScoreBadgeVariant(v), RoundNum(Scale(v, 100.0)))
  }

  /** A dimension scored 0.9 or more shows the default badge and at least
      90%; one below 0.75 the outline badge and at most 75%. */
  lemma TileTiers(key: string, score: real)
    ensures var t := TileOf((key, JNum(score)));
            && (score >= 0.9 ==> t.variant == Default && t.percent.Num? && t.percent.r >= 90.0)
            && (score < 0.75 ==> t.variant == Outline && t.percent.Num? && t.percent.r <= 75.0)
  {
    var r := Round(score * 100.0);
    assert (score * 100.0 - 0.5) < r as real <= score * 100.0 + 0.5;
  }

  /** `x || 0` on a count. */
  function CountOrZero(v: Option<Json>): Num {
    if Truthy(v) then ToNumber(v) else Num(0.0)
  }

  /** The references line: shown when `references` is truthy, with
      `historical_count || 0` historical prompts and `kb_count || 0`
      knowledge-base patterns. */
  function ReferenceCounts(promptData: Json): (r: Option<(Num, Num)>)
    ensures r.None? <==> !Truthy(Get(Some(promptData), "references"))
    ensures r.Some? ==> r.value.0 == CountOrZero(Get(Get(Some(promptData), "references"), "historical_count"))
    ensures r.Some? ==> r.value.1 == CountOrZero(Get(Get(Some(promptData), "references"), "kb_count"))
  {
    var refs := Get(Some(promptData), "references");
    if !Truthy(refs) then None
    else Some((CountOrZero(Get(refs, "historical_count")), CountOrZero(Get(refs, "kb_count"))))
  }

  /** The generation response names its counts `kb_chunks` and
      `historical_prompts`, so the line always reads 0 and 0 for it. */
  lemma ServerReferencesShowZero(promptData: Json, kb: real, hp: real)
    requires Get(Some(promptData), "references") == Some(JObj([("kb_chunks", JNum(kb)), ("historical_prompts", JNum(hp))]))
    ensures ReferenceCounts(promptData) == Some((Num(0.0), Num(0.0)))
  {
    var ms := [("kb_chunks", JNum(kb)), ("historical_prompts", JNum(hp))];
    assert Keys(ms) == ["kb_chunks", "historical_prompts"];
  }

  // ---------------------------------------------------------------------------
  // Copy and download
  // ---------------------------------------------------------------------------

  /** The text handleCopy and handleDownload use: nothing when both
      `final_prompt` and `prompt` are falsy, else `final_prompt || prompt`. */
  function ExportText(promptData: Option<Json>): (r: Option<Json>)
    ensures r.None? <==> !Truthy(Get(promptData, "final_prompt")) && !Truthy(Get(promptData, "prompt"))
  {
    var fp := Get(promptData, "final_prompt");
    var p := Get(promptData, "prompt");
    if !Truthy(fp) && !Truthy(p) then None else Or(fp, p)
  }

  /** The generation response carries the artifact under `metaprompt` and
      has neither `final_prompt` nor `prompt`: stored as it is, it gives
      copy and download nothing to export. */
  lemma ServerResponseNotExported(ms: Members)
    requires Keys(ms) == ["type", "metaprompt", "datasets", "compliance", "citations", "scores",
                          "confidence", "latency_metrics", "id", "collected", "references"]
    ensures ExportText(Some(JObj(ms))).None?
  {
  }

  /** Whatever is exported is a truthy value: the final prompt when it has
      one, otherwise the plain prompt. */
  lemma ExportedTextIsPresent(promptData: Option<Json>)
    requires ExportText(promptData).Some?
    ensures Truthy(ExportText(promptData))
    ensures ExportText(promptData) == if Truthy(Get(promptData, "final_prompt")) then Get(promptData, "final_prompt") else Get(promptData, "prompt")
  {
  }
}
