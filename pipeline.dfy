/**
 * The generation pipeline and the request dispatch of the edge function.
 * Every database, embedding and AI-gateway call is an input: the dense and
 * keyword rows, the project's prompt records, the parsed replies of the
 * synthesis, grading, refinement and re-grading calls, whether the insert
 * of the prompt record succeeded, and the result of the history query.
 * JSON.parse is the parameter `parse`.
 */
module Pipeline {
  import opened Common
  import opened Json
  import opened Responses
  import opened Retrieval
  import opened Evidence
  import opened Extraction
  import opened Scoring
  import Interview
  import Validation

  /** `{ ...scores, composite }`: the grading object with the composite. */
  datatype FinalScores = FinalScores(dims: Members, composite: Num)

  // ---------------------------------------------------------------------------
  // Refinement
  // ---------------------------------------------------------------------------

  /** The try block around the refinement text: `finalResult` becomes the
      parsed greedy match, then gets the citations merged in; a text that is
      not a string, holds no `{...}` or does not parse leaves the original
      artifact, and a merge that throws leaves the parsed object unmerged. */
  function RefinedArtifact(metaResult: Members, cs: seq<Citation>, content: Option<Json>,
                           parse: string -> Option<Members>): Members
  {
    var t := TextOf(content);
    if t.None? then metaResult
    else
      var m := GreedyMatch(t.value);
      if m.None? || parse(m.value).None? then metaResult
      else
        var parsed := parse(m.value).value;
        var merged := MergeCitations(parsed, cs);
        if merged.Ok? then merged.value else parsed
  }

  /** The scores read from the re-grading reply: the parse of the reply's
      flat match when it has a message, string content and a match; None
      when any of these is missing or the parse throws. */
  function RegradeScores(regrade: Reply, parse: string -> Option<Members>): (r: Option<Members>)
    ensures r.Some? ==> regrade.Message? && TextOf(regrade.content).Some?
                        && FlatMatch(TextOf(regrade.content).value).Some?
    ensures (regrade.Message? && TextOf(regrade.content).Some? && FlatMatch(TextOf(regrade.content).value).Some?)
              ==> r == parse(FlatMatch(TextOf(regrade.content).value).value)
  {
    if regrade.NoMessage? then None
    else
      var t := TextOf(regrade.content);
      if t.None? then None
      else
        var m := FlatMatch(t.value);
        if m.None? then None else parse(m.value)
  }

  /** The outcome of the confidence gate: the final artifact and scores, or
      the TypeError raised when the refinement reply has no message. */
  function GateResult(metaResult: Members, scores: Members, cs: seq<Citation>,
                      refinement: Reply, regrade: Reply,
                      parse: string -> Option<Members>): (r: Result<(Members, FinalScores), Thrown>)
    ensures r.Err? <==> Gate(Composite(scores)) == RefineOnce && refinement.NoMessage?
    ensures r.Err? ==> r.error == RuntimeTypeError
  {
    var c := Composite(scores);
    var original := FinalScores(scores, c);
    if Gate(c) != RefineOnce then Ok((metaResult, original))
    else if refinement.NoMessage? then Err(RuntimeTypeError)
    else
      var refined := RefinedArtifact(metaResult, cs, refinement.content, parse);
      var ns := RegradeScores(regrade, parse);
      if ns.None? then Ok((refined, original))
      else
        var nc := Composite(ns.value);
        if AtLeast(nc, c.r + MinUplift) then Ok((refined, FinalScores(ns.value, nc)))
        else Ok((metaResult, original))
  }

  /** Step 7 as the handler runs it: `finalResult` and `finalScores` start
      as the graded artifact and are reassigned by at most one refinement
      pass; `passes` counts the refinement requests sent. */
  method RefinementGate(metaResult: Members, scores: Members, cs: seq<Citation>,
                        refinement: Reply, regrade: Reply, parse: string -> Option<Members>)
      returns (r: Result<(Members, FinalScores), Thrown>, passes: nat)
    ensures r == GateResult(metaResult, scores, cs, refinement, regrade, parse)
    ensures passes <= 1
    ensures passes == 1 <==> Gate(Composite(scores)) == RefineOnce
  {
    var compositeScore := Composite(scores);
    var finalResult := metaResult;
    var finalScores := FinalScores(scores, compositeScore);
    passes := 0;
    if Below(compositeScore, SkipRefineIfOver) && AtLeast(compositeScore, RefineMin) {
      passes := passes + 1;
      if refinement.NoMessage? {
        return Err(RuntimeTypeError), passes;
      }
      var refinedText := TextOf(refinement.content);
      if refinedText.Some? {
        var jsonMatch := GreedyMatch(refinedText.value);
        if jsonMatch.Some? && parse(jsonMatch.value).Some? {
          finalResult := parse(jsonMatch.value).value;
          var merged := MergeCitations(finalResult, cs);
          if merged.Ok? {
            finalResult := merged.value;
          }
        }
      }
      assert finalResult == RefinedArtifact(metaResult, cs, refinement.content, parse);
      var newScores := RegradeScores(regrade, parse);
      if newScores.Some? {
        var newComposite := Composite(newScores.value);
        if AtLeast(newComposite, compositeScore.r + MinUplift) {
          finalScores := FinalScores(newScores.value, newComposite);
        } else {
          finalResult := metaResult;
        }
      }
    }
    r := Ok((finalResult, finalScores));
  }

  /** Outside the band [0.60, 0.75) nothing is refined: below it the
      handler only logs, above it (and for NaN) it ships. */
  lemma NoRefinementOutsideBand(metaResult: Members, scores: Members, cs: seq<Citation>,
                                refinement: Reply, regrade: Reply, parse: string -> Option<Members>)
    requires !(AtLeast(Composite(scores), RefineMin) && Below(Composite(scores), SkipRefineIfOver))
    ensures GateResult(metaResult, scores, cs, refinement, regrade, parse)
            == Ok((metaResult, FinalScores(scores, Composite(scores))))
  {
  }

  /** The scores change only through a refinement whose re-grade lifts the
      composite by at least 0.02, so the final composite is never lower than
      the original. */
  lemma ScoresReplacedOnlyOnUplift(metaResult: Members, scores: Members, cs: seq<Citation>,
                                   refinement: Reply, regrade: Reply, parse: string -> Option<Members>)
    requires GateResult(metaResult, scores, cs, refinement, regrade, parse).Ok?
    ensures var (_, fs) := GateResult(metaResult, scores, cs, refinement, regrade, parse).value;
            (fs == FinalScores(scores, Composite(scores)))
            || (Gate(Composite(scores)) == RefineOnce
                && RegradeScores(regrade, parse) == Some(fs.dims)
                && fs.composite == Composite(fs.dims)
                && AtLeast(fs.composite, Composite(scores).r + MinUplift))
  {
  }

  /** A parsed re-grade with less uplift than 0.02 (or a NaN composite)
      discards the refined artifact as well. */
  lemma SmallUpliftReverts(metaResult: Members, scores: Members, cs: seq<Citation>,
                           refinement: Reply, regrade: Reply, parse: string -> Option<Members>)
    requires Gate(Composite(scores)) == RefineOnce && refinement.Message?
    requires RegradeScores(regrade, parse).Some?
    requires !AtLeast(Composite(RegradeScores(regrade, parse).value), Composite(scores).r + MinUplift)
    ensures GateResult(metaResult, scores, cs, refinement, regrade, parse)
            == Ok((metaResult, FinalScores(scores, Composite(scores))))
  {
  }

  /** A parsed re-grade that lifts the composite by at least 0.02 keeps the
      refined artifact together with the new scores. */
  lemma UpliftKeepsRefinement(metaResult: Members, scores: Members, cs: seq<Citation>,
                              refinement: Reply, regrade: Reply, parse: string -> Option<Members>)
    requires Gate(Composite(scores)) == RefineOnce && refinement.Message?
    requires RegradeScores(regrade, parse).Some?
    requires AtLeast(Composite(RegradeScores(regrade, parse).value), Composite(scores).r + MinUplift)
    ensures var ns := RegradeScores(regrade, parse).value;
            GateResult(metaResult, scores, cs, refinement, regrade, parse)
            == Ok((RefinedArtifact(metaResult, cs, refinement.content, parse),
                   FinalScores(ns, Composite(ns))))
  {
  }

  /** A composite of 0.70 refined to 0.705 is not enough: the original
      artifact and scores are kept. One refined to 0.72 is kept. */
  lemma UpliftScenario(metaResult: Members, scores: Members, cs: seq<Citation>,
                       refinement: Reply, regrade: Reply, parse: string -> Option<Members>)
    requires Composite(scores) == Num(0.70) && refinement.Message?
    requires RegradeScores(regrade, parse).Some?
    ensures var nc := Composite(RegradeScores(regrade, parse).value);
            var g := GateResult(metaResult, scores, cs, refinement, regrade, parse);
            (nc == Num(0.705) ==> g == Ok((metaResult, FinalScores(scores, Num(0.70)))))
            && (nc == Num(0.72) ==>
                  g == Ok((RefinedArtifact(metaResult, cs, refinement.content, parse),
                           FinalScores(RegradeScores(regrade, parse).value, Num(0.72)))))
  {
  }

  /** When the re-grade yields no parseable object, the refined artifact is
      kept with the scores of the original one. */
  lemma UnparsedRegradeKeepsRefined(metaResult: Members, scores: Members, cs: seq<Citation>,
                                    refinement: Reply, regrade: Reply, parse: string -> Option<Members>)
    requires Gate(Composite(scores)) == RefineOnce && refinement.Message?
    requires RegradeScores(regrade, parse).None?
    ensures GateResult(metaResult, scores, cs, refinement, regrade, parse)
            == Ok((RefinedArtifact(metaResult, cs, refinement.content, parse),
                   FinalScores(scores, Composite(scores))))
  {
  }

  /** A refinement reply that parses to an object with array citations gets
      the assembled citations appended to its own. */
  lemma RefinedCitationsMerged(metaResult: Members, cs: seq<Citation>, text: string,
                               parse: string -> Option<Members>, own: seq<Json>)
    requires GreedyMatch(text).Some? && parse(GreedyMatch(text).value).Some?
    requires Lookup(parse(GreedyMatch(text).value).value, "citations") == Some(JArr(own))
    ensures Lookup(RefinedArtifact(metaResult, cs, Some(JStr(text)), parse), "citations")
            == Some(JArr(own + CitationsJson(cs)))
  {
    assert Truthy(Some(JArr(own)));
  }

  /** A refinement reply whose citations are a number makes the merge
      throw inside the try block: the parsed object is kept, unmerged. */
  lemma RefinedMergeFailureKeepsParsed(metaResult: Members, cs: seq<Citation>, text: string,
                                       parse: string -> Option<Members>, n: real)
    requires GreedyMatch(text).Some? && parse(GreedyMatch(text).value).Some?
    requires Lookup(parse(GreedyMatch(text).value).value, "citations") == Some(JNum(n)) && n != 0.0
    ensures RefinedArtifact(metaResult, cs, Some(JStr(text)), parse) == parse(GreedyMatch(text).value).value
  {
    assert Truthy(Some(JNum(n)));
  }

  // ---------------------------------------------------------------------------
  // handleGenerate
  // ---------------------------------------------------------------------------

  /** What the handler received from the calls it makes while generating. */
  datatype GenerateInputs = GenerateInputs(
    dense: seq<Chunk>,          // the vector search rows; [] when embedding is off or fails
    keywordRows: seq<Chunk>,    // the keyword search rows
    records: seq<HistoricalRecord>, // the project's prompt records
    synthesis: Interview.Gateway,
    grading: Reply,
    refinement: Reply,
    regrade: Reply,
    stored: bool,               // whether the insert of the prompt record succeeded
    storedId: Option<Json>)     // `promptRecord?.id` of the inserted row

  /** The response of a successful generation. */
  datatype Generated = Generated(
    metaprompt: Option<Json>, datasets: Option<Json>, compliance: Option<Json>,
    citations: Option<Json>, scores: FinalScores, confidence: Option<Json>,
    id: Option<Json>, collected: map<string, string>,
    kbChunks: nat, historicalPrompts: nat)

  /** The keyword rows take part only when there is a keyword. */
  function SparseInput(c: map<string, string>, rows: seq<Chunk>): (r: seq<Chunk>)
    ensures Keywords(c) == [] ==> r == []
    ensures Keywords(c) != [] ==> r == SparseRows(rows)
  {
    if |Keywords(c)| > 0 then SparseRows(rows) else []
  }

  /** The reranked chunks of steps 1 and 2. */
  function Retrieved(c: map<string, string>, dense: seq<Chunk>, rows: seq<Chunk>): seq<Ranked> {
    Rerank(SortDesc(FusedEntries(dense, SparseInput(c, rows)), ScoreOf))
  }

  /** The body of the generation response: the artifact's fields, the final
      scores, the stored row's id, the validated fields echoed back, and the
      reference counts. */
  function Respond(result: Members, fs: FinalScores, kbChunks: nat, historicalPrompts: nat,
                   id: Option<Json>, c: map<string, string>): (g: Generated)
    ensures g.confidence == Or(Lookup(result, "confidence"), Lookup(fs.dims, "confidence"))
    ensures g.id == id && g.collected == c
  {
    Generated(Lookup(result, "metaprompt"), Lookup(result, "datasets"), Lookup(result, "compliance"),
              Lookup(result, "citations"), fs,
              Or(Lookup(result, "confidence"), Lookup(fs.dims, "confidence")),
              id, c, kbChunks, historicalPrompts)
  }

  const StoreFailure: string := "Failed to save prompt record"

  /** handleGenerate from the assembled citations to the response: `kb`
      chunks and `nh` historical records were used. */
  function Synthesize(cs: seq<Citation>, kb: nat, nh: nat, c: map<string, string>, g: GenerateInputs,
                      parse: string -> Option<Members>): Outcome<Generated>
  {
    match g.synthesis
    case Failed(status) => GatewayFailure(status, "Synthesis failed")
    case NoMessage => Threw(RuntimeTypeError)
    case Message(content) =>
      var merged := MergeCitations(ParseArtifact(content, parse), cs);
      if merged.Err? then Threw(merged.error)
      else GradeAndStore(merged.value, cs, kb, nh, c, g, parse)
  }

  /** Steps 6 to 9 on the validated artifact with its citations merged. */
  function GradeAndStore(metaResult: Members, cs: seq<Citation>, kb: nat, nh: nat,
                         c: map<string, string>, g: GenerateInputs,
                         parse: string -> Option<Members>): Outcome<Generated>
  {
    var gate := GateResult(metaResult, ParseGrades(g.grading, parse), cs, g.refinement, g.regrade, parse);
    if gate.Err? then Threw(gate.error)
    else if !g.stored then Threw(Error(StoreFailure))
    else Success(Respond(gate.value.0, gate.value.1, kb, nh, g.storedId, c))
  }

  /** handleGenerate: the evidence of steps 1 to 3, then the synthesis. */
  function GenerateResult(c: map<string, string>, g: GenerateInputs,
                          parse: string -> Option<Members>): Outcome<Generated>
  {
    var ranked := Retrieved(c, g.dense, g.keywordRows);
    var hs := HistoricalTop(g.records);
    if !AllHavePrompts(hs) then Threw(RuntimeTypeError)
    else Synthesize(KbCitations(ranked) + RecordCitations(hs), |ranked|, |hs|, c, g, parse)
  }

  /** Steps 1 and 2: fuse the dense and keyword rows, rerank, and take the
      best historical records. */
  method Retrieve(c: map<string, string>, g: GenerateInputs) returns (ranked: seq<Ranked>, hs: seq<HistoricalRecord>)
    ensures ranked == Retrieved(c, g.dense, g.keywordRows)
    ensures hs == HistoricalTop(g.records)
  {
    var keywords := Keywords(c);
    var sparseCandidates := if |keywords| > 0 then SparseRows(g.keywordRows) else [];
    var fused := Fuse(g.dense, sparseCandidates);
    ranked := Rerank(fused);
    hs := HistoricalTop(g.records);
  }

  /** Steps 4 to 9: synthesis, validation with the citation merge, grading,
      the gate, the store and the response. */
  method SynthesizeAndStore(citations: seq<Citation>, kb: nat, nh: nat,
                            c: map<string, string>, g: GenerateInputs,
                            parse: string -> Option<Members>) returns (o: Outcome<Generated>)
    ensures o == Synthesize(citations, kb, nh, c, g, parse)
  {
    match g.synthesis {
      case Failed(status) =>
        return GatewayFailure(status, "Synthesis failed");
      case NoMessage =>
        return Threw(RuntimeTypeError);
      case Message(rawContent) =>
        var metaResult := ParseArtifact(rawContent, parse);
        var merged := MergeCitations(metaResult, citations);
        if merged.Err? {
          return Threw(merged.error);
        }
        metaResult := merged.value;
        var scores := ParseGrades(g.grading, parse);
        var gate, _ := RefinementGate(metaResult, scores, citations, g.refinement, g.regrade, parse);
        if gate.Err? {
          return Threw(gate.error);
        }
        if !g.stored {
          return Threw(Error(StoreFailure));
        }
        var (finalResult, finalScores) := gate.value;
        return Success(Respond(finalResult, finalScores, kb, nh, g.storedId, c));
    }
  }

  /** The generation pipeline: retrieval, fusion, rerank, evidence, synthesis,
      validation, grading, the gate and the store. */
  method HandleGenerate(c: map<string, string>, g: GenerateInputs, parse: string -> Option<Members>)
      returns (o: Outcome<Generated>)
    ensures o == GenerateResult(c, g, parse)
  {
    var hybridResults, historicalPrompts := Retrieve(c, g);
    var context := Assemble(hybridResults, historicalPrompts);
    if context.Err? {
      return Threw(context.error);
    }
    o := SynthesizeAndStore(context.value.citations, |hybridResults|, |historicalPrompts|, c, g, parse);
  }

  /** The synthesis ends with 200, a passed-through 429 or 402, or a 500:
      none of its own failures is a client error. */
  lemma SynthesizeStatuses(cs: seq<Citation>, kb: nat, nh: nat, c: map<string, string>, g: GenerateInputs,
                           parse: string -> Option<Members>)
    ensures StatusOf(Synthesize(cs, kb, nh, c, g, parse)) in {200, 402, 429, 500}
  {
    match g.synthesis
    case Failed(status) =>
      GatewayFailureStatus<Generated>(status, "Synthesis failed");
    case NoMessage =>
      TypeErrorIs500();
    case Message(content) =>
      var merged := MergeCitations(ParseArtifact(content, parse), cs);
      if merged.Err? {
        TypeErrorIs500();
      } else {
        GradeAndStoreStatuses(merged.value, cs, kb, nh, c, g, parse);
      }
  }

  lemma GradeAndStoreStatuses(metaResult: Members, cs: seq<Citation>, kb: nat, nh: nat,
                              c: map<string, string>, g: GenerateInputs,
                              parse: string -> Option<Members>)
    ensures StatusOf(GradeAndStore(metaResult, cs, kb, nh, c, g, parse)) in {200, 500}
  {
    var gate := GateResult(metaResult, ParseGrades(g.grading, parse), cs, g.refinement, g.regrade, parse);
    if gate.Err? {
      TypeErrorIs500();
    } else if !g.stored {
      InternalMessagesAre500(StoreFailure);
    }
  }

  /** So does the whole generation. */
  lemma GenerateStatuses(c: map<string, string>, g: GenerateInputs, parse: string -> Option<Members>)
    ensures StatusOf(GenerateResult(c, g, parse)) in {200, 402, 429, 500}
  {
    var ranked := Retrieved(c, g.dense, g.keywordRows);
    var hs := HistoricalTop(g.records);
    GenerateUnfolds(c, g, parse);
    if AllHavePrompts(hs) {
      SynthesizeStatuses(KbCitations(ranked) + RecordCitations(hs), |ranked|, |hs|, c, g, parse);
    } else {
      TypeErrorIs500();
    }
  }

  lemma TypeErrorIs500()
    ensures StatusOf<Generated>(Threw(RuntimeTypeError)) == 500
  {
  }

  lemma GenerateUnfolds(c: map<string, string>, g: GenerateInputs, parse: string -> Option<Members>)
    ensures var ranked := Retrieved(c, g.dense, g.keywordRows);
            var hs := HistoricalTop(g.records);
            GenerateResult(c, g, parse)
            == if AllHavePrompts(hs) then Synthesize(KbCitations(ranked) + RecordCitations(hs), |ranked|, |hs|, c, g, parse)
               else Threw(RuntimeTypeError)
  {
  }

  /** A response never reports more than five chunks and three records. */
  lemma ReferencesBounded(c: map<string, string>, g: GenerateInputs, parse: string -> Option<Members>)
    requires GenerateResult(c, g, parse).Success?
    ensures GenerateResult(c, g, parse).value.kbChunks <= RerankTop
    ensures GenerateResult(c, g, parse).value.historicalPrompts <= HistoricalLimit
  {
    var ranked := Retrieved(c, g.dense, g.keywordRows);
    var hs := HistoricalTop(g.records);
    SynthesizedCounts(KbCitations(ranked) + RecordCitations(hs), |ranked|, |hs|, c, g, parse);
  }

  /** A successful generation echoes the validated fields it was given
      under `collected` and the stored row's id under `id`. */
  lemma GenerateEchoesRequest(c: map<string, string>, g: GenerateInputs, parse: string -> Option<Members>)
    requires GenerateResult(c, g, parse).Success?
    ensures GenerateResult(c, g, parse).value.collected == c
    ensures GenerateResult(c, g, parse).value.id == g.storedId
  {
    var ranked := Retrieved(c, g.dense, g.keywordRows);
    var hs := HistoricalTop(g.records);
    SynthesizedCounts(KbCitations(ranked) + RecordCitations(hs), |ranked|, |hs|, c, g, parse);
  }

  lemma SynthesizedCounts(cs: seq<Citation>, kb: nat, nh: nat, c: map<string, string>, g: GenerateInputs,
                          parse: string -> Option<Members>)
    requires Synthesize(cs, kb, nh, c, g, parse).Success?
    ensures Synthesize(cs, kb, nh, c, g, parse).value.kbChunks == kb
    ensures Synthesize(cs, kb, nh, c, g, parse).value.historicalPrompts == nh
    ensures Synthesize(cs, kb, nh, c, g, parse).value.collected == c
    ensures Synthesize(cs, kb, nh, c, g, parse).value.id == g.storedId
  {
    var content := g.synthesis.content;
    var merged := MergeCitations(ParseArtifact(content, parse), cs);
    GradeAndStoreCounts(merged.value, cs, kb, nh, c, g, parse);
  }

  lemma GradeAndStoreCounts(metaResult: Members, cs: seq<Citation>, kb: nat, nh: nat,
                            c: map<string, string>, g: GenerateInputs,
                            parse: string -> Option<Members>)
    requires GradeAndStore(metaResult, cs, kb, nh, c, g, parse).Success?
    ensures GradeAndStore(metaResult, cs, kb, nh, c, g, parse).value.kbChunks == kb
    ensures GradeAndStore(metaResult, cs, kb, nh, c, g, parse).value.historicalPrompts == nh
    ensures GradeAndStore(metaResult, cs, kb, nh, c, g, parse).value.collected == c
    ensures GradeAndStore(metaResult, cs, kb, nh, c, g, parse).value.id == g.storedId
  {
  }

  /** With a synthesis text holding no `{` and a grading reply that does
      not parse, the response carries the fallback artifact graded with the
      default scores: composite 0.8475, no refinement, confidence 0.5, and
      exactly the assembled citations. */
  lemma FallbackSynthesis(cs: seq<Citation>, kb: nat, nh: nat,
                          c: map<string, string>, g: GenerateInputs, text: string,
                          parse: string -> Option<Members>)
    requires g.synthesis == Interview.Message(Some(JStr(text))) && '{' !in text
    requires ParseGrades(g.grading, parse) == DefaultScores
    requires g.stored
    ensures var o := Synthesize(cs, kb, nh, c, g, parse);
            o.Success?
            && o.value.scores == FinalScores(DefaultScores, Num(0.8475))
            && o.value.confidence == Some(JNum(0.5))
            && o.value.citations == Some(JArr(CitationsJson(cs)))
  {
    NoBracesGivesFallback(text, parse);
    var merged := FallbackMerged(cs);
    assert MergeCitations(ParseArtifact(Some(JStr(text)), parse), cs) == Ok(merged);
    assert Synthesize(cs, kb, nh, c, g, parse) == GradeAndStore(merged, cs, kb, nh, c, g, parse);
    DefaultGradesShip(merged, cs, kb, nh, c, g, parse);
    FallbackResponse(merged, cs, kb, nh, g.storedId, c);
  }

  lemma FallbackResponse(merged: Members, cs: seq<Citation>, kb: nat, nh: nat,
                         id: Option<Json>, c: map<string, string>)
    requires Lookup(merged, "citations") == Some(JArr(CitationsJson(cs)))
    requires Lookup(merged, "confidence") == Some(JNum(0.5))
    ensures var r := Respond(merged, FinalScores(DefaultScores, Num(0.8475)), kb, nh, id, c);
            && r.scores == FinalScores(DefaultScores, Num(0.8475))
            && r.confidence == Some(JNum(0.5))
            && r.citations == Some(JArr(CitationsJson(cs)))
  {
  }

  /** The fallback artifact with the assembled citations merged in. */
  lemma FallbackMerged(cs: seq<Citation>) returns (merged: Members)
    ensures MergeCitations(FallbackArtifact, cs) == Ok(merged)
    ensures Lookup(merged, "citations") == Some(JArr(CitationsJson(cs)))
    ensures Lookup(merged, "confidence") == Some(JNum(0.5))
  {
    FallbackShape();
    assert Truthy(Some(JArr([])));
    assert [] + CitationsJson(cs) == CitationsJson(cs);
    merged := Assign(FallbackArtifact, "citations", JArr(CitationsJson(cs)));
  }

  /** Default scores never trigger the refinement: the artifact is stored
      and returned as it is, with the composite 0.8475. */
  lemma DefaultGradesShip(metaResult: Members, cs: seq<Citation>, kb: nat, nh: nat,
                          c: map<string, string>, g: GenerateInputs,
                          parse: string -> Option<Members>)
    requires ParseGrades(g.grading, parse) == DefaultScores && g.stored
    ensures GradeAndStore(metaResult, cs, kb, nh, c, g, parse)
            == Success(Respond(metaResult, FinalScores(DefaultScores, Num(0.8475)), kb, nh, g.storedId, c))
  {
    DefaultComposite();
    assert Gate(Num(0.8475)) == ShipAsIs;
  }

  // ---------------------------------------------------------------------------
  // The request handler
  // ---------------------------------------------------------------------------

  /** The result of verifyConversationOwnership's query. */
  datatype Ownership = QueryFailed | NotOwned | Owned

  datatype Response =
    | InterviewResponse(reply: Interview.InterviewReply)
    | GeneratedResponse(generated: Generated)
    | HistoryResponse(prompts: seq<Json>)

  function InterviewOutcome(o: Outcome<Interview.InterviewReply>): Outcome<Response> {
    match o
    case Success(v) => Success(InterviewResponse(v))
    case Upstream(s, m) => Upstream(s, m)
    case Threw(e) => Threw(e)
  }

  function GeneratedOutcome(o: Outcome<Generated>): Outcome<Response> {
    match o
    case Success(v) => Success(GeneratedResponse(v))
    case Upstream(s, m) => Upstream(s, m)
    case Threw(e) => Threw(e)
  }

  /** The `collected = {}` default of the destructuring: only a missing
      property takes it. */
  function CollectedOf(request: Members): Json {
    var v := Lookup(request, "collected");
    if v.Some? then v.value else JObj([])
  }

  predicate IsAction(request: Members, name: string) {
    Lookup(request, "action") == Some(JStr(name))
  }

  /** The `switch (action)` once the user is known and `collected` is
      validated, given what the interview and the generation would produce.
      The project id is only tested for truthiness; ownership is checked for
      the conversation alone. */
  function Dispatch(request: Members, ownership: Ownership, interview: Outcome<Interview.InterviewReply>,
                    generated: Outcome<Generated>, history: Option<seq<Json>>): Outcome<Response>
  {
    if IsAction(request, "interview") then InterviewOutcome(interview)
    else if IsAction(request, "generate") then
      if !Truthy(Lookup(request, "project_id")) then Threw(Error("project_id required"))
      else if !Truthy(Lookup(request, "conversation_id")) then Threw(Error("conversation_id required"))
      else
        var id := Validation.ValidateUUID(Lookup(request, "conversation_id"), "conversation_id");
        if id.Err? then Threw(Error(id.error))
        else match ownership
          case QueryFailed => Threw(Error("Failed to verify conversation access"))
          case NotOwned => Threw(Error("Conversation not found or access denied"))
          case Owned => GeneratedOutcome(generated)
    else if IsAction(request, "get_history") then
      if !Truthy(Lookup(request, "project_id")) then Threw(Error("project_id required"))
      else if history.None? then Threw(NonError)
      else Success(HistoryResponse(history.value))
    else Threw(Error("Invalid action"))
  }

  /** The handler body inside its try block: authentication, the
      validation of `collected`, then the dispatch on `action`. */
  method HandleRequest(authorized: bool, request: Members, ownership: Ownership,
                       interviewReply: Interview.Gateway, g: GenerateInputs,
                       history: Option<seq<Json>>, parse: string -> Option<Members>)
      returns (o: Outcome<Response>)
    ensures !authorized ==> o == Threw(Error("Unauthorized"))
    ensures authorized && !(CollectedOf(request).JObj? || CollectedOf(request).JArr?) ==>
              o == Threw(Error("Collected must be object"))
    ensures authorized && (CollectedOf(request).JObj? || CollectedOf(request).JArr?) ==>
              var ms := Validation.ForInMembers(CollectedOf(request));
              && ((forall i :: 0 <= i < |ms| ==> Validation.ValidMember(ms[i])) ==>
                    var c := Validation.ValidatedPrefix(ms, |ms|);
                    o == Dispatch(request, ownership, Interview.HandleInterview(c, interviewReply),
                                  GenerateResult(c, g, parse), history))
              && (!(forall i :: 0 <= i < |ms| ==> Validation.ValidMember(ms[i])) ==>
                    exists i :: 0 <= i < |ms| && Validation.FirstInvalidAt(ms, i)
                      && o.Threw? && o.thrown.Error?
                      && Err(o.thrown.message) == Validation.ValidateString(Some(ms[i].1), Validation.CollectedMaxLength, ms[i].0))
  {
    if !authorized {
      return Threw(Error("Unauthorized"));
    }
    var validated := Validation.ValidateCollected(CollectedOf(request));
    if validated.Err? {
      return Threw(Error(validated.error));
    }
    var c := validated.value;
    if IsAction(request, "interview") {
      o := InterviewOutcome(Interview.HandleInterview(c, interviewReply));
    } else if IsAction(request, "generate") {
      if !Truthy(Lookup(request, "project_id")) {
        return Threw(Error("project_id required"));
      }
      if !Truthy(Lookup(request, "conversation_id")) {
        return Threw(Error("conversation_id required"));
      }
      var id := Validation.ValidateUUID(Lookup(request, "conversation_id"), "conversation_id");
      if id.Err? {
        return Threw(Error(id.error));
      }
      match ownership {
        case QueryFailed => return Threw(Error("Failed to verify conversation access"));
        case NotOwned => return Threw(Error("Conversation not found or access denied"));
        case Owned =>
          var generated := HandleGenerate(c, g, parse);
          o := GeneratedOutcome(generated);
      }
    } else if IsAction(request, "get_history") {
      if !Truthy(Lookup(request, "project_id")) {
        return Threw(Error("project_id required"));
      }
      if history.None? {
        return Threw(NonError);
      }
      o := Success(HistoryResponse(history.value));
    } else {
      o := Threw(Error("Invalid action"));
    }
  }

  /** The statuses the dispatch produces for its own failures: a missing
      project is a 400, a conversation owned by someone else a 403, an
      unknown action and a failed history query a 500. */
  lemma DispatchFailureStatuses(request: Members, ownership: Ownership, interview: Outcome<Interview.InterviewReply>,
                                generated: Outcome<Generated>, history: Option<seq<Json>>)
    ensures var o := Dispatch(request, ownership, interview, generated, history);
            && (((IsAction(request, "generate") || IsAction(request, "get_history"))
                 && !Truthy(Lookup(request, "project_id"))) ==> StatusOf(o) == 400)
            && ((!IsAction(request, "interview") && !IsAction(request, "generate")
                 && !IsAction(request, "get_history")) ==> StatusOf(o) == 500)
            && ((IsAction(request, "get_history") && Truthy(Lookup(request, "project_id"))
                 && history.None?) ==> StatusOf(o) == 500)
            && ((IsAction(request, "generate") && Truthy(Lookup(request, "project_id"))
                 && Truthy(Lookup(request, "conversation_id"))
                 && Validation.ValidateUUID(Lookup(request, "conversation_id"), "conversation_id").Ok?
                 && ownership == NotOwned) ==> StatusOf(o) == 403)
  {
    MissingProjectIs400();
    InternalMessagesAre500("Invalid action");
    NotOwnedIs403();
  }

  /** A request whose conversation belongs to the user reaches the pipeline
      and ends with 200, 402, 429 or 500. */
  lemma OwnedGenerateStatuses(request: Members, interview: Outcome<Interview.InterviewReply>,
                              c: map<string, string>, g: GenerateInputs, history: Option<seq<Json>>,
                              parse: string -> Option<Members>)
    requires IsAction(request, "generate")
    requires Truthy(Lookup(request, "project_id")) && Truthy(Lookup(request, "conversation_id"))
    requires Validation.ValidateUUID(Lookup(request, "conversation_id"), "conversation_id").Ok?
    ensures StatusOf(Dispatch(request, Owned, interview, GenerateResult(c, g, parse), history)) in {200, 402, 429, 500}
  {
    var generated := GenerateResult(c, g, parse);
    assert !IsAction(request, "interview");
    assert Dispatch(request, Owned, interview, generated, history) == GeneratedOutcome(generated);
    GenerateStatuses(c, g, parse);
    LiftedStatus(generated);
  }

  lemma LiftedStatus(o: Outcome<Generated>)
    ensures StatusOf(GeneratedOutcome(o)) == StatusOf(o)
  {
  }
}
