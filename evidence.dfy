/**
 * Context assembly of the generation step: one evidence entry and one
 * citation per reranked chunk, then one of each per historical prompt, and
 * the merge of these citations after the ones the model wrote itself.
 * Citations are JSON objects `{uri, version, hash, source}`.
 */
module Evidence {
  import opened Common
  import opened Json
  import opened Responses
  import opened Retrieval

  const CitationVersion: string := "1.0"
  const ChunkScheme: string := "kb://chunk/"
  const RecordScheme: string := "prompt://record/"
  const HistoricalSource: string := "historical_prompt"
  /** The length of the hash: the first eight characters of the id. */
  const HashLength: nat := 8
  /** The length of the excerpt of a historical prompt. */
  const ExcerptLength: nat := 400

  /** A citation; the source is None when the chunk row's source name is
      null. */
  datatype Citation = Citation(uri: string, version: string, hash: string, source: Option<string>)

  /** An evidence entry: a knowledge-base chunk with its 1-based rank, its
      heading and text, or a historical prompt with its rank and excerpt. The
      scores the entries print with two decimals are not part of them. */
  datatype EvidenceEntry =
    | KbEntry(rank: nat, heading: string, text: string)
    | HistoricalEntry(rank: nat, excerpt: string)

  function ChunkCitation(c: Chunk): (r: Citation)
    ensures r.uri == ChunkScheme + c.id && r.version == CitationVersion
    ensures r.hash == Prefix(c.id, HashLength) && r.source == c.sourceName
  {
    Citation(ChunkScheme + c.id, CitationVersion, Prefix(c.id, HashLength), c.sourceName)
  }

  function RecordCitation(h: HistoricalRecord): (r: Citation)
    ensures r.uri == RecordScheme + h.id && r.version == CitationVersion
    ensures r.hash == Prefix(h.id, HashLength) && r.source == Some(HistoricalSource)
  {
    Citation(RecordScheme + h.id, CitationVersion, Prefix(h.id, HashLength), Some(HistoricalSource))
  }

  /** The id a citation URI names, when it has the given scheme. */
  function IdOfUri(scheme: string, uri: string): Option<string> {
    if |scheme| <= |uri| && uri[..|scheme|] == scheme then Some(uri[|scheme|..]) else None
  }

  /** The URI of a citation gives back the id it was built from, and the
      two schemes never mix. */
  lemma UriRoundTrip(c: Chunk, h: HistoricalRecord)
    ensures IdOfUri(ChunkScheme, ChunkCitation(c).uri) == Some(c.id)
    ensures IdOfUri(RecordScheme, RecordCitation(h).uri) == Some(h.id)
    ensures IdOfUri(RecordScheme, ChunkCitation(c).uri).None?
    ensures IdOfUri(ChunkScheme, RecordCitation(h).uri).None?
  {
    var u := ChunkCitation(c).uri;
    assert u[..|ChunkScheme|] == ChunkScheme;
    assert u[|ChunkScheme|..] == c.id;
    var v := RecordCitation(h).uri;
    assert v[..|RecordScheme|] == RecordScheme;
    assert v[|RecordScheme|..] == h.id;
    if |RecordScheme| <= |u| {
      assert u[0] == 'k';
    }
    assert v[0] == 'p';
  }

  /** The JSON object a citation is pushed as. */
  function CitationJson(c: Citation): Json {
    JObj([("uri", JStr(c.uri)), ("version", JStr(c.version)), ("hash", JStr(c.hash)),
          ("source", if c.source.Some? then JStr(c.source.value) else JNull)])
  }

  /** Reads a citation back from its JSON object. */
  function ParseCitation(j: Json): Option<Citation> {
    if !j.JObj? then None
    else
      var uri := Lookup(j.members, "uri");
      var version := Lookup(j.members, "version");
      var hash := Lookup(j.members, "hash");
      var source := Lookup(j.members, "source");
      if uri.Some? && uri.value.JStr? && version.Some? && version.value.JStr?
         && hash.Some? && hash.value.JStr? && source.Some? && (source.value.JStr? || source.value.JNull?)
      then Some(Citation(uri.value.s, version.value.s, hash.value.s,
                         if source.value.JStr? then Some(source.value.s) else None))
      else None
  }

  lemma CitationJsonRoundTrip(c: Citation)
    ensures ParseCitation(CitationJson(c)) == Some(c)
  {
    var a := ("uri", JStr(c.uri));
    var b := ("version", JStr(c.version));
    var h := ("hash", JStr(c.hash));
    var d := ("source", if c.source.Some? then JStr(c.source.value) else JNull);
    LookupOfFour(a, b, h, d);
  }

  /** Lookups in a four-member object with distinct keys. */
  lemma LookupOfFour(a: (string, Json), b: (string, Json), c: (string, Json), d: (string, Json))
    requires a.0 != b.0 && a.0 != c.0 && a.0 != d.0 && b.0 != c.0 && b.0 != d.0 && c.0 != d.0
    ensures var ms := [a, b, c, d];
            Lookup(ms, a.0) == Some(a.1) && Lookup(ms, b.0) == Some(b.1)
            && Lookup(ms, c.0) == Some(c.1) && Lookup(ms, d.0) == Some(d.1)
  {
    var ms := [a, b, c, d];
    assert ms[..3] == [a, b, c];
    assert [a, b, c][..2] == [a, b];
    assert [a, b][..1] == [a];
    assert Lookup([a], a.0) == Some(a.1);
    assert Lookup([a, b], a.0) == Some(a.1);
    assert Lookup([a, b], b.0) == Some(b.1);
    assert Lookup([a, b, c], a.0) == Some(a.1);
    assert Lookup([a, b, c], b.0) == Some(b.1);
  }

  /** `source_name || 'KB'`. */
  function Label(c: Chunk): (l: string)
    ensures TruthyStr(c.sourceName) ==> l == c.sourceName.value
    ensures !TruthyStr(c.sourceName) ==> l == "KB"
  {
    if TruthyStr(c.sourceName) then c.sourceName.value else "KB"
  }

  /** `synthesized_prompt.substring(0, 400) + "..."`. */
  function Excerpt(p: string): (e: string)
    ensures |e| == Min(ExcerptLength, |p|) + 3
    ensures e == Prefix(p, ExcerptLength) + "..."
  {
    Prefix(p, ExcerptLength) + "..."
  }

  /** The evidence and citations of the context, in the order they are
      pushed. */
  datatype Context = Context(entries: seq<EvidenceEntry>, citations: seq<Citation>)

  /** The knowledge-base part: entry `i` and citation `i` describe
      reranked chunk `i`. */
  function KbCitations(rs: seq<Ranked>): (r: seq<Citation>)
    ensures |r| == |rs| && forall i :: 0 <= i < |rs| ==> r[i] == ChunkCitation(rs[i].candidate.chunk)
  {
    seq(|rs|, i requires 0 <= i < |rs| => ChunkCitation(rs[i].candidate.chunk))
  }

  function KbEntries(rs: seq<Ranked>): (r: seq<EvidenceEntry>)
    ensures |r| == |rs|
    ensures forall i :: 0 <= i < |rs| ==>
              r[i] == KbEntry(i + 1, Label(rs[i].candidate.chunk), rs[i].candidate.chunk.text)
  {
    seq(|rs|, i requires 0 <= i < |rs| => KbEntry(i + 1, Label(rs[i].candidate.chunk), rs[i].candidate.chunk.text))
  }

  predicate AllHavePrompts(hs: seq<HistoricalRecord>) {
    forall i :: 0 <= i < |hs| ==> hs[i].synthesizedPrompt.Some?
  }

  function RecordCitations(hs: seq<HistoricalRecord>): (r: seq<Citation>)
    ensures |r| == |hs| && forall i :: 0 <= i < |hs| ==> r[i] == RecordCitation(hs[i])
  {
    seq(|hs|, i requires 0 <= i < |hs| => RecordCitation(hs[i]))
  }

  function HistoricalEntries(hs: seq<HistoricalRecord>): (r: seq<EvidenceEntry>)
    requires AllHavePrompts(hs)
    ensures |r| == |hs|
    ensures forall i :: 0 <= i < |hs| ==> r[i] == HistoricalEntry(i + 1, Excerpt(hs[i].synthesizedPrompt.value))
  {
    seq(|hs|, i requires 0 <= i < |hs| => HistoricalEntry(i + 1, Excerpt(hs[i].synthesizedPrompt.value)))
  }

  /** The two forEach loops. A historical record without a synthesized
      prompt makes `substring` fail on null, so the whole step throws. */
  method Assemble(ranked: seq<Ranked>, hs: seq<HistoricalRecord>) returns (r: Result<Context, Thrown>)
    ensures r.Ok? <==> AllHavePrompts(hs)
    ensures r.Err? ==> r.error == RuntimeTypeError
    ensures r.Ok? ==> r.value.entries == KbEntries(ranked) + HistoricalEntries(hs)
    ensures r.Ok? ==> r.value.citations == KbCitations(ranked) + RecordCitations(hs)
  {
    var entries: seq<EvidenceEntry> := [];
    var citations: seq<Citation> := [];
    var i := 0;
    while i < |ranked|
      invariant 0 <= i <= |ranked|
      invariant entries == KbEntries(ranked[..i])
      invariant citations == KbCitations(ranked[..i])
    {
      var chunk := ranked[i].candidate.chunk;
      entries := entries + [KbEntry(i + 1, Label(chunk), chunk.text)];
      citations := citations + [ChunkCitation(chunk)];
      i := i + 1;
    }
    assert ranked[..i] == ranked;
    var j := 0;
    while j < |hs|
      invariant 0 <= j <= |hs|
      invariant AllHavePrompts(hs[..j])
      invariant entries == KbEntries(ranked) + HistoricalEntries(hs[..j])
      invariant citations == KbCitations(ranked) + RecordCitations(hs[..j])
    {
      var h := hs[j];
      if h.synthesizedPrompt.None? {
        return Err(RuntimeTypeError);
      }
      assert AllHavePrompts(hs[..j + 1]);
      entries := entries + [HistoricalEntry(j + 1, Excerpt(h.synthesizedPrompt.value))];
      citations := citations + [RecordCitation(h)];
      j := j + 1;
    }
    assert hs[..j] == hs;
    return Ok(Context(entries, citations));
  }

  /** One citation per reranked chunk, then one per historical prompt: the
      count is the sum, the first part points at chunks and the second at
      records, all with version "1.0" and an eight-character hash prefix. */
  lemma CitationsInOrder(ranked: seq<Ranked>, hs: seq<HistoricalRecord>)
    ensures var cs := KbCitations(ranked) + RecordCitations(hs);
            |cs| == |ranked| + |hs|
            && (forall i :: 0 <= i < |ranked| ==>
                  IdOfUri(ChunkScheme, cs[i].uri) == Some(ranked[i].candidate.chunk.id))
            && (forall i :: |ranked| <= i < |cs| ==>
                  IdOfUri(RecordScheme, cs[i].uri) == Some(hs[i - |ranked|].id))
            && (forall i :: 0 <= i < |cs| ==> cs[i].version == "1.0" && |cs[i].hash| <= 8)
  {
    var cs := KbCitations(ranked) + RecordCitations(hs);
    forall i | 0 <= i < |ranked|
      ensures IdOfUri(ChunkScheme, cs[i].uri) == Some(ranked[i].candidate.chunk.id)
    {
      UriRoundTrip(ranked[i].candidate.chunk, HistoricalRecord("", None, 0.0));
    }
    forall i | |ranked| <= i < |cs|
      ensures IdOfUri(RecordScheme, cs[i].uri) == Some(hs[i - |ranked|].id)
    {
      UriRoundTrip(Chunk("", "", None, 0.0), hs[i - |ranked|]);
    }
  }

  // ---------------------------------------------------------------------------
  // Citation merge
  // ---------------------------------------------------------------------------

  /** The elements `[...x]` spreads: an array's items, a string's characters
      (each a one-character string); any other value is not iterable and the
      spread throws a TypeError. */
  function Spread(v: Json): (r: Result<seq<Json>, Thrown>)
    ensures r.Err? <==> !(v.JArr? || v.JStr?)
    ensures r.Err? ==> r.error == RuntimeTypeError
    ensures v.JArr? ==> r == Ok(v.items)
    ensures v.JStr? ==> r.Ok? && |r.value| == |v.s|
    ensures v.JStr? ==> forall i :: 0 <= i < |v.s| ==> r.value[i] == JStr([v.s[i]])
  {
    match v
    case JArr(items) => Ok(items)
    case JStr(s) => Ok(seq(|s|, i requires 0 <= i < |s| => JStr([s[i]])))
    case _ => Err(RuntimeTypeError)
  }

  function CitationsJson(cs: seq<Citation>): (r: seq<Json>)
    ensures |r| == |cs| && forall i :: 0 <= i < |cs| ==> r[i] == CitationJson(cs[i])
  {
    seq(|cs|, i requires 0 <= i < |cs| => CitationJson(cs[i]))
  }

  /** `result.citations = [...(result.citations || []), ...citations]`: the
      model's own citations (none when the property is falsy) followed by the
      assembled ones; every other property is left alone. */
  function MergeCitations(result: Members, cs: seq<Citation>): (r: Result<Members, Thrown>)
    ensures !Truthy(Lookup(result, "citations")) ==>
              r == Ok(Assign(result, "citations", JArr(CitationsJson(cs))))
    ensures Truthy(Lookup(result, "citations")) ==>
              var own := Lookup(result, "citations").value;
              && (r.Ok? <==> own.JArr? || own.JStr?)
              && (r.Err? ==> r.error == RuntimeTypeError)
              && (own.JArr? ==> r == Ok(Assign(result, "citations", JArr(own.items + CitationsJson(cs)))))
              && (own.JStr? ==> r == Ok(Assign(result, "citations", JArr(Spread(own).value + CitationsJson(cs)))))
    ensures r.Ok? ==> forall k :: k != "citations" ==> Lookup(r.value, k) == Lookup(result, k)
  {
    var own := Lookup(result, "citations");
    var spread := if Truthy(own) then Spread(own.value) else Ok([]);
    assert [] + CitationsJson(cs) == CitationsJson(cs);
    match spread
    case Ok(items) => Ok(Assign(result, "citations", JArr(items + CitationsJson(cs))))
    case Err(e) => Err(e)
  }

  /** The citations of a merged result read back as the model's own ones
      followed by the assembled list. */
  lemma MergedCitationsReadBack(result: Members, own: seq<Json>, cs: seq<Citation>)
    requires Lookup(result, "citations") == Some(JArr(own))
    ensures MergeCitations(result, cs).Ok?
    ensures var merged := Lookup(MergeCitations(result, cs).value, "citations").value.items;
            |merged| == |own| + |cs| && merged[..|own|] == own
            && forall i :: 0 <= i < |cs| ==> ParseCitation(merged[|own| + i]) == Some(cs[i])
  {
    var merged := own + CitationsJson(cs);
    assert Truthy(Lookup(result, "citations"));
    assert MergeCitations(result, cs) == Ok(Assign(result, "citations", JArr(merged)));
    forall i | 0 <= i < |cs| ensures ParseCitation(merged[|own| + i]) == Some(cs[i]) {
      CitationJsonRoundTrip(cs[i]);
    }
  }

  /** Merging twice (the refinement path merges the already-merged
      citations again when the model echoes them) repeats the assembled
      list. */
  lemma MergeTwiceRepeats(result: Members, own: seq<Json>, cs: seq<Citation>)
    requires Lookup(result, "citations") == Some(JArr(own))
    ensures MergeCitations(result, cs).Ok?
    ensures var once := MergeCitations(result, cs).value;
            MergeCitations(once, cs).Ok?
            && Lookup(MergeCitations(once, cs).value, "citations")
               == Some(JArr(own + CitationsJson(cs) + CitationsJson(cs)))
  {
    assert Truthy(Some(JArr(own)));
    var once := MergeCitations(result, cs).value;
    var x := own + CitationsJson(cs);
    assert Lookup(once, "citations") == Some(JArr(x));
    assert Truthy(Some(JArr(x)));
    assert MergeCitations(once, cs) == Ok(Assign(once, "citations", JArr(x + CitationsJson(cs))));
  }
}
