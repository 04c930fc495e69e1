/**
 * Hybrid retrieval of the generation step: the search terms and keywords
 * built from the collected fields, the fusion of dense (vector) and sparse
 * (keyword) candidates into one id-keyed map, the heuristic rerank with its
 * source-name boosts and top-5 cut, and the historical top performers. The
 * embedding call, the vector RPC and the database queries are left out;
 * their result rows are the inputs here.
 */
module Retrieval {
  import opened Common
  import opened Json

  /** hybrid_lambda: the share of the dense similarity in a fused score. */
  const Lambda: real := 0.65
  /** rerank_top. */
  const RerankTop: nat := 5
  /** The similarity every keyword hit is given. */
  const SparseSimilarity: real := 0.6
  /** The score bound of the historical-prompt query. */
  const HistoricalMinScore: real := 0.75
  const HistoricalLimit: nat := 3

  // ---------------------------------------------------------------------------
  // Search terms and keywords
  // ---------------------------------------------------------------------------

  /** `collected.X || ''` on the validated dictionary. */
  function Field(c: map<string, string>, f: string): string {
    if f in c then c[f] else ""
  }

  /** Goal, Audience and Output_Format joined by spaces, lowercased. */
  function SearchTerms(c: map<string, string>): (r: string)
    ensures r == ToLower(Field(c, "Goal") + " " + Field(c, "Audience") + " " + Field(c, "Output_Format"))
    ensures forall i :: 0 <= i < |r| ==> !('A' <= r[i] <= 'Z')
  {
    ToLower(Field(c, "Goal") + " " + Field(c, "Audience") + " " + Field(c, "Output_Format"))
  }

  predicate NoWhitespace(s: string) {
    forall i :: 0 <= i < |s| ==> !IsWhitespace(s[i])
  }

  /** The length of the run of non-whitespace characters `s` starts with. */
  function RunLength(s: string): (n: nat)
    ensures n <= |s| && NoWhitespace(s[..n])
    ensures n < |s| ==> IsWhitespace(s[n])
  {
    if s == [] || IsWhitespace(s[0]) then 0
    else
      var n := RunLength(s[1..]);
      assert s[..n + 1] == [s[0]] + s[1..][..n];
      n + 1
  }

  /** The maximal runs of non-whitespace characters, in order. This is what
      `split(/\s+/)` yields once its empty pieces (before leading or after
      trailing whitespace) are dropped, which the length filter below does
      in any case. */
  function Words(s: string): (r: seq<string>)
    ensures forall w :: w in r ==> |w| > 0 && NoWhitespace(w)
    decreases |s|
  {
    if s == [] then []
    else if IsWhitespace(s[0]) then Words(s[1..])
    else
      var n := RunLength(s);
      [s[..n]] + Words(s[n..])
  }

  /** Words separated by single spaces. */
  function JoinSpaces(ws: seq<string>): string {
    if ws == [] then ""
    else if |ws| == 1 then ws[0]
    else ws[0] + " " + JoinSpaces(ws[1..])
  }

  lemma RunOfWord(w: string, rest: string)
    requires |w| > 0 && NoWhitespace(w)
    requires rest == [] || IsWhitespace(rest[0])
    ensures RunLength(w + rest) == |w|
    decreases |w|
  {
    var s := w + rest;
    assert s[0] == w[0];
    if |w| > 1 {
      assert s[1..] == w[1..] + rest;
      RunOfWord(w[1..], rest);
    } else {
      assert s[1..] == rest;
    }
  }

  /** Splitting the spaced-out words gives the words back. */
  lemma {:induction false} WordsOfJoin(ws: seq<string>)
    requires forall i :: 0 <= i < |ws| ==> |ws[i]| > 0 && NoWhitespace(ws[i])
    ensures Words(JoinSpaces(ws)) == ws
  {
    if |ws| == 1 {
      RunOfWord(ws[0], "");
      assert ws[0] + "" == ws[0];
      assert ws[0][|ws[0]|..] == [];
    } else if |ws| > 1 {
      var rest := JoinSpaces(ws[1..]);
      var s := ws[0] + " " + rest;
      RunOfWord(ws[0], " " + rest);
      assert s == ws[0] + (" " + rest);
      assert s[..|ws[0]|] == ws[0];
      assert s[|ws[0]|..] == " " + rest;
      assert (" " + rest)[1..] == rest;
      WordsOfJoin(ws[1..]);
      assert ws == [ws[0]] + ws[1..];
    }
  }

  /** The words glued together. */
  function Concat(ws: seq<string>): string {
    if ws == [] then "" else ws[0] + Concat(ws[1..])
  }

  /** `s` with every whitespace character removed. */
  function NonWhitespace(s: string): string {
    if s == [] then "" else (if IsWhitespace(s[0]) then "" else [s[0]]) + NonWhitespace(s[1..])
  }

  lemma {:induction false} NonWhitespaceAppend(a: string, b: string)
    ensures NonWhitespace(a + b) == NonWhitespace(a) + NonWhitespace(b)
    decreases |a|
  {
    if a != [] {
      assert (a + b)[0] == a[0] && (a + b)[1..] == a[1..] + b;
      NonWhitespaceAppend(a[1..], b);
    } else {
      assert a + b == b;
    }
  }

  lemma {:induction false} NonWhitespaceOfRun(w: string)
    requires NoWhitespace(w)
    ensures NonWhitespace(w) == w
    decreases |w|
  {
    if w != [] {
      NonWhitespaceOfRun(w[1..]);
      assert w == [w[0]] + w[1..];
    }
  }

  lemma ConcatCons(w: string, ws: seq<string>)
    ensures Concat([w] + ws) == w + Concat(ws)
  {
    assert ([w] + ws)[1..] == ws;
  }

  /** Nothing but whitespace is lost: the words glued together are `s`
      with its whitespace removed. */
  lemma {:induction false} WordsConcat(s: string)
    ensures Concat(Words(s)) == NonWhitespace(s)
    decreases |s|
  {
    if s != [] {
      if IsWhitespace(s[0]) {
        assert Words(s) == Words(s[1..]);
        assert NonWhitespace(s) == "" + NonWhitespace(s[1..]);
        WordsConcat(s[1..]);
      } else {
        var n := RunLength(s);
        assert n > 0;
        var w, t := s[..n], s[n..];
        assert Words(s) == [w] + Words(t);
        WordsConcat(t);
        ConcatCons(w, Words(t));
        assert s == w + t;
        NonWhitespaceAppend(w, t);
        NonWhitespaceOfRun(w);
      }
    }
  }

  /** `filter(k => k.length > 3)`: the long words, each as often as it
      occurs. */
  function LongWords(ws: seq<string>): (r: seq<string>)
    ensures forall w :: w in r <==> w in ws && |w| > 3
    ensures forall w :: multiset(r)[w] == if |w| > 3 then multiset(ws)[w] else 0
  {
    if ws == [] then []
    else
      var rest := LongWords(ws[1..]);
      assert ws == [ws[0]] + ws[1..];
      assert forall w :: w in ws <==> w == ws[0] || w in ws[1..];
      if |ws[0]| > 3 then [ws[0]] + rest else rest
  }

  /** The filter keeps the order: it works piece by piece. */
  lemma {:induction false} LongWordsAppend(a: seq<string>, b: seq<string>)
    ensures LongWords(a + b) == LongWords(a) + LongWords(b)
    decreases |a|
  {
    if a == [] {
      assert a + b == b;
    } else {
      assert (a + b)[0] == a[0] && (a + b)[1..] == a[1..] + b;
      LongWordsAppend(a[1..], b);
    }
  }

  /** The keywords of the sparse search. */
  function Keywords(c: map<string, string>): seq<string> {
    LongWords(Words(SearchTerms(c)))
  }

  /** Every keyword is a lowercase run of more than three non-whitespace
      characters taken from the search terms. */
  lemma KeywordsAreLongLowercaseWords(c: map<string, string>)
    ensures forall k :: k in Keywords(c) ==>
              |k| > 3 && NoWhitespace(k) && k in Words(SearchTerms(c))
  {
  }

  /** Every word of the search terms is lowercase. */
  lemma {:induction false} WordsOfLowercase(s: string)
    requires forall i :: 0 <= i < |s| ==> !('A' <= s[i] <= 'Z')
    ensures forall w, i :: w in Words(s) && 0 <= i < |w| ==> !('A' <= w[i] <= 'Z')
    decreases |s|
  {
    if s != [] {
      if IsWhitespace(s[0]) {
        WordsOfLowercase(s[1..]);
      } else {
        var n := RunLength(s);
        WordsOfLowercase(s[n..]);
        assert forall i :: 0 <= i < n ==> s[..n][i] == s[i];
      }
    }
  }

  /** A keyword list of words that are all long: it keeps them all. */
  lemma {:induction false} LongWordsKeepsLong(ws: seq<string>)
    requires forall i :: 0 <= i < |ws| ==> |ws[i]| > 3
    ensures LongWords(ws) == ws
  {
    if ws != [] {
      LongWordsKeepsLong(ws[1..]);
      assert ws == [ws[0]] + ws[1..];
    }
  }

  // ---------------------------------------------------------------------------
  // Candidates and fusion
  // ---------------------------------------------------------------------------

  /** A knowledge-base chunk row: its id, text, source name (absent or null
      is None) and similarity. */
  datatype Chunk = Chunk(id: string, text: string, sourceName: Option<string>, similarity: real)

  datatype Origin = Dense | Sparse

  /** An entry of the candidate map: the row it was made from, its `source`
      tag and its fused score. */
  datatype Candidate = Candidate(chunk: Chunk, origin: Origin, score: real)

  function ScoreOf(c: Candidate): real { c.score }

  /** A keyword row with the similarity every sparse hit gets. */
  function AsSparse(c: Chunk): (r: Chunk)
    ensures r.id == c.id && r.text == c.text && r.sourceName == c.sourceName
    ensures r.similarity == SparseSimilarity
  {
    c.(similarity := SparseSimilarity)
  }

  function SparseRows(rows: seq<Chunk>): (r: seq<Chunk>)
    ensures |r| == |rows| && forall i :: 0 <= i < |rows| ==> r[i] == AsSparse(rows[i])
  {
    seq(|rows|, i requires 0 <= i < |rows| => AsSparse(rows[i]))
  }

  function Ids(cs: seq<Chunk>): (r: seq<string>)
    ensures |r| == |cs| && forall i :: 0 <= i < |cs| ==> r[i] == cs[i].id
  {
    seq(|cs|, i requires 0 <= i < |cs| => cs[i].id)
  }

  lemma IdsSnoc(cs: seq<Chunk>, i: nat)
    requires i < |cs|
    ensures Ids(cs[..i + 1]) == Ids(cs[..i]) + [cs[i].id]
  {
  }

  /** The last row with `id`: the one `Map.set` leaves in place. */
  function LastWith(cs: seq<Chunk>, id: string): (r: Option<Chunk>)
    ensures r.None? <==> id !in Ids(cs)
    ensures r.Some? ==> r.value in cs && r.value.id == id
  {
    if cs == [] then None
    else
      assert Ids(cs) == Ids(cs[..|cs| - 1]) + [cs[|cs| - 1].id];
      if cs[|cs| - 1].id == id then Some(cs[|cs| - 1]) else LastWith(cs[..|cs| - 1], id)
  }

  /** The first row with `id`. */
  function FirstWith(cs: seq<Chunk>, id: string): (r: Option<Chunk>)
    ensures r.None? <==> id !in Ids(cs)
    ensures r.Some? ==> r.value in cs && r.value.id == id
  {
    if cs == [] then None
    else
      assert Ids(cs) == Ids(cs[..|cs| - 1]) + [cs[|cs| - 1].id];
      var f := FirstWith(cs[..|cs| - 1], id);
      if f.Some? then f else if cs[|cs| - 1].id == id then Some(cs[|cs| - 1]) else None
  }

  /** The sparse share (1 - λ)·sim summed over every sparse row with `id`. */
  function SparseSum(cs: seq<Chunk>, id: string): real {
    if cs == [] then 0.0
    else
      SparseSum(cs[..|cs| - 1], id)
      + (if cs[|cs| - 1].id == id then cs[|cs| - 1].similarity * (1.0 - Lambda) else 0.0)
  }

  /** The number of occurrences of `id`. */
  function CountOf(ids: seq<string>, id: string): nat {
    if ids == [] then 0
    else CountOf(ids[..|ids| - 1], id) + (if ids[|ids| - 1] == id then 1 else 0)
  }

  /** The map entry for `id` once both lists are processed: a dense row (the
      last one) scored λ·sim, plus every sparse hit's share; a sparse-only id
      keeps its first sparse row and the sum of the shares. */
  function Entry(dense: seq<Chunk>, sparse: seq<Chunk>, id: string): (r: Candidate)
    requires id in Ids(dense) + Ids(sparse)
    ensures r.chunk.id == id
  {
    match LastWith(dense, id)
    case Some(d) => Candidate(d, Dense, d.similarity * Lambda + SparseSum(sparse, id))
    case None => Candidate(FirstWith(sparse, id).value, Sparse, SparseSum(sparse, id))
  }

  /** `Array.from(candidateMap.values())`: one entry per id, in the order in
      which ids were first inserted. */
  function FusedEntries(dense: seq<Chunk>, sparse: seq<Chunk>): (r: seq<Candidate>)
    ensures var ids := Distinct(Ids(dense) + Ids(sparse));
            |r| == |ids| && forall k :: 0 <= k < |ids| ==> r[k] == Entry(dense, sparse, ids[k])
  {
    var ids := Distinct(Ids(dense) + Ids(sparse));
    seq(|ids|, k requires 0 <= k < |ids| => Entry(dense, sparse, ids[k]))
  }

  lemma DistinctSnoc(ks: seq<string>, k: string)
    ensures Distinct(ks + [k]) == if k in ks then Distinct(ks) else Distinct(ks) + [k]
  {
    assert (ks + [k])[..|ks|] == ks;
  }

  /** The candidate map after the dense rows: each id holds its last row,
      scored λ·sim. */
  ghost predicate DenseMapped(m: map<string, Candidate>, dense: seq<Chunk>) {
    (forall id :: id in m <==> id in Ids(dense))
    && forall id :: id in m ==>
         LastWith(dense, id).Some? && m[id] == Candidate(LastWith(dense, id).value, Dense, LastWith(dense, id).value.similarity * Lambda)
  }

  /** The candidate map after the dense rows and some sparse rows. */
  ghost predicate FusedMapped(m: map<string, Candidate>, dense: seq<Chunk>, sparse: seq<Chunk>) {
    (forall id :: id in m <==> id in Ids(dense) + Ids(sparse))
    && forall id :: id in m ==> id in Ids(dense) + Ids(sparse) && m[id] == Entry(dense, sparse, id)
  }

  /** One dense row: its id's entry becomes the row scored λ·sim, and a new
      id joins the insertion order. */
  lemma DenseStep(m: map<string, Candidate>, order: seq<string>, q: seq<Chunk>, c: Chunk)
    requires DenseMapped(m, q) && order == Distinct(Ids(q))
    ensures DenseMapped(m[c.id := Candidate(c, Dense, c.similarity * Lambda)], q + [c])
    ensures (if c.id in m then order else order + [c.id]) == Distinct(Ids(q + [c]))
  {
    assert (c.id in m) == (c.id in Ids(q));
    SnocFacts(q, c, c.id);
    DistinctSnoc(Ids(q), c.id);
    DenseMapStep(m, q, c);
  }

  lemma DenseMapStep(m: map<string, Candidate>, q: seq<Chunk>, c: Chunk)
    requires DenseMapped(m, q)
    ensures DenseMapped(m[c.id := Candidate(c, Dense, c.similarity * Lambda)], q + [c])
  {
    var p := q + [c];
    assert p[..|p| - 1] == q;
    SnocFacts(q, c, c.id);
  }

  lemma SparseStart(m: map<string, Candidate>, order: seq<string>, dense: seq<Chunk>)
    requires DenseMapped(m, dense) && order == Distinct(Ids(dense))
    ensures FusedMapped(m, dense, []) && order == Distinct(Ids(dense) + Ids([]))
  {
    assert Ids([]) == [];
    assert Ids(dense) + Ids([]) == Ids(dense);
  }

  /** One sparse row: an id already in the map has the row's share added, a
      new id is inserted with it. */
  function SparseUpdate(m: map<string, Candidate>, c: Chunk): map<string, Candidate> {
    if c.id in m then m[c.id := m[c.id].(score := m[c.id].score + c.similarity * (1.0 - Lambda))]
    else m[c.id := Candidate(c, Sparse, c.similarity * (1.0 - Lambda))]
  }

  lemma SparseStep(m: map<string, Candidate>, order: seq<string>, dense: seq<Chunk>, q: seq<Chunk>, c: Chunk)
    requires FusedMapped(m, dense, q) && order == Distinct(Ids(dense) + Ids(q))
    ensures FusedMapped(SparseUpdate(m, c), dense, q + [c])
    ensures (if c.id in m then order else order + [c.id]) == Distinct(Ids(dense) + Ids(q + [c]))
  {
    SnocFacts(q, c, c.id);
    assert Ids(dense) + Ids(q + [c]) == (Ids(dense) + Ids(q)) + [c.id];
    DistinctSnoc(Ids(dense) + Ids(q), c.id);
    SparseMapStep(m, dense, q, c);
  }

  lemma SliceSnoc<T>(s: seq<T>, i: nat)
    requires i < |s|
    ensures s[..i] + [s[i]] == s[..i + 1]
  {
  }

  /** Appending a row to a list of rows. */
  lemma SnocFacts(q: seq<Chunk>, c: Chunk, id: string)
    ensures Ids(q + [c]) == Ids(q) + [c.id]
    ensures SparseSum(q + [c], id) == SparseSum(q, id) + (if c.id == id then c.similarity * (1.0 - Lambda) else 0.0)
    ensures FirstWith(q + [c], id) ==
              (if FirstWith(q, id).Some? then FirstWith(q, id) else if c.id == id then Some(c) else None)
  {
    assert (q + [c])[..|q|] == q;
  }

  lemma SparseMapStep(m: map<string, Candidate>, dense: seq<Chunk>, q: seq<Chunk>, c: Chunk)
    requires FusedMapped(m, dense, q)
    ensures FusedMapped(SparseUpdate(m, c), dense, q + [c])
  {
    var p := q + [c];
    var m' := SparseUpdate(m, c);
    SnocFacts(q, c, c.id);
    assert Ids(dense) + Ids(p) == Ids(dense) + Ids(q) + [c.id];
    if c.id in m {
      SparseEntryHit(m, dense, q, c);
    } else {
      SparseSumAbsent(q, c.id);
    }
    forall id | id in m' && id != c.id ensures id in Ids(dense) + Ids(p) && m'[id] == Entry(dense, p, id) {
      SnocFacts(q, c, id);
      assert id in m;
    }
  }

  lemma SparseEntryHit(m: map<string, Candidate>, dense: seq<Chunk>, q: seq<Chunk>, c: Chunk)
    requires FusedMapped(m, dense, q) && c.id in m
    ensures c.id in Ids(dense) + Ids(q + [c])
    ensures SparseUpdate(m, c)[c.id] == Entry(dense, q + [c], c.id)
  {
    SnocFacts(q, c, c.id);
    assert m[c.id] == Entry(dense, q, c.id);
  }

  /** The map's values in the order of `order`. */
  function ValuesInOrder(m: map<string, Candidate>, order: seq<string>): (r: seq<Candidate>)
    requires forall k :: 0 <= k < |order| ==> order[k] in m
    ensures |r| == |order| && forall k :: 0 <= k < |order| ==> r[k] == m[order[k]]
  {
    seq(|order|, k requires 0 <= k < |order| => m[order[k]])
  }

  lemma FusedValues(m: map<string, Candidate>, order: seq<string>, dense: seq<Chunk>, sparse: seq<Chunk>)
    requires FusedMapped(m, dense, sparse)
    requires order == Distinct(Ids(dense) + Ids(sparse))
    ensures forall k :: 0 <= k < |order| ==> order[k] in m
    ensures ValuesInOrder(m, order) == FusedEntries(dense, sparse)
  {
    assert forall k :: 0 <= k < |order| ==> order[k] in order;
  }

  /** The fusion: the dense rows first, each setting its id's entry to
      λ·sim; then each sparse row adding (1 - λ)·sim to its id's entry, or
      creating it; the entries in insertion order, sorted by score,
      highest first. */
  method Fuse(dense: seq<Chunk>, sparse: seq<Chunk>) returns (fused: seq<Candidate>)
    ensures fused == SortDesc(FusedEntries(dense, sparse), ScoreOf)
  {
    var m: map<string, Candidate> := map[];
    var order: seq<string> := [];
    ghost var seen: seq<Chunk> := [];
    var i := 0;
    while i < |dense|
      invariant 0 <= i <= |dense| && seen == dense[..i]
      invariant DenseMapped(m, seen)
      invariant order == Distinct(Ids(seen))
    {
      var c := dense[i];
      DenseStep(m, order, seen, c);
      if c.id !in m {
        order := order + [c.id];
      }
      m := m[c.id := Candidate(c, Dense, c.similarity * Lambda)];
      SliceSnoc(dense, i);
      seen := seen + [c];
      i := i + 1;
    }
    assert seen == dense;
    SparseStart(m, order, dense);
    seen := [];
    var j := 0;
    while j < |sparse|
      invariant 0 <= j <= |sparse| && seen == sparse[..j]
      invariant FusedMapped(m, dense, seen)
      invariant order == Distinct(Ids(dense) + Ids(seen))
    {
      var c := sparse[j];
      SparseStep(m, order, dense, seen, c);
      if c.id !in m {
        order := order + [c.id];
      }
      m := SparseUpdate(m, c);
      SliceSnoc(sparse, j);
      seen := seen + [c];
      j := j + 1;
    }
    assert seen == sparse;
    FusedValues(m, order, dense, sparse);
    fused := SortDesc(ValuesInOrder(m, order), ScoreOf);
  }

  // Properties of the fused scores.

  lemma {:induction false} SparseSumAbsent(cs: seq<Chunk>, id: string)
    requires id !in Ids(cs)
    ensures SparseSum(cs, id) == 0.0
  {
    if cs != [] {
      assert Ids(cs) == Ids(cs[..|cs| - 1]) + [cs[|cs| - 1].id];
      SparseSumAbsent(cs[..|cs| - 1], id);
    }
  }

  /** When every sparse row has the fixed similarity, an id's sparse share is
      0.21 per occurrence. */
  lemma {:induction false} SparseSumCounts(cs: seq<Chunk>, id: string)
    requires forall i :: 0 <= i < |cs| ==> cs[i].similarity == SparseSimilarity
    ensures SparseSum(cs, id) == CountOf(Ids(cs), id) as real * 0.21
  {
    if cs != [] {
      assert Ids(cs)[..|cs| - 1] == Ids(cs[..|cs| - 1]);
      SparseSumCounts(cs[..|cs| - 1], id);
    }
  }

  /** A dense-only candidate scores λ·sim of its (last) dense row. */
  lemma DenseOnlyScore(dense: seq<Chunk>, sparse: seq<Chunk>, id: string)
    requires id in Ids(dense) && id !in Ids(sparse)
    ensures Entry(dense, sparse, id).origin == Dense
    ensures Entry(dense, sparse, id).score == LastWith(dense, id).value.similarity * 0.65
  {
    SparseSumAbsent(sparse, id);
  }

  /** A candidate found only once, and only by the keyword search, scores
      0.6·(1 - λ) = 0.21. */
  lemma SparseOnlyScore(dense: seq<Chunk>, rows: seq<Chunk>, id: string)
    requires id !in Ids(dense) && CountOf(Ids(rows), id) == 1
    ensures id in Ids(dense) + Ids(SparseRows(rows))
    ensures Entry(dense, SparseRows(rows), id).origin == Sparse
    ensures Entry(dense, SparseRows(rows), id).score == 0.21
  {
    var sparse := SparseRows(rows);
    assert Ids(sparse) == Ids(rows);
    CountedIsPresent(Ids(rows), id);
    SparseSumCounts(sparse, id);
  }

  /** A candidate found by both searches, once by the keyword search, scores
      the sum of the two shares. */
  lemma BothScore(dense: seq<Chunk>, rows: seq<Chunk>, id: string)
    requires id in Ids(dense) && CountOf(Ids(rows), id) == 1
    ensures Entry(dense, SparseRows(rows), id).origin == Dense
    ensures Entry(dense, SparseRows(rows), id).score == LastWith(dense, id).value.similarity * 0.65 + 0.21
  {
    var sparse := SparseRows(rows);
    assert Ids(sparse) == Ids(rows);
    SparseSumCounts(sparse, id);
  }

  lemma {:induction false} CountedIsPresent(ids: seq<string>, id: string)
    requires CountOf(ids, id) > 0
    ensures id in ids
  {
    if ids[|ids| - 1] != id {
      CountedIsPresent(ids[..|ids| - 1], id);
    }
  }

  /** The fused list has one entry per distinct id of either search, sorted
      by score, highest first. */
  lemma FusedCoversIds(dense: seq<Chunk>, sparse: seq<Chunk>)
    ensures var f := SortDesc(FusedEntries(dense, sparse), ScoreOf);
            SortedDesc(f, ScoreOf)
            && (forall id :: id in Ids(dense) + Ids(sparse) <==> exists c :: c in f && c.chunk.id == id)
  {
    var e := FusedEntries(dense, sparse);
    var f := SortDesc(e, ScoreOf);
    var ids := Distinct(Ids(dense) + Ids(sparse));
    forall id | id in Ids(dense) + Ids(sparse) ensures exists c :: c in f && c.chunk.id == id {
      var k :| 0 <= k < |ids| && ids[k] == id;
      assert e[k] in multiset(f);
    }
    forall c | c in f ensures c.chunk.id in Ids(dense) + Ids(sparse) {
      assert c in multiset(e);
      var k :| 0 <= k < |e| && e[k] == c;
      assert ids[k] in ids;
    }
  }

  // ---------------------------------------------------------------------------
  // Rerank
  // ---------------------------------------------------------------------------

  /** A fused candidate with its rerank score. */
  datatype Ranked = Ranked(candidate: Candidate, rerankScore: real)

  function RerankScoreOf(r: Ranked): real { r.rerankScore }

  /** `source_name && source_name.toLowerCase().includes(part)`. */
  predicate NameHas(sourceName: Option<string>, part: string) {
    TruthyStr(sourceName) && Contains(ToLower(sourceName.value), part)
  }

  /** +0.1 for a "best_practices" source, +0.05 for a "prompt" source. */
  function Boost(sourceName: Option<string>): (b: real)
    ensures b == 0.0 || b == 0.05 || b == 0.1 || b == 0.15
    ensures b >= 0.1 <==> NameHas(sourceName, "best_practices")
    ensures (b == 0.05 || b == 0.15) <==> NameHas(sourceName, "prompt")
  {
    (if NameHas(sourceName, "best_practices") then 0.1 else 0.0)
    + (if NameHas(sourceName, "prompt") then 0.05 else 0.0)
  }

  function WithRerankScores(fused: seq<Candidate>): (r: seq<Ranked>)
    ensures |r| == |fused|
    ensures forall i :: 0 <= i < |fused| ==>
              r[i] == Ranked(fused[i], fused[i].score + Boost(fused[i].chunk.sourceName))
  {
    seq(|fused|, i requires 0 <= i < |fused| => Ranked(fused[i], fused[i].score + Boost(fused[i].chunk.sourceName)))
  }

  /** The boosted candidates, sorted by rerank score, cut to the first five. */
  function Rerank(fused: seq<Candidate>): (r: seq<Ranked>)
    ensures |r| == Min(RerankTop, |fused|)
    ensures SortedDesc(r, RerankScoreOf)
    ensures multiset(r) <= multiset(WithRerankScores(fused))
    ensures forall x :: x in r ==>
              x.candidate in fused && x.rerankScore == x.candidate.score + Boost(x.candidate.chunk.sourceName)
  {
    var boosted := WithRerankScores(fused);
    var sorted := SortDesc(boosted, RerankScoreOf);
    var r := Prefix(sorted, RerankTop);
    SortedDescPrefix(sorted, RerankScoreOf, |r|);
    PrefixMultiset(sorted, |r|);
    forall x | x in r
      ensures x.candidate in fused && x.rerankScore == x.candidate.score + Boost(x.candidate.chunk.sourceName)
    {
      assert x in multiset(boosted);
    }
    r
  }

  /** No candidate that is cut has a higher rerank score than one that is
      kept. */
  lemma RerankKeepsTheBest(fused: seq<Candidate>, x: Ranked, y: Ranked)
    requires x in Rerank(fused)
    requires y in WithRerankScores(fused) && y !in Rerank(fused)
    ensures x.rerankScore >= y.rerankScore
  {
    var boosted := WithRerankScores(fused);
    var sorted := SortDesc(boosted, RerankScoreOf);
    var n := |Rerank(fused)|;
    assert y in multiset(sorted);
    assert sorted == sorted[..n] + sorted[n..];
    SortedDescSplit(sorted, RerankScoreOf, n, x, y);
  }

  /** Two dense hits of similarity 0.9 and no keyword hit both fuse to 0.585
      and keep their order; a best-practices source on the second one lifts
      it to 0.685 and ahead of the first. */
  lemma BestPracticesBoostFlipsOrder(a: Chunk, b: Chunk)
    requires a.id != b.id && a.similarity == 0.9 && b.similarity == 0.9
    requires Boost(a.sourceName) == 0.0 && Boost(b.sourceName) == 0.1
    ensures var f := SortDesc(FusedEntries([a, b], []), ScoreOf);
            f == [Candidate(a, Dense, 0.585), Candidate(b, Dense, 0.585)]
            && Rerank(f) == [Ranked(Candidate(b, Dense, 0.585), 0.685), Ranked(Candidate(a, Dense, 0.585), 0.585)]
  {
    var ca := Candidate(a, Dense, 0.585);
    var cb := Candidate(b, Dense, 0.585);
    FuseTwoDense(a, b);
    SortTwo(ca, cb);
    RerankTwo(ca, cb);
  }

  lemma FuseTwoDense(a: Chunk, b: Chunk)
    requires a.id != b.id && a.similarity == 0.9 && b.similarity == 0.9
    ensures FusedEntries([a, b], []) == [Candidate(a, Dense, 0.585), Candidate(b, Dense, 0.585)]
  {
    var ids := Ids([a, b]) + Ids([]);
    assert ids == [a.id, b.id];
    assert Distinct([a.id]) == [a.id] by {
      assert [a.id][..0] == [];
    }
    assert Distinct(ids) == [a.id, b.id] by {
      assert ids[..1] == [a.id];
    }
    assert LastWith([a, b], a.id) == Some(a) by {
      assert [a, b][..1] == [a];
    }
    assert SparseSum([], a.id) == 0.0;
  }

  lemma SortTwo(ca: Candidate, cb: Candidate)
    requires ca.score == cb.score
    ensures SortDesc([ca, cb], ScoreOf) == [ca, cb]
  {
    assert [cb][1..] == [];
    assert SortDesc([cb], ScoreOf) == [cb];
    assert [ca, cb][1..] == [cb];
  }

  lemma RerankTwo(ca: Candidate, cb: Candidate)
    requires ca.score == 0.585 && cb.score == 0.585
    requires Boost(ca.chunk.sourceName) == 0.0 && Boost(cb.chunk.sourceName) == 0.1
    ensures Rerank([ca, cb]) == [Ranked(cb, 0.685), Ranked(ca, 0.585)]
  {
    var ra := Ranked(ca, 0.585);
    var rb := Ranked(cb, 0.685);
    assert WithRerankScores([ca, cb]) == [ra, rb];
    assert [rb][1..] == [];
    assert SortDesc([rb], RerankScoreOf) == [rb];
    assert InsertDesc(ra, [rb], RerankScoreOf) == [rb, ra];
    assert [ra, rb][1..] == [rb];
    assert SortDesc([ra, rb], RerankScoreOf) == [rb, ra];
  }

  /** A source name with "best_practices" in it and no "prompt" earns
      exactly the 0.1 boost. */
  lemma BestPracticesBoost(name: string)
    requires Contains(ToLower(name), "best_practices") && !Contains(ToLower(name), "prompt")
    ensures Boost(Some(name)) == 0.1
  {
  }

  // ---------------------------------------------------------------------------
  // Historical prompts
  // ---------------------------------------------------------------------------

  /** A prompt_records row as the historical query selects it. */
  datatype HistoricalRecord = HistoricalRecord(id: string, synthesizedPrompt: Option<string>, totalScore: real)

  function TotalScoreOf(h: HistoricalRecord): real { h.totalScore }

  function AtLeastMinScore(hs: seq<HistoricalRecord>): (r: seq<HistoricalRecord>)
    ensures forall h :: h in r <==> h in hs && h.totalScore >= HistoricalMinScore
    ensures multiset(r) <= multiset(hs)
  {
    if hs == [] then []
    else
      var rest := AtLeastMinScore(hs[1..]);
      assert hs == [hs[0]] + hs[1..];
      if hs[0].totalScore >= HistoricalMinScore then [hs[0]] + rest else rest
  }

  /** `gte('total_score', 0.75).order('total_score', desc).limit(3)` over the
      project's records. */
  function HistoricalTop(hs: seq<HistoricalRecord>): (r: seq<HistoricalRecord>)
    ensures |r| <= HistoricalLimit
    ensures SortedDesc(r, TotalScoreOf)
    ensures multiset(r) <= multiset(AtLeastMinScore(hs))
    ensures forall h :: h in r ==> h in hs && h.totalScore >= HistoricalMinScore
  {
    var sorted := SortDesc(AtLeastMinScore(hs), TotalScoreOf);
    var r := Prefix(sorted, HistoricalLimit);
    SortedDescPrefix(sorted, TotalScoreOf, |r|);
    PrefixMultiset(sorted, |r|);
    forall h | h in r ensures h in hs && h.totalScore >= HistoricalMinScore {
      assert h in multiset(sorted);
    }
    r
  }

  /** Fewer than three records are returned only when fewer than three
      qualify. */
  lemma HistoricalTopCount(hs: seq<HistoricalRecord>)
    ensures |HistoricalTop(hs)| == Min(HistoricalLimit, |AtLeastMinScore(hs)|)
  {
  }

  /** The three kept are the best: no qualifying record that is cut scores
      higher than one that is kept. */
  lemma HistoricalTopKeepsTheBest(hs: seq<HistoricalRecord>, x: HistoricalRecord, y: HistoricalRecord)
    requires x in HistoricalTop(hs)
    requires y in AtLeastMinScore(hs) && y !in HistoricalTop(hs)
    ensures x.totalScore >= y.totalScore
  {
    var sorted := SortDesc(AtLeastMinScore(hs), TotalScoreOf);
    var n := |HistoricalTop(hs)|;
    assert y in multiset(sorted);
    assert sorted == sorted[..n] + sorted[n..];
    SortedDescSplit(sorted, TotalScoreOf, n, x, y);
  }
}
