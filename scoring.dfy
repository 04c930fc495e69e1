/**
 * Grading of a generated artifact: the rubric weights, the default scores
 * used when the grading reply holds no parseable object, the weighted
 * composite (a JavaScript number, so NaN when a dimension is missing or not
 * numeric), the confidence gate that decides on one refinement pass, and
 * the weakest-dimension list quoted in the refinement request.
 */
module Scoring {
  import opened Common
  import opened Json
  import opened Extraction

  /** The five rubric dimensions, in the order of `rubric_weights`. */
  const Dimensions: seq<string> :=
    ["IntentAccuracy", "TaskCompletion", "PolicyAdherence", "ToneFit", "FormatCompliance"]

  /** `rubric_weights`, in the same order. */
  const Weights: seq<real> := [0.30, 0.25, 0.20, 0.15, 0.10]

  /** `confidence_thresholds`. */
  const RefineMin: real := 0.60
  const SkipRefineIfOver: real := 0.75
  const ShipThreshold: real := 0.80

  /** The uplift a re-grade must reach for the refinement to be kept. */
  const MinUplift: real := 0.02

  /** A dimension below this bound is listed as weak. */
  const WeakBelow: real := 0.80

  function Sum(ws: seq<real>): real {
    if ws == [] then 0.0 else ws[0] + Sum(ws[1..])
  }

  /** The weights are non-negative and add up to one. */
  lemma WeightsFormDistribution()
    ensures |Weights| == |Dimensions|
    ensures forall i :: 0 <= i < |Weights| ==> Weights[i] >= 0.0
    ensures Sum(Weights) == 1.0
  {
    assert Weights[1..][1..][1..][1..][1..] == [];
  }

  /** The scores assumed when grading fails. */
  const DefaultScores: Members :=
    [("IntentAccuracy", JNum(0.85)), ("TaskCompletion", JNum(0.85)), ("PolicyAdherence", JNum(0.85)),
     ("ToneFit", JNum(0.80)), ("FormatCompliance", JNum(0.90)), ("confidence", JNum(0.85))]

  /** `scores.<name>` as the operand of `*`. */
  function Dim(scores: Members, name: string): Num {
    ToNumber(Lookup(scores, name))
  }

  /** The values of the five dimensions, in rubric order. */
  function DimValues(scores: Members): (vs: seq<Num>)
    ensures |vs| == |Dimensions|
    ensures forall i :: 0 <= i < |Dimensions| ==> vs[i] == Dim(scores, Dimensions[i])
  {
    [Dim(scores, Dimensions[0]), Dim(scores, Dimensions[1]), Dim(scores, Dimensions[2]),
     Dim(scores, Dimensions[3]), Dim(scores, Dimensions[4])]
  }

  /** The reference definition: the weighted sum of values against weights. */
  function WeightedSum(vs: seq<real>, ws: seq<real>): real
    requires |vs| == |ws|
  {
    if vs == [] then 0.0 else vs[0] * ws[0] + WeightedSum(vs[1..], ws[1..])
  }

  predicate AllNumbers(vs: seq<Num>) {
    forall i :: 0 <= i < |vs| ==> vs[i].Num?
  }

  function Reals(vs: seq<Num>): (rs: seq<real>)
    requires AllNumbers(vs)
    ensures |rs| == |vs| && forall i :: 0 <= i < |vs| ==> rs[i] == vs[i].r
  {
    seq(|vs|, i requires 0 <= i < |vs| => vs[i].r)
  }

  /** The composite score, summed left to right as the source writes it. */
  function Composite(scores: Members): (c: Num)
    ensures c.NaN? <==> !AllNumbers(DimValues(scores))
  {
    var vs := DimValues(scores);
    var c := Add(Add(Add(Add(Scale(vs[0], Weights[0]), Scale(vs[1], Weights[1])),
                         Scale(vs[2], Weights[2])),
                     Scale(vs[3], Weights[3])),
                 Scale(vs[4], Weights[4]));
    AllNumbersOfFive(vs);
    c
  }

  lemma AllNumbersOfFive(vs: seq<Num>)
    requires |vs| == 5
    ensures AllNumbers(vs) <==> vs[0].Num? && vs[1].Num? && vs[2].Num? && vs[3].Num? && vs[4].Num?
  {
  }

  /** When every dimension is a number, the composite is the weighted sum. */
  lemma CompositeIsWeightedSum(scores: Members)
    requires AllNumbers(DimValues(scores))
    ensures Composite(scores) == Num(WeightedSum(Reals(DimValues(scores)), Weights))
  {
    var rs := Reals(DimValues(scores));
    WeightedSumOfFive(rs, Weights);
    CompositeOfNumbers(scores, rs[0], rs[1], rs[2], rs[3], rs[4]);
  }

  /** The composite of five numeric dimensions, as the source sums it. */
  lemma CompositeOfNumbers(scores: Members, a: real, b: real, c: real, d: real, e: real)
    requires DimValues(scores) == [Num(a), Num(b), Num(c), Num(d), Num(e)]
    ensures Composite(scores) == Num(a * 0.30 + b * 0.25 + c * 0.20 + d * 0.15 + e * 0.10)
  {
  }

  lemma WeightedSumOfFive(rs: seq<real>, ws: seq<real>)
    requires |rs| == |ws| == 5
    ensures WeightedSum(rs, ws)
            == rs[0] * ws[0] + (rs[1] * ws[1] + (rs[2] * ws[2] + (rs[3] * ws[3] + rs[4] * ws[4])))
  {
    assert WeightedSum(rs[4..], ws[4..]) == rs[4] * ws[4] by {
      assert rs[4..][1..] == [];
    }
    assert WeightedSum(rs[3..], ws[3..]) == rs[3] * ws[3] + WeightedSum(rs[4..], ws[4..]) by {
      assert rs[3..][1..] == rs[4..] && ws[3..][1..] == ws[4..];
    }
    assert WeightedSum(rs[2..], ws[2..]) == rs[2] * ws[2] + WeightedSum(rs[3..], ws[3..]) by {
      assert rs[2..][1..] == rs[3..] && ws[2..][1..] == ws[3..];
    }
    assert WeightedSum(rs[1..], ws[1..]) == rs[1] * ws[1] + WeightedSum(rs[2..], ws[2..]) by {
      assert rs[1..][1..] == rs[2..] && ws[1..][1..] == ws[2..];
    }
  }

  lemma {:induction false} WeightedSumBounds(vs: seq<real>, ws: seq<real>, lo: real, hi: real)
    requires |vs| == |ws|
    requires forall i :: 0 <= i < |vs| ==> lo <= vs[i] <= hi
    requires forall i :: 0 <= i < |ws| ==> ws[i] >= 0.0
    ensures lo * Sum(ws) <= WeightedSum(vs, ws) <= hi * Sum(ws)
  {
    if vs != [] {
      var v0, w0, restV, restW := vs[0], ws[0], vs[1..], ws[1..];
      WeightedSumBounds(restV, restW, lo, hi);
      assert WeightedSum(vs, ws) == v0 * w0 + WeightedSum(restV, restW);
      assert Sum(ws) == w0 + Sum(restW);
      BoundStep(lo, hi, v0, w0, Sum(restW), WeightedSum(restV, restW));
    }
  }

  /** One term more: a value within [lo, hi] times a non-negative weight. */
  lemma BoundStep(lo: real, hi: real, v: real, w: real, s: real, t: real)
    requires lo <= v <= hi && w >= 0.0
    requires lo * s <= t <= hi * s
    ensures lo * (w + s) <= v * w + t <= hi * (w + s)
  {
    MulMonotone(lo, v, w);
    MulMonotone(v, hi, w);
    assert lo * (w + s) == lo * w + lo * s;
    assert hi * (w + s) == hi * w + hi * s;
  }

  lemma MulMonotone(a: real, b: real, c: real)
    requires a <= b && c >= 0.0
    ensures a * c <= b * c
  {
    assert b * c - a * c == (b - a) * c;
  }

  /** The composite lies between any lower and upper bound of the five
      dimensions; in particular between their minimum and maximum. */
  lemma CompositeBetween(scores: Members, lo: real, hi: real)
    requires AllNumbers(DimValues(scores))
    requires forall i :: 0 <= i < |Dimensions| ==> lo <= DimValues(scores)[i].r <= hi
    ensures Composite(scores).Num? && lo <= Composite(scores).r <= hi
  {
    CompositeIsWeightedSum(scores);
    WeightsFormDistribution();
    WeightedSumBounds(Reals(DimValues(scores)), Weights, lo, hi);
  }

  lemma {:induction false} WeightedSumMonotone(us: seq<real>, vs: seq<real>, ws: seq<real>)
    requires |us| == |vs| == |ws|
    requires forall i :: 0 <= i < |us| ==> us[i] <= vs[i]
    requires forall i :: 0 <= i < |ws| ==> ws[i] >= 0.0
    ensures WeightedSum(us, ws) <= WeightedSum(vs, ws)
  {
    if us != [] {
      WeightedSumMonotone(us[1..], vs[1..], ws[1..]);
      MulMonotone(us[0], vs[0], ws[0]);
    }
  }

  /** Raising any dimension never lowers the composite. */
  lemma CompositeMonotone(a: Members, b: Members)
    requires AllNumbers(DimValues(a)) && AllNumbers(DimValues(b))
    requires forall i :: 0 <= i < |Dimensions| ==> DimValues(a)[i].r <= DimValues(b)[i].r
    ensures Composite(a).r <= Composite(b).r
  {
    CompositeIsWeightedSum(a);
    CompositeIsWeightedSum(b);
    WeightsFormDistribution();
    WeightedSumMonotone(Reals(DimValues(a)), Reals(DimValues(b)), Weights);
  }

  /** The default scores give the composite 0.8475. */
  lemma DefaultComposite()
    ensures Composite(DefaultScores) == Num(0.8475)
  {
    DefaultDims();
    CompositeOfNumbers(DefaultScores, 0.85, 0.85, 0.85, 0.80, 0.90);
  }

  lemma DefaultDims()
    ensures DimValues(DefaultScores) == [Num(0.85), Num(0.85), Num(0.85), Num(0.80), Num(0.90)]
  {
    DefaultLeadingDims();
    DefaultTrailingDims();
  }

  lemma DefaultLeadingDims()
    ensures Lookup(DefaultScores, Dimensions[0]) == Some(JNum(0.85))
    ensures Lookup(DefaultScores, Dimensions[1]) == Some(JNum(0.85))
    ensures Lookup(DefaultScores, Dimensions[2]) == Some(JNum(0.85))
  {
    LookupUnique(DefaultScores, 0);
    LookupUnique(DefaultScores, 1);
    LookupUnique(DefaultScores, 2);
  }

  lemma DefaultTrailingDims()
    ensures Lookup(DefaultScores, Dimensions[3]) == Some(JNum(0.80))
    ensures Lookup(DefaultScores, Dimensions[4]) == Some(JNum(0.90))
  {
    LookupUnique(DefaultScores, 3);
    LookupUnique(DefaultScores, 4);
  }

  /** A key that occurs once is read at its only member. */
  lemma LookupUnique(ms: Members, i: nat)
    requires i < |ms|
    requires forall j :: 0 <= j < |ms| && j != i ==> ms[j].0 != ms[i].0
    ensures Lookup(ms, ms[i].0) == Some(ms[i].1)
  {
    assert Keys(ms)[i] == ms[i].0;
  }

  // ---------------------------------------------------------------------------
  // The confidence gate
  // ---------------------------------------------------------------------------

  /** What the gate does with a composite: one refinement pass, a logged
      low-confidence warning, or nothing. */
  datatype GateDecision = RefineOnce | FlagLowConfidence | ShipAsIs

  function Gate(c: Num): (g: GateDecision)
    ensures g == RefineOnce <==> c.Num? && RefineMin <= c.r < SkipRefineIfOver
    ensures g == FlagLowConfidence <==> c.Num? && c.r < RefineMin
    ensures g == ShipAsIs <==> c.NaN? || c.r >= SkipRefineIfOver
  {
    if Below(c, SkipRefineIfOver) && AtLeast(c, RefineMin) then RefineOnce
    else if Below(c, RefineMin) then FlagLowConfidence
    else ShipAsIs
  }

  /** The `ship` threshold plays no part: a composite in [0.75, 0.80) ships
      without refinement, exactly like one above 0.80. */
  lemma ShipThresholdUnused(c: real)
    requires SkipRefineIfOver <= c
    ensures Gate(Num(c)) == ShipAsIs
    ensures c < ShipThreshold ==> Gate(Num(c)) == Gate(Num(ShipThreshold))
  {
  }

  /** A grading object lacking a dimension, or with a non-numeric one, makes
      the composite NaN, and NaN ships unrefined. */
  lemma MissingDimensionShips(scores: Members, i: nat)
    requires i < |Dimensions| && Dimensions[i] !in Keys(scores)
    ensures Composite(scores).NaN? && Gate(Composite(scores)) == ShipAsIs
  {
    assert DimValues(scores)[i].NaN?;
  }

  // ---------------------------------------------------------------------------
  // Weakest dimensions
  // ---------------------------------------------------------------------------

  /** `typeof v === 'number' && v < 0.80`. */
  predicate IsWeak(v: Option<Json>) {
    v.Some? && v.value.JNum? && v.value.n < WeakBelow
  }

  function WeakestOf(ks: seq<string>, scores: Members): (r: seq<string>)
    ensures forall k :: k in r <==> k in ks && IsWeak(Lookup(scores, k))
    ensures r == [] <==> forall k :: k in ks ==> !IsWeak(Lookup(scores, k))
    ensures |r| <= |ks|
  {
    if ks == [] then []
    else
      var rest := WeakestOf(ks[1..], scores);
      assert forall k :: k in ks <==> k == ks[0] || k in ks[1..];
      if IsWeak(Lookup(scores, ks[0])) then
        assert ks[0] in [ks[0]] + rest;
        [ks[0]] + rest
      else rest
  }

  /** The weak entries of `Object.entries(scores)`: every key, in order of
      first appearance, whose value is a number below 0.80. Any key counts,
      not only the five dimensions. */
  function WeakestDimensions(scores: Members): (r: seq<string>)
    ensures forall k :: k in r <==> k in Keys(scores) && IsWeak(Lookup(scores, k))
    ensures r == [] <==> forall k :: k in Keys(scores) ==> !IsWeak(Lookup(scores, k))
  {
    WeakestOf(Distinct(Keys(scores)), scores)
  }

  /** A low `confidence` is listed among the weakest dimensions although it
      is not a rubric dimension. */
  lemma WeakestIncludesConfidence(scores: Members, x: real)
    requires Lookup(scores, "confidence") == Some(JNum(x)) && x < WeakBelow
    ensures "confidence" in WeakestDimensions(scores)
    ensures "confidence" !in Dimensions
  {
  }

  /** No default score is weak: ToneFit's 0.80 is not below 0.80. */
  lemma DefaultsHaveNoWeakest()
    ensures WeakestDimensions(DefaultScores) == []
  {
    var d := DefaultScores;
    assert forall i :: 0 <= i < |d| ==> d[i].1.JNum? && d[i].1.n >= WeakBelow;
  }

  // ---------------------------------------------------------------------------
  // Parsing the grading reply
  // ---------------------------------------------------------------------------

  /** The try/catch around the grading reply: the parsed leftmost brace-free
      object when the reply has a string content holding one that parses,
      otherwise the default scores. */
  function ParseGrades(reply: Reply, parse: string -> Option<Members>): (r: Members)
    ensures reply.NoMessage? ==> r == DefaultScores
    ensures reply.Message? && TextOf(reply.content).None? ==> r == DefaultScores
    ensures reply.Message? && TextOf(reply.content).Some? ==>
              var m := FlatMatch(TextOf(reply.content).value);
              r == (if m.Some? && parse(m.value).Some? then parse(m.value).value else DefaultScores)
  {
    if reply.NoMessage? then DefaultScores
    else
      var t := TextOf(reply.content);
      if t.None? then DefaultScores
      else
        var m := FlatMatch(t.value);
        if m.Some? && parse(m.value).Some? then parse(m.value).value else DefaultScores
  }

  /** A grading reply whose text holds a brace-free object after any
      brace-free preamble is graded by that object. */
  lemma FlatGradesAreUsed(pre: string, body: string, post: string, parse: string -> Option<Members>)
    requires '{' !in pre && |body| > 0 && '}' !in body
    requires parse("{" + body + "}").Some?
    ensures ParseGrades(Message(Some(JStr(pre + "{" + body + "}" + post))), parse)
            == parse("{" + body + "}").value
  {
    FlatFindsObject(pre, body, post);
  }

  /** When grading fails in any way, the composite is 0.8475 and the gate
      lets the artifact ship unrefined. */
  lemma FailedGradingShips(reply: Reply, parse: string -> Option<Members>)
    requires ParseGrades(reply, parse) == DefaultScores
    ensures Composite(ParseGrades(reply, parse)) == Num(0.8475)
    ensures Gate(Composite(ParseGrades(reply, parse))) == ShipAsIs
  {
    DefaultComposite();
  }
}
