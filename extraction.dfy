/**
 * Pulling JSON out of model replies: the greedy `/\{[\s\S]*\}/` match used
 * on the synthesis and refinement texts (from the first `{` to the last
 * `}`), the `/\{[^}]+\}/` match used on grading texts (the leftmost
 * brace-free object), and the synthesis fallback artifact. JSON.parse is a
 * parameter `parse`; it yields the object's members or None when it
 * throws (a text that starts with `{` parses, if at all, to an object).
 */
module Extraction {
  import opened Common
  import opened Json

  /** The part of a reply body the handler reads: `choices[0].message`
      missing (reading its `content` throws), or its `content`. */
  datatype Reply = NoMessage | Message(content: Option<Json>)

  /** `content.match(...)` needs a string; for any other value the call
      throws, which the surrounding `try` treats like "no match". */
  function TextOf(content: Option<Json>): (t: Option<string>)
    ensures t.Some? <==> content.Some? && content.value.JStr?
    ensures t.Some? ==> t.value == content.value.s
  {
    if content.Some? && content.value.JStr? then Some(content.value.s) else None
  }

  function FirstIndexOf(s: string, c: char): (r: Option<nat>)
    ensures r.None? <==> c !in s
    ensures r.Some? ==> r.value < |s| && s[r.value] == c && c !in s[..r.value]
  {
    if s == [] then None
    else if s[0] == c then Some(0)
    else
      var r := FirstIndexOf(s[1..], c);
      assert forall x :: x in s <==> x == s[0] || x in s[1..];
      if r.None? then None
      else
        assert s[..r.value + 1] == [s[0]] + s[1..][..r.value];
        Some(r.value + 1)
  }

  function LastIndexOf(s: string, c: char): (r: Option<nat>)
    ensures r.None? <==> c !in s
    ensures r.Some? ==> r.value < |s| && s[r.value] == c && c !in s[r.value + 1..]
  {
    if s == [] then None
    else if s[|s| - 1] == c then Some(|s| - 1)
    else
      var init := s[..|s| - 1];
      var r := LastIndexOf(init, c);
      assert s == init + [s[|s| - 1]];
      if r.None? then None
      else
        assert s[r.value + 1..] == init[r.value + 1..] + [s[|s| - 1]];
        Some(r.value)
  }

  // ---------------------------------------------------------------------------
  // /\{[\s\S]*\}/
  // ---------------------------------------------------------------------------

  /** The greedy match: it starts at the first `{` (a match can start there
      as soon as any can, since a later `{` sees fewer closing braces) and
      runs to the last `}`. */
  function GreedyMatch(s: string): (r: Option<string>)
    ensures r.None? <==> forall i, j :: 0 <= i < j < |s| ==> !(s[i] == '{' && s[j] == '}')
    ensures r.Some? ==> |r.value| >= 2 && r.value[0] == '{' && r.value[|r.value| - 1] == '}'
    ensures r.Some? ==> exists i :: 0 <= i && i + |r.value| <= |s| && s[i..i + |r.value|] == r.value
                                    && '{' !in s[..i] && '}' !in s[i + |r.value|..]
  {
    var first := FirstIndexOf(s, '{');
    var last := LastIndexOf(s, '}');
    if first.Some? && last.Some? && first.value < last.value then
      var i := first.value;
      var j := last.value;
      assert s[i..j + 1][0] == s[i];
      assert s[i..i + (j + 1 - i)] == s[i..j + 1];
      Some(s[i..j + 1])
    else
      assert forall i :: 0 <= i < |s| && s[i] == '{' ==> '{' in s;
      assert forall j :: 0 <= j < |s| && s[j] == '}' ==> '}' in s;
      NoPairAfterLast(s, first, last);
      None
  }

  /** An object text with no `{` before it and no `}` after it is found
      exactly, whatever else surrounds it. */
  lemma GreedyFindsObject(pre: string, obj: string, post: string)
    requires '{' !in pre && '}' !in post
    requires |obj| >= 2 && obj[0] == '{' && obj[|obj| - 1] == '}'
    ensures GreedyMatch(pre + obj + post) == Some(obj)
  {
    var s := pre + obj + post;
    var i := |pre|;
    var j := |pre| + |obj| - 1;
    assert s[..i] == pre;
    assert s[j + 1..] == post;
    assert s[i] == '{' && s[j] == '}';
    FirstIndexIs(s, '{', i);
    LastIndexIs(s, '}', j);
    assert s[i..j + 1] == obj;
  }

  lemma FirstIndexIs(s: string, c: char, i: nat)
    requires i < |s| && s[i] == c && c !in s[..i]
    ensures FirstIndexOf(s, c) == Some(i)
  {
    assert s[i] in s;
    forall k | 0 <= k < i ensures s[k] != c {
      assert s[..i][k] == s[k];
    }
  }

  lemma LastIndexIs(s: string, c: char, j: nat)
    requires j < |s| && s[j] == c && c !in s[j + 1..]
    ensures LastIndexOf(s, c) == Some(j)
  {
    assert s[j] in s;
    forall k | j < k < |s| ensures s[k] != c {
      assert s[j + 1..][k - j - 1] == s[k];
    }
  }

  /** No `{` comes before the first one, no `}` after the last one. */
  lemma NoPairAfterLast(s: string, first: Option<nat>, last: Option<nat>)
    requires first == FirstIndexOf(s, '{') && last == LastIndexOf(s, '}')
    requires !(first.Some? && last.Some? && first.value < last.value)
    ensures forall i, j :: 0 <= i < j < |s| ==> !(s[i] == '{' && s[j] == '}')
  {
    var lo := if first.Some? then first.value else |s|;
    var hi := if last.Some? then last.value else 0;
    forall k | 0 <= k < lo ensures s[k] != '{' {
      if first.Some? {
        assert s[..first.value][k] == s[k];
      } else {
        assert s[k] in s;
      }
    }
    forall k | hi < k < |s| ensures s[k] != '}' {
      if last.Some? {
        assert s[last.value + 1..][k - last.value - 1] == s[k];
      } else {
        assert s[k] in s;
      }
    }
    assert last.None? ==> s == [] || s[0] != '}';
    assert hi <= lo;
  }

  // ---------------------------------------------------------------------------
  // /\{[^}]+\}/
  // ---------------------------------------------------------------------------

  /** The position of the first `}` after position `i`. */
  function CloseAfter(s: string, i: nat): (r: Option<nat>)
    ensures r.Some? ==> i < r.value < |s| && s[r.value] == '}'
                        && forall k :: i < k < r.value ==> s[k] != '}'
    ensures r.None? ==> forall k :: i < k < |s| ==> s[k] != '}'
    decreases |s| - i
  {
    if i + 1 >= |s| then None
    else if s[i + 1] == '}' then Some(i + 1)
    else CloseAfter(s, i + 1)
  }

  /** A match of `\{[^}]+\}` can start at `i`: a `{` there, and the first
      `}` after it is not the very next character. */
  predicate FlatStartsAt(s: string, i: nat) {
    i < |s| && s[i] == '{' && CloseAfter(s, i).Some? && CloseAfter(s, i).value >= i + 2
  }

  /** The match starting at `i`: `{`, the characters up to the first `}`,
      and that `}`. */
  function FlatAt(s: string, i: nat): (r: string)
    requires FlatStartsAt(s, i)
    ensures |r| >= 3 && r[0] == '{' && r[|r| - 1] == '}'
    ensures forall k :: 0 < k < |r| - 1 ==> r[k] != '}'
    ensures i + |r| <= |s| && s[i..i + |r|] == r
  {
    s[i..CloseAfter(s, i).value + 1]
  }

  function FlatMatchFrom(s: string, i: nat): (r: Option<string>)
    requires i <= |s|
    ensures r.None? <==> forall p :: i <= p < |s| ==> !FlatStartsAt(s, p)
    ensures r.Some? ==> exists p :: i <= p < |s| && FlatStartsAt(s, p) && r.value == FlatAt(s, p)
                            && forall q :: i <= q < p ==> !FlatStartsAt(s, q)
    decreases |s| - i
  {
    if i == |s| then None
    else if FlatStartsAt(s, i) then Some(FlatAt(s, i))
    else FlatMatchFrom(s, i + 1)
  }

  /** The leftmost match: the first position where one can start. */
  function FlatMatch(s: string): (r: Option<string>)
    ensures r.Some? ==> |r.value| >= 3 && r.value[0] == '{' && r.value[|r.value| - 1] == '}'
    ensures r.Some? ==> forall k :: 0 < k < |r.value| - 1 ==> r.value[k] != '}'
    ensures r.None? <==> forall p :: 0 <= p < |s| ==> !FlatStartsAt(s, p)
  {
    FlatMatchFrom(s, 0)
  }

  /** A brace-free object with no `{` before it is what the match finds. */
  lemma FlatFindsObject(pre: string, body: string, post: string)
    requires '{' !in pre && |body| > 0 && '}' !in body
    ensures FlatMatch(pre + "{" + body + "}" + post) == Some("{" + body + "}")
  {
    var s := pre + "{" + body + "}" + post;
    var i := |pre|;
    var j := i + |body| + 1;
    forall q | 0 <= q < i ensures !FlatStartsAt(s, q) {
      assert s[q] == pre[q];
    }
    forall k | i < k < j ensures s[k] != '}' {
      assert s[k] == body[k - i - 1];
    }
    assert s[j] == '}';
    CloseAfterIs(s, i, j);
    assert FlatStartsAt(s, i);
    assert s[i..j + 1] == "{" + body + "}";
    FlatMatchSkips(s, 0, i);
  }

  lemma {:induction false} CloseAfterIs(s: string, i: nat, j: nat)
    requires i < j < |s| && s[j] == '}'
    requires forall k :: i < k < j ==> s[k] != '}'
    ensures CloseAfter(s, i) == Some(j)
    decreases j - i
  {
    if i + 1 < j {
      CloseAfterIs(s, i + 1, j);
    }
  }

  lemma {:induction false} FlatMatchSkips(s: string, from: nat, i: nat)
    requires from <= i < |s| && FlatStartsAt(s, i)
    requires forall q :: from <= q < i ==> !FlatStartsAt(s, q)
    ensures FlatMatchFrom(s, from) == Some(FlatAt(s, i))
    decreases i - from
  {
    if from < i {
      FlatMatchSkips(s, from + 1, i);
    }
  }

  /** The match stops at the first closing brace: on an object holding a
      nested object, what is found ends with the inner object's brace, so
      grading JSON of that shape is cut short (and then fails to parse). */
  lemma NestedObjectCutShort(outer: string, inner: string, rest: string)
    requires '{' !in outer && '}' !in outer && '}' !in inner
    ensures var s := "{" + (outer + "{" + inner) + "}" + (rest + "}");
            FlatMatch(s) == Some("{" + (outer + "{" + inner) + "}") && |FlatMatch(s).value| < |s|
  {
    var body := outer + "{" + inner;
    assert '}' !in body;
    FlatFindsObject("", body, rest + "}");
    assert "" + "{" == "{";
  }

  /** An empty object is never matched. */
  lemma EmptyObjectNotMatched()
    ensures FlatMatch("{}").None?
  {
    var s := "{}";
    CloseAfterIs(s, 0, 1);
  }

  // ---------------------------------------------------------------------------
  // Synthesis output
  // ---------------------------------------------------------------------------

  /** The artifact used when the synthesis text holds no parseable object:
      every expected key with an empty value, and confidence 0.5. */
  const FallbackMetaprompt: Members :=
    [("version", JStr("1.0.0")), ("persona", JObj([])), ("goals", JArr([])), ("policies", JObj([])),
     ("datasets", JArr([])), ("tools", JArr([])), ("output_contract", JObj([])), ("self_checks", JArr([]))]

  const FallbackArtifact: Members :=
    [("metaprompt", JObj(FallbackMetaprompt)), ("datasets", JObj([])), ("compliance", JObj([])),
     ("citations", JArr([])), ("confidence", JNum(0.5))]

  /** The try/catch around the synthesis text: the parsed greedy match, or
      the fallback artifact when the content is not a string, holds no
      `{...}`, or does not parse. */
  function ParseArtifact(content: Option<Json>, parse: string -> Option<Members>): (r: Members)
    ensures TextOf(content).None? ==> r == FallbackArtifact
    ensures TextOf(content).Some? && GreedyMatch(TextOf(content).value).None? ==> r == FallbackArtifact
    ensures TextOf(content).Some? && GreedyMatch(TextOf(content).value).Some? ==>
              var m := GreedyMatch(TextOf(content).value).value;
              r == (if parse(m).Some? then parse(m).value else FallbackArtifact)
  {
    var t := TextOf(content);
    if t.None? then FallbackArtifact
    else
      var m := GreedyMatch(t.value);
      if m.None? then FallbackArtifact
      else if parse(m.value).None? then FallbackArtifact
      else parse(m.value).value
  }

  /** A synthesis text without any brace pair yields the fallback, whatever
      the parser does. */
  lemma NoBracesGivesFallback(text: string, parse: string -> Option<Members>)
    requires '{' !in text
    ensures ParseArtifact(Some(JStr(text)), parse) == FallbackArtifact
  {
    assert forall i :: 0 <= i < |text| ==> text[i] in text;
  }

  /** The fallback artifact has all five top-level keys and all eight
      metaprompt keys, with empty values and confidence 0.5. */
  lemma FallbackShape()
    ensures Keys(FallbackArtifact) == ["metaprompt", "datasets", "compliance", "citations", "confidence"]
    ensures Keys(FallbackMetaprompt) ==
              ["version", "persona", "goals", "policies", "datasets", "tools", "output_contract", "self_checks"]
    ensures Lookup(FallbackArtifact, "citations") == Some(JArr([]))
    ensures Lookup(FallbackArtifact, "confidence") == Some(JNum(0.5))
  {
    var f := FallbackArtifact;
    assert f[..4][..3] == f[..3];
    assert Lookup(f[..4], "citations") == Some(JArr([]));
  }
}
