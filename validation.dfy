/**
 * Request validation of the edge function: `validateString`, `validateUUID`
 * and `validateCollected`. Values that arrive in a request body are JSON
 * values; a property that is absent is None (`undefined`).
 */
module Validation {
  import opened Common
  import opened Json

  /** The length bound every collected field is validated against. */
  const CollectedMaxLength: nat := 2000

  function MustBeString(fieldName: string): string { fieldName + " must be a string" }

  function Exceeds(fieldName: string, maxLength: nat): string {
    fieldName + " exceeds " + NatToString(maxLength) + " chars"
  }

  /** validateString: rejects what is not a string, then a string longer than
      `maxLength`; otherwise returns it trimmed. The bound is on the length
      before trimming. */
  function ValidateString(value: Option<Json>, maxLength: nat, fieldName: string): (r: Result<string, string>)
    ensures r.Ok? <==> value.Some? && value.value.JStr? && |value.value.s| <= maxLength
    ensures r.Ok? ==> r.value == Trim(value.value.s)
    ensures !(value.Some? && value.value.JStr?) ==> r == Err(MustBeString(fieldName))
    ensures value.Some? && value.value.JStr? && |value.value.s| > maxLength ==>
              r == Err(Exceeds(fieldName, maxLength))
  {
    match value
    case Some(JStr(s)) =>
      if |s| > maxLength then Err(Exceeds(fieldName, maxLength)) else Ok(Trim(s))
    case _ => Err(MustBeString(fieldName))
  }

  // ---------------------------------------------------------------------------
  // UUIDs: /^[0-9a-f]{8}-[0-9a-f]{4}-[0-9a-f]{4}-[0-9a-f]{4}-[0-9a-f]{12}$/i
  // ---------------------------------------------------------------------------

  /** `[0-9a-f]` under the `i` flag. */
  predicate IsHexDigit(c: char) {
    ('0' <= c <= '9') || ('a' <= c <= 'f') || ('A' <= c <= 'F')
  }

  predicate AllHex(s: string) {
    forall i :: 0 <= i < |s| ==> IsHexDigitAt(s, i)
  }

  predicate IsHexDigitAt(s: string, i: int)
    requires 0 <= i < |s|
  {
    IsHexDigit(s[i])
  }

  /** The regular expression, group by group: five runs of hex digits of
      lengths 8, 4, 4, 4 and 12, separated by hyphens, filling the string. */
  predicate MatchesUuidRegex(s: string) {
    |s| == 36
    && AllHex(s[0..8]) && s[8] == '-'
    && AllHex(s[9..13]) && s[13] == '-'
    && AllHex(s[14..18]) && s[18] == '-'
    && AllHex(s[19..23]) && s[23] == '-'
    && AllHex(s[24..36])
  }

  predicate IsHyphenPosition(i: int) { i == 8 || i == 13 || i == 18 || i == 23 }

  /** The same layout stated position by position (RFC 4122 section 3's
      textual form, without any check of the version or variant digits). */
  predicate IsUuidLayout(s: string) {
    |s| == 36
    && forall i :: 0 <= i < 36 ==>
         (IsHyphenPosition(i) ==> s[i] == '-') && (!IsHyphenPosition(i) ==> IsHexDigit(s[i]))
  }

  lemma AllHexSlice(s: string, lo: nat, hi: nat)
    requires lo <= hi <= |s|
    ensures AllHex(s[lo..hi]) <==> forall i :: lo <= i < hi ==> IsHexDigit(s[i])
  {
    if AllHex(s[lo..hi]) {
      forall i | lo <= i < hi ensures IsHexDigit(s[i]) {
        assert IsHexDigitAt(s[lo..hi], i - lo);
      }
    }
    if forall i :: lo <= i < hi ==> IsHexDigit(s[i]) {
      forall i | 0 <= i < hi - lo ensures IsHexDigitAt(s[lo..hi], i) {
        assert s[lo..hi][i] == s[lo + i];
      }
    }
  }

  /** The group-wise regular expression and the positional layout accept the
      same strings. */
  lemma UuidRegexIffLayout(s: string)
    ensures MatchesUuidRegex(s) <==> IsUuidLayout(s)
  {
    if |s| == 36 {
      AllHexSlice(s, 0, 8);
      AllHexSlice(s, 9, 13);
      AllHexSlice(s, 14, 18);
      AllHexSlice(s, 19, 23);
      AllHexSlice(s, 24, 36);
    }
  }

  /** validateUUID: the value unchanged when it is a string in the UUID
      layout (hex digits of either case), an error otherwise. */
  function ValidateUUID(value: Option<Json>, fieldName: string): (r: Result<string, string>)
    ensures r.Ok? <==> value.Some? && value.value.JStr? && IsUuidLayout(value.value.s)
    ensures r.Ok? ==> r.value == value.value.s
    ensures !(value.Some? && value.value.JStr?) ==> r == Err(MustBeString(fieldName))
    ensures value.Some? && value.value.JStr? && !IsUuidLayout(value.value.s) ==>
              r == Err(fieldName + " must be valid UUID")
  {
    match value
    case Some(JStr(s)) =>
      UuidRegexIffLayout(s);
      if !MatchesUuidRegex(s) then Err(fieldName + " must be valid UUID") else Ok(s)
    case _ => Err(MustBeString(fieldName))
  }

  /** Any five hex groups of lengths 8-4-4-4-12 joined by hyphens form a
      UUID that validateUUID returns unchanged. */
  lemma FormattedUuidAccepted(a: string, b: string, c: string, d: string, e: string)
    requires |a| == 8 && |b| == 4 && |c| == 4 && |d| == 4 && |e| == 12
    requires AllHex(a) && AllHex(b) && AllHex(c) && AllHex(d) && AllHex(e)
    ensures var s := a + "-" + b + "-" + c + "-" + d + "-" + e;
            ValidateUUID(Some(JStr(s)), "conversation_id") == Ok(s)
  {
    var s := a + "-" + b + "-" + c + "-" + d + "-" + e;
    assert s[0..8] == a && s[9..13] == b && s[14..18] == c && s[19..23] == d && s[24..36] == e;
    assert s[8] == '-' && s[13] == '-' && s[18] == '-' && s[23] == '-';
    assert MatchesUuidRegex(s);
    UuidRegexIffLayout(s);
  }

  // ---------------------------------------------------------------------------
  // validateCollected
  // ---------------------------------------------------------------------------

  /** An array index used as a property key: the canonical decimal form of
      an integer below 2^32 - 1 (no leading zero except "0" itself). */
  predicate IsArrayIndex(k: string) {
    && |k| > 0
    && (forall i :: 0 <= i < |k| ==> '0' <= k[i] <= '9')
    && (k[0] != '0' || |k| == 1)
    && DigitsValue(k) < 0xFFFF_FFFF
  }

  /** The rank that orders an object's own keys for `for...in` under the
      stable descending sort: array indices first, smaller ones higher, then
      every other key with rank 0, so that those keep their creation order. */
  function ForInRank(k: string): real {
    if IsArrayIndex(k) then (0x1_0000_0000 - DigitsValue(k)) as real else 0.0
  }

  /** The keys `for...in` visits on a parsed object: each distinct key once
      in order of creation (a repeated key keeps its first place), with the
      array indices moved to the front in ascending numeric order. */
  function ForInKeys(ms: Members): seq<string> {
    SortDesc(Distinct(Keys(ms)), ForInRank)
  }

  /** The members read back for `keys`: `collected[key]` for each. */
  function ReadMembers(ms: Members, keys: seq<string>): (r: Members)
    requires forall k :: k in keys ==> k in Keys(ms)
    ensures Keys(r) == keys
    ensures forall i :: 0 <= i < |r| ==> Some(r[i].1) == Lookup(ms, keys[i])
  {
    if keys == [] then []
    else ReadMembers(ms, keys[..|keys| - 1]) + [(keys[|keys| - 1], Lookup(ms, keys[|keys| - 1]).value)]
  }

  /** The members a `for (const key in collected)` loop visits, each with
      the value `collected[key]` reads: an object's keys in for...in order,
      or an array's indices as strings. */
  function ForInMembers(collected: Json): Members
    requires collected.JObj? || collected.JArr?
  {
    match collected
    case JObj(ms) =>
      var keys := ForInKeys(ms);
      assert forall k :: k in keys ==> k in Keys(ms) by {
        forall k | k in keys ensures k in Keys(ms) {
          assert k in multiset(keys);
        }
      }
      ReadMembers(ms, keys)
    case JArr(items) => seq(|items|, i requires 0 <= i < |items| => (NatToString(i), items[i]))
  }

  /** A member that validateString accepts with the collected-field bound. */
  predicate ValidMember(m: (string, Json)) {
    m.1.JStr? && |m.1.s| <= CollectedMaxLength
  }

  /** Member `i` is the first one validateString rejects. */
  predicate FirstInvalidAt(ms: Members, i: nat)
    requires i < |ms|
  {
    !ValidMember(ms[i]) && forall j :: 0 <= j < i ==> ValidMember(ms[j])
  }

  /** `validated[key] = value` stores nothing for the key "__proto__": with
      a string value, the assignment reaches the prototype setter, which
      ignores it. */
  const ProtoKey: string := "__proto__"

  /** The map built from the first `n` members: each key holds the trimmed
      value of its last occurrence, "__proto__" excepted. */
  function ValidatedPrefix(ms: Members, n: nat): (r: map<string, string>)
    requires n <= |ms|
    requires forall i :: 0 <= i < n ==> ValidMember(ms[i])
    ensures forall k :: k in r <==> k in Keys(ms[..n]) && k != ProtoKey
  {
    if n == 0 then map[]
    else
      assert Keys(ms[..n]) == Keys(ms[..n - 1]) + [ms[n - 1].0];
      assert ValidMember(ms[n - 1]);
      var before := ValidatedPrefix(ms, n - 1);
      if ms[n - 1].0 == ProtoKey then before else before[ms[n - 1].0 := Trim(ms[n - 1].1.s)]
  }

  /** validateCollected: a dictionary with the keys of `collected` (less
      "__proto__"), each value validated with the 2000-character bound and
      trimmed; the first key in for...in order whose value fails raises its
      own message, and a non-object raises "Collected must be object". */
  method ValidateCollected(collected: Json) returns (r: Result<map<string, string>, string>)
    ensures !(collected.JObj? || collected.JArr?) ==> r == Err("Collected must be object")
    ensures (collected.JObj? || collected.JArr?) ==>
              var ms := ForInMembers(collected);
              && (r.Ok? <==> forall i :: 0 <= i < |ms| ==> ValidMember(ms[i]))
              && (r.Ok? ==> r.value == ValidatedPrefix(ms, |ms|))
              && (r.Err? ==> exists i :: 0 <= i < |ms| && FirstInvalidAt(ms, i)
                               && Err(r.error) == ValidateString(Some(ms[i].1), CollectedMaxLength, ms[i].0))
  {
    if !(collected.JObj? || collected.JArr?) {
      return Err("Collected must be object");
    }
    r := ValidateMembers(ForInMembers(collected));
  }

  /** The `for...in` loop over the visited members. */
  method ValidateMembers(ms: Members) returns (r: Result<map<string, string>, string>)
    ensures r.Ok? <==> forall i :: 0 <= i < |ms| ==> ValidMember(ms[i])
    ensures r.Ok? ==> r.value == ValidatedPrefix(ms, |ms|)
    ensures r.Err? ==> exists i :: 0 <= i < |ms| && FirstInvalidAt(ms, i)
                         && Err(r.error) == ValidateString(Some(ms[i].1), CollectedMaxLength, ms[i].0)
  {
    var validated: map<string, string> := map[];
    var i := 0;
    while i < |ms|
      invariant 0 <= i <= |ms|
      invariant forall j :: 0 <= j < i ==> ValidMember(ms[j])
      invariant validated == ValidatedPrefix(ms, i)
    {
      var m := ms[i];
      var v := ValidateString(Some(m.1), CollectedMaxLength, m.0);
      if v.Err? {
        assert FirstInvalidAt(ms, i);
        return Err(v.error);
      }
      ValidatedPrefixStep(ms, i);
      if m.0 != ProtoKey {
        validated := validated[m.0 := v.value];
      }
      i := i + 1;
    }
    return Ok(validated);
  }

  lemma ValidatedPrefixStep(ms: Members, i: nat)
    requires i < |ms|
    requires forall j :: 0 <= j <= i ==> ValidMember(ms[j])
    ensures ValidatedPrefix(ms, i + 1)
            == if ms[i].0 == ProtoKey then ValidatedPrefix(ms, i) else ValidatedPrefix(ms, i)[ms[i].0 := Trim(ms[i].1.s)]
  {
  }

  /** The value stored under each key is the trimmed value of its last
      occurrence among the members. */
  lemma {:induction false} ValidatedPrefixValue(ms: Members, n: nat, key: string)
    requires n <= |ms|
    requires forall i :: 0 <= i < n ==> ValidMember(ms[i])
    requires key in ValidatedPrefix(ms, n)
    ensures Lookup(ms[..n], key).Some? && Lookup(ms[..n], key).value.JStr?
    ensures ValidatedPrefix(ms, n)[key] == Trim(Lookup(ms[..n], key).value.s)
  {
    var p := ms[..n];
    assert p[..n - 1] == ms[..n - 1];
    assert p[n - 1] == ms[n - 1];
    if ms[n - 1].0 != key {
      ValidatedPrefixValue(ms, n - 1, key);
      assert Lookup(p, key) == Lookup(ms[..n - 1], key);
    }
  }

  /** The keys `for...in` visits are the object's keys, each once; every
      array index comes before every other key, the indices in ascending
      order, and the other keys (those ranked 0) keep their order of
      creation. */
  lemma ForInKeysFacts(ms: Members)
    ensures var keys := ForInKeys(ms);
            && (forall k :: k in keys <==> k in Keys(ms))
            && NoDuplicates(keys)
            && (forall i, j :: 0 <= i < j < |keys| && IsArrayIndex(keys[j]) ==>
                  IsArrayIndex(keys[i]) && DigitsValue(keys[i]) <= DigitsValue(keys[j]))
            && WithKey(keys, ForInRank, 0.0) == WithKey(Distinct(Keys(ms)), ForInRank, 0.0)
  {
    var d := Distinct(Keys(ms));
    var keys := ForInKeys(ms);
    forall k ensures k in keys <==> k in Keys(ms) {
      assert k in keys <==> k in multiset(keys);
    }
    PermutationNoDuplicates(keys, d);
    SortDescStable(d, ForInRank, 0.0);
  }

  /** A read of the visited members finds what a read of the object finds. */
  lemma {:induction false} LookupReadMembers(ms: Members, keys: seq<string>, k: string)
    requires forall k :: k in keys ==> k in Keys(ms)
    ensures Lookup(ReadMembers(ms, keys), k) == if k in keys then Lookup(ms, k) else None
    decreases |keys|
  {
    if keys != [] {
      var init := keys[..|keys| - 1];
      var r := ReadMembers(ms, keys);
      assert r[..|r| - 1] == ReadMembers(ms, init);
      assert keys == init + [keys[|keys| - 1]];
      LookupReadMembers(ms, init, k);
    }
  }

  /** An object validates exactly when the value `collected[key]` reads for
      every key is a string of at most 2000 characters. */
  lemma ForInObjectValid(ms: Members)
    ensures var fm := ForInMembers(JObj(ms));
            (forall i :: 0 <= i < |fm| ==> ValidMember(fm[i]))
            <==> forall k :: k in Keys(ms) ==> ValidMember((k, Lookup(ms, k).value))
  {
    var fm := ForInMembers(JObj(ms));
    ForInKeysFacts(ms);
    forall k | k in Keys(ms) && (forall i :: 0 <= i < |fm| ==> ValidMember(fm[i]))
      ensures ValidMember((k, Lookup(ms, k).value))
    {
      var i :| 0 <= i < |fm| && Keys(fm)[i] == k;
    }
  }

  /** On a valid object the validated dictionary has the object's keys less
      "__proto__", each with the trimmed value of its LAST member. */
  lemma ValidatedObject(ms: Members)
    requires var fm := ForInMembers(JObj(ms)); forall i :: 0 <= i < |fm| ==> ValidMember(fm[i])
    ensures var fm := ForInMembers(JObj(ms));
            var v := ValidatedPrefix(fm, |fm|);
            && (forall k :: k in v <==> k in Keys(ms) && k != ProtoKey)
            && (forall k :: k in v ==> Lookup(ms, k).Some? && Lookup(ms, k).value.JStr?
                                       && v[k] == Trim(Lookup(ms, k).value.s))
  {
    var fm := ForInMembers(JObj(ms));
    var keys := ForInKeys(ms);
    ForInKeysFacts(ms);
    assert fm[..|fm|] == fm;
    forall k | k in ValidatedPrefix(fm, |fm|)
      ensures Lookup(ms, k).Some? && Lookup(ms, k).value.JStr?
      ensures ValidatedPrefix(fm, |fm|)[k] == Trim(Lookup(ms, k).value.s)
    {
      ValidatedPrefixValue(fm, |fm|, k);
      LookupReadMembers(ms, keys, k);
    }
  }

  lemma DistinctOfRepeated()
    ensures Distinct(["Goal", "Goal"]) == ["Goal"]
  {
    assert ["Goal", "Goal"][..1] == ["Goal"] && ["Goal"][..0] == [];
    assert Distinct(["Goal"]) == ["Goal"];
  }

  lemma SortOfSingle(k: string)
    ensures SortDesc([k], ForInRank) == [k]
  {
    assert [k][1..] == [];
  }

  lemma ForInKeysOfRepeated(ms: Members)
    requires ms == [("Goal", JNum(1.0)), ("Goal", JStr("x"))]
    ensures ForInKeys(ms) == ["Goal"]
  {
    assert Keys(ms) == ["Goal", "Goal"];
    DistinctOfRepeated();
    SortOfSingle("Goal");
  }

  lemma LookupOfRepeated(ms: Members)
    requires ms == [("Goal", JNum(1.0)), ("Goal", JStr("x"))]
    ensures Lookup(ms, "Goal") == Some(JStr("x"))
  {
  }

  lemma ForInOfRepeated(ms: Members)
    requires ms == [("Goal", JNum(1.0)), ("Goal", JStr("x"))]
    ensures ForInMembers(JObj(ms)) == [("Goal", JStr("x"))]
  {
    ForInKeysOfRepeated(ms);
    LookupOfRepeated(ms);
    var fm := ForInMembers(JObj(ms));
    assert Keys(fm) == ["Goal"];
    assert Some(fm[0].1) == Lookup(ms, "Goal");
  }

  lemma ValidatedOfSingle(fm: Members)
    requires fm == [("Goal", JStr("x"))]
    ensures ValidMember(fm[0]) && ValidatedPrefix(fm, 1) == map["Goal" := "x"]
  {
    assert !IsWhitespace('x');
    assert Trim("x") == TrimEnd("x") == "x";
    assert "Goal" != ProtoKey;
    assert ValidatedPrefix(fm, 0) == map[];
  }

  /** A repeated key is visited once, with its last value:
      `{"Goal": 1, "Goal": "x"}` validates to `{Goal: "x"}`. */
  lemma RepeatedKeyLastValueWins(ms: Members)
    requires ms == [("Goal", JNum(1.0)), ("Goal", JStr("x"))]
    ensures var fm := ForInMembers(JObj(ms));
            fm == [("Goal", JStr("x"))] && ValidatedPrefix(fm, 1) == map["Goal" := "x"]
  {
    ForInOfRepeated(ms);
    ValidatedOfSingle(ForInMembers(JObj(ms)));
  }

  lemma RanksOfOneAndB()
    ensures ForInRank("1") == 4294967295.0 && ForInRank("b") == 0.0
  {
    assert "1"[..0] == [];
    assert DigitsValue("1") == 1;
    assert IsArrayIndex("1");
    assert !IsArrayIndex("b") by {
      assert !('0' <= "b"[0] <= '9');
    }
  }

  lemma DistinctOfExample()
    ensures Distinct(["b", "1"]) == ["b", "1"]
  {
    assert ["b", "1"][..1] == ["b"] && ["b"][..0] == [];
    assert Distinct(["b"]) == ["b"];
  }

  lemma SortOfExample()
    ensures SortDesc(["b", "1"], ForInRank) == ["1", "b"]
  {
    RanksOfOneAndB();
    assert ["b", "1"][1..] == ["1"] && ["1"][1..] == [];
    assert SortDesc(["1"], ForInRank) == ["1"];
    assert InsertDesc("b", [], ForInRank) == ["b"];
    assert InsertDesc("b", ["1"], ForInRank) == ["1"] + InsertDesc("b", ["1"][1..], ForInRank);
  }

  lemma ForInKeysOfExample(ms: Members)
    requires ms == [("b", JNum(1.0)), ("1", JNum(2.0))]
    ensures ForInKeys(ms) == ["1", "b"]
  {
    assert Keys(ms) == ["b", "1"];
    DistinctOfExample();
    SortOfExample();
  }

  /** Array indices are visited first: in `{"b": 1, "1": 2}` the key "1"
      is checked, and fails, before "b". */
  lemma IndexKeyVisitedFirst(ms: Members)
    requires ms == [("b", JNum(1.0)), ("1", JNum(2.0))]
    ensures var fm := ForInMembers(JObj(ms));
            ForInKeys(ms) == ["1", "b"] && |fm| == 2 && fm[0] == ("1", JNum(2.0)) && FirstInvalidAt(fm, 0)
  {
    ForInKeysOfExample(ms);
    var fm := ForInMembers(JObj(ms));
    assert Keys(fm) == ["1", "b"];
    assert Some(fm[0].1) == Lookup(ms, "1");
  }
}
