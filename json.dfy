/**
 * Parsed JSON values as the pipeline handles them after JSON.parse: objects
 * keep their members in insertion order, property reads see the last member
 * with a key (what JSON.parse keeps for a repeated key), and assignment to a
 * property replaces its value or appends a new member at the end.
 */
module Json {
  import opened Common

  datatype Json =
    | JNull
    | JBool(b: bool)
    | JNum(n: real)
    | JStr(s: string)
    | JArr(items: seq<Json>)
    | JObj(members: seq<(string, Json)>)

  type Members = seq<(string, Json)>

  function Keys(ms: Members): (ks: seq<string>)
    ensures |ks| == |ms| && forall i :: 0 <= i < |ms| ==> ks[i] == ms[i].0
  {
    seq(|ms|, i requires 0 <= i < |ms| => ms[i].0)
  }

  /** `obj[key]`: the value of the last member named `key`, or None for
      `undefined`. */
  function Lookup(ms: Members, key: string): (r: Option<Json>)
    ensures r.None? <==> key !in Keys(ms)
    ensures r.Some? ==> exists i :: 0 <= i < |ms| && ms[i] == (key, r.value)
                                    && forall j :: i < j < |ms| ==> ms[j].0 != key
  {
    if ms == [] then None
    else if ms[|ms| - 1].0 == key then Some(ms[|ms| - 1].1)
    else
      var init := ms[..|ms| - 1];
      var r := Lookup(init, key);
      assert Keys(ms) == Keys(init) + [ms[|ms| - 1].0];
      LastOfInitStaysLast(ms, init, key, r);
      r
  }

  /** A member that no later member of `ms` without its last one overrides
      stays unoverridden in `ms` when the last member has another name. */
  lemma LastOfInitStaysLast(ms: Members, init: Members, key: string, r: Option<Json>)
    requires ms != [] && init == ms[..|ms| - 1] && ms[|ms| - 1].0 != key
    requires r.Some? ==> exists i :: 0 <= i < |init| && init[i] == (key, r.value)
                                     && forall j :: i < j < |init| ==> init[j].0 != key
    ensures r.Some? ==> exists i :: 0 <= i < |ms| && ms[i] == (key, r.value)
                                    && forall j :: i < j < |ms| ==> ms[j].0 != key
  {
    if r.Some? {
      var i :| 0 <= i < |init| && init[i] == (key, r.value)
               && forall j :: i < j < |init| ==> init[j].0 != key;
      assert ms[i] == (key, r.value);
      forall j | i < j < |ms| ensures ms[j].0 != key {
        if j < |init| { assert ms[j] == init[j]; }
      }
    }
  }

  /** `obj[key] = v`. */
  function Assign(ms: Members, key: string, v: Json): (r: Members)
    ensures Lookup(r, key) == Some(v)
    ensures forall k :: k != key ==> Lookup(r, k) == Lookup(ms, k)
    ensures key in Keys(ms) ==> Keys(r) == Keys(ms)
    ensures key !in Keys(ms) ==> r == ms + [(key, v)]
  {
    if key in Keys(ms) then Replace(ms, key, v) else
      var r := ms + [(key, v)];
      assert r[..|r| - 1] == ms;
      r
  }

  function Replace(ms: Members, key: string, v: Json): (r: Members)
    requires key in Keys(ms)
    ensures Keys(r) == Keys(ms)
    ensures Lookup(r, key) == Some(v)
    ensures forall k :: k != key ==> Lookup(r, k) == Lookup(ms, k)
  {
    var last := ms[|ms| - 1];
    var init := ms[..|ms| - 1];
    KeysSnoc(init, last);
    LookupSnoc(init, last);
    assert ms == init + [last];
    if last.0 != key then
      var front := Replace(init, key, v);
      KeysSnoc(front, last);
      LookupSnoc(front, last);
      front + [last]
    else
      var front := if key in Keys(init) then Replace(init, key, v) else init;
      KeysSnoc(front, (key, v));
      LookupSnoc(front, (key, v));
      front + [(key, v)]
  }

  lemma KeysSnoc(ms: Members, m: (string, Json))
    ensures Keys(ms + [m]) == Keys(ms) + [m.0]
  {
  }

  /** Reading a property after appending a member: the new member if it has
      that name, otherwise what the earlier members give. */
  lemma LookupSnoc(ms: Members, m: (string, Json))
    ensures forall k :: Lookup(ms + [m], k) == if m.0 == k then Some(m.1) else Lookup(ms, k)
  {
    assert (ms + [m])[..|ms|] == ms;
  }

  /** JavaScript truthiness of a property value; `undefined` is None. */
  predicate Truthy(v: Option<Json>) {
    match v
    case None => false
    case Some(j) =>
      match j
      case JNull => false
      case JBool(b) => b
      case JNum(n) => n != 0.0
      case JStr(s) => s != ""
      case JArr(_) => true
      case JObj(_) => true
  }

  /** Property read on any value (`x?.key` where `x` may be missing):
      only objects have named properties here. */
  function Get(v: Option<Json>, key: string): Option<Json> {
    if v.Some? && v.value.JObj? then Lookup(v.value.members, key) else None
  }

  /** `a || b` on property values. */
  function Or(a: Option<Json>, b: Option<Json>): (r: Option<Json>)
    ensures Truthy(a) ==> r == a
    ensures !Truthy(a) ==> r == b
  {
    if Truthy(a) then a else b
  }

  /** The number a value denotes in `*` and comparisons: `undefined` and
      objects are NaN, null and false are 0, true is 1. Strings and arrays,
      which JavaScript coerces by parsing their text, are taken as NaN. */
  function ToNumber(v: Option<Json>): (r: Num)
    ensures v.Some? && v.value.JNum? ==> r == Num(v.value.n)
    ensures v.None? ==> r == NaN
  {
    match v
    case None => NaN
    case Some(j) =>
      match j
      case JNull => Num(0.0)
      case JBool(b) => if b then Num(1.0) else Num(0.0)
      case JNum(n) => Num(n)
      case _ => NaN
  }

  /** Object.keys(v).length for a truthy value. */
  function KeyCount(v: Json): nat {
    match v
    case JObj(ms) => |Distinct(Keys(ms))|
    case JArr(items) => |items|
    case JStr(s) => |s|
    case _ => 0
  }

  /** The keys in order of first appearance. */
  function Distinct(ks: seq<string>): (r: seq<string>)
    ensures forall k :: k in r <==> k in ks
    ensures |r| <= |ks|
    ensures NoDuplicates(r)
  {
    if ks == [] then []
    else
      var d := Distinct(ks[..|ks| - 1]);
      assert ks == ks[..|ks| - 1] + [ks[|ks| - 1]];
      if ks[|ks| - 1] in d then d else d + [ks[|ks| - 1]]
  }

  /** The position where `k` first occurs in `ks`. */
  function FirstIndex(ks: seq<string>, k: string): (r: nat)
    requires k in ks
    ensures r < |ks| && ks[r] == k
    ensures forall j :: 0 <= j < r ==> ks[j] != k
  {
    if ks[0] == k then 0 else 1 + FirstIndex(ks[1..], k)
  }

  lemma FirstIndexUnique(ks: seq<string>, k: string, r: nat)
    requires r < |ks| && ks[r] == k
    requires forall j :: 0 <= j < r ==> ks[j] != k
    ensures FirstIndex(ks, k) == r
  {
    var f := FirstIndex(ks, k);
    assert !(f < r) && !(r < f);
  }

  /** A key that occurs in a prefix first occurs where it does in the prefix. */
  lemma FirstIndexPrefix(ks: seq<string>, m: nat, k: string)
    requires m <= |ks| && k in ks[..m]
    ensures FirstIndex(ks, k) == FirstIndex(ks[..m], k)
  {
    FirstIndexUnique(ks, k, FirstIndex(ks[..m], k));
  }

  /** Distinct lists the keys in the order of their first appearance. */
  lemma {:induction false} DistinctInFirstOrder(ks: seq<string>)
    ensures forall i, j :: 0 <= i < j < |Distinct(ks)| ==>
              FirstIndex(ks, Distinct(ks)[i]) < FirstIndex(ks, Distinct(ks)[j])
    decreases |ks|
  {
    if ks != [] {
      var m := |ks| - 1;
      var p := ks[..m];
      var last := ks[m];
      var d := Distinct(p);
      DistinctInFirstOrder(p);
      var r := Distinct(ks);
      assert r == if last in d then d else d + [last];
      forall i, j | 0 <= i < j < |r| ensures FirstIndex(ks, r[i]) < FirstIndex(ks, r[j]) {
        assert r[i] == d[i];
        FirstIndexPrefix(ks, m, d[i]);
        if j < |d| {
          assert r[j] == d[j];
          FirstIndexPrefix(ks, m, d[j]);
          assert FirstIndex(p, d[i]) < FirstIndex(p, d[j]);
        } else {
          assert r[j] == last && last !in p;
          FirstIndexUnique(ks, last, m);
          assert FirstIndex(p, d[i]) < |p| == m;
        }
      }
    }
  }
}
