/**
 * The observable behaviour of the two lodash helpers the extractor uses:
 * `get(object, path)`, a read along a path that yields `undefined` instead of
 * throwing, and `keys(object)`, the ordered list of a value's own
 * enumerable keys.
 */
module Lodash {
  import opened Wrappers
  import opened JsValue

  /** `String(undefined)`: the key lodash reads when a path segment is `undefined`. */
  const UndefinedKey: string := "undefined"

  /** lodash's `toKey` on a segment that is a string or `undefined`. */
  function ToKey(segment: Option<string>): string {
    match segment
    case Some(s) => s
    case None => UndefinedKey
  }

  /** Follows `path` from `v`, stopping with `undefined` at the first null or undefined step. */
  function Walk(v: Option<Json>, path: seq<string>): (r: Option<Json>)
    ensures v.None? ==> r.None?
    ensures r.Some? && path != [] ==> v.Some? && !v.value.JNull?
    decreases |path|
  {
    if path == [] then v
    else if v.None? || v.value.JNull? then None
    else Walk(Member(v.value, path[0]), path[1..])
  }

  /**
   * `get(v, path)`. An empty path yields `undefined`; a null stored at the
   * end of the path is returned as null.
   */
  function Get(v: Option<Json>, path: seq<string>): (r: Option<Json>)
    ensures path == [] ==> r.None?
    ensures r.Some? ==> v.Some? && !v.value.JNull?
  {
    if path == [] then None else Walk(v, path)
  }

  /** Reading along `p + q` is reading along `p`, then along `q` from there. */
  lemma {:induction false} WalkAppend(v: Option<Json>, p: seq<string>, q: seq<string>)
    ensures Walk(v, p + q) == Walk(Walk(v, p), q)
    decreases |p|
  {
    if p == [] {
      assert p + q == q;
    } else if v.None? || v.value.JNull? {
      if q != [] {
        assert Walk(None, q) == None;
      }
    } else {
      assert (p + q)[1..] == p[1..] + q;
      WalkAppend(Member(v.value, p[0]), p[1..], q);
    }
  }

  lemma GetAppend(v: Option<Json>, p: seq<string>, q: seq<string>)
    requires p != [] && q != []
    ensures Get(v, p + q) == Get(Get(v, p), q)
  {
    WalkAppend(v, p, q);
  }

  /** A step that is missing or null anywhere on the path makes the whole read `undefined`. */
  lemma AbsentStepPropagates(v: Option<Json>, p: seq<string>, q: seq<string>)
    requires p != [] && q != []
    requires Get(v, p).None? || Get(v, p).value.JNull?
    ensures Get(v, p + q) == None
  {
    GetAppend(v, p, q);
  }

  /** A one-step read of a non-null value is JavaScript's property read. */
  lemma GetStep(v: Json, key: string, rest: seq<string>)
    requires !v.JNull?
    ensures Get(Some(v), [key] + rest) == Walk(Member(v, key), rest)
  {
    assert ([key] + rest)[1..] == rest;
  }

  lemma GetOne(v: Json, key: string)
    requires !v.JNull?
    ensures Get(Some(v), [key]) == Member(v, key)
  {
    GetStep(v, key, []);
    assert [key] + [] == [key];
  }

  /** `String(0)`, `String(1)`, ... up to `n - 1`. */
  function IndexKeys(n: nat): (ks: seq<string>)
    ensures |ks| == n && forall i :: 0 <= i < n ==> ks[i] == IndexKey(i)
  {
    if n == 0 then [] else IndexKeys(n - 1) + [IndexKey(n - 1)]
  }

  /**
   * `keys(v)`: an object's property names in order, the index keys of an
   * array or string, and nothing for undefined, null, booleans and numbers.
   */
  function Keys(v: Option<Json>): (ks: seq<string>)
    ensures v.Some? && v.value.JObj? ==> |ks| == |v.value.props|
    ensures v.Some? && v.value.JArr? ==> |ks| == |v.value.items|
    ensures v.Some? && v.value.JStr? ==> |ks| == |v.value.s|
    ensures v.None? || v.value.JNull? || v.value.JBool? || v.value.JNum? ==> ks == []
  {
    match v
    case None => []
    case Some(JObj(props)) => Names(props)
    case Some(JArr(items)) => IndexKeys(|items|)
    case Some(JStr(s)) => IndexKeys(|s|)
    case Some(_) => []
  }

  /** `keys(v)[0]`, `undefined` when there are no keys. */
  function FirstKey(v: Option<Json>): (k: Option<string>)
    ensures k.None? <==> Keys(v) == []
    ensures k.Some? ==> v.Some? && !v.value.JNull? && Member(v.value, k.value).Some?
  {
    var ks := Keys(v);
    if ks == [] then None
    else
      KeysAreReadable(v, 0);
      Some(ks[0])
  }

  /** Every key `keys` enumerates can be read back from the value. */
  lemma KeysAreReadable(v: Option<Json>, i: nat)
    requires i < |Keys(v)|
    ensures v.Some? && !v.value.JNull?
    ensures Member(v.value, Keys(v)[i]).Some?
  {
    match v.value
    case JObj(props) =>
      assert Keys(v)[i] == props[i].0;
    case JArr(items) =>
      MemberAtIndex(v.value, i);
    case JStr(s) =>
      MemberAtIndex(v.value, i);
  }

  /** The first key of an object is its first property, and reading it gives that property's value. */
  lemma FirstKeyOfObject(props: seq<(string, Json)>)
    ensures FirstKey(Some(JObj(props))) == if props == [] then None else Some(props[0].0)
    ensures props != [] ==> Member(JObj(props), props[0].0) == Some(props[0].1)
  {
  }

  /** The first key of a non-empty array or string is `"0"`, which reads element 0. */
  lemma FirstKeyOfSequence(v: Json)
    requires v.JArr? || v.JStr?
    ensures FirstKey(Some(v)) == if (v.JArr? && v.items == []) || (v.JStr? && v.s == []) then None else Some("0")
    ensures v.JArr? && v.items != [] ==> Member(v, "0") == Some(v.items[0])
    ensures v.JStr? && v.s != [] ==> Member(v, "0") == Some(JStr([v.s[0]]))
  {
    assert IndexKey(0) == "0";
    MemberAtIndex(v, 0);
  }

  /** With no keys to pick from, the `"undefined"` key lodash falls back on reads nothing. */
  lemma NoKeysReadsNothing(v: Option<Json>, rest: seq<string>)
    requires Keys(v) == []
    ensures Walk(v, [UndefinedKey] + rest) == None
  {
  }
}
