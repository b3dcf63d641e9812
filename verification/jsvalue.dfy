/**
 * A parsed JSON document as JavaScript holds it, and JavaScript's own
 * property read `v[key]` on such a value.
 */
module JsValue {
  import opened Wrappers

  /**
   * A JSON value. An object is the list of its own enumerable properties in
   * the order `Object.keys` enumerates them; as in every JavaScript object,
   * the property names are distinct (`UniqueNames`), and lemmas that need it
   * say so. Numbers are carried, never computed with, so a real stands for
   * an IEEE double.
   */
  datatype Json =
    | JNull
    | JBool(b: bool)
    | JNum(n: real)
    | JStr(s: string)
    | JArr(items: seq<Json>)
    | JObj(props: seq<(string, Json)>)

  predicate IsDigit(c: char) {
    '0' <= c <= '9'
  }

  predicate AllDigits(s: string) {
    forall i :: 0 <= i < |s| ==> IsDigit(s[i])
  }

  /** A key that names an array or string element: a decimal numeral without leading zeros. */
  predicate IsCanonicalIndex(k: string) {
    |k| > 0 && AllDigits(k) && (k[0] == '0' ==> |k| == 1)
  }

  function DigitChar(d: nat): (c: char)
    requires d < 10
    ensures IsDigit(c) && (c == '0' <==> d == 0)
  {
    ('0' as int + d) as char
  }

  function DigitValue(c: char): nat
    requires IsDigit(c)
  {
    c as int - '0' as int
  }

  /** The property key JavaScript uses for element `n` of an array or string, i.e. `String(n)`. */
  function IndexKey(n: nat): (k: string)
    ensures IsCanonicalIndex(k)
    ensures |k| == 1 <==> n < 10
  {
    if n < 10 then [DigitChar(n)] else IndexKey(n / 10) + [DigitChar(n % 10)]
  }

  /** The number a string of decimal digits denotes. */
  function DigitsValue(s: string): nat
    requires AllDigits(s)
  {
    if s == [] then 0 else DigitsValue(s[..|s| - 1]) * 10 + DigitValue(s[|s| - 1])
  }

  /** The element position a property key names, when it names one. */
  function IndexOf(k: string): Option<nat> {
    if IsCanonicalIndex(k) then Some(DigitsValue(k)) else None
  }

  lemma {:induction false} IndexKeyValue(n: nat)
    ensures DigitsValue(IndexKey(n)) == n
  {
    if n >= 10 {
      var k := IndexKey(n / 10) + [DigitChar(n % 10)];
      assert k[..|k| - 1] == IndexKey(n / 10);
      IndexKeyValue(n / 10);
    }
  }

  /** Every element position has a key that reads back as that position. */
  lemma IndexKeyRoundTrip(n: nat)
    ensures IndexOf(IndexKey(n)) == Some(n)
  {
    IndexKeyValue(n);
  }

  lemma {:induction false} LeadingDigitPositive(s: string)
    requires |s| > 0 && AllDigits(s) && s[0] != '0'
    ensures DigitsValue(s) > 0
  {
    if |s| > 1 {
      LeadingDigitPositive(s[..|s| - 1]);
    }
  }

  /** Every index key is the key of the position it names: keys and positions correspond one to one. */
  lemma {:induction false} IndexOfRoundTrip(k: string)
    requires IndexOf(k).Some?
    ensures IndexKey(IndexOf(k).value) == k
  {
    var n := DigitsValue(k);
    if |k| > 1 {
      var p := k[..|k| - 1];
      assert IsCanonicalIndex(p) by { assert p[0] == k[0]; }
      LeadingDigitPositive(p);
      IndexOfRoundTrip(p);
      assert n / 10 == DigitsValue(p) && n % 10 == DigitValue(k[|k| - 1]);
      assert n >= 10;
      assert k == p + [k[|k| - 1]];
    } else {
      assert DigitsValue(k) == DigitsValue(k[..0]) * 10 + DigitValue(k[0]);
      assert k[..0] == [];
      assert k == [DigitChar(n)];
    }
  }

  /** The names of an ordered list of named entries, in order. */
  function Names<V>(entries: seq<(string, V)>): (ks: seq<string>)
    ensures |ks| == |entries| && forall i :: 0 <= i < |entries| ==> ks[i] == entries[i].0
  {
    seq(|entries|, i requires 0 <= i < |entries| => entries[i].0)
  }

  /** No two entries share a name, as no two properties of a JavaScript object do. */
  predicate UniqueNames<V>(entries: seq<(string, V)>) {
    forall i, j :: 0 <= i < j < |entries| ==> entries[i].0 != entries[j].0
  }

  /**
   * The value of the first entry named `key`, `undefined` when there is
   * none: a property read on an object, or a field read on a record. With
   * unique names the first entry is the only one.
   */
  function Lookup<V>(entries: seq<(string, V)>, key: string): (r: Option<V>)
    ensures r.None? <==> forall i :: 0 <= i < |entries| ==> entries[i].0 != key
    ensures r.Some? ==> exists i :: 0 <= i < |entries| && entries[i] == (key, r.value)
                                    && forall j :: 0 <= j < i ==> entries[j].0 != key
  {
    if entries == [] then None
    else if entries[0].0 == key then Some(entries[0].1)
    else Lookup(entries[1..], key)
  }

  /** An entry that no earlier entry shadows is read back as stored, whatever its type. */
  lemma {:induction false} LookupAt<V>(entries: seq<(string, V)>, i: nat)
    requires i < |entries|
    requires forall j :: 0 <= j < i ==> entries[j].0 != entries[i].0
    ensures Lookup(entries, entries[i].0) == Some(entries[i].1)
  {
    if i > 0 {
      LookupAt(entries[1..], i - 1);
    }
  }

  /** With unique names, every entry is read back as stored. */
  lemma LookupUnique<V>(entries: seq<(string, V)>, i: nat)
    requires i < |entries| && UniqueNames(entries)
    ensures Lookup(entries, entries[i].0) == Some(entries[i].1)
  {
    LookupAt(entries, i);
  }

  /**
   * JavaScript's read `v[key]` of an own property of a value that is not
   * null: an object's property, an array element or a one-character
   * string by index key, and `length` of an array or string. Reading a
   * property of null throws, so callers rule it out.
   */
  function Member(v: Json, key: string): (r: Option<Json>)
    requires !v.JNull?
    ensures (v.JBool? || v.JNum?) ==> r.None?
    ensures (v.JArr? || v.JStr?) && r.Some? ==> key == "length" || IndexOf(key).Some?
  {
    match v
    case JObj(props) => Lookup(props, key)
    case JArr(items) =>
      if key == "length" then Some(JNum(|items| as real))
      else if IndexOf(key).Some? && IndexOf(key).value < |items| then Some(items[IndexOf(key).value])
      else None
    case JStr(s) =>
      if key == "length" then Some(JNum(|s| as real))
      else if IndexOf(key).Some? && IndexOf(key).value < |s| then Some(JStr([s[IndexOf(key).value]]))
      else None
    case _ => None
  }

  /** The key of an element reads that element. */
  lemma MemberAtIndex(v: Json, n: nat)
    requires v.JArr? || v.JStr?
    ensures v.JArr? && n < |v.items| ==> Member(v, IndexKey(n)) == Some(v.items[n])
    ensures v.JStr? && n < |v.s| ==> Member(v, IndexKey(n)) == Some(JStr([v.s[n]]))
    ensures v.JArr? && n >= |v.items| ==> Member(v, IndexKey(n)) == None
    ensures v.JStr? && n >= |v.s| ==> Member(v, IndexKey(n)) == None
  {
    IndexKeyRoundTrip(n);
    assert IndexKey(n) != "length" by { assert IsDigit(IndexKey(n)[0]); assert !IsDigit("length"[0]); }
  }
}
