/** Parsed JSON values and the JavaScript operations the route handlers
    apply to them: property reads, truthiness, `||`, `??` and `String(v)`. */
module Json {
  import opened Wrappers
  import opened Text

  /** A value produced by `JSON.parse`. A number carries its value and the
      text JavaScript's `String(n)` gives for it (double-to-text conversion is
      not part of this model; see `WellFormedNumber` for integers). Object
      members are kept in source order, duplicates included. */
  datatype Json =
    | JNull
    | JBool(b: bool)
    | JNum(value: real, text: string)
    | JStr(s: string)
    | JArr(items: seq<Json>)
    | JObj(fields: seq<(string, Json)>)

  /** An absent property (`undefined`) is `None`. */
  type JsValue = Option<Json>

  predicate IsInteger(x: real) {
    x.Floor as real == x
  }

  /** The text of an integral number below 10^21 is its plain decimal form. */
  predicate WellFormedNumber(v: Json)
    requires v.JNum?
  {
    (IsInteger(v.value) && -1_000_000_000_000_000_000_000.0 < v.value < 1_000_000_000_000_000_000_000.0)
    ==> v.text == IntToDecimal(v.value.Floor)
  }

  /** A member lookup: the value of the LAST member named `key`, as
      `JSON.parse` keeps the last of duplicate keys; `None` when absent. */
  function Get(fields: seq<(string, Json)>, key: string): (r: JsValue)
    ensures r.None? <==> forall i :: 0 <= i < |fields| ==> fields[i].0 != key
    ensures r.Some? ==> exists i :: 0 <= i < |fields| && fields[i] == (key, r.value)
  {
    if fields == [] then None
    else if fields[|fields| - 1].0 == key then Some(fields[|fields| - 1].1)
    else Get(fields[..|fields| - 1], key)
  }

  /** Looking a key up in two member lists laid end to end finds it in the
      second list first: later members override earlier ones, as in
      `{...a, ...b}`. */
  lemma {:induction false} GetAppend(a: seq<(string, Json)>, b: seq<(string, Json)>, key: string)
    ensures Get(a + b, key) == if Get(b, key).Some? then Get(b, key) else Get(a, key)
    decreases |b|
  {
    if b == [] {
      assert a + b == a;
    } else {
      var ab := a + b;
      assert ab[|ab| - 1] == b[|b| - 1];
      assert ab[..|ab| - 1] == a + b[..|b| - 1];
      GetAppend(a, b[..|b| - 1], key);
    }
  }

  /** The member found is the last one carrying the key. */
  lemma {:induction false} GetLast(fields: seq<(string, Json)>, key: string, i: nat)
    requires i < |fields| && fields[i].0 == key
    requires forall j :: i < j < |fields| ==> fields[j].0 != key
    ensures Get(fields, key) == Some(fields[i].1)
    decreases |fields|
  {
    if i != |fields| - 1 {
      var prefix := fields[..|fields| - 1];
      assert forall j :: i < j < |prefix| ==> prefix[j] == fields[j];
      GetLast(prefix, key, i);
    }
  }

  /** The members of an object literal once serialised: properties whose
      value is `undefined` are dropped, the rest kept in order. */
  function ObjectOf(entries: seq<(string, JsValue)>): (fields: seq<(string, Json)>)
    ensures |fields| <= |entries|
    decreases |entries|
  {
    if entries == [] then []
    else
      var last := entries[|entries| - 1];
      ObjectOf(entries[..|entries| - 1]) + (if last.1.Some? then [(last.0, last.1.value)] else [])
  }

  predicate DistinctKeys(entries: seq<(string, JsValue)>) {
    forall a, b :: 0 <= a < b < |entries| ==> entries[a].0 != entries[b].0
  }

  /** A key no entry carries is absent from the object. */
  lemma {:induction false} ObjectOfAbsent(entries: seq<(string, JsValue)>, key: string)
    requires forall j :: 0 <= j < |entries| ==> entries[j].0 != key
    ensures Get(ObjectOf(entries), key) == None
    decreases |entries|
  {
    if entries != [] {
      var prefix := entries[..|entries| - 1];
      var last := entries[|entries| - 1];
      var tail := if last.1.Some? then [(last.0, last.1.value)] else [];
      ObjectOfAbsent(prefix, key);
      GetAppend(ObjectOf(prefix), tail, key);
    }
  }

  /** Reading a property back from the serialised object gives the entry's
      value, `undefined` included, when the keys are distinct. */
  lemma {:induction false} ObjectOfLookup(entries: seq<(string, JsValue)>, i: nat)
    requires i < |entries| && DistinctKeys(entries)
    ensures Get(ObjectOf(entries), entries[i].0) == entries[i].1
    decreases |entries|
  {
    var key := entries[i].0;
    var prefix := entries[..|entries| - 1];
    var last := entries[|entries| - 1];
    var tail := if last.1.Some? then [(last.0, last.1.value)] else [];
    GetAppend(ObjectOf(prefix), tail, key);
    if i == |entries| - 1 {
      ObjectOfAbsent(prefix, key);
    } else {
      assert prefix[i] == entries[i];
      ObjectOfLookup(prefix, i);
    }
  }

  /** `v?.key`: reading a property of an object; anything else yields `undefined`. */
  function Prop(v: JsValue, key: string): JsValue {
    if v.Some? && v.value.JObj? then Get(v.value.fields, key) else None
  }

  /** JavaScript truthiness of a parsed value (JSON cannot produce NaN). */
  predicate Truthy(v: JsValue) {
    match v
    case None => false
    case Some(JNull) => false
    case Some(JBool(b)) => b
    case Some(JNum(x, _)) => x != 0.0
    case Some(JStr(s)) => s != ""
    case Some(_) => true
  }

  /** `undefined` or `null`: what `??` skips. */
  predicate Nullish(v: JsValue) {
    v.None? || v.value.JNull?
  }

  /** `a || b`. */
  function Or(a: JsValue, b: JsValue): (r: JsValue)
    ensures Truthy(a) ==> r == a
    ensures !Truthy(a) ==> r == b
  {
    if Truthy(a) then a else b
  }

  /** `a ?? b`. */
  function Coalesce(a: JsValue, b: JsValue): (r: JsValue)
    ensures !Nullish(a) ==> r == a
    ensures Nullish(a) ==> r == b
  {
    if Nullish(a) then b else a
  }

  /** `String(v)`: arrays join their elements with commas (null elements
      print as nothing), objects print as "[object Object]". */
  function JsString(v: Json): string
    decreases v
  {
    match v
    case JNull => "null"
    case JBool(b) => if b then "true" else "false"
    case JNum(_, text) => text
    case JStr(s) => s
    case JArr(items) => Join(seq(|items|, i requires 0 <= i < |items| => if items[i].JNull? then "" else JsString(items[i])), ",")
    case JObj(_) => "[object Object]"
  }
}
