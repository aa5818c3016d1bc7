/**
 * JSON values as `JSON.parse` produces them and as the route handlers inspect them
 * (`typeof`, property reads, truthiness, `String(...)`), and the JSON responses the
 * handlers return.
 */
module Json {
  import opened Wrappers
  import JsNumber
  import JsString

  datatype Json =
    | JNull
    | JBool(b: bool)
    | JNumber(n: JsNumber.Decimal)
    | JString(s: string)
    | JArray(items: seq<Json>)
    | JObject(fields: map<string, Json>)

  /** `typeof v === "object" && v !== null`: objects and arrays. */
  predicate IsObject(v: Json) {
    v.JObject? || v.JArray?
  }

  /** The property read `v[key]` on a parsed value: `None` is `undefined`. */
  function Get(v: Json, key: string): Option<Json> {
    if v.JObject? && key in v.fields then Some(v.fields[key]) else None
  }

  /** `key in v` on an object or array. */
  predicate Has(v: Json, key: string) {
    v.JObject? && key in v.fields
  }

  /** JavaScript truthiness of a possibly `undefined` value. */
  predicate Truthy(v: Option<Json>) {
    match v
    case None => false
    case Some(JNull) => false
    case Some(JBool(b)) => b
    case Some(JNumber(d)) => JsNumber.Value(d) != 0.0
    case Some(JString(s)) => s != ""
    case Some(_) => true
  }

  /** The string, when `typeof v === "string"`. */
  function AsString(v: Option<Json>): Option<string> {
    if v.Some? && v.value.JString? then Some(v.value.s) else None
  }

  /** The number, when `typeof v === "number"` (JSON has no NaN or infinities). */
  function AsNumber(v: Option<Json>): Option<JsNumber.Decimal> {
    if v.Some? && v.value.JNumber? then Some(v.value.n) else None
  }

  /** `v == null`: `null` or `undefined`. */
  predicate IsNullish(v: Option<Json>) {
    v.None? || v.value.JNull?
  }

  /** `String(v)`. */
  function ToJsString(v: Json): string
    decreases v, 1
  {
    match v
    case JNull => "null"
    case JBool(b) => if b then "true" else "false"
    case JNumber(d) => JsNumber.NumberToString(JsNumber.Finite(d))
    case JString(s) => s
    case JArray(items) => JoinItems(v, items, 0)
    case JObject(_) => "[object Object]"
  }

  /** `Array.prototype.join(",")` from index `i`: `null` elements give empty strings. */
  function JoinItems(parent: Json, items: seq<Json>, i: nat): string
    requires parent.JArray? && items == parent.items
    decreases parent, 0, |items| - i
  {
    if i >= |items| then ""
    else
      var piece := if items[i].JNull? then "" else ToJsString(items[i]);
      if i == |items| - 1 then piece else piece + "," + JoinItems(parent, items, i + 1)
  }

  /** An HTTP JSON response. */
  datatype Response = Response(status: nat, body: Json)

  /** `NextResponse.json({ error: message }, { status })`. */
  function ErrorResponse(status: nat, message: string): (r: Response)
    ensures r.status == status && Get(r.body, "error") == Some(JString(message))
  {
    Response(status, JObject(map["error" := JString(message)]))
  }

  /** `response.ok`: a status in 200-299. */
  predicate IsOkStatus(status: nat) {
    200 <= status <= 299
  }

  /**
   * A response as the browser receives it; `body` is `None` when it is not JSON,
   * so that `res.json()` throws.
   */
  datatype HttpReply = HttpReply(status: nat, body: Option<Json>)

  /**
   * A property read on `await res.json()` throws: the body is not JSON (`None`), or it
   * is `null`, on which reading any property is a `TypeError`.
   */
  predicate ReadThrows(body: Option<Json>) {
    body.None? || body.value.JNull?
  }

  /** `data.error || fallback` on the parsed body; `None` when the read throws. */
  function ErrorText(body: Option<Json>, fallback: string): (r: Option<string>)
    ensures r.None? <==> ReadThrows(body)
    ensures !ReadThrows(body) && AsString(Get(body.value, "error")).Some? && AsString(Get(body.value, "error")).value != "" ==>
      r == AsString(Get(body.value, "error"))
    ensures !ReadThrows(body) && !Truthy(Get(body.value, "error")) ==> r == Some(fallback)
  {
    if ReadThrows(body) then None
    else
      var e := Get(body.value, "error");
      Some(if Truthy(e) then ToJsString(e.value) else fallback)
  }

  /** A response with status 200 and the given body. */
  function Success(body: Json): Response {
    Response(200, body)
  }

  /**
   * An object literal, property by property; a later property of the same name wins,
   * and one whose value is `undefined` is left out by `JSON.stringify`.
   */
  function ObjectOf(props: seq<(string, Option<Json>)>): (r: Json)
    ensures r.JObject?
  {
    JObject(FieldsOf(props, |props|))
  }

  /** The fields the first `n` properties define. */
  function FieldsOf(props: seq<(string, Option<Json>)>, n: nat): map<string, Json>
    requires n <= |props|
  {
    if n == 0 then map[]
    else
      var fields := FieldsOf(props, n - 1);
      var (k, v) := props[n - 1];
      if v.Some? then fields[k := v.value] else fields - {k}
  }

  /** The value of the last of the first `n` properties named `key` (`None` when there is none). */
  function LastValue(props: seq<(string, Option<Json>)>, key: string, n: nat): Option<Json>
    requires n <= |props|
  {
    if n == 0 then None
    else if props[n - 1].0 == key then props[n - 1].1
    else LastValue(props, key, n - 1)
  }

  /** Reading a property of the object gives the value the literal last wrote for it. */
  lemma {:induction false} GetObjectOf(props: seq<(string, Option<Json>)>, key: string)
    ensures Get(ObjectOf(props), key) == LastValue(props, key, |props|)
  {
    FieldsOfLast(props, key, |props|);
  }

  lemma {:induction false} FieldsOfLast(props: seq<(string, Option<Json>)>, key: string, n: nat)
    requires n <= |props|
    ensures var f := FieldsOf(props, n);
      (if key in f then Some(f[key]) else None) == LastValue(props, key, n)
  {
    if n > 0 {
      FieldsOfLast(props, key, n - 1);
    }
  }

  /** In a literal whose property names are distinct, each property is read back as written. */
  lemma {:induction false} LastValueOfDistinct(props: seq<(string, Option<Json>)>, i: nat, n: nat)
    requires i < n <= |props|
    requires forall j :: i < j < n ==> props[j].0 != props[i].0
    ensures LastValue(props, props[i].0, n) == props[i].1
  {
    if i < n - 1 {
      LastValueOfDistinct(props, i, n - 1);
    }
  }

  /** A name no property has reads as `undefined`. */
  lemma {:induction false} LastValueOfAbsent(props: seq<(string, Option<Json>)>, key: string, n: nat)
    requires n <= |props|
    requires forall j :: 0 <= j < n ==> props[j].0 != key
    ensures LastValue(props, key, n) == None
  {
    if n > 0 {
      LastValueOfAbsent(props, key, n - 1);
    }
  }
}
