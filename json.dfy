/**
 * JSON values as `JSON.parse` returns them, and the little of JavaScript's
 * property access the converters rely on. `JSON.parse`/`JSON.stringify`
 * themselves stay abstract: callers pass them in as functions.
 */
module Json {
  import opened Wrappers

  /** A parsed JSON value; an object keeps its members in insertion order. */
  datatype Json =
    | JNull
    | JBool(b: bool)
    | JNumber(n: int)
    | JString(str: string)
    | JObject(members: seq<Member>)

  datatype Member = Member(key: string, value: Json)

  /** The exceptions the modelled code can raise. */
  datatype JsError = TypeError(message: string) | QuotaExceededError

  /** The value of the first member named `key`, if any. */
  function Lookup(members: seq<Member>, key: string): (r: Option<Json>)
    ensures r.Some? <==> exists i :: 0 <= i < |members| && members[i].key == key
    ensures r.Some? ==> exists i :: 0 <= i < |members| && members[i] == Member(key, r.value)
  {
    if members == [] then None
    else if members[0].key == key then Some(members[0].value)
    else
      var r := Lookup(members[1..], key);
      assert forall i :: 1 <= i < |members| ==> members[i] == members[1..][i - 1];
      r
  }

  /**
   * `v[key]` on a JSON value: `Ok(None)` stands for `undefined`. Reading a
   * property of `null` throws; strings, numbers and booleans have none of the
   * properties read here.
   */
  function GetProperty(v: Json, key: string): (r: Result<Option<Json>, JsError>)
    ensures r.Err? <==> v == JNull
    ensures r.Ok? && r.value.Some? ==> v.JObject?
  {
    match v
    case JNull => Err(TypeError("Cannot read properties of null (reading '" + key + "')"))
    case JObject(members) => Ok(Lookup(members, key))
    case _ => Ok(None)
  }
}
