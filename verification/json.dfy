/**
 * The values `JSON.parse` can produce. Object members are kept as a list in
 * JavaScript's property enumeration order (`Object.entries`), so operations
 * that loop over an object see them in the order the source does. A member
 * list is read with `Get`, which takes the first member with the key.
 */
module Json {
  import opened Types

  datatype Json =
    | JNull
    | JBool(b: bool)
    | JNumber(n: real)
    | JString(s: string)
    | JArray(items: seq<Json>)
    | JObject(members: seq<(string, Json)>)

  /** `key in obj` for an own property. */
  predicate Has(members: seq<(string, Json)>, key: string) {
    exists i :: 0 <= i < |members| && members[i].0 == key
  }

  /** `obj[key]`: `None` stands for `undefined`. */
  function Get(members: seq<(string, Json)>, key: string): (r: Option<Json>)
    ensures r.Some? <==> Has(members, key)
    ensures r.Some? ==> exists i :: 0 <= i < |members| && members[i] == (key, r.value)
  {
    if members == [] then None
    else if members[0].0 == key then Some(members[0].1)
    else
      var r := Get(members[1..], key);
      assert r.Some? ==> members[1..][0].0 == members[1].0;
      r
  }

  /** JavaScript truthiness of a JSON value (numbers: non-zero). */
  predicate Truthy(v: Json) {
    match v
    case JNull => false
    case JBool(b) => b
    case JNumber(n) => n != 0.0
    case JString(s) => s != ""
    case JArray(_) => true
    case JObject(_) => true
  }

  /** Truthiness of a property read that may be `undefined`. */
  predicate TruthyOpt(v: Option<Json>) {
    v.Some? && Truthy(v.value)
  }

  predicate IsString(v: Option<Json>) {
    v.Some? && v.value.JString?
  }
}
