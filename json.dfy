/**
 * The values the extension receives as `unknown`: runtime messages and
 * whatever `chrome.storage.local` hands back.  They are JSON values.
 * An absent property (`undefined`) is not a value here: a lookup that
 * finds nothing yields `None`.
 */
module Json {
  import opened Wrappers

  datatype Json =
    | JNull
    | JBool(b: bool)
    | JNumber(n: real)
    | JString(s: string)
    | JArray(items: seq<Json>)
    | JObject(fields: map<string, Json>)

  /** `typeof v === "object" && v !== null`: true of objects and of arrays. */
  predicate IsObject(v: Json)
    ensures IsObject(v) <==> !(v.JNull? || v.JBool? || v.JNumber? || v.JString?)
  {
    v.JObject? || v.JArray?
  }

  /**
   * The property access `v[key]` for the keys the guards read (`from`,
   * `query`, `color`).  Arrays have own properties such as `length`, and
   * arrays and objects inherit prototype members such as `toString`, but
   * none of these is named `from`, `query` or `color`; so for those keys
   * only an object's own fields yield a value.
   */
  function Property(v: Json, key: string): (r: Option<Json>)
    ensures r.Some? <==> v.JObject? && key in v.fields
    ensures r.Some? ==> r.value == v.fields[key]
  {
    if v.JObject? && key in v.fields then Some(v.fields[key]) else None
  }
}
