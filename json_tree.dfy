/** The JSON tree the codec produces and consumes: an `nlohmann::json` value, integers only.
    `nlohmann::json` keeps an object's members in a `std::map`, so an object here is a map
    and carries no member order. */
module JsonTree {

  datatype Json =
    | JNull
    | JBool(b: bool)
    | JNum(n: int)
    | JStr(str: string)
    | JArr(items: seq<Json>)
    | JObj(fields: map<string, Json>)

  /** `j[key] = v` on a null or object value: a null value first becomes an empty object,
      and an existing member with the same key is overwritten. */
  function Put(j: Json, key: string, v: Json): (r: Json)
    requires j.JNull? || j.JObj?
    ensures r.JObj? && key in r.fields && r.fields[key] == v
    ensures r.fields.Keys == (if j.JObj? then j.fields.Keys else {}) + {key}
    ensures forall k :: k in r.fields && k != key ==> j.JObj? && r.fields[k] == j.fields[k]
  {
    var prior := if j.JObj? then j.fields else map[];
    JObj(prior[key := v])
  }

  /** `j.push_back(v)` on a null or array value: a null value first becomes an empty array. */
  function PushBack(j: Json, v: Json): (r: Json)
    requires j.JNull? || j.JArr?
    ensures r.JArr? && |r.items| == (if j.JArr? then |j.items| else 0) + 1
    ensures r.items[|r.items| - 1] == v
    ensures j.JArr? ==> r.items[..|j.items|] == j.items
  {
    if j.JArr? then JArr(j.items + [v]) else JArr([v])
  }
}
