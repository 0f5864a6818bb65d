/**
  The JSON-like structure the document-index generator emits: PHP arrays
  are either lists or objects whose members keep their insertion order.
*/
module Json {
  import opened Conditions
  import opened Outcomes

  datatype Json =
    | Scalar(v: Value)
    | List(items: seq<Json>)
    | Object(members: seq<(string, Json)>)

  /** The empty PHP array `[]`, the generator's "nothing to emit". */
  const Empty: Json := Object([])

  function Str(s: string): Json {
    Scalar(Text(s))
  }

  /** An object with a single member. */
  function Single(key: string, value: Json): Json {
    Object([(key, value)])
  }

  /** The value stored under `key` in an object, the first one if the key repeats. */
  function Member(j: Json, key: string): Option<Json> {
    if !j.Object? then None else Find(j.members, key)
  }

  function Find(members: seq<(string, Json)>, key: string): Option<Json> {
    if |members| == 0 then None
    else if members[0].0 == key then Some(members[0].1)
    else Find(members[1..], key)
  }
}
