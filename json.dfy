/**
  JSON values as sections 3 to 7 of RFC 8259 describe them: an object is an
  ordered list of members (name and value), an array an ordered list of values.
 */
module Json {
  import opened Wrappers

  datatype Value =
    | Null
    | Bool(b: bool)
    | Number(n: int)
    | String(s: string)
    | Array(items: seq<Value>)
    | Object(members: seq<(string, Value)>)

  /** The value of the first member of `members` whose name is `key`. */
  function Lookup(members: seq<(string, Value)>, key: string): (r: Option<Value>)
  {
    if members == [] then None
    else if members[0].0 == key then Some(members[0].1)
    else Lookup(members[1..], key)
  }
}
