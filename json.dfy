/**
 * The configuration document, taken as an already-parsed JSON value.
 *
 * Reading the file and the text-level grammar of JSON are not modelled: the loader
 * receives either a value of this type or the information that the file could not
 * be read or parsed. `JUint` is a non-negative JSON integer; whether RapidJSON's
 * `GetUint` accepts it also depends on its width (see `IsUint`).
 */
module Json {

  import opened Wrappers

  datatype Json =
    | JUint(n: nat)
    | JString(s: string)
    | JArray(items: seq<Json>)
    | JObject(members: map<string, Json>)
    | JOther  // null, a boolean, a negative or fractional number

  /** The first number `GetUint` refuses: it accepts 32-bit unsigned values only. */
  const Uint32Limit: nat := 0x1_0000_0000

  /** What the configuration file handed to the loader turned out to be. */
  datatype ConfigFile =
    | Unreadable        // the file could not be opened or is not well-formed JSON
    | Parsed(doc: Json)

  /** `obj[name]`: the member of an object, if `obj` is an object that has it. */
  function Member(obj: Json, name: string): (r: Option<Json>)
    ensures r.Some? <==> obj.JObject? && name in obj.members
    ensures r.Some? ==> r.value == obj.members[name]
  {
    if obj.JObject? && name in obj.members then Some(obj.members[name]) else None
  }

  /** `GetUint` succeeds on `v`. */
  predicate IsUint(v: Json) {
    v.JUint? && v.n < Uint32Limit
  }

  /** `obj[name].GetUint()`, or None where RapidJSON would fail. */
  function UintMember(obj: Json, name: string): (r: Option<nat>)
    ensures r.Some? <==> Member(obj, name).Some? && IsUint(Member(obj, name).value)
    ensures r.Some? ==> JUint(r.value) == obj.members[name] && r.value < Uint32Limit
  {
    match Member(obj, name)
    case Some(v) => if IsUint(v) then Some(v.n) else None
    case None => None
  }

  /** `obj[name].GetString()`, or None where RapidJSON would fail. */
  function StringMember(obj: Json, name: string): (r: Option<string>)
    ensures r.Some? <==> Member(obj, name).Some? && Member(obj, name).value.JString?
    ensures r.Some? ==> JString(r.value) == obj.members[name]
  {
    match Member(obj, name)
    case Some(JString(s)) => Some(s)
    case _ => None
  }
}
