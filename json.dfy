/** The part of nlohmann::json that the configuration reader relies on.

    The document tree is a small datatype. Parsing, flattening and dumping are
    the library's own algorithms and are not modelled: they are function values
    gathered in a `Library`. Member access with `at(key)` and the implicit
    conversion of a value to `int` are small enough to be stated here. */
module Json {
  import opened Wrappers

  /** A JSON value as nlohmann::json stores it. Objects are ordered maps with
      unique keys, so a `map` is enough. Integer and unsigned numbers are both
      `JInt`; a floating-point number carries the exact value of its double. */
  datatype Json =
    | JNull
    | JBool(b: bool)
    | JInt(i: int)
    | JFloat(x: real)
    | JString(s: string)
    | JArray(items: seq<Json>)
    | JObject(members: map<string, Json>)

  /** The library functions used by the configuration reader, which this model
      takes as given: `json::parse` (None when it throws), `json::flatten` and
      `json::dump`. */
  datatype Library = Library(
    parse: string -> Option<Json>,
    flatten: Json -> Json,
    dump: Json -> string)

  /** Bounds of a 32-bit C++ `int`. */
  const IntMin: int := -0x8000_0000
  const IntMax: int := 0x7fff_ffff

  predicate InIntRange(n: int) {
    IntMin <= n <= IntMax
  }

  /** `static_cast<int>` of a 64-bit integer: modular, keeps the low 32 bits. */
  function WrapToInt(n: int): (r: int)
    ensures InIntRange(r)
    ensures (r - n) % 0x1_0000_0000 == 0
    ensures InIntRange(n) ==> r == n
  {
    (n - IntMin) % 0x1_0000_0000 + IntMin
  }

  /** Conversion of a double to an integer: truncation toward zero. */
  function TruncateTowardZero(x: real): (r: int)
    ensures 0.0 <= x ==> r as real <= x < r as real + 1.0
    ensures x < 0.0 ==> r as real - 1.0 < x <= r as real
  {
    if x >= 0.0 then x.Floor else -((-x).Floor)
  }

  /** `basic_json::at(key)`: the member named `key` of an object. It throws
      (None here) when the key is missing or when the value is not an object. */
  function At(j: Json, key: string): (r: Option<Json>)
    ensures r.Some? <==> IsMember(j, key)
    ensures r.Some? ==> r.value == j.members[key]
  {
    if j.JObject? && key in j.members then Some(j.members[key]) else None
  }

  /** `j` is an object with a member named `key`. */
  predicate IsMember(j: Json, key: string) {
    j.JObject? && key in j.members
  }

  /** The kinds of value that convert to a number: numbers and booleans. */
  predicate IsIntConvertible(j: Json) {
    j.JInt? || j.JFloat? || j.JBool?
  }

  /** The floating value whose conversion to `int` would be undefined
      behaviour: its truncation does not fit in an `int`. */
  predicate UndefinedIntConversion(j: Json) {
    j.JFloat? && !InIntRange(TruncateTowardZero(j.x))
  }

  /** The implicit conversion of a value to `int` (`get<int>()`): numbers are
      cast, a boolean becomes 0 or 1, and every other kind throws a type
      error (None here). */
  function ToInt(j: Json): (r: Option<int>)
    requires !UndefinedIntConversion(j)
    ensures r.Some? <==> IsIntConvertible(j)
    ensures r.Some? ==> InIntRange(r.value)
    ensures j.JInt? ==> r == Some(WrapToInt(j.i))
    ensures j.JInt? && InIntRange(j.i) ==> r == Some(j.i)
    ensures j.JFloat? ==> r == Some(TruncateTowardZero(j.x))
    ensures j.JBool? ==> r == Some(if j.b then 1 else 0)
  {
    match j
    case JInt(i) => Some(WrapToInt(i))
    case JFloat(x) => Some(TruncateTowardZero(x))
    case JBool(b) => Some(if b then 1 else 0)
    case _ => None
  }
}
