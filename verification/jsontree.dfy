/** An already-decoded JSON document and the getters of go-simplejson the
    parser uses. Decoding JSON text is not part of this model. */
module JsonTree {

  /** JSON values as the certificate-search response uses them. */
  datatype Json =
    | JNull
    | JBool(b: bool)
    | JNumber(n: int)
    | JString(s: string)
    | JArray(elems: seq<Json>)

  const MinInt64: int := -0x8000_0000_0000_0000
  const MaxInt64: int := 0x7FFF_FFFF_FFFF_FFFF

  /** Go's `int64`. */
  type Int64 = x: int | MinInt64 <= x <= MaxInt64

  /** `GetIndex(i)`: element `i` of an array, and JSON null for anything
      else (an index past the end, a value that is not an array). */
  function GetIndex(j: Json, i: nat): Json {
    if j.JArray? && i < |j.elems| then j.elems[i] else JNull
  }

  /** `MustString()`: the string, or "" when the value is not a string. */
  function MustString(j: Json): string {
    if j.JString? then j.s else ""
  }

  /** `MustInt64()`: the number when it is an integer that fits an `int64`,
      and 0 otherwise. */
  function MustInt64(j: Json): Int64 {
    if j.JNumber? && MinInt64 <= j.n <= MaxInt64 then j.n else 0
  }
}
