/**
 JSON values as the reader sees them after `json.Unmarshal`, and the two
 library calls the decoders depend on.

 The decoders never build JSON themselves: they only ask the library to
 decode a raw message into a generic value and then inspect its shape. The
 library's parsers are therefore taken as parameters (`Parsers`) and are
 otherwise unconstrained, so every property proved here holds whatever text
 the library accepts.
 */
module Json {

  datatype Option<+T> = None | Some(value: T)

  /** A decoded JSON document. Numbers keep their literal text, because whether
      a number fits a Go `int` field depends on how it was written. */
  datatype Json =
    | JNull
    | JBool(b: bool)
    | JNumber(literal: string)
    | JString(str: string)
    | JArray(items: seq<Json>)
    | JObject(fields: map<string, Json>)

  /** The library calls: `json.Unmarshal` into `interface{}` and
      `strconv.ParseFloat(s, 64)`. The first is None when the text is not
      JSON, and also when any number literal in it is outside the float64
      range (decoding into `interface{}` turns every number into a float64).
      The second is None on any error, a value out of range included. */
  datatype Parsers = Parsers(unmarshal: string -> Option<Json>, parseFloat: string -> Option<real>)

  /** `json.Unmarshal(message, &raw)` with `raw map[string]interface{}`: it
      succeeds on an object and on `null`, which leaves a nil map whose
      lookups all miss. */
  function UnmarshalMap(parsed: Option<Json>): Option<map<string, Json>>
  {
    match parsed
    case Some(JObject(fields)) => Some(fields)
    case Some(JNull) => Some(map[])
    case _ => None
  }

  /** `json.Unmarshal(message, &raw)` with `raw []interface{}`: it succeeds
      on an array and on `null`, which leaves a nil slice of length zero. */
  function UnmarshalSlice(parsed: Option<Json>): Option<seq<Json>>
  {
    match parsed
    case Some(JArray(items)) => Some(items)
    case Some(JNull) => Some([])
    case _ => None
  }

  /** `raw[key].(string)` in its two-result form: a missing key reads as nil,
      and the assertion fails on anything that is not a string. */
  function StringField(raw: map<string, Json>, key: string): Option<string>
  {
    if key in raw && raw[key].JString? then Some(raw[key].str) else None
  }
}
