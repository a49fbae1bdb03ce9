/** The value `json.loads` produces, and the pydantic (version 2, lax mode)
    field rules the two outline models use. `json.loads` itself is not
    modelled: callers receive it as a function from payload text to an
    optional value. */
module Json {
  import opened Wrappers

  /** A decoded JSON document: Python's `None`, `bool`, number, `str`,
      `list` and `dict` (duplicate keys already collapsed, last one wins). */
  datatype JsonValue =
    | JNull
    | JBool(b: bool)
    | JNumber(n: real)
    | JString(s: string)
    | JArray(items: seq<JsonValue>)
    | JObject(fields: map<string, JsonValue>)

  /** How the validation of a decoded payload can fail: `Model(**data)` on
      something that is not a `dict` raises `TypeError`; a missing or
      mistyped field raises pydantic's `ValidationError`. */
  datatype ValidationError = NotAnObject | MissingField(name: string) | WrongType(name: string)

  predicate IsString(v: JsonValue) {
    v.JString?
  }

  /** A required `str` field: pydantic rejects a missing key, `null`, numbers
      and every other non-string. */
  function RequiredString(fields: map<string, JsonValue>, name: string): (r: Result<string, ValidationError>)
    ensures r.Ok? <==> name in fields && IsString(fields[name])
    ensures r.Ok? ==> fields[name] == JString(r.value)
  {
    if name !in fields then Err(MissingField(name))
    else match fields[name]
      case JString(s) => Ok(s)
      case _ => Err(WrongType(name))
  }

  /** An `Optional[str] = None` field: absent or `null` gives `None`. */
  function OptionalString(fields: map<string, JsonValue>, name: string): (r: Result<Option<string>, ValidationError>)
    ensures r.Ok? <==> name !in fields || fields[name] == JNull || IsString(fields[name])
    ensures r == Ok(None) <==> name !in fields || fields[name] == JNull
    ensures r.Ok? && r.value.Some? ==> fields[name] == JString(r.value.value)
  {
    if name !in fields then Ok(None)
    else match fields[name]
      case JNull => Ok(None)
      case JString(s) => Ok(Some(s))
      case _ => Err(WrongType(name))
  }

  /** A `list[str]` value: an array of strings only. */
  function StringList(v: JsonValue): (r: Option<seq<string>>)
    ensures r.Some? <==> v.JArray? && forall i :: 0 <= i < |v.items| ==> IsString(v.items[i])
    ensures r.Some? ==> |r.value| == |v.items| && forall i :: 0 <= i < |r.value| ==> v.items[i] == JString(r.value[i])
  {
    if v.JArray? && forall i :: 0 <= i < |v.items| ==> IsString(v.items[i])
    then Some(seq(|v.items|, i requires 0 <= i < |v.items| => v.items[i].s))
    else None
  }
}
