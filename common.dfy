/**
 * Values shared by every part of the keyword-history pipeline: optional values,
 * results, calendar dates and the JSON values that the classifier returns.
 */
module Common {

  datatype Option<+T> = None | Some(value: T) {
    /** Python's `d.get(key, default)` once the lookup is done. */
    function GetOr(default: T): T {
      if Some? then value else default
    }
  }

  datatype Result<+T, +E> = Ok(value: T) | Err(error: E)

  /** A calendar date as a day number (Python's `date.toordinal()`), so that
      ordering and `timedelta(days = n)` are plain integer order and subtraction. */
  type Date = int

  /** Python's `strptime(text, "%Y-%m-%d")` / `date.fromisoformat(text)`, outside the
      model: `None` stands for the ValueError raised on text that is not a date. */
  type DateParser = string -> Option<Date>

  /** A moment in time (`datetime.utcnow()`), opaque to the model. */
  type Timestamp = int

  /** A parsed JSON value (RFC 8259); numbers are kept as reals. */
  datatype Json =
    | JNull
    | JBool(b: bool)
    | JNumber(n: real)
    | JString(s: string)
    | JArray(items: seq<Json>)
    | JObject(fields: map<string, Json>)

  /** Python's `value[key]` on a parsed JSON value: `None` stands for the
      KeyError (object without the key) or TypeError (not an object) it raises. */
  function Get(v: Json, key: string): Option<Json> {
    if v.JObject? && key in v.fields then Some(v.fields[key]) else None
  }

  /** Python truthiness of an optional query string: absent and "" are both false. */
  predicate Truthy(s: Option<string>) {
    s.Some? && s.value != ""
  }
}
