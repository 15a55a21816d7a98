/**
 * Decoded JSON, as Python's json.loads hands it to the services, and the
 * messages that travel on the event topic.
 */
module Json {
  import opened Wrappers

  /** A decoded JSON value. JSON integers and floats are one numeric kind. */
  datatype Value =
    | Null
    | Num(n: real)
    | Text(s: string)
    | Array(items: seq<Value>)
    | Object(fields: map<string, Value>)

  /**
   * `v[key]` in Python: only an object that holds the key answers; an object
   * without it raises KeyError, any other value raises TypeError.
   */
  function Get(v: Value, key: string): Option<Value> {
    if v.Object? && key in v.fields then Some(v.fields[key]) else None
  }

  /**
   * One message of the topic: the UTF-8 JSON text produced by the gateway,
   * already decoded, or bytes that `decode('utf-8')` or `json.loads` reject.
   */
  datatype Message = Encoded(value: Value) | Garbled
}
