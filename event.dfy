/**
 * The log event the sink receives (`crate::event`): a mapping of field
 * names to values. `event.rs` is not part of this model; what the sink
 * needs of it is the field lookup and the text form of a value.
 */
module Event {

  import opened Wrappers
  import opened Bytes

  /** `event::Value`; `Raw` is `Value::Bytes`, a timestamp carries its RFC 3339 text. */
  datatype Value =
    | Raw(bytes: Bytes)
    | Integer(i: int)
    | Boolean(b: bool)
    | Timestamp(rfc3339: Bytes)

  /** `Value::to_string_lossy`, with the bytes of a `Raw` value taken to be valid UTF-8. */
  function ToStringLossy(v: Value): (r: Bytes)
    ensures v.Raw? ==> r == v.bytes
    ensures v.Integer? ==> ParseDecimal(r) == Some(v.i)
  {
    match v
    case Raw(bytes) => bytes
    case Integer(i) => DecimalRoundTrip(i); Decimal(i)
    case Boolean(b) => if b then Ascii("true") else Ascii("false")
    case Timestamp(text) => text
  }

  datatype LogEvent = LogEvent(fields: map<Bytes, Value>) {
    /** `LogEvent::get`. */
    function Get(key: Bytes): Option<Value> {
      if key in fields then Some(fields[key]) else None
    }
  }
}
