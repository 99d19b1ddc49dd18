/**
 * The data point every collector emits, and the decoded JSON values some of them read.
 *
 * `Add(&md, name, value, tags, rate, unit, desc)` appends a point stamped with the current
 * time; `AddTS` appends one with a given Unix timestamp. Both take a copy of the tag set, so
 * a collector may keep changing its own tag map after adding a point. A nil tag set and an
 * empty one are the same to the sink and are both `map[]` here; descriptions are not kept.
 */
module Metrics {
  import opened Optional

  type Tags = map<string, string>

  datatype Value = IntVal(i: int) | RealVal(r: real) | BoolVal(b: bool)

  /** metadata.RateType */
  datatype RateType = Unknown | Gauge | Counter

  /** metadata.Unit: None, MilliSecond, Nanosecond, or a unit given as text. */
  datatype Unit = NoUnit | MilliSecond | Nanosecond | Named(name: string)

  datatype Point = Point(
    metric: string,
    value: Value,
    tags: Tags,
    rate: RateType,
    unit: Unit,
    timestamp: Option<int>   // None: stamped by Add with the time of the call
  )

  /**
   * A decoded JSON value (`interface{}` after encoding/json): numbers decode as float64,
   * modelled by `real`.
   */
  datatype Json = JNumber(x: real) | JString(s: string) | JBool(b: bool) | JNull | JArray | JObject

  /**
   * `math.MaxInt64` compared against a float64 is first converted to float64, which rounds it
   * up to 2^63.
   */
  const MAX_INT64_AS_FLOAT: real := 9223372036854775808.0

  /** Add(&md, metric, value, tags, rate, unit, "") */
  function Add(metric: string, value: Value, tags: Tags, rate: RateType, unit: Unit): Point {
    Point(metric, value, tags, rate, unit, None)
  }

  /** AddTS(&md, metric, ts, value, tags, rate, unit, "") */
  function AddTS(metric: string, ts: int, value: Value, tags: Tags, rate: RateType, unit: Unit): Point {
    Point(metric, value, tags, rate, unit, Some(ts))
  }
}
