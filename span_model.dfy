/**
 * The value types of the tracing API: span status, checkpoints, attribute values,
 * span events and the immutable export form of a span (`SpanData`).
 */
module SpanModel {
  import opened Wrappers

  /** Whether the operation traced by a span succeeded. */
  datatype SpanStatus = Unset | Ok | Error

  /** A named instant on a span, in epoch milliseconds. */
  datatype Checkpoint = Checkpoint(name: string, timestamp: int)

  /**
   * A value of the attribute map (`Any?` in the source). Floating-point values are
   * kept opaque, as their bit patterns.
   */
  datatype AttrValue =
    | StringValue(s: string)
    | IntValue(i: int)
    | LongValue(l: int)
    | BooleanValue(b: bool)
    | FloatValue(floatBits: int)
    | DoubleValue(doubleBits: int)
    | NullValue

  type AttrMap = map<string, AttrValue>

  /** An event recorded on a span. */
  datatype SpanEvent = SpanEvent(name: string, timestamp: int, attributes: AttrMap)

  /**
   * The immutable form of a span handed to the event pipeline. Beside the declared
   * fields it carries the checkpoints and the sampling decision, which the span
   * passes when it builds this value.
   */
  datatype SpanData = SpanData(
    name: string,
    traceId: string,
    spanId: string,
    parentId: Option<string>,
    sessionId: string,
    startTime: int,
    endTime: int,
    duration: int,
    status: SpanStatus,
    attributes: AttrMap,
    spanEvents: seq<SpanEvent>,
    hasEnded: bool,
    checkpoints: seq<Checkpoint>,
    isSampled: bool
  )

  /**
   * The length of the interval from `startTime` to `endTime`; an end before the
   * start gives zero.
   */
  function CalculateDuration(startTime: int, endTime: int): (d: int)
    ensures d >= 0
    ensures startTime <= endTime ==> startTime + d == endTime
    ensures endTime < startTime ==> d == 0
  {
    if endTime - startTime < 0 then 0 else endTime - startTime
  }
}
