/** The data that flows through the exporter: telemetry events, invoke events and OTLP spans
    (src/telemetry/mod.rs). */
module Telemetry {
  import opened Sequences

  type Byte = b: nat | b < 256

  type Bytes = seq<Byte>

  /** The parts of the Lambda function context that do not matter here are one opaque value. */
  datatype FunctionContext = FunctionContext(id: nat)

  datatype Status = Success | Error | Failure | Timeout

  datatype Record =
    | FunctionLog(text: string)
    | ExtensionLog
    | PlatformInitStart
    | PlatformInitRuntimeDone
    | PlatformInitReport
    | PlatformStart(requestId: string)
    | PlatformRuntimeDone(requestId: string, status: Status, errorType: Option<string>)
    | PlatformReport(requestId: string)
    | PlatformOther

  /** An event of the Lambda Telemetry API. The time is in nanoseconds, a multiple of a millisecond. */
  datatype Event = Event(time: int, record: Record)

  datatype InvokeEvent = InvokeEvent(requestId: string, context: FunctionContext,
                                     traceId: Bytes, invocationSpanId: Bytes, sampled: bool)

  // ---------------------------------------------------------------------------
  // OTLP spans. `rest` is everything the exporter never looks at.

  datatype AttributeValue = Text(text: string) | NotText(rest: nat)

  datatype KeyValue = KeyValue(key: string, value: Option<AttributeValue>)

  datatype SpanKind = Internal | Server | Client | Producer | Consumer | Unspecified

  datatype StatusCode = Unset | Ok | ErrorCode

  datatype SpanStatus = SpanStatus(message: string, code: StatusCode)

  datatype Span = Span(traceId: Bytes, spanId: Bytes, kind: SpanKind, attributes: seq<KeyValue>,
                       status: Option<SpanStatus>, endTime: nat, rest: nat)

  datatype Scope = Scope(rest: nat)

  datatype ScopeSpans = ScopeSpans(scope: Option<Scope>, spans: seq<Span>)

  datatype ResourceSpans = ResourceSpans(attributes: seq<KeyValue>, scopeSpans: seq<ScopeSpans>)
}
