/**
 * The span builder: collects the parent choice, then resolves the parent and
 * starts the span.
 */
module SpanBuilding {
  import opened Wrappers
  import opened Tracing
  import opened Scopes

  /** The parent id a span started under `parent` gets. */
  function ParentIdOf(parent: MsrSpan?): Option<string>
  {
    if parent == null then None else Some(parent.spanId)
  }

  class MsrSpanBuilder {
    const name: string
    const spanProcessor: MsrSpanProcessor
    /** The thread's span storage, consulted for the current span. */
    const storage: SpanStorage
    var parentSpan: MsrSpan?
    var noParent: bool

    constructor (name: string, spanProcessor: MsrSpanProcessor, storage: SpanStorage)
      ensures this.name == name && this.spanProcessor == spanProcessor && this.storage == storage
      ensures parentSpan == null && !noParent
    {
      this.name := name;
      this.spanProcessor := spanProcessor;
      this.storage := storage;
      parentSpan := null;
      noParent := false;
    }

    method SetParent(span: MsrSpan) returns (b: MsrSpanBuilder)
      modifies this`parentSpan
      ensures b == this && parentSpan == span
    {
      parentSpan := span;
      b := this;
    }

    method SetNoParent() returns (b: MsrSpanBuilder)
      modifies this`noParent
      ensures b == this && noParent
    {
      noParent := true;
      b := this;
    }

    /**
     * The parent of the span to start: none after `SetNoParent`, otherwise the
     * explicit parent, otherwise the current span (if any).
     */
    function FindSpanParent(): (p: MsrSpan?)
      reads this, storage
      ensures noParent ==> p == null
      ensures !noParent && parentSpan != null ==> p == parentSpan
      ensures !noParent && parentSpan == null ==> p == storage.currentSpan
      ensures p == null <==> noParent || (parentSpan == null && storage.currentSpan == null)
    {
      if noParent then null
      else if parentSpan != null then parentSpan
      else storage.Current()
    }

    /** `startSpan()`: starts the span at the clock reading `now`. */
    method StartSpan(sessionId: string, newSpanId: string, newTraceId: string, sampled: bool, now: int)
      returns (span: MsrSpan)
      modifies spanProcessor`received, spanProcessor.spanBuffer
      ensures fresh(span) && span.name == name && span.spanId == newSpanId
      ensures span.startTime == now
      ensures span.parentId == ParentIdOf(FindSpanParent())
      ensures span.traceId == if FindSpanParent() == null then newTraceId else FindSpanParent().traceId
      ensures span.isSampled == if FindSpanParent() == null then sampled else FindSpanParent().isSampled
      ensures spanProcessor.spanBuffer.activeSpans == old(spanProcessor.spanBuffer.activeSpans)[newSpanId := span]
      ensures spanProcessor.received == old(spanProcessor.received) + [OnStartCall(span)]
    {
      var parent := FindSpanParent();
      span := MsrSpan.StartSpan(name, spanProcessor, sessionId, newSpanId, newTraceId, sampled, parent, None, now);
    }

    /** `startSpan(timestamp)`: starts the span at `timestamp`; the clock is not read. */
    method StartSpanAt(timestamp: int, sessionId: string, newSpanId: string, newTraceId: string, sampled: bool)
      returns (span: MsrSpan)
      modifies spanProcessor`received, spanProcessor.spanBuffer
      ensures fresh(span) && span.name == name && span.spanId == newSpanId
      ensures span.startTime == timestamp
      ensures span.parentId == ParentIdOf(FindSpanParent())
      ensures span.traceId == if FindSpanParent() == null then newTraceId else FindSpanParent().traceId
      ensures span.isSampled == if FindSpanParent() == null then sampled else FindSpanParent().isSampled
      ensures spanProcessor.spanBuffer.activeSpans == old(spanProcessor.spanBuffer.activeSpans)[newSpanId := span]
      ensures spanProcessor.received == old(spanProcessor.received) + [OnStartCall(span)]
    {
      var parent := FindSpanParent();
      span := MsrSpan.StartSpan(name, spanProcessor, sessionId, newSpanId, newTraceId, sampled, parent, Some(timestamp), timestamp);
    }
  }

  /** A builder told `SetNoParent` starts a root span even with an explicit parent and a current span. */
  method NoParentOverridesAll(storage: SpanStorage, processor: MsrSpanProcessor, parent: MsrSpan, current: MsrSpan,
                              sessionId: string, newSpanId: string, newTraceId: string, sampled: bool, now: int)
    returns (span: MsrSpan)
    modifies storage, processor`received, processor.spanBuffer
    ensures span.parentId == None && span.traceId == newTraceId && span.isSampled == sampled
  {
    var scope := storage.MakeCurrent(current);
    var builder := new MsrSpanBuilder("span-name", processor, storage);
    builder := builder.SetParent(parent);
    builder := builder.SetNoParent();
    span := builder.StartSpan(sessionId, newSpanId, newTraceId, sampled, now);
  }

  /** An explicit parent wins over the current span, and the child joins the parent's trace. */
  method ExplicitParentWins(storage: SpanStorage, processor: MsrSpanProcessor, parent: MsrSpan, current: MsrSpan,
                            sessionId: string, newSpanId: string, newTraceId: string, sampled: bool, now: int)
    returns (span: MsrSpan)
    modifies storage, processor`received, processor.spanBuffer
    ensures span.parentId == Some(parent.spanId)
    ensures span.traceId == parent.traceId && span.isSampled == parent.isSampled
  {
    var scope := storage.MakeCurrent(current);
    var builder := new MsrSpanBuilder("span-name", processor, storage);
    builder := builder.SetParent(parent);
    span := builder.StartSpan(sessionId, newSpanId, newTraceId, sampled, now);
  }

  /** Without an explicit parent, the current span becomes the parent. */
  method CurrentSpanIsParent(storage: SpanStorage, processor: MsrSpanProcessor, current: MsrSpan,
                             sessionId: string, newSpanId: string, newTraceId: string, sampled: bool, now: int)
    returns (span: MsrSpan)
    modifies storage, processor`received, processor.spanBuffer
    ensures span.parentId == Some(current.spanId)
    ensures span.traceId == current.traceId && span.isSampled == current.isSampled
  {
    var scope := storage.MakeCurrent(current);
    var builder := new MsrSpanBuilder("span-name", processor, storage);
    span := builder.StartSpan(sessionId, newSpanId, newTraceId, sampled, now);
  }
}
