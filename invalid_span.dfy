/**
 * The null-object span returned where no real span can be created: fixed
 * identity, and every operation leaves it as it was.
 */
module InvalidSpans {
  import opened Wrappers
  import opened SpanModel
  import Scopes

  /** An operation of the span API, as a value. */
  datatype SpanOp =
    | SetAttribute(key: string, value: AttrValue)
    | SetStatus(status: SpanStatus)
    | SetParent(parentSpanId: string)
    | SetCheckpoint(name: string)
    | End
    | EndAt(timestamp: int)

  /** What a caller can observe of a span. */
  datatype SpanView = SpanView(
    traceId: string,
    spanId: string,
    name: string,
    parentId: Option<string>,
    sessionId: string,
    startTime: int,
    status: SpanStatus,
    hasEnded: bool,
    duration: int,
    checkpoints: seq<Checkpoint>,
    attributes: AttrMap
  )

  datatype InvalidSpan = InvalidSpan {

    function TraceId(): (id: string)
      ensures id == "invalid-trace-id"
    {
      "invalid-trace-id"
    }

    function SpanId(): (id: string)
      ensures id == "invalid-span-id"
    {
      "invalid-span-id"
    }

    function Name(): (n: string)
      ensures n == "invalid"
    {
      "invalid"
    }

    function GetStatus(): (s: SpanStatus)
      ensures s == Unset
    {
      Unset
    }

    function HasEnded(): (b: bool)
      ensures !b
    {
      false
    }

    function GetDuration(): (d: int)
      ensures d == 0
    {
      0
    }

    /** Everything a caller can observe of the invalid span. */
    function View(): (v: SpanView)
      ensures v.traceId == TraceId() && v.spanId == SpanId() && v.name == Name()
      ensures v.parentId == None && v.sessionId == "" && v.startTime == 0
      ensures v.status == GetStatus() && v.hasEnded == HasEnded() && v.duration == GetDuration()
      ensures v.checkpoints == [] && v.attributes == map[]
    {
      SpanView(TraceId(), SpanId(), Name(), None, "", 0, GetStatus(), HasEnded(), GetDuration(), [], map[])
    }

    /** Every setter and `end` returns the same span. */
    function Apply(op: SpanOp): (r: InvalidSpan)
      ensures r.View() == View()
    {
      this
    }

    /** The span after a sequence of operations, applied in order. */
    function ApplyAll(ops: seq<SpanOp>): InvalidSpan
    {
      if |ops| == 0 then this else Apply(ops[0]).ApplyAll(ops[1..])
    }

    /** `makeCurrent` hands out a scope whose close does nothing; span storage is not touched. */
    method MakeCurrent() returns (scope: Scopes.NoopScope)
      ensures fresh(scope)
    {
      scope := new Scopes.NoopScope();
    }

    /** `withScope` just runs the block. */
    function WithScope<T>(block: () -> T): (r: T)
      ensures r == block()
    {
      block()
    }
  }

  /**
   * No sequence of operations changes what can be observed of the invalid span:
   * its status stays `Unset`, it never ends, its duration stays 0 and it holds no
   * attributes or checkpoints.
   */
  lemma {:induction false} OperationsAreNotObservable(span: InvalidSpan, ops: seq<SpanOp>)
    ensures span.ApplyAll(ops).View() == span.View()
    ensures span.ApplyAll(ops).View().status == Unset && !span.ApplyAll(ops).View().hasEnded
    ensures span.ApplyAll(ops).View().attributes == map[] && span.ApplyAll(ops).View().checkpoints == []
  {
    if |ops| > 0 {
      OperationsAreNotObservable(span.Apply(ops[0]), ops[1..]);
    }
  }
}
