/**
 * The span engine: `MsrSpan` (a span and its end state machine), `SpanBufferImpl`
 * (the registry of spans that started and have not ended) and `MsrSpanProcessor`
 * (the callbacks a span fires on start and end). The three refer to one another
 * (a span holds its processor, the processor holds the buffer, the buffer holds
 * spans), so they share one module.
 *
 * One thread's view is modelled: the per-span lock and the concurrent map are left
 * out. The clock, the id provider, the session manager and the trace sampler are
 * parameters of the operations that consult them.
 */
module Tracing {
  import opened Wrappers
  import opened SpanModel

  /** The end state of a span: `NotEnded -> Ending -> Ended`. */
  datatype EndState = NotEnded | Ending | Ended

  /**
   * A call received by the span processor, with the end state the span was in
   * when the call was made.
   */
  datatype Callback =
    | OnStartCall(span: MsrSpan)
    | OnEndingCall(span: MsrSpan, stateSeen: EndState)
    | OnEndedCall(span: MsrSpan, stateSeen: EndState)

  /** An attribute processor appends entries to a span's attribute map. */
  type AttributeProcessor = AttrMap -> AttrMap

  /** The attribute map after every processor of `processors` ran, first to last. */
  function AppendAll(processors: seq<AttributeProcessor>, attributes: AttrMap): AttrMap
  {
    if |processors| == 0 then attributes
    else processors[|processors| - 1](AppendAll(processors[..|processors| - 1], attributes))
  }

  /** Running `ps ++ qs` is running `ps`, then `qs` on the result. */
  lemma {:induction false} AppendAllConcat(ps: seq<AttributeProcessor>, qs: seq<AttributeProcessor>, attributes: AttrMap)
    ensures AppendAll(ps + qs, attributes) == AppendAll(qs, AppendAll(ps, attributes))
  {
    if |qs| == 0 {
      assert ps + qs == ps;
    } else {
      var n := |qs|;
      assert (ps + qs)[..|ps + qs| - 1] == ps + qs[..n - 1];
      assert (ps + qs)[|ps + qs| - 1] == qs[n - 1];
      AppendAllConcat(ps, qs[..n - 1], attributes);
    }
  }

  /** The first processor of the list sees the span's attributes before any other. */
  lemma AppendAllFirstSeesOriginal(processors: seq<AttributeProcessor>, attributes: AttrMap)
    requires |processors| > 0
    ensures AppendAll(processors, attributes) == AppendAll(processors[1..], processors[0](attributes))
  {
    assert processors == [processors[0]] + processors[1..];
    AppendAllConcat([processors[0]], processors[1..], attributes);
    assert [processors[0]][..0] == [];
  }

  /** The receiver of finished spans (`EventProcessor.trackSpan`). */
  class EventSink {
    var trackedSpans: seq<SpanData>

    constructor ()
      ensures trackedSpans == []
    {
      trackedSpans := [];
    }

    method TrackSpan(data: SpanData)
      modifies this
      ensures trackedSpans == old(trackedSpans) + [data]
    {
      trackedSpans := trackedSpans + [data];
    }
  }

  /** The registry of active spans, keyed by span id. */
  class SpanBufferImpl {
    var activeSpans: map<string, MsrSpan>

    /** Every span is stored under its own id. */
    ghost predicate Valid()
      reads this
    {
      forall id :: id in activeSpans ==> activeSpans[id].spanId == id
    }

    constructor ()
      ensures activeSpans == map[] && Valid()
    {
      activeSpans := map[];
    }

    /** Stores `span` under its id, replacing any span stored under that id. */
    method OnSpanStart(span: MsrSpan)
      modifies this
      ensures activeSpans == old(activeSpans)[span.spanId := span]
      ensures old(Valid()) ==> Valid()
    {
      activeSpans := activeSpans[span.spanId := span];
    }

    /** Removes the entry for `spanId`, if there is one. */
    method OnSpanEnd(spanId: string)
      modifies this
      ensures activeSpans == old(activeSpans) - {spanId}
      ensures old(Valid()) ==> Valid()
    {
      activeSpans := activeSpans - {spanId};
    }

    /** The stored spans, one per entry, in an unspecified order. */
    method GetActiveSpans() returns (spans: seq<MsrSpan>)
      ensures |spans| == |activeSpans|
      ensures forall s :: s in spans <==> s in activeSpans.Values
      ensures Valid() ==> forall i, j :: 0 <= i < j < |spans| ==> spans[i] != spans[j]
    {
      spans := [];
      var remaining := activeSpans.Keys;
      ghost var ids: seq<string> := [];
      while remaining != {}
        invariant remaining <= activeSpans.Keys
        invariant |spans| == |ids|
        invariant forall i :: 0 <= i < |ids| ==> ids[i] in activeSpans && ids[i] !in remaining && spans[i] == activeSpans[ids[i]]
        invariant forall i, j :: 0 <= i < j < |ids| ==> ids[i] != ids[j]
        invariant forall id :: id in activeSpans && id !in remaining ==> id in ids
        decreases remaining
      {
        var id :| id in remaining;
        spans := spans + [activeSpans[id]];
        ids := ids + [id];
        remaining := remaining - {id};
      }
      EntriesListed(activeSpans, ids, spans);
    }

    /** The stored spans that have no parent, one per entry, in an unspecified order. */
    method GetActiveRootSpans() returns (roots: seq<MsrSpan>)
      ensures |roots| <= |activeSpans|
      ensures forall s :: s in roots <==> s in activeSpans.Values && s.parentId.None?
      ensures Valid() ==> forall i, j :: 0 <= i < j < |roots| ==> roots[i] != roots[j]
    {
      roots := [];
      var remaining := activeSpans.Keys;
      ghost var ids: seq<string> := [];
      while remaining != {}
        invariant remaining <= activeSpans.Keys
        invariant |roots| == |ids|
        invariant forall i :: 0 <= i < |ids| ==> ids[i] in activeSpans && ids[i] !in remaining && roots[i] == activeSpans[ids[i]]
        invariant forall i, j :: 0 <= i < j < |ids| ==> ids[i] != ids[j]
        invariant forall s :: s in roots ==> s.parentId.None?
        invariant forall id :: id in activeSpans && id !in remaining && activeSpans[id].parentId.None? ==> id in ids
        decreases remaining
      {
        var id :| id in remaining;
        var span := activeSpans[id];
        if span.parentId.None? {
          roots := roots + [span];
          ids := ids + [id];
        }
        remaining := remaining - {id};
      }
      RootEntriesListed(activeSpans, ids, roots);
    }
  }

  /** The spans stored under distinct ids: as many as the ids, and distinct when every span sits under its own id. */
  lemma SpansOfDistinctIds(m: map<string, MsrSpan>, ids: seq<string>, spans: seq<MsrSpan>)
    requires |spans| == |ids|
    requires forall i :: 0 <= i < |ids| ==> ids[i] in m && spans[i] == m[ids[i]]
    requires forall i, j :: 0 <= i < j < |ids| ==> ids[i] != ids[j]
    ensures |spans| <= |m|
    ensures (forall id :: id in m ==> id in ids) ==> |spans| == |m|
    ensures (forall id :: id in m ==> m[id].spanId == id) ==> forall i, j :: 0 <= i < j < |spans| ==> spans[i] != spans[j]
  {
    DistinctIdsCount(ids, m.Keys);
    if forall id :: id in m ==> m[id].spanId == id {
      forall i, j | 0 <= i < j < |spans|
        ensures spans[i] != spans[j]
      {
        assert spans[i].spanId == ids[i] && spans[j].spanId == ids[j];
      }
    }
  }

  /** A list holding the span of every id exactly once holds exactly the stored spans. */
  lemma EntriesListed(m: map<string, MsrSpan>, ids: seq<string>, spans: seq<MsrSpan>)
    requires |spans| == |ids|
    requires forall i :: 0 <= i < |ids| ==> ids[i] in m && spans[i] == m[ids[i]]
    requires forall i, j :: 0 <= i < j < |ids| ==> ids[i] != ids[j]
    requires forall id :: id in m ==> id in ids
    ensures |spans| == |m|
    ensures forall s :: s in spans <==> s in m.Values
    ensures (forall id :: id in m ==> m[id].spanId == id) ==> forall i, j :: 0 <= i < j < |spans| ==> spans[i] != spans[j]
  {
    forall s | s in m.Values
      ensures s in spans
    {
      var id :| id in m && m[id] == s;
      var i :| 0 <= i < |ids| && ids[i] == id;
      assert spans[i] == s;
    }
    SpansOfDistinctIds(m, ids, spans);
  }

  /** A list holding the span of every root id exactly once holds exactly the stored root spans. */
  lemma RootEntriesListed(m: map<string, MsrSpan>, ids: seq<string>, roots: seq<MsrSpan>)
    requires |roots| == |ids|
    requires forall i :: 0 <= i < |ids| ==> ids[i] in m && roots[i] == m[ids[i]]
    requires forall i, j :: 0 <= i < j < |ids| ==> ids[i] != ids[j]
    requires forall s :: s in roots ==> s.parentId.None?
    requires forall id :: id in m && m[id].parentId.None? ==> id in ids
    ensures |roots| <= |m|
    ensures forall s :: s in roots <==> s in m.Values && s.parentId.None?
    ensures (forall id :: id in m ==> m[id].spanId == id) ==> forall i, j :: 0 <= i < j < |roots| ==> roots[i] != roots[j]
  {
    forall s | s in m.Values && s.parentId.None?
      ensures s in roots
    {
      var id :| id in m && m[id] == s;
      var i :| 0 <= i < |ids| && ids[i] == id;
      assert roots[i] == s;
    }
    SpansOfDistinctIds(m, ids, roots);
  }

  /** Distinct ids drawn from `keys` are at most as many as the keys, and exactly as many when they cover them. */
  lemma {:induction false} DistinctIdsCount(ids: seq<string>, keys: set<string>)
    requires forall i, j :: 0 <= i < j < |ids| ==> ids[i] != ids[j]
    requires forall i :: 0 <= i < |ids| ==> ids[i] in keys
    ensures |ids| <= |keys|
    ensures (forall k :: k in keys ==> k in ids) ==> |ids| == |keys|
  {
    if |ids| > 0 {
      var n := |ids|;
      var last := ids[n - 1];
      var init := ids[..n - 1];
      assert forall i :: 0 <= i < |init| ==> init[i] == ids[i];
      DistinctIdsCount(init, keys - {last});
      if forall k :: k in keys ==> k in ids {
        forall k | k in keys - {last}
          ensures k in init
        {
          var i :| 0 <= i < n && ids[i] == k;
          assert init[i] == k;
        }
      }
    }
  }

  /** Starting, then ending, a span whose id was absent leaves the registry as it was. */
  lemma StartThenEndRestores(activeSpans: map<string, MsrSpan>, span: MsrSpan)
    requires span.spanId !in activeSpans
    ensures activeSpans[span.spanId := span] - {span.spanId} == activeSpans
  {
  }

  /**
   * The span processor: registers started spans, enriches root spans with the
   * attribute processors, and forwards ended spans to the event sink.
   */
  class MsrSpanProcessor {
    const eventSink: EventSink
    const spanBuffer: SpanBufferImpl
    const attributeProcessors: seq<AttributeProcessor>
    /** The calls this processor received, in order. */
    ghost var received: seq<Callback>

    constructor (eventSink: EventSink, spanBuffer: SpanBufferImpl, attributeProcessors: seq<AttributeProcessor>)
      ensures this.eventSink == eventSink && this.spanBuffer == spanBuffer
      ensures this.attributeProcessors == attributeProcessors
      ensures received == []
    {
      this.eventSink := eventSink;
      this.spanBuffer := spanBuffer;
      this.attributeProcessors := attributeProcessors;
      received := [];
    }

    method OnStart(span: MsrSpan)
      modifies this`received, spanBuffer, span`attributes
      ensures spanBuffer.activeSpans == old(spanBuffer.activeSpans)[span.spanId := span]
      ensures old(spanBuffer.Valid()) ==> spanBuffer.Valid()
      ensures span.attributes ==
        if span.parentId.None? then AppendAll(attributeProcessors, old(span.attributes))
        else old(span.attributes)
      ensures received == old(received) + [OnStartCall(span)]
    {
      spanBuffer.OnSpanStart(span);
      if span.parentId.None? {
        var i := 0;
        while i < |attributeProcessors|
          invariant 0 <= i <= |attributeProcessors|
          invariant span.attributes == AppendAll(attributeProcessors[..i], old(span.attributes))
          invariant spanBuffer.activeSpans == old(spanBuffer.activeSpans)[span.spanId := span]
          invariant received == old(received)
        {
          assert attributeProcessors[..i + 1][..i] == attributeProcessors[..i];
          span.attributes := attributeProcessors[i](span.attributes);
          i := i + 1;
        }
        assert attributeProcessors[..i] == attributeProcessors;
      }
      received := received + [OnStartCall(span)];
    }

    /** Does nothing besides being called. */
    method OnEnding(span: MsrSpan)
      modifies this`received
      ensures received == old(received) + [OnEndingCall(span, span.endState)]
    {
      received := received + [OnEndingCall(span, span.endState)];
    }

    /** Unregisters the span and forwards its export form. */
    method OnEnded(span: MsrSpan)
      modifies this`received, spanBuffer, eventSink
      ensures spanBuffer.activeSpans == old(spanBuffer.activeSpans) - {span.spanId}
      ensures old(spanBuffer.Valid()) ==> spanBuffer.Valid()
      ensures eventSink.trackedSpans == old(eventSink.trackedSpans) + [span.ToSpanData()]
      ensures received == old(received) + [OnEndedCall(span, span.endState)]
    {
      var spanData := span.ToSpanData();
      spanBuffer.OnSpanEnd(spanData.spanId);
      eventSink.TrackSpan(spanData);
      received := received + [OnEndedCall(span, span.endState)];
    }
  }

  /** A span: identity fixed at start, status, parent, checkpoints and attributes mutable until it ends. */
  class MsrSpan {
    const spanProcessor: MsrSpanProcessor
    const isSampled: bool
    const name: string
    const spanId: string
    const traceId: string
    var parentId: Option<string>
    const sessionId: string
    const startTime: int
    var status: SpanStatus
    var endTime: int
    var endState: EndState
    var checkpoints: seq<Checkpoint>
    var attributes: AttrMap

    constructor (spanProcessor: MsrSpanProcessor, isSampled: bool, name: string, spanId: string,
                 traceId: string, parentId: Option<string>, sessionId: string, startTime: int)
      ensures this.spanProcessor == spanProcessor && this.isSampled == isSampled
      ensures this.name == name && this.spanId == spanId && this.traceId == traceId
      ensures this.parentId == parentId && this.sessionId == sessionId && this.startTime == startTime
      ensures status == Unset && endTime == 0 && endState == NotEnded
      ensures checkpoints == [] && attributes == map[]
    {
      this.spanProcessor := spanProcessor;
      this.isSampled := isSampled;
      this.name := name;
      this.spanId := spanId;
      this.traceId := traceId;
      this.parentId := parentId;
      this.sessionId := sessionId;
      this.startTime := startTime;
      status := Unset;
      endTime := 0;
      endState := NotEnded;
      checkpoints := [];
      attributes := map[];
    }

    /**
     * Creates a span and reports it to the processor. `now` is the clock reading,
     * `newSpanId` and `newTraceId` the id provider's answers, `sessionId` the session
     * manager's and `sampled` the trace sampler's; the new trace id and the sampler's
     * answer are used only for a span without a parent.
     */
    static method StartSpan(name: string, spanProcessor: MsrSpanProcessor, sessionId: string,
                            newSpanId: string, newTraceId: string, sampled: bool,
                            parentSpan: MsrSpan?, timestamp: Option<int>, now: int)
      returns (span: MsrSpan)
      modifies spanProcessor`received, spanProcessor.spanBuffer
      ensures fresh(span) && span.spanProcessor == spanProcessor
      ensures span.name == name && span.spanId == newSpanId && span.sessionId == sessionId
      ensures span.startTime == timestamp.GetOr(now)
      ensures span.parentId == if parentSpan == null then None else Some(parentSpan.spanId)
      ensures span.traceId == if parentSpan == null then newTraceId else parentSpan.traceId
      ensures span.isSampled == if parentSpan == null then sampled else parentSpan.isSampled
      ensures span.status == Unset && !span.HasEnded() && span.checkpoints == []
      ensures span.attributes ==
        if parentSpan == null then AppendAll(spanProcessor.attributeProcessors, map[]) else map[]
      ensures spanProcessor.spanBuffer.activeSpans == old(spanProcessor.spanBuffer.activeSpans)[newSpanId := span]
      ensures old(spanProcessor.spanBuffer.Valid()) ==> spanProcessor.spanBuffer.Valid()
      ensures spanProcessor.received == old(spanProcessor.received) + [OnStartCall(span)]
    {
      var startTime := timestamp.GetOr(now);
      var traceId := if parentSpan == null then newTraceId else parentSpan.traceId;
      var isSampled := if parentSpan == null then sampled else parentSpan.isSampled;
      var parentId := if parentSpan == null then None else Some(parentSpan.spanId);
      span := new MsrSpan(spanProcessor, isSampled, name, newSpanId, traceId, parentId, sessionId, startTime);
      spanProcessor.OnStart(span);
    }

    function GetStatus(): SpanStatus
      reads this
    {
      status
    }

    /** True from the moment `End` begins (state `Ending` or `Ended`). */
    predicate HasEnded()
      reads this
    {
      endState != NotEnded
    }

    method SetStatus(newStatus: SpanStatus) returns (r: MsrSpan)
      modifies this`status
      ensures r == this
      ensures status == if endState == NotEnded then newStatus else old(status)
    {
      if endState != NotEnded {
        return this;
      }
      status := newStatus;
      r := this;
    }

    method SetParent(parentSpan: MsrSpan) returns (r: MsrSpan)
      modifies this`parentId
      ensures r == this
      ensures parentId == if endState == NotEnded then Some(parentSpan.spanId) else old(parentId)
    {
      if endState != NotEnded {
        return this;
      }
      parentId := Some(parentSpan.spanId);
      r := this;
    }

    /** Appends a checkpoint stamped with the clock reading `now`. */
    method SetCheckpoint(checkpointName: string, now: int) returns (r: MsrSpan)
      modifies this`checkpoints
      ensures r == this
      ensures checkpoints ==
        if endState == NotEnded then old(checkpoints) + [Checkpoint(checkpointName, now)]
        else old(checkpoints)
    {
      if endState != NotEnded {
        return this;
      }
      checkpoints := checkpoints + [Checkpoint(checkpointName, now)];
      r := this;
    }

    /**
     * Ends the span at `timestamp` (`end()` passes the clock reading). Only the first
     * call has an effect: it records the end time, moves the span to `Ending`, calls
     * `onEnding`, moves it to `Ended` and calls `onEnded`.
     */
    method End(timestamp: int) returns (r: MsrSpan)
      modifies this`endTime, this`endState
      modifies spanProcessor`received, spanProcessor.spanBuffer, spanProcessor.eventSink
      ensures r == this
      ensures old(endState) != NotEnded ==>
        && endState == old(endState) && endTime == old(endTime)
        && spanProcessor.received == old(spanProcessor.received)
        && unchanged(spanProcessor.spanBuffer, spanProcessor.eventSink)
      ensures old(endState) == NotEnded ==>
        && endState == Ended && endTime == timestamp
        && spanProcessor.received == old(spanProcessor.received) + [OnEndingCall(this, Ending), OnEndedCall(this, Ended)]
        && spanProcessor.spanBuffer.activeSpans == old(spanProcessor.spanBuffer.activeSpans) - {spanId}
        && spanProcessor.eventSink.trackedSpans == old(spanProcessor.eventSink.trackedSpans) + [ToSpanData()]
        && ToSpanData().hasEnded && ToSpanData().duration == GetDuration()
      ensures old(spanProcessor.spanBuffer.Valid()) ==> spanProcessor.spanBuffer.Valid()
    {
      r := this;
      if endState != NotEnded {
        return;
      }
      endTime := timestamp;
      endState := Ending;
      spanProcessor.OnEnding(this);
      endState := Ended;
      spanProcessor.OnEnded(this);
    }

    /** The duration once the span is `Ended`; zero before that. */
    function GetDuration(): (d: int)
      reads this
      ensures d >= 0
      ensures endState != Ended ==> d == 0
      ensures endState == Ended && startTime <= endTime ==> startTime + d == endTime
    {
      if endState != Ended then 0 else CalculateDuration(startTime, endTime)
    }

    /** The export form; it says the span has ended only once it is `Ended`. */
    function ToSpanData(): (d: SpanData)
      reads this
      ensures d.spanId == spanId && d.traceId == traceId && d.name == name
      ensures d.parentId == parentId && d.sessionId == sessionId && d.isSampled == isSampled
      ensures d.startTime == startTime && d.endTime == endTime && d.status == status
      ensures d.checkpoints == checkpoints && d.attributes == attributes && d.spanEvents == []
      ensures d.hasEnded <==> endState == Ended
      ensures d.hasEnded ==> d.duration == GetDuration()
      ensures d.duration >= 0
    {
      SpanData(
        name := name,
        traceId := traceId,
        spanId := spanId,
        parentId := parentId,
        sessionId := sessionId,
        startTime := startTime,
        endTime := endTime,
        duration := CalculateDuration(startTime, endTime),
        status := status,
        attributes := attributes,
        spanEvents := [],
        hasEnded := endState == Ended,
        checkpoints := checkpoints,
        isSampled := isSampled
      )
    }
  }
}
