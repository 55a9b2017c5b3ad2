/**
 * The "current span" of a thread and the scopes that set and restore it.
 * The thread-local cell is modelled as one optional field (a single thread's
 * view); scope identity (`===`) is object identity.
 */
module Scopes {
  import opened Tracing

  /** Holds the current span; `makeCurrent` hands out a scope that can restore the previous one. */
  class SpanStorage {
    var currentSpan: MsrSpan?

    /** No span is current until one is made current. */
    constructor ()
      ensures currentSpan == null
    {
      currentSpan := null;
    }

    function Current(): MsrSpan?
      reads this
    {
      currentSpan
    }

    /**
     * Makes `span` current and returns a scope that remembers the span that was
     * current before. `MsrSpan.makeCurrent` is this call on the thread's storage.
     */
    method MakeCurrent(span: MsrSpan) returns (scope: ScopeImpl)
      modifies this
      ensures fresh(scope) && !scope.closed
      ensures scope.storage == this && scope.beforeAttach == old(currentSpan) && scope.toAttach == span
      ensures currentSpan == span
    {
      scope := new ScopeImpl(this, currentSpan, span);
      currentSpan := span;
    }
  }

  /** A scope handed out by `SpanStorage.MakeCurrent`. */
  class ScopeImpl {
    const storage: SpanStorage
    const beforeAttach: MsrSpan?
    const toAttach: MsrSpan
    var closed: bool

    constructor (storage: SpanStorage, beforeAttach: MsrSpan?, toAttach: MsrSpan)
      ensures this.storage == storage && this.beforeAttach == beforeAttach && this.toAttach == toAttach
      ensures !closed
    {
      this.storage := storage;
      this.beforeAttach := beforeAttach;
      this.toAttach := toAttach;
      closed := false;
    }

    /**
     * Restores the span that was current before this scope, provided the scope is
     * still open and its span is the current one; any other close is ignored.
     */
    method Close()
      modifies this, storage
      ensures old(!closed && storage.currentSpan == toAttach) ==>
        closed && storage.currentSpan == beforeAttach
      ensures !old(!closed && storage.currentSpan == toAttach) ==>
        closed == old(closed) && storage.currentSpan == old(storage.currentSpan)
    {
      if !closed && storage.currentSpan == toAttach {
        closed := true;
        storage.currentSpan := beforeAttach;
      }
    }
  }

  /** The scope of a span that cannot be made current. */
  class NoopScope {
    constructor ()
    {
    }

    /** Closing it changes nothing (it may modify no object). */
    method Close()
      ensures unchanged(this)
    {
    }
  }

  /**
   * What a block passed to `withScope` does to the current span: given the span
   * current when it starts, it returns its value and the span current when it
   * returns (the same span, unless it made another one current and left that
   * scope open).
   */
  type ScopedBlock<T> = MsrSpan? -> (T, MsrSpan?)

  /**
   * `withScope`: runs `block` with `span` current, then closes the scope. The
   * span that was current before is restored when the block leaves `span`
   * current; if the block left another span current, the close is ignored and
   * that span stays current.
   */
  method WithScope<T>(storage: SpanStorage, span: MsrSpan, block: ScopedBlock<T>) returns (r: T)
    modifies storage
    ensures r == block(span).0
    ensures block(span).1 == span ==> storage.currentSpan == old(storage.currentSpan)
    ensures block(span).1 != span ==> storage.currentSpan == block(span).1
  {
    var scope := storage.MakeCurrent(span);
    var outcome := block(storage.currentSpan);
    r := outcome.0;
    storage.currentSpan := outcome.1;
    scope.Close();
  }

  /** Two scopes closed in the order they were opened, innermost first. */
  method CloseInLifoOrder(storage: SpanStorage, spanA: MsrSpan, spanB: MsrSpan)
    returns (whileBoth: MsrSpan?, afterInner: MsrSpan?, afterOuter: MsrSpan?)
    requires storage.currentSpan == null
    modifies storage
    ensures whileBoth == spanB && afterInner == spanA && afterOuter == null
    ensures storage.currentSpan == null
  {
    var scopeA := storage.MakeCurrent(spanA);
    var scopeB := storage.MakeCurrent(spanB);
    whileBoth := storage.currentSpan;
    scopeB.Close();
    afterInner := storage.currentSpan;
    scopeA.Close();
    afterOuter := storage.currentSpan;
  }

  /**
   * Three scopes; the middle one is closed first and the request is ignored,
   * after which the three close in order.
   */
  method CloseOutOfOrder(storage: SpanStorage, spanA: MsrSpan, spanB: MsrSpan, spanC: MsrSpan)
    returns (afterEarlyB: MsrSpan?, afterC: MsrSpan?, afterB: MsrSpan?, afterA: MsrSpan?)
    requires storage.currentSpan == null
    requires spanB != spanC
    modifies storage
    ensures afterEarlyB == spanC && afterC == spanB && afterB == spanA && afterA == null
  {
    var scopeA := storage.MakeCurrent(spanA);
    var scopeB := storage.MakeCurrent(spanB);
    var scopeC := storage.MakeCurrent(spanC);
    scopeB.Close();
    afterEarlyB := storage.currentSpan;
    scopeC.Close();
    afterC := storage.currentSpan;
    scopeB.Close();
    afterB := storage.currentSpan;
    scopeA.Close();
    afterA := storage.currentSpan;
  }

  /** The same span made current twice: closing the inner scope keeps it current. */
  method SameSpanTwice(storage: SpanStorage, span: MsrSpan)
    returns (afterInner: MsrSpan?, afterOuter: MsrSpan?)
    requires storage.currentSpan == null
    modifies storage
    ensures afterInner == span && afterOuter == null
  {
    var scope1 := storage.MakeCurrent(span);
    var scope2 := storage.MakeCurrent(span);
    scope2.Close();
    afterInner := storage.currentSpan;
    scope1.Close();
    afterOuter := storage.currentSpan;
  }

  /** The span current once the first `k` of `spans` were made current on top of `initial`. */
  function CurrentAfter(initial: MsrSpan?, spans: seq<MsrSpan>, k: nat): (c: MsrSpan?)
    requires k <= |spans|
    ensures k == 0 ==> c == initial
    ensures k > 0 ==> c == spans[k - 1]
  {
    if k == 0 then initial else spans[k - 1]
  }

  /** The spans current after closing the scopes of `spans[j..]`, listed from the scope of `spans[j]` outwards. */
  function WalkBack(initial: MsrSpan?, spans: seq<MsrSpan>, j: nat): (r: seq<MsrSpan?>)
    requires j <= |spans|
    ensures |r| == |spans| - j
    ensures forall m | 0 <= m < |r| :: r[m] == CurrentAfter(initial, spans, j + m)
    decreases |spans| - j
  {
    if j == |spans| then [] else [CurrentAfter(initial, spans, j)] + WalkBack(initial, spans, j + 1)
  }

  /** Each scope of `scopes` is open, belongs to `storage` and made `spans[k]` current on top of the ones before it. */
  predicate OpenNested(storage: SpanStorage, initial: MsrSpan?, spans: seq<MsrSpan>, scopes: seq<ScopeImpl>, n: nat)
    requires n <= |scopes| <= |spans|
    reads scopes
  {
    forall k | 0 <= k < n ::
      !scopes[k].closed && scopes[k].storage == storage
      && scopes[k].toAttach == spans[k] && scopes[k].beforeAttach == CurrentAfter(initial, spans, k)
  }

  /**
   * Makes each of `spans` current in turn, then closes the scopes innermost
   * first. Each close walks back to the span that was current before its scope:
   * `restored[k]` is the span current after the scope of `spans[k]` closes, and
   * the last close restores the span current at the start.
   */
  method UnwindNested(storage: SpanStorage, spans: seq<MsrSpan>) returns (restored: seq<MsrSpan?>)
    modifies storage
    ensures |restored| == |spans|
    ensures forall k | 0 <= k < |spans| :: restored[k] == CurrentAfter(old(storage.currentSpan), spans, k)
    ensures storage.currentSpan == old(storage.currentSpan)
  {
    var initial := storage.currentSpan;
    var scopes := MakeEachCurrent(storage, spans);
    restored := CloseInnermostFirst(storage, initial, spans, scopes);
  }

  /** No scope occurs twice. */
  predicate Distinct(scopes: seq<ScopeImpl>) {
    forall k, l | 0 <= k < l < |scopes| :: scopes[k] != scopes[l]
  }

  lemma DistinctAppend(scopes: seq<ScopeImpl>, scope: ScopeImpl)
    requires Distinct(scopes) && forall k | 0 <= k < |scopes| :: scopes[k] != scope
    ensures Distinct(scopes + [scope])
  {
  }

  /** Makes each of `spans` current in turn and returns the scopes, oldest first. */
  method MakeEachCurrent(storage: SpanStorage, spans: seq<MsrSpan>) returns (scopes: seq<ScopeImpl>)
    modifies storage
    ensures |scopes| == |spans|
    ensures storage.currentSpan == CurrentAfter(old(storage.currentSpan), spans, |spans|)
    ensures forall k | 0 <= k < |scopes| :: fresh(scopes[k])
    ensures Distinct(scopes)
    ensures OpenNested(storage, old(storage.currentSpan), spans, scopes, |scopes|)
  {
    var initial := storage.currentSpan;
    scopes := [];
    while |scopes| < |spans|
      invariant |scopes| <= |spans|
      invariant storage.currentSpan == CurrentAfter(initial, spans, |scopes|)
      invariant forall k | 0 <= k < |scopes| :: fresh(scopes[k])
      invariant Distinct(scopes)
      invariant OpenNested(storage, initial, spans, scopes, |scopes|)
    {
      var scope := MakeNextCurrent(storage, initial, spans, scopes);
      DistinctAppend(scopes, scope);
      scopes := scopes + [scope];
    }
  }

  /** Makes the next span of `spans` current on top of those that already have a scope. */
  method MakeNextCurrent(storage: SpanStorage, initial: MsrSpan?, spans: seq<MsrSpan>, scopes: seq<ScopeImpl>)
    returns (scope: ScopeImpl)
    requires |scopes| < |spans|
    requires storage.currentSpan == CurrentAfter(initial, spans, |scopes|)
    requires OpenNested(storage, initial, spans, scopes, |scopes|)
    modifies storage
    ensures fresh(scope)
    ensures storage.currentSpan == CurrentAfter(initial, spans, |scopes| + 1)
    ensures OpenNested(storage, initial, spans, scopes + [scope], |scopes| + 1)
  {
    scope := storage.MakeCurrent(spans[|scopes|]);
    assert forall k | 0 <= k < |scopes| :: (scopes + [scope])[k] == scopes[k];
  }

  /** Closes `scopes` innermost first; `restored[k]` is the span current after `scopes[k]` closes. */
  method CloseInnermostFirst(storage: SpanStorage, initial: MsrSpan?, spans: seq<MsrSpan>, scopes: seq<ScopeImpl>)
    returns (restored: seq<MsrSpan?>)
    requires |scopes| == |spans|
    requires storage.currentSpan == CurrentAfter(initial, spans, |spans|)
    requires Distinct(scopes)
    requires OpenNested(storage, initial, spans, scopes, |scopes|)
    modifies storage, scopes
    ensures |restored| == |spans|
    ensures forall k | 0 <= k < |spans| :: restored[k] == CurrentAfter(initial, spans, k)
    ensures storage.currentSpan == initial
  {
    restored := [];
    var j := |spans|;
    while j > 0
      invariant 0 <= j <= |spans|
      invariant storage.currentSpan == CurrentAfter(initial, spans, j)
      invariant OpenNested(storage, initial, spans, scopes, j)
      invariant restored == WalkBack(initial, spans, j)
    {
      CloseInnermost(storage, initial, spans, scopes, j);
      restored := [storage.currentSpan] + restored;
      j := j - 1;
      assert restored == WalkBack(initial, spans, j);
    }
  }

  /** Closes the innermost of the first `j` scopes, which restores the span current before it. */
  method CloseInnermost(storage: SpanStorage, initial: MsrSpan?, spans: seq<MsrSpan>, scopes: seq<ScopeImpl>, j: nat)
    requires 0 < j <= |scopes| == |spans|
    requires storage.currentSpan == CurrentAfter(initial, spans, j)
    requires forall k | 0 <= k < j - 1 :: scopes[k] != scopes[j - 1]
    requires OpenNested(storage, initial, spans, scopes, j)
    modifies storage, scopes[j - 1]
    ensures storage.currentSpan == CurrentAfter(initial, spans, j - 1)
    ensures OpenNested(storage, initial, spans, scopes, j - 1)
  {
    var scope := scopes[j - 1];
    assert !scope.closed && scope.toAttach == spans[j - 1] && scope.beforeAttach == CurrentAfter(initial, spans, j - 1);
    scope.Close();
  }
}
