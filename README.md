# Tracing core of the measure Android SDK, modelled in Dafny

This project models the in-process tracing layer of the measure Android SDK and
the lifecycle tracker that uses it to measure app launches.

- **Spans** (`MsrSpan`): a span has a fixed identity and a start time. Its status,
  parent and checkpoints can change until it ends. Ending moves it through
  `NotEnded -> Ending -> Ended` and calls the span processor twice.
- **Span processor** (`MsrSpanProcessor`): registers a started span in the span
  buffer. For a root span it runs the attribute processors in order. When a span
  ends, it removes the span from the buffer and forwards its export form
  (`SpanData`) to the event sink.
- **Span buffer** (`SpanBufferImpl`): the registry of active spans, keyed by span id.
- **Span storage and scopes** (`SpanStorage`, `ScopeImpl`, `NoopScope`): the
  current span of a thread. A scope restores the previous span on close, but only
  if it is still open and its span is still current.
- **Span builder** (`MsrSpanBuilder`): chooses the parent. `setNoParent` wins, then
  an explicit parent, then the current span. The child inherits the parent's
  trace id and sampling decision.
- **The invalid span**: the null object whose operations change nothing.
- **Span data to storage entity** (`toSpanEntity`): copies the span fields and
  renders the span events as a JSON array of objects.
- **Lifecycle tracker** (`LifecycleTracker`): classifies each launch as cold,
  lukewarm, warm or hot. It keeps the created, started and resumed activities, and
  starts and ends the app-startup, current-activity, transition,
  time-to-initial-display (TTID) and time-to-first-interaction (TTFI) spans.

The tracing classes are Dafny classes with the source's fields. Their methods
state the complete new state. A ghost log `received` records the calls the
processor gets, in order, and with the end state the span had at each call.

The lifecycle tracker is a class with the source's fields. It sees the tracer
through two logs:
- `spans`: every span it asked for. A span handle is an index into this log.
- `scopes`: every scope it was handed, with whether the tracker has called its
  `close` (storage ignores that call when the scope's span is no longer current).

The tracker logs the values the source computes as written. Its previous-screen
and TTFI screen names are the class name of a string, "java.lang.String", and its
lukewarm TTID span starts at the raw app-start uptime. The "## Findings" section
sets the intended values beside them.

`Valid()` keeps every handle inside these logs. It also keeps every stored launch
type one of `cold`, `warm` or `hot`. Every tracker method preserves `Valid()`.

External inputs are parameters of the operations that read them:
- the clock (`Clock`: epoch and uptime readings);
- the id provider, the session manager and the trace sampler;
- the process launch facts (`LaunchState`);
- the JSON encoder for attribute maps.

## Model

| member | source | states |
|---|---|---|
| SpanModel.CalculateDuration | android/measure/src/main/java/sh/measure/android/tracing/MsrSpan.kt:182-184 | duration is never negative; it is end minus start when the end is not before the start, else 0 |
| Tracing.AppendAllConcat | android/measure/src/main/java/sh/measure/android/tracing/SpanProcessor.kt:20-24 | running a list of attribute processors that is split in two is running the first part, then the second on its result |
| Tracing.AppendAllFirstSeesOriginal | android/measure/src/main/java/sh/measure/android/tracing/SpanProcessor.kt:20-24 | the first attribute processor sees the span's attributes before any other processor runs |
| Tracing.EventSink.TrackSpan | android/measure/src/main/java/sh/measure/android/tracing/SpanProcessor.kt:34 | a tracked span's data is appended to what the sink has received |
| Tracing.SpanBufferImpl.constructor | android/measure/src/main/java/sh/measure/android/tracing/SpanBuffer.kt:13 | the registry starts empty |
| Tracing.SpanBufferImpl.OnSpanStart | android/measure/src/main/java/sh/measure/android/tracing/SpanBuffer.kt:15-17 | the span is stored under its own id, replacing any earlier entry; spans stay keyed by their ids |
| Tracing.SpanBufferImpl.OnSpanEnd | android/measure/src/main/java/sh/measure/android/tracing/SpanBuffer.kt:19-21 | exactly the entry for the id is removed; nothing else changes |
| Tracing.SpanBufferImpl.GetActiveSpans | android/measure/src/main/java/sh/measure/android/tracing/SpanBuffer.kt:23-25 | the result holds exactly the stored spans, one per entry, with no duplicates |
| Tracing.SpanBufferImpl.GetActiveRootSpans | android/measure/src/main/java/sh/measure/android/tracing/SpanBuffer.kt:27-29 | the result holds exactly the stored spans that have no parent, with no duplicates |
| Tracing.StartThenEndRestores | android/measure/src/main/java/sh/measure/android/tracing/SpanBuffer.kt:15-21 | starting and then ending a span with a new id leaves the registry as it was |
| Tracing.MsrSpanProcessor.constructor | android/measure/src/main/java/sh/measure/android/tracing/SpanProcessor.kt:13-17 | the processor keeps its sink, buffer and attribute processors, and has received no call yet |
| Tracing.MsrSpanProcessor.OnStart | android/measure/src/main/java/sh/measure/android/tracing/SpanProcessor.kt:18-25 | the span is registered; a root span's attributes are the result of all attribute processors run in order; a child's attributes are untouched |
| Tracing.MsrSpanProcessor.OnEnding | android/measure/src/main/java/sh/measure/android/tracing/SpanProcessor.kt:27-28 | only the call itself is recorded |
| Tracing.MsrSpanProcessor.OnEnded | android/measure/src/main/java/sh/measure/android/tracing/SpanProcessor.kt:30-35 | the span is unregistered by its id and its span data is forwarded to the sink |
| Tracing.MsrSpan.constructor | android/measure/src/main/java/sh/measure/android/tracing/MsrSpan.kt:12-29 | a new span has status Unset, end time 0, is not ended, and has no checkpoints or attributes |
| Tracing.MsrSpan.StartSpan | android/measure/src/main/java/sh/measure/android/tracing/MsrSpan.kt:32-67 | the start time is the timestamp if one is given, else now; a child takes its parent's id as parent id, plus the parent's trace id and sampling decision; a root takes a new trace id and the sampler's answer; the processor's onStart is called exactly once |
| Tracing.MsrSpan.SetStatus | android/measure/src/main/java/sh/measure/android/tracing/MsrSpan.kt:74-83 | the status changes only while the span has not ended |
| Tracing.MsrSpan.SetParent | android/measure/src/main/java/sh/measure/android/tracing/MsrSpan.kt:85-94 | the parent id changes only while the span has not ended |
| Tracing.MsrSpan.SetCheckpoint | android/measure/src/main/java/sh/measure/android/tracing/MsrSpan.kt:96-106 | a checkpoint stamped now is appended only while the span has not ended |
| Tracing.MsrSpan.End | android/measure/src/main/java/sh/measure/android/tracing/MsrSpan.kt:108-142 | only the first end has an effect: it sets the end time, calls onEnding while the span is Ending and onEnded once it is Ended, unregisters the span and exports data that says it has ended; a later end changes nothing |
| Tracing.MsrSpan.GetDuration | android/measure/src/main/java/sh/measure/android/tracing/MsrSpan.kt:148-160 | 0 until the span is Ended; after that, the clamped length of the interval from start to end |
| Tracing.MsrSpan.ToSpanData | android/measure/src/main/java/sh/measure/android/tracing/MsrSpan.kt:162-180 | every field is copied; `hasEnded` holds exactly when the span is Ended; the duration is never negative |
| Scopes.SpanStorage.constructor | android/measure/src/main/java/sh/measure/android/tracing/SpanStorage.kt:8-13 | no span is current at first |
| Scopes.SpanStorage.MakeCurrent | android/measure/src/main/java/sh/measure/android/tracing/SpanStorage.kt:15-19 | the span becomes current, and the new open scope remembers the span that was current before |
| Scopes.ScopeImpl.constructor | android/measure/src/main/java/sh/measure/android/tracing/SpanStorage.kt:25-26 | a scope starts open |
| Scopes.ScopeImpl.Close | android/measure/src/main/java/sh/measure/android/tracing/SpanStorage.kt:28-38 | an open scope whose span is current closes and restores the previous span; any other close changes nothing |
| Scopes.NoopScope.Close | android/measure/src/main/java/sh/measure/android/tracing/SpanStorage.kt:42-46 | closing changes nothing |
| Scopes.WithScope | android/measure/src/main/java/sh/measure/android/tracing/MsrSpan.kt:144-146 | the block runs with the span current (it is given that span as the current one) and its value is returned; if the block leaves the span current, the close restores the span that was current before; if it leaves another span current, the close is ignored and that span stays current. A span built inside the block without an explicit parent takes this span as parent, as SpanBuilding.CurrentSpanIsParent shows |
| Scopes.CloseInLifoOrder | android/measure/src/main/java/sh/measure/android/tracing/SpanStorage.kt:15-38 | nested scopes closed innermost first restore each previous span in turn |
| Scopes.CloseOutOfOrder | android/measure/src/main/java/sh/measure/android/tracing/SpanStorage.kt:15-38 | closing a middle scope too early is ignored, and the scopes still unwind correctly afterwards |
| Scopes.SameSpanTwice | android/measure/src/main/java/sh/measure/android/tracing/SpanStorage.kt:15-38 | when the same span is made current twice, closing the inner scope keeps it current and closing the outer scope clears it |
| Scopes.UnwindNested | android/measure/src/main/java/sh/measure/android/tracing/SpanStorage.kt:15-38 | for any number of spans made current in turn on top of any current span, closing their scopes innermost first restores, at each close, the span that was current before that scope, ending with the span current at the start |
| SpanBuilding.MsrSpanBuilder.constructor | android/measure/src/main/java/sh/measure/android/tracing/MsrSpanBuilder.kt:17-18 | no explicit parent and no setNoParent at first |
| SpanBuilding.MsrSpanBuilder.SetParent | android/measure/src/main/java/sh/measure/android/tracing/MsrSpanBuilder.kt:20-23 | records the explicit parent and returns the builder |
| SpanBuilding.MsrSpanBuilder.SetNoParent | android/measure/src/main/java/sh/measure/android/tracing/MsrSpanBuilder.kt:25-28 | records setNoParent and returns the builder |
| SpanBuilding.MsrSpanBuilder.FindSpanParent | android/measure/src/main/java/sh/measure/android/tracing/MsrSpanBuilder.kt:59-67 | no parent after setNoParent; otherwise the explicit parent, else the current span; the result is null exactly in those cases |
| SpanBuilding.MsrSpanBuilder.StartSpan | android/measure/src/main/java/sh/measure/android/tracing/MsrSpanBuilder.kt:30-42 | starts at now under the resolved parent, inheriting its trace id and sampling decision |
| SpanBuilding.MsrSpanBuilder.StartSpanAt | android/measure/src/main/java/sh/measure/android/tracing/MsrSpanBuilder.kt:44-57 | starts at the given timestamp under the resolved parent |
| SpanBuilding.NoParentOverridesAll | android/measure/src/main/java/sh/measure/android/tracing/MsrSpanBuilder.kt:59-62 | setNoParent gives a root span even when there is an explicit parent and a current span |
| SpanBuilding.ExplicitParentWins | android/measure/src/main/java/sh/measure/android/tracing/MsrSpanBuilder.kt:63-65 | an explicit parent wins over the current span, and the child joins that parent's trace |
| SpanBuilding.CurrentSpanIsParent | android/measure/src/main/java/sh/measure/android/tracing/MsrSpanBuilder.kt:66 | with no explicit parent, the current span is the parent |
| InvalidSpans.InvalidSpan.TraceId | android/measure/src/main/java/sh/measure/android/tracing/InvalidSpan.kt:4 | the trace id is "invalid-trace-id" |
| InvalidSpans.InvalidSpan.SpanId | android/measure/src/main/java/sh/measure/android/tracing/InvalidSpan.kt:5 | the span id is "invalid-span-id" |
| InvalidSpans.InvalidSpan.Name | android/measure/src/main/java/sh/measure/android/tracing/InvalidSpan.kt:6 | the name is "invalid" |
| InvalidSpans.InvalidSpan.GetStatus | android/measure/src/main/java/sh/measure/android/tracing/InvalidSpan.kt:42-44 | the status is always Unset |
| InvalidSpans.InvalidSpan.HasEnded | android/measure/src/main/java/sh/measure/android/tracing/InvalidSpan.kt:66-68 | the span never reports that it has ended |
| InvalidSpans.InvalidSpan.GetDuration | android/measure/src/main/java/sh/measure/android/tracing/InvalidSpan.kt:70-72 | the duration is always 0 |
| InvalidSpans.InvalidSpan.View | android/measure/src/main/java/sh/measure/android/tracing/InvalidSpan.kt:4-40 | the observable fields: no parent, empty session id, start time 0, and no checkpoints or attributes |
| InvalidSpans.InvalidSpan.Apply | android/measure/src/main/java/sh/measure/android/tracing/InvalidSpan.kt:16-64 | every setter and both ends return a span that looks the same |
| InvalidSpans.OperationsAreNotObservable | android/measure/src/main/java/sh/measure/android/tracing/InvalidSpan.kt:16-72 | no sequence of operations changes anything observable: the status stays Unset, the span never ends, and it holds no attributes |
| InvalidSpans.InvalidSpan.MakeCurrent | android/measure/src/main/java/sh/measure/android/tracing/InvalidSpan.kt:74-76 | hands out a new no-op scope and leaves span storage alone |
| InvalidSpans.InvalidSpan.WithScope | android/measure/src/main/java/sh/measure/android/tracing/InvalidSpan.kt:78-80 | just returns the block's value |
| SpanDataExtensions.ToSpanEntity | android/measure/src/main/java/sh/measure/android/storage/SpanDataExtenstions.kt:10-38 | every field is copied; the events become the JSON array, each rendered by the source's template with the name pasted unescaped; the attributes go through the encoder |
| SpanDataExtensions.SerializeSpanEvents | android/measure/src/main/java/sh/measure/android/storage/SpanDataExtenstions.kt:31-33 | for a given event renderer, the result is bracketed, and no events give "[]" |
| SpanDataExtensions.SerializeAll | android/measure/src/main/java/sh/measure/android/storage/SpanDataExtenstions.kt:32 | item k is event k as the renderer renders it |
| SpanDataExtensions.JoinLength | android/measure/src/main/java/sh/measure/android/storage/SpanDataExtenstions.kt:32 | a join's length is the items' total length plus one separator between each pair |
| SpanDataExtensions.JoinPieces | android/measure/src/main/java/sh/measure/android/storage/SpanDataExtenstions.kt:32 | item k appears verbatim at its offset, followed by the separator unless it is the last item |
| SpanDataExtensions.SpanEventsLength | android/measure/src/main/java/sh/measure/android/storage/SpanDataExtenstions.kt:32 | for any renderer (the source's one included), the array's length is two brackets, the renderings and one comma between each pair |
| SpanDataExtensions.SpanEventAt | android/measure/src/main/java/sh/measure/android/storage/SpanDataExtenstions.kt:32 | for any renderer, event k's rendering occurs in the array right after the bracket and the events before it |
| SpanDataExtensions.DecodeWithin | android/measure/src/main/java/sh/measure/android/storage/SpanDataExtenstions.kt:32-37 | an event's name and timestamp can be read back from wherever its rendering appears |
| SpanDataExtensions.SpanEventDecodable | android/measure/src/main/java/sh/measure/android/storage/SpanDataExtenstions.kt:31-38 | with the escaping renderer, the name and timestamp of every event in the array read back from where its rendering starts, whatever the name |
| SpanDataExtensions.PlainSpanEventDecodable | android/measure/src/main/java/sh/measure/android/storage/SpanDataExtenstions.kt:31-38 | with the source's renderer, an event whose name has no quote or backslash reads back from where its rendering starts in the array |
| SpanDataExtensions.QuotedNameBreaksArray | android/measure/src/main/java/sh/measure/android/storage/SpanDataExtenstions.kt:31-38 | with the source's renderer, the array holding one event named `a"b` does not give that name back |
| SpanDataExtensions.NatToString | android/measure/src/main/java/sh/measure/android/storage/SpanDataExtenstions.kt:37 | decimal digits with no leading zero |
| SpanDataExtensions.ParseNatToString | android/measure/src/main/java/sh/measure/android/storage/SpanDataExtenstions.kt:37 | reading back a rendered non-negative number gives the number |
| SpanDataExtensions.LongToString | android/measure/src/main/java/sh/measure/android/storage/SpanDataExtenstions.kt:37 | a minus sign exactly for negative values, then digits |
| SpanDataExtensions.ReadLongToString | android/measure/src/main/java/sh/measure/android/storage/SpanDataExtenstions.kt:37 | a rendered timestamp reads back as the same value, whatever non-digit text follows it |
| SpanDataExtensions.Escape | android/measure/src/main/java/sh/measure/android/storage/SpanDataExtenstions.kt:37 | escaping never shortens a string, and a string with no quote or backslash is unchanged |
| SpanDataExtensions.ReadEscaped | android/measure/src/main/java/sh/measure/android/storage/SpanDataExtenstions.kt:37 | an escaped string followed by a closing quote reads back as the original, with the rest of the text left over |
| SpanDataExtensions.SerializeEventAsWritten | android/measure/src/main/java/sh/measure/android/storage/SpanDataExtenstions.kt:35-38 | as written: the name prefix, then the name verbatim, ending in `}` |
| SpanDataExtensions.SerializeEvent | android/measure/src/main/java/sh/measure/android/storage/SpanDataExtenstions.kt:35-38 | the name prefix first and `}` last; the name is escaped |
| SpanDataExtensions.EventTail | android/measure/src/main/java/sh/measure/android/storage/SpanDataExtenstions.kt:37 | the timestamp and attributes part ends in `}` |
| SpanDataExtensions.TimestampRoundTrip | android/measure/src/main/java/sh/measure/android/storage/SpanDataExtenstions.kt:37 | the timestamp reads back from the rendered tail |
| SpanDataExtensions.EventHeadRoundTrip | android/measure/src/main/java/sh/measure/android/storage/SpanDataExtenstions.kt:35-38 | name and timestamp read back from a rendered event, whatever follows it |
| SpanDataExtensions.PlainNameRendersVerbatim | android/measure/src/main/java/sh/measure/android/storage/SpanDataExtenstions.kt:37 | for names without a quote or backslash, the as-written and escaped renderings agree |
| SpanDataExtensions.QuotedNameBreaksRendering | android/measure/src/main/java/sh/measure/android/storage/SpanDataExtenstions.kt:37 | the as-written rendering of the name `a"b`, whatever follows it, does not read back as that name |
| Lifecycle.ComputeLaunchType | android/measure/src/main/java/sh/measure/android/lifecycle/LifecycleTracker.kt:282-312 | after the first cold launch: warm exactly when the activity was created in the same message, else hot; before it: cold exactly for a foreground start without saved state, else lukewarm |
| Lifecycle.ListOfNotNull | android/measure/src/main/java/sh/measure/android/lifecycle/LifecycleTracker.kt:315-319 | exactly the values that are present, one per present value |
| Lifecycle.MinOrNull | android/measure/src/main/java/sh/measure/android/lifecycle/LifecycleTracker.kt:319 | none exactly for an empty list; otherwise an element that is at most every element |
| Lifecycle.AppStartTime | android/measure/src/main/java/sh/measure/android/lifecycle/LifecycleTracker.kt:314-320 | none exactly when no uptime is known; otherwise one of the known uptimes, and at most each of them |
| Lifecycle.ConvertToEpochTime | android/measure/src/main/java/sh/measure/android/lifecycle/LifecycleTracker.kt:413-415 | the result is as far before now as the uptime is before the uptime clock |
| Lifecycle.ConvertToUptime | android/measure/src/main/java/sh/measure/android/lifecycle/LifecycleTracker.kt:413-415 | the inverse conversion, for the same clock reading |
| Lifecycle.EpochConversionRoundTrip | android/measure/src/main/java/sh/measure/android/lifecycle/LifecycleTracker.kt:413-415 | converting to epoch time and back is the identity; the conversion keeps order and differences |
| Lifecycle.Lowercase | android/measure/src/main/java/sh/measure/android/lifecycle/LifecycleTracker.kt:178 | same length; each character is lower-cased |
| Lifecycle.LowercaseProperties | android/measure/src/main/java/sh/measure/android/lifecycle/LifecycleTracker.kt:327 | the result has no capital letter, lower-casing is idempotent, and a string without capitals is unchanged |
| Lifecycle.StoredLaunchType | android/measure/src/main/java/sh/measure/android/lifecycle/LifecycleTracker.kt:168-227 | cold stores "cold", lukewarm and warm store "warm", hot stores "hot" |
| Lifecycle.TtfiSpanName | android/measure/src/main/java/sh/measure/android/lifecycle/LifecycleTracker.kt:326-333 | succeeds exactly for cold, warm, lukewarm and hot in any letter case, and gives their span names; any other type is the failure |
| Lifecycle.StoredLaunchTypesHaveTtfiName | android/measure/src/main/java/sh/measure/android/lifecycle/LifecycleTracker.kt:326-333 | every launch type the tracker stores has a TTFI span name |
| Lifecycle.IndexOf | android/measure/src/main/java/sh/measure/android/lifecycle/LifecycleTracker.kt:263 | the position of the first occurrence |
| Lifecycle.RemoveFirst | android/measure/src/main/java/sh/measure/android/lifecycle/LifecycleTracker.kt:263 | removes only the first occurrence, if there is one, and keeps the order of the rest |
| Lifecycle.LastOrNull | android/measure/src/main/java/sh/measure/android/lifecycle/LifecycleTracker.kt:383 | none exactly for an empty list; otherwise the last element |
| Lifecycle.ScreenNameAsWritten | android/measure/src/main/java/sh/measure/android/lifecycle/LifecycleTracker.kt:121 | as written: the class name of a string, "java.lang.String" |
| Lifecycle.ScreenName | android/measure/src/main/java/sh/measure/android/lifecycle/LifecycleTracker.kt:118-121 | the activity's recorded name |
| Lifecycle.ScreenNameAsWrittenLosesActivity | android/measure/src/main/java/sh/measure/android/lifecycle/LifecycleTracker.kt:343 | the as-written screen name is the same for every activity, while the corrected one tells activities apart |
| Lifecycle.LukewarmTtidStartAsWritten | android/measure/src/main/java/sh/measure/android/lifecycle/LifecycleTracker.kt:195-196 | as written: the raw start uptime |
| Lifecycle.TtidStart | android/measure/src/main/java/sh/measure/android/lifecycle/LifecycleTracker.kt:176 | the epoch time of the start uptime |
| Lifecycle.LukewarmStartAsWrittenIsNotEpoch | android/measure/src/main/java/sh/measure/android/lifecycle/LifecycleTracker.kt:196 | an input where the as-written start lies about 54 years before the true start |
| Lifecycle.LukewarmStartAgreesOnlyOnSameClock | android/measure/src/main/java/sh/measure/android/lifecycle/LifecycleTracker.kt:196 | the two starts agree exactly when the epoch and uptime clocks read the same |
| Lifecycle.EndedAt | android/measure/src/main/java/sh/measure/android/lifecycle/LifecycleTracker.kt:264 | the span at the handle, if any, is ended; every other span and the log length stay the same |
| Lifecycle.EndedAtAppend | android/measure/src/main/java/sh/measure/android/lifecycle/LifecycleTracker.kt:364-365 | ending a span and then adding spans is adding the spans and then ending it |
| Lifecycle.CloseRequestedAt | android/measure/src/main/java/sh/measure/android/lifecycle/LifecycleTracker.kt:265 | the scope at the handle, if any, has had `close` called; every other scope and the log length stay the same |
| Lifecycle.TransitionEnded | android/measure/src/main/java/sh/measure/android/lifecycle/LifecycleTracker.kt:243-248 | only the transition span, if any, changes: it gets the screen name and ends, keeping its name, start and parent |
| Lifecycle.WithFirstFrame | android/measure/src/main/java/sh/measure/android/lifecycle/LifecycleTracker.kt:254-259 | only the activity's record, if it exists, changes, and only its first-frame time |
| Lifecycle.WithResumedLaunchType | android/measure/src/main/java/sh/measure/android/lifecycle/LifecycleTracker.kt:166-171 | only the resumed activity's record, if it exists, changes, and only its launch type |
| Lifecycle.CurrentActivityTraced | android/measure/src/main/java/sh/measure/android/lifecycle/LifecycleTracker.kt:102-103 | the current-activity span starts now, has no explicit parent, is not ended and names the screen |
| Lifecycle.TransitionFrom | android/measure/src/main/java/sh/measure/android/lifecycle/LifecycleTracker.kt:115-123 | a transition span exists exactly when an activity was started before and is still recorded; it is a root span whose previous-screen attribute is the class name of that activity's name, "java.lang.String", as line 121 computes it |
| Lifecycle.TtidSpan | android/measure/src/main/java/sh/measure/android/lifecycle/LifecycleTracker.kt:172-241 | cold and lukewarm TTID spans exist exactly when the app start time and the startup span are known, and sit under the startup span; the cold one starts at the epoch time of the app start, the lukewarm one at the raw app-start uptime (line 196); warm and hot ones exist exactly when a visible time is known, and start then with no parent; each is ended and carries the launch type in lower case and the screen name |
| Lifecycle.TtidStartOf | android/measure/src/main/java/sh/measure/android/lifecycle/LifecycleTracker.kt:172-200 | a cold TTID span starts as far before now as the app start uptime is before the uptime clock; a lukewarm one starts at that uptime itself |
| Lifecycle.StoredTtfiName | android/measure/src/main/java/sh/measure/android/lifecycle/LifecycleTracker.kt:326-333 | a stored launch type always has a TTFI span name |
| Lifecycle.TtfiSpan | android/measure/src/main/java/sh/measure/android/lifecycle/LifecycleTracker.kt:339-355 | the TTFI span exists exactly when the app start time is known; it starts then in epoch time, takes the name of the stored launch type, is ended and carries the gesture attributes with the screen name "java.lang.String" |
| Lifecycle.LifecycleTracker.constructor | android/measure/src/main/java/sh/measure/android/lifecycle/LifecycleTracker.kt:26-34 | empty lists, no launch in progress, no spans |
| Lifecycle.LifecycleTracker.Register | android/measure/src/main/java/sh/measure/android/lifecycle/LifecycleTracker.kt:58-69 | when a start time is known, the app startup span starts at its epoch time with no parent and is made current; otherwise nothing changes |
| Lifecycle.LifecycleTracker.OnActivityCreated | android/measure/src/main/java/sh/measure/android/lifecycle/LifecycleTracker.kt:71-99 | the record is stored with sameMessage set; a launch begins, with visible time now, exactly when no activity is started and none is in progress |
| Lifecycle.LifecycleTracker.OnCreatedMessageProcessed | android/measure/src/main/java/sh/measure/android/lifecycle/LifecycleTracker.kt:84-90 | a record that still exists gets sameMessage false; nothing else changes |
| Lifecycle.LifecycleTracker.OnActivityStarted | android/measure/src/main/java/sh/measure/android/lifecycle/LifecycleTracker.kt:101-134 | the span log gains the current-activity span, then the transition span from the previous activity (previous-screen name "java.lang.String") when there is one; the activity is made current (a new open scope) unless the startup scope is held during a launch; a first started activity begins a launch when none is in progress; the record gets the span and the scope |
| Lifecycle.LifecycleTracker.StartCurrentActivitySpan | android/measure/src/main/java/sh/measure/android/lifecycle/LifecycleTracker.kt:102-108 | the current-activity span is appended to the log; a scope is opened for it exactly when the startup scope is not held during a launch |
| Lifecycle.LifecycleTracker.BeginLaunchOrTransition | android/measure/src/main/java/sh/measure/android/lifecycle/LifecycleTracker.kt:109-124 | with no started activity a launch begins unless one is in progress; otherwise the span log gains exactly the transition span, if any, with previous-screen name "java.lang.String", and the tracker holds it |
| Lifecycle.LifecycleTracker.RecordCurrentActivitySpan | android/measure/src/main/java/sh/measure/android/lifecycle/LifecycleTracker.kt:127-133 | a recorded activity stores the span and scope handles; an unrecorded one changes nothing |
| Lifecycle.LifecycleTracker.OnActivityResumed | android/measure/src/main/java/sh/measure/android/lifecycle/LifecycleTracker.kt:136-152 | the activity is appended to the resumed list and the launch ends; the frame callback is registered exactly for a recorded activity; a launch type is computed exactly when a launch was in progress |
| Lifecycle.LifecycleTracker.SetResumedLaunchType | android/measure/src/main/java/sh/measure/android/lifecycle/LifecycleTracker.kt:166-171 | the resumed activity's record, if any, stores the launch type; no other record changes |
| Lifecycle.LifecycleTracker.OnFirstFrameDrawn | android/measure/src/main/java/sh/measure/android/lifecycle/LifecycleTracker.kt:154-252 | the frame time is recorded on the activity's record only; a cold launch completes the first cold launch; each launch type also stores its name on the resumed record only and adds its ended TTID span, leaving the rest of the log alone; without a launch type the transition span alone ends with the screen name and is forgotten, and no other record or log entry changes |
| Lifecycle.LifecycleTracker.CompleteLaunch | android/measure/src/main/java/sh/measure/android/lifecycle/LifecycleTracker.kt:164-241 | a cold launch completes the first cold launch; the resumed record, and no other, stores the type; the span log gains exactly the TTID span |
| Lifecycle.LifecycleTracker.RecordFirstFrame | android/measure/src/main/java/sh/measure/android/lifecycle/LifecycleTracker.kt:254-259 | a recorded activity gets its first-frame time; nothing else changes |
| Lifecycle.LifecycleTracker.StartTtidSpan | android/measure/src/main/java/sh/measure/android/lifecycle/LifecycleTracker.kt:172-241 | the span log gains exactly the TTID span of the launch type, if it has one; a lukewarm one starts at the raw app-start uptime |
| Lifecycle.LifecycleTracker.EndTransitionSpan | android/measure/src/main/java/sh/measure/android/lifecycle/LifecycleTracker.kt:243-248 | the transition span, if any, gets the screen name and ends, and no other span changes; the field is cleared |
| Lifecycle.LifecycleTracker.OnActivityPaused | android/measure/src/main/java/sh/measure/android/lifecycle/LifecycleTracker.kt:261-266 | the activity leaves the resumed list; its current-activity span, and only that span, ends; `close` is called on its scope, and only that scope |
| Lifecycle.LifecycleTracker.OnActivityStopped | android/measure/src/main/java/sh/measure/android/lifecycle/LifecycleTracker.kt:268-271 | the first occurrence leaves the started list; the others keep their order |
| Lifecycle.LifecycleTracker.OnActivityDestroyed | android/measure/src/main/java/sh/measure/android/lifecycle/LifecycleTracker.kt:273-276 | the record is dropped |
| Lifecycle.LifecycleTracker.GetResumedActivity | android/measure/src/main/java/sh/measure/android/lifecycle/LifecycleTracker.kt:382-384 | the last resumed activity, or none |
| Lifecycle.LifecycleTracker.EndAppStartupSpan | android/measure/src/main/java/sh/measure/android/lifecycle/LifecycleTracker.kt:363-368 | `close` is called on the startup scope and the startup span ends, nothing else in the logs changes, and both handles are forgotten |
| Lifecycle.TtfiAttributes | android/measure/src/main/java/sh/measure/android/lifecycle/LifecycleTracker.kt:339-354 | screen name "java.lang.String" (the class name of the resumed activity's identity-hash string, line 343), gesture target and lower-cased gesture type; the target id only when there is one; no other key |
| Lifecycle.LifecycleTracker.TrackTtfi | android/measure/src/main/java/sh/measure/android/lifecycle/LifecycleTracker.kt:322-361 | nothing changes unless the resumed activity has no first interaction yet; then the startup span ends and `close` is called on its scope; with a stored launch type the span log also gains the TTFI span, if the app start time is known, and the record stores the interaction |
| Lifecycle.LifecycleTracker.TrackTypedTtfi | android/measure/src/main/java/sh/measure/android/lifecycle/LifecycleTracker.kt:334-358 | for an activity with a stored launch type: the TTFI span (screen name "java.lang.String") is added, the startup span then ends, and the interaction is recorded |
| Lifecycle.LifecycleTracker.StartTtfiSpan | android/measure/src/main/java/sh/measure/android/lifecycle/LifecycleTracker.kt:339-355 | the span log gains exactly the TTFI span of the record, with screen name "java.lang.String", if the app start time is known |
| Lifecycle.LifecycleTracker.RecordFirstInteraction | android/measure/src/main/java/sh/measure/android/lifecycle/LifecycleTracker.kt:357-358 | the record stores the interaction |
| Lifecycle.ColdLaunch | android/measure/src/main/java/sh/measure/android/lifecycle/LifecycleTracker.kt:58-252 | a foreground start without saved state is a cold launch; it completes the first cold launch and adds the cold TTID span under the startup span |
| Lifecycle.ColdLaunchUntilResumed | android/measure/src/main/java/sh/measure/android/lifecycle/LifecycleTracker.kt:58-152 | up to the resume, the same launch is classified cold and the startup span is the first span |
| Lifecycle.ColdLaunchUntilStarted | android/measure/src/main/java/sh/measure/android/lifecycle/LifecycleTracker.kt:58-134 | up to the start of the first activity, a launch is in progress under the startup span |

## Left out

- Concurrency is not modelled: the span lock, the concurrent map in the span buffer, the thread-local cell in span storage, and the main-thread handler. One thread's view is modelled.
- Deferred lifecycle work is not scheduled by the model. The message posted from `onActivityCreated` and the first-frame callback registered from `onActivityResumed` are methods that the caller runs when that work runs.
- Logging is not modelled: the warnings on ignored calls and the `Log.i` in the processor and in scope close.
- The `InternalTrace.trace` wrapper around `startSpan` is not modelled; it only labels the call.
- `setAttribute` on `MsrSpan` and `Span.current()` are declared in `Span.kt`, which is not part of this model. The current span is read from the storage directly.
- Attribute processors are modelled as pure functions from an attribute map to an attribute map. They cannot reach other state.
- Tracing.MsrSpan: a span holds the one `SpanProcessor` implementation, `MsrSpanProcessor`, not the interface. Other implementations cannot be plugged in, because a class cannot hold a value of an interface type without a trait.
- Scopes.WithScope: the block is modelled by its value and by the span it leaves current. Its other effects (spans it starts or ends, attributes it sets) and exceptions thrown through `use` are not modelled.
- `EventProcessor.trackSpan` is not part of this model. It is an event sink that keeps what it receives.
- Lifecycle.LifecycleTracker: the spans the tracker asks `InternalTracer` for are log entries (`TracedSpan`), not `MsrSpan` objects. The log records the name, start, parent choice, attributes and whether the span ended. When the tracker starts a span without `setNoParent` and then sets an explicit parent, the log records only the explicit parent.
- Lifecycle.LifecycleTracker: each scope the tracker holds is a log entry that records whether the tracker called its `close`, not whether storage honoured the call. Storage ignores the call when the scope's span is no longer current. That effect on the current span is modelled by `Scopes.ScopeImpl.Close`, not repeated here.
- Lifecycle.LifecycleTracker.TrackTtfi: the source throws `IllegalArgumentException` for a stored launch type with no TTFI span name. The tracker only stores "cold", "warm" and "hot", and `Valid()` keeps it that way, so the throw cannot happen. `Lifecycle.TtfiSpanName` still models the failure as a `Result`.
- `onClick`, `onLongClick` and `onScroll` are not separate members. Each builds an `Interaction` of its kind, stamped with the clock's epoch reading, and calls `trackTtfi`. That is `Lifecycle.LifecycleTracker.TrackTtfi` with that `Interaction` value.
- `Integer.toHexString(System.identityHashCode(activity))` is not computed: an activity is identified by a string the caller passes. `activity.javaClass.name` is the `activityName` parameter.
- The source's `Long` arithmetic is modelled with unbounded integers. Overflow in the epoch conversion and in the duration is not modelled.
- Lifecycle.Lowercase: lower-cases ASCII letters only. The launch-type and gesture-type names it is applied to are ASCII.
- Numeric attribute values (`Double`, `Float`, `Int`, `Long`) are opaque values of an attribute map. Floating point is not modelled.
- SpanDataExtensions.ToSpanEntity: `serializedLinkedEvents` is left out. The span data in this model has no linked events.
- SpanDataExtensions.ToSpanEntity: the kotlinx JSON encoder for attribute maps is a parameter. Its output is taken as given.
- SpanDataExtensions.Escape: escapes only `"` and `\`, which is what a name needs to read back. Control characters are not escaped.
- SpanDataExtensions.DecodeEventHead: reads back only the name and the timestamp. The attributes part is the encoder's output.

## Findings

| source | as written | input that shows it | evidently intended | confidence | as-written member | corrected member |
|---|---|---|---|---|---|---|
| android/measure/src/main/java/sh/measure/android/lifecycle/LifecycleTracker.kt:121 | the previous-screen attribute takes `activityName.javaClass.name`, the class name of a `String`. The TTFI screen name at line 343 does the same with the identity hash | any two activities: both get "java.lang.String" | the activity's recorded name | high (not executed) | Lifecycle.ScreenNameAsWritten, Lifecycle.ScreenNameAsWrittenLosesActivity | Lifecycle.ScreenName |
| android/measure/src/main/java/sh/measure/android/lifecycle/LifecycleTracker.kt:196 | the lukewarm TTID span starts at the raw app-start uptime. Every other launch span converts that uptime to epoch time | clock at epoch 1 700 000 000 000 ms and uptime 10 000 ms, app started at uptime 5 000 | start at the converted epoch time, as the cold span does at line 176 | high (not executed) | Lifecycle.LukewarmTtidStartAsWritten, Lifecycle.LukewarmStartAsWrittenIsNotEpoch | Lifecycle.TtidStart, Lifecycle.LukewarmStartAgreesOnlyOnSameClock |
| android/measure/src/main/java/sh/measure/android/storage/SpanDataExtenstions.kt:37 | the event name is pasted between quotes without escaping | event name `a"b` | a JSON string whose name reads back as written | medium (not executed) | SpanDataExtensions.SerializeEventAsWritten, SpanDataExtensions.QuotedNameBreaksRendering, SpanDataExtensions.QuotedNameBreaksArray | SpanDataExtensions.SerializeEvent, SpanDataExtensions.EventHeadRoundTrip, SpanDataExtensions.SpanEventDecodable |
