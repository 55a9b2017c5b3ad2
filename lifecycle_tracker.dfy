/**
 * The activity lifecycle tracker: classifies each launch (cold, lukewarm, warm,
 * hot), keeps the lists of started and resumed activities, and starts and ends
 * the launch spans.
 *
 * Activities are known by their identity-hash string. Android callbacks that the
 * tracker defers (the message posted from `onActivityCreated`, the first-frame
 * callback registered from `onActivityResumed`) are explicit methods here, called
 * when the deferred work runs. The tracer is seen through the spans it was asked
 * to start: each is one entry of the `spans` log and a span handle is its index
 * there; the scopes handed out by `makeCurrent` are entries of the `scopes` log.
 * The clock and the process-wide launch facts are parameters.
 */
module Lifecycle {
  import opened Wrappers

  /** Android's `IMPORTANCE_FOREGROUND`. */
  const IMPORTANCE_FOREGROUND: int := 100

  /** What the Kotlin class name of a `String` value is. */
  const STRING_CLASS_NAME: string := "java.lang.String"

  datatype LaunchType = Cold | Lukewarm | Warm | Hot

  /** The name the source gives each launch type. */
  function LaunchTypeName(t: LaunchType): string
  {
    match t
    case Cold => "Cold"
    case Lukewarm => "Lukewarm"
    case Warm => "Warm"
    case Hot => "Hot"
  }

  /** The process-wide launch facts (uptimes in milliseconds since boot). */
  datatype LaunchState = LaunchState(
    processImportanceOnInit: int,
    processStartUptime: Option<int>,
    processStartRequestedUptime: Option<int>,
    contentLoaderAttachUptime: Option<int>
  )

  /** One reading of the clock: epoch milliseconds and milliseconds since boot. */
  datatype Clock = Clock(now: int, millisTime: int)

  datatype InteractionType = Click | LongClick | Scroll

  function InteractionTypeName(t: InteractionType): string
  {
    match t
    case Click => "Click"
    case LongClick => "LongClick"
    case Scroll => "Scroll"
  }

  /** A user gesture on the resumed activity. */
  datatype Interaction = Interaction(target: string, targetId: Option<string>, timestamp: int, kind: InteractionType)

  /** Index of a span in the tracker's span log. */
  type SpanHandle = nat
  /** Index of a scope in the tracker's scope log. */
  type ScopeHandle = nat

  /** What the tracker knows of a created activity. */
  datatype ActivityInfo = ActivityInfo(
    activityName: string,
    firstFrameDrawnTimestamp: Option<int>,
    firstInteraction: Option<Interaction>,
    sameMessage: bool,
    hasSavedState: bool,
    currentActivitySpanScope: Option<ScopeHandle>,
    launchType: Option<string>,
    currentActivitySpan: Option<SpanHandle>
  )

  /** The span names the tracker uses. */
  datatype SpanName =
    | AppStartup | CurrentActivity | ActivityTransition
    | ColdLaunchTtid | WarmLaunchTtid | HotLaunchTtid
    | ColdLaunchTtfi | WarmLaunchTtfi | HotLaunchTtfi

  /** The attribute keys the tracker sets. */
  datatype AttrKey =
    | CurrentScreenName | PreviousScreenName | LaunchTypeKey
    | GestureTargetId | GestureTargetName | GestureType

  /** A span the tracker asked the tracer to start. */
  datatype TracedSpan = TracedSpan(
    name: SpanName,
    startTime: int,
    noParent: bool,
    parent: Option<SpanHandle>,
    attributes: map<AttrKey, string>,
    ended: bool
  )

  /**
   * A scope handed out when a span was made current, and whether the tracker has
   * called its `close` (storage ignores that call when the span is no longer current).
   */
  datatype TracedScope = TracedScope(span: SpanHandle, closeRequested: bool)

  // ---------------------------------------------------------------------------
  // Pure parts.
  // ---------------------------------------------------------------------------

  /**
   * The launch type of an activity being resumed: after the first cold launch it
   * is warm if the activity was created in this same main-thread message and hot
   * otherwise; before it, a foreground process start is cold unless the activity
   * has saved state, and every other start is lukewarm.
   */
  function ComputeLaunchType(coldLaunchComplete: bool, processImportanceOnInit: int, info: ActivityInfo): (t: LaunchType)
    ensures coldLaunchComplete ==> (t == Warm <==> info.sameMessage) && (t == Hot <==> !info.sameMessage)
    ensures t == Cold <==> !coldLaunchComplete && processImportanceOnInit == IMPORTANCE_FOREGROUND && !info.hasSavedState
    ensures !coldLaunchComplete ==>
      (t == Lukewarm <==> processImportanceOnInit != IMPORTANCE_FOREGROUND || info.hasSavedState)
  {
    if coldLaunchComplete then
      if info.sameMessage then Warm else Hot
    else if processImportanceOnInit == IMPORTANCE_FOREGROUND && info.hasSavedState then Lukewarm
    else if processImportanceOnInit == IMPORTANCE_FOREGROUND then Cold
    else Lukewarm
  }

  /** The present values among the three, in order. */
  function ListOfNotNull(a: Option<int>, b: Option<int>, c: Option<int>): (r: seq<int>)
    ensures forall x :: x in r <==> Some(x) == a || Some(x) == b || Some(x) == c
    ensures |r| == (if a.Some? then 1 else 0) + (if b.Some? then 1 else 0) + (if c.Some? then 1 else 0)
  {
    (if a.Some? then [a.value] else []) + (if b.Some? then [b.value] else []) + (if c.Some? then [c.value] else [])
  }

  /** The least element, or none for the empty list. */
  function MinOrNull(s: seq<int>): (m: Option<int>)
    ensures m.None? <==> s == []
    ensures m.Some? ==> m.value in s && forall x | x in s :: m.value <= x
  {
    if |s| == 0 then None
    else
      var rest := MinOrNull(s[1..]);
      assert forall x | x in s :: x == s[0] || x in s[1..];
      if rest.None? || s[0] <= rest.value then Some(s[0]) else rest
  }

  /**
   * The app start time: the earliest of the known uptimes (process start,
   * process start requested, content loader attach), or none if none is known.
   */
  function AppStartTime(launch: LaunchState): (t: Option<int>)
    ensures t.None? <==>
      (launch.processStartUptime.None? && launch.processStartRequestedUptime.None?
       && launch.contentLoaderAttachUptime.None?)
    ensures t.Some? ==>
      (Some(t.value) == launch.processStartUptime || Some(t.value) == launch.processStartRequestedUptime
       || Some(t.value) == launch.contentLoaderAttachUptime)
    ensures t.Some? ==>
      (launch.processStartUptime.Some? ==> t.value <= launch.processStartUptime.value)
      && (launch.processStartRequestedUptime.Some? ==> t.value <= launch.processStartRequestedUptime.value)
      && (launch.contentLoaderAttachUptime.Some? ==> t.value <= launch.contentLoaderAttachUptime.value)
  {
    var present := ListOfNotNull(launch.processStartUptime, launch.processStartRequestedUptime,
                                 launch.contentLoaderAttachUptime);
    assert launch.processStartUptime.Some? ==> launch.processStartUptime.value in present;
    assert launch.processStartRequestedUptime.Some? ==> launch.processStartRequestedUptime.value in present;
    assert launch.contentLoaderAttachUptime.Some? ==> launch.contentLoaderAttachUptime.value in present;
    MinOrNull(present)
  }

  /**
   * The epoch time of an uptime reading: now, less the time elapsed since that
   * uptime. (64-bit overflow is not modelled.)
   */
  function ConvertToEpochTime(clock: Clock, elapsedRealtime: int): (t: int)
    ensures clock.now - t == clock.millisTime - elapsedRealtime
  {
    clock.now - (clock.millisTime - elapsedRealtime)
  }

  /** The uptime of an epoch time, for the same clock reading. */
  function ConvertToUptime(clock: Clock, epochTime: int): (e: int)
    ensures clock.millisTime - e == clock.now - epochTime
  {
    clock.millisTime - (clock.now - epochTime)
  }

  /** Converting to epoch time and back gives the uptime; the conversion keeps order. */
  lemma EpochConversionRoundTrip(clock: Clock, e1: int, e2: int)
    ensures ConvertToUptime(clock, ConvertToEpochTime(clock, e1)) == e1
    ensures e1 <= e2 <==> ConvertToEpochTime(clock, e1) <= ConvertToEpochTime(clock, e2)
    ensures ConvertToEpochTime(clock, e2) - ConvertToEpochTime(clock, e1) == e2 - e1
  {
  }

  function LowerChar(c: char): char
  {
    if 'A' <= c <= 'Z' then (c as int - 'A' as int + 'a' as int) as char else c
  }

  /** ASCII lower-casing. */
  function Lowercase(s: string): (r: string)
    ensures |r| == |s|
    ensures forall i | 0 <= i < |s| :: r[i] == LowerChar(s[i])
  {
    if |s| == 0 then "" else [LowerChar(s[0])] + Lowercase(s[1..])
  }

  predicate NoUppercase(s: string) {
    forall i | 0 <= i < |s| :: !('A' <= s[i] <= 'Z')
  }

  /** Lower-casing leaves no capital letter, and a string without one unchanged. */
  lemma LowercaseProperties(s: string)
    ensures NoUppercase(Lowercase(s))
    ensures NoUppercase(s) ==> Lowercase(s) == s
    ensures Lowercase(Lowercase(s)) == Lowercase(s)
  {
  }

  /** The launch type the first frame stores on the resumed activity. */
  function StoredLaunchType(t: LaunchType): (s: string)
    ensures t == Hot <==> s == "hot"
    ensures t == Cold <==> s == "cold"
    ensures t == Warm || t == Lukewarm <==> s == "warm"
  {
    match t
    case Cold => "cold"
    case Lukewarm => "warm"
    case Warm => "warm"
    case Hot => "hot"
  }

  predicate IsStoredLaunchType(s: string) {
    s == "cold" || s == "warm" || s == "hot"
  }

  /**
   * The time-to-first-interaction span name for a stored launch type, matched
   * case-insensitively; any other type is the source's `IllegalArgumentException`.
   */
  function TtfiSpanName(launchType: string): (r: Result<SpanName, string>)
    ensures r.Success? <==> Lowercase(launchType) in {"cold", "warm", "lukewarm", "hot"}
    ensures r.Success? ==>
      (r.value == ColdLaunchTtfi <==> Lowercase(launchType) == "cold")
      && (r.value == HotLaunchTtfi <==> Lowercase(launchType) == "hot")
      && (r.value == WarmLaunchTtfi <==> Lowercase(launchType) in {"warm", "lukewarm"})
  {
    var lower := Lowercase(launchType);
    if lower == "cold" then Success(ColdLaunchTtfi)
    else if lower == "warm" then Success(WarmLaunchTtfi)
    else if lower == "lukewarm" then Success(WarmLaunchTtfi)
    else if lower == "hot" then Success(HotLaunchTtfi)
    else Failure("No launch type named " + launchType)
  }

  /** Every launch type the tracker stores names a time-to-first-interaction span. */
  lemma StoredLaunchTypesHaveTtfiName(s: string)
    requires IsStoredLaunchType(s)
    ensures TtfiSpanName(s).Success?
  {
    LowercaseProperties(s);
  }

  /** The time-to-first-interaction span name of a launch type the tracker stores. */
  function StoredTtfiName(s: string): (n: SpanName)
    requires IsStoredLaunchType(s)
    ensures TtfiSpanName(s) == Success(n)
  {
    StoredLaunchTypesHaveTtfiName(s);
    TtfiSpanName(s).value
  }

  /** The position of the first occurrence of `x`. */
  function IndexOf(s: seq<string>, x: string): (i: nat)
    requires x in s
    ensures i < |s| && s[i] == x && x !in s[..i]
  {
    if s[0] == x then 0
    else
      var j := IndexOf(s[1..], x);
      assert s[..1 + j] == [s[0]] + s[1..][..j];
      1 + j
  }

  /** `MutableList.remove`: drops the first occurrence of `x`, if any. */
  function RemoveFirst(s: seq<string>, x: string): (r: seq<string>)
    ensures x !in s ==> r == s
    ensures x in s ==> |r| == |s| - 1 && multiset(r) == multiset(s) - multiset{x}
    ensures x in s ==> r[..IndexOf(s, x)] == s[..IndexOf(s, x)] && r[IndexOf(s, x)..] == s[IndexOf(s, x) + 1..]
  {
    if x in s then
      var i := IndexOf(s, x);
      assert s == s[..i] + [x] + s[i + 1..];
      s[..i] + s[i + 1..]
    else
      s
  }

  /** The last element, or none for the empty list. */
  function LastOrNull(s: seq<string>): (r: Option<string>)
    ensures r.None? <==> s == []
    ensures r.Some? ==> r.value == s[|s| - 1]
  {
    if s == [] then None else Some(s[|s| - 1])
  }

  /**
   * Findings: the value given as a screen name where the source takes the class
   * name of a string (the previous activity's name, the resumed activity's
   * identity hash) is the class name of `String`, whatever the string.
   */
  function ScreenNameAsWritten(s: string): (r: string)
    ensures r == STRING_CLASS_NAME
  {
    STRING_CLASS_NAME
  }

  /**
   * Findings, corrected: the screen name evidently meant, the activity's recorded
   * name. The tracker keeps the as-written value.
   */
  function ScreenName(info: ActivityInfo): (r: string)
    ensures r == info.activityName
  {
    info.activityName
  }

  /** The screen name as written does not depend on the activity at all. */
  lemma ScreenNameAsWrittenLosesActivity(a: ActivityInfo, b: ActivityInfo)
    ensures ScreenNameAsWritten(a.activityName) == ScreenNameAsWritten(b.activityName)
    ensures a.activityName != b.activityName ==> ScreenName(a) != ScreenName(b)
    ensures ScreenName(a) == STRING_CLASS_NAME || ScreenNameAsWritten(a.activityName) != ScreenName(a)
  {
  }

  /**
   * Findings: the start of the lukewarm time-to-initial-display span as written,
   * the app start uptime itself, while every other launch span starts at an
   * epoch time.
   */
  function LukewarmTtidStartAsWritten(clock: Clock, startUptime: int): (t: int)
    ensures t == startUptime
  {
    startUptime
  }

  /**
   * The start of a time-to-initial-display span that measures from app start: the
   * epoch time of the start uptime, as the cold span has it and the lukewarm one
   * evidently should.
   */
  function TtidStart(clock: Clock, startUptime: int): (t: int)
    ensures clock.now - t == clock.millisTime - startUptime
  {
    ConvertToEpochTime(clock, startUptime)
  }

  /**
   * With the clock at 1 700 000 000 000 ms epoch and 10 000 ms uptime and the app
   * started at uptime 5 000, the as-written lukewarm span starts 1 699 999 995 000 ms
   * before now instead of 5 000 ms.
   */
  lemma LukewarmStartAsWrittenIsNotEpoch()
    ensures var clock := Clock(1_700_000_000_000, 10_000);
      clock.now - LukewarmTtidStartAsWritten(clock, 5_000) == 1_699_999_995_000
      && clock.now - TtidStart(clock, 5_000) == 5_000
  {
  }

  /** As written and corrected agree only when the two clocks read the same. */
  lemma LukewarmStartAgreesOnlyOnSameClock(clock: Clock, startUptime: int)
    ensures LukewarmTtidStartAsWritten(clock, startUptime) == TtidStart(clock, startUptime)
        <==> clock.now == clock.millisTime
  {
  }

  /** The span log after the span `h`, if there is one, is ended; ending it again changes nothing. */
  function EndedAt(log: seq<TracedSpan>, h: Option<SpanHandle>): (r: seq<TracedSpan>)
    requires h.Some? ==> h.value < |log|
    ensures |r| == |log|
    ensures forall i | 0 <= i < |log| && h != Some(i) :: r[i] == log[i]
    ensures h.Some? ==> r[h.value] == log[h.value].(ended := true) && r[h.value].ended
  {
    if h.Some? then log[h.value := log[h.value].(ended := true)] else log
  }

  /** Ending an earlier span commutes with appending to the log. */
  lemma EndedAtAppend(log: seq<TracedSpan>, h: Option<SpanHandle>, extra: seq<TracedSpan>)
    requires h.Some? ==> h.value < |log|
    ensures EndedAt(log + extra, h) == EndedAt(log, h) + extra
  {
    if h.Some? {
      assert EndedAt(log + extra, h) == (log + extra)[h.value := log[h.value].(ended := true)];
    }
  }

  /** The scope log after `close` was called on the scope `sc`, if there is one. */
  function CloseRequestedAt(log: seq<TracedScope>, sc: Option<ScopeHandle>): (r: seq<TracedScope>)
    requires sc.Some? ==> sc.value < |log|
    ensures |r| == |log|
    ensures forall i | 0 <= i < |log| && sc != Some(i) :: r[i] == log[i]
    ensures sc.Some? ==> r[sc.value] == log[sc.value].(closeRequested := true) && r[sc.value].closeRequested
  {
    if sc.Some? then log[sc.value := log[sc.value].(closeRequested := true)] else log
  }

  /** The span log after the transition span `h`, if there is one, gets the screen name and ends. */
  function TransitionEnded(log: seq<TracedSpan>, h: Option<SpanHandle>, activityName: string): (r: seq<TracedSpan>)
    requires h.Some? ==> h.value < |log|
    ensures |r| == |log|
    ensures forall i | 0 <= i < |log| && h != Some(i) :: r[i] == log[i]
    ensures h.Some? ==>
      r[h.value].name == log[h.value].name && r[h.value].startTime == log[h.value].startTime
      && r[h.value].noParent == log[h.value].noParent && r[h.value].parent == log[h.value].parent
      && r[h.value].ended && r[h.value].attributes == log[h.value].attributes[CurrentScreenName := activityName]
  {
    if h.Some? then
      log[h.value := log[h.value].(attributes := log[h.value].attributes[CurrentScreenName := activityName], ended := true)]
    else log
  }

  /** The records after activity `id`'s first frame, if it is recorded, was drawn at `timestamp`. */
  function WithFirstFrame(created: map<string, ActivityInfo>, id: string, timestamp: int): (r: map<string, ActivityInfo>)
    ensures r.Keys == created.Keys
    ensures forall k | k in created && k != id :: r[k] == created[k]
    ensures id in created ==> r[id] == created[id].(firstFrameDrawnTimestamp := Some(timestamp))
  {
    if id in created then created[id := created[id].(firstFrameDrawnTimestamp := Some(timestamp))] else created
  }

  /** The records after the resumed activity (the last of `resumed`), if it is recorded, stores launch type `t`. */
  function WithResumedLaunchType(created: map<string, ActivityInfo>, resumed: seq<string>, t: LaunchType)
    : (r: map<string, ActivityInfo>)
    ensures r.Keys == created.Keys
    ensures forall k | k in created && LastOrNull(resumed) != Some(k) :: r[k] == created[k]
    ensures var last := LastOrNull(resumed);
      last.Some? && last.value in created ==>
        r[last.value] == created[last.value].(launchType := Some(StoredLaunchType(t)))
  {
    var last := LastOrNull(resumed);
    if last.Some? && last.value in created then
      created[last.value := created[last.value].(launchType := Some(StoredLaunchType(t)))]
    else created
  }

  /** The span an optional span stands for, as a list of zero or one spans. */
  function Listed(o: Option<TracedSpan>): (r: seq<TracedSpan>)
    ensures o.None? <==> r == []
    ensures o.Some? ==> r == [o.value]
  {
    if o.Some? then [o.value] else []
  }

  /** The current-activity span an activity start adds: made current at `now`, not yet ended. */
  function CurrentActivityTraced(activityName: string, now: int): (s: TracedSpan)
    ensures s.name == CurrentActivity && s.startTime == now && !s.ended
    ensures !s.noParent && s.parent.None? && s.attributes == map[CurrentScreenName := activityName]
  {
    TracedSpan(CurrentActivity, now, false, None, map[CurrentScreenName := activityName], false)
  }

  /**
   * The transition span an activity start adds: only when another activity was
   * started before and is still recorded; it is a root span whose previous-screen
   * attribute is the class name of that activity's name, as the source computes it.
   */
  function TransitionFrom(started: seq<string>, created: map<string, ActivityInfo>, now: int): (s: Option<TracedSpan>)
    ensures s.Some? <==> started != [] && started[|started| - 1] in created
    ensures s.Some? ==>
      s.value.name == ActivityTransition && s.value.startTime == now && s.value.noParent
      && s.value.parent.None? && !s.value.ended
      && s.value.attributes == map[PreviousScreenName := ScreenNameAsWritten(created[started[|started| - 1]].activityName)]
      && s.value.attributes[PreviousScreenName] == STRING_CLASS_NAME
  {
    var previous := LastOrNull(started);
    if previous.Some? && previous.value in created then
      Some(TracedSpan(ActivityTransition, now, true, None,
                      map[PreviousScreenName := ScreenNameAsWritten(created[previous.value].activityName)], false))
    else None
  }

  /** The name of the time-to-initial-display span of each launch type. */
  function TtidSpanName(t: LaunchType): SpanName
  {
    match t
    case Cold => ColdLaunchTtid
    case Lukewarm => WarmLaunchTtid
    case Warm => WarmLaunchTtid
    case Hot => HotLaunchTtid
  }

  /**
   * Where a cold or lukewarm time-to-initial-display span starts: the cold one at
   * the epoch time of the app start, the lukewarm one at the raw app start uptime,
   * as the source passes it.
   */
  function TtidStartOf(t: LaunchType, clock: Clock, startUptime: int): (start: int)
    requires t == Cold || t == Lukewarm
    ensures t == Cold ==> clock.now - start == clock.millisTime - startUptime
    ensures t == Lukewarm ==> start == startUptime
  {
    if t == Cold then TtidStart(clock, startUptime) else LukewarmTtidStartAsWritten(clock, startUptime)
  }

  /**
   * The time-to-initial-display span the first frame of a launch of type `t`
   * adds, started and already ended. Cold and lukewarm launches measure from the
   * app start (the lukewarm one from its raw uptime, as the source passes it),
   * under the app startup span, and only while both are known; warm
   * and hot launches measure from when the app might have become visible, with no
   * parent, and only when that time is known.
   */
  function TtidSpan(t: LaunchType, activityName: string, launch: LaunchState, clock: Clock,
                    appStartupSpan: Option<SpanHandle>, lastAppVisibleTime: Option<int>): (s: Option<TracedSpan>)
    ensures t == Cold || t == Lukewarm ==> (s.Some? <==> AppStartTime(launch).Some? && appStartupSpan.Some?)
    ensures t == Warm || t == Hot ==> (s.Some? <==> lastAppVisibleTime.Some?)
    ensures s.Some? ==>
      s.value.name == TtidSpanName(t) && s.value.ended
      && s.value.attributes == map[LaunchTypeKey := Lowercase(LaunchTypeName(t)), CurrentScreenName := activityName]
    ensures s.Some? && (t == Cold || t == Lukewarm) ==>
      !s.value.noParent && s.value.parent == appStartupSpan
    ensures s.Some? && t == Cold ==> s.value.startTime == TtidStart(clock, AppStartTime(launch).value)
    ensures s.Some? && t == Lukewarm ==>
      s.value.startTime == LukewarmTtidStartAsWritten(clock, AppStartTime(launch).value)
      && s.value.startTime == AppStartTime(launch).value
    ensures s.Some? && (t == Warm || t == Hot) ==>
      s.value.noParent && s.value.parent.None? && s.value.startTime == lastAppVisibleTime.value
  {
    var attributes := map[LaunchTypeKey := Lowercase(LaunchTypeName(t)), CurrentScreenName := activityName];
    if t == Cold || t == Lukewarm then
      var start := AppStartTime(launch);
      if start.Some? && appStartupSpan.Some? then
        Some(TracedSpan(TtidSpanName(t), TtidStartOf(t, clock, start.value), false, appStartupSpan, attributes, true))
      else None
    else if lastAppVisibleTime.Some? then
      Some(TracedSpan(TtidSpanName(t), lastAppVisibleTime.value, true, None, attributes, true))
    else None
  }

  /**
   * The attributes of a time-to-first-interaction span for the resumed activity
   * `activity` (its identity hash); the screen name is the class name of that
   * string, as the source computes it.
   */
  function TtfiAttributes(activity: string, interaction: Interaction): (m: map<AttrKey, string>)
    ensures CurrentScreenName in m && GestureTargetName in m && GestureType in m
    ensures m[CurrentScreenName] == ScreenNameAsWritten(activity) && m[CurrentScreenName] == STRING_CLASS_NAME
    ensures m[GestureTargetName] == interaction.target
    ensures m[GestureType] == Lowercase(InteractionTypeName(interaction.kind))
    ensures GestureTargetId in m <==> interaction.targetId.Some?
    ensures interaction.targetId.Some? ==> m[GestureTargetId] == interaction.targetId.value
    ensures forall k | k in m :: k == CurrentScreenName || k == GestureTargetId || k == GestureTargetName || k == GestureType
  {
    var base := map[CurrentScreenName := ScreenNameAsWritten(activity)];
    var withId := if interaction.targetId.Some? then base[GestureTargetId := interaction.targetId.value] else base;
    withId[GestureTargetName := interaction.target][GestureType := Lowercase(InteractionTypeName(interaction.kind))]
  }

  /**
   * The time-to-first-interaction span the first interaction adds for an activity
   * with a stored launch type, started and already ended: it measures from the app
   * start, with the parent the tracer picks, and only when the app start time is
   * known.
   */
  function TtfiSpan(activity: string, info: ActivityInfo, interaction: Interaction, launch: LaunchState, clock: Clock)
    : (s: Option<TracedSpan>)
    requires info.launchType.Some? && IsStoredLaunchType(info.launchType.value)
    ensures s.Some? <==> AppStartTime(launch).Some?
    ensures s.Some? ==>
      TtfiSpanName(info.launchType.value) == Success(s.value.name)
      && s.value.startTime == ConvertToEpochTime(clock, AppStartTime(launch).value)
      && !s.value.noParent && s.value.parent.None? && s.value.ended
      && s.value.attributes == TtfiAttributes(activity, interaction)
  {
    var start := AppStartTime(launch);
    if start.Some? then
      Some(TracedSpan(StoredTtfiName(info.launchType.value), ConvertToEpochTime(clock, start.value), false, None,
                      TtfiAttributes(activity, interaction), true))
    else None
  }

  // ---------------------------------------------------------------------------
  // The tracker.
  // ---------------------------------------------------------------------------

  /** A record's handles point into logs of the given lengths, and its launch type is a stored one. */
  predicate InfoValid(info: ActivityInfo, spanCount: nat, scopeCount: nat) {
    (info.launchType.Some? ==> IsStoredLaunchType(info.launchType.value))
    && (info.currentActivitySpan.Some? ==> info.currentActivitySpan.value < spanCount)
    && (info.currentActivitySpanScope.Some? ==> info.currentActivitySpanScope.value < scopeCount)
  }

  predicate AllInfosValid(m: map<string, ActivityInfo>, spanCount: nat, scopeCount: nat) {
    forall id | id in m :: InfoValid(m[id], spanCount, scopeCount)
  }

  /** Records stay valid when the logs grow. */
  lemma AllInfosValidGrow(m: map<string, ActivityInfo>, spanCount: nat, scopeCount: nat, spanCount': nat, scopeCount': nat)
    requires AllInfosValid(m, spanCount, scopeCount)
    requires spanCount <= spanCount' && scopeCount <= scopeCount'
    ensures AllInfosValid(m, spanCount', scopeCount')
  {
    assert forall k | k in m :: InfoValid(m[k], spanCount', scopeCount');
  }

  /** Replacing one record by a valid one keeps the records valid. */
  lemma AllInfosValidSet(m: map<string, ActivityInfo>, spanCount: nat, scopeCount: nat, id: string, info: ActivityInfo)
    requires AllInfosValid(m, spanCount, scopeCount) && InfoValid(info, spanCount, scopeCount)
    ensures AllInfosValid(m[id := info], spanCount, scopeCount)
  {
  }

  class LifecycleTracker {
    var createdActivities: map<string, ActivityInfo>
    var startedActivities: seq<string>
    var resumedActivities: seq<string>
    var launchInProgress: bool
    var lastAppVisibleTime: Option<int>
    var coldLaunchComplete: bool
    var transitionSpan: Option<SpanHandle>
    var appStartupSpan: Option<SpanHandle>
    var appStartupSpanScope: Option<ScopeHandle>
    /** Every span the tracker started, in order. */
    var spans: seq<TracedSpan>
    /** Every scope the tracker was handed, in order. */
    var scopes: seq<TracedScope>

    /** Handles point into the logs, and stored launch types are the three the first frame writes. */
    predicate Valid()
      reads this
    {
      (transitionSpan.Some? ==> transitionSpan.value < |spans|)
      && (appStartupSpan.Some? ==> appStartupSpan.value < |spans|)
      && (appStartupSpanScope.Some? ==> appStartupSpanScope.value < |scopes|)
      && AllInfosValid(createdActivities, |spans|, |scopes|)
    }

    constructor ()
      ensures Valid()
      ensures createdActivities == map[] && startedActivities == [] && resumedActivities == []
      ensures !launchInProgress && lastAppVisibleTime.None? && !coldLaunchComplete
      ensures transitionSpan.None? && appStartupSpan.None? && appStartupSpanScope.None?
      ensures spans == [] && scopes == []
    {
      createdActivities := map[];
      startedActivities := [];
      resumedActivities := [];
      launchInProgress := false;
      lastAppVisibleTime := None;
      coldLaunchComplete := false;
      transitionSpan := None;
      appStartupSpan := None;
      appStartupSpanScope := None;
      spans := [];
      scopes := [];
    }

    /** Asks the tracer for a span; its handle is its place in the log. */
    method StartSpan(name: SpanName, startTime: int, noParent: bool, parent: Option<SpanHandle>,
                     attributes: map<AttrKey, string>, ended: bool)
      returns (h: SpanHandle)
      modifies this`spans
      ensures h == |old(spans)|
      ensures spans == old(spans) + [TracedSpan(name, startTime, noParent, parent, attributes, ended)]
    {
      h := |spans|;
      spans := spans + [TracedSpan(name, startTime, noParent, parent, attributes, ended)];
    }

    /** Ends a span; ending it again changes nothing. */
    method EndSpan(h: SpanHandle)
      requires h < |spans|
      modifies this`spans
      ensures spans == old(spans)[h := old(spans)[h].(ended := true)]
    {
      spans := spans[h := spans[h].(ended := true)];
    }

    /** Makes a span current and keeps the scope. */
    method MakeCurrent(h: SpanHandle) returns (sc: ScopeHandle)
      modifies this`scopes
      ensures sc == |old(scopes)|
      ensures scopes == old(scopes) + [TracedScope(h, false)]
    {
      sc := |scopes|;
      scopes := scopes + [TracedScope(h, false)];
    }

    /**
     * Calls `close` on a scope. Whether storage honours the call (only when the
     * scope's span is still current) is `Scopes.ScopeImpl.Close`, not modelled here.
     */
    method CloseScope(sc: ScopeHandle)
      requires sc < |scopes|
      modifies this`scopes
      ensures scopes == old(scopes)[sc := old(scopes)[sc].(closeRequested := true)]
    {
      scopes := scopes[sc := scopes[sc].(closeRequested := true)];
    }

    /**
     * `register`: when an app start time is known, starts the app startup span
     * at that time (as epoch time), with no parent, and makes it current.
     */
    method Register(launch: LaunchState, clock: Clock)
      requires Valid()
      modifies this`spans, this`scopes, this`appStartupSpan, this`appStartupSpanScope
      ensures Valid()
      ensures AppStartTime(launch).None? ==>
        spans == old(spans) && scopes == old(scopes)
        && appStartupSpan == old(appStartupSpan) && appStartupSpanScope == old(appStartupSpanScope)
      ensures AppStartTime(launch).Some? ==>
        spans == old(spans) + [TracedSpan(AppStartup, ConvertToEpochTime(clock, AppStartTime(launch).value), true, None, map[], false)]
        && scopes == old(scopes) + [TracedScope(|old(spans)|, false)]
        && appStartupSpan == Some(|old(spans)|) && appStartupSpanScope == Some(|old(scopes)|)
    {
      var start := AppStartTime(launch);
      if start.Some? {
        var h := StartSpan(AppStartup, ConvertToEpochTime(clock, start.value), true, None, map[], false);
        appStartupSpan := Some(h);
        var sc := MakeCurrent(h);
        appStartupSpanScope := Some(sc);
      }
    }

    /**
     * `onActivityCreated`: records the activity, not yet known to have survived its
     * creating message; if no activity is started and no launch is in progress, a
     * launch begins now.
     */
    method OnActivityCreated(id: string, activityName: string, hasSavedState: bool, clock: Clock)
      requires Valid()
      modifies this`createdActivities, this`launchInProgress, this`lastAppVisibleTime
      ensures Valid()
      ensures createdActivities == old(createdActivities)[id := ActivityInfo(activityName, None, None, true, hasSavedState, None, None, None)]
      ensures old(startedActivities == [] && !launchInProgress) ==>
        launchInProgress && lastAppVisibleTime == Some(clock.now)
      ensures !old(startedActivities == [] && !launchInProgress) ==>
        launchInProgress == old(launchInProgress) && lastAppVisibleTime == old(lastAppVisibleTime)
      ensures launchInProgress && !old(launchInProgress) ==> startedActivities == []
    {
      createdActivities := createdActivities[id := ActivityInfo(activityName, None, None, true, hasSavedState, None, None, None)];
      if startedActivities == [] && !launchInProgress {
        launchInProgress := true;
        lastAppVisibleTime := Some(clock.now);
      }
    }

    /**
     * The message posted from `onActivityCreated`, run after the current one: the
     * activity, if still recorded, was not created in the same message as its resume.
     */
    method OnCreatedMessageProcessed(id: string)
      requires Valid()
      modifies this`createdActivities
      ensures Valid()
      ensures id in old(createdActivities) ==>
        createdActivities == old(createdActivities)[id := old(createdActivities)[id].(sameMessage := false)]
      ensures id !in old(createdActivities) ==> createdActivities == old(createdActivities)
    {
      if id in createdActivities {
        createdActivities := createdActivities[id := createdActivities[id].(sameMessage := false)];
      }
    }

    /**
     * `onActivityStarted`: starts the current-activity span (made current unless a
     * launch under the app startup scope is in progress); a first started activity
     * may begin a launch, a later one starts a transition span from the previous
     * one; the activity joins the started list.
     */
    method OnActivityStarted(id: string, activityName: string, clock: Clock)
      requires Valid()
      modifies this`spans, this`scopes, this`createdActivities, this`startedActivities,
               this`launchInProgress, this`lastAppVisibleTime, this`transitionSpan
      ensures Valid()
      ensures startedActivities == old(startedActivities) + [id]
      ensures spans == old(spans) + [CurrentActivityTraced(activityName, clock.now)]
                       + Listed(TransitionFrom(old(startedActivities), old(createdActivities), clock.now))
      ensures transitionSpan ==
        if TransitionFrom(old(startedActivities), old(createdActivities), clock.now).Some?
        then Some(|old(spans)| + 1) else old(transitionSpan)
      ensures old(startedActivities == [] && !launchInProgress) ==>
        launchInProgress && lastAppVisibleTime == Some(clock.now)
      ensures !old(startedActivities == [] && !launchInProgress) ==>
        launchInProgress == old(launchInProgress) && lastAppVisibleTime == old(lastAppVisibleTime)
      ensures launchInProgress && !old(launchInProgress) ==> old(startedActivities) == []
      ensures var scope := if old(appStartupSpanScope.None? || !launchInProgress) then Some(|old(scopes)|) else None;
        (scope.Some? ==> scopes == old(scopes) + [TracedScope(|old(spans)|, false)])
        && (scope.None? ==> scopes == old(scopes))
        && (id in old(createdActivities) ==>
              createdActivities == old(createdActivities)[id := old(createdActivities)[id].(
                currentActivitySpanScope := scope, currentActivitySpan := Some(|old(spans)|))])
      ensures id !in old(createdActivities) ==> createdActivities == old(createdActivities)
    {
      var span, scope := StartCurrentActivitySpan(activityName, clock);
      BeginLaunchOrTransition(clock);
      startedActivities := startedActivities + [id];
      RecordCurrentActivitySpan(id, span, scope);
    }

    /** A recorded activity keeps the handles of its current-activity span and scope. */
    method RecordCurrentActivitySpan(id: string, span: SpanHandle, scope: Option<ScopeHandle>)
      requires Valid() && span < |spans| && (scope.Some? ==> scope.value < |scopes|)
      modifies this`createdActivities
      ensures Valid()
      ensures id in old(createdActivities) ==>
        createdActivities == old(createdActivities)[id := old(createdActivities)[id].(
          currentActivitySpanScope := scope, currentActivitySpan := Some(span))]
      ensures id !in old(createdActivities) ==> createdActivities == old(createdActivities)
    {
      if id in createdActivities {
        var info := createdActivities[id].(currentActivitySpanScope := scope, currentActivitySpan := Some(span));
        AllInfosValidSet(createdActivities, |spans|, |scopes|, id, info);
        createdActivities := createdActivities[id := info];
      }
    }

    /** Starts the current-activity span and makes it current unless a launch holds the startup scope. */
    method StartCurrentActivitySpan(activityName: string, clock: Clock) returns (span: SpanHandle, scope: Option<ScopeHandle>)
      requires Valid()
      modifies this`spans, this`scopes
      ensures Valid()
      ensures span == |old(spans)|
      ensures spans == old(spans) + [CurrentActivityTraced(activityName, clock.now)]
      ensures appStartupSpanScope.None? || !launchInProgress ==>
        scope == Some(|old(scopes)|) && scopes == old(scopes) + [TracedScope(span, false)]
      ensures !(appStartupSpanScope.None? || !launchInProgress) ==> scope.None? && scopes == old(scopes)
    {
      span := StartSpan(CurrentActivity, clock.now, false, None, map[CurrentScreenName := activityName], false);
      scope := None;
      if appStartupSpanScope.None? || !launchInProgress {
        var sc := MakeCurrent(span);
        scope := Some(sc);
      }
      AllInfosValidGrow(createdActivities, |old(spans)|, |old(scopes)|, |spans|, |scopes|);
    }

    /**
     * With no activity started a launch begins (unless one is in progress);
     * otherwise a transition span from the last started activity starts, if that
     * activity is recorded.
     */
    method BeginLaunchOrTransition(clock: Clock)
      requires Valid()
      modifies this`launchInProgress, this`lastAppVisibleTime, this`transitionSpan, this`spans
      ensures Valid()
      ensures old(startedActivities == [] && !launchInProgress) ==>
        launchInProgress && lastAppVisibleTime == Some(clock.now)
      ensures !old(startedActivities == [] && !launchInProgress) ==>
        launchInProgress == old(launchInProgress) && lastAppVisibleTime == old(lastAppVisibleTime)
      ensures spans == old(spans) + Listed(TransitionFrom(startedActivities, createdActivities, clock.now))
      ensures transitionSpan ==
        if TransitionFrom(startedActivities, createdActivities, clock.now).Some? then Some(|old(spans)|) else old(transitionSpan)
    {
      if startedActivities == [] {
        if !launchInProgress {
          launchInProgress := true;
          lastAppVisibleTime := Some(clock.now);
        }
      } else {
        var previous := LastOrNull(startedActivities);
        if previous.value in createdActivities {
          var info := createdActivities[previous.value];
          var t := StartSpan(ActivityTransition, clock.now, true, None,
                             map[PreviousScreenName := ScreenNameAsWritten(info.activityName)], false);
          transitionSpan := Some(t);
          AllInfosValidGrow(createdActivities, |old(spans)|, |scopes|, |spans|, |scopes|);
        }
      }
    }

    /**
     * `onActivityResumed`: the activity joins the resumed list and any launch in
     * progress ends. For a recorded activity the first-frame callback is
     * registered, with the launch type if a launch was in progress.
     */
    method OnActivityResumed(id: string, launch: LaunchState)
      returns (registered: bool, launchType: Option<LaunchType>)
      requires Valid()
      modifies this`resumedActivities, this`launchInProgress
      ensures Valid()
      ensures resumedActivities == old(resumedActivities) + [id]
      ensures !launchInProgress
      ensures registered <==> id in createdActivities
      ensures launchType.Some? <==> registered && old(launchInProgress)
      ensures launchType.Some? ==>
        launchType.value == ComputeLaunchType(coldLaunchComplete, launch.processImportanceOnInit, createdActivities[id])
    {
      resumedActivities := resumedActivities + [id];
      launchType := None;
      if id !in createdActivities {
        launchInProgress := false;
        registered := false;
        return;
      }
      if launchInProgress {
        launchInProgress := false;
        launchType := Some(ComputeLaunchType(coldLaunchComplete, launch.processImportanceOnInit, createdActivities[id]));
      }
      registered := true;
    }

    /** Stores the launch type on the resumed activity's record, if there is one. */
    method SetResumedLaunchType(t: LaunchType)
      requires Valid()
      modifies this`createdActivities
      ensures Valid()
      ensures createdActivities == WithResumedLaunchType(old(createdActivities), resumedActivities, t)
    {
      var r := LastOrNull(resumedActivities);
      if r.Some? && r.value in createdActivities {
        createdActivities := createdActivities[r.value := createdActivities[r.value].(launchType := Some(StoredLaunchType(t)))];
      }
    }

    /**
     * The first frame of an activity registered on resume is drawn. Its time is
     * recorded; a cold launch completes the first cold launch; each launch type
     * stores its name on the resumed activity and starts and ends its
     * time-to-initial-display span; without a launch type the transition span, if
     * any, ends.
     */
    method OnFirstFrameDrawn(id: string, activityName: string, launchType: Option<LaunchType>,
                             launch: LaunchState, clock: Clock)
      requires Valid()
      modifies this`createdActivities, this`coldLaunchComplete, this`spans, this`transitionSpan
      ensures Valid()
      ensures id in old(createdActivities) ==>
        id in createdActivities && createdActivities[id].firstFrameDrawnTimestamp == Some(clock.now)
      ensures coldLaunchComplete == (old(coldLaunchComplete) || launchType == Some(Cold))
      ensures launchType.Some? ==> transitionSpan == old(transitionSpan)
      ensures launchType.None? ==> transitionSpan.None? && |spans| == |old(spans)|
      ensures launchType.None? && old(transitionSpan).Some? ==>
        spans[old(transitionSpan).value].ended
        && spans[old(transitionSpan).value].attributes == old(spans)[old(transitionSpan).value].attributes[CurrentScreenName := activityName]
      ensures launchType.Some? ==>
        var r := LastOrNull(resumedActivities);
        r.Some? && r.value in createdActivities ==>
          createdActivities[r.value].launchType == Some(StoredLaunchType(launchType.value))
      ensures launchType.Some? ==>
        spans == old(spans) + Listed(TtidSpan(launchType.value, activityName, launch, clock, appStartupSpan, lastAppVisibleTime))
      ensures launchType.Some? ==>
        createdActivities == WithResumedLaunchType(WithFirstFrame(old(createdActivities), id, clock.now), resumedActivities, launchType.value)
      ensures launchType.None? ==>
        createdActivities == WithFirstFrame(old(createdActivities), id, clock.now)
        && spans == TransitionEnded(old(spans), old(transitionSpan), activityName)
    {
      RecordFirstFrame(id, clock.now);
      match launchType {
        case Some(t) =>
          CompleteLaunch(id, t, activityName, launch, clock);
        case None =>
          EndTransitionSpan(activityName);
      }
    }

    /**
     * The first frame of a launch of type `t`: completes a cold launch, stores the
     * type on the resumed activity and adds the time-to-initial-display span.
     */
    method CompleteLaunch(id: string, t: LaunchType, activityName: string, launch: LaunchState, clock: Clock)
      requires Valid()
      modifies this`createdActivities, this`coldLaunchComplete, this`spans
      ensures Valid()
      ensures id in old(createdActivities) ==>
        id in createdActivities
        && createdActivities[id].firstFrameDrawnTimestamp == old(createdActivities)[id].firstFrameDrawnTimestamp
      ensures coldLaunchComplete == (old(coldLaunchComplete) || t == Cold)
      ensures var r := LastOrNull(resumedActivities);
        r.Some? && r.value in createdActivities ==>
          createdActivities[r.value].launchType == Some(StoredLaunchType(t))
      ensures createdActivities == WithResumedLaunchType(old(createdActivities), resumedActivities, t)
      ensures spans == old(spans) + Listed(TtidSpan(t, activityName, launch, clock, appStartupSpan, lastAppVisibleTime))
    {
      if t == Cold {
        coldLaunchComplete := true;
      }
      SetResumedLaunchType(t);
      StartTtidSpan(t, activityName, launch, clock);
    }

    /** `updateFirstFrameDrawnTime`: records when the activity's first frame was drawn. */
    method RecordFirstFrame(id: string, timestamp: int)
      requires Valid()
      modifies this`createdActivities
      ensures Valid()
      ensures createdActivities == WithFirstFrame(old(createdActivities), id, timestamp)
    {
      if id in createdActivities {
        var info := createdActivities[id].(firstFrameDrawnTimestamp := Some(timestamp));
        AllInfosValidSet(createdActivities, |spans|, |scopes|, id, info);
        createdActivities := createdActivities[id := info];
      }
    }

    /** Adds the time-to-initial-display span of a launch of type `t`, if there is one. */
    method StartTtidSpan(t: LaunchType, activityName: string, launch: LaunchState, clock: Clock)
      requires Valid()
      modifies this`spans
      ensures Valid()
      ensures spans == old(spans) + Listed(TtidSpan(t, activityName, launch, clock, appStartupSpan, lastAppVisibleTime))
    {
      var attributes := map[LaunchTypeKey := Lowercase(LaunchTypeName(t)), CurrentScreenName := activityName];
      if t == Cold || t == Lukewarm {
        var start := AppStartTime(launch);
        if start.Some? && appStartupSpan.Some? {
          var h := StartSpan(TtidSpanName(t), TtidStartOf(t, clock, start.value), false, appStartupSpan, attributes, true);
        }
      } else if lastAppVisibleTime.Some? {
        var h := StartSpan(TtidSpanName(t), lastAppVisibleTime.value, true, None, attributes, true);
      }
      AllInfosValidGrow(createdActivities, |old(spans)|, |scopes|, |spans|, |scopes|);
    }

    /** A frame drawn outside a launch: the transition span, if any, gets the screen name, ends and is forgotten. */
    method EndTransitionSpan(activityName: string)
      requires Valid()
      modifies this`spans, this`transitionSpan
      ensures Valid()
      ensures transitionSpan.None?
      ensures spans == TransitionEnded(old(spans), old(transitionSpan), activityName)
    {
      if transitionSpan.Some? {
        var h := transitionSpan.value;
        spans := spans[h := spans[h].(attributes := spans[h].attributes[CurrentScreenName := activityName], ended := true)];
      }
      transitionSpan := None;
    }

    /**
     * `onActivityPaused`: the activity leaves the resumed list; its current-activity
     * span ends and `close` is called on its scope.
     */
    method OnActivityPaused(id: string)
      requires Valid()
      modifies this`resumedActivities, this`spans, this`scopes
      ensures Valid()
      ensures resumedActivities == RemoveFirst(old(resumedActivities), id)
      ensures multiset(resumedActivities) == multiset(old(resumedActivities)) - multiset{id}
      ensures id in createdActivities ==>
        spans == EndedAt(old(spans), createdActivities[id].currentActivitySpan)
        && scopes == CloseRequestedAt(old(scopes), createdActivities[id].currentActivitySpanScope)
      ensures id !in createdActivities ==> spans == old(spans) && scopes == old(scopes)
    {
      resumedActivities := RemoveFirst(resumedActivities, id);
      if id in createdActivities {
        var info := createdActivities[id];
        if info.currentActivitySpan.Some? {
          EndSpan(info.currentActivitySpan.value);
        }
        if info.currentActivitySpanScope.Some? {
          CloseScope(info.currentActivitySpanScope.value);
        }
      }
    }

    /** `onActivityStopped`: the activity leaves the started list. */
    method OnActivityStopped(id: string)
      requires Valid()
      modifies this`startedActivities
      ensures Valid()
      ensures startedActivities == RemoveFirst(old(startedActivities), id)
      ensures multiset(startedActivities) == multiset(old(startedActivities)) - multiset{id}
    {
      startedActivities := RemoveFirst(startedActivities, id);
    }

    /** `onActivityDestroyed`: the activity's record is dropped. */
    method OnActivityDestroyed(id: string)
      requires Valid()
      modifies this`createdActivities
      ensures Valid()
      ensures createdActivities == old(createdActivities) - {id}
    {
      createdActivities := createdActivities - {id};
    }

    /** The resumed activity: the last one in the resumed list. */
    function GetResumedActivity(): (r: Option<string>)
      reads this
      ensures r.None? <==> resumedActivities == []
      ensures r.Some? ==> r.value in resumedActivities && r.value == resumedActivities[|resumedActivities| - 1]
    {
      LastOrNull(resumedActivities)
    }

    /** Calls `close` on the app startup scope, ends the app startup span and forgets both. */
    method EndAppStartupSpan()
      requires Valid()
      modifies this`scopes, this`spans, this`appStartupSpan, this`appStartupSpanScope
      ensures Valid()
      ensures appStartupSpan.None? && appStartupSpanScope.None?
      ensures spans == EndedAt(old(spans), old(appStartupSpan))
      ensures scopes == CloseRequestedAt(old(scopes), old(appStartupSpanScope))
    {
      if appStartupSpanScope.Some? {
        CloseScope(appStartupSpanScope.value);
      }
      if appStartupSpan.Some? {
        EndSpan(appStartupSpan.value);
      }
      appStartupSpan := None;
      appStartupSpanScope := None;
    }

    /** An activity is resumed and no interaction with it has been recorded yet. */
    static predicate FirstInteractionPending(resumed: Option<string>, created: map<string, ActivityInfo>)
    {
      resumed.Some? && (resumed.value !in created || created[resumed.value].firstInteraction.None?)
    }

    /** The first interaction is pending and the resumed activity's record holds a launch type. */
    static predicate HasStoredType(resumed: Option<string>, created: map<string, ActivityInfo>)
    {
      FirstInteractionPending(resumed, created) && resumed.value in created
      && created[resumed.value].launchType.Some?
    }

    /**
     * `trackTtfi`: the first interaction with the resumed activity. Without a
     * stored launch type it only ends the app startup span; otherwise it starts and
     * ends the time-to-first-interaction span for that type, ends the app startup
     * span and records the interaction. The source throws for an unknown stored
     * type; the tracker's own invariant rules that case out.
     */
    method TrackTtfi(interaction: Interaction, launch: LaunchState, clock: Clock)
      requires Valid()
      modifies this`createdActivities, this`scopes, this`spans, this`appStartupSpan, this`appStartupSpanScope
      ensures Valid()
      ensures var resumed := GetResumedActivity();
        !FirstInteractionPending(resumed, old(createdActivities)) ==>
          createdActivities == old(createdActivities) && spans == old(spans) && scopes == old(scopes)
          && appStartupSpan == old(appStartupSpan) && appStartupSpanScope == old(appStartupSpanScope)
      ensures FirstInteractionPending(GetResumedActivity(), old(createdActivities)) ==>
        appStartupSpan.None? && appStartupSpanScope.None?
        && scopes == CloseRequestedAt(old(scopes), old(appStartupSpanScope))
      ensures var resumed := GetResumedActivity();
        FirstInteractionPending(resumed, old(createdActivities)) && !HasStoredType(resumed, old(createdActivities)) ==>
          createdActivities == old(createdActivities) && spans == EndedAt(old(spans), old(appStartupSpan))
      ensures var resumed := GetResumedActivity();
        HasStoredType(resumed, old(createdActivities)) ==>
          createdActivities == old(createdActivities)[resumed.value := old(createdActivities)[resumed.value].(firstInteraction := Some(interaction))]
          && spans == EndedAt(old(spans), old(appStartupSpan))
                      + Listed(TtfiSpan(resumed.value, old(createdActivities)[resumed.value], interaction, launch, clock))
    {
      var resumed := GetResumedActivity();
      if resumed.None? {
        return;
      }
      var id := resumed.value;
      if id in createdActivities && createdActivities[id].firstInteraction.Some? {
        return;
      }
      if id !in createdActivities || createdActivities[id].launchType.None? {
        EndAppStartupSpan();
        return;
      }
      TrackTypedTtfi(id, interaction, launch, clock);
    }

    /** The first interaction with a recorded activity whose launch type is stored. */
    method TrackTypedTtfi(id: string, interaction: Interaction, launch: LaunchState, clock: Clock)
      requires Valid() && id in createdActivities && createdActivities[id].launchType.Some?
      modifies this`createdActivities, this`scopes, this`spans, this`appStartupSpan, this`appStartupSpanScope
      ensures Valid()
      ensures appStartupSpan.None? && appStartupSpanScope.None?
      ensures createdActivities == old(createdActivities)[id := old(createdActivities)[id].(firstInteraction := Some(interaction))]
      ensures spans == EndedAt(old(spans), old(appStartupSpan)) + Listed(TtfiSpan(id, old(createdActivities)[id], interaction, launch, clock))
      ensures scopes == CloseRequestedAt(old(scopes), old(appStartupSpanScope))
    {
      var info := createdActivities[id];
      ghost var before := spans;
      StartTtfiSpan(id, info, interaction, launch, clock);
      EndedAtAppend(before, appStartupSpan, Listed(TtfiSpan(id, info, interaction, launch, clock)));
      EndAppStartupSpan();
      RecordFirstInteraction(id, interaction);
    }

    /** Adds the time-to-first-interaction span for `info`'s stored launch type, if there is one. */
    method StartTtfiSpan(id: string, info: ActivityInfo, interaction: Interaction, launch: LaunchState, clock: Clock)
      requires Valid()
      requires info.launchType.Some? && IsStoredLaunchType(info.launchType.value)
      modifies this`spans
      ensures Valid()
      ensures spans == old(spans) + Listed(TtfiSpan(id, info, interaction, launch, clock))
    {
      var name := StoredTtfiName(info.launchType.value);
      var start := AppStartTime(launch);
      if start.Some? {
        var h := StartSpan(name, ConvertToEpochTime(clock, start.value), false, None,
                           TtfiAttributes(id, interaction), true);
      }
      AllInfosValidGrow(createdActivities, |old(spans)|, |scopes|, |spans|, |scopes|);
    }

    /** Records the first interaction with activity `id`. */
    method RecordFirstInteraction(id: string, interaction: Interaction)
      requires Valid() && id in createdActivities
      modifies this`createdActivities
      ensures Valid()
      ensures createdActivities == old(createdActivities)[id := old(createdActivities)[id].(firstInteraction := Some(interaction))]
    {
      var info := createdActivities[id].(firstInteraction := Some(interaction));
      AllInfosValidSet(createdActivities, |spans|, |scopes|, id, info);
      createdActivities := createdActivities[id := info];
    }
  }

  /**
   * A cold launch from a fresh tracker: the process started in the foreground,
   * one activity is created without saved state, started and resumed, and its
   * first frame is drawn. The launch is classified cold, the first cold launch
   * is complete, and the time-to-initial-display span ends under the app startup
   * span, measured from the earliest known start uptime.
   */
  method ColdLaunch(id: string, activityName: string, launch: LaunchState, clock: Clock)
    returns (tracker: LifecycleTracker, launchType: Option<LaunchType>)
    requires launch.processImportanceOnInit == IMPORTANCE_FOREGROUND
    requires launch.processStartUptime.Some?
    ensures launchType == Some(Cold)
    ensures tracker.coldLaunchComplete && !tracker.launchInProgress
    ensures tracker.appStartupSpan == Some(0)
    ensures |tracker.spans| == 3
    ensures tracker.spans[2] == TracedSpan(ColdLaunchTtid, TtidStart(clock, AppStartTime(launch).value), false, Some(0),
      map[LaunchTypeKey := "cold", CurrentScreenName := activityName], true)
    ensures id in tracker.createdActivities && tracker.createdActivities[id].launchType == Some("cold")
  {
    tracker, launchType := ColdLaunchUntilResumed(id, activityName, launch, clock);
    ghost var before := tracker.spans;
    tracker.OnFirstFrameDrawn(id, activityName, launchType, launch, clock);
    assert Lowercase("Cold") == "cold";
    assert TtidSpan(Cold, activityName, launch, clock, Some(0), tracker.lastAppVisibleTime)
        == Some(TracedSpan(ColdLaunchTtid, TtidStart(clock, AppStartTime(launch).value), false, Some(0),
                           map[LaunchTypeKey := "cold", CurrentScreenName := activityName], true));
    assert tracker.spans == before + [tracker.spans[2]];
  }

  /** The cold launch up to the resume: the launch is classified cold and the startup span is the first span. */
  method ColdLaunchUntilResumed(id: string, activityName: string, launch: LaunchState, clock: Clock)
    returns (tracker: LifecycleTracker, launchType: Option<LaunchType>)
    requires launch.processImportanceOnInit == IMPORTANCE_FOREGROUND
    requires launch.processStartUptime.Some?
    ensures fresh(tracker) && tracker.Valid()
    ensures launchType == Some(Cold)
    ensures !tracker.coldLaunchComplete && !tracker.launchInProgress
    ensures tracker.appStartupSpan == Some(0) && |tracker.spans| == 2
    ensures tracker.resumedActivities == [id] && id in tracker.createdActivities
  {
    tracker := ColdLaunchUntilStarted(id, activityName, launch, clock);
    var registered;
    registered, launchType := tracker.OnActivityResumed(id, launch);
  }

  /** The cold launch up to the start of its first activity: a launch is in progress under the startup span. */
  method ColdLaunchUntilStarted(id: string, activityName: string, launch: LaunchState, clock: Clock)
    returns (tracker: LifecycleTracker)
    requires launch.processStartUptime.Some?
    ensures fresh(tracker) && tracker.Valid()
    ensures tracker.launchInProgress && !tracker.coldLaunchComplete && tracker.resumedActivities == []
    ensures tracker.appStartupSpan == Some(0) && |tracker.spans| == 2
    ensures id in tracker.createdActivities && !tracker.createdActivities[id].hasSavedState
  {
    tracker := new LifecycleTracker();
    tracker.Register(launch, clock);
    assert tracker.appStartupSpan == Some(0) && |tracker.spans| == 1;
    tracker.OnActivityCreated(id, activityName, false, clock);
    assert tracker.launchInProgress && id in tracker.createdActivities;
    assert !tracker.createdActivities[id].hasSavedState && !tracker.coldLaunchComplete;
    tracker.OnActivityStarted(id, activityName, clock);
  }
}
