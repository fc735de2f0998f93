/**
 * The backend's event record (measure/event.go): the per-event validator,
 * the type predicates, rendering of frames and stack traces, the getters of
 * the last exception unit, and trimming of trailing NUL characters.
 *
 * Go's `len` on a string counts bytes; here a string is a sequence of
 * characters and its length is the character count, which agrees for ASCII.
 */
module MeasureEvent {
  import opened Wrappers
  import opened Text

  // Character limits for event fields.
  const MaxTypeChars: nat := 32
  const MaxThreadNameChars: nat := 64
  const MaxExceptionDeviceLocaleChars: nat := 64
  const MaxAnrDeviceLocaleChars: nat := 64
  const MaxAppExitReasonChars: nat := 64
  const MaxAppExitImportanceChars: nat := 32
  const MaxSeverityTextChars: nat := 10
  const MaxGestureTargetChars: nat := 128
  const MaxGestureTargetIDChars: nat := 128
  const MaxGestureScrollDirectionChars: nat := 8
  const MaxLifecycleTypeChars: nat := 32
  const MaxLifecycleClassNameChars: nat := 128
  const MaxLaunchedActivityChars: nat := 128
  const MaxNetworkTypeChars: nat := 16
  const MaxNetworkGenerationChars: nat := 8
  const MaxNetworkProviderChars: nat := 64
  const MaxHttpMethodChars: nat := 16
  const MaxHttpClientChars: nat := 32
  const MaxTrimMemoryLevelChars: nat := 64
  const MaxAttrCount: nat := 10
  const MaxRouteChars: nat := 128

  const TypeANR := "anr"
  const TypeException := "exception"
  const TypeAppExit := "app_exit"
  const TypeString := "string"
  const TypeGestureLongClick := "gesture_long_click"
  const TypeGestureClick := "gesture_click"
  const TypeGestureScroll := "gesture_scroll"
  const TypeLifecycleActivity := "lifecycle_activity"
  const TypeLifecycleFragment := "lifecycle_fragment"
  const TypeLifecycleApp := "lifecycle_app"
  const TypeColdLaunch := "cold_launch"
  const TypeWarmLaunch := "warm_launch"
  const TypeHotLaunch := "hot_launch"
  const TypeNetworkChange := "network_change"
  const TypeHttp := "http"
  const TypeMemoryUsage := "memory_usage"
  const TypeLowMemory := "low_memory"
  const TypeTrimMemory := "trim_memory"
  const TypeCPUUsage := "cpu_usage"
  const TypeNavigation := "navigation"

  /** The twenty types the validator accepts. */
  const ValidTypes: seq<string> := [
    TypeANR, TypeException, TypeAppExit, TypeString, TypeGestureLongClick, TypeGestureScroll,
    TypeGestureClick, TypeLifecycleActivity, TypeLifecycleFragment, TypeLifecycleApp,
    TypeColdLaunch, TypeWarmLaunch, TypeHotLaunch, TypeNetworkChange, TypeHttp,
    TypeMemoryUsage, TypeLowMemory, TypeTrimMemory, TypeCPUUsage, TypeNavigation]

  /** Go's `time.Time`; the value 0 stands for the zero time that `IsZero` detects. */
  type Time = int

  datatype Frame = Frame(lineNum: int, colNum: int, moduleName: string, fileName: string,
                         className: string, methodName: string)

  datatype ExceptionUnit = ExceptionUnit(exceptionType: string, message: string, frames: seq<Frame>)

  datatype Thread = Thread(name: string, frames: seq<Frame>)

  /** The payload shared by the `Exception` and `ANR` structs, which have the same fields. */
  datatype CrashReport = CrashReport(
    threadName: string, handled: bool, exceptions: seq<ExceptionUnit>, threads: seq<Thread>,
    networkType: string, networkGeneration: string, networkProvider: string,
    deviceLocale: string, fingerprint: string)

  datatype AppExit = AppExit(reason: string, importance: string, trace: string,
                             processName: string, pid: string, timestamp: Time)

  datatype LogString = LogString(severityText: string, text: string)

  /** A gesture; `x` and `y` stand for the float coordinates, of which only the sign is read. */
  datatype Gesture = Gesture(target: string, targetId: string, x: int, y: int, direction: string)

  datatype LifecycleActivity = LifecycleActivity(kind: string, className: string, intent: string,
                                                 savedInstanceState: bool)

  datatype LifecycleFragment = LifecycleFragment(kind: string, className: string,
                                                 parentActivity: string, tag: string)

  datatype ColdLaunch = ColdLaunch(
    processStartUptime: nat, processStartRequestedUptime: nat, contentProviderAttachUptime: nat,
    onNextDrawUptime: nat, launchedActivity: string, hasSavedState: bool, intentData: string)

  /** The warm and hot launch payloads have the same fields. */
  datatype Launch = Launch(appVisibleUptime: nat, onNextDrawUptime: nat, launchedActivity: string,
                           hasSavedState: bool, intentData: string)

  datatype NetworkChange = NetworkChange(
    networkType: string, previousNetworkType: string, networkGeneration: string,
    previousNetworkGeneration: string, networkProvider: string)

  datatype Http = Http(url: string, httpMethod: string, client: string)

  datatype MemoryUsage = MemoryUsage(intervalConfig: nat)

  datatype TrimMemory = TrimMemory(level: string)

  datatype CPUUsage = CPUUsage(numCores: nat, clockSpeed: nat, intervalConfig: nat)

  datatype Navigation = Navigation(route: string)

  /** The device resource; its fields and checks are not part of this model. */
  datatype Resource = Resource(fields: map<string, string>)

  datatype EventField = EventField(
    timestamp: Time,
    eventType: string,
    threadName: string,
    resource: Resource,
    anr: CrashReport,
    exception: CrashReport,
    appExit: AppExit,
    logString: LogString,
    gestureLongClick: Gesture,
    gestureScroll: Gesture,
    gestureClick: Gesture,
    lifecycleActivity: LifecycleActivity,
    lifecycleFragment: LifecycleFragment,
    lifecycleApp: string,
    coldLaunch: ColdLaunch,
    warmLaunch: Launch,
    hotLaunch: Launch,
    networkChange: NetworkChange,
    http: Http,
    memoryUsage: MemoryUsage,
    trimMemory: TrimMemory,
    cpuUsage: CPUUsage,
    navigation: Navigation,
    attributes: map<string, string>)

  // ---------------------------------------------------------------------
  // Type predicates

  predicate IsException(e: EventField) { e.eventType == TypeException }
  predicate IsUnhandledException(e: EventField) { e.eventType == TypeException && !e.exception.handled }
  predicate IsANR(e: EventField) { e.eventType == TypeANR }
  predicate IsAppExit(e: EventField) { e.eventType == TypeAppExit }
  predicate IsLifecycleActivity(e: EventField) { e.eventType == TypeLifecycleActivity }
  predicate IsLifecycleFragment(e: EventField) { e.eventType == TypeLifecycleFragment }
  predicate IsColdLaunch(e: EventField) { e.eventType == TypeColdLaunch }
  predicate IsWarmLaunch(e: EventField) { e.eventType == TypeWarmLaunch }
  predicate IsHotLaunch(e: EventField) { e.eventType == TypeHotLaunch }

  // ---------------------------------------------------------------------
  // Validation

  datatype ValidationError =
    | UnknownType
    | InvalidTimestamp
    | InvalidThreadName
      /** A required field of the type's payload is missing; `field` is "" when the whole payload is reported. */
    | InvalidPayload(eventType: string, field: string)
    | ExceedsMaxChars(field: string, max: nat)
    | ExceedsMaxCount(field: string, max: nat)
    | InvalidResource(reason: string)
    | InvalidAttachment(reason: string)

  /** `len > max` rejects; `len == max` rejects (and nothing else does); a count above max rejects. */
  datatype CapRule = AtMost | NotExactly | CountAtMost

  datatype Cap = Cap(field: string, length: nat, max: nat, rule: CapRule)

  predicate Violates(c: Cap)
  {
    match c.rule
    case AtMost => c.length > c.max
    case NotExactly => c.length == c.max
    case CountAtMost => c.length > c.max
  }

  /** The limits on the type, the thread names and the crash thread names, checked first. */
  function CommonCaps(e: EventField): seq<Cap>
  {
    [ Cap("type", |e.eventType|, MaxTypeChars, AtMost),
      Cap("thread_name", |e.threadName|, MaxThreadNameChars, AtMost),
      Cap("anr.thread_name", |e.anr.threadName|, MaxThreadNameChars, AtMost),
      Cap("exception.thread_name", |e.exception.threadName|, MaxThreadNameChars, AtMost) ]
  }

  /** The limits on the app-exit, string, gesture and lifecycle payloads. */
  function PayloadCaps(e: EventField): seq<Cap>
  {
    [ Cap("app_exit.reason", |e.appExit.reason|, MaxAppExitReasonChars, AtMost),
      Cap("app_exit.importance", |e.appExit.importance|, MaxAppExitImportanceChars, AtMost),
      Cap("string.severity_text", |e.logString.severityText|, MaxSeverityTextChars, AtMost),
      Cap("gesture_long_click.target", |e.gestureLongClick.target|, MaxGestureTargetChars, AtMost),
      Cap("gesture_long_click.target_id", |e.gestureLongClick.targetId|, MaxGestureTargetIDChars, AtMost),
      Cap("gesture_click.target", |e.gestureClick.target|, MaxGestureTargetChars, AtMost),
      Cap("gesture_click.target_id", |e.gestureClick.targetId|, MaxGestureTargetIDChars, AtMost),
      Cap("gesture_scroll.target", |e.gestureScroll.target|, MaxGestureTargetChars, AtMost),
      Cap("gesture_scroll.target_id", |e.gestureScroll.targetId|, MaxGestureTargetIDChars, AtMost),
      Cap("gesture_scroll.direction", |e.gestureScroll.direction|, MaxGestureScrollDirectionChars, AtMost),
      Cap("lifecycle_activity.type", |e.lifecycleActivity.kind|, MaxLifecycleTypeChars, AtMost),
      Cap("lifecycle_activity.class_name", |e.lifecycleActivity.className|, MaxLifecycleClassNameChars, AtMost),
      Cap("lifecycle_fragment.type", |e.lifecycleFragment.kind|, MaxLifecycleTypeChars, AtMost),
      Cap("lifecycle_fragment.class_name", |e.lifecycleFragment.className|, MaxLifecycleClassNameChars, AtMost),
      Cap("lifecycle_app.type", |e.lifecycleApp|, MaxLifecycleTypeChars, AtMost) ]
  }

  /** The launched-activity and network-change limits, which reject only a length equal to the limit. */
  function ExactCaps(e: EventField): seq<Cap>
  {
    [ Cap("cold_launch.launched_activity", |e.coldLaunch.launchedActivity|, MaxLaunchedActivityChars, NotExactly),
      Cap("warm_launch.launched_activity", |e.warmLaunch.launchedActivity|, MaxLaunchedActivityChars, NotExactly),
      Cap("hot_launch.launched_activity", |e.hotLaunch.launchedActivity|, MaxLaunchedActivityChars, NotExactly),
      Cap("network_change.network_type", |e.networkChange.networkType|, MaxNetworkTypeChars, NotExactly),
      Cap("network_change.previous_network_type", |e.networkChange.previousNetworkType|,
          MaxNetworkTypeChars, NotExactly),
      Cap("network_change.network_generation", |e.networkChange.networkGeneration|,
          MaxNetworkGenerationChars, NotExactly),
      Cap("network_change.previous_network_generation", |e.networkChange.previousNetworkGeneration|,
          MaxNetworkGenerationChars, NotExactly),
      Cap("network_change.network_provider", |e.networkChange.networkProvider|,
          MaxNetworkProviderChars, NotExactly) ]
  }

  /** The remaining limits: device locales, http, trim memory, the attribute count and the route. */
  function TailCaps(e: EventField): seq<Cap>
  {
    [ Cap("anr.device_locale", |e.anr.deviceLocale|, MaxAnrDeviceLocaleChars, AtMost),
      Cap("exception.device_locale", |e.exception.deviceLocale|, MaxExceptionDeviceLocaleChars, AtMost),
      Cap("http.method", |e.http.httpMethod|, MaxHttpMethodChars, AtMost),
      Cap("http.client", |e.http.client|, MaxHttpClientChars, AtMost),
      Cap("trim_memory.level", |e.trimMemory.level|, MaxTrimMemoryLevelChars, AtMost),
      Cap("attributes", |e.attributes|, MaxAttrCount, CountAtMost),
      Cap("navigation.route", |e.navigation.route|, MaxRouteChars, AtMost) ]
  }

  /** The error of the first violated limit, checking the four groups in the validator's order. */
  function CapsError(e: EventField): Option<ValidationError>
  {
    var common := FirstViolation(CommonCaps(e));
    if common.Some? then common
    else
      var payload := FirstViolation(PayloadCaps(e));
      if payload.Some? then payload
      else
        var exact := FirstViolation(ExactCaps(e));
        if exact.Some? then exact else FirstViolation(TailCaps(e))
  }

  /** The error for the first violated limit, if any. */
  function FirstViolation(caps: seq<Cap>): (r: Option<ValidationError>)
    ensures r.None? <==> forall i :: 0 <= i < |caps| ==> !Violates(caps[i])
  {
    if |caps| == 0 then None
    else if Violates(caps[0]) then
      if caps[0].rule == CountAtMost then Some(ExceedsMaxCount(caps[0].field, caps[0].max))
      else Some(ExceedsMaxChars(caps[0].field, caps[0].max))
    else FirstViolation(caps[1..])
  }

  /** The crash payload misses a unit, a thread or a thread name. */
  predicate CrashIncomplete(c: CrashReport)
  {
    |c.exceptions| < 1 || |c.threads| < 1 || c.threadName == ""
  }

  /** The required-field checks of the event's own type, in the validator's order. */
  function RequiredFieldsError(e: EventField): Option<ValidationError>
  {
    var t := e.eventType;
    if t == TypeANR && CrashIncomplete(e.anr) then Some(InvalidPayload(t, ""))
    else if t == TypeException && CrashIncomplete(e.exception) then Some(InvalidPayload(t, ""))
    else if t == TypeAppExit && (|e.appExit.reason| < 1 || |e.appExit.importance| < 1
                                 || |e.appExit.processName| < 1 || |e.appExit.processName| < 1
                                 || e.appExit.timestamp == 0) then Some(InvalidPayload(t, ""))
    else if t == TypeString && |e.logString.text| < 1 then Some(InvalidPayload(t, ""))
    else if t == TypeGestureLongClick && (e.gestureLongClick.x < 0 || e.gestureLongClick.y < 0) then
      Some(InvalidPayload(t, ""))
    else if t == TypeGestureScroll && (e.gestureScroll.x < 0 || e.gestureScroll.y < 0) then
      Some(InvalidPayload(t, ""))
    else if t == TypeGestureClick && (e.gestureClick.x < 0 || e.gestureClick.y < 0) then
      Some(InvalidPayload(t, ""))
    else if t == TypeLifecycleActivity && (e.lifecycleActivity.kind == "" || e.lifecycleActivity.className == "") then
      Some(InvalidPayload(t, ""))
    else if t == TypeLifecycleFragment && (e.lifecycleFragment.kind == "" || e.lifecycleFragment.className == "") then
      Some(InvalidPayload(t, ""))
    else if t == TypeLifecycleApp && e.lifecycleApp == "" then Some(InvalidPayload(t, ""))
    else if t == TypeColdLaunch then ColdLaunchError(e.coldLaunch)
    else if t == TypeWarmLaunch then LaunchError(t, e.warmLaunch)
    else if t == TypeHotLaunch then LaunchError(t, e.hotLaunch)
    else if t == TypeNetworkChange && e.networkChange.networkType == "" then
      Some(InvalidPayload(t, "network_type"))
    else if t == TypeHttp && e.http.url == "" then Some(InvalidPayload(t, "url"))
    else if t == TypeHttp && e.http.httpMethod == "" then Some(InvalidPayload(t, "method"))
    else if t == TypeMemoryUsage && e.memoryUsage.intervalConfig <= 0 then
      Some(InvalidPayload(t, "interval_config"))
    else if t == TypeTrimMemory && e.trimMemory.level == "" then Some(InvalidPayload(t, "level"))
    else if t == TypeCPUUsage && e.cpuUsage.numCores <= 0 then Some(InvalidPayload(t, "num_cores"))
    else if t == TypeCPUUsage && e.cpuUsage.clockSpeed <= 0 then Some(InvalidPayload(t, "clock_speed"))
    else if t == TypeCPUUsage && e.cpuUsage.intervalConfig <= 0 then Some(InvalidPayload(t, "interval_config"))
    else if t == TypeNavigation && e.navigation.route == "" then Some(InvalidPayload(t, "route"))
    else None
  }

  function ColdLaunchError(c: ColdLaunch): Option<ValidationError>
  {
    if c.processStartUptime <= 0 && c.contentProviderAttachUptime <= 0 && c.processStartRequestedUptime <= 0 then
      Some(InvalidPayload(TypeColdLaunch, "process_start_uptime"))
    else if c.onNextDrawUptime <= 0 then Some(InvalidPayload(TypeColdLaunch, "on_next_draw_uptime"))
    else if c.launchedActivity == "" then Some(InvalidPayload(TypeColdLaunch, "launched_activity"))
    else None
  }

  function LaunchError(t: string, l: Launch): Option<ValidationError>
  {
    if l.appVisibleUptime <= 0 then Some(InvalidPayload(t, "app_visible_uptime"))
    else if l.onNextDrawUptime <= 0 then Some(InvalidPayload(t, "on_next_draw_uptime"))
    else if l.launchedActivity == "" then Some(InvalidPayload(t, "launched_activity"))
    else None
  }

  /** `EventField.validate`: `None` is a nil error. */
  function Validate(e: EventField): Option<ValidationError>
  {
    if e.eventType !in ValidTypes then Some(UnknownType)
    else if e.timestamp == 0 then Some(InvalidTimestamp)
    else if e.threadName == "" then Some(InvalidThreadName)
    else if RequiredFieldsError(e).Some? then RequiredFieldsError(e)
    else CapsError(e)
  }

  /** The three checks every event passes first, with their errors. */
  lemma ValidateCommonChecks(e: EventField)
    ensures e.eventType !in ValidTypes ==> Validate(e) == Some(UnknownType)
    ensures e.eventType in ValidTypes && e.timestamp == 0 ==> Validate(e) == Some(InvalidTimestamp)
    ensures e.eventType in ValidTypes && e.timestamp != 0 && e.threadName == "" ==>
      Validate(e) == Some(InvalidThreadName)
    ensures Validate(e).None? ==> e.eventType in ValidTypes && e.timestamp != 0 && e.threadName != ""
  {}

  /** An accepted anr or exception event has a unit, a thread and a thread name; lacking one is reported. */
  lemma ValidateCrashRequirements(e: EventField)
    requires e.eventType in ValidTypes && e.timestamp != 0 && e.threadName != ""
    ensures IsANR(e) ==> (Validate(e).None? ==> !CrashIncomplete(e.anr))
    ensures IsANR(e) && CrashIncomplete(e.anr) ==> Validate(e) == Some(InvalidPayload(TypeANR, ""))
    ensures IsException(e) ==> (Validate(e).None? ==> !CrashIncomplete(e.exception))
    ensures IsException(e) && CrashIncomplete(e.exception) ==> Validate(e) == Some(InvalidPayload(TypeException, ""))
  {}

  /** Accepted launch events carry positive uptimes and a launched activity. */
  lemma ValidateLaunchRequirements(e: EventField)
    requires Validate(e).None?
    ensures IsColdLaunch(e) ==>
      (e.coldLaunch.processStartUptime > 0 || e.coldLaunch.processStartRequestedUptime > 0
       || e.coldLaunch.contentProviderAttachUptime > 0)
      && e.coldLaunch.onNextDrawUptime > 0 && e.coldLaunch.launchedActivity != ""
    ensures IsWarmLaunch(e) ==>
      e.warmLaunch.appVisibleUptime > 0 && e.warmLaunch.onNextDrawUptime > 0 && e.warmLaunch.launchedActivity != ""
    ensures IsHotLaunch(e) ==>
      e.hotLaunch.appVisibleUptime > 0 && e.hotLaunch.onNextDrawUptime > 0 && e.hotLaunch.launchedActivity != ""
  {
    assert RequiredFieldsError(e).None?;
  }

  /** An accepted event satisfies every limit: the `>` caps as upper bounds, the `==` caps only as "not exactly". */
  lemma {:induction false} ValidateEnforcesCaps(e: EventField)
    requires Validate(e).None?
    ensures |e.eventType| <= MaxTypeChars && |e.threadName| <= MaxThreadNameChars
    ensures |e.anr.threadName| <= MaxThreadNameChars && |e.exception.threadName| <= MaxThreadNameChars
    ensures |e.attributes| <= MaxAttrCount
    ensures |e.navigation.route| <= MaxRouteChars
    ensures |e.http.httpMethod| <= MaxHttpMethodChars && |e.http.client| <= MaxHttpClientChars
    ensures |e.coldLaunch.launchedActivity| != MaxLaunchedActivityChars
    ensures |e.warmLaunch.launchedActivity| != MaxLaunchedActivityChars
    ensures |e.hotLaunch.launchedActivity| != MaxLaunchedActivityChars
    ensures |e.networkChange.networkType| != MaxNetworkTypeChars
    ensures |e.networkChange.previousNetworkType| != MaxNetworkTypeChars
    ensures |e.networkChange.networkGeneration| != MaxNetworkGenerationChars
    ensures |e.networkChange.previousNetworkGeneration| != MaxNetworkGenerationChars
    ensures |e.networkChange.networkProvider| != MaxNetworkProviderChars
  {
    AcceptedPassesCapGroups(e);
    var common, exact, tail := CommonCaps(e), ExactCaps(e), TailCaps(e);
    assert !Violates(common[0]) && !Violates(common[1]) && !Violates(common[2]) && !Violates(common[3]);
    assert !Violates(exact[0]) && !Violates(exact[1]) && !Violates(exact[2]) && !Violates(exact[3]);
    assert !Violates(exact[4]) && !Violates(exact[5]) && !Violates(exact[6]) && !Violates(exact[7]);
    assert !Violates(tail[2]) && !Violates(tail[3]) && !Violates(tail[5]) && !Violates(tail[6]);
  }

  /** An accepted event violates no limit of any of the four groups. */
  lemma AcceptedPassesCapGroups(e: EventField)
    requires Validate(e).None?
    ensures FirstViolation(CommonCaps(e)).None? && FirstViolation(PayloadCaps(e)).None?
    ensures FirstViolation(ExactCaps(e)).None? && FirstViolation(TailCaps(e)).None?
  {
    assert CapsError(e).None?;
  }

  /** An event whose attribute map has more than ten entries is never accepted. */
  lemma ValidateRejectsManyAttributes(e: EventField)
    requires |e.attributes| > MaxAttrCount
    ensures Validate(e).Some?
  {
    if Validate(e).None? {
      ValidateEnforcesCaps(e);
    }
  }

  /** A blank event of the given type: every string empty, every number zero. */
  function BlankEvent(t: string, ts: Time, thread: string): EventField
  {
    var crash := CrashReport("", false, [], [], "", "", "", "", "");
    var gesture := Gesture("", "", 0, 0, "");
    EventField(ts, t, thread, Resource(map[]), crash, crash, AppExit("", "", "", "", "", 0),
               LogString("", ""), gesture, gesture, gesture, LifecycleActivity("", "", "", false),
               LifecycleFragment("", "", "", ""), "", ColdLaunch(0, 0, 0, 0, "", false, ""),
               Launch(0, 0, "", false, ""), Launch(0, 0, "", false, ""), NetworkChange("", "", "", "", ""),
               Http("", "", ""), MemoryUsage(0), TrimMemory(""), CPUUsage(0, 0, 0), Navigation(""), map[])
  }

  /** A cold launch event that passes every check except possibly the launched-activity limits. */
  function ColdLaunchEvent(launchedActivity: string): EventField
  {
    BlankEvent(TypeColdLaunch, 1, "main").(coldLaunch := ColdLaunch(1, 0, 0, 1, launchedActivity, false, ""))
  }

  /** The cold launch event passes the type, timestamp, thread-name and required-field checks. */
  lemma ColdLaunchEventRequiredFields(launchedActivity: string)
    requires launchedActivity != ""
    ensures var e := ColdLaunchEvent(launchedActivity);
      e.eventType in ValidTypes && e.timestamp != 0 && e.threadName != "" && RequiredFieldsError(e).None?
  {}

  /** The cold launch event passes every limit outside the launched-activity and network-change group. */
  lemma ColdLaunchEventOtherCaps(launchedActivity: string)
    ensures FirstViolation(CommonCaps(ColdLaunchEvent(launchedActivity))).None?
    ensures FirstViolation(PayloadCaps(ColdLaunchEvent(launchedActivity))).None?
    ensures FirstViolation(TailCaps(ColdLaunchEvent(launchedActivity))).None?
  {
    var e := ColdLaunchEvent(launchedActivity);
    AllCapsHold(CommonCaps(e));
    AllCapsHold(PayloadCaps(e));
    AllCapsHold(TailCaps(e));
  }

  /**
   * The launched-activity limit rejects only a length of exactly 128: a cold
   * launch whose launched activity has 129 characters is accepted.
   */
  lemma OverlongLaunchedActivityAccepted()
    ensures Validate(ColdLaunchEvent(seq(129, _ => 'a'))).None?
  {
    var activity := seq(129, _ => 'a');
    ColdLaunchEventRequiredFields(activity);
    ColdLaunchEventOtherCaps(activity);
    AllCapsHold(ExactCaps(ColdLaunchEvent(activity)));
  }

  /** The same cold launch with exactly 128 characters is rejected by that limit. */
  lemma ExactLaunchedActivityRejected()
    ensures Validate(ColdLaunchEvent(seq(128, _ => 'a')))
      == Some(ExceedsMaxChars("cold_launch.launched_activity", MaxLaunchedActivityChars))
  {
    var activity := seq(128, _ => 'a');
    ColdLaunchEventRequiredFields(activity);
    ColdLaunchEventOtherCaps(activity);
    assert Violates(ExactCaps(ColdLaunchEvent(activity))[0]);
  }

  /** Helper: a list of limits none of which is violated yields no error. */
  lemma AllCapsHold(caps: seq<Cap>)
    requires forall i :: 0 <= i < |caps| ==> !Violates(caps[i])
    ensures FirstViolation(caps).None?
  {}

  // ---------------------------------------------------------------------
  // Rendering

  /** `Frame.String`: "class.method" then "(file:line)", skipping empty parts and a zero line. */
  function FrameString(f: Frame): string
  {
    var lineNum := if f.lineNum != 0 then IntToString(f.lineNum) else "";
    var codeInfo := JoinNonEmpty(".", [f.className, f.methodName]);
    var fileInfo := JoinNonEmpty(":", [f.fileName, lineNum]);
    codeInfo + (if fileInfo != "" then "(" + fileInfo + ")" else "")
  }

  lemma JoinNonEmptyPair(sep: string, a: string, b: string)
    ensures JoinNonEmpty(sep, [a, b]) ==
      if a != "" && b != "" then a + sep + b else if a != "" then a else b
  {
    assert [a, b][1..] == [b];
    assert [b][1..] == [];
    if a != "" && b != "" {
      assert NonEmpty([a, b]) == [a, b];
      JoinPair(sep, a, b);
    }
  }

  /** The rendering of a frame in each of its cases. */
  lemma FrameStringShape(f: Frame)
    ensures f.className != "" && f.methodName != "" && f.fileName != "" && f.lineNum != 0 ==>
      FrameString(f) == f.className + "." + f.methodName + "(" + f.fileName + ":" + IntToString(f.lineNum) + ")"
    ensures f.fileName != "" && f.lineNum == 0 ==>
      FrameString(f) == JoinNonEmpty(".", [f.className, f.methodName]) + "(" + f.fileName + ")"
    ensures f.fileName == "" && f.lineNum == 0 ==>
      FrameString(f) == JoinNonEmpty(".", [f.className, f.methodName])
    ensures f.fileName != "" || f.lineNum != 0 ==> |FrameString(f)| > 0 && FrameString(f)[|FrameString(f)| - 1] == ')'
  {
    JoinNonEmptyPair(".", f.className, f.methodName);
    var lineNum := if f.lineNum != 0 then IntToString(f.lineNum) else "";
    JoinNonEmptyPair(":", f.fileName, lineNum);
  }

  /** The stack-trace line of one frame. */
  function FrameLine(f: Frame, framePrefix: string): string
  {
    framePrefix + FrameString(f) + "\n"
  }

  /** The stack-trace lines of a list of frames, in order. */
  function FrameLines(frames: seq<Frame>, framePrefix: string): string
  {
    if |frames| == 0 then ""
    else FrameLines(frames[..|frames| - 1], framePrefix) + FrameLine(frames[|frames| - 1], framePrefix)
  }

  /** The stack-trace lines of every frame of every unit, unit by unit. */
  function UnitLines(units: seq<ExceptionUnit>, framePrefix: string): string
  {
    if |units| == 0 then ""
    else UnitLines(units[..|units| - 1], framePrefix) + FrameLines(units[|units| - 1].frames, framePrefix)
  }

  /** Every frame of every unit, in order. */
  function AllFrames(units: seq<ExceptionUnit>): seq<Frame>
  {
    if |units| == 0 then [] else AllFrames(units[..|units| - 1]) + units[|units| - 1].frames
  }

  lemma {:induction false} FrameLinesConcat(a: seq<Frame>, b: seq<Frame>, p: string)
    ensures FrameLines(a + b, p) == FrameLines(a, p) + FrameLines(b, p)
  {
    if |b| == 0 {
      assert a + b == a;
    } else {
      var b' := b[..|b| - 1];
      assert (a + b)[..|a + b| - 1] == a + b';
      assert (a + b)[|a + b| - 1] == b[|b| - 1];
      FrameLinesConcat(a, b', p);
      ConcatAssoc(FrameLines(a, p), FrameLines(b', p), FrameLine(b[|b| - 1], p));
    }
  }

  /** The unit-by-unit rendering is the rendering of all frames flattened in order: one line per frame. */
  lemma {:induction false} UnitLinesAreFrameLines(units: seq<ExceptionUnit>, p: string)
    ensures UnitLines(units, p) == FrameLines(AllFrames(units), p)
  {
    if |units| > 0 {
      UnitLinesAreFrameLines(units[..|units| - 1], p);
      FrameLinesConcat(AllFrames(units[..|units| - 1]), units[|units| - 1].frames, p);
    }
  }

  /** `getType`: the type of the last unit; `None` where Go would panic on an empty list. */
  function GetType(c: CrashReport): (r: Option<string>)
    ensures r.Some? <==> |c.exceptions| > 0
    ensures r.Some? ==> r.value == c.exceptions[|c.exceptions| - 1].exceptionType
  {
    if |c.exceptions| == 0 then None else Some(c.exceptions[|c.exceptions| - 1].exceptionType)
  }

  /** `getMessage`: the message of the last unit, or `None` (panic). */
  function GetMessage(c: CrashReport): (r: Option<string>)
    ensures r.Some? <==> |c.exceptions| > 0
    ensures r.Some? ==> r.value == c.exceptions[|c.exceptions| - 1].message
  {
    if |c.exceptions| == 0 then None else Some(c.exceptions[|c.exceptions| - 1].message)
  }

  /** `getLocation`: the first frame of the last unit, rendered; `None` when either list is empty (panic). */
  function GetLocation(c: CrashReport): (r: Option<string>)
    ensures r.Some? <==> |c.exceptions| > 0 && |c.exceptions[|c.exceptions| - 1].frames| > 0
    ensures r.Some? ==> r.value == FrameString(c.exceptions[|c.exceptions| - 1].frames[0])
  {
    if |c.exceptions| == 0 then None
    else
      var last := c.exceptions[|c.exceptions| - 1];
      if |last.frames| == 0 then None else Some(FrameString(last.frames[0]))
  }

  /** What `Stacktrace` builds: the type line, then one prefixed line per frame of every unit. */
  function StacktraceOf(c: CrashReport, framePrefix: string): (r: Option<string>)
    ensures r.Some? <==> |c.exceptions| > 0
    ensures r.Some? ==> r.value == GetType(c).value + "\n" + FrameLines(AllFrames(c.exceptions), framePrefix)
  {
    if |c.exceptions| == 0 then None
    else
      UnitLinesAreFrameLines(c.exceptions, framePrefix);
      Some(GetType(c).value + "\n" + UnitLines(c.exceptions, framePrefix))
  }

  /**
   * `Exception.Stacktrace` / `ANR.Stacktrace`: appends to a builder unit by
   * unit and frame by frame. `None` stands for the panic of `getType` on an
   * empty unit list.
   */
  method Stacktrace(c: CrashReport, framePrefix: string) returns (r: Option<string>)
    ensures r == StacktraceOf(c, framePrefix)
  {
    if |c.exceptions| == 0 {
      return None;
    }
    var units := c.exceptions;
    var b := units[|units| - 1].exceptionType + "\n";
    ghost var head := b;
    var i := 0;
    while i < |units|
      invariant 0 <= i <= |units|
      invariant b == head + UnitLines(units[..i], framePrefix)
    {
      var frames := units[i].frames;
      ghost var before := b;
      var j := 0;
      while j < |frames|
        invariant 0 <= j <= |frames|
        invariant b == before + FrameLines(frames[..j], framePrefix)
      {
        assert frames[..j + 1][..j] == frames[..j];
        ConcatAssoc(before, FrameLines(frames[..j], framePrefix), FrameLine(frames[j], framePrefix));
        b := b + FrameLine(frames[j], framePrefix);
        j := j + 1;
      }
      assert frames[..j] == frames;
      assert units[..i + 1][..i] == units[..i];
      ConcatAssoc(head, UnitLines(units[..i], framePrefix), FrameLines(frames, framePrefix));
      i := i + 1;
    }
    assert units[..i] == units;
    r := Some(b);
  }

  lemma ConcatAssoc(a: string, b: string, c: string)
    ensures a + b + c == a + (b + c)
  {}

  /** An exception event carrying crash payload `c`, every other field blank. */
  function ExceptionEvent(c: CrashReport): EventField
  {
    BlankEvent(TypeException, 1, "main").(exception := c)
  }

  lemma ExceptionEventRequiredFields(c: CrashReport)
    requires !CrashIncomplete(c)
    ensures var e := ExceptionEvent(c);
      e.eventType in ValidTypes && e.timestamp != 0 && e.threadName != "" && RequiredFieldsError(e).None?
  {}

  lemma ExceptionEventLeadingCaps(c: CrashReport)
    requires |c.threadName| <= MaxThreadNameChars
    ensures FirstViolation(CommonCaps(ExceptionEvent(c))).None?
    ensures FirstViolation(PayloadCaps(ExceptionEvent(c))).None?
  {
    AllCapsHold(CommonCaps(ExceptionEvent(c)));
    AllCapsHold(PayloadCaps(ExceptionEvent(c)));
  }

  lemma ExceptionEventTrailingCaps(c: CrashReport)
    requires |c.deviceLocale| <= MaxExceptionDeviceLocaleChars
    ensures FirstViolation(ExactCaps(ExceptionEvent(c))).None?
    ensures FirstViolation(TailCaps(ExceptionEvent(c))).None?
  {
    AllCapsHold(ExactCaps(ExceptionEvent(c)));
    AllCapsHold(TailCaps(ExceptionEvent(c)));
  }

  /** An exception event is accepted whenever its payload is complete and within its limits, whatever its frames. */
  lemma ExceptionEventAccepted(c: CrashReport)
    requires !CrashIncomplete(c)
    requires |c.threadName| <= MaxThreadNameChars && |c.deviceLocale| <= MaxExceptionDeviceLocaleChars
    ensures Validate(ExceptionEvent(c)).None?
  {
    ExceptionEventRequiredFields(c);
    ExceptionEventLeadingCaps(c);
    ExceptionEventTrailingCaps(c);
  }

  /**
   * `getLocation` is not covered by validation: an accepted exception event
   * whose last unit has no frames makes `getLocation` panic.
   */
  lemma GetLocationNotGuardedByValidate()
    ensures var c := CrashReport("main", false, [ExceptionUnit("java.lang.Error", "", [])],
                                 [Thread("main", [])], "", "", "", "", "");
      Validate(ExceptionEvent(c)).None? && GetLocation(c).None?
  {
    var c := CrashReport("main", false, [ExceptionUnit("java.lang.Error", "", [])],
                         [Thread("main", [])], "", "", "", "", "");
    ExceptionEventAccepted(c);
  }

  lemma ValidatedCrashHasType(e: EventField)
    requires Validate(e).None?
    ensures IsException(e) ==> GetType(e.exception).Some? && StacktraceOf(e.exception, "").Some?
    ensures IsANR(e) ==> GetType(e.anr).Some? && GetMessage(e.anr).Some?
  {
    assert RequiredFieldsError(e).None?;
  }

  // ---------------------------------------------------------------------
  // Trimming

  /** `Exception.Trim` / `ANR.Trim`: strips trailing NULs from the five string fields. */
  function TrimCrash(c: CrashReport): (r: CrashReport)
    ensures r.handled == c.handled && r.exceptions == c.exceptions && r.threads == c.threads
    ensures r.fingerprint == c.fingerprint
    ensures r.threadName <= c.threadName && r.deviceLocale <= c.deviceLocale
  {
    c.(threadName := TrimRightNul(c.threadName), networkType := TrimRightNul(c.networkType),
       networkGeneration := TrimRightNul(c.networkGeneration),
       networkProvider := TrimRightNul(c.networkProvider), deviceLocale := TrimRightNul(c.deviceLocale))
  }

  /**
   * `EventField.Trim`: trims the thread name and the type, then the
   * exception payload if the trimmed type is "exception". The ANR payload
   * is left as it is; the resource's own trimming is not part of this model.
   */
  function TrimEvent(e: EventField): EventField
  {
    var e1 := e.(threadName := TrimRightNul(e.threadName), eventType := TrimRightNul(e.eventType));
    if IsException(e1) then e1.(exception := TrimCrash(e1.exception)) else e1
  }

  /** Trimming twice is trimming once, and it never touches the ANR payload. */
  lemma TrimEventIdempotent(e: EventField)
    ensures TrimEvent(TrimEvent(e)) == TrimEvent(e)
    ensures TrimEvent(e).anr == e.anr
    ensures TrimEvent(e).threadName == [] || TrimEvent(e).threadName[|TrimEvent(e).threadName| - 1] != '\0'
  {
    var t := TrimEvent(e);
    TrimRightNulIdempotent(e.threadName);
    TrimRightNulIdempotent(e.eventType);
    TrimRightNulIdempotent(e.exception.threadName);
    TrimRightNulIdempotent(e.exception.networkType);
    TrimRightNulIdempotent(e.exception.networkGeneration);
    TrimRightNulIdempotent(e.exception.networkProvider);
    TrimRightNulIdempotent(e.exception.deviceLocale);
  }

  /** A type padded with NULs is recognised once trimmed, so its exception payload is trimmed too. */
  lemma TrimEventRecognisesPaddedException(e: EventField)
    requires e.eventType == TypeException + "\0\0"
    ensures TrimEvent(e).eventType == TypeException
    ensures TrimEvent(e).exception == TrimCrash(e.exception)
  {
    var t2, t1 := TypeException + "\0\0", TypeException + "\0";
    assert t2[..|t2| - 1] == t1;
    assert t1[..|t1| - 1] == TypeException;
    assert TrimRightNul(TypeException) == TypeException;
    assert TrimRightNul(t1) == TypeException;
  }
}
