/**
 * The first-generation ingestion backend (measure-go/events.go): the event
 * record it accepts, its checks, the ClickHouse tuple encoders for frames,
 * exceptions and threads, and the builder of the multi-row insert query.
 */
module IngestEvents {
  import opened Wrappers
  import opened Text

  // Character limits of event fields.
  const MaxTypeChars := 32
  const MaxAppExitReasonChars := 64
  const MaxAppExitImportanceChars := 32
  const MaxSeverityTextChars := 10
  const MaxGestureLongClickTargetChars := 128
  const MaxGestureLongClickTargetIdChars := 128
  const MaxGestureScrollTargetChars := 128
  const MaxGestureScrollTargetIdChars := 128
  const MaxGestureScrollDirectionChars := 8
  const MaxGestureClickTargetChars := 128
  const MaxGestureClickTargetIdChars := 128
  const MaxHttpRequestMethodChars := 16
  const MaxHttpRequestProtocolVersionChars := 16
  const MaxHttpResponseMethodChars := 16
  const MaxLifecycleActivityTypeChars := 32
  const MaxLifecycleActivityClassNameChars := 128
  const MaxLifecycleFragmentTypeChars := 32
  const MaxLifecycleFragmentClassNameChars := 128
  const MaxLifecycleAppTypeChars := 32
  const MaxAttrCount := 10

  const TypeANR := "anr"
  const TypeException := "exception"
  const TypeAppExit := "app_exit"
  const TypeString := "string"
  const TypeGestureLongClick := "gesture_long_click"
  const TypeGestureClick := "gesture_click"
  const TypeGestureScroll := "gesture_scroll"
  const TypeHttpRequest := "http_request"
  const TypeHttpResponse := "http_response"
  const TypeLifecycleActivity := "lifecycle_activity"
  const TypeLifecycleFragment := "lifecycle_fragment"
  const TypeLifecycleApp := "lifecycle_app"

  const ValidTypes: seq<string> := [
    TypeANR, TypeException, TypeAppExit, TypeString, TypeGestureLongClick, TypeGestureScroll,
    TypeGestureClick, TypeHttpRequest, TypeHttpResponse, TypeLifecycleActivity, TypeLifecycleFragment,
    TypeLifecycleApp]

  /** Instants as integers; 0 is Go's zero time. */
  type Time = int

  datatype Frame = Frame(lineNum: int, colNum: int, moduleName: string, fileName: string,
                         className: string, methodName: string)
  datatype ExceptionUnit = ExceptionUnit(exceptionType: string, message: string, frames: seq<Frame>)
  datatype Thread = Thread(name: string, frames: seq<Frame>)
  /** The payload of both `anr` and `exception` events. */
  datatype Crash = Crash(threadName: string, handled: bool, exceptions: seq<ExceptionUnit>, threads: seq<Thread>)
  datatype AppExit = AppExit(reason: string, importance: string, trace: string, processName: string,
                             pid: string, timestamp: Time)
  datatype LogString = LogString(severityText: string, text: string)
  /** The payload of both `gesture_long_click` and `gesture_click` events. */
  datatype Click = Click(target: string, targetId: string, touchDownTime: nat, touchUpTime: nat,
                         width: nat, height: nat, x: int, y: int)
  datatype Scroll = Scroll(target: string, targetId: string, touchDownTime: nat, touchUpTime: nat,
                           x: int, y: int, endX: int, endY: int, direction: string)
  datatype HttpRequest = HttpRequest(requestId: string, requestUrl: string, httpMethod: string,
                                     protocolVersion: string, bodySize: nat, body: string,
                                     headers: map<string, string>)
  datatype HttpResponse = HttpResponse(requestId: string, requestUrl: string, httpMethod: string,
                                       latencyMs: nat, statusCode: nat, body: string,
                                       headers: map<string, string>)
  datatype LifecycleActivity = LifecycleActivity(kind: string, className: string, intent: string,
                                                 savedInstanceState: bool)
  datatype LifecycleFragment = LifecycleFragment(kind: string, className: string, parentActivity: string,
                                                 tag: string)
  datatype LifecycleApp = LifecycleApp(kind: string)

  datatype EventField = EventField(
    timestamp: Time, eventType: string, anr: Crash, exception: Crash, appExit: AppExit,
    logString: LogString, gestureLongClick: Click, gestureScroll: Scroll, gestureClick: Click,
    httpRequest: HttpRequest, httpResponse: HttpResponse, lifecycleActivity: LifecycleActivity,
    lifecycleFragment: LifecycleFragment, lifecycleApp: LifecycleApp, attributes: map<string, string>)

  // ---------------------------------------------------------------------
  // Tuple encoders

  const Blank := "__blank__"

  /** An empty string field of a frame is written as the blank marker. */
  function OrBlank(s: string): (r: string)
    ensures r != ""
    ensures s != "" ==> r == s
    ensures s == "" ==> r == Blank
  {
    if s == "" then Blank else s
  }

  /** `Frame.encode`: `(line, col, 'module', 'file', 'class', 'method')`. */
  function EncodeFrame(f: Frame): string
  {
    "(" + IntToString(f.lineNum) + ", " + IntToString(f.colNum) + ", '" + OrBlank(f.moduleName) + "', '"
    + OrBlank(f.fileName) + "', '" + OrBlank(f.className) + "', '" + OrBlank(f.methodName) + "')"
  }

  /** A list of encoded elements: joined by ", " inside brackets. */
  function EncodeList(items: seq<string>): string
  {
    "[" + Join(", ", items) + "]"
  }

  function EncodeFrames(frames: seq<Frame>): string
  {
    EncodeList(seq(|frames|, i requires 0 <= i < |frames| => EncodeFrame(frames[i])))
  }

  /** `ExceptionUnit.encode`: `('type', 'message', frames)`; empty strings are kept as they are. */
  function EncodeExceptionUnit(u: ExceptionUnit): string
  {
    "('" + u.exceptionType + "', '" + u.message + "', " + EncodeFrames(u.frames) + ")"
  }

  function EncodeExceptionUnits(units: seq<ExceptionUnit>): string
  {
    EncodeList(seq(|units|, i requires 0 <= i < |units| => EncodeExceptionUnit(units[i])))
  }

  /** `Thread.encode`: `('name', frames)`. */
  function EncodeThread(t: Thread): string
  {
    "('" + t.name + "', " + EncodeFrames(t.frames) + ")"
  }

  function EncodeThreads(threads: seq<Thread>): string
  {
    EncodeList(seq(|threads|, i requires 0 <= i < |threads| => EncodeThread(threads[i])))
  }

  /** An empty list encodes as "[]" and a single element is bracketed as it is. */
  lemma EncodeListShort(x: string)
    ensures EncodeList([]) == "[]"
    ensures EncodeList([x]) == "[" + x + "]"
  {
    JoinSingle(", ", x);
  }

  /** Each further element follows ", " inside the brackets. */
  lemma EncodeListAppend(items: seq<string>, x: string)
    requires |items| > 0
    ensures EncodeList(items + [x]) == "[" + (Join(", ", items) + ", " + x) + "]"
  {
    JoinAppend(", ", items, x);
  }

  predicate NoParen(s: string)
  {
    Count(s, '(') == 0
  }

  /** A frame whose strings hold no '(' opens exactly one tuple. */
  lemma FrameOpensOneTuple(f: Frame)
    requires NoParen(f.moduleName) && NoParen(f.fileName) && NoParen(f.className) && NoParen(f.methodName)
    ensures Count(EncodeFrame(f), '(') == 1
  {
    var l, c := IntToString(f.lineNum), IntToString(f.colNum);
    CountAbsent(l, '(');
    CountAbsent(c, '(');
    CountAbsent(", ", '(');
    CountAbsent(", '", '(');
    CountAbsent("', '", '(');
    CountAbsent("')", '(');
    CountAbsent(Blank, '(');
    var p0 := "(";
    var p1 := p0 + l;
    CountConcat(p0, l, '(');
    var p2 := p1 + ", ";
    CountConcat(p1, ", ", '(');
    var p3 := p2 + c;
    CountConcat(p2, c, '(');
    var p4 := p3 + ", '";
    CountConcat(p3, ", '", '(');
    var p5 := p4 + OrBlank(f.moduleName);
    CountConcat(p4, OrBlank(f.moduleName), '(');
    var p6 := p5 + "', '";
    CountConcat(p5, "', '", '(');
    var p7 := p6 + OrBlank(f.fileName);
    CountConcat(p6, OrBlank(f.fileName), '(');
    var p8 := p7 + "', '";
    CountConcat(p7, "', '", '(');
    var p9 := p8 + OrBlank(f.className);
    CountConcat(p8, OrBlank(f.className), '(');
    var p10 := p9 + "', '";
    CountConcat(p9, "', '", '(');
    var p11 := p10 + OrBlank(f.methodName);
    CountConcat(p10, OrBlank(f.methodName), '(');
    var p12 := p11 + "')";
    CountConcat(p11, "')", '(');
    assert p12 == EncodeFrame(f);
  }

  /** With no '(' inside the frames' strings, the encoded list opens exactly one tuple per frame. */
  lemma FramesOpenOneTuplePerFrame(frames: seq<Frame>)
    requires forall i :: 0 <= i < |frames| ==>
      NoParen(frames[i].moduleName) && NoParen(frames[i].fileName)
      && NoParen(frames[i].className) && NoParen(frames[i].methodName)
    ensures Count(EncodeFrames(frames), '(') == |frames|
  {
    var items := seq(|frames|, i requires 0 <= i < |frames| => EncodeFrame(frames[i]));
    forall i | 0 <= i < |items| ensures Count(items[i], '(') == 1 {
      FrameOpensOneTuple(frames[i]);
    }
    CountAbsent(", ", '(');
    CountAbsent("[", '(');
    CountAbsent("]", '(');
    CountJoin(", ", items, '(');
    CountAllUniform(items, '(', 1);
    CountConcat("[", Join(", ", items), '(');
    CountConcat("[" + Join(", ", items), "]", '(');
  }

  // ---------------------------------------------------------------------
  // Validation

  datatype IngestError =
    | InvalidType
    | InvalidEvent(eventType: string)
    | ExceedsMaxChars(field: string, max: nat)
    | ExceedsMaxCount(field: string, max: nat)

  /** The type-specific required fields that are missing or out of range. */
  predicate RequiredMissing(e: EventField)
  {
    (e.eventType == TypeANR
       && (|e.anr.exceptions| < 1 || |e.anr.threads| < 1 || e.anr.threadName == ""))
    || (e.eventType == TypeException
       && (|e.exception.exceptions| < 1 || |e.exception.threads| < 1 || e.exception.threadName == ""))
    || (e.eventType == TypeAppExit
       && (|e.appExit.reason| < 1 || |e.appExit.importance| < 1 || |e.appExit.processName| < 1
           || e.appExit.timestamp == 0))
    || (e.eventType == TypeString && |e.logString.text| < 1)
    || (e.eventType == TypeGestureLongClick && (e.gestureLongClick.x < 0 || e.gestureLongClick.y < 0))
    || (e.eventType == TypeGestureScroll && (e.gestureScroll.x < 0 || e.gestureScroll.y < 0))
    || (e.eventType == TypeGestureClick && (e.gestureClick.x < 0 || e.gestureClick.y < 0))
    || (e.eventType == TypeHttpRequest
       && (e.httpRequest.requestId == "" || e.httpRequest.requestUrl == "" || e.httpRequest.httpMethod == ""))
    || (e.eventType == TypeHttpResponse
       && (e.httpResponse.requestId == "" || e.httpResponse.requestUrl == "" || e.httpResponse.httpMethod == ""))
    || (e.eventType == TypeLifecycleActivity
       && (e.lifecycleActivity.kind == "" || e.lifecycleActivity.className == ""))
    || (e.eventType == TypeLifecycleFragment
       && (e.lifecycleFragment.kind == "" || e.lifecycleFragment.className == ""))
    || (e.eventType == TypeLifecycleApp && e.lifecycleApp.kind == "")
  }

  /** A field length together with the most characters it may hold. */
  datatype Cap = Cap(field: string, length: nat, max: nat)

  function CharCapsA(e: EventField): seq<Cap>
  {
    [ Cap("events[].type", |e.eventType|, MaxTypeChars),
      Cap("events[].app_exit.reason", |e.appExit.reason|, MaxAppExitReasonChars),
      Cap("events[].app_exit.importance", |e.appExit.importance|, MaxAppExitImportanceChars),
      Cap("events[].string.severity_text", |e.logString.severityText|, MaxSeverityTextChars),
      Cap("events[].gesture_long_click.target", |e.gestureLongClick.target|, MaxGestureLongClickTargetChars),
      Cap("events[].gesture_long_click.target_id", |e.gestureLongClick.targetId|, MaxGestureLongClickTargetIdChars),
      Cap("events[].gesture_click.target", |e.gestureClick.target|, MaxGestureClickTargetChars),
      Cap("events[].gesture_click.target_id", |e.gestureClick.targetId|, MaxGestureClickTargetIdChars),
      Cap("events[].gesture_scroll.target", |e.gestureScroll.target|, MaxGestureScrollTargetChars),
      Cap("events[].gesture_scroll.target_id", |e.gestureScroll.targetId|, MaxGestureScrollTargetIdChars) ]
  }

  function CharCapsB(e: EventField): seq<Cap>
  {
    [ Cap("events[].gesture_scroll.direction", |e.gestureScroll.direction|, MaxGestureScrollDirectionChars),
      Cap("events[].http_request.method", |e.httpRequest.httpMethod|, MaxHttpRequestMethodChars),
      Cap("events[].http_request.http_protocol_version", |e.httpRequest.protocolVersion|,
          MaxHttpRequestProtocolVersionChars),
      Cap("events[].http_response.method", |e.httpResponse.httpMethod|, MaxHttpResponseMethodChars),
      Cap("events[].lifecycle_activity.type", |e.lifecycleActivity.kind|, MaxLifecycleActivityTypeChars),
      Cap("events[].lifecycle_activity.class_name", |e.lifecycleActivity.className|,
          MaxLifecycleActivityClassNameChars),
      Cap("events[].lifecycle_fragment.type", |e.lifecycleFragment.kind|, MaxLifecycleFragmentTypeChars),
      Cap("events[].lifecycle_fragment.class_name", |e.lifecycleFragment.className|,
          MaxLifecycleFragmentClassNameChars),
      Cap("events[].lifecycle_app.type", |e.lifecycleApp.kind|, MaxLifecycleAppTypeChars) ]
  }

  /** The character caps in the order they are checked. */
  function CharCaps(e: EventField): seq<Cap>
  {
    CharCapsA(e) + CharCapsB(e)
  }

  /** The first cap whose length is over its maximum. */
  function FirstExceeded(caps: seq<Cap>): (r: Option<Cap>)
    ensures r.None? <==> forall i :: 0 <= i < |caps| ==> caps[i].length <= caps[i].max
    ensures r.Some? ==> r.value in caps && r.value.length > r.value.max
  {
    if |caps| == 0 then None
    else if caps[0].length > caps[0].max then Some(caps[0])
    else
      var rest := FirstExceeded(caps[1..]);
      assert forall i :: 1 <= i < |caps| ==> caps[i] == caps[1..][i - 1];
      rest
  }

  /** `EventField.validate`. */
  function Validate(e: EventField): Option<IngestError>
  {
    if e.eventType !in ValidTypes then Some(InvalidType)
    else if RequiredMissing(e) then Some(InvalidEvent(e.eventType))
    else
      var exceeded := FirstExceeded(CharCaps(e));
      if exceeded.Some? then Some(ExceedsMaxChars(exceeded.value.field, exceeded.value.max))
      else if |e.attributes| > MaxAttrCount then Some(ExceedsMaxCount("events[].attributes", MaxAttrCount))
      else None
  }

  /**
   * An event is accepted exactly when its type is one of the twelve, its
   * type's required fields are present, no field is longer than its cap and
   * it has at most ten attributes.
   */
  lemma ValidateAccepts(e: EventField)
    ensures Validate(e).None? <==>
      e.eventType in ValidTypes && !RequiredMissing(e)
      && (forall i :: 0 <= i < |CharCaps(e)| ==> CharCaps(e)[i].length <= CharCaps(e)[i].max)
      && |e.attributes| <= MaxAttrCount
  {}

  /** A type outside the twelve is rejected before anything else is looked at. */
  lemma ValidateRejectsUnknownType(e: EventField)
    requires e.eventType !in ValidTypes
    ensures Validate(e) == Some(InvalidType)
  {}

  /** HTTP request and response events need a request id, a url and a method. */
  lemma ValidateHttpNeedsIdentity(e: EventField)
    requires e.eventType == TypeHttpRequest || e.eventType == TypeHttpResponse
    ensures e.eventType == TypeHttpRequest
            && (e.httpRequest.requestId == "" || e.httpRequest.requestUrl == "" || e.httpRequest.httpMethod == "")
            ==> Validate(e) == Some(InvalidEvent(TypeHttpRequest))
    ensures e.eventType == TypeHttpResponse
            && (e.httpResponse.requestId == "" || e.httpResponse.requestUrl == "" || e.httpResponse.httpMethod == "")
            ==> Validate(e) == Some(InvalidEvent(TypeHttpResponse))
  {
    assert e.eventType in ValidTypes;
  }

  /** An accepted event's type fits in 32 characters; a longer one is never accepted. */
  lemma ValidatedTypeFits(e: EventField)
    requires Validate(e).None?
    ensures |e.eventType| <= MaxTypeChars && |e.attributes| <= MaxAttrCount
  {
    ValidateAccepts(e);
    assert CharCaps(e)[0] == Cap("events[].type", |e.eventType|, MaxTypeChars);
  }

  /** Caps reject only lengths strictly over the maximum: a length equal to it passes. */
  lemma CapAtMaximumPasses(field: string, max: nat)
    ensures FirstExceeded([Cap(field, max, max)]).None?
    ensures FirstExceeded([Cap(field, max + 1, max)]) == Some(Cap(field, max + 1, max))
  {}

  // ---------------------------------------------------------------------
  // The insert query

  // The columns of the events table, in insert order, in five groups.
  const HeadColumns: seq<string> := [
      "id", "type", "session_id", "timestamp"]

  const ResourceColumns: seq<string> := [
      "resource.device_name", "resource.device_model", "resource.device_manufacturer",
      "resource.device_type", "resource.device_is_foldable", "resource.device_is_physical",
      "resource.device_density_dpi", "resource.device_width_px", "resource.device_height_px",
      "resource.device_density", "resource.os_name", "resource.os_version", "resource.platform",
      "resource.app_version", "resource.app_build", "resource.app_unique_id",
      "resource.measure_sdk_version"]

  const CrashColumnNames: seq<string> := [
      "anr.thread_name", "anr.handled", "anr_exceptions", "anr_threads", "exception.thread_name",
      "exception.handled", "exception_exceptions", "exception_threads"]

  const MiddleColumns: seq<string> := [
      "app_exit.reason", "app_exit.importance", "app_exit.trace", "app_exit.process_name",
      "app_exit.pid", "app_exit.timestamp", "string.severity_text", "string.string",
      "gesture_long_click.target", "gesture_long_click.target_id",
      "gesture_long_click.touch_down_time", "gesture_long_click.touch_up_time",
      "gesture_long_click.width", "gesture_long_click.height", "gesture_long_click.x",
      "gesture_long_click.y", "gesture_click.target", "gesture_click.target_id",
      "gesture_click.touch_down_time", "gesture_click.touch_up_time", "gesture_click.width",
      "gesture_click.height", "gesture_click.x", "gesture_click.y", "gesture_scroll.target",
      "gesture_scroll.target_id", "gesture_scroll.touch_down_time", "gesture_scroll.touch_up_time",
      "gesture_scroll.x", "gesture_scroll.y", "gesture_scroll.end_x", "gesture_scroll.end_y",
      "gesture_scroll.direction"]

  const TailColumns: seq<string> := [
      "http_request.request_id", "http_request.request_url", "http_request.method",
      "http_request.http_protocol_version", "http_request.request_body_size",
      "http_request.request_body", "http_request.request_headers", "http_response.request_id",
      "http_response.request_url", "http_response.method", "http_response.latency_ms",
      "http_response.status_code", "http_response.response_body", "http_response.response_headers",
      "lifecycle_activity.type", "lifecycle_activity.class_name", "lifecycle_activity.intent",
      "lifecycle_activity.saved_instance_state", "lifecycle_fragment.type",
      "lifecycle_fragment.class_name", "lifecycle_fragment.parent_activity", "lifecycle_fragment.tag",
      "lifecycle_app.type", "attributes"]

  const Columns: seq<string> := HeadColumns + ResourceColumns + CrashColumnNames + MiddleColumns + TailColumns

  /** One bound argument of the insert query. */
  datatype Arg = AUuid(uuid: string) | AStr(s: string) | AInt(i: int) | ABool(b: bool) | ATime(t: Time)

  /** The device and app fields of a session that go into every row. */
  datatype DeviceResource = DeviceResource(
    deviceName: string, deviceModel: string, deviceManufacturer: string, deviceType: string,
    deviceIsFoldable: bool, deviceIsPhysical: bool, deviceDensityDpi: int, deviceWidthPx: int,
    deviceHeightPx: int, deviceDensity: int, osName: string, osVersion: string, platform: string,
    appVersion: string, appBuild: string, appUniqueId: string, measureSdkVersion: string)

  datatype IngestSession = IngestSession(sessionId: string, resource: DeviceResource, events: seq<EventField>)

  /** The positions whose placeholder converts its argument to a UUID. */
  predicate IsUuidSlot(k: nat)
  {
    k == 0 || k == 2 || k == 62 || k == 69
  }

  function Slot(k: nat): string
  {
    if IsUuidSlot(k) then "toUUID(?)" else "?"
  }

  /** One row's placeholder group: a slot per column, joined by ",". */
  function Placeholder(): string
  {
    "(" + Join(",", seq(|Columns|, k requires 0 <= k < |Columns| => Slot(k))) + ")"
  }

  /** The crash tuple columns: the encoded lists when the event has that type, "[]" otherwise. */
  function CrashColumns(e: EventField, kind: string, c: Crash): (Arg, Arg)
  {
    if e.eventType == kind then (AStr(EncodeExceptionUnits(c.exceptions)), AStr(EncodeThreads(c.threads)))
    else (AStr("[]"), AStr("[]"))
  }

  function HeadArgs(s: IngestSession, e: EventField, id: string, formatTime: Time -> string): seq<Arg>
  {
    [AUuid(id), AStr(e.eventType), AStr(s.sessionId), AStr(formatTime(e.timestamp))]
  }

  function ResourceArgs(r: DeviceResource): seq<Arg>
  {
    [ AStr(r.deviceName), AStr(r.deviceModel), AStr(r.deviceManufacturer), AStr(r.deviceType),
      ABool(r.deviceIsFoldable), ABool(r.deviceIsPhysical), AInt(r.deviceDensityDpi), AInt(r.deviceWidthPx),
      AInt(r.deviceHeightPx), AInt(r.deviceDensity), AStr(r.osName), AStr(r.osVersion), AStr(r.platform),
      AStr(r.appVersion), AStr(r.appBuild), AStr(r.appUniqueId), AStr(r.measureSdkVersion) ]
  }

  function CrashArgs(e: EventField): seq<Arg>
  {
    var anr := CrashColumns(e, TypeANR, e.anr);
    var exc := CrashColumns(e, TypeException, e.exception);
    [ AStr(e.anr.threadName), ABool(e.anr.handled), anr.0, anr.1,
      AStr(e.exception.threadName), ABool(e.exception.handled), exc.0, exc.1 ]
  }

  function MiddleArgs(e: EventField): seq<Arg>
  {
    [ AStr(e.appExit.reason), AStr(e.appExit.importance), AStr(e.appExit.trace), AStr(e.appExit.processName),
      AStr(e.appExit.pid), ATime(e.appExit.timestamp),
      AStr(e.logString.severityText), AStr(e.logString.text),
      AStr(e.gestureLongClick.target), AStr(e.gestureLongClick.targetId),
      AInt(e.gestureLongClick.touchDownTime), AInt(e.gestureLongClick.touchUpTime),
      AInt(e.gestureLongClick.width), AInt(e.gestureLongClick.height),
      AInt(e.gestureLongClick.x), AInt(e.gestureLongClick.y),
      AStr(e.gestureClick.target), AStr(e.gestureClick.targetId),
      AInt(e.gestureClick.touchDownTime), AInt(e.gestureClick.touchUpTime),
      AInt(e.gestureClick.width), AInt(e.gestureClick.height),
      AInt(e.gestureClick.x), AInt(e.gestureClick.y),
      AStr(e.gestureScroll.target), AStr(e.gestureScroll.targetId),
      AInt(e.gestureScroll.touchDownTime), AInt(e.gestureScroll.touchUpTime),
      AInt(e.gestureScroll.x), AInt(e.gestureScroll.y), AInt(e.gestureScroll.endX), AInt(e.gestureScroll.endY),
      AStr(e.gestureScroll.direction) ]
  }

  function TailArgs(e: EventField, mapToString: map<string, string> -> string): seq<Arg>
  {
    [ AStr(e.httpRequest.requestId), AStr(e.httpRequest.requestUrl), AStr(e.httpRequest.httpMethod),
      AStr(e.httpRequest.protocolVersion), AInt(e.httpRequest.bodySize), AStr(e.httpRequest.body),
      AStr(mapToString(e.httpRequest.headers)),
      AStr(e.httpResponse.requestId), AStr(e.httpResponse.requestUrl), AStr(e.httpResponse.httpMethod),
      AInt(e.httpResponse.latencyMs), AInt(e.httpResponse.statusCode), AStr(e.httpResponse.body),
      AStr(mapToString(e.httpResponse.headers)),
      AStr(e.lifecycleActivity.kind), AStr(e.lifecycleActivity.className), AStr(e.lifecycleActivity.intent),
      ABool(e.lifecycleActivity.savedInstanceState),
      AStr(e.lifecycleFragment.kind), AStr(e.lifecycleFragment.className),
      AStr(e.lifecycleFragment.parentActivity), AStr(e.lifecycleFragment.tag),
      AStr(e.lifecycleApp.kind),
      AStr(mapToString(e.attributes)) ]
  }

  /** The arguments of one event's row, in column order. */
  function EventArgs(s: IngestSession, e: EventField, id: string, formatTime: Time -> string,
                     mapToString: map<string, string> -> string): seq<Arg>
  {
    HeadArgs(s, e, id, formatTime) + ResourceArgs(s.resource) + CrashArgs(e) + MiddleArgs(e) + TailArgs(e, mapToString)
  }

  /** The rows one after the other. */
  function Flatten(rows: seq<seq<Arg>>): seq<Arg>
  {
    if |rows| == 0 then [] else Flatten(rows[..|rows| - 1]) + rows[|rows| - 1]
  }

  /** The arguments of all rows: event i's row uses the i-th fresh id. */
  function QueryArgs(s: IngestSession, events: seq<EventField>, gen: nat -> string, formatTime: Time -> string,
                     mapToString: map<string, string> -> string): seq<Arg>
  {
    Flatten(seq(|events|, i requires 0 <= i < |events| => EventArgs(s, events[i], gen(i), formatTime, mapToString)))
  }

  function Repeat(x: string, n: nat): (r: seq<string>)
    ensures |r| == n && forall i :: 0 <= i < n ==> r[i] == x
  {
    seq(n, i => x)
  }

  const InsertInto: string := "insert into "
  const ColumnsOpen: string := " ("
  const ValuesKeyword: string := ") values "
  const Terminator: string := ";"

  /** The statement text around the table, the column list and the row tuples. */
  function InsertStatement(table: string, columnList: string, rowList: string): string
  {
    InsertInto + table + ColumnsOpen + columnList + ValuesKeyword + rowList + Terminator
  }

  /** `makeInsertQuery`: the query text and its bound arguments. */
  function MakeInsertQuery(table: string, columns: seq<string>, s: IngestSession, gen: nat -> string,
                           formatTime: Time -> string, mapToString: map<string, string> -> string)
    : (string, seq<Arg>)
  {
    (InsertStatement(table, Join(",", columns), Join(", ", Repeat(Placeholder(), |s.events|))),
     QueryArgs(s, s.events, gen, formatTime, mapToString))
  }

  /** The table has 86 columns; the four UUID slots hold the row id, the session id and the two request ids. */
  lemma ColumnsLayout()
    ensures |Columns| == 86
    ensures Columns[0] == "id" && Columns[2] == "session_id"
    ensures Columns[62] == "http_request.request_id" && Columns[69] == "http_response.request_id"
    ensures Columns[23] == "anr_exceptions" && Columns[24] == "anr_threads"
    ensures Columns[27] == "exception_exceptions" && Columns[28] == "exception_threads"
    ensures Columns[85] == "attributes"
  {
    var a := HeadColumns + ResourceColumns;
    var b := a + CrashColumnNames;
    var c := b + MiddleColumns;
    assert |a| == 21 && |b| == 29 && |c| == 62;
    assert Columns == c + TailColumns;
    assert Columns[62] == TailColumns[0] && Columns[69] == TailColumns[7] && Columns[85] == TailColumns[23];
    assert Columns[23] == CrashColumnNames[2] && Columns[24] == CrashColumnNames[3];
    assert Columns[27] == CrashColumnNames[6] && Columns[28] == CrashColumnNames[7];
  }

  /**
   * One event's row has one argument per column; the UUID slots get the
   * fresh row id, the session id and the request ids, and the crash tuple
   * columns sit under their column names.
   */
  lemma EventArgsLayout(s: IngestSession, e: EventField, id: string, formatTime: Time -> string,
                        mapToString: map<string, string> -> string)
    ensures var a := EventArgs(s, e, id, formatTime, mapToString);
      |a| == |Columns|
      && a[0] == AUuid(id) && a[1] == AStr(e.eventType) && a[2] == AStr(s.sessionId)
      && a[62] == AStr(e.httpRequest.requestId) && a[69] == AStr(e.httpResponse.requestId)
      && a[85] == AStr(mapToString(e.attributes))
  {
    ColumnsLayout();
    var h := HeadArgs(s, e, id, formatTime);
    var z := h + ResourceArgs(s.resource) + CrashArgs(e) + MiddleArgs(e);
    var t := TailArgs(e, mapToString);
    assert |z| == 62 && |t| == 24;
    var a := z + t;
    assert a == EventArgs(s, e, id, formatTime, mapToString);
    assert a[0] == h[0] && a[1] == h[1] && a[2] == h[2];
    assert a[62] == t[0] && a[69] == t[7] && a[85] == t[23];
  }

  /** The four crash columns of a row carry the ANR's and the exception's encoded lists. */
  lemma EventArgsCrashLayout(s: IngestSession, e: EventField, id: string, formatTime: Time -> string,
                             mapToString: map<string, string> -> string)
    ensures var a := EventArgs(s, e, id, formatTime, mapToString);
      |a| == |Columns|
      && a[23] == CrashColumns(e, TypeANR, e.anr).0 && a[24] == CrashColumns(e, TypeANR, e.anr).1
      && a[27] == CrashColumns(e, TypeException, e.exception).0
      && a[28] == CrashColumns(e, TypeException, e.exception).1
  {
    ColumnsLayout();
    var x := HeadArgs(s, e, id, formatTime) + ResourceArgs(s.resource);
    var c := CrashArgs(e);
    var r := MiddleArgs(e) + TailArgs(e, mapToString);
    assert |x| == 21 && |c| == 8;
    var a := x + c + r;
    assert a == EventArgs(s, e, id, formatTime, mapToString);
    assert a[23] == c[2] && a[24] == c[3];
    assert a[27] == c[6] && a[28] == c[7];
  }

  /** The crash tuple columns are "[]" unless the event has that type, and the encoded lists when it has. */
  lemma CrashColumnsOnlyForTheirType(e: EventField)
    ensures e.eventType != TypeANR ==> CrashColumns(e, TypeANR, e.anr) == (AStr("[]"), AStr("[]"))
    ensures e.eventType == TypeANR ==>
      CrashColumns(e, TypeANR, e.anr) == (AStr(EncodeExceptionUnits(e.anr.exceptions)), AStr(EncodeThreads(e.anr.threads)))
    ensures e.eventType != TypeException ==> CrashColumns(e, TypeException, e.exception) == (AStr("[]"), AStr("[]"))
    ensures e.eventType == TypeException ==>
      CrashColumns(e, TypeException, e.exception)
      == (AStr(EncodeExceptionUnits(e.exception.exceptions)), AStr(EncodeThreads(e.exception.threads)))
  {}

  lemma EventArgsLength(s: IngestSession, e: EventField, id: string, formatTime: Time -> string,
                        mapToString: map<string, string> -> string)
    ensures |EventArgs(s, e, id, formatTime, mapToString)| == 86
  {}

  /** Rows of 86 arguments each lie one after the other: row i starts at offset 86 * i. */
  lemma {:induction false} FlattenLayout(rows: seq<seq<Arg>>)
    requires forall i :: 0 <= i < |rows| ==> |rows[i]| == 86
    ensures |Flatten(rows)| == 86 * |rows|
    ensures forall j :: 0 <= j < 86 * |rows| ==> Flatten(rows)[j] == rows[j / 86][j % 86]
  {
    if |rows| > 0 {
      var n := |rows| - 1;
      var init := rows[..n];
      FlattenLayout(init);
      var a0 := Flatten(init);
      assert Flatten(rows) == a0 + rows[n];
      forall j | 0 <= j < 86 * |rows| ensures Flatten(rows)[j] == rows[j / 86][j % 86] {
        if j < 86 * n {
          assert rows[j / 86] == init[j / 86];
        } else {
          assert j / 86 == n && j % 86 == j - 86 * n;
        }
      }
    }
  }

  /** The arguments are the rows one after the other: 86 per event, event i's at offset 86 * i. */
  lemma QueryArgsLayout(s: IngestSession, events: seq<EventField>, gen: nat -> string,
                        formatTime: Time -> string, mapToString: map<string, string> -> string)
    ensures |QueryArgs(s, events, gen, formatTime, mapToString)| == 86 * |events|
    ensures forall j :: 0 <= j < 86 * |events| ==>
      QueryArgs(s, events, gen, formatTime, mapToString)[j]
        == EventArgs(s, events[j / 86], gen(j / 86), formatTime, mapToString)[j % 86]
  {
    var rows := seq(|events|, i requires 0 <= i < |events| => EventArgs(s, events[i], gen(i), formatTime, mapToString));
    forall i | 0 <= i < |rows| ensures |rows[i]| == 86 {
      EventArgsLength(s, events[i], gen(i), formatTime, mapToString);
    }
    FlattenLayout(rows);
  }

  lemma SlotHasOneQuestionMark(k: nat)
    ensures Count(Slot(k), '?') == 1
  {
    CountAbsent(")", '?');
    assert Count("?", '?') == 1;
    if IsUuidSlot(k) {
      assert Slot(k) == "toUUID(" + "?" + ")";
      CountAbsent("toUUID(", '?');
      CountConcat("toUUID(", "?", '?');
      CountConcat("toUUID(" + "?", ")", '?');
    }
  }

  /** A row's placeholder group holds one '?' per column. */
  lemma PlaceholderHasOneSlotPerColumn()
    ensures Count(Placeholder(), '?') == |Columns|
  {
    var slots := seq(|Columns|, k requires 0 <= k < |Columns| => Slot(k));
    forall k | 0 <= k < |slots| ensures Count(slots[k], '?') == 1 {
      SlotHasOneQuestionMark(k);
    }
    CountAbsent(",", '?');
    CountAbsent("(", '?');
    CountAbsent(")", '?');
    CountJoin(",", slots, '?');
    CountAllUniform(slots, '?', 1);
    CountConcat("(", Join(",", slots), '?');
    CountConcat("(" + Join(",", slots), ")", '?');
  }

  /** The count of a character over a text built of seven pieces is the sum over the pieces. */
  lemma CountConcatSeven(a: string, b: string, c: string, d: string, e: string, f: string, g: string, ch: char)
    ensures Count(a + b + c + d + e + f + g, ch)
      == Count(a, ch) + Count(b, ch) + Count(c, ch) + Count(d, ch) + Count(e, ch) + Count(f, ch) + Count(g, ch)
  {
    CountConcat(a, b, ch);
    CountConcat(a + b, c, ch);
    CountConcat(a + b + c, d, ch);
    CountConcat(a + b + c + d, e, ch);
    CountConcat(a + b + c + d + e, f, ch);
    CountConcat(a + b + c + d + e + f, g, ch);
  }

  lemma InsertIntoHasNoSlot()
    ensures Count(InsertInto, '?') == 0
  {
    assert InsertInto == "insert" + " into ";
    CountAbsent("insert", '?');
    CountAbsent(" into ", '?');
    CountConcat("insert", " into ", '?');
  }

  lemma ValuesKeywordHasNoSlot()
    ensures Count(ValuesKeyword, '?') == 0
  {
    CountAbsent(ValuesKeyword, '?');
  }

  lemma DelimitersHaveNoSlot()
    ensures Count(ColumnsOpen, '?') == 0 && Count(Terminator, '?') == 0
  {
    CountAbsent(ColumnsOpen, '?');
    CountAbsent(Terminator, '?');
  }

  /** The '?' of the statement are exactly those of the table, the column list and the row list. */
  lemma InsertStatementCount(table: string, columnList: string, rowList: string)
    ensures Count(InsertStatement(table, columnList, rowList), '?')
      == Count(table, '?') + Count(columnList, '?') + Count(rowList, '?')
  {
    InsertIntoHasNoSlot();
    ValuesKeywordHasNoSlot();
    DelimitersHaveNoSlot();
    CountConcatSeven(InsertInto, table, ColumnsOpen, columnList, ValuesKeyword, rowList, Terminator, '?');
  }

  /**
   * The query has exactly as many '?' placeholders as it binds arguments,
   * provided the table and column names contain no '?'.
   */
  lemma PlaceholdersMatchArgs(table: string, columns: seq<string>, s: IngestSession, gen: nat -> string,
                              formatTime: Time -> string, mapToString: map<string, string> -> string)
    requires Count(table, '?') == 0
    requires forall i :: 0 <= i < |columns| ==> Count(columns[i], '?') == 0
    ensures var (query, args) := MakeInsertQuery(table, columns, s, gen, formatTime, mapToString);
      Count(query, '?') == |args| == |Columns| * |s.events|
  {
    ColumnsLayout();
    QueryArgsLayout(s, s.events, gen, formatTime, mapToString);
    PlaceholderHasOneSlotPerColumn();
    CountAbsent(",", '?');
    CountAbsent(", ", '?');
    CountJoin(",", columns, '?');
    CountAllUniform(columns, '?', 0);
    var rows := Repeat(Placeholder(), |s.events|);
    CountJoin(", ", rows, '?');
    CountAllUniform(rows, '?', 86);
    InsertStatementCount(table, Join(",", columns), Join(", ", rows));
  }
}
