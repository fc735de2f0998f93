/**
 * The SDK's signal pipeline (android/.../events/SignalProcessor.kt): an event
 * is created, given a `thread_name` attribute and the attributes of every
 * attribute processor, handed to the transformer (which may edit it in place
 * or veto it), and then stored and reported to the session manager. The crash
 * path may first attach a screenshot, and afterwards marks the session crashed
 * and exports it.
 *
 * The executor is "run now or reject": a submission either runs to completion
 * before the call returns or is rejected. The id provider, the session
 * manager's current id, the current thread's name, the user-defined attributes
 * and the screenshot collector's result are per-call inputs (`Env`); the
 * store, the session manager and the exception exporter are observed through
 * the ordered list of calls the processor makes on them (`effects`).
 */
module SignalProcessor {
  import opened Wrappers
  import opened Attributes
  import UserAttributes
  import NetworkStateAttributes
  import LegacyNetworkStateAttributes

  datatype Attachment = Attachment(name: string, kind: string, bytes: seq<bv8>)

  datatype Screenshot = Screenshot(data: seq<bv8>, extension: string)

  datatype SpanData = SpanData(name: string, payload: string)

  /** A snapshot of an event: what the store receives. `data` is the serialized payload. */
  datatype EventValue = EventValue(
    id: string,
    sessionId: string,
    timestamp: string,
    eventType: string,
    data: string,
    attachments: seq<Attachment>,
    attributes: AttrMap,
    userTriggered: bool,
    userDefinedAttributes: AttrMap)

  /** One call the processor makes on a collaborator. */
  datatype Effect =
    | Stored(event: EventValue)            // signalStore.store(event)
    | Tracked(eventId: string)             // sessionManager.onEventTracked(event)
    | CrashMarked(sessionId: string)       // sessionManager.markCrashedSession(sessionId)
    | Exported(sessionId: string)          // exceptionExporter.export(sessionId)
    | SpanStored(span: SpanData)           // signalStore.store(spanData)

  /** What the environment supplies to one call. */
  datatype Env = Env(
    accepted: bool,                 // the executor accepts the submission
    currentThread: string,          // Thread.currentThread().name
    newId: string,                  // idProvider.uuid()
    currentSessionId: string,       // sessionManager.getSessionId()
    userDefined: AttrMap,           // userDefinedAttribute.getAll()
    screenshot: Option<Screenshot>) // screenshotCollector.takeScreenshot()

  const ScreenshotPrefix: string := "screenshot."
  /** The attachment type of a crash screenshot. */
  const ScreenshotType: string := "screenshot"

  /** `addScreenshotAsAttachment`'s attachment: named `screenshot.<extension>`, carrying the image bytes. */
  function ScreenshotAttachment(s: Screenshot): Attachment
  {
    Attachment(ScreenshotPrefix + s.extension, ScreenshotType, s.data)
  }

  lemma ScreenshotAttachmentNamed(s: Screenshot)
    ensures ScreenshotAttachment(s).name[..|ScreenshotPrefix|] == ScreenshotPrefix
    ensures ScreenshotAttachment(s).name[|ScreenshotPrefix|..] == s.extension
    ensures ScreenshotAttachment(s).bytes == s.data
  {
  }

  /** Running the attribute processors in list order, each over the map the previous one left. */
  function ApplyProcessors(processors: seq<AttrMap -> AttrMap>, m: AttrMap): AttrMap
  {
    if |processors| == 0 then m
    else processors[|processors| - 1](ApplyProcessors(processors[..|processors| - 1], m))
  }

  lemma {:induction false} ApplyProcessorsAppend(ps: seq<AttrMap -> AttrMap>, qs: seq<AttrMap -> AttrMap>, m: AttrMap)
    ensures ApplyProcessors(ps + qs, m) == ApplyProcessors(qs, ApplyProcessors(ps, m))
    decreases |qs|
  {
    if |qs| == 0 {
      assert ps + qs == ps;
    } else {
      assert (ps + qs)[..|ps + qs| - 1] == ps + qs[..|qs| - 1];
      ApplyProcessorsAppend(ps, qs[..|qs| - 1], m);
    }
  }

  /** A processor that leaves entry `key` as it found it. */
  ghost predicate KeepsKey(p: AttrMap -> AttrMap, key: string)
  {
    forall m: AttrMap :: key in m ==> key in p(m) && p(m)[key] == m[key]
  }

  /** The `thread_name` written before the processors survives every processor that leaves that key alone. */
  lemma {:induction false} ProcessorsKeepUntouchedKey(processors: seq<AttrMap -> AttrMap>, m: AttrMap, key: string)
    requires key in m
    requires forall i :: 0 <= i < |processors| ==> KeepsKey(processors[i], key)
    ensures key in ApplyProcessors(processors, m)
    ensures ApplyProcessors(processors, m)[key] == m[key]
    decreases |processors|
  {
    if |processors| > 0 {
      var init := processors[..|processors| - 1];
      ProcessorsKeepUntouchedKey(init, m, key);
      assert KeepsKey(processors[|processors| - 1], key);
    }
  }

  /** The edits an in-place transformer makes persist; id, session, time and type cannot change. */
  function Absorb(v: EventValue, edited: EventValue): (r: EventValue)
    ensures r.id == v.id && r.sessionId == v.sessionId && r.timestamp == v.timestamp && r.eventType == v.eventType
    ensures r.data == edited.data && r.attachments == edited.attachments && r.attributes == edited.attributes
  {
    v.(data := edited.data, attachments := edited.attachments, attributes := edited.attributes)
  }

  /** `Event<T>`: the event object the pipeline builds and edits in place. */
  class Event {
    const id: string
    const sessionId: string
    const timestamp: string
    const eventType: string
    const userTriggered: bool
    const userDefinedAttributes: AttrMap
    var data: string
    var attachments: seq<Attachment>
    var attributes: AttrMap

    function Value(): EventValue
      reads this
    {
      EventValue(id, sessionId, timestamp, eventType, data, attachments, attributes, userTriggered, userDefinedAttributes)
    }

    constructor (v: EventValue)
      ensures Value() == v
    {
      id, sessionId, timestamp, eventType := v.id, v.sessionId, v.timestamp, v.eventType;
      userTriggered, userDefinedAttributes := v.userTriggered, v.userDefinedAttributes;
      data, attachments, attributes := v.data, v.attachments, v.attributes;
    }

    /** `appendAttribute(key, value)`. */
    method AppendAttribute(key: string, value: AttrValue)
      modifies this
      ensures Value() == old(Value()).(attributes := old(attributes)[key := value])
    {
      attributes := attributes[key := value];
    }

    /** `appendAttributes(processors)`: each processor in turn writes into the attribute map. */
    method AppendAttributes(processors: seq<AttrMap -> AttrMap>)
      modifies this
      ensures Value() == old(Value()).(attributes := ApplyProcessors(processors, old(attributes)))
    {
      var i := 0;
      while i < |processors|
        invariant 0 <= i <= |processors|
        invariant Value() == old(Value()).(attributes := ApplyProcessors(processors[..i], old(attributes)))
      {
        assert processors[..i + 1][..i] == processors[..i];
        attributes := processors[i](attributes);
        i := i + 1;
      }
      assert processors[..i] == processors;
    }

    /** `addAttachment(attachment)`. */
    method AddAttachment(a: Attachment)
      modifies this
      ensures Value() == old(Value()).(attachments := old(attachments) + [a])
    {
      attachments := attachments + [a];
    }

    /** Takes over the edits the transformer made to the object it was handed. */
    method TakeEdits(edited: EventValue)
      modifies this
      ensures Value() == Absorb(old(Value()), edited)
    {
      data, attachments, attributes := edited.data, edited.attachments, edited.attributes;
    }
  }

  /** `createEvent`: a fresh id, the given session id or else the current one, the ISO 8601 time. */
  function CreatedEvent(data: string, timestamp: string, eventType: string, attachments: seq<Attachment>,
                        attributes: AttrMap, userTriggered: bool, sessionId: Option<string>, env: Env): (r: EventValue)
    ensures r.id == env.newId
    ensures r.sessionId == sessionId.GetOr(env.currentSessionId)
    ensures r.userDefinedAttributes == env.userDefined
  {
    EventValue(env.newId, sessionId.GetOr(env.currentSessionId), timestamp, eventType, data, attachments,
               attributes, userTriggered, env.userDefined)
  }

  /** `applyAttributes`: `thread_name` first, then every processor in order. */
  function WithAttributes(v: EventValue, threadName: string, processors: seq<AttrMap -> AttrMap>): EventValue
  {
    v.(attributes := ApplyProcessors(processors, v.attributes[ThreadNameKey := Text(threadName)]))
  }

  /** The screenshot step of the crash path: only when enabled and a screenshot was taken. */
  function WithScreenshot(v: EventValue, enabled: bool, screenshot: Option<Screenshot>): EventValue
  {
    if enabled && screenshot.Some? then v.(attachments := v.attachments + [ScreenshotAttachment(screenshot.value)])
    else v
  }

  class SignalProcessorImpl {
    const attributeProcessors: seq<AttrMap -> AttrMap>
    /** `eventTransformer.transform`: the event after its in-place edits, and whether a non-null event came back. */
    const transform: EventValue -> (EventValue, bool)
    const iso8601: int -> string
    const trackScreenshotOnCrash: bool
    /** The calls made on the store, the session manager and the exporter, in order. */
    var effects: seq<Effect>

    constructor (attributeProcessors: seq<AttrMap -> AttrMap>, transform: EventValue -> (EventValue, bool),
                 iso8601: int -> string, trackScreenshotOnCrash: bool)
      ensures this.attributeProcessors == attributeProcessors && this.transform == transform
      ensures this.iso8601 == iso8601 && this.trackScreenshotOnCrash == trackScreenshotOnCrash
      ensures effects == []
    {
      this.attributeProcessors := attributeProcessors;
      this.transform := transform;
      this.iso8601 := iso8601;
      this.trackScreenshotOnCrash := trackScreenshotOnCrash;
      effects := [];
    }

    /** The event of `track` as the transformer receives it. */
    function Prepared(data: string, timestamp: int, eventType: string, attributes: AttrMap,
                      attachments: seq<Attachment>, threadName: Option<string>, sessionId: Option<string>,
                      userTriggered: bool, env: Env): EventValue
      reads this
    {
      WithAttributes(
        CreatedEvent(data, iso8601(timestamp), eventType, attachments, attributes, userTriggered, sessionId, env),
        threadName.GetOr(env.currentThread), attributeProcessors)
    }

    /** The event of `trackCrash` as the transformer receives it. */
    function PreparedCrash(data: string, timestamp: int, eventType: string, attributes: AttrMap,
                           attachments: seq<Attachment>, env: Env): EventValue
      reads this
    {
      WithAttributes(
        WithScreenshot(CreatedEvent(data, iso8601(timestamp), eventType, attachments, attributes, false, None, env),
                       trackScreenshotOnCrash, env.screenshot),
        env.currentThread, attributeProcessors)
    }

    /**
     * `track`: unless the executor rejects the task, builds the event, applies
     * the attributes, transforms it, and, if the transformer did not veto it,
     * stores it and notifies the session manager. A rejection is logged and
     * swallowed.
     */
    method Track(data: string, timestamp: int, eventType: string, attributes: AttrMap,
                 attachments: seq<Attachment>, threadName: Option<string>, sessionId: Option<string>,
                 userTriggered: bool, env: Env)
      modifies this
      ensures var p := Prepared(data, timestamp, eventType, attributes, attachments, threadName, sessionId, userTriggered, env);
        effects == old(effects) + (if env.accepted && transform(p).1 then [Stored(Absorb(p, transform(p).0)), Tracked(p.id)] else [])
    {
      var resolvedThreadName := threadName.GetOr(env.currentThread);
      if !env.accepted {
        return;
      }
      var event := new Event(CreatedEvent(data, iso8601(timestamp), eventType, attachments, attributes,
                                          userTriggered, sessionId, env));
      event.AppendAttribute(ThreadNameKey, Text(resolvedThreadName));
      event.AppendAttributes(attributeProcessors);
      var t := transform(event.Value());
      event.TakeEdits(t.0);
      if t.1 {
        effects := effects + [Stored(event.Value()), Tracked(event.id)];
      }
    }

    /** `trackUserTriggered`: `track` with no attributes, attachments, thread name or session id, flagged user-triggered. */
    method TrackUserTriggered(data: string, timestamp: int, eventType: string, env: Env)
      modifies this
      ensures var p := Prepared(data, timestamp, eventType, map[], [], None, None, true, env);
        effects == old(effects) + (if env.accepted && transform(p).1 then [Stored(Absorb(p, transform(p).0)), Tracked(p.id)] else [])
    {
      Track(data, timestamp, eventType, map[], [], None, None, true, env);
    }

    /**
     * `trackCrash`: runs on the calling thread; after the optional screenshot
     * and the attributes, a non-vetoed event is stored, reported, its session
     * marked crashed and exported, in that order.
     */
    method TrackCrash(data: string, timestamp: int, eventType: string, attributes: AttrMap,
                      attachments: seq<Attachment>, env: Env)
      modifies this
      ensures var p := PreparedCrash(data, timestamp, eventType, attributes, attachments, env);
        var e := Absorb(p, transform(p).0);
        effects == old(effects) + (if transform(p).1 then [Stored(e), Tracked(e.id), CrashMarked(e.sessionId), Exported(e.sessionId)] else [])
    {
      var threadName := env.currentThread;
      var event := new Event(CreatedEvent(data, iso8601(timestamp), eventType, attachments, attributes,
                                          false, None, env));
      if trackScreenshotOnCrash && env.screenshot.Some? {
        event.AddAttachment(ScreenshotAttachment(env.screenshot.value));
      }
      event.AppendAttribute(ThreadNameKey, Text(threadName));
      event.AppendAttributes(attributeProcessors);
      var t := transform(event.Value());
      event.TakeEdits(t.0);
      if t.1 {
        effects := effects + [Stored(event.Value()), Tracked(event.id), CrashMarked(event.sessionId), Exported(event.sessionId)];
      }
    }

    /** `trackSpan`: stores the span on the executor; a rejection is not caught and reaches the caller. */
    method TrackSpan(span: SpanData, env: Env) returns (rejected: bool)
      modifies this
      ensures rejected == !env.accepted
      ensures effects == old(effects) + (if env.accepted then [SpanStored(span)] else [])
    {
      rejected := !env.accepted;
      if env.accepted {
        effects := effects + [SpanStored(span)];
      }
    }
  }

  /**
   * Every event `track` hands to the transformer carries the resolved thread
   * name under `thread_name` (the given one, else the current thread's),
   * unless a processor overwrites that key, and the resolved session id.
   */
  lemma TrackedEventIdentity(sp: SignalProcessorImpl, data: string, timestamp: int, eventType: string,
                             attributes: AttrMap, attachments: seq<Attachment>, threadName: Option<string>,
                             sessionId: Option<string>, userTriggered: bool, env: Env)
    requires forall i :: 0 <= i < |sp.attributeProcessors| ==> KeepsKey(sp.attributeProcessors[i], ThreadNameKey)
    ensures var p := sp.Prepared(data, timestamp, eventType, attributes, attachments, threadName, sessionId, userTriggered, env);
      && ThreadNameKey in p.attributes
      && p.attributes[ThreadNameKey] == Text(threadName.GetOr(env.currentThread))
      && p.id == env.newId
      && p.sessionId == sessionId.GetOr(env.currentSessionId)
      && p.attachments == attachments
  {
    var created := CreatedEvent(data, sp.iso8601(timestamp), eventType, attachments, attributes, userTriggered, sessionId, env);
    ProcessorsKeepUntouchedKey(sp.attributeProcessors,
                               created.attributes[ThreadNameKey := Text(threadName.GetOr(env.currentThread))], ThreadNameKey);
  }

  /**
   * On the crash path the thread is always the current one, the session the
   * current one, and the only attachment added is the screenshot, when the
   * flag is set and the collector returned one.
   */
  lemma CrashEventIdentity(sp: SignalProcessorImpl, data: string, timestamp: int, eventType: string,
                           attributes: AttrMap, attachments: seq<Attachment>, env: Env)
    requires forall i :: 0 <= i < |sp.attributeProcessors| ==> KeepsKey(sp.attributeProcessors[i], ThreadNameKey)
    ensures var p := sp.PreparedCrash(data, timestamp, eventType, attributes, attachments, env);
      && ThreadNameKey in p.attributes
      && p.attributes[ThreadNameKey] == Text(env.currentThread)
      && p.sessionId == env.currentSessionId
      && !p.userTriggered
      && p.attachments == attachments + (if sp.trackScreenshotOnCrash && env.screenshot.Some?
                                         then [ScreenshotAttachment(env.screenshot.value)] else [])
  {
    var shot := WithScreenshot(CreatedEvent(data, sp.iso8601(timestamp), eventType, attachments, attributes, false, None, env),
                               sp.trackScreenshotOnCrash, env.screenshot);
    ProcessorsKeepUntouchedKey(sp.attributeProcessors, shot.attributes[ThreadNameKey := Text(env.currentThread)], ThreadNameKey);
    if !(sp.trackScreenshotOnCrash && env.screenshot.Some?) {
      assert attachments + [] == attachments;
    }
  }

  /** The user-id processor writes only `user_id`, so it leaves `thread_name` alone. */
  lemma UserIdProcessorKeepsThreadName(userId: Option<string>)
    ensures KeepsKey(m => UserAttributes.WithUserId(m, userId), ThreadNameKey)
  {
    assert UserIdKey != ThreadNameKey by {
      assert UserIdKey[0] != ThreadNameKey[0];
    }
  }
  /** The network-state processor of this SDK writes only the three network keys, so it leaves `thread_name` alone. */
  lemma LegacyNetworkProcessorKeepsThreadName(state: Option<NetworkState>)
    ensures KeepsKey(m => LegacyNetworkStateAttributes.WithNetworkAttributes(m, state), ThreadNameKey)
  {
    assert ThreadNameKey[0] != NetworkTypeKey[0];
    assert ThreadNameKey != NetworkTypeKey && ThreadNameKey != NetworkGenerationKey && ThreadNameKey != NetworkProviderKey;
    forall m: AttrMap | ThreadNameKey in m
      ensures ThreadNameKey in LegacyNetworkStateAttributes.WithNetworkAttributes(m, state)
      ensures LegacyNetworkStateAttributes.WithNetworkAttributes(m, state)[ThreadNameKey] == m[ThreadNameKey]
    {
      LegacyNetworkStateAttributes.OnlyNetworkKeysChange(m, state);
    }
  }

  /** The current SDK's network-state processor also leaves `thread_name` alone. */
  lemma NetworkProcessorKeepsThreadName(state: Option<NetworkState>)
    ensures KeepsKey(m => NetworkStateAttributes.WithNetworkAttributes(m, state), ThreadNameKey)
  {
    assert ThreadNameKey[0] != NetworkTypeKey[0];
    assert ThreadNameKey != NetworkTypeKey && ThreadNameKey != NetworkGenerationKey && ThreadNameKey != NetworkProviderNameKey;
    forall m: AttrMap | ThreadNameKey in m
      ensures ThreadNameKey in NetworkStateAttributes.WithNetworkAttributes(m, state)
      ensures NetworkStateAttributes.WithNetworkAttributes(m, state)[ThreadNameKey] == m[ThreadNameKey]
    {
      NetworkStateAttributes.OnlyNetworkKeysChange(m, state);
    }
  }
}
