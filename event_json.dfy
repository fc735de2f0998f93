/**
 * The event envelope of the current SDK (measure-android/.../events/Event.kt):
 * the JSON text of an event, written either as one string or piece by piece
 * to a sink, and the conversion of each collected signal into an event.
 */
module EventJson {
  import opened Wrappers
  import MeasureEvent

  /** kotlinx's `JsonElement`; its text is produced by a serializer outside this model. */
  datatype JsonElement =
    | JNull
    | JBool(b: bool)
    | JNumber(n: int)
    | JString(s: string)
    | JArray(items: seq<JsonElement>)
    | JObject(members: seq<(string, JsonElement)>)

  datatype Event = Event(timestamp: string, eventType: string, data: JsonElement, attributes: JsonElement)

  /** The fixed pieces of the envelope text, in the order they appear. */
  const Brace: string := "{"
  const TimestampKey: string := "\"timestamp\":\""
  const QuoteComma: string := "\","
  const TypeKey: string := "\"type\":\""
  const Quote: string := "\""
  const QuoteColon: string := "\":"
  const Comma: string := ","
  const AttributesKey: string := "\"attributes\":"
  const CloseBrace: string := "}"
  const Colon: string := ":"

  /**
   * `toJson`: `{"timestamp":"T","type":"Y","Y":D,"attributes":A}`, with `encode`
   * standing for the JSON serializer of the data and the attributes.
   */
  function ToJson(e: Event, encode: JsonElement -> string): string
  {
    Brace + TimestampKey + e.timestamp + QuoteComma + TypeKey + e.eventType + QuoteComma + Quote + e.eventType
    + QuoteColon + encode(e.data) + Comma + AttributesKey + encode(e.attributes) + CloseBrace
  }

  /** okio's `BufferedSink`: what has been written so far. */
  class Sink {
    var written: string

    constructor()
      ensures written == ""
    {
      written := "";
    }

    method WriteUtf8(s: string)
      modifies this
      ensures written == old(written) + s
    {
      written := written + s;
    }
  }

  /** `write`: the same text as `toJson`, emitted in nine steps; JSON values are streamed by the serializer. */
  method Write(e: Event, sink: Sink, encode: JsonElement -> string)
    modifies sink
    ensures sink.written == old(sink.written) + ToJson(e, encode)
  {
    sink.WriteUtf8(Brace);
    sink.WriteUtf8(TimestampKey + e.timestamp + QuoteComma);
    sink.WriteUtf8(TypeKey + e.eventType + QuoteComma);
    sink.WriteUtf8(Quote + e.eventType + QuoteColon);
    sink.WriteUtf8(encode(e.data));
    sink.WriteUtf8(Comma);
    sink.WriteUtf8(AttributesKey);
    sink.WriteUtf8(encode(e.attributes));
    sink.WriteUtf8(CloseBrace);
    WrittenPiecesFormEnvelope(old(sink.written), Brace, TimestampKey, e.timestamp, QuoteComma, TypeKey, e.eventType,
                              Quote, QuoteColon, encode(e.data), Comma, AttributesKey, encode(e.attributes), CloseBrace);
  }

  /** Regrouping the nine writes: they add up to the envelope text after what was already written. */
  lemma WrittenPiecesFormEnvelope(w: string, brace: string, timestampKey: string, ts: string, quoteComma: string,
                                  typeKey: string, ty: string, quote: string, quoteColon: string, data: string,
                                  comma: string, attributesKey: string, attributes: string, closeBrace: string)
    ensures w + brace + (timestampKey + ts + quoteComma) + (typeKey + ty + quoteComma) + (quote + ty + quoteColon)
            + data + comma + attributesKey + attributes + closeBrace
         == w + (brace + timestampKey + ts + quoteComma + typeKey + ty + quoteComma + quote + ty + quoteColon
                 + data + comma + attributesKey + attributes + closeBrace)
  {
  }

  predicate NoQuote(s: string)
  {
    forall i :: 0 <= i < |s| ==> s[i] != '"'
  }

  /** Splits a text at its first quote mark into the part before it and the part after it. */
  function ReadUntilQuote(s: string): (r: Option<(string, string)>)
    ensures r.Some? ==> NoQuote(r.value.0) && s == r.value.0 + Quote + r.value.1
    ensures r.None? ==> NoQuote(s)
  {
    if |s| == 0 then None
    else if s[0] == '"' then Some(("", s[1..]))
    else
      match ReadUntilQuote(s[1..])
      case None => None
      case Some((before, after)) => Some(([s[0]] + before, after))
  }

  /** The text after a fixed prefix, if the text starts with it. */
  function Skip(prefix: string, s: string): (r: Option<string>)
    ensures r.Some? <==> prefix <= s
    ensures r.Some? ==> s == prefix + r.value
  {
    if prefix <= s then Some(s[|prefix|..]) else None
  }

  /**
   * Reads the head of an envelope: the timestamp, the type, the key of the
   * data member, and the text that follows that key's colon.
   */
  function ReadHead(text: string): Option<(string, string, string, string)>
  {
    match Skip(Brace + TimestampKey, text)
    case None => None
    case Some(r0) =>
      match ReadUntilQuote(r0)
      case None => None
      case Some((ts, r1)) =>
        match Skip(Comma + TypeKey, r1)
        case None => None
        case Some(r2) =>
          match ReadUntilQuote(r2)
          case None => None
          case Some((ty, r3)) =>
            match Skip(Comma + Quote, r3)
            case None => None
            case Some(r4) =>
              match ReadUntilQuote(r4)
              case None => None
              case Some((key, r5)) =>
                match Skip(Colon, r5)
                case None => None
                case Some(rest) => Some((ts, ty, key, rest))
  }

  lemma {:induction false} ReadUntilQuoteOf(a: string, b: string)
    requires NoQuote(a)
    ensures ReadUntilQuote(a + Quote + b) == Some((a, b))
  {
    if |a| == 0 {
      assert a + Quote + b == Quote + b;
    } else {
      assert (a + Quote + b)[1..] == a[1..] + Quote + b;
      ReadUntilQuoteOf(a[1..], b);
      assert [a[0]] + a[1..] == a;
    }
  }

  lemma SkipOf(prefix: string, rest: string)
    ensures Skip(prefix, prefix + rest) == Some(rest)
  {
    assert (prefix + rest)[|prefix|..] == rest;
  }

  /** The envelope text regrouped around the places where a reader stops. */
  lemma EnvelopeRegrouped(brace: string, timestampKey: string, ts: string, quote: string, comma: string,
                          typeKey: string, ty: string, colon: string, tail: string)
    ensures brace + timestampKey + ts + (quote + comma) + typeKey + ty + (quote + comma) + quote + ty
            + (quote + colon) + tail
         == (brace + timestampKey)
            + (ts + quote + ((comma + typeKey) + (ty + quote + ((comma + quote) + (ty + quote + (colon + tail))))))
  {
  }

  /**
   * The envelope can be read back: when the timestamp and the type hold no
   * quote mark, the text gives back the timestamp, then the type, then the
   * type again as the key of the data member, then the data and attributes.
   */
  lemma EnvelopeHeadRoundTrip(e: Event, encode: JsonElement -> string)
    requires NoQuote(e.timestamp) && NoQuote(e.eventType)
    ensures ReadHead(ToJson(e, encode))
         == Some((e.timestamp, e.eventType, e.eventType,
                  encode(e.data) + Comma + AttributesKey + encode(e.attributes) + CloseBrace))
  {
    var tail := encode(e.data) + Comma + AttributesKey + encode(e.attributes) + CloseBrace;
    var r5 := Colon + tail;
    var r4 := e.eventType + Quote + r5;
    var r3 := Comma + Quote + r4;
    var r2 := e.eventType + Quote + r3;
    var r1 := Comma + TypeKey + r2;
    var r0 := e.timestamp + Quote + r1;
    assert QuoteComma == Quote + Comma && QuoteColon == Quote + Colon;
    EnvelopeRegrouped(Brace, TimestampKey, e.timestamp, Quote, Comma, TypeKey, e.eventType, Colon, tail);
    assert ToJson(e, encode) == Brace + TimestampKey + r0;
    SkipOf(Brace + TimestampKey, r0);
    ReadUntilQuoteOf(e.timestamp, r1);
    SkipOf(Comma + TypeKey, r2);
    ReadUntilQuoteOf(e.eventType, r3);
    SkipOf(Comma + Quote, r4);
    ReadUntilQuoteOf(e.eventType, r5);
    SkipOf(Colon, tail);
  }

  /** The SDK classes that have a `toEvent`; a `MeasureException` knows whether it is an ANR. */
  datatype SignalKind =
    | MeasureExceptionSignal(isAnr: bool)
    | AppExitSignal
    | ClickSignal
    | LongClickSignal
    | ScrollSignal
    | ApplicationLifecycleSignal
    | ActivityLifecycleSignal
    | FragmentLifecycleSignal
    | ColdLaunchSignal
    | WarmLaunchSignal
    | HotLaunchSignal
    | NetworkChangeSignal
    | HttpSignal
    | MemoryUsageSignal
    | LowMemorySignal
    | TrimMemorySignal
    | CpuUsageSignal
    | NavigationSignal

  /** Lifecycle events carry their timestamp as a string already; the others as milliseconds. */
  datatype Timestamp = EpochMillis(ms: int) | Iso8601(text: string)

  /** A collected signal; `attributes` is its attribute map already as a JSON object. */
  datatype Signal = Signal(kind: SignalKind, timestamp: Timestamp, attributes: JsonElement)

  predicate IsLifecycle(k: SignalKind)
  {
    k.ApplicationLifecycleSignal? || k.ActivityLifecycleSignal? || k.FragmentLifecycleSignal?
  }

  /** The timestamp field has the type its class declares. */
  predicate WellTyped(sig: Signal)
  {
    IsLifecycle(sig.kind) <==> sig.timestamp.Iso8601?
  }

  /** The type constant each `toEvent` fixes. */
  function EventTypeOf(k: SignalKind): string
  {
    match k
    case MeasureExceptionSignal(isAnr) => if isAnr then MeasureEvent.TypeANR else MeasureEvent.TypeException
    case AppExitSignal => MeasureEvent.TypeAppExit
    case ClickSignal => MeasureEvent.TypeGestureClick
    case LongClickSignal => MeasureEvent.TypeGestureLongClick
    case ScrollSignal => MeasureEvent.TypeGestureScroll
    case ApplicationLifecycleSignal => MeasureEvent.TypeLifecycleApp
    case ActivityLifecycleSignal => MeasureEvent.TypeLifecycleActivity
    case FragmentLifecycleSignal => MeasureEvent.TypeLifecycleFragment
    case ColdLaunchSignal => MeasureEvent.TypeColdLaunch
    case WarmLaunchSignal => MeasureEvent.TypeWarmLaunch
    case HotLaunchSignal => MeasureEvent.TypeHotLaunch
    case NetworkChangeSignal => MeasureEvent.TypeNetworkChange
    case HttpSignal => MeasureEvent.TypeHttp
    case MemoryUsageSignal => MeasureEvent.TypeMemoryUsage
    case LowMemorySignal => MeasureEvent.TypeLowMemory
    case TrimMemorySignal => MeasureEvent.TypeTrimMemory
    case CpuUsageSignal => MeasureEvent.TypeCPUUsage
    case NavigationSignal => MeasureEvent.TypeNavigation
  }

  /**
   * `toEvent`: `iso8601` formats epoch milliseconds and `serialize` is the
   * class's JSON serializer, both outside this model.
   */
  function ToEvent(sig: Signal, iso8601: int -> string, serialize: Signal -> JsonElement): Event
    requires WellTyped(sig)
  {
    var timestamp := match sig.timestamp
      case Iso8601(text) => text
      case EpochMillis(ms) => iso8601(ms);
    Event(timestamp, EventTypeOf(sig.kind), serialize(sig), sig.attributes)
  }

  /**
   * A `MeasureException` becomes an ANR event exactly when it is an ANR and an
   * exception event otherwise. With the SDK's `EventType` constants spelled
   * as the backend's type names, every event type is one the backend accepts.
   */
  lemma ToEventType(sig: Signal, iso8601: int -> string, serialize: Signal -> JsonElement)
    requires WellTyped(sig)
    ensures var t := ToEvent(sig, iso8601, serialize).eventType;
      t in MeasureEvent.ValidTypes
      && (sig.kind.MeasureExceptionSignal? ==>
            (t == MeasureEvent.TypeANR <==> sig.kind.isAnr) && (!sig.kind.isAnr ==> t == MeasureEvent.TypeException))
  {
  }

  /** The type of an event names the class it came from: no two classes share one. */
  lemma EventTypeDeterminesKind(a: SignalKind, b: SignalKind)
    ensures EventTypeOf(a) == EventTypeOf(b) <==> a == b
  {
  }

  /** Lifecycle events keep their timestamp text; every other event formats its milliseconds. */
  lemma ToEventTimestamp(sig: Signal, iso8601: int -> string, serialize: Signal -> JsonElement)
    requires WellTyped(sig)
    ensures IsLifecycle(sig.kind) ==> ToEvent(sig, iso8601, serialize).timestamp == sig.timestamp.text
    ensures !IsLifecycle(sig.kind) ==> ToEvent(sig, iso8601, serialize).timestamp == iso8601(sig.timestamp.ms)
    ensures ToEvent(sig, iso8601, serialize).attributes == sig.attributes
  {
  }
}
