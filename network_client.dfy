/**
 * The transport client of the first-generation SDK
 * (android/.../exporter/NetworkClient.kt): it holds the endpoint and API key
 * set by `init`, and turns one batch of packets into one multipart PUT.
 * URL parsing, the HTTP client and the multipart factory are outside this
 * model and appear as the functions the client is built with.
 */
module NetworkClient {
  import opened Wrappers
  import opened Text

  datatype Url = Url(text: string)

  datatype EventPacket = EventPacket(eventId: string, serializedData: string)
  datatype AttachmentPacket = AttachmentPacket(id: string, filePath: string)
  datatype SpanPacket = SpanPacket(spanId: string, serializedData: string)

  /** One part of the multipart body. */
  datatype MultipartData = MultipartData(name: string, content: string)

  datatype HttpResponse =
    | Success
    | RateLimitError
    | ClientError(code: int)
    | ServerError(code: int)
    | UnknownError(cause: string)

  datatype Request = Request(url: string, httpMethod: string, headers: map<string, string>, parts: seq<MultipartData>)

  /** What the HTTP client does with a request: answer, or throw. */
  datatype SendOutcome = Answered(response: HttpResponse) | Threw(exception: string)

  const PathEvents: string := "/events"
  const RequestIdHeader: string := "msr-req-id"
  const AuthorizationHeader: string := "Authorization"
  const BearerPrefix: string := "Bearer "
  const UninitializedMessage: string := "Unable to initialize network client, please check the API_KEY and API_URL"

  /** `createHeaders`. */
  function CreateHeaders(batchId: string, apiKey: string): map<string, string>
  {
    map[RequestIdHeader := batchId, AuthorizationHeader := BearerPrefix + apiKey]
  }

  /** Kotlin's `mapNotNull`: the non-null results, in order. */
  function MapNotNull<T, U>(xs: seq<T>, f: T -> Option<U>): seq<U>
  {
    if |xs| == 0 then []
    else
      var rest := MapNotNull(xs[..|xs| - 1], f);
      match f(xs[|xs| - 1])
      case None => rest
      case Some(u) => rest + [u]
  }

  /** How many elements `f` keeps. */
  function KeptCount<T, U>(xs: seq<T>, f: T -> Option<U>): nat
  {
    if |xs| == 0 then 0
    else KeptCount(xs[..|xs| - 1], f) + (if f(xs[|xs| - 1]).Some? then 1 else 0)
  }

  /** `prepareMultipartData`: events, then attachments, then spans. */
  function PrepareMultipartData(eventPackets: seq<EventPacket>, attachmentPackets: seq<AttachmentPacket>,
                                spanPackets: seq<SpanPacket>,
                                fromEvent: EventPacket -> Option<MultipartData>,
                                fromAttachment: AttachmentPacket -> Option<MultipartData>,
                                fromSpan: SpanPacket -> MultipartData): seq<MultipartData>
  {
    MapNotNull(eventPackets, fromEvent) + MapNotNull(attachmentPackets, fromAttachment)
    + seq(|spanPackets|, i requires 0 <= i < |spanPackets| => fromSpan(spanPackets[i]))
  }

  /** `handleResponse`: every one of the five variants is logged and handed back unchanged. */
  function HandleResponse(response: HttpResponse): (r: HttpResponse)
    ensures r == response
  {
    match response
    case Success => response
    case RateLimitError => response
    case ClientError(_) => response
    case ServerError(_) => response
    case UnknownError(_) => response
  }

  /** The `try`/`catch` around the send: an exception becomes an UnknownError. */
  function ResponseOf(outcome: SendOutcome): (r: HttpResponse)
    ensures outcome.Threw? ==> r == UnknownError(outcome.exception)
    ensures outcome.Answered? ==> r == outcome.response
  {
    match outcome
    case Answered(response) => HandleResponse(response)
    case Threw(e) => UnknownError(e)
  }

  class NetworkClientImpl {
    const parseUrl: string -> Option<Url>
    /** `baseUrl.toURI().resolve("/events").toURL()`, or null when that throws. */
    const resolveEvents: Url -> Option<Url>
    const httpClient: Request -> SendOutcome
    const fromEvent: EventPacket -> Option<MultipartData>
    const fromAttachment: AttachmentPacket -> Option<MultipartData>
    const fromSpan: SpanPacket -> MultipartData

    var baseUrl: Option<Url>
    var eventsUrl: Option<Url>
    var apiKey: Option<string>
    /** The requests handed to the HTTP client so far. */
    var sent: seq<Request>

    constructor(parseUrl: string -> Option<Url>, resolveEvents: Url -> Option<Url>, httpClient: Request -> SendOutcome,
                fromEvent: EventPacket -> Option<MultipartData>,
                fromAttachment: AttachmentPacket -> Option<MultipartData>, fromSpan: SpanPacket -> MultipartData)
      ensures this.parseUrl == parseUrl && this.resolveEvents == resolveEvents && this.httpClient == httpClient
      ensures this.fromEvent == fromEvent && this.fromAttachment == fromAttachment && this.fromSpan == fromSpan
      ensures baseUrl == None && eventsUrl == None && apiKey == None && sent == []
    {
      this.parseUrl := parseUrl;
      this.resolveEvents := resolveEvents;
      this.httpClient := httpClient;
      this.fromEvent := fromEvent;
      this.fromAttachment := fromAttachment;
      this.fromSpan := fromSpan;
      baseUrl := None;
      eventsUrl := None;
      apiKey := None;
      sent := [];
    }

    predicate IsInitialized()
      reads this
    {
      baseUrl.Some? && eventsUrl.Some? && apiKey.Some?
    }

    /** The request `execute` sends once the client is initialized. */
    function RequestFor(batchId: string, eventPackets: seq<EventPacket>, attachmentPackets: seq<AttachmentPacket>,
                        spanPackets: seq<SpanPacket>): Request
      reads this
      requires IsInitialized()
    {
      Request(eventsUrl.value.text, "PUT", CreateHeaders(batchId, apiKey.value),
              PrepareMultipartData(eventPackets, attachmentPackets, spanPackets, fromEvent, fromAttachment, fromSpan))
    }

    /**
     * Keeps the key and whatever the URL parses to; the events URL exists only
     * when both parsing and resolving succeed, so a bad base URL leaves the
     * client uninitialized.
     */
    method Init(baseUrl: string, apiKey: string)
      modifies this
      ensures this.baseUrl == parseUrl(baseUrl) && this.apiKey == Some(apiKey)
      ensures this.eventsUrl == (if this.baseUrl.Some? then resolveEvents(this.baseUrl.value) else None)
      ensures parseUrl(baseUrl).None? ==> !IsInitialized()
      ensures sent == old(sent)
    {
      this.baseUrl := parseUrl(baseUrl);
      this.apiKey := Some(apiKey);
      this.eventsUrl := if this.baseUrl.Some? then resolveEvents(this.baseUrl.value) else None;
    }

    /**
     * Uninitialized: UnknownError and no request. Otherwise exactly one PUT to
     * the events URL, whose outcome is returned as it is, an exception as an
     * UnknownError.
     */
    method Execute(batchId: string, eventPackets: seq<EventPacket>, attachmentPackets: seq<AttachmentPacket>,
                   spanPackets: seq<SpanPacket>)
      returns (response: HttpResponse)
      modifies this
      ensures baseUrl == old(baseUrl) && eventsUrl == old(eventsUrl) && apiKey == old(apiKey)
      ensures !IsInitialized() ==> response == UnknownError(UninitializedMessage) && sent == old(sent)
      ensures IsInitialized() ==>
        var request := RequestFor(batchId, eventPackets, attachmentPackets, spanPackets);
        sent == old(sent) + [request] && response == ResponseOf(httpClient(request))
    {
      if !IsInitialized() {
        return UnknownError(UninitializedMessage);
      }
      var headers := CreateHeaders(batchId, apiKey.value);
      var multipartData :=
        PrepareMultipartData(eventPackets, attachmentPackets, spanPackets, fromEvent, fromAttachment, fromSpan);
      var request := Request(eventsUrl.value.text, "PUT", headers, multipartData);
      sent := sent + [request];
      match httpClient(request)
      case Answered(r) =>
        response := HandleResponse(r);
      case Threw(e) =>
        response := UnknownError(e);
    }
  }

  /** The headers are exactly the request id and the bearer token, and the key can be read back from the token. */
  lemma HeadersCarryBatchAndKey(batchId: string, apiKey: string)
    ensures CreateHeaders(batchId, apiKey).Keys == {RequestIdHeader, AuthorizationHeader}
    ensures CreateHeaders(batchId, apiKey)[RequestIdHeader] == batchId
    ensures TrimPrefix(CreateHeaders(batchId, apiKey)[AuthorizationHeader], BearerPrefix) == apiKey
  {
    TrimPrefixAfterPrefix(BearerPrefix, apiKey);
  }

  /** `mapNotNull` keeps one result per element the factory accepts, in the elements' order. */
  lemma {:induction false} MapNotNullKeeps<T, U>(xs: seq<T>, f: T -> Option<U>)
    ensures |MapNotNull(xs, f)| == KeptCount(xs, f) <= |xs|
    ensures forall u :: u in MapNotNull(xs, f) ==> exists x :: x in xs && f(x) == Some(u)
    ensures forall x :: x in xs && f(x).Some? ==> f(x).value in MapNotNull(xs, f)
  {
    if |xs| > 0 {
      var init := xs[..|xs| - 1];
      var last := xs[|xs| - 1];
      MapNotNullKeeps(init, f);
      assert xs == init + [last];
      forall x | x in xs && f(x).Some? ensures f(x).value in MapNotNull(xs, f) {
        if x != last {
          assert x in init;
        }
      }
      forall u | u in MapNotNull(xs, f) ensures exists x :: x in xs && f(x) == Some(u) {
        if u in MapNotNull(init, f) {
          var x :| x in init && f(x) == Some(u);
          assert x in xs;
        } else {
          assert f(last) == Some(u);
        }
      }
    }
  }

  /**
   * The body lists the accepted events, then the accepted attachments, then
   * every span: its size is the kept events plus the kept attachments plus
   * the number of spans.
   */
  lemma MultipartLayout(eventPackets: seq<EventPacket>, attachmentPackets: seq<AttachmentPacket>,
                        spanPackets: seq<SpanPacket>,
                        fromEvent: EventPacket -> Option<MultipartData>,
                        fromAttachment: AttachmentPacket -> Option<MultipartData>,
                        fromSpan: SpanPacket -> MultipartData)
    ensures var parts := PrepareMultipartData(eventPackets, attachmentPackets, spanPackets, fromEvent, fromAttachment,
                                              fromSpan);
      var e := KeptCount(eventPackets, fromEvent);
      var a := KeptCount(attachmentPackets, fromAttachment);
      |parts| == e + a + |spanPackets|
      && parts[..e] == MapNotNull(eventPackets, fromEvent)
      && parts[e..e + a] == MapNotNull(attachmentPackets, fromAttachment)
      && forall i :: 0 <= i < |spanPackets| ==> parts[e + a + i] == fromSpan(spanPackets[i])
  {
    MapNotNullKeeps(eventPackets, fromEvent);
    MapNotNullKeeps(attachmentPackets, fromAttachment);
  }
}
