# measure — a Dafny model of the telemetry SDK's event pipeline and the backend's event checks

measure is a mobile telemetry system. The Android SDK builds events (crashes, ANRs, launches, gestures, network
changes, memory signals, spans) and enriches each one with attributes. It stores them in a local SQLite
database, groups them into batches and exports the batches to the backend as multipart HTTP requests. The Go
backend decodes a session's events, validates every event against its type's rules and caps, and flags sessions
that need symbolication. It encodes and decodes the symbolication payload and writes the events into the
columnar store. It also builds the session-replay views of crashes, launches and network changes.

This project models that core, one Dafny module per source file:

- **SDK pipeline** (`signal_processor.dfy`, `SignalProcessor`). The processor builds an event: fresh id,
  session id, thread name. It then runs the attribute processors in order, applies the transformer's in-place
  edits, and finally stores the event and reports it. The crash path also attaches a screenshot, marks the
  session crashed and exports. The store, session manager and exporter calls are recorded as an ordered log.
- **Attribute processors and callbacks.** These are in `attributes.dfy`, `user_attributes.dfy`,
  `network_state.dfy`, `network_state_legacy.dfy`, `callbacks.dfy`, `callbacks_legacy.dfy` and
  `trim_memory.dfy`. Each is a class over a mutable attribute map or an event log. The two generations of the
  SDK, `android/` and `measure-android/`, are modelled separately where they differ.
- **Local store and exporter** (`local_store.dfy`, `event_exporter.dfy`). The database is a class whose tables
  are sequences. The expected behaviour of every operation comes from its unit tests. The main invariant is that
  every batch row points at a stored event and no (event, batch) pair is stored twice. The exporter turns a batch into a
  request and deletes the exported events only after a delivered response.
- **Network client** (`network_client.dfy`). It builds the multipart body and headers of an export request.
  An exception thrown while sending becomes `UnknownError`; otherwise the HTTP client's response is returned
  unchanged.
- **Event payloads** (`event_json.dfy`, `EventJson`). The JSON envelope the SDK writes for an event, and the
  mapping from event type to payload kind.
- **Backend validation** (`measure_event.dfy`, `measure_session.dfy`). These cover the per-type checks and
  length caps of an event, the stack-trace rendering, and the session queries: unhandled exceptions, ANRs,
  whether symbolication is needed, the country lookup.
- **Symbolication codec** (`symbolication.dfy`). It encodes a session into the symbolicator's flat list of
  strings and decodes the answer back. The main result is a round trip: decoding the encoding gives back the
  events.
- **Ingestion** (`ingest_events.dfy`). This covers request validation and the caps on attachments, the
  encoding of frames, and the column list with its placeholder query. It also covers the argument layout
  written for every event and the way a crash's fields are laid out.
- **Replay** (`replay_critical.dfy`, `replay_launch.dfy`, `replay_network.dfy`). These build the per-type
  replay records: what is copied from the event, and the launch and network durations.

Shared helpers: `wrappers.dfy` (`Option`) and `text.dfy`, which holds the Go string functions the backend uses:
`strings.Join`, `strings.TrimRight`, `strings.TrimPrefix` and `strconv.Itoa`.

## Model

| member | source | states |
|---|---|---|
| Attributes.Nullable | measure-android/measure/src/main/java/sh/measure/android/attributes/UserAttributeProcessor.kt:11-13 | a Kotlin `String?` put into an attribute map: `null` is stored as the null value, any string as that string |
| Attributes.AttributeMap.constructor | measure-android/measure/src/main/java/sh/measure/android/attributes/NetworkStateAttributeProcessor.kt:18 | the mutable map a processor is handed holds the caller's entries |
| Attributes.AttributeMap.Put | measure-android/measure/src/main/java/sh/measure/android/attributes/NetworkStateAttributeProcessor.kt:21-25 | `put(key, value)` sets that key and leaves every other entry as it was |
| UserAttributes.UserAttributeProcessor.constructor | measure-android/measure/src/main/java/sh/measure/android/attributes/UserAttributeProcessor.kt:7-9 | a new processor holds no user id |
| UserAttributes.UserAttributeProcessor.SetUserId | measure-android/measure/src/main/java/sh/measure/android/attributes/UserAttributeProcessor.kt:15-17 | the id set replaces any earlier one |
| UserAttributes.UserAttributeProcessor.AppendAttributes | measure-android/measure/src/main/java/sh/measure/android/attributes/UserAttributeProcessor.kt:11-13 | the caller's map gains "user_id" mapped to the current id, null when none was set |
| UserAttributes.UserIdEntry | measure-android/measure/src/main/java/sh/measure/android/attributes/UserAttributeProcessor.kt:8-13 | the written value is null before any id and the id after; only "user_id" is added or overwritten; writing twice changes nothing more |
| UserAttributes.LastSetWins | measure-android/measure/src/main/java/sh/measure/android/attributes/UserAttributeProcessor.kt:3-17 | a fresh processor writes null; after two `setUserId` calls the map holds the second id |
| NetworkStateAttributes.NetworkStateAttributeProcessor.constructor | measure-android/measure/src/main/java/sh/measure/android/attributes/NetworkStateAttributeProcessor.kt:11-16 | the type starts as "unknown", generation and provider name as null |
| NetworkStateAttributes.NetworkStateAttributeProcessor.ComputeAttributes | measure-android/measure/src/main/java/sh/measure/android/attributes/NetworkStateAttributeProcessor.kt:29-34 | the three fields are the reading's parts, all null with no reading, whatever they held before |
| NetworkStateAttributes.NetworkStateAttributeProcessor.AppendAttributes | measure-android/measure/src/main/java/sh/measure/android/attributes/NetworkStateAttributeProcessor.kt:18-27 | recomputes, then the map gains exactly the three fresh values under type, generation and provider-name keys |
| NetworkStateAttributes.NoStateWritesNulls | measure-android/measure/src/main/java/sh/measure/android/attributes/NetworkStateAttributeProcessor.kt:14-33 | with no reading all three written values are null, not the initial "unknown" |
| NetworkStateAttributes.OnlyNetworkKeysChange | measure-android/measure/src/main/java/sh/measure/android/attributes/NetworkStateAttributeProcessor.kt:21-25 | exactly the three network keys are added; every other entry is untouched |
| NetworkStateAttributes.LatestStateWins | measure-android/measure/src/main/java/sh/measure/android/attributes/NetworkStateAttributeProcessor.kt:7-10 | a later append overwrites everything an earlier one wrote |
| LegacyNetworkStateAttributes.NetworkStateAttributeProcessor.constructor | android/measure/src/main/java/sh/measure/android/attributes/NetworkStateAttributeProcessor.kt:12-17 | all three fields start as "unknown" |
| LegacyNetworkStateAttributes.NetworkStateAttributeProcessor.ComputeAttributes | android/measure/src/main/java/sh/measure/android/attributes/NetworkStateAttributeProcessor.kt:28-33 | each field is the reading's part, or "unknown" when the reading or the part is missing |
| LegacyNetworkStateAttributes.NetworkStateAttributeProcessor.AppendAttributes | android/measure/src/main/java/sh/measure/android/attributes/NetworkStateAttributeProcessor.kt:19-26 | recomputes, then the map gains the three values under type, generation and provider keys |
| LegacyNetworkStateAttributes.NetworkValuesFallBackToUnknown | android/measure/src/main/java/sh/measure/android/attributes/NetworkStateAttributeProcessor.kt:29-32 | no reading gives three "unknown"s; a reported part passes through, a missing one becomes "unknown" |
| LegacyNetworkStateAttributes.OnlyNetworkKeysChange | android/measure/src/main/java/sh/measure/android/attributes/NetworkStateAttributeProcessor.kt:21-25 | only the three network keys change and each holds a string, never null |
| LegacyNetworkStateAttributes.LatestStateWins | android/measure/src/main/java/sh/measure/android/attributes/NetworkStateAttributeProcessor.kt:8-11 | a later append overwrites everything an earlier one wrote |
| TrimMemoryLevels.TrimLevelNamesDistinguishLevels | measure-android/measure/src/main/java/sh/measure/android/performance/ComponentCallbacksCollector.kt:38-47 | the seven known levels get seven distinct names, never the unknown one; every other level (999 for one) is "TRIM_MEMORY_UNKNOWN" |
| TrimMemoryLevels.TrimLevelName | measure-android/measure/src/main/java/sh/measure/android/performance/ComponentCallbacksCollector.kt:38-47 | the `when (level)` mapping; its property (seven distinct names for the seven levels, the unknown name for every other level) is stated by TrimLevelNamesDistinguishLevels |
| ComponentCallbacks.ComponentCallbacksCollector.constructor | measure-android/measure/src/main/java/sh/measure/android/performance/ComponentCallbacksCollector.kt:17-22 | no tracker call has been made |
| ComponentCallbacks.ComponentCallbacksCollector.OnLowMemory | measure-android/measure/src/main/java/sh/measure/android/performance/ComponentCallbacksCollector.kt:28-35 | exactly one low-memory call, stamped with the clock and the thread name |
| ComponentCallbacks.ComponentCallbacksCollector.OnTrimMemory | measure-android/measure/src/main/java/sh/measure/android/performance/ComponentCallbacksCollector.kt:37-54 | exactly one trim-memory call carrying the level's name, the clock and the thread name |
| ComponentCallbacks.ComponentCallbacksCollector.OnConfigurationChanged | measure-android/measure/src/main/java/sh/measure/android/performance/ComponentCallbacksCollector.kt:56-58 | no tracker call |
| ComponentCallbacks.TrimMemoryCopyKeepsLevel | measure-android/measure/src/main/java/sh/measure/android/performance/ComponentCallbacksCollector.kt:48-53 | the `copy` keeps the mapped level and replaces only time and thread; level 999 is reported as unknown |
| LegacyComponentCallbacks.ComponentCallbacksCollector.constructor | android/measure/src/main/java/sh/measure/android/performance/ComponentCallbacksCollector.kt:17-22 | no event has been tracked |
| LegacyComponentCallbacks.ComponentCallbacksCollector.OnLowMemory | android/measure/src/main/java/sh/measure/android/performance/ComponentCallbacksCollector.kt:28-42 | one LOW_MEMORY event whose seven data fields are the memory reader's values |
| LegacyComponentCallbacks.ComponentCallbacksCollector.OnTrimMemory | android/measure/src/main/java/sh/measure/android/performance/ComponentCallbacksCollector.kt:44-60 | one TRIM_MEMORY event carrying the level's name |
| LegacyComponentCallbacks.ComponentCallbacksCollector.OnConfigurationChanged | android/measure/src/main/java/sh/measure/android/performance/ComponentCallbacksCollector.kt:62-64 | nothing is tracked |
| NetworkClient.HandleResponse | android/measure/src/main/java/sh/measure/android/exporter/NetworkClient.kt:113-140 | every response variant is handed back unchanged |
| NetworkClient.ResponseOf | android/measure/src/main/java/sh/measure/android/exporter/NetworkClient.kt:57-64 | an answer is returned as it is; an exception thrown by the HTTP client becomes an UnknownError carrying it |
| NetworkClient.NetworkClientImpl.constructor | android/measure/src/main/java/sh/measure/android/exporter/NetworkClient.kt:18-29 | URL, events URL and key start unset; nothing has been sent |
| NetworkClient.NetworkClientImpl.Init | android/measure/src/main/java/sh/measure/android/exporter/NetworkClient.kt:35-39 | keeps the key and the parsed URL; the events URL exists only when parsing and resolving succeed, so a bad URL leaves the client uninitialized |
| NetworkClient.NetworkClientImpl.Execute | android/measure/src/main/java/sh/measure/android/exporter/NetworkClient.kt:41-65 | uninitialized: UnknownError and no request; otherwise exactly one PUT to the events URL with the batch headers and the multipart body, whose outcome is returned |
| NetworkClient.HeadersCarryBatchAndKey | android/measure/src/main/java/sh/measure/android/exporter/NetworkClient.kt:89-94 | the headers are exactly the request id (the batch id) and the bearer token, from which the key reads back |
| NetworkClient.CreateHeaders | android/measure/src/main/java/sh/measure/android/exporter/NetworkClient.kt:89-94 | the header map; see HeadersCarryBatchAndKey: exactly msr-req-id with the batch id and Authorization with the Bearer token |
| NetworkClient.MapNotNullKeeps | android/measure/src/main/java/sh/measure/android/exporter/NetworkClient.kt:101-106 | `mapNotNull` keeps one result per accepted packet and only results of packets in the input |
| NetworkClient.MultipartLayout | android/measure/src/main/java/sh/measure/android/exporter/NetworkClient.kt:96-111 | the body is the accepted events, then the accepted attachments, then one part per span, in order |
| NetworkClient.PrepareMultipartData | android/measure/src/main/java/sh/measure/android/exporter/NetworkClient.kt:96-111 | the multipart parts; see MultipartLayout (events, then attachments, then spans, with null factory results dropped) and MapNotNullKeeps |
| EventJson.Sink.constructor | measure-android/measure/src/main/java/sh/measure/android/events/Event.kt:42 | the sink starts out empty |
| EventJson.Sink.WriteUtf8 | measure-android/measure/src/main/java/sh/measure/android/events/Event.kt:43-51 | `writeUtf8(s)` appends `s` to what was written |
| EventJson.Write | measure-android/measure/src/main/java/sh/measure/android/events/Event.kt:36-53 | the nine streamed writes append exactly the `toJson` text of the event |
| EventJson.EnvelopeHeadRoundTrip | measure-android/measure/src/main/java/sh/measure/android/events/Event.kt:36-39 | when timestamp and type hold no quote mark, the envelope reads back as the timestamp, the type, the type again as the data key, then data and attributes |
| EventJson.ToJson | measure-android/measure/src/main/java/sh/measure/android/events/Event.kt:36-39 | the JSON envelope; see Write (the streamed writes give the same text) and EnvelopeHeadRoundTrip (timestamp and type read back from it) |
| EventJson.ToEventType | measure-android/measure/src/main/java/sh/measure/android/events/Event.kt:55-215 | each `toEvent` fixes its class's type constant; a `MeasureException` becomes ANR exactly when it is an ANR, else EXCEPTION |
| EventJson.EventTypeDeterminesKind | measure-android/measure/src/main/java/sh/measure/android/events/Event.kt:55-215 | no two signal classes share a type constant |
| EventJson.ToEventTimestamp | measure-android/measure/src/main/java/sh/measure/android/events/Event.kt:55-215 | lifecycle events keep their timestamp text, every other event formats its milliseconds as ISO 8601; the attributes are passed through |
| EventJson.ToEvent | measure-android/measure/src/main/java/sh/measure/android/events/Event.kt:55-215 | the `toEvent` builders; see ToEventType (the type constant of each source class, ANR vs EXCEPTION by isAnr), EventTypeDeterminesKind and ToEventTimestamp |
| IngestEvents.OrBlank | measure-backend/measure-go/events.go:155-173 | an empty frame string is written as the blank marker, any other as it is; the result is never empty |
| IngestEvents.EncodeListShort | measure-backend/measure-go/events.go:177-183 | an empty list encodes as "[]", a single element as itself in brackets |
| IngestEvents.EncodeListAppend | measure-backend/measure-go/events.go:177-183 | each further element follows ", " inside the brackets |
| IngestEvents.FrameOpensOneTuple | measure-backend/measure-go/events.go:155-173 | a frame whose strings hold no '(' encodes as exactly one tuple |
| IngestEvents.FramesOpenOneTuplePerFrame | measure-backend/measure-go/events.go:177-183 | the encoded frame list opens exactly one tuple per frame |
| IngestEvents.EncodeFrame | measure-backend/measure-go/events.go:155-173 | the frame tuple; see OrBlank (empty strings become the blank marker) and FrameOpensOneTuple |
| IngestEvents.EncodeFrames | measure-backend/measure-go/events.go:177-183 | the bracketed frame list; see EncodeListShort, EncodeListAppend and FramesOpenOneTuplePerFrame |
| IngestEvents.EncodeExceptionUnits | measure-backend/measure-go/events.go:191-204 | the bracketed `(type, message, frames)` list; see EncodeListShort and EncodeListAppend |
| IngestEvents.EncodeThreads | measure-backend/measure-go/events.go:211-224 | the bracketed `(name, frames)` list; see EncodeListShort and EncodeListAppend |
| IngestEvents.FirstExceeded | measure-backend/measure-go/events.go:470-528 | no cap is reported exactly when every length is within its maximum; a reported cap is one of the list and over its maximum |
| IngestEvents.ValidateAccepts | measure-backend/measure-go/events.go:392-532 | an event is accepted exactly when its type is one of the twelve, its type's required fields are present, no field exceeds its character cap and it has at most ten attributes |
| IngestEvents.Validate | measure-backend/measure-go/events.go:392-532 | the ingest validator; see ValidateAccepts (accepted exactly when type, required fields, caps and attribute count pass), ValidateRejectsUnknownType, ValidateHttpNeedsIdentity and CapAtMaximumPasses |
| IngestEvents.ValidateRejectsUnknownType | measure-backend/measure-go/events.go:393-396 | a type outside the twelve is rejected as an invalid type before anything else |
| IngestEvents.ValidateHttpNeedsIdentity | measure-backend/measure-go/events.go:440-450 | an HTTP request or response without request id, URL or method is rejected as invalid of its type |
| IngestEvents.ValidatedTypeFits | measure-backend/measure-go/events.go:470-472 | an accepted event's type has at most 32 characters and it has at most ten attributes |
| IngestEvents.CapAtMaximumPasses | measure-backend/measure-go/events.go:470-472 | a cap rejects only lengths strictly over the maximum |
| IngestEvents.ColumnsLayout | measure-backend/measure-go/events.go:57-144 | the table has 86 columns, with id, session id, the two request ids, the four crash columns and attributes at their places |
| IngestEvents.EventArgsLayout | measure-backend/measure-go/events.go:555-643 | one event's row binds 86 arguments: the fresh id, the type, the session id, the request ids and the attributes under their columns |
| IngestEvents.EventArgsCrashLayout | measure-backend/measure-go/events.go:542-643 | the four crash columns of a row carry the ANR's and the exception's encoded lists |
| IngestEvents.CrashColumnsOnlyForTheirType | measure-backend/measure-go/events.go:542-553 | the crash lists are "[]" unless the event has that type, and the encoded exceptions and threads when it has |
| IngestEvents.EventArgsLength | measure-backend/measure-go/events.go:556-643 | every row binds exactly 86 arguments |
| IngestEvents.EventArgs | measure-backend/measure-go/events.go:556-641 | the arguments bound for one event; see EventArgsLayout, EventArgsCrashLayout, CrashColumnsOnlyForTheirType and EventArgsLength |
| IngestEvents.QueryArgsLayout | measure-backend/measure-go/events.go:541-644 | the bound arguments are the rows one after the other, 86 per event, event i's at offset 86 i |
| IngestEvents.PlaceholderHasOneSlotPerColumn | measure-backend/measure-go/events.go:539 | the row placeholder holds one '?' per column |
| IngestEvents.InsertStatementCount | measure-backend/measure-go/events.go:645 | the statement's '?' are exactly those of the table, column list and row list |
| IngestEvents.PlaceholdersMatchArgs | measure-backend/measure-go/events.go:535-649 | the query has exactly as many '?' as it binds arguments, 86 per event, when table and column names hold no '?' |
| IngestEvents.MakeInsertQuery | measure-backend/measure-go/events.go:535-649 | the insert statement and its arguments; see QueryArgsLayout and PlaceholdersMatchArgs (one placeholder per argument, 86 per event) |
| MeasureEvent.FirstViolation | measure-backend/measure-go/measure/event.go:774-872 | no error exactly when no limit of the list is violated |
| MeasureEvent.ValidateCommonChecks | measure-backend/measure-go/measure/event.go:621-632 | an unknown type, then a zero timestamp, then an empty thread name are rejected with their own errors; an accepted event passes all three |
| MeasureEvent.Validate | measure-backend/measure-go/measure/event.go:621-878 | the event validator; see ValidateCommonChecks, ValidateCrashRequirements, ValidateLaunchRequirements, ValidateEnforcesCaps and ValidateRejectsManyAttributes |
| MeasureEvent.RequiredFieldsError | measure-backend/measure-go/measure/event.go:633-772 | the per-type required-field checks; see ValidateCrashRequirements and ValidateLaunchRequirements |
| MeasureEvent.ValidateCrashRequirements | measure-backend/measure-go/measure/event.go:633-644 | an anr or exception event lacking a unit, a thread or a thread name is rejected as invalid; an accepted one has all three |
| MeasureEvent.ValidateLaunchRequirements | measure-backend/measure-go/measure/event.go:693-727 | accepted cold, warm and hot launches have positive uptimes as the validator demands and a non-empty launched activity |
| MeasureEvent.ValidateEnforcesCaps | measure-backend/measure-go/measure/event.go:774-872 | an accepted event is within every `>` limit (type, thread names, attributes, route, http) and avoids exactly the value of each of the eight `==` limits: the three launched activities and the five network-change fields |
| MeasureEvent.AcceptedPassesCapGroups | measure-backend/measure-go/measure/event.go:774-872 | an accepted event violates no limit of any of the four groups |
| MeasureEvent.ValidateRejectsManyAttributes | measure-backend/measure-go/measure/event.go:870-872 | more than ten attributes are never accepted |
| MeasureEvent.OverlongLaunchedActivityAccepted | measure-backend/measure-go/measure/event.go:831-833 | as written, the launched-activity limit rejects only exactly 128 characters: a cold launch with 129 is accepted |
| MeasureEvent.ExactLaunchedActivityRejected | measure-backend/measure-go/measure/event.go:831-833 | the same cold launch with exactly 128 characters is rejected with the launched-activity error |
| MeasureEvent.FrameStringShape | measure-backend/measure-go/measure/event.go:93-111 | a frame renders as "class.method(file:line)", drops the line when it is 0 and the parentheses when file and line are both missing |
| MeasureEvent.FrameString | measure-backend/measure-go/measure/event.go:93-111 | `Frame.String`; see FrameStringShape for the three shapes it renders |
| MeasureEvent.UnitLinesAreFrameLines | measure-backend/measure-go/measure/event.go:162-175 | the unit-by-unit rendering equals the rendering of all frames flattened in order, one prefixed line per frame |
| MeasureEvent.GetType | measure-backend/measure-go/measure/event.go:880-882 | the last unit's type; absent (Go panics) exactly when there is no unit |
| MeasureEvent.GetMessage | measure-backend/measure-go/measure/event.go:884-886 | the last unit's message; absent exactly when there is no unit |
| MeasureEvent.GetLocation | measure-backend/measure-go/measure/event.go:888-891 | the last unit's first frame rendered; absent exactly when there is no unit or it has no frame |
| MeasureEvent.StacktraceOf | measure-backend/measure-go/measure/event.go:162-175 | present exactly when there is a unit: the type line, then one prefixed line per frame of every unit |
| MeasureEvent.Stacktrace | measure-backend/measure-go/measure/event.go:162-175 | the builder loop over units and frames produces exactly `StacktraceOf` |
| MeasureEvent.ExceptionEventAccepted | measure-backend/measure-go/measure/event.go:621-878 | an exception event with a complete payload within its limits is accepted whatever its frames |
| MeasureEvent.GetLocationNotGuardedByValidate | measure-backend/measure-go/measure/event.go:888-891 | validation does not guard `getLocation`: an accepted exception whose last unit has no frames has no location (Go panics) |
| MeasureEvent.ValidatedCrashHasType | measure-backend/measure-go/measure/event.go:633-644 | an accepted exception has a type and a stack trace, an accepted ANR a type and a message |
| MeasureEvent.TrimCrash | measure-backend/measure-go/measure/event.go:154-160 | trimming keeps handled, units, threads and fingerprint, and leaves prefixes of the thread name and device locale |
| MeasureEvent.TrimEventIdempotent | measure-backend/measure-go/measure/event.go:484-491 | trimming twice equals trimming once, never touches the ANR payload, and leaves no trailing NUL on the thread name |
| MeasureEvent.TrimEventRecognisesPaddedException | measure-backend/measure-go/measure/event.go:484-491 | a NUL-padded "exception" type is recognised after trimming, so the exception payload is trimmed too |
| MeasureEvent.TrimEvent | measure-backend/measure-go/measure/event.go:484-491 | `EventField.Trim`; see TrimEventIdempotent and TrimEventRecognisesPaddedException |
| MeasureSession.FirstEventErrorIsEarliest | measure-backend/measure-go/measure/session.go:42-46 | no event error exactly when every event is accepted; otherwise the error is that of the earliest rejected event |
| MeasureSession.FirstAttachmentErrorNone | measure-backend/measure-go/measure/session.go:48-54 | no attachment error exactly when every attachment passes its check |
| MeasureSession.ValidateSessionAccepts | measure-backend/measure-go/measure/session.go:37-57 | a session is accepted exactly when its resource, every event and every attachment are; a bad resource is reported first |
| MeasureSession.ValidateSession | measure-backend/measure-go/measure/session.go:37-57 | the session validator; see ValidateSessionAccepts and FirstEventErrorIsEarliest |
| MeasureSession.HasUnhandledExceptions | measure-backend/measure-go/measure/session.go:63-74 | true exactly when some event is an unhandled exception |
| MeasureSession.HasANRs | measure-backend/measure-go/measure/session.go:76-87 | true exactly when some event is an ANR |
| MeasureSession.SessionNeedsSymbolication | measure-backend/measure-go/measure/session.go:89-139 | true exactly when some event carries something the symbolicator rewrites |
| MeasureSession.GetUnhandledExceptions | measure-backend/measure-go/measure/session.go:185-198 | the loop returns exactly the unhandled exception events, in order |
| MeasureSession.GetANRs | measure-backend/measure-go/measure/session.go:200-210 | the loop returns exactly the ANR events, in order |
| MeasureSession.UnhandledExceptionsExact | measure-backend/measure-go/measure/session.go:185-198 | an event is in the result iff it is in the session and an unhandled exception; the result is empty iff there is none |
| MeasureSession.UnhandledExceptionsOfConcat | measure-backend/measure-go/measure/session.go:185-198 | filtering a concatenation is concatenating the filtered parts (order kept) |
| MeasureSession.ANRsExact | measure-backend/measure-go/measure/session.go:200-210 | an event is in the result iff it is in the session and an ANR; the result is empty iff there is none |
| MeasureSession.ANRsOfConcat | measure-backend/measure-go/measure/session.go:200-210 | filtering a concatenation is concatenating the filtered parts |
| MeasureSession.PredicatesAgreeWithFilters | measure-backend/measure-go/measure/session.go:63-87 | `hasUnhandledExceptions` and `hasANRs` are true exactly when the matching getter returns a non-empty list |
| MeasureSession.LookupCountryDecision | measure-backend/measure-go/measure/session.go:155-183 | the address goes to the v4 field iff it is v4; a failed lookup returns an error and keeps the country; otherwise "bogon", else the answer, else "not available"; nothing else changes |
| MeasureSession.LookupCountry | measure-backend/measure-go/measure/session.go:155-183 | the country decision; see LookupCountryDecision |
| MeasureSymbolication.MarshalFrames | measure-backend/measure-go/measure/session.go:856-858 | one marshalled value per frame, in frame order |
| MeasureSymbolication.EncodeForSymbolication | measure-backend/measure-go/measure/session.go:839-1047 | the loop's units are the session's unit specs, event by event, with the k-th fresh id, and the codec map stores each spec's value under its id |
| MeasureSymbolication.AppendUnits | measure-backend/measure-go/measure/session.go:846-872 | appending one event's specs extends both the unit list and the codec map exactly by those specs |
| MeasureSymbolication.CodecMapHoldsEveryUnit | measure-backend/measure-go/measure/session.go:853-859 | every unit's id is a key of the codec map, and with distinct ids it maps to that unit's value |
| MeasureSymbolication.CodecMapSize | measure-backend/measure-go/measure/session.go:839-1047 | with distinct fresh ids the codec map has exactly one entry per unit |
| MeasureSymbolication.EventSpecsNeedSymbolication | measure-backend/measure-go/measure/session.go:89-139 | an event that `needsSymbolication` would not flag yields no unit |
| MeasureSymbolication.NoSymbolicationNoUnits | measure-backend/measure-go/measure/session.go:89-139 | a session that needs no symbolication yields no units and an empty codec map |
| MeasureSymbolication.UnmarshalFrames | measure-backend/measure-go/measure/session.go:1056-1070 | at most one frame per value, values that fail to parse skipped; each frame keeps only class, line, file and method |
| MeasureSymbolication.SetExceptionFrames | measure-backend/measure-go/measure/session.go:1070 | defined exactly when the event and exception indices are in range (Go panics otherwise); only those frames change |
| MeasureSymbolication.SetThreadFrames | measure-backend/measure-go/measure/session.go:1088 | defined exactly when the event and thread indices are in range; only those frames change |
| MeasureSymbolication.SetExceptionType | measure-backend/measure-go/measure/session.go:1092-1095 | defined exactly when the indices are in range; writing back the same type changes nothing |
| MeasureSymbolication.DecodeFromSymbolication | measure-backend/measure-go/measure/session.go:1049-1169 | the loop applies the units one after the other, exactly as `Decode` does, stopping where Go would panic |
| MeasureSymbolication.ApplyUnitRestores | measure-backend/measure-go/measure/session.go:1050-1168 | one unit that fits the events it is applied to does not panic and changes at most their stack frames |
| MeasureSymbolication.DecodeRestores | measure-backend/measure-go/measure/session.go:1049-1169 | units that all fit the original events decode without panicking and change nothing but stack frames |
| MeasureSymbolication.Decode | measure-backend/measure-go/measure/session.go:1049-1169 | the decoder applied unit by unit; see DecodeFromSymbolication (the loop equals it), DecodeRestores, DecodeWritesAnswer and EncodeDecodeRoundTrip |
| MeasureSymbolication.ApplyCrashUnit | measure-backend/measure-go/measure/session.go:1053-1138 | the exception and ANR branches of the decoder; see SetExceptionFrames, SetThreadFrames, SetExceptionType and ApplyUnitRestores |
| MeasureSymbolication.EventSpecsFit | measure-backend/measure-go/measure/session.go:843-1045 | every unit the encoder emits for an event points back at that event and carries its current values |
| MeasureSymbolication.SessionSpecsFit | measure-backend/measure-go/measure/session.go:839-1047 | every unit of the session fits the session's events |
| MeasureSymbolication.EncodeDecodeRoundTrip | measure-backend/measure-go/measure/session.go:839-1169 | with distinct fresh ids, decoding the encoder's own units never panics and restores every event except possibly its stack frames |
| MeasureSymbolication.DecodeWritesAnswer | measure-backend/measure-go/measure/session.go:1139-1165 | a string unit answered with prefix + v writes v into exactly the field it came from and changes nothing else |
| ReplayCritical.ComputeExceptions | measure-backend/measure-go/replay/critical.go:59-74 | one item per event, in order, each carrying the event's type, title, attribute thread name, handled flag, stack trace, foreground flag, timestamp and attachments |
| ReplayCritical.ComputeANRs | measure-backend/measure-go/replay/critical.go:79-94 | one item per event, in order, carrying the same fields as an exception item except `handled` |
| ReplayCritical.CriticalGettersReturnStoredFields | measure-backend/measure-go/replay/critical.go:21-56 | the thread-name getter gives the event's attribute thread name and the timestamp getter the event's timestamp |
| ReplayLaunch.ComputeColdLaunches | measure-backend/measure-go/replay/launch.go:86-101 | one item per event, in order, with type, duration, thread name, timestamp and attributes |
| ReplayLaunch.ComputeWarmLaunches | measure-backend/measure-go/replay/launch.go:105-121 | one item per event, in order, copying the warm launch payload and the common fields |
| ReplayLaunch.ComputeHotLaunches | measure-backend/measure-go/replay/launch.go:125-141 | one item per event, in order, copying the hot launch payload and the common fields |
| ReplayLaunch.LaunchGettersReturnStoredFields | measure-backend/measure-go/replay/launch.go:22-83 | every launch item's getters give back the event's thread name and timestamp |
| ReplayLaunch.ColdLaunchesOfConcat | measure-backend/measure-go/replay/launch.go:86-101 | the projection commutes with concatenation, so it keeps relative order |
| ReplayNetwork.SubUint64 | measure-backend/measure-go/replay/network.go:79 | Go's unsigned 64-bit subtraction: a 64-bit value congruent to the difference modulo 2^64 |
| ReplayNetwork.ToInt64 | measure-backend/measure-go/replay/network.go:79 | the conversion to `time.Duration`: a signed 64-bit value congruent to its input modulo 2^64 |
| ReplayNetwork.HttpDurationIsDifference | measure-backend/measure-go/replay/network.go:72-79 | the duration is end minus start modulo 2^64, exactly that when it fits in 64 bits, and negative when the end precedes the start |
| ReplayNetwork.HttpDurationOneBefore | measure-backend/measure-go/replay/network.go:72-79 | an end one millisecond before the start wraps to 2^64 - 1 and is reinterpreted as -1 |
| ReplayNetwork.HttpDuration | measure-backend/measure-go/replay/network.go:79 | `time.Duration(endTime - startTime)`; see HttpDurationIsDifference and HttpDurationOneBefore |
| ReplayNetwork.ComputeNetworkChange | measure-backend/measure-go/replay/network.go:54-66 | one item per event, in order, with type, attribute thread name, payload and timestamp |
| ReplayNetwork.ComputeHttp | measure-backend/measure-go/replay/network.go:70-86 | one item per event, in order, with type, attribute thread name, user-triggered flag, payload, timestamp and the wrapped duration |
| ReplayNetwork.NetworkGettersReturnStoredFields | measure-backend/measure-go/replay/network.go:17-51 | the getters give back the attribute's thread name and the event timestamp |
| LocalStore.Database.constructor | measure-android/measure/src/test/java/sh/measure/android/storage/DatabaseTest.kt:32-50 | a new database has four empty tables, which satisfy the table invariant |
| LocalStore.Database.InsertEvent | measure-android/measure/src/test/java/sh/measure/android/storage/DatabaseTest.kt:52-168 | succeeds exactly when the event id and every attachment id are new and distinct; then the event row and one attachment row per attachment are added, otherwise nothing changes |
| LocalStore.Database.InsertBatch | measure-android/measure/src/test/java/sh/measure/android/storage/DatabaseTest.kt:170-257 | succeeds exactly when every id names a stored event and no (event, batch) pair repeats; then one batch row per id is added in order, otherwise nothing changes |
| LocalStore.Database.InsertSingleBatch | measure-android/measure/src/test/java/sh/measure/android/storage/DatabaseTest.kt:209-231 | the single-event overload: succeeds exactly when the event is stored and not yet in that batch, adding one row |
| LocalStore.Database.GetUnBatchedEventsWithAttachmentSize | measure-android/measure/src/test/java/sh/measure/android/storage/DatabaseTest.kt:259-302 | at most `limit` entries, each an event in no batch with its attachment size; below the limit every unbatched event is listed |
| LocalStore.Database.GetEventPackets | measure-android/measure/src/test/java/sh/measure/android/storage/DatabaseTest.kt:304-337 | membership both ways: a packet of a stored event is returned exactly when its id was asked for |
| LocalStore.Database.GetEventPacket | measure-android/measure/src/test/java/sh/measure/android/storage/DatabaseTest.kt:454-472 | present exactly when the id is stored, and then the packet of that event |
| LocalStore.Database.GetAttachmentPackets | measure-android/measure/src/test/java/sh/measure/android/storage/DatabaseTest.kt:339-419 | exactly the packets of the attachment rows of the asked events |
| LocalStore.Database.GetAttachmentPacket | measure-android/measure/src/test/java/sh/measure/android/storage/DatabaseTest.kt:474-500 | exactly the packets of the attachment rows of that one event |
| LocalStore.Database.GetBatches | measure-android/measure/src/test/java/sh/measure/android/storage/DatabaseTest.kt:421-452 | as many batches as the limit allows, each mapped to the ids of its events in insertion order |
| LocalStore.Database.DeleteEvents | measure-android/measure/src/test/java/sh/measure/android/storage/DatabaseTest.kt:502-537 | removes the named events together with their attachment rows and batch rows and nothing else; the invariant holds after |
| LocalStore.Database.DeleteEvent | measure-android/measure/src/test/java/sh/measure/android/storage/DatabaseTest.kt:539-559 | the same for one event id |
| LocalStore.Database.InsertSession | measure-android/measure/src/test/java/sh/measure/android/storage/DatabaseTest.kt:588-609 | succeeds exactly when the session id is new, adding one session row; other tables unchanged |
| LocalStore.Database.DeleteSession | measure-android/measure/src/test/java/sh/measure/android/storage/DatabaseTest.kt:579-586 | removes exactly the sessions with that id |
| LocalStore.Database.ClearOldSessions | measure-android/measure/src/test/java/sh/measure/android/storage/DatabaseTest.kt:561-568 | keeps exactly the sessions created at or after the given time; the `>=` at the boundary is the model's choice |
| LocalStore.Database.GetSessions | measure-android/measure/src/test/java/sh/measure/android/storage/DatabaseTest.kt:561-586 | the sessions table as stored; see InsertSession, DeleteSession and ClearOldSessions |
| LocalStore.Database.GetEventsCount | measure-android/measure/src/test/java/sh/measure/android/exporter/EventExporterTest.kt:54 | the number of stored events; see DeliveredExportEmptiesStore (0) and FailedExportKeepsBatch (1) |
| LocalStore.Database.GetBatchesCount | measure-android/measure/src/test/java/sh/measure/android/exporter/EventExporterTest.kt:55 | the number of distinct batch ids; see BatchIdsInOrder, DeliveredExportEmptiesStore (0) and FailedExportKeepsBatch (1) |
| LocalStore.BatchIdsInOrder | measure-android/measure/src/test/java/sh/measure/android/storage/DatabaseTest.kt:421-452 | the batch ids without repetition, each one that has a row and no other |
| LocalStore.InsertEventKeepsValid | measure-android/measure/src/test/java/sh/measure/android/storage/DatabaseTest.kt:52-168 | a committed event insert keeps the table invariant (unique ids, attachment rows mirror the events, batch rows point at stored events) |
| LocalStore.InsertBatchKeepsValid | measure-android/measure/src/test/java/sh/measure/android/storage/DatabaseTest.kt:170-257 | a committed batch insert keeps the table invariant |
| LocalStore.DeleteEventsKeepsValid | measure-android/measure/src/test/java/sh/measure/android/storage/DatabaseTest.kt:502-559 | deleting events with their attachment and batch rows keeps the table invariant |
| LocalStore.FilterSessionsKeepsValid | measure-android/measure/src/test/java/sh/measure/android/storage/DatabaseTest.kt:561-586 | removing sessions keeps the table invariant |
| LocalStore.InsertSessionKeepsValid | measure-android/measure/src/test/java/sh/measure/android/storage/DatabaseTest.kt:588-609 | adding a new session id keeps the table invariant |
| LocalStore.FilterAllRows | measure-android/measure/src/test/java/sh/measure/android/storage/DatabaseTest.kt:502-537 | selecting the attachment rows of some events equals taking the rows of those events |
| LocalStore.AttachmentRowsBelongToEvents | measure-android/measure/src/test/java/sh/measure/android/storage/DatabaseTest.kt:52-85 | every attachment row belongs to a stored event and carries its id, session id and timestamp |
| LocalStore.EventIdsArePrimaryKey | measure-android/measure/src/test/java/sh/measure/android/storage/DatabaseTest.kt:112-133 | no two stored events share an id |
| LocalStore.AttachmentPacketsFollowEvents | measure-android/measure/src/test/java/sh/measure/android/storage/DatabaseTest.kt:372-419 | the attachment packets of some events are their attachments, events in table order, each event's in list order |
| LocalStore.EventPacketsFollowEvents | measure-android/measure/src/test/java/sh/measure/android/storage/DatabaseTest.kt:304-337 | the i-th packet is the packet of the stored event at a position idx[i], the positions strictly increase, each picked event's id was asked for, and every stored event whose id was asked for is picked: one packet per such event, in table order |
| LocalStore.EventPacketsOfAllStored | measure-android/measure/src/test/java/sh/measure/android/storage/DatabaseTest.kt:304-337 | asking for every stored id gives one packet per stored event, each event's own, in table order, as the test's two packets in insertion order |
| LocalStore.NoAttachmentsNoPackets | measure-android/measure/src/test/java/sh/measure/android/storage/DatabaseTest.kt:339-370 | when no stored event has attachments there is no attachment packet |
| EventExporter.KeySelectsOneRow | measure-android/measure/src/test/java/sh/measure/android/storage/DatabaseTest.kt:112-133 | since event ids are unique, selecting a stored event's id yields exactly that row |
| EventExporter.StoredAttachmentIdsOf | measure-android/measure/src/test/java/sh/measure/android/exporter/EventExporterTest.kt:58-75 | the attachment ids the exporter reads back for a stored event are exactly the ids of its own attachments |
| EventExporter.EventExporterImpl.constructor | measure-android/measure/src/test/java/sh/measure/android/exporter/EventExporterTest.kt:35-43 | the exporter works on the given database and has sent and deleted nothing |
| EventExporter.EventExporterImpl.Export | measure-android/measure/src/test/java/sh/measure/android/exporter/EventExporterTest.kt:45-88 | a batch holding the event is created and sent once, carrying that event's packet and its attachment packets as stored before the export; on delivery the event, its attachment and batch rows and its files (event id and its attachment ids) are deleted; on failure the event and the new batch are kept; a batch that cannot be created sends nothing |
| EventExporter.StoreWithOneEvent | measure-android/measure/src/test/java/sh/measure/android/exporter/EventExporterTest.kt:50 | a fresh database after inserting one event holds exactly that event and no batch |
| EventExporter.DeliveredExportEmptiesStore | measure-android/measure/src/test/java/sh/measure/android/exporter/EventExporterTest.kt:45-75 | after a delivered export the store counts 0 events and 0 batches, and file storage was asked once to delete the event with its attachment ids |
| EventExporter.FailedExportKeepsBatch | measure-android/measure/src/test/java/sh/measure/android/exporter/EventExporterTest.kt:77-88 | after a failed export the store counts 1 event and 1 batch, and no file is deleted |
| SignalProcessor.ScreenshotAttachmentNamed | android/measure/src/main/java/sh/measure/android/events/SignalProcessor.kt:230-243 | the crash screenshot attachment is named "screenshot." followed by the extension and carries the image bytes |
| SignalProcessor.ApplyProcessorsAppend | android/measure/src/main/java/sh/measure/android/events/SignalProcessor.kt:223-228 | running two processor lists in turn is running their concatenation: each processor sees the map the previous one left |
| SignalProcessor.ApplyProcessors | android/measure/src/main/java/sh/measure/android/events/SignalProcessor.kt:223-228 | the processors run in list order; see ApplyProcessorsAppend and ProcessorsKeepUntouchedKey |
| SignalProcessor.ProcessorsKeepUntouchedKey | android/measure/src/main/java/sh/measure/android/events/SignalProcessor.kt:223-228 | an entry written before the processors survives every processor that leaves that key alone |
| SignalProcessor.Absorb | android/measure/src/main/java/sh/measure/android/events/SignalProcessor.kt:125-130 | the transformer's in-place edits to data, attachments and attributes persist; id, session, time and type do not change |
| SignalProcessor.Event.constructor | android/measure/src/main/java/sh/measure/android/events/SignalProcessor.kt:210-220 | the event object holds exactly the values it was created with |
| SignalProcessor.Event.AppendAttribute | android/measure/src/main/java/sh/measure/android/events/SignalProcessor.kt:225 | sets one attribute and changes nothing else of the event |
| SignalProcessor.Event.AppendAttributes | android/measure/src/main/java/sh/measure/android/events/SignalProcessor.kt:226 | the loop leaves the attributes the processors produce, applied in list order; nothing else changes |
| SignalProcessor.Event.AddAttachment | android/measure/src/main/java/sh/measure/android/events/SignalProcessor.kt:234-240 | appends one attachment at the end and changes nothing else |
| SignalProcessor.Event.TakeEdits | android/measure/src/main/java/sh/measure/android/events/SignalProcessor.kt:125-130 | the event object now holds the transformer's edits |
| SignalProcessor.CreatedEvent | android/measure/src/main/java/sh/measure/android/events/SignalProcessor.kt:199-221 | a fresh id from the id provider, the given session id or else the current one, the user-defined attributes |
| SignalProcessor.SignalProcessorImpl.constructor | android/measure/src/main/java/sh/measure/android/events/SignalProcessor.kt:72-84 | the processor keeps its collaborators and has made no call yet |
| SignalProcessor.SignalProcessorImpl.Track | android/measure/src/main/java/sh/measure/android/events/SignalProcessor.kt:99-152 | if the executor accepts and the transformer keeps the event, the edited event is stored and then reported to the session manager; otherwise no call is made and a rejection is swallowed |
| SignalProcessor.SignalProcessorImpl.TrackUserTriggered | android/measure/src/main/java/sh/measure/android/events/SignalProcessor.kt:86-97 | `track` with empty attributes and attachments, no thread name or session id, flagged user-triggered |
| SignalProcessor.SignalProcessorImpl.TrackCrash | android/measure/src/main/java/sh/measure/android/events/SignalProcessor.kt:154-181 | a kept crash event is stored, reported, its session marked crashed and exported, in that order; a dropped one makes no call |
| SignalProcessor.SignalProcessorImpl.TrackSpan | android/measure/src/main/java/sh/measure/android/events/SignalProcessor.kt:183-193 | an accepted span is stored; a rejection reaches the caller |
| SignalProcessor.TrackedEventIdentity | android/measure/src/main/java/sh/measure/android/events/SignalProcessor.kt:109-124 | when every processor leaves "thread_name" alone, the event the transformer sees carries the given thread name or else the current thread's under "thread_name", the fresh id, the resolved session id and the given attachments |
| SignalProcessor.CrashEventIdentity | android/measure/src/main/java/sh/measure/android/events/SignalProcessor.kt:161-173 | on the crash path the thread and session are the current ones, the event is not user-triggered, and the only attachment added is the screenshot when enabled and taken |
| SignalProcessor.UserIdProcessorKeepsThreadName | measure-android/measure/src/main/java/sh/measure/android/attributes/UserAttributeProcessor.kt:11-13 | the user-id processor leaves "thread_name" alone, so the thread name survives it |
| SignalProcessor.LegacyNetworkProcessorKeepsThreadName | android/measure/src/main/java/sh/measure/android/attributes/NetworkStateAttributeProcessor.kt:19-26 | this SDK's network-state processor writes only the three network keys, so it meets the "keeps thread_name" condition of the identity lemmas |
| SignalProcessor.NetworkProcessorKeepsThreadName | measure-android/measure/src/main/java/sh/measure/android/attributes/NetworkStateAttributeProcessor.kt:18-26 | the current SDK's network-state processor also leaves "thread_name" alone |

## Left out

- Concurrency. The SDK's executors are "run now or reject": a submitted task either finishes before the call returns or is rejected. Thread pools, shutdown timing and the backend's goroutines are not modelled.
- I/O and foreign services. These become parameters of the operations that use them: the clock and ISO 8601 formatting, UUID and id generators, the current thread's name, and the screenshot collector. The same holds for the JSON serialisers and `mapToString`, URL parsing, the HTTP client, the multipart part factory, the geo-IP and bogon lookups, and the retrace frame marshaller and unmarshaller. Logging and `InternalTrace` leave no trace in the model.
- Backend storage and transport (ClickHouse, Postgres, S3), the `PutSession` handler, and the exception and ANR fingerprints (JSON marshalling plus simhash) are not part of this model. Of `lookupCountry` only the final country decision is kept.
- A frame round trip through the symbolicator is not claimed, because the retrace frame format is not part of this model. The decode path drops a frame's column number and module name in the source as well.
- MeasureEvent.ValidateEnforcesCaps: Go's `len` counts the bytes of a string. Here a string is a sequence of characters and its length is the character count, so the caps agree with the source only for ASCII text.
- IngestEvents.ValidateAccepts: the length caps count characters rather than bytes, for the same reason.
- MeasureEvent.RequiredFieldsError: gesture coordinates are Go floats. Only their sign is read (`x < 0 || y < 0`), so they are integers here and IEEE details (NaN, negative zero) are not modelled.
- IngestEvents.EventArgsLayout: the gesture coordinates `x`, `y`, `end_x` and `end_y` are Go `float32` values that the ingestion backend writes into the insert. They are integers here, so a fractional coordinate such as 12.5 cannot be represented and float rounding is not modelled.
- IngestEvents.ValidateAccepts: the same integer coordinates are used in the gesture checks.
- MeasureEvent.ValidateLaunchRequirements: states one direction only. An accepted launch event has its required fields; which error a missing field produces is not stated. Errors are modelled as a datatype, not as the text of Go error messages.
- The type of the session and its resource, the validation of the resource and of the attachments in `session.go` are not part of this model. They enter `MeasureSession` as inputs: the result of each check.
- `NewCodecMapVal`, the prefixes `GenericPrefix` and `FramePrefix`, and `joinNonEmptyStrings` are not part of this model. The codec value starts with exception and thread index -1, the prefixes are parameters, and the join keeps only the non-empty parts.
- `Resource.Trim` and the trims of fields other than an event's exception and ANR units are not modelled.
- The local database implementation is not part of this model. Its behaviour follows what the store's unit tests assert: foreign keys from attachments and batch rows to events, deletion cascading to attachments and batch rows, all-or-nothing inserts, batches listed in insertion order and the batch count as the number of distinct batch ids. Two rules are the model's own choices, which the tests do not pin down: an `insertSession` with an id already stored fails and changes nothing, and `clearOldSessions(t)` keeps a session created exactly at `t`. A batch insert fails only for an (event, batch) pair already stored; an event may belong to several batches.
- LocalStore.Database.GetUnBatchedEventsWithAttachmentSize: the limit is a natural number of events. SQLite's treatment of a negative `LIMIT` is not modelled.
- LocalStore.Database.GetBatches: the limit is a natural number of batches, for the same reason.
- Attachment bytes on disk and file storage are not modelled. The exporter's request to file storage is recorded as the list of attachment ids it names.
- EventExporter.EventExporterImpl.Export: the exporter's own implementation is not part of this model. The order (batch, send, then delete or keep) follows what its unit tests assert, and the network client's verdict is a boolean "delivered".
- The `Event<T>` class of the first-generation SDK is not part of this model beyond the calls the signal processor makes on it. Event data payloads are opaque strings.
- SignalProcessor.SignalProcessorImpl.Track: the transformer is a function from the event to its edited copy and a "returned non-null" flag. A transformer that keeps a reference to the event and edits it after returning is not modelled.
- SignalProcessor.SignalProcessorImpl.Track: the caller's `attributes` map and `attachments` list are taken by value here. In the source, `createEvent` hands those very objects to the event, so `applyAttributes` also writes the "thread_name" entry and every processor's keys into the caller's map. This happens later, on the executor thread. That effect on the caller's objects (aliasing) is not modelled; only the event's own contents are.
- SignalProcessor.SignalProcessorImpl.TrackCrash: for the same reason, the caller's map and list are copies here. In the source they also receive the "thread_name" entry, the processor keys and the screenshot attachment added by `addScreenshotAsAttachment`, and the model does not capture that.
- The attribute keys `thread_name`, `network_type`, `network_generation`, `network_provider` and `user_id` are the keys the SDK uses. The current SDK's `network_provider_name` key constant is not part of this model, and its value is assumed to be that string. The screenshot attachment type is assumed to be "screenshot". The SDK's UNKNOWN network value is not part of this model and is assumed to be "unknown", in both SDK generations.
- EventJson.ToEventType: the SDK's `EventType` constants are not part of this model. Each is assumed to be spelled as the backend's type name for that event, so that the event types lie among the types the backend accepts and no two of them coincide (EventJson.EventTypeDeterminesKind) by that assumption, not by anything the SDK shows.
- The numeric values of Android's `TRIM_MEMORY_*` levels are the platform's (5, 10, 15, 20, 40, 60, 80). They are not part of this repository.
- LegacyComponentCallbacks.ComponentCallbacksCollector.OnLowMemory: the memory reader is a parameter, and its readings are copied into the event unchanged.
- Session replay: the payloads the projections pass through unchanged (attachments, intent data, attributes) are opaque strings.
- ReplayLaunch.ComputeColdLaunches: the `event.ColdLaunch.Trim()` call made on each event before it is copied is left out. The `Trim` method belongs to the event package, which is not part of this model. No copied field is derived from it in the model, and any change it makes to the caller's event through the pointer is not captured.
- Out of scope: the public `Measure` singleton, the OkHttp listener plumbing, the platform collectors (gestures, lifecycle, navigation, ANR, unhandled exceptions, iOS launch), the web app, the build scripts and the pure declaration files apart from their key constants.
