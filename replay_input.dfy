/**
 * The shape of the backend's stored event, as the session-replay projections
 * read it. Only the fields those projections copy are kept; the payloads the
 * projections pass through untouched are carried as opaque strings.
 */
module ReplayInput {

  /** Go's `time.Time`, as nanoseconds since the epoch. */
  type Time = int

  datatype Attachment = Attachment(id: string, name: string, kind: string, key: string, location: string)

  datatype ColdLaunch = ColdLaunch(duration: int)

  datatype Launch = Launch(duration: int, launchedActivity: string, hasSavedState: bool, intentData: string)

  /** An exception or ANR payload; `detail` stands for the units and threads. */
  datatype Crash = Crash(handled: bool, foreground: bool, detail: string)

  datatype NetworkChange = NetworkChange(networkType: string, previousNetworkType: string, detail: string)

  /** An HTTP payload; start and end are unsigned 64-bit millisecond counters. */
  datatype Http = Http(url: string, httpMethod: string, startTime: nat, endTime: nat)

  datatype EventField = EventField(
    eventType: string,
    timestamp: Time,
    threadName: string,
    attributeThreadName: string,
    userTriggered: bool,
    attributes: map<string, string>,
    attachments: seq<Attachment>,
    coldLaunch: ColdLaunch,
    warmLaunch: Launch,
    hotLaunch: Launch,
    exception: Crash,
    anr: Crash,
    networkChange: NetworkChange,
    http: Http)
}
