/** Session-replay projections of network events (replay/network.go). */
module ReplayNetwork {
  import opened ReplayInput

  const TwoTo63: int := 0x8000_0000_0000_0000
  const TwoTo64: int := 0x1_0000_0000_0000_0000

  predicate IsUint64(x: int) { 0 <= x < TwoTo64 }
  predicate IsInt64(x: int) { -TwoTo63 <= x < TwoTo63 }

  /** Go's unsigned 64-bit subtraction, which wraps modulo 2^64. */
  function SubUint64(a: nat, b: nat): (r: nat)
    requires IsUint64(a) && IsUint64(b)
    ensures IsUint64(r)
    ensures (r - (a - b)) % TwoTo64 == 0
  {
    if a >= b then a - b else a - b + TwoTo64
  }

  /** Go's conversion of a uint64 to the signed 64-bit `time.Duration`: two's complement reinterpretation. */
  function ToInt64(u: nat): (r: int)
    requires IsUint64(u)
    ensures IsInt64(r)
    ensures (r - u) % TwoTo64 == 0
  {
    if u < TwoTo63 then u else u - TwoTo64
  }

  /** `time.Duration(endTime - startTime)` over uint64 timestamps. */
  function HttpDuration(h: Http): int
    requires IsUint64(h.startTime) && IsUint64(h.endTime)
  {
    ToInt64(SubUint64(h.endTime, h.startTime))
  }

  /**
   * The duration is the true difference whenever that difference fits in a
   * signed 64-bit value, negative when the end precedes the start; it is
   * always congruent to the difference modulo 2^64.
   */
  lemma HttpDurationIsDifference(h: Http)
    requires IsUint64(h.startTime) && IsUint64(h.endTime)
    ensures IsInt64(HttpDuration(h))
    ensures (HttpDuration(h) - (h.endTime - h.startTime)) % TwoTo64 == 0
    ensures IsInt64(h.endTime - h.startTime) ==> HttpDuration(h) == h.endTime - h.startTime
    ensures h.endTime < h.startTime && h.startTime - h.endTime <= TwoTo63 ==> HttpDuration(h) < 0
  {}

  /** The wrap is visible: end one millisecond before start gives -1, not a huge positive value. */
  lemma HttpDurationOneBefore(h: Http)
    requires IsUint64(h.startTime) && IsUint64(h.endTime)
    requires h.startTime == h.endTime + 1
    ensures SubUint64(h.endTime, h.startTime) == TwoTo64 - 1
    ensures HttpDuration(h) == -1
  {}

  datatype NetworkChangeItem = NetworkChangeItem(
    eventType: string, threadName: string, networkChange: NetworkChange, timestamp: Time)
  {
    function GetThreadName(): string { threadName }
    function GetTimestamp(): Time { timestamp }
  }

  datatype HttpItem = HttpItem(
    eventType: string, threadName: string, userTriggered: bool, http: Http, duration: int, timestamp: Time)
  {
    function GetThreadName(): string { threadName }
    function GetTimestamp(): Time { timestamp }
  }

  /** One item per input event, in order; the thread name comes from the event's attribute. */
  function ComputeNetworkChange(events: seq<EventField>): (r: seq<NetworkChangeItem>)
    ensures |r| == |events|
    ensures forall i :: 0 <= i < |r| ==>
      r[i].eventType == events[i].eventType && r[i].threadName == events[i].attributeThreadName &&
      r[i].networkChange == events[i].networkChange && r[i].timestamp == events[i].timestamp
  {
    if |events| == 0 then []
    else
      var e := events[|events| - 1];
      ComputeNetworkChange(events[..|events| - 1])
        + [NetworkChangeItem(e.eventType, e.attributeThreadName, e.networkChange, e.timestamp)]
  }

  predicate HttpTimesFit(events: seq<EventField>)
  {
    forall i :: 0 <= i < |events| ==> IsUint64(events[i].http.startTime) && IsUint64(events[i].http.endTime)
  }

  /** One item per input event, in order, with the wrapped duration. */
  function ComputeHttp(events: seq<EventField>): (r: seq<HttpItem>)
    requires HttpTimesFit(events)
    ensures |r| == |events|
    ensures forall i :: 0 <= i < |r| ==>
      r[i].eventType == events[i].eventType && r[i].threadName == events[i].attributeThreadName &&
      r[i].userTriggered == events[i].userTriggered && r[i].http == events[i].http &&
      r[i].timestamp == events[i].timestamp && r[i].duration == HttpDuration(events[i].http)
  {
    if |events| == 0 then []
    else
      var e := events[|events| - 1];
      ComputeHttp(events[..|events| - 1])
        + [HttpItem(e.eventType, e.attributeThreadName, e.userTriggered, e.http, HttpDuration(e.http), e.timestamp)]
  }

  /** The getters give back the attribute's thread name and the event timestamp. */
  lemma NetworkGettersReturnStoredFields(events: seq<EventField>, i: nat)
    requires HttpTimesFit(events)
    requires i < |events|
    ensures ComputeNetworkChange(events)[i].GetThreadName() == events[i].attributeThreadName
    ensures ComputeNetworkChange(events)[i].GetTimestamp() == events[i].timestamp
    ensures ComputeHttp(events)[i].GetThreadName() == events[i].attributeThreadName
    ensures ComputeHttp(events)[i].GetTimestamp() == events[i].timestamp
  {}
}
