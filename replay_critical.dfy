/** Session-replay projections of exceptions and ANRs (replay/critical.go). */
module ReplayCritical {
  import opened ReplayInput

  datatype ExceptionItem = ExceptionItem(
    eventType: string, title: string, threadName: string, handled: bool, stacktrace: string,
    foreground: bool, timestamp: Time, attachments: seq<Attachment>)
  {
    function GetThreadName(): string { threadName }
    function GetTimestamp(): Time { timestamp }
  }

  datatype ANRItem = ANRItem(
    eventType: string, title: string, threadName: string, stacktrace: string,
    foreground: bool, timestamp: Time, attachments: seq<Attachment>)
  {
    function GetThreadName(): string { threadName }
    function GetTimestamp(): Time { timestamp }
  }

  /**
   * One item per input event, in input order. The payload's title and
   * stack trace are rendered by the event package, passed in as `title`
   * and `stacktrace`.
   */
  function ComputeExceptions(events: seq<EventField>, title: Crash -> string, stacktrace: Crash -> string)
    : (r: seq<ExceptionItem>)
    ensures |r| == |events|
    ensures forall i :: 0 <= i < |r| ==>
      var e := events[i];
      r[i].eventType == e.eventType && r[i].threadName == e.attributeThreadName &&
      r[i].handled == e.exception.handled && r[i].foreground == e.exception.foreground &&
      r[i].timestamp == e.timestamp && r[i].attachments == e.attachments &&
      r[i].title == title(e.exception) && r[i].stacktrace == stacktrace(e.exception)
  {
    if |events| == 0 then []
    else
      var e := events[|events| - 1];
      ComputeExceptions(events[..|events| - 1], title, stacktrace)
        + [ExceptionItem(e.eventType, title(e.exception), e.attributeThreadName, e.exception.handled,
                         stacktrace(e.exception), e.exception.foreground, e.timestamp, e.attachments)]
  }

  /** One item per input event, in input order; like exceptions but without `handled`. */
  function ComputeANRs(events: seq<EventField>, title: Crash -> string, stacktrace: Crash -> string)
    : (r: seq<ANRItem>)
    ensures |r| == |events|
    ensures forall i :: 0 <= i < |r| ==>
      var e := events[i];
      r[i].eventType == e.eventType && r[i].threadName == e.attributeThreadName &&
      r[i].foreground == e.anr.foreground && r[i].timestamp == e.timestamp &&
      r[i].attachments == e.attachments &&
      r[i].title == title(e.anr) && r[i].stacktrace == stacktrace(e.anr)
  {
    if |events| == 0 then []
    else
      var e := events[|events| - 1];
      ComputeANRs(events[..|events| - 1], title, stacktrace)
        + [ANRItem(e.eventType, title(e.anr), e.attributeThreadName, stacktrace(e.anr),
                   e.anr.foreground, e.timestamp, e.attachments)]
  }

  /** The getters give back the thread name taken from the event's attribute and the event's timestamp. */
  lemma CriticalGettersReturnStoredFields(
    events: seq<EventField>, title: Crash -> string, stacktrace: Crash -> string, i: nat)
    requires i < |events|
    ensures ComputeExceptions(events, title, stacktrace)[i].GetThreadName() == events[i].attributeThreadName
    ensures ComputeExceptions(events, title, stacktrace)[i].GetTimestamp() == events[i].timestamp
    ensures ComputeANRs(events, title, stacktrace)[i].GetThreadName() == events[i].attributeThreadName
    ensures ComputeANRs(events, title, stacktrace)[i].GetTimestamp() == events[i].timestamp
  {}
}
