/** Session-replay projections of the launch events (replay/launch.go). */
module ReplayLaunch {
  import opened ReplayInput

  datatype ColdLaunchItem = ColdLaunchItem(
    eventType: string, duration: int, threadName: string, timestamp: Time, attributes: map<string, string>)
  {
    function GetThreadName(): string { threadName }
    function GetTimestamp(): Time { timestamp }
  }

  /** The shape shared by the warm and hot replay items. */
  datatype LaunchItem = LaunchItem(
    eventType: string, duration: int, launchedActivity: string, hasSavedState: bool,
    intentData: string, threadName: string, timestamp: Time, attributes: map<string, string>)
  {
    function GetThreadName(): string { threadName }
    function GetTimestamp(): Time { timestamp }
  }

  /**
   * One cold item per input event, appended in input order. The `Trim` call
   * the source makes on each payload first is not part of this model.
   */
  function ComputeColdLaunches(events: seq<EventField>): (r: seq<ColdLaunchItem>)
    ensures |r| == |events|
    ensures forall i :: 0 <= i < |r| ==>
      r[i].eventType == events[i].eventType && r[i].duration == events[i].coldLaunch.duration &&
      r[i].threadName == events[i].threadName && r[i].timestamp == events[i].timestamp &&
      r[i].attributes == events[i].attributes
  {
    if |events| == 0 then []
    else
      var e := events[|events| - 1];
      ComputeColdLaunches(events[..|events| - 1])
        + [ColdLaunchItem(e.eventType, e.coldLaunch.duration, e.threadName, e.timestamp, e.attributes)]
  }

  /** Copies one warm or hot launch payload into a replay item. */
  function LaunchItemOf(e: EventField, l: Launch): LaunchItem
  {
    LaunchItem(e.eventType, l.duration, l.launchedActivity, l.hasSavedState, l.intentData,
               e.threadName, e.timestamp, e.attributes)
  }

  /** Says `item` copies launch payload `l` and the common fields of `e`. */
  predicate CopiesLaunch(item: LaunchItem, e: EventField, l: Launch)
  {
    item.eventType == e.eventType && item.duration == l.duration &&
    item.launchedActivity == l.launchedActivity && item.hasSavedState == l.hasSavedState &&
    item.intentData == l.intentData && item.threadName == e.threadName &&
    item.timestamp == e.timestamp && item.attributes == e.attributes
  }

  /** One warm item per input event, in input order. */
  function ComputeWarmLaunches(events: seq<EventField>): (r: seq<LaunchItem>)
    ensures |r| == |events|
    ensures forall i :: 0 <= i < |r| ==> CopiesLaunch(r[i], events[i], events[i].warmLaunch)
  {
    if |events| == 0 then []
    else
      var e := events[|events| - 1];
      ComputeWarmLaunches(events[..|events| - 1]) + [LaunchItemOf(e, e.warmLaunch)]
  }

  /** One hot item per input event, in input order. */
  function ComputeHotLaunches(events: seq<EventField>): (r: seq<LaunchItem>)
    ensures |r| == |events|
    ensures forall i :: 0 <= i < |r| ==> CopiesLaunch(r[i], events[i], events[i].hotLaunch)
  {
    if |events| == 0 then []
    else
      var e := events[|events| - 1];
      ComputeHotLaunches(events[..|events| - 1]) + [LaunchItemOf(e, e.hotLaunch)]
  }

  /** The getters of every launch item give back the source event's thread name and timestamp. */
  lemma LaunchGettersReturnStoredFields(events: seq<EventField>, i: nat)
    requires i < |events|
    ensures ComputeColdLaunches(events)[i].GetThreadName() == events[i].threadName
    ensures ComputeColdLaunches(events)[i].GetTimestamp() == events[i].timestamp
    ensures ComputeWarmLaunches(events)[i].GetThreadName() == events[i].threadName
    ensures ComputeWarmLaunches(events)[i].GetTimestamp() == events[i].timestamp
    ensures ComputeHotLaunches(events)[i].GetThreadName() == events[i].threadName
    ensures ComputeHotLaunches(events)[i].GetTimestamp() == events[i].timestamp
  {}

  /** The projections commute with concatenation, so they preserve relative order. */
  lemma {:induction false} ColdLaunchesOfConcat(a: seq<EventField>, b: seq<EventField>)
    ensures ComputeColdLaunches(a + b) == ComputeColdLaunches(a) + ComputeColdLaunches(b)
  {
    if |b| == 0 {
      assert a + b == a;
    } else {
      var b' := b[..|b| - 1];
      assert (a + b)[..|a + b| - 1] == a + b';
      ColdLaunchesOfConcat(a, b');
    }
  }
}
