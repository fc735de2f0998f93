/**
 * The first-generation component-callbacks collector
 * (android/.../performance/ComponentCallbacksCollector.kt): each memory
 * callback becomes one call to the event processor's `track`.
 */
module LegacyComponentCallbacks {
  import opened TrimMemoryLevels

  /** What the memory reader reports at the time of a low-memory callback. */
  datatype MemoryReading = MemoryReading(freeHeap: int, maxHeap: int, totalHeap: int, nativeFreeHeap: int,
                                         nativeTotalHeap: int, rss: int, totalPss: int)

  datatype TrackedData =
    | LowMemoryData(javaFreeHeap: int, javaMaxHeap: int, javaTotalHeap: int, nativeFreeHeap: int,
                    nativeTotalHeap: int, rss: int, totalPss: int)
    | TrimMemoryData(level: string)

  datatype EventKind = LowMemory | TrimMemory

  /** One `eventProcessor.track(timestamp, type, data)` call. */
  datatype TrackCall = TrackCall(timestamp: int, kind: EventKind, data: TrackedData)

  /** The call `onTrimMemory(level)` makes at time `now`. */
  function TrimMemoryCall(level: int, now: int): TrackCall
  {
    TrackCall(now, TrimMemory, TrimMemoryData(TrimLevelName(level)))
  }

  class ComponentCallbacksCollector {
    /** The calls made to the event processor so far. */
    var tracked: seq<TrackCall>

    constructor()
      ensures tracked == []
    {
      tracked := [];
    }

    /** One LOW_MEMORY call whose data fields are the memory reader's values, at the time provider's `now`. */
    method OnLowMemory(now: int, memory: MemoryReading)
      modifies this
      ensures tracked == old(tracked) + [TrackCall(now, LowMemory,
        LowMemoryData(memory.freeHeap, memory.maxHeap, memory.totalHeap, memory.nativeFreeHeap,
                      memory.nativeTotalHeap, memory.rss, memory.totalPss))]
    {
      var data := LowMemoryData(memory.freeHeap, memory.maxHeap, memory.totalHeap, memory.nativeFreeHeap,
                                memory.nativeTotalHeap, memory.rss, memory.totalPss);
      tracked := tracked + [TrackCall(now, LowMemory, data)];
    }

    /** One TRIM_MEMORY call carrying the level's name. */
    method OnTrimMemory(level: int, now: int)
      modifies this
      ensures tracked == old(tracked) + [TrimMemoryCall(level, now)]
      ensures |tracked| == |old(tracked)| + 1
    {
      var data := TrimMemoryData(TrimLevelName(level));
      tracked := tracked + [TrackCall(now, TrimMemory, data)];
    }

    /** A configuration change is ignored. */
    method OnConfigurationChanged()
      ensures tracked == old(tracked)
    {
    }
  }
}
