/**
 * The current component-callbacks collector
 * (measure-android/.../performance/ComponentCallbacksCollector.kt): each memory
 * callback becomes one call to the event tracker, stamped with the time
 * provider's clock and the current thread's name.
 */
module ComponentCallbacks {
  import opened TrimMemoryLevels

  datatype LowMemory = LowMemory(timestamp: int, threadName: string)

  /** `TrimMemory(level, timestamp, thread_name)`; the mapping fills the level only, the rest start out empty. */
  datatype TrimMemory = TrimMemory(level: string, timestamp: int, threadName: string)

  datatype TrackerCall = TrackLowMemory(lowMemory: LowMemory) | TrackTrimMemory(trimMemory: TrimMemory)

  /** The data class the `when (level)` builds, before `copy` fills in the time and thread. */
  function MappedTrimMemory(level: int): TrimMemory
  {
    TrimMemory(TrimLevelName(level), 0, "")
  }

  /** The record `onTrimMemory(level)` hands to the tracker. */
  function TrimMemoryRecord(level: int, now: int, threadName: string): TrimMemory
  {
    MappedTrimMemory(level).(timestamp := now, threadName := threadName)
  }

  class ComponentCallbacksCollector {
    /** The calls made to the event tracker so far. */
    var tracked: seq<TrackerCall>

    constructor()
      ensures tracked == []
    {
      tracked := [];
    }

    method OnLowMemory(now: int, threadName: string)
      modifies this
      ensures tracked == old(tracked) + [TrackLowMemory(LowMemory(now, threadName))]
    {
      tracked := tracked + [TrackLowMemory(LowMemory(now, threadName))];
    }

    method OnTrimMemory(level: int, now: int, threadName: string)
      modifies this
      ensures tracked == old(tracked) + [TrackTrimMemory(TrimMemoryRecord(level, now, threadName))]
    {
      var trimMemory := MappedTrimMemory(level);
      tracked := tracked + [TrackTrimMemory(trimMemory.(timestamp := now, threadName := threadName))];
    }

    /** A configuration change makes no tracker call. */
    method OnConfigurationChanged()
      ensures tracked == old(tracked)
    {
    }
  }

  /** The copy keeps the mapped level and replaces only the time and thread name; level 999 is unknown. */
  lemma TrimMemoryCopyKeepsLevel(level: int, now: int, threadName: string)
    ensures TrimMemoryRecord(level, now, threadName).level == MappedTrimMemory(level).level == TrimLevelName(level)
    ensures TrimMemoryRecord(level, now, threadName).timestamp == now
    ensures TrimMemoryRecord(level, now, threadName).threadName == threadName
    ensures TrimMemoryRecord(999, now, threadName) == TrimMemory("TRIM_MEMORY_UNKNOWN", now, threadName)
  {
  }
}
