/**
 * Names of the memory-trim levels Android reports through
 * `ComponentCallbacks2.onTrimMemory`, as both generations of the SDK's
 * ComponentCallbacksCollector spell them.
 */
module TrimMemoryLevels {
  /** The level values of Android's `ComponentCallbacks2`. */
  const TrimMemoryRunningModerate: int := 5
  const TrimMemoryRunningLow: int := 10
  const TrimMemoryRunningCritical: int := 15
  const TrimMemoryUiHidden: int := 20
  const TrimMemoryBackground: int := 40
  const TrimMemoryModerate: int := 60
  const TrimMemoryComplete: int := 80

  const UnknownLevelName: string := "TRIM_MEMORY_UNKNOWN"

  predicate IsKnownLevel(level: int)
  {
    level in {TrimMemoryUiHidden, TrimMemoryRunningModerate, TrimMemoryRunningLow, TrimMemoryRunningCritical,
              TrimMemoryBackground, TrimMemoryModerate, TrimMemoryComplete}
  }

  /** The `when (level)` of `onTrimMemory`. */
  function TrimLevelName(level: int): string
  {
    if level == TrimMemoryUiHidden then "TRIM_MEMORY_UI_HIDDEN"
    else if level == TrimMemoryRunningModerate then "TRIM_MEMORY_RUNNING_MODERATE"
    else if level == TrimMemoryRunningLow then "TRIM_MEMORY_RUNNING_LOW"
    else if level == TrimMemoryRunningCritical then "TRIM_MEMORY_RUNNING_CRITICAL"
    else if level == TrimMemoryBackground then "TRIM_MEMORY_BACKGROUND"
    else if level == TrimMemoryModerate then "TRIM_MEMORY_MODERATE"
    else if level == TrimMemoryComplete then "TRIM_MEMORY_COMPLETE"
    else UnknownLevelName
  }

  /**
   * Each of the seven known levels gets a name of its own, never the unknown
   * one; every other level, 999 for one, is "TRIM_MEMORY_UNKNOWN".
   */
  lemma TrimLevelNamesDistinguishLevels(a: int, b: int)
    ensures IsKnownLevel(a) <==> TrimLevelName(a) != UnknownLevelName
    ensures IsKnownLevel(a) && IsKnownLevel(b) ==> (TrimLevelName(a) == TrimLevelName(b) <==> a == b)
    ensures TrimLevelName(999) == UnknownLevelName
  {
  }
}
