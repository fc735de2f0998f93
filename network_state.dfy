/**
 * Network attributes of the current SDK
 * (measure-android/.../attributes/NetworkStateAttributeProcessor.kt): a missing
 * reading or a missing part of it is written as `null`.
 */
module NetworkStateAttributes {
  import opened Wrappers
  import opened Attributes

  const UnknownNetworkType: string := "unknown"

  /** The (type, generation, provider name) triple `computeAttributes` derives from one provider reading. */
  function NetworkValues(state: Option<NetworkState>): (Option<string>, Option<string>, Option<string>)
  {
    match state
    case None => (None, None, None)
    case Some(st) => (st.networkType, st.networkGeneration, st.networkProvider)
  }

  /** The caller's map after `appendAttributes` with the provider reporting `state`. */
  function WithNetworkAttributes(m: AttrMap, state: Option<NetworkState>): AttrMap
  {
    var (t, g, p) := NetworkValues(state);
    m[NetworkTypeKey := Nullable(t)][NetworkGenerationKey := Nullable(g)][NetworkProviderNameKey := Nullable(p)]
  }

  class NetworkStateAttributeProcessor {
    var networkType: Option<string>
    var networkGeneration: Option<string>
    var networkProviderName: Option<string>

    constructor()
      ensures networkType == Some(UnknownNetworkType)
      ensures networkGeneration == None && networkProviderName == None
    {
      networkType := Some(UnknownNetworkType);
      networkGeneration := None;
      networkProviderName := None;
    }

    /** Reads the provider afresh: the fields depend on `state` only, not on what they held before. */
    method ComputeAttributes(state: Option<NetworkState>)
      modifies this
      ensures (networkType, networkGeneration, networkProviderName) == NetworkValues(state)
    {
      networkType := if state.Some? then state.value.networkType else None;
      networkGeneration := if state.Some? then state.value.networkGeneration else None;
      networkProviderName := if state.Some? then state.value.networkProvider else None;
    }

    /** Recomputes the three values, then puts them into the caller's map under their keys. */
    method AppendAttributes(attributes: AttributeMap, state: Option<NetworkState>)
      modifies this, attributes
      ensures (networkType, networkGeneration, networkProviderName) == NetworkValues(state)
      ensures attributes.entries == WithNetworkAttributes(old(attributes.entries), state)
    {
      ComputeAttributes(state);
      attributes.Put(NetworkTypeKey, Nullable(networkType));
      attributes.Put(NetworkGenerationKey, Nullable(networkGeneration));
      attributes.Put(NetworkProviderNameKey, Nullable(networkProviderName));
    }
  }

  /**
   * With no reading all three values are written as null, whatever the
   * fields held before (the type field starts out as "unknown").
   */
  lemma NoStateWritesNulls(m: AttrMap)
    ensures WithNetworkAttributes(m, None)[NetworkTypeKey] == Null
    ensures WithNetworkAttributes(m, None)[NetworkGenerationKey] == Null
    ensures WithNetworkAttributes(m, None)[NetworkProviderNameKey] == Null
  {
  }

  /** Exactly the three network keys are written; every other entry of the caller's map is untouched. */
  lemma OnlyNetworkKeysChange(m: AttrMap, state: Option<NetworkState>)
    ensures WithNetworkAttributes(m, state).Keys
      == m.Keys + {NetworkTypeKey, NetworkGenerationKey, NetworkProviderNameKey}
    ensures forall k :: k in m && k != NetworkTypeKey && k != NetworkGenerationKey && k != NetworkProviderNameKey ==>
      WithNetworkAttributes(m, state)[k] == m[k]
  {
  }

  /** A later call overwrites everything an earlier one wrote: the latest reading wins. */
  lemma LatestStateWins(m: AttrMap, earlier: Option<NetworkState>, later: Option<NetworkState>)
    ensures WithNetworkAttributes(WithNetworkAttributes(m, earlier), later) == WithNetworkAttributes(m, later)
  {
  }
}
