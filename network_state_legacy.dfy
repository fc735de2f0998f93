/**
 * Network attributes of the first-generation SDK
 * (android/.../attributes/NetworkStateAttributeProcessor.kt): every missing
 * part of the network state falls back to "unknown".
 */
module LegacyNetworkStateAttributes {
  import opened Wrappers
  import opened Attributes

  const UnknownNetworkType: string := "unknown"
  const UnknownNetworkGeneration: string := "unknown"
  const UnknownNetworkProvider: string := "unknown"

  /** The (type, generation, provider) triple `computeAttributes` derives from one provider reading. */
  function NetworkValues(state: Option<NetworkState>): (string, string, string)
  {
    match state
    case None => (UnknownNetworkType, UnknownNetworkGeneration, UnknownNetworkProvider)
    case Some(st) =>
      (st.networkType.GetOr(UnknownNetworkType), st.networkGeneration.GetOr(UnknownNetworkGeneration),
       st.networkProvider.GetOr(UnknownNetworkProvider))
  }

  /** The caller's map after `appendAttributes` with the provider reporting `state`. */
  function WithNetworkAttributes(m: AttrMap, state: Option<NetworkState>): AttrMap
  {
    var (t, g, p) := NetworkValues(state);
    m[NetworkTypeKey := Text(t)][NetworkGenerationKey := Text(g)][NetworkProviderKey := Text(p)]
  }

  class NetworkStateAttributeProcessor {
    var networkType: string
    var networkGeneration: string
    var networkProvider: string

    constructor()
      ensures networkType == UnknownNetworkType && networkGeneration == UnknownNetworkGeneration
      ensures networkProvider == UnknownNetworkProvider
    {
      networkType := UnknownNetworkType;
      networkGeneration := UnknownNetworkGeneration;
      networkProvider := UnknownNetworkProvider;
    }

    /** Reads the provider afresh: the fields depend on `state` only, not on what they held before. */
    method ComputeAttributes(state: Option<NetworkState>)
      modifies this
      ensures (networkType, networkGeneration, networkProvider) == NetworkValues(state)
    {
      networkType := if state.Some? then state.value.networkType.GetOr(UnknownNetworkType) else UnknownNetworkType;
      networkGeneration :=
        if state.Some? then state.value.networkGeneration.GetOr(UnknownNetworkGeneration) else UnknownNetworkGeneration;
      networkProvider :=
        if state.Some? then state.value.networkProvider.GetOr(UnknownNetworkProvider) else UnknownNetworkProvider;
    }

    /** Recomputes the three values, then puts them into the caller's map under their keys. */
    method AppendAttributes(attributes: AttributeMap, state: Option<NetworkState>)
      modifies this, attributes
      ensures (networkType, networkGeneration, networkProvider) == NetworkValues(state)
      ensures attributes.entries == WithNetworkAttributes(old(attributes.entries), state)
    {
      ComputeAttributes(state);
      attributes.Put(NetworkTypeKey, Text(networkType));
      attributes.Put(NetworkGenerationKey, Text(networkGeneration));
      attributes.Put(NetworkProviderKey, Text(networkProvider));
    }
  }

  /** With no reading every value is "unknown"; a reported part is passed through as it is. */
  lemma NetworkValuesFallBackToUnknown(state: Option<NetworkState>)
    ensures state.None? ==> NetworkValues(state) == ("unknown", "unknown", "unknown")
    ensures state.Some? && state.value.networkType.Some? ==> NetworkValues(state).0 == state.value.networkType.value
    ensures state.Some? && state.value.networkType.None? ==> NetworkValues(state).0 == "unknown"
    ensures state.Some? && state.value.networkGeneration.Some? ==>
      NetworkValues(state).1 == state.value.networkGeneration.value
    ensures state.Some? && state.value.networkGeneration.None? ==> NetworkValues(state).1 == "unknown"
    ensures state.Some? && state.value.networkProvider.Some? ==>
      NetworkValues(state).2 == state.value.networkProvider.value
    ensures state.Some? && state.value.networkProvider.None? ==> NetworkValues(state).2 == "unknown"
  {
  }

  /** Exactly the three network keys are written; every other entry of the caller's map is untouched. */
  lemma OnlyNetworkKeysChange(m: AttrMap, state: Option<NetworkState>)
    ensures WithNetworkAttributes(m, state).Keys == m.Keys + {NetworkTypeKey, NetworkGenerationKey, NetworkProviderKey}
    ensures forall k :: k in m && k != NetworkTypeKey && k != NetworkGenerationKey && k != NetworkProviderKey ==>
      WithNetworkAttributes(m, state)[k] == m[k]
    ensures WithNetworkAttributes(m, state)[NetworkTypeKey] == Text(NetworkValues(state).0)
    ensures WithNetworkAttributes(m, state)[NetworkGenerationKey] == Text(NetworkValues(state).1)
    ensures WithNetworkAttributes(m, state)[NetworkProviderKey] == Text(NetworkValues(state).2)
  {
  }

  /** A later call overwrites everything an earlier one wrote: the latest reading wins. */
  lemma LatestStateWins(m: AttrMap, earlier: Option<NetworkState>, later: Option<NetworkState>)
    ensures WithNetworkAttributes(WithNetworkAttributes(m, earlier), later) == WithNetworkAttributes(m, later)
  {
  }
}
