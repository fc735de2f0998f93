/**
 * Event attributes: the values an attribute map can hold and the keys the
 * attribute processors write (android/.../attributes/Attribute.kt).
 */
module Attributes {
  import opened Wrappers

  /** Kotlin's `Any?` as stored in an attribute map. */
  datatype AttrValue = Null | Text(s: string) | Flag(b: bool) | Number(n: int)

  type AttrMap = map<string, AttrValue>

  const ThreadNameKey: string := "thread_name"
  const NetworkTypeKey: string := "network_type"
  const NetworkGenerationKey: string := "network_generation"
  const NetworkProviderKey: string := "network_provider"
  /** The key the newer SDK writes the provider under. */
  const NetworkProviderNameKey: string := "network_provider_name"
  const UserIdKey: string := "user_id"

  /** A nullable string as an attribute value: `null` stays `null`. */
  function Nullable(v: Option<string>): (r: AttrValue)
    ensures r == Null <==> v.None?
    ensures v.Some? ==> r == Text(v.value)
  {
    match v
    case None => Null
    case Some(s) => Text(s)
  }

  /** What the network state provider reports; each part may be missing. */
  datatype NetworkState = NetworkState(networkType: Option<string>, networkGeneration: Option<string>,
                                       networkProvider: Option<string>)

  /** Kotlin's `MutableMap<String, Any?>` handed to a processor, which writes into it in place. */
  class AttributeMap {
    var entries: AttrMap

    constructor(initial: AttrMap)
      ensures entries == initial
    {
      entries := initial;
    }

    /** `put(key, value)`: sets one entry and leaves every other key as it was. */
    method Put(key: string, value: AttrValue)
      modifies this
      ensures entries == old(entries)[key := value]
    {
      entries := entries[key := value];
    }
  }
}
