/**
 * The user id attribute (measure-android/.../attributes/UserAttributeProcessor.kt):
 * the SDK user sets the id, and every event gets the latest one.
 */
module UserAttributes {
  import opened Wrappers
  import opened Attributes

  /** The caller's map after `appendAttributes` while the processor holds `userId`. */
  function WithUserId(m: AttrMap, userId: Option<string>): AttrMap
  {
    m[UserIdKey := Nullable(userId)]
  }

  class UserAttributeProcessor {
    var userId: Option<string>

    /** No id is set to begin with. */
    constructor()
      ensures userId == None
    {
      userId := None;
    }

    /** Replaces whatever id was set before. */
    method SetUserId(id: string)
      modifies this
      ensures userId == Some(id)
    {
      userId := Some(id);
    }

    /** Writes the current id (null when none was set) under "user_id". */
    method AppendAttributes(attributes: AttributeMap)
      modifies attributes
      ensures attributes.entries == WithUserId(old(attributes.entries), userId)
    {
      attributes.Put(UserIdKey, Nullable(userId));
    }
  }

  /**
   * Before any id is set the written value is null, after `setUserId(u)` it
   * is `u`; only "user_id" changes, overwriting a value already there.
   */
  lemma UserIdEntry(m: AttrMap, userId: Option<string>)
    ensures WithUserId(m, userId)[UserIdKey] == (if userId.Some? then Text(userId.value) else Null)
    ensures WithUserId(m, userId).Keys == m.Keys + {UserIdKey}
    ensures forall k :: k in m && k != UserIdKey ==> WithUserId(m, userId)[k] == m[k]
    ensures WithUserId(WithUserId(m, userId), userId) == WithUserId(m, userId)
  {
  }

  /** The processor's lifecycle: a fresh one writes null; after two `setUserId` calls the last id is written. */
  method LastSetWins(first: string, second: string, attributes: AttributeMap)
    modifies attributes
    ensures attributes.entries == old(attributes.entries)[UserIdKey := Null][UserIdKey := Text(second)]
  {
    var p := new UserAttributeProcessor();
    p.AppendAttributes(attributes);
    p.SetUserId(first);
    p.SetUserId(second);
    p.AppendAttributes(attributes);
  }
}
