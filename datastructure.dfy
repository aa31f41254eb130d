/**
 * `State`: an object whose attribute writes and deletions go to a backing
 * dict (`__setattr__`, `__delattr__`), and whose attribute reads fall back
 * to that dict when ordinary attribute lookup finds nothing (`__getattr__`).
 */
module States {
  import opened Base
  import opened Asgi

  datatype AttributeError = AttributeError(message: string)

  /** The message of the `AttributeError` raised for a missing attribute. */
  function NoAttributeMessage(key: string): string
  {
    "'State' object has no attribute '" + key + "'"
  }

  class State {
    var store: map<string, Value>

    /** `State(state=None)`: the given dict, or a new empty one. */
    constructor (state: Option<map<string, Value>>)
      ensures state.None? ==> store == map[]
      ensures state.Some? ==> store == state.value
    {
      if state.None? {
        store := map[];
      } else {
        store := state.value;
      }
    }

    /**
     * `__getattr__(key)`, reached by `state.key` once ordinary lookup has
     * failed: the stored value, or `AttributeError` naming the class and key.
     */
    function GetAttr(key: string): (r: Result<Value, AttributeError>)
      reads this
      ensures r.Ok? <==> key in store
      ensures r.Ok? ==> r.value == store[key]
      ensures r.Err? ==> r.error.message == NoAttributeMessage(key)
    {
      if key in store then Ok(store[key]) else Err(AttributeError(NoAttributeMessage(key)))
    }

    /** `state.key = value`: reads of `key` now give `value`, every other read is as before. */
    method SetAttr(key: string, value: Value)
      modifies this
      ensures store == old(store)[key := value]
      ensures GetAttr(key) == Ok(value)
      ensures forall k :: k != key ==> GetAttr(k) == old(GetAttr(k))
    {
      store := store[key := value];
    }

    /**
     * `del state.key`: removes that key alone, or raises `KeyError` and
     * changes nothing when it is absent.
     */
    method DelAttr(key: string) returns (r: Result<(), KeyError>)
      modifies this
      ensures r.Ok? <==> key in old(store)
      ensures r.Err? ==> r.error == KeyError(key) && store == old(store)
      ensures r.Ok? ==> store == old(store) - {key}
      ensures GetAttr(key).Err?
      ensures forall k :: k != key ==> GetAttr(k) == old(GetAttr(k))
    {
      if key !in store {
        return Err(KeyError(key));
      }
      store := store - {key};
      r := Ok(());
    }
  }

  /** The missing-attribute message embeds the key, so distinct keys give distinct messages. */
  lemma NoAttributeMessageInjective(a: string, b: string)
    ensures NoAttributeMessage(a) == NoAttributeMessage(b) <==> a == b
  {
    var prefix := "'State' object has no attribute '";
    if NoAttributeMessage(a) == NoAttributeMessage(b) {
      var ma, mb := NoAttributeMessage(a), NoAttributeMessage(b);
      assert |a| == |b|;
      assert a == ma[|prefix|..|prefix| + |a|];
      assert b == mb[|prefix|..|prefix| + |b|];
    }
  }
}
