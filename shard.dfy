/** One partition of the store: a key-value map updated in place. */
module Shards {
  import opened Optional

  /** The value a map holds for `key`, or `None` when it holds none. */
  function Find(data: map<string, string>, key: string): Option<string>
  {
    if key in data then Some(data[key]) else None
  }

  /** A shard owns one unordered map from keys to values. */
  class Shard {
    var data: map<string, string>

    /** A new shard holds no entries. */
    constructor ()
      ensures data == map[]
    {
      data := map[];
    }

    /** Stores `value` under `key`, silently replacing any earlier value. */
    method Insert(key: string, value: string)
      modifies this
      ensures data == old(data)[key := value]
    {
      data := data[key := value];
    }

    /** Reads the value stored under `key`; changes nothing. */
    method Get(key: string) returns (r: Option<string>)
      ensures r.Some? <==> key in data
      ensures r.Some? ==> r.value == data[key]
    {
      r := Find(data, key);
    }

    /**
     * Stores `value` under `key` whether or not the key was present, and
     * returns the value it replaced, if any.
     */
    method Update(key: string, value: string) returns (previous: Option<string>)
      modifies this
      ensures previous == Find(old(data), key)
      ensures data == old(data)[key := value]
    {
      previous := Find(data, key);
      data := data[key := value];
    }

    /** Removes `key` and returns the value it held, if any. */
    method Delete(key: string) returns (removed: Option<string>)
      modifies this
      ensures removed == Find(old(data), key)
      ensures data == old(data) - {key}
    {
      removed := Find(data, key);
      data := data - {key};
    }
  }
}
