/**
 * The sharded database: a fixed sequence of shards and a hasher. Every
 * operation routes its key to one shard and delegates to that shard.
 */
module Sharded {
  import opened Optional
  import opened Routing
  import opened Shards
  import opened Placement

  class ShardedDatabase {
    /** The hasher that routes keys; fixed for the database's lifetime. */
    const hash: Hasher
    /** The shards, one object each; the sequence never changes length. */
    const shards: seq<Shard>

    /**
     * The object invariant: one shard per index, no two indices sharing a
     * shard object, and every key stored in the shard it routes to.
     */
    ghost predicate Valid()
      reads this, shards
    {
      && |shards| == NUMBER_OF_SHARDS
      && (forall i, j :: 0 <= i < j < |shards| ==> shards[i] != shards[j])
      && Placed(hash, Contents())
    }

    /** The maps the shards hold, in shard order. */
    ghost function Contents(): (s: Layout)
      reads this, shards
      ensures |s| == |shards|
      ensures forall i :: 0 <= i < |shards| ==> s[i] == shards[i].data
    {
      seq(|shards|, i reads shards requires 0 <= i < |shards| => shards[i].data)
    }

    /**
     * Builds a database of independent empty shards routed by `hash`.
     */
    constructor (hash: Hasher)
      ensures Valid()
      ensures this.hash == hash
      ensures fresh(shards)
      ensures Contents() == EmptyLayout()
    {
      this.hash := hash;
      var s0 := new Shard();
      var s1 := new Shard();
      var s2 := new Shard();
      var s3 := new Shard();
      shards := [s0, s1, s2, s3];
      new;
      var empty := EmptyLayout();
      assert Contents() == empty by {
        assert forall i :: 0 <= i < |shards| ==> Contents()[i] == empty[i];
      }
      assert Placed(hash, empty);
    }

    /**
     * The shard `key` routes to. Since every key is stored in its routed
     * shard, no other shard can hold `key`.
     */
    function ShardMut(key: string): (shard: Shard)
      requires Valid()
      reads this, shards
      ensures shard in shards
      ensures forall i :: 0 <= i < |shards| && key in shards[i].data ==> shards[i] == shard
    {
      shards[DetermineShard(hash, key)]
    }

    /** Stores `value` under `key`, silently replacing any earlier value. */
    method Insert(key: string, value: string)
      requires Valid()
      modifies shards[DetermineShard(hash, key)]
      ensures Valid()
      ensures Contents() == Written(hash, old(Contents()), key, value)
    {
      var shard := ShardMut(key);
      shard.Insert(key, value);
      assert Contents() == Written(hash, old(Contents()), key, value);
    }

    /** Reads the value stored under `key`; changes nothing. */
    method Get(key: string) returns (r: Option<string>)
      requires Valid()
      ensures r == Lookup(hash, Contents(), key)
    {
      var shard := ShardMut(key);
      r := shard.Get(key);
    }

    /**
     * Stores `value` under `key` whether or not the key was present, and
     * returns the value it replaced, if any.
     */
    method Update(key: string, value: string) returns (previous: Option<string>)
      requires Valid()
      modifies shards[DetermineShard(hash, key)]
      ensures Valid()
      ensures previous == Lookup(hash, old(Contents()), key)
      ensures Contents() == Written(hash, old(Contents()), key, value)
    {
      var shard := ShardMut(key);
      previous := shard.Update(key, value);
      assert Contents() == Written(hash, old(Contents()), key, value);
    }

    /** Removes `key` and returns the value it held, if any. */
    method Delete(key: string) returns (removed: Option<string>)
      requires Valid()
      modifies shards[DetermineShard(hash, key)]
      ensures Valid()
      ensures removed == Lookup(hash, old(Contents()), key)
      ensures Contents() == Erased(hash, old(Contents()), key)
    {
      var shard := ShardMut(key);
      removed := shard.Delete(key);
      assert Contents() == Erased(hash, old(Contents()), key);
    }
  }
}
