/**
 * The database's contents as a value: one map per shard, in shard order.
 * Defines what each database operation does to that value, the placement
 * invariant every database keeps, and the single map that all shards
 * together amount to.
 */
module Placement {
  import opened Optional
  import opened Routing
  import opened Shards

  /** The maps of all shards, indexed by shard number. */
  type Layout = seq<map<string, string>>

  /**
   * The placement invariant: there is one map per shard, and every key is
   * stored in the shard its route names.
   */
  ghost predicate Placed(hash: Hasher, s: Layout)
  {
    && |s| == NUMBER_OF_SHARDS
    && forall i, key :: 0 <= i < |s| && key in s[i] ==> DetermineShard(hash, key) == i
  }

  /** The layout of a freshly built database: every shard empty. */
  function EmptyLayout(): (s: Layout)
    ensures |s| == NUMBER_OF_SHARDS
    ensures forall hash: Hasher :: Placed(hash, s)
    ensures Store(s) == map[]
  {
    var s := seq(NUMBER_OF_SHARDS, _ => map[]);
    EmptyStore(s);
    s
  }

  /** Reading `key`: look it up in the shard it routes to. */
  function Lookup(hash: Hasher, s: Layout, key: string): Option<string>
    requires |s| == NUMBER_OF_SHARDS
  {
    Find(s[DetermineShard(hash, key)], key)
  }

  /**
   * Writing `value` under `key` in the shard the key routes to. Afterwards
   * `key` reads `value`, every other key reads as before, every other shard
   * is untouched, and the placement invariant still holds.
   */
  function Written(hash: Hasher, s: Layout, key: string, value: string): (s': Layout)
    requires |s| == NUMBER_OF_SHARDS
    ensures |s'| == NUMBER_OF_SHARDS
    ensures Lookup(hash, s', key) == Some(value)
    ensures forall k :: k != key ==> Lookup(hash, s', k) == Lookup(hash, s, k)
    ensures forall j :: 0 <= j < NUMBER_OF_SHARDS && j != DetermineShard(hash, key) ==> s'[j] == s[j]
    ensures Placed(hash, s) ==> Placed(hash, s')
  {
    var i := DetermineShard(hash, key);
    s[i := s[i][key := value]]
  }

  /**
   * Removing `key` from the shard it routes to. Afterwards `key` reads
   * nothing, every other key reads as before, every other shard is untouched
   * and the placement invariant still holds; removing an absent key changes
   * nothing at all.
   */
  function Erased(hash: Hasher, s: Layout, key: string): (s': Layout)
    requires |s| == NUMBER_OF_SHARDS
    ensures |s'| == NUMBER_OF_SHARDS
    ensures Lookup(hash, s', key) == None
    ensures forall k :: k != key ==> Lookup(hash, s', k) == Lookup(hash, s, k)
    ensures forall j :: 0 <= j < NUMBER_OF_SHARDS && j != DetermineShard(hash, key) ==> s'[j] == s[j]
    ensures Placed(hash, s) ==> Placed(hash, s')
    ensures Lookup(hash, s, key) == None ==> s' == s
  {
    var i := DetermineShard(hash, key);
    assert key !in s[i] ==> s[i] - {key} == s[i];
    s[i := s[i] - {key}]
  }

  /** All shards' entries together, as one map. */
  function Store(s: Layout): map<string, string>
  {
    if s == [] then map[] else Store(s[..|s| - 1]) + s[|s| - 1]
  }

  /** Shards that are all empty hold nothing together. */
  lemma {:induction false} EmptyStore(s: Layout)
    requires forall i :: 0 <= i < |s| ==> s[i] == map[]
    ensures Store(s) == map[]
  {
    if s != [] {
      EmptyStore(s[..|s| - 1]);
    }
  }

  /** A key is in the whole store exactly when some shard holds it. */
  lemma {:induction false} StoreDomain(s: Layout, key: string)
    ensures key in Store(s) <==> exists j :: 0 <= j < |s| && key in s[j]
  {
    if s != [] {
      var n := |s| - 1;
      StoreDomain(s[..n], key);
      if key in Store(s[..n]) {
        var j :| 0 <= j < n && key in s[..n][j];
        assert key in s[j];
      }
      if j :| 0 <= j < |s| && key in s[j] {
        if j < n {
          assert key in s[..n][j];
        }
      }
    }
  }

  /**
   * When only shard `i` can hold `key`, the whole store reads for `key`
   * whatever shard `i` reads.
   */
  lemma {:induction false} StoreAt(s: Layout, i: nat, key: string)
    requires i < |s|
    requires forall j :: 0 <= j < |s| && j != i ==> key !in s[j]
    ensures Find(Store(s), key) == Find(s[i], key)
  {
    var n := |s| - 1;
    if i == n {
      if key !in s[n] {
        StoreDomain(s[..n], key);
      }
    } else {
      StoreAt(s[..n], i, key);
    }
  }

  /**
   * Under the placement invariant, reading a key from its routed shard gives
   * the same answer as reading it from the union of all shards: the sharded
   * store behaves as one map.
   */
  lemma LookupIsStore(hash: Hasher, s: Layout, key: string)
    requires Placed(hash, s)
    ensures Lookup(hash, s, key) == Find(Store(s), key)
  {
    StoreAt(s, DetermineShard(hash, key), key);
  }

  /** Two maps that read alike for every key are equal. */
  lemma FindExtensional(m1: map<string, string>, m2: map<string, string>)
    requires forall k :: Find(m1, k) == Find(m2, k)
    ensures m1 == m2
  {
    assert forall k :: k in m1 <==> Find(m1, k).Some?;
  }

  /** A write through the router is a map insert on the whole store. */
  lemma StoreWritten(hash: Hasher, s: Layout, key: string, value: string)
    requires Placed(hash, s)
    ensures Store(Written(hash, s, key, value)) == Store(s)[key := value]
  {
    var s' := Written(hash, s, key, value);
    forall k
      ensures Find(Store(s'), k) == Find(Store(s)[key := value], k)
    {
      LookupIsStore(hash, s, k);
      LookupIsStore(hash, s', k);
    }
    FindExtensional(Store(s'), Store(s)[key := value]);
  }

  /** A removal through the router is a key removal from the whole store. */
  lemma StoreErased(hash: Hasher, s: Layout, key: string)
    requires Placed(hash, s)
    ensures Store(Erased(hash, s, key)) == Store(s) - {key}
  {
    var s' := Erased(hash, s, key);
    forall k
      ensures Find(Store(s'), k) == Find(Store(s) - {key}, k)
    {
      LookupIsStore(hash, s, k);
      LookupIsStore(hash, s', k);
    }
    FindExtensional(Store(s'), Store(s) - {key});
  }
}
