/**
 * Key-to-shard routing: the fixed shard count, the 64-bit digest the hasher
 * produces, and the reduction of a digest to a shard index.
 */
module Routing {

  /** The number of shards a database is split into, fixed at build time. */
  const NUMBER_OF_SHARDS: nat := 4

  /** An unsigned 64-bit integer, the type of a hasher's finished digest. */
  newtype U64 = x: int | 0 <= x < 0x1_0000_0000_0000_0000

  /**
   * The hasher, seen only as a function from a key to its digest: the same
   * key always yields the same digest, and nothing else is assumed of it.
   */
  type Hasher = string -> U64

  /**
   * The shard a key belongs to: its digest reduced modulo the shard count.
   * The result is always a valid index into the shard sequence.
   */
  function DetermineShard(hash: Hasher, key: string): (index: nat)
    ensures index < NUMBER_OF_SHARDS
  {
    hash(key) as int % NUMBER_OF_SHARDS
  }

  /**
   * Routing depends on the key only through its digest: two keys with the
   * same digest (in particular, the same key asked twice) land in one shard.
   */
  lemma SameDigestSameShard(hash: Hasher, k1: string, k2: string)
    requires hash(k1) == hash(k2)
    ensures DetermineShard(hash, k1) == DetermineShard(hash, k2)
  {
  }

  /**
   * The digest is cast to the machine word before the reduction. On a target
   * with a 32-bit word that cast keeps only the low 32 bits; since 2^32 is a
   * multiple of the shard count, the shard index comes out the same.
   */
  lemma TruncatedDigestSameShard(hash: Hasher, key: string)
    ensures (hash(key) as int % 0x1_0000_0000) % NUMBER_OF_SHARDS == DetermineShard(hash, key)
  {
  }
}
