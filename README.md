# Sharded key-value store, modelled in Dafny

This project models a small in-memory key-value store whose keyspace is split
across a fixed number of shards (`NUMBER_OF_SHARDS = 4`). Each shard is an
independent map from string keys to string values. The database owns the
shards and routes every operation to exactly one of them. It hashes the key,
reduces the 64-bit digest modulo the shard count, and delegates `insert`,
`get`, `update` or `delete` to the chosen shard.

The model follows the program's structure:

- `routing.dfy` (module `Routing`) holds the shard count, the 64-bit digest
  type and `DetermineShard`. The hasher is a parameter of type
  `string -> U64`. Being a function, it always maps a key to the same digest.
- `shard.dfy` (module `Shards`) holds the class `Shard`, with its `data` map
  updated in place by `Insert`, `Update` and `Delete`.
- `placement.dfy` (module `Placement`) describes the database's contents as a
  value: the sequence of the shards' maps. It defines what a routed write
  (`Written`), a routed removal (`Erased`) and a routed read (`Lookup`) do to
  that value. It also defines the placement invariant `Placed`: every key
  sits in the shard its route names. `Store` is the union of all shards.
  The lemmas `LookupIsStore`, `StoreWritten` and `StoreErased` prove that,
  under the placement invariant, the sharded store behaves exactly like one
  map: a routed read is a map lookup, a routed write is a map insert and a
  routed removal is a key removal.
- `database.dfy` (module `Sharded`) holds the class `ShardedDatabase`. It has
  a constant sequence of four distinct `Shard` objects and the hasher.
  `Valid()` is its object invariant and `Contents()` is its abstract value.
  Each mutating method may modify only the shard the key routes to
  (`modifies shards[DetermineShard(hash, key)]`). Each is proved against
  `Written`, `Erased` or `Lookup`. `Get` has no `modifies` clause, so it
  changes nothing.
- `scenario.dfy` (module `Demo`) replays the program's demonstration
  sequence in its three steps. It proves, for every hasher, the values each
  read returns.
- `optional.dfy` (module `Optional`) holds the `Option` type that reads,
  updates and deletes return.

## Model

| member | source | states |
|---|---|---|
| `Routing.DetermineShard` | src/main.rs:48-52 | the shard index of any key is below the shard count, so indexing the shard sequence never goes out of bounds |
| `Routing.SameDigestSameShard` | src/main.rs:48-52 | routing depends only on the key's digest: equal digests (so the same key, asked any number of times) give the same shard |
| `Routing.TruncatedDigestSameShard` | src/main.rs:51 | truncating the digest to a 32-bit word before the reduction yields the same shard index |
| `Shards.Shard.constructor` | src/main.rs:14-18 | a new shard holds no entries |
| `Shards.Shard.Insert` | src/main.rs:20-22 | afterwards the map is the old map with `key` bound to `value`; an earlier binding is silently replaced |
| `Shards.Shard.Get` | src/main.rs:24-26 | returns a value exactly when the key is present, and then the stored value; changes nothing |
| `Shards.Shard.Update` | src/main.rs:28-30 | always writes `key := value` and returns the previous value, or `None` when the key was new |
| `Shards.Shard.Delete` | src/main.rs:32-34 | removes `key` and returns the value it held, or `None` when it was absent |
| `Placement.EmptyLayout` | src/main.rs:42-46 | the initial contents: one map per shard, satisfying the placement invariant for every hasher, and holding no entries at all |
| `Placement.Written` | src/main.rs:59-61 | a routed write: afterwards `key` reads `value`, every other key reads as before, every other shard is untouched, and placement is preserved |
| `Placement.Erased` | src/main.rs:71-73 | a routed removal: afterwards `key` reads nothing, every other key reads as before, other shards are untouched, placement is preserved, and removing an absent key changes nothing |
| `Placement.LookupIsStore` | src/main.rs:63-65 | under placement, reading a key from its routed shard equals reading it from the union of all shards |
| `Placement.StoreWritten` | src/main.rs:67-69 | under placement, a routed write is a map insert on the union of all shards |
| `Placement.StoreErased` | src/main.rs:71-73 | under placement, a routed removal removes exactly that key from the union of all shards |
| `Sharded.ShardedDatabase.constructor` | src/main.rs:42-46 | builds four distinct, freshly allocated, empty shards that satisfy the invariant |
| `Sharded.ShardedDatabase.ShardMut` | src/main.rs:54-57 | returns one of the database's shards, and no other shard can hold the key |
| `Sharded.ShardedDatabase.Insert` | src/main.rs:59-61 | touches only the routed shard; the new contents are the routed write of the old ones; the invariant is kept |
| `Sharded.ShardedDatabase.Get` | src/main.rs:63-65 | returns the routed read of the key and modifies nothing, even though the source borrows the database mutably |
| `Sharded.ShardedDatabase.Update` | src/main.rs:67-69 | touches only the routed shard; returns the value read before the write; the new contents are the routed write |
| `Sharded.ShardedDatabase.Delete` | src/main.rs:71-73 | touches only the routed shard; returns the value read before the removal; the new contents are the routed removal |
| `Demo.InsertSomeData` | src/main.rs:79-91 | after inserting user1=Alice and user2=Bob into an empty database, the reads return Alice and Bob |
| `Demo.UpdateAValue` | src/main.rs:93-104 | after updating user1 to Alicia, user1 reads Alicia and user2 still reads Bob |
| `Demo.DeleteAValue` | src/main.rs:106-122 | after deleting user2, user2 reads nothing and user1 still reads Alicia |
| `Demo.Scenario` | src/main.rs:76-123 | the whole demonstration sequence on a fresh database returns the expected value at every read, whatever the hasher |

## Left out

- The concrete hash is not modelled. The source uses the standard library's default hasher (SipHash) over the key's bytes. The database's constructor takes the hasher as a parameter; the source's `new()` takes none. The model relies only on the hasher being a function of the key.
- The `as usize` cast of the digest is taken as the identity, which is exact on a 64-bit target. `TruncatedDigestSameShard` shows that a 32-bit target would route identically. The `Wrapping` wrapper has no effect on an unsigned remainder and is not modelled.
- Building the shard vector by cloning one empty shard is modelled as four independently allocated empty shards. The shard objects sit in a constant sequence. Unlike a `Vec`, it cannot be resized, and the source never resizes it.
- The difference between returning a borrowed `&String` and an owned `String` is not modelled. Every read returns an `Option<string>` value.
- The console output of the demonstration driver is left out; only the values it reads are modelled.
- Hash-map capacity, growth and iteration order are not modelled; a shard is a mathematical map.
