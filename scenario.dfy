/**
 * The program's demonstration sequence, replayed against the model in its
 * three steps (insert, update, delete). Whatever the hasher, every read
 * yields what the sequence expects.
 */
module Demo {
  import opened Optional
  import opened Routing
  import opened Placement
  import opened Sharded

  /** The database is consistent and the two demo users read as given. */
  ghost predicate UsersRead(db: ShardedDatabase, user1: Option<string>, user2: Option<string>)
    reads db, db.shards
  {
    && db.Valid()
    && Lookup(db.hash, db.Contents(), "user1") == user1
    && Lookup(db.hash, db.Contents(), "user2") == user2
  }

  /** Inserts user1 and user2 into an empty database, then reads both. */
  method InsertSomeData(db: ShardedDatabase) returns (user1: Option<string>, user2: Option<string>)
    requires UsersRead(db, None, None)
    modifies db.shards
    ensures UsersRead(db, Some("Alice"), Some("Bob"))
    ensures user1 == Some("Alice") && user2 == Some("Bob")
  {
    assert "user1" != "user2" by { assert "user1"[4] != "user2"[4]; }
    db.Insert("user1", "Alice");
    db.Insert("user2", "Bob");
    user1 := db.Get("user1");
    user2 := db.Get("user2");
  }

  /** Updates user1, then reads both users. */
  method UpdateAValue(db: ShardedDatabase) returns (user1: Option<string>, user2: Option<string>)
    requires UsersRead(db, Some("Alice"), Some("Bob"))
    modifies db.shards
    ensures UsersRead(db, Some("Alicia"), Some("Bob"))
    ensures user1 == Some("Alicia") && user2 == Some("Bob")
  {
    assert "user1" != "user2" by { assert "user1"[4] != "user2"[4]; }
    var _ := db.Update("user1", "Alicia");
    user1 := db.Get("user1");
    user2 := db.Get("user2");
  }

  /** Deletes user2, then reads both users. */
  method DeleteAValue(db: ShardedDatabase) returns (user1: Option<string>, user2: Option<string>)
    requires UsersRead(db, Some("Alicia"), Some("Bob"))
    modifies db.shards
    ensures UsersRead(db, Some("Alicia"), None)
    ensures user1 == Some("Alicia") && user2 == None
  {
    assert "user1" != "user2" by { assert "user1"[4] != "user2"[4]; }
    var _ := db.Delete("user2");
    user2 := db.Get("user2");
    user1 := db.Get("user1");
  }

  /**
   * The whole sequence on a fresh database; returns the values read after
   * the inserts, after the update and after the delete.
   */
  method Scenario(hash: Hasher)
    returns (user1First: Option<string>, user2First: Option<string>,
             user1Updated: Option<string>, user2AfterUpdate: Option<string>,
             user1Last: Option<string>, user2Deleted: Option<string>)
    ensures user1First == Some("Alice") && user2First == Some("Bob")
    ensures user1Updated == Some("Alicia") && user2AfterUpdate == Some("Bob")
    ensures user1Last == Some("Alicia") && user2Deleted == None
  {
    var db := new ShardedDatabase(hash);
    user1First, user2First := InsertSomeData(db);
    user1Updated, user2AfterUpdate := UpdateAValue(db);
    user1Last, user2Deleted := DeleteAValue(db);
  }
}
