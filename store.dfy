/**
 * The three tables of the application database (users, characters and
 * chat history), the rules that hold between them, and the single
 * insertion primitive for chat rows. Rows are kept in memory: users and
 * characters as maps from primary key to row, the chat history as the
 * sequence of rows in insertion order.
 */
module Store {
  import Ordering

  /** A user may own at most this many characters. */
  const MaxCharacters: nat := 3

  /** A row of `users`: the primary key and the unique username. */
  datatype User = User(userId: nat, username: string)

  /** A row of `characters`: the primary key, the name and the creating user. */
  datatype Character = Character(charId: nat, charName: string, userId: nat)

  /** The `role` column of a chat row: "character" for the player, "ai" for the narrator. */
  datatype Role = CharacterRole | AiRole {
    function Name(): string {
      match this
      case CharacterRole => "character"
      case AiRole => "ai"
    }
  }

  /**
   * A row of `chat_history`. `created` stands for the insertion timestamp:
   * a reading of the database's clock, which only moves forward.
   */
  datatype ChatRecord = ChatRecord(message: string, role: Role, userId: nat, charId: nat, created: nat)

  /** The keys of the characters that `userId` created. */
  function CharacterIdsOf(characters: map<nat, Character>, userId: nat): set<nat> {
    set k | k in characters && characters[k].userId == userId
  }

  predicate UniqueUsernames(users: map<nat, User>) {
    forall a, b :: a in users && b in users && users[a].username == users[b].username ==> a == b
  }

  ghost predicate WithinCharacterLimit(characters: map<nat, Character>) {
    forall u :: |CharacterIdsOf(characters, u)| <= MaxCharacters
  }

  /** Rows appear in the order they were created, no two at the same instant. */
  predicate Chronological(chats: seq<ChatRecord>) {
    forall i, j :: 0 <= i < j < |chats| ==> chats[i].created < chats[j].created
  }

  /** The rows of one (user, character) conversation, in table order. */
  function History(chats: seq<ChatRecord>, userId: nat, charId: nat): (r: seq<ChatRecord>)
    ensures forall x :: x in r <==> x in chats && x.userId == userId && x.charId == charId
    ensures |r| <= |chats|
  {
    if chats == [] then []
    else
      var rest := History(chats[1..], userId, charId);
      if chats[0].userId == userId && chats[0].charId == charId then [chats[0]] + rest else rest
  }

  /** The conversation of a chronological table is itself ordered by `created`. */
  lemma {:induction false} HistoryChronological(chats: seq<ChatRecord>, userId: nat, charId: nat)
    requires Chronological(chats)
    ensures Chronological(History(chats, userId, charId))
  {
    if chats != [] {
      HistoryChronological(chats[1..], userId, charId);
      var rest := History(chats[1..], userId, charId);
      forall x | x in rest
        ensures chats[0].created < x.created
      {
        var j :| 0 <= j < |chats[1..]| && chats[1..][j] == x;
        assert chats[j + 1] == x;
      }
    }
  }

  /** Appending a row extends exactly the conversation it belongs to. */
  lemma {:induction false} HistoryAppend(chats: seq<ChatRecord>, row: ChatRecord, userId: nat, charId: nat)
    ensures History(chats + [row], userId, charId)
            == History(chats, userId, charId) + (if row.userId == userId && row.charId == charId then [row] else [])
  {
    if chats != [] {
      assert (chats + [row])[1..] == chats[1..] + [row];
      HistoryAppend(chats[1..], row, userId, charId);
    }
  }

  /** The table without the rows of the given users and of the given characters. */
  function Purge(chats: seq<ChatRecord>, users: set<nat>, characters: set<nat>): (r: seq<ChatRecord>)
    ensures forall x :: x in r <==> x in chats && x.userId !in users && x.charId !in characters
    ensures |r| <= |chats|
  {
    if chats == [] then []
    else
      var rest := Purge(chats[1..], users, characters);
      if chats[0].userId in users || chats[0].charId in characters then rest else [chats[0]] + rest
  }

  /** A purge leaves every other conversation as it was and empties the purged ones. */
  lemma {:induction false} PurgeHistory(chats: seq<ChatRecord>, users: set<nat>, characters: set<nat>,
                                        userId: nat, charId: nat)
    ensures userId !in users && charId !in characters ==>
              History(Purge(chats, users, characters), userId, charId) == History(chats, userId, charId)
    ensures userId in users || charId in characters ==>
              History(Purge(chats, users, characters), userId, charId) == []
  {
    if chats != [] {
      PurgeHistory(chats[1..], users, characters, userId, charId);
    }
  }

  /** A purge keeps the surviving rows in their order. */
  lemma {:induction false} PurgeChronological(chats: seq<ChatRecord>, users: set<nat>, characters: set<nat>)
    requires Chronological(chats)
    ensures Chronological(Purge(chats, users, characters))
  {
    if chats != [] {
      PurgeChronological(chats[1..], users, characters);
      var rest := Purge(chats[1..], users, characters);
      forall x | x in rest
        ensures chats[0].created < x.created
      {
        var j :| 0 <= j < |chats[1..]| && chats[1..][j] == x;
        assert chats[j + 1] == x;
      }
    }
  }

  /** Removing characters never raises any user's character count. */
  lemma RemovalKeepsCharacterLimit(characters: map<nat, Character>, removed: set<nat>)
    requires WithinCharacterLimit(characters)
    ensures WithinCharacterLimit(characters - removed)
  {
    forall u
      ensures |CharacterIdsOf(characters - removed, u)| <= MaxCharacters
    {
      SubsetCardinality(CharacterIdsOf(characters - removed, u), CharacterIdsOf(characters, u));
    }
  }

  lemma {:induction false} SubsetCardinality(small: set<nat>, large: set<nat>)
    requires small <= large
    ensures |small| <= |large|
    decreases |large|
  {
    if small != {} {
      var x :| x in small;
      SubsetCardinality(small - {x}, large - {x});
    }
  }

  /** The rows of a keyed table in increasing key order. */
  function Rows<T(==,!new)>(table: map<nat, T>): (r: seq<T>)
    ensures |r| == |table|
    ensures forall x :: x in r <==> x in table.Values
  {
    var keys := Ordering.KeysInOrder(table.Keys);
    var r := seq(|keys|, i requires 0 <= i < |keys| => table[keys[i]]);
    assert forall i :: 0 <= i < |r| ==> r[i] == table[keys[i]] && r[i] in table.Values;
    assert forall x :: x in table.Values ==> x in r by {
      forall x | x in table.Values
        ensures x in r
      {
        var k :| k in table && table[k] == x;
        var i :| 0 <= i < |keys| && keys[i] == k;
        assert r[i] == x;
      }
    }
    r
  }

  /**
   * The database: the three tables, the next free primary keys and the clock
   * that stamps chat rows.
   */
  class Database {
    var users: map<nat, User>
    var characters: map<nat, Character>
    var chats: seq<ChatRecord>
    var nextUserId: nat
    var nextCharId: nat
    var clock: nat

    ghost predicate Valid()
      reads this
    {
      && (forall k :: k in users ==> users[k].userId == k && k < nextUserId)
      && (forall k :: k in characters ==> characters[k].charId == k && k < nextCharId)
      && (forall k :: k in characters ==> characters[k].userId in users)
      && UniqueUsernames(users)
      && WithinCharacterLimit(characters)
      && Chronological(chats)
      && (forall i :: 0 <= i < |chats| ==> chats[i].created < clock)
    }

    /** An empty database; SQLite numbers the first row of a table 1. */
    constructor ()
      ensures Valid()
      ensures users == map[] && characters == map[] && chats == []
      ensures nextUserId == 1 && nextCharId == 1 && clock == 0
    {
      users, characters, chats := map[], map[], [];
      nextUserId, nextCharId, clock := 1, 1, 0;
      new;
      assert forall u :: CharacterIdsOf(characters, u) == {};
    }

    /** Adds one chat row, stamped with the clock, and commits it. */
    method AddChat(message: string, role: Role, userId: nat, charId: nat)
      requires Valid()
      modifies this
      ensures Valid()
      ensures chats == old(chats) + [ChatRecord(message, role, userId, charId, old(clock))]
      ensures clock == old(clock) + 1
      ensures users == old(users) && characters == old(characters)
      ensures nextUserId == old(nextUserId) && nextCharId == old(nextCharId)
    {
      chats := chats + [ChatRecord(message, role, userId, charId, clock)];
      clock := clock + 1;
    }
  }
}
