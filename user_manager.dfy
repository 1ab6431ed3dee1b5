/**
 * `UserManager`: creates, lists and deletes users, and lists a user's
 * characters.
 */
module UserManager {
  import opened Wrappers
  import opened Store
  import Ordering

  const UserAdded: string := "User successfully added to the database."
  const UserExists: string := "User already in Database"
  const UserNotFound: string := "Error: User could not be found"
  const UserDeleted: string := "User successfully deleted from database."

  function Username(user: User): string {
    user.username
  }

  function CharName(character: Character): string {
    character.charName
  }

  predicate NameTaken(users: map<nat, User>, username: string) {
    exists id :: id in users && users[id].username == username
  }

  /** The characters table restricted to the rows of one creator. */
  function OwnedBy(characters: map<nat, Character>, userId: nat): (r: map<nat, Character>)
    ensures r.Keys == CharacterIdsOf(characters, userId)
    ensures forall k :: k in r ==> r[k] == characters[k]
  {
    map k | k in characters && characters[k].userId == userId :: characters[k]
  }

  /** A fresh key with an unused name keeps usernames unique, and the table grows by one. */
  lemma AddUserKeepsNamesUnique(users: map<nat, User>, user: User)
    requires UniqueUsernames(users)
    requires user.userId !in users && !NameTaken(users, user.username)
    ensures UniqueUsernames(users[user.userId := user])
    ensures |users[user.userId := user]| == |users| + 1
  {
  }

  /**
   * Deleting a user's row and, by cascade, the rows of the characters it
   * created leaves every other user's characters as they were.
   */
  lemma CascadeKeepsOtherCharacters(characters: map<nat, Character>, userId: nat, other: nat)
    requires other != userId
    ensures CharacterIdsOf(characters - CharacterIdsOf(characters, userId), other)
            == CharacterIdsOf(characters, other)
    ensures CharacterIdsOf(characters - CharacterIdsOf(characters, userId), userId) == {}
  {
  }

  class UserManager {
    const db: Database

    constructor (db: Database)
      ensures this.db == db
    {
      this.db := db;
    }

    /** Adds a user unless the username is already taken. */
    method CreateUser(username: string) returns (message: string)
      requires db.Valid()
      modifies db
      ensures db.Valid()
      ensures NameTaken(old(db.users), username) ==> message == UserExists && unchanged(db)
      ensures !NameTaken(old(db.users), username) ==>
                && message == UserAdded
                && var id := old(db.nextUserId);
                && id !in old(db.users)
                && db.users == old(db.users)[id := User(id, username)]
                && |db.users| == |old(db.users)| + 1
                && db.characters == old(db.characters) && db.chats == old(db.chats)
    {
      if exists id :: id in db.users && db.users[id].username == username {
        return UserExists;
      }
      var user := User(db.nextUserId, username);
      AddUserKeepsNamesUnique(db.users, user);
      db.users := db.users[user.userId := user];
      db.nextUserId := db.nextUserId + 1;
      message := UserAdded;
    }

    /** All users ordered by username; the empty list when there are none. */
    function GetUsers(): (r: seq<User>)
      reads db
      ensures Ordering.SortedBy(r, Username)
      ensures forall i, j :: 0 <= i <= j < |r| ==> Ordering.LexLe(r[i].username, r[j].username)
      ensures |r| == |db.users|
      ensures forall user :: user in r <==> user in db.users.Values
    {
      var rows := Rows(db.users);
      Ordering.SortByMembers(rows, Username);
      var sorted := Ordering.SortBy(rows, Username);
      assert forall i, j :: 0 <= i <= j < |sorted| ==> Ordering.LexLe(sorted[i].username, sorted[j].username) by {
        forall i, j | 0 <= i <= j < |sorted|
          ensures Ordering.LexLe(sorted[i].username, sorted[j].username)
        {
          Ordering.SortedByPairwise(sorted, Username, i, j);
        }
      }
      sorted
    }

    /**
     * Deletes a user and, by cascade, the characters it created and the chat
     * rows of that user and of those characters.
     */
    method DeleteUser(userId: nat) returns (message: string)
      requires db.Valid()
      modifies db
      ensures db.Valid()
      ensures userId !in old(db.users) ==> message == UserNotFound && unchanged(db)
      ensures userId in old(db.users) ==>
                && message == UserDeleted
                && var removed := CharacterIdsOf(old(db.characters), userId);
                && db.users == old(db.users) - {userId}
                && db.characters == old(db.characters) - removed
                && db.chats == Purge(old(db.chats), {userId}, removed)
    {
      if userId !in db.users {
        return UserNotFound;
      }
      var removed := CharacterIdsOf(db.characters, userId);
      RemovalKeepsCharacterLimit(db.characters, removed);
      PurgeChronological(db.chats, {userId}, removed);
      db.users := db.users - {userId};
      db.characters := db.characters - removed;
      db.chats := Purge(db.chats, {userId}, removed);
      message := UserDeleted;
    }

    /**
     * The characters of a user, ordered by name; none when the user does not
     * exist (the lookup yields no user and reading its characters fails).
     */
    function GetCharacters(userId: nat): (r: Option<seq<Character>>)
      reads db
      ensures r.Some? <==> userId in db.users
      ensures r.Some? ==> Ordering.SortedBy(r.value, CharName)
      ensures r.Some? ==> forall i, j :: 0 <= i <= j < |r.value| ==> Ordering.LexLe(r.value[i].charName, r.value[j].charName)
      ensures r.Some? ==> |r.value| == |CharacterIdsOf(db.characters, userId)|
      ensures r.Some? ==> forall c :: c in r.value <==> c in db.characters.Values && c.userId == userId
    {
      if userId !in db.users then None
      else
        var owned := OwnedBy(db.characters, userId);
        assert forall c :: c in owned.Values <==> c in db.characters.Values && c.userId == userId by {
          forall c | c in db.characters.Values && c.userId == userId
            ensures c in owned.Values
          {
            var k :| k in db.characters && db.characters[k] == c;
            assert owned[k] == c;
          }
        }
        var rows := Rows(owned);
        Ordering.SortByMembers(rows, CharName);
        var sorted := Ordering.SortBy(rows, CharName);
        assert forall i, j :: 0 <= i <= j < |sorted| ==> Ordering.LexLe(sorted[i].charName, sorted[j].charName) by {
          forall i, j | 0 <= i <= j < |sorted|
            ensures Ordering.LexLe(sorted[i].charName, sorted[j].charName)
          {
            Ordering.SortedByPairwise(sorted, CharName, i, j);
          }
        }
        Some(sorted)
    }
  }
}
