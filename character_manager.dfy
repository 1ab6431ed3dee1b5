/** `CharacterManager`: creates and deletes characters in the characters table. */
module CharacterManager {
  import opened Store

  const UserNotFound: string := "Error: User could not be found."
  const TooManyCharacters: string := "Error: You already have three Characters. You cannot create more."
  const CharacterNotFound: string := "Error: Character could not be found."

  function CreatedMessage(charName: string): string {
    charName + " was successfully created."
  }

  function DeletedMessage(charName: string): string {
    " The Character " + charName + " was successfully deleted from Database."
  }

  /** A new character row is counted for its creator and for nobody else. */
  lemma AddCharacterCounts(characters: map<nat, Character>, character: Character, u: nat)
    requires character.charId !in characters
    ensures CharacterIdsOf(characters[character.charId := character], u)
            == CharacterIdsOf(characters, u) + (if character.userId == u then {character.charId} else {})
    ensures |CharacterIdsOf(characters[character.charId := character], u)|
            == |CharacterIdsOf(characters, u)| + (if character.userId == u then 1 else 0)
  {
    var after := characters[character.charId := character];
    assert CharacterIdsOf(after, u)
           == CharacterIdsOf(characters, u) + (if character.userId == u then {character.charId} else {});
  }

  /** Adding a character for a user who has fewer than three keeps every user within the limit. */
  lemma AddCharacterKeepsLimit(characters: map<nat, Character>, character: Character)
    requires WithinCharacterLimit(characters)
    requires character.charId !in characters
    requires |CharacterIdsOf(characters, character.userId)| < MaxCharacters
    ensures WithinCharacterLimit(characters[character.charId := character])
  {
    var after := characters[character.charId := character];
    forall u
      ensures |CharacterIdsOf(after, u)| <= MaxCharacters
    {
      AddCharacterCounts(characters, character, u);
    }
  }

  class CharacterManager {
    const db: Database

    constructor (db: Database)
      ensures this.db == db
    {
      this.db := db;
    }

    /**
     * Creates a character named `charName` for the user `userId`, unless the
     * user does not exist or already has three characters. Names need not
     * be unique.
     */
    method CreateCharacter(charName: string, userId: nat) returns (message: string)
      requires db.Valid()
      modifies db
      ensures db.Valid()
      ensures userId !in old(db.users) ==> message == UserNotFound && unchanged(db)
      ensures userId in old(db.users) && |CharacterIdsOf(old(db.characters), userId)| >= MaxCharacters ==>
                message == TooManyCharacters && unchanged(db)
      ensures userId in old(db.users) && |CharacterIdsOf(old(db.characters), userId)| < MaxCharacters ==>
                && message == CreatedMessage(charName)
                && var id := old(db.nextCharId);
                && id !in old(db.characters)
                && db.characters == old(db.characters)[id := Character(id, charName, userId)]
                && |CharacterIdsOf(db.characters, userId)| == |CharacterIdsOf(old(db.characters), userId)| + 1
                && db.users == old(db.users) && db.chats == old(db.chats) && db.clock == old(db.clock)
    {
      if userId !in db.users {
        return UserNotFound;
      }
      if |CharacterIdsOf(db.characters, userId)| >= MaxCharacters {
        return TooManyCharacters;
      }
      var character := Character(db.nextCharId, charName, userId);
      AddCharacterKeepsLimit(db.characters, character);
      AddCharacterCounts(db.characters, character, userId);
      db.characters := db.characters[character.charId := character];
      db.nextCharId := db.nextCharId + 1;
      message := CreatedMessage(charName);
    }

    /** Deletes a character and, by cascade, every chat row held with it. */
    method DeleteCharacter(charId: nat) returns (message: string)
      requires db.Valid()
      modifies db
      ensures db.Valid()
      ensures charId !in old(db.characters) ==> message == CharacterNotFound && unchanged(db)
      ensures charId in old(db.characters) ==>
                && message == DeletedMessage(old(db.characters)[charId].charName)
                && db.characters == old(db.characters) - {charId}
                && db.chats == Purge(old(db.chats), {}, {charId})
                && db.users == old(db.users)
    {
      if charId !in db.characters {
        return CharacterNotFound;
      }
      var name := db.characters[charId].charName;
      RemovalKeepsCharacterLimit(db.characters, {charId});
      PurgeChronological(db.chats, {}, {charId});
      db.characters := db.characters - {charId};
      db.chats := Purge(db.chats, {}, {charId});
      message := DeletedMessage(name);
    }
  }
}
