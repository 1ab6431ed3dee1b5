/** `ChatManager`: stores single chat messages into the chat history table. */
module ChatManager {
  import opened Store

  class ChatManager {
    const db: Database

    constructor (db: Database)
      ensures this.db == db
    {
      this.db := db;
    }

    /** Stores a narrator message: one new row with role "ai". */
    method SaveAiMessageIntoHistory(content: string, userId: nat, charId: nat)
      requires db.Valid()
      modifies db
      ensures db.Valid()
      ensures |db.chats| == |old(db.chats)| + 1
      ensures db.chats[..|old(db.chats)|] == old(db.chats)
      ensures db.chats[|old(db.chats)|] == ChatRecord(content, AiRole, userId, charId, old(db.clock))
      ensures db.chats[|old(db.chats)|].role.Name() == "ai"
      ensures History(db.chats, userId, charId) == History(old(db.chats), userId, charId) + [db.chats[|old(db.chats)|]]
      ensures db.users == old(db.users) && db.characters == old(db.characters)
    {
      db.AddChat(content, AiRole, userId, charId);
      HistoryAppend(old(db.chats), db.chats[|old(db.chats)|], userId, charId);
    }

    /** Stores a player message: one new row with role "character". */
    method SaveCharMessageIntoHistory(content: string, userId: nat, charId: nat)
      requires db.Valid()
      modifies db
      ensures db.Valid()
      ensures |db.chats| == |old(db.chats)| + 1
      ensures db.chats[..|old(db.chats)|] == old(db.chats)
      ensures db.chats[|old(db.chats)|] == ChatRecord(content, CharacterRole, userId, charId, old(db.clock))
      ensures db.chats[|old(db.chats)|].role.Name() == "character"
      ensures History(db.chats, userId, charId) == History(old(db.chats), userId, charId) + [db.chats[|old(db.chats)|]]
      ensures db.users == old(db.users) && db.characters == old(db.characters)
    {
      db.AddChat(content, CharacterRole, userId, charId);
      HistoryAppend(old(db.chats), db.chats[|old(db.chats)|], userId, charId);
    }
  }
}
