/**
 * The `chat` route: finds the user and the character by name, derives the
 * conversation's thread id, and either stores a player message with the
 * narrator's reply (POST) or shows the conversation, letting the narrator
 * open it when it is still empty (GET).
 */
module BackendApp {
  import opened Wrappers
  import opened Store
  import Ordering

  // ---------------------------------------------------------------------
  // Thread id: the decimal digits of the user id followed by those of the
  // character id, read back as one number.
  // ---------------------------------------------------------------------

  function Pow10(n: nat): (r: nat)
    ensures r >= 1
  {
    if n == 0 then 1 else 10 * Pow10(n - 1)
  }

  function DigitChar(d: nat): char
    requires d < 10
  {
    ('0' as int + d) as char
  }

  function DigitValue(c: char): (d: nat)
    ensures d < 10
    ensures '0' <= c <= '9' ==> DigitChar(d) == c
  {
    if '0' <= c <= '9' then c as int - '0' as int else 0
  }

  predicate IsDigits(s: string) {
    forall i :: 0 <= i < |s| ==> '0' <= s[i] <= '9'
  }

  /** `str(n)` for a non-negative integer: its shortest decimal representation. */
  function Decimal(n: nat): (s: string)
    ensures |s| >= 1
    ensures forall i :: 0 <= i < |s| ==> '0' <= s[i] <= '9'
    ensures n < Pow10(|s|)
    ensures |s| > 1 ==> Pow10(|s| - 1) <= n
    ensures n > 0 ==> s[0] != '0'
  {
    if n < 10 then [DigitChar(n)] else Decimal(n / 10) + [DigitChar(n % 10)]
  }

  /** `int(s)` for a string of decimal digits: below 10 to the power of its length. */
  function ParseDecimal(s: string): (r: nat)
    ensures r < Pow10(|s|)
  {
    if s == [] then 0 else ParseDecimal(s[..|s| - 1]) * 10 + DigitValue(s[|s| - 1])
  }

  /** A digit string that does not start with 0 reads as at least 10 to the power of its length less one. */
  lemma {:induction false} ParseDecimalLowerBound(s: string)
    requires s != [] && '1' <= s[0] <= '9'
    ensures ParseDecimal(s) >= Pow10(|s| - 1)
  {
    if |s| > 1 {
      var init := s[..|s| - 1];
      assert init[0] == s[0];
      ParseDecimalLowerBound(init);
    }
  }

  /** Printing the number a digit string without a leading zero reads as gives the string back. */
  lemma {:induction false} DecimalOfParseDecimal(s: string)
    requires IsDigits(s) && s != []
    requires |s| > 1 ==> s[0] != '0'
    ensures Decimal(ParseDecimal(s)) == s
  {
    var init, last := s[..|s| - 1], s[|s| - 1];
    var n := ParseDecimal(s);
    if init == [] {
      assert s == [last];
    } else {
      assert init[0] == s[0];
      ParseDecimalLowerBound(init);
      DecimalOfParseDecimal(init);
      assert n / 10 == ParseDecimal(init) && n % 10 == DigitValue(last);
      assert s == init + [last];
    }
  }

  lemma {:induction false} ParseDecimalOfDecimal(n: nat)
    ensures ParseDecimal(Decimal(n)) == n
  {
    if n >= 10 {
      var s := Decimal(n);
      assert s[..|s| - 1] == Decimal(n / 10);
      ParseDecimalOfDecimal(n / 10);
    }
  }

  /** Reading a concatenation shifts the first part left by the length of the second. */
  lemma {:induction false} ParseDecimalConcat(a: string, b: string)
    ensures ParseDecimal(a + b) == ParseDecimal(a) * Pow10(|b|) + ParseDecimal(b)
  {
    if b == [] {
      assert a + b == a;
    } else {
      var init, last := b[..|b| - 1], b[|b| - 1];
      var ab := a + b;
      assert ab[..|ab| - 1] == a + init && ab[|ab| - 1] == last;
      assert ParseDecimal(ab) == ParseDecimal(a + init) * 10 + DigitValue(last);
      assert ParseDecimal(b) == ParseDecimal(init) * 10 + DigitValue(last);
      ParseDecimalConcat(a, init);
      ShiftDigit(ParseDecimal(a), Pow10(|init|), ParseDecimal(init), DigitValue(last));
    }
  }

  lemma ShiftDigit(high: int, scale: int, low: int, digit: int)
    ensures (high * scale + low) * 10 + digit == high * (10 * scale) + (low * 10 + digit)
  {
  }

  /**
   * `int(f"{user_id}{char_id}")`: the user id shifted left by the character
   * id's digit count, plus the character id; printed again, it is the two
   * ids' digits one after the other (user ids start at 1, so there is no
   * leading zero to lose).
   */
  function ThreadId(userId: nat, charId: nat): (r: nat)
    ensures r == userId * Pow10(|Decimal(charId)|) + charId
    ensures userId > 0 ==> Decimal(r) == Decimal(userId) + Decimal(charId)
  {
    var digits := Decimal(userId) + Decimal(charId);
    ParseDecimalConcat(Decimal(userId), Decimal(charId));
    ParseDecimalOfDecimal(userId);
    ParseDecimalOfDecimal(charId);
    if userId > 0 then
      assert digits[0] == Decimal(userId)[0];
      DecimalOfParseDecimal(digits);
      ParseDecimal(digits)
    else ParseDecimal(digits)
  }

  /** Two different (user, character) pairs can share a thread id: (1, 23) and (12, 3) both give 123. */
  lemma ThreadIdNotInjective()
    ensures ThreadId(1, 23) == 123 && ThreadId(12, 3) == 123
  {
    assert Pow10(2) == 100 && Pow10(1) == 10;
    assert Decimal(23) == Decimal(2) + [DigitChar(3)];
  }

  // ---------------------------------------------------------------------
  // Looking up the user and the character.
  // ---------------------------------------------------------------------

  /** What `one_or_none()` finds: no row, exactly one, or several (which raises). */
  datatype Lookup = NoRow | OneRow(id: nat) | ManyRows

  function OneOrNone(ids: set<nat>): (r: Lookup)
    ensures r.NoRow? <==> ids == {}
    ensures r.OneRow? ==> ids == {r.id}
    ensures r.ManyRows? ==> |ids| >= 2
  {
    if ids == {} then NoRow
    else if |ids| == 1 then
      var id := Ordering.Least(ids);
      assert |ids - {id}| == 0;
      OneRow(id)
    else ManyRows
  }

  lemma TwoMembers(ids: set<nat>)
    requires |ids| >= 2
    ensures exists x, y :: x in ids && y in ids && x != y
  {
    var x :| x in ids;
    assert |ids - {x}| == |ids| - 1;
    var y :| y in ids - {x};
  }

  /** The user query: by username, which is unique, so it never finds several rows. */
  function UserByName(users: map<nat, User>, username: string): (r: Lookup)
    ensures r.NoRow? <==> forall k :: k in users ==> users[k].username != username
    ensures r.OneRow? ==> r.id in users && users[r.id].username == username
                          && forall k :: k in users && users[k].username == username ==> k == r.id
    ensures UniqueUsernames(users) ==> !r.ManyRows?
  {
    var ids := set k | k in users && users[k].username == username;
    assert forall k :: k in users && users[k].username == username ==> k in ids;
    var r := OneOrNone(ids);
    assert r.OneRow? ==> r.id in ids;
    if r.ManyRows? then TwoMembers(ids); r else r
  }

  /** The character query: by name alone, among the characters of every user. */
  function CharacterByName(characters: map<nat, Character>, charName: string): (r: Lookup)
    ensures r.NoRow? <==> forall k :: k in characters ==> characters[k].charName != charName
    ensures r.OneRow? ==> r.id in characters && characters[r.id].charName == charName
                          && forall k :: k in characters && characters[k].charName == charName ==> k == r.id
    ensures r.ManyRows? <==> exists a, b :: a in characters && b in characters && a != b
                                            && characters[a].charName == charName && characters[b].charName == charName
  {
    var ids := set k | k in characters && characters[k].charName == charName;
    assert forall k :: k in characters && characters[k].charName == charName ==> k in ids;
    var r := OneOrNone(ids);
    assert r.OneRow? ==> r.id in ids;
    if r.ManyRows? then TwoMembers(ids); r else r
  }

  /** Where a request ends before it touches the chat history, or the pair it is about. */
  datatype Target = Unavailable | Raises | NotFound | Found(userId: nat, charId: nat)

  /**
   * The checks of `chat` in their order: no chatbot; the user query, then the
   * character query (either may raise on several rows); then a missing user
   * or character.
   */
  function Resolve(users: map<nat, User>, characters: map<nat, Character>, chatbotAvailable: bool,
                   username: string, charName: string): (r: Target)
    ensures !chatbotAvailable <==> r.Unavailable?
    ensures r.Found? ==> && r.userId in users && users[r.userId].username == username
                         && r.charId in characters && characters[r.charId].charName == charName
                         && (forall k :: k in users && users[k].username == username ==> k == r.userId)
                         && (forall k :: k in characters && characters[k].charName == charName ==> k == r.charId)
    ensures r.NotFound? ==> (forall k :: k in users ==> users[k].username != username)
                            || (forall k :: k in characters ==> characters[k].charName != charName)
    ensures chatbotAvailable && UniqueUsernames(users) ==>
              (r.Raises? <==> CharacterByName(characters, charName).ManyRows?)
  {
    if !chatbotAvailable then Unavailable
    else
      var user := UserByName(users, username);
      var character := CharacterByName(characters, charName);
      if user.ManyRows? || character.ManyRows? then Raises
      else if user.NoRow? || character.NoRow? then NotFound
      else Found(user.id, character.id)
  }

  // ---------------------------------------------------------------------
  // The route.
  // ---------------------------------------------------------------------

  /** The narrator: given the thread id and the player's input, its reply. */
  type Chatbot = (nat, string) -> string

  /** The input the narrator receives when it opens an empty conversation. */
  const OpeningPrompt: string := "Start the Story."
  const UnavailableText: string := "Chatbot is unavailable."
  const NotFoundText: string := "User or Character not found"

  datatype Request = Get | Post(message: string)

  datatype Response =
    | Text(status: nat, body: string)
    | InternalServerError
    | RedirectToChat(username: string, charName: string)
    | ChatPage(history: seq<ChatRecord>, username: string, charName: string)

  /** The POST branch: the player's row, then the narrator's reply to it. */
  method PostMessage(db: Database, bot: Chatbot, userId: nat, charId: nat, message: string)
    requires db.Valid()
    modifies db
    ensures db.Valid()
    ensures db.users == old(db.users) && db.characters == old(db.characters)
    ensures db.chats == old(db.chats) + [ChatRecord(message, CharacterRole, userId, charId, old(db.clock)),
                                         ChatRecord(bot(ThreadId(userId, charId), message), AiRole,
                                                    userId, charId, old(db.clock) + 1)]
  {
    var threadId := ThreadId(userId, charId);
    db.AddChat(message, CharacterRole, userId, charId);
    var reply := bot(threadId, message);
    db.AddChat(reply, AiRole, userId, charId);
  }

  /**
   * The GET branch: the conversation in created order; an empty one is first
   * opened by the narrator, and the query is run again.
   */
  method ShowHistory(db: Database, bot: Chatbot, userId: nat, charId: nat) returns (history: seq<ChatRecord>)
    requires db.Valid()
    modifies db
    ensures db.Valid()
    ensures db.users == old(db.users) && db.characters == old(db.characters)
    ensures History(old(db.chats), userId, charId) != [] ==>
              history == History(old(db.chats), userId, charId) && unchanged(db)
    ensures History(old(db.chats), userId, charId) == [] ==>
              var opening := ChatRecord(bot(ThreadId(userId, charId), OpeningPrompt), AiRole,
                                        userId, charId, old(db.clock));
              db.chats == old(db.chats) + [opening] && history == [opening]
    ensures history == History(db.chats, userId, charId)
    ensures Chronological(history) && |history| >= 1
  {
    history := History(db.chats, userId, charId);
    if history == [] {
      var reply := bot(ThreadId(userId, charId), OpeningPrompt);
      ghost var before := db.chats;
      db.AddChat(reply, AiRole, userId, charId);
      HistoryAppend(before, db.chats[|before|], userId, charId);
      history := History(db.chats, userId, charId);
    }
    HistoryChronological(db.chats, userId, charId);
  }

  method Chat(db: Database, chatbot: Option<Chatbot>, username: string, charName: string, request: Request)
    returns (response: Response)
    requires db.Valid()
    modifies db
    ensures db.Valid()
    ensures db.users == old(db.users) && db.characters == old(db.characters)
    ensures var target := Resolve(old(db.users), old(db.characters), chatbot.Some?, username, charName);
            && (target.Unavailable? ==> response == Text(503, UnavailableText) && unchanged(db))
            && (target.Raises? ==> response == InternalServerError && unchanged(db))
            && (target.NotFound? ==> response == Text(404, NotFoundText) && unchanged(db))
            && (target.Found? && request.Post? ==>
                  && response == RedirectToChat(username, charName)
                  && db.chats == old(db.chats)
                                 + [ChatRecord(request.message, CharacterRole, target.userId, target.charId, old(db.clock)),
                                    ChatRecord(chatbot.value(ThreadId(target.userId, target.charId), request.message),
                                               AiRole, target.userId, target.charId, old(db.clock) + 1)])
            && (target.Found? && request.Get? && History(old(db.chats), target.userId, target.charId) != [] ==>
                  && response == ChatPage(History(old(db.chats), target.userId, target.charId), username, charName)
                  && unchanged(db))
            && (target.Found? && request.Get? && History(old(db.chats), target.userId, target.charId) == [] ==>
                  var opening := ChatRecord(chatbot.value(ThreadId(target.userId, target.charId), OpeningPrompt),
                                            AiRole, target.userId, target.charId, old(db.clock));
                  && db.chats == old(db.chats) + [opening]
                  && response == ChatPage([opening], username, charName))
            && (response.ChatPage? ==>
                  && target.Found?
                  && response.history == History(db.chats, target.userId, target.charId)
                  && Chronological(response.history)
                  && |response.history| >= 1)
  {
    ghost var target := Resolve(db.users, db.characters, chatbot.Some?, username, charName);
    if chatbot.None? {
      return Text(503, UnavailableText);
    }
    var user := UserByName(db.users, username);
    var character := CharacterByName(db.characters, charName);
    if user.ManyRows? || character.ManyRows? {
      return InternalServerError;
    }
    if user.NoRow? || character.NoRow? {
      return Text(404, NotFoundText);
    }
    var userId, charId := user.id, character.id;
    assert target == Found(userId, charId);
    match request {
      case Post(message) =>
        PostMessage(db, chatbot.value, userId, charId, message);
        response := RedirectToChat(username, charName);
      case Get =>
        var history := ShowHistory(db, chatbot.value, userId, charId);
        response := ChatPage(history, username, charName);
    }
  }

  /**
   * Opening a conversation twice: only the first visit lets the narrator
   * speak first; the second shows the same single row and stores nothing.
   */
  method OpenTwice(db: Database, bot: Chatbot, username: string, charName: string)
    returns (first: Response, second: Response)
    requires db.Valid()
    requires Resolve(db.users, db.characters, true, username, charName).Found?
    modifies db
    ensures db.Valid()
    ensures first.ChatPage? && first == second
    ensures |db.chats| <= |old(db.chats)| + 1
  {
    first := Chat(db, Some(bot), username, charName, Get);
    second := Chat(db, Some(bot), username, charName, Get);
  }
}
