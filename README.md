# StoryAI backend core, modelled in Dafny

StoryAI is a web application in which a user creates up to three characters
and plays a text adventure with an AI narrator. This project models the
parts of its backend that have behaviour worth stating:

- the D&D 5e 1d20 skill check (`DiceRoll`, `dice_roll.dfy`);
- the Core Decision Agent's `CoreDecisions` record and the safe fallback of
  `run_core_decisions` (`DecisionAgent`, `decision_agent.dfy`);
- the database tables (users, characters, chat history), their invariants and
  their cascading deletes (`Store`, `store.dfy`); the orderings the database
  applies to query results (`Ordering`, `ordering.dfy`);
- the three data managers, as classes that update the shared `Database`
  object in place (`ChatManager`, `CharacterManager`, `UserManager`);
- the `chat` route: the thread id, the POST that stores a player message
  and the narrator's reply, and the GET that shows the conversation and lets
  the narrator open an empty one (`BackendApp`, `backend_app.dfy`).

The random d20 roll, the language-model calls and the wall clock are
parameters: the roll is an argument restricted to 1..20, the decision call
is represented by its outcome (a returned object or a raised exception), the
narrator chatbot is a function from (thread id, input text) to reply text,
and the `created` timestamp of a chat row is a reading of a counter that
only moves forward.

Invariants kept by every operation (`Store.Database.Valid`): primary keys
match rows and lie below the next free key; every character's creator
exists; usernames are unique; no user has more than three characters; chat
rows are in strictly increasing `created` order. Chat rows are deliberately
not required to reference existing users or characters: SQLite does not
enforce foreign keys by default and the chat manager stores whatever ids it
is given.

`chat` calls the chatbot directly (no decision, dice or relevance-filter
step is wired in), accepts an empty message, and accepts a POST before any
narrator turn exists. The character is looked up by name
among the characters of every user, so two characters with the same name
make the lookup raise (`one_or_none`) and the route fail with status 500,
and a user can open a chat with another user's character. Deleting a user
also deletes, through its characters, the chat rows other users held with
those characters.

## Model

| member | source | states |
|---|---|---|
| DiceRoll.Modifier | backend/logic/dice_roll.py:11 | The modifier is never negative, is 0 up to score 11, and above 10 is the r with 2r <= score-10 < 2r+2, i.e. floor((score-10)/2) clamped at 0 |
| DiceRoll.RollSkillCheck | backend/logic/dice_roll.py:11-16 | Returns (outcome, roll, modifier, total) with total = roll + modifier, total within [1+modifier, 20+modifier], outcome SUCCESS iff total >= DC, and the outcome text is "SUCCESS" or "FAILURE" |
| DiceRoll.ModifierTable | backend/logic/dice_roll.py:11 | Scores 8, 10, 12, 20 give modifiers 0, 0, 1, 5 |
| DiceRoll.ModifierMonotone | backend/logic/dice_roll.py:11 | A higher score never gives a smaller modifier |
| DiceRoll.ModifierStep | backend/logic/dice_roll.py:11 | From score 10 up, two more points add exactly one to the modifier |
| DiceRoll.FailedCheckExample | backend/logic/dice_roll.py:11-14 | Score 14, DC 12, roll 6 gives modifier 2, total 8, FAILURE |
| DiceRoll.BoundaryIsSuccess | backend/logic/dice_roll.py:14 | A total equal to the DC is a SUCCESS |
| DiceRoll.HigherRollStillSucceeds | backend/logic/dice_roll.py:12-14 | Success is monotone in the roll |
| DiceRoll.DecidedByDifficulty | backend/logic/dice_roll.py:12-14 | DC <= 1+modifier always succeeds; DC > 20+modifier always fails |
| DecisionAgent.ParseDecisionType | backend/models/decision_agent.py:11 | Only the two literals are accepted as a next action, each as the type it names |
| DecisionAgent.ParseLiteral | backend/models/decision_agent.py:11 | Each literal parses back to its type; a string parses iff it is "skill_check" or "narrative_continues" |
| DecisionAgent.MakeCoreDecisions | backend/models/decision_agent.py:31-52 | A record is valid iff next_action is given and is one of the literals and response_text is given; the valid record carries exactly the given fields |
| DecisionAgent.DefaultsAreNone | backend/models/decision_agent.py:38-50 | Omitted ability, ability_score and dc default to none; next_action and response_text are as given |
| DecisionAgent.SkillCheckFieldsNotEnforced | backend/models/decision_agent.py:35-48 | A skill_check with no ability, score or DC is still a valid record |
| DecisionAgent.Fallback | backend/models/decision_agent.py:110-113 | The fallback is narrative_continues, has no roll fields, and its text is "The AI encountered an error:" + error + ".Please reload." |
| DecisionAgent.RunCoreDecisions | backend/models/decision_agent.py:98-113 | A returned CoreDecisions passes through unchanged; any other returned object gives the fallback for the ValueError text; a raised Exception gives the fallback for its text; no Exception escapes |
| DecisionAgent.ErrorOfFallback | backend/models/decision_agent.py:112 | The error text can be read back out of the fallback's response text |
| DecisionAgent.SkillCheckComesFromModel | backend/models/decision_agent.py:104-105 | Every skill_check result is the call's own returned record |
| DecisionAgent.FailedCallIsReported | backend/models/decision_agent.py:106-112 | Every failed call yields narrative_continues whose text carries the error (or the ValueError text) recoverably |
| Ordering.LexLe | backend/data/user_manager.py:29 | The string order of ORDER BY a text column: character-by-character order, a proper prefix first |
| Ordering.SortBy | backend/data/user_manager.py:29 | ORDER BY a text column: the result is sorted by the key and is a permutation of the input |
| Ordering.SortByMembers | backend/data/user_manager.py:29 | Sorting keeps exactly the given rows |
| Store.History | backend/backend_app.py:201-206 | The conversation holds exactly the rows whose user_id and char_id both match |
| Store.HistoryChronological | backend/backend_app.py:205 | The conversation of a chronological table is ordered by created, ascending |
| Store.HistoryAppend | backend/backend_app.py:221-228 | Appending a row extends exactly the conversation it belongs to and no other |
| Store.Purge | backend/models/characters.py:31-32 | The cascade keeps exactly the rows of users and characters not deleted |
| Store.PurgeHistory | backend/models/users.py:22-25 | A cascade leaves every other conversation unchanged and empties the deleted ones |
| Store.PurgeChronological | backend/models/users.py:22-25 | A cascade keeps the surviving rows in created order |
| Store.RemovalKeepsCharacterLimit | backend/models/users.py:22-23 | Deleting characters keeps every user within the three-character limit |
| Store.Database.AddChat | backend/models/chat_history.py:16-27 | Adding a chat row appends exactly that row stamped with the current clock, advances the clock and changes no other table |
| ChatManager.ChatManager.SaveAiMessageIntoHistory | backend/data/chat_manager.py:7-18 | Appends exactly one row with role "ai" and the given content, user_id and char_id; existing rows and other tables are unchanged; the pair's conversation grows by that row |
| ChatManager.ChatManager.SaveCharMessageIntoHistory | backend/data/chat_manager.py:20-33 | Appends exactly one row with role "character" and the given content, user_id and char_id; existing rows and other tables are unchanged |
| CharacterManager.AddCharacterCounts | backend/data/character_manager.py:18-22 | A new character is counted for its creator only, raising that count by one |
| CharacterManager.AddCharacterKeepsLimit | backend/data/character_manager.py:18-24 | Creating a character for a user with fewer than three keeps every user within the limit |
| CharacterManager.CharacterManager.CreateCharacter | backend/data/character_manager.py:9-24 | Unknown user: "Error: User could not be found." and nothing changes; three characters already: the three-character error and nothing changes; otherwise exactly one new character with that name and user, "<name> was successfully created."; the limit invariant is kept |
| CharacterManager.CharacterManager.DeleteCharacter | backend/data/character_manager.py:27-38 | Unknown id: "Error: Character could not be found." and nothing changes; otherwise exactly that character and its chat rows are removed, users are unchanged |
| UserManager.AddUserKeepsNamesUnique | backend/data/user_manager.py:13-20 | Adding a user under an unused name with a fresh key keeps usernames unique and grows the table by one |
| UserManager.CascadeKeepsOtherCharacters | backend/models/users.py:22-23 | Deleting a user's characters leaves every other user's characters unchanged and the deleted user with none |
| UserManager.UserManager.CreateUser | backend/data/user_manager.py:9-22 | Taken name: "User already in Database" and nothing changes; otherwise exactly one new user, "User successfully added to the database."; names stay unique |
| UserManager.UserManager.GetUsers | backend/data/user_manager.py:25-32 | All users, each once, sorted by username (every earlier username sorts before or with every later one); empty when there are none |
| UserManager.UserManager.DeleteUser | backend/data/user_manager.py:35-46 | Unknown id: "Error: User could not be found" and nothing changes; otherwise the user, its characters, and the chat rows of the user or of those characters are removed, nothing else |
| UserManager.UserManager.GetCharacters | backend/data/user_manager.py:49-55 | For an existing user, exactly that user's characters sorted by name (pairwise); none for a missing user |
| BackendApp.Decimal | backend/backend_app.py:159 | str(n) has between 1 and as many digits as needed: n < 10^len and, past one digit, 10^(len-1) <= n |
| BackendApp.ParseDecimalOfDecimal | backend/backend_app.py:159 | int(str(n)) == n |
| BackendApp.ParseDecimalConcat | backend/backend_app.py:159 | int(a + b) == int(a) * 10^len(b) + int(b) |
| BackendApp.ParseDecimal | backend/backend_app.py:159 | int(s) of a digit string is below 10 to the power of its length |
| BackendApp.DecimalOfParseDecimal | backend/backend_app.py:159 | str(int(s)) == s for a digit string without a leading zero |
| BackendApp.ThreadId | backend/backend_app.py:159 | The two ids' decimal strings concatenated and read back as a number: user_id * 10^(digits of char_id) + char_id, whose decimal string is the user id's digits followed by the character id's |
| BackendApp.ThreadIdNotInjective | backend/backend_app.py:159 | (1, 23) and (12, 3) both give thread id 123 |
| BackendApp.OneOrNone | backend/backend_app.py:149-150 | No row, exactly the one row, or several rows (which raise) |
| BackendApp.UserByName | backend/backend_app.py:149 | Finds no row iff no user has the name, else the only one; never several while usernames are unique |
| BackendApp.CharacterByName | backend/backend_app.py:150 | Finds no row iff no character has the name; several iff two characters share it |
| BackendApp.Resolve | backend/backend_app.py:146-153 | No chatbot first; a lookup that finds several rows raises; a missing user or character is "not found"; otherwise the unique matching pair |
| BackendApp.PostMessage | backend/backend_app.py:162-198 | Appends a "character" row with the message, then an "ai" row with the bot's reply for the pair's thread id, in that order; earlier rows, users and characters are unchanged |
| BackendApp.ShowHistory | backend/backend_app.py:200-238 | A non-empty conversation is shown as it is and nothing changes; an empty one gets exactly one "ai" opening row and is shown as that single row; the result is the pair's rows in created order |
| BackendApp.Chat | backend/backend_app.py:140-238 | 503 (no chatbot), 500 (a lookup finds several rows) and 404 (user or character missing) leave the store unchanged; otherwise POST and GET behave as the two branches above for the unique matching pair, and a shown history is exactly that pair's rows in created order |
| BackendApp.OpenTwice | backend/backend_app.py:209-235 | Two GETs on a conversation add at most one row and show the same history |

## Left out

- The random d20 roll: it is a parameter restricted to 1..20.
- DecisionAgent.RunCoreDecisions: `Raised` stands only for `Exception` subclasses; a `BaseException` that is not an `Exception` (task cancellation during the call, a keyboard interrupt) escapes the `except` clause and is not modelled.
- The language-model calls, prompt text, API-key loading and logging of the decision agent, the relevance filters and the narrative agent: foreign library calls; only the outcome of the decision call is modelled.
- The narrator's conversation memory: the chatbot is a pure function of (thread id, input text); LangGraph checkpointing and message trimming are foreign code.
- A chatbot call that raises in `chat`: the model treats the chatbot as total, so the route's 500 and the discarded uncommitted player row are not modelled.
- The `thread_id` column of `chat_history`, declared non-nullable but never set by `chat` or the chat manager: rows are keyed by (user_id, char_id), and the NOT NULL constraint failure this would cause on insert is not modelled.
- The chat relationships in `users.py` and `characters.py` spell the loader option `clazy`; the model follows the declared `cascade="all, delete-orphan"` and not a mapper configuration error.
- Primary keys: the model hands out keys never used before; SQLite may reuse the largest key after it is deleted.
- Timestamps: `created` is a strictly increasing counter; two rows stamped with the same wall-clock instant, whose order the query would leave open, are not modelled.
- String lengths: `String(30)` and `String(100)` are not enforced by SQLite and are not checked by the code, so the model does not check them either.
- A POST without a `message` form field (a null message) is not modelled; the request carries a string.
- UserManager.UserManager.GetUsers: rows with equal usernames (impossible while names are unique) come out in key order, where SQL leaves the order open.
- UserManager.UserManager.GetCharacters: characters with equal names come out in key order, where SQL leaves the order open; for a missing user the source raises an AttributeError, modelled as no result.
- `CharacterManager.get_skills`: its body is `pass`; there is nothing to model.
- The other routes of `backend_app.py`, the Streamlit and HTTP front ends, the commented-out route and agent files, and the Flask/SQLite configuration: form parsing, redirects, rendering and setup that delegate to the managers.
- Concurrency and locking: the code has none; every operation is one sequential step on the store.
