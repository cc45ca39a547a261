# Retrospective board server: room registry and board mutations

This project models the server of a real-time retrospective board (server.js). The server keeps a registry of rooms. Each room has the password bound by its first visitor, a board of three ordered card columns (`good`, `bad`, `action`), and a ledger of how many votes each username has cast.

- A socket handshake admits a visitor to a room. It creates the room on first contact.
- Three socket handlers change the board in place. `addCard` appends a card. `voteCard` adds a vote, limited to three per username per room. `moveCard` splices a card out of one column and into another.
- After every successful change the registry is written to rooms.json.

The model has five modules:

- `Wrappers` (wrappers.dfy): `Option`.
- `BoardStore` (board_store.dfy): cards, the three columns, `createBoard`, and the id search used by `find` and `findIndex`. It also holds the insertion point and the effect of `Array.prototype.splice`.
- `RoomState` (room_state.dfy): one function per handler, from the room before a command to the room after it and the event emitted. It also has the handshake over the registry map, and lemmas about single commands and about any sequence of commands from any users of a room.
- `Server` (server.dfy): class `Registry`. It holds the `rooms` map and `lastSaved`, which is what `saveRooms` last wrote. Its methods are the middleware and the handlers, written imperatively and proved equal to the `RoomState` functions.
- `JsObjects` (js_objects.dfy): the two lookups that server.js makes in plain JavaScript objects, modelled as written. This module supports the Findings below.

Events become return values (`Outcome`). `ToRoom` is `io.to(roomId).emit`. `ToSender` is `socket.emit`. `NoReply` is a bare `return`. `Threw` is the TypeError a handler throws when a column name is not one of the three keys.

Four behaviours of the code are easy to miss, and the model keeps each of them:

- Card ids come from the client and are never checked for uniqueness. So "a card id appears in exactly one column" is not an invariant here.
- `addCard` does not check that the text is non-empty.
- An unknown column name is not silently ignored. It throws. In `moveCard` with a known `fromColumn` and an unknown `toColumn`, it throws after the card has been spliced out, so the card is gone from memory.
- A failed snapshot write is not caught.

## Model

| member | source | states |
|---|---|---|
| `BoardStore.ParseColumn` | server.js:36-38 | a column name selects one of the three arrays exactly when it is `good`, `bad` or `action`; every other name selects none |
| `BoardStore.CreateBoard` | server.js:36-38 | a new board has exactly the three columns, each empty, so no cards and no votes |
| `BoardStore.FirstIndex` | server.js:85 | the id search finds the first card with the id and only cards before it lack the id; it yields -1 exactly when no card has the id |
| `BoardStore.FindIndex` | server.js:95 | the linear search `findIndex` performs returns that first index, or -1 |
| `BoardStore.SpliceStart` | server.js:98 | `splice(newIndex, 0, card)` inserts at `newIndex` when it is inside the array. A larger index appends. A negative one counts back from the end, and below the start it is clamped to 0 |
| `BoardStore.Removed` | server.js:97 | `splice(idx, 1)` removes exactly the card at `idx` and keeps the order of the others |
| `BoardStore.RemovedMultiset` | server.js:97 | the removal changes the column's multiset of cards by exactly the removed card |
| `BoardStore.Inserted` | server.js:98 | the insertion puts the card at the position, keeps the earlier cards and shifts the later cards by one |
| `BoardStore.InsertedMultiset` | server.js:98 | the insertion adds exactly the inserted card to the column's multiset of cards |
| `BoardStore.TakeOut` | server.js:97 | splicing a card out of a column takes exactly that card off the whole board |
| `BoardStore.PutIn` | server.js:98 | splicing a card into a column puts exactly that card on the whole board |
| `RoomState.AddStep` | server.js:66-73 | for a known column, exactly one card is appended at its end. It has the payload's id and text, 0 votes, and the session's username as author. The other columns, the password and the ledger are unchanged, and `cardAdded` goes to the room. An unknown column throws and changes nothing |
| `RoomState.AddPutsOneUnvotedCard` | server.js:67-73 | an added card is exactly one card more on the board, in the multiset and in the count, and the board's vote total is unchanged |
| `RoomState.VoteStep` | server.js:78-90 | a voter with 3 or more used votes is denied, privately and with no change, before the card is looked up. Otherwise an unknown column throws and a missing card returns silently, neither changing anything or charging the voter. The vote is accepted (broadcast) exactly when the voter has votes left, the column is known and a card has the id, and the only private reply is the denial. Then the first card with the id gains exactly one vote and no other card changes. The voter's ledger entry grows by one and no other entry changes, and `cardVoted` carries the new count |
| `RoomState.VoteAddsOneToBoard` | server.js:87-88 | an accepted vote raises the board's vote total by exactly one, the one charged to the voter |
| `RoomState.MoveStep` | server.js:93-100 | a card absent from `fromColumn` makes a silent no-op. An unknown `fromColumn` throws with no change. A move is broadcast exactly when both columns are known and the card was found, and then `cardMoved` echoes the payload. The password and the ledger never change |
| `RoomState.MoveKeepsEveryCard` | server.js:94-98 | a completed move keeps the multiset of cards on the board, and with it their number |
| `RoomState.MovedCardLandsAtIndex` | server.js:97-98 | the target column becomes its cards after the removal with the moved card inserted at the clamped `newIndex`, the others keeping their order. For a cross-column move the source column is the original minus that card. The third column is untouched |
| `RoomState.MoveToUnknownColumnDropsCard` | server.js:97-98 | with a known `fromColumn` holding the card and an unknown `toColumn`, the handler throws after the removal. The board then lacks exactly that card |
| `RoomState.ReplayedMoveChangesNothing` | server.js:94-96 | replaying a completed move between two different known columns is a silent no-op, provided the card's id occurred once in `fromColumn` |
| `RoomState.ReplayMovesAnotherCardWithTheSameId` | server.js:95-98 | with two cards sharing an id, the replayed move finds and moves the second card |
| `RoomState.AddedCardMovedToAction` | server.js:66-100 | a card added to `good` and moved to index 0 of `action` is afterwards in `action` and nowhere else |
| `RoomState.Dispatch` | server.js:66-101 | across all three handlers, a username's ledger entry grows by one exactly on that user's accepted vote, and only while it is below 3. Nothing else changes an entry |
| `RoomState.LedgerCountsAcceptedVotes` | server.js:80-88 | after any sequence of commands, each user's ledger entry equals its starting value plus that user's accepted votes; it never shrinks |
| `RoomState.QuotaNeverExceeded` | server.js:79-88 | however commands from all users interleave, a user has at most the votes still left under 3 accepted, and none once 3 are used |
| `RoomState.FreshRoomAcceptsAtMostThreeVotes` | server.js:46-49 | in a room created by a handshake, no user ever has more than three votes accepted |
| `RoomState.CommandsKeepPassword` | server.js:66-101 | no sequence of board commands changes a room's password |
| `RoomState.FourthVoteIsDenied` | server.js:78-91 | three votes on one card are accepted with counts 1, 2 and 3; the fourth is denied to the voter alone and the card stays at 3 |
| `RoomState.Handshake` | server.js:40-59 | a handshake missing any field, or with an empty one, is refused with "Authentication error" and the registry is unchanged. An unknown room is created with the given password, an empty board and an empty ledger, and admits its creator. No existing room is overwritten. Admission happens exactly when the stored password equals the given one, and then `init` carries the room's board; otherwise the refusal is "Invalid room or password" |
| `RoomState.SecondHandshakeNeedsTheFirstPassword` | server.js:45-55 | after alice creates R1 with p1, bob with p1 is admitted to an empty board, and charlie with another password is refused without a change |
| `Server.Registry.constructor` | server.js:15-21 | the registry starts as the persisted registry, or empty when the file could not be read or parsed |
| `Server.Registry.RoomIds` | server.js:32-34 | the room listing holds exactly the registered room ids |
| `Server.Registry.Authenticate` | server.js:40-64 | the registry and the reply are those of `Handshake`. Rooms are never removed, an admitted session's room is registered, and the registry is saved exactly when a room was created |
| `Server.Registry.AddCard` | server.js:66-76 | the session's room becomes the room `AddStep` gives, no other room changes, and the registry is saved exactly when the card was added |
| `Server.Registry.VoteCard` | server.js:78-91 | the session's room becomes the room `VoteStep` gives, no other room changes, and the registry is saved exactly when the vote was accepted |
| `Server.Registry.MoveCard` | server.js:93-101 | the session's room becomes the room `MoveStep` gives, no other room changes, and the registry is saved exactly when the move completed. After a throw, the removal stays in memory but not on disk |
| `JsObjects.Read` | server.js:80 | as written, `votesByUser[username] \|\| 0` gives the own entry when there is one, 0 for any other name, and a non-number only for an own entry or an Object.prototype name |
| `JsObjects.Write` | server.js:88 | as written, assigning an entry sets exactly that entry and leaves the others, except that an assignment to `__proto__` is ignored |
| `JsObjects.Denies` | server.js:81 | as written, `used >= 3` can deny a prototype-named user only through an own entry |
| `JsObjects.Charge` | server.js:88 | as written, `used + 1` raises a numeric entry by one for any name but `__proto__`, leaves every other user's entry, and keeps a non-number a non-number |
| `JsObjects.HandshakeAsWritten` | server.js:40-55 | the handshake with the lookup as written never removes or overwrites a room, and admits only to a registered room whose password is the one given |
| `JsObjects.PrototypeNameIsNeverDenied` | server.js:80-88 | as written, a username naming an Object.prototype property is never denied, however many votes it has had accepted |
| `JsObjects.ConstructorVotesAFourthTime` | server.js:80-88 | as written, the username "constructor" passes the quota check after three accepted votes |
| `JsObjects.LedgerAgreesOffPrototype` | server.js:80-88 | for every other username, the ledger as written denies and charges exactly as the map of the model does |
| `JsObjects.PrototypeRoomIdIsNeverAdmitted` | server.js:45-55 | as written, a room id naming an Object.prototype property is refused every time and never registered, where the intended handshake would create it |
| `JsObjects.HandshakeAgreesOffPrototype` | server.js:45-55 | for every other room id, the handshake as written is the handshake of the model |

## Left out

- Reading and writing rooms.json (`fs`, `JSON.parse`, `JSON.stringify`) is not modelled. The constructor takes the parsed registry, or None when reading or parsing failed. `lastSaved` records each `saveRooms` call as the registry it would write. Write failures are not modelled, and neither is the JSON round trip.
- A persisted registry is taken to have the shape the server writes: three columns of cards with numeric vote counts, and numeric ledger entries. Arbitrary JSON contents are not modelled.
- Payload fields are modelled as strings. This covers the column names, card id, card text and card id of a vote, and the handshake fields (absent, or present as a string). `newIndex` is modelled as an integer. Payloads holding numbers, objects or `undefined` in those places are not modelled.
- socket.io transport is not modelled: `socket.join`, the delivery of `io.to(...).emit` and `socket.emit`, and disconnects. Emitted events are return values. A session is the (room id, username) pair the middleware stores on the socket.
- What happens after a handler throws is outside the model: whether the process survives the uncaught TypeError. The model keeps the in-memory state as the throw leaves it, and `lastSaved` shows that rooms.json was not rewritten.
- Concurrency is not modelled. Handlers run one at a time to completion, as sequential calls.
- Express, body-parser and static files are not modelled, and neither is the client (public/client.js: rendering, drag and drop, timers, themes, colours). The client creates card ids with `Date.now()`, which the model treats as arbitrary strings.
- The handlers of `Server.Registry` require the session's room to be registered. That always holds for an admitted session, because no code removes a room.
- RoomState.ReplayedMoveChangesNothing: requires that the card's id occurs at most once in `fromColumn`. The server does not enforce unique ids, and RoomState.ReplayMovesAnotherCardWithTheSameId shows the replay moving a second card when ids repeat.

## Findings

| source | as written | input that shows it | evidently intended | confidence | as-written member | corrected member |
|---|---|---|---|---|---|---|
| server.js:80-88 | `votesByUser[username] \|\| 0` reads the property inherited from Object.prototype for such names. `used >= 3` compares NaN with 3, which is false, and `used + 1` stores a string | username "constructor" (also "toString", "__proto__", ...): the fourth and every later vote is accepted | every username has at most 3 votes accepted per room | high; not executed | `JsObjects.PrototypeNameIsNeverDenied` | `RoomState.VoteStep` |
| server.js:45-55 | `!rooms[roomId]` is false for an inherited property, so no room is created; its `password` is undefined and never equals the given one | room id "constructor" with any password: refused with "Invalid room or password" and never created | the first handshake for any unregistered room id creates the room and admits its creator | high; not executed | `JsObjects.PrototypeRoomIdIsNeverAdmitted` | `RoomState.Handshake` |
