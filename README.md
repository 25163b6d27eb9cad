# 20 Questions relay server — a Dafny model

The server relays a two-player "20 Questions" game over WebSockets. Player 1
(the setter) creates a room with a secret word. Player 2 (the guesser) joins
the room by its five-character id. Then the guesser asks questions and the
setter answers them, until the 20 guesses are used up, someone sends
`endGame`, or a connection closes. All state lives in one in-memory table,
`games`, which maps each room id to a room record.

The model has three modules, one per part of `server.js`:

- `GameIds` (`game_ids.dfy`) models `generateGameId`. It has the 36-symbol
  alphabet and the length 5. `Candidate` is the id that one pass of the
  do-while loop builds. `DrawId` is one pass: its `for` loop builds the id
  one character at a time. `GenerateGameId` is the do-while loop, which
  draws again while the id is a key of the table. Its random source is an oracle
  `rand: nat -> real`, where `rand(n)` is the n-th value `Math.random()`
  returns. Each character is `Alphabet[floor(rand(n) * 36)]`, as in the
  code.
- `Rooms` (`rooms.dfy`) treats a room as a value. It holds the room record
  (`Game`), the state sent to clients (`GameState`), and the transcript
  entries and outbound messages. It defines what each accepted event does to
  a room (`NewGame`, `Joined`, `Asked`, `Answered`, `Ended`, `ClosedBy`), the
  projection `Sanitize` (`getSanitizedGameState`), and the answer-time view
  `AnswerView`. It also defines the room invariant `GameInv`, the lemmas that
  every transition keeps it, and whole-game lemmas over sequences of rounds.
- `RelayServer` (`server.dfy`) holds the class `Server`. Its fields are
  `games` (the room table), `attached` (each connection's `ws.gameId`),
  `open` (the connections whose `readyState === 1`), and `outbox` (every
  `send` call, as a recipient and a message). There is one method per event
  handler, plus the `message` switch. `Valid()` says that every key is a
  well-formed id and every room satisfies `GameInv`. Three client methods
  (`FullGameScenario`, `JoinReopensFinishedRoom`, `DisconnectScenario`) run
  scenarios using only the handlers' contracts.

The model follows the code, not an idealised protocol:

- The handlers never check who sends an event. `askQuestion` and
  `sendAnswer` test only `currentPlayer`.
- No handler checks `status`. A new room starts with `currentPlayer = 1`, so
  a room that nobody has joined already accepts answers.
- After the guesses run out, the turn stays with player 1. Further answers
  are therefore still accepted, and `guessesLeft` goes below zero. The model
  proves this (`ExhaustedRoomStillAcceptsAnswers`) and never claims that
  `guessesLeft` is non-negative.
- `getSanitizedGameState` always copies the secret word (the ensures of
  `Sanitize`). The `createGame`, `joinGame` and `askQuestion` messages
  therefore carry it. For `gameCreated` this is a postcondition of
  `CreateGame`; for the join and question broadcasts it is
  `JoinBroadcastRevealsSecret`. The comment at server.js:23 says
  the word should only be sent at the end of the game. Only `sendAnswer`
  enforces that, so the confidentiality property is proved for the
  `sendAnswer` broadcast alone.
- `joinGame` does not look at the status either. A finished room whose
  guesser slot is free becomes `active` again. `JoinReopensFinishedRoom`
  shows this on the server: create a room, end it, then join it.
- `endGame` takes any winner payload, from any sender, in any status.

Room invariant (`GameInv`, kept by every handler):

- `currentPlayer` is 1 or 2.
- `guessesLeft` plus the number of answer entries in the transcript is 20.
  So every accepted answer costs exactly one guess, and `guessesLeft` never
  rises above 20.
- `lastQuestion` is the text of the last question entry in the transcript.
- A waiting room has no player 2 and no winner.

## Model

| member | source | states |
|---|---|---|
| `GameIds.CharOf` | server.js:41 | The character drawn for any value in [0, 1) is an upper-case letter or a digit. |
| `GameIds.Scaled` | server.js:41 | `Math.floor(x * 36)` is a valid position in the alphabet for every draw `x` in [0, 1). |
| `GameIds.Candidate` | server.js:36-42 | Every id that one pass of the loop builds is 5 characters long, and each character is an upper-case letter or a digit. Character j of pass k comes from draw 5k + j, so each pass uses five fresh draws in order. |
| `GameIds.DrawId` | server.js:39-42 | The inner `for` loop, starting from the empty string and appending one character per draw, builds exactly that pass's candidate. |
| `GameIds.GenerateGameId` | server.js:35-44 | The result is a well-formed id that is not a key of the table. It is the first candidate that the random draws produce and that is not taken: it is candidate number `attempt` (a ghost result), and every earlier candidate was a live key. |
| `GameIds.NoRoomsFirstCandidateFree` | server.js:38-43 | With an empty table, the generator's termination requirement holds: some candidate is free. |
| `GameIds.FirstIdOnEmptyTable` | server.js:38-43 | With an empty table, the generator returns the first candidate, so the do-while loop makes exactly one pass. |
| `Rooms.Sanitize` | server.js:22-23 | The sanitized state always carries the room's secret word, whatever the status. |
| `Rooms.SanitizeForgetsOnlyConnections` | server.js:19-31 | Two rooms give the same sanitized state if and only if they differ only in their two connection references. So the projection loses no field but the two connections. |
| `Rooms.AnswerView` | server.js:134-140 | The state broadcast after an answer holds the secret word if and only if the room is finished. When it holds the word, it is the room's word. In every other field it equals the sanitized state. |
| `Rooms.Broadcast` | server.js:97-98 | A broadcast is one send to player 1, then one to player 2 if there is one. Both sends carry the same message. |
| `Rooms.NewGame` | server.js:58-68 | The new room has the creator as player 1, no player 2, the given word, an empty transcript, status waiting and no winner. It is player 1's turn, so it accepts an answer and no question. |
| `Rooms.JoinedByOpenIsFull` | server.js:84-91 | After an open connection joins, the room counts as full, so a further join is refused. Once that connection is closed, the room is no longer full. |
| `Rooms.Joined` | server.js:89-91 | After a join the joiner is player 2, the room is active and accepts a question. No other field changes. |
| `Rooms.Asked` | server.js:108-110 | After a question, it is the pending question. The transcript keeps its old entries and gains the question as one new last entry. The room accepts an answer. No other field changes: guesses, status, winner, players and word are kept. |
| `Rooms.Answered` | server.js:123-131 | An answer uses one guess and appends one entry: pending question, newline, `> `, answer. At 0 or fewer guesses the room finishes with player 1 as winner and the turn does not change. Otherwise the status and winner do not change and the room accepts a question. Players, word and pending question do not change. |
| `Rooms.Ended` | server.js:151-152 | `endGame` finishes the room with the payload's winner. No other field changes. |
| `Rooms.ClosedBy` | server.js:169-173 | When player 1 closes, player 2 wins; when any other connection closes, player 1 wins. The room is finished and no other field changes. |
| `Rooms.Opponent` | server.js:169-175 | The player to notify is player 2 when player 1 closed, and player 1 when anyone else closed. There is none exactly when player 1 closed and there is no player 2. |
| `Rooms.Farewell` | server.js:176-183 | At most one message is sent. It is sent exactly when the opponent exists and is open, and only to that opponent. It is `opponentDisconnected`, and the state it holds is finished and carries the secret word. |
| `Rooms.NewGameSatisfiesInvariant` | server.js:58-68 | A new room satisfies the room invariant and starts with 20 guesses. |
| `Rooms.JoinedKeepsInvariant` | server.js:89-91 | A join keeps the room invariant. It leaves the secret word, the guesses left and the transcript unchanged. |
| `Rooms.AskedKeepsInvariant` | server.js:107-110 | An accepted question keeps the room invariant: it logs a question, which becomes the pending question, and it costs no guess. |
| `Rooms.AnsweredKeepsInvariant` | server.js:122-132 | An accepted answer keeps the room invariant. It adds exactly one answer entry to the transcript. |
| `Rooms.EndedKeepsInvariant` | server.js:150-152 | `endGame` keeps the room invariant. |
| `Rooms.BudgetAccounting` | server.js:62 | In a room that satisfies the invariant, `guessesLeft` is at most 20. It is at or below 0 exactly when 20 or more answers are logged. |
| `Rooms.TurnsAlternate` | server.js:107-131 | After a question, the room accepts an answer and no question. After an answer on player 1's turn, the room accepts a question exactly when more than one guess was left; otherwise it stays on player 1's turn. |
| `Rooms.RoundsCountDown` | server.js:105-132 | While guesses remain, each question-and-answer round uses one guess, adds two transcript entries after the old ones, and returns the turn to player 2. The status, the winner and the secret word do not change. |
| `Rooms.TwentyRoundsSetterWins` | server.js:120-140 | A joined room that plays 20 rounds ends finished with player 1 as winner, 0 guesses left and 40 transcript entries. The final answer broadcast reveals the word. |
| `Rooms.WaitingRoomAcceptsAnswer` | server.js:120-132 | A room nobody has joined accepts an answer. The answer costs a guess, the room stays waiting, and the turn passes to player 2. |
| `Rooms.ExhaustedRoomStillAcceptsAnswers` | server.js:122-132 | The answer that uses the last guess finishes the room with player 1 as winner, but leaves the turn with player 1. A further answer is accepted and brings `guessesLeft` to -1. |
| `Rooms.JoinBroadcastRevealsSecret` | server.js:89-115 | The state broadcast after a join, and after a question that follows it, carries the secret word while the room is active. The guesser is one of the recipients. |
| `RelayServer.Server.constructor` | server.js:15-16 | The server starts with an empty room table, no connections and no messages sent. |
| `RelayServer.Server.Connect` | server.js:47-49 | A new connection, neither open nor attached before, is open and attached to no room. The room table, the attachments and the messages sent are unchanged. |
| `RelayServer.Server.CreateGame` | server.js:56-77 | Adds exactly one room, under a fresh well-formed id, and leaves every other room unchanged. The new room has the sender as player 1, no player 2, the given word, 20 guesses, player 1's turn, an empty transcript, no pending question, status waiting and no winner. The sender is attached to the room and is the only recipient of `gameCreated`, which carries the secret word. |
| `RelayServer.Server.JoinGame` | server.js:79-103 | An unknown id sends only "Game not found." to the sender. A room whose player 2 is still open sends only "This game is already full." to the sender. Neither case changes any state. Otherwise the sender becomes player 2 and is attached, the room becomes active on player 2's turn, the word, guesses and transcript are unchanged, and both players get the new state. |
| `RelayServer.Server.AskQuestion` | server.js:105-118 | Acts only when the sender's room exists and it is player 2's turn. The question becomes the pending question and is appended as exactly one entry after the old transcript. The turn passes to player 1, no guess is used, and both players get the new state. Otherwise nothing changes and nothing is sent. |
| `RelayServer.Server.SendAnswer` | server.js:120-146 | Acts only when the sender's room exists and it is player 1's turn. `guessesLeft` drops by exactly 1. One entry, pending question + newline + `> ` + answer, is appended after the old transcript. At 0 or fewer guesses the room finishes with player 1 as winner and keeps player 1's turn; otherwise the turn passes to player 2 and the status is unchanged. Every message sent holds the secret word if and only if its status is finished. Otherwise nothing changes and nothing is sent. |
| `RelayServer.Server.EndGame` | server.js:148-161 | On the sender's room, from any sender and in any status, the room finishes with the payload's winner. Guesses, transcript and turn are unchanged. Both players get a state that holds the secret word. Without a room, nothing changes. |
| `RelayServer.Server.OnClose` | server.js:165-187 | If the closed connection's room exists, the room is removed from the table. Every message sent names player 2 as winner if the closer is player 1, and player 1 otherwise. The only message sent is `opponentDisconnected`, to the other player, and only if that player is open. It reports a finished room and holds the secret word. Without a room, nothing changes. |
| `RelayServer.Server.OnMessage` | server.js:51-163 | Sends each inbound type to its handler and keeps the invariant. An unknown type changes nothing. |
| `RelayServer.FullGameScenario` | server.js:56-146 | Create a room with any word, join it, and play 20 question-and-answer rounds. The confirmation carries a well-formed id, 20 guesses and status waiting. The last broadcast is finished, names player 1 as winner, shows 0 guesses and reveals the word. |
| `RelayServer.JoinReopensFinishedRoom` | server.js:81-91 | A room ended by `endGame` before anyone joined is finished, and a later join makes it active again, because the join checks only the guesser slot. |
| `RelayServer.DisconnectScenario` | server.js:79-187 | Create a room, join it, and close the setter's connection. The open guesser is told that it won, with the word revealed. A later join with the same id gets "Game not found.". |

## Left out

- HTTP static file serving, the WebSocket server wiring and `server.listen`
  (server.js:1-13, 190-192) are I/O plumbing. Each handler is a method that
  receives an already decoded event.
- `JSON.parse` and `JSON.stringify` are not modelled. Inbound and outbound
  messages are datatypes. Malformed JSON and payloads with missing or
  non-string fields are outside the model.
- The `endGame` payload's `winner` is an `Option<int>` (None for null or
  absent). Other JSON values are not modelled.
- Connection ids are opaque and distinct: `Connect` requires an id that is
  neither open nor attached. The model does not capture two connections
  that get the same `Date.now()` id; in the code, such a
  connection would be taken for player 1 when it closes.
- `games` is modelled as a dictionary of its own entries. The code looks up
  `games[gameId]` on a plain JavaScript object. There, inherited property
  names such as `constructor` would also be found. The model does not
  capture this.
- `getSanitizedGameState` returns `null` for a missing room
  (server.js:20). The model leaves this branch out, because every caller
  passes an existing room.
- The transport's `readyState` transitions are not modelled beyond two
  points: `Connect` adds a connection to `open`, and `OnClose` removes the
  closing connection before the handler runs. The CLOSING state, which the
  socket passes through before `close` fires, is not represented.
- `outbox` records every `send` call, including sends to a player whose
  socket is closed. It does not model delivery.
- `GameIds.GenerateGameId`: its termination rests on the requirement that
  the random source eventually draws a free id. Without that, the loop in
  the code runs forever.
- `RelayServer.Server.OnMessage`: its own contract says only that the
  invariant is kept and that an unknown type changes nothing. The effect of
  each case is the contract of the handler it calls.
- `RelayServer.FullGameScenario` and `RelayServer.DisconnectScenario`: they
  leave the secret word, the question and the answer as parameters, rather
  than fixing literal values.
- The room left in the table after it finishes is never removed. This is
  how the code behaves, so the model keeps it.
