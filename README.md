# Tic-tac-toe session broker, modelled in Dafny

This project models the game logic of `server.js`, a Node.js server that
brokers two-player tic-tac-toe games over WebSockets. It covers these parts:

- **The board evaluator.** `WIN_COMBOS` is the fixed list of eight winning
  lines. `checkWinner` reports the first winning line in that order, or a
  draw on a full board, or nothing.
- **The session registry.** `sessions` is a `Map` from session id to session
  record, and `createSession` builds a fresh record.
- **The three handlers.** The `join` and `move` message handlers and the
  `close` handler update the registry, the session records and the
  connection's `ws.sessionId` in place.
- **Outgoing traffic.** `send` and `broadcast` become appends to an outbox of
  `(recipient, event)` messages.

The project has four modules:

- `Board` (`board.dfy`): cells, marks, `WIN_COMBOS` and `CheckWinner`. These
  are pure functions, with lemmas about which result `checkWinner` gives and
  when.
- `Sessions` (`sessions.dfy`): the session record as a value, the events, and
  one function per handler. Each function maps a registry to the registry
  afterwards and the messages sent, in order. `Inv` is the invariant every
  registered record keeps, and the lemmas prove what each handler promises.
- `GameServer` (`server.dfy`): the imperative server, with the classes
  `Connection`, `Session` and `Server`.
  - `Server` holds the `sessions` map of `Session` objects and the outbox.
  - Its methods `Create`, `Join`, `Move` and `Close` change those objects the
    way the handlers do.
  - Each method is proved to produce exactly the registry (seen as values,
    through `View`) and the messages that the matching `Sessions` function
    gives. Each also preserves `Valid`.
- `Scenarios` (`scenarios.dfy`): runs through the step functions on one
  session. They cover the joins on a fresh session, one whole game from the
  first join to a win, single moves from given game records, and a departure
  mid-game.

Several behaviours of the code are kept as written:

- The player's role comes from its position in `players`:
  - X at index 0, O otherwise (`server.js:108`, `server.js:125`);
  - the position is found with `findIndex`.
- Nothing stops one connection from joining the same session twice. Such a
  connection holds both positions and can never move as O.
- An out-of-range `cellIndex` reads `undefined`, which is `!== null`. The
  move is therefore refused with "Cell already occupied.".
- A finished game records `status` and `winner` but never assigns `winLine`.
  The winning line reaches the players only in the 'end' event.
- Every successful `join` rebinds `ws.sessionId` (`server.js:94`). A later
  `close` affects only the session bound last.
- A `move` on a session that is no longer registered is answered "No active
  game session." (`server.js:118-119`).
- `close` only notifies the other players and deletes the entry; the
  record's fields are left as they were (`server.js:168-172`).

## Model

| member | source | states |
|---|---|---|
| Board.Other | server.js:149 | the mark that moves next is never the one that just moved |
| Board.ScanLines | server.js:22-26 | the search from line `k` finds nothing exactly when no line at or after `k` wins; otherwise it returns the first winning line at or after `k`, with its mark and its indices |
| Board.CheckWinner | server.js:21-29 | when line `k` wins and no earlier line does, the result is `k`'s mark and indices; with no winning line, the result is a draw with an empty line on a full board and `null` otherwise |
| Board.SomeFirstWin | server.js:22-26 | if any line wins, then some line wins with no earlier line winning |
| Board.CheckWinnerCases | server.js:21-29 | three iffs: a mark is reported exactly when some line wins; a draw exactly when no line wins and the board is full; `null` exactly when no line wins and a cell is empty |
| Board.PlacingWinsOnlyForMover | server.js:23-24 | placing a mark on an empty cell of a board with no winning line can complete only lines through that cell, all in that mark; so `checkWinner` then reports nothing, a draw, or the mover, never the opponent |
| Board.PlacedOutcome | server.js:136-141 | on a board where `checkWinner` reports nothing, any result it reports after a mark is placed on an empty cell is a draw or that mark |
| Board.CountPlace | server.js:136 | writing a mark into an empty cell adds one to that mark's count and leaves the other mark's count unchanged |
| Board.CountBlank | server.js:35 | a sequence of empty cells holds no mark |
| Board.EmptyBoardIsBlank | server.js:35 | `Array(9).fill(null)` holds no X and no O, and `checkWinner` reports `null` on it |
| Sessions.Fresh | server.js:31-41 | the record `createSession` builds satisfies the registry invariant: no players, waiting, blank board, X to move, no winner, empty `winLine` |
| Sessions.ToAll | server.js:43-50 | `broadcast`'s sends: one message per player, the i-th to the i-th player, each carrying the same event; the two-player case is `ToAllPair`, and `Broadcast` is proved to append exactly this |
| Sessions.StartMessages | server.js:104-110 | one 'start' per player, in join order, with role X at position 0 and O at every later position; `JoinAccepted` spells out the two messages of a second join |
| Sessions.Others | server.js:168-169 | `filter(p => p.id !== ws.id)`: a player is kept exactly when it is not the closing connection, and the result is no longer than the list |
| Sessions.LeaveNotices | server.js:168-170 | the close loop's sends: no more notices than players, each 'opponent_left' and none to the closing connection; its closed form is `LeaveNoticesInOrder` |
| Sessions.OthersSnoc | server.js:168-169 | filtering a list extended by one player extends the filtered list by that player unless it is the closing connection |
| Sessions.ToAllAppend | server.js:43-50 | broadcasting to two lists in turn is broadcasting to their concatenation |
| Sessions.LeaveNoticesInOrder | server.js:168-170 | the close notices are exactly one 'opponent_left' to each entry of the filtered players, once each, in join order |
| Sessions.JoinStep | server.js:81-112 | the `join` handler as a step: it never adds or removes a session and always answers with at least one message; `JoinRejected`, `JoinAccepted` and `JoinPreservesValid` carry its properties |
| Sessions.Place | server.js:136 | `session.board[cellIndex] = playerRole`: the chosen cell holds the mark, every other cell and every other field is unchanged |
| Sessions.Settle | server.js:138-149 | after a placed mark: players, board and `winLine` are kept; the turn changes exactly when `checkWinner` reports nothing; on a reported result the status is 'ended' with a winner recorded |
| Sessions.MoveRecord | server.js:135-149 | the session object's record after a `move`, including a finished record that is then deleted: players and `winLine` are kept; a refused move leaves the record as it was; an accepted move puts the mover's mark in the chosen cell, and the record is 'ended' exactly when `checkWinner` then reports a result |
| Sessions.MoveStep | server.js:114-155 | the `move` handler as a step: it never adds a session and removes none but its own; `MoveKeepsOthers`, `Judge`, `MoveRejected`, `MoveAcceptedPlacesMark`, `MoveEndsGame`, `MoveContinuesGame` and `MovePreservesValid` carry its properties |
| Sessions.MoveKeepsOthers | server.js:114-155 | a move changes no session other than its own and no session's players |
| Sessions.CloseStep | server.js:160-173 | the `close` handler as a step: it never adds a session and sends at most one notice per player; `CloseEffect` and `ClosePreservesValid` carry its properties |
| Sessions.FindIndex | server.js:122 | the result is -1 exactly when the id is not among the players; otherwise it is the first position holding the id |
| Sessions.ToAllPair | server.js:43-50 | a broadcast to two players sends one message to each, in join order |
| Sessions.JoinRejected | server.js:83-91 | a join on an unknown or full session leaves the registry unchanged and sends one error, to the joiner only: "Session not found." or "This game is already full." |
| Sessions.JoinAccepted | server.js:94-111 | a successful join's record is the old one with exactly the joiner appended and the status set to waiting (first join) or playing (second), every other field, `winLine` included, unchanged; no other session changes. The first join stays waiting and sends 'waiting' with the share link to the joiner only. The second starts play and sends 'start' on the blank board with X to move, X to position 0 and O to the joiner |
| Sessions.JoinPreservesValid | server.js:89-95 | a join keeps every registered record within the invariant, so no session ever holds more than two players |
| Sessions.Judge | server.js:118-133 | one iff per verdict, checked in source order. 'No active game session.' exactly when the session is missing or not playing. No reply exactly when the connection is not a player of a playing session. 'It's not your turn.' exactly when the role of the connection's first position is not the one to move. 'Cell already occupied.' exactly when the cell is out of range or filled. Acceptance exactly when all four guards pass, and the accepted role is the one to move |
| Sessions.MoveRejected | server.js:118-133 | a refused move changes no session and no record. A missing or non-playing session, a move out of turn, or an occupied or out-of-range cell sends the matching error to the mover only. A non-player gets no reply, and that case arises exactly when the connection is not among the players of a playing session |
| Sessions.MoveAcceptedPlacesMark | server.js:131-136 | an accepted move writes the mover's role into the chosen cell, which was empty, and changes no other cell and no player, so a filled cell never changes |
| Sessions.EndKeepsRecord | server.js:139-141 | a finishing move on a record of two players sets 'ended' and the reported winner (a draw or the mover), and leaves the players and `winLine` unchanged |
| Sessions.ContinueKeepsInv | server.js:148-149 | a non-finishing move by the player to move, then passing the turn, keeps the record within the invariant, including the mark count against the turn |
| Sessions.MoveEndsGame | server.js:138-147 | a finishing move ends the record with the reported winner (a draw or the mover), leaves `winLine` empty, removes the session, and sends both players 'end' with the final board, the winner and the line |
| Sessions.MoveContinuesGame | server.js:148-154 | a non-finishing move keeps the session playing with the turn passed to the other mark, stores the new record, and sends both players 'update' with the new board and turn |
| Sessions.MovePreservesValid | server.js:114-155 | every move keeps every registered record within the invariant, so turns alternate strictly |
| Sessions.FinishedGameIsGone | server.js:147 | once a move finishes a game, a later join on that id gets "Session not found." and a later move gets "No active game session.", and neither changes the registry |
| Sessions.SelfPairedNeverMovesAsO | server.js:122-125 | a connection that joined twice is found at position 0 and can never move as O |
| Sessions.LeaveNoticesExact | server.js:168-170 | the close notices go to exactly the players other than the closing connection, each as 'opponent_left' |
| Sessions.CloseEffect | server.js:160-172 | closing a connection bound to a registered session removes that session and no other, and sends one 'opponent_left' to each other player, in join order; an unbound, empty or stale binding changes nothing and sends nothing |
| Sessions.ClosePreservesValid | server.js:172 | a close keeps every registered record within the invariant |
| Sessions.CreatePreservesValid | server.js:63 | registering a fresh record under a new id keeps the registry valid and changes no other session |
| GameServer.Connection.constructor | server.js:72-73 | a new connection has its id and no bound session |
| GameServer.Session.constructor | server.js:31-41 | a new session object has the fields `createSession` sets, and its record is `Fresh()` |
| GameServer.Server.constructor | server.js:12 | the registry starts empty and valid, with nothing sent |
| GameServer.Server.Send | server.js:52-56 | exactly one message is appended to the outbox |
| GameServer.Server.Broadcast | server.js:43-50 | one message per player, in join order, is appended to the outbox |
| GameServer.Server.Create | server.js:61-65 | under an unused id, one fresh session object is added, its record is `Fresh()`, the registry stays valid, and nothing is sent |
| GameServer.Server.Join | server.js:81-112 | the registry (as values) and the outbox become exactly what `JoinStep` gives; the map keeps the same objects; `ws.sessionId` is rebound exactly when the join gets past both guards; validity is preserved |
| GameServer.Server.SendStarts | server.js:104-110 | each player gets 'start' with the role of its position, in join order |
| GameServer.Server.Move | server.js:114-155 | the registry and the outbox become exactly what `MoveStep` gives; the session object keeps the record `MoveRecord` gives, whether or not it stays registered; validity is preserved |
| GameServer.Server.Apply | server.js:135-154 | after the guards, the board write plus ending or passing the turn gives exactly what `MoveStep` gives |
| GameServer.Server.EndGame | server.js:139-147 | the record gets 'ended' and the winner, each player gets 'end', and exactly that session leaves the map |
| GameServer.Server.PassTurn | server.js:148-154 | the turn flips, each player gets 'update', and only that session's record changes |
| GameServer.Server.Close | server.js:160-173 | the registry and the outbox become exactly what `CloseStep` gives for the connection's current binding; validity is preserved |
| Scenarios.FirstJoinWaits | server.js:97-100 | the first join on a fresh session sends 'waiting' with `origin + "/game/" + id` to the joiner only |
| Scenarios.SecondJoinStarts | server.js:101-110 | the second join starts play and sends 'start' to A as X and to B as O, on the blank board with X to move |
| Scenarios.ThirdJoinIsRefused | server.js:89-91 | a third join gets "This game is already full." and changes nothing |
| Scenarios.PassingMove | server.js:148-154 | in a game between A and B, a move by the player to move that completes no line and leaves a cell empty gives the mark and the other turn, and A and B get 'update' in that order |
| Scenarios.OpeningMove | server.js:148-154 | X's opening move on cell 0 passes the turn to O and sends 'update' to both players |
| Scenarios.DiagonalIsFirstWin | server.js:15-25 | on the scenario's board (X on 0, 4 and 8, O on 1 and 2), `checkWinner` reports X and `[0, 4, 8]` |
| Scenarios.DiagonalWin | server.js:138-147 | from a game record with X on 0 and 4 and O on 1 and 2, X completing `[0, 4, 8]` sends both players 'end' with winner X and that line, and removes the session |
| Scenarios.FullBoardIsDraw | server.js:27 | from a game record with eight cells filled and no winning line, filling the last cell with no winning line sends both players 'end' with a draw and an empty line, and removes the session |
| Scenarios.DiagonalPrefixUndecided | server.js:21-29 | after the moves 0, 1, 4 and 2, `checkWinner` reports nothing after each of the last three |
| Scenarios.DiagonalGame | server.js:81-155 | a whole game from a fresh session: the second join starts play, the moves 0, 1, 4 and 2 each pass the turn and send 'update' to both players, and the move 8 sends both 'end' with winner X and `[0, 4, 8]` and leaves the registry empty |
| Scenarios.OutOfTurnMoveIsRefused | server.js:127-129 | X moving while O is to move gets "It's not your turn." and changes nothing |
| Scenarios.OpponentLeavesMidGame | server.js:160-172 | B closing mid-game sends A 'opponent_left' and removes the session, so A's next move gets "No active game session." |

`checkWinner` never changes the board: `CheckWinner` is a function of the
board value.

## Left out

- The Express routes and static file serving (`server.js:59-69`) are not modelled; only the registry insert of `GET /` is, as `Create`.
- UUID generation (`server.js:4`, `server.js:62`, `server.js:73`): ids are parameters. `Create` requires an id that is not yet registered, standing for a freshly minted UUID.
- WebSocket transport and the `readyState === OPEN` checks (`server.js:46`, `server.js:53`): the outbox records every attempted send, whether or not the socket is still open.
- A player entry is stored as its connection id. The `ws` object it also carries is represented by that id, which is where the outbox addresses messages.
- JSON serialisation of outgoing events and parsing of incoming messages (`server.js:44`, `server.js:54`, `server.js:77-78`) are not modelled. A malformed message, an event other than 'join' or 'move', or a message without `data` (which throws in the source) never reaches a handler in the model.
- `GameServer.Server.Move`: `cellIndex` is an integer. A JSON string such as `"3"`, which the source would use as an array index, and non-integer numbers are not modelled.
- The share link's `origin` is an opaque string, so a missing `origin` (which the source renders as `"undefined"`) is not modelled.
- `server.listen` and the `PORT` lookup (`server.js:178-181`) are not modelled.
- Concurrency: each handler runs to completion on Node's single event loop, so each handler is one method call.
