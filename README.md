# Tic-tac-toe room server, modelled in Dafny

This project models the game logic of a small two-player tic-tac-toe server
(`server/index.js`). Clients connect over socket.io. A client sets a
nickname, creates a room or joins one by id, plays moves in turn, and can
ask for a rematch. When either player disconnects, the room is torn down.

The model has four parts:

- `Board` (board.dfy): the flattened 3x3 board, the eight winning lines in
  the order the server scans them, and `CheckWinner`. `CheckWinner` is a
  recursive scan, `ScanLines`, that returns the symbol of the first uniform
  line.
- `Session` (session.dfy): the registry (`map<RoomId, Room>`) and one
  function per socket event handler. Each function takes the registry and
  the connection's state (id, nickname, current room) and gives back a
  `Reaction`: the new registry, the new connection state and the outbound
  events. `Reaction` can also be `Threw`, for the handler that throws part
  way (the registry as it was when the throw happened). `RoomsValid` is the
  invariant every handler keeps:
  - one or two players;
  - nine cells;
  - a current player who is one of the players;
  - at most one connection waiting for a rematch.
- `SessionProperties` (session_properties.dfy): lemmas about runs of
  several handlers. They cover turn alternation, moves after a game has
  ended, a lone creator's move, the rematch handshake, and what is left
  after a disconnect.
- `Server` (server.dfy): the mutable form. `Registry` is a class holding
  the room map. `Connection` is a class with the closure variables
  `nickname` and `currentRoom`. It has one method per handler. Each method
  updates the registry and the connection in place and returns the emitted
  events. Its postcondition equates the new state and events with the
  matching `Session` function. `Server.OpeningMoves` is a usage example:
  two connections on one registry create, join and make a first move, and
  the facts asserted there follow from the method contracts alone.

Each `socket.emit(...)` becomes an outbound event addressed to `Sender`.
Each `io.to(room).emit(...)` becomes one addressed to `Members(room)`.
`socket.join` is modelled only as setting the connection's current room.

The model keeps these behaviours of the code, which a reader of the game
rules might not expect:
- `createRoom` already makes the creator the current player.
- `joinRoom` never assigns the current player. Because the invariant keeps
  the current player among the players, the `gameStart` broadcast of
  `players[0].id` still names the room's current player (see
  `Session.JoinRoom`).
- A move may overwrite an occupied cell.
- A rematch reverses the order of the players.
- Moves after the end of a game are accepted.

## Model

| member | source | states |
|---|---|---|
| `Board.ScanLines` | server/index.js:123-129 | The scan from line `from` on returns a symbol `s` only when some later line holds three `s` and no line between `from` and that line is uniform. It returns nothing exactly when no remaining line is uniform. |
| `Board.CheckWinner` | server/index.js:111-130 | Returns `s` only if some one of the 8 fixed lines holds three `s` and every line listed before it is not uniform. Returns null exactly when no line is uniformly non-null. |
| `Board.FirstUniformLineWins` | server/index.js:123-127 | The reverse direction: when line `k` holds three `s` and no earlier line is uniform, the winner is `s`. |
| `Board.ScanReachesLine` | server/index.js:123-127 | Starting from any line at or before the first uniform one, the scan reaches that line and reports its symbol. |
| `Board.OneMarkNoWinner` | server/index.js:66-69 | A board holding one mark has no winner and an empty cell, so the first move of a game never sends `gameEnd`. |
| `Board.TopRowWins` | server/index.js:111-130 | A board whose top row is X wins for X. |
| `Board.FullBoardDraw` | server/index.js:111-130 | A full board with no uniform line has no winner and no empty cell: the draw case. |
| `Session.Reverse` | server/index.js:81 | The in-place `players.reverse()`: same length, and element `i` is the old element `n-1-i`. |
| `Session.ReverseKeepsIds` | server/index.js:81-82 | Reversing the players keeps the same set of ids, so the new first player is still a player of the room. |
| `Session.FindOther` | server/index.js:59 | `players.find(p => p.id !== id)`: the first player whose id differs from `id`, with every earlier player having id `id`. It returns nothing exactly when every player has id `id`. |
| `Session.ReadyGrowsByOne` | server/index.js:76-79 | Adding the sender to a ready set of at most one gives size 2 exactly when another connection was waiting, and size 1 otherwise. |
| `Session.SetNickname` | server/index.js:24-27 | Sets the connection's nickname, keeps its id, its room and the whole registry, and acknowledges `nicknameSet` to the sender only. |
| `Session.CreateRoom` | server/index.js:29-39 | The registry gains `roomId`. Its room has players exactly `[{creator id, current nickname}]`, the creator as current player, nine empty cells and an empty ready set. Every other room is unchanged. With a fresh id the registry grows by one. The connection's room becomes `roomId`, the sender gets `roomCreated`, and the invariant is kept. |
| `Session.JoinRoom` | server/index.js:41-52 | An absent or full room leaves everything unchanged and sends nothing. Otherwise exactly one player `{id, nickname}` is appended at the end, and the room's other fields and all other rooms are unchanged. The connection's room is set, and `gameStart` with the players and `players[0].id` goes to the room. No room ever gets more than two players. The invariant is kept, and the broadcast first mover is the room's current player. |
| `Session.MakeMove` | server/index.js:54-71 | If the room is missing or the sender is not the current player, nothing changes and nothing is sent. Otherwise the mover's symbol (X for `players[0]`, else O) is written at `index`, every other cell is unchanged, and players and ready set are untouched. The handler throws exactly when no other player exists, and the current player is then unchanged. If it does not throw, the turn passes to a player other than the mover. `updateBoard` is sent, followed by `gameEnd` exactly when `CheckWinner` finds a winner or no cell is empty. `gameEnd` carries `CheckWinner`'s result, so the winner is null in a draw. Other rooms are unchanged and the invariant is kept. |
| `Session.RequestReplay` | server/index.js:73-97 | Without a room, nothing happens. The restart fires exactly when another connection was already waiting. It sets nine empty cells, reversed players, the new `players[0]` as current player and an empty ready set, and sends `gameRestart`. Otherwise the sender is added to the ready set (size 1) and `playerReadyForReplay` with `totalReady` 1 is sent. Other rooms are unchanged and the invariant is kept. |
| `Session.Disconnect` | server/index.js:99-108 | With a non-empty current room id, that id leaves the registry, every other room is unchanged, and `playerLeft` goes to the room. With no room id (or the empty string) nothing happens. The invariant is kept. |
| `SessionProperties.TurnPassesToOpponent` | server/index.js:56-59 | In a room of two distinct players, an accepted move by either player gives the turn to the other and marks X for the first player, O for the second. |
| `SessionProperties.NoSecondMoveInARow` | server/index.js:56-59 | After an accepted move, the same connection's next move is ignored. |
| `SessionProperties.TurnsAlternate` | server/index.js:56-59 | Successive moves by the first and then the second player place X and O and give the turn back to the first player. |
| `SessionProperties.MoveAfterGameEndAccepted` | server/index.js:54-70 | After a move that sent `gameEnd`, the opponent's move is still accepted and broadcast. |
| `SessionProperties.LoneCreatorMoveThrows` | server/index.js:29-59 | A creator is made the current player at creation (line 33). A move by that creator before anyone has joined writes X (line 58), then the handler throws at line 59 because no other player exists, and the creator keeps the turn. |
| `SessionProperties.CreatorMovesFirst` | server/index.js:29-52 | After a create and a join, the room's players are creator then joiner, and the creator is the current player. `gameStart` names the creator as first mover. |
| `SessionProperties.ThirdJoinIgnored` | server/index.js:41-43 | A third `joinRoom` on a room that two connections filled changes nothing and sends nothing. |
| `SessionProperties.RematchSwapsOrder` | server/index.js:73-95 | Starting from players `[A, B]`, A's request sends `playerReadyForReplay` with 1 ready. B's request then restarts the room as `[B, A]`: B to move, empty board, empty ready set. |
| `SessionProperties.RepeatedReplayRequest` | server/index.js:76-77 | A repeated request from the same connection before the other player asks leaves the ready set and room unchanged and repeats the same event. |
| `SessionProperties.DisconnectEndsRoom` | server/index.js:99-108 | After a disconnect, the room cannot be joined. The other player's `makeMove` and `requestReplay` find no room and do nothing. |
| `Server.Registry.constructor` | server/index.js:18 | The registry starts empty and valid. |
| `Server.Connection.constructor` | server/index.js:20-22 | A connection starts with no nickname and no current room. |
| `Server.Connection.SetNickname` | server/index.js:24-27 | The new nickname, room and events are those of `Session.SetNickname`. |
| `Server.Connection.CreateRoom` | server/index.js:29-39 | The updated registry, connection and events are those of `Session.CreateRoom`, and the registry stays valid. |
| `Server.Connection.JoinRoom` | server/index.js:41-52 | The updated registry, connection and events are those of `Session.JoinRoom`, and the registry stays valid. |
| `Server.Connection.MakeMove` | server/index.js:54-71 | The updated registry and events, or the throw, are those of `Session.MakeMove`. A throw sends nothing, and the registry stays valid. |
| `Server.Connection.RequestReplay` | server/index.js:73-97 | The updated registry and events are those of `Session.RequestReplay`, and the registry stays valid. |
| `Server.Connection.Disconnect` | server/index.js:99-108 | The updated registry and events are those of `Session.Disconnect`, and the registry stays valid. |

## Left out

- Session.MakeMove: `index` has the type `Index` (0 to 8). The source does not check the index. An out-of-range or non-integer index would extend the JavaScript array or add a property, which the nine-cell model does not represent.
- Server.Connection.MakeMove: the same restriction of `index` to 0 to 8.
- Session.RequestReplay: the ready set can hold a connection that is not a player of the room. After `createRoom` reuses a live room's id, that room's old players still have it as their current room, and their rematch requests go into the new room's ready set. So the contract says a restart fires when another connection is waiting, not when both players of the room are ready.
- Server.Connection.CreateRoom: the room id drawn by `Math.random().toString(36).substring(7)` is a parameter. No freshness is required, and an existing room with the same id is replaced, as `rooms.set` does.
- What the runtime does with the exception thrown by a lone player's move is not modelled. The model records only the state at the throw.
- The HTTP server, the socket.io set-up, the CORS origin and the port binding are I/O and are not modelled.
- Broadcast groups (`socket.join`) are not modelled. An event to `Members(room)` stands for `io.to(room).emit`.
- Payloads are modelled as typed values: nicknames and room ids are strings, and a move index is an integer. Any other JSON value a client could send is not represented.
- Emitted board and player lists are snapshot values. That socket.io serialises the live arrays is not modelled.
- A room record is modelled as a value replaced in the map, not as an object updated in place. Only the registry refers to a room, and every handler fetches it again.
- The difference between a missing `playersReadyForReplay` and an empty set is not observable in any event or decision, so the model starts every room with an empty set.
- Concurrency is not modelled. The event loop runs each handler to completion, so every handler is modelled as one atomic step.
