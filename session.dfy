/**
  The room registry and the per-connection event handlers of the game server,
  as functions from the registry and the connection's own state to the new
  registry, the new connection state and the events sent out.

  The registry maps a room id to its room.  A connection remembers its
  nickname and the last room it created or joined.  Every handler runs to
  completion before the next event is handled, so each one is a single
  step from one state to the next.
 */
module Session {
  import opened Wrappers
  import opened Board

  type ConnId = string
  type RoomId = string

  /** A participant of a room: its connection id and the nickname it had when it entered. */
  datatype Player = Player(id: ConnId, nickname: Option<string>)

  /**
    A room: its participants in order (the first plays X), the id of the
    participant whose move is accepted, the board and the set of participants
    that asked for a rematch since the last restart.
   */
  datatype Room = Room(players: seq<Player>, currentPlayer: ConnId, board: seq<Cell>, ready: set<ConnId>)

  type Rooms = map<RoomId, Room>

  /** The state a connection's handlers share: its id, its nickname, its current room. */
  datatype Conn = Conn(id: ConnId, nickname: Option<string>, currentRoom: Option<RoomId>)

  /** Who an outbound event goes to: the requesting connection, or every member of a room. */
  datatype Audience = Sender | Members(room: RoomId)

  datatype Event =
    | NicknameSet(nickname: string)
    | RoomCreated(roomId: RoomId)
    | GameStart(players: seq<Player>, currentPlayer: ConnId)
    | UpdateBoard(board: seq<Cell>, currentPlayer: ConnId)
    | GameEnd(winner: Option<Symbol>)
    | PlayerReadyForReplay(readyPlayerId: ConnId, totalReady: nat)
    | GameRestart(board: seq<Cell>, currentPlayer: ConnId, players: seq<Player>)
    | PlayerLeft

  datatype Outbound = Emit(to: Audience, event: Event)

  /**
    What a handler leaves behind: the registry, the connection state and the
    events it sent, or, when the handler threw part way, the registry and
    connection state as they were at the throw (nothing was sent).
   */
  datatype Reaction =
    | Handled(rooms: Rooms, conn: Conn, out: seq<Outbound>)
    | Threw(rooms: Rooms, conn: Conn)

  function Ids(players: seq<Player>): set<ConnId> {
    set p | p in players :: p.id
  }

  /**
    What every room in the registry satisfies: one or two participants, nine
    cells, a current player that is one of the participants, and at most one
    connection waiting for a rematch.
   */
  ghost predicate RoomValid(room: Room) {
    && 1 <= |room.players| <= 2
    && |room.board| == 9
    && room.currentPlayer in Ids(room.players)
    && |room.ready| <= 1
  }

  ghost predicate RoomsValid(rooms: Rooms) {
    forall id :: id in rooms ==> RoomValid(rooms[id])
  }

  /** Every room other than `except` is still there and unchanged. */
  ghost predicate OthersUnchanged(rooms: Rooms, rooms': Rooms, except: Option<RoomId>) {
    forall k :: k in rooms && Some(k) != except ==> k in rooms' && rooms'[k] == rooms[k]
  }

  /** The connection's room is in the registry. */
  predicate InRoom(rooms: Rooms, conn: Conn) {
    conn.currentRoom.Some? && conn.currentRoom.value in rooms
  }

  /** The connection's room is in the registry and the connection is its current player. */
  predicate HasTurn(rooms: Rooms, conn: Conn) {
    InRoom(rooms, conn) && rooms[conn.currentRoom.value].currentPlayer == conn.id
  }

  /** The room id is set and is not the empty string, the one string JavaScript takes as false. */
  predicate Truthy(roomId: Option<RoomId>) {
    roomId.Some? && roomId.value != ""
  }

  /** The sequence in the opposite order: what an in-place array reverse leaves. */
  function Reverse<T>(s: seq<T>): (r: seq<T>)
    ensures |r| == |s|
    ensures forall i :: 0 <= i < |s| ==> r[i] == s[|s| - 1 - i]
  {
    if s == [] then [] else Reverse(s[1..]) + [s[0]]
  }

  /** The first participant whose id differs from `id`, if any. */
  function FindOther(players: seq<Player>, id: ConnId): (p: Option<Player>)
    ensures p.Some? ==>
      exists k :: 0 <= k < |players| && players[k] == p.value && p.value.id != id
                  && forall j :: 0 <= j < k ==> players[j].id == id
    ensures p.None? <==> forall q :: q in players ==> q.id == id
  {
    if players == [] then None
    else if players[0].id != id then Some(players[0])
    else
      var rest := FindOther(players[1..], id);
      assert forall q :: q in players ==> q == players[0] || q in players[1..];
      if rest.Some? then
        ghost var k :| 0 <= k < |players[1..]| && players[1..][k] == rest.value && rest.value.id != id
                        && forall j :: 0 <= j < k ==> players[1..][j].id == id;
        assert players[k + 1] == rest.value;
        rest
      else rest
  }

  /** The symbol of a mover: X for the first participant, O for anyone else. */
  function MoverSymbol(players: seq<Player>, id: ConnId): Symbol
    requires |players| >= 1
  {
    if players[0].id == id then X else O
  }

  /** `setNickname`: remember the nickname and acknowledge it to the sender only. */
  function SetNickname(rooms: Rooms, conn: Conn, nickname: string): (r: Reaction)
    ensures r.Handled? && r.rooms == rooms
    ensures r.conn.nickname == Some(nickname)
    ensures r.conn.id == conn.id && r.conn.currentRoom == conn.currentRoom
    ensures r.out == [Emit(Sender, NicknameSet(nickname))]
  {
    Handled(rooms, conn.(nickname := Some(nickname)), [Emit(Sender, NicknameSet(nickname))])
  }

  /**
    `createRoom` under the id `roomId`: a room whose only participant is the
    creator, who is also its current player, on an empty board.  An existing
    room with that id is replaced.
   */
  function CreateRoom(rooms: Rooms, conn: Conn, roomId: RoomId): (r: Reaction)
    ensures r.Handled?
    ensures r.rooms.Keys == rooms.Keys + {roomId}
    ensures r.rooms[roomId].players == [Player(conn.id, conn.nickname)]
    ensures r.rooms[roomId].currentPlayer == conn.id
    ensures r.rooms[roomId].board == EmptyBoard && r.rooms[roomId].ready == {}
    ensures OthersUnchanged(rooms, r.rooms, Some(roomId))
    ensures roomId !in rooms ==> |r.rooms| == |rooms| + 1
    ensures r.conn.currentRoom == Some(roomId)
    ensures r.conn.id == conn.id && r.conn.nickname == conn.nickname
    ensures r.out == [Emit(Sender, RoomCreated(roomId))]
    ensures RoomsValid(rooms) ==> RoomsValid(r.rooms)
  {
    var room := Room([Player(conn.id, conn.nickname)], conn.id, EmptyBoard, {});
    assert conn.id in Ids(room.players);
    Handled(rooms[roomId := room], conn.(currentRoom := Some(roomId)), [Emit(Sender, RoomCreated(roomId))])
  }

  /** `joinRoom` is accepted when the room exists and has fewer than two participants. */
  predicate CanJoin(rooms: Rooms, roomId: RoomId) {
    roomId in rooms && |rooms[roomId].players| < 2
  }

  /**
    `joinRoom`: an absent or full room is left alone and nothing is sent;
    otherwise the joiner is appended as the last participant, the room becomes
    the connection's room, and the room is told the game starts with its
    first participant to move.
   */
  function JoinRoom(rooms: Rooms, conn: Conn, roomId: RoomId): (r: Reaction)
    ensures r.Handled?
    ensures !CanJoin(rooms, roomId) ==> r == Handled(rooms, conn, [])
    ensures CanJoin(rooms, roomId) ==>
      && r.rooms.Keys == rooms.Keys
      && OthersUnchanged(rooms, r.rooms, Some(roomId))
      && r.rooms[roomId] == rooms[roomId].(players := r.rooms[roomId].players)
      && r.rooms[roomId].players == rooms[roomId].players + [Player(conn.id, conn.nickname)]
      && r.conn == conn.(currentRoom := Some(roomId))
      && r.out == [Emit(Members(roomId), GameStart(r.rooms[roomId].players, r.rooms[roomId].players[0].id))]
    ensures forall k :: k in r.rooms && |r.rooms[k].players| > 2 ==> k in rooms && r.rooms[k] == rooms[k]
    ensures RoomsValid(rooms) ==> RoomsValid(r.rooms)
    ensures RoomsValid(rooms) && CanJoin(rooms, roomId) ==>
      r.rooms[roomId].currentPlayer == r.rooms[roomId].players[0].id
  {
    if CanJoin(rooms, roomId) then
      var room := rooms[roomId];
      var joined := room.(players := room.players + [Player(conn.id, conn.nickname)]);
      assert Ids(room.players) <= Ids(joined.players) by {
        forall q | q in room.players ensures q in joined.players { }
      }
      Handled(rooms[roomId := joined], conn.(currentRoom := Some(roomId)),
              [Emit(Members(roomId), GameStart(joined.players, joined.players[0].id))])
    else
      Handled(rooms, conn, [])
  }

  /**
    The mark of a move: `mover`'s symbol at `index`, every other cell as it
    was, the participants and the rematch set untouched.
   */
  ghost predicate MarkPlaced(room: Room, room': Room, mover: ConnId, index: Index)
    requires RoomValid(room)
  {
    && |room'.board| == 9
    && room'.board[index] == Mark(MoverSymbol(room.players, mover))
    && (forall i :: 0 <= i < 9 && i != index ==> room'.board[i] == room.board[i])
    && room'.players == room.players
    && room'.ready == room.ready
  }

  /**
    `makeMove`: ignored unless the connection's room exists and the
    connection is its current player.  Otherwise the mover's symbol is
    written at `index` (occupied or not) and the turn passes to the first
    other participant; when there is none the handler throws after the
    write.  The room is sent the board, then the end of the game when a line
    is uniform or no cell is empty.
   */
  function MakeMove(rooms: Rooms, conn: Conn, index: Index): (r: Reaction)
    requires RoomsValid(rooms)
    ensures r.conn == conn
    ensures RoomsValid(r.rooms)
    ensures r.rooms.Keys == rooms.Keys
    ensures OthersUnchanged(rooms, r.rooms, conn.currentRoom)
    ensures !HasTurn(rooms, conn) ==> r == Handled(rooms, conn, [])
    ensures HasTurn(rooms, conn) ==>
      var id := conn.currentRoom.value;
      && MarkPlaced(rooms[id], r.rooms[id], conn.id, index)
      && (r.Threw? <==> forall p :: p in rooms[id].players ==> p.id == conn.id)
      && (r.Threw? ==> r.rooms[id].currentPlayer == rooms[id].currentPlayer)
      && (r.Handled? ==> r.rooms[id].currentPlayer in Ids(rooms[id].players) - {conn.id})
    ensures HasTurn(rooms, conn) && r.Handled? ==>
      var id := conn.currentRoom.value;
      var room' := r.rooms[id];
      && 1 <= |r.out| <= 2
      && r.out[0] == Emit(Members(id), UpdateBoard(room'.board, room'.currentPlayer))
      && (|r.out| == 2 <==> CheckWinner(room'.board).Some? || Empty !in room'.board)
      && (|r.out| == 2 ==> r.out[1] == Emit(Members(id), GameEnd(CheckWinner(room'.board))))
  {
    if !HasTurn(rooms, conn) then Handled(rooms, conn, [])
    else
      var id := conn.currentRoom.value;
      var room := rooms[id];
      var marked := room.(board := room.board[index := Mark(MoverSymbol(room.players, conn.id))]);
      match FindOther(room.players, conn.id)
      case None => Threw(rooms[id := marked], conn)
      case Some(other) =>
        var moved := marked.(currentPlayer := other.id);
        var winner := CheckWinner(moved.board);
        var update := [Emit(Members(id), UpdateBoard(moved.board, moved.currentPlayer))];
        Handled(rooms[id := moved], conn,
                if winner.Some? || Empty !in moved.board then update + [Emit(Members(id), GameEnd(winner))]
                else update)
  }

  /** The connection's rematch request completes the pair: someone else is already waiting. */
  predicate CompletesRematch(room: Room, id: ConnId) {
    |room.ready + {id}| == 2
  }

  /**
    `requestReplay`: ignored unless the connection's room exists.  The
    sender joins the rematch set; when the set then holds two connections the
    room restarts (empty board, participants in reverse order, the new first
    participant to move, empty set) and says so, otherwise the room is told
    who is ready and how many are.
   */
  function RequestReplay(rooms: Rooms, conn: Conn): (r: Reaction)
    requires RoomsValid(rooms)
    ensures r.Handled? && r.conn == conn
    ensures RoomsValid(r.rooms)
    ensures r.rooms.Keys == rooms.Keys
    ensures OthersUnchanged(rooms, r.rooms, conn.currentRoom)
    ensures !InRoom(rooms, conn) ==> r == Handled(rooms, conn, [])
    ensures InRoom(rooms, conn) ==>
      var id := conn.currentRoom.value;
      var room := rooms[id];
      (CompletesRematch(room, conn.id) <==> exists q :: q in room.ready && q != conn.id)
    ensures InRoom(rooms, conn) && CompletesRematch(rooms[conn.currentRoom.value], conn.id) ==>
      var id := conn.currentRoom.value;
      var room := rooms[id];
      var room' := r.rooms[id];
      && room'.board == EmptyBoard
      && room'.players == Reverse(room.players)
      && room'.currentPlayer == room'.players[0].id
      && room'.ready == {}
      && r.out == [Emit(Members(id), GameRestart(EmptyBoard, room'.currentPlayer, room'.players))]
    ensures InRoom(rooms, conn) && !CompletesRematch(rooms[conn.currentRoom.value], conn.id) ==>
      var id := conn.currentRoom.value;
      var room := rooms[id];
      var room' := r.rooms[id];
      && room'.ready == room.ready + {conn.id}
      && |room'.ready| == 1
      && room' == room.(ready := room'.ready)
      && r.out == [Emit(Members(id), PlayerReadyForReplay(conn.id, 1))]
  {
    if !InRoom(rooms, conn) then Handled(rooms, conn, [])
    else
      var id := conn.currentRoom.value;
      var room := rooms[id];
      var ready := room.ready + {conn.id};
      ReadyGrowsByOne(room.ready, conn.id);
      if |ready| == 2 then
        var players := Reverse(room.players);
        ReverseKeepsIds(room.players);
        var restarted := Room(players, players[0].id, EmptyBoard, {});
        assert players[0] in players;
        Handled(rooms[id := restarted], conn,
                [Emit(Members(id), GameRestart(restarted.board, restarted.currentPlayer, restarted.players))])
      else
        Handled(rooms[id := room.(ready := ready)], conn,
                [Emit(Members(id), PlayerReadyForReplay(conn.id, |ready|))])
  }

  /**
    `disconnect`: when the connection has a room id, the connection leaves
    the rematch set of that room, the room is told a player left, and the
    room is removed from the registry.  Without a room id nothing happens.
   */
  function Disconnect(rooms: Rooms, conn: Conn): (r: Reaction)
    ensures r.Handled? && r.conn == conn
    ensures !Truthy(conn.currentRoom) ==> r == Handled(rooms, conn, [])
    ensures Truthy(conn.currentRoom) ==>
      && r.rooms.Keys == rooms.Keys - {conn.currentRoom.value}
      && r.out == [Emit(Members(conn.currentRoom.value), PlayerLeft)]
    ensures forall k :: k in r.rooms ==> k in rooms && r.rooms[k] == rooms[k]
    ensures RoomsValid(rooms) ==> RoomsValid(r.rooms)
  {
    if Truthy(conn.currentRoom) then
      var id := conn.currentRoom.value;
      var cleaned := if id in rooms then rooms[id := rooms[id].(ready := rooms[id].ready - {conn.id})] else rooms;
      Handled(cleaned - {id}, conn, [Emit(Members(id), PlayerLeft)])
    else
      Handled(rooms, conn, [])
  }

  /**
    Adding the sender to a rematch set of at most one connection gives a set of
    two exactly when someone else was waiting, and otherwise a set of one.
   */
  lemma ReadyGrowsByOne(ready: set<ConnId>, id: ConnId)
    requires |ready| <= 1
    ensures |ready + {id}| == 2 <==> exists q :: q in ready && q != id
    ensures |ready + {id}| != 2 ==> |ready + {id}| == 1 && id in ready + {id}
  {
    if q :| q in ready && q != id {
      assert |ready - {q}| == 0;
      assert ready == {q} by { assert ready - {q} == {}; }
      assert ready + {id} == {q, id};
    } else {
      assert ready + {id} == {id};
    }
  }

  /** Reversing the participants keeps the same set of ids. */
  lemma {:induction false} ReverseKeepsIds(players: seq<Player>)
    ensures Ids(Reverse(players)) == Ids(players)
  {
    var r := Reverse(players);
    forall p | p in players ensures p in r {
      var i :| 0 <= i < |players| && players[i] == p;
      assert r[|players| - 1 - i] == p;
    }
    forall p | p in r ensures p in players {
      var i :| 0 <= i < |r| && r[i] == p;
      assert players[|players| - 1 - i] == p;
    }
  }
}
