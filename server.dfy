/**
  The server's mutable state: one registry of rooms shared by every
  connection, and per connection the two variables its handlers update.
  Each handler is a method that changes the registry and the connection in
  place and returns the events it sends; its contract ties the new state to
  the corresponding function of module Session.
 */
module Server {
  import opened Wrappers
  import opened Board
  import opened Session

  /** The process-wide map from room id to room. */
  class Registry {
    var rooms: Rooms

    ghost predicate Valid()
      reads this
    {
      RoomsValid(rooms)
    }

    constructor ()
      ensures Valid() && rooms == map[]
    {
      rooms := map[];
    }
  }

  /** One client connection: its id, the shared registry, and its nickname and current room. */
  class Connection {
    const id: ConnId
    const registry: Registry
    var nickname: Option<string>
    var currentRoom: Option<RoomId>

    /** The connection's variables as a value. */
    function State(): Conn
      reads this
    {
      Conn(id, nickname, currentRoom)
    }

    /** A new connection has no nickname and no room yet. */
    constructor (id: ConnId, registry: Registry)
      ensures this.id == id && this.registry == registry
      ensures nickname == None && currentRoom == None
    {
      this.id := id;
      this.registry := registry;
      nickname := None;
      currentRoom := None;
    }

    method SetNickname(name: string) returns (out: seq<Outbound>)
      modifies this
      ensures Handled(registry.rooms, State(), out) == Session.SetNickname(old(registry.rooms), old(State()), name)
    {
      nickname := Some(name);
      out := [Emit(Sender, NicknameSet(name))];
    }

    /** `createRoom`; the id the source draws at random is the parameter `roomId`. */
    method CreateRoom(roomId: RoomId) returns (out: seq<Outbound>)
      requires registry.Valid()
      modifies this, registry
      ensures registry.Valid()
      ensures Handled(registry.rooms, State(), out) == Session.CreateRoom(old(registry.rooms), old(State()), roomId)
    {
      registry.rooms := registry.rooms[roomId := Room([Player(id, nickname)], id, EmptyBoard, {})];
      currentRoom := Some(roomId);
      out := [Emit(Sender, RoomCreated(roomId))];
    }

    method JoinRoom(roomId: RoomId) returns (out: seq<Outbound>)
      requires registry.Valid()
      modifies this, registry
      ensures registry.Valid()
      ensures Handled(registry.rooms, State(), out) == Session.JoinRoom(old(registry.rooms), old(State()), roomId)
    {
      out := [];
      if roomId in registry.rooms && |registry.rooms[roomId].players| < 2 {
        var room := registry.rooms[roomId];
        room := room.(players := room.players + [Player(id, nickname)]);
        registry.rooms := registry.rooms[roomId := room];
        currentRoom := Some(roomId);
        out := [Emit(Members(roomId), GameStart(room.players, room.players[0].id))];
      }
    }

    /** `makeMove`; `threw` reports the handler throwing when no other participant exists. */
    method MakeMove(index: Index) returns (threw: bool, out: seq<Outbound>)
      requires registry.Valid()
      modifies registry
      ensures registry.Valid()
      ensures threw ==> out == []
      ensures (if threw then Threw(registry.rooms, State()) else Handled(registry.rooms, State(), out))
              == Session.MakeMove(old(registry.rooms), old(State()), index)
    {
      threw, out := false, [];
      ghost var rooms0, conn0 := registry.rooms, State();
      if currentRoom.Some? && currentRoom.value in registry.rooms
         && registry.rooms[currentRoom.value].currentPlayer == id
      {
        var roomId := currentRoom.value;
        var room := registry.rooms[roomId];
        ghost var room0 := room;
        assert RoomValid(room);
        var symbol := if room.players[0].id == id then X else O;
        room := room.(board := room.board[index := Mark(symbol)]);
        registry.rooms := registry.rooms[roomId := room];
        var other := FindOther(room.players, id);
        if other.None? {
          threw := true;
          assert Session.MakeMove(rooms0, conn0, index) == Threw(registry.rooms, conn0);
          return;
        }
        room := room.(currentPlayer := other.value.id);
        registry.rooms := registry.rooms[roomId := room];
        out := [Emit(Members(roomId), UpdateBoard(room.board, room.currentPlayer))];
        var winner := CheckWinner(room.board);
        if winner.Some? || Empty !in room.board {
          out := out + [Emit(Members(roomId), GameEnd(winner))];
        }
        assert registry.rooms == rooms0[roomId := room];
        assert room == room0.(board := room0.board[index := Mark(MoverSymbol(room0.players, id))]).(currentPlayer := other.value.id);
        assert FindOther(room0.players, id) == other;
        assert Session.MakeMove(rooms0, conn0, index) == Handled(registry.rooms, conn0, out);
      } else {
        assert Session.MakeMove(rooms0, conn0, index) == Handled(rooms0, conn0, []);
      }
    }

    method RequestReplay() returns (out: seq<Outbound>)
      requires registry.Valid()
      modifies registry
      ensures registry.Valid()
      ensures Handled(registry.rooms, State(), out) == Session.RequestReplay(old(registry.rooms), old(State()))
    {
      out := [];
      if currentRoom.Some? && currentRoom.value in registry.rooms {
        var roomId := currentRoom.value;
        var room := registry.rooms[roomId];
        room := room.(ready := room.ready + {id});
        if |room.ready| == 2 {
          room := room.(board := EmptyBoard);
          room := room.(players := Reverse(room.players));
          room := room.(currentPlayer := room.players[0].id);
          room := room.(ready := {});
          registry.rooms := registry.rooms[roomId := room];
          out := [Emit(Members(roomId), GameRestart(room.board, room.currentPlayer, room.players))];
        } else {
          registry.rooms := registry.rooms[roomId := room];
          out := [Emit(Members(roomId), PlayerReadyForReplay(id, |room.ready|))];
        }
      }
    }

    method Disconnect() returns (out: seq<Outbound>)
      requires registry.Valid()
      modifies registry
      ensures registry.Valid()
      ensures Handled(registry.rooms, State(), out) == Session.Disconnect(old(registry.rooms), old(State()))
    {
      out := [];
      if currentRoom.Some? && currentRoom.value != "" {
        var roomId := currentRoom.value;
        if roomId in registry.rooms {
          var room := registry.rooms[roomId];
          registry.rooms := registry.rooms[roomId := room.(ready := room.ready - {id})];
        }
        out := [Emit(Members(roomId), PlayerLeft)];
        registry.rooms := registry.rooms - {roomId};
      }
    }
  }

  /**
    Two connections on one registry: `a` opens a room, `b` joins it, `a`
    plays the centre as X, the room is sent the board alone (the game goes
    on) and the turn passes to `b`; a second move by `a` is ignored.
   */
  method OpeningMoves(a: ConnId, b: ConnId)
    requires a != b
  {
    var registry := new Registry();
    var first := new Connection(a, registry);
    var second := new Connection(b, registry);
    var created := first.CreateRoom("room");
    var joined := second.JoinRoom("room");
    assert registry.rooms["room"].players == [Player(a, None), Player(b, None)];
    var threw, moved := first.MakeMove(4);
    var board := registry.rooms["room"].board;
    assert !threw && registry.rooms["room"].currentPlayer == b;
    assert board == EmptyBoard[4 := Mark(X)];
    OneMarkNoWinner(4, X);
    assert moved == [Emit(Members("room"), UpdateBoard(board, b))];
    var again, ignored := first.MakeMove(0);
    assert !again && ignored == [];
  }
}
