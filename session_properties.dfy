/**
  Properties of runs of several handlers: how turns pass, how a rematch
  reorders the participants, and what is left of a room after a disconnect.
 */
module SessionProperties {
  import opened Wrappers
  import opened Board
  import opened Session

  /** Room `roomId` holds exactly the two distinct participants `pa` then `pb`. */
  ghost predicate TwoPlayerRoom(rooms: Rooms, roomId: RoomId, pa: Player, pb: Player) {
    && RoomsValid(rooms)
    && roomId in rooms
    && rooms[roomId].players == [pa, pb]
    && pa.id != pb.id
  }

  /**
    In a room of two distinct participants an accepted move gives the turn to
    the other participant, and the mover's symbol is X exactly when it is the
    first participant.
   */
  lemma TurnPassesToOpponent(rooms: Rooms, roomId: RoomId, pa: Player, pb: Player, conn: Conn, index: Index)
    requires TwoPlayerRoom(rooms, roomId, pa, pb)
    requires conn.currentRoom == Some(roomId) && HasTurn(rooms, conn)
    ensures var r := MakeMove(rooms, conn, index);
      && r.Handled?
      && r.rooms[roomId].currentPlayer == (if conn.id == pa.id then pb.id else pa.id)
      && r.rooms[roomId].board[index] == Mark(if conn.id == pa.id then X else O)
  {
    var room := rooms[roomId];
    assert Ids(room.players) == {pa.id, pb.id};
    assert conn.id == pa.id || conn.id == pb.id;
    assert conn.id == pa.id ==> pb in room.players && pb.id != conn.id;
    assert conn.id == pb.id ==> pa in room.players && pa.id != conn.id;
  }

  /** After an accepted move the mover's next move is ignored until the opponent has moved. */
  lemma NoSecondMoveInARow(rooms: Rooms, conn: Conn, first: Index, second: Index)
    requires RoomsValid(rooms) && HasTurn(rooms, conn)
    requires MakeMove(rooms, conn, first).Handled?
    ensures var r := MakeMove(rooms, conn, first);
      MakeMove(r.rooms, conn, second) == Handled(r.rooms, conn, [])
  {
    var r := MakeMove(rooms, conn, first);
    var id := conn.currentRoom.value;
    assert r.rooms[id].currentPlayer in Ids(rooms[id].players) - {conn.id};
    assert !HasTurn(r.rooms, conn);
  }

  /**
    Two accepted moves in a row, by the first and then the second participant
    of a two-player room, place an X and an O and give the turn back to the
    first participant.
   */
  lemma TurnsAlternate(rooms: Rooms, roomId: RoomId, pa: Player, pb: Player, a: Conn, b: Conn, i: Index, j: Index)
    requires TwoPlayerRoom(rooms, roomId, pa, pb)
    requires a.id == pa.id && b.id == pb.id
    requires a.currentRoom == Some(roomId) && b.currentRoom == Some(roomId)
    requires rooms[roomId].currentPlayer == a.id
    ensures var r1 := MakeMove(rooms, a, i);
      && r1.Handled? && HasTurn(r1.rooms, b)
      && var r2 := MakeMove(r1.rooms, b, j);
      && r2.Handled?
      && r2.rooms[roomId].currentPlayer == a.id
      && r2.rooms[roomId].board[j] == Mark(O)
      && (i != j ==> r2.rooms[roomId].board[i] == Mark(X))
  {
    TurnPassesToOpponent(rooms, roomId, pa, pb, a, i);
    var r1 := MakeMove(rooms, a, i);
    assert TwoPlayerRoom(r1.rooms, roomId, pa, pb);
    TurnPassesToOpponent(r1.rooms, roomId, pa, pb, b, j);
  }

  /**
    The end of a game does not stop play: after a move that ended the game,
    the opponent's move is still accepted and broadcast.
   */
  lemma MoveAfterGameEndAccepted(rooms: Rooms, roomId: RoomId, pa: Player, pb: Player, a: Conn, b: Conn, i: Index, j: Index)
    requires TwoPlayerRoom(rooms, roomId, pa, pb)
    requires a.id == pa.id && b.id == pb.id
    requires a.currentRoom == Some(roomId) && b.currentRoom == Some(roomId)
    requires rooms[roomId].currentPlayer == a.id
    requires |MakeMove(rooms, a, i).out| == 2
    ensures var r1 := MakeMove(rooms, a, i);
      r1.out[1].event.GameEnd? && MakeMove(r1.rooms, b, j).Handled? && MakeMove(r1.rooms, b, j).out != []
  {
    TurnsAlternate(rooms, roomId, pa, pb, a, b, i, j);
  }

  /**
    A creator who moves before anyone joined: the mark is written, the
    handler throws, and the creator keeps the turn.
   */
  lemma LoneCreatorMoveThrows(rooms: Rooms, conn: Conn, roomId: RoomId, index: Index)
    requires RoomsValid(rooms)
    ensures var c := CreateRoom(rooms, conn, roomId);
      var r := MakeMove(c.rooms, c.conn, index);
      && r.Threw?
      && r.rooms[roomId].board[index] == Mark(X)
      && r.rooms[roomId].currentPlayer == conn.id
      && HasTurn(r.rooms, c.conn)
  {
    var c := CreateRoom(rooms, conn, roomId);
    assert HasTurn(c.rooms, c.conn);
    assert forall p :: p in c.rooms[roomId].players ==> p.id == conn.id;
  }

  /**
    Creating a room and having a second connection join it starts a game in
    which the creator is the first participant and the one to move.
   */
  lemma CreatorMovesFirst(rooms: Rooms, a: Conn, b: Conn, roomId: RoomId)
    requires RoomsValid(rooms)
    ensures var c := CreateRoom(rooms, a, roomId);
      var j := JoinRoom(c.rooms, b, roomId);
      && j.rooms[roomId].players == [Player(a.id, a.nickname), Player(b.id, b.nickname)]
      && j.rooms[roomId].currentPlayer == a.id
      && j.out == [Emit(Members(roomId), GameStart(j.rooms[roomId].players, a.id))]
  {
    var c := CreateRoom(rooms, a, roomId);
    assert CanJoin(c.rooms, roomId);
  }

  /** A third connection cannot enter a two-player room: nothing changes and nothing is sent. */
  lemma ThirdJoinIgnored(rooms: Rooms, a: Conn, b: Conn, c: Conn, roomId: RoomId)
    requires RoomsValid(rooms)
    ensures var r1 := CreateRoom(rooms, a, roomId);
      var r2 := JoinRoom(r1.rooms, b, roomId);
      JoinRoom(r2.rooms, c, roomId) == Handled(r2.rooms, c, [])
  {
    CreatorMovesFirst(rooms, a, b, roomId);
  }

  /**
    The rematch handshake: the first request is announced with one ready,
    the other participant's request restarts the room with the participants
    swapped, so the former second participant moves first.
   */
  lemma RematchSwapsOrder(rooms: Rooms, roomId: RoomId, pa: Player, pb: Player, a: Conn, b: Conn)
    requires TwoPlayerRoom(rooms, roomId, pa, pb)
    requires a.id == pa.id && b.id == pb.id
    requires a.currentRoom == Some(roomId) && b.currentRoom == Some(roomId)
    requires rooms[roomId].ready == {}
    ensures var r1 := RequestReplay(rooms, a);
      && r1.out == [Emit(Members(roomId), PlayerReadyForReplay(a.id, 1))]
      && var r2 := RequestReplay(r1.rooms, b);
      && r2.rooms[roomId] == Room([pb, pa], b.id, EmptyBoard, {})
      && r2.out == [Emit(Members(roomId), GameRestart(EmptyBoard, b.id, [pb, pa]))]
  {
    var r1 := RequestReplay(rooms, a);
    assert !CompletesRematch(rooms[roomId], a.id) by {
      assert rooms[roomId].ready + {a.id} == {a.id};
    }
    assert r1.rooms[roomId].ready == {a.id};
    assert CompletesRematch(r1.rooms[roomId], b.id);
    var r2 := RequestReplay(r1.rooms, b);
    assert Reverse([pa, pb]) == [pb, pa];
  }

  /** Asking for a rematch again before the other participant has changes nothing and repeats the announcement. */
  lemma RepeatedReplayRequest(rooms: Rooms, conn: Conn)
    requires RoomsValid(rooms) && InRoom(rooms, conn)
    requires !CompletesRematch(rooms[conn.currentRoom.value], conn.id)
    ensures var r1 := RequestReplay(rooms, conn);
      RequestReplay(r1.rooms, conn) == r1
  {
    var id := conn.currentRoom.value;
    var r1 := RequestReplay(rooms, conn);
    assert r1.rooms[id].ready + {conn.id} == r1.rooms[id].ready;
    assert r1.rooms[id := r1.rooms[id]] == r1.rooms;
  }

  /**
    After a participant disconnects its room is gone: nobody can join it, and
    the other participant's moves and rematch requests are ignored.
   */
  lemma DisconnectEndsRoom(rooms: Rooms, leaver: Conn, peer: Conn, joiner: Conn, index: Index)
    requires RoomsValid(rooms)
    requires Truthy(leaver.currentRoom) && peer.currentRoom == leaver.currentRoom
    ensures var d := Disconnect(rooms, leaver);
      && JoinRoom(d.rooms, joiner, leaver.currentRoom.value) == Handled(d.rooms, joiner, [])
      && MakeMove(d.rooms, peer, index) == Handled(d.rooms, peer, [])
      && RequestReplay(d.rooms, peer) == Handled(d.rooms, peer, [])
  {
    var d := Disconnect(rooms, leaver);
    assert leaver.currentRoom.value !in d.rooms;
    assert !InRoom(d.rooms, peer) && !CanJoin(d.rooms, leaver.currentRoom.value);
  }
}
