/**
 * The server's room registry: the `rooms` object that server.js loads at start-up,
 * changes in its handshake middleware and socket handlers, and writes back to
 * rooms.json after every successful change.
 */
module Server {
  import opened Wrappers
  import opened BoardStore
  import opened RoomState

  class Registry {
    /** Room id to room, as in the `rooms` object. */
    var rooms: map<string, Room>
    /** The registry as `saveRooms` last wrote it to rooms.json during this run;
        None until the first write. */
    var lastSaved: Option<map<string, Room>>

    /** Start-up: the parsed contents of rooms.json, or an empty registry when the
        file could not be read or parsed (`persisted` is None). */
    constructor (persisted: Option<map<string, Room>>)
      ensures rooms == (if persisted.Some? then persisted.value else map[])
      ensures lastSaved == None
    {
      rooms := if persisted.Some? then persisted.value else map[];
      lastSaved := None;
    }

    /** `GET /rooms`: the ids of all registered rooms, without passwords or boards. */
    function RoomIds(): (ids: set<string>)
      reads this
      ensures forall id :: id in ids <==> id in rooms
    {
      rooms.Keys
    }

    /** The handshake middleware followed by the `init` push of the connection handler. */
    method Authenticate(roomId: Option<string>, password: Option<string>, username: Option<string>)
      returns (r: AuthResult)
      modifies this
      ensures var a := Handshake(old(rooms), roomId, password, username);
        rooms == a.rooms && r == a.result
      ensures old(RoomIds()) <= RoomIds()
      ensures r.Admitted? ==> r.session.roomId in RoomIds()
      ensures lastSaved == if rooms != old(rooms) then Some(rooms) else old(lastSaved)
    {
      if !Supplied(roomId) || !Supplied(password) || !Supplied(username) {
        return Rejected(AUTHENTICATION_ERROR);
      }
      var id, pw := roomId.value, password.value;
      if id !in rooms {
        rooms := rooms[id := Room(pw, CreateBoard(), map[])];
        lastSaved := Some(rooms);
      }
      if rooms[id].password != pw {
        return Rejected(INVALID_ROOM_OR_PASSWORD);
      }
      r := Admitted(Session(id, username.value), rooms[id].board);
    }

    /** The `addCard` handler of an admitted session. */
    method AddCard(s: Session, column: string, id: string, text: string) returns (o: Outcome)
      requires s.roomId in rooms
      modifies this
      ensures var st := AddStep(old(rooms)[s.roomId], s.username, column, id, text);
        rooms == old(rooms)[s.roomId := st.room] && o == st.outcome
      ensures lastSaved == if o.ToRoom? then Some(rooms) else old(lastSaved)
    {
      var room := rooms[s.roomId];
      var c := ParseColumn(column);
      if c.None? {
        return Threw;
      }
      var card := Card(id, text, 0, s.username);
      var cards := room.board.Column(c.value);
      rooms := rooms[s.roomId := room.(board := room.board.With(c.value, cards + [card]))];
      lastSaved := Some(rooms);
      o := ToRoom(CardAdded(column, card));
    }

    /** The `voteCard` handler of an admitted session: the quota check comes before
        the card lookup, so a vote for a missing card is not charged. */
    method VoteCard(s: Session, column: string, cardId: string) returns (o: Outcome)
      requires s.roomId in rooms
      modifies this
      ensures var st := VoteStep(old(rooms)[s.roomId], s.username, column, cardId);
        rooms == old(rooms)[s.roomId := st.room] && o == st.outcome
      ensures lastSaved == if o.ToRoom? then Some(rooms) else old(lastSaved)
    {
      var room := rooms[s.roomId];
      ghost var spec := VoteStep(room, s.username, column, cardId);
      var used := Used(room.votesByUser, s.username);
      if used >= VOTE_QUOTA {
        assert spec == Step(room, ToSender(VoteDenied));
        return ToSender(VoteDenied);
      }
      var c := ParseColumn(column);
      if c.None? {
        assert spec == Step(room, Threw);
        return Threw;
      }
      var cards := room.board.Column(c.value);
      var i := FindIndex(cards, cardId);
      if i == -1 {
        assert spec == Step(room, NoReply);
        return NoReply;
      }
      var voted := cards[i].(votes := cards[i].votes + 1);
      room := room.(board := room.board.With(c.value, cards[i := voted]),
                    votesByUser := room.votesByUser[s.username := used + 1]);
      assert spec == Step(room, ToRoom(CardVoted(column, cardId, voted.votes)));
      rooms := rooms[s.roomId := room];
      lastSaved := Some(rooms);
      o := ToRoom(CardVoted(column, cardId, voted.votes));
    }

    /** The `moveCard` handler of an admitted session. When `toColumn` is unknown the
        card has already been spliced out of `fromColumn`: it stays out of `rooms`,
        and rooms.json, not rewritten, still holds it. */
    method MoveCard(s: Session, cardId: string, fromColumn: string, toColumn: string, newIndex: int)
      returns (o: Outcome)
      requires s.roomId in rooms
      modifies this
      ensures var st := MoveStep(old(rooms)[s.roomId], cardId, fromColumn, toColumn, newIndex);
        rooms == old(rooms)[s.roomId := st.room] && o == st.outcome
      ensures lastSaved == if o.ToRoom? then Some(rooms) else old(lastSaved)
    {
      var room := rooms[s.roomId];
      ghost var spec := MoveStep(room, cardId, fromColumn, toColumn, newIndex);
      var f := ParseColumn(fromColumn);
      if f.None? {
        assert spec == Step(room, Threw);
        return Threw;
      }
      var from := room.board.Column(f.value);
      var i := FindIndex(from, cardId);
      if i == -1 {
        assert spec == Step(room, NoReply);
        return NoReply;
      }
      var card := from[i];
      room := room.(board := room.board.With(f.value, Removed(from, i)));
      var t := ParseColumn(toColumn);
      if t.None? {
        // the card spliced out at :97 stays out when :98 throws
        assert spec == Step(room, Threw);
        rooms := rooms[s.roomId := room];
        return Threw;
      }
      var to := room.board.Column(t.value);
      room := room.(board := room.board.With(t.value, Inserted(to, SpliceStart(|to|, newIndex), card)));
      assert spec == Step(room, ToRoom(CardMoved(cardId, fromColumn, toColumn, newIndex)));
      rooms := rooms[s.roomId := room];
      lastSaved := Some(rooms);
      o := ToRoom(CardMoved(cardId, fromColumn, toColumn, newIndex));
    }
  }
}
