/**
 * One room of the registry and what each socket handler of server.js does to it,
 * as functions from the room before the command to the room after it and the
 * event the handler emits. The `Registry` class in module Server applies these
 * to its `rooms` map; the lemmas here are about sequences of commands.
 */
module RoomState {
  import opened Wrappers
  import opened BoardStore

  /** A registry entry: the password bound by the first handshake, the board, and
      the number of votes each username has cast in this room. */
  datatype Room = Room(password: string, board: Board, votesByUser: map<string, nat>)

  /** Votes one username may cast in one room, over all cards and for good. */
  const VOTE_QUOTA: nat := 3

  /** The entry a first handshake creates: its password, an empty board, no votes. */
  function NewRoom(password: string): Room {
    Room(password, CreateBoard(), map[])
  }

  /** `votesByUser[username] || 0`. */
  function Used(votesByUser: map<string, nat>, user: string): nat {
    if user in votesByUser then votesByUser[user] else 0
  }

  /** Events the server emits. */
  datatype Event =
    | CardAdded(column: string, card: Card)
    | CardVoted(column: string, cardId: string, votes: nat)
    | CardMoved(cardId: string, fromColumn: string, toColumn: string, newIndex: int)
    | VoteDenied

  /** How a handler ends: an event to the whole room (`io.to(roomId).emit`), an event
      to the requesting socket only (`socket.emit`), a plain `return`, or a TypeError
      thrown out of the handler when a column name is not one of the three keys. */
  datatype Outcome = ToRoom(event: Event) | ToSender(event: Event) | NoReply | Threw

  datatype Step = Step(room: Room, outcome: Outcome)

  /** The `addCard` handler. */
  function AddStep(room: Room, author: string, column: string, id: string, text: string): (r: Step)
    ensures ParseColumn(column).None? ==> r == Step(room, Threw)
    ensures ParseColumn(column).Some? ==>
      var c := ParseColumn(column).value;
      var card := Card(id, text, 0, author);
      && r.outcome == ToRoom(CardAdded(column, card))
      && r.room.board.Column(c) == room.board.Column(c) + [card]
      && (forall d :: d != c ==> r.room.board.Column(d) == room.board.Column(d))
    ensures r.room.password == room.password && r.room.votesByUser == room.votesByUser
  {
    match ParseColumn(column)
    case None => Step(room, Threw)
    case Some(c) =>
      var card := Card(id, text, 0, author);
      Step(room.(board := room.board.With(c, room.board.Column(c) + [card])), ToRoom(CardAdded(column, card)))
  }

  /** An added card is the one card more on the board, and it brings no votes. */
  lemma AddPutsOneUnvotedCard(room: Room, author: string, column: string, id: string, text: string)
    requires ParseColumn(column).Some?
    ensures
      var after := AddStep(room, author, column, id, text).room.board;
      && multiset(after.AllCards()) == multiset(room.board.AllCards()) + multiset{Card(id, text, 0, author)}
      && |after.AllCards()| == |room.board.AllCards()| + 1
      && after.TotalVotes() == room.board.TotalVotes()
  {
    var c := ParseColumn(column).value;
    var card := Card(id, text, 0, author);
    var cards := room.board.Column(c);
    assert AddStep(room, author, column, id, text).room.board == room.board.With(c, Inserted(cards, |cards|, card)) by {
      assert cards + [card] == Inserted(cards, |cards|, card);
    }
    PutIn(room.board, c, |cards|, card);
    AppendedUnvotedCard(cards, card);
    match c
    case Good =>
    case Bad =>
    case Action =>
  }

  lemma {:induction false} AppendedUnvotedCard(cards: seq<Card>, card: Card)
    requires card.votes == 0
    ensures VotesIn(cards + [card]) == VotesIn(cards)
  {
    if cards == [] {
      assert [card][1..] == [];
    } else {
      assert (cards + [card])[1..] == cards[1..] + [card];
      AppendedUnvotedCard(cards[1..], card);
    }
  }

  /** `after` is `before` with one more vote on the card at index `i`. */
  predicate OneMoreVoteAt(before: seq<Card>, after: seq<Card>, i: int) {
    && 0 <= i < |before| == |after|
    && after[i] == before[i].(votes := before[i].votes + 1)
    && forall k :: 0 <= k < |before| && k != i ==> after[k] == before[k]
  }

  /** The `voteCard` handler: the quota is checked first, then the card is looked up. */
  function VoteStep(room: Room, voter: string, column: string, cardId: string): (r: Step)
    ensures r.outcome == ToSender(VoteDenied) <==> Used(room.votesByUser, voter) >= VOTE_QUOTA
    ensures r.outcome == Threw <==> Used(room.votesByUser, voter) < VOTE_QUOTA && ParseColumn(column).None?
    ensures r.outcome == NoReply <==>
      && Used(room.votesByUser, voter) < VOTE_QUOTA
      && ParseColumn(column).Some?
      && forall k :: 0 <= k < |room.board.Column(ParseColumn(column).value)| ==>
           room.board.Column(ParseColumn(column).value)[k].id != cardId
    ensures r.outcome.ToRoom? <==>
      && Used(room.votesByUser, voter) < VOTE_QUOTA
      && ParseColumn(column).Some?
      && FirstIndex(room.board.Column(ParseColumn(column).value), cardId) != -1
    ensures r.outcome.ToSender? ==> r.outcome == ToSender(VoteDenied)
    ensures !r.outcome.ToRoom? ==> r.room == room
    ensures r.outcome.ToRoom? ==>
      var c := ParseColumn(column).value;
      var i := FirstIndex(room.board.Column(c), cardId);
      && Used(room.votesByUser, voter) < VOTE_QUOTA
      && OneMoreVoteAt(room.board.Column(c), r.room.board.Column(c), i)
      && (forall d :: d != c ==> r.room.board.Column(d) == room.board.Column(d))
      && r.outcome == ToRoom(CardVoted(column, cardId, r.room.board.Column(c)[i].votes))
      && r.room.votesByUser == room.votesByUser[voter := Used(room.votesByUser, voter) + 1]
      && r.room.password == room.password
  {
    var used := Used(room.votesByUser, voter);
    if used >= VOTE_QUOTA then Step(room, ToSender(VoteDenied))
    else
      match ParseColumn(column)
      case None => Step(room, Threw)
      case Some(c) =>
        var cards := room.board.Column(c);
        var i := FirstIndex(cards, cardId);
        if i == -1 then Step(room, NoReply)
        else
          var voted := cards[i].(votes := cards[i].votes + 1);
          Step(
            room.(board := room.board.With(c, cards[i := voted]),
                  votesByUser := room.votesByUser[voter := used + 1]),
            ToRoom(CardVoted(column, cardId, voted.votes)))
  }

  /** An accepted vote adds exactly one vote to the board, matching the one it
      charges to the voter's ledger entry. */
  lemma VoteAddsOneToBoard(room: Room, voter: string, column: string, cardId: string)
    requires VoteStep(room, voter, column, cardId).outcome.ToRoom?
    ensures VoteStep(room, voter, column, cardId).room.board.TotalVotes() == room.board.TotalVotes() + 1
  {
    var c := ParseColumn(column).value;
    var cards := room.board.Column(c);
    var i := FirstIndex(cards, cardId);
    VotesInUpdate(cards, i, cards[i].(votes := cards[i].votes + 1));
  }

  /** The `moveCard` handler. The card is taken out of `fromColumn` before
      `toColumn` is looked up, so an unknown `toColumn` throws after the removal. */
  function MoveStep(room: Room, cardId: string, fromColumn: string, toColumn: string, newIndex: int): (r: Step)
    ensures r.room.password == room.password && r.room.votesByUser == room.votesByUser
    ensures ParseColumn(fromColumn).None? ==> r == Step(room, Threw)
    ensures r.outcome == NoReply <==>
      && ParseColumn(fromColumn).Some?
      && forall k :: 0 <= k < |room.board.Column(ParseColumn(fromColumn).value)| ==>
           room.board.Column(ParseColumn(fromColumn).value)[k].id != cardId
    ensures r.outcome == NoReply ==> r.room == room
    ensures r.outcome.ToRoom? <==> r.outcome != NoReply && ParseColumn(fromColumn).Some? && ParseColumn(toColumn).Some?
    ensures r.outcome.ToRoom? ==> r.outcome == ToRoom(CardMoved(cardId, fromColumn, toColumn, newIndex))
    ensures !r.outcome.ToSender?
  {
    match ParseColumn(fromColumn)
    case None => Step(room, Threw)
    case Some(f) =>
      var from := room.board.Column(f);
      var i := FirstIndex(from, cardId);
      if i == -1 then Step(room, NoReply)
      else
        var lifted := room.board.With(f, Removed(from, i));
        match ParseColumn(toColumn)
        case None => Step(room.(board := lifted), Threw)
        case Some(t) =>
          var to := lifted.Column(t);
          var placed := lifted.With(t, Inserted(to, SpliceStart(|to|, newIndex), from[i]));
          Step(room.(board := placed), ToRoom(CardMoved(cardId, fromColumn, toColumn, newIndex)))
  }

  /** A completed move keeps every card on the board: the same multiset of cards,
      hence the same number of cards. */
  lemma MoveKeepsEveryCard(room: Room, cardId: string, fromColumn: string, toColumn: string, newIndex: int)
    requires MoveStep(room, cardId, fromColumn, toColumn, newIndex).outcome.ToRoom?
    ensures var after := MoveStep(room, cardId, fromColumn, toColumn, newIndex).room.board;
      && multiset(after.AllCards()) == multiset(room.board.AllCards())
      && |after.AllCards()| == |room.board.AllCards()|
  {
    var f, t := ParseColumn(fromColumn).value, ParseColumn(toColumn).value;
    var from := room.board.Column(f);
    var i := FirstIndex(from, cardId);
    var lifted := room.board.With(f, Removed(from, i));
    var to := lifted.Column(t);
    var placed := lifted.With(t, Inserted(to, SpliceStart(|to|, newIndex), from[i]));
    TakeOut(room.board, f, i);
    PutIn(lifted, t, SpliceStart(|to|, newIndex), from[i]);
  }

  /** Where a completed move puts the card: at the clamped `newIndex` of the target
      column as it stands after the removal, with the other cards of that column
      in their order; the rest of the source column keeps its order, and the
      third column is untouched. */
  lemma MovedCardLandsAtIndex(room: Room, cardId: string, fromColumn: string, toColumn: string, newIndex: int)
    requires MoveStep(room, cardId, fromColumn, toColumn, newIndex).outcome.ToRoom?
    ensures
      var f, t := ParseColumn(fromColumn).value, ParseColumn(toColumn).value;
      var from := room.board.Column(f);
      var i := FirstIndex(from, cardId);
      var rest := if t == f then Removed(from, i) else room.board.Column(t);
      var after := MoveStep(room, cardId, fromColumn, toColumn, newIndex).room.board;
      && 0 <= i
      && |after.Column(t)| == |rest| + 1
      && after.Column(t)[SpliceStart(|rest|, newIndex)] == from[i]
      && after.Column(t) == Inserted(rest, SpliceStart(|rest|, newIndex), from[i])
      && (t != f ==> after.Column(f) == Removed(from, i))
      && (forall d :: d != f && d != t ==> after.Column(d) == room.board.Column(d))
  {
  }

  /** An unknown `toColumn` with a card found in a known `fromColumn`: the handler
      throws after the card was spliced out, so that card is gone from the board. */
  lemma MoveToUnknownColumnDropsCard(room: Room, cardId: string, fromColumn: string, toColumn: string, newIndex: int)
    requires ParseColumn(fromColumn).Some? && ParseColumn(toColumn).None?
    requires exists k :: (0 <= k < |room.board.Column(ParseColumn(fromColumn).value)| &&
      room.board.Column(ParseColumn(fromColumn).value)[k].id == cardId)
    ensures
      var from := room.board.Column(ParseColumn(fromColumn).value);
      var r := MoveStep(room, cardId, fromColumn, toColumn, newIndex);
      && r.outcome == Threw
      && multiset(r.room.board.AllCards()) + multiset{from[FirstIndex(from, cardId)]} == multiset(room.board.AllCards())
      && |r.room.board.AllCards()| + 1 == |room.board.AllCards()|
  {
    var f := ParseColumn(fromColumn).value;
    var from := room.board.Column(f);
    var i := FirstIndex(from, cardId);
    var lifted := room.board.With(f, Removed(from, i));
    TakeOut(room.board, f, i);
  }

  /** Replaying a completed move between two different columns changes nothing and
      emits nothing, provided the card's id occurred once in `fromColumn`. */
  lemma {:induction false} ReplayedMoveChangesNothing(room: Room, cardId: string, fromColumn: string, toColumn: string, newIndex: int)
    requires ParseColumn(fromColumn).Some? && ParseColumn(toColumn).Some?
    requires ParseColumn(fromColumn) != ParseColumn(toColumn)
    requires AtMostOnce(room.board.Column(ParseColumn(fromColumn).value), cardId)
    ensures
      var once := MoveStep(room, cardId, fromColumn, toColumn, newIndex);
      MoveStep(once.room, cardId, fromColumn, toColumn, newIndex) == Step(once.room, NoReply)
  {
    var once := MoveStep(room, cardId, fromColumn, toColumn, newIndex);
    var f := ParseColumn(fromColumn).value;
    var from := room.board.Column(f);
    var i := FirstIndex(from, cardId);
    if i != -1 {
      MovedCardLandsAtIndex(room, cardId, fromColumn, toColumn, newIndex);
      var left := once.room.board.Column(f);
      assert left == Removed(from, i);
      forall k | 0 <= k < |left|
        ensures left[k].id != cardId
      {
        if k < i {
          assert left[k] == from[k];
        } else {
          assert left[k] == from[k + 1];
        }
      }
    }
  }

  /** Card ids come from the client and are not checked for uniqueness: with two
      cards sharing an id, the replayed move finds and moves the second one. */
  lemma ReplayMovesAnotherCardWithTheSameId()
    ensures
      var first, second := Card("1", "ship it", 0, "alice"), Card("1", "tests", 0, "bob");
      var room := Room("p1", Board([first, second], [], []), map[]);
      var once := MoveStep(room, "1", "good", "action", 0);
      var twice := MoveStep(once.room, "1", "good", "action", 0);
      && once.room.board == Board([second], [], [first])
      && twice.outcome.ToRoom?
      && twice.room.board == Board([], [], [second, first])
  {
    var first, second := Card("1", "ship it", 0, "alice"), Card("1", "tests", 0, "bob");
    var room := Room("p1", Board([first, second], [], []), map[]);
    assert FirstIndex([first, second], "1") == 0;
    var once := MoveStep(room, "1", "good", "action", 0);
    assert Removed([first, second], 0) == [second];
    assert Inserted([], 0, first) == [first];
    assert once.room.board == Board([second], [], [first]);
    assert FirstIndex([second], "1") == 0;
    assert Removed([second], 0) == [];
    assert Inserted([first], 0, second) == [second, first];
  }

  /** The add-and-move walk-through: alice adds c1 to `good`, it is moved to index 0
      of `action`, and the board then shows it there and nowhere else. */
  lemma AddedCardMovedToAction()
    ensures
      var c1 := Card("c1", "ship it", 0, "alice");
      var added := AddStep(NewRoom("p1"), "alice", "good", "c1", "ship it");
      var moved := MoveStep(added.room, "c1", "good", "action", 0);
      && added.outcome == ToRoom(CardAdded("good", c1))
      && moved.outcome == ToRoom(CardMoved("c1", "good", "action", 0))
      && moved.room.board == Board([], [], [c1])
  {
    var c1 := Card("c1", "ship it", 0, "alice");
    assert [] + [c1] == [c1];
    assert FirstIndex([c1], "c1") == 0;
    assert Removed([c1], 0) == [];
    assert Inserted([], 0, c1) == [c1];
  }

  /** The client-to-server events of one room, in the order the server receives them. */
  datatype Command =
    | AddCommand(author: string, column: string, id: string, text: string)
    | VoteCommand(voter: string, column: string, cardId: string)
    | MoveCommand(cardId: string, fromColumn: string, toColumn: string, newIndex: int)

  predicate AcceptedVoteBy(cmd: Command, outcome: Outcome, user: string) {
    cmd.VoteCommand? && cmd.voter == user && outcome.ToRoom?
  }

  /** The handler a command reaches. The ledger entry of a user grows by one exactly
      when the command is that user's accepted vote, and only while below the quota. */
  function Dispatch(room: Room, cmd: Command): (r: Step)
    ensures forall u :: (Used(r.room.votesByUser, u) ==
      Used(room.votesByUser, u) + if AcceptedVoteBy(cmd, r.outcome, u) then 1 else 0)
    ensures forall u :: AcceptedVoteBy(cmd, r.outcome, u) ==> Used(room.votesByUser, u) < VOTE_QUOTA
    ensures r.room.password == room.password
  {
    match cmd
    case AddCommand(author, column, id, text) => AddStep(room, author, column, id, text)
    case VoteCommand(voter, column, cardId) => VoteStep(room, voter, column, cardId)
    case MoveCommand(cardId, fromColumn, toColumn, newIndex) => MoveStep(room, cardId, fromColumn, toColumn, newIndex)
  }

  /** The room after the server has handled `cmds` in order. */
  function Run(room: Room, cmds: seq<Command>): Room
    decreases |cmds|
  {
    if cmds == [] then room else Run(Dispatch(room, cmds[0]).room, cmds[1..])
  }

  /** How many of `cmds` are votes by `user` that the server accepted. */
  function AcceptedVotes(room: Room, cmds: seq<Command>, user: string): nat
    decreases |cmds|
  {
    if cmds == [] then 0
    else
      var s := Dispatch(room, cmds[0]);
      (if AcceptedVoteBy(cmds[0], s.outcome, user) then 1 else 0) + AcceptedVotes(s.room, cmds[1..], user)
  }

  /** The ledger counts accepted votes exactly: a user's entry grows by the number
      of their accepted votes and never shrinks. */
  lemma {:induction false} LedgerCountsAcceptedVotes(room: Room, cmds: seq<Command>, user: string)
    ensures Used(Run(room, cmds).votesByUser, user) == Used(room.votesByUser, user) + AcceptedVotes(room, cmds, user)
    decreases |cmds|
  {
    if cmds != [] {
      LedgerCountsAcceptedVotes(Dispatch(room, cmds[0]).room, cmds[1..], user);
    }
  }

  /** However commands from all users interleave, a user has at most the votes left
      under the quota accepted, and none once the quota is used up. */
  lemma {:induction false} QuotaNeverExceeded(room: Room, cmds: seq<Command>, user: string)
    ensures AcceptedVotes(room, cmds, user) <=
      if Used(room.votesByUser, user) >= VOTE_QUOTA then 0 else VOTE_QUOTA - Used(room.votesByUser, user)
    decreases |cmds|
  {
    if cmds != [] {
      QuotaNeverExceeded(Dispatch(room, cmds[0]).room, cmds[1..], user);
    }
  }

  /** In a room created by a handshake, nobody ever has more than three votes accepted. */
  lemma FreshRoomAcceptsAtMostThreeVotes(password: string, cmds: seq<Command>, user: string)
    ensures AcceptedVotes(NewRoom(password), cmds, user) <= VOTE_QUOTA
  {
    QuotaNeverExceeded(NewRoom(password), cmds, user);
  }

  /** The password bound when a room is created never changes, whatever commands follow. */
  lemma {:induction false} CommandsKeepPassword(room: Room, cmds: seq<Command>)
    ensures Run(room, cmds).password == room.password
    decreases |cmds|
  {
    if cmds != [] {
      CommandsKeepPassword(Dispatch(room, cmds[0]).room, cmds[1..]);
    }
  }

  /** The voting walk-through: three accepted votes with counts 1, 2 and 3, then a
      denial of the fourth that leaves the card at 3. */
  lemma FourthVoteIsDenied()
    ensures
      var c1 := Card("c1", "ship it", 0, "alice");
      var room := Room("p1", Board([c1], [], []), map[]);
      var s1 := VoteStep(room, "bob", "good", "c1");
      var s2 := VoteStep(s1.room, "bob", "good", "c1");
      var s3 := VoteStep(s2.room, "bob", "good", "c1");
      var s4 := VoteStep(s3.room, "bob", "good", "c1");
      && s1.outcome == ToRoom(CardVoted("good", "c1", 1))
      && s2.outcome == ToRoom(CardVoted("good", "c1", 2))
      && s3.outcome == ToRoom(CardVoted("good", "c1", 3))
      && s4 == Step(s3.room, ToSender(VoteDenied))
      && s4.room.board.good == [c1.(votes := 3)]
  {
    var c1 := Card("c1", "ship it", 0, "alice");
    assert FirstIndex([c1], "c1") == 0;
    assert FirstIndex([c1.(votes := 1)], "c1") == 0;
    assert FirstIndex([c1.(votes := 2)], "c1") == 0;
  }

  // ---------------------------------------------------------------------------
  // Handshake (the `io.use` middleware)

  /** The binding of a socket to a room and a display name. */
  datatype Session = Session(roomId: string, username: string)

  /** Admission sends `init` with the room's board to the new socket alone. */
  datatype AuthResult = Admitted(session: Session, init: Board) | Rejected(message: string)

  const AUTHENTICATION_ERROR: string := "Authentication error"
  const INVALID_ROOM_OR_PASSWORD: string := "Invalid room or password"

  /** A handshake field is supplied when it is present and not the empty string. */
  predicate Supplied(field: Option<string>) {
    field.Some? && field.value != ""
  }

  datatype Admission = Admission(rooms: map<string, Room>, result: AuthResult)

  /** The handshake: reject missing fields, create an unknown room with the given
      password, then admit exactly when the stored password is the one given. */
  function Handshake(rooms: map<string, Room>, roomId: Option<string>, password: Option<string>,
                     username: Option<string>): (r: Admission)
    ensures !(Supplied(roomId) && Supplied(password) && Supplied(username)) ==>
      r == Admission(rooms, Rejected(AUTHENTICATION_ERROR))
    ensures Supplied(roomId) && Supplied(password) && Supplied(username) ==>
      var id, pw := roomId.value, password.value;
      && r.rooms.Keys == rooms.Keys + {id}
      && (forall k :: k in rooms ==> r.rooms[k] == rooms[k])
      && (id !in rooms ==> r.rooms[id] == Room(pw, CreateBoard(), map[]) && r.result.Admitted?)
      && (r.result.Admitted? <==> r.rooms[id].password == pw)
      && (r.result.Admitted? ==> r.result == Admitted(Session(id, username.value), r.rooms[id].board))
      && (r.result.Rejected? ==> r.result.message == INVALID_ROOM_OR_PASSWORD)
  {
    if !(Supplied(roomId) && Supplied(password) && Supplied(username)) then
      Admission(rooms, Rejected(AUTHENTICATION_ERROR))
    else
      var id, pw := roomId.value, password.value;
      var registered := if id in rooms then rooms else rooms[id := NewRoom(pw)];
      if registered[id].password != pw then Admission(registered, Rejected(INVALID_ROOM_OR_PASSWORD))
      else Admission(registered, Admitted(Session(id, username.value), registered[id].board))
  }

  /** The admission walk-through: alice creates R1 with p1, bob joins with p1 and
      gets the empty board, charlie with a wrong password is turned away. */
  lemma SecondHandshakeNeedsTheFirstPassword()
    ensures
      var a := Handshake(map[], Some("R1"), Some("p1"), Some("alice"));
      var b := Handshake(a.rooms, Some("R1"), Some("p1"), Some("bob"));
      var c := Handshake(b.rooms, Some("R1"), Some("wrong"), Some("charlie"));
      && b.result == Admitted(Session("R1", "bob"), CreateBoard())
      && c == Admission(a.rooms, Rejected(INVALID_ROOM_OR_PASSWORD))
  {
  }
}
