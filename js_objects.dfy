/**
 * server.js keeps `rooms` and each room's `votesByUser` in plain JavaScript
 * objects and indexes them with strings the client chooses. A plain object also
 * answers for the names it inherits from Object.prototype. This module models
 * those two lookups as written, shows where they part from the plain maps the
 * rest of the model uses, and shows that they agree on every other name.
 */
module JsObjects {
  import opened Wrappers
  import opened BoardStore
  import opened RoomState

  /** The property names every plain object inherits from Object.prototype in Node.js. */
  const PROTOTYPE_KEYS: set<string> := {
    "__proto__", "constructor", "hasOwnProperty", "isPrototypeOf", "propertyIsEnumerable",
    "toLocaleString", "toString", "valueOf",
    "__defineGetter__", "__defineSetter__", "__lookupGetter__", "__lookupSetter__"
  }

  // ---------------------------------------------------------------------------
  // The vote ledger, server.js:80-88

  /** A value read from `votesByUser[username]`: a number, or something whose
      numeric value is NaN (an inherited function or object, or the string that
      `+ 1` makes of one). */
  datatype JsValue = Num(n: int) | NotANumber

  /** The own properties of a `votesByUser` object. */
  type Ledger = map<string, JsValue>

  /** `votesByUser[username] || 0`: an own property, else an inherited one, else 0. */
  function Read(ledger: Ledger, user: string): (v: JsValue)
    ensures v.NotANumber? ==> user in ledger || user in PROTOTYPE_KEYS
    ensures user !in ledger && user !in PROTOTYPE_KEYS ==> v == Num(0)
    ensures user in ledger ==> v == ledger[user]
  {
    if user in ledger then ledger[user]
    else if user in PROTOTYPE_KEYS then NotANumber
    else Num(0)
  }

  /** `votesByUser[username] = v`: assigning a primitive to `__proto__` is ignored. */
  function Write(ledger: Ledger, user: string, v: JsValue): (w: Ledger)
    ensures user != "__proto__" ==> user in w && w[user] == v && w.Keys == ledger.Keys + {user}
    ensures user == "__proto__" ==> w == ledger
    ensures forall u :: u in ledger && u != user ==> u in w && w[u] == ledger[u]
  {
    if user == "__proto__" then ledger else ledger[user := v]
  }

  /** `used >= 3`, false for NaN. */
  predicate Denies(ledger: Ledger, user: string): (b: bool)
    ensures b ==> user in ledger || user !in PROTOTYPE_KEYS
  {
    var used := Read(ledger, user);
    used.Num? && used.n >= VOTE_QUOTA
  }

  /** The ledger after an accepted vote: `used + 1`, a string for a non-number. */
  function Charge(ledger: Ledger, user: string): (c: Ledger)
    ensures forall u :: u in ledger && u != user ==> u in c && c[u] == ledger[u]
    ensures user != "__proto__" && Read(ledger, user).Num? ==> user in c && c[user] == Num(Read(ledger, user).n + 1)
    ensures Read(ledger, user).NotANumber? ==> Read(c, user).NotANumber?
  {
    var used := Read(ledger, user);
    Write(ledger, user, if used.Num? then Num(used.n + 1) else NotANumber)
  }

  function ChargedTimes(ledger: Ledger, user: string, n: nat): Ledger {
    if n == 0 then ledger else Charge(ChargedTimes(ledger, user, n - 1), user)
  }

  /** A username that names a property of Object.prototype is never denied, however
      many votes it has had accepted. */
  lemma {:induction false} PrototypeNameIsNeverDenied(ledger: Ledger, user: string, n: nat)
    requires user in PROTOTYPE_KEYS
    requires user in ledger ==> ledger[user] == NotANumber
    ensures !Denies(ChargedTimes(ledger, user, n), user)
    ensures user in ChargedTimes(ledger, user, n) ==> ChargedTimes(ledger, user, n)[user] == NotANumber
  {
    if n > 0 {
      PrototypeNameIsNeverDenied(ledger, user, n - 1);
    }
  }

  /** The smallest case: "constructor" still passes the check after three accepted votes. */
  lemma ConstructorVotesAFourthTime()
    ensures !Denies(ChargedTimes(map[], "constructor", 3), "constructor")
  {
    PrototypeNameIsNeverDenied(map[], "constructor", 3);
  }

  /** `ledger` holds the numbers of `votes` and nothing else. */
  predicate Mirrors(ledger: Ledger, votes: map<string, nat>) {
    && ledger.Keys == votes.Keys
    && forall u :: u in votes ==> ledger[u] == Num(votes[u])
  }

  /** For every other username the object behaves as the map of the model: the same
      denial, and an accepted vote adds one to the same entry. */
  lemma LedgerAgreesOffPrototype(ledger: Ledger, votes: map<string, nat>, user: string)
    requires Mirrors(ledger, votes)
    requires user !in PROTOTYPE_KEYS
    ensures Denies(ledger, user) <==> Used(votes, user) >= VOTE_QUOTA
    ensures Mirrors(Charge(ledger, user), votes[user := Used(votes, user) + 1])
  {
    assert user != "__proto__";
    var after := Charge(ledger, user);
    var votes' := votes[user := Used(votes, user) + 1];
    assert after.Keys == votes'.Keys;
  }

  // ---------------------------------------------------------------------------
  // The room lookup of the handshake, server.js:45-55

  /** What `rooms[roomId]` yields: an own entry, an inherited property (which has
      no `password`), or undefined. */
  datatype Lookup = Own(room: Room) | Inherited | Undefined

  function LookupRoom(rooms: map<string, Room>, id: string): Lookup {
    if id in rooms then Own(rooms[id])
    else if id in PROTOTYPE_KEYS then Inherited
    else Undefined
  }

  /** The handshake with the lookup as written: an inherited property is truthy, so
      no room is created, and its `password` is undefined, never equal to a string. */
  function HandshakeAsWritten(rooms: map<string, Room>, roomId: Option<string>, password: Option<string>,
                              username: Option<string>): (a: Admission)
    ensures rooms.Keys <= a.rooms.Keys
    ensures forall id :: id in rooms ==> a.rooms[id] == rooms[id]
    ensures a.result.Admitted? ==> a.result.session.roomId in a.rooms
    ensures a.result.Admitted? ==> password == Some(a.rooms[a.result.session.roomId].password)
  {
    if !(Supplied(roomId) && Supplied(password) && Supplied(username)) then
      Admission(rooms, Rejected(AUTHENTICATION_ERROR))
    else
      var id, pw := roomId.value, password.value;
      match LookupRoom(rooms, id)
      case Inherited => Admission(rooms, Rejected(INVALID_ROOM_OR_PASSWORD))
      case Undefined =>
        var room := NewRoom(pw);
        Admission(rooms[id := room], Admitted(Session(id, username.value), room.board))
      case Own(room) =>
        if room.password != pw then Admission(rooms, Rejected(INVALID_ROOM_OR_PASSWORD))
        else Admission(rooms, Admitted(Session(id, username.value), room.board))
  }

  /** A room id that names a property of Object.prototype can never be joined: every
      handshake for it is refused and nothing is registered. */
  lemma PrototypeRoomIdIsNeverAdmitted(rooms: map<string, Room>, roomId: string, password: Option<string>,
                                       username: Option<string>)
    requires roomId in PROTOTYPE_KEYS && roomId !in rooms
    ensures HandshakeAsWritten(rooms, Some(roomId), password, username).rooms == rooms
    ensures HandshakeAsWritten(rooms, Some(roomId), password, username).result.Rejected?
    ensures Supplied(password) && Supplied(username) ==>
      Handshake(rooms, Some(roomId), password, username).result.Admitted?
  {
  }

  /** For every other room id the handshake as written is the one of the model. */
  lemma HandshakeAgreesOffPrototype(rooms: map<string, Room>, roomId: Option<string>, password: Option<string>,
                                    username: Option<string>)
    requires roomId.Some? ==> roomId.value !in PROTOTYPE_KEYS || roomId.value in rooms
    ensures HandshakeAsWritten(rooms, roomId, password, username) == Handshake(rooms, roomId, password, username)
  {
  }
}
