/**
 * The board of one room (server.js:36-38 and the column arrays the handlers
 * change): three ordered columns of cards, the linear search the handlers use to
 * find a card by id, and the insertion point of `Array.prototype.splice`.
 */
module BoardStore {
  import opened Wrappers

  /** A card as the server stores it: id and text from the client's payload,
      the vote counter and the author (the session's username) from the server. */
  datatype Card = Card(id: string, text: string, votes: nat, author: string)

  /** The three keys `createBoard` puts under `columns`. */
  datatype ColumnId = Good | Bad | Action

  /** `board.columns[name]` is one of the three arrays exactly when `name` is one of
      the three keys; for any other name the handler's next call on it throws. */
  function ParseColumn(name: string): (r: Option<ColumnId>)
    ensures r == Some(Good) <==> name == "good"
    ensures r == Some(Bad) <==> name == "bad"
    ensures r == Some(Action) <==> name == "action"
  {
    if name == "good" then Some(Good)
    else if name == "bad" then Some(Bad)
    else if name == "action" then Some(Action)
    else None
  }

  datatype Board = Board(good: seq<Card>, bad: seq<Card>, action: seq<Card>) {

    function Column(c: ColumnId): seq<Card> {
      match c
      case Good => good
      case Bad => bad
      case Action => action
    }

    /** The board with column `c` replaced by `cards`. */
    function With(c: ColumnId, cards: seq<Card>): (b: Board)
      ensures b.Column(c) == cards
      ensures forall d :: d != c ==> b.Column(d) == Column(d)
    {
      match c
      case Good => this.(good := cards)
      case Bad => this.(bad := cards)
      case Action => this.(action := cards)
    }

    /** Every card on the board, column by column. */
    function AllCards(): seq<Card> {
      good + bad + action
    }

    /** The sum of the vote counters of all cards on the board. */
    function TotalVotes(): nat {
      VotesIn(good) + VotesIn(bad) + VotesIn(action)
    }
  }

  /** `createBoard()`: the three columns, each empty. */
  function CreateBoard(): (b: Board)
    ensures forall c :: b.Column(c) == []
    ensures b.AllCards() == [] && b.TotalVotes() == 0
  {
    Board([], [], [])
  }

  function VotesIn(cards: seq<Card>): nat {
    if cards == [] then 0 else cards[0].votes + VotesIn(cards[1..])
  }

  /** Replacing one card changes the column's vote sum by the difference of the two counters. */
  lemma {:induction false} VotesInUpdate(cards: seq<Card>, i: nat, card: Card)
    requires i < |cards|
    ensures VotesIn(cards[i := card]) + cards[i].votes == VotesIn(cards) + card.votes
  {
    if i == 0 {
      assert cards[i := card][1..] == cards[1..];
    } else {
      assert cards[i := card][1..] == cards[1..][i - 1 := card];
      VotesInUpdate(cards[1..], i - 1, card);
    }
  }

  /** What `Array.prototype.find` and `findIndex` locate: the first card with the
      given id, or -1 when no card has it. Card ids need not be unique. */
  function FirstIndex(cards: seq<Card>, id: string): (i: int)
    ensures -1 <= i < |cards|
    ensures i == -1 <==> forall k :: 0 <= k < |cards| ==> cards[k].id != id
    ensures 0 <= i ==> cards[i].id == id && forall k :: 0 <= k < i ==> cards[k].id != id
  {
    if cards == [] then -1
    else if cards[0].id == id then 0
    else
      var j := FirstIndex(cards[1..], id);
      if j == -1 then -1 else j + 1
  }

  /** The linear search `findIndex(c => c.id === id)` performs. */
  method FindIndex(cards: seq<Card>, id: string) returns (i: int)
    ensures i == FirstIndex(cards, id)
  {
    i := 0;
    while i < |cards|
      invariant 0 <= i <= |cards|
      invariant forall k :: 0 <= k < i ==> cards[k].id != id
    {
      if cards[i].id == id {
        return;
      }
      i := i + 1;
    }
    i := -1;
  }

  /** True when at most one card of `cards` has the id `id`. */
  predicate AtMostOnce(cards: seq<Card>, id: string) {
    forall j, k :: 0 <= j < k < |cards| ==> !(cards[j].id == id && cards[k].id == id)
  }

  /** The position `splice(start, 0, item)` inserts at in an array of length `len`:
      a negative start counts back from the end, and a start outside the array is
      clamped to its nearer end. */
  function SpliceStart(len: nat, start: int): (k: nat)
    ensures k <= len
    ensures 0 <= start <= len ==> k == start
    ensures len <= start ==> k == len
    ensures start < 0 && 0 <= len + start ==> k == len + start
    ensures len + start <= 0 ==> k == 0
  {
    if start < 0 then
      if len + start < 0 then 0 else len + start
    else if start > len then len
    else start
  }

  /** `splice(i, 1)` on the column: the card at `i` is taken out, the rest keep their order. */
  function Removed(cards: seq<Card>, i: nat): (r: seq<Card>)
    requires i < |cards|
    ensures |r| == |cards| - 1
    ensures forall k :: 0 <= k < |r| ==> r[k] == if k < i then cards[k] else cards[k + 1]
  {
    cards[..i] + cards[i + 1..]
  }

  /** `splice(k, 0, card)` on the column, for an insertion point already clamped. */
  function Inserted(cards: seq<Card>, k: nat, card: Card): (r: seq<Card>)
    requires k <= |cards|
    ensures |r| == |cards| + 1 && r[k] == card
    ensures forall j :: 0 <= j < k ==> r[j] == cards[j]
    ensures forall j :: k < j < |r| ==> r[j] == cards[j - 1]
  {
    cards[..k] + [card] + cards[k..]
  }

  /** The multiset of cards on a board whose column `c` is replaced. */
  lemma WithCards(b: Board, c: ColumnId, cards: seq<Card>)
    ensures multiset(b.With(c, cards).AllCards()) + multiset(b.Column(c)) == multiset(b.AllCards()) + multiset(cards)
  {
    match c
    case Good =>
    case Bad =>
    case Action =>
  }

  /** Splicing one card out of a column takes exactly that card off the board. */
  lemma TakeOut(b: Board, c: ColumnId, i: nat)
    requires i < |b.Column(c)|
    ensures multiset(b.With(c, Removed(b.Column(c), i)).AllCards()) + multiset{b.Column(c)[i]} == multiset(b.AllCards())
    ensures |b.With(c, Removed(b.Column(c), i)).AllCards()| + 1 == |b.AllCards()|
  {
    var cards := b.Column(c);
    var rest := Removed(cards, i);
    RemovedMultiset(cards, i);
    WithCards(b, c, rest);
    var a := b.With(c, rest);
    assert |multiset(a.AllCards())| == |a.AllCards()|;
    assert |multiset(b.AllCards())| == |b.AllCards()|;
  }

  lemma RemovedMultiset(cards: seq<Card>, i: nat)
    requires i < |cards|
    ensures multiset(Removed(cards, i)) + multiset{cards[i]} == multiset(cards)
  {
    assert Removed(cards, i) == cards[..i] + cards[i + 1..];
    assert cards == cards[..i] + [cards[i]] + cards[i + 1..];
  }

  /** Splicing one card into a column puts exactly that card on the board. */
  lemma PutIn(b: Board, c: ColumnId, k: nat, card: Card)
    requires k <= |b.Column(c)|
    ensures multiset(b.With(c, Inserted(b.Column(c), k, card)).AllCards()) == multiset(b.AllCards()) + multiset{card}
    ensures |b.With(c, Inserted(b.Column(c), k, card)).AllCards()| == |b.AllCards()| + 1
  {
    var cards := b.Column(c);
    var grown := Inserted(cards, k, card);
    InsertedMultiset(cards, k, card);
    WithCards(b, c, grown);
    var a := b.With(c, grown);
    assert |multiset(a.AllCards())| == |a.AllCards()|;
    assert |multiset(b.AllCards())| == |b.AllCards()|;
  }

  lemma InsertedMultiset(cards: seq<Card>, k: nat, card: Card)
    requires k <= |cards|
    ensures multiset(Inserted(cards, k, card)) == multiset(cards) + multiset{card}
  {
    assert Inserted(cards, k, card) == cards[..k] + [card] + cards[k..];
    assert cards == cards[..k] + cards[k..];
  }
}
