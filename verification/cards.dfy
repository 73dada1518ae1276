/** The card records of the memory game and the whole-row updates the game
    applies to them. In App.js every update is a `map` over the current row that
    copies the cards it changes with object spread; each update here walks the
    row the same way, head first. */
module Cards {

  datatype Option<+T> = None | Some(value: T)

  /** One card record (App.js:14-19). A freshly generated record has no
      `isMatched` field, which the game reads as false. */
  datatype Card<T> = Card(id: int, pairId: int, isFlipped: bool, isMatched: bool, character: T)

  /** The fields a card keeps for its whole life: who it is and what it shows. */
  ghost predicate SameFace<T>(a: Card<T>, b: Card<T>) {
    a.id == b.id && a.pairId == b.pairId && a.character == b.character
  }

  /** Two rows hold the same cards in the same places, whatever their flags. */
  ghost predicate SameLayout<T>(a: seq<Card<T>>, b: seq<Card<T>>) {
    |a| == |b| && forall k :: 0 <= k < |a| ==> SameFace(a[k], b[k])
  }

  /** `c` is (a copy of) one of the cards of `row`. */
  ghost predicate FaceIn<T>(c: Card<T>, row: seq<Card<T>>) {
    exists k :: 0 <= k < |row| && SameFace(c, row[k])
  }

  /** Every card's id is twice its pair number, as generateCards deals them. */
  predicate IdsFollowPairs<T>(row: seq<Card<T>>) {
    forall k :: 0 <= k < |row| ==> row[k].id == 2 * row[k].pairId
  }

  /** The `find` test of App.js:55: a face-up card whose id differs from the
      pending card's. */
  predicate IsSecond<T>(c: Card<T>, firstId: int) {
    c.isFlipped && c.id != firstId
  }

  /** App.js:90-95: turn face up the card at `index`, keep every other card. */
  function FlipAt<T>(cards: seq<Card<T>>, index: int): (r: seq<Card<T>>)
    ensures |r| == |cards| && SameLayout(r, cards)
    ensures 0 <= index < |cards| ==> r[index] == cards[index].(isFlipped := true)
    ensures forall k :: 0 <= k < |cards| && k != index ==> r[k] == cards[k]
    ensures forall k :: 0 <= k < |cards| ==> r[k].isMatched == cards[k].isMatched
  {
    if cards == [] then []
    else
      var rest := FlipAt(cards[1..], index - 1);
      assert forall m :: 1 <= m < |cards| ==> cards[m] == cards[1..][m - 1];
      [if index == 0 then cards[0].(isFlipped := true) else cards[0]] + rest
  }

  /** App.js:63-68: mark as matched every card whose id is `a` or `b`. */
  function MarkMatched<T>(cards: seq<Card<T>>, a: int, b: int): (r: seq<Card<T>>)
    ensures |r| == |cards| && SameLayout(r, cards)
    ensures forall k :: 0 <= k < |cards| ==>
      r[k].isMatched == (cards[k].isMatched || cards[k].id == a || cards[k].id == b)
    ensures forall k :: 0 <= k < |cards| ==> r[k].isFlipped == cards[k].isFlipped
  {
    if cards == [] then []
    else
      var c := cards[0];
      [if c.id == a || c.id == b then c.(isMatched := true) else c] + MarkMatched(cards[1..], a, b)
  }

  /** App.js:73-78: turn face down every card whose id is `a` or `b`. */
  function Unflip<T>(cards: seq<Card<T>>, a: int, b: int): (r: seq<Card<T>>)
    ensures |r| == |cards| && SameLayout(r, cards)
    ensures forall k :: 0 <= k < |cards| ==>
      r[k].isFlipped == (cards[k].isFlipped && cards[k].id != a && cards[k].id != b)
    ensures forall k :: 0 <= k < |cards| ==> r[k].isMatched == cards[k].isMatched
  {
    if cards == [] then []
    else
      var c := cards[0];
      [if c.id == a || c.id == b then c.(isFlipped := false) else c] + Unflip(cards[1..], a, b)
  }

  /** App.js:54-56: the first card of the row that passes `IsSecond`, if any. */
  function Find<T>(cards: seq<Card<T>>, firstId: int): (r: Option<Card<T>>)
    ensures r.None? <==> forall k :: 0 <= k < |cards| ==> !IsSecond(cards[k], firstId)
    ensures r.Some? ==> exists k :: 0 <= k < |cards| && cards[k] == r.value && IsSecond(r.value, firstId)
                                   && forall m :: 0 <= m < k ==> !IsSecond(cards[m], firstId)
  {
    if cards == [] then None
    else if IsSecond(cards[0], firstId) then Some(cards[0])
    else
      var r := Find(cards[1..], firstId);
      assert forall m :: 1 <= m < |cards| ==> cards[m] == cards[1..][m - 1];
      r
  }

  /** Since a card's id is twice its pair number and `find` skips the pending
      card's id, the card it returns never belongs to the pending card's pair. */
  lemma FoundCardIsOfAnotherPair<T>(cards: seq<Card<T>>, first: Card<T>)
    requires IdsFollowPairs(cards) && first.id == 2 * first.pairId
    ensures Find(cards, first.id).None? || Find(cards, first.id).value.pairId != first.pairId
  {
    var r := Find(cards, first.id);
    if r.Some? {
      var k :| 0 <= k < |cards| && cards[k] == r.value && IsSecond(r.value, first.id);
      assert cards[k].id == 2 * cards[k].pairId;
    }
  }

  /** Both copies of a pair carry one id, so the mismatch reset turns face down
      the whole of both pairs it names, not only the two cards that were compared. */
  lemma UnflipHidesWholePairs<T>(cards: seq<Card<T>>, a: Card<T>, b: Card<T>)
    requires IdsFollowPairs(cards) && a.id == 2 * a.pairId && b.id == 2 * b.pairId
    ensures forall k :: 0 <= k < |cards| && (cards[k].pairId == a.pairId || cards[k].pairId == b.pairId) ==>
      !Unflip(cards, a.id, b.id)[k].isFlipped
  {
    var r := Unflip(cards, a.id, b.id);
    forall k | 0 <= k < |cards| && (cards[k].pairId == a.pairId || cards[k].pairId == b.pairId)
      ensures !r[k].isFlipped
    {
      assert cards[k].id == 2 * cards[k].pairId;
    }
  }

  /** Marking the same two ids twice changes nothing more. */
  lemma {:induction false} MarkMatchedIdempotent<T>(cards: seq<Card<T>>, a: int, b: int)
    ensures MarkMatched(MarkMatched(cards, a, b), a, b) == MarkMatched(cards, a, b)
  {
    if cards != [] {
      MarkMatchedIdempotent(cards[1..], a, b);
      assert MarkMatched(cards, a, b)[1..] == MarkMatched(cards[1..], a, b);
    }
  }
}
