/** The two copies of a pair share one id (App.js:15, 21) and `find` skips the
    pending card's id (App.js:55), so the card it returns is always of another
    pair and the match branch (App.js:62-70) is never taken: revealing both
    cards of a pair leaves them face up and unmatched. This module states that
    for the code as written, and proves that the evidently intended rules (a
    distinct id for each card, and a search among face-up cards that are not
    yet matched) do score the pair. */
module Findings {
  import opened Cards
  import opened Deck
  import opened MatchEngine

  /** As written: on a deck dealt by generateCards, with no card face up and no
      pending card, tapping the two cards of a pair leaves both face up, both
      unmatched, the first still pending, and the score as it was. */
  lemma AsWrittenPairNotScored<T>(s: AppState<T>, deck: seq<Card<T>>, i: int, j: int)
    requires Inv(s, deck) && IdsFollowPairs(deck)
    requires !s.isChecking && s.firstCard.None?
    requires forall k :: 0 <= k < |s.cards| ==> !s.cards[k].isFlipped
    requires 0 <= i < |s.cards| && 0 <= j < |s.cards| && i != j
    requires s.cards[i].pairId == s.cards[j].pairId
    ensures var r := Run(s, [CardPress(i), CardPress(j)]);
      && |r.cards| == |s.cards|
      && r.cards[i].isFlipped && r.cards[j].isFlipped
      && r.cards[i].isMatched == s.cards[i].isMatched && r.cards[j].isMatched == s.cards[j].isMatched
      && r.firstCard == Some(s.cards[i].(isFlipped := true))
      && r.matchedCount == s.matchedCount && r.pending == s.pending && !r.isChecking
  {
    assert SameFace(s.cards[i], deck[i]) && SameFace(s.cards[j], deck[j]);
    var s1 := AfterPress(s, i);
    assert Step(s, CardPress(i)) == s1;
    var s2 := AfterPress(s1, j);
    var first := s1.firstCard.value;
    assert forall k :: 0 <= k < |s2.cards| && IsSecond(s2.cards[k], first.id) ==> k != i && k != j;
    assert Find(s2.cards, first.id).None?;
    assert Step(s1, CardPress(j)) == s2.(isChecking := false);
    assert Run(s, [CardPress(i), CardPress(j)]) == Run(s1, [CardPress(j)]);
    assert Run(s1, [CardPress(j)]) == Run(s2.(isChecking := false), []);
  }

  /** A concrete case: one character, two cards, tapped in turn. */
  lemma OneCharacterNotScored()
    ensures var deck := Shuffled(Doubled([7]), [0.0, 0.5]);
      && deck == [Card(0, 0, false, false, 7), Card(0, 0, false, false, 7)]
      && Run(Initial(deck), [CardPress(0), CardPress(1)]).matchedCount == 0
      && Run(Initial(deck), [CardPress(0), CardPress(1)]).cards
         == [Card(0, 0, true, false, 7), Card(0, 0, true, false, 7)]
  {
    var deck := Shuffled(Doubled([7]), [0.0, 0.5]);
    assert RandomIndex(0.5, 1) == 1;
    assert deck == [Card(0, 0, false, false, 7), Card(0, 0, false, false, 7)];
  }

  /** Intended: the second copy of pair `p` gets its own id, 2 * p + 1. */
  function DoubledDistinct<T>(characters: seq<T>): (r: seq<Card<T>>)
    ensures |r| == 2 * |characters|
  {
    PairCards(characters)
      + seq(|characters|, p requires 0 <= p < |characters| => Card(2 * p + 1, p, false, false, characters[p]))
  }

  /** No two cards of the row share an id. */
  ghost predicate DistinctIds<T>(cards: seq<Card<T>>) {
    forall a, b :: 0 <= a < b < |cards| ==> cards[a].id != cards[b].id
  }

  lemma DoubledDistinctHasDistinctIds<T>(characters: seq<T>)
    ensures DistinctIds(DoubledDistinct(characters))
  {
    var d := DoubledDistinct(characters);
    var n := |characters|;
    assert forall k :: 0 <= k < n ==> d[k].id == 2 * k;
    assert forall k :: n <= k < 2 * n ==> d[k].id == 2 * (k - n) + 1;
  }

  lemma {:induction false} ShuffledFromKeepsDistinctIds<T>(s: seq<Card<T>>, rs: seq<real>, i: int)
    requires ValidDraws(rs, |s|) && i < |s| && DistinctIds(s)
    ensures DistinctIds(ShuffledFrom(s, rs, i))
    decreases i
  {
    if i > 0 {
      var j := RandomIndex(rs[i], i);
      var t := Swap(s, i, j);
      assert DistinctIds(t) by {
        forall a, b | 0 <= a < b < |t| ensures t[a].id != t[b].id {
          var a' := if a == i then j else if a == j then i else a;
          var b' := if b == i then j else if b == j then i else b;
          assert t[a] == s[a'] && t[b] == s[b'] && a' != b';
        }
      }
      ShuffledFromKeepsDistinctIds(t, rs, i - 1);
    }
  }

  lemma ShuffledDistinctFaceDown<T>(characters: seq<T>, rs: seq<real>)
    requires ValidDraws(rs, 2 * |characters|)
    ensures forall k :: 0 <= k < 2 * |characters| ==>
      !Shuffled(DoubledDistinct(characters), rs)[k].isFlipped && !Shuffled(DoubledDistinct(characters), rs)[k].isMatched
  {
    var d := DoubledDistinct(characters);
    var deck := Shuffled(d, rs);
    ShuffledFromPermutes(d, rs, |d| - 1);
    forall k | 0 <= k < |deck| ensures !deck[k].isFlipped && !deck[k].isMatched {
      assert deck[k] in multiset(d);
    }
  }

  /** Intended search: a face-up card that is not yet matched and is not the
      pending card. */
  predicate IsOpenSecond<T>(c: Card<T>, firstId: int) {
    c.isFlipped && !c.isMatched && c.id != firstId
  }

  function FindUnmatched<T>(cards: seq<Card<T>>, firstId: int): (r: Option<Card<T>>)
    ensures r.None? <==> forall k :: 0 <= k < |cards| ==> !IsOpenSecond(cards[k], firstId)
    ensures r.Some? ==> exists k :: 0 <= k < |cards| && cards[k] == r.value && IsOpenSecond(r.value, firstId)
  {
    if cards == [] then None
    else if IsOpenSecond(cards[0], firstId) then Some(cards[0])
    else
      var r := FindUnmatched(cards[1..], firstId);
      assert forall m :: 1 <= m < |cards| ==> cards[m] == cards[1..][m - 1];
      r
  }

  /** A tap under the intended search; the rest of the component is unchanged. */
  function AfterTapIntended<T>(s: AppState<T>, cardIndex: int): (r: AppState<T>)
    requires 0 <= cardIndex < |s.cards|
    ensures !s.isChecking ==> !r.isChecking
    ensures r.flippedCount == s.flippedCount
  {
    var s1 := AfterPress(s, cardIndex);
    if s1.isChecking != s.isChecking && s1.isChecking && s1.firstCard.Some? then
      Resolve(s1, FindUnmatched(s1.cards, s1.firstCard.value.id))
    else s1
  }

  /** Intended: with distinct ids, no comparison running, no pending card and
      every face-up card already matched, tapping the two face-down cards of a
      pair matches both and counts one more pair. */
  lemma IntendedPairScores<T>(s: AppState<T>, i: int, j: int)
    requires DistinctIds(s.cards) && !s.isChecking && s.firstCard.None?
    requires forall k :: 0 <= k < |s.cards| && s.cards[k].isFlipped ==> s.cards[k].isMatched
    requires 0 <= i < |s.cards| && 0 <= j < |s.cards| && i != j
    requires s.cards[i].pairId == s.cards[j].pairId
    requires !s.cards[i].isFlipped && !s.cards[i].isMatched && !s.cards[j].isFlipped && !s.cards[j].isMatched
    ensures var r := AfterTapIntended(AfterTapIntended(s, i), j);
      && |r.cards| == |s.cards|
      && r.cards[i].isMatched && r.cards[j].isMatched
      && r.matchedCount == s.matchedCount + 1
      && r.firstCard.None? && !r.isChecking && r.pending == s.pending
  {
    var s1 := AfterPress(s, i);
    assert AfterTapIntended(s, i) == s1;
    var s2 := AfterPress(s1, j);
    var first := s1.firstCard.value;
    assert first.id == s.cards[i].id;
    assert forall k :: 0 <= k < |s2.cards| && IsOpenSecond(s2.cards[k], first.id) ==> k == j;
    assert IsOpenSecond(s2.cards[j], first.id);
    var found := FindUnmatched(s2.cards, first.id);
    assert found == Some(s2.cards[j]);
  }

  /** Intended, from the start of a game: on a deck dealt with distinct ids,
      tapping the two cards of any pair scores it. */
  lemma IntendedDealScores<T>(characters: seq<T>, rs: seq<real>, i: int, j: int)
    requires ValidDraws(rs, 2 * |characters|)
    requires 0 <= i < 2 * |characters| && 0 <= j < 2 * |characters| && i != j
    requires Shuffled(DoubledDistinct(characters), rs)[i].pairId == Shuffled(DoubledDistinct(characters), rs)[j].pairId
    ensures var r := AfterTapIntended(AfterTapIntended(Initial(Shuffled(DoubledDistinct(characters), rs)), i), j);
      r.matchedCount == 1 && r.cards[i].isMatched && r.cards[j].isMatched
  {
    var d := DoubledDistinct(characters);
    var deck := Shuffled(d, rs);
    DoubledDistinctHasDistinctIds(characters);
    ShuffledFromKeepsDistinctIds(d, rs, |d| - 1);
    ShuffledDistinctFaceDown(characters, rs);
    IntendedPairScores(Initial(deck), i, j);
  }

  /** Intended reset: turn the two compared ids face down in the row as it is
      when the timer fires, not in the row the callback closed over. */
  function AfterResetIntended<T>(s: AppState<T>): (r: AppState<T>)
    requires s.pending != []
    ensures var t := s.pending[0];
      && SameLayout(r.cards, s.cards)
      && (forall k :: 0 <= k < |s.cards| ==>
            && r.cards[k].isFlipped == (s.cards[k].isFlipped && s.cards[k].id != t.firstId && s.cards[k].id != t.secondId)
            && r.cards[k].isMatched == s.cards[k].isMatched)
      && r.pending == s.pending[1..] && r.firstCard == s.firstCard && r.isChecking == s.isChecking
      && r.matchedCount == s.matchedCount && r.flippedCount == s.flippedCount
  {
    var t := s.pending[0];
    s.(cards := Unflip(s.cards, t.firstId, t.secondId), pending := s.pending[1..])
  }

  /** Intended: a card tapped while a reset waits, and not one of the two the
      reset names, stays face up and pending after the reset. */
  lemma IntendedResetKeepsLaterTap<T>(s: AppState<T>, cardIndex: int)
    requires !s.isChecking && s.firstCard.None? && |s.pending| == 1
    requires 0 <= cardIndex < |s.cards|
    requires s.cards[cardIndex].id != s.pending[0].firstId && s.cards[cardIndex].id != s.pending[0].secondId
    ensures var r := AfterResetIntended(AfterTap(s, cardIndex));
      && r.firstCard == Some(s.cards[cardIndex].(isFlipped := true))
      && |r.cards| == |s.cards| && r.cards[cardIndex].isFlipped
      && r.pending == [] && !r.isChecking
  {
    var s1 := AfterTap(s, cardIndex);
    assert s1 == AfterPress(s, cardIndex);
  }
}
