/** Dealing the deck: generateCards (App.js:13-22) doubles the character list
    into card records and shuffle (App.js:24-30) permutes them in place with a
    Fisher-Yates loop. `Math.random()` is an input here: the caller supplies the
    draws, one real in [0, 1) per value of the loop counter. */
module Deck {
  import opened Cards

  /** App.js:26: `Math.floor(Math.random() * (i + 1))` for the draw `r`. */
  function RandomIndex(r: real, i: nat): (j: nat)
    requires 0.0 <= r < 1.0
    ensures j <= i
  {
    var m := (i + 1) as real;
    var x := r * m;
    assert 0.0 <= x;
    assert x < m by {
      assert 0.0 < (1.0 - r) * m;
      assert m - x == (1.0 - r) * m;
    }
    x.Floor
  }

  /** `rs[i]` is what `Math.random()` returned when the loop counter was `i`;
      `rs[0]` is never consulted. */
  predicate ValidDraws(rs: seq<real>, n: nat) {
    |rs| == n && forall k :: 0 <= k < n ==> 0.0 <= rs[k] < 1.0
  }

  /** App.js:27: exchange the elements at `i` and `j`. */
  function Swap<T>(s: seq<T>, i: nat, j: nat): (r: seq<T>)
    requires i < |s| && j < |s|
    ensures |r| == |s| && r[i] == s[j] && r[j] == s[i]
    ensures forall k :: 0 <= k < |s| && k != i && k != j ==> r[k] == s[k]
  {
    s[i := s[j]][j := s[i]]
  }

  /** The loop of App.js:25-28 from counter value `i` down to 1. */
  function ShuffledFrom<T>(s: seq<T>, rs: seq<real>, i: int): (r: seq<T>)
    requires ValidDraws(rs, |s|) && i < |s|
    ensures |r| == |s|
    decreases i
  {
    if i <= 0 then s
    else ShuffledFrom(Swap(s, i, RandomIndex(rs[i], i)), rs, i - 1)
  }

  /** What shuffle leaves in its array. */
  function Shuffled<T>(s: seq<T>, rs: seq<real>): (r: seq<T>)
    requires ValidDraws(rs, |s|)
    ensures |r| == |s|
  {
    ShuffledFrom(s, rs, |s| - 1)
  }

  /** Every swap keeps the elements, so the shuffle is a permutation. */
  lemma {:induction false} ShuffledFromPermutes<T>(s: seq<T>, rs: seq<real>, i: int)
    requires ValidDraws(rs, |s|) && i < |s|
    ensures multiset(ShuffledFrom(s, rs, i)) == multiset(s)
    decreases i
  {
    if i > 0 {
      var j := RandomIndex(rs[i], i);
      var t := Swap(s, i, j);
      assert t == s[i := s[j]][j := s[i]];
      assert multiset(t) == multiset(s);
      ShuffledFromPermutes(t, rs, i - 1);
    }
  }

  /** App.js:24-30: Fisher-Yates, in place, every swap partner `j` in [0, i]. */
  method Shuffle<T>(a: array<T>, rs: seq<real>)
    requires ValidDraws(rs, a.Length)
    modifies a
    ensures a[..] == Shuffled(old(a[..]), rs)
    ensures multiset(a[..]) == multiset(old(a[..]))
  {
    ShuffledFromPermutes(a[..], rs, a.Length - 1);
    var i := a.Length - 1;
    while i > 0
      invariant i < a.Length
      invariant ShuffledFrom(a[..], rs, i) == Shuffled(old(a[..]), rs)
    {
      var j := RandomIndex(rs[i], i);
      ghost var before := a[..];
      a[i], a[j] := a[j], a[i];
      assert a[..] == Swap(before, i, j);
      assert ShuffledFrom(before, rs, i) == ShuffledFrom(a[..], rs, i - 1);
      i := i - 1;
    }
  }

  /** App.js:14-19: one record per character, id twice its index. */
  function PairCards<T>(characters: seq<T>): (r: seq<Card<T>>)
    ensures |r| == |characters|
  {
    seq(|characters|, p requires 0 <= p < |characters| => Card(2 * p, p, false, false, characters[p]))
  }

  /** App.js:21 before the shuffle: `[...cards, ...cards]`. */
  function Doubled<T>(characters: seq<T>): (r: seq<Card<T>>)
    ensures |r| == 2 * |characters|
  {
    PairCards(characters) + PairCards(characters)
  }

  /** The pair numbers of a row, position by position. */
  function PairIds<T>(cards: seq<Card<T>>): (r: seq<int>)
    ensures |r| == |cards| && forall k :: 0 <= k < |cards| ==> r[k] == cards[k].pairId
  {
    seq(|cards|, k requires 0 <= k < |cards| => cards[k].pairId)
  }

  /** A deal of `characters`: twice as many cards, each pair number in range
      exactly twice, each card face down, unmatched, showing its pair's
      character, with id twice its pair number. */
  ghost predicate IsDeal<T>(deck: seq<Card<T>>, characters: seq<T>) {
    && |deck| == 2 * |characters|
    && (forall p :: 0 <= p < |characters| ==> multiset(PairIds(deck))[p] == 2)
    && (forall k :: 0 <= k < |deck| ==>
          && 0 <= deck[k].pairId < |characters|
          && deck[k].id == 2 * deck[k].pairId
          && deck[k].character == characters[deck[k].pairId]
          && !deck[k].isFlipped && !deck[k].isMatched)
  }

  /** Taking pair numbers commutes with the shuffle. */
  lemma {:induction false} PairIdsShuffledFrom<T>(s: seq<Card<T>>, rs: seq<real>, i: int)
    requires ValidDraws(rs, |s|) && i < |s|
    ensures PairIds(ShuffledFrom(s, rs, i)) == ShuffledFrom(PairIds(s), rs, i)
    decreases i
  {
    if i > 0 {
      var j := RandomIndex(rs[i], i);
      PairIdsSwap(s, i, j);
      PairIdsShuffledFrom(Swap(s, i, j), rs, i - 1);
    }
  }

  lemma PairIdsSwap<T>(s: seq<Card<T>>, i: nat, j: nat)
    requires i < |s| && j < |s|
    ensures PairIds(Swap(s, i, j)) == Swap(PairIds(s), i, j)
  {
    var l, r := PairIds(Swap(s, i, j)), Swap(PairIds(s), i, j);
    assert forall k :: 0 <= k < |l| ==> l[k] == r[k];
  }

  /** Each number below `n` occurs once among the pair numbers of a row of
      `n` fresh records. */
  lemma {:induction false} PairCardsCount<T>(characters: seq<T>, p: int)
    ensures multiset(PairIds(PairCards(characters)))[p] == if 0 <= p < |characters| then 1 else 0
  {
    var n := |characters|;
    if n > 0 {
      var init := characters[..n - 1];
      PairCardsCount(init, p);
      assert PairIds(PairCards(characters)) == PairIds(PairCards(init)) + [n - 1];
    } else {
      assert PairIds(PairCards(characters)) == [];
    }
  }

  /** The doubled, unshuffled row is already a deal. */
  lemma DoubledIsDeal<T>(characters: seq<T>)
    ensures IsDeal(Doubled(characters), characters)
  {
    var half := PairCards(characters);
    assert PairIds(Doubled(characters)) == PairIds(half) + PairIds(half);
    forall p | 0 <= p < |characters|
      ensures multiset(PairIds(Doubled(characters)))[p] == 2
    {
      PairCardsCount(characters, p);
    }
  }

  /** Shuffling a deal gives a deal. */
  lemma ShuffledDealIsDeal<T>(deck: seq<Card<T>>, characters: seq<T>, rs: seq<real>)
    requires IsDeal(deck, characters) && ValidDraws(rs, |deck|)
    ensures IsDeal(Shuffled(deck, rs), characters)
  {
    var r := Shuffled(deck, rs);
    ShuffledFromPermutes(deck, rs, |deck| - 1);
    ShuffledFromPermutes(PairIds(deck), rs, |deck| - 1);
    PairIdsShuffledFrom(deck, rs, |deck| - 1);
    assert multiset(PairIds(r)) == multiset(PairIds(deck));
    forall k | 0 <= k < |r|
      ensures 0 <= r[k].pairId < |characters| && r[k].id == 2 * r[k].pairId
      ensures r[k].character == characters[r[k].pairId] && !r[k].isFlipped && !r[k].isMatched
    {
      assert r[k] in multiset(deck);
    }
  }

  /** App.js:13-22: build the two copies of every record and shuffle them. */
  method GenerateCards<T>(characters: seq<T>, rs: seq<real>) returns (deck: seq<Card<T>>)
    requires ValidDraws(rs, 2 * |characters|)
    ensures deck == Shuffled(Doubled(characters), rs)
    ensures multiset(deck) == multiset(Doubled(characters))
    ensures |deck| == 2 * |characters|
    ensures forall p :: 0 <= p < |characters| ==> multiset(PairIds(deck))[p] == 2
    ensures forall k :: 0 <= k < |deck| ==>
      && 0 <= deck[k].pairId < |characters|
      && deck[k].id == 2 * deck[k].pairId
      && deck[k].character == characters[deck[k].pairId]
      && !deck[k].isFlipped && !deck[k].isMatched
  {
    var cards := PairCards(characters);
    var doubled := cards + cards;
    var a := new Card<T>[|doubled|](k requires 0 <= k < |doubled| => doubled[k]);
    assert a[..] == doubled;
    Shuffle(a, rs);
    deck := a[..];
    ShuffledFromPermutes(doubled, rs, |doubled| - 1);
    DoubledIsDeal(characters);
    ShuffledDealIsDeal(doubled, characters, rs);
    assert IsDeal(deck, characters);
  }

  /** Ids tell pairs apart but not the two cards of a pair: in a deal two cards
      have the same id exactly when they have the same pair number, so as soon
      as there is one character two different cards share an id. */
  lemma DealSharesIds<T>(deck: seq<Card<T>>, characters: seq<T>)
    requires IsDeal(deck, characters)
    ensures forall a, b :: 0 <= a < |deck| && 0 <= b < |deck| ==>
      (deck[a].id == deck[b].id <==> deck[a].pairId == deck[b].pairId)
    ensures |characters| > 0 ==> exists a, b :: 0 <= a < b < |deck| && deck[a].id == deck[b].id
  {
    if |characters| > 0 {
      var ids := PairIds(deck);
      assert multiset(ids)[0] == 2;
      var a, b := TwoPositions(ids, 0);
      assert deck[a].pairId == 0 == deck[b].pairId;
    }
  }

  /** A value that occurs at least twice sits at two different positions. */
  lemma TwoPositions(s: seq<int>, x: int) returns (a: nat, b: nat)
    requires multiset(s)[x] >= 2
    ensures a < b < |s| && s[a] == x && s[b] == x
  {
    assert x in multiset(s);
    var i :| 0 <= i < |s| && s[i] == x;
    assert s == s[..i] + [s[i]] + s[i + 1..];
    assert multiset(s) == multiset(s[..i]) + multiset{x} + multiset(s[i + 1..]);
    if x in multiset(s[..i]) {
      var j :| 0 <= j < i && s[..i][j] == x;
      a, b := j, i;
    } else {
      assert x in multiset(s[i + 1..]);
      var j :| 0 <= j < |s| - i - 1 && s[i + 1..][j] == x;
      a, b := i, i + 1 + j;
    }
  }
}
