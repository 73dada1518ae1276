/** Short games on a two-character deck, event by event. */
module Scenarios {
  import opened Cards
  import opened Deck
  import opened MatchEngine

  /** Two characters, drawn so that the shuffle keeps the doubled order:
      A, B, A, B with ids 0, 2, 0, 2. */
  function TwoPairDeck(): seq<Card<int>> {
    Shuffled(Doubled([10, 20]), [0.0, 0.9, 0.9, 0.9])
  }

  lemma TwoPairDeckLayout()
    ensures TwoPairDeck() == [Card(0, 0, false, false, 10), Card(2, 1, false, false, 20),
                              Card(0, 0, false, false, 10), Card(2, 1, false, false, 20)]
  {
    assert RandomIndex(0.9, 3) == 3 && RandomIndex(0.9, 2) == 2 && RandomIndex(0.9, 1) == 1;
  }

  /** Runs `events` one at a time. */
  lemma RunCons<T>(s: AppState<T>, e: Event, rest: seq<Event>)
    ensures Run(s, [e] + rest) == Run(Step(s, e), rest)
  {
    assert ([e] + rest)[1..] == rest;
  }

  const A := Card(0, 0, false, false, 10)
  const B := Card(2, 1, false, false, 20)
  const UpA := A.(isFlipped := true)
  const UpB := B.(isFlipped := true)

  /** The first tap turns the first A face up and makes it pending. */
  lemma TapFirstA()
    ensures Step(Initial([A, B, A, B]), CardPress(0)) == AppState([UpA, B, A, B], Some(UpA), false, 0, 0, [])
  {
    assert AfterPress(Initial([A, B, A, B]), 0).cards == [UpA, B, A, B];
  }

  /** A B tapped next is compared with the pending A: a reset is scheduled
      over the row with both face up. */
  lemma TapB(row: seq<Card<int>>, shown: seq<Card<int>>)
    requires row == [UpA, B, A, B] || row == [UpA, B, UpA, B]
    requires shown == row[1 := UpB]
    ensures Step(AppState(row, Some(UpA), false, 0, 0, []), CardPress(1))
         == AppState(shown, None, false, 0, 0, [ResetTimer(shown, 0, 2)])
  {
    var s := AppState(row, Some(UpA), false, 0, 0, []);
    var up := AfterPress(s, 1);
    assert up.cards == shown;
    assert Find(shown, 0) == Some(UpB);
  }

  /** The reset over a row where only As and the first B are face up turns
      every card face down. */
  lemma ResetAll(shown: seq<Card<int>>)
    requires shown == [UpA, UpB, A, B] || shown == [UpA, UpB, UpA, B]
    ensures Step(AppState(shown, None, false, 0, 0, [ResetTimer(shown, 0, 2)]), ResetFires)
         == Initial([A, B, A, B])
  {
    var r := Step(AppState(shown, None, false, 0, 0, [ResetTimer(shown, 0, 2)]), ResetFires);
    assert r.cards == [A, B, A, B];
  }

  /** The second A is tapped: `find` skips both As, so no second card is found. */
  lemma TapSecondA()
    ensures Step(AppState([UpA, B, A, B], Some(UpA), false, 0, 0, []), CardPress(2))
         == AppState([UpA, B, UpA, B], Some(UpA), false, 0, 0, [])
  {
    var up := AfterPress(AppState([UpA, B, A, B], Some(UpA), false, 0, 0, []), 2);
    assert up.cards == [UpA, B, UpA, B];
    assert Find(up.cards, 0).None?;
  }

  /** Tapping an A and a B: the comparison schedules a reset that closes over
      both face up; when it fires every card is face down again and nothing
      was scored. */
  lemma MismatchThenReset()
    ensures var s := Run(Initial(TwoPairDeck()), [CardPress(0), CardPress(1)]);
      && s.pending == [ResetTimer([Card(0, 0, true, false, 10), Card(2, 1, true, false, 20),
                                   Card(0, 0, false, false, 10), Card(2, 1, false, false, 20)], 0, 2)]
      && s.firstCard.None? && !s.isChecking && s.matchedCount == 0
    ensures Run(Initial(TwoPairDeck()), [CardPress(0), CardPress(1), ResetFires]) == Initial(TwoPairDeck())
  {
    TwoPairDeckLayout();
    var s0 := Initial([A, B, A, B]);
    var s1 := AppState([UpA, B, A, B], Some(UpA), false, 0, 0, []);
    var shown := [UpA, UpB, A, B];
    var s2 := AppState(shown, None, false, 0, 0, [ResetTimer(shown, 0, 2)]);
    TapFirstA();
    TapB([UpA, B, A, B], shown);
    ResetAll(shown);
    RunCons(s0, CardPress(0), [CardPress(1)]);
    RunCons(s1, CardPress(1), []);
    RunCons(s0, CardPress(0), [CardPress(1), ResetFires]);
    RunCons(s1, CardPress(1), [ResetFires]);
    RunCons(s2, ResetFires, []);
  }

  /** Tapping both As: no second card is found, both stay face up and the
      first stays pending. */
  lemma PairStaysUp()
    ensures Run(Initial(TwoPairDeck()), [CardPress(0), CardPress(2)])
         == AppState([Card(0, 0, true, false, 10), Card(2, 1, false, false, 20),
                      Card(0, 0, true, false, 10), Card(2, 1, false, false, 20)],
                     Some(Card(0, 0, true, false, 10)), false, 0, 0, [])
  {
    TwoPairDeckLayout();
    var s0 := Initial([A, B, A, B]);
    var s1 := AppState([UpA, B, A, B], Some(UpA), false, 0, 0, []);
    TapFirstA();
    TapSecondA();
    RunCons(s0, CardPress(0), [CardPress(2)]);
    RunCons(s1, CardPress(2), []);
  }

  /** Tapping a B next compares it with the pending A, and the reset turns
      face down the B and both As: the game is back where it started. */
  lemma PairThenMismatch()
    ensures Run(Initial(TwoPairDeck()), [CardPress(0), CardPress(2), CardPress(1), ResetFires])
            == Initial(TwoPairDeck())
  {
    TwoPairDeckLayout();
    var s0 := Initial([A, B, A, B]);
    var s1 := AppState([UpA, B, A, B], Some(UpA), false, 0, 0, []);
    var s2 := AppState([UpA, B, UpA, B], Some(UpA), false, 0, 0, []);
    var shown := [UpA, UpB, UpA, B];
    var s3 := AppState(shown, None, false, 0, 0, [ResetTimer(shown, 0, 2)]);
    TapFirstA();
    TapSecondA();
    TapB([UpA, B, UpA, B], shown);
    ResetAll(shown);
    RunCons(s0, CardPress(0), [CardPress(2), CardPress(1), ResetFires]);
    RunCons(s1, CardPress(2), [CardPress(1), ResetFires]);
    RunCons(s2, CardPress(1), [ResetFires]);
    RunCons(s3, ResetFires, []);
  }
}
