/** The match state machine of the App component (App.js:32-109).

    The five pieces of React state (App.js:33-37) and the mismatch resets that
    setTimeout has scheduled but not yet run make up an `AppState`. The pure
    functions below give the state after each step of the component:
    handleCardPress, checkForMatch (started by the effect of App.js:47-51) and
    the delayed reset callback; class `Game` updates the same state in place and
    its methods are proved against those functions. Every reset is scheduled
    with the same 1000 ms delay, so they fire in the order they were scheduled
    and `pending` is a queue; how much time passes is not modelled, only the
    order in which taps and resets arrive. */
module MatchEngine {
  import opened Cards
  import opened Deck

  /** A reset scheduled at App.js:72-80. The callback closes over the row as
      it was when the comparison ran, and over the two ids it compared. */
  datatype ResetTimer<T> = ResetTimer(snapshot: seq<Card<T>>, firstId: int, secondId: int)

  /** The state of App (App.js:33-37) plus the resets still waiting, oldest first. */
  datatype AppState<T> = AppState(
    cards: seq<Card<T>>,
    firstCard: Option<Card<T>>,
    isChecking: bool,
    matchedCount: int,
    flippedCount: int,
    pending: seq<ResetTimer<T>>)

  /** The state once the loaded deck is in `cards` (App.js:33-37, 42). */
  function Initial<T>(deck: seq<Card<T>>): (r: AppState<T>)
    ensures r.cards == deck && r.firstCard.None? && !r.isChecking
    ensures r.matchedCount == 0 && r.flippedCount == 0 && r.pending == []
    ensures Inv(r, deck)
  {
    assert forall k :: 0 <= k < |deck| ==> SameFace(deck[k], deck[k]);
    AppState(deck, None, false, 0, 0, [])
  }

  /** handleCardPress (App.js:87-109). A tap is refused only while a comparison
      is running; a face-up or matched card is flipped "again". The flip counter
      tests the card after it was turned face up, so it never moves. */
  function AfterPress<T>(s: AppState<T>, cardIndex: int): (r: AppState<T>)
    requires 0 <= cardIndex < |s.cards|
    ensures s.isChecking ==> r == s
    ensures !s.isChecking ==>
      && |r.cards| == |s.cards|
      && r.cards[cardIndex] == s.cards[cardIndex].(isFlipped := true)
      && (forall k :: 0 <= k < |s.cards| && k != cardIndex ==> r.cards[k] == s.cards[k])
      && r.firstCard == (if s.firstCard.None? then Some(r.cards[cardIndex]) else s.firstCard)
      && r.isChecking == s.firstCard.Some?
      && r.matchedCount == s.matchedCount && r.pending == s.pending
    ensures r.flippedCount == s.flippedCount
  {
    if s.isChecking then s
    else
      var newCards := FlipAt(s.cards, cardIndex);
      var card := newCards[cardIndex];
      var flippedCount := if !card.isFlipped then s.flippedCount + 1 else s.flippedCount;
      if s.firstCard.None? then s.(cards := newCards, flippedCount := flippedCount, firstCard := Some(card))
      else s.(cards := newCards, flippedCount := flippedCount, isChecking := true)
  }

  /** App.js:57-84: what checkForMatch does once `find` has answered `second`.
      No second card: only the checking flag drops. Same pair: mark both ids
      matched and count the pair. Different pairs: schedule the reset. */
  function Resolve<T>(s: AppState<T>, second: Option<Card<T>>): (r: AppState<T>)
    requires s.firstCard.Some?
    ensures !r.isChecking && r.flippedCount == s.flippedCount
    ensures second.None? ==> r == s.(isChecking := false)
    ensures second.Some? ==> r.firstCard.None?
    ensures r.matchedCount != s.matchedCount ==>
      second.Some? && second.value.pairId == s.firstCard.value.pairId && r.matchedCount == s.matchedCount + 1
    ensures second.Some? && second.value.pairId == s.firstCard.value.pairId ==>
      && r.cards == MarkMatched(s.cards, s.firstCard.value.id, second.value.id)
      && r.matchedCount == s.matchedCount + 1 && r.pending == s.pending
    ensures second.Some? && second.value.pairId != s.firstCard.value.pairId ==>
      && r.cards == s.cards && r.matchedCount == s.matchedCount
      && r.pending == s.pending + [ResetTimer(s.cards, s.firstCard.value.id, second.value.id)]
  {
    match second
    case None => s.(isChecking := false)
    case Some(c) =>
      var first := s.firstCard.value;
      if first.pairId == c.pairId then
        s.(cards := MarkMatched(s.cards, first.id, c.id), matchedCount := s.matchedCount + 1,
           firstCard := None, isChecking := false)
      else
        s.(pending := s.pending + [ResetTimer(s.cards, first.id, c.id)],
           firstCard := None, isChecking := false)
  }

  /** checkForMatch (App.js:53-85). It scores only if some other face-up card
      with a different id shares the pending card's pair number. */
  function AfterCheck<T>(s: AppState<T>): (r: AppState<T>)
    requires s.firstCard.Some?
    ensures !r.isChecking && r.flippedCount == s.flippedCount
    ensures (forall k :: 0 <= k < |s.cards| ==> !IsSecond(s.cards[k], s.firstCard.value.id)) ==>
      r == s.(isChecking := false)
    ensures r.matchedCount != s.matchedCount ==>
      && r.matchedCount == s.matchedCount + 1
      && exists k :: 0 <= k < |s.cards| && IsSecond(s.cards[k], s.firstCard.value.id)
                     && s.cards[k].pairId == s.firstCard.value.pairId
  {
    Resolve(s, Find(s.cards, s.firstCard.value.id))
  }

  /** The effect of App.js:47-51. */
  function AfterEffect<T>(s: AppState<T>): (r: AppState<T>)
    ensures !r.isChecking || r == s
  {
    if s.isChecking && s.firstCard.Some? then AfterCheck(s) else s
  }

  /** The oldest reset fires (App.js:72-80): it writes back its snapshot with
      the two compared ids face down, whatever `cards` holds by now. */
  function AfterReset<T>(s: AppState<T>): (r: AppState<T>)
    requires s.pending != []
    ensures var t := s.pending[0];
      && SameLayout(r.cards, t.snapshot)
      && (forall k :: 0 <= k < |t.snapshot| ==>
            && r.cards[k].isFlipped == (t.snapshot[k].isFlipped && t.snapshot[k].id != t.firstId && t.snapshot[k].id != t.secondId)
            && r.cards[k].isMatched == t.snapshot[k].isMatched)
      && r.pending == s.pending[1..]
      && r.firstCard == s.firstCard && r.isChecking == s.isChecking
      && r.matchedCount == s.matchedCount && r.flippedCount == s.flippedCount
  {
    var t := s.pending[0];
    s.(cards := Unflip(t.snapshot, t.firstId, t.secondId), pending := s.pending[1..])
  }

  /** What reaches the component: a tap on the card at a position, or the
      oldest scheduled reset firing. */
  datatype Event = CardPress(index: int) | ResetFires

  /** A tap and the effect it triggers: React runs the effect of App.js:47-51
      after a render in which `isChecking` changed. */
  function AfterTap<T>(s: AppState<T>, cardIndex: int): (r: AppState<T>)
    requires 0 <= cardIndex < |s.cards|
    ensures !s.isChecking ==> !r.isChecking
    ensures r.flippedCount == s.flippedCount
  {
    var s1 := AfterPress(s, cardIndex);
    if s1.isChecking != s.isChecking then AfterEffect(s1) else s1
  }

  /** One event. A tap outside the row or a reset with none scheduled cannot
      reach the component and leaves the state as it is. */
  function Step<T>(s: AppState<T>, e: Event): (r: AppState<T>)
    ensures r.flippedCount == s.flippedCount
  {
    match e
    case CardPress(i) => if 0 <= i < |s.cards| then AfterTap(s, i) else s
    case ResetFires => if s.pending != [] then AfterReset(s) else s
  }

  /** A sequence of events, in arrival order. The "Cartas viradas" counter
      (App.js:149) keeps its value through any of them. */
  function Run<T>(s: AppState<T>, events: seq<Event>): (r: AppState<T>)
    ensures r.flippedCount == s.flippedCount
    decreases |events|
  {
    if events == [] then s else Run(Step(s, events[0]), events[1..])
  }

  /** Running two sequences of events one after the other. */
  lemma {:induction false} RunConcat<T>(s: AppState<T>, xs: seq<Event>, ys: seq<Event>)
    ensures Run(s, xs + ys) == Run(Run(s, xs), ys)
    decreases |xs|
  {
    if xs == [] {
      assert xs + ys == ys;
    } else {
      assert (xs + ys)[0] == xs[0] && (xs + ys)[1..] == xs[1..] + ys;
      RunConcat(Step(s, xs[0]), xs[1..], ys);
    }
  }

  /** What every reachable state keeps: the row and every snapshot hold the
      dealt cards in their places, the pending card is one of them, and a
      comparison runs only with a pending card. */
  ghost predicate Inv<T>(s: AppState<T>, deck: seq<Card<T>>) {
    && SameLayout(s.cards, deck)
    && (forall t :: t in s.pending ==> SameLayout(t.snapshot, deck))
    && (s.firstCard.Some? ==> FaceIn(s.firstCard.value, deck))
    && (s.isChecking ==> s.firstCard.Some?)
  }

  lemma PressKeepsInv<T>(s: AppState<T>, deck: seq<Card<T>>, cardIndex: int)
    requires Inv(s, deck) && 0 <= cardIndex < |s.cards|
    ensures Inv(AfterPress(s, cardIndex), deck)
  {
    var r := AfterPress(s, cardIndex);
    if !s.isChecking && s.firstCard.None? {
      assert SameFace(r.firstCard.value, deck[cardIndex]);
    }
  }

  lemma CheckKeepsInv<T>(s: AppState<T>, deck: seq<Card<T>>)
    requires Inv(s, deck) && s.firstCard.Some?
    ensures Inv(AfterCheck(s), deck)
  {
    var r := AfterCheck(s);
    forall t | t in r.pending ensures SameLayout(t.snapshot, deck) {
      if t !in s.pending {
        assert t.snapshot == s.cards;
      }
    }
  }

  lemma ResetKeepsInv<T>(s: AppState<T>, deck: seq<Card<T>>)
    requires Inv(s, deck) && s.pending != []
    ensures Inv(AfterReset(s), deck)
  {
    assert s.pending[0] in s.pending;
    var r := AfterReset(s);
    forall t | t in r.pending ensures SameLayout(t.snapshot, deck) {
      assert t in s.pending;
    }
  }

  lemma StepKeepsInv<T>(s: AppState<T>, deck: seq<Card<T>>, e: Event)
    requires Inv(s, deck)
    ensures Inv(Step(s, e), deck)
  {
    match e
    case CardPress(i) =>
      if 0 <= i < |s.cards| {
        PressKeepsInv(s, deck, i);
        var s1 := AfterPress(s, i);
        if s1.isChecking != s.isChecking && s1.isChecking && s1.firstCard.Some? {
          CheckKeepsInv(s1, deck);
        }
      }
    case ResetFires =>
      if s.pending != [] {
        ResetKeepsInv(s, deck);
      }
  }

  /** No sequence of events breaks the invariant: in particular taps and
      resets only ever turn cards over and mark them, never move or replace them. */
  lemma {:induction false} RunKeepsInv<T>(s: AppState<T>, deck: seq<Card<T>>, events: seq<Event>)
    requires Inv(s, deck)
    ensures Inv(Run(s, events), deck)
    decreases |events|
  {
    if events != [] {
      StepKeepsInv(s, deck, events[0]);
      RunKeepsInv(Step(s, events[0]), deck, events[1..]);
    }
  }

  /** On a deck whose ids are twice the pair numbers, one event never changes
      the number of matched pairs: the card `find` picks is always of another pair. */
  lemma StepNeverScores<T>(s: AppState<T>, deck: seq<Card<T>>, e: Event)
    requires Inv(s, deck) && IdsFollowPairs(deck)
    ensures Step(s, e).matchedCount == s.matchedCount
  {
    if e.CardPress? && 0 <= e.index < |s.cards| {
      var s1 := AfterPress(s, e.index);
      PressKeepsInv(s, deck, e.index);
      if s1.isChecking != s.isChecking && s1.isChecking && s1.firstCard.Some? {
        var first := s1.firstCard.value;
        var k :| 0 <= k < |deck| && SameFace(first, deck[k]);
        assert IdsFollowPairs(s1.cards) by {
          forall m | 0 <= m < |s1.cards| ensures s1.cards[m].id == 2 * s1.cards[m].pairId {
            assert SameFace(s1.cards[m], deck[m]);
          }
        }
        FoundCardIsOfAnotherPair(s1.cards, first);
      }
    }
  }

  /** The same over any sequence of events. */
  lemma {:induction false} RunNeverScores<T>(s: AppState<T>, deck: seq<Card<T>>, events: seq<Event>)
    requires Inv(s, deck) && IdsFollowPairs(deck)
    ensures Run(s, events).matchedCount == s.matchedCount
    decreases |events|
  {
    if events != [] {
      StepNeverScores(s, deck, events[0]);
      StepKeepsInv(s, deck, events[0]);
      RunNeverScores(Step(s, events[0]), deck, events[1..]);
    }
  }

  /** Whatever the player does on a deck generateCards dealt, "Acertos"
      (App.js:149) stays 0: the match branch of App.js:62-70 is never taken. */
  lemma DealtGameNeverScores<T>(characters: seq<T>, rs: seq<real>, events: seq<Event>)
    requires ValidDraws(rs, 2 * |characters|)
    ensures Run(Initial(Shuffled(Doubled(characters), rs)), events).matchedCount == 0
  {
    var deck := Shuffled(Doubled(characters), rs);
    DoubledIsDeal(characters);
    ShuffledDealIsDeal(Doubled(characters), characters, rs);
    assert forall k :: 0 <= k < |deck| ==> SameFace(deck[k], deck[k]);
    RunNeverScores(Initial(deck), deck, events);
  }

  /** Between events no comparison is running: the one that a tap starts ends
      before the next event, so the gate of App.js:88 never refuses a tap, not
      even while a mismatch reset is waiting. */
  lemma {:induction false} RunStaysSettled<T>(s: AppState<T>, events: seq<Event>)
    requires !s.isChecking
    ensures !Run(s, events).isChecking
    decreases |events|
  {
    if events != [] {
      assert !Step(s, events[0]).isChecking;
      RunStaysSettled(Step(s, events[0]), events[1..]);
    }
  }

  /** A card tapped while a reset is waiting is turned face down again when the
      reset writes back its older snapshot, though it is still the pending card. */
  lemma TapDuringDelayIsDiscarded<T>(s: AppState<T>, cardIndex: int)
    requires !s.isChecking && s.firstCard.None? && |s.pending| == 1
    requires 0 <= cardIndex < |s.cards| && SameLayout(s.pending[0].snapshot, s.cards)
    requires !s.pending[0].snapshot[cardIndex].isFlipped
    ensures var r := Run(s, [CardPress(cardIndex), ResetFires]);
      && r.firstCard == Some(s.cards[cardIndex].(isFlipped := true))
      && |r.cards| == |s.cards| && !r.cards[cardIndex].isFlipped
      && r.pending == [] && !r.isChecking
  {
    var s1 := Step(s, CardPress(cardIndex));
    assert s1 == AfterPress(s, cardIndex);
    var s2 := Step(s1, ResetFires);
    assert Run(s, [CardPress(cardIndex), ResetFires]) == Run(s1, [ResetFires]);
    assert Run(s1, [ResetFires]) == Run(s2, []);
  }

  /** The App component: its state as fields that its handlers update. `deck`
      is the row the game was dealt. */
  class Game<T> {
    var cards: seq<Card<T>>
    var firstCard: Option<Card<T>>
    var isChecking: bool
    var matchedCount: int
    var flippedCount: int
    var pending: seq<ResetTimer<T>>
    ghost const deck: seq<Card<T>>

    function State(): AppState<T>
      reads this
    {
      AppState(cards, firstCard, isChecking, matchedCount, flippedCount, pending)
    }

    ghost predicate Valid()
      reads this
    {
      Inv(State(), deck)
    }

    /** The component right after the loaded deck was stored (App.js:33-37, 42). */
    constructor (dealt: seq<Card<T>>)
      ensures Valid() && deck == dealt && State() == Initial(dealt)
    {
      cards, firstCard, isChecking := dealt, None, false;
      matchedCount, flippedCount, pending := 0, 0, [];
      deck := dealt;
      new;
      assert forall k :: 0 <= k < |dealt| ==> SameFace(dealt[k], dealt[k]);
    }

    /** handleCardPress (App.js:87-109). */
    method Press(cardIndex: int)
      requires Valid() && 0 <= cardIndex < |cards|
      modifies this
      ensures Valid() && State() == AfterPress(old(State()), cardIndex)
    {
      PressKeepsInv(State(), deck, cardIndex);
      if isChecking {
        return;
      }
      var newCards := FlipAt(cards, cardIndex);
      cards := newCards;
      var card := newCards[cardIndex];
      flippedCount := if !card.isFlipped then flippedCount + 1 else flippedCount;
      if firstCard.None? {
        firstCard := Some(card);
      } else {
        isChecking := true;
      }
    }

    /** checkForMatch (App.js:53-85). */
    method CheckForMatch()
      requires Valid() && firstCard.Some?
      modifies this
      ensures Valid() && State() == AfterCheck(old(State()))
    {
      CheckKeepsInv(State(), deck);
      var secondCard := Find(cards, firstCard.value.id);
      Settle(secondCard);
    }

    /** App.js:57-84: act on what `find` answered. */
    method Settle(secondCard: Option<Card<T>>)
      requires firstCard.Some?
      modifies this
      ensures State() == Resolve(old(State()), secondCard)
    {
      if secondCard.None? {
        isChecking := false;
        return;
      }
      var first, second := firstCard.value, secondCard.value;
      if first.pairId == second.pairId {
        cards := MarkMatched(cards, first.id, second.id);
        matchedCount := matchedCount + 1;
      } else {
        pending := pending + [ResetTimer(cards, first.id, second.id)];
      }
      firstCard := None;
      isChecking := false;
    }

    /** The effect of App.js:47-51. */
    method RunCheckingEffect()
      requires Valid()
      modifies this
      ensures Valid() && State() == AfterEffect(old(State()))
    {
      if isChecking && firstCard.Some? {
        CheckForMatch();
      }
    }

    /** The reset callback of App.js:72-80, the oldest one scheduled. */
    method FireResetTimer()
      requires Valid() && pending != []
      modifies this
      ensures Valid() && State() == AfterReset(old(State()))
    {
      ResetKeepsInv(State(), deck);
      var t := pending[0];
      cards := Unflip(t.snapshot, t.firstId, t.secondId);
      pending := pending[1..];
    }

    /** A tap, and the effect when the tap changed `isChecking`. */
    method Tap(cardIndex: int)
      requires Valid() && 0 <= cardIndex < |cards|
      modifies this
      ensures Valid() && State() == Step(old(State()), CardPress(cardIndex))
      ensures !old(isChecking) ==> !isChecking
    {
      var wasChecking := isChecking;
      Press(cardIndex);
      if isChecking != wasChecking {
        RunCheckingEffect();
      }
    }
  }
}
