# Memory game match engine, modelled in Dafny

This project models the game logic of a single-screen memory ("Concentration")
card game for a mobile app, written as one React Native component (`App.js`).
Rendering is left out. What remains has two parts.

- **Dealing.** `generateCards` turns N characters into 2N card records. Each
  record has an `id`, a `pairId`, an `isFlipped` flag and the character it
  shows. `shuffle` then permutes the 2N records in place with a Fisher-Yates
  loop. `Math.random()` becomes an input: the caller supplies one real in
  [0, 1) per value of the loop counter (`Deck.ValidDraws`).
- **The match state machine.** Five pieces of React state: `cards`,
  `firstCard`, `isChecking`, `matchedCount` and `flippedCount`. They change
  through three steps:
  - `handleCardPress`, on a tap;
  - `checkForMatch`, which an effect runs when `isChecking` changes;
  - the callback that `setTimeout` schedules after a mismatch.

  `MatchEngine.AppState` holds those five fields plus the queue of reset
  callbacks not yet fired. Pure functions (`AfterPress`, `AfterCheck`,
  `AfterEffect`, `AfterReset`, `Step`, `Run`) give the state after each step.
  Class `MatchEngine.Game` holds the same fields and updates them in place.
  Each of its methods is proved to produce the state its pure function gives.

The model follows the code as written, quirks included:

- The two copies of a pair are one object, so they share `id = 2 * pairId`.
- A tap is refused only while `isChecking` holds. Taps on face-up or matched
  cards are accepted.
- The comparison that a tap starts always ends before the next event, so taps
  are also accepted while a mismatch reset is waiting.
- The reset writes back the row as it was when the comparison ran.
- The flip counter is tested after the card was turned face up, so it never
  moves.
- A matched card stays face up, so a later search can return it.

Because of the shared ids, `find` never returns a card of the pending card's
pair, and the game never scores a pair (see Findings).

Files: `cards.dfy` (card records and whole-row updates), `deck.dfy` (dealing),
`engine.dfy` (the state machine), `findings.dfy` (the two defects and their
corrections), `scenarios.dfy` (short games on a two-character deck).

## Model

| member | source | states |
|---|---|---|
| `Cards.FlipAt` | App.js:90-95 | Only the card at the tapped position is turned face up. Every other card is unchanged. No matched flag or identity changes. |
| `Cards.MarkMatched` | App.js:63-68 | Exactly the cards whose id is one of the two given ids become matched. Face-up flags and identities are untouched. |
| `Cards.Unflip` | App.js:73-78 | Exactly the cards whose id is one of the two given ids are turned face down. Matched flags and identities are untouched. |
| `Cards.Find` | App.js:54-56 | Returns nothing iff no face-up card has an id other than the pending card's. Otherwise returns the first such card in row order. |
| `Cards.FoundCardIsOfAnotherPair` | App.js:54-56 | When every id is twice its pair number, the card `find` returns never has the pending card's pair number. |
| `Cards.UnflipHidesWholePairs` | App.js:73-78 | With shared ids, the reset turns face down every card of both pairs it names, not only the two cards compared. |
| `Cards.MarkMatchedIdempotent` | App.js:63-68 | Marking the same two ids a second time changes nothing. |
| `Deck.RandomIndex` | App.js:26 | For a draw in [0, 1), `floor(draw * (i + 1))` lies in [0, i]. |
| `Deck.Swap` | App.js:27 | The elements at i and j are exchanged. All other positions are unchanged. |
| `Deck.ShuffledFrom` | App.js:25-28 | The swap loop from counter i down to 1 keeps the row's length. |
| `Deck.Shuffled` | App.js:24-30 | What shuffle leaves in its array has the input's length. |
| `Deck.ShuffledFromPermutes` | App.js:25-28 | The swap loop yields a permutation of its input (same multiset). |
| `Deck.Shuffle` | App.js:24-30 | The in-place loop leaves the array equal to `Shuffled` of its old contents. Its multiset is unchanged. |
| `Deck.PairCards` | App.js:14-19 | One record per character. |
| `Deck.Doubled` | App.js:21 | The two copies together hold 2N records. |
| `Deck.PairCardsCount` | App.js:14-19 | Each pair number in [0, N) occurs exactly once among the fresh records. Numbers outside that range never occur. |
| `Deck.DoubledIsDeal` | App.js:14-21 | The doubled row is a deal. It has 2N cards and each pair number in [0, N) occurs exactly twice. Every card is face down and unmatched, has `id == 2 * pairId` and shows its pair's character. |
| `Deck.ShuffledDealIsDeal` | App.js:21-29 | Shuffling a deal yields a deal. |
| `Deck.GenerateCards` | App.js:13-22 | Returns `Shuffled(Doubled(characters), rs)`: a permutation of the doubled records. It has 2N cards and each pair number in [0, N) occurs exactly twice. Every card is face down and unmatched, has `id == 2 * pairId` and shows `characters[pairId]`. |
| `Deck.DealSharesIds` | App.js:15-21 | In a deal, two cards share an id iff they share a pair number. With at least one character, two different cards carry the same id. |
| `MatchEngine.Initial` | App.js:33-37 | The state right after the loaded deck is stored holds that deck, no pending card, no comparison running, both counters at 0 and no reset queued. It satisfies the invariant. |
| `MatchEngine.AfterPress` | App.js:87-109 | While `isChecking` holds, nothing changes. Otherwise, only the tapped card is turned face up. It becomes the pending card if there was none. If there was one, `isChecking` becomes true. `flippedCount` never changes, because its increment is unreachable. |
| `MatchEngine.Resolve` | App.js:57-84 | No second card: only `isChecking` drops. Same pair number: the two ids are marked matched and `matchedCount` goes up by 1. Different pair numbers: a reset is queued with the current row and the two ids. In both of the last two cases the pending card is cleared. `isChecking` ends false. |
| `MatchEngine.AfterCheck` | App.js:53-85 | `isChecking` ends false. If no other face-up card has a different id, nothing else changes. The score changes only by +1, and only when such a card shares the pending card's pair number. |
| `MatchEngine.AfterEffect` | App.js:47-51 | The effect either leaves the state alone or ends with `isChecking` false. |
| `MatchEngine.AfterReset` | App.js:72-80 | The row becomes the captured snapshot with the two ids face down. Matched flags come from the snapshot. The reset leaves the queue, and every other field keeps its value. |
| `MatchEngine.AfterTap` | App.js:47-51 | A tap in a settled state, with its effect, leaves the state settled (`isChecking` false). The flip counter keeps its value. |
| `MatchEngine.Step` | App.js:47-109 | One tap or reset keeps `flippedCount`. |
| `MatchEngine.Run` | App.js:98-102 | No sequence of events changes `flippedCount`. |
| `MatchEngine.PressKeepsInv` | App.js:87-109 | A tap keeps the invariant. The row and every snapshot hold the dealt cards in place. The pending card is a dealt card. A comparison runs only with a pending card. |
| `MatchEngine.CheckKeepsInv` | App.js:53-85 | The comparison keeps the invariant. |
| `MatchEngine.ResetKeepsInv` | App.js:72-80 | The reset keeps the invariant. |
| `MatchEngine.StepKeepsInv` | App.js:47-109 | Every event keeps the invariant. |
| `MatchEngine.RunKeepsInv` | App.js:47-109 | Every sequence of events keeps the invariant. Cards are only turned over and marked, never moved or replaced. |
| `MatchEngine.StepNeverScores` | App.js:62-70 | On a deck with `id == 2 * pairId`, no event changes `matchedCount`. |
| `MatchEngine.RunNeverScores` | App.js:62-70 | The same holds for any sequence of events. |
| `MatchEngine.DealtGameNeverScores` | App.js:13-22 | From a deck that generateCards dealt (`Deck.GenerateCards` returns `Shuffled(Doubled(characters), rs)`), `matchedCount` is 0 after any sequence of events. |
| `MatchEngine.RunStaysSettled` | App.js:88 | From a settled state, `isChecking` is false after any sequence of events. The tap gate therefore never refuses a tap between events. |
| `MatchEngine.TapDuringDelayIsDiscarded` | App.js:72-80 | Tap a card while a reset waits, where that card is face down in the reset's snapshot. After the reset, the card is face down again but is still the pending card. |
| `MatchEngine.RunConcat` | App.js:47-109 | Running two event sequences one after the other is the same as running them joined. |
| `MatchEngine.Game.constructor` | App.js:33-37 | The component starts with the dealt row, no pending card, no comparison running, both counters 0 and no reset queued. |
| `MatchEngine.Game.Press` | App.js:87-109 | The in-place handler produces `AfterPress` of the old state and keeps the invariant. |
| `MatchEngine.Game.CheckForMatch` | App.js:53-85 | The in-place comparison produces `AfterCheck` of the old state and keeps the invariant. |
| `MatchEngine.Game.Settle` | App.js:57-84 | Acting in place on what `find` answered produces `Resolve` of the old state with that answer. |
| `MatchEngine.Game.RunCheckingEffect` | App.js:47-51 | Produces `AfterEffect` of the old state. The comparison runs exactly when `isChecking` holds and a card is pending. The invariant is kept. |
| `MatchEngine.Game.FireResetTimer` | App.js:72-80 | Produces `AfterReset` of the old state. The oldest reset writes back its snapshot with the two ids face down. The invariant is kept. |
| `MatchEngine.Game.Tap` | App.js:47-109 | A tap plus the effect it triggers produces `Step` of the old state. It never leaves a comparison running. |
| `Findings.AsWrittenPairNotScored` | App.js:53-70 | On a dealt deck with nothing face up, tapping both cards of a pair leaves them face up and unmatched. The first stays pending and the score is unchanged. |
| `Findings.OneCharacterNotScored` | App.js:54-60 | With one character, tapping both cards leaves `matchedCount` at 0 and both cards face up. |
| `Findings.DoubledDistinct` | App.js:21 | Corrected deal: the second copy of pair p gets id 2p+1. The row has 2N cards. |
| `Findings.DoubledDistinctHasDistinctIds` | App.js:15 | In the corrected deal, no two cards share an id. |
| `Findings.ShuffledFromKeepsDistinctIds` | App.js:25-28 | The shuffle keeps ids distinct. |
| `Findings.ShuffledDistinctFaceDown` | App.js:17 | Every card of the shuffled corrected deal is face down and unmatched. |
| `Findings.FindUnmatched` | App.js:54-56 | Corrected search: returns nothing iff no face-up, unmatched card has another id. Otherwise returns such a card. |
| `Findings.AfterTapIntended` | App.js:47-109 | Corrected tap: a press, then the comparison with the corrected search when the press raised `isChecking`. From a settled state it leaves the state settled. The flip counter keeps its value. |
| `Findings.IntendedPairScores` | App.js:62-70 | Corrected rules, with distinct ids and every face-up card already matched: tapping the two face-down cards of a pair matches both and adds 1 to the score. |
| `Findings.IntendedDealScores` | App.js:13-22 | Corrected rules, from a fresh corrected deal: tapping the two cards of any pair scores it. |
| `Findings.AfterResetIntended` | App.js:72-80 | Corrected reset: turns the two ids face down in the current row. Every other card keeps its face-up flag. Matched flags, the pending card, `isChecking` and both counters keep their values. The reset leaves the queue. |
| `Findings.IntendedResetKeepsLaterTap` | App.js:72-80 | Corrected reset: a card tapped during the delay, with an id other than the two the reset names, stays face up and pending. |
| `Scenarios.TwoPairDeckLayout` | App.js:24-30 | For suitable draws, two characters are dealt as A, B, A, B with ids 0, 2, 0, 2. |
| `Scenarios.TapFirstA` | App.js:87-109 | On the A, B, A, B row, the first tap turns the first A face up and makes it pending. |
| `Scenarios.TapB` | App.js:53-81 | With an A pending, a tap on a B finds that B and queues a reset over the row as it then is. |
| `Scenarios.ResetAll` | App.js:72-80 | That reset turns every A and B face down, which restores the initial state. |
| `Scenarios.TapSecondA` | App.js:54-60 | With the first A pending, a tap on the second A finds no second card. Both As stay face up. |
| `Scenarios.MismatchThenReset` | App.js:72-80 | Tapping an A and then a B queues a reset with both face up. After the reset, the game is back in its initial state. |
| `Scenarios.PairStaysUp` | App.js:57-60 | Tapping both As finds no second card. Both stay face up and the first A stays pending. |
| `Scenarios.PairThenMismatch` | App.js:72-80 | After both As, a tap on a B and the reset put the game back in its initial state. |

## Left out

- `marvelApi-copy.js` is not part of this model. It covers the network request, the MD5 hash of the keys and the wall-clock timestamp. Its one role for the game is to supply the characters, which are an input here.
- The character-loading effect (App.js:39-45) is left out because it is asynchronous I/O. `Game`'s constructor receives the dealt row.
- `renderCard`, the JSX tree and the styles (App.js:111-213) are left out as presentation, including the image URL built at App.js:113.
- `Math.random` is an input. The model does not state that the shuffle is uniform, because that is a probabilistic claim. Floating-point rounding of `Math.random() * (i + 1)` is modelled as exact real arithmetic.
- The 1000 ms delay is not modelled, only the order of events. All resets have the same delay, so they fire in the order they were scheduled.
- React's scheduling is simplified. A handler's state updates take effect together. The `[isChecking]` effect runs after the render in which `isChecking` changed, before the next event reaches the component.
- `[...cards, ...cards]` places the same object twice. Every update copies cards with object spread, so nothing can observe the sharing, and the model uses values.
- `MatchEngine.AfterPress`, `MatchEngine.Game.Press`: a tap outside the row would make `handleCardPress` throw. Taps come only from rendered cards, so an in-range index is a precondition. `Step` ignores an out-of-range tap.
- JavaScript numbers are doubles. Ids and counters stay small, and the model uses unbounded integers.

## Findings

| source | as written | input that shows it | evidently intended | confidence | as-written member | corrected member |
|---|---|---|---|---|---|---|
| App.js:15-21, 54-70 | Both copies of a pair get `id = index * 2`. `find` skips the pending card's id, so it never returns the pending card's partner. The match branch never runs, so a pair is never scored and "Acertos" stays 0. | One character: tap card 0, then card 1. Both stay face up, unmatched and unscored. | Each card has its own id. `find` looks only at face-up cards that are not yet matched. Tapping both cards of a pair then marks them and counts the pair. | high (not executed) | `Findings.AsWrittenPairNotScored` | `Findings.IntendedPairScores` |
| App.js:72-80 | The reset callback writes back the row it closed over. A card tapped while the reset waits is turned face down again, yet it is still the pending card. | Three characters: tap an A, then a B, then a C before the reset fires. After the reset the C is face down but pending. | The reset turns face down only the two compared ids, in the row as it is when it fires. Another reading is equally plausible: refuse taps until the reset fires. The model proves only the first. | medium (not executed) | `MatchEngine.TapDuringDelayIsDiscarded` | `Findings.IntendedResetKeepsLaterTap` |
