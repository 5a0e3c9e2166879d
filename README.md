# Memory game session model

A Dafny model of the session state machine of a browser pair-finding game
(Pokémon cards hidden under bushes). It covers the `Game` class of `game.js`
with the DOM stripped away. A session has six fields:

- the catalog of creatures (`pokemons`);
- the shuffled grid of cards, each card showing one creature;
- the list of captured card indices;
- the buffer of face-up, unresolved cards (`revealedCards`);
- the move counter;
- the best score (`highScore`), which is `999999` when storage holds no best score.

The model covers the transitions on that state: building the grid, revealing
a card, resolving a pair, the delayed flip-back after a mismatch, the win and
best-score rule, restarting, and saving to and loading from `localStorage`.

Layout:

- `shuffling.dfy` (`Shuffling`): `shuffleArray` comes from `utils.js`, which
  is not part of this model. Here a shuffle is an arbitrary permutation of
  positions. The module proves that shuffling keeps the multiset of elements.
- `grid_builder.dfy` (`GridBuilder`): the grid that `initializeGrid` builds.
  It shuffles the catalog, keeps a prefix using JavaScript `slice` semantics,
  doubles that prefix and shuffles the result.
- `match_engine.dfy` (`MatchEngine`): the session and storage as values, with
  one function per transition. Each function's contract says what the
  transition does and which invariants it keeps. The module also has runs
  over sequences of user and timer events, with lemmas about them.
- `memory_game.dfy` (`MemoryGame`): the `Game` class itself, plus a
  `LocalStorage` class. Their fields are updated in place. Each method is
  proved to perform exactly the matching `MatchEngine` transition.
- `re_click.dfy` (`ReClick`): the broken re-click guard (see Findings) and
  the corrected guard, with the property the correction restores.
- `scenarios.dfy` (`Scenarios`): concrete sessions. They include the cases
  where the code and its intended design disagree.

Where the intended design and the code disagree, the model follows the code:

- Clicking the single face-up card again is not ignored. See Findings.
- Rebuilding the grid with the size form (`setupDynamicGrid`) does not reset
  captured cards, the buffer or the move count. The win rule then runs on the
  mixed state (`Scenarios.ResizeKeepsCapturedCards`).
- A catalog smaller than the requested pair count gives a smaller grid; it
  does not fail. An empty catalog leaves the grid unchanged.
- `restartGame` runs the win rule. On an empty grid the reset session counts
  as won in 0 moves, so the best score becomes 0.
- `loadGameState` does not validate the record. It keeps the current buffer
  of face-up cards and can raise the best score. For that reason no invariant
  is claimed after a load.
- A click on an index outside the grid throws before changing anything. The
  model treats it as ignored.
- The session is saved only when `checkMatch` runs all the way through.

## Model

| member | source | states |
|---|---|---|
| `Shuffling.Shuffle` | game.js:28 | a shuffle moves position `p[i]` to position `i` and keeps the length |
| `Shuffling.ShufflePreservesMultiset` | game.js:28-30 | whatever permutation `shuffleArray` applies, the shuffled sequence has the same multiset of elements |
| `Shuffling.ShuffleKeepsNoDuplicates` | game.js:28 | shuffling a catalog without duplicates gives a sequence without duplicates |
| `GridBuilder.SliceEnd` | game.js:28 | `slice(0, pairsCount)` keeps at most the whole catalog |
| `GridBuilder.BuildGrid` | game.js:28-30 | the grid has twice as many cards as creatures drawn, and its multiset is the drawn creatures taken twice |
| `GridBuilder.BuildGridPairs` | game.js:26-31 | for `pairsCount >= 0` the grid has `2*min(pairsCount, |catalog|)` cards; every card shows a catalog creature; with a duplicate-free catalog each drawn creature is on exactly two cards and every other creature on none |
| `MatchEngine.Fresh` | game.js:5-12 | a new game has an empty grid, catalog, captured list and buffer, no moves, keeps the invariant, and takes its best score from storage or else `999999` |
| `MatchEngine.InitializeGrid` | game.js:26-32 | only the grid changes; an empty catalog changes nothing |
| `MatchEngine.InitializeGridPairs` | game.js:26-31 | the rebuilt grid has `2*min(pairsCount, |pokemons|)` cards, all from the catalog, each drawn creature exactly twice when the catalog has no duplicates |
| `MatchEngine.UpdateStats` | game.js:144-153 | the best score never rises; it changes exactly when every card is captured and the move count is strictly lower, and then becomes the move count and is written to storage; otherwise nothing changes; afterwards the score is settled |
| `MatchEngine.SaveGameState` | game.js:180-189 | the `gameState` record becomes grid, captured cards, moves and best score; the other records and the scores are kept |
| `MatchEngine.CheckMatch` | game.js:88-118 | on a match both face-up cards join the captured ones and the buffer is emptied; on a mismatch captured cards and buffer stay; the move count never changes; a card outside the grid throws and changes nothing; otherwise the win rule runs on the resolved session (the best score changes exactly when that session is won with fewer moves, and then becomes the move count and is written to storage, which otherwise keeps its scores) and the settled session is saved under `gameState`, every other record kept; invariant and range kept |
| `MatchEngine.Admit` | game.js:72-84 | the first card goes into the buffer and nothing else changes; the second adds one move and either captures exactly the two cards and empties the buffer, or leaves both face-up with captured cards unchanged; the win rule then runs on that session (the best score changes exactly when that session is won with fewer moves, and then becomes the move count and is written to storage, which otherwise keeps its scores); the session is then saved under `gameState`, every other record kept |
| `MatchEngine.Reveal` | game.js:63-85 | a click is a no-op when two cards are face-up or the card is captured (or off the grid); otherwise the clicked card is admitted as `Admit` states, so captured plus face-up cards grow by exactly one; moves rise by one exactly when the click is the second card; invariant kept |
| `MatchEngine.ClickFirstCard` | game.js:63-80 | with nothing face-up, a click on a free card of the grid only turns that card over |
| `MatchEngine.ClickMatchingCard` | game.js:63-118 | a second click on a free card of the same name captures the pair, empties the buffer and adds a move; when that wins with fewer moves the move count becomes the best score and is written to storage |
| `MatchEngine.ClickMismatchingCard` | game.js:63-113 | a second click on a free card of another name, before a win, adds a move and leaves both cards face-up |
| `MatchEngine.FlipBack` | game.js:107-113 | the delayed flip-back empties the buffer and changes nothing else |
| `MatchEngine.RestartGame` | game.js:121-133 | moves become 0 and captured cards and buffer become empty; grid, catalog and records are kept; the win rule runs on the reset session, so the best score and stored scores are kept unless the grid is empty, when the best score becomes 0 and is written to storage |
| `MatchEngine.SetupDynamicGrid` | game.js:35-50 | the grid becomes the one `initializeGrid` builds; captured cards, buffer, moves, catalog and records are kept; the win rule runs on the rebuilt session (the best score changes exactly when that session is won with fewer moves, and then becomes the move count and is written to storage, which otherwise keeps its scores); the invariant is kept |
| `MatchEngine.LoadGameState` | game.js:192-221 | with no record it returns false and changes nothing; with one it returns true and restores grid, captured cards and moves, keeps buffer, catalog and records, and applies the win rule to the restored session (the best score changes exactly when that session is won with fewer moves, and then becomes the move count and is written to storage, which otherwise keeps its scores) |
| `MatchEngine.SaveThenLoad` | game.js:180-200 | loading what was saved from a settled session, into any session, restores grid, captured cards, moves and best score |
| `MatchEngine.CheckMatchThenLoad` | game.js:116-117 | what `checkMatch` saves is restored exactly by a later load |
| `MatchEngine.Step` | game.js:225-243 | every event keeps the catalog and the invariant and never raises the best score; captured cards stay, are reset to empty, or grow by exactly two at the end |
| `MatchEngine.Run` | game.js:225-243 | a run of events keeps the catalog |
| `MatchEngine.RunKeepsInvariant` | game.js:63-124 | along any run the buffer holds at most two cards, captured cards stay even in number and apart from the buffer, and the best score never rises |
| `MatchEngine.Started` | game.js:225-230 | without a saved record, `startGame` puts the fetched catalog into a fresh session and builds the default 6-pair grid: nothing is captured or face-up, no moves, records kept, the invariant holds; with a non-empty catalog the best score and storage are those read at construction, with an empty one the grid stays empty and the best score becomes 0 and 0 is written to storage, so every later session reads 0 back |
| `MatchEngine.RunFromStart` | game.js:225-243 | in every state reachable from the session `startGame` opens without a record, the number of captured cards is even, at most two cards are face-up, and the best score is at most the stored one |
| `MemoryGame.LocalStorage.SetScore` | game.js:147 | writing the best score changes only that key |
| `MemoryGame.LocalStorage.SetRecord` | game.js:188 | writing the session record changes only that key |
| `MemoryGame.Game.constructor` | game.js:5-12 | the new object is the fresh session and keeps its invariant |
| `MemoryGame.Game.ReceiveCatalog` | game.js:18 | only the catalog changes; the invariant is kept |
| `MemoryGame.Game.InitializeGrid` | game.js:26-32 | the new state is `MatchEngine.InitializeGrid` of the old one; the invariant is kept |
| `MemoryGame.Game.SetupDynamicGrid` | game.js:35-50 | the new state and storage are `MatchEngine.SetupDynamicGrid` of the old ones; the invariant is kept |
| `MemoryGame.Game.RevealPokemon` | game.js:63-85 | the new state and storage are `MatchEngine.Reveal` of the old ones; the invariant is kept |
| `MemoryGame.Game.CheckMatch` | game.js:88-118 | the new state and storage are `MatchEngine.CheckMatch` of the old ones; the invariant is kept |
| `MemoryGame.Game.FlipBack` | game.js:107-113 | only the buffer changes, to empty |
| `MemoryGame.Game.RestartGame` | game.js:121-133 | the new state and storage are `MatchEngine.RestartGame` of the old ones; the invariant holds afterwards |
| `MemoryGame.Game.UpdateStats` | game.js:144-153 | the new state and storage are `MatchEngine.UpdateStats` of the old ones; the invariant is kept |
| `MemoryGame.Game.SaveGameState` | game.js:180-189 | the new storage is `MatchEngine.SaveGameState` of the old one |
| `MemoryGame.Game.LoadGameState` | game.js:192-221 | the result, state and storage are `MatchEngine.LoadGameState` of the old ones |
| `ReClick.DoubleClickCapturesTwice` | game.js:64-67 | under the guard as written, two clicks on the same free card with nothing face-up capture that card twice, in one move |
| `ReClick.DoubleClickFakesWin` | game.js:64-67 | on a four-card grid where card 0 was captured twice that way, two clicks on card 1 make captured `[0, 0, 1, 1]`, which counts as a win and sets the best score, with cards 2 and 3 never found |
| `ReClick.RevealGuarded` | game.js:64-68 | with the intended guard a click on the face-up card is ignored; cards are never captured twice or both captured and face-up; invariant and range are kept |
| `ReClick.AdmitKeepsDistinct` | game.js:79-84 | admitting a card that is neither captured nor face-up keeps every card at most once in captured cards and buffer |
| `ReClick.FlipBackAndRestartKeepDistinct` | game.js:112 | flip-back and restart keep that property |
| `ReClick.DistinctWinCapturesAll` | game.js:144 | when no card is captured twice and every captured card is on the grid (`InRange`, which a resize can break, see `Scenarios.ResizeKeepsCapturedCards`), the win test means every card of the grid is captured |
| `Scenarios.FindFirstPair` | game.js:63-118 | on `[P, E, P, E]`, clicks 0 and 2 capture `[0, 2]` in one move and change nothing else in the session |
| `Scenarios.TwoMatchesWin` | game.js:63-118 | after that, clicks 1 and 3 capture `[0, 2, 1, 3]` and win in 2 moves, which become the best score in the session and in storage |
| `Scenarios.MismatchBlocksUntilFlipBack` | game.js:64-113 | on `[P, E, P, E]`, clicks 0 and 1 leave both face-up after one move; a click on 2 is ignored until the flip-back, then admitted |
| `Scenarios.OnePairWinsInOneMove` | game.js:81-146 | a fresh one-pair grid `[P, P]` is won by clicks 0 and 1 in one move, which becomes the best score |
| `Scenarios.BestScoreIsLowest` | game.js:144-147 | after two won games the best score is the least of the two move counts and the previous best |
| `Scenarios.CaptureSecondPair` | game.js:63-118 | on `[P, E, P, E]`, clicks 1 and 3 capture `[1, 3]` in one move and change nothing else in the session |
| `Scenarios.ResizeKeepsCapturedCards` | game.js:26-50 | after that, rebuilding a one-pair grid gives `[P, P]` and keeps captured indices `[1, 3]`, one of them outside the new grid; the win rule then records 1 as the best score |
| `Scenarios.RestartOnEmptyGridRecordsZero` | game.js:121-147 | after a resize to 0 pairs mid-game (empty grid, cards still captured, best score kept), a restart sets the best score to 0 and writes 0 to storage |
| `Scenarios.LoadCanRaiseHighScore` | game.js:192-200 | loading replaces the best score even with a higher one |

## Left out

- DOM rendering and event wiring are not modelled, because they only present the state. This covers `setupEvents`, `updateCaptured`, `updateCapturedFromState`, the image and bush handling inside the modelled methods, and the "replay" button. `updateCapturedFromState` would also throw: it uses a misspelled class selector at game.js:166 and an undefined `pokemon` at game.js:174. Because of that, `LoadGameState` reports `true` where the source may throw after restoring the state.
- `fetchPokemons` and the `startGame` method are not modelled as code, because they are network I/O and listener registration. The catalog arrives through `Game.ReceiveCatalog`; the state `startGame` leaves without a saved record is `MatchEngine.Started`, and with one it is `MatchEngine.LoadGameState`'s. `Step` and `Run` stand for the listeners, so a run models only a start without a saved record: with one, `updateCapturedFromState` throws before the listeners are attached, and `setupEvents` is not called on that path anyway.
- `localStorage` and `JSON.parse`/`JSON.stringify` are reduced to two maps (scores and session records), and JSON is the identity. A value of the wrong shape under a key is therefore not modelled.
- `setTimeout` and the 2000 ms delay are not modelled. The flip-back is an explicit step, and a run may take it at any time, including after a restart, just as a pending timer can fire then. Nothing tracks whether a flip-back is pending.
- The internals of `shuffleArray` (in `utils.js`) are not modelled. Each shuffle is an arbitrary permutation passed in as a parameter, and whether it reorders the catalog in place is not modelled.
- JavaScript string and number coercion is not modelled. Card indices are strings in the source and `highScore` is read back from storage as a string; both are natural numbers here. A pair count that `parseInt` returns as `NaN` is not modelled; negative pair counts follow `slice`.
- `main.js` is not modelled: it is a stale stub of the same class, without `startGame`.
- `MatchEngine.LoadGameState` claims no invariant, because the source loads the record without checking it.

## Findings

| source | as written | input that shows it | evidently intended | confidence | as-written member | corrected member |
|---|---|---|---|---|---|---|
| game.js:67 | `revealedCards.some((card) => card.index) === index` compares a boolean with the string index, so the re-click clause is never true and a second click on the face-up card is admitted as its own match | any fresh four-card grid with a best score above 2, clicks on 0, 0, 1, 1: captured becomes `[0, 0, 1, 1]` and the game counts as won in 2 moves | a click on the card already face-up is ignored, so a win means every card was found | high; not executed | `ReClick.DoubleClickFakesWin` | `ReClick.RevealGuarded` |

`ReClick.DoubleClickCapturesTwice` shows the first half of that input (card 0
captured twice) and `ReClick.DoubleClickFakesWin` the second. The `Game`
class keeps the guard as written, so it models the source. The
corrected guard `ReClick.RevealGuarded` keeps every card at most once in the
captured cards and buffer. Under it, `ReClick.DistinctWinCapturesAll` shows
that the win test of game.js:144 holds only when every card is captured, as
long as every captured card is on the grid (`InRange`). A resize can break
that even under the corrected guard: `Scenarios.ResizeKeepsCapturedCards`
ends with grid `[P, P]` and captured `[1, 3]`, which counts as won.
