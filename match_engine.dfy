/**
 * The session state of the `Game` class of game.js as a value, and each of its
 * transitions as a function from the state before to the state after. The state
 * is the session (`Session`) together with what the game keeps in the browser's
 * `localStorage` (`Store`); JSON encoding is taken to be the identity.
 *
 * Card indices arrive as strings read from `data-index` attributes; here they
 * are natural numbers. A JavaScript exception (reading a property of an
 * `undefined` grid entry) ends a transition where it is raised: the state keeps
 * whatever was changed before that point.
 */
module MatchEngine {
  import opened Shuffling
  import opened GridBuilder

  /** A catalog entry: the name is what two cards are compared by. */
  datatype Creature = Creature(name: string, sprite: string)

  /** The best score before any game has been won. */
  const NoHighScore: nat := 999999

  /** The `localStorage` keys the game writes. */
  const HighScoreKey: string := "highScore"
  const GameStateKey: string := "gameState"

  /** The fields of a `Game`, without the DOM references of `revealedCards` entries. */
  datatype Session = Session(
    pokemons: seq<Creature>,  // catalog
    grid: seq<Creature>,      // the creature on each card
    captured: seq<nat>,       // cards matched so far, in the order they were matched
    revealed: seq<nat>,       // face-up cards not yet resolved
    moves: nat,
    highScore: nat)

  /** The record `saveGameState` writes under `GameStateKey`. */
  datatype SavedState = SavedState(grid: seq<Creature>, captured: seq<nat>, moves: nat, highScore: nat)

  /**
   * `localStorage`, one map per kind of value the game writes: the best score
   * under `HighScoreKey` and the session record under `GameStateKey`.
   */
  datatype Store = Store(scores: map<string, nat>, records: map<string, SavedState>)

  datatype World = World(game: Session, store: Store)

  /** Every card is captured. */
  predicate Won(s: Session) {
    |s.captured| == |s.grid|
  }

  /** The best score already accounts for a win of the current game. */
  predicate Settled(s: Session) {
    Won(s) ==> s.highScore <= s.moves
  }

  /**
   * What every transition except `LoadGameState` keeps: at most two cards are
   * face-up and unresolved, captured cards come in pairs, and no face-up card
   * is already captured.
   */
  predicate Invariant(s: Session) {
    && |s.revealed| <= 2
    && |s.captured| % 2 == 0
    && (forall i | 0 <= i < |s.revealed| :: s.revealed[i] !in s.captured)
  }

  /** Every captured and every face-up card is a card of the grid. */
  predicate InRange(s: Session) {
    && (forall i | 0 <= i < |s.captured| :: s.captured[i] < |s.grid|)
    && (forall i | 0 <= i < |s.revealed| :: s.revealed[i] < |s.grid|)
  }

  function Snapshot(s: Session): SavedState {
    SavedState(s.grid, s.captured, s.moves, s.highScore)
  }

  /**
   * The `Game` constructor: empty grid and catalog, no move yet, and the best
   * score read back from storage or the sentinel `NoHighScore`.
   */
  function Fresh(store: Store): (s: Session)
    ensures s.grid == [] && s.pokemons == [] && s.captured == [] && s.revealed == [] && s.moves == 0
    ensures Invariant(s) && InRange(s)
    ensures HighScoreKey in store.scores ==> s.highScore == store.scores[HighScoreKey]
    ensures HighScoreKey !in store.scores ==> s.highScore == NoHighScore
  {
    Session([], [], [], [], 0, if HighScoreKey in store.scores then store.scores[HighScoreKey] else NoHighScore)
  }

  /**
   * `initializeGrid`: with a non-empty catalog the grid is rebuilt; with an
   * empty one nothing changes. Nothing but the grid is touched: captured and
   * face-up cards and the move count carry over.
   */
  function InitializeGrid(s: Session, pairsCount: int, shuffle1: seq<nat>, shuffle2: seq<nat>): (r: Session)
    requires |s.pokemons| > 0 ==> ShufflesFit(|s.pokemons|, pairsCount, shuffle1, shuffle2)
    ensures r.(grid := s.grid) == s
    ensures |s.pokemons| == 0 ==> r == s
  {
    if |s.pokemons| > 0 then s.(grid := BuildGrid(s.pokemons, pairsCount, shuffle1, shuffle2)) else s
  }

  /** The guarantees of `initializeGrid` on the grid it builds. */
  lemma InitializeGridPairs(s: Session, pairsCount: int, shuffle1: seq<nat>, shuffle2: seq<nat>)
    requires |s.pokemons| > 0
    requires ShufflesFit(|s.pokemons|, pairsCount, shuffle1, shuffle2)
    ensures var r := InitializeGrid(s, pairsCount, shuffle1, shuffle2);
      && (pairsCount >= 0 ==> |r.grid| == 2 * (if pairsCount < |s.pokemons| then pairsCount else |s.pokemons|))
      && (forall c | c in r.grid :: c in s.pokemons)
      && (NoDuplicates(s.pokemons) ==>
            forall c :: multiset(r.grid)[c] == if c in Selected(s.pokemons, pairsCount, shuffle1) then 2 else 0)
  {
    BuildGridPairs(s.pokemons, pairsCount, shuffle1, shuffle2);
  }

  /**
   * The win rule of `updateStats`: the best score is lowered to the move count
   * exactly when every card is captured with strictly fewer moves than the best
   * score, and then also written to storage; otherwise nothing changes.
   */
  function UpdateStats(w: World): (r: World)
    ensures r.game == w.game.(highScore := r.game.highScore)
    ensures r.store.records == w.store.records
    ensures r.game.highScore <= w.game.highScore
    ensures r.game.highScore != w.game.highScore <==> Won(w.game) && w.game.moves < w.game.highScore
    ensures r.game.highScore != w.game.highScore ==>
      r.game.highScore == w.game.moves && r.store.scores == w.store.scores[HighScoreKey := w.game.moves]
    ensures r.game.highScore == w.game.highScore ==> r == w
    ensures Settled(r.game)
  {
    if Won(w.game) && w.game.moves < w.game.highScore then
      World(w.game.(highScore := w.game.moves), w.store.(scores := w.store.scores[HighScoreKey := w.game.moves]))
    else
      w
  }

  /**
   * The win rule, as the transitions that end in `updateStats` apply it: `after`
   * differs from `pre` in its best score exactly when `pre` is won with fewer
   * moves than its best score; the best score then becomes the move count and is
   * written to the scores in storage, which otherwise stay as they were.
   */
  predicate WinRule(pre: Session, scores: map<string, nat>, after: World) {
    && (after.game.highScore != pre.highScore <==> Won(pre) && pre.moves < pre.highScore)
    && (after.game.highScore != pre.highScore ==>
          after.game.highScore == pre.moves && after.store.scores == scores[HighScoreKey := pre.moves])
    && (after.game.highScore == pre.highScore ==> after.store.scores == scores)
  }

  /** `saveGameState`: the record under `GameStateKey` becomes a copy of the session. */
  function SaveGameState(w: World): (r: World)
    ensures r.game == w.game && r.store.scores == w.store.scores
    ensures r.store.records.Keys == w.store.records.Keys + {GameStateKey}
    ensures r.store.records[GameStateKey] == SavedState(w.game.grid, w.game.captured, w.game.moves, w.game.highScore)
    ensures forall k | k in w.store.records && k != GameStateKey :: r.store.records[k] == w.store.records[k]
  {
    w.(store := w.store.(records := w.store.records[GameStateKey := Snapshot(w.game)]))
  }

  /** The two face-up cards are cards of the grid. */
  predicate PairInGrid(s: Session)
    requires |s.revealed| == 2
  {
    s.revealed[0] < |s.grid| && s.revealed[1] < |s.grid|
  }

  /** The two face-up cards show creatures of the same name. */
  predicate PairMatches(s: Session)
    requires |s.revealed| == 2 && PairInGrid(s)
  {
    s.grid[s.revealed[0]].name == s.grid[s.revealed[1]].name
  }

  /**
   * `checkMatch`, called with two face-up cards. On a match both are captured and
   * the buffer is emptied; on a mismatch both stay face-up until `FlipBack`. In
   * either case the win rule runs and the session is saved. A face-up card
   * outside the grid (possible only after the grid was rebuilt smaller) throws
   * before anything changes.
   */
  function CheckMatch(w: World): (r: World)
    requires |w.game.revealed| == 2
    ensures r.game.grid == w.game.grid && r.game.pokemons == w.game.pokemons && r.game.moves == w.game.moves
    ensures !PairInGrid(w.game) ==> r == w
    ensures PairInGrid(w.game) && PairMatches(w.game) ==>
      r.game.captured == w.game.captured + w.game.revealed && r.game.revealed == []
    ensures PairInGrid(w.game) && !PairMatches(w.game) ==>
      r.game.captured == w.game.captured && r.game.revealed == w.game.revealed
    ensures PairInGrid(w.game) ==>
      GameStateKey in r.store.records && r.store.records[GameStateKey] == Snapshot(r.game) && Settled(r.game)
    ensures PairInGrid(w.game) ==> r.store.records == w.store.records[GameStateKey := Snapshot(r.game)]
    ensures PairInGrid(w.game) ==>
      WinRule(w.game.(captured := r.game.captured, revealed := r.game.revealed), w.store.scores, r)
    ensures r.game.highScore <= w.game.highScore
    ensures Invariant(w.game) ==> Invariant(r.game)
    ensures InRange(w.game) ==> InRange(r.game)
  {
    var s := w.game;
    if !PairInGrid(s) then
      w
    else if PairMatches(s) then
      SaveGameState(UpdateStats(World(s.(captured := s.captured + s.revealed, revealed := []), w.store)))
    else
      SaveGameState(UpdateStats(w))
  }

  /**
   * The guard of `revealPokemon` as it is written. The clause that compares the
   * boolean result of `revealedCards.some(...)` with the string `index` using
   * `===` is never true, so only two clauses are in force: two cards are already
   * face-up, or the card is captured. Clicking the one face-up card again is not
   * ignored.
   */
  predicate Guarded(s: Session, index: nat) {
    |s.revealed| >= 2 || index in s.captured
  }

  /**
   * The part of `revealPokemon` after the guard: the card goes face-up; when it
   * is the second one, the move count goes up by one and the pair is resolved.
   */
  function Admit(w: World, index: nat): (r: World)
    requires |w.game.revealed| < 2 && index < |w.game.grid|
    ensures r.game.grid == w.game.grid && r.game.pokemons == w.game.pokemons
    ensures |w.game.revealed| == 0 ==> r == w.(game := w.game.(revealed := [index]))
    ensures |w.game.revealed| == 1 ==> r.game.moves == w.game.moves + 1
    ensures |w.game.revealed| == 1 && w.game.revealed[0] < |w.game.grid| ==>
      && GameStateKey in r.store.records && r.store.records[GameStateKey] == Snapshot(r.game)
      && r.store.records == w.store.records[GameStateKey := Snapshot(r.game)]
      && (w.game.grid[w.game.revealed[0]].name == w.game.grid[index].name ==>
            r.game.captured == w.game.captured + [w.game.revealed[0], index] && r.game.revealed == [])
      && (w.game.grid[w.game.revealed[0]].name != w.game.grid[index].name ==>
            r.game.captured == w.game.captured && r.game.revealed == w.game.revealed + [index])
    ensures |w.game.revealed| == 1 && w.game.revealed[0] >= |w.game.grid| ==>
      r.game == w.game.(revealed := w.game.revealed + [index], moves := w.game.moves + 1) && r.store == w.store
    ensures |w.game.revealed| == 1 && w.game.revealed[0] < |w.game.grid| ==>
      WinRule(w.game.(captured := r.game.captured, revealed := r.game.revealed, moves := w.game.moves + 1), w.store.scores, r)
    ensures r.game.highScore <= w.game.highScore
    ensures Invariant(w.game) && index !in w.game.captured ==> Invariant(r.game)
    ensures InRange(w.game) ==> InRange(r.game)
  {
    var s := w.game.(revealed := w.game.revealed + [index]);
    if |s.revealed| == 2 then CheckMatch(World(s.(moves := s.moves + 1), w.store)) else World(s, w.store)
  }

  /**
   * `revealPokemon`: ignored when the guard holds; a card outside the grid
   * throws before anything changes; otherwise the card is admitted.
   */
  function Reveal(w: World, index: nat): (r: World)
    ensures Guarded(w.game, index) || index >= |w.game.grid| ==> r == w
    ensures !Guarded(w.game, index) && index < |w.game.grid| ==> r == Admit(w, index)
    ensures !Guarded(w.game, index) && index < |w.game.grid| ==>
      |r.game.captured| + |r.game.revealed| == |w.game.captured| + |w.game.revealed| + 1
    ensures r.game.moves == w.game.moves + (if !Guarded(w.game, index) && index < |w.game.grid| && |w.game.revealed| == 1 then 1 else 0)
    ensures r.game.grid == w.game.grid && r.game.pokemons == w.game.pokemons
    ensures r.game.highScore <= w.game.highScore
    ensures Invariant(w.game) ==> Invariant(r.game)
    ensures InRange(w.game) ==> InRange(r.game)
  {
    if Guarded(w.game, index) || index >= |w.game.grid| then w else Admit(w, index)
  }

  /** A click on a free card with no card face-up turns just that card over. */
  lemma ClickFirstCard(w: World, index: nat)
    requires w.game.revealed == [] && index !in w.game.captured && index < |w.game.grid|
    ensures Reveal(w, index) == w.(game := w.game.(revealed := [index]))
  {
  }

  /**
   * A second click on a card of the same name as the face-up one captures both,
   * counts a move, and records the move count as best score when that wins the
   * game with fewer moves.
   */
  lemma ClickMatchingCard(w: World, index: nat)
    requires |w.game.revealed| == 1 && index !in w.game.captured && index < |w.game.grid|
    requires w.game.revealed[0] < |w.game.grid| && w.game.grid[w.game.revealed[0]].name == w.game.grid[index].name
    ensures var s := w.game;
      var wins := |s.captured| + 2 == |s.grid| && s.moves + 1 < s.highScore;
      && Reveal(w, index).game
         == s.(captured := s.captured + [s.revealed[0], index], revealed := [], moves := s.moves + 1,
               highScore := if wins then s.moves + 1 else s.highScore)
      && (wins ==> Reveal(w, index).store.scores == w.store.scores[HighScoreKey := s.moves + 1])
  {
    var s := w.game;
    var m := World(s.(revealed := s.revealed + [index], moves := s.moves + 1), w.store);
    assert m.game.revealed == [s.revealed[0], index];
  }

  /**
   * A second click on a card of another name than the face-up one counts a move
   * and leaves both face-up.
   */
  lemma ClickMismatchingCard(w: World, index: nat)
    requires |w.game.revealed| == 1 && index !in w.game.captured && index < |w.game.grid|
    requires w.game.revealed[0] < |w.game.grid| && w.game.grid[w.game.revealed[0]].name != w.game.grid[index].name
    requires !Won(w.game)
    ensures Reveal(w, index).game == w.game.(revealed := w.game.revealed + [index], moves := w.game.moves + 1)
  {
  }

  /**
   * The step the delayed callback of a mismatch performs: the buffer is emptied
   * and nothing else changes.
   */
  function FlipBack(w: World): (r: World)
    ensures r.game == w.game.(revealed := []) && r.store == w.store
    ensures Invariant(w.game) ==> Invariant(r.game)
    ensures InRange(w.game) ==> InRange(r.game)
  {
    w.(game := w.game.(revealed := []))
  }

  /**
   * `restartGame`: moves, captured cards and the buffer are reset; grid and
   * catalog stay. The win rule runs afterwards, so the best score also stays,
   * except on an empty grid, where the reset session counts as won in 0 moves.
   */
  function RestartGame(w: World): (r: World)
    ensures r.game.moves == 0 && r.game.captured == [] && r.game.revealed == []
    ensures r.game.grid == w.game.grid && r.game.pokemons == w.game.pokemons
    ensures r.store.records == w.store.records
    ensures |w.game.grid| > 0 ==> r.game.highScore == w.game.highScore && r.store == w.store
    ensures |w.game.grid| == 0 ==> r.game.highScore == 0
    ensures |w.game.grid| == 0 && w.game.highScore > 0 ==> r.store.scores == w.store.scores[HighScoreKey := 0]
    ensures WinRule(w.game.(moves := 0, captured := [], revealed := []), w.store.scores, r)
    ensures Invariant(r.game) && InRange(r.game)
  {
    UpdateStats(w.(game := w.game.(moves := 0, captured := [], revealed := [])))
  }

  /**
   * The state part of `setupDynamicGrid` (the grid-size form): the grid is
   * rebuilt and the win rule runs; the rest of the session is not reset.
   */
  function SetupDynamicGrid(w: World, pairsCount: int, shuffle1: seq<nat>, shuffle2: seq<nat>): (r: World)
    requires |w.game.pokemons| > 0 ==> ShufflesFit(|w.game.pokemons|, pairsCount, shuffle1, shuffle2)
    ensures r.game.captured == w.game.captured && r.game.revealed == w.game.revealed && r.game.moves == w.game.moves
    ensures r.game.pokemons == w.game.pokemons
    ensures r.game.grid == InitializeGrid(w.game, pairsCount, shuffle1, shuffle2).grid
    ensures r.store.records == w.store.records
    ensures WinRule(w.game.(grid := r.game.grid), w.store.scores, r)
    ensures r.game.highScore <= w.game.highScore
    ensures Invariant(w.game) ==> Invariant(r.game)
  {
    UpdateStats(w.(game := InitializeGrid(w.game, pairsCount, shuffle1, shuffle2)))
  }

  /**
   * The state part of `loadGameState`. Without a record it reports `false` and
   * changes nothing. With one it copies grid, captured cards, moves and best
   * score from it, keeps the face-up buffer and the catalog, runs the win rule
   * and reports `true`. The record is not checked against `Invariant`.
   */
  function LoadGameState(w: World): (r: (bool, World))
    ensures r.0 <==> GameStateKey in w.store.records
    ensures !r.0 ==> r.1 == w
    ensures r.0 ==>
      var saved := w.store.records[GameStateKey];
      && r.1.game.grid == saved.grid && r.1.game.captured == saved.captured && r.1.game.moves == saved.moves
      && r.1.game.revealed == w.game.revealed && r.1.game.pokemons == w.game.pokemons
      && r.1.game.highScore == (if |saved.captured| == |saved.grid| && saved.moves < saved.highScore then saved.moves else saved.highScore)
      && r.1.store.records == w.store.records
      && WinRule(w.game.(grid := saved.grid, captured := saved.captured, moves := saved.moves, highScore := saved.highScore),
                 w.store.scores, r.1)
  {
    if GameStateKey in w.store.records then
      var saved := w.store.records[GameStateKey];
      (true, UpdateStats(w.(game := w.game.(grid := saved.grid, captured := saved.captured, moves := saved.moves, highScore := saved.highScore))))
    else
      (false, w)
  }

  /** A saved session whose best score is settled comes back unchanged. */
  lemma SaveThenLoad(w: World, later: Session)
    requires Settled(w.game)
    ensures var r := LoadGameState(World(later, SaveGameState(w).store));
      && r.0
      && r.1.game.grid == w.game.grid && r.1.game.captured == w.game.captured
      && r.1.game.moves == w.game.moves && r.1.game.highScore == w.game.highScore
  {
  }

  /**
   * What `checkMatch` saves is restored by a later `loadGameState`, into any
   * session: the win rule has already run, so loading does not alter it.
   */
  lemma CheckMatchThenLoad(w: World, later: Session)
    requires |w.game.revealed| == 2 && PairInGrid(w.game)
    ensures var m := CheckMatch(w);
      var r := LoadGameState(World(later, m.store));
      && r.0
      && r.1.game.grid == m.game.grid && r.1.game.captured == m.game.captured
      && r.1.game.moves == m.game.moves && r.1.game.highScore == m.game.highScore
  {
    var m := CheckMatch(w);
    assert Settled(m.game);
    SaveThenLoad(m, later);
  }

  // ---------------------------------------------------------------------------
  // Runs: the events that drive a session once it has started.
  // ---------------------------------------------------------------------------

  /**
   * A card click, the delayed flip-back of a mismatch, the replay button, and the
   * grid-size form with the two shuffles it draws. The flip-back event may come
   * at any point, like a pending timer that outlives a restart.
   */
  datatype Event =
    | Click(index: nat)
    | FlipBackElapsed
    | Replay
    | Resize(pairsCount: int, shuffle1: seq<nat>, shuffle2: seq<nat>)

  /** The shuffles of a resize are permutations, as `shuffleArray` returns. */
  predicate Producible(catalog: seq<Creature>, e: Event) {
    e.Resize? && |catalog| > 0 ==> ShufflesFit(|catalog|, e.pairsCount, e.shuffle1, e.shuffle2)
  }

  function Step(w: World, e: Event): (r: World)
    requires Producible(w.game.pokemons, e)
    ensures r.game.pokemons == w.game.pokemons
    ensures r.game.highScore <= w.game.highScore
    ensures Invariant(w.game) ==> Invariant(r.game)
    ensures || r.game.captured == w.game.captured
            || r.game.captured == []
            || (|r.game.captured| == |w.game.captured| + 2 && r.game.captured[..|w.game.captured|] == w.game.captured)
  {
    match e
    case Click(index) => Reveal(w, index)
    case FlipBackElapsed => FlipBack(w)
    case Replay => RestartGame(w)
    case Resize(pairsCount, shuffle1, shuffle2) => SetupDynamicGrid(w, pairsCount, shuffle1, shuffle2)
  }

  predicate AllProducible(catalog: seq<Creature>, events: seq<Event>) {
    forall i | 0 <= i < |events| :: Producible(catalog, events[i])
  }

  /** The world after the events, one after another. */
  function Run(w: World, events: seq<Event>): (r: World)
    requires AllProducible(w.game.pokemons, events)
    ensures r.game.pokemons == w.game.pokemons
    decreases |events|
  {
    if events == [] then w
    else
      var next := Step(w, events[0]);
      assert AllProducible(next.game.pokemons, events[1..]) by {
        forall i | 0 <= i < |events| - 1
          ensures Producible(next.game.pokemons, events[1..][i])
        {
          assert events[1..][i] == events[i + 1];
        }
      }
      Run(next, events[1..])
  }

  /**
   * Along any run `Invariant` holds throughout (at most two face-up cards, an even
   * number of captured cards) and the best score never rises.
   */
  lemma {:induction false} RunKeepsInvariant(w: World, events: seq<Event>)
    requires AllProducible(w.game.pokemons, events)
    requires Invariant(w.game)
    ensures Invariant(Run(w, events).game)
    ensures Run(w, events).game.highScore <= w.game.highScore
    decreases |events|
  {
    if events != [] {
      var next := Step(w, events[0]);
      assert AllProducible(next.game.pokemons, events[1..]) by {
        forall i | 0 <= i < |events| - 1
          ensures Producible(next.game.pokemons, events[1..][i])
        {
          assert events[1..][i] == events[i + 1];
        }
      }
      RunKeepsInvariant(next, events[1..]);
    }
  }

  /**
   * The session `startGame` (game.js:225-230) opens when no record is saved:
   * the fetched catalog goes into a fresh session, and `setupDynamicGrid` builds
   * the default grid of 6 pairs with the permutations `shuffle1` and `shuffle2`
   * and runs the win rule. With a record, `startGame` leaves what
   * `LoadGameState` restores instead.
   */
  function Started(store: Store, catalog: seq<Creature>, shuffle1: seq<nat>, shuffle2: seq<nat>): (w: World)
    requires |catalog| > 0 ==> ShufflesFit(|catalog|, 6, shuffle1, shuffle2)
    ensures Invariant(w.game) && w.game.pokemons == catalog
    ensures w.game.captured == [] && w.game.revealed == [] && w.game.moves == 0
    ensures w.game.grid == InitializeGrid(Fresh(store).(pokemons := catalog), 6, shuffle1, shuffle2).grid
    ensures w.store.records == store.records
    ensures |catalog| == 0 ==> w.game.grid == [] && w.game.highScore == 0
    ensures |catalog| == 0 && Fresh(store).highScore > 0 ==> w.store.scores == store.scores[HighScoreKey := 0]
    ensures WinRule(Fresh(store).(pokemons := catalog, grid := w.game.grid), store.scores, w)
    ensures |catalog| > 0 ==> w.game.highScore == Fresh(store).highScore && w.store == store
  {
    SetupDynamicGrid(World(Fresh(store).(pokemons := catalog), store), 6, shuffle1, shuffle2)
  }

  /**
   * From a fresh session, whatever the events, the number of captured cards is
   * even, at most two cards are face-up, and the best score is at most the one
   * read from storage.
   */
  lemma RunFromStart(store: Store, catalog: seq<Creature>, shuffle1: seq<nat>, shuffle2: seq<nat>, events: seq<Event>)
    requires |catalog| > 0 ==> ShufflesFit(|catalog|, 6, shuffle1, shuffle2)
    requires AllProducible(catalog, events)
    ensures var r := Run(Started(store, catalog, shuffle1, shuffle2), events);
      && |r.game.captured| % 2 == 0
      && |r.game.revealed| <= 2
      && r.game.highScore <= Fresh(store).highScore
  {
    RunKeepsInvariant(Started(store, catalog, shuffle1, shuffle2), events);
  }
}
