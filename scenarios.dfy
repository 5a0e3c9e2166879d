/**
 * Concrete sessions that exercise the transitions of `MatchEngine`, including
 * the places where game.js behaves differently from a reading of its user
 * interface: resizing keeps the old captured cards, restarting an empty grid
 * counts as a win, and loading can raise the best score.
 */
module Scenarios {
  import opened MatchEngine
  import opened ReClick
  import opened GridBuilder

  /** On [Pikachu, Evoli, Pikachu, Evoli], cards 0 and 2 are a pair, found in one move. */
  lemma FindFirstPair(w: World)
    requires w.game == TwoPairs().game
    ensures Reveal(Reveal(w, 0), 2).game == w.game.(captured := [0, 2], moves := 1)
  {
    ClickFirstCard(w, 0);
    ClickMatchingCard(Reveal(w, 0), 2);
  }

  /**
   * After that, cards 1 and 3 are the other pair: finding it wins the game in
   * two moves, which become the best score, in the session and in storage.
   */
  lemma TwoMatchesWin(w: World)
    requires w.game == TwoPairs().game.(captured := [0, 2], moves := 1)
    ensures var r := Reveal(Reveal(w, 1), 3);
      && r.game.captured == [0, 2, 1, 3]
      && r.game.revealed == []
      && Won(r.game)
      && r.game.moves == 2
      && r.game.highScore == 2
      && r.store.scores == w.store.scores[HighScoreKey := 2]
  {
    assert 1 !in w.game.captured && 3 !in w.game.captured;
    ClickFirstCard(w, 1);
    ClickMatchingCard(Reveal(w, 1), 3);
  }

  /**
   * A mismatch keeps both cards face-up: a third card is ignored until the
   * flip-back, after which it is admitted.
   */
  lemma MismatchBlocksUntilFlipBack(w0: World)
    requires w0.game == TwoPairs().game
    ensures var w2 := Reveal(Reveal(w0, 0), 1);
      && w2.game.revealed == [0, 1] && w2.game.captured == [] && w2.game.moves == 1
      && Reveal(w2, 2) == w2
      && Reveal(FlipBack(w2), 2).game.revealed == [2]
  {
    var w1 := Reveal(w0, 0);
    ClickFirstCard(w0, 0);
    var w2 := Reveal(w1, 1);
    assert w2.game == w1.game.(revealed := [0, 1], moves := 1) by {
      ClickMismatchingCard(w1, 1);
    }
    ClickFirstCard(FlipBack(w2), 2);
  }

  /** A grid of one pair is won by the first pair of clicks, in one move. */
  lemma OnePairWinsInOneMove(w0: World)
    requires w0.game == Session([], [Pikachu, Pikachu], [], [], 0, NoHighScore)
    ensures var w := Reveal(Reveal(w0, 0), 1);
      Won(w.game) && w.game.moves == 1 && w.game.highScore == 1
  {
    ClickFirstCard(w0, 0);
    ClickMatchingCard(Reveal(w0, 0), 1);
  }

  /** Over two won games the best score is the lower move count, in either order. */
  lemma BestScoreIsLowest(w: World, first: nat, second: nat)
    requires Won(w.game)
    ensures var w1 := UpdateStats(w.(game := w.game.(moves := first)));
      var w2 := UpdateStats(w1.(game := w1.game.(moves := second)));
      && w2.game.highScore <= first && w2.game.highScore <= second && w2.game.highScore <= w.game.highScore
      && (w2.game.highScore == first || w2.game.highScore == second || w2.game.highScore == w.game.highScore)
  {
  }

  /** Cards 1 and 3 of the grid [Pikachu, Evoli, Pikachu, Evoli] found in one move. */
  lemma CaptureSecondPair(w0: World)
    requires w0.game == TwoPairs().game.(pokemons := [Pikachu, Evoli])
    ensures Reveal(Reveal(w0, 1), 3).game == w0.game.(captured := [1, 3], moves := 1)
  {
    ClickFirstCard(w0, 1);
    ClickMatchingCard(Reveal(w0, 1), 3);
  }

  /**
   * Rebuilding the grid with the size form does not reset the session: the
   * captured cards of the old grid (those of `CaptureSecondPair`) remain, here
   * beyond the end of the new one, and since there are as many of them as cards
   * the win rule records the old move count as the best score.
   */
  lemma ResizeKeepsCapturedCards(w: World)
    requires w.game == Session([Pikachu, Evoli], [Pikachu, Evoli, Pikachu, Evoli], [1, 3], [], 1, NoHighScore)
    ensures var r := SetupDynamicGrid(w, 1, [0, 1], [1, 0]);
      && r.game.grid == [Pikachu, Pikachu]
      && r.game.captured == [1, 3]
      && !InRange(r.game)
      && r.game.highScore == 1
  {
    var selected := Selected(w.game.pokemons, 1, [0, 1]);
    assert selected == [Pikachu];
    var grid := BuildGrid(w.game.pokemons, 1, [0, 1], [1, 0]);
    assert grid == [Pikachu, Pikachu];
    var r := SetupDynamicGrid(w, 1, [0, 1], [1, 0]);
    assert r.game.captured[1] == 3;
  }

  /**
   * A resize to 0 pairs in the middle of a game leaves an empty grid, some
   * captured cards and the best score as it was; the restart then counts the
   * reset session as won in 0 moves and writes 0 to storage as the best score.
   */
  lemma RestartOnEmptyGridRecordsZero(w: World, shuffle1: seq<nat>)
    requires |w.game.pokemons| > 0 && ShufflesFit(|w.game.pokemons|, 0, shuffle1, [])
    requires w.game.captured != [] && w.game.highScore > 0
    ensures var resized := SetupDynamicGrid(w, 0, shuffle1, []);
      var r := RestartGame(resized);
      && resized.game.grid == []
      && resized.game.highScore == w.game.highScore
      && r.game.highScore == 0
      && r.store.scores == resized.store.scores[HighScoreKey := 0]
  {
  }

  /** Loading a record whose best score is higher than the current one raises it. */
  lemma LoadCanRaiseHighScore()
    ensures var saved := SavedState([Pikachu, Pikachu], [], 0, NoHighScore);
      var w := World(Session([], [], [], [], 0, 5), Store(map[], map[GameStateKey := saved]));
      LoadGameState(w).1.game.highScore == NoHighScore
  {
  }
}
