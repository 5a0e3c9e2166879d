/**
 * The `Game` class of game.js with the DOM stripped away: its fields are updated
 * in place by its methods, and each method is proved to perform exactly the
 * corresponding transition of `MatchEngine` on the game and on `localStorage`.
 */
module MemoryGame {
  import opened Shuffling
  import opened GridBuilder
  import MatchEngine

  /** The browser's `localStorage`, as far as the game uses it. */
  class LocalStorage {
    var scores: map<string, nat>
    var records: map<string, MatchEngine.SavedState>

    constructor (scores: map<string, nat>, records: map<string, MatchEngine.SavedState>)
      ensures Value() == MatchEngine.Store(scores, records)
    {
      this.scores := scores;
      this.records := records;
    }

    function Value(): MatchEngine.Store
      reads this
    {
      MatchEngine.Store(scores, records)
    }

    method SetScore(key: string, value: nat)
      modifies this
      ensures scores == old(scores)[key := value] && records == old(records)
    {
      scores := scores[key := value];
    }

    method SetRecord(key: string, value: MatchEngine.SavedState)
      modifies this
      ensures records == old(records)[key := value] && scores == old(scores)
    {
      records := records[key := value];
    }
  }

  class Game {
    var grid: seq<MatchEngine.Creature>
    var pokemons: seq<MatchEngine.Creature>
    var captured: seq<nat>
    var revealedCards: seq<nat>
    var moves: nat
    var highScore: nat

    function State(): MatchEngine.Session
      reads this
    {
      MatchEngine.Session(pokemons, grid, captured, revealedCards, moves, highScore)
    }

    function Current(storage: LocalStorage): MatchEngine.World
      reads this, storage
    {
      MatchEngine.World(State(), storage.Value())
    }

    ghost predicate Valid()
      reads this
    {
      MatchEngine.Invariant(State())
    }

    constructor (storage: LocalStorage)
      ensures State() == MatchEngine.Fresh(storage.Value())
      ensures Valid()
    {
      grid := [];
      pokemons := [];
      captured := [];
      revealedCards := [];
      moves := 0;
      highScore := if MatchEngine.HighScoreKey in storage.scores then storage.scores[MatchEngine.HighScoreKey]
                   else MatchEngine.NoHighScore;
    }

    /** The assignment of the fetched catalog in `fetchPokemons`. */
    method ReceiveCatalog(catalog: seq<MatchEngine.Creature>)
      modifies this
      ensures State() == old(State()).(pokemons := catalog)
      ensures old(Valid()) ==> Valid()
    {
      pokemons := catalog;
    }

    /** `shuffle1` and `shuffle2` are the permutations the two calls of `shuffleArray` apply. */
    method InitializeGrid(shuffle1: seq<nat>, shuffle2: seq<nat>, pairsCount: int := 6)
      requires |pokemons| > 0 ==> ShufflesFit(|pokemons|, pairsCount, shuffle1, shuffle2)
      modifies this
      ensures State() == MatchEngine.InitializeGrid(old(State()), pairsCount, shuffle1, shuffle2)
      ensures old(Valid()) ==> Valid()
    {
      if |pokemons| > 0 {
        var selected := Shuffle(pokemons, shuffle1)[..SliceEnd(|pokemons|, pairsCount)];
        var pokemonPairs := selected + selected;
        grid := Shuffle(pokemonPairs, shuffle2);
      }
    }

    method SetupDynamicGrid(shuffle1: seq<nat>, shuffle2: seq<nat>, storage: LocalStorage, pairsCount: int := 6)
      requires |pokemons| > 0 ==> ShufflesFit(|pokemons|, pairsCount, shuffle1, shuffle2)
      modifies this, storage
      ensures Current(storage) == MatchEngine.SetupDynamicGrid(old(Current(storage)), pairsCount, shuffle1, shuffle2)
      ensures old(Valid()) ==> Valid()
    {
      InitializeGrid(shuffle1, shuffle2, pairsCount);
      UpdateStats(storage);
    }

    method RevealPokemon(index: nat, storage: LocalStorage)
      modifies this, storage
      ensures Current(storage) == MatchEngine.Reveal(old(Current(storage)), index)
      ensures old(Valid()) ==> Valid()
      ensures |revealedCards| <= 2 || revealedCards == old(revealedCards)
    {
      // The third clause of the source's guard compares a boolean with the index
      // by `===` and is never true; it is left out.
      if |revealedCards| >= 2 || index in captured {
        return;
      }
      if index >= |grid| {
        // `this.grid[index]` is undefined: reading its sprite throws.
        return;
      }
      revealedCards := revealedCards + [index];
      if |revealedCards| == 2 {
        moves := moves + 1;
        CheckMatch(storage);
      }
    }

    method CheckMatch(storage: LocalStorage)
      requires |revealedCards| == 2
      modifies this, storage
      ensures Current(storage) == MatchEngine.CheckMatch(old(Current(storage)))
      ensures old(Valid()) ==> Valid()
    {
      var card1, card2 := revealedCards[0], revealedCards[1];
      assert revealedCards == [card1, card2];
      if card1 >= |grid| || card2 >= |grid| {
        // Reading the name of an undefined grid entry throws.
        return;
      }
      if grid[card1].name == grid[card2].name {
        captured := captured + [card1, card2];
        revealedCards := [];
      }
      // On a mismatch the flip-back is left to `FlipBack`.
      UpdateStats(storage);
      SaveGameState(storage);
    }

    /** The delayed callback that a mismatch schedules. */
    method FlipBack()
      modifies this
      ensures State() == old(State()).(revealed := [])
      ensures old(Valid()) ==> Valid()
    {
      revealedCards := [];
    }

    method RestartGame(storage: LocalStorage)
      modifies this, storage
      ensures Current(storage) == MatchEngine.RestartGame(old(Current(storage)))
      ensures Valid()
    {
      moves := 0;
      captured := [];
      revealedCards := [];
      UpdateStats(storage);
    }

    /** The win rule of `updateStats`; the rest of it only renders. */
    method UpdateStats(storage: LocalStorage)
      modifies this, storage
      ensures Current(storage) == MatchEngine.UpdateStats(old(Current(storage)))
      ensures old(Valid()) ==> Valid()
    {
      if |captured| == |grid| {
        if moves < highScore {
          highScore := moves;
          storage.SetScore(MatchEngine.HighScoreKey, highScore);
        }
      }
    }

    method SaveGameState(storage: LocalStorage)
      modifies storage
      ensures Current(storage) == MatchEngine.SaveGameState(old(Current(storage)))
    {
      var gameState := MatchEngine.SavedState(grid, captured, moves, highScore);
      storage.SetRecord(MatchEngine.GameStateKey, gameState);
    }

    method LoadGameState(storage: LocalStorage) returns (found: bool)
      modifies this, storage
      ensures (found, Current(storage)) == MatchEngine.LoadGameState(old(Current(storage)))
    {
      if MatchEngine.GameStateKey in storage.records {
        var saved := storage.records[MatchEngine.GameStateKey];
        grid := saved.grid;
        captured := saved.captured;
        moves := saved.moves;
        highScore := saved.highScore;
        UpdateStats(storage);
        return true;
      }
      return false;
    }
  }
}
