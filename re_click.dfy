/**
 * The re-click guard of `revealPokemon`. As written (`MatchEngine.Guarded`) a
 * second click on the single face-up card is admitted as the second card of the
 * pair: the card matches itself and is captured twice, and since a win is
 * detected by counting captured cards, a game can be won with cards never found.
 * `RevealGuarded` is the guard as evidently intended, and a win under it means
 * every card has been captured.
 */
module ReClick {
  import opened Shuffling
  import opened MatchEngine

  const Pikachu := Creature("pikachu", "pikachu.png")
  const Evoli := Creature("evoli", "evoli.png")

  /** A fresh session on the grid [Pikachu, Evoli, Pikachu, Evoli]. */
  function TwoPairs(): (w: World)
    ensures |w.game.grid| == 4 && w.game.captured == [] && w.game.revealed == []
  {
    World(Session([], [Pikachu, Evoli, Pikachu, Evoli], [], [], 0, NoHighScore), Store(map[], map[]))
  }

  /**
   * Under the guard as written, clicking a free card twice with nothing face-up
   * captures it twice, in one move: the card matches itself.
   */
  lemma DoubleClickCapturesTwice(w: World, index: nat)
    requires w.game.revealed == [] && index !in w.game.captured && index < |w.game.grid|
    ensures var r := Reveal(Reveal(w, index), index).game;
      && r.captured == w.game.captured + [index, index]
      && r.revealed == []
      && r.moves == w.game.moves + 1
  {
    ClickFirstCard(w, index);
    ClickMatchingCard(Reveal(w, index), index);
  }

  /**
   * So on a four-card grid, after card 0 has been captured twice that way,
   * clicking card 1 twice wins the game and records the move count as the best
   * score, although cards 2 and 3 were never turned over.
   */
  lemma DoubleClickFakesWin(w: World)
    requires |w.game.grid| == 4 && w.game.captured == [0, 0] && w.game.revealed == []
    requires w.game.moves + 1 < w.game.highScore
    ensures var r := Reveal(Reveal(w, 1), 1).game;
      && r.captured == [0, 0, 1, 1]
      && Won(r)
      && 2 !in r.captured && 3 !in r.captured
      && r.highScore == w.game.moves + 1
  {
    assert 1 !in w.game.captured;
    ClickFirstCard(w, 1);
    ClickMatchingCard(Reveal(w, 1), 1);
  }

  /** The evidently intended guard: a card that is already face-up is ignored too. */
  predicate GuardedFixed(s: Session, index: nat) {
    Guarded(s, index) || index in s.revealed
  }

  /** No card is both captured and face-up, and none is in either list twice. */
  predicate Distinct(s: Session) {
    NoDuplicates(s.captured + s.revealed)
  }

  /** `revealPokemon` with the intended guard. */
  function RevealGuarded(w: World, index: nat): (r: World)
    ensures GuardedFixed(w.game, index) || index >= |w.game.grid| ==> r == w
    ensures |w.game.revealed| == 1 && w.game.revealed[0] == index ==> r == w
    ensures !GuardedFixed(w.game, index) && index < |w.game.grid| ==> r == Admit(w, index)
    ensures Distinct(w.game) ==> Distinct(r.game)
    ensures Invariant(w.game) ==> Invariant(r.game)
    ensures InRange(w.game) ==> InRange(r.game)
  {
    if GuardedFixed(w.game, index) || index >= |w.game.grid| then w
    else
      var r := Admit(w, index);
      assert Distinct(w.game) ==> Distinct(r.game) by {
        if Distinct(w.game) {
          AdmitKeepsDistinct(w, index);
        }
      }
      r
  }

  lemma AppendFresh(a: seq<nat>, x: nat)
    requires NoDuplicates(a) && x !in a
    ensures NoDuplicates(a + [x])
  {
    var b := a + [x];
    forall i, j | 0 <= i < j < |b|
      ensures b[i] != b[j]
    {
      if j == |a| {
        assert b[i] == a[i];
      }
    }
  }

  /** Admitting a card that is neither captured nor face-up keeps `Distinct`. */
  lemma AdmitKeepsDistinct(w: World, index: nat)
    requires |w.game.revealed| < 2 && index < |w.game.grid|
    requires index !in w.game.captured && index !in w.game.revealed
    requires Distinct(w.game)
    ensures Distinct(Admit(w, index).game)
  {
    var s := w.game.(revealed := w.game.revealed + [index]);
    assert s.captured + s.revealed == (w.game.captured + w.game.revealed) + [index];
    AppendFresh(w.game.captured + w.game.revealed, index);
    if |s.revealed| == 2 {
      var m := World(s.(moves := s.moves + 1), w.store);
      var r := CheckMatch(m);
      if PairInGrid(m.game) && PairMatches(m.game) {
        assert r.game.captured + r.game.revealed == s.captured + s.revealed;
      }
    }
  }

  /** Flip-back and restart keep `Distinct` as well. */
  lemma FlipBackAndRestartKeepDistinct(w: World)
    requires Distinct(w.game)
    ensures Distinct(FlipBack(w).game)
    ensures Distinct(RestartGame(w).game)
  {
    var c := w.game.captured;
    assert FlipBack(w).game.captured + FlipBack(w).game.revealed == (c + w.game.revealed)[..|c|];
  }

  /** The card positions 0 .. n-1. */
  function Below(n: nat): (r: set<nat>)
    ensures forall k: nat :: k in r <==> k < n
    ensures |r| == n
  {
    if n == 0 then {} else Below(n - 1) + {n - 1}
  }

  /** A sequence without duplicates drawn from `bound` is no longer than `bound` is large. */
  lemma {:induction false} Pigeonhole(s: seq<nat>, bound: set<nat>)
    requires NoDuplicates(s)
    requires forall i | 0 <= i < |s| :: s[i] in bound
    ensures |s| <= |bound|
  {
    if |s| > 0 {
      var rest := s[1..];
      forall i | 0 <= i < |rest|
        ensures rest[i] in bound - {s[0]}
      {
        assert s[0] != s[i + 1];
      }
      assert NoDuplicates(rest) by {
        forall i, j | 0 <= i < j < |rest|
          ensures rest[i] != rest[j]
        {
          assert s[i + 1] != s[j + 1];
        }
      }
      Pigeonhole(rest, bound - {s[0]});
    }
  }

  /**
   * n distinct cards of a grid of n cards are all its cards: under the intended
   * guard a won game has captured every card.
   */
  lemma DistinctWinCapturesAll(s: Session)
    requires Distinct(s) && InRange(s) && Won(s)
    ensures forall k | 0 <= k < |s.grid| :: k in s.captured
  {
    var c := s.captured;
    assert NoDuplicates(c) by {
      forall i, j | 0 <= i < j < |c|
        ensures c[i] != c[j]
      {
        assert (c + s.revealed)[i] != (c + s.revealed)[j];
      }
    }
    var n := |s.grid|;
    forall k | 0 <= k < n
      ensures k in c
    {
      if k !in c {
        forall i | 0 <= i < |c|
          ensures c[i] in Below(n) - {k}
        {
        }
        Pigeonhole(c, Below(n) - {k});
        assert false;
      }
    }
  }
}
