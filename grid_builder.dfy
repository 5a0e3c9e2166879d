/**
 * Grid construction of `Game.initializeGrid` (game.js): shuffle the catalog, keep
 * a prefix of `pairsCount` entries, put that prefix twice in a row and shuffle
 * the result again.
 */
module GridBuilder {
  import opened Shuffling

  /**
   * Number of elements that JavaScript's `array.slice(0, end)` keeps out of `n`:
   * a non-negative `end` is clamped to `n`, a negative one counts back from the end.
   */
  function SliceEnd(n: nat, end: int): (k: nat)
    ensures k <= n
  {
    if end >= 0 then (if end <= n then end else n)
    else if n + end >= 0 then n + end
    else 0
  }

  /** The two shuffles handed to `BuildGrid` are permutations of the right sizes. */
  predicate ShufflesFit(n: nat, pairsCount: int, shuffle1: seq<nat>, shuffle2: seq<nat>) {
    IsPermutation(shuffle1, n) && IsPermutation(shuffle2, 2 * SliceEnd(n, pairsCount))
  }

  /** The creatures drawn for the grid: a prefix of the shuffled catalog. */
  function Selected<T>(catalog: seq<T>, pairsCount: int, shuffle1: seq<nat>): (sel: seq<T>)
    requires IsPermutation(shuffle1, |catalog|)
  {
    Shuffle(catalog, shuffle1)[..SliceEnd(|catalog|, pairsCount)]
  }

  /** The shuffled grid built from the drawn creatures, each put in twice. */
  function BuildGrid<T>(catalog: seq<T>, pairsCount: int, shuffle1: seq<nat>, shuffle2: seq<nat>): (grid: seq<T>)
    requires ShufflesFit(|catalog|, pairsCount, shuffle1, shuffle2)
    ensures |grid| == 2 * SliceEnd(|catalog|, pairsCount)
    ensures multiset(grid) == multiset(Selected(catalog, pairsCount, shuffle1)) + multiset(Selected(catalog, pairsCount, shuffle1))
  {
    var selected := Selected(catalog, pairsCount, shuffle1);
    ShufflePreservesMultiset(selected + selected, shuffle2);
    Shuffle(selected + selected, shuffle2)
  }

  /**
   * The grid has 2 * min(pairsCount, |catalog|) cards for a non-negative pair
   * count; only catalog entries appear on it; and when the catalog holds no
   * creature twice, every drawn creature lies on exactly two cards and every
   * other one on none.
   */
  lemma {:induction false} BuildGridPairs<T>(catalog: seq<T>, pairsCount: int, shuffle1: seq<nat>, shuffle2: seq<nat>)
    requires ShufflesFit(|catalog|, pairsCount, shuffle1, shuffle2)
    ensures pairsCount >= 0 ==>
      |BuildGrid(catalog, pairsCount, shuffle1, shuffle2)| == 2 * (if pairsCount < |catalog| then pairsCount else |catalog|)
    ensures multiset(Selected(catalog, pairsCount, shuffle1)) <= multiset(catalog)
    ensures forall c | c in BuildGrid(catalog, pairsCount, shuffle1, shuffle2) :: c in catalog
    ensures NoDuplicates(catalog) ==>
      forall c :: multiset(BuildGrid(catalog, pairsCount, shuffle1, shuffle2))[c]
                  == if c in Selected(catalog, pairsCount, shuffle1) then 2 else 0
  {
    var shuffled := Shuffle(catalog, shuffle1);
    var k := SliceEnd(|catalog|, pairsCount);
    var selected := Selected(catalog, pairsCount, shuffle1);
    var grid := BuildGrid(catalog, pairsCount, shuffle1, shuffle2);
    ShufflePreservesMultiset(catalog, shuffle1);
    assert shuffled == selected + shuffled[k..];
    assert multiset(selected) <= multiset(catalog);
    forall c | c in grid
      ensures c in catalog
    {
      assert c in multiset(grid);
      assert c in multiset(selected);
      assert c in multiset(catalog);
    }
    if NoDuplicates(catalog) {
      ShuffleKeepsNoDuplicates(catalog, shuffle1);
      assert NoDuplicates(selected);
      forall c
        ensures multiset(grid)[c] == if c in selected then 2 else 0
      {
        NoDuplicatesCount(selected, c);
      }
    }
  }
}
