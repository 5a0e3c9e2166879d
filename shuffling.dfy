/**
 * The shuffle that game.js imports as `shuffleArray` lives in utils.js, which is
 * not part of this model. Its randomness cannot be stated, so a shuffle is
 * described here by the permutation of positions it applies: any permutation
 * the random source may produce is admitted.
 */
module Shuffling {

  /** `p` lists each of the positions 0 .. n-1 exactly once. */
  predicate IsPermutation(p: seq<nat>, n: nat) {
    && |p| == n
    && (forall i | 0 <= i < n :: p[i] < n)
    && (forall i, j | 0 <= i < j < n :: p[i] != p[j])
  }

  /** Position `i` of the shuffled sequence holds what stood at position `p[i]`. */
  function Shuffle<T>(s: seq<T>, p: seq<nat>): (r: seq<T>)
    requires IsPermutation(p, |s|)
    ensures |r| == |s|
    ensures forall i | 0 <= i < |s| :: r[i] == s[p[i]]
  {
    seq(|s|, i requires 0 <= i < |s| => s[p[i]])
  }

  /** No value occurs twice. */
  predicate NoDuplicates<T(==)>(s: seq<T>) {
    forall i, j | 0 <= i < j < |s| :: s[i] != s[j]
  }

  /** `p` without its last entry, renumbered for a sequence that lacks position `m`. */
  function Renumber(p: seq<nat>, m: nat): (q: seq<nat>)
    requires |p| > 0
    ensures |q| == |p| - 1
  {
    seq(|p| - 1, i requires 0 <= i < |p| - 1 => if p[i] <= m then p[i] else p[i] - 1)
  }

  /**
   * Shuffling by `p` and dropping the last element is the same as shuffling,
   * by the renumbered permutation, the sequence without the element that went last.
   */
  lemma DropLast<T>(s: seq<T>, p: seq<nat>)
    requires |s| > 0 && IsPermutation(p, |s|)
    ensures var m := p[|s| - 1];
      && IsPermutation(Renumber(p, m), |s| - 1)
      && Shuffle(s[..m] + s[m + 1..], Renumber(p, m)) == Shuffle(s, p)[..|s| - 1]
  {
    var n := |s|;
    var m := p[n - 1];
    var s' := s[..m] + s[m + 1..];
    var p' := Renumber(p, m);
    forall i | 0 <= i < n - 1
      ensures p[i] != m
    {
      assert p[i] != p[n - 1];
    }
    forall i, j | 0 <= i < j < n - 1
      ensures p'[i] != p'[j]
    {
      assert p[i] != p[j];
    }
    assert IsPermutation(p', n - 1);
    var r := Shuffle(s, p);
    forall i | 0 <= i < n - 1
      ensures Shuffle(s', p')[i] == r[i]
    {
      if p[i] < m {
        assert s'[p[i]] == s[p[i]];
      } else {
        assert s'[p[i] - 1] == s[p[i]];
      }
    }
  }

  /** A shuffle neither loses nor duplicates an element. */
  lemma {:induction false} ShufflePreservesMultiset<T>(s: seq<T>, p: seq<nat>)
    requires IsPermutation(p, |s|)
    ensures multiset(Shuffle(s, p)) == multiset(s)
  {
    if |s| > 0 {
      var n := |s|;
      var m := p[n - 1];
      var s' := s[..m] + s[m + 1..];
      var r := Shuffle(s, p);
      var front := r[..n - 1];
      assert multiset(front) == multiset(s') by {
        DropLast(s, p);
        ShufflePreservesMultiset(s', Renumber(p, m));
      }
      assert multiset(r) == multiset(front) + multiset([s[m]]) by {
        assert r == front + [s[m]];
      }
      assert multiset(s) == multiset(s') + multiset([s[m]]) by {
        assert s == s[..m] + [s[m]] + s[m + 1..];
      }
    }
  }

  /** Shuffling a sequence without duplicates yields one without duplicates. */
  lemma ShuffleKeepsNoDuplicates<T>(s: seq<T>, p: seq<nat>)
    requires IsPermutation(p, |s|)
    requires NoDuplicates(s)
    ensures NoDuplicates(Shuffle(s, p))
  {
    var r := Shuffle(s, p);
    forall i, j | 0 <= i < j < |r|
      ensures r[i] != r[j]
    {
      assert p[i] != p[j];
      if p[i] < p[j] {
        assert s[p[i]] != s[p[j]];
      } else {
        assert s[p[j]] != s[p[i]];
      }
    }
  }

  /** In a sequence without duplicates every value occurs at most once. */
  lemma {:induction false} NoDuplicatesCount<T>(s: seq<T>, x: T)
    requires NoDuplicates(s)
    ensures multiset(s)[x] == if x in s then 1 else 0
  {
    if |s| > 0 {
      assert s == [s[0]] + s[1..];
      assert NoDuplicates(s[1..]) by {
        forall i, j | 0 <= i < j < |s| - 1
          ensures s[1..][i] != s[1..][j]
        {
          assert s[i + 1] != s[j + 1];
        }
      }
      NoDuplicatesCount(s[1..], x);
      if x == s[0] {
        assert x !in s[1..] by {
          forall k | 0 <= k < |s| - 1
            ensures s[1..][k] != x
          {
            assert s[0] != s[k + 1];
          }
        }
      }
    }
  }
}
