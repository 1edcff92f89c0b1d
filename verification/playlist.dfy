/**
 * The circular playlist: the player's fixed list of tracks and the index
 * arithmetic behind "next" and "previous" (src/app/page.tsx:7-11, 88-96).
 * Both directions wrap around; there is no stop at either end.
 */
module Playlist {

  /** Number of tracks in the player's built-in list. */
  const TrackCount: nat := 3

  /** Index of the track after `i` in a list of `n` tracks: `(i + 1) % n`. */
  function Next(i: nat, n: nat): (j: nat)
    requires i < n
    ensures j < n
    ensures i == n - 1 ==> j == 0
    ensures i < n - 1 ==> j == i + 1
  {
    (i + 1) % n
  }

  /**
   * Index of the track before `i`: `(i - 1 + n) % n`. The dividend is never
   * negative, so JavaScript's truncating `%` and Dafny's Euclidean `%` agree.
   */
  function Previous(i: nat, n: nat): (j: nat)
    requires i < n
    ensures j < n
    ensures i == 0 ==> j == n - 1
    ensures 0 < i ==> j == i - 1
  {
    (i - 1 + n) % n
  }

  /** Going back after going forward returns to the same track. */
  lemma PreviousAfterNext(i: nat, n: nat)
    requires i < n
    ensures Previous(Next(i, n), n) == i
  {
  }

  /** Going forward after going back returns to the same track. */
  lemma NextAfterPrevious(i: nat, n: nat)
    requires i < n
    ensures Next(Previous(i, n), n) == i
  {
  }

  /** The index reached from `i` by `k` successive steps forward. */
  function Advance(i: nat, k: nat, n: nat): (j: nat)
    requires i < n
    ensures j < n
    decreases k
  {
    if k == 0 then i else Next(Advance(i, k - 1, n), n)
  }

  /** `a % n` is the unique `r` in [0, n) with `a == n * q + r`. */
  lemma ModOfDecomposition(a: int, n: int, q: int, r: int)
    requires 0 <= r < n
    requires a == n * q + r
    ensures a % n == r
  {
    var q', r' := a / n, a % n;
    assert n * (q - q') == r' - r;
    if q' < q {
      MulAtLeast(n, q - q');
    } else if q' > q {
      MulAtLeast(n, q' - q);
    }
  }

  lemma MulAtLeast(n: int, d: int)
    requires 0 < n && 1 <= d
    ensures n * d >= n
  {
  }

  /** Stepping forward after reducing modulo `n` is the same as reducing afterwards. */
  lemma NextOfMod(a: nat, n: nat)
    requires 0 < n
    ensures Next(a % n, n) == (a + 1) % n
  {
    var q, r := a / n, a % n;
    if r + 1 < n {
      ModOfDecomposition(a + 1, n, q, r + 1);
    } else {
      ModOfDecomposition(a + 1, n, q + 1, 0);
    }
  }

  /** `k` steps forward from `i` land on `(i + k) % n`. */
  lemma {:induction false} AdvanceIsModular(i: nat, k: nat, n: nat)
    requires i < n
    ensures Advance(i, k, n) == (i + k) % n
    decreases k
  {
    if k == 0 {
      ModOfDecomposition(i, n, 0, i);
    } else {
      AdvanceIsModular(i, k - 1, n);
      NextOfMod(i + k - 1, n);
    }
  }

  /** Stepping forward `n` times through a list of `n` tracks returns to the start. */
  lemma {:induction false} AdvanceFullCycle(i: nat, n: nat)
    requires i < n
    ensures Advance(i, n, n) == i
  {
    AdvanceIsModular(i, n, n);
    ModOfDecomposition(i + n, n, 1, i);
  }
}
