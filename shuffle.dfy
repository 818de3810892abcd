/**
 * `random.shuffle` as CPython implements it: for `i` from `len(x) - 1` down
 * to 1 it draws `j = randbelow(i + 1)` and swaps `x[i]` with `x[j]`. The
 * random draws are an input: `draws[i]` is the `j` drawn at step `i`.
 */
module Shuffle {

  /** The draws a random source can make for a list of length `n`. */
  predicate FitsShuffle(draws: seq<nat>, n: nat) {
    |draws| == n && forall i :: 0 <= i < n ==> draws[i] <= i
  }

  function Swap<T>(s: seq<T>, i: nat, j: nat): (r: seq<T>)
    requires i < |s| && j < |s|
    ensures |r| == |s| && multiset(r) == multiset(s)
  {
    s[i := s[j]][j := s[i]]
  }

  /** The steps `k - 1`, `k - 2`, ..., 1 of the shuffle applied to `s`. */
  function Steps<T>(s: seq<T>, draws: seq<nat>, k: nat): (r: seq<T>)
    requires k <= |s| && FitsShuffle(draws, |s|)
    ensures |r| == |s| && multiset(r) == multiset(s)
    decreases k
  {
    if k <= 1 then s else Steps(Swap(s, k - 1, draws[k - 1]), draws, k - 1)
  }

  /** The order `random.shuffle` leaves `s` in, given its draws. */
  function Shuffled<T>(s: seq<T>, draws: seq<nat>): (r: seq<T>)
    requires FitsShuffle(draws, |s|)
    ensures |r| == |s| && multiset(r) == multiset(s)
  {
    Steps(s, draws, |s|)
  }

  /** `random.shuffle(a)`, in place. */
  method ShuffleInPlace<T>(a: array<T>, draws: seq<nat>)
    requires FitsShuffle(draws, a.Length)
    modifies a
    ensures a[..] == Shuffled(old(a[..]), draws)
  {
    var k: nat := a.Length;
    while k > 1
      invariant k <= a.Length
      invariant Steps(a[..], draws, k) == Shuffled(old(a[..]), draws)
    {
      var i := k - 1;
      var j := draws[i];
      ghost var before := a[..];
      a[i], a[j] := a[j], a[i];
      assert a[..] == Swap(before, i, j);
      k := i;
    }
  }

  /** `x = list(s); random.shuffle(x)`: a fresh list holding `s`, shuffled. */
  method ShuffleCopy<T>(s: seq<T>, draws: seq<nat>) returns (r: seq<T>)
    requires FitsShuffle(draws, |s|)
    ensures r == Shuffled(s, draws)
  {
    var a := new T[|s|](i requires 0 <= i < |s| => s[i]);
    assert a[..] == s;
    ShuffleInPlace(a, draws);
    r := a[..];
  }
}
