/**
 * The sequence operations the engine performs on its `Vec<Card>` piles:
 * a shuffle (its random choices made an input), popping from the end,
 * and `swap_remove`.
 */
module Shuffling {

  /** Exchanging two elements keeps the same elements. */
  lemma SwapMultiset<T>(s: seq<T>, i: nat, j: nat)
    requires i < |s| && j < |s|
    ensures multiset(s[i := s[j]][j := s[i]]) == multiset(s)
  {
    assert multiset(s[i := s[j]]) == multiset(s) - multiset{s[i]} + multiset{s[j]};
  }

  /**
   * The first `n` positions of `s` after the Fisher-Yates passes for `n - 1` down to
   * 1: the pass for `i` exchanges position `i` with the position `order[i]` at or
   * below it (a missing or out-of-range choice keeps the element in place).
   */
  function ShuffleBelow<T>(s: seq<T>, order: seq<int>, n: nat): (r: seq<T>)
    requires n <= |s|
    ensures |r| == |s|
    decreases n
  {
    if n <= 1 then s
    else
      var i := n - 1;
      var j := if i < |order| && 0 <= order[i] <= i then order[i] else i;
      ShuffleBelow(s[i := s[j]][j := s[i]], order, i)
  }

  /**
   * The shuffle of the source's random generator, a Fisher-Yates shuffle with the
   * generator's choices made an input. Every result is a rearrangement of `s`.
   */
  function Shuffle<T>(s: seq<T>, order: seq<int>): (r: seq<T>)
    ensures |r| == |s| && multiset(r) == multiset(s)
  {
    ShuffleBelowMultiset(s, order, |s|);
    ShuffleBelow(s, order, |s|)
  }

  lemma {:induction false} ShuffleBelowMultiset<T>(s: seq<T>, order: seq<int>, n: nat)
    requires n <= |s|
    ensures multiset(ShuffleBelow(s, order, n)) == multiset(s)
    decreases n
  {
    if n > 1 {
      var i := n - 1;
      var j := if i < |order| && 0 <= order[i] <= i then order[i] else i;
      SwapMultiset(s, i, j);
      ShuffleBelowMultiset(s[i := s[j]][j := s[i]], order, i);
    }
  }

  /** The first `n` elements popped from the end of `s`, in the order they come off. */
  function Popped<T>(s: seq<T>, n: nat): (r: seq<T>)
    requires n <= |s|
    ensures |r| == n
    ensures forall k :: 0 <= k < n ==> r[k] == s[|s| - 1 - k]
  {
    seq(n, k requires 0 <= k < n => s[|s| - 1 - k])
  }

  /** Popping `n` elements takes exactly the last `n` elements of `s`. */
  lemma {:induction false} PoppedMultiset<T>(s: seq<T>, n: nat)
    requires n <= |s|
    ensures multiset(Popped(s, n)) == multiset(s[|s| - n..])
  {
    if n > 0 {
      PoppedMultiset(s, n - 1);
      assert Popped(s, n) == Popped(s, n - 1) + [s[|s| - n]];
      assert s[|s| - n..] == [s[|s| - n]] + s[|s| - (n - 1)..];
    }
  }

  /** One more pop appends the element just below the popped suffix. */
  lemma PoppedStep<T>(s: seq<T>, n: nat)
    requires n < |s|
    ensures Popped(s, n + 1) == Popped(s, n) + [s[|s| - 1 - n]]
  {
  }

  /**
   * `Vec::swap_remove`: removes the element at `i` and moves the last element into
   * its place.
   */
  function SwapRemove<T>(s: seq<T>, i: nat): (r: seq<T>)
    requires i < |s|
    ensures |r| == |s| - 1
    ensures multiset(r) + multiset{s[i]} == multiset(s)
    ensures forall k :: 0 <= k < |r| && k != i ==> r[k] == s[k]
    ensures i < |r| ==> r[i] == s[|s| - 1]
  {
    var last := |s| - 1;
    if i == last then
      assert s == s[..last] + [s[last]];
      s[..last]
    else
      assert s == s[..i] + [s[i]] + s[i + 1..last] + [s[last]];
      s[..i] + [s[last]] + s[i + 1..last]
  }
}
