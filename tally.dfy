/** Counting helpers shared by the scooter and the truck simulations. */
module Tally {

  /** Sum of a list of integer counters. */
  function Sum(s: seq<int>): int {
    if s == [] then 0 else Sum(s[..|s| - 1]) + s[|s| - 1]
  }

  /** Number of empty routes in a list of routes (a `None` or exhausted deque). */
  function CountEmpty<T>(s: seq<seq<T>>): (n: nat)
    ensures n <= |s|
  {
    if s == [] then 0 else CountEmpty(s[..|s| - 1]) + (if s[|s| - 1] == [] then 1 else 0)
  }

  function Min(a: int, b: int): (m: int)
    ensures m <= a && m <= b && (m == a || m == b)
  {
    if a < b then a else b
  }

  /** Overwriting one counter changes the total by the difference. */
  lemma {:induction false} SumUpdate(s: seq<int>, j: nat, v: int)
    requires j < |s|
    ensures Sum(s[j := v]) == Sum(s) - s[j] + v
  {
    var n := |s| - 1;
    if j == n {
      assert s[j := v][..n] == s[..n];
    } else {
      assert s[j := v][..n] == s[..n][j := v];
      SumUpdate(s[..n], j, v);
    }
  }

  /** One more element at the end adds its own count. */
  lemma CountEmptySnoc<T>(s: seq<seq<T>>, i: nat)
    requires i < |s|
    ensures CountEmpty(s[..i + 1]) == CountEmpty(s[..i]) + (if s[i] == [] then 1 else 0)
  {
    assert s[..i + 1][..i] == s[..i];
  }
}
