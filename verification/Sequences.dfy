/** Sequences without repetition. */
module Sequences {

  ghost predicate Distinct<T>(s: seq<T>) {
    forall i, j :: 0 <= i < j < |s| ==> s[i] != s[j]
  }

  ghost function UpTo(n: nat): (s: set<int>)
    ensures |s| == n && forall x :: x in s <==> 0 <= x < n
  {
    if n == 0 then {} else UpTo(n - 1) + {n - 1}
  }

  lemma {:induction false} DistinctBound(s: seq<int>, within: set<int>)
    requires Distinct(s) && forall k :: 0 <= k < |s| ==> s[k] in within
    ensures |s| <= |within|
    decreases |s|
  {
    if s != [] {
      var n := |s| - 1;
      DistinctBound(s[..n], within - {s[n]});
    }
  }

  /** Distinct numbers below n that miss one of them are fewer than n. */
  lemma DistinctMissing(s: seq<int>, n: nat, p: int)
    requires Distinct(s) && 0 <= p < n && forall k :: 0 <= k < |s| ==> 0 <= s[k] < n && s[k] != p
    ensures |s| < n
  {
    DistinctBound(s, UpTo(n) - {p});
  }

  /** s without its element k. */
  function Cut<T>(s: seq<T>, k: nat): (t: seq<T>)
    requires k < |s|
    ensures |t| == |s| - 1 && forall m :: 0 <= m < |t| ==> t[m] == s[if m < k then m else m + 1]
  {
    seq(|s| - 1, m requires 0 <= m < |s| - 1 => s[if m < k then m else m + 1])
  }

  /** s with x before its element k. */
  function InsertAt<T>(s: seq<T>, k: nat, x: T): (t: seq<T>)
    requires k <= |s|
    ensures |t| == |s| + 1 && t[k] == x
    ensures forall m :: 0 <= m < |t| && m != k ==> t[m] == s[if m < k then m else m - 1]
  {
    seq(|s| + 1, m requires 0 <= m <= |s| => if m < k then s[m] else if m == k then x else s[m - 1])
  }

  /** Where x first stands in s. */
  function Position<T(==)>(s: seq<T>, x: T): (k: nat)
    requires x in s
    ensures k < |s| && s[k] == x && x !in s[..k]
  {
    if s[0] == x then 0 else 1 + Position(s[1..], x)
  }

  /** The place after place i in a cycle of n. */
  function Next(n: nat, i: nat): (j: nat)
    requires i < n
    ensures j < n
  {
    if i + 1 < n then i + 1 else 0
  }

  /** How many steps around a cycle of n lead from i to f. */
  function Dist(n: nat, i: nat, f: nat): (d: nat)
    requires i < n && f < n
    ensures d < n && (d == 0 <==> i == f)
  {
    if i <= f then f - i else n - i + f
  }

  /** c is the first place of the least element of s, or 0 if none is below the bound. */
  predicate FirstLeast(s: seq<int>, bound: int, c: nat) {
    && c < |s|
    && if forall d :: 0 <= d < |s| ==> s[d] >= bound then c == 0
       else
         && s[c] < bound && (forall d :: 0 <= d < |s| ==> s[c] <= s[d])
         && forall d :: 0 <= d < c ==> s[c] < s[d]
  }

  /** Of any two below the bound it is the lesser, and of equals the earlier. */
  lemma FirstLeastWins(s: seq<int>, bound: int, c: nat, d: nat)
    requires FirstLeast(s, bound, c) && d < |s|
    ensures s[d] < bound ==> s[c] < s[d] || (s[c] == s[d] && c <= d)
    ensures c == 0 || s[c] < bound
  {
  }

  /** The search for it has seen the first n elements and holds c and its element, or the
      bound. */
  predicate LeastSoFar(s: seq<int>, bound: int, n: nat, c: nat, least: int) {
    && n <= |s| && c < |s| && least <= bound
    && (forall d :: 0 <= d < n ==> least <= s[d])
    && (if least == bound then c == 0 else c < n && least == s[c])
    && (least < bound ==> forall d :: 0 <= d < c ==> least < s[d])
  }
}
