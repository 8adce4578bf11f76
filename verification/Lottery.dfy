/** The arithmetic of a lottery draw: ticket walk and shuffle, on values. */
module Lottery {
  import opened Common
  import opened Sequences

  /** A process holds at least one ticket. */
  function Effective(tickets: int): (e: nat)
    ensures e >= 1
  {
    if tickets < 1 then 1 else tickets
  }

  function Total(s: seq<int>, tickets: int -> int): (t: nat)
  {
    if s == [] then 0 else Effective(tickets(s[0])) + Total(s[1..], tickets)
  }

  /** The process whose ticket interval contains the winning number. */
  function Walk(s: seq<int>, tickets: int -> int, winner: int): (p: int)
  {
    if s == [] then NULL
    else if winner < Effective(tickets(s[0])) then s[0]
    else Walk(s[1..], tickets, winner - Effective(tickets(s[0])))
  }

  /** How many winning numbers in [0, n) select p. */
  function Wins(s: seq<int>, tickets: int -> int, n: nat, p: int): (w: nat)
  {
    if n == 0 then 0
    else Wins(s, tickets, n - 1, p) + if Walk(s, tickets, n - 1) == p then 1 else 0
  }

  /** A winning number below the total selects someone, one at or above it no one. */
  lemma {:induction false} WalkFinds(s: seq<int>, tickets: int -> int, winner: int)
    requires NULL !in s
    requires 0 <= winner
    ensures Walk(s, tickets, winner) in s <==> winner < Total(s, tickets)
    ensures Walk(s, tickets, winner) == NULL <==> winner >= Total(s, tickets)
  {
    if s != [] && winner >= Effective(tickets(s[0])) {
      WalkFinds(s[1..], tickets, winner - Effective(tickets(s[0])));
    }
  }

  /** Wins split at the end of the first process's interval. */
  lemma {:induction false} WinsSplit(s: seq<int>, tickets: int -> int, n: nat, p: int)
    requires s != []
    ensures var e := Effective(tickets(s[0]));
            Wins(s, tickets, n, p) ==
              (if s[0] == p then (if n < e then n else e) else 0)
              + (if n < e then 0 else Wins(s[1..], tickets, n - e, p))
  {
    if n > 0 {
      WinsSplit(s, tickets, n - 1, p);
    }
  }

  /** The lottery is exactly proportional: in any arrangement s of distinct processes, of
      the Total winning numbers as many select p as it has tickets, or one if it has none. */
  lemma {:induction false} ExactlyProportional(s: seq<int>, tickets: int -> int, p: int)
    requires Distinct(s) && NULL !in s
    ensures p in s ==> Wins(s, tickets, Total(s, tickets), p) == if tickets(p) > 1 then tickets(p) else 1
    ensures p !in s && p != NULL ==> Wins(s, tickets, Total(s, tickets), p) == 0
  {
    if s != [] {
      ExactlyProportional(s[1..], tickets, p);
      WinsSplit(s, tickets, Total(s, tickets), p);
      assert p in s <==> p == s[0] || p in s[1..];
      assert p == s[0] ==> p !in s[1..];
    }
  }

  lemma {:induction false} TotalPositive(s: seq<int>, tickets: int -> int)
    ensures Total(s, tickets) >= |s|
  {
    if s != [] {
      TotalPositive(s[1..], tickets);
    }
  }

  lemma {:induction false} TotalSnoc(s: seq<int>, p: int, tickets: int -> int)
    ensures Total(s + [p], tickets) == Total(s, tickets) + Effective(tickets(p))
  {
    if s == [] {
      assert s + [p] == [p];
    } else {
      assert (s + [p])[1..] == s[1..] + [p];
      TotalSnoc(s[1..], p, tickets);
    }
  }

  lemma CutParts<T>(t: seq<T>, k: nat)
    requires k < |t|
    ensures Cut(t, k) == t[..k] + t[k + 1..] && t == t[..k] + [t[k]] + t[k + 1..]
  {
  }

  lemma RemoveAt<T>(t: seq<T>, k: nat)
    requires k < |t|
    ensures multiset(Cut(t, k)) == multiset(t) - multiset{t[k]}
  {
    CutParts(t, k);
    assert multiset(t) == multiset(t[..k] + [t[k]] + t[k + 1..]);
  }

  lemma TotalRemove(t: seq<int>, k: nat, tickets: int -> int)
    requires k < |t|
    ensures Total(t, tickets) == Effective(tickets(t[k])) + Total(Cut(t, k), tickets)
  {
    TotalMiddle(t[..k], t[k], t[k + 1..], tickets);
    CutParts(t, k);
  }

  lemma Find<T>(s: seq<T>, t: seq<T>, x: T) returns (k: nat)
    requires multiset(s) == multiset(t) && x in s
    ensures k < |t| && t[k] == x
  {
    assert x in multiset(s);
    k :| k < |t| && t[k] == x;
  }

  lemma SameSize<T>(s: seq<T>, t: seq<T>)
    requires multiset(s) == multiset(t)
    ensures |s| == |t| && (|s| <= 1 ==> s == t)
  {
    assert |s| == |multiset(s)| == |multiset(t)| == |t|;
    if |s| == 1 {
      assert s[0] in multiset(t);
    }
  }

  /** The total does not depend on the order. */
  lemma {:induction false} TotalPermutes(s: seq<int>, t: seq<int>, tickets: int -> int)
    requires multiset(s) == multiset(t)
    ensures Total(s, tickets) == Total(t, tickets)
    decreases |s|
  {
    SameSize(s, t);
    if |s| > 1 {
      var k := Find(s, t, s[0]);
      RemoveAt(s, 0);
      RemoveAt(t, k);
      TotalPermutes(Cut(s, 0), Cut(t, k), tickets);
      TotalRemove(s, 0, tickets);
      TotalRemove(t, k, tickets);
    }
  }

  lemma InBoth(s: seq<int>, t: seq<int>)
    requires multiset(s) == multiset(t)
    ensures |s| == |t| && forall q :: q in s <==> q in t
  {
    assert |multiset(s)| == |s| && |multiset(t)| == |t|;
    forall q ensures q in s <==> q in t {
      assert q in s <==> q in multiset(s);
      assert q in t <==> q in multiset(t);
    }
  }

  lemma {:induction false} TotalMiddle(a: seq<int>, p: int, b: seq<int>, tickets: int -> int)
    ensures Total(a + [p] + b, tickets) == Effective(tickets(p)) + Total(a + b, tickets)
  {
    if a == [] {
      assert a + [p] + b == [p] + b;
      assert a + b == b;
    } else {
      assert (a + [p] + b)[1..] == a[1..] + [p] + b;
      assert (a + b)[1..] == a[1..] + b;
      TotalMiddle(a[1..], p, b, tickets);
    }
  }

  // ---- the shuffle ----

  function Swap<T>(s: seq<T>, i: nat, j: nat): (t: seq<T>)
    requires i < |s| && j < |s|
    ensures |t| == |s|
  {
    s[i := s[j]][j := s[i]]
  }

  /** Index choices for shuffling n elements: the first is for the last slot. */
  ghost predicate Choices(js: seq<nat>, n: nat) {
    |js| == (if n == 0 then 0 else n - 1) && forall k :: 0 <= k < |js| ==> js[k] < n - k
  }

  /** Fisher-Yates: swap the last slot with the chosen one, then shuffle what is before it. */
  ghost function Shuffle<T>(s: seq<T>, js: seq<nat>): (t: seq<T>)
    requires Choices(js, |s|)
    ensures |t| == |s|
    decreases |s|
  {
    if |s| <= 1 then s
    else
      var u := Swap(s, |s| - 1, js[0]);
      Shuffle(u[..|s| - 1], js[1..]) + [u[|s| - 1]]
  }

  lemma SwapPermutes<T>(s: seq<T>, i: nat, j: nat)
    requires i < |s| && j < |s|
    ensures multiset(Swap(s, i, j)) == multiset(s)
  {
  }

  lemma {:induction false} ShufflePermutes<T>(s: seq<T>, js: seq<nat>)
    requires Choices(js, |s|)
    ensures multiset(Shuffle(s, js)) == multiset(s)
    decreases |s|
  {
    if |s| > 1 {
      var u := Swap(s, |s| - 1, js[0]);
      SwapPermutes(s, |s| - 1, js[0]);
      ShufflePermutes(u[..|s| - 1], js[1..]);
      assert u == u[..|s| - 1] + [u[|s| - 1]];
    }
  }

  /** Different choices give different arrangements ... */
  lemma {:induction false} ShuffleInjective<T>(s: seq<T>, js: seq<nat>, ks: seq<nat>)
    requires Choices(js, |s|) && Choices(ks, |s|) && Distinct(s)
    requires Shuffle(s, js) == Shuffle(s, ks)
    ensures js == ks
    decreases |s|
  {
    if |s| > 1 {
      var n := |s| - 1;
      var u, v := Swap(s, n, js[0]), Swap(s, n, ks[0]);
      assert Shuffle(s, js)[n] == u[n] == s[js[0]];
      assert Shuffle(s, ks)[n] == v[n] == s[ks[0]];
      assert js[0] == ks[0];
      assert Shuffle(u[..n], js[1..]) == Shuffle(s, js)[..n];
      assert Shuffle(v[..n], ks[1..]) == Shuffle(s, ks)[..n];
      ShuffleInjective(u[..n], js[1..], ks[1..]);
      assert js == [js[0]] + js[1..] && ks == [ks[0]] + ks[1..];
    }
  }

  lemma LastOfSwap<T>(s: seq<T>, j: nat)
    requires j < |s|
    ensures var n := |s| - 1;
            var u := Swap(s, n, j);
            u[n] == s[j] && multiset(u[..n]) == multiset(s) - multiset{s[j]}
  {
    var n := |s| - 1;
    var u := Swap(s, n, j);
    SwapPermutes(s, n, j);
    RemoveAt(u, n);
    assert Cut(u, n) == u[..n];
  }

  lemma ShuffleStep<T>(s: seq<T>, j: nat, rest: seq<nat>)
    requires |s| > 1 && j < |s| && Choices(rest, |s| - 1)
    ensures Choices([j] + rest, |s|)
    ensures Shuffle(s, [j] + rest) == Shuffle(Swap(s, |s| - 1, j)[..|s| - 1], rest) + [s[j]]
  {
    assert ([j] + rest)[1..] == rest;
  }

  /** ... and every arrangement comes from some choices: with ShuffleInjective, uniform
      choices make every permutation equally likely. */
  lemma {:induction false} ShuffleSurjective<T>(s: seq<T>, t: seq<T>) returns (js: seq<nat>)
    requires multiset(s) == multiset(t)
    ensures Choices(js, |s|) && Shuffle(s, js) == t
    decreases |s|
  {
    SameSize(s, t);
    js := [];
    if |s| > 1 {
      var n := |s| - 1;
      var j := Find(t, s, t[n]);
      LastOfSwap(s, j);
      assert multiset(t[..n]) == multiset(t) - multiset{t[n]} by {
        RemoveAt(t, n);
        assert Cut(t, n) == t[..n];
      }
      var rest := ShuffleSurjective(Swap(s, n, j)[..n], t[..n]);
      ShuffleStep(s, j, rest);
      js := [j] + rest;
      assert t == t[..n] + [t[n]];
    }
  }

  lemma DifferentIsDistinct(s: seq<int>, t: seq<int>)
    requires Distinct(s) && multiset(s) == multiset(t)
    ensures Distinct(t)
  {
    InBoth(s, t);
    forall i, j | 0 <= i < j < |t|
      ensures t[i] != t[j]
    {
      if t[i] == t[j] {
        assert t == t[..i] + [t[i]] + t[i + 1..j] + [t[j]] + t[j + 1..];
        assert multiset(t)[t[i]] >= 2;
        OnlyOnce(s, t[i]);
      }
    }
  }

  lemma {:induction false} OnlyOnce(s: seq<int>, p: int)
    requires Distinct(s)
    ensures multiset(s)[p] <= 1
  {
    if s != [] {
      assert s == [s[0]] + s[1..];
      OnlyOnce(s[1..], p);
      assert s[0] !in s[1..];
    }
  }
}
