/** lottery-scheduler/runqueue.c: the per-CPU array of runnable processes. */
module LotteryQueue {
  import opened Common
  import opened Lottery
  import opened Rand
  import opened Sequences

  /** What rq_remove leaves: the last process takes the removed one's slot. */
  function SwapRemove(s: seq<int>, p: int): (r: seq<int>)
    ensures p !in s ==> r == s
    ensures p in s ==> |r| == |s| - 1
  {
    if p !in s then s
    else
      var i := Position(s, p);
      s[i := s[|s| - 1]][..|s| - 1]
  }

  /** Removal takes out one occurrence of p and nothing else. */
  lemma SwapRemoveExact(s: seq<int>, p: int)
    requires p in s
    ensures multiset(SwapRemove(s, p)) == multiset(s) - multiset{p}
  {
    var i, n := Position(s, p), |s| - 1;
    assert s == s[..n] + [s[n]];
    if i < n {
      assert s[i := s[n]][..n] == s[..n][i := s[n]];
    }
  }

  lemma SwapRemoveDistinct(s: seq<int>, p: int)
    requires Distinct(s)
    ensures Distinct(SwapRemove(s, p))
    ensures forall q :: q in SwapRemove(s, p) <==> q in s && q != p
  {
    if p in s {
      var i, n, r := Position(s, p), |s| - 1, SwapRemove(s, p);
      forall q ensures q in r <==> q in s && q != p {
        if q in s && q != p {
          var k :| 0 <= k < |s| && s[k] == q;
          assert r[if k == n then i else k] == q;
        }
      }
    }
  }

  /** After the choices js the array is t, with slots above i final: every continuation of
      the choices ends in the same arrangement from either. */
  ghost predicate Shuffling(s: seq<int>, t: seq<int>, i: int, js: seq<nat>) {
    && |t| == |s| && 0 <= i < |s| && multiset(t) == multiset(s)
    && forall rest :: Choices(rest, i + 1) ==>
         Choices(js + rest, |s|) && Shuffle(s, js + rest) == Shuffle(t[..i + 1], rest) + t[i + 1..]
  }

  lemma ShufflingStart(s: seq<int>)
    requires s != []
    ensures Shuffling(s, s, |s| - 1, [])
  {
    forall rest | Choices(rest, |s|)
      ensures Choices([] + rest, |s|) && Shuffle(s, [] + rest) == Shuffle(s[..|s|], rest) + s[|s|..]
    {
      assert [] + rest == rest && s[..|s|] == s;
    }
  }

  lemma SwapParts(t: seq<int>, i: nat, j: nat)
    requires j <= i < |t|
    ensures t[..i + 1][j] == t[j] && Swap(t[..i + 1], i, j)[..i] == Swap(t, i, j)[..i]
    ensures [t[j]] + t[i + 1..] == Swap(t, i, j)[i..]
  {
  }

  lemma ShufflingStep(s: seq<int>, t: seq<int>, i: nat, js: seq<nat>, j: nat)
    requires 0 < i && j <= i && Shuffling(s, t, i, js)
    ensures Shuffling(s, Swap(t, i, j), i - 1, js + [j])
  {
    var u := Swap(t, i, j);
    SwapPermutes(t, i, j);
    SwapParts(t, i, j);
    hide Swap;
    forall rest | Choices(rest, i)
      ensures Choices(js + [j] + rest, |s|)
      ensures Shuffle(s, js + [j] + rest) == Shuffle(u[..i], rest) + u[i..]
    {
      ShuffleStep(t[..i + 1], j, rest);
      assert js + [j] + rest == js + ([j] + rest);
    }
  }

  lemma ShufflingEnd(s: seq<int>, t: seq<int>, js: seq<nat>)
    requires Shuffling(s, t, 0, js)
    ensures Choices(js, |s|) && Shuffle(s, js) == t
  {
    assert Choices([], 1);
    assert js + [] == js && t[..1] + t[1..] == t;
  }

  class RunQueue {
    const procs: array<int>
    var count: int

    ghost predicate Valid()
      reads this, procs
    {
      && procs.Length == MAX_PROCS && 0 <= count <= MAX_PROCS
      && forall i :: 0 <= i < MAX_PROCS ==> (procs[i] != NULL <==> i < count)
    }

    /** The queued processes: the array is dense. */
    ghost function Contents(): (s: seq<int>)
      requires Valid()
      reads this, procs
      ensures |s| == count && NULL !in s
    {
      procs[..count]
    }

    /** rq_init. */
    constructor ()
      ensures Valid() && Contents() == [] && fresh(procs)
    {
      procs := new int[MAX_PROCS](_ => NULL);
      count := 0;
    }

    /** rq_add: into the first empty slot; false stands for the panic on a full queue. */
    method Add(p: int) returns (ok: bool)
      requires Valid() && p != NULL
      modifies this, procs
      ensures Valid() && ok == (old(count) < MAX_PROCS)
      ensures Contents() == if ok then old(Contents()) + [p] else old(Contents())
    {
      if count >= MAX_PROCS {
        return false;
      }
      var i := 0;
      while i < MAX_PROCS && procs[i] != NULL
        invariant 0 <= i <= count
      {
        i := i + 1;
      }
      procs[i] := p;
      count := count + 1;
      ok := true;
    }

    /** rq_remove. */
    method Remove(p: int)
      requires Valid() && p != NULL
      modifies this, procs
      ensures Valid() && Contents() == SwapRemove(old(Contents()), p)
    {
      ghost var s := Contents();
      var i := 0;
      while i < MAX_PROCS && procs[i] != p
        invariant 0 <= i <= MAX_PROCS
        invariant forall k :: 0 <= k < i ==> procs[k] != p
      {
        i := i + 1;
      }
      if i < MAX_PROCS {
        assert s[i] == p;
        assert Position(s, p) == i;
        procs[i] := procs[count - 1];
        procs[count - 1] := NULL;
        count := count - 1;
      }
    }

    /** rq_select: shuffle a copy of the queue, draw a winning number, walk to it. */
    method Select(tickets: int -> int, rng: Rng) returns (selected: int)
      requires Valid() && Total(Contents(), tickets) <= MAXINT
      modifies rng
      ensures (rng.state, selected) == Lot(Contents(), tickets, old(rng.state))
      ensures if count == 0 then selected == NULL && rng.state == old(rng.state) else selected in Contents()
      ensures count > 0 ==>
                exists js, ys :: DrawnChoices(old(rng.state), count, js, ys)
                  && (var (y, winner) := Drawn(ys[|js|], Total(Contents(), tickets));
                      rng.state == y && selected == Walk(Shuffle(Contents(), js), tickets, winner))
    {
      if count == 0 {
        return NULL;
      }
      ghost var s, x := Contents(), rng.state;
      var total := SumTickets(tickets);
      TotalPositive(s, tickets);
      var temp, n := CopyProcs();
      ShuffleInPlace(temp, n, rng);
      ghost var ys := ChosenDraws(x, n);
      var w := rng.RandRange(total);
      DrawSelects(s, Chosen(x, n).1, tickets, w);
      assert DrawnChoices(x, n, Chosen(x, n).1, ys);
      selected := WalkArray(temp, n, tickets, w);
    }

    method SumTickets(tickets: int -> int) returns (total: nat)
      requires Valid()
      ensures total == Total(Contents(), tickets)
    {
      ghost var s := Contents();
      total := 0;
      for i := 0 to MAX_PROCS
        invariant total == Total(s[..if i < |s| then i else |s|], tickets)
      {
        if procs[i] != NULL {
          total := total + Effective(tickets(procs[i]));
          TotalSnoc(s[..i], s[i], tickets);
          assert s[..i + 1] == s[..i] + [s[i]];
        }
      }
      assert s[..|s|] == s;
    }

    method CopyProcs() returns (temp: array<int>, n: nat)
      requires Valid()
      ensures fresh(temp) && n == count <= temp.Length && temp[..n] == Contents()
    {
      temp := new int[MAX_PROCS];
      n := 0;
      for i := 0 to MAX_PROCS
        invariant n == (if i < count then i else count) && n <= temp.Length
        invariant forall k :: 0 <= k < n ==> temp[k] == procs[k]
      {
        if procs[i] != NULL {
          temp[n] := procs[i];
          n := n + 1;
        }
      }
    }
  }

  /** Every draw below the total selects a queued process, whatever the shuffle. */
  lemma DrawSelects(s: seq<int>, js: seq<nat>, tickets: int -> int, winner: int)
    requires NULL !in s && Choices(js, |s|) && 0 <= winner < Total(s, tickets)
    ensures Walk(Shuffle(s, js), tickets, winner) in s
  {
    var t := Shuffle(s, js);
    ShufflePermutes(s, js);
    TotalPermutes(s, t, tickets);
    InBoth(s, t);
    WalkFinds(t, tickets, winner);
  }

  /** The draw is exactly proportional: whatever the shuffle, of the possible winning
      numbers exactly max(1, tickets) select a given queued process. */
  lemma DrawIsFair(s: seq<int>, js: seq<nat>, tickets: int -> int, p: int)
    requires Distinct(s) && NULL !in s && Choices(js, |s|) && p in s
    ensures Wins(Shuffle(s, js), tickets, Total(s, tickets), p) == if tickets(p) > 1 then tickets(p) else 1
  {
    var t := Shuffle(s, js);
    ShufflePermutes(s, js);
    TotalPermutes(s, t, tickets);
    InBoth(s, t);
    DifferentIsDistinct(s, t);
    ExactlyProportional(t, tickets, p);
  }

  /** How many of the draws below n select p from t, if the winning number is their residue. */
  function Selecting(t: seq<int>, tickets: int -> int, total: nat, n: nat, p: int): nat
    requires total > 0
  {
    if n == 0 then 0
    else Selecting(t, tickets, total, n - 1, p) + if Walk(t, tickets, (n - 1) % total) == p then 1 else 0
  }

  lemma {:induction false} SelectingPeriod(t: seq<int>, tickets: int -> int, total: nat, q: nat, d: nat, p: int)
    requires 0 < total && d <= total
    ensures Selecting(t, tickets, total, q * total + d, p) ==
            q * Wins(t, tickets, total, p) + Wins(t, tickets, d, p)
    decreases q, d
  {
    if d > 0 {
      SelectingPeriod(t, tickets, total, q, d - 1, p);
      Residue(q, total, d - 1);
      assert q * total + d - 1 == q * total + (d - 1);
    } else if q > 0 {
      SelectingPeriod(t, tickets, total, q - 1, total, p);
      assert (q - 1) * total + total == q * total;
      assert (q - 1) * Wins(t, tickets, total, p) + Wins(t, tickets, total, p) == q * Wins(t, tickets, total, p);
    }
  }

  /** The whole lottery is exactly proportional: whatever the shuffle, of all the numbers rand
      can yield that rand_range accepts, each process is selected by the same number per ticket. */
  lemma LotteryIsFair(s: seq<int>, js: seq<nat>, tickets: int -> int, p: int)
    requires Distinct(s) && NULL !in s && Choices(js, |s|) && p in s && 0 < Total(s, tickets) <= MAXINT
    ensures var total := Total(s, tickets);
            && (forall r :: Accepts(total, r) <==> 0 <= r < MAXINT / total * total)
            && Selecting(Shuffle(s, js), tickets, total, MAXINT / total * total, p) ==
               (MAXINT / total) * (if tickets(p) > 1 then tickets(p) else 1)
  {
    var total := Total(s, tickets);
    DrawIsFair(s, js, tickets, p);
    ThresholdBounds(total);
    var q := MAXINT / total;
    SelectingPeriod(Shuffle(s, js), tickets, total, q, 0, p);
    assert q * total + 0 == q * total;
  }

  /** Choice number k of a shuffle of n is a draw of rand_range below n - k, made in state
      ys[k]; the first is made in state x. */
  ghost predicate DrawnChoices(x: bv32, n: nat, js: seq<nat>, ys: seq<bv32>) {
    && Choices(js, n) && |ys| == |js| + 1 && ys[0] == x
    && forall k :: 0 <= k < |js| ==> Drawn(ys[k], n - k) == (ys[k + 1], js[k] as int)
  }

  lemma FirstChoice(x: bv32, n: nat, y: bv32, j: nat, js: seq<nat>, zs: seq<bv32>)
    requires n > 1 && (y, j as int) == Drawn(x, n) && j < n && DrawnChoices(y, n - 1, js, zs)
    ensures DrawnChoices(x, n, [j] + js, [x] + zs)
  {
    hide Drawn;
    MoreChoices(j, js, n);
    var ks, ys := [j] + js, [x] + zs;
    forall k | 0 <= k < |ks| ensures Drawn(ys[k], n - k) == (ys[k + 1], ks[k] as int) {
      if k > 0 {
        assert ys[k] == zs[k - 1] && ks[k] == js[k - 1] && ys[k + 1] == zs[k];
      }
    }
  }

  lemma {:induction false} ChosenDraws(x: bv32, n: nat) returns (ys: seq<bv32>)
    requires n <= MAX_PROCS
    ensures DrawnChoices(x, n, Chosen(x, n).1, ys) && ys[|ys| - 1] == Chosen(x, n).0
    decreases n
  {
    if n <= 1 {
      ys := [x];
    } else {
      var d := Drawn(x, n);
      var zs := ChosenDraws(d.0, n - 1);
      ys := [x] + zs;
      FirstChoice(x, n, d.0, d.1, Chosen(d.0, n - 1).1, zs);
    }
  }

  /** The state after the shuffle of n processes, and the index choices it makes. */
  ghost function Chosen(x: bv32, n: nat): (c: (bv32, seq<nat>))
    requires n <= MAX_PROCS
    ensures Choices(c.1, n)
    decreases n
  {
    if n <= 1 then (x, [])
    else
      var d := Drawn(x, n);
      var c := Chosen(d.0, n - 1);
      MoreChoices(d.1, c.1, n);
      (c.0, [d.1] + c.1)
  }

  lemma MoreChoices(j: nat, js: seq<nat>, n: nat)
    requires n > 1 && j < n && Choices(js, n - 1)
    ensures Choices([j] + js, n)
  {
    forall k | 0 <= k < n - 1 ensures ([j] + js)[k] < n - k {
      assert ([j] + js)[k] == if k == 0 then j else js[k - 1];
    }
  }

  /** A shuffle of s under way: the array is t with slots above i final, after the choices js,
      which took the generator from state x to y. */
  datatype Deal = Deal(s: seq<int>, t: seq<int>, i: nat, js: seq<nat>, x: bv32, y: bv32)

  ghost predicate Dealt(d: Deal) {
    match d case Deal(s, t, i, js, x, y) =>
      && |s| <= MAX_PROCS && Shuffling(s, t, i, js)
      && Chosen(x, |s|) == (Chosen(y, i + 1).0, js + Chosen(y, i + 1).1)
  }

  lemma DealStart(s: seq<int>, x: bv32) returns (d: Deal)
    requires 0 < |s| <= MAX_PROCS
    ensures Dealt(d) && d == Deal(s, s, |s| - 1, [], x, x)
  {
    ShufflingStart(s);
    d := Deal(s, s, |s| - 1, [], x, x);
    assert [] + Chosen(x, |s|).1 == Chosen(x, |s|).1;
  }

  lemma DealStep(d: Deal, z: bv32, j: nat) returns (e: Deal)
    requires Dealt(d) && d.i > 0 && (z, j as int) == Drawn(d.y, d.i + 1)
    ensures d.i < |d.t| && e == Deal(d.s, Swap(d.t, d.i, j), d.i - 1, d.js + [j], d.x, z) && Dealt(e)
  {
    ShufflingStep(d.s, d.t, d.i, d.js, j);
    e := Deal(d.s, Swap(d.t, d.i, j), d.i - 1, d.js + [j], d.x, z);
    assert d.js + [j] + Chosen(z, d.i).1 == d.js + ([j] + Chosen(z, d.i).1);
  }

  lemma DealEnd(d: Deal)
    requires Dealt(d) && d.i == 0
    ensures |d.s| <= MAX_PROCS && Chosen(d.x, |d.s|) == (d.y, d.js) && Shuffle(d.s, d.js) == d.t
  {
    ShufflingEnd(d.s, d.t, d.js);
    assert d.js + [] == d.js;
  }

  /** What rq_select does when the generator is in state x: the generator's next state and
      the winner of the draw, NULL if nobody takes part. */
  ghost function Lot(s: seq<int>, tickets: int -> int, x: bv32): (bv32, int)
    requires |s| <= MAX_PROCS
  {
    if s == [] then (x, NULL)
    else
      TotalPositive(s, tickets);
      var c := Chosen(x, |s|);
      var d := Drawn(c.0, Total(s, tickets));
      (d.0, Walk(Shuffle(s, c.1), tickets, d.1))
  }

  method SwapSlots(temp: array<int>, n: nat, i: nat, j: nat)
    requires i < n <= temp.Length && j < n
    modifies temp
    ensures temp[..n] == Swap(old(temp[..n]), i, j)
  {
    temp[i], temp[j] := temp[j], temp[i];
  }

  /** The in-place shuffle of rq_select. */
  method ShuffleInPlace(temp: array<int>, n: nat, rng: Rng)
    requires 0 < n <= temp.Length && n <= MAX_PROCS
    modifies temp, rng
    ensures rng.state == Chosen(old(rng.state), n).0
    ensures temp[..n] == Shuffle(old(temp[..n]), Chosen(old(rng.state), n).1)
  {
    ghost var s, x := temp[..n], rng.state;
    var i := n - 1;
    ghost var d := DealStart(s, x);
    while i > 0
      invariant i < n && Dealt(d) && d == Deal(s, temp[..n], i, d.js, x, rng.state)
    {
      d := ShuffleTurn(temp, n, rng, i, d);
      i := i - 1;
    }
    DealEnd(d);
  }

  /** One turn: a choice for slot i, and the swap. */
  method ShuffleTurn(temp: array<int>, n: nat, rng: Rng, i: nat, ghost d: Deal) returns (ghost e: Deal)
    requires 0 < i < n <= temp.Length && n <= MAX_PROCS && Dealt(d) && d.i == i && d.t == temp[..n] && d.y == rng.state
    modifies temp, rng
    ensures Dealt(e) && e == Deal(d.s, temp[..n], i - 1, e.js, d.x, rng.state)
  {
    var j := rng.RandRange(i + 1);
    e := DealStep(d, rng.state, j);
    SwapSlots(temp, n, i, j);
  }

  /** The ticket walk of rq_select. */
  method WalkArray(temp: array<int>, n: nat, tickets: int -> int, winner: int) returns (selected: int)
    requires n <= temp.Length && winner >= 0
    ensures selected == Walk(temp[..n], tickets, winner)
  {
    ghost var t := temp[..n];
    var current := 0;
    selected := NULL;
    var i := 0;
    while i < n
      invariant 0 <= i <= n
      invariant Walk(t, tickets, winner) == Walk(t[i..], tickets, winner - current)
    {
      var e := Effective(tickets(temp[i]));
      if winner < e + current {
        return temp[i];
      }
      current := current + e;
      assert t[i..][1..] == t[i + 1..];
      i := i + 1;
    }
  }
}
