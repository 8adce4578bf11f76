/** How many frames an operation on page tables needs: one for each page it adds and one for
    each table that is not there yet. */
module FrameCount {
  import opened PageTable

  /** Which of the first n directory entries have a table. */
  ghost function TablesTo(v: Vm, d: nat, n: nat): (s: seq<bool>)
    requires Shaped(v) && d in v.dirs && n <= ENTRIES
    ensures |s| == n
  {
    if n == 0 then [] else TablesTo(v, d, n - 1) + [Table(v, d, n - 1) != 0]
  }

  ghost function Tables(v: Vm, d: nat): (s: seq<bool>)
    requires Shaped(v) && d in v.dirs
    ensures |s| == ENTRIES
  {
    TablesTo(v, d, ENTRIES)
  }

  /** How many of the first n entries hold. */
  function CountTo(s: seq<bool>, n: nat): nat
    requires n <= |s|
  {
    if n == 0 then 0 else CountTo(s, n - 1) + if s[n - 1] then 1 else 0
  }

  function Count(s: seq<bool>): nat { CountTo(s, |s|) }

  /** The tables there are once each of the pages lo to n-1 has one. */
  function WithTables(s: seq<bool>, lo: nat, n: nat): (t: seq<bool>)
    requires n <= |s| * ENTRIES
    ensures |t| == |s|
  {
    if n <= lo then s else WithTables(s, lo, n - 1)[(n - 1) / ENTRIES := true]
  }

  /** The frames it takes to map pages lo to n-1, starting from the tables s: one for each
      missing table, and one for each page unless the pages have their frames already. */
  function Cost(s: seq<bool>, lo: nat, n: nat, whole: bool): int
    requires n <= |s| * ENTRIES
  {
    Count(WithTables(s, lo, n)) - Count(s) + if whole then n - lo else 0
  }

  /** The tables added are those of the directory entries from that of page lo to that of
      page n-1. */
  lemma {:induction false} WithTablesAt(s: seq<bool>, lo: nat, n: nat, x: nat)
    requires n <= |s| * ENTRIES && x < |s|
    ensures WithTables(s, lo, n)[x] <==> s[x] || (lo < n && lo / ENTRIES <= x <= (n - 1) / ENTRIES)
  {
    if lo < n {
      WithTablesAt(s, lo, n - 1, x);
    }
  }

  lemma {:induction false} CountSet(s: seq<bool>, x: nat, n: nat)
    requires x < |s| && n <= |s|
    ensures CountTo(s[x := true], n) == CountTo(s, n) + if x < n && !s[x] then 1 else 0
  {
    if n > 0 {
      CountSet(s, x, n - 1);
    }
  }

  lemma {:induction false} CountNone(s: seq<bool>, n: nat)
    requires n <= |s| && forall x :: 0 <= x < |s| ==> !s[x]
    ensures CountTo(s, n) == 0
  {
    if n > 0 {
      CountNone(s, n - 1);
    }
  }

  /** What mapping one page takes. */
  function Price(s: seq<bool>, n: nat, whole: bool): nat
    requires n / ENTRIES < |s|
  {
    (if s[n / ENTRIES] then 0 else 1) + if whole then 1 else 0
  }

  lemma CostStep(s: seq<bool>, lo: nat, n: nat, whole: bool)
    requires lo <= n < |s| * ENTRIES
    ensures n / ENTRIES < |s|
    ensures Cost(s, lo, n + 1, whole) == Cost(s, lo, n, whole) + Price(WithTables(s, lo, n), n, whole)
  {
    CountSet(WithTables(s, lo, n), n / ENTRIES, |s|);
  }

  /** More pages never cost less. */
  lemma {:induction false} CostMore(s: seq<bool>, lo: nat, n: nat, hi: nat, whole: bool)
    requires lo <= n <= hi <= |s| * ENTRIES
    ensures Cost(s, lo, n, whole) <= Cost(s, lo, hi, whole)
    decreases hi - n
  {
    if n < hi {
      CostStep(s, lo, hi - 1, whole);
      CostMore(s, lo, n, hi - 1, whole);
    }
  }

  /** Page n has been mapped, which took its price out of `before` free frames; or that was
      more than there were. */
  ghost predicate Paid(s: seq<bool>, t: seq<bool>, n: nat, whole: bool, before: nat, after: nat, ok: bool)
    requires n / ENTRIES < |s|
  {
    match ok
    case true => t == s[n / ENTRIES := true] && before == after + Price(s, n, whole)
    case false => before < Price(s, n, whole)
  }

  /** The pages lo to n-1 have been mapped; or there are too few frames for lo to hi-1. */
  ghost predicate Ledger(s: seq<bool>, t: seq<bool>, lo: nat, n: nat, hi: nat, whole: bool, before: nat, after: nat,
      ok: bool)
    requires n <= |s| * ENTRIES && hi <= |s| * ENTRIES
  {
    match ok
    case true => t == WithTables(s, lo, n) && before == after + Cost(s, lo, n, whole)
    case false => before < Cost(s, lo, hi, whole)
  }

  lemma LedgerStart(s: seq<bool>, lo: nat, hi: nat, whole: bool, before: nat)
    requires lo <= hi <= |s| * ENTRIES
    ensures Ledger(s, s, lo, lo, hi, whole, before, before, true)
  {
  }

  lemma LedgerStep(s: seq<bool>, t: seq<bool>, u: seq<bool>, lo: nat, n: nat, hi: nat, whole: bool,
                   before: nat, mid: nat, after: nat, ok: bool)
    requires |t| == |s| && lo <= n < hi <= |s| * ENTRIES && n / ENTRIES < |s|
    requires Ledger(s, t, lo, n, hi, whole, before, mid, true) && Paid(t, u, n, whole, mid, after, ok)
    ensures Ledger(s, u, lo, n + 1, hi, whole, before, after, ok)
  {
    CostStep(s, lo, n, whole);
    CostMore(s, lo, n + 1, hi, whole);
  }

  // ---- what the steps do to the tables ----

  lemma {:induction false} TablesAt(v: Vm, d: nat, n: nat, x: nat)
    requires Shaped(v) && d in v.dirs && x < n <= ENTRIES
    ensures TablesTo(v, d, n)[x] <==> Table(v, d, x) != 0
  {
    if x < n - 1 {
      TablesAt(v, d, n - 1, x);
    }
  }

  /** Directory entry x gets a table, or has one. */
  lemma HungTables(v: Vm, w: Vm, d: nat, x: nat)
    requires Shaped(v) && Shaped(w) && d in v.dirs && d in w.dirs && x < ENTRIES && Table(w, d, x) != 0
    requires forall y :: 0 <= y < ENTRIES && y != x ==> Table(w, d, y) == Table(v, d, y)
    ensures Tables(w, d) == Tables(v, d)[x := true] && (Tables(v, d)[x] <==> Table(v, d, x) != 0)
  {
    forall y | 0 <= y < ENTRIES
      ensures Tables(w, d)[y] == Tables(v, d)[x := true][y] && (Tables(v, d)[y] <==> Table(v, d, y) != 0)
    {
      TablesAt(v, d, ENTRIES, y);
      TablesAt(w, d, ENTRIES, y);
    }
  }

  lemma NoTable(v: Vm, d: nat, x: nat)
    requires Shaped(v) && d in v.dirs && x < ENTRIES
    ensures Tables(v, d)[x] <==> Table(v, d, x) != 0
  {
    TablesAt(v, d, ENTRIES, x);
  }

  lemma {:induction false} SameDirectory(v: Vm, w: Vm, d: nat, n: nat)
    requires Shaped(v) && Shaped(w) && d in v.dirs && d in w.dirs && v.mem[d] == w.mem[d] && n <= ENTRIES
    ensures TablesTo(w, d, n) == TablesTo(v, d, n)
  {
    if n > 0 {
      SameDirectory(v, w, d, n - 1);
    }
  }

  lemma {:induction false} EmptyTables(v: Vm, d: nat, n: nat)
    requires Shaped(v) && d in v.dirs && n <= ENTRIES && forall x :: 0 <= x < ENTRIES ==> Table(v, d, x) == 0
    ensures TablesTo(v, d, n) == seq(n, _ => false)
  {
    if n > 0 {
      EmptyTables(v, d, n - 1);
    }
  }
}
