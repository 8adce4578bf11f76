/** The user-level allocator malloc/free: a circular, address-ordered list of free blocks
    with two-sided coalescing. Addresses count headers (8 bytes), so a block at address b
    of size n holds the units b to b+n-1, the first of which is its header. */
module Heap {
  import opened Sequences

  const NIL := 0   // the null pointer
  const HEADER := 8
  const CHUNK := 4096

  // ---- the list ----

  /** The links form one cycle through c in order. */
  ghost predicate Cycle(ptr: map<int, int>, c: seq<int>) {
    forall i :: 0 <= i < |c| ==> Link(ptr, c, i)
  }

  predicate Link(ptr: map<int, int>, c: seq<int>, i: int)
    requires 0 <= i < |c|
  {
    c[i] in ptr && ptr[c[i]] == c[Next(|c|, i)]
  }

  /** c ascends, its blocks do not overlap, and all but the first, the empty base, hold units. */
  ghost predicate Ascending(size: map<int, int>, c: seq<int>) {
    && (forall i :: 0 <= i < |c| ==> c[i] in size && size[c[i]] >= 0 && (size[c[i]] == 0 <==> i == 0))
    && (forall i, j :: 0 <= i < j < |c| ==> Below(size, c, i, j))
  }

  /** Block i of c lies wholly below block j. */
  predicate Below(size: map<int, int>, c: seq<int>, i: int, j: int)
    requires 0 <= i < j < |c|
  {
    c[i] in size && c[i] < c[j] && c[i] + size[c[i]] <= c[j]
  }

  lemma Ordered(size: map<int, int>, c: seq<int>)
    requires Ascending(size, c)
    ensures forall i, j :: 0 <= i < j < |c| ==> c[i] < c[j] && c[i] + size[c[i]] <= c[j]
  {
    forall i, j | 0 <= i < j < |c| ensures c[i] < c[j] && c[i] + size[c[i]] <= c[j] {
      assert Below(size, c, i, j);
    }
  }

  lemma NoRepeats(size: map<int, int>, c: seq<int>)
    requires Ascending(size, c)
    ensures Distinct(c)
  {
    Ordered(size, c);
  }

  /** Block k of c does not touch the next. */
  predicate Apart(size: map<int, int>, c: seq<int>, k: int)
    requires 0 <= k && k + 1 < |c|
  {
    c[k] in size && c[k] + size[c[k]] < c[k + 1]
  }

  ghost predicate Coalesced(size: map<int, int>, c: seq<int>) {
    forall k :: 0 <= k < |c| - 1 ==> Apart(size, c, k)
  }

  /** b lies between block i of c and the next. */
  predicate Gap(c: seq<int>, i: nat, b: int) {
    i < |c| && c[i] < b && (i + 1 < |c| ==> b < c[i + 1])
  }

  /** The block at b fits into the gap behind block i. */
  predicate Fits(size: map<int, int>, c: seq<int>, i: nat, b: int)
    requires forall k :: 0 <= k < |c| ==> c[k] in size
  {
    && Gap(c, i, b) && b in size && size[b] > 0
    && c[i] + size[c[i]] <= b && (i + 1 < |c| ==> b + size[b] <= c[i + 1])
  }

  lemma InsertLink(ptr: map<int, int>, size: map<int, int>, c: seq<int>, i: nat, b: int, k: nat)
    requires Cycle(ptr, c) && Ascending(size, c) && Gap(c, i, b) && k <= |c|
    ensures Link(ptr[b := c[Next(|c|, i)]][c[i] := b], InsertAt(c, i + 1, b), k)
  {
    Ordered(size, c);
    if k != i + 1 {
      var m := if k <= i then k else k - 1;
      assert Link(ptr, c, m);
      assert c[m] != b && (m != i ==> c[m] != c[i]);
    }
  }

  lemma InsertCycle(ptr: map<int, int>, size: map<int, int>, c: seq<int>, i: nat, b: int)
    requires Cycle(ptr, c) && Ascending(size, c) && Gap(c, i, b)
    ensures Cycle(ptr[b := c[Next(|c|, i)]][c[i] := b], InsertAt(c, i + 1, b))
  {
    var d, qtr := InsertAt(c, i + 1, b), ptr[b := c[Next(|c|, i)]][c[i] := b];
    forall k | 0 <= k < |d| ensures Link(qtr, d, k) {
      InsertLink(ptr, size, c, i, b, k);
    }
  }

  lemma InsertAscending(size: map<int, int>, c: seq<int>, i: nat, b: int)
    requires Ascending(size, c) && Fits(size, c, i, b)
    ensures Ascending(size, InsertAt(c, i + 1, b))
  {
    Ordered(size, c);
    var d := InsertAt(c, i + 1, b);
    forall k, m | 0 <= k < m < |d|
      ensures Below(size, d, k, m)
    {
      if k == i + 1 {
        assert d[m] == c[m - 1] && c[i + 1] <= c[m - 1];
      } else if m == i + 1 {
        assert d[k] == c[k] && (k < i ==> c[k] + size[c[k]] <= c[i]);
      }
    }
  }

  lemma InsertApart(size: map<int, int>, c: seq<int>, i: nat, b: int, k: nat)
    requires Ascending(size, c) && Coalesced(size, c) && Fits(size, c, i, b)
    requires k < |c| && k != i && k != i + 1
    ensures var d := InsertAt(c, i + 1, b); Apart(size, d, k)
  {
    assert Apart(size, c, if k < i then k else k - 1);
  }

  /** Merging block k + 1 into the block k it touches. */
  lemma AbsorbCycle(ptr: map<int, int>, size: map<int, int>, c: seq<int>, k: nat)
    requires Cycle(ptr, c) && Ascending(size, c) && k + 1 < |c|
    ensures Link(ptr, c, k + 1) && Cycle(ptr[c[k] := ptr[c[k + 1]]], Cut(c, k + 1))
  {
    Ordered(size, c);
    var d := Cut(c, k + 1);
    var q := c[Next(|c|, k + 1)];
    assert Link(ptr, c, k + 1);
    var qtr := ptr[c[k] := q];
    forall j | 0 <= j < |d| ensures Link(qtr, d, j) {
      var m := if j <= k then j else j + 1;
      assert Link(ptr, c, m);
      assert m != k ==> c[m] != c[k];
    }
  }

  lemma AbsorbAscending(size: map<int, int>, c: seq<int>, k: nat)
    requires Ascending(size, c) && 0 < k && k + 1 < |c| && !Apart(size, c, k)
    ensures Ascending(size[c[k] := size[c[k]] + size[c[k + 1]]], Cut(c, k + 1))
  {
    Ordered(size, c);
    forall m | 0 <= m < |c| && m != k ensures c[m] != c[k] {
    }
    assert c[k] + size[c[k]] <= c[k + 1];
  }

  lemma AbsorbApart(size: map<int, int>, c: seq<int>, k: nat, j: nat)
    requires Ascending(size, c) && 0 < k && k + 1 < |c| && !Apart(size, c, k) && j + 2 < |c|
    ensures var d := Cut(c, k + 1); var t := size[c[k] := size[c[k]] + size[c[k + 1]]];
            (Apart(t, d, j) <==> Apart(size, c, if j < k then j else j + 1))
  {
    Ordered(size, c);
    assert c[k] + size[c[k]] <= c[k + 1];
    assert j != k ==> c[j] != c[k];
  }

  // ---- who owns which unit ----

  /** The unit u lies in b, a block of the list or in use. */
  ghost predicate Holds(size: map<int, int>, c: seq<int>, live: set<int>, b: int, u: int) {
    (b in live || b in c) && b in size && b <= u < b + size[b]
  }

  /** The blocks of the list and the blocks in use lie above the base and partition the units:
      every unit lies in exactly one block, the one that owns it. */
  ghost predicate Partitioned(size: map<int, int>, c: seq<int>, live: set<int>, owner: map<int, int>)
    requires c != []
  {
    && (forall b :: b in live ==> b in size && size[b] > 0 && b !in c && c[0] < b)
    && (forall u :: u in owner ==> Holds(size, c, live, owner[u], u))
    && (forall b, u :: Holds(size, c, live, b, u) ==> u in owner && owner[u] == b)
  }

  ghost function FreeUnits(live: set<int>, owner: map<int, int>): (s: set<int>)
    ensures forall u :: u in s <==> u in owner && owner[u] !in live
  {
    set u | u in owner && owner[u] !in live
  }

  ghost function UnitsOf(owner: map<int, int>, b: int): (s: set<int>)
    ensures forall u :: u in s <==> u in owner && owner[u] == b
  {
    set u | u in owner && owner[u] == b
  }

  ghost function Relabel(owner: map<int, int>, q: int, p: int): (m: map<int, int>)
    ensures m.Keys == owner.Keys && forall u :: u in owner ==> m[u] == if owner[u] == q then p else owner[u]
  {
    map u | u in owner :: if owner[u] == q then p else owner[u]
  }

  lemma LiveFits(size: map<int, int>, c: seq<int>, live: set<int>, owner: map<int, int>, i: nat, b: int)
    requires c != [] && Ascending(size, c) && Partitioned(size, c, live, owner) && b in live && Gap(c, i, b)
    ensures Fits(size, c, i, b)
  {
    assert Holds(size, c, live, b, b);
    assert !Holds(size, c, live, c[i], b);
    if i + 1 < |c| {
      var d := c[i + 1];
      assert Holds(size, c, live, d, d);
      assert !Holds(size, c, live, b, d);
    }
  }

  lemma InsertMembers(c: seq<int>, k: nat, b: int, x: int)
    requires k <= |c|
    ensures x in InsertAt(c, k, b) <==> x in c || x == b
  {
    var d := InsertAt(c, k, b);
    if x in c {
      var m :| 0 <= m < |c| && c[m] == x;
      assert d[if m < k then m else m + 1] == x;
    }
  }

  lemma CutMembers(c: seq<int>, k: nat, x: int)
    requires k < |c| && forall i, j :: 0 <= i < j < |c| ==> c[i] < c[j]
    ensures x in Cut(c, k) <==> x in c && x != c[k]
  {
    var d := Cut(c, k);
    if x in c && x != c[k] {
      var m :| 0 <= m < |c| && c[m] == x;
      assert d[if m < k then m else m - 1] == x;
    }
  }

  lemma InsertPartitioned(size: map<int, int>, c: seq<int>, live: set<int>, owner: map<int, int>, i: nat, b: int)
    requires c != [] && Partitioned(size, c, live, owner) && b in live && i < |c|
    ensures Partitioned(size, InsertAt(c, i + 1, b), live - {b}, owner)
    ensures FreeUnits(live - {b}, owner) == FreeUnits(live, owner) + UnitsOf(owner, b)
  {
    forall x ensures x in InsertAt(c, i + 1, b) <==> x in c || x == b {
      InsertMembers(c, i + 1, b, x);
    }
    var d := InsertAt(c, i + 1, b);
    forall x, u ensures Holds(size, d, live - {b}, x, u) <==> Holds(size, c, live, x, u) {
    }
  }

  lemma AbsorbHolds(size: map<int, int>, c: seq<int>, live: set<int>, k: nat, x: int, u: int)
    requires Ascending(size, c) && 0 < k && k + 1 < |c| && !Apart(size, c, k)
    requires c[k] !in live && c[k + 1] !in live
    ensures var p, q := c[k], c[k + 1];
            Holds(size[p := size[p] + size[q]], Cut(c, k + 1), live, x, u) <==>
              if x == p then Holds(size, c, live, p, u) || Holds(size, c, live, q, u)
              else x != q && Holds(size, c, live, x, u)
  {
    Ordered(size, c);
    assert c[k] in c && c[k + 1] in c;
    CutMembers(c, k + 1, x);
  }

  lemma AbsorbPartitioned(size: map<int, int>, c: seq<int>, live: set<int>, owner: map<int, int>, k: nat)
    requires c != [] && Ascending(size, c) && Partitioned(size, c, live, owner)
    requires 0 < k && k + 1 < |c| && !Apart(size, c, k)
    ensures Partitioned(size[c[k] := size[c[k]] + size[c[k + 1]]], Cut(c, k + 1), live, Relabel(owner, c[k + 1], c[k]))
  {
    var p, q := c[k], c[k + 1];
    var d, t, o := Cut(c, k + 1), size[p := size[p] + size[q]], Relabel(owner, q, p);
    assert p in c && q in c;
    forall x, u
      ensures Holds(t, d, live, x, u) <==>
                if x == p then Holds(size, c, live, p, u) || Holds(size, c, live, q, u)
                else x != q && Holds(size, c, live, x, u)
    {
      AbsorbHolds(size, c, live, k, x, u);
    }
    forall u | u in o ensures Holds(t, d, live, o[u], u) {
      assert Holds(size, c, live, owner[u], u);
    }
  }

  // ---- free ----

  /** The header fields in memory, and what they stand for: the free list, the blocks in use,
      and the block that owns each unit obtained from sbrk. */
  datatype Arena = Arena(ptr: map<int, int>, size: map<int, int>, chain: seq<int>, live: set<int>, owner: map<int, int>)

  /** A heap in which blocks of the list may still touch. */
  ghost predicate Loose(a: Arena) {
    && a.chain != [] && Cycle(a.ptr, a.chain) && Ascending(a.size, a.chain)
    && Partitioned(a.size, a.chain, a.live, a.owner)
  }

  ghost predicate Sound(a: Arena) {
    Loose(a) && Coalesced(a.size, a.chain)
  }

  /** The free units of a heap. */
  ghost function FreeSet(a: Arena): set<int> {
    FreeUnits(a.live, a.owner)
  }

  /** The block b in use is linked in behind block i. */
  ghost function Inserted(a: Arena, i: nat, b: int): Arena
    requires i < |a.chain|
  {
    a.(ptr := a.ptr[b := a.chain[Next(|a.chain|, i)]][a.chain[i] := b],
       chain := InsertAt(a.chain, i + 1, b), live := a.live - {b})
  }

  ghost predicate Touching(a: Arena, k: int)
    requires Loose(a)
  {
    0 <= k && k + 1 < |a.chain| && !Apart(a.size, a.chain, k)
  }

  /** Block k + 1 is merged into block k, which it touches. */
  ghost function Absorbed(a: Arena, k: nat): Arena
    requires Loose(a) && Touching(a, k)
  {
    var p, q := a.chain[k], a.chain[k + 1];
    assert Link(a.ptr, a.chain, k + 1);
    Arena(a.ptr[p := a.ptr[q]], a.size[p := a.size[p] + a.size[q]], Cut(a.chain, k + 1), a.live, Relabel(a.owner, q, p))
  }

  /** Only the blocks a and b have in use matter to their owners: sizes and units in use agree. */
  ghost predicate SameLive(a: Arena, b: Arena) {
    && a.live == b.live && a.owner.Keys == b.owner.Keys
    && forall x :: x in a.live && x in a.size ==> x in b.size && a.size[x] == b.size[x]
  }

  lemma InsertedLoose(a: Arena, i: nat, b: int)
    requires Loose(a) && b in a.live && Gap(a.chain, i, b)
    ensures Loose(Inserted(a, i, b)) && FreeSet(Inserted(a, i, b)) == FreeSet(a) + UnitsOf(a.owner, b)
  {
    LiveFits(a.size, a.chain, a.live, a.owner, i, b);
    InsertCycle(a.ptr, a.size, a.chain, i, b);
    InsertAscending(a.size, a.chain, i, b);
    InsertPartitioned(a.size, a.chain, a.live, a.owner, i, b);
  }

  lemma InsertedTouching(a: Arena, i: nat, b: int, k: int)
    requires Sound(a) && b in a.live && Gap(a.chain, i, b)
    ensures Loose(Inserted(a, i, b)) && (Touching(Inserted(a, i, b), k) ==> k == i || k == i + 1)
  {
    InsertedLoose(a, i, b);
    LiveFits(a.size, a.chain, a.live, a.owner, i, b);
    if 0 <= k < |a.chain| && k != i && k != i + 1 {
      InsertApart(a.size, a.chain, i, b, k);
    }
  }

  lemma AbsorbedLoose(a: Arena, k: nat)
    requires Loose(a) && Touching(a, k)
    ensures k > 0 && Loose(Absorbed(a, k))
  {
    assert Link(a.ptr, a.chain, k + 1);
    assert Below(a.size, a.chain, k, k + 1);
    AbsorbCycle(a.ptr, a.size, a.chain, k);
    AbsorbAscending(a.size, a.chain, k);
    AbsorbPartitioned(a.size, a.chain, a.live, a.owner, k);
  }

  lemma AbsorbedUnits(a: Arena, k: nat)
    requires Loose(a) && Touching(a, k)
    ensures FreeSet(Absorbed(a, k)) == FreeSet(a) && SameLive(a, Absorbed(a, k))
  {
    assert Below(a.size, a.chain, k, k + 1);
    assert a.chain[k] in a.chain && a.chain[k + 1] in a.chain;
  }

  lemma AbsorbedTouching(a: Arena, k: nat, j: int)
    requires Loose(a) && Touching(a, k)
    ensures Loose(Absorbed(a, k))
    ensures Touching(Absorbed(a, k), j) <==> Touching(a, if j < k then j else j + 1)
  {
    AbsorbedLoose(a, k);
    if 0 <= j && j + 2 < |a.chain| {
      AbsorbApart(a.size, a.chain, k, j);
    }
  }

  /** Block k is merged with its successor if they touch. */
  ghost function Merged(a: Arena, k: nat): Arena
    requires Loose(a)
  {
    if Touching(a, k) then Absorbed(a, k) else a
  }

  /** Only blocks lo to hi may touch their successors. */
  ghost predicate TouchesWithin(a: Arena, lo: int, hi: int)
    requires Loose(a)
  {
    forall j :: Touching(a, j) ==> lo <= j <= hi
  }

  lemma MergedLoose(a: Arena, lo: int, k: nat)
    requires Loose(a) && TouchesWithin(a, lo, k)
    ensures var d := Merged(a, k);
            Loose(d) && FreeSet(d) == FreeSet(a) && SameLive(a, d) && TouchesWithin(d, lo, k - 1)
  {
    if Touching(a, k) {
      AbsorbedLoose(a, k);
      AbsorbedUnits(a, k);
      forall j ensures Touching(Merged(a, k), j) ==> lo <= j <= k - 1 {
        AbsorbedTouching(a, k, j);
      }
    }
  }

  lemma MayMerge(a: Arena, i: nat, b: int)
    requires Sound(a) && b in a.live && Gap(a.chain, i, b)
    ensures Loose(Inserted(a, i, b)) && TouchesWithin(Inserted(a, i, b), i, i + 1)
    ensures Loose(Merged(Inserted(a, i, b), i + 1))
  {
    InsertedLoose(a, i, b);
    forall j ensures Touching(Inserted(a, i, b), j) ==> i <= j <= i + 1 {
      InsertedTouching(a, i, b, j);
    }
    MergedLoose(Inserted(a, i, b), i, i + 1);
  }

  /** The effect of free on the block b that belongs behind block i: linked in, then merged
      with its successor if they touch, then with its predecessor if they touch. */
  ghost function Freed(a: Arena, i: nat, b: int): Arena
    requires Sound(a) && b in a.live && Gap(a.chain, i, b)
  {
    MayMerge(a, i, b);
    Merged(Merged(Inserted(a, i, b), i + 1), i)
  }

  lemma NothingTouches(a: Arena, lo: int)
    requires Loose(a) && TouchesWithin(a, lo, lo - 1)
    ensures Sound(a)
  {
    forall k | 0 <= k < |a.chain| - 1 ensures Apart(a.size, a.chain, k) {
      assert !Touching(a, k);
    }
  }

  /** free keeps the heap sound ... */
  lemma FreedSound(a: Arena, i: nat, b: int)
    requires Sound(a) && b in a.live && Gap(a.chain, i, b)
    ensures Sound(Freed(a, i, b))
  {
    MayMerge(a, i, b);
    var a1 := Inserted(a, i, b);
    MergedLoose(a1, i, i + 1);
    var a2 := Merged(a1, i + 1);
    MergedLoose(a2, i, i);
    NothingTouches(Merged(a2, i), i);
  }

  /** ... and turns exactly the units of its block into free units. */
  lemma FreedUnits(a: Arena, i: nat, b: int)
    requires Sound(a) && b in a.live && Gap(a.chain, i, b)
    ensures var d := Freed(a, i, b);
            FreeSet(d) == FreeSet(a) + UnitsOf(a.owner, b) && SameLive(a.(live := a.live - {b}), d)
  {
    hide Loose, Merged, FreeSet, UnitsOf;
    InsertedLoose(a, i, b);
    MayMerge(a, i, b);
    var a1 := Inserted(a, i, b);
    MergedLoose(a1, i, i + 1);
    MergedLoose(Merged(a1, i + 1), i, i);
  }

  // ---- malloc ----

  ghost function Range(b: int, n: nat): (s: set<int>)
    ensures forall u :: u in s <==> b <= u < b + n
  {
    if n == 0 then {} else Range(b, n - 1) + {b + n - 1}
  }

  lemma UnitsOfBlock(a: Arena, b: int)
    requires Loose(a) && (b in a.live || b in a.chain)
    ensures b in a.size && a.size[b] >= 0 && UnitsOf(a.owner, b) == Range(b, a.size[b])
  {
    forall u ensures u in UnitsOf(a.owner, b) <==> u in Range(b, a.size[b]) {
      assert Holds(a.size, a.chain, a.live, b, u) <==> u in Range(b, a.size[b]);
    }
  }

  /** Block k leaves the list and is in use. */
  ghost function Taken(a: Arena, k: nat): Arena
    requires 0 < k < |a.chain| && a.chain[k] in a.ptr
  {
    Arena(a.ptr[a.chain[k - 1] := a.ptr[a.chain[k]]], a.size, Cut(a.chain, k), a.live + {a.chain[k]}, a.owner)
  }

  /** b is where the last n units of block k begin. */
  ghost predicate Tail(a: Arena, k: nat, n: int, b: int) {
    && k < |a.chain| && a.chain[k] in a.size && 0 < n < a.size[a.chain[k]]
    && b == a.chain[k] + a.size[a.chain[k]] - n
  }

  /** The last n units of block k become the block b in use. */
  ghost function Carved(a: Arena, k: nat, n: int, b: int): Arena
    requires Tail(a, k, n, b)
  {
    var p := a.chain[k];
    Arena(a.ptr, a.size[p := a.size[p] - n][b := n], a.chain, a.live + {b}, Reassign(a.owner, p, b))
  }

  ghost function Reassign(owner: map<int, int>, p: int, b: int): (m: map<int, int>)
    ensures m.Keys == owner.Keys
    ensures forall u :: u in owner ==> m[u] == if owner[u] == p && b <= u then b else owner[u]
  {
    map u | u in owner :: if owner[u] == p && b <= u then b else owner[u]
  }

  /** d is a with b a new block in use of n units that were free and that ended a run of free
      units; the blocks in use before are untouched. */
  ghost predicate Served(a: Arena, b: int, n: nat, d: Arena) {
    && Sound(d) && b !in a.live && d.live == a.live + {b} && b in d.size && d.size[b] == n
    && Range(b, n) <= FreeSet(a) && FreeSet(d) == FreeSet(a) - Range(b, n) && b + n !in FreeSet(a)
    && d.owner.Keys == a.owner.Keys
    && forall x :: x in a.live && x in a.size ==> x in d.size && d.size[x] == a.size[x]
  }

  /** The unit behind a free block is not free. */
  lemma EndsRun(a: Arena, k: nat)
    requires Sound(a) && k < |a.chain|
    ensures a.chain[k] + a.size[a.chain[k]] !in FreeSet(a)
  {
    Ordered(a.size, a.chain);
    var u := a.chain[k] + a.size[a.chain[k]];
    forall m | 0 <= m < |a.chain| ensures !Holds(a.size, a.chain, a.live, a.chain[m], u) {
      if m > k {
        assert Apart(a.size, a.chain, k);
        assert a.chain[k + 1] <= a.chain[m];
      }
    }
    assert u in a.owner ==> Holds(a.size, a.chain, a.live, a.owner[u], u);
  }

  lemma CutCoalesced(size: map<int, int>, c: seq<int>, k: nat)
    requires Ascending(size, c) && Coalesced(size, c) && 0 < k < |c|
    ensures Ascending(size, Cut(c, k)) && Coalesced(size, Cut(c, k))
  {
    Ordered(size, c);
    var d := Cut(c, k);
    forall j | 0 <= j < |d| - 1 ensures Apart(size, d, j) {
      assert Apart(size, c, if j < k then j else j + 1);
    }
  }

  lemma TakePartitioned(size: map<int, int>, c: seq<int>, live: set<int>, owner: map<int, int>, k: nat)
    requires Ascending(size, c) && 0 < k < |c| && Partitioned(size, c, live, owner)
    ensures Partitioned(size, Cut(c, k), live + {c[k]}, owner)
  {
    Ordered(size, c);
    var p, d := c[k], Cut(c, k);
    forall x ensures x in d <==> x in c && x != p {
      CutMembers(c, k, x);
    }
    assert p !in live && c[0] < p;
    forall x, u ensures Holds(size, d, live + {p}, x, u) <==> Holds(size, c, live, x, u) {
    }
  }

  lemma TakenSound(a: Arena, k: nat)
    requires Sound(a) && 0 < k < |a.chain|
    ensures a.chain[k] in a.ptr && Sound(Taken(a, k))
  {
    assert Link(a.ptr, a.chain, k);
    AbsorbCycle(a.ptr, a.size, a.chain, k - 1);
    CutCoalesced(a.size, a.chain, k);
    TakePartitioned(a.size, a.chain, a.live, a.owner, k);
  }

  /** Block k, at b, holds exactly n units. */
  ghost predicate Exactly(a: Arena, k: nat, n: nat, b: int) {
    0 < k < |a.chain| && b == a.chain[k] && b in a.ptr && b in a.size && a.size[b] == n
  }

  lemma TakenFree(a: Arena, k: nat, n: nat, b: int)
    requires Sound(a) && Exactly(a, k, n, b)
    ensures b !in a.live && Range(b, n) <= FreeSet(a) && FreeSet(Taken(a, k)) == FreeSet(a) - Range(b, n)
    ensures b + n !in FreeSet(a)
  {
    UnitsOfBlock(a, b);
    EndsRun(a, k);
    assert b + n == a.chain[k] + a.size[a.chain[k]];
    assert b !in a.live;
    assert FreeSet(Taken(a, k)) == FreeSet(a) - UnitsOf(a.owner, b);
  }

  lemma TakenServed(a: Arena, k: nat, n: nat, b: int)
    requires Sound(a) && Exactly(a, k, n, b)
    ensures Served(a, b, n, Taken(a, k))
  {
    TakenSound(a, k);
    TakenFree(a, k, n, b);
  }

  lemma CarvedPartitioned(a: Arena, k: nat, n: int, b: int)
    requires Sound(a) && Tail(a, k, n, b)
    ensures var d := Carved(a, k, n, b); Partitioned(d.size, d.chain, d.live, d.owner)
    ensures b !in a.live && b !in a.chain
  {
    Ordered(a.size, a.chain);
    var p := a.chain[k];
    var d := Carved(a, k, n, b);
    assert Holds(a.size, a.chain, a.live, p, b);
    assert !Holds(a.size, a.chain, a.live, b, b);
    assert p !in a.live;
    forall x, u
      ensures Holds(d.size, d.chain, d.live, x, u) <==>
                if x == b then Holds(a.size, a.chain, a.live, p, u) && b <= u
                else Holds(a.size, a.chain, a.live, x, u) && (x == p ==> u < b)
    {
    }
    forall u | u in d.owner ensures Holds(d.size, d.chain, d.live, d.owner[u], u) {
      assert Holds(a.size, a.chain, a.live, a.owner[u], u);
    }
  }

  lemma CarveList(size: map<int, int>, c: seq<int>, k: nat, n: int, b: int)
    requires Ascending(size, c) && Coalesced(size, c) && k < |c| && 0 < n < size[c[k]] && b !in c
    ensures var t := size[c[k] := size[c[k]] - n][b := n]; Ascending(t, c) && Coalesced(t, c)
  {
    Ordered(size, c);
    var t := size[c[k] := size[c[k]] - n][b := n];
    forall j | 0 <= j < |c|
      ensures c[j] != b && c[j] in t && t[c[j]] == (if j == k then size[c[k]] - n else size[c[j]])
    {
      assert c[j] in c;
    }
    forall j | 0 <= j < |c| - 1 ensures Apart(t, c, j) {
      assert Apart(size, c, j);
    }
  }

  lemma CarvedFree(a: Arena, k: nat, n: int, b: int)
    requires Sound(a) && Tail(a, k, n, b)
    ensures Range(b, n) <= FreeSet(a) && FreeSet(Carved(a, k, n, b)) == FreeSet(a) - Range(b, n)
  {
    var p, d := a.chain[k], Carved(a, k, n, b);
    CarvedPartitioned(a, k, n, b);
    UnitsOfBlock(a, p);
    assert p !in a.live;
    forall u ensures u in Range(b, n) ==> u in FreeSet(a) {
      assert u in UnitsOf(a.owner, p) <==> u in Range(p, a.size[p]);
    }
    forall u ensures u in FreeSet(d) <==> u in FreeSet(a) && u !in Range(b, n) {
      assert u in UnitsOf(a.owner, p) <==> u in Range(p, a.size[p]);
    }
  }

  lemma CarvedSound(a: Arena, k: nat, n: int, b: int)
    requires Sound(a) && Tail(a, k, n, b)
    ensures Sound(Carved(a, k, n, b))
  {
    var d := Carved(a, k, n, b);
    CarvedPartitioned(a, k, n, b);
    CarveList(a.size, a.chain, k, n, b);
    assert d.size == a.size[a.chain[k] := a.size[a.chain[k]] - n][b := n];
    Together(d);
  }

  lemma Together(a: Arena)
    requires a.chain != [] && Cycle(a.ptr, a.chain) && Ascending(a.size, a.chain) && Coalesced(a.size, a.chain)
    requires Partitioned(a.size, a.chain, a.live, a.owner)
    ensures Sound(a)
  {
  }

  lemma CarvedLive(a: Arena, k: nat, n: int, b: int)
    requires Sound(a) && Tail(a, k, n, b)
    ensures b !in a.live && b + n !in FreeSet(a)
    ensures var d := Carved(a, k, n, b);
            forall x :: x in a.live && x in a.size ==> x in d.size && d.size[x] == a.size[x]
  {
    CarvedPartitioned(a, k, n, b);
    EndsRun(a, k);
    assert b + n == a.chain[k] + a.size[a.chain[k]];
    assert a.chain[k] !in a.live;
  }

  lemma CarvedServed(a: Arena, k: nat, n: int, b: int)
    requires Sound(a) && Tail(a, k, n, b)
    ensures Served(a, b, n, Carved(a, k, n, b))
  {
    CarvedSound(a, k, n, b);
    CarvedFree(a, k, n, b);
    CarvedLive(a, k, n, b);
  }

  // ---- morecore ----

  /** nu units from sbrk at g: new, and above the base. */
  ghost predicate Fresh(a: Arena, g: int, nu: nat) {
    nu > 0 && a.chain != [] && a.chain[0] < g && Range(g, nu) !! a.owner.Keys
  }

  /** The new units as one block in use, which morecore then frees. */
  ghost function Granted(a: Arena, g: int, nu: nat): Arena {
    a.(size := a.size[g := nu], live := a.live + {g}, owner := a.owner + map u | u in Range(g, nu) :: g)
  }

  lemma GrantedPartitioned(a: Arena, g: int, nu: nat)
    requires Sound(a) && Fresh(a, g, nu)
    ensures g !in a.live && g !in a.chain
    ensures var d := Granted(a, g, nu); Partitioned(d.size, d.chain, d.live, d.owner)
  {
    var d := Granted(a, g, nu);
    assert g in Range(g, nu);
    assert !Holds(a.size, a.chain, a.live, g, g);
    forall x, u
      ensures Holds(d.size, d.chain, d.live, x, u) <==>
                if x == g then u in Range(g, nu) else Holds(a.size, a.chain, a.live, x, u)
    {
    }
    forall u | u in d.owner ensures Holds(d.size, d.chain, d.live, d.owner[u], u) {
      assert u in a.owner ==> Holds(a.size, a.chain, a.live, a.owner[u], u);
    }
  }

  lemma GrantedUnits(a: Arena, g: int, nu: nat)
    requires Sound(a) && Fresh(a, g, nu)
    ensures FreeSet(Granted(a, g, nu)) == FreeSet(a) && UnitsOf(Granted(a, g, nu).owner, g) == Range(g, nu)
  {
    var d := Granted(a, g, nu);
    GrantedPartitioned(a, g, nu);
    forall u | u in a.owner ensures a.owner[u] != g && u !in Range(g, nu) {
      assert Holds(a.size, a.chain, a.live, a.owner[u], u);
    }
    forall u ensures u in d.owner <==> u in a.owner || u in Range(g, nu) {
    }
    forall u | u in d.owner ensures d.owner[u] == if u in Range(g, nu) then g else a.owner[u] {
    }
  }

  lemma GrantedSound(a: Arena, g: int, nu: nat)
    requires Sound(a) && Fresh(a, g, nu)
    ensures Sound(Granted(a, g, nu))
  {
    GrantedPartitioned(a, g, nu);
    var d := Granted(a, g, nu);
    forall k | 0 <= k < |a.chain| ensures d.chain[k] in d.size && d.size[d.chain[k]] == a.size[a.chain[k]] {
      assert a.chain[k] in a.chain;
    }
    forall i, j | 0 <= i < j < |a.chain| ensures Below(d.size, d.chain, i, j) {
      assert Below(a.size, a.chain, i, j);
    }
    forall k | 0 <= k < |a.chain| - 1 ensures Apart(d.size, d.chain, k) {
      assert Apart(a.size, a.chain, k);
    }
    Together(d);
  }

  // ---- the list is determined by the free units ----

  /** A run of free units lies in one block of the list. */
  lemma RunInOneBlock(a: Arena, g: int, n: nat) returns (k: nat)
    requires Sound(a) && n > 0 && Range(g, n) <= FreeSet(a)
    ensures k < |a.chain| && a.chain[k] <= g && g + n <= a.chain[k] + a.size[a.chain[k]]
  {
    assert g in Range(g, n);
    assert Holds(a.size, a.chain, a.live, a.owner[g], g);
    k :| 0 <= k < |a.chain| && a.chain[k] == a.owner[g];
    EndsRun(a, k);
    assert a.chain[k] + a.size[a.chain[k]] !in Range(g, n);
  }

  ghost predicate SomeFits(a: Arena, n: int) {
    exists k :: 0 <= k < |a.chain| && a.chain[k] in a.size && a.size[a.chain[k]] >= n
  }

  ghost predicate RunFree(a: Arena, n: nat) {
    exists g :: Range(g, n) <= FreeSet(a)
  }

  /** A block of n units is on the list if and only if n consecutive units are free. */
  lemma FitsIffRun(a: Arena, n: nat)
    requires Sound(a) && n > 0
    ensures SomeFits(a, n) <==> RunFree(a, n)
  {
    if SomeFits(a, n) {
      var k :| 0 <= k < |a.chain| && a.chain[k] in a.size && a.size[a.chain[k]] >= n;
      UnitsOfBlock(a, a.chain[k]);
      assert a.chain[k] !in a.live;
      forall u | u in Range(a.chain[k], n) ensures u in FreeSet(a) {
        assert u in UnitsOf(a.owner, a.chain[k]);
      }
      assert Range(a.chain[k], n) <= FreeSet(a);
    }
    if RunFree(a, n) {
      var g :| Range(g, n) <= FreeSet(a);
      var k := RunInOneBlock(a, g, n);
    }
  }

  lemma FreeBlock(a: Arena, k: nat)
    requires Sound(a) && 0 < k < |a.chain|
    ensures a.size[a.chain[k]] > 0 && Range(a.chain[k], a.size[a.chain[k]]) <= FreeSet(a)
  {
    UnitsOfBlock(a, a.chain[k]);
    assert a.chain[k] !in a.live;
    forall u | u in Range(a.chain[k], a.size[a.chain[k]]) ensures u in FreeSet(a) {
      assert u in UnitsOf(a.owner, a.chain[k]);
    }
  }

  ghost predicate Agree(a: Arena, d: Arena, k: nat)
    requires Sound(a) && Sound(d) && k <= |a.chain| && k <= |d.chain|
  {
    forall j :: 0 <= j < k ==> a.chain[j] == d.chain[j] && a.size[a.chain[j]] == d.size[d.chain[j]]
  }

  lemma NextBlock(a: Arena, d: Arena, k: nat)
    requires Sound(a) && Sound(d) && FreeSet(a) == FreeSet(d) && 0 < k < |a.chain| && k <= |d.chain| && Agree(a, d, k)
    ensures k < |d.chain| && d.chain[k] <= a.chain[k]
    ensures d.chain[k] == a.chain[k] ==> a.size[a.chain[k]] <= d.size[d.chain[k]]
  {
    FreeBlock(a, k);
    var m := RunInOneBlock(d, a.chain[k], a.size[a.chain[k]]);
    forall j | 0 <= j < k ensures d.chain[j] + d.size[d.chain[j]] <= a.chain[k] {
      assert Below(a.size, a.chain, j, k);
    }
    assert m >= k;
    assert m > k ==> Below(d.size, d.chain, k, m);
  }

  lemma {:induction false} ListsAgree(a: Arena, d: Arena, k: nat)
    requires Sound(a) && Sound(d) && a.chain[0] == d.chain[0] && FreeSet(a) == FreeSet(d) && k <= |a.chain|
    ensures k <= |d.chain| && Agree(a, d, k)
  {
    if k > 1 {
      ListsAgree(a, d, k - 1);
      NextBlock(a, d, k - 1);
      NextBlock(d, a, k - 1);
    }
  }

  /** Two heaps over the same base with the same free units have the same free list: what
      free and malloc leave behind depends only on which units are free. */
  lemma Canonical(a: Arena, d: Arena)
    requires Sound(a) && Sound(d) && a.chain[0] == d.chain[0] && FreeSet(a) == FreeSet(d)
    ensures a.chain == d.chain && forall b :: b in a.chain ==> b in a.size && b in d.size && a.size[b] == d.size[b]
  {
    ListsAgree(a, d, |a.chain|);
    ListsAgree(d, a, |d.chain|);
  }

  // ---- conservation ----

  ghost predicate Sized(size: map<int, int>, c: seq<int>) {
    forall k :: 0 <= k < |c| ==> c[k] in size
  }

  ghost function Total(size: map<int, int>, s: seq<int>): int
    requires Sized(size, s)
  {
    if s == [] then 0 else Total(size, s[..|s| - 1]) + size[s[|s| - 1]]
  }

  ghost function Covered(owner: map<int, int>, s: seq<int>): (c: set<int>)
    ensures forall u :: u in c <==> u in owner && owner[u] in s
  {
    set u | u in owner && owner[u] in s
  }

  lemma {:induction false} RangeSize(b: int, n: nat)
    ensures |Range(b, n)| == n
  {
    if n > 0 {
      RangeSize(b, n - 1);
    }
  }

  lemma TwoParts(keys: set<int>, free: set<int>, used: set<int>)
    requires free !! used && keys <= free + used && free <= keys && used <= keys
    ensures |keys| == |free| + |used|
  {
    assert keys == free + used;
  }

  lemma BlockUnits(a: Arena, b: int)
    requires Loose(a) && (b in a.live || b in a.chain)
    ensures b in a.size && |UnitsOf(a.owner, b)| == a.size[b]
  {
    UnitsOfBlock(a, b);
    RangeSize(b, a.size[b]);
  }

  lemma CoveredSplit(owner: map<int, int>, s: seq<int>, n: nat)
    requires Distinct(s) && |s| == n + 1
    ensures |Covered(owner, s)| == |Covered(owner, s[..n])| + |UnitsOf(owner, s[n])|
  {
    forall x ensures x in s <==> x in s[..n] || x == s[n] {
      assert s == s[..n] + [s[n]];
    }
    TwoParts(Covered(owner, s), Covered(owner, s[..n]), UnitsOf(owner, s[n]));
  }

  lemma {:induction false} TotalCovered(a: Arena, s: seq<int>)
    requires Loose(a) && Distinct(s) && Sized(a.size, s) && forall b :: b in s ==> b in a.live || b in a.chain
    ensures |Covered(a.owner, s)| == Total(a.size, s)
    decreases |s|
  {
    if s != [] {
      var n := |s| - 1;
      TotalCovered(a, s[..n]);
      BlockUnits(a, s[n]);
      CoveredSplit(a.owner, s, n);
    } else {
      assert Covered(a.owner, s) == {};
    }
  }

  /** The sizes on the free list add up to the free units; together with the sizes of the
      blocks in use, to everything ever obtained from sbrk. */
  lemma Conservation(a: Arena, used: seq<int>)
    requires Sound(a) && Distinct(used) && forall b :: b in used <==> b in a.live
    ensures Sized(a.size, a.chain) && Sized(a.size, used)
    ensures Total(a.size, a.chain) == |FreeSet(a)|
    ensures Total(a.size, a.chain) + Total(a.size, used) == |a.owner.Keys|
  {
    NoRepeats(a.size, a.chain);
    TotalCovered(a, a.chain);
    TotalCovered(a, used);
    forall u | u in a.owner.Keys ensures u in Covered(a.owner, a.chain) + Covered(a.owner, used) {
      assert Holds(a.size, a.chain, a.live, a.owner[u], u);
      assert a.owner[u] in used || a.owner[u] in a.chain;
    }
    assert Covered(a.owner, a.chain) == FreeSet(a);
    TwoParts(a.owner.Keys, Covered(a.owner, a.chain), Covered(a.owner, used));
  }

  // ---- next fit ----

  /** The first block of at least n units among `steps` blocks from block i around the cycle. */
  ghost function FirstFit(size: map<int, int>, c: seq<int>, i: nat, steps: nat, n: int): (k: int)
    requires i < |c| && Sized(size, c)
    ensures k == -1 || (0 <= k < |c| && size[c[k]] >= n)
    decreases steps
  {
    if steps == 0 then -1
    else if size[c[i]] >= n then i
    else FirstFit(size, c, Next(|c|, i), steps - 1, n)
  }

  lemma {:induction false} FitFound(size: map<int, int>, c: seq<int>, i: nat, f: nat, n: int, m: nat)
    requires i < |c| && f < |c| && m < |c| && Sized(size, c)
    requires size[c[m]] >= n && Dist(|c|, i, m) <= Dist(|c|, i, f)
    ensures FirstFit(size, c, i, Dist(|c|, i, f) + 1, n) != -1
    decreases Dist(|c|, i, f)
  {
    if size[c[i]] < n {
      FitFound(size, c, Next(|c|, i), f, n, m);
      assert Dist(|c|, Next(|c|, i), f) == Dist(|c|, i, f) - 1;
    }
  }

  /** One turn around the cycle from the block after f finds a block if there is one. */
  lemma FullTurn(size: map<int, int>, c: seq<int>, f: nat, n: int)
    requires f < |c| && Sized(size, c)
    ensures FirstFit(size, c, Next(|c|, f), |c|, n) == -1 <==> forall k :: 0 <= k < |c| ==> size[c[k]] < n
  {
    var i := Next(|c|, f);
    assert Dist(|c|, i, f) == |c| - 1;
    forall k | 0 <= k < |c| ensures FirstFit(size, c, i, |c|, n) == -1 ==> size[c[k]] < n {
      if size[c[k]] >= n {
        FitFound(size, c, i, f, n, k);
      }
    }
  }

  /** The block the search of malloc settles on when freep is the block at `rover`. */
  ghost function NextFit(a: Arena, rover: int, n: int): (k: int)
    requires Sound(a) && rover in a.chain
    ensures k == -1 || (0 <= k < |a.chain| && a.size[a.chain[k]] >= n)
  {
    FirstFit(a.size, a.chain, Next(|a.chain|, Position(a.chain, rover)), |a.chain|, n)
  }

  /** It settles on a block exactly if enough consecutive units are free. */
  lemma NextFitIff(a: Arena, rover: int, n: nat)
    requires Sound(a) && rover in a.chain && n > 0
    ensures NextFit(a, rover, n) == -1 <==> !RunFree(a, n)
  {
    FullTurn(a.size, a.chain, Position(a.chain, rover), n);
    FitsIffRun(a, n);
  }

  lemma {:induction false} FirstIsNearest(size: map<int, int>, c: seq<int>, i: nat, steps: nat, n: int, j: nat)
    requires i < |c| && j < |c| && steps <= |c| && Sized(size, c) && FirstFit(size, c, i, steps, n) != -1
    requires Dist(|c|, i, j) < Dist(|c|, i, FirstFit(size, c, i, steps, n))
    ensures size[c[j]] < n
    decreases steps
  {
    if i != j {
      FirstWithin(size, c, Next(|c|, i), steps - 1, n);
      FirstIsNearest(size, c, Next(|c|, i), steps - 1, n, j);
    }
  }

  lemma {:induction false} FirstWithin(size: map<int, int>, c: seq<int>, i: nat, steps: nat, n: int)
    requires i < |c| && steps <= |c| && Sized(size, c) && FirstFit(size, c, i, steps, n) != -1
    ensures Dist(|c|, i, FirstFit(size, c, i, steps, n)) < steps
    decreases steps
  {
    if size[c[i]] < n {
      FirstWithin(size, c, Next(|c|, i), steps - 1, n);
    }
  }

  /** Next fit: of the blocks with room, the search settles on the nearest behind the rover,
      and on the rover itself only if no other has room. */
  lemma NextFitIsNearest(a: Arena, rover: int, n: nat, j: nat)
    requires Sound(a) && rover in a.chain && j < |a.chain| && a.size[a.chain[j]] >= n
    ensures NextFit(a, rover, n) != -1
    ensures var f := Next(|a.chain|, Position(a.chain, rover));
            Dist(|a.chain|, f, NextFit(a, rover, n)) <= Dist(|a.chain|, f, j)
  {
    var p := Position(a.chain, rover);
    FullTurn(a.size, a.chain, p, n);
    if Dist(|a.chain|, Next(|a.chain|, p), j) < Dist(|a.chain|, Next(|a.chain|, p), NextFit(a, rover, n)) {
      FirstIsNearest(a.size, a.chain, Next(|a.chain|, p), |a.chain|, n, j);
    }
  }
}
