/** malloc, free and morecore as they rewrite the headers. */
module Allocator {
  import opened Common
  import opened Heap
  import opened Sequences

  /** The header and enough units for nbytes, as unsigned 32-bit arithmetic rounds them. */
  function UnitsFor(nbytes: nat): (n: nat)
    ensures n >= 1
  {
    (nbytes + HEADER - 1) % WRAP / HEADER + 1
  }

  /** The units behind a block's header have room for nbytes unless the rounding wraps. */
  lemma RoomIff(nbytes: nat)
    requires nbytes < WRAP
    ensures HEADER * (UnitsFor(nbytes) - 1) >= nbytes <==> nbytes <= WRAP - HEADER
  {
  }

  /** Those are the fewest units whose bytes behind the header number at least nbytes; where the
      rounding wraps, it is the header alone. */
  lemma UnitsLeast(nbytes: nat, m: nat)
    requires nbytes < WRAP
    ensures var n := UnitsFor(nbytes);
            if nbytes <= WRAP - HEADER then n <= m <==> m >= 1 && HEADER * (m - 1) >= nbytes else n == 1
  {
  }

  /** What morecore asks sbrk for: n units, but at least CHUNK. */
  function Request(n: nat): (nu: nat)
    ensures nu >= n && nu >= CHUNK && (nu == n || nu == CHUNK)
  {
    if n < CHUNK then CHUNK else n
  }

  /** What the writes of free make of the header fields, for a block b behind p. */
  ghost function Spliced(ptr: map<int, int>, size: map<int, int>, p: int, b: int): (r: (map<int, int>, map<int, int>))
    requires p in ptr && p in size && b in size && ptr[p] in ptr && ptr[p] in size
  {
    var q := ptr[p];
    var (ptr1, size1) :=
      if b + size[b] == q then (ptr[b := ptr[q]], size[b := size[b] + size[q]]) else (ptr[b := q], size);
    if p + size1[p] == b then (ptr1[p := ptr1[b]], size1[p := size1[p] + size1[b]]) else (ptr1[p := b], size1)
  }

  /** The neighbours of b in the list. */
  lemma Neighbours(a: Arena, i: nat, b: int)
    requires Sound(a) && b in a.live && Gap(a.chain, i, b)
    ensures var p := a.chain[i];
            && p in a.ptr && p in a.size && b in a.size && a.ptr[p] in a.ptr && a.ptr[p] in a.size
            && a.ptr[p] == a.chain[Next(|a.chain|, i)] && b != p && b != a.ptr[p]
            && a.size[b] > 0 && p + a.size[p] <= b && p !in a.live
    ensures Next(|a.chain|, i) == 0 ==> a.ptr[a.chain[i]] < b
    ensures i + 1 < |a.chain| ==> a.ptr[a.chain[i]] != a.chain[i]
  {
    Ordered(a.size, a.chain);
    LiveFits(a.size, a.chain, a.live, a.owner, i, b);
    assert Link(a.ptr, a.chain, i);
    assert Link(a.ptr, a.chain, Next(|a.chain|, i));
    assert a.chain[i] in a.chain;
    assert a.chain[0] <= a.chain[i];
  }

  lemma MergesUp(a: Arena, i: nat, b: int)
    requires Sound(a) && b in a.live && Gap(a.chain, i, b)
    ensures Loose(Inserted(a, i, b))
    ensures a.chain[i] in a.ptr && b in a.size
    ensures Touching(Inserted(a, i, b), i + 1) <==> b + a.size[b] == a.ptr[a.chain[i]]
  {
    InsertedLoose(a, i, b);
    Neighbours(a, i, b);
    LiveFits(a.size, a.chain, a.live, a.owner, i, b);
  }

  lemma MergeWrites(a: Arena, k: nat)
    requires Loose(a) && k + 1 < |a.chain|
    ensures var p, b, d := a.chain[k], a.chain[k + 1], Merged(a, k);
            && p in a.size && b in a.size && b in a.ptr
            && (if p + a.size[p] == b then d.ptr == a.ptr[p := a.ptr[b]] && d.size == a.size[p := a.size[p] + a.size[b]]
                else d.ptr == a.ptr && d.size == a.size)
  {
    Ordered(a.size, a.chain);
    assert Link(a.ptr, a.chain, k + 1);
    assert a.chain[k] + a.size[a.chain[k]] <= a.chain[k + 1];
  }

  /** The first merge writes what the first half of free writes. */
  lemma FirstMerge(a: Arena, i: nat, b: int)
    requires Sound(a) && b in a.live && Gap(a.chain, i, b)
    ensures Loose(Inserted(a, i, b)) && Loose(Merged(Inserted(a, i, b), i + 1))
    ensures a.chain[i] in a.ptr && b in a.size && a.ptr[a.chain[i]] in a.ptr && a.ptr[a.chain[i]] in a.size
    ensures var d := Merged(Inserted(a, i, b), i + 1);
            var p := a.chain[i];
            var q := a.ptr[p];
            && i + 1 < |d.chain| && d.chain[i] == p && d.chain[i + 1] == b
            && (if b + a.size[b] == q then d.ptr == a.ptr[b := q][p := b][b := a.ptr[q]]
                 && d.size == a.size[b := a.size[b] + a.size[q]]
                else d.ptr == a.ptr[b := q][p := b] && d.size == a.size)
  {
    Neighbours(a, i, b);
    MayMerge(a, i, b);
    MergesUp(a, i, b);
    if i + 1 < |a.chain| {
      MergeWrites(Inserted(a, i, b), i + 1);
    }
  }

  lemma WriteTwice(m: map<int, int>, k: int, v: int, w: int)
    ensures m[k := v][k := w] == m[k := w]
  {
  }

  /** The two merges, one after the other, write what free writes. */
  lemma BothMerges(ptr: map<int, int>, size: map<int, int>, p: int, b: int,
                   ptr1: map<int, int>, size1: map<int, int>, ptr2: map<int, int>, size2: map<int, int>)
    requires p in ptr && p in size && b in size && ptr[p] in ptr && ptr[p] in size && p != b && ptr[p] != b
    requires var q := ptr[p];
             if b + size[b] == q then ptr1 == ptr[b := q][p := b][b := ptr[q]] && size1 == size[b := size[b] + size[q]]
             else ptr1 == ptr[b := q][p := b] && size1 == size
    requires if p + size1[p] == b then ptr2 == ptr1[p := ptr1[b]] && size2 == size1[p := size1[p] + size1[b]]
             else ptr2 == ptr1 && size2 == size1
    ensures Spliced(ptr, size, p, b) == (ptr2, size2)
  {
    var x := if b + size[b] == ptr[p] then ptr[ptr[p]] else ptr[p];
    assert ptr1 == ptr[b := x][p := b];
    WriteTwice(ptr[b := x], p, b, x);
  }

  lemma FreedFields(a: Arena, i: nat, b: int)
    requires Sound(a) && b in a.live && Gap(a.chain, i, b)
    ensures var p := a.chain[i];
            p in a.ptr && p in a.size && b in a.size && a.ptr[p] in a.ptr && a.ptr[p] in a.size
            && Spliced(a.ptr, a.size, p, b) == (Freed(a, i, b).ptr, Freed(a, i, b).size)
  {
    Neighbours(a, i, b);
    FirstMerge(a, i, b);
    var d := Merged(Inserted(a, i, b), i + 1);
    var e := Merged(d, i);
    MergeWrites(d, i);
    BothMerges(a.ptr, a.size, a.chain[i], b, d.ptr, d.size, e.ptr, e.size);
  }

  /** b has a place in the list. */
  lemma GapExists(c: seq<int>, b: int) returns (i: nat)
    requires c != [] && c[0] < b && b !in c
    ensures i < |c| && (forall k :: 0 <= k <= i ==> c[k] < b) && (i + 1 < |c| ==> b < c[i + 1])
  {
    i := 0;
    while i + 1 < |c| && c[i + 1] < b
      invariant i < |c| && forall k :: 0 <= k <= i ==> c[k] < b
    {
      i := i + 1;
    }
    assert i + 1 < |c| ==> c[i + 1] in c;
  }

  /** Before the first call there is no list; afterwards it is sound, and freep is on it. */
  ghost predicate Usable(a: Arena, base: int, freep: int) {
    && base > NIL
    && (freep == NIL ==> a.chain == [] && a.live == {} && a.owner == map[])
    && (freep != NIL ==> Sound(a) && a.chain[0] == base && freep in a.chain)
  }

  /** p is the last block of c below b. */
  ghost predicate LastBelow(c: seq<int>, b: int, p: int) {
    p in c && p < b && forall x :: x in c && x < b ==> x <= p
  }

  lemma GapLast(a: Arena, i: nat, b: int)
    requires Sound(a) && Gap(a.chain, i, b)
    ensures LastBelow(a.chain, b, a.chain[i])
  {
    forall j | 0 <= j < |a.chain| && a.chain[j] < b ensures a.chain[j] <= a.chain[i] {
      assert j < i ==> Below(a.size, a.chain, j, i);
      assert i + 1 < j ==> Below(a.size, a.chain, i + 1, j);
    }
  }

  class Umalloc {
    const base: int
    var ptr: map<int, int>
    var size: map<int, int>
    var freep: int
    ghost var heap: Arena

    ghost predicate Valid()
      reads this
    {
      heap.ptr == ptr && heap.size == size && Usable(heap, base, freep)
    }

    constructor (base: int)
      requires base > NIL
      ensures Valid() && this.base == base && freep == NIL
    {
      this.base := base;
      ptr, size, freep, heap := map[], map[], NIL, Arena(map[], map[], [], {}, map[]);
    }

    /** The search of free, from freep once around at most: the block behind which b belongs. */
    method FindPlace(b: int) returns (p: int, ghost i: nat)
      requires Valid() && b in heap.live
      ensures Gap(heap.chain, i, b) && p == heap.chain[i]
    {
      ghost var c := heap.chain;
      Ordered(heap.size, c);
      assert c[0] < b && b !in c;
      i := GapExists(c, b);
      p := freep;
      ghost var j: nat := Position(c, freep);
      LinkAt(heap, j);
      while !(b > p && b < ptr[p])
        invariant j < |c| && p == c[j] && p in ptr && ptr[p] == c[Next(|c|, j)]
        decreases Dist(|c|, j, i)
      {
        if p >= ptr[p] && (b > p || b < ptr[p]) {
          break;
        }
        p := ptr[p];
        j := Next(|c|, j);
        LinkAt(heap, j);
      }
      i := j;
    }

    /** free, of a pointer that malloc returned: exactly the units of its block become free. */
    method Free(ap: int)
      requires Valid() && ap - 1 in heap.live
      modifies this`ptr, this`size, this`freep, this`heap
      ensures Valid() && freep != NIL && Released(old(heap), ap - 1, heap)
      ensures LastBelow(old(heap).chain, ap - 1, freep)
    {
      var b := ap - 1;
      var p, i := FindPlace(b);
      FreedReleases(heap, i, b);
      FreedUsable(heap, i, b);
      FreedFields(heap, i, b);
      GapLast(heap, i, b);
      LinkIn(p, b);
      heap := Freed(heap, i, b);
      freep := p;
    }

    /** The writes of free once the place is found. */
    method LinkIn(p: int, b: int)
      requires p in ptr && p in size && b in size && ptr[p] in ptr && ptr[p] in size
      modifies this`ptr, this`size
      ensures (ptr, size) == old(Spliced(ptr, size, p, b))
    {
      var q := ptr[p];
      if b + size[b] == q {
        size := size[b := size[b] + size[q]];
        ptr := ptr[b := ptr[q]];
      } else {
        ptr := ptr[b := q];
      }
      if p + size[p] == b {
        size := size[p := size[p] + size[b]];
        ptr := ptr[p := ptr[b]];
      } else {
        ptr := ptr[p := b];
      }
    }

    /** morecore, where sbrk yields the address `grant`, if any. */
    method Morecore(n: nat, grant: Option<int>) returns (p: int)
      requires Valid() && freep != NIL
      requires grant.Some? ==> Fresh(heap, grant.value, Request(n))
      modifies this`ptr, this`size, this`freep, this`heap
      ensures Valid() && freep != NIL
      ensures grant.None? ==> p == NIL && heap == old(heap) && freep == old(freep)
      ensures grant.Some? ==> p == freep && Grown(old(heap), Range(grant.value, Request(n)), heap)
    {
      var nu := if n < CHUNK then CHUNK else n;
      if grant.None? {
        return NIL;
      }
      var hp := grant.value;
      ghost var a := heap;
      GrantedSound(heap, hp, nu);
      size := size[hp := nu];
      heap := Granted(heap, hp, nu);
      Free(hp + 1);
      GrantedGrows(a, hp, nu, heap);
      p := freep;
    }

    /** The list of the base alone, as the first call of malloc makes it. */
    method Start()
      requires Valid() && freep == NIL
      modifies this`ptr, this`size, this`freep, this`heap
      ensures Valid() && freep == base && heap == Started(old(heap), base)
    {
      StartedSound(heap, base);
      ptr, size := ptr[base := base], size[base := 0];
      freep := base;
      heap := Started(heap, base);
    }

    /** The search of malloc: once around from freep, and once more after morecore. */
    method Search(n: nat, grant: Option<int>) returns (prevp: int, p: int, ghost i: nat)
      requires Valid() && freep != NIL && 0 < n
      requires grant.Some? ==> Fresh(heap, grant.value, Request(n))
      modifies this`ptr, this`size, this`freep, this`heap
      ensures Valid() && freep != NIL
      ensures p == NIL ==> Failed(old(heap), old(freep), grant, n) && heap == old(heap)
      ensures p != NIL ==> Settled(old(heap), old(freep), grant, n, heap, i)
      ensures p != NIL ==> p == heap.chain[i] && prevp == heap.chain[i - 1]
    {
      ghost var a, rover, grown := heap, freep, false;
      prevp := freep;
      ghost var f := SearchStart(heap, freep, n);
      p := ptr[prevp];
      ghost var j: nat := f;
      i := Next(|heap.chain|, f);
      while size[p] < n
        invariant Valid() && freep != NIL && Searching(heap, freep, f, i, n)
        invariant p == heap.chain[i] && p in size
        invariant j < |heap.chain| && prevp == heap.chain[j] && i == Next(|heap.chain|, j)
        invariant !grown ==> heap == a && freep == rover
        invariant grown ==> Refilled(a, rover, grant, n, heap, freep)
        decreases !grown, Dist(|heap.chain|, i, f)
      {
        SearchVisit(heap, freep, f, i, n);
        if p == freep {
          p := Morecore(n, grant);
          if p == NIL {
            return;
          }
          grown := true;
          f := Restart(a, rover, grant, n, heap, freep);
          i := f;
        }
        prevp, p := p, ptr[p];
        i, j := Next(|heap.chain|, i), i;
      }
      SearchHit(heap, freep, f, i, n);
    }

    /** malloc, where sbrk would yield the address `grant`, if any. */
    method Malloc(nbytes: nat, grant: Option<int>) returns (ap: int, ghost h: Arena, ghost n: nat)
      requires Valid() && nbytes < WRAP
      requires grant.Some? ==> Fresh(Started(heap, base), grant.value, Request(UnitsFor(nbytes)))
      modifies this`ptr, this`size, this`freep, this`heap
      ensures Valid()
      ensures Outcome(Started(old(heap), base), if old(freep) == NIL then base else old(freep),
                      grant, n, Block(ap), h, heap)
      ensures ap != NIL ==> Precedes(h, freep, ap - 1)
      ensures n == UnitsFor(nbytes)
      ensures nbytes <= WRAP - HEADER ==>
                HEADER * (n - 1) >= nbytes && if nbytes == 0 then n == 1 else HEADER * (n - 2) < nbytes
      ensures nbytes > WRAP - HEADER ==> n == 1
      ensures ap != NIL ==> ap - 1 in size && size[ap - 1] == n
      ensures ap == NIL <==> grant.None? && !RunFree(Started(old(heap), base), n)
    {
      hide Outcome, Precedes, RunFree, Sound;
      var nunits := (nbytes + HEADER - 1) % WRAP / HEADER + 1;
      n := nunits;
      ghost var a, rover := Started(heap, base), if freep == NIL then base else freep;
      if freep == NIL {
        Start();
      }
      assert heap == a && freep == rover;
      ap, h := Allocate(nunits, grant);
      OutcomeMeans(a, rover, grant, n, Block(ap), h, heap);
    }

    /** malloc once there is a list. */
    method Allocate(n: nat, grant: Option<int>) returns (ap: int, ghost h: Arena)
      requires Valid() && freep != NIL && 0 < n
      requires grant.Some? ==> Fresh(heap, grant.value, Request(n))
      modifies this`ptr, this`size, this`freep, this`heap
      ensures Valid() && Outcome(old(heap), old(freep), grant, n, Block(ap), h, heap)
      ensures ap != NIL ==> Precedes(h, freep, ap - 1)
    {
      ghost var a, rover := heap, freep;
      var prevp, p, i := Search(n, grant);
      h := heap;
      if p == NIL {
        OutcomeFailed(a, rover, grant, n);
        return NIL, h;
      }
      p := Serve(prevp, p, n, i, a, rover, grant);
      ap := p + 1;
      assert Block(ap) == Some(p);
    }

    /** The allocation in malloc: block i of the list, at p, serves n units. */
    method Serve(prevp: int, p: int, n: nat, ghost i: nat, ghost a: Arena, ghost rover: int, ghost grant: Option<int>)
      returns (b: int)
      requires Valid() && freep != NIL && Settled(a, rover, grant, n, heap, i) && 0 < n
      requires p == heap.chain[i] && prevp == heap.chain[i - 1]
      modifies this`ptr, this`size, this`freep, this`heap
      ensures Valid() && b != NIL - 1 && Outcome(a, rover, grant, n, Some(b), old(heap), heap)
      ensures Precedes(old(heap), freep, b)
    {
      hide Outcome, Precedes, Sound, Grown, NextFit;
      b := Take(prevp, p, n, i);
      ghost var d := TookAll(a, rover, grant, n, heap, i, b);
      heap := d;
      freep := prevp;
    }

    /** The block is taken off the list if it has n units, else cut off its end. */
    method Take(prevp: int, p: int, n: nat, ghost k: nat) returns (b: int)
      requires heap.ptr == ptr && heap.size == size
      requires 0 < k < |heap.chain| && p == heap.chain[k] && prevp == heap.chain[k - 1]
      requires p in ptr && p in size && 0 < n <= size[p]
      modifies this`ptr, this`size
      ensures Suffix(heap, k, n, b) && Took(heap, k, n, b).ptr == ptr && Took(heap, k, n, b).size == size
    {
      b := p;
      if size[p] == n {
        ptr := ptr[prevp := ptr[p]];
      } else {
        size := size[p := size[p] - n];
        b := b + size[p];
        size := size[b := n];
      }
    }
  }

  /** The heap malloc works on: before the first call it makes the base the only block. */
  ghost function Started(a: Arena, base: int): Arena {
    if a.chain == [] then Arena(a.ptr[base := base], a.size[base := 0], [base], a.live, a.owner) else a
  }

  lemma StartedSound(a: Arena, base: int)
    requires a.chain == [] && a.live == {} && a.owner == map[]
    ensures Sound(Started(a, base)) && !SomeFits(Started(a, base), 1)
  {
    var d := Started(a, base);
    assert Link(d.ptr, d.chain, 0);
    forall b, u ensures !Holds(d.size, d.chain, d.live, b, u) {
    }
  }

  ghost predicate Failed(a: Arena, rover: int, grant: Option<int>, n: nat) {
    Sound(a) && rover in a.chain && NextFit(a, rover, n) == -1 && grant.None?
  }

  /** The search settles on block i of h: the next fit in a, or, if a has none and sbrk
      yields more units, a block of a grown by them. */
  ghost predicate Settled(a: Arena, rover: int, grant: Option<int>, n: nat, h: Arena, i: nat) {
    && Sound(a) && rover in a.chain && Sound(h) && 0 < i < |h.chain|
    && h.chain[i] in h.ptr && h.chain[i] in h.size && h.size[h.chain[i]] >= n
    && (if NextFit(a, rover, n) != -1 then h == a && i == NextFit(a, rover, n)
        else grant.Some? && Grown(a, Range(grant.value, Request(n)), h))
  }

  /** The block behind a pointer malloc returned. */
  function Block(ap: int): Option<int> {
    if ap == NIL then None else Some(ap - 1)
  }

  /** What malloc does, in terms of units: it fails exactly if no run of n free units exists
      and sbrk fails, and then changes nothing; otherwise it serves a block from h, which is
      a, or a with the new units if a has no such run. In the first case the block is part
      of the block next fit settles on. */
  ghost predicate Outcome(a: Arena, rover: int, grant: Option<int>, n: nat, r: Option<int>, h: Arena, d: Arena) {
    match r
    case None => grant.None? && !RunFree(a, n) && d == a
    case Some(b) =>
      Served(h, b, n, d)
      && if RunFree(a, n) then h == a && FromNextFit(a, rover, n, b)
         else grant.Some? && Grown(a, Range(grant.value, Request(n)), h)
  }

  lemma OutcomeMeans(a: Arena, rover: int, grant: Option<int>, n: nat, r: Option<int>, h: Arena, d: Arena)
    requires Outcome(a, rover, grant, n, r, h, d)
    ensures r.None? <==> grant.None? && !RunFree(a, n)
    ensures r.Some? ==> r.value in d.size && d.size[r.value] == n
  {
  }

  /** h is the heap a after morecore, with a block to find. */
  ghost predicate Refilled(a: Arena, rover: int, grant: Option<int>, n: nat, h: Arena, freep: int) {
    && Failed(a, rover, None, n) && grant.Some? && Grown(a, Range(grant.value, Request(n)), h)
    && freep in h.chain && NextFit(h, freep, n) != -1
  }

  lemma OutcomeFailed(a: Arena, rover: int, grant: Option<int>, n: nat)
    requires Failed(a, rover, grant, n) && 0 < n
    ensures Outcome(a, rover, grant, n, None, a, a)
  {
    NextFitIff(a, rover, n);
  }

  lemma OutcomeServed(a: Arena, rover: int, grant: Option<int>, n: nat, h: Arena, i: nat, b: int)
    requires Settled(a, rover, grant, n, h, i) && 0 < n && Suffix(h, i, n, b)
    ensures Outcome(a, rover, grant, n, Some(b), h, Took(h, i, n, b))
  {
    TookServed(h, i, n, b);
    NextFitIff(a, rover, n);
    assert Holds(h.size, h.chain, h.live, h.chain[i], b);
  }

  /** The list leads from the block p to the block the unit b was cut from. */
  ghost predicate Precedes(a: Arena, p: int, b: int) {
    p in a.chain && p in a.ptr && b in a.owner && a.ptr[p] == a.owner[b]
  }

  lemma TookPrecedes(a: Arena, k: nat, n: nat, b: int)
    requires Sound(a) && Suffix(a, k, n, b)
    ensures Precedes(a, a.chain[k - 1], b)
  {
    assert Link(a.ptr, a.chain, k - 1);
    assert Holds(a.size, a.chain, a.live, a.chain[k], b);
  }

  /** The units from b come from the block next fit settles on. */
  ghost predicate FromNextFit(a: Arena, rover: int, n: nat, b: int) {
    && Sound(a) && rover in a.chain && NextFit(a, rover, n) != -1
    && b in a.owner && a.owner[b] == a.chain[NextFit(a, rover, n)]
  }

  /** The search has come to block i without passing the block it must settle on. */
  ghost predicate Searching(a: Arena, rover: int, f: nat, i: nat, n: int) {
    && Sound(a) && f < |a.chain| && i < |a.chain| && a.chain[f] == rover
    && FirstFit(a.size, a.chain, i, Dist(|a.chain|, i, f) + 1, n) == NextFit(a, rover, n)
  }

  lemma SearchStart(a: Arena, rover: int, n: int) returns (f: nat)
    requires Sound(a) && rover in a.chain
    ensures f < |a.chain| && Searching(a, rover, f, Next(|a.chain|, f), n)
    ensures a.chain[f] in a.ptr && a.ptr[a.chain[f]] == a.chain[Next(|a.chain|, f)]
    ensures a.chain[Next(|a.chain|, f)] in a.size
  {
    f := Position(a.chain, rover);
    LinkAt(a, f);
  }

  lemma SearchVisit(a: Arena, rover: int, f: nat, i: nat, n: int)
    requires Searching(a, rover, f, i, n) && a.chain[i] in a.size && a.size[a.chain[i]] < n
    ensures a.chain[i] == rover ==> NextFit(a, rover, n) == -1
    ensures a.chain[i] != rover ==>
              && Searching(a, rover, f, Next(|a.chain|, i), n)
              && Dist(|a.chain|, Next(|a.chain|, i), f) < Dist(|a.chain|, i, f)
    ensures a.chain[i] in a.ptr && a.ptr[a.chain[i]] == a.chain[Next(|a.chain|, i)]
    ensures a.chain[Next(|a.chain|, i)] in a.size
  {
    LinkAt(a, i);
    assert i < f ==> Below(a.size, a.chain, i, f);
    assert f < i ==> Below(a.size, a.chain, f, i);
    var j := Next(|a.chain|, i);
    assert FirstFit(a.size, a.chain, j, 0, n) == -1;
    assert NextFit(a, rover, n) == FirstFit(a.size, a.chain, j, Dist(|a.chain|, i, f), n);
  }

  lemma SearchHit(a: Arena, rover: int, f: nat, i: nat, n: int)
    requires Searching(a, rover, f, i, n) && a.chain[i] in a.size && a.size[a.chain[i]] >= n && n > 0
    ensures NextFit(a, rover, n) == i && i > 0 && a.chain[i] in a.ptr && a.chain[0] < a.chain[i]
  {
    assert i > 0 ==> Below(a.size, a.chain, 0, i);
    LinkAt(a, i);
  }

  /** After morecore the search starts over, and this time there is a block to find. */
  lemma Restart(a: Arena, rover: int, grant: Option<int>, n: nat, h: Arena, freep: int) returns (f: nat)
    requires 0 < n && Failed(a, rover, None, n) && grant.Some?
    requires Grown(a, Range(grant.value, Request(n)), h) && freep in h.chain
    ensures Refilled(a, rover, grant, n, h, freep) && f < |h.chain| && h.chain[f] == freep
    ensures Searching(h, freep, f, Next(|h.chain|, f), n)
    ensures freep in h.ptr && h.ptr[freep] == h.chain[Next(|h.chain|, f)]
    ensures h.chain[Next(|h.chain|, f)] in h.size
  {
    assert Range(grant.value, n) <= FreeSet(h);
    NextFitIff(h, freep, n);
    f := SearchStart(h, freep, n);
  }

  /** b is where n units at the end of block k begin. */
  ghost predicate Suffix(a: Arena, k: nat, n: nat, b: int) {
    && 0 < k < |a.chain| && a.chain[k] in a.ptr && a.chain[k] in a.size
    && 0 < n <= a.size[a.chain[k]] && b == a.chain[k] + a.size[a.chain[k]] - n
  }

  /** Block k serves n units, whole or from its end. */
  ghost function Took(a: Arena, k: nat, n: nat, b: int): Arena
    requires Suffix(a, k, n, b)
  {
    if a.size[a.chain[k]] == n then Taken(a, k) else Carved(a, k, n, b)
  }

  lemma TookServed(a: Arena, k: nat, n: nat, b: int)
    requires Sound(a) && Suffix(a, k, n, b)
    ensures Served(a, b, n, Took(a, k, n, b))
  {
    if a.size[a.chain[k]] == n {
      TakenServed(a, k, n, b);
    } else {
      CarvedServed(a, k, n, b);
    }
  }

  /** The block before stays on the list. */
  lemma TookUsable(a: Arena, k: nat, n: nat, b: int)
    requires Sound(a) && a.chain[0] > NIL && Suffix(a, k, n, b)
    ensures b > NIL && Usable(Took(a, k, n, b), a.chain[0], a.chain[k - 1])
  {
    Ordered(a.size, a.chain);
    TookServed(a, k, n, b);
    var d := Took(a, k, n, b);
    assert d.chain[k - 1] == a.chain[k - 1] && d.chain[0] == a.chain[0];
    assert a.chain[0] <= a.chain[k - 1] && a.chain[0] < a.chain[k];
  }

  lemma TookAll(a: Arena, rover: int, grant: Option<int>, n: nat, h: Arena, i: nat, b: int) returns (d: Arena)
    requires Settled(a, rover, grant, n, h, i) && 0 < n && Suffix(h, i, n, b) && h.chain[0] > NIL
    ensures d == Took(h, i, n, b) && b > NIL && Usable(d, h.chain[0], h.chain[i - 1])
    ensures Outcome(a, rover, grant, n, Some(b), h, d) && Precedes(h, h.chain[i - 1], b)
  {
    d := Took(h, i, n, b);
    TookUsable(h, i, n, b);
    OutcomeServed(a, rover, grant, n, h, i, b);
    TookPrecedes(h, i, n, b);
  }

  /** d is a with the block b given back. */
  ghost predicate Released(a: Arena, b: int, d: Arena)
    requires b in a.size
  {
    && Sound(d) && FreeSet(d) == FreeSet(a) + Range(b, if a.size[b] > 0 then a.size[b] else 0)
    && SameLive(a.(live := a.live - {b}), d)
  }

  /** d is a with the units `extra` obtained from sbrk, all free. */
  ghost predicate Grown(a: Arena, extra: set<int>, d: Arena) {
    && Sound(d) && d.live == a.live && d.owner.Keys == a.owner.Keys + extra && FreeSet(d) == FreeSet(a) + extra
    && d.chain != [] && a.chain != [] && d.chain[0] == a.chain[0]
    && forall x :: x in a.live && x in a.size ==> x in d.size && d.size[x] == a.size[x]
  }

  lemma GrantedGrows(a: Arena, g: int, nu: nat, d: Arena)
    requires Sound(a) && Fresh(a, g, nu) && Released(Granted(a, g, nu), g, d) && d.chain[0] == a.chain[0]
    ensures Grown(a, Range(g, nu), d)
  {
    GrantedPartitioned(a, g, nu);
    GrantedUnits(a, g, nu);
    GrantedKeys(a, g, nu);
    AddAndRemove(a.live, g);
  }

  lemma AddAndRemove(s: set<int>, x: int)
    requires x !in s
    ensures s + {x} - {x} == s
  {
  }

  lemma GrantedKeys(a: Arena, g: int, nu: nat)
    ensures Granted(a, g, nu).owner.Keys == a.owner.Keys + Range(g, nu)
  {
  }

  lemma FreedReleases(a: Arena, i: nat, b: int)
    requires Sound(a) && b in a.live && Gap(a.chain, i, b)
    ensures b in a.size && Released(a, b, Freed(a, i, b))
  {
    FreedSound(a, i, b);
    FreedUnits(a, i, b);
    UnitsOfBlock(a, b);
  }

  /** The block behind which b was linked in stays on the list. */
  lemma FreedUsable(a: Arena, i: nat, b: int)
    requires Sound(a) && a.chain[0] > NIL && b in a.live && Gap(a.chain, i, b)
    ensures Usable(Freed(a, i, b), a.chain[0], a.chain[i]) && a.chain[i] != NIL
  {
    Ordered(a.size, a.chain);
    FreedSound(a, i, b);
    MayMerge(a, i, b);
    var a1 := Inserted(a, i, b);
    var a2 := Merged(a1, i + 1);
    var a3 := Merged(a2, i);
    assert a1.chain[i] == a.chain[i] && a1.chain[0] == a.chain[0];
    assert a2.chain[i] == a.chain[i] && a2.chain[0] == a.chain[0];
    assert a3.chain[i] == a.chain[i] && a3.chain[0] == a.chain[0];
    assert a.chain[0] <= a.chain[i];
  }

  lemma LinkAt(a: Arena, j: nat)
    requires Sound(a) && j < |a.chain|
    ensures a.chain[j] in a.ptr && a.ptr[a.chain[j]] == a.chain[Next(|a.chain|, j)]
  {
    assert Link(a.ptr, a.chain, j);
  }

  /** free undoes malloc: given back, a block that needed no new memory leaves the free list
      exactly as it was. */
  lemma FreeUndoesMalloc(a: Arena, b: int, n: nat, d: Arena, e: Arena)
    requires Sound(a) && n > 0 && Served(a, b, n, d) && Released(d, b, e) && e.chain[0] == a.chain[0]
    ensures e.live == a.live && FreeSet(e) == FreeSet(a) && e.owner.Keys == a.owner.Keys
    ensures e.chain == a.chain && forall x :: x in a.chain ==> x in a.size && x in e.size && e.size[x] == a.size[x]
  {
    AddAndRemove(a.live, b);
    assert FreeSet(a) - Range(b, n) + Range(b, n) == FreeSet(a);
    Canonical(a, e);
  }
}
