/** Two-level page tables in physical memory, and who owns which frame. Frames are numbered;
    a page is 1024 words, which is also what a page table or a directory is made of. */
module PageTable {
  import opened Common

  const PGSIZE := 4096
  const ENTRIES := 1024
  const USER := 0x8_0000          // KERNBASE / PGSIZE: pages below it are user pages
  const PAGES := 0x10_0000        // pages of the address space
  const KERNBASE := 0x8000_0000
  const TOP := 57344              // PHYSTOP / PGSIZE

  type Page = p: seq<Word> | |p| == ENTRIES witness seq(ENTRIES, _ => 0)

  /** An entry that can name a frame: of a directory, or of a table of user pages. */
  datatype Slot = Pde(d: nat, x: nat) | Pte(d: nat, n: nat)

  /** What a frame is used for: on the free list, handed out by kalloc and not yet reachable,
      a directory, or named by a slot. */
  datatype Use = Free | Limbo | Root | Owned(s: Slot)

  datatype Vm = Vm(mem: map<nat, Page>, owner: map<nat, Use>, dirs: set<nat>)

  predicate Present(w: Word) { w % 2 == 1 }

  function FrameOf(w: Word): nat { w / PGSIZE }

  function Flags(w: Word): nat { w % PGSIZE }

  /** The entry for frame f with these permission bits and the present bit. */
  function Entry(f: nat, perm: nat): (w: Word)
    requires f < PAGES && perm < PGSIZE
    ensures Present(w) && FrameOf(w) == f && Flags(w) == perm + 1 - perm % 2
  {
    f * PGSIZE + (perm + 1 - perm % 2)
  }

  function ZeroPage(): (p: Page)
    ensures forall k :: 0 <= k < ENTRIES ==> p[k] == 0
  {
    seq(ENTRIES, _ => 0)
  }

  predicate WriteBit(w: Word) { Flags(w) / 2 % 2 == 1 }   // PTE_W

  predicate UserBit(w: Word) { Flags(w) / 4 % 2 == 1 }    // PTE_U

  ghost predicate Shaped(v: Vm) {
    && (forall f :: f in v.owner ==> f in v.mem && 0 < f < TOP)
    && (forall d :: d in v.dirs ==> d in v.owner && v.owner[d] == Root)
  }

  predicate IsSlot(v: Vm, s: Slot) {
    s.d in v.dirs && (s.Pde? ==> s.x < ENTRIES) && (s.Pte? ==> s.n < USER)
  }

  /** The table that directory d has for page n, 0 if none. */
  ghost function Table(v: Vm, d: nat, x: nat): (t: nat)
    requires Shaped(v) && d in v.dirs && x < ENTRIES
  {
    if Present(v.mem[d][x]) then FrameOf(v.mem[d][x]) else 0
  }

  /** The page table entry of page n, 0 if there is no table for it. */
  ghost function Pt(v: Vm, d: nat, n: nat): (w: Word)
    requires Shaped(v) && d in v.dirs && n < PAGES
  {
    var t := Table(v, d, n / ENTRIES);
    if t != 0 && t in v.mem then v.mem[t][n % ENTRIES] else 0
  }

  ghost function Named(v: Vm, s: Slot): (f: nat)
    requires Shaped(v) && IsSlot(v, s)
  {
    match s
    case Pde(d, x) => Table(v, d, x)
    case Pte(d, n) => if Present(Pt(v, d, n)) then FrameOf(Pt(v, d, n)) else 0
  }

  /** The processor grants the user access to page n only if both entries on the way do ... */
  ghost predicate UserReads(v: Vm, d: nat, n: nat)
    requires Shaped(v) && d in v.dirs && n < PAGES
  {
    var e, p := v.mem[d][n / ENTRIES], Pt(v, d, n);
    Present(e) && Present(p) && UserBit(e) && UserBit(p)
  }

  /** ... and write access only if both do. */
  ghost predicate UserWrites(v: Vm, d: nat, n: nat)
    requires Shaped(v) && d in v.dirs && n < PAGES
  {
    UserReads(v, d, n) && WriteBit(v.mem[d][n / ENTRIES]) && WriteBit(Pt(v, d, n))
  }

  ghost predicate Owns(v: Vm, s: Slot)
    requires Shaped(v) && IsSlot(v, s)
  {
    && (Named(v, s) != 0 ==> Named(v, s) in v.owner && v.owner[Named(v, s)] == Owned(s))
    && (s.Pde? && Present(v.mem[s.d][s.x]) ==> Named(v, s) != 0 && Flags(v.mem[s.d][s.x]) == 7)
    && (s.Pte? && Present(Pt(v, s.d, s.n)) ==> Named(v, s) != 0)
  }

  ghost predicate OwnedOnce(v: Vm, f: nat)
    requires Shaped(v) && f in v.owner
  {
    && (v.owner[f] == Root ==> f in v.dirs)
    && (v.owner[f].Owned? ==> IsSlot(v, v.owner[f].s) && Named(v, v.owner[f].s) == f)
  }

  /** Every present entry names a frame that it alone owns, and every owned frame is named. A
      table is open to the user and to writes as far as its entry in the directory goes. */
  ghost predicate Consistent(v: Vm) {
    && Shaped(v)
    && (forall s :: IsSlot(v, s) ==> Owns(v, s))
    && (forall f :: f in v.owner ==> OwnedOnce(v, f))
  }

  /** How the processor finds the entry of page n of 4096 bytes: word n / 1024 of the directory
      gives the frame of the table, word n % 1024 of that is the entry. */
  lemma TwoLevels(v: Vm, d: nat, n: nat)
    requires Consistent(v) && d in v.dirs && n < PAGES
    ensures v.mem[d][n / 1024] % 2 == 0 ==> Pt(v, d, n) == 0
    ensures v.mem[d][n / 1024] % 2 == 1 ==>
              var t := v.mem[d][n / 1024] / 4096; t in v.mem && Pt(v, d, n) == v.mem[t][n % 1024]
  {
    assert Owns(v, Pde(d, n / ENTRIES));
  }

  /** The entry of a page alone decides what the user may do with it. */
  lemma EntryDecides(v: Vm, d: nat, n: nat)
    requires Consistent(v) && d in v.dirs && n < PAGES
    ensures UserReads(v, d, n) <==> Present(Pt(v, d, n)) && UserBit(Pt(v, d, n))
    ensures UserWrites(v, d, n) <==> Present(Pt(v, d, n)) && UserBit(Pt(v, d, n)) && WriteBit(Pt(v, d, n))
  {
    assert Owns(v, Pde(d, n / ENTRIES));
  }

  // ---- steps ----

  /** f changes hands, and perhaps its contents, without any entry naming it before or after. */
  ghost function Moved(v: Vm, f: nat, p: Page, u: Use): Vm {
    v.(mem := v.mem[f := p], owner := v.owner[f := u])
  }

  lemma MovedConsistent(v: Vm, f: nat, p: Page, u: Use)
    requires Consistent(v) && f in v.owner && v.owner[f] in {Free, Limbo} && u in {Free, Limbo}
    ensures Consistent(Moved(v, f, p, u))
    ensures forall d, n :: d in v.dirs && 0 <= n < PAGES ==> Pt(Moved(v, f, p, u), d, n) == Pt(v, d, n)
  {
    var w := Moved(v, f, p, u);
    forall s | IsSlot(w, s) ensures Owns(w, s) {
      assert Owns(v, s);
      if s.Pte? { assert Owns(v, Pde(s.d, s.n / ENTRIES)); }
    }
    forall g | g in w.owner ensures OwnedOnce(w, g) {
      assert OwnedOnce(v, g);
      if v.owner[g].Owned? {
        var s := v.owner[g].s;
        if s.Pte? { assert Owns(v, Pde(s.d, s.n / ENTRIES)); }
      }
    }
    forall d, n | d in v.dirs && 0 <= n < PAGES ensures Pt(w, d, n) == Pt(v, d, n) {
      assert Owns(v, Pde(d, n / ENTRIES));
    }
  }

  /** A word is written into the table that serves page n. */
  ghost function Wrote(v: Vm, d: nat, n: nat, w: Word): Vm
    requires Shaped(v) && d in v.dirs && n < PAGES && Table(v, d, n / ENTRIES) in v.mem
  {
    var t := Table(v, d, n / ENTRIES);
    v.(mem := v.mem[t := v.mem[t][n % ENTRIES := w]])
  }

  lemma TableOwned(v: Vm, d: nat, x: nat)
    requires Consistent(v) && d in v.dirs && x < ENTRIES && Table(v, d, x) != 0
    ensures var t := Table(v, d, x);
            t in v.owner && v.owner[t] == Owned(Pde(d, x)) && t in v.mem && t !in v.dirs && t < TOP
  {
    assert Owns(v, Pde(d, x));
  }

  /** It is the entry of page n that changes, and no other. */
  lemma WroteEntries(v: Vm, d: nat, n: nat, w: Word)
    requires Consistent(v) && d in v.dirs && n < PAGES && Table(v, d, n / ENTRIES) != 0
    ensures Table(v, d, n / ENTRIES) in v.mem && Shaped(Wrote(v, d, n, w))
    ensures forall e :: e in v.dirs ==> Wrote(v, d, n, w).mem[e] == v.mem[e]
    ensures forall e, x :: e in v.dirs && 0 <= x < ENTRIES ==> Table(Wrote(v, d, n, w), e, x) == Table(v, e, x)
    ensures forall e, m :: e in v.dirs && 0 <= m < PAGES ==>
              Pt(Wrote(v, d, n, w), e, m) == if e == d && m == n then w else Pt(v, e, m)
  {
    TableOwned(v, d, n / ENTRIES);
    forall e, m | e in v.dirs && 0 <= m < PAGES
      ensures Pt(Wrote(v, d, n, w), e, m) == if e == d && m == n then w else Pt(v, e, m)
    {
      if Table(v, e, m / ENTRIES) != 0 {
        TableOwned(v, e, m / ENTRIES);
      }
    }
  }

  /** The frame f in limbo is mapped at the user page n, which was not mapped. */
  ghost function Mapped(v: Vm, d: nat, n: nat, f: nat, perm: nat): Vm
    requires Shaped(v) && d in v.dirs && n < USER && Table(v, d, n / ENTRIES) in v.mem && f < TOP && perm < PGSIZE
  {
    Wrote(v, d, n, Entry(f, perm)).(owner := v.owner[f := Owned(Pte(d, n))])
  }

  lemma MappedConsistent(v: Vm, d: nat, n: nat, f: nat, perm: nat)
    requires Consistent(v) && d in v.dirs && n < USER && Table(v, d, n / ENTRIES) != 0 && perm < PGSIZE
    requires f in v.owner && v.owner[f] == Limbo && !Present(Pt(v, d, n))
    ensures Table(v, d, n / ENTRIES) in v.mem && Consistent(Mapped(v, d, n, f, perm))
    ensures forall e, m :: e in v.dirs && 0 <= m < PAGES ==>
              Pt(Mapped(v, d, n, f, perm), e, m) == if e == d && m == n then Entry(f, perm) else Pt(v, e, m)
  {
    WroteEntries(v, d, n, Entry(f, perm));
    var x, w := Wrote(v, d, n, Entry(f, perm)), Mapped(v, d, n, f, perm);
    SameMemory(x, w);
    forall s | IsSlot(w, s) ensures Owns(w, s) {
      assert Owns(v, s);
    }
    forall g | g in w.owner ensures OwnedOnce(w, g) {
      assert OwnedOnce(v, g);
    }
  }

  /** Entries depend on memory alone. */
  lemma SameMemory(v: Vm, w: Vm)
    requires Shaped(v) && Shaped(w) && v.mem == w.mem && v.dirs == w.dirs
    ensures forall d, x :: d in v.dirs && 0 <= x < ENTRIES ==> Table(w, d, x) == Table(v, d, x)
    ensures forall d, n :: d in v.dirs && 0 <= n < PAGES ==> Pt(w, d, n) == Pt(v, d, n)
  {
  }

  /** The user page n is unmapped, its frame in limbo. */
  ghost function Unmapped(v: Vm, d: nat, n: nat): Vm
    requires Shaped(v) && d in v.dirs && n < USER && Table(v, d, n / ENTRIES) in v.mem
  {
    Wrote(v, d, n, 0).(owner := v.owner[FrameOf(Pt(v, d, n)) := Limbo])
  }

  lemma UnmappedConsistent(v: Vm, d: nat, n: nat)
    requires Consistent(v) && d in v.dirs && n < USER && Present(Pt(v, d, n))
    ensures Table(v, d, n / ENTRIES) != 0 && Table(v, d, n / ENTRIES) in v.mem
    ensures FrameOf(Pt(v, d, n)) in v.owner && v.owner[FrameOf(Pt(v, d, n))] == Owned(Pte(d, n))
            && FrameOf(Pt(v, d, n)) != 0
    ensures Consistent(Unmapped(v, d, n))
    ensures forall e, m :: e in v.dirs && 0 <= m < PAGES ==>
              Pt(Unmapped(v, d, n), e, m) == if e == d && m == n then 0 else Pt(v, e, m)
  {
    assert Owns(v, Pte(d, n));
    assert Table(v, d, n / ENTRIES) != 0;
    WroteEntries(v, d, n, 0);
    var x, w := Wrote(v, d, n, 0), Unmapped(v, d, n);
    SameMemory(x, w);
    forall s | IsSlot(w, s) ensures Owns(w, s) {
      assert Owns(v, s);
    }
    forall g | g in w.owner ensures OwnedOnce(w, g) {
      assert OwnedOnce(v, g);
    }
  }

  /** The entry of a kernel page is nobody's business but its own. */
  lemma KernelConsistent(v: Vm, d: nat, n: nat, w: Word)
    requires Consistent(v) && d in v.dirs && USER <= n < PAGES && Table(v, d, n / ENTRIES) != 0
    ensures Table(v, d, n / ENTRIES) in v.mem && Consistent(Wrote(v, d, n, w))
  {
    WroteEntries(v, d, n, w);
    var x := Wrote(v, d, n, w);
    forall s | IsSlot(x, s) ensures Owns(x, s) {
      assert Owns(v, s);
    }
    forall g | g in x.owner ensures OwnedOnce(x, g) {
      assert OwnedOnce(v, g);
    }
  }

  /** The zeroed frame t in limbo becomes the table for the pages of directory entry x. */
  ghost function Hung(v: Vm, d: nat, x: nat, t: nat): Vm
    requires d in v.mem && x < ENTRIES && t < TOP
  {
    v.(mem := v.mem[d := v.mem[d][x := Entry(t, 7)]], owner := v.owner[t := Owned(Pde(d, x))])
  }

  lemma HungConsistent(v: Vm, d: nat, x: nat, t: nat)
    requires Consistent(v) && d in v.dirs && x < ENTRIES && !Present(v.mem[d][x])
    requires t in v.owner && v.owner[t] == Limbo && v.mem[t] == ZeroPage()
    ensures Consistent(Hung(v, d, x, t)) && Table(Hung(v, d, x, t), d, x) == t
    ensures forall e, m :: e in v.dirs && 0 <= m < PAGES ==> Pt(Hung(v, d, x, t), e, m) == Pt(v, e, m)
    ensures forall e, y :: e in v.dirs && 0 <= y < ENTRIES && !(e == d && y == x) ==>
              Table(Hung(v, d, x, t), e, y) == Table(v, e, y)
  {
    var w := Hung(v, d, x, t);
    forall e, m | e in v.dirs && 0 <= m < PAGES ensures Pt(w, e, m) == Pt(v, e, m) {
      if Table(v, e, m / ENTRIES) != 0 {
        TableOwned(v, e, m / ENTRIES);
      }
    }
    forall s | IsSlot(w, s) ensures Owns(w, s) {
      assert Owns(v, s);
    }
    forall g | g in w.owner ensures OwnedOnce(w, g) {
      assert OwnedOnce(v, g);
    }
  }

  /** The zeroed frame d in limbo becomes a directory. */
  ghost function Adopted(v: Vm, d: nat): Vm {
    v.(owner := v.owner[d := Root], dirs := v.dirs + {d})
  }

  lemma AdoptedConsistent(v: Vm, d: nat)
    requires Consistent(v) && d in v.owner && v.owner[d] == Limbo && v.mem[d] == ZeroPage()
    ensures d !in v.dirs && Consistent(Adopted(v, d))
    ensures forall e, m :: e in v.dirs && 0 <= m < PAGES ==> Pt(Adopted(v, d), e, m) == Pt(v, e, m)
    ensures forall m :: 0 <= m < PAGES ==> Pt(Adopted(v, d), d, m) == 0
    ensures forall x :: 0 <= x < ENTRIES ==> Table(Adopted(v, d), d, x) == 0
  {
    var w := Adopted(v, d);
    forall s | IsSlot(w, s) ensures Owns(w, s) {
      if s.d != d { assert Owns(v, s); }
    }
    forall g | g in w.owner ensures OwnedOnce(w, g) {
      assert OwnedOnce(v, g);
    }
  }

  /** The frames that only directory d leads to, its pages apart. */
  ghost predicate Skeleton(v: Vm, f: nat, d: nat)
    requires f in v.owner
  {
    f == d || (v.owner[f].Owned? && v.owner[f].s.Pde? && v.owner[f].s.d == d)
  }

  /** d is no longer a directory; it and its tables are in limbo. */
  ghost function Retired(v: Vm, d: nat): Vm {
    v.(owner := map f | f in v.owner :: if Skeleton(v, f, d) then Limbo else v.owner[f], dirs := v.dirs - {d})
  }

  lemma RetiredConsistent(v: Vm, d: nat)
    requires Consistent(v) && d in v.dirs && forall n :: 0 <= n < USER ==> !Present(Pt(v, d, n))
    ensures Consistent(Retired(v, d))
    ensures forall e, m :: e in v.dirs && e != d && 0 <= m < PAGES ==> Pt(Retired(v, d), e, m) == Pt(v, e, m)
  {
    var w := Retired(v, d);
    forall s | IsSlot(w, s) ensures Owns(w, s) {
      assert Owns(v, s);
    }
    forall g | g in w.owner ensures OwnedOnce(w, g) {
      assert OwnedOnce(v, g);
    }
  }

  // ---- relations between states ----

  /** f is in use, and not by directory d. */
  ghost predicate Elsewhere(v: Vm, f: nat, d: nat)
    requires f in v.owner
  {
    match v.owner[f]
    case Free => false
    case Limbo => true
    case Root => f != d
    case Owned(s) => s.d != d
  }

  /** Directory d has gained frames that were free and lost none: nothing in use has changed
      hands, and only d and its tables have changed contents. */
  ghost predicate Grown(v: Vm, w: Vm, d: nat) {
    && w.owner.Keys == v.owner.Keys
    && forall f :: f in v.owner ==> KeptUse(v, w, f, d)
  }

  ghost predicate KeptUse(v: Vm, w: Vm, f: nat, d: nat)
    requires f in v.owner && f in w.owner
  {
    && (v.owner[f] != Free ==> w.owner[f] == v.owner[f])
    && (v.owner[f] == Free ==> !Elsewhere(w, f, d))
    && (v.owner[f] != Free && !Skeleton(v, f, d) ==> f in v.mem && f in w.mem && w.mem[f] == v.mem[f])
  }

  lemma GrownTrans(v: Vm, w: Vm, x: Vm, d: nat)
    requires Grown(v, w, d) && Grown(w, x, d)
    ensures Grown(v, x, d)
  {
    forall f | f in v.owner ensures KeptUse(v, x, f, d) {
      assert KeptUse(v, w, f, d) && KeptUse(w, x, f, d);
    }
  }

  /** The frame holds a page of d numbered lo to hi-1. */
  ghost predicate PageOf(v: Vm, f: nat, d: nat, lo: nat, hi: nat)
    requires f in v.owner
  {
    v.owner[f].Owned? && v.owner[f].s.Pte? && v.owner[f].s.d == d && lo <= v.owner[f].s.n < hi
  }

  /** The user pages lo to hi-1 of d are unmapped and their frames free; nothing else has
      changed. */
  ghost predicate Cleared(v: Vm, w: Vm, d: nat, lo: nat, hi: nat) {
    && Consistent(v) && Consistent(w) && w.dirs == v.dirs && d in v.dirs && w.owner.Keys == v.owner.Keys
    && (forall n :: 0 <= n < PAGES ==>
          Pt(w, d, n) == if lo <= n < hi && Present(Pt(v, d, n)) then 0 else Pt(v, d, n))
    && (forall f :: f in v.owner ==> ClearedFrame(v, w, f, d, lo, hi))
  }

  ghost predicate ClearedFrame(v: Vm, w: Vm, f: nat, d: nat, lo: nat, hi: nat)
    requires f in v.owner && f in w.owner
  {
    && w.owner[f] == (if PageOf(v, f, d, lo, hi) then Free else v.owner[f])
    && (w.owner[f] != Free && !(v.owner[f].Owned? && Skeleton(v, f, d)) ==>
         f in v.mem && f in w.mem && w.mem[f] == v.mem[f])
  }

  lemma ClearedNone(v: Vm, d: nat, lo: nat)
    requires Consistent(v) && d in v.dirs
    ensures Cleared(v, v, d, lo, lo)
  {
  }

  /** A page that is mapped: unmapping it and freeing its frame ... */
  lemma ClearedOne(v: Vm, w: Vm, d: nat, lo: nat, n: nat, junk: Page) returns (y: Vm)
    requires Cleared(v, w, d, lo, n) && lo <= n < USER && Present(Pt(w, d, n))
    ensures Table(w, d, n / ENTRIES) in w.mem && FrameOf(Pt(w, d, n)) in w.owner
            && w.owner[FrameOf(Pt(w, d, n))] == Owned(Pte(d, n))
    ensures y == Moved(Unmapped(w, d, n), FrameOf(Pt(w, d, n)), junk, Free) && Consistent(y)
    ensures Cleared(v, y, d, lo, n + 1)
  {
    UnmappedConsistent(w, d, n);
    var g, x := FrameOf(Pt(w, d, n)), Unmapped(w, d, n);
    MovedConsistent(x, g, junk, Free);
    y := Moved(x, g, junk, Free);
    TableOwned(w, d, n / ENTRIES);
    forall f | f in v.owner ensures ClearedFrame(v, y, f, d, lo, n + 1) {
      assert ClearedFrame(v, w, f, d, lo, n);
      assert OwnedOnce(v, f) && OwnedOnce(w, f);
      assert ClearedFrame(v, w, g, d, lo, n);
    }
  }

  /** ... a page that is not: nothing to do ... */
  lemma ClearedAbsent(v: Vm, w: Vm, d: nat, lo: nat, n: nat)
    requires Cleared(v, w, d, lo, n) && lo <= n < USER && !Present(Pt(w, d, n))
    ensures Cleared(v, w, d, lo, n + 1)
  {
    forall f | f in v.owner ensures ClearedFrame(v, w, f, d, lo, n + 1) {
      assert ClearedFrame(v, w, f, d, lo, n);
      assert OwnedOnce(v, f);
    }
  }

  /** ... and where there is no table, none of its pages is mapped. */
  lemma ClearedTable(v: Vm, w: Vm, d: nat, lo: nat, n: nat, m: nat)
    requires Cleared(v, w, d, lo, n) && lo <= n <= m <= USER && m <= (n / ENTRIES + 1) * ENTRIES
    requires Table(w, d, n / ENTRIES) == 0
    ensures Cleared(v, w, d, lo, m)
  {
    forall k | n <= k < m ensures Pt(w, d, k) == 0 {
      assert k / ENTRIES == n / ENTRIES;
    }
    forall f | f in v.owner ensures ClearedFrame(v, w, f, d, lo, m) {
      assert ClearedFrame(v, w, f, d, lo, n);
      assert OwnedOnce(v, f);
    }
  }

  // ---- a page added ----

  /** A free frame f with contents p has been mapped at page n of d with `perm`. */
  ghost predicate Added(u: Vm, y: Vm, d: nat, n: nat, f: nat, perm: nat, p: Page) {
    && Consistent(u) && Consistent(y) && y.dirs == u.dirs && d in u.dirs && n < USER && perm < PGSIZE
    && Grown(u, y, d) && f in u.owner && u.owner[f] == Free && f < TOP && f in y.mem && y.mem[f] == p
    && forall e, m :: e in u.dirs && 0 <= m < PAGES ==>
         Pt(y, e, m) == if e == d && m == n then Entry(f, perm) else Pt(u, e, m)
  }

  // ---- an address space dissolved ----

  /** d, one of its tables or one of its pages. */
  ghost predicate OfSpace(v: Vm, f: nat, d: nat)
    requires f in v.owner
  {
    f == d || (v.owner[f].Owned? && v.owner[f].s.d == d)
  }

  /** Every frame of d has become free, and nothing else has changed. */
  ghost predicate Dissolved(v: Vm, w: Vm, d: nat) {
    && Consistent(v) && Consistent(w) && d in v.dirs && w.dirs == v.dirs - {d} && w.owner.Keys == v.owner.Keys
    && (forall f :: f in v.owner ==> DissolvedFrame(v, w, f, d))
    && forall e, n :: e in w.dirs && 0 <= n < PAGES ==> Pt(w, e, n) == Pt(v, e, n)
  }

  ghost predicate DissolvedFrame(v: Vm, w: Vm, f: nat, d: nat)
    requires f in v.owner && f in w.owner
  {
    && w.owner[f] == (if OfSpace(v, f, d) then Free else v.owner[f])
    && (w.owner[f] != Free ==> f in v.mem && f in w.mem && w.mem[f] == v.mem[f])
  }

  /** freevm has come to directory entry i: the user pages are gone, the tables before i are
      free, the others and d itself are in limbo. */
  ghost predicate Tearing(v: Vm, w: Vm, d: nat, i: nat) {
    && Consistent(v) && Consistent(w) && d in v.dirs && w.dirs == v.dirs - {d} && w.owner.Keys == v.owner.Keys
    && d in w.mem && w.mem[d] == v.mem[d]
    && (forall f :: f in v.owner ==> TornFrame(v, w, f, d, i))
    && forall e, n :: e in w.dirs && 0 <= n < PAGES ==> Pt(w, e, n) == Pt(v, e, n)
  }

  ghost predicate TornFrame(v: Vm, w: Vm, f: nat, d: nat, i: nat)
    requires f in v.owner && f in w.owner
  {
    && w.owner[f] == (if !OfSpace(v, f, d) then v.owner[f]
                      else if f == d || (v.owner[f].s.Pde? && v.owner[f].s.x >= i) then Limbo
                      else Free)
    && (!OfSpace(v, f, d) && w.owner[f] != Free ==> f in v.mem && f in w.mem && w.mem[f] == v.mem[f])
  }

  /** The entries of other directories are where they were: their tables are. */
  lemma EntriesElsewhere(v: Vm, w: Vm, d: nat, e: nat, n: nat)
    requires Consistent(v) && Shaped(w) && e in v.dirs && e in w.dirs && e != d && n < PAGES
    requires forall f :: f in v.owner && Elsewhere(v, f, d) ==> f in v.mem && f in w.mem && w.mem[f] == v.mem[f]
    ensures Pt(w, e, n) == Pt(v, e, n)
  {
    assert Elsewhere(v, e, d);
    if Table(v, e, n / ENTRIES) != 0 {
      TableOwned(v, e, n / ENTRIES);
      assert Elsewhere(v, Table(v, e, n / ENTRIES), d);
    }
  }

  lemma ClearedEntries(v: Vm, w: Vm, d: nat, lo: nat, hi: nat, e: nat, n: nat)
    requires Cleared(v, w, d, lo, hi) && e in v.dirs && e != d && n < PAGES
    ensures Pt(w, e, n) == Pt(v, e, n)
  {
    forall f | f in v.owner && Elsewhere(v, f, d) ensures f in v.mem && f in w.mem && w.mem[f] == v.mem[f] {
      assert ClearedFrame(v, w, f, d, lo, hi);
    }
    EntriesElsewhere(v, w, d, e, n);
  }

  lemma TearStart(v: Vm, u: Vm, d: nat) returns (y: Vm)
    requires Cleared(v, u, d, 0, USER)
    ensures y == Retired(u, d) && Consistent(y) && Tearing(v, y, d, 0) && d in u.owner && u.owner[d] != Free
  {
    y := Retired(u, d);
    RetiredConsistent(u, d);
    var w := Retired(u, d);
    assert OwnedOnce(v, d);
    forall e, n | e in w.dirs && 0 <= n < PAGES ensures Pt(w, e, n) == Pt(v, e, n) {
      ClearedEntries(v, u, d, 0, USER, e, n);
    }
    forall f | f in v.owner ensures TornFrame(v, w, f, d, 0) {
      assert ClearedFrame(v, u, f, d, 0, USER);
      assert OwnedOnce(v, f);
    }
    assert ClearedFrame(v, u, d, d, 0, USER);
  }

  lemma TearStep(v: Vm, w: Vm, d: nat, i: nat, junk: Page) returns (y: Vm)
    requires Tearing(v, w, d, i) && i < ENTRIES
    ensures Present(w.mem[d][i]) ==> y == Moved(w, FrameOf(w.mem[d][i]), junk, Free)
    ensures !Present(w.mem[d][i]) ==> y == w
    ensures Tearing(v, y, d, i + 1)
  {
    assert Owns(v, Pde(d, i));
    y := w;
    if Present(w.mem[d][i]) {
      var t := FrameOf(w.mem[d][i]);
      TornTable(v, w, d, i);
      MovedConsistent(w, t, junk, Free);
      y := Moved(w, t, junk, Free);
      forall f | f in v.owner ensures TornFrame(v, y, f, d, i + 1) {
        assert TornFrame(v, w, f, d, i) && OwnedOnce(v, f);
      }
    } else {
      forall f | f in v.owner ensures TornFrame(v, w, f, d, i + 1) {
        assert TornFrame(v, w, f, d, i) && OwnedOnce(v, f);
      }
    }
  }

  /** The table in a directory entry that is present is in limbo, and is not the directory. */
  lemma TornTable(v: Vm, w: Vm, d: nat, i: nat)
    requires Tearing(v, w, d, i) && i < ENTRIES && Present(w.mem[d][i])
    ensures var t := FrameOf(w.mem[d][i]); t in w.owner && w.owner[t] == Limbo && t != d && t > 0
  {
    assert Owns(v, Pde(d, i));
    TableOwned(v, d, i);
    assert TornFrame(v, w, FrameOf(w.mem[d][i]), d, i);
  }

  lemma TearEnd(v: Vm, w: Vm, d: nat, junk: Page) returns (y: Vm)
    requires Tearing(v, w, d, ENTRIES)
    ensures d in w.owner && w.owner[d] == Limbo
    ensures y == Moved(w, d, junk, Free) && Dissolved(v, y, d)
  {
    assert TornFrame(v, w, d, d, ENTRIES);
    MovedConsistent(w, d, junk, Free);
    y := Moved(w, d, junk, Free);
    forall f | f in v.owner ensures DissolvedFrame(v, y, f, d) {
      assert TornFrame(v, w, f, d, ENTRIES) && OwnedOnce(v, f);
    }
  }

  // ---- all or nothing ----

  /** The free frames are exactly what they were, and nothing in use has changed. */
  ghost predicate Restored(v: Vm, w: Vm) {
    && Consistent(w) && w.dirs == v.dirs && w.owner == v.owner
    && forall f :: f in v.owner && v.owner[f] != Free ==> f in v.mem && f in w.mem && w.mem[f] == v.mem[f]
  }

  /** Dissolving an address space that has grown out of free frames gives them all back. */
  lemma GrownThenDissolved(v: Vm, u: Vm, w: Vm, d: nat)
    requires Consistent(v) && d in v.owner && v.owner[d] == Free && d !in v.dirs
    requires Grown(v, u, d) && u.dirs == v.dirs + {d} && Dissolved(u, w, d)
    ensures Restored(v, w)
  {
    forall f | f in v.owner
      ensures w.owner[f] == v.owner[f] && (v.owner[f] != Free ==> f in v.mem && f in w.mem && w.mem[f] == v.mem[f])
    {
      assert KeptUse(v, u, f, d) && DissolvedFrame(u, w, f, d) && OwnedOnce(v, f) && OwnedOnce(u, f);
    }
  }

  // ---- allocuvm and copyuvm ----

  /** Page n of d is new: a zeroed frame that was free, writable by the user. */
  ghost predicate NewPage(v: Vm, w: Vm, d: nat, n: nat)
    requires Shaped(w) && d in w.dirs && n < USER
  {
    var p := Pt(w, d, n);
    && Present(p) && Flags(p) == 7 && UserWrites(w, d, n) && FrameOf(p) in v.owner && v.owner[FrameOf(p)] == Free
    && FrameOf(p) in w.mem && w.mem[FrameOf(p)] == ZeroPage()
  }

  ghost predicate OtherEntries(v: Vm, w: Vm, d: nat, lo: nat, hi: nat)
    requires Shaped(v) && Shaped(w) && v.dirs <= w.dirs
  {
    forall e, m :: e in v.dirs && 0 <= m < PAGES && (e != d || m < lo || hi <= m) ==> Pt(w, e, m) == Pt(v, e, m)
  }

  /** Pages lo to hi-1 of d are new, and every other entry is what it was. */
  ghost predicate Extended(v: Vm, w: Vm, d: nat, lo: nat, hi: nat) {
    && Consistent(v) && Consistent(w) && w.dirs == v.dirs && d in v.dirs && hi <= USER && Grown(v, w, d)
    && OtherEntries(v, w, d, lo, hi) && forall n :: lo <= n < hi ==> NewPage(v, w, d, n)
  }

  lemma ExtendedOne(v: Vm, u: Vm, y: Vm, d: nat, lo: nat, n: nat, f: nat)
    requires Extended(v, u, d, lo, n) && lo <= n && Added(u, y, d, n, f, 6, ZeroPage())
    ensures Extended(v, y, d, lo, n + 1)
  {
    GrownTrans(v, u, y, d);
    assert KeptUse(v, u, f, d);
    forall m | lo <= m < n + 1 ensures NewPage(v, y, d, m) {
      EntryDecides(y, d, m);
      if m < n {
        assert NewPage(v, u, d, m) && Owns(u, Pte(d, m));
        assert KeptUse(u, y, FrameOf(Pt(u, d, m)), d);
      }
    }
  }

  /** The same pages are mapped, onto the same frames with the same flags; at most some free
      frames have become page tables. */
  ghost predicate SameMappings(v: Vm, w: Vm, d: nat) {
    && Consistent(v) && Consistent(w) && w.dirs == v.dirs && Grown(v, w, d)
    && (forall f :: f in v.owner && w.owner[f] != v.owner[f] ==> w.owner[f].Owned? && w.owner[f].s.Pde?)
    && forall e, n :: e in v.dirs && 0 <= n < PAGES ==> SameMapping(v, w, e, n)
  }

  ghost predicate SameMapping(v: Vm, w: Vm, e: nat, n: nat)
    requires Shaped(v) && Shaped(w) && e in v.dirs && e in w.dirs && n < PAGES
  {
    (Present(Pt(w, e, n)) <==> Present(Pt(v, e, n))) && (Present(Pt(v, e, n)) ==> Pt(w, e, n) == Pt(v, e, n))
  }

  /** Clearing the range takes an interrupted extension back. */
  lemma ExtendedCleared(v: Vm, u: Vm, w: Vm, d: nat, lo: nat, n: nat, hi: nat)
    requires Extended(v, u, d, lo, n) && lo <= n <= hi <= USER && Cleared(u, w, d, lo, hi)
    requires forall m :: lo <= m < hi ==> !Present(Pt(v, d, m))
    ensures SameMappings(v, w, d)
  {
    forall f | f in v.owner
        ensures KeptUse(v, w, f, d) && (w.owner[f] != v.owner[f] ==> w.owner[f].Owned? && w.owner[f].s.Pde?) {
      assert KeptUse(v, u, f, d) && ClearedFrame(u, w, f, d, lo, hi) && OwnedOnce(v, f) && OwnedOnce(u, f);
      if v.owner[f] == Free && u.owner[f].Owned? && u.owner[f].s.Pte? {
        var s := u.owner[f].s;
        assert Present(Pt(u, d, s.n)) && Owns(v, s);
        assert lo <= s.n < n;
      }
    }
    forall e, m | e in v.dirs && 0 <= m < PAGES ensures SameMapping(v, w, e, m) {
      if e != d {
        ClearedEntries(u, w, d, lo, hi, e, m);
      }
    }
  }

  /** Page n of c is a copy of page n of d: same flags, same contents, in a frame that was
      free, and so is none of d's. */
  ghost predicate CopiedPage(v: Vm, w: Vm, d: nat, c: nat, n: nat)
    requires Shaped(v) && Shaped(w) && d in v.dirs && c in w.dirs && n < USER
  {
    var p, q := Pt(v, d, n), Pt(w, c, n);
    && Present(p) && Present(q) && Flags(q) == Flags(p)
    && (UserReads(w, c, n) <==> UserReads(v, d, n)) && (UserWrites(w, c, n) <==> UserWrites(v, d, n))
    && FrameOf(q) in v.owner && v.owner[FrameOf(q)] == Free
    && FrameOf(p) in v.mem && FrameOf(q) in w.mem && w.mem[FrameOf(q)] == v.mem[FrameOf(p)]
  }

  /** c is a new address space whose user pages are copies of d's first n. */
  ghost predicate Copied(v: Vm, w: Vm, d: nat, c: nat, n: nat) {
    && Consistent(v) && Consistent(w) && d in v.dirs && c !in v.dirs && w.dirs == v.dirs + {c} && n <= USER
    && c in v.owner && v.owner[c] == Free && Grown(v, w, c) && OtherEntries(v, w, c, 0, PAGES)
    && (forall m :: 0 <= m < n ==> CopiedPage(v, w, d, c, m))
    && forall m :: n <= m < USER ==> !Present(Pt(w, c, m))
  }

  /** Entries with the same flags give the same rights. */
  lemma SameRights(v: Vm, d: nat, n: nat, w: Vm, c: nat)
    requires Consistent(v) && Consistent(w) && d in v.dirs && c in w.dirs && n < PAGES
    ensures Flags(Pt(w, c, n)) == Flags(Pt(v, d, n)) && Present(Pt(w, c, n)) == Present(Pt(v, d, n)) ==>
              && (UserReads(w, c, n) <==> UserReads(v, d, n)) && (UserWrites(w, c, n) <==> UserWrites(v, d, n))
  {
    EntryDecides(v, d, n);
    EntryDecides(w, c, n);
  }

  lemma CopiedOne(v: Vm, u: Vm, y: Vm, d: nat, c: nat, n: nat, f: nat, p: Page)
    requires Copied(v, u, d, c, n) && n < USER && Present(Pt(v, d, n))
    requires FrameOf(Pt(v, d, n)) in v.mem && p == v.mem[FrameOf(Pt(v, d, n))]
    requires Added(u, y, c, n, f, Flags(Pt(v, d, n)), p)
    ensures Copied(v, y, d, c, n + 1)
  {
    GrownTrans(v, u, y, c);
    assert KeptUse(v, u, f, c);
    forall m | 0 <= m < n + 1 ensures CopiedPage(v, y, d, c, m) {
      SameRights(v, d, m, y, c);
      if m < n {
        assert CopiedPage(v, u, d, c, m) && Owns(u, Pte(c, m));
        assert KeptUse(u, y, FrameOf(Pt(u, c, m)), c);
      }
    }
  }

  /** The parent's page is still there to be copied. */
  lemma ParentPage(v: Vm, u: Vm, d: nat, c: nat, n: nat)
    requires Copied(v, u, d, c, n) && n < USER && Present(Pt(v, d, n))
    ensures Pt(u, d, n) == Pt(v, d, n)
    ensures var f := FrameOf(Pt(v, d, n));
            f in v.mem && f in u.mem && u.mem[f] == v.mem[f] && f in u.owner && u.owner[f] == Owned(Pte(d, n))
  {
    assert Owns(v, Pte(d, n));
    assert KeptUse(v, u, FrameOf(Pt(v, d, n)), c);
  }
}
