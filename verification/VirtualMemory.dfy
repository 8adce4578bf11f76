/** The frame allocator and the page table operations over it. */
module VirtualMemory {
  import opened Common
  import opened FrameCount
  import opened PageTable
  import opened Sequences

  // ---- the free list ----

  /** The kernel address of frame f, as stored in the `next` field; 0 for the end. */
  function LinkWord(f: nat): Word
    requires f < TOP
  {
    if f == 0 then 0 else f * PGSIZE + KERNBASE
  }

  function Linked(w: Word): nat {
    if w < KERNBASE then 0 else (w - KERNBASE) / PGSIZE
  }

  /** A freed frame: filled with ones, its first word the link to the next. */
  function Junk(next: Word): (p: Page)
    ensures p[0] == next
  {
    seq(ENTRIES, k => if k == 0 then next else 0x0101_0101)
  }

  predicate Follows(mem: map<nat, Page>, s: seq<nat>, k: nat)
    requires k < |s|
  {
    && s[k] in mem && 0 < s[k] < TOP
    && (k + 1 < |s| ==> 0 < s[k + 1] < TOP)
    && mem[s[k]][0] == if k + 1 < |s| then LinkWord(s[k + 1]) else 0
  }

  /** The links from head spell out s. */
  ghost predicate Links(mem: map<nat, Page>, head: nat, s: seq<nat>) {
    && head == (if s == [] then 0 else s[0])
    && forall k :: 0 <= k < |s| ==> Follows(mem, s, k)
  }

  lemma HeadOf(mem: map<nat, Page>, head: nat, s: seq<nat>)
    requires Links(mem, head, s)
    ensures head < TOP && (head == 0 <==> s == [])
  {
    assert s != [] ==> Follows(mem, s, 0);
  }

  lemma LinksFrame(mem: map<nat, Page>, new_: map<nat, Page>, head: nat, s: seq<nat>)
    requires Links(mem, head, s) && forall f :: f in s && f in mem ==> f in new_ && new_[f] == mem[f]
    ensures Links(new_, head, s)
  {
    forall k | 0 <= k < |s| ensures Follows(new_, s, k) {
      assert Follows(mem, s, k) && s[k] in s;
    }
  }

  lemma LinksPush(mem: map<nat, Page>, head: nat, s: seq<nat>, f: nat)
    requires Links(mem, head, s) && f !in s && 0 < f < TOP && head < TOP
    ensures Links(mem[f := Junk(LinkWord(head))], f, [f] + s)
  {
    var new_, t := mem[f := Junk(LinkWord(head))], [f] + s;
    forall k | 0 <= k < |t| ensures Follows(new_, t, k) {
      if k > 0 {
        assert Follows(mem, s, k - 1) && t[k] == s[k - 1] && s[k - 1] in s;
        assert k + 1 < |t| ==> t[k + 1] == s[k];
      } else if s != [] {
        assert Follows(mem, s, 0);
      }
    }
  }

  lemma LinksPop(mem: map<nat, Page>, head: nat, s: seq<nat>)
    requires Links(mem, head, s) && s != []
    ensures head in mem && 0 < head < TOP && Links(mem, Linked(mem[head][0]), s[1..])
  {
    assert Follows(mem, s, 0);
    forall k | 0 <= k < |s[1..]| ensures Follows(mem, s[1..], k) {
      assert Follows(mem, s, k + 1);
    }
  }

  class Machine {
    const lo: nat          // the first frame behind the kernel
    var mem: map<nat, Page>
    var head: nat
    ghost var free: seq<nat>
    ghost var v: Vm

    /** The free list is in order. */
    ghost predicate Pool()
      reads this
    {
      Links(mem, head, free) && Distinct(free)
    }

    ghost predicate Valid()
      reads this
    {
      && Pool() && v.mem == mem && Consistent(v)
      && (forall f :: f in v.owner ==> lo <= f && (v.owner[f] == Free <==> f in free))
      && forall f :: f in free ==> f in v.owner
    }

    /** freerange over the frames lo to hi-1: all of them are free. */
    constructor (lo: nat, hi: nat)
      requires 0 < lo <= hi <= TOP
      ensures Valid() && v.dirs == {}
      ensures forall f :: (f in v.owner <==> lo <= f < hi) && (f in v.owner ==> v.owner[f] == Free)
    {
      this.lo := lo;
      mem, head, free, v := map[], 0, [], Vm(map[], map[], {});
      new;
      var f := lo;
      while f < hi
        invariant lo <= f <= hi && this.lo == lo && Pool() && v.mem == mem && v.dirs == {}
        invariant forall g :: (g in v.owner <==> lo <= g < f) && (g in mem <==> lo <= g < f)
        invariant forall g :: g in free <==> lo <= g < f
        invariant forall g :: g in v.owner ==> v.owner[g] == Free
      {
        mem := mem[f := ZeroPage()];
        LinksFrame(v.mem, mem, head, free);
        var ok := Kfree(f);
        v := Vm(mem, v.owner[f := Free], {});
        f := f + 1;
      }
    }

    /** kalloc */
    method Kalloc() returns (r: nat)
      requires Valid()
      modifies this`head, this`free, this`v
      ensures Valid()
      ensures r == 0 ==> old(free) == free == [] && v == old(v)
      ensures r != 0 ==> old(free) == [r] + free
      ensures r != 0 ==> r in old(v).owner && old(v).owner[r] == Free && v == Moved(old(v), r, mem[r], Limbo)
    {
      HeadOf(mem, head, free);
      r := head;
      if r != 0 {
        LinksPop(mem, head, free);
        MovedConsistent(v, r, mem[r], Limbo);
        assert r in free && free == [r] + free[1..];
        head := Linked(mem[r][0]);
        free := free[1..];
        v := Moved(v, r, mem[r], Limbo);
      }
    }

    /** kfree of frame f; false stands for its panic. */
    method Kfree(f: nat) returns (ok: bool)
      requires Pool() && f in mem && f !in free && f > 0
      modifies this`mem, this`head, this`free
      ensures ok <==> lo <= f < TOP
      ensures !ok ==> mem == old(mem) && free == old(free)
      ensures Pool()
      ensures ok ==> free == [f] + old(free) && f in mem && mem == old(mem)[f := mem[f]]
    {
      if f < lo || f >= TOP {
        return false;
      }
      HeadOf(mem, head, free);
      LinksPush(mem, head, free, f);
      assert ([f] + free)[1..] == free;
      mem := mem[f := Junk(LinkWord(head))];
      head := f;
      free := [f] + free;
      ok := true;
    }

    /** A whole frame in limbo is written: memset or memmove. */
    method Fill(f: nat, p: Page)
      requires Valid() && f in v.owner && v.owner[f] == Limbo
      modifies this`mem, this`v
      ensures Valid() && v == Moved(old(v), f, p, Limbo)
    {
      MovedConsistent(v, f, p, Limbo);
      LinksFrame(mem, mem[f := p], head, free);
      mem := mem[f := p];
      v := Moved(v, f, p, Limbo);
    }

    /** kalloc, and if it yields a frame, all of it is written. */
    method NewFrame(p: Page) returns (r: nat)
      requires Valid()
      modifies this`mem, this`head, this`free, this`v
      ensures Valid()
      ensures r == 0 ==> old(free) == free == [] && v == old(v)
      ensures r != 0 ==> old(free) == [r] + free && r < TOP
      ensures r != 0 ==> r in old(v).owner && old(v).owner[r] == Free && v == Moved(old(v), r, p, Limbo)
    {
      ghost var w := v;
      r := Kalloc();
      if r != 0 {
        FreeFrame(w, r);
        Fill(r, p);
        MovedTwice(w, r, mem[r], p);
      }
    }

    /** walkpgdir: the table that serves page n, created if `alloc`; 0 if there is none and
        none can be had. */
    method Walk(d: nat, n: nat, alloc: bool) returns (t: nat)
      requires Valid() && d in v.dirs && n < PAGES
      modifies this`mem, this`head, this`free, this`v
      ensures Valid() && Walked(old(v), v, d, n, t)
      ensures t == 0 || !alloc ==> v == old(v) && free == old(free)
      ensures t == 0 && alloc ==> free == []
      ensures t != 0 ==> Present(v.mem[d][n / ENTRIES]) && Flags(v.mem[d][n / ENTRIES]) == 7
      ensures alloc ==> Paid(old(Tables(v, d)), Tables(v, d), n, false, |old(free)|, |free|, t != 0)
    {
      KeptSame(v, d);
      var pde := mem[d][n / ENTRIES];
      assert Owns(v, Pde(d, n / ENTRIES));
      if Present(pde) {
        t := FrameOf(pde);
        HungTables(v, v, d, n / ENTRIES);
        return;
      }
      if !alloc {
        return 0;
      }
      t := NewTable(d, n);
      assert Owns(v, Pde(d, n / ENTRIES));
    }

    /** The rest of walkpgdir: a zeroed frame becomes the table. */
    method NewTable(d: nat, n: nat) returns (t: nat)
      requires Valid() && d in v.dirs && n < PAGES && !Present(v.mem[d][n / ENTRIES])
      modifies this`mem, this`head, this`free, this`v
      ensures Valid() && Walked(old(v), v, d, n, t)
      ensures t == 0 ==> v == old(v) && free == old(free) == []
      ensures Paid(old(Tables(v, d)), Tables(v, d), n, false, |old(free)|, |free|, t != 0)
    {
      hide Grown, OwnedOnce, Owns;
      KeptSame(v, d);
      ghost var before := v;
      NoTable(v, d, n / ENTRIES);
      t := NewFrame(ZeroPage());
      if t == 0 {
        return;
      }
      TableHung(before, d, n / ENTRIES, t);
      Hang(d, n / ENTRIES, t);
      HungTables(before, v, d, n / ENTRIES);
    }

    /** Table t is put into directory entry x, present, writable and open to the user. */
    method Hang(d: nat, x: nat, t: nat)
      requires Valid() && d in v.dirs && x < ENTRIES && t < TOP && Consistent(Hung(v, d, x, t))
      requires t in v.owner && v.owner[t] == Limbo
      modifies this`mem, this`v
      ensures Valid() && v == Hung(old(v), d, x, t)
    {
      LinksFrame(mem, mem[d := mem[d][x := Entry(t, 7)]], head, free);
      mem := mem[d := mem[d][x := Entry(t, 7)]];
      v := Hung(v, d, x, t);
    }

    /** mappages of one user page onto frame f. That the page is not mapped yet is what keeps
        the panic "remap" away. x is the state once the table is there. */
    method MapUser(d: nat, n: nat, f: nat, perm: nat) returns (ok: bool, ghost x: Vm)
      requires Valid() && d in v.dirs && n < USER && perm < PGSIZE && f in v.owner && v.owner[f] == Limbo
      requires !Present(Pt(v, d, n))
      modifies this`mem, this`head, this`free, this`v
      ensures Valid()
      ensures !ok ==> v == old(v)
      ensures v.dirs == old(v).dirs && Paid(old(Tables(v, d)), Tables(v, d), n, false, |old(free)|, |free|, ok)
      ensures ok ==> Consistent(x) && d in x.dirs && Walked(old(v), x, d, n, Table(x, d, n / ENTRIES))
      ensures ok ==> Table(x, d, n / ENTRIES) in x.mem && Table(x, d, n / ENTRIES) != 0 && f < TOP
      ensures ok ==> v == Mapped(x, d, n, f, perm)
    {
      var t := Walk(d, n, true);
      x := v;
      if t == 0 {
        return false, x;
      }
      TableOwned(x, d, n / ENTRIES);
      assert KeptUse(old(v), x, f, d);
      FreeFrame(x, f);
      WriteUser(d, n, f, perm, t);
      ok := true;
    }

    /** The entry of a user page is written. */
    method WriteUser(d: nat, n: nat, f: nat, perm: nat, t: nat)
      requires Valid() && d in v.dirs && n < USER && perm < PGSIZE && f in v.owner && v.owner[f] == Limbo && f < TOP
      requires t == Table(v, d, n / ENTRIES) != 0 && t in v.mem && !Present(Pt(v, d, n))
      modifies this`mem, this`v
      ensures Valid() && v == Mapped(old(v), d, n, f, perm) && Tables(v, d) == old(Tables(v, d))
    {
      ghost var x := v;
      MappedConsistent(v, d, n, f, perm);
      TableOwned(v, d, n / ENTRIES);
      LinksFrame(mem, mem[t := mem[t][n % ENTRIES := Entry(f, perm)]], head, free);
      mem := mem[t := mem[t][n % ENTRIES := Entry(f, perm)]];
      v := Mapped(v, d, n, f, perm);
      SameDirectory(x, v, d, ENTRIES);
    }

    /** mappages of one user page onto a frame just taken off the free list and filled. */
    method MapFrame(d: nat, n: nat, f: nat, perm: nat, ghost w: Vm, ghost p: Page) returns (ok: bool)
      requires Valid() && Consistent(w) && d in w.dirs && f in w.owner && w.owner[f] == Free && f < TOP
      requires v == Moved(w, f, p, Limbo)
      requires n < USER && perm < PGSIZE && !Present(Pt(w, d, n))
      modifies this`mem, this`head, this`free, this`v
      ensures Valid()
      ensures !ok ==> v == old(v)
      ensures ok ==> Added(w, v, d, n, f, perm, p)
      ensures v.dirs == w.dirs && Paid(Tables(w, d), Tables(v, d), n, false, |old(free)|, |free|, ok)
    {
      MovedConsistent(w, f, p, Limbo);
      SameDirectory(w, v, d, ENTRIES);
      ghost var x;
      ok, x := MapUser(d, n, f, perm);
      if ok {
        PageAdded(w, x, d, n, f, perm, p);
      }
    }

    /** mappages of `count` kernel pages from `first` onto the frames from pa. */
    method MapKernel(d: nat, first: nat, count: nat, pa: nat, perm: nat) returns (ok: bool)
      requires Valid() && d in v.dirs && USER <= first && 0 < count && first + count <= PAGES
      requires pa + count <= PAGES && perm < PGSIZE
      requires RunOpen(v, d, first, count)
      modifies this`mem, this`head, this`free, this`v
      ensures Valid() && RunMapped(old(v), v, d, first, count, pa, perm, ok) && d in v.dirs
      ensures Ledger(old(Tables(v, d)), Tables(v, d), first, first + count, first + count, false, |old(free)|,
              |free|, ok)
    {
      ghost var u, s := v, Tables(v, d);
      KeptSame(v, d);
      LedgerStart(s, first, first + count, false, |free|);
      var k := 0;
      ok := true;
      while ok && k < count
        invariant k <= count && Running(u, d, first, k, count, pa, perm, |old(free)|, ok)
      {
        ok := MapKernelTurn(d, first, k, count, pa, perm, u, |old(free)|);
        k := k + 1;
      }
    }

    /** mappages has come to page first + k, or has run out of memory, out of `before` frames. */
    ghost predicate Running(u: Vm, d: nat, first: nat, k: nat, count: nat, pa: nat, perm: nat, before: nat, ok: bool)
      requires Shaped(u) && d in u.dirs && k <= count && first + count <= PAGES && pa + count <= PAGES && perm < PGSIZE
      reads this
    {
      match ok
      case true =>
        && Valid() && RunMapped(u, v, d, first, k, pa, perm, true)
        && Ledger(Tables(u, d), Tables(v, d), first, first + k, first + count, false, before, |free|, true)
      case false =>
        Valid() && RunMapped(u, v, d, first, k, pa, perm, false)
            && before < Cost(Tables(u, d), first, first + count, false)
    }

    /** One turn of mappages. */
    method MapKernelTurn(d: nat, first: nat, k: nat, count: nat, pa: nat, perm: nat, ghost u: Vm, ghost before: nat)
        returns (ok: bool)
      requires USER <= first && k < count && first + count <= PAGES && pa + count <= PAGES && perm < PGSIZE
      requires Shaped(u) && d in u.dirs && Running(u, d, first, k, count, pa, perm, before, true)
               && !There(u, d, first + k)
      modifies this`mem, this`head, this`free, this`v
      ensures Running(u, d, first, k + 1, count, pa, perm, before, ok)
    {
      ghost var w, mid := v, |free|;
      ok := MapKernelPage(d, first + k, Entry(pa + k, perm));
      RunStep(u, w, v, d, first, k, count, pa, perm, before, mid, |free|, ok);
    }

    /** walkpgdir, and the entry is written. That it was not present keeps "remap" away. */
    method MapKernelPage(d: nat, n: nat, w: Word) returns (ok: bool)
      requires Valid() && d in v.dirs && USER <= n < PAGES && !Present(Pt(v, d, n))
      modifies this`mem, this`head, this`free, this`v
      ensures Valid() && PageWritten(old(v), v, d, n, w, ok) && d in v.dirs
      ensures Paid(old(Tables(v, d)), Tables(v, d), n, false, |old(free)|, |free|, ok)
    {
      var t := Walk(d, n, true);
      ok := t != 0;
      if ok {
        WriteKernel(d, n, w, t);
      }
    }

    /** The entry of a kernel page is written. */
    method WriteKernel(d: nat, n: nat, w: Word, t: nat)
      requires Valid() && d in v.dirs && USER <= n < PAGES && t == Table(v, d, n / ENTRIES) != 0
      modifies this`mem, this`v
      ensures Valid() && v.dirs == old(v).dirs && Tables(v, d) == old(Tables(v, d))
      ensures forall u :: Grown(u, old(v), d) ==> Grown(u, v, d)
      ensures forall e, m :: e in v.dirs && 0 <= m < PAGES ==>
                Pt(v, e, m) == if e == d && m == n then w else Pt(old(v), e, m)
    {
      KernelConsistent(v, d, n, w);
      WroteEntries(v, d, n, w);
      TableOwned(v, d, n / ENTRIES);
      LinksFrame(mem, mem[t := mem[t][n % ENTRIES := w]], head, free);
      WroteGrown(v, d, n, w);
      mem := mem[t := mem[t][n % ENTRIES := w]];
      v := Wrote(v, d, n, w);
      SameDirectory(old(v), v, d, ENTRIES);
    }

    /** A mapped page: its frame is freed and its entry cleared. */
    method FreePage(d: nat, n: nat, t: nat, ghost u: Vm, ghost from: nat)
      requires Valid() && d in v.dirs && n < USER && t == Table(v, d, n / ENTRIES) != 0 && t in mem
      requires Present(mem[t][n % ENTRIES]) && from <= n && Cleared(u, v, d, from, n)
      modifies this`mem, this`head, this`free, this`v
      ensures Valid() && Cleared(u, v, d, from, n + 1)
    {
      hide Cleared;
      ghost var x := v;
      var pa := FrameOf(mem[t][n % ENTRIES]);
      PageFrames(x, d, n);
      var ok := Kfree(pa);
      ghost var junk := mem[pa];
      ghost var y := ClearedOne(u, x, d, from, n, junk);
      ClearEntry(t, n % ENTRIES);
      FreedMemory(x, d, n, junk);
      FreedOwners(x, y, old(free), lo, pa);
      assert mem == y.mem;
      v := y;
    }

    /** Entry k of table t is cleared. */
    method ClearEntry(t: nat, k: nat)
      requires Pool() && t in mem && t !in free && k < ENTRIES
      modifies this`mem
      ensures Pool() && mem == old(mem)[t := old(mem)[t][k := 0]]
    {
      LinksFrame(mem, mem[t := mem[t][k := 0]], head, free);
      mem := mem[t := mem[t][k := 0]];
    }

    /** deallocuvm. Directory entries without a table are skipped whole; the effect is that
        of visiting every page. */
    method Deallocuvm(d: nat, oldsz: nat, newsz: nat) returns (r: nat)
      requires Valid() && d in v.dirs && oldsz <= KERNBASE
      modifies this`mem, this`head, this`free, this`v
      ensures Valid()
      ensures r == if newsz >= oldsz then oldsz else newsz
      ensures Cleared(old(v), v, d, RoundUp(newsz), if newsz >= oldsz then RoundUp(newsz) else RoundUp(oldsz))
    {
      ghost var u, from, to := v, RoundUp(newsz), RoundUp(oldsz);
      ClearedNone(v, d, from);
      if newsz >= oldsz {
        return oldsz;
      }
      PageOrder(newsz, oldsz);
      var a := (newsz + PGSIZE - 1) / PGSIZE * PGSIZE;
      ghost var n := from;
      while a < oldsz
        invariant a == n * PGSIZE && from <= Least(n, to)
        invariant Valid() && Cleared(u, v, d, from, Least(n, to))
        decreases oldsz - a
      {
        PageBelow(a, n, oldsz);
        a, n := ClearTurn(d, a, n, u, from, to);
        a := a + PGSIZE;
      }
      PagePast(a, n, oldsz);
      r := newsz;
    }

    /** One turn of deallocuvm, up to the addition of PGSIZE: a page, or all the pages of a
        table that is not there. */
    method ClearTurn(d: nat, a: nat, ghost n: nat, ghost u: Vm, ghost from: nat, ghost to: nat)
      returns (b: nat, ghost m: nat)
      requires Valid() && d in v.dirs && a == n * PGSIZE && from <= n < to <= USER && Cleared(u, v, d, from, n)
      modifies this`mem, this`head, this`free, this`v
      ensures Valid() && b + PGSIZE == m * PGSIZE && n < m && Cleared(u, v, d, from, Least(m, to))
    {
      hide Valid, Cleared;
      var page := a / PGSIZE;
      assert page == n;
      b := a;
      var t := Walk(d, page, false);
      if t == 0 {
        m := (page / ENTRIES + 1) * ENTRIES;
        ClearedSkip(u, v, d, from, page, to);
        b := (page / ENTRIES + 1) * ENTRIES * PGSIZE - PGSIZE;
      } else {
        m := n + 1;
        assert Least(m, to) == page + 1;
        DropPage(d, page, t, u, from);
      }
    }

    /** One page under a table: freed if it is mapped. */
    method DropPage(d: nat, n: nat, t: nat, ghost u: Vm, ghost from: nat)
      requires Valid() && d in v.dirs && n < USER && t == Table(v, d, n / ENTRIES) != 0
      requires from <= n && Cleared(u, v, d, from, n)
      modifies this`mem, this`head, this`free, this`v
      ensures Valid() && Cleared(u, v, d, from, n + 1)
    {
      TableOwned(v, d, n / ENTRIES);
      if Present(mem[t][n % ENTRIES]) {
        FreePage(d, n, t, u, from);
      } else {
        ClearedAbsent(u, v, d, from, n);
      }
    }

    /** freevm: every user frame, every page table and the directory go back to the free list,
        each once. */
    method Freevm(d: nat)
      requires Valid() && d in v.dirs
      modifies this`mem, this`head, this`free, this`v
      ensures Valid() && Dissolved(old(v), v, d)
    {
      hide Tearing, Dissolved, Cleared, Consistent;
      ghost var u := v;
      var r := Deallocuvm(d, KERNBASE, 0);
      ghost var y := TearStart(u, v, d);
      v := y;
      TearTables(d, u);
      FreeDir(d, u);
    }

    /** The loop of freevm over the directory. */
    method TearTables(d: nat, ghost u: Vm)
      requires Valid() && Tearing(u, v, d, 0)
      modifies this`mem, this`head, this`free, this`v
      ensures Valid() && Tearing(u, v, d, ENTRIES)
    {
      hide Valid, Tearing;
      var i: nat := 0;
      while i < ENTRIES
        invariant i <= ENTRIES && Valid() && Tearing(u, v, d, i)
      {
        TearDown(d, i, u);
        i := i + 1;
      }
    }

    /** The directory itself is freed. */
    method FreeDir(d: nat, ghost u: Vm)
      requires Valid() && Tearing(u, v, d, ENTRIES)
      modifies this`mem, this`head, this`free, this`v
      ensures Valid() && Dissolved(u, v, d)
    {
      ghost var w := v;
      ghost var y := TearEnd(u, w, d, ZeroPage());
      var ok := Kfree(d);
      y := TearEnd(u, w, d, mem[d]);
      v := y;
    }

    /** One turn of the loop of freevm. */
    method TearDown(d: nat, i: nat, ghost u: Vm)
      requires Valid() && Tearing(u, v, d, i) && i < ENTRIES
      modifies this`mem, this`head, this`free, this`v
      ensures Valid() && Tearing(u, v, d, i + 1)
    {
      ghost var w := v;
      if Present(mem[d][i]) {
        TornTable(u, w, d, i);
        var t := FrameOf(mem[d][i]);
        var ok := Kfree(t);
        ghost var y := TearStep(u, w, d, i, mem[t]);
        v := y;
      } else {
        ghost var y := TearStep(u, w, d, i, ZeroPage());
      }
    }

    /** setupkvm for the kernel regions of kmap: a directory with no user pages that maps
        exactly those; or, exactly if there are too few frames for that, 0 and every frame
        where it was. */
    method Setupkvm(kmap: seq<Region>) returns (d: nat)
      requires Valid() && Disjoint(kmap)
      modifies this`mem, this`head, this`free, this`v
      ensures Valid()
      ensures d == 0 ==> Restored(old(v), v) && |old(free)| < KernelCost(kmap, |kmap|)
      ensures d != 0 ==> Born(old(v), v, d, kmap, |kmap|) && Bill(kmap, Tables(v, d), |kmap|, |old(free)|, |free|, true)
    {
      ghost var u := v;
      d := NewFrame(ZeroPage());
      if d == 0 {
        return;
      }
      BornEmpty(u, d, kmap);
      v := Adopted(v, d);
      BillStart(kmap, v, d, |free|);
      var ok := MapRegions(d, kmap, u, |free| + 1);
      if !ok {
        ghost var x := v;
        Freevm(d);
        GrownThenDissolved(u, x, v, d);
        d := 0;
      }
    }

    /** The loop of setupkvm. */
    method MapRegions(d: nat, kmap: seq<Region>, ghost u: Vm, ghost before: nat) returns (ok: bool)
      requires Valid() && Born(u, v, d, kmap, 0) && Bill(kmap, Tables(v, d), 0, before, |free|, true)
      modifies this`mem, this`head, this`free, this`v
      ensures Valid() && d in v.dirs && Bill(kmap, Tables(v, d), |kmap|, before, |free|, ok)
      ensures BornState(u, v, d, kmap, |kmap|, ok)
    {
      var k := 0;
      ok := true;
      while ok && k < |kmap|
        invariant k <= |kmap| && Valid() && d in v.dirs && Bill(kmap, Tables(v, d), k, before, |free|, ok)
        invariant BornState(u, v, d, kmap, k, ok)
      {
        ok := MapRegion(d, kmap, k, u, before);
        k := k + 1;
      }
    }

    method MapRegion(d: nat, kmap: seq<Region>, k: nat, ghost u: Vm, ghost before: nat) returns (ok: bool)
      requires Valid() && Born(u, v, d, kmap, k) && k < |kmap| && Bill(kmap, Tables(v, d), k, before, |free|, true)
      modifies this`mem, this`head, this`free, this`v
      ensures Valid() && d in v.dirs && Bill(kmap, Tables(v, d), k + 1, before, |free|, ok)
      ensures BornState(u, v, d, kmap, k + 1, ok)
    {
      hide Bill, BornState, Grown, OwnedOnce;
      ghost var w, mid := v, |free|;
      RegionOpen(u, v, d, kmap, k);
      var g := kmap[k];
      ok := MapKernel(d, g.first, g.count, g.pa, g.perm);
      BillStep(kmap, k, Tables(w, d), Tables(v, d), before, mid, |free|, ok);
      BornMore(u, w, v, d, kmap, k, ok);
    }

    /** allocuvm: if there are frames enough for the pages from oldsz up to newsz and for the
        tables they lack, newsz, and each page has been mapped to a zeroed frame; otherwise 0,
        and the mappings are what they were. */
    method Allocuvm(d: nat, oldsz: nat, newsz: nat) returns (r: nat)
      requires Valid() && d in v.dirs
      requires NoneThere(v, d, RoundUp(oldsz), RoundUp(newsz))
      modifies this`mem, this`head, this`free, this`v
      ensures Valid()
      ensures newsz >= KERNBASE ==> r == 0 && v == old(v)
      ensures newsz < KERNBASE && newsz < oldsz ==> r == oldsz && v == old(v)
      ensures newsz < KERNBASE && newsz >= oldsz ==>
                var cost := Cost(old(Tables(v, d)), RoundUp(oldsz), RoundUp(newsz), true);
                if |old(free)| >= cost then
                  r == newsz && Extended(old(v), v, d, RoundUp(oldsz), RoundUp(newsz)) && |free| == |old(free)| - cost
                else
                  r == 0 && SameMappings(old(v), v, d)
    {
      if newsz >= KERNBASE {
        return 0;
      }
      if newsz < oldsz {
        return oldsz;
      }
      ghost var u := v;
      KeptSame(v, d);
      PageOrder(oldsz, newsz);
      LedgerStart(Tables(v, d), RoundUp(oldsz), RoundUp(newsz), true, |free|);
      var ok := AllocPages(d, oldsz, newsz, RoundUp(oldsz), RoundUp(newsz), u, |free|);
      r := if ok then newsz else 0;
    }

    /** allocuvm has come to page n, or has run out of memory, out of `before` frames. */
    ghost predicate Extending(u: Vm, d: nat, lo: nat, n: nat, hi: nat, before: nat, ok: bool)
      requires Shaped(u) && d in u.dirs && n <= USER && hi <= USER
      reads this
    {
      match ok
      case true =>
        && Valid() && Extended(u, v, d, lo, n)
        && Ledger(Tables(u, d), Tables(v, d), lo, n, hi, true, before, |free|, true)
      case false =>
        Valid() && SameMappings(u, v, d) && before < Cost(Tables(u, d), lo, hi, true)
    }

    /** The loop of allocuvm. */
    method AllocPages(d: nat, oldsz: nat, newsz: nat, ghost lo: nat, ghost hi: nat, ghost u: Vm, ghost before: nat)
        returns (ok: bool)
      requires oldsz <= newsz < KERNBASE && lo == RoundUp(oldsz) <= hi == RoundUp(newsz)
      requires hi <= USER && Shaped(u) && d in u.dirs && Extending(u, d, lo, lo, hi, before, true)
               && NoneThere(u, d, lo, hi)
      modifies this`mem, this`head, this`free, this`v
      ensures Extending(u, d, lo, hi, hi, before, ok)
    {
      var a: nat := (oldsz + PGSIZE - 1) / PGSIZE * PGSIZE;
      ghost var n := lo;
      ok := true;
      while ok && a < newsz
        invariant lo <= n <= hi && (if ok then a == n * PGSIZE else n == hi) && Extending(u, d, lo, n, hi, before, ok)
        decreases ok, newsz - a
      {
        PageBelow(a, n, newsz);
        ok, n := AllocTurn(d, a / PGSIZE, oldsz, newsz, lo, hi, u, before);
        a := a + PGSIZE;
      }
      PageEnd(a, n, newsz);
    }

    /** One turn of allocuvm, with its cost. */
    method AllocTurn(d: nat, n: nat, oldsz: nat, newsz: nat, ghost lo: nat, ghost hi: nat, ghost u: Vm,
        ghost before: nat)
      returns (ok: bool, ghost m: nat)
      requires newsz < KERNBASE && oldsz < newsz && lo == RoundUp(oldsz) <= n < hi == RoundUp(newsz)
      requires hi <= USER && Shaped(u) && d in u.dirs && Extending(u, d, lo, n, hi, before, true)
               && NoneThere(u, d, lo, hi)
      modifies this`mem, this`head, this`free, this`v
      ensures m == (if ok then n + 1 else hi) && Extending(u, d, lo, m, hi, before, ok)
    {
      ghost var t, mid := Tables(v, d), |free|;
      forall m | lo <= m < hi ensures !Present(Pt(u, d, m)) {
        assert !There(u, d, m);
      }
      ok := AllocPage(d, n, oldsz, newsz, u);
      LedgerStep(Tables(u, d), t, Tables(v, d), lo, n, hi, true, before, mid, |free|, ok);
      m := if ok then n + 1 else hi;
    }

    /** One turn of allocuvm; on failure the range is deallocated again. */
    method AllocPage(d: nat, n: nat, oldsz: nat, newsz: nat, ghost u: Vm) returns (ok: bool)
      requires Valid() && newsz < KERNBASE && oldsz < newsz && RoundUp(oldsz) <= n < RoundUp(newsz)
      requires Extended(u, v, d, RoundUp(oldsz), n)
      requires forall m :: RoundUp(oldsz) <= m < RoundUp(newsz) && m < USER ==> !Present(Pt(u, d, m))
      modifies this`mem, this`head, this`free, this`v
      ensures Valid() && ExtendState(u, v, d, RoundUp(oldsz), n + 1, ok)
      ensures v.dirs == old(v).dirs && Paid(old(Tables(v, d)), Tables(v, d), n, true, |old(free)|, |free|, ok)
    {
      ghost var w := v;
      var mem' := NewFrame(ZeroPage());
      if mem' == 0 {
        var r := Deallocuvm(d, newsz, oldsz);
        ExtendedCleared(u, w, v, d, RoundUp(oldsz), n, RoundUp(newsz));
        return false;
      }
      ok := AllocFrame(mem', d, n, oldsz, newsz, u, w);
    }

    /** The rest of that turn: the frame is mapped. */
    method AllocFrame(mem': nat, d: nat, n: nat, oldsz: nat, newsz: nat, ghost u: Vm, ghost w: Vm) returns (ok: bool)
      requires Valid() && newsz < KERNBASE && oldsz < newsz && RoundUp(oldsz) <= n < RoundUp(newsz)
      requires Extended(u, w, d, RoundUp(oldsz), n) && mem' in w.owner && w.owner[mem'] == Free
      requires mem' < TOP && v == Moved(w, mem', ZeroPage(), Limbo)
      requires forall m :: RoundUp(oldsz) <= m < RoundUp(newsz) && m < USER ==> !Present(Pt(u, d, m))
      modifies this`mem, this`head, this`free, this`v
      ensures Valid() && ExtendState(u, v, d, RoundUp(oldsz), n + 1, ok)
      ensures v.dirs == w.dirs && Paid(Tables(w, d), Tables(v, d), n, false, |old(free)|, |free|, ok)
    {
      ok := MapFrame(d, n, mem', 6, w, ZeroPage());
      if ok {
        ExtendedOne(u, w, v, d, RoundUp(oldsz), n, mem');
        return;
      }
      TakeBack(mem', w, d, oldsz, newsz);
      ExtendedCleared(u, w, v, d, RoundUp(oldsz), n, RoundUp(newsz));
    }

    /** The second failure of allocuvm: clear the range, then free the frame just taken. */
    method TakeBack(f: nat, ghost w: Vm, d: nat, oldsz: nat, newsz: nat)
      requires Valid() && Consistent(w) && d in w.dirs && f in w.owner && w.owner[f] == Free
      requires oldsz < newsz < KERNBASE && v == Moved(w, f, ZeroPage(), Limbo)
      modifies this`mem, this`head, this`free, this`v
      ensures Valid() && Cleared(w, v, d, RoundUp(oldsz), RoundUp(newsz))
    {
      var r := Deallocuvm(d, newsz, oldsz);
      GiveBack(f, w, d, RoundUp(oldsz), RoundUp(newsz));
    }

    /** kfree of a frame that was taken and filled before a range was cleared. */
    method GiveBack(f: nat, ghost w: Vm, ghost d: nat, ghost lo: nat, ghost hi: nat)
      requires Valid() && Consistent(w) && d in w.dirs && f in w.owner && w.owner[f] == Free
      requires Cleared(Moved(w, f, ZeroPage(), Limbo), v, d, lo, hi)
      modifies this`mem, this`head, this`free, this`v
      ensures Valid() && Cleared(w, v, d, lo, hi)
    {
      hide Cleared;
      ghost var x := v;
      TakenCleared(w, x, d, lo, hi, f, ZeroPage());
      var ok := Kfree(f);
      TakenCleared(w, x, d, lo, hi, f, mem[f]);
      v := Moved(x, f, mem[f], Free);
    }

    /** copyuvm: if there are frames enough, a new address space whose user pages are copies of
        d's, page for page, in frames of its own; otherwise 0, and the free frames are exactly
        what they were. That the pages are there to be copied keeps its two panics away. */
    method Copyuvm(d: nat, sz: nat, kmap: seq<Region>) returns (c: nat)
      requires Valid() && d in v.dirs && Disjoint(kmap) && sz <= KERNBASE
      requires AllThere(v, d, RoundUp(sz))
      modifies this`mem, this`head, this`free, this`v
      ensures Valid()
      ensures |old(free)| < SpaceCost(kmap, RoundUp(sz)) ==> c == 0 && Restored(old(v), v)
      ensures |old(free)| >= SpaceCost(kmap, RoundUp(sz)) ==>
                && c != 0 && Copied(old(v), v, d, c, RoundUp(sz)) && KernelPart(v, c, kmap)
                && |free| == |old(free)| - SpaceCost(kmap, RoundUp(sz))
    {
      CostMore(KernelTables(kmap, |kmap|), 0, 0, RoundUp(sz), true);
      ghost var u := v;
      c := Setupkvm(kmap);
      if c == 0 {
        return;
      }
      CopiedNone(u, v, d, c, kmap);
      LedgerStart(KernelTables(kmap, |kmap|), 0, RoundUp(sz), true, |free|);
      var ok := CopyPages(d, c, sz, RoundUp(sz), u, kmap, |free|);
      if !ok {
        ghost var x := v;
        Freevm(c);
        GrownThenDissolved(u, x, v, c);
        c := 0;
      }
    }

    /** copyuvm has copied n of the hi pages, or has run out of memory, out of `before` frames. */
    ghost predicate Copying(u: Vm, d: nat, c: nat, n: nat, hi: nat, kmap: seq<Region>, before: nat, ok: bool)
      reads this
    {
      Valid() && Disjoint(kmap) && n <= PAGES && hi <= PAGES
      && match ok
         case true =>
           && Copied(u, v, d, c, n) && KernelPart(v, c, kmap)
           && Ledger(KernelTables(kmap, |kmap|), Tables(v, c), 0, n, hi, true, before, |free|, true)
         case false =>
           HalfBorn(u, v, c) && before < Cost(KernelTables(kmap, |kmap|), 0, hi, true)
    }

    /** The loop of copyuvm. */
    method CopyPages(d: nat, c: nat, sz: nat, ghost hi: nat, ghost u: Vm, ghost kmap: seq<Region>,
        ghost before: nat) returns (ok: bool)
      requires sz <= KERNBASE && hi == RoundUp(sz) && Copying(u, d, c, 0, hi, kmap, before, true)
      requires Shaped(u) && d in u.dirs && AllThere(u, d, hi)
      modifies this`mem, this`head, this`free, this`v
      ensures Copying(u, d, c, hi, hi, kmap, before, ok)
    {
      var i: nat := 0;
      ghost var n := 0;
      ok := true;
      while ok && i < sz
        invariant n <= hi && (if ok then i == n * PGSIZE else n == hi) && Copying(u, d, c, n, hi, kmap, before, ok)
        decreases ok, sz - i
      {
        PageBelow(i, n, sz);
        ok, n := CopyTurn(d, c, i / PGSIZE, hi, u, kmap, before);
        i := i + PGSIZE;
      }
      PageEnd(i, n, sz);
    }

    /** One turn of copyuvm, with its cost. */
    method CopyTurn(d: nat, c: nat, n: nat, ghost hi: nat, ghost u: Vm, ghost kmap: seq<Region>, ghost before: nat)
      returns (ok: bool, ghost m: nat)
      requires n < hi <= USER && Copying(u, d, c, n, hi, kmap, before, true)
      requires Shaped(u) && d in u.dirs && There(u, d, n)
      modifies this`mem, this`head, this`free, this`v
      ensures m == (if ok then n + 1 else hi) && Copying(u, d, c, m, hi, kmap, before, ok)
    {
      ghost var t, mid := Tables(v, c), |free|;
      ok := CopyPage(d, c, n, u, kmap);
      LedgerStep(KernelTables(kmap, |kmap|), t, Tables(v, c), 0, n, hi, true, before, mid, |free|, ok);
      m := if ok then n + 1 else hi;
    }

    /** One turn of copyuvm. */
    method CopyPage(d: nat, c: nat, n: nat, ghost u: Vm, ghost kmap: seq<Region>) returns (ok: bool)
      requires Valid() && Copied(u, v, d, c, n) && n < USER && Present(Pt(u, d, n)) && KernelPart(v, c, kmap)
      modifies this`mem, this`head, this`free, this`v
      ensures Valid()
      ensures CopyState(u, v, d, c, n + 1, kmap, ok)
      ensures c in v.dirs && Paid(old(Tables(v, c)), Tables(v, c), n, true, |old(free)|, |free|, ok)
    {
      ghost var w := v;
      ParentPage(u, w, d, c, n);
      var t := Walk(d, n, false);
      var pte := mem[t][n % ENTRIES];
      var pa, flags := FrameOf(pte), Flags(pte);
      ghost var page := u.mem[pa];
      var mem' := NewFrame(mem[pa]);
      if mem' == 0 {
        return false;
      }
      ok := MapFrame(c, n, mem', flags, w, page);
      if ok {
        CopiedOne(u, w, v, d, c, n, mem', page);
      } else {
        PutBack(mem', w, page, u, c);
      }
    }

    /** kfree of a frame just taken and filled. */
    method PutBack(f: nat, ghost w: Vm, ghost page: Page, ghost u: Vm, ghost c: nat)
      requires Valid() && Consistent(u) && Consistent(w) && Grown(u, w, c) && f in w.owner && w.owner[f] == Free
      requires v == Moved(w, f, page, Limbo)
      modifies this`mem, this`head, this`free, this`v
      ensures Valid() && Grown(u, v, c) && v.dirs == w.dirs
    {
      FreeFrame(w, f);
      var ok := Kfree(f);
      Returned(u, w, c, f, page, mem[f]);
      v := Moved(v, f, mem[f], Free);
    }
  }

  lemma MovedTwice(w: Vm, f: nat, p: Page, q: Page)
    ensures Moved(Moved(w, f, p, Limbo), f, q, Limbo) == Moved(w, f, q, Limbo)
  {
    assert w.mem[f := p][f := q] == w.mem[f := q];
    assert w.owner[f := Limbo][f := Limbo] == w.owner[f := Limbo];
  }

  lemma FreeFrame(w: Vm, f: nat)
    requires Consistent(w) && f in w.owner
    ensures 0 < f < TOP
  {
    assert OwnedOnce(w, f);
  }

  /** allocuvm has come to page n, or has run out of memory. */
  ghost predicate ExtendState(u: Vm, v: Vm, d: nat, lo: nat, n: nat, ok: bool) {
    match ok
    case true => Extended(u, v, d, lo, n)
    case false => SameMappings(u, v, d)
  }

  /** copyuvm has copied n pages, or has run out of memory. */
  ghost predicate CopyState(u: Vm, v: Vm, d: nat, c: nat, n: nat, kmap: seq<Region>, ok: bool) {
    match ok
    case true => Copied(u, v, d, c, n) && KernelPart(v, c, kmap)
    case false => HalfBorn(u, v, c)
  }

  ghost predicate KernelPart(v: Vm, d: nat, kmap: seq<Region>) {
    && Shaped(v) && d in v.dirs && Disjoint(kmap)
    && forall n :: USER <= n < PAGES ==> Pt(v, d, n) == KernelEntry(kmap, |kmap|, n)
  }

  lemma CopiedNone(u: Vm, v: Vm, d: nat, c: nat, kmap: seq<Region>)
    requires Born(u, v, c, kmap, |kmap|) && d in u.dirs
    ensures Copied(u, v, d, c, 0) && KernelPart(v, c, kmap)
  {
  }

  /** A frame taken, filled and freed again is free, and the rest is as it was. */
  lemma Returned(u: Vm, w: Vm, c: nat, f: nat, page: Page, junk: Page)
    requires Consistent(u) && Consistent(w) && Grown(u, w, c) && f in w.owner && w.owner[f] == Free
    ensures var x := Moved(w, f, page, Limbo);
            Consistent(x) && Consistent(Moved(x, f, junk, Free)) && Grown(u, Moved(x, f, junk, Free), c)
  {
    MovedConsistent(w, f, page, Limbo);
    var x := Moved(w, f, page, Limbo);
    MovedConsistent(x, f, junk, Free);
    forall g | g in u.owner ensures KeptUse(u, Moved(x, f, junk, Free), g, c) {
      assert KeptUse(u, w, g, c);
    }
  }

  lemma PageAdded(u: Vm, x: Vm, d: nat, n: nat, f: nat, perm: nat, p: Page)
    requires Consistent(u) && d in u.dirs && f in u.owner && u.owner[f] == Free && n < USER && perm < PGSIZE && f < TOP
    requires Consistent(x) && d in x.dirs && Table(x, d, n / ENTRIES) != 0 && Table(x, d, n / ENTRIES) in x.mem
    requires Walked(Moved(u, f, p, Limbo), x, d, n, Table(x, d, n / ENTRIES))
    requires !Present(Pt(u, d, n))
    ensures Added(u, Mapped(x, d, n, f, perm), d, n, f, perm, p)
  {
    MovedConsistent(u, f, p, Limbo);
    var w, y := Moved(u, f, p, Limbo), Mapped(x, d, n, f, perm);
    assert KeptUse(w, x, f, d);
    MappedConsistent(x, d, n, f, perm);
    TableOwned(x, d, n / ENTRIES);
    forall g | g in u.owner ensures KeptUse(u, y, g, d) {
      assert KeptUse(w, x, g, d);
      assert OwnedOnce(u, g);
    }
  }

  lemma TakenCleared(w: Vm, x: Vm, d: nat, lo: nat, hi: nat, f: nat, junk: Page)
    requires Consistent(w) && d in w.dirs && f in w.owner && w.owner[f] == Free
    requires Cleared(Moved(w, f, ZeroPage(), Limbo), x, d, lo, hi)
    ensures f in x.owner && x.owner[f] == Limbo && Cleared(w, Moved(x, f, junk, Free), d, lo, hi)
  {
    var u := Moved(w, f, ZeroPage(), Limbo);
    MovedConsistent(w, f, ZeroPage(), Limbo);
    assert ClearedFrame(u, x, f, d, lo, hi);
    MovedConsistent(x, f, junk, Free);
    var y := Moved(x, f, junk, Free);
    forall g | g in w.owner ensures ClearedFrame(w, y, g, d, lo, hi) {
      assert ClearedFrame(u, x, g, d, lo, hi);
    }
  }

  // ---- the kernel part ----

  /** Pages first to first+k-1 of d are mapped onto the frames from pa, or memory ran out at
      the last of them; every other entry is what it was. */
  ghost predicate RunMapped(u: Vm, v: Vm, d: nat, first: nat, k: nat, pa: nat, perm: nat, ok: bool)
    requires pa + k <= PAGES && first + k <= PAGES && perm < PGSIZE
  {
    match ok
    case true => OnlyRun(u, v, d, first, k) && forall n :: first <= n < first + k ==> RunEntry(v, d, n, first, pa, perm)
    case false => OnlyRun(u, v, d, first, k)
  }

  ghost predicate RunEntry(v: Vm, d: nat, n: nat, first: nat, pa: nat, perm: nat)
    requires Shaped(v) && d in v.dirs && n < PAGES && first <= n && pa + (n - first) < PAGES && perm < PGSIZE
  {
    Pt(v, d, n) == Entry(pa + (n - first), perm)
  }

  ghost predicate OnlyRun(u: Vm, v: Vm, d: nat, first: nat, k: nat) {
    Consistent(u) && Consistent(v) && v.dirs == u.dirs && d in u.dirs && Grown(u, v, d)
        && OtherEntries(u, v, d, first, first + k)
  }

  /** Entry n of d is now `word`, or memory ran out; every other entry is what it was. */
  ghost predicate PageWritten(u: Vm, v: Vm, d: nat, n: nat, word: Word, ok: bool) {
    match ok
    case true => OnlyRun(u, v, d, n, 1) && n < PAGES && Pt(v, d, n) == word
    case false => OnlyRun(u, v, d, n, 0)
  }

  lemma RunStep(u: Vm, w: Vm, v: Vm, d: nat, first: nat, k: nat, count: nat, pa: nat, perm: nat, before: nat,
      mid: nat, after: nat, ok: bool)
    requires k < count && pa + count <= PAGES && first + count <= PAGES && perm < PGSIZE
             && RunMapped(u, w, d, first, k, pa, perm, true)
    requires PageWritten(w, v, d, first + k, Entry(pa + k, perm), ok)
    requires Ledger(Tables(u, d), Tables(w, d), first, first + k, first + count, false, before, mid, true)
    requires d in v.dirs && Shaped(v) && Paid(Tables(w, d), Tables(v, d), first + k, false, mid, after, ok)
    ensures RunMapped(u, v, d, first, k + 1, pa, perm, ok)
    ensures Ledger(Tables(u, d), Tables(v, d), first, first + k + 1, first + count, false, before, after, ok)
  {
    LedgerStep(Tables(u, d), Tables(w, d), Tables(v, d), first, first + k, first + count, false, before, mid, after,
        ok);
    GrownTrans(u, w, v, d);
    if ok {
      forall n | first <= n < first + k + 1 ensures RunEntry(v, d, n, first, pa, perm) {
        assert n < first + k ==> RunEntry(w, d, n, first, pa, perm);
      }
    }
  }

  /** A run of kernel pages and the frames it is mapped onto. */
  datatype Region = Region(first: nat, count: nat, pa: nat, perm: nat)

  predicate Within(g: Region, n: nat) { g.first <= n < g.first + g.count }

  ghost predicate Disjoint(kmap: seq<Region>) {
    && (forall k :: 0 <= k < |kmap| ==>
          USER <= kmap[k].first && 0 < kmap[k].count && kmap[k].first + kmap[k].count <= PAGES
          && kmap[k].pa + kmap[k].count <= PAGES && kmap[k].perm < PGSIZE)
    && forall j, k, n :: 0 <= j < k < |kmap| ==> !(Within(kmap[j], n) && Within(kmap[k], n))
  }

  /** What the first k regions make of the entry of page n. */
  ghost function KernelEntry(kmap: seq<Region>, k: nat, n: nat): Word
    requires Disjoint(kmap) && k <= |kmap|
  {
    if k == 0 then 0
    else if Within(kmap[k - 1], n) then Entry(kmap[k - 1].pa + (n - kmap[k - 1].first), kmap[k - 1].perm)
    else KernelEntry(kmap, k - 1, n)
  }

  lemma {:induction false} KernelEntryElsewhere(kmap: seq<Region>, j: nat, k: nat, n: nat)
    requires Disjoint(kmap) && j <= k < |kmap| && Within(kmap[k], n)
    ensures KernelEntry(kmap, j, n) == 0
  {
    if j > 0 {
      KernelEntryElsewhere(kmap, j - 1, k, n);
    }
  }

  lemma RegionFree(kmap: seq<Region>, k: nat)
    requires Disjoint(kmap) && k < |kmap|
    ensures forall n :: Within(kmap[k], n) ==> KernelEntry(kmap, k, n) == 0
    ensures forall n :: 0 <= n < USER ==> !Within(kmap[k], n)
  {
    forall n | Within(kmap[k], n) ensures KernelEntry(kmap, k, n) == 0 {
      KernelEntryElsewhere(kmap, k, k, n);
    }
  }

  /** The tables of the first k regions. */
  ghost function KernelTables(kmap: seq<Region>, k: nat): (s: seq<bool>)
    requires Disjoint(kmap) && k <= |kmap|
    ensures |s| == ENTRIES
  {
    if k == 0 then seq(ENTRIES, _ => false)
    else WithTables(KernelTables(kmap, k - 1), kmap[k - 1].first, kmap[k - 1].first + kmap[k - 1].count)
  }

  /** The frames it takes to map the first k regions: the directory and its tables. */
  ghost function KernelCost(kmap: seq<Region>, k: nat): nat
    requires Disjoint(kmap) && k <= |kmap|
  {
    1 + Count(KernelTables(kmap, k))
  }

  /** The frames of an address space of n user pages. */
  ghost function SpaceCost(kmap: seq<Region>, n: nat): int
    requires Disjoint(kmap) && n <= PAGES
  {
    KernelCost(kmap, |kmap|) + Cost(KernelTables(kmap, |kmap|), 0, n, true)
  }

  lemma {:induction false} KernelCostMore(kmap: seq<Region>, j: nat, k: nat)
    requires Disjoint(kmap) && j <= k <= |kmap|
    ensures KernelCost(kmap, j) <= KernelCost(kmap, k)
  {
    if j < k {
      KernelCostMore(kmap, j, k - 1);
      var g := kmap[k - 1];
      CostMore(KernelTables(kmap, k - 1), g.first, g.first, g.first + g.count, false);
    }
  }

  /** setupkvm has mapped the first k regions; or there are too few frames for all of them. */
  ghost predicate Bill(kmap: seq<Region>, t: seq<bool>, k: nat, before: nat, after: nat, ok: bool)
    requires Disjoint(kmap) && k <= |kmap|
  {
    match ok
    case true => t == KernelTables(kmap, k) && before == after + KernelCost(kmap, k)
    case false => before < KernelCost(kmap, |kmap|)
  }

  lemma BillStart(kmap: seq<Region>, v: Vm, d: nat, after: nat)
    requires Disjoint(kmap) && Shaped(v) && d in v.dirs && forall x :: 0 <= x < ENTRIES ==> Table(v, d, x) == 0
    ensures Bill(kmap, Tables(v, d), 0, after + 1, after, true)
  {
    EmptyTables(v, d, ENTRIES);
    CountNone(KernelTables(kmap, 0), ENTRIES);
  }

  lemma BillStep(kmap: seq<Region>, k: nat, s: seq<bool>, t: seq<bool>, before: nat, mid: nat, after: nat, ok: bool)
    requires Disjoint(kmap) && k < |kmap| && Bill(kmap, s, k, before, mid, true)
    requires var g := kmap[k]; Ledger(s, t, g.first, g.first + g.count, g.first + g.count, false, mid, after, ok)
    ensures Bill(kmap, t, k + 1, before, after, ok)
  {
    KernelCostMore(kmap, k + 1, |kmap|);
  }

  /** d is a new directory, built out of free frames, that maps the first k regions and no
      user page. */
  ghost predicate Born(v: Vm, w: Vm, d: nat, kmap: seq<Region>, k: nat) {
    && Consistent(v) && Consistent(w) && d in v.owner && v.owner[d] == Free && d !in v.dirs
    && w.dirs == v.dirs + {d} && Grown(v, w, d) && OtherEntries(v, w, d, 0, PAGES)
    && Disjoint(kmap) && k <= |kmap|
    && (forall n :: 0 <= n < USER ==> Pt(w, d, n) == 0)
    && (forall n :: USER <= n < PAGES ==> Pt(w, d, n) == KernelEntry(kmap, k, n))
  }

  /** No page of region k is mapped while only the regions before it are. */
  lemma RegionOpen(u: Vm, v: Vm, d: nat, kmap: seq<Region>, k: nat)
    requires Born(u, v, d, kmap, k) && k < |kmap|
    ensures RunOpen(v, d, kmap[k].first, kmap[k].count)
  {
    RegionFree(kmap, k);
    forall n | kmap[k].first <= n < kmap[k].first + kmap[k].count ensures !There(v, d, n) {
      assert Within(kmap[k], n);
    }
  }

  /** d is a new directory, built out of free frames, for which memory ran out. */
  ghost predicate HalfBorn(v: Vm, w: Vm, d: nat) {
    && Consistent(v) && Consistent(w) && d in v.owner && v.owner[d] == Free && d !in v.dirs
    && w.dirs == v.dirs + {d} && Grown(v, w, d)
  }

  /** setupkvm has mapped the first k regions, or has run out of memory. */
  ghost predicate BornState(v: Vm, w: Vm, d: nat, kmap: seq<Region>, k: nat, ok: bool) {
    match ok
    case true => Born(v, w, d, kmap, k)
    case false => HalfBorn(v, w, d)
  }

  lemma BornEmpty(v: Vm, d: nat, kmap: seq<Region>)
    requires Consistent(v) && d in v.owner && v.owner[d] == Free && Disjoint(kmap)
    ensures var w := Moved(v, d, ZeroPage(), Limbo);
            Consistent(w) && Consistent(Adopted(w, d)) && Born(v, Adopted(w, d), d, kmap, 0)
  {
    MovedConsistent(v, d, ZeroPage(), Limbo);
    var w := Moved(v, d, ZeroPage(), Limbo);
    AdoptedConsistent(w, d);
    var x := Adopted(w, d);
    forall f | f in v.owner ensures KeptUse(v, x, f, d) {
    }
  }

  lemma BornMore(v: Vm, u: Vm, w: Vm, d: nat, kmap: seq<Region>, k: nat, ok: bool)
    requires Born(v, u, d, kmap, k) && k < |kmap|
    requires RunMapped(u, w, d, kmap[k].first, kmap[k].count, kmap[k].pa, kmap[k].perm, ok)
    ensures BornState(v, w, d, kmap, k + 1, ok)
  {
    GrownTrans(v, u, w, d);
    RegionFree(kmap, k);
    forall n | ok && Within(kmap[k], n) ensures Pt(w, d, n) == KernelEntry(kmap, k + 1, n) {
      assert RunEntry(w, d, n, kmap[k].first, kmap[k].pa, kmap[k].perm);
    }
    forall e, m | e in v.dirs && 0 <= m < PAGES ensures Pt(w, e, m) == Pt(v, e, m) {
      assert Pt(w, e, m) == Pt(u, e, m);
    }
  }

  lemma ClearedSkip(v: Vm, w: Vm, d: nat, lo: nat, n: nat, to: nat)
    requires Cleared(v, w, d, lo, n) && lo <= n < to <= USER && Table(w, d, n / ENTRIES) == 0
    ensures n < (n / ENTRIES + 1) * ENTRIES && Cleared(v, w, d, lo, Least((n / ENTRIES + 1) * ENTRIES, to))
  {
    ClearedTable(v, w, d, lo, n, Least((n / ENTRIES + 1) * ENTRIES, to));
  }

  lemma PageOrder(lo: nat, hi: nat)
    requires lo <= hi
    ensures RoundUp(lo) <= RoundUp(hi)
  {
  }

  lemma PageBelow(a: nat, n: nat, sz: nat)
    requires a == n * PGSIZE && a < sz
    ensures a / PGSIZE == n < RoundUp(sz) && (sz <= KERNBASE ==> n < USER)
  {
  }

  lemma PageEnd(a: nat, n: nat, sz: nat)
    requires n <= RoundUp(sz)
    ensures a == n * PGSIZE && a >= sz ==> n == RoundUp(sz)
  {
  }

  lemma PagePast(a: nat, n: nat, sz: nat)
    requires a == n * PGSIZE && a >= sz
    ensures Least(n, RoundUp(sz)) == RoundUp(sz)
  {
  }

  function Least(a: nat, b: nat): nat {
    if a < b then a else b
  }

  /** The frame of a mapped page and the table that names it are two frames in use. */
  lemma PageFrames(x: Vm, d: nat, n: nat)
    requires Consistent(x) && d in x.dirs && n < USER && Present(Pt(x, d, n))
    ensures var t, f := Table(x, d, n / ENTRIES), FrameOf(Pt(x, d, n));
            && t != 0 && t in x.owner && x.owner[t] == Owned(Pde(d, n / ENTRIES)) && t in x.mem
            && f in x.owner && x.owner[f] == Owned(Pte(d, n)) && f in x.mem && 0 < f < TOP && t != f
  {
    UnmappedConsistent(x, d, n);
    TableOwned(x, d, n / ENTRIES);
  }

  /** Frame f is free in y as well. */
  lemma FreedOwners(x: Vm, y: Vm, free: seq<nat>, lo: nat, f: nat)
    requires f in x.owner && y.owner == x.owner[f := Limbo][f := Free]
    requires forall g :: g in x.owner ==> lo <= g && (x.owner[g] == Free <==> g in free)
    requires forall g :: g in free ==> g in x.owner
    ensures forall g :: g in y.owner ==> lo <= g && (y.owner[g] == Free <==> g in [f] + free)
    ensures forall g :: g in [f] + free ==> g in y.owner
  {
  }

  lemma FreedMemory(x: Vm, d: nat, n: nat, junk: Page)
    requires Consistent(x) && d in x.dirs && n < USER && Present(Pt(x, d, n))
    ensures Table(x, d, n / ENTRIES) in x.mem
    ensures var t, f := Table(x, d, n / ENTRIES), FrameOf(Pt(x, d, n));
            Moved(Unmapped(x, d, n), f, junk, Free).mem == x.mem[f := junk][t := x.mem[t][n % ENTRIES := 0]]
  {
    PageFrames(x, d, n);
  }

  /** The first page that begins at address a or above. */
  lemma RoundUpIs(a: nat, n: nat)
    ensures RoundUp(a) <= n <==> a <= n * PGSIZE
  {
  }

  function RoundUp(a: nat): nat {
    (a + PGSIZE - 1) / PGSIZE
  }

  lemma WroteGrown(v: Vm, d: nat, n: nat, w: Word)
    requires Consistent(v) && d in v.dirs && n < PAGES && Table(v, d, n / ENTRIES) != 0
    ensures Table(v, d, n / ENTRIES) in v.mem
    ensures forall u :: Grown(u, v, d) ==> Grown(u, Wrote(v, d, n, w), d)
  {
    TableOwned(v, d, n / ENTRIES);
    var x := Wrote(v, d, n, w);
    forall f | f in v.owner ensures KeptUse(v, x, f, d) {
    }
    forall u | Grown(u, v, d) ensures Grown(u, x, d) {
      GrownTrans(u, v, x, d);
    }
  }

  ghost predicate There(v: Vm, d: nat, n: nat)
    requires Shaped(v) && d in v.dirs && n < PAGES
  {
    Present(Pt(v, d, n))
  }

  /** The first n pages of d are mapped. */
  ghost predicate AllThere(v: Vm, d: nat, n: nat)
    requires Shaped(v) && d in v.dirs && n <= PAGES
  {
    forall m :: 0 <= m < n ==> There(v, d, m)
  }

  /** None of the k pages from `first` is mapped. */
  ghost predicate RunOpen(v: Vm, d: nat, first: nat, k: nat)
    requires Shaped(v) && d in v.dirs && first + k <= PAGES
  {
    forall n :: first <= n < first + k ==> !There(v, d, n)
  }

  /** None of the user pages lo to hi-1 of d is mapped. */
  ghost predicate NoneThere(v: Vm, d: nat, lo: nat, hi: nat)
    requires Shaped(v) && d in v.dirs
  {
    forall m :: lo <= m < hi && m < USER ==> !There(v, d, m)
  }

  /** What walkpgdir leaves: perhaps one more table, and every entry as it was. */
  ghost predicate Walked(v: Vm, w: Vm, d: nat, n: nat, t: nat) {
    && Consistent(v) && Consistent(w) && d in v.dirs && n < PAGES && w.dirs == v.dirs
    && Grown(v, w, d) && t == Table(w, d, n / ENTRIES)
    && forall e, m :: e in v.dirs && 0 <= m < PAGES ==> Pt(w, e, m) == Pt(v, e, m)
  }

  lemma KeptSame(v: Vm, d: nat)
    requires Consistent(v)
    ensures Grown(v, v, d)
  {
  }

  lemma TableHung(v: Vm, d: nat, x: nat, t: nat)
    requires Consistent(v) && d in v.dirs && x < ENTRIES && !Present(v.mem[d][x])
    requires t in v.owner && v.owner[t] == Free
    ensures t != d
    ensures var w := Moved(v, t, ZeroPage(), Limbo);
            && Consistent(Hung(w, d, x, t)) && Grown(v, Hung(w, d, x, t), d) && Table(Hung(w, d, x, t), d, x) == t
            && forall e, m :: e in v.dirs && 0 <= m < PAGES ==> Pt(Hung(w, d, x, t), e, m) == Pt(v, e, m)
  {
    MovedConsistent(v, t, ZeroPage(), Limbo);
    var w := Moved(v, t, ZeroPage(), Limbo);
    HungConsistent(w, d, x, t);
    var y := Hung(w, d, x, t);
    forall f | f in v.owner ensures KeptUse(v, y, f, d) {
    }
  }
}
