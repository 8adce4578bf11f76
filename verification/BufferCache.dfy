/** The buffer cache as steps taken under its lock or under a buffer's sleep lock, in any
    order the callers interleave them. */
module BufferCache {
  import opened Common
  import opened Disk
  import opened Ring
  import opened Sequences

  const NBUF := 30
  const HEAD := 30     // the sentinel of the ring stands behind the buffers

  /** valid and dirty are the flags; locked is the sleep lock. */
  datatype Buf = Buf(valid: bool, dirty: bool, dev: nat, blockno: nat, refcnt: nat, locked: bool, data: Block)

  /** `view` is what the disk would hold were there no cache. A buffer is `touched` from the
      moment its holder changes it until log_write or bwrite; `unsynced` gives, for each block
      whose view is ahead of the disk, the buffer that holds it. */
  datatype CacheState = CacheState(bufs: seq<Buf>, disk: seq<Block>, view: seq<Block>, touched: set<nat>,
      unsynced: map<nat, nat>)

  predicate Holds(b: Buf, dev: nat, blockno: nat) { b.dev == dev && b.blockno == blockno }

  /** Buffers i and j do not hold the same block of a device other than 0, the device every
      buffer starts out with. */
  predicate Apart(bufs: seq<Buf>, i: nat, j: nat)
    requires i < |bufs| && j < |bufs|
  {
    i != j && bufs[i].dev != 0 ==> !Holds(bufs[j], bufs[i].dev, bufs[i].blockno)
  }

  /** Buffer i agrees with the view, and with the disk too unless it is pinned or touched. */
  ghost predicate Fine(s: CacheState, i: nat)
    requires i < |s.bufs|
  {
    var b := s.bufs[i];
    && (b.locked ==> b.refcnt > 0) && (i in s.touched ==> b.locked && b.valid) && (b.dirty ==> b.valid)
    && (b.valid ==> b.dev == 1 && b.blockno < |s.view| == |s.disk| && b.data == s.view[b.blockno])
    && (b.valid && !b.dirty && i !in s.touched ==> b.data == s.disk[b.blockno])
    && (b.dirty || i in s.touched ==> b.blockno in s.unsynced && s.unsynced[b.blockno] == i)
  }

  ghost predicate Ahead(s: CacheState, n: nat)
    requires n in s.unsynced
  {
    var i := s.unsynced[n];
    i < |s.bufs| && s.bufs[i].valid && Holds(s.bufs[i], 1, n) && (s.bufs[i].dirty || i in s.touched)
  }

  ghost predicate Coherent(s: CacheState) {
    && |s.bufs| == NBUF && |s.view| == |s.disk|
    && (forall i, j :: 0 <= i < NBUF && 0 <= j < NBUF ==> Apart(s.bufs, i, j))
    && (forall i :: 0 <= i < NBUF ==> Fine(s, i))
    && (forall n :: n in s.unsynced ==> Ahead(s, n))
    && (forall n :: 0 <= n < |s.disk| && n !in s.unsynced ==> s.view[n] == s.disk[n])
  }

  /** Neither in use nor pinned. */
  predicate Recyclable(b: Buf) { b.refcnt == 0 && !b.dirty }

  // ---- how many buffers are in use ----

  /** How many of the first n buffers are pinned ... */
  function PinnedTo(bufs: seq<Buf>, n: nat): nat
    requires n <= |bufs|
  {
    if n == 0 then 0 else PinnedTo(bufs, n - 1) + if bufs[n - 1].dirty then 1 else 0
  }

  /** ... and how many are held by someone but not pinned. */
  function HeldTo(bufs: seq<Buf>, n: nat): nat
    requires n <= |bufs|
  {
    if n == 0 then 0 else HeldTo(bufs, n - 1) + if !bufs[n - 1].dirty && bufs[n - 1].refcnt > 0 then 1 else 0
  }

  function InUse(bufs: seq<Buf>): nat { PinnedTo(bufs, |bufs|) + HeldTo(bufs, |bufs|) }

  /** No buffer can be recycled if and only if all are pinned or held. */
  lemma {:induction false} AllInUse(bufs: seq<Buf>, n: nat)
    requires n <= |bufs|
    ensures PinnedTo(bufs, n) + HeldTo(bufs, n) <= n
    ensures PinnedTo(bufs, n) + HeldTo(bufs, n) == n <==> forall i :: 0 <= i < n ==> !Recyclable(bufs[i])
  {
    if n > 0 {
      AllInUse(bufs, n - 1);
    }
  }

  /** What one buffer's change does to the counts. */
  lemma {:induction false} CountsUpdate(bufs: seq<Buf>, i: nat, b: Buf, n: nat)
    requires i < |bufs| && n <= |bufs|
    ensures var x := bufs[i];
            && PinnedTo(bufs[i := b], n) == PinnedTo(bufs, n)
                 + (if i < n && b.dirty then 1 else 0) - (if i < n && x.dirty then 1 else 0)
            && HeldTo(bufs[i := b], n) == HeldTo(bufs, n)
                 + (if i < n && !b.dirty && b.refcnt > 0 then 1 else 0)
                 - (if i < n && !x.dirty && x.refcnt > 0 then 1 else 0)
  {
    if n > 0 {
      CountsUpdate(bufs, i, b, n - 1);
    }
  }

  ghost predicate PinnedAs(bufs: seq<Buf>, n: nat, x: int)
    requires n <= |bufs|
  {
    exists i :: 0 <= i < n && bufs[i].dirty && bufs[i].blockno == x
  }

  /** The blocks of the pinned buffers among the first n. */
  ghost function PinnedBlocks(bufs: seq<Buf>, n: nat): (s: seq<int>)
    requires n <= |bufs|
    ensures |s| == PinnedTo(bufs, n)
    ensures forall k :: 0 <= k < |s| ==> PinnedAs(bufs, n, s[k])
  {
    if n == 0 then [] else PinnedBlocks(bufs, n - 1) + if bufs[n - 1].dirty then [bufs[n - 1].blockno] else []
  }

  lemma {:induction false} PinnedDistinct(s: CacheState, n: nat)
    requires Coherent(s) && n <= NBUF
    ensures Distinct(PinnedBlocks(s.bufs, n))
  {
    if n > 0 {
      PinnedDistinct(s, n - 1);
      var t := PinnedBlocks(s.bufs, n - 1);
      forall k | 0 <= k < |t| && s.bufs[n - 1].dirty ensures t[k] != s.bufs[n - 1].blockno {
        assert PinnedAs(s.bufs, n - 1, t[k]);
        var i :| 0 <= i < n - 1 && s.bufs[i].dirty && s.bufs[i].blockno == t[k];
        assert Fine(s, i) && Fine(s, n - 1) && Apart(s.bufs, i, n - 1);
      }
    }
  }

  ghost function Elements(s: seq<Word>): (t: set<int>)
    ensures |t| <= |s| && forall b: int :: b in t <==> exists k :: 0 <= k < |s| && s[k] == b
  {
    if s == [] then {} else Elements(s[..|s| - 1]) + {s[|s| - 1]}
  }

  /** If only listed blocks are pinned, there are no more pinned buffers than listed blocks. */
  lemma PinnedWithin(s: CacheState, blocks: seq<Word>)
    requires Coherent(s) && forall i :: 0 <= i < NBUF && s.bufs[i].dirty ==> s.bufs[i].blockno in blocks
    ensures PinnedTo(s.bufs, NBUF) <= |blocks|
  {
    var t := PinnedBlocks(s.bufs, NBUF);
    PinnedDistinct(s, NBUF);
    forall k | 0 <= k < |t| ensures t[k] in Elements(blocks) {
      assert PinnedAs(s.bufs, NBUF, t[k]);
      var i :| 0 <= i < NBUF && s.bufs[i].dirty && s.bufs[i].blockno == t[k];
      assert s.bufs[i].blockno in blocks;
    }
    DistinctBound(t, Elements(blocks));
  }

  // ---- the steps ----

  /** Only the reference count or the lock of buffer i changes. */
  lemma Counted(s: CacheState, i: nat, b: Buf)
    requires Coherent(s) && i < NBUF && b == s.bufs[i].(refcnt := b.refcnt, locked := b.locked)
    requires (b.locked ==> b.refcnt > 0) && (i in s.touched ==> b.locked)
    ensures Coherent(s.(bufs := s.bufs[i := b]))
  {
    var t := s.(bufs := s.bufs[i := b]);
    forall j, k | 0 <= j < NBUF && 0 <= k < NBUF ensures Apart(t.bufs, j, k) {
      assert Apart(s.bufs, j, k);
    }
    forall j | 0 <= j < NBUF ensures Fine(t, j) {
      assert Fine(s, j);
    }
    forall n | n in t.unsynced ensures Ahead(t, n) {
      assert Ahead(s, n);
    }
  }

  /** An idle, unpinned buffer is given to a block that no buffer holds. */
  lemma Recycled(s: CacheState, i: nat, dev: nat, blockno: nat)
    requires Coherent(s) && i < NBUF && Recyclable(s.bufs[i])
    requires forall j :: 0 <= j < NBUF ==> !Holds(s.bufs[j], dev, blockno)
    ensures !s.bufs[i].locked && i !in s.touched
    ensures Coherent(s.(bufs := s.bufs[i := Buf(false, false, dev, blockno, 1, false, s.bufs[i].data)]))
  {
    assert Fine(s, i);
    var t := s.(bufs := s.bufs[i := Buf(false, false, dev, blockno, 1, false, s.bufs[i].data)]);
    forall j, k | 0 <= j < NBUF && 0 <= k < NBUF ensures Apart(t.bufs, j, k) {
      assert Apart(s.bufs, j, k);
    }
    forall j | 0 <= j < NBUF ensures Fine(t, j) {
      assert Fine(s, j);
    }
    forall n | n in t.unsynced ensures Ahead(t, n) {
      assert Ahead(s, n);
    }
  }

  /** A buffer that is not valid is read: what the disk has is what the view has. */
  lemma ReadIn(s: CacheState, i: nat)
    requires Coherent(s) && i < NBUF && !s.bufs[i].valid && s.bufs[i].dev == 1 && s.bufs[i].blockno < |s.disk|
    ensures Coherent(s.(bufs := s.bufs[i := s.bufs[i].(valid := true, data := s.disk[s.bufs[i].blockno])]))
    ensures s.view[s.bufs[i].blockno] == s.disk[s.bufs[i].blockno]
  {
    assert Fine(s, i);
    var n := s.bufs[i].blockno;
    forall m | m in s.unsynced ensures m != n {
      assert Ahead(s, m) && Apart(s.bufs, i, s.unsynced[m]);
    }
    var t := s.(bufs := s.bufs[i := s.bufs[i].(valid := true, data := s.disk[n])]);
    forall j, k | 0 <= j < NBUF && 0 <= k < NBUF ensures Apart(t.bufs, j, k) {
      assert Apart(s.bufs, j, k);
    }
    forall j | 0 <= j < NBUF ensures Fine(t, j) {
      assert Fine(s, j);
    }
    forall m | m in t.unsynced ensures Ahead(t, m) {
      assert Ahead(s, m);
    }
  }

  /** The holder changes the data. */
  ghost function Modified(s: CacheState, i: nat, data: Block): CacheState
    requires i < |s.bufs| && s.bufs[i].blockno < |s.view|
  {
    var n := s.bufs[i].blockno;
    s.(bufs := s.bufs[i := s.bufs[i].(data := data)], view := s.view[n := data],
       touched := s.touched + {i}, unsynced := s.unsynced[n := i])
  }

  lemma ModifiedCoherent(s: CacheState, i: nat, data: Block)
    requires Coherent(s) && i < NBUF && s.bufs[i].valid && s.bufs[i].locked
    ensures s.bufs[i].blockno < |s.view| && Coherent(Modified(s, i, data))
  {
    assert Fine(s, i);
    var n := s.bufs[i].blockno;
    var t := Modified(s, i, data);
    forall j, k | 0 <= j < NBUF && 0 <= k < NBUF ensures Apart(t.bufs, j, k) {
      assert Apart(s.bufs, j, k);
    }
    forall j | 0 <= j < NBUF ensures Fine(t, j) {
      assert Fine(s, j) && Apart(s.bufs, i, j);
    }
    forall m | m in t.unsynced ensures Ahead(t, m) {
      assert m != n ==> Ahead(s, m);
    }
  }

  /** log_write pins the buffer. */
  ghost function Pinned(s: CacheState, i: nat): CacheState
    requires i < |s.bufs|
  {
    s.(bufs := s.bufs[i := s.bufs[i].(dirty := true)], touched := s.touched - {i},
        unsynced := s.unsynced[s.bufs[i].blockno := i])
  }

  lemma PinnedCoherent(s: CacheState, i: nat)
    requires Coherent(s) && i < NBUF && s.bufs[i].valid && s.bufs[i].locked
    ensures Coherent(Pinned(s, i))
  {
    assert Fine(s, i);
    var t := Pinned(s, i);
    forall j, k | 0 <= j < NBUF && 0 <= k < NBUF ensures Apart(t.bufs, j, k) {
      assert Apart(s.bufs, j, k);
    }
    forall j | 0 <= j < NBUF ensures Fine(t, j) {
      assert Fine(s, j) && Apart(s.bufs, i, j);
    }
    forall m | m in t.unsynced ensures Ahead(t, m) {
      assert m != s.bufs[i].blockno ==> Ahead(s, m);
    }
  }

  /** bwrite puts the buffer on disk and unpins it. */
  ghost function Flushed(s: CacheState, i: nat): CacheState
    requires i < |s.bufs| && s.bufs[i].blockno < |s.disk|
  {
    var n := s.bufs[i].blockno;
    s.(bufs := s.bufs[i := s.bufs[i].(valid := true, dirty := false)], disk := s.disk[n := s.bufs[i].data],
       touched := s.touched - {i}, unsynced := s.unsynced - {n})
  }

  lemma FlushedCoherent(s: CacheState, i: nat)
    requires Coherent(s) && i < NBUF && s.bufs[i].valid && s.bufs[i].locked
    ensures s.bufs[i].blockno < |s.disk| && Coherent(Flushed(s, i))
  {
    assert Fine(s, i);
    var n := s.bufs[i].blockno;
    var t := Flushed(s, i);
    forall j, k | 0 <= j < NBUF && 0 <= k < NBUF ensures Apart(t.bufs, j, k) {
      assert Apart(s.bufs, j, k);
    }
    forall j | 0 <= j < NBUF ensures Fine(t, j) {
      assert Fine(s, j) && Apart(s.bufs, i, j);
    }
    forall m | m in t.unsynced ensures Ahead(t, m) {
      assert Ahead(s, m) && Fine(s, s.unsynced[m]);
    }
  }

  // ---- least recently used ----

  /** The ring runs from the most to the least recently released buffer. */
  ghost predicate ByRelease(ring: seq<nat>, stamp: seq<int>, clock: int) {
    && |stamp| == NBUF && (forall i :: 0 <= i < NBUF ==> stamp[i] <= clock)
    && (forall k :: 1 <= k < |ring| ==> ring[k] < NBUF)
    && forall j, k :: 1 <= j < k < |ring| ==> Later(ring, stamp, j, k)
  }

  predicate Later(ring: seq<nat>, stamp: seq<int>, j: nat, k: nat)
    requires j < |ring| && k < |ring| && ring[j] < |stamp| && ring[k] < |stamp|
  {
    stamp[ring[j]] > stamp[ring[k]]
  }

  /** Every buffer is on the ring behind the sentinel. */
  ghost predicate Everyone(ring: seq<nat>) {
    && ring != [] && ring[0] == HEAD
    && (forall k :: 1 <= k < |ring| ==> ring[k] < NBUF)
    && forall i :: 0 <= i < NBUF ==> i in ring
  }

  /** Moving the buffer at place m to the front after its release. */
  lemma MovedToFront(ring: seq<nat>, stamp: seq<int>, clock: int, m: nat)
    requires ByRelease(ring, stamp, clock) && Everyone(ring) && Distinct(ring) && 0 < m < |ring|
    ensures var r := InsertAt(Cut(ring, m), 1, ring[m]);
            ByRelease(r, stamp[ring[m] := clock + 1], clock + 1) && Everyone(r)
  {
    var x := ring[m];
    var c := Cut(ring, m);
    var r, t := InsertAt(c, 1, x), stamp[x := clock + 1];
    forall k | 1 <= k < |r|
        ensures r[k] < NBUF && (k > 1 ==> r[k] != x && r[k] == ring[if k - 1 < m then k - 1 else k]) {
    }
    forall j, k | 1 <= j < k < |r| ensures Later(r, t, j, k) {
      if j > 1 {
        assert Later(ring, stamp, if j - 1 < m then j - 1 else j, if k - 1 < m then k - 1 else k);
      }
    }
    forall i | 0 <= i < NBUF ensures i in r {
      var k := Position(ring, i);
      assert r[if k == m then 1 else if k == 0 then 0 else if k < m then k + 1 else k] == i;
    }
  }

  class Cache {
    var bufs: seq<Buf>
    var next: seq<nat>
    var prev: seq<nat>
    var disk: seq<Block>
    ghost var s: CacheState
    ghost var ring: seq<nat>
    ghost var stamp: seq<int>
    ghost var clock: int

    ghost predicate Linked()
      reads this
    {
      && IsRing(next, prev, ring) && |next| == NBUF + 1 && Everyone(ring) && ByRelease(ring, stamp, clock)
    }

    ghost predicate Valid()
      reads this
    {
      Linked() && s.bufs == bufs && s.disk == disk && Coherent(s)
    }

    /** binit: every buffer free and of device 0, the last one linked in first on the ring. */
    constructor (disk: seq<Block>)
      ensures Valid() && this.disk == disk && s.view == disk && forall i :: 0 <= i < NBUF ==> Recyclable(bufs[i])
    {
      this.disk := disk;
      bufs := seq(NBUF, _ => Buf(false, false, 0, 0, 0, false, seq(BLOCK_WORDS, _ => 0)));
      next, prev := seq(NBUF + 1, _ => HEAD), seq(NBUF + 1, _ => HEAD);
      s := CacheState(seq(NBUF, _ => Buf(false, false, 0, 0, 0, false, seq(BLOCK_WORDS, _ => 0))), disk, disk, {},
          map[]);
      ring, stamp, clock := [HEAD], seq(NBUF, i => i), NBUF;
      new;
      var b := 0;
      while b < NBUF
        invariant b <= NBUF && |next| == NBUF + 1 && IsRing(next, prev, ring) && |ring| == b + 1 && ring[0] == HEAD
        invariant forall k :: 1 <= k < |ring| ==> ring[k] == b - k
        invariant bufs == s.bufs && this.disk == s.disk == s.view == disk && s.touched == {} && s.unsynced == map[]
        invariant |bufs| == NBUF && forall i :: 0 <= i < NBUF ==>
                  bufs[i] == Buf(false, false, 0, 0, 0, false, bufs[i].data)
        invariant stamp == seq(NBUF, i => i) && clock == NBUF
      {
        assert b !in ring;
        ghost var r := ring;
        LinkFirst(b);
        assert forall k :: 1 <= k < |ring| ==> ring[k] == if k == 1 then b else r[k - 1];
        b := b + 1;
      }
      forall i | 0 <= i < NBUF ensures i in ring {
        assert ring[NBUF - i] == i;
      }
    }

    /** bget up to the acquiresleep: the buffer that holds the block, or the least recently
        released of the recyclable ones; None stands for the panic "no buffers", which comes
        exactly if the block is not cached and every buffer is pinned or held. */
    method Bget(dev: nat, blockno: nat) returns (r: Option<nat>)
      requires Valid()
      modifies this`bufs, this`s
      ensures Valid() && s == old(s).(bufs := bufs)
      ensures r.None? ==> bufs == old(bufs) && forall i :: 0 <= i < NBUF ==>
              !Holds(bufs[i], dev, blockno) && !Recyclable(bufs[i])
      ensures r.Some? ==> r.value < NBUF && Got(old(bufs), bufs, stamp, dev, blockno, r.value)
      ensures r.None? <==> InUse(old(bufs)) == NBUF && forall i :: 0 <= i < NBUF ==> !Holds(old(bufs)[i], dev, blockno)
    {
      AllInUse(bufs, NBUF);
      var b := Find(dev, blockno);
      if b != HEAD {
        assert Fine(s, b);
        Counted(s, b, bufs[b].(refcnt := bufs[b].refcnt + 1));
        bufs := bufs[b := bufs[b].(refcnt := bufs[b].refcnt + 1)];
        s := s.(bufs := bufs);
        return Some(b);
      }
      b := Oldest();
      if b == HEAD {
        return None;
      }
      Recycled(s, b, dev, blockno);
      bufs := bufs[b := Buf(false, false, dev, blockno, 1, false, bufs[b].data)];
      s := s.(bufs := bufs);
      r := Some(b);
    }

    /** The first loop of bget. */
    method Find(dev: nat, blockno: nat) returns (b: nat)
      requires Valid()
      ensures b == HEAD ==> forall i :: 0 <= i < NBUF ==> !Holds(bufs[i], dev, blockno)
      ensures b != HEAD ==> b < NBUF && Holds(bufs[b], dev, blockno)
    {
      assert Joined(next, prev, ring, 0);
      b := next[HEAD];
      ghost var k: nat := Next(|ring|, 0);
      while b != HEAD
        invariant k < |ring| && b == ring[k]
        invariant b != HEAD ==> forall j :: 1 <= j < k ==> !Holds(bufs[ring[j]], dev, blockno)
        invariant b == HEAD ==> forall j :: 1 <= j < |ring| ==> !Holds(bufs[ring[j]], dev, blockno)
        decreases if b == HEAD then 0 else |ring| - k
      {
        assert Joined(next, prev, ring, k);
        if bufs[b].dev == dev && bufs[b].blockno == blockno {
          return;
        }
        b := next[b];
        k := Next(|ring|, k);
      }
      forall i | 0 <= i < NBUF ensures !Holds(bufs[i], dev, blockno) {
        var j := Position(ring, i);
        assert j >= 1;
      }
    }

    /** The second loop of bget, from the least recently used end. */
    method Oldest() returns (b: nat)
      requires Valid()
      ensures b == HEAD ==> forall i :: 0 <= i < NBUF ==> !Recyclable(bufs[i])
      ensures b != HEAD ==> b < NBUF && Recyclable(bufs[b]) && forall i :: 0 <= i < NBUF && Recyclable(bufs[i]) ==>
              stamp[b] <= stamp[i]
    {
      assert Joined(next, prev, ring, |ring| - 1);
      b := prev[HEAD];
      ghost var k: nat := |ring| - 1;
      while b != HEAD
        invariant k < |ring| && b == ring[k]
        invariant forall j :: k < j < |ring| ==> !Recyclable(bufs[ring[j]])
        decreases k
      {
        assert Joined(next, prev, ring, k - 1);
        if bufs[b].refcnt == 0 && !bufs[b].dirty {
          break;
        }
        b := prev[b];
        k := k - 1;
      }
      forall i | 0 <= i < NBUF && Recyclable(bufs[i]) ensures b != HEAD && stamp[b] <= stamp[i] {
        var j := Position(ring, i);
        assert 1 <= j < k ==> Later(ring, stamp, j, k);
      }
    }

    /** acquiresleep, once the lock is free. */
    method Acquire(b: nat)
      requires Valid() && b < NBUF && bufs[b].refcnt > 0 && !bufs[b].locked
      modifies this`bufs, this`s
      ensures Valid() && bufs == old(bufs)[b := old(bufs)[b].(locked := true)] && s == old(s).(bufs := bufs)
    {
      Counted(s, b, bufs[b].(locked := true));
      bufs := bufs[b := bufs[b].(locked := true)];
      s := s.(bufs := bufs);
    }

    /** The rest of bread on a buffer just locked: its data are what the view has. false stands
        for the panics of iderw on another device or a block out of range. */
    method Fetch(b: nat) returns (ok: bool)
      requires Valid() && b < NBUF && bufs[b].locked
      modifies this`bufs, this`disk, this`s
      ensures Valid() && s == old(s).(bufs := bufs)
      ensures ok <==> bufs[b].dev == 1 && bufs[b].blockno < |disk|
      ensures !ok ==> bufs == old(bufs)
      ensures ok ==> bufs[b].valid && bufs[b].data == s.view[bufs[b].blockno]
      ensures ok ==> bufs == old(bufs)[b := old(bufs)[b].(valid := true, data := bufs[b].data)]
    {
      assert Fine(s, b);
      ok := true;
      if !bufs[b].valid {
        ok := Iderw(b);
      }
    }

    /** iderw: write the block if the buffer is dirty, else read it; false stands for its
        panics. */
    method Iderw(b: nat) returns (ok: bool)
      requires Valid() && b < NBUF && bufs[b].locked && (bufs[b].dirty || !bufs[b].valid)
      modifies this`bufs, this`disk, this`s
      ensures Valid() && ok == (old(bufs)[b].dev == 1 && old(bufs)[b].blockno < |old(disk)|)
      ensures !ok ==> s == old(s)
      ensures ok && old(bufs)[b].dirty ==> old(bufs)[b].blockno < |old(s).disk| && s == Flushed(old(s), b)
      ensures ok && !old(bufs)[b].dirty ==> s == old(s).(bufs := bufs)
      ensures ok && !old(bufs)[b].dirty ==>
                bufs == old(bufs)[b := old(bufs)[b].(valid := true, data := s.view[old(bufs)[b].blockno])]
    {
      if bufs[b].dev != 1 || bufs[b].blockno >= |disk| {
        return false;
      }
      var n := bufs[b].blockno;
      if bufs[b].dirty {
        assert Fine(s, b);
        FlushedCoherent(s, b);
        s := Flushed(s, b);
        disk := disk[n := bufs[b].data];
        bufs := bufs[b := bufs[b].(valid := true, dirty := false)];
      } else {
        ReadIn(s, b);
        bufs := bufs[b := bufs[b].(valid := true, data := disk[n])];
        s := s.(bufs := bufs);
      }
      ok := true;
    }

    /** The holder of a buffer writes into it. */
    method Modify(b: nat, data: Block)
      requires Valid() && b < NBUF && bufs[b].locked && bufs[b].valid
      modifies this`bufs, this`s
      ensures Valid() && old(bufs)[b].blockno < |old(s).view| && s == Modified(old(s), b, data)
    {
      ModifiedCoherent(s, b, data);
      s := Modified(s, b, data);
      bufs := bufs[b := bufs[b].(data := data)];
    }

    /** log_write, as far as the buffer is concerned: B_DIRTY prevents its eviction. */
    method Pin(b: nat)
      requires Valid() && b < NBUF && bufs[b].locked && bufs[b].valid
      modifies this`bufs, this`s
      ensures Valid() && s == Pinned(old(s), b)
    {
      PinnedCoherent(s, b);
      s := Pinned(s, b);
      bufs := bufs[b := bufs[b].(dirty := true)];
    }

    /** bwrite: afterwards the disk has what the buffer has. */
    method Bwrite(b: nat)
      requires Valid() && b < NBUF && bufs[b].locked && bufs[b].valid
      modifies this`bufs, this`disk, this`s
      ensures Valid() && old(bufs)[b].blockno < |disk| == |old(s).disk| && s == Flushed(old(s), b)
      ensures disk[old(bufs)[b].blockno] == old(s).view[old(bufs)[b].blockno]
    {
      assert Fine(s, b);
      ghost var t := s;
      PinnedCoherent(s, b);
      s := Pinned(s, b);
      bufs := bufs[b := bufs[b].(dirty := true)];
      var ok := Iderw(b);
      assert s.unsynced == t.unsynced - {bufs[b].blockno};
      assert s.touched == t.touched - {b};
      assert s.bufs == Flushed(t, b).bufs;
    }

    /** brelse: the buffer goes to the front of the ring when its last holder lets go. A buffer
        that was changed must have been passed to log_write or bwrite. */
    method Brelse(b: nat)
      requires Valid() && b < NBUF && bufs[b].locked && b !in s.touched
      modifies this`bufs, this`next, this`prev, this`s, this`ring, this`stamp, this`clock
      ensures Valid() && old(bufs)[b].refcnt > 0
      ensures bufs == old(bufs)[b := old(bufs)[b].(locked := false, refcnt := old(bufs)[b].refcnt - 1)]
      ensures s == old(s).(bufs := bufs)
      ensures bufs[b].refcnt == 0 ==> clock == old(clock) + 1 && stamp == old(stamp)[b := clock]
      ensures bufs[b].refcnt > 0 ==> clock == old(clock) && stamp == old(stamp)
    {
      assert Fine(s, b);
      Counted(s, b, bufs[b].(locked := false, refcnt := bufs[b].refcnt - 1));
      bufs := bufs[b := bufs[b].(locked := false, refcnt := bufs[b].refcnt - 1)];
      s := s.(bufs := bufs);
      if bufs[b].refcnt == 0 {
        ToFront(b);
      }
    }

    /** Buffer b is linked in right behind the sentinel, as the most recently used. */
    method LinkFirst(b: nat)
      requires IsRing(next, prev, ring) && |next| == NBUF + 1 && ring[0] == HEAD && b < NBUF && b !in ring
      modifies this`next, this`prev, this`ring
      ensures IsRing(next, prev, ring) && |next| == NBUF + 1 && ring == InsertAt(old(ring), 1, b)
    {
      LinkedFirst(next, prev, ring, b);
      next := next[b := next[HEAD]];
      prev := prev[b := HEAD];
      prev := prev[next[HEAD] := b];
      next := next[HEAD := b];
      ring := InsertAt(ring, 1, b);
    }

    /** The relinking in brelse. */
    method ToFront(b: nat)
      requires Linked() && b < NBUF
      modifies this`next, this`prev, this`ring, this`stamp, this`clock
      ensures Linked() && clock == old(clock) + 1 && stamp == old(stamp)[b := clock]
    {
      ghost var m := Position(ring, b);
      MovedToFront(ring, stamp, clock, m);
      Unlinked(next, prev, ring, m);
      prev := prev[next[b] := prev[b]];
      next := next[prev[b] := next[b]];
      ring := Cut(ring, m);
      LinkFirst(b);
      clock := clock + 1;
      stamp := stamp[b := clock];
    }
  }

  /** What bget has done: one more reference to the buffer of the block, or an idle buffer
      given to it, none of the idle ones having been released earlier. */
  ghost predicate Got(bufs: seq<Buf>, after: seq<Buf>, stamp: seq<int>, dev: nat, blockno: nat, b: nat)
    requires |bufs| == |after| == |stamp| == NBUF && b < NBUF
  {
    && Holds(after[b], dev, blockno) && after[b].refcnt > 0
    && (Holds(bufs[b], dev, blockno) ==> after == bufs[b := bufs[b].(refcnt := bufs[b].refcnt + 1)])
    && (!Holds(bufs[b], dev, blockno) ==>
          && (forall i :: 0 <= i < NBUF ==> !Holds(bufs[i], dev, blockno)) && Recyclable(bufs[b])
          && (forall i :: 0 <= i < NBUF && Recyclable(bufs[i]) ==> stamp[b] <= stamp[i])
          && after == bufs[b := Buf(false, false, dev, blockno, 1, false, bufs[b].data)])
  }

  /** A valid, clean, unlocked buffer equals its disk block. */
  lemma CleanIsOnDisk(s: CacheState, i: nat)
    requires Coherent(s) && i < NBUF && s.bufs[i].valid && !s.bufs[i].dirty && !s.bufs[i].locked
    ensures s.bufs[i].dev == 1 && s.bufs[i].blockno < |s.disk| && s.bufs[i].data == s.disk[s.bufs[i].blockno]
  {
    assert Fine(s, i);
  }

  /** When no holder is in the middle of a change, the view differs from the disk only in
      blocks that a pinned buffer holds: this is what module Disk takes the cache to be. */
  lemma OnlyPinnedAhead(s: CacheState, n: nat)
    requires Coherent(s) && s.touched == {} && n < |s.disk| && s.view[n] != s.disk[n]
    ensures exists i :: 0 <= i < NBUF && s.bufs[i].dirty && Holds(s.bufs[i], 1, n) && s.bufs[i].data == s.view[n]
  {
    assert Ahead(s, n);
    assert Fine(s, s.unsynced[n]);
  }
}
