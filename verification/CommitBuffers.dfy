/** The buffers commit needs. While it copies a logged block it holds one buffer more than
    are pinned, so the bound on the log leaves room for it in the cache. */
module CommitBuffers {
  import opened Common
  import opened Disk
  import opened BufferCache
  import opened LogFormat
  import opened Log
  import opened LogProtocol

  /** Nobody has the buffer of block n of the disk locked. */
  ghost predicate Unlocked(bufs: seq<Buf>, n: nat) {
    forall i :: 0 <= i < |bufs| && Holds(bufs[i], 1, n) ==> !bufs[i].locked
  }

  ghost predicate PinnedBlock(bufs: seq<Buf>, n: nat) {
    exists i :: 0 <= i < |bufs| && Holds(bufs[i], 1, n) && bufs[i].dirty
  }

  ghost predicate NotPinned(bufs: seq<Buf>, n: nat) {
    forall i :: 0 <= i < |bufs| && Holds(bufs[i], 1, n) ==> !bufs[i].dirty
  }

  ghost predicate Cached(bufs: seq<Buf>, n: nat) {
    exists i :: 0 <= i < |bufs| && Holds(bufs[i], 1, n)
  }

  lemma InUseUpdate(bufs: seq<Buf>, i: nat, b: Buf)
    requires i < |bufs|
    ensures InUse(bufs[i := b]) == InUse(bufs) + (if Recyclable(b) then 0 else 1) - if Recyclable(bufs[i]) then 0 else 1
    ensures PinnedTo(bufs[i := b], |bufs|) ==
            PinnedTo(bufs, |bufs|) + (if b.dirty then 1 else 0) - if bufs[i].dirty then 1 else 0
  {
    CountsUpdate(bufs, i, b, |bufs|);
  }

  /** Buffer b of `after` is the locked, filled buffer of block n; it has one reference more
      than it had, or it was idle. */
  ghost predicate Taken(bufs: seq<Buf>, after: seq<Buf>, n: nat, b: nat) {
    && b < |bufs| == |after| && after == bufs[b := after[b]]
    && Holds(after[b], 1, n) && after[b].locked && after[b].valid
    && (Holds(bufs[b], 1, n) ==> after[b].refcnt == bufs[b].refcnt + 1 && after[b].dirty == bufs[b].dirty)
    && (!Holds(bufs[b], 1, n) ==> Recyclable(bufs[b]) && after[b].refcnt == 1 && !after[b].dirty)
    && (!Holds(bufs[b], 1, n) ==> forall i :: 0 <= i < |bufs| ==> !Holds(bufs[i], 1, n))
  }

  /** bread of a block whose buffer nobody has locked; None stands for the panic of bget. */
  method Bread(c: Cache, n: nat) returns (r: Option<nat>)
    requires c.Valid() && n < |c.disk| && Unlocked(c.bufs, n)
    modifies c`bufs, c`disk, c`s
    ensures c.Valid() && c.s == old(c.s).(bufs := c.bufs)
    ensures r.None? <==> InUse(old(c.bufs)) == NBUF && !Cached(old(c.bufs), n)
    ensures r.None? ==> c.bufs == old(c.bufs)
    ensures r.Some? ==>
              && Taken(old(c.bufs), c.bufs, n, r.value) && r.value !in c.s.touched
              && c.bufs[r.value].data == c.s.view[n]
  {
    ghost var bufs := c.bufs;
    r := c.Bget(1, n);
    if r.Some? {
      var b := r.value;
      assert Fine(c.s, b);
      RecycledUnlocked(old(c.s), b);
      c.Acquire(b);
      var ok := c.Fetch(b);
    }
  }

  lemma RecycledUnlocked(s: CacheState, b: nat)
    requires Coherent(s) && b < NBUF
    ensures Recyclable(s.bufs[b]) ==> !s.bufs[b].locked
    ensures b in s.touched ==> s.bufs[b].locked
  {
    assert Fine(s, b);
  }

  /** Only one buffer holds a block of the disk. */
  lemma OneBuffer(s: CacheState, i: nat, j: nat, n: nat)
    requires Coherent(s) && i < NBUF && j < NBUF && Holds(s.bufs[i], 1, n) && Holds(s.bufs[j], 1, n)
    ensures i == j
  {
    assert Apart(s.bufs, i, j);
  }

  /** Two buffers changed, neither from being in use or pinned nor into it. */
  lemma SameCounts(bufs: seq<Buf>, after: seq<Buf>, i: nat, j: nat)
    requires i < |bufs| == |after| && j < |bufs| && i != j && after == bufs[i := after[i]][j := after[j]]
    requires Recyclable(after[i]) == Recyclable(bufs[i]) && after[i].dirty == bufs[i].dirty
    requires Recyclable(after[j]) == Recyclable(bufs[j]) && after[j].dirty == bufs[j].dirty
    ensures InUse(after) == InUse(bufs) && PinnedTo(after, |after|) == PinnedTo(bufs, |bufs|)
  {
    InUseUpdate(bufs, i, after[i]);
    InUseUpdate(bufs[i := after[i]], j, after[j]);
  }

  /** What commit has of a logged block before it copies it: the buffer `to` of the log block
      and the pinned buffer `from` of the home block. */
  ghost predicate Both(bufs: seq<Buf>, after: seq<Buf>, logb: nat, home: nat, to: nat, from: nat) {
    && |bufs| == |after| && to < |bufs| && from < |bufs| && to != from
    && after == bufs[to := after[to]][from := after[from]]
    && Holds(after[to], 1, logb) && after[to].locked && after[to].valid && !after[to].dirty && !bufs[to].dirty
    && Holds(after[from], 1, home) && after[from].locked && after[from].valid && after[from].dirty && bufs[from].dirty
    && Holds(bufs[from], 1, home)
    && after[to].refcnt == bufs[to].refcnt + 1 && after[from].refcnt == bufs[from].refcnt + 1
  }

  /** What the loops of commit need of block n is still so. */
  ghost predicate Kept(bufs: seq<Buf>, after: seq<Buf>, n: nat) {
    && (Unlocked(bufs, n) ==> Unlocked(after, n))
    && (PinnedBlock(bufs, n) ==> PinnedBlock(after, n)) && (NotPinned(bufs, n) ==> NotPinned(after, n))
  }

  /** After a turn the log block's buffer is free to be recycled again, and the home block's is
      pinned as before, or the block is `home` itself. */
  lemma TurnKeeps(bufs: seq<Buf>, after: seq<Buf>, to: nat, from: nat, logb: nat, home: nat, n: nat)
    requires to < |bufs| == |after| && from < |bufs| && to != from
    requires after == bufs[to := after[to]][from := after[from]]
    requires Holds(after[to], 1, logb) && !after[to].locked && !after[to].dirty && !bufs[to].dirty
    requires Holds(bufs[from], 1, home) && Holds(after[from], 1, home) && !after[from].locked && bufs[from].dirty
    requires after[from].dirty || n != home
    ensures Kept(bufs, after, n)
  {
    if PinnedBlock(bufs, n) {
      var i :| 0 <= i < |bufs| && Holds(bufs[i], 1, n) && bufs[i].dirty;
      assert after[i].dirty && Holds(after[i], 1, n);
    }
  }

  /** The two breads of a turn of write_log or install_trans; None stands for the panic of the
      first. The second finds its block pinned. */
  method BreadBoth(c: Cache, logb: nat, home: nat) returns (r: Option<(nat, nat)>)
    requires c.Valid() && logb < |c.disk| && home < |c.disk| && logb != home
    requires Unlocked(c.bufs, logb) && Unlocked(c.bufs, home) && PinnedBlock(c.bufs, home) && NotPinned(c.bufs, logb)
    modifies c`bufs, c`disk, c`s
    ensures c.Valid() && c.s == old(c.s).(bufs := c.bufs)
    ensures r.None? <==> InUse(old(c.bufs)) == NBUF && !Cached(old(c.bufs), logb)
    ensures r.None? ==> c.bufs == old(c.bufs)
    ensures r.Some? ==>
              && Both(old(c.bufs), c.bufs, logb, home, r.value.0, r.value.1)
              && r.value.0 !in c.s.touched && r.value.1 !in c.s.touched
              && c.bufs[r.value.0].data == c.s.view[logb] && c.bufs[r.value.1].data == c.s.view[home]
  {
    ghost var s := c.s;
    ghost var p: nat :| p < |c.bufs| && Holds(c.bufs[p], 1, home) && c.bufs[p].dirty;
    var to := Bread(c, logb);
    if to.None? {
      return None;
    }
    assert c.bufs[p] == s.bufs[p];
    ghost var t := c.s;
    var from := Bread(c, home);
    assert from.Some?;
    OneBuffer(t, p, from.value, home);
    r := Some((to.value, from.value));
  }

  /** One turn of write_log. It can fail only on an uncached log block, when all buffers are
      pinned or held; it leaves as many in use as there were. */
  method WriteLogTurn(c: Cache, logb: nat, home: nat) returns (ok: bool)
    requires c.Valid() && logb < |c.disk| && home < |c.disk| && logb != home
    requires Unlocked(c.bufs, logb) && Unlocked(c.bufs, home) && PinnedBlock(c.bufs, home) && NotPinned(c.bufs, logb)
    modifies c
    ensures c.Valid()
    ensures !ok <==> InUse(old(c.bufs)) == NBUF && !Cached(old(c.bufs), logb)
    ensures !ok ==> c.bufs == old(c.bufs) && c.disk == old(c.disk)
    ensures ok ==> InUse(c.bufs) == InUse(old(c.bufs)) && PinnedTo(c.bufs, NBUF) == PinnedTo(old(c.bufs), NBUF)
    ensures ok ==> c.disk == old(c.disk)[logb := old(c.s).view[home]] && c.s.touched == old(c.s).touched
    ensures ok ==> c.s.view == old(c.s).view[logb := old(c.s).view[home]]
    ensures ok ==> forall n :: Kept(old(c.bufs), c.bufs, n)
  {
    hide InUse, PinnedTo, Unlocked, PinnedBlock, NotPinned;
    ghost var bufs := c.bufs;
    var r := BreadBoth(c, logb, home);
    if r.None? {
      return false;
    }
    var (to, from) := r.value;
    c.Modify(to, c.bufs[from].data);
    c.Bwrite(to);
    ReleaseBoth(c, from, to);
    SameCounts(bufs, c.bufs, to, from);
    forall n ensures Kept(bufs, c.bufs, n) {
      TurnKeeps(bufs, c.bufs, to, from, logb, home, n);
    }
    ok := true;
  }

  /** Two buffers are released, one after the other. */
  method ReleaseBoth(c: Cache, i: nat, j: nat)
    requires c.Valid() && i < NBUF && j < NBUF && i != j && c.bufs[i].locked && c.bufs[j].locked
    requires i !in c.s.touched && j !in c.s.touched
    modifies c
    ensures c.Valid() && c.s == old(c.s).(bufs := c.bufs) && c.disk == old(c.disk)
    ensures old(c.bufs)[i].refcnt > 0 && old(c.bufs)[j].refcnt > 0
    ensures c.bufs == old(c.bufs)[i := old(c.bufs)[i].(locked := false, refcnt := old(c.bufs)[i].refcnt - 1)]
                                 [j := old(c.bufs)[j].(locked := false, refcnt := old(c.bufs)[j].refcnt - 1)]
  {
    c.Brelse(i);
    c.Brelse(j);
  }

  /** One turn of install_trans during a commit: the same, and the home block is pinned no
      more. */
  method InstallTurn(c: Cache, logb: nat, home: nat) returns (ok: bool)
    requires c.Valid() && logb < |c.disk| && home < |c.disk| && logb != home
    requires Unlocked(c.bufs, logb) && Unlocked(c.bufs, home) && PinnedBlock(c.bufs, home) && NotPinned(c.bufs, logb)
    modifies c
    ensures c.Valid()
    ensures !ok <==> InUse(old(c.bufs)) == NBUF && !Cached(old(c.bufs), logb)
    ensures !ok ==> c.bufs == old(c.bufs) && c.disk == old(c.disk)
    ensures ok ==> InUse(c.bufs) <= InUse(old(c.bufs)) && PinnedTo(c.bufs, NBUF) == PinnedTo(old(c.bufs), NBUF) - 1
    ensures ok ==> c.disk == old(c.disk)[home := old(c.s).view[logb]] && c.s.touched == old(c.s).touched
    ensures ok ==> c.s.view == old(c.s).view[home := old(c.s).view[logb]]
    ensures ok ==> forall n :: n != home ==> Kept(old(c.bufs), c.bufs, n)
    ensures ok ==> Unlocked(c.bufs, home)
  {
    hide InUse, PinnedTo;
    ghost var bufs := c.bufs;
    var r := BreadBoth(c, logb, home);
    if r.None? {
      return false;
    }
    var (from, to) := r.value;
    c.Modify(to, c.bufs[from].data);
    c.Bwrite(to);
    ReleaseBoth(c, from, to);
    OneUnpinned(bufs, c.bufs, from, to);
    forall n | n != home ensures Kept(bufs, c.bufs, n) {
      TurnKeeps(bufs, c.bufs, from, to, logb, home, n);
    }
    ok := true;
  }

  lemma OneUnpinned(bufs: seq<Buf>, after: seq<Buf>, i: nat, j: nat)
    requires i < |bufs| == |after| && j < |bufs| && i != j && after == bufs[i := after[i]][j := after[j]]
    requires Recyclable(after[i]) == Recyclable(bufs[i]) && after[i].dirty == bufs[i].dirty
    requires bufs[j].dirty && !after[j].dirty
    ensures InUse(after) <= InUse(bufs) && PinnedTo(after, |after|) == PinnedTo(bufs, |bufs|) - 1
  {
    InUseUpdate(bufs, i, after[i]);
    InUseUpdate(bufs[i := after[i]], j, after[j]);
  }

  /** The bound on the log leaves commit room: with operations of fewer than MAXOPBLOCKS blocks
      at most LOGSIZE - 2 buffers are pinned, so no turn above can fail while others hold at
      most NBUF - LOGSIZE + 1 buffers; with that many pinned it takes one more held. */
  lemma CommitHasRoom(procs: nat, cap: nat, run: seq<Step>, s: CacheState)
    requires cap < MAXOPBLOCKS && Exec(procs, cap, run).Some? && Coherent(s)
    requires forall i :: 0 <= i < NBUF && s.bufs[i].dirty ==> s.bufs[i].blockno in Exec(procs, cap, run).value.blocks
    ensures PinnedTo(s.bufs, NBUF) <= LOGSIZE - 2
    ensures HeldTo(s.bufs, NBUF) <= NBUF - LOGSIZE + 1 ==> InUse(s.bufs) < NBUF
    ensures PinnedTo(s.bufs, NBUF) == LOGSIZE - 2 ==>
              (InUse(s.bufs) < NBUF <==> HeldTo(s.bufs, NBUF) <= NBUF - LOGSIZE + 1)
  {
    var l := Exec(procs, cap, run).value;
    ReachableInv(procs, cap, run);
    UnusedBound(l, cap);
    PinnedWithin(s, l.blocks);
    AllInUse(s.bufs, NBUF);
  }

  // ---- the loops of commit ----

  /** The log blocks are neither locked nor pinned, the listed blocks are not locked, and those
      from the first `done` on are pinned. */
  ghost predicate Poised(bufs: seq<Buf>, lay: Layout, blocks: seq<Word>, done: nat) {
    && (forall n: nat :: lay.start <= n < lay.start + lay.size ==> Unlocked(bufs, n) && NotPinned(bufs, n))
    && (forall j :: 0 <= j < |blocks| ==> Unlocked(bufs, blocks[j]))
    && (forall j :: done <= j < |blocks| ==> PinnedBlock(bufs, blocks[j]))
  }

  /** What an undisturbed block looks like: the disk has what a reader gets. */
  lemma Synced(s: CacheState, n: nat)
    requires Coherent(s) && n < |s.disk| && Unlocked(s.bufs, n) && NotPinned(s.bufs, n)
    ensures s.view[n] == s.disk[n]
  {
    forall i | 0 <= i < NBUF && Holds(s.bufs[i], 1, n) ensures !s.bufs[i].dirty && i !in s.touched {
      assert Fine(s, i);
    }
    assert n in s.unsynced ==> Ahead(s, n);
  }

  /** write_log on the cache: every listed block is copied to its place in the log, and no turn
      meets "no buffers". */
  method WriteLog(c: Cache, lay: Layout, blocks: seq<Word>) returns (ok: bool)
    requires c.Valid() && lay.Ok() && |c.disk| == lay.total && Loggable(lay, blocks)
    requires Poised(c.bufs, lay, blocks, 0) && InUse(c.bufs) < NBUF
    modifies c
    ensures c.Valid() && ok && Poised(c.bufs, lay, blocks, 0) && InUse(c.bufs) < NBUF
    ensures PinnedTo(c.bufs, NBUF) == PinnedTo(old(c.bufs), NBUF)
    ensures c.disk == Copied(old(c.disk), lay, Views(old(c.s).view, blocks), |blocks|)
    ensures c.s.view == Copied(old(c.s).view, lay, Views(old(c.s).view, blocks), |blocks|)
  {
    hide InUse, PinnedTo, Fine, Ahead, Poised;
    ghost var d, v, data := c.disk, c.s.view, Views(c.s.view, blocks);
    var tail: nat := 0;
    while tail < |blocks|
      invariant tail <= |blocks| && c.Valid() && Poised(c.bufs, lay, blocks, 0) && InUse(c.bufs) < NBUF
      invariant PinnedTo(c.bufs, NBUF) == PinnedTo(old(c.bufs), NBUF)
      invariant c.disk == Copied(d, lay, data, tail) && c.s.view == Copied(v, lay, data, tail)
    {
      WriteLogAt(c, lay, blocks, tail, d, v);
      tail := tail + 1;
    }
    ok := true;
  }

  /** Its turn `tail`. */
  method WriteLogAt(c: Cache, lay: Layout, blocks: seq<Word>, tail: nat, ghost d: Platter, ghost v: Platter)
    requires c.Valid() && lay.Ok() && |c.disk| == |d| == |v| == lay.total && Loggable(lay, blocks) && tail < |blocks|
    requires Poised(c.bufs, lay, blocks, 0) && InUse(c.bufs) < NBUF
    requires c.disk == Copied(d, lay, Views(v, blocks), tail) && c.s.view == Copied(v, lay, Views(v, blocks), tail)
    modifies c
    ensures c.Valid() && Poised(c.bufs, lay, blocks, 0) && InUse(c.bufs) < NBUF
    ensures PinnedTo(c.bufs, NBUF) == PinnedTo(old(c.bufs), NBUF)
    ensures c.disk == Copied(d, lay, Views(v, blocks), tail + 1)
    ensures c.s.view == Copied(v, lay, Views(v, blocks), tail + 1)
  {
    hide InUse, PinnedTo, Fine, Ahead, Poised, Kept, Unlocked, PinnedBlock, NotPinned;
    ghost var bufs, data := c.bufs, Views(v, blocks);
    PoisedAt(bufs, lay, blocks, 0, tail);
    assert c.s.view[blocks[tail]] == data[tail];
    var ok := WriteLogTurn(c, lay.start + 1 + tail, blocks[tail]);
    PoisedKept(bufs, c.bufs, lay, blocks, 0, 0);
    CopiedStep(d, lay, data, tail);
    CopiedStep(v, lay, data, tail);
  }

  /** What that means for one turn. */
  lemma PoisedAt(bufs: seq<Buf>, lay: Layout, blocks: seq<Word>, done: nat, k: nat)
    requires Poised(bufs, lay, blocks, done) && lay.Ok() && Loggable(lay, blocks) && done <= k < |blocks|
    ensures var logb, home := lay.start + 1 + k, blocks[k];
            && logb < lay.total && home < lay.total && logb != home && Unlocked(bufs, logb) && NotPinned(bufs, logb)
            && Unlocked(bufs, home) && PinnedBlock(bufs, home)
  {
    assert lay.IsHome(blocks[k]);
  }

  lemma PoisedKept(bufs: seq<Buf>, after: seq<Buf>, lay: Layout, blocks: seq<Word>, done: nat, next: nat)
    requires Poised(bufs, lay, blocks, done) && lay.Ok() && Loggable(lay, blocks) && done <= next
    requires forall n :: (forall j :: done <= j < next && j < |blocks| ==> n != blocks[j]) ==> Kept(bufs, after, n)
    requires forall j :: done <= j < next && j < |blocks| ==> Unlocked(after, blocks[j])
    ensures Poised(after, lay, blocks, next)
  {
    forall n: nat | lay.start <= n < lay.start + lay.size ensures Unlocked(after, n) && NotPinned(after, n) {
      assert Kept(bufs, after, n);
    }
    forall j | 0 <= j < |blocks| && !(done <= j < next) ensures Kept(bufs, after, blocks[j]) {
    }
  }

  /** write_head on the cache. */
  method WriteHead(c: Cache, lay: Layout, blocks: seq<Word>, ghost listed: seq<Word>, ghost done: nat)
    returns (ok: bool)
    requires c.Valid() && lay.Ok() && |c.disk| == lay.total && Loggable(lay, blocks) && Loggable(lay, listed)
    requires Poised(c.bufs, lay, listed, done) && InUse(c.bufs) < NBUF
    modifies c
    ensures c.Valid() && ok && Poised(c.bufs, lay, listed, done) && InUse(c.bufs) < NBUF
    ensures PinnedTo(c.bufs, NBUF) == PinnedTo(old(c.bufs), NBUF)
    ensures c.disk == old(c.disk)[lay.start := WithList(old(c.disk)[lay.start], blocks)]
    ensures c.s.view == old(c.s).view[lay.start := WithList(old(c.disk)[lay.start], blocks)]
  {
    ghost var bufs := c.bufs;
    Synced(c.s, lay.start);
    var r := Bread(c, lay.start);
    var b := r.value;
    c.Modify(b, WithList(c.bufs[b].data, blocks));
    c.Bwrite(b);
    c.Brelse(b);
    HeadCounts(bufs, c.bufs, b);
    forall n ensures Kept(bufs, c.bufs, n) {
      HeadKeeps(bufs, c.bufs, b, lay.start, n);
    }
    PoisedKept(bufs, c.bufs, lay, listed, done, done);
    ok := true;
  }

  lemma HeadCounts(bufs: seq<Buf>, after: seq<Buf>, b: nat)
    requires b < |bufs| == |after| == NBUF && after == bufs[b := after[b]]
    requires Recyclable(after[b]) == Recyclable(bufs[b]) && after[b].dirty == bufs[b].dirty
    ensures InUse(after) == InUse(bufs) && PinnedTo(after, NBUF) == PinnedTo(bufs, NBUF)
  {
    InUseUpdate(bufs, b, after[b]);
  }

  lemma HeadKeeps(bufs: seq<Buf>, after: seq<Buf>, b: nat, head: nat, n: nat)
    requires b < |bufs| == |after| && after == bufs[b := after[b]]
    requires Holds(after[b], 1, head) && !after[b].locked && !after[b].dirty && !bufs[b].dirty
    ensures Kept(bufs, after, n)
  {
    if PinnedBlock(bufs, n) {
      var i :| 0 <= i < |bufs| && Holds(bufs[i], 1, n) && bufs[i].dirty;
      assert after[i].dirty && Holds(after[i], 1, n);
    }
  }

  /** The log blocks hold what a reader gets of the listed ones. */
  ghost predicate LogHolds(view: Platter, lay: Layout, blocks: seq<Word>, d: Platter) {
    && lay.Ok() && |view| == |d| == lay.total && Loggable(lay, blocks)
    && forall k :: 0 <= k < |blocks| ==> InLog(view, lay, blocks, d, k)
  }

  predicate InLog(view: Platter, lay: Layout, blocks: seq<Word>, d: Platter, k: nat)
    requires k < |blocks| < lay.size && lay.start + lay.size <= |view| == |d| && blocks[k] < |view|
  {
    view[lay.start + 1 + k] == d[lay.start + 1 + k] == view[blocks[k]]
  }

  lemma LoggedAt(view: Platter, lay: Layout, blocks: seq<Word>, d: Platter, k: nat)
    requires LogHolds(view, lay, blocks, d) && k < |blocks|
    ensures |view| == |d| == lay.total && lay.start + 1 + k < lay.total && blocks[k] < lay.total
    ensures view[lay.start + 1 + k] == d[lay.start + 1 + k] == view[blocks[k]]
  {
    assert InLog(view, lay, blocks, d, k) && lay.IsHome(blocks[k]);
  }

  /** install_trans during a commit: the log copies reach their home blocks, which are pinned no
      more. */
  method InstallTrans(c: Cache, lay: Layout, blocks: seq<Word>) returns (ok: bool)
    requires c.Valid() && lay.Ok() && |c.disk| == lay.total && Loggable(lay, blocks)
    requires Poised(c.bufs, lay, blocks, 0) && InUse(c.bufs) < NBUF && LogHolds(c.s.view, lay, blocks, c.disk)
    modifies c
    ensures c.Valid() && ok && Poised(c.bufs, lay, blocks, |blocks|) && InUse(c.bufs) < NBUF
    ensures PinnedTo(c.bufs, NBUF) == PinnedTo(old(c.bufs), NBUF) - |blocks|
    ensures c.disk == Installed(old(c.disk), lay, blocks, |blocks|) && c.s.view == old(c.s).view
  {
    hide InUse, PinnedTo, Fine, Ahead, Poised, Kept, Unlocked, PinnedBlock, NotPinned, LogHolds;
    ghost var d := c.disk;
    var tail: nat := 0;
    while tail < |blocks|
      invariant tail <= |blocks| && c.Valid() && Poised(c.bufs, lay, blocks, tail) && InUse(c.bufs) < NBUF
      invariant PinnedTo(c.bufs, NBUF) == PinnedTo(old(c.bufs), NBUF) - tail
      invariant c.disk == Installed(d, lay, blocks, tail) && c.s.view == old(c.s).view
    {
      ghost var bufs := c.bufs;
      PoisedAt(bufs, lay, blocks, tail, tail);
      LoggedAt(old(c.s).view, lay, blocks, d, tail);
      ok := InstallTurn(c, lay.start + 1 + tail, blocks[tail]);
      PoisedKept(bufs, c.bufs, lay, blocks, tail, tail + 1);
      tail := tail + 1;
    }
    ok := true;
  }

  /** commit on the cache. With at most LOGSIZE - 2 listed blocks, which are all that is pinned,
      and at most NBUF - LOGSIZE + 1 buffers held by others, no step meets "no buffers". The
      disk ends as CommitTrace says, what a reader gets of the home blocks is as it was, and
      nothing is pinned any more. */
  method Commit(c: Cache, lay: Layout, blocks: seq<Word>) returns (ok: bool)
    requires c.Valid() && lay.Ok() && |c.disk| == lay.total && Loggable(lay, blocks) && blocks != []
    requires Poised(c.bufs, lay, blocks, 0) && |blocks| <= LOGSIZE - 2
    requires forall i :: 0 <= i < NBUF && c.bufs[i].dirty ==> c.bufs[i].blockno in blocks
    requires HeldTo(c.bufs, NBUF) <= NBUF - LOGSIZE + 1
    modifies c
    ensures c.Valid() && ok
    ensures PinnedTo(c.bufs, NBUF) == PinnedTo(old(c.bufs), NBUF) - |blocks| == 0
    ensures var t := CommitTrace(old(c.disk), lay, blocks, Views(old(c.s).view, blocks));
            c.disk == t[|t| - 1]
    ensures |c.s.view| == lay.total
    ensures forall x :: lay.IsHome(x) ==> c.s.view[x] == old(c.s).view[x] && (x in blocks ==> c.disk[x] == c.s.view[x])
  {
    hide Poised, InUse, PinnedTo, Copied, Installed, Coherent, CommitTrace, Committed, WithList;
    RoomForCommit(c.s, blocks);
    ghost var d, v, data := c.disk, c.s.view, Views(c.s.view, blocks);
    ok := WriteLog(c, lay, blocks);
    ok := WriteHead(c, lay, blocks, blocks, 0);
    ghost var m, w := c.disk, c.s.view;
    CommittedLog(d, v, lay, blocks, data, m, w);
    ok := InstallTrans(c, lay, blocks);
    ok := WriteHead(c, lay, [], blocks, |blocks|);
    CommitDone(d, v, lay, blocks, data, m, w);
  }

  /** Disk and view once the header is written. */
  lemma CommittedLog(d: Platter, v: Platter, lay: Layout, blocks: seq<Word>, data: seq<Block>, m: Platter, w: Platter)
    requires lay.Ok() && |d| == |v| == lay.total && Loggable(lay, blocks) && data == Views(v, blocks)
    requires m == Copied(d, lay, data, |data|)[lay.start := WithList(Copied(d, lay, data, |data|)[lay.start], blocks)]
    requires |w| == |d| && forall x :: 0 <= x < |w| && x != lay.start ==> w[x] == Copied(v, lay, data, |data|)[x]
    ensures m == Committed(d, lay, blocks, data)
    ensures forall x :: lay.IsHome(x) ==> w[x] == v[x]
    ensures LogHolds(w, lay, blocks, m)
  {
  }

  lemma LastWrite(d: Platter, lay: Layout, blocks: seq<Word>, data: seq<Block>)
    requires lay.Ok() && |d| == lay.total && Loggable(lay, blocks) && |data| == |blocks| && blocks != []
    ensures var t := CommitTrace(d, lay, blocks, data);
            t[|t| - 1] == HeadCleared(Installed(Committed(d, lay, blocks, data), lay, blocks, |blocks|), lay)
  {
    CommittedWellFormed(d, lay, blocks, data);
    hide Installed, Committed, WithList, Copied;
  }

  lemma RoomForCommit(s: CacheState, blocks: seq<Word>)
    requires Coherent(s) && |blocks| <= LOGSIZE - 2 && HeldTo(s.bufs, NBUF) <= NBUF - LOGSIZE + 1
    requires forall i :: 0 <= i < NBUF && s.bufs[i].dirty ==> s.bufs[i].blockno in blocks
    ensures PinnedTo(s.bufs, NBUF) <= |blocks| && InUse(s.bufs) < NBUF && |s.view| == |s.disk|
  {
    PinnedWithin(s, blocks);
  }

  /** The disk at the end. */
  lemma CommitDone(d: Platter, v: Platter, lay: Layout, blocks: seq<Word>, data: seq<Block>, m: Platter, w: Platter)
    requires lay.Ok() && |d| == |v| == lay.total && Loggable(lay, blocks) && |data| == |blocks|
    requires m == Committed(d, lay, blocks, data) && blocks != []
    requires LogHolds(w, lay, blocks, m) && forall x :: lay.IsHome(x) ==> w[x] == v[x]
    ensures var t := CommitTrace(d, lay, blocks, data);
            var r := Installed(m, lay, blocks, |blocks|);
            && t[|t| - 1] == r[lay.start := WithList(r[lay.start], [])]
            && forall k :: 0 <= k < |blocks| ==> r[blocks[k]] == v[blocks[k]]
  {
    LastWrite(d, lay, blocks, data);
    hide CommitTrace, Committed, WithList, Installed;
    forall k | 0 <= k < |blocks| ensures Installed(m, lay, blocks, |blocks|)[blocks[k]] == v[blocks[k]] {
      AllInstalled(m, lay, blocks, w, k);
    }
  }

  lemma AllInstalled(m: Platter, lay: Layout, blocks: seq<Word>, w: Platter, k: nat)
    requires LogHolds(w, lay, blocks, m) && k < |blocks|
    ensures Installed(m, lay, blocks, |blocks|)[blocks[k]] == w[blocks[k]]
  {
    InstalledAt(m, lay, blocks, |blocks|, blocks[k]);
    IndexOfDistinct(blocks, k);
    assert InLog(w, lay, blocks, m, k);
  }
}
