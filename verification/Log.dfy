/** log.c itself: the in-memory log header and its loops, proved against the platter traces
    of LogFormat and the critical sections of LogProtocol. */
module Log {
  import opened Common
  import opened Disk
  import opened LogFormat
  import opened LogProtocol

  ghost function Views(view: Platter, blocks: seq<Word>): (data: seq<Block>)
    requires forall i :: 0 <= i < |blocks| ==> blocks[i] < |view|
    ensures |data| == |blocks| && forall i :: 0 <= i < |data| ==> data[i] == view[blocks[i]]
  {
    seq(|blocks|, i requires 0 <= i < |blocks| => view[blocks[i]])
  }

  class Log {
    const lay: Layout
    const store: BlockStore
    const block: array<Word>   // lh.block
    var n: nat                 // lh.n
    var outstanding: int
    var committing: bool
    ghost var ops: seq<Op>
    ghost var sleepers: set<nat>
    ghost var ended: set<Word>

    ghost predicate Shape()
      reads this, store
    {
      && block.Length == LOGSIZE && n < lay.size
      && lay.Ok() && store.Valid() && |store.platter| == lay.total
    }

    ghost predicate OnlyPinned(blocks: seq<Word>)
      reads store
    {
      forall b :: b in store.dirty <==> b in blocks
    }

    /** Outside commit the disk's log is empty and the pinned blocks are the listed ones. */
    ghost predicate Valid()
      reads this, store, block
    {
      && Shape()
      && Loggable(lay, block[..n])
      && WellFormed(store.platter, lay) && Pending(store.platter, lay) == []
      && OnlyPinned(block[..n])
    }

    lemma EmptyIsValid()
      requires Shape() && n == 0 && store.dirty == {}
      requires WellFormed(store.platter, lay) && Pending(store.platter, lay) == []
      ensures Valid() && block[..n] == []
    {
    }

    /** The state of the reservation protocol. */
    ghost function State(): LogState
      requires Shape()
      reads this, store, block
    {
      LogState(ops, outstanding, committing, block[..n], sleepers, ended)
    }

    /** The cached contents of the listed blocks: what the transaction will write. */
    ghost function Data(): (data: seq<Block>)
      requires Shape() && Loggable(lay, block[..n])
      reads this, store, block
      ensures |data| == n
    {
      Views(store.view, block[..n])
    }

    constructor (lay: Layout, store: BlockStore)
      requires lay.Ok() && store.Valid() && |store.platter| == lay.total
      ensures this.lay == lay && this.store == store && fresh(block) && Shape() && n == 0
    {
      this.lay := lay;
      this.store := store;
      block := new Word[LOGSIZE];
      n := 0;
      outstanding := 0;
      committing := false;
      ops := [];
      sleepers := {};
      ended := {};
    }

    // ---- reservation ----

    /** One pass of begin_op's loop: admit the operation or go to sleep. */
    method BeginOp(who: nat) returns (admitted: bool)
      requires Valid() && Enabled(State(), Begin(who))
      modifies this
      ensures Valid() && State() == Apply(old(State()), Begin(who))
      ensures admitted == HasRoom(old(State()))
      ensures admitted <==> !old(committing) && old(n) + MAXOPBLOCKS * (old(outstanding) + 1) <= LOGSIZE
      ensures if admitted then ops == old(ops)[who := Active({}, None)] && outstanding == old(outstanding) + 1
              else ops == old(ops) && who in sleepers && outstanding == old(outstanding)
    {
      if committing || n + (outstanding + 1) * MAXOPBLOCKS > LOGSIZE {
        admitted := false;
        sleepers := sleepers + {who};
      } else {
        outstanding := outstanding + 1;
        admitted := true;
        ops := ops[who := Active({}, None)];
      }
    }

    /** The tests log_write makes before it takes the lock; false stands for its panics. */
    method LogWriteCheck(who: nat, b: Word) returns (ok: bool)
      requires Valid() && lay.size == LOGSIZE && Enabled(State(), Check(who, b))
      modifies this
      ensures Valid() && ok == !Panics(old(State()), Check(who, b))
      ensures ok <==> old(n) < LOGSIZE - 1 && old(outstanding) >= 1
      ensures State() == if ok then Apply(old(State()), Check(who, b)) else old(State())
    {
      ok := !(n >= LOGSIZE || n >= lay.size - 1 || outstanding < 1);
      if ok {
        ops := ops[who := ops[who].(checked := Some(b))];
      }
    }

    /** log_write under the lock: absorb or append the block and pin its new contents. */
    method LogWrite(ghost who: nat, b: Word, data: Block)
      requires Valid() && Enabled(State(), Append(who)) && ops[who].checked == Some(b)
      requires lay.IsHome(b) && (b in block[..n] || n < lay.size - 1)
      modifies this, block, store
      ensures Valid() && State() == Apply(old(State()), Append(who))
      ensures store.view == old(store.view)[b := data]
      ensures store.platter == old(store.platter) && store.crashPoints == old(store.crashPoints)
    {
      var i := 0;
      while i < n && block[i] != b
        invariant 0 <= i <= n
        invariant b !in block[..i]
      {
        i := i + 1;
      }
      ghost var before := block[..n];
      assert i < n ==> block[i] == before[i];
      block[i] := b;
      if i == n {
        assert b !in before;
        n := n + 1;
        assert block[..n] == before + [b];
      } else {
        assert block[..n] == before;
      }
      store.Pin(b, data);
      ops := ops[who := Active(ops[who].logged + {b}, None)];
    }

    /** The critical section at the start of end_op; true means this process must commit. */
    method EndOp(who: nat) returns (doCommit: bool)
      requires Valid() && Enabled(State(), End(who)) && !Panics(State(), End(who))
      modifies this
      ensures Valid() && State() == Apply(old(State()), End(who))
      ensures doCommit == committing && (doCommit <==> old(outstanding) == 1) && (!doCommit ==> sleepers == {})
    {
      doCommit := false;
      outstanding := outstanding - 1;
      ended := ended + ops[who].logged;
      ops := ops[who := Idle];
      if outstanding == 0 {
        doCommit := true;
        committing := true;
      } else {
        sleepers := {};
      }
    }

    /** The critical section at the end of end_op, after commit. */
    method CommitDone()
      requires Valid() && Enabled(State(), CommitEnd)
      modifies this
      ensures Valid() && State() == Apply(old(State()), CommitEnd)
    {
      committing := false;
      sleepers := {};
    }

    // ---- commit and recovery ----

    method ReadHead()
      requires Shape() && lay.start !in store.dirty && WellFormed(store.platter, lay)
      modifies this`n, block
      ensures Shape() && block[..n] == Pending(store.platter, lay)
    {
      var head := store.Bread(lay.start);
      n := head[0];
      for i := 0 to n
        invariant n == head[0]
        invariant block[..i] == head[1..1 + i]
      {
        block[i] := head[i + 1];
      }
    }

    method WriteHead()
      requires Shape()
      modifies store
      ensures Shape() && store.view[lay.start] == WithList(old(store.view[lay.start]), block[..n])
      ensures store.platter == old(store.platter)[lay.start := store.view[lay.start]]
      ensures store.view == old(store.view)[lay.start := store.view[lay.start]]
      ensures store.dirty == old(store.dirty) - {lay.start}
      ensures store.crashPoints == old(store.crashPoints) + [store.platter]
    {
      var head := store.Bread(lay.start);
      var hb: Block := head[0 := n];
      for i := 0 to n
        invariant hb == [n] + block[..i] + head[1 + i..]
      {
        hb := hb[i + 1 := block[i]];
        assert block[..i + 1] == block[..i] + [block[i]];
      }
      store.Bwrite(lay.start, hb);
    }

    /** Copy the logged blocks home. */
    method InstallTrans()
      requires Shape() && Loggable(lay, block[..n])
      requires forall b :: b in store.dirty ==> b in block[..n]
      modifies store
      ensures Shape() && store.dirty == {}
      ensures store.platter == Installed(old(store.platter), lay, block[..n], n)
      ensures store.crashPoints == old(store.crashPoints)
                + InstallTrace(old(store.platter), lay, block[..n], n)
    {
      ghost var d, blocks := store.platter, block[..n];
      var tail := 0;
      while tail < n
        invariant 0 <= tail <= n && Shape() && block[..n] == blocks
        invariant store.platter == Installed(d, lay, blocks, tail)
        invariant store.dirty <= old(store.dirty)
        invariant forall i :: 0 <= i < tail ==> blocks[i] !in store.dirty
        invariant store.crashPoints == old(store.crashPoints)
                    + InstallTrace(d, lay, blocks, tail)
      {
        InstallOne(tail, d, blocks);
        tail := tail + 1;
      }
    }

    /** One turn of install_trans. */
    method InstallOne(tail: nat, ghost d: Platter, ghost blocks: seq<Word>)
      requires Shape() && tail < n && blocks == block[..n] && Loggable(lay, blocks)
      requires |d| == lay.total && store.platter == Installed(d, lay, blocks, tail)
      requires forall b :: b in store.dirty ==> b in blocks
      modifies store
      ensures Shape() && store.dirty == old(store.dirty) - {blocks[tail]}
      ensures store.platter == Installed(d, lay, blocks, tail + 1)
      ensures store.crashPoints == old(store.crashPoints) + [store.platter]
    {
      InstalledAt(d, lay, blocks, tail, lay.start + tail + 1);
      var logged := store.Bread(lay.start + tail + 1);
      assert blocks[tail] == block[tail];
      store.Bwrite(block[tail], logged);
    }

    /** Copy the cached blocks to the log area. */
    method WriteLog()
      requires Shape() && Loggable(lay, block[..n])
      requires forall b :: b in store.dirty ==> b in block[..n]
      modifies store
      ensures Shape() && store.dirty == old(store.dirty)
      ensures store.platter == Copied(old(store.platter), lay, old(Data()), n)
      ensures forall b :: lay.IsHome(b) ==> store.view[b] == old(store.view[b])
      ensures store.crashPoints == old(store.crashPoints)
                + CopyTrace(old(store.platter), lay, old(Data()), n)
    {
      ghost var d, data := store.platter, Data();
      assert Copied(d, lay, data, 0) == d;
      var tail := 0;
      while tail < n
        invariant 0 <= tail <= n && Shape()
        invariant store.platter == Copied(d, lay, data, tail) && store.dirty == old(store.dirty)
        invariant forall b :: lay.IsHome(b) ==> store.view[b] == old(store.view[b])
        invariant store.crashPoints == old(store.crashPoints)
                    + CopyTrace(d, lay, data, tail)
      {
        CopyOne(tail, d, data);
        tail := tail + 1;
      }
    }

    /** One turn of write_log. */
    method CopyOne(tail: nat, ghost d: Platter, ghost data: seq<Block>)
      requires Shape() && tail < n && Loggable(lay, block[..n]) && |data| == n && |d| == lay.total
      requires forall b :: b in store.dirty ==> b in block[..n]
      requires store.view[block[..n][tail]] == data[tail] && store.platter == Copied(d, lay, data, tail)
      modifies store
      ensures Shape() && store.dirty == old(store.dirty)
      ensures store.platter == Copied(d, lay, data, tail + 1)
      ensures forall b :: lay.IsHome(b) ==> store.view[b] == old(store.view[b])
      ensures store.crashPoints == old(store.crashPoints) + [store.platter]
    {
      assert block[..n][tail] == block[tail];
      var from := store.Bread(block[tail]);
      store.Bwrite(lay.start + tail + 1, from);
      CopiedStep(d, lay, data, tail);
    }

    /** commit: its platter writes are exactly CommitTrace, whose crash behaviour
        CommitAtomic and CrashAtomicity describe; when it is done every home block on the
        platter is what the cache held. */
    method CommitBody()
      requires Valid() && committing
      modifies this`n, this`ended, store
      ensures Valid() && store.dirty == {}
      ensures store.crashPoints == old(store.crashPoints)
                + CommitTrace(old(store.platter), lay, old(block[..n]), old(Data()))
      ensures forall b :: lay.IsHome(b) ==> store.platter[b] == old(store.view[b])
      ensures State() == old(State()).(blocks := [], ended := {})   // Apply(_, Commit)
    {
      hide CommitTrace;
      ghost var t := State().(blocks := [], ended := {});
      CommitWrites();
      assert block[..n] == [];
      ended := {};
      assert State() == t;
    }

    /** What commit does if there is anything to commit. */
    method CommitWrites()
      requires Valid()
      modifies this`n, store
      ensures Valid() && n == 0 && store.dirty == {}
      ensures store.crashPoints == old(store.crashPoints)
                + CommitTrace(old(store.platter), lay, old(block[..n]), old(Data()))
      ensures forall b :: lay.IsHome(b) ==> store.platter[b] == old(store.view[b])
    {
      HomeContents(store.view, store.platter, lay, block[..n], store.dirty);
      if n > 0 {
        WriteAndInstall();
      }
    }

    method WriteAndInstall()
      requires Valid() && n > 0
      modifies this`n, store
      ensures Valid() && n == 0 && store.dirty == {}
      ensures store.crashPoints == old(store.crashPoints)
                + CommitTrace(old(store.platter), lay, old(block[..n]), old(Data()))
      ensures forall b :: lay.IsHome(b) ==>
                store.platter[b] == Updated(old(store.platter), old(block[..n]), old(Data()), b)
    {
      ghost var d, blocks, data := store.platter, block[..n], Data();
      ghost var c := Committed(d, lay, blocks, data);
      WriteToLog();
      CommittedWellFormed(d, lay, blocks, data);
      Install(c);
      CommitEnds(d, lay, blocks, data);
      Regroup(old(store.crashPoints), CopyTrace(d, lay, data, |data|), [c], RecoveryTrace(c, lay));
    }

    /** write_log and the write_head that commits. */
    method WriteToLog()
      requires Valid()
      modifies store
      ensures Shape() && OnlyPinned(block[..n])
      ensures store.platter == Committed(old(store.platter), lay, block[..n], old(Data()))
      ensures store.crashPoints == old(store.crashPoints)
                + CopyTrace(old(store.platter), lay, old(Data()), n) + [store.platter]
    {
      WriteLog();
      WriteHead();
    }

    /** The tail that commit and recovery share: install, then clear the header. */
    method Install(ghost d: Platter)
      requires Shape() && Loggable(lay, block[..n]) && store.platter == d
      requires WellFormed(d, lay) && Pending(d, lay) == block[..n]
      requires forall b :: b in store.dirty ==> b in block[..n]
      modifies this`n, store
      ensures Shape() && n == 0 && store.dirty == {}
      ensures store.crashPoints == old(store.crashPoints) + RecoveryTrace(d, lay)
      ensures var t := RecoveryTrace(d, lay); store.platter == t[|t| - 1]
      ensures Valid()
    {
      InstalledWellFormed(d, lay, n);
      InstallTrans();
      ClearHead(d);
    }

    /** An empty list is written to the header. */
    method ClearHead(ghost d: Platter)
      requires Shape() && store.dirty == {} && WellFormed(d, lay)
      requires store.platter == Installed(d, lay, Pending(d, lay), |Pending(d, lay)|)
      modifies this`n, store
      ensures Valid() && n == 0 && store.dirty == {}
      ensures store.platter == HeadCleared(Installed(d, lay, Pending(d, lay), |Pending(d, lay)|), lay)
      ensures store.crashPoints == old(store.crashPoints) + [store.platter]
    {
      RecoveryKeepsLogical(d, lay, |Pending(d, lay)|);
      n := 0;
      WriteHead();
      EmptyIsValid();
    }

    /** Boot after a crash. */
    method RecoverFromLog()
      requires Shape() && store.dirty == {} && WellFormed(store.platter, lay)
      modifies this`n, block, store
      ensures Valid() && n == 0 && store.platter == Recovered(old(store.platter), lay)
      ensures store.crashPoints == old(store.crashPoints) + RecoveryTrace(old(store.platter), lay)
    {
      ghost var d := store.platter;
      ReadHead();
      Install(d);
    }
  }

  lemma Regroup(a: seq<Platter>, b: seq<Platter>, c: seq<Platter>, d: seq<Platter>)
    ensures a + b + c + d == a + (b + c + d)
  {
  }

  /** Every home block's cached content is its logged data if it is listed, else its
      platter content. */
  lemma HomeContents(view: Platter, d: Platter, lay: Layout, blocks: seq<Word>, dirty: set<nat>)
    requires lay.Ok() && |view| == |d| == lay.total && Loggable(lay, blocks)
    requires forall b :: b in dirty ==> b in blocks
    requires forall b: nat :: b < |d| && b !in dirty ==> view[b] == d[b]
    ensures forall b :: lay.IsHome(b) ==> view[b] == Updated(d, blocks, Views(view, blocks), b)
  {
  }
}
