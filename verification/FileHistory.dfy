/** File operations on the crash-safe disk under group commit: what any run of them leaves on
    the disk after a crash. The log_writes of one operation come between no other's; begins,
    ends, commits and crashes may fall anywhere. */
module FileHistory {
  import opened Common
  import opened DurableFs
  import opened FileSystem
  import opened FsFormat
  import opened FsImage
  import opened GroupCommit
  import Disk
  import LogFormat
  import LogProtocol

  // ---- one operation ----

  datatype Change = Wrote(i: nat, off: nat, src: seq<Byte>) | Emptied(i: nat)

  /** What it did, the image before and after it, and the blocks it logged. */
  datatype FileOp = FileOp(change: Change, before: Image, after: Image, logged: set<nat>)

  ghost predicate Changed(c: Change, v: Image, w: Image) {
    match c
    case Wrote(i, off, src) => WroteFile(v, w, i, off, src)
    case Emptied(i) => Truncated(v, w, i)
  }

  ghost predicate Decent(geo: Geometry, v: Image) {
    Fits(geo, v) && Sound(v) && AllSized(v)
  }

  /** What the contracts of WriteChunk and TruncateOp promise of an operation. */
  ghost predicate Performs(geo: Geometry, op: FileOp) {
    && Decent(geo, op.before) && Decent(geo, op.after) && Changed(op.change, op.before, op.after)
    && Covered(op.before, op.after, geo.inodestart, geo.bmapstart, op.logged)
  }

  /** An operation that fits those contracts is on the same geometry afterwards. */
  lemma StillFits(geo: Geometry, v: Image, w: Image, logged: set<nat>)
    requires Fits(geo, v) && Sound(w) && Covered(v, w, geo.inodestart, geo.bmapstart, logged)
    ensures Fits(geo, w) && forall x :: Modelled(geo, w, x) <==> Modelled(geo, v, x)
  {
  }

  /** One chunk of filewrite as an operation of the histories below. */
  method ChunkOp(vol: Volume, geo: Geometry, i: nat, src: seq<Byte>, off: nat)
    returns (r: int, panicked: bool, ghost op: FileOp)
    requires vol.Ready() && i < |vol.inodes| && |src| <= CHUNK && off < WRAP && Fits(geo, vol.img)
    requires vol.inodestart == geo.inodestart && vol.bmapstart == geo.bmapstart
    modifies vol`blocks, vol`bits, vol`inodes, vol`dinodes, vol`logged, vol`img, vol`start
    ensures panicked ==> Full(vol.img)
    ensures !panicked ==> vol.Ready() && r == if Refused(old(vol.img), i, off, |src|) then -1 else |src|
    ensures !panicked && r >= 0 ==>
              && op == FileOp(Wrote(i, off, src), old(vol.img), vol.img, vol.logged) && Performs(geo, op)
              && (|vol.blocks| <= BPB ==> |op.logged| <= 7)
  {
    ghost var v := vol.img;
    r, panicked := vol.WriteChunk(i, src, off);
    op := FileOp(Wrote(i, off, src), v, vol.img, vol.logged);
    if !panicked && r >= 0 {
      StillFits(geo, v, vol.img, vol.logged);
    }
  }

  /** A truncation as such an operation. */
  method TruncationOp(vol: Volume, geo: Geometry, i: nat) returns (ghost op: FileOp)
    requires vol.Ready() && i < |vol.inodes| && Fits(geo, vol.img)
    requires vol.inodestart == geo.inodestart && vol.bmapstart == geo.bmapstart
    modifies vol`bits, vol`inodes, vol`dinodes, vol`logged, vol`img, vol`start
    ensures vol.Ready() && op == FileOp(Emptied(i), old(vol.img), vol.img, vol.logged) && Performs(geo, op)
  {
    ghost var v := vol.img;
    var ok := vol.TruncateOp(i);
    op := FileOp(Emptied(i), v, vol.img, vol.logged);
    StillFits(geo, v, vol.img, vol.logged);
  }

  // ---- its log_writes ----

  datatype Put = Put(b: Word, data: Disk.Block)

  /** The last contents put into block x. */
  function LastPut(puts: seq<Put>, x: nat): Option<Disk.Block> {
    if puts == [] then None
    else if LastPut(puts[1..], x).Some? then LastPut(puts[1..], x)
    else if puts[0].b == x then Some(puts[0].data) else None
  }

  /** Block x once all of puts have been made. */
  function Final(puts: seq<Put>, cur: Disk.Block, x: nat): Disk.Block {
    match LastPut(puts, x)
    case None => cur
    case Some(data) => data
  }

  /** The operation puts into exactly the blocks it logged, and in the end what the image after
      it has there. It may log a block several times. */
  ghost predicate Carries(geo: Geometry, op: FileOp, puts: seq<Put>)
    requires Performs(geo, op)
  {
    && (forall x: nat :: x in op.logged <==> LastPut(puts, x).Some?)
    && forall x: nat :: LastPut(puts, x).Some? ==>
         Modelled(geo, op.after, x) && LastPut(puts, x).value == Laid(geo, op.after, x)
  }

  /** Logging each block once, in any order, will do. */
  ghost function PutsOf(geo: Geometry, w: Image, blocks: seq<Word>): (puts: seq<Put>)
    requires Shaped(w) && forall k :: 0 <= k < |blocks| ==> Modelled(geo, w, blocks[k])
    ensures |puts| == |blocks|
    ensures forall k :: 0 <= k < |puts| ==> puts[k] == Put(blocks[k], Laid(geo, w, blocks[k]))
  {
    seq(|blocks|, k requires 0 <= k < |blocks| => Put(blocks[k], Laid(geo, w, blocks[k])))
  }

  lemma {:induction false} PutsAt(geo: Geometry, w: Image, puts: seq<Put>, x: nat)
    requires Shaped(w)
    requires forall k :: 0 <= k < |puts| ==> Modelled(geo, w, puts[k].b) && puts[k].data == Laid(geo, w, puts[k].b)
    ensures LastPut(puts, x).Some? <==> exists k :: 0 <= k < |puts| && puts[k].b == x
    ensures LastPut(puts, x).Some? ==> Modelled(geo, w, x) && LastPut(puts, x).value == Laid(geo, w, x)
    decreases |puts|
  {
    if puts != [] {
      PutsAt(geo, w, puts[1..], x);
      assert forall k :: 0 < k < |puts| ==> puts[k] == puts[1..][k - 1];
      if exists k :: 0 <= k < |puts| && puts[k].b == x {
        var k :| 0 <= k < |puts| && puts[k].b == x;
        assert k > 0 ==> puts[1..][k - 1].b == x;
      }
    }
  }

  lemma EachOnceCarries(geo: Geometry, op: FileOp, blocks: seq<Word>)
    requires Performs(geo, op) && forall x: nat :: x in op.logged <==> x < WRAP && x in blocks
    ensures forall k :: 0 <= k < |blocks| ==> Modelled(geo, op.after, blocks[k])
    ensures Carries(geo, op, PutsOf(geo, op.after, blocks))
  {
    StillFits(geo, op.before, op.after, op.logged);
    forall k | 0 <= k < |blocks| ensures blocks[k] in op.logged && Modelled(geo, op.after, blocks[k]) {
      LoggedIsHome(geo, op.before, blocks[k]);
    }
    var puts := PutsOf(geo, op.after, blocks);
    forall x: nat
      ensures x in op.logged <==> LastPut(puts, x).Some?
      ensures LastPut(puts, x).Some? ==>
                Modelled(geo, op.after, x) && LastPut(puts, x).value == Laid(geo, op.after, x)
    {
      PutsAt(geo, op.after, puts, x);
      assert x in op.logged ==> exists k :: 0 <= k < |blocks| && blocks[k] == x;
      assert forall k :: 0 <= k < |puts| ==> puts[k].b == blocks[k];
    }
  }

  // ---- runs ----

  /** Operation op of process `who` is under way and has yet to log `todo`. */
  datatype Mid = Mid(who: nat, op: FileOp, todo: seq<Put>)

  /** `kept` are the operations that are durable, which lead to the image `safe`; `newer` those
      since, which lead on to `now`, the image in the cache between two operations. */
  datatype Files = Files(kept: seq<FileOp>, safe: Image, newer: seq<FileOp>, now: Image, mid: Option<Mid>)

  /** An event of the machine other than a log_write; the start of a file operation by a process
      that has been admitted; its next log_write. */
  datatype FileEvent =
    | Kernel(e: Event)
    | Start(who: nat, op: FileOp, puts: seq<Put>)
    | LogNext

  /** The next log_write of the operation under way. */
  function NextWrite(fs: Files): Event
    requires fs.mid.Some? && fs.mid.value.todo != []
  {
    LogWrite(fs.mid.value.who, fs.mid.value.todo[0].data)
  }

  /** May this come next? A process that has not logged all its operation changed does not end
      it. */
  ghost predicate May(geo: Geometry, g: Machine, fs: Files, e: FileEvent, cap: nat)
    requires GroupCommit.Sized(g, geo.lay)
  {
    match e
    case Kernel(k) =>
      && !k.LogWrite? && Feasible(g, k, geo.lay) && WithinCap(g, k, cap)
      && (fs.mid.Some? ==> k != Protocol(LogProtocol.End(fs.mid.value.who)))
    case Start(who, op, puts) =>
      && fs.mid.None? && who < |g.proto.ops| && g.proto.ops[who].Active?
      && op.before == fs.now && Performs(geo, op) && Carries(geo, op, puts)
    case LogNext =>
      && fs.mid.Some? && fs.mid.value.todo != []
      && Feasible(g, NextWrite(fs), geo.lay) && WithinCap(g, NextWrite(fs), cap)
      && g.proto.ops[fs.mid.value.who].checked == Some(fs.mid.value.todo[0].b)
  }

  /** The operation has `todo` left to log. */
  function Left(fs: Files, m: Mid): Files {
    if m.todo == [] then fs.(newer := fs.newer + [m.op], now := m.op.after, mid := None) else fs.(mid := Some(m))
  }

  ghost function Then(geo: Geometry, g: Machine, fs: Files, e: FileEvent, cap: nat): (Machine, Files)
    requires GroupCommit.Sized(g, geo.lay) && May(geo, g, fs, e, cap)
  {
    match e
    case Kernel(k) => (Happens(g, k, geo.lay), FilesThen(g, fs, k))
    case Start(who, op, puts) => (g, Left(fs, Mid(who, op, puts)))
    case LogNext =>
      var m := fs.mid.value;
      (Happens(g, NextWrite(fs), geo.lay), Left(fs, m.(todo := m.todo[1..])))
  }

  /** The header write of a commit makes all newer operations durable; a crash loses those that
      are not. */
  function FilesThen(g: Machine, fs: Files, k: Event): Files {
    match k
    case Write => if g.written == |g.proto.blocks| then Files(fs.kept + fs.newer, fs.now, [], fs.now, fs.mid) else fs
    case Crash(_) => Files(fs.kept, fs.safe, [], fs.safe, None)
    case _ => fs
  }

  /** Machine and files after a run, None once an event was not possible or panicked. */
  ghost function FileRun(geo: Geometry, v0: Image, d: Disk.Platter, procs: nat, cap: nat, run: seq<FileEvent>):
    Option<(Machine, Files)>
    decreases |run|
  {
    if run == [] then Some((GroupCommit.Start(d, procs), Files([], v0, [], v0, None)))
    else
      match FileRun(geo, v0, d, procs, cap, run[..|run| - 1])
      case None => None
      case Some((g, fs)) =>
        var e := run[|run| - 1];
        if GroupCommit.Sized(g, geo.lay) && May(geo, g, fs, e, cap) then Some(Then(geo, g, fs, e, cap)) else None
  }

  // ---- the invariant ----

  /** Each operation starts from what the one before it left. */
  predicate Chain(v: Image, ops: seq<FileOp>, w: Image)
    decreases |ops|
  {
    if ops == [] then w == v
    else w == ops[|ops| - 1].after && Chain(v, ops[..|ops| - 1], ops[|ops| - 1].before)
  }

  ghost predicate AllPerform(geo: Geometry, ops: seq<FileOp>) {
    forall k :: 0 <= k < |ops| ==> Performs(geo, ops[k])
  }

  lemma {:induction false} ChainConcat(v: Image, a: seq<FileOp>, m: Image, b: seq<FileOp>, w: Image)
    requires Chain(v, a, m) && Chain(m, b, w)
    ensures Chain(v, a + b, w)
    decreases |b|
  {
    if b == [] {
      assert a + b == a;
    } else {
      var n := |b| - 1;
      assert (a + b)[..|a + b| - 1] == a + b[..n];
      ChainConcat(v, a, m, b[..n], b[n].before);
    }
  }

  /** The durable log_writes lay out v. */
  ghost predicate DurableLays(geo: Geometry, v: Image, d: Disk.Platter, recs: seq<Rec>) {
    && Fits(geo, v) && |d| == |v.blocks|
    && forall x :: 0 <= x < |d| && Modelled(geo, v, x) ==> Latest(d, recs, x) == Laid(geo, v, x)
  }

  /** The cache lays out v once puts have been made. */
  ghost predicate ViewLays(geo: Geometry, v: Image, view: Disk.Platter, puts: seq<Put>) {
    && Fits(geo, v) && |view| == |v.blocks|
    && forall x :: 0 <= x < |view| && Modelled(geo, v, x) ==> Final(puts, view[x], x) == Laid(geo, v, x)
  }

  ghost predicate FilesOk(geo: Geometry, v0: Image, d: Disk.Platter, g: Machine, fs: Files) {
    && Decent(geo, fs.safe) && Decent(geo, fs.now)
    && Chain(v0, fs.kept, fs.safe) && Chain(fs.safe, fs.newer, fs.now)
    && AllPerform(geo, fs.kept) && AllPerform(geo, fs.newer)
    && DurableLays(geo, fs.safe, d, g.durable) && MidOk(geo, g, fs)
  }

  ghost predicate MidOk(geo: Geometry, g: Machine, fs: Files) {
    match fs.mid
    case None => ViewLays(geo, fs.now, g.view, [])
    case Some(m) =>
      && m.op.before == fs.now && Performs(geo, m.op)
      && m.who < |g.proto.ops| && g.proto.ops[m.who].Active?
      && ViewLays(geo, m.op.after, g.view, m.todo)
  }

  // ---- every event keeps it ----

  /** Only the End of an operation ends it. */
  lemma StaysActive(g: Machine, lay: LogFormat.Layout, who: nat, step: LogProtocol.Step)
    requires GroupCommit.Sized(g, lay) && Feasible(g, Protocol(step), lay) && step != LogProtocol.End(who)
    requires who < |g.proto.ops| && g.proto.ops[who].Active?
    ensures var h := Happens(g, Protocol(step), lay);
            && |h.proto.ops| == |g.proto.ops| && h.proto.ops[who].Active?
            && h.view == g.view && h.durable == g.durable
  {
  }

  lemma ProtocolFiles(geo: Geometry, v0: Image, d: Disk.Platter, g: Machine, fs: Files, step: LogProtocol.Step,
      cap: nat)
    requires GroupCommit.Sized(g, geo.lay) && FilesOk(geo, v0, d, g, fs) && May(geo, g, fs, Kernel(Protocol(step)), cap)
    ensures FilesOk(geo, v0, d, Happens(g, Protocol(step), geo.lay), fs)
  {
    if fs.mid.Some? {
      StaysActive(g, geo.lay, fs.mid.value.who, step);
    }
  }

  /** While a commit is under way no operation is. */
  lemma NoneMid(g: Machine, cap: nat, who: nat)
    requires LogProtocol.Inv(g.proto, cap) && g.proto.committing && who < |g.proto.ops|
    ensures g.proto.ops[who].Idle?
  {
    LogProtocol.UnusedBound(g.proto, cap);
  }

  lemma HomeOf(geo: Geometry, v: Image, x: int)
    requires Fits(geo, v) && Modelled(geo, v, x)
    ensures geo.lay.IsHome(x)
  {
  }

  lemma WriteFiles(geo: Geometry, v0: Image, d: Disk.Platter, g: Machine, fs: Files, cap: nat)
    requires Good(d, g, geo.lay, cap) && FilesOk(geo, v0, d, g, fs) && May(geo, g, fs, Kernel(Write), cap)
    ensures FilesOk(geo, v0, d, Happens(g, Write, geo.lay), FilesThen(g, fs, Write))
  {
    hide Sound, AllSized, Changed, Covered;
    if fs.mid.Some? {
      NoneMid(g, cap, fs.mid.value.who);
      assert false;
    }
    var h := Happens(g, Write, geo.lay);
    assert h.view == g.view;
    if g.written == |g.proto.blocks| {
      ChainConcat(v0, fs.kept, fs.safe, fs.newer, fs.now);
      assert h.durable == g.durable + g.open;
      forall x | 0 <= x < |d| && Modelled(geo, fs.now, x) ensures Latest(d, h.durable, x) == Laid(geo, fs.now, x) {
        HomeOf(geo, fs.now, x);
        assert Final([], g.view[x], x) == Laid(geo, fs.now, x);
      }
      assert DurableLays(geo, fs.now, d, h.durable);
    }
  }

  lemma CrashFiles(geo: Geometry, v0: Image, d: Disk.Platter, g: Machine, fs: Files, cap: nat, reboots: seq<nat>)
    requires Good(d, g, geo.lay, cap) && FilesOk(geo, v0, d, g, fs) && May(geo, g, fs, Kernel(Crash(reboots)), cap)
    ensures FilesOk(geo, v0, d, Happens(g, Crash(reboots), geo.lay), FilesThen(g, fs, Crash(reboots)))
  {
    CrashedData(d, g, geo.lay, reboots);
    RecoveredLays(geo, fs.safe, d, g, reboots);
    var h := Happens(g, Crash(reboots), geo.lay);
    assert h.durable == g.durable;
  }

  /** A recovered disk lays out the image of the durable operations. */
  lemma RecoveredLays(geo: Geometry, v: Image, d: Disk.Platter, g: Machine, reboots: seq<nat>)
    requires DataOk(d, g, geo.lay) && DurableLays(geo, v, d, g.durable) && g.written <= |Trace(g, geo.lay)|
    requires RecoversTo(d, geo.lay, OnPlatter(g, geo.lay), reboots, g.durable)
    ensures var r := LogFormat.Recovered(LogFormat.Rebooted(OnPlatter(g, geo.lay), geo.lay, reboots), geo.lay);
            LaidOut(geo, v, r) && ViewLays(geo, v, r, [])
  {
    var r := LogFormat.Recovered(LogFormat.Rebooted(OnPlatter(g, geo.lay), geo.lay, reboots), geo.lay);
    forall x | 0 <= x < |r| && Modelled(geo, v, x) ensures r[x] == Laid(geo, v, x) && Final([], r[x], x) == r[x] {
      HomeOf(geo, v, x);
    }
  }

  lemma StartFiles(geo: Geometry, v0: Image, d: Disk.Platter, g: Machine, fs: Files, who: nat, op: FileOp,
      puts: seq<Put>, cap: nat)
    requires GroupCommit.Sized(g, geo.lay) && FilesOk(geo, v0, d, g, fs) && May(geo, g, fs, Start(who, op, puts), cap)
    ensures FilesOk(geo, v0, d, g, Left(fs, Mid(who, op, puts)))
  {
    StillFits(geo, op.before, op.after, op.logged);
    forall x | 0 <= x < |g.view| && Modelled(geo, op.after, x)
      ensures Final(puts, g.view[x], x) == Laid(geo, op.after, x)
    {
      assert Modelled(geo, fs.now, x) && Final([], g.view[x], x) == Laid(geo, fs.now, x);
      if LastPut(puts, x).None? {
        UnloggedStays(geo, op.before, op.after, op.logged, x);
      }
    }
    assert ViewLays(geo, op.after, g.view, puts);
    LeftOk(geo, v0, d, g, fs, Mid(who, op, puts));
  }

  /** Whether the operation is done now or not. */
  lemma LeftOk(geo: Geometry, v0: Image, d: Disk.Platter, g: Machine, fs: Files, m: Mid)
    requires Decent(geo, fs.safe) && Decent(geo, fs.now)
    requires Chain(v0, fs.kept, fs.safe) && Chain(fs.safe, fs.newer, fs.now)
    requires AllPerform(geo, fs.kept) && AllPerform(geo, fs.newer) && DurableLays(geo, fs.safe, d, g.durable)
    requires m.op.before == fs.now && Performs(geo, m.op) && m.who < |g.proto.ops| && g.proto.ops[m.who].Active?
    requires ViewLays(geo, m.op.after, g.view, m.todo)
    ensures FilesOk(geo, v0, d, g, Left(fs, m))
  {
    if m.todo == [] {
      var ops := fs.newer + [m.op];
      assert ops[..|ops| - 1] == fs.newer;
      assert Chain(fs.safe, ops, m.op.after);
    }
  }

  lemma PutMade(geo: Geometry, v: Image, view: Disk.Platter, puts: seq<Put>)
    requires ViewLays(geo, v, view, puts) && puts != [] && puts[0].b < |view|
    ensures ViewLays(geo, v, view[puts[0].b := puts[0].data], puts[1..])
  {
    var w := view[puts[0].b := puts[0].data];
    forall x | 0 <= x < |w| && Modelled(geo, v, x) ensures Final(puts[1..], w[x], x) == Laid(geo, v, x) {
      assert Final(puts, view[x], x) == Laid(geo, v, x);
    }
  }

  lemma LogFiles(geo: Geometry, v0: Image, d: Disk.Platter, g: Machine, fs: Files, cap: nat)
    requires Good(d, g, geo.lay, cap) && FilesOk(geo, v0, d, g, fs) && May(geo, g, fs, LogNext, cap)
    ensures var (h, fs') := Then(geo, g, fs, LogNext, cap); FilesOk(geo, v0, d, h, fs')
  {
    var m := fs.mid.value;
    var h := Happens(g, NextWrite(fs), geo.lay);
    var b, rest := m.todo[0].b, m.todo[1..];
    assert ChecksHome(geo.lay, g.proto.ops[m.who]);
    assert h.view == g.view[b := m.todo[0].data];
    PutMade(geo, m.op.after, g.view, m.todo);
    LeftOk(geo, v0, d, h, fs, m.(todo := rest));
  }

  /** Every event keeps both halves of the invariant. */
  lemma EventKeepsFiles(geo: Geometry, v0: Image, d: Disk.Platter, g: Machine, fs: Files, e: FileEvent, cap: nat)
    requires Good(d, g, geo.lay, cap) && cap < Disk.MAXOPBLOCKS && FilesOk(geo, v0, d, g, fs)
    requires May(geo, g, fs, e, cap)
    ensures var (h, fs') := Then(geo, g, fs, e, cap);
            Good(d, h, geo.lay, cap) && FilesOk(geo, v0, d, h, fs')
  {
    match e
    case Kernel(k) =>
      EventKeepsGood(d, g, geo.lay, cap, k);
      match k {
        case Protocol(step) => ProtocolFiles(geo, v0, d, g, fs, step, cap);
        case Write => WriteFiles(geo, v0, d, g, fs, cap);
        case Crash(reboots) => CrashFiles(geo, v0, d, g, fs, cap, reboots);
        case LogWrite(_, _) =>
      }
    case Start(who, op, puts) => StartFiles(geo, v0, d, g, fs, who, op, puts, cap);
    case LogNext =>
      EventKeepsGood(d, g, geo.lay, cap, NextWrite(fs));
      LogFiles(geo, v0, d, g, fs, cap);
  }

  lemma {:induction false} RunKeepsFiles(geo: Geometry, v0: Image, d: Disk.Platter, procs: nat, cap: nat,
      run: seq<FileEvent>)
    requires Decent(geo, v0) && LaidOut(geo, v0, d) && geo.lay.size == Disk.LOGSIZE && cap < Disk.MAXOPBLOCKS
    requires LogFormat.WellFormed(d, geo.lay) && LogFormat.Pending(d, geo.lay) == []
    requires FileRun(geo, v0, d, procs, cap, run).Some?
    ensures var (g, fs) := FileRun(geo, v0, d, procs, cap, run).value;
            Good(d, g, geo.lay, cap) && FilesOk(geo, v0, d, g, fs)
    decreases |run|
  {
    if run == [] {
      StartData(d, geo.lay, procs);
      LogProtocol.InitialInv(procs, cap);
    } else {
      RunKeepsFiles(geo, v0, d, procs, cap, run[..|run| - 1]);
      var (g, fs) := FileRun(geo, v0, d, procs, cap, run[..|run| - 1]).value;
      EventKeepsFiles(geo, v0, d, g, fs, run[|run| - 1], cap);
    }
  }

  // ---- the theorems ----

  /** Take any run of chunk writes and truncations by any number of processes, with several of
      them in one commit, and crashes after any block write and in any of the recoveries that
      follow; crash once more and recover. The disk reads back as a sound image: the one that
      the durable operations, each of them whole, make of the first; the others are absent. */
  lemma DiskStaysSound(geo: Geometry, v0: Image, d: Disk.Platter, procs: nat, cap: nat, run: seq<FileEvent>,
      reboots: seq<nat>)
    requires Decent(geo, v0) && LaidOut(geo, v0, d) && geo.lay.size == Disk.LOGSIZE && cap < Disk.MAXOPBLOCKS
    requires LogFormat.WellFormed(d, geo.lay) && LogFormat.Pending(d, geo.lay) == []
    requires FileRun(geo, v0, d, procs, cap, run).Some?
    ensures var (g, fs) := FileRun(geo, v0, d, procs, cap, run).value;
            && Sound(fs.safe) && AllSized(fs.safe) && Chain(v0, fs.kept, fs.safe) && AllPerform(geo, fs.kept)
            && RecoversAs(geo, g, reboots, fs.safe)
  {
    RunKeepsFiles(geo, v0, d, procs, cap, run);
    var (g, fs) := FileRun(geo, v0, d, procs, cap, run).value;
    DurableRecovers(geo, fs.safe, d, g, cap, reboots);
  }

  /** If the machine crashes now, recovery, however often interrupted, gives a disk that reads
      back as v. */
  ghost predicate RecoversAs(geo: Geometry, g: Machine, reboots: seq<nat>, v: Image) {
    && GroupCommit.Sized(g, geo.lay) && g.written <= |Trace(g, geo.lay)|
    && LogFormat.WellFormed(OnPlatter(g, geo.lay), geo.lay)
    && ReadsBack(geo, LogFormat.Recovered(LogFormat.Rebooted(OnPlatter(g, geo.lay), geo.lay, reboots), geo.lay), v)
  }

  lemma DurableRecovers(geo: Geometry, v: Image, d: Disk.Platter, g: Machine, cap: nat, reboots: seq<nat>)
    requires Good(d, g, geo.lay, cap) && Decent(geo, v) && DurableLays(geo, v, d, g.durable)
    ensures RecoversAs(geo, g, reboots, v)
  {
    CrashedData(d, g, geo.lay, reboots);
    RecoveredLays(geo, v, d, g, reboots);
    LaidOutReadsBack(geo, v,
        LogFormat.Recovered(LogFormat.Rebooted(OnPlatter(g, geo.lay), geo.lay, reboots), geo.lay));
  }

  /** With nothing open, what the cache lays out is durable. */
  lemma QuietDurable(geo: Geometry, v0: Image, d: Disk.Platter, g: Machine, fs: Files, cap: nat)
    requires Good(d, g, geo.lay, cap) && FilesOk(geo, v0, d, g, fs)
    requires !g.proto.committing && g.proto.outstanding == 0
    ensures fs.mid.None? && DurableLays(geo, fs.now, d, g.durable)
  {
    hide Sound, AllSized, Laid, Changed, Covered;
    LogProtocol.UnusedBound(g.proto, cap);
    QuietOpen(d, g, geo.lay, cap);
    assert g.durable + g.open == g.durable;
    forall x | 0 <= x < |d| && Modelled(geo, fs.now, x) ensures Latest(d, g.durable, x) == Laid(geo, fs.now, x) {
      HomeOf(geo, fs.now, x);
      assert Final([], g.view[x], x) == Laid(geo, fs.now, x);
    }
  }

  /** Once nobody is in an operation and no commit is under way, a crash loses nothing: the disk
      recovers to the image in the cache. */
  lemma QuietDiskIsCurrent(geo: Geometry, v0: Image, d: Disk.Platter, procs: nat, cap: nat, run: seq<FileEvent>,
      reboots: seq<nat>)
    requires Decent(geo, v0) && LaidOut(geo, v0, d) && geo.lay.size == Disk.LOGSIZE && cap < Disk.MAXOPBLOCKS
    requires LogFormat.WellFormed(d, geo.lay) && LogFormat.Pending(d, geo.lay) == []
    requires FileRun(geo, v0, d, procs, cap, run).Some?
    requires var g := FileRun(geo, v0, d, procs, cap, run).value.0;
             !g.proto.committing && g.proto.outstanding == 0
    ensures var (g, fs) := FileRun(geo, v0, d, procs, cap, run).value;
            && Chain(v0, fs.kept + fs.newer, fs.now) && fs.mid.None? && RecoversAs(geo, g, reboots, fs.now)
  {
    RunKeepsFiles(geo, v0, d, procs, cap, run);
    var (g, fs) := FileRun(geo, v0, d, procs, cap, run).value;
    ChainConcat(v0, fs.kept, fs.safe, fs.newer, fs.now);
    QuietDurable(geo, v0, d, g, fs, cap);
    DurableRecovers(geo, fs.now, d, g, cap, reboots);
  }
}
