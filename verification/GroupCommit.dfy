/** Atomicity of one operation under group commit: the reservation protocol, the contents of
    the log_writes and the block writes of commit in one machine, which may crash after any
    write. */
module GroupCommit {
  import opened Common
  import opened Disk
  import opened LogFormat
  import opened LogProtocol
  import Log

  /** One log_write: the operation that made it, the block and its new contents. */
  datatype Rec = Rec(op: nat, b: Word, data: Block)

  /** Every operation that begins gets a number of its own; ids[who] is the one process `who`
      runs or ran last. `view` is what the cache shows. `base` is the platter as it was before
      the commit under way, of whose writes the first `written` have reached it. `open` holds
      the log_writes since the last header write of a commit or crash, `durable` those before
      that were not lost, `all` every one ever made. */
  datatype Machine = Machine(proto: LogState, ids: seq<nat>, nextId: nat, view: Platter, base: Platter, written: nat,
                             open: seq<Rec>, durable: seq<Rec>, all: seq<Rec>)

  /** Write is the next block write of the commit; after a Crash the machine reboots, each
      time failing after the given number of writes, and at last recovers. */
  datatype Event =
    | Protocol(step: Step)
    | LogWrite(who: nat, data: Block)
    | Write
    | Crash(reboots: seq<nat>)

  // ---- what a sequence of log_writes means ----

  /** Block x after the log_writes recs. */
  function Latest(d: Platter, recs: seq<Rec>, x: nat): Block
    requires x < |d|
  {
    if recs == [] then d[x]
    else if recs[|recs| - 1].b == x then recs[|recs| - 1].data
    else Latest(d, recs[..|recs| - 1], x)
  }

  lemma LatestSnoc(d: Platter, recs: seq<Rec>, r: Rec, x: nat)
    requires x < |d|
    ensures Latest(d, recs + [r], x) == if r.b == x then r.data else Latest(d, recs, x)
  {
    assert (recs + [r])[..|recs|] == recs;
  }

  /** The log_writes of operation i among recs. */
  function Of(recs: seq<Rec>, i: nat): seq<Rec> {
    if recs == [] then []
    else Of(recs[..|recs| - 1], i) + if recs[|recs| - 1].op == i then [recs[|recs| - 1]] else []
  }

  lemma OfSnoc(recs: seq<Rec>, r: Rec, i: nat)
    ensures Of(recs + [r], i) == Of(recs, i) + if r.op == i then [r] else []
  {
    assert (recs + [r])[..|recs|] == recs;
  }

  lemma {:induction false} OfConcat(a: seq<Rec>, b: seq<Rec>, i: nat)
    ensures Of(a + b, i) == Of(a, i) + Of(b, i)
  {
    if b == [] {
      assert a + b == a;
    } else {
      var n := |b| - 1;
      assert a + b == (a + b[..n]) + [b[n]];
      OfSnoc(a + b[..n], b[n], i);
      OfConcat(a, b[..n], i);
    }
  }

  // ---- the machine ----

  function Start(d: Platter, procs: nat): Machine {
    Machine(Initial(procs), seq(procs, _ => 0), 0, d, d, 0, [], [], [])
  }

  ghost predicate Sized(g: Machine, lay: Layout) {
    && lay.Ok() && lay.size == LOGSIZE && |g.view| == |g.base| == lay.total
    && |g.ids| == |g.proto.ops| && Loggable(lay, g.proto.blocks)
  }

  /** The contents the commit writes. */
  ghost function Contents(g: Machine, lay: Layout): (data: seq<Block>)
    requires Sized(g, lay)
    ensures |data| == |g.proto.blocks| && forall i :: 0 <= i < |data| ==> data[i] == g.view[g.proto.blocks[i]]
  {
    Log.Views(g.view, g.proto.blocks)
  }

  ghost function Trace(g: Machine, lay: Layout): (t: seq<Platter>)
    requires Sized(g, lay)
    ensures |t| == if g.proto.blocks == [] then 0 else 2 * |g.proto.blocks| + 2
  {
    CommitTrace(g.base, lay, g.proto.blocks, Contents(g, lay))
  }

  /** What is on the platter. */
  ghost function OnPlatter(g: Machine, lay: Layout): Platter
    requires Sized(g, lay) && g.written <= |Trace(g, lay)|
  {
    if g.written == 0 then g.base else Trace(g, lay)[g.written - 1]
  }

  /** Has the header write of the commit under way reached the platter? */
  predicate HeadWritten(g: Machine) { g.written > |g.proto.blocks| }

  /** May this event come next, whatever the number of blocks an operation logs? */
  ghost predicate Feasible(g: Machine, e: Event, lay: Layout)
    requires Sized(g, lay)
  {
    match e
    case Protocol(step) =>
      Enabled(g.proto, step) && !step.Append? && !step.Commit? && (step.Check? ==> lay.IsHome(step.b))
    case LogWrite(who, data) => Enabled(g.proto, Append(who))
    case Write => g.proto.committing && g.written < |Trace(g, lay)|
    case Crash(_) => g.written <= |Trace(g, lay)| && WellFormed(OnPlatter(g, lay), lay)
  }

  /** The callers' side: operations stay within `cap`, and nothing panics. */
  predicate WithinCap(g: Machine, e: Event, cap: nat) {
    match e
    case Protocol(step) => Allowed(g.proto, step, cap) && !Panics(g.proto, step)
    case LogWrite(who, _) => Allowed(g.proto, Append(who), cap) && !Panics(g.proto, Append(who))
    case _ => true
  }

  ghost function Happens(g: Machine, e: Event, lay: Layout): Machine
    requires Sized(g, lay) && Feasible(g, e, lay)
  {
    match e
    case Protocol(step) =>
      if step.Begin? && HasRoom(g.proto) then
        g.(proto := Apply(g.proto, step), ids := g.ids[step.who := g.nextId], nextId := g.nextId + 1)
      else g.(proto := Apply(g.proto, step))
    case LogWrite(who, data) => Logged(g, who, data)
    case Write => Written(g, lay)
    case Crash(reboots) => Restarted(g, Recovered(Rebooted(OnPlatter(g, lay), lay, reboots), lay))
  }

  ghost function Logged(g: Machine, who: nat, data: Block): Machine
    requires |g.ids| == |g.proto.ops| && Enabled(g.proto, Append(who))
  {
    var r := Rec(g.ids[who], g.proto.ops[who].checked.value, data);
    g.(proto := Apply(g.proto, Append(who)), view := if r.b < |g.view| then g.view[r.b := data] else g.view,
       open := g.open + [r], all := g.all + [r])
  }

  ghost function Written(g: Machine, lay: Layout): Machine
    requires Sized(g, lay) && g.proto.committing && g.written < |Trace(g, lay)|
  {
    var n := g.written + 1;
    if n == |g.proto.blocks| + 1 then g.(written := n, durable := g.durable + g.open, open := [])
    else if n == |Trace(g, lay)| then g.(proto := Apply(g.proto, Commit), base := Trace(g, lay)[n - 1], written := 0)
    else g.(written := n)
  }

  /** The machine up again, with d on the platter. */
  ghost function Restarted(g: Machine, d: Platter): Machine {
    g.(proto := Initial(|g.proto.ops|), view := d, base := d, written := 0, open := [])
  }

  /** The machine after a run, None once an event was not possible or panicked. */
  ghost function Run(d: Platter, lay: Layout, procs: nat, cap: nat, run: seq<Event>): Option<Machine>
    decreases |run|
  {
    if run == [] then Some(Start(d, procs))
    else
      match Run(d, lay, procs, cap, run[..|run| - 1])
      case None => None
      case Some(g) =>
        var e := run[|run| - 1];
        if Sized(g, lay) && Feasible(g, e, lay) && WithinCap(g, e, cap) then Some(Happens(g, e, lay)) else None
  }

  // ---- the invariant: the data ----

  /** x is a home block that the list does not name. */
  predicate Unlisted(lay: Layout, blocks: seq<Word>, x: nat) {
    lay.IsHome(x) && x !in blocks
  }

  predicate ChecksHome(lay: Layout, op: Op) {
    op.Active? && op.checked.Some? ==> lay.IsHome(op.checked.value)
  }

  /** The cache shows every log_write that has not been lost; the platter under the commit
      those that were durable before it; and the two differ only in listed blocks. */
  ghost predicate Shows(d: Platter, lay: Layout, view: Platter, base: Platter, blocks: seq<Word>,
                        durable: seq<Rec>, open: seq<Rec>, headWritten: bool) {
    && |d| == |view| == |base| == lay.total
    && (forall x :: lay.IsHome(x) ==> view[x] == Latest(d, durable + open, x))
    && (forall x: nat :: Unlisted(lay, blocks, x) ==> view[x] == base[x])
    && (if headWritten then open == []
        else (forall x :: lay.IsHome(x) ==> base[x] == Latest(d, durable, x))
             && (forall k :: 0 <= k < |open| ==> open[k].b in blocks))
  }

  ghost predicate DataOk(d: Platter, g: Machine, lay: Layout) {
    && Sized(g, lay) && WellFormed(g.base, lay) && Pending(g.base, lay) == []
    && Shows(d, lay, g.view, g.base, g.proto.blocks, g.durable, g.open, HeadWritten(g))
    && (forall who :: 0 <= who < |g.ids| ==> ChecksHome(lay, g.proto.ops[who]))
    && (g.written > 0 ==> g.proto.committing) && (g.written == 0 || g.written < |Trace(g, lay)|)
  }

  // ---- the invariant: the operations ----

  /** All of operation i is durable or nothing of it; what is open of it is all of it. */
  predicate Whole(g: Machine, i: nat) {
    && (Of(g.durable, i) == [] || Of(g.durable, i) == Of(g.all, i))
    && (Of(g.open, i) != [] ==> Of(g.durable, i) == [] && Of(g.open, i) == Of(g.all, i))
    && (i >= g.nextId ==> Of(g.all, i) == [] && Of(g.durable, i) == [] && Of(g.open, i) == [])
  }

  /** The operation process `who` is running is numbered, no one else runs it, and all its
      log_writes are open. */
  predicate RunsOwn(g: Machine, who: nat)
    requires |g.ids| == |g.proto.ops| && who < |g.ids|
  {
    g.proto.ops[who].Active? ==>
      && g.ids[who] < g.nextId
      && Of(g.durable, g.ids[who]) == [] && Of(g.open, g.ids[who]) == Of(g.all, g.ids[who])
      && forall other :: 0 <= other < |g.ids| && other != who && g.proto.ops[other].Active? ==>
           g.ids[other] != g.ids[who]
  }

  ghost predicate OpsOk(g: Machine) {
    && |g.ids| == |g.proto.ops|
    && (forall i :: Whole(g, i))
    && (forall who :: 0 <= who < |g.ids| ==> RunsOwn(g, who))
  }

  ghost predicate Good(d: Platter, g: Machine, lay: Layout, cap: nat) {
    DataOk(d, g, lay) && OpsOk(g) && Inv(g.proto, cap)
  }

  // ---- the data are kept ----

  lemma StartData(d: Platter, lay: Layout, procs: nat)
    requires WellFormed(d, lay) && Pending(d, lay) == [] && lay.size == LOGSIZE
    ensures DataOk(d, Start(d, procs), lay)
  {
  }

  lemma ApplyShape(s: LogState, step: Step, lay: Layout)
    requires Enabled(s, step) && !step.Append? && !step.Commit? && (step.Check? ==> lay.IsHome(step.b))
    requires forall who :: 0 <= who < |s.ops| ==> ChecksHome(lay, s.ops[who])
    ensures var t := Apply(s, step);
            && t.blocks == s.blocks && |t.ops| == |s.ops| && (s.committing && s.blocks != [] ==> t.committing)
            && forall who :: 0 <= who < |t.ops| ==> ChecksHome(lay, t.ops[who])
  {
    var t := Apply(s, step);
    forall who | 0 <= who < |t.ops| ensures ChecksHome(lay, t.ops[who]) {
      assert ChecksHome(lay, s.ops[who]);
    }
  }

  lemma ProtocolData(d: Platter, g: Machine, lay: Layout, step: Step)
    requires DataOk(d, g, lay) && Feasible(g, Protocol(step), lay)
    ensures DataOk(d, Happens(g, Protocol(step), lay), lay)
  {
    ApplyShape(g.proto, step, lay);
    SameData(d, g, Happens(g, Protocol(step), lay), lay);
  }

  lemma SameData(d: Platter, g: Machine, h: Machine, lay: Layout)
    requires DataOk(d, g, lay) && h == g.(proto := h.proto, ids := h.ids, nextId := h.nextId)
    requires h.proto.blocks == g.proto.blocks && |h.ids| == |h.proto.ops| == |g.ids|
    requires g.proto.committing && g.proto.blocks != [] ==> h.proto.committing
    requires forall who :: 0 <= who < |h.ids| ==> ChecksHome(lay, h.proto.ops[who])
    ensures DataOk(d, h, lay)
  {
    hide WellFormed, Pending, Latest, Contents, CommitTrace;
  }

  lemma LoggedData(d: Platter, g: Machine, lay: Layout, cap: nat, who: nat, data: Block)
    requires DataOk(d, g, lay) && Inv(g.proto, cap) && cap < MAXOPBLOCKS && Allowed(g.proto, Append(who), cap)
    ensures DataOk(d, Logged(g, who, data), lay)
  {
    var h, r := Logged(g, who, data), Rec(g.ids[who], g.proto.ops[who].checked.value, data);
    UnusedBound(g.proto, cap);
    assert ChecksHome(lay, g.proto.ops[who]);
    StepKeepsInv(g.proto, Append(who), cap);
    UnusedBound(h.proto, cap);
    LoggableMore(lay, g.proto.blocks, r.b);
    ShowsLogged(d, lay, g.view, g.base, g.proto.blocks, g.durable, g.open, r);
    forall x | 0 <= x < |h.ids| ensures ChecksHome(lay, h.proto.ops[x]) {
      assert ChecksHome(lay, g.proto.ops[x]);
    }
  }

  lemma ShowsLogged(d: Platter, lay: Layout, view: Platter, base: Platter, blocks: seq<Word>,
                    durable: seq<Rec>, open: seq<Rec>, r: Rec)
    requires Shows(d, lay, view, base, blocks, durable, open, false) && r.b < |view|
    ensures Shows(d, lay, view[r.b := r.data], base, if r.b in blocks then blocks else blocks + [r.b], durable,
            open + [r], false)
  {
    var v := view[r.b := r.data];
    forall x | lay.IsHome(x) ensures v[x] == Latest(d, durable + (open + [r]), x) {
      assert durable + (open + [r]) == durable + open + [r];
      LatestSnoc(d, durable + open, r, x);
    }
    forall x: nat | Unlisted(lay, if r.b in blocks then blocks else blocks + [r.b], x) ensures v[x] == base[x] {
      assert Unlisted(lay, blocks, x);
    }
  }

  lemma LoggableMore(lay: Layout, blocks: seq<Word>, b: Word)
    requires lay.Ok() && Loggable(lay, blocks) && lay.IsHome(b) && (b in blocks || |blocks| + 1 < lay.size)
    ensures Loggable(lay, if b in blocks then blocks else blocks + [b])
  {
  }

  lemma WrittenData(d: Platter, g: Machine, lay: Layout)
    requires DataOk(d, g, lay) && g.proto.committing && g.written < |Trace(g, lay)|
    ensures DataOk(d, Written(g, lay), lay)
  {
    hide WellFormed, Pending, Latest, Contents, CommitTrace;
    if g.written + 1 == |g.proto.blocks| + 1 {
      HeadWrite(d, g, lay);
    } else if g.written + 1 == |Trace(g, lay)| {
      LastWrite(d, g, lay);
    }
  }

  /** The write of the header makes every open log_write durable. */
  lemma HeadWrite(d: Platter, g: Machine, lay: Layout)
    requires DataOk(d, g, lay) && g.proto.committing && g.written == |g.proto.blocks| < |Trace(g, lay)|
    ensures DataOk(d, Written(g, lay), lay)
  {
    hide WellFormed, Pending, Latest, Contents, CommitTrace;
    ShowsWritten(d, lay, g.view, g.base, g.proto.blocks, g.durable, g.open);
    var h := g.(written := g.written + 1, durable := g.durable + g.open, open := []);
    assert DataOk(d, h, lay);
    assert Written(g, lay) == h;
  }

  lemma ShowsWritten(d: Platter, lay: Layout, view: Platter, base: Platter, blocks: seq<Word>,
                     durable: seq<Rec>, open: seq<Rec>)
    requires Shows(d, lay, view, base, blocks, durable, open, false)
    ensures Shows(d, lay, view, base, blocks, durable + open, [], true)
  {
    assert durable + open + [] == durable + open;
  }

  /** When commit is done the platter holds what the cache shows, and its log is empty. */
  lemma LastWrite(d: Platter, g: Machine, lay: Layout)
    requires DataOk(d, g, lay) && g.proto.committing && g.written + 1 == |Trace(g, lay)|
    ensures DataOk(d, Written(g, lay), lay)
  {
    var base := Trace(g, lay)[g.written];
    CommitEnds(g.base, lay, g.proto.blocks, Contents(g, lay));
    forall x | lay.IsHome(x) ensures base[x] == g.view[x] {
      CacheIsUpdate(g, lay, x);
    }
    ShowsInstalled(d, lay, g.view, g.base, base, g.proto.blocks, g.durable, g.open);
    var h := g.(proto := Apply(g.proto, Commit), base := base, written := 0);
    assert Written(g, lay) == h;
    SettledData(d, h, lay);
  }

  /** The data are in order when no commit is under way and the list is empty. */
  lemma SettledData(d: Platter, h: Machine, lay: Layout)
    requires lay.Ok() && lay.size == LOGSIZE && |h.ids| == |h.proto.ops| && h.proto.blocks == [] && h.written == 0
    requires WellFormed(h.base, lay) && Pending(h.base, lay) == []
    requires forall who :: 0 <= who < |h.ids| ==> ChecksHome(lay, h.proto.ops[who])
    requires Shows(d, lay, h.view, h.base, [], h.durable, h.open, false)
    ensures DataOk(d, h, lay)
  {
  }

  lemma ShowsInstalled(d: Platter, lay: Layout, view: Platter, base: Platter, installed: Platter, blocks: seq<Word>,
                       durable: seq<Rec>, open: seq<Rec>)
    requires Shows(d, lay, view, base, blocks, durable, open, true) && |installed| == lay.total
    requires forall x :: lay.IsHome(x) ==> installed[x] == view[x]
    ensures Shows(d, lay, view, installed, [], durable, open, false)
  {
    assert durable + open == durable;
  }

  /** The cache shows the update that the commit under way makes. */
  lemma CacheIsUpdate(g: Machine, lay: Layout, x: nat)
    requires Sized(g, lay) && lay.IsHome(x) && (Unlisted(lay, g.proto.blocks, x) ==> g.view[x] == g.base[x])
    ensures Updated(g.base, g.proto.blocks, Contents(g, lay), x) == g.view[x]
  {
  }

  /** Whatever is on the platter, recovery makes of it the durable log_writes. */
  lemma CrashedData(d: Platter, g: Machine, lay: Layout, reboots: seq<nat>)
    requires DataOk(d, g, lay)
    ensures g.written <= |Trace(g, lay)|
    ensures RecoversTo(d, lay, OnPlatter(g, lay), reboots, g.durable)
  {
    if g.written == 0 {
      CrashedIdle(d, lay, g.view, g.base, g.proto.blocks, g.durable, g.open, reboots);
    } else {
      CrashedInCommit(d, g, lay, reboots);
    }
  }

  /** Recovery of platter p, however often interrupted, gives the log_writes recs. */
  ghost predicate RecoversTo(d: Platter, lay: Layout, p: Platter, reboots: seq<nat>, recs: seq<Rec>) {
    && WellFormed(p, lay) && |d| == lay.total
    && var r := Recovered(Rebooted(p, lay, reboots), lay);
       Pending(r, lay) == [] && forall x :: lay.IsHome(x) ==> r[x] == Latest(d, recs, x)
  }

  lemma CrashedIdle(d: Platter, lay: Layout, view: Platter, base: Platter, blocks: seq<Word>,
                    durable: seq<Rec>, open: seq<Rec>, reboots: seq<nat>)
    requires Shows(d, lay, view, base, blocks, durable, open, false) && WellFormed(base, lay)
             && Pending(base, lay) == []
    ensures RecoversTo(d, lay, base, reboots, durable)
  {
    RecoveryIdempotent(base, lay, reboots);
  }

  lemma CrashedInCommit(d: Platter, g: Machine, lay: Layout, reboots: seq<nat>)
    requires DataOk(d, g, lay) && g.written > 0
    ensures RecoversTo(d, lay, OnPlatter(g, lay), reboots, g.durable)
  {
    CrashedInWrites(d, lay, g.view, g.base, g.proto.blocks, Contents(g, lay), g.durable, g.open, g.written - 1,
        reboots);
  }

  lemma CrashedInWrites(d: Platter, lay: Layout, view: Platter, base: Platter, blocks: seq<Word>, data: seq<Block>,
                        durable: seq<Rec>, open: seq<Rec>, k: nat, reboots: seq<nat>)
    requires lay.Ok() && WellFormed(base, lay) && Pending(base, lay) == [] && Loggable(lay, blocks)
    requires Shows(d, lay, view, base, blocks, durable, open, k >= |blocks|)
    requires |data| == |blocks| && forall i :: 0 <= i < |data| ==> data[i] == view[blocks[i]]
    requires k < |CommitTrace(base, lay, blocks, data)|
    ensures RecoversTo(d, lay, CommitTrace(base, lay, blocks, data)[k], reboots, durable)
  {
    var p := CommitTrace(base, lay, blocks, data)[k];
    CrashAtomicity(base, lay, blocks, data, k, reboots);
    var r := Recovered(Rebooted(p, lay, reboots), lay);
    assert k >= |blocks| ==> durable + open == durable;
    forall x | lay.IsHome(x) ensures r[x] == Latest(d, durable, x) {
      assert Updated(base, blocks, data, x) == if Unlisted(lay, blocks, x) then base[x] else view[x];
    }
  }

  lemma RestartedData(d: Platter, g: Machine, lay: Layout, r: Platter)
    requires DataOk(d, g, lay) && WellFormed(r, lay) && Pending(r, lay) == []
    requires forall x :: lay.IsHome(x) ==> r[x] == Latest(d, g.durable, x)
    ensures DataOk(d, Restarted(g, r), lay)
  {
    hide Latest, Contents, CommitTrace;
    ShowsRestarted(d, lay, r, g.durable);
    SettledData(d, Restarted(g, r), lay);
  }

  lemma ShowsRestarted(d: Platter, lay: Layout, r: Platter, durable: seq<Rec>)
    requires |d| == |r| == lay.total && forall x :: lay.IsHome(x) ==> r[x] == Latest(d, durable, x)
    ensures Shows(d, lay, r, r, [], durable, [], false)
  {
    assert durable + [] == durable;
  }

  // ---- so are the operations ----

  lemma ProtocolOps(g: Machine, lay: Layout, cap: nat, step: Step)
    requires OpsOk(g) && Inv(g.proto, cap) && Sized(g, lay) && Feasible(g, Protocol(step), lay)
    ensures OpsOk(Happens(g, Protocol(step), lay))
  {
    var h := Happens(g, Protocol(step), lay);
    forall i ensures Whole(h, i) {
      assert Whole(g, i);
    }
    forall who | 0 <= who < |h.ids| ensures RunsOwn(h, who) {
      assert RunsOwn(g, who) && Whole(g, g.nextId);
      forall other | 0 <= other < |h.ids| && other != who && h.proto.ops[who].Active? && h.proto.ops[other].Active?
        ensures h.ids[other] != h.ids[who]
      {
        assert RunsOwn(g, other);
      }
    }
  }

  lemma LoggedOps(g: Machine, who: nat, data: Block)
    requires OpsOk(g) && Enabled(g.proto, Append(who))
    ensures OpsOk(Logged(g, who, data))
  {
    var h, r := Logged(g, who, data), Rec(g.ids[who], g.proto.ops[who].checked.value, data);
    assert RunsOwn(g, who);
    forall i ensures Whole(h, i) {
      assert Whole(g, i);
      OfSnoc(g.open, r, i);
      OfSnoc(g.all, r, i);
    }
    forall x | 0 <= x < |h.ids| ensures RunsOwn(h, x) {
      assert RunsOwn(g, x);
      OfSnoc(g.open, r, g.ids[x]);
      OfSnoc(g.all, r, g.ids[x]);
      forall other | 0 <= other < |h.ids| && other != x && h.proto.ops[x].Active? && h.proto.ops[other].Active?
        ensures h.ids[other] != h.ids[x]
      {
        assert g.proto.ops[other].Active? && g.proto.ops[x].Active?;
      }
    }
  }

  lemma WrittenOps(g: Machine, lay: Layout, cap: nat)
    requires OpsOk(g) && Inv(g.proto, cap) && Sized(g, lay) && g.proto.committing && g.written < |Trace(g, lay)|
    ensures OpsOk(Written(g, lay))
  {
    hide CommitTrace, Contents, Committed, RecoveryTrace;
    var h := Written(g, lay);
    UnusedBound(g.proto, cap);
    forall i ensures Whole(h, i) {
      assert Whole(g, i);
      OfConcat(g.durable, g.open, i);
    }
    forall who | 0 <= who < |h.ids| ensures RunsOwn(h, who) {
      assert g.proto.ops[who].Idle?;
    }
  }

  lemma RestartedOps(g: Machine, r: Platter)
    requires OpsOk(g)
    ensures OpsOk(Restarted(g, r))
  {
    forall i ensures Whole(Restarted(g, r), i) {
      assert Whole(g, i);
    }
  }

  // ---- over every run ----

  lemma EventKeepsGood(d: Platter, g: Machine, lay: Layout, cap: nat, e: Event)
    requires Good(d, g, lay, cap) && cap < MAXOPBLOCKS && Feasible(g, e, lay) && WithinCap(g, e, cap)
    ensures Good(d, Happens(g, e, lay), lay, cap)
  {
    match e
    case Protocol(step) =>
      ProtocolData(d, g, lay, step);
      ProtocolOps(g, lay, cap, step);
      StepKeepsInv(g.proto, step, cap);
    case LogWrite(who, data) =>
      LoggedData(d, g, lay, cap, who, data);
      LoggedOps(g, who, data);
      StepKeepsInv(g.proto, Append(who), cap);
    case Write =>
      WrittenData(d, g, lay);
      WrittenOps(g, lay, cap);
      if g.written + 1 == |Trace(g, lay)| { StepKeepsInv(g.proto, Commit, cap); }
    case Crash(reboots) =>
      CrashedData(d, g, lay, reboots);
      var r := Recovered(Rebooted(OnPlatter(g, lay), lay, reboots), lay);
      RestartedData(d, g, lay, r);
      RestartedOps(g, r);
      InitialInv(|g.proto.ops|, cap);
  }

  lemma {:induction false} RunGood(d: Platter, lay: Layout, procs: nat, cap: nat, run: seq<Event>)
    requires WellFormed(d, lay) && Pending(d, lay) == [] && lay.size == LOGSIZE && cap < MAXOPBLOCKS
    requires Run(d, lay, procs, cap, run).Some?
    ensures Good(d, Run(d, lay, procs, cap, run).value, lay, cap)
    decreases |run|
  {
    if run == [] {
      StartData(d, lay, procs);
      InitialInv(procs, cap);
    } else {
      RunGood(d, lay, procs, cap, run[..|run| - 1]);
      EventKeepsGood(d, Run(d, lay, procs, cap, run[..|run| - 1]).value, lay, cap, run[|run| - 1]);
    }
  }

  /** Atomicity of operations under group commit. Take any run of any number of processes, with
      crashes after any block write and in any of the recoveries that follow; crash once more
      and recover. The home blocks are the durable log_writes in order: those of the commits
      whose header write had reached the platter. And they are of whole operations: of each,
      all log_writes or none. */
  lemma OperationsAreAtomic(d: Platter, lay: Layout, procs: nat, cap: nat, run: seq<Event>, reboots: seq<nat>, i: nat)
    requires WellFormed(d, lay) && Pending(d, lay) == [] && lay.size == LOGSIZE && cap < MAXOPBLOCKS
    requires Run(d, lay, procs, cap, run).Some?
    ensures var g := Run(d, lay, procs, cap, run).value;
            && Sized(g, lay) && g.written <= |Trace(g, lay)|
            && RecoversTo(d, lay, OnPlatter(g, lay), reboots, g.durable)
            && (Of(g.durable, i) == [] || Of(g.durable, i) == Of(g.all, i))
  {
    RunGood(d, lay, procs, cap, run);
    var g := Run(d, lay, procs, cap, run).value;
    CrashedData(d, g, lay, reboots);
    assert Whole(g, i);
  }

  /** Once no operation is active and no commit under way, nothing is left to lose. */
  lemma QuietOpen(d: Platter, g: Machine, lay: Layout, cap: nat)
    requires Good(d, g, lay, cap)
    ensures !g.proto.committing && g.proto.outstanding == 0 ==> g.open == []
  {
    assert g.open != [] ==> HeadWritten(g) || g.open[0].b in g.proto.blocks;
  }

  /** So it is after any run. */
  lemma IdleIsDurable(d: Platter, lay: Layout, procs: nat, cap: nat, run: seq<Event>)
    requires WellFormed(d, lay) && Pending(d, lay) == [] && lay.size == LOGSIZE && cap < MAXOPBLOCKS
    requires Run(d, lay, procs, cap, run).Some?
    ensures var g := Run(d, lay, procs, cap, run).value;
            !g.proto.committing && g.proto.outstanding == 0 ==> g.open == []
  {
    RunGood(d, lay, procs, cap, run);
    var g := Run(d, lay, procs, cap, run).value;
    QuietOpen(d, g, lay, cap);
  }
}
