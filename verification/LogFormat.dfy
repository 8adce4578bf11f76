/** What the on-disk log means, and why every crash leaves a whole transaction or none.

    The meaning of a platter is its logical content: for a block listed in the log header
    the logged copy, for any other block the home copy. Recovery, and the second half of a
    commit, change the platter but not its logical content; the header write is the one
    step that changes it. */
module LogFormat {
  import opened Common
  import opened Disk
  import opened Sequences

  /** Blocks [start, start + size) hold the log: header first, then copies. */
  datatype Layout = Layout(start: nat, size: nat, total: nat) {
    predicate Ok() {
      1 <= size <= LOGSIZE && start + size <= total <= 0x1_0000_0000
    }

    predicate IsHome(b: int) {
      0 <= b < total && !(start <= b < start + size)
    }
  }

  /** A list of home blocks that fits the header and the copy slots. */
  ghost predicate Loggable(lay: Layout, blocks: seq<Word>) {
    && |blocks| < lay.size
    && Distinct(blocks)
    && forall i :: 0 <= i < |blocks| ==> lay.IsHome(blocks[i])
  }

  /** Where b stands in s, -1 if it does not. */
  function IndexOf(s: seq<Word>, b: nat): (r: int)
    ensures -1 <= r < |s|
    ensures r == -1 ==> b !in s
    ensures r >= 0 ==> s[r] == b
  {
    if b in s then Position(s, b) else -1
  }

  lemma IndexOfDistinct(s: seq<Word>, i: nat)
    requires Distinct(s) && i < |s|
    ensures IndexOf(s, s[i]) == i
  {
  }

  // ---- the header block ----

  /** The block list a header names (read_head). */
  function Listed(head: Block): (blocks: seq<Word>)
    requires head[0] < BLOCK_WORDS
    ensures |blocks| == head[0]
  {
    head[1..1 + head[0]]
  }

  /** The header block after write_head: the words past the list keep their old values. */
  function WithList(head: Block, blocks: seq<Word>): (r: Block)
    requires |blocks| < BLOCK_WORDS
    ensures r[0] == |blocks| && Listed(r) == blocks
  {
    [|blocks|] + blocks + head[1 + |blocks|..]
  }

  /** The header block holds the length of the list and then the list. */
  lemma HeaderLayout(head: Block, blocks: seq<Word>, i: nat)
    requires |blocks| < BLOCK_WORDS
    ensures WithList(head, blocks)[0] == |blocks|
    ensures i < |blocks| ==> WithList(head, blocks)[1 + i] == blocks[i]
    ensures |blocks| < i < BLOCK_WORDS ==> WithList(head, blocks)[i] == head[i]
  {
  }

  /** The platter has the right size and its header is one that write_head produces. */
  ghost predicate WellFormed(d: Platter, lay: Layout) {
    && lay.Ok() && |d| == lay.total
    && d[lay.start][0] < lay.size
    && Loggable(lay, Listed(d[lay.start]))
  }

  ghost function Pending(d: Platter, lay: Layout): seq<Word>
    requires WellFormed(d, lay)
  {
    Listed(d[lay.start])
  }

  /** The logical content of home block b. */
  ghost function Logical(d: Platter, lay: Layout, b: nat): Block
    requires WellFormed(d, lay) && lay.IsHome(b)
  {
    var i := IndexOf(Pending(d, lay), b);
    if i >= 0 then d[lay.start + 1 + i] else d[b]
  }

  ghost predicate SameLogical(c: Platter, d: Platter, lay: Layout)
    requires WellFormed(c, lay) && WellFormed(d, lay)
  {
    forall b :: lay.IsHome(b) ==> Logical(c, lay, b) == Logical(d, lay, b)
  }

  // ---- the platters a recovery and a commit pass through ----

  /** The platter after the first `k` copies of install_trans. */
  ghost function Installed(d: Platter, lay: Layout, blocks: seq<Word>, k: nat): (r: Platter)
    requires lay.Ok() && |d| == lay.total && Loggable(lay, blocks) && k <= |blocks|
    ensures |r| == |d|
  {
    if k == 0 then d
    else Installed(d, lay, blocks, k - 1)[blocks[k - 1] := d[lay.start + k]]
  }

  lemma {:induction false} InstalledAt(d: Platter, lay: Layout, blocks: seq<Word>, k: nat, b: nat)
    requires lay.Ok() && |d| == lay.total && Loggable(lay, blocks) && k <= |blocks|
    requires b < lay.total
    ensures var i := IndexOf(blocks, b);
            Installed(d, lay, blocks, k)[b] == if 0 <= i < k then d[lay.start + 1 + i] else d[b]
  {
    if k > 0 {
      InstalledAt(d, lay, blocks, k - 1, b);
      IndexOfDistinct(blocks, k - 1);
    }
  }

  /** The platters install_trans exposes with its first k writes. */
  ghost function InstallTrace(d: Platter, lay: Layout, blocks: seq<Word>, k: nat): (t: seq<Platter>)
    requires lay.Ok() && |d| == lay.total && Loggable(lay, blocks) && k <= |blocks|
    ensures |t| == k && forall i :: 0 <= i < k ==> t[i] == Installed(d, lay, blocks, i + 1)
  {
    if k == 0 then [] else InstallTrace(d, lay, blocks, k - 1) + [Installed(d, lay, blocks, k)]
  }

  ghost function HeadCleared(d: Platter, lay: Layout): (r: Platter)
    requires lay.Ok() && |d| == lay.total
  {
    d[lay.start := WithList(d[lay.start], [])]
  }

  /** The platters a run of recover_from_log exposes, one per bwrite. */
  ghost function RecoveryTrace(d: Platter, lay: Layout): (t: seq<Platter>)
    requires WellFormed(d, lay)
    ensures |t| == |Pending(d, lay)| + 1
  {
    var blocks := Pending(d, lay);
    InstallTrace(d, lay, blocks, |blocks|) + [HeadCleared(Installed(d, lay, blocks, |blocks|), lay)]
  }

  /** The platter after the first `k` copies of write_log. */
  ghost function Copied(d: Platter, lay: Layout, data: seq<Block>, k: nat): (r: Platter)
    requires lay.Ok() && |d| == lay.total && |data| < lay.size && k <= |data|
    ensures |r| == |d|
  {
    d[..lay.start + 1] + data[..k] + d[lay.start + 1 + k..]
  }

  lemma CopiedStep(d: Platter, lay: Layout, data: seq<Block>, k: nat)
    requires lay.Ok() && |d| == lay.total && |data| < lay.size && k < |data|
    ensures Copied(d, lay, data, k + 1) == Copied(d, lay, data, k)[lay.start + 1 + k := data[k]]
  {
  }

  /** The platters write_log exposes with its first k writes. */
  ghost function CopyTrace(d: Platter, lay: Layout, data: seq<Block>, k: nat): (t: seq<Platter>)
    requires lay.Ok() && |d| == lay.total && |data| < lay.size && k <= |data|
    ensures |t| == k && forall i :: 0 <= i < k ==> t[i] == Copied(d, lay, data, i + 1)
  {
    if k == 0 then [] else CopyTrace(d, lay, data, k - 1) + [Copied(d, lay, data, k)]
  }

  /** The platter right after the write_head of a commit: the commit point. */
  ghost function Committed(d: Platter, lay: Layout, blocks: seq<Word>, data: seq<Block>): (r: Platter)
    requires lay.Ok() && |d| == lay.total && Loggable(lay, blocks) && |data| == |blocks|
    ensures |r| == |d|
  {
    Copied(d, lay, data, |data|)[lay.start := WithList(d[lay.start], blocks)]
  }

  lemma CommittedWellFormed(d: Platter, lay: Layout, blocks: seq<Word>, data: seq<Block>)
    requires lay.Ok() && |d| == lay.total && Loggable(lay, blocks) && |data| == |blocks|
    ensures var c := Committed(d, lay, blocks, data);
            WellFormed(c, lay) && Pending(c, lay) == blocks
            && forall i :: 0 <= i < |data| ==> c[lay.start + 1 + i] == data[i]
  {
  }

  /** The platters commit exposes, one per bwrite: the log copies, the header, and then
      those of a recovery from the committed platter. */
  ghost function CommitTrace(d: Platter, lay: Layout, blocks: seq<Word>, data: seq<Block>): (t: seq<Platter>)
    requires lay.Ok() && |d| == lay.total && Loggable(lay, blocks) && |data| == |blocks|
    ensures |t| == if blocks == [] then 0 else 2 * |blocks| + 2
  {
    CommittedWellFormed(d, lay, blocks, data);
    var c := Committed(d, lay, blocks, data);
    if blocks == [] then [] else
    CopyTrace(d, lay, data, |data|) + [c] + RecoveryTrace(c, lay)
  }

  // ---- recovery ----

  /** Every platter a recovery exposes has the logical content it started from, and the last
      one holds that content in the home blocks under an empty log. */
  lemma RecoveryKeepsLogical(d: Platter, lay: Layout, k: nat)
    requires WellFormed(d, lay) && k < |RecoveryTrace(d, lay)|
    ensures var c := RecoveryTrace(d, lay)[k];
            && WellFormed(c, lay) && SameLogical(c, d, lay)
            && (k == |Pending(d, lay)| ==>
                  && Pending(c, lay) == []
                  && forall b :: lay.IsHome(b) ==> c[b] == Logical(d, lay, b))
  {
    var blocks := Pending(d, lay);
    if k < |blocks| {
      InstalledLogical(d, lay, k + 1);
    } else {
      InstalledLogical(d, lay, |blocks|);
    }
  }

  lemma InstalledWellFormed(d: Platter, lay: Layout, k: nat)
    requires WellFormed(d, lay) && k <= |Pending(d, lay)|
    ensures var c := Installed(d, lay, Pending(d, lay), k);
            && WellFormed(c, lay) && Pending(c, lay) == Pending(d, lay)
            && forall b :: lay.start <= b < lay.start + lay.size ==> c[b] == d[b]
  {
    var blocks := Pending(d, lay);
    forall b | lay.start <= b < lay.start + lay.size
      ensures Installed(d, lay, blocks, k)[b] == d[b]
    {
      InstalledAt(d, lay, blocks, k, b);
    }
  }

  lemma InstalledLogicalAt(d: Platter, lay: Layout, k: nat, b: nat)
    requires WellFormed(d, lay) && k <= |Pending(d, lay)| && lay.IsHome(b)
    requires WellFormed(Installed(d, lay, Pending(d, lay), k), lay)
    ensures var c := Installed(d, lay, Pending(d, lay), k);
            && Logical(c, lay, b) == Logical(d, lay, b)
            && (k == |Pending(d, lay)| ==> c[b] == Logical(d, lay, b))
  {
    InstalledWellFormed(d, lay, k);
    InstalledAt(d, lay, Pending(d, lay), k, b);
  }

  lemma InstalledLogical(d: Platter, lay: Layout, k: nat)
    requires WellFormed(d, lay) && k <= |Pending(d, lay)|
    ensures var blocks := Pending(d, lay);
            var c := Installed(d, lay, blocks, k);
            && WellFormed(c, lay) && SameLogical(c, d, lay) && Pending(c, lay) == blocks
            && (k == |blocks| ==> forall b :: lay.IsHome(b) ==> c[b] == Logical(d, lay, b))
  {
    InstalledWellFormed(d, lay, k);
    forall b | lay.IsHome(b)
      ensures var c := Installed(d, lay, Pending(d, lay), k);
              && Logical(c, lay, b) == Logical(d, lay, b)
              && (k == |Pending(d, lay)| ==> c[b] == Logical(d, lay, b))
    {
      InstalledLogicalAt(d, lay, k, b);
    }
  }

  /** The platter left by interrupted recoveries: reboot i crashes after its write number
      crashes[i]; a reboot whose number is past its last write completed. */
  ghost function Rebooted(d: Platter, lay: Layout, crashes: seq<nat>): (r: Platter)
    requires WellFormed(d, lay)
    ensures WellFormed(r, lay) && SameLogical(r, d, lay)
    decreases |crashes|
  {
    if crashes == [] then d
    else
      var t := RecoveryTrace(d, lay);
      var k := if crashes[0] < |t| then crashes[0] else |t| - 1;
      RecoveryKeepsLogical(d, lay, k);
      Rebooted(t[k], lay, crashes[1..])
  }

  /** The platter after a complete recovery. */
  ghost function Recovered(d: Platter, lay: Layout): (r: Platter)
    requires WellFormed(d, lay)
    ensures WellFormed(r, lay) && Pending(r, lay) == []
    ensures forall b :: lay.IsHome(b) ==> r[b] == Logical(d, lay, b)
  {
    var t := RecoveryTrace(d, lay);
    RecoveryKeepsLogical(d, lay, |t| - 1);
    t[|t| - 1]
  }

  /** Recovery is idempotent: after any number of recoveries, each cut short at any point,
      a complete one leaves the home blocks of a single undisturbed recovery. */
  lemma RecoveryIdempotent(d: Platter, lay: Layout, crashes: seq<nat>)
    requires WellFormed(d, lay)
    ensures var a, b := Recovered(Rebooted(d, lay, crashes), lay), Recovered(d, lay);
            && Pending(a, lay) == []
            && forall x :: lay.IsHome(x) ==> a[x] == b[x]
  {
    var m := Rebooted(d, lay, crashes);
    forall x | lay.IsHome(x)
      ensures Recovered(m, lay)[x] == Recovered(d, lay)[x]
    {
      assert Logical(m, lay, x) == Logical(d, lay, x);
    }
  }

  // ---- commit ----

  /** Home block x once the transaction has taken effect. */
  ghost function Updated(d: Platter, blocks: seq<Word>, data: seq<Block>, x: nat): Block
    requires x < |d| && |data| == |blocks|
  {
    var i := IndexOf(blocks, x);
    if i >= 0 then data[i] else d[x]
  }

  lemma CopiedLogical(d: Platter, lay: Layout, data: seq<Block>, k: nat)
    requires WellFormed(d, lay) && Pending(d, lay) == [] && |data| < lay.size && k <= |data|
    ensures var c := Copied(d, lay, data, k);
            && WellFormed(c, lay) && Pending(c, lay) == []
            && forall x :: lay.IsHome(x) ==> c[x] == d[x]
  {
  }

  lemma CommittedLogical(d: Platter, lay: Layout, blocks: seq<Word>, data: seq<Block>)
    requires WellFormed(d, lay) && Loggable(lay, blocks) && |data| == |blocks|
    ensures var c := Committed(d, lay, blocks, data);
            && WellFormed(c, lay)
            && forall x :: lay.IsHome(x) ==> Logical(c, lay, x) == Updated(d, blocks, data, x)
  {
    CommittedWellFormed(d, lay, blocks, data);
  }

  /** A crash after write number k of a commit: the logical content is the old one while
      only log copies have been written, and the whole new one from the header write on. */
  lemma CommitAtomic(d: Platter, lay: Layout, blocks: seq<Word>, data: seq<Block>, k: nat)
    requires WellFormed(d, lay) && Pending(d, lay) == []
    requires Loggable(lay, blocks) && |data| == |blocks|
    requires k < |CommitTrace(d, lay, blocks, data)|
    ensures var c := CommitTrace(d, lay, blocks, data)[k];
            && WellFormed(c, lay)
            && forall x :: lay.IsHome(x) ==>
                 Logical(c, lay, x) == if k < |blocks| then d[x] else Updated(d, blocks, data, x)
  {
    hide WithList, Installed;
    var n := |blocks|;
    if k < n {
      CopiedLogical(d, lay, data, k + 1);
    } else {
      var m := Committed(d, lay, blocks, data);
      CommittedLogical(d, lay, blocks, data);
      CommittedWellFormed(d, lay, blocks, data);
      if k > n {
        RecoveryKeepsLogical(m, lay, k - n - 1);
      }
    }
  }

  /** Crash anywhere in a commit, crash anywhere in any number of recoveries, then recover:
      the home blocks hold all of the transaction or none of it, and all of it exactly when
      the header write (write number |blocks|) had reached the platter. */
  lemma CrashAtomicity(d: Platter, lay: Layout, blocks: seq<Word>, data: seq<Block>, k: nat, crashes: seq<nat>)
    requires WellFormed(d, lay) && Pending(d, lay) == []
    requires Loggable(lay, blocks) && |data| == |blocks|
    requires k < |CommitTrace(d, lay, blocks, data)|
    ensures WellFormed(CommitTrace(d, lay, blocks, data)[k], lay)
    ensures var r := Recovered(Rebooted(CommitTrace(d, lay, blocks, data)[k], lay, crashes), lay);
            && Pending(r, lay) == []
            && forall x :: lay.IsHome(x) ==>
                 r[x] == if k < |blocks| then d[x] else Updated(d, blocks, data, x)
  {
    CommitAtomic(d, lay, blocks, data, k);
    var c := CommitTrace(d, lay, blocks, data)[k];
    RecoveryIdempotent(c, lay, crashes);
  }

  // ---- whole histories ----

  /** One transaction of a history. `crash` is the number of block writes of its commit that
      reached the platter before the power failed, None if the commit completed; `reboots`
      are the crashes during the recoveries that followed. */
  datatype Outcome = Completed | CrashedAt(k: nat, reboots: seq<nat>)
  datatype Transaction = Transaction(blocks: seq<Word>, data: seq<Block>, outcome: Outcome)

  ghost predicate CanRun(lay: Layout, h: seq<Transaction>) {
    forall i :: 0 <= i < |h| ==> Loggable(lay, h[i].blocks) && |h[i].data| == |h[i].blocks|
  }

  /** Does this transaction take effect? Zero writes means the crash came before the first. */
  predicate Durable(t: Transaction) {
    t.outcome.Completed? || t.outcome.k > |t.blocks|
  }

  /** The platter after transaction t has run or crashed and the machine is up again. */
  ghost function PlayOne(p: Platter, lay: Layout, t: Transaction): (r: Platter)
    requires WellFormed(p, lay) && Pending(p, lay) == []
    requires Loggable(lay, t.blocks) && |t.data| == |t.blocks|
    ensures WellFormed(r, lay) && Pending(r, lay) == []
  {
    var trace := CommitTrace(p, lay, t.blocks, t.data);
    var writes := if t.outcome.CrashedAt? && t.outcome.k < |trace| then t.outcome.k else |trace|;
    var reached := if writes == 0 then p else trace[writes - 1];
    assert WellFormed(reached, lay) by {
      if writes > 0 { CommitAtomic(p, lay, t.blocks, t.data, writes - 1); }
    }
    match t.outcome
    case Completed =>
      assert Pending(reached, lay) == [] by {
        if writes > 0 { CommitEnds(p, lay, t.blocks, t.data); }
      }
      reached
    case CrashedAt(_, reboots) => Recovered(Rebooted(reached, lay, reboots), lay)
  }

  /** A commit that completes leaves an empty log and the transaction in the home blocks. */
  lemma CommitEnds(d: Platter, lay: Layout, blocks: seq<Word>, data: seq<Block>)
    requires WellFormed(d, lay) && Pending(d, lay) == [] && blocks != []
    requires Loggable(lay, blocks) && |data| == |blocks|
    ensures var t := CommitTrace(d, lay, blocks, data);
            var c := t[|t| - 1];
            && WellFormed(c, lay) && Pending(c, lay) == []
            && forall x :: lay.IsHome(x) ==> c[x] == Updated(d, blocks, data, x)
  {
    var m := Committed(d, lay, blocks, data);
    CommittedLogical(d, lay, blocks, data);
    CommittedWellFormed(d, lay, blocks, data);
    RecoveryKeepsLogical(m, lay, |blocks|);
  }

  lemma PlayOneAtomic(p: Platter, lay: Layout, t: Transaction, x: nat)
    requires WellFormed(p, lay) && Pending(p, lay) == []
    requires Loggable(lay, t.blocks) && |t.data| == |t.blocks| && lay.IsHome(x)
    ensures PlayOne(p, lay, t)[x] == if Durable(t) then Updated(p, t.blocks, t.data, x) else p[x]
  {
    if t.outcome.CrashedAt? {
      PlayCrashed(p, lay, t, x);
    } else if t.blocks != [] {
      CommitEnds(p, lay, t.blocks, t.data);
    }
  }

  lemma PlayCrashed(p: Platter, lay: Layout, t: Transaction, x: nat)
    requires WellFormed(p, lay) && Pending(p, lay) == [] && t.outcome.CrashedAt?
    requires Loggable(lay, t.blocks) && |t.data| == |t.blocks| && lay.IsHome(x)
    ensures PlayOne(p, lay, t)[x] == if Durable(t) then Updated(p, t.blocks, t.data, x) else p[x]
  {
    var n := |CommitTrace(p, lay, t.blocks, t.data)|;
    var writes := if t.outcome.k < n then t.outcome.k else n;
    if writes == 0 {
      RecoveryIdempotent(p, lay, t.outcome.reboots);
    } else {
      CrashAtomicity(p, lay, t.blocks, t.data, writes - 1, t.outcome.reboots);
    }
  }

  /** The platter after running history h from an empty log. */
  ghost function Play(d: Platter, lay: Layout, h: seq<Transaction>): (r: Platter)
    requires WellFormed(d, lay) && Pending(d, lay) == [] && CanRun(lay, h)
    ensures WellFormed(r, lay) && Pending(r, lay) == []
    decreases |h|
  {
    if h == [] then d else PlayOne(Play(d, lay, h[..|h| - 1]), lay, h[|h| - 1])
  }

  /** The reference: the durable transactions applied in order to a home block. */
  ghost function Reference(d: Platter, lay: Layout, h: seq<Transaction>, x: nat): Block
    requires x < |d| && CanRun(lay, h)
    decreases |h|
  {
    if h == [] then d[x]
    else
      var t := h[|h| - 1];
      var i := IndexOf(t.blocks, x);
      if Durable(t) && i >= 0 then t.data[i] else Reference(d, lay, h[..|h| - 1], x)
  }

  /** Over every history of commits, crashes inside commits and crashes inside recoveries,
      the home blocks are those of the durable transactions applied in order. */
  lemma {:induction false} HistoryIsAtomic(d: Platter, lay: Layout, h: seq<Transaction>, x: nat)
    requires WellFormed(d, lay) && Pending(d, lay) == [] && CanRun(lay, h) && lay.IsHome(x)
    ensures Play(d, lay, h)[x] == Reference(d, lay, h, x)
    decreases |h|
  {
    if h != [] {
      HistoryIsAtomic(d, lay, h[..|h| - 1], x);
      PlayOneAtomic(Play(d, lay, h[..|h| - 1]), lay, h[|h| - 1], x);
    }
  }
}
