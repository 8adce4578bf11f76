/** Space reservation in the log, over every interleaving of file-system operations.

    One step is one critical section of log.c. Processes are numbered; each runs at most one
    operation at a time. `cap` is the number of distinct blocks a single operation logs at
    most: the callers' side of the bargain. */
module LogProtocol {
  import opened Common
  import opened Disk
  import opened Sequences

  /** An operation between begin_op and end_op has logged the blocks `logged`. log_write
      tests for space before it takes the lock; `checked` is the block of a log_write that
      has passed the test and not yet taken the lock. */
  datatype Op = Idle | Active(logged: set<Word>, checked: Option<Word>)

  /** `blocks` is log.lh, `sleepers` the processes asleep in begin_op, `ended` the blocks
      logged by the operations that have ended since the last commit. */
  datatype LogState = LogState(
    ops: seq<Op>, outstanding: int, committing: bool, blocks: seq<Word>, sleepers: set<nat>, ended: set<Word>)

  datatype Step =
    | Begin(who: nat)
    | Check(who: nat, b: Word)
    | Append(who: nat)
    | End(who: nat)
    | Commit
    | CommitEnd

  function Initial(procs: nat): LogState {
    LogState(seq(procs, _ => Idle), 0, false, [], {}, {})
  }

  /** Would begin_op admit one more operation? */
  predicate HasRoom(s: LogState) {
    !s.committing && |s.blocks| + (s.outstanding + 1) * MAXOPBLOCKS <= LOGSIZE
  }

  /** May this step come next, whatever the number of blocks an operation logs? */
  predicate Enabled(s: LogState, step: Step) {
    match step
    case Begin(who) => who < |s.ops| && s.ops[who].Idle? && who !in s.sleepers
    case Check(who, b) => who < |s.ops| && s.ops[who].Active? && s.ops[who].checked.None?
    case Append(who) => who < |s.ops| && s.ops[who].Active? && s.ops[who].checked.Some?
    case End(who) => who < |s.ops| && s.ops[who].Active? && s.ops[who].checked.None?
    case Commit => s.committing && s.blocks != []
    case CommitEnd => s.committing && s.blocks == []
  }

  /** The callers' side: no operation logs more than `cap` distinct blocks. */
  predicate Allowed(s: LogState, step: Step, cap: nat) {
    Enabled(s, step) && (step.Check? ==> |s.ops[step.who].logged + {step.b}| <= cap)
  }

  /** The panics of log.c, for a log of LOGSIZE blocks as mkfs makes it, and the write past
      the end of lh.block that an append to a full list would be. */
  predicate Panics(s: LogState, step: Step) {
    match step
    case Check(_, _) => |s.blocks| >= LOGSIZE || |s.blocks| >= LOGSIZE - 1 || s.outstanding < 1
    case Append(who) =>
      && who < |s.ops| && s.ops[who].Active? && s.ops[who].checked.Some?
      && s.ops[who].checked.value !in s.blocks && |s.blocks| >= LOGSIZE
    case End(_) => s.committing
    case _ => false
  }

  function Apply(s: LogState, step: Step): LogState
    requires Enabled(s, step)
  {
    match step
    case Begin(who) =>
      if HasRoom(s) then s.(ops := s.ops[who := Active({}, None)], outstanding := s.outstanding + 1)
      else s.(sleepers := s.sleepers + {who})
    case Check(who, b) => s.(ops := s.ops[who := s.ops[who].(checked := Some(b))])
    case Append(who) =>
      var b := s.ops[who].checked.value;
      s.(blocks := if b in s.blocks then s.blocks else s.blocks + [b],
         ops := s.ops[who := Active(s.ops[who].logged + {b}, None)])
    case End(who) =>
      var t := s.(ops := s.ops[who := Idle], outstanding := s.outstanding - 1, ended := s.ended + s.ops[who].logged);
      if t.outstanding == 0 then t.(committing := true) else t.(sleepers := {})
    case Commit => s.(blocks := [], ended := {})
    case CommitEnd => s.(committing := false, sleepers := {})
  }

  /** The state after a run, None once a step was not allowed or panicked. */
  function Exec(procs: nat, cap: nat, run: seq<Step>): (r: Option<LogState>)
    decreases |run|
  {
    if run == [] then Some(Initial(procs))
    else
      var step := run[|run| - 1];
      match Exec(procs, cap, run[..|run| - 1])
      case None => None
      case Some(s) => if Allowed(s, step, cap) && !Panics(s, step) then Some(Apply(s, step)) else None
  }

  // ---- the invariant ----

  function ActiveCount(ops: seq<Op>): nat {
    if ops == [] then 0
    else ActiveCount(ops[..|ops| - 1]) + if ops[|ops| - 1].Active? then 1 else 0
  }

  /** Blocks the active operations may still log. */
  function Unused(ops: seq<Op>, cap: nat): int {
    if ops == [] then 0
    else Unused(ops[..|ops| - 1], cap)
         + if ops[|ops| - 1].Active? then cap - |ops[|ops| - 1].logged| else 0
  }

  function Share(op: Op, cap: nat): int {
    if op.Active? then cap - |op.logged| else 0
  }

  lemma {:induction false} SetOp(ops: seq<Op>, i: nat, op: Op, cap: nat)
    requires i < |ops|
    ensures Unused(ops[i := op], cap) == Unused(ops, cap) - Share(ops[i], cap) + Share(op, cap)
    ensures ActiveCount(ops[i := op]) ==
            ActiveCount(ops) - (if ops[i].Active? then 1 else 0) + (if op.Active? then 1 else 0)
  {
    var k := |ops| - 1;
    if i < k {
      assert ops[i := op][..k] == ops[..k][i := op];
      SetOp(ops[..k], i, op, cap);
    } else {
      assert ops[i := op][..k] == ops[..k];
    }
  }

  lemma {:induction false} UnusedUpper(ops: seq<Op>, cap: nat)
    ensures Unused(ops, cap) <= cap * ActiveCount(ops)
  {
    if ops != [] {
      UnusedUpper(ops[..|ops| - 1], cap);
    }
  }

  lemma {:induction false} UnusedLower(ops: seq<Op>, cap: nat)
    requires forall i :: 0 <= i < |ops| ==> Share(ops[i], cap) >= 0
    ensures 0 <= Unused(ops, cap)
    ensures forall i :: 0 <= i < |ops| ==> Share(ops[i], cap) <= Unused(ops, cap)
  {
    if ops != [] {
      UnusedLower(ops[..|ops| - 1], cap);
    }
  }

  lemma {:induction false} NoneActive(ops: seq<Op>, cap: nat)
    requires ActiveCount(ops) == 0
    ensures Unused(ops, cap) == 0 && forall i :: 0 <= i < |ops| ==> ops[i].Idle?
  {
    if ops != [] {
      NoneActive(ops[..|ops| - 1], cap);
    }
  }

  lemma UnusedBound(s: LogState, cap: nat)
    requires Counted(s, cap)
    ensures 0 <= Unused(s.ops, cap) <= cap * s.outstanding
    ensures forall i :: 0 <= i < |s.ops| ==> Share(s.ops[i], cap) <= Unused(s.ops, cap)
    ensures s.outstanding == 0 ==> forall i :: 0 <= i < |s.ops| ==> s.ops[i].Idle?
  {
    UnusedUpper(s.ops, cap);
    UnusedLower(s.ops, cap);
    if s.outstanding == 0 { NoneActive(s.ops, cap); }
  }

  /** The largest lh.n plus unused reservation can be. With one block of slack per
      operation, a log with two or more operations never fills its last two slots. */
  function Ceiling(cap: nat): nat {
    if cap < MAXOPBLOCKS then LOGSIZE - 2 else LOGSIZE
  }

  /** What is in the log was logged by an operation that has ended or is still active. */
  ghost predicate Accounted(s: LogState) {
    && (forall b :: b in s.ended ==> b in s.blocks)
    && (forall i, b :: 0 <= i < |s.ops| && s.ops[i].Active? && b in s.ops[i].logged ==> b in s.blocks)
    && (forall b :: b in s.blocks && b !in s.ended ==> SomeoneLogged(s.ops, b))
  }

  ghost predicate SomeoneLogged(ops: seq<Op>, b: Word) {
    exists i :: 0 <= i < |ops| && ops[i].Active? && b in ops[i].logged
  }

  ghost predicate WithinCap(op: Op, cap: nat) {
    op.Active? ==> |op.logged| <= cap && (op.checked.Some? ==> |op.logged + {op.checked.value}| <= cap)
  }

  ghost predicate Counted(s: LogState, cap: nat) {
    && s.outstanding == ActiveCount(s.ops)
    && (s.committing ==> s.outstanding == 0)
    && (!s.committing && s.outstanding == 0 ==> s.blocks == [])
    && |s.blocks| + Unused(s.ops, cap) <= Ceiling(cap)
    && (s.sleepers != {} ==> s.committing || s.outstanding > 0)
    && forall i :: 0 <= i < |s.ops| ==> WithinCap(s.ops[i], cap)
  }

  ghost predicate Inv(s: LogState, cap: nat) {
    Distinct(s.blocks) && Accounted(s) && Counted(s, cap)
  }

  lemma {:induction false} InitialInv(procs: nat, cap: nat)
    ensures Inv(Initial(procs), cap)
  {
    if procs > 0 {
      InitialInv(procs - 1, cap);
      assert Initial(procs).ops[..procs - 1] == Initial(procs - 1).ops;
    }
  }

  lemma BeginKeepsCounted(s: LogState, who: nat, cap: nat)
    requires Counted(s, cap) && cap <= MAXOPBLOCKS && Enabled(s, Begin(who))
    ensures Counted(Apply(s, Begin(who)), cap)
  {
    UnusedBound(s, cap);
    if HasRoom(s) {
      BeginFits(|s.blocks|, s.outstanding, cap);
      SetOp(s.ops, who, Active({}, None), cap);
    }
  }

  lemma AppendKeepsCounted(s: LogState, who: nat, cap: nat)
    requires Counted(s, cap) && Accounted(s) && Enabled(s, Append(who))
    ensures Counted(Apply(s, Append(who)), cap)
  {
    UnusedBound(s, cap);
    var b := s.ops[who].checked.value;
    var op := Active(s.ops[who].logged + {b}, None);
    SetOp(s.ops, who, op, cap);
    if b in s.ops[who].logged {
      assert op.logged == s.ops[who].logged;
    } else {
      assert |op.logged| == |s.ops[who].logged| + 1;
    }
  }

  lemma EndKeepsCounted(s: LogState, who: nat, cap: nat)
    requires Counted(s, cap) && Enabled(s, End(who))
    ensures Counted(Apply(s, End(who)), cap)
  {
    UnusedBound(s, cap);
    SetOp(s.ops, who, Idle, cap);
  }

  lemma StepKeepsCounted(s: LogState, step: Step, cap: nat)
    requires Counted(s, cap) && Accounted(s) && cap <= MAXOPBLOCKS && Allowed(s, step, cap)
    ensures Counted(Apply(s, step), cap)
  {
    match step {
      case Begin(who) => BeginKeepsCounted(s, who, cap);
      case Check(who, b) => SetOp(s.ops, who, Apply(s, step).ops[who], cap);
      case Append(who) => AppendKeepsCounted(s, who, cap);
      case End(who) => EndKeepsCounted(s, who, cap);
      case _ =>
        UnusedBound(s, cap);
        NoneActive(s.ops, cap);
    }
  }

  lemma AppendKeepsAccounted(s: LogState, who: nat)
    requires Accounted(s) && Distinct(s.blocks) && Enabled(s, Append(who))
    ensures Accounted(Apply(s, Append(who))) && Distinct(Apply(s, Append(who)).blocks)
  {
    var t := Apply(s, Append(who));
    forall b | b in t.blocks && b !in t.ended
      ensures SomeoneLogged(t.ops, b)
    {
      if b == s.ops[who].checked.value {
        assert b in t.ops[who].logged;
      } else {
        var i :| 0 <= i < |s.ops| && s.ops[i].Active? && b in s.ops[i].logged;
        assert t.ops[i].Active? && b in t.ops[i].logged;
      }
    }
  }

  lemma StepKeepsAccounted(s: LogState, step: Step, cap: nat)
    requires Counted(s, cap) && Accounted(s) && Distinct(s.blocks) && Enabled(s, step)
    ensures Accounted(Apply(s, step)) && Distinct(Apply(s, step).blocks)
  {
    if step.Append? {
      AppendKeepsAccounted(s, step.who);
    } else if step.Commit? || step.CommitEnd? {
      UnusedBound(s, cap);
    } else {
      var t := Apply(s, step);
      forall b | b in t.blocks && b !in t.ended
        ensures SomeoneLogged(t.ops, b)
      {
        var i :| 0 <= i < |s.ops| && s.ops[i].Active? && b in s.ops[i].logged;
        assert t.ops[i].Active? && b in t.ops[i].logged;
      }
    }
  }

  lemma StepKeepsInv(s: LogState, step: Step, cap: nat)
    requires Inv(s, cap) && cap <= MAXOPBLOCKS && Allowed(s, step, cap)
    ensures Inv(Apply(s, step), cap)
  {
    StepKeepsCounted(s, step, cap);
    StepKeepsAccounted(s, step, cap);
  }

  lemma BeginFits(n: nat, outstanding: nat, cap: nat)
    requires n + (outstanding + 1) * MAXOPBLOCKS <= LOGSIZE && cap <= MAXOPBLOCKS
    requires outstanding == 0 ==> n == 0
    ensures n + cap * outstanding + cap <= Ceiling(cap)
  {
    assert outstanding <= 2;
    if outstanding == 0 {} else if outstanding == 1 {} else {}
  }

  lemma {:induction false} ReachableInv(procs: nat, cap: nat, run: seq<Step>)
    requires cap <= MAXOPBLOCKS && Exec(procs, cap, run).Some?
    ensures Inv(Exec(procs, cap, run).value, cap)
    decreases |run|
  {
    if run == [] {
      InitialInv(procs, cap);
    } else {
      ReachableInv(procs, cap, run[..|run| - 1]);
      StepKeepsInv(Exec(procs, cap, run[..|run| - 1]).value, run[|run| - 1], cap);
    }
  }

  // ---- when log_write and end_op never panic ----

  /** No run of any number of processes reaches a panic. */
  ghost predicate NeverPanics(procs: nat, cap: nat) {
    forall run, step ::
      var e := Exec(procs, cap, run);
      e.Some? && Allowed(e.value, step, cap) ==> !Panics(e.value, step)
  }

  lemma InvMeansNoPanic(s: LogState, step: Step, cap: nat)
    requires cap < MAXOPBLOCKS && Inv(s, cap) && Allowed(s, step, cap)
    ensures !Panics(s, step)
  {
    UnusedBound(s, cap);
  }

  /** The blocks below m that operation j of three logs when each takes ten in turn. */
  function Part(j: nat, m: nat): (r: set<Word>)
    requires m <= LOGSIZE
    ensures forall x :: x in r ==> x < m
  {
    if m == 0 then {}
    else Part(j, m - 1) + if MAXOPBLOCKS * j < m <= MAXOPBLOCKS * (j + 1) then {m - 1} else {}
  }

  lemma {:induction false} PartSize(j: nat, m: nat)
    requires m <= LOGSIZE
    ensures |Part(j, m)| == if m < MAXOPBLOCKS * j then 0
                            else if m > MAXOPBLOCKS * (j + 1) then MAXOPBLOCKS
                            else m - MAXOPBLOCKS * j
  {
    if m > 0 {
      PartSize(j, m - 1);
      assert (m - 1) !in Part(j, m - 1);
    }
  }

  function Parts(m: nat): (r: seq<set<Word>>)
    requires m <= LOGSIZE
    ensures |r| == 3
  {
    seq(3, j requires 0 <= j => Part(j, m))
  }

  /** Three active operations that have logged the sets p, blocks 0..m in all. */
  ghost function Trio(p: seq<set<Word>>, m: nat): LogState
    requires m <= LOGSIZE && |p| == 3
  {
    LogState([Active(p[0], None), Active(p[1], None), Active(p[2], None)], 3, false,
             seq(m, i requires 0 <= i < m => i), {}, {})
  }

  ghost function Crowded(m: nat): LogState
    requires m <= LOGSIZE
  {
    Trio(Parts(m), m)
  }

  function CrowdedRun(m: nat): (r: seq<Step>)
    requires m < LOGSIZE
  {
    if m == 0 then [Begin(0), Begin(1), Begin(2)]
    else CrowdedRun(m - 1) + [Check((m - 1) / MAXOPBLOCKS, m - 1), Append((m - 1) / MAXOPBLOCKS)]
  }

  lemma ExecSnoc(procs: nat, cap: nat, run: seq<Step>, step: Step)
    requires Exec(procs, cap, run).Some?
    requires Allowed(Exec(procs, cap, run).value, step, cap) && !Panics(Exec(procs, cap, run).value, step)
    ensures Exec(procs, cap, run + [step]) == Some(Apply(Exec(procs, cap, run).value, step))
  {
    assert (run + [step])[..|run|] == run;
  }

  lemma CrowdedStart(cap: nat)
    ensures Exec(3, cap, CrowdedRun(0)) == Some(Crowded(0))
  {
    var s0 := Initial(3);
    var s1 := Apply(s0, Begin(0));
    var s2 := Apply(s1, Begin(1));
    assert s0.ops == [Idle, Idle, Idle];
    assert Exec(3, cap, []) == Some(s0);
    ExecSnoc(3, cap, [], Begin(0));
    assert [] + [Begin(0)] == [Begin(0)];
    ExecSnoc(3, cap, [Begin(0)], Begin(1));
    assert [Begin(0)] + [Begin(1)] == [Begin(0), Begin(1)];
    ExecSnoc(3, cap, [Begin(0), Begin(1)], Begin(2));
    assert [Begin(0), Begin(1)] + [Begin(2)] == CrowdedRun(0);
    assert Apply(s2, Begin(2)) == Crowded(0);
  }

  lemma TrioStep(p: seq<set<Word>>, m: nat, j: nat, cap: nat)
    requires 0 < m < LOGSIZE && |p| == 3 && j < 3 && |p[j] + {m - 1}| <= cap
    ensures var s := Trio(p, m - 1);
            && Allowed(s, Check(j, m - 1), cap) && !Panics(s, Check(j, m - 1))
            && var t := Apply(s, Check(j, m - 1));
            && Allowed(t, Append(j), cap) && !Panics(t, Append(j))
            && Apply(t, Append(j)) == Trio(p[j := p[j] + {m - 1}], m)
  {
    var s := Trio(p, m - 1);
    var t := Apply(s, Check(j, m - 1));
    var u := Apply(t, Append(j));
    assert u.blocks == Trio(p, m).blocks;
    assert u.ops == Trio(p[j := p[j] + {m - 1}], m).ops;
  }

  lemma PartsStep(m: nat, j: nat)
    requires 0 < m < LOGSIZE && MAXOPBLOCKS * j < m <= MAXOPBLOCKS * (j + 1)
    ensures j < 3 && Parts(m) == Parts(m - 1)[j := Parts(m - 1)[j] + {m - 1}] && |Parts(m)[j]| <= MAXOPBLOCKS
  {
    PartSize(j, m);
    var p, q := Parts(m), Parts(m - 1);
    forall i | 0 <= i < 3
      ensures p[i] == q[j := q[j] + {m - 1}][i]
    {
    }
  }

  lemma CrowdedRunStep(m: nat)
    requires 0 < m < LOGSIZE
    ensures var j := (m - 1) / MAXOPBLOCKS;
            CrowdedRun(m) == CrowdedRun(m - 1) + [Check(j, m - 1)] + [Append(j)]
  {
  }

  /** Three operations can begin together and log up to 29 blocks, ten each at most. */
  lemma {:induction false} CrowdedReachable(cap: nat, m: nat)
    requires cap >= MAXOPBLOCKS && m < LOGSIZE
    ensures Exec(3, cap, CrowdedRun(m)) == Some(Crowded(m))
  {
    if m == 0 {
      CrowdedStart(cap);
    } else {
      CrowdedReachable(cap, m - 1);
      PartsStep(m, (m - 1) / MAXOPBLOCKS);
      CrowdedRunStep(m);
      TrioRun(CrowdedRun(m - 1), Parts(m - 1), m, (m - 1) / MAXOPBLOCKS, cap);
    }
  }

  lemma TrioRun(run: seq<Step>, p: seq<set<Word>>, m: nat, j: nat, cap: nat)
    requires 0 < m < LOGSIZE && |p| == 3 && j < 3 && |p[j] + {m - 1}| <= cap
    requires Exec(3, cap, run) == Some(Trio(p, m - 1))
    ensures Exec(3, cap, run + [Check(j, m - 1)] + [Append(j)]) == Some(Trio(p[j := p[j] + {m - 1}], m))
  {
    TrioStep(p, m, j, cap);
    ExecSnoc(3, cap, run, Check(j, m - 1));
    ExecSnoc(3, cap, run + [Check(j, m - 1)], Append(j));
  }

  /** The log never panics exactly when an operation logs fewer than MAXOPBLOCKS distinct
      blocks: MAXOPBLOCKS itself, which the reservation is written for, is one too many,
      because the last of the LOGSIZE disk blocks is taken by the header. */
  lemma NeverPanicsIff(cap: nat)
    ensures (forall procs :: NeverPanics(procs, cap)) <==> cap < MAXOPBLOCKS
  {
    if cap < MAXOPBLOCKS {
      forall procs: nat, run, step |
        Exec(procs, cap, run).Some? && Allowed(Exec(procs, cap, run).value, step, cap)
        ensures !Panics(Exec(procs, cap, run).value, step)
      {
        ReachableInv(procs, cap, run);
        InvMeansNoPanic(Exec(procs, cap, run).value, step, cap);
      }
    } else {
      CrowdedReachable(cap, LOGSIZE - 1);
      var run, step := CrowdedRun(LOGSIZE - 1), Check(2, LOGSIZE - 1);
      var s := Exec(3, cap, run).value;
      PartSize(2, LOGSIZE);
      assert Allowed(s, step, cap) && Panics(s, step);
      assert !NeverPanics(3, cap);
    }
  }

  /** begin_op cannot wait for ever on an idle log: while anyone sleeps, an operation is
      active or a commit is running, and the step that ends it wakes all sleepers or starts
      a commit, which does. A process that then retries on an idle log is admitted. */
  lemma NoLostWakeup(procs: nat, cap: nat, run: seq<Step>)
    requires cap <= MAXOPBLOCKS && Exec(procs, cap, run).Some?
    ensures var s := Exec(procs, cap, run).value;
            && (s.sleepers != {} ==> s.committing || s.outstanding > 0)
            && (!s.committing && s.outstanding == 0 ==> HasRoom(s))
            && (forall who :: Allowed(s, End(who), cap) ==>
                  var t := Apply(s, End(who)); t.sleepers == {} || (t.committing && t.outstanding == 0))
            && (Allowed(s, CommitEnd, cap) ==> var t := Apply(s, CommitEnd); t.sleepers == {} && HasRoom(t))
  {
    ReachableInv(procs, cap, run);
  }

  /** A commit holds whole operations and nothing else: no operation is active while it
      runs, and its block list is exactly what the operations that ended have logged. */
  lemma CommitHoldsWholeOps(procs: nat, cap: nat, run: seq<Step>)
    requires cap <= MAXOPBLOCKS && Exec(procs, cap, run).Some?
    ensures var s := Exec(procs, cap, run).value;
            && |s.blocks| <= LOGSIZE && Distinct(s.blocks)
            && (s.committing ==> forall i :: 0 <= i < |s.ops| ==> s.ops[i].Idle?)
            && (s.committing ==> forall b :: b in s.blocks <==> b in s.ended)
  {
    ReachableInv(procs, cap, run);
    UnusedBound(Exec(procs, cap, run).value, cap);
  }

  /** The admission law, over every run: begin_op admits an operation if and only if no commit
      is under way and the listed blocks and MAXOPBLOCKS more for each active operation and for
      the new one fit the log. So an operation sleeps only for a commit or because the worst
      case would not fit, however many operations share the log and whatever it holds. */
  lemma AdmitsIff(procs: nat, cap: nat, run: seq<Step>, who: nat)
    requires cap <= MAXOPBLOCKS && Exec(procs, cap, run).Some?
    requires Enabled(Exec(procs, cap, run).value, Begin(who))
    ensures var s := Exec(procs, cap, run).value;
            var t := Apply(s, Begin(who));
            if !s.committing && |s.blocks| + MAXOPBLOCKS * (ActiveCount(s.ops) + 1) <= LOGSIZE then
              t.ops == s.ops[who := Active({}, None)] && t.sleepers == s.sleepers
              && ActiveCount(t.ops) == ActiveCount(s.ops) + 1 && t.blocks == s.blocks
            else
              t.ops == s.ops && t.sleepers == s.sleepers + {who} && t.blocks == s.blocks
  {
    ReachableInv(procs, cap, run);
    SetOp(Exec(procs, cap, run).value.ops, who, Active({}, None), cap);
  }

  /** The commit law, over every run: the operation that ends starts a commit if and only if no
      other is active, and wakes all sleepers otherwise; a commit that ends wakes them too. */
  lemma CommitsIff(procs: nat, cap: nat, run: seq<Step>, who: nat)
    requires cap <= MAXOPBLOCKS && Exec(procs, cap, run).Some?
    ensures var s := Exec(procs, cap, run).value;
            && (Enabled(s, End(who)) ==>
                  var t := Apply(s, End(who));
                  && (t.committing <==> forall i :: 0 <= i < |s.ops| && i != who ==> s.ops[i].Idle?)
                  && (!t.committing ==> t.sleepers == {}) && t.blocks == s.blocks)
            && (Enabled(s, CommitEnd) ==>
                  var t := Apply(s, CommitEnd); !t.committing && t.sleepers == {} && t.blocks == [])
  {
    ReachableInv(procs, cap, run);
    var s := Exec(procs, cap, run).value;
    hide Accounted, Exec, Unused;
    if Enabled(s, End(who)) {
      LastOneOut(s, who, cap);
    }
  }

  lemma LastOneOut(s: LogState, who: nat, cap: nat)
    requires Counted(s, cap) && Enabled(s, End(who))
    ensures s.outstanding == 1 <==> forall i :: 0 <= i < |s.ops| && i != who ==> s.ops[i].Idle?
    ensures !s.committing
  {
    var ops := s.ops[who := Idle];
    SetOp(s.ops, who, Idle, cap);
    UnusedBound(s, cap);
    CountZeroIff(ops);
    hide ActiveCount;
    assert forall i :: 0 <= i < |s.ops| && i != who ==> ops[i] == s.ops[i];
  }

  lemma {:induction false} CountZeroIff(ops: seq<Op>)
    ensures ActiveCount(ops) == 0 <==> forall i :: 0 <= i < |ops| ==> ops[i].Idle?
  {
    if ops != [] {
      CountZeroIff(ops[..|ops| - 1]);
    }
  }
}
