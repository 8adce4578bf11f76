/** The round-robin kernel's scheduler on one CPU: a sweep over the process table. */
module RoundRobin {
  import opened Common
  import opened Sequences

  /** The states and wait_ticks of the table, the loop variable p of the sweep, and the slot
      the scheduler has switched to, if any. */
  datatype Sweep = Sweep(state: seq<State>, wait: seq<nat>, p: nat, current: Option<nat>)

  predicate Shaped(s: Sweep) {
    && |s.state| == |s.wait| == NPROC && s.p < NPROC
    && (s.current.Some? ==> s.current.value == s.p)
  }

  /** What happens: a turn of the sweep, a change of one slot by the running process or an
      interrupt, the return of the process switched to. */
  datatype Event = Turn | Change(x: nat, to: State) | Return

  /** Changes of state other than the dispatch. A RUNNABLE process only leaves that state by
      being dispatched. */
  predicate Legal(a: State, b: State) {
    match a
    case UNUSED => b == EMBRYO
    case EMBRYO => b == RUNNABLE || b == UNUSED
    case SLEEPING => b == RUNNABLE
    case RUNNING => b == RUNNABLE || b == SLEEPING || b == ZOMBIE
    case ZOMBIE => b == UNUSED
    case RUNNABLE => false
  }

  predicate Enabled(s: Sweep, e: Event)
    requires Shaped(s)
  {
    match e
    case Turn => s.current.None?
    case Change(x, to) => x < NPROC && Legal(s.state[x], to)
    case Return => s.current.Some? && s.state[s.p] != RUNNING
  }

  /** wait_ticks after slot p has been chosen. */
  function Waited(s: Sweep): (w: seq<nat>)
    requires Shaped(s)
    ensures |w| == NPROC
    ensures forall x :: 0 <= x < NPROC ==>
            w[x] == if x != s.p && s.state[x] == RUNNABLE then s.wait[x] + 1 else s.wait[x]
  {
    seq(NPROC, x requires 0 <= x < NPROC => if x != s.p && s.state[x] == RUNNABLE then s.wait[x] + 1 else s.wait[x])
  }

  function Step(s: Sweep, e: Event): (t: Sweep)
    requires Shaped(s) && Enabled(s, e)
    ensures Shaped(t)
  {
    match e
    case Turn =>
      if s.state[s.p] != RUNNABLE then s.(p := Next(NPROC, s.p))
      else s.(state := s.state[s.p := RUNNING], wait := Waited(s), current := Some(s.p))
    case Change(x, to) =>
      s.(state := s.state[x := to], wait := if s.state[x] == UNUSED then s.wait[x := 0] else s.wait)
    case Return => s.(p := Next(NPROC, s.p), current := None)
  }

  /** The slot an event dispatches. */
  function Dispatches(s: Sweep, e: Event): Option<nat>
    requires Shaped(s)
  {
    if e.Turn? && s.current.None? && s.state[s.p] == RUNNABLE then Some(s.p) else None
  }

  /** What the events mean: the slot dispatched is RUNNING and was RUNNABLE; every other RUNNABLE
      slot waits a tick longer; other states change only as the event says; only a new process
      starts from zero. */
  lemma StepMeans(s: Sweep, e: Event, x: nat)
    requires Shaped(s) && Enabled(s, e) && x < NPROC
    ensures var t, d := Step(s, e), Dispatches(s, e);
            && (d == Some(x) ==> e.Turn? && s.state[x] == RUNNABLE && t.state[x] == RUNNING && t.current == Some(x))
            && (d.Some? && d != Some(x) && s.state[x] == RUNNABLE ==> t.wait[x] == s.wait[x] + 1)
            && (t.state[x] != s.state[x] ==> d == Some(x) || e == Change(x, t.state[x]))
            && (e == Change(x, t.state[x]) && s.state[x] == UNUSED ==> t.wait[x] == 0)
            && (t.wait[x] != s.wait[x] ==> (d.Some? && s.state[x] == RUNNABLE) || (e.Change? && s.state[x] == UNUSED))
            && (e.Turn? && d.None? ==> s.state[s.p] != RUNNABLE && t.p == (s.p + 1) % NPROC)
            && (e.Return? ==> t.current.None? && t.p == (s.p + 1) % NPROC)
  {
  }

  predicate IsRun(s: Sweep, run: seq<Event>)
    requires Shaped(s)
    decreases run
  {
    run == [] || (Enabled(s, run[0]) && IsRun(Step(s, run[0]), run[1..]))
  }

  function After(s: Sweep, run: seq<Event>): (t: Sweep)
    requires Shaped(s) && IsRun(s, run)
    ensures Shaped(t)
    decreases run
  {
    if run == [] then s else After(Step(s, run[0]), run[1..])
  }

  /** The slots a run dispatches, in order. */
  function Dispatched(s: Sweep, run: seq<Event>): (d: seq<nat>)
    requires Shaped(s) && IsRun(s, run)
    decreases run
  {
    if run == [] then []
    else
      var rest := Dispatched(Step(s, run[0]), run[1..]);
      match Dispatches(s, run[0])
      case None => rest
      case Some(x) => [x] + rest
  }

  /** Slots the sweep still visits before q. */
  function Before(s: Sweep, q: nat): (n: nat)
    requires Shaped(s) && q < NPROC
    ensures n < NPROC
  {
    var p := if s.current.Some? then Next(NPROC, s.p) else s.p;
    Dist(NPROC, p, q)
  }

  /** A slot that is RUNNABLE stays so until it is dispatched, and every dispatch of another
      slot, which is the only thing that makes it wait longer, brings the sweep nearer. */
  lemma WaitStep(s: Sweep, e: Event, q: nat)
    requires Shaped(s) && Enabled(s, e) && q < NPROC && s.state[q] == RUNNABLE && Dispatches(s, e) != Some(q)
    ensures var t := Step(s, e);
            && t.state[q] == RUNNABLE && t.wait[q] + Before(t, q) <= s.wait[q] + Before(s, q)
            && (e.Turn? ==> Before(t, q) < Before(s, q))
            && (Dispatches(s, e).Some? ==> t.wait[q] == s.wait[q] + 1 && s.p != q)
            && (Dispatches(s, e).None? ==> t.wait[q] == s.wait[q])
            && Before(t, q) <= Before(s, q)
  {
  }

  /** Bounded wait: while q stays RUNNABLE and is passed over, its wait_ticks grow by exactly
      the number of dispatches, and by no more than the slots the sweep had before it. */
  lemma {:induction false} BoundedWait(s: Sweep, run: seq<Event>, q: nat)
    requires Shaped(s) && IsRun(s, run) && q < NPROC && s.state[q] == RUNNABLE && q !in Dispatched(s, run)
    ensures var t := After(s, run);
            && t.state[q] == RUNNABLE
            && t.wait[q] == s.wait[q] + |Dispatched(s, run)|
            && |Dispatched(s, run)| + Before(t, q) <= Before(s, q) < NPROC
    decreases run
  {
    if run != [] {
      var t := Step(s, run[0]);
      WaitStep(s, run[0], q);
      var rest := Dispatched(t, run[1..]);
      assert forall x :: x in rest ==> x in Dispatched(s, run);
      BoundedWait(t, run[1..], q);
    }
  }

  lemma {:induction false} DispatchedGaps(s: Sweep, run: seq<Event>, q: nat)
    requires Shaped(s) && IsRun(s, run) && q < NPROC && s.state[q] == RUNNABLE && q !in Dispatched(s, run)
    ensures forall x :: x in Dispatched(s, run) ==> x < NPROC && 0 < Dist(NPROC, x, q) <= Before(s, q)
    decreases run
  {
    if run != [] {
      var t := Step(s, run[0]);
      WaitStep(s, run[0], q);
      var rest := Dispatched(t, run[1..]);
      assert forall x :: x in rest ==> x in Dispatched(s, run);
      DispatchedGaps(t, run[1..], q);
    }
  }

  /** While q stays RUNNABLE and is passed over, no slot is dispatched twice. */
  lemma {:induction false} NoneTwice(s: Sweep, run: seq<Event>, q: nat)
    requires Shaped(s) && IsRun(s, run) && q < NPROC && s.state[q] == RUNNABLE && q !in Dispatched(s, run)
    ensures Distinct(Dispatched(s, run))
    decreases run
  {
    if run != [] {
      var t := Step(s, run[0]);
      WaitStep(s, run[0], q);
      var rest := Dispatched(t, run[1..]);
      assert forall x :: x in rest ==> x in Dispatched(s, run);
      NoneTwice(t, run[1..], q);
      DispatchedGaps(t, run[1..], q);
      assert s.p in rest ==> Dist(NPROC, s.p, q) <= Before(t, q);
    }
  }

  function Turns(run: seq<Event>): nat {
    if run == [] then 0 else Turns(run[1..]) + if run[0].Turn? then 1 else 0
  }

  /** The sweep reaches q: a run with more turns than there are slots before q dispatches it. */
  lemma {:induction false} SoonDispatched(s: Sweep, run: seq<Event>, q: nat)
    requires Shaped(s) && IsRun(s, run) && q < NPROC && s.state[q] == RUNNABLE && Turns(run) > Before(s, q)
    ensures q in Dispatched(s, run)
    decreases run
  {
    var t := Step(s, run[0]);
    if Dispatches(s, run[0]) != Some(q) {
      WaitStep(s, run[0], q);
      SoonDispatched(t, run[1..], q);
    }
  }

  /** Between two dispatches of a process, whatever it and the others do, its wait_ticks grow
      by at most NPROC - 1. */
  lemma {:induction false} BetweenDispatches(s: Sweep, run: seq<Event>, q: nat)
    requires Shaped(s) && IsRun(s, run) && q < NPROC && q !in Dispatched(s, run)
    ensures After(s, run).wait[q] <= s.wait[q] + NPROC - 1
    decreases run
  {
    if s.state[q] == RUNNABLE {
      BoundedWait(s, run, q);
    } else if run != [] {
      assert forall x :: x in Dispatched(Step(s, run[0]), run[1..]) ==> x in Dispatched(s, run);
      BetweenDispatches(Step(s, run[0]), run[1..], q);
    }
  }

  // ---- the bound is met ----

  /** k slots from p on are dispatched in turn, and each yields. */
  function Yielding(p: nat, k: nat): seq<Event>
    decreases k
  {
    if k == 0 then [] else [Turn, Change(p, RUNNABLE), Return] + Yielding(p + 1, k - 1)
  }

  lemma {:induction false} BoundIsMet(s: Sweep, k: nat)
    requires Shaped(s) && s.current.None? && s.p + k < NPROC
    requires forall x :: 0 <= x < NPROC ==> s.state[x] == RUNNABLE
    ensures IsRun(s, Yielding(s.p, k))
    ensures var q := NPROC - 1;
            q !in Dispatched(s, Yielding(s.p, k)) && After(s, Yielding(s.p, k)).wait[q] == s.wait[q] + k
    decreases k
  {
    if k > 0 {
      var run, rest := Yielding(s.p, k), Yielding(s.p + 1, k - 1);
      var s1 := Step(s, Turn);
      var s2 := Step(s1, Change(s.p, RUNNABLE));
      var s3 := Step(s2, Return);
      assert run[0] == Turn && run[1..][0] == Change(s.p, RUNNABLE) && run[1..][1..][0] == Return;
      assert run[1..][1..][1..] == rest;
      assert s2.state == s.state;
      BoundIsMet(s3, k - 1);
      assert IsRun(s2, run[1..][1..]) && After(s2, run[1..][1..]) == After(s3, rest);
      assert Dispatched(s2, run[1..][1..]) == Dispatched(s3, rest);
      assert IsRun(s1, run[1..]) && After(s1, run[1..]) == After(s3, rest);
      assert Dispatched(s1, run[1..]) == Dispatched(s3, rest);
      assert IsRun(s, run) && After(s, run) == After(s3, rest);
      assert Dispatched(s, run) == [s.p] + Dispatched(s3, rest);
      assert s3.wait[NPROC - 1] == s.wait[NPROC - 1] + 1;
    }
  }

  // ---- the scheduler itself ----

  class Scheduler {
    var state: seq<State>
    var wait: seq<nat>
    var p: nat
    var current: Option<nat>
    var switches: nat

    function Now(): Sweep
      reads this
    {
      Sweep(state, wait, p, current)
    }

    constructor ()
      ensures Shaped(Now()) && current.None? && switches == 0
    {
      state, wait, p, current, switches := seq(NPROC, _ => UNUSED), seq(NPROC, _ => 0), 0, None, 0;
    }

    /** One turn of the sweep, up to the switch to the process chosen. */
    method Sweep1()
      requires Shaped(Now()) && current.None?
      modifies this
      ensures Now() == Step(old(Now()), Turn)
      ensures switches == old(switches) + if current.Some? then 1 else 0
      ensures current == if old(state[p]) == RUNNABLE then Some(old(p)) else None
      ensures current.Some? ==> p == old(p) && state == old(state)[p := RUNNING]
      ensures current.Some? ==>
                forall x :: 0 <= x < NPROC ==>
                  wait[x] == old(wait)[x] + if x != p && old(state)[x] == RUNNABLE then 1 else 0
      ensures current.None? ==> p == (old(p) + 1) % NPROC && state == old(state) && wait == old(wait)
    {
      if state[p] != RUNNABLE {
        p := Next(NPROC, p);
        return;
      }
      ghost var s := Now();
      var p2 := 0;
      while p2 < NPROC
        invariant p2 <= NPROC && |wait| == NPROC && state == s.state && p == s.p && current == s.current
                  && switches == old(switches)
        invariant forall x :: 0 <= x < NPROC ==> wait[x] == if x < p2 then Waited(s)[x] else s.wait[x]
      {
        if state[p2] == RUNNABLE && p2 != p {
          wait := wait[p2 := wait[p2] + 1];
        }
        p2 := p2 + 1;
      }
      current := Some(p);
      state := state[p := RUNNING];
      switches := switches + 1;
    }

    /** The process has switched back. */
    method SwitchedBack()
      requires Shaped(Now()) && current.Some? && state[p] != RUNNING
      modifies this`p, this`current
      ensures Now() == Step(old(Now()), Return)
      ensures current.None? && p == (old(p) + 1) % NPROC && state == old(state) && wait == old(wait)
    {
      current := None;
      p := Next(NPROC, p);
    }
  }
}
