/** lottery-scheduler/proc.c: the process table, the per-CPU run queues and the steps that
    move processes between them. A step is one critical section of ptable_lock, except that
    the scheduler picks a process before it takes the lock. */
module LotteryProc {
  import opened Common
  import opened Lottery
  import opened LotteryQueue
  import opened ProcessTree
  import opened Rand
  import opened Sequences

  datatype Proc = Proc(state: State, pid: int, parent: int, chan: int, killed: bool, tickets: int, cpu: int)

  function KinOf(q: Proc): Kin { Kin(q.state, q.parent, q.chan) }

  function WithKin(q: Proc, k: Kin): Proc { q.(state := k.state, parent := k.parent, chan := k.chan) }

  function Kins(pt: seq<Proc>): (k: seq<Kin>)
    ensures |k| == |pt| && forall p :: 0 <= p < |pt| ==> k[p] == KinOf(pt[p])
  {
    seq(|pt|, p requires 0 <= p < |pt| => KinOf(pt[p]))
  }

  /** The records differ in no other fields. */
  ghost predicate OnlyKin(pt: seq<Proc>, qt: seq<Proc>) {
    |pt| == |qt| && forall p :: 0 <= p < |pt| ==> qt[p] == WithKin(pt[p], KinOf(qt[p]))
  }

  /** The scheduling state: process table, queue contents, c->proc and the scheduler's
      picked process of each CPU. A process is named by its table index. */
  datatype Scheduling = Scheduling(pt: seq<Proc>, qs: seq<seq<int>>, cur: seq<int>, picked: seq<int>)

  predicate Shape(s: Scheduling) {
    |s.pt| == NPROC && 0 < |s.qs| == |s.cur| == |s.picked|
  }

  predicate Ready(s: Scheduling, p: int, c: int)
    requires Shape(s)
  {
    Slot(p) && s.pt[p].state == RUNNABLE && s.pt[p].cpu == c
  }

  /** A process is in the queue of CPU c, once, exactly if it is RUNNABLE and assigned to c. */
  ghost predicate QueuesExact(s: Scheduling)
    requires Shape(s)
  {
    && (forall c :: 0 <= c < |s.qs| ==> Distinct(s.qs[c]))
    && (forall c, p {:trigger p in s.qs[c]} :: 0 <= c < |s.qs| && p in s.qs[c] ==> Ready(s, p, c))
    && (forall p :: Slot(p) && s.pt[p].state == RUNNABLE ==>
          0 <= s.pt[p].cpu < |s.qs| && p in s.qs[s.pt[p].cpu])
  }

  /** The same as one equivalence. */
  lemma QueuedIffReady(s: Scheduling, c: int, p: int)
    requires Inv(s) && 0 <= c < |s.qs|
    ensures p in s.qs[c] <==> Slot(p) && s.pt[p].state == RUNNABLE && s.pt[p].cpu == c
  {
  }

  /** RUNNING processes correspond one to one with the non-null c->proc. */
  ghost predicate RunningExact(s: Scheduling)
    requires Shape(s)
  {
    && (forall c :: 0 <= c < |s.cur| && s.cur[c] != NULL ==>
          Slot(s.cur[c]) && s.pt[s.cur[c]].state == RUNNING && s.pt[s.cur[c]].cpu == c)
    && (forall p :: Slot(p) && s.pt[p].state == RUNNING ==>
          0 <= s.pt[p].cpu < |s.cur| && s.cur[s.pt[p].cpu] == p)
  }

  ghost predicate Inv(s: Scheduling) {
    && Shape(s)
    && QueuesExact(s)
    && RunningExact(s)
    && (forall c :: 0 <= c < |s.picked| && s.picked[c] != NULL ==> s.picked[c] in s.qs[c])
    && (forall p :: Slot(p) && s.pt[p].state in {SLEEPING, ZOMBIE} ==> 0 <= s.pt[p].cpu < |s.qs|)
  }

  // ---- what the steps do to the scheduling state ----

  /** p becomes RUNNABLE on its CPU and joins that queue. */
  ghost function Readied(s: Scheduling, p: int, q: Proc): (t: Scheduling)
    requires Shape(s) && Slot(p) && 0 <= q.cpu < |s.qs|
  {
    s.(pt := s.pt[p := q.(state := RUNNABLE)], qs := s.qs[q.cpu := s.qs[q.cpu] + [p]])
  }

  lemma ReadiedInv(s: Scheduling, p: int, q: Proc)
    requires Inv(s) && Slot(p) && s.pt[p].state in {SLEEPING, EMBRYO} && 0 <= q.cpu < |s.qs|
    ensures Inv(Readied(s, p, q))
  {
    assert p !in s.qs[q.cpu];
  }

  /** The process on CPU c stops running and gets the record q. */
  ghost function Left(s: Scheduling, c: nat, q: Proc): (t: Scheduling)
    requires Shape(s) && c < |s.cur| && Slot(s.cur[c])
  {
    s.(pt := s.pt[s.cur[c] := q], cur := s.cur[c := NULL])
  }

  lemma LeftInv(s: Scheduling, c: nat, q: Proc)
    requires Inv(s) && c < |s.cur| && s.cur[c] != NULL
    requires q.state in {SLEEPING, ZOMBIE} && q.cpu == s.pt[s.cur[c]].cpu
    ensures Inv(Left(s, c, q))
  {
  }

  /** A record changes in a way that does not concern scheduling. */
  lemma TouchInv(s: Scheduling, p: int, q: Proc)
    requires Inv(s) && Slot(p) && q.state == s.pt[p].state && q.cpu == s.pt[p].cpu
    ensures Inv(s.(pt := s.pt[p := q]))
  {
  }

  /** A slot that is not scheduled is taken or given back. */
  lemma ResetInv(s: Scheduling, p: int, q: Proc)
    requires Inv(s) && Slot(p)
    requires s.pt[p].state in {UNUSED, EMBRYO, ZOMBIE} && q.state in {UNUSED, EMBRYO}
    ensures Inv(s.(pt := s.pt[p := q]))
  {
  }

  /** A queue of distinct table slots that misses p has room for it. */
  lemma RoomFor(q: seq<int>, p: int)
    requires Distinct(q) && (forall x :: x in q ==> Slot(x)) && Slot(p) && p !in q
    ensures |q| < NPROC
  {
    forall k | 0 <= k < |q| ensures 0 <= q[k] < NPROC && q[k] != p {
      assert Slot(q[k]);
    }
    DistinctMissing(q, NPROC, p);
  }

  /** The scheduler of CPU c runs p, taken from its queue. */
  ghost function Dispatched(s: Scheduling, c: nat, p: int): (t: Scheduling)
    requires Shape(s) && c < |s.qs| && Slot(p)
  {
    Scheduling(s.pt[p := s.pt[p].(state := RUNNING, chan := NULL)], s.qs[c := SwapRemove(s.qs[c], p)],
               s.cur[c := p], s.picked[c := NULL])
  }

  lemma DispatchedInv(s: Scheduling, c: nat, p: int)
    requires Inv(s) && c < |s.qs| && p in s.qs[c] && s.cur[c] == NULL && s.picked[c] == p
    ensures Slot(p) && Inv(Dispatched(s, c, p))
  {
    SwapRemoveDistinct(s.qs[c], p);
    assert Ready(s, p, c);
  }

  /** The scheduler of CPU c picks p from its queue, or nobody. */
  lemma PickedInv(s: Scheduling, c: nat, p: int)
    requires Inv(s) && c < |s.qs| && (p == NULL || p in s.qs[c])
    ensures Inv(s.(picked := s.picked[c := p]))
  {
  }

  /** The process on CPU c gives up the processor but stays RUNNABLE. */
  ghost function Yielded(s: Scheduling, c: nat): (t: Scheduling)
    requires Shape(s) && c < |s.cur| && Slot(s.cur[c])
  {
    var p := s.cur[c];
    s.(pt := s.pt[p := s.pt[p].(state := RUNNABLE)], qs := s.qs[c := s.qs[c] + [p]], cur := s.cur[c := NULL])
  }

  lemma YieldedInv(s: Scheduling, c: nat)
    requires Inv(s) && c < |s.cur| && s.cur[c] != NULL
    ensures Inv(Yielded(s, c))
  {
    assert s.cur[c] !in s.qs[c];
  }

  // ---- wakeup as a function of the table ----

  /** The state after the first n slots have been scanned by wakeup1. */
  ghost function Woken(s: Scheduling, chan: int, n: nat): (t: Scheduling)
    requires Inv(s) && n <= NPROC
    ensures Inv(t) && |t.qs| == |s.qs| && t.cur == s.cur && t.picked == s.picked
    ensures forall p :: Slot(p) ==>
              t.pt[p] == if p < n && Wakes(KinOf(s.pt[p]), chan) then s.pt[p].(state := RUNNABLE) else s.pt[p]
  {
    if n == 0 then s
    else
      var t := Woken(s, chan, n - 1);
      if Wakes(KinOf(t.pt[n - 1]), chan) then
        ReadiedInv(t, n - 1, t.pt[n - 1]);
        Readied(t, n - 1, t.pt[n - 1])
      else t
  }

  lemma KinsWoken(s: Scheduling, chan: int)
    requires Inv(s)
    ensures var t := Woken(s, chan, NPROC); AllWoken(Kins(s.pt), Kins(t.pt), chan) && OnlyKin(s.pt, t.pt)
  {
    var t := Woken(s, chan, NPROC);
    forall p | Slot(p) ensures Kins(t.pt)[p] ==
        if Wakes(KinOf(s.pt[p]), chan) then KinOf(s.pt[p]).(state := RUNNABLE) else KinOf(s.pt[p]) {
    }
  }

  lemma AdoptEffect(s: Scheduling, t: Scheduling, i: nat, init: int)
    requires Inv(s) && Inv(t) && Slot(i) && t == s.(pt := s.pt[i := s.pt[i].(parent := init)])
    ensures var u := if s.pt[i].state == ZOMBIE then Woken(t, init, NPROC) else t;
            OneAdopted(Kins(s.pt), Kins(u.pt), i, init) && OnlyKin(s.pt, u.pt)
  {
    KinsWoken(t, init);
    OnlyKinTrans(s.pt, t.pt, if s.pt[i].state == ZOMBIE then Woken(t, init, NPROC).pt else t.pt);
  }

  lemma OnlyKinTrans(pt: seq<Proc>, qt: seq<Proc>, rt: seq<Proc>)
    requires OnlyKin(pt, qt) && OnlyKin(qt, rt)
    ensures OnlyKin(pt, rt)
  {
    forall p | 0 <= p < |pt| ensures rt[p] == WithKin(pt[p], KinOf(rt[p])) {
      assert qt[p] == WithKin(pt[p], KinOf(qt[p]));
    }
  }

  // ---- the kernel ----

  /** The tickets waiting in a queue, as fork adds them up. */
  function RawTickets(q: seq<int>, pt: seq<Proc>): int {
    if q == [] then 0 else RawTickets(q[..|q| - 1], pt) + TicketsOf(q[|q| - 1], pt)
  }

  function Tickets(pt: seq<Proc>): int -> int {
    p => TicketsOf(p, pt)
  }

  function TicketsOf(p: int, pt: seq<Proc>): int {
    if 0 <= p < |pt| then pt[p].tickets else 0
  }

  const MIN_TICKETS := 999999

  /** Unless a process holds no ticket, that is what a lottery over the queue is drawn from. */
  lemma {:induction false} LoadIsTotal(q: seq<int>, pt: seq<Proc>)
    requires forall k :: 0 <= k < |q| ==> 0 <= q[k] < |pt| && pt[q[k]].tickets >= 1
    ensures RawTickets(q, pt) == Total(q, Tickets(pt))
  {
    if q != [] {
      var n := |q| - 1;
      LoadIsTotal(q[..n], pt);
      TotalSnoc(q[..n], q[n], Tickets(pt));
      assert q == q[..n] + [q[n]];
    }
  }

  /** The tickets waiting on each CPU. */
  ghost function Loads(s: Scheduling): (l: seq<int>)
    requires Shape(s)
    ensures |l| == |s.qs|
  {
    seq(|s.qs|, d requires 0 <= d < |s.qs| => RawTickets(s.qs[d], s.pt))
  }

  /** The CPU fork chooses: the first with the fewest waiting tickets, or CPU 0 if none has
      fewer than MIN_TICKETS. */
  ghost predicate LeastLoaded(s: Scheduling, c: nat)
    requires Shape(s)
  {
    FirstLeast(Loads(s), MIN_TICKETS, c)
  }

  /** The record wait leaves in a reaped slot. */
  function Reset(q: Proc): Proc {
    q.(state := UNUSED, pid := 0, parent := NULL, killed := false)
  }

  /** kill acts on p, the first process with the pid. */
  ghost predicate Killed(s: Scheduling, t: Scheduling, p: int, pid: int)
    requires Shape(s) && Slot(p)
  {
    var q := s.pt[p].(killed := true);
    && q.pid == pid && (forall i :: 0 <= i < p ==> s.pt[i].pid != pid)
    && if q.state == SLEEPING then 0 <= q.cpu < |s.qs| && t == Readied(s, p, q)
       else t == s.(pt := s.pt[p := q])
  }

  /** An empty run queue for each of `cpus` processors. */
  method NewQueues(cpus: nat) returns (r: seq<RunQueue>)
    ensures |r| == cpus
    ensures forall i :: 0 <= i < cpus ==> fresh(r[i]) && fresh(r[i].procs) && r[i].Valid() && r[i].Contents() == []
    ensures forall i, j :: 0 <= i < j < cpus ==> r[i] != r[j] && r[i].procs != r[j].procs
  {
    r := [];
    while |r| < cpus
      invariant |r| <= cpus
      invariant forall i :: 0 <= i < |r| ==> fresh(r[i]) && fresh(r[i].procs) && r[i].Valid() && r[i].Contents() == []
      invariant forall i, j :: 0 <= i < j < |r| ==> r[i] != r[j] && r[i].procs != r[j].procs
    {
      var q := new RunQueue();
      r := r + [q];
    }
  }

  class Kernel {
    var ptable: seq<Proc>
    var current: seq<int>     // c->proc
    var picked: seq<int>      // the scheduler's p between rq_select and the lock
    const rq: seq<RunQueue>
    var nextpid: int
    const initproc: int
    ghost var qs: seq<seq<int>>

    ghost function QueueObjects(): set<object> {
      (set i | 0 <= i < |rq| :: rq[i] as object) + (set i | 0 <= i < |rq| :: rq[i].procs as object)
    }

    ghost function Repr(): set<object> {
      {this} + QueueObjects()
    }

    ghost predicate QueuesOk()
      reads this`qs, QueueObjects()
    {
      && |qs| == |rq|
      && (forall i, j :: 0 <= i < j < |rq| ==> rq[i] != rq[j] && rq[i].procs != rq[j].procs)
      && (forall i :: 0 <= i < |rq| ==> rq[i].Valid() && rq[i].Contents() == qs[i])
    }

    ghost function S(): Scheduling
      reads this`ptable, this`qs, this`current, this`picked
    {
      Scheduling(ptable, qs, current, picked)
    }

    ghost predicate Valid()
      reads Repr()
    {
      Slot(initproc) && QueuesOk() && Inv(S())
    }

    /** pinit on `cpus` processors. */
    constructor (cpus: nat, init: int)
      requires 0 < cpus && Slot(init)
      ensures Valid() && fresh(Repr())
      ensures forall p :: Slot(p) ==> ptable[p].state == UNUSED
    {
      ptable := seq(NPROC, _ => Proc(UNUSED, 0, NULL, 0, false, 0, 0));
      current := seq(cpus, _ => NULL);
      picked := seq(cpus, _ => NULL);
      nextpid := 1;
      initproc := init;
      qs := seq(cpus, _ => []);
      var r := NewQueues(cpus);
      rq := r;
    }

    /** rq_add on the queue of CPU c; the "runqueue full" panic is unreachable. */
    method RqAdd(c: nat, p: int)
      requires QueuesOk() && c < |rq| && Slot(p)
      requires Distinct(qs[c]) && p !in qs[c] && forall x :: x in qs[c] ==> Slot(x)
      modifies this`qs, rq[c], rq[c].procs
      ensures QueuesOk() && qs == old(qs)[c := old(qs[c]) + [p]]
    {
      RoomFor(qs[c], p);
      var ok := rq[c].Add(p);
      assert ok;
      qs := qs[c := qs[c] + [p]];
    }

    method RqRemove(c: nat, p: int)
      requires QueuesOk() && c < |rq| && Slot(p)
      modifies this`qs, rq[c], rq[c].procs
      ensures QueuesOk() && qs == old(qs)[c := SwapRemove(old(qs[c]), p)]
      ensures p !in old(qs[c]) ==> qs == old(qs)
    {
      rq[c].Remove(p);
      qs := qs[c := SwapRemove(qs[c], p)];
    }

    /** allocproc; NULL if every slot is taken. */
    method AllocProc() returns (p: int)
      requires Valid()
      modifies this`ptable, this`nextpid
      ensures Valid()
      ensures p == NULL ==> ptable == old(ptable) && forall i :: Slot(i) ==> ptable[i].state != UNUSED
      ensures p == NULL ==> nextpid == old(nextpid)
      ensures p != NULL ==>
                && Slot(p) && old(ptable[p]).state == UNUSED
                && (forall i :: 0 <= i < p ==> old(ptable[i]).state != UNUSED)
                && ptable == old(ptable)[p := old(ptable)[p].(state := EMBRYO, tickets := 1, pid := old(nextpid),
                     cpu := -1)]
                && nextpid == old(nextpid) + 1
    {
      var i := 0;
      while i < NPROC && ptable[i].state != UNUSED
        invariant 0 <= i <= NPROC
        invariant forall j :: 0 <= j < i ==> ptable[j].state != UNUSED
      {
        i := i + 1;
      }
      if i == NPROC {
        return NULL;
      }
      ResetInv(S(), i, ptable[i].(state := EMBRYO, tickets := 1, pid := nextpid, cpu := -1));
      ptable := ptable[i := ptable[i].(state := EMBRYO, tickets := 1, pid := nextpid, cpu := -1)];
      nextpid := nextpid + 1;
      p := i;
    }

    /** allocproc or fork gives an embryo back when memory runs out. */
    method Abandon(p: int)
      requires Valid() && Slot(p) && ptable[p].state == EMBRYO
      modifies this`ptable
      ensures Valid() && S() == old(S()).(pt := old(ptable)[p := old(ptable)[p].(state := UNUSED)])
    {
      ResetInv(S(), p, ptable[p].(state := UNUSED));
      ptable := ptable[p := ptable[p].(state := UNUSED)];
    }

    /** fork's choice of a CPU. */
    method ChooseCpu() returns (target: nat)
      requires Valid()
      ensures LeastLoaded(S(), target) && target < |qs|
      ensures forall d :: 0 <= d < |qs| ==>
                var here, there := RawTickets(qs[target], ptable), RawTickets(qs[d], ptable);
                there < 999999 ==> here < there || (here == there && target <= d)
    {
      var min := MIN_TICKETS;
      target := 0;
      ghost var loads := Loads(S());
      for i := 0 to |rq|
        invariant LeastSoFar(loads, MIN_TICKETS, i, target, min)
      {
        var sum := SumRaw(i);
        assert loads[i] == sum;
        if sum < min {
          min := sum;
          target := i;
        }
      }
      forall d | 0 <= d < |qs|
        ensures var here, there := RawTickets(qs[target], ptable), RawTickets(qs[d], ptable);
                there < 999999 ==> here < there || (here == there && target <= d)
      {
        FirstLeastWins(loads, MIN_TICKETS, target, d);
        assert loads[d] == RawTickets(qs[d], ptable) && loads[target] == RawTickets(qs[target], ptable);
      }
    }

    /** The inner loop of that choice: the tickets waiting on CPU i. */
    method SumRaw(i: nat) returns (sum: int)
      requires Valid() && i < |rq|
      ensures sum == RawTickets(qs[i], ptable)
    {
      sum := 0;
      ghost var q := qs[i];
      assert rq[i].Contents() == q;
      for j := 0 to rq[i].count
        invariant sum == RawTickets(q[..j], ptable)
      {
        assert q[..j + 1][..j] == q[..j];
        assert rq[i].procs[j] == q[j] && q[j] in q;
        sum := sum + ptable[rq[i].procs[j]].tickets;
      }
      assert q[..rq[i].count] == q;
    }

    /** Set the state to RUNNABLE and queue the process on its CPU. */
    method MakeReady(p: int, q: Proc)
      requires Valid() && Slot(p) && ptable[p].state in {SLEEPING, EMBRYO} && 0 <= q.cpu < |rq|
      modifies Repr()
      ensures Valid() && S() == Readied(old(S()), p, q)
    {
      ReadiedInv(S(), p, q);
      ptable := ptable[p := q.(state := RUNNABLE)];
      RqAdd(q.cpu, p);
    }

    /** The last critical section of fork: the child becomes RUNNABLE on the chosen CPU. */
    method ForkCommit(np: int, parent: int, tickets: int) returns (c: nat)
      requires Valid() && Slot(np) && ptable[np].state == EMBRYO
      modifies Repr()
      ensures Valid() && old(LeastLoaded(S(), c))
      ensures S() == Readied(old(S()), np, old(ptable)[np].(parent := parent, tickets := tickets, cpu := c))
    {
      c := ChooseCpu();
      MakeReady(np, ptable[np].(parent := parent, tickets := tickets, cpu := c));
    }

    /** wakeup1: every process asleep on the channel becomes RUNNABLE and is queued. */
    method Wakeup(chan: int)
      requires Valid()
      modifies Repr()
      ensures Valid() && S() == Woken(old(S()), chan, NPROC)
    {
      ghost var s := S();
      var i := 0;
      while i < NPROC
        invariant 0 <= i <= NPROC && Valid() && S() == Woken(s, chan, i)
      {
        WakeOne(i, chan, s);
        i := i + 1;
      }
    }

    /** One turn of wakeup1. */
    method WakeOne(i: nat, chan: int, ghost s: Scheduling)
      requires Valid() && i < NPROC && Inv(s) && S() == Woken(s, chan, i)
      modifies Repr()
      ensures Valid() && S() == Woken(s, chan, i + 1)
    {
      if ptable[i].state == SLEEPING && ptable[i].chan == chan {
        MakeReady(i, ptable[i]);
      }
    }

    /** kill: the first process with the pid; false stands for -1. */
    method Kill(pid: int) returns (found: bool)
      requires Valid()
      modifies Repr()
      ensures Valid()
      ensures !found ==> S() == old(S()) && forall i :: Slot(i) ==> ptable[i].pid != pid
      ensures found ==> exists p {:trigger Slot(p)} :: Slot(p) && Killed(old(S()), S(), p, pid)
      ensures found ==>
                exists p {:trigger Slot(p)} :: Slot(p) && old(ptable)[p].pid == pid
                  && (forall i :: 0 <= i < p ==> old(ptable)[i].pid != pid)
                  && ptable[p].killed && ptable[p].state != SLEEPING
                  && (ptable[p].state != old(ptable)[p].state ==>
                        old(ptable)[p].state == SLEEPING && ptable[p].state == RUNNABLE)
    {
      var i := 0;
      while i < NPROC && ptable[i].pid != pid
        invariant 0 <= i <= NPROC
        invariant forall j :: 0 <= j < i ==> ptable[j].pid != pid
      {
        i := i + 1;
      }
      if i == NPROC {
        return false;
      }
      found := true;
      assert Slot(i);
      var q := ptable[i].(killed := true);
      if q.state == SLEEPING {
        MakeReady(i, q);
      } else {
        TouchInv(S(), i, q);
        ptable := ptable[i := q];
      }
    }

    /** rq_select in the scheduler of CPU c, before it takes the table lock. */
    method Pick(c: nat, rng: Rng)
      requires Valid() && c < |rq| && current[c] == NULL
      requires Total(qs[c], Tickets(ptable)) <= MAXINT
      requires rng !in Repr()
      modifies this`picked, rng
      ensures Valid() && S() == old(S()).(picked := picked)
      ensures picked == old(picked)[c := picked[c]]
      ensures |qs[c]| <= MAX_PROCS && (rng.state, picked[c]) == Lot(qs[c], Tickets(ptable), old(rng.state))
      ensures if qs[c] == [] then picked[c] == NULL else picked[c] in qs[c]
      ensures qs[c] != [] ==>
                exists js, ys :: DrawnChoices(old(rng.state), |qs[c]|, js, ys)
                  && (var (y, winner) := Drawn(ys[|js|], Total(qs[c], Tickets(ptable)));
                      rng.state == y && picked[c] == Walk(Shuffle(qs[c], js), Tickets(ptable), winner))
    {
      hide Lot, Total;
      ghost var s := S();
      var p := Draw(c, rng);
      ghost var t := s.(picked := s.picked[c := p]);
      PickedInv(s, c, p);
      picked := picked[c := p];
      assert S() == t;
    }

    /** The draw itself. */
    method Draw(c: nat, rng: Rng) returns (p: int)
      requires Valid() && c < |rq| && Total(qs[c], Tickets(ptable)) <= MAXINT && rng !in Repr()
      modifies rng
      ensures QueuesOk() && |qs[c]| <= MAX_PROCS && (rng.state, p) == Lot(qs[c], Tickets(ptable), old(rng.state))
      ensures if qs[c] == [] then p == NULL else p in qs[c]
      ensures qs[c] != [] ==>
                exists js, ys :: DrawnChoices(old(rng.state), |qs[c]|, js, ys)
                  && (var (y, winner) := Drawn(ys[|js|], Total(qs[c], Tickets(ptable)));
                      rng.state == y && p == Walk(Shuffle(qs[c], js), Tickets(ptable), winner))
    {
      hide Lot, Walk, Shuffle, DrawnChoices;
      p := rq[c].Select(Tickets(ptable), rng);
    }

    /** The scheduler of CPU c, under the lock: run the picked process, if any. However many
        steps other CPUs took since Pick, it is still RUNNABLE and queued here. */
    method Dispatch(c: nat)
      requires Valid() && c < |rq| && current[c] == NULL && picked[c] != NULL
      modifies Repr()
      ensures Valid() && S() == Dispatched(old(S()), c, old(picked)[c])
      ensures old(ptable)[old(picked)[c]].state == RUNNABLE
    {
      var p := picked[c];
      DispatchedInv(S(), c, p);
      RqRemove(c, p);
      current := current[c := p];
      picked := picked[c := NULL];
      ptable := ptable[p := ptable[p].(state := RUNNING, chan := NULL)];
    }

    /** yield, up to the switch back into the scheduler. */
    method Yield(c: nat)
      requires Valid() && c < |rq| && current[c] != NULL
      modifies Repr()
      ensures Valid() && S() == Yielded(old(S()), c)
    {
      ghost var t := Yielded(S(), c);
      YieldedInv(S(), c);
      var p := current[c];
      assert ptable[p].cpu == c;   // "yield: invalid CPU assignment" is unreachable
      ptable := ptable[p := ptable[p].(state := RUNNABLE)];
      RqAdd(ptable[p].cpu, p);
      current := current[c := NULL];
      assert S() == t;
    }

    /** Leave the processor with record q; the rq_remove finds nothing to remove. */
    method Leave(c: nat, q: Proc)
      requires Valid() && c < |rq| && current[c] != NULL
      requires q.state in {SLEEPING, ZOMBIE} && q.cpu == ptable[current[c]].cpu
      modifies Repr()
      ensures Valid() && S() == Left(old(S()), c, q)
    {
      ghost var t := Left(S(), c, q);
      LeftInv(S(), c, q);
      var p := current[c];
      assert p !in qs[c] && q.cpu == c;   // "invalid CPU assignment" is unreachable
      ptable := ptable[p := q];
      RqRemove(q.cpu, p);
      current := current[c := NULL];
      assert S() == t;
    }

    /** sleep, up to the switch. */
    method Sleep(c: nat, chan: int)
      requires Valid() && c < |rq| && current[c] != NULL
      modifies Repr()
      ensures Valid()
      ensures S() == Left(old(S()), c, old(ptable)[old(current)[c]].(state := SLEEPING, chan := chan))
    {
      Leave(c, ptable[current[c]].(state := SLEEPING, chan := chan));
    }

    /** One pass of wait: reap the first zombie child, fail without children or when killed,
        otherwise go to sleep on the process's own channel. */
    method Wait(c: nat) returns (r: WaitResult)
      requires Valid() && c < |rq| && current[c] != NULL
      modifies Repr()
      ensures Valid()
      ensures match r
              case Reaped(z) => Slot(z) && FirstZombieChild(Kins(old(ptable)), old(current)[c], z)
                                && S() == old(S()).(pt := old(ptable)[z := Reset(old(ptable)[z])])
              case NoChild => S() == old(S())
                              && ((forall p :: Slot(p) ==> ptable[p].parent != current[c]) || ptable[current[c]].killed)
              case Asleep => S() == Left(old(S()), c,
                  old(ptable)[old(current)[c]].(state := SLEEPING, chan := old(current)[c]))
      ensures r != NoChild && !r.Reaped? ==> !old(ptable)[old(current)[c]].killed
      ensures !r.Reaped? ==> forall p :: Slot(p) && old(ptable)[p].parent == old(current)[c] ==>
              old(ptable)[p].state != ZOMBIE
      ensures r.Reaped? ==>
                var q := ptable[r.p];
                && q.state == UNUSED && q.pid == 0 && q.parent == NULL && !q.killed
                && (old(ptable)[r.p].pid != 0
                    && (forall x :: Slot(x) && x != r.p ==> old(ptable)[x].pid != old(ptable)[r.p].pid) ==>
                      forall x :: Slot(x) ==> ptable[x].pid != old(ptable)[r.p].pid)
    {
      hide QueuesExact;
      var me := current[c];
      var havekids := false;
      var i := 0;
      while i < NPROC && !(ptable[i].parent == me && ptable[i].state == ZOMBIE)
        invariant 0 <= i <= NPROC
        invariant forall p :: 0 <= p < i && ptable[p].parent == me ==> ptable[p].state != ZOMBIE
        invariant !havekids ==> forall p :: 0 <= p < i ==> ptable[p].parent != me
      {
        if ptable[i].parent == me {
          havekids := true;
        }
        i := i + 1;
      }
      if i < NPROC {
        Reap(i);
        return Reaped(i);
      }
      if !havekids || ptable[me].killed {
        return NoChild;
      }
      Sleep(c, me);
      return Asleep;
    }

    /** A zombie's slot is cleared; the rq_remove finds nothing to remove. */
    method Reap(i: nat)
      requires Valid() && Slot(i) && ptable[i].state == ZOMBIE
      modifies Repr()
      ensures Valid() && S() == old(S()).(pt := old(ptable)[i := Reset(old(ptable)[i])])
    {
      ResetInv(S(), i, Reset(ptable[i]));
      var cpu := ptable[i].cpu;
      assert 0 <= cpu < |rq| && i !in qs[cpu];   // "wait: invalid CPU assignment" is unreachable
      ptable := ptable[i := Reset(ptable[i])];
      RqRemove(cpu, i);
    }

    /** exit: wake the parent, hand the children to init, become a zombie. */
    method Exit(c: nat)
      requires Valid() && c < |rq| && current[c] != NULL && current[c] != initproc
      modifies Repr()
      ensures Valid() && current == old(current)[c := NULL] && picked == old(picked)
      ensures forall p :: Slot(p) ==>
              ptable[p] == WithKin(old(ptable)[p], AfterExit(Kins(old(ptable)), old(current)[c], initproc, p))
    {
      var me := current[c];
      LetGo(me);
      Leave(c, ptable[me].(state := ZOMBIE));
    }

    /** exit up to the state change: the parent is woken and the children handed to init. */
    method LetGo(me: int)
      requires Valid() && Slot(me) && ptable[me].state == RUNNING
      modifies Repr()
      ensures Valid() && current == old(current) && picked == old(picked) && OnlyKin(old(ptable), ptable)
      ensures Exiting(Kins(old(ptable)), Kins(ptable), me, initproc)
    {
      ghost var s := S();
      KinsWoken(s, s.pt[me].parent);
      Wakeup(ptable[me].parent);
      ghost var w := ptable;
      Reparent(me);
      OnlyKinTrans(s.pt, w, ptable);
      ExitEffect(Kins(s.pt), Kins(w), Kins(ptable), me, initproc);
    }

    /** The reparenting loop of exit. */
    method Reparent(me: int)
      requires Valid() && Slot(me)
      modifies Repr()
      ensures Valid() && current == old(current) && picked == old(picked)
      ensures AllAdopted(Kins(old(ptable)), Kins(ptable), me, initproc, NPROC) && OnlyKin(old(ptable), ptable)
    {
      ghost var pt := ptable;
      var i := 0;
      while i < NPROC
        invariant 0 <= i <= NPROC && Valid() && current == old(current) && picked == old(picked)
        invariant AllAdopted(Kins(pt), Kins(ptable), me, initproc, i) && OnlyKin(pt, ptable)
      {
        ghost var before := ptable;
        if ptable[i].parent == me {
          Adopt(i);
        }
        AdoptStep(Kins(pt), Kins(before), Kins(ptable), me, initproc, i);
        OnlyKinTrans(pt, before, ptable);
        i := i + 1;
      }
    }

    /** One child passes to init; a zombie child wakes init. */
    method Adopt(i: nat)
      requires Valid() && Slot(i)
      modifies Repr()
      ensures Valid() && current == old(current) && picked == old(picked)
      ensures OneAdopted(Kins(old(ptable)), Kins(ptable), i, initproc) && OnlyKin(old(ptable), ptable)
    {
      ghost var s := S();
      SetParent(i);
      AdoptEffect(s, S(), i, initproc);
      if ptable[i].state == ZOMBIE {
        Wakeup(initproc);
      }
    }

    method SetParent(i: nat)
      requires Valid() && Slot(i)
      modifies this`ptable
      ensures Valid() && S() == old(S()).(pt := old(ptable)[i := old(ptable)[i].(parent := initproc)])
    {
      TouchInv(S(), i, ptable[i].(parent := initproc));
      ptable := ptable[i := ptable[i].(parent := initproc)];
    }
  }
}
