/** priority-scheduler/proc.c: every step that moves a process between the states and the
    queues of module PriorityProc. A step is one critical section of ptable_lock. What a step
    does is stated up to the links, which the lists account for. */
module PriorityKernel {
  import opened Common
  import opened PriorityProc
  import opened PriorityQueue
  import opened PriorityWakeup
  import opened ProcessTree
  import opened Sequences

  function KinOf(q: Proc): Kin { Kin(q.state, q.parent, q.chan) }

  function Kins(pt: seq<Proc>): (k: seq<Kin>)
    ensures |k| == |pt| && forall p :: 0 <= p < |pt| ==> k[p] == KinOf(pt[p])
  {
    seq(|pt|, p requires 0 <= p < |pt| => KinOf(pt[p]))
  }

  /** Record r is q but for parent and link, unless q slept and was woken. */
  predicate Lightly(q: Proc, r: Proc) {
    r == (if q.state == SLEEPING && r.state == RUNNABLE then Awake(q) else q).(parent := r.parent, next := r.next)
  }

  /** So do all records, which is all exit does to processes other than its own. */
  ghost predicate OnlyWakes(pt: seq<Proc>, qt: seq<Proc>) {
    |pt| == |qt| == NPROC && forall p :: Slot(p) ==> Lightly(pt[p], qt[p])
  }

  lemma OnlyWakesTrans(pt: seq<Proc>, qt: seq<Proc>, rt: seq<Proc>)
    requires OnlyWakes(pt, qt) && OnlyWakes(qt, rt)
    ensures OnlyWakes(pt, rt)
  {
    forall p | Slot(p) ensures Lightly(pt[p], rt[p]) {
      assert Lightly(pt[p], qt[p]) && Lightly(qt[p], rt[p]);
    }
  }

  // ---- who runs where ----

  /** RUNNING processes correspond one to one with the non-null c->proc, and a zombie still
      has the CPU it exited on. */
  ghost predicate Running(pt: seq<Proc>, cur: seq<int>) {
    && |pt| == NPROC && cur != []
    && (forall c :: 0 <= c < |cur| && cur[c] != NULL ==>
          0 <= cur[c] < NPROC && pt[cur[c]].state == RUNNING && pt[cur[c]].cpu == c)
    && (forall p {:trigger Slot(p)} :: Slot(p) && pt[p].state == RUNNING ==>
          0 <= pt[p].cpu < |cur| && cur[pt[p].cpu] == p)
    && (forall p {:trigger Slot(p)} :: Slot(p) && pt[p].state == ZOMBIE ==> 0 <= pt[p].cpu < |cur|)
  }

  lemma RunningLinks(pt: seq<Proc>, qt: seq<Proc>, cur: seq<int>)
    requires Running(pt, cur) && OnlyLinks(pt, qt)
    ensures Running(qt, cur)
  {
    assert forall p :: Slot(p) ==> qt[p].state == pt[p].state && qt[p].cpu == pt[p].cpu;
  }

  /** A process that does not run changes and still does not. */
  lemma RunningTouch(pt: seq<Proc>, cur: seq<int>, p: int, q: Proc)
    requires Running(pt, cur) && Slot(p) && pt[p].state != RUNNING && q.state != RUNNING
    requires q.state == ZOMBIE ==> 0 <= q.cpu < |cur|
    ensures Running(pt[p := q], cur)
  {
  }

  /** The process on CPU c stops running. */
  lemma RunningLeft(pt: seq<Proc>, cur: seq<int>, c: nat, q: Proc)
    requires Running(pt, cur) && c < |cur| && cur[c] != NULL && q.state != RUNNING
    requires q.state == ZOMBIE ==> 0 <= q.cpu < |cur|
    ensures Running(pt[cur[c] := q], cur[c := NULL])
  {
  }

  /** A process of CPU c starts to run there. */
  lemma RunningTook(pt: seq<Proc>, cur: seq<int>, c: nat, p: int, q: Proc)
    requires Running(pt, cur) && c < |cur| && cur[c] == NULL && Slot(p) && pt[p].state != RUNNING
    requires q.state == RUNNING && q.cpu == c
    ensures Running(pt[p := q], cur[c := p])
  {
  }

  lemma RunningWakes(pt: seq<Proc>, qt: seq<Proc>, cur: seq<int>)
    requires Running(pt, cur) && OnlyWakes(pt, qt)
    ensures Running(qt, cur)
  {
    assert forall p :: Slot(p) ==> Lightly(pt[p], qt[p]);
  }

  lemma KinsWoken(pt: seq<Proc>, qt: seq<Proc>, chan: int)
    requires |pt| == NPROC && OnlyLinks(WokenTable(pt, chan, NPROC), qt)
    ensures AllWoken(Kins(pt), Kins(qt), chan) && OnlyWakes(pt, qt)
  {
    var w := WokenTable(pt, chan, NPROC);
    forall p | Slot(p) ensures KinOf(qt[p]) == KinOf(w[p]) && Lightly(pt[p], qt[p]) {
      assert qt[p] == w[p].(next := qt[p].next);
    }
  }

  lemma RunningAged(pt: seq<Proc>, qt: seq<Proc>, cur: seq<int>, ticks: int)
    requires Running(pt, cur) && OnlyLinks(AgedTable(pt, NPROC, ticks), qt)
    ensures Running(qt, cur)
  {
    var w := AgedTable(pt, NPROC, ticks);
    assert Running(w, cur);
    RunningLinks(w, qt, cur);
  }

  lemma HasQueues(pt: seq<Proc>, rqs: seq<Rq>, ls: seq<Lists>, c: int)
    requires Inv(pt, rqs, ls, NULL) && 0 <= c < |ls|
    ensures |ls[c]| == QUEUES
  {
    assert Represents(pt, rqs[c], ls[c]);
  }

  /** kill acts on p, the first process with the pid. */
  ghost predicate Killed(pt: seq<Proc>, ls: seq<Lists>, p: int, pid: int, qt: seq<Proc>, ms: seq<Lists>)
    requires Slot(p) && |pt| == NPROC
  {
    var q := pt[p].(killed := true);
    && q.pid == pid && (forall i :: 0 <= i < p ==> pt[i].pid != pid)
    && if q.state == SLEEPING then
         && HasLists(ls, q) && OnlyLinks(pt[p := q.(state := RUNNABLE)], qt)
         && ms == AppendTo(ls, q.cpu, QueueIndex(q.priority), p)
       else qt == pt[p := q] && ms == ls
  }

  // ---- exit ----

  /** The processes exit wakes are of priority 0 or 5. */
  ghost predicate MayExit(pt: seq<Proc>, me: int, init: int)
    requires |pt| == NPROC && Slot(me)
  {
    Wakeable(pt, pt[me].parent) && (OrphanZombie(Kins(pt), me, NPROC) ==> Wakeable(pt, init))
  }

  predicate BoostedOn(q: Proc, chan: int) { SleepsOn(q, chan) && Boosted(q) }

  /** If the first wakeup boosted nobody, the second would boost whom it would have before. */
  lemma StillWakeable(pt: seq<Proc>, w: seq<Proc>, me: int, init: int, chan: int)
    requires |pt| == NPROC && AllWoken(Kins(pt), Kins(w), chan) && OnlyWakes(pt, w) && Wakeable(pt, chan)
    ensures OrphanZombie(Kins(w), me, NPROC) == OrphanZombie(Kins(pt), me, NPROC)
    ensures Wakeable(w, init) <==> Wakeable(pt, init)
  {
    WakingKeepsZombies(Kins(pt), Kins(w), chan, me, NPROC);
    forall p | Slot(p)
      ensures BoostedOn(pt[p], init) <==> BoostedOn(w[p], init)
    {
      assert Lightly(pt[p], w[p]) && Kins(w)[p] == KinOf(w[p]) && Kins(pt)[p] == KinOf(pt[p]);
    }
  }

  /** While the children are handed over, init's sleepers are those there were until a zombie
      has been handed over, and none from then on. */
  lemma AdoptingWakeable(pt: seq<Proc>, qt: seq<Proc>, me: int, init: int, n: nat)
    requires AllAdopted(Kins(pt), Kins(qt), me, init, n) && OnlyWakes(pt, qt)
    ensures Wakeable(qt, init) <==> OrphanZombie(Kins(pt), me, n) || Wakeable(pt, init)
  {
    forall p | Slot(p) ensures SleepsOn(qt[p], init) <==> SleepsOn(pt[p], init) && !OrphanZombie(Kins(pt), me, n) {
      assert Kins(qt)[p] == Adopted(Kins(pt), me, init, n, p) && Kins(qt)[p] == KinOf(qt[p]);
    }
    forall p | Slot(p) && SleepsOn(qt[p], init) ensures qt[p].priority == pt[p].priority {
      assert Lightly(pt[p], qt[p]);
    }
  }

  lemma OrphanHere(pt: seq<Kin>, me: int, i: nat, n: nat)
    requires i < n <= |pt| && pt[i].parent == me && pt[i].state == ZOMBIE
    ensures OrphanZombie(pt, me, n)
  {
    OrphanZombieExists(pt, me, n);
  }

  /** The child whose turn it is still has its parent and, if it has exited, its state. */
  lemma ChildKept(pt: seq<Kin>, r: seq<Kin>, me: int, init: int, i: nat)
    requires i < NPROC && AllAdopted(pt, r, me, init, i)
    ensures r[i].parent == pt[i].parent && (r[i].state == ZOMBIE <==> pt[i].state == ZOMBIE)
    ensures pt[i].parent == me && pt[i].state == ZOMBIE ==> OrphanZombie(pt, me, NPROC)
  {
    assert r[i] == Adopted(pt, me, init, i, i);
    if pt[i].parent == me && pt[i].state == ZOMBIE {
      OrphanHere(pt, me, i, NPROC);
    }
  }

  lemma AdoptEffect(pt: seq<Proc>, t: seq<Proc>, u: seq<Proc>, i: nat, init: int)
    requires |pt| == NPROC && Slot(i) && t == pt[i := pt[i].(parent := init)]
    requires if pt[i].state == ZOMBIE then OnlyLinks(WokenTable(t, init, NPROC), u) else u == t
    ensures OneAdopted(Kins(pt), Kins(u), i, init) && OnlyWakes(pt, u)
  {
    if pt[i].state == ZOMBIE {
      KinsWoken(t, u, init);
    }
    OnlyWakesTrans(pt, t, u);
  }

  /** Full and Endless: rq_add panics, or rq_remove never ends. */
  datatype ExitResult = Exited | Full | Endless

  // ---- the queues with knots ----

  /** exit has handed over the children in the first n slots of table pt. */
  ghost predicate Adopting(sh: Shadow, pt: seq<Proc>, y: Shadow, qt: seq<Proc>, qs: seq<Rq>, me: int, init: int, n: nat)
    requires |pt| == NPROC && n <= NPROC
  {
    && Shadows(y, qt, qs) && |qs| == |sh.ks| && OnlyWakes(pt, qt) && AllAdopted(Kins(pt), Kins(qt), me, init, n)
    && (NoKnots(y.ks) <==> NoKnots(sh.ks) && (OrphanZombie(Kins(pt), me, n) ==> Wakeable(pt, init)))
  }

  lemma AdoptingNone(sh: Shadow, pt: seq<Proc>, rqs: seq<Rq>, me: int, init: int)
    requires Shadows(sh, pt, rqs)
    ensures |pt| == NPROC && Adopting(sh, pt, sh, pt, rqs, me, init, 0)
  {
    forall p | Slot(p) ensures Kins(pt)[p] == Adopted(Kins(pt), me, init, 0, p) && Lightly(pt[p], pt[p]) {
    }
    assert AllAdopted(Kins(pt), Kins(pt), me, init, 0) && OnlyWakes(pt, pt);
  }

  /** The list of a sleeper's priority, before a boost. */
  lemma BoostLeads(y: Shadow, pt: seq<Proc>, rqs: seq<Rq>, i: int)
    requires Shadows(y, pt, rqs) && Slot(i) && pt[i].state == SLEEPING && Boosted(pt[i])
    ensures 0 <= pt[i].cpu < |rqs| == |y.ls| && 0 < pt[i].priority <= 10 && |y.ls[pt[i].cpu]| == QUEUES
    ensures var c, j := pt[i].cpu, pt[i].priority;
            && i !in y.ls[c][j] && Distinct(y.ls[c][j]) && Shaped(pt, rqs[c])
            && Leads(pt[i := pt[i].(state := RUNNABLE)], rqs[c].head[j], y.ls[c][j], false)
  {
    assert SameProc(y, pt, i);
    SleeperApart(y, i);
    var c, j := pt[i].cpu, pt[i].priority;
    ShadowLeads(y, pt, rqs, c, j);
    NotIn(y.ls[c], j, i);
    LeadsTouched(pt, i, pt[i].(state := RUNNABLE), rqs[c].head[j], y.ls[c][j]);
  }

  /** A record that is not among s changes. */
  lemma LeadsTouched(pt: seq<Proc>, p: int, q: Proc, head: int, s: seq<int>)
    requires |pt| == NPROC && Slot(p) && p !in s && Leads(pt, head, s, false)
    ensures Leads(pt[p := q], head, s, false)
  {
    var qt := pt[p := q];
    forall k | 0 <= k < |s| ensures Links(qt, s, k, false) {
      assert Links(pt, s, k, false);
    }
  }

  /** What wakeup1 does to the table, whatever becomes of the queues. */
  lemma ScannedTable(sh: Shadow, pt: seq<Proc>, rqs: seq<Rq>, chan: int, y: Shadow, qt: seq<Proc>, qs: seq<Rq>)
    requires Shadows(sh, pt, rqs) && Scanned(sh, rqs, chan, NPROC, y, qt, qs)
    ensures OnlyLinks(pt, sh.pt) && OnlyLinks(WokenTable(pt, chan, NPROC), qt)
    ensures NoKnots(y.ks) <==> NoKnots(sh.ks) && Wakeable(pt, chan)
  {
    forall x | Slot(x) ensures sh.pt[x] == pt[x].(next := sh.pt[x].next) {
      assert SameProc(sh, pt, x);
    }
    var v, w := WokenTable(sh.pt, chan, NPROC), WokenTable(pt, chan, NPROC);
    forall x | Slot(x) ensures qt[x] == w[x].(next := qt[x].next) {
      assert SameProc(y, qt, x) && y.pt[x] == v[x].(next := y.pt[x].next);
    }
    KnotsGrow(sh, rqs, chan, y, qs);
  }

  /** CPU c has no knot and gets none. */
  ghost predicate StaysClear(sh: Shadow, chan: int, c: int)
    requires |sh.pt| == NPROC && 0 <= c < |sh.ks|
  {
    sh.ks[c].extra == 0 && NoneBoosted(sh.pt, chan, c)
  }

  lemma KnotsGrow(sh: Shadow, rqs: seq<Rq>, chan: int, y: Shadow, qs: seq<Rq>)
    requires Inv(sh.pt, sh.rqs, sh.ls, NULL) && |rqs| == |qs| == |sh.ks| == |y.ks| == |sh.ls|
    requires forall c :: 0 <= c < |rqs| ==> Tallied(sh, rqs, chan, NPROC, y, qs, c)
    ensures NoKnots(y.ks) <==> NoKnots(sh.ks) && Wakeable(sh.pt, chan)
  {
    WakeableIff(sh.pt, sh.rqs, sh.ls, chan);
    forall c | 0 <= c < |rqs|
      ensures y.ks[c].extra == 0 <==> StaysClear(sh, chan, c)
    {
      assert Tallied(sh, rqs, chan, NPROC, y, qs, c);
      BoostsIff(sh.pt, chan, c, NPROC);
    }
    assert NoKnots(y.ks) <==> forall c :: 0 <= c < |rqs| ==> StaysClear(sh, chan, c);
    if NoKnots(y.ks) {
      forall c | 0 <= c < |rqs| ensures sh.ks[c].extra == 0 && NoneBoosted(sh.pt, chan, c) {
        assert StaysClear(sh, chan, c);
      }
    }
  }

  /** A process gets another parent. */
  lemma ShadowAmended(sh: Shadow, pt: seq<Proc>, rqs: seq<Rq>, p: int, parent: int)
    requires Shadows(sh, pt, rqs) && Slot(p)
    ensures Shadows(sh.(pt := sh.pt[p := sh.pt[p].(parent := parent)]), pt[p := pt[p].(parent := parent)], rqs)
  {
    hide Represents, Placed, Ready;
    var y, qt := sh.(pt := sh.pt[p := sh.pt[p].(parent := parent)]), pt[p := pt[p].(parent := parent)];
    TouchInPlace(sh.pt, sh.rqs, sh.ls, p, sh.pt[p].(parent := parent));
    forall c | 0 <= c < |rqs| ensures SameQueue(y, rqs, c) {
      assert SameQueue(sh, rqs, c);
    }
    forall x | Slot(x) ensures SameProc(y, qt, x) {
      assert SameProc(sh, pt, x);
    }
  }

  /** A process that runs becomes a zombie. */
  lemma ShadowGone(sh: Shadow, pt: seq<Proc>, rqs: seq<Rq>, p: int)
    requires Shadows(sh, pt, rqs) && Slot(p) && pt[p].state == RUNNING
    ensures sh.pt[p].state == RUNNING && NowhereQueued(sh.ls, p) && 0 <= pt[p].priority <= 10
    ensures Shadows(sh.(pt := sh.pt[p := sh.pt[p].(state := ZOMBIE)]), pt[p := pt[p].(state := ZOMBIE)], rqs)
  {
    var y, qt := sh.(pt := sh.pt[p := sh.pt[p].(state := ZOMBIE)]), pt[p := pt[p].(state := ZOMBIE)];
    assert SameProc(sh, pt, p);
    TouchUnqueued(sh.pt, sh.rqs, sh.ls, NULL, p, sh.pt[p].(state := ZOMBIE));
    forall c | 0 <= c < |rqs| ensures SameQueue(y, rqs, c) {
      assert SameQueue(sh, rqs, c);
    }
    forall x | Slot(x) ensures SameProc(y, qt, x) {
      assert SameProc(sh, pt, x);
    }
  }

  /** Where the links of list i of CPU c lead. */
  lemma ShadowLeads(sh: Shadow, pt: seq<Proc>, rqs: seq<Rq>, c: int, i: int)
    requires Shadows(sh, pt, rqs) && 0 <= c < |rqs| && 0 <= i < QUEUES
    ensures Shaped(pt, rqs[c]) && |sh.ls[c]| == QUEUES && Distinct(sh.ls[c][i])
    ensures Leads(pt, rqs[c].head[i], sh.ls[c][i], i == 0 && sh.ks[c].tied)
  {
    ShapedToo(sh, pt, rqs);
    assert SameQueue(sh, rqs, c) && Represents(sh.pt, sh.rqs[c], sh.ls[c]) && Placed(sh.pt, sh.ls[c], c);
    var s := sh.ls[c][i];
    assert ListIs(sh.pt, rqs[c].head[i], rqs[c].tail[i], s);
    var tied := i == 0 && sh.ks[c].tied;
    forall k | 0 <= k < |s| ensures Links(pt, s, k, tied) {
      LinkOf(sh, pt, rqs, c, i, k);
      assert Follows(sh.pt, s, k);
    }
  }

  /** The record wait leaves in a reaped slot. */
  function Cleared(q: Proc): Proc {
    q.(state := UNUSED, pid := 0, parent := NULL, killed := false)
  }

  /** The record allocproc makes. */
  function Born(q: Proc, pid: int, ticks: int): Proc {
    q.(state := EMBRYO, pid := pid, priority := 5, waitTicks := 0, next := NULL, creation := ticks, cpu := -1)
  }

  /** The number of processes queued on each CPU. */
  function Counts(rqs: seq<Rq>): (l: seq<int>)
    ensures |l| == |rqs|
  {
    seq(|rqs|, d requires 0 <= d < |rqs| => rqs[d].count)
  }

  class System {
    const k: Kernel
    const initproc: int
    var current: seq<int>     // c->proc
    var nextpid: int

    ghost predicate Valid()
      reads this, k
    {
      && Slot(initproc) && k.Valid(NULL)
      && |current| == |k.lists| && Running(k.ptable, current)
    }

    /** pinit on `cpus` processors. */
    constructor (cpus: nat, init: int)
      requires 0 < cpus && Slot(init)
      ensures Valid() && fresh(k) && |current| == cpus
      ensures forall p :: Slot(p) ==> k.ptable[p].state == UNUSED
    {
      k := new Kernel(cpus);
      initproc := init;
      current := seq(cpus, _ => NULL);
      nextpid := 1;
    }

    /** allocproc; NULL if every slot is taken. */
    method AllocProc() returns (p: int)
      requires Valid()
      modifies this`nextpid, k`ptable
      ensures Valid()
      ensures p == NULL ==> k.ptable == old(k.ptable) && nextpid == old(nextpid)
      ensures p == NULL ==> forall i :: Slot(i) ==> k.ptable[i].state != UNUSED
      ensures p != NULL ==>
                && Slot(p) && old(k.ptable)[p].state == UNUSED
                && (forall i :: 0 <= i < p ==> old(k.ptable)[i].state != UNUSED)
                && k.ptable == old(k.ptable)[p := Born(old(k.ptable)[p], old(nextpid), k.ticks)]
                && nextpid == old(nextpid) + 1
      ensures p != NULL ==>
                && k.ptable[p].state == EMBRYO && k.ptable[p].pid == old(nextpid) && k.ptable[p].priority == 5
                && k.ptable[p].waitTicks == 0 && k.ptable[p].creation == k.ticks && k.ptable[p].cpu == -1
    {
      var i := 0;
      while i < NPROC && k.ptable[i].state != UNUSED
        invariant 0 <= i <= NPROC
        invariant forall j :: 0 <= j < i ==> k.ptable[j].state != UNUSED
      {
        i := i + 1;
      }
      if i == NPROC {
        return NULL;
      }
      var q := Born(k.ptable[i], nextpid, k.ticks);
      RunningTouch(k.ptable, current, i, q);
      k.Become(i, q, NULL);
      nextpid := nextpid + 1;
      p := i;
    }

    /** allocproc or fork gives an embryo back when memory runs out. */
    method Abandon(p: int)
      requires Valid() && Slot(p) && k.ptable[p].state == EMBRYO
      modifies k`ptable
      ensures Valid() && k.ptable == old(k.ptable)[p := old(k.ptable)[p].(state := UNUSED)]
    {
      RunningTouch(k.ptable, current, p, k.ptable[p].(state := UNUSED));
      k.Become(p, k.ptable[p].(state := UNUSED), NULL);
    }

    /** fork's choice of a CPU: the first with the fewest processes queued. */
    method ChooseCpu() returns (target: nat)
      requires Valid()
      ensures FirstLeast(Counts(k.rqs), NPROC, target)
      ensures target < |k.rqs|
      ensures forall d :: 0 <= d < |k.rqs| && k.rqs[d].count < NPROC ==>
                k.rqs[target].count < k.rqs[d].count || (k.rqs[target].count == k.rqs[d].count && target <= d)
    {
      var min := NPROC;
      target := 0;
      for i := 0 to |k.rqs|
        invariant LeastSoFar(Counts(k.rqs), NPROC, i, target, min)
      {
        assert Counts(k.rqs)[i] == k.rqs[i].count;
        if k.rqs[i].count < min {
          min := k.rqs[i].count;
          target := i;
        }
      }
      assert FirstLeast(Counts(k.rqs), NPROC, target);
      forall d | 0 <= d < |k.rqs| && k.rqs[d].count < NPROC
        ensures k.rqs[target].count < k.rqs[d].count || (k.rqs[target].count == k.rqs[d].count && target <= d)
      {
        FirstLeastWins(Counts(k.rqs), NPROC, target, d);
        assert Counts(k.rqs)[d] == k.rqs[d].count && Counts(k.rqs)[target] == k.rqs[target].count;
      }
    }

    /** A process in no list becomes RUNNABLE with record q and joins the back of its list. */
    method MakeReady(p: int, q: Proc)
      requires Valid() && Slot(p) && k.ptable[p].state !in {RUNNABLE, RUNNING}
      requires q.state == RUNNABLE && 0 <= q.priority <= 10 && 0 <= q.cpu < |current|
      modifies k`ptable, k`rqs, k`lists
      ensures Valid() && OnlyLinks(old(k.ptable)[p := q], k.ptable)
      ensures |old(k.lists)[q.cpu]| == QUEUES && k.lists == AppendTo(old(k.lists), q.cpu, QueueIndex(q.priority), p)
    {
      ghost var pt := k.ptable[p := q];
      HasQueues(k.ptable, k.rqs, k.lists, q.cpu);
      RunningTouch(k.ptable, current, p, q);
      k.Become(p, q, NULL);
      k.RqAdd(p);
      RunningLinks(pt, k.ptable, current);
    }

    /** The last critical section of fork: the child becomes RUNNABLE on the chosen CPU. */
    method ForkCommit(np: int, parent: int) returns (c: nat)
      requires Valid() && Slot(np) && k.ptable[np].state == EMBRYO
      modifies k`ptable, k`rqs, k`lists
      ensures Valid() && FirstLeast(Counts(old(k.rqs)), NPROC, c)
      ensures var q := old(k.ptable)[np].(state := RUNNABLE, parent := parent, cpu := c);
              && OnlyLinks(old(k.ptable)[np := q], k.ptable)
              && |old(k.lists)[c]| == QUEUES
              && k.lists == AppendTo(old(k.lists), c, QueueIndex(q.priority), np)
    {
      c := ChooseCpu();
      MakeReady(np, k.ptable[np].(state := RUNNABLE, parent := parent, cpu := c));
    }

    /** yield, up to the switch back into the scheduler. */
    method Yield(c: nat)
      requires Valid() && c < |current| && current[c] != NULL
      modifies this`current, k`ptable, k`rqs, k`lists
      ensures Valid() && current == old(current)[c := NULL]
      ensures var p, q := old(current)[c], old(k.ptable)[old(current)[c]].(state := RUNNABLE);
              && OnlyLinks(old(k.ptable)[p := q], k.ptable)
              && |old(k.lists)[c]| == QUEUES
              && k.lists == AppendTo(old(k.lists), c, QueueIndex(q.priority), p)
    {
      var p := current[c];
      var q := k.ptable[p].(state := RUNNABLE);
      ghost var pt := k.ptable[p := q];
      HasQueues(k.ptable, k.rqs, k.lists, c);
      RunningLeft(k.ptable, current, c, q);
      k.Become(p, q, NULL);
      k.RqAdd(p);
      current := current[c := NULL];
      RunningLinks(pt, k.ptable, current);
    }

    /** Leave the processor with record q; the rq_remove finds nothing to remove. */
    method Leave(c: nat, q: Proc)
      requires Valid() && c < |current| && current[c] != NULL && q.state in {SLEEPING, ZOMBIE}
      requires q.cpu == k.ptable[current[c]].cpu && q.priority == k.ptable[current[c]].priority
      modifies this`current, k`ptable, k`rqs, k`lists
      ensures Valid() && current == old(current)[c := NULL]
      ensures k.ptable == old(k.ptable)[old(current)[c] := q] && k.lists == old(k.lists)
    {
      var p := current[c];
      RunningLeft(k.ptable, current, c, q);
      k.Become(p, q, NULL);
      k.RqRemove(p, NULL);
      current := current[c := NULL];
    }

    /** sleep, up to the switch. */
    method Sleep(c: nat, chan: int)
      requires Valid() && c < |current| && current[c] != NULL
      modifies this`current, k`ptable, k`rqs, k`lists
      ensures Valid() && current == old(current)[c := NULL] && k.lists == old(k.lists)
      ensures var p := old(current)[c];
              k.ptable == old(k.ptable)[p := old(k.ptable)[p].(state := SLEEPING, chan := chan)]
    {
      Leave(c, k.ptable[current[c]].(state := SLEEPING, chan := chan));
    }

    /** wakeup1: it performs what Scan describes, so every process asleep on the channel becomes
        RUNNABLE, and it panics exactly if a queue overflows. The queues stand for lists
        afterwards if and only if the sleepers are of priority 0 or 5; then each has joined the
        back of its list. */
    method Wakeup(chan: int) returns (ok: bool)
      requires Valid()
      modifies k`ptable, k`rqs, k`lists
      ensures AllShaped(old(k.ptable), old(k.rqs))
      ensures !ok <==> Overflows(old(k.ptable), old(k.rqs), chan, NPROC)
      ensures ok ==> Scan(old(k.ptable), old(k.rqs), chan, NPROC) == Some((k.ptable, k.rqs))
      ensures ok ==> OnlyLinks(WokenTable(old(k.ptable), chan, NPROC), k.ptable) && Running(k.ptable, current)
      ensures (ok && exists ls :: AllRepresent(k.ptable, k.rqs, ls)) <==> Wakeable(old(k.ptable), chan)
      ensures Wakeable(old(k.ptable), chan) ==>
                ok && Valid() && k.lists == WokenLists(old(k.lists), old(k.ptable), chan, NPROC)
    {
      ghost var pt, rqs, sh := k.ptable, k.rqs, Unknotted(k.ptable, k.rqs, k.lists);
      UnknottedShadows(pt, rqs, k.lists);
      ghost var y;
      ok, y := WakeAll(chan, sh);
      WakeupKeepsQueuesIff(pt, rqs, k.lists, chan);
      if ok {
        ScannedTable(sh, pt, rqs, chan, y, k.ptable, k.rqs);
        KnotsIff(y, k.ptable, k.rqs);
        KinsWoken(pt, k.ptable, chan);
        RunningWakes(pt, k.ptable, current);
        k.lists := y.ls;
      }
    }

    /** The loop of wakeup1, on queues with or without knots. */
    method WakeAll(chan: int, ghost sh: Shadow) returns (ok: bool, ghost y: Shadow)
      requires Shadows(sh, k.ptable, k.rqs)
      modifies k`ptable, k`rqs
      ensures AllShaped(old(k.ptable), old(k.rqs))
      ensures !ok <==> Overflows(sh.pt, old(k.rqs), chan, NPROC)
      ensures ok <==> Scan(old(k.ptable), old(k.rqs), chan, NPROC).Some?
      ensures ok ==> Scan(old(k.ptable), old(k.rqs), chan, NPROC) == Some((k.ptable, k.rqs))
      ensures ok ==> Scanned(sh, old(k.rqs), chan, NPROC, y, k.ptable, k.rqs)
    {
      ghost var pt, rqs := k.ptable, k.rqs;
      y := ScanShadow(sh, pt, rqs, chan, 0);
      var i: nat := 0;
      while i < NPROC
        invariant i <= NPROC && Scan(pt, rqs, chan, i) == Some((k.ptable, k.rqs))
        invariant Scanned(sh, rqs, chan, i, y, k.ptable, k.rqs)
      {
        ok := WakeTurn(i, chan, y);
        y := ScanShadow(sh, pt, rqs, chan, i + 1);
        if !ok {
          ScanStops(pt, rqs, chan, i + 1, NPROC);
          y := ScanShadow(sh, pt, rqs, chan, NPROC);
          return;
        }
        i := i + 1;
      }
      ok := true;
      y := ScanShadow(sh, pt, rqs, chan, NPROC);
    }

    /** One turn of wakeup1. */
    method WakeTurn(i: nat, chan: int, ghost y: Shadow) returns (ok: bool)
      requires Shadows(y, k.ptable, k.rqs) && i < NPROC
      modifies k`ptable, k`rqs
      ensures AllShaped(old(k.ptable), old(k.rqs))
      ensures ok <==> Turn(old(k.ptable), old(k.rqs), chan, i).Some?
      ensures ok ==> Turn(old(k.ptable), old(k.rqs), chan, i) == Some((k.ptable, k.rqs))
    {
      ShapedToo(y, k.ptable, k.rqs);
      if !(k.ptable[i].state == SLEEPING && k.ptable[i].chan == chan) {
        return true;
      }
      assert Slot(i) && SameProc(y, k.ptable, i);
      SleeperApart(y, i);
      var c := k.ptable[i].cpu;
      if k.ptable[i].priority > 0 && k.ptable[i].priority != 5 {
        ok := WakeBoosted(i, c, y);
      } else {
        k.ptable := k.ptable[i := k.ptable[i].(state := RUNNABLE)];
        ok := k.TryAdd(c, i);
      }
    }

    /** The boost: the rq_remove finds nothing to remove, and the process is added twice. */
    method WakeBoosted(i: nat, c: int, ghost y: Shadow) returns (ok: bool)
      requires Shadows(y, k.ptable, k.rqs) && Slot(i) && 0 <= c < |k.rqs| && c == k.ptable[i].cpu
      requires k.ptable[i].state == SLEEPING && Boosted(k.ptable[i]) && Shaped(k.ptable, k.rqs[c])
      modifies k`ptable, k`rqs
      ensures ok <==> WokenUp(old(k.ptable), old(k.rqs[c]), i).Some?
      ensures ok ==>
                var (qt, q) := WokenUp(old(k.ptable), old(k.rqs[c]), i).value;
                k.ptable == qt && k.rqs == old(k.rqs)[c := q]
    {
      hide Shadows, Leads;
      ghost var pt := k.ptable;
      BoostLeads(y, pt, k.rqs, i);
      var j := k.ptable[i].priority;
      k.ptable := k.ptable[i := k.ptable[i].(state := RUNNABLE)];
      var found, prev, endless := k.FindBefore(c, j, i, y.ls[c][j], false);
      assert !found && !endless;
      k.ptable := k.ptable[i := k.ptable[i].(priority := 0)];
      assert k.ptable == pt[i := Awake(pt[i])];
      ok := k.TryAdd(c, i);
      if ok {
        ok := k.TryAdd(c, i);
      }
    }

    /** exit: wake the parent, hand the children to init, become a zombie. The queues stand for
        lists afterwards if and only if all processes woken are of priority 0 or 5. Where they
        do not, a queue may overflow, and the last rq_remove does not end if it walks a list
        that ends in a loop. */
    method Exit(c: nat) returns (r: ExitResult)
      requires Valid() && c < |current| && current[c] != NULL && current[c] != initproc
      modifies this`current, k`ptable, k`rqs, k`lists
      ensures (r.Exited? && exists ls :: AllRepresent(k.ptable, k.rqs, ls))
              <==> MayExit(old(k.ptable), old(current)[c], initproc)
      ensures MayExit(old(k.ptable), old(current)[c], initproc) ==> r.Exited? && Valid()
      ensures r.Exited? ==>
                && current == old(current)[c := NULL] && Running(k.ptable, current)
                && |k.ptable| == NPROC
                && (forall p :: Slot(p) ==>
                      KinOf(k.ptable[p]) == AfterExit(Kins(old(k.ptable)), old(current)[c], initproc, p))
                && OnlyWakes(old(k.ptable), k.ptable[old(current)[c] := k.ptable[old(current)[c]].(state := RUNNING)])
      ensures r.Endless? ==> old(k.ptable)[old(current)[c]].priority == 0
                             && exists x :: Slot(x) && |k.ptable| == NPROC && k.ptable[x].next == x
    {
      var me := current[c];
      ghost var pt := k.ptable;
      var ok, y := LetGo(me);
      if !ok {
        return Full;
      }
      var endless := Vanish(c, y, pt);
      if endless {
        return Endless;
      }
      r := Exited;
    }

    /** The end of exit: the process becomes a zombie, and the rq_remove looks for it in the list
        of its priority, where it is not. */
    method Vanish(c: nat, ghost y: Shadow, ghost pt: seq<Proc>) returns (endless: bool)
      requires Slot(initproc) && Shadows(y, k.ptable, k.rqs) && Running(k.ptable, current) && |current| == |k.rqs|
      requires c < |current| && current[c] != NULL && OnlyWakes(pt, k.ptable)
      modifies this`current, k`ptable, k`lists
      ensures endless <==> old(k.ptable)[old(current)[c]].priority == 0 && y.ks[c].tied
      ensures endless ==> !NoKnots(y.ks)
      ensures endless ==> exists x :: Slot(x) && |k.ptable| == NPROC && k.ptable[x].next == x
      ensures !endless ==>
                && current == old(current)[c := NULL] && Running(k.ptable, current)
                && k.ptable == old(k.ptable)[old(current)[c] := old(k.ptable)[old(current)[c]].(state := ZOMBIE)]
                && ((exists ls :: AllRepresent(k.ptable, k.rqs, ls)) <==> NoKnots(y.ks))
                && (NoKnots(y.ks) ==> Valid())
    {
      var me := current[c];
      ghost var qt := k.ptable;
      var i := QueueIndex(k.ptable[me].priority);
      ShadowGone(y, qt, k.rqs, me);
      k.ptable := k.ptable[me := k.ptable[me].(state := ZOMBIE)];
      ghost var z := y.(pt := y.pt[me := y.pt[me].(state := ZOMBIE)]);
      ShadowLeads(z, k.ptable, k.rqs, c, i);
      NotIn(z.ls[c], i, me);
      var found, prev;
      found, prev, endless := k.FindBefore(c, i, me, z.ls[c][i], i == 0 && z.ks[c].tied);
      assert !found;
      if endless {
        assert SameQueue(z, k.rqs, c) && Links(k.ptable, z.ls[c][0], |z.ls[c][0]| - 1, true);
      } else {
        ghost var rt, rqs := k.ptable, k.rqs;
        RunningLeft(qt, current, c, qt[me].(state := ZOMBIE));
        KnotsIff(z, rt, rqs);
        current := current[c := NULL];
        k.lists := z.ls;
        assert k.ptable == rt && k.rqs == rqs && z.ks == y.ks;
      }
    }

    /** exit up to the state change: the parent is woken and the children handed to init. */
    method LetGo(me: int) returns (ok: bool, ghost y: Shadow)
      requires Valid() && Slot(me) && k.ptable[me].state == RUNNING
      modifies k`ptable, k`rqs
      ensures MayExit(old(k.ptable), me, initproc) ==> ok
      ensures ok ==> Shadows(y, k.ptable, k.rqs) && |k.rqs| == |current| && Running(k.ptable, current)
      ensures ok ==> (NoKnots(y.ks) <==> MayExit(old(k.ptable), me, initproc))
      ensures ok ==> OnlyWakes(old(k.ptable), k.ptable) && Exiting(Kins(old(k.ptable)), Kins(k.ptable), me, initproc)
    {
      ghost var pt, rqs, sh, chan := k.ptable, k.rqs, Unknotted(k.ptable, k.rqs, k.lists), k.ptable[me].parent;
      UnknottedShadows(pt, rqs, k.lists);
      WakeupKeepsQueuesIff(pt, rqs, k.lists, chan);
      ok, y := WakeAll(k.ptable[me].parent, sh);
      if !ok {
        return;
      }
      ghost var w := k.ptable;
      ScannedTable(sh, pt, rqs, chan, y, w, k.rqs);
      KinsWoken(pt, w, chan);
      if Wakeable(pt, chan) {
        StillWakeable(pt, w, me, initproc, chan);
      }
      ok, y := Reparent(me, y);
      if ok {
        OnlyWakesTrans(pt, w, k.ptable);
        ExitEffect(Kins(pt), Kins(w), Kins(k.ptable), me, initproc);
        RunningWakes(pt, k.ptable, current);
      }
    }

    /** The reparenting loop of exit. */
    method Reparent(me: int, ghost sh: Shadow) returns (ok: bool, ghost y: Shadow)
      requires Shadows(sh, k.ptable, k.rqs) && Slot(me) && Slot(initproc)
      modifies k`ptable, k`rqs
      ensures NoKnots(sh.ks) && (OrphanZombie(Kins(old(k.ptable)), me, NPROC) ==> Wakeable(old(k.ptable), initproc))
              ==> ok
      ensures ok ==> Adopting(sh, old(k.ptable), y, k.ptable, k.rqs, me, initproc, NPROC)
    {
      hide Shadows, Adopting;
      ghost var pt := k.ptable;
      AdoptingNone(sh, pt, k.rqs, me, initproc);
      y := sh;
      var i: nat := 0;
      while i < NPROC
        invariant i <= NPROC && Adopting(sh, pt, y, k.ptable, k.rqs, me, initproc, i)
      {
        ok, y := AdoptTurn(i, me, pt, sh, y);
        if !ok {
          return;
        }
        i := i + 1;
      }
      ok := true;
    }

    /** One turn of that loop. */
    method AdoptTurn(i: nat, me: int, ghost pt: seq<Proc>, ghost sh: Shadow, ghost x: Shadow)
      returns (ok: bool, ghost y: Shadow)
      requires i < NPROC == |pt| && Slot(initproc) && Adopting(sh, pt, x, k.ptable, k.rqs, me, initproc, i)
      modifies k`ptable, k`rqs
      ensures NoKnots(sh.ks) && (OrphanZombie(Kins(pt), me, NPROC) ==> Wakeable(pt, initproc)) ==> ok
      ensures ok ==> Adopting(sh, pt, y, k.ptable, k.rqs, me, initproc, i + 1)
    {
      ghost var before := k.ptable;
      ChildKept(Kins(pt), Kins(before), me, initproc, i);
      AdoptingWakeable(pt, before, me, initproc, i);
      y := x;
      if k.ptable[i].parent == me {
        ok, y := Adopt(i, x);
        if !ok {
          return;
        }
      }
      ok := true;
      AdoptStep(Kins(pt), Kins(before), Kins(k.ptable), me, initproc, i);
      OnlyWakesTrans(pt, before, k.ptable);
    }

    /** One child passes to init; a zombie child wakes init. */
    method Adopt(i: nat, ghost x: Shadow) returns (ok: bool, ghost y: Shadow)
      requires Shadows(x, k.ptable, k.rqs) && Slot(i)
      modifies k`ptable, k`rqs
      ensures !ok ==> old(k.ptable)[i].state == ZOMBIE && !(NoKnots(x.ks) && Wakeable(old(k.ptable), initproc))
      ensures ok ==> Shadows(y, k.ptable, k.rqs) && |k.rqs| == |old(k.rqs)| && OnlyWakes(old(k.ptable), k.ptable)
      ensures ok ==> OneAdopted(Kins(old(k.ptable)), Kins(k.ptable), i, initproc)
      ensures ok ==> (NoKnots(y.ks) <==>
                NoKnots(x.ks) && (old(k.ptable)[i].state == ZOMBIE ==> Wakeable(old(k.ptable), initproc)))
    {
      ghost var pt := k.ptable;
      ShadowAmended(x, pt, k.rqs, i, initproc);
      k.ptable := k.ptable[i := k.ptable[i].(parent := initproc)];
      ghost var t, rqs, z := k.ptable, k.rqs, x.(pt := x.pt[i := x.pt[i].(parent := initproc)]);
      y, ok := z, true;
      if k.ptable[i].state == ZOMBIE {
        assert Wakeable(t, initproc) <==> Wakeable(pt, initproc);
        if NoKnots(z.ks) && Wakeable(t, initproc) {
          WakeableFits(z, t, rqs, initproc, NPROC);
        }
        ok, y := WakeAll(initproc, z);
        if !ok {
          return;
        }
        ScannedTable(z, t, rqs, initproc, y, k.ptable, k.rqs);
      }
      AdoptEffect(pt, t, k.ptable, i, initproc);
    }

    /** One pass of wait: reap the first zombie child, fail without children or when killed,
        otherwise go to sleep on the process's own channel. */
    method Wait(c: nat) returns (r: WaitResult)
      requires Valid() && c < |current| && current[c] != NULL
      modifies this`current, k`ptable, k`rqs, k`lists
      ensures Valid() && k.lists == old(k.lists)
      ensures var me := old(current)[c];
              match r
              case Reaped(z) => Slot(z) && FirstZombieChild(Kins(old(k.ptable)), me, z) && current == old(current)
                                && k.ptable == old(k.ptable)[z := Cleared(old(k.ptable)[z])]
              case NoChild => k.ptable == old(k.ptable) && current == old(current)
                              && ((forall p :: Slot(p) ==> k.ptable[p].parent != me) || k.ptable[me].killed)
              case Asleep => current == old(current)[c := NULL] && !old(k.ptable)[me].killed
                             && k.ptable == old(k.ptable)[me := old(k.ptable)[me].(state := SLEEPING, chan := me)]
      ensures !r.Reaped? ==>
                forall p :: Slot(p) && old(k.ptable)[p].parent == old(current)[c] ==> old(k.ptable)[p].state != ZOMBIE
      ensures r.Reaped? ==>
                var q := k.ptable[r.p];
                && q.state == UNUSED && q.pid == 0 && q.parent == NULL && !q.killed
                && (old(k.ptable)[r.p].pid != 0
                    && (forall x :: Slot(x) && x != r.p ==> old(k.ptable)[x].pid != old(k.ptable)[r.p].pid) ==>
                      forall x :: Slot(x) ==> k.ptable[x].pid != old(k.ptable)[r.p].pid)
    {
      var me := current[c];
      var i, havekids := FindZombie(me);
      if i < NPROC {
        Reap(i);
        return Reaped(i);
      }
      if !havekids || k.ptable[me].killed {
        return NoChild;
      }
      Sleep(c, me);
      return Asleep;
    }

    /** The scan of wait; NPROC if no child is a zombie. */
    method FindZombie(me: int) returns (i: nat, havekids: bool)
      requires Valid()
      ensures i <= NPROC && (i < NPROC ==> FirstZombieChild(Kins(k.ptable), me, i))
      ensures i == NPROC ==> forall p :: Slot(p) && k.ptable[p].parent == me ==> k.ptable[p].state != ZOMBIE
      ensures i == NPROC && !havekids ==> forall p :: Slot(p) ==> k.ptable[p].parent != me
    {
      havekids := false;
      i := 0;
      while i < NPROC && !(k.ptable[i].parent == me && k.ptable[i].state == ZOMBIE)
        invariant 0 <= i <= NPROC
        invariant forall p :: 0 <= p < i && k.ptable[p].parent == me ==> k.ptable[p].state != ZOMBIE
        invariant !havekids ==> forall p :: 0 <= p < i ==> k.ptable[p].parent != me
      {
        if k.ptable[i].parent == me {
          havekids := true;
        }
        i := i + 1;
      }
    }

    /** A zombie's slot is cleared; the rq_remove finds nothing to remove. */
    method Reap(i: nat)
      requires Valid() && Slot(i) && k.ptable[i].state == ZOMBIE
      modifies k`ptable, k`rqs, k`lists
      ensures Valid() && k.lists == old(k.lists) && k.ptable == old(k.ptable)[i := Cleared(old(k.ptable)[i])]
    {
      RunningTouch(k.ptable, current, i, Cleared(k.ptable[i]));
      k.Become(i, Cleared(k.ptable[i]), NULL);
      k.RqRemove(i, NULL);
    }

    /** kill: the first process with the pid; false stands for -1. */
    method Kill(pid: int) returns (found: bool)
      requires Valid()
      modifies k`ptable, k`rqs, k`lists
      ensures Valid()
      ensures !found ==> k.ptable == old(k.ptable) && k.lists == old(k.lists)
      ensures !found ==> forall i :: Slot(i) ==> k.ptable[i].pid != pid
      ensures found ==>
                exists p {:trigger Slot(p)} ::
                  Slot(p) && Killed(old(k.ptable), old(k.lists), p, pid, k.ptable, k.lists)
      ensures found ==>
                exists p {:trigger Slot(p)} :: Slot(p) && old(k.ptable)[p].pid == pid
                  && (forall i :: 0 <= i < p ==> old(k.ptable)[i].pid != pid)
                  && k.ptable[p].killed && k.ptable[p].state != SLEEPING
                  && (k.ptable[p].state != old(k.ptable)[p].state ==>
                        old(k.ptable)[p].state == SLEEPING && k.ptable[p].state == RUNNABLE)
    {
      var i := FindPid(pid);
      if i == NPROC {
        return false;
      }
      found := true;
      assert Slot(i);
      MarkKilled(i, pid);
    }

    /** What kill does to the process it found. */
    method MarkKilled(i: nat, pid: int)
      requires Valid() && Slot(i) && k.ptable[i].pid == pid
      requires forall j :: 0 <= j < i ==> k.ptable[j].pid != pid
      modifies k`ptable, k`rqs, k`lists
      ensures Valid() && Killed(old(k.ptable), old(k.lists), i, pid, k.ptable, k.lists)
    {
      var q := k.ptable[i].(killed := true);
      if q.state == SLEEPING {
        MakeReady(i, q.(state := RUNNABLE));
      } else {
        k.Amend(i, q);
      }
    }

    /** The first process with the pid, NPROC if there is none. */
    method FindPid(pid: int) returns (i: nat)
      requires Valid()
      ensures i <= NPROC && (i < NPROC ==> k.ptable[i].pid == pid)
      ensures forall j :: 0 <= j < i ==> k.ptable[j].pid != pid
    {
      i := 0;
      while i < NPROC && k.ptable[i].pid != pid
        invariant i <= NPROC
        invariant forall j :: 0 <= j < i ==> k.ptable[j].pid != pid
      {
        i := i + 1;
      }
    }

    /** The scheduler's step: run the selected process. */
    method Schedule(c: nat) returns (p: int)
      requires Valid() && c < |current| && current[c] == NULL
      modifies this`current, k`ptable, k`rqs, k`lists
      ensures Valid() && current == old(current)[c := p]
      ensures p == NULL ==> AllEmpty(old(k.lists), c) && k.ptable == old(k.ptable) && k.lists == old(k.lists)
      ensures p != NULL ==>
                && |old(k.lists)[c]| == QUEUES
                && TookFront(old(k.ptable), old(k.lists), c, Served(old(k.lists)[c]), p, k.lists)
                && OnlyLinks(old(k.ptable)[p := old(k.ptable)[p].(state := RUNNING)], k.ptable)
      ensures p == NULL <==> forall x :: Slot(x) && old(k.ptable)[x].state == RUNNABLE ==> old(k.ptable)[x].cpu != c
      ensures p != NULL ==>
                forall x :: Slot(x) && old(k.ptable)[x].state == RUNNABLE && old(k.ptable)[x].cpu == c ==>
                  old(k.ptable)[p].priority == 5
                  || (old(k.ptable)[x].priority != 5 && old(k.ptable)[p].priority <= old(k.ptable)[x].priority)
    {
      ghost var pt := k.ptable;
      HasQueues(k.ptable, k.rqs, k.lists, c);
      p := k.Schedule(c);
      if p != NULL {
        RunningTook(pt, current, c, p, pt[p].(state := RUNNING));
        RunningLinks(pt[p := pt[p].(state := RUNNING)], k.ptable, current[c := p]);
      }
      current := current[c := p];
    }

    /** update_priorities, which the scheduler calls before it selects. */
    method UpdatePriorities()
      requires Valid()
      modifies k`ptable, k`rqs, k`lists
      ensures Valid() && OnlyLinks(AgedTable(old(k.ptable), NPROC, k.ticks), k.ptable)
      ensures k.lists == AgedInTurn(old(k.lists), old(k.ptable), NPROC, k.ticks)
      ensures forall p :: Slot(p) ==> AgedOnce(old(k.ptable)[p], k.ptable[p], k.ticks)
      ensures forall p :: Slot(p) && k.ptable[p].state == RUNNABLE ==>
                InListOf(k.ptable, k.lists, p, k.ptable[p].priority)
    {
      ghost var pt := k.ptable;
      k.UpdatePriorities();
      RunningAged(pt, k.ptable, current, k.ticks);
    }

    /** setpriority. */
    method SetPriority(pid: int, priority: int) returns (ok: bool)
      requires Valid()
      modifies k`ptable, k`rqs, k`lists
      ensures Valid()
      ensures ok <==> 0 <= priority <= 10 && exists p :: Slot(p) && old(k.ptable)[p].pid == pid
      ensures !ok ==> k.ptable == old(k.ptable) && k.lists == old(k.lists)
      ensures ok ==> exists p :: Reset(old(k.ptable), old(k.lists), pid, priority, p, k.ptable, k.lists)
    {
      ok := k.SetPriority(pid, priority);
    }
  }
}
