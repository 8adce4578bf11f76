/** The priority kernel: rq_add, rq_remove and rq_select on the process table, the aging pass
    update_priorities and the system call setpriority. */
module PriorityProc {
  import opened Common
  import opened Sequences
  import opened PriorityQueue

  type Lists = seq<seq<int>>   // the twelve lists of one CPU

  // ---- the lists as FIFO sequences ----

  function Removed(s: seq<int>, p: int): (t: seq<int>)
    ensures p !in s ==> t == s
  {
    if p in s then Cut(s, Position(s, p)) else s
  }

  function AppendTo(ls: seq<Lists>, c: int, i: int, p: int): (ms: seq<Lists>)
    requires 0 <= c < |ls| && 0 <= i < |ls[c]|
    ensures |ms| == |ls|
  {
    ls[c := ls[c][i := ls[c][i] + [p]]]
  }

  function RemoveFrom(ls: seq<Lists>, c: int, i: int, p: int): (ms: seq<Lists>)
    requires 0 <= c < |ls| && 0 <= i < |ls[c]|
    ensures |ms| == |ls| && |ms[c]| == |ls[c]|
  {
    ls[c := ls[c][i := Removed(ls[c][i], p)]]
  }

  /** Requeue p at the back of the list of another (or the same) priority. */
  function Moved(ls: seq<Lists>, c: int, i: int, j: int, p: int): (ms: seq<Lists>)
    requires 0 <= c < |ls| && 0 <= i < |ls[c]| && 0 <= j < |ls[c]|
    ensures |ms| == |ls|
  {
    AppendTo(RemoveFrom(ls, c, i, p), c, j, p)
  }

  // ---- the invariant ----

  /** p is in the list of its CPU and priority. */
  predicate InItsList(pt: seq<Proc>, ls: seq<Lists>, p: int)
    requires |pt| == NPROC && Slot(p)
  {
    && 0 <= pt[p].cpu < |ls| && |ls[pt[p].cpu]| == QUEUES
    && 0 <= pt[p].priority <= 10
    && p in ls[pt[p].cpu][QueueIndex(pt[p].priority)]
  }

  ghost predicate NowhereQueued(ls: seq<Lists>, p: int) {
    forall c :: 0 <= c < |ls| ==> !Queued(ls[c], p)
  }

  /** The queue of each CPU represents its lists, whose members belong there. */
  ghost predicate AllRepresent(pt: seq<Proc>, rqs: seq<Rq>, ls: seq<Lists>) {
    && |pt| == NPROC && |rqs| == |ls|
    && forall c :: 0 <= c < |rqs| ==> Represents(pt, rqs[c], ls[c]) && Placed(pt, ls[c], c)
  }

  /** Priorities are in range; a process other than `hole` is in the list of its priority on
      its CPU if it is RUNNABLE and in none otherwise; `hole`, a process between two queue
      operations, is in none. */
  ghost predicate Ready(pt: seq<Proc>, ls: seq<Lists>, hole: int)
    requires |pt| == NPROC
  {
    && (forall p :: Slot(p) ==> 0 <= pt[p].priority <= 10)
    && (forall p :: Slot(p) && p != hole ==>
          if pt[p].state == RUNNABLE then InItsList(pt, ls, p) else NowhereQueued(ls, p))
    && (Slot(hole) ==> NowhereQueued(ls, hole))
    && (forall p :: Slot(p) && pt[p].state in {SLEEPING, RUNNABLE} ==> 0 <= pt[p].cpu < |ls|)
  }

  ghost predicate Inv(pt: seq<Proc>, rqs: seq<Rq>, ls: seq<Lists>, hole: int) {
    AllRepresent(pt, rqs, ls) && Ready(pt, ls, hole)
  }

  lemma QueuedThere(pt: seq<Proc>, rqs: seq<Rq>, ls: seq<Lists>, c: int, p: int)
    requires AllRepresent(pt, rqs, ls) && 0 <= c < |ls| && Queued(ls[c], p)
    ensures Slot(p) && pt[p].cpu == c && 0 <= QueueIndex(pt[p].priority) < QUEUES
    ensures p in ls[c][QueueIndex(pt[p].priority)]
  {
    var i :| 0 <= i < |ls[c]| && p in ls[c][i];
    var k :| 0 <= k < |ls[c][i]| && ls[c][i][k] == p;
    assert Placed(pt, ls[c], c);
    assert Slot(ls[c][i][k]);
  }

  lemma OneCpu(pt: seq<Proc>, rqs: seq<Rq>, ls: seq<Lists>, c: int, d: int, p: int)
    requires AllRepresent(pt, rqs, ls) && 0 <= c < |ls| && 0 <= d < |ls|
    ensures Queued(ls[c], p) && Queued(ls[d], p) ==> c == d
  {
    if Queued(ls[c], p) && Queued(ls[d], p) {
      QueuedThere(pt, rqs, ls, c, p);
      QueuedThere(pt, rqs, ls, d, p);
    }
  }

  lemma RepresentsFrame(pt: seq<Proc>, qt: seq<Proc>, r: Rq, l: Lists, c: int)
    requires Represents(pt, r, l) && Placed(pt, l, c) && OnlyLinks(pt, qt)
    requires forall x :: Slot(x) && Queued(l, x) ==> qt[x] == pt[x]
    ensures Represents(qt, r, l) && Placed(qt, l, c)
  {
    forall i | 0 <= i < QUEUES
      ensures ListIs(qt, r.head[i], r.tail[i], l[i])
    {
      assert ListIs(pt, r.head[i], r.tail[i], l[i]);
      forall k | 0 <= k < |l[i]| ensures qt[l[i][k]].next == pt[l[i][k]].next {
        assert l[i][k] in l[i];
      }
      ListFrame(pt, qt, r.head[i], r.tail[i], l[i]);
    }
  }

  lemma ReplaceQueue(qt: seq<Proc>, rqs: seq<Rq>, ls: seq<Lists>, c: int, q: Rq, m: Lists)
    requires |qt| == NPROC && |rqs| == |ls| && 0 <= c < |rqs|
    requires forall d :: 0 <= d < |rqs| && d != c ==> Represents(qt, rqs[d], ls[d]) && Placed(qt, ls[d], d)
    requires Represents(qt, q, m) && Placed(qt, m, c)
    ensures AllRepresent(qt, rqs[c := q], ls[c := m])
  {
  }

  /** rq_add keeps the queues ... */
  lemma AddRepresents(pt: seq<Proc>, rqs: seq<Rq>, ls: seq<Lists>, p: int)
    requires AllRepresent(pt, rqs, ls) && Slot(p) && 0 <= pt[p].cpu < |ls| && 0 <= pt[p].priority <= 10
    requires NowhereQueued(ls, p)
    ensures TailsOk(rqs[pt[p].cpu])
    ensures var c := pt[p].cpu;
            var (qt, q) := Enqueue(pt, rqs[c], p);
            OnlyLinks(pt, qt) && AllRepresent(qt, rqs[c := q], AppendTo(ls, c, QueueIndex(pt[p].priority), p))
  {
    var c, i := pt[p].cpu, QueueIndex(pt[p].priority);
    EnqueueAppends(pt, rqs[c], ls[c], c, p);
    var (qt, q) := Enqueue(pt, rqs[c], p);
    AppendPlaced(pt, qt, ls[c], c, i, p);
    forall d | 0 <= d < |rqs| && d != c
      ensures Represents(qt, rqs[d], ls[d]) && Placed(qt, ls[d], d)
    {
      OtherCpu(pt, rqs, ls, p, c, d, qt);
    }
    ReplaceQueue(qt, rqs, ls, c, q, ls[c][i := ls[c][i] + [p]]);
  }

  /** ... and fills the hole. */
  lemma AddReady(pt: seq<Proc>, qt: seq<Proc>, ls: seq<Lists>, p: int)
    requires |pt| == NPROC && Ready(pt, ls, p) && OnlyLinks(pt, qt)
    requires Slot(p) && pt[p].state == RUNNABLE && |ls[pt[p].cpu]| == QUEUES
    ensures Ready(qt, AppendTo(ls, pt[p].cpu, QueueIndex(pt[p].priority), p), NULL)
  {
    var c, i := pt[p].cpu, QueueIndex(pt[p].priority);
    var ms := AppendTo(ls, c, i, p);
    forall x | Slot(x)
      ensures if qt[x].state == RUNNABLE then InItsList(qt, ms, x) else NowhereQueued(ms, x)
    {
      AppendMembers(ls, c, i, p, x);
    }
  }

  lemma AppendMembers(ls: seq<Lists>, c: int, i: int, p: int, x: int)
    requires 0 <= c < |ls| && 0 <= i < |ls[c]|
    ensures var ms := AppendTo(ls, c, i, p);
            && (forall d, j :: 0 <= d < |ls| && 0 <= j < |ls[d]| ==>
                  (x in ms[d][j] <==> x in ls[d][j] || (x == p && d == c && j == i)))
            && (x != p ==> (NowhereQueued(ms, x) <==> NowhereQueued(ls, x)))
  {
    var ms := AppendTo(ls, c, i, p);
    if x != p {
      forall d | 0 <= d < |ls| ensures Queued(ms[d], x) <==> Queued(ls[d], x) {
        assert forall j :: 0 <= j < |ls[d]| ==> (x in ms[d][j] <==> x in ls[d][j]);
        assert |ms[d]| == |ls[d]|;
      }
    }
  }

  lemma AppendPlaced(pt: seq<Proc>, qt: seq<Proc>, l: Lists, c: int, i: int, p: int)
    requires |l| == QUEUES && |pt| == NPROC && Placed(pt, l, c) && OnlyLinks(pt, qt)
    requires Slot(p) && pt[p].cpu == c && 0 <= pt[p].priority <= 10 && QueueIndex(pt[p].priority) == i && !Queued(l, p)
    ensures Placed(qt, l[i := l[i] + [p]], c)
  {
    NotIn(l, i, p);
  }

  lemma OtherCpu(pt: seq<Proc>, rqs: seq<Rq>, ls: seq<Lists>, p: int, c: int, d: int, qt: seq<Proc>)
    requires AllRepresent(pt, rqs, ls) && 0 <= c < |ls| && 0 <= d < |ls| && d != c
    requires OnlyLinks(pt, qt) && forall x :: Slot(x) && x != p && !Queued(ls[c], x) ==> qt[x] == pt[x]
    requires !Queued(ls[d], p)
    ensures Represents(qt, rqs[d], ls[d]) && Placed(qt, ls[d], d)
  {
    forall x | Slot(x) && Queued(ls[d], x) ensures qt[x] == pt[x] {
      OneCpu(pt, rqs, ls, c, d, x);
    }
    RepresentsFrame(pt, qt, rqs[d], ls[d], d);
  }

  /** Unlinking a process keeps the queues ... */
  lemma RemoveRepresents(pt: seq<Proc>, rqs: seq<Rq>, ls: seq<Lists>, c: int, i: int, k: nat)
    requires AllRepresent(pt, rqs, ls) && 0 <= c < |ls| && 0 <= i < QUEUES && k < |ls[c][i]|
    ensures var s := ls[c][i];
            Slot(s[k]) && (Before(s, k) == NULL || Slot(Before(s, k)))
            && var (qt, q) := Unlink(pt, rqs[c], i, Before(s, k), s[k]);
            OnlyLinks(pt, qt) && AllRepresent(qt, rqs[c := q], ls[c := ls[c][i := Cut(s, k)]])
  {
    var s := ls[c][i];
    UnlinkRemoves(pt, rqs[c], ls[c], c, i, k);
    var (qt, q) := Unlink(pt, rqs[c], i, Before(s, k), s[k]);
    CutPlaced(pt, qt, ls[c], c, i, k);
    forall d | 0 <= d < |rqs| && d != c
      ensures Represents(qt, rqs[d], ls[d]) && Placed(qt, ls[d], d)
    {
      RemoveOther(pt, rqs, ls, c, i, k, d);
    }
    ReplaceQueue(qt, rqs, ls, c, q, ls[c][i := Cut(s, k)]);
  }

  lemma RemoveOther(pt: seq<Proc>, rqs: seq<Rq>, ls: seq<Lists>, c: int, i: int, k: nat, d: int)
    requires AllRepresent(pt, rqs, ls) && 0 <= c < |ls| && 0 <= i < QUEUES && k < |ls[c][i]|
    requires 0 <= d < |ls| && d != c
    ensures var s := ls[c][i];
            Slot(s[k]) && (Before(s, k) == NULL || Slot(Before(s, k)))
            && var qt := Unlink(pt, rqs[c], i, Before(s, k), s[k]).0;
            Represents(qt, rqs[d], ls[d]) && Placed(qt, ls[d], d)
  {
    var s := ls[c][i];
    UnlinkRemoves(pt, rqs[c], ls[c], c, i, k);
    OneCpu(pt, rqs, ls, c, d, s[k]);
    assert Queued(ls[c], s[k]);
    OtherCpu(pt, rqs, ls, s[k], c, d, Unlink(pt, rqs[c], i, Before(s, k), s[k]).0);
  }

  lemma CutPlaced(pt: seq<Proc>, qt: seq<Proc>, l: Lists, c: int, i: int, k: nat)
    requires |l| == QUEUES && |pt| == NPROC && Placed(pt, l, c) && OnlyLinks(pt, qt) && 0 <= i < QUEUES && k < |l[i]|
    ensures Placed(qt, l[i := Cut(l[i], k)], c)
  {
  }

  /** ... and makes a hole. */
  lemma RemoveReady(pt: seq<Proc>, qt: seq<Proc>, rqs: seq<Rq>, ls: seq<Lists>, c: int, i: int, k: nat)
    requires Inv(pt, rqs, ls, NULL) && OnlyLinks(pt, qt)
    requires 0 <= c < |ls| && 0 <= i < QUEUES && k < |ls[c][i]|
    ensures Ready(qt, ls[c := ls[c][i := Cut(ls[c][i], k)]], ls[c][i][k])
  {
    var p := ls[c][i][k];
    var ms := ls[c := ls[c][i := Cut(ls[c][i], k)]];
    forall x | Slot(x) && x != p
      ensures if qt[x].state == RUNNABLE then InItsList(qt, ms, x) else NowhereQueued(ms, x)
    {
      CutMembers(ls, c, i, k, x);
    }
    CutGone(pt, rqs, ls, c, i, k);
  }

  /** Both, for a process that is in its list. */
  lemma RemoveKeepsInv(pt: seq<Proc>, rqs: seq<Rq>, ls: seq<Lists>, p: int)
    requires Inv(pt, rqs, ls, NULL) && Slot(p) && pt[p].state == RUNNABLE
    ensures InItsList(pt, ls, p)
    ensures var c, i := pt[p].cpu, QueueIndex(pt[p].priority);
            var prev := Before(ls[c][i], Position(ls[c][i], p));
            (prev == NULL || Slot(prev)) && Shaped(pt, rqs[c])
            && var (qt, q) := Unlink(pt, rqs[c], i, prev, p);
            OnlyLinks(pt, qt) && Inv(qt, rqs[c := q], RemoveFrom(ls, c, i, p), p)
  {
    var c, i := pt[p].cpu, QueueIndex(pt[p].priority);
    var k := Position(ls[c][i], p);
    RemoveRepresents(pt, rqs, ls, c, i, k);
    RemoveReady(pt, Unlink(pt, rqs[c], i, Before(ls[c][i], k), p).0, rqs, ls, c, i, k);
  }

  /** Unless it is between two queue operations, a process is in its list if it is RUNNABLE
      and in none otherwise. */
  lemma ListedIff(pt: seq<Proc>, rqs: seq<Rq>, ls: seq<Lists>, p: int, hole: int)
    requires Inv(pt, rqs, ls, hole) && (hole == NULL || hole == p) && Slot(p) && 0 <= pt[p].cpu < |ls|
    ensures |ls[pt[p].cpu]| == QUEUES
    ensures InItsList(pt, ls, p) <==> p in ls[pt[p].cpu][QueueIndex(pt[p].priority)]
    ensures if hole == NULL then InItsList(pt, ls, p) <==> pt[p].state == RUNNABLE else !InItsList(pt, ls, p)
    ensures InItsList(pt, ls, p) ==> hole == NULL
  {
    assert Represents(pt, rqs[pt[p].cpu], ls[pt[p].cpu]);
    assert InItsList(pt, ls, p) ==> Queued(ls[pt[p].cpu], p);
  }

  lemma ListLeads(pt: seq<Proc>, r: Rq, l: Lists, c: int, i: int)
    requires Represents(pt, r, l) && Placed(pt, l, c) && 0 <= i < QUEUES
    ensures Leads(pt, r.head[i], l[i], false) && Distinct(l[i])
  {
    assert ListIs(pt, r.head[i], r.tail[i], l[i]);
    forall k | 0 <= k < |l[i]| ensures Links(pt, l[i], k, false) {
      assert Follows(pt, l[i], k);
    }
  }

  lemma CutMembers(ls: seq<Lists>, c: int, i: int, k: nat, x: int)
    requires 0 <= c < |ls| && 0 <= i < |ls[c]| && k < |ls[c][i]| && x != ls[c][i][k]
    ensures var ms := ls[c := ls[c][i := Cut(ls[c][i], k)]];
            && (forall d, j :: 0 <= d < |ls| && 0 <= j < |ls[d]| ==> (x in ms[d][j] <==> x in ls[d][j]))
            && (NowhereQueued(ms, x) <==> NowhereQueued(ls, x))
  {
    var s, t := ls[c][i], Cut(ls[c][i], k);
    var ms := ls[c := ls[c][i := t]];
    if x in s {
      var m :| 0 <= m < |s| && s[m] == x;
      assert t[if m < k then m else m - 1] == x;
    }
    forall d | 0 <= d < |ls| ensures Queued(ms[d], x) <==> Queued(ls[d], x) {
      assert forall j :: 0 <= j < |ls[d]| ==> (x in ms[d][j] <==> x in ls[d][j]);
      assert |ms[d]| == |ls[d]|;
    }
  }

  lemma CutGone(pt: seq<Proc>, rqs: seq<Rq>, ls: seq<Lists>, c: int, i: int, k: nat)
    requires AllRepresent(pt, rqs, ls) && 0 <= c < |ls| && 0 <= i < QUEUES && k < |ls[c][i]|
    ensures NowhereQueued(ls[c := ls[c][i := Cut(ls[c][i], k)]], ls[c][i][k])
  {
    var p := ls[c][i][k];
    assert Placed(pt, ls[c], c);
    var ms := ls[c := ls[c][i := Cut(ls[c][i], k)]];
    forall d | 0 <= d < |ls|
      ensures !Queued(ms[d], p)
    {
      assert Queued(ls[c], p);
      OneCpu(pt, rqs, ls, c, d, p);
      if d == c {
        forall j | 0 <= j < QUEUES && j != i ensures p !in ls[c][j] {
          Apart(pt, ls[c], c, j, i, k);
        }
      }
    }
  }

  /** The record of a process that is in no queue changes. */
  lemma TouchUnqueued(pt: seq<Proc>, rqs: seq<Rq>, ls: seq<Lists>, hole: int, p: int, q: Proc)
    requires Inv(pt, rqs, ls, hole) && Slot(p) && NowhereQueued(ls, p) && (hole == NULL || hole == p)
    requires 0 <= q.priority <= 10
    requires q.state in {SLEEPING, RUNNABLE} ==> 0 <= q.cpu < |ls|
    ensures Inv(pt[p := q], rqs, ls, p)
    ensures q.state != RUNNABLE ==> Inv(pt[p := q], rqs, ls, NULL)
  {
    var qt := pt[p := q];
    forall c | 0 <= c < |rqs|
      ensures Represents(qt, rqs[c], ls[c]) && Placed(qt, ls[c], c)
    {
      forall i, k | 0 <= i < QUEUES && 0 <= k < |ls[c][i]| ensures ls[c][i][k] != p {
        assert ls[c][i][k] in ls[c][i];
      }
      TouchLists(pt, qt, rqs[c], ls[c], c);
    }
  }

  lemma TouchLists(pt: seq<Proc>, qt: seq<Proc>, r: Rq, l: Lists, c: int)
    requires Represents(pt, r, l) && Placed(pt, l, c) && |qt| == NPROC
    requires forall i, k :: 0 <= i < QUEUES && 0 <= k < |l[i]| ==>
               var x := l[i][k];
               Slot(x) ==> qt[x].next == pt[x].next && qt[x].cpu == pt[x].cpu && qt[x].priority == pt[x].priority
    ensures Represents(qt, r, l) && Placed(qt, l, c)
  {
    forall i | 0 <= i < QUEUES ensures ListIs(qt, r.head[i], r.tail[i], l[i]) {
      assert ListIs(pt, r.head[i], r.tail[i], l[i]);
      ListFrame(pt, qt, r.head[i], r.tail[i], l[i]);
    }
  }

  /** A record changes in fields the queues do not depend on. */
  lemma TouchInPlace(pt: seq<Proc>, rqs: seq<Rq>, ls: seq<Lists>, p: int, q: Proc)
    requires Inv(pt, rqs, ls, NULL) && Slot(p)
    requires q.next == pt[p].next && q.cpu == pt[p].cpu && q.priority == pt[p].priority && q.state == pt[p].state
    ensures Inv(pt[p := q], rqs, ls, NULL)
  {
    var qt := pt[p := q];
    forall c | 0 <= c < |rqs|
      ensures Represents(qt, rqs[c], ls[c]) && Placed(qt, ls[c], c)
    {
      TouchLists(pt, qt, rqs[c], ls[c], c);
    }
  }

  // ---- aging ----

  const MAX_LIFE := 10000
  const AGE_TICKS := 50

  /** The time since creation, as unsigned 32-bit arithmetic. */
  function Age(q: Proc, ticks: int): (a: nat) {
    (ticks - q.creation) % 0x1_0000_0000
  }

  predicate Expired(q: Proc, ticks: int) {
    Age(q, ticks) > MAX_LIFE && q.pid != 1 && q.pid != 2
  }

  predicate Alive(q: Proc) { q.state in {RUNNABLE, RUNNING, SLEEPING} }

  function AgedPriority(q: Proc): int {
    if q.pid > 100 then 5
    else if q.waitTicks + 1 >= AGE_TICKS && q.priority > 0 then q.priority - 1
    else q.priority
  }

  /** What one pass of update_priorities does to a process. */
  function Aged(q: Proc, ticks: int): Proc {
    if !Alive(q) then q
    else if Expired(q, ticks) then q.(killed := true, state := if q.state == SLEEPING then RUNNABLE else q.state)
    else q.(priority := AgedPriority(q), waitTicks := if q.waitTicks + 1 >= AGE_TICKS then 0 else q.waitTicks + 1)
  }

  predicate HasLists(ls: seq<Lists>, q: Proc) {
    0 <= q.priority <= 10 && (q.state in {SLEEPING, RUNNABLE} ==> 0 <= q.cpu < |ls| && |ls[q.cpu]| == QUEUES)
  }

  /** What it does to the lists: an expired sleeper joins its list, a RUNNABLE process whose
      priority changed moves to the back of its new list. */
  function AgedLists(ls: seq<Lists>, q: Proc, p: int, ticks: int): (ms: seq<Lists>)
    requires HasLists(ls, q)
    ensures |ms| == |ls|
  {
    if !Alive(q) then ls
    else if Expired(q, ticks) then
      if q.state == SLEEPING then AppendTo(ls, q.cpu, QueueIndex(q.priority), p) else ls
    else if q.state == RUNNABLE && AgedPriority(q) != q.priority then
      Moved(ls, q.cpu, QueueIndex(q.priority), QueueIndex(AgedPriority(q)), p)
    else ls
  }

  /** Passes of update_priorities on a process nothing else happens to. */
  function AgedTimes(q: Proc, times: nat, ticks: nat -> int): Proc {
    if times == 0 then q else Aged(AgedTimes(q, times - 1, ticks), ticks(times - 1))
  }

  /** Aging promotes: a live process with a pid of at most 100 that does not expire climbs one
      priority in every 50 passes, so from priority n it is at the top after 50 * n. */
  lemma {:induction false} AgingPromotes(q: Proc, times: nat, ticks: nat -> int)
    requires Alive(q) && q.pid <= 100 && 0 <= q.priority <= 10 && 0 <= q.waitTicks < AGE_TICKS
    requires forall i: nat :: i < times ==> !Expired(q, ticks(i))
    ensures var r := AgedTimes(q, times, ticks);
            && Alive(r) && r.pid == q.pid && r.creation == q.creation
            && r.waitTicks == (q.waitTicks + times) % AGE_TICKS
            && r.priority == (var up := (q.waitTicks + times) / AGE_TICKS;
                 if up < q.priority then q.priority - up else 0)
  {
    if times > 0 {
      AgingPromotes(q, times - 1, ticks);
    }
  }

  ghost predicate AllEmpty(ls: seq<Lists>, c: int) {
    0 <= c < |ls| && |ls[c]| == QUEUES && forall i :: 0 <= i < QUEUES ==> ls[c][i] == []
  }

  /** p, a RUNNABLE process of CPU c, was the front of list i and has been taken off it. */
  ghost predicate TookFront(pt: seq<Proc>, ls: seq<Lists>, c: int, i: int, p: int, ms: seq<Lists>) {
    && 0 <= c < |ls| && |ls[c]| == QUEUES && 0 <= i < QUEUES && ls[c][i] != [] && p == ls[c][i][0]
    && |pt| == NPROC && Slot(p) && pt[p].state == RUNNABLE && pt[p].cpu == c
    && ms == ls[c := ls[c][i := ls[c][i][1..]]]
  }

  lemma FrontInv(pt: seq<Proc>, rqs: seq<Rq>, ls: seq<Lists>, c: int, i: int)
    requires Inv(pt, rqs, ls, NULL) && 0 <= c < |rqs| && 0 <= i < QUEUES && rqs[c].head[i] != NULL
    ensures var p := rqs[c].head[i];
            TookFront(pt, ls, c, i, p, ls[c := ls[c][i := ls[c][i][1..]]])
            && var (qt, q) := Unlink(pt, rqs[c], i, NULL, p);
            OnlyLinks(pt, qt) && Inv(qt, rqs[c := q], ls[c := ls[c][i := ls[c][i][1..]]], p)
  {
    var p, s := rqs[c].head[i], ls[c][i];
    assert ListIs(pt, rqs[c].head[i], rqs[c].tail[i], s);
    assert Queued(ls[c], p);
    QueuedThere(pt, rqs, ls, c, p);
    RemoveRepresents(pt, rqs, ls, c, i, 0);
    RemoveReady(pt, Unlink(pt, rqs[c], i, NULL, p).0, rqs, ls, c, i, 0);
    assert Cut(s, 0) == s[1..];
  }

  /** The list rq_select serves holds the most urgent of the RUNNABLE processes of the CPU: those
      of priority 5 if there are any, else those of the lowest number; there is none to serve
      exactly if no process of the CPU is RUNNABLE. */
  lemma BestServed(pt: seq<Proc>, rqs: seq<Rq>, ls: seq<Lists>, c: int)
    requires Inv(pt, rqs, ls, NULL) && 0 <= c < |ls|
    ensures |ls[c]| == QUEUES
    ensures Served(ls[c]) == NULL <==> forall x :: Slot(x) && pt[x].state == RUNNABLE ==> pt[x].cpu != c
    ensures Served(ls[c]) != NULL ==>
              forall p, x :: p in ls[c][Served(ls[c])] && Slot(x) && pt[x].state == RUNNABLE && pt[x].cpu == c ==>
                Slot(p) && (pt[p].priority == 5 || (pt[x].priority != 5 && pt[p].priority <= pt[x].priority))
  {
    assert Represents(pt, rqs[c], ls[c]) && Placed(pt, ls[c], c);
    var i := Served(ls[c]);
    forall x | Slot(x) && pt[x].state == RUNNABLE && pt[x].cpu == c
      ensures i != NULL && x in ls[c][QueueIndex(pt[x].priority)]
    {
      assert InItsList(pt, ls, x);
    }
    if i != NULL {
      var y := ls[c][i][0];
      assert Slot(ls[c][i][0]) && Queued(ls[c], y);
      assert pt[y].state == RUNNABLE && pt[y].cpu == c;
      forall p, x | p in ls[c][i] && Slot(x) && pt[x].state == RUNNABLE && pt[x].cpu == c
        ensures Slot(p) && (pt[p].priority == 5 || (pt[x].priority != 5 && pt[p].priority <= pt[x].priority))
      {
        var k :| 0 <= k < |ls[c][i]| && ls[c][i][k] == p;
        assert Slot(ls[c][i][k]) && QueueIndex(pt[p].priority) == i;
      }
    }
  }

  /** p is the first process with the given pid; its priority, and its list if it is RUNNABLE,
      are the only things that changed. */
  ghost predicate Reset(pt: seq<Proc>, ls: seq<Lists>, pid: int, priority: int, p: int, qt: seq<Proc>, ms: seq<Lists>)
    requires |pt| == NPROC && 0 <= priority <= 10
  {
    && Slot(p) && pt[p].pid == pid && (forall x :: 0 <= x < p ==> pt[x].pid != pid)
    && OnlyLinks(pt[p := pt[p].(priority := priority)], qt)
    && (pt[p].state != RUNNABLE ==> ms == ls)
    && (pt[p].state == RUNNABLE ==>
          && InItsList(pt, ls, p)
          && ms == Moved(ls, pt[p].cpu, QueueIndex(pt[p].priority), QueueIndex(priority), p))
  }

  /** The scan of rq_select, by count and heads alone. */
  method FindList(r: Rq, ghost pt: seq<Proc>, ghost l: Lists) returns (i: int)
    requires Represents(pt, r, l)
    ensures i == Served(l) && (i != NULL ==> r.head[i] != NULL)
  {
    TailIsLast(pt, r, l);
    NoneLeft(l);
    if r.count == 0 {
      return NULL;
    }
    if r.head[SHORT] != NULL {
      return SHORT;
    }
    i := 0;
    while i < SHORT && r.head[i] == NULL
      invariant 0 <= i <= SHORT
      invariant forall j :: 0 <= j < i ==> l[j] == []
    {
      i := i + 1;
    }
  }

  class Kernel {
    var ptable: seq<Proc>
    var rqs: seq<Rq>
    var ticks: int
    ghost var lists: seq<Lists>

    ghost predicate Valid(hole: int)
      reads this
    {
      Inv(ptable, rqs, lists, hole)
    }

    /** pinit on `cpus` processors: all queues empty, all slots unused. */
    constructor (cpus: nat)
      ensures Valid(NULL) && |rqs| == cpus && forall p :: Slot(p) ==> ptable[p].state == UNUSED
    {
      ptable := seq(NPROC, _ => Proc(UNUSED, 0, NULL, 0, 0, NULL, 0, 0, false, 0));
      rqs := seq(cpus, _ => Rq(seq(QUEUES, _ => NULL), seq(QUEUES, _ => NULL), 0));
      ticks := 0;
      lists := seq(cpus, _ => seq(QUEUES, _ => []));
      new;
      forall c | 0 <= c < cpus ensures Represents(ptable, rqs[c], lists[c]) {
        NoneLeft(lists[c]);
      }
    }

    /** The record of a process that is in no list changes. */
    method Become(p: int, q: Proc, ghost hole: int)
      requires Valid(hole) && (hole == NULL || hole == p) && Slot(p) && NowhereQueued(lists, p)
      requires 0 <= q.priority <= 10 && (q.state in {SLEEPING, RUNNABLE} ==> 0 <= q.cpu < |rqs|)
      modifies this`ptable
      ensures Valid(if q.state == RUNNABLE then p else NULL) && ptable == old(ptable)[p := q]
    {
      TouchUnqueued(ptable, rqs, lists, hole, p, q);
      ptable := ptable[p := q];
    }

    /** A record changes in fields the queues do not depend on. */
    method Amend(p: int, q: Proc)
      requires Valid(NULL) && Slot(p)
      requires q.next == ptable[p].next && q.cpu == ptable[p].cpu && q.priority == ptable[p].priority
      requires q.state == ptable[p].state
      modifies this`ptable
      ensures Valid(NULL) && ptable == old(ptable)[p := q]
    {
      TouchInPlace(ptable, rqs, lists, p, q);
      ptable := ptable[p := q];
    }

    /** rq_add on the queue of the process's CPU. None of its panics can happen. */
    method RqAdd(p: int)
      requires Slot(p) && Valid(p) && ptable[p].state == RUNNABLE
      modifies this`ptable, this`rqs, this`lists
      ensures Valid(NULL) && OnlyLinks(old(ptable), ptable)
      ensures lists == AppendTo(old(lists), old(ptable)[p].cpu, QueueIndex(old(ptable)[p].priority), p)
    {
      var c, i := ptable[p].cpu, QueueIndex(ptable[p].priority);
      var r := rqs[c];
      HasRoom(ptable, r, lists[c], c, p);
      assert r.count < MAX_PROCS;
      AddRepresents(ptable, rqs, lists, p);
      AddReady(ptable, Enqueue(ptable, r, p).0, lists, p);
      lists := AppendTo(lists, c, i, p);
      EnqueueAt(c, p);
    }

    /** The writes of rq_add. */
    method EnqueueAt(c: int, p: int)
      requires |ptable| == NPROC && 0 <= c < |rqs| && Shaped(ptable, rqs[c])
      requires Slot(p) && 0 <= ptable[p].priority <= 10 && TailOk(rqs[c], QueueIndex(ptable[p].priority))
      modifies this`ptable, this`rqs
      ensures var (qt, q) := old(Enqueue(ptable, rqs[c], p));
              ptable == qt && rqs == old(rqs)[c := q]
    {
      var i, r := QueueIndex(ptable[p].priority), rqs[c];
      ptable := ptable[p := ptable[p].(next := NULL)];
      if r.head[i] == NULL {
        r := r.(head := r.head[i := p], tail := r.tail[i := p]);
      } else {
        var last := r.tail[i];
        assert Slot(last);
        ptable := ptable[last := ptable[last].(next := p)];
        r := r.(tail := r.tail[i := p]);
      }
      rqs := rqs[c := r.(count := r.count + 1)];
    }

    /** rq_remove: walk the list of the process's priority and unlink it. A process that is in
        no list is not found, and nothing changes. */
    method RqRemove(p: int, ghost hole: int)
      requires Valid(hole) && (hole == NULL || hole == p) && Slot(p) && 0 <= ptable[p].cpu < |rqs|
      modifies this`ptable, this`rqs, this`lists
      ensures if old(InItsList(ptable, lists, p)) then
                && Valid(p) && OnlyLinks(old(ptable), ptable)
                && lists == RemoveFrom(old(lists), old(ptable)[p].cpu, QueueIndex(old(ptable)[p].priority), p)
              else ptable == old(ptable) && rqs == old(rqs) && lists == old(lists)
      ensures hole == NULL ==> (old(InItsList(ptable, lists, p)) <==> old(ptable)[p].state == RUNNABLE)
    {
      ListedIff(ptable, rqs, lists, p, hole);
      var c, i := ptable[p].cpu, QueueIndex(ptable[p].priority);
      ListLeads(ptable, rqs[c], lists[c], c, i);
      var found, prev, endless := FindBefore(c, i, p, lists[c][i], false);
      if found {
        RemoveKeepsInv(ptable, rqs, lists, p);
        lists := RemoveFrom(lists, c, i, p);
        UnlinkAt(c, i, prev, p);
      }
    }

    /** The search of rq_remove: the process whose link leads to p, NULL at the head. Where the
        links end in a loop and p is not found, the search never ends. */
    method FindBefore(c: int, i: int, p: int, ghost s: seq<int>, ghost tied: bool)
      returns (found: bool, prev: int, endless: bool)
      requires |ptable| == NPROC && 0 <= c < |rqs| && Shaped(ptable, rqs[c]) && 0 <= i < QUEUES && p != NULL
      requires Leads(ptable, rqs[c].head[i], s, tied) && Distinct(s)
      ensures found <==> p in s
      ensures found ==> prev == Before(s, Position(s, p))
      ensures endless <==> p !in s && tied
    {
      forall k | 0 <= k < |s| ensures Slot(s[k]) {
        assert Links(ptable, s, k, tied);
      }
      var curr := rqs[c].head[i];
      prev := NULL;
      endless := false;
      ghost var k := 0;
      while curr != NULL && curr != p && !endless
        invariant 0 <= k <= |s| && p !in s[..k] && (endless ==> tied && k == |s|)
        invariant !endless ==> (curr == NULL <==> k == |s|) && (k == |s| ==> !tied)
        invariant k < |s| ==> curr == s[k] && prev == Before(s, k)
        invariant endless ==> curr != NULL && curr != p
        decreases |s| - k, !endless
      {
        assert Links(ptable, s, k, tied);
        prev := curr;
        curr := ptable[curr].next;
        endless := curr == prev;
        k := k + 1;
      }
      found := curr == p;
    }

    /** rq_add with its panics: false if one of them is met. */
    method TryAdd(c: int, p: int) returns (ok: bool)
      requires |ptable| == NPROC && 0 <= c < |rqs| && Shaped(ptable, rqs[c]) && Slot(p)
      modifies this`ptable, this`rqs
      ensures ok <==> old(Add(ptable, rqs[c], p)).Some?
      ensures ok ==> var (qt, q) := old(Add(ptable, rqs[c], p)).value; ptable == qt && rqs == old(rqs)[c := q]
    {
      var i := QueueIndex(ptable[p].priority);
      if rqs[c].count >= MAX_PROCS || ptable[p].priority < 0 || ptable[p].priority > 10 {
        return false;
      }
      if rqs[c].head[i] != NULL && !Slot(rqs[c].tail[i]) {
        return false;
      }
      EnqueueAt(c, p);
      ok := true;
    }

    /** The writes of rq_remove once the process is found. */
    method UnlinkAt(c: int, i: int, prev: int, p: int)
      requires |ptable| == NPROC && 0 <= c < |rqs| && Shaped(ptable, rqs[c]) && 0 <= i < QUEUES
      requires Slot(p) && (prev == NULL || Slot(prev))
      modifies this`ptable, this`rqs
      ensures var (qt, q) := old(Unlink(ptable, rqs[c], i, prev, p));
              ptable == qt && rqs == old(rqs)[c := q]
    {
      var r := rqs[c];
      var next := ptable[p].next;
      if prev == NULL {
        r := r.(head := r.head[i := next]);
      } else {
        ptable := ptable[prev := ptable[prev].(next := next)];
      }
      if ptable[p].next == NULL {
        r := r.(tail := r.tail[i := prev]);
      }
      ptable := ptable[p := ptable[p].(next := NULL)];
      rqs := rqs[c := r.(count := r.count - 1)];
    }

    /** rq_select on CPU c: the front of the list Served names, taken off it. */
    method RqSelect(c: nat) returns (p: int)
      requires Valid(NULL) && c < |rqs|
      modifies this`ptable, this`rqs, this`lists
      ensures Valid(p) && OnlyLinks(old(ptable), ptable)
      ensures p == NULL ==> AllEmpty(old(lists), c) && ptable == old(ptable) && lists == old(lists)
      ensures p != NULL ==> TookFront(old(ptable), old(lists), c, Served(old(lists)[c]), p, lists)
      ensures p == NULL <==> forall x :: Slot(x) && old(ptable)[x].state == RUNNABLE ==> old(ptable)[x].cpu != c
      ensures p != NULL ==>
                forall x :: Slot(x) && old(ptable)[x].state == RUNNABLE && old(ptable)[x].cpu == c ==>
                  old(ptable)[p].priority == 5
                  || (old(ptable)[x].priority != 5 && old(ptable)[p].priority <= old(ptable)[x].priority)
    {
      assert Represents(ptable, rqs[c], lists[c]);
      BestServed(ptable, rqs, lists, c);
      var i := FindList(rqs[c], ptable, lists[c]);
      if i == NULL {
        return NULL;
      }
      p := TakeHead(c, i);
    }

    /** Take the first process off list i, as both halves of rq_select do. */
    method TakeHead(c: nat, i: int) returns (p: int)
      requires Valid(NULL) && c < |rqs| && 0 <= i < QUEUES && rqs[c].head[i] != NULL
      modifies this`ptable, this`rqs, this`lists
      ensures Valid(p) && p != NULL
      ensures TookFront(old(ptable), old(lists), c, i, p, lists) && OnlyLinks(old(ptable), ptable)
    {
      FrontInv(ptable, rqs, lists, c, i);
      p := rqs[c].head[i];
      lists := lists[c := lists[c][i := lists[c][i][1..]]];
      UnlinkHead(c, i, p);
    }

    /** The writes of rq_select: those of rq_remove on the first process of a list. */
    method UnlinkHead(c: int, i: int, p: int)
      requires |ptable| == NPROC && 0 <= c < |rqs| && Shaped(ptable, rqs[c]) && 0 <= i < QUEUES
      requires Slot(p) && rqs[c].head[i] == p
      modifies this`ptable, this`rqs
      ensures var (qt, q) := old(Unlink(ptable, rqs[c], i, NULL, p));
              ptable == qt && rqs == old(rqs)[c := q]
    {
      var r, next := rqs[c], ptable[p].next;
      r := r.(head := r.head[i := next]);
      if next == NULL {
        r := r.(tail := r.tail[i := NULL]);
      }
      ptable := ptable[p := ptable[p].(next := NULL)];
      rqs := rqs[c := r.(count := r.count - 1)];
    }

    /** The scheduler's step: run the selected process. */
    method Schedule(c: nat) returns (p: int)
      requires Valid(NULL) && c < |rqs|
      modifies this`ptable, this`rqs, this`lists
      ensures Valid(NULL)
      ensures p == NULL ==> AllEmpty(old(lists), c) && ptable == old(ptable) && lists == old(lists)
      ensures p != NULL ==>
                && TookFront(old(ptable), old(lists), c, Served(old(lists)[c]), p, lists)
                && OnlyLinks(old(ptable)[p := old(ptable)[p].(state := RUNNING)], ptable)
      ensures p == NULL <==> forall x :: Slot(x) && old(ptable)[x].state == RUNNABLE ==> old(ptable)[x].cpu != c
      ensures p != NULL ==>
                forall x :: Slot(x) && old(ptable)[x].state == RUNNABLE && old(ptable)[x].cpu == c ==>
                  old(ptable)[p].priority == 5
                  || (old(ptable)[x].priority != 5 && old(ptable)[p].priority <= old(ptable)[x].priority)
    {
      hide TookFront, AllEmpty, Represents;
      p := RqSelect(c);
      if p != NULL {
        Become(p, ptable[p].(state := RUNNING), p);
      }
    }

    /** Change a priority, requeueing the process if it is RUNNABLE. */
    method Reprioritize(p: int, priority: int)
      requires Valid(NULL) && Slot(p) && 0 <= priority <= 10
      modifies this`ptable, this`rqs, this`lists
      ensures Valid(NULL)
      ensures OnlyLinks(old(ptable)[p := old(ptable)[p].(priority := priority)], ptable)
      ensures lists == if old(ptable)[p].state == RUNNABLE
                       then Moved(old(lists), old(ptable)[p].cpu, QueueIndex(old(ptable)[p].priority),
                           QueueIndex(priority), p)
                       else old(lists)
    {
      hide Represents, Placed;
      if ptable[p].state == RUNNABLE {
        RqRemove(p, NULL);
      }
      Become(p, ptable[p].(priority := priority), if ptable[p].state == RUNNABLE then p else NULL);
      if ptable[p].state == RUNNABLE {
        RqAdd(p);
      }
    }

    /** sys_setpriority after its argument fetch; false stands for -1. */
    method SetPriority(pid: int, priority: int) returns (ok: bool)
      requires Valid(NULL)
      modifies this`ptable, this`rqs, this`lists
      ensures Valid(NULL)
      ensures ok <==> 0 <= priority <= 10 && exists p :: Slot(p) && old(ptable)[p].pid == pid
      ensures !ok ==> ptable == old(ptable) && lists == old(lists)
      ensures ok ==> exists p :: Reset(old(ptable), old(lists), pid, priority, p, ptable, lists)
    {
      if priority < 0 || priority > 10 {
        return false;
      }
      var p := 0;
      while p < NPROC && ptable[p].pid != pid
        invariant 0 <= p <= NPROC
        invariant forall x :: 0 <= x < p ==> ptable[x].pid != pid
      {
        p := p + 1;
      }
      if p == NPROC {
        return false;
      }
      ghost var pt, ls := ptable, lists;
      assert Slot(p);
      Reprioritize(p, priority);
      assert Reset(pt, ls, pid, priority, p, ptable, lists);
      ok := true;
    }

    /** The body of update_priorities for one process. */
    method AgeOne(p: int)
      requires Valid(NULL) && Slot(p)
      modifies this`ptable, this`rqs, this`lists
      ensures Valid(NULL)
      ensures OnlyLinks(old(ptable)[p := Aged(old(ptable)[p], ticks)], ptable)
      ensures lists == AgedLists(old(lists), old(ptable)[p], p, ticks)
    {
      if !(ptable[p].state == RUNNABLE || ptable[p].state == RUNNING || ptable[p].state == SLEEPING) {
        return;
      }
      if Age(ptable[p], ticks) > MAX_LIFE && ptable[p].pid != 1 && ptable[p].pid != 2 {
        Expire(p);
        return;
      }
      if ptable[p].pid > 100 && ptable[p].priority != 5 {
        Reprioritize(p, 5);
      }
      TickWait(p);
    }

    /** The second half of that body: count a tick, and promote on the fiftieth. */
    method TickWait(p: int)
      requires Valid(NULL) && Slot(p)
      modifies this`ptable, this`rqs, this`lists
      ensures Valid(NULL)
      ensures var q, w := old(ptable)[p], old(ptable)[p].waitTicks + 1;
              var up := if w >= AGE_TICKS && q.priority > 0 && q.pid <= 100 then q.priority - 1 else q.priority;
              && OnlyLinks(old(ptable)[p := q.(priority := up, waitTicks := if w >= AGE_TICKS then 0 else w)], ptable)
              && lists == if q.state == RUNNABLE && up != q.priority
                          then Moved(old(lists), q.cpu, QueueIndex(q.priority), QueueIndex(up), p)
                          else old(lists)
    {
      Amend(p, ptable[p].(waitTicks := ptable[p].waitTicks + 1));
      if ptable[p].waitTicks >= AGE_TICKS {
        if ptable[p].priority > 0 && ptable[p].pid <= 100 {
          Reprioritize(p, ptable[p].priority - 1);
        }
        Amend(p, ptable[p].(waitTicks := 0));
      }
    }

    /** Kill a process that has lived too long; a sleeper is made RUNNABLE to notice. */
    method Expire(p: int)
      requires Valid(NULL) && Slot(p) && Alive(ptable[p])
      modifies this`ptable, this`rqs, this`lists
      ensures Valid(NULL)
      ensures var q := old(ptable)[p].(killed := true);
              if q.state == SLEEPING then
                && OnlyLinks(old(ptable)[p := q.(state := RUNNABLE)], ptable)
                && lists == AppendTo(old(lists), q.cpu, QueueIndex(q.priority), p)
              else OnlyLinks(old(ptable)[p := q], ptable) && lists == old(lists)
    {
      Amend(p, ptable[p].(killed := true));
      if ptable[p].state == SLEEPING {
        Become(p, ptable[p].(state := RUNNABLE), NULL);
        RqAdd(p);
      }
    }

    /** update_priorities: every process ages exactly once, and afterwards every RUNNABLE
        process is again in exactly the list of its priority. */
    method UpdatePriorities()
      requires Valid(NULL)
      modifies this`ptable, this`rqs, this`lists
      ensures Valid(NULL)
      ensures OnlyLinks(AgedTable(old(ptable), NPROC, ticks), ptable)
      ensures lists == AgedInTurn(old(lists), old(ptable), NPROC, ticks)
      ensures forall p :: Slot(p) ==> AgedOnce(old(ptable)[p], ptable[p], ticks)
      ensures forall p :: Slot(p) && ptable[p].state == RUNNABLE ==> InListOf(ptable, lists, p, ptable[p].priority)
      ensures forall p ::
                (Slot(p) && ptable[p].state == RUNNABLE && ptable[p].pid > 100 && !OldEnough(old(ptable)[p], ticks)) ==>
                  p in lists[ptable[p].cpu][SHORT]
    {
      ghost var pt, ls := ptable, lists;
      var p := 0;
      while p < NPROC
        invariant 0 <= p <= NPROC && Valid(NULL) && OnlyLinks(AgedTable(pt, p, ticks), ptable)
        invariant lists == AgedInTurn(ls, pt, p, ticks)
      {
        AgeNext(p, pt, ls);
        p := p + 1;
      }
      AgedIsOnce(pt, ptable, ticks);
      EachInItsList(ptable, rqs, lists);
      YoungInShort(pt, ptable, lists, ticks);
    }

    /** One turn of update_priorities. */
    method AgeNext(p: nat, ghost pt: seq<Proc>, ghost ls: seq<Lists>)
      requires Valid(NULL) && p < NPROC == |pt| && OnlyLinks(AgedTable(pt, p, ticks), ptable)
      requires lists == AgedInTurn(ls, pt, p, ticks)
      modifies this`ptable, this`rqs, this`lists
      ensures Valid(NULL) && OnlyLinks(AgedTable(pt, p + 1, ticks), ptable)
      ensures lists == AgedInTurn(ls, pt, p + 1, ticks)
    {
      hide Inv;
      HasItsLists(ptable, rqs, lists, p);
      LinksApart(lists, ptable[p], pt[p], p, ticks);
      AgeOne(p);
    }
  }

  /** A process is too old: created more than 10000 ticks ago, and not one of the first two. */
  predicate OldEnough(q: Proc, ticks: int) {
    (ticks - q.creation) % WRAP > 10000 && q.pid != 1 && q.pid != 2
  }

  /** What a pass of update_priorities means for a process with record q, record r afterwards:
      killed, and woken if it slept, once it is too old; otherwise a tick nearer to the next
      promotion, which comes with every fiftieth; and always of priority 5 if its pid is above
      100. Processes that neither run nor wait are left alone. */
  predicate AgedOnce(q: Proc, r: Proc, ticks: int) {
    if q.state !in {RUNNABLE, RUNNING, SLEEPING} then r == q.(next := r.next)
    else if OldEnough(q, ticks) then
      r == q.(killed := true, state := if q.state == SLEEPING then RUNNABLE else q.state, next := r.next)
    else
      && r == q.(priority := r.priority, waitTicks := r.waitTicks, next := r.next)
      && (q.waitTicks < 49 ==> r.waitTicks == q.waitTicks + 1) && (q.waitTicks >= 49 ==> r.waitTicks == 0)
      && (q.pid > 100 ==> r.priority == 5)
      && (q.pid <= 100 && q.waitTicks < 49 ==> r.priority == q.priority)
      && (q.pid <= 100 && q.waitTicks >= 49 ==> r.priority == q.priority - (if q.priority > 0 then 1 else 0))
  }

  lemma AgedIsOnce(pt: seq<Proc>, qt: seq<Proc>, ticks: int)
    requires |pt| == NPROC && OnlyLinks(AgedTable(pt, NPROC, ticks), qt)
    ensures forall p :: Slot(p) ==> AgedOnce(pt[p], qt[p], ticks)
  {
    var w := AgedTable(pt, NPROC, ticks);
    forall p | Slot(p) ensures AgedOnce(pt[p], qt[p], ticks) {
      assert qt[p] == w[p].(next := qt[p].next) && w[p] == Aged(pt[p], ticks);
    }
  }

  /** p stands in the list of this priority on its CPU; priority 5 is the short-lived list. */
  predicate InListOf(pt: seq<Proc>, ls: seq<Lists>, p: int, priority: int)
    requires |pt| == NPROC && Slot(p)
  {
    && 0 <= pt[p].cpu < |ls| && |ls[pt[p].cpu]| == QUEUES && 0 <= priority <= 10
    && p in ls[pt[p].cpu][if priority == 5 then SHORT else priority]
  }

  lemma EachInItsList(pt: seq<Proc>, rqs: seq<Rq>, ls: seq<Lists>)
    requires Inv(pt, rqs, ls, NULL)
    ensures forall p :: Slot(p) && pt[p].state == RUNNABLE ==> InListOf(pt, ls, p, pt[p].priority)
  {
    forall p | Slot(p) && pt[p].state == RUNNABLE ensures InListOf(pt, ls, p, pt[p].priority) {
      assert InItsList(pt, ls, p);
    }
  }

  /** A process with a pid above 100 that is not too old waits in the short-lived list. */
  lemma YoungInShort(pt: seq<Proc>, qt: seq<Proc>, ls: seq<Lists>, ticks: int)
    requires |pt| == |qt| == NPROC && forall p :: Slot(p) ==> AgedOnce(pt[p], qt[p], ticks)
    requires forall p :: Slot(p) && qt[p].state == RUNNABLE ==> InListOf(qt, ls, p, qt[p].priority)
    ensures forall p :: Slot(p) && qt[p].state == RUNNABLE && qt[p].pid > 100 && !OldEnough(pt[p], ticks) ==>
              0 <= qt[p].cpu < |ls| && |ls[qt[p].cpu]| == QUEUES && p in ls[qt[p].cpu][SHORT]
  {
    forall p | Slot(p) && qt[p].state == RUNNABLE && qt[p].pid > 100 && !OldEnough(pt[p], ticks)
      ensures 0 <= qt[p].cpu < |ls| && |ls[qt[p].cpu]| == QUEUES && p in ls[qt[p].cpu][SHORT]
    {
      assert AgedOnce(pt[p], qt[p], ticks) && InListOf(qt, ls, p, qt[p].priority);
    }
  }

  /** The lists once the first n processes have aged, one after the other. */
  ghost function AgedInTurn(ls: seq<Lists>, pt: seq<Proc>, n: nat, ticks: int): (ms: seq<Lists>)
    requires n <= |pt|
    ensures |ms| == |ls|
  {
    if n == 0 then ls
    else
      var ms := AgedInTurn(ls, pt, n - 1, ticks);
      if HasLists(ms, pt[n - 1]) then AgedLists(ms, pt[n - 1], n - 1, ticks) else ms
  }

  /** What aging does to the lists does not depend on links. */
  lemma LinksApart(ls: seq<Lists>, q: Proc, r: Proc, p: int, ticks: int)
    requires HasLists(ls, q) && r == q.(next := r.next)
    ensures HasLists(ls, r) && AgedLists(ls, r, p, ticks) == AgedLists(ls, q, p, ticks)
  {
  }

  lemma HasItsLists(pt: seq<Proc>, rqs: seq<Rq>, ls: seq<Lists>, p: int)
    requires Inv(pt, rqs, ls, NULL) && Slot(p)
    ensures HasLists(ls, pt[p])
  {
    if pt[p].state in {SLEEPING, RUNNABLE} {
      assert Represents(pt, rqs[pt[p].cpu], ls[pt[p].cpu]);
    }
  }

  /** The table once the first n processes have aged. */
  ghost function AgedTable(pt: seq<Proc>, n: nat, ticks: int): (qt: seq<Proc>)
    requires |pt| == NPROC && n <= NPROC
    ensures |qt| == NPROC
    ensures forall p :: Slot(p) ==> qt[p] == if p < n then Aged(pt[p], ticks) else pt[p]
  {
    seq(NPROC, p requires 0 <= p < NPROC => if p < n then Aged(pt[p], ticks) else pt[p])
  }
}
