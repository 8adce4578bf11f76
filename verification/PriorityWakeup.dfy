/** wakeup1 of priority-scheduler/proc.c on any channel. A sleeper of a priority other than 0
    and 5 is moved to priority 0 and queued twice, which ties its link to itself and counts it
    twice. What that does to the queues is told by a shadow: the queues as they would be if
    each process woken were queued once. */
module PriorityWakeup {
  import opened Common
  import opened PriorityProc
  import opened PriorityQueue
  import Sequences

  predicate SleepsOn(q: Proc, chan: int) { q.state == SLEEPING && q.chan == chan }

  predicate Boosted(q: Proc) { q.priority > 0 && q.priority != 5 }

  /** The record of a sleeper once it is woken. */
  function Awake(q: Proc): Proc {
    q.(state := RUNNABLE, priority := if Boosted(q) then 0 else q.priority)
  }

  // ---- wakeup1 as the code performs it ----

  predicate AllShaped(pt: seq<Proc>, rqs: seq<Rq>) {
    |pt| == NPROC && forall c :: 0 <= c < |rqs| ==> Shaped(pt, rqs[c])
  }

  /** Sleeper p is woken. The rq_remove before the boost finds nothing, as p is in no list. */
  function WokenUp(pt: seq<Proc>, r: Rq, p: int): (res: Option<(seq<Proc>, Rq)>)
    requires Shaped(pt, r) && Slot(p)
    ensures res.Some? ==> Shaped(res.value.0, res.value.1)
  {
    match Add(pt[p := Awake(pt[p])], r, p)
    case None => None
    case Some((qt, q)) => if Boosted(pt[p]) then Add(qt, q, p) else Some((qt, q))
  }

  /** One turn of the loop. */
  function Turn(pt: seq<Proc>, rqs: seq<Rq>, chan: int, i: nat): (res: Option<(seq<Proc>, seq<Rq>)>)
    requires AllShaped(pt, rqs) && i < NPROC
    ensures res.Some? ==> AllShaped(res.value.0, res.value.1) && |res.value.1| == |rqs|
  {
    if !SleepsOn(pt[i], chan) then Some((pt, rqs))
    else if !(0 <= pt[i].cpu < |rqs|) then None
    else
      match WokenUp(pt, rqs[pt[i].cpu], i)
      case None => None
      case Some((qt, q)) => Some((qt, rqs[pt[i].cpu := q]))
  }

  /** The first n turns. */
  function Scan(pt: seq<Proc>, rqs: seq<Rq>, chan: int, n: nat): (res: Option<(seq<Proc>, seq<Rq>)>)
    requires AllShaped(pt, rqs) && n <= NPROC
    ensures res.Some? ==> AllShaped(res.value.0, res.value.1) && |res.value.1| == |rqs|
  {
    if n == 0 then Some((pt, rqs))
    else
      match Scan(pt, rqs, chan, n - 1)
      case None => None
      case Some((qt, qs)) => Turn(qt, qs, chan, n - 1)
  }

  /** Once it has panicked, that is the end. */
  lemma {:induction false} ScanStops(pt: seq<Proc>, rqs: seq<Rq>, chan: int, n: nat, m: nat)
    requires AllShaped(pt, rqs) && n <= m <= NPROC && Scan(pt, rqs, chan, n).None?
    ensures Scan(pt, rqs, chan, m).None?
    decreases m
  {
    if n < m {
      ScanStops(pt, rqs, chan, n, m - 1);
    }
  }

  // ---- what it does, in terms of lists ----

  /** The table once the first n slots have been scanned, up to links. */
  function WokenTable(pt: seq<Proc>, chan: int, n: nat): (qt: seq<Proc>)
    requires |pt| == NPROC && n <= NPROC
    ensures |qt| == NPROC
    ensures forall p :: Slot(p) ==> qt[p] == if p < n && SleepsOn(pt[p], chan) then Awake(pt[p]) else pt[p]
  {
    seq(NPROC, p requires 0 <= p < NPROC => if p < n && SleepsOn(pt[p], chan) then Awake(pt[p]) else pt[p])
  }

  /** The lists then: each process woken has joined the back of its own, once. */
  function WokenLists(ls: seq<Lists>, pt: seq<Proc>, chan: int, n: nat): (ms: seq<Lists>)
    requires n <= |pt|
    ensures |ms| == |ls|
  {
    if n == 0 then ls
    else
      var ms := WokenLists(ls, pt, chan, n - 1);
      var q := Awake(pt[n - 1]);
      if SleepsOn(pt[n - 1], chan) && HasLists(ms, q) then AppendTo(ms, q.cpu, QueueIndex(q.priority), n - 1) else ms
  }

  /** How many of the first n slots are boosted on CPU c, that is, counted twice there. */
  function Boosts(pt: seq<Proc>, chan: int, c: int, n: nat): nat
    requires n <= |pt|
  {
    if n == 0 then 0
    else
      var q := pt[n - 1];
      Boosts(pt, chan, c, n - 1) + if SleepsOn(q, chan) && q.cpu == c && Boosted(q) then 1 else 0
  }

  /** How many rq_adds the first n slots make on CPU c. */
  function Adds(pt: seq<Proc>, chan: int, c: int, n: nat): nat
    requires n <= |pt|
  {
    if n == 0 then 0
    else
      var q := pt[n - 1];
      Adds(pt, chan, c, n - 1) + if SleepsOn(q, chan) && q.cpu == c then (if Boosted(q) then 2 else 1) else 0
  }

  /** The sleepers on the channel are of priority 0 or 5. */
  ghost predicate Wakeable(pt: seq<Proc>, chan: int)
    requires |pt| == NPROC
  {
    forall p :: Slot(p) && SleepsOn(pt[p], chan) ==> pt[p].priority in {0, 5}
  }

  // ---- the shadow ----

  /** Of one CPU: is the last process of list 0 tied to itself, and how much too high is the
      count? */
  datatype Knot = Knot(tied: bool, extra: nat)

  datatype Shadow = Shadow(pt: seq<Proc>, rqs: seq<Rq>, ls: seq<Lists>, ks: seq<Knot>)

  /** x is the last process of list 0 of its CPU, and tied to itself. */
  predicate Tied(sh: Shadow, x: int)
    requires Slot(x) && |sh.pt| == NPROC && |sh.ls| == |sh.ks|
  {
    var c := sh.pt[x].cpu;
    && 0 <= c < |sh.ls| && sh.ks[c].tied && |sh.ls[c]| == QUEUES && sh.ls[c][0] != []
    && x == sh.ls[c][0][|sh.ls[c][0]| - 1]
  }

  predicate SameProc(sh: Shadow, pt: seq<Proc>, x: int)
    requires Slot(x) && |sh.pt| == |pt| == NPROC && |sh.ls| == |sh.ks|
  {
    pt[x] == if Tied(sh, x) then sh.pt[x].(next := x) else sh.pt[x]
  }

  predicate SameQueue(sh: Shadow, rqs: seq<Rq>, c: int)
    requires 0 <= c < |rqs| == |sh.rqs| == |sh.ls| == |sh.ks|
  {
    && rqs[c] == sh.rqs[c].(count := sh.rqs[c].count + sh.ks[c].extra) && rqs[c].count <= MAX_PROCS
    && (sh.ks[c].tied ==> sh.ks[c].extra > 0 && |sh.ls[c]| == QUEUES && sh.ls[c][0] != [])
  }

  /** The queues are those of the shadow, but for the ties and the counts. */
  ghost predicate Shadows(sh: Shadow, pt: seq<Proc>, rqs: seq<Rq>) {
    && Inv(sh.pt, sh.rqs, sh.ls, NULL)
    && |pt| == NPROC && |rqs| == |sh.rqs| == |sh.ks|
    && (forall c :: 0 <= c < |rqs| ==> SameQueue(sh, rqs, c))
    && (forall x :: Slot(x) ==> SameProc(sh, pt, x))
  }

  /** Without a knot the queues are their own shadow. */
  function Unknotted(pt: seq<Proc>, rqs: seq<Rq>, ls: seq<Lists>): Shadow {
    Shadow(pt, rqs, ls, seq(|rqs|, _ => Knot(false, 0)))
  }

  lemma UnknottedShadows(pt: seq<Proc>, rqs: seq<Rq>, ls: seq<Lists>)
    requires Inv(pt, rqs, ls, NULL)
    ensures Shadows(Unknotted(pt, rqs, ls), pt, rqs)
  {
    var sh := Unknotted(pt, rqs, ls);
    forall c | 0 <= c < |rqs| ensures SameQueue(sh, rqs, c) {
      CountBound(pt, rqs[c], ls[c], c);
    }
    forall x | Slot(x) ensures SameProc(sh, pt, x) {
    }
  }

  /** A queue holds no more than there are processes. */
  lemma CountBound(pt: seq<Proc>, r: Rq, l: Lists, c: int)
    requires Represents(pt, r, l) && Placed(pt, l, c)
    ensures r.count <= MAX_PROCS
  {
    if p :| Slot(p) && !Queued(l, p) {
      HasRoom(pt, r, l, c, p);
    } else {
      var s := Flatten(l);
      FlattenDistinct(pt, l, c);
      forall k | 0 <= k < |s| ensures s[k] in Sequences.UpTo(NPROC) {
        FlattenMembers(pt, l, c, NPROC, k);
      }
      Sequences.DistinctBound(s, Sequences.UpTo(NPROC));
    }
  }

  // ---- one turn ----

  /** The knot of its CPU once sleeper q is woken. */
  function KnotAfter(kn: Knot, q: Proc): Knot {
    if Boosted(q) then Knot(true, kn.extra + 1)
    else if q.priority == 0 then Knot(false, kn.extra)
    else kn
  }

  /** The shadow queues process p once. */
  ghost predicate Queues(sh: Shadow, y: Shadow, p: int)
    requires Slot(p) && |sh.pt| == NPROC
  {
    var q := Awake(sh.pt[p]);
    && 0 <= q.cpu < |sh.rqs| == |sh.ls| == |sh.ks| && 0 <= q.priority <= 10 && |sh.ls[q.cpu]| == QUEUES
    && Shaped(sh.pt, sh.rqs[q.cpu]) && TailsOk(sh.rqs[q.cpu])
    && var (qt, r) := Enqueue(sh.pt[p := q], sh.rqs[q.cpu], p);
       && OnlyLinks(sh.pt[p := q], qt)
       && y == Shadow(qt, sh.rqs[q.cpu := r], AppendTo(sh.ls, q.cpu, QueueIndex(q.priority), p),
                      sh.ks[q.cpu := KnotAfter(sh.ks[q.cpu], sh.pt[p])])
       && Inv(y.pt, y.rqs, y.ls, NULL)
  }

  lemma ShadowQueues(sh: Shadow, p: int) returns (y: Shadow)
    requires Inv(sh.pt, sh.rqs, sh.ls, NULL) && |sh.ks| == |sh.ls| && Slot(p) && sh.pt[p].state == SLEEPING
    ensures Queues(sh, y, p)
  {
    var q := Awake(sh.pt[p]);
    var c, i, t := q.cpu, QueueIndex(q.priority), sh.pt[p := q];
    TouchUnqueued(sh.pt, sh.rqs, sh.ls, NULL, p, q);
    assert Represents(sh.pt, sh.rqs[c], sh.ls[c]);
    AddRepresents(t, sh.rqs, sh.ls, p);
    var (qt, r) := Enqueue(t, sh.rqs[c], p);
    AddReady(t, qt, sh.ls, p);
    y := Shadow(qt, sh.rqs[c := r], AppendTo(sh.ls, c, i, p), sh.ks[c := KnotAfter(sh.ks[c], sh.pt[p])]);
  }

  /** The tail of list i is its last process, and no list 0 ends in a process of another list. */
  lemma Tails(sh: Shadow, c: int, i: int)
    requires Inv(sh.pt, sh.rqs, sh.ls, NULL) && 0 <= c < |sh.ls| && 0 <= i < QUEUES
    ensures Shaped(sh.pt, sh.rqs[c]) && TailsOk(sh.rqs[c]) && |sh.ls[c]| == QUEUES
    ensures sh.rqs[c].head[i] == NULL <==> sh.ls[c][i] == []
    ensures sh.ls[c][i] != [] ==>
              var x := sh.rqs[c].tail[i];
              && x == sh.ls[c][i][|sh.ls[c][i]| - 1] && Slot(x) && sh.pt[x].cpu == c
              && (i != 0 && sh.ls[c][0] != [] ==> x != sh.ls[c][0][|sh.ls[c][0]| - 1])
  {
    assert Represents(sh.pt, sh.rqs[c], sh.ls[c]);
    TailIsLast(sh.pt, sh.rqs[c], sh.ls[c]);
    if sh.ls[c][i] != [] && i != 0 {
      Apart(sh.pt, sh.ls[c], c, 0, i, |sh.ls[c][i]| - 1);
    }
  }

  /** A sleeper is not tied and ends no list. */
  lemma SleeperApart(sh: Shadow, p: int)
    requires Inv(sh.pt, sh.rqs, sh.ls, NULL) && |sh.ls| == |sh.ks| && Slot(p) && sh.pt[p].state == SLEEPING
    ensures !Tied(sh, p)
    ensures forall c, i :: 0 <= c < |sh.ls| && 0 <= i < |sh.ls[c]| && sh.ls[c][i] != [] ==>
              p != sh.ls[c][i][|sh.ls[c][i]| - 1]
  {
    forall c, i | 0 <= c < |sh.ls| && 0 <= i < |sh.ls[c]| && sh.ls[c][i] != []
      ensures p != sh.ls[c][i][|sh.ls[c][i]| - 1]
    {
      NotIn(sh.ls[c], i, p);
    }
  }

  /** What waking p makes of the queue, as long as it does not panic. */
  function Requeued(pt: seq<Proc>, r: Rq, p: int): (seq<Proc>, Rq)
    requires Shaped(pt, r) && Slot(p) && 0 <= pt[p].priority <= 10 && TailsOk(r)
  {
    var (qt, q) := Enqueue(pt[p := Awake(pt[p])], r, p);
    if Boosted(pt[p]) then (qt[p := qt[p].(next := p)], q.(count := q.count + 1)) else (qt, q)
  }

  lemma WokenUpIs(pt: seq<Proc>, r: Rq, p: int)
    requires Shaped(pt, r) && Slot(p) && 0 <= pt[p].priority <= 10 && TailsOk(r)
    ensures var n := if Boosted(pt[p]) then 2 else 1;
            WokenUp(pt, r, p) == if r.count + n > MAX_PROCS then None else Some(Requeued(pt, r, p))
  {
    var q := Awake(pt[p]);
    var i, t := QueueIndex(q.priority), pt[p := q];
    assert TailOk(r, i);
    if r.count < MAX_PROCS && Boosted(pt[p]) {
      var (qt, s) := Enqueue(t, r, p);
      assert s.head[i] != NULL && s.tail[i] == p && TailOk(s, i);
      var (rt, u) := Requeued(pt, r, p);
      if s.count < MAX_PROCS {
        assert Enqueue(qt, s, p).0 == rt;
        assert s.tail[i := p] == s.tail;
      }
    }
  }

  lemma ProcTurn(sh: Shadow, y: Shadow, pt: seq<Proc>, rqs: seq<Rq>, p: int, x: int)
    requires Shadows(sh, pt, rqs) && Slot(p) && sh.pt[p].state == SLEEPING && Queues(sh, y, p) && Slot(x)
    requires Shaped(pt, rqs[sh.pt[p].cpu]) && TailsOk(rqs[sh.pt[p].cpu]) && pt[p] == sh.pt[p]
    ensures SameProc(y, Requeued(pt, rqs[sh.pt[p].cpu], p).0, x)
  {
    hide Inv, AllRepresent;
    var q := Awake(sh.pt[p]);
    var c, i := q.cpu, QueueIndex(q.priority);
    Tails(sh, c, i);
    SleeperApart(sh, p);
    assert SameQueue(sh, rqs, c) && SameProc(sh, pt, x);
    KnotsOk(sh, pt, rqs);
    TieTurn(sh, y, p, x);
  }

  lemma KnotsOk(sh: Shadow, pt: seq<Proc>, rqs: seq<Rq>)
    requires Shadows(sh, pt, rqs)
    ensures forall c :: 0 <= c < |sh.ks| && sh.ks[c].tied ==> |sh.ls[c]| == QUEUES && sh.ls[c][0] != []
  {
    forall c | 0 <= c < |sh.ks| && sh.ks[c].tied ensures |sh.ls[c]| == QUEUES && sh.ls[c][0] != [] {
      assert SameQueue(sh, rqs, c);
    }
  }

  /** Who is tied after process p was woken. */
  lemma TieTurn(sh: Shadow, y: Shadow, p: int, x: int)
    requires Inv(sh.pt, sh.rqs, sh.ls, NULL) && Slot(p) && sh.pt[p].state == SLEEPING && Queues(sh, y, p) && Slot(x)
    requires forall c :: 0 <= c < |sh.ks| && sh.ks[c].tied ==> |sh.ls[c]| == QUEUES && sh.ls[c][0] != []
    ensures Tied(y, x) <==>
              if x == p then Boosted(sh.pt[p])
              else Tied(sh, x) && !(sh.pt[x].cpu == sh.pt[p].cpu && Awake(sh.pt[p]).priority == 0)
  {
    hide AllRepresent, Represents;
    var q := Awake(sh.pt[p]);
    var c, i := q.cpu, QueueIndex(q.priority);
    SleeperApart(sh, p);
    assert y.pt[x].cpu == sh.pt[x].cpu;
  }

  lemma QueueTurn(sh: Shadow, y: Shadow, pt: seq<Proc>, rqs: seq<Rq>, p: int, d: int)
    requires Shadows(sh, pt, rqs) && Slot(p) && sh.pt[p].state == SLEEPING && Queues(sh, y, p) && 0 <= d < |rqs|
    requires Shaped(pt, rqs[sh.pt[p].cpu]) && TailsOk(rqs[sh.pt[p].cpu]) && pt[p] == sh.pt[p]
    requires rqs[sh.pt[p].cpu].count + (if Boosted(pt[p]) then 2 else 1) <= MAX_PROCS
    ensures SameQueue(y, rqs[sh.pt[p].cpu := Requeued(pt, rqs[sh.pt[p].cpu], p).1], d)
  {
    hide Inv, Tied;
    var c := sh.pt[p].cpu;
    assert SameQueue(sh, rqs, c) && SameQueue(sh, rqs, d);
  }

  /** A turn that wakes nobody changes nothing; one that wakes p panics exactly if the queue of
      its CPU has no room for it as often as it is added, and else the shadow follows. */
  lemma ShadowTurn(sh: Shadow, pt: seq<Proc>, rqs: seq<Rq>, chan: int, p: nat) returns (y: Shadow)
    requires Shadows(sh, pt, rqs) && p < NPROC && SleepsOn(pt[p], chan)
    ensures AllShaped(pt, rqs) && pt[p] == sh.pt[p] && 0 <= pt[p].cpu < |rqs|
    ensures var t := Turn(pt, rqs, chan, p);
            && (t.None? <==> rqs[pt[p].cpu].count + (if Boosted(pt[p]) then 2 else 1) > MAX_PROCS)
            && (t.Some? ==> Shadows(y, t.value.0, t.value.1) && Queues(sh, y, p))
  {
    assert Slot(p) && SameProc(sh, pt, p);
    SleeperApart(sh, p);
    ShapedToo(sh, pt, rqs);
    var c := pt[p].cpu;
    y := ShadowQueues(sh, p);
    WokenUpIs(pt, rqs[c], p);
    if rqs[c].count + (if Boosted(pt[p]) then 2 else 1) <= MAX_PROCS {
      var (qt, q) := Requeued(pt, rqs[c], p);
      var qs := rqs[c := q];
      forall x | Slot(x) ensures SameProc(y, qt, x) {
        ProcTurn(sh, y, pt, rqs, p, x);
      }
      forall d | 0 <= d < |qs| ensures SameQueue(y, qs, d) {
        QueueTurn(sh, y, pt, rqs, p, d);
      }
    }
  }

  lemma ShapedToo(sh: Shadow, pt: seq<Proc>, rqs: seq<Rq>)
    requires Shadows(sh, pt, rqs)
    ensures AllShaped(pt, rqs) && forall c :: 0 <= c < |rqs| ==> TailsOk(rqs[c])
  {
    forall c | 0 <= c < |rqs| ensures Shaped(pt, rqs[c]) && TailsOk(rqs[c]) {
      assert SameQueue(sh, rqs, c) && Represents(sh.pt, sh.rqs[c], sh.ls[c]);
      TailIsLast(sh.pt, sh.rqs[c], sh.ls[c]);
      forall i | 0 <= i < QUEUES ensures TailOk(rqs[c], i) {
        assert TailOk(sh.rqs[c], i);
      }
    }
  }

  // ---- the loop ----

  /** Before its turn a slot has its old record, but for the link. */
  lemma WokenAt(pt: seq<Proc>, qt: seq<Proc>, chan: int, i: nat)
    requires i < NPROC == |pt| && OnlyLinks(WokenTable(pt, chan, i), qt)
    ensures qt[i] == pt[i].(next := qt[i].next)
  {
    assert Slot(i);
  }

  /** The queues of all CPUs after the first n turns, seen through the shadow y. */
  ghost predicate Scanned(sh: Shadow, rqs: seq<Rq>, chan: int, n: nat, y: Shadow, qt: seq<Proc>, qs: seq<Rq>)
    requires |sh.pt| == NPROC && n <= NPROC
  {
    && Shadows(y, qt, qs) && |qs| == |rqs| == |sh.ks|
    && OnlyLinks(WokenTable(sh.pt, chan, n), y.pt) && y.ls == WokenLists(sh.ls, sh.pt, chan, n)
    && (forall c :: 0 <= c < |rqs| ==> Tallied(sh, rqs, chan, n, y, qs, c))
  }

  ghost predicate Tallied(sh: Shadow, rqs: seq<Rq>, chan: int, n: nat, y: Shadow, qs: seq<Rq>, c: int)
    requires 0 <= c < |rqs| == |qs| == |sh.ks| == |y.ks| && n <= |sh.pt|
  {
    && qs[c].count == rqs[c].count + Adds(sh.pt, chan, c, n)
    && y.ks[c].extra == sh.ks[c].extra + Boosts(sh.pt, chan, c, n)
  }

  /** The queue of CPU c has no room for what the first n turns add. */
  predicate Overfull(pt: seq<Proc>, rqs: seq<Rq>, chan: int, n: nat, c: int)
    requires n <= |pt| && 0 <= c < |rqs|
  {
    rqs[c].count + Adds(pt, chan, c, n) > MAX_PROCS
  }

  ghost predicate Overflows(pt: seq<Proc>, rqs: seq<Rq>, chan: int, n: nat)
    requires n <= |pt|
  {
    exists c :: 0 <= c < |rqs| && Overfull(pt, rqs, chan, n, c)
  }

  /** wakeup1 panics exactly if some queue overflows; else the shadow tells what it did. */
  lemma {:induction false} ScanShadow(sh: Shadow, pt: seq<Proc>, rqs: seq<Rq>, chan: int, n: nat) returns (y: Shadow)
    requires Shadows(sh, pt, rqs) && n <= NPROC
    ensures AllShaped(pt, rqs)
    ensures var t := Scan(pt, rqs, chan, n);
            && (t.None? <==> Overflows(sh.pt, rqs, chan, n))
            && (t.Some? ==> Scanned(sh, rqs, chan, n, y, t.value.0, t.value.1))
    decreases n
  {
    ShapedToo(sh, pt, rqs);
    if n == 0 {
      y := sh;
      forall c | 0 <= c < |rqs| ensures !Overfull(sh.pt, rqs, chan, 0, c) {
        assert SameQueue(sh, rqs, c);
      }
    } else {
      y := ScanShadow(sh, pt, rqs, chan, n - 1);
      match Scan(pt, rqs, chan, n - 1)
      case None =>
        StillOverflows(sh.pt, rqs, chan, n);
      case Some((qt, qs)) =>
        y := ScanTurn(sh, rqs, chan, n, y, qt, qs);
    }
  }

  lemma StillOverflows(pt: seq<Proc>, rqs: seq<Rq>, chan: int, n: nat)
    requires 0 < n <= |pt| && Overflows(pt, rqs, chan, n - 1)
    ensures Overflows(pt, rqs, chan, n)
  {
    var c :| 0 <= c < |rqs| && Overfull(pt, rqs, chan, n - 1, c);
    assert Overfull(pt, rqs, chan, n, c);
  }

  lemma ScanTurn(sh: Shadow, rqs: seq<Rq>, chan: int, n: nat, x: Shadow, qt: seq<Proc>, qs: seq<Rq>)
    returns (y: Shadow)
    requires |sh.pt| == NPROC && 0 < n <= NPROC && Scanned(sh, rqs, chan, n - 1, x, qt, qs)
    ensures AllShaped(qt, qs)
    ensures var t := Turn(qt, qs, chan, n - 1);
            && (t.None? <==> Overflows(sh.pt, rqs, chan, n))
            && (t.Some? ==> Scanned(sh, rqs, chan, n, y, t.value.0, t.value.1))
  {
    var p := n - 1;
    ShapedToo(x, qt, qs);
    assert Slot(p) && SameProc(x, qt, p);
    WokenAt(sh.pt, x.pt, chan, p);
    if SleepsOn(qt[p], chan) {
      y := ShadowTurn(x, qt, qs, chan, p);
      OverflowTurn(sh, rqs, chan, n, x, qt, qs);
      if Turn(qt, qs, chan, p).Some? {
        TableTurn(sh.pt, x, y, chan, n);
        ListsTurn(sh, x, y, chan, n);
        forall c | 0 <= c < |rqs| ensures Tallied(sh, rqs, chan, n, y, Turn(qt, qs, chan, p).value.1, c) {
          TallyTurn(sh, rqs, chan, n, x, y, qt, qs, c);
        }
      }
    } else {
      y := x;
      QuietTurn(sh, rqs, chan, n, x, qt, qs);
    }
  }

  lemma OverflowTurn(sh: Shadow, rqs: seq<Rq>, chan: int, n: nat, x: Shadow, qt: seq<Proc>, qs: seq<Rq>)
    requires |sh.pt| == NPROC && 0 < n <= NPROC && Scanned(sh, rqs, chan, n - 1, x, qt, qs)
    requires SleepsOn(sh.pt[n - 1], chan) && 0 <= sh.pt[n - 1].cpu < |rqs|
    ensures Overflows(sh.pt, rqs, chan, n) <==>
              qs[sh.pt[n - 1].cpu].count + (if Boosted(sh.pt[n - 1]) then 2 else 1) > MAX_PROCS
  {
    var d := sh.pt[n - 1].cpu;
    assert Tallied(sh, rqs, chan, n - 1, x, qs, d);
    forall c | 0 <= c < |rqs| && c != d ensures !Overfull(sh.pt, rqs, chan, n, c) {
      assert Tallied(sh, rqs, chan, n - 1, x, qs, c) && SameQueue(x, qs, c);
    }
    assert Overfull(sh.pt, rqs, chan, n, d) <==>
        qs[d].count + (if Boosted(sh.pt[n - 1]) then 2 else 1) > MAX_PROCS;
  }

  lemma TableTurn(pt: seq<Proc>, x: Shadow, y: Shadow, chan: int, n: nat)
    requires |pt| == |x.pt| == NPROC && 0 < n <= NPROC && OnlyLinks(WokenTable(pt, chan, n - 1), x.pt)
    requires SleepsOn(pt[n - 1], chan) && Slot(n - 1) && Queues(x, y, n - 1)
    ensures OnlyLinks(WokenTable(pt, chan, n), y.pt)
  {
    hide Inv, Enqueue;
    WokenAt(pt, x.pt, chan, n - 1);
    var u, w := x.pt[n - 1 := Awake(x.pt[n - 1])], WokenTable(pt, chan, n);
    forall p | Slot(p) ensures y.pt[p] == w[p].(next := y.pt[p].next) {
      assert y.pt[p] == u[p].(next := y.pt[p].next);
      assert x.pt[p] == WokenTable(pt, chan, n - 1)[p].(next := x.pt[p].next);
    }
  }

  lemma ListsTurn(sh: Shadow, x: Shadow, y: Shadow, chan: int, n: nat)
    requires |sh.pt| == |x.pt| == NPROC && 0 < n <= NPROC && OnlyLinks(WokenTable(sh.pt, chan, n - 1), x.pt)
    requires SleepsOn(sh.pt[n - 1], chan) && Slot(n - 1) && Queues(x, y, n - 1)
    requires x.ls == WokenLists(sh.ls, sh.pt, chan, n - 1)
    ensures y.ls == WokenLists(sh.ls, sh.pt, chan, n)
  {
    hide Inv, Enqueue;
    WokenAt(sh.pt, x.pt, chan, n - 1);
  }

  lemma TallyTurn(sh: Shadow, rqs: seq<Rq>, chan: int, n: nat, x: Shadow, y: Shadow, qt: seq<Proc>, qs: seq<Rq>, c: int)
    requires |sh.pt| == NPROC && 0 < n <= NPROC && Scanned(sh, rqs, chan, n - 1, x, qt, qs) && 0 <= c < |rqs|
    requires SleepsOn(qt[n - 1], chan) && Slot(n - 1) && Queues(x, y, n - 1) && AllShaped(qt, qs)
    requires Turn(qt, qs, chan, n - 1).Some?
    ensures Tallied(sh, rqs, chan, n, y, Turn(qt, qs, chan, n - 1).value.1, c)
  {
    hide Inv, WokenTable, WokenLists;
    assert Tallied(sh, rqs, chan, n - 1, x, qs, c) && SameProc(x, qt, n - 1);
    WokenAt(sh.pt, x.pt, chan, n - 1);
  }

  lemma QuietTally(sh: Shadow, rqs: seq<Rq>, chan: int, n: nat, x: Shadow, qt: seq<Proc>, qs: seq<Rq>, c: int)
    requires |sh.pt| == NPROC && 0 < n <= NPROC && Scanned(sh, rqs, chan, n - 1, x, qt, qs)
    requires !SleepsOn(sh.pt[n - 1], chan) && 0 <= c < |rqs|
    ensures Tallied(sh, rqs, chan, n, x, qs, c) && !Overfull(sh.pt, rqs, chan, n, c)
  {
    assert Tallied(sh, rqs, chan, n - 1, x, qs, c) && SameQueue(x, qs, c);
  }

  lemma QuietTurn(sh: Shadow, rqs: seq<Rq>, chan: int, n: nat, x: Shadow, qt: seq<Proc>, qs: seq<Rq>)
    requires |sh.pt| == NPROC && 0 < n <= NPROC && Scanned(sh, rqs, chan, n - 1, x, qt, qs)
    requires !SleepsOn(sh.pt[n - 1], chan)
    ensures Scanned(sh, rqs, chan, n, x, qt, qs) && !Overflows(sh.pt, rqs, chan, n)
  {
    hide Tied, SameProc, Inv;
    forall c | 0 <= c < |rqs| ensures Tallied(sh, rqs, chan, n, x, qs, c) && !Overfull(sh.pt, rqs, chan, n, c) {
      QuietTally(sh, rqs, chan, n, x, qt, qs, c);
    }
    assert WokenTable(sh.pt, chan, n) == WokenTable(sh.pt, chan, n - 1);
  }

  // ---- when the queues still stand for lists ----

  /** Following the links of s, the last of which may lead back to itself, gives the elements
      of t one after the other. */
  lemma {:induction false} SpellsAt(bt: seq<Proc>, pt: seq<Proc>, head: int, tail: int, s: seq<int>, tied: bool,
      t: seq<int>, k: nat)
    requires |bt| == |pt| == NPROC && ListIs(bt, head, tail, s) && ListIs(pt, head, tail, t) && s != [] && k < |t|
    requires forall j :: 0 <= j < |s| ==>
               pt[s[j]].next == if tied && j == |s| - 1 then s[j] else bt[s[j]].next
    ensures if tied then t[k] == s[if k < |s| then k else |s| - 1] else k < |s| && t[k] == s[k]
  {
    if k > 0 {
      SpellsAt(bt, pt, head, tail, s, tied, t, k - 1);
      assert Follows(pt, t, k - 1);
      assert Follows(bt, s, if k - 1 < |s| then k - 1 else |s| - 1);
    }
  }

  /** So links that end in a loop spell no list, and others only one. */
  lemma OneSpelling(bt: seq<Proc>, pt: seq<Proc>, head: int, tail: int, s: seq<int>, tied: bool, t: seq<int>)
    requires |bt| == |pt| == NPROC && ListIs(bt, head, tail, s) && ListIs(pt, head, tail, t) && (tied ==> s != [])
    requires forall j :: 0 <= j < |s| ==>
               pt[s[j]].next == if tied && j == |s| - 1 then s[j] else bt[s[j]].next
    ensures !tied && t == s
  {
    if s != [] {
      var k := |t| - 1;
      SpellsAt(bt, pt, head, tail, s, tied, t, k);
      assert Follows(pt, t, k);
      assert Follows(bt, s, if k < |s| then k else |s| - 1);
      forall j | 0 <= j < |t| ensures j < |s| && t[j] == s[j] {
        SpellsAt(bt, pt, head, tail, s, tied, t, j);
      }
    }
  }

  /** The link of a process in list i of CPU c. */
  lemma LinkOf(sh: Shadow, pt: seq<Proc>, rqs: seq<Rq>, c: int, i: int, j: nat)
    requires Shadows(sh, pt, rqs) && 0 <= c < |rqs| && |sh.ls[c]| == QUEUES && 0 <= i < QUEUES && j < |sh.ls[c][i]|
    ensures var s := sh.ls[c][i];
            && Slot(s[j])
            && pt[s[j]].next == if i == 0 && sh.ks[c].tied && j == |s| - 1 then s[j] else sh.pt[s[j]].next
  {
    var s := sh.ls[c][i];
    assert Placed(sh.pt, sh.ls[c], c) && Slot(s[j]) && SameProc(sh, pt, s[j]);
    if i != 0 {
      Apart(sh.pt, sh.ls[c], c, 0, i, j);
    } else if j < |s| - 1 {
      assert s[j] != s[|s| - 1];
    }
  }

  /** The queue of CPU c stands for some lists exactly if nobody is counted twice there. */
  lemma KnotIff(sh: Shadow, pt: seq<Proc>, rqs: seq<Rq>, c: int)
    requires Shadows(sh, pt, rqs) && 0 <= c < |rqs|
    ensures (exists m :: Represents(pt, rqs[c], m)) <==> sh.ks[c].extra == 0
    ensures sh.ks[c].extra == 0 ==> Represents(pt, rqs[c], sh.ls[c])
  {
    var l := sh.ls[c];
    assert SameQueue(sh, rqs, c) && Represents(sh.pt, sh.rqs[c], l);
    if sh.ks[c].extra == 0 {
      forall i | 0 <= i < QUEUES ensures ListIs(pt, rqs[c].head[i], rqs[c].tail[i], l[i]) {
        assert ListIs(sh.pt, rqs[c].head[i], rqs[c].tail[i], l[i]);
        forall j | 0 <= j < |l[i]| ensures pt[l[i][j]].next == sh.pt[l[i][j]].next {
          LinkOf(sh, pt, rqs, c, i, j);
        }
        ListFrame(sh.pt, pt, rqs[c].head[i], rqs[c].tail[i], l[i]);
      }
      assert Represents(pt, rqs[c], l);
    }
    if m :| Represents(pt, rqs[c], m) {
      NoneTwice(sh, pt, rqs, c, m);
    }
  }

  lemma NoneTwice(sh: Shadow, pt: seq<Proc>, rqs: seq<Rq>, c: int, m: Lists)
    requires Shadows(sh, pt, rqs) && 0 <= c < |rqs| && Represents(pt, rqs[c], m)
    ensures sh.ks[c].extra == 0
  {
    var l := sh.ls[c];
    assert SameQueue(sh, rqs, c) && Represents(sh.pt, sh.rqs[c], l);
    forall i | 0 <= i < QUEUES ensures m[i] == l[i] {
      SameList(sh, pt, rqs, c, m, i);
    }
    assert m == l;
  }

  lemma SameList(sh: Shadow, pt: seq<Proc>, rqs: seq<Rq>, c: int, m: Lists, i: int)
    requires Shadows(sh, pt, rqs) && 0 <= c < |rqs| && Represents(pt, rqs[c], m) && 0 <= i < QUEUES
    ensures |sh.ls[c]| == QUEUES && m[i] == sh.ls[c][i]
  {
    var l := sh.ls[c];
    assert SameQueue(sh, rqs, c) && Represents(sh.pt, sh.rqs[c], l);
    assert ListIs(sh.pt, rqs[c].head[i], rqs[c].tail[i], l[i]) && ListIs(pt, rqs[c].head[i], rqs[c].tail[i], m[i]);
    var tied := i == 0 && sh.ks[c].tied;
    forall j | 0 <= j < |l[i]|
      ensures pt[l[i][j]].next == if tied && j == |l[i]| - 1 then l[i][j] else sh.pt[l[i][j]].next
    {
      LinkOf(sh, pt, rqs, c, i, j);
    }
    OneSpelling(sh.pt, pt, rqs[c].head[i], rqs[c].tail[i], l[i], tied, m[i]);
  }

  ghost predicate NoKnots(ks: seq<Knot>) {
    forall c :: 0 <= c < |ks| ==> ks[c].extra == 0
  }

  /** The queues of all CPUs stand for lists exactly if there is no knot, and then for those of
      the shadow, which they equal. */
  lemma KnotsIff(sh: Shadow, pt: seq<Proc>, rqs: seq<Rq>)
    requires Shadows(sh, pt, rqs)
    ensures (exists ms :: AllRepresent(pt, rqs, ms)) <==> NoKnots(sh.ks)
    ensures NoKnots(sh.ks) ==> pt == sh.pt && rqs == sh.rqs && Inv(pt, rqs, sh.ls, NULL)
  {
    if NoKnots(sh.ks) {
      forall c | 0 <= c < |rqs| ensures rqs[c] == sh.rqs[c] && !sh.ks[c].tied {
        assert SameQueue(sh, rqs, c);
      }
      forall x | Slot(x) ensures pt[x] == sh.pt[x] {
        assert SameProc(sh, pt, x);
      }
      assert pt == sh.pt && rqs == sh.rqs;
      assert AllRepresent(pt, rqs, sh.ls);
    }
    if ms :| AllRepresent(pt, rqs, ms) {
      forall c | 0 <= c < |sh.ks| ensures sh.ks[c].extra == 0 {
        NoneTwice(sh, pt, rqs, c, ms[c]);
      }
    }
  }

  // ---- the theorem ----

  /** wakeup1 ends, and leaves queues that stand for some lists. */
  ghost predicate LeavesLists(pt: seq<Proc>, rqs: seq<Rq>, chan: int)
    requires AllShaped(pt, rqs)
  {
    var t := Scan(pt, rqs, chan, NPROC);
    t.Some? && exists ms :: AllRepresent(t.value.0, t.value.1, ms)
  }

  /** No sleeper of CPU c on the channel is boosted. */
  ghost predicate NoneBoosted(pt: seq<Proc>, chan: int, c: int)
    requires |pt| == NPROC
  {
    forall p :: Slot(p) && SleepsOn(pt[p], chan) && pt[p].cpu == c ==> !Boosted(pt[p])
  }

  lemma {:induction false} BoostsIff(pt: seq<Proc>, chan: int, c: int, n: nat)
    requires n <= |pt|
    ensures Boosts(pt, chan, c, n) == 0 <==>
              forall p :: 0 <= p < n && SleepsOn(pt[p], chan) && pt[p].cpu == c ==> !Boosted(pt[p])
  {
    if n > 0 {
      BoostsIff(pt, chan, c, n - 1);
    }
  }

  /** If none is boosted, every process finds room. */
  lemma {:induction false} WakeableFits(sh: Shadow, pt: seq<Proc>, rqs: seq<Rq>, chan: int, n: nat)
    requires Shadows(sh, pt, rqs) && NoKnots(sh.ks) && Wakeable(pt, chan) && n <= NPROC
    ensures AllShaped(pt, rqs) && Scan(pt, rqs, chan, n).Some?
  {
    hide Scanned, Turn, Inv;
    ShapedToo(sh, pt, rqs);
    if n > 0 {
      KnotsIff(sh, pt, rqs);
      WakeableFits(sh, pt, rqs, chan, n - 1);
      var y := ScanShadow(sh, pt, rqs, chan, n - 1);
      var (qt, qs) := Scan(pt, rqs, chan, n - 1).value;
      RoomToWake(sh, pt, rqs, chan, n, y, qt, qs);
    }
  }

  lemma RoomToWake(sh: Shadow, pt: seq<Proc>, rqs: seq<Rq>, chan: int, n: nat, y: Shadow, qt: seq<Proc>, qs: seq<Rq>)
    requires |sh.pt| == NPROC && 0 < n <= NPROC && Scanned(sh, rqs, chan, n - 1, y, qt, qs)
    requires pt == sh.pt && NoKnots(sh.ks) && Wakeable(pt, chan)
    ensures AllShaped(qt, qs) && Turn(qt, qs, chan, n - 1).Some?
  {
    var p := n - 1;
    ShapedToo(y, qt, qs);
    assert Slot(p) && SameProc(y, qt, p);
    WokenAt(pt, y.pt, chan, p);
    if SleepsOn(qt[p], chan) {
      var x := ShadowTurn(y, qt, qs, chan, p);
      var c := qt[p].cpu;
      assert Tallied(sh, rqs, chan, p, y, qs, c) && SameQueue(y, qs, c);
      BoostsIff(pt, chan, c, p);
      HasRoom(y.pt, y.rqs[c], y.ls[c], c, p);
    }
  }

  /** wakeup1 on a channel, over the whole table and all CPUs: it ends with queues that stand
      for some lists if and only if the sleepers on the channel are of priority 0 or 5. It
      panics ("runqueue full") exactly if some queue has no room for what is added to it, and
      if it does not, the queue of each CPU is lost exactly if a sleeper of that CPU is boosted. */
  lemma WakeupKeepsQueuesIff(pt: seq<Proc>, rqs: seq<Rq>, ls: seq<Lists>, chan: int)
    requires Inv(pt, rqs, ls, NULL)
    ensures AllShaped(pt, rqs) && (LeavesLists(pt, rqs, chan) <==> Wakeable(pt, chan))
    ensures Scan(pt, rqs, chan, NPROC).None? <==> Overflows(pt, rqs, chan, NPROC)
    ensures Scan(pt, rqs, chan, NPROC).Some? ==>
              var (qt, qs) := Scan(pt, rqs, chan, NPROC).value;
              forall c :: 0 <= c < |rqs| ==>
                ((exists m :: Represents(qt, qs[c], m)) <==> NoneBoosted(pt, chan, c))
  {
    var sh := Unknotted(pt, rqs, ls);
    UnknottedShadows(pt, rqs, ls);
    var y := ScanShadow(sh, pt, rqs, chan, NPROC);
    if Wakeable(pt, chan) {
      WakeableFits(sh, pt, rqs, chan, NPROC);
    }
    if Scan(pt, rqs, chan, NPROC).Some? {
      var (qt, qs) := Scan(pt, rqs, chan, NPROC).value;
      KnotsIff(y, qt, qs);
      forall c | 0 <= c < |rqs| ensures y.ks[c].extra == 0 <==> NoneBoosted(pt, chan, c) {
        assert Tallied(sh, rqs, chan, NPROC, y, qs, c);
        BoostsIff(pt, chan, c, NPROC);
      }
      forall c | 0 <= c < |rqs| ensures (exists m :: Represents(qt, qs[c], m)) <==> NoneBoosted(pt, chan, c) {
        KnotIff(y, qt, qs, c);
      }
      WakeableIff(pt, rqs, ls, chan);
    }
  }

  lemma WakeableIff(pt: seq<Proc>, rqs: seq<Rq>, ls: seq<Lists>, chan: int)
    requires Inv(pt, rqs, ls, NULL)
    ensures Wakeable(pt, chan) <==> forall c :: 0 <= c < |rqs| ==> NoneBoosted(pt, chan, c)
  {
    forall p | Slot(p) ensures Boosted(pt[p]) <==> pt[p].priority !in {0, 5} {
    }
    if forall c :: 0 <= c < |rqs| ==> NoneBoosted(pt, chan, c) {
      forall p | Slot(p) && SleepsOn(pt[p], chan) ensures pt[p].priority in {0, 5} {
        assert NoneBoosted(pt, chan, pt[p].cpu);
      }
    }
  }

  /** Process 0, of pid 3 and priority 4, is asleep on channel 7; nobody else is about. */
  function OneSleeper(): (pt: seq<Proc>)
    ensures |pt| == NPROC && pt[0] == Proc(SLEEPING, 3, NULL, 7, 4, NULL, 0, 0, false, 0)
    ensures forall p :: 0 < p < NPROC ==> pt[p] == Proc(UNUSED, 0, NULL, 0, 0, NULL, 0, 0, false, 0)
  {
    seq(NPROC, p requires 0 <= p < NPROC =>
      if p == 0 then Proc(SLEEPING, 3, NULL, 7, 4, NULL, 0, 0, false, 0)
      else Proc(UNUSED, 0, NULL, 0, 0, NULL, 0, 0, false, 0))
  }

  function EmptyRq(): Rq {
    Rq(seq(QUEUES, _ => NULL), seq(QUEUES, _ => NULL), 0)
  }

  function NoLists(): Lists { seq(QUEUES, _ => []) }

  lemma StartsEmpty()
    ensures Inv(OneSleeper(), [EmptyRq()], [NoLists()], NULL)
  {
    NoneLeft(NoLists());
    assert Represents(OneSleeper(), EmptyRq(), NoLists());
  }

  lemma {:induction false} OneAdds(c: int, n: nat)
    requires n <= NPROC
    ensures Adds(OneSleeper(), 7, c, n) <= 2
    ensures n == 1 || (n > 1 && Adds(OneSleeper(), 7, c, n) == Adds(OneSleeper(), 7, c, 1)) || n == 0
  {
    if n > 1 {
      OneAdds(c, n - 1);
      assert !SleepsOn(OneSleeper()[n - 1], 7);
    }
  }

  /** Waking that process on an empty queue is a case in which the queue is lost: all was well
      before, nothing panics, and afterwards the links represent no lists. */
  lemma WakeupLosesQueue()
    ensures Inv(OneSleeper(), [EmptyRq()], [NoLists()], NULL)
    ensures AllShaped(OneSleeper(), [EmptyRq()])
    ensures var t := Scan(OneSleeper(), [EmptyRq()], 7, NPROC);
            t.Some? && !exists m :: Represents(t.value.0, t.value.1[0], m)
  {
    hide Inv, Scan;
    var pt, rqs, l := OneSleeper(), [EmptyRq()], NoLists();
    StartsEmpty();
    WakeupKeepsQueuesIff(pt, rqs, [l], 7);
    OneAdds(0, NPROC);
    assert !Overfull(pt, rqs, 7, NPROC, 0);
    assert Slot(0) && SleepsOn(pt[0], 7) && Boosted(pt[0]);
    assert !NoneBoosted(pt, 7, 0);
  }

  lemma {:induction false} AgingSleeps(q: Proc, times: nat, ticks: nat -> int)
    requires Alive(q) && forall i: nat :: i < times ==> !Expired(q, ticks(i))
    ensures var r := AgedTimes(q, times, ticks);
            r.state == q.state && r.chan == q.chan && r.pid == q.pid && r.creation == q.creation
  {
    if times > 0 {
      AgingSleeps(q, times - 1, ticks);
    }
  }

  /** Aging leads there by itself: a process of the default priority 5 that sleeps and ages
      is woken safely only before it has counted 50 ticks or once it has counted 250. */
  lemma AgedSleeperKeepsQueuesIff(pt: seq<Proc>, rqs: seq<Rq>, ls: seq<Lists>, p: int, q: Proc, times: nat,
      ticks: nat -> int)
    requires Inv(pt, rqs, ls, NULL) && Slot(p) && pt[p] == AgedTimes(q, times, ticks)
    requires q.state == SLEEPING && q.pid <= 100 && q.priority == 5 && 0 <= q.waitTicks < AGE_TICKS
    requires forall i: nat :: i < times ==> !Expired(q, ticks(i))
    requires forall x :: Slot(x) && x != p && SleepsOn(pt[x], q.chan) ==> !Boosted(pt[x])
    ensures AllShaped(pt, rqs)
    ensures LeavesLists(pt, rqs, q.chan) <==> q.waitTicks + times < 50 || q.waitTicks + times >= 250
  {
    AgingPromotes(q, times, ticks);
    AgingSleeps(q, times, ticks);
    WakeupKeepsQueuesIff(pt, rqs, ls, q.chan);
    forall x | Slot(x) ensures Boosted(pt[x]) <==> pt[x].priority !in {0, 5} {
    }
  }
}
