/** The priority kernel's run queues: twelve intrusive linked lists per CPU, threaded
    through the `next` links of the process table, against twelve FIFO sequences. */
module PriorityQueue {
  import opened Common
  import opened Sequences

  const SHORT := 11    // the short-lived queue stands in slot 11; slots 0 to 10 are the priorities
  const QUEUES := 12

  datatype Proc = Proc(state: State, pid: int, parent: int, chan: int, priority: int, next: int, waitTicks: int,
                       creation: int, killed: bool, cpu: int)

  /** priority_head and short_lived_head, priority_tail and short_lived_tail, count. */
  datatype Rq = Rq(head: seq<int>, tail: seq<int>, count: int)

  function QueueIndex(priority: int): int {
    if priority == 5 then SHORT else priority
  }

  predicate Shaped(pt: seq<Proc>, r: Rq) {
    |pt| == NPROC && |r.head| == |r.tail| == QUEUES
  }

  /** The links from head to tail spell out the sequence s. */
  ghost predicate ListIs(pt: seq<Proc>, head: int, tail: int, s: seq<int>)
    requires |pt| == NPROC
  {
    && (forall k :: 0 <= k < |s| ==> Slot(s[k]))
    && (s == [] ==> head == NULL && tail == NULL)
    && (s != [] ==> head == s[0] && tail == s[|s| - 1])
    && (forall k :: 0 <= k < |s| ==> Follows(pt, s, k))
  }

  /** The link of element k leads to the next element. */
  predicate Follows(pt: seq<Proc>, s: seq<int>, k: int)
    requires |pt| == NPROC && 0 <= k < |s|
  {
    Slot(s[k]) && pt[s[k]].next == After(s, k)
  }

  /** What the link of element k points to. */
  function After(s: seq<int>, k: int): int
    requires 0 <= k < |s|
  {
    if k + 1 < |s| then s[k + 1] else NULL
  }

  /** The links from head on lead through s, and then to NULL, or, if tied, back to the last
      element for ever. */
  ghost predicate Leads(pt: seq<Proc>, head: int, s: seq<int>, tied: bool)
    requires |pt| == NPROC
  {
    && (s == [] ==> head == NULL && !tied) && (s != [] ==> head == s[0])
    && (forall k :: 0 <= k < |s| ==> Links(pt, s, k, tied))
  }

  predicate Links(pt: seq<Proc>, s: seq<int>, k: int, tied: bool)
    requires |pt| == NPROC && 0 <= k < |s|
  {
    Slot(s[k]) && pt[s[k]].next == if tied && k == |s| - 1 then s[k] else After(s, k)
  }

  function TotalLength(l: seq<seq<int>>): nat {
    if l == [] then 0 else TotalLength(l[..|l| - 1]) + |l[|l| - 1]|
  }

  /** The queue of one CPU represents the lists l. */
  ghost predicate Represents(pt: seq<Proc>, r: Rq, l: seq<seq<int>>) {
    && Shaped(pt, r) && |l| == QUEUES
    && (forall i :: 0 <= i < QUEUES ==> ListIs(pt, r.head[i], r.tail[i], l[i]))
    && r.count == TotalLength(l)
  }

  /** Every list of CPU c holds distinct processes of that CPU and of the list's priority. */
  ghost predicate Placed(pt: seq<Proc>, l: seq<seq<int>>, c: int)
    requires |pt| == NPROC
  {
    forall i :: 0 <= i < |l| ==>
      Distinct(l[i]) && forall k :: 0 <= k < |l[i]| ==>
        Slot(l[i][k]) && pt[l[i][k]].cpu == c && QueueIndex(pt[l[i][k]].priority) == i
  }

  ghost predicate Queued(l: seq<seq<int>>, p: int) {
    exists i :: 0 <= i < |l| && p in l[i]
  }

  // ---- rq_add ----

  /** rq_add does not meet its null-tail panic on list i. */
  predicate TailOk(r: Rq, i: int)
    requires |r.head| == |r.tail| == QUEUES && 0 <= i < QUEUES
  {
    r.head[i] != NULL ==> Slot(r.tail[i])
  }

  /** Those panics are out of reach. */
  predicate TailsOk(r: Rq)
    requires |r.head| == |r.tail| == QUEUES
  {
    forall i :: 0 <= i < QUEUES ==> TailOk(r, i)
  }

  /** rq_add as the code performs it, on any queue. */
  function Enqueue(pt: seq<Proc>, r: Rq, p: int): (res: (seq<Proc>, Rq))
    requires Shaped(pt, r) && Slot(p) && 0 <= pt[p].priority <= 10 && TailOk(r, QueueIndex(pt[p].priority))
    ensures Shaped(res.0, res.1)
  {
    var i := QueueIndex(pt[p].priority);
    var pt1 := pt[p := pt[p].(next := NULL)];
    if r.head[i] == NULL then
      (pt1, Rq(r.head[i := p], r.tail[i := p], r.count + 1))
    else
      var last := r.tail[i];
      assert Slot(last);
      (pt1[last := pt1[last].(next := p)], r.(tail := r.tail[i := p], count := r.count + 1))
  }

  /** rq_add on any queue; None stands for its panics. */
  function Add(pt: seq<Proc>, r: Rq, p: int): (res: Option<(seq<Proc>, Rq)>)
    requires Shaped(pt, r) && Slot(p)
    ensures res.Some? ==> Shaped(res.value.0, res.value.1)
  {
    if r.count >= MAX_PROCS || !(0 <= pt[p].priority <= 10) || !TailOk(r, QueueIndex(pt[p].priority)) then None
    else Some(Enqueue(pt, r, p))
  }

  lemma {:induction false} TotalLengthUpdate(l: seq<seq<int>>, i: nat, s: seq<int>)
    requires i < |l|
    ensures TotalLength(l[i := s]) == TotalLength(l) - |l[i]| + |s|
  {
    var n := |l| - 1;
    if i < n {
      assert l[i := s][..n] == l[..n][i := s];
      TotalLengthUpdate(l[..n], i, s);
    } else {
      assert l[i := s][..n] == l[..n];
    }
  }

  /** A list none of whose links changed is still that list. */
  lemma ListFrame(pt: seq<Proc>, qt: seq<Proc>, head: int, tail: int, s: seq<int>)
    requires |pt| == |qt| == NPROC && ListIs(pt, head, tail, s)
    requires forall k :: 0 <= k < |s| ==> qt[s[k]].next == pt[s[k]].next
    ensures ListIs(qt, head, tail, s)
  {
    forall k | 0 <= k < |s| ensures Follows(qt, s, k) {
      assert Follows(pt, s, k);
    }
  }

  /** On a process that is not queued, rq_add appends to the list of its priority, leaves
      every other list alone and changes nothing but links. */
  lemma EnqueueAppends(pt: seq<Proc>, r: Rq, l: seq<seq<int>>, c: int, p: int)
    requires Represents(pt, r, l) && Placed(pt, l, c)
    requires Slot(p) && 0 <= pt[p].priority <= 10 && !Queued(l, p)
    ensures TailsOk(r)
    ensures var i := QueueIndex(pt[p].priority);
            var (qt, q) := Enqueue(pt, r, p);
            Represents(qt, q, l[i := l[i] + [p]]) && OnlyLinks(pt, qt)
            && forall x :: Slot(x) && x != p && !Queued(l, x) ==> qt[x] == pt[x]
  {
    var i := QueueIndex(pt[p].priority);
    TailIsLast(pt, r, l);
    TotalLengthUpdate(l, i, l[i] + [p]);
    NotIn(l, i, p);
    assert ListIs(pt, r.head[i], r.tail[i], l[i]);
    AppendList(pt, r, l[i], p, i);
    EnqueueWrites(pt, r, l, p);
    forall j | 0 <= j < QUEUES && j != i
      ensures ListIs(Enqueue(pt, r, p).0, r.head[j], r.tail[j], l[j])
    {
      EnqueueElsewhere(pt, r, l, c, p, j);
    }
  }

  lemma EnqueueWrites(pt: seq<Proc>, r: Rq, l: seq<seq<int>>, p: int)
    requires Represents(pt, r, l) && TailsOk(r) && Slot(p) && 0 <= pt[p].priority <= 10
    ensures var qt := Enqueue(pt, r, p).0;
            OnlyLinks(pt, qt) && forall x :: Slot(x) && x != p && !Queued(l, x) ==> qt[x] == pt[x]
  {
    TailIsLast(pt, r, l);
    var i := QueueIndex(pt[p].priority);
    if r.head[i] != NULL {
      assert r.tail[i] in l[i];
    }
  }

  lemma EnqueueElsewhere(pt: seq<Proc>, r: Rq, l: seq<seq<int>>, c: int, p: int, j: int)
    requires Represents(pt, r, l) && Placed(pt, l, c) && TailsOk(r)
    requires Slot(p) && 0 <= pt[p].priority <= 10 && !Queued(l, p)
    requires 0 <= j < QUEUES && j != QueueIndex(pt[p].priority)
    ensures ListIs(Enqueue(pt, r, p).0, r.head[j], r.tail[j], l[j])
  {
    var i := QueueIndex(pt[p].priority);
    TailIsLast(pt, r, l);
    var qt := Enqueue(pt, r, p).0;
    assert ListIs(pt, r.head[j], r.tail[j], l[j]);
    NotIn(l, j, p);
    forall k | 0 <= k < |l[j]| ensures qt[l[j][k]].next == pt[l[j][k]].next {
      Apart(pt, l, c, i, j, k);
      if l[i] != [] { assert l[i][|l[i]| - 1] in l[i]; }
    }
    ListFrame(pt, qt, r.head[j], r.tail[j], l[j]);
  }

  /** Only `next` fields differ. */
  ghost predicate OnlyLinks(pt: seq<Proc>, qt: seq<Proc>) {
    |pt| == |qt| == NPROC && forall x :: Slot(x) ==> qt[x] == pt[x].(next := qt[x].next)
  }

  lemma TailIsLast(pt: seq<Proc>, r: Rq, l: seq<seq<int>>)
    requires Represents(pt, r, l)
    ensures TailsOk(r)
    ensures forall i :: 0 <= i < QUEUES && r.head[i] != NULL ==> l[i] != [] && r.tail[i] == l[i][|l[i]| - 1]
    ensures forall i :: 0 <= i < QUEUES ==> (r.head[i] == NULL <==> l[i] == [])
  {
    forall i | 0 <= i < QUEUES ensures r.head[i] == NULL <==> l[i] == [] {
      assert ListIs(pt, r.head[i], r.tail[i], l[i]);
    }
  }

  lemma NotIn(l: seq<seq<int>>, j: nat, p: int)
    requires j < |l| && !Queued(l, p)
    ensures p !in l[j]
  {
  }

  /** Lists of different priorities share no process. */
  lemma Apart(pt: seq<Proc>, l: seq<seq<int>>, c: int, i: nat, j: nat, k: nat)
    requires |pt| == NPROC && Placed(pt, l, c) && i < |l| && j < |l| && i != j && k < |l[j]|
    ensures l[j][k] !in l[i]
  {
    assert QueueIndex(pt[l[j][k]].priority) == j;
    forall m | 0 <= m < |l[i]| ensures l[i][m] != l[j][k] {
      assert QueueIndex(pt[l[i][m]].priority) == i;
    }
  }

  lemma AppendList(pt: seq<Proc>, r: Rq, s: seq<int>, p: int, i: int)
    requires Shaped(pt, r) && Slot(p) && 0 <= pt[p].priority <= 10 && i == QueueIndex(pt[p].priority)
    requires TailsOk(r)
    requires ListIs(pt, r.head[i], r.tail[i], s) && Distinct(s) && p !in s
    ensures var (qt, q) := Enqueue(pt, r, p);
            ListIs(qt, q.head[i], q.tail[i], s + [p])
  {
    var qt, t := Enqueue(pt, r, p).0, s + [p];
    forall k | 0 <= k < |t| ensures Follows(qt, t, k) {
      if k < |s| { assert Follows(pt, s, k); }
    }
  }

  // ---- rq_remove ----

  /** What rq_remove writes when it finds p after `prev` (NULL at the head) in slot i. */
  function Unlink(pt: seq<Proc>, r: Rq, i: int, prev: int, p: int): (res: (seq<Proc>, Rq))
    requires Shaped(pt, r) && 0 <= i < QUEUES && Slot(p) && (prev == NULL || Slot(prev))
    ensures Shaped(res.0, res.1)
  {
    var next := pt[p].next;
    var head := if prev == NULL then r.head[i := next] else r.head;
    var pt1 := if prev == NULL then pt else pt[prev := pt[prev].(next := next)];
    var tail := if pt1[p].next == NULL then r.tail[i := prev] else r.tail;
    (pt1[p := pt1[p].(next := NULL)], Rq(head, tail, r.count - 1))
  }

  function Before(s: seq<int>, k: nat): int
    requires k < |s|
  {
    if k == 0 then NULL else s[k - 1]
  }

  lemma UnlinkLink(pt: seq<Proc>, r: Rq, i: int, s: seq<int>, k: nat, m: nat)
    requires Shaped(pt, r) && 0 <= i < QUEUES && k < |s| && m < |s| - 1
    requires ListIs(pt, r.head[i], r.tail[i], s) && Distinct(s)
    ensures Slot(s[k]) && (Before(s, k) == NULL || Slot(Before(s, k)))
    ensures Follows(Unlink(pt, r, i, Before(s, k), s[k]).0, Cut(s, k), m)
  {
    var n := if m < k then m else m + 1;
    assert Follows(pt, s, n);
    assert Follows(pt, s, k);
    assert s[n] != s[k];
    if k > 0 {
      assert s[k - 1] != s[k];
      assert n != k - 1 ==> s[n] != s[k - 1];
    }
  }

  lemma UnlinkEnds(pt: seq<Proc>, r: Rq, i: int, s: seq<int>, k: nat)
    requires Shaped(pt, r) && 0 <= i < QUEUES && k < |s|
    requires ListIs(pt, r.head[i], r.tail[i], s) && Distinct(s)
    ensures Slot(s[k]) && (Before(s, k) == NULL || Slot(Before(s, k)))
    ensures var q := Unlink(pt, r, i, Before(s, k), s[k]).1;
            var t := Cut(s, k);
            && q.head[i] == (if t == [] then NULL else t[0])
            && q.tail[i] == (if t == [] then NULL else t[|t| - 1])
  {
    assert Follows(pt, s, k);
    if k > 0 {
      assert s[k - 1] != s[k];
    }
  }

  lemma UnlinkList(pt: seq<Proc>, r: Rq, i: int, s: seq<int>, k: nat)
    requires Shaped(pt, r) && 0 <= i < QUEUES && k < |s|
    requires ListIs(pt, r.head[i], r.tail[i], s) && Distinct(s)
    ensures Slot(s[k]) && (Before(s, k) == NULL || Slot(Before(s, k)))
    ensures var (qt, q) := Unlink(pt, r, i, Before(s, k), s[k]);
            ListIs(qt, q.head[i], q.tail[i], Cut(s, k))
  {
    UnlinkEnds(pt, r, i, s, k);
    forall m | 0 <= m < |s| - 1
      ensures Follows(Unlink(pt, r, i, Before(s, k), s[k]).0, Cut(s, k), m)
    {
      UnlinkLink(pt, r, i, s, k, m);
    }
  }

  lemma UnlinkWrites(pt: seq<Proc>, r: Rq, i: int, s: seq<int>, k: nat)
    requires Shaped(pt, r) && 0 <= i < QUEUES && k < |s| && forall m :: 0 <= m < |s| ==> Slot(s[m])
    ensures var qt := Unlink(pt, r, i, Before(s, k), s[k]).0;
            OnlyLinks(pt, qt) && forall x :: Slot(x) && x !in s ==> qt[x] == pt[x]
  {
  }

  /** rq_remove takes p out of its list and changes nothing but links. */
  lemma UnlinkRemoves(pt: seq<Proc>, r: Rq, l: seq<seq<int>>, c: int, i: int, k: nat)
    requires Represents(pt, r, l) && Placed(pt, l, c) && 0 <= i < QUEUES && k < |l[i]|
    ensures var prev := Before(l[i], k);
            Slot(l[i][k]) && (prev == NULL || Slot(prev))
            && var (qt, q) := Unlink(pt, r, i, prev, l[i][k]);
            Represents(qt, q, l[i := Cut(l[i], k)]) && OnlyLinks(pt, qt)
            && forall x :: Slot(x) && x !in l[i] ==> qt[x] == pt[x]
  {
    var s := l[i];
    assert ListIs(pt, r.head[i], r.tail[i], s);
    TotalLengthUpdate(l, i, Cut(s, k));
    UnlinkList(pt, r, i, s, k);
    UnlinkWrites(pt, r, i, s, k);
    forall j | 0 <= j < QUEUES && j != i
      ensures ListIs(Unlink(pt, r, i, Before(s, k), s[k]).0, r.head[j], r.tail[j], l[j])
    {
      UnlinkElsewhere(pt, r, l, c, i, k, j);
    }
  }

  lemma UnlinkElsewhere(pt: seq<Proc>, r: Rq, l: seq<seq<int>>, c: int, i: int, k: nat, j: int)
    requires Represents(pt, r, l) && Placed(pt, l, c) && 0 <= i < QUEUES && k < |l[i]| && 0 <= j < QUEUES && i != j
    requires Slot(l[i][k]) && (Before(l[i], k) == NULL || Slot(Before(l[i], k)))
    ensures ListIs(Unlink(pt, r, i, Before(l[i], k), l[i][k]).0, r.head[j], r.tail[j], l[j])
  {
    var qt := Unlink(pt, r, i, Before(l[i], k), l[i][k]).0;
    assert ListIs(pt, r.head[j], r.tail[j], l[j]);
    forall m | 0 <= m < |l[j]| ensures qt[l[j][m]].next == pt[l[j][m]].next {
      Apart(pt, l, c, i, j, m);
    }
    ListFrame(pt, qt, r.head[j], r.tail[j], l[j]);
  }

  // ---- rq_select ----

  /** The slot rq_select serves: the short-lived queue first, then the lowest-numbered
      non-empty priority; none if all lists are empty. */
  function Served(l: seq<seq<int>>): (i: int)
    requires |l| == QUEUES
    ensures i == NULL <==> forall j :: 0 <= j < QUEUES ==> l[j] == []
    ensures i != NULL ==> 0 <= i < QUEUES && l[i] != []
    ensures i != NULL && i != SHORT ==> l[SHORT] == [] && forall j :: 0 <= j < i ==> l[j] == []
  {
    if l[SHORT] != [] then SHORT else FirstNonEmpty(l, 0)
  }

  function FirstNonEmpty(l: seq<seq<int>>, from: nat): (i: int)
    requires |l| == QUEUES && from <= SHORT
    ensures i == NULL <==> forall j :: from <= j < SHORT ==> l[j] == []
    ensures i != NULL ==> from <= i < SHORT && l[i] != [] && forall j :: from <= j < i ==> l[j] == []
    decreases SHORT - from
  {
    if from == SHORT then NULL else if l[from] != [] then from else FirstNonEmpty(l, from + 1)
  }

  lemma {:induction false} NoneLeft(l: seq<seq<int>>)
    ensures TotalLength(l) == 0 <==> forall j :: 0 <= j < |l| ==> l[j] == []
  {
    if l != [] {
      NoneLeft(l[..|l| - 1]);
    }
  }

  // ---- a queue has room for every process of the table ----

  function Flatten(l: seq<seq<int>>): (s: seq<int>)
    ensures |s| == TotalLength(l)
  {
    if l == [] then [] else Flatten(l[..|l| - 1]) + l[|l| - 1]
  }

  lemma {:induction false} InFlatten(l: seq<seq<int>>, p: int)
    ensures p in Flatten(l) <==> Queued(l, p)
  {
    if l != [] {
      InFlatten(l[..|l| - 1], p);
      if Queued(l, p) {
        var i :| 0 <= i < |l| && p in l[i];
        assert i < |l| - 1 ==> p in l[..|l| - 1][i];
      }
    }
  }

  lemma {:induction false} FlattenDistinct(pt: seq<Proc>, l: seq<seq<int>>, c: int)
    requires |pt| == NPROC && Placed(pt, l, c)
    ensures Distinct(Flatten(l))
  {
    if l != [] {
      var n := |l| - 1;
      FlattenDistinct(pt, l[..n], c);
      forall k | 0 <= k < |l[n]|
        ensures l[n][k] !in Flatten(l[..n])
      {
        InFlatten(l[..n], l[n][k]);
        forall i | 0 <= i < n ensures l[n][k] !in l[..n][i] {
          Apart(pt, l, c, i, n, k);
        }
      }
    }
  }

  lemma FlattenMembers(pt: seq<Proc>, l: seq<seq<int>>, c: int, p: int, k: nat)
    requires |pt| == NPROC && Placed(pt, l, c) && !Queued(l, p) && k < TotalLength(l)
    ensures Slot(Flatten(l)[k]) && Flatten(l)[k] != p
  {
    var x := Flatten(l)[k];
    InFlatten(l, x);
    var i :| 0 <= i < |l| && x in l[i];
    var m :| 0 <= m < |l[i]| && l[i][m] == x;
    assert Slot(l[i][m]);
  }

  /** The "runqueue full" panic is unreachable for a process that is not queued. */
  lemma HasRoom(pt: seq<Proc>, r: Rq, l: seq<seq<int>>, c: int, p: int)
    requires Represents(pt, r, l) && Placed(pt, l, c) && Slot(p) && !Queued(l, p)
    ensures r.count < MAX_PROCS
  {
    var s := Flatten(l);
    FlattenDistinct(pt, l, c);
    forall k | 0 <= k < |s| ensures 0 <= s[k] < NPROC && s[k] != p {
      FlattenMembers(pt, l, c, p, k);
    }
    DistinctMissing(s, NPROC, p);
  }

  // ---- queueing a process twice ----

  /** Adding a process that was just added links it to itself: the queue then represents no
      lists at all. */
  lemma EnqueueTwiceBreaks(pt: seq<Proc>, r: Rq, l: seq<seq<int>>, c: int, p: int)
    requires Represents(pt, r, l) && Placed(pt, l, c)
    requires Slot(p) && 0 <= pt[p].priority <= 10 && !Queued(l, p) && TailsOk(r)
    ensures var (qt, q) := Enqueue(pt, r, p);
            && TailsOk(q) && var (rt, t) := Enqueue(qt, q, p);
            rt[p].next == p && forall m :: !Represents(rt, t, m)
  {
    var i := QueueIndex(pt[p].priority);
    var (qt, q) := Enqueue(pt, r, p);
    assert q.head[i] != NULL && q.tail[i] == p && TailsOk(q);
    var (rt, t) := Enqueue(qt, q, p);
    forall m ensures !Represents(rt, t, m) {
      assert Represents(rt, t, m) ==> ListIs(rt, t.head[i], t.tail[i], m[i]) && Follows(rt, m[i], |m[i]| - 1);
    }
  }
}
