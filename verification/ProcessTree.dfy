/** What exit and wait do to the family of a process, in either kernel: whom it wakes, who
    adopts its children. A process is named by its table index. */
module ProcessTree {
  import opened Common

  /** The fields of a process these calls read and write. */
  datatype Kin = Kin(state: State, parent: int, chan: int)

  predicate Wakes(q: Kin, chan: int) { q.state == SLEEPING && q.chan == chan }

  datatype WaitResult = Reaped(p: int) | NoChild | Asleep

  /** z is the first child of `me` that has exited. */
  predicate FirstZombieChild(pt: seq<Kin>, me: int, z: int)
    requires |pt| == NPROC && Slot(z)
  {
    && pt[z].parent == me && pt[z].state == ZOMBIE
    && forall p :: 0 <= p < z && pt[p].parent == me ==> pt[p].state != ZOMBIE
  }

  /** Has one of the first n slots a child of `me` that has already exited? */
  predicate OrphanZombie(pt: seq<Kin>, me: int, n: nat)
    requires n <= |pt|
  {
    n > 0 && (OrphanZombie(pt, me, n - 1) || (pt[n - 1].parent == me && pt[n - 1].state == ZOMBIE))
  }

  lemma {:induction false} OrphanZombieExists(pt: seq<Kin>, me: int, n: nat)
    requires n <= |pt|
    ensures OrphanZombie(pt, me, n) <==> exists z :: 0 <= z < n && pt[z].parent == me && pt[z].state == ZOMBIE
  {
    if n > 0 {
      OrphanZombieExists(pt, me, n - 1);
    }
  }

  /** Everyone asleep on the channel has been woken. */
  ghost predicate AllWoken(pt: seq<Kin>, r: seq<Kin>, chan: int) {
    && |pt| == |r| == NPROC
    && forall p :: Slot(p) ==> r[p] == if Wakes(pt[p], chan) then pt[p].(state := RUNNABLE) else pt[p]
  }

  /** p's record once the first n slots have been handed to init. */
  ghost function Adopted(pt: seq<Kin>, me: int, init: int, n: nat, p: int): Kin
    requires |pt| == NPROC && Slot(p) && n <= NPROC
  {
    var q := if p < n && pt[p].parent == me then pt[p].(parent := init) else pt[p];
    if OrphanZombie(pt, me, n) && Wakes(q, init) then q.(state := RUNNABLE) else q
  }

  ghost predicate AllAdopted(pt: seq<Kin>, r: seq<Kin>, me: int, init: int, n: nat) {
    && |pt| == |r| == NPROC && n <= NPROC
    && forall p :: Slot(p) ==> r[p] == Adopted(pt, me, init, n, p)
  }

  ghost predicate OneAdopted(pt: seq<Kin>, r: seq<Kin>, i: nat, init: int) {
    && |pt| == |r| == NPROC && i < NPROC
    && forall p :: Slot(p) ==>
         var q := if p == i then pt[p].(parent := init) else pt[p];
         r[p] == if pt[i].state == ZOMBIE && Wakes(q, init) then q.(state := RUNNABLE) else q
  }

  lemma AdoptStep(pt: seq<Kin>, r: seq<Kin>, t: seq<Kin>, me: int, init: int, i: nat)
    requires i < NPROC && AllAdopted(pt, r, me, init, i)
    requires if r[i].parent == me then OneAdopted(r, t, i, init) else t == r
    ensures AllAdopted(pt, t, me, init, i + 1)
  {
    assert r[i] == Adopted(pt, me, init, i, i);
  }

  /** What exit does to process p: the exiting process becomes a zombie, its children pass
      to init, sleepers on the parent's channel wake, and sleepers on init's channel wake if
      a zombie child was passed on. */
  ghost function AfterExit(pt: seq<Kin>, me: int, init: int, p: int): Kin
    requires |pt| == NPROC && Slot(p) && Slot(me)
  {
    var q := if pt[p].parent == me then pt[p].(parent := init) else pt[p];
    if p == me then q.(state := ZOMBIE)
    else if Wakes(q, pt[me].parent) || (Wakes(q, init) && OrphanZombie(pt, me, NPROC)) then q.(state := RUNNABLE)
    else q
  }

  /** So afterwards the process is a zombie without children, nobody sleeps on its parent's
      channel, nor on init's if a child had already exited, and nothing else has changed. */
  lemma AfterExitMeans(pt: seq<Kin>, me: int, init: int, p: int)
    requires |pt| == NPROC && Slot(me) && Slot(p) && me != init
    ensures var q, r := pt[p], AfterExit(pt, me, init, p);
            var orphan := exists z :: Slot(z) && pt[z].parent == me && pt[z].state == ZOMBIE;
            && r.chan == q.chan && r.parent == (if q.parent == me then init else q.parent) && r.parent != me
            && (p == me ==> r.state == ZOMBIE)
            && (p != me && r.state == SLEEPING ==> q.chan != pt[me].parent && (orphan ==> q.chan != init))
            && (p != me && r.state != q.state ==>
                  q.state == SLEEPING && r.state == RUNNABLE && (q.chan == pt[me].parent || (orphan && q.chan == init)))
  {
    OrphanZombieExists(pt, me, NPROC);
  }

  lemma {:induction false} WakingKeepsZombies(pt: seq<Kin>, woken: seq<Kin>, chan: int, me: int, n: nat)
    requires AllWoken(pt, woken, chan) && n <= NPROC
    ensures OrphanZombie(woken, me, n) == OrphanZombie(pt, me, n)
  {
    if n > 0 {
      assert Slot(n - 1);
      WakingKeepsZombies(pt, woken, chan, me, n - 1);
    }
  }

  /** All that exit does is done but for the state of the exiting process. */
  ghost predicate Exiting(pt: seq<Kin>, r: seq<Kin>, me: int, init: int)
    requires Slot(me)
  {
    && |pt| == |r| == NPROC
    && forall p :: Slot(p) ==> AfterExit(pt, me, init, p) == if p == me then r[p].(state := ZOMBIE) else r[p]
  }

  lemma ExitEffect(pt: seq<Kin>, woken: seq<Kin>, r: seq<Kin>, me: int, init: int)
    requires Slot(me) && |pt| == NPROC && pt[me].state == RUNNING
    requires AllWoken(pt, woken, pt[me].parent) && AllAdopted(woken, r, me, init, NPROC)
    ensures Exiting(pt, r, me, init)
  {
    WakingKeepsZombies(pt, woken, pt[me].parent, me, NPROC);
  }
}
