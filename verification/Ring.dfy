/** A doubly linked ring through a sentinel, in prev and next arrays. */
module Ring {
  import opened Sequences

  /** Elements k and k+1 of the ring point to each other. */
  predicate Joined(next: seq<nat>, prev: seq<nat>, c: seq<nat>, k: nat)
    requires k < |c|
  {
    var x, y := c[k], c[Next(|c|, k)];
    x < |next| && y < |prev| && next[x] == y && prev[y] == x
  }

  /** next leads once around c from the sentinel c[0], prev leads back. */
  ghost predicate IsRing(next: seq<nat>, prev: seq<nat>, c: seq<nat>) {
    && c != [] && |next| == |prev| && Distinct(c)
    && (forall k :: 0 <= k < |c| ==> c[k] < |next|)
    && forall k :: 0 <= k < |c| ==> Joined(next, prev, c, k)
  }

  /** An element's two neighbours are linked to each other: it has left the ring. */
  lemma Unlinked(next: seq<nat>, prev: seq<nat>, c: seq<nat>, m: nat)
    requires IsRing(next, prev, c) && 0 < m < |c|
    ensures var x := c[m];
            && x < |next| && next[x] < |next| && prev[x] < |next|
            && IsRing(next[prev[x] := next[x]], prev[next[x] := prev[x]], Cut(c, m))
            && x !in Cut(c, m)
  {
    var x, d := c[m], Cut(c, m);
    assert Joined(next, prev, c, m) && Joined(next, prev, c, m - 1);
    var next', prev' := next[prev[x] := next[x]], prev[next[x] := prev[x]];
    forall k | 0 <= k < |d| ensures Joined(next', prev', d, k) {
      UnlinkedJoin(next, prev, c, m, k);
    }
  }

  lemma UnlinkedJoin(next: seq<nat>, prev: seq<nat>, c: seq<nat>, m: nat, k: nat)
    requires IsRing(next, prev, c) && 0 < m < |c| && k < |c| - 1
    requires c[m] < |next| && next[c[m]] < |next| && prev[c[m]] < |next|
    ensures var x := c[m]; Joined(next[prev[x] := next[x]], prev[next[x] := prev[x]], Cut(c, m), k)
  {
    assert Joined(next, prev, c, m) && Joined(next, prev, c, m - 1);
    assert Joined(next, prev, c, if k < m then k else k + 1);
    var d := Cut(c, m);
    var j := Next(|d|, k);
    assert d[k] == c[if k < m then k else k + 1] && d[j] == c[if j < m then j else j + 1];
  }

  /** A new element is linked in between the sentinel and the element behind it. */
  lemma LinkedFirst(next: seq<nat>, prev: seq<nat>, c: seq<nat>, x: nat)
    requires IsRing(next, prev, c) && x < |next| && x !in c
    ensures var h := c[0];
            && next[h] < |next|
            && IsRing(next[x := next[h]][h := x], prev[x := h][next[h] := x], InsertAt(c, 1, x))
  {
    var h, d := c[0], InsertAt(c, 1, x);
    assert Joined(next, prev, c, 0);
    var next', prev' := next[x := next[h]][h := x], prev[x := h][next[h] := x];
    forall k | 0 <= k < |d| ensures Joined(next', prev', d, k) {
      LinkedJoin(next, prev, c, x, k);
    }
  }

  lemma LinkedJoin(next: seq<nat>, prev: seq<nat>, c: seq<nat>, x: nat, k: nat)
    requires IsRing(next, prev, c) && x < |next| && x !in c && k <= |c| && next[c[0]] < |next|
    ensures var h := c[0]; Joined(next[x := next[h]][h := x], prev[x := h][next[h] := x], InsertAt(c, 1, x), k)
  {
    assert Joined(next, prev, c, 0);
    if k != 1 && k != 0 {
      assert Joined(next, prev, c, k - 1);
    }
    var d := InsertAt(c, 1, x);
    var j := Next(|d|, k);
    assert j > 1 ==> d[j] == c[j - 1];
  }
}
