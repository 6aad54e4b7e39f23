/**
kernel/bio.c: the buffer cache's circular doubly linked list, most recently used first.
Buffers are the numbers 0..nbuf-1; number nbuf is the list head.  `next` and `prev` are the
pointers, and the list they must spell is a sequence.
*/
module BufferCache {
  import opened Options
  import opened Rings

  type Ptrs = seq<nat>

  // ---------------------------------------------------------------------------------------
  // The list as pointers and as a sequence
  // ---------------------------------------------------------------------------------------

  /** Element `k` of the circle that starts at the head: 0 is the head, then the list, then the head again. */
  function Ring(nbuf: nat, order: seq<nat>, k: nat): nat
    requires k <= |order| + 1
  {
    if 1 <= k <= |order| then order[k - 1] else nbuf
  }

  /** Following next from the head visits exactly `order`, and prev walks it backwards. */
  ghost predicate Linked(nbuf: nat, next: Ptrs, prev: Ptrs, order: seq<nat>)
  {
    && |next| == |prev| == nbuf + 1
    && Distinct(order) && (forall k | 0 <= k < |order| :: order[k] < nbuf)
    && (forall k: nat | k <= |order| :: next[Ring(nbuf, order, k)] == Ring(nbuf, order, k + 1))
    && (forall k: nat | k <= |order| :: prev[Ring(nbuf, order, k + 1)] == Ring(nbuf, order, k))
  }

  function Without(order: seq<nat>, k: nat): seq<nat>
    requires k < |order|
  {
    order[..k] + order[k + 1..]
  }

  lemma RingDistinct(nbuf: nat, order: seq<nat>, i: nat, j: nat)
    requires Distinct(order) && (forall k | 0 <= k < |order| :: order[k] < nbuf)
    requires i <= |order| && j <= |order| && i != j
    ensures Ring(nbuf, order, i) != Ring(nbuf, order, j)
  {
  }

  /** The circle without element `k`: places up to it stay, later ones move up. */
  lemma RingWithout(nbuf: nat, order: seq<nat>, k: nat, i: nat)
    requires k < |order| && i <= |order|
    ensures Ring(nbuf, Without(order, k), i) == Ring(nbuf, order, if i <= k then i else i + 1)
  {
  }

  /** Two places of the circle that are not both the head hold different elements. */
  lemma RingsDiffer(nbuf: nat, order: seq<nat>, i: nat, j: nat)
    requires Distinct(order) && (forall k | 0 <= k < |order| :: order[k] < nbuf)
    requires 0 < i <= |order| + 1 && 0 < j <= |order| + 1 && i != j
    ensures Ring(nbuf, order, i) != Ring(nbuf, order, j)
  {
  }

  /** The links of place `i` after `b` is bypassed. */
  lemma Bypassed(nbuf: nat, next: Ptrs, prev: Ptrs, order: seq<nat>, k: nat, i: nat)
    requires Linked(nbuf, next, prev, order) && k < |order| && i < |order|
    ensures var b, rest := order[k], Without(order, k);
            next[b] < |prev| && prev[b] < |next|
            && next[prev[b] := next[b]][Ring(nbuf, rest, i)] == Ring(nbuf, rest, i + 1)
            && prev[next[b] := prev[b]][Ring(nbuf, rest, i + 1)] == Ring(nbuf, rest, i)
  {
    var b := order[k];
    assert b == Ring(nbuf, order, k + 1);
    assert prev[b] == Ring(nbuf, order, k) && next[b] == Ring(nbuf, order, k + 2);
    RingWithout(nbuf, order, k, i);
    RingWithout(nbuf, order, k, i + 1);
    hide Without;
    if i != k {
      RingDistinct(nbuf, order, if i <= k then i else i + 1, k);
      RingsDiffer(nbuf, order, if i + 1 <= k then i + 1 else i + 2, k + 2);
    }
  }

  /** Making the two neighbours of `b` point at each other takes it out of the list. */
  lemma UnlinkRemoves(nbuf: nat, next: Ptrs, prev: Ptrs, order: seq<nat>, k: nat)
    requires Linked(nbuf, next, prev, order) && k < |order|
    ensures var b := order[k];
            next[b] < |prev| && prev[b] < |next|
            && Linked(nbuf, next[prev[b] := next[b]], prev[next[b] := prev[b]], Without(order, k))
  {
    var b, rest := order[k], Without(order, k);
    Bypassed(nbuf, next, prev, order, k, 0);
    forall i, j | 0 <= i < j < |rest|
      ensures rest[i] != rest[j]
    {
      assert rest[i] == order[if i < k then i else i + 1] && rest[j] == order[if j < k then j else j + 1];
    }
    forall i: nat | i <= |rest|
      ensures next[prev[b] := next[b]][Ring(nbuf, rest, i)] == Ring(nbuf, rest, i + 1)
      ensures prev[next[b] := prev[b]][Ring(nbuf, rest, i + 1)] == Ring(nbuf, rest, i)
    {
      Bypassed(nbuf, next, prev, order, k, i);
    }
  }

  /** Linking `b` between the head and its first element puts it at the front. */
  lemma LinkFrontAdds(nbuf: nat, next: Ptrs, prev: Ptrs, order: seq<nat>, b: nat)
    requires Linked(nbuf, next, prev, order) && b < nbuf && b !in order
    ensures next[nbuf] < |prev|
            && Linked(nbuf, next[b := next[nbuf]][nbuf := b], prev[b := nbuf][next[nbuf] := b], [b] + order)
  {
    assert Ring(nbuf, order, 0) == nbuf && next[nbuf] == Ring(nbuf, order, 1);
    var next' := next[b := next[nbuf]][nbuf := b];
    var prev' := prev[b := nbuf][next[nbuf] := b];
    var all := [b] + order;
    forall i: nat | i <= |all|
      ensures next'[Ring(nbuf, all, i)] == Ring(nbuf, all, i + 1) && prev'[Ring(nbuf, all, i + 1)] == Ring(nbuf, all, i)
    {
      if i >= 1 {
        assert Ring(nbuf, all, i + 1) == Ring(nbuf, order, i);
        if i >= 2 {
          assert Ring(nbuf, all, i) == Ring(nbuf, order, i - 1);
          RingDistinct(nbuf, order, i - 1, 0);
          assert Ring(nbuf, order, i) != Ring(nbuf, order, 1) by {
            RingDistinct(nbuf, order, if i == |order| + 1 then 0 else i, if 1 == |order| + 1 then 0 else 1);
          }
        }
      }
    }
  }

  /** Every buffer is on the list. */
  ghost predicate Listed(nbuf: nat, order: seq<nat>)
  {
    |order| == nbuf && forall i: nat | i < nbuf :: i in order
  }

  /** binit's loop: the last buffer ends up first. */
  method BuildList(n: nat) returns (next: Ptrs, prev: Ptrs, ghost order: seq<nat>)
    ensures Linked(n, next, prev, order) && Listed(n, order)
    ensures forall k | 0 <= k < n :: order[k] == n - 1 - k
  {
    next := seq(n + 1, _ => n);
    prev := next;
    order := [];
    var b: nat := 0;
    while b < n
      invariant 0 <= b <= n && |order| == b && Linked(n, next, prev, order)
      invariant forall k | 0 <= k < b :: order[k] == b - 1 - k
    {
      LinkFrontAdds(n, next, prev, order, b);
      var first := next[n];
      next := next[b := first][n := b];
      prev := prev[b := n][first := b];
      order := [b] + order;
      b := b + 1;
    }
    assert Ring(n, order, 0) == n;
    forall i: nat | i < n
      ensures i in order
    {
      assert order[n - 1 - i] == i;
    }
  }

  lemma RemovedIsGone(order: seq<nat>, k: nat)
    requires Distinct(order) && k < |order|
    ensures order[k] !in Without(order, k)
  {
  }

  /** The pointer surgery of brelse. */
  method MoveToFront(nbuf: nat, next: Ptrs, prev: Ptrs, ghost order: seq<nat>, b: nat)
      returns (next': Ptrs, prev': Ptrs)
    requires Linked(nbuf, next, prev, order) && b in order
    ensures Linked(nbuf, next', prev', [b] + Remove(order, b))
  {
    ghost var k :| 0 <= k < |order| && order[k] == b;
    RemoveAt(order, k);
    UnlinkRemoves(nbuf, next, prev, order, k);
    RemovedIsGone(order, k);
    assert b < nbuf && |next| == |prev| == nbuf + 1;
    hide Linked, Remove, Without;
    next', prev' := next[prev[b] := next[b]], prev[next[b] := prev[b]];
    LinkFrontAdds(nbuf, next', prev', Without(order, k), b);
    var first := next'[nbuf];
    next' := next'[b := first][nbuf := b];
    prev' := prev'[b := nbuf][first := b];
  }

  // ---------------------------------------------------------------------------------------
  // The cache
  // ---------------------------------------------------------------------------------------

  datatype Buf = Buf(dev: nat, blockno: nat, valid: bool, refcnt: int)

  predicate Is(f: Buf, dev: nat, blockno: nat)
  {
    f.dev == dev && f.blockno == blockno
  }

  /** bget's first loop, forward from head.next. */
  method Find(nbuf: nat, next: Ptrs, ghost prev: Ptrs, ghost order: seq<nat>, bufs: seq<Buf>, dev: nat, blockno: nat)
      returns (r: Option<nat>)
    requires Linked(nbuf, next, prev, order) && Listed(nbuf, order) && |bufs| == nbuf
    ensures r.Some? ==> r.value < nbuf && Is(bufs[r.value], dev, blockno)
    ensures r.None? ==> forall i | 0 <= i < nbuf :: !Is(bufs[i], dev, blockno)
  {
    ghost var k := 0;
    assert Ring(nbuf, order, 0) == nbuf;
    var b := next[nbuf];
    while b != nbuf
      invariant 0 <= k <= nbuf && b == Ring(nbuf, order, k + 1)
      invariant forall i | 0 <= i < k :: !Is(bufs[order[i]], dev, blockno)
      decreases nbuf - k
    {
      if bufs[b].dev == dev && bufs[b].blockno == blockno {
        return Some(b);
      }
      b := next[b];
      k := k + 1;
    }
    forall i: nat | i < nbuf
      ensures !Is(bufs[i], dev, blockno)
    {
      assert i in order;
    }
    return None;
  }

  /** bget's second loop, backward from head.prev: the last unreferenced buffer on the list. */
  method Victim(nbuf: nat, ghost next: Ptrs, prev: Ptrs, ghost order: seq<nat>, bufs: seq<Buf>)
      returns (r: Option<nat>, ghost at: nat)
    requires Linked(nbuf, next, prev, order) && Listed(nbuf, order) && |bufs| == nbuf
    ensures r.Some? ==> at < nbuf && r.value == order[at] < nbuf && bufs[r.value].refcnt == 0
    ensures r.Some? ==> forall i | at < i < nbuf :: bufs[order[i]].refcnt != 0
    ensures r.None? ==> forall i | 0 <= i < nbuf :: bufs[i].refcnt != 0
  {
    ghost var k := nbuf;
    assert Ring(nbuf, order, nbuf + 1) == nbuf;
    var b := prev[nbuf];
    at := 0;
    while b != nbuf
      invariant 0 <= k <= nbuf && b == Ring(nbuf, order, k)
      invariant forall i | k <= i < nbuf :: bufs[order[i]].refcnt != 0
      decreases k
    {
      if bufs[b].refcnt == 0 {
        return Some(b), k - 1;
      }
      b := prev[b];
      k := k - 1;
    }
    forall i: nat | i < nbuf
      ensures bufs[i].refcnt != 0
    {
      assert i in order;
    }
    return None, 0;
  }

  /** The list is sorted by the time of the last release to zero, latest first. */
  ghost predicate ByRelease(order: seq<nat>, released: seq<int>, clock: nat)
  {
    && |released| == |order| && (forall k | 0 <= k < |order| :: order[k] < |order|)
    && (forall i, j | 0 <= i < j < |order| :: released[order[i]] > released[order[j]])
    && (forall i | 0 <= i < |order| :: released[i] < clock)
  }

  /**
  The last unreferenced buffer of a sorted list is the one released longest ago.  Only brelse counts as
  a release: a bunpin that drops the last reference leaves the buffer where it is, with its old stamp.
  */
  lemma LastIsOldest(nbuf: nat, order: seq<nat>, released: seq<int>, clock: nat, bufs: seq<Buf>, at: nat, i: nat)
    requires Listed(nbuf, order) && |bufs| == nbuf && ByRelease(order, released, clock) && at < nbuf && i < nbuf
    requires bufs[i].refcnt == 0 && forall j | at < j < nbuf :: bufs[order[j]].refcnt != 0
    ensures released[order[at]] <= released[i]
  {
    assert i in order;
    var j :| 0 <= j < nbuf && order[j] == i;
  }

  /** Moving an element to the front and stamping it with the clock keeps the list sorted by release time. */
  lemma MovedByRelease(order: seq<nat>, k: nat, released: seq<int>, clock: nat)
    requires Distinct(order) && k < |order| && ByRelease(order, released, clock)
    ensures ByRelease([order[k]] + Without(order, k), released[order[k] := clock], clock + 1)
  {
    var order', released' := [order[k]] + Without(order, k), released[order[k] := clock];
    forall i, j | 0 <= i < j < |order'|
      ensures released'[order'[i]] > released'[order'[j]]
    {
      var j' := if j <= k then j - 1 else j;
      assert order'[j] == order[j'];
      if i > 0 {
        var i' := if i <= k then i - 1 else i;
        assert order'[i] == order[i'];
      }
    }
  }

  lemma MovedListed(nbuf: nat, order: seq<nat>, k: nat)
    requires Listed(nbuf, order) && k < |order|
    ensures Listed(nbuf, [order[k]] + Without(order, k))
  {
    forall i: nat | i < nbuf
      ensures i in [order[k]] + Without(order, k)
    {
      assert i in order;
      assert order == order[..k] + [order[k]] + order[k + 1..];
    }
  }

  lemma ReleasedToFront(nbuf: nat, order: seq<nat>, released: seq<int>, clock: nat, b: nat)
    requires Distinct(order) && Listed(nbuf, order) && ByRelease(order, released, clock) && b < nbuf
    ensures b in order
    ensures Listed(nbuf, [b] + Remove(order, b)) && ByRelease([b] + Remove(order, b), released[b := clock], clock + 1)
  {
    assert b in order;
    var k :| 0 <= k < nbuf && order[k] == b;
    RemoveAt(order, k);
    MovedByRelease(order, k, released, clock);
    MovedListed(nbuf, order, k);
  }

  /** At most one buffer per block of a real device. */
  ghost predicate Unique(bufs: seq<Buf>)
  {
    forall i, j | 0 <= i < j < |bufs| && bufs[i].dev != 0 :: !Is(bufs[j], bufs[i].dev, bufs[i].blockno)
  }

  class Bcache {
    const nbuf: nat
    var next: Ptrs
    var prev: Ptrs
    var bufs: seq<Buf>
    ghost var order: seq<nat>        // the list, most recently used first
    ghost var released: seq<int>     // when each buffer was last released to zero; negative before the first time
    ghost var clock: nat

    ghost predicate Valid()
      reads this
    {
      && |bufs| == nbuf && Linked(nbuf, next, prev, order) && Listed(nbuf, order)
      && ByRelease(order, released, clock) && Unique(bufs)
    }

    /** binit: every buffer is (dev 0, block 0) and unreferenced. */
    constructor (n: nat)
      ensures Valid() && nbuf == n && bufs == seq(n, _ => Buf(0, 0, false, 0))
      ensures forall k | 0 <= k < n :: order[k] == n - 1 - k
    {
      nbuf := n;
      bufs := seq(n, _ => Buf(0, 0, false, 0));
      released := seq(n, i => i - n);
      clock := 0;
      var nx, pv;
      ghost var list;
      nx, pv, list := BuildList(n);
      next, prev, order := nx, pv, list;
    }

    /**
    bget under bcache.lock: the cached buffer if there is one, else the unreferenced buffer that was
    released to zero longest ago, else none (the kernel panics).
    */
    method Bget(dev: nat, blockno: nat) returns (r: Option<nat>)
      requires Valid()
      modifies this`bufs
      ensures Valid()
      ensures r.None? <==> forall i | 0 <= i < nbuf :: !Is(old(bufs)[i], dev, blockno) && old(bufs)[i].refcnt != 0
      ensures r.None? ==> bufs == old(bufs)
      ensures r.Some? ==> r.value < nbuf
      ensures r.Some? && Is(old(bufs)[r.value], dev, blockno) ==>
                bufs == old(bufs)[r.value := old(bufs)[r.value].(refcnt := old(bufs)[r.value].refcnt + 1)]
      ensures r.Some? && !Is(old(bufs)[r.value], dev, blockno) ==>
                && bufs == old(bufs)[r.value := Buf(dev, blockno, false, 1)] && old(bufs)[r.value].refcnt == 0
                && (forall i | 0 <= i < nbuf :: !Is(old(bufs)[i], dev, blockno))
                && (forall i | 0 <= i < nbuf && old(bufs)[i].refcnt == 0 :: released[r.value] <= released[i])
    {
      r := Find(nbuf, next, prev, order, bufs, dev, blockno);
      if r.Some? {
        bufs := bufs[r.value := bufs[r.value].(refcnt := bufs[r.value].refcnt + 1)];
      } else {
        ghost var at;
        r, at := Victim(nbuf, next, prev, order, bufs);
        if r.Some? {
          forall i | 0 <= i < nbuf && bufs[i].refcnt == 0
            ensures released[r.value] <= released[i]
          {
            LastIsOldest(nbuf, order, released, clock, bufs, at, i);
          }
          bufs := bufs[r.value := Buf(dev, blockno, false, 1)];
        }
      }
    }

    /** The locked part of brelse: the last reference moves the buffer to the front. */
    method Brelse(b: nat)
      requires Valid() && b < nbuf
      modifies this
      ensures Valid()
      ensures bufs == old(bufs)[b := old(bufs)[b].(refcnt := old(bufs)[b].refcnt - 1)]
      ensures bufs[b].refcnt != 0 ==> order == old(order) && released == old(released)
      ensures bufs[b].refcnt == 0 ==> order == [b] + Remove(old(order), b) && released == old(released)[b := old(clock)]
    {
      assert Distinct(order) && |released| == nbuf;
      hide Linked, ByRelease, Remove;
      bufs := bufs[b := bufs[b].(refcnt := bufs[b].refcnt - 1)];
      if bufs[b].refcnt == 0 {
        ghost var moved, stamped := [b] + Remove(order, b), released[b := clock];
        ReleasedToFront(nbuf, order, released, clock, b);
        assert Listed(nbuf, moved) && ByRelease(moved, stamped, clock + 1);
        var nx, pv := MoveToFront(nbuf, next, prev, order, b);
        assert Linked(nbuf, nx, pv, moved);
        next, prev, order, released, clock := nx, pv, moved, stamped, clock + 1;
      }
    }

    method Bpin(b: nat)
      requires Valid() && b < nbuf
      modifies this`bufs
      ensures Valid() && bufs == old(bufs)[b := old(bufs)[b].(refcnt := old(bufs)[b].refcnt + 1)]
    {
      bufs := bufs[b := bufs[b].(refcnt := bufs[b].refcnt + 1)];
    }

    /** bunpin never moves the buffer, not even when it drops the last reference. */
    method Bunpin(b: nat)
      requires Valid() && b < nbuf
      modifies this`bufs
      ensures Valid() && bufs == old(bufs)[b := old(bufs)[b].(refcnt := old(bufs)[b].refcnt - 1)]
    {
      bufs := bufs[b := bufs[b].(refcnt := bufs[b].refcnt - 1)];
    }
  }

  function Remove(order: seq<nat>, b: nat): seq<nat>
  {
    if order == [] then [] else if order[0] == b then order[1..] else [order[0]] + Remove(order[1..], b)
  }

  lemma {:induction false} RemoveAt(order: seq<nat>, k: nat)
    requires Distinct(order) && k < |order|
    ensures Remove(order, order[k]) == Without(order, k)
  {
    if k > 0 {
      RemoveAt(order[1..], k - 1);
      assert order[1..][k - 1] == order[k];
      assert Without(order, k) == [order[0]] + Without(order[1..], k - 1);
    }
  }
}
