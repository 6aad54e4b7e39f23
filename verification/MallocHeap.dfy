/** malloc and morecore over the free list of Malloc, and the allocator's state. */
module MallocHeap {
  import opened Malloc

  const HEADER: nat := 16               // sizeof(Header)

  /** malloc's unit count for a 32-bit request; sizeof is 64 bits wide, so the sum does not wrap. */
  function Units(nbytes: nat): nat
  {
    (nbytes + HEADER - 1) / HEADER + 1
  }

  /** How many units morecore goes for. */
  function Asked(nu: nat): nat
  {
    if nu < 4096 then 4096 else nu
  }

  /** What sbrk is handed: the byte count as an int. */
  function SbrkArg(nu: nat): int
  {
    var x := nu * HEADER % 0x1_0000_0000;
    if x < 0x8000_0000 then x else x - 0x1_0000_0000
  }

  /** The exact bound: sbrk is asked for the memory that the new header will claim. */
  predicate Grantable(nbytes: nat)
  {
    nbytes <= 0x8000_0000 - 2 * HEADER
  }

  /** Of all 32-bit requests, exactly those up to the bound make morecore ask for as much as it claims. */
  lemma RequestFits(nbytes: nat)
    requires nbytes < 0x1_0000_0000
    ensures nbytes <= (Units(nbytes) - 1) * HEADER < nbytes + HEADER
    ensures SbrkArg(Asked(Units(nbytes))) == Asked(Units(nbytes)) * HEADER <==> Grantable(nbytes)
  {
    if !Grantable(nbytes) {
      RequestFails(nbytes);
    }
  }

  /**
  Above the bound sbrk gets a negative argument and takes memory away; at the very top it gets 0 or 16 and
  succeeds, while the header claims 2^28 units or one more.
  */
  lemma RequestFails(nbytes: nat)
    requires nbytes < 0x1_0000_0000 && !Grantable(nbytes)
    ensures Asked(Units(nbytes)) == Units(nbytes)
    ensures nbytes <= 0x1_0000_0000 - 2 * HEADER ==> SbrkArg(Units(nbytes)) < 0
    ensures 0x1_0000_0000 - 2 * HEADER < nbytes <= 0x1_0000_0000 - HEADER ==>
              SbrkArg(Units(nbytes)) == 0 && Units(nbytes) == 0x1000_0000
    ensures nbytes > 0x1_0000_0000 - HEADER ==> SbrkArg(Units(nbytes)) == HEADER && Units(nbytes) == 0x1000_0001
  {
  }

  // ---------------------------------------------------------------------------------------
  // Taking a block
  // ---------------------------------------------------------------------------------------

  /** The blocks after `n` units are taken from free block `t`: all of it, or its tail. */
  function Taken(ts: seq<Tile>, t: nat, n: nat): seq<Tile>
    requires t < |ts| && 0 < n <= ts[t].size
  {
    if ts[t].size == n then ts[t := Tile(ts[t].addr, n, true)]
    else ts[..t] + [Tile(ts[t].addr, ts[t].size - n, false), Tile(End(ts[t]) - n, n, true)] + ts[t + 1..]
  }

  lemma TakenTiled(ts: seq<Tile>, t: nat, n: nat)
    requires Tiled(ts) && t < |ts| && !ts[t].live && 0 < n <= ts[t].size
    ensures Tiled(Taken(ts, t, n))
  {
    var ts' := Taken(ts, t, n);
    if ts[t].size > n {
      forall i, j | 0 <= i < j < |ts'|
        ensures Before(ts'[i], ts'[j])
      {
        var i', j' := if i <= t then i else i - 1, if j <= t then j else j - 1;
        assert i < t ==> ts'[i] == ts[i];
        assert j > t + 1 ==> ts'[j] == ts[j'];
        assert i > t + 1 ==> ts'[i] == ts[i'];
        assert i' < j' ==> Before(ts[i'], ts[j']);
      }
    }
  }

  /** The list with free block `t` in its place. */
  lemma FreePlace(base: nat, ts: seq<Tile>, t: nat)
    requires Tiled(ts) && Above(base, ts) && t < |ts| && !ts[t].live
    ensures List(base, ts) == Front(base, ts, t) + ([ts[t].addr] + Rear(ts, t)) && Ascending(List(base, ts))
  {
    hide Frees;
    Split(ts, t);
    FreesAscend(base, ts);
  }

  lemma TakenList(base: nat, ts: seq<Tile>, t: nat, n: nat)
    requires Tiled(ts) && t < |ts| && !ts[t].live && 0 < n <= ts[t].size
    ensures List(base, Taken(ts, t, n))
            == Front(base, ts, t) + (if ts[t].size == n then [] else [ts[t].addr]) + Rear(ts, t)
  {
    hide Frees;
    if ts[t].size == n {
      var x := Tile(ts[t].addr, n, true);
      assert Taken(ts, t, n) == ts[..t] + [x] + ts[t + 1..];
      FreesConcat(ts[..t] + [x], ts[t + 1..]);
      FreesConcat(ts[..t], [x]);
      FreesOne(x);
    } else {
      var x, y := Tile(ts[t].addr, ts[t].size - n, false), Tile(End(ts[t]) - n, n, true);
      assert Taken(ts, t, n) == ts[..t] + ([x] + [y]) + ts[t + 1..];
      FreesConcat(ts[..t] + ([x] + [y]), ts[t + 1..]);
      FreesConcat(ts[..t], [x] + [y]);
      FreesConcat([x], [y]);
      FreesOne(x);
      FreesOne(y);
    }
  }

  /** malloc's two ways to take `n` units from block `p`, which follows `prevp` in the list. */
  function Carve(hdr: map<nat, Header>, prevp: nat, p: nat, n: nat): map<nat, Header>
    requires n <= Size(hdr, p)
  {
    if Size(hdr, p) == n then hdr[prevp := Header(Ptr(hdr, p), Size(hdr, prevp))]
    else
      var rest := Size(hdr, p) - n;
      hdr[p := Header(Ptr(hdr, p), rest)][p + rest := Header(Ptr(hdr, p + rest), n)]
  }

  /** The list elements around free block `t`. */
  lemma Around(base: nat, hdr: map<nat, Header>, freep: nat, ts: seq<Tile>, t: nat)
    requires HeapOk(base, hdr, freep, ts) && t < |ts| && !ts[t].live
    ensures var a, b := Front(base, ts, t), [ts[t].addr] + Rear(ts, t);
            && List(base, ts) == a + b && Ring(hdr, a + b) && Size(hdr, ts[t].addr) == ts[t].size
            && Ptr(hdr, a[|a| - 1]) == ts[t].addr && Ptr(hdr, b[0]) == (if |b| > 1 then b[1] else a[0])
            && (forall i {:trigger a[i]} | 0 <= i < |a| :: a[i] in hdr && a[i] < ts[t].addr)
            && (forall i {:trigger a[i]} | 0 <= i < |a| - 1 :: a[i] < a[|a| - 1])
            && (forall j {:trigger b[j]} | 1 <= j < |b| :: b[j] in hdr && ts[t].addr < b[j])
  {
    hide Frees;
    FreePlace(base, ts, t);
    var a, b := Front(base, ts, t), [ts[t].addr] + Rear(ts, t);
    var l := a + b;
    assert Ptr(hdr, l[|a| - 1]) == NextOf(l, |a| - 1) && Ptr(hdr, l[|a|]) == NextOf(l, |a|);
    forall i: nat | i < |a|
      ensures a[i] in hdr && a[i] < ts[t].addr && (i < |a| - 1 ==> a[i] < a[|a| - 1])
    {
      assert Ptr(hdr, l[i]) == NextOf(l, i) && l[i] < l[|a|];
      assert i < |a| - 1 ==> l[i] < l[|a| - 1];
    }
    forall j: nat | 1 <= j < |b|
      ensures b[j] in hdr && ts[t].addr < b[j]
    {
      assert l[|a| + j] == b[j] && Ptr(hdr, l[|a| + j]) == NextOf(l, |a| + j) && l[|a|] < l[|a| + j];
    }
  }

  lemma CarveRing(base: nat, hdr: map<nat, Header>, freep: nat, ts: seq<Tile>, t: nat, n: nat)
    requires HeapOk(base, hdr, freep, ts) && t < |ts| && !ts[t].live && 0 < n <= ts[t].size
    ensures Size(hdr, ts[t].addr) == ts[t].size
    ensures var prevp := Front(base, ts, t)[|Front(base, ts, t)| - 1];
            Ring(Carve(hdr, prevp, ts[t].addr, n), List(base, Taken(ts, t, n)))
  {
    hide Ring, Frees, Carve;
    Around(base, hdr, freep, ts, t);
    TakenList(base, ts, t, n);
    if n < ts[t].size {
      SplitRing(base, hdr, freep, ts, t, n);
    } else {
      UnlinkRing(base, hdr, freep, ts, t);
    }
  }

  lemma UnlinkRing(base: nat, hdr: map<nat, Header>, freep: nat, ts: seq<Tile>, t: nat)
    requires HeapOk(base, hdr, freep, ts) && t < |ts| && !ts[t].live
    ensures var a := Front(base, ts, t); Ring(Carve(hdr, a[|a| - 1], ts[t].addr, Size(hdr, ts[t].addr)),
                                              a + [] + Rear(ts, t))
  {
    Around(base, hdr, freep, ts, t);
    hide Frees, Tiled, Above, Sizes;
    var a, b := Front(base, ts, t), [ts[t].addr] + Rear(ts, t);
    var hdr' := Carve(hdr, a[|a| - 1], ts[t].addr, Size(hdr, ts[t].addr));
    RingSplice(hdr, hdr', a, b, [], 1);
    assert b[1..] == Rear(ts, t);
  }

  lemma SplitRing(base: nat, hdr: map<nat, Header>, freep: nat, ts: seq<Tile>, t: nat, n: nat)
    requires HeapOk(base, hdr, freep, ts) && t < |ts| && !ts[t].live && 0 < n < ts[t].size
    ensures Size(hdr, ts[t].addr) == ts[t].size
    ensures var a := Front(base, ts, t); Ring(Carve(hdr, a[|a| - 1], ts[t].addr, n), a + [ts[t].addr] + Rear(ts, t))
  {
    Around(base, hdr, freep, ts, t);
    TailIsNew(base, ts, t, n);
    hide Frees, Tiled, Above, Sizes, Ring;
    var a := Front(base, ts, t);
    assert a + [ts[t].addr] + Rear(ts, t) == List(base, ts);
    SameRing(hdr, Carve(hdr, a[|a| - 1], ts[t].addr, n), List(base, ts));
  }

  lemma SameRing(hdr: map<nat, Header>, hdr': map<nat, Header>, l: seq<nat>)
    requires Ring(hdr, l) && forall x | x in l && x in hdr :: x in hdr' && hdr'[x].ptr == hdr[x].ptr
    ensures Ring(hdr', l)
  {
    forall i: nat | i < |l|
      ensures l[i] in hdr' && Ptr(hdr', l[i]) == NextOf(l, i)
    {
      assert Ptr(hdr, l[i]) == NextOf(l, i) && l[i] in l;
    }
  }

  /** The header of a tail that is split off is not in the list. */
  lemma TailIsNew(base: nat, ts: seq<Tile>, t: nat, n: nat)
    requires Tiled(ts) && Above(base, ts) && t < |ts| && !ts[t].live && 0 < n < ts[t].size
    ensures End(ts[t]) - n !in List(base, ts) && forall i {:trigger ts[i]} | 0 <= i < |ts| ::
                                                   ts[i].addr != End(ts[t]) - n
  {
    var x := End(ts[t]) - n;
    forall i | 0 <= i < |ts|
      ensures ts[i].addr != x
    {
      assert if i < t then Before(ts[i], ts[t]) else i == t || Before(ts[t], ts[i]);
    }
    forall k | 0 <= k < |Frees(ts)|
      ensures Frees(ts)[k] != x
    {
      var i := FreesFrom(ts, k);
    }
  }

  lemma CarveSizes(base: nat, hdr: map<nat, Header>, freep: nat, ts: seq<Tile>, t: nat, n: nat, prevp: nat)
    requires HeapOk(base, hdr, freep, ts) && t < |ts| && !ts[t].live && 0 < n <= ts[t].size && prevp in hdr
             && prevp != ts[t].addr
    ensures Size(hdr, ts[t].addr) == ts[t].size
    ensures var hdr' := Carve(hdr, prevp, ts[t].addr, n);
            Sizes(hdr', Taken(ts, t, n)) && base in hdr' && Size(hdr', base) == 0 && Above(base, Taken(ts, t, n))
  {
    hide Frees, Ring;
    var ts', hdr' := Taken(ts, t, n), Carve(hdr, prevp, ts[t].addr, n);
    if n < ts[t].size {
      TailIsNew(base, ts, t, n);
      forall i | 0 <= i < |ts'|
        ensures ts'[i].addr in hdr' && hdr'[ts'[i].addr].size == ts'[i].size && base < ts'[i].addr
      {
        var i' := if i <= t then i else i - 1;
        assert i < t || i > t + 1 ==> ts'[i] == ts[i'];
        assert i' < t ==> Before(ts[i'], ts[t]);
        assert i' > t ==> Before(ts[t], ts[i']);
      }
    }
  }

  /** malloc keeps the heap in order. */
  lemma TakeKeeps(base: nat, hdr: map<nat, Header>, freep: nat, ts: seq<Tile>, t: nat, n: nat)
    requires HeapOk(base, hdr, freep, ts) && t < |ts| && !ts[t].live && 0 < n <= ts[t].size
    ensures Size(hdr, ts[t].addr) == ts[t].size
    ensures var prevp := Front(base, ts, t)[|Front(base, ts, t)| - 1];
            HeapOk(base, Carve(hdr, prevp, ts[t].addr, n), prevp, Taken(ts, t, n))
  {
    hide Frees, Sizes, Carve;
    var a := Front(base, ts, t);
    var prevp := a[|a| - 1];
    FreePlace(base, ts, t);
    var l := List(base, ts);
    assert l[|a| - 1] == prevp && l[|a|] == ts[t].addr && Ptr(hdr, l[|a| - 1]) == NextOf(l, |a| - 1);
    TakenTiled(ts, t, n);
    TakenList(base, ts, t, n);
    CarveRing(base, hdr, freep, ts, t, n);
    CarveSizes(base, hdr, freep, ts, t, n, prevp);
    assert List(base, Taken(ts, t, n))[|a| - 1] == prevp;
  }

  // ---------------------------------------------------------------------------------------
  // What the blocks cover
  // ---------------------------------------------------------------------------------------

  /** Unit `x` lies in some block. */
  ghost predicate Covered(ts: seq<Tile>, x: nat)
  {
    exists i :: 0 <= i < |ts| && ts[i].addr <= x < End(ts[i])
  }

  /** There is a live block of `n` units at `a`. */
  predicate LiveAt(ts: seq<Tile>, a: nat, n: nat)
  {
    Tile(a, n, true) in ts
  }

  lemma CoveredConcat(a: seq<Tile>, b: seq<Tile>, x: nat)
    ensures Covered(a + b, x) <==> Covered(a, x) || Covered(b, x)
  {
    if Covered(a, x) {
      var i :| 0 <= i < |a| && a[i].addr <= x < End(a[i]);
      assert (a + b)[i].addr <= x < End((a + b)[i]);
    }
    if Covered(b, x) {
      var i :| 0 <= i < |b| && b[i].addr <= x < End(b[i]);
      assert (a + b)[|a| + i].addr <= x < End((a + b)[|a| + i]);
    }
    if Covered(a + b, x) {
      var i :| 0 <= i < |a + b| && (a + b)[i].addr <= x < End((a + b)[i]);
      if i < |a| {
        assert a[i].addr <= x < End(a[i]);
      } else {
        assert b[i - |a|].addr <= x < End(b[i - |a|]);
      }
    }
  }

  lemma CoveredOne(t: Tile, x: nat)
    ensures Covered([t], x) <==> t.addr <= x < End(t)
  {
    if t.addr <= x < End(t) {
      assert [t][0].addr <= x < End([t][0]);
    }
  }

  lemma TakenCovers(ts: seq<Tile>, t: nat, n: nat, x: nat)
    requires t < |ts| && 0 < n <= ts[t].size
    ensures Covered(Taken(ts, t, n), x) <==> Covered(ts, x)
  {
    hide Covered;
    var y, z := Tile(ts[t].addr, ts[t].size - n, false), Tile(End(ts[t]) - n, n, true);
    var mid := if ts[t].size == n then [Tile(ts[t].addr, n, true)] else [y] + [z];
    assert Taken(ts, t, n) == ts[..t] + mid + ts[t + 1..] && ts == ts[..t] + [ts[t]] + ts[t + 1..];
    CoveredConcat(ts[..t] + mid, ts[t + 1..], x);
    CoveredConcat(ts[..t], mid, x);
    CoveredConcat(ts[..t] + [ts[t]], ts[t + 1..], x);
    CoveredConcat(ts[..t], [ts[t]], x);
    CoveredConcat([y], [z], x);
    CoveredOne(y, x);
    CoveredOne(z, x);
    CoveredOne(ts[t], x);
    CoveredOne(Tile(ts[t].addr, n, true), x);
  }

  /** The blocks that are joined cover one stretch. */
  lemma MiddleCovers(ts: seq<Tile>, t: nat, x: nat)
    requires Tiled(ts) && t < |ts|
    ensures Covered(ts[First(ts, t)..Last(ts, t)], x) <==> ts[First(ts, t)].addr <= x < End(ts[Last(ts, t) - 1])
  {
    var lo, hi := First(ts, t), Last(ts, t);
    var mid := ts[lo..hi];
    if ts[lo].addr <= x < End(ts[hi - 1]) {
      var i := if x < ts[t].addr then 0 else if x < End(ts[t]) then t - lo else t + 1 - lo;
      assert mid[i].addr <= x < End(mid[i]);
    }
  }

  lemma JoinedCovers(ts: seq<Tile>, t: nat, x: nat)
    requires Tiled(ts) && t < |ts| && ts[t].live
    ensures ts[First(ts, t)].addr <= End(ts[Last(ts, t) - 1]) && (Covered(Joined(ts, t), x) <==> Covered(ts, x))
  {
    JoinFits(ts, t);
    hide Covered, Tiled, First, Last;
    var lo, hi := First(ts, t), Last(ts, t);
    var mid := Tile(ts[lo].addr, End(ts[hi - 1]) - ts[lo].addr, false);
    assert Joined(ts, t) == ts[..lo] + [mid] + ts[hi..];
    hide Joined;
    Covered3(ts[..lo], [mid], ts[hi..], x);
    Covered3(ts[..lo], ts[lo..hi], ts[hi..], x);
    CutTwice(ts, lo, hi);
    CoveredOne(mid, x);
    MiddleCovers(ts, t, x);
  }

  lemma Covered3(a: seq<Tile>, b: seq<Tile>, c: seq<Tile>, x: nat)
    ensures Covered(a + b + c, x) <==> Covered(a, x) || Covered(b, x) || Covered(c, x)
  {
    hide Covered;
    CoveredConcat(a + b, c, x);
    CoveredConcat(a, b, x);
  }

  lemma JoinedLive(ts: seq<Tile>, t: nat, a: nat, n: nat)
    requires Tiled(ts) && t < |ts| && ts[t].live
    ensures ts[First(ts, t)].addr <= End(ts[Last(ts, t) - 1])
    ensures LiveAt(Joined(ts, t), a, n) <==> LiveAt(ts, a, n) && a != ts[t].addr
  {
    hide Tiled, First, Last, JoinsPrev, JoinsNext;
    JoinFits(ts, t);
    var lo, hi, x := First(ts, t), Last(ts, t), Tile(a, n, true);
    MiddleLive(ts, t, x);
    OutsideLive(ts, t, x);
    CutTwice(ts, lo, hi);
    InThree(ts[..lo], ts[lo..hi], ts[hi..], x);
    InThree(ts[..lo], [Tile(ts[lo].addr, End(ts[hi - 1]) - ts[lo].addr, false)], ts[hi..], x);
  }

  lemma InThree(a: seq<Tile>, b: seq<Tile>, c: seq<Tile>, x: Tile)
    ensures x in a + b + c <==> x in a || x in b || x in c
  {
    assert x in a + b + c <==> x in a + b || x in c;
  }

  lemma MiddleLive(ts: seq<Tile>, t: nat, x: Tile)
    requires t < |ts| && ts[t].live && x.live
    ensures x in ts[First(ts, t)..Last(ts, t)] <==> x == ts[t]
  {
    var lo, hi := First(ts, t), Last(ts, t);
    assert ts[lo..hi][t - lo] == ts[t];
  }

  lemma OutsideLive(ts: seq<Tile>, t: nat, x: Tile)
    requires Tiled(ts) && t < |ts|
    ensures x in ts[..First(ts, t)] || x in ts[Last(ts, t)..] ==> x.addr != ts[t].addr
  {
    if x in ts[..First(ts, t)] {
      var i :| 0 <= i < First(ts, t) && ts[i] == x;
      assert Before(ts[i], ts[t]);
    } else if x in ts[Last(ts, t)..] {
      var i :| 0 <= i < |ts| - Last(ts, t) && ts[Last(ts, t)..][i] == x;
      assert Before(ts[t], ts[Last(ts, t) + i]);
    }
  }

  lemma TakenLive(ts: seq<Tile>, t: nat, n: nat, a: nat, m: nat)
    requires t < |ts| && !ts[t].live && 0 < n <= ts[t].size
    ensures LiveAt(Taken(ts, t, n), a, m) <==> LiveAt(ts, a, m) || (a == End(ts[t]) - n && m == n)
  {
    var x, ts' := Tile(a, m, true), Taken(ts, t, n);
    if x in ts {
      var i :| 0 <= i < |ts| && ts[i] == x;
      assert ts'[if i < t || n == ts[t].size then i else i + 1] == x;
    }
    assert ts'[if n == ts[t].size then t else t + 1] == Tile(End(ts[t]) - n, n, true);
  }

  // ---------------------------------------------------------------------------------------
  // The allocator
  // ---------------------------------------------------------------------------------------

  /** The free-list element before block `t`, the list head if there is none. */
  ghost function ListedBefore(base: nat, ts: seq<Tile>, t: nat): nat
    requires t <= |ts|
  {
    Front(base, ts, t)[|Front(base, ts, t)| - 1]
  }

  /** Free blocks that were not there before reach up to the break. */
  ghost predicate NewOnTop(ts: seq<Tile>, ts': seq<Tile>, brk: nat)
  {
    forall i {:trigger ts'[i]} | 0 <= i < |ts'| && !ts'[i].live && ts'[i] !in ts :: End(ts'[i]) == brk
  }

  lemma JoinedOnTop(ts: seq<Tile>, x: Tile)
    requires Tiled(ts + [x]) && x.live
    ensures var a := ts + [x];
            a[First(a, |ts|)].addr <= End(a[Last(a, |ts|) - 1]) && NewOnTop(ts, Joined(a, |ts|), End(x))
  {
    var a := ts + [x];
    JoinFits(a, |ts|);
  }

  /** All blocks end at or below the break. */
  ghost predicate Below(ts: seq<Tile>, brk: nat)
  {
    forall i {:trigger ts[i]} | 0 <= i < |ts| :: End(ts[i]) <= brk
  }

  lemma JoinedBelow(ts: seq<Tile>, t: nat, brk: nat)
    requires Tiled(ts) && t < |ts| && ts[t].live && Below(ts, brk)
    ensures ts[First(ts, t)].addr <= End(ts[Last(ts, t) - 1]) && Below(Joined(ts, t), brk)
  {
    JoinFits(ts, t);
  }

  /** The free block a list position stands for. */
  lemma ListTile(base: nat, ts: seq<Tile>, k: nat) returns (t: nat)
    requires 0 < k < |List(base, ts)|
    ensures t < |ts| && !ts[t].live && ts[t].addr == List(base, ts)[k]
    ensures Front(base, ts, t)[|Front(base, ts, t)| - 1] == List(base, ts)[k - 1]
  {
    t := FreesFrom(ts, k - 1);
    assert Front(base, ts, t) == List(base, ts)[..k];
  }

  lemma {:induction false} FreeListed(ts: seq<Tile>, t: nat)
    requires t < |ts| && !ts[t].live
    ensures ts[t].addr in Frees(ts)
  {
    hide Frees;
    Split(ts, t);
  }

  function Prev(k: nat, n: nat): nat
    requires k < n
  {
    if k > 0 then k - 1 else n - 1
  }

  function Succ(k: nat, n: nat): nat
    requires k < n
  {
    if k + 1 < n then k + 1 else 0
  }

  /** The elements after place `start` and before place `k`, around the ring, are too small. */
  ghost predicate Small(hdr: map<nat, Header>, l: seq<nat>, k: nat, start: nat, n: nat)
    requires k < |l| && start < |l|
  {
    forall i: nat {:trigger l[i]} | i < |l| && Distance(k, i, |l|) > Distance(k, start, |l|) :: Size(hdr, l[i]) < n
  }

  lemma SmallStart(hdr: map<nat, Header>, l: seq<nat>, start: nat, n: nat)
    requires start < |l|
    ensures Small(hdr, l, Succ(start, |l|), start, n)
  {
  }

  lemma SmallNext(hdr: map<nat, Header>, l: seq<nat>, k: nat, start: nat, n: nat)
    requires k < |l| && start < |l| && k != start && Small(hdr, l, k, start, n) && Size(hdr, l[k]) < n
    ensures Small(hdr, l, Succ(k, |l|), start, n) && Distance(Succ(k, |l|), start, |l|) < Distance(k, start, |l|)
  {
  }

  lemma SmallAll(hdr: map<nat, Header>, l: seq<nat>, start: nat, n: nat)
    requires start < |l| && Small(hdr, l, start, start, n) && Size(hdr, l[start]) < n
    ensures forall i: nat | i < |l| :: Size(hdr, l[i]) < n
  {
  }

  /** malloc's loop, once around: the first element after freep that is large enough, at position `k`. */
  method SearchRing(hdr: map<nat, Header>, freep: nat, n: nat, ghost l: seq<nat>, ghost start: nat)
      returns (found: bool, prevp: nat, ghost k: nat)
    requires Ring(hdr, l) && Ascending(l) && start < |l| && l[start] == freep
    ensures k < |l| && prevp == l[Prev(k, |l|)]
    ensures found ==> Size(hdr, l[k]) >= n && Ptr(hdr, prevp) == l[k] && Small(hdr, l, k, start, n)
    ensures !found ==> forall i: nat | i < |l| :: Size(hdr, l[i]) < n
  {
    hide Small, Distance, Size;
    k := Succ(start, |l|);
    SmallStart(hdr, l, start, n);
    prevp := freep;
    assert Ptr(hdr, l[start]) == NextOf(l, start);
    var p := Ptr(hdr, prevp);
    while true
      invariant k < |l| && p == l[k] && p == Ptr(hdr, prevp) && prevp == l[Prev(k, |l|)] && Small(hdr, l, k, start, n)
      decreases Distance(k, start, |l|)
    {
      if Size(hdr, p) >= n {
        return true, prevp, k;
      }
      if p == freep {
        SmallAll(hdr, l, start, n);
        return false, prevp, k;
      }
      assert Ptr(hdr, l[k]) == NextOf(l, k);
      SmallNext(hdr, l, k, start, n);
      prevp := p;
      p := Ptr(hdr, p);
      k := Succ(k, |l|);
    }
  }

  /** Going up from `a` and around, `x` comes before `b`. */
  predicate Between(a: nat, x: nat, b: nat)
  {
    if a < b then a < x < b else a < x || x < b
  }

  /** Free block `t` is the first one after `freep`, going up and around, that has `n` units. */
  ghost predicate FirstFit(ts: seq<Tile>, freep: nat, t: nat, n: nat)
  {
    && t < |ts| && !ts[t].live && ts[t].size >= n
    && forall i {:trigger ts[i]} | 0 <= i < |ts| && !ts[i].live && Between(freep, ts[i].addr, ts[t].addr) ::
         ts[i].size < n
  }

  lemma RingOrder(l: seq<nat>, i: nat, start: nat, k: nat)
    requires Ascending(l) && i < |l| && start < |l| && k < |l| && Between(l[start], l[i], l[k])
    ensures Distance(k, i, |l|) > Distance(k, start, |l|)
  {
    assert i < start ==> l[i] < l[start];
    assert i > k ==> l[k] < l[i];
    assert start < i ==> l[start] < l[i];
    assert i < k ==> l[i] < l[k];
    assert start < k ==> l[start] < l[k];
    assert k < start ==> l[k] < l[start];
  }

  lemma FirstOnRing(base: nat, hdr: map<nat, Header>, ts: seq<Tile>, start: nat, k: nat, t: nat, n: nat)
    requires Sizes(hdr, ts) && Ascending(List(base, ts)) && start < |List(base, ts)| && k < |List(base, ts)|
    requires Small(hdr, List(base, ts), k, start, n) && t < |ts| && !ts[t].live && ts[t].size >= n
    requires ts[t].addr == List(base, ts)[k]
    ensures FirstFit(ts, List(base, ts)[start], t, n)
  {
    var l := List(base, ts);
    hide Frees, Ascending, Distance, Between;
    forall i: nat | i < |ts| && !ts[i].live && Between(l[start], ts[i].addr, ts[t].addr)
      ensures ts[i].size < n
    {
      FreeListed(ts, i);
      var j: nat :| j < |Frees(ts)| && Frees(ts)[j] == ts[i].addr;
      assert l[j + 1] == ts[i].addr;
      RingOrder(l, j + 1, start, k);
      assert Size(hdr, l[j + 1]) == ts[i].size;
    }
  }

  /** The same in terms of blocks. */
  method Search(base: nat, hdr: map<nat, Header>, freep: nat, n: nat, ghost ts: seq<Tile>)
      returns (found: bool, prevp: nat, ghost t: nat)
    requires HeapOk(base, hdr, freep, ts) && n > 0
    ensures found ==> t < |ts| && !ts[t].live && ts[t].addr == Ptr(hdr, prevp) && ts[t].size >= n
    ensures found ==> prevp == Front(base, ts, t)[|Front(base, ts, t)| - 1] && FirstFit(ts, freep, t, n)
    ensures !found ==> forall i | 0 <= i < |ts| && !ts[i].live :: ts[i].size < n
  {
    FreesAscend(base, ts);
    ghost var l := List(base, ts);
    ghost var start: nat :| start < |l| && l[start] == freep;
    hide Tiled, Frees, Ascending, Ring;
    ghost var k;
    t := 0;
    found, prevp, k := SearchRing(hdr, freep, n, l, start);
    if found {
      t := ListTile(base, ts, k);
      FirstOnRing(base, hdr, ts, start, k, t, n);
    } else {
      forall i: nat | i < |ts| && !ts[i].live
        ensures ts[i].size < n
      {
        FreeListed(ts, i);
        ghost var j: nat :| j < |Frees(ts)| && Frees(ts)[j] == ts[i].addr;
        assert l[j + 1] == ts[i].addr;
      }
    }
  }

  /** Fresh memory from sbrk enters as a live block at the end. */
  lemma AppendKeeps(base: nat, hdr: map<nat, Header>, freep: nat, ts: seq<Tile>, brk: nat, p: nat, n: nat)
    requires HeapOk(base, hdr, freep, ts) && Below(ts, brk) && base < brk <= p && n > 0
    ensures HeapOk(base, hdr[p := Header(0, n)], freep, ts + [Tile(p, n, true)])
            && Below(ts + [Tile(p, n, true)], p + n)
  {
    var x := Tile(p, n, true);
    FreesConcat(ts, [x]);
    FreesOne(x);
    hide Frees;
    assert List(base, ts + [x]) == List(base, ts);
    assert forall i {:trigger ts[i]} | 0 <= i < |ts| :: ts[i].addr < p;
    FreesBelow(ts, p);
    assert p !in List(base, ts);
    SameRing(hdr, hdr[p := Header(0, n)], List(base, ts));
    hide Ring;
    assert Tiled(ts + [x]) && Above(base, ts + [x]);
    assert Sizes(hdr[p := Header(0, n)], ts + [x]);
  }

  /** A new empty heap: base alone in the list. */
  lemma EmptyHeap(base: nat, hdr: map<nat, Header>)
    ensures HeapOk(base, hdr[base := Header(base, 0)], base, [])
  {
  }

  // ---- what a call does to the blocks ----

  /** The live blocks are those of before without the one at `a`. */
  ghost predicate Loses(ts: seq<Tile>, ts': seq<Tile>, a: nat)
  {
    forall b: nat, n: nat {:trigger LiveAt(ts', b, n)} :: LiveAt(ts', b, n) <==> LiveAt(ts, b, n) && b != a
  }

  /** The live blocks are those of before and a new one of `m` units at `a`. */
  ghost predicate Gains(ts: seq<Tile>, ts': seq<Tile>, a: nat, m: nat)
  {
    && !StartsLive(ts, a)
    && forall b: nat, n: nat {:trigger LiveAt(ts', b, n)} ::
         LiveAt(ts', b, n) <==> LiveAt(ts, b, n) || (b == a && n == m)
  }

  ghost predicate SameLive(ts: seq<Tile>, ts': seq<Tile>)
  {
    forall b: nat, n: nat {:trigger LiveAt(ts', b, n)} :: LiveAt(ts', b, n) <==> LiveAt(ts, b, n)
  }

  /** The blocks cover what they did and [lo, hi). */
  ghost predicate Extends(ts: seq<Tile>, ts': seq<Tile>, lo: nat, hi: nat)
  {
    forall x: nat {:trigger Covered(ts', x)} :: Covered(ts', x) <==> Covered(ts, x) || lo <= x < hi
  }

  ghost predicate StartsLive(ts: seq<Tile>, a: nat)
  {
    exists i :: 0 <= i < |ts| && ts[i].live && ts[i].addr == a
  }

  lemma JoinedBlocks(ts: seq<Tile>, t: nat)
    requires Tiled(ts) && t < |ts| && ts[t].live
    ensures ts[First(ts, t)].addr <= End(ts[Last(ts, t) - 1])
    ensures Loses(ts, Joined(ts, t), ts[t].addr) && Extends(ts, Joined(ts, t), 0, 0)
  {
    JoinFits(ts, t);
    hide Covered, LiveAt, Joined;
    forall b: nat, n: nat
      ensures LiveAt(Joined(ts, t), b, n) <==> LiveAt(ts, b, n) && b != ts[t].addr
    {
      JoinedLive(ts, t, b, n);
    }
    forall x: nat
      ensures Covered(Joined(ts, t), x) <==> Covered(ts, x)
    {
      JoinedCovers(ts, t, x);
    }
  }

  lemma TakenBlocks(ts: seq<Tile>, t: nat, n: nat)
    requires Tiled(ts) && t < |ts| && !ts[t].live && 0 < n <= ts[t].size
    ensures Gains(ts, Taken(ts, t, n), End(ts[t]) - n, n) && Extends(ts, Taken(ts, t, n), 0, 0)
  {
    TailIsFree(ts, t, n);
    hide Covered, LiveAt, Taken, StartsLive;
    forall b: nat, m: nat
      ensures LiveAt(Taken(ts, t, n), b, m) <==> LiveAt(ts, b, m) || (b == End(ts[t]) - n && m == n)
    {
      TakenLive(ts, t, n, b, m);
    }
    forall x: nat
      ensures Covered(Taken(ts, t, n), x) <==> Covered(ts, x)
    {
      TakenCovers(ts, t, n, x);
    }
  }

  /** No live block starts where the taken one does. */
  lemma TailIsFree(ts: seq<Tile>, t: nat, n: nat)
    requires Tiled(ts) && t < |ts| && !ts[t].live && 0 < n <= ts[t].size
    ensures !StartsLive(ts, End(ts[t]) - n)
  {
    forall i | 0 <= i < |ts| && ts[i].live
      ensures ts[i].addr != End(ts[t]) - n
    {
      assert if i < t then Before(ts[i], ts[t]) else Before(ts[t], ts[i]);
    }
  }

  /** Appending fresh memory and freeing it: the same live blocks, more covered. */
  lemma AddedBlocks(ts: seq<Tile>, ts': seq<Tile>, brk: nat, p: nat, n: nat)
    requires Tiled(ts) && Below(ts, brk) && brk <= p && n > 0
    requires Loses(ts + [Tile(p, n, true)], ts', p) && Extends(ts + [Tile(p, n, true)], ts', 0, 0)
    ensures SameLive(ts, ts') && Extends(ts, ts', p, p + n)
  {
    var x := Tile(p, n, true);
    hide Covered;
    forall b: nat, m: nat
      ensures LiveAt(ts', b, m) <==> LiveAt(ts, b, m)
    {
      assert LiveAt(ts + [x], b, m) <==> LiveAt(ts, b, m) || x == Tile(b, m, true);
      assert LiveAt(ts, b, m) ==> b < p;
    }
    forall y: nat
      ensures Covered(ts', y) <==> Covered(ts, y) || p <= y < p + n
    {
      CoveredConcat(ts, [x], y);
      CoveredOne(x, y);
    }
  }

  lemma TakenBelow(ts: seq<Tile>, t: nat, n: nat, brk: nat)
    requires t < |ts| && 0 < n <= ts[t].size && Below(ts, brk)
    ensures Below(Taken(ts, t, n), brk)
  {
  }

  lemma FrontPlace(base: nat, ts: seq<Tile>, t: nat)
    requires Tiled(ts) && Above(base, ts) && t < |ts| && ts[t].live
    ensures var a, l := Front(base, ts, t), List(base, ts);
            |a| <= |l| && base <= l[|a| - 1] == a[|a| - 1] < ts[t].addr && (|a| < |l| ==> ts[t].addr < l[|a|])
                && Ascending(l)
  {
    Place(base, ts, t);
    hide Frees;
    var a, b, l := Front(base, ts, t), Rear(ts, t), List(base, ts);
    assert |a| < |l| ==> l[|a|] == b[0];
    assert |a| > 1 ==> l[0] < l[|a| - 1];
  }

  lemma PrevPositive(base: nat, ts: seq<Tile>, t: nat)
    requires Tiled(ts) && Above(base, ts) && base > 0 && t < |ts| && !ts[t].live
    ensures Front(base, ts, t)[|Front(base, ts, t)| - 1] > 0
  {
    hide Frees;
    FreePlace(base, ts, t);
    var a, l := Front(base, ts, t), List(base, ts);
    assert l[0] == base && l[|a| - 1] == a[|a| - 1];
    assert |a| > 1 ==> l[0] < l[|a| - 1];
  }

  /** The joined block is at least as large as the one freed. */
  lemma JoinGrows(ts: seq<Tile>, t: nat)
    requires Tiled(ts) && t < |ts| && ts[t].live && ts[First(ts, t)].addr <= End(ts[Last(ts, t) - 1])
    ensures exists i :: 0 <= i < |Joined(ts, t)| && !Joined(ts, t)[i].live && Joined(ts, t)[i].size >= ts[t].size
  {
    JoinFits(ts, t);
    var lo := First(ts, t);
    assert !Joined(ts, t)[lo].live && Joined(ts, t)[lo].size >= ts[t].size;
  }

  predicate SameAt(hdr: map<nat, Header>, hdr': map<nat, Header>, x: nat)
  {
    (x in hdr' <==> x in hdr) && (x in hdr ==> hdr'[x] == hdr[x])
  }

  /** No header is written inside a live block, except the one at `a`. */
  ghost predicate Spares(ts: seq<Tile>, hdr: map<nat, Header>, hdr': map<nat, Header>, a: nat)
  {
    forall b: nat, n: nat, x: nat {:trigger LiveAt(ts, b, n), SameAt(hdr, hdr', x)} |
      LiveAt(ts, b, n) && b != a && b <= x < b + n :: SameAt(hdr, hdr', x)
  }

  /** An element of the free list is not inside a live block. */
  lemma ListNotLive(base: nat, ts: seq<Tile>, t: nat, b: nat, n: nat)
    requires Tiled(ts) && Above(base, ts) && t <= |ts| && LiveAt(ts, b, n)
    ensures var p := Front(base, ts, t)[|Front(base, ts, t)| - 1]; !(b <= p < b + n)
  {
    var f := Frees(ts[..t]);
    var j :| 0 <= j < |ts| && ts[j] == Tile(b, n, true);
    if f != [] {
      var i := FreesFrom(ts[..t], |f| - 1);
      assert ts[..t][i] == ts[i];
      assert if i < j then Before(ts[i], ts[j]) else Before(ts[j], ts[i]);
    }
  }

  lemma FreeSpares(base: nat, hdr: map<nat, Header>, ts: seq<Tile>, t: nat)
    requires Tiled(ts) && Above(base, ts) && t < |ts| && ts[t].live
    ensures var p := Front(base, ts, t)[|Front(base, ts, t)| - 1];
            Spares(ts, hdr, Coalesce(hdr, p, ts[t].addr), ts[t].addr)
  {
    var p := Front(base, ts, t)[|Front(base, ts, t)| - 1];
    forall b: nat, n: nat, x: nat | LiveAt(ts, b, n) && b != ts[t].addr && b <= x < b + n
      ensures SameAt(hdr, Coalesce(hdr, p, ts[t].addr), x)
    {
      ListNotLive(base, ts, t, b, n);
      var j :| 0 <= j < |ts| && ts[j] == Tile(b, n, true);
      assert if t < j then Before(ts[t], ts[j]) else Before(ts[j], ts[t]);
    }
  }

  lemma TakeSpares(base: nat, hdr: map<nat, Header>, ts: seq<Tile>, t: nat, n: nat)
    requires Tiled(ts) && Above(base, ts) && t < |ts| && !ts[t].live && Size(hdr, ts[t].addr) == ts[t].size >= n > 0
    ensures var p := Front(base, ts, t)[|Front(base, ts, t)| - 1]; Spares(ts, hdr, Carve(hdr, p, ts[t].addr, n), 0)
  {
    var p := Front(base, ts, t)[|Front(base, ts, t)| - 1];
    forall b: nat, m: nat, x: nat | LiveAt(ts, b, m) && b != 0 && b <= x < b + m
      ensures SameAt(hdr, Carve(hdr, p, ts[t].addr, n), x)
    {
      ListNotLive(base, ts, t, b, m);
      var j :| 0 <= j < |ts| && ts[j] == Tile(b, m, true);
      assert if t < j then Before(ts[t], ts[j]) else Before(ts[j], ts[t]);
    }
  }

  /** Two changes in a row, when the first keeps the live blocks. */
  lemma SparesTrans(ts: seq<Tile>, ts': seq<Tile>, h0: map<nat, Header>, h1: map<nat, Header>, h2: map<nat, Header>)
    requires Spares(ts, h0, h1, 0) && Spares(ts', h1, h2, 0) && SameLive(ts, ts')
    ensures Spares(ts, h0, h2, 0)
  {
    hide LiveAt;
    forall b: nat, n: nat, x: nat | LiveAt(ts, b, n) && b != 0 && b <= x < b + n
      ensures SameAt(h0, h2, x)
    {
      assert LiveAt(ts', b, n);
      assert SameAt(h0, h1, x) && SameAt(h1, h2, x);
    }
  }

  lemma SparesSelf(ts: seq<Tile>, h: map<nat, Header>)
    ensures Spares(ts, h, h, 0)
  {
  }

  /** The header of fresh memory, and freeing that memory, touch no older block. */
  lemma AddedSpares(ts: seq<Tile>, h: map<nat, Header>, h': map<nat, Header>, brk: nat, p: nat, n: nat)
    requires Below(ts, brk) && brk <= p && Spares(ts + [Tile(p, n, true)], h[p := Header(0, n)], h', p)
    ensures Spares(ts, h, h', 0)
  {
    forall b: nat, m: nat, x: nat | LiveAt(ts, b, m) && b != 0 && b <= x < b + m
      ensures SameAt(h, h', x)
    {
      assert LiveAt(ts + [Tile(p, n, true)], b, m);
      assert b + m <= brk;
      assert SameAt(h[p := Header(0, n)], h', x);
    }
  }

  class Heap {
    const base: nat                     // &base, below all memory from sbrk
    var hdr: map<nat, Header>
    var freep: nat                      // 0 before the first call
    var brk: nat                        // end of the process's memory
    ghost var ts: seq<Tile>

    ghost predicate Valid()
      reads this
    {
      0 < base < brk && Below(ts, brk) && (if freep == 0 then ts == [] else HeapOk(base, hdr, freep, ts))
    }

    constructor (base: nat, brk: nat)
      requires 0 < base < brk
      ensures Valid() && this.base == base && this.brk == brk && ts == []
    {
      this.base, this.brk, hdr, freep, ts := base, brk, map[], 0, [];
    }

    /** free of live block `t`: it alone is no longer live, and the blocks cover what they covered. */
    method Free(ap: nat, ghost t: nat)
      requires Valid() && t < |ts| && ts[t].live && ap == ts[t].addr + 1
      modifies this`hdr, this`freep, this`ts
      ensures Valid() && freep != 0 && Loses(old(ts), ts, ap - 1) && Extends(old(ts), ts, 0, 0)
      ensures exists i :: 0 <= i < |ts| && !ts[i].live && ts[i].size >= old(ts)[t].size
      ensures Spares(old(ts), old(hdr), hdr, ap - 1) && freep == ListedBefore(base, old(ts), t)
      ensures old(ts)[First(old(ts), t)].addr <= End(old(ts)[Last(old(ts), t) - 1]) && ts == Joined(old(ts), t)
    {
      hide Tiled, Ring, Sizes, Frees, Joined, Loses, Extends, Ascending, Above, Coalesce, Front, First, Last, Spares;
      ghost var l := List(base, ts);
      FrontPlace(base, ts, t);
      ghost var start: nat :| start < |l| && l[start] == freep;
      var bp := ap - 1;
      var p := FindPlace(hdr, freep, bp, l, start, |Front(base, ts, t)| - 1);
      FreeKeeps(base, hdr, freep, ts, t);
      JoinedBelow(ts, t, brk);
      JoinedBlocks(ts, t);
      JoinGrows(ts, t);
      FreeSpares(base, hdr, ts, t);
      hdr := Coalesced(hdr, p, bp);
      freep := p;
      ts := Joined(ts, t);
    }

    /** morecore: at least 4096 units from sbrk, `gap` above the break, freed into the list; false if sbrk fails. */
    method Morecore(nu: nat, more: bool, gap: nat) returns (ok: bool)
      requires Valid() && freep != 0 && nu > 0 && (more ==> SbrkArg(Asked(nu)) == Asked(nu) * HEADER)
      modifies this
      ensures Valid() && freep != 0 && ok == more && (!ok ==> ts == old(ts) && brk == old(brk))
      ensures ok ==> brk == old(brk) + gap + Asked(nu) && SameLive(old(ts), ts)
                     && Extends(old(ts), ts, old(brk) + gap, brk) && NewOnTop(old(ts), ts, brk)
      ensures ok ==> exists i :: 0 <= i < |ts| && !ts[i].live && ts[i].size >= nu
      ensures Spares(old(ts), old(hdr), hdr, 0)
    {
      hide Tiled, Ring, Sizes, Frees, Loses, Extends, SameLive, Above, Spares, SbrkArg;
      SparesSelf(ts, hdr);
      var n := Asked(nu);
      if !more {
        return false;
      }
      var p := brk + gap;
      ghost var ts0 := ts;
      AppendKeeps(base, hdr, freep, ts, brk, p, n);
      brk := p + SbrkArg(n) / HEADER;
      hdr := hdr[p := Header(0, n)];
      ts := ts + [Tile(p, n, true)];
      Free(p + 1, |ts0|);
      AddedBlocks(ts0, ts, old(brk), p, n);
      AddedSpares(ts0, old(hdr), hdr, old(brk), p, n);
      JoinedOnTop(ts0, Tile(p, n, true));
      ok := true;
    }

    /** The branch of malloc that found a block: all of it, or its tail. */
    method Take(prevp: nat, n: nat, ghost t: nat) returns (r: nat)
      requires Valid() && freep != 0 && t < |ts| && !ts[t].live && 0 < n <= ts[t].size && ts[t].addr == Ptr(hdr, prevp)
      requires prevp == Front(base, ts, t)[|Front(base, ts, t)| - 1]
      modifies this`hdr, this`freep, this`ts
      ensures Valid() && freep != 0 && r > 0 && Gains(old(ts), ts, r - 1, n) && Extends(old(ts), ts, 0, 0)
      ensures Spares(old(ts), old(hdr), hdr, 0) && r - 1 == End(old(ts)[t]) - n && freep == prevp
    {
      hide Tiled, Ring, Sizes, Frees, Gains, Extends, Above, Taken, Spares;
      TakeKeeps(base, hdr, freep, ts, t, n);
      TakenBelow(ts, t, n, brk);
      TakenBlocks(ts, t, n);
      PrevPositive(base, ts, t);
      TakeSpares(base, hdr, ts, t, n);
      var p := Ptr(hdr, prevp);
      if Size(hdr, p) == n {
        hdr := hdr[prevp := Header(Ptr(hdr, p), Size(hdr, prevp))];
      } else {
        var rest := Size(hdr, p) - n;
        hdr := hdr[p := Header(Ptr(hdr, p), rest)][p + rest := Header(Ptr(hdr, p + rest), n)];
        p := p + rest;
      }
      freep := prevp;
      ts := Taken(ts, t, n);
      r := p + 1;
    }

    /**
    malloc: a new live block of Units(nbytes) units apart from all others, or 0 when no free block is
    large enough and sbrk fails. The search goes around the list once, and once more after morecore. Only a
    request that needs new memory has to be within the bound of RequestFits.
    */
    method Malloc(nbytes: nat, more: bool, gap: nat) returns (r: nat, ghost grown: bool)
      requires Valid() && nbytes < 0x1_0000_0000 && (more && AllSmall(ts, Units(nbytes)) ==> Grantable(nbytes))
      modifies this
      ensures Valid() && freep != 0 && (grown <==> more && AllSmall(old(ts), Units(nbytes)))
      ensures (r == 0 <==> !more && AllSmall(old(ts), Units(nbytes))) && (r == 0 ==> ts == old(ts))
      ensures r != 0 ==> Gains(old(ts), ts, r - 1, Units(nbytes))
      ensures if grown then brk == old(brk) + gap + (if Units(nbytes) < 4096 then 4096 else Units(nbytes))
                            && Extends(old(ts), ts, old(brk) + gap, brk) && r - 1 == brk - Units(nbytes)
              else brk == old(brk) && Extends(old(ts), ts, 0, 0)
      ensures r != 0 && !grown ==>
                exists t: nat ::
                  FirstFit(old(ts), old(freep), t, Units(nbytes)) && r - 1 == End(old(ts)[t]) - Units(nbytes)
                  && freep == ListedBefore(base, old(ts), t)
      ensures Spares(old(ts), old(hdr), hdr, 0)
    {
      hide Tiled, Ring, Sizes, Frees, Gains, Extends, SameLive, Above, HeapOk, SbrkArg, FirstFit;
      var nunits := Units(nbytes);
      assert nunits > 0;
      hide Units;
      grown := false;
      ghost var ts0 := ts;
      NothingNew(ts0);
      if freep == 0 {
        EmptyHeap(base, hdr);
        hdr := hdr[base := Header(base, 0)];
        freep := base;
      }
      ghost var h0 := hdr;
      assert Spares(ts0, old(hdr), h0, 0);
      hide Spares;
      SparesSelf(ts0, h0);
      var found, prevp;
      ghost var t;
      found, prevp, t := Search(base, hdr, freep, nunits, ts);
      if !found {
        RequestFits(nbytes);
        var ok := Morecore(nunits, more, gap);
        if !ok {
          return 0, false;
        }
        grown := true;
        found, prevp, t := Search(base, hdr, freep, nunits, ts);
        assert found;
      }
      ghost var ts1, h1 := ts, hdr;
      r := Take(prevp, nunits, t);
      SparesTrans(ts0, ts1, h0, h1, hdr);
      SparesTrans(ts0, ts0, old(hdr), h0, hdr);
      Compose(ts0, ts1, ts, r - 1, nunits, if grown then old(brk) + gap else 0, if grown then brk else 0);
    }
  }

  /** No free block has `n` units. */
  predicate AllSmall(ts: seq<Tile>, n: nat)
  {
    forall i | 0 <= i < |ts| && !ts[i].live :: ts[i].size < n
  }

  lemma NothingNew(ts: seq<Tile>)
    ensures SameLive(ts, ts) && Extends(ts, ts, 0, 0)
  {
  }

  /** Growing the heap and then taking a block. */
  lemma Compose(ts: seq<Tile>, ts1: seq<Tile>, ts2: seq<Tile>, a: nat, n: nat, lo: nat, hi: nat)
    requires SameLive(ts, ts1) && Extends(ts, ts1, lo, hi) && Gains(ts1, ts2, a, n) && Extends(ts1, ts2, 0, 0)
    ensures Gains(ts, ts2, a, n) && Extends(ts, ts2, lo, hi)
  {
    hide Covered;
    StartsSame(ts, ts1, a);
    forall x: nat
      ensures Covered(ts2, x) <==> Covered(ts, x) || lo <= x < hi
    {
      assert Covered(ts2, x) <==> Covered(ts1, x) || 0 <= x < 0;
    }
  }

  lemma StartsSame(ts: seq<Tile>, ts': seq<Tile>, a: nat)
    requires SameLive(ts, ts')
    ensures StartsLive(ts, a) ==> StartsLive(ts', a)
  {
    if StartsLive(ts, a) {
      var i :| 0 <= i < |ts| && ts[i].live && ts[i].addr == a;
      assert LiveAt(ts, a, ts[i].size) && LiveAt(ts', a, ts[i].size);
      var j :| 0 <= j < |ts'| && ts'[j] == Tile(a, ts[i].size, true);
    }
  }

  /** free after the search, in the order of the code. */
  method Coalesced(hdr: map<nat, Header>, p: nat, bp: nat) returns (h: map<nat, Header>)
    ensures h == Coalesce(hdr, p, bp)
  {
    h := hdr;
    var next := Ptr(h, p);
    if bp + Size(h, bp) == next {
      h := h[bp := Header(Ptr(h, bp), Size(h, bp) + Size(h, next))];
      h := h[bp := Header(Ptr(h, next), Size(h, bp))];
    } else {
      h := h[bp := Header(next, Size(h, bp))];
    }
    if p + Size(h, p) == bp {
      h := h[p := Header(Ptr(h, p), Size(h, p) + Size(h, bp))];
      h := h[p := Header(Ptr(h, bp), Size(h, p))];
    } else {
      h := h[p := Header(bp, Size(h, p))];
    }
  }
}
